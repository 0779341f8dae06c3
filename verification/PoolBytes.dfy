/** How a publication lengthens the shared pool's state file when a digest takes the place of a null: proved of the
    record that is written, member by member. */
module PoolBytes {
  import opened Wrappers
  import opened Text
  import opened Values
  import opened Canon
  import opened Sizes
  import Records = LedgerRecords
  import Adoption

  // --- replacing one member or item ------------------------------------------------------------------

  ghost predicate KeysOnce(keys: seq<Text>)
  {
    forall a, b :: 0 <= a < b < |keys| ==> keys[a] != keys[b]
  }

  lemma {:induction false} BytesReplaced(m: map<Text, Value>, n: map<Text, Value>, keys: seq<Text>, i: nat, k: Text)
    requires MembersRender(m) && MembersRender(n) && m.Keys == n.Keys && AllIn(keys, m) && AllIn(keys, n)
             && i <= |keys| && KeysOnce(keys)
    requires k in m && forall j :: j in m && j != k ==> n[j] == m[j]
    ensures if k in keys[i..] then MembersBytes(n, keys, i) + Size(Render(m[k]))
            == MembersBytes(m, keys, i) + Size(Render(n[k]))
            else MembersBytes(n, keys, i) == MembersBytes(m, keys, i)
    decreases |keys| - i
  {
    hide Render, RenderString, Size;
    if i < |keys| {
      BytesReplaced(m, n, keys, i + 1, k);
      assert keys[i] in keys;
      assert keys[i..] == [keys[i]] + keys[i + 1..];
      if keys[i] == k { assert k !in keys[i + 1..]; }
    }
  }

  /** An object grows by what the member's value grows. */
  lemma MemberReplaced(m: map<Text, Value>, k: Text, v: Value)
    requires MembersRender(m) && k in m && Render(v).Ok?
    ensures MembersRender(m[k := v]) && Render(Obj(m)).Ok? && Render(Obj(m[k := v])).Ok?
    ensures Size(Render(Obj(m[k := v]))) + Size(Render(m[k])) == Size(Render(Obj(m))) + Size(Render(v))
  {
    var n := m[k := v];
    hide Render, Size, Sorted, MembersBytes;
    assert n.Keys == m.Keys;
    ObjectExactly(m);
    ObjectExactly(n);
    SortedDistinct(m.Keys);
    assert |n| == |n.Keys| == |m|;
    BytesReplaced(m, n, Sorted(m.Keys), 0, k);
    assert k in Sorted(m.Keys);
    assert Sorted(m.Keys)[0..] == Sorted(m.Keys);
  }

  lemma ItemSize(items: seq<Value>, i: nat)
    requires i < |items| && Render(items[i]).Ok? && RenderItems(Arr(items), i + 1).Ok?
    ensures RenderItems(Arr(items), i).Ok?
    ensures Size(RenderItems(Arr(items), i))
            == ByteLength(Separator(i)) + Size(Render(items[i])) + Size(RenderItems(Arr(items), i + 1))
  {
    ThenSize(Render(items[i]), RenderItems(Arr(items), i + 1));
    ThenSize(Ok(Separator(i)), Then(Render(items[i]), RenderItems(Arr(items), i + 1)));
    hide Render, Then, Size;
  }

  lemma {:induction false} ItemsReplaced(items: seq<Value>, at: nat, v: Value, i: nat)
    requires at < |items| && i <= |items| && Render(v).Ok? && forall j :: 0 <= j < |items| ==> Render(items[j]).Ok?
    ensures RenderItems(Arr(items), i).Ok? && RenderItems(Arr(items[at := v]), i).Ok?
    ensures Size(RenderItems(Arr(items[at := v]), i)) + (if i <= at then Size(Render(items[at])) else 0)
         == Size(RenderItems(Arr(items), i)) + (if i <= at then Size(Render(v)) else 0)
    decreases |items| - i
  {
    hide Render, Size, ByteLength;
    if i == |items| {
      ClosingBracket(items);
      ClosingBracket(items[at := v]);
    } else {
      hide RenderItems;
      ItemsReplaced(items, at, v, i + 1);
      ItemSize(items, i);
      ItemSize(items[at := v], i);
    }
  }

  /** And so does an array. */
  lemma ItemReplaced(items: seq<Value>, at: nat, v: Value)
    requires at < |items| && Render(v).Ok? && forall j :: 0 <= j < |items| ==> Render(items[j]).Ok?
    ensures Render(Arr(items)).Ok? && Render(Arr(items[at := v])).Ok?
    ensures Size(Render(Arr(items[at := v]))) + Size(Render(items[at])) == Size(Render(Arr(items))) + Size(Render(v))
  {
    hide Render, Size, RenderItems;
    ItemsReplaced(items, at, v, 0);
    ArrayIsItems(items);
    ArrayIsItems(items[at := v]);
  }

  lemma {:induction false} DigitsBytes(t: Text)
    requires AllDigits(t)
    ensures ByteLength(t) == |t|
  {
    AsciiBytes(t);
  }

  lemma PlainSizes(n: nat)
    requires n <= 9007199254740991
    ensures Render(Null).Ok? && Size(Render(Null)) == 4
    ensures Render(Int(n)).Ok? && Size(Render(Int(n))) == Width(n)
  {
    AsciiBytes(NULL_TEXT);
    DigitsBytes(Digits(n));
    hide ByteLength;
  }

  // --- the pool's record -----------------------------------------------------------------------------

  /** The names of the members a publication changes. */
  datatype Keys = Keys(body: Text, entries: Text, revision: Text, previous: Text, sha: Text, signature: Text)

  ghost predicate KeysApart(k: Keys)
  {
    k.body != k.sha && k.body != k.signature && k.sha != k.signature
    && k.entries != k.revision && k.entries != k.previous && k.revision != k.previous
  }

  /** A record around a body that holds entries, a revision and the digest of the record before. */
  ghost predicate IsRecord(k: Keys, record: map<Text, Value>, body: map<Text, Value>, entries: seq<Value>, n: nat)
  {
    && MembersRender(record) && k.body in record && record[k.body] == Obj(body)
    && k.sha in record && Digest(record[k.sha], 64) && k.signature in record && Digest(record[k.signature], 128)
    && MembersRender(body) && k.entries in body && body[k.entries] == Arr(entries)
    && k.revision in body && body[k.revision] == Int(n) && k.previous in body && Digest(body[k.previous], 64)
    && forall j :: 0 <= j < |entries| ==> Render(entries[j]).Ok?
  }

  predicate Digest(v: Value, length: nat)
  {
    v.Str? && IsHex(v.text, length)
  }

  lemma DigestSize(v: Value, length: nat)
    requires Digest(v, length)
    ensures Render(v).Ok? && Size(Render(v)) == length + 2
  {
    HexStringSize(v.text);
  }

  /** One member of an object, replaced by another of its length. */
  lemma SameLength(m: map<Text, Value>, k: Text, v: Value, length: nat)
    requires MembersRender(m) && k in m && Digest(m[k], length) && Digest(v, length)
    ensures MembersRender(m[k := v]) && Render(Obj(m)).Ok? && Render(Obj(m[k := v])).Ok?
            && Size(Render(Obj(m[k := v]))) == Size(Render(Obj(m)))
  {
    hide Render, Size, MembersRender;
    DigestSize(m[k], length);
    DigestSize(v, length);
    MemberReplaced(m, k, v);
  }

  /** An entry with a digest where it had a null is 62 bytes longer. */
  lemma EntryGrows(entry: map<Text, Value>, slot: Text, v: Value)
    requires MembersRender(entry) && slot in entry && entry[slot] == Null && Digest(v, 64)
    ensures Render(Obj(entry)).Ok? && Render(Obj(entry[slot := v])).Ok?
    ensures Size(Render(Obj(entry[slot := v]))) == Size(Render(Obj(entry))) + 62
  {
    hide Render, Size, MembersRender;
    DigestSize(v, 64);
    PlainSizes(0);
    MemberReplaced(entry, slot, v);
  }

  lemma BodyGrows(k: Keys, body: map<Text, Value>, entries: seq<Value>, at: nat, entry: map<Text, Value>, slot: Text,
                  v: Value, before: Value, n: nat)
    requires KeysApart(k) && MembersRender(body) && k.entries in body && body[k.entries] == Arr(entries)
    requires k.revision in body && body[k.revision] == Int(n) && k.previous in body
             && Digest(body[k.previous], 64) && n < 9007199254740991
    requires at < |entries| && entries[at] == Obj(entry) && forall j :: 0 <= j < |entries| ==> Render(entries[j]).Ok?
    requires MembersRender(entry) && slot in entry && entry[slot] == Null && Digest(v, 64) && Digest(before, 64)
    ensures var after := body[k.entries := Arr(entries[at := Obj(entry[slot := v])])][k.revision := Int(n
            + 1)][k.previous := before];
            && Render(Obj(body)).Ok? && Render(Obj(after)).Ok? && MembersRender(after)
            && Size(Render(Obj(after))) + Width(n) == Size(Render(Obj(body))) + 62 + Width(n + 1)
  {
    hide Render, Size, MembersRender, Width;
    EntryGrows(entry, slot, v);
    ItemReplaced(entries, at, Obj(entry[slot := v]));
    var a := body[k.entries := Arr(entries[at := Obj(entry[slot := v])])];
    MemberReplaced(body, k.entries, Arr(entries[at := Obj(entry[slot := v])]));
    PlainSizes(n);
    PlainSizes(n + 1);
    MemberReplaced(a, k.revision, Int(n + 1));
    SameLength(a[k.revision := Int(n + 1)], k.previous, before, 64);
  }

  lemma WidthGrows(n: nat)
    ensures Width(n) <= Width(n + 1) <= Width(n) + 1
    decreases n
  {
    if n >= 10 && n % 10 == 9 {
      WidthGrows(n / 10);
      assert (n + 1) / 10 == n / 10 + 1;
    }
  }

  /** The state file that is written when an entry's intent or completion, null until then, becomes a digest, is as long
      as the adoption's model of it says: 62 bytes more, and one besides where the revision takes a digit more. */
  lemma PublicationGrows(k: Keys, record: map<Text, Value>, body: map<Text, Value>, entries: seq<Value>, at: nat,
                         entry: map<Text, Value>,
                         slot: Text, digest: Value, before: Value, sha: Value, signature: Value, n: nat)
    requires KeysApart(k) && IsRecord(k, record, body, entries, n) && n < 9007199254740991
    requires at < |entries| && entries[at] == Obj(entry) && MembersRender(entry) && slot in entry && entry[slot] == Null
    requires Digest(digest, 64) && Digest(before, 64) && Digest(sha, 64) && Digest(signature, 128)
    ensures var next := body[k.entries := Arr(entries[at := Obj(entry[slot := digest])])][k.revision := Int(n
            + 1)][k.previous := before];
            var written := record[k.body := Obj(next)][k.sha := sha][k.signature := signature];
            && Render(Obj(record)).Ok? && Render(Obj(written)).Ok?
            && Adoption.Pool(Size(Render(Obj(written))), n + 1)
                == Adoption.Published(Adoption.Pool(Size(Render(Obj(record))), n))
  {
    hide Render, Size, MembersRender, Width;
    BodyGrows(k, body, entries, at, entry, slot, digest, before, n);
    var next := body[k.entries := Arr(entries[at := Obj(entry[slot := digest])])][k.revision := Int(n
        + 1)][k.previous := before];
    MemberReplaced(record, k.body, Obj(next));
    var a := record[k.body := Obj(next)];
    SameLength(a, k.sha, sha, 64);
    SameLength(a[k.sha := sha], k.signature, signature, 128);
    WidthGrows(n);
  }
}
