/** How long canonical text is: exact and bounding lengths of the renderings of vfy/canon.py, in bytes. */
module Sizes {
  import opened Wrappers
  import opened Text
  import opened Values
  import opened Canon

  /** The UTF-8 length of a text. */
  function ByteLength(t: Text): nat
  {
    if t == [] then 0
    else (if t[0] < 0x80 then 1 else if t[0] < 0x800 then 2 else if t[0] < 0x10000 then 3 else 4) + ByteLength(t[1..])
  }

  lemma {:induction false} ByteLengthConcat(a: Text, b: Text)
    ensures ByteLength(a + b) == ByteLength(a) + ByteLength(b)
  {
    if a == [] {
      assert a + b == b;
    } else {
      assert (a + b)[1..] == a[1..] + b;
      ByteLengthConcat(a[1..], b);
    }
  }

  /** The length of a rendering. */
  function Size(r: Rendering): nat
    requires r.Ok?
  {
    ByteLength(r.value)
  }

  lemma ThenSize(a: Rendering, b: Rendering)
    ensures Then(a, b).Ok? <==> a.Ok? && b.Ok?
    ensures Then(a, b).Ok? ==> Size(Then(a, b)) == Size(a) + Size(b)
  {
    if a.Ok? && b.Ok? { ByteLengthConcat(a.value, b.value); }
  }

  predicate IsHex(t: Text, length: nat)
  {
    |t| == length && forall i :: 0 <= i < |t| ==> IsDigit(t[i]) || 0x61 <= t[i] <= 0x66
  }

  lemma {:induction false} HexSize(t: Text)
    requires IsHex(t, |t|)
    ensures SurrogateFree(t) && ByteLength(Escapes(t)) == |t|
  {
    if t != [] {
      HexSize(t[1..]);
      assert Escaped(t[0]) == [t[0]];
      assert ([t[0]] + Escapes(t[1..]))[1..] == Escapes(t[1..]);
    }
  }

  lemma HexStringSize(t: Text)
    requires IsHex(t, |t|)
    ensures Render(Str(t)).Ok? && Size(Render(Str(t))) == |t| + 2
  {
    HexSize(t);
    ByteLengthConcat([QUOTE], Escapes(t));
    ByteLengthConcat([QUOTE] + Escapes(t), [QUOTE]);
    assert ByteLength([QUOTE]) == 1 by { assert [QUOTE][1..] == []; }
    hide ByteLength, Escapes, IsHex;
  }

  lemma MemberSize(x: map<Text, Value>, keys: seq<Text>, i: nat)
    requires AllIn(keys, x) && i < |keys| && SurrogateFree(keys[i])
    requires Render(x[keys[i]]).Ok? && RenderMembers(Obj(x), keys, i + 1).Ok?
    ensures RenderMembers(Obj(x), keys, i).Ok?
    ensures Size(RenderMembers(Obj(x), keys, i))
         == ByteLength(Separator(i)) + Size(RenderString(keys[i])) + 1 + Size(Render(x[keys[i]])) + Size(RenderMembers(Obj(x), keys, i + 1))
  {
    var name, rest := RenderString(keys[i]), RenderMembers(Obj(x), keys, i + 1);
    var named := Then(name, Ok([COLON]));
    var member := Then(Render(x[keys[i]]), rest);
    ThenSize(name, Ok([COLON]));
    ThenSize(Render(x[keys[i]]), rest);
    ThenSize(named, member);
    ThenSize(Ok(Separator(i)), Then(named, member));
    assert ByteLength([COLON]) == 1 by { assert [COLON][1..] == []; }
    hide Render, RenderString, Then, Size;
  }

  lemma SortedDistinct(s: set<Text>)
    ensures forall a, b :: 0 <= a < b < |Sorted(s)| ==> Sorted(s)[a] != Sorted(s)[b]
  {
    var keys := Sorted(s);
    hide Sorted, TextLess;
    forall a, b | 0 <= a < b < |keys| ensures keys[a] != keys[b] { TextLessTotal(keys[a], keys[b]); }
  }

  lemma ObjectRenders(x: map<Text, Value>)
    requires AllIn(Sorted(x.Keys), x) && RenderMembers(Obj(x), Sorted(x.Keys), 0).Ok?
    ensures Render(Obj(x)).Ok? && Size(Render(Obj(x))) == 1 + Size(RenderMembers(Obj(x), Sorted(x.Keys), 0))
  {
    ThenSize(Ok([LBRACE]), RenderMembers(Obj(x), Sorted(x.Keys), 0));
    assert ByteLength([LBRACE]) == 1 by { assert [LBRACE][1..] == []; }
    hide Size, Then, RenderMembers, Sorted;
  }

  lemma ObjectNonempty(x: map<Text, Value>)
    requires Render(Obj(x)).Ok?
    ensures Size(Render(Obj(x))) >= 1
  {
    assert AllIn(Sorted(x.Keys), x);
    ThenSize(Ok([LBRACE]), RenderMembers(Obj(x), Sorted(x.Keys), 0));
    assert ByteLength([LBRACE]) == 1 by { assert [LBRACE][1..] == []; }
    hide Size, RenderMembers, Sorted;
  }

  // --- bounds on objects and arrays --------------------------------------------------------------------

  /** Keys and members all have canonical text. */
  predicate MembersRender(m: map<Text, Value>)
  {
    forall k :: k in m ==> SurrogateFree(k) && Render(m[k]).Ok?
  }

  /** What a member takes in its object: the quoted key, the colon and the value. */
  function MemberBytes(m: map<Text, Value>, k: Text): nat
    requires MembersRender(m) && k in m
  {
    Size(RenderString(k)) + 1 + Size(Render(m[k]))
  }

  /** The members from `i` on, with a comma each. */
  function MembersBytes(m: map<Text, Value>, keys: seq<Text>, i: nat): nat
    requires MembersRender(m) && AllIn(keys, m) && i <= |keys|
    decreases |keys| - i
  {
    if i == |keys| then 0 else MemberBytes(m, keys[i]) + 1 + MembersBytes(m, keys, i + 1)
  }

  lemma SeparatorBytes(i: nat)
    ensures ByteLength(Separator(i)) == if i == 0 then 0 else 1
  {
    if i > 0 { assert [COMMA][1..] == []; }
  }

  lemma {:induction false} MembersExactly(m: map<Text, Value>, keys: seq<Text>, i: nat)
    requires MembersRender(m) && AllIn(keys, m) && i <= |keys|
    ensures RenderMembers(Obj(m), keys, i).Ok?
    ensures Size(RenderMembers(Obj(m), keys, i)) == MembersBytes(m, keys, i) + 1 - if i == 0 < |keys| then 1 else 0
    decreases |keys| - i
  {
    hide Render, RenderString, Size;
    if i == |keys| {
      ClosingBrace(m, keys);
    } else {
      hide RenderMembers;
      assert keys[i] in keys;
      MembersExactly(m, keys, i + 1);
      MemberSize(m, keys, i);
      SeparatorBytes(i);
      hide ByteLength, Separator;
    }
  }

  lemma ClosingBrace(m: map<Text, Value>, keys: seq<Text>)
    requires AllIn(keys, m)
    ensures RenderMembers(Obj(m), keys, |keys|).Ok? && Size(RenderMembers(Obj(m), keys, |keys|)) == 1
  {
    assert ByteLength([RBRACE]) == 1 by { assert [RBRACE][1..] == []; }
  }

  /** An object's length exactly: two braces, its members, and a comma between each two. */
  lemma ObjectExactly(m: map<Text, Value>)
    requires MembersRender(m)
    ensures AllIn(Sorted(m.Keys), m)
    ensures Render(Obj(m)).Ok?
    ensures Size(Render(Obj(m))) == 2 + MembersBytes(m, Sorted(m.Keys), 0) - if |m| > 0 then 1 else 0
  {
    hide Render, RenderMembers, Size, MembersBytes, Sorted;
    assert AllIn(Sorted(m.Keys), m);
    assert |Sorted(m.Keys)| == |m.Keys| == |m|;
    MembersExactly(m, Sorted(m.Keys), 0);
    ObjectRenders(m);
  }

  lemma {:induction false} MembersAtLeast(m: map<Text, Value>, keys: seq<Text>, i: nat, a: Text, b: Text)
    requires MembersRender(m) && AllIn(keys, m) && i <= |keys| && a in m && b in m && a != b
    requires forall x, y :: 0 <= x < y < |keys| ==> keys[x] != keys[y]
    ensures MembersBytes(m, keys, i)
            >= (if a in keys[i..] then MemberBytes(m, a) + 1 else 0) + (if b in keys[i..] then MemberBytes(m, b) + 1 else 0)
    decreases |keys| - i
  {
    hide MemberBytes;
    if i < |keys| {
      MembersAtLeast(m, keys, i + 1, a, b);
      assert keys[i..] == [keys[i]] + keys[i + 1..];
      assert keys[i] !in keys[i + 1..];
    }
  }

  /** An object is longer than any two of its members together. */
  lemma ObjectAtLeast(m: map<Text, Value>, a: Text, b: Text)
    requires MembersRender(m) && a in m && b in m && a != b
    ensures Render(Obj(m)).Ok?
    ensures Size(Render(Obj(m))) >= Size(Render(m[a])) + Size(Render(m[b]))
  {
    hide Render, RenderMembers, Size, Sorted;
    var keys := Sorted(m.Keys);
    ObjectExactly(m);
    SortedDistinct(m.Keys);
    assert keys[0..] == keys && a in keys && b in keys;
    MembersAtLeast(m, keys, 0, a, b);
    hide MembersBytes;
  }

  lemma {:induction false} MembersAtMost(m: map<Text, Value>, keys: seq<Text>, i: nat, big: Text, each: nat)
    requires MembersRender(m) && AllIn(keys, m) && i <= |keys|
    requires forall x, y :: 0 <= x < y < |keys| ==> keys[x] != keys[y]
    requires forall k :: k in m && k != big ==> MemberBytes(m, k) <= each
    ensures MembersBytes(m, keys, i) <= (|keys| - i) * (each + 1) + if big in keys[i..] then MemberBytes(m, big) else 0
    decreases |keys| - i
  {
    hide MemberBytes;
    if i < |keys| {
      MembersAtMost(m, keys, i + 1, big, each);
      assert MembersBytes(m, keys, i) == MemberBytes(m, keys[i]) + 1 + MembersBytes(m, keys, i + 1);
      hide MembersBytes;
      assert keys[i..] == [keys[i]] + keys[i + 1..];
      assert keys[i] !in keys[i + 1..];
      OneMore(|keys| - i, each + 1);
    }
  }

  lemma OneMore(n: int, c: int)
    ensures n * c == (n - 1) * c + c
  {
  }

  lemma TimesMonotone(a: nat, b: nat, c: nat)
    requires a <= b
    ensures a * c <= b * c
  {
  }

  /** An object of at most `n` members, all but one of them short. */
  lemma ObjectAtMost(m: map<Text, Value>, big: Text, each: nat, n: nat)
    requires MembersRender(m) && |m| <= n
    requires forall k :: k in m && k != big ==> MemberBytes(m, k) <= each
    ensures Render(Obj(m)).Ok?
    ensures Size(Render(Obj(m))) <= 2 + n * (each + 1) + if big in m then MemberBytes(m, big) else 0
  {
    hide Render, RenderMembers, Size, Sorted, MemberBytes;
    var keys := Sorted(m.Keys);
    ObjectExactly(m);
    SortedDistinct(m.Keys);
    assert keys[0..] == keys;
    assert big in keys <==> big in m;
    assert |keys| == |m.Keys| == |m|;
    MembersAtMost(m, keys, 0, big, each);
    TimesMonotone(|m|, n, each + 1);
    hide MembersBytes, AllIn, MembersRender;
  }

  lemma {:induction false} ItemsAtMost(items: seq<Value>, i: nat, each: nat)
    requires i <= |items|
    requires forall j :: 0 <= j < |items| ==> Render(items[j]).Ok? && Size(Render(items[j])) <= each
    ensures RenderItems(Arr(items), i).Ok?
    ensures Size(RenderItems(Arr(items), i)) <= (|items| - i) * (each + 1) + 1
    decreases |items| - i
  {
    hide Render, Size;
    if i == |items| {
      ClosingBracket(items);
    } else {
      ItemsAtMost(items, i + 1, each);
      var rest := Then(Render(items[i]), RenderItems(Arr(items), i + 1));
      ThenSize(Render(items[i]), RenderItems(Arr(items), i + 1));
      ThenSize(Ok(Separator(i)), rest);
      SeparatorBytes(i);
      SizeOfOk(Separator(i));
      assert RenderItems(Arr(items), i) == Then(Ok(Separator(i)), rest);
      OneMore(|items| - i, each + 1);
      hide Then, RenderItems, Separator, ByteLength;
    }
  }

  lemma SizeOfOk(t: Text)
    ensures Size(Ok(t)) == ByteLength(t)
  {
  }

  lemma ClosingBracket(items: seq<Value>)
    ensures RenderItems(Arr(items), |items|).Ok? && Size(RenderItems(Arr(items), |items|)) == 1
  {
    assert ByteLength([RBRACKET]) == 1 by { assert [RBRACKET][1..] == []; }
  }

  lemma ArrayAtMost(items: seq<Value>, each: nat)
    requires forall j :: 0 <= j < |items| ==> Render(items[j]).Ok? && Size(Render(items[j])) <= each
    ensures Render(Arr(items)).Ok?
    ensures Size(Render(Arr(items))) <= |items| * (each + 1) + 2
  {
    hide Render, RenderItems, Size;
    ItemsAtMost(items, 0, each);
    ArrayIsItems(items);
  }

  lemma ArrayIsItems(items: seq<Value>)
    requires RenderItems(Arr(items), 0).Ok?
    ensures Render(Arr(items)).Ok? && Size(Render(Arr(items))) == 1 + Size(RenderItems(Arr(items), 0))
  {
    ThenSize(Ok([LBRACKET]), RenderItems(Arr(items), 0));
    assert ByteLength([LBRACKET]) == 1 by { assert [LBRACKET][1..] == []; }
    hide RenderItems, Then, Size, ByteLength;
  }

  // --- strings -----------------------------------------------------------------------------------------

  /** A character takes at most six bytes: `\u` and four digits, or its own encoding. */
  lemma {:induction false} EscapesAtMost(t: Text)
    ensures ByteLength(Escapes(t)) <= 6 * |t|
  {
    if t != [] {
      EscapesAtMost(t[1..]);
      ByteLengthConcat(Escaped(t[0]), Escapes(t[1..]));
      EscapedAtMost(t[0]);
    }
  }

  lemma EscapedAtMost(c: Code)
    ensures ByteLength(Escaped(c)) <= 6
  {
    var t := Escaped(c);
    if |t| == 1 {
      assert t[1..] == [];
    } else {
      AsciiBytes(t);
    }
  }

  lemma {:induction false} AsciiBytes(t: Text)
    requires forall i :: 0 <= i < |t| ==> t[i] < 0x80
    ensures ByteLength(t) == |t|
  {
    if t != [] { AsciiBytes(t[1..]); }
  }

  lemma StringAtMost(t: Text)
    requires SurrogateFree(t)
    ensures Render(Str(t)).Ok? && Size(Render(Str(t))) <= 6 * |t| + 2
  {
    EscapesAtMost(t);
    ByteLengthConcat([QUOTE], Escapes(t));
    ByteLengthConcat([QUOTE] + Escapes(t), [QUOTE]);
    assert ByteLength([QUOTE]) == 1 by { assert [QUOTE][1..] == []; }
    hide ByteLength, Escapes;
  }
}
