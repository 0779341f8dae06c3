/** The receipt that records its own size: vfy/service_tests.py retain and the count verify_retained
    recomputes. */
module ReceiptSize {
  import opened Wrappers
  import opened Text
  import opened Values
  import opened Canon
  import opened Sizes

  const ROUNDS: nat := 8

  // --- digits ------------------------------------------------------------------------------------------

  lemma {:induction false} WidthIsMagnitude(n: nat, k: nat)
    requires k >= 1
    ensures Width(n) <= k <==> n < Pow10(k)
    decreases k
  {
    assert Digits(n) == if n < 10 then [ZERO + n] else Digits(n / 10) + [ZERO + n % 10];
    if k == 1 {
      assert Pow10(1) == 10 * Pow10(0);
    } else if n >= 10 {
      WidthIsMagnitude(n / 10, k - 1);
    } else {
      PowGrows(k);
    }
  }

  lemma {:induction false} PowGrows(k: nat)
    ensures Pow10(k) > k && (k >= 1 ==> Pow10(k) >= 10)
  {
    if k > 0 { PowGrows(k - 1); }
  }

  lemma WidthMonotone(m: nat, n: nat)
    requires m <= n
    ensures Width(m) <= Width(n)
  {
    WidthIsMagnitude(m, Width(n));
    WidthIsMagnitude(n, Width(n));
  }

  /** One more than the number of digits is at most one more digit. */
  lemma WidthSteps(b: nat)
    ensures var d := Width(b + 1);
            && d <= Width(b + d) <= d + 1
            && Width(b + d + 1) <= d + 1
  {
    var d := Width(b + 1);
    WidthIsMagnitude(b + 1, d);
    PowGrows(d);
    WidthMonotone(b + 1, b + d);
    WidthIsMagnitude(b + d, d + 1);
    WidthIsMagnitude(b + d + 1, d + 1);
  }

  // --- the loop ----------------------------------------------------------------------------------------

  /** What the next round records, when all but the digits of the recorded count take `b` bytes. */
  function Total(b: nat, recorded: nat): nat
  {
    b + Width(recorded)
  }

  /** What is recorded after some rounds, starting from zero. */
  function Recorded(b: nat, round: nat): nat
  {
    if round == 0 then 0 else Total(b, Recorded(b, round - 1))
  }

  /** The fourth round finds the count it recorded: three updates reach a fixed point, for every size. */
  lemma ThreeUpdatesSuffice(b: nat)
    ensures Total(b, Recorded(b, 3)) == Recorded(b, 3)
  {
    assert Recorded(b, 1) == b + 1 by { assert Width(0) == 1; assert Recorded(b, 0) == 0; }
    var d := Width(b + 1);
    assert Recorded(b, 2) == b + d;
    assert Recorded(b, 3) == b + Width(b + d);
    WidthSteps(b);
    WidthMonotone(b + d, b + Width(b + d));
  }

  /** Fewer do not always: at 98 bytes the first three rounds record 99, 100 and 101. */
  lemma ThreeUpdatesNeeded()
    ensures Total(98, Recorded(98, 2)) != Recorded(98, 2)
  {
    assert Recorded(98, 0) == 0 && Width(0) == 1;
    assert Recorded(98, 1) == 99;
    assert Digits(99) == Digits(9) + [ZERO + 9];
    assert Recorded(98, 2) == 100;
    assert Digits(100) == Digits(10) + [ZERO] && Digits(10) == Digits(1) + [ZERO];
  }

  /** What the loop settles on is the least count that is right about itself; there can be another, as
      8 bytes around a count admit both 9 and 10. */
  lemma {:induction false} SettlesOnLeast(b: nat, n: nat, round: nat)
    requires Total(b, n) == n
    ensures Recorded(b, round) <= n
  {
    if round > 0 {
      SettlesOnLeast(b, n, round - 1);
      WidthMonotone(Recorded(b, round - 1), n);
    }
  }

  // --- why the size depends on the digits alone --------------------------------------------------------

  lemma {:induction false} DigitsAreBytes(t: Text)
    requires AllDigits(t)
    ensures ByteLength(t) == |t|
  {
    if t != [] { DigitsAreBytes(t[1..]); }
  }

  /** Two objects with the same keys and, but for `key`, members of the same length. */
  ghost predicate DifferAt(x: map<Text, Value>, y: map<Text, Value>, key: Text)
  {
    && x.Keys == y.Keys && key in x
    && forall k :: k in x ==> Render(x[k]).Ok? && Render(y[k]).Ok? && (k != key ==> Size(Render(x[k])) == Size(Render(y[k])))
  }

  /** Renderings of such objects differ in length as the members under `key` do. */
  lemma {:induction false} MembersSize(x: map<Text, Value>, y: map<Text, Value>, key: Text, keys: seq<Text>, i: nat)
    requires DifferAt(x, y, key) && AllIn(keys, x) && i <= |keys|
    requires forall k :: k in keys ==> SurrogateFree(k)
    requires forall a, b :: 0 <= a < b < |keys| ==> keys[a] != keys[b]
    ensures AllIn(keys, y)
    ensures var (r, t) := (RenderMembers(Obj(x), keys, i), RenderMembers(Obj(y), keys, i));
            && r.Ok? && t.Ok?
            && Size(r) + (if key in keys[i..] then Size(Render(y[key])) else 0)
               == Size(t) + (if key in keys[i..] then Size(Render(x[key])) else 0)
    decreases |keys| - i
  {
    hide Render, Size;
    assert forall k :: k in keys ==> k in y.Keys;
    if i < |keys| {
      hide RenderMembers;
      MembersSize(x, y, key, keys, i + 1);
      assert keys[i] in keys;
      MemberSize(x, keys, i);
      MemberSize(y, keys, i);
      assert keys[i..] == [keys[i]] + keys[i + 1..];
      assert keys[i] !in keys[i + 1..];
    } else {
      assert keys[i..] == [];
    }
  }

  lemma ObjectSize(x: map<Text, Value>, y: map<Text, Value>, key: Text)
    requires DifferAt(x, y, key) && forall k :: k in x ==> SurrogateFree(k)
    ensures Render(Obj(x)).Ok? && Render(Obj(y)).Ok?
    ensures Size(Render(Obj(x))) + Size(Render(y[key])) == Size(Render(Obj(y))) + Size(Render(x[key]))
  {
    hide Size, Render, RenderMembers, Sorted;
    var keys := Sorted(x.Keys);
    SortedDistinct(x.Keys);
    assert keys[0..] == keys && key in keys;
    assert AllIn(keys, x);
    MembersSize(x, y, key, keys, 0);
    ObjectRenders(x);
    ObjectRenders(y);
  }

  // --- the signed receipt ------------------------------------------------------------------------------

  const BODY: Text := [0x62, 0x6F, 0x64, 0x79]
  const SIGNATURE: Text := [0x73, 0x69, 0x67, 0x6E, 0x61, 0x74, 0x75, 0x72, 0x65]
  const SHA256: Text := [0x73, 0x68, 0x61, 0x32, 0x35, 0x36]
  const RETAINED: Text := [0x72, 0x65, 0x74, 0x61, 0x69, 0x6E, 0x65, 0x64, 0x5F, 0x62, 0x79, 0x74, 0x65, 0x73]

  /** All of a receipt but the count: the identities, the other body fields, and what signing and
      digesting give for each count. */
  datatype Parts = Parts(identities: map<Text, Value>, fields: map<Text, Value>, sign: nat -> Text, digest: nat -> Text)

  function ReceiptOf(p: Parts, n: nat): map<Text, Value>
  {
    p.identities[BODY := Obj(p.fields[RETAINED := Int(n)])][SIGNATURE := Str(p.sign(n))][SHA256 := Str(p.digest(n))]
  }

  ghost predicate PartsOk(p: Parts)
  {
    && (forall k :: k in p.identities ==> SurrogateFree(k) && Render(p.identities[k]).Ok?)
    && (forall k :: k in p.fields ==> SurrogateFree(k) && Render(p.fields[k]).Ok?)
    && (forall n :: IsHex(p.sign(n), 128) && IsHex(p.digest(n), 64))
  }

  lemma CountSize(n: nat)
    requires n <= MAX_SAFE_INTEGER
    ensures Render(Int(n)).Ok? && Size(Render(Int(n))) == Width(n)
  {
    DigitsAreBytes(Digits(n));
  }

  /** The body renders to a length that depends on the count by its digits alone. */
  lemma BodySize(p: Parts, n: nat)
    requires PartsOk(p) && n <= MAX_SAFE_INTEGER
    ensures Render(Obj(p.fields[RETAINED := Int(n)])).Ok? && Render(Obj(p.fields[RETAINED := Int(0)])).Ok?
    ensures Size(Render(Obj(p.fields[RETAINED := Int(n)]))) + Width(0) == Size(Render(Obj(p.fields[RETAINED := Int(0)]))) + Width(n)
  {
    var x, y := p.fields[RETAINED := Int(n)], p.fields[RETAINED := Int(0)];
    CountSize(n);
    CountSize(0);
    assert SurrogateFree(RETAINED);
    hide Render, Size, Width, IsHex;
    assert DifferAt(x, y, RETAINED);
    ObjectSize(x, y, RETAINED);
  }

  lemma PutChanged(m: map<Text, Value>, key: Text, v: Value, v': Value)
    requires (forall k :: k in m ==> Render(m[k]).Ok?) && Render(v).Ok? && Render(v').Ok?
    ensures DifferAt(m[key := v], m[key := v'], key) && m[key := v][key] == v && m[key := v'][key] == v'
  {
    hide Render, Size;
  }

  lemma PutAlike(x: map<Text, Value>, y: map<Text, Value>, key: Text, k: Text, v: Value, v': Value)
    requires DifferAt(x, y, key) && k != key
    requires Render(v).Ok? && Render(v').Ok? && Size(Render(v)) == Size(Render(v'))
    ensures DifferAt(x[k := v], y[k := v'], key) && x[k := v][key] == x[key] && y[k := v'][key] == y[key]
  {
    hide Render, Size;
  }

  lemma KeysFit()
    ensures SurrogateFree(BODY) && SurrogateFree(SIGNATURE) && SurrogateFree(SHA256)
    ensures BODY != SIGNATURE && BODY != SHA256
  {
    assert BODY[0] != SIGNATURE[0] && BODY[0] != SHA256[0];
  }

  lemma ReceiptsDiffer(p: Parts, n: nat)
    requires PartsOk(p) && n <= MAX_SAFE_INTEGER
    ensures DifferAt(ReceiptOf(p, n), ReceiptOf(p, 0), BODY)
    ensures ReceiptOf(p, n)[BODY] == Obj(p.fields[RETAINED := Int(n)]) && ReceiptOf(p, 0)[BODY] == Obj(p.fields[RETAINED := Int(0)])
  {
    BodySize(p, n);
    HexStringSize(p.sign(n));
    HexStringSize(p.sign(0));
    HexStringSize(p.digest(n));
    HexStringSize(p.digest(0));
    KeysFit();
    hide Render, Size, Width, IsHex, SurrogateFree, DifferAt, BODY, SIGNATURE, SHA256, RETAINED;
    var b, b' := Obj(p.fields[RETAINED := Int(n)]), Obj(p.fields[RETAINED := Int(0)]);
    PutChanged(p.identities, BODY, b, b');
    PutAlike(p.identities[BODY := b], p.identities[BODY := b'], BODY, SIGNATURE, Str(p.sign(n)), Str(p.sign(0)));
    PutAlike(p.identities[BODY := b][SIGNATURE := Str(p.sign(n))], p.identities[BODY := b'][SIGNATURE := Str(p.sign(0))],
             BODY, SHA256, Str(p.digest(n)), Str(p.digest(0)));
  }

  lemma ReceiptKeysFit(p: Parts, n: nat)
    requires PartsOk(p)
    ensures forall k :: k in ReceiptOf(p, n) ==> SurrogateFree(k)
  {
    KeysFit();
    hide SurrogateFree, Render, IsHex, BODY, SIGNATURE, SHA256, RETAINED;
  }

  /** So does the whole receipt, whose signature and digest are hexadecimal of a fixed length. */
  lemma ReceiptSizeIsDigits(p: Parts, n: nat)
    requires PartsOk(p) && n <= MAX_SAFE_INTEGER
    ensures Render(Obj(ReceiptOf(p, n))).Ok? && Render(Obj(ReceiptOf(p, 0))).Ok?
    ensures Size(Render(Obj(ReceiptOf(p, n)))) + Width(0) == Size(Render(Obj(ReceiptOf(p, 0)))) + Width(n)
  {
    BodySize(p, n);
    ReceiptsDiffer(p, n);
    ReceiptKeysFit(p, n);
    hide Render, Size, Width, ReceiptOf, PartsOk, SurrogateFree, BODY, RETAINED;
    ObjectSize(ReceiptOf(p, n), ReceiptOf(p, 0), BODY);
    hide DifferAt;
  }

  lemma SafeWidth(n: nat)
    requires n <= MAX_SAFE_INTEGER
    ensures Width(n) <= 16
  {
    WidthIsMagnitude(n, 16);
    assert Pow10(4) == 10000;
    assert Pow10(8) == 100000000;
    assert Pow10(12) == 1000000000000;
    assert Pow10(16) == 10000000000000000;
  }

  lemma {:induction false} RecordedIsSafe(b: nat, round: nat)
    requires b + 16 <= MAX_SAFE_INTEGER
    ensures Recorded(b, round) <= b + 16
  {
    if round > 0 {
      RecordedIsSafe(b, round - 1);
      SafeWidth(Recorded(b, round - 1));
    }
  }

  /** The bytes of a receipt recording `n`. */
  function ReceiptBytes(p: Parts, n: nat): nat
  {
    var r := Render(Obj(ReceiptOf(p, n)));
    if r.Ok? then Size(r) else 0
  }

  /** The bytes of the receipt, as all but the count's digits, and those. */
  lemma ReceiptBytesByDigits(p: Parts, n: nat)
    requires PartsOk(p) && n <= MAX_SAFE_INTEGER
    ensures ReceiptBytes(p, 0) >= 1 && ReceiptBytes(p, n) == ReceiptBytes(p, 0) - 1 + Width(n)
  {
    assert Width(0) == 1;
    ReceiptSizeIsDigits(p, n);
    ObjectNonempty(ReceiptOf(p, 0));
    hide Size, ReceiptOf, Width, PartsOk, Render;
  }

  /** The loop: record the total, build and sign again, until the total is what was recorded. `files`
      are the bytes retained beside the receipt. It never runs out of rounds, the count recorded is
      exactly the bytes retained, and it is the least count of which that is true. */
  method Settle(p: Parts, files: nat) returns (retained: Option<nat>, rounds: nat)
    requires PartsOk(p) && files + ReceiptBytes(p, 0) + 16 <= MAX_SAFE_INTEGER
    ensures retained.Some? && rounds <= 4 && retained.value <= MAX_SAFE_INTEGER
    ensures files + ReceiptBytes(p, retained.value) == retained.value
    ensures forall n: nat :: n <= MAX_SAFE_INTEGER && files + ReceiptBytes(p, n) == n ==> retained.value <= n
  {
    hide ReceiptBytes, PartsOk, Width;
    ReceiptBytesByDigits(p, 0);
    ghost var b := files + ReceiptBytes(p, 0) - 1;
    forall n: nat | n <= MAX_SAFE_INTEGER ensures files + ReceiptBytes(p, n) == Total(b, n) { ReceiptBytesByDigits(p, n); }
    hide Total;
    var body: nat := 0;
    for i := 0 to ROUNDS
      invariant i <= 3 && body == Recorded(b, i)
    {
      RecordedIsSafe(b, i);
      var total := files + ReceiptBytes(p, body);
      if body == total {
        forall n: nat | n <= MAX_SAFE_INTEGER && files + ReceiptBytes(p, n) == n ensures total <= n { SettlesOnLeast(b, n, i); }
        return Some(total), i + 1;
      }
      if i == 3 { ThreeUpdatesSuffice(b); }
      body := total;
    }
    return None, ROUNDS;
  }
}
