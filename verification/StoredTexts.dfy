/** Texts as they lie in the store: their UTF-8 bytes, and which of them vfy/store.py takes back. */
module StoredTexts {
  import opened Wrappers
  import opened Text
  import opened Values
  import opened Canon
  import opened DepthScan
  import opened Sizes

  const MAX_RECEIPT_BYTES: nat := 0x100000

  type Bytes = seq<int>

  /** One code point in UTF-8 (section 3 of RFC 3629). */
  function Encoded(c: Code): Bytes
  {
    if c < 0x80 then [c]
    else if c < 0x800 then [0xC0 + c / 64, 0x80 + c % 64]
    else if c < 0x10000 then [0xE0 + c / 4096, 0x80 + c / 64 % 64, 0x80 + c % 64]
    else [0xF0 + c / 262144, 0x80 + c / 4096 % 64, 0x80 + c / 64 % 64, 0x80 + c % 64]
  }

  function Utf8(t: Text): (b: Bytes)
    ensures |b| == ByteLength(t)
  {
    if t == [] then [] else Encoded(t[0]) + Utf8(t[1..])
  }

  /** How many bytes the first one announces. */
  function Announced(first: int): nat
  {
    if first < 0x80 then 1 else if first < 0xE0 then 2 else if first < 0xF0 then 3 else 4
  }

  /** The code point a byte sequence of that length stands for. */
  function Decoded(b: Bytes): int
  {
    if |b| == 1 then b[0]
    else if |b| == 2 then (b[0] - 0xC0) * 64 + b[1] - 0x80
    else if |b| == 3 then (b[0] - 0xE0) * 4096 + (b[1] - 0x80) * 64 + b[2] - 0x80
    else if |b| == 4 then (b[0] - 0xF0) * 262144 + (b[1] - 0x80) * 4096 + (b[2] - 0x80) * 64 + b[3] - 0x80
    else 0
  }

  lemma Quotients(c: nat)
    ensures c == c / 64 * 64 + c % 64
    ensures c / 64 == c / 4096 * 64 + c / 64 % 64
    ensures c / 4096 == c / 262144 * 64 + c / 4096 % 64
  {
    assert c / 64 / 64 == c / 4096 && c / 4096 / 64 == c / 262144;
  }

  lemma EncodedGives(c: Code)
    ensures |Encoded(c)| == Announced(Encoded(c)[0]) && Decoded(Encoded(c)) == c
  {
    Quotients(c);
  }

  lemma {:induction false} Utf8Identifies(a: Text, b: Text)
    requires Utf8(a) == Utf8(b)
    ensures a == b
  {
    if a != [] && b != [] {
      var x, y, whole := Encoded(a[0]), Encoded(b[0]), Utf8(a);
      EncodedGives(a[0]);
      EncodedGives(b[0]);
      assert whole == x + Utf8(a[1..]) && whole == y + Utf8(b[1..]);
      hide Encoded, Decoded, Utf8;
      assert x[0] == whole[0] && y[0] == whole[0];
      assert x == whole[..|x|] && y == whole[..|y|];
      assert Utf8(a[1..]) == whole[|x|..] && Utf8(b[1..]) == whole[|y|..];
      Utf8Identifies(a[1..], b[1..]);
      assert a == [a[0]] + a[1..] && b == [b[0]] + b[1..];
    }
  }

  /** The bytes are the canonical text of what they load as. */
  ghost predicate Canonical(b: Bytes)
  {
    exists t: Text :: Utf8(t) == b && LoadText(t).Ok? && Render(LoadText(t).value) == Ok(t)
  }

  /** What every reader of the store asks of a file: canonical text, in few enough bytes. */
  ghost predicate Loadable(b: Bytes)
  {
    |b| <= MAX_RECEIPT_BYTES && Canonical(b)
  }

  /** What canonicalize makes of a value, in bytes. */
  function CanonicalBytes(v: Value): Bytes
    requires Render(v).Ok?
  {
    Utf8(Render(v).value)
  }

  lemma CanonicalExactly(v: Value)
    requires Render(v).Ok?
    ensures Canonical(CanonicalBytes(v)) <==> DepthAtMost(v, 64)
  {
    LoadUndoesCanonicalize(v);
    hide Render, LoadText, DepthAtMost, Utf8;
    var t := Render(v).value;
    if Canonical(CanonicalBytes(v)) {
      var u: Text :| Utf8(u) == CanonicalBytes(v) && LoadText(u).Ok? && Render(LoadText(u).value) == Ok(u);
      Utf8Identifies(t, u);
    }
  }

  /** Canonical text is taken back exactly when it has at most 1 MiB and nests at most 64 deep. */
  lemma CanonicalLoads(v: Value)
    requires Render(v).Ok?
    ensures Loadable(CanonicalBytes(v)) <==> Size(Render(v)) <= MAX_RECEIPT_BYTES && DepthAtMost(v, 64)
  {
    CanonicalExactly(v);
    hide Render, DepthAtMost, Canonical;
  }
}
