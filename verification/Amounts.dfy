/** Amounts and resource tables as they are written: `amount` and `axes` of vfy/child_ledger.py. */
module Amounts {
  import opened Wrappers
  import opened Text
  import opened LedgerRecords

  const SLASH: Code := 0x2F
  const MAX_SPELLING: nat := 64

  datatype Fraction = Fraction(n: nat, d: nat)

  // --- lowest terms ------------------------------------------------------------------------------------

  predicate Divides(k: nat, n: int)
  {
    k > 0 && n % k == 0
  }

  function Gcd(a: nat, b: nat): (g: nat)
    ensures a + b > 0 ==> g > 0
    decreases b
  {
    if b == 0 then a else Gcd(b, a % b)
  }

  /** Nothing but one divides both. */
  ghost predicate Lowest(q: Fraction)
  {
    q.d > 0 && forall k: nat :: Divides(k, q.n) && Divides(k, q.d) ==> k == 1
  }

  function Reduced(n: nat, d: nat): Fraction
    requires d > 0
  {
    Fraction(n / Gcd(n, d), d / Gcd(n, d))
  }

  lemma TimesDivides(k: nat, m: int)
    requires k > 0
    ensures Divides(k, k * m) && k * m / k == m
  {
  }

  lemma QuotientOf(k: nat, n: int) returns (m: int)
    requires Divides(k, n)
    ensures n == k * m && m == n / k && (n >= 0 ==> m >= 0)
  {
    m := n / k;
  }

  /** The greatest common divisor divides both and is a combination of them. */
  lemma {:induction false} Bezout(a: nat, b: nat) returns (x: int, y: int)
    requires a + b > 0
    ensures Divides(Gcd(a, b), a) && Divides(Gcd(a, b), b)
    ensures a * x + b * y == Gcd(a, b)
    decreases b
  {
    if b == 0 {
      x, y := 1, 0;
      TimesDivides(a, 1);
      TimesDivides(a, 0);
    } else {
      var q, r := a / b, a % b;
      var u, v := Bezout(b, r);
      x, y := v, u - q * v;
      DivisionIs(a, b);
      OneStep(a, b, q, r, Gcd(b, r), u, v);
    }
  }

  lemma DivisionIs(a: nat, b: nat)
    requires b > 0
    ensures a == b * (a / b) + a % b
  {
  }

  lemma OneStep(a: int, b: int, q: int, r: int, g: nat, u: int, v: int)
    requires a == b * q + r && Divides(g, b) && Divides(g, r) && b * u + r * v == g
    ensures Divides(g, a) && a * v + b * (u - q * v) == g
  {
    hide Divides;
    CombinationDivides(g, b, r, q, 1);
    BackOneStep(b, q, r, u, v);
  }

  lemma BackOneStep(b: int, q: int, r: int, u: int, v: int)
    ensures (b * q + r) * v + b * (u - q * v) == b * u + r * v
  {
    assert (b * q + r) * v == b * q * v + r * v;
    assert b * (u - q * v) == b * u - b * (q * v);
    assert b * q * v == b * (q * v);
  }

  lemma CombinationDivides(k: nat, a: int, b: int, x: int, y: int)
    requires Divides(k, a) && Divides(k, b)
    ensures Divides(k, a * x + b * y)
  {
    var c := QuotientOf(k, a);
    var e := QuotientOf(k, b);
    assert a * x + b * y == k * (c * x + e * y);
    TimesDivides(k, c * x + e * y);
  }

  lemma ReducedIsLowest(n: nat, d: nat)
    requires d > 0
    ensures Lowest(Reduced(n, d))
    ensures n * Reduced(n, d).d == d * Reduced(n, d).n
  {
    var g, q := Gcd(n, d), Reduced(n, d);
    var x, y := Bezout(n, d);
    var a := QuotientOf(g, n);
    var b := QuotientOf(g, d);
    assert q == Fraction(a, b) && b > 0;
    assert g * (a * x + b * y) == g * 1;
    OneFactor(g, a * x + b * y, 1);
    forall k: nat | Divides(k, a) && Divides(k, b) ensures k == 1 { CombinationDivides(k, a, b, x, y); }
    assert g * a * b == g * b * a;
  }

  lemma OneFactor(g: int, a: int, b: int)
    requires g > 0 && g * a == g * b
    ensures a == b
  {
  }

  lemma LowestIsReduced(q: Fraction)
    requires Lowest(q)
    ensures Reduced(q.n, q.d) == q
  {
    var _, _ := Bezout(q.n, q.d);
    hide Gcd;
  }

  /** Fractions in lowest terms with one value are one fraction. */
  lemma LowestIdentifies(p: Fraction, q: Fraction)
    requires Lowest(p) && Lowest(q) && p.n * q.d == q.n * p.d
    ensures p == q
  {
    DenominatorDivides(p, q);
    DenominatorDivides(q, p);
    var c := QuotientOf(p.d, q.d);
    var e := QuotientOf(q.d, p.d);
    assert p.d == p.d * (c * e);
    OneFactor(p.d, 1, c * e);
    ProductOne(c, e);
    OneFactor(p.d, p.n, q.n);
  }

  lemma ProductOne(c: int, e: int)
    requires c >= 0 && e >= 0 && c * e == 1
    ensures c == 1 && e == 1
  {
    if c >= 1 && e >= 1 { ProductAtLeast(c, e); }
  }

  lemma ProductAtLeast(c: int, e: int)
    requires c >= 1 && e >= 1
    ensures c * e >= c && c * e >= e
  {
  }

  lemma DenominatorDivides(p: Fraction, q: Fraction)
    requires Lowest(p) && q.d > 0 && p.n * q.d == q.n * p.d
    ensures Divides(p.d, q.d)
  {
    var x, y := Bezout(p.n, p.d);
    assert p.n * x + p.d * y == 1;
    assert q.d == q.d * (p.n * x + p.d * y) == (p.n * q.d) * x + p.d * (q.d * y) == p.d * (q.n * x + q.d * y);
    TimesDivides(p.d, q.n * x + q.d * y);
  }

  // --- spellings ---------------------------------------------------------------------------------------

  /** A whole number by its digits, any other fraction with a slash between. */
  function Spell(q: Fraction): Text
  {
    if q.d == 1 then Digits(q.n) else Digits(q.n) + [SLASH] + Digits(q.d)
  }

  /** The pattern `(0|[1-9][0-9]*)(/[1-9][0-9]*)?`, and the two numbers it finds. */
  function Read(t: Text): (r: Option<Fraction>)
    ensures r.Some? ==> r.value.d > 0
  {
    var e := CanonicalDigitsEnd(t, 0);
    if e.None? then None
    else if e.value == |t| then Some(Fraction(Num(t[..e.value]), 1))
    else if t[e.value] != SLASH then None
    else
      var f := CanonicalDigitsEnd(t, e.value + 1);
      if f != Some(|t|) || t[e.value + 1] == ZERO then None
      else
        NumPositive(t[e.value + 1..|t|]);
        Some(Fraction(Num(t[..e.value]), Num(t[e.value + 1..|t|])))
  }

  /** What a text says an amount is; only the spelling the value itself is written as counts. */
  function Amount(t: Text): (r: Option<Fraction>)
    ensures r.Some? ==> r.value.d > 0
  {
    if |t| > MAX_SPELLING || Read(t).None? then None
    else
      ReducedIsLowest(Read(t).value.n, Read(t).value.d);
      var q := Reduced(Read(t).value.n, Read(t).value.d);
      if Spell(q) == t then Some(q) else None
  }

  lemma SpellReads(q: Fraction)
    requires q.d > 0
    ensures Read(Spell(q)) == Some(q)
  {
    var t, a, b := Spell(q), Digits(q.n), Digits(q.d);
    if q.d == 1 {
      CanonicalDigitsRead([], q.n, []);
      assert [] + a + [] == a && t[..|t|] == a;
    } else {
      CanonicalDigitsRead([], q.n, [SLASH] + b);
      assert [] + a + ([SLASH] + b) == t;
      CanonicalDigitsRead(a + [SLASH], q.d, []);
      assert a + [SLASH] + b + [] == t;
      assert t[..|a|] == a && t[|a| + 1..|t|] == b && t[|a| + 1] == b[0];
    }
    hide Digits;
  }

  /** An amount is accepted exactly when it is the spelling, in at most 64 characters, of a fraction in lowest
      terms, and then it is read as that fraction. */
  lemma AmountExactly(t: Text)
    ensures Amount(t).Some? <==> |t| <= MAX_SPELLING && exists q: Fraction :: Lowest(q) && Spell(q) == t
    ensures Amount(t).Some? ==> Lowest(Amount(t).value) && Spell(Amount(t).value) == t
  {
    hide Spell, Read, Lowest, Reduced;
    if Amount(t).Some? { ReducedIsLowest(Read(t).value.n, Read(t).value.d); }
    if q: Fraction :| Lowest(q) && Spell(q) == t {
      assert q.d > 0 by { assert Lowest(q); LowestPositive(q); }
      SpellReads(q);
      LowestIsReduced(q);
    }
  }

  lemma LowestPositive(q: Fraction)
    requires Lowest(q)
    ensures q.d > 0
  {
  }

  /** The number an amount stands for. */
  function Value(q: Fraction): real
    requires q.d > 0
  {
    q.n as real / q.d as real
  }

  /** A number has one spelling: two accepted amounts that stand for the same number are the same text. */
  lemma OneSpelling(a: Text, b: Text)
    requires Amount(a).Some? && Amount(b).Some? && Value(Amount(a).value) == Value(Amount(b).value)
    ensures a == b
  {
    AmountExactly(a);
    AmountExactly(b);
    var p, q := Amount(a).value, Amount(b).value;
    hide Amount, Spell, Lowest;
    CrossProducts(p, q);
    LowestIdentifies(p, q);
  }

  lemma CrossProducts(p: Fraction, q: Fraction)
    requires p.d > 0 && q.d > 0 && Value(p) == Value(q)
    ensures p.n * q.d == q.n * p.d
  {
    var (a, b, c, d) := (p.n as real, p.d as real, q.n as real, q.d as real);
    assert a == a / b * b && c == c / d * d;
    assert a * d == a / b * b * d == c / d * b * d == c * b;
    assert (p.n * q.d) as real == a * d && (q.n * p.d) as real == c * b;
  }

  // --- tables ------------------------------------------------------------------------------------------

  datatype WrittenRow = WrittenRow(axis: Axis, tags: (string, string, string), spelling: Text)

  /** A row with its amount read: the word UNKNOWN, or a number. */
  function RowOf(w: WrittenRow): Option<Row>
  {
    if w.spelling == T("UNKNOWN") then Some(Row(w.axis, w.tags, None))
    else
      var q := Amount(w.spelling);
      if q.None? then None else Some(Row(w.axis, w.tags, Some(Value(q.value))))
  }

  predicate AllRead(written: seq<WrittenRow>)
  {
    forall i :: 0 <= i < |written| ==> RowOf(written[i]).Some?
  }

  function RowsOf(written: seq<WrittenRow>): seq<Row>
    requires AllRead(written)
  {
    seq(|written|, i requires 0 <= i < |written| => RowOf(written[i]).value)
  }

  /** A table as it is written, read into a map: when every amount is one that can be read, and the rows are of
      distinct known axes in their own units. */
  method Table(written: seq<WrittenRow>) returns (r: Option<map<Axis, Option<real>>>)
    ensures r == if AllRead(written) && RowsOk(RowsOf(written)) then Some(AxesMap(RowsOf(written))) else None
  {
    var rows: seq<Row> := [];
    for i := 0 to |written|
      invariant |rows| == i && forall k :: 0 <= k < i ==> RowOf(written[k]) == Some(rows[k])
    {
      hide RowOf, RowsOk, AxesMap;
      var row := RowOf(written[i]);
      if row.None? { return None; }
      rows := rows + [row.value];
    }
    assert rows == RowsOf(written);
    hide RowOf, RowsOk, AxesMap, RowsOf;
    r := Axes(rows);
  }
}
