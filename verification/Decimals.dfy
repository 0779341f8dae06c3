/** Exact ordering of numeric operands on digit text: `_numeric_parts`, `_compare_magnitude` and
    `_compare_numeric` of vfy/gate.py, against the order of the rationals they denote. */
module Decimals {
  import opened Wrappers
  import opened Text
  import opened Values

  const MAX_NUMERIC_DIGITS: nat := 1024

  // --- digit arithmetic --------------------------------------------------------------------------

  lemma {:induction false} PowAdds(a: nat, b: nat)
    ensures Pow10(a + b) == Pow10(a) * Pow10(b)
  {
    if a > 0 {
      PowAdds(a - 1, b);
      assert Pow10(a + b) == 10 * Pow10(a + b - 1) == 10 * (Pow10(a - 1) * Pow10(b));
    }
  }

  lemma {:induction false} NumOfConcat(a: Text, b: Text)
    requires AllDigits(a) && AllDigits(b)
    ensures AllDigits(a + b) && Num(a + b) == Num(a) * Pow10(|b|) + Num(b)
  {
    if b == [] {
      assert a + b == a;
    } else {
      var init := b[..|b| - 1];
      NumOfConcat(a, init);
      assert (a + b)[..|a + b| - 1] == a + init;
      assert Num(a) * Pow10(|b|) == 10 * (Num(a) * Pow10(|init|));
    }
  }

  lemma {:induction false} NumBelowPow(t: Text)
    requires AllDigits(t)
    ensures Num(t) < Pow10(|t|)
  {
    if t != [] { NumBelowPow(t[..|t| - 1]); }
  }

  lemma NumAtLeastPow(t: Text)
    requires AllDigits(t) && |t| > 0 && t[0] != ZERO
    ensures Num(t) >= Pow10(|t| - 1)
  {
    NumByFirst(t);
    hide Num, Pow10;
    TimesGrows(0, t[0] - ZERO, Pow10(|t| - 1));
  }

  lemma {:induction false} TimesGrows(m: nat, n: nat, p: nat)
    requires m < n
    ensures m * p + p <= n * p
    decreases n
  {
    assert n * p == (n - 1) * p + p;
    if m < n - 1 { TimesGrows(m, n - 1, p); }
  }

  lemma NumOfOne(c: Code)
    requires IsDigit(c)
    ensures AllDigits([c]) && Num([c]) == c - ZERO
  {
    assert [c][..0] == [];
  }

  lemma NumByFirst(t: Text)
    requires AllDigits(t) && t != []
    ensures AllDigits(t[1..]) && Num(t) == (t[0] - ZERO) * Pow10(|t| - 1) + Num(t[1..])
  {
    assert t == [t[0]] + t[1..];
    NumOfConcat([t[0]], t[1..]);
    NumOfOne(t[0]);
  }

  lemma {:induction false} FirstDigitDecides(a: Text, b: Text)
    requires AllDigits(a) && AllDigits(b) && |a| == |b| > 0 && a[0] < b[0]
    ensures Num(a) < Num(b)
  {
    NumByFirst(a);
    NumByFirst(b);
    NumBelowPow(a[1..]);
    hide Num, Pow10;
    TimesGrows(a[0] - ZERO, b[0] - ZERO, Pow10(|a| - 1));
  }

  /** Digit strings of one length order as the numbers they denote. */
  lemma {:induction false} EqualLengthOrder(a: Text, b: Text)
    requires AllDigits(a) && AllDigits(b) && |a| == |b|
    ensures TextLess(a, b) <==> Num(a) < Num(b)
    ensures a == b <==> Num(a) == Num(b)
  {
    if a != [] {
      if a[0] < b[0] {
        FirstDigitDecides(a, b);
      } else if b[0] < a[0] {
        FirstDigitDecides(b, a);
      } else {
        EqualLengthOrder(a[1..], b[1..]);
        NumByFirst(a);
        NumByFirst(b);
        assert a == [a[0]] + a[1..] && b == [b[0]] + b[1..];
      }
    }
  }

  // --- the operands ------------------------------------------------------------------------------

  datatype Decimal = Decimal(negative: bool, whole: Text, fraction: Text)

  /** The pattern `-?(0|[1-9][0-9]*)(\.[0-9]+)?` over the whole text. */
  function MatchDecimal(s: Text): (r: Option<Decimal>)
  {
    var start := if |s| > 0 && s[0] == DASH then 1 else 0;
    var end := CanonicalDigitsEnd(s, start);
    if end.None? then None
    else if end.value == |s| then Some(Decimal(start == 1, s[start..], []))
    else if s[end.value] != DOT then None
    else
      var f := end.value + 1;
      if f < |s| && DigitRun(s, f) == |s| then Some(Decimal(start == 1, s[start..end.value], s[f..])) else None
  }

  ghost predicate IsDecimal(d: Decimal)
  {
    IsCanonicalDigits(d.whole) && AllDigits(d.fraction)
  }

  ghost function Spelling(d: Decimal): Text
  {
    (if d.negative then [DASH] else []) + d.whole + (if d.fraction == [] then [] else [DOT] + d.fraction)
  }

  lemma WholeScans(pre: Text, whole: Text, post: Text)
    requires IsCanonicalDigits(whole) && (|post| > 0 ==> post[0] == DOT)
    ensures CanonicalDigitsEnd(pre + whole + post, |pre|) == Some(|pre| + |whole|)
  {
    DigitsIsInverse(whole);
    CanonicalDigitsRead(pre, Num(whole), post);
  }

  lemma FractionScans(front: Text, fraction: Text)
    requires AllDigits(fraction)
    ensures DigitRun(front + fraction, |front|) == |front + fraction|
  {
    var s := front + fraction;
    assert forall k :: |front| <= k < |s| ==> s[k] == fraction[k - |front|];
    RunUnique(s, |front|, |s|);
  }

  lemma SpellingScans(d: Decimal)
    requires IsDecimal(d)
    ensures MatchDecimal(Spelling(d)) == Some(d)
  {
    var s := Spelling(d);
    var pre := if d.negative then [DASH] else [];
    var post := if d.fraction == [] then [] else [DOT] + d.fraction;
    var e := |pre| + |d.whole|;
    assert s == pre + d.whole + post;
    WholeScans(pre, d.whole, post);
    if d.fraction != [] {
      assert s == (pre + d.whole + [DOT]) + d.fraction;
      FractionScans(pre + d.whole + [DOT], d.fraction);
      assert s[e + 1..] == d.fraction;
    }
    assert s[|pre|..e] == d.whole;
    assert s[|pre|] == d.whole[0] && (d.fraction == [] ==> s[|pre|..] == d.whole);
    hide DigitRun, CanonicalDigitsEnd, Spelling;
  }

  /** A scan up to `end`, put together from its pieces. */
  lemma WholeSpells(s: Text, start: nat, end: nat)
    requires start <= end <= |s|
    ensures end == |s| ==> s[start..] == s[start..end] && s == s[..start] + s[start..end] + []
    ensures end < |s| && s[end] == DOT ==> s == s[..start] + s[start..end] + ([DOT] + s[end + 1..])
  {
    if end < |s| && s[end] == DOT { assert s[end..] == [DOT] + s[end + 1..]; }
    assert s == s[..start] + s[start..end] + s[end..];
  }

  lemma ScanSpells(s: Text)
    requires MatchDecimal(s).Some?
    ensures IsDecimal(MatchDecimal(s).value) && Spelling(MatchDecimal(s).value) == s
  {
    var start := if |s| > 0 && s[0] == DASH then 1 else 0;
    var end := CanonicalDigitsEnd(s, start).value;
    WholeSpells(s, start, end);
    assert s[..start] == if start == 1 then [DASH] else [];
    if end < |s| {
      var f := s[end + 1..];
      FractionDigits(s, end + 1);
      assert f != [];
    }
    hide DigitRun, CanonicalDigitsEnd;
  }

  lemma FractionDigits(s: Text, f: nat)
    requires f <= |s| && DigitRun(s, f) == |s|
    ensures AllDigits(s[f..])
  {
    assert forall k :: 0 <= k < |s| - f ==> s[f..][k] == s[f + k];
  }

  /** The scanner recognises exactly the spellings of decimals, each as the decimal it spells. */
  lemma MatchDecimalExact(s: Text, d: Decimal)
    ensures MatchDecimal(s) == Some(d) <==> IsDecimal(d) && s == Spelling(d)
  {
    hide MatchDecimal, IsDecimal, Spelling;
    if IsDecimal(d) { SpellingScans(d); }
    if MatchDecimal(s).Some? { ScanSpells(s); }
  }

  function StripLeft(t: Text): Text
  {
    if |t| > 0 && t[0] == ZERO then StripLeft(t[1..]) else t
  }

  function StripRight(t: Text): (r: Text)
    ensures |r| <= |t|
  {
    if |t| > 0 && t[|t| - 1] == ZERO then StripRight(t[..|t| - 1]) else t
  }

  /** Sign, integer digits, fraction digits of a comparable operand. */
  datatype Parts = Parts(sign: int, whole: Text, fraction: Text)

  function NumericParts(v: Value): Option<Parts>
  {
    match v
    case Int(n) => Some(Parts(if n < 0 then -1 else 1, Digits(if n < 0 then -n else n), []))
    case Str(s) =>
      var m := MatchDecimal(s);
      if m.None? || |m.value.whole| + |m.value.fraction| > MAX_NUMERIC_DIGITS then None
      else
        var stripped := StripLeft(m.value.whole);
        var whole := if stripped == [] then [ZERO] else stripped;
        var fraction := StripRight(m.value.fraction);
        var negative := m.value.negative && (whole != [ZERO] || fraction != []);
        Some(Parts(if negative then -1 else 1, whole, fraction))
    case _ => None
  }

  function Zeroes(n: nat): (t: Text)
    ensures |t| == n && AllDigits(t)
  {
    seq(n, _ => ZERO)
  }

  function PadRight(t: Text, width: nat): (r: Text)
    requires |t| <= width
    ensures |r| == width
  {
    t + Zeroes(width - |t|)
  }

  function CompareMagnitude(a: Parts, b: Parts): int
  {
    if |a.whole| != |b.whole| then (if |a.whole| < |b.whole| then -1 else 1)
    else if a.whole != b.whole then (if TextLess(a.whole, b.whole) then -1 else 1)
    else
      var width := if |a.fraction| < |b.fraction| then |b.fraction| else |a.fraction|;
      var x, y := PadRight(a.fraction, width), PadRight(b.fraction, width);
      if x == y then 0 else if TextLess(x, y) then -1 else 1
  }

  function CompareNumeric(left: Value, right: Value): Option<int>
  {
    var a, b := NumericParts(left), NumericParts(right);
    if a.None? || b.None? then None
    else if a.value.sign != b.value.sign then Some(if a.value.sign < b.value.sign then -1 else 1)
    else
      var order := CompareMagnitude(a.value, b.value);
      Some(if a.value.sign > 0 then order else -order)
  }

  // --- the rationals they denote -----------------------------------------------------------------

  /** A number: an integer, or a string spelling a decimal of at most 1024 digits. */
  ghost predicate IsNumber(v: Value)
  {
    v.Int? || (v.Str? && exists d :: IsDecimal(d) && v.text == Spelling(d) && |d.whole| + |d.fraction| <= MAX_NUMERIC_DIGITS)
  }

  /** Digits after the point. */
  ghost function Scale(v: Value): nat
  {
    if v.Str? && MatchDecimal(v.text).Some? then |MatchDecimal(v.text).value.fraction| else 0
  }

  ghost function ScaledDecimal(d: Decimal, k: nat): int
    requires IsDecimal(d) && k >= |d.fraction|
  {
    var n := Num(d.whole) * Pow10(k) + Num(d.fraction) * Pow10(k - |d.fraction|);
    if d.negative then -n else n
  }

  /** The number multiplied by the `k`-th power of ten, which makes it an integer. */
  ghost function Scaled(v: Value, k: nat): int
    requires IsNumber(v) && k >= Scale(v)
  {
    if v.Int? then v.n * Pow10(k)
    else
      NumberMatches(v);
      ScaledDecimal(MatchDecimal(v.text).value, k)
  }

  lemma NumberMatches(v: Value)
    requires v.Str? && IsNumber(v)
    ensures MatchDecimal(v.text).Some? && IsDecimal(MatchDecimal(v.text).value)
    ensures var d := MatchDecimal(v.text).value;
            v.text == Spelling(d) && |d.whole| + |d.fraction| <= MAX_NUMERIC_DIGITS
  {
    var d :| IsDecimal(d) && v.text == Spelling(d) && |d.whole| + |d.fraction| <= MAX_NUMERIC_DIGITS;
    SpellingScans(d);
  }

  ghost function Sign(n: int): int
  {
    if n < 0 then -1 else if n > 0 then 1 else 0
  }

  /** What the parts of a comparable operand say about its number. */
  ghost predicate PartsOf(p: Parts, n: int, k: nat)
  {
    && p.sign in {-1, 1}
    && IsCanonicalDigits(p.whole) && AllDigits(p.fraction) && |p.fraction| <= k
    && AllDigits(p.whole + PadRight(p.fraction, k))
    && (var m: int := Num(p.whole + PadRight(p.fraction, k)); n == if p.sign < 0 then -m else m)
    && (p.sign == -1 ==> n < 0)
  }

  lemma {:induction false} NumOfZeroes(n: nat)
    ensures Num(Zeroes(n)) == 0
  {
    if n > 0 {
      NumOfZeroes(n - 1);
      assert Zeroes(n)[..n - 1] == Zeroes(n - 1);
    }
  }

  lemma {:induction false} StripRightPads(t: Text, k: nat)
    requires AllDigits(t) && |t| <= k
    ensures AllDigits(StripRight(t)) && PadRight(StripRight(t), k) == PadRight(t, k)
    ensures StripRight(t) == [] <==> Num(t) == 0
  {
    if |t| > 0 && t[|t| - 1] == ZERO {
      StripRightPads(t[..|t| - 1], k);
      assert PadRight(t, k) == PadRight(t[..|t| - 1], k);
    } else if |t| > 0 {
      assert Num(t) > 0;
    }
  }

  lemma DecimalMagnitude(d: Decimal, k: nat)
    requires IsDecimal(d) && k >= |d.fraction|
    ensures AllDigits(PadRight(d.fraction, k))
    ensures Num(d.whole + PadRight(d.fraction, k))
         == Num(d.whole) * Pow10(k) + Num(d.fraction) * Pow10(k - |d.fraction|)
  {
    var f, zeroes := d.fraction, Zeroes(k - |d.fraction|);
    NumOfConcat(f, zeroes);
    NumOfZeroes(k - |f|);
    hide Num, Pow10;
    NumOfConcat(d.whole, f + zeroes);
  }

  lemma SumIsZero(m: nat, p: nat, n: nat, q: nat)
    requires p > 0 && q > 0
    ensures m * p + n * q >= 0
    ensures m * p + n * q == 0 <==> m == 0 && n == 0
  {
    if m > 0 { TimesGrows(0, m, p); }
    if n > 0 { TimesGrows(0, n, q); }
  }

  /** A decimal is zero exactly when both digit strings say so. */
  lemma DecimalZero(d: Decimal, k: nat)
    requires IsDecimal(d) && k >= |d.fraction|
    ensures ScaledDecimal(d, k) == 0 <==> d.whole == [ZERO] && Num(d.fraction) == 0
    ensures !d.negative ==> ScaledDecimal(d, k) >= 0
    ensures d.negative ==> ScaledDecimal(d, k) <= 0
  {
    if d.whole == [ZERO] {
      NumOfOne(ZERO);
    } else {
      NumPositive(d.whole);
    }
    hide Num, Pow10;
    SumIsZero(Num(d.whole), Pow10(k), Num(d.fraction), Pow10(k - |d.fraction|));
  }

  /** Canonical digits have no leading zero to strip, but the one zero. */
  lemma NothingToStrip(whole: Text)
    requires IsCanonicalDigits(whole)
    ensures (if StripLeft(whole) == [] then [ZERO] else StripLeft(whole)) == whole
  {
    if whole[0] == ZERO {
      assert whole == [ZERO] && whole[1..] == [];
      assert StripLeft(whole) == StripLeft(whole[1..]) == [];
    }
  }

  lemma PartsOfDecimal(d: Decimal)
    requires IsDecimal(d) && |d.whole| + |d.fraction| <= MAX_NUMERIC_DIGITS
    ensures NumericParts(Str(Spelling(d)))
         == Some(Parts(if d.negative && (d.whole != [ZERO] || StripRight(d.fraction) != []) then -1 else 1,
                       d.whole, StripRight(d.fraction)))
  {
    SpellingScans(d);
    NothingToStrip(d.whole);
    hide MatchDecimal, Spelling, StripLeft, StripRight, IsCanonicalDigits, AllDigits;
  }

  lemma DecimalParts(v: Value, k: nat)
    requires v.Str? && IsNumber(v) && k >= Scale(v)
    ensures NumericParts(v).Some? && PartsOf(NumericParts(v).value, Scaled(v, k), k)
  {
    NumberMatches(v);
    hide MatchDecimal, Spelling, NumericParts, PartsOf, ScaledDecimal;
    var d := MatchDecimal(v.text).value;
    PartsOfDecimal(d);
    DecimalPartsHold(d, k);
  }

  lemma DecimalPartsHold(d: Decimal, k: nat)
    requires IsDecimal(d) && k >= |d.fraction|
    ensures PartsOf(Parts(if d.negative && (d.whole != [ZERO] || StripRight(d.fraction) != []) then -1 else 1,
                          d.whole, StripRight(d.fraction)),
                    ScaledDecimal(d, k), k)
  {
    StripRightPads(d.fraction, k);
    DecimalMagnitude(d, k);
    DecimalZero(d, k);
    var m: int := Num(d.whole + PadRight(d.fraction, k));
    assert ScaledDecimal(d, k) == if d.negative then -m else m by { hide Num, Pow10, StripRight; }
    hide ScaledDecimal, Num, Pow10, StripRight;
  }

  lemma IntParts(v: Value, k: nat)
    requires v.Int?
    ensures NumericParts(v).Some? && PartsOf(NumericParts(v).value, Scaled(v, k), k)
  {
    hide Num, Pow10;
    var digits := Digits(if v.n < 0 then -v.n else v.n);
    assert PadRight([], k) == Zeroes(k);
    NumOfZeroes(k);
    NumOfConcat(digits, Zeroes(k));
    SignedProduct(v.n, Pow10(k));
  }

  lemma SignedProduct(n: int, p: nat)
    requires p > 0
    ensures n * p == (if n < 0 then -1 else 1) * ((if n < 0 then -n else n) * p)
    ensures n < 0 ==> n * p < 0
  {
    if n < 0 { TimesGrows(0, -n, p); }
  }

  lemma {:induction false} MagnitudeOrder(a: Parts, b: Parts, k: nat)
    requires IsCanonicalDigits(a.whole) && AllDigits(a.fraction) && |a.fraction| <= k
    requires IsCanonicalDigits(b.whole) && AllDigits(b.fraction) && |b.fraction| <= k
    ensures CompareMagnitude(a, b)
         == Sign(Num(a.whole + PadRight(a.fraction, k)) - Num(b.whole + PadRight(b.fraction, k)))
  {
    var x, y := PadRight(a.fraction, k), PadRight(b.fraction, k);
    NumOfConcat(a.whole, x);
    NumOfConcat(b.whole, y);
    NumBelowPow(x);
    NumBelowPow(y);
    if |a.whole| < |b.whole| {
      LongerIsLarger(a.whole, b.whole);
      HigherWholeWins(Num(a.whole), Num(b.whole), Num(x), Pow10(k));
    } else if |b.whole| < |a.whole| {
      LongerIsLarger(b.whole, a.whole);
      HigherWholeWins(Num(b.whole), Num(a.whole), Num(y), Pow10(k));
    } else {
      EqualLengthOrder(a.whole, b.whole);
      if Num(a.whole) < Num(b.whole) {
        HigherWholeWins(Num(a.whole), Num(b.whole), Num(x), Pow10(k));
      } else if Num(b.whole) < Num(a.whole) {
        HigherWholeWins(Num(b.whole), Num(a.whole), Num(y), Pow10(k));
      } else {
        FractionOrder(a.fraction, b.fraction, k);
      }
    }
  }

  lemma LongerIsLarger(a: Text, b: Text)
    requires IsCanonicalDigits(a) && IsCanonicalDigits(b) && |a| < |b|
    ensures Num(a) < Num(b)
  {
    NumBelowPow(a);
    NumAtLeastPow(b);
    PowGrows(|a|, |b| - 1);
  }

  lemma {:induction false} PowGrows(a: nat, b: nat)
    requires a <= b
    ensures Pow10(a) <= Pow10(b)
    decreases b
  {
    if a < b { PowGrows(a, b - 1); }
  }

  lemma HigherWholeWins(m: nat, n: nat, x: nat, p: nat)
    requires m < n && x < p
    ensures m * p + x < n * p
  {
    TimesGrows(m, n, p);
  }

  lemma FractionOrder(f: Text, g: Text, k: nat)
    requires AllDigits(f) && AllDigits(g) && |f| <= k && |g| <= k
    ensures var width := if |f| < |g| then |g| else |f|;
            && (PadRight(f, width) == PadRight(g, width) <==> Num(PadRight(f, k)) == Num(PadRight(g, k)))
            && (TextLess(PadRight(f, width), PadRight(g, width)) <==> Num(PadRight(f, k)) < Num(PadRight(g, k)))
  {
    var width := if |f| < |g| then |g| else |f|;
    var u, w := PadRight(f, width), PadRight(g, width);
    assert PadRight(f, k) == u + Zeroes(k - width);
    assert PadRight(g, k) == w + Zeroes(k - width);
    NumOfConcat(u, Zeroes(k - width));
    NumOfConcat(w, Zeroes(k - width));
    EqualLengthOrder(u, w);
    var p := Pow10(k - width);
    if Num(u) < Num(w) {
      HigherWholeWins(Num(u), Num(w), 0, p);
    } else if Num(w) < Num(u) {
      HigherWholeWins(Num(w), Num(u), 0, p);
    }
  }

  /** Digit comparison is the order of the rationals: the answer is the sign of the exact
      difference (both sides scaled by one power of ten), and there is no answer exactly when an
      operand is not a number or is written with more than 1024 digits. */
  lemma ComparisonIsRationalOrder(left: Value, right: Value, k: nat)
    ensures CompareNumeric(left, right).Some? <==> IsNumber(left) && IsNumber(right)
    ensures IsNumber(left) && IsNumber(right) && k >= Scale(left) && k >= Scale(right) ==>
              CompareNumeric(left, right).value == Sign(Scaled(left, k) - Scaled(right, k))
  {
    ComparableIsNumber(left);
    ComparableIsNumber(right);
    NumbersAreIntOrText(left);
    NumbersAreIntOrText(right);
    hide NumericParts, IsNumber, Scaled, Scale, CompareMagnitude, PartsOf;
    if IsNumber(left) && IsNumber(right) && k >= Scale(left) && k >= Scale(right) {
      if left.Int? { IntParts(left, k); } else { DecimalParts(left, k); }
      if right.Int? { IntParts(right, k); } else { DecimalParts(right, k); }
      SignedOrder(NumericParts(left).value, NumericParts(right).value, Scaled(left, k), Scaled(right, k), k);
    }
  }

  lemma SignedOrder(a: Parts, b: Parts, m: int, n: int, k: nat)
    requires PartsOf(a, m, k) && PartsOf(b, n, k)
    ensures Sign(m - n) == if a.sign != b.sign then (if a.sign < b.sign then -1 else 1)
                           else if a.sign > 0 then CompareMagnitude(a, b) else -CompareMagnitude(a, b)
  {
    MagnitudeOrder(a, b, k);
  }

  lemma NumbersAreIntOrText(v: Value)
    ensures IsNumber(v) ==> v.Int? || v.Str?
  {
  }

  lemma ComparableIsNumber(v: Value)
    ensures NumericParts(v).Some? <==> IsNumber(v)
  {
    hide IsDecimal, Spelling, MatchDecimal, StripRight, StripLeft;
    if v.Str? {
      if IsNumber(v) {
        var d :| IsDecimal(d) && v.text == Spelling(d) && |d.whole| + |d.fraction| <= MAX_NUMERIC_DIGITS;
        MatchDecimalExact(v.text, d);
      }
      if MatchDecimal(v.text).Some? { MatchDecimalExact(v.text, MatchDecimal(v.text).value); }
    }
  }

  /** Hence numbers are totally preordered: comparison is reflexive, antisymmetric up to equal
      value, and transitive. */
  lemma ComparisonIsTotalPreorder(a: Value, b: Value, c: Value)
    requires IsNumber(a) && IsNumber(b) && IsNumber(c)
    ensures CompareNumeric(a, a) == Some(0)
    ensures CompareNumeric(a, b).Some? && CompareNumeric(b, c).Some? && CompareNumeric(a, c).Some?
    ensures CompareNumeric(b, a) == Some(-CompareNumeric(a, b).value)
    ensures CompareNumeric(a, b).value <= 0 && CompareNumeric(b, c).value <= 0 ==> CompareNumeric(a, c).value <= 0
  {
    var k := Scale(a) + Scale(b) + Scale(c);
    ComparisonIsRationalOrder(a, a, k);
    ComparisonIsRationalOrder(a, b, k);
    ComparisonIsRationalOrder(b, a, k);
    ComparisonIsRationalOrder(b, c, k);
    ComparisonIsRationalOrder(a, c, k);
  }
}
