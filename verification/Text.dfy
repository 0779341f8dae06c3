/** Text as the host sees it: a sequence of Unicode code points, lone surrogates included
    (which is why Dafny's own `char` is not used), and numbers written in decimal digits. */
module Text {
  import opened Wrappers

  type Code = c: int | 0 <= c <= 0x10FFFF
  type Text = seq<Code>

  const TAB: Code := 0x09
  const LF: Code := 0x0A
  const CR: Code := 0x0D
  const SPACE: Code := 0x20
  const BANG: Code := 0x21
  const QUOTE: Code := 0x22
  const LPAREN: Code := 0x28
  const RPAREN: Code := 0x29
  const STAR: Code := 0x2A
  const PLUS: Code := 0x2B
  const COMMA: Code := 0x2C
  const DASH: Code := 0x2D
  const DOT: Code := 0x2E
  const ZERO: Code := 0x30
  const COLON: Code := 0x3A
  const LESS: Code := 0x3C
  const EQUAL: Code := 0x3D
  const GREATER: Code := 0x3E
  const QUESTION: Code := 0x3F
  const LBRACKET: Code := 0x5B
  const BACKSLASH: Code := 0x5C
  const RBRACKET: Code := 0x5D
  const LBRACE: Code := 0x7B
  const RBRACE: Code := 0x7D

  predicate IsDigit(c: Code)
  {
    ZERO <= c <= ZERO + 9
  }

  predicate AllDigits(t: Text)
  {
    forall i :: 0 <= i < |t| ==> IsDigit(t[i])
  }

  predicate IsSurrogate(c: Code)
  {
    0xD800 <= c <= 0xDFFF
  }

  /** The number a run of digits denotes, leading zeros allowed. */
  function Num(t: Text): (n: nat)
    requires AllDigits(t)
  {
    if t == [] then 0 else 10 * Num(t[..|t| - 1]) + (t[|t| - 1] - ZERO)
  }

  /** The canonical digits of a number: no leading zero but `0` itself. */
  function Digits(n: nat): (t: Text)
    ensures |t| > 0 && AllDigits(t)
    ensures Num(t) == n
    ensures t[0] == ZERO <==> n == 0
    ensures n < 10 <==> |t| == 1
  {
    if n < 10 then
      assert Num([ZERO + n]) == 10 * Num([]) + n by { assert [ZERO + n][..0] == []; }
      [ZERO + n]
    else
      var t := Digits(n / 10) + [ZERO + n % 10];
      assert t[..|t| - 1] == Digits(n / 10);
      t
  }

  /** How many digits a number takes. */
  function Width(n: nat): nat
  {
    |Digits(n)|
  }

  function Pow10(n: nat): (r: nat)
    ensures r > 0
  {
    if n == 0 then 1 else 10 * Pow10(n - 1)
  }

  /** A canonical run of digits: the grammar `0|[1-9][0-9]*`. */
  predicate IsCanonicalDigits(t: Text)
  {
    |t| > 0 && AllDigits(t) && (t[0] == ZERO ==> |t| == 1)
  }

  lemma {:induction false} DigitsIsInverse(t: Text)
    requires IsCanonicalDigits(t)
    ensures Digits(Num(t)) == t
  {
    var init, last := t[..|t| - 1], t[|t| - 1] - ZERO;
    assert t == init + [t[|t| - 1]];
    if |t| > 1 {
      DigitsIsInverse(init);
      assert Num(init) > 0 by { NumPositive(init); }
      assert Num(t) == 10 * Num(init) + last;
    } else {
      assert init == [];
    }
  }

  lemma {:induction false} NumPositive(t: Text)
    requires AllDigits(t) && |t| > 0 && t[0] != ZERO
    ensures Num(t) > 0
  {
    if |t| > 1 { NumPositive(t[..|t| - 1]); }
  }

  /** Longest run of digits starting at `i`: its end. */
  function DigitRun(t: Text, i: nat): (e: nat)
    requires i <= |t|
    ensures i <= e <= |t|
    ensures forall k :: i <= k < e ==> IsDigit(t[k])
    ensures e < |t| ==> !IsDigit(t[e])
    decreases |t| - i
  {
    if i < |t| && IsDigit(t[i]) then DigitRun(t, i + 1) else i
  }

  /** Exclusive end of the longest prefix, from `i`, matching `0|[1-9][0-9]*`. */
  function CanonicalDigitsEnd(t: Text, i: nat): (r: Option<nat>)
    requires i <= |t|
    ensures r.Some? <==> i < |t| && IsDigit(t[i])
    ensures r.Some? ==> i < r.value <= |t| && IsCanonicalDigits(t[i..r.value])
  {
    if i >= |t| || !IsDigit(t[i]) then None
    else if t[i] == ZERO then Some(i + 1)
    else Some(DigitRun(t, i))
  }

  /** The canonical digits of `n`, placed before something that is not a digit, are exactly
      what the scanner takes. */
  lemma CanonicalDigitsRead(pre: Text, n: nat, post: Text)
    requires |post| > 0 ==> !IsDigit(post[0])
    ensures CanonicalDigitsEnd(pre + Digits(n) + post, |pre|) == Some(|pre| + |Digits(n)|)
  {
    var d := Digits(n);
    var t := pre + d + post;
    var e := |pre| + |d|;
    assert t[|pre|] == d[0];
    if n == 0 {
    } else {
      assert forall k :: |pre| <= k < e ==> t[k] == d[k - |pre|];
      RunUnique(t, |pre|, e);
    }
  }

  lemma {:induction false} RunUnique(t: Text, i: nat, e: nat)
    requires i <= e <= |t| && (forall k :: i <= k < e ==> IsDigit(t[k]))
    requires e < |t| ==> !IsDigit(t[e])
    ensures DigitRun(t, i) == e
    decreases e - i
  {
    if i < e { RunUnique(t, i + 1, e); }
  }

  // --- scanning --------------------------------------------------------------------------------

  /** White space of both grammars: space, tab, line feed, carriage return. */
  predicate IsSpace(c: Code)
  {
    c == SPACE || c == TAB || c == LF || c == CR
  }

  function SkipSpace(t: Text): (r: Text)
    ensures |r| <= |t|
    ensures r != [] ==> !IsSpace(r[0])
  {
    if t != [] && IsSpace(t[0]) then SkipSpace(t[1..]) else t
  }

  lemma SkipSpaceSettles(t: Text)
    ensures SkipSpace(SkipSpace(t)) == SkipSpace(t)
  {
  }

  predicate StartsWith(t: Text, w: Text)
  {
    |w| <= |t| && t[..|w|] == w
  }

  function HexValue(c: Code): (r: Option<nat>)
    ensures r.Some? ==> r.value < 16
  {
    if ZERO <= c <= ZERO + 9 then Some(c - ZERO)
    else if 0x61 <= c <= 0x66 then Some(c - 0x61 + 10)
    else if 0x41 <= c <= 0x46 then Some(c - 0x41 + 10)
    else None
  }

  function ReadHex4(t: Text): (r: Option<Code>)
    ensures r.Some? ==> |t| >= 4 && r.value < 0x10000
    ensures r.Some? ==> forall i :: 0 <= i < 4 ==> HexValue(t[i]).Some?
  {
    if |t| < 4 || HexValue(t[0]).None? || HexValue(t[1]).None? || HexValue(t[2]).None? || HexValue(t[3]).None? then None
    else Some(((HexValue(t[0]).value * 16 + HexValue(t[1]).value) * 16 + HexValue(t[2]).value) * 16 + HexValue(t[3]).value)
  }

  // --- order -----------------------------------------------------------------------------------

  /** Lexicographic order by code point, as the host compares and sorts strings. */
  predicate TextLess(a: Text, b: Text)
  {
    if b == [] then false
    else if a == [] then true
    else a[0] < b[0] || (a[0] == b[0] && TextLess(a[1..], b[1..]))
  }

  lemma {:induction false} TextLessTotal(a: Text, b: Text)
    ensures a == b || TextLess(a, b) || TextLess(b, a)
    ensures !(TextLess(a, b) && TextLess(b, a))
    ensures !TextLess(a, a)
  {
    if a != [] && b != [] {
      TextLessTotal(a[1..], b[1..]);
      TextLessTotal(a[1..], a[1..]);
      if a[0] == b[0] && a[1..] == b[1..] { assert a == [a[0]] + a[1..] == b; }
    } else if a != [] {
      TextLessTotal(a[1..], a[1..]);
    }
  }

  lemma {:induction false} TextLessTransitive(a: Text, b: Text, c: Text)
    requires TextLess(a, b) && TextLess(b, c)
    ensures TextLess(a, c)
  {
    if a != [] && a[0] == b[0] == c[0] { TextLessTransitive(a[1..], b[1..], c[1..]); }
  }

  predicate IsLeast(k: Text, s: set<Text>)
  {
    k in s && forall j :: j in s ==> j == k || TextLess(k, j)
  }

  lemma {:induction false} LeastExists(s: set<Text>)
    requires s != {}
    ensures exists k :: IsLeast(k, s)
    decreases |s|
  {
    var k :| k in s;
    if s != {k} {
      LeastExists(s - {k});
      var m :| IsLeast(m, s - {k});
      TextLessTotal(k, m);
      if TextLess(m, k) {
        k := m;
      } else {
        forall j | j in s && j != k ensures TextLess(k, j) {
          if j != m { TextLessTransitive(k, m, j); }
        }
      }
    }
    assert IsLeast(k, s);
  }

  lemma LeastUnique(s: set<Text>)
    ensures forall a, b :: IsLeast(a, s) && IsLeast(b, s) ==> a == b
  {
    forall a, b | IsLeast(a, s) && IsLeast(b, s) ensures a == b { TextLessTotal(a, b); }
  }

  /** The keys of a set in increasing order. */
  function Sorted(s: set<Text>): (r: seq<Text>)
    ensures |r| == |s| && (forall k :: k in s <==> k in r)
    ensures forall i, j :: 0 <= i < j < |r| ==> TextLess(r[i], r[j])
    decreases |s|
  {
    if s == {} then []
    else
      LeastExists(s);
      LeastUnique(s);
      var k :| IsLeast(k, s);
      var rest := Sorted(s - {k});
      assert forall x :: x in s <==> x == k || x in s - {k};
      [k] + rest
  }
}
