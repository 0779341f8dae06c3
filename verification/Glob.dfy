/** The portable glob of vfy/gate.py: an iterative matcher that remembers only the
    most recent `*`, against the matcher that tries every split at every `*`. */
module Glob {
  import opened Text
  import opened Wrappers

  // --- one pattern element -------------------------------------------------------------------

  /** Least index at or after `i` holding a `]`. */
  function FirstClose(p: Text, i: nat): (r: Option<nat>)
    ensures r.Some? ==> i <= r.value < |p| && p[r.value] == RBRACKET
    ensures r.Some? ==> forall k :: i <= k < r.value ==> p[k] != RBRACKET
    ensures r.None? ==> forall k :: i <= k < |p| ==> p[k] != RBRACKET
    decreases |p| - i
  {
    if i >= |p| then None
    else if p[i] == RBRACKET then Some(i)
    else FirstClose(p, i + 1)
  }

  /** Where the search for the closing bracket starts: a leading `!` and then a leading `]`
      belong to the class body. */
  function ClassSearchStart(p: Text, start: nat): nat
  {
    var i := start + 1;
    var j := if i < |p| && p[i] == BANG then i + 1 else i;
    if j < |p| && p[j] == RBRACKET then j + 1 else j
  }

  function ClassEnd(p: Text, start: nat): (r: Option<nat>)
    ensures r.Some? ==> start < r.value < |p|
  {
    FirstClose(p, ClassSearchStart(p, start))
  }

  /** Some item of the class body (a range `a-b`, or one character) holds `c`. */
  predicate InItems(body: Text, i: nat, c: Code)
    decreases |body| - i
  {
    if i >= |body| then false
    else if i + 2 < |body| && body[i + 1] == DASH then body[i] <= c <= body[i + 2] || InItems(body, i + 3, c)
    else body[i] == c || InItems(body, i + 1, c)
  }

  predicate InClass(body: Text, c: Code)
  {
    if |body| > 0 && body[0] == BANG then !InItems(body[1..], 0, c) else InItems(body, 0, c)
  }

  /** Position after the element at `i`; it never depends on the text. */
  function Next(p: Text, i: nat): (n: nat)
    requires i < |p|
    ensures i < n <= |p|
  {
    if p[i] == LBRACKET && ClassEnd(p, i).Some? then ClassEnd(p, i).value + 1 else i + 1
  }

  /** The element at `i`, which is not a star, accepts `c`. */
  predicate Accepts(p: Text, i: nat, c: Code)
    requires i < |p|
  {
    if p[i] == QUESTION then true
    else if p[i] == LBRACKET then
      if ClassEnd(p, i).Some? then InClass(p[i + 1..ClassEnd(p, i).value], c) else c == LBRACKET
    else p[i] == c
  }

  // --- the reference: try every split at every star ------------------------------------------

  ghost predicate Matches(p: Text, i: nat, t: Text, j: nat)
    requires i <= |p| && j <= |t|
    decreases |p| - i
  {
    if i == |p| then j == |t|
    else if p[i] == STAR then exists k :: j <= k <= |t| && Matches(p, Next(p, i), t, k)
    else j < |t| && Accepts(p, i, t[j]) && Matches(p, Next(p, i), t, j + 1)
  }

  /** Some start at or after `from` lets the pattern tail match the text tail. */
  ghost predicate MatchesFrom(p: Text, i: nat, t: Text, from: nat)
    requires i <= |p|
  {
    exists k :: from <= k <= |t| && Matches(p, i, t, k)
  }

  lemma StarSplits(p: Text, i: nat, t: Text, j: nat)
    requires i < |p| && p[i] == STAR && j <= |t|
    ensures Matches(p, i, t, j) == MatchesFrom(p, i + 1, t, j)
  {
    assert Next(p, i) == i + 1;
    if MatchesFrom(p, i + 1, t, j) {
      var k :| j <= k <= |t| && Matches(p, i + 1, t, k);
      assert Matches(p, Next(p, i), t, k);
    }
  }

  /** From `i`, `n` elements none of which is a star lead exactly to position `end`. */
  predicate Walk(p: Text, i: nat, n: nat, end: nat)
    decreases n
  {
    if n == 0 then i == end
    else i < |p| && p[i] != STAR && Walk(p, Next(p, i), n - 1, end)
  }

  lemma {:induction false} WalkStep(p: Text, i: nat, n: nat, end: nat)
    requires Walk(p, i, n, end) && end < |p| && p[end] != STAR
    ensures Walk(p, i, n + 1, Next(p, end))
    decreases n
  {
    if n > 0 { WalkStep(p, Next(p, i), n - 1, end); }
  }

  /** Elements other than a star consume one character each, so wherever a match starts,
      it stands at `end` exactly `n` characters later. */
  lemma {:induction false} WalkShifts(p: Text, i: nat, n: nat, end: nat, t: Text, k: nat)
    requires i <= |p| && end <= |p| && k <= |t|
    requires Walk(p, i, n, end) && Matches(p, i, t, k)
    ensures k + n <= |t| && Matches(p, end, t, k + n)
    decreases n
  {
    if n > 0 { WalkShifts(p, Next(p, i), n - 1, end, t, k + 1); }
  }

  /** Why an earlier star never needs revisiting: once the walk from the last star reaches a
      new star, every split of the earlier one is absorbed by the new one. */
  lemma {:induction false} EarlierStarAbsorbed(p: Text, after: nat, t: Text, resume: nat, star: nat, consumed: nat)
    requires after <= star < |p| && p[star] == STAR && resume <= consumed <= |t|
    requires Walk(p, after, consumed - resume, star)
    requires Matches(p, after, t, resume) == Matches(p, star, t, consumed)
    ensures MatchesFrom(p, after, t, resume) == MatchesFrom(p, star + 1, t, consumed)
  {
    if MatchesFrom(p, after, t, resume) {
      var k :| resume <= k <= |t| && Matches(p, after, t, k);
      WalkShifts(p, after, consumed - resume, star, t, k);
      StarSplits(p, star, t, k + (consumed - resume));
    }
    StarSplits(p, star, t, consumed);
  }

  /** A failed attempt at `resume` rules out only that split. */
  lemma NextSplit(p: Text, after: nat, t: Text, resume: nat)
    requires after <= |p| && resume < |t| && !Matches(p, after, t, resume)
    ensures MatchesFrom(p, after, t, resume) == MatchesFrom(p, after, t, resume + 1)
  {
    if MatchesFrom(p, after, t, resume) {
      var k :| resume <= k <= |t| && Matches(p, after, t, k);
      assert k != resume;
    }
  }

  /** With the text used up, a later split could only consume more than is left. */
  lemma OnlyCurrentSplit(p: Text, after: nat, t: Text, resume: nat, position: nat)
    requires after <= |p| && position <= |p| && resume <= |t|
    requires Walk(p, after, |t| - resume, position)
    requires Matches(p, after, t, resume) == Matches(p, position, t, |t|)
    ensures MatchesFrom(p, after, t, resume) == Matches(p, position, t, |t|)
  {
    if MatchesFrom(p, after, t, resume) {
      var k :| resume <= k <= |t| && Matches(p, after, t, k);
      WalkShifts(p, after, |t| - resume, position, t, k);
    }
  }

  // --- the loops of the source ---------------------------------------------------------------

  method FindClassEnd(p: Text, start: nat) returns (r: Option<nat>)
    ensures r == ClassEnd(p, start)
  {
    var index := start + 1;
    if index < |p| && p[index] == BANG { index := index + 1; }
    if index < |p| && p[index] == RBRACKET { index := index + 1; }
    while index < |p|
      invariant ClassEnd(p, start) == FirstClose(p, index)
    {
      if p[index] == RBRACKET { return Some(index); }
      index := index + 1;
    }
    return None;
  }

  method TestClass(body: Text, c: Code) returns (r: bool)
    ensures r == InClass(body, c)
  {
    var negated := |body| > 0 && body[0] == BANG;
    var items := if negated then body[1..] else body;
    var matched := false;
    var index := 0;
    while index < |items|
      invariant InItems(items, 0, c) == (matched || InItems(items, index, c))
    {
      if index + 2 < |items| && items[index + 1] == DASH {
        if items[index] <= c <= items[index + 2] { matched := true; }
        index := index + 3;
      } else {
        if items[index] == c { matched := true; }
        index := index + 1;
      }
    }
    return matched != negated;
  }

  /** Next pattern position when the one element at `position` matches, else None. */
  method Single(p: Text, position: nat, c: Code) returns (r: Option<nat>)
    requires position < |p|
    ensures r == if p[position] != STAR && Accepts(p, position, c) then Some(Next(p, position)) else None
  {
    var marker := p[position];
    if marker == STAR { return None; }
    if marker == QUESTION { return Some(position + 1); }
    if marker == LBRACKET {
      var end := FindClassEnd(p, position);
      if end.None? { return if c == LBRACKET then Some(position + 1) else None; }
      var inside := TestClass(p[position + 1..end.value], c);
      return if inside then Some(end.value + 1) else None;
    }
    return if c == marker then Some(position + 1) else None;
  }

  /** What the main loop knows: the whole question, reduced to the current attempt when no star
      was met, and otherwise to the splits of the last star from `resume` on. */
  ghost predicate Explored(p: Text, t: Text, position: nat, consumed: nat, star: int, resume: nat)
    requires -1 <= star < |p|
  {
    && position <= |p| && resume <= consumed <= |t| && star < position
    && (star == -1 ==> resume == 0 && Matches(p, 0, t, 0) == Matches(p, position, t, consumed))
    && (star >= 0 ==>
          && p[star] == STAR
          && Walk(p, star + 1, consumed - resume, position)
          && Matches(p, star + 1, t, resume) == Matches(p, position, t, consumed)
          && Matches(p, 0, t, 0) == MatchesFrom(p, star + 1, t, resume))
  }

  lemma ElementStep(p: Text, t: Text, position: nat, consumed: nat, star: int, resume: nat)
    requires -1 <= star < |p| && Explored(p, t, position, consumed, star, resume)
    requires consumed < |t| && position < |p| && p[position] != STAR && Accepts(p, position, t[consumed])
    ensures Explored(p, t, Next(p, position), consumed + 1, star, resume)
  {
    if star >= 0 { WalkStep(p, star + 1, consumed - resume, position); }
  }

  lemma StarStep(p: Text, t: Text, position: nat, consumed: nat, star: int, resume: nat)
    requires -1 <= star < |p| && Explored(p, t, position, consumed, star, resume)
    requires consumed < |t| && position < |p| && p[position] == STAR
    ensures Explored(p, t, position + 1, consumed, position, consumed)
  {
    if star >= 0 {
      EarlierStarAbsorbed(p, star + 1, t, resume, position, consumed);
    } else {
      StarSplits(p, position, t, consumed);
    }
  }

  lemma RetryStep(p: Text, t: Text, position: nat, consumed: nat, star: nat, resume: nat)
    requires star < |p| && Explored(p, t, position, consumed, star, resume)
    requires consumed < |t|
    requires position < |p| ==> p[position] != STAR && !Accepts(p, position, t[consumed])
    ensures Explored(p, t, star + 1, resume + 1, star, resume + 1)
  {
    NextSplit(p, star + 1, t, resume);
  }

  /** The iterative matcher decides exactly the reference relation, and its main loop runs at
      most (|text| + 1) * (|pattern| + 1) times. `star` is -1 before the first star. */
  method Match(pattern: Text, text: Text) returns (matched: bool, ghost steps: nat)
    ensures matched == Matches(pattern, 0, text, 0)
    ensures steps <= (|text| + 1) * (|pattern| + 1)
  {
    var position: nat, consumed: nat, star: int, resume: nat := 0, 0, -1, 0;
    steps := 0;
    while consumed < |text|
      invariant -1 <= star < |pattern|
      invariant Explored(pattern, text, position, consumed, star, resume)
      invariant steps <= Rows(resume, |pattern|) + position
      decreases |text| - resume, |pattern| - position
    {
      steps := steps + 1;
      var step := None;
      if position < |pattern| { step := Single(pattern, position, text[consumed]); }
      if step.Some? {
        ElementStep(pattern, text, position, consumed, star, resume);
        position, consumed := step.value, consumed + 1;
      } else if position < |pattern| && pattern[position] == STAR {
        StarStep(pattern, text, position, consumed, star, resume);
        if resume < consumed { RowsGrow(resume, consumed, |pattern|); }
        star, resume, position := position, consumed, position + 1;
      } else if star < 0 {
        RowsFit(resume, |text|, |pattern|, position, steps);
        return false, steps;
      } else {
        RetryStep(pattern, text, position, consumed, star, resume);
        RowsGrow(resume, resume + 1, |pattern|);
        resume := resume + 1;
        consumed, position := resume, star + 1;
      }
    }
    RowsFit(resume, |text|, |pattern|, position, steps);
    if star >= 0 { OnlyCurrentSplit(pattern, star + 1, text, resume, position); }
    while position < |pattern| && pattern[position] == STAR
      invariant position <= |pattern|
      invariant Matches(pattern, 0, text, 0) == Matches(pattern, position, text, |text|)
    {
      StarAtEnd(pattern, text, position);
      position := position + 1;
    }
    matched := position == |pattern|;
  }

  lemma StarAtEnd(p: Text, t: Text, i: nat)
    requires i < |p| && p[i] == STAR
    ensures Matches(p, i, t, |t|) == Matches(p, i + 1, t, |t|)
  {
    StarSplits(p, i, t, |t|);
    if Matches(p, i + 1, t, |t|) { assert MatchesFrom(p, i + 1, t, |t|); }
  }

  /** Loop steps charged to `r` retries of one pass over a pattern of length `m`. */
  ghost function Rows(r: nat, m: nat): nat
  {
    if r == 0 then 0 else Rows(r - 1, m) + m + 1
  }

  lemma {:induction false} RowsIsProduct(r: nat, m: nat)
    ensures Rows(r, m) == r * (m + 1)
  {
    if r > 0 {
      RowsIsProduct(r - 1, m);
      assert r * (m + 1) == (r - 1) * (m + 1) + (m + 1);
    }
  }

  lemma {:induction false} RowsGrow(a: nat, b: nat, m: nat)
    requires a < b
    ensures Rows(a, m) + m + 1 <= Rows(b, m)
    decreases b
  {
    if a < b - 1 { RowsGrow(a, b - 1, m); }
  }

  lemma RowsFit(resume: nat, n: nat, m: nat, position: nat, steps: nat)
    requires resume <= n && position <= m && steps <= Rows(resume, m) + position + 1
    ensures steps <= (n + 1) * (m + 1)
  {
    RowsGrow(resume, n + 1, m);
    RowsIsProduct(n + 1, m);
  }

  // --- what the reference means ---------------------------------------------------------------

  /** A pattern of ordinary characters matches itself and nothing else. */
  lemma {:induction false} LiteralMatchesItself(p: Text, i: nat, t: Text, j: nat)
    requires i <= |p| && j <= |t|
    requires forall k :: i <= k < |p| ==> p[k] !in [STAR, QUESTION, LBRACKET]
    ensures Matches(p, i, t, j) <==> p[i..] == t[j..]
    decreases |p| - i
  {
    if i < |p| {
      assert p[i] !in [STAR, QUESTION, LBRACKET];
      if j < |t| {
        LiteralMatchesItself(p, i + 1, t, j + 1);
        assert p[i..] == [p[i]] + p[i + 1..] && t[j..] == [t[j]] + t[j + 1..];
        if p[i..] == t[j..] {
          assert p[i] == p[i..][0] == t[j..][0] == t[j];
          assert p[i + 1..] == p[i..][1..] == t[j..][1..] == t[j + 1..];
        }
      } else {
        assert |p[i..]| > 0 == |t[j..]|;
      }
    } else {
      assert p[i..] == [] && (j == |t| <==> t[j..] == []);
    }
  }

  /** `*sub*` is substring search, for any substring of ordinary characters. */
  lemma {:induction false} StarsAroundAreSubstring(sub: Text, t: Text)
    requires forall k :: 0 <= k < |sub| ==> sub[k] !in [STAR, QUESTION, LBRACKET]
    ensures Matches([STAR] + sub + [STAR], 0, t, 0) <==> exists a, b :: 0 <= a <= b <= |t| && t[a..b] == sub
  {
    var p := [STAR] + sub + [STAR];
    forall k: nat | k <= |t|
      ensures Matches(p, 1, t, k) <==> k + |sub| <= |t| && t[k..k + |sub|] == sub
    {
      LiteralThenStar(sub, p, t, 1, k);
      assert p[1..|p| - 1] == sub;
    }
    StarSplits(p, 0, t, 0);
    if a, b :| 0 <= a <= b <= |t| && t[a..b] == sub {
      assert b == a + |sub|;
      assert Matches(p, 1, t, a);
    }
  }

  lemma {:induction false} LiteralThenStar(sub: Text, p: Text, t: Text, i: nat, j: nat)
    requires p == [STAR] + sub + [STAR] && 1 <= i < |p| && j <= |t|
    requires forall k :: 0 <= k < |sub| ==> sub[k] !in [STAR, QUESTION, LBRACKET]
    ensures Matches(p, i, t, j) <==> j + (|p| - 1 - i) <= |t| && t[j..j + (|p| - 1 - i)] == p[i..|p| - 1]
    decreases |p| - i
  {
    var n := |p| - 1 - i;
    if n == 0 {
      assert p[i] == STAR;
      StarSplits(p, i, t, j);
      assert Matches(p, |p|, t, |t|);
    } else {
      assert p[i] == sub[i - 1];
      if j < |t| {
        LiteralThenStar(sub, p, t, i + 1, j + 1);
        assert p[i..|p| - 1] == [p[i]] + p[i + 1..|p| - 1];
        if j + n <= |t| {
          assert t[j..j + n] == [t[j]] + t[j + 1..j + n];
          if t[j..j + n] == p[i..|p| - 1] {
            assert t[j] == t[j..j + n][0] == p[i..|p| - 1][0];
            assert t[j + 1..j + n] == t[j..j + n][1..] == p[i..|p| - 1][1..] == p[i + 1..|p| - 1];
          }
        }
      }
    }
  }
}
