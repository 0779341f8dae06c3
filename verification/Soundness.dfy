/** Every tree the parser returns is a tree of the grammar within the nesting bound; with the round
    trip, exactly those trees. */
module Soundness {
  import opened Wrappers
  import opened Text
  import opened Syntax
  import opened Printer
  import opened RoundTrip

  lemma TakenWordIsIdentifier(t: Text)
    requires WordAt(t) != []
    ensures IsIdentifier(WordAt(t))
  {
  }

  // --- literals, paths, operands ---------------------------------------------------------------------

  ghost predicate GoodLiteral(l: Literal, n: nat)
  {
    WellFormedLiteral(l) && LiteralFits(l, n)
  }

  ghost predicate GoodItems(items: seq<Literal>, n: nat)
  {
    forall i :: 0 <= i < |items| ==> GoodLiteral(items[i], n)
  }

  lemma ListOfGood(items: seq<Literal>, n: nat)
    requires n < MAX_NESTING && GoodItems(items, n + 1)
    ensures GoodLiteral(LList(items), n)
  {
    assert forall i :: 0 <= i < |items| ==> GoodLiteral(items[i], n + 1);
  }

  lemma {:induction false} ListSound(t: Text, n: nat)
    requires Begins(t, LBRACKET) && ParseList(t, n).Ok?
    ensures GoodLiteral(LList(ParseList(t, n).value.0), n)
    decreases |t|, 0
  {
    var u := SkipSpace(t[1..]);
    if !Begins(u, RBRACKET) { ItemsSound([], u, n + 1); }
    ListOfGood(ParseList(t, n).value.0, n);
  }

  lemma {:induction false} ItemsSound(members: seq<Literal>, t: Text, n: nat)
    requires ParseListItems(members, t, n).Ok? && GoodItems(members, n)
    ensures GoodItems(ParseListItems(members, t, n).value.0, n)
    decreases |t|, 2
  {
    hide ParseListMember, GoodLiteral;
    MemberSound(t, n);
    var (m, rest) := ParseListMember(t, n).value;
    var u := SkipSpace(rest);
    if Begins(u, COMMA) { ItemsSound(members + [m], SkipSpace(u[1..]), n); }
  }

  lemma {:induction false} MemberSound(t: Text, n: nat)
    requires ParseListMember(t, n).Ok?
    ensures GoodLiteral(ParseListMember(t, n).value.0, n)
    decreases |t|, 1
  {
    var u := SkipSpace(t);
    if Begins(u, LBRACKET) { ListSound(u, n); }
  }

  lemma {:induction false} SegmentsSound(before: seq<Segment>, t: Text)
    requires ParseSegments(before, t).Ok?
    requires forall i :: 0 <= i < |before| ==> WellFormedSegment(before[i])
    ensures var s := ParseSegments(before, t).value.0;
            before <= s && forall i :: 0 <= i < |s| ==> WellFormedSegment(s[i])
    decreases |t|
  {
    hide WordAt, SkipSpace, CanonicalDigitsEnd, Num;
    var u := SkipSpace(t);
    if Begins(u, DOT) {
      var w := SkipSpace(u[1..]);
      TakenWordIsIdentifier(w);
      SegmentsSound(before + [Member(WordAt(w))], w[|WordAt(w)|..]);
    } else if Begins(u, LBRACKET) {
      var w := SkipSpace(u[1..]);
      var end := CanonicalDigitsEnd(w, 0).value;
      SegmentsSound(before + [Index(Num(w[..end]))], SkipSpace(w[end..])[1..]);
    }
  }

  lemma PathSound(t: Text)
    requires IsRoot(WordAt(t)) && WordAt(t) != [] && ParsePath(t).Ok?
    ensures WellFormedPath(ParsePath(t).value.0)
  {
    hide WordAt, SkipSpace, ParseSegments;
    var w := SkipSpace(SkipSpace(t[|WordAt(t)|..])[1..]);
    TakenWordIsIdentifier(w);
    SegmentsSound([Member(WordAt(w))], w[|WordAt(w)|..]);
  }

  ghost predicate GoodOperand(o: Operand, n: nat)
  {
    WellFormedOperand(o) && OperandFits(o, n)
  }

  lemma OperandSound(t: Text, n: nat)
    requires ParseOperand(t, n).Ok?
    ensures GoodOperand(ParseOperand(t, n).value.0, n)
  {
    var u := SkipSpace(t);
    if IsRoot(WordAt(u)) {
      PathSound(u);
    } else if WordAt(u) != TRUE && WordAt(u) != FALSE && Begins(u, LBRACKET) {
      ListSound(u, n);
    }
    hide WordAt, SkipSpace, ParsePath, ParseList, ParseString, WellFormedPath;
  }

  // --- predicates ------------------------------------------------------------------------------------

  lemma MembershipSound(t: Text, item: Operand, negated: bool, n: nat)
    requires ParseMembership(t, item, negated, n).Ok? && GoodOperand(item, n)
    ensures GoodLeaf(ParseMembership(t, item, negated, n).value.0, n)
  {
    ListSound(SkipSpace(t), n);
    hide SkipSpace, ParseList, WellFormedLiteral, LiteralFits;
  }

  ghost predicate GoodLeaf(e: Expr, n: nat)
  {
    Level(e) == 3 && WellFormed(e) && FitsBare(e, n)
  }

  lemma FunctionSound(t: Text, n: nat)
    requires IsFunctionName(WordAt(t)) && ParseFunction(t).Ok?
    ensures GoodLeaf(ParseFunction(t).value.0, n)
  {
    hide SkipSpace, WordAt, ParsePath, ParseString, CloseCall;
    var w := SkipSpace(SkipSpace(t[|WordAt(t)|..])[1..]);
    if WordAt(t) != MATCHES {
      TakenWordIsIdentifier(w);
      var word := WordAt(w);
      CloseKeeps(if WordAt(t) == FRESH then Fresh(word) else Present(word), SkipSpace(w[|word|..]));
    } else {
      PathSound(w);
      var (p, rest) := ParsePath(w).value;
      var y := SkipSpace(SkipSpace(rest)[1..]);
      var (s, after) := ParseString(y).value;
      CloseKeeps(Matches(p, s), after);
    }
  }

  lemma CloseKeeps<T>(tree: T, t: Text)
    ensures CloseCall(tree, t).Ok? ==> CloseCall(tree, t).value.0 == tree
  {
  }

  lemma ComparisonSound(t: Text, n: nat)
    requires ParseComparison(t, n).Ok?
    ensures GoodLeaf(ParseComparison(t, n).value.0, n)
  {
    hide SkipSpace, WordAt, ParseOperand, ParseMembership, ParseFunction, OperatorAt, ComparisonTyped;
    var u := SkipSpace(t);
    if IsFunctionName(WordAt(u)) {
      FunctionSound(u, n);
    } else {
      OperandSound(u, n);
      var (left, rest) := ParseOperand(u, n).value;
      var v := SkipSpace(rest);
      if WordAt(v) == NOT {
        MembershipSound(SkipSpace(v[3..])[2..], left, true, n);
      } else if WordAt(v) == IN {
        MembershipSound(v[2..], left, false, n);
      } else {
        OperandSound(v[OperatorAt(v).value.1..], n);
      }
    }
  }

  // --- connectives -----------------------------------------------------------------------------------

  lemma {:induction false} LiteralFitsLess(l: Literal, n: nat)
    requires LiteralFits(l, n + 1)
    ensures LiteralFits(l, n)
    decreases l
  {
    if l.LList? {
      forall i | 0 <= i < |l.items| ensures LiteralFits(l.items[i], n + 1) { LiteralFitsLess(l.items[i], n + 1); }
    }
  }

  /** What fits inside one more parenthesis fits without it. */
  lemma {:induction false} FitsLess(e: Expr, n: nat)
    requires FitsBare(e, n + 1)
    ensures FitsBare(e, n)
    decreases e, 0
  {
    match e {
      case Or(operands) =>
        forall i | 0 <= i < |operands| ensures Fits(operands[i], 1, n) { FitsInContext(operands[i], 1, n); }
      case And(operands) =>
        forall i | 0 <= i < |operands| ensures Fits(operands[i], 2, n) { FitsInContext(operands[i], 2, n); }
      case Not(operand) => FitsInContext(operand, 3, n);
      case Compare(op, left, right) =>
        if left.LiteralOperand? { LiteralFitsLess(left.literal, n); }
        if right.LiteralOperand? { LiteralFitsLess(right.literal, n); }
      case Membership(negated, item, list) =>
        LiteralFitsLess(LList(list), n);
        if item.LiteralOperand? { LiteralFitsLess(item.literal, n); }
      case _ =>
    }
  }

  lemma {:induction false} FitsInContext(e: Expr, context: nat, n: nat)
    requires Fits(e, context, n + 1)
    ensures Fits(e, context, n)
    decreases e, 1
  {
    if Level(e) < context { FitsLess(e, n + 1); } else { FitsLess(e, n); }
  }

  /** A tree that fits in a tighter context fits in a looser one. */
  lemma FitsLooser(e: Expr, tight: nat, loose: nat, n: nat)
    requires loose <= tight && Fits(e, tight, n)
    ensures Fits(e, loose, n)
  {
    if Level(e) < tight && !(Level(e) < loose) { FitsLess(e, n); }
  }

  ghost predicate Good(e: Expr, context: nat, n: nat)
  {
    WellFormed(e) && Fits(e, context, n)
  }

  ghost predicate AllGood(es: seq<Expr>, context: nat, n: nat)
  {
    forall i :: 0 <= i < |es| ==> Good(es[i], context, n)
  }

  lemma {:induction false} PrimarySound(w: Text, n: nat)
    requires ParsePrimary(w, n).Ok?
    ensures Good(ParsePrimary(w, n).value.0, 3, n)
    decreases |w|, 1
  {
    if !Begins(w, LPAREN) {
      ComparisonSound(w, n);
    } else {
      OrSound(w[1..], n + 1);
      var e := ParsePrimary(w, n).value.0;
      if Level(e) == 3 { FitsLess(e, n); }
    }
  }

  lemma {:induction false} NotSound(t: Text, n: nat)
    requires ParseNot(t, n).Ok?
    ensures Good(ParseNot(t, n).value.0, 2, n)
    decreases |t|, 2
  {
    hide ParsePrimary, WordAt, SkipSpace;
    var u := SkipSpace(t);
    var w := if WordAt(u) == NOT then SkipSpace(u[3..]) else u;
    PrimarySound(w, n);
    var e := ParsePrimary(w, n).value.0;
    FitsLooser(e, 3, 2, n);
    assert FitsBare(Not(e), n) && Level(Not(e)) == 2;
  }

  lemma JoinedGood(isOr: bool, es: seq<Expr>, n: nat)
    requires es != [] && AllGood(es, if isOr then 1 else 2, n)
    ensures Good(Joined(isOr, es), if isOr then 0 else 1, n)
  {
    if |es| == 1 {
      assert Good(es[0], if isOr then 1 else 2, n);
      FitsLooser(es[0], if isOr then 1 else 2, if isOr then 0 else 1, n);
    } else {
      assert forall i :: 0 <= i < |es| ==> Good(es[i], if isOr then 1 else 2, n);
    }
  }

  lemma {:induction false} AndRestSound(es: seq<Expr>, t: Text, n: nat)
    requires es != [] && ParseAndRest(es, t, n).Ok? && AllGood(es, 2, n)
    ensures Good(ParseAndRest(es, t, n).value.0, 1, n)
    decreases |t|, 3
  {
    hide ParseNot, WordAt, SkipSpace, Good;
    var u := SkipSpace(t);
    if WordAt(u) != AND {
      JoinedGood(false, es, n);
    } else {
      NotSound(u[3..], n);
      var (e, rest) := ParseNot(u[3..], n).value;
      AndRestSound(es + [e], rest, n);
    }
  }

  lemma {:induction false} AndSound(t: Text, n: nat)
    requires ParseAnd(t, n).Ok?
    ensures Good(ParseAnd(t, n).value.0, 1, n)
    decreases |t|, 3
  {
    hide ParseNot, ParseAndRest, Good;
    NotSound(t, n);
    AndRestSound([ParseNot(t, n).value.0], ParseNot(t, n).value.1, n);
  }

  lemma {:induction false} OrRestSound(es: seq<Expr>, t: Text, n: nat)
    requires es != [] && ParseOrRest(es, t, n).Ok? && AllGood(es, 1, n)
    ensures Good(ParseOrRest(es, t, n).value.0, 0, n)
    decreases |t|, 4
  {
    hide ParseAnd, WordAt, SkipSpace, Good;
    var u := SkipSpace(t);
    if WordAt(u) != OR {
      JoinedGood(true, es, n);
    } else {
      AndSound(u[2..], n);
      var (e, rest) := ParseAnd(u[2..], n).value;
      OrRestSound(es + [e], rest, n);
    }
  }

  lemma {:induction false} OrSound(t: Text, n: nat)
    requires ParseOr(t, n).Ok?
    ensures Good(ParseOr(t, n).value.0, 0, n)
    decreases |t|, 4
  {
    hide ParseAnd, ParseOrRest, Good;
    AndSound(t, n);
    OrRestSound([ParseAnd(t, n).value.0], ParseAnd(t, n).value.1, n);
  }

  /** What the parser returns is a tree of the grammar, printable within the nesting bound. */
  lemma ParsedTreeIsGrammatical(source: Text)
    requires ParseSource(source).Ok?
    ensures WellFormed(ParseSource(source).value) && Fits(ParseSource(source).value, 0, 0)
  {
    OrSound(SkipSpace(source), 0);
  }

  /** The parser's range: a tree is the parse of some source if and only if it is a tree of the
      grammar that can be written within 64 open brackets and parentheses. */
  lemma ParsedTreesExactly(e: Expr)
    ensures (exists source :: ParseSource(source) == Ok(e)) <==> WellFormed(e) && Fits(e, 0, 0)
  {
    if source :| ParseSource(source) == Ok(e) { ParsedTreeIsGrammatical(source); }
    if WellFormed(e) && Fits(e, 0, 0) { PrintedTreeParses(e); }
  }

  /** White space and redundant parentheses leave no trace: printing what was parsed parses to the
      same tree. */
  lemma ReprintingParsesTheSame(source: Text)
    requires ParseSource(source).Ok?
    ensures ParseSource(Print(ParseSource(source).value, 0)) == ParseSource(source)
  {
    ParsedTreeIsGrammatical(source);
    PrintedTreeParses(ParseSource(source).value);
  }

  /** No operand of `not` is itself an unparenthesised `not`: the source text `not not` is refused
      whatever follows it. */
  lemma NotNotRefused(rest: Text, n: nat)
    requires EndsWord(rest)
    ensures ParseNot(NOT + ([SPACE] + (NOT + rest)), n).Err?
  {
    WordsAreIdentifiers();
    ReadWord(NOT, [SPACE] + (NOT + rest));
    SkipOne(NOT + rest);
    ReadWord(NOT, rest);
  }

  /** A surrogate escape in a string is refused even where it is half of a pair, which
      spec/expression-language.md calls valid; the loader's own reader accepts the pair. */
  lemma SurrogatePairRefused(pieces: Text, high: Text, rest: Text, start: nat)
    requires |high| == 4 && FourHexDigits(high) && IsSurrogate(HexCode(high))
    ensures ParseStringBody(pieces, [BACKSLASH, 0x75] + high + rest, start) == Err(SurrogateEscape)
  {
    var t := [BACKSLASH, 0x75] + high + rest;
    assert t[1..] == [0x75] + (high + rest);
    assert t[1..][1..] == high + rest;
  }
}
