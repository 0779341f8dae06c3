/** Parsing inverts printing, for every tree of the grammar within the nesting bound. */
module RoundTrip {
  import opened Wrappers
  import opened Text
  import opened Syntax
  import opened Printer

  // --- what follows --------------------------------------------------------------------------------

  predicate FollowsOr(post: Text)
  {
    post == [] || post[0] == RPAREN
  }

  predicate FollowsAnd(post: Text)
  {
    FollowsOr(post) || StartsWith(post, [SPACE] + OR + [SPACE])
  }

  predicate FollowsNot(post: Text)
  {
    FollowsAnd(post) || StartsWith(post, [SPACE] + AND + [SPACE])
  }

  lemma KeywordFollows(word: Text, post: Text)
    requires (word == OR || word == AND) && StartsWith(post, [SPACE] + word + [SPACE])
    ensures WordAt(SkipSpace(post)) == word && SkipSpace(post)[|word|..] == post[|word| + 1..]
    ensures post[0] == SPACE && IsWordStart(SkipSpace(post)[0])
    ensures post[|word| + 1..] == [SPACE] + post[|word| + 2..]
  {
    var k := [SPACE] + word + [SPACE];
    var rest := post[|k|..];
    assert post == post[..|k|] + rest;
    assert post == [SPACE] + (word + ([SPACE] + rest));
    SkipOne(word + ([SPACE] + rest));
    WordsAreIdentifiers();
    ReadWord(word, [SPACE] + rest);
    assert post[|word| + 1..] == [SPACE] + rest;
  }

  lemma NoOperatorAt(t: Text)
    requires t == [] || (t[0] !in {EQUAL, BANG, LESS, GREATER})
    ensures OperatorAt(t).None?
  {
    if t != [] {
      if |t| >= 2 { assert t[..2][0] == t[0]; }
      assert t[..1][0] == t[0];
    }
  }

  lemma FollowFacts(post: Text)
    requires FollowsNot(post)
    ensures EndsOperand(post) && EndsWord(post) && OperatorAt(SkipSpace(post)).None?
    ensures FollowsOr(post) ==> WordAt(SkipSpace(post)) == []
    ensures FollowsAnd(post) ==> WordAt(SkipSpace(post)) != AND
  {
    if FollowsOr(post) {
      NotASpace(post);
    } else {
      KeywordFollows(if FollowsAnd(post) then OR else AND, post);
    }
    NoOperatorAt(SkipSpace(post));
    hide WordAt, OperatorAt, SkipSpace;
  }

  // --- predicates read back ------------------------------------------------------------------------

  lemma OperandSkips(t: Text, n: nat)
    ensures ParseOperand([SPACE] + t, n) == ParseOperand(t, n)
  {
    SkipOne(t);
    SkipSpaceSettles(t);
    hide SkipSpace;
  }

  lemma OperatorReads(op: Operator, rest: Text)
    ensures var v := PrintOperator(op) + ([SPACE] + rest);
            && OperatorAt(v) == Some((op, |PrintOperator(op)|)) && v[|PrintOperator(op)|..] == [SPACE] + rest
            && WordAt(v) == [] && SkipSpace(v) == v && v[0] !in {DOT, LBRACKET}
  {
    var v := PrintOperator(op) + ([SPACE] + rest);
    assert v[|PrintOperator(op)|] == SPACE;
    assert v[..1] == [v[0]];
    assert v[..2] == [v[0], v[1]];
  }

  lemma SpacedEndsOperand(t: Text)
    requires SkipSpace(t) == t && !Begins(t, DOT) && !Begins(t, LBRACKET)
    ensures EndsOperand([SPACE] + t) && SkipSpace([SPACE] + t) == t
  {
    SkipOne(t);
  }

  lemma CompareParts(u: Text, n: nat, op: Operator, left: Operand, right: Operand, l: Text, v: Text, r: Text, w: Text)
    requires SkipSpace(u) == u && !IsFunctionName(WordAt(u)) && ParseOperand(u, n) == Ok((left, l)) && SkipSpace(l) == v
    requires WordAt(v) == [] && OperatorAt(v) == Some((op, |PrintOperator(op)|))
    requires ParseOperand(v[|PrintOperator(op)|..], n) == Ok((right, r)) && SkipSpace(r) == w && OperatorAt(w).None?
    requires ComparisonTyped(op, left, right)
    ensures ParseComparison(u, n) == Ok((Compare(op, left, right), w))
  {
    hide ParseOperand, OperatorAt, WordAt, SkipSpace, ComparisonTyped, PrintOperator;
  }

  lemma StartIsNoFunction(o: Operand, post: Text)
    requires WellFormedOperand(o) && EndsOperand(post)
    ensures var u := PrintOperand(o) + post;
            SkipSpace(u) == u && !IsFunctionName(WordAt(u)) && WordAt(u) != NOT && !Begins(u, LPAREN) && u != []
  {
    OperandStart(o, post);
    NotASpace(PrintOperand(o) + post);
  }

  lemma CompareReads(e: Expr, post: Text, n: nat)
    requires e.Compare? && WellFormed(e) && FitsBare(e, n) && FollowsNot(post)
    ensures Reads(ParseComparison(PrintBare(e) + post, n), e, post)
    ensures LeafStart(PrintBare(e) + post)
  {
    FollowFacts(post);
    var p := PrintOperand(e.right) + post;
    var v := PrintOperator(e.op) + ([SPACE] + p);
    var t := PrintOperand(e.left) + ([SPACE] + v);
    OperatorReads(e.op, p);
    SpacedEndsOperand(v);
    StartIsNoFunction(e.left, [SPACE] + v);
    OperandReads(e.left, [SPACE] + v, n);
    OperandReads(e.right, post, n);
    OperandSkips(p, n);
    SkipSpaceSettles(post);
    assert PrintBare(e) + post == t by { RegroupCompare(PrintOperand(e.left), PrintOperator(e.op), PrintOperand(e.right), post); }
    hide ParseOperand, OperatorAt, WordAt, SkipSpace, ComparisonTyped, ParseComparison, PrintOperand, PrintOperator, PrintBare;
    CompareParts(t, n, e.op, e.left, e.right, ParseOperand(t, n).value.1, v,
                 ParseOperand([SPACE] + p, n).value.1, SkipSpace(post));
  }

  /** A predicate's text leads neither to `not` nor to a parenthesis. */
  predicate LeafStart(u: Text)
  {
    u != [] && SkipSpace(u) == u && WordAt(u) != NOT && !Begins(u, LPAREN)
  }

  lemma RegroupCompare(a: Text, b: Text, c: Text, post: Text)
    ensures (a + [SPACE] + b + [SPACE] + c) + post == a + ([SPACE] + (b + ([SPACE] + (c + post))))
  {
    assert a + [SPACE] + b + [SPACE] + c == a + ([SPACE] + (b + ([SPACE] + c)));
  }

  lemma ListAfterIn(list: seq<Literal>, post: Text, item: Operand, negated: bool, n: nat)
    requires WellFormedLiteral(LList(list)) && LiteralFits(LList(list), n)
    ensures ParseMembership([SPACE] + (PrintLiteral(LList(list)) + post), item, negated, n)
         == Ok((Membership(negated, item, list), post))
  {
    var t := PrintLiteral(LList(list)) + post;
    ListReads(LList(list), post, n);
    NotASpace(t);
    SkipOne(t);
    hide ParseList, SkipSpace;
  }

  lemma MembershipParts(u: Text, n: nat, e: Expr, l: Text, v: Text, w: Text, post: Text)
    requires e.Membership?
    requires SkipSpace(u) == u && !IsFunctionName(WordAt(u)) && ParseOperand(u, n) == Ok((e.item, l)) && SkipSpace(l) == v
    requires e.negated ==> WordAt(v) == NOT && SkipSpace(v[3..]) == w && WordAt(w) == IN
    requires !e.negated ==> v == w && WordAt(w) == IN
    requires |w| >= 2 && ParseMembership(w[2..], e.item, e.negated, n) == Ok((e, post))
    ensures ParseComparison(u, n) == Ok((e, post))
  {
    hide ParseOperand, OperatorAt, WordAt, SkipSpace, ParseMembership, ParseFunction;
  }

  lemma MembershipReads(e: Expr, post: Text, n: nat)
    requires e.Membership? && WellFormed(e) && FitsBare(e, n)
    ensures Reads(ParseComparison(PrintBare(e) + post, n), e, post)
    ensures LeafStart(PrintBare(e) + post)
  {
    var list := PrintLiteral(LList(e.list)) + post;
    var w := IN + ([SPACE] + list);
    var v := if e.negated then NOT + ([SPACE] + w) else w;
    var t := PrintOperand(e.item) + ([SPACE] + v);
    WordsAreIdentifiers();
    ReadWord(IN, [SPACE] + list);
    ReadWord(NOT, [SPACE] + w);
    SkipOne(w);
    SpacedEndsOperand(v);
    StartIsNoFunction(e.item, [SPACE] + v);
    OperandReads(e.item, [SPACE] + v, n);
    ListAfterIn(e.list, post, e.item, e.negated, n);
    assert PrintBare(e) + post == t by { RegroupMembership(e.negated, PrintOperand(e.item), PrintLiteral(LList(e.list)), post); }
    hide ParseOperand, WordAt, SkipSpace, ParseComparison, PrintOperand, PrintLiteral, PrintBare, ParseMembership;
    MembershipParts(t, n, e, ParseOperand(t, n).value.1, v, w, post);
  }

  lemma RegroupMembership(negated: bool, a: Text, c: Text, post: Text)
    ensures (a + [SPACE] + (if negated then NOT + [SPACE] else []) + IN + [SPACE] + c) + post
         == a + ([SPACE] + (if negated then NOT + ([SPACE] + (IN + ([SPACE] + (c + post)))) else IN + ([SPACE] + (c + post))))
  {
    var tail := IN + ([SPACE] + c);
    assert (a + [SPACE] + (if negated then NOT + [SPACE] else []) + IN + [SPACE] + c)
        == a + ([SPACE] + (if negated then NOT + ([SPACE] + tail) else tail));
  }

  lemma CallStart(name: Text, rest: Text)
    requires IsFunctionName(name)
    ensures var u := name + ([LPAREN] + rest);
            && LeafStart(u) && WordAt(u) == name && u[|name|..] == [LPAREN] + rest
            && SkipSpace([LPAREN] + rest) == [LPAREN] + rest && ([LPAREN] + rest)[1..] == rest
  {
    WordsAreIdentifiers();
    ReadWord(name, [LPAREN] + rest);
    NotASpace([LPAREN] + rest);
  }

  lemma CloseReads<T>(tree: T, post: Text)
    ensures CloseCall(tree, [RPAREN] + post) == Ok((tree, post))
  {
    NotASpace([RPAREN] + post);
    assert ([RPAREN] + post)[1..] == post;
  }

  lemma EvidenceCallReads(e: Expr, post: Text, n: nat)
    requires (e.Fresh? || e.Present?) && WellFormed(e)
    ensures Reads(ParseComparison(PrintBare(e) + post, n), e, post)
    ensures LeafStart(PrintBare(e) + post)
  {
    var name := if e.Fresh? then FRESH else PRESENT;
    var close := [RPAREN] + post;
    var w := e.id + close;
    var u := name + ([LPAREN] + w);
    assert PrintBare(e) + post == u;
    CallStart(name, w);
    ReadWord(e.id, close);
    NotASpace(close);
    CloseReads(e, post);
    hide WordAt, SkipSpace, CloseCall, PrintBare;
    EvidenceCallParts(u, name, w, e, close, post);
    SourceIsCall(u, n);
  }

  lemma SourceIsCall(u: Text, n: nat)
    requires SkipSpace(u) == u && IsFunctionName(WordAt(u))
    ensures ParseComparison(u, n) == ParseFunction(u)
  {
  }

  lemma EvidenceCallParts(u: Text, name: Text, w: Text, e: Expr, close: Text, post: Text)
    requires WordAt(u) == name && u[|name|..] == [LPAREN] + w && SkipSpace([LPAREN] + w) == [LPAREN] + w
    requires SkipSpace(w) == w && (e.Fresh? || e.Present?) && name == (if e.Fresh? then FRESH else PRESENT)
    requires WordAt(w) == e.id && e.id != [] && !IsKeyword(e.id) && w[|e.id|..] == close
    requires SkipSpace(close) == close && close == [RPAREN] + post && CloseCall(e, close) == Ok((e, post))
    ensures ParseFunction(u) == Ok((e, post))
  {
    assert ([LPAREN] + w)[1..] == w;
    hide WordAt, SkipSpace, CloseCall, IsKeyword, ParsePath, ParseString;
  }

  lemma MatchesReads(e: Expr, post: Text, n: nat)
    requires e.Matches? && WellFormed(e)
    ensures Reads(ParseComparison(PrintBare(e) + post, n), e, post)
    ensures LeafStart(PrintBare(e) + post)
  {
    var close := [RPAREN] + post;
    var y := PrintString(e.pattern) + close;
    var x := [COMMA] + y;
    var w := PrintPath(e.path) + x;
    var u := MATCHES + ([LPAREN] + w);
    assert PrintBare(e) + post == u by { RegroupMatches(PrintPath(e.path), PrintString(e.pattern), post); }
    CallStart(MATCHES, w);
    NotASpace(x);
    assert EndsOperand(x);
    PathReads(e.path, x);
    StringReads(e.pattern, close);
    NotASpace(y);
    CloseReads(e, post);
    assert x[1..] == y;
    hide WordAt, SkipSpace, CloseCall, PrintBare, ParsePath, ParseString, PrintPath, PrintString;
    MatchesParts(u, w, x, y, e, close, post);
    SourceIsCall(u, n);
  }

  lemma RegroupMatches(p: Text, s: Text, post: Text)
    ensures (MATCHES + [LPAREN] + p + [COMMA] + s + [RPAREN]) + post
         == MATCHES + ([LPAREN] + (p + ([COMMA] + (s + ([RPAREN] + post)))))
  {
    assert MATCHES + [LPAREN] + p + [COMMA] + s + [RPAREN] == MATCHES + ([LPAREN] + (p + ([COMMA] + (s + [RPAREN]))));
  }

  lemma MatchesParts(u: Text, w: Text, x: Text, y: Text, e: Expr, close: Text, post: Text)
    requires e.Matches? && IsRoot(e.path.root)
    requires WordAt(u) == MATCHES && u[|MATCHES|..] == [LPAREN] + w && SkipSpace([LPAREN] + w) == [LPAREN] + w
    requires SkipSpace(w) == w && WordAt(w) == e.path.root && e.path.root != [] && ParsePath(w) == Ok((e.path, x))
    requires SkipSpace(x) == x && Begins(x, COMMA) && x[1..] == y && SkipSpace(y) == y && Begins(y, QUOTE)
    requires ParseString(y) == Ok((e.pattern, close)) && CloseCall(e, close) == Ok((e, post))
    ensures ParseFunction(u) == Ok((e, post))
  {
    assert ([LPAREN] + w)[1..] == w;
    hide WordAt, SkipSpace, CloseCall, IsKeyword, ParsePath, ParseString;
  }

  /** A comparison, membership or call is read back by the comparison production. */
  lemma LeafReads(e: Expr, post: Text, n: nat)
    requires Level(e) == 3 && WellFormed(e) && FitsBare(e, n) && FollowsNot(post)
    ensures Reads(ParseComparison(PrintBare(e) + post, n), e, post)
    ensures LeafStart(PrintBare(e) + post)
  {
    if e.Compare? {
      CompareReads(e, post, n);
    } else if e.Membership? {
      MembershipReads(e, post, n);
    } else if e.Matches? {
      MatchesReads(e, post, n);
    } else {
      EvidenceCallReads(e, post, n);
    }
  }

  // --- connectives read back -----------------------------------------------------------------------

  lemma ParenthesesRead(inner: Text, e: Expr, post: Text, n: nat)
    requires n < MAX_NESTING && Reads(ParseOr(inner + ([RPAREN] + post), n + 1), e, [RPAREN] + post)
    ensures ParsePrimary([LPAREN] + inner + [RPAREN] + post, n) == Ok((e, post))
    ensures PlainStart([LPAREN] + inner + [RPAREN] + post)
  {
    var w := [LPAREN] + inner + [RPAREN] + post;
    assert w[1..] == inner + ([RPAREN] + post);
    NotASpace([RPAREN] + post);
    assert ([RPAREN] + post)[1..] == post;
    NotASpace(w);
    hide ParseOr;
  }

  /** Text whose first word is not `not`, read as it stands. */
  predicate PlainStart(u: Text)
  {
    SkipSpace(u) == u && WordAt(u) != NOT
  }

  lemma PlainNot(u: Text, e: Expr, r: Text, n: nat)
    requires PlainStart(u) && ParsePrimary(u, n) == Ok((e, r))
    ensures ParseNot(u, n) == Ok((e, r))
  {
    hide ParsePrimary, WordAt, SkipSpace;
  }

  lemma NegatedNot(w: Text, e: Expr, r: Text, n: nat)
    requires PlainStart(w) && ParsePrimary(w, n) == Ok((e, r))
    ensures ParseNot(NOT + ([SPACE] + w), n) == Ok((Not(e), r))
  {
    WordsAreIdentifiers();
    ReadWord(NOT, [SPACE] + w);
    SkipOne(w);
    hide ParsePrimary, WordAt, SkipSpace;
  }

  lemma ParenthesizedSplits(e: Expr, context: nat, post: Text)
    requires Level(e) < context
    ensures Print(e, context) + post == [LPAREN] + PrintBare(e) + [RPAREN] + post
  {
  }

  /** Ranks the four readings of one tree, so that each leans on a lower one. */
  function Rank(e: Expr, context: nat): nat
    requires context <= 3
  {
    if Level(e) < context then 10 - context else 3 - context
  }

  lemma {:induction false} PrimaryReads(e: Expr, post: Text, n: nat)
    requires WellFormed(e) && Fits(e, 3, n) && FollowsNot(post)
    ensures Reads(ParsePrimary(Print(e, 3) + post, n), e, post) && PlainStart(Print(e, 3) + post)
    decreases e, Rank(e, 3), 0
  {
    if Level(e) < 3 {
      ParenthesizedSplits(e, 3, post);
      OrReads(e, [RPAREN] + post, n + 1);
      ParenthesesRead(PrintBare(e), e, post, n);
    } else {
      LeafReads(e, post, n);
      hide ParseComparison, PrintBare, WordAt, SkipSpace;
    }
  }

  lemma {:induction false} NotReads(e: Expr, post: Text, n: nat)
    requires WellFormed(e) && Fits(e, 2, n) && FollowsNot(post)
    ensures Reads(ParseNot(Print(e, 2) + post, n), e, post)
    decreases e, Rank(e, 2), 0
  {
    hide ParsePrimary, ParseNot, WordAt, SkipSpace, ParseOr;
    if Level(e) < 2 {
      ParenthesizedSplits(e, 2, post);
      OrReads(e, [RPAREN] + post, n + 1);
      ParenthesesRead(PrintBare(e), e, post, n);
      PlainNot(Print(e, 2) + post, e, post, n);
    } else if e.Not? {
      var w := Print(e.operand, 3) + post;
      PrimaryReads(e.operand, post, n);
      NegatedNot(w, e.operand, ParsePrimary(w, n).value.1, n);
      assert Print(e, 2) + post == NOT + ([SPACE] + w);
    } else {
      PrimaryReads(e, post, n);
      PlainNot(Print(e, 2) + post, e, ParsePrimary(Print(e, 2) + post, n).value.1, n);
    }
  }

  lemma AndStops(operands: seq<Expr>, t: Text, post: Text, n: nat)
    requires operands != [] && SkipSpace(t) == SkipSpace(post) && FollowsAnd(post)
    ensures ParseAndRest(operands, t, n) == Ok((Joined(false, operands), SkipSpace(post)))
  {
    FollowFacts(post);
    hide WordAt, SkipSpace;
  }

  lemma {:induction false} AndReads(e: Expr, post: Text, n: nat)
    requires WellFormed(e) && Fits(e, 1, n) && FollowsAnd(post)
    ensures Reads(ParseAnd(Print(e, 1) + post, n), e, post)
    decreases e, Rank(e, 1), 0
  {
    SkipSpaceSettles(post);
    hide ParseNot, ParseAnd, ParseAndRest, WordAt, SkipSpace, PrintTail;
    if e.And? {
      var first, after := e.operands[0], PrintTail(e, 1) + post;
      TailFollows(e, 1, post);
      NotReads(first, after, n);
      FirstSplits(e, 1, post);
      hide Print, PrintBare;
      var r := ParseNot(Print(first, 2) + after, n).value.1;
      AndOpens(Print(e, 1) + post, first, r, n);
      assert e.operands[..1] == [first];
      AndTailReads(e, 1, r, post, n);
    } else {
      assert Print(e, 1) == Print(e, 2) && Fits(e, 2, n);
      NotReads(e, post, n);
      hide Print;
      var r := ParseNot(Print(e, 1) + post, n).value.1;
      AndOpens(Print(e, 1) + post, e, r, n);
      AndStops([e], r, post, n);
    }
  }

  lemma EmptyTail(e: Expr, post: Text)
    requires e.Or? || e.And?
    requires e.operands != []
    ensures PrintTail(e, |e.operands|) + post == post
  {
  }

  lemma AndOpens(t: Text, e: Expr, r: Text, n: nat)
    requires ParseNot(t, n) == Ok((e, r))
    ensures ParseAnd(t, n) == ParseAndRest([e], r, n)
  {
    hide ParseNot, ParseAndRest;
  }

  lemma FirstSplits(e: Expr, context: nat, post: Text)
    requires (e.Or? || e.And?) && e.operands != [] && Level(e) >= context
    ensures Print(e, context) + post == Print(e.operands[0], Level(e) + 1) + (PrintTail(e, 1) + post)
  {
    var first, tail := Print(e.operands[0], Level(e) + 1), PrintTail(e, 1);
    assert Print(e, context) == first + tail;
    hide Print, PrintTail;
    assert (first + tail) + post == first + (tail + post);
  }

  /** An operand after the first, with its keyword. */
  lemma TailSplits(e: Expr, i: nat, post: Text)
    requires (e.Or? || e.And?) && 0 < i < |e.operands|
    ensures var word := if e.Or? then OR else AND;
            var x := Print(e.operands[i], Level(e) + 1) + (PrintTail(e, i + 1) + post);
            SkipSpace(PrintTail(e, i) + post) == word + ([SPACE] + x)
  {
    var word := if e.Or? then OR else AND;
    var o, tail := Print(e.operands[i], Level(e) + 1), PrintTail(e, i + 1);
    assert PrintTail(e, i) == [SPACE] + word + [SPACE] + o + tail;
    hide Print, PrintTail;
    var x := o + (tail + post);
    assert ([SPACE] + word + [SPACE] + o + tail) + post == [SPACE] + (word + ([SPACE] + x));
    SkipOne(word + ([SPACE] + x));
    NotASpace(word + ([SPACE] + x));
  }

  /** What follows an operand inside its `and` or `or` is the tail, and it may follow. */
  lemma TailFollows(e: Expr, i: nat, post: Text)
    requires (e.And? && FollowsAnd(post)) || (e.Or? && FollowsOr(post))
    requires 0 < i <= |e.operands|
    ensures e.And? ==> FollowsNot(PrintTail(e, i) + post)
    ensures e.Or? ==> FollowsAnd(PrintTail(e, i) + post)
  {
    var t := PrintTail(e, i) + post;
    if i == |e.operands| {
      assert t == post;
    } else {
      var k := [SPACE] + (if e.Or? then OR else AND) + [SPACE];
      var more := Print(e.operands[i], if e.Or? then 1 else 2) + PrintTail(e, i + 1);
      assert PrintTail(e, i) == k + more;
      assert t[..|k|] == k;
    }
  }

  lemma AndStep(operands: seq<Expr>, t: Text, x: Text, e: Expr, r: Text, n: nat)
    requires operands != [] && SkipSpace(t) == AND + ([SPACE] + x)
    requires ParseNot([SPACE] + x, n) == Ok((e, r))
    ensures ParseAndRest(operands, t, n) == ParseAndRest(operands + [e], r, n)
  {
    WordsAreIdentifiers();
    ReadWord(AND, [SPACE] + x);
    hide WordAt, SkipSpace, ParseNot;
  }

  lemma NotSkips(x: Text, n: nat)
    ensures ParseNot([SPACE] + x, n) == ParseNot(x, n)
  {
    SkipOne(x);
    hide SkipSpace, ParsePrimary;
  }

  lemma AndTailStep(e: Expr, i: nat, t: Text, post: Text, r: Text, n: nat)
    requires e.And? && 0 < i < |e.operands| && SkipSpace(t) == SkipSpace(PrintTail(e, i) + post)
    requires ParseNot(Print(e.operands[i], 2) + (PrintTail(e, i + 1) + post), n) == Ok((e.operands[i], r))
    ensures ParseAndRest(e.operands[..i], t, n) == ParseAndRest(e.operands[..i + 1], r, n)
  {
    hide ParseNot, PrintTail, Print, SkipSpace, ParseAndRest;
    var x := Print(e.operands[i], 2) + (PrintTail(e, i + 1) + post);
    TailSplits(e, i, post);
    NotSkips(x, n);
    AndStep(e.operands[..i], t, x, e.operands[i], r, n);
    assert e.operands[..i] + [e.operands[i]] == e.operands[..i + 1];
  }

  lemma {:induction false} AndTailReads(e: Expr, i: nat, t: Text, post: Text, n: nat)
    requires e.And? && WellFormed(e) && FitsBare(e, n) && 0 < i <= |e.operands| && FollowsAnd(post)
    requires SkipSpace(t) == SkipSpace(PrintTail(e, i) + post)
    ensures ParseAndRest(e.operands[..i], t, n) == Ok((e, SkipSpace(post)))
    decreases e, 0, |e.operands| - i
  {
    hide ParseNot, PrintTail, Print, SkipSpace, ParseAndRest, FollowsAnd;
    if i == |e.operands| {
      assert e.operands[..i] == e.operands;
      EmptyTail(e, post);
      AndStops(e.operands, t, post, n);
    } else {
      var after := PrintTail(e, i + 1) + post;
      TailFollows(e, i + 1, post);
      NotReads(e.operands[i], after, n);
      var r := ParseNot(Print(e.operands[i], 2) + after, n).value.1;
      AndTailStep(e, i, t, post, r, n);
      hide Fits, FitsBare, WellFormed;
      AndTailReads(e, i + 1, r, post, n);
    }
  }

  lemma OrStops(operands: seq<Expr>, t: Text, post: Text, n: nat)
    requires operands != [] && SkipSpace(t) == SkipSpace(post) && FollowsOr(post)
    ensures ParseOrRest(operands, t, n) == Ok((Joined(true, operands), SkipSpace(post)))
  {
    FollowFacts(post);
    hide WordAt, SkipSpace;
  }

  lemma {:induction false} OrReads(e: Expr, post: Text, n: nat)
    requires WellFormed(e) && FitsBare(e, n) && FollowsOr(post)
    ensures Reads(ParseOr(PrintBare(e) + post, n), e, post)
    decreases e, Rank(e, 0), 0
  {
    SkipSpaceSettles(post);
    hide ParseAnd, ParseOr, ParseOrRest, WordAt, SkipSpace, PrintTail;
    assert PrintBare(e) == Print(e, 0);
    if e.Or? {
      var first, after := e.operands[0], PrintTail(e, 1) + post;
      TailFollows(e, 1, post);
      AndReads(first, after, n);
      FirstSplits(e, 0, post);
      hide Print, PrintBare;
      var r := ParseAnd(Print(first, 1) + after, n).value.1;
      OrOpens(PrintBare(e) + post, first, r, n);
      assert e.operands[..1] == [first];
      OrTailReads(e, 1, r, post, n);
    } else {
      assert PrintBare(e) == Print(e, 1) && Fits(e, 1, n);
      AndReads(e, post, n);
      hide Print, PrintBare;
      var r := ParseAnd(PrintBare(e) + post, n).value.1;
      OrOpens(PrintBare(e) + post, e, r, n);
      OrStops([e], r, post, n);
    }
  }

  lemma OrOpens(t: Text, e: Expr, r: Text, n: nat)
    requires ParseAnd(t, n) == Ok((e, r))
    ensures ParseOr(t, n) == ParseOrRest([e], r, n)
  {
    hide ParseAnd, ParseOrRest;
  }

  lemma OrStep(operands: seq<Expr>, t: Text, x: Text, e: Expr, r: Text, n: nat)
    requires operands != [] && SkipSpace(t) == OR + ([SPACE] + x)
    requires ParseAnd([SPACE] + x, n) == Ok((e, r))
    ensures ParseOrRest(operands, t, n) == ParseOrRest(operands + [e], r, n)
  {
    WordsAreIdentifiers();
    ReadWord(OR, [SPACE] + x);
    hide WordAt, SkipSpace, ParseAnd;
  }

  lemma AndSkips(x: Text, n: nat)
    ensures ParseAnd([SPACE] + x, n) == ParseAnd(x, n)
  {
    NotSkips(x, n);
    hide ParseNot, ParseAndRest;
  }

  lemma OrTailStep(e: Expr, i: nat, t: Text, post: Text, r: Text, n: nat)
    requires e.Or? && 0 < i < |e.operands| && SkipSpace(t) == SkipSpace(PrintTail(e, i) + post)
    requires ParseAnd(Print(e.operands[i], 1) + (PrintTail(e, i + 1) + post), n) == Ok((e.operands[i], r))
    ensures ParseOrRest(e.operands[..i], t, n) == ParseOrRest(e.operands[..i + 1], r, n)
  {
    hide ParseAnd, PrintTail, Print, SkipSpace, ParseOrRest;
    var x := Print(e.operands[i], 1) + (PrintTail(e, i + 1) + post);
    TailSplits(e, i, post);
    AndSkips(x, n);
    OrStep(e.operands[..i], t, x, e.operands[i], r, n);
    assert e.operands[..i] + [e.operands[i]] == e.operands[..i + 1];
  }

  lemma {:induction false} OrTailReads(e: Expr, i: nat, t: Text, post: Text, n: nat)
    requires e.Or? && WellFormed(e) && FitsBare(e, n) && 0 < i <= |e.operands| && FollowsOr(post)
    requires SkipSpace(t) == SkipSpace(PrintTail(e, i) + post)
    ensures ParseOrRest(e.operands[..i], t, n) == Ok((e, SkipSpace(post)))
    decreases e, 0, |e.operands| - i
  {
    hide ParseAnd, PrintTail, Print, SkipSpace, ParseOrRest, FollowsOr;
    if i == |e.operands| {
      assert e.operands[..i] == e.operands;
      EmptyTail(e, post);
      OrStops(e.operands, t, post, n);
    } else {
      var after := PrintTail(e, i + 1) + post;
      TailFollows(e, i + 1, post);
      AndReads(e.operands[i], after, n);
      var r := ParseAnd(Print(e.operands[i], 1) + after, n).value.1;
      OrTailStep(e, i, t, post, r, n);
      hide Fits, FitsBare, WellFormed;
      OrTailReads(e, i + 1, r, post, n);
    }
  }

  /** Every tree of the grammar that stays within 64 open brackets and parentheses is the parse of
      its printed text. */
  lemma PrintedTreeParses(e: Expr)
    requires WellFormed(e) && Fits(e, 0, 0)
    ensures ParseSource(Print(e, 0)) == Ok(e)
  {
    var t := Print(e, 0);
    OrReads(e, [], 0);
    assert t + [] == t;
    PrintedStart(e);
    NotASpace(t);
    hide ParseOr, PrintBare;
  }

  lemma {:induction false} PrintedStart(e: Expr)
    requires WellFormed(e)
    ensures PrintBare(e) != [] && !IsSpace(PrintBare(e)[0])
    decreases e
  {
    if e.Or? || e.And? {
      var context := if e.Or? then 1 else 2;
      var first := e.operands[0];
      PrintedStart(first);
      assert PrintBare(e) == Print(first, context) + PrintTail(e, 1);
      assert PrintBare(e)[0] == Print(first, context)[0];
    } else if e.Compare? {
      OperandStart(e.left, []);
      assert PrintOperand(e.left) + [] == PrintOperand(e.left);
      assert PrintBare(e)[0] == PrintOperand(e.left)[0];
    } else if e.Membership? {
      OperandStart(e.item, []);
      assert PrintOperand(e.item) + [] == PrintOperand(e.item);
      assert PrintBare(e)[0] == PrintOperand(e.item)[0];
    }
  }
}
