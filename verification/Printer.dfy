/** Printing expression trees with as few parentheses as the grammar allows, and the parser
    reading every printed tree back. */
module Printer {
  import opened Wrappers
  import opened Text
  import opened Canon
  import opened Syntax

  // --- printing ------------------------------------------------------------------------------------

  function QuotedCharacter(c: Code): Text
  {
    if c == QUOTE || c == BACKSLASH then [BACKSLASH, c]
    else if c == LF then [BACKSLASH, 0x6E]
    else [c]
  }

  function Quoted(s: Text): Text
  {
    if s == [] then [] else QuotedCharacter(s[0]) + Quoted(s[1..])
  }

  function PrintString(s: Text): Text
  {
    [QUOTE] + Quoted(s) + [QUOTE]
  }

  function PrintInt(n: int): Text
  {
    if n < 0 then [DASH] + Digits(-n) else Digits(n)
  }

  function PrintLiteral(l: Literal): Text
    decreases l
  {
    match l
    case LBool(b) => if b then TRUE else FALSE
    case LInt(n) => PrintInt(n)
    case LStr(s) => PrintString(s)
    case LList(items) => [LBRACKET] + PrintItems(l, 0)
  }

  /** Items from `i` on, and the closing bracket. */
  function PrintItems(l: Literal, i: nat): Text
    requires l.LList? && i <= |l.items|
    decreases l, |l.items| - i
  {
    if i == |l.items| then [RBRACKET]
    else (if i == 0 then [] else [COMMA]) + PrintLiteral(l.items[i]) + PrintItems(l, i + 1)
  }

  function PrintSegment(s: Segment): Text
  {
    match s
    case Member(name) => [DOT] + name
    case Index(n) => [LBRACKET] + Digits(n) + [RBRACKET]
  }

  function PrintSegments(segments: seq<Segment>): Text
  {
    if segments == [] then [] else PrintSegment(segments[0]) + PrintSegments(segments[1..])
  }

  function PrintPath(p: Path): Text
  {
    p.root + PrintSegments(p.segments)
  }

  function PrintOperand(o: Operand): Text
  {
    match o
    case PathOperand(p) => PrintPath(p)
    case LiteralOperand(l) => PrintLiteral(l)
  }

  function PrintOperator(op: Operator): Text
  {
    match op
    case Eq => [EQUAL, EQUAL]
    case Ne => [BANG, EQUAL]
    case Le => [LESS, EQUAL]
    case Ge => [GREATER, EQUAL]
    case Lt => [LESS]
    case Gt => [GREATER]
  }

  /** How tightly a tree binds: `or`, `and`, `not`, and then comparisons and calls. */
  function Level(e: Expr): nat
  {
    if e.Or? then 0 else if e.And? then 1 else if e.Not? then 2 else 3
  }

  /** Printed where a tree of at least level `context` may stand. */
  function Print(e: Expr, context: nat): Text
    decreases e, 1
  {
    if Level(e) < context then [LPAREN] + PrintBare(e) + [RPAREN] else PrintBare(e)
  }

  function PrintBare(e: Expr): Text
    decreases e, 0
  {
    match e
    case Or(operands) => if operands == [] then [] else Print(operands[0], 1) + PrintTail(e, 1)
    case And(operands) => if operands == [] then [] else Print(operands[0], 2) + PrintTail(e, 1)
    case Not(operand) => NOT + [SPACE] + Print(operand, 3)
    case Compare(op, left, right) => PrintOperand(left) + [SPACE] + PrintOperator(op) + [SPACE] + PrintOperand(right)
    case Membership(negated, item, list) =>
      PrintOperand(item) + [SPACE] + (if negated then NOT + [SPACE] else []) + IN + [SPACE] + PrintLiteral(LList(list))
    case Fresh(id) => FRESH + [LPAREN] + id + [RPAREN]
    case Present(id) => PRESENT + [LPAREN] + id + [RPAREN]
    case Matches(path, pattern) => MATCHES + [LPAREN] + PrintPath(path) + [COMMA] + PrintString(pattern) + [RPAREN]
  }

  /** The operands of an `or` or `and` from `i` on, each after its keyword. */
  function PrintTail(e: Expr, i: nat): Text
    requires e.Or? || e.And?
    requires i <= |e.operands| || (i == 1 && e.operands == [])
    decreases e, 0, |e.operands| - i
  {
    if i >= |e.operands| then []
    else if e.Or? then [SPACE] + OR + [SPACE] + Print(e.operands[i], 1) + PrintTail(e, i + 1)
    else [SPACE] + AND + [SPACE] + Print(e.operands[i], 2) + PrintTail(e, i + 1)
  }

  // --- trees of the grammar ------------------------------------------------------------------------

  ghost predicate WellFormedLiteral(l: Literal)
  {
    match l
    case LInt(n) => MIN_SAFE_INTEGER <= n <= MAX_SAFE_INTEGER
    case LList(items) => forall i :: 0 <= i < |items| ==> WellFormedLiteral(items[i])
    case _ => true
  }

  ghost predicate WellFormedSegment(s: Segment)
  {
    s.Member? ==> IsIdentifier(s.name)
  }

  ghost predicate WellFormedPath(p: Path)
  {
    && IsRoot(p.root) && p.segments != [] && p.segments[0].Member?
    && forall i :: 0 <= i < |p.segments| ==> WellFormedSegment(p.segments[i])
  }

  ghost predicate WellFormedOperand(o: Operand)
  {
    match o
    case PathOperand(p) => WellFormedPath(p)
    case LiteralOperand(l) => WellFormedLiteral(l)
  }

  /** The trees the grammar derives: at least two operands, no other tree excluded but by the static
      checks and the word rules. */
  ghost predicate WellFormed(e: Expr)
  {
    match e
    case Or(operands) => |operands| >= 2 && forall i :: 0 <= i < |operands| ==> WellFormed(operands[i])
    case And(operands) => |operands| >= 2 && forall i :: 0 <= i < |operands| ==> WellFormed(operands[i])
    case Not(operand) => WellFormed(operand)
    case Compare(op, left, right) => WellFormedOperand(left) && WellFormedOperand(right) && ComparisonTyped(op, left, right)
    case Membership(negated, item, list) => WellFormedOperand(item) && WellFormedLiteral(LList(list))
    case Fresh(id) => IsIdentifier(id) && !IsKeyword(id)
    case Present(id) => IsIdentifier(id) && !IsKeyword(id)
    case Matches(path, pattern) => WellFormedPath(path)
  }

  // --- the nesting bound ---------------------------------------------------------------------------

  /** Inside `n` open brackets and parentheses, the literal opens none beyond the bound. */
  ghost predicate LiteralFits(l: Literal, n: nat)
    decreases l
  {
    l.LList? ==> n < MAX_NESTING && forall i :: 0 <= i < |l.items| ==> LiteralFits(l.items[i], n + 1)
  }

  ghost predicate OperandFits(o: Operand, n: nat)
  {
    o.LiteralOperand? ==> LiteralFits(o.literal, n)
  }

  /** Inside `n` open brackets and parentheses, the tree printed for `context` stays in the bound. */
  ghost predicate Fits(e: Expr, context: nat, n: nat)
    decreases e, 1
  {
    if Level(e) < context then n < MAX_NESTING && FitsBare(e, n + 1) else FitsBare(e, n)
  }

  ghost predicate FitsBare(e: Expr, n: nat)
    decreases e, 0
  {
    match e
    case Or(operands) => forall i :: 0 <= i < |operands| ==> Fits(operands[i], 1, n)
    case And(operands) => forall i :: 0 <= i < |operands| ==> Fits(operands[i], 2, n)
    case Not(operand) => Fits(operand, 3, n)
    case Compare(op, left, right) => OperandFits(left, n) && OperandFits(right, n)
    case Membership(negated, item, list) => OperandFits(item, n) && LiteralFits(LList(list), n)
    case _ => true
  }

  // --- words and spaces ----------------------------------------------------------------------------

  predicate EndsWord(post: Text)
  {
    post == [] || !IsWordPart(post[0])
  }

  lemma {:induction false} WordRunIs(w: Text, post: Text)
    requires (forall i :: 0 <= i < |w| ==> IsWordPart(w[i])) && EndsWord(post)
    ensures WordRun(w + post) == |w|
  {
    if w == [] {
      assert w + post == post;
    } else {
      WordRunIs(w[1..], post);
      assert (w + post)[1..] == w[1..] + post;
    }
  }

  lemma ReadWord(w: Text, post: Text)
    requires IsIdentifier(w) && EndsWord(post)
    ensures WordAt(w + post) == w && (w + post)[|w|..] == post && SkipSpace(w + post) == w + post
  {
    WordRunIs(w, post);
    assert (w + post)[0] == w[0];
    assert (w + post)[..|w|] == w;
  }

  lemma WordsAreIdentifiers()
    ensures IsIdentifier(AND) && IsIdentifier(OR) && IsIdentifier(NOT) && IsIdentifier(IN)
    ensures IsIdentifier(TRUE) && IsIdentifier(FALSE)
    ensures IsIdentifier(FRESH) && IsIdentifier(PRESENT) && IsIdentifier(MATCHES)
    ensures IsIdentifier(CANDIDATE) && IsIdentifier(EVIDENCE) && IsIdentifier(IDENTITY)
  {
  }

  lemma NotASpace(t: Text)
    requires t == [] || !IsSpace(t[0])
    ensures SkipSpace(t) == t
  {
  }

  lemma SkipOne(t: Text)
    ensures SkipSpace([SPACE] + t) == SkipSpace(t)
  {
    assert ([SPACE] + t)[1..] == t;
  }

  // --- literals read back --------------------------------------------------------------------------

  lemma QuotedCharacterReads(pieces: Text, c: Code, rest: Text, start: nat)
    ensures ParseStringBody(pieces, QuotedCharacter(c) + rest, start) == ParseStringBody(pieces + [c], rest, start)
  {
    var t := QuotedCharacter(c) + rest;
    if c == QUOTE || c == BACKSLASH {
      assert t[1..] == [c] + rest && t[1..][1..] == rest;
    } else if c == LF {
      assert t[1..] == [0x6E] + rest && t[1..][1..] == rest;
    } else {
      assert t[1..] == rest;
    }
  }

  lemma {:induction false} QuotedReads(pieces: Text, s: Text, post: Text, start: nat)
    ensures ParseStringBody(pieces, Quoted(s) + [QUOTE] + post, start) == Ok((pieces + s, post))
    decreases s
  {
    var t := Quoted(s) + [QUOTE] + post;
    if s == [] {
      assert t == [QUOTE] + post && t[1..] == post && pieces + s == pieces;
    } else {
      var rest := Quoted(s[1..]) + [QUOTE] + post;
      QuotedReads(pieces + [s[0]], s[1..], post, start);
      assert pieces + [s[0]] + s[1..] == pieces + s;
      assert t == QuotedCharacter(s[0]) + rest;
      hide ParseStringBody, QuotedCharacter;
      QuotedCharacterReads(pieces, s[0], rest, start);
    }
  }

  lemma StringReads(s: Text, post: Text)
    ensures Begins(PrintString(s) + post, QUOTE)
    ensures ParseString(PrintString(s) + post) == Ok((s, post))
  {
    var t := PrintString(s) + post;
    assert t[1..] == Quoted(s) + [QUOTE] + post;
    QuotedReads([], s, post, |t|);
    assert [] + s == s;
  }

  /** What may follow a literal. */
  predicate EndsLiteral(post: Text)
  {
    post == [] || post[0] in {COMMA, RBRACKET, SPACE, RPAREN}
  }

  lemma IntegerParts(t: Text, end: nat, n: int)
    requires IntegerEnd(t) == Some(end)
    requires (if Begins(t, DASH) then 1 else 0) <= end && AllDigits(t[(if Begins(t, DASH) then 1 else 0)..end])
    requires var m: int := Num(t[(if Begins(t, DASH) then 1 else 0)..end]); n == if Begins(t, DASH) then -m else m
    requires MIN_SAFE_INTEGER <= n <= MAX_SAFE_INTEGER && EndsLiteral(t[end..])
    ensures ParseInteger(t) == Ok((n, t[end..]))
  {
    hide Num, CanonicalDigitsEnd;
    if end < |t| { assert t[end] == t[end..][0]; }
  }

  lemma IntReads(n: int, post: Text)
    requires MIN_SAFE_INTEGER <= n <= MAX_SAFE_INTEGER && EndsLiteral(post)
    ensures IntegerEnd(PrintInt(n) + post).Some?
    ensures ParseInteger(PrintInt(n) + post) == Ok((n, post))
    ensures PrintInt(n)[0] == DASH || IsDigit(PrintInt(n)[0])
  {
    var pre := if n < 0 then [DASH] else [];
    var digits := Digits(if n < 0 then -n else n);
    var t := PrintInt(n) + post;
    assert t == pre + digits + post;
    assert t[|pre|] == digits[0] && IsDigit(digits[0]);
    assert Begins(t, DASH) <==> n < 0;
    var end := |pre| + |digits|;
    assert t[|pre|..end] == digits && t[end..] == post;
    assert CanonicalDigitsEnd(t, |pre|) == Some(end) by { CanonicalDigitsRead(pre, if n < 0 then -n else n, post); }
    hide CanonicalDigitsEnd, Digits, Num, ParseInteger;
    IntegerParts(t, end, n);
  }

  /** How a literal begins. */
  lemma LiteralStart(l: Literal)
    requires WellFormedLiteral(l)
    ensures var t := PrintLiteral(l);
            && t != [] && !IsSpace(t[0]) && t[0] != LPAREN && t[0] != RBRACKET
            && (l.LStr? <==> t[0] == QUOTE) && (l.LList? <==> t[0] == LBRACKET)
            && (l.LBool? <==> IsWordStart(t[0]))
            && (l.LInt? ==> t[0] == DASH || IsDigit(t[0]))
  {
  }

  lemma ScalarReads(l: Literal, post: Text, n: nat)
    requires WellFormedLiteral(l) && EndsLiteral(post) && !l.LList?
    ensures ParseListMember(PrintLiteral(l) + post, n) == Ok((l, post))
  {
    var t := PrintLiteral(l) + post;
    LiteralStart(l);
    assert t[0] == PrintLiteral(l)[0];
    NotASpace(t);
    match l {
      case LBool(b) => ReadWord(if b then TRUE else FALSE, post);
      case LInt(i) => IntReads(i, post);
      case LStr(s) => StringReads(s, post);
    }
  }

  lemma {:induction false} LiteralReads(l: Literal, post: Text, n: nat)
    requires WellFormedLiteral(l) && LiteralFits(l, n) && EndsLiteral(post)
    ensures ParseListMember(PrintLiteral(l) + post, n) == Ok((l, post))
    decreases l, 1
  {
    if l.LList? {
      var t := PrintLiteral(l) + post;
      ListReads(l, post, n);
      NotASpace(t);
    } else {
      ScalarReads(l, post, n);
    }
  }

  lemma {:induction false} ListReads(l: Literal, post: Text, n: nat)
    requires l.LList? && WellFormedLiteral(l) && LiteralFits(l, n)
    ensures Begins(PrintLiteral(l) + post, LBRACKET)
    ensures ParseList(PrintLiteral(l) + post, n) == Ok((l.items, post))
    decreases l, 0
  {
    var t := PrintLiteral(l) + post;
    var u := PrintItems(l, 0) + post;
    assert t == [LBRACKET] + u && t[1..] == u;
    if l.items == [] {
      assert u == [RBRACKET] + post && u[1..] == post;
    } else {
      LiteralStart(l.items[0]);
      assert PrintItems(l, 0) == PrintLiteral(l.items[0]) + PrintItems(l, 1);
      assert u[0] == PrintLiteral(l.items[0])[0];
      NotASpace(u);
      ItemsRead(l, 0, post, n + 1);
      assert l.items[..0] == [];
      assert PrintItems(l, 0)[0..] == PrintItems(l, 0);
    }
  }

  ghost function ItemsSkip(i: nat): nat
  {
    if i == 0 then 0 else 1
  }

  lemma {:induction false} ItemsRead(l: Literal, i: nat, post: Text, n: nat)
    requires l.LList? && WellFormedLiteral(l) && i < |l.items|
    requires forall j :: 0 <= j < |l.items| ==> LiteralFits(l.items[j], n)
    ensures |PrintItems(l, i)| >= ItemsSkip(i)
    ensures ParseListItems(l.items[..i], PrintItems(l, i)[ItemsSkip(i)..] + post, n) == Ok((l.items, post))
    decreases l, 0, |l.items| - i
  {
    var item, after := l.items[i], PrintItems(l, i + 1);
    var t := PrintItems(l, i)[ItemsSkip(i)..] + post;
    assert t == PrintLiteral(item) + (after + post);
    if i + 1 == |l.items| {
      assert after == [RBRACKET];
    } else {
      assert after == [COMMA] + PrintLiteral(l.items[i + 1]) + PrintItems(l, i + 2);
    }
    assert (after + post)[0] == after[0] && (after + post)[1..] == after[1..] + post;
    LiteralReads(item, after + post, n);
    assert l.items[..i] + [item] == l.items[..i + 1];
    NotASpace(after + post);
    if i + 1 == |l.items| {
      assert after[1..] + post == post && l.items[..i + 1] == l.items;
    } else {
      var w := after[1..] + post;
      LiteralStart(l.items[i + 1]);
      assert w[0] == PrintLiteral(l.items[i + 1])[0];
      NotASpace(w);
      ItemsRead(l, i + 1, post, n);
    }
    hide PrintItems, PrintLiteral, ParseListMember, LiteralFits, WellFormedLiteral;
  }

  // --- paths and operands read back ----------------------------------------------------------------

  /** What may follow a path or operand: no word character, dot or bracket that would extend it. */
  predicate EndsOperand(post: Text)
  {
    && EndsLiteral(post) && !Begins(post, RBRACKET)
    && !Begins(SkipSpace(post), DOT) && !Begins(SkipSpace(post), LBRACKET)
  }

  lemma MemberSegmentParts(before: seq<Segment>, t: Text, name: Text, rest: Text)
    requires t == [DOT] + (name + rest) && SkipSpace(name + rest) == name + rest
    requires WordAt(name + rest) == name && name != []
    ensures ParseSegments(before, t) == ParseSegments(before + [Member(name)], rest)
  {
    NotASpace(t);
    assert t[1..] == name + rest;
    assert (name + rest)[|name|..] == rest;
    hide WordAt, SkipSpace;
  }

  lemma IndexSegmentParts(before: seq<Segment>, t: Text, d: Text, rest: Text)
    requires t == [LBRACKET] + (d + ([RBRACKET] + rest)) && AllDigits(d)
    requires SkipSpace(d + ([RBRACKET] + rest)) == d + ([RBRACKET] + rest)
    requires CanonicalDigitsEnd(d + ([RBRACKET] + rest), 0) == Some(|d|)
    ensures ParseSegments(before, t) == ParseSegments(before + [Index(Num(d))], rest)
  {
    var x := [RBRACKET] + rest;
    var w := d + x;
    NotASpace(t);
    NotASpace(x);
    assert t[1..] == w && w[|d|..] == x && w[..|d|] == d && x[1..] == rest;
    hide CanonicalDigitsEnd, SkipSpace, Num, WordAt;
  }

  lemma IndexReads(before: seq<Segment>, n: nat, rest: Text)
    requires WellFormedSegment(Index(n))
    ensures ParseSegments(before, PrintSegment(Index(n)) + rest) == ParseSegments(before + [Index(n)], rest)
  {
    hide ParseSegments, SkipSpace;
    var d := Digits(n);
    var x := [RBRACKET] + rest;
    var t := PrintSegment(Index(n)) + rest;
    assert t == [LBRACKET] + (d + x);
    assert (d + x)[0] == d[0] && IsDigit(d[0]);
    NotASpace(d + x);
    assert CanonicalDigitsEnd(d + x, 0) == Some(|d|) by {
      assert [] + d + x == d + x;
      CanonicalDigitsRead([], n, x);
    }
    hide CanonicalDigitsEnd, Digits;
    IndexSegmentParts(before, t, d, rest);
  }

  lemma SegmentReads(before: seq<Segment>, s: Segment, rest: Text)
    requires WellFormedSegment(s) && EndsWord(rest)
    ensures ParseSegments(before, PrintSegment(s) + rest) == ParseSegments(before + [s], rest)
  {
    hide ParseSegments;
    match s {
      case Member(name) =>
        var t := PrintSegment(s) + rest;
        assert t == [DOT] + (name + rest);
        ReadWord(name, rest);
        MemberSegmentParts(before, t, name, rest);
      case Index(n) => IndexReads(before, n, rest);
    }
  }

  lemma SegmentsEndWord(segments: seq<Segment>, post: Text)
    requires EndsWord(post)
    ensures EndsWord(PrintSegments(segments) + post)
  {
    if segments == [] { assert PrintSegments(segments) + post == post; }
  }

  lemma NoSegments(before: seq<Segment>, post: Text)
    requires EndsOperand(post)
    ensures ParseSegments(before, post) == Ok((before, SkipSpace(post)))
  {
  }

  lemma {:induction false} SegmentsRead(before: seq<Segment>, segments: seq<Segment>, post: Text)
    requires forall i :: 0 <= i < |segments| ==> WellFormedSegment(segments[i])
    requires EndsOperand(post) && EndsWord(post)
    ensures ParseSegments(before, PrintSegments(segments) + post) == Ok((before + segments, SkipSpace(post)))
    decreases segments
  {
    hide ParseSegments, EndsOperand, EndsWord, WellFormedSegment, PrintSegment;
    var t := PrintSegments(segments) + post;
    if segments == [] {
      assert t == post && before + segments == before;
      NoSegments(before, post);
    } else {
      var rest := PrintSegments(segments[1..]) + post;
      assert t == PrintSegment(segments[0]) + rest;
      SegmentsEndWord(segments[1..], post);
      SegmentReads(before, segments[0], rest);
      SegmentsRead(before + [segments[0]], segments[1..], post);
      assert before + [segments[0]] + segments[1..] == before + segments;
    }
  }

  lemma PathParts(t: Text, root: Text, name: Text, others: Text, segments: seq<Segment>, rest: Text)
    requires WordAt(t) == root && root != [] && t[|root|..] == [DOT] + (name + others)
    requires SkipSpace(name + others) == name + others && WordAt(name + others) == name && name != []
    requires ParseSegments([Member(name)], others) == Ok((segments, rest))
    ensures ParsePath(t) == Ok((Path(root, segments), rest))
  {
    NotASpace([DOT] + (name + others));
    assert ([DOT] + (name + others))[1..] == name + others;
    assert (name + others)[|name|..] == others;
    hide WordAt, SkipSpace, ParseSegments;
  }

  lemma PathText(p: Path, post: Text)
    requires WellFormedPath(p)
    ensures PrintPath(p) + post
         == p.root + ([DOT] + (p.segments[0].name + (PrintSegments(p.segments[1..]) + post)))
    ensures IsIdentifier(p.root) && IsIdentifier(p.segments[0].name)
    ensures [Member(p.segments[0].name)] + p.segments[1..] == p.segments
  {
    assert WellFormedSegment(p.segments[0]);
    assert IsIdentifier(p.root) by { RootIsIdentifier(p.root); }
    hide IsIdentifier, IsRoot;
    var name, more := p.segments[0].name, PrintSegments(p.segments[1..]);
    assert PrintPath(p) == p.root + (([DOT] + name) + more);
    Regroup(p.root, name, more, post);
  }

  lemma RootIsIdentifier(w: Text)
    requires IsRoot(w)
    ensures IsIdentifier(w)
  {
    WordsAreIdentifiers();
  }

  lemma Regroup(root: Text, name: Text, more: Text, post: Text)
    ensures (root + (([DOT] + name) + more)) + post == root + ([DOT] + (name + (more + post)))
  {
  }

  lemma PathReads(p: Path, post: Text)
    requires WellFormedPath(p) && EndsOperand(post)
    ensures WordAt(PrintPath(p) + post) == p.root
    ensures SkipSpace(PrintPath(p) + post) == PrintPath(p) + post
    ensures ParsePath(PrintPath(p) + post) == Ok((p, SkipSpace(post)))
  {
    PathText(p, post);
    var t := PrintPath(p) + post;
    var name, more := p.segments[0].name, p.segments[1..];
    var others := PrintSegments(more) + post;
    hide ParsePath, WordAt, SkipSpace, ParseSegments, PrintPath, PrintSegments, IsIdentifier, IsRoot;
    SegmentsEndWord(more, post);
    SegmentsRead([Member(name)], more, post);
    ReadWord(p.root, [DOT] + (name + others));
    ReadWord(name, others);
    assert p.root != [] && name != [] by { IdentifierHasWord(p.root); IdentifierHasWord(name); }
    PathParts(t, p.root, name, others, p.segments, SkipSpace(post));
  }

  lemma IdentifierHasWord(w: Text)
    requires IsIdentifier(w)
    ensures w != []
  {
  }

  /** A tree read with only white space between the cursor and what follows. */
  ghost predicate Reads<T>(r: Parsed<T>, tree: T, post: Text)
  {
    r.Ok? && r.value.0 == tree && SkipSpace(r.value.1) == SkipSpace(post)
  }

  /** How an operand begins: no parenthesis, and no word but a root or a boolean. */
  lemma OperandStart(o: Operand, post: Text)
    requires WellFormedOperand(o) && EndsOperand(post)
    ensures var t := PrintOperand(o) + post;
            && t != [] && !IsSpace(t[0]) && t[0] != LPAREN
            && (WordAt(t) == [] || IsRoot(WordAt(t)) || WordAt(t) == TRUE || WordAt(t) == FALSE)
  {
    var t := PrintOperand(o) + post;
    match o {
      case PathOperand(p) =>
        PathReads(p, post);
        WordsAreIdentifiers();
        assert t[0] == p.root[0];
      case LiteralOperand(l) =>
        LiteralStart(l);
        assert t[0] == PrintLiteral(l)[0];
        if l.LBool? {
          WordsAreIdentifiers();
          ReadWord(PrintLiteral(l), post);
        }
    }
  }

  lemma OperandReads(o: Operand, post: Text, n: nat)
    requires WellFormedOperand(o) && OperandFits(o, n) && EndsOperand(post)
    ensures Reads(ParseOperand(PrintOperand(o) + post, n), o, post)
  {
    var t := PrintOperand(o) + post;
    OperandStart(o, post);
    NotASpace(t);
    SkipSpaceSettles(post);
    match o {
      case PathOperand(p) => PathReads(p, post);
      case LiteralOperand(l) =>
        LiteralStart(l);
        match l {
          case LBool(b) =>
            WordsAreIdentifiers();
            ReadWord(PrintLiteral(l), post);
          case LInt(i) =>
            IntReads(i, post);
            assert WordAt(t) == [];
          case LStr(s) => StringReads(s, post);
          case LList(items) => ListReads(l, post, n);
        }
    }
  }
}
