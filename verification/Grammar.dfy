/** The grammar of spec/expression-language.md as phrases and their tokens, with parentheses wherever the grammar
    lets them stand; and that the parser accepts exactly the texts of those phrases, each as its own tree. */
module Grammar {
  import opened Wrappers
  import opened Text
  import opened Syntax
  import opened Tokens
  import opened TokenParser
  import Printer

  // --- leaves and their tokens -----------------------------------------------------------------

  ghost predicate LiteralTokens(l: Literal, ts: seq<Token>)
    decreases l, 1, 0
  {
    match l
    case LBool(b) => ts == [Word(if b then TRUE else FALSE)]
    case LInt(v) =>
      && |ts| == 1 && ts[0].Number? && !ts[0].tight && -9007199254740991 <= v <= 9007199254740991
      && v == (if ts[0].negative then -1 else 1) * ts[0].n
    case LStr(s) => ts == [Str(s)]
    case LList(_) => ts != [] && ts[0] == Mark('[' as int) && ItemTokens(l, 0, ts[1..])
  }

  /** The items from `i` on with commas before all but the first, and the closing bracket. */
  ghost predicate ItemTokens(l: Literal, i: nat, ts: seq<Token>)
    requires l.LList? && i <= |l.items|
    decreases l, 0, |l.items| - i
  {
    if i == |l.items| then ts == [Mark(']' as int)]
    else exists a: seq<Token>, b: seq<Token> ::
      LiteralTokens(l.items[i], a) && ItemTokens(l, i + 1, b) && ts == Comma(i) + a + b
  }

  function Comma(i: nat): seq<Token>
  {
    if i == 0 then [] else [Mark(',' as int)]
  }

  ghost predicate SegmentTokens(segments: seq<Segment>, ts: seq<Token>)
  {
    if segments == [] then ts == []
    else
      match segments[0]
      case Member(name) =>
        |ts| >= 2 && ts[0] == Mark('.' as int) && ts[1] == Word(name) && SegmentTokens(segments[1..], ts[2..])
      case Index(n) =>
        && |ts| >= 3 && ts[0] == Mark('[' as int) && ts[1].Number? && !ts[1].negative && ts[1].n == n
        && ts[2] == Mark(']' as int) && SegmentTokens(segments[1..], ts[3..])
  }

  /** A root, a member, and members and indexes. */
  ghost predicate PathTokens(p: Path, ts: seq<Token>)
  {
    && ts != [] && ts[0] == Word(p.root) && (p.root == CANDIDATE || p.root == EVIDENCE || p.root == IDENTITY)
    && p.segments != [] && p.segments[0].Member? && SegmentTokens(p.segments, ts[1..])
  }

  ghost predicate OperandTokens(o: Operand, ts: seq<Token>)
  {
    match o
    case PathOperand(p) => PathTokens(p, ts)
    case LiteralOperand(l) => LiteralTokens(l, ts)
  }

  predicate Reserved(w: Text)
  {
    w in {AND, OR, NOT, IN, TRUE, FALSE, FRESH, PRESENT, MATCHES}
  }

  ghost predicate LeafTokens(e: Expr, ts: seq<Token>)
  {
    match e
    case Compare(op, left, right) =>
      && ComparisonTyped(op, left, right)
      && exists a: seq<Token>, b: seq<Token> :: ts == a + [Op(op)] + b && OperandTokens(left, a) && OperandTokens(right, b)
    case Membership(negated, item, list) =>
      exists a: seq<Token>, b: seq<Token> ::
        && ts == a + (if negated then [Word(NOT), Word(IN)] else [Word(IN)]) + b
        && OperandTokens(item, a) && LiteralTokens(LList(list), b)
    case Fresh(id) => ts == [Word(FRESH), Mark('(' as int), Word(id), Mark(')' as int)] && !Reserved(id)
    case Present(id) => ts == [Word(PRESENT), Mark('(' as int), Word(id), Mark(')' as int)] && !Reserved(id)
    case Matches(path, pattern) =>
      exists p: seq<Token> ::
        ts == [Word(MATCHES), Mark('(' as int)] + p + [Mark(',' as int), Str(pattern), Mark(')' as int)]
            && PathTokens(path, p)
    case _ => false
  }

  // --- phrases ---------------------------------------------------------------------------------

  /** A comparison, membership or call; a phrase in parentheses; one after `not`; several with `and` or `or`
      between them. */
  datatype Phrase =
    | Leaf(e: Expr, tokens: seq<Token>)
    | Group(inner: Phrase)
    | Negation(part: Phrase)
    | All(parts: seq<Phrase>)
    | Any(parts: seq<Phrase>)

  /** Only a leaf or a group stands after `not`, nothing looser than `not` beside `and`, no `or` beside `or`. */
  ghost predicate Right(ph: Phrase)
  {
    match ph
    case Leaf(e, tokens) => LeafTokens(e, tokens)
    case Group(inner) => Right(inner)
    case Negation(part) => (part.Leaf? || part.Group?) && Right(part)
    case All(parts) => |parts| >= 2 && forall i :: 0 <= i < |parts| ==> !parts[i].All? && !parts[i].Any? && Right(parts[i])
    case Any(parts) => |parts| >= 2 && forall i :: 0 <= i < |parts| ==> !parts[i].Any? && Right(parts[i])
  }

  function Spell(ph: Phrase): seq<Token>
    decreases ph
  {
    match ph
    case Leaf(_, tokens) => tokens
    case Group(inner) => [Mark('(' as int)] + Spell(inner) + [Mark(')' as int)]
    case Negation(part) => [Word(NOT)] + Spell(part)
    case All(parts) => if parts == [] then [] else Spell(parts[0]) + Chain(AND, parts[1..])
    case Any(parts) => if parts == [] then [] else Spell(parts[0]) + Chain(OR, parts[1..])
  }

  /** Each part after the word. */
  function Chain(word: Text, parts: seq<Phrase>): seq<Token>
    decreases parts
  {
    if parts == [] then [] else [Word(word)] + Spell(parts[0]) + Chain(word, parts[1..])
  }

  /** Parentheses leave no trace. */
  function Tree(ph: Phrase): Expr
    decreases ph
  {
    match ph
    case Leaf(e, _) => e
    case Group(inner) => Tree(inner)
    case Negation(part) => Not(Tree(part))
    case All(parts) => And(Trees(parts))
    case Any(parts) => Or(Trees(parts))
  }

  function Trees(parts: seq<Phrase>): seq<Expr>
    decreases parts
  {
    if parts == [] then [] else [Tree(parts[0])] + Trees(parts[1..])
  }

  /** Inside `n` open parentheses the phrase opens no parenthesis and no list beyond the sixty-fourth. */
  ghost predicate Nests(ph: Phrase, n: nat)
  {
    match ph
    case Leaf(e, _) => Printer.FitsBare(e, n)
    case Group(inner) => n < 64 && Nests(inner, n + 1)
    case Negation(part) => Nests(part, n)
    case All(parts) => forall i :: 0 <= i < |parts| ==> Nests(parts[i], n)
    case Any(parts) => forall i :: 0 <= i < |parts| ==> Nests(parts[i], n)
  }

  // --- tokens at the front -----------------------------------------------------------------------

  predicate Starts(ls: seq<Lexeme>, ts: seq<Token>)
  {
    |ts| <= |ls| && forall i :: 0 <= i < |ts| ==> ls[i].token == ts[i]
  }

  lemma StartsWithBoth(ls: seq<Lexeme>, a: seq<Token>, b: seq<Token>)
    ensures Starts(ls, a + b) <==> Starts(ls, a) && Starts(ls[|a|..], b)
    ensures Starts(ls, a + b) ==> ls[|a|..][|b|..] == ls[|a + b|..]
  {
    if Starts(ls, a + b) {
      forall i | 0 <= i < |a| ensures ls[i].token == a[i] { assert (a + b)[i] == a[i]; }
      forall i | 0 <= i < |b| ensures ls[|a|..][i].token == b[i] { assert (a + b)[|a| + i] == b[i]; }
    }
    if Starts(ls, a) && Starts(ls[|a|..], b) {
      forall i | 0 <= i < |a + b| ensures ls[i].token == (a + b)[i] {
        if i >= |a| { assert ls[|a|..][i - |a|].token == b[i - |a|]; }
      }
    }
  }

  lemma StartsAt(ls: seq<Lexeme>, ts: seq<Token>, i: nat)
    requires Starts(ls, ts) && i < |ts|
    ensures i < |ls| && ls[i].token == ts[i]
  {
  }

  lemma StartsWithOne(ls: seq<Lexeme>, token: Token, b: seq<Token>)
    ensures Starts(ls, [token] + b) <==> Next(ls, token) && Starts(ls[1..], b)
    ensures Starts(ls, [token] + b) ==> ls[1..][|b|..] == ls[|[token] + b|..]
  {
    StartsWithBoth(ls, [token], b);
  }

  // --- literals ----------------------------------------------------------------------------------

  /** How a literal can begin. */
  predicate LiteralStart(token: Token)
  {
    token in {Word(TRUE), Word(FALSE), Mark(LBRACKET)} || token.Number? || token.Str?
  }

  lemma {:induction false} LiteralRead(l: Literal, ts: seq<Token>, ls: seq<Lexeme>, n: nat)
    requires LiteralTokens(l, ts) && Printer.LiteralFits(l, n) && Starts(ls, ts)
    ensures ts != [] && LiteralStart(ts[0]) && TakeLiteral(ls, n) == Ok((l, ls[|ts|..]))
    decreases l, 1, 0
  {
    assert ls[0].token == ts[0];
    if l.LList? {
      ListRead(l, ts, ls, n);
      hide TakeList, ItemTokens;
    }
  }

  lemma {:induction false} ListRead(l: Literal, ts: seq<Token>, ls: seq<Lexeme>, n: nat)
    requires l.LList? && LiteralTokens(l, ts) && Printer.LiteralFits(l, n) && Starts(ls, ts)
    ensures Next(ls, Mark(LBRACKET)) && TakeList(ls, n) == Ok((l.items, ls[|ts|..]))
    decreases l, 0, |l.items| + 1
  {
    assert ts == [Mark(LBRACKET)] + ts[1..];
    StartsWithOne(ls, Mark(LBRACKET), ts[1..]);
    var after := ls[1..];
    hide TakeItems, TakeLiteral;
    if l.items == [] {
      assert after[0].token == ts[1..][0];
      assert ls[2..] == after[1..];
    } else {
      var a, b := FirstItem(l, 0, ts[1..]);
      assert ts[1..] == a + b;
      ItemsRead(l, 0, a, b, after, n + 1);
      assert l.items[..0] == [];
      assert after[0].token == a[0] by { assert ts[1..][0] == (a + b)[0] == a[0]; }
    }
  }

  lemma FirstItem(l: Literal, i: nat, ts: seq<Token>) returns (a: seq<Token>, b: seq<Token>)
    requires l.LList? && i < |l.items| && ItemTokens(l, i, ts)
    ensures LiteralTokens(l.items[i], a) && ItemTokens(l, i + 1, b) && ts == Comma(i) + a + b
  {
    hide LiteralTokens, Comma;
    a, b :| LiteralTokens(l.items[i], a) && ItemTokens(l, i + 1, b) && ts == Comma(i) + a + b;
  }

  lemma {:induction false} ItemsRead(l: Literal, i: nat, a: seq<Token>, b: seq<Token>, ls: seq<Lexeme>, n: nat)
    requires l.LList? && i < |l.items| && LiteralTokens(l.items[i], a) && ItemTokens(l, i + 1, b) && Starts(ls, a + b)
    requires forall k :: 0 <= k < |l.items| ==> Printer.LiteralFits(l.items[k], n)
    ensures a != [] && LiteralStart(a[0]) && TakeItems(l.items[..i], ls, n) == Ok((l.items, ls[|a + b|..]))
    decreases l, 0, |l.items| - i
  {
    hide TakeLiteral, LiteralTokens, Printer.LiteralFits;
    StartsWithBoth(ls, a, b);
    LiteralRead(l.items[i], a, ls, n);
    var after := ls[|a|..];
    assert l.items[..i] + [l.items[i]] == l.items[..i + 1];
    if i + 1 == |l.items| {
      assert after[0].token == b[0];
      assert l.items[..i + 1] == l.items;
    } else {
      var c, d := FirstItem(l, i + 1, b);
      assert b == [Mark(COMMA)] + (c + d);
      StartsWithOne(after, Mark(COMMA), c + d);
      ItemsRead(l, i + 1, c, d, after[1..], n);
      assert after[1..][0].token == (c + d)[0] == c[0];
    }
  }

  lemma {:induction false} LiteralFound(ls: seq<Lexeme>, n: nat) returns (ts: seq<Token>)
    requires TakeLiteral(ls, n).Ok?
    ensures var (l, rest) := TakeLiteral(ls, n).value;
            LiteralTokens(l, ts) && Printer.LiteralFits(l, n) && Starts(ls, ts) && rest == ls[|ts|..]
    decreases |ls|, 1
  {
    if ls[0].token.Mark? {
      ts := ListFound(ls, n);
      hide TakeList, ItemTokens;
    } else {
      ts := [ls[0].token];
    }
  }

  lemma {:induction false} ListFound(ls: seq<Lexeme>, n: nat) returns (ts: seq<Token>)
    requires Next(ls, Mark(LBRACKET)) && TakeList(ls, n).Ok?
    ensures var (items, rest) := TakeList(ls, n).value;
            LiteralTokens(LList(items), ts) && Printer.LiteralFits(LList(items), n) && Starts(ls, ts) && rest == ls[|ts|..]
    decreases |ls|, 0
  {
    hide TakeItems, TakeLiteral;
    var items := TakeList(ls, n).value.0;
    if Next(ls[1..], Mark(RBRACKET)) {
      ts := [Mark(LBRACKET), Mark(RBRACKET)];
      assert ts[1..] == [Mark(RBRACKET)];
      assert ls[1..][0] == ls[1];
    } else {
      var a, b := ItemsFound([], ls[1..], n + 1);
      assert a + b == Comma(0) + a + b;
      ts := [Mark(LBRACKET)] + (a + b);
      assert ts[1..] == a + b;
      StartsWithOne(ls, Mark(LBRACKET), a + b);
      hide LiteralTokens, Printer.LiteralFits, Comma;
      ListTokens(items, a, b);
      FitsList(items, n);
    }
  }

  lemma ListTokens(items: seq<Literal>, a: seq<Token>, b: seq<Token>)
    requires items != [] && LiteralTokens(items[0], a) && ItemTokens(LList(items), 1, b)
    ensures LiteralTokens(LList(items), [Mark(LBRACKET)] + (a + b))
  {
    var ts := [Mark(LBRACKET)] + (a + b);
    assert ts[1..] == Comma(0) + a + b;
    assert ItemTokens(LList(items), 0, ts[1..]);
  }

  lemma FitsList(items: seq<Literal>, n: nat)
    requires n < 64 && forall k :: 0 <= k < |items| ==> Printer.LiteralFits(items[k], n + 1)
    ensures Printer.LiteralFits(LList(items), n)
  {
  }

  lemma {:induction false} ItemsFound(items: seq<Literal>, ls: seq<Lexeme>, n: nat) returns (a: seq<Token>, b: seq<Token>)
    requires TakeItems(items, ls, n).Ok? && forall k :: 0 <= k < |items| ==> Printer.LiteralFits(items[k], n)
    ensures var (all, rest) := TakeItems(items, ls, n).value;
            && |items| < |all| && all[..|items|] == items
            && LiteralTokens(all[|items|], a) && ItemTokens(LList(all), |items| + 1, b)
            && (forall k :: 0 <= k < |all| ==> Printer.LiteralFits(all[k], n))
            && Starts(ls, a + b) && rest == ls[|a + b|..]
    decreases |ls|, 2
  {
    hide TakeLiteral, LiteralTokens, ItemTokens, Printer.LiteralFits, Starts, Comma;
    a := LiteralFound(ls, n);
    var (item, after) := TakeLiteral(ls, n).value;
    var all := TakeItems(items, ls, n).value.0;
    if Next(after, Mark(COMMA)) {
      var c, d := ItemsFound(items + [item], after[1..], n);
      ItemsMore(LList(all), |items| + 1, c, d);
      b := [Mark(COMMA)] + (c + d);
      assert b == Comma(|items| + 1) + c + d by { CommaIs(|items| + 1); }
      StartsWithOne(after, Mark(COMMA), c + d);
      StartsWithBoth(ls, a, b);
      assert all[|items|] == all[..|items| + 1][|items|] == item;
      assert all[..|items|] == all[..|items| + 1][..|items|] == items;
    } else {
      b := [Mark(RBRACKET)];
      ItemsEnd(all, after, b);
      StartsWithBoth(ls, a, b);
    }
  }

  lemma CommaIs(i: nat)
    ensures Comma(i) == if i == 0 then [] else [Mark(COMMA)]
  {
  }

  lemma ItemsMore(l: Literal, i: nat, a: seq<Token>, b: seq<Token>)
    requires l.LList? && i < |l.items| && LiteralTokens(l.items[i], a) && ItemTokens(l, i + 1, b)
    ensures ItemTokens(l, i, Comma(i) + a + b)
  {
    hide LiteralTokens, Comma;
  }

  lemma ItemsEnd(items: seq<Literal>, after: seq<Lexeme>, b: seq<Token>)
    requires Next(after, Mark(RBRACKET)) && b == [Mark(RBRACKET)]
    ensures ItemTokens(LList(items), |items|, b) && Starts(after, b)
  {
    hide LiteralTokens;
  }

  // --- paths and operands ------------------------------------------------------------------------

  /** What does not lengthen a path. */
  predicate EndsPath(rest: seq<Lexeme>)
  {
    !Next(rest, Mark(DOT)) && !Next(rest, Mark(LBRACKET))
  }

  lemma {:induction false} SegmentsRead(segments: seq<Segment>, ts: seq<Token>, before: seq<Segment>, ls: seq<Lexeme>)
    requires SegmentTokens(segments, ts) && Starts(ls, ts) && EndsPath(ls[|ts|..])
    ensures TakeSegments(before, ls) == Ok((before + segments, ls[|ts|..]))
    decreases segments
  {
    if segments == [] {
      assert before + segments == before;
    } else {
      var k := if segments[0].Member? then 2 else 3;
      assert ls[0].token == ts[0] && ls[1].token == ts[1];
      if k == 3 { assert ls[2].token == ts[2]; }
      assert ls[k..][|ts[k..]|..] == ls[|ts|..];
      forall i | 0 <= i < |ts[k..]| ensures ls[k..][i].token == ts[k..][i] { assert ls[k + i].token == ts[k + i]; }
      SegmentsRead(segments[1..], ts[k..], before + [segments[0]], ls[k..]);
      assert before + [segments[0]] + segments[1..] == before + segments;
    }
  }

  lemma {:induction false} SegmentsFound(before: seq<Segment>, ls: seq<Lexeme>) returns (more: seq<Segment>, ts: seq<Token>)
    requires TakeSegments(before, ls).Ok?
    ensures SegmentTokens(more, ts) && Starts(ls, ts) && TakeSegments(before, ls) == Ok((before + more, ls[|ts|..]))
    decreases |ls|
  {
    if Next(ls, Mark(DOT)) {
      var first := Member(ls[1].token.w);
      var rest, more_ := SegmentsFound(before + [first], ls[2..]);
      more, ts := [first] + rest, [Mark(DOT), ls[1].token] + more_;
      SegmentsMore(first, rest, [Mark(DOT), ls[1].token], more_, ls);
      assert before + [first] + rest == before + more;
    } else if Next(ls, Mark(LBRACKET)) {
      var first := Index(ls[1].token.n);
      assert ls[2..][0].token == Mark(RBRACKET);
      var rest, more_ := SegmentsFound(before + [first], ls[3..]);
      more, ts := [first] + rest, [Mark(LBRACKET), ls[1].token, Mark(RBRACKET)] + more_;
      SegmentsMore(first, rest, [Mark(LBRACKET), ls[1].token, Mark(RBRACKET)], more_, ls);
      assert before + [first] + rest == before + more;
    } else {
      more, ts := [], [];
      assert before + more == before;
    }
  }

  lemma SegmentsMore(first: Segment, rest: seq<Segment>, a: seq<Token>, b: seq<Token>, ls: seq<Lexeme>)
    requires SegmentTokens([first], a) && SegmentTokens(rest, b) && Starts(ls, a) && Starts(ls[|a|..], b)
    ensures SegmentTokens([first] + rest, a + b) && Starts(ls, a + b) && ls[|a|..][|b|..] == ls[|a + b|..]
  {
    StartsWithBoth(ls, a, b);
    assert ([first] + rest)[1..] == rest && [first][1..] == [];
    assert |a| == (if first.Member? then 2 else 3) && (a + b)[|a|..] == b;
  }

  lemma PathRead(p: Path, ts: seq<Token>, ls: seq<Lexeme>)
    requires PathTokens(p, ts) && Starts(ls, ts) && EndsPath(ls[|ts|..])
    ensures NextWord(ls) && ls[0].token == Word(p.root) && TakePath(ls) == Ok((p, ls[|ts|..]))
  {
    assert ls[0].token == ts[0];
    var after := ts[1..];
    assert ls[1].token == ts[1] == after[0] && ls[2].token == ts[2] == after[1];
    assert p.segments[0].name == ts[2].w;
    forall i | 0 <= i < |after[2..]| ensures ls[3..][i].token == after[2..][i] { assert ls[3 + i].token == ts[3 + i]; }
    assert ls[3..][|after[2..]|..] == ls[|ts|..];
    SegmentsRead(p.segments[1..], after[2..], [p.segments[0]], ls[3..]);
    assert [p.segments[0]] + p.segments[1..] == p.segments;
  }

  lemma PathFound(ls: seq<Lexeme>) returns (ts: seq<Token>)
    requires NextWord(ls) && IsRoot(ls[0].token.w) && TakePath(ls).Ok?
    ensures var (p, rest) := TakePath(ls).value; PathTokens(p, ts) && Starts(ls, ts) && rest == ls[|ts|..]
  {
    var first := Member(ls[2].token.w);
    var more, b := SegmentsFound([first], ls[3..]);
    assert ls[1..][0] == ls[1] && ls[2..][0] == ls[2];
    var a := [Mark(DOT), ls[2].token];
    assert ls[1..][2..] == ls[3..];
    SegmentsMore(first, more, a, b, ls[1..]);
    ts := [ls[0].token] + (a + b);
    assert ts[1..] == a + b;
    StartsWithOne(ls, ls[0].token, a + b);
    hide SegmentTokens;
  }

  lemma OperandRead(o: Operand, ts: seq<Token>, ls: seq<Lexeme>, n: nat)
    requires OperandTokens(o, ts) && Printer.OperandFits(o, n) && Starts(ls, ts) && EndsPath(ls[|ts|..])
    ensures ts != [] && Next(ls, ts[0]) && TakeOperand(ls, n) == Ok((o, ls[|ts|..]))
    ensures ts[0] != Mark(LPAREN) && (ts[0].Word? ==> IsRoot(ts[0].w) || ts[0].w == TRUE || ts[0].w == FALSE)
  {
    if o.PathOperand? {
      PathRead(o.path, ts, ls);
      assert ls[0].token == ts[0];
    } else {
      LiteralRead(o.literal, ts, ls, n);
      assert ls[0].token == ts[0];
    }
    hide TakeLiteral, TakePath, SegmentTokens, LiteralTokens;
  }

  lemma OperandFound(ls: seq<Lexeme>, n: nat) returns (ts: seq<Token>)
    requires TakeOperand(ls, n).Ok?
    ensures var (o, rest) := TakeOperand(ls, n).value;
            OperandTokens(o, ts) && Printer.OperandFits(o, n) && Starts(ls, ts) && rest == ls[|ts|..]
  {
    if NextWord(ls) && IsRoot(ls[0].token.w) { ts := PathFound(ls); } else { ts := LiteralFound(ls, n); }
    hide TakeLiteral, TakePath, PathTokens, LiteralTokens;
  }

  // --- leaves ------------------------------------------------------------------------------------

  /** What may follow a comparison, membership or call. */
  predicate EndsLeaf(rest: seq<Lexeme>)
  {
    rest == [] || rest[0].token in {Word(AND), Word(OR), Mark(RPAREN)}
  }

  lemma CompareRead(e: Expr, ts: seq<Token>, ls: seq<Lexeme>, n: nat)
    requires e.Compare? && LeafTokens(e, ts) && Printer.FitsBare(e, n) && Starts(ls, ts) && EndsLeaf(ls[|ts|..])
    ensures TakeComparison(ls, n) == Ok((e, ls[|ts|..])) && ts != [] && Next(ls, ts[0]) && ts[0] != Word(NOT)
            && ts[0] != Mark(LPAREN)
  {
    hide TakeOperand, OperandTokens, ComparisonTyped, Printer.OperandFits;
    var a: seq<Token>, b: seq<Token> :| ts == a + [Op(e.op)] + b && OperandTokens(e.left, a) && OperandTokens(e.right, b);
    assert ts == a + ([Op(e.op)] + b);
    StartsWithBoth(ls, a, [Op(e.op)] + b);
    var v := ls[|a|..];
    StartsWithOne(v, Op(e.op), b);
    OperandRead(e.left, a, ls, n);
    assert v[1..][|b|..] == ls[|ts|..];
    OperandRead(e.right, b, v[1..], n);
    assert ts[0] == a[0];
  }

  lemma MembershipRead(e: Expr, ts: seq<Token>, ls: seq<Lexeme>, n: nat)
    requires e.Membership? && LeafTokens(e, ts) && Printer.FitsBare(e, n) && Starts(ls, ts)
    ensures TakeComparison(ls, n) == Ok((e, ls[|ts|..])) && ts != [] && Next(ls, ts[0]) && ts[0] != Word(NOT)
            && ts[0] != Mark(LPAREN)
  {
    var word := if e.negated then [Word(NOT), Word(IN)] else [Word(IN)];
    var a, b := MembershipParts(e, ts);
    hide TakeOperand, OperandTokens, LiteralTokens, Printer.OperandFits, Printer.LiteralFits, TakeList, Starts,
         LeafTokens, TakeComparison;
    StartsWithBoth(ls, a, word + b);
    var v := ls[|a|..];
    StartsWithBoth(v, word, b);
    StartsAt(v, word, 0);
    if e.negated {
      StartsAt(v, word, 1);
      assert v[1..][0] == v[1];
    }
    OperandRead(e.item, a, ls, n);
    ListRead(LList(e.list), b, v[|word|..], n);
    assert ts[0] == a[0];
    MembershipTaken(e, ls, v, n);
  }

  lemma MembershipTaken(e: Expr, ls: seq<Lexeme>, v: seq<Lexeme>, n: nat)
    requires e.Membership? && !(NextWord(ls) && IsFunctionName(ls[0].token.w)) && TakeOperand(ls, n) == Ok((e.item, v))
    requires if e.negated then Next(v, Word(NOT)) && Next(v[1..], Word(IN)) else Next(v, Word(IN))
    requires var w := v[if e.negated then 2 else 1..]; Next(w, Mark(LBRACKET)) && TakeList(w, n).Ok? && TakeList(w, n).value.0 == e.list
    ensures TakeComparison(ls, n) == Ok((e, TakeList(v[if e.negated then 2 else 1..], n).value.1))
  {
    hide TakeOperand, TakeList, TakeFunction;
    if e.negated { assert v[1..][1..] == v[2..]; }
  }

  lemma MembershipParts(e: Expr, ts: seq<Token>) returns (a: seq<Token>, b: seq<Token>)
    requires e.Membership? && LeafTokens(e, ts)
    ensures ts == a + ((if e.negated then [Word(NOT), Word(IN)] else [Word(IN)]) + b) && OperandTokens(e.item, a)
            && LiteralTokens(LList(e.list), b)
  {
    hide OperandTokens, LiteralTokens;
    var word := if e.negated then [Word(NOT), Word(IN)] else [Word(IN)];
    a, b :| ts == a + word + b && OperandTokens(e.item, a) && LiteralTokens(LList(e.list), b);
    assert a + word + b == a + (word + b);
  }

  lemma CallRead(e: Expr, ts: seq<Token>, ls: seq<Lexeme>, n: nat)
    requires (e.Fresh? || e.Present?) && LeafTokens(e, ts) && Starts(ls, ts)
    ensures TakeComparison(ls, n) == Ok((e, ls[|ts|..])) && ts != [] && Next(ls, ts[0]) && ts[0] != Word(NOT)
            && ts[0] != Mark(LPAREN)
  {
    assert ls[0].token == ts[0] && ls[1].token == ts[1] && ls[2].token == ts[2] && ls[3].token == ts[3];
    var call := ls[2..];
    assert ls[1..][0] == ls[1] && call[0] == ls[2] && call[1..][0] == ls[3] && call[1..][1..] == ls[4..];
    hide TakeOperand;
  }

  lemma GlobRead(e: Expr, ts: seq<Token>, ls: seq<Lexeme>, n: nat)
    requires e.Matches? && LeafTokens(e, ts) && Starts(ls, ts)
    ensures TakeComparison(ls, n) == Ok((e, ls[|ts|..])) && ts != [] && Next(ls, ts[0]) && ts[0] != Word(NOT)
            && ts[0] != Mark(LPAREN)
  {
    var call, close := [Word(MATCHES), Mark(LPAREN)], [Mark(COMMA), Str(e.pattern), Mark(RPAREN)];
    var p := GlobParts(e, ts);
    hide TakeOperand, PathTokens, TakePath, Starts, LeafTokens;
    StartsWithBoth(ls, call, p + close);
    StartsAt(ls, call, 0);
    StartsAt(ls, call, 1);
    assert ls[1..][0] == ls[1];
    var w := ls[2..];
    StartsWithBoth(w, p, close);
    var x := w[|p|..];
    StartsAt(x, close, 0);
    StartsAt(x, close, 1);
    StartsAt(x, close, 2);
    assert x[2..][0] == x[2] && x[2..][1..] == x[3..];
    PathRead(e.path, p, w);
    RootIs(e.path, p);
    GlobTaken(e, ls, w, x);
  }

  lemma GlobTaken(e: Expr, ls: seq<Lexeme>, w: seq<Lexeme>, x: seq<Lexeme>)
    requires e.Matches? && |ls| >= 2 && ls[0].token == Word(MATCHES) && Next(ls[1..], Mark(LPAREN)) && w == ls[2..]
    requires NextWord(w) && IsRoot(w[0].token.w) && TakePath(w) == Ok((e.path, x))
    requires |x| >= 3 && x[0].token == Mark(COMMA) && x[1].token == Str(e.pattern) && Next(x[2..], Mark(RPAREN))
    ensures TakeFunction(ls) == Ok((e, x[2..][1..]))
  {
    hide TakePath;
  }

  lemma GlobParts(e: Expr, ts: seq<Token>) returns (p: seq<Token>)
    requires e.Matches? && LeafTokens(e, ts)
    ensures ts == [Word(MATCHES), Mark(LPAREN)] + (p + [Mark(COMMA), Str(e.pattern), Mark(RPAREN)]) && PathTokens(e.path, p)
  {
    hide PathTokens;
    var call, close := [Word(MATCHES), Mark(LPAREN)], [Mark(COMMA), Str(e.pattern), Mark(RPAREN)];
    p :| ts == call + p + close && PathTokens(e.path, p);
    assert call + p + close == call + (p + close);
  }

  lemma RootIs(p: Path, ts: seq<Token>)
    requires PathTokens(p, ts)
    ensures IsRoot(p.root)
  {
  }

  lemma LeafRead(e: Expr, ts: seq<Token>, ls: seq<Lexeme>, n: nat)
    requires LeafTokens(e, ts) && Printer.FitsBare(e, n) && Starts(ls, ts) && EndsLeaf(ls[|ts|..])
    ensures TakeComparison(ls, n) == Ok((e, ls[|ts|..])) && ts != [] && Next(ls, ts[0]) && ts[0] != Word(NOT)
            && ts[0] != Mark(LPAREN)
  {
    if e.Compare? { CompareRead(e, ts, ls, n); }
    else if e.Membership? { MembershipRead(e, ts, ls, n); }
    else if e.Matches? { GlobRead(e, ts, ls, n); }
    else if e.Fresh? || e.Present? { CallRead(e, ts, ls, n); }
    hide TakeComparison;
  }

  lemma MembershipFound(ls: seq<Lexeme>, item: Operand, a: seq<Token>, v: seq<Lexeme>, negated: bool,
                        n: nat) returns (ts: seq<Token>)
    requires OperandTokens(item, a) && Printer.OperandFits(item, n) && Starts(ls, a) && v == ls[|a|..]
    requires if negated then Next(v, Word(NOT)) && Next(v[1..], Word(IN)) else Next(v, Word(IN))
    requires TakeMembership(v[if negated then 2 else 1..], item, negated, n).Ok?
    ensures var (e, rest) := TakeMembership(v[if negated then 2 else 1..], item, negated, n).value;
            LeafTokens(e, ts) && Printer.FitsBare(e, n) && Starts(ls, ts) && rest == ls[|ts|..]
  {
    hide TakeList, OperandTokens, LiteralTokens, Printer.OperandFits, Printer.LiteralFits;
    var word := if negated then [Word(NOT), Word(IN)] else [Word(IN)];
    var b := ListFound(v[|word|..], n);
    if negated { assert v[1..][0] == v[1]; }
    assert Starts(v, word);
    StartsWithBoth(v, word, b);
    StartsWithBoth(ls, a, word + b);
    ts := a + word + b;
    assert ts == a + (word + b);
  }

  lemma CompareFound(ls: seq<Lexeme>, left: Operand, a: seq<Token>, v: seq<Lexeme>, n: nat) returns (ts: seq<Token>)
    requires OperandTokens(left, a) && Printer.OperandFits(left, n) && Starts(ls, a) && v == ls[|a|..]
    requires v != [] && v[0].token.Op? && TakeOperand(v[1..], n).Ok?
    requires ComparisonTyped(v[0].token.op, left, TakeOperand(v[1..], n).value.0)
    ensures var e, rest := Compare(v[0].token.op, left, TakeOperand(v[1..], n).value.0), TakeOperand(v[1..], n).value.1;
            LeafTokens(e, ts) && Printer.FitsBare(e, n) && Starts(ls, ts) && rest == ls[|ts|..]
  {
    hide TakeOperand, OperandTokens, Printer.OperandFits, ComparisonTyped;
    var b := OperandFound(v[1..], n);
    StartsWithOne(v, v[0].token, b);
    StartsWithBoth(ls, a, [v[0].token] + b);
    ts := a + [v[0].token] + b;
    assert ts == a + ([v[0].token] + b);
  }

  lemma GlobFound(ls: seq<Lexeme>, w: seq<Lexeme>) returns (ts: seq<Token>)
    requires Starts(ls, [Word(MATCHES), Mark(LPAREN)]) && w == ls[2..] && TakeGlob(w).Ok?
    ensures var (e, rest) := TakeGlob(w).value; LeafTokens(e, ts) && e.Matches? && Starts(ls, ts) && rest == ls[|ts|..]
  {
    hide PathTokens, Starts;
    var p := PathFound(w);
    var (path, x) := TakePath(w).value;
    var close := [Mark(COMMA), x[1].token, Mark(RPAREN)];
    hide TakePath;
    CloseFound(x, close);
    StartsWithBoth(w, p, close);
    var call := [Word(MATCHES), Mark(LPAREN)];
    StartsWithBoth(ls, call, p + close);
    ts := call + p + close;
    assert ts == call + (p + close);
    var e := TakeGlob(w).value.0;
    assert e == Matches(path, x[1].token.s);
    GlobIs(e, p);
  }

  lemma CloseFound(x: seq<Lexeme>, close: seq<Token>)
    requires |x| >= 2 && Next(x, Mark(COMMA)) && Next(x[2..], Mark(RPAREN))
             && close == [Mark(COMMA), x[1].token, Mark(RPAREN)]
    ensures Starts(x, close) && x[|close|..] == x[2..][1..]
  {
    assert x[2..][0] == x[2];
  }

  lemma GlobIs(e: Expr, p: seq<Token>)
    requires e.Matches? && PathTokens(e.path, p)
    ensures LeafTokens(e, [Word(MATCHES), Mark(LPAREN)] + p + [Mark(COMMA), Str(e.pattern), Mark(RPAREN)])
  {
    hide PathTokens;
  }

  lemma EvidenceFound(ls: seq<Lexeme>, w: seq<Lexeme>, asksFresh: bool) returns (ts: seq<Token>)
    requires Starts(ls, [Word(if asksFresh then FRESH else PRESENT), Mark(LPAREN)]) && w == ls[2..]
             && TakeEvidence(asksFresh, w).Ok?
    ensures var (e, rest) := TakeEvidence(asksFresh, w).value;
            LeafTokens(e, ts) && (e.Fresh? || e.Present?) && Starts(ls, ts) && rest == ls[|ts|..]
  {
    var call := [Word(if asksFresh then FRESH else PRESENT), Mark(LPAREN)];
    assert w[1..][1..] == w[2..];
    assert w[1..][0] == w[1];
    var more := [w[0].token, Mark(RPAREN)];
    StartsWithBoth(ls, call, more);
    ts := call + more;
  }

  lemma CallFound(ls: seq<Lexeme>, n: nat) returns (ts: seq<Token>)
    requires NextWord(ls) && IsFunctionName(ls[0].token.w) && TakeFunction(ls).Ok?
    ensures var (e, rest) := TakeFunction(ls).value;
            LeafTokens(e, ts) && Printer.FitsBare(e, n) && Starts(ls, ts) && rest == ls[|ts|..]
  {
    hide TakeGlob, TakeEvidence, LeafTokens;
    assert ls[1..][0] == ls[1];
    if ls[0].token.w == MATCHES {
      ts := GlobFound(ls, ls[2..]);
    } else {
      ts := EvidenceFound(ls, ls[2..], ls[0].token.w == FRESH);
    }
  }

  lemma LeafFound(ls: seq<Lexeme>, n: nat) returns (ts: seq<Token>)
    requires TakeComparison(ls, n).Ok?
    ensures var (e, rest) := TakeComparison(ls, n).value;
            LeafTokens(e, ts) && Printer.FitsBare(e, n) && Starts(ls, ts) && rest == ls[|ts|..]
  {
    hide TakeOperand, TakeFunction, TakeMembership, OperandTokens, Printer.OperandFits, ComparisonTyped, LeafTokens,
         Printer.FitsBare;
    if NextWord(ls) && IsFunctionName(ls[0].token.w) {
      ts := CallFound(ls, n);
    } else {
      var a := OperandFound(ls, n);
      var (left, v) := TakeOperand(ls, n).value;
      if Next(v, Word(NOT)) {
        assert v[1..][1..] == v[2..];
        ts := MembershipFound(ls, left, a, v, true, n);
      } else if Next(v, Word(IN)) {
        ts := MembershipFound(ls, left, a, v, false, n);
      } else {
        ts := CompareFound(ls, left, a, v, n);
      }
    }
  }

  // --- every phrase is accepted as its tree --------------------------------------------------------

  /** What may follow the operands of `and`, and what may follow those of `or`. */
  predicate EndsAll(rest: seq<Lexeme>)
  {
    rest == [] || rest[0].token in {Word(OR), Mark(RPAREN)}
  }

  predicate EndsAny(rest: seq<Lexeme>)
  {
    rest == [] || rest[0].token == Mark(RPAREN)
  }

  lemma {:induction false} PrimaryRead(ph: Phrase, ls: seq<Lexeme>, n: nat)
    requires (ph.Leaf? || ph.Group?) && Right(ph) && Nests(ph, n) && Starts(ls, Spell(ph)) && EndsLeaf(ls[|Spell(ph)|..])
    ensures TakePrimary(ls, n) == Ok((Tree(ph), ls[|Spell(ph)|..])) && !Next(ls, Word(NOT))
    decreases ph, 0
  {
    hide TakeComparison, TakeOr, LeafTokens, Printer.FitsBare;
    var ts := Spell(ph);
    if ph.Leaf? {
      LeafRead(ph.e, ts, ls, n);
    } else {
      var inner := Spell(ph.inner);
      assert ts == [Mark(LPAREN)] + (inner + [Mark(RPAREN)]);
      StartsWithOne(ls, Mark(LPAREN), inner + [Mark(RPAREN)]);
      StartsWithBoth(ls[1..], inner, [Mark(RPAREN)]);
      var close := ls[1..][|inner|..];
      assert close[0].token == [Mark(RPAREN)][0];
      OrRead(ph.inner, ls[1..], n + 1);
    }
  }

  lemma {:induction false} NotRead(ph: Phrase, ls: seq<Lexeme>, n: nat)
    requires !ph.All? && !ph.Any? && Right(ph) && Nests(ph, n) && Starts(ls, Spell(ph)) && EndsLeaf(ls[|Spell(ph)|..])
    ensures TakeNot(ls, n) == Ok((Tree(ph), ls[|Spell(ph)|..]))
    decreases ph, 1
  {
    hide TakePrimary, EndsLeaf;
    if ph.Negation? {
      StartsWithOne(ls, Word(NOT), Spell(ph.part));
      PrimaryRead(ph.part, ls[1..], n);
    } else {
      PrimaryRead(ph, ls, n);
    }
  }

  lemma {:induction false} AndRead(ph: Phrase, ls: seq<Lexeme>, n: nat)
    requires !ph.Any? && Right(ph) && Nests(ph, n) && Starts(ls, Spell(ph)) && EndsAll(ls[|Spell(ph)|..])
    ensures TakeAnd(ls, n) == Ok((Tree(ph), ls[|Spell(ph)|..]))
    decreases ph, 2
  {
    hide TakeNot, Right, Nests;
    if ph.All? {
      PartsOf(ph, n);
      var first, more := ph.parts[0], ph.parts[1..];
      StartsWithBoth(ls, Spell(first), Chain(AND, more));
      var after := ls[|Spell(first)|..];
      ChainEnds(AND, more, after);
      NotRead(first, ls, n);
      AndsRead([Tree(first)], more, after, n);
      assert Trees(ph.parts) == [Tree(first)] + Trees(more);
    } else {
      NotRead(ph, ls, n);
    }
  }

  /** The parts of an `and` or `or` are phrases that may stand there. */
  lemma PartsOf(ph: Phrase, n: nat)
    requires (ph.All? || ph.Any?) && Right(ph) && Nests(ph, n)
    ensures |ph.parts| >= 2
    ensures forall i :: 0 <= i < |ph.parts| ==>
              !ph.parts[i].Any? && (ph.All? ==> !ph.parts[i].All?) && Right(ph.parts[i]) && Nests(ph.parts[i], n)
  {
  }

  /** A chain that is not empty begins with its word. */
  lemma ChainEnds(word: Text, parts: seq<Phrase>, ls: seq<Lexeme>)
    requires Starts(ls, Chain(word, parts))
    ensures if parts == [] then Chain(word, parts) == [] else Next(ls, Word(word))
  {
    if parts != [] {
      assert Chain(word, parts) == [Word(word)] + (Spell(parts[0]) + Chain(word, parts[1..]));
      StartsWithOne(ls, Word(word), Spell(parts[0]) + Chain(word, parts[1..]));
    }
  }

  lemma ChainOpens(word: Text, parts: seq<Phrase>, ls: seq<Lexeme>) returns (after: seq<Lexeme>)
    requires parts != [] && Starts(ls, Chain(word, parts))
    ensures Next(ls, Word(word)) && Starts(ls[1..], Spell(parts[0])) && after == ls[1..][|Spell(parts[0])|..]
    ensures Starts(after, Chain(word, parts[1..])) && after[|Chain(word, parts[1..])|..] == ls[|Chain(word, parts)|..]
  {
    var first, more := Spell(parts[0]), Chain(word, parts[1..]);
    assert Chain(word, parts) == [Word(word)] + (first + more);
    hide Starts, Chain, Spell;
    StartsWithOne(ls, Word(word), first + more);
    StartsWithBoth(ls[1..], first, more);
    after := ls[1..][|first|..];
  }

  lemma NoChain(word: Text)
    ensures Chain(word, []) == [] && Trees([]) == []
  {
  }

  lemma TreesMore(parts: seq<Phrase>)
    requires parts != []
    ensures Trees(parts) == [Tree(parts[0])] + Trees(parts[1..])
  {
    hide Tree;
  }

  lemma {:induction false} AndsRead(operands: seq<Expr>, parts: seq<Phrase>, ls: seq<Lexeme>, n: nat)
    requires operands != [] && |operands| + |parts| >= 2
    requires forall i :: 0 <= i < |parts| ==> !parts[i].All? && !parts[i].Any? && Right(parts[i]) && Nests(parts[i], n)
    requires Starts(ls, Chain(AND, parts)) && EndsAll(ls[|Chain(AND, parts)|..])
    ensures TakeAndRest(operands, ls, n) == Ok((And(operands + Trees(parts)), ls[|Chain(AND, parts)|..]))
    decreases parts, 0
  {
    hide TakeNot, Right, Nests, Starts, Chain, Spell, Tree, Trees;
    if parts == [] {
      NoChain(AND);
      assert operands + [] == operands;
    } else {
      var first, more := parts[0], parts[1..];
      var after := ChainOpens(AND, parts, ls);
      ChainEnds(AND, more, after);
      TreesMore(parts);
      NotRead(first, ls[1..], n);
      AndsRead(operands + [Tree(first)], more, after, n);
      assert operands + [Tree(first)] + Trees(more) == operands + ([Tree(first)] + Trees(more));
    }
  }

  lemma {:induction false} OrsRead(operands: seq<Expr>, parts: seq<Phrase>, ls: seq<Lexeme>, n: nat)
    requires operands != [] && |operands| + |parts| >= 2
    requires forall i :: 0 <= i < |parts| ==> !parts[i].Any? && Right(parts[i]) && Nests(parts[i], n)
    requires Starts(ls, Chain(OR, parts)) && EndsAny(ls[|Chain(OR, parts)|..])
    ensures TakeOrRest(operands, ls, n) == Ok((Or(operands + Trees(parts)), ls[|Chain(OR, parts)|..]))
    decreases parts, 0
  {
    hide TakeAnd, Right, Nests, Starts, Chain, Spell, Tree, Trees;
    if parts == [] {
      NoChain(OR);
      assert operands + [] == operands;
    } else {
      var first, more := parts[0], parts[1..];
      var after := ChainOpens(OR, parts, ls);
      ChainEnds(OR, more, after);
      TreesMore(parts);
      AndRead(first, ls[1..], n);
      OrsRead(operands + [Tree(first)], more, after, n);
      assert operands + [Tree(first)] + Trees(more) == operands + ([Tree(first)] + Trees(more));
    }
  }

  lemma {:induction false} OrRead(ph: Phrase, ls: seq<Lexeme>, n: nat)
    requires Right(ph) && Nests(ph, n) && Starts(ls, Spell(ph)) && EndsAny(ls[|Spell(ph)|..])
    ensures TakeOr(ls, n) == Ok((Tree(ph), ls[|Spell(ph)|..]))
    decreases ph, 3
  {
    hide TakeAnd, Right, Nests;
    if ph.Any? {
      PartsOf(ph, n);
      var first, more := ph.parts[0], ph.parts[1..];
      StartsWithBoth(ls, Spell(first), Chain(OR, more));
      var after := ls[|Spell(first)|..];
      ChainEnds(OR, more, after);
      AndRead(first, ls, n);
      OrsRead([Tree(first)], more, after, n);
      assert Trees(ph.parts) == [Tree(first)] + Trees(more);
    } else {
      AndRead(ph, ls, n);
    }
  }

  // --- and nothing else ----------------------------------------------------------------------------

  /** The phrase is what was taken from the front. */
  ghost predicate Found(ph: Phrase, e: Expr, ls: seq<Lexeme>, rest: seq<Lexeme>, n: nat)
  {
    Right(ph) && Nests(ph, n) && Tree(ph) == e && Starts(ls, Spell(ph)) && rest == ls[|Spell(ph)|..]
  }

  lemma {:induction false} PrimaryFound(ls: seq<Lexeme>, n: nat) returns (ph: Phrase)
    requires TakePrimary(ls, n).Ok?
    ensures Found(ph, TakePrimary(ls, n).value.0, ls, TakePrimary(ls, n).value.1, n) && (ph.Leaf? || ph.Group?)
    decreases |ls|, 1
  {
    hide TakeComparison, TakeOr, LeafTokens, Printer.FitsBare;
    if !Next(ls, Mark(LPAREN)) {
      var ts := LeafFound(ls, n);
      ph := Leaf(TakeComparison(ls, n).value.0, ts);
    } else {
      var inner := OrFound(ls[1..], n + 1);
      ph := Group(inner);
      GroupFound(inner, ls, TakeOr(ls[1..], n + 1).value.1);
    }
  }

  lemma GroupFound(inner: Phrase, ls: seq<Lexeme>, rest: seq<Lexeme>)
    requires Next(ls, Mark(LPAREN)) && Starts(ls[1..], Spell(inner)) && rest == ls[1..][|Spell(inner)|..]
             && Next(rest, Mark(RPAREN))
    ensures Starts(ls, Spell(Group(inner))) && ls[|Spell(Group(inner))|..] == rest[1..]
  {
    var ts := Spell(inner);
    StartsWithBoth(ls[1..], ts, [Mark(RPAREN)]);
    StartsWithOne(ls, Mark(LPAREN), ts + [Mark(RPAREN)]);
    assert Spell(Group(inner)) == [Mark(LPAREN)] + (ts + [Mark(RPAREN)]);
  }

  lemma {:induction false} NotFound(ls: seq<Lexeme>, n: nat) returns (ph: Phrase)
    requires TakeNot(ls, n).Ok?
    ensures Found(ph, TakeNot(ls, n).value.0, ls, TakeNot(ls, n).value.1, n) && !ph.All? && !ph.Any?
    decreases |ls|, 2
  {
    hide TakePrimary, LeafTokens, Printer.FitsBare;
    if Next(ls, Word(NOT)) {
      var part := PrimaryFound(ls[1..], n);
      ph := Negation(part);
      StartsWithOne(ls, Word(NOT), Spell(part));
    } else {
      ph := PrimaryFound(ls, n);
    }
  }

  /** Phrases taken one after another, each after the word. */
  ghost predicate ChainFound(word: Text, parts: seq<Phrase>, es: seq<Expr>, ls: seq<Lexeme>, rest: seq<Lexeme>, n: nat)
  {
    && (forall i :: 0 <= i < |parts| ==> !parts[i].Any? && (word == AND ==> !parts[i].All?) && Right(parts[i]) && Nests(parts[i], n))
    && Trees(parts) == es && Starts(ls, Chain(word, parts)) && rest == ls[|Chain(word, parts)|..]
  }

  lemma NoneFound(word: Text, ls: seq<Lexeme>, n: nat)
    ensures ChainFound(word, [], [], ls, ls, n)
  {
  }

  lemma MoreFound(word: Text, first: Phrase, e: Expr, more: seq<Phrase>, es: seq<Expr>,
                  ls: seq<Lexeme>, after: seq<Lexeme>, rest: seq<Lexeme>, n: nat)
    requires Next(ls, Word(word)) && Found(first, e, ls[1..], after, n) && ChainFound(word, more, es, after, rest, n)
    requires !first.Any? && (word == AND ==> !first.All?)
    ensures ChainFound(word, [first] + more, [e] + es, ls, rest, n)
  {
    hide Right, Nests, Starts;
    var parts := [first] + more;
    assert parts[1..] == more && parts[0] == first;
    var a, b := Spell(first), Chain(word, more);
    StartsWithBoth(ls[1..], a, b);
    StartsWithOne(ls, Word(word), a + b);
    ChainMore(word, first, more);
    PartsMore(word, first, more, n);
  }

  lemma ChainMore(word: Text, first: Phrase, more: seq<Phrase>)
    ensures Chain(word, [first] + more) == [Word(word)] + (Spell(first) + Chain(word, more))
    ensures Trees([first] + more) == [Tree(first)] + Trees(more)
  {
    hide Spell, Tree;
    assert ([first] + more)[1..] == more;
  }

  lemma PartsMore(word: Text, first: Phrase, more: seq<Phrase>, n: nat)
    requires forall i :: 0 <= i < |more| ==> !more[i].Any? && (word == AND ==> !more[i].All?) && Right(more[i]) && Nests(more[i], n)
    requires !first.Any? && (word == AND ==> !first.All?) && Right(first) && Nests(first, n)
    ensures var parts := [first] + more;
            forall i :: 0 <= i < |parts| ==> !parts[i].Any? && (word == AND ==> !parts[i].All?) && Right(parts[i]) && Nests(parts[i], n)
  {
    hide Right, Nests;
  }

  /** The first phrase and those chained to it make one, and one alone stands for itself. */
  lemma JoinFound(isOr: bool, first: Phrase, e: Expr, more: seq<Phrase>, es: seq<Expr>,
                  ls: seq<Lexeme>, after: seq<Lexeme>, rest: seq<Lexeme>, n: nat) returns (ph: Phrase)
    requires Found(first, e, ls, after, n) && ChainFound(if isOr then OR else AND, more, es, after, rest, n)
    requires !first.Any? && (!isOr ==> !first.All?)
    ensures Found(ph, if es == [] then e else if isOr then Or([e] + es) else And([e] + es), ls, rest, n)
            && (!isOr ==> !ph.Any?)
  {
    if more == [] {
      ph := first;
      hide Right, Nests, Tree;
    } else {
      hide Right, Nests, Starts;
      var parts := [first] + more;
      ph := if isOr then Any(parts) else All(parts);
      assert parts[1..] == more && parts[0] == first;
      StartsWithBoth(ls, Spell(first), Chain(if isOr then OR else AND, more));
      RightMore(ph, first, more, n);
      ChainMore(OR, first, more);
      assert es == Trees(more) && es != [];
    }
  }

  lemma RightMore(ph: Phrase, first: Phrase, more: seq<Phrase>, n: nat)
    requires (ph.All? || ph.Any?) && ph.parts == [first] + more && more != []
    requires forall i :: 0 <= i < |more| ==> !more[i].Any? && (ph.All? ==> !more[i].All?) && Right(more[i]) && Nests(more[i], n)
    requires !first.Any? && (ph.All? ==> !first.All?) && Right(first) && Nests(first, n)
    ensures Right(ph) && Nests(ph, n)
  {
    forall i | 0 <= i < |ph.parts|
      ensures !ph.parts[i].Any? && (ph.All? ==> !ph.parts[i].All?) && Right(ph.parts[i]) && Nests(ph.parts[i], n)
    {
      if i > 0 { assert ph.parts[i] == more[i - 1]; }
    }
  }

  lemma {:induction false} AndsFound(operands: seq<Expr>, ls: seq<Lexeme>, n: nat) returns (parts: seq<Phrase>,
                                     es: seq<Expr>)
    requires operands != [] && TakeAndRest(operands, ls, n).Ok?
    ensures var (e, rest) := TakeAndRest(operands, ls, n).value;
            && e == (if |operands + es| == 1 then operands[0] else And(operands + es))
            && ChainFound(AND, parts, es, ls, rest, n)
    decreases |ls|, 3
  {
    hide TakeNot, Found, ChainFound;
    if Next(ls, Word(AND)) {
      var first := NotFound(ls[1..], n);
      var (e, after) := TakeNot(ls[1..], n).value;
      var more, rest := AndsFound(operands + [e], after, n);
      MoreFound(AND, first, e, more, rest, ls, after, TakeAndRest(operands, ls, n).value.1, n);
      parts, es := [first] + more, [e] + rest;
      assert operands + [e] + rest == operands + es;
    } else {
      parts, es := [], [];
      NoneFound(AND, ls, n);
      assert operands + es == operands;
    }
  }

  lemma {:induction false} AndFound(ls: seq<Lexeme>, n: nat) returns (ph: Phrase)
    requires TakeAnd(ls, n).Ok?
    ensures Found(ph, TakeAnd(ls, n).value.0, ls, TakeAnd(ls, n).value.1, n) && !ph.Any?
    decreases |ls|, 3
  {
    hide TakeNot, TakeAndRest, Found, ChainFound;
    var first := NotFound(ls, n);
    var (e, after) := TakeNot(ls, n).value;
    var more, es := AndsFound([e], after, n);
    ph := JoinFound(false, first, e, more, es, ls, after, TakeAnd(ls, n).value.1, n);
  }

  lemma {:induction false} OrsFound(operands: seq<Expr>, ls: seq<Lexeme>, n: nat) returns (parts: seq<Phrase>, es: seq<Expr>)
    requires operands != [] && TakeOrRest(operands, ls, n).Ok?
    ensures var (e, rest) := TakeOrRest(operands, ls, n).value;
            && e == (if |operands + es| == 1 then operands[0] else Or(operands + es))
            && ChainFound(OR, parts, es, ls, rest, n)
    decreases |ls|, 4
  {
    hide TakeAnd, Found, ChainFound;
    if Next(ls, Word(OR)) {
      var first := AndFound(ls[1..], n);
      var (e, after) := TakeAnd(ls[1..], n).value;
      var more, rest := OrsFound(operands + [e], after, n);
      MoreFound(OR, first, e, more, rest, ls, after, TakeOrRest(operands, ls, n).value.1, n);
      parts, es := [first] + more, [e] + rest;
      assert operands + [e] + rest == operands + es;
    } else {
      parts, es := [], [];
      NoneFound(OR, ls, n);
      assert operands + es == operands;
    }
  }

  lemma {:induction false} OrFound(ls: seq<Lexeme>, n: nat) returns (ph: Phrase)
    requires TakeOr(ls, n).Ok?
    ensures Found(ph, TakeOr(ls, n).value.0, ls, TakeOr(ls, n).value.1, n)
    decreases |ls|, 4
  {
    hide TakeAnd, TakeOrRest, Found, ChainFound;
    var first := AndFound(ls, n);
    var (e, after) := TakeAnd(ls, n).value;
    var more, es := OrsFound([e], after, n);
    ph := JoinFound(true, first, e, more, es, ls, after, TakeOr(ls, n).value.1, n);
  }

  // --- the language ----------------------------------------------------------------------------------

  /** The tokens and the phrase are the whole text, and the tree is the phrase's. */
  ghost predicate Says(source: Text, ls: seq<Lexeme>, ph: Phrase, e: Expr)
  {
    && Lexed(source, ls) && Right(ph) && Nests(ph, 0) && Tree(ph) == e
    && |ls| == |Spell(ph)| && forall i :: 0 <= i < |ls| ==> ls[i].token == Spell(ph)[i]
  }

  ghost predicate Pure(ts: seq<Token>)
  {
    forall token :: token in ts ==> !token.Bad? && !token.Junk?
  }

  lemma PureBoth(a: seq<Token>, b: seq<Token>)
    ensures Pure(a + b) <==> Pure(a) && Pure(b)
  {
    if Pure(a + b) {
      forall token | token in a ensures !token.Bad? && !token.Junk? { assert token in a + b; }
      forall token | token in b ensures !token.Bad? && !token.Junk? { assert token in a + b; }
    }
  }

  lemma {:induction false} LiteralPure(l: Literal, ts: seq<Token>)
    requires LiteralTokens(l, ts)
    ensures Pure(ts)
    decreases l, 1, 0
  {
    if l.LList? {
      ItemsPure(l, 0, ts[1..]);
      assert ts == [Mark(LBRACKET)] + ts[1..];
      PureBoth([Mark(LBRACKET)], ts[1..]);
      hide ItemTokens;
    }
  }

  lemma {:induction false} ItemsPure(l: Literal, i: nat, ts: seq<Token>)
    requires l.LList? && i <= |l.items| && ItemTokens(l, i, ts)
    ensures Pure(ts)
    decreases l, 0, |l.items| - i
  {
    if i < |l.items| {
      var a, b := FirstItem(l, i, ts);
      hide LiteralTokens, ItemTokens, Pure;
      LiteralPure(l.items[i], a);
      ItemsPure(l, i + 1, b);
      CommaPure(i);
      PureBoth(Comma(i), a);
      PureBoth(Comma(i) + a, b);
    }
  }

  lemma CommaPure(i: nat)
    ensures Pure(Comma(i))
  {
  }

  lemma {:induction false} SegmentsPure(segments: seq<Segment>, ts: seq<Token>)
    requires SegmentTokens(segments, ts)
    ensures Pure(ts)
  {
    if segments != [] {
      var k := if segments[0].Member? then 2 else 3;
      SegmentsPure(segments[1..], ts[k..]);
      assert ts == ts[..k] + ts[k..];
      assert ts[..k] == if k == 2 then [ts[0], ts[1]] else [ts[0], ts[1], ts[2]];
      PureBoth(ts[..k], ts[k..]);
    }
  }

  lemma OperandPure(o: Operand, ts: seq<Token>)
    requires OperandTokens(o, ts)
    ensures Pure(ts)
  {
    if o.PathOperand? { PathPure(o.path, ts); } else { LiteralPure(o.literal, ts); }
  }

  lemma PathPure(p: Path, ts: seq<Token>)
    requires PathTokens(p, ts)
    ensures Pure(ts)
  {
    SegmentsPure(p.segments, ts[1..]);
    assert ts == [ts[0]] + ts[1..];
    PureBoth([ts[0]], ts[1..]);
  }

  lemma PureThree(a: seq<Token>, b: seq<Token>, c: seq<Token>)
    ensures Pure(a + b + c) <==> Pure(a) && Pure(b) && Pure(c)
  {
    PureBoth(a, b);
    PureBoth(a + b, c);
  }

  lemma LeafPure(e: Expr, ts: seq<Token>)
    requires LeafTokens(e, ts)
    ensures Pure(ts)
  {
    hide OperandTokens, LiteralTokens, PathTokens;
    if e.Compare? {
      var a: seq<Token>, b: seq<Token> :| ts == a + [Op(e.op)] + b && OperandTokens(e.left, a) && OperandTokens(e.right, b);
      OperandPure(e.left, a);
      OperandPure(e.right, b);
      PureThree(a, [Op(e.op)], b);
    } else if e.Membership? {
      var word := if e.negated then [Word(NOT), Word(IN)] else [Word(IN)];
      var a: seq<Token>, b: seq<Token> :| ts == a + word + b && OperandTokens(e.item, a) && LiteralTokens(LList(e.list), b);
      OperandPure(e.item, a);
      LiteralPure(LList(e.list), b);
      PureThree(a, word, b);
    } else if e.Matches? {
      var call, close := [Word(MATCHES), Mark(LPAREN)], [Mark(COMMA), Str(e.pattern), Mark(RPAREN)];
      var p: seq<Token> :| ts == call + p + close && PathTokens(e.path, p);
      PathPure(e.path, p);
      PureThree(call, p, close);
    }
  }

  lemma {:induction false} SpellPure(ph: Phrase)
    requires Right(ph)
    ensures Pure(Spell(ph))
    decreases ph
  {
    hide LeafTokens, Pure;
    match ph {
      case Leaf(e, tokens) => LeafPure(e, tokens);
      case Group(inner) =>
        SpellPure(inner);
        MarksPure();
        PureThree([Mark('(' as int)], Spell(inner), [Mark(')' as int)]);
      case Negation(part) =>
        SpellPure(part);
        WordPure(NOT);
        PureBoth([Word(NOT)], Spell(part));
      case All(parts) =>
        SpellPure(parts[0]);
        ChainPure(AND, parts[1..]);
        PureBoth(Spell(parts[0]), Chain(AND, parts[1..]));
      case Any(parts) =>
        SpellPure(parts[0]);
        ChainPure(OR, parts[1..]);
        PureBoth(Spell(parts[0]), Chain(OR, parts[1..]));
    }
  }

  lemma MarksPure()
    ensures Pure([Mark('(' as int)]) && Pure([Mark(')' as int)]) && Pure([])
  {
  }

  lemma WordPure(w: Text)
    ensures Pure([Word(w)])
  {
  }

  lemma {:induction false} ChainPure(word: Text, parts: seq<Phrase>)
    requires forall i :: 0 <= i < |parts| ==> Right(parts[i])
    ensures Pure(Chain(word, parts))
    decreases parts
  {
    hide Pure, Right;
    MarksPure();
    if parts != [] {
      SpellPure(parts[0]);
      ChainPure(word, parts[1..]);
      WordPure(word);
      PureThree([Word(word)], Spell(parts[0]), Chain(word, parts[1..]));
    }
  }

  lemma PhraseParses(source: Text, ls: seq<Lexeme>, ph: Phrase, e: Expr)
    requires Says(source, ls, ph, e)
    ensures ParseSource(source) == Ok(e)
  {
    LexedExactly(source, ls);
    ParseIsByTokens(source);
    assert ls[|Spell(ph)|..] == [];
    OrRead(ph, ls, 0);
    hide Lexed, Lex, Right, Nests, TakeOr, Tree, Spell;
  }

  lemma ParseIsPhrase(source: Text) returns (ls: seq<Lexeme>, ph: Phrase)
    requires ParseSource(source).Ok?
    ensures Says(source, ls, ph, ParseSource(source).value)
  {
    ParseIsByTokens(source);
    ls := Lex(source);
    hide Lex, Lexed, TakeOr, Right, Nests, Tree, Spell;
    ph := OrFound(ls, 0);
    SpellPure(ph);
    assert |ls| == |Spell(ph)|;
    forall i | 0 <= i < |ls| ensures !ls[i].token.Bad? && !ls[i].token.Junk? { assert Spell(ph)[i] in Spell(ph); }
    LexedExactly(source, ls);
  }

  /** The language: a source is accepted as a tree exactly when it is written, with white space anywhere between its
      tokens, as a phrase of the grammar that stays within sixty-four open brackets and has that tree. */
  lemma LanguageExactly(source: Text, e: Expr)
    ensures ParseSource(source) == Ok(e) <==> exists ls, ph :: Says(source, ls, ph, e)
  {
    hide ParseSource, Says;
    if ParseSource(source) == Ok(e) { var ls, ph := ParseIsPhrase(source); }
    if ls, ph :| Says(source, ls, ph, e) { PhraseParses(source, ls, ph, e); }
  }

  /** The grammar is unambiguous: however a text is made a phrase, the tree is the same. */
  lemma OneTree(source: Text, ls: seq<Lexeme>, ph: Phrase, e: Expr, ls': seq<Lexeme>, ph': Phrase, e': Expr)
    requires Says(source, ls, ph, e) && Says(source, ls', ph', e')
    ensures ls == ls' && e == e'
  {
    PhraseParses(source, ls, ph, e);
    PhraseParses(source, ls', ph', e');
    LexedExactly(source, ls);
    LexedExactly(source, ls');
    hide Lexed, Lex, Right, Nests, ParseSource, Spell, Tree;
  }
}
