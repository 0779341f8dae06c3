/** The expression language of vfy/expr.py: its trees, and what each grammar method reads, as a
    function from the remaining text to a tree and the text after it. */
module Syntax {
  import opened Wrappers
  import opened Text
  import opened Canon
  import opened Decimals

  const MAX_NESTING: nat := 64

  // and, or, not, in, true, false, fresh, present, matches, candidate, evidence, identity
  const AND: Text := [0x61, 0x6E, 0x64]
  const OR: Text := [0x6F, 0x72]
  const NOT: Text := [0x6E, 0x6F, 0x74]
  const IN: Text := [0x69, 0x6E]
  const TRUE: Text := [0x74, 0x72, 0x75, 0x65]
  const FALSE: Text := [0x66, 0x61, 0x6C, 0x73, 0x65]
  const FRESH: Text := [0x66, 0x72, 0x65, 0x73, 0x68]
  const PRESENT: Text := [0x70, 0x72, 0x65, 0x73, 0x65, 0x6E, 0x74]
  const MATCHES: Text := [0x6D, 0x61, 0x74, 0x63, 0x68, 0x65, 0x73]
  const CANDIDATE: Text := [0x63, 0x61, 0x6E, 0x64, 0x69, 0x64, 0x61, 0x74, 0x65]
  const EVIDENCE: Text := [0x65, 0x76, 0x69, 0x64, 0x65, 0x6E, 0x63, 0x65]
  const IDENTITY: Text := [0x69, 0x64, 0x65, 0x6E, 0x74, 0x69, 0x74, 0x79]

  // --- trees ---------------------------------------------------------------------------------------

  datatype Literal = LBool(b: bool) | LInt(n: int) | LStr(s: Text) | LList(items: seq<Literal>)

  datatype Segment = Member(name: Text) | Index(n: nat)

  datatype Path = Path(root: Text, segments: seq<Segment>)

  datatype Operand = PathOperand(path: Path) | LiteralOperand(literal: Literal)

  datatype Operator = Eq | Ne | Le | Ge | Lt | Gt

  datatype Expr =
    | Or(operands: seq<Expr>)
    | And(operands: seq<Expr>)
    | Not(operand: Expr)
    | Compare(op: Operator, left: Operand, right: Operand)
    | Membership(negated: bool, item: Operand, list: seq<Literal>)
    | Fresh(id: Text)
    | Present(id: Text)
    | Matches(path: Path, pattern: Text)

  // --- outcomes ------------------------------------------------------------------------------------

  /** What the parser raises; `left` is how many characters remain at the reported offset. */
  datatype Failure = ParseFailure(left: nat) | TypeFailure(left: nat) | SurrogateEscape

  /** A tree and the text after it. */
  type Parsed<T> = Result<(T, Text), Failure>

  // --- words ---------------------------------------------------------------------------------------

  predicate IsWordStart(c: Code)
  {
    0x41 <= c <= 0x5A || 0x61 <= c <= 0x7A || c == 0x5F
  }

  predicate IsWordPart(c: Code)
  {
    IsWordStart(c) || IsDigit(c)
  }

  function WordRun(t: Text): (n: nat)
    ensures n <= |t|
    ensures forall i :: 0 <= i < n ==> IsWordPart(t[i])
    ensures n < |t| ==> !IsWordPart(t[n])
  {
    if t != [] && IsWordPart(t[0]) then WordRun(t[1..]) + 1 else 0
  }

  /** The identifier or keyword at the start of a text, empty when there is none. */
  function WordAt(t: Text): (w: Text)
    ensures |w| <= |t| && t[..|w|] == w
  {
    if t != [] && IsWordStart(t[0]) then t[..WordRun(t)] else []
  }

  predicate IsIdentifier(w: Text)
  {
    w != [] && IsWordStart(w[0]) && forall i :: 0 <= i < |w| ==> IsWordPart(w[i])
  }

  predicate IsFunctionName(w: Text)
  {
    w == FRESH || w == PRESENT || w == MATCHES
  }

  predicate IsKeyword(w: Text)
  {
    w in [AND, OR, NOT, IN, TRUE, FALSE] || IsFunctionName(w)
  }

  predicate IsRoot(w: Text)
  {
    w == CANDIDATE || w == EVIDENCE || w == IDENTITY
  }

  predicate Begins(t: Text, c: Code)
  {
    t != [] && t[0] == c
  }

  // --- literals ------------------------------------------------------------------------------------

  function StringEscape(marker: Code): Option<Code>
  {
    if marker == QUOTE || marker == BACKSLASH then Some(marker)
    else if marker == 0x62 then Some(0x08)
    else if marker == 0x74 then Some(TAB)
    else if marker == 0x6E then Some(LF)
    else if marker == 0x66 then Some(0x0C)
    else if marker == 0x72 then Some(CR)
    else None
  }

  predicate FourHexDigits(t: Text)
  {
    |t| >= 4 && HexValue(t[0]).Some? && HexValue(t[1]).Some? && HexValue(t[2]).Some? && HexValue(t[3]).Some?
  }

  function HexCode(t: Text): (c: Code)
    requires FourHexDigits(t)
    ensures c < 0x10000
  {
    ((HexValue(t[0]).value * 16 + HexValue(t[1]).value) * 16 + HexValue(t[2]).value) * 16 + HexValue(t[3]).value
  }

  /** The rest of a string literal; `start` counts the characters left at its opening quote. */
  function ParseStringBody(pieces: Text, t: Text, start: nat): (r: Parsed<Text>)
    ensures r.Ok? ==> |r.value.1| < |t|
    decreases |t|
  {
    if t == [] then Err(ParseFailure(start))
    else if t[0] == QUOTE then Ok((pieces, t[1..]))
    else if t[0] == LF then Err(ParseFailure(|t|))
    else if t[0] != BACKSLASH then ParseStringBody(pieces + [t[0]], t[1..], start)
    else
      var e := t[1..];
      if e == [] then Err(ParseFailure(0))
      else if StringEscape(e[0]).Some? then ParseStringBody(pieces + [StringEscape(e[0]).value], e[1..], start)
      else if e[0] != 0x75 then Err(ParseFailure(|e|))
      else if !FourHexDigits(e[1..]) then Err(ParseFailure(|e|))
      else if IsSurrogate(HexCode(e[1..])) then Err(SurrogateEscape)
      else ParseStringBody(pieces + [HexCode(e[1..])], e[5..], start)
  }

  /** A string literal at its opening quote. */
  function ParseString(t: Text): (r: Parsed<Text>)
    requires Begins(t, QUOTE)
    ensures r.Ok? ==> |r.value.1| < |t|
  {
    ParseStringBody([], t[1..], |t|)
  }

  /** End of the text matching `-?(0|[1-9][0-9]*)`. */
  function IntegerEnd(t: Text): (r: Option<nat>)
    ensures r.Some? ==> 0 < r.value <= |t|
  {
    CanonicalDigitsEnd(t, if Begins(t, DASH) then 1 else 0)
  }

  function ParseInteger(t: Text): (r: Parsed<int>)
    requires IntegerEnd(t).Some?
    ensures r.Ok? ==> |r.value.1| < |t|
  {
    var start := if Begins(t, DASH) then 1 else 0;
    var end := IntegerEnd(t).value;
    var magnitude: int := Num(t[start..end]);
    var n := if start == 1 then -magnitude else magnitude;
    if end < |t| && t[end] in {DOT, 0x65, 0x45} then Err(ParseFailure(|t|))
    else if n < MIN_SAFE_INTEGER || n > MAX_SAFE_INTEGER then Err(ParseFailure(|t|))
    else Ok((n, t[end..]))
  }

  /** A list literal at its opening bracket, inside `nesting` open brackets and parentheses. */
  function ParseList(t: Text, nesting: nat): (r: Parsed<seq<Literal>>)
    requires Begins(t, LBRACKET)
    ensures r.Ok? ==> |r.value.1| < |t|
    decreases |t|, 0
  {
    if nesting >= MAX_NESTING then Err(ParseFailure(|t|))
    else
      var u := SkipSpace(t[1..]);
      if Begins(u, RBRACKET) then Ok(([], u[1..])) else ParseListItems([], u, nesting + 1)
  }

  function ParseListItems(members: seq<Literal>, t: Text, nesting: nat): (r: Parsed<seq<Literal>>)
    ensures r.Ok? ==> |r.value.1| < |t|
    decreases |t|, 2
  {
    var m := ParseListMember(t, nesting);
    if m.Err? then Err(m.error)
    else
      var u := SkipSpace(m.value.1);
      if Begins(u, COMMA) then
        var w := SkipSpace(u[1..]);
        if Begins(w, RBRACKET) then Err(ParseFailure(|w|))
        else ParseListItems(members + [m.value.0], w, nesting)
      else if Begins(u, RBRACKET) then Ok((members + [m.value.0], u[1..]))
      else Err(ParseFailure(|u|))
  }

  function ParseListMember(t: Text, nesting: nat): (r: Parsed<Literal>)
    ensures r.Ok? ==> |r.value.1| < |t|
    decreases |t|, 1
  {
    var u := SkipSpace(t);
    if WordAt(u) == TRUE then Ok((LBool(true), u[4..]))
    else if WordAt(u) == FALSE then Ok((LBool(false), u[5..]))
    else if Begins(u, QUOTE) then
      var s := ParseString(u);
      if s.Err? then Err(s.error) else Ok((LStr(s.value.0), s.value.1))
    else if Begins(u, LBRACKET) then
      var l := ParseList(u, nesting);
      if l.Err? then Err(l.error) else Ok((LList(l.value.0), l.value.1))
    else if IntegerEnd(u).Some? then
      var n := ParseInteger(u);
      if n.Err? then Err(n.error) else Ok((LInt(n.value.0), n.value.1))
    else Err(ParseFailure(|u|))
  }

  // --- paths and operands --------------------------------------------------------------------------

  /** Further segments; a text with none left is returned past its white space. */
  function ParseSegments(segments: seq<Segment>, t: Text): (r: Parsed<seq<Segment>>)
    ensures r.Ok? ==> |r.value.1| <= |t|
    decreases |t|
  {
    var u := SkipSpace(t);
    if Begins(u, DOT) then
      var w := SkipSpace(u[1..]);
      if WordAt(w) == [] then Err(ParseFailure(|w|))
      else ParseSegments(segments + [Member(WordAt(w))], w[|WordAt(w)|..])
    else if Begins(u, LBRACKET) then
      var w := SkipSpace(u[1..]);
      var end := CanonicalDigitsEnd(w, 0);
      if end.None? then Err(ParseFailure(|w|))
      else
        var x := SkipSpace(w[end.value..]);
        if !Begins(x, RBRACKET) then Err(ParseFailure(|x|))
        else ParseSegments(segments + [Index(Num(w[..end.value]))], x[1..])
    else Ok((segments, u))
  }

  /** A path at its root word. */
  function ParsePath(t: Text): (r: Parsed<Path>)
    requires WordAt(t) != []
    ensures r.Ok? ==> |r.value.1| < |t|
  {
    var root := WordAt(t);
    var u := SkipSpace(t[|root|..]);
    if !Begins(u, DOT) then Err(ParseFailure(|u|))
    else
      var w := SkipSpace(u[1..]);
      if WordAt(w) == [] then Err(ParseFailure(|w|))
      else
        var s := ParseSegments([Member(WordAt(w))], w[|WordAt(w)|..]);
        if s.Err? then Err(s.error) else Ok((Path(root, s.value.0), s.value.1))
  }

  function ParseOperand(t: Text, nesting: nat): (r: Parsed<Operand>)
    ensures r.Ok? ==> |r.value.1| < |t|
  {
    var u := SkipSpace(t);
    if IsRoot(WordAt(u)) then
      var p := ParsePath(u);
      if p.Err? then Err(p.error) else Ok((PathOperand(p.value.0), p.value.1))
    else if WordAt(u) == TRUE then Ok((LiteralOperand(LBool(true)), u[4..]))
    else if WordAt(u) == FALSE then Ok((LiteralOperand(LBool(false)), u[5..]))
    else if Begins(u, QUOTE) then
      var s := ParseString(u);
      if s.Err? then Err(s.error) else Ok((LiteralOperand(LStr(s.value.0)), s.value.1))
    else if Begins(u, LBRACKET) then
      var l := ParseList(u, nesting);
      if l.Err? then Err(l.error) else Ok((LiteralOperand(LList(l.value.0)), l.value.1))
    else if IntegerEnd(u).Some? then
      var n := ParseInteger(u);
      if n.Err? then Err(n.error) else Ok((LiteralOperand(LInt(n.value.0)), n.value.1))
    else Err(ParseFailure(|u|))
  }

  // --- predicates ----------------------------------------------------------------------------------

  /** The comparison operator a text starts with, two-character operators first, and its length. */
  function OperatorAt(t: Text): (r: Option<(Operator, nat)>)
    ensures r.Some? ==> 0 < r.value.1 <= |t|
  {
    if StartsWith(t, [EQUAL, EQUAL]) then Some((Eq, 2))
    else if StartsWith(t, [BANG, EQUAL]) then Some((Ne, 2))
    else if StartsWith(t, [LESS, EQUAL]) then Some((Le, 2))
    else if StartsWith(t, [GREATER, EQUAL]) then Some((Ge, 2))
    else if StartsWith(t, [LESS]) then Some((Lt, 1))
    else if StartsWith(t, [GREATER]) then Some((Gt, 1))
    else None
  }

  predicate IsOrdering(op: Operator)
  {
    op != Eq && op != Ne
  }

  predicate SameKind(a: Literal, b: Literal)
  {
    (a.LBool? && b.LBool?) || (a.LInt? && b.LInt?) || (a.LStr? && b.LStr?) || (a.LList? && b.LList?)
  }

  predicate IsNumericLiteral(a: Literal)
  {
    a.LInt? || (a.LStr? && MatchDecimal(a.s).Some?)
  }

  /** The static check on a comparison: two literals must have one kind, and be numeric to be ordered. */
  predicate ComparisonTyped(op: Operator, left: Operand, right: Operand)
  {
    left.LiteralOperand? && right.LiteralOperand? ==>
      && SameKind(left.literal, right.literal)
      && (IsOrdering(op) ==> IsNumericLiteral(left.literal) && IsNumericLiteral(right.literal))
  }

  function ParseMembership(t: Text, item: Operand, negated: bool, nesting: nat): (r: Parsed<Expr>)
    ensures r.Ok? ==> |r.value.1| < |t|
  {
    var u := SkipSpace(t);
    if !Begins(u, LBRACKET) then Err(TypeFailure(|u|))
    else
      var l := ParseList(u, nesting);
      if l.Err? then Err(l.error) else Ok((Membership(negated, item, l.value.0), l.value.1))
  }

  /** After the one argument of `fresh` or `present`: nothing but the closing parenthesis. */
  function CloseCall<T>(tree: T, t: Text): (r: Parsed<T>)
    ensures r.Ok? ==> |r.value.1| < |t|
  {
    var u := SkipSpace(t);
    if Begins(u, RPAREN) then Ok((tree, u[1..])) else Err(TypeFailure(|u|))
  }

  /** A function call at its name. */
  function ParseFunction(t: Text): (r: Parsed<Expr>)
    requires IsFunctionName(WordAt(t))
    ensures r.Ok? ==> |r.value.1| < |t|
  {
    var name := WordAt(t);
    var u := SkipSpace(t[|name|..]);
    if !Begins(u, LPAREN) then Err(ParseFailure(|u|))
    else
      var w := SkipSpace(u[1..]);
      var word := WordAt(w);
      if name != MATCHES then
        if word == [] || IsKeyword(word) then Err(TypeFailure(|w|))
        else
          var x := SkipSpace(w[|word|..]);
          if Begins(x, DOT) || Begins(x, LBRACKET) then Err(TypeFailure(|w|))
          else CloseCall(if name == FRESH then Fresh(word) else Present(word), x)
      else if !IsRoot(word) then Err(TypeFailure(|w|))
      else
        var p := ParsePath(w);
        if p.Err? then Err(p.error)
        else
          var x := SkipSpace(p.value.1);
          if !Begins(x, COMMA) then Err(TypeFailure(|x|))
          else
            var y := SkipSpace(x[1..]);
            if !Begins(y, QUOTE) then Err(TypeFailure(|y|))
            else
              var s := ParseString(y);
              if s.Err? then Err(s.error) else CloseCall(Matches(p.value.0, s.value.0), s.value.1)
  }

  function ParseComparison(t: Text, nesting: nat): (r: Parsed<Expr>)
    ensures r.Ok? ==> |r.value.1| < |t|
  {
    var u := SkipSpace(t);
    if IsFunctionName(WordAt(u)) then ParseFunction(u)
    else
      var l := ParseOperand(u, nesting);
      if l.Err? then Err(l.error)
      else
        var left, v := l.value.0, SkipSpace(l.value.1);
        if WordAt(v) == NOT then
          var w := SkipSpace(v[3..]);
          if WordAt(w) != IN then Err(ParseFailure(|w|)) else ParseMembership(w[2..], left, true, nesting)
        else if WordAt(v) == IN then ParseMembership(v[2..], left, false, nesting)
        else if OperatorAt(v).None? then Err(ParseFailure(|u|))
        else
          var (op, length) := OperatorAt(v).value;
          var r := ParseOperand(v[length..], nesting);
          if r.Err? then Err(r.error)
          else
            var w := SkipSpace(r.value.1);
            if OperatorAt(w).Some? then Err(ParseFailure(|w|))
            else if !ComparisonTyped(op, left, r.value.0) then Err(TypeFailure(|v|))
            else Ok((Compare(op, left, r.value.0), w))
  }

  // --- connectives ---------------------------------------------------------------------------------

  /** One operand stands for itself; more make one flat node. */
  function Joined(isOr: bool, operands: seq<Expr>): Expr
    requires operands != []
  {
    if |operands| == 1 then operands[0] else if isOr then Or(operands) else And(operands)
  }

  function ParseOr(t: Text, nesting: nat): (r: Parsed<Expr>)
    ensures r.Ok? ==> |r.value.1| < |t|
    decreases |t|, 4
  {
    var a := ParseAnd(t, nesting);
    if a.Err? then a else ParseOrRest([a.value.0], a.value.1, nesting)
  }

  function ParseOrRest(operands: seq<Expr>, t: Text, nesting: nat): (r: Parsed<Expr>)
    requires operands != []
    ensures r.Ok? ==> |r.value.1| <= |t|
    decreases |t|, 4
  {
    var u := SkipSpace(t);
    if WordAt(u) != OR then Ok((Joined(true, operands), u))
    else
      var a := ParseAnd(u[2..], nesting);
      if a.Err? then a else ParseOrRest(operands + [a.value.0], a.value.1, nesting)
  }

  function ParseAnd(t: Text, nesting: nat): (r: Parsed<Expr>)
    ensures r.Ok? ==> |r.value.1| < |t|
    decreases |t|, 3
  {
    var a := ParseNot(t, nesting);
    if a.Err? then a else ParseAndRest([a.value.0], a.value.1, nesting)
  }

  function ParseAndRest(operands: seq<Expr>, t: Text, nesting: nat): (r: Parsed<Expr>)
    requires operands != []
    ensures r.Ok? ==> |r.value.1| <= |t|
    decreases |t|, 3
  {
    var u := SkipSpace(t);
    if WordAt(u) != AND then Ok((Joined(false, operands), u))
    else
      var a := ParseNot(u[3..], nesting);
      if a.Err? then a else ParseAndRest(operands + [a.value.0], a.value.1, nesting)
  }

  function ParseNot(t: Text, nesting: nat): (r: Parsed<Expr>)
    ensures r.Ok? ==> |r.value.1| < |t|
    decreases |t|, 2
  {
    var u := SkipSpace(t);
    var negated := WordAt(u) == NOT;
    var w := if negated then SkipSpace(u[3..]) else u;
    if negated && WordAt(w) == NOT then Err(ParseFailure(|w|))
    else
      var inner := ParsePrimary(w, nesting);
      if inner.Err? then inner
      else Ok((if negated then Not(inner.value.0) else inner.value.0, inner.value.1))
  }

  /** What may follow `not`: a parenthesised expression, or a comparison. */
  function ParsePrimary(w: Text, nesting: nat): (r: Parsed<Expr>)
    ensures r.Ok? ==> |r.value.1| < |w|
    decreases |w|, 1
  {
    if !Begins(w, LPAREN) then ParseComparison(w, nesting)
    else if nesting >= MAX_NESTING then Err(ParseFailure(|w|))
    else
      var inner := ParseOr(w[1..], nesting + 1);
      if inner.Err? then inner
      else
        var v := SkipSpace(inner.value.1);
        if Begins(v, RPAREN) then Ok((inner.value.0, v[1..])) else Err(ParseFailure(|v|))
  }

  /** The whole source. */
  function ParseSource(source: Text): Result<Expr, Failure>
  {
    if SkipSpace(source) == [] then Err(ParseFailure(0))
    else
      var r := ParseOr(SkipSpace(source), 0);
      if r.Err? then Err(r.error)
      else
        var v := SkipSpace(r.value.1);
        if v == [] then Ok(r.value.0) else Err(ParseFailure(|v|))
  }
}
