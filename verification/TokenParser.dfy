/** Reading expressions token by token, with every refusal where it is found; and that the parser of vfy/expr.py,
    which works on characters, does exactly that to the tokens of its text. */
module TokenParser {
  import opened Wrappers
  import opened Text
  import opened Decimals
  import opened Syntax
  import opened Tokens

  // --- productions over tokens -------------------------------------------------------------------

  /** A tree and the tokens after it. */
  type Taken<T> = Result<(T, seq<Lexeme>), Failure>

  /** How many characters are left at the next token. */
  function Left(ls: seq<Lexeme>): nat
  {
    if ls == [] then 0 else ls[0].left
  }

  predicate Next(ls: seq<Lexeme>, token: Token)
  {
    ls != [] && ls[0].token == token
  }

  predicate NextWord(ls: seq<Lexeme>)
  {
    ls != [] && ls[0].token.Word?
  }

  function TakeLiteral(ls: seq<Lexeme>, n: nat): (r: Taken<Literal>)
    ensures r.Ok? ==> |r.value.1| < |ls|
    decreases |ls|, 1
  {
    if ls == [] then Err(ParseFailure(0))
    else
      match ls[0].token
      case Word(w) =>
        if w == TRUE then Ok((LBool(true), ls[1..]))
        else if w == FALSE then Ok((LBool(false), ls[1..]))
        else Err(ParseFailure(ls[0].left))
      case Number(negative, m, tight) =>
        var k: int := m;
        var v := if negative then -k else k;
        if tight || v < -9007199254740991
            || v > 9007199254740991 then Err(ParseFailure(ls[0].left)) else Ok((LInt(v), ls[1..]))
      case Str(s) => Ok((LStr(s), ls[1..]))
      case Bad(f) => Err(f)
      case Mark(c) =>
        if c != LBRACKET then Err(ParseFailure(ls[0].left))
        else
          var l := TakeList(ls, n);
          if l.Err? then Err(l.error) else Ok((LList(l.value.0), l.value.1))
      case _ => Err(ParseFailure(ls[0].left))
  }

  /** A list at its opening bracket, inside `n` open brackets and parentheses. */
  function TakeList(ls: seq<Lexeme>, n: nat): (r: Taken<seq<Literal>>)
    requires Next(ls, Mark(LBRACKET))
    ensures r.Ok? ==> |r.value.1| < |ls|
    decreases |ls|, 0
  {
    if n >= 64 then Err(ParseFailure(Left(ls)))
    else if Next(ls[1..], Mark(RBRACKET)) then Ok(([], ls[2..]))
    else TakeItems([], ls[1..], n + 1)
  }

  function TakeItems(items: seq<Literal>, ls: seq<Lexeme>, n: nat): (r: Taken<seq<Literal>>)
    ensures r.Ok? ==> |r.value.1| < |ls|
    decreases |ls|, 2
  {
    var m := TakeLiteral(ls, n);
    if m.Err? then Err(m.error)
    else
      var (item, after) := m.value;
      if Next(after, Mark(COMMA)) then
        if Next(after[1..], Mark(RBRACKET)) then Err(ParseFailure(Left(after[1..])))
        else TakeItems(items + [item], after[1..], n)
      else if Next(after, Mark(RBRACKET)) then Ok((items + [item], after[1..]))
      else Err(ParseFailure(Left(after)))
  }

  function TakeSegments(segments: seq<Segment>, ls: seq<Lexeme>): (r: Taken<seq<Segment>>)
    ensures r.Ok? ==> |r.value.1| <= |ls|
    decreases |ls|
  {
    if Next(ls, Mark(DOT)) then
      if !NextWord(ls[1..]) then Err(ParseFailure(Left(ls[1..])))
      else TakeSegments(segments + [Member(ls[1].token.w)], ls[2..])
    else if Next(ls, Mark(LBRACKET)) then
      if |ls| < 2 || !ls[1].token.Number? || ls[1].token.negative then Err(ParseFailure(Left(ls[1..])))
      else if !Next(ls[2..], Mark(RBRACKET)) then Err(ParseFailure(Left(ls[2..])))
      else TakeSegments(segments + [Index(ls[1].token.n)], ls[3..])
    else Ok((segments, ls))
  }

  /** A path at its root. */
  function TakePath(ls: seq<Lexeme>): (r: Taken<Path>)
    requires NextWord(ls)
    ensures r.Ok? ==> |r.value.1| < |ls|
  {
    if !Next(ls[1..], Mark(DOT)) then Err(ParseFailure(Left(ls[1..])))
    else if !NextWord(ls[2..]) then Err(ParseFailure(Left(ls[2..])))
    else
      var s := TakeSegments([Member(ls[2].token.w)], ls[3..]);
      if s.Err? then Err(s.error) else Ok((Path(ls[0].token.w, s.value.0), s.value.1))
  }

  function TakeOperand(ls: seq<Lexeme>, n: nat): (r: Taken<Operand>)
    ensures r.Ok? ==> |r.value.1| < |ls|
  {
    if NextWord(ls) && IsRoot(ls[0].token.w) then
      var p := TakePath(ls);
      if p.Err? then Err(p.error) else Ok((PathOperand(p.value.0), p.value.1))
    else
      var l := TakeLiteral(ls, n);
      if l.Err? then Err(l.error) else Ok((LiteralOperand(l.value.0), l.value.1))
  }

  function TakeMembership(ls: seq<Lexeme>, item: Operand, negated: bool, n: nat): (r: Taken<Expr>)
    ensures r.Ok? ==> |r.value.1| < |ls|
  {
    if !Next(ls, Mark(LBRACKET)) then Err(TypeFailure(Left(ls)))
    else
      var l := TakeList(ls, n);
      if l.Err? then Err(l.error) else Ok((Membership(negated, item, l.value.0), l.value.1))
  }

  function TakeClose(e: Expr, ls: seq<Lexeme>): (r: Taken<Expr>)
    ensures r.Ok? ==> |r.value.1| < |ls|
  {
    if Next(ls, Mark(RPAREN)) then Ok((e, ls[1..])) else Err(TypeFailure(Left(ls)))
  }

  /** After the opening parenthesis of `fresh` or `present`: one name that is no keyword, and no path. */
  function TakeEvidence(asksFresh: bool, ls: seq<Lexeme>): (r: Taken<Expr>)
    ensures r.Ok? ==> |r.value.1| < |ls|
  {
    if !NextWord(ls) || IsKeyword(ls[0].token.w) then Err(TypeFailure(Left(ls)))
    else if Next(ls[1..], Mark(DOT)) || Next(ls[1..], Mark(LBRACKET)) then Err(TypeFailure(Left(ls)))
    else TakeClose(if asksFresh then Fresh(ls[0].token.w) else Present(ls[0].token.w), ls[1..])
  }

  /** After the opening parenthesis of `matches`: a path, a comma, a string. */
  function TakeGlob(ls: seq<Lexeme>): (r: Taken<Expr>)
    ensures r.Ok? ==> |r.value.1| < |ls|
  {
    if !NextWord(ls) || !IsRoot(ls[0].token.w) then Err(TypeFailure(Left(ls)))
    else
      var p := TakePath(ls);
      if p.Err? then Err(p.error)
      else
        var (path, after) := p.value;
        if !Next(after, Mark(COMMA)) then Err(TypeFailure(Left(after)))
        else if |after| >= 2 && after[1].token.Bad? then Err(after[1].token.f)
        else if |after| < 2 || !after[1].token.Str? then Err(TypeFailure(Left(after[1..])))
        else TakeClose(Matches(path, after[1].token.s), after[2..])
  }

  function TakeFunction(ls: seq<Lexeme>): (r: Taken<Expr>)
    requires NextWord(ls)
    ensures r.Ok? ==> |r.value.1| < |ls|
  {
    if !Next(ls[1..], Mark(LPAREN)) then Err(ParseFailure(Left(ls[1..])))
    else if ls[0].token.w == MATCHES then TakeGlob(ls[2..])
    else TakeEvidence(ls[0].token.w == FRESH, ls[2..])
  }

  function TakeComparison(ls: seq<Lexeme>, n: nat): (r: Taken<Expr>)
    ensures r.Ok? ==> |r.value.1| < |ls|
  {
    if NextWord(ls) && IsFunctionName(ls[0].token.w) then TakeFunction(ls)
    else
      var l := TakeOperand(ls, n);
      if l.Err? then Err(l.error)
      else
        var (left, v) := l.value;
        if Next(v, Word(NOT)) then
          if !Next(v[1..], Word(IN)) then Err(ParseFailure(Left(v[1..]))) else TakeMembership(v[2..], left, true, n)
        else if Next(v, Word(IN)) then TakeMembership(v[1..], left, false, n)
        else if v == [] || !v[0].token.Op? then Err(ParseFailure(Left(ls)))
        else
          var r := TakeOperand(v[1..], n);
          if r.Err? then Err(r.error)
          else
            var (right, w) := r.value;
            if w != [] && w[0].token.Op? then Err(ParseFailure(Left(w)))
            else if !ComparisonTyped(v[0].token.op, left, right) then Err(TypeFailure(Left(v)))
            else Ok((Compare(v[0].token.op, left, right), w))
  }

  function TakeOr(ls: seq<Lexeme>, n: nat): (r: Taken<Expr>)
    ensures r.Ok? ==> |r.value.1| < |ls|
    decreases |ls|, 4
  {
    var a := TakeAnd(ls, n);
    if a.Err? then a else TakeOrRest([a.value.0], a.value.1, n)
  }

  function TakeOrRest(operands: seq<Expr>, ls: seq<Lexeme>, n: nat): (r: Taken<Expr>)
    requires operands != []
    ensures r.Ok? ==> |r.value.1| <= |ls|
    decreases |ls|, 4
  {
    if !Next(ls, Word(OR)) then Ok((if |operands| == 1 then operands[0] else Or(operands), ls))
    else
      var a := TakeAnd(ls[1..], n);
      if a.Err? then a else TakeOrRest(operands + [a.value.0], a.value.1, n)
  }

  function TakeAnd(ls: seq<Lexeme>, n: nat): (r: Taken<Expr>)
    ensures r.Ok? ==> |r.value.1| < |ls|
    decreases |ls|, 3
  {
    var a := TakeNot(ls, n);
    if a.Err? then a else TakeAndRest([a.value.0], a.value.1, n)
  }

  function TakeAndRest(operands: seq<Expr>, ls: seq<Lexeme>, n: nat): (r: Taken<Expr>)
    requires operands != []
    ensures r.Ok? ==> |r.value.1| <= |ls|
    decreases |ls|, 3
  {
    if !Next(ls, Word(AND)) then Ok((if |operands| == 1 then operands[0] else And(operands), ls))
    else
      var a := TakeNot(ls[1..], n);
      if a.Err? then a else TakeAndRest(operands + [a.value.0], a.value.1, n)
  }

  function TakeNot(ls: seq<Lexeme>, n: nat): (r: Taken<Expr>)
    ensures r.Ok? ==> |r.value.1| < |ls|
    decreases |ls|, 2
  {
    if !Next(ls, Word(NOT)) then TakePrimary(ls, n)
    else if Next(ls[1..], Word(NOT)) then Err(ParseFailure(Left(ls[1..])))
    else
      var inner := TakePrimary(ls[1..], n);
      if inner.Err? then inner else Ok((Not(inner.value.0), inner.value.1))
  }

  function TakePrimary(ls: seq<Lexeme>, n: nat): (r: Taken<Expr>)
    ensures r.Ok? ==> |r.value.1| < |ls|
    decreases |ls|, 1
  {
    if !Next(ls, Mark(LPAREN)) then TakeComparison(ls, n)
    else if n >= 64 then Err(ParseFailure(Left(ls)))
    else
      var inner := TakeOr(ls[1..], n + 1);
      if inner.Err? then inner
      else if Next(inner.value.1, Mark(RPAREN)) then Ok((inner.value.0, inner.value.1[1..]))
      else Err(ParseFailure(Left(inner.value.1)))
  }

  /** All the tokens are one expression. */
  function TakeAll(ls: seq<Lexeme>): Result<Expr, Failure>
  {
    if ls == [] then Err(ParseFailure(0))
    else
      var r := TakeOr(ls, 0);
      if r.Err? then Err(r.error) else if r.value.1 == [] then Ok(r.value.0) else Err(ParseFailure(Left(r.value.1)))
  }

  // --- texts and their tokens ----------------------------------------------------------------------

  /** What was read from a text, with the tokens of what is left. */
  function Tokened<T>(r: Parsed<T>): Taken<T>
  {
    if r.Err? then Err(r.error) else Ok((r.value.0, Lex(r.value.1)))
  }

  lemma Skipped(t: Text)
    ensures Lex(SkipSpace(t)) == Lex(t) && Left(Lex(t)) == |SkipSpace(t)| && (Lex(t) == [] <==> SkipSpace(t) == [])
    ensures SkipSpace(SkipSpace(t)) == SkipSpace(t)
  {
    SkipSpaceSettles(t);
    hide TokenAt, SkipSpace;
  }

  lemma FirstIs(u: Text)
    requires u != [] && SkipSpace(u) == u
    ensures Lex(u) != [] && Lex(u)[0] == Lexeme(TokenAt(u).0, |u|)
    ensures !TokenAt(u).0.Bad? && !TokenAt(u).0.Junk? ==> Lex(u)[1..] == Lex(TokenAt(u).1)
  {
    hide TokenAt, SkipSpace;
  }

  lemma WordIs(u: Text)
    requires SkipSpace(u) == u
    ensures WordAt(u) != [] <==> NextWord(Lex(u))
    ensures WordAt(u) != [] ==> Lex(u)[0].token.w == WordAt(u) && Lex(u)[1..] == Lex(u[|WordAt(u)|..])
  {
    if u != [] { FirstIs(u); }
    hide Lex, SkipSpace, WordAt, ParseString, IntegerEnd, OperatorAt;
  }

  lemma MarkIs(u: Text, c: Code)
    requires SkipSpace(u) == u && c in {LPAREN, RPAREN, LBRACKET, RBRACKET, COMMA, DOT}
    ensures Begins(u, c) <==> Next(Lex(u), Mark(c))
    ensures Begins(u, c) ==> Lex(u)[1..] == Lex(u[1..])
  {
    if u != [] {
      FirstIs(u);
      if Begins(u, c) {
        NoWord(u);
        FirstTwo(u);
      }
    }
    hide Lex, SkipSpace, WordAt, ParseString, StartsWith;
  }

  lemma IsNumber(u: Text)
    requires SkipSpace(u) == u && WordAt(u) == []
    ensures IntegerEnd(u).Some? <==> Lex(u) != [] && Lex(u)[0].token.Number?
  {
    if u != [] { FirstIs(u); }
    hide Lex, SkipSpace, WordAt, ParseString, IntegerEnd, OperatorAt, Num;
  }

  lemma NumberIs(u: Text)
    requires SkipSpace(u) == u && WordAt(u) == [] && IntegerEnd(u).Some?
    ensures Lex(u) != [] && Lex(u)[0].left == |u|
    ensures var end, start := IntegerEnd(u).value, if Begins(u, DASH) then 1 else 0;
            && Lex(u)[0].token == Number(start == 1, Num(u[start..end]), end < |u| && u[end] in {DOT, 0x65, 0x45})
            && Lex(u)[1..] == Lex(u[end..])
  {
    FirstIs(u);
    hide Lex, SkipSpace, WordAt, ParseString, CanonicalDigitsEnd, OperatorAt, Num;
  }

  lemma StringIs(u: Text)
    requires SkipSpace(u) == u
    ensures Begins(u, QUOTE) <==> Lex(u) != [] && (Lex(u)[0].token.Str? || Lex(u)[0].token.Bad?)
    ensures Begins(u, QUOTE) ==>
              if ParseString(u).Ok? then Lex(u)[0].token == Str(ParseString(u).value.0)
                  && Lex(u)[1..] == Lex(ParseString(u).value.1)
              else Lex(u)[0].token == Bad(ParseString(u).error)
  {
    if u != [] {
      FirstIs(u);
      if Begins(u, QUOTE) { NoWord(u); }
    }
    hide Lex, SkipSpace, WordAt, ParseString, OperatorAt;
  }

  lemma OperatorIs(u: Text)
    requires SkipSpace(u) == u
    ensures OperatorAt(u).Some? <==> Lex(u) != [] && Lex(u)[0].token.Op?
    ensures OperatorAt(u).Some? ==> Lex(u)[0].token.op == OperatorAt(u).value.0 && Lex(u)[1..] == Lex(u[OperatorAt(u).value.1..])
  {
    if u != [] {
      FirstIs(u);
      if OperatorAt(u).Some? {
        FirstTwo(u);
        NoWord(u);
      }
    }
    hide Lex, SkipSpace, WordAt, ParseString, StartsWith;
  }

  // --- the parser does what is done to the tokens -----------------------------------------------------

  lemma IntegerSame(u: Text)
    requires SkipSpace(u) == u && WordAt(u) == [] && IntegerEnd(u).Some?
    ensures TakeLiteral(Lex(u), 0) == (var i := ParseInteger(u); if i.Err?
            then Err(i.error) else Ok((LInt(i.value.0), Lex(i.value.1))))
  {
    NumberIs(u);
    Skipped(u);
    hide Lex, SkipSpace, WordAt, IntegerEnd, Num;
  }

  lemma {:induction false} LiteralSame(t: Text, n: nat)
    ensures Tokened(ParseListMember(t, n)) == TakeLiteral(Lex(t), n)
    decreases |t|, 1
  {
    var u := SkipSpace(t);
    Skipped(t);
    WordIs(u);
    MarkIs(u, LBRACKET);
    StringIs(u);
    if Begins(u, LBRACKET) { ListSame(u, n); }
    if WordAt(u) == [] {
      IsNumber(u);
      if IntegerEnd(u).Some? { IntegerSame(u); }
    }
    hide Lex, SkipSpace, WordAt, IntegerEnd, ParseString, ParseList, ParseInteger, TakeList;
  }

  lemma {:induction false} ListSame(t: Text, n: nat)
    requires SkipSpace(t) == t && Begins(t, LBRACKET)
    ensures Next(Lex(t), Mark(LBRACKET)) && Tokened(ParseList(t, n)) == TakeList(Lex(t), n)
    decreases |t|, 0
  {
    hide Lex, SkipSpace, ParseListItems, TakeItems;
    MarkIs(t, LBRACKET);
    Skipped(t);
    Skipped(t[1..]);
    MarkIs(SkipSpace(t[1..]), RBRACKET);
    ItemsSame([], SkipSpace(t[1..]), n + 1);
    if |Lex(t)| > 1 { assert Lex(t)[2..] == Lex(t)[1..][1..]; }
  }

  lemma {:induction false} ItemsSame(items: seq<Literal>, t: Text, n: nat)
    ensures Tokened(ParseListItems(items, t, n)) == TakeItems(items, Lex(t), n)
    decreases |t|, 2
  {
    hide Lex, SkipSpace, ParseListMember, TakeLiteral;
    LiteralSame(t, n);
    if ParseListMember(t, n).Ok? {
      var (m, rest) := ParseListMember(t, n).value;
      var u := SkipSpace(rest);
      Skipped(rest);
      MarkIs(u, COMMA);
      MarkIs(u, RBRACKET);
      if Begins(u, COMMA) {
        var w := SkipSpace(u[1..]);
        Skipped(u[1..]);
        MarkIs(w, RBRACKET);
        ItemsSame(items + [m], w, n);
      }
    }
  }

  lemma SegmentAfterDot(t: Text, u: Text)
    requires SkipSpace(t) == u && Begins(u, DOT)
    ensures var w := SkipSpace(u[1..]); var ls := Lex(t);
            && Next(ls, Mark(DOT)) && ls[1..] == Lex(w) && Left(ls[1..]) == |w| && SkipSpace(w) == w
            && (NextWord(ls[1..]) <==> WordAt(w) != [])
            && (WordAt(w) != [] ==> ls[1].token.w == WordAt(w) && ls[2..] == Lex(w[|WordAt(w)|..]))
  {
    Skipped(t);
    MarkIs(u, DOT);
    Skipped(u[1..]);
    WordIs(SkipSpace(u[1..]));
    hide Lex, SkipSpace, WordAt;
    var ls := Lex(t);
    if |ls| > 1 { assert ls[2..] == ls[1..][1..]; }
  }

  lemma DigitsAre(w: Text)
    requires SkipSpace(w) == w
    ensures CanonicalDigitsEnd(w, 0).Some? <==> Lex(w) != [] && Lex(w)[0].token.Number? && !Lex(w)[0].token.negative
    ensures CanonicalDigitsEnd(w, 0).Some? ==>
              Lex(w)[0].token.n == Num(w[..CanonicalDigitsEnd(w, 0).value])
                  && Lex(w)[1..] == Lex(w[CanonicalDigitsEnd(w, 0).value..])
  {
    if WordAt(w) == [] {
      IsNumber(w);
      if IntegerEnd(w).Some? {
        NumberIs(w);
        var end, start := IntegerEnd(w).value, if Begins(w, DASH) then 1 else 0;
        assert w[0..end] == w[..end];
      }
    } else {
      WordIs(w);
    }
    hide Lex, SkipSpace, Num;
  }

  lemma SegmentAfterBracket(t: Text, u: Text)
    requires SkipSpace(t) == u && Begins(u, LBRACKET)
    ensures var w := SkipSpace(u[1..]); var ls, end := Lex(t), CanonicalDigitsEnd(w, 0);
            && Next(ls, Mark(LBRACKET)) && Left(ls[1..]) == |w|
            && (end.Some? <==> |ls| >= 2 && ls[1].token.Number? && !ls[1].token.negative)
            && (end.Some? ==>
                  var x := SkipSpace(w[end.value..]);
                  && ls[1].token.n == Num(w[..end.value])
                  && ls[2..] == Lex(x) && Left(ls[2..]) == |x|
                  && (Begins(x, RBRACKET) <==> Next(ls[2..], Mark(RBRACKET)))
                  && (Begins(x, RBRACKET) ==> ls[3..] == Lex(x[1..])))
  {
    Skipped(t);
    MarkIs(u, LBRACKET);
    Skipped(u[1..]);
    var w := SkipSpace(u[1..]);
    DigitsAre(w);
    var ls, end := Lex(t), CanonicalDigitsEnd(w, 0);
    hide Lex, SkipSpace, CanonicalDigitsEnd, Num;
    if end.Some? {
      var x := SkipSpace(w[end.value..]);
      Skipped(w[end.value..]);
      MarkIs(x, RBRACKET);
      assert ls[2..] == ls[1..][1..];
      if |ls| > 2 { assert ls[3..] == ls[2..][1..]; }
    }
  }

  lemma {:induction false} SegmentsSame(segments: seq<Segment>, t: Text)
    ensures Tokened(ParseSegments(segments, t)) == TakeSegments(segments, Lex(t))
    decreases |t|
  {
    hide Lex, SkipSpace, WordAt, CanonicalDigitsEnd, Num;
    var u := SkipSpace(t);
    Skipped(t);
    MarkIs(u, DOT);
    MarkIs(u, LBRACKET);
    if Begins(u, DOT) {
      var w := SkipSpace(u[1..]);
      SegmentAfterDot(t, u);
      if WordAt(w) != [] { SegmentsSame(segments + [Member(WordAt(w))], w[|WordAt(w)|..]); }
    } else if Begins(u, LBRACKET) {
      SegmentAfterBracket(t, u);
      var w := SkipSpace(u[1..]);
      var end := CanonicalDigitsEnd(w, 0);
      if end.Some? {
        var x := SkipSpace(w[end.value..]);
        if Begins(x, RBRACKET) { SegmentsSame(segments + [Index(Num(w[..end.value]))], x[1..]); }
      }
    }
  }

  lemma PathSame(t: Text)
    requires SkipSpace(t) == t && WordAt(t) != []
    ensures NextWord(Lex(t)) && Tokened(ParsePath(t)) == TakePath(Lex(t))
  {
    hide Lex, SkipSpace, WordAt, ParseSegments, TakeSegments;
    WordIs(t);
    var after := t[|WordAt(t)|..];
    var u := SkipSpace(after);
    Skipped(after);
    MarkIs(u, DOT);
    var ls := Lex(t);
    if Begins(u, DOT) {
      SegmentAfterDot(after, u);
      var w := SkipSpace(u[1..]);
      if WordAt(w) != [] { SegmentsSame([Member(WordAt(w))], w[|WordAt(w)|..]); }
      assert ls[2..] == ls[1..][1..];
      if |ls| > 2 { assert ls[3..] == ls[1..][2..]; }
    }
  }

  lemma OperandIsLiteral(t: Text, n: nat)
    requires !IsRoot(WordAt(SkipSpace(t)))
    ensures ParseOperand(t, n)
         == (var l := ParseListMember(t, n); if l.Err? then Err(l.error) else Ok((LiteralOperand(l.value.0), l.value.1)))
  {
    hide SkipSpace, WordAt, ParseString, ParseList, ParseInteger, IntegerEnd;
  }

  lemma OperandSame(t: Text, n: nat)
    ensures Tokened(ParseOperand(t, n)) == TakeOperand(Lex(t), n)
  {
    var u := SkipSpace(t);
    Skipped(t);
    WordIs(u);
    if IsRoot(WordAt(u)) {
      PathSame(u);
    } else {
      OperandIsLiteral(t, n);
      LiteralSame(t, n);
    }
    hide Lex, SkipSpace, WordAt, ParsePath, TakePath, TakeLiteral, ParseListMember;
  }

  lemma MembershipSame(t: Text, item: Operand, negated: bool, n: nat)
    ensures Tokened(ParseMembership(t, item, negated, n)) == TakeMembership(Lex(t), item, negated, n)
  {
    hide Lex, SkipSpace, ParseList, TakeList;
    Skipped(t);
    MarkIs(SkipSpace(t), LBRACKET);
    if Begins(SkipSpace(t), LBRACKET) { ListSame(SkipSpace(t), n); }
  }

  lemma CloseSame(e: Expr, t: Text)
    ensures Tokened(CloseCall(e, t)) == TakeClose(e, Lex(t))
  {
    hide Lex, SkipSpace;
    Skipped(t);
    MarkIs(SkipSpace(t), RPAREN);
  }

  /** The text after the opening parenthesis of a call. */
  lemma CallOpens(t: Text)
    requires SkipSpace(t) == t && WordAt(t) != []
    ensures var u := SkipSpace(t[|WordAt(t)|..]); var ls := Lex(t);
            && NextWord(ls) && ls[0].token.w == WordAt(t) && Left(ls[1..]) == |u|
            && (Begins(u, LPAREN) <==> Next(ls[1..], Mark(LPAREN)))
            && (Begins(u, LPAREN) ==> ls[2..] == Lex(SkipSpace(u[1..])))
  {
    hide Lex, SkipSpace, WordAt;
    WordIs(t);
    var after := t[|WordAt(t)|..];
    var u := SkipSpace(after);
    Skipped(after);
    MarkIs(u, LPAREN);
    if Begins(u, LPAREN) {
      Skipped(u[1..]);
      assert Lex(t)[2..] == Lex(t)[1..][1..];
    }
  }

  lemma EvidenceSame(w: Text, name: Text)
    requires SkipSpace(w) == w && (name == FRESH || name == PRESENT)
    ensures var word := WordAt(w);
            Tokened(if word == [] || IsKeyword(word) then Err(TypeFailure(|w|))
                    else
                      var x := SkipSpace(w[|word|..]);
                      if Begins(x, DOT) || Begins(x, LBRACKET) then Err(TypeFailure(|w|))
                      else CloseCall(if name == FRESH then Fresh(word) else Present(word), x))
            == TakeEvidence(name == FRESH, Lex(w))
  {
    hide Lex, SkipSpace, WordAt, IsKeyword, CloseCall, TakeClose;
    WordIs(w);
    Skipped(w);
    var word := WordAt(w);
    if word != [] {
      var x := SkipSpace(w[|word|..]);
      Skipped(w[|word|..]);
      MarkIs(x, DOT);
      MarkIs(x, LBRACKET);
      CloseSame(if name == FRESH then Fresh(word) else Present(word), x);
    }
  }

  lemma PatternSame(path: Path, x: Text)
    requires SkipSpace(x) == x && Begins(x, COMMA)
    ensures var y := SkipSpace(x[1..]); var ls := Lex(x);
            && Next(ls, Mark(COMMA))
            && Tokened(if !Begins(y, QUOTE) then Err(TypeFailure(|y|))
                       else var s := ParseString(y); if s.Err? then Err(s.error) else CloseCall(Matches(path, s.value.0), s.value.1))
               == if |ls| >= 2 && ls[1].token.Bad? then Err(ls[1].token.f)
                  else if |ls| < 2 || !ls[1].token.Str? then Err(TypeFailure(Left(ls[1..])))
                  else TakeClose(Matches(path, ls[1].token.s), ls[2..])
  {
    hide Lex, SkipSpace, ParseString, CloseCall, TakeClose;
    MarkIs(x, COMMA);
    var y := SkipSpace(x[1..]);
    Skipped(x[1..]);
    StringIs(y);
    var ls := Lex(x);
    if Begins(y, QUOTE) && ParseString(y).Ok? {
      CloseSame(Matches(path, ParseString(y).value.0), ParseString(y).value.1);
      assert ls[2..] == ls[1..][1..];
    }
  }

  lemma GlobSame(w: Text)
    requires SkipSpace(w) == w
    ensures Tokened(if !IsRoot(WordAt(w)) then Err(TypeFailure(|w|))
                    else
                      var p := ParsePath(w);
                      if p.Err? then Err(p.error)
                      else
                        var x := SkipSpace(p.value.1);
                        if !Begins(x, COMMA) then Err(TypeFailure(|x|))
                        else
                          var y := SkipSpace(x[1..]);
                          if !Begins(y, QUOTE) then Err(TypeFailure(|y|))
                          else
                            var s := ParseString(y);
                            if s.Err? then Err(s.error) else CloseCall(Matches(p.value.0, s.value.0), s.value.1))
            == TakeGlob(Lex(w))
  {
    hide Lex, SkipSpace, WordAt, ParsePath, TakePath, ParseString, CloseCall, TakeClose;
    WordIs(w);
    Skipped(w);
    if IsRoot(WordAt(w)) {
      PathSame(w);
      if ParsePath(w).Ok? {
        var (path, after) := ParsePath(w).value;
        var x := SkipSpace(after);
        Skipped(after);
        MarkIs(x, COMMA);
        if Begins(x, COMMA) { PatternSame(path, x); }
      }
    }
  }

  lemma FunctionSame(t: Text)
    requires SkipSpace(t) == t && IsFunctionName(WordAt(t))
    ensures NextWord(Lex(t)) && Tokened(ParseFunction(t)) == TakeFunction(Lex(t))
  {
    hide Lex, SkipSpace, WordAt, ParsePath, TakePath, ParseString, CloseCall, TakeGlob, TakeEvidence, IsKeyword;
    CallOpens(t);
    var u := SkipSpace(t[|WordAt(t)|..]);
    if Begins(u, LPAREN) {
      var w := SkipSpace(u[1..]);
      Skipped(u[1..]);
      if WordAt(t) == MATCHES { GlobSame(w); } else { EvidenceSame(w, WordAt(t)); }
    }
  }

  /** What stands between the operands of a membership or a comparison. */
  lemma BetweenIs(v: Text)
    requires SkipSpace(v) == v
    ensures Next(Lex(v), Word(NOT)) <==> WordAt(v) == NOT
    ensures Next(Lex(v), Word(IN)) <==> WordAt(v) == IN
    ensures WordAt(v) == NOT ==> Lex(v)[1..] == Lex(SkipSpace(v[3..])) && Left(Lex(v)[1..]) == |SkipSpace(v[3..])|
    ensures WordAt(v) == IN ==> Lex(v)[1..] == Lex(v[2..])
    ensures Left(Lex(v)) == |v|
  {
    hide Lex, SkipSpace, WordAt;
    WordIs(v);
    Skipped(v);
    if WordAt(v) == NOT { Skipped(v[3..]); }
  }

  lemma ComparesSame(t: Text, left: Operand, v: Text, n: nat)
    requires SkipSpace(v) == v && OperatorAt(v).Some?
    ensures var ls := Lex(v);
            && ls != [] && ls[0].token.Op?
            && Tokened(var (op, length) := OperatorAt(v).value;
                       var r := ParseOperand(v[length..], n);
                       if r.Err? then Err(r.error)
                       else
                         var w := SkipSpace(r.value.1);
                         if OperatorAt(w).Some? then Err(ParseFailure(|w|))
                         else if !ComparisonTyped(op, left, r.value.0) then Err(TypeFailure(|v|))
                         else Ok((Compare(op, left, r.value.0), w)))
               == (var r := TakeOperand(ls[1..], n);
                   if r.Err? then Err(r.error)
                   else
                     var (right, w) := r.value;
                     if w != [] && w[0].token.Op? then Err(ParseFailure(Left(w)))
                     else if !ComparisonTyped(ls[0].token.op, left, right) then Err(TypeFailure(Left(ls)))
                     else Ok((Compare(ls[0].token.op, left, right), w)))
  {
    hide Lex, SkipSpace, ParseOperand, TakeOperand, OperatorAt, ComparisonTyped;
    OperatorIs(v);
    Skipped(v);
    var (op, length) := OperatorAt(v).value;
    OperandSame(v[length..], n);
    var r := ParseOperand(v[length..], n);
    if r.Ok? {
      Skipped(r.value.1);
      OperatorIs(SkipSpace(r.value.1));
    }
  }

  lemma ComparisonSame(t: Text, n: nat)
    ensures Tokened(ParseComparison(t, n)) == TakeComparison(Lex(t), n)
  {
    hide Lex, SkipSpace, WordAt, ParseOperand, TakeOperand, OperatorAt, ComparisonTyped, ParseFunction, TakeFunction,
         ParseMembership, TakeMembership;
    var u := SkipSpace(t);
    Skipped(t);
    WordIs(u);
    if IsFunctionName(WordAt(u)) {
      FunctionSame(u);
    } else {
      OperandSame(u, n);
      if ParseOperand(u, n).Ok? {
        var (left, rest) := ParseOperand(u, n).value;
        var v := SkipSpace(rest);
        Skipped(rest);
        BetweenIs(v);
        OperatorIs(v);
        if WordAt(v) == NOT {
          var w := SkipSpace(v[3..]);
          Skipped(v[3..]);
          BetweenIs(w);
          if WordAt(w) == IN {
            MembershipSame(w[2..], left, true, n);
            assert Lex(v)[2..] == Lex(v)[1..][1..];
          }
        } else if WordAt(v) == IN {
          MembershipSame(v[2..], left, false, n);
        } else if OperatorAt(v).Some? {
          ComparesSame(t, left, v, n);
        }
      }
    }
  }

  lemma {:induction false} OrSame(t: Text, n: nat)
    ensures Tokened(ParseOr(t, n)) == TakeOr(Lex(t), n)
    decreases |t|, 4
  {
    hide Lex, ParseAnd, TakeAnd, ParseOrRest, TakeOrRest;
    AndSame(t, n);
    if ParseAnd(t, n).Ok? {
      var (e, rest) := ParseAnd(t, n).value;
      OrRestSame([e], rest, n);
    }
  }

  lemma {:induction false} OrRestSame(operands: seq<Expr>, t: Text, n: nat)
    requires operands != []
    ensures Tokened(ParseOrRest(operands, t, n)) == TakeOrRest(operands, Lex(t), n)
    decreases |t|, 4
  {
    hide Lex, SkipSpace, WordAt, ParseAnd, TakeAnd;
    var u := SkipSpace(t);
    Skipped(t);
    WordIs(u);
    if WordAt(u) == OR {
      AndSame(u[2..], n);
      if ParseAnd(u[2..], n).Ok? {
        var (e, rest) := ParseAnd(u[2..], n).value;
        OrRestSame(operands + [e], rest, n);
      }
    }
  }

  lemma {:induction false} AndSame(t: Text, n: nat)
    ensures Tokened(ParseAnd(t, n)) == TakeAnd(Lex(t), n)
    decreases |t|, 3
  {
    hide Lex, ParseNot, TakeNot, ParseAndRest, TakeAndRest;
    NotSame(t, n);
    if ParseNot(t, n).Ok? {
      var (e, rest) := ParseNot(t, n).value;
      AndRestSame([e], rest, n);
    }
  }

  lemma {:induction false} AndRestSame(operands: seq<Expr>, t: Text, n: nat)
    requires operands != []
    ensures Tokened(ParseAndRest(operands, t, n)) == TakeAndRest(operands, Lex(t), n)
    decreases |t|, 3
  {
    hide Lex, SkipSpace, WordAt, ParseNot, TakeNot;
    var u := SkipSpace(t);
    Skipped(t);
    WordIs(u);
    if WordAt(u) == AND {
      NotSame(u[3..], n);
      if ParseNot(u[3..], n).Ok? {
        var (e, rest) := ParseNot(u[3..], n).value;
        AndRestSame(operands + [e], rest, n);
      }
    }
  }

  lemma {:induction false} NotSame(t: Text, n: nat)
    ensures Tokened(ParseNot(t, n)) == TakeNot(Lex(t), n)
    decreases |t|, 2
  {
    hide Lex, SkipSpace, WordAt, ParsePrimary, TakePrimary;
    var u := SkipSpace(t);
    Skipped(t);
    BetweenIs(u);
    if WordAt(u) == NOT {
      var w := SkipSpace(u[3..]);
      Skipped(u[3..]);
      BetweenIs(w);
      PrimarySame(w, n);
    } else {
      PrimarySame(u, n);
    }
  }

  lemma {:induction false} PrimarySame(w: Text, n: nat)
    requires SkipSpace(w) == w
    ensures Tokened(ParsePrimary(w, n)) == TakePrimary(Lex(w), n)
    decreases |w|, 1
  {
    hide Lex, SkipSpace, ParseOr, TakeOr, ParseComparison, TakeComparison;
    MarkIs(w, LPAREN);
    Skipped(w);
    if !Begins(w, LPAREN) {
      ComparisonSame(w, n);
    } else {
      OrSame(w[1..], n + 1);
      if ParseOr(w[1..], n + 1).Ok? {
        var rest := ParseOr(w[1..], n + 1).value.1;
        Skipped(rest);
        MarkIs(SkipSpace(rest), RPAREN);
      }
    }
  }

  /** The parser gives every text what its tokens have: the same tree, or the same refusal at the same place. */
  lemma ParseIsByTokens(source: Text)
    ensures ParseSource(source) == TakeAll(Lex(source))
  {
    hide Lex, SkipSpace, ParseOr, TakeOr;
    Skipped(source);
    if SkipSpace(source) != [] {
      OrSame(SkipSpace(source), 0);
      if ParseOr(SkipSpace(source), 0).Ok? { Skipped(ParseOr(SkipSpace(source), 0).value.1); }
    }
  }
}
