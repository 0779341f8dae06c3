/** The parser object of vfy/expr.py: a cursor and a nesting counter over one source text. Each
    method is proved to read what the function of the same production in Syntax reads. */
module Parser {
  import opened Wrappers
  import opened Text
  import opened Canon
  import opened Syntax

  class Cursor {
    const source: Text
    var position: nat
    var nesting: nat

    constructor (source: Text)
      ensures Valid() && this.source == source && position == 0 && nesting == 0
    {
      this.source := source;
      position := 0;
      nesting := 0;
    }

    predicate Valid()
      reads this
    {
      position <= |source|
    }

    /** The text not yet read. */
    function Rest(): Text
      reads this
      requires Valid()
    {
      source[position..]
    }

    /** The outcome is the one specified: the same failure, or the same tree with the cursor at
        the text after it and the nesting counter back at `n`. */
    ghost predicate Reached<T>(r: Result<T, Failure>, spec: Parsed<T>, n: nat)
      reads this
    {
      && Valid()
      && (r.Ok? <==> spec.Ok?)
      && (r.Ok? ==> r.value == spec.value.0 && Rest() == spec.value.1 && nesting == n)
      && (r.Err? ==> r.error == spec.error)
    }

    // --- lexing ------------------------------------------------------------------------------------

    method SkipWhitespace()
      requires Valid()
      modifies this`position
      ensures Valid() && Rest() == SkipSpace(old(Rest())) == SkipSpace(Rest())
    {
      while position < |source| && IsSpace(source[position])
        invariant Valid() && SkipSpace(Rest()) == SkipSpace(old(Rest()))
        decreases |source| - position
      {
        assert Rest()[1..] == source[position + 1..];
        position := position + 1;
      }
      SkipSpaceSettles(old(Rest()));
    }

    method Advance(n: nat)
      requires Valid() && n <= |Rest()|
      modifies this`position
      ensures Valid() && Rest() == old(Rest())[n..]
    {
      assert source[position..][n..] == source[position + n..];
      position := position + n;
    }

    method AtEnd() returns (b: bool)
      requires Valid()
      modifies this`position
      ensures Valid() && Rest() == SkipSpace(old(Rest())) == SkipSpace(Rest()) && b == (Rest() == [])
    {
      SkipWhitespace();
      return position >= |source|;
    }

    /** The identifier or keyword at the cursor, not consumed; empty when there is none. */
    method PeekWord() returns (w: Text)
      requires Valid()
      modifies this`position
      ensures Valid() && Rest() == SkipSpace(old(Rest())) == SkipSpace(Rest()) && w == WordAt(Rest())
    {
      SkipWhitespace();
      return WordAt(source[position..]);
    }

    method TakeWord() returns (r: Result<Text, Failure>)
      requires Valid()
      modifies this`position
      ensures Valid()
      ensures var u := SkipSpace(old(Rest()));
              if WordAt(u) == [] then r == Err(ParseFailure(|u|))
              else r == Ok(WordAt(u)) && Rest() == u[|WordAt(u)|..]
    {
      var w := PeekWord();
      if w == [] { return Err(ParseFailure(|source| - position)); }
      Advance(|w|);
      return Ok(w);
    }

    method PeekSymbol(c: Code) returns (b: bool)
      requires Valid()
      modifies this`position
      ensures Valid() && Rest() == SkipSpace(old(Rest())) == SkipSpace(Rest()) && b == Begins(Rest(), c)
    {
      SkipWhitespace();
      return position < |source| && source[position] == c;
    }

    method TakeSymbol(c: Code) returns (r: Result<(), Failure>)
      requires Valid()
      modifies this`position
      ensures Valid()
      ensures var u := SkipSpace(old(Rest()));
              if Begins(u, c) then r == Ok(()) && Rest() == u[1..] else r == Err(ParseFailure(|u|))
    {
      var here := PeekSymbol(c);
      if !here { return Err(ParseFailure(|source| - position)); }
      Advance(1);
      return Ok(());
    }

    /** Consume a keyword only when it stands alone. */
    method TakeKeywordIf(word: Text) returns (b: bool)
      requires Valid() && word != []
      modifies this`position
      ensures Valid()
      ensures var u := SkipSpace(old(Rest()));
              b == (WordAt(u) == word) && (Rest() == if b then u[|word|..] else u) && SkipSpace(u) == u
    {
      var w := PeekWord();
      if w != word { return false; }
      Advance(|word|);
      return true;
    }

    // --- literals ----------------------------------------------------------------------------------

    method StringLiteral() returns (r: Result<Text, Failure>)
      requires Valid() && Begins(Rest(), QUOTE)
      modifies this`position
      ensures Reached(r, ParseString(old(Rest())), old(nesting))
    {
      ghost var opening := Rest();
      var start := |source| - position;
      Advance(1);
      var pieces: Text := [];
      while true
        invariant Valid()
        invariant ParseString(opening) == ParseStringBody(pieces, Rest(), start)
        decreases |source| - position
      {
        if position >= |source| { return Err(ParseFailure(start)); }
        var character := source[position];
        ghost var here := Rest();
        if character == QUOTE {
          Advance(1);
          return Ok(pieces);
        }
        if character == LF { return Err(ParseFailure(|source| - position)); }
        if character == BACKSLASH {
          Advance(1);
          if position >= |source| { return Err(ParseFailure(0)); }
          var marker := source[position];
          if StringEscape(marker).Some? {
            pieces := pieces + [StringEscape(marker).value];
            Advance(1);
            continue;
          }
          if marker != 0x75 { return Err(ParseFailure(|source| - position)); }
          var digits := source[position + 1..];
          assert digits == Rest()[1..];
          if !FourHexDigits(digits) { return Err(ParseFailure(|source| - position)); }
          if IsSurrogate(HexCode(digits)) { return Err(SurrogateEscape); }
          pieces := pieces + [HexCode(digits)];
          Advance(5);
          continue;
        }
        pieces := pieces + [character];
        Advance(1);
      }
    }

    method IntegerLiteral() returns (r: Result<int, Failure>)
      requires Valid() && IntegerEnd(Rest()).Some?
      modifies this`position
      ensures Reached(r, ParseInteger(old(Rest())), old(nesting))
    {
      var t := source[position..];
      var length := IntegerEnd(t).value;
      var start := if Begins(t, DASH) then 1 else 0;
      Advance(length);
      if position < |source| && source[position] in {DOT, 0x65, 0x45} { return Err(ParseFailure(|t|)); }
      var magnitude: int := Num(t[start..length]);
      var n := if start == 1 then -magnitude else magnitude;
      if n < MIN_SAFE_INTEGER || n > MAX_SAFE_INTEGER { return Err(ParseFailure(|t|)); }
      return Ok(n);
    }

    method ListLiteral() returns (r: Result<seq<Literal>, Failure>)
      requires Valid() && Begins(Rest(), LBRACKET)
      modifies this
      ensures Reached(r, ParseList(old(Rest()), old(nesting)), old(nesting)) && nesting == old(nesting)
      decreases |source| - position, 0
    {
      if nesting >= MAX_NESTING { return Err(ParseFailure(|source| - position)); }
      Advance(1);
      nesting := nesting + 1;
      var closed := PeekSymbol(RBRACKET);
      if closed {
        Advance(1);
        r := Ok([]);
      } else {
        r := ListMembers();
      }
      nesting := nesting - 1;
    }

    /** The loop over members, inside the bracket. */
    method ListMembers() returns (r: Result<seq<Literal>, Failure>)
      requires Valid() && SkipSpace(Rest()) == Rest()
      modifies this
      ensures Reached(r, ParseListItems([], old(Rest()), old(nesting)), old(nesting)) && nesting == old(nesting)
      decreases |source| - position, 2
    {
      hide SkipSpace, ParseListMember;
      ghost var opening, depth := Rest(), nesting;
      var members: seq<Literal> := [];
      while true
        invariant Valid() && nesting == depth && |Rest()| <= |opening|
        invariant ParseListItems([], opening, depth) == ParseListItems(members, Rest(), depth)
        decreases |source| - position
      {
        var m := ListMember();
        if m.Err? { return Err(m.error); }
        members := members + [m.value];
        var comma := PeekSymbol(COMMA);
        if comma {
          Advance(1);
          var trailing := PeekSymbol(RBRACKET);
          if trailing { return Err(ParseFailure(|source| - position)); }
        } else {
          var end := TakeSymbol(RBRACKET);
          if end.Err? { return Err(end.error); }
          return Ok(members);
        }
      }
    }

    method ListMember() returns (r: Result<Literal, Failure>)
      requires Valid()
      modifies this
      ensures Reached(r, ParseListMember(old(Rest()), old(nesting)), old(nesting)) && nesting == old(nesting)
      decreases |source| - position, 1
    {
      var word := PeekWord();
      if word == TRUE || word == FALSE {
        Advance(|word|);
        return Ok(LBool(word == TRUE));
      }
      var quote := PeekSymbol(QUOTE);
      if quote {
        var s := StringLiteral();
        return if s.Err? then Err(s.error) else Ok(LStr(s.value));
      }
      var bracket := PeekSymbol(LBRACKET);
      if bracket {
        var l := ListLiteral();
        return if l.Err? then Err(l.error) else Ok(LList(l.value));
      }
      if IntegerEnd(source[position..]).Some? {
        var n := IntegerLiteral();
        return if n.Err? then Err(n.error) else Ok(LInt(n.value));
      }
      return Err(ParseFailure(|source| - position));
    }

    // --- paths and operands ------------------------------------------------------------------------

    method PathHere() returns (r: Result<Path, Failure>)
      requires Valid() && WordAt(Rest()) != []
      modifies this`position
      ensures Reached(r, ParsePath(old(Rest())), old(nesting))
    {
      hide SkipSpace, WordAt, CanonicalDigitsEnd, Num;
      var root := WordAt(source[position..]);
      Advance(|root|);
      var dot := TakeSymbol(DOT);
      if dot.Err? { return Err(dot.error); }
      var first := TakeWord();
      if first.Err? { return Err(first.error); }
      var segments := [Member(first.value)];
      ghost var all := ParseSegments(segments, Rest());
      while true
        invariant Valid() && ParseSegments(segments, Rest()) == all
        decreases |source| - position
      {
        var isDot := PeekSymbol(DOT);
        if isDot {
          Advance(1);
          var name := TakeWord();
          if name.Err? { return Err(name.error); }
          segments := segments + [Member(name.value)];
          continue;
        }
        var isIndex := PeekSymbol(LBRACKET);
        if !isIndex { break; }
        Advance(1);
        SkipWhitespace();
        var t := source[position..];
        var end := CanonicalDigitsEnd(t, 0);
        if end.None? { return Err(ParseFailure(|t|)); }
        Advance(end.value);
        var close := TakeSymbol(RBRACKET);
        if close.Err? { return Err(close.error); }
        segments := segments + [Index(Num(t[..end.value]))];
      }
      return Ok(Path(root, segments));
    }

    method OperandHere() returns (r: Result<Operand, Failure>)
      requires Valid()
      modifies this
      ensures Reached(r, ParseOperand(old(Rest()), old(nesting)), old(nesting))
    {
      var word := PeekWord();
      if IsRoot(word) {
        var p := PathHere();
        return if p.Err? then Err(p.error) else Ok(PathOperand(p.value));
      }
      if word == TRUE || word == FALSE {
        Advance(|word|);
        return Ok(LiteralOperand(LBool(word == TRUE)));
      }
      var quote := PeekSymbol(QUOTE);
      if quote {
        var s := StringLiteral();
        return if s.Err? then Err(s.error) else Ok(LiteralOperand(LStr(s.value)));
      }
      var bracket := PeekSymbol(LBRACKET);
      if bracket {
        var l := ListLiteral();
        return if l.Err? then Err(l.error) else Ok(LiteralOperand(LList(l.value)));
      }
      if IntegerEnd(source[position..]).Some? {
        var n := IntegerLiteral();
        return if n.Err? then Err(n.error) else Ok(LiteralOperand(LInt(n.value)));
      }
      return Err(ParseFailure(|source| - position));
    }

    // --- predicates --------------------------------------------------------------------------------

    method MembershipHere(item: Operand, negated: bool) returns (r: Result<Expr, Failure>)
      requires Valid()
      modifies this
      ensures Reached(r, ParseMembership(old(Rest()), item, negated, old(nesting)), old(nesting))
    {
      var bracket := PeekSymbol(LBRACKET);
      if !bracket { return Err(TypeFailure(|source| - position)); }
      var l := ListLiteral();
      return if l.Err? then Err(l.error) else Ok(Membership(negated, item, l.value));
    }

    method Close(tree: Expr) returns (r: Result<Expr, Failure>)
      requires Valid()
      modifies this`position
      ensures Reached(r, CloseCall(tree, old(Rest())), old(nesting))
    {
      var extra := PeekSymbol(COMMA);
      if extra { return Err(TypeFailure(|source| - position)); }
      var close := PeekSymbol(RPAREN);
      if !close { return Err(TypeFailure(|source| - position)); }
      Advance(1);
      return Ok(tree);
    }

    method FunctionHere() returns (r: Result<Expr, Failure>)
      requires Valid() && IsFunctionName(WordAt(Rest()))
      modifies this
      ensures Reached(r, ParseFunction(old(Rest())), old(nesting))
    {
      hide SkipSpace, WordAt, ParsePath, ParseString, CloseCall, IsKeyword;
      var name := WordAt(source[position..]);
      Advance(|name|);
      var open := TakeSymbol(LPAREN);
      if open.Err? { return Err(open.error); }
      var word := PeekWord();
      var argument := |source| - position;
      if name == FRESH || name == PRESENT {
        if word == [] || IsKeyword(word) { return Err(TypeFailure(argument)); }
        Advance(|word|);
        var dot := PeekSymbol(DOT);
        var bracket := PeekSymbol(LBRACKET);
        if dot || bracket { return Err(TypeFailure(argument)); }
        r := Close(if name == FRESH then Fresh(word) else Present(word));
        return;
      }
      if !IsRoot(word) { return Err(TypeFailure(argument)); }
      var path := PathHere();
      if path.Err? { return Err(path.error); }
      var comma := PeekSymbol(COMMA);
      if !comma { return Err(TypeFailure(|source| - position)); }
      Advance(1);
      var quote := PeekSymbol(QUOTE);
      if !quote { return Err(TypeFailure(|source| - position)); }
      var pattern := StringLiteral();
      if pattern.Err? { return Err(pattern.error); }
      r := Close(Matches(path.value, pattern.value));
    }

    method Comparison() returns (r: Result<Expr, Failure>)
      requires Valid()
      modifies this
      ensures Reached(r, ParseComparison(old(Rest()), old(nesting)), old(nesting))
    {
      hide SkipSpace, WordAt, ParseOperand, ParseMembership, ParseFunction, OperatorAt, ComparisonTyped;
      var word := PeekWord();
      if IsFunctionName(word) {
        r := FunctionHere();
        return;
      }
      var start := |source| - position;
      var left := OperandHere();
      if left.Err? { return Err(left.error); }
      var isNot := TakeKeywordIf(NOT);
      if isNot {
        var here := TakeKeywordIf(IN);
        if !here { return Err(ParseFailure(|source| - position)); }
        r := MembershipHere(left.value, true);
        return;
      }
      var isIn := TakeKeywordIf(IN);
      if isIn {
        r := MembershipHere(left.value, false);
        return;
      }
      var t := source[position..];
      var op := OperatorAt(t);
      if op.None? { return Err(ParseFailure(start)); }
      Advance(op.value.1);
      var right := OperandHere();
      if right.Err? { return Err(right.error); }
      SkipWhitespace();
      if OperatorAt(source[position..]).Some? { return Err(ParseFailure(|source| - position)); }
      if !ComparisonTyped(op.value.0, left.value, right.value) { return Err(TypeFailure(|t|)); }
      return Ok(Compare(op.value.0, left.value, right.value));
    }

    // --- connectives -------------------------------------------------------------------------------

    method OrExpression() returns (r: Result<Expr, Failure>)
      requires Valid()
      modifies this
      ensures Reached(r, ParseOr(old(Rest()), old(nesting)), old(nesting))
      decreases |source| - position, 4
    {
      ghost var opening, depth := Rest(), nesting;
      var a := AndExpression();
      if a.Err? { return a; }
      var operands := [a.value];
      var more := TakeKeywordIf(OR);
      while more
        invariant Valid() && nesting == depth && operands != [] && |Rest()| < |opening|
        invariant ParseOr(opening, depth) ==
                  if more then
                    var b := ParseAnd(Rest(), depth);
                    if b.Err? then b else ParseOrRest(operands + [b.value.0], b.value.1, depth)
                  else Ok((Joined(true, operands), Rest()))
        decreases |source| - position
      {
        a := AndExpression();
        if a.Err? { return a; }
        operands := operands + [a.value];
        more := TakeKeywordIf(OR);
      }
      return Ok(Joined(true, operands));
    }

    method AndExpression() returns (r: Result<Expr, Failure>)
      requires Valid()
      modifies this
      ensures Reached(r, ParseAnd(old(Rest()), old(nesting)), old(nesting))
      decreases |source| - position, 3
    {
      ghost var opening, depth := Rest(), nesting;
      var a := NotExpression();
      if a.Err? { return a; }
      var operands := [a.value];
      var more := TakeKeywordIf(AND);
      while more
        invariant Valid() && nesting == depth && operands != [] && |Rest()| < |opening|
        invariant ParseAnd(opening, depth) ==
                  if more then
                    var b := ParseNot(Rest(), depth);
                    if b.Err? then b else ParseAndRest(operands + [b.value.0], b.value.1, depth)
                  else Ok((Joined(false, operands), Rest()))
        decreases |source| - position
      {
        a := NotExpression();
        if a.Err? { return a; }
        operands := operands + [a.value];
        more := TakeKeywordIf(AND);
      }
      return Ok(Joined(false, operands));
    }

    method NotExpression() returns (r: Result<Expr, Failure>)
      requires Valid()
      modifies this
      ensures Reached(r, ParseNot(old(Rest()), old(nesting)), old(nesting))
      decreases |source| - position, 2
    {
      hide ParseOr, ParseComparison, WordAt, SkipSpace;
      var negated := TakeKeywordIf(NOT);
      if negated {
        var again := PeekWord();
        if again == NOT { return Err(ParseFailure(|source| - position)); }
      }
      var node: Expr;
      var open := PeekSymbol(LPAREN);
      if open {
        if nesting >= MAX_NESTING { return Err(ParseFailure(|source| - position)); }
        Advance(1);
        nesting := nesting + 1;
        var inner := OrExpression();
        if inner.Err? { return inner; }
        nesting := nesting - 1;
        var close := TakeSymbol(RPAREN);
        if close.Err? { return Err(close.error); }
        node := inner.value;
      } else {
        var c := Comparison();
        if c.Err? { return c; }
        node := c.value;
      }
      return Ok(if negated then Not(node) else node);
    }

    /** The whole source parses to the specified tree or fails with the specified failure, and on
        success the nesting counter is back at zero. */
    method Parse() returns (r: Result<Expr, Failure>)
      requires position == 0 && nesting == 0
      modifies this
      ensures r == ParseSource(source)
      ensures r.Ok? ==> position == |source| && nesting == 0
    {
      assert Rest() == source;
      var empty := AtEnd();
      if empty { return Err(ParseFailure(0)); }
      var tree := OrExpression();
      if tree.Err? { return tree; }
      var done := AtEnd();
      if !done { return Err(ParseFailure(|source| - position)); }
      return tree;
    }
  }
}
