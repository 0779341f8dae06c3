/** The tokens of the expression language, as spec/expression-language.md lists them: how each is written, what it
    takes to read one, and that every text is one run of them at most. */
module Tokens {
  import opened Wrappers
  import opened Text
  import opened Syntax
  import Printer

  /** A word, an integer (`tight` when a point or an exponent follows at once), a string, an operator, a mark of
      punctuation, a string that cannot be read, or a character that starts nothing. */
  datatype Token =
    | Word(w: Text)
    | Number(negative: bool, n: nat, tight: bool)
    | Str(s: Text)
    | Op(op: Operator)
    | Mark(c: Code)
    | Bad(f: Failure)
    | Junk

  /** A token and how many characters are left where it starts. */
  datatype Lexeme = Lexeme(token: Token, left: nat)

  // --- how tokens are written ------------------------------------------------------------------

  predicate White(c: int)
  {
    c == ' ' as int || c == '\t' as int || c == '\r' as int || c == '\n' as int
  }

  predicate Letter(c: int)
  {
    'a' as int <= c <= 'z' as int || 'A' as int <= c <= 'Z' as int || c == '_' as int
  }

  predicate Digit(c: int)
  {
    '0' as int <= c <= '9' as int
  }

  /** The value of a hexadecimal digit of either case. */
  predicate HexIs(c: int, n: int)
  {
    || (0 <= n <= 9 && c == '0' as int + n)
    || (10 <= n <= 15 && (c == 'a' as int + (n - 10) || c == 'A' as int + (n - 10)))
  }

  ghost predicate FourHex(p: Text, c: int)
  {
    |p| == 4 && exists a, b, d, e :: HexIs(p[0], a) && HexIs(p[1], b) && HexIs(p[2], d) && HexIs(p[3], e)
                                    && c == 4096 * a + 256 * b + 16 * d + e
  }

  /** One character of a string as it may be written: itself, unless it is a quotation mark, a backslash or a new
      line; in two characters; or by four hexadecimal digits, unless it is a surrogate. */
  ghost predicate WritesCharacter(c: Code, p: Text)
  {
    || (p == [c] && c != '\"' as int && c != '\\' as int && c != '\n' as int)
    || (c == '\"' as int && p == ['\\' as int, '\"' as int])
    || (c == '\\' as int && p == ['\\' as int, '\\' as int])
    || (c == 8 && p == ['\\' as int, 'b' as int])
    || (c == 9 && p == ['\\' as int, 't' as int])
    || (c == 10 && p == ['\\' as int, 'n' as int])
    || (c == 12 && p == ['\\' as int, 'f' as int])
    || (c == 13 && p == ['\\' as int, 'r' as int])
    || (|p| == 6 && p[..2] == ['\\' as int, 'u' as int] && FourHex(p[2..], c) && !(0xD800 <= c <= 0xDFFF))
  }

  ghost predicate WritesCharacters(s: Text, t: Text)
    decreases |s|
  {
    if s == [] then t == []
    else exists n :: 0 < n <= |t| && WritesCharacter(s[0], t[..n]) && WritesCharacters(s[1..], t[n..])
  }

  predicate AllWhite(t: Text)
  {
    forall i :: 0 <= i < |t| ==> White(t[i])
  }

  predicate WordText(w: Text)
  {
    w != [] && Letter(w[0]) && forall i :: 0 <= i < |w| ==> Letter(w[i]) || Digit(w[i])
  }

  /** No leading zero but the number zero's. */
  ghost predicate NumberText(n: nat, t: Text)
  {
    IsCanonicalDigits(t) && Num(t) == n
  }

  function OperatorText(op: Operator): Text
  {
    match op
    case Eq => ['=' as int, '=' as int]
    case Ne => ['!' as int, '=' as int]
    case Le => ['<' as int, '=' as int]
    case Ge => ['>' as int, '=' as int]
    case Lt => ['<' as int]
    case Gt => ['>' as int]
  }

  /** The text is the token's, and what comes after does not lengthen it. */
  ghost predicate Writes(token: Token, t: Text, after: Text)
  {
    match token
    case Word(w) => t == w && WordText(w) && (after != [] ==> !Letter(after[0]) && !Digit(after[0]))
    case Number(negative, n, tight) =>
      && t != [] && NumberText(n, if negative then t[1..] else t) && (negative ==> t[0] == '-' as int)
      && (after != [] && n != 0 ==> !Digit(after[0]))
      && (tight <==> after != [] && (after[0] == '.' as int || after[0] == 'e' as int || after[0] == 'E' as int))
    case Str(s) => |t| >= 2 && t[0] == t[|t| - 1] == '\"' as int && WritesCharacters(s, t[1..|t| - 1])
    case Op(op) => t == OperatorText(op) && (op == Lt || op == Gt ==> after == [] || after[0] != '=' as int)
    case Mark(c) => t == [c] && c in {'(' as int, ')' as int, '[' as int, ']' as int, ',' as int, '.' as int}
    case Bad(_) => false
    case Junk => false
  }

  /** The text is these tokens, with white space anywhere between them. */
  ghost predicate Lexed(t: Text, ls: seq<Lexeme>)
    decreases |ls|
  {
    if ls == [] then AllWhite(t)
    else exists gap: Text, s: Text, after: Text ::
      t == gap + s + after && AllWhite(gap) && Writes(ls[0].token, s, after) && ls[0].left == |s + after|
          && Lexed(after, ls[1..])
  }

  // --- reading tokens --------------------------------------------------------------------------

  /** The first token of a text that does not start with white space, and what is left after it. */
  function TokenAt(t: Text): (r: (Token, Text))
    requires t != []
    ensures r.0.Bad? || r.0.Junk? || |r.1| < |t|
  {
    if WordAt(t) != [] then (Word(WordAt(t)), t[|WordAt(t)|..])
    else if IntegerEnd(t).Some? then
      var end, start := IntegerEnd(t).value, if Begins(t, DASH) then 1 else 0;
      (Number(start == 1, Num(t[start..end]), end < |t| && t[end] in {DOT, 0x65, 0x45}), t[end..])
    else if t[0] == QUOTE then
      var s := ParseString(t);
      if s.Ok? then (Str(s.value.0), s.value.1) else (Bad(s.error), t)
    else if OperatorAt(t).Some? then (Op(OperatorAt(t).value.0), t[OperatorAt(t).value.1..])
    else if t[0] in {LPAREN, RPAREN, LBRACKET, RBRACKET, COMMA, DOT} then (Mark(t[0]), t[1..])
    else (Junk, t)
  }

  /** All tokens up to the end, or to the first that is none. */
  function Lex(t: Text): seq<Lexeme>
    decreases |t|
  {
    var u := SkipSpace(t);
    if u == [] then []
    else
      var (token, after) := TokenAt(u);
      if token.Bad? || token.Junk? then [Lexeme(token, |u|)] else [Lexeme(token, |u|)] + Lex(after)
  }

  predicate Clean(ls: seq<Lexeme>)
  {
    forall i :: 0 <= i < |ls| ==> !ls[i].token.Bad? && !ls[i].token.Junk?
  }

  // --- strings ---------------------------------------------------------------------------------

  lemma HexValueIs(c: Code)
    ensures forall n :: HexIs(c, n) <==> HexValue(c) == Some(n)
  {
  }

  lemma FourHexIs(p: Text, c: int)
    requires |p| == 4
    ensures FourHex(p, c) <==> FourHexDigits(p) && HexCode(p) == c
  {
    HexValueIs(p[0]);
    HexValueIs(p[1]);
    HexValueIs(p[2]);
    HexValueIs(p[3]);
    if FourHexDigits(p) {
      assert HexIs(p[0], HexValue(p[0]).value) && HexIs(p[1], HexValue(p[1]).value)
             && HexIs(p[2], HexValue(p[2]).value) && HexIs(p[3], HexValue(p[3]).value);
    }
    hide HexIs, HexValue;
  }

  lemma CharacterRead(c: Code, p: Text, rest: Text, pieces: Text, start: nat)
    requires WritesCharacter(c, p)
    ensures ParseStringBody(pieces, p + rest, start) == ParseStringBody(pieces + [c], rest, start)
  {
    var t := p + rest;
    if |p| == 6 {
      assert p == p[..2] + p[2..];
      FourHexIs(p[2..], c);
      assert t[1..] == ['u' as int] + (p[2..] + rest);
      HexRead(p[2..], rest);
      assert t[1..][1..] == p[2..] + rest && t[1..][5..] == rest;
    } else if |p| == 2 {
      assert t[1..] == [p[1]] + rest && t[1..][1..] == rest;
    } else {
      assert t[1..] == rest;
    }
    hide FourHex, FourHexDigits, HexCode;
  }

  lemma HexRead(h: Text, rest: Text)
    requires |h| == 4
    ensures FourHexDigits(h + rest) == FourHexDigits(h)
    ensures FourHexDigits(h) ==> HexCode(h + rest) == HexCode(h)
  {
    assert (h + rest)[0] == h[0] && (h + rest)[1] == h[1] && (h + rest)[2] == h[2] && (h + rest)[3] == h[3];
    hide HexValue;
  }

  /** A written string is read to its end. */
  lemma {:induction false} CharactersRead(s: Text, b: Text, post: Text, pieces: Text, start: nat)
    requires WritesCharacters(s, b)
    ensures ParseStringBody(pieces, b + [QUOTE] + post, start) == Ok((pieces + s, post))
    decreases |s|
  {
    if s == [] {
      var t := b + [QUOTE] + post;
      assert t == [QUOTE] + post && t[1..] == post && pieces + s == pieces;
    } else {
      var n := FirstWritten(s, b);
      hide WritesCharacter, WritesCharacters, ParseStringBody;
      CharactersRead(s[1..], b[n..], post, pieces + [s[0]], start);
      CharacterRead(s[0], b[..n], b[n..] + [QUOTE] + post, pieces, start);
      Regroup(b, n, [QUOTE] + post);
      Shift(pieces, s);
    }
  }

  lemma FirstWritten(s: Text, b: Text) returns (n: nat)
    requires s != [] && WritesCharacters(s, b)
    ensures 0 < n <= |b| && WritesCharacter(s[0], b[..n]) && WritesCharacters(s[1..], b[n..])
  {
    hide WritesCharacter;
    n :| 0 < n <= |b| && WritesCharacter(s[0], b[..n]) && WritesCharacters(s[1..], b[n..]);
  }

  lemma Regroup(b: Text, n: nat, end: Text)
    requires n <= |b| && end != []
    ensures b[..n] + (b[n..] + [end[0]] + end[1..]) == b + [end[0]] + end[1..]
  {
    assert b == b[..n] + b[n..];
  }

  lemma Shift(pieces: Text, s: Text)
    requires s != []
    ensures pieces + [s[0]] + s[1..] == pieces + s
  {
  }

  /** One character of a string can be read here. */
  predicate Readable(t: Text)
  {
    && t != [] && t[0] != QUOTE && t[0] != LF
    && (t[0] == BACKSLASH ==>
          && |t| >= 2
          && (StringEscape(t[1]).Some? || (t[1] == 0x75 && FourHexDigits(t[2..]) && !IsSurrogate(HexCode(t[2..])))))
  }

  /** What the reader takes for one character. */
  lemma FirstCharacter(pieces: Text, t: Text, start: nat) returns (c: Code, n: nat)
    requires Readable(t)
    ensures 0 < n <= |t| && WritesCharacter(c, t[..n])
    ensures ParseStringBody(pieces, t, start) == ParseStringBody(pieces + [c], t[n..], start)
  {
    if t[0] != BACKSLASH {
      c, n := t[0], 1;
    } else if StringEscape(t[1]).Some? {
      c, n := StringEscape(t[1]).value, 2;
      assert t[1..][1..] == t[2..];
    } else {
      c, n := HexCode(t[2..]), 6;
      assert t[1..][1..] == t[2..] && t[1..][5..] == t[6..];
      var h := t[2..6];
      assert t[2..] == h + t[6..];
      HexRead(h, t[6..]);
      FourHexIs(h, c);
      assert t[..6][2..] == h;
      assert t[..6][..2] == t[..2] == [t[0], t[1]];
    }
    hide FourHex, FourHexDigits, HexCode;
  }

  lemma OkIsReadable(pieces: Text, t: Text, start: nat)
    requires ParseStringBody(pieces, t, start).Ok?
    ensures t != [] && (t[0] == QUOTE || Readable(t))
  {
    if |t| >= 2 { assert t[1..][1..] == t[2..]; }
    hide FourHexDigits, HexCode, StringEscape;
  }

  /** What was read was written. */
  lemma {:induction false} ReadWasWritten(pieces: Text, t: Text, start: nat) returns (s: Text, n: nat)
    requires ParseStringBody(pieces, t, start).Ok?
    ensures n < |t| && t[n] == QUOTE && WritesCharacters(s, t[..n])
    ensures ParseStringBody(pieces, t, start) == Ok((pieces + s, t[n + 1..]))
    decreases |t|
  {
    if t[0] == QUOTE {
      s, n := [], 0;
      assert pieces + s == pieces;
    } else {
      OkIsReadable(pieces, t, start);
      var c, k := FirstCharacter(pieces, t, start);
      hide WritesCharacter, ParseStringBody, WritesCharacters;
      var more, m := ReadWasWritten(pieces + [c], t[k..], start);
      s, n := [c] + more, k + m;
      Shift(pieces, s);
      Within(t, k, m);
      WritesMore(c, more, t[..n], k);
    }
  }

  lemma Within(t: Text, k: nat, m: nat)
    requires k + m < |t|
    ensures t[k..][m] == t[k + m] && t[k..][m + 1..] == t[k + m + 1..]
    ensures t[..k + m][..k] == t[..k] && t[..k + m][k..] == t[k..][..m]
  {
  }

  /** What is wrong with the rest of a string, and where it is said to be: it ends, at the string's start; a raw new
      line, there; a backslash that ends it, at the end; a backslash before anything else but an escape, at what
      follows it; four digits that name a surrogate. */
  ghost predicate Faults(u: Text, start: nat, f: Failure)
  {
    || (u == [] && f == ParseFailure(start))
    || (u != [] && u[0] == '\n' as int && f == ParseFailure(|u|))
    || (u == ['\\' as int] && f == ParseFailure(0))
    || (|u| >= 2 && u[0] == '\\' as int
        && u[1] !in ['\"' as int, '\\' as int, 'b' as int, 't' as int, 'n' as int, 'f' as int, 'r' as int]
        && (if u[1] == 'u' as int && |u| >= 6 && exists c :: FourHex(u[2..6], c)
            then f == SurrogateEscape && exists c :: FourHex(u[2..6], c) && 0xD800 <= c <= 0xDFFF
            else f == ParseFailure(|u| - 1)))
  }

  lemma HexHere(t: Text)
    requires |t| >= 2
    ensures FourHexDigits(t[2..]) <==> |t| >= 6 && exists c :: FourHex(t[2..6], c)
    ensures FourHexDigits(t[2..]) ==> forall c :: FourHex(t[2..6], c) <==> c == HexCode(t[2..])
  {
    if |t| >= 6 {
      assert t[2..] == t[2..6] + t[6..];
      HexRead(t[2..6], t[6..]);
      forall c: int ensures FourHex(t[2..6], c) <==> FourHexDigits(t[2..6]) && HexCode(t[2..6]) == c { FourHexIs(t[2..6], c); }
      if FourHexDigits(t[2..]) { assert FourHex(t[2..6], HexCode(t[2..])); }
    }
    hide FourHex, HexCode, HexValue;
  }

  lemma FaultHere(pieces: Text, t: Text, start: nat)
    requires ParseStringBody(pieces, t, start).Err? && !Readable(t)
    ensures Faults(t, start, ParseStringBody(pieces, t, start).error)
  {
    if |t| >= 2 && t[0] == BACKSLASH {
      assert t[1..][1..] == t[2..];
      HexHere(t);
      hide FourHex, FourHexDigits, HexCode;
      if FourHexDigits(t[2..]) { assert FourHex(t[2..6], HexCode(t[2..])); }
    } else if |t| == 1 {
      assert t == [t[0]];
    }
  }

  /** A string that cannot be read is well written up to the fault that is reported. */
  lemma {:induction false} FaultFound(pieces: Text, t: Text, start: nat) returns (s: Text, n: nat)
    requires ParseStringBody(pieces, t, start).Err?
    ensures n <= |t| && WritesCharacters(s, t[..n]) && Faults(t[n..], start, ParseStringBody(pieces, t, start).error)
    decreases |t|
  {
    if Readable(t) {
      var c, k := FirstCharacter(pieces, t, start);
      hide WritesCharacter, ParseStringBody, WritesCharacters, Faults;
      var more, m := FaultFound(pieces + [c], t[k..], start);
      s, n := [c] + more, k + m;
      assert t[k..][m..] == t[n..];
      assert t[..n][..k] == t[..k] && t[..n][k..] == t[k..][..m];
      WritesMore(c, more, t[..n], k);
    } else {
      FaultHere(pieces, t, start);
      s, n := [], 0;
      assert t[0..] == t;
      hide Faults, ParseStringBody;
    }
  }

  lemma WritesMore(c: Code, more: Text, b: Text, k: nat)
    requires 0 < k <= |b| && WritesCharacter(c, b[..k]) && WritesCharacters(more, b[k..])
    ensures WritesCharacters([c] + more, b)
  {
    hide WritesCharacter;
    assert ([c] + more)[1..] == more;
  }

  // --- one token -------------------------------------------------------------------------------

  lemma LettersAre(c: Code)
    ensures IsWordStart(c) <==> Letter(c)
    ensures IsWordPart(c) <==> Letter(c) || Digit(c)
    ensures IsDigit(c) <==> Digit(c)
    ensures IsSpace(c) <==> White(c)
  {
  }

  lemma WordTextIs(w: Text)
    ensures WordText(w) <==> IsIdentifier(w)
  {
    forall i | 0 <= i < |w| ensures IsWordPart(w[i]) <==> Letter(w[i]) || Digit(w[i]) { LettersAre(w[i]); }
    if w != [] { LettersAre(w[0]); }
    hide IsWordPart, IsWordStart, Letter, Digit;
  }

  lemma WordRead(w: Text, after: Text)
    requires Writes(Word(w), w, after)
    ensures TokenAt(w + after) == (Word(w), after)
  {
    WordTextIs(w);
    if after != [] { LettersAre(after[0]); }
    hide WordAt, WordText, IsWordPart, Letter, Digit;
    Printer.ReadWord(w, after);
  }

  lemma NoWord(t: Text)
    requires t != [] && !Letter(t[0])
    ensures WordAt(t) == []
  {
  }

  lemma {:induction false} RunOf(t: Text, i: nat, e: nat)
    requires i < e <= |t| && IsCanonicalDigits(t[i..e]) && (e < |t| && t[i..e] != [ZERO] ==> !IsDigit(t[e]))
    ensures CanonicalDigitsEnd(t, i) == Some(e)
  {
    assert t[i] == t[i..e][0];
    if t[i] == ZERO {
      assert t[i..e] == [ZERO];
    } else {
      forall k | i <= k < e ensures IsDigit(t[k]) { assert t[k] == t[i..e][k - i]; }
      RunUnique(t, i, e);
    }
  }

  lemma ZeroText(d: Text)
    requires IsCanonicalDigits(d)
    ensures d == [ZERO] <==> Num(d) == 0
  {
    if d[0] != ZERO { NumPositive(d); } else { assert Num([ZERO]) == 0 by { assert [ZERO][..0] == []; } }
  }

  lemma NumberRead(negative: bool, n: nat, tight: bool, s: Text, after: Text)
    requires Writes(Number(negative, n, tight), s, after)
    ensures TokenAt(s + after) == (Number(negative, n, tight), after)
  {
    var t, start := s + after, if negative then 1 else 0;
    var d := if negative then s[1..] else s;
    assert t[start..|s|] == d && t[|s|..] == after;
    if after != [] {
      LettersAre(after[0]);
      assert t[|s|] == after[0];
    }
    ZeroText(d);
    assert t[0] == s[0] && t[start] == d[0] && IsDigit(d[0]);
    NoWord(t);
    RunOf(t, start, |s|);
    assert Begins(t, DASH) <==> negative;
    hide CanonicalDigitsEnd, Num, WordAt, IsCanonicalDigits;
  }

  lemma StringRead(x: Text, s: Text, after: Text)
    requires Writes(Str(x), s, after)
    ensures TokenAt(s + after) == (Str(x), after)
  {
    var t, b := s + after, s[1..|s| - 1];
    assert s == [QUOTE] + b + [QUOTE];
    assert t[1..] == b + [QUOTE] + after && t[0] == QUOTE;
    CharactersRead(x, b, after, [], |t|);
    assert [] + x == x;
    NoWord(t);
    hide ParseStringBody, WritesCharacters, WordAt;
  }

  lemma OperatorRead(op: Operator, s: Text, after: Text)
    requires Writes(Op(op), s, after)
    ensures TokenAt(s + after) == (Op(op), after)
  {
    var t := s + after;
    assert t[|s|..] == after;
    NoWord(t);
    FirstTwo(t);
    if |s| == 2 { assert t[1] == s[1]; } else if |t| > 1 { assert t[1] == after[0]; }
    hide WordAt, ParseStringBody;
  }

  lemma FirstTwo(t: Text)
    requires t != []
    ensures forall a, b :: StartsWith(t, [a, b]) <==> |t| > 1 && t[0] == a && t[1] == b
    ensures forall a :: StartsWith(t, [a]) <==> t[0] == a
  {
    assert t[..1] == [t[0]];
    if |t| > 1 { assert t[..2] == [t[0], t[1]]; }
  }

  lemma MarkRead(c: Code, s: Text, after: Text)
    requires Writes(Mark(c), s, after)
    ensures TokenAt(s + after) == (Mark(c), after)
  {
    var t := s + after;
    assert t[1..] == after && t[0] == c;
    NoWord(t);
    FirstTwo(t);
    hide WordAt, ParseStringBody, StartsWith;
  }

  /** A written token is the one that is read. */
  lemma TokenRead(token: Token, s: Text, after: Text)
    requires Writes(token, s, after)
    ensures s != [] && !IsSpace(s[0]) && TokenAt(s + after) == (token, after)
  {
    hide TokenAt, WordText, NumberText, WritesCharacters;
    match token {
      case Word(w) =>
        WordRead(w, after);
        WordStart(w);
      case Number(negative, n, tight) =>
        NumberRead(negative, n, tight, s, after);
        NumberStart(negative, n, s);
      case Str(x) => StringRead(x, s, after);
      case Op(op) => OperatorRead(op, s, after);
      case Mark(c) => MarkRead(c, s, after);
    }
  }

  lemma WordStart(w: Text)
    requires WordText(w)
    ensures w != [] && !IsSpace(w[0])
  {
  }

  lemma NumberStart(negative: bool, n: nat, s: Text)
    requires s != [] && NumberText(n, if negative then s[1..] else s) && (negative ==> s[0] == '-' as int)
    ensures !IsSpace(s[0])
  {
    if !negative { assert IsDigit(s[0]); }
  }

  // --- what was read is written ------------------------------------------------------------------

  lemma WordWritten(t: Text)
    requires t != [] && WordAt(t) != []
    ensures var w := WordAt(t); Writes(Word(w), w, t[|w|..])
  {
    var w := WordAt(t);
    assert IsIdentifier(w);
    WordTextIs(w);
    if |w| < |t| { LettersAre(t[|w|]); }
    hide WordText;
  }

  lemma NumberWritten(t: Text)
    requires IntegerEnd(t).Some?
    ensures var end, start := IntegerEnd(t).value, if Begins(t, DASH) then 1 else 0;
            start < end && Writes(Number(start == 1, Num(t[start..end]), end < |t|
                && t[end] in {DOT, 0x65, 0x45}), t[..end], t[end..])
  {
    var end, start := IntegerEnd(t).value, if Begins(t, DASH) then 1 else 0;
    var d := t[start..end];
    assert (if start == 1 then t[..end][1..] else t[..end]) == d;
    ZeroText(d);
    if end < |t| {
      LettersAre(t[end]);
      assert t[end..][0] == t[end];
      if d != [ZERO] { EndOfRun(t, start); }
    }
    hide Num, IsCanonicalDigits, CanonicalDigitsEnd;
  }

  lemma EndOfRun(t: Text, i: nat)
    requires i < |t| && CanonicalDigitsEnd(t, i).Some?
    ensures var e := CanonicalDigitsEnd(t, i).value; t[i..e] != [ZERO] && e < |t| ==> !IsDigit(t[e])
  {
    if t[i] == ZERO { assert t[i..i + 1] == [ZERO]; }
  }

  lemma StringWritten(t: Text)
    requires t != [] && t[0] == QUOTE && ParseString(t).Ok?
    ensures var (x, after) := ParseString(t).value;
            |after| < |t| && t[|t| - |after|..] == after && Writes(Str(x), t[..|t| - |after|], after)
  {
    var x, n := ReadWasWritten([], t[1..], |t|);
    assert [] + x == x;
    var after := t[1..][n + 1..];
    assert after == t[n + 2..];
    assert t[..n + 2][1..n + 1] == t[1..][..n];
    assert t[n + 1] == t[1..][n];
    hide ParseStringBody, WritesCharacters;
  }

  lemma OperatorWritten(t: Text)
    requires t != [] && OperatorAt(t).Some?
    ensures var (op, n) := OperatorAt(t).value; Writes(Op(op), t[..n], t[n..])
  {
    FirstTwo(t);
    var (op, n) := OperatorAt(t).value;
    if n == 1 { assert t[..1] == [t[0]]; } else { assert t[..2] == [t[0], t[1]]; }
    if n < |t| { assert t[n..][0] == t[n]; }
    hide StartsWith;
  }

  /** What is read as a token is that token, written. */
  lemma TokenWritten(t: Text)
    requires t != [] && !TokenAt(t).0.Bad? && !TokenAt(t).0.Junk?
    ensures var (token, after) := TokenAt(t);
            t[|t| - |after|..] == after && Writes(token, t[..|t| - |after|], after)
  {
    if WordAt(t) != [] {
      WordWritten(t);
      hide WordText;
    } else if IntegerEnd(t).Some? {
      NumberWritten(t);
      hide IntegerEnd, NumberText;
    } else if t[0] == QUOTE {
      StringWritten(t);
      hide ParseString, WritesCharacters;
    } else if OperatorAt(t).Some? {
      OperatorWritten(t);
      hide OperatorAt;
    } else {
      assert t[..1] == [t[0]];
    }
  }

  // --- whole texts -----------------------------------------------------------------------------

  lemma {:induction false} SkipsWhite(gap: Text, u: Text)
    requires AllWhite(gap) && (u != [] ==> !IsSpace(u[0]))
    ensures SkipSpace(gap + u) == u
    decreases gap
  {
    if gap == [] {
      assert gap + u == u;
    } else {
      LettersAre(gap[0]);
      assert (gap + u)[1..] == gap[1..] + u;
      SkipsWhite(gap[1..], u);
    }
  }

  lemma {:induction false} SkippedWhite(t: Text) returns (gap: Text)
    ensures AllWhite(gap) && t == gap + SkipSpace(t)
    decreases |t|
  {
    if t != [] && IsSpace(t[0]) {
      LettersAre(t[0]);
      var more := SkippedWhite(t[1..]);
      gap := [t[0]] + more;
    } else {
      gap := [];
    }
  }

  lemma LexStep(t: Text, u: Text, token: Token, after: Text)
    requires SkipSpace(t) == u && u != [] && TokenAt(u) == (token, after) && !token.Bad? && !token.Junk?
    ensures Lex(t) == [Lexeme(token, |u|)] + Lex(after)
  {
    hide TokenAt, SkipSpace;
  }

  /** Where a token is written, it is the first one read. */
  lemma TokenStarts(gap: Text, token: Token, s: Text, after: Text)
    requires AllWhite(gap) && Writes(token, s, after)
    ensures Lex(gap + s + after) == [Lexeme(token, |s + after|)] + Lex(after) && !token.Bad? && !token.Junk?
  {
    TokenRead(token, s, after);
    WrittenIsClean(token, s, after);
    hide Writes, TokenAt, SkipSpace, AllWhite, Lex;
    var u := s + after;
    assert gap + s + after == gap + u;
    assert u[0] == s[0];
    SkipsWhite(gap, u);
    LexStep(gap + u, u, token, after);
  }

  /** A text is read as the tokens it is written with. */
  lemma {:induction false} LexedIsLex(t: Text, ls: seq<Lexeme>)
    requires Lexed(t, ls)
    ensures Lex(t) == ls && Clean(ls)
    decreases |ls|
  {
    if ls == [] {
      assert t + [] == t;
      SkipsWhite(t, []);
    } else {
      var gap, s, after := FirstLexed(t, ls);
      hide Writes, Lexed, Lex, AllWhite;
      TokenStarts(gap, ls[0].token, s, after);
      LexedIsLex(after, ls[1..]);
      assert ls == [ls[0]] + ls[1..];
    }
  }

  lemma WrittenIsClean(token: Token, s: Text, after: Text)
    requires Writes(token, s, after)
    ensures !token.Bad? && !token.Junk?
  {
  }

  lemma FirstLexed(t: Text, ls: seq<Lexeme>) returns (gap: Text, s: Text, after: Text)
    requires ls != [] && Lexed(t, ls)
    ensures t == gap + s + after && AllWhite(gap) && Writes(ls[0].token, s, after) && ls[0].left == |s + after|
            && Lexed(after, ls[1..])
  {
    hide Writes, AllWhite;
    gap, s, after :|
      t == gap + s + after && AllWhite(gap) && Writes(ls[0].token, s, after) && ls[0].left == |s + after|
          && Lexed(after, ls[1..]);
  }

  lemma MoreLexed(gap: Text, s: Text, after: Text, token: Token, more: seq<Lexeme>)
    requires AllWhite(gap) && Writes(token, s, after) && Lexed(after, more)
    ensures Lexed(gap + s + after, [Lexeme(token, |s + after|)] + more)
  {
    hide Writes, AllWhite;
    assert ([Lexeme(token, |s + after|)] + more)[1..] == more;
  }

  /** And what is read to the end without a fault is written with the tokens read. */
  lemma {:induction false} CleanIsLexed(t: Text)
    requires Clean(Lex(t))
    ensures Lexed(t, Lex(t))
    decreases |t|
  {
    hide Writes, TokenAt, SkipSpace, Lex, Lexed, AllWhite;
    var gap := SkippedWhite(t);
    var u := SkipSpace(t);
    if u == [] {
      NothingLexed(t);
    } else {
      var token, s, after := FirstRead(t, u);
      CleanIsLexed(after);
      MoreLexed(gap, s, after, token, Lex(after));
      assert gap + s + after == gap + u;
    }
  }

  lemma NothingLexed(t: Text)
    requires SkipSpace(t) == []
    ensures Lex(t) == [] && Lexed(t, [])
  {
    var gap := SkippedWhite(t);
    assert gap + [] == gap;
    hide SkipSpace;
  }

  lemma FirstRead(t: Text, u: Text) returns (token: Token, s: Text, after: Text)
    requires SkipSpace(t) == u && u != [] && Clean(Lex(t))
    ensures u == s + after && |after| < |t| && Writes(token, s, after)
            && Lex(t) == [Lexeme(token, |s + after|)] + Lex(after) && Clean(Lex(after))
  {
    token, after := TokenAt(u).0, TokenAt(u).1;
    assert Lex(t)[0].token == token;
    TokenWritten(u);
    hide Writes, TokenAt, SkipSpace, Lex;
    s := u[..|u| - |after|];
    assert u == s + after;
    LexStep(t, u, token, after);
    CleanRest(Lex(t), Lex(after));
  }

  lemma CleanRest(ls: seq<Lexeme>, rest: seq<Lexeme>)
    requires Clean(ls) && ls != [] && ls[1..] == rest
    ensures Clean(rest)
  {
    forall i | 0 <= i < |rest| ensures !rest[i].token.Bad? && !rest[i].token.Junk? { assert rest[i] == ls[i + 1]; }
  }

  /** A text is written with tokens in at most one way, and the reader finds it. */
  lemma LexedExactly(t: Text, ls: seq<Lexeme>)
    ensures Lexed(t, ls) <==> Lex(t) == ls && Clean(ls)
  {
    if Lexed(t, ls) { LexedIsLex(t, ls); }
    if Lex(t) == ls && Clean(ls) { CleanIsLexed(t); }
    hide Lex, Lexed;
  }
}
