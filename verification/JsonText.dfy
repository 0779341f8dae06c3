/** JSON text described by itself, in the words of RFC 8259 sections 2 to 7 with the hooks of vfy/load.py: which text
    denotes which value, with white space, escapes and member order as they come. The reader takes exactly these. */
module JsonText {
  import opened Wrappers
  import opened Text
  import opened Values
  import opened Canon
  import opened Tokens
  import opened Load
  import CanonicalForm
  import DepthScan

  // --- characters ------------------------------------------------------------------------------

  /** Four hexadecimal digits after \u, for a code unit. */
  ghost predicate Escaped(p: Text, unit: int)
    ensures Escaped(p, unit) ==> |p| == 6
  {
    |p| == 6 && p[..2] == ['\\' as int, 'u' as int] && FourHex(p[2..], unit)
  }

  predicate High(unit: int)
  {
    0xD800 <= unit <= 0xDBFF
  }

  predicate Low(unit: int)
  {
    0xDC00 <= unit <= 0xDFFF
  }

  ghost predicate LowFollows(after: Text)
  {
    |after| >= 6 && exists low :: Escaped(after[..6], low) && Low(low)
  }

  /** The text is one character of a string, before that text: itself, unless it is a quotation mark, a backslash or a
      control character; in two characters; by one escaped code unit, which is no high surrogate before an escaped low
      one; or by such a pair. */
  ghost predicate DenotesCharacter(c: Code, p: Text, after: Text)
  {
    || (p == [c] && c != '\"' as int && c != '\\' as int && c >= 0x20)
    || (p == ['\\' as int, c] && (c == '\"' as int || c == '\\' as int || c == '/' as int))
    || (c == 8 && p == ['\\' as int, 'b' as int])
    || (c == 9 && p == ['\\' as int, 't' as int])
    || (c == 10 && p == ['\\' as int, 'n' as int])
    || (c == 12 && p == ['\\' as int, 'f' as int])
    || (c == 13 && p == ['\\' as int, 'r' as int])
    || (Escaped(p, c) && !(High(c) && LowFollows(after)))
    || (|p| == 12 && exists high, low ::
          Escaped(p[..6], high) && Escaped(p[6..], low) && High(high) && Low(low)
          && c == 0x10000 + 1024 * (high - 0xD800) + (low - 0xDC00))
  }

  ghost predicate DenotesCharacters(s: Text, t: Text)
    decreases |s|
  {
    if s == [] then t == []
    else exists n :: 0 < n <= |t| && DenotesCharacter(s[0], t[..n], t[n..]) && DenotesCharacters(s[1..], t[n..])
  }

  ghost predicate DenotesString(s: Text, t: Text)
  {
    |t| >= 2 && t[0] == t[|t| - 1] == '\"' as int && DenotesCharacters(s, t[1..|t| - 1])
  }

  // --- values ----------------------------------------------------------------------------------

  /** No fraction, no exponent, no leading zero, within what every implementation holds exactly. */
  ghost predicate DenotesInteger(n: int, t: Text)
  {
    && -9007199254740991 <= n <= 9007199254740991 && t != []
    && var digits := if t[0] == '-' as int then t[1..] else t;
       IsCanonicalDigits(digits) && (if t[0] == '-' as int then -n else n) == Num(digits)
  }

  /** The text, from its first character to its last, denotes the value. */
  ghost predicate Denotes(v: Value, t: Text)
    decreases v, 3, 0
  {
    match v
    case Null => t == ['n' as int, 'u' as int, 'l' as int, 'l' as int]
    case Bool(b) =>
      if b then t == ['t' as int, 'r' as int, 'u' as int, 'e' as int]
      else t == ['f' as int, 'a' as int, 'l' as int, 's' as int, 'e' as int]
    case Int(n) => DenotesInteger(n, t)
    case Str(s) => DenotesString(s, t)
    case Arr(_) => t != [] && t[0] == '[' as int && DenotesItems(v, 0, t[1..])
    case Obj(_) => exists keys :: DenotesObject(v, keys, t)
    case _ => false
  }

  /** White space and the closing bracket. */
  ghost predicate Closes(t: Text, c: int)
  {
    exists gap: Text :: AllWhite(gap) && t == gap + [c]
  }

  /** What stands before an item or member: white space, and before all but the first a comma in it. */
  ghost predicate Lead(i: nat, t: Text)
  {
    if i == 0 then AllWhite(t) else Parts(t, ',' as int)
  }

  /** The mark with white space around it. */
  ghost predicate Parts(t: Text, mark: int)
  {
    exists k :: 0 <= k < |t| && AllWhite(t[..k]) && t[k] == mark && AllWhite(t[k + 1..])
  }

  /** The items from `i` on, and the closing bracket. */
  ghost predicate DenotesItems(v: Value, i: nat, t: Text)
    requires v.Arr? && i <= |v.items|
    decreases v, 1, |v.items| - i
  {
    if i == |v.items| then Closes(t, ']' as int)
    else exists lead: Text, item: Text, more: Text ::
      Lead(i, lead) && Denotes(v.items[i], item) && DenotesItems(v, i + 1, more) && t == lead + (item + more)
  }

  /** All the keys in some order, each once, with their values. */
  ghost predicate DenotesObject(v: Value, keys: seq<Text>, t: Text)
    requires v.Obj?
    decreases v, 2, 0
  {
    && t != [] && t[0] == '{' as int
    && (forall k :: k in keys <==> k in v.members) && (forall i, j :: 0 <= i < j < |keys| ==> keys[i] != keys[j])
    && DenotesMembers(v, keys, 0, t[1..])
  }

  ghost predicate DenotesMember(v: Value, k: Text, t: Text)
    requires v.Obj? && k in v.members
    decreases v, 0, 0
  {
    exists key: Text, colon: Text, value: Text ::
      DenotesString(k, key) && Parts(colon, ':' as int) && Denotes(v.members[k], value) && t == key + (colon + value)
  }

  /** The members from `i` on, and the closing brace. */
  ghost predicate DenotesMembers(v: Value, keys: seq<Text>, i: nat, t: Text)
    requires v.Obj? && i <= |keys| && forall k :: k in keys ==> k in v.members
    decreases v, 1, |keys| - i
  {
    if i == |keys| then Closes(t, '}' as int)
    else exists lead: Text, member: Text, more: Text ::
      Lead(i, lead) && DenotesMember(v, keys[i], member) && DenotesMembers(v, keys, i + 1, more)
          && t == lead + (member + more)
  }

  /** A document: one value with white space around it. */
  ghost predicate IsDocument(v: Value, t: Text)
  {
    exists before: Text, body: Text, after: Text :: AllWhite(before) && Denotes(v, body) && AllWhite(after)
        && t == before + (body + after)
  }

  // --- escapes ---------------------------------------------------------------------------------

  lemma HexIsRead(h: Text, rest: Text)
    requires |h| == 4
    ensures ReadHex4(h + rest) == ReadHex4(h)
    ensures forall c :: FourHex(h, c) <==> ReadHex4(h) == Some(c)
  {
    assert (h + rest)[0] == h[0] && (h + rest)[1] == h[1] && (h + rest)[2] == h[2] && (h + rest)[3] == h[3];
    forall c: int ensures FourHex(h, c) <==> ReadHex4(h) == Some(c) { FourHexIsRead(h, c); }
    hide FourHex, HexValue;
  }

  lemma FourHexIsRead(p: Text, c: int)
    requires |p| == 4
    ensures FourHex(p, c) <==> ReadHex4(p) == Some(c)
  {
    FourHexIs(p, c);
    hide FourHex, HexValue;
  }

  /** The code unit escaped at the front of a text. */
  function EscapeAt(t: Text): Option<Code>
  {
    if |t| >= 6 && t[0] == BACKSLASH && t[1] == 0x75 then ReadHex4(t[2..]) else None
  }

  lemma EscapeIs(t: Text, unit: int)
    ensures |t| >= 6 && Escaped(t[..6], unit) <==> EscapeAt(t) == Some(unit)
  {
    if |t| >= 6 {
      var p, h := t[..6], t[2..6];
      assert p[2..] == h;
      assert p[..2] == [t[0], t[1]];
      assert t[2..] == h + t[6..];
      HexIsRead(h, t[6..]);
      hide FourHex, ReadHex4;
    }
  }

  lemma LowIs(t: Text)
    ensures LowFollows(t) <==> EscapeAt(t).Some? && Low(EscapeAt(t).value)
  {
    hide Escaped, EscapeAt, Low;
    if EscapeAt(t).Some? { EscapeIs(t, EscapeAt(t).value); }
    if LowFollows(t) {
      var low :| Escaped(t[..6], low) && Low(low);
      EscapeIs(t, low);
    }
  }

  /** A string ends before an escape does, so what follows its quotation mark makes none of what stands in it. */
  lemma NoEscapeAcross(after: Text, post: Text)
    ensures EscapeAt(after + [QUOTE] + post) == EscapeAt(after)
  {
    var t := after + [QUOTE] + post;
    if |after| >= 6 {
      var h := after[2..6];
      assert after[2..] == h + after[6..];
      assert t[2..] == h + (after[6..] + [QUOTE] + post);
      HexIsRead(h, after[6..]);
      HexIsRead(h, after[6..] + [QUOTE] + post);
    } else if |t| >= 6 {
      assert t[|after|] == QUOTE;
      if |after| >= 2 { assert t[2..][|after| - 2] == QUOTE; }
    }
  }

  /** What the reader makes of an escaped code unit. */
  lemma UnicodeIs(t: Text)
    requires |t| >= 2 && t[0] == BACKSLASH && t[1] == 0x75
    ensures ReadUnicode(t[2..])
         == if EscapeAt(t).None? then None
            else if High(EscapeAt(t).value) && |t| >= 12 && EscapeAt(t[6..]).Some? && Low(EscapeAt(t[6..]).value)
            then Some((0x10000 + 1024 * (EscapeAt(t).value - 0xD800) + (EscapeAt(t[6..]).value - 0xDC00), 10))
            else Some((EscapeAt(t).value, 4))
  {
    var u := t[2..];
    if |t| >= 12 {
      assert t[6..][2..] == t[8..] == u[6..];
      assert t[6..][0] == t[6] == u[4] && t[6..][1] == t[7] == u[5];
    } else if |t| >= 6 {
      assert |t[6..]| < 6;
    }
    hide ReadHex4;
  }

  // --- strings ---------------------------------------------------------------------------------

  lemma PrefixEscape(p: Text, rest: Text, unit: int)
    requires Escaped(p, unit)
    ensures EscapeAt(p + rest) == Some(unit) && (p + rest)[0] == BACKSLASH && (p + rest)[1] == 0x75
            && (p + rest)[6..] == rest
  {
    var t := p + rest;
    assert t[..6] == p;
    EscapeIs(t, unit);
    hide Escaped;
  }

  /** A character that is written is read. */
  lemma CharacterTaken(c: Code, p: Text, after: Text, post: Text)
    requires DenotesCharacter(c, p, after)
    ensures var rest := after + [QUOTE] + post; ReadString(p + rest) == Prepend(c, ReadString(rest))
  {
    var rest := after + [QUOTE] + post;
    var t := p + rest;
    if |p| == 6 {
      PrefixEscape(p, rest, c);
      NoEscapeAcross(after, post);
      LowIs(after);
      UnicodeIs(t);
      assert t[2 + 4..] == rest;
      hide Escaped, EscapeAt, LowFollows, ReadUnicode;
    } else if |p| == 12 {
      PairTaken(c, p, rest);
      hide Escaped, EscapeAt, LowFollows, ReadUnicode;
    } else if |p| == 2 {
      assert t[2..] == rest && t[1] == p[1] && t[0] == p[0];
    } else {
      assert t[1..] == rest;
    }
  }

  lemma PairTaken(c: Code, p: Text, rest: Text)
    requires |p| == 12 && DenotesCharacter(c, p, rest)
    ensures var t := p + rest; t[0] == BACKSLASH && t[1] == 0x75 && ReadUnicode(t[2..]) == Some((c, 10)) && t[12..] == rest
  {
    hide Escaped, EscapeAt, LowFollows, ReadUnicode;
    var high, low :| Escaped(p[..6], high) && Escaped(p[6..], low) && High(high) && Low(low)
                     && c == 0x10000 + 1024 * (high - 0xD800) + (low - 0xDC00);
    var t := p + rest;
    assert t == p[..6] + (p[6..] + rest);
    PrefixEscape(p[..6], p[6..] + rest, high);
    PrefixEscape(p[6..], rest, low);
    assert t[6..] == p[6..] + rest;
    UnicodeIs(t);
  }

  /** A string that is written is read to its quotation mark. */
  lemma {:induction false} CharactersTaken(s: Text, b: Text, post: Text)
    requires DenotesCharacters(s, b)
    ensures ReadString(b + [QUOTE] + post) == Some((s, post))
    decreases |s|
  {
    if s == [] {
      var t := b + [QUOTE] + post;
      assert t == [QUOTE] + post && t[1..] == post;
    } else {
      var n := FirstDenoted(s, b);
      hide DenotesCharacter, DenotesCharacters, ReadString;
      CharactersTaken(s[1..], b[n..], post);
      CharacterTaken(s[0], b[..n], b[n..], post);
      Tokens.Regroup(b, n, [QUOTE] + post);
      assert [s[0]] + s[1..] == s;
    }
  }

  lemma FirstDenoted(s: Text, b: Text) returns (n: nat)
    requires s != [] && DenotesCharacters(s, b)
    ensures 0 < n <= |b| && DenotesCharacter(s[0], b[..n], b[n..]) && DenotesCharacters(s[1..], b[n..])
  {
    hide DenotesCharacter;
    n :| 0 < n <= |b| && DenotesCharacter(s[0], b[..n], b[n..]) && DenotesCharacters(s[1..], b[n..]);
  }

  /** What the reader takes for one character denotes it. */
  lemma FirstTaken(t: Text) returns (c: Code, n: nat)
    requires ReadString(t).Some? && t != [] && t[0] != QUOTE
    ensures 0 < n <= |t| && DenotesCharacter(c, t[..n], t[n..]) && ReadString(t) == Prepend(c, ReadString(t[n..]))
  {
    if t[0] != BACKSLASH {
      c, n := t[0], 1;
    } else if Unescape(t[1]).Some? {
      c, n := Unescape(t[1]).value, 2;
      assert t[..2] == [t[0], t[1]];
    } else {
      c, n := UnicodeTaken(t);
      hide DenotesCharacter, ReadUnicode;
    }
    hide Escaped, LowFollows;
  }

  lemma UnicodeTaken(t: Text) returns (c: Code, n: nat)
    requires |t| >= 2 && t[0] == BACKSLASH && t[1] == 0x75 && ReadUnicode(t[2..]).Some?
    ensures c == ReadUnicode(t[2..]).value.0 && n == 2 + ReadUnicode(t[2..]).value.1
    ensures n <= |t| && DenotesCharacter(c, t[..n], t[n..])
  {
    hide Escaped, EscapeAt, LowFollows, ReadUnicode;
    UnicodeIs(t);
    c, n := ReadUnicode(t[2..]).value.0, 2 + ReadUnicode(t[2..]).value.1;
    var unit := EscapeAt(t).value;
    EscapeIs(t, unit);
    if n == 6 {
      LowIs(t[6..]);
      ShortIsNoEscape(t[6..]);
    } else {
      EscapeIs(t[6..], EscapeAt(t[6..]).value);
      assert t[..12][..6] == t[..6] && t[..12][6..] == t[6..][..6];
    }
  }

  lemma ShortIsNoEscape(t: Text)
    ensures EscapeAt(t).Some? ==> |t| >= 6
  {
  }

  /** What was read was written, up to a quotation mark. */
  lemma {:induction false} StringTaken(t: Text) returns (b: Text)
    requires ReadString(t).Some?
    ensures var (s, rest) := ReadString(t).value; DenotesCharacters(s, b) && t == b + [QUOTE] + rest
    decreases |t|
  {
    if t[0] == QUOTE {
      b := [];
      EmptyString(t);
    } else {
      hide DenotesCharacter, DenotesCharacters, ReadString;
      var c, n := FirstTaken(t);
      var more := StringTaken(t[n..]);
      b := MoreTaken(t, c, n, more, ReadString(t[n..]).value.0, ReadString(t[n..]).value.1);
    }
  }

  lemma EmptyString(t: Text)
    requires t != [] && t[0] == QUOTE
    ensures ReadString(t) == Some(([], t[1..])) && DenotesCharacters([], []) && t == [] + [QUOTE] + t[1..]
  {
  }

  lemma MoreTaken(t: Text, c: Code, n: nat, more: Text, s: Text, rest: Text) returns (b: Text)
    requires 0 < n <= |t| && DenotesCharacter(c, t[..n], t[n..])
    requires t[n..] == more + [QUOTE] + rest && DenotesCharacters(s, more)
    ensures DenotesCharacters([c] + s, b) && t == b + [QUOTE] + rest
  {
    hide DenotesCharacter, DenotesCharacters;
    CharacterStays(c, t[..n], more, rest);
    b := t[..n] + more;
    assert b[..n] == t[..n] && b[n..] == more;
    DenotesMore(c, s, b, n);
    assert t == t[..n] + t[n..];
    assert t[..n] + (more + [QUOTE] + rest) == b + [QUOTE] + rest;
  }

  /** A character before a quotation mark denotes what it did before all that follows it. */
  lemma CharacterStays(c: Code, p: Text, more: Text, rest: Text)
    requires DenotesCharacter(c, p, more + [QUOTE] + rest)
    ensures DenotesCharacter(c, p, more)
  {
    NoEscapeAcross(more, rest);
    LowIs(more);
    LowIs(more + [QUOTE] + rest);
    hide Escaped, LowFollows, EscapeAt;
  }

  lemma DenotesMore(c: Code, s: Text, b: Text, n: nat)
    requires 0 < n <= |b| && DenotesCharacter(c, b[..n], b[n..]) && DenotesCharacters(s, b[n..])
    ensures DenotesCharacters([c] + s, b)
  {
    hide DenotesCharacter;
    assert ([c] + s)[1..] == s;
  }

  // --- what is written is read -------------------------------------------------------------------

  /** How a value can begin. */
  predicate ValueStart(c: Code)
  {
    c in {QUOTE, LBRACE, LBRACKET, 0x6E, 0x74, 0x66, DASH} || IsDigit(c)
  }

  lemma StartOf(v: Value, t: Text)
    requires Denotes(v, t)
    ensures t != [] && ValueStart(t[0]) && !IsSpace(t[0])
  {
    if v.Int? {
      var digits := if t[0] == '-' as int then t[1..] else t;
      assert IsDigit(digits[0]);
    }
    hide DenotesString, DenotesItems, DenotesObject, Num;
  }

  /** What may follow a value: nothing, white space, a comma or a closing bracket. */
  predicate Ends(post: Text)
  {
    post == [] || IsSpace(post[0]) || post[0] in {COMMA, RBRACKET, RBRACE}
  }

  lemma NotWhite(u: Text)
    requires u == [] || !IsSpace(u[0])
    ensures SkipSpace(u) == u
  {
  }

  lemma ReadSkips(gap: Text, u: Text)
    requires AllWhite(gap) && (u != [] ==> !IsSpace(u[0]))
    ensures SkipSpace(gap + u) == u && ReadValue(gap + u) == ReadValue(u) && ReadMembers(gap + u) == ReadMembers(u)
  {
    SkipsWhite(gap, u);
    NotWhite(u);
    hide SkipSpace, ReadString, ReadItems;
  }

  lemma IntegerTaken(n: int, t: Text, post: Text)
    requires DenotesInteger(n, t) && Ends(post)
    ensures ReadNumber(t + post) == Some((Int(n), post))
  {
    var u, start := t + post, if t[0] == DASH then 1 else 0;
    var digits := if t[0] == '-' as int then t[1..] else t;
    assert u[0] == t[0] && u[start..|t|] == digits && u[|t|..] == post;
    if post != [] { assert u[|t|] == post[0]; }
    RunOf(u, start, |t|);
    hide CanonicalDigitsEnd, Num, IsCanonicalDigits;
  }

  lemma NumberTaken(n: int, t: Text, post: Text)
    requires DenotesInteger(n, t) && Ends(post)
    ensures ReadValue(t + post) == Some((Int(n), post))
  {
    StartOf(Int(n), t);
    IntegerTaken(n, t, post);
    var u := t + post;
    assert u[0] == t[0];
    NotWhite(u);
    if t[0] != DASH { assert IsDigit(t[0]); }
    assert !StartsWith(u, NULL_TEXT) && !StartsWith(u, TRUE_TEXT) && !StartsWith(u, FALSE_TEXT) by { NoLiteral(u); }
    hide SkipSpace, ReadNumber, ReadString, ReadItems, ReadMembers, StartsWith;
  }

  lemma NoLiteral(u: Text)
    requires u != [] && u[0] !in {0x6E, 0x74, 0x66}
    ensures !StartsWith(u, NULL_TEXT) && !StartsWith(u, TRUE_TEXT) && !StartsWith(u, FALSE_TEXT)
  {
    if |u| >= 4 { assert u[..4][0] == u[0]; }
    if |u| >= 5 { assert u[..5][0] == u[0]; }
  }

  lemma WordTaken(w: Text, post: Text)
    requires w in [NULL_TEXT, TRUE_TEXT, FALSE_TEXT]
    ensures ReadValue(w + post) == Some((if w == NULL_TEXT then Null else Bool(w == TRUE_TEXT), post))
  {
    var u := w + post;
    assert u[0] == w[0] && u[|w|..] == post && u[..|w|] == w;
    NotWhite(u);
    if |u| >= 4 { assert u[..4][0] == w[0]; }
    hide SkipSpace, ReadNumber, ReadString, ReadItems, ReadMembers;
  }

  lemma StringValueTaken(s: Text, t: Text, post: Text)
    requires DenotesString(s, t)
    ensures ReadValue(t + post) == Some((Value.Str(s), post)) && ReadString((t + post)[1..]) == Some((s, post))
            && t[0] == QUOTE
  {
    var u, b := t + post, t[1..|t| - 1];
    assert t == [QUOTE] + b + [QUOTE];
    assert u[1..] == b + [QUOTE] + post && u[0] == QUOTE;
    CharactersTaken(s, b, post);
    NotWhite(u);
    hide SkipSpace, ReadNumber, ReadString, ReadItems, ReadMembers, DenotesCharacters;
  }

  /** The closing bracket of what is left. */
  lemma CloseTaken(t: Text, c: Code, post: Text)
    requires Closes(t, c) && !IsSpace(c)
    ensures SkipSpace(t + post) == [c] + post && t != [] && (IsSpace(t[0]) || t[0] == c)
  {
    var gap: Text :| AllWhite(gap) && t == gap + [c];
    assert t + post == gap + ([c] + post);
    SkipsWhite(gap, [c] + post);
    if gap != [] { LettersAre(gap[0]); }
  }

  /** A mark with white space around it, and what comes after. */
  lemma MarkTaken(t: Text, c: Code, rest: Text) returns (space: Text)
    requires Parts(t, c) && !IsSpace(c)
    ensures AllWhite(space) && SkipSpace(t + rest) == [c] + (space + rest) && t != [] && (IsSpace(t[0]) || t[0] == c)
  {
    var k :| 0 <= k < |t| && AllWhite(t[..k]) && t[k] == c && AllWhite(t[k + 1..]);
    space := t[k + 1..];
    assert t + rest == t[..k] + ([c] + (space + rest));
    SkipsWhite(t[..k], [c] + (space + rest));
    if k > 0 {
      assert t[..k][0] == t[0];
      LettersAre(t[0]);
    }
  }

  lemma NextItem(v: Value, i: nat, t: Text) returns (lead: Text, item: Text, more: Text)
    requires v.Arr? && i < |v.items| && DenotesItems(v, i, t)
    ensures Lead(i, lead) && Denotes(v.items[i], item) && DenotesItems(v, i + 1, more) && t == lead + (item + more)
  {
    hide Denotes, Lead;
    lead, item, more :| Lead(i, lead) && Denotes(v.items[i], item) && DenotesItems(v, i + 1, more)
        && t == lead + (item + more);
  }

  /** After an item comes a comma and the next, or the closing bracket. */
  lemma AfterItem(v: Value, i: nat, t: Text, post: Text) returns (space: Text, item: Text, more: Text)
    requires v.Arr? && 0 < i <= |v.items| && DenotesItems(v, i, t)
    ensures Ends(t + post)
    ensures i == |v.items| ==> SkipSpace(t + post) == [RBRACKET] + post
    ensures i < |v.items| ==>
              && AllWhite(space) && Denotes(v.items[i], item) && DenotesItems(v, i + 1, more)
              && SkipSpace(t + post) == [COMMA] + (space + (item + (more + post)))
  {
    hide Denotes, SkipSpace;
    space, item, more := [], [], [];
    if i == |v.items| {
      CloseTaken(t, RBRACKET, post);
      assert (t + post)[0] == t[0];
    } else {
      var lead;
      lead, item, more := NextItem(v, i, t);
      space := MarkTaken(lead, COMMA, item + (more + post));
      assert t + post == lead + (item + (more + post));
      assert (t + post)[0] == lead[0];
    }
  }

  lemma {:induction false} ItemsTaken(v: Value, i: nat, space: Text, item: Text, more: Text, post: Text)
    requires v.Arr? && i < |v.items| && AllWhite(space) && Denotes(v.items[i], item) && DenotesItems(v, i + 1, more)
    ensures ReadItems(space + (item + (more + post))) == Some((v.items[i..], post))
    decreases v, 1, |v.items| - i
  {
    hide Denotes, DenotesItems, SkipSpace, ReadValue, AllWhite, Ends;
    var t := more + post;
    var space2, item2, more2 := AfterItem(v, i + 1, more, post);
    StartOf(v.items[i], item);
    assert (item + t)[0] == item[0];
    ReadSkips(space, item + t);
    ValueTaken(v.items[i], item, t);
    if i + 1 < |v.items| {
      ItemsTaken(v, i + 1, space2, item2, more2, post);
      assert ([COMMA] + (space2 + (item2 + (more2 + post))))[1..] == space2 + (item2 + (more2 + post));
      assert v.items[i..] == [v.items[i]] + v.items[i + 1..];
    } else {
      assert ([RBRACKET] + post)[1..] == post;
      assert v.items[i..] == [v.items[i]];
    }
  }

  lemma ArrayReads(u: Text, w: Text)
    requires u != [] && u[0] == LBRACKET && SkipSpace(u[1..]) == w
    ensures w != [] && w[0] == RBRACKET ==> ReadValue(u) == Some((Arr([]), w[1..]))
    ensures !(w != [] && w[0] == RBRACKET) ==>
              ReadValue(u) == if ReadItems(w).None? then None else Some((Arr(ReadItems(w).value.0), ReadItems(w).value.1))
  {
    NotWhite(u);
    hide SkipSpace, ReadItems, ReadString, ReadMembers;
  }

  lemma ObjectReads(u: Text, w: Text)
    requires u != [] && u[0] == LBRACE && SkipSpace(u[1..]) == w
    ensures w != [] && w[0] == RBRACE ==> ReadValue(u) == Some((Obj(map[]), w[1..]))
    ensures !(w != [] && w[0] == RBRACE) ==>
              ReadValue(u) == var m := ReadMembers(w);
                              if m.None? || !Distinct(m.value.0) then None else Some((Obj(FromPairs(m.value.0)), m.value.1))
  {
    NotWhite(u);
    hide SkipSpace, ReadItems, ReadString, ReadMembers, FromPairs, Distinct;
  }

  lemma {:induction false} ArrayTaken(v: Value, t: Text, post: Text)
    requires v.Arr? && t != [] && t[0] == LBRACKET && DenotesItems(v, 0, t[1..])
    ensures ReadValue(t + post) == Some((v, post))
    decreases v, 2
  {
    hide Denotes, SkipSpace, ReadValue, ReadItems;
    var u, b := t + post, t[1..];
    assert u[0] == t[0] == LBRACKET && u[1..] == b + post;
    ArrayReads(u, SkipSpace(b + post));
    if v.items == [] {
      CloseTaken(b, RBRACKET, post);
      assert ([RBRACKET] + post)[1..] == post;
    } else {
      var lead, item, more := NextItem(v, 0, b);
      hide DenotesItems;
      StartOf(v.items[0], item);
      var rest := more + post;
      assert b + post == lead + (item + rest);
      assert (item + rest)[0] == item[0];
      ReadSkips(lead, item + rest);
      ItemsTaken(v, 0, [], item, more, post);
      assert [] + (item + rest) == item + rest;
      assert v.items[0..] == v.items;
    }
  }

  /** Each of the keys with its value, from `i` on. */
  function PairsFrom(v: Value, keys: seq<Text>, i: nat): (pairs: seq<(Text, Value)>)
    requires v.Obj? && i <= |keys| && forall k :: k in keys ==> k in v.members
    ensures |pairs| == |keys| - i && forall j :: 0 <= j < |pairs| ==> pairs[j] == (keys[i + j], v.members[keys[i + j]])
    decreases |keys| - i
  {
    if i == |keys| then [] else [(keys[i], v.members[keys[i]])] + PairsFrom(v, keys, i + 1)
  }

  lemma MembersAre(v: Value, keys: seq<Text>)
    requires v.Obj? && (forall k :: k in keys <==> k in v.members)
             && forall i, j :: 0 <= i < j < |keys| ==> keys[i] != keys[j]
    ensures Distinct(PairsFrom(v, keys, 0)) && FromPairs(PairsFrom(v, keys, 0)) == v.members
  {
    FromPairsHas(PairsFrom(v, keys, 0));
    SameMembers(v, keys, PairsFrom(v, keys, 0), FromPairs(PairsFrom(v, keys, 0)));
    hide FromPairs;
  }

  lemma SameMembers(v: Value, keys: seq<Text>, pairs: seq<(Text, Value)>, m: map<Text, Value>)
    requires v.Obj? && (forall k :: k in keys <==> k in v.members) && |pairs| == |keys|
    requires forall i :: 0 <= i < |keys| ==> pairs[i] == (keys[i], v.members[keys[i]])
    requires forall k :: k in m <==> exists i :: 0 <= i < |pairs| && pairs[i].0 == k
    requires forall i :: 0 <= i < |pairs| ==> pairs[i].0 in m && m[pairs[i].0] == pairs[i].1
    ensures m == v.members
  {
    forall k ensures k in m <==> k in v.members {
      if k in v.members {
        var i :| 0 <= i < |keys| && keys[i] == k;
        assert pairs[i].0 == k;
      }
    }
    forall k | k in m ensures m[k] == v.members[k] {
      var i :| 0 <= i < |pairs| && pairs[i].0 == k;
    }
  }

  lemma NextMember(v: Value, keys: seq<Text>, i: nat, t: Text) returns (lead: Text, member: Text, more: Text)
    requires v.Obj? && i < |keys| && (forall k :: k in keys ==> k in v.members) && DenotesMembers(v, keys, i, t)
    ensures Lead(i, lead) && DenotesMember(v, keys[i], member) && DenotesMembers(v, keys, i + 1, more)
            && t == lead + (member + more)
  {
    hide DenotesMember, Lead;
    lead, member, more :|
      Lead(i, lead) && DenotesMember(v, keys[i], member) && DenotesMembers(v, keys, i + 1, more)
          && t == lead + (member + more);
  }

  lemma AfterMember(v: Value, keys: seq<Text>, i: nat, t: Text, post: Text) returns (space: Text, member: Text, more: Text)
    requires v.Obj? && 0 < i <= |keys| && (forall k :: k in keys ==> k in v.members) && DenotesMembers(v, keys, i, t)
    ensures Ends(t + post)
    ensures i == |keys| ==> SkipSpace(t + post) == [RBRACE] + post
    ensures i < |keys| ==>
              && AllWhite(space) && DenotesMember(v, keys[i], member) && DenotesMembers(v, keys, i + 1, more)
              && SkipSpace(t + post) == [COMMA] + (space + (member + (more + post)))
  {
    hide DenotesMember, SkipSpace;
    space, member, more := [], [], [];
    if i == |keys| {
      CloseTaken(t, RBRACE, post);
      assert (t + post)[0] == t[0];
    } else {
      var lead;
      lead, member, more := NextMember(v, keys, i, t);
      space := MarkTaken(lead, COMMA, member + (more + post));
      assert t + post == lead + (member + (more + post));
      assert (t + post)[0] == lead[0];
    }
  }

  lemma MemberParts(v: Value, k: Text, t: Text) returns (key: Text, colon: Text, value: Text)
    requires v.Obj? && k in v.members && DenotesMember(v, k, t)
    ensures DenotesString(k, key) && Parts(colon, COLON) && Denotes(v.members[k], value) && t == key + (colon + value)
  {
    hide DenotesString, Parts, Denotes;
    key, colon, value :| DenotesString(k, key) && Parts(colon, ':' as int) && Denotes(v.members[k], value)
        && t == key + (colon + value);
  }

  /** One member, up to what comes after it. */
  lemma {:induction false} MemberTaken(v: Value, k: Text, member: Text, rest: Text) returns (colonAndMore: Text, value: Text)
    requires v.Obj? && k in v.members && DenotesMember(v, k, member) && Ends(rest)
    ensures var u := member + rest;
            && u != [] && u[0] == QUOTE && ReadString(u[1..]) == Some((k, colonAndMore))
            && var c := SkipSpace(colonAndMore);
               c != [] && c[0] == COLON && ReadValue(c[1..]) == Some((v.members[k], rest))
    decreases v, 0
  {
    hide DenotesString, Parts, Denotes, SkipSpace, ReadValue, ReadString, AllWhite, ReadMembers;
    var key, colon;
    key, colon, value := MemberParts(v, k, member);
    colonAndMore := colon + (value + rest);
    assert member + rest == key + colonAndMore;
    StringValueTaken(k, key, colonAndMore);
    assert (key + colonAndMore)[0] == key[0];
    var space := MarkTaken(colon, COLON, value + rest);
    assert ([COLON] + (space + (value + rest)))[1..] == space + (value + rest);
    StartOf(v.members[k], value);
    assert (value + rest)[0] == value[0];
    ReadSkips(space, value + rest);
    ValueTaken(v.members[k], value, rest);
  }

  lemma {:induction false} MembersTaken(v: Value, keys: seq<Text>, i: nat, space: Text, member: Text, more: Text, post: Text)
    requires v.Obj? && i < |keys| && (forall k :: k in keys ==> k in v.members)
    requires AllWhite(space) && DenotesMember(v, keys[i], member) && DenotesMembers(v, keys, i + 1, more)
    ensures ReadMembers(space + (member + (more + post))) == Some((PairsFrom(v, keys, i), post))
    decreases v, 1, |keys| - i
  {
    hide DenotesMember, DenotesMembers, SkipSpace, ReadValue, ReadString, AllWhite, Ends;
    var rest := more + post;
    var space2, member2, more2 := AfterMember(v, keys, i + 1, more, post);
    var tail, value := MemberTaken(v, keys[i], member, rest);
    var u := member + rest;
    assert !IsSpace(u[0]);
    ReadSkips(space, u);
    NotWhite(u);
    if i + 1 < |keys| {
      MembersTaken(v, keys, i + 1, space2, member2, more2, post);
      assert ([COMMA] + (space2 + (member2 + (more2 + post))))[1..] == space2 + (member2 + (more2 + post));
    } else {
      assert ([RBRACE] + post)[1..] == post;
      assert PairsFrom(v, keys, i) == [(keys[i], v.members[keys[i]])];
    }
  }

  lemma {:induction false} ObjectTaken(v: Value, keys: seq<Text>, t: Text, post: Text)
    requires v.Obj? && DenotesObject(v, keys, t)
    ensures ReadValue(t + post) == Some((v, post))
    decreases v, 2
  {
    hide Denotes, SkipSpace, ReadValue, ReadMembers, FromPairs, Distinct, PairsFrom, ReadString;
    var u, b := t + post, t[1..];
    assert u[0] == t[0] == LBRACE && u[1..] == b + post;
    ObjectReads(u, SkipSpace(b + post));
    MembersAre(v, keys);
    if keys == [] {
      CloseTaken(b, RBRACE, post);
      assert ([RBRACE] + post)[1..] == post;
      assert v.members == map[];
    } else {
      FirstMemberTaken(v, keys, b, post);
    }
  }

  lemma MemberStart(v: Value, k: Text, t: Text)
    requires v.Obj? && k in v.members && DenotesMember(v, k, t)
    ensures t != [] && t[0] == QUOTE
  {
    var key, colon, value := MemberParts(v, k, t);
  }

  lemma {:induction false} FirstMemberTaken(v: Value, keys: seq<Text>, b: Text, post: Text)
    requires v.Obj? && keys != [] && (forall k :: k in keys ==> k in v.members) && DenotesMembers(v, keys, 0, b)
    ensures var w := SkipSpace(b + post); w != [] && w[0] == QUOTE && ReadMembers(w) == Some((PairsFrom(v, keys, 0), post))
    decreases v, 1, |keys| + 1
  {
    hide SkipSpace, ReadMembers, PairsFrom, ReadString, ReadValue, DenotesMembers, DenotesMember;
    var lead, member, more := NextMember(v, keys, 0, b);
    var rest := more + post;
    MemberStart(v, keys[0], member);
    assert b + post == lead + (member + rest);
    assert (member + rest)[0] == member[0];
    ReadSkips(lead, member + rest);
    MembersTaken(v, keys, 0, [], member, more, post);
    assert [] + (member + rest) == member + rest;
  }

  /** A value that is written is read, and nothing after it. */
  lemma {:induction false} ValueTaken(v: Value, t: Text, post: Text)
    requires Denotes(v, t) && Ends(post)
    ensures ReadValue(t + post) == Some((v, post))
    decreases v, 3
  {
    match v {
      case Null => WordTaken(NULL_TEXT, post);
      case Bool(b) => WordTaken(if b then TRUE_TEXT else FALSE_TEXT, post);
      case Int(n) => NumberTaken(n, t, post);
      case Str(s) => StringValueTaken(s, t, post);
      case Arr(_) => ArrayTaken(v, t, post);
      case Obj(_) =>
        var keys :| DenotesObject(v, keys, t);
        ObjectTaken(v, keys, t, post);
    }
    hide ReadValue, DenotesObject, DenotesItems, DenotesString;
  }

  // --- what was read was written -------------------------------------------------------------------

  lemma IntegerFound(u: Text) returns (t: Text)
    requires ReadNumber(u).Some?
    ensures var (v, rest) := ReadNumber(u).value; u == t + rest && Denotes(v, t)
  {
    var start := if u != [] && u[0] == DASH then 1 else 0;
    var end := CanonicalDigitsEnd(u, start).value;
    t := u[..end];
    assert u == t + u[end..];
    assert (if t[0] == '-' as int then t[1..] else t) == u[start..end];
    assert IsDigit(u[start]);
    hide Num, IsCanonicalDigits, CanonicalDigitsEnd;
  }

  lemma WordFound(u: Text, w: Text)
    requires StartsWith(u, w)
    ensures u == w + u[|w|..]
  {
  }

  /** White space, and then what was skipped to. */
  lemma ClosesBy(t: Text, c: Code) returns (close: Text)
    requires SkipSpace(t) != [] && SkipSpace(t)[0] == c
    ensures Closes(close, c) && t == close + SkipSpace(t)[1..]
  {
    var gap := SkippedWhite(t);
    var u := SkipSpace(t);
    close := gap + [c];
    assert u == [c] + u[1..];
  }

  lemma MarkFound(t: Text, c: Code, rest: Text, space: Text) returns (mark: Text)
    requires SkipSpace(t) != [] && SkipSpace(t)[0] == c && SkipSpace(t)[1..] == space + rest && AllWhite(space)
    ensures Parts(mark, c) && t == mark + rest
  {
    var gap := SkippedWhite(t);
    var u := SkipSpace(t);
    assert u == [c] + (space + rest);
    mark := gap + [c] + space;
    assert mark[..|gap|] == gap && mark[|gap|] == c && mark[|gap| + 1..] == space;
    assert t == mark + rest;
  }

  lemma MoreItems(v: Value, i: nat, lead: Text, item: Text, more: Text)
    requires v.Arr? && i < |v.items| && Lead(i, lead) && Denotes(v.items[i], item) && DenotesItems(v, i + 1, more)
    ensures DenotesItems(v, i, lead + (item + more))
  {
    hide Lead, Denotes;
  }

  lemma {:induction false} ItemsRead(text: Text, all: seq<Value>, i: nat) returns (space: Text, item: Text, more: Text)
    requires ReadItems(text).Some? && i < |all| && all[i..] == ReadItems(text).value.0
    ensures AllWhite(space) && Denotes(all[i], item) && DenotesItems(Arr(all), i + 1, more)
    ensures text == space + (item + (more + ReadItems(text).value.1))
    decreases |text|, 4
  {
    hide SkipSpace, ReadValue, Denotes, AllWhite, Lead, Parts;
    space, item := ValueFound(text);
    var (v, after) := ReadValue(text).value;
    var u, post := SkipSpace(after), ReadItems(text).value.1;
    assert all[i] == all[i..][0] == v;
    if u[0] == RBRACKET {
      more := ClosesBy(after, RBRACKET);
      assert i + 1 == |all|;
    } else {
      assert all[i + 1..] == all[i..][1..] == ReadItems(u[1..]).value.0;
      assert |all[i..]| > 1;
      var s2, item2, more2 := ItemsRead(u[1..], all, i + 1);
      var lead := MarkFound(after, COMMA, item2 + (more2 + post), s2);
      LeadIs(i + 1, lead);
      MoreItems(Arr(all), i + 1, lead, item2, more2);
      more := lead + (item2 + more2);
      assert after == more + post;
    }
  }

  lemma LeadIs(i: nat, lead: Text)
    requires if i == 0 then AllWhite(lead) else Parts(lead, COMMA)
    ensures Lead(i, lead)
  {
  }

  lemma Nested(c: Code, gap: Text, space: Text, first: Text, more: Text, rest: Text)
    ensures ([c] + ((gap + space) + (first + more))) + rest == [c] + (gap + (space + (first + (more + rest))))
  {
    assert (gap + space) + (first + more) + rest == gap + (space + (first + (more + rest)));
  }

  lemma ArrayJoined(vs: seq<Value>, gap: Text, space: Text, item: Text, more: Text)
    requires vs != [] && AllWhite(gap) && AllWhite(space) && Denotes(vs[0], item) && DenotesItems(Arr(vs), 1, more)
    ensures Denotes(Arr(vs), [LBRACKET] + ((gap + space) + (item + more)))
  {
    hide AllWhite, Lead, Denotes;
    WhiteBoth(gap, space);
    LeadIs(0, gap + space);
    MoreItems(Arr(vs), 0, gap + space, item, more);
    ArrayDenotes(vs, (gap + space) + (item + more));
  }

  lemma EmptyArrayDenotes(close: Text)
    requires Closes(close, RBRACKET)
    ensures Denotes(Arr([]), [LBRACKET] + close)
  {
    ArrayDenotes([], close);
  }

  lemma {:induction false} ArrayFound(u: Text) returns (t: Text)
    requires SkipSpace(u) == u && u != [] && u[0] == LBRACKET && ReadValue(u).Some?
    ensures var (v, rest) := ReadValue(u).value; u == t + rest && Denotes(v, t)
    decreases |u|, 2
  {
    var b := u[1..];
    assert u == [LBRACKET] + b;
    ArrayReads(u, SkipSpace(b));
    hide SkipSpace, ReadValue, AllWhite, Denotes, DenotesItems, ReadItems, Closes;
    var rest := ReadValue(u).value.1;
    var w := SkipSpace(b);
    if w != [] && w[0] == RBRACKET {
      var close := ClosesBy(b, RBRACKET);
      EmptyArrayDenotes(close);
      t := [LBRACKET] + close;
      assert u == t + rest;
    } else {
      var vs := ReadItems(w).value.0;
      assert vs[0..] == vs;
      var space, item, more := ItemsRead(w, vs, 0);
      var gap := SkippedWhite(b);
      ArrayJoined(vs, gap, space, item, more);
      t := [LBRACKET] + ((gap + space) + (item + more));
      Nested(LBRACKET, gap, space, item, more, rest);
    }
  }

  lemma ArrayDenotes(vs: seq<Value>, b: Text)
    requires DenotesItems(Arr(vs), 0, b)
    ensures Denotes(Arr(vs), [LBRACKET] + b)
  {
    assert ([LBRACKET] + b)[1..] == b;
  }

  lemma WhiteBoth(a: Text, b: Text)
    requires AllWhite(a) && AllWhite(b)
    ensures AllWhite(a + b)
  {
  }

  lemma MoreMembers(v: Value, keys: seq<Text>, i: nat, lead: Text, member: Text, more: Text)
    requires v.Obj? && i < |keys| && (forall k :: k in keys ==> k in v.members)
    requires Lead(i, lead) && DenotesMember(v, keys[i], member) && DenotesMembers(v, keys, i + 1, more)
    ensures DenotesMembers(v, keys, i, lead + (member + more))
  {
    hide Lead, DenotesMember;
  }

  lemma MemberDenotes(v: Value, k: Text, key: Text, colon: Text, value: Text)
    requires v.Obj? && k in v.members && DenotesString(k, key) && Parts(colon, COLON) && Denotes(v.members[k], value)
    ensures DenotesMember(v, k, key + (colon + value))
  {
    hide DenotesString, Parts, Denotes;
  }

  lemma StringFound(u: Text) returns (t: Text)
    requires u != [] && u[0] == QUOTE && ReadString(u[1..]).Some?
    ensures var (s, rest) := ReadString(u[1..]).value; u == t + rest && DenotesString(s, t)
  {
    hide DenotesCharacters, ReadString, DenotesString;
    var rest := ReadString(u[1..]).value.1;
    var b := StringTaken(u[1..]);
    QuotesDenote(ReadString(u[1..]).value.0, b);
    t := [QUOTE] + b + [QUOTE];
    assert u == [QUOTE] + u[1..];
    assert t + rest == [QUOTE] + (b + [QUOTE] + rest);
  }

  lemma QuotesDenote(s: Text, b: Text)
    requires DenotesCharacters(s, b)
    ensures DenotesString(s, [QUOTE] + b + [QUOTE])
  {
    hide DenotesCharacters;
    var t := [QUOTE] + b + [QUOTE];
    assert t[1..|t| - 1] == b;
  }

  /** A member at its quotation mark. */
  lemma {:induction false} MemberFound(t: Text, v: Value, k: Text, after: Text) returns (member: Text)
    requires t != [] && t[0] == QUOTE && v.Obj? && k in v.members
    requires ReadString(t[1..]).Some? && ReadString(t[1..]).value.0 == k
    requires var c := SkipSpace(ReadString(t[1..]).value.1); c != [] && c[0] == COLON && ReadValue(c[1..]) == Some((v.members[k], after))
    ensures DenotesMember(v, k, member) && t == member + after
    decreases |t|, 0
  {
    hide SkipSpace, ReadValue, ReadString, Denotes, DenotesString, AllWhite, Parts, DenotesMember;
    var key := StringFound(t);
    var tail := ReadString(t[1..]).value.1;
    var c := SkipSpace(tail);
    var space, value := ValueFound(c[1..]);
    var colon := MarkFound(tail, COLON, value + after, space);
    MemberDenotes(v, k, key, colon, value);
    member := key + (colon + value);
    assert t == member + after;
  }

  lemma {:induction false} MembersRead(text: Text, v: Value, keys: seq<Text>, i: nat) returns (space: Text,
                                       member: Text, more: Text)
    requires ReadMembers(text).Some? && v.Obj? && i < |keys| && (forall k :: k in keys ==> k in v.members)
    requires PairsFrom(v, keys, i) == ReadMembers(text).value.0
    ensures AllWhite(space) && DenotesMember(v, keys[i], member) && DenotesMembers(v, keys, i + 1, more)
    ensures text == space + (member + (more + ReadMembers(text).value.1))
    decreases |text|, 1
  {
    hide SkipSpace, ReadValue, ReadString, DenotesMember, AllWhite, Lead, Parts;
    space := SkippedWhite(text);
    var t := SkipSpace(text);
    var k := ReadString(t[1..]).value.0;
    var c := SkipSpace(ReadString(t[1..]).value.1);
    var (value, after) := ReadValue(c[1..]).value;
    var u, post := SkipSpace(after), ReadMembers(text).value.1;
    FirstPair(v, keys, i, text, k, value);
    member := MemberFound(t, v, k, after);
    if u[0] == RBRACE {
      more := ClosesBy(after, RBRACE);
    } else {
      var s2, member2, more2 := MembersRead(u[1..], v, keys, i + 1);
      var lead := MarkFound(after, COMMA, member2 + (more2 + post), s2);
      LeadIs(i + 1, lead);
      MoreMembers(v, keys, i + 1, lead, member2, more2);
      more := lead + (member2 + more2);
      assert after == more + post;
    }
  }

  /** The first pair read, and the rest. */
  lemma FirstPair(v: Value, keys: seq<Text>, i: nat, text: Text, k: Text, value: Value)
    requires v.Obj? && i < |keys| && (forall k :: k in keys ==> k in v.members)
    requires ReadMembers(text).Some? && PairsFrom(v, keys, i) == ReadMembers(text).value.0
    requires var t := SkipSpace(text); t != [] && t[0] == QUOTE && ReadString(t[1..]).Some? && ReadString(t[1..]).value.0 == k
    requires var c := SkipSpace(ReadString(SkipSpace(text)[1..]).value.1);
             c != [] && c[0] == COLON && ReadValue(c[1..]).Some? && ReadValue(c[1..]).value.0 == value
    ensures keys[i] == k && v.members[k] == value
    ensures var c := SkipSpace(ReadString(SkipSpace(text)[1..]).value.1); var u := SkipSpace(ReadValue(c[1..]).value.1);
            && u != [] && (u[0] == RBRACE <==> i + 1 == |keys|)
            && (u[0] != RBRACE ==> u[0] == COMMA && ReadMembers(u[1..]).Some? && PairsFrom(v, keys, i + 1) == ReadMembers(u[1..]).value.0)
  {
    hide SkipSpace, ReadValue, ReadString;
    var pairs := PairsFrom(v, keys, i);
    assert pairs[0] == (keys[i], v.members[keys[i]]) && pairs[1..] == PairsFrom(v, keys, i + 1);
  }

  lemma {:induction false} ObjectFound(u: Text) returns (t: Text)
    requires SkipSpace(u) == u && u != [] && u[0] == LBRACE && ReadValue(u).Some?
    ensures var (v, rest) := ReadValue(u).value; u == t + rest && Denotes(v, t)
    decreases |u|, 2
  {
    var b := u[1..];
    assert u == [LBRACE] + b;
    var w := SkipSpace(b);
    ObjectReads(u, w);
    hide SkipSpace, ReadValue, AllWhite, ReadMembers, Distinct, FromPairs, Denotes, DenotesMember, DenotesMembers,
         Closes, PairsFrom;
    var v, rest := ReadValue(u).value.0, ReadValue(u).value.1;
    if w != [] && w[0] == RBRACE {
      var close := ClosesBy(b, RBRACE);
      EmptyDenotes(close);
      t := [LBRACE] + close;
      assert u == t + rest;
    } else {
      var keys := KeysOf(v, ReadMembers(w).value.0);
      assert keys != [];
      t := ObjectAt(b, w, v, keys, rest);
    }
  }

  lemma {:induction false} ObjectAt(b: Text, w: Text, v: Value, keys: seq<Text>, rest: Text) returns (t: Text)
    requires SkipSpace(b) == w && ReadMembers(w).Some? && ReadMembers(w).value.1 == rest && v.Obj? && keys != []
    requires (forall k :: k in keys <==> k in v.members) && (forall i, j :: 0 <= i < j < |keys| ==> keys[i] != keys[j])
    requires PairsFrom(v, keys, 0) == ReadMembers(w).value.0
    ensures Denotes(v, t) && t + rest == [LBRACE] + b
    decreases |w|, 2
  {
    hide SkipSpace, ReadValue, AllWhite, ReadMembers, Denotes, DenotesMember, DenotesMembers, PairsFrom;
    var space, member, more := MembersRead(w, v, keys, 0);
    var gap := SkippedWhite(b);
    ObjectJoined(v, keys, gap, space, member, more);
    t := [LBRACE] + ((gap + space) + (member + more));
    Nested(LBRACE, gap, space, member, more, rest);
  }

  lemma ObjectJoined(v: Value, keys: seq<Text>, gap: Text, space: Text, member: Text, more: Text)
    requires v.Obj? && keys != [] && (forall k :: k in keys <==> k in v.members)
             && (forall i, j :: 0 <= i < j < |keys| ==> keys[i] != keys[j])
    requires AllWhite(gap) && AllWhite(space) && DenotesMember(v, keys[0], member) && DenotesMembers(v, keys, 1, more)
    ensures Denotes(v, [LBRACE] + ((gap + space) + (member + more)))
  {
    hide AllWhite, Lead, Denotes, DenotesMember;
    WhiteBoth(gap, space);
    LeadIs(0, gap + space);
    MoreMembers(v, keys, 0, gap + space, member, more);
    ObjectDenotes(v, keys, (gap + space) + (member + more));
  }

  lemma EmptyDenotes(close: Text)
    requires Closes(close, RBRACE)
    ensures Denotes(Obj(map[]), [LBRACE] + close)
  {
    assert ([LBRACE] + close)[1..] == close;
    assert DenotesObject(Obj(map[]), [], [LBRACE] + close);
  }

  lemma ObjectDenotes(v: Value, keys: seq<Text>, b: Text)
    requires v.Obj? && (forall k :: k in keys <==> k in v.members)
             && (forall i, j :: 0 <= i < j < |keys| ==> keys[i] != keys[j])
    requires DenotesMembers(v, keys, 0, b)
    ensures Denotes(v, [LBRACE] + b)
  {
    hide DenotesMembers;
    assert ([LBRACE] + b)[1..] == b;
    assert DenotesObject(v, keys, [LBRACE] + b);
  }

  /** The keys that were read. */
  lemma KeysOf(v: Value, pairs: seq<(Text, Value)>) returns (keys: seq<Text>)
    requires v == Obj(FromPairs(pairs)) && Distinct(pairs)
    ensures |keys| == |pairs| && (forall k :: k in keys <==> k in v.members)
            && (forall i, j :: 0 <= i < j < |keys| ==> keys[i] != keys[j])
    ensures PairsFrom(v, keys, 0) == pairs
  {
    FromPairsHas(pairs);
    keys := seq(|pairs|, i requires 0 <= i < |pairs| => pairs[i].0);
    hide FromPairs;
    forall k ensures k in keys <==> k in v.members {
      if k in v.members {
        var i :| 0 <= i < |pairs| && pairs[i].0 == k;
        assert keys[i] == k;
      }
    }
  }

  /** A value that was read is written there, after white space, and before what is left. */
  lemma {:induction false} ValueFound(text: Text) returns (gap: Text, t: Text)
    requires ReadValue(text).Some?
    ensures var (v, rest) := ReadValue(text).value; AllWhite(gap) && Denotes(v, t) && text == gap + (t + rest)
    decreases |text|, 3
  {
    gap := SkippedWhite(text);
    var u := SkipSpace(text);
    NotWhite(u);
    assert ReadValue(text) == ReadValue(u);
    if u[0] == LBRACKET {
      t := ArrayFound(u);
    } else if u[0] == LBRACE {
      t := ObjectFound(u);
    } else {
      t := PlainFound(u);
    }
    hide ReadValue, SkipSpace, Denotes;
  }

  lemma PlainFound(u: Text) returns (t: Text)
    requires SkipSpace(u) == u && u != [] && u[0] != LBRACKET && u[0] != LBRACE && ReadValue(u).Some?
    ensures var (v, rest) := ReadValue(u).value; u == t + rest && Denotes(v, t)
  {
    hide SkipSpace, ReadNumber, ReadString, ReadItems, ReadMembers, StartsWith, DenotesString;
    if u[0] == QUOTE {
      t := StringFound(u);
    } else if StartsWith(u, NULL_TEXT) {
      WordFound(u, NULL_TEXT);
      t := NULL_TEXT;
    } else if StartsWith(u, TRUE_TEXT) {
      WordFound(u, TRUE_TEXT);
      t := TRUE_TEXT;
    } else if StartsWith(u, FALSE_TEXT) {
      WordFound(u, FALSE_TEXT);
      t := FALSE_TEXT;
    } else {
      t := IntegerFound(u);
    }
  }

  // --- documents -------------------------------------------------------------------------------------

  lemma DocumentTaken(v: Value, t: Text)
    requires IsDocument(v, t)
    ensures ReadDocument(t) == Some(v)
  {
    var before: Text, body: Text, after: Text :| AllWhite(before) && Denotes(v, body) && AllWhite(after)
        && t == before + (body + after);
    hide Denotes, ReadValue;
    StartOf(v, body);
    assert (body + after)[0] == body[0];
    ReadSkips(before, body + after);
    if after != [] { LettersAre(after[0]); }
    ValueTaken(v, body, after);
    SkipsWhite(after, []);
    assert after + [] == after;
  }

  lemma DocumentFound(t: Text)
    requires ReadDocument(t).Some?
    ensures IsDocument(ReadDocument(t).value, t)
  {
    var gap, body := ValueFound(t);
    var rest := ReadValue(t).value.1;
    var after := SkippedWhite(rest);
    hide Denotes, ReadValue, SkipSpace;
    assert rest == after;
  }

  /** The reader takes exactly the texts that denote a value, each as the value it denotes. */
  lemma ReaderTakes(v: Value, t: Text)
    ensures ReadDocument(t) == Some(v) <==> IsDocument(v, t)
  {
    hide ReadDocument, IsDocument;
    if IsDocument(v, t) { DocumentTaken(v, t); }
    if ReadDocument(t) == Some(v) { DocumentFound(t); }
  }

  /** No text denotes two values. */
  lemma OneMeaning(v: Value, w: Value, t: Text)
    requires IsDocument(v, t) && IsDocument(w, t)
    ensures v == w
  {
    hide IsDocument, ReadDocument;
    ReaderTakes(v, t);
    ReaderTakes(w, t);
  }

  /** What loads: the texts of one document that nests at most sixty-four deep and whose value has a canonical text. */
  lemma LoadExactly(t: Text, v: Value)
    ensures DepthScan.LoadText(t) == Ok(v) <==>
              IsDocument(v, t) && DepthScan.DepthAtMost(v, 64) && exists c :: CanonicalForm.Spells(v, c)
  {
    hide IsDocument, ReadDocument, Render, CanonicalForm.Spells, DepthScan.TooDeep, DepthScan.DepthAtMost;
    ReaderTakes(v, t);
    if ReadDocument(t) == Some(v) {
      DepthScan.ScannerIsExact(t);
      if Render(v).Ok? { CanonicalForm.WriterSpells(v, Render(v).value); }
      if c :| CanonicalForm.Spells(v, c) { CanonicalForm.WriterSpells(v, c); }
    }
  }
}
