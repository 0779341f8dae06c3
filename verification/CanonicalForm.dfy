/** Canonical text described by itself: which text spells a value, in the words of spec/canonicalization.md
    and without the writer's own functions, and which values have none and why. The writer of vfy/canon.py
    writes exactly these. */
module CanonicalForm {
  import opened Wrappers
  import opened Text
  import opened Values
  import opened Canon
  import Load

  // --- spelling ----------------------------------------------------------------------------------------

  /** A lower-case hexadecimal digit and its value. */
  predicate HexSpells(n: int, c: Code)
  {
    || (0 <= n <= 9 && c == '0' as int + n)
    || (10 <= n <= 15 && c == 'a' as int + (n - 10))
  }

  /** One character inside a string: the quotation mark, the backslash and five control characters in two
      characters, any other control character as \u and four digits, and everything else as itself; a surrogate
      not at all. */
  ghost predicate SpellsCharacter(c: Code, p: Text)
  {
    if c == '\"' as int then p == ['\\' as int, '\"' as int]
    else if c == '\\' as int then p == ['\\' as int, '\\' as int]
    else if c == 8 then p == ['\\' as int, 'b' as int]
    else if c == 9 then p == ['\\' as int, 't' as int]
    else if c == 10 then p == ['\\' as int, 'n' as int]
    else if c == 12 then p == ['\\' as int, 'f' as int]
    else if c == 13 then p == ['\\' as int, 'r' as int]
    else if c <= 31 then
      |p| == 6 && p[..4] == ['\\' as int, 'u' as int, '0' as int, '0' as int]
      && exists h, l :: HexSpells(h, p[4]) && HexSpells(l, p[5]) && c == 16 * h + l
    else p == [c] && !(0xD800 <= c <= 0xDFFF)
  }

  ghost predicate SpellsCharacters(s: Text, t: Text)
    decreases |s|
  {
    if s == [] then t == []
    else exists n :: 0 <= n <= |t| && SpellsCharacter(s[0], t[..n]) && SpellsCharacters(s[1..], t[n..])
  }

  ghost predicate SpellsString(s: Text, t: Text)
  {
    |t| >= 2 && t[0] == t[|t| - 1] == '\"' as int && SpellsCharacters(s, t[1..|t| - 1])
  }

  /** Decimal digits without a leading zero, a minus sign before a negative number. */
  ghost predicate SpellsInteger(n: int, t: Text)
  {
    && -9007199254740991 <= n <= 9007199254740991 && t != []
    && var digits := if n < 0 then t[1..] else t;
       (n < 0 ==> t[0] == '-' as int) && IsCanonicalDigits(digits) && Num(digits) == (if n < 0 then -n else n)
  }

  /** The parts with a comma between each two. */
  ghost function Joined(parts: seq<Text>): Text
  {
    if parts == [] then [] else if |parts| == 1 then parts[0] else parts[0] + [',' as int] + Joined(parts[1..])
  }

  /** `a` comes before `b`: at the first place where they differ it has the lower code point, or it ends there. */
  ghost predicate Before(a: Text, b: Text)
  {
    exists i :: 0 <= i <= |a| && i < |b| && a[..i] == b[..i] && (i == |a| || a[i] < b[i])
  }

  /** All the keys, each once, in order. */
  ghost predicate InOrder(keys: seq<Text>, m: map<Text, Value>)
  {
    && (forall k :: k in keys <==> k in m)
    && (forall i, j :: 0 <= i < j < |keys| ==> Before(keys[i], keys[j]))
  }

  /** A quoted key, a colon and the member's value. */
  ghost predicate SpellsMember(v: Value, k: Text, t: Text)
    requires v.Obj? && k in v.members
    decreases v, 0
  {
    exists n :: 0 <= n < |t| && SpellsString(k, t[..n]) && t[n] == ':' as int && Spells(v.members[k], t[n + 1..])
  }

  ghost predicate SpellsItems(v: Value, parts: seq<Text>)
    requires v.Arr?
    decreases v, 0
  {
    |parts| == |v.items| && forall i :: 0 <= i < |v.items| ==> Spells(v.items[i], parts[i])
  }

  ghost predicate SpellsMembers(v: Value, keys: seq<Text>, parts: seq<Text>)
    requires v.Obj?
    decreases v, 1
  {
    && InOrder(keys, v.members) && |parts| == |keys|
    && forall i :: 0 <= i < |keys| ==> keys[i] in v.members && SpellsMember(v, keys[i], parts[i])
  }

  ghost predicate SpellsArray(v: Value, t: Text)
    requires v.Arr?
    decreases v, 2
  {
    exists parts :: SpellsItems(v, parts) && t == ['[' as int] + Joined(parts) + [']' as int]
  }

  ghost predicate SpellsObject(v: Value, t: Text)
    requires v.Obj?
    decreases v, 2
  {
    exists keys, parts :: SpellsMembers(v, keys, parts) && t == ['{' as int] + Joined(parts) + ['}' as int]
  }

  /** The text spells the value. */
  ghost predicate Spells(v: Value, t: Text)
    decreases v, 3
  {
    match v
    case Null => t == ['n' as int, 'u' as int, 'l' as int, 'l' as int]
    case Bool(b) =>
      t == if b then ['t' as int, 'r' as int, 'u' as int, 'e' as int] else ['f' as int, 'a' as int, 'l' as int,
          's' as int, 'e' as int]
    case Int(n) => SpellsInteger(n, t)
    case Str(s) => SpellsString(s, t)
    case Arr(_) => SpellsArray(v, t)
    case Obj(_) => SpellsObject(v, t)
    case _ => false
  }

  // --- the writer's pieces -----------------------------------------------------------------------------

  lemma HexSpelled(n: int, c: Code)
    ensures HexSpells(n, c) <==> 0 <= n < 16 && c == HexDigit(n)
  {
  }

  lemma CharacterSpelled(c: Code, p: Text)
    ensures SpellsCharacter(c, p) <==> !IsSurrogate(c) && p == Escaped(c)
  {
    if c < SPACE && NamedEscape(c).None? {
      var e := Escaped(c);
      HexSpelled(c / 16, e[4]);
      HexSpelled(c % 16, e[5]);
      assert e[..4] == ['\\' as int, 'u' as int, '0' as int, '0' as int];
      if SpellsCharacter(c, p) {
        var h, l :| HexSpells(h, p[4]) && HexSpells(l, p[5]) && c == 16 * h + l;
        HexSpelled(h, p[4]);
        HexSpelled(l, p[5]);
        assert h == c / 16 && l == c % 16;
        assert p == p[..4] + [p[4], p[5]];
      }
    }
  }

  lemma {:induction false} CharactersSpelled(s: Text, t: Text)
    ensures SpellsCharacters(s, t) <==> SurrogateFree(s) && t == Escapes(s)
    decreases |s|
  {
    hide SpellsCharacter, Escaped;
    if s != [] {
      var e := Escaped(s[0]);
      if SpellsCharacters(s, t) {
        var n :| 0 <= n <= |t| && SpellsCharacter(s[0], t[..n]) && SpellsCharacters(s[1..], t[n..]);
        CharacterSpelled(s[0], t[..n]);
        CharactersSpelled(s[1..], t[n..]);
        assert t == t[..n] + t[n..];
      }
      if SurrogateFree(s) && t == Escapes(s) {
        CharacterSpelled(s[0], e);
        CharactersSpelled(s[1..], Escapes(s[1..]));
        assert t[..|e|] == e && t[|e|..] == Escapes(s[1..]);
        assert SpellsCharacter(s[0], t[..|e|]) && SpellsCharacters(s[1..], t[|e|..]);
      }
    }
  }

  lemma StringSpelled(s: Text, t: Text)
    ensures SpellsString(s, t) <==> RenderString(s) == Ok(t)
  {
    if |t| >= 2 {
      CharactersSpelled(s, t[1..|t| - 1]);
      if t[0] == t[|t| - 1] == QUOTE { assert t == [QUOTE] + t[1..|t| - 1] + [QUOTE]; }
    }
    var r := [QUOTE] + Escapes(s) + [QUOTE];
    assert r[1..|r| - 1] == Escapes(s);
  }

  lemma IntegerSpelled(n: int, t: Text)
    ensures SpellsInteger(n, t) <==> IntegerText(n) == Ok(t)
  {
    var d := Digits(if n < 0 then -n else n);
    if SpellsInteger(n, t) {
      var digits := if n < 0 then t[1..] else t;
      DigitsIsInverse(digits);
      if n < 0 { assert t == [DASH] + digits; }
    }
    if IntegerText(n) == Ok(t) && n < 0 { assert t[1..] == d; }
  }

  lemma SameFirst(a: Text, b: Text, i: int)
    requires 0 < i <= |a| && i <= |b| && a[..i] == b[..i]
    ensures a[0] == b[0]
  {
    assert a[..i][0] == b[..i][0];
  }

  lemma {:induction false} BeforeIsLess(a: Text, b: Text)
    ensures Before(a, b) <==> TextLess(a, b)
  {
    if a != [] && b != [] {
      BeforeIsLess(a[1..], b[1..]);
      if a[0] == b[0] {
        if Before(a[1..], b[1..]) {
          var i :| 0 <= i <= |a[1..]| && i < |b[1..]| && a[1..][..i] == b[1..][..i]
              && (i == |a[1..]| || a[1..][i] < b[1..][i]);
          assert a[..i + 1] == [a[0]] + a[1..][..i] && b[..i + 1] == [b[0]] + b[1..][..i];
        }
        if Before(a, b) {
          var i :| 0 <= i <= |a| && i < |b| && a[..i] == b[..i] && (i == |a| || a[i] < b[i]);
          assert i > 0;
          assert a[1..][..i - 1] == a[..i][1..] && b[1..][..i - 1] == b[..i][1..];
        }
      } else {
        if a[0] < b[0] { assert a[..0] == b[..0]; }
        if Before(a, b) {
          var i :| 0 <= i <= |a| && i < |b| && a[..i] == b[..i] && (i == |a| || a[i] < b[i]);
          if i > 0 { SameFirst(a, b, i); }
        }
      }
    } else if b != [] {
      assert a[..0] == b[..0];
    }
  }

  lemma HeadIsIn(a: seq<Text>)
    requires a != []
    ensures a[0] in a
  {
  }

  lemma {:induction false} SameOrder(a: seq<Text>, b: seq<Text>)
    requires forall i, j :: 0 <= i < j < |a| ==> TextLess(a[i], a[j])
    requires forall i, j :: 0 <= i < j < |b| ==> TextLess(b[i], b[j])
    requires forall k :: k in a <==> k in b
    ensures a == b
  {
    if a == [] {
      if b != [] { HeadIsIn(b); }
    } else {
      assert a[0] in b && b[0] in b && b[0] in a;
      var j :| 0 <= j < |b| && b[j] == a[0];
      var i :| 0 <= i < |a| && a[i] == b[0];
      TextLessTotal(a[0], b[0]);
      assert a[0] == b[0];
      hide TextLess;
      forall k ensures k in a[1..] <==> k in b[1..] {
        TailHas(a, k);
        TailHas(b, k);
      }
      SameOrder(a[1..], b[1..]);
    }
  }

  lemma TailHas(a: seq<Text>, k: Text)
    requires a != [] && forall i, j :: 0 <= i < j < |a| ==> TextLess(a[i], a[j])
    ensures k in a[1..] <==> k in a && k != a[0]
  {
    TextLessTotal(a[0], a[0]);
    hide TextLess;
    if k in a && k != a[0] {
      var i :| 0 <= i < |a| && a[i] == k;
      assert a[1..][i - 1] == k;
    }
    if k in a[1..] {
      var i :| 0 <= i < |a[1..]| && a[1..][i] == k;
      assert a[i + 1] == k && TextLess(a[0], a[i + 1]);
    }
  }

  lemma OrderIsSorted(keys: seq<Text>, m: map<Text, Value>)
    ensures InOrder(keys, m) <==> keys == Sorted(m.Keys)
  {
    hide Sorted, Before, TextLess;
    forall i, j | 0 <= i < |keys| && 0 <= j < |keys| ensures Before(keys[i], keys[j]) <==> TextLess(keys[i], keys[j]) {
      BeforeIsLess(keys[i], keys[j]);
    }
    if InOrder(keys, m) { SameOrder(keys, Sorted(m.Keys)); }
  }

  // --- containers --------------------------------------------------------------------------------------

  /** The text after `i` parts: a comma if there is one before it and one after, and the rest. */
  ghost function Tail(parts: seq<Text>, i: nat, close: Code): Text
    requires i <= |parts|
  {
    (if 0 < i < |parts| then [COMMA] else []) + Joined(parts[i..]) + [close]
  }

  lemma TailStep(parts: seq<Text>, i: nat, close: Code)
    requires i < |parts|
    ensures Tail(parts, i, close) == Separator(i) + (parts[i] + Tail(parts, i + 1, close))
  {
    assert parts[i..][1..] == parts[i + 1..] && parts[i..][0] == parts[i];
  }

  lemma {:induction false} ItemsJoin(v: Value, parts: seq<Text>, i: nat)
    requires v.Arr? && |parts| == |v.items| && i <= |parts|
    requires forall j :: 0 <= j < |parts| ==> Render(v.items[j]) == Ok(parts[j])
    ensures RenderItems(v, i) == Ok(Tail(parts, i, RBRACKET))
    decreases |parts| - i
  {
    hide Render;
    if i < |parts| {
      ItemsJoin(v, parts, i + 1);
      TailStep(parts, i, RBRACKET);
    } else {
      assert parts[i..] == [] && [] + [] + [RBRACKET] == [RBRACKET];
    }
  }

  lemma {:induction false} ItemsRender(v: Value, i: nat)
    requires v.Arr? && i <= |v.items| && RenderItems(v, i).Ok?
    ensures forall j :: i <= j < |v.items| ==> Render(v.items[j]).Ok?
    decreases |v.items| - i
  {
    hide Render;
    if i < |v.items| { ItemsRender(v, i + 1); }
  }

  /** A key, a colon and a value, as the writer writes them. */
  ghost function MemberRendering(v: Value, k: Text): Rendering
    requires v.Obj? && k in v.members
  {
    Then(Then(RenderString(k), Ok([COLON])), Render(v.members[k]))
  }

  lemma {:induction false} MembersJoin(v: Value, keys: seq<Text>, parts: seq<Text>, i: nat)
    requires v.Obj? && AllIn(keys, v.members) && |parts| == |keys| && i <= |parts|
    requires forall j :: 0 <= j < |parts| ==> keys[j] in v.members && MemberRendering(v, keys[j]) == Ok(parts[j])
    ensures RenderMembers(v, keys, i) == Ok(Tail(parts, i, RBRACE))
    decreases |parts| - i
  {
    hide Render, RenderString;
    if i < |parts| {
      MembersJoin(v, keys, parts, i + 1);
      TailStep(parts, i, RBRACE);
      var name := Then(RenderString(keys[i]), Ok([COLON]));
      ThenAssociates(name, Render(v.members[keys[i]]), RenderMembers(v, keys, i + 1));
    } else {
      assert parts[i..] == [] && [] + [] + [RBRACE] == [RBRACE];
    }
  }

  lemma {:induction false} MembersRender(v: Value, keys: seq<Text>, i: nat)
    requires v.Obj? && AllIn(keys, v.members) && i <= |keys| && RenderMembers(v, keys, i).Ok?
    ensures forall j :: i <= j < |keys| ==> keys[j] in v.members && MemberRendering(v, keys[j]).Ok?
    decreases |keys| - i
  {
    hide Render, RenderString;
    if i < |keys| { MembersRender(v, keys, i + 1); }
  }

  // --- the writer writes what spells the value ---------------------------------------------------------

  lemma MemberSpelled(v: Value, k: Text, t: Text)
    requires v.Obj? && k in v.members
    requires forall u :: Spells(v.members[k], u) <==> Render(v.members[k]) == Ok(u)
    ensures SpellsMember(v, k, t) <==> MemberRendering(v, k) == Ok(t)
  {
    hide Spells, Render, RenderString, SpellsString;
    if SpellsMember(v, k, t) {
      var n :| 0 <= n < |t| && SpellsString(k, t[..n]) && t[n] == ':' as int && Spells(v.members[k], t[n + 1..]);
      StringSpelled(k, t[..n]);
      assert t == t[..n] + [COLON] + t[n + 1..];
    }
    if MemberRendering(v, k) == Ok(t) {
      var (a, b) := (RenderString(k).value, Render(v.members[k]).value);
      StringSpelled(k, a);
      assert t == a + [COLON] + b;
      assert t[..|a|] == a && t[|a|] == COLON && t[|a| + 1..] == b;
    }
  }

  /** The writer's text is the one that spells the value, and there is none where the writer refuses. */
  lemma {:induction false} WriterSpells(v: Value, t: Text)
    ensures Render(v) == Ok(t) <==> Spells(v, t)
    decreases v
  {
    match v {
      case Int(n) => IntegerSpelled(n, t);
      case Str(s) => StringSpelled(s, t);
      case Arr(items) =>
        forall i, u | 0 <= i < |items| ensures Render(items[i]) == Ok(u) <==> Spells(items[i], u) { WriterSpells(items[i], u); }
        ArraySpelled(v, t);
      case Obj(members) =>
        forall k, u | k in members ensures Render(members[k]) == Ok(u) <==> Spells(members[k], u) { WriterSpells(members[k], u); }
        ObjectSpelled(v, t);
      case _ =>
    }
  }

  lemma ArrayRenders(v: Value, parts: seq<Text>)
    requires v.Arr? && RenderItems(v, 0) == Ok(Tail(parts, 0, RBRACKET))
    ensures Render(v) == Ok(['[' as int] + Joined(parts) + [']' as int])
  {
    assert parts[0..] == parts;
    hide RenderItems, Joined;
    assert [LBRACKET] + ([] + Joined(parts) + [RBRACKET]) == ['[' as int] + Joined(parts) + [']' as int];
  }

  lemma ArrayRendered(v: Value)
    requires v.Arr? && Render(v).Ok?
    ensures RenderItems(v, 0).Ok?
  {
    hide RenderItems;
  }

  lemma ArraySpelled(v: Value, t: Text)
    requires v.Arr? && forall i, u :: 0 <= i < |v.items| ==> (Render(v.items[i]) == Ok(u) <==> Spells(v.items[i], u))
    ensures Render(v) == Ok(t) <==> SpellsArray(v, t)
  {
    hide Render, RenderItems, Spells, Joined, Tail;
    var items := v.items;
    if parts :| SpellsItems(v, parts) && t == ['[' as int] + Joined(parts) + [']' as int] {
      ItemsJoin(v, parts, 0);
      ArrayRenders(v, parts);
    }
    if Render(v) == Ok(t) {
      ArrayRendered(v);
      ItemsRender(v, 0);
      var parts := seq(|items|, i requires 0 <= i < |items| => Render(items[i]).value);
      ItemsJoin(v, parts, 0);
      ArrayRenders(v, parts);
      assert SpellsItems(v, parts);
    }
  }

  lemma ObjectRenders(v: Value, keys: seq<Text>, parts: seq<Text>)
    requires v.Obj? && keys == Sorted(v.members.Keys) && AllIn(keys, v.members)
    requires RenderMembers(v, keys, 0) == Ok(Tail(parts, 0, RBRACE))
    ensures Render(v) == Ok(['{' as int] + Joined(parts) + ['}' as int])
  {
    hide RenderMembers, Joined, Sorted, RenderItems, AllIn;
    assert parts[0..] == parts;
    assert [LBRACE] + ([] + Joined(parts) + [RBRACE]) == ['{' as int] + Joined(parts) + ['}' as int];
  }

  lemma ObjectRendered(v: Value)
    requires v.Obj? && Render(v).Ok?
    ensures AllIn(Sorted(v.members.Keys), v.members) && RenderMembers(v, Sorted(v.members.Keys), 0).Ok?
  {
    hide RenderMembers, Sorted;
  }

  lemma ObjectSpelled(v: Value, t: Text)
    requires v.Obj? && forall k, u :: k in v.members ==> (Render(v.members[k]) == Ok(u) <==> Spells(v.members[k], u))
    ensures Render(v) == Ok(t) <==> SpellsObject(v, t)
  {
    hide Render, RenderMembers, Spells, Joined, Tail, SpellsMember, MemberRendering, InOrder, Sorted;
    var members := v.members;
    forall k, u | k in members ensures SpellsMember(v, k, u) <==> MemberRendering(v, k) == Ok(u) { MemberSpelled(v, k, u); }
    if keys, parts :| SpellsMembers(v, keys, parts) && t == ['{' as int] + Joined(parts) + ['}' as int] {
      OrderIsSorted(keys, members);
      MembersJoin(v, keys, parts, 0);
      ObjectRenders(v, keys, parts);
    }
    if Render(v) == Ok(t) {
      var keys := Sorted(members.Keys);
      OrderIsSorted(keys, members);
      ObjectRendered(v);
      MembersRender(v, keys, 0);
      var parts := seq(|keys|, i requires 0 <= i < |keys| => MemberRendering(v, keys[i]).value);
      MembersJoin(v, keys, parts, 0);
      ObjectRenders(v, keys, parts);
      assert SpellsMembers(v, keys, parts);
    }
  }

  // --- what is refused ---------------------------------------------------------------------------------

  ghost function TextOffences(s: Text): seq<CanonError>
  {
    if exists i :: 0 <= i < |s| && 0xD800 <= s[i] <= 0xDFFF then [SurrogateNotPermitted] else []
  }

  /** Everything in a value that has no canonical text, in document order, a key before its member. */
  ghost function Offences(v: Value): seq<CanonError>
    decreases v
  {
    match v
    case Float => [FloatNotPermitted]
    case Foreign => [CanonicalFormInvalid]
    case Int(n) => if -9007199254740991 <= n <= 9007199254740991 then [] else [CanonicalFormInvalid]
    case Str(s) => TextOffences(s)
    case Arr(items) => ItemOffences(v, 0)
    case Obj(members) => MemberOffences(v, Sorted(members.Keys), 0)
    case _ => []
  }

  ghost function ItemOffences(v: Value, i: nat): seq<CanonError>
    requires v.Arr? && i <= |v.items|
    decreases v, |v.items| - i
  {
    if i == |v.items| then [] else Offences(v.items[i]) + ItemOffences(v, i + 1)
  }

  ghost function MemberOffences(v: Value, keys: seq<Text>, i: nat): seq<CanonError>
    requires v.Obj? && AllIn(keys, v.members) && i <= |keys|
    decreases v, |keys| - i
  {
    if i == |keys| then [] else TextOffences(keys[i]) + Offences(v.members[keys[i]]) + MemberOffences(v, keys, i + 1)
  }

  /** A rendering that is refused for the first of these, or not at all when there is none. */
  ghost predicate Refused(r: Rendering, offences: seq<CanonError>)
  {
    if offences == [] then r.Ok? else r == Err(offences[0])
  }

  lemma ThenRefused(a: Rendering, b: Rendering, x: seq<CanonError>, y: seq<CanonError>)
    requires Refused(a, x) && Refused(b, y)
    ensures Refused(Then(a, b), x + y)
  {
  }

  lemma StringRefused(s: Text)
    ensures Refused(RenderString(s), TextOffences(s))
  {
  }

  /** The writer refuses exactly the values with something in them that has no canonical text, for the first
      such thing in document order. */
  lemma {:induction false} FirstOffence(v: Value)
    ensures Refused(Render(v), Offences(v))
    decreases v
  {
    match v {
      case Str(s) => StringRefused(s);
      case Arr(items) =>
        ItemsRefused(v, 0);
        ThenRefused(Ok([LBRACKET]), RenderItems(v, 0), [], ItemOffences(v, 0));
        assert [] + ItemOffences(v, 0) == ItemOffences(v, 0);
      case Obj(members) =>
        var keys := Sorted(members.Keys);
        MembersRefused(v, keys, 0);
        ThenRefused(Ok([LBRACE]), RenderMembers(v, keys, 0), [], MemberOffences(v, keys, 0));
        assert [] + MemberOffences(v, keys, 0) == MemberOffences(v, keys, 0);
      case _ =>
    }
  }

  lemma {:induction false} ItemsRefused(v: Value, i: nat)
    requires v.Arr? && i <= |v.items|
    ensures Refused(RenderItems(v, i), ItemOffences(v, i))
    decreases v, |v.items| - i
  {
    if i < |v.items| {
      FirstOffence(v.items[i]);
      ItemsRefused(v, i + 1);
      hide Render;
      ThenRefused(Render(v.items[i]), RenderItems(v, i + 1), Offences(v.items[i]), ItemOffences(v, i + 1));
    }
  }

  lemma {:induction false} MembersRefused(v: Value, keys: seq<Text>, i: nat)
    requires v.Obj? && AllIn(keys, v.members) && i <= |keys|
    ensures Refused(RenderMembers(v, keys, i), MemberOffences(v, keys, i))
    decreases v, |keys| - i
  {
    if i < |keys| {
      var value, rest := Render(v.members[keys[i]]), RenderMembers(v, keys, i + 1);
      FirstOffence(v.members[keys[i]]);
      MembersRefused(v, keys, i + 1);
      StringRefused(keys[i]);
      hide Render, RenderString, Offences, TextOffences;
      ThenRefused(RenderString(keys[i]), Ok([COLON]), TextOffences(keys[i]), []);
      ThenRefused(value, rest, Offences(v.members[keys[i]]), MemberOffences(v, keys, i + 1));
      var (x, y, z) := (TextOffences(keys[i]), Offences(v.members[keys[i]]), MemberOffences(v, keys, i + 1));
      assert x + [] == x && x + (y + z) == x + y + z;
      ThenRefused(Then(RenderString(keys[i]), Ok([COLON])), Then(value, rest), x, y + z);
      ThenRefused(Ok(Separator(i)), Then(Then(RenderString(keys[i]), Ok([COLON])), Then(value, rest)), [], x + y + z);
      assert [] + (x + y + z) == x + y + z;
    }
  }

  /** Hence the canonical text of a value is one, and the reader gives the value back from it. */
  lemma SpellingIdentifies(v: Value, w: Value, t: Text, u: Text)
    requires Spells(v, t)
    ensures Spells(v, u) ==> t == u
    ensures Spells(w, t) ==> v == w
    ensures Load.ReadDocument(t) == Some(v)
  {
    WriterSpells(v, t);
    WriterSpells(v, u);
    WriterSpells(w, t);
    Load.CanonicalTextReadsBack(v);
    hide Spells, Render, Load.ReadDocument;
    if Spells(w, t) { Load.CanonicalTextIdentifies(v, w); }
  }
}
