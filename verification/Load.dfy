/** Loading JSON text: the depth scanner of vfy/load.py, a reference reader for RFC 8259 section 2
    with that file's hooks (no duplicate key, no float, bounded integers), and the round trip
    through the canonical writer. */
module Load {
  import opened Wrappers
  import opened Text
  import opened Values
  import opened Canon

  const MAX_DEPTH: nat := 64

  // --- reading -----------------------------------------------------------------------------------

  /** The code point a `\u` escape denotes, and how many characters after the `u` it takes:
      a high surrogate escape followed by a low one is one code point. */
  function ReadUnicode(t: Text): (r: Option<(Code, nat)>)
    ensures r.Some? ==> r.value.1 <= |t|
    ensures r.Some? ==> r.value.1 == 4 || (r.value.1 == 10 && t[4] == BACKSLASH && t[5] == 0x75)
    ensures r.Some? ==> forall i :: 0 <= i < 4 ==> HexValue(t[i]).Some?
    ensures r.Some? && r.value.1 == 10 ==> forall i :: 6 <= i < 10 ==> HexValue(t[i]).Some?
  {
    var first := ReadHex4(t);
    if first.None? then None
    else if 0xD800 <= first.value <= 0xDBFF && |t| >= 10 && t[4] == BACKSLASH && t[5] == 0x75 then
      var second := ReadHex4(t[6..]);
      if second.Some? && 0xDC00 <= second.value <= 0xDFFF then
        assert forall i :: 6 <= i < 10 ==> t[i] == t[6..][i - 6];
        Some((0x10000 + (first.value - 0xD800) * 0x400 + (second.value - 0xDC00), 10))
      else Some((first.value, 4))
    else Some((first.value, 4))
  }

  /** The character a one-letter escape denotes. */
  function Unescape(marker: Code): Option<Code>
  {
    if marker == QUOTE || marker == BACKSLASH || marker == 0x2F then Some(marker)
    else if marker == 0x62 then Some(0x08)
    else if marker == 0x74 then Some(TAB)
    else if marker == 0x6E then Some(LF)
    else if marker == 0x66 then Some(0x0C)
    else if marker == 0x72 then Some(CR)
    else None
  }

  function Prepend(c: Code, r: Option<(Text, Text)>): Option<(Text, Text)>
  {
    if r.None? then None else Some(([c] + r.value.0, r.value.1))
  }

  /** String content up to the closing quote, and what follows it. */
  function ReadString(t: Text): (r: Option<(Text, Text)>)
    ensures r.Some? ==> |r.value.1| < |t|
    decreases |t|
  {
    if t == [] || t[0] < SPACE then None
    else if t[0] == QUOTE then Some(([], t[1..]))
    else if t[0] != BACKSLASH then Prepend(t[0], ReadString(t[1..]))
    else if |t| < 2 then None
    else if Unescape(t[1]).Some? then Prepend(Unescape(t[1]).value, ReadString(t[2..]))
    else if t[1] != 0x75 then None
    else
      var u := ReadUnicode(t[2..]);
      if u.None? then None else Prepend(u.value.0, ReadString(t[2 + u.value.1..]))
  }

  function ReadNumber(t: Text): (r: Option<(Value, Text)>)
    ensures r.Some? ==> |r.value.1| < |t|
  {
    var start := if t != [] && t[0] == DASH then 1 else 0;
    var end := CanonicalDigitsEnd(t, start);
    if end.None? then None
    else
      var n: int := Num(t[start..end.value]);
      var value := if start == 1 then -n else n;
      if end.value < |t| && t[end.value] in {DOT, 0x65, 0x45} then None
      else if value < MIN_SAFE_INTEGER || value > MAX_SAFE_INTEGER then None
      else Some((Int(value), t[end.value..]))
  }

  function ReadValue(text: Text): (r: Option<(Value, Text)>)
    ensures r.Some? ==> |r.value.1| < |text|
    decreases |text|, 0
  {
    var t := SkipSpace(text);
    if t == [] then None
    else if t[0] == QUOTE then
      var s := ReadString(t[1..]);
      if s.None? then None else Some((Str(s.value.0), s.value.1))
    else if t[0] == LBRACE then
      var u := SkipSpace(t[1..]);
      if u != [] && u[0] == RBRACE then Some((Obj(map[]), u[1..]))
      else
        var m := ReadMembers(u);
        if m.None? || !Distinct(m.value.0) then None else Some((Obj(FromPairs(m.value.0)), m.value.1))
    else if t[0] == LBRACKET then
      var u := SkipSpace(t[1..]);
      if u != [] && u[0] == RBRACKET then Some((Arr([]), u[1..]))
      else
        var a := ReadItems(u);
        if a.None? then None else Some((Arr(a.value.0), a.value.1))
    else if StartsWith(t, NULL_TEXT) then Some((Null, t[4..]))
    else if StartsWith(t, TRUE_TEXT) then Some((Bool(true), t[4..]))
    else if StartsWith(t, FALSE_TEXT) then Some((Bool(false), t[5..]))
    else ReadNumber(t)
  }

  /** One or more items up to the closing bracket. */
  function ReadItems(t: Text): (r: Option<(seq<Value>, Text)>)
    ensures r.Some? ==> |r.value.1| < |t| && |r.value.0| > 0
    decreases |t|, 1
  {
    var v := ReadValue(t);
    if v.None? then None
    else
      var u := SkipSpace(v.value.1);
      if u == [] then None
      else if u[0] == RBRACKET then Some(([v.value.0], u[1..]))
      else if u[0] != COMMA then None
      else
        var rest := ReadItems(u[1..]);
        if rest.None? then None else Some(([v.value.0] + rest.value.0, rest.value.1))
  }

  /** One or more members up to the closing brace, as the pairs the object hook receives. */
  function ReadMembers(text: Text): (r: Option<(seq<(Text, Value)>, Text)>)
    ensures r.Some? ==> |r.value.1| < |text| && |r.value.0| > 0
    decreases |text|, 1
  {
    var t := SkipSpace(text);
    if t == [] || t[0] != QUOTE then None
    else
      var k := ReadString(t[1..]);
      if k.None? then None
      else
        var c := SkipSpace(k.value.1);
        if c == [] || c[0] != COLON then None
        else
          var v := ReadValue(c[1..]);
          if v.None? then None
          else
            var u := SkipSpace(v.value.1);
            if u == [] then None
            else if u[0] == RBRACE then Some(([(k.value.0, v.value.0)], u[1..]))
            else if u[0] != COMMA then None
            else
              var rest := ReadMembers(u[1..]);
              if rest.None? then None else Some(([(k.value.0, v.value.0)] + rest.value.0, rest.value.1))
  }

  predicate Distinct(pairs: seq<(Text, Value)>)
  {
    forall i, j :: 0 <= i < j < |pairs| ==> pairs[i].0 != pairs[j].0
  }

  function FromPairs(pairs: seq<(Text, Value)>): map<Text, Value>
  {
    if pairs == [] then map[] else FromPairs(pairs[..|pairs| - 1])[pairs[|pairs| - 1].0 := pairs[|pairs| - 1].1]
  }

  /** The object hook: the mapping, or None at the first duplicate key. */
  method ObjectFromPairs(pairs: seq<(Text, Value)>) returns (r: Option<map<Text, Value>>)
    ensures r == if Distinct(pairs) then Some(FromPairs(pairs)) else None
  {
    var seen: set<Text> := {};
    for i := 0 to |pairs|
      invariant seen == set k | 0 <= k < i :: pairs[k].0
      invariant Distinct(pairs[..i])
    {
      var key := pairs[i].0;
      if key in seen {
        var k :| 0 <= k < i && pairs[k].0 == key;
        return None;
      }
      seen := seen + {key};
    }
    assert pairs[..|pairs|] == pairs;
    return Some(FromPairs(pairs));
  }

  function ReadDocument(t: Text): Option<Value>
  {
    var v := ReadValue(t);
    if v.None? || SkipSpace(v.value.1) != [] then None else Some(v.value.0)
  }

  lemma {:induction false} FromPairsHas(pairs: seq<(Text, Value)>)
    requires Distinct(pairs)
    ensures forall k :: k in FromPairs(pairs) <==> exists i :: 0 <= i < |pairs| && pairs[i].0 == k
    ensures forall i :: 0 <= i < |pairs| ==> pairs[i].0 in FromPairs(pairs) && FromPairs(pairs)[pairs[i].0] == pairs[i].1
  {
    if pairs != [] {
      var init := pairs[..|pairs| - 1];
      FromPairsHas(init);
      assert forall i :: 0 <= i < |init| ==> pairs[i] == init[i];
      assert pairs[|pairs| - 1].0 in FromPairs(pairs);
    }
  }

  // --- the reader undoes the writer ------------------------------------------------------------------

  /** What can follow a value in canonical text. */
  predicate Delimited(post: Text)
  {
    post == [] || post[0] in {COMMA, RBRACKET, RBRACE}
  }

  lemma ReadEscaped(c: Code, rest: Text)
    ensures ReadString(Escaped(c) + rest) == Prepend(c, ReadString(rest))
  {
    var t := Escaped(c) + rest;
    if NamedEscape(c).Some? {
      assert t[2..] == rest && Unescape(t[1]) == Some(c);
    } else if c < SPACE {
      assert t[2..][..4] == [ZERO, ZERO, HexDigit(c / 16), HexDigit(c % 16)];
      assert t[2..][0] == ZERO && t[2..][1] == ZERO;
      assert t[2..][2] == HexDigit(c / 16) && t[2..][3] == HexDigit(c % 16);
      assert ReadHex4(t[2..]) == Some(c);
      assert t[6..] == rest;
    } else {
      assert t[1..] == rest;
    }
  }

  lemma {:induction false} ReadEscapes(s: Text, post: Text)
    ensures ReadString(Escapes(s) + [QUOTE] + post) == Some((s, post))
  {
    if s == [] {
      assert Escapes(s) + [QUOTE] + post == [QUOTE] + post;
      assert ([QUOTE] + post)[1..] == post;
    } else {
      var rest := Escapes(s[1..]) + [QUOTE] + post;
      assert Escapes(s) + [QUOTE] + post == Escaped(s[0]) + rest;
      ReadEscaped(s[0], rest);
      ReadEscapes(s[1..], post);
      assert [s[0]] + s[1..] == s;
    }
  }

  lemma ReadNumberParts(t: Text, start: nat, end: nat, n: int)
    requires start == (if t != [] && t[0] == DASH then 1 else 0) && CanonicalDigitsEnd(t, start) == Some(end)
    requires n == (if start == 1 then -(Num(t[start..end]) as int) else Num(t[start..end]))
    requires MIN_SAFE_INTEGER <= n <= MAX_SAFE_INTEGER && Delimited(t[end..])
    ensures ReadNumber(t) == Some((Int(n), t[end..]))
  {
    hide Num, CanonicalDigitsEnd;
    if end < |t| { assert t[end] == t[end..][0]; }
  }

  lemma ReadRenderedInteger(n: int, post: Text)
    requires IntegerText(n).Ok? && Delimited(post)
    ensures ReadNumber(IntegerText(n).value + post) == Some((Int(n), post))
  {
    var pre := if n < 0 then [DASH] else [];
    var digits := Digits(if n < 0 then -n else n);
    var t := pre + digits + post;
    assert IntegerText(n).value + post == t;
    assert t[|pre|] == digits[0] && IsDigit(digits[0]);
    var end := |pre| + |digits|;
    assert t[|pre|..end] == digits && t[end..] == post;
    assert CanonicalDigitsEnd(t, |pre|) == Some(end) by { CanonicalDigitsRead(pre, if n < 0 then -n else n, post); }
    hide ReadNumber, CanonicalDigitsEnd, Digits, Num;
    ReadNumberParts(t, |pre|, end, n);
  }

  /** How a rendered value begins: never with a space, and with the mark of its kind. */
  lemma RenderedStart(v: Value)
    requires Render(v).Ok?
    ensures var t := Render(v).value;
            && |t| > 0 && !IsSpace(t[0]) && t[0] !in {RBRACKET, RBRACE, COMMA}
            && (v.Str? <==> t[0] == QUOTE) && (v.Arr? <==> t[0] == LBRACKET) && (v.Obj? <==> t[0] == LBRACE)
            && (v.Int? ==> t[0] == DASH || IsDigit(t[0]))
  {
  }

  lemma NotALiteral(t: Text)
    requires |t| > 0 && (t[0] == DASH || IsDigit(t[0]))
    ensures !StartsWith(t, NULL_TEXT) && !StartsWith(t, TRUE_TEXT) && !StartsWith(t, FALSE_TEXT)
  {
    if |t| >= 4 { assert t[..4][0] == t[0]; }
    if |t| >= 5 { assert t[..5][0] == t[0]; }
  }

  lemma ReadScalar(v: Value, post: Text)
    requires Render(v).Ok? && Delimited(post) && !v.Arr? && !v.Obj?
    ensures ReadValue(Render(v).value + post) == Some((v, post))
  {
    var r := Render(v).value;
    var t := r + post;
    RenderedStart(v);
    assert t[0] == r[0] && SkipSpace(t) == t;
    match v {
      case Null => assert t[..4] == NULL_TEXT && t[4..] == post;
      case Bool(b) =>
        if b {
          assert t[..4] == TRUE_TEXT && t[4..] == post;
        } else {
          assert t[..5] == FALSE_TEXT && t[5..] == post;
        }
      case Int(n) =>
        ReadRenderedInteger(n, post);
        NotALiteral(t);
      case Str(s) =>
        assert t[1..] == Escapes(s) + [QUOTE] + post;
        ReadEscapes(s, post);
    }
  }

  /** Reading any rendered value, whatever delimiter follows, gives the value and the rest. */
  lemma {:induction false} ReadRendered(v: Value, post: Text)
    requires Render(v).Ok? && Delimited(post)
    ensures ReadValue(Render(v).value + post) == Some((v, post))
    decreases v
  {
    if v.Arr? {
      if |v.items| > 0 {
        ReadRenderedItems(v, 0, post);
        assert RenderItems(v, 0).value[0..] == RenderItems(v, 0).value;
      }
      ReadArray(v, post);
    } else if v.Obj? {
      var keys := Sorted(v.members.Keys);
      if |keys| > 0 {
        ReadRenderedMembers(v, keys, 0, post);
        assert RenderMembers(v, keys, 0).value[0..] == RenderMembers(v, keys, 0).value;
      }
      ReadObject(v, keys, post);
    } else {
      ReadScalar(v, post);
    }
  }

  lemma ReadArray(v: Value, post: Text)
    requires v.Arr? && Render(v).Ok?
    requires |v.items| > 0 ==> ReadItems(RenderItems(v, 0).value + post) == Some((v.items[0..], post))
    ensures ReadValue(Render(v).value + post) == Some((v, post))
  {
    var t := Render(v).value + post;
    var u := RenderItems(v, 0).value + post;
    assert t == [LBRACKET] + u && t[1..] == u;
    if |v.items| == 0 {
      assert u == [RBRACKET] + post && u[1..] == post;
    } else {
      ItemsStart(v, post);
      assert v.items[0..] == v.items;
    }
    hide ReadItems, RenderItems, StartsWith;
  }

  lemma ObjectText(v: Value, keys: seq<Text>)
    requires v.Obj? && keys == Sorted(v.members.Keys) && Render(v).Ok?
    ensures RenderMembers(v, keys, 0).Ok? && Render(v).value == [LBRACE] + RenderMembers(v, keys, 0).value
    ensures keys == [] ==> RenderMembers(v, keys, 0).value == [RBRACE] && v == Obj(map[])
  {
    if keys == [] {
      assert v.members.Keys == {};
      assert v.members == map[];
    }
  }

  lemma ReadObject(v: Value, keys: seq<Text>, post: Text)
    requires v.Obj? && keys == Sorted(v.members.Keys) && Render(v).Ok?
    requires |keys| > 0 ==> ReadMembers(RenderMembers(v, keys, 0).value + post) == Some((Pairs(v, keys)[0..], post))
    ensures ReadValue(Render(v).value + post) == Some((v, post))
  {
    ObjectText(v, keys);
    hide Render;
    var t := Render(v).value + post;
    var u := RenderMembers(v, keys, 0).value + post;
    assert t == [LBRACE] + u;
    if |keys| == 0 {
      assert t[1..] == u == [RBRACE] + post && u[1..] == post;
      hide ReadMembers, StartsWith, ReadString, ReadItems;
    } else {
      MembersStart(v, keys, post);
      hide RenderMembers, ReadMembers, ReadValue, Sorted;
      PairsRebuild(v, keys);
      var pairs := Pairs(v, keys);
      assert pairs[0..] == pairs;
      hide Pairs, FromPairs, Distinct;
      ReadBraces(t, u, pairs, post);
    }
  }

  lemma ReadBraces(t: Text, u: Text, pairs: seq<(Text, Value)>, post: Text)
    requires t == [LBRACE] + u && u != [] && u[0] == QUOTE && SkipSpace(u) == u
    requires ReadMembers(u) == Some((pairs, post)) && Distinct(pairs)
    ensures ReadValue(t) == Some((Obj(FromPairs(pairs)), post))
  {
    assert t[1..] == u && SkipSpace(t) == t;
    hide ReadMembers, Distinct, FromPairs, StartsWith;
  }

  lemma ItemsStart(v: Value, post: Text)
    requires v.Arr? && |v.items| > 0 && RenderItems(v, 0).Ok?
    ensures var u := RenderItems(v, 0).value + post;
            u != [] && SkipSpace(u) == u && u[0] != RBRACKET
  {
    RenderedStart(v.items[0]);
    var first := Render(v.items[0]).value;
    assert RenderItems(v, 0).value == [] + (first + RenderItems(v, 1).value);
    assert (RenderItems(v, 0).value + post)[0] == first[0];
  }

  lemma ItemLayout(v: Value, i: nat, post: Text)
    requires v.Arr? && i < |v.items| && RenderItems(v, i).Ok?
    ensures Render(v.items[i]).Ok? && RenderItems(v, i + 1).Ok?
    ensures RenderItems(v, i).value[|Separator(i)|..] + post
         == Render(v.items[i]).value + (RenderItems(v, i + 1).value + post)
  {
    var first, after := Render(v.items[i]).value, RenderItems(v, i + 1).value;
    assert RenderItems(v, i).value == Separator(i) + (first + after);
    assert RenderItems(v, i).value[|Separator(i)|..] == first + after;
  }

  lemma ReadItemAndRest(t: Text, value: Value, after: Text, post: Text, rest: seq<Value>)
    requires ReadValue(t) == Some((value, after + post))
    requires (after == [RBRACKET] && rest == [])
          || (after != [] && after[0] == COMMA && ReadItems(after[1..] + post) == Some((rest, post)))
    ensures ReadItems(t) == Some(([value] + rest, post))
  {
    hide ReadValue;
    var tail := after + post;
    assert tail[0] == after[0] && tail[1..] == after[1..] + post && SkipSpace(tail) == tail;
    if after == [RBRACKET] { assert tail[1..] == post && [value] + rest == [value]; }
  }

  /** The text of items from `i` on, without a leading separator. */
  lemma {:induction false} ReadRenderedItems(v: Value, i: nat, post: Text)
    requires v.Arr? && i < |v.items| && RenderItems(v, i).Ok? && Delimited(post)
    ensures ReadItems(RenderItems(v, i).value[|Separator(i)|..] + post) == Some((v.items[i..], post))
    decreases v, |v.items| - i
  {
    ItemLayout(v, i, post);
    var after := RenderItems(v, i + 1).value;
    if i + 1 < |v.items| {
      SeparatorLeads(v, i + 1);
      ReadRenderedItems(v, i + 1, post);
    } else {
      assert after == [RBRACKET];
    }
    assert Delimited(after + post) by { assert (after + post)[0] == after[0]; }
    ReadRendered(v.items[i], after + post);
    hide RenderItems, Render, ReadItems, ReadValue, Delimited;
    assert v.items[i..] == [v.items[i]] + v.items[i + 1..];
    ReadItemAndRest(Render(v.items[i]).value + (after + post), v.items[i], after, post, v.items[i + 1..]);
  }

  lemma SeparatorLeads(v: Value, i: nat)
    requires v.Arr? && 0 < i < |v.items| && RenderItems(v, i).Ok?
    ensures RenderItems(v, i).value != [] && RenderItems(v, i).value[0] == COMMA
  {
  }

  ghost function Pairs(v: Value, keys: seq<Text>): (r: seq<(Text, Value)>)
    requires v.Obj? && AllIn(keys, v.members)
    ensures |r| == |keys|
    ensures forall i :: 0 <= i < |r| ==> r[i] == (keys[i], v.members[keys[i]])
  {
    seq(|keys|, i requires 0 <= i < |keys| => (keys[i], v.members[keys[i]]))
  }

  lemma SortedDistinct(v: Value, keys: seq<Text>)
    requires v.Obj? && keys == Sorted(v.members.Keys)
    ensures Distinct(Pairs(v, keys))
  {
    forall i, j | 0 <= i < j < |keys| ensures keys[i] != keys[j] { TextLessTotal(keys[i], keys[j]); }
  }

  lemma SameMembers(m: map<Text, Value>, keys: seq<Text>, pairs: seq<(Text, Value)>, rebuilt: map<Text, Value>)
    requires |pairs| == |keys| && forall k :: k in m <==> k in keys
    requires forall i :: 0 <= i < |pairs| ==> pairs[i].0 == keys[i] && keys[i] in m && pairs[i].1 == m[keys[i]]
    requires forall k :: k in rebuilt <==> exists i :: 0 <= i < |pairs| && pairs[i].0 == k
    requires forall i :: 0 <= i < |pairs| ==> pairs[i].0 in rebuilt && rebuilt[pairs[i].0] == pairs[i].1
    ensures rebuilt == m
  {
    forall k | k in m ensures k in rebuilt && rebuilt[k] == m[k] {
      var i :| 0 <= i < |keys| && keys[i] == k;
      assert pairs[i].0 == k;
    }
    forall k | k in rebuilt ensures k in m {
      var i :| 0 <= i < |pairs| && pairs[i].0 == k;
    }
    assert rebuilt.Keys == m.Keys;
  }

  lemma PairsRebuild(v: Value, keys: seq<Text>)
    requires v.Obj? && keys == Sorted(v.members.Keys)
    ensures Distinct(Pairs(v, keys)) && FromPairs(Pairs(v, keys)) == v.members
  {
    SortedDistinct(v, keys);
    FromPairsHas(Pairs(v, keys));
    hide Pairs, Distinct, FromPairs, Sorted, TextLess;
    SameMembers(v.members, keys, Pairs(v, keys), FromPairs(Pairs(v, keys)));
  }

  lemma MembersStart(v: Value, keys: seq<Text>, post: Text)
    requires v.Obj? && AllIn(keys, v.members) && |keys| > 0 && RenderMembers(v, keys, 0).Ok?
    ensures var u := RenderMembers(v, keys, 0).value + post;
            u != [] && SkipSpace(u) == u && u[0] == QUOTE
  {
    var k := RenderString(keys[0]).value;
    var after := Then(Render(v.members[keys[0]]), RenderMembers(v, keys, 1)).value;
    assert RenderMembers(v, keys, 0).value == [] + ((k + [COLON]) + after);
    assert (RenderMembers(v, keys, 0).value + post)[0] == k[0];
  }

  lemma ReadMemberParts(t: Text, key: Text, c: Text, value: Value, tail: Text)
    requires t != [] && t[0] == QUOTE && ReadString(t[1..]) == Some((key, c))
    requires c != [] && c[0] == COLON && ReadValue(c[1..]) == Some((value, tail))
    requires tail != [] && tail[0] in {RBRACE, COMMA}
    ensures ReadMembers(t)
         == if tail[0] == RBRACE then Some(([(key, value)], tail[1..]))
            else
              var rest := ReadMembers(tail[1..]);
              if rest.None? then None else Some(([(key, value)] + rest.value.0, rest.value.1))
  {
    hide ReadString, ReadValue;
    assert SkipSpace(t) == t && SkipSpace(c) == c && SkipSpace(tail) == tail;
  }

  /** One member: a quoted key, a colon, and a value that reads back before `tail`. */
  lemma ReadOneMember(key: Text, value: Value, item: Text, tail: Text)
    requires ReadValue(item + tail) == Some((value, tail))
    requires tail != [] && tail[0] in {RBRACE, COMMA}
    ensures ReadMembers([QUOTE] + (Escapes(key) + [QUOTE] + ([COLON] + (item + tail))))
         == if tail[0] == RBRACE then Some(([(key, value)], tail[1..]))
            else
              var rest := ReadMembers(tail[1..]);
              if rest.None? then None else Some(([(key, value)] + rest.value.0, rest.value.1))
  {
    hide ReadValue, ReadMembers;
    var c := [COLON] + (item + tail);
    var t := [QUOTE] + (Escapes(key) + [QUOTE] + c);
    ReadEscapes(key, c);
    hide ReadString, Escapes;
    assert t[1..] == Escapes(key) + [QUOTE] + c;
    assert c[1..] == item + tail;
    ReadMemberParts(t, key, c, value, tail);
  }

  /** The text of one member and of what comes after it. */
  function MemberText(key: Text, item: Text, tail: Text): Text
  {
    [QUOTE] + (Escapes(key) + [QUOTE] + ([COLON] + (item + tail)))
  }

  lemma ReadMemberAndRest(key: Text, value: Value, item: Text, after: Text, post: Text, rest: seq<(Text, Value)>)
    requires ReadValue(item + (after + post)) == Some((value, after + post))
    requires (after == [RBRACE] && rest == [])
          || (after != [] && after[0] == COMMA && ReadMembers(after[1..] + post) == Some((rest, post)))
    ensures ReadMembers(MemberText(key, item, after + post)) == Some(([(key, value)] + rest, post))
  {
    hide ReadValue, ReadMembers, Escapes;
    var tail := after + post;
    assert tail[0] == after[0] && tail[1..] == after[1..] + post;
    ReadOneMember(key, value, item, tail);
    if after == [RBRACE] { assert tail[1..] == post && [(key, value)] + rest == [(key, value)]; }
  }

  lemma PairsStep(v: Value, keys: seq<Text>, i: nat)
    requires v.Obj? && AllIn(keys, v.members) && i < |keys|
    ensures keys[i] in v.members && i < |Pairs(v, keys)|
    ensures Pairs(v, keys)[i..] == [(keys[i], v.members[keys[i]])] + Pairs(v, keys)[i + 1..]
  {
  }

  lemma LastMember(v: Value, keys: seq<Text>)
    requires v.Obj? && AllIn(keys, v.members)
    ensures RenderMembers(v, keys, |keys|) == Ok([RBRACE]) && Pairs(v, keys)[|keys|..] == []
  {
  }

  lemma DelimitedAfter(after: Text, post: Text)
    requires after != [] && (after[0] == RBRACE || after[0] == COMMA)
    ensures Delimited(after + post)
  {
    assert (after + post)[0] == after[0];
  }

  lemma {:induction false} ReadRenderedMembers(v: Value, keys: seq<Text>, i: nat, post: Text)
    requires v.Obj? && AllIn(keys, v.members) && i < |keys| && RenderMembers(v, keys, i).Ok? && Delimited(post)
    ensures |Separator(i)| <= |RenderMembers(v, keys, i).value|
    ensures ReadMembers(RenderMembers(v, keys, i).value[|Separator(i)|..] + post) == Some((Pairs(v, keys)[i..], post))
    decreases v, |keys| - i
  {
    hide RenderMembers, Render, ReadMembers, ReadValue, RenderString, MemberText, Delimited, Pairs, AllIn;
    MemberLayout(v, keys, i, post);
    PairsStep(v, keys, i);
    var key, item, after := keys[i], Render(v.members[keys[i]]).value, RenderMembers(v, keys, i + 1).value;
    if i + 1 < |keys| {
      MemberSeparatorLeads(v, keys, i + 1);
      ReadRenderedMembers(v, keys, i + 1, post);
    } else {
      LastMember(v, keys);
    }
    DelimitedAfter(after, post);
    ReadRendered(v.members[key], after + post);
    ReadMemberAndRest(key, v.members[key], item, after, post, Pairs(v, keys)[i + 1..]);
  }

  lemma MemberLayout(v: Value, keys: seq<Text>, i: nat, post: Text)
    requires v.Obj? && AllIn(keys, v.members) && i < |keys| && RenderMembers(v, keys, i).Ok?
    ensures keys[i] in v.members && |Separator(i)| <= |RenderMembers(v, keys, i).value|
    ensures RenderString(keys[i]).Ok? && Render(v.members[keys[i]]).Ok? && RenderMembers(v, keys, i + 1).Ok?
    ensures RenderMembers(v, keys, i).value[|Separator(i)|..] + post
         == MemberText(keys[i], Render(v.members[keys[i]]).value, RenderMembers(v, keys, i + 1).value + post)
  {
    var item, after := Render(v.members[keys[i]]).value, RenderMembers(v, keys, i + 1).value;
    Regroup(Separator(i), [QUOTE], Escapes(keys[i]), item, after, post);
    hide Render, Escapes;
    assert RenderMembers(v, keys, i).value
        == Separator(i) + ((([QUOTE] + Escapes(keys[i]) + [QUOTE]) + [COLON]) + (item + after));
  }

  lemma Regroup(sep: Text, q: Text, e: Text, item: Text, after: Text, post: Text)
    ensures (sep + (((q + e + q) + [COLON]) + (item + after)))[|sep|..] + post
         == q + (e + q + ([COLON] + (item + (after + post))))
  {
    assert (sep + (((q + e + q) + [COLON]) + (item + after)))[|sep|..] == ((q + e + q) + [COLON]) + (item + after);
  }

  lemma MemberSeparatorLeads(v: Value, keys: seq<Text>, i: nat)
    requires v.Obj? && AllIn(keys, v.members) && 0 < i < |keys| && RenderMembers(v, keys, i).Ok?
    ensures RenderMembers(v, keys, i).value != [] && RenderMembers(v, keys, i).value[0] == COMMA
  {
  }

  /** Canonical text read back is the value it was written from. */
  lemma CanonicalTextReadsBack(v: Value)
    requires Render(v).Ok?
    ensures ReadDocument(Render(v).value) == Some(v)
  {
    ReadRendered(v, []);
    assert Render(v).value + [] == Render(v).value;
  }

  /** Hence canonical text identifies its value: every digest is taken over one value only. */
  lemma CanonicalTextIdentifies(a: Value, b: Value)
    requires Render(a).Ok? && Render(a) == Render(b)
    ensures a == b
  {
    CanonicalTextReadsBack(a);
    CanonicalTextReadsBack(b);
  }
}
