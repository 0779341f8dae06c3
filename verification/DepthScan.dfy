/** The depth scanner of vfy/load.py is exact: on any text the reader accepts it counts the
    nesting of the value, strings and escapes included; and loading as a whole. */
module DepthScan {
  import opened Wrappers
  import opened Text
  import opened Values
  import opened Canon
  import opened Load

  // --- the scanner -------------------------------------------------------------------------------

  datatype Scan = Scan(depth: int, inString: bool, escaped: bool)

  /** One character; None is the refusal of a text nested too deep. */
  function Step(s: Scan, c: Code): Option<Scan>
  {
    if s.inString then
      if s.escaped then Some(s.(escaped := false))
      else if c == BACKSLASH then Some(s.(escaped := true))
      else if c == QUOTE then Some(s.(inString := false))
      else Some(s)
    else if c == QUOTE then Some(s.(inString := true))
    else if c == LBRACE || c == LBRACKET then
      if s.depth + 1 > MAX_DEPTH then None else Some(s.(depth := s.depth + 1))
    else if c == RBRACE || c == RBRACKET then Some(s.(depth := s.depth - 1))
    else Some(s)
  }

  function Run(s: Scan, t: Text): Option<Scan>
    decreases |t|
  {
    if t == [] then Some(s)
    else
      var n := Step(s, t[0]);
      if n.None? then None else Run(n.value, t[1..])
  }

  function Outside(depth: int): Scan
  {
    Scan(depth, false, false)
  }

  function Inside(depth: int): Scan
  {
    Scan(depth, true, false)
  }

  predicate TooDeep(t: Text)
  {
    Run(Outside(0), t).None?
  }

  method RejectExcessDepth(text: Text) returns (tooDeep: bool)
    ensures tooDeep == TooDeep(text)
  {
    var depth := 0;
    var inString, escaped := false, false;
    for i := 0 to |text|
      invariant Run(Outside(0), text) == Run(Scan(depth, inString, escaped), text[i..])
    {
      var character := text[i];
      assert text[i..][1..] == text[i + 1..];
      if inString {
        if escaped {
          escaped := false;
        } else if character == BACKSLASH {
          escaped := true;
        } else if character == QUOTE {
          inString := false;
        }
      } else if character == QUOTE {
        inString := true;
      } else if character == LBRACE || character == LBRACKET {
        depth := depth + 1;
        if depth > MAX_DEPTH { return true; }
      } else if character == RBRACE || character == RBRACKET {
        depth := depth - 1;
      }
    }
    return false;
  }

  // --- structural depth --------------------------------------------------------------------------

  /** Containers nest at most `n` deep. */
  predicate DepthAtMost(v: Value, n: int)
    decreases v
  {
    match v
    case Arr(items) => n > 0 && forall i :: 0 <= i < |items| ==> DepthAtMost(items[i], n - 1)
    case Obj(members) => n > 0 && forall k :: k in members ==> DepthAtMost(members[k], n - 1)
    case _ => true
  }

  ghost predicate AllAtMost(vs: seq<Value>, n: int)
  {
    forall i :: 0 <= i < |vs| ==> DepthAtMost(vs[i], n)
  }

  // --- the scanner over what the reader consumes ---------------------------------------------------

  predicate Plain(c: Code)
  {
    c !in {QUOTE, LBRACE, LBRACKET, RBRACE, RBRACKET}
  }

  lemma {:induction false} SpacesScan(d: int, t: Text)
    ensures Run(Outside(d), t) == Run(Outside(d), SkipSpace(t))
  {
    if t != [] && IsSpace(t[0]) { SpacesScan(d, t[1..]); }
  }

  lemma {:induction false} PlainScan(d: int, t: Text, n: nat)
    requires n <= |t| && forall i :: 0 <= i < n ==> Plain(t[i])
    ensures Run(Outside(d), t) == Run(Outside(d), t[n..])
    decreases n
  {
    if n > 0 {
      assert forall i :: 0 <= i < n - 1 ==> t[1..][i] == t[i + 1];
      PlainScan(d, t[1..], n - 1);
      assert t[1..][n - 1..] == t[n..];
    } else {
      assert t[0..] == t;
    }
  }

  /** In a string, characters that neither quote nor escape are passed over. */
  lemma {:induction false} ContentScan(d: int, t: Text, n: nat)
    requires n <= |t| && forall i :: 0 <= i < n ==> t[i] !in {QUOTE, BACKSLASH}
    ensures Run(Inside(d), t) == Run(Inside(d), t[n..])
    decreases n
  {
    if n > 0 {
      assert forall i :: 0 <= i < n - 1 ==> t[1..][i] == t[i + 1];
      ContentScan(d, t[1..], n - 1);
      assert t[1..][n - 1..] == t[n..];
    } else {
      assert t[0..] == t;
    }
  }

  lemma EscapeScan(d: int, t: Text)
    requires |t| >= 2 && t[0] == BACKSLASH
    ensures Run(Inside(d), t) == Run(Inside(d), t[2..])
  {
    assert t[1..][1..] == t[2..];
  }

  lemma UnicodeScan(d: int, t: Text)
    requires ReadUnicode(t).Some?
    ensures Run(Inside(d), t) == Run(Inside(d), t[ReadUnicode(t).value.1..])
  {
    var n := ReadUnicode(t).value.1;
    ContentScan(d, t, 4);
    if n == 10 {
      var u := t[4..];
      EscapeScan(d, u);
      assert u[2..] == t[6..];
      assert forall i :: 0 <= i < 4 ==> t[6..][i] == t[6 + i];
      ContentScan(d, t[6..], 4);
      assert t[6..][4..] == t[10..];
    }
  }

  /** A string's content and closing quote, whatever brackets and quotes it spells. */
  lemma {:induction false} StringScan(d: int, t: Text)
    requires ReadString(t).Some?
    ensures Run(Inside(d), t) == Run(Outside(d), ReadString(t).value.1)
    decreases |t|
  {
    if t[0] == QUOTE {
    } else if t[0] != BACKSLASH {
      StringScan(d, t[1..]);
    } else {
      EscapeScan(d, t);
      if Unescape(t[1]).Some? {
        StringScan(d, t[2..]);
      } else {
        UnicodeScan(d, t[2..]);
        var n := ReadUnicode(t[2..]).value.1;
        assert t[2..][n..] == t[2 + n..];
        StringScan(d, t[2 + n..]);
      }
    }
  }

  lemma NumberScan(d: int, t: Text)
    requires ReadNumber(t).Some?
    ensures Run(Outside(d), t) == Run(Outside(d), ReadNumber(t).value.1)
  {
    var start := if t != [] && t[0] == DASH then 1 else 0;
    var end := CanonicalDigitsEnd(t, start).value;
    assert forall i :: start <= i < end ==> t[i] == t[start..end][i - start];
    PlainScan(d, t, end);
  }

  lemma LiteralScan(d: int, t: Text, w: Text)
    requires StartsWith(t, w) && w in {NULL_TEXT, TRUE_TEXT, FALSE_TEXT}
    ensures Run(Outside(d), t) == Run(Outside(d), t[|w|..])
  {
    assert forall i :: 0 <= i < |w| ==> t[i] == t[..|w|][i];
    assert forall i :: 0 <= i < |w| ==> Plain(w[i]);
    PlainScan(d, t, |w|);
  }

  /** Scanning a value the reader takes, from depth `d`: refused exactly when the value nests
      deeper than what is left, and otherwise back at depth `d` after it. */
  lemma {:induction false} ValueScan(d: int, text: Text)
    requires d <= MAX_DEPTH && ReadValue(text).Some?
    ensures var (v, rest) := ReadValue(text).value;
            Run(Outside(d), text) == if DepthAtMost(v, MAX_DEPTH - d) then Run(Outside(d), rest) else None
    decreases |text|, 0
  {
    var t := SkipSpace(text);
    SpacesScan(d, text);
    if t[0] == QUOTE {
      StringScan(d, t[1..]);
    } else if t[0] == LBRACE {
      ObjectScan(d, t);
    } else if t[0] == LBRACKET {
      ArrayScan(d, t);
    } else if StartsWith(t, NULL_TEXT) {
      LiteralScan(d, t, NULL_TEXT);
    } else if StartsWith(t, TRUE_TEXT) {
      LiteralScan(d, t, TRUE_TEXT);
    } else if StartsWith(t, FALSE_TEXT) {
      LiteralScan(d, t, FALSE_TEXT);
    } else {
      NumberScan(d, t);
    }
  }

  lemma {:induction false} ArrayScan(d: int, t: Text)
    requires d <= MAX_DEPTH && t != [] && t[0] == LBRACKET && SkipSpace(t) == t && ReadValue(t).Some?
    ensures var (v, rest) := ReadValue(t).value;
            Run(Outside(d), t) == if DepthAtMost(v, MAX_DEPTH - d) then Run(Outside(d), rest) else None
    decreases |t|, 0, 0
  {
    hide ReadItems, StartsWith, ReadString, ReadMembers;
    if d < MAX_DEPTH {
      SpacesScan(d + 1, t[1..]);
      var u := SkipSpace(t[1..]);
      if !(u != [] && u[0] == RBRACKET) { ItemsScan(d + 1, u); }
    }
  }

  lemma {:induction false} ObjectScan(d: int, t: Text)
    requires d <= MAX_DEPTH && t != [] && t[0] == LBRACE && SkipSpace(t) == t && ReadValue(t).Some?
    ensures var (v, rest) := ReadValue(t).value;
            Run(Outside(d), t) == if DepthAtMost(v, MAX_DEPTH - d) then Run(Outside(d), rest) else None
    decreases |t|, 0, 0
  {
    hide ReadItems, StartsWith, ReadString, ReadMembers, FromPairs, ValuesOf;
    if d < MAX_DEPTH {
      SpacesScan(d + 1, t[1..]);
      var u := SkipSpace(t[1..]);
      if !(u != [] && u[0] == RBRACE) {
        var pairs := ReadMembers(u).value.0;
        MembersScan(d + 1, u);
        MembersDepth(pairs, MAX_DEPTH - d - 1);
        assert DepthAtMost(Obj(FromPairs(pairs)), MAX_DEPTH - d) <==> MapAtMost(FromPairs(pairs), MAX_DEPTH - d - 1);
        hide Distinct, AllAtMost, MapAtMost;
      }
    }
  }

  ghost predicate MapAtMost(m: map<Text, Value>, n: int)
  {
    forall k :: k in m ==> DepthAtMost(m[k], n)
  }

  lemma MembersDepth(pairs: seq<(Text, Value)>, n: int)
    requires Distinct(pairs)
    ensures AllAtMost(ValuesOf(pairs), n) <==> MapAtMost(FromPairs(pairs), n)
  {
    FromPairsHas(pairs);
    var m, vs := FromPairs(pairs), ValuesOf(pairs);
    if MapAtMost(m, n) {
      forall i | 0 <= i < |vs| ensures DepthAtMost(vs[i], n) {
        assert pairs[i].0 in m && m[pairs[i].0] == vs[i];
      }
    }
    if AllAtMost(vs, n) {
      forall k | k in m ensures DepthAtMost(m[k], n) {
        var i :| 0 <= i < |pairs| && pairs[i].0 == k;
        assert m[pairs[i].0] == vs[i] && DepthAtMost(vs[i], n);
      }
    }
  }

  ghost function ValuesOf(pairs: seq<(Text, Value)>): (r: seq<Value>)
    ensures |r| == |pairs| && forall i :: 0 <= i < |r| ==> r[i] == pairs[i].1
  {
    seq(|pairs|, i requires 0 <= i < |pairs| => pairs[i].1)
  }

  lemma {:induction false} ItemsScan(d: int, t: Text)
    requires d <= MAX_DEPTH && ReadItems(t).Some?
    ensures var (items, rest) := ReadItems(t).value;
            Run(Outside(d), t) == if AllAtMost(items, MAX_DEPTH - d) then Run(Outside(d - 1), rest) else None
    decreases |t|, 1
  {
    ValueScan(d, t);
    var (v, after) := ReadValue(t).value;
    SpacesScan(d, after);
    var u := SkipSpace(after);
    if u[0] == COMMA {
      ItemsScan(d, u[1..]);
      var more := ReadItems(u[1..]).value.0;
      FirstAndRest(v, more, MAX_DEPTH - d);
    } else {
      assert AllAtMost([v], MAX_DEPTH - d) <==> DepthAtMost([v][0], MAX_DEPTH - d);
    }
  }

  lemma FirstAndRest(v: Value, more: seq<Value>, n: int)
    ensures AllAtMost([v] + more, n) <==> DepthAtMost(v, n) && AllAtMost(more, n)
  {
    var all := [v] + more;
    assert all[0] == v && forall i :: 0 <= i < |more| ==> more[i] == all[i + 1];
  }

  lemma MorePairs(k: Text, v: Value, more: seq<(Text, Value)>, n: int)
    ensures AllAtMost(ValuesOf([(k, v)] + more), n) <==> DepthAtMost(v, n) && AllAtMost(ValuesOf(more), n)
    ensures AllAtMost(ValuesOf([(k, v)]), n) <==> DepthAtMost(v, n)
  {
    FirstAndRest(v, ValuesOf(more), n);
    assert ValuesOf([(k, v)] + more) == [v] + ValuesOf(more);
    var one := ValuesOf([(k, v)]);
    assert one[0] == v;
  }

  /** From a quoted key to the end of its value. */
  lemma {:induction false} MemberScan(d: int, t: Text)
    requires d <= MAX_DEPTH && t != [] && t[0] == QUOTE && ReadString(t[1..]).Some?
    requires var c := SkipSpace(ReadString(t[1..]).value.1); c != [] && c[0] == COLON && ReadValue(c[1..]).Some?
    ensures var c := SkipSpace(ReadString(t[1..]).value.1);
            var (v, after) := ReadValue(c[1..]).value;
            Run(Outside(d), t) == if DepthAtMost(v, MAX_DEPTH - d) then Run(Outside(d), SkipSpace(after)) else None
    decreases |t|, 0, 0
  {
    hide ReadString, ReadValue, DepthAtMost;
    StringScan(d, t[1..]);
    var afterKey := ReadString(t[1..]).value.1;
    SpacesScan(d, afterKey);
    var c := SkipSpace(afterKey);
    assert Run(Outside(d), c) == Run(Outside(d), c[1..]);
    ValueScan(d, c[1..]);
    SpacesScan(d, ReadValue(c[1..]).value.1);
  }

  lemma {:induction false} MembersScan(d: int, text: Text)
    requires d <= MAX_DEPTH && ReadMembers(text).Some?
    ensures var (pairs, rest) := ReadMembers(text).value;
            Run(Outside(d), text) == if AllAtMost(ValuesOf(pairs), MAX_DEPTH - d) then Run(Outside(d - 1), rest) else None
    decreases |text|, 1
  {
    hide ReadString, ReadValue, DepthAtMost, ValuesOf, AllAtMost;
    SpacesScan(d, text);
    var t := SkipSpace(text);
    MemberScan(d, t);
    var (k, afterKey) := ReadString(t[1..]).value;
    var (v, after) := ReadValue(SkipSpace(afterKey)[1..]).value;
    var u := SkipSpace(after);
    if u[0] == COMMA {
      MembersScan(d, u[1..]);
      MorePairs(k, v, ReadMembers(u[1..]).value.0, MAX_DEPTH - d);
    } else {
      MorePairs(k, v, [], MAX_DEPTH - d);
    }
  }

  // --- loading -------------------------------------------------------------------------------------

  datatype LoadError = SourceTooDeep | SourceRefused | Uncanonical(error: CanonError)

  /** Scan the depth, read strictly, and require the value to have canonical text. */
  function LoadText(t: Text): Result<Value, LoadError>
  {
    if TooDeep(t) then Err(SourceTooDeep)
    else
      var v := ReadDocument(t);
      if v.None? then Err(SourceRefused)
      else
        var c := Render(v.value);
        if c.Err? then Err(Uncanonical(c.error)) else Ok(v.value)
  }

  lemma SpacesAlone(d: int, t: Text)
    requires SkipSpace(t) == []
    ensures Run(Outside(d), t) == Some(Outside(d))
  {
    SpacesScan(d, t);
  }

  /** On every text that reads as one document, the scanner refuses if and only if the value nests
      deeper than 64, and its count ends where it began. */
  lemma ScannerIsExact(t: Text)
    requires ReadDocument(t).Some?
    ensures TooDeep(t) <==> !DepthAtMost(ReadDocument(t).value, MAX_DEPTH)
    ensures !TooDeep(t) ==> Run(Outside(0), t) == Some(Outside(0))
  {
    ValueScan(0, t);
    SpacesAlone(0, ReadValue(t).value.1);
  }

  /** A written value loads back as itself exactly when it nests at most 64 deep, and otherwise is
      refused as too deep. */
  lemma LoadUndoesCanonicalize(v: Value)
    requires Render(v).Ok?
    ensures LoadText(Render(v).value) == if DepthAtMost(v, MAX_DEPTH) then Ok(v) else Err(SourceTooDeep)
  {
    CanonicalTextReadsBack(v);
    ScannerIsExact(Render(v).value);
  }

  /** Whatever loads has canonical text, and that text loads as the same value: a stored canonical
      form is a fixed point. */
  lemma LoadedIsStable(t: Text)
    requires LoadText(t).Ok?
    ensures Render(LoadText(t).value).Ok?
    ensures LoadText(Render(LoadText(t).value).value) == LoadText(t)
  {
    ScannerIsExact(t);
    LoadUndoesCanonicalize(LoadText(t).value);
  }
}
