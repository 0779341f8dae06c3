/** The canonical writer of vfy/canon.py: an explicit work stack, against the recursive rendering
    of a value. */
module Canon {
  import opened Wrappers
  import opened Text
  import opened Values

  const MAX_SAFE_INTEGER: int := 9007199254740991
  const MIN_SAFE_INTEGER: int := -9007199254740991

  const NULL_TEXT: Text := [0x6E, 0x75, 0x6C, 0x6C]
  const TRUE_TEXT: Text := [0x74, 0x72, 0x75, 0x65]
  const FALSE_TEXT: Text := [0x66, 0x61, 0x6C, 0x73, 0x65]

  datatype CanonError = FloatNotPermitted | CanonicalFormInvalid | SurrogateNotPermitted

  type Rendering = Result<Text, CanonError>

  // --- scalars -----------------------------------------------------------------------------------

  /** The letter of a named escape: `"`, `\`, and b, t, n, f, r. */
  function NamedEscape(c: Code): Option<Code>
  {
    if c == QUOTE || c == BACKSLASH then Some(c)
    else if c == 0x08 then Some(0x62)
    else if c == TAB then Some(0x74)
    else if c == LF then Some(0x6E)
    else if c == 0x0C then Some(0x66)
    else if c == CR then Some(0x72)
    else None
  }

  function HexDigit(n: nat): Code
    requires n < 16
  {
    if n < 10 then ZERO + n else 0x61 + n - 10
  }

  function Escaped(c: Code): (t: Text)
    ensures |t| > 0
  {
    if NamedEscape(c).Some? then [BACKSLASH, NamedEscape(c).value]
    else if c < SPACE then [BACKSLASH, 0x75, ZERO, ZERO, HexDigit(c / 16), HexDigit(c % 16)]
    else [c]
  }

  predicate SurrogateFree(s: Text)
  {
    forall i :: 0 <= i < |s| ==> !IsSurrogate(s[i])
  }

  function Escapes(s: Text): Text
  {
    if s == [] then [] else Escaped(s[0]) + Escapes(s[1..])
  }

  function RenderString(s: Text): Rendering
  {
    if SurrogateFree(s) then Ok([QUOTE] + Escapes(s) + [QUOTE]) else Err(SurrogateNotPermitted)
  }

  lemma {:induction false} EscapesSnoc(s: Text, c: Code)
    ensures Escapes(s + [c]) == Escapes(s) + Escaped(c)
  {
    if s == [] {
      assert [c][1..] == [] && Escapes([]) == [];
    } else {
      EscapesSnoc(s[1..], c);
      assert (s + [c])[1..] == s[1..] + [c];
    }
  }

  method StringText(value: Text) returns (r: Rendering)
    ensures r == RenderString(value)
  {
    var pieces := [QUOTE];
    for i := 0 to |value|
      invariant SurrogateFree(value[..i])
      invariant pieces == [QUOTE] + Escapes(value[..i])
    {
      var character := value[i];
      EscapesSnoc(value[..i], character);
      assert value[..i + 1] == value[..i] + [character];
      var escape := NamedEscape(character);
      if escape.Some? {
        pieces := pieces + [BACKSLASH, escape.value];
      } else if character < SPACE {
        pieces := pieces + [BACKSLASH, 0x75, ZERO, ZERO, HexDigit(character / 16), HexDigit(character % 16)];
      } else if IsSurrogate(character) {
        return Err(SurrogateNotPermitted);
      } else {
        pieces := pieces + [character];
      }
    }
    assert value[..|value|] == value;
    pieces := pieces + [QUOTE];
    return Ok(pieces);
  }

  function IntegerText(n: int): Rendering
  {
    if n < MIN_SAFE_INTEGER || n > MAX_SAFE_INTEGER then Err(CanonicalFormInvalid)
    else Ok(if n < 0 then [DASH] + Digits(-n) else Digits(n))
  }

  // --- the recursive rendering -------------------------------------------------------------------

  /** One rendering after another; the first failure in document order is the outcome. */
  function Then(a: Rendering, b: Rendering): Rendering
  {
    if a.Err? then a else if b.Err? then b else Ok(a.value + b.value)
  }

  function Separator(i: nat): Text
  {
    if i == 0 then [] else [COMMA]
  }

  function Render(v: Value): Rendering
    decreases v
  {
    match v
    case Null => Ok(NULL_TEXT)
    case Bool(b) => Ok(if b then TRUE_TEXT else FALSE_TEXT)
    case Float => Err(FloatNotPermitted)
    case Int(n) => IntegerText(n)
    case Str(s) => RenderString(s)
    case Arr(items) => Then(Ok([LBRACKET]), RenderItems(v, 0))
    case Obj(members) => Then(Ok([LBRACE]), RenderMembers(v, Sorted(members.Keys), 0))
    case Foreign => Err(CanonicalFormInvalid)
  }

  /** Items from `i` on, then the closing bracket. */
  function RenderItems(v: Value, i: nat): Rendering
    requires v.Arr? && i <= |v.items|
    decreases v, |v.items| - i
  {
    if i == |v.items| then Ok([RBRACKET])
    else Then(Ok(Separator(i)), Then(Render(v.items[i]), RenderItems(v, i + 1)))
  }

  predicate AllIn(keys: seq<Text>, m: map<Text, Value>)
  {
    forall k :: k in keys ==> k in m
  }

  /** Members from key `i` on, then the closing brace. */
  function RenderMembers(v: Value, keys: seq<Text>, i: nat): Rendering
    requires v.Obj? && AllIn(keys, v.members) && i <= |keys|
    decreases v, |keys| - i
  {
    if i == |keys| then Ok([RBRACE])
    else
      Then(Ok(Separator(i)),
           Then(Then(RenderString(keys[i]), Ok([COLON])),
                Then(Render(v.members[keys[i]]), RenderMembers(v, keys, i + 1))))
  }

  lemma ThenAssociates(a: Rendering, b: Rendering, c: Rendering)
    ensures Then(Then(a, b), c) == Then(a, Then(b, c))
    ensures Then(Ok([]), a) == a && Then(a, Ok([])) == a
  {
    if a.Ok? {
      assert [] + a.value == a.value && a.value + [] == a.value;
      if b.Ok? && c.Ok? { assert (a.value + b.value) + c.value == a.value + (b.value + c.value); }
    }
  }

  // --- the work stack ----------------------------------------------------------------------------

  /** Text already rendered, a value still to be written, or a key and its colon. */
  datatype Frame = TextFrame(text: Text) | ValueFrame(value: Value) | KeyFrame(key: Text)

  function RenderFrame(f: Frame): Rendering
  {
    match f
    case TextFrame(t) => Ok(t)
    case ValueFrame(v) => Render(v)
    case KeyFrame(k) => Then(RenderString(k), Ok([COLON]))
  }

  /** Frames in document order. */
  function RenderFrames(fs: seq<Frame>): Rendering
  {
    if fs == [] then Ok([]) else Then(RenderFrame(fs[0]), RenderFrames(fs[1..]))
  }

  /** The stack's top is its last element. */
  function RenderStack(stack: seq<Frame>): Rendering
  {
    if stack == [] then Ok([]) else Then(RenderFrame(stack[|stack| - 1]), RenderStack(stack[..|stack| - 1]))
  }

  function Reversed(fs: seq<Frame>): seq<Frame>
  {
    if fs == [] then [] else Reversed(fs[1..]) + [fs[0]]
  }

  lemma {:induction false} PushedFramesComeFirst(stack: seq<Frame>, fs: seq<Frame>)
    ensures RenderStack(stack + Reversed(fs)) == Then(RenderFrames(fs), RenderStack(stack))
  {
    if fs == [] {
      assert stack + [] == stack;
      ThenAssociates(RenderStack(stack), Ok([]), Ok([]));
    } else {
      var s := stack + Reversed(fs);
      assert s[..|s| - 1] == stack + Reversed(fs[1..]) && s[|s| - 1] == fs[0];
      PushedFramesComeFirst(stack, fs[1..]);
      ThenAssociates(RenderFrame(fs[0]), RenderFrames(fs[1..]), RenderStack(stack));
    }
  }

  function SeparatorFrames(i: nat): seq<Frame>
  {
    if i == 0 then [] else [TextFrame([COMMA])]
  }

  function ItemFrames(items: seq<Value>, i: nat): seq<Frame>
    requires i <= |items|
    decreases |items| - i
  {
    if i == |items| then [TextFrame([RBRACKET])]
    else SeparatorFrames(i) + [ValueFrame(items[i])] + ItemFrames(items, i + 1)
  }

  function MemberFrames(m: map<Text, Value>, keys: seq<Text>, i: nat): seq<Frame>
    requires AllIn(keys, m) && i <= |keys|
    decreases |keys| - i
  {
    if i == |keys| then [TextFrame([RBRACE])]
    else (SeparatorFrames(i) + [KeyFrame(keys[i]), ValueFrame(m[keys[i]])]) + MemberFrames(m, keys, i + 1)
  }

  lemma FramesAssociate(a: seq<Frame>, b: seq<Frame>, c: seq<Frame>)
    ensures (a + b) + c == a + (b + c)
  {
  }

  lemma {:induction false} FramesConcat(a: seq<Frame>, b: seq<Frame>)
    ensures RenderFrames(a + b) == Then(RenderFrames(a), RenderFrames(b))
  {
    if a == [] {
      assert a + b == b;
      ThenAssociates(RenderFrames(b), Ok([]), Ok([]));
    } else {
      assert (a + b)[1..] == a[1..] + b;
      FramesConcat(a[1..], b);
      ThenAssociates(RenderFrame(a[0]), RenderFrames(a[1..]), RenderFrames(b));
    }
  }

  lemma FrameAlone(f: Frame)
    ensures RenderFrames([f]) == RenderFrame(f)
  {
    assert [f][1..] == [];
    ThenAssociates(RenderFrame(f), Ok([]), Ok([]));
  }

  lemma SeparatorFramesRender(i: nat)
    ensures RenderFrames(SeparatorFrames(i)) == Ok(Separator(i))
  {
    if i > 0 { FrameAlone(TextFrame([COMMA])); }
  }

  lemma {:induction false} ItemFramesRender(v: Value, i: nat)
    requires v.Arr? && i <= |v.items|
    ensures RenderFrames(ItemFrames(v.items, i)) == RenderItems(v, i)
    decreases |v.items| - i
  {
    if i == |v.items| {
      FrameAlone(TextFrame([RBRACKET]));
    } else {
      ItemFramesRender(v, i + 1);
      SeparatorFramesRender(i);
      FrameAlone(ValueFrame(v.items[i]));
      FramesConcat(SeparatorFrames(i) + [ValueFrame(v.items[i])], ItemFrames(v.items, i + 1));
      FramesConcat(SeparatorFrames(i), [ValueFrame(v.items[i])]);
      ThenAssociates(Ok(Separator(i)), Render(v.items[i]), RenderItems(v, i + 1));
    }
  }

  lemma {:induction false} MemberFramesRender(v: Value, keys: seq<Text>, i: nat)
    requires v.Obj? && AllIn(keys, v.members) && i <= |keys|
    ensures RenderFrames(MemberFrames(v.members, keys, i)) == RenderMembers(v, keys, i)
    decreases |keys| - i
  {
    if i == |keys| {
      FrameAlone(TextFrame([RBRACE]));
    } else {
      var kf, vf, rest := KeyFrame(keys[i]), ValueFrame(v.members[keys[i]]), MemberFrames(v.members, keys, i + 1);
      MemberFramesRender(v, keys, i + 1);
      SeparatorFramesRender(i);
      FrameAlone(kf);
      FrameAlone(vf);
      assert [kf, vf] == [kf] + [vf];
      FramesConcat([kf], [vf]);
      FramesConcat(SeparatorFrames(i), [kf, vf]);
      FramesConcat(SeparatorFrames(i) + [kf, vf], rest);
      ThenAssociates(Ok(Separator(i)), Then(RenderFrame(kf), RenderFrame(vf)), RenderFrames(rest));
      ThenAssociates(RenderFrame(kf), RenderFrame(vf), RenderFrames(rest));
    }
  }

  // --- work left, the termination measure ----------------------------------------------------------

  ghost function Work(v: Value): nat
    decreases v
  {
    match v
    case Arr(items) => 2 + ItemsWork(v, 0)
    case Obj(members) => 2 + MembersWork(v, Sorted(members.Keys), 0)
    case _ => 1
  }

  ghost function ItemsWork(v: Value, i: nat): nat
    requires v.Arr? && i <= |v.items|
    decreases v, |v.items| - i
  {
    if i == |v.items| then 1 else 1 + Work(v.items[i]) + ItemsWork(v, i + 1)
  }

  ghost function MembersWork(v: Value, keys: seq<Text>, i: nat): nat
    requires v.Obj? && AllIn(keys, v.members) && i <= |keys|
    decreases v, |keys| - i
  {
    if i == |keys| then 1 else 2 + Work(v.members[keys[i]]) + MembersWork(v, keys, i + 1)
  }

  ghost function FrameWork(f: Frame): nat
  {
    if f.ValueFrame? then Work(f.value) else 1
  }

  ghost function StackWork(stack: seq<Frame>): nat
  {
    if stack == [] then 0 else FrameWork(stack[|stack| - 1]) + StackWork(stack[..|stack| - 1])
  }

  lemma {:induction false} StackWorkConcat(a: seq<Frame>, b: seq<Frame>)
    ensures StackWork(a + b) == StackWork(a) + StackWork(b)
  {
    if b == [] {
      assert a + b == a;
    } else {
      assert (a + b)[..|a + b| - 1] == a + b[..|b| - 1];
      StackWorkConcat(a, b[..|b| - 1]);
    }
  }

  lemma {:induction false} StackWorkReversed(fs: seq<Frame>)
    ensures StackWork(Reversed(fs)) == StackWork(fs)
  {
    if fs != [] {
      StackWorkReversed(fs[1..]);
      StackWorkConcat(Reversed(fs[1..]), [fs[0]]);
      StackWorkConcat([fs[0]], fs[1..]);
      assert [fs[0]] + fs[1..] == fs;
    }
  }

  lemma {:induction false} ItemFramesWork(v: Value, i: nat)
    requires v.Arr? && i <= |v.items|
    ensures StackWork(ItemFrames(v.items, i)) <= ItemsWork(v, i)
    decreases |v.items| - i
  {
    if i < |v.items| {
      ItemFramesWork(v, i + 1);
      var f := ValueFrame(v.items[i]);
      StackWorkConcat(SeparatorFrames(i) + [f], ItemFrames(v.items, i + 1));
      StackWorkConcat(SeparatorFrames(i), [f]);
      OneFrameWork(f);
      OneFrameWork(TextFrame([COMMA]));
    } else {
      OneFrameWork(TextFrame([RBRACKET]));
    }
  }

  lemma OneFrameWork(f: Frame)
    ensures StackWork([f]) == FrameWork(f) && StackWork([]) == 0
  {
    assert [f][..0] == [];
  }

  lemma {:induction false} MemberFramesWork(v: Value, keys: seq<Text>, i: nat)
    requires v.Obj? && AllIn(keys, v.members) && i <= |keys|
    ensures StackWork(MemberFrames(v.members, keys, i)) <= MembersWork(v, keys, i)
    decreases |keys| - i
  {
    if i < |keys| {
      MemberFramesWork(v, keys, i + 1);
      var kf, vf := KeyFrame(keys[i]), ValueFrame(v.members[keys[i]]);
      StackWorkConcat(SeparatorFrames(i) + [kf, vf], MemberFrames(v.members, keys, i + 1));
      StackWorkConcat(SeparatorFrames(i), [kf, vf]);
      StackWorkConcat([kf], [vf]);
      assert [kf, vf] == [kf] + [vf];
      OneFrameWork(kf);
      OneFrameWork(vf);
      OneFrameWork(TextFrame([COMMA]));
    } else {
      OneFrameWork(TextFrame([RBRACE]));
    }
  }

  // --- the loops -----------------------------------------------------------------------------------

  method ArrayFrames(value: seq<Value>) returns (frames: seq<Frame>)
    ensures frames == [TextFrame([LBRACKET])] + ItemFrames(value, 0)
  {
    frames := [TextFrame([LBRACKET])];
    for index := 0 to |value|
      invariant frames + ItemFrames(value, index) == [TextFrame([LBRACKET])] + ItemFrames(value, 0)
    {
      FramesAssociate(frames, SeparatorFrames(index) + [ValueFrame(value[index])], ItemFrames(value, index + 1));
      FramesAssociate(frames, SeparatorFrames(index), [ValueFrame(value[index])]);
      frames := frames + (if index > 0 then [TextFrame([COMMA])] else []);
      frames := frames + [ValueFrame(value[index])];
    }
    frames := frames + [TextFrame([RBRACKET])];
  }

  method ObjectFrames(value: map<Text, Value>) returns (frames: seq<Frame>)
    ensures frames == [TextFrame([LBRACE])] + MemberFrames(value, Sorted(value.Keys), 0)
  {
    var keys := Sorted(value.Keys);
    frames := [TextFrame([LBRACE])];
    for index := 0 to |keys|
      invariant frames + MemberFrames(value, keys, index) == [TextFrame([LBRACE])] + MemberFrames(value, keys, 0)
    {
      var pair := [KeyFrame(keys[index]), ValueFrame(value[keys[index]])];
      FramesAssociate(frames, SeparatorFrames(index) + pair, MemberFrames(value, keys, index + 1));
      FramesAssociate(frames, SeparatorFrames(index), pair);
      frames := frames + (if index > 0 then [TextFrame([COMMA])] else []);
      frames := frames + pair;
    }
    frames := frames + [TextFrame([RBRACE])];
  }

  /** Frames pushed for a container render as the container and leave less work. */
  lemma ContainerPushed(stack: seq<Frame>, v: Value, open: Frame, rest: seq<Frame>)
    requires v.Arr? || v.Obj?
    requires v.Arr? ==> open == TextFrame([LBRACKET]) && rest == ItemFrames(v.items, 0)
    requires v.Obj? ==> open == TextFrame([LBRACE]) && rest == MemberFrames(v.members, Sorted(v.members.Keys), 0)
    ensures RenderStack(stack + Reversed([open] + rest)) == Then(Render(v), RenderStack(stack))
    ensures StackWork(stack + Reversed([open] + rest)) < Work(v) + StackWork(stack)
  {
    var fs := [open] + rest;
    PushedFramesComeFirst(stack, fs);
    assert fs[0] == open && fs[1..] == rest;
    if v.Arr? {
      ItemFramesRender(v, 0);
      ItemFramesWork(v, 0);
    } else {
      MemberFramesRender(v, Sorted(v.members.Keys), 0);
      MemberFramesWork(v, Sorted(v.members.Keys), 0);
    }
    StackWorkConcat(stack, Reversed(fs));
    StackWorkReversed(fs);
    StackWorkConcat([open], rest);
    OneFrameWork(open);
  }

  /** The explicit stack writes exactly the recursive rendering, and refuses with the failure the
      recursive walk would meet first. */
  method Canonicalize(value: Value) returns (r: Rendering)
    ensures r == Render(value)
  {
    var out: Text := [];
    var stack := [ValueFrame(value)];
    assert stack[..0] == [];
    ThenAssociates(Render(value), Ok([]), Ok([]));
    while stack != []
      invariant Render(value) == Then(Ok(out), RenderStack(stack))
      decreases StackWork(stack)
    {
      var frame := stack[|stack| - 1];
      stack := stack[..|stack| - 1];
      ThenAssociates(Ok(out), RenderFrame(frame), RenderStack(stack));
      match frame {
        case TextFrame(text) => out := out + text;
        case KeyFrame(key) =>
          var text := StringText(key);
          if text.Err? { return text; }
          out := out + (text.value + [COLON]);
        case ValueFrame(item) =>
          match item {
            case Null => out := out + NULL_TEXT;
            case Bool(b) => out := out + if b then TRUE_TEXT else FALSE_TEXT;
            case Float => return Err(FloatNotPermitted);
            case Int(n) =>
              var text := IntegerText(n);
              if text.Err? { return text; }
              out := out + text.value;
            case Str(s) =>
              var text := StringText(s);
              if text.Err? { return text; }
              out := out + text.value;
            case Arr(items) =>
              var frames := ArrayFrames(items);
              ContainerPushed(stack, item, TextFrame([LBRACKET]), ItemFrames(items, 0));
              stack := stack + Reversed(frames);
            case Obj(members) =>
              var frames := ObjectFrames(members);
              ContainerPushed(stack, item, TextFrame([LBRACE]), MemberFrames(members, Sorted(members.Keys), 0));
              stack := stack + Reversed(frames);
            case Foreign => return Err(CanonicalFormInvalid);
          }
      }
    }
    assert out + [] == out;
    return Ok(out);
  }
}
