/** The stack machine over YAML parser events of vfy/load.py, against building the value by recursion
    over the node tree the events serialise. */
module YamlEvents {
  import opened Wrappers
  import opened Text
  import opened Values
  import opened Canon
  import opened DepthScan
  import opened Load

  const MERGE_KEY: Text := [LESS, LESS]

  datatype YamlError = SyntaxInvalid | ConstructUnsupported | TooDeepSource | FormInvalid | FloatRefused

  /** `plain` is the scalar style; `tagged` and `anchored` say an explicit tag or anchor is there. */
  datatype Event =
    | ScalarEvent(text: Text, plain: bool, tagged: bool, anchored: bool)
    | AliasEvent
    | MappingStart(tagged: bool, anchored: bool)
    | MappingEnd
    | SequenceStart(tagged: bool, anchored: bool)
    | SequenceEnd
    | DocumentStart
    | DocumentEnd
    | StreamMark

  /** Which failure, if any, a plain scalar that is not `true`, `false`, `null` or a canonical integer
      draws: the reserved notations of other YAML implementations. */
  type Reserved = Text -> Option<YamlError>

  // --- scalars ---------------------------------------------------------------------------------------

  /** A text of the form `-?(0|[1-9][0-9]*)`, as the integer it spells. */
  function CanonicalInteger(t: Text): Option<int>
  {
    var start := if t != [] && t[0] == DASH then 1 else 0;
    var end := CanonicalDigitsEnd(t, start);
    if end != Some(|t|) then None
    else
      var n: int := Num(t[start..]);
      Some(if start == 1 then -n else n)
  }

  function PlainScalar(reserved: Reserved, t: Text): Result<Value, YamlError>
  {
    if t == TRUE_TEXT then Ok(Bool(true))
    else if t == FALSE_TEXT then Ok(Bool(false))
    else if t == NULL_TEXT then Ok(Null)
    else if CanonicalInteger(t).Some? then
      var n := CanonicalInteger(t).value;
      if n < MIN_SAFE_INTEGER || n > MAX_SAFE_INTEGER then Err(FormInvalid) else Ok(Int(n))
    else if reserved(t).Some? then Err(reserved(t).value)
    else Ok(Str(t))
  }

  function ScalarValue(reserved: Reserved, e: Event): Result<Value, YamlError>
    requires e.ScalarEvent?
  {
    if e.tagged then Err(ConstructUnsupported)
    else if e.plain then PlainScalar(reserved, e.text)
    else Ok(Str(e.text))
  }

  // --- the machine -----------------------------------------------------------------------------------

  /** An open container; a mapping remembers a key waiting for its value and all keys seen. */
  datatype Frame =
    | MapFrame(mapping: map<Text, Value>, pending: Option<Text>, seen: set<Text>)
    | SeqFrame(items: seq<Value>)

  datatype Machine = Machine(stack: seq<Frame>, root: Option<Value>)

  /** Put a finished value where it belongs: the root, the open sequence, or the open mapping, as key
      or as value. */
  function Place(m: Machine, v: Value): Result<Machine, YamlError>
  {
    if m.stack == [] then Ok(m.(root := Some(v)))
    else
      var top := m.stack[|m.stack| - 1];
      var below := m.stack[..|m.stack| - 1];
      match top
      case SeqFrame(items) => Ok(m.(stack := below + [SeqFrame(items + [v])]))
      case MapFrame(mapping, pending, seen) =>
        if pending.Some? then Ok(m.(stack := below + [MapFrame(mapping[pending.value := v], None, seen)]))
        else if !v.Str? then Err(FormInvalid)
        else if v.text == MERGE_KEY then Err(ConstructUnsupported)
        else if v.text in seen then Err(FormInvalid)
        else Ok(m.(stack := below + [MapFrame(mapping, Some(v.text), seen + {v.text})]))
  }

  function Open(m: Machine, f: Frame, tagged: bool, anchored: bool): Result<Machine, YamlError>
  {
    if anchored || tagged then Err(ConstructUnsupported)
    else if |m.stack| + 1 > MAX_DEPTH then Err(TooDeepSource)
    else Ok(m.(stack := m.stack + [f]))
  }

  /** Close the innermost container; with none open the host raises, which no parser stream does. */
  function Close(m: Machine): Result<Machine, YamlError>
  {
    if m.stack == [] then Err(SyntaxInvalid)
    else
      var top := m.stack[|m.stack| - 1];
      var popped := m.(stack := m.stack[..|m.stack| - 1]);
      match top
      case SeqFrame(items) => Place(popped, Arr(items))
      case MapFrame(mapping, pending, _) => if pending.Some? then Err(SyntaxInvalid) else Place(popped, Obj(mapping))
  }

  function StepEvent(reserved: Reserved, m: Machine, e: Event): Result<Machine, YamlError>
  {
    match e
    case AliasEvent => Err(ConstructUnsupported)
    case ScalarEvent(_, _, _, anchored) =>
      if anchored then Err(ConstructUnsupported)
      else
        var v := ScalarValue(reserved, e);
        if v.Err? then Err(v.error) else Place(m, v.value)
    case MappingStart(tagged, anchored) => Open(m, MapFrame(map[], None, {}), tagged, anchored)
    case SequenceStart(tagged, anchored) => Open(m, SeqFrame([]), tagged, anchored)
    case MappingEnd => Close(m)
    case SequenceEnd => Close(m)
    case _ => Ok(m)
  }

  function RunEvents(reserved: Reserved, m: Machine, events: seq<Event>): Result<Machine, YamlError>
    decreases |events|
  {
    if events == [] then Ok(m)
    else
      var n := StepEvent(reserved, m, events[0]);
      if n.Err? then n else RunEvents(reserved, n.value, events[1..])
  }

  /** The root once every event is consumed. */
  function Finish(m: Result<Machine, YamlError>): Result<Value, YamlError>
  {
    if m.Err? then Err(m.error)
    else if m.value.stack != [] || m.value.root.None? then Err(SyntaxInvalid)
    else Ok(m.value.root.value)
  }

  function IndexOf(events: seq<Event>, e: Event, i: nat): (r: nat)
    requires i <= |events|
    ensures i <= r <= |events|
    ensures forall k :: i <= k < r ==> events[k] != e
    ensures r < |events| ==> events[r] == e
    decreases |events| - i
  {
    if i == |events| || events[i] == e then i else IndexOf(events, e, i + 1)
  }

  /** The events of the only document; every document start a parser emits has its document end. */
  function Body(events: seq<Event>): Result<seq<Event>, YamlError>
  {
    var start := IndexOf(events, DocumentStart, 0);
    if start == |events| then Err(SyntaxInvalid)
    else if IndexOf(events, DocumentStart, start + 1) < |events| then Err(SyntaxInvalid)
    else
      var end := IndexOf(events, DocumentEnd, 0);
      Ok(if start + 1 <= end then events[start + 1..end] else [])
  }

  function ValueOfBody(reserved: Reserved, body: seq<Event>): Result<Value, YamlError>
  {
    if |body| == 1 && body[0].ScalarEvent? && body[0].plain && body[0].text == [] then Err(SyntaxInvalid)
    else if body == [] || !body[0].MappingStart? then Err(ConstructUnsupported)
    else Finish(RunEvents(reserved, Machine([], None), body))
  }

  method ValueFromEvents(reserved: Reserved, events: seq<Event>) returns (r: Result<Value, YamlError>)
    ensures r == var body := Body(events); if body.Err? then Err(body.error) else ValueOfBody(reserved, body.value)
  {
    var body := Body(events);
    if body.Err? { return Err(body.error); }
    var b := body.value;
    if |b| == 1 && b[0].ScalarEvent? && b[0].plain && b[0].text == [] { return Err(SyntaxInvalid); }
    if b == [] || !b[0].MappingStart? { return Err(ConstructUnsupported); }
    var m := Machine([], None);
    for i := 0 to |b|
      invariant RunEvents(reserved, Machine([], None), b) == RunEvents(reserved, m, b[i..])
    {
      assert b[i..][0] == b[i] && b[i..][1..] == b[i + 1..];
      var n := StepEvent(reserved, m, b[i]);
      if n.Err? { return Err(n.error); }
      m := n.value;
    }
    return Finish(Ok(m));
  }

  // --- node trees ------------------------------------------------------------------------------------

  /** What a YAML parser's event stream serialises: keys may be any node, and repeat. */
  datatype Node =
    | ScalarNode(text: Text, plain: bool, tagged: bool, anchored: bool)
    | AliasNode
    | MappingNode(pairs: seq<(Node, Node)>, tagged: bool, anchored: bool)
    | SequenceNode(items: seq<Node>, tagged: bool, anchored: bool)

  function Events(n: Node): seq<Event>
    decreases n
  {
    match n
    case ScalarNode(text, plain, tagged, anchored) => [ScalarEvent(text, plain, tagged, anchored)]
    case AliasNode => [AliasEvent]
    case MappingNode(pairs, tagged, anchored) => [MappingStart(tagged, anchored)] + PairEvents(n, 0)
    case SequenceNode(items, tagged, anchored) => [SequenceStart(tagged, anchored)] + ItemEvents(n, 0)
  }

  function PairEvents(n: Node, i: nat): seq<Event>
    requires n.MappingNode? && i <= |n.pairs|
    decreases n, |n.pairs| - i
  {
    if i == |n.pairs| then [MappingEnd] else Events(n.pairs[i].0) + (Events(n.pairs[i].1) + PairEvents(n, i + 1))
  }

  function ItemEvents(n: Node, i: nat): seq<Event>
    requires n.SequenceNode? && i <= |n.items|
    decreases n, |n.items| - i
  {
    if i == |n.items| then [SequenceEnd] else Events(n.items[i]) + ItemEvents(n, i + 1)
  }

  // --- the reference: recursion over the tree --------------------------------------------------------

  /** The value of a node inside `depth` containers, or its first failure in document order. */
  function Build(reserved: Reserved, n: Node, depth: nat): Result<Value, YamlError>
    decreases n
  {
    match n
    case AliasNode => Err(ConstructUnsupported)
    case ScalarNode(text, plain, tagged, anchored) =>
      if anchored then Err(ConstructUnsupported) else ScalarValue(reserved, ScalarEvent(text, plain, tagged, anchored))
    case MappingNode(pairs, tagged, anchored) =>
      if anchored || tagged then Err(ConstructUnsupported)
      else if depth + 1 > MAX_DEPTH then Err(TooDeepSource)
      else BuildPairs(reserved, n, 0, map[], depth + 1)
    case SequenceNode(items, tagged, anchored) =>
      if anchored || tagged then Err(ConstructUnsupported)
      else if depth + 1 > MAX_DEPTH then Err(TooDeepSource)
      else BuildItems(reserved, n, 0, [], depth + 1)
  }

  /** Pairs from `i` on, added to the mapping so far: keys are strings, new, and not the merge key. */
  function BuildPairs(reserved: Reserved, n: Node, i: nat, sofar: map<Text, Value>, depth: nat): Result<Value, YamlError>
    requires n.MappingNode? && i <= |n.pairs|
    decreases n, |n.pairs| - i
  {
    if i == |n.pairs| then Ok(Obj(sofar))
    else
      var k := Build(reserved, n.pairs[i].0, depth);
      if k.Err? then k
      else if !k.value.Str? then Err(FormInvalid)
      else if k.value.text == MERGE_KEY then Err(ConstructUnsupported)
      else if k.value.text in sofar then Err(FormInvalid)
      else
        var v := Build(reserved, n.pairs[i].1, depth);
        if v.Err? then v else BuildPairs(reserved, n, i + 1, sofar[k.value.text := v.value], depth)
  }

  function BuildItems(reserved: Reserved, n: Node, i: nat, sofar: seq<Value>, depth: nat): Result<Value, YamlError>
    requires n.SequenceNode? && i <= |n.items|
    decreases n, |n.items| - i
  {
    if i == |n.items| then Ok(Arr(sofar))
    else
      var v := Build(reserved, n.items[i], depth);
      if v.Err? then v else BuildItems(reserved, n, i + 1, sofar + [v.value], depth)
  }

  // --- the machine builds what recursion builds ------------------------------------------------------

  lemma {:induction false} RunConcat(reserved: Reserved, m: Machine, a: seq<Event>, b: seq<Event>)
    ensures RunEvents(reserved, m, a + b)
         == var n := RunEvents(reserved, m, a); if n.Err? then n else RunEvents(reserved, n.value, b)
    decreases |a|
  {
    if a == [] {
      assert a + b == b;
    } else {
      assert (a + b)[1..] == a[1..] + b;
      var n := StepEvent(reserved, m, a[0]);
      if n.Ok? { RunConcat(reserved, n.value, a[1..], b); }
    }
  }

  lemma RunOne(reserved: Reserved, m: Machine, e: Event)
    ensures RunEvents(reserved, m, [e]) == StepEvent(reserved, m, e)
  {
    assert [e][1..] == [];
  }

  /** Running a node's events is building the node and placing the value. */
  ghost function BuildAndPlace(reserved: Reserved, m: Machine, n: Node): Result<Machine, YamlError>
  {
    var v := Build(reserved, n, |m.stack|);
    if v.Err? then Err(v.error) else Place(m, v.value)
  }

  lemma {:induction false} NodeRuns(reserved: Reserved, m: Machine, n: Node)
    ensures RunEvents(reserved, m, Events(n)) == BuildAndPlace(reserved, m, n)
    decreases n
  {
    hide RunEvents, PairEvents, ItemEvents, BuildPairs, BuildItems, Place;
    match n {
      case AliasNode => RunOne(reserved, m, AliasEvent);
      case ScalarNode(text, plain, tagged, anchored) => RunOne(reserved, m, ScalarEvent(text, plain, tagged, anchored));
      case MappingNode(pairs, tagged, anchored) =>
        var start := MappingStart(tagged, anchored);
        RunConcat(reserved, m, [start], PairEvents(n, 0));
        RunOne(reserved, m, start);
        var nothing: map<Text, Value> := map[];
        assert nothing.Keys == {};
        if !anchored && !tagged && |m.stack| + 1 <= MAX_DEPTH { PairsRun(reserved, m, n, 0, map[]); }
      case SequenceNode(items, tagged, anchored) =>
        var start := SequenceStart(tagged, anchored);
        RunConcat(reserved, m, [start], ItemEvents(n, 0));
        RunOne(reserved, m, start);
        if !anchored && !tagged && |m.stack| + 1 <= MAX_DEPTH { ItemsRun(reserved, m, n, 0, []); }
    }
  }

  lemma {:induction false} ItemsRun(reserved: Reserved, m: Machine, n: Node, i: nat, sofar: seq<Value>)
    requires n.SequenceNode? && i <= |n.items|
    ensures RunEvents(reserved, m.(stack := m.stack + [SeqFrame(sofar)]), ItemEvents(n, i))
         == var v := BuildItems(reserved, n, i, sofar, |m.stack| + 1); if v.Err? then Err(v.error) else Place(m, v.value)
    decreases n, |n.items| - i
  {
    var open := m.(stack := m.stack + [SeqFrame(sofar)]);
    assert open.stack[..|m.stack|] == m.stack;
    assert m.(stack := m.stack) == m;
    if i == |n.items| {
      RunOne(reserved, open, SequenceEnd);
    } else {
      RunConcat(reserved, open, Events(n.items[i]), ItemEvents(n, i + 1));
      NodeRuns(reserved, open, n.items[i]);
      var v := Build(reserved, n.items[i], |m.stack| + 1);
      if v.Ok? { ItemsRun(reserved, m, n, i + 1, sofar + [v.value]); }
      hide RunEvents, Events;
    }
  }

  lemma KeyPlaced(m: Machine, sofar: map<Text, Value>, v: Value)
    ensures Place(m.(stack := m.stack + [MapFrame(sofar, None, sofar.Keys)]), v)
         == if !v.Str? then Err(FormInvalid)
            else if v.text == MERGE_KEY then Err(ConstructUnsupported)
            else if v.text in sofar then Err(FormInvalid)
            else Ok(m.(stack := m.stack + [MapFrame(sofar, Some(v.text), sofar.Keys + {v.text})]))
  {
    assert (m.stack + [MapFrame(sofar, None, sofar.Keys)])[..|m.stack|] == m.stack;
  }

  lemma ValuePlaced(m: Machine, sofar: map<Text, Value>, key: Text, v: Value)
    ensures Place(m.(stack := m.stack + [MapFrame(sofar, Some(key), sofar.Keys + {key})]), v)
         == Ok(m.(stack := m.stack + [MapFrame(sofar[key := v], None, sofar[key := v].Keys)]))
  {
    assert (m.stack + [MapFrame(sofar, Some(key), sofar.Keys + {key})])[..|m.stack|] == m.stack;
    assert sofar[key := v].Keys == sofar.Keys + {key};
  }

  lemma MappingCloses(reserved: Reserved, m: Machine, sofar: map<Text, Value>)
    ensures RunEvents(reserved, m.(stack := m.stack + [MapFrame(sofar, None, sofar.Keys)]), [MappingEnd])
         == Place(m, Obj(sofar))
  {
    var open := m.(stack := m.stack + [MapFrame(sofar, None, sofar.Keys)]);
    assert open.stack[..|m.stack|] == m.stack;
    assert m.(stack := m.stack) == m;
    RunOne(reserved, open, MappingEnd);
  }

  lemma {:induction false} PairsRun(reserved: Reserved, m: Machine, n: Node, i: nat, sofar: map<Text, Value>)
    requires n.MappingNode? && i <= |n.pairs|
    ensures RunEvents(reserved, m.(stack := m.stack + [MapFrame(sofar, None, sofar.Keys)]), PairEvents(n, i))
         == var v := BuildPairs(reserved, n, i, sofar, |m.stack| + 1); if v.Err? then Err(v.error) else Place(m, v.value)
    decreases n, |n.pairs| - i
  {
    hide RunEvents, Events, Place, Build;
    if i == |n.pairs| {
      MappingCloses(reserved, m, sofar);
    } else {
      var open := m.(stack := m.stack + [MapFrame(sofar, None, sofar.Keys)]);
      var (key, value) := n.pairs[i];
      var more := Events(value) + PairEvents(n, i + 1);
      RunConcat(reserved, open, Events(key), more);
      NodeRuns(reserved, open, key);
      var k := Build(reserved, key, |m.stack| + 1);
      if k.Ok? {
        KeyPlaced(m, sofar, k.value);
        if k.value.Str? && k.value.text != MERGE_KEY && k.value.text !in sofar {
          var keyed := m.(stack := m.stack + [MapFrame(sofar, Some(k.value.text), sofar.Keys + {k.value.text})]);
          RunConcat(reserved, keyed, Events(value), PairEvents(n, i + 1));
          NodeRuns(reserved, keyed, value);
          var v := Build(reserved, value, |m.stack| + 1);
          if v.Ok? {
            ValuePlaced(m, sofar, k.value.text, v.value);
            PairsRun(reserved, m, n, i + 1, sofar[k.value.text := v.value]);
          }
        }
      }
    }
  }

  /** A parser stream: marks, one document holding one node. */
  function Stream(n: Node): seq<Event>
  {
    [StreamMark, DocumentStart] + Events(n) + [DocumentEnd, StreamMark]
  }

  lemma {:induction false} NodeEventsAreNodes(n: Node)
    ensures Events(n) != []
    ensures forall i :: 0 <= i < |Events(n)| ==> Events(n)[i] != DocumentStart && Events(n)[i] != DocumentEnd
    decreases n
  {
    match n {
      case MappingNode(pairs, _, _) => PairEventsAreNodes(n, 0);
      case SequenceNode(items, _, _) => ItemEventsAreNodes(n, 0);
      case _ =>
    }
  }

  lemma {:induction false} PairEventsAreNodes(n: Node, i: nat)
    requires n.MappingNode? && i <= |n.pairs|
    ensures forall j :: 0 <= j < |PairEvents(n, i)| ==> PairEvents(n, i)[j] != DocumentStart && PairEvents(n, i)[j] != DocumentEnd
    decreases n, |n.pairs| - i
  {
    if i < |n.pairs| {
      NodeEventsAreNodes(n.pairs[i].0);
      NodeEventsAreNodes(n.pairs[i].1);
      PairEventsAreNodes(n, i + 1);
    }
  }

  lemma {:induction false} ItemEventsAreNodes(n: Node, i: nat)
    requires n.SequenceNode? && i <= |n.items|
    ensures forall j :: 0 <= j < |ItemEvents(n, i)| ==> ItemEvents(n, i)[j] != DocumentStart && ItemEvents(n, i)[j] != DocumentEnd
    decreases n, |n.items| - i
  {
    if i < |n.items| {
      NodeEventsAreNodes(n.items[i]);
      ItemEventsAreNodes(n, i + 1);
    }
  }

  lemma StreamBody(n: Node)
    ensures Body(Stream(n)) == Ok(Events(n))
  {
    NodeEventsAreNodes(n);
    var s, e := Stream(n), Events(n);
    assert forall i :: 0 <= i < |e| ==> s[i + 2] == e[i];
    assert forall i :: 2 <= i < |e| + 2 ==> s[i] == e[i - 2];
    assert s[1] == DocumentStart && s[|e| + 2] == DocumentEnd && s[|e| + 3] == StreamMark;
    var start := IndexOf(s, DocumentStart, 0);
    assert start == 1;
    assert IndexOf(s, DocumentStart, 2) == |s|;
    assert IndexOf(s, DocumentEnd, 0) == |e| + 2;
    assert s[2..|e| + 2] == e;
  }

  /** For every node tree, the machine accepts exactly what recursion builds, with the same value and
      the same first failure; a root that is not a mapping is refused. */
  lemma MachineIsRecursion(reserved: Reserved, n: Node)
    ensures ValueOfBody(reserved, Events(n))
         == if n.ScalarNode? && n.plain && n.text == [] then Err(SyntaxInvalid)
            else if !n.MappingNode? then Err(ConstructUnsupported)
            else Build(reserved, n, 0)
    ensures Body(Stream(n)) == Ok(Events(n))
  {
    StreamBody(n);
    NodeRuns(reserved, Machine([], None), n);
    NodeEventsAreNodes(n);
    if n.MappingNode? {
      assert Events(n)[0] == MappingStart(n.tagged, n.anchored);
    } else if n.SequenceNode? {
      assert Events(n)[0] == SequenceStart(n.tagged, n.anchored);
    }
    hide RunEvents, Build;
  }

  // --- emission --------------------------------------------------------------------------------------

  /** Strings quoted, everything else plain and canonical, keys in sorted order. */
  function Emit(v: Value): Node
    decreases v, 0
  {
    match v
    case Null => ScalarNode(NULL_TEXT, true, false, false)
    case Bool(b) => ScalarNode(if b then TRUE_TEXT else FALSE_TEXT, true, false, false)
    case Int(n) => ScalarNode(IntegerSpelling(n), true, false, false)
    case Str(s) => ScalarNode(s, false, false, false)
    case Arr(items) => SequenceNode(seq(|items|, i requires 0 <= i < |items| => Emit(items[i])), false, false)
    case Obj(members) =>
      var keys := Sorted(members.Keys);
      MappingNode(seq(|keys|, i requires 0 <= i < |keys| =>
        assert keys[i] in members.Keys;
        (ScalarNode(keys[i], false, false, false), Emit(members[keys[i]]))), false, false)
    case _ => AliasNode
  }

  /** The loader's value model: no host value, safe integers. */
  ghost predicate Loadable(v: Value)
  {
    match v
    case Int(n) => MIN_SAFE_INTEGER <= n <= MAX_SAFE_INTEGER
    case Arr(items) => forall i :: 0 <= i < |items| ==> Loadable(items[i])
    case Obj(members) => forall k :: k in members ==> Loadable(members[k])
    case Float => false
    case Foreign => false
    case _ => true
  }

  ghost predicate NoMergeKey(v: Value)
  {
    match v
    case Arr(items) => forall i :: 0 <= i < |items| ==> NoMergeKey(items[i])
    case Obj(members) => MERGE_KEY !in members && forall k :: k in members ==> NoMergeKey(members[k])
    case _ => true
  }

  function IntegerSpelling(n: int): Text
  {
    if n < 0 then [DASH] + Digits(-n) else Digits(n)
  }

  lemma CanonicalIntegerParts(t: Text, negative: bool, n: nat)
    requires negative == (t != [] && t[0] == DASH)
    requires CanonicalDigitsEnd(t, if negative then 1 else 0) == Some(|t|)
    requires AllDigits(t[if negative then 1 else 0..]) && Num(t[if negative then 1 else 0..]) == n
    ensures CanonicalInteger(t) == Some(if negative then -(n as int) else n)
  {
  }

  lemma NotAWord(t: Text)
    requires t != [] && (t[0] == DASH || IsDigit(t[0]))
    ensures t !in [TRUE_TEXT, FALSE_TEXT, NULL_TEXT]
  {
  }

  lemma EmittedInteger(n: int)
    ensures CanonicalInteger(IntegerSpelling(n)) == Some(n)
    ensures IntegerSpelling(n) !in [TRUE_TEXT, FALSE_TEXT, NULL_TEXT]
  {
    hide CanonicalDigitsEnd, Digits, Num, CanonicalInteger;
    var magnitude := if n < 0 then -n else n;
    var d := Digits(magnitude);
    assert IsDigit(d[0]);
    NotAWord(IntegerSpelling(n));
    var pre := if n < 0 then [DASH] else [];
    CanonicalDigitsRead(pre, magnitude, []);
    assert pre + d + [] == IntegerSpelling(n) && IntegerSpelling(n)[|pre|..] == d;
    CanonicalIntegerParts(IntegerSpelling(n), n < 0, magnitude);
  }

  /** What building an emitted value gives: the value, exactly when it fits the depth left and has no
      merge key. */
  ghost predicate Rebuilt(r: Result<Value, YamlError>, v: Value, depth: nat)
  {
    (r.Ok? ==> r.value == v) && (r.Ok? <==> DepthAtMost(v, MAX_DEPTH - depth) && NoMergeKey(v))
  }

  lemma EmittedContainers(v: Value)
    ensures v.Arr? ==> Emit(v).SequenceNode? && !Emit(v).tagged && !Emit(v).anchored
                       && |Emit(v).items| == |v.items| && forall i :: 0 <= i < |v.items| ==> Emit(v).items[i] == Emit(v.items[i])
    ensures v.Obj? ==> Emit(v).MappingNode? && !Emit(v).tagged && !Emit(v).anchored
                       && |Emit(v).pairs| == |Sorted(v.members.Keys)|
                       && AllIn(Sorted(v.members.Keys), v.members)
                       && forall i :: 0 <= i < |Emit(v).pairs| ==>
                            Emit(v).pairs[i] == (ScalarNode(Sorted(v.members.Keys)[i], false, false, false),
                                                 Emit(v.members[Sorted(v.members.Keys)[i]]))
  {
  }

  lemma ScalarBuilds(reserved: Reserved, v: Value, depth: nat)
    requires Loadable(v) && !v.Arr? && !v.Obj?
    ensures Build(reserved, Emit(v), depth) == Ok(v)
  {
    if v.Int? { EmittedInteger(v.n); }
    hide CanonicalInteger, IntegerSpelling;
  }

  lemma {:induction false} EmittedBuilds(reserved: Reserved, v: Value, depth: nat)
    requires Loadable(v) && depth <= MAX_DEPTH
    ensures Rebuilt(Build(reserved, Emit(v), depth), v, depth)
    decreases v
  {
    EmittedContainers(v);
    hide Emit, BuildItems, BuildPairs, Sorted, ScalarValue;
    match v {
      case Arr(items) =>
        if depth < MAX_DEPTH {
          EmittedItems(reserved, v, 0, depth + 1);
          assert items[..0] == [];
        }
      case Obj(members) =>
        if depth < MAX_DEPTH {
          NothingTaken(v);
          EmittedMembers(reserved, v, 0, depth + 1);
          AllKeysTaken(v, depth + 1);
        }
      case _ => ScalarBuilds(reserved, v, depth);
    }
  }

  lemma {:induction false} EmittedItems(reserved: Reserved, v: Value, i: nat, depth: nat)
    requires v.Arr? && Loadable(v) && i <= |v.items| && depth <= MAX_DEPTH
    ensures Emit(v).SequenceNode? && |Emit(v).items| == |v.items|
    ensures var r := BuildItems(reserved, Emit(v), i, v.items[..i], depth);
            && (r.Ok? ==> r.value == v)
            && (r.Ok? <==> forall j :: i <= j < |v.items| ==> DepthAtMost(v.items[j], MAX_DEPTH - depth) && NoMergeKey(v.items[j]))
    decreases v, |v.items| - i
  {
    EmittedContainers(v);
    hide Emit;
    if i == |v.items| {
      assert v.items[..i] == v.items;
    } else {
      EmittedBuilds(reserved, v.items[i], depth);
      assert v.items[..i] + [v.items[i]] == v.items[..i + 1];
      EmittedItems(reserved, v, i + 1, depth);
      hide Build, DepthAtMost, NoMergeKey;
    }
  }

  ghost predicate KeyFits(v: Value, k: Text, depth: nat)
    requires v.Obj? && k in v.members
  {
    k != MERGE_KEY && DepthAtMost(v.members[k], MAX_DEPTH - depth) && NoMergeKey(v.members[k])
  }

  ghost predicate KeysFit(v: Value, keys: seq<Text>, i: nat, depth: nat)
    requires v.Obj? && AllIn(keys, v.members) && i <= |keys|
  {
    forall j :: i <= j < |keys| ==> KeyFits(v, keys[j], depth)
  }

  lemma AllKeysTaken(v: Value, depth: nat)
    requires v.Obj? && depth >= 1
    ensures AllIn(Sorted(v.members.Keys), v.members)
    ensures KeysFit(v, Sorted(v.members.Keys), 0, depth)
            <==> MERGE_KEY !in v.members
                 && forall k :: k in v.members ==> DepthAtMost(v.members[k], MAX_DEPTH - depth) && NoMergeKey(v.members[k])
  {
    hide DepthAtMost, NoMergeKey;
    var keys := Sorted(v.members.Keys);
    if KeysFit(v, keys, 0, depth) {
      forall k | k in v.members ensures KeyFits(v, k, depth) {
        var j :| 0 <= j < |keys| && keys[j] == k;
      }
      assert MERGE_KEY in v.members ==> KeyFits(v, MERGE_KEY, depth);
      forall k | k in v.members ensures DepthAtMost(v.members[k], MAX_DEPTH - depth) && NoMergeKey(v.members[k]) {
        assert KeyFits(v, k, depth);
      }
    }
  }

  /** The members whose keys are in `keys`. */
  ghost function Restricted(members: map<Text, Value>, keys: seq<Text>): map<Text, Value>
  {
    map k | k in members && k in keys :: members[k]
  }

  /** The members whose keys are among the first `i`, in sorted order. */
  ghost function Taken(v: Value, i: nat): map<Text, Value>
    requires v.Obj? && i <= |Sorted(v.members.Keys)|
  {
    Restricted(v.members, Sorted(v.members.Keys)[..i])
  }

  lemma NothingTaken(v: Value)
    requires v.Obj?
    ensures Taken(v, 0) == map[]
  {
  }

  lemma OneMoreKept(members: map<Text, Value>, keys: seq<Text>, k: Text)
    requires k in members && k !in keys
    ensures k !in Restricted(members, keys)
    ensures Restricted(members, keys + [k]) == Restricted(members, keys)[k := members[k]]
  {
  }

  lemma NextKeyIsNew(keys: seq<Text>, i: nat)
    requires i < |keys| && forall a, b :: 0 <= a < b < |keys| ==> TextLess(keys[a], keys[b])
    ensures keys[i] !in keys[..i]
  {
    hide TextLess;
    forall j | 0 <= j < i ensures keys[j] != keys[i] { TextLessTotal(keys[j], keys[i]); }
  }

  lemma OneMoreTaken(v: Value, i: nat)
    requires v.Obj? && i < |Sorted(v.members.Keys)|
    ensures var k := Sorted(v.members.Keys)[i];
            k in v.members && k !in Taken(v, i) && Taken(v, i + 1) == Taken(v, i)[k := v.members[k]]
  {
    hide Sorted, Restricted, TextLess;
    var keys := Sorted(v.members.Keys);
    NextKeyIsNew(keys, i);
    assert keys[i] in keys;
    assert keys[..i + 1] == keys[..i] + [keys[i]];
    OneMoreKept(v.members, keys[..i], keys[i]);
  }

  lemma EverythingTaken(v: Value)
    requires v.Obj?
    ensures Taken(v, |Sorted(v.members.Keys)|) == v.members
  {
    var keys := Sorted(v.members.Keys);
    assert keys[..|keys|] == keys;
  }

  lemma KeysFitStep(v: Value, keys: seq<Text>, i: nat, depth: nat)
    requires v.Obj? && AllIn(keys, v.members) && i < |keys|
    ensures keys[i] in v.members
    ensures KeysFit(v, keys, i, depth) <==> KeyFits(v, keys[i], depth) && KeysFit(v, keys, i + 1, depth)
  {
    assert keys[i] in keys;
    hide KeyFits;
  }

  lemma KeyBuilds(reserved: Reserved, k: Text, depth: nat)
    ensures Build(reserved, ScalarNode(k, false, false, false), depth) == Ok(Str(k))
  {
  }

  /** One step of building pairs, when pair `i` is key `k` with a member that builds as it should. */
  lemma PairBuilt(reserved: Reserved, n: Node, i: nat, sofar: map<Text, Value>, depth: nat, k: Text, member: Value)
    requires n.MappingNode? && i < |n.pairs| && k !in sofar && depth <= MAX_DEPTH
    requires n.pairs[i].0 == ScalarNode(k, false, false, false)
    requires Rebuilt(Build(reserved, n.pairs[i].1, depth), member, depth)
    ensures var r := BuildPairs(reserved, n, i, sofar, depth);
            if k != MERGE_KEY && DepthAtMost(member, MAX_DEPTH - depth) && NoMergeKey(member)
            then r == BuildPairs(reserved, n, i + 1, sofar[k := member], depth) else r.Err?
  {
    KeyBuilds(reserved, k, depth);
    hide Build, DepthAtMost, NoMergeKey;
  }

  /** The emitted mapping has a pair for each member, in key order. */
  lemma EmittedPair(v: Value)
    requires v.Obj?
    ensures AllIn(Sorted(v.members.Keys), v.members)
    ensures Emit(v).MappingNode? && |Emit(v).pairs| == |Sorted(v.members.Keys)|
    ensures forall i {:trigger Emit(v).pairs[i]} :: 0 <= i < |Emit(v).pairs| ==>
              && Sorted(v.members.Keys)[i] in v.members
              && Emit(v).pairs[i].0 == ScalarNode(Sorted(v.members.Keys)[i], false, false, false)
              && Emit(v).pairs[i].1 == Emit(v.members[Sorted(v.members.Keys)[i]])
  {
    EmittedContainers(v);
    hide Emit, Sorted;
  }

  lemma {:induction false} EmittedMembers(reserved: Reserved, v: Value, i: nat, depth: nat)
    requires v.Obj? && Loadable(v) && i <= |Sorted(v.members.Keys)| && depth <= MAX_DEPTH
    ensures AllIn(Sorted(v.members.Keys), v.members)
    ensures Emit(v).MappingNode? && |Emit(v).pairs| == |Sorted(v.members.Keys)|
    ensures var r := BuildPairs(reserved, Emit(v), i, Taken(v, i), depth);
            && (r.Ok? ==> r.value == v)
            && (r.Ok? <==> KeysFit(v, Sorted(v.members.Keys), i, depth))
    decreases v, |Sorted(v.members.Keys)| - i
  {
    hide Emit, Sorted, Taken, Build, DepthAtMost, NoMergeKey, Rebuilt;
    EmittedPair(v);
    if i == |Sorted(v.members.Keys)| {
      EverythingTaken(v);
    } else {
      hide BuildPairs;
      KeysFitStep(v, Sorted(v.members.Keys), i, depth);
      hide KeysFit, AllIn;
      OneMoreTaken(v, i);
      var k := Sorted(v.members.Keys)[i];
      EmittedBuilds(reserved, v.members[k], depth);
      EmittedMembers(reserved, v, i + 1, depth);
      PairBuilt(reserved, Emit(v), i, Taken(v, i), depth, k, v.members[k]);
    }
  }

  /** Loading the events of a mapping gives the mapping back if and only if it nests at most 64 deep
      and none of its keys is the merge key. */
  lemma EmissionLoadsBack(reserved: Reserved, v: Value)
    requires v.Obj? && Loadable(v)
    ensures ValueOfBody(reserved, Events(Emit(v))) == Ok(v) <==> DepthAtMost(v, MAX_DEPTH) && NoMergeKey(v)
    ensures Body(Stream(Emit(v))) == Ok(Events(Emit(v)))
  {
    MachineIsRecursion(reserved, Emit(v));
    EmittedBuilds(reserved, v, 0);
  }

  // --- what acceptance says ----------------------------------------------------------------------------

  /** No alias, anchor or tag anywhere, containers at most `n` deep. */
  ghost predicate InSubset(node: Node, n: int)
    decreases node
  {
    match node
    case AliasNode => false
    case ScalarNode(_, _, tagged, anchored) => !tagged && !anchored
    case MappingNode(pairs, tagged, anchored) =>
      !tagged && !anchored && n > 0 && forall i :: 0 <= i < |pairs| ==> InSubset(pairs[i].0, n - 1) && InSubset(pairs[i].1, n - 1)
    case SequenceNode(items, tagged, anchored) =>
      !tagged && !anchored && n > 0 && forall i :: 0 <= i < |items| ==> InSubset(items[i], n - 1)
  }

  /** An accepted node is in the subset, and nests no deeper than the bound. */
  lemma {:induction false} AcceptedIsInSubset(reserved: Reserved, n: Node, depth: nat)
    requires Build(reserved, n, depth).Ok?
    ensures InSubset(n, MAX_DEPTH - depth)
    decreases n
  {
    match n {
      case MappingNode(pairs, _, _) => PairsInSubset(reserved, n, 0, map[], depth + 1);
      case SequenceNode(items, _, _) => ItemsInSubset(reserved, n, 0, [], depth + 1);
      case _ =>
    }
  }

  lemma {:induction false} PairsInSubset(reserved: Reserved, n: Node, i: nat, sofar: map<Text, Value>, depth: nat)
    requires n.MappingNode? && i <= |n.pairs| && BuildPairs(reserved, n, i, sofar, depth).Ok?
    ensures forall j :: i <= j < |n.pairs| ==>
              InSubset(n.pairs[j].0, MAX_DEPTH - depth) && InSubset(n.pairs[j].1, MAX_DEPTH - depth)
    decreases n, |n.pairs| - i
  {
    if i < |n.pairs| {
      AcceptedIsInSubset(reserved, n.pairs[i].0, depth);
      AcceptedIsInSubset(reserved, n.pairs[i].1, depth);
      var k, v := Build(reserved, n.pairs[i].0, depth).value.text, Build(reserved, n.pairs[i].1, depth).value;
      PairsInSubset(reserved, n, i + 1, sofar[k := v], depth);
    }
  }

  lemma {:induction false} ItemsInSubset(reserved: Reserved, n: Node, i: nat, sofar: seq<Value>, depth: nat)
    requires n.SequenceNode? && i <= |n.items| && BuildItems(reserved, n, i, sofar, depth).Ok?
    ensures forall j :: i <= j < |n.items| ==> InSubset(n.items[j], MAX_DEPTH - depth)
    decreases n, |n.items| - i
  {
    if i < |n.items| {
      AcceptedIsInSubset(reserved, n.items[i], depth);
      ItemsInSubset(reserved, n, i + 1, sofar + [Build(reserved, n.items[i], depth).value], depth);
    }
  }

  /** Pair `j` is in the mapping under its own key, a string that is neither the merge key nor one
      taken before. */
  ghost predicate PairKept(reserved: Reserved, n: Node, j: nat, depth: nat, before: map<Text, Value>, m: map<Text, Value>)
    requires n.MappingNode? && j < |n.pairs|
  {
    var k, v := Build(reserved, n.pairs[j].0, depth), Build(reserved, n.pairs[j].1, depth);
    && k.Ok? && k.value.Str? && k.value.text != MERGE_KEY && k.value.text !in before
    && v.Ok? && k.value.text in m && m[k.value.text] == v.value
  }

  /** An accepted mapping has one member for each pair, under that pair's key: no pair is lost or
      merged. */
  lemma {:induction false} AcceptedKeysDistinct(reserved: Reserved, n: Node, i: nat, sofar: map<Text, Value>, depth: nat)
    requires n.MappingNode? && i <= |n.pairs| && BuildPairs(reserved, n, i, sofar, depth).Ok?
    ensures var m := BuildPairs(reserved, n, i, sofar, depth).value;
            && m.Obj? && |m.members| == |sofar| + (|n.pairs| - i)
            && (forall k :: k in sofar ==> k in m.members && m.members[k] == sofar[k])
            && (forall j :: i <= j < |n.pairs| ==> PairKept(reserved, n, j, depth, sofar, m.members))
    decreases |n.pairs| - i
  {
    hide Build;
    if i < |n.pairs| {
      var k, v := Build(reserved, n.pairs[i].0, depth).value.text, Build(reserved, n.pairs[i].1, depth).value;
      var next := sofar[k := v];
      AcceptedKeysDistinct(reserved, n, i + 1, next, depth);
      var m := BuildPairs(reserved, n, i, sofar, depth).value;
      assert k in next && m.members[k] == next[k];
      assert |next| == |sofar| + 1;
      forall j | i <= j < |n.pairs| ensures PairKept(reserved, n, j, depth, sofar, m.members) {
        if j > i { assert PairKept(reserved, n, j, depth, next, m.members); }
      }
      forall x | x in sofar ensures x in m.members && m.members[x] == sofar[x] { assert x in next && next[x] == sofar[x]; }
    }
  }
}
