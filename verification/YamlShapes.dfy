/** Which event bodies are the emission of one node: what the stack machine of vfy/load.py accepts besides,
    and that among bodies whose brackets match it accepts nothing else. */
module YamlShapes {
  import opened Wrappers
  import opened Text
  import opened Values
  import opened Load
  import opened YamlEvents

  // --- matching brackets and one root ------------------------------------------------------------------

  /** With these containers open, mappings being true: every end closes a container of its own kind, nothing
      follows the root, and there is nothing but nodes. It asks nothing of what mappings hold. */
  predicate WellNested(open: seq<bool>, events: seq<Event>)
    decreases |events|
  {
    && events != []
    && match events[0]
       case ScalarEvent(_, _, _, _) => if open == [] then |events| == 1 else WellNested(open, events[1..])
       case AliasEvent => if open == [] then |events| == 1 else WellNested(open, events[1..])
       case MappingStart(_, _) => WellNested(open + [true], events[1..])
       case SequenceStart(_, _) => WellNested(open + [false], events[1..])
       case MappingEnd => Closes(open, true, events)
       case SequenceEnd => Closes(open, false, events)
       case _ => false
  }

  predicate Closes(open: seq<bool>, kind: bool, events: seq<Event>)
    requires events != []
    decreases |events|, 0
  {
    && open != [] && open[|open| - 1] == kind
    && if |open| == 1 then |events| == 1 else WellNested(open[..|open| - 1], events[1..])
  }

  /** The kinds of the machine's open containers. */
  function Kinds(stack: seq<Frame>): (r: seq<bool>)
    ensures |r| == |stack|
  {
    seq(|stack|, i requires 0 <= i < |stack| => stack[i].MapFrame?)
  }

  lemma KindsPush(stack: seq<Frame>, f: Frame)
    ensures Kinds(stack + [f]) == Kinds(stack) + [f.MapFrame?]
  {
  }

  lemma KindsPop(stack: seq<Frame>)
    requires stack != []
    ensures Kinds(stack)[..|stack| - 1] == Kinds(stack[..|stack| - 1])
  {
  }

  /** A placed value changes the innermost container and not its kind. */
  lemma PlaceKinds(m: Machine, v: Value)
    requires Place(m, v).Ok? && m.stack != []
    ensures var t := Place(m, v).value;
            && Kinds(t.stack) == Kinds(m.stack) && t.stack != []
            && (m.stack[|m.stack| - 1].MapFrame? ==>
                  t.stack[|t.stack| - 1].MapFrame?
                  && (t.stack[|t.stack| - 1].pending.Some? <==> m.stack[|m.stack| - 1].pending.None?))
  {
  }

  // --- the events of a list of nodes, and of pairs -----------------------------------------------------

  function ListEvents(items: seq<Node>): seq<Event>
  {
    if items == [] then [SequenceEnd] else Events(items[0]) + ListEvents(items[1..])
  }

  function PairsEvents(pairs: seq<(Node, Node)>): seq<Event>
  {
    if pairs == [] then [MappingEnd] else Events(pairs[0].0) + (Events(pairs[0].1) + PairsEvents(pairs[1..]))
  }

  lemma {:induction false} ItemsAsList(n: Node, i: nat)
    requires n.SequenceNode? && i <= |n.items|
    ensures ItemEvents(n, i) == ListEvents(n.items[i..])
    decreases |n.items| - i
  {
    hide Events;
    if i < |n.items| {
      ItemsAsList(n, i + 1);
      assert n.items[i..][1..] == n.items[i + 1..];
    }
  }

  lemma {:induction false} PairsAsList(n: Node, i: nat)
    requires n.MappingNode? && i <= |n.pairs|
    ensures PairEvents(n, i) == PairsEvents(n.pairs[i..])
    decreases |n.pairs| - i
  {
    hide Events;
    if i < |n.pairs| {
      PairsAsList(n, i + 1);
      assert n.pairs[i..][1..] == n.pairs[i + 1..];
    }
  }

  // --- reading a node back from its events -------------------------------------------------------------

  predicate IsEnd(e: Event)
  {
    e.MappingEnd? || e.SequenceEnd?
  }

  /** What is left after a node inside these containers. */
  predicate Left(open: seq<bool>, rest: seq<Event>)
  {
    if open == [] then rest == [] else WellNested(open, rest)
  }

  /** The machine gets through the events of the node and then through the rest. */
  lemma RunsOn(reserved: Reserved, m: Machine, n: Node, rest: seq<Event>)
    requires RunEvents(reserved, m, Events(n) + rest).Ok?
    ensures Build(reserved, n, |m.stack|).Ok? && Place(m, Build(reserved, n, |m.stack|).value).Ok?
    ensures RunEvents(reserved, Place(m, Build(reserved, n, |m.stack|).value).value, rest).Ok?
  {
    RunConcat(reserved, m, Events(n), rest);
    NodeRuns(reserved, m, n);
    hide RunEvents, Build, Place, Events;
  }

  lemma {:induction false} SplitNode(reserved: Reserved, m: Machine, events: seq<Event>) returns (n: Node, rest: seq<Event>)
    requires WellNested(Kinds(m.stack), events) && RunEvents(reserved, m, events).Ok? && !IsEnd(events[0])
    ensures events == Events(n) + rest && |rest| < |events| && Left(Kinds(m.stack), rest)
    decreases |events|, 1
  {
    var e := events[0];
    FirstStep(reserved, m, events);
    hide RunEvents, Place, Kinds;
    if e.ScalarEvent? {
      n, rest := ScalarNode(e.text, e.plain, e.tagged, e.anchored), events[1..];
      assert events == [e] + rest;
    } else if e.MappingStart? {
      n, rest := SplitMapping(reserved, m, events);
    } else {
      n, rest := SplitSequence(reserved, m, events);
    }
  }

  lemma {:induction false} SplitMapping(reserved: Reserved, m: Machine, events: seq<Event>) returns (n: Node, rest: seq<Event>)
    requires WellNested(Kinds(m.stack), events) && RunEvents(reserved, m, events).Ok? && events[0].MappingStart?
    ensures events == Events(n) + rest && |rest| < |events| && Left(Kinds(m.stack), rest)
    decreases |events|, 0
  {
    var e, tail := events[0], events[1..];
    assert events == [e] + tail;
    var f := MapFrame(map[], None, {});
    FirstStep(reserved, m, events);
    KindsPush(m.stack, f);
    hide RunEvents, PairsEvents, Kinds;
    assert WellNested(Kinds(m.stack) + [true], tail);
    hide WellNested;
    var pairs;
    pairs, rest := SplitPairs(reserved, m.(stack := m.stack + [f]), tail);
    assert (m.stack + [f])[..|m.stack|] == m.stack;
    n := MappingNode(pairs, e.tagged, e.anchored);
    PairsAsList(n, 0);
    assert pairs[0..] == pairs;
  }

  lemma {:induction false} SplitSequence(reserved: Reserved, m: Machine, events: seq<Event>) returns (n: Node, rest: seq<Event>)
    requires WellNested(Kinds(m.stack), events) && RunEvents(reserved, m, events).Ok? && events[0].SequenceStart?
    ensures events == Events(n) + rest && |rest| < |events| && Left(Kinds(m.stack), rest)
    decreases |events|, 0
  {
    var e, tail := events[0], events[1..];
    assert events == [e] + tail;
    var f := SeqFrame([]);
    FirstStep(reserved, m, events);
    KindsPush(m.stack, f);
    hide RunEvents, ListEvents, Kinds;
    assert WellNested(Kinds(m.stack) + [false], tail);
    hide WellNested;
    var items;
    items, rest := SplitItems(reserved, m.(stack := m.stack + [f]), tail);
    assert (m.stack + [f])[..|m.stack|] == m.stack;
    n := SequenceNode(items, e.tagged, e.anchored);
    ItemsAsList(n, 0);
    assert items[0..] == items;
  }

  lemma FirstStep(reserved: Reserved, m: Machine, events: seq<Event>)
    requires events != [] && RunEvents(reserved, m, events).Ok?
    ensures StepEvent(reserved, m, events[0]).Ok?
    ensures RunEvents(reserved, StepEvent(reserved, m, events[0]).value, events[1..]).Ok?
  {
  }

  lemma {:induction false} SplitItems(reserved: Reserved, m: Machine, events: seq<Event>) returns (items: seq<Node>, rest: seq<Event>)
    requires m.stack != [] && m.stack[|m.stack| - 1].SeqFrame?
    requires WellNested(Kinds(m.stack), events) && RunEvents(reserved, m, events).Ok?
    ensures events == ListEvents(items) + rest && |rest| < |events| && Left(Kinds(m.stack[..|m.stack| - 1]), rest)
    decreases |events|, 2
  {
    hide RunEvents, StepEvent, Events;
    if IsEnd(events[0]) {
      items, rest := [], events[1..];
      KindsPop(m.stack);
      assert events == [SequenceEnd] + rest;
    } else {
      var n, more := SplitNode(reserved, m, events);
      RunsOn(reserved, m, n, more);
      var v := Build(reserved, n, |m.stack|).value;
      PlaceKinds(m, v);
      var t := Place(m, v).value;
      assert t.stack[..|t.stack| - 1] == m.stack[..|m.stack| - 1] by { PlaceBelow(m, v); }
      assert t.stack[|t.stack| - 1].SeqFrame? by { assert Kinds(t.stack)[|t.stack| - 1] == Kinds(m.stack)[|m.stack| - 1]; }
      hide Place, Build, WellNested, Kinds;
      var others;
      others, rest := SplitItems(reserved, t, more);
      items := [n] + others;
      assert items[1..] == others;
    }
  }

  lemma PlaceBelow(m: Machine, v: Value)
    requires Place(m, v).Ok? && m.stack != []
    ensures var t := Place(m, v).value; t.stack != [] && t.stack[..|t.stack| - 1] == m.stack[..|m.stack| - 1]
  {
  }

  /** A mapping is not closed on a key without a value, so its nodes come in pairs. */
  lemma NotClosed(reserved: Reserved, m: Machine, events: seq<Event>)
    requires m.stack != [] && m.stack[|m.stack| - 1].MapFrame? && m.stack[|m.stack| - 1].pending.Some?
    requires WellNested(Kinds(m.stack), events) && RunEvents(reserved, m, events).Ok?
    ensures !IsEnd(events[0])
  {
    FirstStep(reserved, m, events);
    hide RunEvents, WellNested;
    assert events[0].MappingEnd? || events[0].SequenceEnd? ==> Close(m).Ok?;
  }

  lemma {:induction false} SplitPairs(reserved: Reserved, m: Machine, events: seq<Event>) returns (pairs: seq<(Node, Node)>, rest: seq<Event>)
    requires m.stack != [] && m.stack[|m.stack| - 1].MapFrame? && m.stack[|m.stack| - 1].pending.None?
    requires WellNested(Kinds(m.stack), events) && RunEvents(reserved, m, events).Ok?
    ensures events == PairsEvents(pairs) + rest && |rest| < |events| && Left(Kinds(m.stack[..|m.stack| - 1]), rest)
    decreases |events|, 2
  {
    hide RunEvents, StepEvent, Events;
    if IsEnd(events[0]) {
      pairs, rest := [], events[1..];
      KindsPop(m.stack);
      assert events == [MappingEnd] + rest;
    } else {
      var key, afterKey := SplitNode(reserved, m, events);
      var keyed := Placed(reserved, m, key, afterKey);
      hide WellNested, Kinds;
      NotClosed(reserved, keyed, afterKey);
      var value, more := SplitNode(reserved, keyed, afterKey);
      var t := Placed(reserved, keyed, value, more);
      var others;
      others, rest := SplitPairs(reserved, t, more);
      pairs := [(key, value)] + others;
      assert pairs[1..] == others;
    }
  }

  /** The machine after a node in a mapping. */
  lemma Placed(reserved: Reserved, m: Machine, n: Node, rest: seq<Event>) returns (t: Machine)
    requires m.stack != [] && m.stack[|m.stack| - 1].MapFrame? && RunEvents(reserved, m, Events(n) + rest).Ok?
    requires Left(Kinds(m.stack), rest)
    ensures t.stack != [] && t.stack[|t.stack| - 1].MapFrame?
    ensures t.stack[|t.stack| - 1].pending.Some? <==> m.stack[|m.stack| - 1].pending.None?
    ensures t.stack[..|t.stack| - 1] == m.stack[..|m.stack| - 1] && Kinds(t.stack) == Kinds(m.stack)
    ensures WellNested(Kinds(t.stack), rest) && RunEvents(reserved, t, rest).Ok?
  {
    hide RunEvents, Events, WellNested, Build;
    RunsOn(reserved, m, n, rest);
    var v := Build(reserved, n, |m.stack|).value;
    PlaceKinds(m, v);
    PlaceBelow(m, v);
    t := Place(m, v).value;
  }

  // --- every node's events nest well -------------------------------------------------------------------

  lemma {:induction false} NodeNestsWell(n: Node, open: seq<bool>, rest: seq<Event>)
    requires Left(open, rest)
    ensures WellNested(open, Events(n) + rest)
    decreases n
  {
    var all := Events(n) + rest;
    match n {
      case MappingNode(_, tagged, anchored) =>
        assert all[0] == MappingStart(tagged, anchored) && all[1..] == PairEvents(n, 0) + rest;
        PairsNestWell(n, 0, open, rest);
      case SequenceNode(_, tagged, anchored) =>
        assert all[0] == SequenceStart(tagged, anchored) && all[1..] == ItemEvents(n, 0) + rest;
        ItemsNestWell(n, 0, open, rest);
      case _ =>
        assert all[1..] == rest;
    }
  }

  lemma EndCloses(open: seq<bool>, kind: bool, rest: seq<Event>)
    requires Left(open, rest)
    ensures WellNested(open + [kind], [if kind then MappingEnd else SequenceEnd] + rest)
  {
    var all := [if kind then MappingEnd else SequenceEnd] + rest;
    assert all[1..] == rest && (open + [kind])[..|open|] == open;
    assert Closes(open + [kind], kind, all);
  }

  lemma {:induction false} PairsNestWell(n: Node, i: nat, open: seq<bool>, rest: seq<Event>)
    requires n.MappingNode? && i <= |n.pairs| && Left(open, rest)
    ensures WellNested(open + [true], PairEvents(n, i) + rest)
    decreases n, |n.pairs| - i
  {
    hide WellNested, Events;
    if i == |n.pairs| {
      EndCloses(open, true, rest);
    } else {
      var more := PairEvents(n, i + 1) + rest;
      PairsNestWell(n, i + 1, open, rest);
      NodeNestsWell(n.pairs[i].1, open + [true], more);
      NodeNestsWell(n.pairs[i].0, open + [true], Events(n.pairs[i].1) + more);
      assert PairEvents(n, i) + rest == Events(n.pairs[i].0) + (Events(n.pairs[i].1) + more);
    }
  }

  lemma {:induction false} ItemsNestWell(n: Node, i: nat, open: seq<bool>, rest: seq<Event>)
    requires n.SequenceNode? && i <= |n.items| && Left(open, rest)
    ensures WellNested(open + [false], ItemEvents(n, i) + rest)
    decreases n, |n.items| - i
  {
    hide WellNested, Events;
    if i == |n.items| {
      EndCloses(open, false, rest);
    } else {
      ItemsNestWell(n, i + 1, open, rest);
      NodeNestsWell(n.items[i], open + [false], ItemEvents(n, i + 1) + rest);
      assert ItemEvents(n, i) + rest == Events(n.items[i]) + (ItemEvents(n, i + 1) + rest);
    }
  }

  // --- what acceptance says ----------------------------------------------------------------------------

  /** Keys are texts that are not the merge key, no two of a mapping alike, in every mapping. */
  ghost predicate KeysClean(reserved: Reserved, n: Node)
    decreases n
  {
    match n
    case MappingNode(pairs, _, _) =>
      && (forall i :: 0 <= i < |pairs| ==> KeyText(reserved, pairs[i].0).Some? && KeyText(reserved, pairs[i].0).value != MERGE_KEY)
      && (forall i, j :: 0 <= i < j < |pairs| ==> KeyText(reserved, pairs[i].0) != KeyText(reserved, pairs[j].0))
      && (forall i :: 0 <= i < |pairs| ==> KeysClean(reserved, pairs[i].1))
    case SequenceNode(items, _, _) => forall i :: 0 <= i < |items| ==> KeysClean(reserved, items[i])
    case _ => true
  }

  /** The text a key spells, when it is a scalar that is a string. */
  function KeyText(reserved: Reserved, key: Node): Option<Text>
  {
    if !key.ScalarNode? then None
    else
      var v := ScalarValue(reserved, ScalarEvent(key.text, key.plain, key.tagged, key.anchored));
      if v.Ok? && v.value.Str? then Some(v.value.text) else None
  }

  lemma {:induction false} BuiltKeysClean(reserved: Reserved, n: Node, depth: nat)
    requires Build(reserved, n, depth).Ok?
    ensures KeysClean(reserved, n)
    decreases n
  {
    match n {
      case MappingNode(pairs, _, _) => PairKeysClean(reserved, n, 0, map[], depth + 1);
      case SequenceNode(items, _, _) => ItemKeysClean(reserved, n, 0, [], depth + 1);
      case _ =>
    }
  }

  lemma {:induction false} ItemKeysClean(reserved: Reserved, n: Node, i: nat, sofar: seq<Value>, depth: nat)
    requires n.SequenceNode? && i <= |n.items| && BuildItems(reserved, n, i, sofar, depth).Ok?
    ensures forall j :: i <= j < |n.items| ==> KeysClean(reserved, n.items[j])
    decreases n, |n.items| - i
  {
    if i < |n.items| {
      BuiltKeysClean(reserved, n.items[i], depth);
      ItemKeysClean(reserved, n, i + 1, sofar + [Build(reserved, n.items[i], depth).value], depth);
    }
  }

  lemma KeyBuilt(reserved: Reserved, key: Node, depth: nat)
    requires Build(reserved, key, depth).Ok? && Build(reserved, key, depth).value.Str?
    ensures KeyText(reserved, key) == Some(Build(reserved, key, depth).value.text)
  {
    if key.MappingNode? {
      AcceptedKeysDistinct(reserved, key, 0, map[], depth + 1);
    } else if key.SequenceNode? {
      BuiltList(reserved, key, 0, [], depth + 1);
    }
    hide BuildPairs, BuildItems;
  }

  lemma {:induction false} BuiltList(reserved: Reserved, n: Node, i: nat, sofar: seq<Value>, depth: nat)
    requires n.SequenceNode? && i <= |n.items| && BuildItems(reserved, n, i, sofar, depth).Ok?
    ensures BuildItems(reserved, n, i, sofar, depth).value.Arr?
    decreases |n.items| - i
  {
    hide Build;
    if i < |n.items| { BuiltList(reserved, n, i + 1, sofar + [Build(reserved, n.items[i], depth).value], depth); }
  }

  lemma {:induction false} PairKeysClean(reserved: Reserved, n: Node, i: nat, sofar: map<Text, Value>, depth: nat)
    requires n.MappingNode? && i <= |n.pairs| && BuildPairs(reserved, n, i, sofar, depth).Ok?
    ensures forall j :: i <= j < |n.pairs| ==>
              && KeyText(reserved, n.pairs[j].0).Some? && KeyText(reserved, n.pairs[j].0).value != MERGE_KEY
              && KeyText(reserved, n.pairs[j].0).value !in sofar
    ensures forall j, k :: i <= j < k < |n.pairs| ==> KeyText(reserved, n.pairs[j].0) != KeyText(reserved, n.pairs[k].0)
    ensures forall j :: i <= j < |n.pairs| ==> KeysClean(reserved, n.pairs[j].1)
    decreases n, |n.pairs| - i
  {
    hide KeysClean, KeyText, Build;
    if i < |n.pairs| {
      var k, v := Build(reserved, n.pairs[i].0, depth).value.text, Build(reserved, n.pairs[i].1, depth).value;
      KeyBuilt(reserved, n.pairs[i].0, depth);
      BuiltKeysClean(reserved, n.pairs[i].1, depth);
      PairKeysClean(reserved, n, i + 1, sofar[k := v], depth);
    }
  }

  /** An accepted body whose brackets match is the emission of one node, a mapping without alias, anchor or tag,
      at most 64 deep, whose keys are everywhere distinct texts that are not the merge key; and the value is
      the one recursion builds of it. */
  lemma AcceptedIsEmission(reserved: Reserved, body: seq<Event>) returns (n: Node)
    requires ValueOfBody(reserved, body).Ok? && WellNested([], body)
    ensures body == Events(n) && n.MappingNode? && Build(reserved, n, 0) == ValueOfBody(reserved, body)
    ensures InSubset(n, MAX_DEPTH) && KeysClean(reserved, n)
    ensures var m := ValueOfBody(reserved, body).value; m.Obj? && |m.members| == |n.pairs|
  {
    var start := Machine([], None);
    assert Kinds(start.stack) == [];
    hide RunEvents, WellNested;
    var rest;
    n, rest := SplitNode(reserved, start, body);
    assert body == Events(n);
    MachineIsRecursion(reserved, n);
    assert n.MappingNode? by { RootIsMapping(n); }
    AcceptedIsInSubset(reserved, n, 0);
    BuiltKeysClean(reserved, n, 0);
    AcceptedKeysDistinct(reserved, n, 0, map[], 1);
    hide InSubset, KeysClean, BuildPairs, Events;
  }

  lemma RootIsMapping(n: Node)
    ensures Events(n) != [] && (Events(n)[0].MappingStart? <==> n.MappingNode?)
  {
  }

  /** So of the bodies the machine accepts, the emissions of nodes are those whose brackets match. */
  lemma EmissionExactly(reserved: Reserved, body: seq<Event>)
    requires ValueOfBody(reserved, body).Ok?
    ensures WellNested([], body) <==> exists n :: body == Events(n)
  {
    if WellNested([], body) {
      var n := AcceptedIsEmission(reserved, body);
    }
    hide Events, ValueOfBody, WellNested;
    if n :| body == Events(n) {
      NodeNestsWell(n, [], []);
      assert Events(n) + [] == Events(n);
    }
  }

  /** The machine does not compare an end with the start it closes, nor look for a root it already has: a
      mapping ended as a sequence is taken as an empty mapping, and a scalar after the root replaces it, so
      that the value is no mapping at all. A YAML parser emits neither. */
  lemma UnmatchedBodiesAccepted(reserved: Reserved)
    ensures var mismatched := [MappingStart(false, false), SequenceEnd];
            ValueOfBody(reserved, mismatched) == Ok(Obj(map[])) && forall n :: Events(n) != mismatched
    ensures var second := [MappingStart(false, false), MappingEnd, ScalarEvent([LESS], false, false, false)];
            ValueOfBody(reserved, second) == Ok(Str([LESS])) && forall n :: Events(n) != second
  {
    var mismatched := [MappingStart(false, false), SequenceEnd];
    var second := [MappingStart(false, false), MappingEnd, ScalarEvent([LESS], false, false, false)];
    var m := Machine([], None);
    assert mismatched[1..] == [SequenceEnd] && second[1..] == [MappingEnd, ScalarEvent([LESS], false, false, false)];
    assert second[1..][1..] == [ScalarEvent([LESS], false, false, false)];
    var open := StepEvent(reserved, m, MappingStart(false, false)).value;
    assert open.stack[..0] == [];
    RunOne(reserved, open, SequenceEnd);
    var closed := StepEvent(reserved, open, MappingEnd).value;
    RunOne(reserved, closed, ScalarEvent([LESS], false, false, false));
    assert RunEvents(reserved, m, mismatched) == RunEvents(reserved, open, mismatched[1..]);
    assert RunEvents(reserved, m, second) == RunEvents(reserved, open, second[1..]);
    assert RunEvents(reserved, open, second[1..]) == RunEvents(reserved, closed, second[1..][1..]);
    assert !WellNested([], mismatched) && !WellNested([], second) by { NotNested(); }
    hide RunEvents, WellNested;
    EmissionExactly(reserved, mismatched);
    EmissionExactly(reserved, second);
  }

  lemma NotNested()
    ensures !WellNested([], [MappingStart(false, false), SequenceEnd])
    ensures !WellNested([], [MappingStart(false, false), MappingEnd, ScalarEvent([LESS], false, false, false)])
  {
    var none: seq<bool> := [];
    assert none + [true] == [true];
    assert [MappingStart(false, false), SequenceEnd][1..] == [SequenceEnd];
    assert !WellNested([true], [SequenceEnd]);
    var second := [MappingStart(false, false), MappingEnd, ScalarEvent([LESS], false, false, false)];
    assert second[1..] == [MappingEnd, ScalarEvent([LESS], false, false, false)];
    assert !WellNested([true], second[1..]);
  }
}
