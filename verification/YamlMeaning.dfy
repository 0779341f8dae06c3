/** What a YAML document in the subset stands for, said of its nodes and without the machine or the recursion that build
    it: which scalars are typed, which keys a mapping has, and what is wrong with a document that is refused, in the
    order in which it stands there. */
module YamlMeaning {
  import opened Wrappers
  import opened Text
  import opened Values
  import opened YamlEvents

  // --- scalars ---------------------------------------------------------------------------------------

  /** An optional minus sign, and digits without a leading zero. */
  ghost predicate IsInteger(t: Text, n: int)
  {
    && t != []
    && var digits := if t[0] == '-' as int then t[1..] else t;
       IsCanonicalDigits(digits) && (if t[0] == '-' as int then -n else n) == Num(digits)
  }

  ghost predicate Safe(n: int)
  {
    -9007199254740991 <= n <= 9007199254740991
  }

  const TRUE_WORD: Text := ['t' as int, 'r' as int, 'u' as int, 'e' as int]
  const FALSE_WORD: Text := ['f' as int, 'a' as int, 'l' as int, 's' as int, 'e' as int]
  const NULL_WORD: Text := ['n' as int, 'u' as int, 'l' as int, 'l' as int]

  /** A quoted or block scalar is the string it says. A plain one is a boolean, null or an integer in range where it is
      written like one, and otherwise a string unless its notation is reserved. */
  ghost predicate ScalarStands(reserved: Reserved, t: Text, plain: bool, v: Value)
  {
    if !plain then v == Str(t)
    else if t == TRUE_WORD then v == Bool(true)
    else if t == FALSE_WORD then v == Bool(false)
    else if t == NULL_WORD then v == Null
    else if exists n :: IsInteger(t, n) then exists n :: IsInteger(t, n) && Safe(n) && v == Int(n)
    else reserved(t) == None && v == Str(t)
  }

  /** What is wrong with a plain scalar, if anything. */
  ghost function ScalarFaults(reserved: Reserved, t: Text, plain: bool): seq<YamlError>
  {
    if !plain || t == TRUE_WORD || t == FALSE_WORD || t == NULL_WORD then []
    else if exists n :: IsInteger(t, n) then if exists n :: IsInteger(t, n) && Safe(n) then [] else [FormInvalid]
    else if reserved(t).Some? then [reserved(t).value] else []
  }

  // --- nodes -----------------------------------------------------------------------------------------

  /** The node stands for the value, where `room` more containers may be opened. */
  ghost predicate Stands(reserved: Reserved, n: Node, v: Value, room: int)
    decreases n, 1, 0
  {
    match n
    case AliasNode => false
    case ScalarNode(t, plain, tagged, anchored) => !tagged && !anchored && ScalarStands(reserved, t, plain, v)
    case SequenceNode(items, tagged, anchored) =>
      && !tagged && !anchored && room > 0 && v.Arr? && |v.items| == |items|
      && forall i :: 0 <= i < |items| ==> Stands(reserved, items[i], v.items[i], room - 1)
    case MappingNode(pairs, tagged, anchored) =>
      !tagged && !anchored && room > 0 && v.Obj? && PairsStand(reserved, n, |pairs|, v.members, room - 1)
  }

  /** The mapping has the first `n` pairs' keys, each a string that is not the merge key, each once, with their values,
      and no other key. */
  ghost predicate PairsStand(reserved: Reserved, n: Node, count: nat, m: map<Text, Value>, room: int)
    requires n.MappingNode? && count <= |n.pairs|
    decreases n, 0, 1
  {
    && (forall i :: 0 <= i < count ==> PairStands(reserved, n, i, m, room))
    && (forall i, j :: 0 <= i < j < count && n.pairs[i].0.ScalarNode? && n.pairs[j].0.ScalarNode? ==> n.pairs[i].0.text != n.pairs[j].0.text)
    && (forall k :: k in m ==> exists i :: 0 <= i < count && n.pairs[i].0.ScalarNode? && n.pairs[i].0.text == k)
  }

  ghost predicate PairStands(reserved: Reserved, n: Node, i: nat, m: map<Text, Value>, room: int)
    requires n.MappingNode? && i < |n.pairs|
    decreases n, 0, 0
  {
    var (key, value) := n.pairs[i];
    && key.ScalarNode? && Stands(reserved, key, Str(key.text), room) && key.text != ['<' as int, '<' as int]
    && key.text in m && Stands(reserved, value, m[key.text], room)
  }

  /** What is wrong with a node inside `depth` containers, in the order of the document; what comes after something
      wrong is of no account. */
  ghost function Faults(reserved: Reserved, n: Node, depth: nat): seq<YamlError>
    decreases n, 1, 0
  {
    match n
    case AliasNode => [ConstructUnsupported]
    case ScalarNode(t, plain, tagged, anchored) => if tagged
        || anchored then [ConstructUnsupported] else ScalarFaults(reserved, t, plain)
    case MappingNode(pairs, tagged, anchored) =>
      if tagged || anchored then [ConstructUnsupported] else if depth >= 64
          then [TooDeepSource] else PairFaults(reserved, n, |pairs|, depth + 1)
    case SequenceNode(items, tagged, anchored) =>
      if tagged || anchored then [ConstructUnsupported] else if depth >= 64
          then [TooDeepSource] else ItemFaults(reserved, n, |items|, depth + 1)
  }

  ghost function ItemFaults(reserved: Reserved, n: Node, count: nat, depth: nat): seq<YamlError>
    requires n.SequenceNode? && count <= |n.items|
    decreases n, 0, count
  {
    if count == 0 then [] else ItemFaults(reserved, n, count - 1, depth) + Faults(reserved, n.items[count - 1], depth)
  }

  ghost function PairFaults(reserved: Reserved, n: Node, count: nat, depth: nat): seq<YamlError>
    requires n.MappingNode? && count <= |n.pairs|
    decreases n, 0, count
  {
    if count == 0 then []
    else
      PairFaults(reserved, n, count - 1, depth) + Faults(reserved, n.pairs[count - 1].0, depth) + KeyFaults(reserved, n, count - 1)
      + Faults(reserved, n.pairs[count - 1].1, depth)
  }

  /** A key is a string, not the merge key, and not one that stands before. */
  ghost function KeyFaults(reserved: Reserved, n: Node, i: nat): seq<YamlError>
    requires n.MappingNode? && i < |n.pairs|
  {
    var key := n.pairs[i].0;
    if !key.ScalarNode? || !ScalarStands(reserved, key.text, key.plain, Str(key.text)) then [FormInvalid]
    else if key.text == ['<' as int, '<' as int] then [ConstructUnsupported]
    else if exists j :: 0 <= j < i && n.pairs[j].0.ScalarNode? && n.pairs[j].0.text == key.text then [FormInvalid]
    else []
  }

  lemma IntegerIs(t: Text)
    ensures forall n :: IsInteger(t, n) <==> CanonicalInteger(t) == Some(n)
  {
    var start := if t != [] && t[0] == DASH then 1 else 0;
    var end := CanonicalDigitsEnd(t, start);
    assert t[start..] == if start == 1 then t[1..] else t;
    if end == Some(|t|) {
      assert t[start..|t|] == t[start..];
    } else if t != [] && IsCanonicalDigits(t[start..]) {
      WholeRun(t, start);
    }
    hide CanonicalDigitsEnd, Num;
  }

  lemma WholeRun(t: Text, i: nat)
    requires i <= |t| && IsCanonicalDigits(t[i..])
    ensures CanonicalDigitsEnd(t, i) == Some(|t|)
  {
    assert t[i] == t[i..][0];
    if t[i] == ZERO {
      assert |t[i..]| == 1;
    } else {
      forall k | i <= k < |t| ensures IsDigit(t[k]) { assert t[k] == t[i..][k - i]; }
      RunUnique(t, i, |t|);
    }
  }

  lemma ScalarIs(reserved: Reserved, t: Text, plain: bool)
    ensures var r := ScalarValue(reserved, ScalarEvent(t, plain, false, false));
            && (forall v :: ScalarStands(reserved, t, plain, v) <==> r == Ok(v))
            && ScalarFaults(reserved, t, plain) == (if r.Ok? then [] else [r.error])
  {
    IntegerIs(t);
    hide IsInteger, CanonicalInteger;
    if CanonicalInteger(t).Some? { assert IsInteger(t, CanonicalInteger(t).value); }
  }

  // --- building gives what stands ------------------------------------------------------------------------

  lemma ScalarBuilds(reserved: Reserved, n: Node, depth: nat, v: Value, room: int)
    requires n.ScalarNode?
    ensures Stands(reserved, n, v, room) <==> Build(reserved, n, depth) == Ok(v)
    ensures Build(reserved, n, depth).Err? ==> Faults(reserved, n, depth) == [Build(reserved, n, depth).error]
    ensures Build(reserved, n, depth).Ok? ==> Faults(reserved, n, depth) == []
  {
    ScalarIs(reserved, n.text, n.plain);
    hide ScalarStands, ScalarFaults, PlainScalar;
  }

  /** The value of a string is the text of the scalar that stands for it. */
  lemma StringIsText(reserved: Reserved, n: Node, depth: nat)
    requires Build(reserved, n, depth).Ok? && Build(reserved, n, depth).value.Str?
    ensures n.ScalarNode? && Build(reserved, n, depth).value == Str(n.text)
            && ScalarStands(reserved, n.text, n.plain, Str(n.text))
  {
    hide BuildItems, BuildPairs;
    match n {
      case ScalarNode(t, plain, _, _) => ScalarIs(reserved, t, plain);
      case MappingNode(_, _, _) => PairsAreObject(reserved, n, 0, map[], depth + 1);
      case SequenceNode(_, _, _) => ItemsAreArray(reserved, n, 0, [], depth + 1);
      case _ =>
    }
  }

  lemma {:induction false} PairsAreObject(reserved: Reserved, n: Node, i: nat, sofar: map<Text, Value>, depth: nat)
    requires n.MappingNode? && i <= |n.pairs|
    ensures BuildPairs(reserved, n, i, sofar, depth).Ok? ==> BuildPairs(reserved, n, i, sofar, depth).value.Obj?
    decreases |n.pairs| - i
  {
    hide Build;
    if i < |n.pairs| {
      var k, v := Build(reserved, n.pairs[i].0, depth), Build(reserved, n.pairs[i].1, depth);
      if k.Ok? && k.value.Str? && v.Ok? { PairsAreObject(reserved, n, i + 1, sofar[k.value.text := v.value], depth); }
    }
  }

  lemma {:induction false} ItemsAreArray(reserved: Reserved, n: Node, i: nat, sofar: seq<Value>, depth: nat)
    requires n.SequenceNode? && i <= |n.items|
    ensures BuildItems(reserved, n, i, sofar, depth).Ok? ==> BuildItems(reserved, n, i, sofar, depth).value.Arr?
    decreases |n.items| - i
  {
    hide Build;
    if i < |n.items| {
      var v := Build(reserved, n.items[i], depth);
      if v.Ok? { ItemsAreArray(reserved, n, i + 1, sofar + [v.value], depth); }
    }
  }

  /** What is built stands there, and what is refused is refused for the first thing wrong. */
  lemma {:induction false} BuiltStands(reserved: Reserved, n: Node, depth: nat)
    requires depth <= 64
    ensures Build(reserved, n, depth).Ok? ==> Stands(reserved, n, Build(reserved, n, depth).value, 64 - depth) && Faults(reserved, n, depth) == []
    ensures Build(reserved, n, depth).Err? ==> First(Faults(reserved, n, depth), Build(reserved, n, depth).error)
    decreases n, 1, 0
  {
    hide BuildItems, BuildPairs, ItemFaults, PairFaults, PairsStand, ScalarStands, ScalarFaults;
    match n {
      case ScalarNode(_, _, _, _) => ScalarBuilds(reserved, n, depth, if Build(reserved, n,
          depth).Ok? then Build(reserved, n, depth).value else Null, 64 - depth);
      case SequenceNode(items, tagged, anchored) =>
        if !tagged && !anchored && depth < 64 {
          NoItemFaults(reserved, n, depth + 1);
          ItemsBuilt(reserved, n, 0, [], depth + 1);
        }
      case MappingNode(pairs, tagged, anchored) =>
        if !tagged && !anchored && depth < 64 {
          NoPairs(reserved, n, 63 - depth, depth + 1);
          PairsBuilt(reserved, n, 0, map[], depth + 1);
        }
      case AliasNode =>
    }
  }

  ghost predicate First(faults: seq<YamlError>, e: YamlError)
  {
    faults != [] && faults[0] == e
  }

  lemma NoItemFaults(reserved: Reserved, n: Node, depth: nat)
    requires n.SequenceNode?
    ensures ItemFaults(reserved, n, 0, depth) == []
  {
  }

  lemma NoPairs(reserved: Reserved, n: Node, room: int, depth: nat)
    requires n.MappingNode?
    ensures PairsStand(reserved, n, 0, map[], room) && PairFaults(reserved, n, 0, depth) == []
  {
  }

  lemma {:induction false} MoreFaults(reserved: Reserved, n: Node, i: nat, depth: nat)
    requires n.SequenceNode? && i <= |n.items|
    ensures ItemFaults(reserved, n, i, depth) <= ItemFaults(reserved, n, |n.items|, depth)
    decreases |n.items| - i
  {
    hide Faults;
    if i < |n.items| { MoreFaults(reserved, n, i + 1, depth); }
  }

  lemma {:induction false} ItemsBuilt(reserved: Reserved, n: Node, i: nat, sofar: seq<Value>, depth: nat)
    requires n.SequenceNode? && i <= |n.items| && depth <= 64 && |sofar| == i && ItemFaults(reserved, n, i, depth) == []
    requires forall j :: 0 <= j < i ==> Stands(reserved, n.items[j], sofar[j], 64 - depth)
    ensures var r, faults := BuildItems(reserved, n, i, sofar, depth), ItemFaults(reserved, n, |n.items|, depth);
            && (r.Ok? ==> faults == [] && r.value.Arr? && |r.value.items| == |n.items|
                          && forall j :: 0 <= j < |n.items| ==> Stands(reserved, n.items[j], r.value.items[j], 64 - depth))
            && (r.Err? ==> First(faults, r.error))
    decreases n, 0, |n.items| - i
  {
    hide Build, Stands, Faults;
    if i < |n.items| {
      BuiltStands(reserved, n.items[i], depth);
      MoreFaults(reserved, n, i + 1, depth);
      assert ItemFaults(reserved, n, i + 1, depth) == [] + Faults(reserved, n.items[i], depth);
      var v := Build(reserved, n.items[i], depth);
      if v.Ok? { ItemsBuilt(reserved, n, i + 1, sofar + [v.value], depth); }
    }
  }

  lemma {:induction false} MorePairFaults(reserved: Reserved, n: Node, i: nat, depth: nat)
    requires n.MappingNode? && i <= |n.pairs|
    ensures PairFaults(reserved, n, i, depth) <= PairFaults(reserved, n, |n.pairs|, depth)
    decreases |n.pairs| - i
  {
    hide Faults, KeyFaults;
    if i < |n.pairs| { MorePairFaults(reserved, n, i + 1, depth); }
  }

  /** One more pair. */
  lemma PairAdded(reserved: Reserved, n: Node, i: nat, sofar: map<Text, Value>, v: Value, room: int)
    requires n.MappingNode? && i < |n.pairs| && PairsStand(reserved, n, i, sofar, room)
    requires n.pairs[i].0.ScalarNode? && Stands(reserved, n.pairs[i].0, Str(n.pairs[i].0.text), room)
             && n.pairs[i].0.text != MERGE_KEY
    requires n.pairs[i].0.text !in sofar && Stands(reserved, n.pairs[i].1, v, room)
    ensures PairsStand(reserved, n, i + 1, sofar[n.pairs[i].0.text := v], room)
  {
    hide Stands;
    var m := sofar[n.pairs[i].0.text := v];
    forall j | 0 <= j < i + 1 ensures PairStands(reserved, n, j, m, room) {
      if j < i { assert PairStands(reserved, n, j, sofar, room); }
    }
    forall a, b | 0 <= a < b < i + 1 && n.pairs[a].0.ScalarNode?
        && n.pairs[b].0.ScalarNode? ensures n.pairs[a].0.text != n.pairs[b].0.text {
      assert PairStands(reserved, n, a, sofar, room);
    }
    forall k | k in m ensures exists j :: 0 <= j < i + 1 && n.pairs[j].0.ScalarNode? && n.pairs[j].0.text == k {
      if k in sofar {
        var j :| 0 <= j < i && n.pairs[j].0.ScalarNode? && n.pairs[j].0.text == k;
      }
    }
  }

  /** A key that was taken before is one of the pairs before. */
  lemma Taken(reserved: Reserved, n: Node, i: nat, sofar: map<Text, Value>, t: Text, room: int)
    requires n.MappingNode? && i <= |n.pairs| && PairsStand(reserved, n, i, sofar, room)
    ensures t in sofar <==> exists j :: 0 <= j < i && n.pairs[j].0.ScalarNode? && n.pairs[j].0.text == t
  {
    hide Stands;
    if j :| 0 <= j < i && n.pairs[j].0.ScalarNode? && n.pairs[j].0.text == t { assert PairStands(reserved, n, j, sofar, room); }
  }

  lemma {:induction false} PairsBuilt(reserved: Reserved, n: Node, i: nat, sofar: map<Text, Value>, depth: nat)
    requires n.MappingNode? && i <= |n.pairs| && depth <= 64 && PairFaults(reserved, n, i, depth) == []
    requires PairsStand(reserved, n, i, sofar, 64 - depth)
    ensures var r, faults := BuildPairs(reserved, n, i, sofar, depth), PairFaults(reserved, n, |n.pairs|, depth);
            && (r.Ok? ==> faults == [] && r.value.Obj? && PairsStand(reserved, n, |n.pairs|, r.value.members, 64 - depth))
            && (r.Err? ==> First(faults, r.error))
    decreases n, 0, |n.pairs| - i
  {
    hide Build, Stands, Faults, PairsStand, ScalarStands, KeyFaults, PairFaults;
    if i < |n.pairs| {
      var (key, value) := n.pairs[i];
      var k := Build(reserved, key, depth);
      BuiltStands(reserved, key, depth);
      PairFaultsAt(reserved, n, i, depth);
      if k.Ok? {
        KeyIs(reserved, n, i, sofar, depth);
        if KeyFaults(reserved, n, i) == [] {
          StringIsText(reserved, key, depth);
          BuiltStands(reserved, value, depth);
          var v := Build(reserved, value, depth);
          if v.Ok? {
            PairAdded(reserved, n, i, sofar, v.value, 64 - depth);
            PairsBuilt(reserved, n, i + 1, sofar[key.text := v.value], depth);
          }
        }
      }
    }
  }

  /** What is wrong with a pair comes first where nothing is wrong before it. */
  lemma PairFaultsAt(reserved: Reserved, n: Node, i: nat, depth: nat)
    requires n.MappingNode? && i < |n.pairs| && PairFaults(reserved, n, i, depth) == []
    ensures var k, own, v := Faults(reserved, n.pairs[i].0, depth), KeyFaults(reserved, n, i), Faults(reserved, n.pairs[i].1, depth);
            var all := PairFaults(reserved, n, |n.pairs|, depth);
            && (k != [] ==> First(all, k[0])) && (k == [] && own != [] ==> First(all, own[0]))
            && (k == own == [] && v != [] ==> First(all, v[0]))
            && (k == own == v == [] ==> PairFaults(reserved, n, i + 1, depth) == [])
  {
    MorePairFaults(reserved, n, i + 1, depth);
    var k, own, v := Faults(reserved, n.pairs[i].0, depth), KeyFaults(reserved, n, i), Faults(reserved, n.pairs[i].1, depth);
    assert PairFaults(reserved, n, i + 1, depth) == [] + k + own + v;
    hide Faults, KeyFaults, PairFaults;
  }

  /** What the key that was built is refused for. */
  lemma KeyIs(reserved: Reserved, n: Node, i: nat, sofar: map<Text, Value>, depth: nat)
    requires n.MappingNode? && i < |n.pairs| && depth <= 64 && PairsStand(reserved, n, i, sofar, 64 - depth)
    requires Build(reserved, n.pairs[i].0, depth).Ok?
    ensures var k := Build(reserved, n.pairs[i].0, depth).value;
            KeyFaults(reserved, n, i)
            == if !k.Str? then [FormInvalid] else if k.text
                == MERGE_KEY then [ConstructUnsupported] else if k.text in sofar then [FormInvalid] else []
  {
    var key := n.pairs[i].0;
    var k := Build(reserved, key, depth).value;
    if k.Str? {
      StringIsText(reserved, key, depth);
      Taken(reserved, n, i, sofar, k.text, 64 - depth);
    } else if key.ScalarNode? {
      ScalarBuilds(reserved, key, depth, Str(key.text), 64 - depth);
    }
    hide Build, ScalarStands, PairsStand;
  }

  // --- and what stands is built --------------------------------------------------------------------------

  lemma {:induction false} StandingBuilds(reserved: Reserved, n: Node, v: Value, depth: nat)
    requires depth <= 64 && Stands(reserved, n, v, 64 - depth)
    ensures Build(reserved, n, depth) == Ok(v)
    decreases n, 1, 0
  {
    hide BuildItems, BuildPairs, ScalarStands;
    match n {
      case ScalarNode(_, _, _, _) => ScalarBuilds(reserved, n, depth, v, 64 - depth);
      case SequenceNode(items, _, _) =>
        assert v.items[..0] == [];
        StandingItems(reserved, n, 0, v, depth + 1);
      case MappingNode(pairs, _, _) =>
        NoPairs(reserved, n, 63 - depth, depth + 1);
        StandingPairs(reserved, n, 0, map[], v.members, depth + 1);
        hide PairsStand;
    }
  }

  lemma {:induction false} StandingItems(reserved: Reserved, n: Node, i: nat, v: Value, depth: nat)
    requires n.SequenceNode? && i <= |n.items| && depth <= 64 && v.Arr? && |v.items| == |n.items|
    requires forall j :: 0 <= j < |n.items| ==> Stands(reserved, n.items[j], v.items[j], 64 - depth)
    ensures BuildItems(reserved, n, i, v.items[..i], depth) == Ok(v)
    decreases n, 0, |n.items| - i
  {
    hide Build, Stands;
    if i < |n.items| {
      StandingBuilds(reserved, n.items[i], v.items[i], depth);
      StandingItems(reserved, n, i + 1, v, depth);
      assert v.items[..i] + [v.items[i]] == v.items[..i + 1];
    } else {
      assert v.items[..i] == v.items;
    }
  }

  lemma {:induction false} StandingPairs(reserved: Reserved, n: Node, i: nat, sofar: map<Text, Value>, m: map<Text,
                                         Value>, depth: nat)
    requires n.MappingNode? && i <= |n.pairs| && depth <= 64
    requires PairsStand(reserved, n, |n.pairs|, m, 64 - depth) && PairsStand(reserved, n, i, sofar, 64 - depth)
    requires forall k :: k in sofar ==> k in m && sofar[k] == m[k]
    ensures BuildPairs(reserved, n, i, sofar, depth) == Ok(Obj(m))
    decreases n, 0, |n.pairs| - i
  {
    hide Build, Stands;
    if i < |n.pairs| {
      var (key, value) := n.pairs[i];
      assert PairStands(reserved, n, i, m, 64 - depth);
      StandingBuilds(reserved, key, Str(key.text), depth);
      StandingBuilds(reserved, value, m[key.text], depth);
      NotTaken(reserved, n, i, sofar, m, 64 - depth);
      PairAdded(reserved, n, i, sofar, m[key.text], 64 - depth);
      hide PairsStand;
      StandingPairs(reserved, n, i + 1, sofar[key.text := m[key.text]], m, depth);
    } else {
      AllTaken(reserved, n, sofar, m, 64 - depth);
      hide PairsStand;
    }
  }

  lemma NotTaken(reserved: Reserved, n: Node, i: nat, sofar: map<Text, Value>, m: map<Text, Value>, room: int)
    requires n.MappingNode? && i < |n.pairs| && PairsStand(reserved, n, |n.pairs|, m, room)
             && PairsStand(reserved, n, i, sofar, room)
    ensures n.pairs[i].0.ScalarNode? && n.pairs[i].0.text !in sofar
  {
    hide Stands;
    assert PairStands(reserved, n, i, m, room);
    Taken(reserved, n, i, sofar, n.pairs[i].0.text, room);
  }

  lemma AllTaken(reserved: Reserved, n: Node, sofar: map<Text, Value>, m: map<Text, Value>, room: int)
    requires n.MappingNode? && PairsStand(reserved, n, |n.pairs|, m, room) && PairsStand(reserved, n, |n.pairs|, sofar, room)
    requires forall k :: k in sofar ==> k in m && sofar[k] == m[k]
    ensures sofar == m
  {
    hide Stands, PairsStand;
    forall k | k in m ensures k in sofar {
      Taken(reserved, n, |n.pairs|, sofar, k, room);
      Taken(reserved, n, |n.pairs|, m, k, room);
    }
  }

  /** A document's events are taken as a value exactly when its root is a mapping that stands for it, nesting at most
      sixty-four deep. */
  lemma DocumentMeans(reserved: Reserved, n: Node, v: Value)
    ensures ValueOfBody(reserved, Events(n)) == Ok(v) <==> n.MappingNode? && Stands(reserved, n, v, 64)
  {
    hide Build, Stands, ValueOfBody, Events;
    MachineIsRecursion(reserved, n);
    if n.MappingNode? {
      BuiltStands(reserved, n, 0);
      if Stands(reserved, n, v, 64) { StandingBuilds(reserved, n, v, 0); }
    }
  }

  /** And otherwise refused: an empty document as no document, any other root but a mapping as outside the subset, and
      a mapping for the first thing wrong in it. */
  lemma DocumentRefused(reserved: Reserved, n: Node)
    ensures ValueOfBody(reserved, Events(n)).Err? ==>
              if n.ScalarNode? && n.plain && n.text == [] then ValueOfBody(reserved, Events(n)).error == SyntaxInvalid
              else if !n.MappingNode? then ValueOfBody(reserved, Events(n)).error == ConstructUnsupported
              else First(Faults(reserved, n, 0), ValueOfBody(reserved, Events(n)).error)
    ensures ValueOfBody(reserved, Events(n)).Ok? ==> Faults(reserved, n, 0) == []
  {
    hide Build, Stands, ValueOfBody, Events, Faults;
    MachineIsRecursion(reserved, n);
    BuiltStands(reserved, n, 0);
  }
}
