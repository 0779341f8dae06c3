/** The evaluator of vfy/gate.py: three-valued states, the causes of what could not settle, and the
    walk over the rules. */
module Evaluate {
  import opened Wrappers
  import opened Text
  import opened Values
  import opened Syntax
  import opened Printer
  import opened Expressions
  import Decimals
  import Glob

  // identity
  const IDENTITY_KEY: Text := IDENTITY
  const NANOS: int := 1000000000

  // --- inputs ----------------------------------------------------------------------------------------

  /** One frozen evidence item: whether its status is ok, its value if any, its acquisition instant. */
  datatype Item = Item(ok: bool, value: Option<Value>, acquired: int)

  /** What a run is evaluated over; a declaration is its `max_age_seconds`, if it has one. */
  datatype Inputs = Inputs(
    items: map<Text, Item>,
    declarations: map<Text, Option<int>>,
    candidate: map<Text, Value>,
    frozenAt: int)

  datatype State = Yes | No | Unsettled

  datatype Cause = EvidenceUnsettled(id: Text) | OperandUnsettled

  /** What an operand resolves to: absence is a settled fact, not an unknown. */
  datatype Resolved = Absent | Unknown | Known(value: Value)

  function Truth(b: bool): State
  {
    if b then Yes else No
  }

  // --- resolving -------------------------------------------------------------------------------------

  function Descend(v: Resolved, segments: seq<Segment>): Resolved
    decreases |segments|
  {
    if segments == [] || v == Absent then v
    else Descend(DescendOne(v, segments[0]), segments[1..])
  }

  function DescendOne(v: Resolved, s: Segment): Resolved
  {
    match s
    case Member(name) =>
      if v.Known? && v.value.Obj? && name in v.value.members then Known(v.value.members[name]) else Absent
    case Index(n) =>
      if v.Known? && v.value.Arr? && n < |v.value.items| then Known(v.value.items[n]) else Absent
  }

  method DescendPath(value: Resolved, segments: seq<Segment>) returns (r: Resolved)
    ensures r == Descend(value, segments)
  {
    r := value;
    for i := 0 to |segments|
      invariant Descend(value, segments) == Descend(r, segments[i..])
    {
      if r == Absent { return; }
      assert segments[i..][0] == segments[i] && segments[i..][1..] == segments[i + 1..];
      r := DescendOne(r, segments[i]);
    }
  }

  predicate ItemOk(x: Inputs, id: Text)
  {
    id in x.items && x.items[id].ok
  }

  function ResolvePath(x: Inputs, p: Path): Resolved
    requires WellFormedPath(p)
  {
    if p.root == EVIDENCE then
      var id := p.segments[0].name;
      if !ItemOk(x, id) || x.items[id].value.None? then Unknown
      else Descend(Known(x.items[id].value.value), p.segments[1..])
    else if p.root == IDENTITY then
      Descend(if IDENTITY_KEY in x.candidate then Known(x.candidate[IDENTITY_KEY]) else Absent, p.segments)
    else Descend(Known(Obj(x.candidate)), p.segments)
  }

  function Resolve(x: Inputs, o: Operand): Resolved
    requires WellFormedOperand(o)
  {
    match o
    case LiteralOperand(l) => Known(LiteralValue(l))
    case PathOperand(p) => ResolvePath(x, p)
  }

  lemma {:induction false} DescentSettles(v: Resolved, segments: seq<Segment>)
    requires v != Unknown
    ensures Descend(v, segments) != Unknown
    decreases |segments|
  {
    if segments != [] && v != Absent { DescentSettles(DescendOne(v, segments[0]), segments[1..]); }
  }

  // --- exact values ----------------------------------------------------------------------------------

  /** The host's own equality inside objects: a boolean equals the integer it counts as. */
  predicate HostEqual(a: Value, b: Value)
    decreases a
  {
    match a
    case Bool(p) => b == a || b == Int(if p then 1 else 0)
    case Int(n) => b == a || (n == 1 && b == Bool(true)) || (n == 0 && b == Bool(false))
    case Arr(items) => b.Arr? && |items| == |b.items| && forall i :: 0 <= i < |items| ==> HostEqual(items[i], b.items[i])
    case Obj(members) =>
      b.Obj? && members.Keys == b.members.Keys && forall k :: k in members ==> HostEqual(members[k], b.members[k])
    case _ => b == a
  }

  predicate EqualValues(a: Value, b: Value)
    decreases a
  {
    if a.Bool? != b.Bool? then false
    else if a.Arr? && b.Arr? then
      |a.items| == |b.items| && forall i :: 0 <= i < |a.items| ==> EqualValues(a.items[i], b.items[i])
    else if a.Obj? && b.Obj? then HostEqual(a, b)
    else a == b
  }

  predicate Equal(a: Resolved, b: Resolved)
  {
    if a == Absent || b == Absent then a == Absent && b == Absent
    else a.Known? && b.Known? && EqualValues(a.value, b.value)
  }

  /** A boolean or one of the integers it counts as, anywhere in a value. */
  predicate CountsTwice(v: Value)
  {
    match v
    case Bool(_) => true
    case Int(n) => n == 0 || n == 1
    case Arr(items) => exists i :: 0 <= i < |items| && CountsTwice(items[i])
    case Obj(members) => exists k :: k in members && CountsTwice(members[k])
    case _ => false
  }

  /** The same inside some object of the value. */
  predicate CountsTwiceInObject(v: Value)
  {
    match v
    case Arr(items) => exists i :: 0 <= i < |items| && CountsTwiceInObject(items[i])
    case Obj(members) => CountsTwice(v)
    case _ => false
  }

  lemma {:induction false} HostEqualReflexive(v: Value)
    ensures HostEqual(v, v)
    decreases v
  {
    match v {
      case Arr(items) => forall i | 0 <= i < |items| ensures HostEqual(items[i], items[i]) { HostEqualReflexive(items[i]); }
      case Obj(members) => forall k | k in members ensures HostEqual(members[k], members[k]) { HostEqualReflexive(members[k]); }
      case _ =>
    }
  }

  lemma {:induction false} EqualReflexive(v: Value)
    ensures EqualValues(v, v)
    decreases v
  {
    if v.Arr? {
      forall i | 0 <= i < |v.items| ensures EqualValues(v.items[i], v.items[i]) { EqualReflexive(v.items[i]); }
    } else {
      HostEqualReflexive(v);
    }
  }

  lemma {:induction false} HostEqualExact(a: Value, b: Value)
    requires HostEqual(a, b) && !CountsTwice(a)
    ensures a == b
    decreases a
  {
    match a {
      case Arr(items) =>
        forall i | 0 <= i < |items| ensures items[i] == b.items[i] { HostEqualExact(items[i], b.items[i]); }
        assert items == b.items;
      case Obj(members) =>
        forall k | k in members ensures members[k] == b.members[k] { HostEqualExact(members[k], b.members[k]); }
        assert members == b.members;
      case _ =>
    }
  }

  lemma {:induction false} EqualExact(a: Value, b: Value)
    requires EqualValues(a, b) && !CountsTwiceInObject(a)
    ensures a == b
    decreases a
  {
    if a.Arr? && b.Arr? {
      forall i | 0 <= i < |a.items| ensures a.items[i] == b.items[i] { EqualExact(a.items[i], b.items[i]); }
      assert a.items == b.items;
    } else if a.Obj? && b.Obj? {
      HostEqualExact(a, b);
    }
  }

  /** A different value the host's equality does not tell from `v`. */
  lemma {:induction false} HostTwin(v: Value) returns (w: Value)
    requires CountsTwice(v)
    ensures w != v && HostEqual(v, w)
    decreases v
  {
    match v {
      case Bool(b) => w := Int(if b then 1 else 0);
      case Int(n) => w := Bool(n == 1);
      case Arr(items) =>
        var i :| 0 <= i < |items| && CountsTwice(items[i]);
        var x := HostTwin(items[i]);
        w := Arr(items[i := x]);
        forall j | 0 <= j < |items| ensures HostEqual(items[j], w.items[j]) { HostEqualReflexive(items[j]); }
        assert w.items[i] != items[i];
      case Obj(members) =>
        var k :| k in members && CountsTwice(members[k]);
        var x := HostTwin(members[k]);
        w := Obj(members[k := x]);
        forall j | j in members ensures HostEqual(members[j], w.members[j]) { HostEqualReflexive(members[j]); }
        assert w.members.Keys == members.Keys && w.members[k] != members[k];
    }
  }

  lemma {:induction false} EqualTwin(v: Value) returns (w: Value)
    requires CountsTwiceInObject(v)
    ensures w != v && EqualValues(v, w)
    decreases v
  {
    match v {
      case Arr(items) =>
        var i :| 0 <= i < |items| && CountsTwiceInObject(items[i]);
        var x := EqualTwin(items[i]);
        w := Arr(items[i := x]);
        forall j | 0 <= j < |items| ensures EqualValues(items[j], w.items[j]) { EqualReflexive(items[j]); }
        assert w.items[i] != items[i];
      case Obj(members) => w := HostTwin(v);
    }
  }

  /** Equality is exact canonical equality for exactly the values none of whose objects holds a
      boolean, a zero or a one: any other value equals some different one. */
  lemma EqualityIsExactUnless(v: Value)
    ensures (forall w :: EqualValues(v, w) <==> v == w) <==> !CountsTwiceInObject(v)
  {
    EqualReflexive(v);
    if CountsTwiceInObject(v) {
      var w := EqualTwin(v);
      assert EqualValues(v, w) && v != w;
    } else {
      forall w | EqualValues(v, w) ensures v == w { EqualExact(v, w); }
    }
  }

  /** For one: an object holding `true` equals the object holding 1. */
  lemma TrueEqualsOneInsideObject(key: Text)
    ensures Equal(Known(Obj(map[key := Bool(true)])), Known(Obj(map[key := Int(1)])))
    ensures !Equal(Known(Bool(true)), Known(Int(1)))
  {
    assert HostEqual(Bool(true), Int(1));
  }

  /** Literals of the grammar hold no objects, so comparing with one is exact. */
  lemma {:induction false} LiteralEqualityExact(l: Literal, v: Value)
    ensures EqualValues(LiteralValue(l), v) <==> LiteralValue(l) == v
  {
    LiteralHasNoObject(l);
    EqualReflexive(v);
    if EqualValues(LiteralValue(l), v) { EqualExact(LiteralValue(l), v); }
  }

  lemma {:induction false} LiteralHasNoObject(l: Literal)
    ensures !CountsTwiceInObject(LiteralValue(l))
    decreases l
  {
    if l.LList? {
      var items := LiteralValue(l).items;
      forall i | 0 <= i < |items| ensures !CountsTwiceInObject(items[i]) {
        assert items[i] == LiteralValue(l.items[i]);
        LiteralHasNoObject(l.items[i]);
      }
    }
  }

  // --- evaluating ------------------------------------------------------------------------------------

  function Order(a: Resolved, b: Resolved): Option<int>
  {
    if a.Known? && b.Known? then Decimals.CompareNumeric(a.value, b.value) else None
  }

  function Ordered(op: Operator, order: int): bool
  {
    match op
    case Lt => order < 0
    case Le => order <= 0
    case Gt => order > 0
    case _ => order >= 0
  }

  predicate IsFresh(x: Inputs, id: Text)
  {
    ItemOk(x, id)
    && (id in x.declarations && x.declarations[id].Some? ==>
          x.frozenAt - x.items[id].acquired <= x.declarations[id].value * NANOS)
  }

  function Note(causes: seq<Cause>, c: Cause): seq<Cause>
  {
    if c in causes then causes else causes + [c]
  }

  /** Noting what an operand could not resolve. */
  function NoteOperand(x: Inputs, o: Operand, causes: seq<Cause>): seq<Cause>
    requires WellFormedOperand(o)
  {
    if Resolve(x, o) == Unknown && o.PathOperand? then Note(causes, EvidenceUnsettled(o.path.segments[0].name)) else causes
  }

  predicate InList(v: Resolved, list: seq<Literal>)
  {
    exists i :: 0 <= i < |list| && Equal(v, Known(LiteralValue(list[i])))
  }

  ghost function Eval(x: Inputs, e: Expr, causes: seq<Cause>): (State, seq<Cause>)
    requires WellFormed(e)
    decreases e, 0
  {
    match e
    case Or(operands) =>
      var (states, after) := EvalUpTo(x, e, |operands|, causes);
      (if Unsettled in states then Unsettled else Truth(Yes in states), after)
    case And(operands) =>
      var (states, after) := EvalUpTo(x, e, |operands|, causes);
      (if Unsettled in states then Unsettled else Truth(No !in states), after)
    case Not(operand) =>
      var (s, after) := Eval(x, operand, causes);
      (if s == Unsettled then Unsettled else Truth(s == No), after)
    case Present(id) => (Truth(ItemOk(x, id)), causes)
    case Fresh(id) => (Truth(IsFresh(x, id)), causes)
    case Matches(path, pattern) =>
      var v := ResolvePath(x, path);
      if v == Unknown then (Unsettled, NoteOperand(x, PathOperand(path), causes))
      else if v == Absent then (No, causes)
      else if !v.value.Str? then (Unsettled, Note(causes, OperandUnsettled))
      else (Truth(Glob.Matches(pattern, 0, v.value.text, 0)), causes)
    case Membership(negated, item, list) =>
      var v := Resolve(x, item);
      if v == Unknown then (Unsettled, NoteOperand(x, item, causes))
      else (Truth(InList(v, list) != negated), causes)
    case Compare(op, left, right) =>
      var a, b := Resolve(x, left), Resolve(x, right);
      var after := NoteOperand(x, right, NoteOperand(x, left, causes));
      if a == Unknown || b == Unknown then (Unsettled, after)
      else if !IsOrdering(op) then (Truth(Equal(a, b) == (op == Eq)), after)
      else if Order(a, b).None? then (Unsettled, Note(after, OperandUnsettled))
      else (Truth(Ordered(op, Order(a, b).value)), after)
  }

  /** The first `n` operands, left to right, none skipped. */
  ghost function EvalUpTo(x: Inputs, e: Expr, n: nat, causes: seq<Cause>): (r: (seq<State>, seq<Cause>))
    requires (e.Or? || e.And?) && WellFormed(e) && n <= |e.operands|
    ensures |r.0| == n
    decreases e, 0, n
  {
    if n == 0 then ([], causes)
    else
      var (states, before) := EvalUpTo(x, e, n - 1, causes);
      var (s, after) := Eval(x, e.operands[n - 1], before);
      (states + [s], after)
  }

  class Context {
    const inputs: Inputs
    var causes: seq<Cause>

    constructor (inputs: Inputs)
      ensures this.inputs == inputs && causes == []
    {
      this.inputs := inputs;
      causes := [];
    }

    /** Afterwards the cause is there; every earlier one stands where it stood, nothing else came in, and a
        list without repeats still has none. */
    method NoteCause(c: Cause)
      modifies this`causes
      ensures c in causes && old(causes) <= causes
      ensures forall x :: x in causes ==> x in old(causes) || x == c
      ensures (forall i, j :: 0 <= i < j < |old(causes)| ==> old(causes)[i] != old(causes)[j])
              ==> forall i, j :: 0 <= i < j < |causes| ==> causes[i] != causes[j]
      ensures |causes| == |old(causes)| + if c in old(causes) then 0 else 1
      ensures causes == Note(old(causes), c)
    {
      if c !in causes { causes := causes + [c]; }
    }

    method ResolveOperand(o: Operand) returns (r: Resolved)
      requires WellFormedOperand(o)
      modifies this
      ensures r == Resolve(inputs, o) && causes == NoteOperand(inputs, o, old(causes))
    {
      match o {
        case LiteralOperand(l) => r := Known(LiteralValue(l));
        case PathOperand(p) =>
          if p.root == EVIDENCE {
            var id := p.segments[0].name;
            if !ItemOk(inputs, id) || inputs.items[id].value.None? {
              NoteCause(EvidenceUnsettled(id));
              return Unknown;
            }
            r := DescendPath(Known(inputs.items[id].value.value), p.segments[1..]);
            DescentSettles(Known(inputs.items[id].value.value), p.segments[1..]);
          } else if p.root == IDENTITY {
            var start := if IDENTITY_KEY in inputs.candidate then Known(inputs.candidate[IDENTITY_KEY]) else Absent;
            r := DescendPath(start, p.segments);
            DescentSettles(start, p.segments);
          } else {
            r := DescendPath(Known(Obj(inputs.candidate)), p.segments);
            DescentSettles(Known(Obj(inputs.candidate)), p.segments);
          }
      }
    }

    method Combine(e: Expr) returns (s: State)
      requires (e.Or? || e.And?) && WellFormed(e)
      modifies this
      ensures (s, causes) == Eval(inputs, e, old(causes))
      decreases e, 0
    {
      var states: seq<State> := [];
      for i := 0 to |e.operands|
        invariant (states, causes) == EvalUpTo(inputs, e, i, old(causes))
      {
        var state := EvaluateNode(e.operands[i]);
        states := states + [state];
      }
      if Unsettled in states { return Unsettled; }
      return if e.And? then Truth(No !in states) else Truth(Yes in states);
    }

    method EvaluateNode(e: Expr) returns (s: State)
      requires WellFormed(e)
      modifies this
      ensures (s, causes) == Eval(inputs, e, old(causes))
      decreases e, 1
    {
      match e {
        case Or(_) => s := Combine(e);
        case And(_) => s := Combine(e);
        case Not(operand) =>
          var inner := EvaluateNode(operand);
          s := if inner == Unsettled then Unsettled else if inner == Yes then No else Yes;
        case Present(id) => s := Truth(ItemOk(inputs, id));
        case Fresh(id) => s := Truth(IsFresh(inputs, id));
        case Matches(path, pattern) =>
          var v := ResolveOperand(PathOperand(path));
          if v == Unknown { return Unsettled; }
          if v == Absent { return No; }
          if !v.value.Str? {
            NoteCause(OperandUnsettled);
            return Unsettled;
          }
          var matched, _ := Glob.Match(pattern, v.value.text);
          s := Truth(matched);
        case Membership(negated, item, list) =>
          var v := ResolveOperand(item);
          if v == Unknown { return Unsettled; }
          var found := InList(v, list);
          s := if negated then Truth(!found) else Truth(found);
        case Compare(op, left, right) =>
          var a := ResolveOperand(left);
          var b := ResolveOperand(right);
          if a == Unknown || b == Unknown { return Unsettled; }
          if op == Eq || op == Ne { return Truth(Equal(a, b) == (op == Eq)); }
          var order := Order(a, b);
          if order.None? {
            NoteCause(OperandUnsettled);
            return Unsettled;
          }
          s := Truth(Ordered(op, order.value));
      }
    }
  }

  // --- why a node is unsettled -----------------------------------------------------------------------

  /** What the leaves of a tree could not settle, whatever was noted before. */
  ghost function LeafCauses(x: Inputs, e: Expr): set<Cause>
    requires WellFormed(e)
    decreases e, 0
  {
    match e
    case Or(operands) => LeafCausesUpTo(x, e, |operands|)
    case And(operands) => LeafCausesUpTo(x, e, |operands|)
    case Not(operand) => LeafCauses(x, operand)
    case Matches(path, pattern) =>
      var v := ResolvePath(x, path);
      OperandCauses(x, PathOperand(path)) + if v.Known? && !v.value.Str? then {OperandUnsettled} else {}
    case Membership(negated, item, list) => OperandCauses(x, item)
    case Compare(op, left, right) =>
      var a, b := Resolve(x, left), Resolve(x, right);
      OperandCauses(x, left) + OperandCauses(x, right)
      + if a != Unknown && b != Unknown && IsOrdering(op) && Order(a, b).None? then {OperandUnsettled} else {}
    case _ => {}
  }

  ghost function LeafCausesUpTo(x: Inputs, e: Expr, n: nat): set<Cause>
    requires (e.Or? || e.And?) && WellFormed(e) && n <= |e.operands|
    decreases e, 0, n
  {
    if n == 0 then {} else LeafCausesUpTo(x, e, n - 1) + LeafCauses(x, e.operands[n - 1])
  }

  ghost function OperandCauses(x: Inputs, o: Operand): set<Cause>
    requires WellFormedOperand(o)
  {
    if Resolve(x, o) == Unknown && o.PathOperand? then {EvidenceUnsettled(o.path.segments[0].name)} else {}
  }

  ghost predicate Grows(before: seq<Cause>, after: seq<Cause>, added: set<Cause>)
  {
    before <= after && forall c :: c in after <==> c in before || c in added
  }

  /** Nothing is short-circuited: a node is unsettled exactly when some leaf is, and the causes noted
      are those of all its leaves. */
  lemma {:induction false} UnsettledExactly(x: Inputs, e: Expr, causes: seq<Cause>)
    requires WellFormed(e)
    ensures Eval(x, e, causes).0 == Unsettled <==> LeafCauses(x, e) != {}
    ensures Grows(causes, Eval(x, e, causes).1, LeafCauses(x, e))
    decreases e, 0
  {
    match e {
      case Or(operands) => UnsettledUpTo(x, e, |operands|, causes);
      case And(operands) => UnsettledUpTo(x, e, |operands|, causes);
      case Not(operand) => UnsettledExactly(x, operand, causes);
      case Compare(op, left, right) =>
        LiteralsResolve(x, left);
        LiteralsResolve(x, right);
        CompareCauses(x, e, causes);
      case Membership(negated, item, list) => LiteralsResolve(x, item);
      case _ =>
    }
  }

  lemma LiteralsResolve(x: Inputs, o: Operand)
    requires WellFormedOperand(o)
    ensures Resolve(x, o) == Unknown ==> o.PathOperand?
  {
  }

  lemma CompareCauses(x: Inputs, e: Expr, causes: seq<Cause>)
    requires e.Compare? && WellFormed(e)
    ensures Eval(x, e, causes).0 == Unsettled <==> LeafCauses(x, e) != {}
    ensures Grows(causes, Eval(x, e, causes).1, LeafCauses(x, e))
  {
    LiteralsResolve(x, e.left);
    LiteralsResolve(x, e.right);
    hide Resolve, Order, Equal, Ordered, ComparisonTyped, WellFormedOperand;
    var a, b := Resolve(x, e.left), Resolve(x, e.right);
    if a == Unknown {
      assert EvidenceUnsettled(e.left.path.segments[0].name) in LeafCauses(x, e);
    } else if b == Unknown {
      assert EvidenceUnsettled(e.right.path.segments[0].name) in LeafCauses(x, e);
    } else if IsOrdering(e.op) && Order(a, b).None? {
      assert OperandUnsettled in LeafCauses(x, e);
    }
  }

  lemma {:induction false} UnsettledUpTo(x: Inputs, e: Expr, n: nat, causes: seq<Cause>)
    requires (e.Or? || e.And?) && WellFormed(e) && n <= |e.operands|
    ensures Unsettled in EvalUpTo(x, e, n, causes).0 <==> LeafCausesUpTo(x, e, n) != {}
    ensures Grows(causes, EvalUpTo(x, e, n, causes).1, LeafCausesUpTo(x, e, n))
    decreases e, 0, n
  {
    if n > 0 {
      UnsettledUpTo(x, e, n - 1, causes);
      UnsettledExactly(x, e.operands[n - 1], EvalUpTo(x, e, n - 1, causes).1);
    }
  }

  // --- locality --------------------------------------------------------------------------------------

  /** The two runs agree on everything but evidence, and on the evidence with these ids. */
  ghost predicate AgreeOn(x: Inputs, y: Inputs, ids: iset<Text>)
  {
    && x.candidate == y.candidate && x.frozenAt == y.frozenAt && x.declarations == y.declarations
    && forall id :: id in ids ==> (id in x.items <==> id in y.items) && (id in x.items ==> x.items[id] == y.items[id])
  }

  ghost function NamedIds(e: Expr): iset<Text>
  {
    iset id | Names(e, id)
  }

  lemma OperandLocal(x: Inputs, y: Inputs, o: Operand)
    requires WellFormedOperand(o) && AgreeOn(x, y, iset id | OperandNames(o, id))
    ensures Resolve(x, o) == Resolve(y, o)
  {
    if o.PathOperand? && o.path.root == EVIDENCE {
      assert o.path.segments[0] == Member(o.path.segments[0].name);
      assert OperandNames(o, o.path.segments[0].name);
    }
  }

  /** Evaluation reads no evidence but what the tree names: altering, adding or dropping any other
      item changes neither the state nor the causes. */
  lemma {:induction false} EvaluationIsLocal(x: Inputs, y: Inputs, e: Expr, causes: seq<Cause>)
    requires WellFormed(e) && AgreeOn(x, y, NamedIds(e))
    ensures Eval(x, e, causes) == Eval(y, e, causes)
    decreases e, 0
  {
    match e {
      case Or(operands) => LocalUpTo(x, y, e, |operands|, causes);
      case And(operands) => LocalUpTo(x, y, e, |operands|, causes);
      case Not(operand) =>
        assert AgreeOn(x, y, NamedIds(operand));
        EvaluationIsLocal(x, y, operand, causes);
      case Compare(op, left, right) =>
        OperandLocal(x, y, left);
        OperandLocal(x, y, right);
      case Membership(negated, item, list) => OperandLocal(x, y, item);
      case Matches(path, pattern) => OperandLocal(x, y, PathOperand(path));
      case Fresh(id) => assert Names(e, id);
      case Present(id) => assert Names(e, id);
    }
  }

  lemma {:induction false} LocalUpTo(x: Inputs, y: Inputs, e: Expr, n: nat, causes: seq<Cause>)
    requires (e.Or? || e.And?) && WellFormed(e) && n <= |e.operands| && AgreeOn(x, y, NamedIds(e))
    ensures EvalUpTo(x, e, n, causes) == EvalUpTo(y, e, n, causes)
    decreases e, 0, n
  {
    if n > 0 {
      LocalUpTo(x, y, e, n - 1, causes);
      assert AgreeOn(x, y, NamedIds(e.operands[n - 1])) by {
        forall id | Names(e.operands[n - 1], id) ensures Names(e, id) {}
      }
      EvaluationIsLocal(x, y, e.operands[n - 1], EvalUpTo(x, e, n - 1, causes).1);
    }
  }

  // --- the rules -------------------------------------------------------------------------------------

  datatype Outcome = Allow | Block | Hold

  datatype Rule = Rule(id: Text, needs: seq<Text>, tree: Expr, outcome: Outcome)

  /** How a walk ended: the outcome, the rule that decided, and what was unsettled. */
  datatype Verdict = Matched(rule: nat, outcome: Outcome) | Held(at: nat, causes: seq<Cause>) | Default(outcome: Outcome)

  function OutcomeOf(v: Verdict): Outcome
  {
    match v
    case Matched(_, o) => o
    case Held(_, _) => Hold
    case Default(o) => o
  }

  /** The first required id whose item is missing or not ok. */
  function FirstMissing(x: Inputs, ids: seq<Text>): (r: Option<Text>)
    ensures r.None? <==> forall i :: 0 <= i < |ids| ==> ItemOk(x, ids[i])
  {
    if ids == [] then None else if !ItemOk(x, ids[0]) then Some(ids[0]) else FirstMissing(x, ids[1..])
  }

  ghost function RuleState(x: Inputs, r: Rule): (State, seq<Cause>)
    requires WellFormed(r.tree)
  {
    var missing := FirstMissing(x, r.needs);
    if missing.Some? then (Unsettled, [EvidenceUnsettled(missing.value)]) else Eval(x, r.tree, [])
  }

  ghost predicate AllWellFormed(rules: seq<Rule>)
  {
    forall i :: 0 <= i < |rules| ==> WellFormed(rules[i].tree)
  }

  ghost function Decide(x: Inputs, rules: seq<Rule>, i: nat, default: Outcome): Verdict
    requires AllWellFormed(rules) && i <= |rules|
    decreases |rules| - i
  {
    if i == |rules| then Default(default)
    else
      var (s, causes) := RuleState(x, rules[i]);
      match s
      case Yes => Matched(i, rules[i].outcome)
      case Unsettled => Held(i, causes)
      case No => Decide(x, rules, i + 1, default)
  }

  method Walk(x: Inputs, rules: seq<Rule>, default: Outcome) returns (v: Verdict, trace: seq<State>)
    requires AllWellFormed(rules)
    ensures v == Decide(x, rules, 0, default)
    ensures |trace| <= |rules| && forall i :: 0 <= i < |trace| ==> trace[i] == RuleState(x, rules[i]).0
    ensures |trace| == match v case Matched(k, _) => k + 1 case Held(k, _) => k + 1 case Default(_) => |rules|
  {
    trace := [];
    for ordinal := 0 to |rules|
      invariant |trace| == ordinal && forall i :: 0 <= i < |trace| ==> trace[i] == RuleState(x, rules[i]).0
      invariant Decide(x, rules, 0, default) == Decide(x, rules, ordinal, default)
    {
      var rule := rules[ordinal];
      var context := new Context(x);
      var missing := FirstMissing(x, rule.needs);
      var state: State;
      if missing.Some? {
        context.NoteCause(EvidenceUnsettled(missing.value));
        state := Unsettled;
      } else {
        state := context.EvaluateNode(rule.tree);
      }
      trace := trace + [state];
      if state == Yes { return Matched(ordinal, rule.outcome), trace; }
      if state == Unsettled { return Held(ordinal, context.causes), trace; }
    }
    return Default(default), trace;
  }

  lemma {:induction false} WalkFrom(x: Inputs, rules: seq<Rule>, i: nat, default: Outcome)
    requires AllWellFormed(rules) && i <= |rules| && default != Allow
    ensures OutcomeOf(Decide(x, rules, i, default)) == Allow
            <==> exists k :: i <= k < |rules| && RuleState(x, rules[k]).0 == Yes && rules[k].outcome == Allow
                             && forall j :: i <= j < k ==> RuleState(x, rules[j]).0 == No
    decreases |rules| - i
  {
    hide RuleState;
    if i < |rules| { WalkFrom(x, rules, i + 1, default); }
  }

  /** Only a rule allows: the outcome is ALLOW if and only if some ALLOW rule is true and every rule
      before it is false, none unsettled. */
  lemma AllowExactly(x: Inputs, rules: seq<Rule>, default: Outcome)
    requires AllWellFormed(rules) && default != Allow
    ensures OutcomeOf(Decide(x, rules, 0, default)) == Allow
            <==> exists k :: 0 <= k < |rules| && RuleState(x, rules[k]).0 == Yes && rules[k].outcome == Allow
                             && forall j :: 0 <= j < k ==> RuleState(x, rules[j]).0 == No
  {
    WalkFrom(x, rules, 0, default);
  }

  /** A held walk always says why. */
  lemma {:induction false} HeldHasCauses(x: Inputs, rules: seq<Rule>, i: nat, default: Outcome)
    requires AllWellFormed(rules) && i <= |rules| && Decide(x, rules, i, default).Held?
    ensures Decide(x, rules, i, default).causes != []
    decreases |rules| - i
  {
    if i < |rules| {
      UnsettledExactly(x, rules[i].tree, []);
      if RuleState(x, rules[i]).0 == No { HeldHasCauses(x, rules, i + 1, default); }
    }
  }

  ghost function RuleIds(r: Rule): iset<Text>
  {
    iset id | Names(r.tree, id) || id in r.needs
  }

  lemma {:induction false} MissingIsLocal(x: Inputs, y: Inputs, ids: seq<Text>)
    requires forall id :: id in ids ==> (ItemOk(x, id) <==> ItemOk(y, id))
    ensures FirstMissing(x, ids) == FirstMissing(y, ids)
  {
    if ids != [] {
      assert ids[0] in ids;
      MissingIsLocal(x, y, ids[1..]);
    }
  }

  /** The whole decision reads no evidence but what its rules name or require. */
  lemma {:induction false} WalkIsLocal(x: Inputs, y: Inputs, rules: seq<Rule>, i: nat, default: Outcome)
    requires AllWellFormed(rules) && i <= |rules|
    requires forall k :: i <= k < |rules| ==> AgreeOn(x, y, RuleIds(rules[k]))
    ensures Decide(x, rules, i, default) == Decide(y, rules, i, default)
    decreases |rules| - i
  {
    if i < |rules| {
      var r := rules[i];
      assert AgreeOn(x, y, RuleIds(r));
      MissingIsLocal(x, y, r.needs);
      assert AgreeOn(x, y, NamedIds(r.tree));
      EvaluationIsLocal(x, y, r.tree, []);
      WalkIsLocal(x, y, rules, i + 1, default);
    }
  }
}
