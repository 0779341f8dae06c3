/** What a rule says, in the words of the expression language: which value an operand stands for, when each
    leaf is true, what it leaves unsettled, and what that makes of a tree, a rule and a whole walk. Nothing
    here calls the evaluator; the lemmas say that it agrees. */
module Meaning {
  import opened Wrappers
  import opened Text
  import opened Values
  import opened Syntax
  import opened Printer
  import opened Expressions
  import opened Evaluate
  import Decimals
  import Glob

  // --- where a path leads ------------------------------------------------------------------------------

  /** One segment leads from `u` to `w`. */
  ghost predicate Child(u: Value, s: Segment, w: Value)
  {
    match s
    case Member(name) => u.Obj? && name in u.members && u.members[name] == w
    case Index(n) => u.Arr? && n < |u.items| && u.items[n] == w
  }

  function Last(segments: seq<Segment>): Segment
    requires segments != []
  {
    segments[|segments| - 1]
  }

  function Init(segments: seq<Segment>): (r: seq<Segment>)
    requires segments != []
    ensures |r| < |segments| && segments == r + [Last(segments)]
  {
    segments[..|segments| - 1]
  }

  /** All the segments, the last one last. */
  ghost predicate Leads(v: Value, segments: seq<Segment>, w: Value)
    decreases |segments|
  {
    if segments == [] then v == w
    else exists u :: Leads(v, Init(segments), u) && Child(u, Last(segments), w)
  }

  lemma {:induction false} DescendSnoc(v: Resolved, segments: seq<Segment>, s: Segment)
    ensures Descend(v, segments + [s])
         == if Descend(v, segments) == Absent then Absent else DescendOne(Descend(v, segments), s)
    decreases |segments|
  {
    if segments == [] {
      assert segments + [s] == [s] && [s][1..] == [];
    } else if v != Absent {
      assert (segments + [s])[0] == segments[0] && (segments + [s])[1..] == segments[1..] + [s];
      DescendSnoc(DescendOne(v, segments[0]), segments[1..], s);
    }
  }

  /** Descending finds exactly the value the segments lead to, and nothing where they lead nowhere. */
  lemma {:induction false} DescendLeads(v: Value, segments: seq<Segment>, w: Value)
    ensures Descend(Known(v), segments) == Known(w) <==> Leads(v, segments, w)
    ensures Descend(Known(v), segments) != Unknown
    decreases |segments|
  {
    DescentSettles(Known(v), segments);
    if segments != [] {
      var init, last := Init(segments), Last(segments);
      DescendSnoc(Known(v), init, last);
      var r := Descend(Known(v), init);
      DescentSettles(Known(v), init);
      forall u ensures r == Known(u) <==> Leads(v, init, u) { DescendLeads(v, init, u); }
      if r.Known? { assert Child(r.value, last, w) <==> DescendOne(r, last) == Known(w); }
    }
  }

  // --- what an operand stands for ----------------------------------------------------------------------

  /** The value a literal writes. */
  ghost predicate Writes(l: Literal, w: Value)
    decreases l
  {
    match l
    case LBool(b) => w.Bool? && w.b == b
    case LInt(n) => w.Int? && w.n == n
    case LStr(s) => w.Str? && w.text == s
    case LList(items) => w.Arr? && |w.items| == |items| && forall i :: 0 <= i < |items| ==> Writes(items[i], w.items[i])
  }

  /** An `evidence` path whose item is missing, not ok, or without a value. */
  ghost predicate Unavailable(x: Inputs, o: Operand)
    requires WellFormedOperand(o)
  {
    && o.PathOperand? && o.path.root == EVIDENCE
    && var id := o.path.segments[0].name;
       !(id in x.items && x.items[id].ok && x.items[id].value.Some?)
  }

  /** The operand stands for this value: a literal for what it writes, a path for what it leads to in the
      item, in the candidate, or in the candidate's identity. */
  ghost predicate Denotes(x: Inputs, o: Operand, w: Value)
    requires WellFormedOperand(o)
  {
    match o
    case LiteralOperand(l) => Writes(l, w)
    case PathOperand(p) =>
      if p.root == EVIDENCE then !Unavailable(x, o) && Leads(x.items[p.segments[0].name].value.value, p.segments[1..], w)
      else if p.root == IDENTITY then Leads(Obj(x.candidate), [Member(IDENTITY)] + p.segments, w)
      else Leads(Obj(x.candidate), p.segments, w)
  }

  lemma {:induction false} LiteralWrites(l: Literal, w: Value)
    ensures Writes(l, w) <==> w == LiteralValue(l)
    decreases l
  {
    if l.LList? {
      var v := LiteralValue(l);
      forall i, u | 0 <= i < |l.items| ensures Writes(l.items[i], u) <==> u == v.items[i] { LiteralWrites(l.items[i], u); }
      if Writes(l, w) {
        forall i | 0 <= i < |l.items| ensures w.items[i] == v.items[i] { assert Writes(l.items[i], w.items[i]); }
        assert w.items == v.items;
      }
    }
  }

  lemma IdentityDescends(x: Inputs, segments: seq<Segment>)
    ensures Descend(if IDENTITY in x.candidate then Known(x.candidate[IDENTITY]) else Absent, segments)
         == Descend(Known(Obj(x.candidate)), [Member(IDENTITY)] + segments)
  {
    var all := [Member(IDENTITY)] + segments;
    assert all[0] == Member(IDENTITY) && all[1..] == segments;
  }

  /** Resolving finds exactly what the operand stands for. */
  lemma ResolveDenotes(x: Inputs, o: Operand)
    requires WellFormedOperand(o)
    ensures Resolve(x, o) == Unknown <==> Unavailable(x, o)
    ensures forall w :: Resolve(x, o) == Known(w) <==> Denotes(x, o, w)
  {
    if o.LiteralOperand? {
      forall w ensures Resolve(x, o) == Known(w) <==> Denotes(x, o, w) { LiteralWrites(o.literal, w); }
    } else {
      var p := o.path;
      IdentityDescends(x, p.segments);
      hide Descend, Leads;
      forall w ensures Resolve(x, o) == Known(w) <==> Denotes(x, o, w) {
        if p.root == EVIDENCE {
          if !Unavailable(x, o) { DescendLeads(x.items[p.segments[0].name].value.value, p.segments[1..], w); }
        } else if p.root == IDENTITY {
          DescendLeads(Obj(x.candidate), [Member(IDENTITY)] + p.segments, w);
        } else {
          DescendLeads(Obj(x.candidate), p.segments, w);
        }
      }
      ResolveSettles(x, p);
    }
  }

  lemma ResolveSettles(x: Inputs, p: Path)
    requires WellFormedPath(p)
    ensures ResolvePath(x, p) == Unknown <==> Unavailable(x, PathOperand(p))
  {
    if p.root == EVIDENCE {
      if !Unavailable(x, PathOperand(p)) { DescentSettles(Known(x.items[p.segments[0].name].value.value), p.segments[1..]); }
    } else if p.root == IDENTITY {
      DescentSettles(if IDENTITY in x.candidate then Known(x.candidate[IDENTITY]) else Absent, p.segments);
    } else {
      DescentSettles(Known(Obj(x.candidate)), p.segments);
    }
  }

  // --- when two values are the same --------------------------------------------------------------------

  /** The value with every boolean as the integer the host counts it as. */
  ghost function Counted(v: Value): Value
  {
    match v
    case Bool(b) => Int(if b then 1 else 0)
    case Arr(items) => Arr(seq(|items|, i requires 0 <= i < |items| => Counted(items[i])))
    case Obj(members) => Obj(map k | k in members :: Counted(members[k]))
    case _ => v
  }

  /** The same done inside objects only: what equality looks at. */
  ghost function Compared(v: Value): Value
  {
    match v
    case Arr(items) => Arr(seq(|items|, i requires 0 <= i < |items| => Compared(items[i])))
    case Obj(members) => Counted(v)
    case _ => v
  }

  lemma {:induction false} HostEqualCounts(a: Value, b: Value)
    ensures HostEqual(a, b) <==> Counted(a) == Counted(b)
    decreases a
  {
    if a.Arr? && b.Arr? {
      var x, y := Counted(a).items, Counted(b).items;
      forall i | 0 <= i < |a.items| && i < |b.items| ensures HostEqual(a.items[i], b.items[i]) <==> x[i] == y[i] {
        HostEqualCounts(a.items[i], b.items[i]);
      }
      if HostEqual(a, b) { assert x == y; }
    } else if a.Obj? && b.Obj? {
      var x, y := Counted(a).members, Counted(b).members;
      assert x.Keys == a.members.Keys && y.Keys == b.members.Keys;
      forall k | k in a.members && k in b.members ensures HostEqual(a.members[k], b.members[k]) <==> x[k] == y[k] {
        HostEqualCounts(a.members[k], b.members[k]);
      }
      if HostEqual(a, b) { assert x == y; }
    }
  }

  /** Two values are equal exactly when they are one value once the booleans inside their objects are counted. */
  lemma {:induction false} EqualityCompares(a: Value, b: Value)
    ensures EqualValues(a, b) <==> Compared(a) == Compared(b)
    decreases a
  {
    if a.Arr? && b.Arr? {
      var x, y := Compared(a).items, Compared(b).items;
      forall i | 0 <= i < |a.items| && i < |b.items| ensures EqualValues(a.items[i], b.items[i]) <==> x[i] == y[i] {
        EqualityCompares(a.items[i], b.items[i]);
      }
      if EqualValues(a, b) { assert x == y; }
    } else if a.Obj? && b.Obj? {
      HostEqualCounts(a, b);
    }
  }

  // --- leaves ------------------------------------------------------------------------------------------

  /** The operands stand for the same value, or both for none. */
  ghost predicate SameStanding(x: Inputs, left: Operand, right: Operand)
    requires WellFormedOperand(left) && WellFormedOperand(right)
  {
    || (exists a, b :: Denotes(x, left, a) && Denotes(x, right, b) && Compared(a) == Compared(b))
    || (forall w :: !Denotes(x, left, w) && !Denotes(x, right, w))
  }

  /** One number less another, both scaled by one power of ten. */
  ghost function Difference(a: Value, b: Value): int
    requires Decimals.IsNumber(a) && Decimals.IsNumber(b)
  {
    var k := Decimals.Scale(a) + Decimals.Scale(b);
    Decimals.Scaled(a, k) - Decimals.Scaled(b, k)
  }

  /** The operands stand for numbers that differ by `d`. */
  ghost predicate Differ(x: Inputs, left: Operand, right: Operand, d: int)
    requires WellFormedOperand(left) && WellFormedOperand(right)
  {
    exists a, b ::
      && Denotes(x, left, a) && Denotes(x, right, b)
      && Decimals.IsNumber(a) && Decimals.IsNumber(b) && d == Difference(a, b)
  }

  /** What a comparison says of operands that settle. */
  ghost predicate Compares(x: Inputs, op: Operator, left: Operand, right: Operand)
    requires WellFormedOperand(left) && WellFormedOperand(right)
  {
    match op
    case Eq => SameStanding(x, left, right)
    case Ne => !SameStanding(x, left, right)
    case Lt => exists d :: Differ(x, left, right, d) && d < 0
    case Le => exists d :: Differ(x, left, right, d) && d <= 0
    case Gt => exists d :: Differ(x, left, right, d) && d > 0
    case Ge => exists d :: Differ(x, left, right, d) && d >= 0
  }

  /** An item of the list writes the value the operand stands for. */
  ghost predicate Listed(x: Inputs, item: Operand, list: seq<Literal>)
    requires WellFormedOperand(item)
  {
    exists w, i :: Denotes(x, item, w) && 0 <= i < |list| && Writes(list[i], w)
  }

  ghost predicate Fitting(x: Inputs, path: Path, pattern: Text)
    requires WellFormedPath(path)
  {
    exists w :: Denotes(x, PathOperand(path), w) && w.Str? && Glob.Matches(pattern, 0, w.text, 0)
  }

  /** The item is there and ok, and no older at the freeze than its declaration allows, to the nanosecond. */
  ghost predicate Young(x: Inputs, id: Text)
  {
    && id in x.items && x.items[id].ok
    && (id in x.declarations && x.declarations[id].Some? ==>
          x.frozenAt <= x.items[id].acquired + 1000000000 * x.declarations[id].value)
  }

  /** Boolean reading of a tree whose leaves all settle. */
  ghost predicate Holds(x: Inputs, e: Expr)
    requires WellFormed(e)
    decreases e
  {
    match e
    case Or(operands) => exists i :: 0 <= i < |operands| && Holds(x, operands[i])
    case And(operands) => forall i :: 0 <= i < |operands| ==> Holds(x, operands[i])
    case Not(operand) => !Holds(x, operand)
    case Present(id) => id in x.items && x.items[id].ok
    case Fresh(id) => Young(x, id)
    case Matches(path, pattern) => Fitting(x, path, pattern)
    case Membership(negated, item, list) => if negated then !Listed(x, item, list) else Listed(x, item, list)
    case Compare(op, left, right) => Compares(x, op, left, right)
  }

  /** The cause an operand gives, if its evidence is not there. */
  ghost function Missing(x: Inputs, o: Operand): seq<Cause>
    requires WellFormedOperand(o)
  {
    if Unavailable(x, o) then [EvidenceUnsettled(o.path.segments[0].name)] else []
  }

  /** Everything a tree leaves unsettled, from left to right: evidence that is not there, an order between what
      are not two numbers, a pattern over what is there and no text. */
  ghost function Doubts(x: Inputs, e: Expr): seq<Cause>
    requires WellFormed(e)
    decreases e, 0
  {
    match e
    case Or(operands) => DoubtsUpTo(x, e, |operands|)
    case And(operands) => DoubtsUpTo(x, e, |operands|)
    case Not(operand) => Doubts(x, operand)
    case Matches(path, pattern) =>
      Missing(x, PathOperand(path))
      + if exists w :: Denotes(x, PathOperand(path), w) && !w.Str? then [OperandUnsettled] else []
    case Membership(negated, item, list) => Missing(x, item)
    case Compare(op, left, right) =>
      Missing(x, left) + Missing(x, right)
      + if op in {Lt, Le, Gt, Ge} && !Unavailable(x, left) && !Unavailable(x, right)
          && !exists d :: Differ(x, left, right, d)
        then [OperandUnsettled] else []
    case _ => []
  }

  ghost function DoubtsUpTo(x: Inputs, e: Expr, n: nat): seq<Cause>
    requires (e.Or? || e.And?) && WellFormed(e) && n <= |e.operands|
    decreases e, 0, n
  {
    if n == 0 then [] else DoubtsUpTo(x, e, n - 1) + Doubts(x, e.operands[n - 1])
  }

  /** Causes noted one after another, none twice. */
  ghost function Noted(causes: seq<Cause>, more: seq<Cause>): seq<Cause>
  {
    if more == [] then causes
    else
      var before := Noted(causes, more[..|more| - 1]);
      if more[|more| - 1] in before then before else before + [more[|more| - 1]]
  }

  lemma {:induction false} NotedConcat(causes: seq<Cause>, a: seq<Cause>, b: seq<Cause>)
    ensures Noted(causes, a + b) == Noted(Noted(causes, a), b)
    decreases |b|
  {
    if b == [] {
      assert a + b == a;
    } else {
      assert (a + b)[..|a + b| - 1] == a + b[..|b| - 1];
      NotedConcat(causes, a, b[..|b| - 1]);
    }
  }

  lemma NotedOne(causes: seq<Cause>, c: Cause)
    ensures Noted(causes, [c]) == Note(causes, c)
  {
    assert [c][..0] == [];
  }

  lemma OperandDoubts(x: Inputs, o: Operand, causes: seq<Cause>)
    requires WellFormedOperand(o)
    ensures NoteOperand(x, o, causes) == Noted(causes, Missing(x, o))
  {
    ResolveDenotes(x, o);
    if Unavailable(x, o) { NotedOne(causes, EvidenceUnsettled(o.path.segments[0].name)); }
    hide Resolve, Denotes;
  }

  lemma DifferIs(x: Inputs, left: Operand, right: Operand, a: Value, b: Value, d: int)
    requires WellFormedOperand(left) && WellFormedOperand(right)
    requires forall w :: Denotes(x, left, w) <==> w == a
    requires forall w :: Denotes(x, right, w) <==> w == b
    ensures Differ(x, left, right, d) <==> Decimals.IsNumber(a) && Decimals.IsNumber(b) && d == Difference(a, b)
  {
    hide Denotes, WellFormedOperand, Decimals.IsNumber, Difference;
    assert Denotes(x, left, a) && Denotes(x, right, b);
  }

  lemma OrderOf(a: Value, b: Value)
    ensures Decimals.CompareNumeric(a, b).Some? <==> Decimals.IsNumber(a) && Decimals.IsNumber(b)
    ensures Decimals.IsNumber(a) && Decimals.IsNumber(b) ==>
              Decimals.CompareNumeric(a, b).value == Decimals.Sign(Difference(a, b))
  {
    hide Decimals.IsNumber, Decimals.Scaled, Decimals.Scale, Decimals.CompareNumeric;
    Decimals.ComparisonIsRationalOrder(a, b, Decimals.Scale(a) + Decimals.Scale(b));
  }

  lemma DifferOnly(x: Inputs, left: Operand, right: Operand, a: Value, b: Value)
    requires WellFormedOperand(left) && WellFormedOperand(right)
    requires forall w :: Denotes(x, left, w) <==> w == a
    requires forall w :: Denotes(x, right, w) <==> w == b
    ensures (exists d :: Differ(x, left, right, d)) <==> Decimals.CompareNumeric(a, b).Some?
    ensures forall d :: Differ(x, left, right, d) ==>
              Decimals.CompareNumeric(a, b).Some? && Decimals.CompareNumeric(a, b).value == Decimals.Sign(d)
  {
    hide Differ, Denotes, WellFormedOperand, Decimals.IsNumber, Difference, Decimals.CompareNumeric;
    OrderOf(a, b);
    if Decimals.IsNumber(a) && Decimals.IsNumber(b) { DifferIs(x, left, right, a, b, Difference(a, b)); }
    forall d | Differ(x, left, right, d)
      ensures Decimals.CompareNumeric(a, b).Some? && Decimals.CompareNumeric(a, b).value == Decimals.Sign(d)
    {
      DifferIs(x, left, right, a, b, d);
    }
  }

  lemma NoDifference(x: Inputs, left: Operand, right: Operand)
    requires WellFormedOperand(left) && WellFormedOperand(right)
    requires !Resolve(x, left).Known? || !Resolve(x, right).Known?
    ensures forall d :: !Differ(x, left, right, d)
  {
    ResolveDenotes(x, left);
    ResolveDenotes(x, right);
    hide Resolve, Denotes;
  }

  lemma OrderMeans(x: Inputs, e: Expr, causes: seq<Cause>)
    requires e.Compare? && IsOrdering(e.op) && WellFormed(e)
    requires !Unavailable(x, e.left) && !Unavailable(x, e.right)
    ensures var order := Order(Resolve(x, e.left), Resolve(x, e.right));
            && (order.None? <==> !exists d :: Differ(x, e.left, e.right, d))
            && (order.Some? ==> (Ordered(e.op, order.value) <==> Compares(x, e.op, e.left, e.right)))
  {
    hide Denotes, Resolve, Differ, Decimals.CompareNumeric, Unavailable;
    var a, b := Resolve(x, e.left), Resolve(x, e.right);
    ResolveDenotes(x, e.left);
    ResolveDenotes(x, e.right);
    if a.Known? && b.Known? { DifferOnly(x, e.left, e.right, a.value, b.value); } else { NoDifference(x, e.left, e.right); }
  }

  lemma EqualMeans(x: Inputs, left: Operand, right: Operand)
    requires WellFormedOperand(left) && WellFormedOperand(right)
    requires !Unavailable(x, left) && !Unavailable(x, right)
    ensures Equal(Resolve(x, left), Resolve(x, right)) <==> SameStanding(x, left, right)
  {
    ResolveDenotes(x, left);
    ResolveDenotes(x, right);
    var a, b := Resolve(x, left), Resolve(x, right);
    if a.Known? && b.Known? { EqualityCompares(a.value, b.value); }
    hide Resolve, Denotes, EqualValues, Compared;
  }

  lemma ListedMeans(x: Inputs, item: Operand, list: seq<Literal>)
    requires WellFormedOperand(item) && !Unavailable(x, item)
    ensures InList(Resolve(x, item), list) <==> Listed(x, item, list)
  {
    ResolveDenotes(x, item);
    var v := Resolve(x, item);
    hide Resolve, Denotes, EqualValues;
    forall i | 0 <= i < |list| && v.Known? ensures Equal(v, Known(LiteralValue(list[i]))) <==> Writes(list[i], v.value) {
      EqualSymmetric(v.value, LiteralValue(list[i]));
      LiteralEqualityExact(list[i], v.value);
      LiteralWrites(list[i], v.value);
      hide Writes, LiteralValue;
    }
    hide Writes;
  }

  lemma EqualSymmetric(a: Value, b: Value)
    ensures EqualValues(a, b) <==> EqualValues(b, a)
  {
    EqualityCompares(a, b);
    EqualityCompares(b, a);
    hide EqualValues, Compared;
  }

  // --- the evaluator agrees ----------------------------------------------------------------------------

  /** What evaluating should have given: unsettled when there is a doubt, else the tree's truth; and the doubts
      noted in order. */
  ghost predicate Agrees(x: Inputs, e: Expr, causes: seq<Cause>, result: (State, seq<Cause>))
    requires WellFormed(e)
  {
    && result.0 == (if Doubts(x, e) != [] then Unsettled else Truth(Holds(x, e)))
    && result.1 == Noted(causes, Doubts(x, e))
  }

  lemma CompareMeans(x: Inputs, e: Expr, causes: seq<Cause>)
    requires e.Compare? && WellFormed(e)
    ensures Agrees(x, e, causes, Eval(x, e, causes))
  {
    var (left, right) := (e.left, e.right);
    ResolveDenotes(x, left);
    ResolveDenotes(x, right);
    OperandDoubts(x, left, causes);
    OperandDoubts(x, right, Noted(causes, Missing(x, left)));
    NotedConcat(causes, Missing(x, left), Missing(x, right));
    var after := Noted(causes, Missing(x, left) + Missing(x, right));
    NotedConcat(causes, Missing(x, left) + Missing(x, right), [OperandUnsettled]);
    NotedOne(after, OperandUnsettled);
    assert Missing(x, left) + Missing(x, right) + [] == Missing(x, left) + Missing(x, right);
    if !Unavailable(x, left) && !Unavailable(x, right) {
      if IsOrdering(e.op) { OrderMeans(x, e, causes); } else { EqualMeans(x, left, right); }
    }
    hide Resolve, Denotes, Differ, SameStanding, Noted, Note, NoteOperand, Order, Ordered, Equal, Compares, Unavailable;
  }

  lemma MembershipMeans(x: Inputs, e: Expr, causes: seq<Cause>)
    requires e.Membership? && WellFormed(e)
    ensures Agrees(x, e, causes, Eval(x, e, causes))
  {
    ResolveDenotes(x, e.item);
    OperandDoubts(x, e.item, causes);
    if !Unavailable(x, e.item) { ListedMeans(x, e.item, e.list); }
    hide Resolve, Denotes, Listed, InList, NoteOperand, Unavailable;
  }

  lemma MatchesMeans(x: Inputs, e: Expr, causes: seq<Cause>)
    requires e.Matches? && WellFormed(e)
    ensures Agrees(x, e, causes, Eval(x, e, causes))
  {
    var o := PathOperand(e.path);
    ResolveDenotes(x, o);
    OperandDoubts(x, o, causes);
    NotedOne(causes, OperandUnsettled);
    assert [] + [OperandUnsettled] == [OperandUnsettled];
    assert Missing(x, o) + [] == Missing(x, o);
    assert Resolve(x, o) == ResolvePath(x, e.path);
    hide Resolve, ResolvePath, Denotes, NoteOperand, Unavailable, Glob.Matches;
  }

  /** The evaluator gives every tree of the grammar its meaning: unsettled exactly when it leaves something in
      doubt, true exactly when it holds otherwise, and the doubts noted from left to right, each once. */
  lemma {:induction false} EvaluationMeans(x: Inputs, e: Expr, causes: seq<Cause>)
    requires WellFormed(e)
    ensures Agrees(x, e, causes, Eval(x, e, causes))
    decreases e, 0
  {
    match e {
      case Or(operands) => OperandsMean(x, e, |operands|, causes);
      case And(operands) => OperandsMean(x, e, |operands|, causes);
      case Not(operand) => EvaluationMeans(x, operand, causes);
      case Compare(_, _, _) => CompareMeans(x, e, causes);
      case Membership(_, _, _) => MembershipMeans(x, e, causes);
      case Matches(_, _) => MatchesMeans(x, e, causes);
      case Present(_) =>
      case Fresh(_) =>
    }
  }

  lemma {:induction false} OperandsMean(x: Inputs, e: Expr, n: nat, causes: seq<Cause>)
    requires (e.Or? || e.And?) && WellFormed(e) && n <= |e.operands|
    ensures var (states, after) := EvalUpTo(x, e, n, causes);
            && after == Noted(causes, DoubtsUpTo(x, e, n))
            && (Unsettled in states <==> DoubtsUpTo(x, e, n) != [])
            && (Unsettled !in states ==> forall i :: 0 <= i < n ==> states[i] == Truth(Holds(x, e.operands[i])))
    decreases e, 0, n
  {
    if n == 0 {
      hide Eval, Holds, Doubts;
    } else {
      hide Eval, Holds, Doubts, Noted;
      OperandsMean(x, e, n - 1, causes);
      var (states, before) := EvalUpTo(x, e, n - 1, causes);
      var (s, after) := Eval(x, e.operands[n - 1], before);
      EvaluationMeans(x, e.operands[n - 1], before);
      NotedConcat(causes, DoubtsUpTo(x, e, n - 1), Doubts(x, e.operands[n - 1]));
      assert EvalUpTo(x, e, n, causes) == (states + [s], after);
      assert DoubtsUpTo(x, e, n) == DoubtsUpTo(x, e, n - 1) + Doubts(x, e.operands[n - 1]);
      hide EvalUpTo, DoubtsUpTo;
    }
  }

  /** So a settled state is the truth of the tree. */
  lemma SettledIsClassical(x: Inputs, e: Expr, causes: seq<Cause>)
    requires WellFormed(e) && Eval(x, e, causes).0 != Unsettled
    ensures Eval(x, e, causes).0 == Truth(Holds(x, e))
  {
    EvaluationMeans(x, e, causes);
    hide Eval, Holds, Doubts, Noted;
  }

  // --- rules -------------------------------------------------------------------------------------------

  /** The first of the required items that is missing or not ok. */
  ghost predicate FirstNeed(x: Inputs, needs: seq<Text>, i: int)
  {
    && 0 <= i < |needs| && !(needs[i] in x.items && x.items[needs[i]].ok)
    && forall j :: 0 <= j < i ==> needs[j] in x.items && x.items[needs[j]].ok
  }

  /** What a rule leaves in doubt: the first item it requires and does not have, and if it has them all,
      what its tree does. */
  ghost predicate RuleDoubts(x: Inputs, r: Rule, causes: seq<Cause>)
    requires WellFormed(r.tree)
  {
    if exists i :: FirstNeed(x, r.needs, i)
    then exists i :: FirstNeed(x, r.needs, i) && causes == [EvidenceUnsettled(r.needs[i])]
    else causes == Noted([], Doubts(x, r.tree))
  }

  /** The rule is settled, and true or false as said. */
  ghost predicate RuleSays(x: Inputs, r: Rule, truth: bool)
    requires WellFormed(r.tree)
  {
    (forall i :: 0 <= i < |r.needs| ==> r.needs[i] in x.items && x.items[r.needs[i]].ok)
    && Doubts(x, r.tree) == [] && Holds(x, r.tree) == truth
  }

  lemma {:induction false} FirstMissingIs(x: Inputs, ids: seq<Text>)
    ensures FirstMissing(x, ids).Some? ==> exists i :: FirstNeed(x, ids, i) && ids[i] == FirstMissing(x, ids).value
    ensures FirstMissing(x, ids).None? ==> forall i :: !FirstNeed(x, ids, i)
    ensures forall i, j :: FirstNeed(x, ids, i) && FirstNeed(x, ids, j) ==> i == j
  {
    if ids != [] && ItemOk(x, ids[0]) {
      FirstMissingIs(x, ids[1..]);
      if FirstMissing(x, ids).Some? {
        var i :| FirstNeed(x, ids[1..], i) && ids[1..][i] == FirstMissing(x, ids[1..]).value;
        assert FirstNeed(x, ids, i + 1) by {
          forall j | 0 <= j < i + 1 ensures ItemOk(x, ids[j]) { if j > 0 { assert ItemOk(x, ids[1..][j - 1]); } }
        }
      }
    } else if ids != [] {
      assert FirstNeed(x, ids, 0);
    }
  }

  lemma RuleMeans(x: Inputs, r: Rule)
    requires WellFormed(r.tree)
    ensures var (s, causes) := RuleState(x, r);
            && (s == Yes <==> RuleSays(x, r, true)) && (s == No <==> RuleSays(x, r, false))
            && (s == Unsettled ==> RuleDoubts(x, r, causes) && causes != [])
  {
    FirstMissingIs(x, r.needs);
    EvaluationMeans(x, r.tree, []);
    NotedNonempty(Doubts(x, r.tree));
    hide Eval, Holds, Doubts, Noted;
  }

  lemma {:induction false} NotedNonempty(more: seq<Cause>)
    ensures Noted([], more) == [] <==> more == []
  {
    if more != [] {
      NotedNonempty(more[..|more| - 1]);
    }
  }

  /** What the walk decides, rule by rule: the first rule that is not settled and false ends it, with its outcome
      if it is true, and on hold with its doubts if it is not settled; past them all stands the default. */
  ghost predicate Decided(x: Inputs, rules: seq<Rule>, from: nat, default: Outcome, v: Verdict)
    requires AllWellFormed(rules)
  {
    match v
    case Matched(k, o) =>
      && from <= k < |rules| && RuleSays(x, rules[k], true) && o == rules[k].outcome
      && forall j :: from <= j < k ==> RuleSays(x, rules[j], false)
    case Held(k, causes) =>
      && from <= k < |rules| && !RuleSays(x, rules[k], true) && !RuleSays(x, rules[k], false)
      && RuleDoubts(x, rules[k], causes)
      && forall j :: from <= j < k ==> RuleSays(x, rules[j], false)
    case Default(o) => o == default && forall j :: from <= j < |rules| ==> RuleSays(x, rules[j], false)
  }

  /** The walk's verdict is the one its rules make, and its outcome is that of the rule that decided, a hold, or
      the default. */
  lemma {:induction false} WalkMeans(x: Inputs, rules: seq<Rule>, from: nat, default: Outcome)
    requires AllWellFormed(rules) && from <= |rules|
    ensures var v := Decide(x, rules, from, default);
            && Decided(x, rules, from, default, v)
            && OutcomeOf(v) == (if v.Matched? then rules[v.rule].outcome else if v.Held? then Hold else default)
    decreases |rules| - from
  {
    hide RuleState, RuleSays, RuleDoubts;
    if from < |rules| {
      RuleMeans(x, rules[from]);
      WalkMeans(x, rules, from + 1, default);
    }
  }

  /** There is one such verdict. */
  lemma DecidedOnce(x: Inputs, rules: seq<Rule>, default: Outcome, v: Verdict, w: Verdict)
    requires AllWellFormed(rules) && Decided(x, rules, 0, default, v) && Decided(x, rules, 0, default, w)
    ensures v == w
  {
    if v.Held? && w.Held? {
      assert v.at == w.at;
      FirstMissingIs(x, rules[v.at].needs);
    }
    hide Holds, Doubts, Noted;
  }
}
