/** A parsed expression as the source keeps it: canonical text of its tree and the evidence ids it
    names (`parse_expression`, `_collect_evidence_ids`, `validate_expression` of vfy/expr.py). */
module Expressions {
  import opened Wrappers
  import opened Text
  import opened Values
  import opened Canon
  import opened DepthScan
  import opened Syntax
  import Load
  import Printer

  const K_TYPE: Text := [0x74, 0x79, 0x70, 0x65]  // type
  const K_OPERANDS: Text := [0x6F, 0x70, 0x65, 0x72, 0x61, 0x6E, 0x64, 0x73]  // operands
  const K_OPERAND: Text := [0x6F, 0x70, 0x65, 0x72, 0x61, 0x6E, 0x64]  // operand
  const K_OPERATOR: Text := [0x6F, 0x70, 0x65, 0x72, 0x61, 0x74, 0x6F, 0x72]  // operator
  const K_LEFT: Text := [0x6C, 0x65, 0x66, 0x74]  // left
  const K_RIGHT: Text := [0x72, 0x69, 0x67, 0x68, 0x74]  // right
  const K_LIST: Text := [0x6C, 0x69, 0x73, 0x74]  // list
  const K_EVIDENCE_ID: Text := [0x65, 0x76, 0x69, 0x64, 0x65, 0x6E, 0x63, 0x65, 0x5F, 0x69, 0x64]  // evidence_id
  const K_PATH: Text := [0x70, 0x61, 0x74, 0x68]  // path
  const K_PATTERN: Text := [0x70, 0x61, 0x74, 0x74, 0x65, 0x72, 0x6E]  // pattern
  const K_ROOT: Text := [0x72, 0x6F, 0x6F, 0x74]  // root
  const K_SEGMENTS: Text := [0x73, 0x65, 0x67, 0x6D, 0x65, 0x6E, 0x74, 0x73]  // segments
  const K_MEMBER: Text := [0x6D, 0x65, 0x6D, 0x62, 0x65, 0x72]  // member
  const K_INDEX: Text := [0x69, 0x6E, 0x64, 0x65, 0x78]  // index
  const K_VALUE: Text := [0x76, 0x61, 0x6C, 0x75, 0x65]  // value

  const COMPARE: Text := [0x63, 0x6F, 0x6D, 0x70, 0x61, 0x72, 0x65]  // compare
  const MEMBERSHIP: Text := [0x6D, 0x65, 0x6D, 0x62, 0x65, 0x72, 0x73, 0x68, 0x69, 0x70]  // membership
  const LITERAL: Text := [0x6C, 0x69, 0x74, 0x65, 0x72, 0x61, 0x6C]  // literal
  const PATH: Text := K_PATH
  const NOT_IN: Text := [0x6E, 0x6F, 0x74, 0x20, 0x69, 0x6E]  // not in

  // --- the tree as a value ---------------------------------------------------------------------------

  function LiteralValue(l: Literal): Value
  {
    match l
    case LBool(b) => Bool(b)
    case LInt(n) => Int(n)
    case LStr(s) => Str(s)
    case LList(items) => Arr(seq(|items|, i requires 0 <= i < |items| => LiteralValue(items[i])))
  }

  function SegmentValue(s: Segment): Value
  {
    match s
    case Member(name) => Obj(map[K_MEMBER := Str(name)])
    case Index(n) => Obj(map[K_INDEX := Int(n)])
  }

  function PathValue(p: Path): Value
  {
    Obj(map[K_TYPE := Str(PATH), K_ROOT := Str(p.root),
            K_SEGMENTS := Arr(seq(|p.segments|, i requires 0 <= i < |p.segments| => SegmentValue(p.segments[i])))])
  }

  function OperandValue(o: Operand): Value
  {
    match o
    case PathOperand(p) => PathValue(p)
    case LiteralOperand(l) => Obj(map[K_TYPE := Str(LITERAL), K_VALUE := LiteralValue(l)])
  }

  function TreeValue(e: Expr): Value
  {
    match e
    case Or(operands) =>
      Obj(map[K_TYPE := Str(OR),
              K_OPERANDS := Arr(seq(|operands|, i requires 0 <= i < |operands| => TreeValue(operands[i])))])
    case And(operands) =>
      Obj(map[K_TYPE := Str(AND),
              K_OPERANDS := Arr(seq(|operands|, i requires 0 <= i < |operands| => TreeValue(operands[i])))])
    case Not(operand) => Obj(map[K_TYPE := Str(NOT), K_OPERAND := TreeValue(operand)])
    case Compare(op, left, right) =>
      Obj(map[K_TYPE := Str(COMPARE), K_OPERATOR := Str(Printer.PrintOperator(op)),
              K_LEFT := OperandValue(left), K_RIGHT := OperandValue(right)])
    case Membership(negated, item, list) =>
      Obj(map[K_TYPE := Str(MEMBERSHIP), K_OPERATOR := Str(if negated then NOT_IN else IN),
              K_OPERAND := OperandValue(item), K_LIST := OperandValue(LiteralOperand(LList(list)))])
    case Fresh(id) => Obj(map[K_TYPE := Str(FRESH), K_EVIDENCE_ID := Str(id)])
    case Present(id) => Obj(map[K_TYPE := Str(PRESENT), K_EVIDENCE_ID := Str(id)])
    case Matches(path, pattern) =>
      Obj(map[K_TYPE := Str(MATCHES), K_PATH := PathValue(path), K_PATTERN := Str(pattern)])
  }

  lemma {:induction false} LiteralValueInjective(a: Literal, b: Literal)
    requires LiteralValue(a) == LiteralValue(b)
    ensures a == b
    decreases a
  {
    if a.LList? {
      var x, y := LiteralValue(a).items, LiteralValue(b).items;
      assert |a.items| == |x| == |b.items|;
      forall i | 0 <= i < |a.items| ensures a.items[i] == b.items[i] {
        assert x[i] == y[i];
        LiteralValueInjective(a.items[i], b.items[i]);
      }
      assert a.items == b.items;
    }
  }

  lemma PathValueInjective(a: Path, b: Path)
    requires PathValue(a) == PathValue(b)
    ensures a == b
  {
    var m, n := PathValue(a).members, PathValue(b).members;
    assert m[K_ROOT] == n[K_ROOT] && m[K_SEGMENTS] == n[K_SEGMENTS];
    var x, y := m[K_SEGMENTS].items, n[K_SEGMENTS].items;
    forall i | 0 <= i < |a.segments| ensures a.segments[i] == b.segments[i] {
      assert x[i] == y[i];
      SegmentValueInjective(a.segments[i], b.segments[i]);
    }
    assert a.segments == b.segments;
  }

  lemma SegmentValueInjective(a: Segment, b: Segment)
    requires SegmentValue(a) == SegmentValue(b)
    ensures a == b
  {
    var m, n := SegmentValue(a).members, SegmentValue(b).members;
    assert K_MEMBER in m <==> K_MEMBER in n;
    if a.Member? { assert m[K_MEMBER] == n[K_MEMBER]; } else { assert m[K_INDEX] == n[K_INDEX]; }
  }

  lemma OperandValueInjective(a: Operand, b: Operand)
    requires OperandValue(a) == OperandValue(b)
    ensures a == b
  {
    var m, n := OperandValue(a).members, OperandValue(b).members;
    assert m[K_TYPE] == n[K_TYPE];
    if a.PathOperand? {
      PathValueInjective(a.path, b.path);
    } else {
      assert m[K_VALUE] == n[K_VALUE];
      LiteralValueInjective(a.literal, b.literal);
    }
  }

  lemma OperatorTextInjective(a: Operator, b: Operator)
    requires Printer.PrintOperator(a) == Printer.PrintOperator(b)
    ensures a == b
  {
    assert Printer.PrintOperator(a)[0] == Printer.PrintOperator(b)[0];
  }

  lemma KindsDiffer(a: Expr, b: Expr)
    requires TreeValue(a) == TreeValue(b)
    ensures (a.Or? <==> b.Or?) && (a.And? <==> b.And?) && (a.Not? <==> b.Not?) && (a.Compare? <==> b.Compare?)
    ensures (a.Membership? <==> b.Membership?) && (a.Fresh? <==> b.Fresh?) && (a.Present? <==> b.Present?)
  {
    KindText(a);
    KindText(b);
    assert TreeValue(a).members[K_TYPE] == TreeValue(b).members[K_TYPE];
    hide TreeValue;
  }

  lemma KindText(a: Expr)
    ensures TreeValue(a).Obj? && K_TYPE in TreeValue(a).members
    ensures TreeValue(a).members[K_TYPE] == Str(
      if a.Or? then OR else if a.And? then AND else if a.Not? then NOT else if a.Compare? then COMPARE
      else if a.Membership? then MEMBERSHIP else if a.Fresh? then FRESH else if a.Present? then PRESENT else MATCHES)
  {
  }

  /** Distinct trees have distinct values, so the canonical text of a parsed expression determines
      its tree. */
  lemma {:induction false} TreeValueInjective(a: Expr, b: Expr)
    requires TreeValue(a) == TreeValue(b)
    ensures a == b
    decreases a
  {
    KindsDiffer(a, b);
    var m, n := TreeValue(a).members, TreeValue(b).members;
    match a {
      case Or(operands) =>
        assert m[K_OPERANDS] == n[K_OPERANDS];
        OperandsInjective(a, b);
      case And(operands) =>
        assert m[K_OPERANDS] == n[K_OPERANDS];
        OperandsInjective(a, b);
      case Not(operand) =>
        assert m[K_OPERAND] == n[K_OPERAND];
        TreeValueInjective(operand, b.operand);
      case Compare(op, left, right) =>
        assert m[K_OPERATOR] == n[K_OPERATOR] && m[K_LEFT] == n[K_LEFT] && m[K_RIGHT] == n[K_RIGHT];
        OperatorTextInjective(op, b.op);
        OperandValueInjective(left, b.left);
        OperandValueInjective(right, b.right);
      case Membership(negated, item, list) =>
        assert m[K_OPERATOR] == n[K_OPERATOR] && m[K_OPERAND] == n[K_OPERAND] && m[K_LIST] == n[K_LIST];
        OperandValueInjective(item, b.item);
        OperandValueInjective(LiteralOperand(LList(list)), LiteralOperand(LList(b.list)));
      case Fresh(id) => assert m[K_EVIDENCE_ID] == n[K_EVIDENCE_ID];
      case Present(id) => assert m[K_EVIDENCE_ID] == n[K_EVIDENCE_ID];
      case Matches(path, pattern) =>
        assert m[K_PATH] == n[K_PATH] && m[K_PATTERN] == n[K_PATTERN];
        PathValueInjective(path, b.path);
    }
  }

  lemma {:induction false} OperandsInjective(a: Expr, b: Expr)
    requires (a.Or? && b.Or?) || (a.And? && b.And?)
    requires TreeValue(a).members[K_OPERANDS] == TreeValue(b).members[K_OPERANDS]
    ensures a.operands == b.operands
    decreases a, 0
  {
    var x, y := TreeValue(a).members[K_OPERANDS].items, TreeValue(b).members[K_OPERANDS].items;
    assert |x| == |a.operands| && |y| == |b.operands|;
    forall i | 0 <= i < |a.operands| ensures a.operands[i] == b.operands[i] {
      assert x[i] == TreeValue(a.operands[i]) && y[i] == TreeValue(b.operands[i]);
      TreeValueInjective(a.operands[i], b.operands[i]);
    }
  }

  // --- evidence ids, in source order -----------------------------------------------------------------

  function AppendOnce(out: seq<Text>, id: Text): seq<Text>
  {
    if id in out then out else out + [id]
  }

  function CollectPath(p: Path, out: seq<Text>): seq<Text>
  {
    if p.root == EVIDENCE && p.segments != [] && p.segments[0].Member? then AppendOnce(out, p.segments[0].name) else out
  }

  function CollectOperand(o: Operand, out: seq<Text>): seq<Text>
  {
    if o.PathOperand? then CollectPath(o.path, out) else out
  }

  function Collect(e: Expr, out: seq<Text>): seq<Text>
    decreases e, 0
  {
    match e
    case Or(operands) => CollectUpTo(e, |operands|, out)
    case And(operands) => CollectUpTo(e, |operands|, out)
    case Not(operand) => Collect(operand, out)
    case Compare(op, left, right) => CollectOperand(right, CollectOperand(left, out))
    case Membership(negated, item, list) => CollectOperand(item, out)
    case Fresh(id) => AppendOnce(out, id)
    case Present(id) => AppendOnce(out, id)
    case Matches(path, pattern) => CollectPath(path, out)
  }

  /** The first `n` operands, in order. */
  function CollectUpTo(e: Expr, n: nat, out: seq<Text>): seq<Text>
    requires (e.Or? || e.And?) && n <= |e.operands|
    decreases e, 0, n
  {
    if n == 0 then out else Collect(e.operands[n - 1], CollectUpTo(e, n - 1, out))
  }

  method CollectEvidenceIds(e: Expr, out: seq<Text>) returns (r: seq<Text>)
    ensures r == Collect(e, out)
    decreases e
  {
    match e {
      case Fresh(id) => r := AppendOnce(out, id);
      case Present(id) => r := AppendOnce(out, id);
      case Or(operands) =>
        r := out;
        for i := 0 to |operands|
          invariant r == CollectUpTo(e, i, out)
        {
          r := CollectEvidenceIds(operands[i], r);
        }
      case And(operands) =>
        r := out;
        for i := 0 to |operands|
          invariant r == CollectUpTo(e, i, out)
        {
          r := CollectEvidenceIds(operands[i], r);
        }
      case Not(operand) => r := CollectEvidenceIds(operand, out);
      case Compare(op, left, right) =>
        r := CollectOperand(left, out);
        r := CollectOperand(right, r);
      case Membership(negated, item, list) => r := CollectOperand(item, out);
      case Matches(path, pattern) => r := CollectPath(path, out);
    }
  }

  /** The ids an expression names: in `fresh`, in `present`, and as first member of an `evidence`
      path. */
  predicate PathNames(p: Path, id: Text)
  {
    p.root == EVIDENCE && p.segments != [] && p.segments[0] == Member(id)
  }

  predicate OperandNames(o: Operand, id: Text)
  {
    o.PathOperand? && PathNames(o.path, id)
  }

  predicate Names(e: Expr, id: Text)
    decreases e
  {
    match e
    case Or(operands) => exists i :: 0 <= i < |operands| && Names(operands[i], id)
    case And(operands) => exists i :: 0 <= i < |operands| && Names(operands[i], id)
    case Not(operand) => Names(operand, id)
    case Compare(op, left, right) => OperandNames(left, id) || OperandNames(right, id)
    case Membership(negated, item, list) => OperandNames(item, id)
    case Fresh(x) => x == id
    case Present(x) => x == id
    case Matches(path, pattern) => PathNames(path, id)
  }

  ghost predicate NoRepeats(s: seq<Text>)
  {
    forall i, j :: 0 <= i < j < |s| ==> s[i] != s[j]
  }

  /** Collecting appends each named id once, never moves or drops an earlier one, and adds nothing
      else. */
  lemma {:induction false} CollectExact(e: Expr, out: seq<Text>)
    ensures out <= Collect(e, out)
    ensures NoRepeats(out) ==> NoRepeats(Collect(e, out))
    ensures forall id :: id in Collect(e, out) <==> id in out || Names(e, id)
    decreases e, 0
  {
    match e {
      case Or(operands) => CollectUpToExact(e, |operands|, out);
      case And(operands) => CollectUpToExact(e, |operands|, out);
      case Not(operand) => CollectExact(operand, out);
      case _ =>
    }
  }

  lemma {:induction false} CollectUpToExact(e: Expr, n: nat, out: seq<Text>)
    requires (e.Or? || e.And?) && n <= |e.operands|
    ensures out <= CollectUpTo(e, n, out)
    ensures NoRepeats(out) ==> NoRepeats(CollectUpTo(e, n, out))
    ensures forall id :: id in CollectUpTo(e, n, out) <==> id in out || exists i :: 0 <= i < n && Names(e.operands[i], id)
    decreases e, 0, n
  {
    if n > 0 {
      CollectUpToExact(e, n - 1, out);
      CollectExact(e.operands[n - 1], CollectUpTo(e, n - 1, out));
    }
  }

  // --- which id comes first ---------------------------------------------------------------------------

  ghost function PathMentions(p: Path): seq<Text>
  {
    if p.root == EVIDENCE && p.segments != [] && p.segments[0].Member? then [p.segments[0].name] else []
  }

  ghost function OperandMentions(o: Operand): seq<Text>
  {
    if o.PathOperand? then PathMentions(o.path) else []
  }

  /** Every mention of an id from left to right, the same id as often as it is mentioned. */
  ghost function Mentions(e: Expr): seq<Text>
    decreases e, 0
  {
    match e
    case Or(operands) => MentionsUpTo(e, |operands|)
    case And(operands) => MentionsUpTo(e, |operands|)
    case Not(operand) => Mentions(operand)
    case Compare(_, left, right) => OperandMentions(left) + OperandMentions(right)
    case Membership(_, item, _) => OperandMentions(item)
    case Fresh(id) => [id]
    case Present(id) => [id]
    case Matches(path, _) => PathMentions(path)
  }

  ghost function MentionsUpTo(e: Expr, n: nat): seq<Text>
    requires (e.Or? || e.And?) && n <= |e.operands|
    decreases e, 0, n
  {
    if n == 0 then [] else MentionsUpTo(e, n - 1) + Mentions(e.operands[n - 1])
  }

  /** Each mentioned id once, an id before another when it is mentioned before the other ever is. */
  ghost predicate InOrderOfMention(ids: seq<Text>, mentions: seq<Text>)
  {
    && NoRepeats(ids) && (forall id :: id in ids <==> id in mentions)
    && forall i, j :: 0 <= i < j < |ids| ==> Earlier(mentions, ids[i], ids[j])
  }

  ghost predicate Earlier(mentions: seq<Text>, a: Text, b: Text)
  {
    exists p :: 0 <= p < |mentions| && mentions[p] == a && b !in mentions[..p]
  }

  ghost function AppendAll(out: seq<Text>, mentions: seq<Text>): seq<Text>
  {
    if mentions == [] then out else AppendOnce(AppendAll(out, mentions[..|mentions| - 1]), mentions[|mentions| - 1])
  }

  lemma {:induction false} AppendBoth(out: seq<Text>, a: seq<Text>, b: seq<Text>)
    ensures AppendAll(out, a + b) == AppendAll(AppendAll(out, a), b)
    decreases |b|
  {
    if b == [] {
      assert a + b == a;
    } else {
      assert (a + b)[..|a + b| - 1] == a + b[..|b| - 1];
      AppendBoth(out, a, b[..|b| - 1]);
    }
  }

  lemma AppendOne(out: seq<Text>, id: Text)
    ensures AppendAll(out, [id]) == AppendOnce(out, id) && AppendAll(out, []) == out
  {
    assert [id][..0] == [];
  }

  lemma OperandAppends(o: Operand, out: seq<Text>)
    ensures CollectOperand(o, out) == AppendAll(out, OperandMentions(o))
  {
    if o.PathOperand? && o.path.segments != [] && o.path.segments[0].Member? { AppendOne(out, o.path.segments[0].name); }
  }

  lemma {:induction false} CollectAppends(e: Expr, out: seq<Text>)
    ensures Collect(e, out) == AppendAll(out, Mentions(e))
    decreases e, 0
  {
    match e {
      case Or(operands) => CollectUpToAppends(e, |operands|, out);
      case And(operands) => CollectUpToAppends(e, |operands|, out);
      case Not(operand) => CollectAppends(operand, out);
      case Compare(_, left, right) =>
        OperandAppends(left, out);
        OperandAppends(right, CollectOperand(left, out));
        AppendBoth(out, OperandMentions(left), OperandMentions(right));
      case Membership(_, item, _) => OperandAppends(item, out);
      case Fresh(id) => AppendOne(out, id);
      case Present(id) => AppendOne(out, id);
      case Matches(path, _) => OperandAppends(PathOperand(path), out);
    }
  }

  lemma {:induction false} CollectUpToAppends(e: Expr, n: nat, out: seq<Text>)
    requires (e.Or? || e.And?) && n <= |e.operands|
    ensures CollectUpTo(e, n, out) == AppendAll(out, MentionsUpTo(e, n))
    decreases e, 0, n
  {
    if n > 0 {
      CollectUpToAppends(e, n - 1, out);
      CollectAppends(e.operands[n - 1], CollectUpTo(e, n - 1, out));
      AppendBoth(out, MentionsUpTo(e, n - 1), Mentions(e.operands[n - 1]));
    }
  }

  lemma {:induction false} AppendedInOrder(mentions: seq<Text>)
    ensures InOrderOfMention(AppendAll([], mentions), mentions)
  {
    if mentions != [] {
      var before, last := mentions[..|mentions| - 1], mentions[|mentions| - 1];
      AppendedInOrder(before);
      var ids, now := AppendAll([], before), AppendAll([], mentions);
      hide AppendAll;
      assert mentions == before + [last];
      forall i, j | 0 <= i < j < |now| ensures Earlier(mentions, now[i], now[j]) {
        if j < |ids| { EarlierStill(before, last, ids[i], ids[j]); } else { FirstMention(before, last, ids[i], now[j]); }
      }
    }
  }

  lemma EarlierStill(before: seq<Text>, last: Text, a: Text, b: Text)
    requires Earlier(before, a, b)
    ensures Earlier(before + [last], a, b)
  {
    var p :| 0 <= p < |before| && before[p] == a && b !in before[..p];
    assert (before + [last])[..p] == before[..p];
  }

  lemma FirstMention(before: seq<Text>, last: Text, a: Text, b: Text)
    requires a in before && b !in before
    ensures Earlier(before + [last], a, b)
  {
    var p :| 0 <= p < |before| && before[p] == a;
    assert (before + [last])[..p] == before[..p];
  }

  /** The ids come in the order in which the expression first mentions them, read from left to right. */
  lemma CollectInOrder(e: Expr)
    ensures InOrderOfMention(Collect(e, []), Mentions(e))
  {
    CollectAppends(e, []);
    AppendedInOrder(Mentions(e));
    hide Collect, Mentions, AppendAll;
  }

  /** First collected id that is not declared, if any. */
  method ValidateExpression(ids: seq<Text>, declared: set<Text>) returns (undeclared: Option<Text>)
    ensures undeclared.None? <==> forall i :: 0 <= i < |ids| ==> ids[i] in declared
    ensures undeclared.Some? ==>
              exists k :: 0 <= k < |ids| && ids[k] == undeclared.value && ids[k] !in declared
                          && forall j :: 0 <= j < k ==> ids[j] in declared
  {
    for i := 0 to |ids|
      invariant forall j :: 0 <= j < i ==> ids[j] in declared
    {
      if ids[i] !in declared { return Some(ids[i]); }
    }
    return None;
  }

  // --- parse, render, reload -------------------------------------------------------------------------

  datatype ExprError = Unparsed(failure: Failure) | Unrendered(error: CanonError) | Unloadable(reason: LoadError)

  datatype ParsedExpression = ParsedExpression(source: Text, canonical: Text, evidenceIds: seq<Text>)

  function ParseExpression(source: Text): Result<ParsedExpression, ExprError>
  {
    var tree := ParseSource(source);
    if tree.Err? then Err(Unparsed(tree.error))
    else
      var canonical := Render(TreeValue(tree.value));
      if canonical.Err? then Err(Unrendered(canonical.error))
      else
        var loaded := LoadText(canonical.value);
        if loaded.Err? then Err(Unloadable(loaded.error))
        else Ok(ParsedExpression(source, canonical.value, Collect(tree.value, [])))
  }

  /** An accepted expression is usable: its canonical text reloads as the value of the tree that was
      parsed, and of no other tree; and its ids are those the tree names, each once. */
  lemma AcceptedExpressionReloads(source: Text, other: Expr)
    requires ParseExpression(source).Ok?
    ensures ParseSource(source).Ok?
    ensures var p, tree := ParseExpression(source).value, ParseSource(source).value;
            && LoadText(p.canonical) == Ok(TreeValue(tree))
            && (LoadText(p.canonical) == Ok(TreeValue(other)) ==> other == tree)
            && NoRepeats(p.evidenceIds)
            && forall id :: id in p.evidenceIds <==> Names(tree, id)
  {
    var tree := ParseSource(source).value;
    LoadUndoesCanonicalize(TreeValue(tree));
    CollectExact(tree, []);
    if TreeValue(other) == TreeValue(tree) { TreeValueInjective(other, tree); }
    hide TreeValue, Render, LoadText, ParseSource, Names;
  }

  /** A parsed expression is refused on reload for one reason only: its tree's value nests deeper
      than 64. */
  lemma ReloadRefusesOnlyDepth(source: Text)
    requires ParseSource(source).Ok? && Render(TreeValue(ParseSource(source).value)).Ok?
    ensures ParseExpression(source).Ok? <==> DepthAtMost(TreeValue(ParseSource(source).value), Load.MAX_DEPTH)
    ensures ParseExpression(source).Err? ==> ParseExpression(source).error == Unloadable(SourceTooDeep)
  {
    LoadUndoesCanonicalize(TreeValue(ParseSource(source).value));
    hide TreeValue, Render, LoadText, ParseSource, DepthAtMost, Collect;
  }
}
