/** How deep parentheses and brackets may nest before an expression that parses is refused on reload: its
    tree's value nests up to five containers for each of them. */
module ExpressionDepth {
  import opened Wrappers
  import opened Text
  import opened Values
  import opened Canon
  import opened DepthScan
  import opened Sizes
  import opened Syntax
  import opened Printer
  import opened Expressions
  import Layout = LedgerLayout
  import RoundTrip

  // --- at most eleven ----------------------------------------------------------------------------------

  /** Brackets nest at most `n` deep in the literal, and parentheses and brackets in the printed tree. */
  predicate LiteralOpens(l: Literal, n: nat)
    decreases l
  {
    l.LList? ==> n > 0 && forall i :: 0 <= i < |l.items| ==> LiteralOpens(l.items[i], n - 1)
  }

  predicate OperandOpens(o: Operand, n: nat)
  {
    o.LiteralOperand? ==> LiteralOpens(o.literal, n)
  }

  predicate Opens(e: Expr, context: nat, n: nat)
    decreases e, 1
  {
    if Level(e) < context then n > 0 && OpensBare(e, n - 1) else OpensBare(e, n)
  }

  predicate OpensBare(e: Expr, n: nat)
    decreases e, 0
  {
    match e
    case Or(operands) => forall i :: 0 <= i < |operands| ==> Opens(operands[i], 1, n)
    case And(operands) => forall i :: 0 <= i < |operands| ==> Opens(operands[i], 2, n)
    case Not(operand) => Opens(operand, 3, n)
    case Compare(op, left, right) => OperandOpens(left, n) && OperandOpens(right, n)
    case Membership(negated, item, list) => OperandOpens(item, n) && LiteralOpens(LList(list), n)
    case _ => true
  }

  lemma {:induction false} LiteralDepth(l: Literal, n: nat)
    requires LiteralOpens(l, n)
    ensures DepthAtMost(LiteralValue(l), n)
    decreases l
  {
    if l.LList? {
      forall i | 0 <= i < |l.items| ensures DepthAtMost(LiteralValue(l.items[i]), n - 1) {
        LiteralDepth(l.items[i], n - 1);
      }
      hide DepthAtMost;
      var items := LiteralValue(l).items;
      assert forall i :: 0 <= i < |l.items| ==> items[i] == LiteralValue(l.items[i]);
      Layout.ArrAtMost(items, n);
    }
  }

  lemma PathDepth(p: Path, n: int)
    requires n >= 3
    ensures DepthAtMost(PathValue(p), n)
  {
    var segments := PathValue(p).members[K_SEGMENTS].items;
    forall i | 0 <= i < |segments| ensures DepthAtMost(segments[i], n - 2) {
      assert segments[i] == SegmentValue(p.segments[i]);
      Layout.ObjAtMost(SegmentValue(p.segments[i]).members, n - 2);
    }
    Layout.ArrAtMost(segments, n - 1);
    Layout.ObjAtMost(PathValue(p).members, n);
  }

  lemma OperandDepth(o: Operand, n: nat, k: int)
    requires OperandOpens(o, n) && k >= 3 && k >= n + 1
    ensures DepthAtMost(OperandValue(o), k)
  {
    if o.PathOperand? {
      PathDepth(o.path, k);
    } else {
      LiteralDepth(o.literal, n);
      Layout.DepthMonotone(LiteralValue(o.literal), n, k - 1);
      hide LiteralValue;
      Layout.ObjAtMost(OperandValue(o).members, k);
    }
  }

  /** What a tree's value may nest besides five for each bracket: most for an `or` with an `and` with a `not`
      in it. */
  function Least(e: Expr): nat
  {
    if e.Or? then 9 else if e.And? then 7 else if e.Not? then 5 else 4
  }

  lemma LeafDepth(e: Expr, n: nat)
    requires OpensBare(e, n) && !e.Or? && !e.And? && !e.Not?
    ensures DepthAtMost(TreeValue(e), 5 * n + 4)
  {
    var k := 5 * n + 4;
    hide DepthAtMost, LiteralValue, PathValue;
    match e {
      case Compare(op, left, right) =>
        OperandDepth(left, n, k - 1);
        OperandDepth(right, n, k - 1);
      case Membership(negated, item, list) =>
        OperandDepth(item, n, k - 1);
        OperandDepth(LiteralOperand(LList(list)), n, k - 1);
      case Matches(path, _) => PathDepth(path, k - 1);
      case _ =>
    }
    hide OperandValue;
    ScalarsShallow();
    Layout.ObjAtMost(TreeValue(e).members, k);
  }

  lemma ScalarsShallow()
    ensures forall t: Text, n: int :: DepthAtMost(Str(t), n)
  {
  }

  /** A tree's value nests at most five containers for each parenthesis or bracket around anything in it, and
      nine besides. */
  lemma {:induction false} TreeDepth(e: Expr, n: nat)
    requires OpensBare(e, n)
    ensures DepthAtMost(TreeValue(e), 5 * n + Least(e))
    decreases e, 0
  {
    hide DepthAtMost;
    if e.Or? || e.And? {
      var context := if e.Or? then 1 else 2;
      var items := TreeValue(e).members[K_OPERANDS].items;
      forall i | 0 <= i < |items| ensures DepthAtMost(items[i], 5 * n + Least(e) - 2) {
        assert items[i] == TreeValue(e.operands[i]) && Opens(e.operands[i], context, n);
        OperandTreeDepth(e.operands[i], context, n);
        Layout.DepthMonotone(items[i], 5 * n + (if context == 1 then 7 else 5), 5 * n + Least(e) - 2);
      }
      Layout.ArrAtMost(items, 5 * n + Least(e) - 1);
      ScalarsShallow();
      Layout.ObjAtMost(TreeValue(e).members, 5 * n + Least(e));
    } else if e.Not? {
      OperandTreeDepth(e.operand, 3, n);
      ScalarsShallow();
      Layout.ObjAtMost(TreeValue(e).members, 5 * n + 5);
    } else {
      LeafDepth(e, n);
    }
  }

  /** As an operand: in parentheses of its own, or binding tightly enough to do without. */
  lemma {:induction false} OperandTreeDepth(e: Expr, context: nat, n: nat)
    requires Opens(e, context, n) && 1 <= context <= 3
    ensures DepthAtMost(TreeValue(e), 5 * n + (if context == 1 then 7 else if context == 2 then 5 else 4))
    decreases e, 1
  {
    hide DepthAtMost, TreeValue;
    var most := 5 * n + (if context == 1 then 7 else if context == 2 then 5 else 4);
    if Level(e) < context {
      TreeDepth(e, n - 1);
      Layout.DepthMonotone(TreeValue(e), 5 * (n - 1) + Least(e), most);
    } else {
      TreeDepth(e, n);
      Layout.DepthMonotone(TreeValue(e), 5 * n + Least(e), most);
    }
  }

  /** A source whose tree takes parentheses and brackets at most eleven deep is never refused on reload: it is
      accepted exactly when the tree has canonical text, as any without a lone surrogate has. */
  lemma ElevenReload(source: Text)
    requires ParseSource(source).Ok? && Opens(ParseSource(source).value, 0, 11)
    ensures ParseExpression(source).Ok? <==> Render(TreeValue(ParseSource(source).value)).Ok?
  {
    var tree := ParseSource(source).value;
    TreeDepth(tree, 11);
    hide DepthAtMost, TreeValue, Render, ParseSource, OpensBare, LoadText, Collect;
    Layout.DepthMonotone(TreeValue(tree), 55 + Least(tree), 64);
    if Render(TreeValue(tree)).Ok? { ReloadRefusesOnlyDepth(source); }
  }

  // --- twelve ------------------------------------------------------------------------------------------

  const X: Expr := Present([0x78])

  /** present(x) or present(x) and not (…), `n` parentheses deep. */
  function Tower(n: nat): Expr
  {
    Or([X, And([X, Not(if n == 0 then X else Tower(n - 1))])])
  }

  lemma TowerLevel(n: nat)
    ensures Tower(n).Or? && Level(Tower(n)) == 0
  {
  }

  lemma {:induction false} TowerFits(n: nat, m: nat)
    requires m + n <= MAX_NESTING
    ensures WellFormed(Tower(n)) && FitsBare(Tower(n), m) && OpensBare(Tower(n), n)
    decreases n
  {
    XFits(m, n);
    if n > 0 {
      TowerFits(n - 1, m + 1);
      TowerLevel(n - 1);
    }
    var inner := if n == 0 then X else Tower(n - 1);
    assert WellFormed(inner) && Fits(inner, 3, m) && Opens(inner, 3, n);
    var both := [X, Not(inner)];
    NotFits(inner, m, n);
    AndFits(both, m, n);
    OrFits([X, And(both)], m, n);
    assert Tower(n) == Or([X, And(both)]);
  }

  lemma XFits(m: nat, n: nat)
    ensures WellFormed(X) && Level(X) == 3 && FitsBare(X, m) && OpensBare(X, n)
  {
    assert IsIdentifier([0x78]) && !IsKeyword([0x78]);
  }

  lemma NotFits(inner: Expr, m: nat, n: nat)
    requires WellFormed(inner) && Fits(inner, 3, m) && Opens(inner, 3, n)
    ensures WellFormed(Not(inner)) && Fits(Not(inner), 2, m) && Opens(Not(inner), 2, n)
  {
    hide Opens, Fits;
    assert WellFormed(Not(inner));
    OpensNot(inner, m, n);
  }

  lemma OpensNot(inner: Expr, m: nat, n: nat)
    requires Fits(inner, 3, m) && Opens(inner, 3, n)
    ensures Fits(Not(inner), 2, m) && Opens(Not(inner), 2, n)
  {
    assert FitsBare(Not(inner), m) && OpensBare(Not(inner), n);
  }

  lemma AndFits(operands: seq<Expr>, m: nat, n: nat)
    requires |operands| >= 2
    requires forall i :: 0 <= i < |operands| ==> WellFormed(operands[i]) && Fits(operands[i], 2, m) && Opens(operands[i], 2, n)
    ensures WellFormed(And(operands)) && Fits(And(operands), 1, m) && Opens(And(operands), 1, n)
  {
    assert FitsBare(And(operands), m) && OpensBare(And(operands), n);
  }

  lemma OrFits(operands: seq<Expr>, m: nat, n: nat)
    requires |operands| >= 2
    requires forall i :: 0 <= i < |operands| ==> WellFormed(operands[i]) && Fits(operands[i], 1, m) && Opens(operands[i], 1, n)
    ensures WellFormed(Or(operands)) && FitsBare(Or(operands), m) && OpensBare(Or(operands), n)
  {
  }

  /** Exactly six containers deep with no parenthesis, and five more with each. */
  lemma {:induction false} TowerDepth(n: nat, k: int)
    requires k <= 5 * n + 5
    ensures !DepthAtMost(TreeValue(Tower(n)), k)
    decreases n
  {
    hide DepthAtMost, TreeValue;
    var inner := if n == 0 then X else Tower(n - 1);
    if n == 0 { XDepth(k - 5); } else { TowerDepth(n - 1, k - 5); }
    NotDepth(inner, k - 4);
    ListDepth(Not(inner), false, k - 2);
    ListDepth(And([X, Not(inner)]), true, k);
  }

  lemma XDepth(k: int)
    requires k <= 0
    ensures !DepthAtMost(TreeValue(X), k)
  {
  }

  lemma NotDepth(e: Expr, k: int)
    requires !DepthAtMost(TreeValue(e), k - 1)
    ensures !DepthAtMost(TreeValue(Not(e)), k)
  {
    hide DepthAtMost;
    var m := TreeValue(Not(e)).members;
    assert K_OPERAND in m && m[K_OPERAND] == TreeValue(e);
    Layout.ObjAtMost(m, k);
  }

  lemma ListDepth(e: Expr, isOr: bool, k: int)
    requires !DepthAtMost(TreeValue(e), k - 2)
    ensures !DepthAtMost(TreeValue(if isOr then Or([X, e]) else And([X, e])), k)
  {
    hide DepthAtMost;
    var m := TreeValue(if isOr then Or([X, e]) else And([X, e])).members;
    assert K_OPERANDS in m;
    var items := m[K_OPERANDS].items;
    assert |items| == 2 && items[1] == TreeValue(e);
    Layout.ArrAtMost(items, k - 1);
    Layout.ObjAtMost(m, k);
  }

  lemma {:induction false} TowerRenders(n: nat)
    ensures Render(TreeValue(Tower(n))).Ok?
  {
    hide Render, TreeValue;
    XRenders();
    if n > 0 { TowerRenders(n - 1); }
    var inner := if n == 0 then X else Tower(n - 1);
    NotRenders(inner);
    ListRenders(Not(inner), false);
    ListRenders(And([X, Not(inner)]), true);
  }

  lemma TextRenders(t: Text)
    requires SurrogateFree(t)
    ensures Render(Str(t)).Ok?
  {
  }

  lemma WordsFree()
    ensures SurrogateFree(K_TYPE) && SurrogateFree(K_OPERAND) && SurrogateFree(K_OPERANDS) && SurrogateFree(K_EVIDENCE_ID)
    ensures SurrogateFree(PRESENT) && SurrogateFree(NOT) && SurrogateFree(AND) && SurrogateFree(OR) && SurrogateFree([0x78])
  {
  }

  lemma TwoMembers(word: Text, k: Text, v: Value)
    requires SurrogateFree(word) && SurrogateFree(k) && Render(v).Ok?
    ensures Render(Obj(map[K_TYPE := Str(word), k := v])).Ok?
  {
    WordsFree();
    TextRenders(word);
    hide Render, SurrogateFree;
    ObjectExactly(map[K_TYPE := Str(word), k := v]);
  }

  lemma XRenders()
    ensures Render(TreeValue(X)).Ok?
  {
    hide Render, SurrogateFree;
    WordsFree();
    TextRenders([0x78]);
    TwoMembers(PRESENT, K_EVIDENCE_ID, Str([0x78]));
  }

  lemma NotRenders(e: Expr)
    requires Render(TreeValue(e)).Ok?
    ensures Render(TreeValue(Not(e))).Ok?
  {
    hide Render, SurrogateFree;
    WordsFree();
    TwoMembers(NOT, K_OPERAND, TreeValue(e));
  }

  lemma ListRenders(e: Expr, isOr: bool)
    requires Render(TreeValue(e)).Ok?
    ensures Render(TreeValue(if isOr then Or([X, e]) else And([X, e]))).Ok?
  {
    hide Render, SurrogateFree, Size;
    WordsFree();
    XRenders();
    var items := [TreeValue(X), TreeValue(e)];
    ArrayAtMost(items, Size(Render(TreeValue(X))) + Size(Render(TreeValue(e))));
    TwoMembers(if isOr then OR else AND, K_OPERANDS, Arr(items));
    var operands := [X, e];
    assert items == seq(|operands|, i requires 0 <= i < |operands| => TreeValue(operands[i]));
  }

  /** The smallest nesting that is refused: a source with its parentheses twelve deep, which parses and has
      canonical text, and whose text is refused on reload as too deep. So is every taller tower the parser
      takes. */
  lemma TwelveRefused(n: nat)
    requires 12 <= n <= MAX_NESTING
    ensures var source := Print(Tower(n), 0);
            && Opens(Tower(n), 0, n)
            && ParseSource(source) == Ok(Tower(n))
            && ParseExpression(source) == Err(Unloadable(SourceTooDeep))
  {
    hide WellFormed, FitsBare, OpensBare, DepthAtMost, Render, TreeValue, Tower;
    TowerFits(n, 0);
    TowerDepth(n, 64);
    TowerRenders(n);
    TowerLevel(n);
    RoundTrip.PrintedTreeParses(Tower(n));
    hide Print, ParseSource;
    ReloadRefusesOnlyDepth(Print(Tower(n), 0));
  }
}
