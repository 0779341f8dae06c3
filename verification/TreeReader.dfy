/** Reading a stored tree back by the names the evaluator of vfy/gate.py looks up: node["type"],
    node["left"], node["operator"] and so on. What parsing stores is read as the tree that was parsed. */
module TreeReader {
  import opened Wrappers
  import opened Text
  import opened Values
  import opened Syntax
  import opened DepthScan
  import opened Expressions
  import Printer

  /** A name as the source writes it. */
  function Word(name: string): (t: Text)
    ensures |t| == |name| && forall i :: 0 <= i < |name| ==> t[i] == name[i] as int
  {
    seq(|name|, i requires 0 <= i < |name| => name[i] as int)
  }

  /** The member of that name, null where there is none. */
  function Field(node: Value, name: string): (v: Value)
    ensures node.Obj? && Word(name) in node.members ==> v == node.members[Word(name)]
  {
    if node.Obj? && Word(name) in node.members then node.members[Word(name)] else Null
  }

  predicate Says(node: Value, name: string, text: string)
  {
    Field(node, name) == Str(Word(text))
  }

  function ReadLiteral(v: Value): Option<Literal>
  {
    match v
    case Bool(b) => Some(LBool(b))
    case Int(n) => Some(LInt(n))
    case Str(s) => Some(LStr(s))
    case Arr(items) =>
      if forall i :: 0 <= i < |items| ==> ReadLiteral(items[i]).Some?
      then Some(LList(seq(|items|, i requires 0 <= i < |items| => ReadLiteral(items[i]).value))) else None
    case _ => None
  }

  function ReadSegment(v: Value): Option<Segment>
  {
    if Field(v, "member").Str? then Some(Member(Field(v, "member").text))
    else if Field(v, "index").Int? && Field(v, "index").n >= 0 then Some(Index(Field(v, "index").n))
    else None
  }

  function ReadPath(v: Value): Option<Path>
  {
    var segments := Field(v, "segments");
    if Field(v, "root").Str? && segments.Arr?
        && forall i :: 0 <= i < |segments.items| ==> ReadSegment(segments.items[i]).Some?
    then
      Some(Path(Field(v, "root").text,
                seq(|segments.items|, i requires 0 <= i < |segments.items| => ReadSegment(segments.items[i]).value)))
    else None
  }

  function ReadOperand(v: Value): Option<Operand>
  {
    if Says(v, "type", "literal") then
      var l := ReadLiteral(Field(v, "value"));
      if l.Some? then Some(LiteralOperand(l.value)) else None
    else
      var p := ReadPath(v);
      if p.Some? then Some(PathOperand(p.value)) else None
  }

  function ReadOperator(v: Value): Option<Operator>
  {
    if v == Str(Word("==")) then Some(Eq)
    else if v == Str(Word("!=")) then Some(Ne)
    else if v == Str(Word("<")) then Some(Lt)
    else if v == Str(Word("<=")) then Some(Le)
    else if v == Str(Word(">")) then Some(Gt)
    else if v == Str(Word(">=")) then Some(Ge)
    else None
  }

  function ReadCompare(v: Value): Option<Expr>
  {
    var (op, left, right) := (ReadOperator(Field(v, "operator")), ReadOperand(Field(v, "left")), ReadOperand(Field(v,
        "right")));
    if op.Some? && left.Some? && right.Some? then Some(Compare(op.value, left.value, right.value)) else None
  }

  function ReadMembership(v: Value): Option<Expr>
  {
    var (item, list) := (ReadOperand(Field(v, "operand")), ReadLiteral(Field(Field(v, "list"), "value")));
    if item.None? || list.None? || !list.value.LList? then None
    else if Says(v, "operator", "in") then Some(Membership(false, item.value, list.value.items))
    else if Says(v, "operator", "not in") then Some(Membership(true, item.value, list.value.items))
    else None
  }

  function ReadMatches(v: Value): Option<Expr>
  {
    var path := ReadPath(Field(v, "path"));
    if path.Some? && Field(v, "pattern").Str? then Some(Matches(path.value, Field(v, "pattern").text)) else None
  }

  /** The tree a node stands for, by its type. */
  function ReadTree(v: Value): Option<Expr>
    decreases v
  {
    if Says(v, "type", "and") || Says(v, "type", "or") then
      var operands := Field(v, "operands");
      if operands.Arr? && forall i :: 0 <= i < |operands.items| ==> ReadTree(operands.items[i]).Some? then
        var trees := seq(|operands.items|, i requires 0 <= i < |operands.items| => ReadTree(operands.items[i]).value);
        Some(if Says(v, "type", "and") then And(trees) else Or(trees))
      else None
    else if Says(v, "type", "not") then
      if Word("operand") !in v.members then None
      else
        var operand := ReadTree(v.members[Word("operand")]);
        if operand.Some? then Some(Not(operand.value)) else None
    else if Says(v, "type", "present") then
      if Field(v, "evidence_id").Str? then Some(Present(Field(v, "evidence_id").text)) else None
    else if Says(v, "type", "fresh") then
      if Field(v, "evidence_id").Str? then Some(Fresh(Field(v, "evidence_id").text)) else None
    else if Says(v, "type", "matches") then ReadMatches(v)
    else if Says(v, "type", "membership") then ReadMembership(v)
    else if Says(v, "type", "compare") then ReadCompare(v)
    else None
  }

  // --- what was written is read back -------------------------------------------------------------------

  /** The names and kinds that are written are the words that are looked up. */
  lemma Names()
    ensures K_TYPE == Word("type") && K_OPERANDS == Word("operands") && K_OPERAND == Word("operand")
    ensures K_OPERATOR == Word("operator") && K_LEFT == Word("left") && K_RIGHT == Word("right") && K_LIST == Word("list")
    ensures K_EVIDENCE_ID == Word("evidence_id") && K_PATH == Word("path") && K_PATTERN == Word("pattern")
    ensures K_ROOT == Word("root") && K_SEGMENTS == Word("segments") && K_MEMBER == Word("member")
    ensures K_INDEX == Word("index") && K_VALUE == Word("value")
  {
  }

  lemma Kinds()
    ensures AND == Word("and") && OR == Word("or") && NOT == Word("not") && IN == Word("in") && NOT_IN == Word("not in")
    ensures FRESH == Word("fresh") && PRESENT == Word("present") && MATCHES == Word("matches")
    ensures TRUE == Word("true") && FALSE == Word("false")
    ensures CANDIDATE == Word("candidate") && EVIDENCE == Word("evidence") && IDENTITY == Word("identity")
    ensures COMPARE == Word("compare") && MEMBERSHIP == Word("membership") && LITERAL == Word("literal")
            && PATH == Word("path")
  {
  }

  lemma {:induction false} LiteralReadsBack(l: Literal)
    ensures ReadLiteral(LiteralValue(l)) == Some(l)
    decreases l
  {
    if l.LList? {
      var v := LiteralValue(l);
      forall i | 0 <= i < |l.items| ensures ReadLiteral(v.items[i]) == Some(l.items[i]) { LiteralReadsBack(l.items[i]); }
      assert ReadLiteral(v).value.items == l.items;
    }
  }

  lemma SegmentReadsBack(s: Segment)
    ensures ReadSegment(SegmentValue(s)) == Some(s)
  {
    Names();
  }

  lemma PathReadsBack(p: Path)
    ensures ReadPath(PathValue(p)) == Some(p)
  {
    Names();
    var v := PathValue(p);
    hide Word;
    assert Field(v, "root") == Str(p.root) && Field(v, "segments") == v.members[K_SEGMENTS];
    var items := v.members[K_SEGMENTS].items;
    forall i | 0 <= i < |items| ensures ReadSegment(items[i]) == Some(p.segments[i]) { SegmentReadsBack(p.segments[i]); }
    assert ReadPath(v).value.segments == p.segments;
  }

  lemma OperandReadsBack(o: Operand)
    ensures ReadOperand(OperandValue(o)) == Some(o)
  {
    Names();
    Kinds();
    hide Word, ReadPath, PathValue, ReadLiteral, LiteralValue;
    match o {
      case LiteralOperand(l) => LiteralReadsBack(l);
      case PathOperand(p) =>
        PathReadsBack(p);
        PathIsNoLiteral(p);
    }
  }

  lemma PathIsNoLiteral(p: Path)
    ensures !Says(PathValue(p), "type", "literal")
  {
    Names();
    Kinds();
  }

  lemma OperatorReadsBack(op: Operator)
    ensures ReadOperator(Str(Printer.PrintOperator(op))) == Some(op)
  {
    assert Word("==") == [EQUAL, EQUAL] && Word("!=") == [BANG, EQUAL] && Word("<=") == [LESS, EQUAL]
           && Word(">=") == [GREATER, EQUAL];
    assert Word("<") == [LESS] && Word(">") == [GREATER];
    assert [EQUAL, EQUAL][0] != [BANG, EQUAL][0] && [LESS, EQUAL][0] != [GREATER, EQUAL][0] && [LESS][0] != [GREATER][0];
    assert [EQUAL, EQUAL][0] != [LESS, EQUAL][0] && [EQUAL, EQUAL][0] != [GREATER, EQUAL][0];
    assert [BANG, EQUAL][0] != [LESS, EQUAL][0] && [BANG, EQUAL][0] != [GREATER, EQUAL][0];
    hide Word;
  }

  lemma KindIs(e: Expr)
    ensures TreeValue(e).Obj?
    ensures Says(TreeValue(e), "type", "and") <==> e.And?
    ensures Says(TreeValue(e), "type", "or") <==> e.Or?
    ensures Says(TreeValue(e), "type", "not") <==> e.Not?
    ensures Says(TreeValue(e), "type", "present") <==> e.Present?
    ensures Says(TreeValue(e), "type", "fresh") <==> e.Fresh?
    ensures Says(TreeValue(e), "type", "matches") <==> e.Matches?
    ensures Says(TreeValue(e), "type", "membership") <==> e.Membership?
    ensures Says(TreeValue(e), "type", "compare") <==> e.Compare?
  {
    Names();
    Kinds();
    KindText(e);
    WordsDiffer();
    hide TreeValue, Word;
  }

  lemma WordsDiffer()
    ensures Word("and") != Word("not") && Word("or")[0] as int == 0x6F && |Word("or")| == 2 && |Word("and")| == 3
            && |Word("not")| == 3
    ensures |Word("present")| == 7 && |Word("fresh")| == 5 && |Word("matches")| == 7 && |Word("membership")| == 10
            && |Word("compare")| == 7
    ensures Word("present") != Word("matches") && Word("present") != Word("compare") && Word("matches") != Word("compare")
  {
    assert Word("and")[0] != Word("not")[0] && Word("present")[0] != Word("matches")[0];
    assert Word("present")[0] != Word("compare")[0] && Word("matches")[0] != Word("compare")[0];
  }

  lemma CompareReadsBack(e: Expr)
    requires e.Compare?
    ensures ReadCompare(TreeValue(e)) == Some(e)
  {
    Names();
    OperatorReadsBack(e.op);
    OperandReadsBack(e.left);
    OperandReadsBack(e.right);
    hide Word, ReadOperand, OperandValue, ReadOperator, Printer.PrintOperator;
  }

  lemma MembershipReadsBack(e: Expr)
    requires e.Membership?
    ensures ReadMembership(TreeValue(e)) == Some(e)
  {
    Names();
    Kinds();
    OperandReadsBack(e.item);
    LiteralReadsBack(LList(e.list));
    assert Word("in") != Word("not in") by { assert |Word("in")| != |Word("not in")|; }
    assert OperandValue(LiteralOperand(LList(e.list))).members[K_VALUE] == LiteralValue(LList(e.list));
    hide Word, ReadOperand, ReadLiteral, LiteralValue;
  }

  lemma MatchesReadsBack(e: Expr)
    requires e.Matches?
    ensures ReadMatches(TreeValue(e)) == Some(e)
  {
    Names();
    PathReadsBack(e.path);
    hide Word, ReadPath, PathValue;
  }

  /** Every tree is read back from its value by the names the evaluator uses. */
  lemma {:induction false} TreeReadsBack(e: Expr)
    ensures ReadTree(TreeValue(e)) == Some(e)
    decreases e
  {
    Names();
    KindIs(e);
    var v := TreeValue(e);
    match e {
      case Or(operands) =>
        forall i | 0 <= i < |operands| ensures ReadTree(v.members[K_OPERANDS].items[i]) == Some(operands[i]) {
          TreeReadsBack(operands[i]);
        }
        hide Word;
        assert Field(v, "operands") == v.members[K_OPERANDS];
        assert ReadTree(v).value.operands == operands;
      case And(operands) =>
        forall i | 0 <= i < |operands| ensures ReadTree(v.members[K_OPERANDS].items[i]) == Some(operands[i]) {
          TreeReadsBack(operands[i]);
        }
        hide Word;
        assert Field(v, "operands") == v.members[K_OPERANDS];
        assert ReadTree(v).value.operands == operands;
      case Not(operand) =>
        TreeReadsBack(operand);
        hide Word;
      case Compare(_, _, _) => CompareReadsBack(e);
      case Membership(_, _, _) => MembershipReadsBack(e);
      case Matches(_, _) => MatchesReadsBack(e);
      case Present(_) => hide Word;
      case Fresh(_) => hide Word;
    }
  }

  /** What parsing stores is read back as the tree that was parsed. */
  lemma StoredTreeIsParsed(source: Text)
    requires ParseExpression(source).Ok?
    ensures LoadText(ParseExpression(source).value.canonical).Ok?
    ensures ReadTree(LoadText(ParseExpression(source).value.canonical).value) == Some(ParseSource(source).value)
  {
    AcceptedExpressionReloads(source, ParseSource(source).value);
    TreeReadsBack(ParseSource(source).value);
    hide ParseExpression, ParseSource, LoadText, ReadTree, TreeValue;
  }
}
