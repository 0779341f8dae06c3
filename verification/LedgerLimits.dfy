/** Ledgers that are opened and cannot be used: identities too long for any snapshot of theirs, and
    identities that nest too deep for the next one. */
module LedgerLimits {
  import opened Wrappers
  import opened Text
  import opened Values
  import opened Canon
  import opened Sizes
  import opened LedgerRecords
  import opened LedgerLayout
  import opened ChildLedger
  import opened LedgerRuns
  import Reading = DepthScan

  // --- a snapshot holds its identity twice -------------------------------------------------------------

  lemma {:induction false} MembersFollow(m: map<Text, Value>, keys: seq<Text>, i: nat)
    requires AllIn(keys, m) && i <= |keys| && RenderMembers(Obj(m), keys, i).Ok?
    ensures forall j :: i <= j < |keys| ==> SurrogateFree(keys[j]) && Render(m[keys[j]]).Ok?
    decreases |keys| - i
  {
    hide Render;
    if i < |keys| { MembersFollow(m, keys, i + 1); }
  }

  lemma WrittenMembers(m: map<Text, Value>)
    requires Render(Obj(m)).Ok?
    ensures MembersRender(m)
  {
    var keys := Sorted(m.Keys);
    assert AllIn(keys, m) && RenderMembers(Obj(m), keys, 0).Ok? by { hide RenderMembers, Sorted; }
    MembersFollow(m, keys, 0);
    hide Render, RenderMembers, Sorted, SurrogateFree;
    forall k | k in m ensures SurrogateFree(k) && Render(m[k]).Ok? {
      assert k in keys;
    }
  }

  /** A record that can be written is longer than any two of its pairs that count. */
  lemma RecordAtLeast(pairs: seq<(Text, Value)>, i: nat, j: nat)
    requires i < j < |pairs| && pairs[i].0 != pairs[j].0
    requires forall k :: i < k < |pairs| ==> pairs[k].0 != pairs[i].0
    requires forall k :: j < k < |pairs| ==> pairs[k].0 != pairs[j].0
    requires Render(Record(pairs)).Ok?
    ensures Render(pairs[i].1).Ok? && Render(pairs[j].1).Ok?
    ensures Size(Render(Record(pairs))) >= Size(Render(pairs[i].1)) + Size(Render(pairs[j].1))
  {
    WrittenMembers(Members(pairs));
    LastCounts(pairs, i);
    LastCounts(pairs, j);
    hide Members, Render, Size, SurrogateFree;
    ObjectAtLeast(Members(pairs), pairs[i].0, pairs[j].0);
  }

  lemma EnvelopeAtLeast(signer: Signer, signature: Signature, sha256: Sha, body: Value)
    requires Render(Envelope(signer, signature, sha256, body)).Ok?
    ensures Render(body).Ok? && Size(Render(Envelope(signer, signature, sha256, body))) >= Size(Render(body))
  {
    var pairs := [(T("issuer_identity"), S(signer.issuer)), (T("producer_identity"), Record(ProducerPairs(signer.producer))),
                  (T("signature"), Str(signature)), (T("sha256"), Str(sha256)), (T("body"), body)];
    assert pairs[3].0 != pairs[4].0;
    hide Record, T, Render, Size, ProducerPairs;
    RecordAtLeast(pairs, 3, 4);
  }

  lemma BudgetAtLeast(x: Texts, b: Binding, limits: seq<Row>)
    requires Render(BudgetCopy(x, b, limits)).Ok?
    ensures Render(b.taskIdentity).Ok? && Size(Render(BudgetCopy(x, b, limits))) >= Size(Render(b.taskIdentity))
  {
    var copied := [(T("budget_sha256"), S(b.budgetSha256)), (T("domain"), S("THIS_LOCAL_LEDGER_ONLY")),
                   (T("task_identity"), b.taskIdentity)];
    assert copied[1].0 != copied[2].0;
    hide Record, T, Render, Size, BudgetPairs;
    var n := |BudgetPairs(x, b, limits)|;
    var pairs := BudgetPairs(x, b, limits) + copied;
    assert pairs[n + 1] == copied[1] && pairs[n + 2] == copied[2];
    RecordAtLeast(pairs, n + 1, n + 2);
  }

  /** Every snapshot holds the task identity at least twice: by itself, and in the copy of the budget. */
  lemma SnapshotAtLeast(x: Texts, s: Snapshot)
    requires Render(SnapshotValue(x, s)).Ok?
    ensures Render(s.binding.taskIdentity).Ok?
    ensures Size(Render(SnapshotValue(x, s))) >= 2 * Size(Render(s.binding.taskIdentity))
  {
    EnvelopeAtLeast(s.signer, x.snapshotSignature(s), x.snapshotSha(s), SnapshotBody(x, s));
    BodyKeysApart(x, s);
    var deep := [(T("task_identity"), s.binding.taskIdentity), (T("budget"), BudgetCopy(x, s.binding, s.limits)),
                 (T("children"), ChildrenValue(x, s.children))];
    hide Envelope, Record, T, Render, Size, SnapshotPairs, BudgetCopy, ChildrenValue;
    var n := |SnapshotPairs(x, s)|;
    var pairs := SnapshotPairs(x, s) + deep;
    assert deep[0].0 != deep[1].0 && deep[0].0 != deep[2].0 && deep[1].0 != deep[2].0;
    assert pairs[n] == deep[0] && pairs[n + 1] == deep[1] && pairs[n + 2] == deep[2];
    RecordAtLeast(pairs, n, n + 1);
    BudgetAtLeast(x, s.binding, s.limits);
  }

  /** A ledger whose identity takes more than half of what a snapshot may take is created, because creating
      asks nothing of the size, and then refuses every change for good. */
  lemma CreatedTooBig(cfg: Config, actions: seq<Action>, x: Change)
    requires ConfigOk(cfg) && Render(cfg.binding.taskIdentity).Ok?
    requires 2 * Size(Render(cfg.binding.taskIdentity)) > MAX_BYTES
    ensures !Verified(cfg, Created(cfg))
    ensures Run(cfg, Start(cfg), actions).state == Created(cfg) && Step(cfg, Created(cfg), x) == None
  {
    RunVerifies(cfg, actions);
    hide ConfigOk, SnapshotValue, Run, Sound, Render;
    if Render(SnapshotValue(cfg.texts, Created(cfg))).Ok? { SnapshotAtLeast(cfg.texts, Created(cfg)); }
  }

  // --- bounds from above -------------------------------------------------------------------------------

  const SHORT := 64
  const STRING_BYTES := 6 * 128 + 2
  const KEY_BYTES := 6 * SHORT + 5

  /** The value has canonical text of at most `n` bytes. */
  predicate Small(v: Value, n: nat)
  {
    Render(v).Ok? && Size(Render(v)) <= n
  }

  predicate Tidy(p: (Text, Value), n: nat)
  {
    |p.0| <= SHORT && SurrogateFree(p.0) && Small(p.1, n)
  }

  /** Short keys and small values. */
  predicate AllTidy(pairs: seq<(Text, Value)>, n: nat)
  {
    forall i :: 0 <= i < |pairs| ==> Tidy(pairs[i], n)
  }

  lemma SmallScalars(n: nat)
    requires n >= 5
    ensures Small(Null, n) && Small(Bool(false), n)
  {
    AsciiBytes(NULL_TEXT);
    AsciiBytes(FALSE_TEXT);
  }

  lemma SmallNumber(k: nat, n: nat)
    requires k < 10 && n >= 1
    ensures Small(Int(k), n)
  {
    var t := Digits(k);
    assert t == [ZERO + k];
    AsciiBytes(t);
  }

  /** What `count` small members with their keys may take. */
  function Room(count: nat, each: nat): nat
  {
    count * (each + KEY_BYTES)
  }

  /** A record with one member that may be long. */
  lemma RecordSmall(flat: seq<(Text, Value)>, big: (Text, Value), each: nat, bytes: nat)
    requires AllTidy(flat, each) && Tidy(big, bytes)
    ensures Small(Record(flat + [big]), Room(|flat| + 1, each) + bytes + KEY_BYTES)
  {
    var pairs := flat + [big];
    var m := Members(pairs);
    assert pairs[..|flat|] == flat && big.0 in m && m[big.0] == big.1;
    forall k | k in m ensures Tidy((k, m[k]), if k == big.0 then bytes else each) {
      KeptTidy(flat, big, each, bytes, k);
    }
    MembersFew(pairs);
    hide Members, Tidy, AllTidy, Small;
    MapSmall(m, big.0, each, bytes, |pairs|);
  }

  lemma MapSmall(m: map<Text, Value>, big: Text, each: nat, bytes: nat, n: nat)
    requires |m| <= n && big in m && forall k :: k in m ==> Tidy((k, m[k]), if k == big then bytes else each)
    ensures Small(Obj(m), Room(n, each) + bytes + KEY_BYTES)
  {
    hide Render, Size, SurrogateFree;
    forall k | k in m ensures SurrogateFree(k) && Render(m[k]).Ok? {
      assert Tidy((k, m[k]), if k == big then bytes else each);
    }
    hide Tidy;
    forall k | k in m ensures MemberBytes(m, k) <= (if k == big then bytes else each) + KEY_BYTES - 2 {
      TidyBytes(m, k, if k == big then bytes else each);
    }
    hide MemberBytes;
    ObjectAtMost(m, big, each + KEY_BYTES - 1, n);
    hide MembersRender;
  }

  lemma KeptTidy(flat: seq<(Text, Value)>, big: (Text, Value), each: nat, bytes: nat, k: Text)
    requires AllTidy(flat, each) && Tidy(big, bytes) && k in Members(flat + [big])
    ensures Tidy((k, Members(flat + [big])[k]), if k == big.0 then bytes else each)
  {
    var pairs := flat + [big];
    assert pairs[..|flat|] == flat;
    MembersHas(flat, k);
    hide Tidy;
    if k != big.0 {
      var i :| 0 <= i < |flat| && flat[i] == (k, Members(flat)[k]);
    }
  }

  lemma TidyBytes(m: map<Text, Value>, k: Text, n: nat)
    requires MembersRender(m) && k in m && Tidy((k, m[k]), n)
    ensures MemberBytes(m, k) <= n + KEY_BYTES - 2
  {
    StringAtMost(k);
    KeyText(k);
    hide Render, RenderString, Size, SurrogateFree;
  }

  lemma KeyText(k: Text)
    ensures RenderString(k) == Render(Str(k))
  {
  }

  lemma RecordTidy(pairs: seq<(Text, Value)>, each: nat)
    requires pairs != [] && AllTidy(pairs, each)
    ensures Small(Record(pairs), Room(|pairs| + 1, each))
  {
    var n := |pairs| - 1;
    assert pairs[..n] + [pairs[n]] == pairs;
    assert AllTidy(pairs[..n], each) by { hide Tidy; }
    hide Record, Small, Tidy;
    assert Tidy(pairs[n], each);
    RecordSmall(pairs[..n], pairs[n], each, each);
    OneMore(n + 2, each + KEY_BYTES);
  }

  // --- a ledger with one child, one budgeted axis and short names --------------------------------------

  function Zeros(): (s: string)
    ensures IsHex64(s)
  {
    seq(64, _ => '0')
  }

  const ONE_BYTE := [Row(ConsoleBytes, ("byte", "SUM", "DIRECT_CHILD_CAPTURED_OUTPUT"), Some(1.0))]

  /** A ledger for this task identity, whatever its digests, signatures and amounts are written as. */
  function Sample(identity: Value, x: Texts): Config
  {
    Config(Binding("k", identity, "o", "a", Zeros(), Artifact("b", Zeros()), ["c"], "g", Zeros()), ONE_BYTE,
           Signer("i", "p", "k"), map["i" := ("k", "p")], x)
  }

  /** The first hold of that ledger. */
  const FIRST_HOLD := Reserve("c", "t", ONE_BYTE, "n")

  lemma TextPair(key: string, s: string, n: nat)
    requires |key| <= SHORT && |s| <= 128 && n >= STRING_BYTES
    ensures Tidy((T(key), S(s)), n)
  {
    hide Render, Size;
    StringAtMost(T(s));
  }

  lemma ValuePair(key: string, v: Value, n: nat)
    requires |key| <= SHORT && Small(v, n)
    ensures Tidy((T(key), v), n)
  {
    hide Small;
  }

  lemma Larger(v: Value, m: nat, n: nat)
    requires m <= n && Small(v, m)
    ensures Small(v, n)
  {
    hide Render, Size;
  }

  lemma StringsSmall(ss: seq<string>)
    requires forall i :: 0 <= i < |ss| ==> |ss[i]| <= 128
    ensures Small(Strings(ss), |ss| * (STRING_BYTES + 1) + 2)
  {
    hide Render, Size, SurrogateFree, T;
    var items := seq(|ss|, i requires 0 <= i < |ss| => S(ss[i]));
    forall i | 0 <= i < |items| ensures Render(items[i]).Ok? && Size(Render(items[i])) <= STRING_BYTES {
      StringAtMost(T(ss[i]));
    }
    ArrayAtMost(items, STRING_BYTES);
  }

  lemma ArtifactSmall(a: Artifact)
    requires |a.path| <= 128 && |a.sha256| <= 128
    ensures Small(ArtifactValue(a), 3500)
  {
    hide Small, Record, Tidy, T, S;
    TextPair("path", a.path, STRING_BYTES);
    TextPair("sha256", a.sha256, STRING_BYTES);
    RecordTidy([(T("path"), S(a.path)), (T("sha256"), S(a.sha256))], STRING_BYTES);
    Larger(ArtifactValue(a), Room(3, STRING_BYTES), 3500);
  }

  lemma RowsSmall(x: Texts, field: string)
    requires |field| <= SHORT
    ensures Small(RowsValue(x, ONE_BYTE, field), 7000)
  {
    hide Small, Record, Tidy, T, S;
    var r := ONE_BYTE[0];
    TextPair("axis_id", AxisName(r.axis), STRING_BYTES);
    TextPair("unit", r.tags.0, STRING_BYTES);
    TextPair("aggregation", r.tags.1, STRING_BYTES);
    TextPair("scope", r.tags.2, STRING_BYTES);
    StringAtMost(x.spell(1.0));
    SmallText(x.spell(1.0));
    ValuePair(field, AmountValue(x, r.amount), STRING_BYTES);
    RecordTidy(RowPairs(r) + [(T(field), AmountValue(x, r.amount))], STRING_BYTES);
    ListOfOne(RowValue(x, r, field), Room(6, STRING_BYTES));
    assert RowsValue(x, ONE_BYTE, field) == Arr([RowValue(x, r, field)]);
    Larger(Arr([RowValue(x, r, field)]), Room(6, STRING_BYTES) + 3, 7000);
  }

  lemma SmallText(t: Text)
    requires SurrogateFree(t) && |t| <= 128
    ensures Small(Str(t), STRING_BYTES)
  {
    StringAtMost(t);
    hide Render, Size;
  }

  lemma ListOfOne(v: Value, n: nat)
    requires Small(v, n)
    ensures Small(Arr([v]), n + 3)
  {
    hide Render, Size;
    ArrayAtMost([v], n);
  }

  lemma StartSmall(identity: Value, x: Texts, n: nat)
    requires Small(identity, n)
    ensures Small(StartOf(Sample(identity, x).binding), n + 40000)
  {
    hide Small, Record, Tidy, T, S, Strings, ArtifactValue;
    var b := Sample(identity, x).binding;
    TextPair("state", "STARTED", 4000);
    SmallScalars(4000);
    ValuePair("automatic_retry", Bool(false), 4000);
    TextPair("task_key", b.taskKey, 4000);
    TextPair("operation_id", b.operationId, 4000);
    TextPair("attempt_id", b.attemptId, 4000);
    var population := [(T("state"), S("DECLARED_BEFORE_DISPATCH")), (T("expected_child_ids"), Strings(b.expectedIds))];
    PopulationSmall(population);
    ValuePair("native_child_population", Record(population), 4000);
    ArtifactSmall(b.basis);
    ListOfOne(ArtifactValue(b.basis), 3500);
    Larger(Arr([ArtifactValue(b.basis)]), 3503, 4000);
    ValuePair("input_artifacts", Arr([ArtifactValue(b.basis)]), 4000);
    ValuePair("task_identity", identity, n);
    var flat := [(T("state"), S("STARTED")), (T("automatic_retry"), Bool(false)), (T("task_key"), S(b.taskKey)),
                 (T("operation_id"), S(b.operationId)), (T("attempt_id"), S(b.attemptId)),
                 (T("native_child_population"), Record(population)), (T("input_artifacts"), Arr([ArtifactValue(b.basis)]))];
    RecordSmall(flat, (T("task_identity"), identity), 4000, n);
    assert flat + [(T("task_identity"), identity)] == [flat[0], flat[1], flat[2], flat[3], flat[4], flat[5], flat[6], (T("task_identity"), identity)];
    assert StartOf(b) == Record(flat + [(T("task_identity"), identity)]);
    Larger(StartOf(b), Room(8, 4000) + n + KEY_BYTES, n + 40000);
  }

  lemma PopulationSmall(pairs: seq<(Text, Value)>)
    requires pairs == [(T("state"), S("DECLARED_BEFORE_DISPATCH")), (T("expected_child_ids"), Strings(["c"]))]
    ensures Small(Record(pairs), 4000)
  {
    hide Small, Record, Tidy, T, S, Strings;
    TextPair("state", "DECLARED_BEFORE_DISPATCH", 780);
    StringsSmall(["c"]);
    Larger(Strings(["c"]), STRING_BYTES + 3, 780);
    ValuePair("expected_child_ids", Strings(["c"]), 780);
    RecordTidy(pairs, 780);
    Larger(Record(pairs), Room(3, 780), 4000);
  }

  lemma BudgetPairsTidy(identity: Value, x: Texts)
    ensures AllTidy(BudgetPairs(x, Sample(identity, x).binding, ONE_BYTE), 7000)
  {
    hide Small, Tidy, T, S, RowsValue;
    var b := Sample(identity, x).binding;
    TextPair("schema", "vfy.child-resource-budget/1", 7000);
    TextPair("budget_id", b.budgetId, 7000);
    TextPair("task_key", b.taskKey, 7000);
    TextPair("parent_start_sha256", b.startSha256, 7000);
    RowsSmall(x, "limit");
    ValuePair("resource_rows", RowsValue(x, ONE_BYTE, "limit"), 7000);
  }

  lemma BudgetSmall(identity: Value, x: Texts, n: nat)
    requires Small(identity, n)
    ensures var b := Sample(identity, x).binding;
            && Small(BudgetOf(x, b, ONE_BYTE), n + 60000) && Small(BudgetCopy(x, b, ONE_BYTE), n + 60000)
  {
    hide Small, Record, Tidy, T, S, BudgetPairs;
    var b := Sample(identity, x).binding;
    var big := (T("task_identity"), identity);
    var flat := BudgetPairs(x, b, ONE_BYTE);
    BudgetPairsTidy(identity, x);
    BudgetPairsFew(x, b);
    ValuePair("task_identity", identity, n);
    RecordSmall(flat, big, 7000, n);
    Larger(BudgetOf(x, b, ONE_BYTE), Room(6, 7000) + n + KEY_BYTES, n + 60000);
    TextPair("budget_sha256", b.budgetSha256, 7000);
    TextPair("domain", "THIS_LOCAL_LEDGER_ONLY", 7000);
    var copied := [(T("budget_sha256"), S(b.budgetSha256)), (T("domain"), S("THIS_LOCAL_LEDGER_ONLY"))];
    RecordSmall(flat + copied, big, 7000, n);
    assert flat + copied + [big] == flat + [copied[0], copied[1], big];
    Larger(BudgetCopy(x, b, ONE_BYTE), Room(8, 7000) + n + KEY_BYTES, n + 60000);
  }

  lemma BudgetPairsFew(x: Texts, b: Binding)
    ensures |BudgetPairs(x, b, ONE_BYTE)| == 5
  {
    hide T, S, RowsValue;
  }

  // --- it can be opened --------------------------------------------------------------------------------

  lemma ScalarDepth()
    ensures forall t: Text, n: int :: Reading.DepthAtMost(Str(t), n)
    ensures forall b: bool, n: int :: Reading.DepthAtMost(Bool(b), n)
  {
  }

  lemma StartDepth(identity: Value, x: Texts)
    requires Reading.DepthAtMost(identity, 63)
    ensures Reading.DepthAtMost(StartOf(Sample(identity, x).binding), 64)
  {
    var b := Sample(identity, x).binding;
    ArtifactShallow(b.basis, 62);
    StringsShallow(b.expectedIds, 62);
    ArrAtMost([ArtifactValue(b.basis)], 63);
    hide T, Record, Strings, ArtifactValue, Reading.DepthAtMost;
    ScalarDepth();
    RecordAtMost([(T("state"), S("DECLARED_BEFORE_DISPATCH")), (T("expected_child_ids"), Strings(b.expectedIds))], 63);
    RecordAtMost([(T("state"), S("STARTED")), (T("automatic_retry"), Bool(false)), (T("task_key"), S(b.taskKey)),
                  (T("operation_id"), S(b.operationId)), (T("attempt_id"), S(b.attemptId)),
                  (T("native_child_population"), Record([(T("state"), S("DECLARED_BEFORE_DISPATCH")),
                                                         (T("expected_child_ids"), Strings(b.expectedIds))])),
                  (T("input_artifacts"), Arr([ArtifactValue(b.basis)])),
                  (T("task_identity"), b.taskIdentity)], 64);
  }

  /** The ledger is created for every identity of at most 3 MiB that nests at most 63 deep. */
  lemma SampleOk(identity: Value, x: Texts)
    requires IdentityOk(identity) && Small(identity, 3 * 1024 * 1024) && Reading.DepthAtMost(identity, 63)
    ensures ConfigOk(Sample(identity, x))
  {
    hide StartOf, BudgetOf, LoadsBack, LoadsBackAtAnySize, IdentityOk, Small, Reading.DepthAtMost, RowsOk, AllKnown, IsHex64,
      Trusts;
    SampleLoads(identity, x);
    OneByteOk();
    SampleTrusts(identity, x);
  }

  lemma OneByteOk()
    ensures RowsOk(ONE_BYTE) && AllKnown(ONE_BYTE)
  {
  }

  lemma SampleTrusts(identity: Value, x: Texts)
    ensures Trusts(Sample(identity, x), Sample(identity, x).signer)
  {
  }

  lemma SampleLoads(identity: Value, x: Texts)
    requires Small(identity, 3 * 1024 * 1024) && Reading.DepthAtMost(identity, 63)
    ensures LoadsBack(StartOf(Sample(identity, x).binding))
    ensures LoadsBackAtAnySize(BudgetOf(x, Sample(identity, x).binding, ONE_BYTE))
  {
    hide StartOf, BudgetOf, Render, Reading.LoadText, Reading.DepthAtMost, BudgetCopy, Size;
    var b := Sample(identity, x).binding;
    StartSmall(identity, x, 3 * 1024 * 1024);
    BudgetSmall(identity, x, 3 * 1024 * 1024);
    StartDepth(identity, x);
    BudgetDepth(x, b, ONE_BYTE, 64);
    Reading.LoadUndoesCanonicalize(StartOf(b));
    Reading.LoadUndoesCanonicalize(BudgetOf(x, b, ONE_BYTE));
  }

  // --- and how long its first snapshots are ------------------------------------------------------------

  lemma HexText(t: Text, length: nat, n: nat)
    requires IsHex(t, length) && length <= 128 && n >= STRING_BYTES
    ensures SurrogateFree(t) && |t| == length && Small(Str(t), n)
  {
    HexSize(t);
    SmallText(t);
    Larger(Str(t), STRING_BYTES, n);
    hide Small, SurrogateFree;
  }

  lemma ShaText(sha256: Sha, n: nat)
    requires n >= STRING_BYTES
    ensures SurrogateFree(sha256) && |sha256| == 64 && Small(Str(sha256), n)
  {
    HexText(sha256, 64, n);
  }

  lemma SignatureText(signature: Signature, n: nat)
    requires n >= STRING_BYTES
    ensures Small(Str(signature), n)
  {
    HexText(signature, 128, n);
  }

  lemma EnvelopeSmall(x: Texts, producer: string, signature: Signature, sha256: Sha, body: Value, n: nat)
    requires |producer| <= 128 && Small(body, n)
    ensures Small(Envelope(Signer("i", producer, "k"), signature, sha256, body), n + 35000)
  {
    hide Small, Record, Tidy, T, S, IsHex;
    TextPair("component", "verify-run", STRING_BYTES);
    TextPair("version", VERSION, STRING_BYTES);
    TextPair("source_sha256", producer, STRING_BYTES);
    TextPair("source_identity_scope", "child_ledger.py", STRING_BYTES);
    RecordTidy(ProducerPairs(producer), STRING_BYTES);
    Larger(Record(ProducerPairs(producer)), Room(5, STRING_BYTES), 6000);
    hide ProducerPairs;
    TextPair("issuer_identity", "i", 6000);
    ValuePair("producer_identity", Record(ProducerPairs(producer)), 6000);
    SignatureText(signature, 6000);
    ValuePair("signature", Str(signature), 6000);
    ShaText(sha256, 6000);
    ValuePair("sha256", Str(sha256), 6000);
    ValuePair("body", body, n);
    var flat := [(T("issuer_identity"), S("i")), (T("producer_identity"), Record(ProducerPairs(producer))),
                 (T("signature"), Str(signature)), (T("sha256"), Str(sha256))];
    RecordSmall(flat, (T("body"), body), 6000, n);
    assert flat + [(T("body"), body)] == [flat[0], flat[1], flat[2], flat[3], (T("body"), body)];
    Larger(Record(flat + [(T("body"), body)]), Room(5, 6000) + n + KEY_BYTES, n + 35000);
  }

  lemma SnapshotPairsTidy(identity: Value, x: Texts, s: Snapshot)
    requires s.binding == Sample(identity, x).binding && s.revision < 10
    ensures AllTidy(SnapshotPairs(x, s), 20000)
  {
    hide Small, Record, Tidy, T, S, Strings, ArtifactValue, IsHex;
    var b := s.binding;
    TextPair("operation_id", b.operationId, 3500);
    TextPair("attempt_id", b.attemptId, 3500);
    TextPair("start_sha256", b.startSha256, 3500);
    ArtifactSmall(b.basis);
    ValuePair("basis_artifact", ArtifactValue(b.basis), 3500);
    var parent := [(T("operation_id"), S(b.operationId)), (T("attempt_id"), S(b.attemptId)),
                   (T("start_sha256"), S(b.startSha256)), (T("basis_artifact"), ArtifactValue(b.basis))];
    RecordTidy(parent, 3500);
    Larger(Record(parent), Room(5, 3500), 20000);
    ValuePair("parent_binding", Record(parent), 20000);
    TextPair("task_key", b.taskKey, 20000);
    ListPairs(20000);
    TextPair("schema", "engineer.resource-child-ledger/2", 20000);
    SmallNumber(s.revision, 20000);
    ValuePair("revision", Int(s.revision), 20000);
    SmallScalars(20000);
    if s.previous.Some? {
      ShaText(x.snapshotSha(s.previous.value), 20000);
    }
    ValuePair("previous_snapshot_sha256", if s.previous.Some? then Str(x.snapshotSha(s.previous.value)) else Null, 20000);
    ValuePair("authority_granted", Bool(false), 20000);
    ValuePair("automatic_retry", Bool(false), 20000);
  }

  lemma ListPairs(n: nat)
    requires n >= 7000
    ensures Tidy((T("expected_child_ids"), Strings(["c"])), n)
    ensures Tidy((T("unsupported_dimensions"),
                  Strings(["provider", "host", "storage", "memory", "overlap", "financial", "undeclared_axes"])), n)
  {
    hide Small, Tidy, T, Strings;
    var names := ["provider", "host", "storage", "memory", "overlap", "financial", "undeclared_axes"];
    StringsSmall(["c"]);
    Larger(Strings(["c"]), STRING_BYTES + 3, n);
    ValuePair("expected_child_ids", Strings(["c"]), n);
    StringsSmall(names);
    Larger(Strings(names), 7 * (STRING_BYTES + 1) + 2, n);
    ValuePair("unsupported_dimensions", Strings(names), n);
  }

  lemma SnapshotPairsFew(x: Texts, s: Snapshot)
    ensures |SnapshotPairs(x, s)| == 9
  {
    hide T, S, Strings, Record;
  }

  /** A snapshot of that ledger is not much longer than its children are. */
  lemma SnapshotSmall(identity: Value, x: Texts, s: Snapshot, children: nat)
    requires s.binding == Sample(identity, x).binding && s.limits == ONE_BYTE && s.signer == Sample(identity, x).signer
    requires s.revision < 10 && Small(identity, 10000) && Small(ChildrenValue(x, s.children), children)
    ensures Small(SnapshotValue(x, s), children + 1000000)
  {
    hide Small, Record, Tidy, T, S, SnapshotPairs, BudgetCopy, ChildrenValue, Envelope;
    SnapshotPairsTidy(identity, x, s);
    SnapshotPairsFew(x, s);
    BudgetSmall(identity, x, 10000);
    Larger(identity, 10000, 70000);
    ValuePair("task_identity", identity, 70000);
    ValuePair("budget", BudgetCopy(x, s.binding, s.limits), 70000);
    ValuePair("children", ChildrenValue(x, s.children), children);
    var two := [(T("task_identity"), identity), (T("budget"), BudgetCopy(x, s.binding, s.limits))];
    var big := (T("children"), ChildrenValue(x, s.children));
    TidyLarger(SnapshotPairs(x, s), 20000, 70000);
    var flat := SnapshotPairs(x, s) + two;
    RecordSmall(flat, big, 70000, children);
    assert flat + [big] == SnapshotPairs(x, s) + [two[0], two[1], big];
    Larger(SnapshotBody(x, s), Room(12, 70000) + children + KEY_BYTES, children + 900000);
    EnvelopeSmall(x, s.signer.producer, x.snapshotSignature(s), x.snapshotSha(s), SnapshotBody(x, s), children + 900000);
    Larger(SnapshotValue(x, s), children + 935000, children + 1000000);
  }

  lemma TidyLarger(pairs: seq<(Text, Value)>, m: nat, n: nat)
    requires m <= n && AllTidy(pairs, m)
    ensures AllTidy(pairs, n)
  {
    hide Render, Size, SurrogateFree;
    forall i | 0 <= i < |pairs| ensures Tidy(pairs[i], n) {
      assert Tidy(pairs[i], m);
    }
  }

  /** The first snapshot is published whenever the identity is short, however deep it nests. */
  lemma CreatedFits(identity: Value, x: Texts)
    requires Small(identity, 10000)
    ensures Fits(SnapshotValue(x, Created(Sample(identity, x))))
  {
    hide Small, Tidy, T, S, Record, SnapshotValue;
    var s := Created(Sample(identity, x));
    var c := Child("c", None, None, None, None, None);
    assert s.children == [c];
    TextPair("child_id", "c", 800);
    EmptySlots(x, c);
    var slots := SlotPairs(x, c);
    RecordTidy(ChildPairs(c) + slots, 800);
    ListOfOne(ChildValue(x, c), Room(6, 800));
    assert ChildrenValue(x, s.children) == Arr([ChildValue(x, c)]);
    hide ChildrenValue, ChildValue;
    SnapshotSmall(identity, x, s, Room(6, 800) + 3);
    SmallFits(SnapshotValue(x, s), Room(6, 800) + 1000003);
  }

  lemma EmptySlots(x: Texts, c: Child)
    requires Empty(c)
    ensures AllTidy(SlotPairs(x, c), 800)
  {
    SlotFields(c, Null);
    hide Small, Tidy, T;
    SmallScalars(800);
    ValuePair("reservation", Null, 800);
    ValuePair("dispatch", Null, 800);
    ValuePair("completion", Null, 800);
    ValuePair("settlement", Null, 800);
  }

  lemma SmallFits(v: Value, n: nat)
    requires Small(v, n) && n <= MAX_BYTES
    ensures Fits(v)
  {
    hide Render, Size;
  }

  /** The event the first hold records. */
  function Held(cfg: Config): Event
  {
    var id := EventId(ReservationKind, cfg.binding, "c", "t");
    Event(id, "n", Reservation(id, "n", ONE_BYTE), cfg.signer)
  }

  function HeldChild(cfg: Config): Child
  {
    Child("c", Some("t"), Some(Held(cfg)), None, None, None)
  }

  lemma IdSmall(x: Texts, id: EventId, n: nat)
    requires n >= STRING_BYTES
    ensures Small(Str(IdText(x, id)), n)
  {
    ShaText(x.bindSha(id), n);
    SmallText(IdText(x, id));
    Larger(Str(IdText(x, id)), STRING_BYTES, n);
    hide Small;
  }

  lemma HeldFieldsTidy(x: Texts, cfg: Config)
    ensures AllTidy(FieldPairs(x, Held(cfg).fields), 7000)
    ensures |FieldPairs(x, Held(cfg).fields)| == 4
  {
    hide Small, Tidy, T, S, RowsValue, IdText;
    IdSmall(x, Held(cfg).eventId, 7000);
    ValuePair("reservation_id", Str(IdText(x, Held(cfg).eventId)), 7000);
    TextPair("issued_at", "n", 7000);
    TextPair("state", "RESERVED_LOCAL_HOLD", 7000);
    RowsSmall(x, "reserved_amount");
    ValuePair("resource_rows", RowsValue(x, ONE_BYTE, "reserved_amount"), 7000);
  }

  lemma HeldPairsTidy(identity: Value, x: Texts)
    ensures AllTidy(EventPairs(x, Held(Sample(identity, x))), 7000)
    ensures |EventPairs(x, Held(Sample(identity, x)))| == 19
  {
    hide Small, Tidy, T, S, Strings, ArtifactValue, FieldPairs, IdText;
    var e := Held(Sample(identity, x));
    var b := e.eventId.binding;
    TextPair("task_key", b.taskKey, 7000);
    TextPair("child_id", e.eventId.childId, 7000);
    TextPair("attempt_id", e.eventId.childAttempt, 7000);
    TextPair("parent_operation_id", b.operationId, 7000);
    TextPair("parent_attempt_id", b.attemptId, 7000);
    TextPair("parent_start_sha256", b.startSha256, 7000);
    ArtifactSmall(b.basis);
    Larger(ArtifactValue(b.basis), 3500, 7000);
    ValuePair("basis_artifact", ArtifactValue(b.basis), 7000);
    ListPairs(7000);
    TextPair("budget_id", b.budgetId, 7000);
    TextPair("budget_sha256", b.budgetSha256, 7000);
    TextPair("schema", "vfy.child-" + KindName(e.eventId.kind) + "/1", 7000);
    IdSmall(x, e.eventId, 7000);
    ValuePair("event_id", Str(IdText(x, e.eventId)), 7000);
    TextPair("recorded_at", e.recordedAt, 7000);
    SmallScalars(7000);
    ValuePair("authority_granted", Bool(false), 7000);
    ValuePair("automatic_retry", Bool(false), 7000);
    HeldFieldsTidy(x, Sample(identity, x));
  }

  lemma HeldSmall(identity: Value, x: Texts)
    requires Small(identity, 10000)
    ensures Small(EventValue(x, Held(Sample(identity, x))), 200000)
  {
    hide Small, Tidy, T, S, Record, EventPairs, Envelope;
    var e := Held(Sample(identity, x));
    HeldPairsTidy(identity, x);
    ValuePair("task_identity", identity, 10000);
    var body := Record(EventPairs(x, e) + [(T("task_identity"), identity)]);
    RecordSmall(EventPairs(x, e), (T("task_identity"), identity), 7000, 10000);
    Larger(body, Room(20, 7000) + 10000 + KEY_BYTES, 160000);
    EnvelopeSmall(x, "p", x.eventSignature(e), x.eventSha(e), body, 160000);
    Larger(EventValue(x, e), 195000, 200000);
  }

  lemma HeldChildSmall(identity: Value, x: Texts)
    requires Small(identity, 10000)
    ensures Small(ChildrenValue(x, [HeldChild(Sample(identity, x))]), 1500000)
  {
    hide Small, Tidy, T, S, Record, EventValue;
    var c := HeldChild(Sample(identity, x));
    HeldSmall(identity, x);
    TextPair("child_id", "c", 200000);
    TextPair("attempt_id", "t", 200000);
    SmallScalars(200000);
    ValuePair("reservation", EventValue(x, c.reservation.value), 200000);
    ValuePair("dispatch", Null, 200000);
    ValuePair("completion", Null, 200000);
    ValuePair("settlement", Null, 200000);
    RecordTidy(ChildPairs(c) + SlotPairs(x, c), 200000);
    ListOfOne(ChildValue(x, c), Room(7, 200000));
    assert ChildrenValue(x, [c]) == Arr([ChildValue(x, c)]);
    Larger(Arr([ChildValue(x, c)]), Room(7, 200000) + 3, 1500000);
  }

  /** The snapshot after the first hold is published too, as far as its size goes. */
  lemma HoldPublishes(identity: Value, x: Texts)
    requires Small(identity, 10000) && Verified(Sample(identity, x), Created(Sample(identity, x)))
    ensures Step(Sample(identity, x), Created(Sample(identity, x)), FIRST_HOLD).Some?
  {
    hide Small, SnapshotValue, ChildrenValue, HeldChild, ChildOk, Sound, Fits, LoadsBackAtAnySize, Changed;
    var cfg := Sample(identity, x);
    var s := Created(cfg);
    assert AllChildrenOk(cfg, s.children) by { EmptyChildOk(cfg); }
    hide Verified;
    HoldChanges(identity, x);
    HeldChildSmall(identity, x);
    var next := Snapshot(s.binding, s.limits, 1, Some(s), [HeldChild(cfg)], cfg.signer);
    SnapshotSmall(identity, x, next, 1500000);
    SmallFits(SnapshotValue(x, next), 2500000);
    assert s.children[0 := HeldChild(cfg)] == [HeldChild(cfg)];
  }

  lemma EmptyChildOk(cfg: Config)
    ensures AllChildrenOk(cfg, Created(cfg).children)
  {
  }

  lemma HoldChanges(identity: Value, x: Texts)
    requires AllChildrenOk(Sample(identity, x), Created(Sample(identity, x)).children)
    ensures Changed(Sample(identity, x), Created(Sample(identity, x)), FIRST_HOLD) == Some((0, HeldChild(Sample(identity, x))))
  {
    var cfg := Sample(identity, x);
    var s := Created(cfg);
    OneByteOk();
    NothingYet(s.children, |s.children|, ConsoleBytes);
    assert AmountOn(ONE_BYTE, ConsoleBytes) == Some(1.0) by { assert ONE_BYTE[..0] == []; }
    assert Affordable(s, ONE_BYTE);
    hide RowsOk, AllKnown, Affordable, Exposure, AxesMap;
    assert s.children[0].childId == "c";
    assert IndexOfChild(s.children, "c", 0) == 0;
  }

  // --- the identities ----------------------------------------------------------------------------------

  function Nest(k: nat): Value
  {
    if k == 0 then Null else Arr([Nest(k - 1)])
  }

  function Subject(): (Text, Value)
  {
    (T("subject_sha256"), S(Zeros()))
  }

  /** An identity that nests `d` deep and one that is as long as its padding. */
  function DeepIdentity(d: nat): Value
    requires d >= 1
  {
    Record([Subject(), (T("deep"), Nest(d - 1))])
  }

  function LongIdentity(pad: Text): Value
  {
    Record([Subject(), (T("pad"), Str(pad))])
  }

  lemma {:induction false} NestDepth(k: nat, n: nat)
    ensures Reading.DepthAtMost(Nest(k), n) <==> k <= n
    ensures Small(Nest(k), 4 + 3 * k)
  {
    hide Small, Reading.DepthAtMost;
    SmallScalars(5);
    if k == 0 {
      NullSmall();
    } else {
      ArrAtMost([Nest(k - 1)], n);
      assert [Nest(k - 1)][0] == Nest(k - 1);
      NestDepth(k - 1, if n == 0 then 0 else n - 1);
      ListOfOne(Nest(k - 1), 4 + 3 * (k - 1));
    }
  }

  lemma NullSmall()
    ensures Small(Null, 4) && forall n: int :: Reading.DepthAtMost(Null, n)
  {
    AsciiBytes(NULL_TEXT);
  }

  lemma KeysDiffer()
    ensures T("deep") != T("subject_sha256") && T("pad") != T("subject_sha256")
  {
    assert T("deep")[0] != T("subject_sha256")[0] && T("pad")[0] != T("subject_sha256")[0];
  }

  lemma SubjectCounts(second: (Text, Value))
    requires second.0 != T("subject_sha256")
    ensures IdentityOk(Record([Subject(), second]))
    ensures forall n: nat :: n >= STRING_BYTES ==> Tidy(Subject(), n)
  {
    forall n: nat | n >= STRING_BYTES ensures Tidy(Subject(), n) { TextPair("subject_sha256", Zeros(), n); }
    hide Tidy;
    var pairs := [Subject(), second];
    LastCounts(pairs, 0);
    assert pairs[0].1 == Str(T(Zeros()));
    ZerosHex();
    hide Members, T, Zeros;
  }

  lemma ZerosHex()
    ensures IsHex(T(Zeros()), 64)
  {
  }

  lemma DeepIdentityIs(d: nat)
    requires 1 <= d <= 64
    ensures IdentityOk(DeepIdentity(d)) && Small(DeepIdentity(d), 10000)
  {
    hide Small, Tidy, Record, T, Nest, Reading.DepthAtMost, IdentityOk;
    var second := (T("deep"), Nest(d - 1));
    KeysDiffer();
    SubjectCounts(second);
    NestDepth(d - 1, 0);
    Larger(Nest(d - 1), 4 + 3 * (d - 1), STRING_BYTES);
    ValuePair("deep", Nest(d - 1), STRING_BYTES);
    RecordTidy([Subject(), second], STRING_BYTES);
    Larger(DeepIdentity(d), Room(3, STRING_BYTES), 10000);
  }

  lemma DeepIdentityDepth(d: nat, n: nat)
    requires d >= 1 && n >= 1
    ensures Reading.DepthAtMost(DeepIdentity(d), n) <==> d <= n
  {
    hide T, Record, Nest, Reading.DepthAtMost;
    var second := (T("deep"), Nest(d - 1));
    ScalarPairs([Subject()], n - 1);
    NestDepth(d - 1, n - 1);
    RecordDepth([Subject()], [second], n);
    assert [Subject()] + [second] == [Subject(), second];
    assert PairsAtMost([second], n - 1) <==> Reading.DepthAtMost([second][0].1, n - 1);
  }

  /** An identity 59 to 61 deep: the ledger is created, verifies, and publishes its first hold; and what that
      leaves is refused by every later operation, for good. */
  lemma DeepIdentityStops(d: nat, x: Texts, change: Change)
    requires 59 <= d <= 61
    ensures var cfg := Sample(DeepIdentity(d), x);
            var held := Step(cfg, Created(cfg), FIRST_HOLD);
            && ConfigOk(cfg) && Verified(cfg, Created(cfg))
            && held.Some? && !Verified(cfg, held.value) && Step(cfg, held.value, change) == None
  {
    var identity := DeepIdentity(d);
    var cfg := Sample(identity, x);
    DeepIdentityIs(d);
    hide Small, IdentityOk, Reading.DepthAtMost, ConfigOk, Verified, Step, Fits, SnapshotValue, Created, DeepIdentity, Sound;
    DeepIdentityDepth(d, 63);
    DeepIdentityDepth(d, 61);
    DeepIdentityDepth(d, 58);
    Larger(identity, 10000, 3 * 1024 * 1024);
    SampleOk(identity, x);
    CreatedFits(identity, x);
    CreatedSound(cfg);
    SoundVerifies(cfg, Created(cfg));
    HoldPublishes(identity, x);
    ConfigTrusts(cfg);
    StepVerifies(cfg, Created(cfg), FIRST_HOLD);
    var held := Step(cfg, Created(cfg), FIRST_HOLD).value;
    if Step(cfg, held, change).Some? { StepParts(cfg, held, change); }
  }

  /** One 62 or 63 deep: what creating writes is small enough, and already cannot be read back. */
  lemma DeeperIdentityUnreadable(d: nat, x: Texts)
    requires 62 <= d <= 63
    ensures var cfg := Sample(DeepIdentity(d), x);
            ConfigOk(cfg) && Fits(SnapshotValue(x, Created(cfg))) && !Verified(cfg, Created(cfg))
  {
    var identity := DeepIdentity(d);
    var cfg := Sample(identity, x);
    DeepIdentityIs(d);
    hide Small, IdentityOk, Reading.DepthAtMost, ConfigOk, Verified, Fits, SnapshotValue, Created, DeepIdentity, Sound;
    DeepIdentityDepth(d, 63);
    DeepIdentityDepth(d, 61);
    Larger(identity, 10000, 3 * 1024 * 1024);
    SampleOk(identity, x);
    CreatedFits(identity, x);
    CreatedSound(cfg);
    SoundVerifies(cfg, Created(cfg));
  }

  lemma LongIdentityIs(pad: Text)
    requires IsHex(pad, |pad|)
    ensures IdentityOk(LongIdentity(pad)) && Small(LongIdentity(pad), |pad| + 3000)
    ensures Size(Render(LongIdentity(pad))) >= |pad|
    ensures Reading.DepthAtMost(LongIdentity(pad), 63)
  {
    hide Small, Tidy, Record, T, Reading.DepthAtMost, IdentityOk, Render, Size, IsHex;
    var second := (T("pad"), Str(pad));
    KeysDiffer();
    SubjectCounts(second);
    HexStringSize(pad);
    SmallBySize(Str(pad), |pad| + 2);
    var pairs := [Subject(), second];
    ScalarPairs(pairs, 62);
    ValuePair("pad", Str(pad), |pad| + 2);
    assert [Subject()] + [second] == pairs;
    assert [Subject()][0] == Subject();
    RecordSmall([Subject()], second, STRING_BYTES, |pad| + 2);
    Larger(LongIdentity(pad), Room(2, STRING_BYTES) + |pad| + 2 + KEY_BYTES, |pad| + 3000);
    SmallRenders(LongIdentity(pad), |pad| + 3000);
    RecordAtLeast(pairs, 0, 1);
    RecordAtMost(pairs, 63);
  }

  lemma SmallBySize(v: Value, n: nat)
    requires Render(v).Ok? && Size(Render(v)) <= n
    ensures Small(v, n)
  {
  }

  lemma SmallRenders(v: Value, n: nat)
    requires Small(v, n)
    ensures Render(v).Ok? && Size(Render(v)) <= n
  {
  }

  /** A flat identity with a text of more than 2 MiB in it: start and budget are accepted, and no operation on
      the ledger ever is. */
  lemma LongIdentityStops(pad: Text, x: Texts, actions: seq<Action>, change: Change)
    requires IsHex(pad, |pad|) && 2 * 1024 * 1024 < |pad| <= 3 * 1024 * 1024 - 3000
    ensures var cfg := Sample(LongIdentity(pad), x);
            && ConfigOk(cfg) && !Verified(cfg, Created(cfg))
            && Run(cfg, Start(cfg), actions).state == Created(cfg) && Step(cfg, Created(cfg), change) == None
  {
    LongIdentityIs(pad);
    var identity := LongIdentity(pad);
    hide Small, IdentityOk, Reading.DepthAtMost, ConfigOk, Verified, Created, LongIdentity, Step, Run, Render, IsHex;
    Larger(identity, |pad| + 3000, 3 * 1024 * 1024);
    SmallRenders(identity, 3 * 1024 * 1024);
    SampleOk(identity, x);
    CreatedTooBig(Sample(identity, x), actions, change);
  }
}
