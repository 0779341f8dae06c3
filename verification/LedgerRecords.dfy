/** The records of the child-budget ledger of vfy/child_ledger.py: resource tables, events, snapshots, and
    the canonical values they are written as. */
module LedgerRecords {
  import opened Wrappers
  import opened Text
  import opened Values
  import opened Canon
  import opened DepthScan
  import opened Sizes

  const MAX_BYTES: nat := 4 * 1024 * 1024
  const VERSION := "0.1.0a7"

  // --- axes and amounts --------------------------------------------------------------------------------

  /** The axes the ledger budgets; any other name is refused wherever it appears. */
  datatype Axis = ProcessCpuSeconds | WallSeconds | ConsoleBytes | Undeclared(name: string)

  const AXIS_COUNT := 3

  /** The unit, aggregation and scope an axis must be stated in. */
  function Tags(a: Axis): (string, string, string)
  {
    match a
    case ProcessCpuSeconds => ("second", "SUM", "DIRECT_CHILD_PROCESS_CPU")
    case WallSeconds => ("second", "SUM", "CHILD_INTERVAL_SUM_NOT_PARENT_ELAPSED")
    case ConsoleBytes => ("byte", "SUM", "DIRECT_CHILD_CAPTURED_OUTPUT")
    case Undeclared(_) => ("", "", "")
  }

  /** One row of a resource table; an amount of None is the text UNKNOWN. */
  datatype Row = Row(axis: Axis, tags: (string, string, string), amount: Option<real>)

  predicate RowOk(r: Row)
  {
    !r.axis.Undeclared? && r.tags == Tags(r.axis) && (r.amount.Some? ==> r.amount.value >= 0.0)
  }

  /** At least one row, known axes with their own units, no axis twice. */
  predicate RowsOk(rows: seq<Row>)
  {
    && 0 < |rows| <= AXIS_COUNT
    && (forall i :: 0 <= i < |rows| ==> RowOk(rows[i]))
    && (forall i, j :: 0 <= i < j < |rows| ==> rows[i].axis != rows[j].axis)
  }

  predicate AllKnown(rows: seq<Row>)
  {
    forall i :: 0 <= i < |rows| ==> rows[i].amount.Some?
  }

  function AxesMap(rows: seq<Row>): map<Axis, Option<real>>
  {
    if rows == [] then map[] else AxesMap(rows[..|rows| - 1])[rows[|rows| - 1].axis := rows[|rows| - 1].amount]
  }

  /** The known amount on an axis, if there is one. */
  function AmountOn(rows: seq<Row>, axis: Axis): Option<real>
  {
    var m := AxesMap(rows);
    if axis in m then m[axis] else None
  }

  lemma {:induction false} AxesMapHolds(rows: seq<Row>)
    ensures forall a :: a in AxesMap(rows) <==> exists i :: 0 <= i < |rows| && rows[i].axis == a
    ensures (forall i, j :: 0 <= i < j < |rows| ==> rows[i].axis != rows[j].axis)
            ==> forall i :: 0 <= i < |rows| ==> AxesMap(rows)[rows[i].axis] == rows[i].amount
  {
    if rows != [] {
      var before, last := rows[..|rows| - 1], rows[|rows| - 1];
      AxesMapHolds(before);
      assert forall i :: 0 <= i < |before| ==> before[i] == rows[i];
      forall a ensures a in AxesMap(rows) <==> exists i :: 0 <= i < |rows| && rows[i].axis == a {
        if a in AxesMap(before) {
          var i :| 0 <= i < |before| && before[i].axis == a;
          assert rows[i].axis == a;
        } else if a != last.axis {
          assert forall i :: 0 <= i < |before| ==> before[i].axis != a;
        }
      }
    }
  }

  lemma AxisSeen(rows: seq<Row>, i: nat)
    requires i < |rows|
    requires forall j, k :: 0 <= j < k < i ==> rows[j].axis != rows[k].axis
    ensures rows[i].axis in AxesMap(rows[..i]) <==> exists k :: 0 <= k < i && rows[k].axis == rows[i].axis
    ensures AxesMap(rows[..i + 1]) == AxesMap(rows[..i])[rows[i].axis := rows[i].amount]
  {
    AxesMapHolds(rows[..i]);
    assert rows[..i + 1][..i] == rows[..i];
    assert forall k :: 0 <= k < i ==> rows[..i][k] == rows[k];
  }

  /** The rows as a map, when they are a table of distinct known axes. */
  method Axes(rows: seq<Row>) returns (r: Option<map<Axis, Option<real>>>)
    ensures r == if RowsOk(rows) then Some(AxesMap(rows)) else None
  {
    if |rows| == 0 || |rows| > AXIS_COUNT { return None; }
    var result: map<Axis, Option<real>> := map[];
    for i := 0 to |rows|
      invariant result == AxesMap(rows[..i])
      invariant forall k :: 0 <= k < i ==> RowOk(rows[k])
      invariant forall j, k :: 0 <= j < k < i ==> rows[j].axis != rows[k].axis
    {
      AxisSeen(rows, i);
      hide AxesMap, RowOk;
      if rows[i].axis in result || !RowOk(rows[i]) { return None; }
      result := result[rows[i].axis := rows[i].amount];
    }
    assert rows[..|rows|] == rows;
    return Some(result);
  }

  // --- events, with ideal digests and signatures -------------------------------------------------------

  predicate IsText(s: string)
  {
    0 < |s| <= 4096
  }

  predicate IsHex64(s: string)
  {
    |s| == 64 && forall c :: c in s ==> '0' <= c <= '9' || 'a' <= c <= 'f'
  }

  /** A digest and a signature in hexadecimal, and the canonical spelling of an amount. */
  type Sha = t: Text | IsHex(t, 64) witness seq(64, _ => ZERO)
  type Signature = t: Text | IsHex(t, 128) witness seq(128, _ => ZERO)
  type Spelling = t: Text | |t| <= 64 && SurrogateFree(t) witness []

  datatype Artifact = Artifact(path: string, sha256: string)

  predicate ArtifactOk(a: Artifact)
  {
    IsText(a.path) && IsHex64(a.sha256)
  }

  /** What ties a ledger to one parent attempt and one budget. */
  datatype Binding = Binding(taskKey: string, taskIdentity: Value, operationId: string, attemptId: string,
                             startSha256: string, basis: Artifact, expectedIds: seq<string>,
                             budgetId: string, budgetSha256: string)

  datatype Kind = ReservationKind | DispatchKind | CompletionKind | SettlementKind

  /** An event id is the kind and the digest of what the event is bound to; the digest is injective. */
  datatype EventId = EventId(kind: Kind, binding: Binding, childId: string, childAttempt: string)

  datatype Performed = Performed | NotPerformed | UnknownService

  datatype Measured = Recorded | PartialOrUnknown

  datatype SettledRow = SettledRow(measured: Row, settled: Option<real>)

  datatype Fields =
    | Reservation(reservationId: EventId, issuedAt: string, rows: seq<Row>)
    | Dispatch(dispatched: EventId, dispatchOf: Digest)
    | Completion(completed: EventId, completionOf: Digest, performed: Performed, measured: Measured,
                 observation: Artifact, measuredRows: seq<Row>)
    | Settlement(settled: EventId, settlementOf: Digest, completionSha256: Digest, settlementId: (EventId, Digest),
                 settledAt: string, settledPerformed: Performed, settledMeasured: Measured, settledRows: seq<SettledRow>)

  datatype Signer = Signer(issuer: string, producer: string, key: string)

  /** A signed event; `signer` stands for a signature only that key can make. */
  datatype Event = Event(eventId: EventId, recordedAt: string, fields: Fields, signer: Signer)

  /** The digest of a signed event determines the event. */
  datatype Digest = DigestOf(event: Event)

  datatype Child = Child(childId: string, attemptId: Option<string>, reservation: Option<Event>,
                         dispatch: Option<Event>, completion: Option<Event>, settlement: Option<Event>)

  /** A published state; `previous` is the snapshot its previous_snapshot_sha256 names. */
  datatype Snapshot = Snapshot(binding: Binding, limits: seq<Row>, revision: nat, previous: Option<Snapshot>,
                               children: seq<Child>, signer: Signer)

  const KINDS := [ReservationKind, DispatchKind, CompletionKind, SettlementKind]

  function Slot(c: Child, kind: Kind): Option<Event>
  {
    match kind
    case ReservationKind => c.reservation
    case DispatchKind => c.dispatch
    case CompletionKind => c.completion
    case SettlementKind => c.settlement
  }

  /** How the ideal digests, signatures and amounts are written. */
  datatype Texts = Texts(eventSha: Event -> Sha, bindSha: EventId -> Sha, settlementSha: ((EventId, Digest)) -> Sha,
                         snapshotSha: Snapshot -> Sha, eventSignature: Event -> Signature,
                         snapshotSignature: Snapshot -> Signature, spell: real -> Spelling)

  /** What a ledger is opened with: the binding and limits of an accepted start and budget, the signer and
      whom it trusts, and the texts digests, signatures and amounts are written as. */
  datatype Config = Config(binding: Binding, limits: seq<Row>, signer: Signer, trust: map<string, (string, string)>,
                           texts: Texts)

  predicate Trusts(cfg: Config, s: Signer)
  {
    s.issuer in cfg.trust && cfg.trust[s.issuer] == (s.key, s.producer)
  }

  predicate Distinct(ids: seq<string>)
  {
    forall i, j :: 0 <= i < j < |ids| ==> ids[i] != ids[j]
  }

  function IdOf(cfg: Config, kind: Kind, c: Child): EventId
    requires c.attemptId.Some?
  {
    EventId(kind, cfg.binding, c.childId, c.attemptId.value)
  }

  function SettledRows(rows: seq<Row>, performed: Performed): (r: seq<SettledRow>)
    ensures |r| == |rows|
  {
    seq(|rows|, i requires 0 <= i < |rows| =>
      SettledRow(rows[i], if performed != UnknownService then rows[i].amount else None))
  }

  /** The settled column as a table of its own. */
  function SettledColumn(rows: seq<SettledRow>): (r: seq<Row>)
    ensures |r| == |rows|
  {
    seq(|rows|, i requires 0 <= i < |rows| => rows[i].measured.(amount := rows[i].settled))
  }

  // --- the canonical values that are written -----------------------------------------------------------

  /** A text of the source's own, as code points. */
  function T(s: string): (t: Text)
    ensures |t| == |s| && SurrogateFree(t)
    ensures forall i :: 0 <= i < |s| ==> t[i] == s[i] as int
  {
    seq(|s|, i requires 0 <= i < |s| => s[i] as int)
  }

  function S(s: string): Value
  {
    Str(T(s))
  }

  function Members(pairs: seq<(Text, Value)>): map<Text, Value>
  {
    if pairs == [] then map[] else Members(pairs[..|pairs| - 1])[pairs[|pairs| - 1].0 := pairs[|pairs| - 1].1]
  }

  /** An object written as its pairs; where a key repeats the last one counts. */
  function Record(pairs: seq<(Text, Value)>): Value
  {
    Obj(Members(pairs))
  }

  function Strings(ss: seq<string>): Value
  {
    Arr(seq(|ss|, i requires 0 <= i < |ss| => S(ss[i])))
  }

  function ArtifactValue(a: Artifact): Value
  {
    Record([(T("path"), S(a.path)), (T("sha256"), S(a.sha256))])
  }

  function AxisName(a: Axis): string
  {
    match a
    case ProcessCpuSeconds => "local_process_cpu_seconds"
    case WallSeconds => "local_wall_observations_seconds"
    case ConsoleBytes => "captured_console_bytes"
    case Undeclared(name) => name
  }

  function AmountValue(x: Texts, amount: Option<real>): Value
  {
    if amount.Some? then Str(x.spell(amount.value)) else S("UNKNOWN")
  }

  function RowPairs(r: Row): seq<(Text, Value)>
  {
    [(T("axis_id"), S(AxisName(r.axis))), (T("unit"), S(r.tags.0)), (T("aggregation"), S(r.tags.1)), (T("scope"), S(r.tags.2))]
  }

  function RowValue(x: Texts, r: Row, field: string): Value
  {
    Record(RowPairs(r) + [(T(field), AmountValue(x, r.amount))])
  }

  function RowsValue(x: Texts, rows: seq<Row>, field: string): Value
  {
    Arr(seq(|rows|, i requires 0 <= i < |rows| => RowValue(x, rows[i], field)))
  }

  function SettledRowsValue(x: Texts, rows: seq<SettledRow>): Value
  {
    Arr(seq(|rows|, i requires 0 <= i < |rows| =>
      Record(RowPairs(rows[i].measured) + [(T("measured_amount"), AmountValue(x, rows[i].measured.amount)),
                                           (T("settled_amount_or_UNKNOWN"), AmountValue(x, rows[i].settled))])))
  }

  function ProducerPairs(producer: string): seq<(Text, Value)>
  {
    [(T("component"), S("verify-run")), (T("version"), S(VERSION)), (T("source_sha256"), S(producer)),
     (T("source_identity_scope"), S("child_ledger.py"))]
  }

  /** The signed envelope; what it carries comes last. */
  function Envelope(signer: Signer, signature: Signature, sha256: Sha, body: Value): Value
  {
    Record([(T("issuer_identity"), S(signer.issuer)),
            (T("producer_identity"), Record(ProducerPairs(signer.producer))),
            (T("signature"), Str(signature)), (T("sha256"), Str(sha256)),
            (T("body"), body)])
  }

  function KindName(k: Kind): string
  {
    match k
    case ReservationKind => "reservation"
    case DispatchKind => "dispatch"
    case CompletionKind => "completion"
    case SettlementKind => "settlement"
  }

  function IdText(x: Texts, id: EventId): Text
  {
    T(KindName(id.kind)) + [DASH] + x.bindSha(id)
  }

  function PerformedName(p: Performed): string
  {
    match p
    case Performed => "PERFORMED"
    case NotPerformed => "NOT_PERFORMED"
    case UnknownService => "UNKNOWN"
  }

  function MeasuredName(m: Measured): string
  {
    if m.Recorded? then "RECORDED_PRODUCER_OBSERVATION" else "PARTIAL_OR_UNKNOWN"
  }

  function FieldPairs(x: Texts, f: Fields): seq<(Text, Value)>
  {
    match f
    case Reservation(id, at, rows) =>
      [(T("reservation_id"), Str(IdText(x, id))), (T("issued_at"), S(at)), (T("state"), S("RESERVED_LOCAL_HOLD")),
       (T("resource_rows"), RowsValue(x, rows, "reserved_amount"))]
    case Dispatch(id, r) =>
      [(T("reservation_id"), Str(IdText(x, id))), (T("reservation_sha256"), Str(x.eventSha(r.event))),
       (T("state"), S("INTENT_RECORDED_NOT_PROOF_OF_LAUNCH"))]
    case Completion(id, r, performed, measured, observation, rows) =>
      [(T("reservation_id"), Str(IdText(x, id))), (T("reservation_sha256"), Str(x.eventSha(r.event))),
       (T("service_performed"), S(PerformedName(performed))), (T("resource_measured"), S(MeasuredName(measured))),
       (T("financial_or_external_settlement"), S("UNKNOWN")), (T("observation"), ArtifactValue(observation)),
       (T("measurement_assurance"), S("TRUSTED_PRODUCER_OBSERVATION_INPUT_NOT_INDEPENDENTLY_MEASURED_BY_LEDGER")),
       (T("resource_rows"), RowsValue(x, rows, "measured_amount"))]
    case Settlement(id, r, done, settlementId, at, performed, measured, rows) =>
      [(T("settled_at"), S(at)), (T("settlement_id"), Str(T("settlement-") + x.settlementSha(settlementId))),
       (T("reservation_id"), Str(IdText(x, id))), (T("reservation_sha256"), Str(x.eventSha(r.event))),
       (T("completion_sha256"), Str(x.eventSha(done.event))),
       (T("service_performed"), S(PerformedName(performed))), (T("resource_measured"), S(MeasuredName(measured))),
       (T("financial_or_external_settlement"), S("UNKNOWN")), (T("state"), S("LOCAL_RESOURCE_ACCOUNTING_ONLY")),
       (T("resource_rows"), SettledRowsValue(x, rows))]
  }

  /** All of an event's body but the identity. */
  function EventPairs(x: Texts, e: Event): seq<(Text, Value)>
  {
    var b := e.eventId.binding;
    [(T("task_key"), S(b.taskKey)), (T("child_id"), S(e.eventId.childId)), (T("attempt_id"), S(e.eventId.childAttempt)),
     (T("parent_operation_id"), S(b.operationId)), (T("parent_attempt_id"), S(b.attemptId)),
     (T("parent_start_sha256"), S(b.startSha256)), (T("basis_artifact"), ArtifactValue(b.basis)),
     (T("expected_child_ids"), Strings(b.expectedIds)), (T("budget_id"), S(b.budgetId)),
     (T("budget_sha256"), S(b.budgetSha256)), (T("schema"), S("vfy.child-" + KindName(e.eventId.kind) + "/1")),
     (T("event_id"), Str(IdText(x, e.eventId))), (T("recorded_at"), S(e.recordedAt)),
     (T("authority_granted"), Bool(false)), (T("automatic_retry"), Bool(false))]
    + FieldPairs(x, e.fields)
  }

  function EventValue(x: Texts, e: Event): Value
  {
    Envelope(e.signer, x.eventSignature(e), x.eventSha(e),
             Record(EventPairs(x, e) + [(T("task_identity"), e.eventId.binding.taskIdentity)]))
  }

  function SlotValue(x: Texts, e: Option<Event>): Value
  {
    if e.Some? then EventValue(x, e.value) else Null
  }

  function ChildPairs(c: Child): seq<(Text, Value)>
  {
    [(T("child_id"), S(c.childId))] + if c.attemptId.Some? then [(T("attempt_id"), S(c.attemptId.value))] else []
  }

  function SlotPairs(x: Texts, c: Child): seq<(Text, Value)>
  {
    [(T("reservation"), SlotValue(x, c.reservation)), (T("dispatch"), SlotValue(x, c.dispatch)),
     (T("completion"), SlotValue(x, c.completion)), (T("settlement"), SlotValue(x, c.settlement))]
  }

  function ChildValue(x: Texts, c: Child): Value
  {
    Record(ChildPairs(c) + SlotPairs(x, c))
  }

  function ChildrenValue(x: Texts, children: seq<Child>): Value
  {
    Arr(seq(|children|, i requires 0 <= i < |children| => ChildValue(x, children[i])))
  }

  function BudgetPairs(x: Texts, b: Binding, limits: seq<Row>): seq<(Text, Value)>
  {
    [(T("schema"), S("vfy.child-resource-budget/1")), (T("budget_id"), S(b.budgetId)), (T("task_key"), S(b.taskKey)),
     (T("parent_start_sha256"), S(b.startSha256)), (T("resource_rows"), RowsValue(x, limits, "limit"))]
  }

  function BudgetCopy(x: Texts, b: Binding, limits: seq<Row>): Value
  {
    Record(BudgetPairs(x, b, limits)
           + [(T("budget_sha256"), S(b.budgetSha256)), (T("domain"), S("THIS_LOCAL_LEDGER_ONLY")),
              (T("task_identity"), b.taskIdentity)])
  }

  /** All of a snapshot's body but the three parts the identity is in. */
  function SnapshotPairs(x: Texts, s: Snapshot): seq<(Text, Value)>
  {
    var b := s.binding;
    [(T("task_key"), S(b.taskKey)),
     (T("parent_binding"), Record([(T("operation_id"), S(b.operationId)), (T("attempt_id"), S(b.attemptId)),
                                   (T("start_sha256"), S(b.startSha256)), (T("basis_artifact"), ArtifactValue(b.basis))])),
     (T("expected_child_ids"), Strings(b.expectedIds)), (T("schema"), S("engineer.resource-child-ledger/2")),
     (T("revision"), Int(s.revision)),
     (T("previous_snapshot_sha256"), if s.previous.Some? then Str(x.snapshotSha(s.previous.value)) else Null),
     (T("unsupported_dimensions"), Strings(["provider", "host", "storage", "memory", "overlap", "financial", "undeclared_axes"])),
     (T("authority_granted"), Bool(false)), (T("automatic_retry"), Bool(false))]
  }

  function SnapshotBody(x: Texts, s: Snapshot): Value
  {
    Record(SnapshotPairs(x, s)
           + [(T("task_identity"), s.binding.taskIdentity), (T("budget"), BudgetCopy(x, s.binding, s.limits)),
              (T("children"), ChildrenValue(x, s.children))])
  }

  function SnapshotValue(x: Texts, s: Snapshot): Value
  {
    Envelope(s.signer, x.snapshotSignature(s), x.snapshotSha(s), SnapshotBody(x, s))
  }

  /** What publication checks: the record has canonical text of at most 4 MiB. */
  predicate Fits(v: Value)
  {
    Render(v).Ok? && Size(Render(v)) <= MAX_BYTES
  }

  /** What reading back checks besides: the loader takes that text. */
  predicate LoadsBackAtAnySize(v: Value)
  {
    Render(v).Ok? && LoadText(Render(v).value).Ok?
  }

  predicate LoadsBack(v: Value)
  {
    Fits(v) && LoadsBackAtAnySize(v)
  }

  /** The least parent start with a binding's content. */
  function StartOf(b: Binding): Value
  {
    Record([(T("state"), S("STARTED")), (T("automatic_retry"), Bool(false)), (T("task_key"), S(b.taskKey)),
            (T("operation_id"), S(b.operationId)), (T("attempt_id"), S(b.attemptId)),
            (T("native_child_population"), Record([(T("state"), S("DECLARED_BEFORE_DISPATCH")),
                                                   (T("expected_child_ids"), Strings(b.expectedIds))])),
            (T("input_artifacts"), Arr([ArtifactValue(b.basis)])),
            (T("task_identity"), b.taskIdentity)])
  }

  /** The budget as it is given. */
  function BudgetOf(x: Texts, b: Binding, limits: seq<Row>): Value
  {
    Record(BudgetPairs(x, b, limits) + [(T("task_identity"), b.taskIdentity)])
  }

  /** An object with the subject's digest in it, and anything else. */
  predicate IdentityOk(v: Value)
  {
    v.Obj? && T("subject_sha256") in v.members && v.members[T("subject_sha256")].Str?
    && IsHex(v.members[T("subject_sha256")].text, 64)
  }

  /** What creating a ledger demands of the parent start, the basis, the budget and the trust given. Some
      start and budget with this content are accepted exactly when the least ones are. */
  predicate ConfigOk(cfg: Config)
  {
    var b := cfg.binding;
    && IsText(b.taskKey) && IsText(b.operationId) && IsText(b.attemptId) && IsText(b.budgetId)
    && IdentityOk(b.taskIdentity) && IsHex64(b.startSha256) && IsHex64(b.budgetSha256) && ArtifactOk(b.basis)
    && 0 < |b.expectedIds| <= 128 && Distinct(b.expectedIds)
    && (forall i :: 0 <= i < |b.expectedIds| ==> IsText(b.expectedIds[i]))
    && RowsOk(cfg.limits) && AllKnown(cfg.limits)
    && Trusts(cfg, cfg.signer)
    && LoadsBack(StartOf(b)) && LoadsBackAtAnySize(BudgetOf(cfg.texts, b, cfg.limits))
  }
}
