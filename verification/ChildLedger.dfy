/** The child-budget ledger of vfy/child_ledger.py: holds, completions and settlements under a fixed
    budget, published one signed snapshot at a time. */
module ChildLedger {
  import opened Wrappers
  import opened Canon
  import opened Values
  import opened LedgerRecords

  // --- what the verifier demands -----------------------------------------------------------------------

  predicate SameAxes(rows: seq<Row>, limits: seq<Row>)
  {
    RowsOk(rows) && AxesMap(rows).Keys == AxesMap(limits).Keys
  }

  predicate EventOk(cfg: Config, c: Child, e: Event, kind: Kind)
    requires c.attemptId.Some?
  {
    Trusts(cfg, e.signer) && e.eventId == IdOf(cfg, kind, c)
  }

  predicate ReservationOk(cfg: Config, c: Child, e: Event)
    requires c.attemptId.Some?
  {
    && EventOk(cfg, c, e, ReservationKind) && e.fields.Reservation?
    && SameAxes(e.fields.rows, cfg.limits) && AllKnown(e.fields.rows)
    && e.fields.reservationId == e.eventId && e.fields.issuedAt == e.recordedAt
  }

  predicate DispatchOk(cfg: Config, c: Child, r: Event, e: Event)
    requires c.attemptId.Some?
  {
    && EventOk(cfg, c, e, DispatchKind) && e.fields.Dispatch?
    && e.fields.dispatched == r.eventId && e.fields.dispatchOf == DigestOf(r)
  }

  function MeasuredState(rows: seq<Row>): Measured
  {
    if AllKnown(rows) then Recorded else PartialOrUnknown
  }

  predicate CompletionOk(cfg: Config, c: Child, r: Event, e: Event)
    requires c.attemptId.Some?
  {
    && EventOk(cfg, c, e, CompletionKind) && e.fields.Completion?
    && e.fields.completed == r.eventId && e.fields.completionOf == DigestOf(r)
    && SameAxes(e.fields.measuredRows, cfg.limits)
    && e.fields.measured == MeasuredState(e.fields.measuredRows)
    && ArtifactOk(e.fields.observation)
  }

  predicate SettlementLinked(cfg: Config, c: Child, r: Event, e: Event)
    requires c.attemptId.Some?
  {
    && EventOk(cfg, c, e, SettlementKind) && e.fields.Settlement?
    && e.fields.settled == r.eventId && e.fields.settlementOf == DigestOf(r)
  }

  /** A settlement says what its completion measured, axis by axis, and nothing else. */
  predicate SettlementAgrees(r: Event, done: Event, e: Event)
    requires done.fields.Completion? && e.fields.Settlement?
  {
    && e.fields.completionSha256 == DigestOf(done)
    && e.fields.settlementId == (r.eventId, DigestOf(done))
    && e.fields.settledAt == e.recordedAt
    && e.fields.settledPerformed == done.fields.performed && e.fields.settledMeasured == done.fields.measured
    && e.fields.settledRows == SettledRows(done.fields.measuredRows, done.fields.performed)
  }

  predicate SlotOk(cfg: Config, c: Child, kind: Kind)
    requires c.attemptId.Some? && c.reservation.Some?
  {
    var e := Slot(c, kind);
    e.Some? ==>
      match kind
      case ReservationKind => ReservationOk(cfg, c, e.value)
      case DispatchKind => DispatchOk(cfg, c, c.reservation.value, e.value)
      case CompletionKind => CompletionOk(cfg, c, c.reservation.value, e.value)
      case SettlementKind => SettlementLinked(cfg, c, c.reservation.value, e.value)
  }

  /** The stages come in order and each agrees with the one before. */
  predicate StagesOk(c: Child)
    requires c.reservation.Some? && (c.completion.Some? ==> c.completion.value.fields.Completion?)
    requires c.settlement.Some? ==> c.settlement.value.fields.Settlement?
  {
    && (c.completion.Some? ==> c.dispatch.Some?)
    && (c.settlement.Some? ==>
          c.completion.Some? && SettlementAgrees(c.reservation.value, c.completion.value, c.settlement.value))
  }

  predicate ChildOk(cfg: Config, c: Child)
  {
    if c.reservation.None? then c.attemptId.None? && c.dispatch.None? && c.completion.None? && c.settlement.None?
    else
      && c.attemptId.Some? && IsText(c.attemptId.value)
      && SlotOk(cfg, c, ReservationKind) && SlotOk(cfg, c, DispatchKind)
      && SlotOk(cfg, c, CompletionKind) && SlotOk(cfg, c, SettlementKind)
      && StagesOk(c)
  }

  /** The events among a child's first `k` slots. */
  function EventsBefore(c: Child, k: nat): nat
  {
    (if k > 0 && c.reservation.Some? then 1 else 0) + (if k > 1 && c.dispatch.Some? then 1 else 0)
    + (if k > 2 && c.completion.Some? then 1 else 0) + (if k > 3 && c.settlement.Some? then 1 else 0)
  }

  function EventCount(c: Child): nat
  {
    EventsBefore(c, 4)
  }

  /** The events held by the first `n` children. */
  function EventTotal(children: seq<Child>, n: nat): nat
    requires n <= |children|
  {
    if n == 0 then 0 else EventTotal(children, n - 1) + EventCount(children[n - 1])
  }

  /** Among the first `n` children no attempt id is used twice. */
  predicate AttemptsDistinct(children: seq<Child>, n: nat)
    requires n <= |children|
  {
    forall i, j :: 0 <= i < j < n && children[i].attemptId.Some? ==> children[i].attemptId != children[j].attemptId
  }

  predicate InOrder(children: seq<Child>, ids: seq<string>)
  {
    |children| == |ids| && forall i :: 0 <= i < |ids| ==> children[i].childId == ids[i]
  }

  predicate AllChildrenOk(cfg: Config, children: seq<Child>)
  {
    forall i :: 0 <= i < |children| ==> ChildOk(cfg, children[i])
  }

  /** What a snapshot's own fields must say for the verifier to accept it. */
  predicate Sound(cfg: Config, s: Snapshot)
  {
    && Trusts(cfg, s.signer)
    && s.binding == cfg.binding && s.limits == cfg.limits
    && RowsOk(s.limits) && AllKnown(s.limits)
    && InOrder(s.children, s.binding.expectedIds)
    && AllChildrenOk(cfg, s.children)
    && AttemptsDistinct(s.children, |s.children|)
    && s.revision == EventTotal(s.children, |s.children|)
  }

  /** And its bytes must be few enough and load, which the verifier asks first. */
  predicate Verified(cfg: Config, s: Snapshot)
  {
    LoadsBack(SnapshotValue(cfg.texts, s)) && Sound(cfg, s)
  }

  // --- exposure ----------------------------------------------------------------------------------------

  function Max(x: real, y: real): real
  {
    if x < y then y else x
  }

  function OrZero(x: Option<real>): real
  {
    if x.Some? then x.value else 0.0
  }

  function Reserved(c: Child, axis: Axis): real
  {
    if c.reservation.Some? && c.reservation.value.fields.Reservation?
    then OrZero(AmountOn(c.reservation.value.fields.rows, axis)) else 0.0
  }

  function MeasuredOn(c: Child, axis: Axis): real
  {
    if c.completion.Some? && c.completion.value.fields.Completion?
    then OrZero(AmountOn(c.completion.value.fields.measuredRows, axis)) else 0.0
  }

  function SettledOn(c: Child, axis: Axis): Option<real>
  {
    if c.settlement.Some? && c.settlement.value.fields.Settlement?
    then AmountOn(SettledColumn(c.settlement.value.fields.settledRows), axis) else None
  }

  /** What a child commits on an axis: its settled amount, or else the larger of the hold and what was
      measured. */
  function ChildUse(c: Child, axis: Axis): real
  {
    if c.reservation.None? then 0.0
    else if SettledOn(c, axis).Some? then SettledOn(c, axis).value
    else Max(Reserved(c, axis), MeasuredOn(c, axis))
  }

  /** How far a completed child went over its hold. */
  function ChildOverrun(c: Child, axis: Axis): real
  {
    Max(0.0, MeasuredOn(c, axis) - Reserved(c, axis))
  }

  /** What the first `n` children commit on an axis. */
  function Exposure(children: seq<Child>, n: nat, axis: Axis): real
    requires n <= |children|
  {
    if n == 0 then 0.0 else Exposure(children, n - 1, axis) + ChildUse(children[n - 1], axis)
  }

  /** How far the first `n` children went over their holds, in all. */
  function Overruns(children: seq<Child>, n: nat, axis: Axis): real
    requires n <= |children|
  {
    if n == 0 then 0.0 else Overruns(children, n - 1, axis) + ChildOverrun(children[n - 1], axis)
  }

  lemma {:induction false} TotalsOfUpdate(children: seq<Child>, n: nat, i: nat, c: Child, axis: Axis)
    requires i < |children| && n <= |children|
    ensures Exposure(children[i := c], n, axis)
         == Exposure(children, n, axis) + if i < n then ChildUse(c, axis) - ChildUse(children[i], axis) else 0.0
    ensures Overruns(children[i := c], n, axis)
         == Overruns(children, n, axis) + if i < n then ChildOverrun(c, axis) - ChildOverrun(children[i], axis) else 0.0
    ensures EventTotal(children[i := c], n)
         == EventTotal(children, n) + if i < n then EventCount(c) - EventCount(children[i]) else 0
  {
    hide ChildUse, ChildOverrun, EventCount;
    if n > 0 { TotalsOfUpdate(children, n - 1, i, c, axis); }
  }

  // --- the verifier as a pass over the children --------------------------------------------------------

  /** What all the children commit, on every axis of the limits. */
  function Exposures(limits: seq<Row>, children: seq<Child>): map<Axis, real>
  {
    map a | a in AxesMap(limits) :: Exposure(children, |children|, a)
  }

  /** Exposure on every budgeted axis, child by child. */
  method Usage(cfg: Config, children: seq<Child>) returns (used: map<Axis, real>)
    requires RowsOk(cfg.limits) && AllChildrenOk(cfg, children)
    ensures used == Exposures(cfg.limits, children)
  {
    used := map a | a in AxesMap(cfg.limits) :: 0.0;
    hide ChildUse, ChildOk;
    for i := 0 to |children|
      invariant used.Keys == AxesMap(cfg.limits).Keys
      invariant forall a :: a in used ==> used[a] == Exposure(children, i, a)
    {
      used := AddUse(cfg, children[i], used);
    }
  }

  /** Row `j` of a table adds an axis the rows before it do not have. */
  lemma NextAxis(rows: seq<Row>, j: nat)
    requires RowsOk(rows) && j < |rows|
    ensures rows[j].axis !in AxesMap(rows[..j])
    ensures AxesMap(rows[..j + 1]).Keys == AxesMap(rows[..j]).Keys + {rows[j].axis}
    ensures AmountOn(rows, rows[j].axis) == rows[j].amount
  {
    AxesMapHolds(rows);
    AxesMapHolds(rows[..j]);
    assert rows[..j + 1][..j] == rows[..j];
  }

  lemma AxisInTable(rows: seq<Row>, j: nat)
    requires j < |rows|
    ensures rows[j].axis in AxesMap(rows)
  {
    AxesMapHolds(rows);
  }

  /** The value one row of a hold contributes. */
  function RowUse(c: Child, held: Row): real
  {
    var settled := SettledOn(c, held.axis);
    if settled.Some? then settled.value else Max(OrZero(held.amount), MeasuredOn(c, held.axis))
  }

  lemma RowUseIsChildUse(cfg: Config, c: Child, j: nat)
    requires ChildOk(cfg, c) && c.reservation.Some? && j < |c.reservation.value.fields.rows|
    ensures var row := c.reservation.value.fields.rows[j]; RowUse(c, row) == ChildUse(c, row.axis)
  {
    NextAxis(c.reservation.value.fields.rows, j);
    hide AxesMap, AmountOn;
  }

  method AddUse(cfg: Config, c: Child, before: map<Axis, real>) returns (used: map<Axis, real>)
    requires RowsOk(cfg.limits) && ChildOk(cfg, c) && before.Keys == AxesMap(cfg.limits).Keys
    ensures used.Keys == before.Keys
    ensures forall a :: a in used ==> used[a] == before[a] + ChildUse(c, a)
  {
    used := before;
    if c.reservation.None? { return; }
    var held := c.reservation.value.fields.rows;
    assert RowsOk(held) && AxesMap(held).Keys == before.Keys;
    hide ChildOk, RowsOk, AxesMap, ChildUse, RowUse, AmountOn;
    for j := 0 to |held|
      invariant used.Keys == before.Keys
      invariant forall a :: a in used ==> used[a] == before[a] + (if a in AxesMap(held[..j]) then ChildUse(c, a) else 0.0)
    {
      NextAxis(held, j);
      AxisInTable(held, j);
      RowUseIsChildUse(cfg, c, j);
      used := used[held[j].axis := used[held[j].axis] + RowUse(c, held[j])];
    }
    assert held[..|held|] == held;
  }

  /** What the verifier reports of an accepted snapshot. */
  datatype Report = Report(revision: nat, committed: map<Axis, real>, limitExceeded: bool, unknownChildren: seq<string>)

  /** Not yet settled on every axis, or of unknown service. */
  predicate Unresolved(c: Child)
  {
    || c.completion.None? || c.settlement.None?
    || (c.completion.value.fields.Completion? && c.completion.value.fields.performed == UnknownService)
    || (c.settlement.value.fields.Settlement?
        && exists k :: 0 <= k < |c.settlement.value.fields.settledRows| && c.settlement.value.fields.settledRows[k].settled.None?)
  }

  function UnresolvedIds(children: seq<Child>, n: nat): seq<string>
    requires n <= |children|
  {
    if n == 0 then []
    else UnresolvedIds(children, n - 1) + if Unresolved(children[n - 1]) then [children[n - 1].childId] else []
  }

  /** Settled, known to have been performed or not, and measured on every axis. */
  ghost predicate Concluded(c: Child)
  {
    && c.settlement.Some? && c.completion.Some? && c.completion.value.fields.Completion?
    && c.completion.value.fields.performed in {Performed.Performed, NotPerformed}
    && forall k :: 0 <= k < |c.completion.value.fields.measuredRows| ==> c.completion.value.fields.measuredRows[k].amount.Some?
  }

  lemma UnresolvedIsOpen(cfg: Config, c: Child)
    requires ChildOk(cfg, c)
    ensures Unresolved(c) <==> !Concluded(c)
  {
    if c.settlement.Some? && c.completion.Some? {
      assert SlotOk(cfg, c, CompletionKind) && SlotOk(cfg, c, SettlementKind);
      var done, paid := c.completion.value.fields, c.settlement.value.fields;
      assert paid.settledRows == SettledRows(done.measuredRows, done.performed);
      hide SlotOk, ChildOk, SettledRows;
      SettledRowsAre(done.measuredRows, done.performed);
      if k :| 0 <= k < |done.measuredRows| && done.measuredRows[k].amount.None? { assert paid.settledRows[k].settled.None?; }
    }
  }

  lemma SettledRowsAre(rows: seq<Row>, performed: Performed)
    ensures var settled := SettledRows(rows, performed);
            && |settled| == |rows|
            && forall k :: 0 <= k < |rows| ==> settled[k].settled == if performed == UnknownService then None else rows[k].amount
  {
  }

  /** The children reported as unknown are, in their order, those not settled with everything known: an operator who
      sees none knows every child was performed or not, and what it took on every axis. */
  lemma {:induction false} UnresolvedAre(cfg: Config, children: seq<Child>, n: nat) returns (at: seq<nat>)
    requires n <= |children| && forall i :: 0 <= i < |children| ==> ChildOk(cfg, children[i])
    ensures PicksOpen(children, n, at)
    ensures var ids := UnresolvedIds(children, n); |ids| == |at| && forall k :: 0 <= k < |at| ==> ids[k] == children[at[k]].childId
  {
    hide ChildOk, Unresolved, Concluded, PicksOpen;
    if n == 0 {
      at := [];
      NoneOpen(children);
    } else {
      var before := UnresolvedAre(cfg, children, n - 1);
      UnresolvedIsOpen(cfg, children[n - 1]);
      NextOpen(children, n, before);
      at := if Unresolved(children[n - 1]) then before + [n - 1] else before;
      NextPicked(children, n, before);
    }
  }

  lemma NextPicked(children: seq<Child>, n: nat, before: seq<nat>)
    requires 0 < n <= |children| && PicksOpen(children, n - 1, before)
    requires var ids := UnresolvedIds(children, n - 1); |ids| == |before| && forall k :: 0 <= k < |before| ==> ids[k] == children[before[k]].childId
    ensures var ids := UnresolvedIds(children, n);
            var at := if Unresolved(children[n - 1]) then before + [n - 1] else before;
            && |ids| == |at| && (forall k :: 0 <= k < |at| ==> at[k] < |children| && ids[k] == children[at[k]].childId)
  {
    hide Unresolved, Concluded;
  }

  /** The increasing list of the open children among the first `n`. */
  ghost predicate PicksOpen(children: seq<Child>, n: nat, at: seq<nat>)
    requires n <= |children|
    ensures PicksOpen(children, n, at) ==> forall k :: 0 <= k < |at| ==> at[k] < n
  {
    && (forall k :: 0 <= k < |at| ==> at[k] < n)
    && (forall k, l :: 0 <= k < l < |at| ==> at[k] < at[l])
    && (forall i :: 0 <= i < n ==> (i in at <==> !Concluded(children[i])))
  }

  lemma NoneOpen(children: seq<Child>)
    ensures PicksOpen(children, 0, [])
  {
  }

  lemma NextOpen(children: seq<Child>, n: nat, before: seq<nat>)
    requires 0 < n <= |children| && PicksOpen(children, n - 1, before)
    ensures PicksOpen(children, n, if Concluded(children[n - 1]) then before else before + [n - 1])
  {
    hide Concluded;
  }

  predicate AttemptTaken(children: seq<Child>, n: nat, attempt: string)
    requires n <= |children|
  {
    exists j :: 0 <= j < n && children[j].attemptId == Some(attempt)
  }

  /** One child's slots; `ids` are the event ids met so far, none of them of this child's attempt. */
  method CheckChild(cfg: Config, c: Child, ids: set<EventId>) returns (ok: bool, seen: set<EventId>, count: nat)
    requires forall x :: x in ids ==> c.attemptId != Some(x.childAttempt)
    ensures ok <==> ChildOk(cfg, c)
    ensures forall x :: x in seen ==> x in ids || c.attemptId == Some(x.childAttempt)
    ensures ok ==> count == EventCount(c)
  {
    seen, count := ids, 0;
    if c.reservation.None? {
      ok := c.attemptId.None? && c.dispatch.None? && c.completion.None? && c.settlement.None?;
      return;
    }
    if c.attemptId.None? || !IsText(c.attemptId.value) { return false, seen, count; }
    for k := 0 to 4
      invariant count == EventsBefore(c, k)
      invariant forall j :: 0 <= j < k ==> SlotOk(cfg, c, KINDS[j])
      invariant forall x :: x in seen ==> x in ids || (c.attemptId == Some(x.childAttempt) && x.kind in KINDS[..k])
    {
      var kind := KINDS[k];
      var e := Slot(c, kind);
      if e.Some? {
        assert SlotOk(cfg, c, kind) ==> EventOk(cfg, c, e.value, kind) && e.value.eventId !in seen;
        if e.value.eventId in seen || !SlotOk(cfg, c, kind) { return false, seen, count; }
        count := count + 1;
        seen := seen + {e.value.eventId};
      }
    }
    assert SlotOk(cfg, c, KINDS[0]) && SlotOk(cfg, c, KINDS[1]) && SlotOk(cfg, c, KINDS[2]) && SlotOk(cfg, c, KINDS[3]);
    ok := StagesOk(c);
  }

  lemma AttemptsStep(children: seq<Child>, n: nat)
    requires n < |children|
    ensures AttemptsDistinct(children, n + 1)
            <==> AttemptsDistinct(children, n)
                 && (children[n].attemptId.Some? ==> !AttemptTaken(children, n, children[n].attemptId.value))
    ensures forall a :: AttemptTaken(children, n + 1, a) <==> AttemptTaken(children, n, a) || children[n].attemptId == Some(a)
    ensures AttemptsDistinct(children, |children|) ==> AttemptsDistinct(children, n + 1)
  {
  }

  /** The pass over the children: how many events they hold, and which are unresolved. */
  method CheckChildren(cfg: Config, children: seq<Child>) returns (r: Option<(nat, seq<string>)>)
    ensures r.Some? <==> AllChildrenOk(cfg, children) && AttemptsDistinct(children, |children|)
    ensures r.Some? ==> r.value == (EventTotal(children, |children|), UnresolvedIds(children, |children|))
  {
    var eventIds: set<EventId>, attemptIds: set<string>, count: nat, unknown: seq<string> := {}, {}, 0, [];
    assert AttemptsDistinct(children, 0) && forall a :: !AttemptTaken(children, 0, a);
    hide ChildOk, Unresolved, EventCount, AttemptsDistinct, AttemptTaken, AllChildrenOk;
    for i := 0 to |children|
      invariant forall k :: 0 <= k < i ==> ChildOk(cfg, children[k])
      invariant AttemptsDistinct(children, i)
      invariant forall x :: x in eventIds ==> x.childAttempt in attemptIds
      invariant forall a :: a in attemptIds <==> AttemptTaken(children, i, a)
      invariant count == EventTotal(children, i)
      invariant unknown == UnresolvedIds(children, i)
    {
      var c := children[i];
      AttemptsStep(children, i);
      if c.attemptId.Some? && c.attemptId.value in attemptIds { return None; }
      var ok, seen, n := CheckChild(cfg, c, eventIds);
      if !ok {
        return None;
      }
      if c.attemptId.Some? { attemptIds := attemptIds + {c.attemptId.value}; }
      eventIds, count := seen, count + n;
      if Unresolved(c) { unknown := unknown + [c.childId]; }
    }
    assert AllChildrenOk(cfg, children);
    return Some((count, unknown));
  }

  method VerifyReport(cfg: Config, s: Snapshot, minimumRevision: nat) returns (r: Option<Report>)
    ensures r.Some? <==> Verified(cfg, s) && s.revision >= minimumRevision
    ensures r.Some? ==>
              && r.value.revision == s.revision
              && r.value.committed.Keys == AxesMap(s.limits).Keys
              && (forall a :: a in r.value.committed ==> r.value.committed[a] == Exposure(s.children, |s.children|, a))
              && (r.value.limitExceeded <==>
                    exists k :: 0 <= k < |s.limits| && Exposure(s.children, |s.children|, s.limits[k].axis) > s.limits[k].amount.value)
              && r.value.unknownChildren == UnresolvedIds(s.children, |s.children|)
  {
    if !LoadsBack(SnapshotValue(cfg.texts, s)) || !Trusts(cfg, s.signer) || s.binding != cfg.binding { return None; }
    if s.revision < minimumRevision || s.limits != cfg.limits { return None; }
    var limits := Axes(s.limits);
    if limits.None? || !AllKnown(s.limits) || !InOrder(s.children, s.binding.expectedIds) { return None; }
    var checked := CheckChildren(cfg, s.children);
    if checked.None? || s.revision != checked.value.0 { return None; }
    var used := Usage(cfg, s.children);
    forall k | 0 <= k < |s.limits| ensures s.limits[k].axis in used { AxisInTable(s.limits, k); }
    var exceeded := exists k :: 0 <= k < |s.limits| && used[s.limits[k].axis] > s.limits[k].amount.value;
    return Some(Report(s.revision, used, exceeded, checked.value.1));
  }

  // --- one change, as a function of the published snapshot ---------------------------------------------

  /** What the selected observation file holds, when its bytes have the digest given. */
  datatype Observed = Observed(reservationId: EventId, performed: Performed, rows: seq<Row>)

  datatype Change =
    | Reserve(childId: string, attemptId: string, rows: seq<Row>, at: string)
    | RecordDispatch(reservationId: EventId, at: string)
    | Complete(reservationId: EventId, performed: Performed, rows: seq<Row>, observation: Artifact,
               file: Option<Observed>, at: string)
    | Settle(reservationId: EventId, completionSha256: Digest, at: string)

  /** The snapshot a change would publish, unless it is too big to write. */
  function Published(cfg: Config, prior: Snapshot, children: seq<Child>): (r: Option<Snapshot>)
    ensures r.Some? ==> r.value.children == children
  {
    var s := Snapshot(prior.binding, prior.limits, prior.revision + 1, Some(prior), children, cfg.signer);
    if Fits(SnapshotValue(cfg.texts, s)) then Some(s) else None
  }

  function IndexOfChild(children: seq<Child>, childId: string, i: nat): (r: nat)
    requires i <= |children|
    ensures i <= r <= |children|
    ensures r < |children| ==> children[r].childId == childId
    ensures forall k :: i <= k < r ==> children[k].childId != childId
    decreases |children| - i
  {
    if i == |children| || children[i].childId == childId then i else IndexOfChild(children, childId, i + 1)
  }

  predicate Holds(c: Child, id: EventId)
  {
    c.reservation.Some? && c.reservation.value.fields.Reservation? && c.reservation.value.fields.reservationId == id
  }

  /** Where among the first `n` children the reservation is held. */
  function Holders(children: seq<Child>, n: nat, id: EventId): (r: seq<nat>)
    requires n <= |children|
    ensures forall k :: 0 <= k < |r| ==> r[k] < n && Holds(children[r[k]], id)
    ensures forall i :: 0 <= i < n && Holds(children[i], id) ==> i in r
  {
    if n == 0 then [] else Holders(children, n - 1, id) + if Holds(children[n - 1], id) then [n - 1] else []
  }

  /** Every axis has room for the request. */
  predicate Affordable(s: Snapshot, rows: seq<Row>)
  {
    forall k :: 0 <= k < |s.limits| ==>
      Exposure(s.children, |s.children|, s.limits[k].axis) + OrZero(AmountOn(rows, s.limits[k].axis))
      <= OrZero(s.limits[k].amount)
  }

  function Reserving(cfg: Config, c: Child, attemptId: string, rows: seq<Row>, at: string): Child
  {
    var named := c.(attemptId := Some(attemptId));
    var id := IdOf(cfg, ReservationKind, named);
    named.(reservation := Some(Event(id, at, Reservation(id, at, rows), cfg.signer)))
  }

  function Dispatching(cfg: Config, c: Child, at: string): Child
    requires c.attemptId.Some? && c.reservation.Some?
  {
    var r := c.reservation.value;
    c.(dispatch := Some(Event(IdOf(cfg, DispatchKind, c), at, Dispatch(r.eventId, DigestOf(r)), cfg.signer)))
  }

  function Completing(cfg: Config, c: Child, performed: Performed, rows: seq<Row>, observation: Artifact, at: string): Child
    requires c.attemptId.Some? && c.reservation.Some?
  {
    var r := c.reservation.value;
    c.(completion := Some(Event(IdOf(cfg, CompletionKind, c), at,
      Completion(r.eventId, DigestOf(r), performed, MeasuredState(rows), observation, rows), cfg.signer)))
  }

  function Settling(cfg: Config, c: Child, at: string): Child
    requires c.attemptId.Some? && c.reservation.Some? && c.completion.Some? && c.completion.value.fields.Completion?
  {
    var r, done := c.reservation.value, c.completion.value;
    c.(settlement := Some(Event(IdOf(cfg, SettlementKind, c), at,
      Settlement(r.eventId, DigestOf(r), DigestOf(done), (r.eventId, DigestOf(done)), at,
                 done.fields.performed, done.fields.measured,
                 SettledRows(done.fields.measuredRows, done.fields.performed)), cfg.signer)))
  }

  /** Which child a change touches and what it becomes, on a snapshot that verifies; None is a refusal. */
  function Changed(cfg: Config, s: Snapshot, x: Change): (r: Option<(nat, Child)>)
    requires AllChildrenOk(cfg, s.children)
    ensures r.Some? ==> r.value.0 < |s.children|
  {
    if !IsText(x.at) then None
    else if x.Reserve? then
      var i := IndexOfChild(s.children, x.childId, 0);
      if !RowsOk(x.rows) || !AllKnown(x.rows) || !IsText(x.attemptId) then None
      else if i == |s.children| || s.children[i].reservation.Some? then None
      else if AttemptTaken(s.children, |s.children|, x.attemptId) then None
      else if AxesMap(x.rows).Keys != AxesMap(s.limits).Keys || !Affordable(s, x.rows) then None
      else Some((i, Reserving(cfg, s.children[i], x.attemptId, x.rows, x.at)))
    else
      var found := Holders(s.children, |s.children|, x.reservationId);
      if |found| != 1 then None
      else
        var c := s.children[found[0]];
        assert ChildOk(cfg, c);
        match x
        case RecordDispatch(_, at) => if c.dispatch.Some? then None else Some((found[0], Dispatching(cfg, c, at)))
        case Complete(id, performed, rows, observation, file, at) =>
          if !RowsOk(rows) || !ArtifactOk(observation) || file != Some(Observed(id, performed, rows)) then None
          else if c.dispatch.None? || c.completion.Some? then None
          else if AxesMap(rows).Keys != AxesMap(c.reservation.value.fields.rows).Keys then None
          else Some((found[0], Completing(cfg, c, performed, rows, observation, at)))
        case Settle(_, sha256, at) =>
          if c.completion.None? || c.settlement.Some? || DigestOf(c.completion.value) != sha256 then None
          else Some((found[0], Settling(cfg, c, at)))
  }

  /** The snapshot published by a change, or None when it is refused. */
  function Step(cfg: Config, s: Snapshot, x: Change): Option<Snapshot>
  {
    if !Verified(cfg, s) then None
    else
      var c := Changed(cfg, s, x);
      if c.None? then None else Published(cfg, s, s.children[c.value.0 := c.value.1])
  }

  lemma HolderOk(cfg: Config, s: Snapshot, id: EventId)
    requires Verified(cfg, s)
    ensures AllChildrenOk(cfg, s.children)
    ensures forall k :: 0 <= k < |Holders(s.children, |s.children|, id)| ==>
              var c := s.children[Holders(s.children, |s.children|, id)[k]];
              && ChildOk(cfg, c) && c.reservation.Some? && c.attemptId.Some? && c.reservation.value.fields.Reservation?
              && (c.completion.Some? ==> c.completion.value.fields.Completion?)
  {
    var found := Holders(s.children, |s.children|, id);
    assert AllChildrenOk(cfg, s.children) by { hide LoadsBack, SnapshotValue, ChildOk; }
    hide ChildOk, Verified, Holders;
    forall k | 0 <= k < |found|
      ensures var c := s.children[found[k]];
              && ChildOk(cfg, c) && c.reservation.Some? && c.attemptId.Some? && c.reservation.value.fields.Reservation?
              && (c.completion.Some? ==> c.completion.value.fields.Completion?)
    {
      HeldChild(cfg, s.children[found[k]]);
    }
  }

  lemma HeldChild(cfg: Config, c: Child)
    requires ChildOk(cfg, c) && c.reservation.Some?
    ensures c.attemptId.Some? && c.reservation.value.fields.Reservation?
    ensures c.completion.Some? ==> c.completion.value.fields.Completion?
  {
    hide EventOk, SameAxes, AllKnown;
  }

  /** The snapshot a ledger is created with. */
  function Created(cfg: Config): Snapshot
  {
    var ids := cfg.binding.expectedIds;
    Snapshot(cfg.binding, cfg.limits, 0, None,
             seq(|ids|, i requires 0 <= i < |ids| => Child(ids[i], None, None, None, None, None)), cfg.signer)
  }

  /** The children of a new ledger, one for each id expected. */
  method Unused(ids: seq<string>) returns (children: seq<Child>)
    ensures children == seq(|ids|, i requires 0 <= i < |ids| => Child(ids[i], None, None, None, None, None))
  {
    children := [];
    for i := 0 to |ids|
      invariant |children| == i && forall k :: 0 <= k < i ==> children[k] == Child(ids[k], None, None, None, None, None)
    {
      children := children + [Child(ids[i], None, None, None, None, None)];
    }
  }

  // --- the ledger --------------------------------------------------------------------------------------

  /** The local store: the published snapshot, and whether an interrupted publication is lying beside it. */
  class Ledger {
    const cfg: Config
    var state: Snapshot
    var pending: bool

    /** What create leaves behind once it has accepted the start, basis, budget and trust. */
    constructor (cfg: Config)
      requires ConfigOk(cfg)
      ensures this.cfg == cfg && state == Created(cfg) && !pending
    {
      this.cfg, pending := cfg, false;
      var children := Unused(cfg.binding.expectedIds);
      state := Snapshot(cfg.binding, cfg.limits, 0, None, children, cfg.signer);
      hide ConfigOk;
    }

    /** The report on the current snapshot, when nothing is pending and it verifies. */
    method Inspect() returns (r: Option<Report>)
      ensures r.Some? <==> !pending && Verified(cfg, state)
      ensures r.Some? ==> r.value.revision == state.revision
    {
      if pending { return None; }
      r := VerifyReport(cfg, state, 0);
    }

    /** Sign and publish the next snapshot: written beside the current one, then renamed over it. */
    method Publish(children: seq<Child>) returns (ok: bool)
      modifies this`state
      ensures var next := Published(cfg, old(state), children);
              ok == next.Some? && state == if ok then next.value else old(state)
    {
      hide Fits, SnapshotValue;
      var s := Snapshot(state.binding, state.limits, state.revision + 1, Some(state), children, cfg.signer);
      ok := Fits(SnapshotValue(cfg.texts, s));
      if ok { state := s; }
    }

    method FindChild(childId: string) returns (i: nat)
      ensures i == IndexOfChild(state.children, childId, 0)
    {
      i := 0;
      while i < |state.children| && state.children[i].childId != childId
        invariant 0 <= i <= |state.children|
        invariant IndexOfChild(state.children, childId, 0) == IndexOfChild(state.children, childId, i)
      {
        i := i + 1;
      }
    }

    method HasRoom(rows: seq<Row>) returns (ok: bool)
      requires Verified(cfg, state)
      ensures ok == Affordable(state, rows)
    {
      var used := Usage(cfg, state.children);
      forall k | 0 <= k < |state.limits| ensures state.limits[k].axis in used { AxisInTable(state.limits, k); }
      hide Verified, AmountOn, AxesMap, RowsOk;
      ok := forall k :: 0 <= k < |state.limits| ==>
              used[state.limits[k].axis] + OrZero(AmountOn(rows, state.limits[k].axis)) <= OrZero(state.limits[k].amount);
    }

    /** The child holding a reservation, if exactly one does. */
    method FindHolder(id: EventId) returns (r: Option<nat>)
      ensures var found := Holders(state.children, |state.children|, id);
              r == if |found| == 1 then Some(found[0]) else None
    {
      var found: seq<nat> := [];
      for i := 0 to |state.children|
        invariant found == Holders(state.children, i, id)
      {
        if Holds(state.children[i], id) { found := found + [i]; }
      }
      return if |found| == 1 then Some(found[0]) else None;
    }

    method ReserveChild(childId: string, attemptId: string, rows: seq<Row>, at: string) returns (r: Option<Event>)
      modifies this`state
      ensures var next := if old(pending) then None else Step(cfg, old(state), Reserve(childId, attemptId, rows, at));
              && state == (if next.Some? then next.value else old(state))
              && (r.Some? <==> next.Some?)
              && (r.Some? ==> exists i :: 0 <= i < |state.children| && state.children[i].childId == childId
                                          && state.children[i].reservation == r)
    {
      hide AxesMap, Verified, Affordable, AttemptTaken, Published;
      var table := Axes(rows);
      if table.None? || !AllKnown(rows) || !IsText(attemptId) { return None; }
      var report := Inspect();
      if report.None? { return None; }
      var i := FindChild(childId);
      if i == |state.children| || state.children[i].reservation.Some? { return None; }
      if AttemptTaken(state.children, |state.children|, attemptId) { return None; }
      if table.value.Keys != AxesMap(state.limits).Keys { return None; }
      var room := HasRoom(rows);
      if !room || !IsText(at) { return None; }
      var c := Reserving(cfg, state.children[i], attemptId, rows, at);
      var children := state.children[i := c];
      var ok := Publish(children);
      if !ok { return None; }
      assert state.children[i] == c && c.childId == childId;
      return c.reservation;
    }

    method RecordDispatchOf(reservationId: EventId, at: string) returns (r: Option<Event>)
      modifies this`state
      ensures var next := if old(pending) then None else Step(cfg, old(state), RecordDispatch(reservationId, at));
              && state == (if next.Some? then next.value else old(state))
              && (r.Some? <==> next.Some?)
              && (r.Some? ==> exists i :: 0 <= i < |state.children| && state.children[i].dispatch == r)
    {
      hide AxesMap, Verified, Published;
      var report := Inspect();
      if report.None? { return None; }
      var holder := FindHolder(reservationId);
      if holder.None? || state.children[holder.value].dispatch.Some? || !IsText(at) { return None; }
      var i := holder.value;
      HolderOk(cfg, state, reservationId);
      var c := Dispatching(cfg, state.children[i], at);
      var ok := Publish(state.children[i := c]);
      if !ok { return None; }
      assert state.children[i] == c;
      return c.dispatch;
    }

    method CompleteService(reservationId: EventId, performed: Performed, rows: seq<Row>, observation: Artifact,
                           file: Option<Observed>, at: string) returns (r: Option<Event>)
      modifies this`state
      ensures var next := if old(pending) then None
                          else Step(cfg, old(state), Complete(reservationId, performed, rows, observation, file, at));
              && state == (if next.Some? then next.value else old(state))
              && (r.Some? <==> next.Some?)
              && (r.Some? ==> exists i :: 0 <= i < |state.children| && state.children[i].completion == r)
    {
      hide AxesMap, Verified, Published;
      var table := Axes(rows);
      if table.None? || !ArtifactOk(observation) || file != Some(Observed(reservationId, performed, rows)) { return None; }
      var report := Inspect();
      if report.None? { return None; }
      var holder := FindHolder(reservationId);
      if holder.None? { return None; }
      var i := holder.value;
      HolderOk(cfg, state, reservationId);
      var c := state.children[i];
      if c.dispatch.None? || c.completion.Some? { return None; }
      if table.value.Keys != AxesMap(c.reservation.value.fields.rows).Keys || !IsText(at) { return None; }
      c := Completing(cfg, c, performed, rows, observation, at);
      var ok := Publish(state.children[i := c]);
      if !ok { return None; }
      assert state.children[i] == c;
      return c.completion;
    }

    method SettleService(reservationId: EventId, completionSha256: Digest, at: string) returns (r: Option<Event>)
      modifies this`state
      ensures var next := if old(pending) then None
                          else Step(cfg, old(state), Settle(reservationId, completionSha256, at));
              && state == (if next.Some? then next.value else old(state))
              && (r.Some? <==> next.Some?)
              && (r.Some? ==> exists i :: 0 <= i < |state.children| && state.children[i].settlement == r)
    {
      hide AxesMap, Verified, Published;
      var report := Inspect();
      if report.None? { return None; }
      var holder := FindHolder(reservationId);
      if holder.None? { return None; }
      var i := holder.value;
      HolderOk(cfg, state, reservationId);
      var c := state.children[i];
      if c.completion.None? || c.settlement.Some? || DigestOf(c.completion.value) != completionSha256 || !IsText(at) {
        return None;
      }
      c := Settling(cfg, c, at);
      var ok := Publish(state.children[i := c]);
      if !ok { return None; }
      assert state.children[i] == c;
      return c.settlement;
    }
  }

  /** A new ledger, when the start, basis, budget and trust are accepted. */
  method Create(cfg: Config) returns (r: Option<Ledger>)
    ensures r.Some? <==> ConfigOk(cfg)
    ensures r.Some? ==> fresh(r.value) && r.value.cfg == cfg && r.value.state == Created(cfg) && !r.value.pending
  {
    if !ConfigOk(cfg) { return None; }
    var ledger := new Ledger(cfg);
    return Some(ledger);
  }
}
