/** What every run of the child ledger keeps: the verifier's conditions, the budget, and the past. */
module LedgerRuns {
  import opened Wrappers
  import opened Values
  import opened Canon
  import opened Sizes
  import Reading = DepthScan
  import opened LedgerRecords
  import opened LedgerLayout
  import opened ChildLedger

  // --- one change --------------------------------------------------------------------------------------

  /** Every event already recorded for the child is still there, unaltered. */
  predicate Keeps(before: Child, after: Child)
  {
    && after.childId == before.childId
    && (before.attemptId.Some? ==> after.attemptId == before.attemptId)
    && (forall kind :: kind in KINDS && Slot(before, kind).Some? ==> Slot(after, kind) == Slot(before, kind))
  }

  lemma SlotsKept(before: Child, after: Child)
    ensures Keeps(before, after)
            <==> after.childId == before.childId
                 && (before.attemptId.Some? ==> after.attemptId == before.attemptId)
                 && (before.reservation.Some? ==> after.reservation == before.reservation)
                 && (before.dispatch.Some? ==> after.dispatch == before.dispatch)
                 && (before.completion.Some? ==> after.completion == before.completion)
                 && (before.settlement.Some? ==> after.settlement == before.settlement)
  {
    if Keeps(before, after) {
      assert KINDS[0] in KINDS && KINDS[1] in KINDS && KINDS[2] in KINDS && KINDS[3] in KINDS;
      assert Slot(before, KINDS[0]) == before.reservation && Slot(before, KINDS[1]) == before.dispatch;
      assert Slot(before, KINDS[2]) == before.completion && Slot(before, KINDS[3]) == before.settlement;
    }
  }

  lemma ReservingOk(cfg: Config, c: Child, attemptId: string, rows: seq<Row>, at: string)
    requires ChildOk(cfg, c) && c.reservation.None? && Trusts(cfg, cfg.signer) && IsText(attemptId)
    requires SameAxes(rows, cfg.limits) && AllKnown(rows)
    ensures var n := Reserving(cfg, c, attemptId, rows, at);
            ChildOk(cfg, n) && EventCount(n) == EventCount(c) + 1 && Keeps(c, n)
  {
    hide RowsOk, AxesMap, AllKnown;
    SlotsKept(c, Reserving(cfg, c, attemptId, rows, at));
    hide Keeps;
  }

  lemma DispatchingOk(cfg: Config, c: Child, at: string)
    requires ChildOk(cfg, c) && c.reservation.Some? && c.dispatch.None? && Trusts(cfg, cfg.signer)
    ensures var n := Dispatching(cfg, c, at); ChildOk(cfg, n) && EventCount(n) == EventCount(c) + 1 && Keeps(c, n)
  {
    hide RowsOk, AxesMap, AllKnown;
    SlotsKept(c, Dispatching(cfg, c, at));
    hide Keeps;
  }

  lemma CompletingOk(cfg: Config, c: Child, performed: Performed, rows: seq<Row>, observation: Artifact, at: string)
    requires ChildOk(cfg, c) && c.dispatch.Some? && c.completion.None? && Trusts(cfg, cfg.signer)
    requires SameAxes(rows, cfg.limits) && ArtifactOk(observation)
    ensures var n := Completing(cfg, c, performed, rows, observation, at);
            ChildOk(cfg, n) && EventCount(n) == EventCount(c) + 1 && Keeps(c, n)
  {
    hide RowsOk, AxesMap, AllKnown, ArtifactOk;
    SlotsKept(c, Completing(cfg, c, performed, rows, observation, at));
    hide Keeps;
  }

  lemma SettlingOk(cfg: Config, c: Child, at: string)
    requires ChildOk(cfg, c) && c.completion.Some? && c.settlement.None? && Trusts(cfg, cfg.signer)
    ensures var n := Settling(cfg, c, at); ChildOk(cfg, n) && EventCount(n) == EventCount(c) + 1 && Keeps(c, n)
  {
    hide RowsOk, AxesMap, AllKnown, ArtifactOk, SettledRows;
    SlotsKept(c, Settling(cfg, c, at));
    hide Keeps;
  }

  /** A change adds one event to one child, which the verifier accepts, and alters nothing it holds. */
  lemma ChangedChild(cfg: Config, s: Snapshot, x: Change)
    requires Verified(cfg, s) && Trusts(cfg, cfg.signer) && Changed(cfg, s, x).Some?
    ensures var (i, c) := Changed(cfg, s, x).value;
            && ChildOk(cfg, c) && EventCount(c) == EventCount(s.children[i]) + 1 && Keeps(s.children[i], c)
            && (c.attemptId == s.children[i].attemptId
                || (c.attemptId.Some? && !AttemptTaken(s.children, |s.children|, c.attemptId.value)))
  {
    var (i, c) := Changed(cfg, s, x).value;
    var before := s.children[i];
    assert ChildOk(cfg, before);
    assert before.reservation.Some? ==> AxesMap(before.reservation.value.fields.rows).Keys == AxesMap(cfg.limits).Keys;
    hide RowsOk, AxesMap, AllKnown, ArtifactOk, SettledRows, Affordable, ChildOk, Keeps, EventCount, AttemptTaken;
    match x {
      case Reserve(_, attemptId, rows, at) => ReservingOk(cfg, before, attemptId, rows, at);
      case RecordDispatch(_, at) => DispatchingOk(cfg, before, at);
      case Complete(_, performed, rows, observation, _, at) => CompletingOk(cfg, before, performed, rows, observation, at);
      case Settle(_, _, at) => SettlingOk(cfg, before, at);
    }
  }

  lemma AttemptsStayDistinct(children: seq<Child>, i: nat, c: Child)
    requires i < |children| && AttemptsDistinct(children, |children|)
    requires c.attemptId == children[i].attemptId
             || (c.attemptId.Some? && !AttemptTaken(children, |children|, c.attemptId.value))
    ensures AttemptsDistinct(children[i := c], |children|)
  {
  }

  /** Replacing one child by a longer version of it. */
  lemma UpdateExtends(cfg: Config, children: seq<Child>, ids: seq<string>, i: nat, c: Child)
    requires i < |children| && AllChildrenOk(cfg, children) && InOrder(children, ids)
    requires ChildOk(cfg, c) && Keeps(children[i], c)
    ensures AllChildrenOk(cfg, children[i := c]) && InOrder(children[i := c], ids) && Extends(children, children[i := c])
  {
    hide ChildOk;
    forall k | 0 <= k < |children| ensures Keeps(children[k], children[i := c][k]) {
      SlotsKept(children[k], children[k]);
    }
  }

  /** What is published says everything the verifier asks of a snapshot's fields, one revision on, with
      its predecessor's digest. */
  lemma StepIsSound(cfg: Config, s: Snapshot, x: Change)
    requires Trusts(cfg, cfg.signer) && Step(cfg, s, x).Some?
    ensures var n := Step(cfg, s, x).value;
            && Sound(cfg, n) && Fits(SnapshotValue(cfg.texts, n)) && n.revision == s.revision + 1 && n.previous == Some(s)
            && Extends(s.children, n.children)
  {
    StepParts(cfg, s, x);
    hide Step, Verified;
    ChangedChild(cfg, s, x);
    var (i, c) := Changed(cfg, s, x).value;
    hide Changed, ChildOk, EventCount, AttemptTaken, Keeps, Extends, Sound, Fits, SnapshotValue, AllChildrenOk;
    UpdateIsSound(cfg, s, i, c);
  }

  /** A change that is not refused publishes the one child it touches, on a snapshot that verifies. */
  lemma StepParts(cfg: Config, s: Snapshot, x: Change)
    requires Step(cfg, s, x).Some?
    ensures Verified(cfg, s) && Sound(cfg, s) && AllChildrenOk(cfg, s.children) && Changed(cfg, s, x).Some?
    ensures var (i, c) := Changed(cfg, s, x).value;
            Step(cfg, s, x).value == Snapshot(s.binding, s.limits, s.revision + 1, Some(s), s.children[i := c], cfg.signer)
    ensures Fits(SnapshotValue(cfg.texts, Step(cfg, s, x).value))
  {
    hide Changed, ChildOk, Fits, SnapshotValue, LoadsBack, EventTotal, RowsOk, AllKnown, AttemptsDistinct, Trusts, InOrder;
  }

  /** The next snapshot after `s`, with one child longer by one event. */
  lemma UpdateIsSound(cfg: Config, s: Snapshot, i: nat, c: Child)
    requires Sound(cfg, s) && Trusts(cfg, cfg.signer) && i < |s.children|
    requires ChildOk(cfg, c) && EventCount(c) == EventCount(s.children[i]) + 1 && Keeps(s.children[i], c)
    requires c.attemptId == s.children[i].attemptId
             || (c.attemptId.Some? && !AttemptTaken(s.children, |s.children|, c.attemptId.value))
    ensures Sound(cfg, Snapshot(s.binding, s.limits, s.revision + 1, Some(s), s.children[i := c], cfg.signer))
    ensures Extends(s.children, s.children[i := c])
  {
    hide ChildOk, EventTotal, EventCount, AttemptsDistinct, AttemptTaken, Keeps, RowsOk, AllKnown, Extends, AllChildrenOk,
      InOrder, Exposure, Overruns, ChildUse, ChildOverrun;
    TotalsOfUpdate(s.children, |s.children|, i, c, ConsoleBytes);
    AttemptsStayDistinct(s.children, i, c);
    UpdateExtends(cfg, s.children, s.binding.expectedIds, i, c);
  }

  /** In a sound snapshot every event is bound to the configured identity. */
  lemma SoundIsBound(cfg: Config, s: Snapshot)
    requires Sound(cfg, s)
    ensures s.binding.taskIdentity == cfg.binding.taskIdentity
    ensures forall i :: 0 <= i < |s.children| ==> BoundTo(s.children[i], cfg.binding.taskIdentity)
  {
    forall i | 0 <= i < |s.children| ensures BoundTo(s.children[i], cfg.binding.taskIdentity) {
      ChildIsBound(cfg, s.children[i]);
    }
    hide ChildOk, BoundTo;
  }

  lemma ChildIsBound(cfg: Config, c: Child)
    requires ChildOk(cfg, c)
    ensures BoundTo(c, cfg.binding.taskIdentity)
    ensures Empty(c) <==> EventCount(c) == 0
  {
    SlotFields(c, cfg.binding.taskIdentity);
    forall kind | kind in KINDS && Slot(c, kind).Some? ensures Slot(c, kind).value.eventId.binding.taskIdentity == cfg.binding.taskIdentity {
      if c.reservation.Some? { assert SlotOk(cfg, c, kind); }
    }
    hide RowsOk, AllKnown, AxesMap, Empty, ArtifactOk, SettlementAgrees;
  }

  lemma {:induction false} NoEvents(cfg: Config, children: seq<Child>, n: nat)
    requires n <= |children| && AllChildrenOk(cfg, children)
    ensures EventTotal(children, n) == 0 <==> forall i :: 0 <= i < n ==> Empty(children[i])
  {
    hide ChildOk, EventCount, Empty;
    if n > 0 {
      NoEvents(cfg, children, n - 1);
      ChildIsBound(cfg, children[n - 1]);
    }
  }

  /** How deep the identity may nest for a snapshot of this revision to be read back: it stands three deep
      in the first one, and six deep in every event. */
  function DepthLeft(revision: nat): nat
  {
    if revision == 0 then 61 else 58
  }

  /** A sound snapshot that fits is accepted exactly when the identity nests no deeper than that. */
  lemma SoundVerifies(cfg: Config, s: Snapshot)
    requires Sound(cfg, s)
    ensures Verified(cfg, s)
            <==> Fits(SnapshotValue(cfg.texts, s)) && Reading.DepthAtMost(cfg.binding.taskIdentity, DepthLeft(s.revision))
  {
    SoundIsBound(cfg, s);
    NoEvents(cfg, s.children, |s.children|);
    hide ChildOk, EventTotal, Reading.DepthAtMost, BoundTo, Empty, Sound, SnapshotValue, Reading.LoadText, Render, Size;
    SnapshotDepth(cfg.texts, s);
    var v := SnapshotValue(cfg.texts, s);
    if Render(v).Ok? { Reading.LoadUndoesCanonicalize(v); }
    assert NothingRecorded(s.children) <==> s.revision == 0 by { SoundParts(cfg, s); }
  }

  lemma SoundParts(cfg: Config, s: Snapshot)
    requires Sound(cfg, s)
    ensures AllChildrenOk(cfg, s.children) && s.revision == EventTotal(s.children, |s.children|)
  {
  }

  /** Publication does not read back the record it writes. It need not where the identity nests at most 58
      deep; beyond that the first change of a ledger, whatever it is, publishes a snapshot that the verifier
      refuses. */
  lemma StepVerifies(cfg: Config, s: Snapshot, x: Change)
    requires Trusts(cfg, cfg.signer) && Step(cfg, s, x).Some?
    ensures Verified(cfg, Step(cfg, s, x).value) <==> Reading.DepthAtMost(cfg.binding.taskIdentity, 58)
  {
    StepIsSound(cfg, s, x);
    SoundVerifies(cfg, Step(cfg, s, x).value);
    hide Step, Sound, Verified, Fits, SnapshotValue, Reading.DepthAtMost, Extends;
  }

  predicate Extends(before: seq<Child>, after: seq<Child>)
  {
    |before| == |after| && forall k :: 0 <= k < |before| ==> Keeps(before[k], after[k])
  }

  // --- what a change does to exposure ------------------------------------------------------------------

  /** Exposure after a change, on every axis: a reservation adds its request, a dispatch nothing, a
      completion what it measured beyond the hold, and a settlement replaces the commitment by the
      measured amount, which is never more, unless that is unknown. */
  lemma ExposureChange(cfg: Config, s: Snapshot, x: Change, axis: Axis)
    requires Trusts(cfg, cfg.signer) && Step(cfg, s, x).Some?
    ensures var n := Step(cfg, s, x).value;
            var before := Exposure(s.children, |s.children|, axis);
            var after := Exposure(n.children, |n.children|, axis);
            var (i, c) := Changed(cfg, s, x).value;
            var was := s.children[i];
            && (x.Reserve? ==> after == before + OrZero(AmountOn(x.rows, axis)))
            && (x.RecordDispatch? ==> after == before)
            && (x.Complete? ==> after == before + Max(0.0, OrZero(AmountOn(x.rows, axis)) - Reserved(was, axis)))
            && (x.Settle? ==>
                  && after <= before
                  && (if ServiceUnknown(was) || MeasuredAmount(was, axis).None? then after == before
                      else after == before - Max(Reserved(was, axis), MeasuredOn(was, axis)) + MeasuredOn(was, axis)))
  {
    hide Step, Changed, ChildUse, ChildOverrun, Reserved, MeasuredOn, MeasuredAmount, ServiceUnknown, Verified, Sound,
      AllChildrenOk, Fits, SnapshotValue;
    StepParts(cfg, s, x);
    var (i, c) := Changed(cfg, s, x).value;
    TotalsOfUpdate(s.children, |s.children|, i, c, axis);
    UseChange(cfg, s, x, axis);
  }

  predicate ServiceUnknown(c: Child)
  {
    c.completion.Some? && c.completion.value.fields.Completion? && c.completion.value.fields.performed == UnknownService
  }

  function MeasuredAmount(c: Child, axis: Axis): Option<real>
  {
    if c.completion.Some? && c.completion.value.fields.Completion?
    then AmountOn(c.completion.value.fields.measuredRows, axis) else None
  }

  /** No known amount is negative. */
  lemma {:induction false} AmountsNonNegative(rows: seq<Row>, axis: Axis)
    requires forall i :: 0 <= i < |rows| ==> RowOk(rows[i])
    ensures OrZero(AmountOn(rows, axis)) >= 0.0
  {
    if rows != [] { AmountsNonNegative(rows[..|rows| - 1], axis); }
  }

  /** The settled column is the measured one, or unknown everywhere. */
  lemma {:induction false} SettledColumnAmounts(rows: seq<Row>, performed: Performed, axis: Axis)
    ensures AmountOn(SettledColumn(SettledRows(rows, performed)), axis)
         == if performed == UnknownService then None else AmountOn(rows, axis)
    ensures axis in AxesMap(SettledColumn(SettledRows(rows, performed))) <==> axis in AxesMap(rows)
  {
    if rows != [] {
      var before, last := rows[..|rows| - 1], rows[|rows| - 1];
      SettledColumnAmounts(before, performed, axis);
      var column := SettledColumn(SettledRows(rows, performed));
      assert column[..|rows| - 1] == SettledColumn(SettledRows(before, performed));
      assert column[|rows| - 1].axis == last.axis;
    }
  }

  /** The same, for the one child a change touches; and what the change does to its overrun. */
  lemma UseChange(cfg: Config, s: Snapshot, x: Change, axis: Axis)
    requires Step(cfg, s, x).Some?
    ensures var (i, c) := Changed(cfg, s, x).value;
            var was := s.children[i];
            && (x.Reserve? ==> ChildUse(c, axis) == ChildUse(was, axis) + OrZero(AmountOn(x.rows, axis)))
            && (x.RecordDispatch? ==> ChildUse(c, axis) == ChildUse(was, axis))
            && (x.Complete? ==>
                  && ChildUse(c, axis) == ChildUse(was, axis) + Max(0.0, OrZero(AmountOn(x.rows, axis)) - Reserved(was, axis))
                  && ChildOverrun(c, axis)
                     == ChildOverrun(was, axis) + Max(0.0, OrZero(AmountOn(x.rows, axis)) - Reserved(was, axis)))
            && (x.Settle? ==>
                  && ChildUse(was, axis) == Max(Reserved(was, axis), MeasuredOn(was, axis))
                  && ChildUse(c, axis) == (if ServiceUnknown(was) || MeasuredAmount(was, axis).None? then ChildUse(was, axis)
                                           else MeasuredOn(was, axis)))
            && (!x.Complete? ==> ChildOverrun(c, axis) == ChildOverrun(was, axis))
  {
    hide Step, Changed, Sound, Verified, ChildOk, ChildUse, ChildOverrun, MeasuredOn, MeasuredAmount, Reserved, AmountOn,
      AllChildrenOk, RowsOk, AxesMap, AllKnown, ServiceUnknown, Fits, SnapshotValue, Reserving, Dispatching, Completing, Settling;
    StepParts(cfg, s, x);
    ChangedIs(cfg, s, x);
    var (i, c) := Changed(cfg, s, x).value;
    var was := s.children[i];
    match x {
      case Reserve(_, attemptId, rows, at) => ReservingUse(cfg, was, attemptId, rows, at, axis);
      case RecordDispatch(_, at) => DispatchingUse(cfg, was, at, axis);
      case Settle(_, _, at) => SettlingUse(cfg, was, at, axis);
      case Complete(_, performed, rows, observation, _, at) => CompletingUse(cfg, was, performed, rows, observation, at, axis);
    }
  }

  /** The child a change leaves behind, and what the one before it lacked. */
  lemma ChangedIs(cfg: Config, s: Snapshot, x: Change)
    requires AllChildrenOk(cfg, s.children) && Changed(cfg, s, x).Some?
    ensures var (i, c) := Changed(cfg, s, x).value;
            var was := s.children[i];
            && ChildOk(cfg, was)
            && (x.Reserve? ==> was.reservation.None? && RowsOk(x.rows) && c == Reserving(cfg, was, x.attemptId, x.rows, x.at))
            && (!x.Reserve? ==> was.attemptId.Some? && was.reservation.Some?)
            && (x.RecordDispatch? ==> was.dispatch.None? && c == Dispatching(cfg, was, x.at))
            && (x.Complete? ==> was.dispatch.Some? && was.completion.None? && RowsOk(x.rows)
                                && c == Completing(cfg, was, x.performed, x.rows, x.observation, x.at))
            && (x.Settle? ==> was.completion.Some? && was.completion.value.fields.Completion? && was.settlement.None?
                              && c == Settling(cfg, was, x.at))
  {
    hide AxesMap, RowsOk, AllKnown, Affordable, AttemptTaken, Reserving, Dispatching, Completing, Settling, ArtifactOk;
    var (i, _) := Changed(cfg, s, x).value;
    assert ChildOk(cfg, s.children[i]);
    if !x.Reserve? { HeldChild(cfg, s.children[i]); }
    hide ChildOk;
  }

  lemma ReservingUse(cfg: Config, was: Child, attemptId: string, rows: seq<Row>, at: string, axis: Axis)
    requires ChildOk(cfg, was) && was.reservation.None? && RowsOk(rows)
    ensures var c := Reserving(cfg, was, attemptId, rows, at);
            && ChildUse(c, axis) == ChildUse(was, axis) + OrZero(AmountOn(rows, axis))
            && ChildOverrun(c, axis) == ChildOverrun(was, axis)
  {
    AmountsNonNegative(rows, axis);
    hide AmountOn, RowsOk, AllKnown;
  }

  lemma DispatchingUse(cfg: Config, was: Child, at: string, axis: Axis)
    requires ChildOk(cfg, was) && was.reservation.Some? && was.attemptId.Some?
    ensures var c := Dispatching(cfg, was, at);
            ChildUse(c, axis) == ChildUse(was, axis) && ChildOverrun(c, axis) == ChildOverrun(was, axis)
  {
    hide AmountOn, RowsOk, AllKnown, ChildOk;
  }

  lemma CompletingUse(cfg: Config, was: Child, performed: Performed, rows: seq<Row>, observation: Artifact, at: string, axis: Axis)
    requires ChildOk(cfg, was) && was.reservation.Some? && was.completion.None? && RowsOk(rows)
    ensures var c := Completing(cfg, was, performed, rows, observation, at);
            var over := Max(0.0, OrZero(AmountOn(rows, axis)) - Reserved(was, axis));
            ChildUse(c, axis) == ChildUse(was, axis) + over && ChildOverrun(c, axis) == ChildOverrun(was, axis) + over
  {
    AmountsNonNegative(was.reservation.value.fields.rows, axis);
    AmountsNonNegative(rows, axis);
    hide AmountOn, RowsOk, AllKnown, ArtifactOk;
  }

  lemma SettlingUse(cfg: Config, was: Child, at: string, axis: Axis)
    requires ChildOk(cfg, was) && was.completion.Some? && was.settlement.None?
    ensures var c := Settling(cfg, was, at);
            && ChildUse(was, axis) == Max(Reserved(was, axis), MeasuredOn(was, axis))
            && ChildUse(c, axis) == (if ServiceUnknown(was) || MeasuredAmount(was, axis).None? then ChildUse(was, axis)
                                     else MeasuredOn(was, axis))
            && ChildOverrun(c, axis) == ChildOverrun(was, axis)
  {
    SettledColumnAmounts(was.completion.value.fields.measuredRows, was.completion.value.fields.performed, axis);
    hide AmountOn, RowsOk, AllKnown, ArtifactOk, SettledColumn, SettledRows;
  }

  // --- whole runs --------------------------------------------------------------------------------------

  /** What the store directory holds. */
  datatype Store = Store(state: Snapshot, pending: bool)

  /** A change that runs to its end, or one that dies between writing the next snapshot and renaming it. */
  datatype Action = Act(change: Change) | Interrupted

  function Next(cfg: Config, st: Store, a: Action): Store
  {
    if st.pending then st
    else if a.Interrupted? then st.(pending := true)
    else
      var n := Step(cfg, st.state, a.change);
      if n.Some? then st.(state := n.value) else st
  }

  function Run(cfg: Config, st: Store, actions: seq<Action>): Store
  {
    if actions == [] then st else Next(cfg, Run(cfg, st, actions[..|actions| - 1]), actions[|actions| - 1])
  }

  function Start(cfg: Config): Store
  {
    Store(Created(cfg), false)
  }

  lemma {:induction false} NothingYet(children: seq<Child>, n: nat, axis: Axis)
    requires n <= |children|
    requires forall k :: 0 <= k < |children| ==> children[k] == Child(children[k].childId, None, None, None, None, None)
    ensures EventTotal(children, n) == 0 && Exposure(children, n, axis) == 0.0 && Overruns(children, n, axis) == 0.0
  {
    if n > 0 { NothingYet(children, n - 1, axis); }
  }

  lemma CreatedSound(cfg: Config)
    requires ConfigOk(cfg)
    ensures Sound(cfg, Created(cfg)) && Created(cfg).revision == 0
  {
    NothingYet(Created(cfg).children, |Created(cfg).children|, ConsoleBytes);
    hide EventTotal, RowsOk, AllKnown, StartOf, BudgetOf, LoadsBack, LoadsBackAtAnySize, IdentityOk;
  }

  /** The published snapshot is one the verifier accepts, over every run and crashes included, exactly when
      the first one fits and the identity nests no deeper than its place in the snapshot leaves room for: 61
      before anything is recorded, 58 after. A first snapshot that is refused is never got past, and an
      identity deeper than 58 stops the ledger at its first change. */
  lemma {:induction false} RunVerifies(cfg: Config, actions: seq<Action>)
    requires ConfigOk(cfg)
    ensures var s, identity := Run(cfg, Start(cfg), actions).state, cfg.binding.taskIdentity;
            && Sound(cfg, s)
            && (Verified(cfg, s) <==> Fits(SnapshotValue(cfg.texts, Created(cfg))) && Reading.DepthAtMost(identity, DepthLeft(s.revision)))
            && (!Verified(cfg, Created(cfg)) ==> s == Created(cfg))
            && (!Reading.DepthAtMost(identity, 58) ==> s.revision <= 1)
  {
    hide Verified, Sound, ConfigOk, Reading.DepthAtMost, Fits, SnapshotValue, Created;
    CreatedSound(cfg);
    ConfigTrusts(cfg);
    SoundVerifies(cfg, Created(cfg));
    if actions != [] {
      var before := actions[..|actions| - 1];
      RunVerifies(cfg, before);
      var st, a := Run(cfg, Start(cfg), before), actions[|actions| - 1];
      if !st.pending && a.Act? && Step(cfg, st.state, a.change).Some? {
        StepParts(cfg, st.state, a.change);
        StepIsSound(cfg, st.state, a.change);
        StepVerifies(cfg, st.state, a.change);
      }
      hide Step, Extends;
    }
  }

  lemma ConfigTrusts(cfg: Config)
    requires ConfigOk(cfg)
    ensures Trusts(cfg, cfg.signer) && RowsOk(cfg.limits) && AllKnown(cfg.limits) && Distinct(cfg.binding.expectedIds)
  {
    hide RowsOk, AllKnown, StartOf, BudgetOf, LoadsBack, LoadsBackAtAnySize, IdentityOk;
  }

  /** Over every run, what is committed on a budgeted axis is at most the limit plus what completed
      children were measured to have used beyond their holds. */
  lemma {:induction false} ExposureBounded(cfg: Config, actions: seq<Action>, k: nat)
    requires ConfigOk(cfg) && k < |cfg.limits|
    ensures var s := Run(cfg, Start(cfg), actions).state;
            Exposure(s.children, |s.children|, cfg.limits[k].axis)
            <= cfg.limits[k].amount.value + Overruns(s.children, |s.children|, cfg.limits[k].axis)
  {
    var axis := cfg.limits[k].axis;
    ConfigTrusts(cfg);
    hide ConfigOk;
    if actions == [] {
      NothingYet(Created(cfg).children, |Created(cfg).children|, axis);
      assert RowOk(cfg.limits[k]);
    } else {
      var before := actions[..|actions| - 1];
      ExposureBounded(cfg, before, k);
      var st, a := Run(cfg, Start(cfg), before), actions[|actions| - 1];
      hide RowsOk, AllKnown, Created;
      if !st.pending && a.Act? && Step(cfg, st.state, a.change).Some? { BoundKept(cfg, st.state, a.change, k); }
      hide Step;
    }
  }

  lemma BoundKept(cfg: Config, s: Snapshot, x: Change, k: nat)
    requires Trusts(cfg, cfg.signer) && k < |cfg.limits| && cfg.limits[k].amount.Some? && Step(cfg, s, x).Some?
    requires Exposure(s.children, |s.children|, cfg.limits[k].axis)
             <= cfg.limits[k].amount.value + Overruns(s.children, |s.children|, cfg.limits[k].axis)
    ensures var n := Step(cfg, s, x).value;
            Exposure(n.children, |n.children|, cfg.limits[k].axis)
            <= cfg.limits[k].amount.value + Overruns(n.children, |n.children|, cfg.limits[k].axis)
  {
    var axis := cfg.limits[k].axis;
    var (i, c) := Changed(cfg, s, x).value;
    TotalsOfUpdate(s.children, |s.children|, i, c, axis);
    ExposureChange(cfg, s, x, axis);
    UseChange(cfg, s, x, axis);
    OverrunsNonNegative(s.children, |s.children|, axis);
    assert x.Reserve? ==> Affordable(s, x.rows);
    hide Changed, ChildUse, ChildOverrun, MeasuredOn, MeasuredAmount, ServiceUnknown, AmountOn;
  }

  lemma {:induction false} OverrunsNonNegative(children: seq<Child>, n: nat, axis: Axis)
    requires n <= |children|
    ensures Overruns(children, n, axis) >= 0.0
  {
    if n > 0 { OverrunsNonNegative(children, n - 1, axis); }
  }

  /** Nothing a run records is ever altered or dropped by the rest of it. */
  lemma {:induction false} EventsNeverChange(cfg: Config, st: Store, actions: seq<Action>)
    requires Trusts(cfg, cfg.signer)
    ensures Extends(st.state.children, Run(cfg, st, actions).state.children)
  {
    hide Keeps;
    if actions == [] {
      forall k | 0 <= k < |st.state.children| ensures Keeps(st.state.children[k], st.state.children[k]) {
        SlotsKept(st.state.children[k], st.state.children[k]);
      }
    } else {
      var before := actions[..|actions| - 1];
      EventsNeverChange(cfg, st, before);
      var mid, a := Run(cfg, st, before), actions[|actions| - 1];
      if !mid.pending && a.Act? && Step(cfg, mid.state, a.change).Some? {
        StepIsSound(cfg, mid.state, a.change);
        ExtendsTransitive(st.state.children, mid.state.children, Step(cfg, mid.state, a.change).value.children);
      }
      hide Step;
    }
  }

  lemma ExtendsTransitive(a: seq<Child>, b: seq<Child>, c: seq<Child>)
    requires Extends(a, b) && Extends(b, c)
    ensures Extends(a, c)
  {
    forall k | 0 <= k < |a| ensures Keeps(a[k], c[k]) {
      assert Keeps(a[k], b[k]) && Keeps(b[k], c[k]);
      SlotsKept(a[k], b[k]);
      SlotsKept(b[k], c[k]);
      SlotsKept(a[k], c[k]);
      hide Keeps;
    }
  }

  /** A change that has been made is refused if it comes again, however much happens in between: one
      reservation for a child, one dispatch, completion and settlement for a reservation. */
  lemma NoChangeTwice(cfg: Config, st: Store, x: Change, actions: seq<Action>)
    requires ConfigOk(cfg) && Step(cfg, st.state, x).Some?
    ensures Step(cfg, Run(cfg, st.(state := Step(cfg, st.state, x).value), actions).state, x) == None
  {
    ConfigTrusts(cfg);
    StepParts(cfg, st.state, x);
    hide ConfigOk, Fits, SnapshotValue;
    var n := Step(cfg, st.state, x).value;
    var later := Run(cfg, st.(state := n), actions).state;
    var (i, c) := Changed(cfg, st.state, x).value;
    EventsNeverChange(cfg, st.(state := n), actions);
    ChildHasIt(cfg, st.state, x);
    hide Changed, Run, Keeps, Verified, Sound, AlreadyHas, AllChildrenOk;
    assert n.children[i] == c && Keeps(c, later.children[i]);
    if Step(cfg, later, x).Some? {
      StepParts(cfg, later, x);
      hide Step;
      HasItStill(c, later.children[i], x);
      TakenForGood(cfg, later, x, i);
    }
  }

  /** The slot a change fills. */
  function SlotOf(x: Change): Kind
  {
    match x
    case Reserve(_, _, _, _) => ReservationKind
    case RecordDispatch(_, _) => DispatchKind
    case Complete(_, _, _, _, _, _) => CompletionKind
    case Settle(_, _, _) => SettlementKind
  }

  /** The child `x` speaks of already has what `x` would add. */
  predicate AlreadyHas(c: Child, x: Change)
  {
    && Slot(c, SlotOf(x)).Some?
    && (if x.Reserve? then c.childId == x.childId else Holds(c, x.reservationId))
  }

  lemma HasItStill(before: Child, after: Child, x: Change)
    requires Keeps(before, after) && AlreadyHas(before, x)
    ensures AlreadyHas(after, x)
  {
    SlotsKept(before, after);
    hide Keeps;
  }

  lemma ChildHasIt(cfg: Config, s: Snapshot, x: Change)
    requires Verified(cfg, s) && Changed(cfg, s, x).Some?
    ensures AlreadyHas(Changed(cfg, s, x).value.1, x)
  {
  }

  lemma RecordedForGood(cfg: Config, s: Snapshot, x: Change, i: nat)
    requires !x.Reserve? && AllChildrenOk(cfg, s.children) && i < |s.children| && AlreadyHas(s.children[i], x)
    ensures Changed(cfg, s, x) == None
  {
    hide ChildOk, RowsOk, AllKnown, AxesMap, Holds, Completing, Settling, Dispatching;
    var found := Holders(s.children, |s.children|, x.reservationId);
    assert i in found;
    hide Holders;
    if |found| == 1 { assert found[0] == i; }
  }

  lemma TakenForGood(cfg: Config, s: Snapshot, x: Change, i: nat)
    requires Verified(cfg, s) && i < |s.children| && AlreadyHas(s.children[i], x) && Distinct(cfg.binding.expectedIds)
    ensures Changed(cfg, s, x) == None
  {
    hide LoadsBack, SnapshotValue, EventTotal, ChildOk, RowsOk, AllKnown, AxesMap, AttemptsDistinct;
    if x.Reserve? {
      hide Affordable, AttemptTaken, Reserving;
      assert IndexOfChild(s.children, x.childId, 0) == i;
    } else {
      hide Verified, Sound;
      RecordedForGood(cfg, s, x, i);
    }
  }

  /** A run publishes at most four snapshots a child. */
  lemma RevisionBounded(cfg: Config, actions: seq<Action>)
    requires ConfigOk(cfg)
    ensures Run(cfg, Start(cfg), actions).state.revision <= 4 * |cfg.binding.expectedIds|
  {
    RunVerifies(cfg, actions);
    var s := Run(cfg, Start(cfg), actions).state;
    hide Run, Verified, Created, ConfigOk;
    FewEvents(s.children, |s.children|);
  }

  lemma {:induction false} FewEvents(children: seq<Child>, n: nat)
    requires n <= |children|
    ensures EventTotal(children, n) <= 4 * n
  {
    if n > 0 { FewEvents(children, n - 1); }
  }
}
