/** What the ledger does, condition by condition: when each change is made and what it writes, what a report asks of
    a snapshot, and what children commit, read off the tables row by row. */
module LedgerLaws {
  import opened Wrappers
  import opened LedgerRecords
  import opened ChildLedger

  // --- tables ------------------------------------------------------------------------------------------

  ghost predicate Names(rows: seq<Row>, axis: Axis)
  {
    exists i :: 0 <= i < |rows| && rows[i].axis == axis
  }

  /** The amount in the row of the axis; None is unknown, or that there is no such row. */
  ghost function Amount(rows: seq<Row>, axis: Axis): Option<real>
  {
    if rows == [] then None else if rows[0].axis == axis then rows[0].amount else Amount(rows[1..], axis)
  }

  /** One to three rows, each of a known axis in its own units and not negative, no axis twice. */
  ghost predicate IsTable(rows: seq<Row>)
  {
    && 1 <= |rows| <= 3
    && (forall i, j :: 0 <= i < j < |rows| ==> rows[i].axis != rows[j].axis)
    && forall i :: 0 <= i < |rows| ==>
         && (rows[i].amount.Some? ==> rows[i].amount.value >= 0.0)
         && ((rows[i].axis == ProcessCpuSeconds && rows[i].tags == ("second", "SUM", "DIRECT_CHILD_PROCESS_CPU"))
             || (rows[i].axis == WallSeconds && rows[i].tags == ("second", "SUM", "CHILD_INTERVAL_SUM_NOT_PARENT_ELAPSED"))
             || (rows[i].axis == ConsoleBytes && rows[i].tags == ("byte", "SUM", "DIRECT_CHILD_CAPTURED_OUTPUT")))
  }

  ghost predicate Known(rows: seq<Row>)
  {
    forall i :: 0 <= i < |rows| ==> rows[i].amount.Some?
  }

  ghost predicate SameNames(a: seq<Row>, b: seq<Row>)
  {
    forall axis :: Names(a, axis) <==> Names(b, axis)
  }

  lemma TableIs(rows: seq<Row>)
    ensures IsTable(rows) <==> RowsOk(rows)
    ensures Known(rows) <==> AllKnown(rows)
  {
  }

  lemma SameNamesIs(a: seq<Row>, b: seq<Row>)
    ensures SameNames(a, b) <==> AxesMap(a).Keys == AxesMap(b).Keys
  {
    AxesMapHolds(a);
    AxesMapHolds(b);
    hide AxesMap;
    assert forall axis :: Names(a, axis) <==> axis in AxesMap(a);
    assert forall axis :: Names(b, axis) <==> axis in AxesMap(b);
  }

  lemma {:induction false} AmountAt(rows: seq<Row>, i: nat)
    requires i < |rows| && forall j, k :: 0 <= j < k < |rows| ==> rows[j].axis != rows[k].axis
    ensures Amount(rows, rows[i].axis) == rows[i].amount
  {
    if i > 0 {
      assert rows[0].axis != rows[i].axis;
      AmountAt(rows[1..], i - 1);
    }
  }

  lemma {:induction false} NoAmount(rows: seq<Row>, axis: Axis)
    requires !Names(rows, axis)
    ensures Amount(rows, axis) == None
  {
    if rows != [] {
      assert rows[0].axis != axis;
      forall i | 0 <= i < |rows[1..]| ensures rows[1..][i].axis != axis { assert rows[1..][i] == rows[i + 1]; }
      NoAmount(rows[1..], axis);
    }
  }

  lemma AmountIs(rows: seq<Row>, axis: Axis)
    requires forall i, j :: 0 <= i < j < |rows| ==> rows[i].axis != rows[j].axis
    ensures Amount(rows, axis) == AmountOn(rows, axis)
  {
    AxesMapHolds(rows);
    if i :| 0 <= i < |rows| && rows[i].axis == axis { AmountAt(rows, i); } else { NoAmount(rows, axis); }
    hide AxesMap, Amount;
  }

  // --- what a child commits ------------------------------------------------------------------------------

  ghost function Zero(x: Option<real>): real
  {
    if x == None then 0.0 else x.value
  }

  /** The settled amount of the axis's row. */
  ghost function Settled(rows: seq<SettledRow>, axis: Axis): Option<real>
  {
    if rows == [] then None else if rows[0].measured.axis == axis then rows[0].settled else Settled(rows[1..], axis)
  }

  /** A settled child commits what it was settled for; one that is not, or not on this axis, what is held for it, or
      more if more was measured; one that nothing is reserved for commits nothing. */
  ghost function Commits(c: Child, axis: Axis): real
  {
    if c.reservation == None || !c.reservation.value.fields.Reservation? then 0.0
    else if c.settlement.Some? && c.settlement.value.fields.Settlement?
        && Settled(c.settlement.value.fields.settledRows, axis).Some?
    then Settled(c.settlement.value.fields.settledRows, axis).value
    else
      var held := Zero(Amount(c.reservation.value.fields.rows, axis));
      var measured := if c.completion.Some? && c.completion.value.fields.Completion?
                      then Zero(Amount(c.completion.value.fields.measuredRows, axis)) else 0.0;
      if measured > held then measured else held
  }

  ghost function AllCommit(children: seq<Child>, axis: Axis): real
  {
    if children == [] then 0.0 else AllCommit(children[..|children| - 1], axis) + Commits(children[|children| - 1], axis)
  }

  lemma {:induction false} SettledIs(rows: seq<SettledRow>, axis: Axis)
    ensures Settled(rows, axis) == Amount(SettledColumn(rows), axis)
  {
    if rows != [] {
      assert SettledColumn(rows)[1..] == SettledColumn(rows[1..]);
      SettledIs(rows[1..], axis);
    }
  }

  ghost predicate OnceEach(rows: seq<Row>)
  {
    forall i, j :: 0 <= i < j < |rows| ==> rows[i].axis != rows[j].axis
  }

  /** The tables of a child that is in order name no axis twice. */
  lemma TablesOf(cfg: Config, c: Child)
    requires ChildOk(cfg, c) && c.reservation.Some?
    ensures c.reservation.value.fields.Reservation? && OnceEach(c.reservation.value.fields.rows)
    ensures c.completion.Some? ==> c.completion.value.fields.Completion? && OnceEach(c.completion.value.fields.measuredRows)
    ensures c.settlement.Some? ==> c.settlement.value.fields.Settlement? && OnceEach(SettledColumn(c.settlement.value.fields.settledRows))
  {
    HeldChild(cfg, c);
    assert SlotOk(cfg, c, ReservationKind) && SlotOk(cfg, c, CompletionKind) && SlotOk(cfg, c, SettlementKind);
    hide EventOk, AllKnown, AxesMap, RowOk;
    if c.settlement.Some? { ColumnApart(c); }
  }

  lemma ColumnApart(c: Child)
    requires c.reservation.Some? && c.settlement.Some? && c.settlement.value.fields.Settlement?
    requires c.completion.Some? && c.completion.value.fields.Completion?
             && SettlementAgrees(c.reservation.value, c.completion.value, c.settlement.value)
    requires RowsOk(c.completion.value.fields.measuredRows)
    ensures OnceEach(SettledColumn(c.settlement.value.fields.settledRows))
  {
  }

  lemma OnceAmount(rows: seq<Row>, axis: Axis)
    requires OnceEach(rows)
    ensures Amount(rows, axis) == AmountOn(rows, axis)
  {
    AmountIs(rows, axis);
  }

  lemma HeldIs(c: Child, axis: Axis)
    requires c.reservation.Some? && c.reservation.value.fields.Reservation? && OnceEach(c.reservation.value.fields.rows)
    ensures Zero(Amount(c.reservation.value.fields.rows, axis)) == Reserved(c, axis)
  {
    OnceAmount(c.reservation.value.fields.rows, axis);
    hide Amount, AmountOn, OnceEach;
  }

  lemma MeasuredIs(c: Child, axis: Axis)
    requires c.completion.Some? ==> c.completion.value.fields.Completion? && OnceEach(c.completion.value.fields.measuredRows)
    ensures MeasuredOn(c, axis) == if c.completion.Some? then Zero(Amount(c.completion.value.fields.measuredRows, axis)) else 0.0
  {
    if c.completion.Some? { OnceAmount(c.completion.value.fields.measuredRows, axis); }
    hide Amount, AmountOn, OnceEach;
  }

  lemma PaidOnIs(c: Child, axis: Axis)
    requires c.settlement.Some? ==> c.settlement.value.fields.Settlement? && OnceEach(SettledColumn(c.settlement.value.fields.settledRows))
    ensures SettledOn(c, axis) == if c.settlement.Some? then Settled(c.settlement.value.fields.settledRows, axis) else None
  {
    if c.settlement.Some? {
      SettledIs(c.settlement.value.fields.settledRows, axis);
      OnceAmount(SettledColumn(c.settlement.value.fields.settledRows), axis);
    }
    hide Amount, AmountOn, OnceEach, Settled, SettledColumn;
  }

  lemma CommitsIs(cfg: Config, c: Child, axis: Axis)
    requires ChildOk(cfg, c)
    ensures Commits(c, axis) == ChildUse(c, axis)
  {
    hide ChildOk, Amount, AmountOn, Settled, SettledColumn, OnceEach, Reserved, MeasuredOn, SettledOn;
    if c.reservation.Some? {
      TablesOf(cfg, c);
      HeldIs(c, axis);
      MeasuredIs(c, axis);
      PaidOnIs(c, axis);
    }
  }

  lemma {:induction false} AllCommitIs(cfg: Config, children: seq<Child>, n: nat, axis: Axis)
    requires n <= |children| && AllChildrenOk(cfg, children)
    ensures AllCommit(children[..n], axis) == Exposure(children, n, axis)
  {
    hide ChildOk, Commits, ChildUse;
    if n > 0 {
      AllCommitIs(cfg, children, n - 1, axis);
      assert children[..n][..n - 1] == children[..n - 1];
      CommitsIs(cfg, children[n - 1], axis);
    }
  }

  // --- a snapshot in order -------------------------------------------------------------------------------

  /** A signed event of the child's own attempt, under the ledger's binding. */
  ghost predicate Own(cfg: Config, c: Child, attempt: string, kind: Kind, e: Event)
  {
    && e.signer.issuer in cfg.trust && cfg.trust[e.signer.issuer] == (e.signer.key, e.signer.producer)
    && e.eventId == EventId(kind, cfg.binding, c.childId, attempt)
  }

  /** A hold on every axis of the budget, identified by its own event. */
  ghost predicate HoldInOrder(cfg: Config, c: Child, attempt: string, e: Event)
  {
    && Own(cfg, c, attempt, ReservationKind, e) && e.fields.Reservation?
    && e.fields == Reservation(e.eventId, e.recordedAt, e.fields.rows)
    && IsTable(e.fields.rows) && Known(e.fields.rows) && SameNames(e.fields.rows, cfg.limits)
  }

  ghost predicate DispatchInOrder(cfg: Config, c: Child, attempt: string, hold: Event, e: Event)
  {
    Own(cfg, c, attempt, DispatchKind, e) && e.fields == Dispatch(hold.eventId, DigestOf(hold))
  }

  ghost function State(rows: seq<Row>): Measured
  {
    if Known(rows) then Recorded else PartialOrUnknown
  }

  /** A completion measures every axis, or says that it does not know, and names its observation. */
  ghost predicate CompletionInOrder(cfg: Config, c: Child, attempt: string, hold: Event, e: Event)
  {
    && Own(cfg, c, attempt, CompletionKind, e) && e.fields.Completion?
    && var rows := e.fields.measuredRows;
       && e.fields == Completion(hold.eventId, DigestOf(hold), e.fields.performed, State(rows), e.fields.observation, rows)
       && IsTable(rows) && SameNames(rows, cfg.limits)
       && IsText(e.fields.observation.path) && IsHex64(e.fields.observation.sha256)
  }

  /** Each measured row, and its amount again unless the service is unknown. */
  ghost function Paid(rows: seq<Row>, performed: Performed): seq<SettledRow>
  {
    if rows == [] then []
    else [SettledRow(rows[0], if performed == UnknownService then None else rows[0].amount)] + Paid(rows[1..], performed)
  }

  /** A settlement says again what the completion said, and settles each amount it knows unless the service is
      unknown. */
  ghost predicate SettlementInOrder(cfg: Config, c: Child, attempt: string, hold: Event, done: Event, e: Event)
  {
    && Own(cfg, c, attempt, SettlementKind, e) && done.fields.Completion?
    && e.fields == Settlement(hold.eventId, DigestOf(hold), DigestOf(done), (hold.eventId, DigestOf(done)), e.recordedAt,
                              done.fields.performed, done.fields.measured, Paid(done.fields.measuredRows, done.fields.performed))
  }

  /** A child is unused, or has come one stage after another to where it is. */
  ghost predicate ChildInOrder(cfg: Config, c: Child)
  {
    if c.attemptId == None then c == Child(c.childId, None, None, None, None, None)
    else
      var attempt := c.attemptId.value;
      && IsText(attempt) && c.reservation.Some? && HoldInOrder(cfg, c, attempt, c.reservation.value)
      && (c.dispatch.Some? ==> DispatchInOrder(cfg, c, attempt, c.reservation.value, c.dispatch.value))
      && (c.completion.Some? ==> c.dispatch.Some? && CompletionInOrder(cfg, c, attempt, c.reservation.value, c.completion.value))
      && (c.settlement.Some? ==>
            c.completion.Some? && SettlementInOrder(cfg, c, attempt, c.reservation.value, c.completion.value, c.settlement.value))
  }

  ghost function Recorded1(e: Option<Event>): nat
  {
    if e.Some? then 1 else 0
  }

  ghost function AllRecorded(children: seq<Child>): nat
  {
    if children == [] then 0
    else
      var c := children[|children| - 1];
      AllRecorded(children[..|children| - 1])
      + Recorded1(c.reservation) + Recorded1(c.dispatch) + Recorded1(c.completion) + Recorded1(c.settlement)
  }

  ghost predicate SnapshotInOrder(cfg: Config, s: Snapshot)
  {
    && s.signer.issuer in cfg.trust && cfg.trust[s.signer.issuer] == (s.signer.key, s.signer.producer)
    && s.binding == cfg.binding && s.limits == cfg.limits && IsTable(s.limits) && Known(s.limits)
    && |s.children| == |cfg.binding.expectedIds|
        && (forall i :: 0 <= i < |s.children| ==> s.children[i].childId == cfg.binding.expectedIds[i])
    && (forall i :: 0 <= i < |s.children| ==> ChildInOrder(cfg, s.children[i]))
    && (forall i, j :: 0 <= i < j < |s.children| && s.children[i].attemptId.Some? ==> s.children[i].attemptId != s.children[j].attemptId)
    && s.revision == AllRecorded(s.children)
  }

  lemma HoldIs(cfg: Config, c: Child, e: Event)
    requires c.attemptId.Some?
    ensures ReservationOk(cfg, c, e) <==> HoldInOrder(cfg, c, c.attemptId.value, e)
  {
    if e.fields.Reservation? {
      TableIs(e.fields.rows);
      SameNamesIs(e.fields.rows, cfg.limits);
    }
    hide AxesMap, RowsOk, IsTable, Known, AllKnown, SameNames;
  }

  lemma CompletionIs(cfg: Config, c: Child, hold: Event, e: Event)
    requires c.attemptId.Some?
    ensures CompletionOk(cfg, c, hold, e) <==> CompletionInOrder(cfg, c, c.attemptId.value, hold, e)
  {
    if e.fields.Completion? {
      TableIs(e.fields.measuredRows);
      SameNamesIs(e.fields.measuredRows, cfg.limits);
    }
    hide AxesMap, RowsOk, IsTable, Known, AllKnown, SameNames, IsText, IsHex64;
  }

  lemma SettlementIs(cfg: Config, c: Child, hold: Event, done: Event, e: Event)
    requires c.attemptId.Some? && done.fields.Completion?
    ensures SettlementLinked(cfg, c, hold, e) && SettlementAgrees(hold, done, e)
            <==> SettlementInOrder(cfg, c, c.attemptId.value, hold, done, e)
  {
    PaidIs(done.fields.measuredRows, done.fields.performed);
    hide SettledRows, Paid;
  }

  lemma {:induction false} PaidIs(rows: seq<Row>, performed: Performed)
    ensures Paid(rows, performed) == SettledRows(rows, performed)
  {
    if rows != [] {
      PaidIs(rows[1..], performed);
      assert SettledRows(rows, performed)[1..] == SettledRows(rows[1..], performed);
    }
  }

  lemma ChildIs(cfg: Config, c: Child)
    ensures ChildOk(cfg, c) <==> ChildInOrder(cfg, c)
  {
    if c.attemptId.Some? && c.reservation.Some? {
      HoldIs(cfg, c, c.reservation.value);
      if c.completion.Some? {
        CompletionIs(cfg, c, c.reservation.value, c.completion.value);
        if c.settlement.Some? && c.completion.value.fields.Completion? {
          SettlementIs(cfg, c, c.reservation.value, c.completion.value, c.settlement.value);
        }
      }
    }
    hide ReservationOk, CompletionOk, SettlementAgrees, HoldInOrder, CompletionInOrder, SettlementInOrder, IsText;
  }

  lemma {:induction false} RecordedIs(children: seq<Child>, n: nat)
    requires n <= |children|
    ensures EventTotal(children, n) == AllRecorded(children[..n])
  {
    if n > 0 {
      RecordedIs(children, n - 1);
      assert children[..n][..n - 1] == children[..n - 1];
    }
  }

  /** What a report asks of a snapshot's fields is exactly that it is in order; a snapshot verifies when it also fits
      and loads. */
  lemma SoundIs(cfg: Config, s: Snapshot)
    ensures Sound(cfg, s) <==> SnapshotInOrder(cfg, s)
  {
    TableIs(s.limits);
    RecordedIs(s.children, |s.children|);
    assert s.children[..|s.children|] == s.children;
    forall i | 0 <= i < |s.children| ensures ChildOk(cfg, s.children[i]) <==> ChildInOrder(cfg, s.children[i]) { ChildIs(cfg, s.children[i]); }
    hide ChildOk, ChildInOrder, IsTable, RowsOk, Known, AllKnown, EventTotal, AllRecorded;
  }

  // --- the changes ---------------------------------------------------------------------------------------

  /** The next snapshot, with the child at `i` replaced. */
  ghost function After(cfg: Config, s: Snapshot, i: nat, c: Child): Snapshot
    requires i < |s.children|
  {
    Snapshot(s.binding, s.limits, s.revision + 1, Some(s), s.children[i := c], cfg.signer)
  }

  /** It can be written: it takes at most four mebibytes. */
  ghost predicate Writable(cfg: Config, s: Snapshot)
  {
    Fits(SnapshotValue(cfg.texts, s))
  }

  /** Nothing committed on any axis of the budget goes over its limit with the request. */
  ghost predicate Room(s: Snapshot, rows: seq<Row>)
  {
    forall axis :: Names(s.limits, axis)
        ==> AllCommit(s.children, axis) + Zero(Amount(rows, axis)) <= Zero(Amount(s.limits, axis))
  }

  lemma RoomIs(cfg: Config, s: Snapshot, rows: seq<Row>)
    requires Sound(cfg, s) && RowsOk(rows)
    ensures Room(s, rows) <==> Affordable(s, rows)
  {
    forall k | 0 <= k < |s.limits|
      ensures AllCommit(s.children, s.limits[k].axis) == Exposure(s.children, |s.children|, s.limits[k].axis)
      ensures Amount(rows, s.limits[k].axis) == AmountOn(rows, s.limits[k].axis)
              && Amount(s.limits, s.limits[k].axis) == s.limits[k].amount
    {
      AllCommitIs(cfg, s.children, |s.children|, s.limits[k].axis);
      assert s.children[..|s.children|] == s.children;
      AmountIs(rows, s.limits[k].axis);
      AmountAt(s.limits, k);
    }
    hide AllCommit, Exposure, Amount, AmountOn, AllChildrenOk;
  }

  lemma {:induction false} FirstChild(children: seq<Child>, i: nat, from: nat)
    requires from <= i < |children| && forall j :: from <= j < i ==> children[j].childId != children[i].childId
    ensures IndexOfChild(children, children[i].childId, from) == i
    decreases i - from
  {
    if from < i { FirstChild(children, i, from + 1); }
  }

  /** A change is published where it is allowed and can be written. */
  lemma StepIs(cfg: Config, s: Snapshot, x: Change)
    requires Verified(cfg, s)
    ensures AllChildrenOk(cfg, s.children)
    ensures var c := Changed(cfg, s, x);
            Step(cfg, s, x) == if c.None? || !Writable(cfg, After(cfg, s, c.value.0, c.value.1)) then None
                               else Some(After(cfg, s, c.value.0, c.value.1))
  {
    ChildrenOk(cfg, s);
    hide Verified, Changed, AllChildrenOk, Fits, SnapshotValue;
  }

  /** A hold is made exactly for an expected child that has none, for a new attempt, with a known amount for each axis
      of the budget and none besides, where it leaves every axis within its limit. */
  lemma ReserveMeans(cfg: Config, s: Snapshot, i: nat, attempt: string, rows: seq<Row>, at: string)
    requires Verified(cfg, s) && i < |s.children|
             && forall j :: 0 <= j < i ==> s.children[j].childId != s.children[i].childId
    ensures var id := EventId(ReservationKind, cfg.binding, s.children[i].childId, attempt);
            var c := s.children[i].(attemptId := Some(attempt), reservation := Some(Event(id, at, Reservation(id, at, rows), cfg.signer)));
            Step(cfg, s, Reserve(s.children[i].childId, attempt, rows, at))
            == if && IsText(at) && IsText(attempt) && IsTable(rows) && Known(rows) && SameNames(rows, s.limits)
                  && s.children[i].reservation == None
                      && (forall j :: 0 <= j < |s.children| ==> s.children[j].attemptId != Some(attempt))
                  && Room(s, rows) && Writable(cfg, After(cfg, s, i, c))
               then Some(After(cfg, s, i, c)) else None
  {
    hide Verified, Step, Changed, Writable;
    ChildrenOk(cfg, s);
    StepIs(cfg, s, Reserve(s.children[i].childId, attempt, rows, at));
    ReserveAllowed(cfg, s, i, attempt, rows, at);
    hide Sound, IsText, IsTable, Known, SameNames, Room, AllChildrenOk;
  }

  lemma ReserveAllowed(cfg: Config, s: Snapshot, i: nat, attempt: string, rows: seq<Row>, at: string)
    requires Sound(cfg, s) && i < |s.children| && forall j :: 0 <= j < i ==> s.children[j].childId != s.children[i].childId
    ensures var id := EventId(ReservationKind, cfg.binding, s.children[i].childId, attempt);
            var c := s.children[i].(attemptId := Some(attempt), reservation := Some(Event(id, at, Reservation(id, at, rows), cfg.signer)));
            Changed(cfg, s, Reserve(s.children[i].childId, attempt, rows, at))
            == if && IsText(at) && IsText(attempt) && IsTable(rows) && Known(rows) && SameNames(rows, s.limits)
                  && s.children[i].reservation == None
                      && (forall j :: 0 <= j < |s.children| ==> s.children[j].attemptId != Some(attempt))
                  && Room(s, rows)
               then Some((i, c)) else None
  {
    TableIs(rows);
    SameNamesIs(rows, s.limits);
    FirstChild(s.children, i, 0);
    if RowsOk(rows) { RoomIs(cfg, s, rows); }
    hide AxesMap, RowsOk, IsTable, Known, AllKnown, SameNames, Affordable, Room, IndexOfChild, IsText, AllChildrenOk;
  }

  lemma ChildrenOk(cfg: Config, s: Snapshot)
    requires Verified(cfg, s)
    ensures AllChildrenOk(cfg, s.children) && Sound(cfg, s)
  {
    hide LoadsBack, SnapshotValue;
  }

  /** Nothing is held for a child that is not expected. */
  lemma UnexpectedRefused(cfg: Config, s: Snapshot, childId: string, attempt: string, rows: seq<Row>, at: string)
    requires forall i :: 0 <= i < |s.children| ==> s.children[i].childId != childId
    ensures Step(cfg, s, Reserve(childId, attempt, rows, at)) == None
  {
    if Verified(cfg, s) { ChildrenOk(cfg, s); }
    hide Verified, Affordable, AllChildrenOk;
  }

  /** The child with that hold. */
  ghost predicate HeldAs(s: Snapshot, i: nat, id: EventId)
  {
    i < |s.children| && s.children[i].reservation.Some? && s.children[i].reservation.value.eventId == id
  }

  lemma OneHolder(cfg: Config, s: Snapshot, i: nat, id: EventId)
    requires Verified(cfg, s) && HeldAs(s, i, id)
    ensures Holders(s.children, |s.children|, id) == [i]
  {
    ChildrenOk(cfg, s);
    hide Verified;
    HolderIn(cfg, s.children, i, id);
    hide Holders, AllChildrenOk, Holds;
    var found := Holders(s.children, |s.children|, id);
    forall k | 0 <= k < |found| ensures found[k] == i { SameHolder(cfg, s, found[k], i, id); }
    HoldersOnce(s.children, |s.children|, id);
    OnlyOne(found, i);
  }

  lemma HolderIn(cfg: Config, children: seq<Child>, i: nat, id: EventId)
    requires AllChildrenOk(cfg, children) && i < |children| && children[i].reservation.Some?
             && children[i].reservation.value.eventId == id
    ensures i in Holders(children, |children|, id)
  {
    assert ChildOk(cfg, children[i]);
    assert Holds(children[i], id);
    hide Holders;
  }

  lemma SameAttempt(cfg: Config, a: Child, b: Child, id: EventId)
    requires ChildOk(cfg, a) && ChildOk(cfg, b) && Holds(a, id) && b.reservation.Some? && b.reservation.value.eventId == id
    ensures a.attemptId.Some? && a.attemptId == b.attemptId
  {
    HeldChild(cfg, a);
    HeldChild(cfg, b);
    assert SlotOk(cfg, a, ReservationKind) && SlotOk(cfg, b, ReservationKind);
    hide SameAxes, AllKnown;
  }

  lemma AttemptsApart(cfg: Config, s: Snapshot, i: nat, j: nat)
    requires Sound(cfg, s) && i < |s.children| && j < |s.children| && s.children[i].attemptId.Some?
    ensures s.children[i].attemptId == s.children[j].attemptId ==> i == j
  {
    hide AllChildrenOk, InOrder, RowsOk, AllKnown;
  }

  lemma SameHolder(cfg: Config, s: Snapshot, j: nat, i: nat, id: EventId)
    requires Sound(cfg, s) && i < |s.children| && j < |s.children| && Holds(s.children[j], id) && HeldAs(s, i, id)
    ensures j == i
  {
    assert ChildOk(cfg, s.children[i]) && ChildOk(cfg, s.children[j]);
    hide ChildOk, Sound, Holds;
    SameAttempt(cfg, s.children[j], s.children[i], id);
    AttemptsApart(cfg, s, j, i);
  }

  lemma {:induction false} HoldersOnce(children: seq<Child>, n: nat, id: EventId)
    requires n <= |children|
    ensures forall a, b :: 0 <= a < b < |Holders(children, n, id)| ==> Holders(children, n, id)[a] < Holders(children, n, id)[b]
  {
    if n > 0 { HoldersOnce(children, n - 1, id); }
  }

  lemma OnlyOne(found: seq<nat>, i: nat)
    requires i in found && (forall k :: 0 <= k < |found| ==> found[k] == i)
             && forall a, b :: 0 <= a < b < |found| ==> found[a] < found[b]
    ensures found == [i]
  {
    TwoDiffer(found);
  }

  lemma TwoDiffer(found: seq<nat>)
    requires forall a, b :: 0 <= a < b < |found| ==> found[a] < found[b]
    ensures |found| >= 2 ==> found[0] != found[1]
  {
    if |found| >= 2 { assert found[0] < found[1]; }
  }

  lemma Unheld(cfg: Config, s: Snapshot, id: EventId)
    requires AllChildrenOk(cfg, s.children) && forall i: nat :: !HeldAs(s, i, id)
    ensures Holders(s.children, |s.children|, id) == []
  {
    var found := Holders(s.children, |s.children|, id);
    hide Holders, AllChildrenOk;
    if found != [] { HolderHeld(cfg, s, found[0], id); }
  }

  /** A change to a hold nobody has is refused. */
  lemma UnheldRefused(cfg: Config, s: Snapshot, x: Change)
    requires !x.Reserve? && forall i: nat :: !HeldAs(s, i, x.reservationId)
    ensures Step(cfg, s, x) == None
  {
    if Verified(cfg, s) {
      StepIs(cfg, s, x);
      hide Verified, Step, Writable, Sound, AllChildrenOk;
      Unheld(cfg, s, x.reservationId);
      hide Holders;
    }
  }

  lemma HolderHeld(cfg: Config, s: Snapshot, i: nat, id: EventId)
    requires AllChildrenOk(cfg, s.children) && i < |s.children| && Holds(s.children[i], id)
    ensures HeldAs(s, i, id)
  {
    assert ChildOk(cfg, s.children[i]);
    HeldChild(cfg, s.children[i]);
    assert SlotOk(cfg, s.children[i], ReservationKind);
    hide SameAxes, AllKnown;
  }

  /** What the holder's child is known to be. */
  lemma HolderIs(cfg: Config, s: Snapshot, i: nat, id: EventId)
    requires Verified(cfg, s) && HeldAs(s, i, id)
    ensures AllChildrenOk(cfg, s.children) && Holders(s.children, |s.children|, id) == [i] && ChildOk(cfg, s.children[i])
    ensures s.children[i].attemptId.Some? && s.children[i].reservation.value.fields.Reservation?
    ensures s.children[i].completion.Some? ==> s.children[i].completion.value.fields.Completion?
  {
    ChildrenOk(cfg, s);
    OneHolder(cfg, s, i, id);
    hide Verified, Holders, Sound;
    HeldChild(cfg, s.children[i]);
  }

  /** A dispatch is recorded once for a hold. */
  lemma DispatchMeans(cfg: Config, s: Snapshot, i: nat, id: EventId, at: string)
    requires Verified(cfg, s) && HeldAs(s, i, id)
    ensures s.children[i].attemptId.Some?
    ensures var hold := s.children[i].reservation.value;
            var e := Event(EventId(DispatchKind, cfg.binding, s.children[i].childId, s.children[i].attemptId.value),
                at, Dispatch(id, DigestOf(hold)), cfg.signer);
            var t := After(cfg, s, i, s.children[i].(dispatch := Some(e)));
            Step(cfg, s, RecordDispatch(id, at)) == if IsText(at) && s.children[i].dispatch == None
                && Writable(cfg, t) then Some(t) else None
  {
    hide Verified, Holders, AllChildrenOk, ChildOk, Writable, IsText, Step;
    HolderIs(cfg, s, i, id);
    StepIs(cfg, s, RecordDispatch(id, at));
  }

  /** A completion is recorded once for a dispatch, where the observation's file says the same, for the axes of the
      hold. */
  lemma CompleteMeans(cfg: Config, s: Snapshot, i: nat, id: EventId, performed: Performed, rows: seq<Row>,
                      observation: Artifact,
                      file: Option<Observed>, at: string)
    requires Verified(cfg, s) && HeldAs(s, i, id)
    ensures s.children[i].attemptId.Some? && s.children[i].reservation.value.fields.Reservation?
    ensures var hold := s.children[i].reservation.value;
            var e := Event(EventId(CompletionKind, cfg.binding, s.children[i].childId, s.children[i].attemptId.value), at,
                           Completion(id, DigestOf(hold), performed, State(rows), observation, rows), cfg.signer);
            var t := After(cfg, s, i, s.children[i].(completion := Some(e)));
            Step(cfg, s, Complete(id, performed, rows, observation, file, at))
            == if && IsText(at) && IsTable(rows) && IsText(observation.path) && IsHex64(observation.sha256)
                && file == Some(Observed(id, performed, rows))
                  && s.children[i].dispatch.Some? && s.children[i].completion == None
                      && SameNames(rows, hold.fields.rows) && Writable(cfg, t)
               then Some(t) else None
  {
    hide Verified, Holders, AllChildrenOk, ChildOk, Writable, IsText, IsHex64, RowsOk, IsTable, Known, AllKnown,
         SameNames, AxesMap, Step;
    HolderIs(cfg, s, i, id);
    StepIs(cfg, s, Complete(id, performed, rows, observation, file, at));
    TableIs(rows);
    SameNamesIs(rows, s.children[i].reservation.value.fields.rows);
  }

  /** A settlement is recorded once, of exactly the completion that is named. */
  lemma SettleMeans(cfg: Config, s: Snapshot, i: nat, id: EventId, completion: Digest, at: string)
    requires Verified(cfg, s) && HeldAs(s, i, id)
    ensures s.children[i].attemptId.Some?
            && (s.children[i].completion.Some? ==> s.children[i].completion.value.fields.Completion?)
    ensures s.children[i].completion == None ==> Step(cfg, s, Settle(id, completion, at)) == None
    ensures s.children[i].completion.Some? ==>
              var hold, done := s.children[i].reservation.value, s.children[i].completion.value;
              var e := Event(EventId(SettlementKind, cfg.binding, s.children[i].childId, s.children[i].attemptId.value), at,
                             Settlement(id, DigestOf(hold), DigestOf(done), (id, DigestOf(done)), at, done.fields.performed, done.fields.measured,
                                        Paid(done.fields.measuredRows, done.fields.performed)), cfg.signer);
              var t := After(cfg, s, i, s.children[i].(settlement := Some(e)));
              Step(cfg, s, Settle(id, completion, at))
              == if IsText(at) && completion == DigestOf(done) && s.children[i].settlement == None
                  && Writable(cfg, t) then Some(t) else None
  {
    hide Verified, Holders, AllChildrenOk, ChildOk, Writable, IsText, Step, SettledRows, Paid;
    HolderIs(cfg, s, i, id);
    StepIs(cfg, s, Settle(id, completion, at));
    if s.children[i].completion.Some? {
      PaidIs(s.children[i].completion.value.fields.measuredRows, s.children[i].completion.value.fields.performed);
    }
  }
}
