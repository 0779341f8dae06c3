/** What every run of the capacity pool and its successors keeps: validity without self-checking, the
    capacities across succession, and each entry's one-way history. */
module PoolRuns {
  import opened Wrappers
  import opened Values
  import opened CapacityPools
  import opened PoolReading
  import Layout = LedgerLayout
  import Limits = LedgerLimits
  import Reading = DepthScan
  import Records = LedgerRecords

  // --- totals under an append and an update ------------------------------------------------------------

  lemma {:induction false} CommonTotalsOfUpdate(entries: seq<CommonEntry>, n: nat, i: nat, e: CommonEntry)
    requires i < |entries| && n <= |entries|
    ensures RetainedTotal(entries[i := e], n) + (if i < n then entries[i].retained else 0)
         == RetainedTotal(entries, n) + (if i < n then e.retained else 0)
    ensures CommonEvents(entries[i := e], n) + (if i < n then CommonEventsOf(entries[i]) else 0)
         == CommonEvents(entries, n) + (if i < n then CommonEventsOf(e) else 0)
  {
    if n > 0 { CommonTotalsOfUpdate(entries, n - 1, i, e); }
  }

  lemma {:induction false} CommonTotalsOfAppend(entries: seq<CommonEntry>, e: CommonEntry, n: nat)
    requires n <= |entries|
    ensures RetainedTotal(entries + [e], n) == RetainedTotal(entries, n) && CommonEvents(entries + [e], n) == CommonEvents(entries, n)
  {
    if n > 0 { CommonTotalsOfAppend(entries, e, n - 1); }
  }

  lemma {:induction false} TotalsOfUpdate(entries: seq<Entry>, n: nat, i: nat, e: Entry, k: nat)
    requires i < |entries| && n <= |entries|
    ensures RetainedOf(entries[i := e], n) + (if i < n then Retained(entries[i]) else 0) == RetainedOf(entries, n) + (if i < n then Retained(e) else 0)
    ensures ManagedOf(entries[i := e], n) + (if i < n then ManagedBytes(entries[i]) else 0) == ManagedOf(entries, n) + (if i < n then ManagedBytes(e) else 0)
    ensures Events(entries[i := e], n) + (if i < n then EventsOf(entries[i]) else 0) == Events(entries, n) + (if i < n then EventsOf(e) else 0)
    ensures ResourceOf(entries[i := e], n, k) + (if i < n then At(Resources(entries[i]), k) else 0)
         == ResourceOf(entries, n, k) + (if i < n then At(Resources(e), k) else 0)
  {
    hide Retained, ManagedBytes, EventsOf, Resources;
    if n > 0 { TotalsOfUpdate(entries, n - 1, i, e, k); }
  }

  lemma {:induction false} TotalsOfAppend(entries: seq<Entry>, e: Entry, n: nat, k: nat)
    requires n <= |entries|
    ensures RetainedOf(entries + [e], n) == RetainedOf(entries, n) && ManagedOf(entries + [e], n) == ManagedOf(entries, n)
    ensures Events(entries + [e], n) == Events(entries, n) && ResourceOf(entries + [e], n, k) == ResourceOf(entries, n, k)
  {
    hide Retained, ManagedBytes, EventsOf, Resources;
    if n > 0 { TotalsOfAppend(entries, e, n - 1, k); }
  }

  // --- the common pool validates what it did not check -------------------------------------------------

  lemma ReservedOk(cfg: Config, entries: seq<CommonEntry>, revision: nat, b: Binding)
    requires CommonOk(cfg, entries, revision) && Reserved(cfg, entries, b).Some?
    ensures CommonOk(cfg, Reserved(cfg, entries, b).value, revision + 1)
  {
    CommonTotalsOfAppend(entries, CommonEntry(b, b, None, None, OUTPUT_HOLD), |entries|);
  }

  lemma UpdatedOk(cfg: Config, entries: seq<CommonEntry>, revision: nat, i: nat, e: CommonEntry)
    requires CommonOk(cfg, entries, revision) && i < |entries|
    requires CommonEntryOk(e) && e.binding == entries[i].binding && CommonEventsOf(e) == CommonEventsOf(entries[i]) + 1
    requires e.retained <= entries[i].retained
    ensures CommonOk(cfg, entries[i := e], revision + 1)
  {
    CommonTotalsOfUpdate(entries, |entries|, i, e);
    hide CommonEntryOk, CommonEventsOf;
  }

  /** What a change adds is shallow enough to be read back: all that a reservation is bound to nests at most 58
      deep, and of the two records a dispatch brings the producers at most 58 and the members of their bodies
      at most 57. */
  predicate ReadsBack(op: CommonOp)
  {
    match op
    case Reserve(b) => BindingShallow(b, 58)
    case BindDispatch(_, r, link) => DispatchShallow(Dispatch(r, link), 58)
    case SettleChild(_, _) => true
  }

  /** Publishing without a self-check: whatever the common pool writes, its validator's rules hold of it, with
      the revision the number of events and every capacity kept. But it can be read back, and so validated at
      all, exactly when what was just added is shallow enough. */
  lemma CommonStepValid(cfg: Config, h: Head, op: CommonOp)
    requires CommonStep(cfg, h, op).Some?
    ensures var n := CommonStep(cfg, h, op).value;
            && Valid(cfg, n) && n.revision == h.revision + 1
            && (Readable(cfg, n) <==> ReadsBack(op))
  {
    CommonDepth(cfg, h.common);
    CommonDepth(cfg, CommonStep(cfg, h, op).value.common);
    hide CommonContainers, Reading.DepthAtMost;
    if op.Reserve? {
      ReservedOk(cfg, h.common, h.revision, op.binding);
      hide CommonOk, Reserved;
      ReservedShallow(cfg, h.common, op.binding);
    } else {
      var i := Holders(h.common, |h.common|, op.ticket)[0];
      assert CommonEntryOk(h.common[i]);
      var e := (if op.BindDispatch? then Bound(cfg, h.common[i], op) else SettledEntry(cfg, h.common[i], op)).value;
      UpdatedShallow(h.common, i, e);
      hide AllShallow;
      UpdatedOk(cfg, h.common, h.revision, i, e);
      hide CommonOk;
    }
  }

  lemma ReservedShallow(cfg: Config, entries: seq<CommonEntry>, b: Binding)
    requires AllShallow(entries) && Reserved(cfg, entries, b).Some?
    ensures AllShallow(Reserved(cfg, entries, b).value) <==> BindingShallow(b, 58)
  {
    hide Reading.DepthAtMost, AlreadyHeld, RetainedTotal, BindingShallow;
    var more := Reserved(cfg, entries, b).value;
    if BindingShallow(b, 58) { Deeper(b, 58, 59); }
    assert EntryShallow(more[|entries|], 61) <==> BindingShallow(b, 58);
    hide EntryShallow, Reserved;
    assert forall i :: 0 <= i < |entries| ==> more[i] == entries[i];
  }

  lemma Deeper(b: Binding, m: int, n: int)
    requires m <= n && BindingShallow(b, m)
    ensures BindingShallow(b, n)
  {
    Layout.DepthMonotone(b.identity, m, n);
    Layout.DepthMonotone(b.input, m, n);
    Layout.DepthMonotone(b.childTrust, m, n);
    Layout.DepthMonotone(b.observer, m, n);
  }

  lemma UpdatedShallow(entries: seq<CommonEntry>, i: nat, e: CommonEntry)
    requires i < |entries| && AllShallow(entries) && e.binding == entries[i].binding && e.ticket == entries[i].ticket
    requires entries[i].dispatch.Some? ==> e.dispatch == entries[i].dispatch
    ensures AllShallow(entries[i := e])
            <==> (e.dispatch.Some? && entries[i].dispatch.None? ==> DispatchShallow(e.dispatch.value, 58))
  {
    hide Reading.DepthAtMost, BindingShallow, DispatchShallow;
    assert EntryShallow(entries[i], 61);
    if AllShallow(entries[i := e]) { assert EntryShallow(entries[i := e][i], 61); }
  }

  // --- epochs: what the self-check can still refuse ----------------------------------------------------

  lemma ChangedOk(kind: Kind, e: Entry, c: Change)
    requires EntryOk(kind, e) && Changed(e, c).Some?
    ensures var n := Changed(e, c).value;
            && EntryOk(kind, n) && EventsOf(n) == EventsOf(e) + 1
            && Retained(n) == Retained(e) && ManagedBytes(n) <= ManagedBytes(e) && Resources(n) == Resources(e)
            && SameClaims(e, n)
  {
    assert Resources(Changed(e, c).value) == Resources(e);
  }

  /** The same things are claimed. */
  predicate SameClaims(e: Entry, n: Entry)
  {
    match e
    case ManagedEntry(capture, attempt, destination, receiptBytes, _, _, _) =>
      n.ManagedEntry? && n.capture == capture && n.attempt == attempt && n.destination == destination && n.receiptBytes == receiptBytes
    case ServiceEntry(attemptId, root, preview, _, _, _, _, _) =>
      n.ServiceEntry? && n.attemptId == attemptId && n.root == root && n.preview == preview
    case AdoptionEntry(plan, copy, _, _, _) => n.AdoptionEntry? && n.plan == plan && n.copy == copy
    case ReviewEntry(reviewId, _, _, _) => n.ReviewEntry? && n.reviewId == reviewId
  }

  lemma UpdatedEntriesOk(kind: Kind, caps: Needs, entries: seq<Entry>, i: nat, e: Entry)
    requires EntriesOk(kind, caps, entries) && i < |entries| && EntryOk(kind, e)
    requires SameClaims(entries[i], e) && Resources(e) == Resources(entries[i])
    ensures EntriesOk(kind, caps, entries[i := e])
  {
    forall k | 0 <= k < |Amounts(caps)| ensures ResourceOf(entries[i := e], |entries|, k) <= Amounts(caps)[k] {
      TotalsOfUpdate(entries, |entries|, i, e, k);
    }
    hide EntryOk;
    var after := entries[i := e];
    forall a, b | 0 <= a < b < |after| ensures Disjoint(after[a], after[b]) {
      assert Disjoint(entries[a], entries[b]);
    }
  }

  /** A head whose entries moved on by one event. */
  lemma EpochValid(cfg: Config, h: Head, entries: seq<Entry>)
    requires h.Epoch? && Valid(cfg, h)
    ensures var n := h.(entries := entries, revision := h.revision + 1);
            && Used(n) == Usage(Used(h.prior).slots + |entries|, Used(h.prior).retained + RetainedOf(entries, |entries|),
                                Used(h.prior).managed + ManagedOf(entries, |entries|))
            && Used(h) == Usage(Used(h.prior).slots + |h.entries|, Used(h.prior).retained + RetainedOf(h.entries, |h.entries|),
                                Used(h.prior).managed + ManagedOf(h.entries, |h.entries|))
            && Caps(cfg, n) == Caps(cfg, h)
            && (Valid(cfg, n) <==>
                  && EntriesOk(h.kind, h.caps, entries)
                  && Events(entries, |entries|) == Events(h.entries, |h.entries|) + 1
                  && Within(Used(n), Caps(cfg, h)))
            && EntriesOk(h.kind, h.caps, h.entries) && Within(Used(h), Caps(cfg, h))
  {
    hide EntriesOk, Events, RetainedOf, ManagedOf, Within;
  }

  /** After admission nothing is refused by the self-check: on a valid head, a change its entry allows is
      published whenever the head it makes is not too long to write. */
  lemma ProgressNeedsNoCheck(cfg: Config, h: Head, pool: Pool, i: nat, c: Change)
    requires Valid(cfg, h) && Readable(cfg, h) && Serves(pool, h) && pool.EpochPool? && i < |h.entries|
    ensures Progress(cfg, h, pool, i, c).Some?
            <==> Changed(h.entries[i], c).Some?
                 && cfg.size(h.(entries := h.entries[i := Changed(h.entries[i], c).value], revision := h.revision + 1)) <= Records.MAX_BYTES
    ensures Progress(cfg, h, pool, i, c).Some? ==>
              var n := Progress(cfg, h, pool, i, c).value;
              && Valid(cfg, n) && n == h.(entries := h.entries[i := Changed(h.entries[i], c).value], revision := h.revision + 1)
              && Used(n).slots == Used(h).slots && Used(n).retained == Used(h).retained && Used(n).managed <= Used(h).managed
  {
    hide EntriesOk, EntryOk, Changed, Events, RetainedOf, ManagedOf, Retained, ManagedBytes, Resources, EventsOf, SameClaims, Valid, Used, Caps;
    if Changed(h.entries[i], c).Some? {
      var e := Changed(h.entries[i], c).value;
      EpochValid(cfg, h, h.entries[i := e]);
      EntryIsOk(h, i);
      ChangedOk(h.kind, h.entries[i], c);
      UpdatedEntriesOk(h.kind, h.caps, h.entries, i, e);
      TotalsOfUpdate(h.entries, |h.entries|, i, e, 0);
    }
  }

  lemma EntryIsOk(h: Head, i: nat)
    requires h.Epoch? && EntriesOk(h.kind, h.caps, h.entries) && i < |h.entries|
    ensures EntryOk(h.kind, h.entries[i])
  {
  }

  /** What admitting an entry would charge fits, and it claims nothing claimed before. */
  predicate Admissible(cfg: Config, h: Head, e: Entry)
    requires h.Epoch?
  {
    && Fresh(e) && EntryOk(h.kind, e)
    && (forall i :: 0 <= i < |h.entries| ==> Disjoint(h.entries[i], e))
    && (forall k :: 0 <= k < |Amounts(h.caps)| ==> ResourceOf(h.entries, |h.entries|, k) + At(Resources(e), k) <= Amounts(h.caps)[k])
    && Within(Usage(Used(h).slots + 1, Used(h).retained + Retained(e), Used(h).managed + ManagedBytes(e)), Caps(cfg, h))
  }

  lemma AxisOfAppend(entries: seq<Entry>, e: Entry, k: nat)
    ensures ResourceOf(entries + [e], |entries| + 1, k) == ResourceOf(entries, |entries|, k) + At(Resources(e), k)
  {
    TotalsOfAppend(entries, e, |entries|, k);
    hide At, Resources;
  }

  lemma AppendedEntriesOk(kind: Kind, caps: Needs, entries: seq<Entry>, e: Entry)
    requires EntriesOk(kind, caps, entries)
    ensures EntriesOk(kind, caps, entries + [e])
            <==> EntryOk(kind, e) && (forall i :: 0 <= i < |entries| ==> Disjoint(entries[i], e))
                 && (forall k :: 0 <= k < |Amounts(caps)| ==> ResourceOf(entries, |entries|, k) + At(Resources(e), k) <= Amounts(caps)[k])
  {
    var more := entries + [e];
    hide EntryOk, Disjoint, Resources, ResourceOf, At, OnAxes, Amounts;
    forall k | 0 <= k < |Amounts(caps)| ensures ResourceOf(more, |more|, k) == ResourceOf(entries, |entries|, k) + At(Resources(e), k) {
      AxisOfAppend(entries, e, k);
    }
    assert forall i :: 0 <= i < |entries| ==> more[i] == entries[i];
    assert more[|entries|] == e;
    if EntriesOk(kind, caps, more) {
      assert forall i :: 0 <= i < |entries| ==> Disjoint(more[i], more[|entries|]);
    }
  }

  /** Admission is exactly that: it succeeds if and only if the claims are new, every shared and every own
      capacity has room, and the head it makes is not too long to write. */
  lemma AdmitExactly(cfg: Config, h: Head, pool: Pool, e: Entry)
    requires Valid(cfg, h) && Readable(cfg, h) && Serves(pool, h) && pool.EpochPool?
    ensures Admit(cfg, h, pool, e).Some?
            <==> Admissible(cfg, h, e) && cfg.size(h.(entries := h.entries + [e], revision := h.revision + 1)) <= Records.MAX_BYTES
    ensures Admit(cfg, h, pool, e).Some? ==>
              var n := Admit(cfg, h, pool, e).value;
              && Valid(cfg, n) && n == h.(entries := h.entries + [e], revision := h.revision + 1)
              && Used(n) == Usage(Used(h).slots + 1, Used(h).retained + Retained(e), Used(h).managed + ManagedBytes(e))
  {
    hide EntriesOk, EntryOk, Events, RetainedOf, ManagedOf, Retained, ManagedBytes, Resources, ResourceOf, Valid, Used, Caps, Disjoint;
    EpochValid(cfg, h, h.entries + [e]);
    AppendedEntriesOk(h.kind, h.caps, h.entries, e);
    AppendedTotals(h.entries, e);
  }

  lemma AppendedTotals(entries: seq<Entry>, e: Entry)
    ensures var more := entries + [e];
            && RetainedOf(more, |more|) == RetainedOf(entries, |entries|) + Retained(e)
            && ManagedOf(more, |more|) == ManagedOf(entries, |entries|) + ManagedBytes(e)
            && (Fresh(e) ==> Events(more, |more|) == Events(entries, |entries|) + 1)
  {
    TotalsOfAppend(entries, e, |entries|, 0);
    assert Fresh(e) ==> EventsOf(e) == 1;
    hide Retained, ManagedBytes, EventsOf, Fresh;
  }

  /** Taking over succeeds exactly on the very head in the state file, when that can be read, the epoch may
      follow it, the grant of a managed epoch overflows nothing, and the new head is not too long to write; it
      starts from its predecessor's usage, its capacities and, for the managed epoch alone, the one grant. */
  lemma AttachExactly(cfg: Config, h: Head, pool: Pool)
    requires Valid(cfg, h)
    ensures Attach(cfg, h, pool).Some?
            <==> && Readable(cfg, h) && pool.EpochPool? && pool.prior == h && Follows(pool.kind, h) && OnAxes(pool.kind, pool.caps)
                 && (pool.kind.Managed? ==> Caps(cfg, h).slots + GRANT_SLOTS <= MAX_SAFE_INTEGER)
                 && cfg.size(Epoch(pool.kind, h, pool.caps, [], h.revision + 1)) <= Records.MAX_BYTES
    ensures Attach(cfg, h, pool).Some? ==>
              var n := Attach(cfg, h, pool).value;
              && Valid(cfg, n) && Serves(pool, n) && Used(n) == Used(h) && n.revision == h.revision + 1
              && Caps(cfg, n) == (if pool.kind.Managed? then Usage(Caps(cfg, h).slots + GRANT_SLOTS, Caps(cfg, h).retained,
                                                                   Caps(cfg, h).managed + GRANT_BYTES)
                                  else Caps(cfg, h))
  {
    ValidWithin(cfg, h);
    if pool.EpochPool? {
      assert forall k :: ResourceOf([], 0, k) == 0;
      assert EntriesOk(pool.kind, pool.caps, []) <==> OnAxes(pool.kind, pool.caps);
    }
    hide EntriesOk, Readable;
  }

  lemma ValidWithin(cfg: Config, h: Head)
    requires Valid(cfg, h)
    ensures Within(Used(h), Caps(cfg, h))
  {
  }

  // --- runs --------------------------------------------------------------------------------------------

  /** The state file, which entries some process holds a live capability for, and whether an interrupted
      publication is lying beside it. */
  datatype World = World(head: Head, live: set<nat>, blocked: bool)

  /** How a publication goes: it works, fails before anything is written, dies before the rename and
      leaves its pending file, or fails after the rename. */
  datatype Publication = Works | NotWritten | LeftPending | AfterRename

  /** `exact` says whether a consumption came with the exact evidence; `Lose` is the end of processes. */
  datatype Event =
    | CommonEvent(op: CommonOp, how: Publication)
    | TakeOver(pool: Pool, how: Publication)
    | AdmitEntry(pool: Pool, entry: Entry, how: Publication)
    | ConsumeEntry(pool: Pool, i: nat, what: string, exact: bool, how: Publication, marking: Publication)
    | LaterEntry(pool: Pool, i: nat, change: Change, how: Publication)
    | Lose(lost: set<nat>)

  function Put(w: World, n: Option<Head>, how: Publication): World
  {
    if w.blocked || n.None? || how.NotWritten? then w
    else if how.LeftPending? then w.(blocked := true)
    else w.(head := n.value)
  }

  /** The capability goes first. Then the entry is consumed, if the evidence is exact. */
  function Tried(cfg: Config, w: World, pool: Pool, i: nat, what: string, exact: bool, how: Publication): World
  {
    Put(w.(live := w.live - {i}), if exact then Progress(cfg, w.head, pool, i, Consume(what)) else None, how)
  }

  /** Whether the caller is told the consumption was made. */
  predicate Told(cfg: Config, w: World, pool: Pool, i: nat, what: string, exact: bool, how: Publication)
  {
    exact && !w.blocked && how.Works? && Progress(cfg, w.head, pool, i, Consume(what)).Some?
  }

  /** A service whose consumption fails, for whatever reason, is marked unknown if it can be. */
  function ConsumeIn(cfg: Config, w: World, pool: Pool, i: nat, what: string, exact: bool, how: Publication, marking: Publication): World
  {
    if !Serves(pool, w.head) || i !in w.live then w
    else
      var after := Tried(cfg, w, pool, i, what, exact, how);
      if Told(cfg, w, pool, i, what, exact, how) || !pool.EpochPool? || !pool.kind.Service? then after
      else Put(after, Progress(cfg, after.head, pool, i, MarkUnknown), marking)
  }

  function Next(cfg: Config, w: World, ev: Event): World
  {
    match ev
    case CommonEvent(op, how) => Put(w, CommonStep(cfg, w.head, op), how)
    case TakeOver(pool, how) =>
      var n := Put(w, Attach(cfg, w.head, pool), how);
      if n.head == w.head then n else n.(live := {})
    case AdmitEntry(pool, e, how) =>
      var n := Put(w, Admit(cfg, w.head, pool, e), how);
      if n.head != w.head && how.Works? && w.head.Epoch? then n.(live := n.live + {|w.head.entries|}) else n
    case ConsumeEntry(pool, i, what, exact, how, marking) => ConsumeIn(cfg, w, pool, i, what, exact, how, marking)
    case LaterEntry(pool, i, c, how) => if c.Consume? then w else Put(w, Progress(cfg, w.head, pool, i, c), how)
    case Lose(lost) => w.(live := w.live - lost)
  }

  function Run(cfg: Config, w: World, events: seq<Event>): World
    decreases |events|
  {
    if events == [] then w else Run(cfg, Next(cfg, w, events[0]), events[1..])
  }

  function Created(): World
  {
    World(CommonHead([], 0), {}, false)
  }

  /** Whether an entry's one use has been spent. */
  predicate Spent(e: Entry)
  {
    match e
    case ManagedEntry(_, _, _, _, used, _, _) => used
    case ServiceEntry(_, _, _, _, start, _, _, _) => start.Some?
    case AdoptionEntry(_, _, _, intent, _) => intent.Some?
    case ReviewEntry(_, _, spent, _) => spent
  }

  /** What an entry may become: the same claims and resources, everything recorded still recorded, and
      unknown for good once unknown. */
  predicate Later(e: Entry, n: Entry)
  {
    && SameClaims(e, n) && Resources(n) == Resources(e) && ManagedBytes(n) <= ManagedBytes(e)
    && (Spent(e) ==> Spent(n))
    && (e.ServiceEntry? && n.ServiceEntry? ==>
          && (e.start.Some? ==> n.start == e.start) && (e.unknown ==> n.unknown) && (e.result.Some? ==> n.result == e.result)
          && (e.stage == Unknown ==> n.stage == Unknown))
    && (e.AdoptionEntry? && n.AdoptionEntry? ==>
          (e.intent.Some? ==> n.intent == e.intent) && (e.completion.Some? ==> n.completion == e.completion))
    && (e.ManagedEntry? && n.ManagedEntry? ==> (e.settlement.Some? ==> n.settlement == e.settlement && n.held == e.held))
    && (e.ReviewEntry? && n.ReviewEntry? ==> (e.receipt.Some? ==> n.receipt == e.receipt))
  }

  lemma ChangedIsLater(kind: Kind, e: Entry, c: Change)
    requires EntryOk(kind, e) && Changed(e, c).Some?
    ensures Later(e, Changed(e, c).value)
    ensures !c.Consume? ==> Spent(Changed(e, c).value) == Spent(e)
  {
  }

  lemma LaterReflexive(e: Entry)
    ensures Later(e, e)
  {
  }

  lemma LaterTransitive(a: Entry, b: Entry, c: Entry)
    requires Later(a, b) && Later(b, c)
    ensures Later(a, c)
  {
  }

  predicate AllLater(before: seq<Entry>, after: seq<Entry>)
  {
    |before| <= |after| && forall i :: 0 <= i < |before| ==> Later(before[i], after[i])
  }

  // --- what one publication does -----------------------------------------------------------------------

  /** How a head can follow another: the common pool's own change, a take-over, an admission, or one
      entry moving on. */
  predicate Succeeds(cfg: Config, h: Head, n: Head)
  {
    || (h.CommonHead? && n.CommonHead? && n.revision == h.revision + 1 && |n.common| >= |h.common|)
    || (n.Epoch? && n.prior == h && n.entries == [] && n.revision == h.revision + 1)
    || (h.Epoch? && n.Epoch? && n.kind == h.kind && n.prior == h.prior && n.caps == h.caps && n.revision == h.revision + 1
        && AllLater(h.entries, n.entries))
  }

  lemma CommonSucceeds(cfg: Config, h: Head, op: CommonOp)
    requires CommonStep(cfg, h, op).Some?
    ensures Valid(cfg, CommonStep(cfg, h, op).value) && Succeeds(cfg, h, CommonStep(cfg, h, op).value)
  {
    CommonStepValid(cfg, h, op);
    hide CommonOk, AlreadyHeld;
  }

  lemma AttachSucceeds(cfg: Config, h: Head, pool: Pool)
    requires Attach(cfg, h, pool).Some?
    ensures Valid(cfg, Attach(cfg, h, pool).value) && Succeeds(cfg, h, Attach(cfg, h, pool).value)
    ensures Attach(cfg, h, pool).value.Epoch? && Attach(cfg, h, pool).value.entries == []
  {
    hide Valid, Follows;
  }

  lemma AdmitSucceeds(cfg: Config, h: Head, pool: Pool, e: Entry)
    requires Valid(cfg, h) && Admit(cfg, h, pool, e).Some?
    ensures var n := Admit(cfg, h, pool, e).value;
            && Valid(cfg, n) && Succeeds(cfg, h, n) && n == h.(entries := h.entries + [e], revision := h.revision + 1)
            && !Spent(e)
  {
    hide Valid, Later;
    forall i | 0 <= i < |h.entries| ensures Later(h.entries[i], h.entries[i]) { LaterReflexive(h.entries[i]); }
  }

  lemma ProgressSucceeds(cfg: Config, h: Head, pool: Pool, i: nat, c: Change)
    requires Valid(cfg, h) && Progress(cfg, h, pool, i, c).Some?
    ensures var n := Progress(cfg, h, pool, i, c).value;
            && Valid(cfg, n) && Succeeds(cfg, h, n) && h.Epoch? && i < |h.entries|
            && (exists e :: Changed(h.entries[i], c) == Some(e) && n == h.(entries := h.entries[i := e], revision := h.revision + 1))
            && (!c.Consume? ==> Spent(n.entries[i]) == Spent(h.entries[i]))
  {
    EntryIsOkIn(cfg, h, i);
    ChangedIsLater(h.kind, h.entries[i], c);
    hide Valid, Later, Changed, Spent;
    forall j | 0 <= j < |h.entries| ensures Later(h.entries[j], h.entries[j]) { LaterReflexive(h.entries[j]); }
  }

  lemma EntryIsOkIn(cfg: Config, h: Head, i: nat)
    requires h.Epoch? && Valid(cfg, h) && i < |h.entries|
    ensures EntryOk(h.kind, h.entries[i])
  {
  }

  // --- what one event does -----------------------------------------------------------------------------

  /** A live capability is for an entry not yet spent. */
  predicate LiveOk(w: World)
  {
    if w.head.CommonHead? then w.live == {}
    else forall i :: i in w.live ==> i < |w.head.entries| && !Spent(w.head.entries[i])
  }

  predicate WorldOk(cfg: Config, w: World)
  {
    Valid(cfg, w.head) && LiveOk(w)
  }

  /** How far a head is from the common pool. */
  function Depth(h: Head): nat
  {
    if h.CommonHead? then 0 else Depth(h.prior) + 1
  }

  /** The same pool's head, later. */
  predicate SameEpoch(h: Head, n: Head)
  {
    && (h.CommonHead? <==> n.CommonHead?)
    && (h.CommonHead? ==> |h.common| <= |n.common|)
    && (h.Epoch? ==> n.kind == h.kind && n.prior == h.prior && n.caps == h.caps && AllLater(h.entries, n.entries))
  }

  /** What a head may become: the same pool's head later, or a head that keeps one such inside it. */
  predicate Evolved(h: Head, n: Head)
    decreases n
  {
    SameEpoch(h, n) || (n.Epoch? && Evolved(h, n.prior))
  }

  lemma SameEpochReflexive(h: Head)
    ensures SameEpoch(h, h)
  {
    hide Later;
    if h.Epoch? { forall i | 0 <= i < |h.entries| ensures Later(h.entries[i], h.entries[i]) { LaterReflexive(h.entries[i]); } }
  }

  lemma SameEpochTransitive(a: Head, b: Head, c: Head)
    requires SameEpoch(a, b) && SameEpoch(b, c)
    ensures SameEpoch(a, c)
  {
    hide Later;
    if a.Epoch? {
      forall i | 0 <= i < |a.entries| ensures Later(a.entries[i], c.entries[i]) {
        LaterTransitive(a.entries[i], b.entries[i], c.entries[i]);
      }
    }
  }

  lemma {:induction false} EvolvedTransitive(a: Head, b: Head, c: Head)
    requires Evolved(a, b) && Evolved(b, c)
    ensures Evolved(a, c)
    decreases b, c
  {
    hide SameEpoch;
    if SameEpoch(b, c) {
      if SameEpoch(a, b) {
        SameEpochTransitive(a, b, c);
      } else {
        assert c.Epoch? && c.prior == b.prior by { PriorKept(b, c); }
      }
    } else {
      EvolvedTransitive(a, b, c.prior);
    }
  }

  lemma PriorKept(b: Head, c: Head)
    requires SameEpoch(b, c) && b.Epoch?
    ensures c.Epoch? && c.prior == b.prior
  {
  }

  lemma SucceedsEvolves(cfg: Config, h: Head, n: Head)
    requires Succeeds(cfg, h, n)
    ensures Evolved(h, n)
  {
    SameEpochReflexive(h);
    hide AllLater;
  }

  /** Publishing a head that may follow the current one. */
  lemma PutKeeps(cfg: Config, w: World, n: Option<Head>, how: Publication)
    requires WorldOk(cfg, w)
    requires n.Some? ==> Valid(cfg, n.value) && Succeeds(cfg, w.head, n.value) && LiveOk(w.(head := n.value))
    ensures var t := Put(w, n, how);
            && WorldOk(cfg, t) && Evolved(w.head, t.head) && t.live == w.live && (t.head == w.head || Some(t.head) == n)
  {
    EvolvedReflexive(w.head);
    assert LiveOk(w.(blocked := true));
    hide Valid, Evolved, LiveOk, Succeeds;
    if n.Some? { SucceedsEvolves(cfg, w.head, n.value); }
  }

  /** One entry moved on, and no capability for it unless it is still unspent. */
  lemma ProgressPut(cfg: Config, w: World, pool: Pool, i: nat, c: Change, how: Publication)
    requires WorldOk(cfg, w) && (c.Consume? ==> i !in w.live)
    ensures var t := Put(w, Progress(cfg, w.head, pool, i, c), how);
            WorldOk(cfg, t) && Evolved(w.head, t.head) && t.live == w.live
    ensures var t := Put(w, Progress(cfg, w.head, pool, i, c), how);
            t.head == w.head || (w.head.Epoch? && t.head.Epoch? && t.head.prior == w.head.prior && t.head.kind == w.head.kind
                                 && t.head.caps == w.head.caps && |t.head.entries| == |w.head.entries|
                                 && i < |w.head.entries| && (!c.Consume? ==> Spent(t.head.entries[i]) == Spent(w.head.entries[i]))
                                 && forall j :: 0 <= j < |w.head.entries| && j != i ==> t.head.entries[j] == w.head.entries[j])
  {
    var n := Progress(cfg, w.head, pool, i, c);
    if n.Some? { ProgressSucceeds(cfg, w.head, pool, i, c); }
    hide Valid, Progress, Spent, Changed, Succeeds, Evolved;
    PutKeeps(cfg, w, n, how);
  }

  lemma ConsumeKeeps(cfg: Config, w: World, pool: Pool, i: nat, what: string, exact: bool, how: Publication, marking: Publication)
    requires WorldOk(cfg, w)
    ensures var t := ConsumeIn(cfg, w, pool, i, what, exact, how, marking);
            && WorldOk(cfg, t) && Evolved(w.head, t.head) && t.live <= w.live
            && (Serves(pool, w.head) ==> i !in t.live)
  {
    SameEpochReflexive(w.head);
    hide Valid, Progress, Evolved, Spent, SameEpoch;
    if Serves(pool, w.head) && i in w.live {
      var burnt := w.(live := w.live - {i});
      assert LiveOk(burnt);
      hide LiveOk;
      ProgressPut(cfg, burnt, pool, i, Consume(what), how);
      PutKeeps(cfg, burnt, None, how);
      var after := Tried(cfg, w, pool, i, what, exact, how);
      assert WorldOk(cfg, after) && Evolved(w.head, after.head) && after.live == burnt.live;
      ProgressPut(cfg, after, pool, i, MarkUnknown, marking);
      var last := Put(after, Progress(cfg, after.head, pool, i, MarkUnknown), marking);
      EvolvedTransitive(w.head, after.head, last.head);
    } else {
      assert Evolved(w.head, w.head) by { EvolvedReflexive(w.head); }
    }
  }

  lemma EvolvedReflexive(h: Head)
    ensures Evolved(h, h)
  {
    SameEpochReflexive(h);
    hide SameEpoch;
  }

  lemma TakeOverKeeps(cfg: Config, w: World, pool: Pool, how: Publication)
    requires WorldOk(cfg, w)
    ensures var t := Next(cfg, w, TakeOver(pool, how)); WorldOk(cfg, t) && Evolved(w.head, t.head)
  {
    var n := Attach(cfg, w.head, pool);
    if n.Some? { AttachSucceeds(cfg, w.head, pool); }
    hide Valid, Attach, Spent, Succeeds, Evolved;
    EvolvedReflexive(w.head);
    if n.Some? {
      SucceedsEvolves(cfg, w.head, n.value);
      assert LiveOk(World(n.value, {}, w.blocked));
    }
  }

  lemma AdmitKeeps(cfg: Config, w: World, pool: Pool, e: Entry, how: Publication)
    requires WorldOk(cfg, w)
    ensures var t := Next(cfg, w, AdmitEntry(pool, e, how)); WorldOk(cfg, t) && Evolved(w.head, t.head)
    ensures var t := Next(cfg, w, AdmitEntry(pool, e, how));
            forall i :: i in t.live && i !in w.live ==> w.head.Epoch? && i == |w.head.entries|
  {
    var n := Admit(cfg, w.head, pool, e);
    if n.Some? { AdmitSucceeds(cfg, w.head, pool, e); }
    hide Valid, Admit, Spent, Succeeds, Evolved;
    PutKeeps(cfg, w, n, how);
  }

  /** Every event keeps every head valid, every live capability unspent, and the past. */
  lemma NextKeeps(cfg: Config, w: World, ev: Event)
    requires WorldOk(cfg, w)
    ensures WorldOk(cfg, Next(cfg, w, ev)) && Evolved(w.head, Next(cfg, w, ev).head)
  {
    match ev {
      case CommonEvent(op, how) =>
        var n := CommonStep(cfg, w.head, op);
        if n.Some? { CommonSucceeds(cfg, w.head, op); }
        hide Valid, CommonStep, Evolved, Succeeds;
        PutKeeps(cfg, w, n, how);
      case TakeOver(pool, how) => TakeOverKeeps(cfg, w, pool, how);
      case AdmitEntry(pool, e, how) => AdmitKeeps(cfg, w, pool, e, how);
      case ConsumeEntry(pool, i, what, exact, how, marking) => ConsumeKeeps(cfg, w, pool, i, what, exact, how, marking);
      case LaterEntry(pool, i, c, how) =>
        EvolvedReflexive(w.head);
        if !c.Consume? { ProgressPut(cfg, w, pool, i, c, how); }
        hide Valid, Evolved, Progress;
      case Lose(lost) => EvolvedReflexive(w.head);
    }
    hide Valid, Evolved, Spent;
  }

  lemma {:induction false} RunKeeps(cfg: Config, w: World, events: seq<Event>)
    requires WorldOk(cfg, w)
    ensures WorldOk(cfg, Run(cfg, w, events)) && Evolved(w.head, Run(cfg, w, events).head)
    decreases |events|
  {
    EvolvedReflexive(w.head);
    hide WorldOk, Evolved, Next;
    if events != [] {
      var t := Next(cfg, w, events[0]);
      NextKeeps(cfg, w, events[0]);
      RunKeeps(cfg, t, events[1..]);
      EvolvedTransitive(w.head, t.head, Run(cfg, t, events[1..]).head);
    }
  }

  // --- a state file that cannot be read ----------------------------------------------------------------

  /** Whatever an event writes is short enough, and it writes only over a head it could read. */
  predicate WrittenWell(cfg: Config, h: Head, n: Head)
  {
    n == h || (Readable(cfg, h) && cfg.size(n) <= Records.MAX_BYTES)
  }

  lemma PutWritesWell(cfg: Config, w: World, n: Option<Head>, how: Publication)
    requires n.Some? ==> Readable(cfg, w.head) && cfg.size(n.value) <= Records.MAX_BYTES
    ensures WrittenWell(cfg, w.head, Put(w, n, how).head)
  {
    hide Readable;
  }

  lemma ProgressWritesWell(cfg: Config, w: World, pool: Pool, i: nat, c: Change, how: Publication)
    ensures WrittenWell(cfg, w.head, Put(w, Progress(cfg, w.head, pool, i, c), how).head)
  {
    hide Readable, Valid, Changed;
    PutWritesWell(cfg, w, Progress(cfg, w.head, pool, i, c), how);
  }

  lemma NextWritesWell(cfg: Config, w: World, ev: Event)
    ensures WrittenWell(cfg, w.head, Next(cfg, w, ev).head)
  {
    hide Readable, Valid, Progress, CommonOk, CommonEntries, Follows, Fresh;
    match ev {
      case CommonEvent(op, how) => PutWritesWell(cfg, w, CommonStep(cfg, w.head, op), how);
      case TakeOver(pool, how) => PutWritesWell(cfg, w, Attach(cfg, w.head, pool), how);
      case AdmitEntry(pool, e, how) => PutWritesWell(cfg, w, Admit(cfg, w.head, pool, e), how);
      case ConsumeEntry(pool, i, what, exact, how, marking) =>
        var burnt := w.(live := w.live - {i});
        ProgressWritesWell(cfg, burnt, pool, i, Consume(what), how);
        ProgressWritesWell(cfg, Tried(cfg, w, pool, i, what, exact, how), pool, i, MarkUnknown, marking);
      case LaterEntry(pool, i, c, how) => ProgressWritesWell(cfg, w, pool, i, c, how);
      case Lose(lost) =>
    }
  }

  lemma {:induction false} RunWritesWell(cfg: Config, w: World, events: seq<Event>)
    ensures WrittenWell(cfg, w.head, Run(cfg, w, events).head)
    decreases |events|
  {
    hide Readable, Next;
    if events != [] {
      NextWritesWell(cfg, w, events[0]);
      RunWritesWell(cfg, Next(cfg, w, events[0]), events[1..]);
    }
  }

  /** Over every run the state file can be read back exactly when it could at first, its observer nesting at
      most 62 deep, and nothing a caller gave since is too deep; a file that cannot be is never changed again, by
      any pool, through any event. */
  lemma RunReadable(cfg: Config, before: seq<Event>, after: seq<Event>)
    ensures var w := Run(cfg, Created(), before);
            && (Readable(cfg, w.head)
                <==> && cfg.size(Created().head) <= Records.MAX_BYTES && Reading.DepthAtMost(cfg.observer, 62)
                     && (w.head.CommonHead? ==> AllShallow(w.head.common)))
            && (!Readable(cfg, w.head) ==> Run(cfg, w, after).head == w.head)
  {
    var w := Run(cfg, Created(), before);
    RunWritesWell(cfg, Created(), before);
    RunWritesWell(cfg, w, after);
    if w.head.CommonHead? { CommonDepth(cfg, w.head.common); }
    CommonDepth(cfg, []);
    hide Run, EntryShallow, CommonContainers, Reading.DepthAtMost;
  }

  /** A pool of one slot, for heads of any sizes. */
  function SamplePool(size: Head -> nat): Config
  {
    Config(Usage(1, OUTPUT_HOLD, 0), Str([]), OWN, size)
  }

  /** A request for one child of a task, with an identity and an input, and the child's own reservation. */
  function SampleBinding(identity: Value, input: Value): Binding
  {
    Binding(Logical("k", "o", "a", "c"), identity, input, "s", "r", "b", OWN, Str([]))
  }

  function SampleDispatch(identity: Value, input: Value): Dispatch
  {
    var r := ChildReservation("s", "c", "b", OWN, map[Records.T("task_identity") := identity]);
    Dispatch(r, Link(r, "r", SampleBinding(identity, input), Str([]), OWN, map[]))
  }

  function ReserveIt(identity: Value, input: Value): Event
  {
    CommonEvent(CommonOp.Reserve(SampleBinding(identity, input)), Works)
  }

  function BindIt(identity: Value, input: Value): Event
  {
    var d := SampleDispatch(identity, input);
    CommonEvent(CommonOp.BindDispatch(SampleBinding(identity, input), d.reservation, d.link), Works)
  }

  predicate AllFit(size: Head -> nat, heads: seq<Head>)
  {
    forall i :: 0 <= i < |heads| ==> size(heads[i]) <= Records.MAX_BYTES
  }

  /** The one entry, held and then bound. */
  function SampleEntry(identity: Value, input: Value, bound: bool): CommonEntry
  {
    var b := SampleBinding(identity, input);
    CommonEntry(b, b, if bound then Some(SampleDispatch(identity, input)) else None, None, OUTPUT_HOLD)
  }

  function HeldHead(identity: Value, input: Value): Head
  {
    CommonHead([SampleEntry(identity, input, false)], 1)
  }

  function BoundHead(identity: Value, input: Value): Head
  {
    CommonHead([SampleEntry(identity, input, true)], 2)
  }

  lemma CreatedReads(size: Head -> nat)
    requires size(Created().head) <= Records.MAX_BYTES
    ensures Readable(SamplePool(size), Created().head)
  {
    CommonDepth(SamplePool(size), []);
    hide CommonContainers;
  }

  lemma ReservesIt(size: Head -> nat, identity: Value, input: Value)
    requires AllFit(size, [Created().head, HeldHead(identity, input)])
    ensures Next(SamplePool(size), Created(), ReserveIt(identity, input)) == World(HeldHead(identity, input), {}, false)
  {
    var heads := [Created().head, HeldHead(identity, input)];
    assert size(heads[0]) <= Records.MAX_BYTES && size(heads[1]) <= Records.MAX_BYTES;
    CreatedReads(size);
    hide Readable;
    var cfg := SamplePool(size);
    var none: seq<CommonEntry> := [];
    assert CommonOk(cfg, none, 0) && RetainedTotal(none, 0) == 0;
    assert none + [SampleEntry(identity, input, false)] == [SampleEntry(identity, input, false)];
    assert Reserved(cfg, none, SampleBinding(identity, input)) == Some([SampleEntry(identity, input, false)]);
    assert CommonStep(cfg, Created().head, CommonOp.Reserve(SampleBinding(identity, input))) == Some(heads[1]);
  }

  lemma BindsIt(size: Head -> nat, identity: Value, input: Value)
    requires Readable(SamplePool(size), HeldHead(identity, input)) && AllFit(size, [BoundHead(identity, input)])
    ensures Next(SamplePool(size), World(HeldHead(identity, input), {}, false), BindIt(identity, input))
         == World(BoundHead(identity, input), {}, false)
  {
    var heads := [BoundHead(identity, input)];
    assert size(heads[0]) <= Records.MAX_BYTES;
    var entries, ticket := [SampleEntry(identity, input, false)], SampleBinding(identity, input);
    assert entries[..0] == [];
    assert entries[0].binding == ticket;
    hide Readable;
    assert CommonOk(SamplePool(size), entries, 1) by { OneEntryOk(size, identity, input); }
    hide CommonOk;
    assert Holders(entries, 0, ticket) == [];
    assert Holders(entries, 1, ticket) == [0];
    assert entries[0 := SampleEntry(identity, input, true)] == [SampleEntry(identity, input, true)];
  }

  lemma OneEntryOk(size: Head -> nat, identity: Value, input: Value)
    ensures CommonOk(SamplePool(size), [SampleEntry(identity, input, false)], 1)
  {
    var entries := [SampleEntry(identity, input, false)];
    assert CommonEvents(entries, 0) == 0 && RetainedTotal(entries, 0) == 0;
    assert CommonEvents(entries, 1) == 1 && RetainedTotal(entries, 1) == OUTPUT_HOLD;
  }

  lemma SampleBindingShallow(identity: Value, input: Value, n: int)
    requires n >= 1
    ensures BindingShallow(SampleBinding(identity, input), n) <==> Reading.DepthAtMost(identity, n) && Reading.DepthAtMost(input, n)
  {
    EmptyShallow(n);
    TextShallow(n);
    hide Reading.DepthAtMost;
  }

  lemma TextShallow(n: int)
    ensures Reading.DepthAtMost(Str([]), n)
  {
  }

  lemma SampleDispatchShallow(identity: Value, input: Value)
    ensures DispatchShallow(SampleDispatch(identity, input), 58) <==> Reading.DepthAtMost(identity, 57)
  {
    EmptyShallow(58);
    TextShallow(57);
    var d, key := SampleDispatch(identity, input), Records.T("task_identity");
    hide Reading.DepthAtMost;
    assert d.reservation.more == map[key := identity];
    assert MembersShallow(d.reservation.more, 57) <==> Reading.DepthAtMost(d.reservation.more[key], 57);
    assert MembersShallow(d.link.more[Records.T("observer") := d.link.observer], 57);
  }

  lemma SampleShallow(identity: Value, input: Value, bound: bool)
    ensures AllShallow([SampleEntry(identity, input, bound)])
            <==> Reading.DepthAtMost(identity, if bound then 57 else 58) && Reading.DepthAtMost(input, 58)
  {
    hide Reading.DepthAtMost, BindingShallow, DispatchShallow, SampleDispatch, SampleBinding, AllShallow;
    if Reading.DepthAtMost(identity, 57) { Layout.DepthMonotone(identity, 57, 58); }
    if Reading.DepthAtMost(identity, 58) { Layout.DepthMonotone(identity, 58, 59); }
    if Reading.DepthAtMost(input, 58) { Layout.DepthMonotone(input, 58, 59); }
    SampleBindingShallow(identity, input, 58);
    SampleBindingShallow(identity, input, 59);
    SampleDispatchShallow(identity, input);
    OneShallow(SampleEntry(identity, input, bound));
  }

  lemma OneShallow(e: CommonEntry)
    ensures AllShallow([e]) <==> EntryShallow(e, 61)
  {
    assert [e][0] == e;
    hide EntryShallow;
  }

  /** An identity 58 deep is reserved for and read back; binding the dispatch then publishes a state file that
      keeps every rule of its validator and that no reader takes, and nothing ever changes it again. */
  lemma DispatchStopsPool(size: Head -> nat, events: seq<Event>)
    requires AllFit(size, [Created().head, HeldHead(Limits.DeepIdentity(58), Str([])), BoundHead(Limits.DeepIdentity(58), Str([]))])
    ensures var cfg, identity := SamplePool(size), Limits.DeepIdentity(58);
            var held := Next(cfg, Created(), ReserveIt(identity, Str([])));
            var bound := Next(cfg, held, BindIt(identity, Str([])));
            && Readable(cfg, held.head) && bound.head != held.head
            && Valid(cfg, bound.head) && !Readable(cfg, bound.head) && Run(cfg, bound, events).head == bound.head
  {
    hide Limits.DeepIdentity, CommonContainers, Reading.DepthAtMost, AllShallow, Valid, Run, Next, SampleEntry, ReserveIt, BindIt,
      WorldOk;
    var cfg, identity := SamplePool(size), Limits.DeepIdentity(58);
    Limits.DeepIdentityDepth(58, 57);
    Limits.DeepIdentityDepth(58, 58);
    var heads := [Created().head, HeldHead(identity, Str([])), BoundHead(identity, Str([]))];
    assert size(heads[0]) <= Records.MAX_BYTES && size(heads[1]) <= Records.MAX_BYTES && size(heads[2]) <= Records.MAX_BYTES;
    TextShallow(58);
    TextShallow(62);
    SampleShallow(identity, Str([]), false);
    SampleShallow(identity, Str([]), true);
    CommonDepth(cfg, heads[1].common);
    CommonDepth(cfg, heads[2].common);
    ReservesIt(size, identity, Str([]));
    BindsIt(size, identity, Str([]));
    CreatedIsOk(cfg);
    NextStays(cfg, Created(), ReserveIt(identity, Str([])));
    NextStays(cfg, World(heads[1], {}, false), BindIt(identity, Str([])));
    RunWritesWell(cfg, World(heads[2], {}, false), events);
  }

  /** Nor is the identity alone to be watched: with a flat one, a request whose input nests 59 deep where a digest
      should be is reserved for, and that alone leaves a state file nobody can read. */
  lemma InputStopsPool(size: Head -> nat, events: seq<Event>)
    requires AllFit(size, [Created().head, HeldHead(Limits.DeepIdentity(1), Limits.Nest(59))])
    ensures var cfg := SamplePool(size);
            var held := Next(cfg, Created(), ReserveIt(Limits.DeepIdentity(1), Limits.Nest(59)));
            && Readable(cfg, Created().head) && held.head != Created().head
            && Valid(cfg, held.head) && !Readable(cfg, held.head) && Run(cfg, held, events).head == held.head
  {
    var cfg, identity, input := SamplePool(size), Limits.DeepIdentity(1), Limits.Nest(59);
    Limits.NestDepth(59, 58);
    hide Limits.DeepIdentity, Limits.Nest;
    var heads := [Created().head, HeldHead(identity, input)];
    assert size(heads[0]) <= Records.MAX_BYTES && size(heads[1]) <= Records.MAX_BYTES;
    CreatedReads(size);
    SampleShallow(identity, input, false);
    CommonDepth(cfg, heads[1].common);
    hide CommonContainers, Reading.DepthAtMost, AllShallow, Valid, Run, Next;
    ReservesIt(size, identity, input);
    CreatedIsOk(cfg);
    NextStays(cfg, Created(), ReserveIt(identity, input));
    RunWritesWell(cfg, World(heads[1], {}, false), events);
  }

  /** And a pool opened with an observer 63 deep is unreadable as soon as it is created. */
  lemma ObserverStopsPool(size: Head -> nat, events: seq<Event>)
    ensures var cfg := SamplePool(size).(observer := Limits.Nest(63));
            !Readable(cfg, Created().head) && Run(cfg, Created(), events).head == Created().head
  {
    var cfg := SamplePool(size).(observer := Limits.Nest(63));
    Limits.NestDepth(63, 62);
    CommonDepth(cfg, []);
    RunWritesWell(cfg, Created(), events);
    hide CommonContainers, Run, Limits.Nest;
  }

  lemma CreatedIsOk(cfg: Config)
    ensures WorldOk(cfg, Created())
  {
  }

  lemma NextStays(cfg: Config, w: World, ev: Event)
    requires WorldOk(cfg, w)
    ensures Valid(cfg, Next(cfg, w, ev).head) && WorldOk(cfg, Next(cfg, w, ev))
  {
    NextKeeps(cfg, w, ev);
    hide Next, Valid, LiveOk, Evolved;
  }

  /** The common head at the bottom of a succession. */
  function Base(h: Head): Head
  {
    if h.CommonHead? then h else Base(h.prior)
  }

  /** An epoch holds the head before it in hexadecimal: twice as many bytes, and its own besides. */
  ghost predicate WellSized(cfg: Config)
  {
    forall h: Head :: h.Epoch? ==> cfg.size(h) >= 2 * cfg.size(h.prior)
  }

  function Doubled(n: nat, times: nat): nat
  {
    if times == 0 then n else 2 * Doubled(n, times - 1)
  }

  lemma {:induction false} EpochsDouble(cfg: Config, h: Head)
    requires WellSized(cfg)
    ensures cfg.size(h) >= Doubled(cfg.size(Base(h)), Depth(h))
    decreases h
  {
    if h.Epoch? { EpochsDouble(cfg, h.prior); }
  }

  lemma {:induction false} FewEpochs(cfg: Config, h: Head)
    requires Valid(cfg, h)
    ensures Depth(h) <= (if h.CommonHead? then 0 else match h.kind case Managed => 1 case Service => 2 case Adoption => 3 case Review => 4)
    decreases h
  {
    hide EntriesOk, Used, Caps, Within;
    if h.Epoch? { FewEpochs(cfg, h.prior); }
  }

  /** A succession needs room from the start: in every run, the common head that all the epochs were built on
      takes at most 4 MiB divided by two for each of them, of which there are at most four. */
  lemma SuccessionNeedsRoom(cfg: Config, events: seq<Event>)
    requires WellSized(cfg)
    ensures var h := Run(cfg, Created(), events).head;
            && Depth(h) <= 4
            && (h == Created().head || Doubled(cfg.size(Base(h)), Depth(h)) <= Records.MAX_BYTES)
  {
    assert WorldOk(cfg, Created());
    RunKeeps(cfg, Created(), events);
    RunWritesWell(cfg, Created(), events);
    var h := Run(cfg, Created(), events).head;
    hide Run, Valid, WellSized, Readable;
    EpochsDouble(cfg, h);
    FewEpochs(cfg, h);
  }

  // --- capacities across succession --------------------------------------------------------------------

  /** How many times the grant has been made. */
  function Grants(h: Head): nat
  {
    if h.CommonHead? then 0 else Grants(h.prior) + if h.kind.Managed? then 1 else 0
  }

  /** Whatever took over from whatever, the capacities are the configured ones and at most one grant. */
  lemma {:induction false} CapsAreConfigured(cfg: Config, h: Head)
    requires Valid(cfg, h)
    ensures Grants(h) <= 1
    ensures Caps(cfg, h) == Usage(cfg.capacities.slots + Grants(h) * GRANT_SLOTS, cfg.capacities.retained, Grants(h) * GRANT_BYTES)
    decreases h
  {
    if h.Epoch? { CapsAreConfigured(cfg, h.prior); }
    hide EntriesOk;
  }

  /** Conservation over every run, from the pool's creation through any succession of epochs: everything
      charged in all of them together stays within the configured capacities and the one additive
      grant. */
  lemma ConservedAcrossSuccession(cfg: Config, events: seq<Event>)
    ensures var h := Run(cfg, Created(), events).head;
            && Valid(cfg, h)
            && Used(h).slots <= cfg.capacities.slots + GRANT_SLOTS
            && Used(h).retained <= cfg.capacities.retained
            && Used(h).managed <= GRANT_BYTES
            && (Grants(h) == 0 ==> Used(h).slots <= cfg.capacities.slots && Used(h).managed == 0)
  {
    assert WorldOk(cfg, Created());
    RunKeeps(cfg, Created(), events);
    var h := Run(cfg, Created(), events).head;
    CapsAreConfigured(cfg, h);
    ValidWithin(cfg, h);
    hide Run, Valid, Used, Caps;
  }

  /** The recorded events of a head: one for each take-over, and each entry's own. */
  function Recorded(h: Head): nat
  {
    match h
    case CommonHead(common, _) => CommonEvents(common, |common|)
    case Epoch(_, prior, _, entries, _) => Recorded(prior) + 1 + Events(entries, |entries|)
  }

  /** The revision is the number of events recorded since creation, in whatever epochs. */
  lemma {:induction false} RevisionCountsEvents(cfg: Config, h: Head)
    requires Valid(cfg, h)
    ensures h.revision == Recorded(h)
    decreases h
  {
    if h.Epoch? { RevisionCountsEvents(cfg, h.prior); }
    hide EntriesOk, Used, Caps;
  }

  // --- what a take-over leaves behind ------------------------------------------------------------------

  lemma {:induction false} EvolvedDepth(h: Head, n: Head)
    requires Evolved(h, n)
    ensures Depth(h) <= Depth(n)
    decreases n
  {
    hide AllLater;
    if !SameEpoch(h, n) { EvolvedDepth(h, n.prior); }
  }

  /** Once a successor is attached, a pool that served its predecessor never serves again, and nothing it
      tries changes anything: every reservation, binding, settlement, admission and change through it
      is refused for good. */
  lemma PredecessorRefused(cfg: Config, w: World, pool: Pool, successor: Pool, how: Publication, events: seq<Event>)
    requires WorldOk(cfg, w) && Serves(pool, w.head)
    requires Next(cfg, w, TakeOver(successor, how)).head != w.head
    ensures var h := Run(cfg, Next(cfg, w, TakeOver(successor, how)), events).head;
            && !Serves(pool, h)
            && (pool.CommonPool? ==> forall op :: CommonStep(cfg, h, op) == None)
            && (forall e :: Admit(cfg, h, pool, e) == None)
            && (forall i, c :: Progress(cfg, h, pool, i, c) == None)
  {
    var t := Next(cfg, w, TakeOver(successor, how));
    NextKeeps(cfg, w, TakeOver(successor, how));
    RunKeeps(cfg, t, events);
    EvolvedDepth(t.head, Run(cfg, t, events).head);
    assert Depth(t.head) == Depth(w.head) + 1 by { hide Valid; }
    hide Run, Valid, Next, Evolved;
  }

  /** The last head a pool served. */
  function LastServed(pool: Pool, h: Head): Option<Head>
    decreases h
  {
    if Serves(pool, h) then Some(h) else if h.Epoch? then LastServed(pool, h.prior) else None
  }

  lemma {:induction false} EvolvedServed(pool: Pool, h: Head, n: Head)
    requires Serves(pool, h) && pool.EpochPool? && Evolved(h, n)
    ensures LastServed(pool, n).Some? && LastServed(pool, n).value.Epoch? && AllLater(h.entries, LastServed(pool, n).value.entries)
    decreases n
  {
    hide AllLater;
    if !SameEpoch(h, n) {
      EvolvedServed(pool, h, n.prior);
      EvolvedDepth(h, n.prior);
      assert Depth(h) == Depth(pool.prior) + 1;
    }
  }

  /** Entries have one-way histories, over every run and through every succession: what an entry
      reserves never changes, what is recorded of it stays, and unknown stays unknown, a result settled
      later included. */
  lemma HistoriesKept(cfg: Config, w: World, pool: Pool, events: seq<Event>, i: nat)
    requires WorldOk(cfg, w) && Serves(pool, w.head) && pool.EpochPool? && i < |w.head.entries|
    ensures var last := LastServed(pool, Run(cfg, w, events).head);
            && last.Some? && last.value.Epoch? && i < |last.value.entries| && Later(w.head.entries[i], last.value.entries[i])
  {
    RunKeeps(cfg, w, events);
    EvolvedServed(pool, w.head, Run(cfg, w, events).head);
    hide Run, Valid, Evolved, Later;
  }

  /** The state a service entry stores is the one its other fields imply, in every reachable head. */
  lemma StageIsDerived(cfg: Config, events: seq<Event>, pool: Pool, i: nat)
    ensures var last := LastServed(pool, Run(cfg, Created(), events).head);
            last.Some? && last.value.Epoch? && i < |last.value.entries| && last.value.entries[i].ServiceEntry? ==>
              && last.value.entries[i].stage == Derived(last.value.entries[i])
              && (last.value.entries[i].unknown ==> last.value.entries[i].stage == Unknown)
  {
    assert WorldOk(cfg, Created());
    RunKeeps(cfg, Created(), events);
    ServedIsValid(cfg, pool, Run(cfg, Created(), events).head);
    var last := LastServed(pool, Run(cfg, Created(), events).head);
    if last.Some? && last.value.Epoch? && i < |last.value.entries| { EntryIsOkIn(cfg, last.value, i); }
    hide Run, Valid, LastServed;
  }

  lemma {:induction false} ServedIsValid(cfg: Config, pool: Pool, h: Head)
    requires Valid(cfg, h)
    ensures LastServed(pool, h).Some? ==> Valid(cfg, LastServed(pool, h).value)
    decreases h
  {
    if !Serves(pool, h) && h.Epoch? { ServedIsValid(cfg, pool, h.prior); }
    hide EntriesOk, Used, Caps;
  }

  // --- one use -----------------------------------------------------------------------------------------

  /** As far as entry `i` of the current epoch is concerned: the epoch goes on, with the entry no more
      and no less spent and no new capability for it, or it has just been taken over. */
  predicate Unspent(w: World, t: World, i: nat)
    requires w.head.Epoch? && i < |w.head.entries|
  {
    || (t.head.Epoch? && t.head.prior == w.head)
    || (t.head.Epoch? && t.head.kind == w.head.kind && t.head.prior == w.head.prior && t.head.caps == w.head.caps
        && i < |t.head.entries| && Spent(t.head.entries[i]) == Spent(w.head.entries[i]) && (i in t.live ==> i in w.live))
  }

  lemma ProgressElsewhere(cfg: Config, w: World, pool: Pool, i: nat, j: nat, c: Change, how: Publication)
    requires WorldOk(cfg, w) && w.head.Epoch? && i < |w.head.entries| && !c.Consume?
    ensures Unspent(w, Put(w, Progress(cfg, w.head, pool, j, c), how), i)
  {
    hide Valid, Progress, Spent, LiveOk, Evolved, Put;
    ProgressPut(cfg, w, pool, j, c, how);
  }

  /** The first half of a consumption, as far as another entry can tell. */
  lemma TriedElsewhere(cfg: Config, w: World, pool: Pool, i: nat, j: nat, what: string, exact: bool, how: Publication)
    requires WorldOk(cfg, w) && Serves(pool, w.head) && w.head.Epoch? && j in w.live && i < |w.head.entries| && i != j
    ensures var t := Tried(cfg, w, pool, j, what, exact, how);
            && WorldOk(cfg, t) && t.live == w.live - {j} && Serves(pool, t.head)
            && i < |t.head.entries| && Spent(t.head.entries[i]) == Spent(w.head.entries[i])
  {
    hide Valid, Progress, Spent, Evolved;
    var burnt := w.(live := w.live - {j});
    assert LiveOk(burnt);
    hide LiveOk;
    ProgressPut(cfg, burnt, pool, j, Consume(what), how);
    PutKeeps(cfg, burnt, None, how);
    PutServes(cfg, burnt, pool, j, Consume(what), how);
  }

  /** The second half. */
  lemma MarkedElsewhere(cfg: Config, w: World, pool: Pool, i: nat, j: nat, marking: Publication)
    requires WorldOk(cfg, w) && Serves(pool, w.head) && w.head.Epoch? && i < |w.head.entries|
    ensures var t := Put(w, Progress(cfg, w.head, pool, j, MarkUnknown), marking);
            && t.live == w.live && Serves(pool, t.head)
            && i < |t.head.entries| && Spent(t.head.entries[i]) == Spent(w.head.entries[i])
  {
    hide Valid, Progress, Spent, Evolved, LiveOk;
    ProgressPut(cfg, w, pool, j, MarkUnknown, marking);
    PutServes(cfg, w, pool, j, MarkUnknown, marking);
  }

  lemma ConsumeElsewhere(cfg: Config, w: World, pool: Pool, i: nat, j: nat, what: string, exact: bool, how: Publication, marking: Publication)
    requires WorldOk(cfg, w) && w.head.Epoch? && i < |w.head.entries| && (i != j || i !in w.live)
    ensures Unspent(w, ConsumeIn(cfg, w, pool, j, what, exact, how, marking), i)
  {
    hide Valid, Progress, Spent, LiveOk, Put, Tried;
    if Serves(pool, w.head) && j in w.live {
      TriedElsewhere(cfg, w, pool, i, j, what, exact, how);
      MarkedElsewhere(cfg, Tried(cfg, w, pool, j, what, exact, how), pool, i, j, marking);
    }
  }

  /** Without a live capability for an entry, no event spends it or revives the capability. */
  lemma NextUnspent(cfg: Config, w: World, ev: Event, i: nat)
    requires WorldOk(cfg, w) && w.head.Epoch? && i < |w.head.entries| && i !in w.live
    ensures Unspent(w, Next(cfg, w, ev), i)
  {
    hide Valid, Spent, Progress, CommonOk, LiveOk, Attach, Admit, ConsumeIn, Succeeds;
    match ev {
      case CommonEvent(op, how) =>
      case TakeOver(pool, how) => if Attach(cfg, w.head, pool).Some? { AttachSucceeds(cfg, w.head, pool); TakesOver(cfg, w.head, pool); }
      case AdmitEntry(pool, e, how) => if Admit(cfg, w.head, pool, e).Some? { AdmitSucceeds(cfg, w.head, pool, e); }
      case ConsumeEntry(pool, j, what, exact, how, marking) => ConsumeElsewhere(cfg, w, pool, i, j, what, exact, how, marking);
      case LaterEntry(pool, j, c, how) => if !c.Consume? { ProgressElsewhere(cfg, w, pool, i, j, c, how); }
      case Lose(lost) =>
    }
  }

  lemma TakesOver(cfg: Config, h: Head, pool: Pool)
    requires Attach(cfg, h, pool).Some?
    ensures Attach(cfg, h, pool).value.Epoch? && Attach(cfg, h, pool).value.prior == h
  {
    hide Valid, Follows;
  }

  lemma {:induction false} SupersededServed(pool: Pool, h: Head, n: Head)
    requires h.Epoch? && Serves(pool, h.prior) && pool.EpochPool? && Evolved(h, n)
    ensures LastServed(pool, n) == Some(h.prior)
    decreases n
  {
    assert Depth(h) == Depth(pool.prior) + 2 by { assert Depth(h.prior) == Depth(pool.prior) + 1; }
    EvolvedDepth(h, n);
    hide AllLater;
    if SameEpoch(h, n) {
      assert n.prior == h.prior && !Serves(pool, n);
    } else {
      SupersededServed(pool, h, n.prior);
    }
  }

  /** An entry without a live capability is spent by nothing, in its own epoch or after it. */
  lemma {:induction false} NeverSpentLater(cfg: Config, w: World, pool: Pool, events: seq<Event>, i: nat)
    requires WorldOk(cfg, w) && Serves(pool, w.head) && pool.EpochPool? && i < |w.head.entries| && i !in w.live
    ensures var last := LastServed(pool, Run(cfg, w, events).head);
            last.Some? && last.value.Epoch? && i < |last.value.entries| && Spent(last.value.entries[i]) == Spent(w.head.entries[i])
    decreases |events|
  {
    if events != [] {
      var t := Next(cfg, w, events[0]);
      NextUnspent(cfg, w, events[0], i);
      NextKeeps(cfg, w, events[0]);
      hide WorldOk, Next, Spent;
      if Serves(pool, t.head) {
        NeverSpentLater(cfg, t, pool, events[1..], i);
      } else {
        RunKeeps(cfg, t, events[1..]);
        SupersededServed(pool, t.head, Run(cfg, t, events[1..]).head);
      }
    }
  }

  /** One use: a consumption burns the live capability whether it works, fails or is refused, so that
      whatever it left, spent or not, the entry is never spent afterwards; a service it left unspent can
      no longer be launched. */
  lemma ConsumedAtMostOnce(cfg: Config, w: World, pool: Pool, i: nat, what: string, exact: bool,
                           how: Publication, marking: Publication, events: seq<Event>)
    requires WorldOk(cfg, w) && Serves(pool, w.head) && pool.EpochPool? && i < |w.head.entries|
    ensures var t := Next(cfg, w, ConsumeEntry(pool, i, what, exact, how, marking));
            var last := LastServed(pool, Run(cfg, t, events).head);
            && Serves(pool, t.head) && i < |t.head.entries| && i !in t.live
            && (Spent(t.head.entries[i]) && !Spent(w.head.entries[i]) ==> i in w.live)
            && last.Some? && last.value.Epoch? && i < |last.value.entries|
            && Spent(last.value.entries[i]) == Spent(t.head.entries[i])
  {
    var t := Next(cfg, w, ConsumeEntry(pool, i, what, exact, how, marking));
    ConsumeKeeps(cfg, w, pool, i, what, exact, how, marking);
    ConsumeServes(cfg, w, pool, i, what, exact, how, marking);
    hide Valid, Evolved, Run, Spent, ConsumeIn, LiveOk;
    NeverSpentLater(cfg, t, pool, events, i);
  }

  lemma ConsumeServes(cfg: Config, w: World, pool: Pool, i: nat, what: string, exact: bool, how: Publication, marking: Publication)
    requires WorldOk(cfg, w) && Serves(pool, w.head) && pool.EpochPool? && i < |w.head.entries|
    ensures var t := ConsumeIn(cfg, w, pool, i, what, exact, how, marking);
            Serves(pool, t.head) && |t.head.entries| == |w.head.entries| && (i !in w.live ==> t == w)
  {
    hide Progress, Spent, LiveOk, Readable, Serves, Put;
    if i in w.live {
      TriedServes(cfg, w, pool, i, what, exact, how);
      hide Valid, Tried;
      PutServes(cfg, Tried(cfg, w, pool, i, what, exact, how), pool, i, MarkUnknown, marking);
    }
  }

  lemma TriedServes(cfg: Config, w: World, pool: Pool, i: nat, what: string, exact: bool, how: Publication)
    requires Valid(cfg, w.head) && Serves(pool, w.head) && pool.EpochPool?
    ensures var t := Tried(cfg, w, pool, i, what, exact, how);
            && Valid(cfg, t.head) && t.head.Epoch? && Serves(pool, t.head) && |t.head.entries| == |w.head.entries|
  {
    hide Valid, Progress, Readable;
    PutServes(cfg, w.(live := w.live - {i}), pool, i, Consume(what), how);
  }

  lemma PutServes(cfg: Config, w: World, pool: Pool, i: nat, c: Change, how: Publication)
    requires Valid(cfg, w.head) && Serves(pool, w.head) && pool.EpochPool?
    ensures var t := Put(w, Progress(cfg, w.head, pool, i, c), how);
            Valid(cfg, t.head) && Serves(pool, t.head) && |t.head.entries| == |w.head.entries|
  {
    if Progress(cfg, w.head, pool, i, c).Some? { ProgressSucceeds(cfg, w.head, pool, i, c); }
    hide Valid, Progress, Succeeds, Changed, Spent;
  }
}
