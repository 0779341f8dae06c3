/** The pool objects themselves: validation as one pass over the entries, and the methods that change the
    shared state file and the live capabilities, against the functions of CapacityPools and PoolRuns. */
module PoolObjects {
  import opened Wrappers
  import opened CapacityPools
  import opened PoolRuns
  import Records = LedgerRecords

  // --- validation as a pass ----------------------------------------------------------------------------

  method ValidateCommon(cfg: Config, entries: seq<CommonEntry>, revision: nat) returns (ok: bool)
    ensures ok <==> CommonOk(cfg, entries, revision)
  {
    var keys: set<Binding>, logical: set<Logical>, events: nat, retained: nat := {}, {}, 0, 0;
    hide CommonEntryOk;
    for i := 0 to |entries|
      invariant forall k :: 0 <= k < i ==> CommonEntryOk(entries[k])
      invariant LogicalDistinct(entries, i)
      invariant forall b :: b in keys ==> b.logical in logical
      invariant forall x :: x in logical <==> exists k :: 0 <= k < i && entries[k].binding.logical == x
      invariant events == CommonEvents(entries, i) && retained == RetainedTotal(entries, i)
    {
      var e := entries[i];
      if e.binding in keys || e.binding.logical in logical {
        assert !LogicalDistinct(entries, |entries|);
        return false;
      }
      if !CommonEntryOk(e) { return false; }
      keys, logical := keys + {e.binding}, logical + {e.binding.logical};
      events, retained := events + CommonEventsOf(e), retained + e.retained;
    }
    return revision == events && |entries| <= cfg.capacities.slots && retained <= cfg.capacities.retained;
  }

  /** The three things a service entry claims. */
  function Claim(e: Entry, f: nat): string
    requires e.ServiceEntry?
  {
    if f == 0 then e.attemptId else if f == 1 then e.root else e.preview
  }

  predicate AllService(entries: seq<Entry>, n: nat)
    requires n <= |entries|
  {
    forall k :: 0 <= k < n ==> entries[k].ServiceEntry?
  }

  /** What the first `n` entries claim of one kind. */
  function Claims(entries: seq<Entry>, n: nat, f: nat): set<string>
    requires n <= |entries| && AllService(entries, n)
  {
    if n == 0 then {} else Claims(entries, n - 1, f) + {Claim(entries[n - 1], f)}
  }

  lemma {:induction false} ClaimsHold(entries: seq<Entry>, n: nat, f: nat, x: string)
    requires n <= |entries| && AllService(entries, n)
    ensures x in Claims(entries, n, f) <==> exists k :: 0 <= k < n && Claim(entries[k], f) == x
  {
    hide Claim;
    if n > 0 {
      ClaimsHold(entries, n - 1, f, x);
      if x in Claims(entries, n - 1, f) {
        var k :| 0 <= k < n - 1 && Claim(entries[k], f) == x;
        assert k < n;
      }
    }
  }

  /** Entry `i` clashes with an earlier one exactly when one of its claims is taken. */
  lemma ClaimsClash(entries: seq<Entry>, i: nat)
    requires i < |entries| && AllService(entries, i) && entries[i].ServiceEntry?
    ensures (Claim(entries[i], 0) !in Claims(entries, i, 0) && Claim(entries[i], 1) !in Claims(entries, i, 1)
             && Claim(entries[i], 2) !in Claims(entries, i, 2))
            <==> forall k :: 0 <= k < i ==> Disjoint(entries[k], entries[i])
  {
    var e := entries[i];
    ClaimsHold(entries, i, 0, e.attemptId);
    ClaimsHold(entries, i, 1, e.root);
    ClaimsHold(entries, i, 2, e.preview);
    hide Claims;
    forall k | 0 <= k < i
      ensures Disjoint(entries[k], e) <==>
                Claim(entries[k], 0) != Claim(e, 0) && Claim(entries[k], 1) != Claim(e, 1) && Claim(entries[k], 2) != Claim(e, 2)
    {
    }
    hide Disjoint;
  }

  predicate DisjointUpTo(entries: seq<Entry>, n: nat)
    requires n <= |entries|
  {
    forall a, b :: 0 <= a < b < n ==> Disjoint(entries[a], entries[b])
  }

  /** The service pool's own part: each entry well formed and at the stage its fields say, no attempt,
      root or preview twice, every resource within its capacity; and the events counted. */
  method ValidateService(caps: Needs, entries: seq<Entry>) returns (ok: bool, events: nat, retained: nat)
    ensures ok <==> EntriesOk(Service, caps, entries)
    ensures ok ==> events == Events(entries, |entries|) && retained == RetainedOf(entries, |entries|)
  {
    var seen: seq<set<string>> := [{}, {}, {}];
    var used: seq<nat> := [0, 0, 0, 0, 0];
    events, retained := 0, 0;
    if !caps.ServiceNeeds? { return false, 0, 0; }
    var limits := Amounts(caps);
    assert |limits| == 5;
    hide Amounts, At, EntryOk, Disjoint, Claim, Resources, Retained, EventsOf, OutputBytes, JournalBytes, RetainedBytes;
    for i := 0 to |entries|
      invariant AllService(entries, i) && DisjointUpTo(entries, i)
      invariant forall k :: 0 <= k < i ==> EntryOk(Service, entries[k])
      invariant |used| == 5 && forall k :: 0 <= k < 5 ==> used[k] == ResourceOf(entries, i, k)
      invariant seen == [Claims(entries, i, 0), Claims(entries, i, 1), Claims(entries, i, 2)]
      invariant events == Events(entries, i) && retained == RetainedOf(entries, i)
    {
      var e := entries[i];
      if !EntryOk(Service, e) { return false, 0, 0; }
      ServiceShape(e);
      ClaimsClash(entries, i);
      if Claim(e, 0) in seen[0] || Claim(e, 1) in seen[1] || Claim(e, 2) in seen[2] {
        return false, 0, 0;
      }
      seen := [seen[0] + {Claim(e, 0)}, seen[1] + {Claim(e, 1)}, seen[2] + {Claim(e, 2)}];
      events, retained := events + EventsOf(e), retained + Retained(e);
      used := AddTo(used, Resources(e));
    }
    ok := forall k :: 0 <= k < 5 ==> used[k] <= limits[k];
  }

  function AddTo(used: seq<nat>, more: seq<nat>): (r: seq<nat>)
    requires |used| == 5
    ensures |r| == 5 && forall k :: 0 <= k < 5 ==> r[k] == used[k] + At(more, k)
  {
    [used[0] + At(more, 0), used[1] + At(more, 1), used[2] + At(more, 2), used[3] + At(more, 3), used[4] + At(more, 4)]
  }

  lemma ServiceShape(e: Entry)
    requires EntryOk(Service, e)
    ensures e.ServiceEntry?
  {
  }

  // --- the state file and its pools --------------------------------------------------------------------

  /** state.json, and whether a pending publication lies beside it. */
  class StateFile {
    var head: Head
    var pending: bool

    constructor ()
      ensures head == CommonHead([], 0) && !pending
    {
      head, pending := CommonHead([], 0), false;
    }

    /** Write the next head beside the file and rename it over, as far as the host lets that go. */
    method Replace(n: Head, how: Publication) returns (told: bool)
      requires !pending
      modifies this
      ensures World(head, {}, pending) == Put(World(old(head), {}, false), Some(n), how)
      ensures told <==> how.Works?
    {
      if how.NotWritten? { return false; }
      pending := true;
      if how.LeftPending? { return false; }
      head, pending := n, false;
      return how.Works?;
    }
  }

  lemma AdmitMoves(cfg: Config, h: Head, pool: Pool, e: Entry)
    ensures Admit(cfg, h, pool, e).Some? ==> h.Epoch? && Admit(cfg, h, pool, e).value.revision == h.revision + 1
  {
    hide Valid;
  }

  class CapacityOwner {
    const cfg: Config
    const file: StateFile

    constructor (cfg: Config, file: StateFile)
      ensures this.cfg == cfg && this.file == file
    {
      this.cfg, this.file := cfg, file;
    }

    /** The common entries, when nothing is pending and the state file can be read and holds them in order. */
    method Load() returns (ok: bool)
      ensures ok <==> !file.pending && file.head.CommonHead? && Readable(cfg, file.head)
                      && CommonOk(cfg, file.head.common, file.head.revision)
    {
      if file.pending || !file.head.CommonHead? || !Readable(cfg, file.head) { return false; }
      ok := ValidateCommon(cfg, file.head.common, file.head.revision);
    }

    method Reserve(b: Binding, how: Publication) returns (told: bool)
      modifies file
      ensures World(file.head, {}, file.pending)
           == Next(cfg, World(old(file.head), {}, old(file.pending)), CommonEvent(CommonOp.Reserve(b), how))
      ensures told <==> !old(file.pending) && how.Works? && CommonStep(cfg, old(file.head), CommonOp.Reserve(b)).Some?
    {
      hide CommonOk, AlreadyHeld, Readable;
      var ok := Load();
      if !ok { return false; }
      var h := file.head;
      var used := RetainedTotal(h.common, |h.common|);
      if b.childTrust != cfg.childTrust || b.observer != cfg.observer || AlreadyHeld(h.common, b) { return false; }
      if |h.common| + 1 > cfg.capacities.slots || used + OUTPUT_HOLD > cfg.capacities.retained { return false; }
      told := Write(CommonHead(h.common + [CommonEntry(b, b, None, None, OUTPUT_HOLD)], h.revision + 1), how);
    }

    /** Publish the next head if it is short enough. */
    method Write(n: Head, how: Publication) returns (told: bool)
      requires !file.pending
      modifies file
      ensures World(file.head, {}, file.pending)
           == Put(World(old(file.head), {}, false), if cfg.size(n) <= Records.MAX_BYTES then Some(n) else None, how)
      ensures told <==> cfg.size(n) <= Records.MAX_BYTES && how.Works?
    {
      if cfg.size(n) > Records.MAX_BYTES { return false; }
      told := file.Replace(n, how);
    }

    /** The one entry whose ticket is presented. */
    method Find(ticket: Binding) returns (r: Option<nat>)
      requires file.head.CommonHead?
      ensures var found := Holders(file.head.common, |file.head.common|, ticket);
              r == if |found| == 1 && file.head.common[found[0]].ticket == ticket then Some(found[0]) else None
    {
      var found: seq<nat> := [];
      for i := 0 to |file.head.common|
        invariant found == Holders(file.head.common, i, ticket)
      {
        if file.head.common[i].binding == ticket { found := found + [i]; }
      }
      return if |found| == 1 && file.head.common[found[0]].ticket == ticket then Some(found[0]) else None;
    }

    method BindDispatch(ticket: Binding, reservation: ChildReservation, link: Link, how: Publication) returns (told: bool)
      modifies file
      ensures World(file.head, {}, file.pending)
           == Next(cfg, World(old(file.head), {}, old(file.pending)), CommonEvent(CommonOp.BindDispatch(ticket, reservation, link), how))
    {
      hide CommonOk, Readable, SettledEntry, Reserved, Attach, Admit, ConsumeIn, Progress, Valid, Holders;
      var ok := Load();
      if !ok { return false; }
      var i := Find(ticket);
      if i.None? { return false; }
      var h := file.head;
      var e := h.common[i.value];
      if e.dispatch.Some? || cfg.childTrust != e.binding.childTrust { return false; }
      if reservation.startSha256 != e.binding.startSha256 || reservation.childId != e.binding.logical.childId
         || reservation.budgetSha256 != e.binding.budgetSha256 {
        return false;
      }
      if link.reservation != reservation || link.request != e.binding.request || link.observer != cfg.observer || link.common != ticket {
        return false;
      }
      e := e.(dispatch := Some(Dispatch(reservation, link)));
      told := Write(CommonHead(h.common[i.value := e], h.revision + 1), how);
    }

    method Settle(ticket: Binding, result: Observed, how: Publication) returns (told: bool)
      modifies file
      ensures World(file.head, {}, file.pending)
           == Next(cfg, World(old(file.head), {}, old(file.pending)), CommonEvent(CommonOp.SettleChild(ticket, result), how))
    {
      hide CommonOk, Readable, Bound, Reserved, Attach, Admit, ConsumeIn, Progress, Valid, Holders;
      var ok := Load();
      if !ok { return false; }
      var i := Find(ticket);
      if i.None? { return false; }
      var h := file.head;
      var e := h.common[i.value];
      if e.settlement.Some? || e.dispatch.None? || cfg.childTrust != e.binding.childTrust { return false; }
      if result.reservation != e.dispatch.value.reservation || result.link != e.dispatch.value.link { return false; }
      if result.captured > OUTPUT_HOLD || result.measured != Some(result.captured) { return false; }
      if result.known && result.settled != Some(result.captured) { return false; }
      var kept := if result.known then result.captured else OUTPUT_HOLD;
      e := e.(retained := kept, settlement := Some(Settlement(e.ticket, kept, result.known)));
      told := Write(CommonHead(h.common[i.value := e], h.revision + 1), how);
    }
  }

  /** What a settlement or a mark leaves in its entry, and what it needed there: only the fields named
      change, and nothing recorded is recorded over. */
  predicate MovedOn(e: Entry, c: Change, n: Entry)
  {
    match e
    case ManagedEntry(_, _, _, receiptBytes, used, settlement, held) =>
      && n.ManagedEntry? && n.(settlement := settlement, held := held) == e && settlement.None?
      && (if c.Settle? then used && c.bytes == receiptBytes && n.settlement == Some(true) && n.held == receiptBytes
          else n.settlement == Some(false) && n.held == held)
    case ServiceEntry(_, _, _, needs, start, unknown, result, stage) =>
      && n.ServiceEntry? && n.(unknown := unknown, result := result, stage := stage) == e && result.None?
      && (if c.Settle? then start.Some? && c.bytes <= OutputBytes(needs) && n.result == Some(Finish(c.outcome, c.bytes)) && n.unknown == unknown
                            && n.stage == Derived(n)
          else !unknown && n.unknown && n.result.None? && n.stage == Unknown)
    case AdoptionEntry(_, _, needs, intent, completion) =>
      && c.Settle? && intent.Some? && completion.None? && c.bytes <= JournalBytes(needs)
      && n == e.(completion := Some(Receipt(c.what, c.bytes)))
    case ReviewEntry(_, needs, spent, receipt) =>
      && c.Settle? && spent && receipt.None? && c.bytes <= RetainedBytes(needs)
      && n == e.(receipt := Some(Receipt(c.what, c.bytes)))
  }

  lemma ChangeRecords(e: Entry, c: Change)
    requires !c.Consume?
    ensures Changed(e, c).Some? ==> MovedOn(e, c, Changed(e, c).value)
    ensures Changed(e, c).None? ==> forall n :: !MovedOn(e, c, n)
  {
  }

  /** Everything that has to hold for entry `i` to move on. */
  predicate Allowed(cfg: Config, h: Head, pool: Pool, i: nat, c: Change)
  {
    && pool.EpochPool? && Serves(pool, h) && Readable(cfg, h) && Valid(cfg, h) && i < |h.entries|
    && Changed(h.entries[i], c).Some?
    && cfg.size(h.(entries := h.entries[i := Changed(h.entries[i], c).value], revision := h.revision + 1)) <= Records.MAX_BYTES
  }

  lemma LaterMoves(cfg: Config, h: Head, pool: Pool, i: nat, c: Change)
    requires !c.Consume?
    ensures var n := Progress(cfg, h, pool, i, c);
            && (n.Some? <==> Allowed(cfg, h, pool, i, c))
            && (n.Some? ==>
                  && h.Epoch? && i < |h.entries| && n.value.Epoch? && n.value.kind == h.kind && n.value.prior == h.prior
                  && n.value.caps == h.caps && n.value.revision == h.revision + 1 && |n.value.entries| == |h.entries|
                  && MovedOn(h.entries[i], c, n.value.entries[i])
                  && (forall j :: 0 <= j < |h.entries| && j != i ==> n.value.entries[j] == h.entries[j]))
  {
    hide Valid, Readable, Changed, MovedOn;
    if pool.EpochPool? && Serves(pool, h) && Valid(cfg, h) && Readable(cfg, h) && i < |h.entries| {
      ProgressNeedsNoCheck(cfg, h, pool, i, c);
      ChangeRecords(h.entries[i], c);
    }
  }

  /** A successor epoch's pool: the epoch it took over or opened, and its live capabilities. */
  class EpochOwner {
    const cfg: Config
    const pool: Pool
    const file: StateFile
    var live: set<nat>

    constructor (cfg: Config, pool: Pool, file: StateFile)
      ensures this.cfg == cfg && this.pool == pool && this.file == file && live == {}
    {
      this.cfg, this.pool, this.file, this.live := cfg, pool, file, {};
    }

    ghost function State(): World
      reads this, file
    {
      World(file.head, live, file.pending)
    }

    /** Publish what a step makes of the current head, validated before it is written. */
    method Publish(n: Option<Head>, how: Publication) returns (told: bool)
      modifies file
      ensures State() == Put(old(State()), n, how)
      ensures told <==> !old(file.pending) && n.Some? && how.Works?
    {
      if file.pending || n.None? { return false; }
      told := file.Replace(n.value, how);
    }

    method AdmitEntry(e: Entry, how: Publication) returns (told: bool)
      modifies this`live, file
      ensures State() == Next(cfg, old(State()), Event.AdmitEntry(pool, e, how))
      ensures told ==> old(file.head).Epoch? && |old(file.head).entries| in live
    {
      var before := file.head;
      var n := Admit(cfg, before, pool, e);
      AdmitMoves(cfg, before, pool, e);
      hide Admit;
      told := Publish(n, how);
      if told { live := live + {|before.entries|}; }
    }

    /** The capability is gone before anything else happens. */
    method Consume(i: nat, what: string, exact: bool, how: Publication, marking: Publication) returns (told: bool)
      modifies this`live, file
      ensures State() == ConsumeIn(cfg, old(State()), pool, i, what, exact, how, marking)
      ensures told <==> Serves(pool, old(file.head)) && i in old(live) && Told(cfg, old(State()), pool, i, what, exact, how)
      ensures Serves(pool, old(file.head)) ==> i !in live
    {
      hide Progress;
      if !Serves(pool, file.head) || i !in live { return false; }
      live := live - {i};
      told := Publish(if exact then Progress(cfg, file.head, pool, i, Change.Consume(what)) else None, how);
      if !told && pool.EpochPool? && pool.kind.Service? {
        var _ := Publish(Progress(cfg, file.head, pool, i, Change.MarkUnknown), marking);
      }
    }

    /** A later change is made exactly when the pool serves a head that can be read and is valid, the entry
        allows it, and what it makes is short enough; it records the outcome in that one entry, one revision
        on, and leaves every capability as it was. */
    method Later(i: nat, c: Change, how: Publication) returns (told: bool)
      requires !c.Consume?
      modifies file
      ensures var h := old(file.head);
              var can := !old(file.pending) && Allowed(cfg, h, pool, i, c);
              && (told <==> can && how.Works?)
              && file.pending == (old(file.pending) || (can && how.LeftPending?))
              && (if can && (how.Works? || how.AfterRename?) then
                    && file.head.Epoch? && file.head.kind == h.kind && file.head.prior == h.prior && file.head.caps == h.caps
                    && file.head.revision == h.revision + 1 && |file.head.entries| == |h.entries|
                    && MovedOn(h.entries[i], c, file.head.entries[i])
                    && (forall j :: 0 <= j < |h.entries| && j != i ==> file.head.entries[j] == h.entries[j])
                  else file.head == h)
      ensures live == old(live)
    {
      var h := file.head;
      var n := Progress(cfg, h, pool, i, c);
      LaterMoves(cfg, h, pool, i, c);
      hide Progress, Allowed, MovedOn;
      told := Publish(n, how);
    }
  }
}
