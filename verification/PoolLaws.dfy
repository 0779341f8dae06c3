/** What the pool's operations do, in terms of the named amounts that are asked for and not of how they are
    added up: who is admitted, what is charged and what is settled; and that over every run what was settled
    stays within what was configured. */
module PoolLaws {
  import opened Wrappers
  import opened CapacityPools
  import opened PoolRuns
  import Records = LedgerRecords

  // --- sums of named amounts ---------------------------------------------------------------------------

  ghost function Sum(entries: seq<Entry>, amount: Entry -> nat): nat
  {
    if entries == [] then 0 else Sum(entries[..|entries| - 1], amount) + amount(entries[|entries| - 1])
  }

  function Output(e: Entry): nat { if e.ServiceEntry? && e.needs.ServiceNeeds? then e.needs.outputBytes else 0 }

  function Journal(e: Entry): nat { if e.AdoptionEntry? && e.needs.AdoptionNeeds? then e.needs.journalBytes else 0 }

  function Retention(e: Entry): nat { if e.ReviewEntry? && e.needs.ReviewNeeds? then e.needs.retainedBytes else 0 }

  function Receipts(e: Entry): nat { if e.ManagedEntry? then e.held else 0 }

  ghost function Kept(common: seq<CommonEntry>): nat
  {
    if common == [] then 0 else Kept(common[..|common| - 1]) + common[|common| - 1].retained
  }

  /** The entries of every pool so far, each one slot. */
  ghost function SlotsTaken(h: Head): nat
  {
    match h
    case CommonHead(common, _) => |common|
    case Epoch(_, prior, _, entries, _) => SlotsTaken(prior) + |entries|
  }

  /** The output retained: what the children keep, and for every service its output bytes, for every adoption its
      journal bytes, for every review its retained bytes. */
  ghost function OutputTaken(h: Head): nat
  {
    match h
    case CommonHead(common, _) => Kept(common)
    case Epoch(_, prior, _, entries, _) => OutputTaken(prior) + Sum(entries, Output) + Sum(entries, Journal) + Sum(entries, Retention)
  }

  ghost function ReceiptsTaken(h: Head): nat
  {
    match h
    case CommonHead(_, _) => 0
    case Epoch(_, prior, _, entries, _) => ReceiptsTaken(prior) + Sum(entries, Receipts)
  }

  lemma {:induction false} KeptIs(common: seq<CommonEntry>, n: nat)
    requires n <= |common|
    ensures RetainedTotal(common, n) == Kept(common[..n])
  {
    if n > 0 {
      KeptIs(common, n - 1);
      assert common[..n][..n - 1] == common[..n - 1];
    }
  }

  lemma {:induction false} RetainedIs(entries: seq<Entry>, n: nat)
    requires n <= |entries|
    ensures RetainedOf(entries, n) == Sum(entries[..n], Output) + Sum(entries[..n], Journal) + Sum(entries[..n], Retention)
    ensures ManagedOf(entries, n) == Sum(entries[..n], Receipts)
  {
    if n > 0 {
      RetainedIs(entries, n - 1);
      assert entries[..n][..n - 1] == entries[..n - 1];
    }
  }

  /** What a head is found to have charged is what its entries name. */
  lemma {:induction false} UsedIsTaken(h: Head)
    ensures Used(h) == Usage(SlotsTaken(h), OutputTaken(h), ReceiptsTaken(h))
    decreases h
  {
    match h {
      case CommonHead(common, _) =>
        KeptIs(common, |common|);
        assert common[..|common|] == common;
      case Epoch(_, prior, _, entries, _) =>
        UsedIsTaken(prior);
        RetainedIs(entries, |entries|);
        assert entries[..|entries|] == entries;
    }
  }

  // --- the axes of an epoch ----------------------------------------------------------------------------

  function WallSeconds(e: Entry): nat { if e.ServiceEntry? && e.needs.ServiceNeeds? then e.needs.wallSeconds else 0 }

  function CpuSeconds(e: Entry): nat { if e.ServiceEntry? && e.needs.ServiceNeeds? then e.needs.cpuSeconds else 0 }

  function Files(e: Entry): nat { if e.ServiceEntry? && e.needs.ServiceNeeds? then e.needs.fileBytes else 0 }

  function Descriptors(e: Entry): nat { if e.ServiceEntry? && e.needs.ServiceNeeds? then e.needs.descriptors else 0 }

  function Reads(e: Entry): nat { if e.AdoptionEntry? && e.needs.AdoptionNeeds? then e.needs.readBytes else 0 }

  function Writes(e: Entry): nat { if e.AdoptionEntry? && e.needs.AdoptionNeeds? then e.needs.writeBytes else 0 }

  function Mutations(e: Entry): nat { if e.AdoptionEntry? && e.needs.AdoptionNeeds? then e.needs.fileMutations else 0 }

  function Reviewed(e: Entry): nat { if e.ReviewEntry? && e.needs.ReviewNeeds? then e.needs.reviewedBytes else 0 }

  function Calls(e: Entry): nat { if e.ReviewEntry? && e.needs.ReviewNeeds? then e.needs.readCalls else 0 }

  /** Every axis of the epoch has room for the entry beside those it holds. */
  ghost predicate RoomOnAxes(kind: Kind, caps: Needs, held: seq<Entry>, e: Entry)
  {
    match kind
    case Managed => true
    case Service =>
      && caps.ServiceNeeds?
      && Sum(held, WallSeconds) + WallSeconds(e) <= caps.wallSeconds
          && Sum(held, CpuSeconds) + CpuSeconds(e) <= caps.cpuSeconds
      && Sum(held, Output) + Output(e) <= caps.outputBytes && Sum(held, Files) + Files(e) <= caps.fileBytes
      && Sum(held, Descriptors) + Descriptors(e) <= caps.descriptors
    case Adoption =>
      && caps.AdoptionNeeds?
      && Sum(held, Reads) + Reads(e) <= caps.readBytes && Sum(held, Writes) + Writes(e) <= caps.writeBytes
      && Sum(held, Mutations) + Mutations(e) <= caps.fileMutations && Sum(held, Journal) + Journal(e) <= caps.journalBytes
    case Review =>
      && caps.ReviewNeeds?
      && Sum(held, Reviewed) + Reviewed(e) <= caps.reviewedBytes && Sum(held, Calls) + Calls(e) <= caps.readCalls
      && Sum(held, Retention) + Retention(e) <= caps.retainedBytes
  }

  /** A request of the epoch's own kind, within its bounds, to which nothing has happened yet. */
  ghost predicate NewRequest(kind: Kind, e: Entry)
  {
    match kind
    case Managed =>
      e.ManagedEntry? && 0 < e.receiptBytes <= 4096 && !e.used && e.settlement == None && e.held == 4096
    case Service =>
      && e.ServiceEntry? && e.needs.ServiceNeeds? && e.start == None && !e.unknown && e.result == None && e.stage == Admitted
      && WallSeconds(e) > 0 && CpuSeconds(e) > 0 && Output(e) > 0 && Files(e) > 0 && Descriptors(e) > 0
    case Adoption =>
      && e.AdoptionEntry? && e.needs.AdoptionNeeds? && e.intent == None && e.completion == None
      && Reads(e) > 0 && Writes(e) > 0 && Mutations(e) > 0 && Journal(e) > 0
    case Review =>
      && e.ReviewEntry? && e.needs.ReviewNeeds? && !e.spent && e.receipt == None
      && Reviewed(e) > 0 && 0 < Calls(e) <= 100000 && 65536 <= Retention(e) <= 4194304
  }

  /** Both claim one thing: a capture, attempt or destination; an attempt, root or preview; a plan or managed copy;
      a review. */
  ghost predicate Clash(a: Entry, b: Entry)
  {
    || (a.ManagedEntry? && b.ManagedEntry?
        && (a.capture == b.capture || a.attempt == b.attempt || a.destination == b.destination))
    || (a.ServiceEntry? && b.ServiceEntry? && (a.attemptId == b.attemptId || a.root == b.root || a.preview == b.preview))
    || (a.AdoptionEntry? && b.AdoptionEntry? && (a.plan == b.plan || a.copy == b.copy))
    || (a.ReviewEntry? && b.ReviewEntry? && a.reviewId == b.reviewId)
  }

  lemma {:induction false} AxisIs(entries: seq<Entry>, n: nat, k: nat, amount: Entry -> nat)
    requires n <= |entries|
    requires forall i :: 0 <= i < |entries| ==> At(Resources(entries[i]), k) == amount(entries[i])
    ensures ResourceOf(entries, n, k) == Sum(entries[..n], amount)
  {
    if n > 0 {
      AxisIs(entries, n - 1, k, amount);
      assert entries[..n][..n - 1] == entries[..n - 1];
    }
  }

  ghost predicate Under(held: seq<Entry>, e: Entry, caps: seq<nat>, k: nat)
  {
    k < |caps| ==> ResourceOf(held, |held|, k) + At(Resources(e), k) <= caps[k]
  }

  /** Axis by axis, of which there are at most five. */
  lemma FiveAxes(held: seq<Entry>, e: Entry, caps: seq<nat>)
    requires |caps| <= 5
    ensures (forall k :: 0 <= k < |caps| ==> ResourceOf(held, |held|, k) + At(Resources(e), k) <= caps[k])
            <==> Under(held, e, caps, 0) && Under(held, e, caps, 1) && Under(held, e, caps, 2) && Under(held, e, caps, 3) && Under(held, e, caps, 4)
  {
    hide ResourceOf, At, Resources;
    forall k | 0 <= k < |caps| && Under(held, e, caps, k) ensures ResourceOf(held, |held|, k) + At(Resources(e), k) <= caps[k] {}
    if Under(held, e, caps, 0) && Under(held, e, caps, 1) && Under(held, e, caps, 2) && Under(held, e, caps, 3)
        && Under(held, e, caps, 4) {
      forall k | 0 <= k < |caps| ensures Under(held, e, caps, k) { assert k == 0 || k == 1 || k == 2 || k == 3 || k == 4; }
    }
  }

  lemma RoomForService(caps: Needs, held: seq<Entry>, e: Entry)
    requires caps.ServiceNeeds? && EntryOk(Service, e) && forall i :: 0 <= i < |held| ==> EntryOk(Service, held[i])
    ensures RoomOnAxes(Service, caps, held, e)
            <==> && Under(held, e, Amounts(caps), 0) && Under(held, e, Amounts(caps), 1) && Under(held, e, Amounts(caps), 2)
                 && Under(held, e, Amounts(caps), 3) && Under(held, e, Amounts(caps), 4)
  {
    assert held[..|held|] == held;
    AxisIs(held, |held|, 0, WallSeconds);
    AxisIs(held, |held|, 1, CpuSeconds);
    AxisIs(held, |held|, 2, Output);
    AxisIs(held, |held|, 3, Files);
    AxisIs(held, |held|, 4, Descriptors);
    assert Resources(e) == [WallSeconds(e), CpuSeconds(e), Output(e), Files(e), Descriptors(e)];
    hide Sum, ResourceOf, Resources, EntryOk, WallSeconds, CpuSeconds, Output, Files, Descriptors;
  }

  lemma RoomForAdoption(caps: Needs, held: seq<Entry>, e: Entry)
    requires caps.AdoptionNeeds? && EntryOk(Adoption, e) && forall i :: 0 <= i < |held| ==> EntryOk(Adoption, held[i])
    ensures RoomOnAxes(Adoption, caps, held, e)
            <==> && Under(held, e, Amounts(caps), 0) && Under(held, e, Amounts(caps), 1) && Under(held, e, Amounts(caps), 2)
                 && Under(held, e, Amounts(caps), 3) && Under(held, e, Amounts(caps), 4)
  {
    assert held[..|held|] == held;
    AxisIs(held, |held|, 0, Reads);
    AxisIs(held, |held|, 1, Writes);
    AxisIs(held, |held|, 2, Mutations);
    AxisIs(held, |held|, 3, Journal);
    assert Resources(e) == [Reads(e), Writes(e), Mutations(e), Journal(e)];
    hide Sum, ResourceOf, Resources, EntryOk, Reads, Writes, Mutations, Journal;
  }

  lemma RoomForReview(caps: Needs, held: seq<Entry>, e: Entry)
    requires caps.ReviewNeeds? && EntryOk(Kind.Review, e) && forall i :: 0 <= i < |held| ==> EntryOk(Kind.Review, held[i])
    ensures RoomOnAxes(Kind.Review, caps, held, e)
            <==> && Under(held, e, Amounts(caps), 0) && Under(held, e, Amounts(caps), 1) && Under(held, e, Amounts(caps), 2)
                 && Under(held, e, Amounts(caps), 3) && Under(held, e, Amounts(caps), 4)
  {
    assert held[..|held|] == held;
    AxisIs(held, |held|, 0, Reviewed);
    AxisIs(held, |held|, 1, Calls);
    AxisIs(held, |held|, 2, Retention);
    assert Resources(e) == [Reviewed(e), Calls(e), Retention(e)];
    hide Sum, ResourceOf, Resources, EntryOk, Reviewed, Calls, Retention;
  }

  lemma RoomIs(kind: Kind, caps: Needs, held: seq<Entry>, e: Entry)
    requires OnAxes(kind, caps) && EntryOk(kind, e) && forall i :: 0 <= i < |held| ==> EntryOk(kind, held[i])
    ensures RoomOnAxes(kind, caps, held, e)
            <==> forall k :: 0 <= k < |Amounts(caps)| ==> ResourceOf(held, |held|, k) + At(Resources(e), k) <= Amounts(caps)[k]
  {
    FiveAxes(held, e, Amounts(caps));
    match kind {
      case Managed =>
      case Service => RoomForService(caps, held, e);
      case Adoption => RoomForAdoption(caps, held, e);
      case Review => RoomForReview(caps, held, e);
    }
    hide EntryOk, Under, ResourceOf, Resources, Sum;
  }

  lemma AllPositive(s: seq<nat>)
    requires |s| <= 5
    ensures (forall k :: 0 <= k < |s| ==> s[k] > 0)
            <==> && (|s| > 0 ==> s[0] > 0) && (|s| > 1 ==> s[1] > 0) && (|s| > 2 ==> s[2] > 0) && (|s| > 3 ==> s[3] > 0) && (|s| > 4 ==> s[4] > 0)
  {
    if (|s| > 0 ==> s[0] > 0) && (|s| > 1 ==> s[1] > 0) && (|s| > 2 ==> s[2] > 0) && (|s| > 3 ==> s[3] > 0)
        && (|s| > 4 ==> s[4] > 0) {
      forall k | 0 <= k < |s| ensures s[k] > 0 { assert k == 0 || k == 1 || k == 2 || k == 3 || k == 4; }
    }
  }

  lemma NewRequestIs(kind: Kind, e: Entry)
    ensures NewRequest(kind, e) <==> Fresh(e) && EntryOk(kind, e)
  {
    AllPositive(Resources(e));
  }

  lemma ClashIs(kind: Kind, a: Entry, b: Entry)
    requires KindOf(a, kind) && KindOf(b, kind)
    ensures Clash(a, b) <==> !Disjoint(a, b)
  {
  }

  /** Everything an admission asks: a new request of the right kind, nothing claimed that was claimed before, room
      on every axis of the epoch, and in the shared pool a slot, the output it may leave, and for a managed
      callback its receipt; the configured slots grow by three and the receipts by 12288 bytes with the one grant. */
  ghost predicate MayAdmit(cfg: Config, h: Head, e: Entry)
    requires h.Epoch?
  {
    && NewRequest(h.kind, e)
    && (forall i :: 0 <= i < |h.entries| ==> !Clash(h.entries[i], e))
    && RoomOnAxes(h.kind, h.caps, h.entries, e)
    && SlotsTaken(h) + 1 <= cfg.capacities.slots + 3 * Grants(h)
    && OutputTaken(h) + Output(e) + Journal(e) + Retention(e) <= cfg.capacities.retained
    && ReceiptsTaken(h) + Receipts(e) <= 12288 * Grants(h)
  }

  /** Admission is exactly that, and a head that is not too long to write; it adds the entry and nothing else. */
  lemma AdmitMeans(cfg: Config, h: Head, pool: Pool, e: Entry)
    requires Valid(cfg, h) && Readable(cfg, h) && Serves(pool, h) && pool.EpochPool?
    ensures var n := h.(entries := h.entries + [e], revision := h.revision + 1);
            Admit(cfg, h, pool, e) == if MayAdmit(cfg, h, e) && cfg.size(n) <= 4194304 then Some(n) else None
  {
    AdmitExactly(cfg, h, pool, e);
    AdmissibleIs(cfg, h, e);
    hide Admit, Admissible, MayAdmit, Valid;
  }

  lemma AdmissibleIs(cfg: Config, h: Head, e: Entry)
    requires h.Epoch? && Valid(cfg, h)
    ensures Admissible(cfg, h, e) <==> MayAdmit(cfg, h, e)
  {
    CapsAreConfigured(cfg, h);
    UsedIsTaken(h);
    NewRequestIs(h.kind, e);
    hide Used, Caps, SlotsTaken, OutputTaken, ReceiptsTaken, Sum, ResourceOf, RoomOnAxes, Fresh, NewRequest, Amounts, Grants;
    if EntryOk(h.kind, e) {
      RoomIs(h.kind, h.caps, h.entries, e);
      forall i | 0 <= i < |h.entries| ensures Clash(h.entries[i], e) <==> !Disjoint(h.entries[i], e) { ClashIs(h.kind, h.entries[i], e); }
      ChargeIs(e);
    }
    hide EntryOk, Clash, Disjoint;
  }

  lemma ChargeIs(e: Entry)
    ensures Retained(e) == Output(e) + Journal(e) + Retention(e) && ManagedBytes(e) == Receipts(e)
  {
  }

  // --- what is settled ---------------------------------------------------------------------------------

  /** The bytes that have been settled for an entry: a service's output, an adoption's journal, what a review
      retained. */
  function SettledBytes(e: Entry): nat
  {
    match e
    case ManagedEntry(_, _, _, _, _, _, _) => 0
    case ServiceEntry(_, _, _, _, _, _, result, _) => if result.Some? then result.value.bytes else 0
    case AdoptionEntry(_, _, _, _, completion) => if completion.Some? then completion.value.bytes else 0
    case ReviewEntry(_, _, _, receipt) => if receipt.Some? then receipt.value.bytes else 0
  }

  ghost function Settled(h: Head): nat
  {
    if h.CommonHead? then 0 else Settled(h.prior) + Sum(h.entries, SettledBytes)
  }

  /** The children's part, below all the epochs. */
  ghost function KeptBelow(h: Head): nat
  {
    if h.CommonHead? then Kept(h.common) else KeptBelow(h.prior)
  }

  ghost predicate Covered(entries: seq<Entry>)
  {
    forall i :: 0 <= i < |entries| ==> SettledBytes(entries[i]) <= Output(entries[i]) + Journal(entries[i]) + Retention(entries[i])
  }

  /** Nothing was settled for more than was reserved for it. */
  ghost predicate AllCovered(h: Head)
  {
    h.Epoch? ==> AllCovered(h.prior) && Covered(h.entries)
  }

  lemma {:induction false} CoveredSums(entries: seq<Entry>)
    requires Covered(entries)
    ensures Sum(entries, SettledBytes) <= Sum(entries, Output) + Sum(entries, Journal) + Sum(entries, Retention)
  {
    if entries != [] {
      assert Covered(entries[..|entries| - 1]);
      CoveredSums(entries[..|entries| - 1]);
    }
  }

  lemma {:induction false} SettledFits(h: Head)
    requires AllCovered(h)
    ensures Settled(h) + KeptBelow(h) <= OutputTaken(h)
    decreases h
  {
    if h.Epoch? {
      SettledFits(h.prior);
      CoveredSums(h.entries);
    }
  }

  /** The bytes an event settles: those of a settlement that is published, of a service, an adoption or a review. */
  ghost function Accepted(cfg: Config, w: World, ev: Event): nat
  {
    if ev.LaterEntry? && ev.change.Settle? && Next(cfg, w, ev).head != w.head && w.head.Epoch? && !w.head.kind.Managed?
    then ev.change.bytes else 0
  }

  ghost function AcceptedIn(cfg: Config, w: World, events: seq<Event>): nat
    decreases |events|
  {
    if events == [] then 0 else Accepted(cfg, w, events[0]) + AcceptedIn(cfg, Next(cfg, w, events[0]), events[1..])
  }

  lemma {:induction false} SumOfUpdate(entries: seq<Entry>, i: nat, e: Entry, amount: Entry -> nat)
    requires i < |entries|
    ensures Sum(entries[i := e], amount) + amount(entries[i]) == Sum(entries, amount) + amount(e)
    decreases |entries|
  {
    var m := |entries| - 1;
    if i == m {
      assert entries[i := e][..m] == entries[..m];
    } else {
      assert entries[i := e][..m] == entries[..m][i := e];
      SumOfUpdate(entries[..m], i, e, amount);
    }
  }

  lemma SumOfAppend(entries: seq<Entry>, e: Entry, amount: Entry -> nat)
    ensures Sum(entries + [e], amount) == Sum(entries, amount) + amount(e)
  {
    assert (entries + [e])[..|entries|] == entries;
  }

  /** A change settles what it says, once, and within what was reserved. */
  lemma ChangeSettles(kind: Kind, e: Entry, c: Change)
    requires EntryOk(kind, e) && Changed(e, c).Some?
    ensures var n := Changed(e, c).value;
            && SettledBytes(n) == SettledBytes(e) + (if c.Settle? && !e.ManagedEntry? then c.bytes else 0)
            && (c.Settle? ==> SettledBytes(e) == 0)
            && Output(n) == Output(e) && Journal(n) == Journal(e) && Retention(n) == Retention(e)
            && (SettledBytes(e) <= Output(e) + Journal(e) + Retention(e)
                ==> SettledBytes(n) <= Output(n) + Journal(n) + Retention(n))
  {
  }

  lemma CoveredUpdate(entries: seq<Entry>, i: nat, e: Entry)
    requires Covered(entries) && i < |entries| && SettledBytes(e) <= Output(e) + Journal(e) + Retention(e)
    ensures Covered(entries[i := e])
  {
    hide SettledBytes, Output, Journal, Retention;
  }

  lemma MovedSettles(h: Head, i: nat, c: Change)
    requires h.Epoch? && i < |h.entries| && EntryOk(h.kind, h.entries[i]) && AllCovered(h) && Changed(h.entries[i], c).Some?
    ensures var n := h.(entries := h.entries[i := Changed(h.entries[i], c).value], revision := h.revision + 1);
            && AllCovered(n) && KeptBelow(n) == KeptBelow(h)
            && Settled(n) == Settled(h) + (if c.Settle? && !h.kind.Managed? then c.bytes else 0)
  {
    hide Changed, Sum, SettledBytes, Output, Journal, Retention, EntryOk, Covered;
    var e := h.entries[i];
    ChangeSettles(h.kind, e, c);
    SumOfUpdate(h.entries, i, Changed(e, c).value, SettledBytes);
    KindIs(h.kind, e);
    CoveredAt(h.entries, i);
    CoveredUpdate(h.entries, i, Changed(e, c).value);
  }

  lemma CoveredAt(entries: seq<Entry>, i: nat)
    requires Covered(entries) && i < |entries|
    ensures SettledBytes(entries[i]) <= Output(entries[i]) + Journal(entries[i]) + Retention(entries[i])
  {
  }

  lemma ProgressSettles(cfg: Config, h: Head, pool: Pool, i: nat, c: Change)
    requires Valid(cfg, h) && AllCovered(h) && Progress(cfg, h, pool, i, c).Some?
    ensures var n := Progress(cfg, h, pool, i, c).value;
            && h.Epoch? && n.Epoch? && AllCovered(n) && n.revision == h.revision + 1
            && Settled(n) == Settled(h) + (if c.Settle? && !h.kind.Managed? then c.bytes else 0)
            && KeptBelow(n) == KeptBelow(h)
  {
    hide Progress, Valid, Changed, Succeeds, Spent, Settled, KeptBelow, AllCovered, EntryOk;
    ProgressSucceeds(cfg, h, pool, i, c);
    EntryIsOkIn(cfg, h, i);
    MovedSettles(h, i, c);
  }

  lemma KindIs(kind: Kind, e: Entry)
    requires EntryOk(kind, e)
    ensures e.ManagedEntry? <==> kind.Managed?
  {
  }

  lemma PutSettles(cfg: Config, w: World, pool: Pool, i: nat, c: Change, how: Publication)
    requires Valid(cfg, w.head) && AllCovered(w.head)
    ensures var t := Put(w, Progress(cfg, w.head, pool, i, c), how);
            && AllCovered(t.head) && KeptBelow(t.head) == KeptBelow(w.head)
            && Settled(t.head) == Settled(w.head) + (if t.head != w.head && c.Settle?
                && !w.head.kind.Managed? then c.bytes else 0)
            && (t.head != w.head ==> w.head.Epoch?)
  {
    if Progress(cfg, w.head, pool, i, c).Some? { ProgressSettles(cfg, w.head, pool, i, c); }
    hide Progress, Valid, Settled, KeptBelow, AllCovered;
  }

  lemma AdmitSettles(cfg: Config, h: Head, pool: Pool, e: Entry)
    requires Valid(cfg, h) && AllCovered(h) && Admit(cfg, h, pool, e).Some?
    ensures var n := Admit(cfg, h, pool, e).value;
            AllCovered(n) && Settled(n) == Settled(h) && KeptBelow(n) == KeptBelow(h)
  {
    AdmitSucceeds(cfg, h, pool, e);
    NothingSettled(cfg, h, pool, e);
    SumOfAppend(h.entries, e, SettledBytes);
    hide Admit, Valid, Succeeds, Sum, Output, Journal, Retention, SettledBytes;
  }

  lemma NothingSettled(cfg: Config, h: Head, pool: Pool, e: Entry)
    requires Admit(cfg, h, pool, e).Some?
    ensures SettledBytes(e) == 0 && h.Epoch?
  {
    hide Valid, Readable;
  }

  lemma ConsumeSettles(cfg: Config, w: World, pool: Pool, i: nat, what: string, exact: bool, how: Publication,
                       marking: Publication)
    requires WorldOk(cfg, w) && AllCovered(w.head)
    ensures var t := ConsumeIn(cfg, w, pool, i, what, exact, how, marking);
            AllCovered(t.head) && Settled(t.head) == Settled(w.head) && KeptBelow(t.head) == KeptBelow(w.head)
  {
    hide Progress, Valid, Settled, KeptBelow, AllCovered, Told, Tried, Put, Serves, LiveOk;
    if Serves(pool, w.head) && i in w.live {
      TriedSettles(cfg, w, pool, i, what, exact, how);
      PutSettles(cfg, Tried(cfg, w, pool, i, what, exact, how), pool, i, MarkUnknown, marking);
    }
  }

  lemma TriedSettles(cfg: Config, w: World, pool: Pool, i: nat, what: string, exact: bool, how: Publication)
    requires WorldOk(cfg, w) && AllCovered(w.head)
    ensures var t := Tried(cfg, w, pool, i, what, exact, how);
            && Valid(cfg, t.head) && AllCovered(t.head) && Settled(t.head) == Settled(w.head)
                && KeptBelow(t.head) == KeptBelow(w.head)
  {
    var v := w.(live := w.live - {i});
    assert WorldOk(cfg, v);
    hide Progress, Valid, Settled, KeptBelow, AllCovered, LiveOk;
    PutSettles(cfg, v, pool, i, Consume(what), how);
    ProgressPut(cfg, v, pool, i, Consume(what), how);
  }

  /** Every event settles what it accepts, and keeps it covered. */
  lemma NextSettles(cfg: Config, w: World, ev: Event)
    requires WorldOk(cfg, w) && AllCovered(w.head)
    ensures var t := Next(cfg, w, ev);
            AllCovered(t.head) && Settled(t.head) == Settled(w.head) + Accepted(cfg, w, ev)
  {
    match ev {
      case CommonEvent(op, how) => hide Valid, CommonOk, Readable, Bound, SettledEntry, Holders;
      case TakeOver(pool, how) => hide Valid, Sum, Readable;
      case AdmitEntry(pool, e, how) =>
        if Admit(cfg, w.head, pool, e).Some? { AdmitSettles(cfg, w.head, pool, e); }
        hide Admit, Valid, Settled, AllCovered;
      case ConsumeEntry(pool, i, what, exact, how, marking) =>
        ConsumeSettles(cfg, w, pool, i, what, exact, how, marking);
        hide ConsumeIn, Valid, Settled, AllCovered;
      case LaterEntry(pool, i, c, how) =>
        PutSettles(cfg, w, pool, i, c, how);
        hide Progress, Valid, Settled, AllCovered, Put;
      case Lose(_) =>
    }
  }

  lemma {:induction false} RunSettles(cfg: Config, w: World, events: seq<Event>)
    requires WorldOk(cfg, w) && AllCovered(w.head)
    ensures var t := Run(cfg, w, events);
            AllCovered(t.head) && Settled(t.head) == Settled(w.head) + AcceptedIn(cfg, w, events)
    decreases |events|
  {
    hide WorldOk, AllCovered, Settled, Next, Accepted;
    if events != [] {
      NextKeeps(cfg, w, events[0]);
      NextSettles(cfg, w, events[0]);
      RunSettles(cfg, Next(cfg, w, events[0]), events[1..]);
    }
  }

  /** Over every run, through whatever succession: the bytes accepted in settlements of services, adoptions and
      reviews, and what the children keep, are together within the configured output; and nothing reserved by
      name is more either. */
  lemma SettledWithinCapacity(cfg: Config, events: seq<Event>)
    ensures var h := Run(cfg, Created(), events).head;
            && AcceptedIn(cfg, Created(), events) == Settled(h)
            && AcceptedIn(cfg, Created(), events) + KeptBelow(h) <= OutputTaken(h) <= cfg.capacities.retained
            && SlotsTaken(h) <= cfg.capacities.slots + 3 * Grants(h) && ReceiptsTaken(h) <= 12288 * Grants(h)
                && Grants(h) <= 1
  {
    CreatedIsOk(cfg);
    RunSettles(cfg, Created(), events);
    RunKeeps(cfg, Created(), events);
    var h := Run(cfg, Created(), events).head;
    SettledFits(h);
    UsedIsTaken(h);
    CapsAreConfigured(cfg, h);
    ValidWithin(cfg, h);
    hide Run, Used, Caps, AllCovered, OutputTaken, SlotsTaken, ReceiptsTaken, KeptBelow, Valid, AcceptedIn, Grants;
  }

  // --- the common pool's operations --------------------------------------------------------------------

  /** The common pool can be read and is in order. */
  ghost predicate InOrder(cfg: Config, h: Head)
  {
    h.CommonHead? && Readable(cfg, h) && CommonOk(cfg, h.common, h.revision)
  }

  /** A reservation is made exactly for a child that has none under its start, nor under its task, operation, attempt
      and id, with the pool's own trust and observer, while a slot and the whole hold of 262144 bytes are left;
      it takes both. */
  lemma ReserveMeans(cfg: Config, h: Head, b: Binding)
    requires InOrder(cfg, h)
    ensures var n := CommonHead(h.common + [CommonEntry(b, b, None, None, 262144)], h.revision + 1);
            CommonStep(cfg, h, Reserve(b))
            == if && b.childTrust == cfg.childTrust && b.observer == cfg.observer
                  && (forall i :: 0 <= i < |h.common| ==>
                        && h.common[i].binding.logical != b.logical
                        && (h.common[i].binding.startSha256 == b.startSha256
                            ==> h.common[i].binding.logical.childId != b.logical.childId))
                  && |h.common| < cfg.capacities.slots && Kept(h.common) + 262144 <= cfg.capacities.retained
                  && cfg.size(n) <= 4194304
               then Some(n) else None
  {
    KeptIs(h.common, |h.common|);
    assert h.common[..|h.common|] == h.common;
    hide Kept, RetainedTotal, CommonOk, Readable;
  }

  /** Entry `i` alone is the one the ticket is for. */
  ghost predicate TicketFor(common: seq<CommonEntry>, i: nat, ticket: Binding)
  {
    && i < |common| && common[i].binding == ticket && common[i].ticket == ticket
    && forall j :: 0 <= j < |common| && j != i ==> common[j].binding != ticket
  }

  lemma {:induction false} HoldersIncrease(entries: seq<CommonEntry>, n: nat, ticket: Binding)
    requires n <= |entries|
    ensures forall a, b :: 0 <= a < b < |Holders(entries, n, ticket)| ==> Holders(entries, n, ticket)[a] < Holders(entries, n, ticket)[b]
  {
    if n > 0 { HoldersIncrease(entries, n - 1, ticket); }
  }

  lemma TicketHolder(entries: seq<CommonEntry>, i: nat, ticket: Binding)
    requires TicketFor(entries, i, ticket)
    ensures Holders(entries, |entries|, ticket) == [i]
  {
    var found := Holders(entries, |entries|, ticket);
    HoldersIncrease(entries, |entries|, ticket);
    hide Holders;
    assert i in found;
    AloneIn(found, i);
  }

  lemma AloneIn(found: seq<nat>, i: nat)
    requires i in found && (forall k :: 0 <= k < |found| ==> found[k] == i)
    requires forall a, b :: 0 <= a < b < |found| ==> found[a] < found[b]
    ensures found == [i]
  {
    FirstTwoDiffer(found);
  }

  lemma FirstTwoDiffer(found: seq<nat>)
    requires forall a, b :: 0 <= a < b < |found| ==> found[a] < found[b]
    ensures |found| >= 2 ==> found[0] != found[1]
  {
    if |found| >= 2 { assert found[0] < found[1]; }
  }

  lemma NoTicketHolder(entries: seq<CommonEntry>, ticket: Binding)
    requires forall i: nat :: !TicketFor(entries, i, ticket)
    ensures var found := Holders(entries, |entries|, ticket); |found| != 1 || entries[found[0]].ticket != ticket
  {
    var found := Holders(entries, |entries|, ticket);
    if |found| == 1 { OneHolder(entries, ticket); }
    hide Holders;
  }

  lemma OneHolder(entries: seq<CommonEntry>, ticket: Binding)
    requires |Holders(entries, |entries|, ticket)| == 1
    ensures var i := Holders(entries, |entries|, ticket)[0]; TicketFor(entries, i, ticket) <==> entries[i].ticket == ticket
  {
    var found := Holders(entries, |entries|, ticket);
    hide Holders;
    forall j | 0 <= j < |entries| && j != found[0] ensures entries[j].binding != ticket { assert j !in found; }
    assert found[0] in found;
  }

  /** A ticket nobody holds changes nothing. */
  lemma NoTicketRefused(cfg: Config, h: Head, op: CommonOp)
    requires InOrder(cfg, h) && !op.Reserve? && forall i: nat :: !TicketFor(h.common, i, op.ticket)
    ensures CommonStep(cfg, h, op) == None
  {
    NoTicketHolder(h.common, op.ticket);
    hide Holders, CommonOk, Readable, Bound, SettledEntry;
  }

  lemma StepAt(cfg: Config, h: Head, i: nat, op: CommonOp)
    requires InOrder(cfg, h) && !op.Reserve? && TicketFor(h.common, i, op.ticket)
    ensures var e := if op.BindDispatch? then Bound(cfg, h.common[i], op) else SettledEntry(cfg, h.common[i], op);
            CommonStep(cfg, h, op)
            == if e.None? || cfg.size(CommonHead(h.common[i := e.value], h.revision + 1)) > 4194304 then None
               else Some(CommonHead(h.common[i := e.value], h.revision + 1))
  {
    TicketHolder(h.common, i, op.ticket);
    hide Holders, CommonOk, Readable, Bound, SettledEntry;
  }

  /** A dispatch is bound once, to the child reserved for: the same start, child and budget, through a link that names
      that reservation, the request, the ticket and the pool's observer. */
  lemma BindMeans(cfg: Config, h: Head, i: nat, ticket: Binding, r: ChildReservation, link: Link)
    requires InOrder(cfg, h) && TicketFor(h.common, i, ticket)
    ensures var n := CommonHead(h.common[i := h.common[i].(dispatch := Some(Dispatch(r, link)))], h.revision + 1);
            CommonStep(cfg, h, BindDispatch(ticket, r, link))
            == if && h.common[i].dispatch == None && ticket.childTrust == cfg.childTrust
                  && r.startSha256 == ticket.startSha256 && r.childId == ticket.logical.childId
                      && r.budgetSha256 == ticket.budgetSha256
                  && link.reservation == r && link.request == ticket.request && link.common == ticket
                      && link.observer == cfg.observer
                  && cfg.size(n) <= 4194304
               then Some(n) else None
  {
    StepAt(cfg, h, i, BindDispatch(ticket, r, link));
    hide CommonStep, CommonOk, Readable, TicketFor;
  }

  /** A settlement is made once, of the dispatch that was bound, for output that was measured as it was captured and
      is within the hold, and as it was settled when everything is known. Known, the child keeps what was captured
      and gives the rest of its hold back; otherwise it keeps the whole hold. */
  lemma SettleMeans(cfg: Config, h: Head, i: nat, ticket: Binding, o: Observed)
    requires InOrder(cfg, h) && TicketFor(h.common, i, ticket)
    ensures var kept := if o.known then o.captured else 262144;
            var e := h.common[i].(retained := kept, settlement := Some(Settlement(ticket, kept, o.known)));
            var n := CommonHead(h.common[i := e], h.revision + 1);
            CommonStep(cfg, h, SettleChild(ticket, o))
            == if && h.common[i].settlement == None && h.common[i].dispatch == Some(Dispatch(o.reservation, o.link))
                  && ticket.childTrust == cfg.childTrust
                  && o.captured <= 262144 && o.measured == Some(o.captured) && (o.known ==> o.settled == Some(o.captured))
                  && cfg.size(n) <= 4194304
               then Some(n) else None
  {
    StepAt(cfg, h, i, SettleChild(ticket, o));
    hide CommonStep, CommonOk, Readable, TicketFor;
  }

  lemma {:induction false} KeptUpdate(common: seq<CommonEntry>, i: nat, e: CommonEntry)
    requires i < |common|
    ensures Kept(common[i := e]) + common[i].retained == Kept(common) + e.retained
    decreases |common|
  {
    var m := |common| - 1;
    if i == m {
      assert common[i := e][..m] == common[..m];
    } else {
      assert common[i := e][..m] == common[..m][i := e];
      KeptUpdate(common[..m], i, e);
    }
  }

  /** So a settlement gives back exactly what a known child left unused of its hold, and nothing otherwise. */
  lemma SettleGivesBack(cfg: Config, h: Head, i: nat, ticket: Binding, o: Observed)
    requires InOrder(cfg, h) && TicketFor(h.common, i, ticket) && CommonStep(cfg, h, SettleChild(ticket, o)).Some?
    ensures KeptBelow(CommonStep(cfg, h, SettleChild(ticket,
            o)).value) + (if o.known then 262144 - o.captured else 0) == KeptBelow(h)
  {
    SettleMeans(cfg, h, i, ticket, o);
    var kept := if o.known then o.captured else 262144;
    var e := h.common[i].(retained := kept, settlement := Some(Settlement(ticket, kept, o.known)));
    KeptUpdate(h.common, i, e);
    HeldWhole(cfg, h, i);
    hide CommonStep, CommonOk, Readable, Kept;
  }

  lemma HeldWhole(cfg: Config, h: Head, i: nat)
    requires InOrder(cfg, h) && i < |h.common| && h.common[i].settlement == None
    ensures h.common[i].retained == 262144
  {
    assert CommonEntryOk(h.common[i]);
  }

  // --- one hold a child --------------------------------------------------------------------------------

  ghost predicate ChildrenApart(common: seq<CommonEntry>)
  {
    forall i, j :: 0 <= i < j < |common| ==>
      && common[i].binding.logical != common[j].binding.logical
      && !(common[i].binding.startSha256 == common[j].binding.startSha256
           && common[i].binding.logical.childId == common[j].binding.logical.childId)
  }

  lemma CommonStaysApart(cfg: Config, h: Head, op: CommonOp)
    requires CommonStep(cfg, h, op).Some? && ChildrenApart(h.common)
    ensures ChildrenApart(CommonStep(cfg, h, op).value.common)
  {
    if op.Reserve? {
      ReserveMeans(cfg, h, op.binding);
    } else {
      if i: nat :| TicketFor(h.common, i, op.ticket) {
        StepAt(cfg, h, i, op);
      } else {
        NoTicketRefused(cfg, h, op);
      }
    }
    hide CommonStep, CommonOk, Readable, TicketFor, Kept;
  }

  ghost predicate BaseApart(h: Head)
  {
    Base(h).CommonHead? && ChildrenApart(Base(h).common)
  }

  lemma PutApart(cfg: Config, w: World, n: Option<Head>, how: Publication)
    requires BaseApart(w.head) && (n.Some? ==> BaseApart(n.value))
    ensures BaseApart(Put(w, n, how).head)
  {
    hide BaseApart;
  }

  lemma ProgressApart(cfg: Config, w: World, pool: Pool, i: nat, c: Change, how: Publication)
    requires BaseApart(w.head)
    ensures BaseApart(Put(w, Progress(cfg, w.head, pool, i, c), how).head)
  {
    hide Valid, Changed, Readable;
  }

  lemma NextApart(cfg: Config, w: World, ev: Event)
    requires BaseApart(w.head)
    ensures BaseApart(Next(cfg, w, ev).head)
  {
    match ev {
      case CommonEvent(op, how) =>
        if CommonStep(cfg, w.head, op).Some? { CommonStaysApart(cfg, w.head, op); }
        CommonStepIsCommon(cfg, w.head, op);
        hide CommonStep, ChildrenApart;
      case TakeOver(pool, how) => hide Valid, Readable, ChildrenApart;
      case AdmitEntry(pool, e, how) => hide Valid, Readable, Fresh, ChildrenApart;
      case ConsumeEntry(pool, i, what, exact, how, marking) =>
        var v := w.(live := w.live - {i});
        ProgressApart(cfg, v, pool, i, Consume(what), how);
        ProgressApart(cfg, Tried(cfg, w, pool, i, what, exact, how), pool, i, MarkUnknown, marking);
        hide Progress, BaseApart;
      case LaterEntry(pool, i, c, how) =>
        ProgressApart(cfg, w, pool, i, c, how);
        hide Progress, BaseApart;
      case Lose(_) =>
    }
  }

  lemma CommonStepIsCommon(cfg: Config, h: Head, op: CommonOp)
    ensures CommonStep(cfg, h, op).Some? ==> h.CommonHead? && CommonStep(cfg, h, op).value.CommonHead?
  {
  }

  /** Over every run no child is held for twice, however it is asked for: neither one start and child, nor one task,
      operation, attempt and child. */
  lemma {:induction false} HeldOnce(cfg: Config, w: World, events: seq<Event>)
    requires BaseApart(w.head)
    ensures BaseApart(Run(cfg, w, events).head)
    decreases |events|
  {
    hide BaseApart, Next;
    if events != [] {
      NextApart(cfg, w, events[0]);
      HeldOnce(cfg, Next(cfg, w, events[0]), events[1..]);
    }
  }

  // --- which epochs follow which -----------------------------------------------------------------------

  ghost function Kinds(h: Head): seq<Kind>
  {
    if h.CommonHead? then [] else Kinds(h.prior) + [h.kind]
  }

  /** The successions there can be. */
  ghost predicate Succession(kinds: seq<Kind>)
  {
    || kinds == [] || kinds == [Managed] || kinds == [Service] || kinds == [Managed, Service]
    || kinds == [Service, Adoption] || kinds == [Managed, Service, Adoption]
    || kinds == [Kind.Review] || kinds == [Service, Kind.Review] || kinds == [Managed, Service, Kind.Review]
    || kinds == [Service, Adoption, Kind.Review] || kinds == [Managed, Service, Adoption, Kind.Review]
  }

  lemma SuccessionStep(kinds: seq<Kind>, kind: Kind)
    requires Succession(kinds)
    ensures Succession(kinds + [kind])
            <==> match kind
                 case Managed => kinds == []
                 case Service => kinds == [] || kinds[|kinds| - 1] == Managed
                 case Adoption => kinds != [] && kinds[|kinds| - 1] == Service
                 case Review => kinds == [] || kinds[|kinds| - 1] in {Service, Adoption}
  {
    var more := kinds + [kind];
    assert |more| == |kinds| + 1 && more[|kinds|] == kind && more[..|kinds|] == kinds;
  }

  /** A head's epochs are always one of those successions, and an epoch can follow a head exactly when that makes
      another one. */
  lemma {:induction false} SuccessionsAre(cfg: Config, h: Head, kind: Kind)
    requires Valid(cfg, h)
    ensures Succession(Kinds(h)) && (Follows(kind, h) <==> Succession(Kinds(h) + [kind]))
    decreases h
  {
    if h.Epoch? {
      SuccessionsAre(cfg, h.prior, h.kind);
      assert Kinds(h)[|Kinds(h)| - 1] == h.kind;
    }
    SuccessionStep(Kinds(h), kind);
    hide Succession, Valid;
  }

  // --- consumption -------------------------------------------------------------------------------------

  /** What a consumption makes of an entry: it is spent, once, with what it was spent on; a service only from
      admission, and a managed callback only before its settlement. */
  lemma ConsumeMeans(e: Entry, what: string)
    ensures Changed(e, Consume(what))
         == (if e.ManagedEntry? then (if !e.used && e.settlement == None then Some(e.(used := true)) else None)
             else if e.ServiceEntry? then (if e.stage
                 == Admitted then Some(e.(start := Some(what), stage := Consumed)) else None)
             else if e.AdoptionEntry? then (if e.intent == None then Some(e.(intent := Some(what))) else None)
             else if !e.spent then Some(e.(spent := true)) else None)
  {
  }

  /** What an attempt to consume an admitted service comes to: the capability goes, and the entry is consumed when the
      evidence was exact and the file was written. When the caller was not told so it is marked unknown besides,
      unless the file was left half replaced. */
  lemma ConsumptionLeaves(cfg: Config, w: World, pool: Pool, i: nat, what: string, exact: bool, how: Publication)
    requires Valid(cfg, w.head) && Readable(cfg, w.head) && Serves(pool, w.head) && pool.EpochPool? && pool.kind.Service?
    requires i in w.live && i < |w.head.entries| && w.head.entries[i].ServiceEntry?
             && w.head.entries[i].stage == Admitted && !w.blocked
    requires cfg.size(WithEntry(w.head, i, w.head.entries[i].(start := Some(what), stage := Consumed))) <= 4194304
    requires cfg.size(WithEntry(w.head, i, w.head.entries[i].(unknown := true, stage := Unknown))) <= 4194304
    ensures var t := Next(cfg, w, ConsumeEntry(pool, i, what, exact, how, Works));
            && t.live == w.live - {i}
            && (exact && how.Works? ==> t.head == WithEntry(w.head, i, w.head.entries[i].(start := Some(what), stage := Consumed)))
            && (exact && how.LeftPending? ==> t.head == w.head)
            && (exact && how.AfterRename? ==> i < |t.head.entries| && t.head.entries[i].ServiceEntry? && t.head.entries[i].start == Some(what))
            && (!exact || how.NotWritten? ==> t.head == WithEntry(w.head, i, w.head.entries[i].(unknown := true, stage := Unknown)))
  {
    var used := WithEntry(w.head, i, w.head.entries[i].(start := Some(what), stage := Consumed));
    AdmittedMoves(cfg, w.head, pool, i, what);
    MarkKeepsStart(cfg, used, pool, i, what);
    hide Valid, Readable, Progress, Serves, WithEntry;
  }

  lemma MarkKeepsStart(cfg: Config, h: Head, pool: Pool, i: nat, what: string)
    requires h.Epoch? && i < |h.entries| && h.entries[i].ServiceEntry? && h.entries[i].start == Some(what)
    ensures var n := Progress(cfg, h, pool, i, MarkUnknown);
            n.Some? ==> n.value.Epoch? && i < |n.value.entries| && n.value.entries[i].ServiceEntry? && n.value.entries[i].start == Some(what)
  {
    hide Valid, Readable, Serves;
  }

  lemma AdmittedMoves(cfg: Config, h: Head, pool: Pool, i: nat, what: string)
    requires Valid(cfg, h) && Readable(cfg, h) && Serves(pool, h) && pool.EpochPool? && pool.kind.Service?
    requires i < |h.entries| && h.entries[i].ServiceEntry? && h.entries[i].stage == Admitted
    requires cfg.size(WithEntry(h, i, h.entries[i].(start := Some(what), stage := Consumed))) <= 4194304
    requires cfg.size(WithEntry(h, i, h.entries[i].(unknown := true, stage := Unknown))) <= 4194304
    ensures Progress(cfg, h, pool, i, Consume(what))
            == Some(WithEntry(h, i, h.entries[i].(start := Some(what), stage := Consumed)))
    ensures Progress(cfg, h, pool, i, MarkUnknown) == Some(WithEntry(h, i, h.entries[i].(unknown := true, stage := Unknown)))
  {
    EntryIsOk(h, i);
    assert !h.entries[i].unknown && h.entries[i].result.None?;
    ProgressNeedsNoCheck(cfg, h, pool, i, Consume(what));
    ProgressNeedsNoCheck(cfg, h, pool, i, MarkUnknown);
    hide Valid, Readable, Progress, EntriesOk, EntryOk, Caps, Used, Serves;
  }

  ghost function WithEntry(h: Head, i: nat, e: Entry): Head
    requires h.Epoch? && i < |h.entries|
  {
    h.(entries := h.entries[i := e], revision := h.revision + 1)
  }
}
