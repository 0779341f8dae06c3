/** Which heads the pools accept, condition by condition: what a child's entry can have come to, what each epoch's
    entries can, what their sums keep within, and which epochs follow which. */
module PoolOrder {
  import opened Wrappers
  import opened CapacityPools
  import opened PoolRuns
  import opened PoolLaws

  // --- the common pool -----------------------------------------------------------------------------

  /** The dispatch is of the child the entry was reserved for. */
  ghost predicate DispatchFits(b: Binding, d: Dispatch)
  {
    && d.reservation.startSha256 == b.startSha256 && d.reservation.childId == b.logical.childId
    && d.link.request == b.request && d.link.reservation == d.reservation && d.link.common == b
  }

  /** An entry is reserved, dispatched or settled. Until it is settled it keeps the whole hold, and after that what it
      was settled for: at most the hold, and all of it when not everything is known. */
  ghost predicate ChildInOrder(e: CommonEntry)
  {
    && e.ticket == e.binding && (e.dispatch.Some? ==> DispatchFits(e.binding, e.dispatch.value))
    && ((e.settlement == None && e.retained == 262144)
        || (e.dispatch.Some? && e.settlement == Some(Settlement(e.binding, e.retained, true)) && e.retained <= 262144)
        || (e.dispatch.Some? && e.settlement == Some(Settlement(e.binding, 262144, false)) && e.retained == 262144))
  }

  /** How often an entry was written. */
  ghost function ChildWrites(e: CommonEntry): nat
  {
    if e.settlement.Some? && e.dispatch.Some? then 3 else if e.settlement.Some? || e.dispatch.Some? then 2 else 1
  }

  ghost function AllChildWrites(common: seq<CommonEntry>): nat
  {
    if common == [] then 0 else AllChildWrites(common[..|common| - 1]) + ChildWrites(common[|common| - 1])
  }

  ghost predicate CommonInOrder(cfg: Config, common: seq<CommonEntry>, revision: nat)
  {
    && (forall i :: 0 <= i < |common| ==> ChildInOrder(common[i]))
    && (forall i, j :: 0 <= i < j < |common| ==> common[i].binding.logical != common[j].binding.logical)
    && revision == AllChildWrites(common)
    && |common| <= cfg.capacities.slots && Kept(common) <= cfg.capacities.retained
  }

  lemma ChildIs(e: CommonEntry)
    ensures CommonEntryOk(e) <==> ChildInOrder(e)
  {
  }

  lemma {:induction false} ChildWritesAre(common: seq<CommonEntry>, n: nat)
    requires n <= |common|
    ensures CommonEvents(common, n) == AllChildWrites(common[..n])
  {
    if n > 0 {
      ChildWritesAre(common, n - 1);
      assert common[..n][..n - 1] == common[..n - 1];
    }
  }

  lemma CommonIs(cfg: Config, common: seq<CommonEntry>, revision: nat)
    ensures CommonOk(cfg, common, revision) <==> CommonInOrder(cfg, common, revision)
  {
    forall i | 0 <= i < |common| ensures CommonEntryOk(common[i]) <==> ChildInOrder(common[i]) { ChildIs(common[i]); }
    KeptIs(common, |common|);
    ChildWritesAre(common, |common|);
    assert common[..|common|] == common;
    hide CommonEntryOk, ChildInOrder, Kept, AllChildWrites, RetainedTotal, CommonEvents;
  }

  // --- epochs --------------------------------------------------------------------------------------

  /** What an entry of the kind can have come to, its needs positive and within their bounds. */
  ghost predicate EntryInOrder(kind: Kind, e: Entry)
  {
    match kind
    case Managed =>
      && e.ManagedEntry? && 0 < e.receiptBytes <= 4096
      && ((e.settlement == Some(true) && e.used && e.held == e.receiptBytes) || (e.settlement != Some(true)
          && e.held == 4096))
    case Service =>
      && e.ServiceEntry? && e.needs.ServiceNeeds?
      && WallSeconds(e) > 0 && CpuSeconds(e) > 0 && Output(e) > 0 && Files(e) > 0 && Descriptors(e) > 0
      && (e.result.Some? ==> e.start.Some? && e.result.value.bytes <= Output(e))
      && (e.stage == Admitted <==> e.start == None && !e.unknown)
      && (e.stage == Consumed <==> e.start.Some? && !e.unknown && e.result == None)
      && (e.stage == Unknown <==> e.unknown || (e.result.Some? && e.result.value.outcome == NotKnown))
      && (e.stage.Exited? ==> e.result.Some? && e.stage.outcome == e.result.value.outcome)
    case Adoption =>
      && e.AdoptionEntry? && e.needs.AdoptionNeeds?
      && Reads(e) > 0 && Writes(e) > 0 && Mutations(e) > 0 && Journal(e) > 0
      && (e.intent == None ==> e.completion == None)
    case Review =>
      && e.ReviewEntry? && e.needs.ReviewNeeds?
      && Reviewed(e) > 0 && 0 < Calls(e) <= 100000 && 65536 <= Retention(e) <= 4194304
      && (!e.spent ==> e.receipt == None)
  }

  ghost function Mark(happened: bool): nat
  {
    if happened then 1 else 0
  }

  /** How often an entry was written: admitted, spent, marked unknown and settled. */
  ghost function Written(e: Entry): nat
  {
    match e
    case ManagedEntry(_, _, _, _, used, settlement, _) => 1 + Mark(used) + Mark(settlement != None)
    case ServiceEntry(_, _, _, _, start, unknown, result,
        _) => 1 + Mark(start != None) + Mark(unknown) + Mark(result != None)
    case AdoptionEntry(_, _, _, intent, completion) => 1 + Mark(intent != None) + Mark(completion != None)
    case ReviewEntry(_, _, spent, receipt) => 1 + Mark(spent) + Mark(receipt != None)
  }

  /** What the entries need, axis by axis, is what the epoch can give. */
  ghost predicate FitsOnAxes(kind: Kind, caps: Needs, entries: seq<Entry>)
  {
    match kind
    case Managed => caps.NoNeeds?
    case Service =>
      && caps.ServiceNeeds?
      && Sum(entries, WallSeconds) <= caps.wallSeconds && Sum(entries, CpuSeconds) <= caps.cpuSeconds
      && Sum(entries, Output) <= caps.outputBytes && Sum(entries, Files) <= caps.fileBytes
          && Sum(entries, Descriptors) <= caps.descriptors
    case Adoption =>
      && caps.AdoptionNeeds?
      && Sum(entries, Reads) <= caps.readBytes && Sum(entries, Writes) <= caps.writeBytes
      && Sum(entries, Mutations) <= caps.fileMutations && Sum(entries, Journal) <= caps.journalBytes
    case Review =>
      && caps.ReviewNeeds?
      && Sum(entries, Reviewed) <= caps.reviewedBytes && Sum(entries, Calls) <= caps.readCalls
          && Sum(entries, Retention) <= caps.retainedBytes
  }

  ghost function AllWritten(entries: seq<Entry>): nat
  {
    if entries == [] then 0 else AllWritten(entries[..|entries| - 1]) + Written(entries[|entries| - 1])
  }

  /** A head in order: the common pool's, or an epoch's over one that is, after which it may come. */
  ghost predicate HeadInOrder(cfg: Config, h: Head)
    decreases h
  {
    match h
    case CommonHead(common, revision) => CommonInOrder(cfg, common, revision)
    case Epoch(kind, prior, caps, entries, revision) =>
      && HeadInOrder(cfg, prior) && Succession(Kinds(h))
      && (forall i :: 0 <= i < |entries| ==> EntryInOrder(kind, entries[i]))
      && (forall i, j :: 0 <= i < j < |entries| ==> !Clash(entries[i], entries[j]))
      && FitsOnAxes(kind, caps, entries)
      && revision == prior.revision + 1 + AllWritten(entries)
      && SlotsTaken(h) <= cfg.capacities.slots + 3 * Grants(h)
      && OutputTaken(h) <= cfg.capacities.retained && ReceiptsTaken(h) <= 12288 * Grants(h)
      && (kind.Managed? ==> cfg.capacities.slots + 3 <= 9007199254740991)
  }

  // --- they are the heads that are accepted ----------------------------------------------------------

  lemma EntryIs(kind: Kind, e: Entry)
    ensures EntryOk(kind, e) <==> EntryInOrder(kind, e)
  {
    AllPositive(Resources(e));
  }

  lemma {:induction false} WrittenIs(entries: seq<Entry>, n: nat)
    requires n <= |entries|
    ensures Events(entries, n) == AllWritten(entries[..n])
  {
    if n > 0 {
      WrittenIs(entries, n - 1);
      assert entries[..n][..n - 1] == entries[..n - 1];
    }
  }

  ghost predicate Below(entries: seq<Entry>, caps: seq<nat>, k: nat)
  {
    k < |caps| ==> ResourceOf(entries, |entries|, k) <= caps[k]
  }

  lemma FiveBelow(entries: seq<Entry>, caps: seq<nat>)
    requires |caps| <= 5
    ensures (forall k :: 0 <= k < |caps| ==> ResourceOf(entries, |entries|, k) <= caps[k])
            <==> Below(entries, caps, 0) && Below(entries, caps, 1) && Below(entries, caps, 2) && Below(entries, caps, 3) && Below(entries, caps, 4)
  {
    hide ResourceOf;
    forall k | 0 <= k < |caps| && Below(entries, caps, k) ensures ResourceOf(entries, |entries|, k) <= caps[k] {}
    if Below(entries, caps, 0) && Below(entries, caps, 1) && Below(entries, caps, 2) && Below(entries, caps, 3)
        && Below(entries, caps, 4) {
      forall k | 0 <= k < |caps| ensures Below(entries, caps, k) { assert k == 0 || k == 1 || k == 2 || k == 3 || k == 4; }
    }
  }

  lemma FitsService(caps: Needs, entries: seq<Entry>)
    requires caps.ServiceNeeds? && forall i :: 0 <= i < |entries| ==> EntryOk(Service, entries[i])
    ensures FitsOnAxes(Service, caps, entries)
            <==> && Below(entries, Amounts(caps), 0) && Below(entries, Amounts(caps), 1) && Below(entries, Amounts(caps), 2)
                 && Below(entries, Amounts(caps), 3) && Below(entries, Amounts(caps), 4)
  {
    assert entries[..|entries|] == entries;
    AxisIs(entries, |entries|, 0, WallSeconds);
    AxisIs(entries, |entries|, 1, CpuSeconds);
    AxisIs(entries, |entries|, 2, Output);
    AxisIs(entries, |entries|, 3, Files);
    AxisIs(entries, |entries|, 4, Descriptors);
    hide Sum, ResourceOf, EntryOk;
  }

  lemma FitsAdoption(caps: Needs, entries: seq<Entry>)
    requires caps.AdoptionNeeds? && forall i :: 0 <= i < |entries| ==> EntryOk(Adoption, entries[i])
    ensures FitsOnAxes(Adoption, caps, entries)
            <==> && Below(entries, Amounts(caps), 0) && Below(entries, Amounts(caps), 1) && Below(entries, Amounts(caps), 2)
                 && Below(entries, Amounts(caps), 3) && Below(entries, Amounts(caps), 4)
  {
    assert entries[..|entries|] == entries;
    AxisIs(entries, |entries|, 0, Reads);
    AxisIs(entries, |entries|, 1, Writes);
    AxisIs(entries, |entries|, 2, Mutations);
    AxisIs(entries, |entries|, 3, Journal);
    hide Sum, ResourceOf, EntryOk;
  }

  lemma FitsReview(caps: Needs, entries: seq<Entry>)
    requires caps.ReviewNeeds? && forall i :: 0 <= i < |entries| ==> EntryOk(Kind.Review, entries[i])
    ensures FitsOnAxes(Kind.Review, caps, entries)
            <==> && Below(entries, Amounts(caps), 0) && Below(entries, Amounts(caps), 1) && Below(entries, Amounts(caps), 2)
                 && Below(entries, Amounts(caps), 3) && Below(entries, Amounts(caps), 4)
  {
    assert entries[..|entries|] == entries;
    AxisIs(entries, |entries|, 0, Reviewed);
    AxisIs(entries, |entries|, 1, Calls);
    AxisIs(entries, |entries|, 2, Retention);
    hide Sum, ResourceOf, EntryOk;
  }

  lemma FitsIs(kind: Kind, caps: Needs, entries: seq<Entry>)
    requires forall i :: 0 <= i < |entries| ==> EntryOk(kind, entries[i])
    ensures FitsOnAxes(kind, caps, entries)
            <==> OnAxes(kind, caps) && forall k :: 0 <= k < |Amounts(caps)| ==> ResourceOf(entries, |entries|, k) <= Amounts(caps)[k]
  {
    if OnAxes(kind, caps) {
      FiveBelow(entries, Amounts(caps));
      match kind {
        case Managed =>
        case Service => FitsService(caps, entries);
        case Adoption => FitsAdoption(caps, entries);
        case Review => FitsReview(caps, entries);
      }
    }
    hide EntryOk, Below, ResourceOf, Sum;
  }

  lemma EntriesAre(kind: Kind, caps: Needs, entries: seq<Entry>)
    ensures EntriesOk(kind, caps, entries)
            <==> && (forall i :: 0 <= i < |entries| ==> EntryInOrder(kind, entries[i]))
                 && (forall i, j :: 0 <= i < j < |entries| ==> !Clash(entries[i], entries[j]))
                 && FitsOnAxes(kind, caps, entries)
  {
    forall i | 0 <= i < |entries| ensures EntryOk(kind, entries[i]) <==> EntryInOrder(kind, entries[i]) { EntryIs(kind, entries[i]); }
    if forall i :: 0 <= i < |entries| ==> EntryOk(kind, entries[i]) {
      FitsIs(kind, caps, entries);
      ApartIs(kind, entries);
    }
    hide EntryOk, EntryInOrder, Disjoint, Clash, FitsOnAxes, ResourceOf, OnAxes, Amounts;
  }

  lemma ApartIs(kind: Kind, entries: seq<Entry>)
    requires forall i :: 0 <= i < |entries| ==> EntryOk(kind, entries[i])
    ensures AllDisjoint(entries) <==> forall i, j :: 0 <= i < j < |entries| ==> !Clash(entries[i], entries[j])
  {
    forall i, j | 0 <= i < j < |entries| ensures Clash(entries[i], entries[j]) <==> !Disjoint(entries[i], entries[j]) {
      OfKind(kind, entries[i]);
      OfKind(kind, entries[j]);
      ClashIs(kind, entries[i], entries[j]);
    }
    hide EntryOk, Disjoint, Clash;
  }

  lemma OfKind(kind: Kind, e: Entry)
    requires EntryOk(kind, e)
    ensures KindOf(e, kind)
  {
  }

  lemma CapsOver(cfg: Config, h: Head)
    requires h.Epoch? && Valid(cfg, h.prior)
    ensures Caps(cfg, h) == Usage(cfg.capacities.slots + 3 * Grants(h), cfg.capacities.retained, 12288 * Grants(h))
    ensures h.kind.Managed? && Follows(h.kind, h.prior) ==> Grants(h) == 1
  {
    CapsAreConfigured(cfg, h.prior);
    hide Valid;
  }

  lemma EpochIs(cfg: Config, h: Head)
    requires h.Epoch? && (Valid(cfg, h.prior) <==> HeadInOrder(cfg, h.prior))
    ensures Valid(cfg, h) <==> HeadInOrder(cfg, h)
  {
    if Valid(cfg, h.prior) {
      SuccessionsAre(cfg, h.prior, h.kind);
      CapsOver(cfg, h);
      EntriesAre(h.kind, h.caps, h.entries);
      UsedIsTaken(h);
      WrittenIs(h.entries, |h.entries|);
      assert h.entries[..|h.entries|] == h.entries;
    }
    hide EntriesOk, EntryInOrder, Clash, FitsOnAxes, AllWritten, Events, Used, Caps, Succession, SlotsTaken,
         OutputTaken, ReceiptsTaken, Grants, Follows,
         CommonOk, CommonInOrder;
  }

  /** The heads the pools' validators accept are exactly those in order. */
  lemma {:induction false} HeadsAre(cfg: Config, h: Head)
    ensures Valid(cfg, h) <==> HeadInOrder(cfg, h)
    decreases h
  {
    if h.CommonHead? {
      CommonIs(cfg, h.common, h.revision);
      hide CommonOk, CommonInOrder;
    } else {
      HeadsAre(cfg, h.prior);
      EpochIs(cfg, h);
      hide Valid, HeadInOrder;
    }
  }
}
