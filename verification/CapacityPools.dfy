/** The shared capacity pool and its successor epochs: vfy/common_capacity.py, and the managed, service,
    adoption and review pools that take over its state file one after another. */
module CapacityPools {
  import opened Wrappers
  import opened Text
  import opened Values
  import Reading = DepthScan
  import Records = LedgerRecords

  const MAX_SAFE_INTEGER: nat := 9007199254740991
  const OUTPUT_HOLD: nat := 262144
  const MANAGED_HOLD: nat := 4096
  const GRANT_SLOTS: nat := 3
  const GRANT_BYTES: nat := 12288
  const REVIEW_LEAST: nat := 65536
  const REVIEW_MOST: nat := 4 * 1024 * 1024
  const REVIEW_CALLS: nat := 100000

  // --- the common pool ---------------------------------------------------------------------------------

  /** The child a reservation is for, however it is asked for. */
  datatype Logical = Logical(taskKey: string, operationId: string, attemptId: string, childId: string)

  /** What a common reservation is bound to; its digest is its key, and a digest determines it. The identity,
      the request's input, the trust and the observer are whatever values the callers gave: nothing asks how
      deep they nest. */
  datatype Binding = Binding(logical: Logical, identity: Value, input: Value, startSha256: string, request: string,
                             budgetSha256: string, childTrust: Value, observer: Value)

  /** The child ledger's signed reservation event: who produced it, and every other member of its body. */
  datatype ChildReservation = ChildReservation(startSha256: string, childId: string, budgetSha256: string,
                                               producer: Value, more: map<Text, Value>)

  /** The observer's signed link between a child reservation and a common one, likewise. */
  datatype Link = Link(reservation: ChildReservation, request: string, common: Binding, observer: Value,
                       producer: Value, more: map<Text, Value>)

  datatype Dispatch = Dispatch(reservation: ChildReservation, link: Link)

  datatype Settlement = Settlement(common: Binding, retained: nat, known: bool)

  /** `ticket` is the binding the signed ticket was issued for. */
  datatype CommonEntry = CommonEntry(binding: Binding, ticket: Binding, dispatch: Option<Dispatch>,
                                     settlement: Option<Settlement>, retained: nat)

  /** What a child's result shows: the records it names, the bytes captured, measured and settled, and
      whether everything about it is known. */
  datatype Observed = Observed(reservation: ChildReservation, link: Link, captured: nat, measured: Option<nat>,
                               settled: Option<nat>, known: bool)

  datatype Usage = Usage(slots: nat, retained: nat, managed: nat)

  /** `size` is how many bytes a head's canonical text takes; nothing is assumed of it unless stated. */
  datatype Config = Config(capacities: Usage, observer: Value, childTrust: Value, size: Head -> nat)

  // --- successor epochs --------------------------------------------------------------------------------

  datatype Kind = Managed | Service | Adoption | Review

  datatype Outcome = Zero | Nonzero | Signal | NotKnown

  datatype Stage = Admitted | Consumed | Unknown | Exited(outcome: Outcome)

  /** Amounts on the axes of an epoch: what an entry reserves, or what the epoch can give. */
  datatype Needs =
    | NoNeeds
    | ServiceNeeds(wallSeconds: nat, cpuSeconds: nat, outputBytes: nat, fileBytes: nat, descriptors: nat)
    | AdoptionNeeds(readBytes: nat, writeBytes: nat, fileMutations: nat, journalBytes: nat)
    | ReviewNeeds(reviewedBytes: nat, readCalls: nat, retainedBytes: nat)

  /** How a service ended and how much output it left. */
  datatype Finish = Finish(outcome: Outcome, bytes: nat)

  /** A receipt's digest, and the bytes it accounts for. */
  datatype Receipt = Receipt(digest: string, bytes: nat)

  /** An entry of an epoch, with what it reserves on the epoch's own axes. */
  datatype Entry =
    | ManagedEntry(capture: string, attempt: string, destination: string, receiptBytes: nat,
                   used: bool, settlement: Option<bool>, held: nat)
    | ServiceEntry(attemptId: string, root: string, preview: string, needs: Needs,
                   start: Option<string>, unknown: bool, result: Option<Finish>, stage: Stage)
    | AdoptionEntry(plan: string, copy: string, needs: Needs, intent: Option<string>, completion: Option<Receipt>)
    | ReviewEntry(reviewId: string, needs: Needs, spent: bool, receipt: Option<Receipt>)

  /** What the state file holds: the common pool's entries, or an epoch over the exact head it took over,
      which it keeps. `caps` are the epoch's own resource capacities. */
  datatype Head =
    | CommonHead(common: seq<CommonEntry>, revision: nat)
    | Epoch(kind: Kind, prior: Head, caps: Needs, entries: seq<Entry>, revision: nat)

  // --- reading the state file --------------------------------------------------------------------------

  /** A signed record around a body. */
  function Signed(producer: Value, body: Value): Value
  {
    Records.Record([(Records.T("producer_identity"), producer), (Records.T("body"), body)])
  }

  /** The pool's own producer, an object of texts. */
  const OWN: Value := Obj(map[])

  function BindingContainers(b: Binding): Value
  {
    Records.Record([(Records.T("task_identity"), b.identity), (Records.T("input_sha256"), b.input),
                    (Records.T("child_trust"), b.childTrust), (Records.T("observer"), b.observer)])
  }

  function DispatchContainers(d: Option<Dispatch>): Value
  {
    if d.None? then Null
    else
      Records.Record([(Records.T("reservation"), Signed(d.value.reservation.producer, Obj(d.value.reservation.more))),
                      (Records.T("binding"), Signed(d.value.link.producer, Obj(d.value.link.more[Records.T("observer") := d.value.link.observer])))])
  }

  /** An entry's objects and arrays as they stand in the file. What is left out, keys, digests, counts and the
      settlement's fields, are texts and numbers that nest nothing. */
  function EntryContainers(e: CommonEntry): Value
  {
    Records.Record([(Records.T("settlement"), if e.settlement.Some? then Signed(OWN, Obj(map[])) else Null),
                    (Records.T("binding"), BindingContainers(e.binding)),
                    (Records.T("ticket"), Signed(OWN, BindingContainers(e.ticket))),
                    (Records.T("dispatch"), DispatchContainers(e.dispatch))])
  }

  function CommonContainers(cfg: Config, entries: seq<CommonEntry>): Value
  {
    Signed(OWN, Records.Record([(Records.T("owner_profile"), Obj(map[])), (Records.T("observer"), cfg.observer),
                                (Records.T("entries"), Arr(seq(|entries|, i requires 0 <= i < |entries| => EntryContainers(entries[i]))))]))
  }

  /** What every reader of the state file asks first: few enough bytes, and a text the loader takes. The
      records of the epochs nest nothing of a caller's: they hold the head before them, and requests, as plain
      text, and of a managed entry only texts and references of fixed shape. */
  predicate Readable(cfg: Config, h: Head)
  {
    cfg.size(h) <= Records.MAX_BYTES && (h.CommonHead? ==> Reading.DepthAtMost(CommonContainers(cfg, h.common), 64))
  }

  // --- what entries charge -----------------------------------------------------------------------------

  function RetainedTotal(entries: seq<CommonEntry>, n: nat): nat
    requires n <= |entries|
  {
    if n == 0 then 0 else RetainedTotal(entries, n - 1) + entries[n - 1].retained
  }

  function At(resources: seq<nat>, k: nat): nat
  {
    if k < |resources| then resources[k] else 0
  }

  function OutputBytes(n: Needs): nat
  {
    if n.ServiceNeeds? then n.outputBytes else 0
  }

  function JournalBytes(n: Needs): nat
  {
    if n.AdoptionNeeds? then n.journalBytes else 0
  }

  function RetainedBytes(n: Needs): nat
  {
    if n.ReviewNeeds? then n.retainedBytes else 0
  }

  /** Retained output an entry charges to the shared pool: a service's output bytes, an adoption's
      journal bytes, a review's retained bytes. */
  function Retained(e: Entry): nat
  {
    match e
    case ManagedEntry(_, _, _, _, _, _, _) => 0
    case ServiceEntry(_, _, _, needs, _, _, _, _) => OutputBytes(needs)
    case AdoptionEntry(_, _, needs, _, _) => JournalBytes(needs)
    case ReviewEntry(_, needs, _, _) => RetainedBytes(needs)
  }

  function ManagedBytes(e: Entry): nat
  {
    if e.ManagedEntry? then e.held else 0
  }

  /** The amounts axis by axis. */
  function Amounts(n: Needs): seq<nat>
  {
    match n
    case NoNeeds => []
    case ServiceNeeds(wall, cpu, output, files, descriptors) => [wall, cpu, output, files, descriptors]
    case AdoptionNeeds(read, write, mutations, journal) => [read, write, mutations, journal]
    case ReviewNeeds(read, calls, retained) => [read, calls, retained]
  }

  function Resources(e: Entry): seq<nat>
  {
    if e.ManagedEntry? then [] else Amounts(e.needs)
  }

  function RetainedOf(entries: seq<Entry>, n: nat): nat
    requires n <= |entries|
  {
    if n == 0 then 0 else RetainedOf(entries, n - 1) + Retained(entries[n - 1])
  }

  function ManagedOf(entries: seq<Entry>, n: nat): nat
    requires n <= |entries|
  {
    if n == 0 then 0 else ManagedOf(entries, n - 1) + ManagedBytes(entries[n - 1])
  }

  function ResourceOf(entries: seq<Entry>, n: nat, k: nat): nat
    requires n <= |entries|
  {
    if n == 0 then 0 else ResourceOf(entries, n - 1, k) + At(Resources(entries[n - 1]), k)
  }

  /** What a head and everything before it has charged. */
  function Used(h: Head): Usage
  {
    match h
    case CommonHead(common, _) => Usage(|common|, RetainedTotal(common, |common|), 0)
    case Epoch(_, prior, _, entries, _) =>
      var u := Used(prior);
      Usage(u.slots + |entries|, u.retained + RetainedOf(entries, |entries|), u.managed + ManagedOf(entries, |entries|))
  }

  /** The configured capacities, and the one additive grant of the managed epoch. */
  function Caps(cfg: Config, h: Head): Usage
  {
    match h
    case CommonHead(_, _) => Usage(cfg.capacities.slots, cfg.capacities.retained, 0)
    case Epoch(kind, prior, _, _, _) =>
      var c := Caps(cfg, prior);
      if kind.Managed? then Usage(c.slots + GRANT_SLOTS, c.retained, c.managed + GRANT_BYTES) else c
  }

  predicate Within(u: Usage, c: Usage)
  {
    u.slots <= c.slots && u.retained <= c.retained && u.managed <= c.managed
  }

  // --- what a validator demands of a head --------------------------------------------------------------

  predicate CommonEntryOk(e: CommonEntry)
  {
    && e.ticket == e.binding
    && (e.dispatch.Some? ==>
          && e.dispatch.value.reservation.startSha256 == e.binding.startSha256
          && e.dispatch.value.reservation.childId == e.binding.logical.childId
          && e.dispatch.value.link.request == e.binding.request
          && e.dispatch.value.link.reservation == e.dispatch.value.reservation
          && e.dispatch.value.link.common == e.ticket)
    && e.retained <= OUTPUT_HOLD
    && (if e.settlement.None? then e.retained == OUTPUT_HOLD
        else
          && e.settlement.value.common == e.ticket && e.settlement.value.retained == e.retained
          && e.dispatch.Some? && (!e.settlement.value.known ==> e.retained == OUTPUT_HOLD))
  }

  function CommonEventsOf(e: CommonEntry): nat
  {
    1 + (if e.dispatch.Some? then 1 else 0) + (if e.settlement.Some? then 1 else 0)
  }

  function CommonEvents(entries: seq<CommonEntry>, n: nat): nat
    requires n <= |entries|
  {
    if n == 0 then 0 else CommonEvents(entries, n - 1) + CommonEventsOf(entries[n - 1])
  }

  predicate LogicalDistinct(entries: seq<CommonEntry>, n: nat)
    requires n <= |entries|
  {
    forall i, j :: 0 <= i < j < n ==> entries[i].binding.logical != entries[j].binding.logical
  }

  predicate CommonOk(cfg: Config, entries: seq<CommonEntry>, revision: nat)
  {
    && (forall i :: 0 <= i < |entries| ==> CommonEntryOk(entries[i]))
    && LogicalDistinct(entries, |entries|)
    && revision == CommonEvents(entries, |entries|)
    && |entries| <= cfg.capacities.slots && RetainedTotal(entries, |entries|) <= cfg.capacities.retained
  }

  /** The axes of an epoch. */
  predicate OnAxes(kind: Kind, n: Needs)
  {
    match kind
    case Managed => n.NoNeeds?
    case Service => n.ServiceNeeds?
    case Adoption => n.AdoptionNeeds?
    case Review => n.ReviewNeeds?
  }

  predicate KindOf(e: Entry, kind: Kind)
  {
    match kind
    case Managed => e.ManagedEntry?
    case Service => e.ServiceEntry?
    case Adoption => e.AdoptionEntry?
    case Review => e.ReviewEntry?
  }

  /** The stage an entry's own fields say it is at. */
  function Derived(e: Entry): Stage
    requires e.ServiceEntry?
  {
    if e.unknown then Unknown
    else if e.result.Some? then (if e.result.value.outcome.NotKnown? then Unknown else Exited(e.result.value.outcome))
    else if e.start.Some? then Consumed
    else Admitted
  }

  predicate EntryOk(kind: Kind, e: Entry)
  {
    && KindOf(e, kind)
    && (!e.ManagedEntry? ==> OnAxes(kind, e.needs)) && (forall k :: 0 <= k < |Resources(e)| ==> Resources(e)[k] > 0)
    && (match e
        case ManagedEntry(_, _, _, receiptBytes, used, settlement, held) =>
          && 0 < receiptBytes <= MANAGED_HOLD
          && (if settlement == Some(true) then used && held == receiptBytes else held == MANAGED_HOLD)
        case ServiceEntry(_, _, _, needs, start, _, result, stage) =>
          (result.Some? ==> start.Some? && result.value.bytes <= OutputBytes(needs)) && stage == Derived(e)
        case AdoptionEntry(_, _, _, intent, completion) => completion.Some? ==> intent.Some?
        case ReviewEntry(_, needs, spent, receipt) =>
          && REVIEW_LEAST <= needs.retainedBytes <= REVIEW_MOST && needs.readCalls <= REVIEW_CALLS
          && (receipt.Some? ==> spent))
  }

  function EventsOf(e: Entry): nat
  {
    match e
    case ManagedEntry(_, _, _, _, used, settlement, _) => 1 + (if used then 1 else 0) + (if settlement.Some? then 1 else 0)
    case ServiceEntry(_, _, _, _, start, unknown, result, _) =>
      1 + (if start.Some? then 1 else 0) + (if unknown then 1 else 0) + (if result.Some? then 1 else 0)
    case AdoptionEntry(_, _, _, intent, completion) => 1 + (if intent.Some? then 1 else 0) + (if completion.Some? then 1 else 0)
    case ReviewEntry(_, _, spent, receipt) => 1 + (if spent then 1 else 0) + (if receipt.Some? then 1 else 0)
  }

  function Events(entries: seq<Entry>, n: nat): nat
    requires n <= |entries|
  {
    if n == 0 then 0 else Events(entries, n - 1) + EventsOf(entries[n - 1])
  }

  /** Two entries claim none of the same things: no capture, attempt or destination, no attempt, root or
      preview, no plan or managed copy, no review is ever charged twice. */
  predicate Disjoint(a: Entry, b: Entry)
  {
    match a
    case ManagedEntry(capture, attempt, destination, _, _, _, _) =>
      b.ManagedEntry? ==> capture != b.capture && attempt != b.attempt && destination != b.destination
    case ServiceEntry(attemptId, root, preview, _, _, _, _, _) =>
      b.ServiceEntry? ==> attemptId != b.attemptId && root != b.root && preview != b.preview
    case AdoptionEntry(plan, copy, _, _, _) => b.AdoptionEntry? ==> plan != b.plan && copy != b.copy
    case ReviewEntry(reviewId, _, _, _) => b.ReviewEntry? ==> reviewId != b.reviewId
  }

  predicate AllDisjoint(entries: seq<Entry>)
  {
    forall i, j :: 0 <= i < j < |entries| ==> Disjoint(entries[i], entries[j])
  }

  /** Which heads an epoch can take over. */
  predicate Follows(kind: Kind, prior: Head)
  {
    match kind
    case Managed => prior.CommonHead?
    case Service => prior.CommonHead? || prior.kind.Managed?
    case Adoption => prior.Epoch? && prior.kind.Service?
    case Review => prior.CommonHead? || prior.kind.Service? || prior.kind.Adoption?
  }

  predicate EntriesOk(kind: Kind, caps: Needs, entries: seq<Entry>)
  {
    && OnAxes(kind, caps)
    && (forall i :: 0 <= i < |entries| ==> EntryOk(kind, entries[i]))
    && AllDisjoint(entries)
    && (forall k :: 0 <= k < |Amounts(caps)| ==> ResourceOf(entries, |entries|, k) <= Amounts(caps)[k])
  }

  /** A head its own pool accepts, over heads theirs accepted. */
  predicate Valid(cfg: Config, h: Head)
  {
    match h
    case CommonHead(common, revision) => CommonOk(cfg, common, revision)
    case Epoch(kind, prior, caps, entries, revision) =>
      && Follows(kind, prior) && Valid(cfg, prior)
      && EntriesOk(kind, caps, entries)
      && revision == prior.revision + 1 + Events(entries, |entries|)
      && Within(Used(h), Caps(cfg, h))
      && (kind.Managed? ==> Caps(cfg, h).slots <= MAX_SAFE_INTEGER)
  }

  // --- operations of the common pool -------------------------------------------------------------------

  /** The entry whose ticket is presented, if exactly one has it. */
  function Holders(entries: seq<CommonEntry>, n: nat, ticket: Binding): (r: seq<nat>)
    requires n <= |entries|
    ensures forall k :: 0 <= k < |r| ==> r[k] < n && entries[r[k]].binding == ticket
    ensures forall i :: 0 <= i < n && entries[i].binding == ticket ==> i in r
  {
    if n == 0 then []
    else Holders(entries, n - 1, ticket) + if entries[n - 1].binding == ticket then [n - 1] else []
  }

  predicate AlreadyHeld(entries: seq<CommonEntry>, b: Binding)
  {
    exists i :: 0 <= i < |entries| &&
      ((entries[i].binding.startSha256 == b.startSha256 && entries[i].binding.logical.childId == b.logical.childId)
       || entries[i].binding.logical == b.logical)
  }

  datatype CommonOp =
    | Reserve(binding: Binding)
    | BindDispatch(ticket: Binding, reservation: ChildReservation, link: Link)
    | SettleChild(ticket: Binding, result: Observed)

  /** A reservation takes one slot and the whole output hold. It writes the pool's observer into the binding
      itself, and its trust after comparing it with the ledger's. */
  function Reserved(cfg: Config, entries: seq<CommonEntry>, b: Binding): Option<seq<CommonEntry>>
  {
    if b.childTrust != cfg.childTrust || b.observer != cfg.observer || AlreadyHeld(entries, b) then None
    else if |entries| + 1 > cfg.capacities.slots || RetainedTotal(entries, |entries|) + OUTPUT_HOLD > cfg.capacities.retained then None
    else Some(entries + [CommonEntry(b, b, None, None, OUTPUT_HOLD)])
  }

  function Bound(cfg: Config, e: CommonEntry, op: CommonOp): Option<CommonEntry>
    requires op.BindDispatch?
  {
    var p, r, d := e.binding, op.reservation, op.link;
    if e.dispatch.Some? || cfg.childTrust != p.childTrust then None
    else if r.startSha256 != p.startSha256 || r.childId != p.logical.childId || r.budgetSha256 != p.budgetSha256 then None
    else if d.reservation != r || d.request != p.request || d.observer != cfg.observer || d.common != op.ticket then None
    else Some(e.(dispatch := Some(Dispatch(r, d))))
  }

  /** A settlement keeps the bytes captured when everything is known, and the whole hold otherwise. */
  function SettledEntry(cfg: Config, e: CommonEntry, op: CommonOp): Option<CommonEntry>
    requires op.SettleChild?
  {
    var r := op.result;
    if e.settlement.Some? || e.dispatch.None? || cfg.childTrust != e.binding.childTrust then None
    else if r.reservation != e.dispatch.value.reservation || r.link != e.dispatch.value.link then None
    else if r.captured > OUTPUT_HOLD || r.measured != Some(r.captured) then None
    else if r.known && r.settled != Some(r.captured) then None
    else
      var kept := if r.known then r.captured else OUTPUT_HOLD;
      Some(e.(retained := kept, settlement := Some(Settlement(e.ticket, kept, r.known))))
  }

  function CommonEntries(cfg: Config, entries: seq<CommonEntry>, op: CommonOp): Option<seq<CommonEntry>>
  {
    if op.Reserve? then Reserved(cfg, entries, op.binding)
    else
      var found := Holders(entries, |entries|, op.ticket);
      if |found| != 1 || entries[found[0]].ticket != op.ticket then None
      else
        var e := if op.BindDispatch? then Bound(cfg, entries[found[0]], op) else SettledEntry(cfg, entries[found[0]], op);
        if e.None? then None else Some(entries[found[0] := e.value])
  }

  /** Load and validate, change, publish: what is published is checked for its length alone. */
  function CommonStep(cfg: Config, h: Head, op: CommonOp): Option<Head>
  {
    if !h.CommonHead? || !Readable(cfg, h) || !CommonOk(cfg, h.common, h.revision) then None
    else
      var n := CommonEntries(cfg, h.common, op);
      if n.None? || cfg.size(CommonHead(n.value, h.revision + 1)) > Records.MAX_BYTES then None
      else Some(CommonHead(n.value, h.revision + 1))
  }

  // --- operations of the epochs ------------------------------------------------------------------------

  /** A pool object: which epoch it serves. */
  datatype Pool = CommonPool | EpochPool(kind: Kind, prior: Head, caps: Needs)

  predicate Serves(pool: Pool, h: Head)
  {
    match pool
    case CommonPool => h.CommonHead?
    case EpochPool(kind, prior, caps) => h.Epoch? && h.kind == kind && h.prior == prior && h.caps == caps
  }

  /** Publishing an epoch's head validates it first, and checks its length. */
  function Publish(cfg: Config, h: Head): Option<Head>
  {
    if Valid(cfg, h) && cfg.size(h) <= Records.MAX_BYTES then Some(h) else None
  }

  /** Taking over: the head selected must be the one in the state file. */
  function Attach(cfg: Config, h: Head, pool: Pool): Option<Head>
  {
    if pool.CommonPool? || h != pool.prior || !Follows(pool.kind, h) || !Readable(cfg, h) || !Valid(cfg, h) then None
    else Publish(cfg, Epoch(pool.kind, h, pool.caps, [], h.revision + 1))
  }

  /** A new entry, before anything has happened to it. */
  predicate Fresh(e: Entry)
  {
    match e
    case ManagedEntry(_, _, _, _, used, settlement, held) => !used && settlement.None? && held == MANAGED_HOLD
    case ServiceEntry(_, _, _, _, start, unknown, result, stage) => start.None? && !unknown && result.None? && stage == Admitted
    case AdoptionEntry(_, _, _, intent, completion) => intent.None? && completion.None?
    case ReviewEntry(_, _, spent, receipt) => !spent && receipt.None?
  }

  function Admit(cfg: Config, h: Head, pool: Pool, e: Entry): Option<Head>
  {
    if pool.CommonPool? || !Serves(pool, h) || !Readable(cfg, h) || !Valid(cfg, h) || !Fresh(e) then None
    else Publish(cfg, h.(entries := h.entries + [e], revision := h.revision + 1))
  }

  /** What can happen to an entry after admission. */
  datatype Change =
    | Consume(what: string)
    | MarkUnknown
    | Settle(outcome: Outcome, bytes: nat, what: string)

  /** The entry after a change, or None where the pool refuses it. A consumption needs the exact
      evidence, which `Consume` stands for; settling a managed receipt needs its exact bytes. A service's output,
      the journal an adoption filled and what a review retained fit what was reserved for them: the service pool
      checks it, and an adoption's meter and the review itself before they come to settle. */
  function Changed(e: Entry, c: Change): Option<Entry>
  {
    match e
    case ManagedEntry(_, _, _, receiptBytes, used, settlement, _) =>
      (match c
       case Consume(_) => if used || settlement.Some? then None else Some(e.(used := true))
       case MarkUnknown => if settlement.Some? then None else Some(e.(settlement := Some(false)))
       case Settle(_, bytes, _) =>
         if !used || settlement.Some? || bytes != receiptBytes then None else Some(e.(held := bytes, settlement := Some(true))))
    case ServiceEntry(_, _, _, needs, start, unknown, result, stage) =>
      (match c
       case Consume(what) => if stage != Admitted then None else Some(e.(start := Some(what), stage := Consumed))
       case MarkUnknown => if result.Some? || unknown then None else Some(e.(unknown := true, stage := Unknown))
       case Settle(outcome, bytes, _) =>
         if start.None? || result.Some? || bytes > OutputBytes(needs) then None
         else Some(e.(result := Some(Finish(outcome, bytes)),
                      stage := if unknown || outcome.NotKnown? then Unknown else Exited(outcome))))
    case AdoptionEntry(_, _, needs, intent, completion) =>
      (match c
       case Consume(what) => if intent.Some? then None else Some(e.(intent := Some(what)))
       case MarkUnknown => None
       case Settle(_, bytes, what) =>
         if intent.None? || completion.Some? || bytes > JournalBytes(needs) then None
         else Some(e.(completion := Some(Receipt(what, bytes)))))
    case ReviewEntry(_, needs, spent, receipt) =>
      (match c
       case Consume(_) => if spent then None else Some(e.(spent := true))
       case MarkUnknown => None
       case Settle(_, bytes, what) =>
         if !spent || receipt.Some? || bytes > RetainedBytes(needs) then None
         else Some(e.(receipt := Some(Receipt(what, bytes)))))
  }

  function Progress(cfg: Config, h: Head, pool: Pool, i: nat, c: Change): Option<Head>
  {
    if pool.CommonPool? || !Serves(pool, h) || !Readable(cfg, h) || !Valid(cfg, h) || i >= |h.entries| then None
    else
      var e := Changed(h.entries[i], c);
      if e.None? then None else Publish(cfg, h.(entries := h.entries[i := e.value], revision := h.revision + 1))
  }
}
