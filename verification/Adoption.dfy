/** Adopting a candidate into a managed copy: the journal, the replace loop and the reconciliation of
    vfy/service_adoption.py, with a crash or a failure possible at every step. */
module Adoption {
  import opened Wrappers
  import opened Text
  import opened Values
  import Layout = LedgerLayout
  import Limits = LedgerLimits
  import Reading = DepthScan
  import Records = LedgerRecords

  const INTENT_LIMIT: nat := 32768
  const FINAL_RECORDS: nat := 32768
  const RETAINED: nat := 65536

  datatype File = File(sha256: int, bytes: nat, executable: nat)

  datatype Resources = Resources(read: nat, write: nat, mutations: nat, journal: nat)

  /** How long the frozen files are: the plan, the two manifests as their callers wrote them, the fixture, and
      each piece of evidence. */
  datatype Texts = Texts(plan: nat, base: nat, candidate: nat, fixture: nat, evidence: seq<nat>)

  /** What prepare_adoption froze. */
  datatype Plan = Plan(base: map<Text, File>, candidate: map<Text, File>, limits: Resources, texts: Texts)

  function Total(lengths: seq<nat>): nat
  {
    if lengths == [] then 0 else Total(lengths[..|lengths| - 1]) + lengths[|lengths| - 1]
  }

  /** What an attempt reads to check the plan again: the base manifest twice. */
  function PlanBytes(plan: Plan): nat
  {
    plan.texts.plan + 2 * plan.texts.base + plan.texts.candidate + Total(plan.texts.evidence)
  }

  /** The frozen records counted into the journal. */
  function JournalBytes(plan: Plan): nat
  {
    Total(plan.texts.evidence) + plan.texts.plan + plan.texts.base + plan.texts.candidate + plan.texts.fixture
  }

  /** The paths to replace, in the order they are replaced. */
  function Changed(plan: Plan): seq<Text>
  {
    Sorted(set p | p in plan.base && p in plan.candidate && plan.base[p] != plan.candidate[p])
  }

  function BytesOf(files: map<Text, File>, paths: seq<Text>, n: nat): nat
    requires n <= |paths|
  {
    if n == 0 then 0
    else BytesOf(files, paths, n - 1) + if paths[n - 1] in files then files[paths[n - 1]].bytes else 0
  }

  function AllBytes(files: map<Text, File>): nat
  {
    BytesOf(files, Sorted(files.Keys), |files|)
  }

  function PayloadBytes(plan: Plan): nat
  {
    BytesOf(plan.candidate, Changed(plan), |Changed(plan)|)
  }

  /** What prepare_adoption checked before freezing the plan. Of the two manifests it has read only the base
      one from a file, and so bounded it; the plan is not there to be read yet. */
  predicate Prepared(plan: Plan)
  {
    && plan.base.Keys == plan.candidate.Keys
    && Changed(plan) != []
    && |Changed(plan)| <= plan.limits.mutations
    && PayloadBytes(plan) <= plan.limits.write
    && (forall p :: p in plan.base ==> plan.base[p].bytes <= Records.MAX_BYTES)
    && (forall p :: p in plan.candidate ==> plan.candidate[p].bytes <= Records.MAX_BYTES)
    && plan.texts.base <= Records.MAX_BYTES && plan.texts.fixture <= Records.MAX_BYTES
    && (forall i :: 0 <= i < |plan.texts.evidence| ==> plan.texts.evidence[i] <= Records.MAX_BYTES)
    && JournalBytes(plan) + RETAINED <= plan.limits.journal
  }

  /** The file reader takes back everything that was frozen. */
  predicate PlanReads(plan: Plan)
  {
    plan.texts.plan <= Records.MAX_BYTES && plan.texts.candidate <= Records.MAX_BYTES
  }

  // --- what is on disk and in the pool -----------------------------------------------------------------

  /** A file created exclusively and then filled. */
  datatype Written<T> = Absent | Partial | Whole(value: T)

  /** The four documents an intent carries whole. */
  datatype Documents = Documents(authorization: Value, rulebook: Value, snapshot: Value, result: Value)

  /** One call of adopt: the nonce it spends, its intent and how long that is, and how long its receipt is,
      which names the destination and the pool's owner. */
  datatype Attempt = Attempt(nonce: int, intentBytes: nat, documents: Documents, receiptBytes: nat)

  datatype Intent = Intent(plan: Plan, attempt: Attempt)

  datatype Receipt = Receipt(intent: Intent, measured: Resources)

  /** The plan's entry in the shared pool; a digest stands for what it is the digest of. */
  datatype Entry = Entry(intent: Option<Intent>, completion: Option<Receipt>)

  /** The shared pool's state file: its length and its revision. */
  datatype Pool = Pool(bytes: nat, revision: nat)

  /** The file after a digest has taken the place of a null in it: 66 characters for four, and a revision one
      higher. */
  function Published(pool: Pool): Pool
  {
    Pool(pool.bytes + 62 + (if Width(pool.revision + 1) > Width(pool.revision) then 1 else 0), pool.revision + 1)
  }

  /** The next publication is one the pool's readers take back. */
  predicate HasRoom(pool: Pool)
  {
    Published(pool).bytes <= Records.MAX_BYTES
  }

  datatype Pc =
    | CheckJournal
    | Consume
    | ReadPlan
    | ScanBase
    | ReadPayloads
    | ChargeJournal
    | SpendNonce
    | OpenIntent
    | WriteIntent
    | StageFile(i: nat)
    | FillStage(i: nat)
    | Replace(i: nat)
    | ScanCandidate
    | SettlePool
    | OpenComplete
    | WriteComplete

  datatype Running = Running(attempt: Attempt, pc: Pc, used: Resources)

  /** `live` is the in-memory capability of the process that reserved; `replaced` and `loops` are
      history: how many files were replaced, and how often the replace loop was entered. */
  datatype State = State(
    copy: map<Text, File>, intent: Written<Intent>, complete: Written<Receipt>, stage: map<nat, Written<File>>,
    entry: Option<Entry>, pool: Pool, live: bool, spent: set<int>, running: Option<Running>,
    replaced: nat, loops: nat)

  datatype Choice = Proceed | Fails | Crashes

  /** `Reserve` and `Others` say what the pool's state file is once the plan's entry is appended, and once
      another user of the pool has published. */
  datatype Event = Reserve(after: Pool) | Others(after: Pool) | Begin(attempt: Attempt) | Step(choice: Choice)

  // --- one step ----------------------------------------------------------------------------------------

  function Stop(s: State): (t: State)
    ensures t.entry == s.entry && t.live == s.live && t.pool == s.pool
  {
    s.(running := None)
  }

  function At(s: State, pc: Pc): (t: State)
    requires s.running.Some?
    ensures t.entry == s.entry && t.live == s.live && t.pool == s.pool
  {
    s.(running := Some(s.running.value.(pc := pc)))
  }

  /** Charge against a limit and go on, or stop. */
  function ReadAnd(plan: Plan, s: State, n: nat, pc: Pc): (t: State)
    requires s.running.Some?
    ensures t.entry == s.entry && t.live == s.live && t.spent == s.spent && t.pool == s.pool
    ensures t.complete == s.complete && (t.running.Some? ==> t.running.value.pc == pc && t.running.value.attempt == s.running.value.attempt)
  {
    var r := s.running.value;
    if r.used.read + n > plan.limits.read then Stop(s)
    else s.(running := Some(r.(pc := pc, used := r.used.(read := r.used.read + n))))
  }

  function DoConsume(plan: Plan, s: State): State
    requires s.running.Some?
  {
    if s.entry.None? || s.entry.value.intent.Some? || !s.live then Stop(s)
    else if !HasRoom(s.pool) then Stop(s).(live := false)
    else
      At(s.(live := false, pool := Published(s.pool), entry := Some(s.entry.value.(intent := Some(Intent(plan, s.running.value.attempt))))), ReadPlan)
  }

  function DoJournal(plan: Plan, s: State): (t: State)
    requires s.running.Some?
    ensures t.entry == s.entry && t.live == s.live && t.spent == s.spent && t.pool == s.pool
    ensures t.complete == s.complete
    ensures t.running.Some? ==> t.running.value.pc.SpendNonce? && t.running.value.attempt == s.running.value.attempt
  {
    var r := s.running.value;
    var n := JournalBytes(plan) + r.attempt.intentBytes + FINAL_RECORDS;
    if r.used.journal + n > plan.limits.journal then Stop(s)
    else s.(running := Some(r.(pc := SpendNonce, used := r.used.(journal := r.used.journal + n))))
  }

  /** Stage file `i`: charge its bytes, then create it exclusively. Past the last one, the loop is over. */
  function DoStage(plan: Plan, s: State, i: nat): (t: State)
    requires s.running.Some?
    ensures t.entry == s.entry && t.live == s.live && t.spent == s.spent && t.pool == s.pool
  {
    var r, paths := s.running.value, Changed(plan);
    if i >= |paths| then At(s, ScanCandidate)
    else
      var n := if paths[i] in plan.candidate then plan.candidate[paths[i]].bytes else 0;
      if r.used.write + n > plan.limits.write || i in s.stage then Stop(s)
      else
        s.(stage := s.stage[i := Partial],
           running := Some(r.(pc := FillStage(i), used := r.used.(write := r.used.write + n))))
  }

  function DoReplace(plan: Plan, s: State, i: nat): (t: State)
    requires s.running.Some?
    ensures t.entry == s.entry && t.live == s.live && t.spent == s.spent && t.pool == s.pool
  {
    var r, paths := s.running.value, Changed(plan);
    if r.used.mutations + 1 > plan.limits.mutations || i >= |paths| || i !in s.stage || !s.stage[i].Whole? then Stop(s)
    else
      s.(copy := s.copy[paths[i] := s.stage[i].value], stage := s.stage - {i}, replaced := s.replaced + 1,
         running := Some(r.(pc := StageFile(i + 1), used := r.used.(mutations := r.used.mutations + 1))))
  }

  function ReceiptFor(plan: Plan, r: Running): Receipt
  {
    Receipt(Intent(plan, r.attempt), r.used)
  }

  function DoSettle(plan: Plan, s: State): State
    requires s.running.Some?
  {
    if s.entry.None? || s.entry.value.intent.None? || s.entry.value.completion.Some? || !HasRoom(s.pool)
       || s.running.value.attempt.receiptBytes > FINAL_RECORDS
    then Stop(s)
    else
      At(s.(pool := Published(s.pool), entry := Some(s.entry.value.(completion := Some(ReceiptFor(plan, s.running.value))))), OpenComplete)
  }

  /** The running attempt's next step, when nothing goes wrong with it. */
  function Go(plan: Plan, s: State): State
    requires s.running.Some?
  {
    var r := s.running.value;
    match r.pc
    case CheckJournal =>
      if !s.intent.Absent? || !s.complete.Absent? || r.attempt.intentBytes > INTENT_LIMIT then Stop(s) else At(s, Consume)
    case Consume => DoConsume(plan, s)
    case ReadPlan => if !PlanReads(plan) then Stop(s) else ReadAnd(plan, s, PlanBytes(plan), ScanBase)
    case ScanBase => if s.copy != plan.base then Stop(s) else ReadAnd(plan, s, AllBytes(s.copy), ReadPayloads)
    case ReadPayloads => ReadAnd(plan, s, PayloadBytes(plan), ChargeJournal)
    case ChargeJournal => DoJournal(plan, s)
    case SpendNonce =>
      if r.attempt.nonce in s.spent then Stop(s) else At(s.(spent := s.spent + {r.attempt.nonce}), OpenIntent)
    case OpenIntent => if !s.intent.Absent? then Stop(s) else At(s.(intent := Partial), WriteIntent)
    case WriteIntent => At(s.(intent := Whole(Intent(plan, r.attempt)), loops := s.loops + 1), StageFile(0))
    case StageFile(i) => DoStage(plan, s, i)
    case FillStage(i) =>
      var paths := Changed(plan);
      if i >= |paths| || paths[i] !in plan.candidate then Stop(s)
      else At(s.(stage := s.stage[i := Whole(plan.candidate[paths[i]])]), Replace(i))
    case Replace(i) => DoReplace(plan, s, i)
    case ScanCandidate => if s.copy != plan.candidate then Stop(s) else ReadAnd(plan, s, AllBytes(s.copy), SettlePool)
    case SettlePool => DoSettle(plan, s)
    case OpenComplete => if !s.complete.Absent? then Stop(s) else At(s.(complete := Partial), WriteComplete)
    case WriteComplete => Stop(s.(complete := Whole(ReceiptFor(plan, r))))
  }

  /** A failure ends the attempt; in the pool's consume it ends the live capability too. A crash ends the
      process, and every capability with it. An attempt holds the root's lock, so there is one at a time. */
  function Next(plan: Plan, s: State, e: Event): State
  {
    match e
    case Reserve(after) =>
      if s.entry.Some? || plan.texts.plan > Records.MAX_BYTES || after.bytes > Records.MAX_BYTES then s
      else s.(entry := Some(Entry(None, None)), pool := after, live := true)
    case Others(after) => if after.bytes > Records.MAX_BYTES then s else s.(pool := after)
    case Begin(a) => if s.running.Some? || a.nonce in s.spent then s else s.(running := Some(Running(a, CheckJournal, Resources(0, 0, 0, 0))))
    case Step(c) =>
      if c.Crashes? then Stop(s).(live := false)
      else if s.running.None? then s
      else if c.Fails? then Stop(s).(live := s.live && !s.running.value.pc.Consume?)
      else Go(plan, s)
  }

  /** A managed copy just prepared: complete BASE, no journal, nothing reserved. */
  function Start(plan: Plan, pool: Pool, spent: set<int>): State
  {
    State(plan.base, Absent, Absent, map[], None, pool, false, spent, None, 0, 0)
  }

  function Run(plan: Plan, s: State, events: seq<Event>): State
    decreases |events|
  {
    if events == [] then s else Run(plan, Next(plan, s, events[0]), events[1..])
  }

  // --- the copy after some replacements ----------------------------------------------------------------

  /** BASE with the first `j` changed paths replaced. */
  function Mixed(plan: Plan, j: nat): map<Text, File>
    requires j <= |Changed(plan)|
  {
    Replaced(plan.base, plan.candidate, Changed(plan)[..j])
  }

  function Replaced(base: map<Text, File>, candidate: map<Text, File>, paths: seq<Text>): map<Text, File>
  {
    map p | p in base :: if p in paths && p in candidate then candidate[p] else base[p]
  }

  lemma OneMoreReplaced(base: map<Text, File>, candidate: map<Text, File>, paths: seq<Text>, p: Text)
    requires p in base && p in candidate
    ensures Replaced(base, candidate, paths)[p := candidate[p]] == Replaced(base, candidate, paths + [p])
  {
  }

  lemma ChangedFacts(plan: Plan)
    requires Prepared(plan)
    ensures forall p :: p in Changed(plan) <==> p in plan.base && plan.base[p] != plan.candidate[p]
    ensures forall i, j :: 0 <= i < j < |Changed(plan)| ==> Changed(plan)[i] != Changed(plan)[j]
  {
    var paths := Changed(plan);
    hide Sorted, TextLess;
    forall i, j | 0 <= i < j < |paths| ensures paths[i] != paths[j] { TextLessTotal(paths[i], paths[j]); }
  }

  /** Nothing replaced is BASE, everything is CANDIDATE, and what is between is neither. */
  lemma MixedEnds(plan: Plan, j: nat)
    requires Prepared(plan) && j <= |Changed(plan)|
    ensures Mixed(plan, j) == plan.base <==> j == 0
    ensures Mixed(plan, j) == plan.candidate <==> j == |Changed(plan)|
    ensures Mixed(plan, j).Keys == plan.base.Keys
    ensures forall p :: p in plan.base ==> Mixed(plan, j)[p] == plan.base[p] || Mixed(plan, j)[p] == plan.candidate[p]
  {
    ChangedFacts(plan);
    var paths := Changed(plan);
    hide Changed, PayloadBytes;
    if j > 0 {
      assert paths[0] in paths[..j] && paths[0] in paths;
      assert Mixed(plan, j)[paths[0]] == plan.candidate[paths[0]];
    }
    if j < |paths| {
      var p := paths[j];
      assert p in paths;
      assert p !in paths[..j];
      assert Mixed(plan, j)[p] == plan.base[p];
    } else {
      assert paths[..j] == paths;
    }
  }

  lemma MixedStep(plan: Plan, j: nat)
    requires Prepared(plan) && j < |Changed(plan)|
    ensures Changed(plan)[j] in plan.candidate
    ensures Mixed(plan, j)[Changed(plan)[j] := plan.candidate[Changed(plan)[j]]] == Mixed(plan, j + 1)
  {
    ChangedFacts(plan);
    var paths := Changed(plan);
    hide Changed, PayloadBytes, Replaced;
    assert paths[j] in paths;
    assert paths[..j + 1] == paths[..j] + [paths[j]];
    OneMoreReplaced(plan.base, plan.candidate, paths[..j], paths[j]);
  }

  // --- the meter ---------------------------------------------------------------------------------------

  /** The running account of one attempt's reads. */
  class Meter {
    const limit: nat
    var used: nat

    constructor (limit: nat)
      ensures this.limit == limit && used == 0
    {
      this.limit := limit;
      used := 0;
    }

    /** Charged before anything is read, and not at all when it does not fit. */
    method Charge(n: nat) returns (ok: bool)
      modifies this`used
      ensures ok <==> old(used) + n <= limit
      ensures used == if ok then old(used) + n else old(used)
    {
      ok := used + n <= limit;
      if ok { used := used + n; }
    }

    /** Reading files one by one, each charged first, gets through exactly when all their bytes fit: so a
        step of an attempt may charge them together. */
    method ReadAll(files: map<Text, File>, paths: seq<Text>) returns (ok: bool)
      requires used <= limit
      modifies this`used
      ensures ok <==> old(used) + BytesOf(files, paths, |paths|) <= limit
      ensures ok ==> used == old(used) + BytesOf(files, paths, |paths|)
      ensures used <= limit
    {
      for i := 0 to |paths|
        invariant used == old(used) + BytesOf(files, paths, i) <= limit
      {
        var size := if paths[i] in files then files[paths[i]].bytes else 0;
        ok := Charge(size);
        if !ok {
          BytesGrow(files, paths, i + 1, |paths|);
          return false;
        }
      }
      return true;
    }
  }

  // --- what every reachable state keeps ----------------------------------------------------------------

  /** What an attempt has been charged by the time it gets to a step. */
  function Charged(plan: Plan, a: Attempt, pc: Pc): Resources
  {
    var base := PlanBytes(plan) + AllBytes(plan.base);
    var sources := base + PayloadBytes(plan);
    var journal := JournalBytes(plan) + a.intentBytes + FINAL_RECORDS;
    match pc
    case CheckJournal => Resources(0, 0, 0, 0)
    case Consume => Resources(0, 0, 0, 0)
    case ReadPlan => Resources(0, 0, 0, 0)
    case ScanBase => Resources(PlanBytes(plan), 0, 0, 0)
    case ReadPayloads => Resources(base, 0, 0, 0)
    case ChargeJournal => Resources(sources, 0, 0, 0)
    case SpendNonce => Resources(sources, 0, 0, journal)
    case OpenIntent => Resources(sources, 0, 0, journal)
    case WriteIntent => Resources(sources, 0, 0, journal)
    case StageFile(i) => Resources(sources, PathBytes(plan, i), i, journal)
    case FillStage(i) => Resources(sources, PathBytes(plan, i + 1), i, journal)
    case Replace(i) => Resources(sources, PathBytes(plan, i + 1), i, journal)
    case ScanCandidate => Resources(sources, PayloadBytes(plan), |Changed(plan)|, journal)
    case _ => Resources(sources + AllBytes(plan.candidate), PayloadBytes(plan), |Changed(plan)|, journal)
  }

  /** The candidate bytes of the first `i` changed paths. */
  function PathBytes(plan: Plan, i: nat): nat
  {
    if i <= |Changed(plan)| then BytesOf(plan.candidate, Changed(plan), i) else 0
  }

  lemma {:induction false} BytesGrow(files: map<Text, File>, paths: seq<Text>, i: nat, j: nat)
    requires i <= j <= |paths|
    ensures BytesOf(files, paths, i) <= BytesOf(files, paths, j)
  {
    if i < j { BytesGrow(files, paths, i, j - 1); }
  }

  predicate Fits(used: Resources, limits: Resources)
  {
    used.read <= limits.read && used.write <= limits.write && used.mutations <= limits.mutations && used.journal <= limits.journal
  }

  predicate BeforeIntent(pc: Pc)
  {
    pc.Consume? || pc.ReadPlan? || pc.ScanBase? || pc.ReadPayloads? || pc.ChargeJournal? || pc.SpendNonce? || pc.OpenIntent?
  }

  predicate InLoop(pc: Pc)
  {
    pc.StageFile? || pc.FillStage? || pc.Replace?
  }

  predicate AfterLoop(pc: Pc)
  {
    pc.ScanCandidate? || pc.SettlePool? || pc.OpenComplete? || pc.WriteComplete?
  }

  /** What holds while an attempt is at a step. */
  predicate RunningOk(plan: Plan, s: State, r: Running)
  {
    var mine := Intent(plan, r.attempt);
    && r.used == Charged(plan, r.attempt, r.pc) && Fits(r.used, plan.limits)
    && (!r.pc.CheckJournal? ==> r.attempt.intentBytes <= INTENT_LIMIT)
    && (!r.pc.CheckJournal? && !r.pc.Consume? && !r.pc.ReadPlan? ==> PlanReads(plan))
    && (BeforeIntent(r.pc) ==> s.intent.Absent?)
    && (r.pc.WriteIntent? ==> s.intent.Partial?)
    && (!r.pc.CheckJournal? && !r.pc.Consume? ==>
          s.entry.Some? && s.entry.value.intent == Some(mine) && (s.entry.value.completion.Some? <==> r.pc.OpenComplete? || r.pc.WriteComplete?))
    && (InLoop(r.pc) || AfterLoop(r.pc) ==> s.intent == Whole(mine))
    && (InLoop(r.pc) ==>
          && s.replaced == r.pc.i <= |Changed(plan)|
          && (r.pc.StageFile? ==> s.stage == map[])
          && (r.pc.FillStage? ==> r.pc.i < |Changed(plan)| && s.stage == map[r.pc.i := Partial])
          && (r.pc.Replace? ==>
                r.pc.i < |Changed(plan)| && Changed(plan)[r.pc.i] in plan.candidate
                && s.stage == map[r.pc.i := Whole(plan.candidate[Changed(plan)[r.pc.i]])]))
    && (AfterLoop(r.pc) ==> s.replaced == |Changed(plan)|)
    && (!r.pc.CheckJournal? && !r.pc.WriteComplete? ==> s.complete.Absent?)
    && (r.pc.WriteComplete? ==> s.complete.Partial?)
    && (r.pc.OpenComplete? || r.pc.WriteComplete? ==> s.entry.value.completion == Some(ReceiptFor(plan, r)))
  }

  /** What the disk and the pool say of each other, at rest or not. */
  predicate DiskOk(plan: Plan, s: State)
  {
    && s.replaced <= |Changed(plan)| && s.copy == Mixed(plan, s.replaced)
    && (!s.intent.Whole? ==> s.replaced == 0 && s.loops == 0 && s.stage == map[] && s.complete.Absent?)
    && (s.intent.Whole? ==>
          PlanReads(plan) && s.loops == 1 && s.entry.Some? && s.entry.value.intent == Some(s.intent.value) && s.intent.value.plan == plan)
    && (s.live ==> s.entry.Some? && s.entry.value.intent.None?)
    && (s.entry.Some? ==> plan.texts.plan <= Records.MAX_BYTES)
    && (s.entry.Some? && s.entry.value.completion.Some? ==>
          && s.intent.Whole? && s.replaced == |Changed(plan)|
          && s.entry.value.completion.value == Receipt(s.intent.value, Charged(plan, s.intent.value.attempt, SettlePool))
          && Fits(s.entry.value.completion.value.measured, plan.limits))
    && (!s.complete.Absent? ==> s.entry.Some? && s.entry.value.completion.Some?)
    && (s.complete.Whole? ==> s.entry.value.completion == Some(s.complete.value))
  }

  predicate Inv(plan: Plan, s: State)
  {
    DiskOk(plan, s) && (s.running.Some? ==> RunningOk(plan, s, s.running.value))
  }

  // --- each step keeps it ------------------------------------------------------------------------------

  lemma CheckKeeps(plan: Plan, s: State)
    requires Prepared(plan) && Inv(plan, s) && s.running.Some? && s.running.value.pc.CheckJournal?
    ensures Inv(plan, Go(plan, s))
  {
    hide Prepared, Changed, AllBytes, PayloadBytes, PathBytes, PlanBytes, JournalBytes, Mixed, BytesOf;
  }

  lemma ConsumeKeeps(plan: Plan, s: State)
    requires Prepared(plan) && Inv(plan, s) && s.running.Some? && s.running.value.pc.Consume?
    ensures Inv(plan, Go(plan, s))
  {
    hide Prepared, Changed, AllBytes, PayloadBytes, PathBytes, PlanBytes, JournalBytes, Mixed, BytesOf;
  }

  lemma ReadKeeps(plan: Plan, s: State)
    requires Prepared(plan) && Inv(plan, s) && s.running.Some? && (s.running.value.pc.ReadPlan? || s.running.value.pc.ReadPayloads?)
    ensures Inv(plan, Go(plan, s))
  {
    hide Prepared, Changed, AllBytes, PayloadBytes, PathBytes, PlanBytes, JournalBytes, Mixed, BytesOf;
  }

  lemma ScanBaseKeeps(plan: Plan, s: State)
    requires Prepared(plan) && Inv(plan, s) && s.running.Some? && s.running.value.pc.ScanBase?
    ensures Inv(plan, Go(plan, s))
  {
    hide Prepared, Changed, AllBytes, PayloadBytes, PathBytes, PlanBytes, JournalBytes, Mixed, BytesOf;
  }

  lemma JournalKeeps(plan: Plan, s: State)
    requires Prepared(plan) && Inv(plan, s) && s.running.Some? && s.running.value.pc.ChargeJournal?
    ensures Inv(plan, Go(plan, s))
  {
    hide Prepared, Changed, AllBytes, PayloadBytes, PathBytes, PlanBytes, JournalBytes, Mixed, BytesOf;
  }

  lemma IntentKeeps(plan: Plan, s: State)
    requires Prepared(plan) && Inv(plan, s) && s.running.Some? && (s.running.value.pc.SpendNonce? || s.running.value.pc.OpenIntent?)
    ensures Inv(plan, Go(plan, s))
  {
    hide Prepared, Changed, AllBytes, PayloadBytes, PathBytes, PlanBytes, JournalBytes, Mixed, BytesOf;
  }

  lemma WriteIntentKeeps(plan: Plan, s: State)
    requires Prepared(plan) && Inv(plan, s) && s.running.Some? && s.running.value.pc.WriteIntent?
    ensures Inv(plan, Go(plan, s))
  {
    hide Prepared, Changed, AllBytes, PayloadBytes, PathBytes, PlanBytes, JournalBytes, Mixed, BytesOf;
    PathFacts(plan, 0);
  }

  /** Staging file by file never charges more than all the payload, which the plan was prepared to fit. */
  lemma PathFacts(plan: Plan, i: nat)
    requires Prepared(plan) && i <= |Changed(plan)|
    ensures PathBytes(plan, 0) == 0 && PathBytes(plan, |Changed(plan)|) == PayloadBytes(plan)
    ensures |Changed(plan)| <= plan.limits.mutations
    ensures i < |Changed(plan)| ==>
              && Changed(plan)[i] in plan.candidate
              && PathBytes(plan, i + 1) == PathBytes(plan, i) + plan.candidate[Changed(plan)[i]].bytes
              && PathBytes(plan, i + 1) <= plan.limits.write
  {
    if i < |Changed(plan)| {
      MixedStep(plan, i);
      BytesGrow(plan.candidate, Changed(plan), i + 1, |Changed(plan)|);
    }
    hide Changed, Mixed;
  }

  lemma StageKeeps(plan: Plan, s: State)
    requires Prepared(plan) && Inv(plan, s) && s.running.Some? && s.running.value.pc.StageFile?
    ensures Inv(plan, Go(plan, s)) && Go(plan, s).running.Some?
  {
    hide Prepared, Changed, AllBytes, PayloadBytes, PathBytes, PlanBytes, JournalBytes, Mixed, BytesOf;
    var i := s.running.value.pc.i;
    PathFacts(plan, i);
    if i < |Changed(plan)| { MixedStep(plan, i); }
  }

  lemma FillKeeps(plan: Plan, s: State)
    requires Prepared(plan) && Inv(plan, s) && s.running.Some? && s.running.value.pc.FillStage?
    ensures Inv(plan, Go(plan, s)) && Go(plan, s).running.Some?
  {
    hide Prepared, Changed, AllBytes, PayloadBytes, PathBytes, PlanBytes, JournalBytes, Mixed, BytesOf;
    var i := s.running.value.pc.i;
    PathFacts(plan, i);
    if i < |Changed(plan)| { MixedStep(plan, i); }
  }

  lemma ReplaceKeeps(plan: Plan, s: State)
    requires Prepared(plan) && Inv(plan, s) && s.running.Some? && s.running.value.pc.Replace?
    ensures Inv(plan, Go(plan, s)) && Go(plan, s).running.Some?
  {
    hide Prepared, Changed, AllBytes, PayloadBytes, PathBytes, PlanBytes, JournalBytes, Mixed, BytesOf;
    var i := s.running.value.pc.i;
    PathFacts(plan, i);
    if i < |Changed(plan)| { MixedStep(plan, i); }
  }

  lemma ScanCandidateKeeps(plan: Plan, s: State)
    requires Prepared(plan) && Inv(plan, s) && s.running.Some? && s.running.value.pc.ScanCandidate?
    ensures Inv(plan, Go(plan, s))
  {
    hide Prepared, Changed, AllBytes, PayloadBytes, PathBytes, PlanBytes, JournalBytes, Mixed, BytesOf;
    MixedEnds(plan, s.replaced);
  }

  lemma SettleKeeps(plan: Plan, s: State)
    requires Prepared(plan) && Inv(plan, s) && s.running.Some? && s.running.value.pc.SettlePool?
    ensures Inv(plan, Go(plan, s))
  {
    hide Prepared, Changed, AllBytes, PayloadBytes, PathBytes, PlanBytes, JournalBytes, Mixed, BytesOf;
  }

  lemma CompleteKeeps(plan: Plan, s: State)
    requires Prepared(plan) && Inv(plan, s) && s.running.Some? && (s.running.value.pc.OpenComplete? || s.running.value.pc.WriteComplete?)
    ensures Inv(plan, Go(plan, s))
  {
    hide Prepared, Changed, AllBytes, PayloadBytes, PathBytes, PlanBytes, JournalBytes, Mixed, BytesOf;
  }

  lemma GoKeeps(plan: Plan, s: State)
    requires Prepared(plan) && Inv(plan, s) && s.running.Some?
    ensures Inv(plan, Go(plan, s))
    ensures InLoop(s.running.value.pc) ==> Go(plan, s).running.Some?
  {
    hide Inv, Go, Prepared;
    match s.running.value.pc {
      case CheckJournal => CheckKeeps(plan, s);
      case Consume => ConsumeKeeps(plan, s);
      case ReadPlan => ReadKeeps(plan, s);
      case ScanBase => ScanBaseKeeps(plan, s);
      case ReadPayloads => ReadKeeps(plan, s);
      case ChargeJournal => JournalKeeps(plan, s);
      case SpendNonce => IntentKeeps(plan, s);
      case OpenIntent => IntentKeeps(plan, s);
      case WriteIntent => WriteIntentKeeps(plan, s);
      case StageFile(_) => StageKeeps(plan, s);
      case FillStage(_) => FillKeeps(plan, s);
      case Replace(_) => ReplaceKeeps(plan, s);
      case ScanCandidate => ScanCandidateKeeps(plan, s);
      case SettlePool => SettleKeeps(plan, s);
      case OpenComplete => CompleteKeeps(plan, s);
      case WriteComplete => CompleteKeeps(plan, s);
    }
  }

  lemma ReserveKeeps(plan: Plan, s: State, after: Pool)
    requires Inv(plan, s)
    ensures Inv(plan, Next(plan, s, Reserve(after))) && Inv(plan, Next(plan, s, Others(after)))
  {
    hide Prepared, Changed, AllBytes, PayloadBytes, PathBytes, PlanBytes, JournalBytes, Mixed, BytesOf, Go, Charged, Fits;
  }

  lemma BeginKeeps(plan: Plan, s: State, a: Attempt)
    requires Inv(plan, s)
    ensures Inv(plan, Next(plan, s, Begin(a)))
  {
    hide Prepared, Changed, AllBytes, PayloadBytes, PathBytes, PlanBytes, JournalBytes, Mixed, BytesOf, Go, Charged, Fits, ReceiptFor;
    if !s.running.Some? && a.nonce !in s.spent {
      var r := Running(a, CheckJournal, Resources(0, 0, 0, 0));
      var t := s.(running := Some(r));
      assert DiskOk(plan, t);
      StartIsOk(plan, s, t, a);
      hide DiskOk, RunningOk;
    } else {
      hide DiskOk, RunningOk;
    }
  }

  lemma StartIsOk(plan: Plan, s: State, t: State, a: Attempt)
    requires DiskOk(plan, s) && t == s.(running := Some(Running(a, CheckJournal, Resources(0, 0, 0, 0))))
    ensures RunningOk(plan, t, t.running.value)
  {
    assert Charged(plan, a, CheckJournal) == Resources(0, 0, 0, 0);
    hide Prepared, Changed, AllBytes, PayloadBytes, PathBytes, PlanBytes, JournalBytes, Mixed, BytesOf, Go, Charged, ReceiptFor;
  }

  lemma StopKeeps(plan: Plan, s: State, live: bool)
    requires Inv(plan, s) && (live ==> s.live)
    ensures Inv(plan, Stop(s).(live := live))
  {
    hide Prepared, Changed, AllBytes, PayloadBytes, PathBytes, PlanBytes, JournalBytes, Mixed, BytesOf, Charged, Fits, RunningOk;
  }

  /** One attempt runs at a time and to its end, and one starts exactly where none is running and its nonce is not
      spent. */
  lemma OneAtATime(plan: Plan, s: State, e: Event)
    ensures var t := Next(plan, s, e);
            && (s.running.Some? && t.running.Some? ==> t.running.value.attempt == s.running.value.attempt)
            && (s.running.None? ==> (t.running.Some? <==> e.Begin? && e.attempt.nonce !in s.spent))
            && (s.running.None? && t.running.Some? ==> t == s.(running := Some(Running(e.attempt, CheckJournal, Resources(0, 0, 0, 0)))))
  {
    hide Changed, AllBytes, PayloadBytes, PathBytes, PlanBytes, JournalBytes, Mixed, BytesOf, ReceiptFor, HasRoom, Published;
  }

  lemma NextKeeps(plan: Plan, s: State, e: Event)
    requires Prepared(plan) && Inv(plan, s)
    ensures Inv(plan, Next(plan, s, e))
  {
    hide Inv, Go, Prepared;
    match e {
      case Reserve(after) => ReserveKeeps(plan, s, after);
      case Others(after) => ReserveKeeps(plan, s, after);
      case Begin(a) => BeginKeeps(plan, s, a);
      case Step(c) =>
        if c.Crashes? {
          StopKeeps(plan, s, false);
        } else if s.running.Some? {
          if c.Fails? { StopKeeps(plan, s, s.live && !s.running.value.pc.Consume?); } else { GoKeeps(plan, s); }
        }
    }
  }

  // --- runs --------------------------------------------------------------------------------------------

  lemma StartHolds(plan: Plan, pool: Pool, spent: set<int>)
    requires Prepared(plan)
    ensures Inv(plan, Start(plan, pool, spent))
  {
    MixedEnds(plan, 0);
    hide Prepared, Changed, AllBytes, PayloadBytes, PathBytes, PlanBytes, JournalBytes, Mixed, BytesOf;
  }

  lemma {:induction false} RunKeeps(plan: Plan, s: State, events: seq<Event>)
    requires Prepared(plan) && Inv(plan, s)
    ensures Inv(plan, Run(plan, s, events))
    decreases |events|
  {
    hide Inv, Prepared, Next;
    if events != [] {
      NextKeeps(plan, s, events[0]);
      RunKeeps(plan, Next(plan, s, events[0]), events[1..]);
    }
  }

  /** At every crash point of every run: the copy has BASE's paths, each file wholly BASE's or wholly
      CANDIDATE's, the replaced ones a prefix of the changed paths; without an INTENT nothing is replaced;
      with a COMPLETE everything is, and the pool already holds its receipt; and the replace loop has
      been entered at most once. */
  lemma EveryCrashPoint(plan: Plan, pool: Pool, spent: set<int>, events: seq<Event>)
    requires Prepared(plan)
    ensures var s := Run(plan, Start(plan, pool, spent), events);
            && s.replaced <= |Changed(plan)| && s.copy == Mixed(plan, s.replaced)
            && s.copy.Keys == plan.base.Keys
            && (forall p :: p in plan.base ==> s.copy[p] == plan.base[p] || s.copy[p] == plan.candidate[p])
            && (s.intent.Absent? ==> s.copy == plan.base)
            && (!s.complete.Absent? ==> s.copy == plan.candidate && s.entry.Some? && s.entry.value.completion.Some?)
            && (s.complete.Whole? ==> s.entry.value.completion == Some(s.complete.value))
            && s.loops <= 1
  {
    StartHolds(plan, pool, spent);
    RunKeeps(plan, Start(plan, pool, spent), events);
    var s := Run(plan, Start(plan, pool, spent), events);
    hide Run, Prepared, Changed, RunningOk, Mixed;
    MixedEnds(plan, s.replaced);
    MixedEnds(plan, 0);
  }

  datatype Content = BASE | CANDIDATE | MIXED | UNKNOWN

  datatype Observation = Observation(observed: bool, content: Content, intentPresent: Option<bool>)

  /** The objects and arrays of an intent: the documents are its members, and nothing else in it nests. */
  function IntentContainers(d: Documents): Value
  {
    Records.Record([(Records.T("authorization"), d.authorization), (Records.T("rulebook"), d.rulebook),
                    (Records.T("snapshot"), d.snapshot), (Records.T("result"), d.result)])
  }

  /** The loader takes the intent back. */
  predicate IntentLoads(a: Attempt)
  {
    Reading.DepthAtMost(IntentContainers(a.documents), 64)
  }

  /** An intent stands one above the documents in it: it can be read back exactly when each nests at most 63
      deep, one less than the loader took it at. */
  lemma IntentDepth(a: Attempt)
    ensures var d := a.documents;
            IntentLoads(a)
            <==> Reading.DepthAtMost(d.authorization, 63) && Reading.DepthAtMost(d.rulebook, 63)
                 && Reading.DepthAtMost(d.snapshot, 63) && Reading.DepthAtMost(d.result, 63)
  {
    var d := a.documents;
    DocumentKeysApart(d);
    hide Records.Record, Records.T, Reading.DepthAtMost, Layout.KeysApart;
    var pairs := [(Records.T("authorization"), d.authorization), (Records.T("rulebook"), d.rulebook),
                  (Records.T("snapshot"), d.snapshot), (Records.T("result"), d.result)];
    Layout.RecordDepth([], pairs, 64);
    assert [] + pairs == pairs;
    Layout.FourPairs(pairs, 63);
  }

  lemma DocumentKeysApart(d: Documents)
    ensures Layout.KeysApart([(Records.T("authorization"), d.authorization), (Records.T("rulebook"), d.rulebook),
                              (Records.T("snapshot"), d.snapshot), (Records.T("result"), d.result)])
  {
    assert Records.T("authorization")[0] != Records.T("rulebook")[0] && Records.T("authorization")[0] != Records.T("snapshot")[0]
           && Records.T("authorization")[0] != Records.T("result")[0];
    assert Records.T("rulebook")[1] != Records.T("result")[1] && Records.T("rulebook")[0] != Records.T("snapshot")[0]
           && Records.T("snapshot")[0] != Records.T("result")[0];
    hide Records.T;
  }

  /** What an independent observer says of the root: nothing of a plan it cannot read, and the candidate only of
      a journal it can read, whose every part agrees. `trusted` says whether it was given the pool owner's key
      to trust; it trusts nobody unless told to. */
  function Reconcile(plan: Plan, s: State, trusted: bool): Observation
  {
    if PlanReads(plan) then Observed(plan, s, trusted) else Observation(false, UNKNOWN, None)
  }

  function Observed(plan: Plan, s: State, trusted: bool): Observation
  {
    var content :=
      if s.copy == plan.base then BASE
      else if s.copy == plan.candidate then CANDIDATE
      else if s.copy.Keys == plan.base.Keys
              && forall p :: p in plan.base ==> p in s.copy && (s.copy[p] == plan.base[p] || (p in plan.candidate && s.copy[p] == plan.candidate[p]))
      then MIXED else UNKNOWN;
    var journal :=
      && s.intent.Whole? && IntentLoads(s.intent.value.attempt) && s.intent.value.plan == plan
      && s.complete.Whole? && trusted && s.complete.value.intent == s.intent.value;
    Observation(journal && content.CANDIDATE?, content, Some(!s.intent.Absent?))
  }

  /** The observer names the contents exactly when it can read the plan, and says the candidate was observed only
      when the completion is there: never of an interrupted adoption, even one that had replaced every file.
      When it is there, the plan can be read, and the observer says so exactly if it trusts the pool's owner and
      the intent is one the loader takes back. */
  lemma ReconcileIsExact(plan: Plan, pool: Pool, spent: set<int>, events: seq<Event>, trusted: bool)
    requires Prepared(plan)
    ensures var s := Run(plan, Start(plan, pool, spent), events);
            var o := Reconcile(plan, s, trusted);
            && o.content == (if !PlanReads(plan) then UNKNOWN
                             else if s.replaced == 0 then BASE else if s.replaced == |Changed(plan)| then CANDIDATE else MIXED)
            && (s.intent.Whole? ==> PlanReads(plan))
            && (o.observed <==> s.complete.Whole? && trusted && s.intent.Whole? && IntentLoads(s.intent.value.attempt))
            && (s.complete.Whole? ==> s.intent.Whole?)
            && (o.observed ==> s.entry.Some? && s.entry.value.completion.Some? && s.entry.value.completion.value.intent == s.intent.value)
  {
    EveryCrashPoint(plan, pool, spent, events);
    StartHolds(plan, pool, spent);
    RunKeeps(plan, Start(plan, pool, spent), events);
    var s := Run(plan, Start(plan, pool, spent), events);
    assert |Changed(plan)| > 0 && plan.base.Keys == plan.candidate.Keys;
    hide Run, Prepared, Changed, RunningOk, Mixed, IntentLoads;
    MixedEnds(plan, s.replaced);
  }

  /** The journal and the copy, apart from the pool. */
  predicate SameRoot(s: State, t: State)
  {
    && t.copy == s.copy && t.intent == s.intent && t.complete == s.complete && t.stage == s.stage
    && t.replaced == s.replaced && t.loops == s.loops
  }

  /** No retry: once an attempt that wrote its intent is over, however it ended, no later event changes
      the copy, the journal or what the pool says of the plan. */
  lemma {:induction false} NoRetry(plan: Plan, s: State, events: seq<Event>)
    requires !s.intent.Absent? && (s.running.Some? ==> s.running.value.pc.CheckJournal?) && s.entry.Some?
    ensures var t := Run(plan, s, events);
            SameRoot(s, t) && t.entry == s.entry && t.spent == s.spent && (t.running.Some? ==> t.running.value.pc.CheckJournal?)
    decreases |events|
  {
    if events != [] { NoRetry(plan, Next(plan, s, events[0]), events[1..]); }
  }

  /** What a step does to the pool's entry: consuming sets its intent, settling its completion. */
  lemma GoEntry(plan: Plan, s: State)
    requires s.running.Some?
    ensures var t := Go(plan, s);
            if s.running.value.pc.Consume? then t == DoConsume(plan, s)
            else if s.running.value.pc.SettlePool? then t == DoSettle(plan, s)
            else t.entry == s.entry && t.live == s.live
  {
    hide At, Stop, ReadAnd, DoJournal, DoStage, DoReplace, DoConsume, DoSettle, Changed, AllBytes, PayloadBytes, PlanBytes, JournalBytes;
  }

  /** A reservation is consumed at most once: the pool's intent for the plan, once set, is the one set
      for good, and it is set only by the process that made the reservation. */
  lemma ConsumedOnce(plan: Plan, s: State, e: Event)
    requires s.entry.Some?
    ensures var t := Next(plan, s, e);
            && t.entry.Some?
            && (s.entry.value.intent.Some? ==> t.entry.value.intent == s.entry.value.intent)
            && (t.entry.value.intent != s.entry.value.intent ==> s.live && !t.live)
            && (s.entry.value.completion.Some? ==> t.entry.value.completion == s.entry.value.completion)
            && (!s.live ==> !t.live)
  {
    if s.running.Some? { GoEntry(plan, s); }
    hide Go, ReceiptFor;
  }

  // --- an uninterrupted attempt ------------------------------------------------------------------------

  function Alone(plan: Plan, s: State, n: nat): State
    decreases n
  {
    if n == 0 || s.running.None? then s else Alone(plan, Go(plan, s), n - 1)
  }

  /** What an attempt needs to get as far as its intent, besides room in the pool: a short enough intent, a
      candidate manifest the file reader takes, and a read limit for all it checks again. */
  predicate ReadsFit(plan: Plan, a: Attempt)
  {
    && a.intentBytes <= INTENT_LIMIT
    && plan.texts.candidate <= Records.MAX_BYTES
    && PlanBytes(plan) + AllBytes(plan.base) + PayloadBytes(plan) <= plan.limits.read
  }

  predicate ReachesIntent(plan: Plan, pool: Pool, a: Attempt)
  {
    ReadsFit(plan, a) && HasRoom(pool)
  }

  /** What it needs to complete when every file is replaced: to read the candidate back, a short enough receipt,
      and room in the pool once more. */
  predicate Settles(plan: Plan, pool: Pool, a: Attempt)
  {
    && PlanBytes(plan) + AllBytes(plan.base) + PayloadBytes(plan) + AllBytes(plan.candidate) <= plan.limits.read
    && a.receiptBytes <= FINAL_RECORDS
    && HasRoom(pool)
  }

  /** A reserved plan, a fresh copy, and an attempt about to look at the journal. */
  predicate Ready(plan: Plan, s: State, a: Attempt)
  {
    && Inv(plan, s) && s.live && s.intent.Absent? && a.nonce !in s.spent && s.entry.Some? && s.entry.value.completion.None?
    && s.running == Some(Running(a, CheckJournal, Resources(0, 0, 0, 0)))
  }

  lemma {:induction false} AloneSplits(plan: Plan, s: State, m: nat, n: nat)
    ensures Alone(plan, s, m + n) == Alone(plan, Alone(plan, s, m), n)
    decreases m
  {
    hide Go;
    if m > 0 && s.running.Some? { AloneSplits(plan, Go(plan, s), m - 1, n); }
  }

  lemma {:induction false} StoppedStays(plan: Plan, s: State, n: nat)
    requires s.running.None?
    ensures Alone(plan, s, n) == s
  {
  }

  /** Steps from here to the replace loop. */
  function ToLoop(pc: Pc): nat
  {
    match pc
    case CheckJournal => 9
    case Consume => 8
    case ReadPlan => 7
    case ScanBase => 6
    case ReadPayloads => 5
    case ChargeJournal => 4
    case SpendNonce => 3
    case OpenIntent => 2
    case WriteIntent => 1
    case _ => 0
  }

  /** Nothing but a limit can stop the attempt before its intent is written. */
  predicate Unhindered(s: State, a: Attempt)
  {
    && s.running.Some? && s.running.value.attempt == a
    && ToLoop(s.running.value.pc) > 0
    && s.complete.Absent? && (s.running.value.pc.CheckJournal? ==> s.intent.Absent?)
    && (ToLoop(s.running.value.pc) >= 8 ==> s.live && s.entry.Some? && s.entry.value.intent.None?)
    && (ToLoop(s.running.value.pc) >= 3 ==> a.nonce !in s.spent)
  }

  /** The journal never stops an attempt: what prepare_adoption set aside covers the longest intent. */
  lemma JournalFits(plan: Plan, a: Attempt)
    requires Prepared(plan) && a.intentBytes <= INTENT_LIMIT
    ensures JournalBytes(plan) + a.intentBytes + FINAL_RECORDS <= plan.limits.journal
  {
    hide Changed, PayloadBytes, JournalBytes;
  }

  /** The pool's publication is still to come. */
  predicate ToConsume(s: State)
  {
    s.running.Some? && ToLoop(s.running.value.pc) >= 8
  }

  /** The attempt gets from here to its intent. */
  predicate WillReach(plan: Plan, s: State, a: Attempt)
  {
    ReadsFit(plan, a) && (ToConsume(s) ==> HasRoom(s.pool))
  }

  function PoolAtLoop(s: State): Pool
  {
    if ToConsume(s) then Published(s.pool) else s.pool
  }

  lemma BaseStays(plan: Plan, s: State)
    requires Prepared(plan) && Inv(plan, s) && !s.intent.Whole?
    ensures s.copy == plan.base
  {
    MixedEnds(plan, 0);
    hide Prepared, Changed, Mixed;
  }

  lemma SoFar(plan: Plan, s: State)
    requires Inv(plan, s) && s.running.Some?
    ensures var r := s.running.value;
            && (r.pc.ReadPlan? ==> r.used.read == 0 && plan.texts.plan <= Records.MAX_BYTES)
            && (r.pc.ScanBase? ==> r.used.read == PlanBytes(plan))
            && (r.pc.ReadPayloads? ==> r.used.read == PlanBytes(plan) + AllBytes(plan.base))
            && (r.pc.ChargeJournal? ==> r.used.journal == 0)
            && (!r.pc.CheckJournal? ==> r.attempt.intentBytes <= INTENT_LIMIT)
            && (BeforeIntent(r.pc) ==> s.intent.Absent?)
  {
    hide Mixed, Changed, AllBytes, PayloadBytes, PathBytes, PlanBytes, JournalBytes, BytesOf, Fits;
  }

  lemma ReadingEnds(plan: Plan, s: State, a: Attempt)
    requires Prepared(plan) && Inv(plan, s) && Unhindered(s, a) && Go(plan, s).running.None?
    requires s.running.value.pc.ReadPlan? || s.running.value.pc.ScanBase? || s.running.value.pc.ReadPayloads?
    ensures !ReadsFit(plan, a)
  {
    hide Inv, Prepared, AllBytes, PayloadBytes, PlanBytes, JournalBytes, BytesOf, Changed;
    hide DoConsume, DoJournal, DoStage, DoReplace, DoSettle;
    SoFar(plan, s);
    BaseStays(plan, s);
  }

  lemma EarlyEnds(plan: Plan, s: State, a: Attempt)
    requires Prepared(plan) && Inv(plan, s) && Unhindered(s, a) && Go(plan, s).running.None?
    ensures !WillReach(plan, s, a) && Go(plan, s).intent.Absent?
  {
    hide Inv, Prepared, AllBytes, PayloadBytes, PlanBytes, JournalBytes, Published, HasRoom, DoStage, DoReplace, DoSettle, Changed;
    SoFar(plan, s);
    var pc := s.running.value.pc;
    if pc.ReadPlan? || pc.ScanBase? || pc.ReadPayloads? {
      ReadingEnds(plan, s, a);
    } else if pc.ChargeJournal? {
      JournalFits(plan, a);
    }
    hide ReadsFit;
  }

  lemma EarlyAdvances(plan: Plan, s: State, a: Attempt)
    requires Unhindered(s, a) && Go(plan, s).running.Some?
    ensures var t := Go(plan, s);
            && t.running.value.attempt == a && t.complete.Absent?
            && (if s.running.value.pc.WriteIntent? then t.running.value.pc == StageFile(0)
                else ToLoop(t.running.value.pc) == ToLoop(s.running.value.pc) - 1 > 0)
  {
    hide Changed, AllBytes, PayloadBytes, PlanBytes, JournalBytes, Published, HasRoom, DoStage, DoReplace, DoSettle, PlanReads, ReadAnd, DoJournal, BytesOf;
  }

  lemma EarlyGoes(plan: Plan, s: State, a: Attempt)
    requires Unhindered(s, a) && Go(plan, s).running.Some?
    ensures var t := Go(plan, s);
            if s.running.value.pc.WriteIntent? then t.running.value.attempt == a && t.running.value.pc == StageFile(0)
            else Unhindered(t, a) && ToLoop(t.running.value.pc) == ToLoop(s.running.value.pc) - 1
  {
    EarlyAdvances(plan, s, a);
    hide Changed, AllBytes, PayloadBytes, PlanBytes, JournalBytes, Published, HasRoom, DoStage, DoReplace, DoSettle, PlanReads, DoJournal, DoConsume, ReadAnd;
  }

  /** The step that consumes needs the room, and takes it; no other early step touches the pool. */
  lemma EarlyPool(plan: Plan, s: State, a: Attempt)
    requires Unhindered(s, a) && Go(plan, s).running.Some?
    ensures PoolAtLoop(Go(plan, s)) == PoolAtLoop(s) && (WillReach(plan, Go(plan, s), a) <==> WillReach(plan, s, a))
  {
    hide ReadsFit, AllBytes, PayloadBytes, PlanBytes, JournalBytes, Published, HasRoom;
  }

  lemma AtLoop(plan: Plan, s: State)
    requires Inv(plan, s) && s.running.Some? && s.running.value.pc.StageFile?
    ensures WillReach(plan, s, s.running.value.attempt) && PoolAtLoop(s) == s.pool
  {
    hide Mixed, Changed, AllBytes, PayloadBytes, PathBytes, PlanBytes, JournalBytes, BytesOf, HasRoom;
  }

  lemma {:induction false} ReadsToIntent(plan: Plan, s: State, a: Attempt)
    requires Prepared(plan) && Inv(plan, s) && Unhindered(s, a)
    ensures var t := Alone(plan, s, ToLoop(s.running.value.pc));
            && Inv(plan, t)
            && (if WillReach(plan, s, a)
                then t.running.Some? && t.running.value.attempt == a && t.running.value.pc == StageFile(0) && t.pool == PoolAtLoop(s)
                else t.running.None? && t.intent.Absent?)
    decreases ToLoop(s.running.value.pc)
  {
    hide Inv, Go, Prepared, WillReach, Published;
    GoKeeps(plan, s);
    var t := Go(plan, s);
    if t.running.Some? {
      EarlyGoes(plan, s, a);
      EarlyPool(plan, s, a);
    }
    if t.running.None? {
      EarlyEnds(plan, s, a);
      StoppedStays(plan, t, ToLoop(s.running.value.pc) - 1);
    } else if s.running.value.pc.WriteIntent? {
      assert Alone(plan, t, 0) == t;
      AtLoop(plan, t);
    } else {
      ReadsToIntent(plan, t, a);
    }
  }

  lemma LoopStep(plan: Plan, s: State)
    requires Prepared(plan) && Inv(plan, s) && s.running.Some? && InLoop(s.running.value.pc)
    ensures var t := Go(plan, s);
            var pc := s.running.value.pc;
            && Inv(plan, t) && t.running.Some? && t.running.value.attempt == s.running.value.attempt && t.pool == s.pool
            && pc.i <= |Changed(plan)| && (!pc.StageFile? ==> pc.i < |Changed(plan)|)
            && t.running.value.pc == (if pc.StageFile? then (if pc.i < |Changed(plan)| then FillStage(pc.i) else ScanCandidate)
                                      else if pc.FillStage? then Replace(pc.i) else StageFile(pc.i + 1))
  {
    hide Prepared, Mixed, Changed, AllBytes, PayloadBytes, PathBytes, PlanBytes, JournalBytes, BytesOf, Charged, DiskOk, Fits;
    GoKeeps(plan, s);
  }

  /** Stage, fill, replace: one file. */
  lemma FileReplaced(plan: Plan, s: State)
    requires Prepared(plan) && Inv(plan, s) && s.running.Some? && s.running.value.pc.StageFile? && s.running.value.pc.i < |Changed(plan)|
    ensures var t := Alone(plan, s, 3);
            && Inv(plan, t) && t.running.Some? && t.running.value.attempt == s.running.value.attempt && t.pool == s.pool
            && t.running.value.pc == StageFile(s.running.value.pc.i + 1)
  {
    hide Prepared, Inv, Go, Changed;
    LoopStep(plan, s);
    var t := Go(plan, s);
    LoopStep(plan, t);
    var u := Go(plan, t);
    LoopStep(plan, u);
    assert Alone(plan, s, 3) == Alone(plan, t, 2) == Alone(plan, u, 1) == Alone(plan, Go(plan, u), 0);
  }

  /** Three steps a file, and one to find there is none left. */
  lemma {:induction false} LoopRuns(plan: Plan, s: State)
    requires Prepared(plan) && Inv(plan, s) && s.running.Some? && s.running.value.pc.StageFile?
    ensures s.running.value.pc.i <= |Changed(plan)|
    ensures var t := Alone(plan, s, 3 * (|Changed(plan)| - s.running.value.pc.i) + 1);
            && Inv(plan, t) && t.running.Some? && t.running.value.attempt == s.running.value.attempt && t.pool == s.pool
            && t.running.value.pc.ScanCandidate?
    decreases |Changed(plan)| - s.running.value.pc.i
  {
    hide Prepared, Inv, Go, Changed;
    var i := s.running.value.pc.i;
    LoopStep(plan, s);
    if i < |Changed(plan)| {
      FileReplaced(plan, s);
      AloneSplits(plan, s, 3, 3 * (|Changed(plan)| - i - 1) + 1);
      hide Alone;
      LoopRuns(plan, Alone(plan, s, 3));
    } else {
      assert Alone(plan, s, 1) == Alone(plan, Go(plan, s), 0) == Go(plan, s);
    }
  }

  /** From the last replacement on, three things can stand in the way: the read limit, the length of the receipt
      and that of the pool's file. */
  lemma LateRuns(plan: Plan, s: State)
    requires Prepared(plan) && Inv(plan, s) && s.running.Some? && s.running.value.pc.ScanCandidate?
    ensures var t := Alone(plan, s, 4);
            var ok := Settles(plan, s.pool, s.running.value.attempt);
            && Inv(plan, t) && t.running.None? && t.copy == plan.candidate
            && (t.complete.Whole? <==> ok) && (t.complete.Absent? <==> !ok)
  {
    GoKeeps(plan, s);
    var t := Go(plan, s);
    ScanStep(plan, s);
    if t.running.None? {
      StoppedStays(plan, t, 3);
      assert Alone(plan, s, 4) == Alone(plan, t, 3);
    } else {
      SettleStep(plan, t);
      GoKeeps(plan, t);
      var u := Go(plan, t);
      if u.running.None? {
        StoppedStays(plan, u, 2);
        assert Alone(plan, s, 4) == Alone(plan, t, 3) == Alone(plan, u, 2);
      } else {
        SettledRuns(plan, u);
        assert Alone(plan, s, 4) == Alone(plan, t, 3) == Alone(plan, u, 2);
      }
    }
    hide Inv, Go, HasRoom;
  }

  /** Once the pool holds the receipt the attempt completes. */
  lemma SettledRuns(plan: Plan, s: State)
    requires Prepared(plan) && Inv(plan, s) && s.running.Some? && s.running.value.pc.OpenComplete?
    ensures var t := Alone(plan, s, 2);
            Inv(plan, t) && t.running.None? && t.copy == s.copy && t.complete.Whole?
  {
    LateStep(plan, s);
    GoKeeps(plan, s);
    var t := Go(plan, s);
    LateStep(plan, t);
    GoKeeps(plan, t);
    var u := Go(plan, t);
    hide Inv, Go;
    assert Alone(plan, s, 2) == Alone(plan, t, 1) == Alone(plan, u, 0) == u;
  }

  lemma ScanStep(plan: Plan, s: State)
    requires Prepared(plan) && Inv(plan, s) && s.running.Some? && s.running.value.pc.ScanCandidate?
    ensures var t := Go(plan, s);
            && t.copy == plan.candidate && t.complete.Absent? && t.pool == s.pool
            && (PlanBytes(plan) + AllBytes(plan.base) + PayloadBytes(plan) + AllBytes(plan.candidate) <= plan.limits.read
                <==> t.running.Some?)
            && (t.running.Some? ==> t.running.value.pc.SettlePool? && t.running.value.attempt == s.running.value.attempt)
  {
    hide Prepared, Mixed, Changed, AllBytes, PayloadBytes, PathBytes, PlanBytes, JournalBytes, BytesOf;
    MixedEnds(plan, s.replaced);
  }

  lemma SettleStep(plan: Plan, s: State)
    requires Inv(plan, s) && s.running.Some? && s.running.value.pc.SettlePool?
    ensures var t := Go(plan, s);
            && t.copy == s.copy && t.complete.Absent?
            && (t.running.Some? <==> s.running.value.attempt.receiptBytes <= FINAL_RECORDS && HasRoom(s.pool))
            && (t.running.Some? ==> t.running.value.pc.OpenComplete?)
  {
    hide Prepared, Mixed, Changed, AllBytes, PayloadBytes, PathBytes, PlanBytes, JournalBytes, BytesOf, Charged, HasRoom, Published;
  }

  lemma LateStep(plan: Plan, s: State)
    requires Inv(plan, s) && s.running.Some? && (s.running.value.pc.OpenComplete? || s.running.value.pc.WriteComplete?)
    ensures var t := Go(plan, s);
            var pc := s.running.value.pc;
            && t.copy == s.copy
            && (pc.OpenComplete? ==> t.running.Some? && t.running.value.pc.WriteComplete?)
            && (pc.WriteComplete? ==> t.running.None? && t.complete.Whole?)
  {
    hide Prepared, Mixed, Changed, AllBytes, PayloadBytes, PathBytes, PlanBytes, JournalBytes, BytesOf, Charged;
  }

  /** How an attempt nothing interrupts ends, exactly. It replaces every file if its intent and the candidate
      manifest can be read, its reads fit their limit and the pool's file has room for the intent: the write,
      mutation and journal limits, checked when the plan was prepared, never stop it. It then completes if and
      only if reading the candidate back fits the read limit too, the receipt is short enough and the pool's
      file has room for it, none of which anything checks beforehand; if not, the copy is the candidate, there
      is no completion, and by NoRetry there never will be. */
  lemma UninterruptedAttempt(plan: Plan, s: State, a: Attempt)
    requires Prepared(plan) && Ready(plan, s, a)
    ensures var t := Alone(plan, s, 3 * |Changed(plan)| + 14);
            && t.running.None?
            && t.copy == (if ReachesIntent(plan, s.pool, a) then plan.candidate else plan.base)
            && (t.complete.Whole? <==> ReachesIntent(plan, s.pool, a) && Settles(plan, Published(s.pool), a))
            && (!t.complete.Whole? ==> t.complete.Absent?)
  {
    hide Inv, Alone, Prepared, Changed, ReadsFit, Settles, Mixed, Published, HasRoom;
    var n := 3 * |Changed(plan)| + 1;
    ReadyIsUnhindered(plan, s, a);
    hide Ready;
    ReadsToIntent(plan, s, a);
    var t := Alone(plan, s, 9);
    AloneSplits(plan, s, 9, n + 4);
    if ReachesIntent(plan, s.pool, a) {
      LoopRuns(plan, t);
      AloneSplits(plan, t, n, 4);
      LateRuns(plan, Alone(plan, t, n));
    } else {
      StoppedStays(plan, t, n + 4);
      UntouchedIsBase(plan, t);
    }
  }

  lemma ReadyIsUnhindered(plan: Plan, s: State, a: Attempt)
    requires Ready(plan, s, a)
    ensures Inv(plan, s) && Unhindered(s, a) && s.running.value.pc.CheckJournal?
  {
    hide Mixed, Changed;
  }

  lemma UntouchedIsBase(plan: Plan, s: State)
    requires Prepared(plan) && Inv(plan, s) && s.intent.Absent?
    ensures s.copy == plan.base && s.complete.Absent?
  {
    MixedEnds(plan, 0);
    hide Prepared, Changed, Mixed;
  }

  // --- adoptions that end short of what they set out to do ---------------------------------------------

  lemma {:induction false} AloneKeeps(plan: Plan, s: State, n: nat)
    requires Prepared(plan) && Inv(plan, s)
    ensures Inv(plan, Alone(plan, s, n))
    decreases n
  {
    hide Inv, Go, Prepared;
    if n > 0 && s.running.Some? {
      GoKeeps(plan, s);
      AloneKeeps(plan, Go(plan, s), n - 1);
    }
  }

  /** An attempt that changed the copy left its intent behind. */
  lemma Finished(plan: Plan, s: State, n: nat)
    requires Prepared(plan) && Inv(plan, s)
    requires Alone(plan, s, n).running.None? && Alone(plan, s, n).copy != plan.base
    ensures var t := Alone(plan, s, n);
            Inv(plan, t) && t.intent.Whole? && t.entry.Some? && PlanReads(plan)
  {
    AloneKeeps(plan, s, n);
    MixedEnds(plan, 0);
    hide Alone, Prepared, Changed, Mixed;
  }

  /** An attempt that reaches its intent and cannot settle: every file is replaced, and whatever happens later
      there is no completion and nobody observes the candidate. */
  lemma ReplacedNeverCompletes(plan: Plan, s: State, a: Attempt, events: seq<Event>, trusted: bool)
    requires Prepared(plan) && Ready(plan, s, a)
    requires ReachesIntent(plan, s.pool, a) && !Settles(plan, Published(s.pool), a)
    ensures var t := Alone(plan, s, 3 * |Changed(plan)| + 14);
            var u := Run(plan, t, events);
            && t.running.None? && u.copy == plan.candidate && u.complete.Absent?
            && Reconcile(plan, u, trusted) == Observation(false, CANDIDATE, Some(true))
  {
    var n := 3 * |Changed(plan)| + 14;
    hide Go, Settles, ReachesIntent, IntentLoads;
    UninterruptedAttempt(plan, s, a);
    MixedEnds(plan, 0);
    MixedEnds(plan, |Changed(plan)|);
    assert Inv(plan, s) by { hide Inv; }
    hide Inv, Alone, Prepared, Changed, Ready;
    Finished(plan, s, n);
    NoRetry(plan, Alone(plan, s, n), events);
    hide Run;
  }

  /** A reservation that was spent without an intent on disk: whatever happens later, the copy and the journal
      stay as they are. */
  lemma {:induction false} SpentReservation(plan: Plan, s: State, events: seq<Event>)
    requires s.entry.Some? && s.entry.value.intent.Some?
    requires s.running.Some? ==> s.running.value.pc.CheckJournal? || s.running.value.pc.Consume?
    ensures var t := Run(plan, s, events);
            SameRoot(s, t) && t.entry == s.entry && t.spent == s.spent
    decreases |events|
  {
    if events != [] {
      SpentStep(plan, s, events[0]);
      hide Next;
      SpentReservation(plan, Next(plan, s, events[0]), events[1..]);
    }
  }

  lemma SpentStep(plan: Plan, s: State, e: Event)
    requires s.entry.Some? && s.entry.value.intent.Some?
    requires s.running.Some? ==> s.running.value.pc.CheckJournal? || s.running.value.pc.Consume?
    ensures var t := Next(plan, s, e);
            && SameRoot(s, t) && t.entry == s.entry && t.spent == s.spent
            && (t.running.Some? ==> t.running.value.pc.CheckJournal? || t.running.value.pc.Consume?)
  {
    hide DoJournal, DoStage, DoReplace, DoSettle, ReadAnd, Changed, AllBytes, PayloadBytes, PlanBytes, JournalBytes;
  }

  /** A candidate manifest longer than the file reader takes, as padding with white space makes one: nothing
      refuses the plan when it is prepared or reserved. The attempt spends the reservation and stops, and whatever
      happens later the copy stays BASE, without an intent, and nobody can tell what it is. */
  lemma LongManifestStops(plan: Plan, s: State, a: Attempt, events: seq<Event>, trusted: bool)
    requires Prepared(plan) && Ready(plan, s, a) && HasRoom(s.pool) && a.intentBytes <= INTENT_LIMIT
    requires plan.texts.candidate > Records.MAX_BYTES
    ensures var t := Alone(plan, s, 3);
            var u := Run(plan, t, events);
            && t.running.None? && !t.live
            && u.entry.Some? && u.entry.value.intent == Some(Intent(plan, a))
            && u.copy == plan.base && u.intent.Absent? && u.complete.Absent?
            && Reconcile(plan, u, trusted) == Observation(false, UNKNOWN, None)
  {
    ThreeSteps(plan, s, a);
    hide Inv, Alone, Prepared, Changed, Ready, HasRoom, Go, Next;
    SpentReservation(plan, Alone(plan, s, 3), events);
    hide Run;
  }

  lemma ThreeSteps(plan: Plan, s: State, a: Attempt)
    requires Prepared(plan) && Ready(plan, s, a) && HasRoom(s.pool) && a.intentBytes <= INTENT_LIMIT
    requires plan.texts.candidate > Records.MAX_BYTES
    ensures var t := Alone(plan, s, 3);
            && t.running.None? && !t.live && t.entry.Some? && t.entry.value.intent == Some(Intent(plan, a))
            && t.copy == plan.base && t.intent.Absent? && t.complete.Absent?
  {
    ReadyIsUnhindered(plan, s, a);
    UntouchedIsBase(plan, s);
    hide Prepared, Changed, Mixed, Inv, HasRoom, Published, AllBytes, PayloadBytes, PlanBytes, JournalBytes;
    var t := Go(plan, s);
    var u := Go(plan, t);
    var v := Go(plan, u);
    assert t.running.value.pc.Consume?;
    assert u.running.value.pc.ReadPlan?;
    hide Go;
    assert Alone(plan, s, 3) == Alone(plan, t, 2) == Alone(plan, u, 1) == Alone(plan, v, 0);
  }

  // --- examples of each --------------------------------------------------------------------------------

  const PATH: Text := [0x61]

  /** One file of ten bytes to be replaced by one of twenty, under a read limit, with a candidate manifest of
      some length. */
  function SamplePlan(read: nat, manifest: nat): Plan
  {
    Plan(map[PATH := File(1, 10, 0)], map[PATH := File(2, 20, 0)], Resources(read, 20, 1, 4 * Records.MAX_BYTES),
         Texts(2000, 100, manifest, 500, [300, 200]))
  }

  /** The plan reserved, and an attempt begun. */
  function Begun(plan: Plan, pool: Pool, a: Attempt): State
  {
    Next(plan, Next(plan, Start(plan, pool, {}), Reserve(pool)), Begin(a))
  }

  lemma {:induction false} SortedOne(p: Text)
    ensures Sorted({p}) == [p]
  {
    var keys := Sorted({p});
    assert |keys| == 1 by { hide Sorted; assert |{p}| == 1; }
    assert keys[0] in keys;
  }

  lemma SampleTexts(read: nat, manifest: nat)
    ensures PlanBytes(SamplePlan(read, manifest)) == 2700 + manifest
    ensures JournalBytes(SamplePlan(read, manifest)) == 3100 + manifest
  {
    assert [300, 200][..1] == [300] && [300][..0] == [];
    assert Total([300]) == Total([]) + 300 && Total([300, 200]) == Total([300]) + 200;
  }

  lemma SampleCounts(read: nat, manifest: nat)
    requires manifest <= 2 * Records.MAX_BYTES
    ensures var plan := SamplePlan(read, manifest);
            && Changed(plan) == [PATH] && Prepared(plan)
            && AllBytes(plan.base) == 10 && AllBytes(plan.candidate) == 20 && PayloadBytes(plan) == 20
  {
    var plan := SamplePlan(read, manifest);
    SortedOne(PATH);
    SampleTexts(read, manifest);
    hide Sorted, PlanBytes, JournalBytes;
    assert (set p | p in plan.base && p in plan.candidate && plan.base[p] != plan.candidate[p]) == {PATH};
    assert plan.base.Keys == {PATH} && plan.candidate.Keys == {PATH};
    assert BytesOf(plan.base, [PATH], 0) == 0 && BytesOf(plan.candidate, [PATH], 0) == 0;
    assert BytesOf(plan.base, [PATH], 1) == 10 && BytesOf(plan.candidate, [PATH], 1) == 20;
  }

  lemma SampleReady(read: nat, manifest: nat, pool: Pool, a: Attempt)
    requires manifest <= 2 * Records.MAX_BYTES && pool.bytes <= Records.MAX_BYTES
    ensures var plan := SamplePlan(read, manifest);
            && Ready(plan, Begun(plan, pool, a), a) && Begun(plan, pool, a).pool == pool
            && (ReadsFit(plan, a) <==> a.intentBytes <= INTENT_LIMIT && manifest <= Records.MAX_BYTES && 2730 + manifest <= read)
            && forall p :: Settles(plan, p, a) <==> 2750 + manifest <= read && a.receiptBytes <= FINAL_RECORDS && HasRoom(p)
  {
    var plan := SamplePlan(read, manifest);
    SampleCounts(read, manifest);
    SampleTexts(read, manifest);
    BegunReady(plan, pool, a);
    hide Ready, Begun, Changed, AllBytes, PayloadBytes, Prepared, PlanBytes, JournalBytes, HasRoom;
  }

  lemma BegunReady(plan: Plan, pool: Pool, a: Attempt)
    requires Prepared(plan) && plan.texts.plan <= Records.MAX_BYTES && pool.bytes <= Records.MAX_BYTES
    ensures Ready(plan, Begun(plan, pool, a), a) && Begun(plan, pool, a).pool == pool
  {
    hide Inv, Changed, Prepared, Go;
    var s := Start(plan, pool, {});
    StartHolds(plan, pool, {});
    NextKeeps(plan, s, Reserve(pool));
    NextKeeps(plan, Next(plan, s, Reserve(pool)), Begin(a));
  }

  /** A read limit that covers plan, base and payload and not the copy read back: the plan is prepared and the
      attempt uninterrupted, every file is replaced, and there is no completion then or ever. */
  lemma ReadBackUnpaid(pool: Pool, a: Attempt, events: seq<Event>, trusted: bool)
    requires HasRoom(pool) && pool.bytes <= Records.MAX_BYTES && a.intentBytes <= INTENT_LIMIT
    ensures var plan := SamplePlan(2830, 100);
            var t := Alone(plan, Begun(plan, pool, a), 17);
            var u := Run(plan, t, events);
            && Prepared(plan) && t.running.None? && u.copy == plan.candidate && u.complete.Absent?
            && Reconcile(plan, u, trusted) == Observation(false, CANDIDATE, Some(true))
  {
    var plan := SamplePlan(2830, 100);
    SampleCounts(2830, 100);
    SampleReady(2830, 100, pool, a);
    hide Changed, Ready, Begun, Prepared, ReadsFit, Settles, Alone, Run, Reconcile, HasRoom;
    ReplacedNeverCompletes(plan, Begun(plan, pool, a), a, events, trusted);
  }

  /** A pool whose file has room for one more digest and not for two: the attempt spends its reservation, replaces
      every file and cannot settle. */
  lemma NoRoomToSettle(revision: nat, a: Attempt, events: seq<Event>, trusted: bool)
    requires revision <= 7 && a.intentBytes <= INTENT_LIMIT
    ensures var plan := SamplePlan(4000, 100);
            var t := Alone(plan, Begun(plan, Pool(Records.MAX_BYTES - 62, revision), a), 17);
            var u := Run(plan, t, events);
            && Prepared(plan) && t.running.None? && u.copy == plan.candidate && u.complete.Absent?
            && Reconcile(plan, u, trusted) == Observation(false, CANDIDATE, Some(true))
  {
    var plan := SamplePlan(4000, 100);
    var pool := Pool(Records.MAX_BYTES - 62, revision);
    assert Width(revision) == 1 && Width(revision + 1) == 1 && Width(revision + 2) == 1;
    assert HasRoom(pool) && !HasRoom(Published(pool));
    SampleCounts(4000, 100);
    SampleReady(4000, 100, pool, a);
    hide Changed, Ready, Begun, Prepared, ReadsFit, Settles, Alone, Run, Reconcile, HasRoom, Published;
    ReplacedNeverCompletes(plan, Begun(plan, pool, a), a, events, trusted);
  }

  /** A plan whose candidate manifest is one byte too long, under limits with room for it: prepared, reserved, and
      spent without a file replaced. */
  lemma PaddedManifestSpends(pool: Pool, a: Attempt, events: seq<Event>, trusted: bool)
    requires HasRoom(pool) && pool.bytes <= Records.MAX_BYTES && a.intentBytes <= INTENT_LIMIT
    ensures var plan := SamplePlan(2 * Records.MAX_BYTES, Records.MAX_BYTES + 1);
            var u := Run(plan, Alone(plan, Begun(plan, pool, a), 3), events);
            && Prepared(plan) && PlanBytes(plan) + AllBytes(plan.base) + PayloadBytes(plan) + AllBytes(plan.candidate) <= plan.limits.read
            && u.entry.Some? && u.entry.value.intent == Some(Intent(plan, a)) && u.copy == plan.base && u.intent.Absent?
            && Reconcile(plan, u, trusted) == Observation(false, UNKNOWN, None)
  {
    var (read, manifest) := (2 * Records.MAX_BYTES, Records.MAX_BYTES + 1);
    var plan := SamplePlan(read, manifest);
    SampleTexts(read, manifest);
    SampleCounts(read, manifest);
    SampleReady(read, manifest, pool, a);
    hide Changed, Ready, Begun, Prepared, ReadsFit, Settles, Alone, Run, Reconcile, HasRoom, PlanBytes, AllBytes, PayloadBytes;
    LongManifestStops(plan, Begun(plan, pool, a), a, events, trusted);
  }

  /** A snapshot that nests 64 deep, as deep as the loader takes one by itself: the adoption completes and the
      pool settles, and no observer, whoever it trusts, ever says the candidate was observed. */
  lemma DeepSnapshotUnobserved(pool: Pool, nonce: int, bytes: nat, d: Documents, receipt: nat, events: seq<Event>, trusted: bool)
    requires pool.bytes <= Records.MAX_BYTES && HasRoom(pool) && HasRoom(Published(pool))
    requires bytes <= INTENT_LIMIT && receipt <= FINAL_RECORDS && d.snapshot == Limits.Nest(64)
    ensures Reading.DepthAtMost(d.snapshot, 64)
    ensures var plan := SamplePlan(4000, 100);
            var a := Attempt(nonce, bytes, d, receipt);
            var t := Alone(plan, Begun(plan, pool, a), 17);
            var u := Run(plan, t, events);
            && u.copy == plan.candidate && u.complete.Whole? && u.entry.Some? && u.entry.value.completion == Some(u.complete.value)
            && !Reconcile(plan, u, trusted).observed
  {
    Limits.NestDepth(64, 64);
    Limits.NestDepth(64, 63);
    hide Limits.Nest, Reading.DepthAtMost;
    var plan := SamplePlan(4000, 100);
    var a := Attempt(nonce, bytes, d, receipt);
    IntentDepth(a);
    SampleCounts(4000, 100);
    hide Changed, Go, AllBytes, PayloadBytes, Begun, Prepared, IntentLoads, Inv, Alone, HasRoom, Published;
    SampleCompletes(pool, a);
    NoRetry(plan, Alone(plan, Begun(plan, pool, a), 17), events);
    hide Run;
  }

  /** With the read-back paid for and room in the pool, the attempt completes. */
  lemma SampleCompletes(pool: Pool, a: Attempt)
    requires pool.bytes <= Records.MAX_BYTES && HasRoom(pool) && HasRoom(Published(pool))
    requires a.intentBytes <= INTENT_LIMIT && a.receiptBytes <= FINAL_RECORDS
    ensures var plan := SamplePlan(4000, 100);
            var t := Alone(plan, Begun(plan, pool, a), 17);
            && t.running.None? && t.copy == plan.candidate && t.complete.Whole?
            && t.intent.Whole? && t.intent.value.attempt == a
            && t.entry.Some? && t.entry.value.completion == Some(t.complete.value)
  {
    var plan := SamplePlan(4000, 100);
    var s := Begun(plan, pool, a);
    SampleCounts(4000, 100);
    SampleReady(4000, 100, pool, a);
    hide Changed, Go, AllBytes, PayloadBytes, ReadsFit, Settles, Begun, Prepared, Alone, Inv, HasRoom, Published;
    UninterruptedAttempt(plan, s, a);
    assert plan.base != plan.candidate by { assert plan.base[PATH] != plan.candidate[PATH]; }
    Finished(plan, s, 17);
    CompleteIsTheirs(plan, Alone(plan, s, 17));
    AloneMine(plan, s, a, 17);
  }

  lemma CompleteIsTheirs(plan: Plan, s: State)
    requires Inv(plan, s) && s.complete.Whole?
    ensures s.entry.Some? && s.entry.value.completion == Some(s.complete.value)
  {
    hide Mixed, Changed;
  }

  /** The intent on disk is the attempt's own. */
  predicate Mine(s: State, a: Attempt)
  {
    && (s.running.Some? ==> s.running.value.attempt == a)
    && (s.intent.Whole? ==> s.intent.value.attempt == a)
  }

  predicate Preparing(pc: Pc)
  {
    pc.CheckJournal? || pc.Consume? || pc.ReadPlan? || pc.ScanBase? || pc.ReadPayloads? || pc.ChargeJournal? || pc.SpendNonce?
  }

  lemma GoMine(plan: Plan, s: State, a: Attempt)
    requires Mine(s, a) && s.running.Some?
    ensures Mine(Go(plan, s), a)
  {
    if Preparing(s.running.value.pc) { PreparingMine(plan, s, a); } else { WritingMine(plan, s, a); }
    hide Go;
  }

  lemma PreparingMine(plan: Plan, s: State, a: Attempt)
    requires Mine(s, a) && s.running.Some? && Preparing(s.running.value.pc)
    ensures Mine(Go(plan, s), a)
  {
    hide Changed, AllBytes, PayloadBytes, PlanBytes, JournalBytes, HasRoom, Published, ReceiptFor, PlanReads, DoConsume, DoJournal;
    DoMine(plan, s, a);
  }

  lemma WritingMine(plan: Plan, s: State, a: Attempt)
    requires Mine(s, a) && s.running.Some? && !Preparing(s.running.value.pc)
    ensures Mine(Go(plan, s), a)
  {
    var pc := s.running.value.pc;
    if pc.OpenIntent? || pc.WriteIntent? || pc.StageFile? || pc.FillStage? { StagingMine(plan, s, a); } else { SettlingMine(plan, s, a); }
    hide Go;
  }

  lemma StagingMine(plan: Plan, s: State, a: Attempt)
    requires Mine(s, a) && s.running.Some?
    requires var pc := s.running.value.pc; pc.OpenIntent? || pc.WriteIntent? || pc.StageFile? || pc.FillStage?
    ensures Mine(Go(plan, s), a)
  {
    hide Changed, AllBytes, PayloadBytes, PlanBytes, ReceiptFor, DoStage, DoReplace, DoSettle;
    DoMine(plan, s, a);
  }

  lemma SettlingMine(plan: Plan, s: State, a: Attempt)
    requires Mine(s, a) && s.running.Some?
    requires var pc := s.running.value.pc; pc.Replace? || pc.ScanCandidate? || pc.SettlePool? || pc.OpenComplete? || pc.WriteComplete?
    ensures Mine(Go(plan, s), a)
  {
    hide Changed, AllBytes, PayloadBytes, PlanBytes, ReceiptFor, DoStage, DoReplace, DoSettle;
    DoMine(plan, s, a);
  }

  lemma DoMine(plan: Plan, s: State, a: Attempt)
    requires Mine(s, a) && s.running.Some?
    ensures Mine(DoConsume(plan, s), a) && Mine(DoJournal(plan, s), a) && Mine(DoSettle(plan, s), a)
    ensures forall i: nat :: Mine(DoStage(plan, s, i), a) && Mine(DoReplace(plan, s, i), a)
  {
    hide Changed, AllBytes, PayloadBytes, PlanBytes, JournalBytes, HasRoom, Published, ReceiptFor, BytesOf, PathBytes, Mixed;
  }

  lemma {:induction false} AloneMine(plan: Plan, s: State, a: Attempt, n: nat)
    requires Mine(s, a)
    ensures Mine(Alone(plan, s, n), a)
    decreases n
  {
    hide Go;
    if n > 0 && s.running.Some? {
      GoMine(plan, s, a);
      AloneMine(plan, Go(plan, s), a, n - 1);
    }
  }
}
