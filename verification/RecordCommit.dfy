/** Committing one receipt's record: vfy/store.py put_record and the comparison a repeat makes, as steps
    of any number of concurrent writers over one filesystem, with failures and deaths at every step. */
module RecordCommit {
  import opened Wrappers
  import opened StoredTexts
  import opened Values
  import Text
  import Canon
  import opened DepthScan
  import Sizes

  datatype Name = Rulebook | Candidate | Snapshot | Authorization | Receipt

  /** What one call of put_record is given, serialised. */
  datatype Record = Record(receipt: Bytes, rulebook: Bytes, candidate: Bytes, snapshot: Bytes, authorization: Option<Bytes>)

  function BodyCount(r: Record): nat
  {
    if r.authorization.Some? then 4 else 3
  }

  /** The names in the order they are written: the bodies, then the receipt. */
  function NameAt(r: Record, i: nat): Name
  {
    if i == 0 then Rulebook
    else if i == 1 then Candidate
    else if i == 2 then Snapshot
    else if i == 3 && r.authorization.Some? then Authorization
    else Receipt
  }

  /** When a name is written; an authorization there is not comes after everything. */
  function Position(r: Record, n: Name): nat
  {
    match n
    case Rulebook => 0
    case Candidate => 1
    case Snapshot => 2
    case Authorization => if r.authorization.Some? then 3 else 5
    case Receipt => BodyCount(r)
  }

  function Written(r: Record, n: Name): Bytes
  {
    match n
    case Rulebook => r.rulebook
    case Candidate => r.candidate
    case Snapshot => r.snapshot
    case Authorization => if r.authorization.Some? then r.authorization.value else []
    case Receipt => r.receipt
  }

  datatype Outcome =
    | StagingTaken | CommitFailed | Mismatch | InputsExist | ReceiptConflict | BodyConflict | Incomplete | TooLarge | Unloadable | Returned

  /** Where a writer is. `d` is the directory it made, `f` the file it has open. */
  datatype Pc =
    | Starting
    | Making
    | Opening(d: nat, i: nat)
    | Writing(d: nat, i: nat, f: nat, written: nat)
    | Checking(d: nat, i: nat)
    | CheckInputs(d: nat)
    | RenameReceipt(d: nat)
    | RenameInputs(d: nat)
    | Publish(d: nat)
    | ComparingReceipt
    | Comparing(i: nat)
    | Loading
    | Done(outcome: Outcome)
    | Dead

  datatype Writer = Writer(record: Record, pc: Pc)

  /** Where the name of a file is. */
  datatype Home = InDir(d: nat, n: Name) | AsStaged | AsReceipt | Nowhere

  /** The four names of one receipt id, the directories and files behind them, and the writers.
      `demands` are the receipts that name an authorization. `home`, `committer` and `stored` are
      history: the place of each file, who passed the last check, and the record committed. */
  datatype State = State(
    staging: Option<nat>, inputs: Option<nat>, staged: Option<nat>, receipt: Option<nat>,
    dirs: map<nat, map<Name, nat>>, files: map<nat, Bytes>, next: nat,
    writers: seq<Writer>, demands: set<Bytes>,
    home: map<nat, Home>, committer: Option<nat>, stored: Option<Record>)

  datatype Choice = Proceed(extra: nat) | Fails | Dies

  function At(s: State, p: nat, pc: Pc): (t: State)
    requires p < |s.writers|
    ensures |t.writers| == |s.writers| && t.stored == s.stored && t.committer == s.committer
  {
    s.(writers := s.writers[p := s.writers[p].(pc := pc)])
  }

  // --- one step of one writer --------------------------------------------------------------------------

  function Make(s: State, p: nat): (t: State)
    requires p < |s.writers|
    ensures |t.writers| == |s.writers| && t.stored == s.stored && t.committer == s.committer
  {
    if s.staging.Some? then At(s, p, Done(StagingTaken))
    else At(s.(staging := Some(s.next), dirs := s.dirs[s.next := map[]], next := s.next + 1), p, Opening(s.next, 0))
  }

  /** Open a body, or the receipt, for writing: by path, truncating what is there. */
  function Open(s: State, p: nat): (t: State)
    requires p < |s.writers| && s.writers[p].pc.Opening?
    ensures |t.writers| == |s.writers| && t.stored == s.stored && t.committer == s.committer
  {
    var w := s.writers[p];
    var (d, i) := (w.pc.d, w.pc.i);
    if s.staging.None? || s.staging.value !in s.dirs || w.pc.i > BodyCount(w.record) then At(s, p, Done(CommitFailed))
    else
      var dir, n := s.dirs[s.staging.value], NameAt(w.record, i);
      if n in dir then At(s.(files := s.files[dir[n] := []]), p, Writing(d, i, dir[n], 0))
      else
        var grown: map<Name, nat> := dir[n := s.next];
        At(s.(dirs := s.dirs[s.staging.value := grown], files := s.files[s.next := []],
              home := s.home[s.next := InDir(s.staging.value, n)], next := s.next + 1),
           p, Writing(d, i, s.next, 0))
  }

  function Write(s: State, p: nat, extra: nat): (t: State)
    requires p < |s.writers| && s.writers[p].pc.Writing?
    ensures |t.writers| == |s.writers| && t.stored == s.stored && t.committer == s.committer
  {
    var w := s.writers[p];
    var (d, i, f, done) := (w.pc.d, w.pc.i, w.pc.f, w.pc.written);
    var text := Written(w.record, NameAt(w.record, i));
    if done >= |text| then At(s, p, if i < BodyCount(w.record) then Opening(d, i + 1) else Checking(d, 0))
    else
      var upto := if done + 1 + extra < |text| then done + 1 + extra else |text|;
      At(s.(files := s.files[f := text[..upto]]), p, Writing(d, i, f, upto))
  }

  /** The bytes of a name in a directory, if it is there. */
  function Lookup(s: State, dir: Option<nat>, n: Name): Option<Bytes>
  {
    if dir.Some? && dir.value in s.dirs && n in s.dirs[dir.value] && s.dirs[dir.value][n] in s.files
    then Some(s.files[s.dirs[dir.value][n]]) else None
  }

  /** Read a staged body back. */
  function Check(s: State, p: nat): (t: State)
    requires p < |s.writers| && s.writers[p].pc.Checking?
    ensures |t.writers| == |s.writers| && t.stored == s.stored && t.committer == s.committer
  {
    var w := s.writers[p];
    var (d, i) := (w.pc.d, w.pc.i);
    if i >= BodyCount(w.record) then At(s, p, CheckInputs(d))
    else if Lookup(s, s.staging, NameAt(w.record, i)) != Some(Written(w.record, NameAt(w.record, i)))
    then At(s, p, Done(Mismatch))
    else At(s, p, Checking(d, i + 1))
  }

  function PassInputs(s: State, p: nat): (t: State)
    requires p < |s.writers| && s.writers[p].pc.CheckInputs?
    ensures |t.writers| == |s.writers| && t.stored == s.stored
  {
    if s.inputs.Some? then At(s, p, Done(InputsExist))
    else At(s.(committer := Some(p)), p, RenameReceipt(s.writers[p].pc.d))
  }

  /** Move the staged receipt out of the staging directory, over whatever had that name. */
  function MoveReceipt(s: State, p: nat): (t: State)
    requires p < |s.writers| && s.writers[p].pc.RenameReceipt?
    ensures |t.writers| == |s.writers| && t.stored == s.stored && t.committer == s.committer
  {
    if s.staging.None? || s.staging.value !in s.dirs || Receipt !in s.dirs[s.staging.value] then At(s, p, Done(CommitFailed))
    else
      var dir := s.dirs[s.staging.value];
      var home := if s.staged.Some? then s.home[s.staged.value := Nowhere] else s.home;
      At(s.(dirs := s.dirs[s.staging.value := dir - {Receipt}], staged := Some(dir[Receipt]), home := home[dir[Receipt] := AsStaged]),
         p, RenameInputs(s.writers[p].pc.d))
  }

  /** Rename the staging directory: over nothing, or over an empty directory. */
  function MoveInputs(s: State, p: nat): (t: State)
    requires p < |s.writers| && s.writers[p].pc.RenameInputs?
    ensures |t.writers| == |s.writers| && t.stored == s.stored && t.committer == s.committer
  {
    if s.staging.None? || (s.inputs.Some? && s.inputs.value in s.dirs && s.dirs[s.inputs.value] != map[])
    then At(s, p, Done(CommitFailed))
    else At(s.(inputs := s.staging, staging := None), p, Publish(s.writers[p].pc.d))
  }

  /** The commit point. */
  function MoveFinal(s: State, p: nat): (t: State)
    requires p < |s.writers| && s.writers[p].pc.Publish?
    ensures |t.writers| == |s.writers| && t.committer == s.committer
  {
    if s.staged.None? then At(s, p, Done(CommitFailed))
    else
      var home := if s.receipt.Some? then s.home[s.receipt.value := Nowhere] else s.home;
      At(s.(receipt := s.staged, staged := None, home := home[s.staged.value := AsReceipt], stored := Some(s.writers[p].record)),
         p, Loading)
  }

  /** A receipt is already there: the same bytes, and each body given the same as the one stored, or
      a refusal. Each file is first read, up to the bound of every reader. */
  function CompareReceipt(s: State, p: nat): (t: State)
    requires p < |s.writers|
    ensures |t.writers| == |s.writers| && t.stored == s.stored && t.committer == s.committer
  {
    if s.receipt.None? || s.receipt.value !in s.files then At(s, p, Done(Incomplete))
    else if |s.files[s.receipt.value]| > MAX_RECEIPT_BYTES then At(s, p, Done(TooLarge))
    else if s.files[s.receipt.value] != s.writers[p].record.receipt then At(s, p, Done(ReceiptConflict))
    else At(s, p, Comparing(0))
  }

  function Compare(s: State, p: nat): (t: State)
    requires p < |s.writers| && s.writers[p].pc.Comparing?
    ensures |t.writers| == |s.writers| && t.stored == s.stored && t.committer == s.committer
  {
    var w := s.writers[p];
    var i := w.pc.i;
    if i >= BodyCount(w.record) then At(s, p, Loading)
    else
      var stored := Lookup(s, s.inputs, NameAt(w.record, i));
      if stored.None? then At(s, p, Done(Incomplete))
      else if |stored.value| > MAX_RECEIPT_BYTES then At(s, p, Done(TooLarge))
      else if stored.value != Written(w.record, NameAt(w.record, i)) then At(s, p, Done(BodyConflict))
      else At(s, p, Comparing(i + 1))
  }

  /** The stored file is there and can be read and loaded. */
  ghost predicate Taken(s: State, n: Name)
  {
    Lookup(s, s.inputs, n).Some? && Loadable(Lookup(s, s.inputs, n).value)
  }

  /** What get_record demands of the stored artifacts: a receipt and three bodies that load, and an
      authorization, which loads too, exactly when the receipt names one. */
  ghost predicate Loads(s: State)
  {
    && s.receipt.Some? && s.receipt.value in s.files && Loadable(s.files[s.receipt.value])
    && Taken(s, Rulebook) && Taken(s, Candidate) && Taken(s, Snapshot)
    && (if s.files[s.receipt.value] in s.demands then Taken(s, Authorization) else Lookup(s, s.inputs, Authorization).None?)
  }

  ghost function Next(s: State, p: nat, choice: Choice): (t: State)
    requires p < |s.writers|
    ensures |t.writers| == |s.writers|
  {
    var pc := s.writers[p].pc;
    if pc.Done? || pc.Dead? then s
    else if choice.Dies? then At(s, p, Dead)
    else if choice.Fails? then At(s, p, Done(CommitFailed))
    else
      match pc
      case Starting => At(s, p, if s.receipt.Some? then ComparingReceipt else Making)
      case Making => Make(s, p)
      case Opening(_, _) => Open(s, p)
      case Writing(_, _, _, _) => Write(s, p, choice.extra)
      case Checking(_, _) => Check(s, p)
      case CheckInputs(_) => PassInputs(s, p)
      case RenameReceipt(_) => MoveReceipt(s, p)
      case RenameInputs(_) => MoveInputs(s, p)
      case Publish(_) => MoveFinal(s, p)
      case ComparingReceipt => CompareReceipt(s, p)
      case Comparing(_) => Compare(s, p)
      case Loading => At(s, p, Done(if Loads(s) then Returned else Unloadable))
  }

  // --- what every reachable state keeps ----------------------------------------------------------------

  predicate Owns(pc: Pc)
  {
    pc.Opening? || pc.Writing? || pc.Checking? || pc.CheckInputs? || pc.RenameReceipt? || pc.RenameInputs?
  }

  predicate Committing(pc: Pc)
  {
    pc.RenameReceipt? || pc.RenameInputs? || pc.Publish?
  }

  /** Directory `d` holds exactly the first `k` names of a record, each with the record's bytes. */
  predicate DirHolds(s: State, d: nat, r: Record, k: nat)
  {
    && d in s.dirs
    && (forall n :: n in s.dirs[d] <==> Position(r, n) < k)
    && (forall n :: n in s.dirs[d] ==> s.dirs[d][n] in s.files && s.files[s.dirs[d][n]] == Written(r, n))
  }

  predicate FileHolds(s: State, f: Option<nat>, bytes: Bytes)
  {
    f.Some? && f.value in s.files && s.files[f.value] == bytes
  }

  /** No file has two names, and everything named exists. */
  ghost predicate HomesOk(s: State)
  {
    && (forall d :: d in s.dirs ==> d < s.next)
    && (forall f :: f in s.files ==> f < s.next)
    && (forall d, n :: d in s.dirs && n in s.dirs[d] ==>
          s.dirs[d][n] in s.files && s.dirs[d][n] in s.home && s.home[s.dirs[d][n]] == InDir(d, n))
    && (s.staged.Some? ==> s.staged.value in s.files && s.staged.value in s.home && s.home[s.staged.value] == AsStaged)
    && (s.receipt.Some? ==> s.receipt.value in s.files && s.receipt.value in s.home && s.home[s.receipt.value] == AsReceipt)
    && (s.staging.Some? ==> s.staging.value in s.dirs)
    && (s.inputs.Some? ==> s.inputs.value in s.dirs)
    && (s.staging.Some? && s.inputs.Some? ==> s.staging != s.inputs)
  }

  /** How far the owner of the staging directory has got. */
  predicate ProgressOk(s: State, w: Writer)
  {
    var r, pc := w.record, w.pc;
    match pc
    case Opening(d, i) => i <= BodyCount(r) && DirHolds(s, d, r, i)
    case Writing(d, i, f, done) =>
      && i <= BodyCount(r) && done <= |Written(r, NameAt(r, i))|
      && d in s.dirs && NameAt(r, i) in s.dirs[d] && s.dirs[d][NameAt(r, i)] == f
      && f in s.files && s.files[f] == Written(r, NameAt(r, i))[..done]
      && (forall n :: n in s.dirs[d] <==> Position(r, n) <= i)
      && (forall n :: n in s.dirs[d] && Position(r, n) < i ==> s.dirs[d][n] in s.files && s.files[s.dirs[d][n]] == Written(r, n))
    case Checking(d, _) => DirHolds(s, d, r, BodyCount(r) + 1)
    case CheckInputs(d) => DirHolds(s, d, r, BodyCount(r) + 1)
    case RenameReceipt(d) => DirHolds(s, d, r, BodyCount(r) + 1)
    case RenameInputs(d) => DirHolds(s, d, r, BodyCount(r)) && FileHolds(s, s.staged, r.receipt)
    case Publish(d) => s.inputs == Some(d) && DirHolds(s, d, r, BodyCount(r)) && FileHolds(s, s.staged, r.receipt)
    case _ => true
  }

  ghost predicate WriterOk(s: State, p: nat)
    requires p < |s.writers|
  {
    var w := s.writers[p];
    && ProgressOk(s, w)
    && (Owns(w.pc) ==> s.staging == Some(w.pc.d))
    && (Committing(w.pc) ==> s.committer == Some(p) && s.receipt.None?)
    && (w.pc.RenameReceipt? || w.pc.RenameInputs? ==> s.inputs.None?)
    && (w.pc.ComparingReceipt? || w.pc.Comparing? || w.pc.Loading? ==> s.receipt.Some?)
    && (w.pc.Comparing? || w.pc.Loading? ==> s.stored.Some? && Agrees(w.record, s.stored.value, if w.pc.Comparing? then w.pc.i else 4))
    && (w.pc.Done? ==> OutcomeOk(s, w.record, w.pc.outcome))
  }

  /** The receipt, and the first `k` bodies given, are those stored. */
  predicate Agrees(r: Record, stored: Record, k: nat)
  {
    && r.receipt == stored.receipt
    && forall n :: Position(r, n) < k && Position(r, n) < BodyCount(r) ==>
         Position(stored, n) < BodyCount(stored) && Written(r, n) == Written(stored, n)
  }

  /** The record has an authorization exactly when its receipt names one. */
  predicate Consistent(s: State, r: Record)
  {
    r.authorization.Some? <==> r.receipt in s.demands
  }

  /** Every text of the record can be read back and loaded. */
  ghost predicate AllLoadable(r: Record)
  {
    forall n :: Position(r, n) <= BodyCount(r) ==> Loadable(Written(r, n))
  }

  /** What a stored record must be for its readers to get it. */
  ghost predicate Sound(s: State, r: Record)
  {
    Consistent(s, r) && AllLoadable(r)
  }

  /** Some text of the record is longer than any reader of the store will take. */
  predicate Oversized(r: Record)
  {
    exists n :: Position(r, n) <= BodyCount(r) && |Written(r, n)| > MAX_RECEIPT_BYTES
  }

  ghost predicate OutcomeOk(s: State, r: Record, o: Outcome)
  {
    match o
    case Returned => s.stored.Some? && Agrees(r, s.stored.value, 4) && Sound(s, s.stored.value)
    case Unloadable => s.stored.Some? && Agrees(r, s.stored.value, 4) && !Sound(s, s.stored.value)
    case TooLarge => s.stored.Some? && Oversized(s.stored.value)
    case ReceiptConflict => s.stored.Some? && r.receipt != s.stored.value.receipt
    case BodyConflict => s.stored.Some? && r.receipt == s.stored.value.receipt && !Agrees(r, s.stored.value, 4)
    case Incomplete => s.stored.Some? && r.receipt == s.stored.value.receipt && !Agrees(r, s.stored.value, 4)
    case Mismatch => false
    case _ => true
  }

  /** A visible receipt, with exactly its record's bodies beside it. */
  predicate StoredOk(s: State)
  {
    && (s.receipt.Some? <==> s.stored.Some?)
    && (s.stored.Some? ==>
          && FileHolds(s, s.receipt, s.stored.value.receipt)
          && s.inputs.Some? && DirHolds(s, s.inputs.value, s.stored.value, BodyCount(s.stored.value)))
  }

  /** Once a writer has passed the last check no other can: the staging name stays taken until the
      inputs are there, and then they are there for good. */
  predicate CommitterOk(s: State)
  {
    s.committer.Some? ==>
      s.inputs.Some? || (s.staging.Some? && forall q :: 0 <= q < |s.writers| && Some(q) != s.committer ==> !Owns(s.writers[q].pc))
  }

  /** The staging directory has at most one owner. */
  predicate SoleOwner(s: State)
  {
    forall p, q :: 0 <= p < |s.writers| && 0 <= q < |s.writers| && p != q ==> !(Owns(s.writers[p].pc) && Owns(s.writers[q].pc))
  }

  ghost predicate Inv(s: State)
  {
    && HomesOk(s) && StoredOk(s) && CommitterOk(s)
    && (forall p :: 0 <= p < |s.writers| ==> WriterOk(s, p))
    && SoleOwner(s)
  }

  // --- steps that only move a program counter ----------------------------------------------------------

  /** What the rest of the store and the other writers can see of a step is unchanged, apart from the
      staging directory of the writer that took it. */
  ghost predicate Framed(s: State, t: State, p: nat)
    requires p < |s.writers| && |t.writers| == |s.writers|
  {
    && t.demands == s.demands
    && t.writers[p].record == s.writers[p].record
    && (forall q :: 0 <= q < |s.writers| && q != p ==> t.writers[q] == s.writers[q])
    && (s.stored.Some? ==> t.stored == s.stored && t.receipt == s.receipt && t.inputs == s.inputs)
    && (s.receipt.Some? ==> t.receipt == s.receipt)
  }

  /** What a step of writer `p` must leave behind. */
  ghost predicate Kept(s: State, t: State, p: nat)
    requires p < |s.writers|
  {
    |t.writers| == |s.writers| && Inv(t) && Framed(s, t, p)
  }

  /** A step that moves only its own program counter. */
  lemma AtKeeps(s: State, p: nat, pc: Pc)
    requires Inv(s) && p < |s.writers| && WriterOk(At(s, p, pc), p)
    requires Owns(pc) ==> Owns(s.writers[p].pc)
    ensures Kept(s, At(s, p, pc), p)
  {
    var t := At(s, p, pc);
    forall q | 0 <= q < |s.writers| ensures WriterOk(t, q) {
      if q != p { OtherKeeps(s, t, q); }
    }
    assert StoredOk(t) && HomesOk(t);
    hide HomesOk, StoredOk, WriterOk;
    assert SoleOwner(t);
  }

  /** A writer not taking part in a step that changes no file and no name. */
  lemma OtherKeeps(s: State, t: State, q: nat)
    requires q < |s.writers| && |t.writers| == |s.writers| && t.writers[q] == s.writers[q] && WriterOk(s, q)
    requires t == s.(writers := t.writers)
    ensures WriterOk(t, q)
  {
  }

  // --- steps inside the staging directory --------------------------------------------------------------

  /** Nothing outside the staging directory changes. */
  ghost predicate Staged(s: State, t: State)
  {
    && t.inputs == s.inputs && t.staged == s.staged && t.receipt == s.receipt && t.stored == s.stored
    && t.committer == s.committer && t.demands == s.demands
    && (forall d :: d in s.dirs && Some(d) != s.staging ==> d in t.dirs && t.dirs[d] == s.dirs[d])
    && (forall f :: f in s.files && f in s.home && !(s.home[f].InDir? && Some(s.home[f].d) == s.staging) ==>
          f in t.files && t.files[f] == s.files[f])
  }

  lemma OutsideDirKept(s: State, t: State, d: nat, r: Record, k: nat)
    requires HomesOk(s) && Staged(s, t) && DirHolds(s, d, r, k) && Some(d) != s.staging
    ensures DirHolds(t, d, r, k)
  {
  }

  lemma OutsiderKeeps(s: State, t: State, q: nat)
    requires q < |s.writers| && |t.writers| == |s.writers| && t.writers[q] == s.writers[q]
    requires HomesOk(s) && Staged(s, t) && WriterOk(s, q) && !Owns(s.writers[q].pc)
    ensures WriterOk(t, q)
  {
    var w := s.writers[q];
    if w.pc.Publish? { OutsideDirKept(s, t, w.pc.d, w.record, BodyCount(w.record)); }
    hide DirHolds, Agrees;
  }

  /** What a step in the staging directory still has to show. */
  lemma StagedKeeps(s: State, t: State, p: nat)
    requires Inv(s) && p < |s.writers| && |t.writers| == |s.writers| && t.writers[p].record == s.writers[p].record
    requires forall q :: 0 <= q < |s.writers| && q != p ==> t.writers[q] == s.writers[q]
    requires Staged(s, t) && HomesOk(t) && WriterOk(t, p) && t.staging.Some?
    requires Owns(s.writers[p].pc) || s.staging.None?
    ensures Kept(s, t, p)
  {
    assert WriterOk(s, p);
    forall q | 0 <= q < |s.writers| && q != p ensures !Owns(s.writers[q].pc) {
      assert WriterOk(s, q);
    }
    forall q | 0 <= q < |s.writers| ensures WriterOk(t, q) {
      if q != p {
        assert WriterOk(s, q);
        OutsiderKeeps(s, t, q);
      }
    }
    assert StoredOk(t) by {
      if s.stored.Some? { OutsideDirKept(s, t, s.inputs.value, s.stored.value, BodyCount(s.stored.value)); }
    }
    hide WriterOk, HomesOk, StoredOk, Staged;
    assert SoleOwner(t) && CommitterOk(t);
  }

  lemma MakeKeeps(s: State, p: nat)
    requires Inv(s) && p < |s.writers| && s.writers[p].pc.Making?
    ensures Kept(s, Make(s, p), p)
  {
    assert WriterOk(s, p);
    if s.staging.Some? {
      AtKeeps(s, p, Done(StagingTaken));
    } else {
      MadeOk(s, p);
      hide WriterOk, HomesOk, StoredOk, CommitterOk, SoleOwner, Staged;
      StagedKeeps(s, Make(s, p), p);
    }
  }

  lemma MadeOk(s: State, p: nat)
    requires p < |s.writers| && HomesOk(s) && WriterOk(s, p) && s.writers[p].pc.Making? && s.staging.None?
    ensures HomesOk(Make(s, p)) && Staged(s, Make(s, p)) && WriterOk(Make(s, p), p)
  {
    hide Agrees, Written, NameAt, OutcomeOk;
  }

  /** The name written at `i` is in its place, and is the only one there. */
  lemma NamesInOrder(r: Record, i: nat)
    requires i <= BodyCount(r)
    ensures forall n :: Position(r, n) == i <==> n == NameAt(r, i)
    ensures forall n :: Position(r, n) == BodyCount(r) <==> n == Receipt
  {
  }

  /** A fresh file under a new name of the staging directory. */
  lemma OpenedHomes(s: State, p: nat)
    requires HomesOk(s) && p < |s.writers| && s.writers[p].pc.Opening? && s.staging == Some(s.writers[p].pc.d)
    requires s.writers[p].pc.i <= BodyCount(s.writers[p].record)
    requires NameAt(s.writers[p].record, s.writers[p].pc.i) !in s.dirs[s.staging.value]
    ensures HomesOk(Open(s, p)) && Staged(s, Open(s, p)) && Open(s, p).staging == s.staging
  {
    hide NameAt, Written;
    assert s.next !in s.files;
  }

  lemma OpenedProgress(s: State, p: nat)
    requires HomesOk(s) && p < |s.writers| && s.writers[p].pc.Opening? && s.staging == Some(s.writers[p].pc.d)
    requires ProgressOk(s, s.writers[p])
    ensures NameAt(s.writers[p].record, s.writers[p].pc.i) !in s.dirs[s.staging.value]
    ensures ProgressOk(Open(s, p), Open(s, p).writers[p])
  {
    NamesInOrder(s.writers[p].record, s.writers[p].pc.i);
    hide NameAt, Written, Position;
    assert s.next !in s.files;
  }

  lemma OpenKeeps(s: State, p: nat)
    requires Inv(s) && p < |s.writers| && s.writers[p].pc.Opening?
    ensures Kept(s, Open(s, p), p)
  {
    assert WriterOk(s, p);
    OpenedProgress(s, p);
    OpenedHomes(s, p);
    hide HomesOk, StoredOk, CommitterOk, ProgressOk, Staged, Agrees, SoleOwner;
    StagedKeeps(s, Open(s, p), p);
  }

  lemma WrittenHomes(s: State, p: nat, extra: nat)
    requires HomesOk(s) && p < |s.writers| && s.writers[p].pc.Writing? && s.staging == Some(s.writers[p].pc.d)
    requires ProgressOk(s, s.writers[p])
    ensures HomesOk(Write(s, p, extra)) && Staged(s, Write(s, p, extra)) && Write(s, p, extra).staging == s.staging
    ensures Write(s, p, extra) == s.(files := Write(s, p, extra).files, writers := Write(s, p, extra).writers)
  {
    hide NameAt, Written, Position;
  }

  lemma WrittenProgress(s: State, p: nat, extra: nat)
    requires HomesOk(s) && p < |s.writers| && s.writers[p].pc.Writing? && s.staging == Some(s.writers[p].pc.d)
    requires ProgressOk(s, s.writers[p])
    ensures ProgressOk(Write(s, p, extra), Write(s, p, extra).writers[p])
  {
    var w := s.writers[p];
    var (d, i, f, done) := (w.pc.d, w.pc.i, w.pc.f, w.pc.written);
    NamesInOrder(w.record, i);
    hide NameAt, Written, Position;
    var text := Written(w.record, NameAt(w.record, i));
    if done >= |text| {
      assert text[..done] == text;
      assert DirHolds(s, d, w.record, i + 1);
    } else {
      forall n | n in s.dirs[d] && Position(w.record, n) < i ensures s.dirs[d][n] != f {
        assert s.home[s.dirs[d][n]] == InDir(d, n);
      }
    }
  }

  lemma WriteKeeps(s: State, p: nat, extra: nat)
    requires Inv(s) && p < |s.writers| && s.writers[p].pc.Writing?
    ensures Kept(s, Write(s, p, extra), p)
  {
    assert WriterOk(s, p);
    WrittenHomes(s, p, extra);
    WrittenProgress(s, p, extra);
    hide HomesOk, StoredOk, CommitterOk, ProgressOk, Staged, Agrees, SoleOwner, Written, NameAt;
    StagedKeeps(s, Write(s, p, extra), p);
  }

  /** A body read back from the staging directory is the one written there. */
  lemma CheckKeeps(s: State, p: nat)
    requires Inv(s) && p < |s.writers| && s.writers[p].pc.Checking?
    ensures Kept(s, Check(s, p), p)
  {
    var w := s.writers[p];
    assert WriterOk(s, p);
    if w.pc.i < BodyCount(w.record) {
      NamesInOrder(w.record, w.pc.i);
      assert Lookup(s, s.staging, NameAt(w.record, w.pc.i)) == Some(Written(w.record, NameAt(w.record, w.pc.i)));
    }
    hide Written, NameAt, HomesOk, StoredOk, Agrees, DirHolds;
    AtKeeps(s, p, Check(s, p).writers[p].pc);
  }

  // --- the commit --------------------------------------------------------------------------------------

  /** A writer that is neither in the staging directory nor committing sees only the stored record. */
  lemma IdleKeeps(s: State, t: State, q: nat)
    requires q < |s.writers| && |t.writers| == |s.writers| && t.writers[q] == s.writers[q] && WriterOk(s, q)
    requires !Owns(s.writers[q].pc) && !Committing(s.writers[q].pc)
    requires t.demands == s.demands && (s.stored.Some? ==> t.stored == s.stored) && (s.receipt.Some? ==> t.receipt.Some?)
    ensures WriterOk(t, q)
  {
    hide Agrees;
  }

  lemma PassInputsKeeps(s: State, p: nat)
    requires Inv(s) && p < |s.writers| && s.writers[p].pc.CheckInputs?
    ensures Kept(s, PassInputs(s, p), p)
  {
    var t := PassInputs(s, p);
    assert WriterOk(s, p);
    hide DirHolds, FileHolds, Agrees, HomesOk;
    if s.inputs.Some? {
      AtKeeps(s, p, Done(InputsExist));
    } else {
      assert HomesOk(t) by { HomesByNames(s, t); }
      forall q | 0 <= q < |s.writers| ensures WriterOk(t, q) {
        assert WriterOk(s, q);
        if q != p { IdleKeeps(s, t, q); } else { ProgressByFiles(s, t, s.writers[p].record, s.writers[p].pc.d, BodyCount(s.writers[p].record) + 1); }
      }
    }
  }

  lemma HomesByNames(s: State, t: State)
    requires HomesOk(s) && t == s.(writers := t.writers, committer := t.committer)
    ensures HomesOk(t)
  {
  }

  lemma ProgressByFiles(s: State, t: State, r: Record, d: nat, k: nat)
    requires DirHolds(s, d, r, k) && t.dirs == s.dirs && t.files == s.files
    ensures DirHolds(t, d, r, k)
  {
  }

  lemma MovedReceiptHomes(s: State, p: nat)
    requires HomesOk(s) && p < |s.writers| && s.writers[p].pc.RenameReceipt?
    requires s.staging == Some(s.writers[p].pc.d) && DirHolds(s, s.writers[p].pc.d, s.writers[p].record, BodyCount(s.writers[p].record) + 1)
    ensures var t := MoveReceipt(s, p);
            && HomesOk(t) && DirHolds(t, s.writers[p].pc.d, s.writers[p].record, BodyCount(s.writers[p].record))
            && FileHolds(t, t.staged, s.writers[p].record.receipt) && t.writers[p].pc == RenameInputs(s.writers[p].pc.d)
  {
    NamesInOrder(s.writers[p].record, BodyCount(s.writers[p].record));
    hide NameAt;
  }

  lemma MoveReceiptKeeps(s: State, p: nat)
    requires Inv(s) && p < |s.writers| && s.writers[p].pc.RenameReceipt?
    ensures Kept(s, MoveReceipt(s, p), p)
  {
    var t := MoveReceipt(s, p);
    assert WriterOk(s, p);
    MovedReceiptHomes(s, p);
    hide DirHolds, FileHolds, Agrees, HomesOk;
    forall q | 0 <= q < |s.writers| ensures WriterOk(t, q) {
      assert WriterOk(s, q);
      if q != p { IdleKeeps(s, t, q); }
    }
  }

  lemma MoveInputsKeeps(s: State, p: nat)
    requires Inv(s) && p < |s.writers| && s.writers[p].pc.RenameInputs?
    ensures Kept(s, MoveInputs(s, p), p)
  {
    var t := MoveInputs(s, p);
    assert WriterOk(s, p);
    ProgressByFiles(s, t, s.writers[p].record, s.writers[p].pc.d, BodyCount(s.writers[p].record));
    assert HomesOk(t) && FileHolds(t, t.staged, s.writers[p].record.receipt);
    hide DirHolds, FileHolds, Agrees, HomesOk;
    forall q | 0 <= q < |s.writers| ensures WriterOk(t, q) {
      assert WriterOk(s, q);
      if q != p { IdleKeeps(s, t, q); }
    }
  }

  /** The commit point: from here the store holds exactly this writer's record. */
  lemma MoveFinalKeeps(s: State, p: nat)
    requires Inv(s) && p < |s.writers| && s.writers[p].pc.Publish?
    ensures Kept(s, MoveFinal(s, p), p)
    ensures MoveFinal(s, p).stored == Some(s.writers[p].record) && s.stored.None?
  {
    var t, w := MoveFinal(s, p), s.writers[p];
    assert WriterOk(s, p);
    ProgressByFiles(s, t, w.record, w.pc.d, BodyCount(w.record));
    assert HomesOk(t) && FileHolds(t, t.receipt, w.record.receipt);
    forall q | 0 <= q < |s.writers| ensures WriterOk(t, q) {
      assert WriterOk(s, q);
      if q != p { BystanderKeeps(s, t, q); }
    }
    hide DirHolds, FileHolds, HomesOk;
  }

  /** A writer still in the staging directory when another's record is published. */
  lemma BystanderKeeps(s: State, t: State, q: nat)
    requires q < |s.writers| && |t.writers| == |s.writers| && t.writers[q] == s.writers[q] && WriterOk(s, q)
    requires !Committing(s.writers[q].pc) && s.stored.None? && s.receipt.None?
    requires t.dirs == s.dirs && t.files == s.files && t.staging == s.staging && t.inputs == s.inputs && t.demands == s.demands
    ensures WriterOk(t, q)
  {
    hide Agrees, Written, NameAt;
  }

  // --- a repeat ----------------------------------------------------------------------------------------

  /** What is stored under a body's name is the stored record's body, if it has that one. */
  lemma StoredLookup(s: State, n: Name)
    requires StoredOk(s) && s.stored.Some? && n != Receipt
    ensures Lookup(s, s.inputs, n)
         == if Position(s.stored.value, n) < BodyCount(s.stored.value) then Some(Written(s.stored.value, n)) else None
  {
  }

  lemma TextTooLarge(r: Record, n: Name)
    requires Position(r, n) <= BodyCount(r) && |Written(r, n)| > MAX_RECEIPT_BYTES
    ensures Oversized(r)
  {
  }

  lemma CompareReceiptKeeps(s: State, p: nat)
    requires Inv(s) && p < |s.writers| && s.writers[p].pc.ComparingReceipt?
    ensures Kept(s, CompareReceipt(s, p), p)
  {
    assert WriterOk(s, p);
    if |s.stored.value.receipt| > MAX_RECEIPT_BYTES { TextTooLarge(s.stored.value, Receipt); }
    hide Written, NameAt, HomesOk, DirHolds, Lookup, Oversized;
    AtKeeps(s, p, CompareReceipt(s, p).writers[p].pc);
  }

  lemma ComparedText(s: State, p: nat)
    requires StoredOk(s) && p < |s.writers| && s.writers[p].pc.Comparing? && WriterOk(s, p)
    requires s.writers[p].pc.i < BodyCount(s.writers[p].record)
    ensures WriterOk(Compare(s, p), p) && !Owns(Compare(s, p).writers[p].pc)
  {
    var w := s.writers[p];
    var n := NameAt(w.record, w.pc.i);
    NamesInOrder(w.record, w.pc.i);
    StoredLookup(s, n);
    StoredTooLarge(s.stored.value, n);
    hide Written, NameAt, DirHolds, FileHolds, Lookup, StoredOk, Oversized, Loadable, HomesOk, AllLoadable, BodyCount;
  }

  lemma ComparedOk(s: State, p: nat)
    requires StoredOk(s) && p < |s.writers| && s.writers[p].pc.Comparing? && WriterOk(s, p)
    ensures WriterOk(Compare(s, p), p) && !Owns(Compare(s, p).writers[p].pc)
  {
    var w := s.writers[p];
    if w.pc.i < BodyCount(w.record) {
      ComparedText(s, p);
    } else {
      hide Written, NameAt, DirHolds, FileHolds, Lookup, StoredOk, Oversized, Loadable, HomesOk, AllLoadable;
      assert Compare(s, p) == At(s, p, Loading);
    }
  }

  lemma StoredTooLarge(r: Record, n: Name)
    ensures Position(r, n) < BodyCount(r) && |Written(r, n)| > MAX_RECEIPT_BYTES ==> Oversized(r)
  {
  }

  lemma CompareKeeps(s: State, p: nat)
    requires Inv(s) && p < |s.writers| && s.writers[p].pc.Comparing?
    ensures Kept(s, Compare(s, p), p)
  {
    ComparedOk(s, p);
    hide Inv, WriterOk, Lookup, Written, NameAt, BodyCount, Kept;
    AtKeeps(s, p, Compare(s, p).writers[p].pc);
  }

  /** A record loads exactly when it has an authorization where its receipt names one, and each of its texts
      is at most 1 MiB long and canonical text that the loader takes. */
  lemma LoadsExactly(s: State)
    requires StoredOk(s) && s.stored.Some?
    ensures Loads(s) <==> Sound(s, s.stored.value)
  {
    StoredLookup(s, Rulebook);
    StoredLookup(s, Candidate);
    StoredLookup(s, Snapshot);
    StoredLookup(s, Authorization);
    var r := s.stored.value;
    assert Position(r, Rulebook) == 0 && Position(r, Candidate) == 1 && Position(r, Snapshot) == 2;
    assert Position(r, Receipt) == BodyCount(r) && (r.authorization.Some? <==> Position(r, Authorization) < BodyCount(r));
    hide Lookup, DirHolds, Loadable;
    if Loads(s) && Consistent(s, r) {
      forall n | Position(r, n) <= BodyCount(r) ensures Loadable(Written(r, n)) {
        match n { case Rulebook => case Candidate => case Snapshot => case Authorization => case Receipt => }
      }
    }
  }

  lemma LoadKeeps(s: State, p: nat)
    requires Inv(s) && p < |s.writers| && s.writers[p].pc.Loading?
    ensures Kept(s, At(s, p, Done(if Loads(s) then Returned else Unloadable)), p)
  {
    hide Loads, HomesOk, DirHolds, Agrees, Sound, Oversized, ProgressOk;
    assert WriterOk(s, p);
    LoadsExactly(s);
    var done := Done(if Loads(s) then Returned else Unloadable);
    assert WriterOk(At(s, p, done), p) by { LoadedOk(s, p); }
    hide WriterOk, StoredOk, CommitterOk, SoleOwner;
    AtKeeps(s, p, done);
  }

  lemma LoadedOk(s: State, p: nat)
    requires StoredOk(s) && p < |s.writers| && WriterOk(s, p) && s.writers[p].pc.Loading?
    ensures WriterOk(At(s, p, Done(if Loads(s) then Returned else Unloadable)), p)
  {
    hide WriterOk, StoredOk, Loads, Sound, Agrees, Oversized;
    LoadingOk(s, p);
    LoadsExactly(s);
    var o := if Loads(s) then Returned else Unloadable;
    var t := At(s, p, Done(o));
    SoundFor(s, t, s.stored.value);
    assert OutcomeOk(t, t.writers[p].record, o);
    hide OutcomeOk;
    DoneOk(t, p);
  }

  lemma LoadingOk(s: State, p: nat)
    requires p < |s.writers| && WriterOk(s, p) && s.writers[p].pc.Loading?
    ensures s.stored.Some? && Agrees(s.writers[p].record, s.stored.value, 4)
  {
    hide Agrees;
  }

  lemma SoundFor(s: State, t: State, r: Record)
    requires t.demands == s.demands
    ensures Sound(t, r) == Sound(s, r)
  {
    hide AllLoadable;
  }

  lemma DoneOk(s: State, p: nat)
    requires p < |s.writers| && s.writers[p].pc.Done? && OutcomeOk(s, s.writers[p].record, s.writers[p].pc.outcome)
    ensures WriterOk(s, p)
  {
    hide OutcomeOk, DirHolds, FileHolds, Agrees;
  }

  lemma StallKeeps(s: State, p: nat, pc: Pc)
    requires Inv(s) && p < |s.writers|
    requires pc == Dead || pc == Done(CommitFailed) || (s.writers[p].pc.Starting? && pc == if s.receipt.Some? then ComparingReceipt else Making)
    ensures Kept(s, At(s, p, pc), p)
  {
    assert WriterOk(s, p);
    hide HomesOk, StoredOk, CommitterOk, SoleOwner, Agrees, DirHolds;
    AtKeeps(s, p, pc);
  }

  /** Every step keeps the invariant; what is stored, once stored, stays. */
  lemma NextKeeps(s: State, p: nat, choice: Choice)
    requires Inv(s) && p < |s.writers|
    ensures Kept(s, Next(s, p, choice), p)
  {
    hide Make, Open, Write, Check, PassInputs, MoveReceipt, MoveInputs, MoveFinal, CompareReceipt, Compare, Loads, HomesOk,
      StoredOk, CommitterOk, SoleOwner, WriterOk;
    var pc := s.writers[p].pc;
    if pc.Done? || pc.Dead? {
    } else if choice.Dies? {
      StallKeeps(s, p, Dead);
    } else if choice.Fails? {
      StallKeeps(s, p, Done(CommitFailed));
    } else {
      hide Inv, Framed;
      match pc {
        case Starting => StallKeeps(s, p, if s.receipt.Some? then ComparingReceipt else Making);
        case Making => MakeKeeps(s, p);
        case Opening(_, _) => OpenKeeps(s, p);
        case Writing(_, _, _, _) => WriteKeeps(s, p, choice.extra);
        case Checking(_, _) => CheckKeeps(s, p);
        case CheckInputs(_) => PassInputsKeeps(s, p);
        case RenameReceipt(_) => MoveReceiptKeeps(s, p);
        case RenameInputs(_) => MoveInputsKeeps(s, p);
        case Publish(_) => MoveFinalKeeps(s, p);
        case ComparingReceipt => CompareReceiptKeeps(s, p);
        case Comparing(_) => CompareKeeps(s, p);
        case Loading => LoadKeeps(s, p);
      }
    }
  }

  // --- runs --------------------------------------------------------------------------------------------

  datatype Move = Move(p: nat, choice: Choice)

  ghost function Run(s: State, moves: seq<Move>): State
    decreases |moves|
  {
    if moves == [] then s
    else
      var m := moves[0];
      Run(if m.p < |s.writers| then Next(s, m.p, m.choice) else s, moves[1..])
  }

  /** Where a store can be when the writers start: leftovers of any kind, but a visible receipt only
      with its whole record. */
  ghost predicate Initial(s: State)
  {
    && HomesOk(s) && StoredOk(s) && s.committer.None?
    && forall p :: 0 <= p < |s.writers| ==> s.writers[p].pc.Starting?
  }

  /** The record a visible receipt stands for: the one stored at the start or a writer's own. */
  ghost predicate Known(s: State, r: Record)
  {
    s.stored == Some(r) || exists p :: 0 <= p < |s.writers| && s.writers[p].record == r
  }

  lemma {:induction false} RunKeeps(s: State, moves: seq<Move>)
    requires Inv(s)
    ensures var t := Run(s, moves);
            && Inv(t) && |t.writers| == |s.writers| && t.demands == s.demands
            && (s.stored.Some? ==> t.stored == s.stored)
            && (t.stored.Some? ==> Known(s, t.stored.value))
            && (forall p :: 0 <= p < |s.writers| ==> t.writers[p].record == s.writers[p].record)
    decreases |moves|
  {
    if moves != [] {
      var m := moves[0];
      if m.p < |s.writers| {
        var n := Next(s, m.p, m.choice);
        NextKeeps(s, m.p, m.choice);
        OnlyWritersStore(s, m.p, m.choice);
        RunKeeps(n, moves[1..]);
        forall p | 0 <= p < |s.writers| ensures n.writers[p].record == s.writers[p].record {}
      } else {
        RunKeeps(s, moves[1..]);
      }
    }
    hide Inv, Next, StoredOk, HomesOk;
  }

  lemma OnlyWritersStore(s: State, p: nat, choice: Choice)
    requires p < |s.writers|
    ensures Next(s, p, choice).stored == s.stored || Next(s, p, choice).stored == Some(s.writers[p].record)
  {
    hide At, Make, Open, Write, Check, PassInputs, MoveReceipt, MoveInputs, CompareReceipt, Compare, Loads;
  }

  lemma InitialHolds(s: State)
    requires Initial(s)
    ensures Inv(s)
  {
    hide HomesOk, StoredOk;
  }

  /** All or nothing: over any interleaving of writers, failures and deaths, a visible receipt is the
      whole receipt of one record, with exactly that record's bodies in the inputs directory, and the
      record is one a writer was given or was there at the start. */
  lemma CommitIsWhole(s: State, moves: seq<Move>)
    requires Initial(s) && Run(s, moves).receipt.Some?
    ensures var t := Run(s, moves);
            && t.stored.Some? && Known(s, t.stored.value)
            && FileHolds(t, t.receipt, t.stored.value.receipt)
            && t.inputs.Some? && DirHolds(t, t.inputs.value, t.stored.value, BodyCount(t.stored.value))
  {
    InitialHolds(s);
    RunKeeps(s, moves);
    hide Run, HomesOk, WriterOk, DirHolds, FileHolds;
  }

  lemma {:induction false} RunSplits(s: State, moves: seq<Move>, more: seq<Move>)
    ensures Run(s, moves + more) == Run(Run(s, moves), more)
    decreases |moves|
  {
    hide Next;
    if moves == [] {
      assert moves + more == more;
    } else {
      assert (moves + more)[1..] == moves[1..] + more;
      var m := moves[0];
      RunSplits(if m.p < |s.writers| then Next(s, m.p, m.choice) else s, moves[1..], more);
    }
  }

  /** A record once visible is there for good, byte for byte: later writers of the same id, whatever
      they bring, change nothing stored. */
  lemma CommitStands(s: State, moves: seq<Move>, more: seq<Move>)
    requires Initial(s) && Run(s, moves).receipt.Some?
    ensures var t, u := Run(s, moves), Run(s, moves + more);
            && u.receipt.Some? && u.stored == t.stored && u.stored.Some?
            && FileHolds(u, u.receipt, t.stored.value.receipt)
            && u.inputs.Some? && DirHolds(u, u.inputs.value, t.stored.value, BodyCount(t.stored.value))
  {
    InitialHolds(s);
    RunKeeps(s, moves);
    RunSplits(s, moves, more);
    RunKeeps(Run(s, moves), more);
    hide Run, HomesOk, WriterOk, DirHolds, FileHolds;
  }

  /** The writer that passed the last check is the only one that ever will. */
  lemma CommitterFixed(s: State, p: nat, choice: Choice)
    requires Inv(s) && p < |s.writers| && s.committer.Some?
    ensures Next(s, p, choice).committer == s.committer
  {
    if s.writers[p].pc.CheckInputs? { PassedOnce(s, p); }
    hide At, Make, Open, Write, Check, PassInputs, MoveReceipt, MoveInputs, MoveFinal, CompareReceipt, Compare, Loads, Inv;
  }

  lemma PassedOnce(s: State, p: nat)
    requires Inv(s) && p < |s.writers| && s.committer.Some? && s.writers[p].pc.CheckInputs?
    ensures PassInputs(s, p).committer == s.committer
  {
    assert WriterOk(s, p);
    hide HomesOk, StoredOk, ProgressOk, Agrees;
  }

  lemma {:induction false} CommitterStays(s: State, moves: seq<Move>)
    requires Inv(s) && s.committer.Some?
    ensures Run(s, moves).committer == s.committer
    decreases |moves|
  {
    if moves != [] {
      var m := moves[0];
      if m.p < |s.writers| {
        NextKeeps(s, m.p, m.choice);
        CommitterFixed(s, m.p, m.choice);
        CommitterStays(Next(s, m.p, m.choice), moves[1..]);
      } else {
        CommitterStays(s, moves[1..]);
      }
    }
    hide Inv, Next;
  }

  /** At most one writer ever reaches the commit renames: two found there, at whatever times in a run,
      are the same. */
  lemma OneCommitter(s: State, moves: seq<Move>, more: seq<Move>, p: nat, q: nat)
    requires Initial(s) && p < |Run(s, moves).writers| && q < |Run(s, moves + more).writers|
    requires Committing(Run(s, moves).writers[p].pc) && Committing(Run(s, moves + more).writers[q].pc)
    ensures p == q
  {
    InitialHolds(s);
    RunKeeps(s, moves);
    RunSplits(s, moves, more);
    RunKeeps(Run(s, moves), more);
    assert WriterOk(Run(s, moves), p) && WriterOk(Run(s, moves + more), q);
    CommitterStays(Run(s, moves), more);
    hide Run, HomesOk, StoredOk, DirHolds;
  }

  /** What each ending means. A writer that returns finds its receipt and all its bodies stored, and the
      stored record loads; one refused for a conflict finds a different record. A record whose authorization
      and receipt disagree, or with a text too long or nested too deep to be read back, is committed all the
      same, and then refused to every reader. */
  lemma OutcomesAreExact(s: State, moves: seq<Move>, p: nat)
    requires Initial(s) && p < |s.writers| && |Run(s, moves).writers| == |s.writers|
    ensures var t, r := Run(s, moves), s.writers[p].record;
            var pc := t.writers[p].pc;
            && pc != Done(Mismatch)
            && (pc == Done(Returned) || pc == Done(Unloadable) ==> t.stored.Some? && Agrees(r, t.stored.value, 4))
            && (pc == Done(Returned) ==> Sound(t, t.stored.value))
            && (pc == Done(Unloadable) ==> !Sound(t, t.stored.value))
            && (pc == Done(TooLarge) ==> t.stored.Some? && Oversized(t.stored.value))
            && (pc == Done(ReceiptConflict) ==> t.stored.Some? && t.stored.value.receipt != r.receipt)
            && (pc == Done(BodyConflict) || pc == Done(Incomplete) ==>
                  t.stored.Some? && t.stored.value.receipt == r.receipt && !Agrees(r, t.stored.value, 4))
  {
    InitialHolds(s);
    RunKeeps(s, moves);
    assert WriterOk(Run(s, moves), p);
    hide Run, HomesOk, StoredOk, DirHolds, Agrees, ProgressOk, Initial, SoleOwner, CommitterOk, Sound, Oversized;
  }

  /** `n` uninterrupted steps of one writer. */
  ghost function Alone(s: State, p: nat, n: nat): State
    requires p < |s.writers|
    ensures |Alone(s, p, n).writers| == |s.writers|
    decreases n
  {
    if n == 0 then s else
      Alone(Next(s, p, Proceed(0)), p, n - 1)
  }

  /** How a repeat of the stored record ends: refused where a text is too long even to compare, and otherwise
      returned or refused as the record loads or not. */
  ghost function Ending(s: State, r: Record): Outcome
  {
    if Oversized(r) then TooLarge else if Sound(s, r) then Returned else Unloadable
  }

  /** Where a repeat goes from body `i`. */
  function Compared(r: Record, i: nat): Pc
  {
    if i >= BodyCount(r) then Loading
    else if |Written(r, NameAt(r, i))| > MAX_RECEIPT_BYTES then Done(TooLarge) else Comparing(i + 1)
  }

  lemma ComparingStep(s: State, p: nat, i: nat)
    requires Inv(s) && p < |s.writers| && s.stored == Some(s.writers[p].record) && s.writers[p].pc == Comparing(i)
    ensures Next(s, p, Proceed(0)) == At(s, p, Compared(s.writers[p].record, i))
  {
    if i < BodyCount(s.writers[p].record) {
      NamesInOrder(s.writers[p].record, i);
      StoredLookup(s, NameAt(s.writers[p].record, i));
    }
    hide Lookup, DirHolds, HomesOk, StoredOk, NameAt, Written, WriterOk;
  }

  lemma LastSteps(s: State, p: nat)
    requires Inv(s) && p < |s.writers| && s.stored == Some(s.writers[p].record) && s.writers[p].pc == Loading
    ensures Next(s, p, Proceed(0)) == At(s, p, Done(if Sound(s, s.stored.value) then Returned else Unloadable))
  {
    LoadsExactly(s);
    hide Inv, Loads, Sound, HomesOk, StoredOk, CommitterOk, SoleOwner, WriterOk;
  }

  lemma {:induction false} DoneStays(s: State, p: nat, n: nat)
    requires p < |s.writers| && s.writers[p].pc.Done?
    ensures Alone(s, p, n) == s
    decreases n
  {
    if n > 0 {
      assert Next(s, p, Proceed(0)) == s;
      DoneStays(s, p, n - 1);
    }
  }

  /** The receipt and the first `i` bodies are short enough to be compared. */
  predicate Comparable(r: Record, i: nat)
  {
    |r.receipt| <= MAX_RECEIPT_BYTES && forall n :: Position(r, n) < i && Position(r, n) < BodyCount(r) ==> |Written(r, n)| <= MAX_RECEIPT_BYTES
  }

  lemma ComparableStep(r: Record, i: nat)
    requires i <= BodyCount(r) && Comparable(r, i)
    ensures i < BodyCount(r) && |Written(r, NameAt(r, i))| <= MAX_RECEIPT_BYTES ==> Comparable(r, i + 1)
    ensures i < BodyCount(r) && |Written(r, NameAt(r, i))| > MAX_RECEIPT_BYTES ==> Oversized(r)
    ensures i == BodyCount(r) ==> !Oversized(r)
  {
    NamesInOrder(r, i);
    if i < BodyCount(r) { assert Position(r, NameAt(r, i)) == i; }
    assert Written(r, Receipt) == r.receipt && Position(r, Receipt) == BodyCount(r);
    NamesInOrder(r, BodyCount(r));
    hide NameAt, Written, Position;
  }

  lemma {:induction false} ComparesThrough(s: State, p: nat, i: nat)
    requires Inv(s) && p < |s.writers| && s.stored == Some(s.writers[p].record) && s.writers[p].pc == Comparing(i)
    requires i <= BodyCount(s.writers[p].record) && Comparable(s.writers[p].record, i)
    ensures Alone(s, p, BodyCount(s.writers[p].record) - i + 2) == At(s, p, Done(Ending(s, s.stored.value)))
    decreases BodyCount(s.writers[p].record) - i
  {
    hide Inv, Next, Sound, Oversized, Comparable;
    ComparingStep(s, p, i);
    ComparableStep(s.writers[p].record, i);
    NextKeeps(s, p, Proceed(0));
    var t := Next(s, p, Proceed(0));
    hide Written, NameAt, Framed;
    if t.writers[p].pc.Done? {
      DoneStays(t, p, BodyCount(s.writers[p].record) - i + 1);
    } else if i < BodyCount(s.writers[p].record) {
      ComparesThrough(t, p, i + 1);
      SameEnding(s, t, s.stored.value);
    } else {
      LastSteps(t, p);
      SameEnding(s, t, s.stored.value);
      assert Alone(s, p, 2) == Alone(t, p, 1) == Alone(Next(t, p, Proceed(0)), p, 0);
    }
  }

  lemma SameEnding(s: State, t: State, r: Record)
    requires t.demands == s.demands
    ensures Sound(t, r) == Sound(s, r) && Ending(t, r) == Ending(s, r)
  {
    hide Oversized;
  }

  /** Putting the record that is already stored changes nothing in the store: left to run, the call ends
      within four steps more than there are bodies, returning if the record loads at all. */
  lemma RepeatIsIdempotent(s: State, p: nat)
    requires Inv(s) && p < |s.writers| && s.stored == Some(s.writers[p].record) && s.writers[p].pc == Starting
    ensures Alone(s, p, BodyCount(s.writers[p].record) + 4) == At(s, p, Done(Ending(s, s.stored.value)))
  {
    var r := s.writers[p].record;
    assert StoredOk(s);
    hide Inv, Next, StoredOk, Sound, Oversized, Framed;
    FirstSteps(s, p);
    NextKeeps(s, p, Proceed(0));
    var t := Next(s, p, Proceed(0));
    NextKeeps(t, p, Proceed(0));
    var u := Next(t, p, Proceed(0));
    var n := BodyCount(r);
    if |r.receipt| > MAX_RECEIPT_BYTES {
      TextTooLarge(r, Receipt);
      DoneStays(u, p, n + 2);
    } else {
      assert Comparable(r, 0);
      ComparesThrough(u, p, 0);
      SameEnding(s, u, r);
    }
    assert Alone(s, p, n + 4) == Alone(t, p, n + 3) == Alone(u, p, n + 2);
  }

  lemma FirstSteps(s: State, p: nat)
    requires StoredOk(s) && p < |s.writers| && s.stored == Some(s.writers[p].record) && s.writers[p].pc == Starting
    ensures Next(s, p, Proceed(0)) == At(s, p, ComparingReceipt)
    ensures Next(Next(s, p, Proceed(0)), p, Proceed(0))
         == At(s, p, if |s.writers[p].record.receipt| > MAX_RECEIPT_BYTES then Done(TooLarge) else Comparing(0))
  {
    hide DirHolds, Make, Open, Write, Check, PassInputs, MoveReceipt, MoveInputs, MoveFinal, Compare, Loads;
  }

  // --- an uninterrupted commit -------------------------------------------------------------------------

  /** Nothing stands in the writer's way: nothing of this id is there when it starts. */
  ghost predicate Clear(s: State, p: nat)
    requires p < |s.writers|
  {
    var pc := s.writers[p].pc;
    && (pc.Starting? || pc.Making? ==> s.receipt.None? && s.staging.None?)
    && (!pc.Publish? && !pc.Loading? && !pc.Done? ==> s.inputs.None?)
    && !pc.ComparingReceipt? && !pc.Comparing? && !pc.Dead?
    && (pc.Loading? ==> s.stored == Some(s.writers[p].record))
    && (pc.Done? ==> s.stored == Some(s.writers[p].record)
                     && pc.outcome == if Sound(s, s.writers[p].record) then Returned else Unloadable)
  }

  /** How far a writer is from its end: the stage, the files left in it, and the bytes left in the file. */
  function StageOf(pc: Pc): nat
  {
    match pc
    case Starting => 9
    case Making => 8
    case Opening(_, _) => 7
    case Writing(_, _, _, _) => 7
    case Checking(_, _) => 6
    case CheckInputs(_) => 5
    case RenameReceipt(_) => 4
    case RenameInputs(_) => 3
    case Publish(_) => 2
    case Loading => 1
    case _ => 0
  }

  function FilesLeft(w: Writer): nat
  {
    var n := BodyCount(w.record);
    match w.pc
    case Opening(_, i) => if i <= n then 2 * (n - i) + 1 else 0
    case Writing(_, i, _, _) => if i <= n then 2 * (n - i) else 0
    case Checking(_, i) => if i <= n then n - i else 0
    case _ => 0
  }

  function BytesLeft(w: Writer): nat
  {
    if w.pc.Writing? then
      var text := Written(w.record, NameAt(w.record, w.pc.i));
      if w.pc.written <= |text| then |text| - w.pc.written else 0
    else 0
  }

  /** One step of a writer nothing stands in the way of. */
  ghost predicate Advances(s: State, t: State, p: nat)
    requires p < |s.writers| && |t.writers| == |s.writers|
  {
    && Clear(t, p)
    && (StageOf(t.writers[p].pc) < StageOf(s.writers[p].pc)
        || (StageOf(t.writers[p].pc) == StageOf(s.writers[p].pc)
            && (FilesLeft(t.writers[p]) < FilesLeft(s.writers[p])
                || (FilesLeft(t.writers[p]) == FilesLeft(s.writers[p]) && BytesLeft(t.writers[p]) < BytesLeft(s.writers[p])))))
  }

  lemma StagingAdvances(s: State, p: nat)
    requires Inv(s) && p < |s.writers| && Clear(s, p) && (s.writers[p].pc.Opening? || s.writers[p].pc.Writing?)
    ensures Advances(s, Next(s, p, Proceed(0)), p)
  {
    assert WriterOk(s, p);
    hide StoredOk, CommitterOk, SoleOwner, Written, NameAt, Position, Agrees, OutcomeOk;
  }

  lemma CheckingAdvances(s: State, p: nat)
    requires Inv(s) && p < |s.writers| && Clear(s, p) && s.writers[p].pc.Checking?
    ensures Advances(s, Next(s, p, Proceed(0)), p)
  {
    var w := s.writers[p];
    assert WriterOk(s, p);
    if w.pc.i < BodyCount(w.record) {
      NamesInOrder(w.record, w.pc.i);
      assert Lookup(s, s.staging, NameAt(w.record, w.pc.i)) == Some(Written(w.record, NameAt(w.record, w.pc.i)));
    }
    hide StoredOk, CommitterOk, SoleOwner, Written, NameAt, Position, Agrees, OutcomeOk, HomesOk, Lookup, DirHolds;
  }

  lemma CommitAdvances(s: State, p: nat)
    requires Inv(s) && p < |s.writers| && Clear(s, p)
    requires s.writers[p].pc.CheckInputs? || s.writers[p].pc.RenameReceipt? || s.writers[p].pc.RenameInputs? || s.writers[p].pc.Publish?
    ensures Advances(s, Next(s, p, Proceed(0)), p)
  {
    assert WriterOk(s, p);
    NamesInOrder(s.writers[p].record, BodyCount(s.writers[p].record));
    hide StoredOk, CommitterOk, SoleOwner, Written, NameAt, Agrees, OutcomeOk, AllLoadable;
  }

  lemma EndsAdvance(s: State, p: nat)
    requires Inv(s) && p < |s.writers| && Clear(s, p)
    requires s.writers[p].pc.Starting? || s.writers[p].pc.Making? || s.writers[p].pc.Loading?
    ensures Advances(s, Next(s, p, Proceed(0)), p)
  {
    if s.writers[p].pc.Loading? {
      LastSteps(s, p);
      hide Next;
      SoundFor(s, Next(s, p, Proceed(0)), s.writers[p].record);
    }
    hide Inv, HomesOk, StoredOk, CommitterOk, SoleOwner, Written, NameAt, Agrees, Sound, WriterOk, Loads;
  }

  /** Left to run where nothing of its id is there yet, a writer commits its record: what OneCommitter
      allows one writer does happen. The call then returns, if the record's authorization and receipt agree
      and its texts can all be read back. */
  lemma {:induction false} UninterruptedCommits(s: State, p: nat) returns (moves: seq<Move>)
    requires Inv(s) && p < |s.writers| && Clear(s, p)
    ensures forall i :: 0 <= i < |moves| ==> moves[i] == Move(p, Proceed(0))
    ensures var t := Run(s, moves);
            && t.stored == Some(s.writers[p].record) && |t.writers| == |s.writers|
            && t.writers[p].pc == Done(if Sound(s, s.writers[p].record) then Returned else Unloadable)
    decreases StageOf(s.writers[p].pc), FilesLeft(s.writers[p]), BytesLeft(s.writers[p])
  {
    var pc := s.writers[p].pc;
    if pc.Done? {
      moves := [];
    } else {
      NextKeeps(s, p, Proceed(0));
      if pc.Opening? || pc.Writing? {
        StagingAdvances(s, p);
      } else if pc.Checking? {
        CheckingAdvances(s, p);
      } else if pc.Starting? || pc.Making? || pc.Loading? {
        EndsAdvance(s, p);
      } else {
        CommitAdvances(s, p);
      }
      var t := Next(s, p, Proceed(0));
      hide Inv, Next, Clear, StageOf, FilesLeft, BytesLeft;
      var rest := UninterruptedCommits(t, p);
      moves := [Move(p, Proceed(0))] + rest;
      assert moves[1..] == rest;
    }
  }

  // --- records that are committed and cannot be read ---------------------------------------------------

  /** A record of canonical texts loads exactly when each has at most 1 MiB and nests at most 64 deep, and its
      authorization is there when its receipt names one. */
  lemma CanonicalRecordLoads(s: State, r: Record, values: Name -> Value)
    requires forall n :: Position(r, n) <= BodyCount(r) ==>
               Canon.Render(values(n)).Ok? && Written(r, n) == CanonicalBytes(values(n))
    ensures Sound(s, r)
            <==> Consistent(s, r)
                 && forall n :: Position(r, n) <= BodyCount(r) ==>
                      Sizes.Size(Canon.Render(values(n))) <= MAX_RECEIPT_BYTES && DepthAtMost(values(n), 64)
  {
    hide Loadable, DepthAtMost, CanonicalBytes, Written, Position;
    forall n | Position(r, n) <= BodyCount(r)
      ensures Loadable(Written(r, n))
              <==> Sizes.Size(Canon.Render(values(n))) <= MAX_RECEIPT_BYTES && DepthAtMost(values(n), 64)
    {
      CanonicalLoads(values(n));
    }
  }

  /** An empty store and two writers of one record without an authorization. */
  function Twice(r: Record): State
  {
    State(None, None, None, None, map[], map[], 0, [Writer(r, Starting), Writer(r, Starting)], {}, map[], None, None)
  }

  /** A candidate whose text is two bytes over a mebibyte, everything else of the record readable and its
      authorization in order: the first writer commits it and is refused what it has just committed, and the
      second, with the very same record, is refused too. */
  lemma LongCandidateRefused(pad: Text.Text, receipt: Bytes, rulebook: Bytes, snapshot: Bytes) returns (moves: seq<Move>)
    requires Sizes.IsHex(pad, MAX_RECEIPT_BYTES) && Loadable(receipt) && Loadable(rulebook) && Loadable(snapshot)
    ensures Canon.Render(Str(pad)).Ok?
    ensures var r := Record(receipt, rulebook, CanonicalBytes(Str(pad)), snapshot, None);
            var t := Run(Twice(r), moves);
            && Initial(Twice(r)) && Consistent(Twice(r), r)
            && t.stored == Some(r) && |t.writers| == 2 && t.writers[0].pc == Done(Unloadable)
            && Alone(t, 1, 7) == At(t, 1, Done(TooLarge))
  {
    LongText(pad);
    var r := Record(receipt, rulebook, CanonicalBytes(Str(pad)), snapshot, None);
    hide Canon.Render, CanonicalBytes, Sizes.IsHex, Sizes.Size, Loadable, Run, Initial, Alone, AllLoadable, Oversized;
    NotLoadable(r);
    moves := BothRefused(r);
  }

  /** A record too long for its readers, without an authorization, brought by two writers to an empty store. */
  lemma BothRefused(r: Record) returns (moves: seq<Move>)
    requires !AllLoadable(r) && Oversized(r) && r.authorization.None?
    ensures var t := Run(Twice(r), moves);
            && Initial(Twice(r)) && Consistent(Twice(r), r)
            && t.stored == Some(r) && |t.writers| == 2 && t.writers[0].pc == Done(Unloadable)
            && Alone(t, 1, 7) == At(t, 1, Done(TooLarge))
  {
    var s := Twice(r);
    TwiceInitial(r);
    hide Loadable, Written, Inv, Initial, Next, AllLoadable, Oversized, Position, Run, Clear, HomesOk, StoredOk;
    InitialHolds(s);
    moves := UninterruptedCommits(s, 0);
    RunKeeps(s, moves);
    OthersUntouched(s, 0, moves, 1);
    RepeatIsIdempotent(Run(s, moves), 1);
  }

  lemma LongText(pad: Text.Text)
    requires Sizes.IsHex(pad, MAX_RECEIPT_BYTES)
    ensures Canon.Render(Str(pad)).Ok? && |CanonicalBytes(Str(pad))| == MAX_RECEIPT_BYTES + 2
  {
    Sizes.HexStringSize(pad);
    hide Canon.Render;
  }

  lemma NotLoadable(r: Record)
    requires |r.candidate| > MAX_RECEIPT_BYTES
    ensures !AllLoadable(r) && Oversized(r)
  {
    hide Canonical;
    assert Written(r, Candidate) == r.candidate && Position(r, Candidate) <= BodyCount(r);
    TextTooLarge(r, Candidate);
  }

  lemma TwiceInitial(r: Record)
    ensures Initial(Twice(r)) && Clear(Twice(r), 0)
  {
  }

  lemma {:induction false} OthersUntouched(s: State, p: nat, moves: seq<Move>, q: nat)
    requires Inv(s) && p < |s.writers| && q < |s.writers| && p != q
    requires forall i :: 0 <= i < |moves| ==> moves[i] == Move(p, Proceed(0))
    ensures |Run(s, moves).writers| == |s.writers| && Run(s, moves).writers[q] == s.writers[q]
    decreases |moves|
  {
    hide Inv, Next;
    if moves != [] {
      NextKeeps(s, p, Proceed(0));
      assert moves[0] == Move(p, Proceed(0));
      OthersUntouched(Next(s, p, Proceed(0)), p, moves[1..], q);
    }
  }
}
