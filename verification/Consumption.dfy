/** Spending an authorization's nonce, and launching what it authorizes: vfy/store.py consume_once and
    the order in vfy/runner.py, as steps of any number of concurrent callers over one filesystem. */
module Consumption {
  import opened Wrappers
  import opened StoredTexts
  import opened Values
  import Text
  import Canon
  import opened DepthScan
  import Sizes
  import Records = LedgerRecords

  const SLOTS: nat := 64

  /** A staging slot of a nonce, or the nonce's consumption entry. */
  datatype Path = Slot(nonce: int, k: nat) | Entry(nonce: int)

  datatype Outcome =
    | Consumed | AlreadySpent | NonceReused | ConsumptionConflict | CommitConflict | Unreadable | HostFailure

  /** Where a caller is; `file` is the inode of its own staging slot. */
  datatype Pc =
    | Verifying
    | Staging(k: nat)
    | Writing(k: nat, file: nat, written: nat)
    | Linking(k: nat, file: nat)
    | Reading(k: nat, file: nat)
    | Unlinking(k: nat, file: nat, outcome: Outcome)
    | Finished(outcome: Outcome)
    | Launched
    | Dead

  /** One call: the nonce it spends and the exact bytes of its consumption record. */
  datatype Caller = Caller(nonce: int, payload: Bytes, pc: Pc)

  /** Names point to inodes, inodes hold bytes. `winners` remembers which caller's link published each
      entry. */
  datatype State = State(names: map<Path, nat>, contents: map<nat, Bytes>, next: nat, callers: seq<Caller>,
                         winners: map<int, nat>)

  /** What the host does with a caller's next step: carries it out (a write of at least one byte and up
      to `extra` more), fails it, or kills the process before it. */
  datatype Choice = Proceed(extra: nat) | Fails | Dies

  function At(s: State, p: nat, pc: Pc): (t: State)
    requires p < |s.callers|
    ensures |t.callers| == |s.callers| && t.callers[p] == s.callers[p].(pc := pc)
  {
    s.(callers := s.callers[p := s.callers[p].(pc := pc)])
  }

  function Create(s: State, p: nat, k: nat): State
    requires p < |s.callers|
  {
    At(s.(names := s.names[Slot(s.callers[p].nonce, k) := s.next], contents := s.contents[s.next := []], next := s.next + 1),
       p, Writing(k, s.next, 0))
  }

  function Write(s: State, p: nat, extra: nat): State
    requires p < |s.callers| && s.callers[p].pc.Writing?
  {
    var c := s.callers[p];
    var (k, file, w) := (c.pc.k, c.pc.file, c.pc.written);
    if w >= |c.payload| then At(s, p, Linking(k, file))
    else
      var upto := if w + 1 + extra < |c.payload| then w + 1 + extra else |c.payload|;
      At(s.(contents := s.contents[file := c.payload[..upto]]), p, Writing(k, file, upto))
  }

  function Publish(s: State, p: nat): State
    requires p < |s.callers| && s.callers[p].pc.Linking?
  {
    var c := s.callers[p];
    if Entry(c.nonce) in s.names then At(s, p, Reading(c.pc.k, c.pc.file))
    else
      At(s.(names := s.names[Entry(c.nonce) := c.pc.file], winners := s.winners[c.nonce := p]),
         p, Unlinking(c.pc.k, c.pc.file, Consumed))
  }

  /** What a caller with this record is told by an entry: it is read like any file of the store, up to the
      bound of every reader, and must load. */
  ghost function Told(existing: Bytes, own: Bytes): Outcome
  {
    if !Loadable(existing) then Unreadable else if existing != own then ConsumptionConflict else NonceReused
  }

  /** What a caller that lost the link is told, from the entry it reads. */
  ghost function Verdict(s: State, c: Caller): Outcome
  {
    if Entry(c.nonce) !in s.names || s.names[Entry(c.nonce)] !in s.contents then Unreadable
    else Told(s.contents[s.names[Entry(c.nonce)]], c.payload)
  }

  function Unlink(s: State, p: nat): State
    requires p < |s.callers| && s.callers[p].pc.Unlinking?
  {
    var c := s.callers[p];
    At(s.(names := s.names - {Slot(c.nonce, c.pc.k)}), p, Finished(c.pc.outcome))
  }

  /** One step of caller `p`. */
  ghost function Next(s: State, p: nat, choice: Choice): State
    requires p < |s.callers|
  {
    var c := s.callers[p];
    if choice.Dies? then (if c.pc.Finished? || c.pc.Launched? then s else At(s, p, Dead))
    else
      match c.pc
      case Verifying =>
        if choice.Fails? then At(s, p, Finished(HostFailure))
        else At(s, p, if Entry(c.nonce) in s.names then Finished(AlreadySpent) else Staging(0))
      case Staging(k) =>
        if choice.Fails? || k >= SLOTS then At(s, p, Finished(CommitConflict))
        else if Slot(c.nonce, k) in s.names then At(s, p, Staging(k + 1))
        else Create(s, p, k)
      case Writing(_, _, _) => if choice.Fails? then At(s, p, Finished(HostFailure)) else Write(s, p, choice.extra)
      case Linking(k, file) => if choice.Fails? then At(s, p, Unlinking(k, file, CommitConflict)) else Publish(s, p)
      case Reading(k, file) => At(s, p, Unlinking(k, file, if choice.Fails? then HostFailure else Verdict(s, c)))
      case Unlinking(_, _, _) => if choice.Fails? then At(s, p, Finished(HostFailure)) else Unlink(s, p)
      case Finished(o) => if o.Consumed? && choice.Proceed? then At(s, p, Launched) else s
      case Launched => s
      case Dead => s
  }

  // --- what every reachable state keeps ----------------------------------------------------------------

  predicate Holding(pc: Pc)
  {
    pc.Writing? || pc.Linking? || pc.Reading? || pc.Unlinking?
  }

  predicate NamesOk(s: State)
  {
    && (forall path :: path in s.names ==> s.names[path] in s.contents)
    && (forall f :: f in s.contents ==> f < s.next)
  }

  predicate EntryHolds(s: State, nonce: int, bytes: Bytes)
  {
    Entry(nonce) in s.names && s.names[Entry(nonce)] in s.contents && s.contents[s.names[Entry(nonce)]] == bytes
  }

  /** The caller read the entry, and was told what it says. */
  ghost predicate EntryTold(s: State, c: Caller, o: Outcome)
  {
    && Entry(c.nonce) in s.names && s.names[Entry(c.nonce)] in s.contents
    && o == Told(s.contents[s.names[Entry(c.nonce)]], c.payload)
  }

  ghost predicate OutcomeOk(s: State, p: nat, o: Outcome)
    requires p < |s.callers|
  {
    var c := s.callers[p];
    match o
    case Consumed => c.nonce in s.winners && s.winners[c.nonce] == p
    case AlreadySpent => Entry(c.nonce) in s.names
    case NonceReused => EntryTold(s, c, o)
    case ConsumptionConflict => EntryTold(s, c, o)
    case Unreadable => EntryTold(s, c, o)
    case _ => true
  }

  /** A caller that holds a slot holds the name, the inode and the bytes it has written there. */
  ghost predicate CallerOk(s: State, p: nat)
    requires p < |s.callers|
  {
    var c := s.callers[p];
    && (Holding(c.pc) ==>
          && Slot(c.nonce, c.pc.k) in s.names && s.names[Slot(c.nonce, c.pc.k)] == c.pc.file && c.pc.file in s.contents)
    && (c.pc.Writing? ==> c.pc.written <= |c.payload| && s.contents[c.pc.file] == c.payload[..c.pc.written])
    && (Holding(c.pc) && !c.pc.Writing? ==> s.contents[c.pc.file] == c.payload)
    && (c.pc.Reading? ==> Entry(c.nonce) in s.names)
    && (c.pc.Unlinking? || c.pc.Finished? ==> OutcomeOk(s, p, c.pc.outcome))
    && (c.pc.Launched? ==> OutcomeOk(s, p, Consumed))
  }

  predicate Apart(s: State, p: nat, q: nat)
    requires p < |s.callers| && q < |s.callers|
  {
    Holding(s.callers[p].pc) && Holding(s.callers[q].pc) ==> s.callers[p].pc.file != s.callers[q].pc.file
  }

  /** Nobody is writing to a published entry. */
  predicate EntryOk(s: State, nonce: int)
  {
    Entry(nonce) in s.names ==>
      && s.names[Entry(nonce)] in s.contents
      && forall q :: 0 <= q < |s.callers| && s.callers[q].pc.Writing? ==> s.callers[q].pc.file != s.names[Entry(nonce)]
  }

  predicate WinnerOk(s: State, nonce: int)
  {
    nonce in s.winners ==>
      && s.winners[nonce] < |s.callers| && s.callers[s.winners[nonce]].nonce == nonce
      && EntryHolds(s, nonce, s.callers[s.winners[nonce]].payload)
  }

  ghost predicate Inv(s: State)
  {
    && NamesOk(s)
    && (forall p :: 0 <= p < |s.callers| ==> CallerOk(s, p))
    && (forall p, q :: 0 <= p < q < |s.callers| ==> Apart(s, p, q))
    && (forall n :: EntryOk(s, n))
    && (forall n :: WinnerOk(s, n))
  }

  // --- each step keeps it ------------------------------------------------------------------------------

  /** What another caller's step leaves alone, as far as caller `q` and the entries can tell. */
  ghost predicate Framed(s: State, t: State, p: nat)
    requires p < |s.callers| && |t.callers| == |s.callers|
  {
    && (forall q :: 0 <= q < |s.callers| && q != p ==> t.callers[q] == s.callers[q])
    && t.callers[p].nonce == s.callers[p].nonce && t.callers[p].payload == s.callers[p].payload
    && (forall path :: path in s.names && !(path.Slot? && Mine(s, p, path)) ==> path in t.names && t.names[path] == s.names[path])
    && (forall f :: f in s.contents ==> f in t.contents && (t.contents[f] == s.contents[f] || MineFile(s, p, f)))
    && (forall n :: n in s.winners ==> n in t.winners && t.winners[n] == s.winners[n])
  }

  /** The path is the slot caller `p` holds. */
  predicate Mine(s: State, p: nat, path: Path)
    requires p < |s.callers|
  {
    Holding(s.callers[p].pc) && path == Slot(s.callers[p].nonce, s.callers[p].pc.k)
  }

  /** The file is the one caller `p` is writing. */
  predicate MineFile(s: State, p: nat, f: nat)
    requires p < |s.callers|
  {
    s.callers[p].pc.Writing? && f == s.callers[p].pc.file
  }

  ghost predicate EntriesKept(s: State, t: State)
  {
    forall n :: Entry(n) in s.names ==>
      && Entry(n) in t.names && t.names[Entry(n)] == s.names[Entry(n)]
      && s.names[Entry(n)] in s.contents && s.names[Entry(n)] in t.contents
      && t.contents[s.names[Entry(n)]] == s.contents[s.names[Entry(n)]]
  }

  lemma OthersKeep(s: State, t: State, p: nat, q: nat)
    requires p < |s.callers| && q < |s.callers| && p != q && |t.callers| == |s.callers|
    requires CallerOk(s, p) && CallerOk(s, q) && Apart(s, p, q) && Framed(s, t, p) && EntriesKept(s, t)
    ensures CallerOk(t, q)
  {
    var c := s.callers[q];
    assert t.callers[q] == c;
    if Holding(c.pc) { assert !Mine(s, p, Slot(c.nonce, c.pc.k)); }
    assert Entry(c.nonce) in s.names ==> Entry(c.nonce) in t.names;
  }

  /** A step that only moves the caller's own program counter. */
  lemma AtKeeps(s: State, p: nat, pc: Pc)
    requires Inv(s) && p < |s.callers| && !pc.Writing?
    requires Holding(pc) ==> Holding(s.callers[p].pc) && pc.file == s.callers[p].pc.file
    requires CallerOk(At(s, p, pc), p)
    ensures Inv(At(s, p, pc)) && Framed(s, At(s, p, pc), p) && EntriesKept(s, At(s, p, pc))
  {
    var t := At(s, p, pc);
    assert CallerOk(s, p);
    forall n ensures EntryOk(t, n) && WinnerOk(t, n) { assert EntryOk(s, n) && WinnerOk(s, n); }
    assert EntriesKept(s, t) by { forall n | Entry(n) in s.names ensures s.names[Entry(n)] in s.contents { assert EntryOk(s, n); } }
    KeepAll(s, t, p);
  }

  /** Putting the pieces together: what is left to show of a framed step is what it does to its own
      caller, to its own file, and to the entries. */
  lemma KeepAll(s: State, t: State, p: nat)
    requires Inv(s) && p < |s.callers| && |t.callers| == |s.callers| && Framed(s, t, p) && EntriesKept(s, t)
    requires NamesOk(t) && CallerOk(t, p) && (forall n :: EntryOk(t, n)) && (forall n :: WinnerOk(t, n))
    requires Holding(t.callers[p].pc) ==>
               || (Holding(s.callers[p].pc) && t.callers[p].pc.file == s.callers[p].pc.file)
               || t.callers[p].pc.file !in s.contents
    ensures Inv(t)
  {
    hide NamesOk, EntryOk, WinnerOk;
    forall q | 0 <= q < |s.callers| ensures CallerOk(t, q) {
      if q != p {
        assert CallerOk(s, p) && CallerOk(s, q) && Apart(s, p, q) by { assert p < q ==> Apart(s, p, q); assert q < p ==> Apart(s, q, p); }
        OthersKeep(s, t, p, q);
      }
    }
    forall q, r | 0 <= q < r < |s.callers| ensures Apart(t, q, r) {
      assert Apart(s, q, r) && CallerOk(s, q) && CallerOk(s, r);
      hide Framed, EntriesKept;
      assert q != p ==> t.callers[q] == s.callers[q];
      assert r != p ==> t.callers[r] == s.callers[r];
    }
  }

  lemma CreateKeeps(s: State, p: nat, k: nat)
    requires Inv(s) && p < |s.callers| && !Holding(s.callers[p].pc) && Slot(s.callers[p].nonce, k) !in s.names
    ensures Inv(Create(s, p, k)) && Framed(s, Create(s, p, k), p) && EntriesKept(s, Create(s, p, k))
  {
    var t := Create(s, p, k);
    assert CallerOk(s, p);
    assert s.next !in s.contents;
    assert EntriesKept(s, t) by { forall n | Entry(n) in s.names ensures s.names[Entry(n)] in s.contents { assert EntryOk(s, n); } }
    forall n ensures EntryOk(t, n) && WinnerOk(t, n) { assert EntryOk(s, n) && WinnerOk(s, n); }
    KeepAll(s, t, p);
  }

  lemma WriteKeeps(s: State, p: nat, extra: nat)
    requires Inv(s) && p < |s.callers| && s.callers[p].pc.Writing?
    ensures Inv(Write(s, p, extra)) && Framed(s, Write(s, p, extra), p) && EntriesKept(s, Write(s, p, extra))
  {
    var t, c := Write(s, p, extra), s.callers[p];
    assert CallerOk(s, p);
    if c.pc.written >= |c.payload| {
      AtKeeps(s, p, Linking(c.pc.k, c.pc.file));
    } else {
      assert EntriesKept(s, t) by { forall n | Entry(n) in s.names ensures s.names[Entry(n)] in s.contents && s.names[Entry(n)] != c.pc.file { assert EntryOk(s, n); } }
      forall n ensures EntryOk(t, n) && WinnerOk(t, n) { assert EntryOk(s, n) && WinnerOk(s, n); }
      KeepAll(s, t, p);
    }
  }

  lemma PublishKeeps(s: State, p: nat)
    requires Inv(s) && p < |s.callers| && s.callers[p].pc.Linking?
    ensures Inv(Publish(s, p)) && Framed(s, Publish(s, p), p) && EntriesKept(s, Publish(s, p))
  {
    var t, c := Publish(s, p), s.callers[p];
    assert CallerOk(s, p) && EntryOk(s, c.nonce) && WinnerOk(s, c.nonce);
    if Entry(c.nonce) in s.names {
      AtKeeps(s, p, Reading(c.pc.k, c.pc.file));
    } else {
      assert EntriesKept(s, t) by { forall n | Entry(n) in s.names ensures s.names[Entry(n)] in s.contents { assert EntryOk(s, n); } }
      forall n ensures EntryOk(t, n) && WinnerOk(t, n) {
        assert EntryOk(s, n) && WinnerOk(s, n);
        if n == c.nonce {
          forall q | 0 <= q < |t.callers| && t.callers[q].pc.Writing? ensures t.callers[q].pc.file != c.pc.file {
            assert q < p ==> Apart(s, q, p);
            assert p < q ==> Apart(s, p, q);
          }
        }
      }
      KeepAll(s, t, p);
    }
  }

  lemma UnlinkKeeps(s: State, p: nat)
    requires Inv(s) && p < |s.callers| && s.callers[p].pc.Unlinking?
    ensures Inv(Unlink(s, p)) && Framed(s, Unlink(s, p), p) && EntriesKept(s, Unlink(s, p))
  {
    var t, c := Unlink(s, p), s.callers[p];
    assert CallerOk(s, p);
    assert EntriesKept(s, t) by { forall n | Entry(n) in s.names ensures s.names[Entry(n)] in s.contents { assert EntryOk(s, n); } }
    forall n ensures EntryOk(t, n) && WinnerOk(t, n) { assert EntryOk(s, n) && WinnerOk(s, n); }
    KeepAll(s, t, p);
  }

  /** Every step keeps the invariant, touches no slot and no file but the caller's own, and leaves every
      published entry with its inode and its bytes. */
  lemma NextKeeps(s: State, p: nat, choice: Choice)
    requires Inv(s) && p < |s.callers|
    ensures var t := Next(s, p, choice);
            Inv(t) && |t.callers| == |s.callers| && Framed(s, t, p) && EntriesKept(s, t)
  {
    var c, t := s.callers[p], Next(s, p, choice);
    assert CallerOk(s, p);
    if t == s {
      AtKeepsNothing(s, p);
    } else if choice.Dies? {
      AtKeeps(s, p, Dead);
    } else {
      match c.pc {
        case Staging(k) =>
          if choice.Proceed? && k < SLOTS && Slot(c.nonce, k) !in s.names { CreateKeeps(s, p, k); } else { AtKeeps(s, p, t.callers[p].pc); }
        case Writing(_, _, _) => if choice.Proceed? { WriteKeeps(s, p, choice.extra); } else { AtKeeps(s, p, t.callers[p].pc); }
        case Linking(_, _) => if choice.Proceed? { PublishKeeps(s, p); } else { AtKeeps(s, p, t.callers[p].pc); }
        case Reading(_, _) =>
          assert EntryOk(s, c.nonce);
          AtKeeps(s, p, t.callers[p].pc);
        case Unlinking(_, _, _) => if choice.Proceed? { UnlinkKeeps(s, p); } else { AtKeeps(s, p, t.callers[p].pc); }
        case Verifying => AtKeeps(s, p, t.callers[p].pc);
        case Finished(_) => AtKeeps(s, p, Launched);
        case Launched =>
        case Dead =>
      }
    }
    hide Inv, Framed, EntriesKept, Next;
  }

  lemma AtKeepsNothing(s: State, p: nat)
    requires Inv(s) && p < |s.callers|
    ensures Framed(s, s, p) && EntriesKept(s, s)
  {
    forall n | Entry(n) in s.names ensures s.names[Entry(n)] in s.contents { assert EntryOk(s, n); }
  }

  // --- runs --------------------------------------------------------------------------------------------

  /** Any interleaving: which caller steps next, and what the host makes of it. */
  datatype Move = Move(p: nat, choice: Choice)

  ghost function Run(s: State, moves: seq<Move>): (t: State)
    ensures |t.callers| == |s.callers|
    decreases |moves|
  {
    if moves == [] then s
    else
      var m := moves[0];
      Run(if m.p < |s.callers| then Next(s, m.p, m.choice) else s, moves[1..])
  }

  /** Where a store can be when the callers start: whatever slots and entries earlier processes left. */
  ghost predicate Initial(s: State)
  {
    && NamesOk(s) && s.winners == map[]
    && (forall p :: 0 <= p < |s.callers| ==> s.callers[p].pc.Verifying?)
  }

  lemma InitialHolds(s: State)
    requires Initial(s)
    ensures Inv(s)
  {
  }

  lemma {:induction false} RunKeeps(s: State, moves: seq<Move>)
    requires Inv(s)
    ensures Inv(Run(s, moves)) && EntriesKept(s, Run(s, moves))
    ensures forall p :: 0 <= p < |s.callers| ==>
              Run(s, moves).callers[p].nonce == s.callers[p].nonce && Run(s, moves).callers[p].payload == s.callers[p].payload
    decreases |moves|
  {
    if moves == [] || moves[0].p >= |s.callers| {
      assert EntriesKept(s, s) by { forall n | Entry(n) in s.names ensures s.names[Entry(n)] in s.contents { assert EntryOk(s, n); } }
      if moves != [] { RunKeeps(s, moves[1..]); }
      hide Inv, Next;
    } else {
      var m := moves[0];
      var t := Next(s, m.p, m.choice);
      NextKeeps(s, m.p, m.choice);
      RunKeeps(t, moves[1..]);
      hide Inv, Next;
    }
  }

  predicate Spent(pc: Pc)
  {
    pc == Finished(Consumed) || pc.Launched? || (pc.Unlinking? && pc.outcome == Consumed)
  }

  /** Of all callers for one nonce at most one ever spends it, and so at most one launches, whatever the
      interleaving, the failures and the deaths; the entry then holds exactly its record. */
  lemma SpentOnce(s: State, moves: seq<Move>, p: nat, q: nat)
    requires Initial(s) && p < |s.callers| && q < |s.callers| && s.callers[p].nonce == s.callers[q].nonce
    requires Spent(Run(s, moves).callers[p].pc) && Spent(Run(s, moves).callers[q].pc)
    ensures p == q
    ensures EntryHolds(Run(s, moves), s.callers[p].nonce, s.callers[p].payload)
  {
    InitialHolds(s);
    RunKeeps(s, moves);
    var t := Run(s, moves);
    assert CallerOk(t, p) && CallerOk(t, q) && WinnerOk(t, s.callers[p].nonce);
  }

  /** A nonce whose entry is already there at the start is never spent again, and its entry never changes. */
  lemma OldEntryStands(s: State, moves: seq<Move>, p: nat)
    requires Initial(s) && p < |s.callers| && Entry(s.callers[p].nonce) in s.names
    ensures !Spent(Run(s, moves).callers[p].pc)
    ensures EntryHolds(Run(s, moves), s.callers[p].nonce, s.contents[s.names[Entry(s.callers[p].nonce)]])
  {
    var n := s.callers[p].nonce;
    InitialHolds(s);
    RunKeeps(s, moves);
    NoWinnerOfOld(s, moves, n);
    assert CallerOk(Run(s, moves), p);
  }

  lemma {:induction false} NoWinnerOfOld(s: State, moves: seq<Move>, n: int)
    requires Inv(s) && Entry(n) in s.names && n !in s.winners
    ensures n !in Run(s, moves).winners
    decreases |moves|
  {
    if moves != [] {
      var m := moves[0];
      if m.p < |s.callers| {
        NextKeeps(s, m.p, m.choice);
        NoWinnerOfOld(Next(s, m.p, m.choice), moves[1..], n);
      } else {
        NoWinnerOfOld(s, moves[1..], n);
      }
    }
  }

  /** A published entry is the one found at the start or a caller's whole record. */
  lemma {:induction false} EntriesAreRecords(s: State, moves: seq<Move>, n: int)
    requires Inv(s) && Entry(n) in Run(s, moves).names
    ensures var t := Run(s, moves);
            && t.names[Entry(n)] in t.contents
            && (if Entry(n) in s.names then EntryHolds(s, n, t.contents[t.names[Entry(n)]])
                else exists p :: 0 <= p < |s.callers| && s.callers[p].nonce == n && EntryHolds(t, n, s.callers[p].payload))
    decreases |moves|
  {
    RunKeeps(s, moves);
    var t := Run(s, moves);
    assert EntryOk(t, n);
    if Entry(n) !in s.names {
      if n !in s.winners { WonIfNew(s, moves, n); }
      RunWinners(s, moves, n);
      assert WinnerOk(t, n);
    }
    hide Run, Inv;
  }

  /** An entry that was not there at the start has a winner. */
  lemma {:induction false} WonIfNew(s: State, moves: seq<Move>, n: int)
    requires Inv(s) && Entry(n) !in s.names && Entry(n) in Run(s, moves).names
    ensures n in Run(s, moves).winners
    decreases |moves|
  {
    if moves != [] {
      var m := moves[0];
      if m.p < |s.callers| {
        var t := Next(s, m.p, m.choice);
        NextKeeps(s, m.p, m.choice);
        hide Next, Inv;
        if Entry(n) in t.names {
          NewEntryWins(s, m.p, m.choice, n);
          RunWinners(t, moves[1..], n);
        } else {
          WonIfNew(t, moves[1..], n);
        }
      } else {
        WonIfNew(s, moves[1..], n);
      }
    }
  }

  lemma NewEntryWins(s: State, p: nat, choice: Choice, n: int)
    requires p < |s.callers| && Entry(n) !in s.names && Entry(n) in Next(s, p, choice).names
    ensures n in Next(s, p, choice).winners
  {
  }

  lemma {:induction false} RunWinners(s: State, moves: seq<Move>, n: int)
    requires Inv(s)
    ensures n in s.winners ==> n in Run(s, moves).winners
    decreases |moves|
  {
    if moves != [] {
      var m := moves[0];
      if m.p < |s.callers| {
        NextKeeps(s, m.p, m.choice);
        hide Next, Inv;
        RunWinners(Next(s, m.p, m.choice), moves[1..], n);
      } else {
        RunWinners(s, moves[1..], n);
      }
    }
  }

  /** What a caller that lost is told is exact: that its own nonce was spent when the entry is its record,
      that another was when it is a different one, and that the entry cannot be read exactly when it does not
      load. */
  lemma VerdictsAreExact(s: State, moves: seq<Move>, p: nat)
    requires Initial(s) && p < |s.callers|
    ensures var t := Run(s, moves);
            var (n, own, pc) := (s.callers[p].nonce, s.callers[p].payload, t.callers[p].pc);
            pc == Finished(NonceReused) || pc == Finished(ConsumptionConflict) || pc == Finished(Unreadable) ==>
              && Entry(n) in t.names && t.names[Entry(n)] in t.contents
              && var entry := t.contents[t.names[Entry(n)]];
                 && (pc != Finished(Unreadable) <==> Loadable(entry))
                 && (pc == Finished(NonceReused) ==> entry == own)
                 && (pc == Finished(ConsumptionConflict) ==> entry != own)
  {
    InitialHolds(s);
    RunKeeps(s, moves);
    assert CallerOk(Run(s, moves), p);
    hide Run, Inv, Loadable;
  }

  /** The callers bring canonical texts, as consume_once makes them, and earlier processes left such. */
  ghost predicate AllCanonical(s: State)
  {
    && (forall p :: 0 <= p < |s.callers| ==> Canonical(s.callers[p].payload))
    && (forall n :: Entry(n) in s.names ==> s.names[Entry(n)] in s.contents && Canonical(s.contents[s.names[Entry(n)]]))
  }

  /** An entry is never seen partial or torn: it is somebody's whole record, and so it loads exactly when
      that record has at most 1 MiB. */
  lemma EntriesLoadExactly(s: State, moves: seq<Move>, n: int)
    requires Initial(s) && AllCanonical(s) && Entry(n) in Run(s, moves).names
    ensures var t := Run(s, moves);
            && t.names[Entry(n)] in t.contents
            && var entry := t.contents[t.names[Entry(n)]];
               Loadable(entry) <==> |entry| <= MAX_RECEIPT_BYTES
  {
    InitialHolds(s);
    EntriesAreRecords(s, moves, n);
    hide Run, Inv, Canonical;
  }

  /** A launch comes after the caller's own successful consumption: at the moment of launching the entry
      for its nonce holds its record, put there by its own link. */
  lemma LaunchFollowsConsumption(s: State, moves: seq<Move>, p: nat, choice: Choice)
    requires Initial(s) && p < |s.callers|
    requires !Run(s, moves).callers[p].pc.Launched? && Next(Run(s, moves), p, choice).callers[p].pc.Launched?
    ensures var t := Run(s, moves);
            && t.callers[p].pc == Finished(Consumed) && EntryHolds(t, s.callers[p].nonce, s.callers[p].payload)
            && s.callers[p].nonce in t.winners && t.winners[s.callers[p].nonce] == p
            && Entry(s.callers[p].nonce) !in s.names
  {
    InitialHolds(s);
    RunKeeps(s, moves);
    var t := Run(s, moves);
    assert CallerOk(t, p) && WinnerOk(t, s.callers[p].nonce);
    if Entry(s.callers[p].nonce) in s.names { OldEntryStands(s, moves, p); }
    hide Run, Inv;
  }

  // --- every call ends ---------------------------------------------------------------------------------

  /** Steps a caller has left, at most. */
  function Left(c: Caller): nat
  {
    match c.pc
    case Verifying => SLOTS + |c.payload| + 7
    case Staging(k) => if k <= SLOTS then (SLOTS - k) + |c.payload| + 6 else 6
    case Writing(_, _, w) => (if w <= |c.payload| then |c.payload| - w else 0) + 5
    case Linking(_, _) => 4
    case Reading(_, _) => 3
    case Unlinking(_, _, _) => 2
    case Finished(o) => if o.Consumed? then 1 else 0
    case Launched => 0
    case Dead => 0
  }

  lemma WriteEnds(s: State, p: nat, extra: nat)
    requires p < |s.callers| && s.callers[p].pc.Writing?
    ensures |Write(s, p, extra).callers| == |s.callers| && Left(Write(s, p, extra).callers[p]) < Left(s.callers[p])
  {
    hide At;
  }

  /** Whatever the others do, each of a caller's own steps brings it nearer to its end: a call takes at
      most 64 slot probes and one step a byte, plus seven. */
  lemma CallEnds(s: State, p: nat, choice: Choice)
    requires p < |s.callers| && Next(s, p, choice) != s
    ensures Left(s.callers[p]) <= SLOTS + |s.callers[p].payload| + 7
    ensures |Next(s, p, choice).callers| == |s.callers|
    ensures Left(Next(s, p, choice).callers[p]) < Left(s.callers[p])
  {
    if s.callers[p].pc.Writing? && choice.Proceed? { WriteEnds(s, p, choice.extra); }
    hide At, Write, Verdict;
  }

  // --- an uninterrupted call spends --------------------------------------------------------------------

  /** Nothing stands in the caller's way: its nonce is unspent until it links, and slot `j` is free until
      it gets there. */
  predicate Clear(s: State, p: nat, j: nat)
    requires p < |s.callers|
  {
    var c := s.callers[p];
    match c.pc
    case Verifying => Entry(c.nonce) !in s.names && j < SLOTS && Slot(c.nonce, j) !in s.names
    case Staging(k) => Entry(c.nonce) !in s.names && k <= j < SLOTS && Slot(c.nonce, j) !in s.names
    case Writing(_, _, _) => Entry(c.nonce) !in s.names
    case Linking(_, _) => Entry(c.nonce) !in s.names
    case Reading(_, _) => false
    case Unlinking(_, _, o) => o == Consumed
    case Finished(o) => o == Consumed
    case Launched => true
    case Dead => false
  }

  lemma ClearStep(s: State, p: nat, j: nat)
    requires p < |s.callers| && Clear(s, p, j) && !s.callers[p].pc.Launched?
    ensures |Next(s, p, Proceed(0)).callers| == |s.callers| && Clear(Next(s, p, Proceed(0)), p, j) && Next(s, p, Proceed(0)) != s
  {
    hide Verdict;
  }

  /** A step takes no slot but the one the caller then holds. */
  lemma SlotsTaken(s: State, p: nat, path: Path)
    requires p < |s.callers| && path.Slot? && path in Next(s, p, Proceed(0)).names && !Mine(Next(s, p, Proceed(0)), p, path)
    ensures path in s.names && !Mine(s, p, path)
  {
    hide Verdict;
  }

  /** Left to run on an unspent nonce with a staging slot free, a call spends the nonce and launches: what
      SpentOnce allows once does happen. */
  lemma {:induction false} UninterruptedSpends(s: State, p: nat, j: nat) returns (moves: seq<Move>)
    requires Inv(s) && p < |s.callers| && Clear(s, p, j)
    ensures forall i :: 0 <= i < |moves| ==> moves[i] == Move(p, Proceed(0))
    ensures Run(s, moves).callers[p].pc.Launched?
    ensures EntryHolds(Run(s, moves), s.callers[p].nonce, s.callers[p].payload)
    ensures forall path: Path :: path.Slot? && path in Run(s, moves).names ==> path in s.names && !Mine(s, p, path)
    decreases Left(s.callers[p])
  {
    if s.callers[p].pc.Launched? {
      moves := [];
      assert CallerOk(s, p) && WinnerOk(s, s.callers[p].nonce);
    } else {
      ClearStep(s, p, j);
      NextKeeps(s, p, Proceed(0));
      CallEnds(s, p, Proceed(0));
      var t := Next(s, p, Proceed(0));
      forall path: Path | path.Slot? && path in t.names && !Mine(t, p, path) ensures path in s.names && !Mine(s, p, path) {
        SlotsTaken(s, p, path);
      }
      hide Inv, Next, Clear, Left, Mine;
      var rest := UninterruptedSpends(t, p, j);
      moves := [Move(p, Proceed(0))] + rest;
      assert moves[1..] == rest;
    }
  }

  // --- a call that finds its nonce spent after it looked loses -----------------------------------------

  /** The entry for the caller's nonce is there and slot `j` is free until the caller gets there. */
  ghost predicate Beaten(s: State, p: nat, j: nat, entry: Bytes)
    requires p < |s.callers|
  {
    var (c, told) := (s.callers[p], Told(entry, s.callers[p].payload));
    && EntryHolds(s, c.nonce, entry)
    && match c.pc
       case Staging(k) => k <= j < SLOTS && Slot(c.nonce, j) !in s.names
       case Writing(_, _, _) => true
       case Linking(_, _) => true
       case Reading(_, _) => true
       case Unlinking(_, _, o) => o == told
       case Finished(o) => o == told
       case _ => false
  }

  lemma EntryStays(s: State, p: nat, nonce: int, entry: Bytes)
    requires Inv(s) && p < |s.callers| && EntryHolds(s, nonce, entry)
    ensures EntryHolds(Next(s, p, Proceed(0)), nonce, entry)
  {
    NextKeeps(s, p, Proceed(0));
    hide Inv, Next, Framed;
  }

  lemma BeatenStep(s: State, p: nat, j: nat, entry: Bytes)
    requires Inv(s) && p < |s.callers| && Beaten(s, p, j, entry) && !s.callers[p].pc.Finished?
    ensures |Next(s, p, Proceed(0)).callers| == |s.callers| && Beaten(Next(s, p, Proceed(0)), p, j, entry)
    ensures Next(s, p, Proceed(0)) != s
  {
    hide Inv, Told;
    EntryStays(s, p, s.callers[p].nonce, entry);
  }

  /** Left to run, a caller that looked before its nonce was spent ends with what the entry tells it. */
  lemma {:induction false} UninterruptedLoses(s: State, p: nat, j: nat, entry: Bytes) returns (moves: seq<Move>)
    requires Inv(s) && p < |s.callers| && Beaten(s, p, j, entry)
    ensures forall i :: 0 <= i < |moves| ==> moves[i] == Move(p, Proceed(0))
    ensures Run(s, moves).callers[p].pc == Finished(Told(entry, s.callers[p].payload))
    decreases Left(s.callers[p])
  {
    if s.callers[p].pc.Finished? {
      moves := [];
    } else {
      BeatenStep(s, p, j, entry);
      NextKeeps(s, p, Proceed(0));
      CallEnds(s, p, Proceed(0));
      var t := Next(s, p, Proceed(0));
      hide Inv, Next, Beaten, Left, Told;
      var rest := UninterruptedLoses(t, p, j, entry);
      moves := [Move(p, Proceed(0))] + rest;
      assert moves[1..] == rest;
    }
  }

  lemma {:induction false} OthersUntouched(s: State, p: nat, moves: seq<Move>, q: nat)
    requires Inv(s) && p < |s.callers| && q < |s.callers| && p != q
    requires forall i :: 0 <= i < |moves| ==> moves[i] == Move(p, Proceed(0))
    ensures Run(s, moves).callers[q] == s.callers[q]
    decreases |moves|
  {
    hide Inv, Next;
    if moves != [] {
      NextKeeps(s, p, Proceed(0));
      assert moves[0] == Move(p, Proceed(0));
      OthersUntouched(Next(s, p, Proceed(0)), p, moves[1..], q);
    }
  }

  lemma {:induction false} RunConcat(s: State, before: seq<Move>, after: seq<Move>)
    ensures Run(s, before + after) == Run(Run(s, before), after)
    decreases |before|
  {
    if before == [] {
      assert before + after == after;
    } else {
      assert (before + after)[1..] == before[1..] + after;
      var m := before[0];
      RunConcat(if m.p < |s.callers| then Next(s, m.p, m.choice) else s, before[1..], after);
    }
  }

  /** Two callers look before either spends their nonce. One spends it and launches; the other is told what
      the entry, the first one's record, tells it. */
  lemma RaceIsDecided(s: State, p: nat, q: nat, j: nat) returns (moves: seq<Move>)
    requires Inv(s) && p < |s.callers| && q < |s.callers| && p != q && s.callers[p].nonce == s.callers[q].nonce
    requires s.callers[p].pc.Verifying? && s.callers[q].pc.Verifying?
    requires Entry(s.callers[p].nonce) !in s.names && j < SLOTS && Slot(s.callers[p].nonce, j) !in s.names
    ensures Run(s, moves).callers[p].pc.Launched?
    ensures Run(s, moves).callers[q].pc == Finished(Told(s.callers[p].payload, s.callers[q].payload))
  {
    var first := [Move(q, Proceed(0))];
    var a := Next(s, q, Proceed(0));
    NextKeeps(s, q, Proceed(0));
    assert first[1..] == [] && Run(a, []) == a && Run(s, first) == a;
    assert a.names == s.names && a.callers[q].pc == Staging(0) && a.callers[p] == s.callers[p];
    hide Inv, Next, Told;
    var second := UninterruptedSpends(a, p, j);
    var b := Run(a, second);
    RunKeeps(a, second);
    OthersUntouched(a, p, second, q);
    var third := UninterruptedLoses(b, q, j, s.callers[p].payload);
    OthersUntouched(b, q, third, p);
    moves := first + second + third;
    hide Run, Clear, Beaten;
    RunConcat(s, first, second);
    RunConcat(s, first + second, third);
  }

  // --- a record no reader of the store takes back ------------------------------------------------------

  /** The five members of a consumption record. */
  function ConsumptionRecord(nonce: Text.Text, id: Text.Text, action: Text.Text, rulebook: Text.Text, evidence: Text.Text): Value
  {
    Obj(map[Records.T("nonce") := Str(nonce), Records.T("authorization_id") := Str(id),
            Records.T("action_digest") := Str(action), Records.T("rulebook_digest") := Str(rulebook),
            Records.T("evidence_digest") := Str(evidence)])
  }

  /** An empty store and two callers with one record. */
  function Twice(payload: Bytes): State
  {
    State(map[], map[], 0, [Caller(0, payload, Verifying), Caller(0, payload, Verifying)], map[])
  }

  lemma TwiceInitial(payload: Bytes)
    requires Canonical(payload)
    ensures Initial(Twice(payload)) && AllCanonical(Twice(payload))
  {
    hide Canonical;
  }

  lemma RecordMembers(nonce: Text.Text, id: Text.Text, action: Text.Text, rulebook: Text.Text, evidence: Text.Text)
    requires forall t :: t in [nonce, id, action, rulebook, evidence] ==> Canon.SurrogateFree(t)
    ensures var m := ConsumptionRecord(nonce, id, action, rulebook, evidence).members;
            && (forall k :: k in m ==> Canon.SurrogateFree(k) && m[k].Str? && Canon.SurrogateFree(m[k].text))
            && Records.T("nonce") in m && m[Records.T("nonce")] == Str(nonce)
            && Records.T("authorization_id") in m && Records.T("nonce") != Records.T("authorization_id")
  {
    hide Canon.SurrogateFree;
    var texts := [nonce, id, action, rulebook, evidence];
    assert nonce == texts[0] && id == texts[1] && action == texts[2] && rulebook == texts[3] && evidence == texts[4];
    assert |Records.T("nonce")| == 5 && |Records.T("authorization_id")| == 16 && |Records.T("action_digest")| == 13;
    assert |Records.T("rulebook_digest")| == 15 && |Records.T("evidence_digest")| == 15;
  }

  lemma RecordRenders(nonce: Text.Text, id: Text.Text, action: Text.Text, rulebook: Text.Text, evidence: Text.Text)
    requires forall t :: t in [nonce, id, action, rulebook, evidence] ==> Canon.SurrogateFree(t)
    ensures var v := ConsumptionRecord(nonce, id, action, rulebook, evidence);
            && Canon.Render(v).Ok? && DepthAtMost(v, 64)
            && Canon.Render(Str(nonce)).Ok? && Sizes.Size(Canon.Render(v)) >= Sizes.Size(Canon.Render(Str(nonce)))
  {
    RecordMembers(nonce, id, action, rulebook, evidence);
    var m := ConsumptionRecord(nonce, id, action, rulebook, evidence).members;
    assert ConsumptionRecord(nonce, id, action, rulebook, evidence) == Obj(m);
    hide ConsumptionRecord, Canon.Render, Canon.SurrogateFree, Records.T;
    forall k | k in m ensures Canon.Render(m[k]).Ok? { Sizes.StringAtMost(m[k].text); }
    assert DepthAtMost(Obj(m), 64);
    Sizes.ObjectAtLeast(m, Records.T("nonce"), Records.T("authorization_id"));
  }

  /** A nonce of a mebibyte, which the authorization's schema allows: of two callers with that one record the
      first launches, and the second is told that the entry cannot be read, not that its nonce was spent. */
  lemma LongNonceUnreadable(nonce: Text.Text, id: Text.Text, action: Text.Text, rulebook: Text.Text, evidence: Text.Text)
    returns (moves: seq<Move>)
    requires Sizes.IsHex(nonce, MAX_RECEIPT_BYTES)
    requires forall t :: t in [id, action, rulebook, evidence] ==> Canon.SurrogateFree(t)
    ensures Canon.Render(ConsumptionRecord(nonce, id, action, rulebook, evidence)).Ok?
    ensures var record := CanonicalBytes(ConsumptionRecord(nonce, id, action, rulebook, evidence));
            var (s, t) := (Twice(record), Run(Twice(record), moves));
            && Initial(s) && AllCanonical(s)
            && t.callers[0].pc.Launched? && t.callers[1].pc == Finished(Unreadable)
  {
    Sizes.HexStringSize(nonce);
    Sizes.HexSize(nonce);
    var v := ConsumptionRecord(nonce, id, action, rulebook, evidence);
    RecordRenders(nonce, id, action, rulebook, evidence);
    var record := CanonicalBytes(v);
    CanonicalExactly(v);
    CanonicalLoads(v);
    hide Canon.Render, Canonical, CanonicalBytes, ConsumptionRecord, Sizes.IsHex;
    TwiceInitial(record);
    InitialHolds(Twice(record));
    hide Inv, Run, Initial, AllCanonical;
    moves := RaceIsDecided(Twice(record), 0, 1, 0);
  }
}
