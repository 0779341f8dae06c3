/** Publishing the index cache: vfy/store.py _write_index and _index_staging_slot, as steps of any number
    of concurrent writers. Unlike the consumption entry it is published by a rename, which gives the
    staging name back. */
module IndexCache {
  import opened Wrappers

  const SLOTS: nat := 64

  datatype File = Partial | Whole(document: int)

  /** Where a writer is; `file` is the inode its exclusive creation made. */
  datatype Pc =
    | Picking(k: nat)
    | Opening(k: nat, file: nat)
    | Filling(k: nat, file: nat, open: nat)
    | Replacing(k: nat, file: nat)
    | Cleaning(k: nat, file: nat)
    | Done(published: bool)
    | Dead

  datatype Writer = Writer(document: int, pc: Pc)

  /** The staging slots and the index name inodes. */
  datatype State = State(slots: map<nat, nat>, index: Option<nat>, files: map<nat, File>, next: nat, writers: seq<Writer>)

  /** A step is carried out, fails before its effect, is interrupted after its effect, or never comes. */
  datatype Choice = Proceed | Fails | Late | Dies

  function At(s: State, p: nat, pc: Pc): (t: State)
    requires p < |s.writers|
    ensures |t.writers| == |s.writers|
  {
    s.(writers := s.writers[p := s.writers[p].(pc := pc)])
  }

  /** Exclusive creation: the first free slot. */
  function Pick(s: State, p: nat, k: nat): (t: State)
    requires p < |s.writers|
    ensures |t.writers| == |s.writers|
  {
    if k >= SLOTS then At(s, p, Done(false))
    else if k in s.slots then At(s, p, Picking(k + 1))
    else
      At(s.(slots := s.slots[k := s.next], files := s.files[s.next := Partial], next := s.next + 1), p, Opening(k, s.next))
  }

  /** Opening by path truncates what the slot names, or creates it. */
  function Open(s: State, p: nat, k: nat, f: nat): (t: State)
    requires p < |s.writers|
    ensures |t.writers| == |s.writers|
  {
    if k in s.slots then At(s.(files := s.files[s.slots[k] := Partial]), p, Filling(k, f, s.slots[k]))
    else At(s.(slots := s.slots[k := s.next], files := s.files[s.next := Partial], next := s.next + 1), p, Filling(k, f, s.next))
  }

  function Fill(s: State, p: nat, k: nat, f: nat, open: nat): (t: State)
    requires p < |s.writers|
    ensures |t.writers| == |s.writers|
  {
    At(s.(files := s.files[open := Whole(s.writers[p].document)]), p, Replacing(k, f))
  }

  /** The rename, over whatever the index named; it needs the slot to be there. */
  function Replace(s: State, p: nat, k: nat, f: nat): (t: State)
    requires p < |s.writers|
    ensures |t.writers| == |s.writers|
  {
    if k !in s.slots then At(s, p, Cleaning(k, f))
    else At(s.(index := Some(s.slots[k]), slots := s.slots - {k}), p, Done(true))
  }

  function Clean(s: State, p: nat, k: nat): (t: State)
    requires p < |s.writers|
    ensures |t.writers| == |s.writers|
  {
    At(s.(slots := s.slots - {k}), p, Done(false))
  }

  function Next(s: State, p: nat, c: Choice): (t: State)
    requires p < |s.writers|
    ensures |t.writers| == |s.writers|
  {
    var pc := s.writers[p].pc;
    if pc.Done? || pc.Dead? then s
    else if c.Dies? then At(s, p, Dead)
    else
      match pc
      case Picking(k) => if c.Fails? then At(s, p, Done(false)) else if c.Late? then At(Pick(s, p, k), p, Done(false)) else Pick(s, p, k)
      case Opening(k, f) =>
        if c.Fails? then At(s, p, Cleaning(k, f)) else if c.Late? then At(Open(s, p, k, f), p, Cleaning(k, f)) else Open(s, p, k, f)
      case Filling(k, f, open) =>
        if c.Fails? then At(s, p, Cleaning(k, f)) else if c.Late? then At(Fill(s, p, k, f, open), p, Cleaning(k, f)) else Fill(s, p, k, f, open)
      case Replacing(k, f) =>
        if c.Fails? then At(s, p, Cleaning(k, f)) else if c.Late? then At(Replace(s, p, k, f), p, Cleaning(k, f)) else Replace(s, p, k, f)
      case Cleaning(k, f) => if c.Proceed? then Clean(s, p, k) else At(s, p, Done(false))
  }

  // --- ownership ---------------------------------------------------------------------------------------

  predicate Holding(pc: Pc)
  {
    pc.Opening? || pc.Filling? || pc.Replacing? || pc.Cleaning?
  }

  predicate WriterOk(s: State, p: nat)
    requires p < |s.writers|
  {
    var pc := s.writers[p].pc;
    && (Holding(pc) ==> pc.k in s.slots && s.slots[pc.k] == pc.file)
    && (pc.Filling? ==> pc.open == pc.file)
    && (pc.Replacing? ==> pc.file in s.files && s.files[pc.file] == Whole(s.writers[p].document))
  }

  predicate Apart(s: State, p: nat, q: nat)
    requires p < |s.writers| && q < |s.writers|
  {
    p != q && Holding(s.writers[p].pc) && Holding(s.writers[q].pc) ==> s.writers[p].pc.file != s.writers[q].pc.file
  }

  /** Every writer holds the slot it created, no two hold one, and the index names a whole document that
      nobody is writing. */
  predicate Inv(s: State)
  {
    && (forall k :: k in s.slots ==> s.slots[k] in s.files)
    && (forall f :: f in s.files ==> f < s.next)
    && (forall p :: 0 <= p < |s.writers| ==> WriterOk(s, p))
    && (forall p, q :: 0 <= p < |s.writers| && 0 <= q < |s.writers| ==> Apart(s, p, q))
    && (s.index.Some? ==> s.index.value in s.files && s.files[s.index.value].Whole?)
    && (s.index.Some? ==> forall k :: k in s.slots ==> s.slots[k] != s.index.value)
  }

  /** The step that is interrupted between the rename and its return. */
  predicate LateRename(s: State, p: nat, c: Choice)
    requires p < |s.writers|
  {
    s.writers[p].pc.Replacing? && c.Late?
  }

  /** Two slots never name one file. */
  predicate OneName(s: State)
  {
    forall j, k :: j in s.slots && k in s.slots && j != k ==> s.slots[j] != s.slots[k]
  }

  /** No other writer's slot, and no byte in it, is touched by a step. */
  predicate LeavesOthers(s: State, t: State, p: nat)
    requires p < |s.writers| && |t.writers| == |s.writers|
  {
    forall q :: 0 <= q < |s.writers| && q != p && Holding(s.writers[q].pc) ==>
      var (k, f) := (s.writers[q].pc.k, s.writers[q].pc.file);
      && k in s.slots && k in t.slots && t.slots[k] == s.slots[k] && f in s.files && f in t.files && t.files[f] == s.files[f]
  }

  /** Ownership, and nothing of the others' touched. */
  predicate Kept(s: State, t: State, p: nat)
    requires p < |s.writers|
  {
    |t.writers| == |s.writers| && Inv(t) && OneName(t) && LeavesOthers(s, t, p)
  }

  lemma StallKeeps(s: State, p: nat, pc: Pc)
    requires Inv(s) && OneName(s) && p < |s.writers|
    requires Holding(pc) ==> pc.Cleaning? && Holding(s.writers[p].pc) && pc.k == s.writers[p].pc.k && pc.file == s.writers[p].pc.file
    ensures Kept(s, At(s, p, pc), p)
  {
    var t := At(s, p, pc);
    assert WriterOk(s, p);
    forall q | 0 <= q < |s.writers| ensures WriterOk(t, q) { assert WriterOk(s, q); }
    forall q, r | 0 <= q < |s.writers| && 0 <= r < |s.writers| ensures Apart(t, q, r) {
      assert Apart(s, q, r) && WriterOk(s, q) && WriterOk(s, r);
    }
    OthersApart(s, p);
  }

  /** What a step with an effect still has to show of its own writer. */
  lemma EffectKeeps(s: State, t: State, p: nat)
    requires Inv(s) && p < |s.writers| && |t.writers| == |s.writers| && OneName(t)
    requires forall q :: 0 <= q < |s.writers| && q != p ==> t.writers[q] == s.writers[q]
    requires (forall k :: k in t.slots ==> t.slots[k] in t.files) && (forall f :: f in t.files ==> f < t.next)
    requires t.index.Some? ==> t.index.value in t.files && t.files[t.index.value].Whole? && forall k :: k in t.slots ==> t.slots[k] != t.index.value
    requires WriterOk(t, p) && LeavesOthers(s, t, p)
    requires forall q :: 0 <= q < |s.writers| && q != p && Holding(s.writers[q].pc) && Holding(t.writers[p].pc) ==>
               s.writers[q].pc.file != t.writers[p].pc.file
    ensures Kept(s, t, p)
  {
    forall q | 0 <= q < |s.writers| ensures WriterOk(t, q) { assert WriterOk(s, q); }
    forall q, r | 0 <= q < |s.writers| && 0 <= r < |s.writers| ensures Apart(t, q, r) { assert Apart(s, q, r); }
  }

  /** What the others hold is neither a free slot nor the file of this writer. */
  lemma OthersApart(s: State, p: nat)
    requires Inv(s) && p < |s.writers|
    ensures WriterOk(s, p)
    ensures forall q :: 0 <= q < |s.writers| && q != p && Holding(s.writers[q].pc) ==>
              && s.writers[q].pc.k in s.slots && s.slots[s.writers[q].pc.k] == s.writers[q].pc.file && s.writers[q].pc.file in s.files
              && s.writers[q].pc.file < s.next
              && (Holding(s.writers[p].pc) ==> s.writers[q].pc.file != s.writers[p].pc.file && s.writers[q].pc.k != s.writers[p].pc.k)
  {
    forall q | 0 <= q < |s.writers| && q != p && Holding(s.writers[q].pc)
      ensures s.writers[q].pc.k in s.slots && s.slots[s.writers[q].pc.k] == s.writers[q].pc.file
      ensures Holding(s.writers[p].pc) ==> s.writers[q].pc.file != s.writers[p].pc.file
    {
      assert WriterOk(s, q) && Apart(s, p, q);
    }
  }

  lemma PickKeeps(s: State, p: nat, k: nat)
    requires Inv(s) && OneName(s) && p < |s.writers| && s.writers[p].pc == Picking(k)
    ensures Kept(s, Pick(s, p, k), p)
  {
    OthersApart(s, p);
    hide Inv, Kept;
    if k >= SLOTS { StallKeeps(s, p, Done(false)); } else if k in s.slots { StallKeeps(s, p, Picking(k + 1)); } else { PickedKeeps(s, p, k); }
  }

  lemma PickedKeeps(s: State, p: nat, k: nat)
    requires Inv(s) && OneName(s) && p < |s.writers| && s.writers[p].pc == Picking(k) && k < SLOTS && k !in s.slots
    ensures Kept(s, Pick(s, p, k), p)
  {
    OthersApart(s, p);
    hide Apart, Kept;
    EffectKeeps(s, Pick(s, p, k), p);
  }

  lemma OpenKeeps(s: State, p: nat)
    requires Inv(s) && OneName(s) && p < |s.writers| && s.writers[p].pc.Opening?
    ensures Kept(s, Open(s, p, s.writers[p].pc.k, s.writers[p].pc.file), p)
    ensures Open(s, p, s.writers[p].pc.k, s.writers[p].pc.file).writers[p].pc.Filling?
  {
    OthersApart(s, p);
    hide Apart, Kept;
    EffectKeeps(s, Open(s, p, s.writers[p].pc.k, s.writers[p].pc.file), p);
  }

  lemma FillKeeps(s: State, p: nat)
    requires Inv(s) && OneName(s) && p < |s.writers| && s.writers[p].pc.Filling?
    ensures Kept(s, Fill(s, p, s.writers[p].pc.k, s.writers[p].pc.file, s.writers[p].pc.open), p)
  {
    OthersApart(s, p);
    hide Apart, Kept;
    EffectKeeps(s, Fill(s, p, s.writers[p].pc.k, s.writers[p].pc.file, s.writers[p].pc.open), p);
  }

  lemma ReplaceKeeps(s: State, p: nat)
    requires Inv(s) && OneName(s) && p < |s.writers| && s.writers[p].pc.Replacing?
    ensures Kept(s, Replace(s, p, s.writers[p].pc.k, s.writers[p].pc.file), p)
  {
    OthersApart(s, p);
    hide Apart, Kept;
    EffectKeeps(s, Replace(s, p, s.writers[p].pc.k, s.writers[p].pc.file), p);
  }

  lemma CleanKeeps(s: State, p: nat)
    requires Inv(s) && OneName(s) && p < |s.writers| && s.writers[p].pc.Cleaning?
    ensures Kept(s, Clean(s, p, s.writers[p].pc.k), p)
  {
    OthersApart(s, p);
    hide Apart, Kept;
    EffectKeeps(s, Clean(s, p, s.writers[p].pc.k), p);
  }

  lemma ThenStalls(s: State, t: State, p: nat, pc: Pc)
    requires Inv(s) && OneName(s) && p < |s.writers| && Kept(s, t, p)
    requires forall q :: 0 <= q < |s.writers| && q != p ==> t.writers[q] == s.writers[q]
    requires Holding(pc) ==> pc.Cleaning? && Holding(t.writers[p].pc) && pc.k == t.writers[p].pc.k && pc.file == t.writers[p].pc.file
    ensures Kept(s, At(t, p, pc), p)
  {
    StallKeeps(t, p, pc);
    hide Inv, OneName;
  }

  /** Unless a rename is interrupted after it happened, every step keeps ownership: a writer writes and
      unlinks only the slot it created, and the index always names a whole document. */
  lemma NextKeeps(s: State, p: nat, c: Choice)
    requires Inv(s) && OneName(s) && p < |s.writers| && !LateRename(s, p, c)
    ensures Kept(s, Next(s, p, c), p)
  {
    var pc := s.writers[p].pc;
    hide Inv, OneName, Kept;
    if pc.Done? || pc.Dead? {
      NothingKept(s, p);
    } else if c.Dies? {
      StallKeeps(s, p, Dead);
    } else {
      match pc {
        case Picking(k) =>
          if c.Fails? { StallKeeps(s, p, Done(false)); } else {
            PickKeeps(s, p, k);
            ThenStalls(s, Pick(s, p, k), p, Done(false));
          }
        case Opening(k, f) =>
          if c.Fails? { StallKeeps(s, p, Cleaning(k, f)); } else {
            OpenKeeps(s, p);
            ThenStalls(s, Open(s, p, k, f), p, Cleaning(k, f));
          }
        case Filling(k, f, open) =>
          if c.Fails? { StallKeeps(s, p, Cleaning(k, f)); } else {
            FillKeeps(s, p);
            ThenStalls(s, Fill(s, p, k, f, open), p, Cleaning(k, f));
          }
        case Replacing(k, f) => if c.Fails? { StallKeeps(s, p, Cleaning(k, f)); } else { ReplaceKeeps(s, p); }
        case Cleaning(k, f) => if c.Proceed? { CleanKeeps(s, p); } else { StallKeeps(s, p, Done(false)); }
      }
    }
  }

  lemma NothingKept(s: State, p: nat)
    requires Inv(s) && OneName(s) && p < |s.writers|
    ensures Kept(s, s, p)
  {
    OthersApart(s, p);
  }

  /** Inodes are made anew, and an inode has one name. */
  predicate NamesApart(s: State)
  {
    && OneName(s) && (forall k :: k in s.slots ==> s.slots[k] < s.next) && (forall f :: f in s.files ==> f < s.next)
    && (s.index.Some? ==> s.index.value < s.next && forall k :: k in s.slots ==> s.slots[k] != s.index.value)
    && (forall p :: 0 <= p < |s.writers| && s.writers[p].pc.Filling? ==> s.writers[p].pc.open < s.next)
  }

  lemma AtNamesApart(s: State, p: nat, pc: Pc)
    requires NamesApart(s) && p < |s.writers| && (pc.Filling? ==> pc.open < s.next)
    ensures NamesApart(At(s, p, pc))
  {
  }

  /** A new inode under a free slot. */
  lemma NewNameApart(s: State, k: nat)
    requires NamesApart(s) && k !in s.slots
    ensures NamesApart(s.(slots := s.slots[k := s.next], files := s.files[s.next := Partial], next := s.next + 1))
  {
  }

  lemma PickNamesApart(s: State, p: nat, k: nat)
    requires NamesApart(s) && p < |s.writers|
    ensures NamesApart(Pick(s, p, k))
  {
    hide NamesApart;
    if k >= SLOTS { AtNamesApart(s, p, Done(false)); }
    else if k in s.slots { AtNamesApart(s, p, Picking(k + 1)); }
    else {
      NewNameApart(s, k);
      AtNamesApart(s.(slots := s.slots[k := s.next], files := s.files[s.next := Partial], next := s.next + 1), p, Opening(k, s.next));
    }
  }

  lemma OpenNamesApart(s: State, p: nat, k: nat, f: nat)
    requires NamesApart(s) && p < |s.writers|
    ensures NamesApart(Open(s, p, k, f))
  {
    if k in s.slots {
      var t := s.(files := s.files[s.slots[k] := Partial]);
      assert NamesApart(t);
      AtNamesApart(t, p, Filling(k, f, s.slots[k]));
    } else {
      NewNameApart(s, k);
      AtNamesApart(s.(slots := s.slots[k := s.next], files := s.files[s.next := Partial], next := s.next + 1), p, Filling(k, f, s.next));
    }
    hide NamesApart;
  }

  lemma OtherNamesApart(s: State, p: nat, k: nat, f: nat, open: nat)
    requires NamesApart(s) && p < |s.writers|
    ensures open < s.next ==> NamesApart(Fill(s, p, k, f, open))
    ensures NamesApart(Replace(s, p, k, f)) && NamesApart(Clean(s, p, k))
  {
    if open < s.next {
      var t := s.(files := s.files[open := Whole(s.writers[p].document)]);
      assert NamesApart(t);
      AtNamesApart(t, p, Replacing(k, f));
    }
    CleanNamesApart(s, k);
    AtNamesApart(s.(slots := s.slots - {k}), p, Done(false));
    if k in s.slots { AtNamesApart(s.(index := Some(s.slots[k]), slots := s.slots - {k}), p, Done(true)); } else { AtNamesApart(s, p, Cleaning(k, f)); }
    hide NamesApart;
  }

  lemma CleanNamesApart(s: State, k: nat)
    requires NamesApart(s)
    ensures NamesApart(s.(slots := s.slots - {k}))
    ensures k in s.slots ==> NamesApart(s.(index := Some(s.slots[k]), slots := s.slots - {k}))
  {
  }

  lemma EndsApart(s: State, p: nat, k: nat, f: nat)
    requires NamesApart(s) && p < |s.writers|
    ensures NamesApart(At(s, p, Dead)) && NamesApart(At(s, p, Done(false))) && NamesApart(At(s, p, Cleaning(k, f)))
  {
    hide NamesApart, At;
    AtNamesApart(s, p, Dead);
    AtNamesApart(s, p, Done(false));
    AtNamesApart(s, p, Cleaning(k, f));
  }

  lemma EarlyNamesApart(s: State, p: nat, c: Choice)
    requires NamesApart(s) && p < |s.writers| && (s.writers[p].pc.Picking? || s.writers[p].pc.Opening?)
    ensures NamesApart(Next(s, p, c))
  {
    hide NamesApart, Pick, Open, Fill, Replace, Clean, At;
    var pc := s.writers[p].pc;
    if pc.Picking? {
      PickNamesApart(s, p, pc.k);
      EndsApart(s, p, 0, 0);
      EndsApart(Pick(s, p, pc.k), p, 0, 0);
    } else {
      OpenNamesApart(s, p, pc.k, pc.file);
      EndsApart(s, p, pc.k, pc.file);
      EndsApart(Open(s, p, pc.k, pc.file), p, pc.k, pc.file);
    }
  }

  lemma LateNamesApart(s: State, p: nat, c: Choice)
    requires NamesApart(s) && p < |s.writers| && (s.writers[p].pc.Filling? || s.writers[p].pc.Replacing? || s.writers[p].pc.Cleaning?)
    ensures NamesApart(Next(s, p, c))
  {
    OpenIsMade(s, p);
    hide NamesApart, Pick, Open, Fill, Replace, Clean, At;
    var pc := s.writers[p].pc;
    EndsApart(s, p, pc.k, pc.file);
    if pc.Filling? {
      OtherNamesApart(s, p, pc.k, pc.file, pc.open);
      EndsApart(Fill(s, p, pc.k, pc.file, pc.open), p, pc.k, pc.file);
    } else {
      OtherNamesApart(s, p, pc.k, pc.file, 0);
      if pc.Replacing? { EndsApart(Replace(s, p, pc.k, pc.file), p, pc.k, pc.file); }
    }
  }

  lemma NextNamesApart(s: State, p: nat, c: Choice)
    requires NamesApart(s) && p < |s.writers|
    ensures NamesApart(Next(s, p, c))
  {
    var pc := s.writers[p].pc;
    if pc.Picking? || pc.Opening? { EarlyNamesApart(s, p, c); } else if pc.Filling? || pc.Replacing? || pc.Cleaning? { LateNamesApart(s, p, c); }
    hide NamesApart, Pick, Open, Fill, Replace, Clean, At;
  }

  lemma OpenIsMade(s: State, p: nat)
    requires NamesApart(s) && p < |s.writers|
    ensures s.writers[p].pc.Filling? ==> s.writers[p].pc.open < s.next
  {
  }

  datatype Move = Move(p: nat, choice: Choice)

  function Run(s: State, moves: seq<Move>): (t: State)
    ensures |t.writers| == |s.writers|
    decreases |moves|
  {
    if moves == [] then s
    else
      var m := moves[0];
      Run(if m.p < |s.writers| then Next(s, m.p, m.choice) else s, moves[1..])
  }

  /** Over every run, also one that loses slots, no inode gets a second name: what a writer truncates by path is
      never what the index names. */
  lemma {:induction false} RunNamesApart(s: State, moves: seq<Move>)
    requires NamesApart(s)
    ensures NamesApart(Run(s, moves))
    decreases |moves|
  {
    hide NamesApart, Next;
    if moves != [] {
      var m := moves[0];
      if m.p < |s.writers| { NextNamesApart(s, m.p, m.choice); }
      RunNamesApart(if m.p < |s.writers| then Next(s, m.p, m.choice) else s, moves[1..]);
    }
  }

  /** No rename of the run is interrupted after it happened. */
  predicate NoLateRename(s: State, moves: seq<Move>)
    decreases |moves|
  {
    moves == [] ||
    var m := moves[0];
    (m.p < |s.writers| ==> !LateRename(s, m.p, m.choice))
    && NoLateRename(if m.p < |s.writers| then Next(s, m.p, m.choice) else s, moves[1..])
  }

  /** Over any interleaving, with failures, deaths and interruptions anywhere else, each writer keeps the
      slot it created and the index is never seen partial. */
  lemma {:induction false} RunKeeps(s: State, moves: seq<Move>)
    requires Inv(s) && OneName(s) && NoLateRename(s, moves)
    ensures Inv(Run(s, moves)) && OneName(Run(s, moves))
    decreases |moves|
  {
    if moves != [] {
      var m := moves[0];
      if m.p < |s.writers| {
        NextKeeps(s, m.p, m.choice);
        hide Inv, OneName, Next;
        RunKeeps(Next(s, m.p, m.choice), moves[1..]);
      } else {
        RunKeeps(s, moves[1..]);
      }
    }
  }

  // --- the step that is left out -----------------------------------------------------------------------

  /** Writers other than `p` move, and none of their renames is interrupted after it happened. */
  predicate OthersMove(s: State, p: nat, moves: seq<Move>)
  {
    NoLateRename(s, moves) && forall i :: 0 <= i < |moves| ==> moves[i].p != p
  }

  lemma AtCommutes(s: State, p: nat, pc: Pc, q: nat, x: Pc)
    requires p < |s.writers| && q < |s.writers| && p != q
    ensures At(At(s, p, pc), q, x) == At(At(s, q, x), p, pc)
  {
    var w, v := s.writers[p].(pc := pc), s.writers[q].(pc := x);
    assert s.writers[p := w][q := v] == s.writers[q := v][p := w];
  }

  /** A step without its own program counter, which comes last. */
  lemma MoveCommutes(s: State, t: State, p: nat, pc: Pc, q: nat, x: Pc)
    requires p < |s.writers| && q < |s.writers| && p != q && t.writers == s.writers
    ensures At(t.(writers := At(s, p, pc).writers), q, x) == At(At(t, q, x), p, pc)
  {
    AtCommutes(t, p, pc, q, x);
  }

  lemma EffectsCommute(s: State, p: nat, pc: Pc, q: nat, k: nat, f: nat, open: nat)
    requires p < |s.writers| && q < |s.writers| && p != q
    ensures Pick(At(s, p, pc), q, k) == At(Pick(s, q, k), p, pc)
    ensures Open(At(s, p, pc), q, k, f) == At(Open(s, q, k, f), p, pc)
    ensures Fill(At(s, p, pc), q, k, f, open) == At(Fill(s, q, k, f, open), p, pc)
    ensures Replace(At(s, p, pc), q, k, f) == At(Replace(s, q, k, f), p, pc)
    ensures Clean(At(s, p, pc), q, k) == At(Clean(s, q, k), p, pc)
  {
    forall t: State, x: Pc | t.writers == s.writers
      ensures At(t.(writers := At(s, p, pc).writers), q, x) == At(At(t, q, x), p, pc)
    {
      MoveCommutes(s, t, p, pc, q, x);
    }
    assert At(s, p, pc).writers[q] == s.writers[q];
    PickCommutes(s, p, pc, q, k);
    OpenCommutes(s, p, pc, q, k, f);
    hide At;
  }

  lemma PickCommutes(s: State, p: nat, pc: Pc, q: nat, k: nat)
    requires p < |s.writers| && q < |s.writers| && p != q
    ensures Pick(At(s, p, pc), q, k) == At(Pick(s, q, k), p, pc)
  {
    AtCommutes(s, p, pc, q, Done(false));
    AtCommutes(s, p, pc, q, Picking(k + 1));
    var t := s.(slots := s.slots[k := s.next], files := s.files[s.next := Partial], next := s.next + 1);
    MoveCommutes(s, t, p, pc, q, Opening(k, s.next));
  }

  lemma OpenCommutes(s: State, p: nat, pc: Pc, q: nat, k: nat, f: nat)
    requires p < |s.writers| && q < |s.writers| && p != q
    ensures Open(At(s, p, pc), q, k, f) == At(Open(s, q, k, f), p, pc)
  {
    if k in s.slots {
      MoveCommutes(s, s.(files := s.files[s.slots[k] := Partial]), p, pc, q, Filling(k, f, s.slots[k]));
    } else {
      var t := s.(slots := s.slots[k := s.next], files := s.files[s.next := Partial], next := s.next + 1);
      MoveCommutes(s, t, p, pc, q, Filling(k, f, s.next));
    }
  }

  /** What the others do does not depend on where `p` is. */
  lemma StepWithout(s: State, p: nat, pc: Pc, q: nat, c: Choice)
    requires p < |s.writers| && q < |s.writers| && p != q
    ensures Next(At(s, p, pc), q, c) == At(Next(s, q, c), p, pc)
    ensures LateRename(At(s, p, pc), q, c) == LateRename(s, q, c)
    ensures Next(s, q, c).writers[p] == s.writers[p]
  {
    assert At(s, p, pc).writers[q] == s.writers[q];
    var own := s.writers[q].pc;
    EffectsCommute(s, p, pc, q, if own.Done? || own.Dead? then 0 else own.k, if Holding(own) then own.file else 0, if own.Filling? then own.open else 0);
    forall t: State, x: Pc | |t.writers| == |s.writers| ensures At(At(t, p, pc), q, x) == At(At(t, q, x), p, pc) {
      AtCommutes(t, p, pc, q, x);
    }
    OwnOnly(s, p, q, c);
    hide At, Pick, Open, Fill, Replace, Clean;
  }

  lemma OwnOnly(s: State, p: nat, q: nat, c: Choice)
    requires p < |s.writers| && q < |s.writers| && p != q
    ensures Next(s, q, c).writers[p] == s.writers[p]
  {
  }

  lemma {:induction false} RunWithout(s: State, p: nat, pc: Pc, moves: seq<Move>)
    requires p < |s.writers| && OthersMove(s, p, moves)
    ensures |Run(s, moves).writers| == |s.writers| && Run(s, moves).writers[p] == s.writers[p]
    ensures Run(At(s, p, pc), moves) == At(Run(s, moves), p, pc) && NoLateRename(At(s, p, pc), moves)
    decreases |moves|
  {
    hide Next, LateRename;
    if moves != [] {
      var m := moves[0];
      assert m.p != p;
      if m.p < |s.writers| {
        StepWithout(s, p, pc, m.p, m.choice);
        hide At;
        RunWithout(Next(s, m.p, m.choice), p, pc, moves[1..]);
      } else {
        hide At;
        RunWithout(s, p, pc, moves[1..]);
      }
    }
  }

  /** A step somewhere in the run created slot `k`. */
  predicate CreatedIn(s: State, moves: seq<Move>, k: nat)
  {
    exists i :: 0 <= i < |moves| && k !in Run(s, moves[..i]).slots && k in Run(s, moves[..i + 1]).slots
  }

  lemma {:induction false} SlotAppeared(s: State, moves: seq<Move>, k: nat)
    requires k !in s.slots && k in Run(s, moves).slots
    ensures CreatedIn(s, moves, k)
    decreases |moves|
  {
    hide Run;
    EmptyRun(s, moves);
    var n := |moves| - 1;
    assert moves[..n + 1] == moves;
    if k !in Run(s, moves[..n]).slots {
    } else {
      EmptyRun(s, moves[..n]);
      SlotAppeared(s, moves[..n], k);
      var i :| 0 <= i < n && k !in Run(s, moves[..n][..i]).slots && k in Run(s, moves[..n][..i + 1]).slots;
      assert moves[..n][..i] == moves[..i] && moves[..n][..i + 1] == moves[..i + 1];
    }
  }

  lemma EmptyRun(s: State, moves: seq<Move>)
    ensures moves == [] ==> Run(s, moves) == s
  {
  }

  /** The interrupted rename itself: the index is published, and the slot is free though its writer is about to
      clean it. */
  lemma LateRenameFrees(s: State, p: nat)
    requires Inv(s) && OneName(s) && p < |s.writers| && s.writers[p].pc.Replacing?
    ensures var k, t := s.writers[p].pc.k, Next(s, p, Late);
            && k !in t.slots && t.writers[p].pc == Cleaning(k, s.writers[p].pc.file)
            && Inv(At(t, p, Dead)) && OneName(At(t, p, Dead))
  {
    assert WriterOk(s, p);
    ReplaceKeeps(s, p);
    var t := Replace(s, p, s.writers[p].pc.k, s.writers[p].pc.file);
    StallKeeps(t, p, Dead);
    assert At(Next(s, p, Late), p, Dead) == At(t, p, Dead);
    hide Inv, OneName;
  }

  /** And what it costs, however the others go on: each of them keeps its slot until the interrupted writer
      cleans up, and then that takes the slot of another exactly when one holds the freed slot by then, which
      it must have created in between. Whoever holds any other slot keeps it. */
  lemma LateRenameLosesSlot(s: State, p: nat, moves: seq<Move>)
    requires Inv(s) && OneName(s) && p < |s.writers| && s.writers[p].pc.Replacing?
    requires OthersMove(Next(s, p, Late), p, moves)
    ensures var k, freed := s.writers[p].pc.k, Next(s, p, Late);
            var t := Run(freed, moves);
            var u := Next(t, p, Proceed);
            && |t.writers| == |s.writers| && |u.writers| == |s.writers|
            && (forall q :: 0 <= q < |s.writers| && q != p && Holding(t.writers[q].pc) ==>
                  && t.writers[q].pc.k in t.slots && t.slots[t.writers[q].pc.k] == t.writers[q].pc.file
                  && u.writers[q] == t.writers[q]
                  && (t.writers[q].pc.k !in u.slots <==> t.writers[q].pc.k == k)
                  && (t.writers[q].pc.k == k ==> CreatedIn(freed, moves, k)))
  {
    var k, freed := s.writers[p].pc.k, Next(s, p, Late);
    LateRenameFrees(s, p);
    hide Next;
    RunWithout(freed, p, Dead, moves);
    RunKeeps(At(freed, p, Dead), moves);
    var t := Run(freed, moves);
    var shadow := At(t, p, Dead);
    hide Run, NoLateRename;
    Cleaned(t, p, k, s.writers[p].pc.file);
    forall q | 0 <= q < |s.writers| && q != p && Holding(t.writers[q].pc)
      ensures t.writers[q].pc.k in t.slots && t.slots[t.writers[q].pc.k] == t.writers[q].pc.file
      ensures t.writers[q].pc.k == k ==> CreatedIn(freed, moves, k)
    {
      assert shadow.writers[q] == t.writers[q] && shadow.slots == t.slots && WriterOk(shadow, q);
      if t.writers[q].pc.k == k { SlotAppeared(freed, moves, k); }
    }
    hide Inv, OneName, CreatedIn;
  }

  lemma {:induction false} RunSnoc(s: State, moves: seq<Move>, m: Move)
    requires m.p < |s.writers|
    ensures Run(s, moves + [m]) == Next(Run(s, moves), m.p, m.choice)
    decreases |moves|
  {
    hide Next;
    if moves == [] {
      assert [m][1..] == [];
      assert Run(s, [m]) == Run(Next(s, m.p, m.choice), [m][1..]);
      assert moves + [m] == [m];
    } else {
      assert (moves + [m])[1..] == moves[1..] + [m];
      RunSnoc(if moves[0].p < |s.writers| then Next(s, moves[0].p, moves[0].choice) else s, moves[1..], m);
    }
  }

  /** A store without an index, and three writers about to look for a slot. */
  function Fresh(a: int, b: int, c: int): State
  {
    State(map[], None, map[], 0, [Writer(a, Picking(0)), Writer(b, Picking(0)), Writer(c, Picking(0))])
  }

  /** The first writer gets as far as its rename. */
  function Filled(): seq<Move>
  {
    [Move(0, Proceed)] + [Move(0, Proceed)] + [Move(0, Proceed)]
  }

  /** The rename is interrupted after it happened, and the second writer takes the freed slot. */
  function Interrupted(): seq<Move>
  {
    Filled() + [Move(0, Late)] + [Move(1, Proceed)]
  }

  lemma FilledIs(a: int, b: int, c: int)
    ensures Run(Fresh(a, b, c), Filled())
         == State(map[0 := 0], None, map[0 := Whole(a)], 1,
                  [Writer(a, Replacing(0, 0)), Writer(b, Picking(0)), Writer(c, Picking(0))])
  {
    var s := Fresh(a, b, c);
    var one := [Move(0, Proceed)];
    var two := one + [Move(0, Proceed)];
    RunSnoc(s, [], Move(0, Proceed));
    assert [] + one == one && Run(s, []) == s;
    RunSnoc(s, one, Move(0, Proceed));
    RunSnoc(s, two, Move(0, Proceed));
    hide Run;
    assert Run(s, one)
        == State(map[0 := 0], None, map[0 := Partial], 1, [Writer(a, Opening(0, 0)), Writer(b, Picking(0)), Writer(c, Picking(0))]);
    assert Run(s, two)
        == State(map[0 := 0], None, map[0 := Partial], 1, [Writer(a, Filling(0, 0, 0)), Writer(b, Picking(0)), Writer(c, Picking(0))]);
  }

  lemma InterruptedIs(a: int, b: int, c: int)
    ensures Run(Fresh(a, b, c), Interrupted())
         == State(map[0 := 1], Some(0), map[0 := Whole(a), 1 := Partial], 2,
                  [Writer(a, Cleaning(0, 0)), Writer(b, Opening(0, 1)), Writer(c, Picking(0))])
  {
    var s := Fresh(a, b, c);
    FilledIs(a, b, c);
    RunSnoc(s, Filled(), Move(0, Late));
    RunSnoc(s, Filled() + [Move(0, Late)], Move(1, Proceed));
    hide Run, Filled;
    assert Run(s, Filled() + [Move(0, Late)])
        == State(map[], Some(0), map[0 := Whole(a)], 1, [Writer(a, Cleaning(0, 0)), Writer(b, Picking(0)), Writer(c, Picking(0))]);
  }

  lemma FirstCleans(a: int, b: int, c: int)
    ensures Next(State(map[0 := 1], Some(0), map[0 := Whole(a), 1 := Partial], 2,
                       [Writer(a, Cleaning(0, 0)), Writer(b, Opening(0, 1)), Writer(c, Picking(0))]), 0, Proceed)
         == State(map[], Some(0), map[0 := Whole(a), 1 := Partial], 2,
                  [Writer(a, Done(false)), Writer(b, Opening(0, 1)), Writer(c, Picking(0))])
  {
  }

  lemma FreshHolds(a: int, b: int, c: int)
    ensures |Fresh(a, b, c).writers| == 3 && Inv(Fresh(a, b, c)) && OneName(Fresh(a, b, c))
  {
  }

  /** It does happen, from a store with nothing in it: the interrupted writer's cleanup removes the slot that the
      second writer holds and is about to fill. */
  lemma SlotCanBeLost(a: int, b: int, c: int)
    ensures var s := Fresh(a, b, c);
            var (t, u) := (Run(s, Interrupted()), Run(s, Interrupted() + [Move(0, Proceed)]));
            && Inv(s) && OneName(s)
            && t.writers[1].pc == Opening(0, 1) && 0 in t.slots && t.slots[0] == 1
            && u == State(map[], Some(0), map[0 := Whole(a), 1 := Partial], 2,
                          [Writer(a, Done(false)), Writer(b, Opening(0, 1)), Writer(c, Picking(0))])
  {
    InterruptedIs(a, b, c);
    RunSnoc(Fresh(a, b, c), Interrupted(), Move(0, Proceed));
    FirstCleans(a, b, c);
    FreshHolds(a, b, c);
    hide Run, Interrupted, Next, Fresh, Inv, OneName;
  }

  /** The third writer takes the slot that was lost and fills it, and the second opens it by its name. */
  function Torn(): seq<Move>
  {
    Interrupted() + [Move(0, Proceed)] + [Move(2, Proceed)] + [Move(2, Proceed)] + [Move(2, Proceed)] + [Move(1, Proceed)]
  }

  /** The slots, the index, the newest of the files and the three writers after the slot was lost. */
  function Later(a: int, b: int, c: int, slots: map<nat, nat>, newest: map<nat, File>, second: Pc, third: Pc): State
  {
    State(slots, Some(0), map[0 := Whole(a), 1 := Partial] + newest, 2 + |newest|,
          [Writer(a, Done(false)), Writer(b, second), Writer(c, third)])
  }

  lemma ThirdPicks(a: int, b: int, c: int)
    ensures Next(Later(a, b, c, map[], map[], Opening(0, 1), Picking(0)), 2, Proceed)
         == Later(a, b, c, map[0 := 2], map[2 := Partial], Opening(0, 1), Opening(0, 2))
  {
  }

  lemma ThirdOpens(a: int, b: int, c: int)
    ensures Next(Later(a, b, c, map[0 := 2], map[2 := Partial], Opening(0, 1), Opening(0, 2)), 2, Proceed)
         == Later(a, b, c, map[0 := 2], map[2 := Partial], Opening(0, 1), Filling(0, 2, 2))
  {
  }

  lemma ThirdFills(a: int, b: int, c: int)
    ensures Next(Later(a, b, c, map[0 := 2], map[2 := Partial], Opening(0, 1), Filling(0, 2, 2)), 2, Proceed)
         == Later(a, b, c, map[0 := 2], map[2 := Whole(c)], Opening(0, 1), Replacing(0, 2))
  {
  }

  lemma SecondEmpties(a: int, b: int, c: int)
    ensures Next(Later(a, b, c, map[0 := 2], map[2 := Whole(c)], Opening(0, 1), Replacing(0, 2)), 1, Proceed)
         == Later(a, b, c, map[0 := 2], map[2 := Partial], Filling(0, 1, 2), Replacing(0, 2))
  {
  }

  lemma ThirdPublishes(a: int, b: int, c: int)
    ensures var t := Next(Later(a, b, c, map[0 := 2], map[2 := Partial], Filling(0, 1, 2), Replacing(0, 2)), 2, Proceed);
            t.writers[2].pc == Done(true) && t.index == Some(2) && 2 in t.files && t.files[2].Partial?
  {
  }

  /** And what it can come to: the third writer publishes what the second has just emptied, and the index names a
      file with a torn document. */
  lemma IndexCanBeTorn(a: int, b: int, c: int)
    ensures var t := Run(Fresh(a, b, c), Torn() + [Move(2, Proceed)]);
            t.writers[2].pc == Done(true) && t.index == Some(2) && 2 in t.files && t.files[2].Partial?
  {
    hide Run, Next, Interrupted, Inv, OneName, Later, Fresh;
    var s := Fresh(a, b, c);
    LostIs(a, b, c);
    var lost := Interrupted() + [Move(0, Proceed)];
    var one := lost + [Move(2, Proceed)];
    var two := one + [Move(2, Proceed)];
    var three := two + [Move(2, Proceed)];
    FreshHolds(a, b, c);
    RunSnoc(s, lost, Move(2, Proceed));
    RunSnoc(s, one, Move(2, Proceed));
    RunSnoc(s, two, Move(2, Proceed));
    RunSnoc(s, three, Move(1, Proceed));
    RunSnoc(s, Torn(), Move(2, Proceed));
    ThirdPicks(a, b, c);
    ThirdOpens(a, b, c);
    ThirdFills(a, b, c);
    SecondEmpties(a, b, c);
    ThirdPublishes(a, b, c);
  }

  lemma LostIs(a: int, b: int, c: int)
    ensures Run(Fresh(a, b, c), Interrupted() + [Move(0, Proceed)]) == Later(a, b, c, map[], map[], Opening(0, 1), Picking(0))
  {
    SlotCanBeLost(a, b, c);
    hide Run, Next, Interrupted, Inv, OneName, Fresh;
  }

  lemma Cleaned(t: State, p: nat, k: nat, f: nat)
    requires p < |t.writers| && t.writers[p].pc == Cleaning(k, f)
    ensures var u := Next(t, p, Proceed);
            && u.slots == t.slots - {k} && |u.writers| == |t.writers|
            && forall q :: 0 <= q < |t.writers| && q != p ==> u.writers[q] == t.writers[q]
  {
  }

  /** Left to run with a slot free, a writer publishes its own document. */
  lemma {:induction false} UninterruptedPublishes(s: State, p: nat, j: nat) returns (moves: seq<Move>)
    requires Inv(s) && OneName(s) && p < |s.writers|
    requires match s.writers[p].pc
             case Picking(k) => k <= j < SLOTS && j !in s.slots
             case Opening(_, _) => true
             case Filling(_, _, _) => true
             case Replacing(_, _) => true
             case _ => false
    ensures var t := Run(s, moves);
            && |t.writers| == |s.writers| && t.writers[p].pc == Done(true)
            && t.index.Some? && t.index.value in t.files && t.files[t.index.value] == Whole(s.writers[p].document)
    decreases if s.writers[p].pc.Picking? then 3 else if s.writers[p].pc.Opening? then 2 else if s.writers[p].pc.Filling? then 1 else 0,
              if s.writers[p].pc.Picking? then j - s.writers[p].pc.k else 0
  {
    assert WriterOk(s, p);
    NextKeeps(s, p, Proceed);
    var t := Next(s, p, Proceed);
    hide Inv, OneName, LeavesOthers;
    if s.writers[p].pc.Replacing? {
      moves := [Move(p, Proceed)];
      assert Run(s, moves) == Run(t, moves[1..]) == t;
    } else {
      var rest := UninterruptedPublishes(t, p, j);
      moves := [Move(p, Proceed)] + rest;
      assert moves[1..] == rest;
    }
  }
}
