/** How deep and how long the ledger's records are: where the task identity stands in them, and how much
    room everything else takes. */
module LedgerLayout {
  import opened Wrappers
  import opened Text
  import opened Values
  import opened Canon
  import opened DepthScan
  import opened Sizes
  import opened LedgerRecords

  // --- records -----------------------------------------------------------------------------------------

  lemma {:induction false} MembersHas(pairs: seq<(Text, Value)>, k: Text)
    ensures k in Members(pairs) <==> exists i :: 0 <= i < |pairs| && pairs[i].0 == k
    ensures k in Members(pairs) ==> exists i :: 0 <= i < |pairs| && pairs[i] == (k, Members(pairs)[k])
  {
    if pairs != [] {
      var before := pairs[..|pairs| - 1];
      MembersHas(before, k);
      assert forall i :: 0 <= i < |before| ==> before[i] == pairs[i];
      if k == pairs[|pairs| - 1].0 {
        assert pairs[|pairs| - 1] == (k, Members(pairs)[k]);
      } else if k in Members(before) {
        var i :| 0 <= i < |before| && before[i] == (k, Members(before)[k]);
        assert pairs[i] == (k, Members(pairs)[k]);
      }
    }
  }

  /** The last pair of a key is the one that counts. */
  lemma {:induction false} LastCounts(pairs: seq<(Text, Value)>, i: nat)
    requires i < |pairs| && forall j :: i < j < |pairs| ==> pairs[j].0 != pairs[i].0
    ensures pairs[i].0 in Members(pairs) && Members(pairs)[pairs[i].0] == pairs[i].1
  {
    if i < |pairs| - 1 {
      var before := pairs[..|pairs| - 1];
      LastCounts(before, i);
      assert pairs[|pairs| - 1].0 != pairs[i].0;
    }
  }

  lemma {:induction false} MembersFew(pairs: seq<(Text, Value)>)
    ensures |Members(pairs)| <= |pairs|
  {
    if pairs != [] {
      MembersFew(pairs[..|pairs| - 1]);
      var m, last := Members(pairs[..|pairs| - 1]), pairs[|pairs| - 1];
      assert m[last.0 := last.1].Keys == m.Keys + {last.0};
      assert |m[last.0 := last.1]| == |m[last.0 := last.1].Keys| && |m| == |m.Keys|;
    }
  }

  // --- depth -------------------------------------------------------------------------------------------

  lemma {:induction false} DepthMonotone(v: Value, m: int, n: int)
    requires m <= n && DepthAtMost(v, m)
    ensures DepthAtMost(v, n)
    decreases v
  {
    match v {
      case Arr(items) => forall i | 0 <= i < |items| ensures DepthAtMost(items[i], n - 1) { DepthMonotone(items[i], m - 1, n - 1); }
      case Obj(members) => forall k | k in members ensures DepthAtMost(members[k], n - 1) { DepthMonotone(members[k], m - 1, n - 1); }
      case _ =>
    }
  }

  ghost predicate PairsAtMost(pairs: seq<(Text, Value)>, n: int)
  {
    forall i :: 0 <= i < |pairs| ==> DepthAtMost(pairs[i].1, n)
  }

  predicate KeysApart(pairs: seq<(Text, Value)>)
  {
    forall i, j :: 0 <= i < j < |pairs| ==> pairs[i].0 != pairs[j].0
  }

  lemma RecordAtMost(pairs: seq<(Text, Value)>, n: int)
    requires n >= 1 && PairsAtMost(pairs, n - 1)
    ensures DepthAtMost(Record(pairs), n)
  {
    hide Members, DepthAtMost;
    forall k | k in Members(pairs) ensures DepthAtMost(Members(pairs)[k], n - 1) {
      MembersHas(pairs, k);
      var i :| 0 <= i < |pairs| && pairs[i] == (k, Members(pairs)[k]);
    }
    ObjAtMost(Members(pairs), n);
  }

  lemma ObjAtMost(m: map<Text, Value>, n: int)
    ensures DepthAtMost(Obj(m), n) <==> n >= 1 && forall k :: k in m ==> DepthAtMost(m[k], n - 1)
  {
  }

  /** A record of shallow pairs and then some deep ones is as deep as those. */
  lemma RecordDepth(flat: seq<(Text, Value)>, deep: seq<(Text, Value)>, n: int)
    requires n >= 1 && PairsAtMost(flat, n - 1) && KeysApart(deep)
    ensures DepthAtMost(Record(flat + deep), n) <==> PairsAtMost(deep, n - 1)
  {
    var pairs := flat + deep;
    hide Members, DepthAtMost;
    if PairsAtMost(deep, n - 1) {
      RecordAtMost(pairs, n);
    }
    if DepthAtMost(Record(pairs), n) {
      ObjAtMost(Members(pairs), n);
      forall i | 0 <= i < |deep| ensures DepthAtMost(deep[i].1, n - 1) {
        assert pairs[|flat| + i] == deep[i];
        assert forall j :: |flat| + i < j < |pairs| ==> pairs[j] == deep[j - |flat|];
        LastCounts(pairs, |flat| + i);
      }
    }
  }

  lemma ArrAtMost(items: seq<Value>, n: int)
    ensures DepthAtMost(Arr(items), n) <==> n >= 1 && forall i :: 0 <= i < |items| ==> DepthAtMost(items[i], n - 1)
  {
  }

  lemma StringsShallow(ss: seq<string>, n: int)
    requires n >= 1
    ensures DepthAtMost(Strings(ss), n)
  {
  }

  lemma ArtifactShallow(a: Artifact, n: int)
    requires n >= 1
    ensures DepthAtMost(ArtifactValue(a), n)
  {
    RecordAtMost([(T("path"), S(a.path)), (T("sha256"), S(a.sha256))], n);
  }

  lemma RowsShallow(x: Texts, rows: seq<Row>, field: string, n: int)
    requires n >= 2
    ensures DepthAtMost(RowsValue(x, rows, field), n)
  {
    forall i | 0 <= i < |rows| ensures DepthAtMost(RowValue(x, rows[i], field), n - 1) {
      RecordAtMost(RowPairs(rows[i]) + [(T(field), AmountValue(x, rows[i].amount))], n - 1);
    }
    hide RowValue, DepthAtMost, T;
    ArrAtMost(seq(|rows|, i requires 0 <= i < |rows| => RowValue(x, rows[i], field)), n);
  }

  lemma SettledRowsShallow(x: Texts, rows: seq<SettledRow>, n: int)
    requires n >= 2
    ensures DepthAtMost(SettledRowsValue(x, rows), n)
  {
    var items := SettledRowsValue(x, rows).items;
    forall i | 0 <= i < |rows| ensures DepthAtMost(items[i], n - 1) {
      RecordAtMost(RowPairs(rows[i].measured) + [(T("measured_amount"), AmountValue(x, rows[i].measured.amount)),
                                                 (T("settled_amount_or_UNKNOWN"), AmountValue(x, rows[i].settled))], n - 1);
    }
    hide DepthAtMost, T, Record;
    ArrAtMost(items, n);
  }

  lemma FieldsShallow(x: Texts, f: Fields, n: int)
    requires n >= 2
    ensures PairsAtMost(FieldPairs(x, f), n)
  {
    match f {
      case Reservation(_, _, rows) => RowsShallow(x, rows, "reserved_amount", n);
      case Dispatch(_, _) =>
      case Completion(_, _, _, _, _, _) => CompletionShallow(x, f, n);
      case Settlement(_, _, _, _, _, _, _, _) => SettlementShallow(x, f, n);
    }
    hide RowsValue, T;
  }

  lemma CompletionShallow(x: Texts, f: Fields, n: int)
    requires n >= 2 && f.Completion?
    ensures PairsAtMost(FieldPairs(x, f), n)
  {
    ArtifactShallow(f.observation, n);
    RowsShallow(x, f.measuredRows, "measured_amount", n);
    hide RowsValue, ArtifactValue, T, IdText, PerformedName, MeasuredName;
  }

  lemma SettlementShallow(x: Texts, f: Fields, n: int)
    requires n >= 2 && f.Settlement?
    ensures PairsAtMost(FieldPairs(x, f), n)
  {
    SettledRowsShallow(x, f.settledRows, n);
    hide SettledRowsValue, T, IdText, PerformedName, MeasuredName;
  }

  lemma EventPairsShallow(x: Texts, e: Event, n: int)
    requires n >= 2
    ensures PairsAtMost(EventPairs(x, e), n)
  {
    FieldsShallow(x, e.fields, n);
    ArtifactShallow(e.eventId.binding.basis, n);
    StringsShallow(e.eventId.binding.expectedIds, n);
    hide FieldPairs, ArtifactValue, Strings, T;
  }

  /** An envelope is one deeper than what it carries. */
  lemma EnvelopeDepth(signer: Signer, signature: Signature, sha256: Sha, body: Value, n: int)
    requires n >= 2
    ensures DepthAtMost(Envelope(signer, signature, sha256, body), n) <==> DepthAtMost(body, n - 1)
  {
    RecordAtMost(ProducerPairs(signer.producer), n - 1);
    var flat := [(T("issuer_identity"), S(signer.issuer)), (T("producer_identity"), Record(ProducerPairs(signer.producer))),
                 (T("signature"), Str(signature)), (T("sha256"), Str(sha256))];
    hide Record, T, ProducerPairs;
    RecordDepth(flat, [(T("body"), body)], n);
    assert flat + [(T("body"), body)] == [flat[0], flat[1], flat[2], flat[3], (T("body"), body)];
  }

  /** The identity stands two below an event's record. */
  lemma EventDepth(x: Texts, e: Event, n: int)
    requires n >= 4
    ensures DepthAtMost(EventValue(x, e), n) <==> DepthAtMost(e.eventId.binding.taskIdentity, n - 2)
  {
    EventPairsShallow(x, e, n - 2);
    hide EventPairs, Record, T, Envelope, DepthAtMost;
    var deep := [(T("task_identity"), e.eventId.binding.taskIdentity)];
    RecordDepth(EventPairs(x, e), deep, n - 1);
    EnvelopeDepth(e.signer, x.eventSignature(e), x.eventSha(e), Record(EventPairs(x, e) + deep), n);
    hide KeysApart;
    assert deep[0].1 == e.eventId.binding.taskIdentity;
  }

  /** Every event recorded is bound to this identity. */
  predicate BoundTo(c: Child, identity: Value)
  {
    forall kind :: kind in KINDS && Slot(c, kind).Some? ==> Slot(c, kind).value.eventId.binding.taskIdentity == identity
  }

  predicate Empty(c: Child)
  {
    forall kind :: kind in KINDS ==> Slot(c, kind).None?
  }

  lemma SlotDepth(x: Texts, e: Option<Event>, identity: Value, n: int)
    requires n >= 4 && (e.Some? ==> e.value.eventId.binding.taskIdentity == identity)
    ensures DepthAtMost(SlotValue(x, e), n) <==> e.None? || DepthAtMost(identity, n - 2)
  {
    if e.Some? { EventDepth(x, e.value, n); }
    hide EventValue;
  }

  lemma SlotKeysApart(x: Texts, c: Child)
    ensures KeysApart(SlotPairs(x, c))
  {
    assert T("reservation")[0] != T("dispatch")[0] && T("reservation")[0] != T("completion")[0] && T("reservation")[0] != T("settlement")[0];
    assert T("dispatch")[0] != T("completion")[0] && T("dispatch")[0] != T("settlement")[0] && T("completion")[0] != T("settlement")[0];
    hide T, SlotValue;
  }

  lemma FourPairs(pairs: seq<(Text, Value)>, n: int)
    requires |pairs| == 4
    ensures PairsAtMost(pairs, n) <==>
              DepthAtMost(pairs[0].1, n) && DepthAtMost(pairs[1].1, n) && DepthAtMost(pairs[2].1, n) && DepthAtMost(pairs[3].1, n)
  {
    hide DepthAtMost;
  }

  lemma SlotsDepth(x: Texts, c: Child, identity: Value, n: int)
    requires n >= 4 && BoundTo(c, identity)
    ensures PairsAtMost(SlotPairs(x, c), n) <==> Empty(c) || DepthAtMost(identity, n - 2)
  {
    SlotFields(c, identity);
    hide BoundTo, Empty, SlotValue, DepthAtMost, T;
    SlotDepth(x, c.reservation, identity, n);
    SlotDepth(x, c.dispatch, identity, n);
    SlotDepth(x, c.completion, identity, n);
    SlotDepth(x, c.settlement, identity, n);
    var pairs := SlotPairs(x, c);
    FourPairs(pairs, n);
    hide PairsAtMost;
  }

  lemma SlotFields(c: Child, v: Value)
    ensures Empty(c) <==> c.reservation.None? && c.dispatch.None? && c.completion.None? && c.settlement.None?
    ensures BoundTo(c, v) ==>
              && (c.reservation.Some? ==> c.reservation.value.eventId.binding.taskIdentity == v)
              && (c.dispatch.Some? ==> c.dispatch.value.eventId.binding.taskIdentity == v)
              && (c.completion.Some? ==> c.completion.value.eventId.binding.taskIdentity == v)
              && (c.settlement.Some? ==> c.settlement.value.eventId.binding.taskIdentity == v)
  {
    assert KINDS[0] in KINDS && KINDS[1] in KINDS && KINDS[2] in KINDS && KINDS[3] in KINDS;
    assert Slot(c, KINDS[0]) == c.reservation && Slot(c, KINDS[1]) == c.dispatch;
    assert Slot(c, KINDS[2]) == c.completion && Slot(c, KINDS[3]) == c.settlement;
  }

  /** And three below a child's record, once anything is recorded for it. */
  lemma ChildDepth(x: Texts, c: Child, identity: Value, n: int)
    requires n >= 5 && BoundTo(c, identity)
    ensures DepthAtMost(ChildValue(x, c), n) <==> Empty(c) || DepthAtMost(identity, n - 3)
  {
    hide SlotPairs, T, Record, DepthAtMost, KeysApart, BoundTo, Empty, PairsAtMost;
    SlotsDepth(x, c, identity, n - 1);
    SlotKeysApart(x, c);
    ChildPairsShallow(c, n - 1);
    RecordDepth(ChildPairs(c), SlotPairs(x, c), n);
  }

  lemma ChildPairsShallow(c: Child, n: int)
    ensures PairsAtMost(ChildPairs(c), n)
  {
    hide T;
  }

  lemma ChildrenDepth(x: Texts, children: seq<Child>, identity: Value, n: int)
    requires n >= 6 && forall i :: 0 <= i < |children| ==> BoundTo(children[i], identity)
    ensures DepthAtMost(ChildrenValue(x, children), n)
            <==> (forall i :: 0 <= i < |children| ==> Empty(children[i])) || DepthAtMost(identity, n - 4)
  {
    hide ChildValue, DepthAtMost, Empty, BoundTo;
    var items := ChildrenValue(x, children).items;
    ArrAtMost(items, n);
    forall i | 0 <= i < |children| ensures DepthAtMost(items[i], n - 1) <==> Empty(children[i]) || DepthAtMost(identity, n - 4) {
      ChildDepth(x, children[i], identity, n - 1);
    }
  }

  lemma BudgetDepth(x: Texts, b: Binding, limits: seq<Row>, n: int)
    requires n >= 3
    ensures DepthAtMost(BudgetCopy(x, b, limits), n) <==> DepthAtMost(b.taskIdentity, n - 1)
    ensures DepthAtMost(BudgetOf(x, b, limits), n) <==> DepthAtMost(b.taskIdentity, n - 1)
  {
    RowsShallow(x, limits, "limit", n - 1);
    hide RowsValue, T, Record, DepthAtMost;
    var deep := [(T("task_identity"), b.taskIdentity)];
    BudgetPairsShallow(x, b, limits, n - 1);
    RecordDepth(BudgetPairs(x, b, limits), deep, n);
    var copied := [(T("budget_sha256"), S(b.budgetSha256)), (T("domain"), S("THIS_LOCAL_LEDGER_ONLY"))];
    ScalarPairs(copied, n - 1);
    var flat := BudgetPairs(x, b, limits) + copied;
    assert BudgetPairs(x, b, limits) + [copied[0], copied[1], deep[0]] == flat + deep;
    RecordDepth(flat, deep, n);
    assert PairsAtMost(deep, n - 1) <==> DepthAtMost(deep[0].1, n - 1);
  }

  lemma ScalarPairs(pairs: seq<(Text, Value)>, n: int)
    requires forall i :: 0 <= i < |pairs| ==> !pairs[i].1.Arr? && !pairs[i].1.Obj?
    ensures PairsAtMost(pairs, n)
  {
  }

  lemma BudgetPairsShallow(x: Texts, b: Binding, limits: seq<Row>, n: int)
    requires DepthAtMost(RowsValue(x, limits, "limit"), n)
    ensures PairsAtMost(BudgetPairs(x, b, limits), n)
  {
    hide RowsValue, T;
  }

  lemma SnapshotPairsShallow(x: Texts, s: Snapshot, n: int)
    requires n >= 2
    ensures PairsAtMost(SnapshotPairs(x, s), n)
  {
    var b := s.binding;
    ArtifactShallow(b.basis, n - 1);
    StringsShallow(b.expectedIds, n);
    StringsShallow(["provider", "host", "storage", "memory", "overlap", "financial", "undeclared_axes"], n);
    hide ArtifactValue, Strings, T;
    RecordAtMost([(T("operation_id"), S(b.operationId)), (T("attempt_id"), S(b.attemptId)),
                  (T("start_sha256"), S(b.startSha256)), (T("basis_artifact"), ArtifactValue(b.basis))], n);
    hide Record;
  }

  lemma BodyKeysApart(x: Texts, s: Snapshot)
    ensures KeysApart([(T("task_identity"), s.binding.taskIdentity), (T("budget"), BudgetCopy(x, s.binding, s.limits)),
                       (T("children"), ChildrenValue(x, s.children))])
  {
    assert T("task_identity")[0] != T("budget")[0] && T("task_identity")[0] != T("children")[0] && T("budget")[0] != T("children")[0];
    hide T, BudgetCopy, ChildrenValue;
  }

  predicate NothingRecorded(children: seq<Child>)
  {
    forall i :: 0 <= i < |children| ==> Empty(children[i])
  }

  /** In a snapshot the identity stands three deep, in the copy of the budget, and six deep in every event
      recorded: so a snapshot nests within the loader's bound exactly when the identity nests at most 61
      deep, and at most 58 once anything is recorded. */
  lemma SnapshotDepth(x: Texts, s: Snapshot)
    requires forall i :: 0 <= i < |s.children| ==> BoundTo(s.children[i], s.binding.taskIdentity)
    ensures DepthAtMost(SnapshotValue(x, s), 64)
            <==> DepthAtMost(s.binding.taskIdentity, if NothingRecorded(s.children) then 61 else 58)
  {
    var identity := s.binding.taskIdentity;
    var deep := [(T("task_identity"), identity), (T("budget"), BudgetCopy(x, s.binding, s.limits)),
                 (T("children"), ChildrenValue(x, s.children))];
    BodyKeysApart(x, s);
    SnapshotPairsShallow(x, s, 62);
    BudgetDepth(x, s.binding, s.limits, 62);
    ChildrenDepth(x, s.children, identity, 62);
    hide T, BudgetCopy, ChildrenValue, SnapshotPairs, DepthAtMost, KeysApart, Record, BoundTo, Empty;
    RecordDepth(SnapshotPairs(x, s), deep, 63);
    EnvelopeDepth(s.signer, x.snapshotSignature(s), x.snapshotSha(s), SnapshotBody(x, s), 64);
    assert PairsAtMost(deep, 62) <==> DepthAtMost(deep[0].1, 62) && DepthAtMost(deep[1].1, 62) && DepthAtMost(deep[2].1, 62);
    if DepthAtMost(identity, 58) { DepthMonotone(identity, 58, 61); }
    if DepthAtMost(identity, 61) { DepthMonotone(identity, 61, 62); }
  }
}
