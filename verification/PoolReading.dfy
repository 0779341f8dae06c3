/** When the shared state file can be read back: where what callers gave stands in the common pool's record,
    which changes leave a record that nobody can read, and how much each successor makes it grow. */
module PoolReading {
  import opened Wrappers
  import opened Text
  import opened Values
  import opened DepthScan
  import opened LedgerLayout
  import opened CapacityPools
  import Records = LedgerRecords

  // --- what nests, and where ---------------------------------------------------------------------------

  lemma SignedDepth(producer: Value, body: Value, n: int)
    requires n >= 1
    ensures DepthAtMost(Signed(producer, body), n) <==> DepthAtMost(producer, n - 1) && DepthAtMost(body, n - 1)
  {
    var pairs := [(Records.T("producer_identity"), producer), (Records.T("body"), body)];
    assert Records.T("producer_identity")[0] != Records.T("body")[0];
    hide Records.T, Records.Record, DepthAtMost;
    RecordDepth([], pairs, n);
    assert [] + pairs == pairs;
    assert pairs[0].1 == producer && pairs[1].1 == body;
  }

  lemma EmptyShallow(n: int)
    requires n >= 1
    ensures DepthAtMost(Obj(map[]), n) && DepthAtMost(Arr([]), n) && DepthAtMost(Null, n)
  {
  }

  /** What of a binding a caller gives, at most so deep. */
  predicate BindingShallow(b: Binding, n: int)
  {
    DepthAtMost(b.identity, n) && DepthAtMost(b.input, n) && DepthAtMost(b.childTrust, n) && DepthAtMost(b.observer, n)
  }

  lemma BindingKeysApart(b: Binding)
    ensures KeysApart([(Records.T("task_identity"), b.identity), (Records.T("input_sha256"), b.input),
                       (Records.T("child_trust"), b.childTrust), (Records.T("observer"), b.observer)])
  {
    assert Records.T("task_identity")[0] != Records.T("input_sha256")[0] && Records.T("task_identity")[0] != Records.T("child_trust")[0]
           && Records.T("task_identity")[0] != Records.T("observer")[0];
    assert Records.T("input_sha256")[0] != Records.T("child_trust")[0] && Records.T("input_sha256")[0] != Records.T("observer")[0]
           && Records.T("child_trust")[0] != Records.T("observer")[0];
    hide Records.T;
  }

  lemma BindingDepth(b: Binding, n: int)
    requires n >= 1
    ensures DepthAtMost(BindingContainers(b), n) <==> BindingShallow(b, n - 1)
  {
    BindingKeysApart(b);
    hide Records.T, Records.Record, DepthAtMost, KeysApart;
    var pairs := [(Records.T("task_identity"), b.identity), (Records.T("input_sha256"), b.input),
                  (Records.T("child_trust"), b.childTrust), (Records.T("observer"), b.observer)];
    RecordDepth([], pairs, n);
    assert [] + pairs == pairs;
    FourPairs(pairs, n - 1);
  }

  predicate MembersShallow(m: map<Text, Value>, n: int)
  {
    forall k :: k in m ==> DepthAtMost(m[k], n)
  }

  /** A signed record of a child: who produced it, and the members of its body. */
  predicate SignedShallow(producer: Value, members: map<Text, Value>, n: int)
  {
    DepthAtMost(producer, n) && MembersShallow(members, n - 1)
  }

  predicate DispatchShallow(d: Dispatch, n: int)
  {
    && SignedShallow(d.reservation.producer, d.reservation.more, n)
    && SignedShallow(d.link.producer, d.link.more[Records.T("observer") := d.link.observer], n)
  }

  lemma SignedMapDepth(producer: Value, members: map<Text, Value>, n: int)
    requires n >= 2
    ensures DepthAtMost(Signed(producer, Obj(members)), n) <==> SignedShallow(producer, members, n - 1)
  {
    SignedDepth(producer, Obj(members), n);
    ObjAtMost(members, n - 1);
    hide DepthAtMost, Signed;
  }

  lemma DispatchDepth(d: Option<Dispatch>, n: int)
    requires n >= 3
    ensures DepthAtMost(DispatchContainers(d), n) <==> d.None? || DispatchShallow(d.value, n - 2)
  {
    if d.Some? {
      hide DepthAtMost, Signed, Records.Record, SignedShallow;
      var link := d.value.link.more[Records.T("observer") := d.value.link.observer];
      var pairs := [(Records.T("reservation"), Signed(d.value.reservation.producer, Obj(d.value.reservation.more))),
                    (Records.T("binding"), Signed(d.value.link.producer, Obj(link)))];
      assert Records.T("reservation")[0] != Records.T("binding")[0];
      hide Records.T;
      SignedMapDepth(d.value.reservation.producer, d.value.reservation.more, n - 1);
      SignedMapDepth(d.value.link.producer, link, n - 1);
      RecordDepth([], pairs, n);
      assert [] + pairs == pairs;
      assert PairsAtMost(pairs, n - 1) <==> DepthAtMost(pairs[0].1, n - 1) && DepthAtMost(pairs[1].1, n - 1);
    } else {
      EmptyShallow(n);
    }
  }

  /** How deep what callers gave may nest in an entry: once in the reservation's own binding, one deeper in its
      ticket and, when a dispatch is bound, in the two records the child signed. */
  predicate EntryShallow(e: CommonEntry, n: int)
  {
    && BindingShallow(e.binding, n - 2) && BindingShallow(e.ticket, n - 3)
    && (e.dispatch.Some? ==> DispatchShallow(e.dispatch.value, n - 3))
  }

  lemma OnePair(k: Text, v: Value, n: int)
    ensures PairsAtMost([(k, v)], n) <==> DepthAtMost(v, n)
  {
    assert [(k, v)][0].1 == v;
    hide DepthAtMost;
  }

  lemma EntryKeysApart(a: Value, b: Value, c: Value)
    ensures KeysApart([(Records.T("binding"), a), (Records.T("ticket"), b), (Records.T("dispatch"), c)])
  {
    assert Records.T("binding")[0] != Records.T("ticket")[0] && Records.T("binding")[0] != Records.T("dispatch")[0]
           && Records.T("ticket")[0] != Records.T("dispatch")[0];
    hide Records.T;
  }

  lemma ThreePairs(pairs: seq<(Text, Value)>, n: int)
    requires |pairs| == 3
    ensures PairsAtMost(pairs, n) <==> DepthAtMost(pairs[0].1, n) && DepthAtMost(pairs[1].1, n) && DepthAtMost(pairs[2].1, n)
  {
    hide DepthAtMost;
  }

  lemma EntryDepth(e: CommonEntry, n: int)
    requires n >= 5
    ensures DepthAtMost(EntryContainers(e), n) <==> EntryShallow(e, n)
  {
    var settlement := if e.settlement.Some? then Signed(OWN, Obj(map[])) else Null;
    EmptyShallow(n - 2);
    EmptyShallow(n - 1);
    SignedDepth(OWN, Obj(map[]), n - 1);
    BindingDepth(e.binding, n - 1);
    BindingDepth(e.ticket, n - 2);
    SignedDepth(OWN, BindingContainers(e.ticket), n - 1);
    DispatchDepth(e.dispatch, n - 1);
    var deep := [(Records.T("binding"), BindingContainers(e.binding)), (Records.T("ticket"), Signed(OWN, BindingContainers(e.ticket))),
                 (Records.T("dispatch"), DispatchContainers(e.dispatch))];
    EntryKeysApart(deep[0].1, deep[1].1, deep[2].1);
    hide Records.T, Records.Record, DepthAtMost, Signed, BindingContainers, DispatchContainers, KeysApart, BindingShallow,
      DispatchShallow;
    OnePair(Records.T("settlement"), settlement, n - 1);
    RecordDepth([(Records.T("settlement"), settlement)], deep, n);
    assert [(Records.T("settlement"), settlement)] + deep == [(Records.T("settlement"), settlement), deep[0], deep[1], deep[2]];
    ThreePairs(deep, n - 1);
  }

  predicate AllShallow(entries: seq<CommonEntry>)
  {
    forall i :: 0 <= i < |entries| ==> EntryShallow(entries[i], 61)
  }

  /** The state file nests within the loader's bound exactly when all that callers gave does: the observer at
      most 62 deep, what a reservation is bound to at most 58, and of the records a dispatch brings the producers
      at most 58 and the members of their bodies at most 57. */
  lemma CommonDepth(cfg: Config, entries: seq<CommonEntry>)
    ensures DepthAtMost(CommonContainers(cfg, entries), 64) <==> DepthAtMost(cfg.observer, 62) && AllShallow(entries)
  {
    hide EntryContainers, EntryShallow, DepthAtMost, Records.Record, Signed;
    var items := seq(|entries|, i requires 0 <= i < |entries| => EntryContainers(entries[i]));
    EmptyShallow(62);
    EmptyShallow(63);
    var flat := [(Records.T("owner_profile"), Obj(map[]))];
    var deep := [(Records.T("observer"), cfg.observer), (Records.T("entries"), Arr(items))];
    assert Records.T("observer")[0] != Records.T("entries")[0];
    hide Records.T;
    OnePair(flat[0].0, flat[0].1, 62);
    RecordDepth(flat, deep, 63);
    assert flat + deep == [flat[0], deep[0], deep[1]];
    assert PairsAtMost(deep, 62) <==> DepthAtMost(deep[0].1, 62) && DepthAtMost(deep[1].1, 62);
    SignedDepth(OWN, Records.Record([flat[0], deep[0], deep[1]]), 64);
    ArrAtMost(items, 62);
    forall i | 0 <= i < |entries| ensures DepthAtMost(items[i], 61) <==> EntryShallow(entries[i], 61) {
      EntryDepth(entries[i], 61);
    }
  }
}
