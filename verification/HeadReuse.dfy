/**
  * What happens when a mutation identifier is used again after its outcome expired:
  * writes that every replica admits lead to a head that forgets an unexpired outcome.
  */
module HeadReuse {
  import opened Basics
  import opened DomainHead
  import opened HeadProtocol

  /** The time at which a write is decided. */
  function DecidedAt(write: Write): Time {
    match write case Commit(_, at) => at case Fold(_, _, at) => at case Compact(now) => now case _ => 0
  }

  /** Heads that follow one another from the inert head by writes that passed a replica's checks, in time order. */
  ghost predicate Lineage(hs: seq<Head>, writes: seq<Write>) {
    && |hs| == |writes| + 1 && hs[0] == INERT
    && (forall i :: 0 <= i < |writes| ==> Admissible(Loaded(i, hs[i]), true, writes[i]) && hs[i + 1] == Effect(hs[i], writes[i]))
    && (forall i, j :: 0 <= i < j < |writes| ==> DecidedAt(writes[i]) <= DecidedAt(writes[j]))
  }

  /** Puts an empty value under the first key whatever is there. */
  function Touch(id: MutationId, retainUntil: Time): Mutation {
    Mutation(id, retainUntil, [Request(1, Anything, NoVersion, false, [])], [], None)
  }

  function Result(id: MutationId, retainUntil: Time, revision: nat): Outcome {
    OutcomeOf(DeltaOf(Touch(id, retainUntil), FingerprintOf(Touch(id, retainUntil), true), revision))
  }

  /** The outcome of mutation i when it is the first to use its identifier. */
  function FirstResult(i: MutationId): Outcome {
    Result(i, 1, i + 1)
  }

  /** The first n identifiers, all expiring at time one. */
  function Expired(n: nat): set<Expiry> {
    set i: MutationId | 0 <= i < n :: Expiry(1, i)
  }

  function Written(id: MutationId): map<Key, Value> {
    map[1 := Value([], ValueVersion(id, FingerprintOf(Touch(id, 1), true), 1, []))]
  }

  /** The head after mutations 0 to k - 1, each retained until time one. */
  function Grown(k: nat): Head {
    Head(true, k, false, 0, k, if k == 0 then map[] else Written(k - 1),
         map i: MutationId | 0 <= i < k :: FirstResult(i), Expired(k), [])
  }

  lemma {:induction false} TouchAdmitted(h: Head, id: MutationId, until: Time, at: Time)
    requires !h.frozen && Recorded(h, id, at) == None
    ensures MutationAdmissible(h, Touch(id, until), at)
  {
    hide Recorded, Values;
  }

  lemma {:induction false} TouchWrites(base: map<Key, Value>, id: MutationId, until: Time, revision: nat)
    ensures var m := Touch(id, until);
            ApplyChanges(base, DeltaOf(m, FingerprintOf(m, true), revision).changes)
            == base[1 := Value([], ValueVersion(id, FingerprintOf(m, true), 1, []))]
  {
    var m := Touch(id, until);
    var cs := DeltaOf(m, FingerprintOf(m, true), revision).changes;
    assert cs == [cs[0]] && cs[..0] == [];
    assert ApplyChanges(base, []) == base;
  }

  lemma {:induction false} GrownValues(k: nat)
    ensures var m := Touch(k, 1); Values(Mutated(Grown(k), m, FingerprintOf(m, true))) == Written(k)
  {
    hide ApplyChanges;
    var h, m := Grown(k), Touch(k, 1);
    var d := DeltaOf(m, FingerprintOf(m, true), k + 1);
    assert h.deltas + [d] == [] + [d];
    OneMoreDelta(h.base, [], d, 0);
    TouchWrites(h.base, k, 1, k + 1);
  }

  lemma {:induction false} GrownOutcomes(k: nat)
    ensures Grown(k).outcomes + map[k := FirstResult(k)] == Grown(k + 1).outcomes
    ensures Expired(k) + {Expiry(1, k)} == Expired(k + 1) && Prunable(Expired(k), 0) == {}
  {
    hide FirstResult, Written;
    assert forall e :: e in Prunable(Expired(k), 0) ==> e in Expired(k) && e.time <= 0;
  }

  /** Materialising one more mutation grows the head by one. */
  lemma {:induction false} GrowOne(k: nat)
    ensures Admissible(Loaded(k + 1, Grown(k)), true, Fold(Touch(k, 1), 0, 0))
    ensures Effect(Grown(k), Fold(Touch(k, 1), 0, 0)) == Grown(k + 1)
  {
    hide Values, ApplyDeltas, ApplyChanges, Prunable, MutationAdmissible;
    var m := Touch(k, 1);
    var d := DeltaOf(m, FingerprintOf(m, true), k + 1);
    TouchAdmitted(Grown(k), k, 1, 0);
    GrownValues(k);
    GrownOutcomes(k);
    assert Mutated(Grown(k), m, FingerprintOf(m, true)).deltas == [] + [d];
    OneMoreDelta(map[], [], d, 0);
    assert LiveOutcomes([] + [d], 0) == map[k := FirstResult(k)] && LiveExpiries([] + [d], 0) == {Expiry(1, k)};
    assert Dropped(Expired(k), map[k := FirstResult(k)], 0) == {};
  }

  /** A lineage that ends with the grown head. */
  lemma {:induction false} GrowAll(k: nat) returns (hs: seq<Head>, writes: seq<Write>)
    ensures Lineage(hs, writes) && hs[|writes|] == Grown(k) && |writes| == k + 1
    ensures forall i :: 0 <= i < |writes| ==> DecidedAt(writes[i]) == 0
  {
    hide Admissible, Effect;
    if k == 0 {
      hs, writes := [INERT, Grown(0)], [Activate];
      ActivateFirst();
    } else {
      hs, writes := GrowAll(k - 1);
      GrowOne(k - 1);
      hs, writes := Extended(hs, writes, Fold(Touch(k - 1, 1), 0, 0));
    }
  }

  lemma {:induction false} ActivateFirst()
    ensures Admissible(Loaded(0, INERT), true, Activate) && Effect(INERT, Activate) == Grown(0)
  {
    assert Grown(0).outcomes == map[] && Expired(0) == {};
  }

  lemma {:induction false} Extended(hs: seq<Head>, writes: seq<Write>, write: Write) returns (hs': seq<Head>, writes': seq<Write>)
    requires Lineage(hs, writes) && Admissible(Loaded(|writes|, hs[|writes|]), true, write)
    requires forall i :: 0 <= i < |writes| ==> DecidedAt(writes[i]) <= DecidedAt(write)
    ensures Lineage(hs', writes') && writes' == writes + [write] && hs' == hs + [Effect(hs[|writes|], write)]
  {
    hide Admissible, Effect, DecidedAt;
    hs', writes' := hs + [Effect(hs[|writes|], write)], writes + [write];
  }

  lemma {:induction false} ExpiredSize(n: nat)
    ensures |Expired(n)| == n
  {
    if n > 0 {
      ExpiredSize(n - 1);
      assert Expired(n) == Expired(n - 1) + {Expiry(1, n - 1)};
    }
  }

  /** The entry of the last of n + 1 identifiers is just behind a page of n entries. */
  lemma {:induction false} OnePageIsPruned(n: nat)
    requires n == PAGE_ITEMS
    ensures Prunable(Expired(n + 1), 2) == Expired(n)
  {
    var all := Expired(n + 1);
    forall e | e in all ensures e in Prunable(all, 2) <==> e != Expiry(1, n) {
      assert Preceding(all, e) == Expired(e.id);
      ExpiredSize(e.id);
    }
    assert Expiry(1, n) !in Expired(n);
  }

  /** The write that uses the identifier again leaves its stale entry behind. */
  lemma {:induction false} StaleEntryStays(n: nat)
    requires n == PAGE_ITEMS
    ensures Recorded(Grown(n + 1), n, 2) == None
    ensures var h := Effect(Grown(n + 1), Fold(Touch(n, 1000), 2, 2));
            && h.expiry == {Expiry(1, n), Expiry(1000, n)} && h.outcomes == map[n := Result(n, 1000, n + 2)]
            && h.deltas == [] && !h.frozen
  {
    hide Prunable, Values, ApplyDeltas, ApplyChanges;
    var m, before := Touch(n, 1000), Grown(n + 1);
    var d := DeltaOf(m, FingerprintOf(m, true), n + 2);
    assert before.deltas + [d] == [] + [d] == [d];
    OneMoreDelta(map[], [], d, 2);
    OnePageIsPruned(n);
    var live := map[n := OutcomeOf(d)];
    assert LiveOutcomes([d], 2) == live && LiveExpiries([d], 2) == {Expiry(1000, n)};
    forall id ensures id in Dropped(before.expiry, live, 2) <==> 0 <= id < n {
      if 0 <= id < n { assert Expiry(1, id) in Expired(n); }
    }
    assert Expired(n + 1) == Expired(n) + {Expiry(1, n)};
    assert (before.outcomes - Dropped(before.expiry, live, 2)) + live == live;
    assert (Expired(n + 1) + {Expiry(1000, n)}) - Expired(n) == {Expiry(1, n), Expiry(1000, n)};
  }

  lemma {:induction false} StaleEntryForgets(h: Head, n: nat)
    requires h.expiry == {Expiry(1, n), Expiry(1000, n)} && h.outcomes == map[n := Result(n, 1000, n + 2)]
    requires h.deltas == [] && !h.frozen
    ensures Admissible(Loaded(n + 3, h), true, Compact(3)) && StaleExpiry(h, 3)
    ensures Recorded(h, n, 3) == Some(Result(n, 1000, n + 2)) && Recorded(Effect(h, Compact(3)), n, 3) == None
  {
    hide Values;
    assert Preceding(h.expiry, Expiry(1, n)) == {};
    assert Expiry(1, n) in Prunable(h.expiry, 3);
    assert LiveOutcomes(h.deltas, 3) == map[];
  }

  /**
    * The failing family is inhabited by a reachable head: one page and one more mutation
    * expire at time one, the last identifier is used again at time two with an outcome to
    * retain until time 1000, that write leaves its stale expiry entry behind a full page of
    * older ones, and the compaction at time three deletes the new outcome.
    */
  lemma {:induction false} ReuseAfterExpiryForgets() returns (hs: seq<Head>, writes: seq<Write>)
    ensures Lineage(hs, writes) && 2 <= |writes|
    ensures var k, id := |writes|, PAGE_ITEMS;
            && writes[k - 2] == Fold(Touch(id, 1000), 2, 2) && writes[k - 1] == Compact(3)
            && StaleExpiry(hs[k - 1], 3) && Recorded(hs[k - 1], id, 3).Some? && Recorded(hs[k], id, 3) == None
  {
    hide Admissible, Effect, StaleExpiry, Recorded, Grown;
    var n := PAGE_ITEMS;
    hs, writes := GrowAll(n + 1);
    StaleEntryStays(n);
    ReuseAdmitted(n);
    hs, writes := Extended(hs, writes, Fold(Touch(n, 1000), 2, 2));
    StaleEntryForgets(hs[|writes|], n);
    hs, writes := Extended(hs, writes, Compact(3));
  }

  lemma {:induction false} ReuseAdmitted(n: nat)
    requires Recorded(Grown(n + 1), n, 2) == None
    ensures Admissible(Loaded(n + 2, Grown(n + 1)), true, Fold(Touch(n, 1000), 2, 2))
  {
    hide Recorded;
    TouchAdmitted(Grown(n + 1), n, 1000, 2);
  }
}
