/** A head represents the sequential history of the mutations that were applied to it. */
module HeadHistory {
  import opened Basics
  import opened DomainHead
  import opened HeadProtocol

  /** The values after running the mutations one after the other from the empty domain. */
  function Run(hist: seq<Record>): map<Key, Value> {
    if hist == [] then map[]
    else
      var r := hist[|hist| - 1];
      ApplyChanges(Run(hist[..|hist| - 1]), StoredChanges(r.m.id, r.fingerprint, r.m.requests))
  }

  function DeltaAt(hist: seq<Record>, i: nat): Delta
    requires i < |hist|
  {
    DeltaOf(hist[i].m, hist[i].fingerprint, i + 1)
  }

  /** What mutation i answers: its own identity, intent and result, at the revision that it made. */
  function OutcomeAt(hist: seq<Record>, i: nat): Outcome
    requires i < |hist|
  {
    Outcome(hist[i].m.id, hist[i].fingerprint, i + 1, hist[i].m.retainUntil, hist[i].m.result)
  }

  lemma {:induction false} DeltaOutcome(hist: seq<Record>, i: nat)
    requires i < |hist|
    ensures OutcomeOf(DeltaAt(hist, i)) == OutcomeAt(hist, i)
  {
    DeltaParts(hist[i].m, hist[i].fingerprint, i + 1);
  }

  /** Each mutation was well-formed, is committed to as a whole, and its requirements held in the state just before it. */
  ghost predicate Legal(hist: seq<Record>) {
    forall i :: 0 <= i < |hist| ==>
      && Normalized(hist[i].m) && Binds(hist[i].fingerprint, hist[i].m) && Satisfied(Run(hist[..i]), hist[i].m.requests)
      && (hist[i].m.expectedRevision.Some? ==> hist[i].m.expectedRevision.value == i)
  }

  /** The fingerprint commits to the requests and the result of the mutation. */
  predicate Binds(f: Fingerprint, m: Mutation) {
    f.requests == m.requests && f.result == m.result
  }

  predicate UniqueIds(hist: seq<Record>) {
    forall i, j :: 0 <= i < j < |hist| ==> hist[i].m.id != hist[j].m.id
  }

  ghost predicate Window(h: Head, hist: seq<Record>) {
    && h.revision == |hist| && h.baseRevision <= |hist|
    && |h.deltas| == |hist| - h.baseRevision
    && (forall k :: h.baseRevision <= k < |hist| ==> h.deltas[k - h.baseRevision] == DeltaAt(hist, k))
    && h.base == Run(hist[..h.baseRevision])
  }

  /** Every unexpired outcome below the window is in the outcome tree, and the two trees correspond. */
  ghost predicate Retained(h: Head, hist: seq<Record>, clock: Time)
    requires h.baseRevision <= |hist|
  {
    && (forall id :: id in h.outcomes ==>
          exists i :: 0 <= i < h.baseRevision && hist[i].m.id == id && h.outcomes[id] == OutcomeAt(hist, i))
    && (forall i :: 0 <= i < h.baseRevision && clock < hist[i].m.retainUntil ==> hist[i].m.id in h.outcomes)
    && (forall e :: e in h.expiry <==> e.id in h.outcomes && h.outcomes[e.id].retainUntil == e.time)
  }

  ghost predicate Represents(h: Head, hist: seq<Record>, clock: Time) {
    && Window(h, hist) && Retained(h, hist, clock) && Legal(hist) && UniqueIds(hist)
    && (!h.registered ==> h == INERT && hist == [])
    && (h.frozen <==> h.freezeEpoch != 0)
  }

  /** What a reader sees at a head is the sequential run. */
  lemma {:induction false} WindowValues(h: Head, hist: seq<Record>, n: nat)
    requires Window(h, hist) && h.baseRevision <= n <= |hist|
    ensures ApplyDeltas(h.base, h.deltas[..n - h.baseRevision]) == Run(hist[..n])
  {
    if h.baseRevision < n {
      WindowValues(h, hist, n - 1);
      var k := n - h.baseRevision;
      assert h.deltas[..k][..k - 1] == h.deltas[..k - 1];
      assert hist[..n][..n - 1] == hist[..n - 1];
      assert h.deltas[k - 1] == DeltaAt(hist, n - 1);
    }
  }

  lemma {:induction false} ValuesAreRun(h: Head, hist: seq<Record>)
    requires Window(h, hist)
    ensures Values(h) == Run(hist)
  {
    WindowValues(h, hist, |hist|);
    assert hist[..|hist|] == hist && h.deltas[..|h.deltas|] == h.deltas;
  }

  /** Finding a live outcome in the window is finding the mutation there. */
  lemma {:induction false} WindowFinds(h: Head, hist: seq<Record>, n: nat, id: MutationId, t: Time)
    requires Window(h, hist) && UniqueIds(hist) && h.baseRevision <= n <= |hist|
    ensures var f := FindOutcome(h.deltas[..n - h.baseRevision], id, t);
            if exists i :: h.baseRevision <= i < n && hist[i].m.id == id && t < hist[i].m.retainUntil then
              exists i :: h.baseRevision <= i < n && hist[i].m.id == id && t < hist[i].m.retainUntil && f == Some(OutcomeAt(hist, i))
            else f == None
  {
    if h.baseRevision < n {
      WindowFinds(h, hist, n - 1, id, t);
      var k := n - h.baseRevision;
      assert h.deltas[..k][..k - 1] == h.deltas[..k - 1];
      assert h.deltas[k - 1] == DeltaAt(hist, n - 1);
      DeltaOutcome(hist, n - 1);
    }
  }

  /** While its outcome is unexpired, the head returns exactly what the mutation produced. */
  lemma {:induction false} RecordedIsOutcome(h: Head, hist: seq<Record>, clock: Time, i: nat, t: Time)
    requires Represents(h, hist, clock) && i < |hist|
    requires clock <= t < hist[i].m.retainUntil
    ensures Recorded(h, hist[i].m.id, t) == Some(OutcomeAt(hist, i))
  {
    hide Represents, Retained, FindOutcome, OutcomeAt;
    RepresentsParts(h, hist, clock);
    if h.baseRevision <= i {
      FoundInWindow(h, hist, i, t);
    } else {
      BelowWindow(h, hist, clock, i);
      NotFoundInWindow(h, hist, hist[i].m.id, t);
    }
  }

  lemma {:induction false} RepresentsParts(h: Head, hist: seq<Record>, clock: Time)
    requires Represents(h, hist, clock)
    ensures Window(h, hist) && UniqueIds(hist) && h.baseRevision <= |hist| == h.revision && Retained(h, hist, clock)
    ensures forall i :: 0 <= i < |hist| ==> OutcomeAt(hist, i).retainUntil == hist[i].m.retainUntil
  {
    hide UniqueIds, Legal, Run;
  }

  lemma {:induction false} FoundInWindow(h: Head, hist: seq<Record>, i: nat, t: Time)
    requires Window(h, hist) && UniqueIds(hist) && h.baseRevision <= i < |hist| && t < hist[i].m.retainUntil
    ensures FindOutcome(h.deltas, hist[i].m.id, t) == Some(OutcomeAt(hist, i))
  {
    hide FindOutcome, OutcomeAt, Run, DeltaAt;
    var id := hist[i].m.id;
    WindowFinds(h, hist, |hist|, id, t);
    assert h.deltas[..|hist| - h.baseRevision] == h.deltas;
    var j :| h.baseRevision <= j < |hist| && hist[j].m.id == id && t < hist[j].m.retainUntil
             && FindOutcome(h.deltas, id, t) == Some(OutcomeAt(hist, j));
    assert i == j;
  }

  lemma {:induction false} NotFoundInWindow(h: Head, hist: seq<Record>, id: MutationId, t: Time)
    requires Window(h, hist) && UniqueIds(hist) && forall i :: h.baseRevision <= i < |hist| ==> hist[i].m.id != id
    ensures FindOutcome(h.deltas, id, t) == None
  {
    hide FindOutcome, OutcomeAt, Run, DeltaAt;
    WindowFinds(h, hist, |hist|, id, t);
    assert h.deltas[..|hist| - h.baseRevision] == h.deltas;
  }

  /** Below the window an unexpired outcome is in the outcome tree. */
  lemma {:induction false} BelowWindow(h: Head, hist: seq<Record>, clock: Time, i: nat)
    requires Window(h, hist) && UniqueIds(hist) && Retained(h, hist, clock) && i < h.baseRevision && clock < hist[i].m.retainUntil
    ensures hist[i].m.id in h.outcomes && h.outcomes[hist[i].m.id] == OutcomeAt(hist, i)
    ensures forall j :: h.baseRevision <= j < |hist| ==> hist[j].m.id != hist[i].m.id
  {
    hide Run, DeltaAt, OutcomeAt;
    var j :| 0 <= j < h.baseRevision && hist[j].m.id == hist[i].m.id && h.outcomes[hist[i].m.id] == OutcomeAt(hist, j);
    assert i == j;
  }

  /** Conversely a head never returns an outcome that no mutation produced. */
  lemma {:induction false} RecordedIsHistory(h: Head, hist: seq<Record>, clock: Time, id: MutationId, t: Time)
    requires Represents(h, hist, clock) && Recorded(h, id, t).Some?
    ensures exists i :: 0 <= i < |hist| && hist[i].m.id == id && Recorded(h, id, t) == Some(OutcomeAt(hist, i))
  {
    hide Run, DeltaAt, OutcomeAt, FindOutcome, Legal;
    WindowFinds(h, hist, |hist|, id, t);
    assert h.deltas[..|hist| - h.baseRevision] == h.deltas;
    if FindOutcome(h.deltas, id, t).None? {
      var i :| 0 <= i < h.baseRevision && hist[i].m.id == id && h.outcomes[id] == OutcomeAt(hist, i);
    }
  }

  /** Each step of a run writes what its mutation asks for and nothing else. */
  lemma {:induction false} RunWrites(hist: seq<Record>, i: nat)
    requires i < |hist| && Normalized(hist[i].m)
    ensures Wrote(Run(hist[..i]), Run(hist[..i + 1]), hist[i].m, hist[i].fingerprint)
  {
    hide Wrote, ApplyChanges, StoredChanges;
    assert hist[..i + 1][..i] == hist[..i];
    ChangesWrite(Run(hist[..i]), hist[i].m, hist[i].fingerprint);
  }

  /** What each write does to the values: a mutation writes its requests, and no other write changes any. */
  lemma {:induction false} EffectWrites(h: Head, write: Write)
    requires (write.Commit? || write.Fold?) ==> Normalized(write.m)
    ensures write.Commit? ==> Wrote(Values(h), Values(Effect(h, write)), write.m, Intent(false, write.m.requests, write.m.result))
    ensures write.Fold? ==> Wrote(Values(h), Values(Effect(h, write)), write.m, Intent(true, write.m.requests, write.m.result))
    ensures !write.Commit? && !write.Fold? && !write.CreateInert? ==> Values(Effect(h, write)) == Values(h)
    ensures write.CreateInert? ==> Values(Effect(h, write)) == map[]
  {
    hide Wrote, Mutated;
    match write
    case Commit(m, _) => CommitWrites(h, m, FingerprintOf(m, false), 0);
    case Fold(m, now, _) => CommitWrites(h, m, FingerprintOf(m, true), now);
    case _ =>
  }

  // ------------------------------------------------ what each write keeps

  lemma {:induction false} RunPrefix(hist: seq<Record>, r: Record)
    ensures Run(hist + [r]) == ApplyChanges(Run(hist), StoredChanges(r.m.id, r.fingerprint, r.m.requests))
    ensures forall i :: 0 <= i <= |hist| ==> (hist + [r])[..i] == hist[..i]
  {
    assert (hist + [r])[..|hist|] == hist;
  }

  ghost predicate FreshId(hist: seq<Record>, id: MutationId) {
    forall i :: 0 <= i < |hist| ==> hist[i].m.id != id
  }

  lemma {:induction false} LegalStep(hist: seq<Record>, r: Record)
    requires Legal(hist) && Normalized(r.m) && Binds(r.fingerprint, r.m) && Satisfied(Run(hist), r.m.requests)
    requires r.m.expectedRevision.Some? ==> r.m.expectedRevision.value == |hist|
    ensures Legal(hist + [r])
  {
    RunPrefix(hist, r);
    assert hist[..|hist|] == hist;
  }

  lemma {:induction false} CommitWindow(h: Head, hist: seq<Record>, m: Mutation, f: Fingerprint)
    requires Window(h, hist)
    ensures Window(Mutated(h, m, f), hist + [Record(m, f)])
  {
    var h', hist' := Mutated(h, m, f), hist + [Record(m, f)];
    forall k | h.baseRevision <= k < |hist'|
      ensures h'.deltas[k - h.baseRevision] == DeltaAt(hist', k)
    {
      if k < |hist| {
        assert h'.deltas[k - h.baseRevision] == h.deltas[k - h.baseRevision] == DeltaAt(hist, k);
        assert hist'[k] == hist[k];
      } else {
        assert k - h.baseRevision == |h.deltas| && hist'[k] == Record(m, f);
      }
    }
    assert hist'[..h.baseRevision] == hist[..h.baseRevision];
  }

  lemma {:induction false} CommitRetains(h: Head, hist: seq<Record>, clock: Time, m: Mutation, f: Fingerprint)
    requires Window(h, hist) && Retained(h, hist, clock)
    ensures Retained(Mutated(h, m, f), hist + [Record(m, f)], clock)
  {
    var hist' := hist + [Record(m, f)];
    forall id | id in h.outcomes
      ensures exists i :: 0 <= i < h.baseRevision && hist'[i].m.id == id && h.outcomes[id] == OutcomeAt(hist', i)
    {
      var i :| 0 <= i < h.baseRevision && hist[i].m.id == id && h.outcomes[id] == OutcomeAt(hist, i);
      assert hist'[i] == hist[i];
    }
  }

  lemma {:induction false} CommitRepresents(h: Head, hist: seq<Record>, clock: Time, m: Mutation, f: Fingerprint, at: Time)
    requires Represents(h, hist, clock) && MutationAdmissible(h, m, at) && FreshId(hist, m.id) && Binds(f, m)
    ensures Represents(Mutated(h, m, f), hist + [Record(m, f)], clock)
  {
    ValuesAreRun(h, hist);
    LegalStep(hist, Record(m, f));
    CommitWindow(h, hist, m, f);
    CommitRetains(h, hist, clock, m, f);
  }

  /** The live part of a window is what the outcome tree gains. */
  lemma {:induction false} LiveWindow(h: Head, hist: seq<Record>, n: nat, now: Time)
    requires Window(h, hist) && UniqueIds(hist) && h.baseRevision <= n <= |hist|
    ensures var live := LiveOutcomes(h.deltas[..n - h.baseRevision], now);
            && (forall i :: h.baseRevision <= i < n && now < hist[i].m.retainUntil ==>
                  hist[i].m.id in live && live[hist[i].m.id] == OutcomeAt(hist, i))
            && (forall id :: id in live ==>
                  exists i :: h.baseRevision <= i < n && now < hist[i].m.retainUntil && hist[i].m.id == id)
  {
    hide Run, DeltaAt, OutcomeAt, OutcomeOf;
    if h.baseRevision < n {
      LiveWindow(h, hist, n - 1, now);
      var k := n - h.baseRevision;
      assert h.deltas[..k][..k - 1] == h.deltas[..k - 1];
      DeltaOfRecord(h, hist, n - 1);
      var before, live := LiveOutcomes(h.deltas[..k - 1], now), LiveOutcomes(h.deltas[..k], now);
      forall id | id in live
        ensures exists i :: h.baseRevision <= i < n && now < hist[i].m.retainUntil && hist[i].m.id == id
      {
        if id in before {
          var i :| h.baseRevision <= i < n - 1 && now < hist[i].m.retainUntil && hist[i].m.id == id;
        } else {
          assert hist[n - 1].m.id == id;
        }
      }
    }
  }

  lemma {:induction false} DeltaOfRecord(h: Head, hist: seq<Record>, i: nat)
    requires Window(h, hist) && h.baseRevision <= i < |hist|
    ensures var d := h.deltas[i - h.baseRevision];
            d.id == hist[i].m.id && d.retainUntil == hist[i].m.retainUntil && OutcomeOf(d) == OutcomeAt(hist, i)
  {
    assert h.deltas[i - h.baseRevision] == DeltaAt(hist, i);
    DeltaOutcome(hist, i);
  }

  /** The live outcomes of the whole window. */
  lemma {:induction false} LiveIsWindow(h: Head, hist: seq<Record>, now: Time)
    requires Window(h, hist) && UniqueIds(hist)
    ensures var live := LiveOutcomes(h.deltas, now);
            && (forall i :: h.baseRevision <= i < |hist| && now < hist[i].m.retainUntil ==>
                  hist[i].m.id in live && live[hist[i].m.id] == OutcomeAt(hist, i))
            && (forall id :: id in live ==>
                  exists i :: h.baseRevision <= i < |hist| && now < hist[i].m.retainUntil && hist[i].m.id == id)
  {
    hide Run, DeltaAt, OutcomeAt, LiveOutcomes;
    LiveWindow(h, hist, |hist|, now);
    assert h.deltas[..|hist| - h.baseRevision] == h.deltas;
  }

  lemma {:induction false} LiveRecord(h: Head, hist: seq<Record>, now: Time, id: MutationId) returns (i: nat)
    requires Window(h, hist) && UniqueIds(hist) && id in LiveOutcomes(h.deltas, now)
    ensures h.baseRevision <= i < |hist| && now < hist[i].m.retainUntil && hist[i].m.id == id
  {
    hide Window, UniqueIds, LiveOutcomes, OutcomeAt;
    LiveIsWindow(h, hist, now);
    var j :| h.baseRevision <= j < |hist| && now < hist[j].m.retainUntil && hist[j].m.id == id;
    i := j;
  }

  lemma {:induction false} LiveExpiriesOfWindow(h: Head, hist: seq<Record>, now: Time, e: Expiry)
    requires Window(h, hist)
    ensures e in LiveExpiries(h.deltas, now) <==>
            exists i :: h.baseRevision <= i < |hist| && now < hist[i].m.retainUntil && e == Expiry(hist[i].m.retainUntil, hist[i].m.id)
  {
    if i :| h.baseRevision <= i < |hist| && now < hist[i].m.retainUntil && e == Expiry(hist[i].m.retainUntil, hist[i].m.id) {
      assert h.deltas[i - h.baseRevision] == DeltaAt(hist, i);
    }
    if e in LiveExpiries(h.deltas, now) {
      var d :| d in h.deltas && now < d.retainUntil && e == Expiry(d.retainUntil, d.id);
      var k :| 0 <= k < |h.deltas| && h.deltas[k] == d;
      assert h.deltas[k] == DeltaAt(hist, k + h.baseRevision);
    }
  }

  lemma {:induction false} CompactedSize(h: Head, hist: seq<Record>, clock: Time, now: Time)
    requires Represents(h, hist, clock)
    ensures Compacted(h, now).baseRevision == |hist|
  {
  }

  lemma {:induction false} CompactedOutcome(h: Head, hist: seq<Record>, clock: Time, now: Time, id: MutationId) returns (i: nat)
    requires Represents(h, hist, clock) && id in Compacted(h, now).outcomes
    ensures i < |hist| && hist[i].m.id == id && Compacted(h, now).outcomes[id] == OutcomeAt(hist, i)
  {
    hide LiveOutcomes, OutcomeAt, DeltaAt, LiveExpiries, Prunable, Values, Window, Represents;
    RepresentsParts(h, hist, clock);
    var live := LiveOutcomes(h.deltas, now);
    LiveIsWindow(h, hist, now);
    if id in live {
      i := LiveRecord(h, hist, now, id);
    } else {
      assert id in h.outcomes;
      var j :| 0 <= j < h.baseRevision && hist[j].m.id == id && h.outcomes[id] == OutcomeAt(hist, j);
      i := j;
    }
  }

  lemma {:induction false} CompactedKeeps(h: Head, hist: seq<Record>, clock: Time, now: Time, i: nat)
    requires Represents(h, hist, clock) && now <= clock && i < |hist| && clock < hist[i].m.retainUntil
    ensures hist[i].m.id in Compacted(h, now).outcomes
  {
    hide LiveOutcomes, DeltaAt, OutcomeAt, LiveExpiries, Preceding, Values, Window, Represents;
    RepresentsParts(h, hist, clock);
    var live := LiveOutcomes(h.deltas, now);
    LiveIsWindow(h, hist, now);
    var id := hist[i].m.id;
    if i < h.baseRevision {
      BelowWindow(h, hist, clock, i);
      assert id !in Dropped(h.expiry, live, now);
    }
  }

  /** Without reused identifiers the trees correspond, so compaction never drops a retained outcome. */
  lemma {:induction false} CompactRetains(h: Head, hist: seq<Record>, clock: Time, now: Time)
    requires Represents(h, hist, clock) && now <= clock
    ensures Retained(Compacted(h, now), hist, clock)
  {
    hide Represents, Compacted, OutcomeAt;
    var c := Compacted(h, now);
    CompactedSize(h, hist, clock, now);
    forall id | id in c.outcomes
      ensures exists i :: 0 <= i < |hist| && hist[i].m.id == id && c.outcomes[id] == OutcomeAt(hist, i)
    {
      var i := CompactedOutcome(h, hist, clock, now, id);
    }
    forall i | 0 <= i < |hist| && clock < hist[i].m.retainUntil
      ensures hist[i].m.id in c.outcomes
    {
      CompactedKeeps(h, hist, clock, now, i);
    }
    forall e
      ensures e in c.expiry <==> e.id in c.outcomes && c.outcomes[e.id].retainUntil == e.time
    {
      CompactedExpiry(h, hist, clock, now, e);
    }
  }

  lemma {:induction false} CompactedExpiry(h: Head, hist: seq<Record>, clock: Time, now: Time, e: Expiry)
    requires Represents(h, hist, clock) && now <= clock
    ensures var c := Compacted(h, now);
            e in c.expiry <==> e.id in c.outcomes && c.outcomes[e.id].retainUntil == e.time
  {
    hide LiveOutcomes, LiveExpiries, DeltaAt, OutcomeAt, Preceding, Values, Window, Represents;
    RepresentsParts(h, hist, clock);
    var live := LiveOutcomes(h.deltas, now);
    LiveIsWindow(h, hist, now);
    LiveExpiriesOfWindow(h, hist, now, e);
    if e.id in live {
      var i :| h.baseRevision <= i < |hist| && now < hist[i].m.retainUntil && hist[i].m.id == e.id;
      assert e.id !in h.outcomes;
      assert e !in h.expiry;
    } else if e.id in h.outcomes {
      assert e in LiveExpiries(h.deltas, now) ==> e.id in live;
      assert e.id in Dropped(h.expiry, live, now) <==> Expiry(h.outcomes[e.id].retainUntil, e.id) in Prunable(h.expiry, now);
    } else {
      assert e in LiveExpiries(h.deltas, now) ==> e.id in live;
    }
  }

  lemma {:induction false} CompactRepresents(h: Head, hist: seq<Record>, clock: Time, now: Time)
    requires Represents(h, hist, clock) && h.registered && now <= clock
    ensures Represents(Compacted(h, now), hist, clock)
  {
    CompactRetains(h, hist, clock, now);
    ValuesAreRun(h, hist);
    assert hist[..|hist|] == hist;
  }

  /** Registration and freezing leave the history alone. */
  lemma {:induction false} FlagRepresents(h: Head, h': Head, hist: seq<Record>, clock: Time)
    requires Represents(h, hist, clock) && h'.registered && (h'.frozen <==> h'.freezeEpoch != 0)
    requires h' == h.(registered := h'.registered, frozen := h'.frozen, freezeEpoch := h'.freezeEpoch)
    ensures Represents(h', hist, clock)
  {
    hide Legal, UniqueIds, Run, DeltaAt, OutcomeAt;
  }

  lemma {:induction false} FoldRepresents(h: Head, hist: seq<Record>, clock: Time, m: Mutation, now: Time, at: Time)
    requires Represents(h, hist, clock) && MutationAdmissible(h, m, at) && FreshId(hist, m.id) && now <= clock
    ensures var f := FingerprintOf(m, true);
            Represents(Compacted(Mutated(h, m, f), now), hist + [Record(m, f)], clock)
  {
    var f := FingerprintOf(m, true);
    CommitRepresents(h, hist, clock, m, f, at);
    CompactRepresents(Mutated(h, m, f), hist + [Record(m, f)], clock, now);
  }

  /** Every admissible write takes a head that represents a history to one that represents it extended. */
  lemma {:induction false} WriteRepresents(h: Head, version: nat, enrolled: bool, write: Write, hist: seq<Record>, clock: Time)
    requires Represents(h, hist, clock) && Admissible(Loaded(version, h), enrolled, write)
    requires WriteTimesPast(write, clock)
    requires (write.Commit? || write.Fold?) ==> FreshId(hist, write.m.id)
    ensures Represents(Effect(h, write), hist + Records(write), clock)
  {
    assert hist + [] == hist;
    match write
    case Commit(m, at) => CommitRepresents(h, hist, clock, m, FingerprintOf(m, false), at);
    case Fold(m, now, at) => FoldRepresents(h, hist, clock, m, now, at);
    case Compact(now) => CompactRepresents(h, hist, clock, now);
    case _ => FlagRepresents(h, Effect(h, write), hist, clock);
  }
}
