/** Freezing a checkpoint: between freezeDomains and unfreeze no domain changes. */
module HeadFreeze {
  import opened Basics
  import opened DomainHead
  import opened HeadProtocol
  import opened HeadHistory
  import opened HeadSafety

  ghost predicate FrozenRef(w: World, ref: Ref, e: nat) {
    ref in w.heads && w.heads[ref].head.frozen && w.heads[ref].head.freezeEpoch == e
  }

  ghost predicate FrozenAt(w: World, e: nat) {
    w.catalog.freezeEpoch == e && forall ref :: ref in w.catalog.entries ==> FrozenRef(w, ref, e)
  }

  predicate ThawsHead(f: Flight, e: nat) {
    f.HeadPut? && f.write == Unfreeze(e)
  }

  predicate ThawsCatalog(f: Flight, e: nat) {
    f.CatalogPut? && f.change == UnfreezeCatalog(e)
  }

  /** No unfreeze of this epoch is running or has a request under way that can still take effect. */
  ghost predicate NoUnfreezer(w: World, e: nat) {
    && (forall id :: id in w.workers ==> !(w.workers[id].job.Unfreezing? && w.workers[id].job.epoch == e))
    && (forall f :: f in w.flights && FlightMatches(w, f) ==> !ThawsHead(f, e) && !ThawsCatalog(f, e))
  }

  /** unfreeze(e) is called. */
  predicate Restarts(ev: Event, e: nat) {
    ev.Act? && ev.action == StartUnfreeze(e)
  }

  /** What a coordinator of freezeDomains(e) has established so far. */
  ghost predicate Progress(w: World, x: Worker, e: nat) {
    match x.job
    case FreezeStarted(e') =>
      e' == e && x.cat.Some? && x.cat.value.freezeEpoch == e ==>
        w.catalog.freezeEpoch == e && w.catalog.entries == x.cat.value.entries
    case Freezing(e', entries, done) =>
      e' == e ==>
        && w.catalog.freezeEpoch == e && w.catalog.entries == entries
        && (forall ref :: ref in done ==> FrozenRef(w, ref, e))
        && (x.io.HasHead? && x.io.snap.Loaded? && x.io.snap.head.frozen && x.io.snap.head.freezeEpoch == e ==>
              FrozenRef(w, x.io.ref, e))
    case FreezeReturned(e') => e' == e ==> FrozenAt(w, e)
    case _ => true
  }

  ghost predicate AllProgress(w: World, e: nat) {
    forall id :: id in w.workers ==> Progress(w, w.workers[id], e)
  }

  /** freezeDomains(e) has not been called yet. */
  predicate NotStarted(w: World, e: nat) {
    forall id :: id in w.workers ==>
      var job := w.workers[id].job;
      !((job.FreezeStarted? || job.Freezing? || job.FreezeReturned?) && job.epoch == e)
  }

  /** Only unfreeze(e) can overwrite a head that is frozen at e. */
  lemma {:induction false} FrozenHeadIsImmutable(w: World, f: Flight, e: nat)
    requires Inv(w) && f in w.flights && f.HeadPut? && FlightMatches(w, f) && FrozenRef(w, f.ref, e)
    ensures ThawsHead(f, e)
  {
    assert FlightOk(w, f);
    assert HeadOk(w, f.ref);
  }

  /** Only unfreeze(e) can overwrite a catalog that is frozen at e. */
  lemma {:induction false} FrozenCatalogIsImmutable(w: World, f: Flight, e: nat)
    requires Inv(w) && f in w.flights && f.CatalogPut? && FlightMatches(w, f) && 0 < e && w.catalog.freezeEpoch == e
    ensures ThawsCatalog(f, e)
  {
    assert FlightOk(w, f);
  }

  /** Heads and catalog that are frozen at e survive every step. */
  ghost predicate KeepsFrozen(w: World, w': World, e: nat) {
    && (forall ref :: FrozenRef(w, ref, e) ==> ref in w'.heads && w'.heads[ref] == w.heads[ref])
    && (w.catalog.freezeEpoch == e ==> w'.catalog == w.catalog)
  }

  lemma {:induction false} ArrivalKeepsFrozen(w: World, f: Flight, e: nat)
    requires Inv(w) && f in w.flights && FlightMatches(w, f) && NoUnfreezer(w, e) && 0 < e
    ensures KeepsFrozen(w, if f.HeadPut? then ApplyHead(w, f) else ApplyCatalog(w, f), e)
  {
    hide Inv, FlightMatches, Effect, CatalogEffect, Records, Hist;
    if f.HeadPut? {
      if FrozenRef(w, f.ref, e) { FrozenHeadIsImmutable(w, f, e); }
    } else if w.catalog.freezeEpoch == e {
      FrozenCatalogIsImmutable(w, f, e);
    }
  }

  lemma {:induction false} StepKeepsFrozen(w: World, ev: Event, e: nat)
    requires Inv(w) && Enabled(w, ev) && NoUnfreezer(w, e) && 0 < e
    ensures KeepsFrozen(w, Next(w, ev), e)
  {
    var w' := Next(w, ev);
    if ev.Arrive? {
      ArrivalKeepsFrozen(w, ev.flight, e);
    } else {
      assert w'.heads == w.heads && w'.catalog == w.catalog;
    }
  }

  lemma {:induction false} ProgressStable(w: World, w': World, x: Worker, e: nat)
    requires Progress(w, x, e) && KeepsFrozen(w, w', e)
    ensures Progress(w', x, e)
  {
    forall ref | FrozenRef(w, ref, e) ensures FrozenRef(w', ref, e) { }
  }

  lemma {:induction false} ActProgress(w: World, w': World, id: WorkerId, x: Worker, action: Action, e: nat)
    requires Inv(w) && CanAct(w, x, action) && Progress(w, x, e) && SameObjects(w, w')
    ensures Progress(w', Acted(w, id, x, action), e)
  {
    assert forall ref :: FrozenRef(w, ref, e) ==> FrozenRef(w', ref, e);
  }

  lemma {:induction false} AnswerProgress(w: World, w': World, x: Worker, f: Flight, e: nat)
    requires Progress(w', x, e) && Inv(w) && f in w.flights && FlightMatches(w, f)
    requires w' == if f.HeadPut? then ApplyHead(w, f) else ApplyCatalog(w, f)
    ensures Progress(w', Answered(x, f), e)
  {
    hide Inv, FlightMatches, ApplyHead, ApplyCatalog, FrozenRef, FrozenAt;
    if f.HeadPut? && f.write.Freeze? { FreezeIsFrozen(w, f); }
    if f.CatalogPut? && f.change.FreezeCatalog? { FreezeNamesCatalog(w, f); }
  }

  lemma {:induction false} FreezeIsFrozen(w: World, f: Flight)
    requires Inv(w) && f in w.flights && f.HeadPut? && f.write.Freeze?
    ensures FrozenRef(ApplyHead(w, f), f.ref, f.write.epoch)
  {
    assert FlightOk(w, f);
    hide Inv, SnapshotOk;
  }

  lemma {:induction false} FreezeNamesCatalog(w: World, f: Flight)
    requires Inv(w) && f in w.flights && f.CatalogPut? && f.change.FreezeCatalog?
    ensures var cat := ApplyCatalog(w, f).catalog; cat.freezeEpoch == f.change.epoch && cat.entries == f.cat.entries
  {
  }

  lemma {:induction false} ProgressIgnoresWorkers(w: World, w': World, x: Worker, e: nat)
    requires Progress(w, x, e) && SameObjects(w, w')
    ensures Progress(w', x, e)
  {
    assert forall ref :: FrozenRef(w, ref, e) <==> FrozenRef(w', ref, e);
  }

  lemma {:induction false} ArriveProgress(w: World, f: Flight, answered: bool, e: nat)
    requires Inv(w) && Enabled(w, Arrive(f, answered)) && NoUnfreezer(w, e) && AllProgress(w, e) && 0 < e
    ensures AllProgress(Next(w, Arrive(f, answered)), e)
  {
    var mid := if f.HeadPut? then ApplyHead(w, f) else ApplyCatalog(w, f);
    StepKeepsFrozen(w, Arrive(f, false), e);
    forall id | id in w.workers ensures Progress(mid, w.workers[id], e) { ProgressStable(w, mid, w.workers[id], e); }
    if answered && Listening(w, f) {
      var w' := Notify(mid, f);
      AnswerProgress(w, mid, w.workers[f.owner], f, e);
      forall id | id in w'.workers ensures Progress(w', w'.workers[id], e) {
        ProgressIgnoresWorkers(mid, w', w'.workers[id], e);
      }
    }
  }

  lemma {:induction false} StepProgress(w: World, ev: Event, e: nat)
    requires Inv(w) && Enabled(w, ev) && NoUnfreezer(w, e) && AllProgress(w, e) && 0 < e
    ensures AllProgress(Next(w, ev), e)
  {
    var w' := Next(w, ev);
    match ev
    case Arrive(f, answered) => ArriveProgress(w, f, answered, e);
    case Act(id, action) =>
      ActProgress(w, w', id, w.workers[id], action, e);
      forall k | k in w'.workers ensures Progress(w', w'.workers[k], e) {
        if k != id { ProgressIgnoresWorkers(w, w', w.workers[k], e); }
      }
    case _ =>
      StepKeepsFrozen(w, ev, e);
      forall k | k in w'.workers ensures Progress(w', w'.workers[k], e) { ProgressStable(w, w', w.workers[k], e); }
  }

  // ------------------------------------------------- what stays frozen

  /** Only a running unfreeze(e) sends its writes, and a write that lost its version never wins again. */
  lemma {:induction false} QuietStep(w: World, ev: Event, e: nat)
    requires Inv(w) && Enabled(w, ev) && NoUnfreezer(w, e) && FrozenAt(w, e) && 0 < e && !Restarts(ev, e)
    ensures NoUnfreezer(Next(w, ev), e) && FrozenAt(Next(w, ev), e) && Next(w, ev).catalog == w.catalog
    ensures forall ref :: ref in w.catalog.entries ==> ref in w.heads && ref in Next(w, ev).heads && Next(w, ev).heads[ref] == w.heads[ref]
  {
    var w' := Next(w, ev);
    StepKeepsFrozen(w, ev, e);
    assert forall ref :: ref in w.catalog.entries ==> FrozenRef(w, ref, e);
    forall f | f in w'.flights && FlightMatches(w', f) ensures !ThawsHead(f, e) && !ThawsCatalog(f, e) {
      QuietFlight(w, ev, e, f);
    }
    forall id | id in w'.workers ensures !(w'.workers[id].job.Unfreezing? && w'.workers[id].job.epoch == e) {
      QuietWorker(w, ev, e, id);
    }
  }

  lemma {:induction false} QuietWorker(w: World, ev: Event, e: nat, id: WorkerId)
    requires Enabled(w, ev) && NoUnfreezer(w, e) && !Restarts(ev, e) && id in Next(w, ev).workers
    ensures !(Next(w, ev).workers[id].job.Unfreezing? && Next(w, ev).workers[id].job.epoch == e)
  {
    hide FlightMatches, Admissible, NotResubmitted, Effect, Replayed, Sent, Records;
    assert id in w.workers;
    if ev.Act? { hide Notify, ApplyHead, ApplyCatalog; }
  }

  lemma {:induction false} QuietFlight(w: World, ev: Event, e: nat, f: Flight)
    requires Inv(w) && Enabled(w, ev) && NoUnfreezer(w, e) && FrozenAt(w, e) && 0 < e && KeepsFrozen(w, Next(w, ev), e)
    requires f in Next(w, ev).flights && FlightMatches(Next(w, ev), f)
    ensures !ThawsHead(f, e) && !ThawsCatalog(f, e)
  {
    hide Enabled, Next, FlightMatches, KeepsFrozen, FrozenAt, HeadOk, WorkerOk, ReplyOk;
    if f in w.flights {
      assert FlightOk(w, f);
      StaleStaysStale(w, ev, f);
    } else if ThawsHead(f, e) || ThawsCatalog(f, e) {
      SentByUnfreezer(w, ev, e, f);
    }
  }

  /** A new write that thaws comes from a replica inside unfreeze(e). */
  lemma {:induction false} SentByUnfreezer(w: World, ev: Event, e: nat, f: Flight)
    requires Enabled(w, ev) && f in Next(w, ev).flights && f !in w.flights && (ThawsHead(f, e) || ThawsCatalog(f, e))
    ensures ev.Act? && ev.w in w.workers && w.workers[ev.w].job.Unfreezing? && w.workers[ev.w].job.epoch == e
  {
    hide Effect, CatalogEffect, Records, Replayed, Answers, FlightMatches, Answered;
  }

  /** A version that is not current is never current again. */
  lemma {:induction false} StaleStaysStale(w: World, ev: Event, f: Flight)
    requires Enabled(w, ev) && f in w.flights && FlightMatches(Next(w, ev), f)
    requires f.HeadPut? ==> f.snap.Loaded? ==> f.snap.version < w.nextVersion
    requires f.CatalogPut? ==> f.cat.version < w.nextVersion
    ensures f.CatalogPut? || f.snap.Loaded? ==> FlightMatches(w, f)
  {
    hide CanAct, Effect, Records, Replayed, Sent, Acted, Admissible;
  }

  // ---------------------------------------------------------------- theorem

  /** The stretch of a run from before freezeDomains(e) was called, with no unfreeze(e) in it. */
  ghost predicate FreezePeriod(ws: seq<World>, evs: seq<Event>, start: nat, end: nat, e: nat) {
    && IsRun(ws, evs) && Initial(ws[0]) && start <= end < |ws| && 0 < e && NotStarted(ws[start], e)
    && forall k :: start <= k <= end ==> NoUnfreezer(ws[k], e)
  }

  lemma {:induction false} PeriodProgress(ws: seq<World>, evs: seq<Event>, start: nat, end: nat, e: nat, n: nat)
    requires FreezePeriod(ws, evs, start, end, e) && start <= n <= end
    ensures AllProgress(ws[n], e)
    decreases n
  {
    if start < n {
      PeriodProgress(ws, evs, start, end, e, n - 1);
      RunKeeps(ws, evs, n - 1);
      StepProgress(ws[n - 1], evs[n - 1], e);
    }
  }

  /** From a frozen state without an unfreezer on, only a new call of unfreeze(e) can change anything. */
  lemma {:induction false} QuietRun(ws: seq<World>, evs: seq<Event>, e: nat, n: nat)
    requires IsRun(ws, evs) && Inv(ws[0]) && FrozenAt(ws[0], e) && NoUnfreezer(ws[0], e) && 0 < e && n < |ws|
    requires forall k :: 0 <= k < n ==> !Restarts(evs[k], e)
    ensures Inv(ws[n]) && FrozenAt(ws[n], e) && NoUnfreezer(ws[n], e) && ws[n].catalog == ws[0].catalog
    ensures forall ref :: ref in ws[0].catalog.entries ==>
              ref in ws[0].heads && ref in ws[n].heads && ws[n].heads[ref] == ws[0].heads[ref]
    ensures forall ref :: Hist(ws[0], ref) <= Hist(ws[n], ref)
    decreases n
  {
    hide Inv, NoUnfreezer, Enabled, Next, Hist;
    if n == 0 {
      assert forall ref :: ref in ws[0].catalog.entries ==> FrozenRef(ws[0], ref, e);
    } else {
      QuietRun(ws, evs, e, n - 1);
      StepKeeps(ws[n - 1], evs[n - 1]);
      QuietStep(ws[n - 1], evs[n - 1], e);
      forall ref ensures Hist(ws[0], ref) <= Hist(ws[n], ref) {
        assert Hist(ws[n - 1], ref) <= Hist(ws[n], ref);
      }
    }
  }

  function Contents(w: World, ref: Ref): map<Key, Value> {
    if ref in w.heads then Values(w.heads[ref].head) else map[]
  }

  /** In two worlds with the same frozen catalog and named heads, all contents agree. */
  lemma {:induction false} FrozenContents(w: World, w': World, e: nat, ref: Ref)
    requires Inv(w) && Inv(w') && FrozenAt(w, e) && w'.catalog == w.catalog && Hist(w, ref) <= Hist(w', ref)
    requires ref in w.catalog.entries ==> ref in w.heads && ref in w'.heads && w'.heads[ref] == w.heads[ref]
    ensures Contents(w', ref) == Contents(w, ref) && Hist(w', ref) == Hist(w, ref)
    ensures ref in w'.heads && ref !in w.catalog.entries ==> w'.heads[ref].head == INERT
  {
    hide Inv, Values;
    UnnamedIsInert(w, ref);
    UnnamedIsInert(w', ref);
    InertIsEmpty();
  }

  lemma {:induction false} InertIsEmpty()
    ensures Values(INERT) == map[]
  {
  }

  lemma {:induction false} UnnamedIsInert(w: World, ref: Ref)
    requires Inv(w)
    ensures ref in w.heads ==> w.heads[ref].head.revision == |Hist(w, ref)|
    ensures ref in w.heads && ref !in w.catalog.entries ==> w.heads[ref].head == INERT && Hist(w, ref) == []
    ensures ref !in w.heads ==> Hist(w, ref) == []
  {
    hide Retained, Legal, UniqueIds, WorkerOk, FlightOk, ReplyOk;
    if ref in w.heads { assert HeadOk(w, ref); }
  }

  /**
    * Once freezeDomains(e) has returned to some caller, with no unfreeze(e) active
    * since before it was called, and until unfreeze(e) is called, no domain changes:
    * every named head is the very same object, and every head that the frozen catalog
    * does not name is inert.
    */
  lemma {:induction false} FrozenPeriodIsStill(ws: seq<World>, evs: seq<Event>, start: nat, e: nat, i: nat, j: nat, w: WorkerId, ref: Ref)
    requires FreezePeriod(ws, evs, start, i, e) && i <= j < |ws|
    requires w in ws[i].workers && ws[i].workers[w].job == FreezeReturned(e)
    requires forall k :: i <= k < j ==> !Restarts(evs[k], e)
    ensures Contents(ws[j], ref) == Contents(ws[i], ref)
    ensures Hist(ws[j], ref) == Hist(ws[i], ref)
    ensures ref in ws[i].catalog.entries ==>
              ref in ws[i].heads && FrozenRef(ws[j], ref, e) && ws[j].heads[ref] == ws[i].heads[ref]
    ensures ref in ws[j].heads && ref !in ws[i].catalog.entries ==> ws[j].heads[ref].head == INERT
  {
    hide Inv, Enabled, Next, NoUnfreezer;
    PeriodProgress(ws, evs, start, i, e, i);
    assert Progress(ws[i], ws[i].workers[w], e);
    RunKeeps(ws, evs, i);
    var vs, es := ws[i..], evs[i..];
    assert IsRun(vs, es) by {
      forall k | 0 <= k < |es| ensures Enabled(vs[k], es[k]) && vs[k + 1] == Next(vs[k], es[k]) {
        assert vs[k] == ws[i + k] && es[k] == evs[i + k] && vs[k + 1] == ws[i + k + 1];
      }
    }
    QuietRun(vs, es, e, j - i);
    assert vs[j - i] == ws[j] && vs[0] == ws[i];
    assert ref in ws[i].catalog.entries ==> FrozenRef(ws[i], ref, e) && FrozenRef(ws[j], ref, e);
    FrozenContents(ws[i], ws[j], e, ref);
  }
}
