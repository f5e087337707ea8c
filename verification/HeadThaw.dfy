/**
  * When a frozen state stays still: exactly when no unfreeze of its epoch is left over.
  * The runs that break it are built here from the protocol's own steps.
  */
module HeadThaw {
  import opened Basics
  import opened DomainHead
  import opened HeadProtocol
  import opened HeadHistory
  import opened HeadSafety
  import opened HeadFreeze

  // ------------------------------------------------------------------ paths

  ghost predicate Leads(w: World, evs: seq<Event>, w': World) {
    exists ws :: IsRun(ws, evs) && ws[0] == w && ws[|evs|] == w'
  }

  /** No call of unfreeze(e) among the events. */
  predicate Thawless(evs: seq<Event>, e: nat) {
    forall k :: 0 <= k < |evs| ==> !Restarts(evs[k], e)
  }

  /** No call of unfreeze at any epoch. */
  predicate NoCalls(evs: seq<Event>) {
    forall k :: 0 <= k < |evs| ==> !(evs[k].Act? && evs[k].action.StartUnfreeze?)
  }

  /** Nothing that any domain holds or has done differs. */
  ghost predicate Still(w: World, w': World) {
    forall ref :: Hist(w', ref) == Hist(w, ref) && Contents(w', ref) == Contents(w, ref)
  }

  lemma {:induction false} Stay(w: World)
    ensures Leads(w, [], w)
  {
    assert IsRun([w], []);
  }

  lemma {:induction false} Step(w: World, evs: seq<Event>, w': World, ev: Event)
    requires Leads(w, evs, w') && Enabled(w', ev)
    ensures Leads(w, evs + [ev], Next(w', ev))
  {
    hide Enabled, Next;
    var ws :| IsRun(ws, evs) && ws[0] == w && ws[|evs|] == w';
    assert IsRun(ws + [Next(w', ev)], evs + [ev]);
  }

  lemma {:induction false} RunThrough(w: World, a: seq<Event>, w': World, b: seq<Event>, w'': World) returns (ws: seq<World>)
    requires Leads(w, a, w') && Leads(w', b, w'')
    ensures IsRun(ws, a + b) && ws[0] == w && ws[|a|] == w' && ws[|a + b|] == w''
  {
    hide Enabled, Next;
    var us :| IsRun(us, a) && us[0] == w && us[|a|] == w';
    var vs :| IsRun(vs, b) && vs[0] == w' && vs[|b|] == w'';
    ws := us + vs[1..];
    forall i | 0 <= i < |a + b| ensures Enabled(ws[i], (a + b)[i]) && ws[i + 1] == Next(ws[i], (a + b)[i]) {
      if i < |a| { assert ws[i] == us[i] && ws[i + 1] == us[i + 1]; }
      else { assert ws[i] == vs[i - |a|] && ws[i + 1] == vs[i - |a| + 1]; }
    }
  }

  lemma {:induction false} Join(w: World, a: seq<Event>, w': World, b: seq<Event>, w'': World)
    requires Leads(w, a, w') && Leads(w', b, w'')
    ensures Leads(w, a + b, w'')
    ensures NoCalls(a) && NoCalls(b) ==> NoCalls(a + b)
  {
    hide Enabled, Next;
    var ws := RunThrough(w, a, w', b, w'');
  }

  lemma {:induction false} LeadsKeeps(w: World, evs: seq<Event>, w': World)
    requires Inv(w) && Leads(w, evs, w')
    ensures Inv(w')
  {
    hide Inv, Enabled, Next;
    var ws :| IsRun(ws, evs) && ws[0] == w && ws[|evs|] == w';
    for n := 0 to |evs|
      invariant Inv(ws[n])
    {
      StepKeeps(ws[n], evs[n]);
    }
  }

  // ------------------------------------------- whole requests of one replica

  predicate Known(x: Worker, ref: Ref) {
    x.io.HasHead? && x.io.ref == ref && x.io.enrolled
  }

  /** The head that a replica holds is written and the replica hears of it. */
  function SentDone(w: World, id: WorkerId, write: Write): World
    requires id in w.workers && w.workers[id].io.HasHead?
  {
    var x := w.workers[id];
    var f := HeadFlight(id, x, write);
    w.(nextVersion := w.nextVersion + 1,
       heads := w.heads[f.ref := Stored(w.nextVersion, Effect(SnapshotHead(f.snap), write))],
       history := w.history[f.ref := Hist(w, f.ref) + Records(write)],
       flights := w.flights - {f},
       workers := w.workers[id := Answered(x.(io := NoIo, waiting := Some(f)), f)],
       replies := w.replies + Answers(f))
  }

  ghost predicate CanSend(w: World, id: WorkerId, write: Write) {
    && id in w.workers && w.workers[id].io.HasHead? && Matches(w, w.workers[id].io.ref, w.workers[id].io.snap)
    && CanAct(w, w.workers[id], Send(write))
  }

  lemma {:induction false} SendHeld(w: World, id: WorkerId, write: Write) returns (evs: seq<Event>)
    requires CanSend(w, id, write)
    ensures Leads(w, evs, SentDone(w, id, write)) && NoCalls(evs)
  {
    var x := w.workers[id];
    var f := HeadFlight(id, x, write);
    var a, b := Act(id, Send(write)), Arrive(f, true);
    var w1 := SentWorld(w, id, write);
    var w2 := ArrivedWorld(w, id, write, w1);
    hide Enabled, Next, SentDone, CanSend;
    Stay(w);
    Step(w, [], w, a);
    Step(w, [a], w1, b);
    evs := [a] + [b];
    assert [] + [a] == [a];
  }

  lemma {:induction false} SentWorld(w: World, id: WorkerId, write: Write) returns (w1: World)
    requires CanSend(w, id, write)
    ensures Enabled(w, Act(id, Send(write))) && w1 == Next(w, Act(id, Send(write)))
    ensures var x := w.workers[id]; var f := HeadFlight(id, x, write);
            w1 == w.(flights := w.flights + {f}, workers := w.workers[id := x.(io := NoIo, waiting := Some(f))])
  {
    hide Admissible, NotResubmitted;
    w1 := Next(w, Act(id, Send(write)));
    assert w.replies + {} == w.replies;
  }

  lemma {:induction false} ArrivedWorld(w: World, id: WorkerId, write: Write, w1: World) returns (w2: World)
    requires CanSend(w, id, write)
    requires var x := w.workers[id]; var f := HeadFlight(id, x, write);
             w1 == w.(flights := w.flights + {f}, workers := w.workers[id := x.(io := NoIo, waiting := Some(f))])
    ensures var ev := Arrive(HeadFlight(id, w.workers[id], write), true);
            Enabled(w1, ev) && w2 == Next(w1, ev) == SentDone(w, id, write)
  {
    hide Admissible, NotResubmitted, Effect, Answered, Answers, Records;
    var x := w.workers[id];
    var f := HeadFlight(id, x, write);
    w2 := Next(w1, Arrive(f, true));
    var y := x.(io := NoIo, waiting := Some(f));
    assert w.workers[id := y][id := Answered(y, f)] == w.workers[id := Answered(y, f)];
    assert (w.flights + {f}) - {f} == w.flights - {f};
  }

  /** A head is loaded. */
  function LoadDone(w: World, id: WorkerId, ref: Ref): World
    requires id in w.workers
  {
    w.(workers := w.workers[id := w.workers[id].(io := HasHead(ref, Observe(w, ref), Known(w.workers[id], ref)))])
  }

  lemma {:induction false} LoadIt(w: World, id: WorkerId, ref: Ref) returns (evs: seq<Event>)
    requires id in w.workers
    ensures Leads(w, evs, LoadDone(w, id, ref)) && NoCalls(evs)
  {
    var a := Act(id, LoadHead(ref));
    assert w.replies + {} == w.replies && w.flights + {} == w.flights;
    assert Enabled(w, a) && Next(w, a) == LoadDone(w, id, ref);
    Stay(w);
    Step(w, [], w, a);
    evs := [] + [a];
  }

  /** The catalog is loaded, changed and the replica hears of it. */
  function CatalogDone(w: World, id: WorkerId, change: CatalogWrite): World
    requires id in w.workers
  {
    var x := w.workers[id].(cat := Some(w.catalog));
    var f := CatalogPut(id, w.catalog, change);
    w.(nextVersion := w.nextVersion + 1,
       catalog := CatalogEffect(w.catalog, change, w.nextVersion),
       flights := w.flights - {f},
       workers := w.workers[id := Answered(x.(waiting := Some(f)), f)])
  }

  ghost predicate CanChange(w: World, id: WorkerId, change: CatalogWrite) {
    && id in w.workers && CatalogAdmissible(w.catalog, change)
    && CatalogWriteAllowed(w.workers[id].(cat := Some(w.catalog)), w.catalog, change)
  }

  lemma {:induction false} ChangeCatalog(w: World, id: WorkerId, change: CatalogWrite) returns (evs: seq<Event>)
    requires CanChange(w, id, change)
    ensures Leads(w, evs, CatalogDone(w, id, change)) && NoCalls(evs)
  {
    var a, b, c := Act(id, LoadCatalog), Act(id, SendCatalog(change)), Arrive(CatalogPut(id, w.catalog, change), true);
    var w1, w2 := CatalogSent(w, id, change);
    CatalogArrived(w, id, change, w2);
    hide Enabled, Next, CatalogDone, CanChange;
    Stay(w);
    Step(w, [], w, a);
    Step(w, [a], w1, b);
    Step(w, [a, b], w2, c);
    evs := [a, b] + [c];
    assert [] + [a] == [a] && [a] + [b] == [a, b];
  }

  lemma {:induction false} CatalogSent(w: World, id: WorkerId, change: CatalogWrite) returns (w1: World, w2: World)
    requires CanChange(w, id, change)
    ensures Enabled(w, Act(id, LoadCatalog)) && w1 == Next(w, Act(id, LoadCatalog))
    ensures Enabled(w1, Act(id, SendCatalog(change))) && w2 == Next(w1, Act(id, SendCatalog(change)))
    ensures var f := CatalogPut(id, w.catalog, change);
            w2 == w.(flights := w.flights + {f},
                     workers := w.workers[id := w.workers[id].(cat := Some(w.catalog), waiting := Some(f))])
  {
    w1 := Next(w, Act(id, LoadCatalog));
    assert w.replies + {} == w.replies && w.flights + {} == w.flights;
    assert w1 == w.(workers := w.workers[id := w.workers[id].(cat := Some(w.catalog))]);
    w2 := Next(w1, Act(id, SendCatalog(change)));
  }

  lemma {:induction false} CatalogArrived(w: World, id: WorkerId, change: CatalogWrite, w2: World)
    requires CanChange(w, id, change)
    requires var f := CatalogPut(id, w.catalog, change);
             w2 == w.(flights := w.flights + {f},
                      workers := w.workers[id := w.workers[id].(cat := Some(w.catalog), waiting := Some(f))])
    ensures var ev := Arrive(CatalogPut(id, w.catalog, change), true);
            Enabled(w2, ev) && Next(w2, ev) == CatalogDone(w, id, change)
  {
    hide Answered, CatalogEffect, CatalogAdmissible;
    var f := CatalogPut(id, w.catalog, change);
    var y := w.workers[id].(cat := Some(w.catalog), waiting := Some(f));
    assert w.workers[id := y][id := Answered(y, f)] == w.workers[id := Answered(y, f)];
    assert (w.flights + {f}) - {f} == w.flights - {f};
    assert w.replies + {} == w.replies;
  }

  // --------------------------------------------------------- a new mutation

  lemma {:induction false} FreshMutation(hist: seq<Record>) returns (id: MutationId)
    ensures FreshId(hist, id) && forall i :: 0 <= i < |hist| ==> hist[i].m.id < id
  {
    id := 0;
    for n := 0 to |hist|
      invariant forall i :: 0 <= i < n ==> hist[i].m.id < id
    {
      if id <= hist[n].m.id { id := hist[n].m.id + 1; }
    }
  }

  lemma {:induction false} FreshRef(refs: set<Ref>) returns (r: Ref)
    ensures r !in refs && forall x :: x in refs ==> x < r
    decreases |refs|
  {
    if refs == {} { return 0; }
    var x :| x in refs;
    r := FreshRef(refs - {x});
    assert forall y :: y in refs ==> y == x || y in refs - {x};
    if r <= x { r := x + 1; }
  }

  /** Puts an empty value under the first key whatever is there. */
  function Touch(id: MutationId, retainUntil: Time): Mutation {
    Mutation(id, retainUntil, [Request(1, Anything, NoVersion, false, [])], [], None)
  }

  lemma {:induction false} TouchIsAdmissible(h: Head, hist: seq<Record>, clock: Time, id: MutationId, until: Time)
    requires Represents(h, hist, clock) && !h.frozen && FreshId(hist, id)
    ensures MutationAdmissible(h, Touch(id, until), clock)
  {
    hide Represents, Recorded, Values;
    if Recorded(h, id, clock).Some? {
      RecordedIsHistory(h, hist, clock, id, clock);
    }
  }

  /** A replica that holds a current head which accepts mutations can commit one. */
  lemma {:induction false} CommitHeld(w: World, id: WorkerId) returns (evs: seq<Event>, w': World)
    requires Inv(w) && id in w.workers && w.workers[id].io.HasHead?
    requires var io := w.workers[id].io;
             && io.snap == Observe(w, io.ref) && io.snap.Loaded? && !io.snap.head.frozen
             && (io.snap.head.registered || io.enrolled)
    ensures Leads(w, evs, w') && NoCalls(evs)
    ensures var ref := w.workers[id].io.ref; Hist(w', ref) != Hist(w, ref)
  {
    var ref, h := w.workers[id].io.ref, w.workers[id].io.snap.head;
    var hist := Hist(w, ref);
    assert HeadOk(w, ref);
    var fresh' := FreshMutation(hist);
    TouchIsAdmissible(h, hist, w.clock, fresh', w.clock + 1);
    var write := Commit(Touch(fresh', w.clock + 1), w.clock);
    SendIsAllowed(w, id, write, fresh');
    evs := SendHeld(w, id, write);
    w' := SentDone(w, id, write);
    assert |Hist(w', ref)| == |hist| + 1;
  }

  lemma {:induction false} SendIsAllowed(w: World, id: WorkerId, write: Write, fresh': MutationId)
    requires id in w.workers && w.workers[id].io.HasHead? && write == Commit(Touch(fresh', w.clock + 1), w.clock)
    requires var io := w.workers[id].io;
             && io.snap == Observe(w, io.ref) && io.snap.Loaded? && (io.snap.head.registered || io.enrolled)
             && MutationAdmissible(io.snap.head, write.m, w.clock) && FreshId(Hist(w, io.ref), fresh')
    ensures CanSend(w, id, write)
  {
    hide MutationAdmissible;
  }

  lemma {:induction false} CommitAt(w: World, id: WorkerId, ref: Ref) returns (evs: seq<Event>, w': World)
    requires Inv(w) && id in w.workers && ref in w.heads && w.heads[ref].head.registered && !w.heads[ref].head.frozen
    ensures Leads(w, evs, w') && NoCalls(evs) && Hist(w', ref) != Hist(w, ref)
  {
    hide Inv;
    var a := LoadIt(w, id, ref);
    var w1 := LoadDone(w, id, ref);
    LeadsKeeps(w, a, w1);
    var b;
    b, w' := CommitHeld(w1, id);
    Join(w, a, w1, b, w');
    evs := a + b;
    assert Hist(w1, ref) == Hist(w, ref);
  }

  /** While the catalog is not frozen a new domain can be registered and written. */
  lemma {:induction false} CommitNew(w: World, id: WorkerId) returns (evs: seq<Event>, w': World, ref: Ref)
    requires Inv(w) && id in w.workers && w.catalog.freezeEpoch == 0
    ensures Leads(w, evs, w') && NoCalls(evs) && Hist(w', ref) != Hist(w, ref)
  {
    hide Inv;
    ref := FreshRef(w.heads.Keys + w.catalog.entries);
    var a, w1 := CreateNew(w, id, ref);
    LeadsKeeps(w, a, w1);
    var b := LoadIt(w1, id, ref);
    var w2 := LoadDone(w1, id, ref);
    Join(w, a, w1, b, w2);
    var c := ChangeCatalog(w2, id, Enroll(ref));
    var w3 := CatalogDone(w2, id, Enroll(ref));
    Join(w, a + b, w2, c, w3);
    LeadsKeeps(w, a + b + c, w3);
    var d;
    d, w' := CommitHeld(w3, id);
    Join(w, a + b + c, w3, d, w');
    evs := a + b + c + d;
    assert Hist(w3, ref) == Hist(w, ref);
  }

  lemma {:induction false} CreateNew(w: World, id: WorkerId, ref: Ref) returns (evs: seq<Event>, w': World)
    requires id in w.workers && ref !in w.heads && ref !in w.catalog.entries && w.catalog.freezeEpoch == 0
    ensures Leads(w, evs, w') && NoCalls(evs) && w'.catalog == w.catalog && id in w'.workers
    ensures ref in w'.heads && w'.heads[ref].head == INERT && Hist(w', ref) == Hist(w, ref)
  {
    var a := LoadIt(w, id, ref);
    var w1 := LoadDone(w, id, ref);
    assert CanSend(w1, id, CreateInert);
    var b := SendHeld(w1, id, CreateInert);
    w' := SentDone(w1, id, CreateInert);
    Join(w, a, w1, b, w');
    evs := a + b;
    assert Hist(w, ref) + [] == Hist(w, ref);
  }

  // ------------------------------------------------------- breaking a freeze

  /** Some extension without a call of unfreeze(e) changes a domain. */
  ghost predicate CanBreak(w: World, e: nat) {
    exists evs, w' :: Leads(w, evs, w') && Thawless(evs, e) && !Still(w, w')
  }

  lemma {:induction false} BreakAfter(w: World, a: seq<Event>, w1: World, b: seq<Event>, w2: World, ref: Ref, e: nat)
    requires Leads(w, a, w1) && Leads(w1, b, w2) && NoCalls(a) && NoCalls(b)
    requires Hist(w1, ref) == Hist(w, ref) && Hist(w2, ref) != Hist(w1, ref)
    ensures CanBreak(w, e)
  {
    hide Leads;
    Join(w, a, w1, b, w2);
    assert Thawless(a + b, e);
    assert !Still(w, w2);
  }

  lemma {:induction false} OneEvent(w: World, ev: Event)
    requires Enabled(w, ev)
    ensures Leads(w, [ev], Next(w, ev))
  {
    hide Enabled, Next;
    Stay(w);
    Step(w, [], w, ev);
    assert [] + [ev] == [ev];
  }

  lemma {:induction false} ThawArrives(w: World, e: nat, f: Flight)
    requires Inv(w) && f in w.flights && FlightMatches(w, f) && ThawsHead(f, e)
    ensures var w1 := ApplyHead(w, f);
            && Enabled(w, Arrive(f, false)) && Next(w, Arrive(f, false)) == w1 && w1.workers == w.workers
            && w1.heads[f.ref].head.registered && !w1.heads[f.ref].head.frozen && Hist(w1, f.ref) == Hist(w, f.ref)
  {
    hide Inv, Matches, Listening, Notify;
    ThawIsAdmissible(w, f);
    assert Hist(w, f.ref) + [] == Hist(w, f.ref);
  }

  lemma {:induction false} ThawIsAdmissible(w: World, f: Flight)
    requires Inv(w) && f in w.flights && f.HeadPut? && f.write.Unfreeze?
    ensures f.snap.Loaded? && f.snap.head.registered
  {
    hide HeadOk, WorkerOk, ReplyOk, SnapshotOk, CatalogOk;
    assert FlightOk(w, f);
  }

  /** A left-over write that thaws a head lets the next mutation in. */
  lemma {:induction false} HeadFlightBreaks(w: World, e: nat, f: Flight, id: WorkerId)
    requires Inv(w) && f in w.flights && FlightMatches(w, f) && ThawsHead(f, e) && id in w.workers
    ensures CanBreak(w, e)
  {
    hide Inv, Leads, Enabled, Next, CanBreak, FlightMatches, Effect, Hist, Records;
    ThawArrives(w, e, f);
    var ev, w1 := Arrive(f, false), ApplyHead(w, f);
    OneEvent(w, ev);
    LeadsKeeps(w, [ev], w1);
    var b, w2 := CommitAt(w1, id, f.ref);
    BreakAfter(w, [ev], w1, b, w2, f.ref, e);
  }

  /** A left-over write that thaws the catalog lets a new domain in. */
  lemma {:induction false} CatalogFlightBreaks(w: World, e: nat, f: Flight, id: WorkerId)
    requires Inv(w) && f in w.flights && FlightMatches(w, f) && ThawsCatalog(f, e) && id in w.workers
    ensures CanBreak(w, e)
  {
    hide Inv, Leads, CanBreak;
    var ev, w1 := Arrive(f, false), ApplyCatalog(w, f);
    assert Enabled(w, ev) && Next(w, ev) == w1;
    OneEvent(w, ev);
    LeadsKeeps(w, [ev], w1);
    var b, w2, ref := CommitNew(w1, id);
    BreakAfter(w, [ev], w1, b, w2, ref, e);
  }

  /** A replica inside unfreeze(e) thaws a head. */
  lemma {:induction false} ThawHead(w: World, id: WorkerId, ref: Ref, e: nat) returns (evs: seq<Event>, w': World)
    requires id in w.workers && w.workers[id].job.Unfreezing? && w.workers[id].job.epoch == e
    requires FrozenRef(w, ref, e) && w.heads[ref].head.registered
    ensures Leads(w, evs, w') && NoCalls(evs) && id in w'.workers
    ensures ref in w'.heads && w'.heads[ref].head == w.heads[ref].head.(frozen := false, freezeEpoch := 0)
    ensures Hist(w', ref) == Hist(w, ref)
    ensures w' == SentDone(LoadDone(w, id, ref), id, Unfreeze(e))
  {
    hide Leads;
    var a := LoadIt(w, id, ref);
    var w1 := LoadDone(w, id, ref);
    assert CanSend(w1, id, Unfreeze(e));
    var b := SendHeld(w1, id, Unfreeze(e));
    w' := SentDone(w1, id, Unfreeze(e));
    Join(w, a, w1, b, w');
    evs := a + b;
    assert Hist(w, ref) + [] == Hist(w, ref);
  }

  /** A replica still inside unfreeze(e) lets a mutation into a named domain of the new freeze. */
  lemma {:induction false} UnfreezerBreaks(w: World, e: nat, id: WorkerId, ref: Ref) returns (evs: seq<Event>, w': World)
    requires Inv(w) && FrozenAt(w, e) && 0 < e && ref in w.catalog.entries
    requires id in w.workers && w.workers[id].job.Unfreezing? && w.workers[id].job.epoch == e
    ensures Leads(w, evs, w') && NoCalls(evs) && Hist(w', ref) != Hist(w, ref)
  {
    hide Inv, Leads, SentDone, LoadDone, Hist;
    assert FrozenRef(w, ref, e);
    FrozenIsRegistered(w, ref);
    var a, w1 := ThawHead(w, id, ref, e);
    LeadsKeeps(w, a, w1);
    var b;
    b, w' := CommitAt(w1, id, ref);
    Join(w, a, w1, b, w');
    evs := a + b;
  }

  lemma {:induction false} FrozenIsRegistered(w: World, ref: Ref)
    requires Inv(w) && ref in w.heads && w.heads[ref].head.frozen
    ensures w.heads[ref].head.registered
  {
    assert HeadOk(w, ref);
  }

  /** With an empty catalog the same replica thaws the catalog. */
  lemma {:induction false} EmptyCatalogBreaks(w: World, e: nat, id: WorkerId)
    requires Inv(w) && FrozenAt(w, e) && 0 < e && w.catalog.entries == {}
    requires id in w.workers && w.workers[id].job.Unfreezing? && w.workers[id].job.epoch == e
    ensures CanBreak(w, e)
  {
    hide Inv, Leads;
    assert CanChange(w, id, UnfreezeCatalog(e));
    var a := ChangeCatalog(w, id, UnfreezeCatalog(e));
    var w1 := CatalogDone(w, id, UnfreezeCatalog(e));
    LeadsKeeps(w, a, w1);
    var b, w2, ref := CommitNew(w1, id);
    BreakAfter(w, a, w1, b, w2, ref, e);
  }

  // ---------------------------------------------------------------- theorem

  lemma {:induction false} QuietIsStill(w: World, e: nat, evs: seq<Event>, w': World)
    requires Inv(w) && FrozenAt(w, e) && 0 < e && NoUnfreezer(w, e) && Leads(w, evs, w') && Thawless(evs, e)
    ensures Still(w, w')
  {
    hide Inv, NoUnfreezer, Enabled, Next;
    var ws :| IsRun(ws, evs) && ws[0] == w && ws[|evs|] == w';
    QuietRun(ws, evs, e, |evs|);
    forall ref ensures Hist(w', ref) == Hist(w, ref) && Contents(w', ref) == Contents(w, ref) {
      FrozenContents(w, w', e, ref);
    }
  }

  /**
    * A frozen state is still for as long as nobody calls unfreeze(e) if and only if no
    * replica is inside unfreeze(e) and no write of it can still take effect.
    */
  lemma {:induction false} StillIff(w: World, e: nat, id: WorkerId)
    requires Inv(w) && FrozenAt(w, e) && 0 < e && id in w.workers
    ensures (forall evs, w' :: Leads(w, evs, w') && Thawless(evs, e) ==> Still(w, w')) <==> NoUnfreezer(w, e)
  {
    if NoUnfreezer(w, e) {
      forall evs, w' | Leads(w, evs, w') && Thawless(evs, e) ensures Still(w, w') { QuietIsStill(w, e, evs, w'); }
    } else {
      UnquietBreaks(w, e, id);
    }
  }

  lemma {:induction false} UnquietBreaks(w: World, e: nat, id: WorkerId)
    requires Inv(w) && FrozenAt(w, e) && 0 < e && id in w.workers && !NoUnfreezer(w, e)
    ensures CanBreak(w, e)
  {
    hide Inv, Leads, Still, FrozenAt, FlightMatches;
    if x :| x in w.workers && w.workers[x].job.Unfreezing? && w.workers[x].job.epoch == e {
      if w.catalog.entries == {} {
        EmptyCatalogBreaks(w, e, x);
      } else {
        var ref :| ref in w.catalog.entries;
        var evs, w' := UnfreezerBreaks(w, e, x, ref);
        NotStill(w, w', ref);
        assert Thawless(evs, e);
      }
    } else {
      var f :| f in w.flights && FlightMatches(w, f) && (ThawsHead(f, e) || ThawsCatalog(f, e));
      if ThawsHead(f, e) { HeadFlightBreaks(w, e, f, id); } else { CatalogFlightBreaks(w, e, f, id); }
    }
  }

  lemma {:induction false} NotStill(w: World, w': World, ref: Ref)
    requires Hist(w', ref) != Hist(w, ref)
    ensures !Still(w, w')
  {
  }

  /** The same, for the state of a run in which freezeDomains(e) has returned. */
  lemma {:induction false} ReturnedIsStillIff(ws: seq<World>, evs: seq<Event>, n: nat, e: nat, id: WorkerId)
    requires IsRun(ws, evs) && Initial(ws[0]) && n < |ws| && 0 < e && FrozenAt(ws[n], e)
    requires id in ws[n].workers && ws[n].workers[id].job == FreezeReturned(e)
    ensures (forall es, w' :: Leads(ws[n], es, w') && Thawless(es, e) ==> Still(ws[n], w')) <==> NoUnfreezer(ws[n], e)
  {
    hide Inv, Leads, Still, Enabled, Next;
    RunKeeps(ws, evs, n);
    StillIff(ws[n], e, id);
  }

  // ------------------------------------------------------- a run that breaks

  /** Another replica's work leaves a replica alone. */
  predicate OthersStay(w: World, w': World, id: WorkerId) {
    w'.workers.Keys == w.workers.Keys && forall x :: x in w.workers && x != id ==> w'.workers[x] == w.workers[x]
  }

  lemma {:induction false} DoAct(w: World, id: WorkerId, action: Action)
    requires id in w.workers && CanAct(w, w.workers[id], action) && !action.Send? && !action.SendCatalog? && !action.Replay?
    ensures Enabled(w, Act(id, action)) && Leads(w, [Act(id, action)], ActDone(w, id, action))
  {
    hide Leads;
    assert w.replies + {} == w.replies && w.flights + {} == w.flights;
    OneEvent(w, Act(id, action));
  }

  ghost function ActDone(w: World, id: WorkerId, action: Action): World
    requires id in w.workers && CanAct(w, w.workers[id], action)
  {
    w.(workers := w.workers[id := Acted(w, id, w.workers[id], action)])
  }

  /** Domain zero is registered, not frozen, and its domain has no history. */
  ghost predicate OneDomain(w: World) {
    && w.catalog.entries == {0} && w.catalog.freezeEpoch == 0
    && 0 in w.heads && w.heads[0].head == INERT.(registered := true) && Hist(w, 0) == []
  }

  ghost predicate OneFrozen(w: World, e: nat) {
    && w.catalog.entries == {0} && w.catalog.freezeEpoch == e
    && 0 in w.heads && w.heads[0].head == INERT.(registered := true, frozen := true, freezeEpoch := e) && Hist(w, 0) == []
  }

  lemma {:induction false} RegisterDomain(w: World) returns (evs: seq<Event>, w': World)
    requires Initial(w) && 0 in w.workers
    ensures Leads(w, evs, w') && OneDomain(w') && OthersStay(w, w', 0) && w'.workers[0].job == Client
  {
    hide Leads;
    var a := LoadIt(w, 0, 0);
    var w1 := LoadDone(w, 0, 0);
    assert CanSend(w1, 0, CreateInert);
    var b := SendHeld(w1, 0, CreateInert);
    var w2 := SentDone(w1, 0, CreateInert);
    Join(w, a, w1, b, w2);
    var c := LoadIt(w2, 0, 0);
    var w3 := LoadDone(w2, 0, 0);
    Join(w, a + b, w2, c, w3);
    var d, w4 := EnrollDomain(w3);
    Join(w, a + b + c, w3, d, w4);
    evs, w' := a + b + c + d, w4;
  }

  /** From a created head that is held by replica zero. */
  lemma {:induction false} EnrollDomain(w: World) returns (evs: seq<Event>, w': World)
    requires 0 in w.workers && w.workers[0].job == Client && w.catalog.entries == {} && w.catalog.freezeEpoch == 0
    requires 0 in w.heads && w.heads[0].head == INERT && Hist(w, 0) == []
    requires w.workers[0].io.HasHead? && w.workers[0].io.ref == 0 && w.workers[0].io.snap == Observe(w, 0)
    ensures Leads(w, evs, w') && OneDomain(w') && OthersStay(w, w', 0) && w'.workers[0].job == Client
  {
    hide Leads;
    assert CanChange(w, 0, Enroll(0));
    var a := ChangeCatalog(w, 0, Enroll(0));
    var w1 := CatalogDone(w, 0, Enroll(0));
    assert CanSend(w1, 0, Activate);
    var b := SendHeld(w1, 0, Activate);
    w' := SentDone(w1, 0, Activate);
    Join(w, a, w1, b, w');
    evs := a + b;
  }

  lemma {:induction false} FreezeDomain(w: World, e: nat) returns (evs: seq<Event>, w': World)
    requires OneDomain(w) && 0 in w.workers && w.workers[0].job == Client && 0 < e
    ensures Leads(w, evs, w') && OneFrozen(w', e) && OthersStay(w, w', 0) && w'.workers[0].job == FreezeReturned(e)
  {
    hide Leads;
    var a := [Act(0, StartFreeze(e))];
    DoAct(w, 0, StartFreeze(e));
    var w1 := ActDone(w, 0, StartFreeze(e));
    assert CanChange(w1, 0, FreezeCatalog(e));
    var b := ChangeCatalog(w1, 0, FreezeCatalog(e));
    var w2 := CatalogDone(w1, 0, FreezeCatalog(e));
    Join(w, a, w1, b, w2);
    var c, w3 := FreezeHeld(w2, e);
    Join(w, a + b, w2, c, w3);
    evs, w' := a + b + c, w3;
  }

  lemma {:induction false} FreezeSends(w: World, e: nat)
    requires w.catalog.entries == {0} && 0 < e && 0 in w.workers && w.workers[0].job == Freezing(e, {0}, {})
    requires 0 in w.heads && w.heads[0].head == INERT.(registered := true) && Hist(w, 0) == []
    ensures var w1 := LoadDone(w, 0, 0);
            && CanSend(w1, 0, Freeze(e))
            && var w2 := SentDone(w1, 0, Freeze(e));
               && w2.catalog == w.catalog && OthersStay(w, w2, 0) && w2.workers[0].waiting.None?
               && w2.workers[0].job == Freezing(e, {0}, {0})
               && 0 in w2.heads && Hist(w2, 0) == []
               && w2.heads[0].head == INERT.(registered := true, frozen := true, freezeEpoch := e)
  {
  }

  lemma {:induction false} FreezeHeld(w: World, e: nat) returns (evs: seq<Event>, w': World)
    requires w.catalog.entries == {0} && w.catalog.freezeEpoch == e && 0 < e && 0 in w.workers
    requires 0 in w.heads && w.heads[0].head == INERT.(registered := true) && Hist(w, 0) == []
    requires w.workers[0].job == Freezing(e, {0}, {})
    ensures Leads(w, evs, w') && OneFrozen(w', e) && OthersStay(w, w', 0) && w'.workers[0].job == FreezeReturned(e)
  {
    hide Leads, CanSend, SentDone, LoadDone;
    var a := LoadIt(w, 0, 0);
    var w1 := LoadDone(w, 0, 0);
    FreezeSends(w, e);
    var b := SendHeld(w1, 0, Freeze(e));
    var w2 := SentDone(w1, 0, Freeze(e));
    Join(w, a, w1, b, w2);
    DoAct(w2, 0, ReturnFreeze);
    w' := ActDone(w2, 0, ReturnFreeze);
    Join(w, a + b, w2, [Act(0, ReturnFreeze)], w');
    evs := a + b + [Act(0, ReturnFreeze)];
  }

  /** The freeze is rolled back by replica zero; replica one has begun the same rollback and stops. */
  lemma {:induction false} RollBack(w: World, e: nat) returns (evs: seq<Event>, w': World)
    requires OneFrozen(w, e) && 0 < e && 0 in w.workers && 1 in w.workers
    requires w.workers[0].job == FreezeReturned(e) && w.workers[1].job == Client
    ensures Leads(w, evs, w') && OneDomain(w') && w'.workers.Keys == w.workers.Keys
    ensures w'.workers[0].job == Client && w'.workers[1].job == Unfreezing(e, {})
  {
    hide Leads;
    DoAct(w, 0, EndJob);
    var w1 := ActDone(w, 0, EndJob);
    DoAct(w1, 1, StartUnfreeze(e));
    var w2 := ActDone(w1, 1, StartUnfreeze(e));
    Join(w, [Act(0, EndJob)], w1, [Act(1, StartUnfreeze(e))], w2);
    DoAct(w2, 1, LoadCatalog);
    var w3 := ActDone(w2, 1, LoadCatalog);
    Join(w, [Act(0, EndJob)] + [Act(1, StartUnfreeze(e))], w2, [Act(1, LoadCatalog)], w3);
    DoAct(w3, 0, StartUnfreeze(e));
    var w4 := ActDone(w3, 0, StartUnfreeze(e));
    var a := [Act(0, EndJob)] + [Act(1, StartUnfreeze(e))] + [Act(1, LoadCatalog)];
    Join(w, a, w3, [Act(0, StartUnfreeze(e))], w4);
    var b, w5 := ThawAll(w4, e);
    Join(w, a + [Act(0, StartUnfreeze(e))], w4, b, w5);
    evs, w' := a + [Act(0, StartUnfreeze(e))] + b, w5;
  }

  lemma {:induction false} ThawAll(w: World, e: nat) returns (evs: seq<Event>, w': World)
    requires OneFrozen(w, e) && 0 < e && 0 in w.workers && w.workers[0].job == Unfreezing(e, {})
    ensures Leads(w, evs, w') && OneDomain(w') && OthersStay(w, w', 0) && w'.workers[0].job == Client
  {
    hide Leads;
    var a, w1 := ThawHead(w, 0, 0, e);
    assert w1.workers[0].job == Unfreezing(e, {0}) && OthersStay(w, w1, 0);
    assert CanChange(w1, 0, UnfreezeCatalog(e));
    var b := ChangeCatalog(w1, 0, UnfreezeCatalog(e));
    w' := CatalogDone(w1, 0, UnfreezeCatalog(e));
    Join(w, a, w1, b, w');
    evs := a + b;
  }

  /**
    * The promise fails of the code: a freeze is rolled back without a new epoch while a
    * second replica is inside the same rollback, the domains are frozen again at that
    * epoch, freezeDomains returns, and then, without another call of unfreeze, the second
    * replica thaws a named domain and a mutation changes it.
    */
  lemma {:induction false} StaleUnfreezeBreaksFreeze(w: World, e: nat) returns (ws: seq<World>, evs: seq<Event>, n: nat)
    requires Initial(w) && 0 in w.workers && 1 in w.workers && 0 < e
    ensures IsRun(ws, evs) && ws[0] == w && n < |ws|
    ensures 0 in ws[n].workers && ws[n].workers[0].job == FreezeReturned(e) && FrozenAt(ws[n], e)
    ensures forall k :: n <= k < |evs| ==> !Restarts(evs[k], e)
    ensures 0 in ws[n].catalog.entries && Hist(ws[|evs|], 0) != Hist(ws[n], 0)
  {
    hide Enabled, Next, Inv, CanAct, OneDomain, Leads;
    InitialOk(w);
    var a, w1 := RegisterDomain(w);
    var b, w2 := FreezeDomain(w1, e);
    Join(w, a, w1, b, w2);
    var c, w3 := RollBack(w2, e);
    Join(w, a + b, w2, c, w3);
    var d, w4 := FreezeDomain(w3, e);
    Join(w, a + b + c, w3, d, w4);
    var before := a + b + c + d;
    LeadsKeeps(w, before, w4);
    var after, w5 := UnfreezerBreaks(w4, e, 1, 0);
    n := |before|;
    evs := before + after;
    ws := RunThrough(w, before, w4, after, w5);
  }
}
