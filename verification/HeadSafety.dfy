/** What every run of the head protocol keeps, for all interleavings, lost responses and retries. */
module HeadSafety {
  import opened Basics
  import opened DomainHead
  import opened HeadProtocol
  import opened HeadHistory

  // ------------------------------------------------------------ invariant

  /** A loaded head represents a prefix of the history, and is the stored head while its version is current. */
  ghost predicate SnapshotOk(w: World, ref: Ref, snap: Snapshot) {
    snap.Loaded? ==>
      && snap.version < w.nextVersion
      && ref in w.heads
      && (w.heads[ref].version == snap.version ==> w.heads[ref].head == snap.head)
      && snap.head.revision <= |Hist(w, ref)|
      && Represents(snap.head, Hist(w, ref)[..snap.head.revision], w.clock)
  }

  ghost predicate CatalogOk(w: World, c: Catalog) {
    && c.version < w.nextVersion
    && (c.version == w.catalog.version ==> c == w.catalog)
    && c.entries <= w.catalog.entries
  }

  ghost predicate WorkerOk(w: World, x: Worker) {
    && (x.io.HasHead? ==> SnapshotOk(w, x.io.ref, x.io.snap) && (x.io.enrolled ==> x.io.ref in w.catalog.entries))
    && (x.cat.Some? ==> CatalogOk(w, x.cat.value))
  }

  /** A PUT in flight passed its checks, and while it can still win its identifier is unused. */
  ghost predicate FlightOk(w: World, f: Flight) {
    match f
    case HeadPut(_, ref, snap, enrolled, write) =>
      && SnapshotOk(w, ref, snap) && Admissible(snap, enrolled, write) && WriteTimesPast(write, w.clock)
      && (enrolled ==> ref in w.catalog.entries)
      && ((write.Commit? || write.Fold?) && Matches(w, ref, snap) ==> FreshId(Hist(w, ref), write.m.id))
    case CatalogPut(_, cat, change) => CatalogOk(w, cat) && CatalogAdmissible(cat, change)
  }

  ghost predicate HeadOk(w: World, ref: Ref)
    requires ref in w.heads
  {
    && w.heads[ref].version < w.nextVersion
    && Represents(w.heads[ref].head, Hist(w, ref), w.clock)
    && (w.heads[ref].head.registered ==> ref in w.catalog.entries)
  }

  ghost predicate ReplyOk(w: World, r: Reply) {
    exists i :: 0 <= i < |Hist(w, r.ref)| && Hist(w, r.ref)[i].m.id == r.id && r.outcome == OutcomeAt(Hist(w, r.ref), i)
  }

  ghost predicate Inv(w: World) {
    && (forall ref :: ref in w.heads ==> HeadOk(w, ref))
    && (forall ref :: ref !in w.heads ==> Hist(w, ref) == [])
    && w.catalog.version < w.nextVersion
    && (forall id :: id in w.workers ==> WorkerOk(w, w.workers[id]))
    && (forall f :: f in w.flights ==> FlightOk(w, f))
    && (forall r :: r in w.replies ==> ReplyOk(w, r))
  }

  // ------------------------------------------------------------- stability

  ghost predicate SameDomain(w: World, w': World, ref: Ref) {
    && (ref in w.heads <==> ref in w'.heads)
    && (ref in w.heads ==> w'.heads[ref] == w.heads[ref])
    && Hist(w', ref) == Hist(w, ref)
  }

  /** How one world may follow another: changed objects carry versions that nobody has seen. */
  ghost predicate Later(w: World, w': World) {
    && w.clock <= w'.clock && w.nextVersion <= w'.nextVersion
    && (forall ref :: SameDomain(w, w', ref) || (ref in w'.heads && w.nextVersion <= w'.heads[ref].version))
    && (forall ref :: Hist(w, ref) <= Hist(w', ref))
    && (w'.catalog == w.catalog || w.nextVersion <= w'.catalog.version)
    && w.catalog.entries <= w'.catalog.entries
  }

  lemma {:induction false} RepresentsLater(h: Head, hist: seq<Record>, t: Time, t': Time)
    requires Represents(h, hist, t) && t <= t'
    ensures Represents(h, hist, t')
  {
  }

  lemma {:induction false} SnapshotStable(w: World, w': World, ref: Ref, snap: Snapshot)
    requires SnapshotOk(w, ref, snap) && Later(w, w')
    ensures SnapshotOk(w', ref, snap)
  {
    if snap.Loaded? {
      var n := snap.head.revision;
      assert Hist(w, ref) <= Hist(w', ref);
      assert Hist(w', ref)[..n] == Hist(w, ref)[..n];
      RepresentsLater(snap.head, Hist(w, ref)[..n], w.clock, w'.clock);
      assert SameDomain(w, w', ref) || w.nextVersion <= w'.heads[ref].version;
    }
  }

  lemma {:induction false} WorkerStable(w: World, w': World, x: Worker)
    requires WorkerOk(w, x) && Later(w, w')
    ensures WorkerOk(w', x)
  {
    if x.io.HasHead? { SnapshotStable(w, w', x.io.ref, x.io.snap); }
  }

  lemma {:induction false} FlightStable(w: World, w': World, f: Flight)
    requires FlightOk(w, f) && Later(w, w')
    ensures FlightOk(w', f)
  {
    if f.HeadPut? {
      SnapshotStable(w, w', f.ref, f.snap);
      assert SameDomain(w, w', f.ref) || w.nextVersion <= w'.heads[f.ref].version;
    }
  }

  lemma {:induction false} ReplyStable(w: World, w': World, r: Reply)
    requires ReplyOk(w, r) && Later(w, w')
    ensures ReplyOk(w', r)
  {
    var i :| 0 <= i < |Hist(w, r.ref)| && Hist(w, r.ref)[i].m.id == r.id && r.outcome == OutcomeAt(Hist(w, r.ref), i);
    assert Hist(w, r.ref) <= Hist(w', r.ref);
    assert Hist(w', r.ref)[i] == Hist(w, r.ref)[i];
  }

  lemma {:induction false} HeadStable(w: World, w': World, ref: Ref)
    requires ref in w.heads && HeadOk(w, ref) && Later(w, w') && SameDomain(w, w', ref)
    ensures HeadOk(w', ref)
  {
    RepresentsLater(w.heads[ref].head, Hist(w, ref), w.clock, w'.clock);
  }

  /** The shared part of every preservation proof: what the event did not touch stays good. */
  lemma {:induction false} Frame(w: World, w': World, touched: set<Ref>)
    requires Inv(w) && Later(w, w') && w'.catalog.version < w'.nextVersion
    requires forall ref :: ref !in touched ==> SameDomain(w, w', ref)
    requires forall ref :: ref in touched ==> ref in w'.heads && HeadOk(w', ref)
    requires forall id :: id in w'.workers ==> (id in w.workers && w'.workers[id] == w.workers[id]) || WorkerOk(w', w'.workers[id])
    requires forall f :: f in w'.flights ==> f in w.flights || FlightOk(w', f)
    requires forall r :: r in w'.replies ==> r in w.replies || ReplyOk(w', r)
    ensures Inv(w')
  {
    forall ref | ref in w'.heads
      ensures HeadOk(w', ref)
    {
      if ref !in touched { assert SameDomain(w, w', ref); HeadStable(w, w', ref); }
    }
    forall ref | ref !in w'.heads
      ensures Hist(w', ref) == []
    {
      assert SameDomain(w, w', ref);
    }
    forall id | id in w'.workers
      ensures WorkerOk(w', w'.workers[id])
    {
      if id in w.workers && w'.workers[id] == w.workers[id] { WorkerStable(w, w', w.workers[id]); }
    }
    forall f | f in w'.flights
      ensures FlightOk(w', f)
    {
      if f in w.flights { FlightStable(w, w', f); }
    }
    forall r | r in w'.replies
      ensures ReplyOk(w', r)
    {
      if r in w.replies { ReplyStable(w, w', r); }
    }
  }

  // ----------------------------------------------------------------- steps

  lemma {:induction false} TickKeeps(w: World, to: Time)
    requires Inv(w) && w.clock <= to
    ensures Inv(w.(clock := to)) && Later(w, w.(clock := to))
  {
    var w' := w.(clock := to);
    forall ref ensures SameDomain(w, w', ref) && Hist(w, ref) <= Hist(w', ref) { assert Hist(w', ref) == Hist(w, ref); }
    Frame(w, w', {});
  }

  lemma {:induction false} SentIsOk(w: World, id: WorkerId, x: Worker, write: Write)
    requires Inv(w) && WorkerOk(w, x) && CanAct(w, x, Send(write))
    ensures FlightOk(w, HeadFlight(id, x, write))
  {
    var ref, snap := x.io.ref, x.io.snap;
    if (write.Commit? || write.Fold?) && Matches(w, ref, snap) {
      SentIsFresh(w, x, write);
    }
    hide Inv, Represents, FreshId, Hist, Recorded;
  }

  /** A mutation is only sent when its identifier is not recorded, so it is new to the history. */
  lemma {:induction false} SentIsFresh(w: World, x: Worker, write: Write)
    requires Inv(w) && WorkerOk(w, x) && CanAct(w, x, Send(write)) && (write.Commit? || write.Fold?)
    requires Matches(w, x.io.ref, x.io.snap)
    ensures FreshId(Hist(w, x.io.ref), write.m.id)
  {
    var ref, snap := x.io.ref, x.io.snap;
    var hist := Hist(w, ref);
    assert HeadOk(w, ref);
    hide Inv, Represents, Recorded;
    forall i | 0 <= i < |hist|
      ensures hist[i].m.id != write.m.id
    {
      if hist[i].m.id == write.m.id {
        RecordedIsOutcome(snap.head, hist, w.clock, i, w.clock);
      }
    }
  }

  lemma {:induction false} ReplayIsOk(w: World, x: Worker, m: Mutation, materialized: bool)
    requires WorkerOk(w, x) && CanAct(w, x, Replay(m, materialized))
    ensures forall r :: r in Replayed(w, x, Replay(m, materialized)) ==> ReplyOk(w, r)
  {
    var h, ref := x.io.snap.head, x.io.ref;
    var n := h.revision;
    var old' := Hist(w, ref)[..n];
    RecordedIsHistory(h, old', w.clock, m.id, w.clock);
    var i :| 0 <= i < n && old'[i].m.id == m.id && Recorded(h, m.id, w.clock) == Some(OutcomeAt(old', i));
    assert Hist(w, ref)[i] == old'[i];
  }

  lemma {:induction false} ActedIsOk(w: World, id: WorkerId, x: Worker, action: Action)
    requires Inv(w) && WorkerOk(w, x) && CanAct(w, x, action)
    ensures WorkerOk(w, Acted(w, id, x, action))
  {
    if action.LoadHead? && action.ref in w.heads {
      var ref := action.ref;
      assert HeadOk(w, ref);
      assert Hist(w, ref)[..|Hist(w, ref)|] == Hist(w, ref);
    }
  }

  /** Worlds that share their objects and their clock. */
  ghost predicate SameObjects(w: World, w': World) {
    w' == w.(workers := w'.workers, flights := w'.flights, replies := w'.replies)
  }

  lemma {:induction false} SameObjectsLater(w: World, w': World)
    requires SameObjects(w, w')
    ensures Later(w, w') && forall ref :: SameDomain(w, w', ref)
  {
    forall ref ensures SameDomain(w, w', ref) && Hist(w, ref) <= Hist(w', ref) { assert Hist(w, ref) == Hist(w', ref); }
  }

  lemma {:induction false} ActFrame(w: World, id: WorkerId, x: Worker, sent: set<Flight>, replies: set<Reply>)
    requires Inv(w) && WorkerOk(w, x)
    requires forall f :: f in sent ==> FlightOk(w, f)
    requires forall r :: r in replies ==> ReplyOk(w, r)
    ensures Inv(w.(workers := w.workers[id := x], flights := w.flights + sent, replies := w.replies + replies))
  {
    var w' := w.(workers := w.workers[id := x], flights := w.flights + sent, replies := w.replies + replies);
    SameObjectsLater(w, w');
    WorkerStable(w, w', x);
    forall f | f in sent ensures FlightOk(w', f) { FlightStable(w, w', f); }
    forall r | r in replies ensures ReplyOk(w', r) { ReplyStable(w, w', r); }
    Frame(w, w', {});
  }

  lemma {:induction false} SentSetIsOk(w: World, id: WorkerId, x: Worker, action: Action)
    requires Inv(w) && WorkerOk(w, x) && CanAct(w, x, action)
    ensures forall f :: f in Sent(id, x, action) ==> FlightOk(w, f)
  {
    if action.Send? { SentIsOk(w, id, x, action.write); }
  }

  lemma {:induction false} ReplayedIsOk(w: World, x: Worker, action: Action)
    requires WorkerOk(w, x) && CanAct(w, x, action)
    ensures forall r :: r in Replayed(w, x, action) ==> ReplyOk(w, r)
  {
    if action.Replay? { ReplayIsOk(w, x, action.m, action.materialized); }
  }

  lemma {:induction false} ActKeeps(w: World, id: WorkerId, action: Action)
    requires Inv(w) && Enabled(w, Act(id, action))
    ensures Inv(Next(w, Act(id, action))) && Later(w, Next(w, Act(id, action)))
  {
    var x := w.workers[id];
    ActedIsOk(w, id, x, action);
    SentSetIsOk(w, id, x, action);
    ReplayedIsOk(w, x, action);
    ActFrame(w, id, Acted(w, id, x, action), Sent(id, x, action), Replayed(w, x, action));
    SameObjectsLater(w, Next(w, Act(id, action)));
  }

  lemma {:induction false} ApplyHeadLater(w: World, f: Flight)
    requires f.HeadPut?
    ensures var w' := ApplyHead(w, f);
            Later(w, w') && forall ref :: ref != f.ref ==> SameDomain(w, w', ref)
  {
    var w' := ApplyHead(w, f);
    assert Hist(w', f.ref) == Hist(w, f.ref) + Records(f.write);
    forall ref | ref != f.ref ensures SameDomain(w, w', ref) { assert Hist(w', ref) == Hist(w, ref); }
  }

  lemma {:induction false} ApplyHeadOk(w: World, f: Flight)
    requires Inv(w) && f in w.flights && f.HeadPut? && FlightMatches(w, f)
    ensures Represents(Effect(SnapshotHead(f.snap), f.write), Hist(w, f.ref) + Records(f.write), w.clock)
    ensures Effect(SnapshotHead(f.snap), f.write).registered ==> f.ref in w.catalog.entries
  {
    assert FlightOk(w, f);
    var hist := Hist(w, f.ref);
    if f.snap.Missing? {
      assert hist + [] == [];
    } else {
      assert HeadOk(w, f.ref);
      WriteRepresents(f.snap.head, f.snap.version, f.enrolled, f.write, hist, w.clock);
    }
  }

  lemma {:induction false} AnswerRevision(w: World, f: Flight)
    requires Inv(w) && f in w.flights && f.HeadPut? && FlightMatches(w, f) && Records(f.write) != []
    ensures SnapshotHead(f.snap).revision == |Hist(w, f.ref)|
  {
    hide Retained, Legal, UniqueIds, FreshId, WorkerOk, ReplyOk;
    assert FlightOk(w, f) && HeadOk(w, f.ref);
  }

  lemma {:induction false} AnswerIsOk(w: World, f: Flight)
    requires Inv(w) && f in w.flights && f.HeadPut? && FlightMatches(w, f)
    ensures forall r :: r in Answers(f) ==> ReplyOk(ApplyHead(w, f), r)
  {
    hide Inv, FlightMatches, Effect, DeltaOf, FingerprintOf;
    if Records(f.write) != [] {
      AnswerRevision(w, f);
      var w' := ApplyHead(w, f);
      var hist := Hist(w, f.ref);
      assert Hist(w', f.ref)[|hist|] == Records(f.write)[0];
      var record := Records(f.write)[0];
      DeltaParts(record.m, record.fingerprint, |hist| + 1);
      forall r | r in Answers(f) ensures ReplyOk(w', r) { assert r.outcome == OutcomeAt(Hist(w', f.ref), |hist|); }
    }
  }

  lemma {:induction false} AnsweredIsOk(w: World, x: Worker, f: Flight)
    requires WorkerOk(w, x)
    requires f.CatalogPut? && f.change.Enroll? ==> f.change.ref in w.catalog.entries
    ensures WorkerOk(w, Answered(x, f))
  {
  }

  lemma {:induction false} AppliedHeadKeeps(w: World, f: Flight)
    requires Inv(w) && f in w.flights && f.HeadPut? && FlightMatches(w, f)
    ensures Inv(ApplyHead(w, f))
  {
    var w' := ApplyHead(w, f);
    ApplyHeadOk(w, f);
    ApplyHeadLater(w, f);
    assert Hist(w', f.ref) == Hist(w, f.ref) + Records(f.write);
    assert HeadOk(w', f.ref);
    Frame(w, w', {f.ref});
  }

  lemma {:induction false} AppliedCatalogKeeps(w: World, f: Flight)
    requires Inv(w) && f in w.flights && f.CatalogPut? && FlightMatches(w, f)
    ensures Inv(ApplyCatalog(w, f)) && Later(w, ApplyCatalog(w, f))
    ensures f.change.Enroll? ==> f.change.ref in ApplyCatalog(w, f).catalog.entries
  {
    var w' := ApplyCatalog(w, f);
    assert FlightOk(w, f);
    assert f.cat == w.catalog;
    forall ref ensures SameDomain(w, w', ref) && Hist(w, ref) <= Hist(w', ref) { assert Hist(w', ref) == Hist(w, ref); }
    Frame(w, w', {});
  }

  lemma {:induction false} NotifyKeeps(w: World, f: Flight)
    requires Inv(w) && f.owner in w.workers
    requires forall r :: r in Answers(f) ==> ReplyOk(w, r)
    requires f.CatalogPut? && f.change.Enroll? ==> f.change.ref in w.catalog.entries
    ensures Inv(Notify(w, f)) && SameObjects(w, Notify(w, f))
  {
    AnsweredIsOk(w, w.workers[f.owner], f);
    ActFrame(w, f.owner, Answered(w.workers[f.owner], f), {}, Answers(f));
    assert w.flights + {} == w.flights;
  }

  lemma {:induction false} LaterIgnoresWorkers(w: World, a: World, b: World)
    requires Later(w, a) && SameObjects(a, b)
    ensures Later(w, b)
  {
    forall ref ensures SameDomain(w, b, ref) || (ref in b.heads && w.nextVersion <= b.heads[ref].version) {
      assert SameDomain(w, a, ref) || (ref in a.heads && w.nextVersion <= a.heads[ref].version);
      assert Hist(b, ref) == Hist(a, ref);
    }
    forall ref ensures Hist(w, ref) <= Hist(b, ref) { assert Hist(b, ref) == Hist(a, ref); }
  }

  lemma {:induction false} ArriveKeeps(w: World, f: Flight, answered: bool)
    requires Inv(w) && Enabled(w, Arrive(f, answered))
    ensures Inv(Next(w, Arrive(f, answered))) && Later(w, Next(w, Arrive(f, answered)))
  {
    var mid := if f.HeadPut? then ApplyHead(w, f) else ApplyCatalog(w, f);
    if f.HeadPut? {
      AppliedHeadKeeps(w, f);
      ApplyHeadLater(w, f);
      AnswerIsOk(w, f);
    } else {
      AppliedCatalogKeeps(w, f);
      assert Answers(f) == {};
    }
    if answered && Listening(w, f) {
      NotifyKeeps(mid, f);
      LaterIgnoresWorkers(w, mid, Notify(mid, f));
    }
  }

  lemma {:induction false} StepKeeps(w: World, ev: Event)
    requires Inv(w) && Enabled(w, ev)
    ensures Inv(Next(w, ev)) && Later(w, Next(w, ev))
  {
    match ev
    case Tick(to) => TickKeeps(w, to);
    case Act(id, action) => ActKeeps(w, id, action);
    case Arrive(f, answered) => ArriveKeeps(w, f, answered);
    case Drop(f) =>
      SameObjectsLater(w, Next(w, ev));
      Frame(w, Next(w, ev), {});
  }

  // -------------------------------------------------------------- theorems

  lemma {:induction false} InitialOk(w: World)
    requires Initial(w)
    ensures Inv(w)
  {
  }

  /** Every world of every run satisfies the invariant. */
  lemma {:induction false} RunKeeps(ws: seq<World>, evs: seq<Event>, n: nat)
    requires IsRun(ws, evs) && Initial(ws[0]) && n < |ws|
    ensures Inv(ws[n])
  {
    if n == 0 {
      InitialOk(ws[0]);
    } else {
      RunKeeps(ws, evs, n - 1);
      StepKeeps(ws[n - 1], evs[n - 1]);
    }
  }

  /** Applied mutations are never undone or reordered. */
  lemma {:induction false} HistoryGrows(ws: seq<World>, evs: seq<Event>, i: nat, j: nat, ref: Ref)
    requires IsRun(ws, evs) && Initial(ws[0]) && i <= j < |ws|
    ensures Hist(ws[i], ref) <= Hist(ws[j], ref)
    decreases j
  {
    if i < j {
      HistoryGrows(ws, evs, i, j - 1, ref);
      RunKeeps(ws, evs, j - 1);
      StepKeeps(ws[j - 1], evs[j - 1]);
      assert Hist(ws[j - 1], ref) <= Hist(ws[j], ref);
    }
  }

  /**
    * Every published head is the sequential run of the mutations applied so far: each
    * one was valid in the state just before it and wrote exactly its requests, the
    * revision counts them, and no identifier took effect twice.
    */
  lemma {:induction false} HeadsAreSequential(ws: seq<World>, evs: seq<Event>, n: nat, ref: Ref)
    requires IsRun(ws, evs) && Initial(ws[0]) && n < |ws| && ref in ws[n].heads
    ensures var h, hist := ws[n].heads[ref].head, Hist(ws[n], ref);
            && Values(h) == Run(hist) && h.revision == |hist| && Legal(hist) && UniqueIds(hist)
            && Run(hist[..0]) == map[]
            && forall i :: 0 <= i < |hist| ==> Wrote(Run(hist[..i]), Run(hist[..i + 1]), hist[i].m, hist[i].fingerprint)
  {
    hide Inv, Run, Wrote, Initial, IsRun;
    RunKeeps(ws, evs, n);
    var h, hist := ws[n].heads[ref].head, Hist(ws[n], ref);
    HeadIsLegal(ws[n], ref);
    ValuesAreRun(h, hist);
    RunOfNothing(hist);
    forall i | 0 <= i < |hist| ensures Wrote(Run(hist[..i]), Run(hist[..i + 1]), hist[i].m, hist[i].fingerprint) {
      RunWrites(hist, i);
    }
  }

  lemma {:induction false} HeadIsLegal(w: World, ref: Ref)
    requires Inv(w) && ref in w.heads
    ensures var h, hist := w.heads[ref].head, Hist(w, ref);
            Window(h, hist) && h.revision == |hist| && Legal(hist) && UniqueIds(hist)
  {
    hide Legal, UniqueIds, Run;
    assert HeadOk(w, ref);
  }

  lemma {:induction false} RunOfNothing(hist: seq<Record>)
    ensures Run(hist[..0]) == map[]
  {
  }

  /** Until it expires, the outcome of an applied mutation is what every replay finds. */
  lemma {:induction false} ReplayFindsOutcome(ws: seq<World>, evs: seq<Event>, n: nat, ref: Ref, i: nat)
    requires IsRun(ws, evs) && Initial(ws[0]) && n < |ws|
    requires i < |Hist(ws[n], ref)| && ws[n].clock < Hist(ws[n], ref)[i].m.retainUntil
    ensures ref in ws[n].heads
    ensures var r := Hist(ws[n], ref)[i];
            Recorded(ws[n].heads[ref].head, r.m.id, ws[n].clock)
            == Some(Outcome(r.m.id, r.fingerprint, i + 1, r.m.retainUntil, r.m.result))
  {
    RunKeeps(ws, evs, n);
    assert HeadOk(ws[n], ref);
    RecordedIsOutcome(ws[n].heads[ref].head, Hist(ws[n], ref), ws[n].clock, i, ws[n].clock);
  }

  lemma {:induction false} RepliesFromHistory(early: seq<Record>, late: seq<Record>, a: nat, b: nat)
    requires early <= late && UniqueIds(late) && a < |early| && b < |late| && early[a].m.id == late[b].m.id
    ensures OutcomeAt(early, a) == OutcomeAt(late, b)
  {
    assert late[a] == early[a];
    assert a == b;
  }

  lemma {:induction false} HistoryIsUnique(w: World, ref: Ref)
    requires Inv(w)
    ensures UniqueIds(Hist(w, ref))
  {
    if ref in w.heads { assert HeadOk(w, ref); }
  }

  /** A mutation whose write is answered is in the history, and its caller is told its own result. */
  lemma {:induction false} AnswerIsGiven(ws: seq<World>, evs: seq<Event>, n: nat, f: Flight)
    requires IsRun(ws, evs) && Initial(ws[0]) && n < |evs| && evs[n] == Arrive(f, true)
    requires f.HeadPut? && (f.write.Commit? || f.write.Fold?) && Listening(ws[n], f)
    ensures var m, hist := f.write.m, Hist(ws[n], f.ref);
            var intent := Intent(f.write.Fold?, m.requests, m.result);
            && Hist(ws[n + 1], f.ref) == hist + [Record(m, intent)]
            && Reply(f.ref, m.id, Outcome(m.id, intent, |hist| + 1, m.retainUntil, m.result)) in ws[n + 1].replies
  {
    hide Inv, Initial, Effect;
    RunKeeps(ws, evs, n);
    AnswerRevision(ws[n], f);
    var record := Records(f.write)[0];
    DeltaParts(record.m, record.fingerprint, |Hist(ws[n], f.ref)| + 1);
  }

  /** Every answer, first or replayed, is the outcome of an applied mutation with the asked identifier, result included. */
  lemma {:induction false} RepliesAreOutcomes(ws: seq<World>, evs: seq<Event>, n: nat, r: Reply)
    requires IsRun(ws, evs) && Initial(ws[0]) && n < |ws| && r in ws[n].replies
    ensures var hist := Hist(ws[n], r.ref);
            exists i :: 0 <= i < |hist| && hist[i].m.id == r.id
                        && r.outcome == Outcome(hist[i].m.id, hist[i].fingerprint, i + 1, hist[i].m.retainUntil, hist[i].m.result)
  {
    RunKeeps(ws, evs, n);
    assert ReplyOk(ws[n], r);
  }

  /**
    * A replica that holds the current head answers a mutation from its record exactly when
    * the record is of the same requests and result, and the answer is that result.
    */
  lemma {:induction false} ReplayedIff(ws: seq<World>, evs: seq<Event>, n: nat, id: WorkerId, m: Mutation, materialized: bool, i: nat)
    requires IsRun(ws, evs) && Initial(ws[0]) && n < |ws| && id in ws[n].workers
    requires ws[n].workers[id].io.HasHead? && ws[n].workers[id].io.ref in ws[n].heads
    requires var x := ws[n].workers[id].io; x.snap == Loaded(ws[n].heads[x.ref].version, ws[n].heads[x.ref].head)
    requires var hist := Hist(ws[n], ws[n].workers[id].io.ref);
             i < |hist| && hist[i].m.id == m.id && ws[n].clock < hist[i].m.retainUntil
    ensures var hist := Hist(ws[n], ws[n].workers[id].io.ref);
            && (Enabled(ws[n], Act(id, Replay(m, materialized))) <==>
                hist[i].m.requests == m.requests && hist[i].m.result == m.result && hist[i].fingerprint.materialized == materialized)
            && (Enabled(ws[n], Act(id, Replay(m, materialized))) ==>
                Reply(ws[n].workers[id].io.ref, m.id, Outcome(m.id, hist[i].fingerprint, i + 1, hist[i].m.retainUntil, m.result))
                in Next(ws[n], Act(id, Replay(m, materialized))).replies)
  {
    hide Inv, Initial, IsRun, Recorded, Legal;
    var ref := ws[n].workers[id].io.ref;
    ReplayFindsOutcome(ws, evs, n, ref, i);
    RunKeeps(ws, evs, n);
    HeadIsLegal(ws[n], ref);
    LegalBinds(Hist(ws[n], ref), i);
  }

  lemma {:induction false} LegalBinds(hist: seq<Record>, i: nat)
    requires Legal(hist) && i < |hist|
    ensures Binds(hist[i].fingerprint, hist[i].m)
  {
  }

  /** First answers and replays of one mutation, at any two points of a run, agree completely. */
  lemma {:induction false} RepliesAgree(ws: seq<World>, evs: seq<Event>, i: nat, j: nat, r: Reply, s: Reply)
    requires IsRun(ws, evs) && Initial(ws[0]) && i <= j < |ws|
    requires r in ws[i].replies && s in ws[j].replies && r.ref == s.ref && r.id == s.id
    ensures r.outcome == s.outcome && ReplyOk(ws[j], s)
  {
    RunKeeps(ws, evs, i);
    RunKeeps(ws, evs, j);
    HistoryGrows(ws, evs, i, j, r.ref);
    HistoryIsUnique(ws[j], r.ref);
    var early, late := Hist(ws[i], r.ref), Hist(ws[j], r.ref);
    assert ReplyOk(ws[i], r) && ReplyOk(ws[j], s);
    var a :| 0 <= a < |early| && early[a].m.id == r.id && r.outcome == OutcomeAt(early, a);
    var b :| 0 <= b < |late| && late[b].m.id == s.id && s.outcome == OutcomeAt(late, b);
    RepliesFromHistory(early, late, a, b);
  }

  /** A head that may hold values is named by the catalog; every other head is inert. */
  lemma {:induction false} RegisteredIsNamed(ws: seq<World>, evs: seq<Event>, n: nat, ref: Ref)
    requires IsRun(ws, evs) && Initial(ws[0]) && n < |ws| && ref in ws[n].heads && ref !in ws[n].catalog.entries
    ensures ws[n].heads[ref].head == INERT
  {
    RunKeeps(ws, evs, n);
    assert HeadOk(ws[n], ref);
  }
}
