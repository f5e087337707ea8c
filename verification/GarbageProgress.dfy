/**
  * The progress record of a collection: which worker may replace it, what it says, and that it
  * can move back when a worker adopts a record that is ahead of it.
  */
module GarbageProgress {
  import opened Basics
  import opened GarbageCollection
  import opened GarbageSweep

  /** Versions of records are in the past. */
  ghost predicate Past(w: World) {
    forall id :: id in w.sessions ==> w.sessions[id].version < w.nextVersion
  }

  /**
    * One step: a record is created by a worker that found none, or replaced by the worker that
    * holds it, one page after the page that the worker finished, under a fresh version.
    */
  lemma {:induction false} StepRecords(w: World, ev: Event, id: Id)
    requires Enabled(w, ev)
    ensures var w' := Next(w, ev);
            && w.nextVersion <= w'.nextVersion
            && (id in w.sessions ==> id in w'.sessions)
            && (id in w'.sessions && !(id in w.sessions && w'.sessions[id] == w.sessions[id]) ==>
                  && ev.Publish? && w.jobs[ev.w].id == id && Holds(w, id, w.jobs[ev.w].session)
                  && w'.sessions[id] == Session(w.nextVersion, w.jobs[ev.w].page + 1) && w.nextVersion < w'.nextVersion)
  {
    hide Enabled, Next;
    if ev.Publish? { PublishWrites(w, ev.w, ev.answered); } else { OthersWriteNone(w, ev); }
  }

  lemma {:induction false} OthersWriteNone(w: World, ev: Event)
    requires Enabled(w, ev) && !ev.Publish?
    ensures Next(w, ev).sessions == w.sessions && w.nextVersion <= Next(w, ev).nextVersion
  {
    hide Current, Disjoint, Advance, Published, Started, Looked, ClosedFor;
    var w' := Step(w, ev);
    assert w'.sessions == w.sessions && w.nextVersion <= w'.nextVersion;
  }

  lemma {:induction false} PublishWrites(w: World, x: WorkerId, answered: bool)
    requires Enabled(w, Publish(x, answered))
    ensures var w', job := Next(w, Publish(x, answered)), w.jobs[x];
            || (w'.sessions == w.sessions && w'.nextVersion == w.nextVersion)
            || (&& job.Deleting? && Holds(w, job.id, job.session) && w'.nextVersion == w.nextVersion + 1
                && w'.sessions == w.sessions[job.id := Session(w.nextVersion, job.page + 1)])
  {
    hide Current, Advance;
  }

  lemma {:induction false} RecordsArePast(ws: seq<World>, evs: seq<Event>, n: nat)
    requires IsRun(ws, evs) && n < |ws|
    ensures Past(ws[n])
  {
    hide Enabled, Next;
    if 0 < n {
      RecordsArePast(ws, evs, n - 1);
      forall id | id in ws[n].sessions ensures ws[n].sessions[id].version < ws[n].nextVersion {
        StepRecords(ws[n - 1], evs[n - 1], id);
      }
    }
  }

  /** A version names one record for good: two records of one version are the same, so no replacement goes unseen. */
  lemma {:induction false} VersionNamesRecord(ws: seq<World>, evs: seq<Event>, i: nat, j: nat, id: Id)
    requires IsRun(ws, evs) && i <= j < |ws| && id in ws[i].sessions
    ensures id in ws[j].sessions && ws[i].nextVersion <= ws[j].nextVersion
    ensures ws[j].sessions[id] == ws[i].sessions[id] || ws[i].nextVersion <= ws[j].sessions[id].version
    ensures ws[j].sessions[id].version == ws[i].sessions[id].version ==> ws[j].sessions[id] == ws[i].sessions[id]
    decreases j
  {
    hide Enabled, Next;
    RecordsArePast(ws, evs, i);
    if i < j {
      VersionNamesRecord(ws, evs, i, j - 1, id);
      StepRecords(ws[j - 1], evs[j - 1], id);
    }
  }

  /** A record moves back exactly when its holder finished a page that the record already covers. */
  lemma {:induction false} MovesBackIff(w: World, x: WorkerId, answered: bool)
    requires Enabled(w, Publish(x, answered)) && w.jobs[x].id in w.sessions && Holds(w, w.jobs[x].id, w.jobs[x].session)
    ensures var w', id := Next(w, Publish(x, answered)), w.jobs[x].id;
            id in w'.sessions && (w'.sessions[id].index < w.sessions[id].index <==> w.jobs[x].page + 1 < w.sessions[id].index)
  {
    hide Current, Advance;
  }

  // ------------------------------------------------------------ a run moves back

  /** The worker has begun at the first page, before there was a record. */
  ghost predicate Behind(w: World, y: WorkerId, id: Id) {
    y in w.jobs && w.jobs[y] == Listing(id, 0, None, {}, map[])
  }

  lemma {:induction false} BeginBehind(w: World, y: WorkerId, id: Id)
    requires y in w.jobs && w.jobs[y] == Idle && ClosedFor(w, id) && id !in w.sessions && 0 < |w.plans[id].pages|
    ensures Enabled(w, Begin(y, id))
    ensures var w' := Next(w, Begin(y, id)); SameBut(w, w', y) && w'.sessions == w.sessions && Behind(w', y, id)
  {
    hide Current;
  }

  /** The late worker finishes the first page and adopts the record that it finds. */
  lemma {:induction false} Adopts(w: World, y: WorkerId, id: Id) returns (evs: seq<Event>, w': World)
    requires Behind(w, y, id) && ClosedFor(w, id) && 1 < |w.plans[id].pages| && id in w.sessions && 1 <= w.sessions[id].index
    ensures Leads(w, evs, w') && SameBut(w, w', y) && w'.sessions == w.sessions
    ensures w'.jobs[y] == Listing(id, 1, Some(w.sessions[id].version), {}, map[])
  {
    hide Leads, Current, Found;
    var ks := w.plans[id].pages[0];
    assert MayLook(w, y, ks) by { NothingFound(w.objects); }
    var a, w1 := LookAll(w, y, ks);
    assert {} + ks == ks;
    CheckLate(w1, y, id);
    One(w1, Check(y));
    var w2 := Next(w1, Check(y));
    var b, w3 := DeleteAll(w2, y);
    AdoptsRecord(w3, y);
    One(w3, Publish(y, true));
    w' := Next(w3, Publish(y, true));
    hide Enabled, Next;
    Join(w, a, w1, [Check(y)], w2);
    Join(w, a + [Check(y)], w2, b, w3);
    Join(w, a + [Check(y)] + b, w3, [Publish(y, true)], w');
    evs := a + [Check(y)] + b + [Publish(y, true)];
  }

  lemma {:induction false} NothingFound(objects: map<Key, nat>)
    ensures Found(objects, {}) == map[]
  {
  }

  lemma {:induction false} CheckLate(w: World, y: WorkerId, id: Id)
    requires y in w.jobs && ClosedFor(w, id) && 1 < |w.plans[id].pages|
    requires w.jobs[y] == Listing(id, 0, None, w.plans[id].pages[0], Found(w.objects, w.plans[id].pages[0]))
    ensures Enabled(w, Check(y))
    ensures var w' := Next(w, Check(y));
            SameBut(w, w', y) && w'.sessions == w.sessions && UnderWay(w', y)
            && w'.jobs[y].id == id && w'.jobs[y].page == 0 && w'.jobs[y].session == None
  {
    hide Current;
  }

  lemma {:induction false} AdoptsRecord(w: World, y: WorkerId)
    requires y in w.jobs && w.jobs[y].Deleting? && w.jobs[y].pending == {} && w.jobs[y].page == 0 && w.jobs[y].session == None
    requires var id := w.jobs[y].id; id in w.plans && 1 < |w.plans[id].pages| && id in w.sessions && 1 <= w.sessions[id].index
    ensures Enabled(w, Publish(y, true))
    ensures var w', id := Next(w, Publish(y, true)), w.jobs[y].id;
            SameBut(w, w', y) && w'.sessions == w.sessions
            && w'.jobs[y] == Listing(id, 1, Some(w.sessions[id].version), {}, map[])
  {
    hide Current;
  }

  /**
    * Progress is not monotone: one worker begins before there is a record, another sweeps all
    * three pages and records it, and then the first adopts that record and puts an earlier
    * page in its place. Everything recorded is still true, since the pages are gone.
    */
  lemma {:induction false} ProgressMovesBack(w: World, x: WorkerId, y: WorkerId, id: Id, inventory: set<Key>, pages: seq<set<Key>>)
    returns (a: seq<Event>, w1: World, b: seq<Event>, w2: World)
    requires w.gate.mode == Open && id !in w.plans && id !in w.sessions && x != y
    requires x in w.jobs && w.jobs[x] == Idle && y in w.jobs && w.jobs[y] == Idle
    requires |pages| == 3 && Disjoint(inventory, pages)
    ensures Leads(w, a, w1) && id in w1.sessions && w1.sessions[id].index == 3
    ensures Leads(w1, b, w2) && id in w2.sessions && w2.sessions[id].index == 2
  {
    hide Leads, Found, Disjoint, Enabled, Next;
    var c, v1 := CloseAndPlan(w, x, id, inventory, pages);
    BeginBehind(v1, y, id);
    One(v1, Begin(y, id));
    var v2 := Next(v1, Begin(y, id));
    Join(w, c, v1, [Begin(y, id)], v2);
    var d;
    d, w1 := SweepThree(v2, x, id);
    Join(w, c + [Begin(y, id)], v2, d, w1);
    a := c + [Begin(y, id)] + d;
    assert Behind(w1, y, id);
    var e, v3 := Adopts(w1, y, id);
    assert MayLook(v3, y, pages[1]) by { NothingFound(v3.objects); }
    var looks, v4 := LookAll(v3, y, pages[1]);
    assert {} + pages[1] == pages[1];
    var f;
    f, w2 := SweepPage(v4, y, id, 1);
    Join(w1, e, v3, looks, v4);
    Join(w1, e + looks, v4, f, w2);
    b := e + looks + f;
  }

  lemma {:induction false} SweepThree(w: World, x: WorkerId, id: Id) returns (evs: seq<Event>, w': World)
    requires x in w.jobs && w.jobs[x] == Idle && ClosedFor(w, id) && id !in w.sessions && |w.plans[id].pages| == 3
    ensures Leads(w, evs, w') && SameBut(w, w', x) && id in w'.sessions && w'.sessions[id].index == 3
  {
    hide Leads, Found, Enabled, Next;
    BeginAlone(w, x, id);
    One(w, Begin(x, id));
    var w0 := Next(w, Begin(x, id));
    evs := [Begin(x, id)];
    var a, w1 := NextPage(w0, x, id, 0, None);
    Join(w, evs, w0, a, w1);
    var b, w2 := NextPage(w1, x, id, 1, Some(w1.sessions[id].version));
    Join(w, evs + a, w1, b, w2);
    var c;
    c, w' := NextPage(w2, x, id, 2, Some(w2.sessions[id].version));
    Join(w, evs + a + b, w2, c, w');
    evs := evs + a + b + c;
  }

  lemma {:induction false} NextPage(w: World, x: WorkerId, id: Id, page: nat, session: Option<nat>) returns (evs: seq<Event>, w': World)
    requires Ready(w, x, id, page, session) && page < |w.plans[id].pages|
    ensures Leads(w, evs, w') && PageDone(w, w', x, id, page) && Ready(w', x, id, page + 1, Some(w'.sessions[id].version))
  {
    hide Leads, Found;
    ReadyLooks(w, x, id, page, session);
    var a, w1 := LookAll(w, x, w.plans[id].pages[page]);
    LookedIsAtPage(w, w1, x, id, page, session);
    var b;
    b, w' := SweepPage(w1, x, id, page);
    Join(w, a, w1, b, w');
    evs := a + b;
  }
}
