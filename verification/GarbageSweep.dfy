/**
  * A checkpoint that is left alone runs to its end: the gate closes, the plan is recorded,
  * the garbage is deleted page by page, and the gate reopens at the next epoch. Exactly the
  * planned objects are gone.
  */
module GarbageSweep {
  import opened Basics
  import opened GarbageCollection

  // -------------------------------------------------------------------- runs

  ghost predicate Leads(w: World, evs: seq<Event>, w': World)
    decreases |evs|
  {
    if evs == [] then w' == w else Enabled(w, evs[0]) && Leads(Next(w, evs[0]), evs[1..], w')
  }

  lemma {:induction false} One(w: World, ev: Event)
    requires Enabled(w, ev)
    ensures Leads(w, [ev], Next(w, ev))
  {
    assert [ev][1..] == [];
  }

  lemma {:induction false} Join(w: World, a: seq<Event>, w1: World, b: seq<Event>, w2: World)
    requires Leads(w, a, w1) && Leads(w1, b, w2)
    ensures Leads(w, a + b, w2)
    decreases |a|
  {
    if a == [] {
      assert a + b == b;
    } else {
      Join(Next(w, a[0]), a[1..], w1, b, w2);
      assert (a + b)[0] == a[0] && (a + b)[1..] == a[1..] + b;
    }
  }

  /** Nothing durable differs, and no other worker's job. */
  ghost predicate SameBut(w: World, w': World, x: WorkerId) {
    && w'.gate == w.gate && w'.plans == w.plans && x in w'.jobs
    && (forall y :: y in w'.jobs && y != x ==> y in w.jobs && w'.jobs[y] == w.jobs[y])
    && (forall y :: y in w.jobs ==> y in w'.jobs)
  }

  // ------------------------------------------------------------------ listing

  /** What a listing of the keys finds. */
  function Found(objects: map<Key, nat>, ks: set<Key>): map<Key, nat> {
    map k | k in ks && k in objects :: objects[k]
  }

  function Relooked(job: Job, looked: set<Key>, versions: map<Key, nat>): Job
    requires job.Building? || job.Listing?
  {
    if job.Building? then Building(job.id, job.epoch, looked, versions) else Listing(job.id, job.page, job.session, looked, versions)
  }

  ghost predicate MayLook(w: World, x: WorkerId, ks: set<Key>) {
    && x in w.jobs && (w.jobs[x].Building? || w.jobs[x].Listing?)
    && w.jobs[x].versions == Found(w.objects, w.jobs[x].looked)
    && (w.jobs[x].Listing? && w.jobs[x].id in w.plans && w.jobs[x].page < |w.plans[w.jobs[x].id].pages| ==>
          ks <= w.plans[w.jobs[x].id].pages[w.jobs[x].page])
  }

  /** Listing some keys one after the other finds their current versions. */
  lemma {:induction false} LookAll(w: World, x: WorkerId, ks: set<Key>) returns (evs: seq<Event>, w': World)
    requires MayLook(w, x, ks)
    ensures Leads(w, evs, w') && SameBut(w, w', x) && w'.objects == w.objects && w'.sessions == w.sessions && w'.flights == w.flights
    ensures w'.jobs[x] == Relooked(w.jobs[x], w.jobs[x].looked + ks, Found(w.objects, w.jobs[x].looked + ks))
    decreases |ks|
  {
    hide Leads, Current;
    if ks == {} {
      evs, w' := [], w;
      Stay(w);
      assert w.jobs[x].looked + ks == w.jobs[x].looked;
    } else {
      var k :| k in ks;
      LookOne(w, x, k);
      var w1 := Next(w, Look(x, k));
      One(w, Look(x, k));
      hide Enabled, Next;
      var rest;
      rest, w' := LookAll(w1, x, ks - {k});
      Join(w, [Look(x, k)], w1, rest, w');
      evs := [Look(x, k)] + rest;
      assert (w.jobs[x].looked + {k}) + (ks - {k}) == w.jobs[x].looked + ks;
    }
  }

  lemma {:induction false} Stay(w: World)
    ensures Leads(w, [], w)
  {
  }

  lemma {:induction false} LookOne(w: World, x: WorkerId, k: Key)
    requires MayLook(w, x, {k})
    ensures Enabled(w, Look(x, k))
    ensures var w' := Next(w, Look(x, k));
            && SameBut(w, w', x) && w'.objects == w.objects && w'.sessions == w.sessions && w'.flights == w.flights
            && w'.jobs[x] == Relooked(w.jobs[x], w.jobs[x].looked + {k}, Found(w.objects, w.jobs[x].looked + {k}))
  {
    hide Current;
    var before, after := Found(w.objects, w.jobs[x].looked), Found(w.objects, w.jobs[x].looked + {k});
    assert after == if k in w.objects then before[k := w.objects[k]] else before - {k};
  }

  // ----------------------------------------------------------------- deleting

  /** Deletes under way for this worker, each of an object as it is. */
  ghost predicate UnderWay(w: World, x: WorkerId) {
    && x in w.jobs && w.jobs[x].Deleting?
    && (forall d :: d in w.jobs[x].pending ==> (x, d) in w.flights && d.key in w.objects && w.objects[d.key] == d.version)
    && (forall d, e :: d in w.jobs[x].pending && e in w.jobs[x].pending && d.key == e.key ==> d == e)
  }

  function KeysOf(ds: set<Deletion>): set<Key> {
    set d | d in ds :: d.key
  }

  /** Answered deletes remove exactly their objects. */
  lemma {:induction false} DeleteAll(w: World, x: WorkerId) returns (evs: seq<Event>, w': World)
    requires UnderWay(w, x)
    ensures Leads(w, evs, w') && SameBut(w, w', x) && w'.sessions == w.sessions
    ensures w'.objects == w.objects - KeysOf(w.jobs[x].pending) && w'.jobs[x] == w.jobs[x].(pending := {})
    decreases |w.jobs[x].pending|
  {
    hide Leads, Current;
    var ds := w.jobs[x].pending;
    if ds == {} {
      evs, w' := [], w;
      Stay(w);
    } else {
      var d :| d in ds;
      var ev := Arrive(x, d, true);
      DeleteOne(w, x, d);
      One(w, ev);
      var w1 := Next(w, ev);
      hide Enabled, Next;
      var rest;
      rest, w' := DeleteAll(w1, x);
      Join(w, [ev], w1, rest, w');
      evs := [ev] + rest;
      assert (w.objects - {d.key}) - KeysOf(ds - {d}) == w.objects - KeysOf(ds);
    }
  }

  lemma {:induction false} DeleteOne(w: World, x: WorkerId, d: Deletion)
    requires UnderWay(w, x) && d in w.jobs[x].pending
    ensures Enabled(w, Arrive(x, d, true))
    ensures var w' := Next(w, Arrive(x, d, true));
            && SameBut(w, w', x) && w'.sessions == w.sessions && UnderWay(w', x)
            && w'.objects == w.objects - {d.key} && w'.jobs[x] == w.jobs[x].(pending := w.jobs[x].pending - {d})
  {
    hide Current;
  }

  // ---------------------------------------------------------------- one page

  /** The worker holds the progress record that is current, or there is none. */
  ghost predicate Holds(w: World, id: Id, session: Option<nat>) {
    if session.None? then id !in w.sessions else id in w.sessions && w.sessions[id].version == session.value
  }

  ghost predicate AtPage(w: World, x: WorkerId, id: Id, page: nat) {
    && x in w.jobs && ClosedFor(w, id) && page < |w.plans[id].pages|
    && w.jobs[x].Listing? && w.jobs[x].id == id && w.jobs[x].page == page && Holds(w, id, w.jobs[x].session)
  }

  /** After a page: it is gone, and the record says so. */
  ghost predicate PageDone(w: World, w': World, x: WorkerId, id: Id, page: nat) {
    && SameBut(w, w', x) && id in w.plans && page < |w.plans[id].pages| && w'.objects == w.objects - w.plans[id].pages[page]
    && id in w'.sessions && w'.sessions[id].index == page + 1
    && w'.jobs[x] == Advance(w.plans[id], id, page + 1, Some(w'.sessions[id].version))
  }

  lemma {:induction false} SweepPage(w: World, x: WorkerId, id: Id, page: nat) returns (evs: seq<Event>, w': World)
    requires AtPage(w, x, id, page) && w.jobs[x].looked == w.plans[id].pages[page]
    requires w.jobs[x].versions == Found(w.objects, w.plans[id].pages[page])
    ensures Leads(w, evs, w') && PageDone(w, w', x, id, page)
  {
    hide Leads, Current, Advance;
    CheckSends(w, x, id, page);
    One(w, Check(x));
    var w1 := Next(w, Check(x));
    var a, w2 := DeleteAll(w1, x);
    PublishRecords(w2, x);
    One(w2, Publish(x, true));
    w' := Next(w2, Publish(x, true));
    hide Enabled, Next;
    Join(w, [Check(x)], w1, a, w2);
    Join(w, [Check(x)] + a, w2, [Publish(x, true)], w');
    evs := [Check(x)] + a + [Publish(x, true)];
    var keys := KeysOf(w1.jobs[x].pending);
    assert w.objects - keys == w.objects - w.plans[id].pages[page];
  }

  lemma {:induction false} CheckSends(w: World, x: WorkerId, id: Id, page: nat)
    requires AtPage(w, x, id, page) && w.jobs[x].looked == w.plans[id].pages[page]
    requires w.jobs[x].versions == Found(w.objects, w.plans[id].pages[page])
    ensures Enabled(w, Check(x))
    ensures var w', ks := Next(w, Check(x)), w.plans[id].pages[page];
            && SameBut(w, w', x) && w'.objects == w.objects && w'.sessions == w.sessions && UnderWay(w', x)
            && w'.jobs[x].id == id && w'.jobs[x].page == page && w'.jobs[x].session == w.jobs[x].session
            && forall k :: k in KeysOf(w'.jobs[x].pending) <==> k in ks && k in w.objects
  {
    hide Current;
    var w', versions := Next(w, Check(x)), w.jobs[x].versions;
    forall k ensures k in KeysOf(w'.jobs[x].pending) <==> k in versions {
      if k in versions { assert Deletion(id, w.plans[id].epoch, k, versions[k]) in w'.jobs[x].pending; }
    }
  }

  lemma {:induction false} PublishRecords(w: World, x: WorkerId)
    requires x in w.jobs && w.jobs[x].Deleting? && w.jobs[x].pending == {} && w.jobs[x].id in w.plans
    requires Holds(w, w.jobs[x].id, w.jobs[x].session)
    ensures Enabled(w, Publish(x, true))
    ensures var w', id := Next(w, Publish(x, true)), w.jobs[x].id;
            && SameBut(w, w', x) && w'.objects == w.objects
            && id in w'.sessions && w'.sessions[id].index == w.jobs[x].page + 1
            && w'.jobs[x] == Advance(w.plans[id], id, w.jobs[x].page + 1, Some(w'.sessions[id].version))
  {
    hide Current, Advance;
  }

  // ---------------------------------------------------------------- all pages

  function From(pages: seq<set<Key>>, page: nat): set<Key>
    requires page <= |pages|
    decreases |pages| - page
  {
    if page == |pages| then {} else pages[page] + From(pages, page + 1)
  }

  lemma {:induction false} FromIs(pages: seq<set<Key>>, page: nat, k: Key)
    requires page <= |pages|
    ensures k in From(pages, page) <==> exists i :: page <= i < |pages| && k in pages[i]
    decreases |pages| - page
  {
    if page < |pages| { FromIs(pages, page + 1, k); }
  }

  /** Where every page from here on is gone and recorded. */
  ghost predicate Swept(w: World, w': World, x: WorkerId, id: Id, page: nat) {
    && SameBut(w, w', x) && id in w.plans && page <= |w.plans[id].pages|
    && w'.objects == w.objects - From(w.plans[id].pages, page) && w'.jobs[x] == Done(id)
  }

  ghost predicate Ready(w: World, x: WorkerId, id: Id, page: nat, session: Option<nat>) {
    && x in w.jobs && ClosedFor(w, id) && page <= |w.plans[id].pages| && Holds(w, id, session)
    && w.jobs[x] == Advance(w.plans[id], id, page, session)
  }

  lemma {:induction false} SweepFrom(w: World, x: WorkerId, id: Id, page: nat, session: Option<nat>) returns (evs: seq<Event>, w': World)
    requires Ready(w, x, id, page, session)
    ensures Leads(w, evs, w') && Swept(w, w', x, id, page)
    decreases |w.plans[id].pages| - page, 0
  {
    hide Leads, Found;
    if page == |w.plans[id].pages| {
      evs, w' := [], w;
      Stay(w);
    } else {
      ReadyLooks(w, x, id, page, session);
      var a, w1 := LookAll(w, x, w.plans[id].pages[page]);
      LookedIsAtPage(w, w1, x, id, page, session);
      var b, w2 := SweepPage(w1, x, id, page);
      Join(w, a, w1, b, w2);
      var c;
      c, w' := SweepRest(w1, w2, x, id, page);
      Join(w, a + b, w2, c, w');
      evs := a + b + c;
      assert (w.objects - w.plans[id].pages[page]) - From(w.plans[id].pages, page + 1) == w.objects - From(w.plans[id].pages, page);
    }
  }

  lemma {:induction false} ReadyLooks(w: World, x: WorkerId, id: Id, page: nat, session: Option<nat>)
    requires Ready(w, x, id, page, session) && page < |w.plans[id].pages|
    ensures MayLook(w, x, w.plans[id].pages[page]) && w.jobs[x].looked == {}
  {
    assert Found(w.objects, {}) == map[];
  }

  lemma {:induction false} LookedIsAtPage(w: World, w1: World, x: WorkerId, id: Id, page: nat, session: Option<nat>)
    requires Ready(w, x, id, page, session) && page < |w.plans[id].pages| && SameBut(w, w1, x)
    requires w1.sessions == w.sessions && w1.objects == w.objects
    requires var ks := w.plans[id].pages[page]; w1.jobs[x] == Relooked(w.jobs[x], {} + ks, Found(w.objects, {} + ks))
    ensures AtPage(w1, x, id, page) && w1.jobs[x].looked == w1.plans[id].pages[page]
    ensures w1.jobs[x].versions == Found(w1.objects, w1.plans[id].pages[page])
  {
    hide Found;
    assert {} + w.plans[id].pages[page] == w.plans[id].pages[page];
  }

  lemma {:induction false} SweepRest(w1: World, w2: World, x: WorkerId, id: Id, page: nat) returns (evs: seq<Event>, w': World)
    requires PageDone(w1, w2, x, id, page) && ClosedFor(w1, id)
    ensures Leads(w2, evs, w') && Swept(w2, w', x, id, page + 1)
    decreases |w1.plans[id].pages| - page - 1, 1
  {
    evs, w' := SweepFrom(w2, x, id, page + 1, Some(w2.sessions[id].version));
  }

  // ----------------------------------------------------------- the checkpoint

  /** The gate is closed for the checkpoint and its plan recorded; the worker is ready for the first page, or for all. */
  lemma {:induction false} CloseAndPlan(w: World, x: WorkerId, id: Id, inventory: set<Key>, pages: seq<set<Key>>)
    returns (evs: seq<Event>, w': World)
    requires w.gate.mode == Open && id !in w.plans && id !in w.sessions && x in w.jobs && w.jobs[x] == Idle
    requires 0 < |pages| && Disjoint(inventory, pages)
    ensures Leads(w, evs, w') && w'.gate == Gate(Closed, w.gate.epoch, id) && w'.objects == w.objects && w'.sessions == w.sessions
    ensures w'.plans == w.plans[id := Plan(w.gate.epoch, inventory, pages)] && x in w'.jobs
    ensures if |pages| == 1 then w'.jobs[x] == Listing(id, 0, None, pages[0], Found(w.objects, pages[0])) else w'.jobs[x] == Idle
    ensures forall y :: y in w.jobs && y != x ==> y in w'.jobs && w'.jobs[y] == w.jobs[y]
  {
    hide Leads, Current, Found;
    CloseAlone(w, x, id);
    var w1 := Next(w, BeginClose(id));
    var w2 := Next(w1, FinishClose);
    var w3 := Next(w2, Build(x));
    One(w, BeginClose(id));
    One(w1, FinishClose);
    One(w2, Build(x));
    Join(w, [BeginClose(id)], w1, [FinishClose], w2);
    Join(w, [BeginClose(id)] + [FinishClose], w2, [Build(x)], w3);
    var first := [BeginClose(id)] + [FinishClose] + [Build(x)];
    BuildsFromNothing(w3, x);
    var looks, w4 := LookAll(w3, x, From(pages, 0));
    Join(w, first, w3, looks, w4);
    var ev := Record(x, inventory, pages);
    RecordAlone(w3, w4, x, id, inventory, pages);
    One(w4, ev);
    w' := Next(w4, ev);
    Join(w, first + looks, w4, [ev], w');
    evs := first + looks + [ev];
  }

  lemma {:induction false} CloseAlone(w: World, x: WorkerId, id: Id)
    requires w.gate.mode == Open && id !in w.plans && x in w.jobs && w.jobs[x] == Idle
    ensures Enabled(w, BeginClose(id)) && Enabled(Next(w, BeginClose(id)), FinishClose)
    ensures Enabled(Next(Next(w, BeginClose(id)), FinishClose), Build(x))
    ensures var w' := Next(Next(Next(w, BeginClose(id)), FinishClose), Build(x));
            && w'.gate == Gate(Closed, w.gate.epoch, id) && w'.objects == w.objects && w'.sessions == w.sessions && w'.plans == w.plans
            && x in w'.jobs && w'.jobs == w.jobs[x := Building(id, w.gate.epoch, {}, map[])]
  {
    hide Current;
  }

  lemma {:induction false} BuildsFromNothing(w: World, x: WorkerId)
    requires x in w.jobs && w.jobs[x].Building? && w.jobs[x].looked == {} && w.jobs[x].versions == map[]
    ensures forall ks :: MayLook(w, x, ks)
  {
    assert Found(w.objects, {}) == map[];
  }

  lemma {:induction false} RecordAlone(w: World, w1: World, x: WorkerId, id: Id, inventory: set<Key>, pages: seq<set<Key>>)
    requires id !in w.plans && x in w.jobs && w.jobs[x] == Building(id, w.gate.epoch, {}, map[]) && SameBut(w, w1, x)
    requires w1.objects == w.objects && 0 < |pages| && Disjoint(inventory, pages)
    requires w1.jobs[x] == Relooked(w.jobs[x], {} + From(pages, 0), Found(w.objects, {} + From(pages, 0)))
    ensures Enabled(w1, Record(x, inventory, pages))
    ensures var w' := Next(w1, Record(x, inventory, pages));
            && w'.gate == w1.gate && w'.objects == w1.objects && w'.sessions == w1.sessions
            && x in w'.jobs && w'.jobs == w1.jobs[x := w'.jobs[x]]
            && w'.plans == w1.plans[id := Plan(w.gate.epoch, inventory, pages)]
            && if |pages| == 1 then w'.jobs[x] == Listing(id, 0, None, pages[0], Found(w.objects, pages[0])) else w'.jobs[x] == Idle
  {
    hide Current, Disjoint, From;
    forall i, k | 0 <= i < |pages| && k in pages[i] ensures k in From(pages, 0) { FromIs(pages, 0, k); }
    var versions := w1.jobs[x].versions;
    assert (map k | k in versions && k in pages[0] :: versions[k]) == Found(w.objects, pages[0]);
  }

  /**
    * A checkpoint left alone: the gate is open again at the next epoch, the plan is recorded,
    * every planned object is gone and every other object is as it was.
    */
  lemma {:induction false} CheckpointAlone(w: World, x: WorkerId, id: Id, inventory: set<Key>, pages: seq<set<Key>>)
    returns (evs: seq<Event>, w': World)
    requires w.gate.mode == Open && id !in w.plans && id !in w.sessions && x in w.jobs && w.jobs[x] == Idle
    requires 0 < |pages| && Disjoint(inventory, pages)
    ensures Leads(w, evs, w') && w'.gate == Gate(Open, w.gate.epoch + 1, 0)
    ensures w'.plans == w.plans[id := Plan(w.gate.epoch, inventory, pages)]
    ensures forall k :: (k in w'.objects <==> k in w.objects && !(exists i :: 0 <= i < |pages| && k in pages[i]))
                        && (k in w'.objects ==> w'.objects[k] == w.objects[k])
  {
    hide Leads, Found, Disjoint, Enabled, Next;
    var a, w1 := CloseAndPlan(w, x, id, inventory, pages);
    var b, w2 := SweepPlanned(w1, x, id);
    Join(w, a, w1, b, w2);
    ReopenAlone(w2, x, id);
    One(w2, Reopen(x));
    w' := Next(w2, Reopen(x));
    Join(w, a + b, w2, [Reopen(x)], w');
    evs := a + b + [Reopen(x)];
    forall k ensures k in From(pages, 0) <==> exists i :: 0 <= i < |pages| && k in pages[i] { FromIs(pages, 0, k); }
  }

  lemma {:induction false} ReopenAlone(w: World, x: WorkerId, id: Id)
    requires x in w.jobs && w.jobs[x] == Done(id) && w.gate.mode == Closed && w.gate.checkpoint == id
    ensures Enabled(w, Reopen(x))
    ensures var w' := Next(w, Reopen(x)); w'.gate == Gate(Open, w.gate.epoch + 1, 0) && w'.objects == w.objects && w'.plans == w.plans
  {
    hide Current;
  }

  lemma {:induction false} SweepPlanned(w: World, x: WorkerId, id: Id) returns (evs: seq<Event>, w': World)
    requires x in w.jobs && ClosedFor(w, id) && id !in w.sessions && 0 < |w.plans[id].pages|
    requires w.jobs[x] == Idle || w.jobs[x] == Listing(id, 0, None, w.plans[id].pages[0], Found(w.objects, w.plans[id].pages[0]))
    ensures Leads(w, evs, w') && Swept(w, w', x, id, 0)
  {
    hide Leads, Found;
    if w.jobs[x] == Idle {
      var ev := Begin(x, id);
      BeginAlone(w, x, id);
      One(w, ev);
      var w1 := Next(w, ev);
      var rest;
      rest, w' := SweepFrom(w1, x, id, 0, None);
      Join(w, [ev], w1, rest, w');
      evs := [ev] + rest;
    } else {
      var a, w1 := SweepPage(w, x, id, 0);
      var b;
      b, w' := SweepRest(w, w1, x, id, 0);
      Join(w, a, w1, b, w');
      evs := a + b;
      assert (w.objects - w.plans[id].pages[0]) - From(w.plans[id].pages, 1) == w.objects - From(w.plans[id].pages, 0);
    }
  }

  lemma {:induction false} BeginAlone(w: World, x: WorkerId, id: Id)
    requires x in w.jobs && w.jobs[x] == Idle && ClosedFor(w, id) && id !in w.sessions
    ensures Enabled(w, Begin(x, id))
    ensures var w' := Next(w, Begin(x, id)); SameBut(w, w', x) && w'.objects == w.objects && Ready(w', x, id, 0, None)
  {
    hide Current;
  }
}
