/**
  * The plan builder meets the protocol: the pages that are prepared, stored and
  * validated are exactly what a worker may record for its checkpoint, so the objects
  * that collection deletes are those that the walk did not reach.
  */
module GarbageBridge {
  import opened Basics
  import opened PageGroups
  import P = GarbagePlan
  import C = GarbageCollection
  import S = GarbageSafety

  /** One name space for both backends: the identity of an entry. */
  function Name(e: P.Entry): Key {
    2 * e.key + if e.file then 1 else 0
  }

  lemma {:induction false} NamesAreDistinct(a: P.Entry, b: P.Entry)
    requires Name(a) == Name(b)
    ensures a == b
  {
  }

  function Names(es: seq<P.Entry>): set<Key> {
    set e | e in es :: Name(e)
  }

  function PageNames(pages: seq<seq<P.Entry>>): seq<set<Key>> {
    seq(|pages|, i requires 0 <= i < |pages| => Names(pages[i]))
  }

  /** What the checkpoint reaches. */
  function Inventory(reachable: set<P.Entry>): set<Key> {
    set e | e in reachable :: Name(e)
  }

  lemma {:induction false} InFlattened(pages: seq<seq<P.Entry>>, e: P.Entry)
    ensures e in Flatten(pages) <==> exists i :: 0 <= i < |pages| && e in pages[i]
  {
    if pages != [] {
      InFlattened(pages[1..], e);
      if i :| 0 <= i < |pages| && e in pages[i] {
        if 0 < i { assert e in pages[1..][i - 1]; }
      }
      if i :| 0 <= i < |pages[1..]| && e in pages[1..][i] { assert e in pages[i + 1]; }
    }
  }

  /** The planned names are exactly the listed, eligible and unreachable objects, page by page. */
  lemma {:induction false} PlannedIsGarbage(es: seq<P.Entry>, n: Key)
    ensures (exists i :: 0 <= i < |P.Cut(es)| && n in PageNames(P.Cut(es))[i]) <==> n in Names(es)
  {
    P.CutFlattens(es);
    var pages := P.Cut(es);
    if i :| 0 <= i < |pages| && n in PageNames(pages)[i] {
      var e :| e in pages[i] && Name(e) == n;
      InFlattened(pages, e);
    }
    if n in Names(es) {
      var e :| e in es && Name(e) == n;
      InFlattened(pages, e);
      var i :| 0 <= i < |pages| && e in pages[i];
      assert n in PageNames(pages)[i];
    }
  }

  /** The pages of a plan avoid the inventory and name listed objects only. */
  lemma {:induction false} PlanAvoidsInventory(state: seq<Key>, file: seq<Key>, eligible: P.Entry -> bool, reachable: set<P.Entry>)
    requires Ascending(state) && Ascending(file)
    ensures var pages := PageNames(P.Cut(P.AllGarbage(state, file, eligible, reachable)));
            && 0 < |pages| && C.Disjoint(Inventory(reachable), pages)
            && forall i, k :: 0 <= i < |pages| && k in pages[i] ==>
                 exists e :: Name(e) == k && Listed(state, file, e) && eligible(e) && e !in reachable
  {
    var es := P.AllGarbage(state, file, eligible, reachable);
    P.AllGarbageIs(state, file, eligible, reachable);
    var pages := PageNames(P.Cut(es));
    forall i, k | 0 <= i < |pages| && k in pages[i]
      ensures k !in Inventory(reachable)
      ensures exists e :: Name(e) == k && Listed(state, file, e) && eligible(e) && e !in reachable
    {
      assert k in PageNames(P.Cut(es))[i];
      PlannedIsGarbage(es, k);
      assert k in Names(es);
      var e :| e in es && Name(e) == k;
      assert Listed(state, file, e);
      forall x | x in reachable ensures Name(x) != k { if Name(x) == k { NamesAreDistinct(x, e); } }
    }
  }

  predicate Listed(state: seq<Key>, file: seq<Key>, e: P.Entry) {
    e.key in if e.file then file else state
  }

  /**
    * A worker that has listed both backends may record what the plan builder prepared:
    * the guard of the protocol's step follows from the builder, it is not assumed.
    */
  lemma {:induction false} PreparedMayBeRecorded(
    w: C.World, x: C.WorkerId, state: seq<Key>, file: seq<Key>, eligible: P.Entry -> bool, reachable: set<P.Entry>,
    plan: P.Plan, store: P.Store)
    requires Ascending(state) && Ascending(file)
    requires var es := P.AllGarbage(state, file, eligible, reachable); plan == P.PlanOf(es) && P.Holds(store, P.Cut(es))
    requires x in w.jobs && w.jobs[x].Building? && w.jobs[x].id !in w.plans
    requires forall e :: Listed(state, file, e) ==> Name(e) in w.jobs[x].looked
    ensures P.Authentic(plan, store, eligible)
    ensures C.Enabled(w, C.Record(x, Inventory(reachable), PageNames(P.PagesOf(plan, store))))
  {
    var es := P.AllGarbage(state, file, eligible, reachable);
    P.AllGarbageIs(state, file, eligible, reachable);
    P.PreparedIsAuthentic(es, store, eligible);
    PlanAvoidsInventory(state, file, eligible, reachable);
  }

  /** A plan that validates, and whose digest is that of the garbage, records the same pages whatever the store holds. */
  lemma {:induction false} AuthenticMayBeRecorded(
    w: C.World, x: C.WorkerId, state: seq<Key>, file: seq<Key>, eligible: P.Entry -> bool, reachable: set<P.Entry>,
    plan: P.Plan, store: P.Store)
    requires Ascending(state) && Ascending(file) && P.Authentic(plan, store, eligible)
    requires plan.digest == P.AllGarbage(state, file, eligible, reachable)
    requires x in w.jobs && w.jobs[x].Building? && w.jobs[x].id !in w.plans
    requires forall e :: Listed(state, file, e) ==> Name(e) in w.jobs[x].looked
    ensures C.Enabled(w, C.Record(x, Inventory(reachable), PageNames(P.PagesOf(plan, store))))
  {
    P.AuthenticIsCut(plan, store, eligible);
    PlanAvoidsInventory(state, file, eligible, reachable);
  }

  /** End to end: what any run of the workers removes for a built plan was listed, eligible and not reached. */
  lemma {:induction false} RemovedWasUnreachable(
    ws: seq<C.World>, evs: seq<C.Event>, n: nat, r: C.Removal,
    state: seq<Key>, file: seq<Key>, eligible: P.Entry -> bool, reachable: set<P.Entry>)
    requires C.IsRun(ws, evs) && n < |ws| && r in ws[n].removed && Ascending(state) && Ascending(file)
    requires r.deletion.id in ws[n].plans ==>
               ws[n].plans[r.deletion.id].pages == PageNames(P.Cut(P.AllGarbage(state, file, eligible, reachable)))
    ensures exists e :: Name(e) == r.deletion.key && Listed(state, file, e) && eligible(e) && e !in reachable
  {
    S.OnlyClosedGarbageIsRemoved(ws, evs, n, r);
    PlanAvoidsInventory(state, file, eligible, reachable);
    var pages := ws[n].plans[r.deletion.id].pages;
    var i :| 0 <= i < |pages| && r.deletion.key in pages[i];
  }

  /** The same of the objects themselves: what goes without being written or removed was listed, eligible and not reached. */
  lemma {:induction false} LostWasUnreachable(
    ws: seq<C.World>, evs: seq<C.Event>, n: nat, k: Key,
    state: seq<Key>, file: seq<Key>, eligible: P.Entry -> bool, reachable: set<P.Entry>)
    requires C.IsRun(ws, evs) && n < |evs| && k in ws[n].objects && k !in ws[n + 1].objects && evs[n] != C.Remove(k)
    requires Ascending(state) && Ascending(file)
    requires evs[n].Arrive? && evs[n].deletion.id in ws[n].plans ==>
               ws[n].plans[evs[n].deletion.id].pages == PageNames(P.Cut(P.AllGarbage(state, file, eligible, reachable)))
    ensures exists e :: Name(e) == k && Listed(state, file, e) && eligible(e) && e !in reachable
  {
    PutStays(ws[n], evs[n], k);
    var d, i := S.OnlyClosedGarbageDisappears(ws, evs, n, k);
    PlanAvoidsInventory(state, file, eligible, reachable);
    var pages := ws[n].plans[d.id].pages;
    var j :| 0 <= j < |pages| && k in pages[j];
  }

  lemma {:induction false} PutStays(w: C.World, ev: C.Event, k: Key)
    requires C.Enabled(w, ev) && k !in C.Next(w, ev).objects
    ensures ev != C.Put(k)
  {
  }
}
