/**
  * A writer that is left alone can publish any tree made of new pages and of pages that the
  * current head reaches, and a collection that is left alone removes exactly what it asks for.
  */
module PageWrite {
  import opened Basics
  import opened PageStore

  ghost predicate Leads(w: World, evs: seq<Event>, w': World)
    decreases |evs|
  {
    if evs == [] then w' == w else Enabled(w, evs[0]) && Leads(Next(w, evs[0]), evs[1..], w')
  }

  lemma {:induction false} Stay(w: World)
    ensures Leads(w, [], w)
  {
  }

  lemma {:induction false} One(w: World, ev: Event)
    requires Enabled(w, ev)
    ensures Leads(w, [ev], Next(w, ev))
  {
    assert [ev][1..] == [];
  }

  lemma {:induction false} Join(w: World, a: seq<Event>, w1: World, b: seq<Event>, w2: World)
    requires Leads(w, a, w1) && Leads(w1, b, w2)
    ensures Leads(w, a + b, w2)
    decreases |a|
  {
    if a == [] {
      assert a + b == b;
    } else {
      Join(Next(w, a[0]), a[1..], w1, b, w2);
      assert (a + b)[0] == a[0] && (a + b)[1..] == a[1..] + b;
    }
  }

  // ------------------------------------------------------------ what is written

  /** The reference is one of the given ones, as a writer makes it, or lies below one of them. */
  ghost predicate Kept(from: set<Ref>, ref: Ref) {
    exists r :: r in from && Below(r, ref)
  }

  ghost predicate Below(r: Ref, ref: Ref)
    decreases r
  {
    || ref == Refer(r.pack, r.page)
    || (r.page.Branch? && exists i :: 0 <= i < |r.page.children| && (ref == r.page.children[i] || Below(r.page.children[i], ref)))
  }

  /** A tree of valid new pages, in the new pack or stored one by one, over kept references. */
  ghost predicate Buildable(from: set<Ref>, pack: PackId, ref: Ref)
    decreases ref
  {
    || Kept(from, ref)
    || (&& (ref.pack == pack || ref.pack == UNPACKED) && ValidPage(ref.page) && ref == Refer(ref.pack, ref.page)
        && (ref.page.Branch? ==> forall i :: 0 <= i < |ref.page.children| ==> Buildable(from, pack, ref.page.children[i])))
  }

  /** A writer under way: it has kept what it held, staged only the new pack, and the head has not moved. */
  ghost predicate Goes(w: World, w': World, id: WriterId, pack: PackId) {
    && id in w.writers && id in w'.writers && w'.head == w.head
    && w'.writers[id].seen == w.writers[id].seen && w.writers[id].refs <= w'.writers[id].refs
    && w.writers[id].flushed == {} && w'.writers[id].flushed == {}
    && w.writers[id].staged.Keys <= {pack} && w'.writers[id].staged.Keys <= {pack}
    && (pack !in w.packs ==> pack !in w'.packs) && w'.writers - {id} == w.writers - {id}
  }

  lemma {:induction false} GoesOn(w: World, w1: World, w2: World, id: WriterId, pack: PackId)
    requires Goes(w, w1, id, pack) && Goes(w1, w2, id, pack)
    ensures Goes(w, w2, id, pack)
  {
  }

  lemma {:induction false} BelowIsReached(w: World, id: WriterId, pack: PackId, r: Ref, ref: Ref) returns (evs: seq<Event>, w': World)
    requires Goes(w, w, id, pack) && r in w.writers[id].refs && Below(r, ref)
    ensures Leads(w, evs, w') && Goes(w, w', id, pack) && ref in w'.writers[id].refs
    decreases r
  {
    hide Leads;
    if ref == Refer(r.pack, r.page) {
      evs, w' := [Recall(id, r)], Next(w, Recall(id, r));
      One(w, Recall(id, r));
    } else {
      var i :| 0 <= i < |r.page.children| && (ref == r.page.children[i] || Below(r.page.children[i], ref));
      var ev, child := Descend(id, r, i), r.page.children[i];
      One(w, ev);
      var w1 := Next(w, ev);
      assert Goes(w, w1, id, pack) && child in w1.writers[id].refs;
      if ref == child {
        evs, w' := [ev], w1;
      } else {
        var rest;
        rest, w' := BelowIsReached(w1, id, pack, child, ref);
        GoesOn(w, w1, w', id, pack);
        Join(w, [ev], w1, rest, w');
        evs := [ev] + rest;
      }
    }
  }

  /** Every buildable tree can be staged, children first. */
  lemma {:induction false} StageTree(w: World, id: WriterId, pack: PackId, from: set<Ref>, ref: Ref) returns (evs: seq<Event>, w': World)
    requires pack != UNPACKED && Goes(w, w, id, pack) && from <= w.writers[id].refs && Buildable(from, pack, ref)
    ensures Leads(w, evs, w') && Goes(w, w', id, pack) && ref in w'.writers[id].refs
    decreases ref, 1
  {
    hide Leads, Below, ValidPage, Describe;
    if Kept(from, ref) {
      var r :| r in from && Below(r, ref);
      evs, w' := BelowIsReached(w, id, pack, r, ref);
    } else {
      var w1: World;
      if ref.page.Branch? {
        evs, w1 := StageChildren(w, id, pack, from, ref, |ref.page.children|);
      } else {
        evs, w1 := [], w;
        Stay(w);
      }
      var ev := if ref.pack == UNPACKED then Store(id, ref.page, true) else Stage(id, pack, ref.page);
      StagePage(w1, id, pack, ref, ev);
      One(w1, ev);
      w' := Next(w1, ev);
      hide Enabled, Next;
      Join(w, evs, w1, [ev], w');
      GoesOn(w, w1, w', id, pack);
      evs := evs + [ev];
    }
  }

  lemma {:induction false} StagePage(w: World, id: WriterId, pack: PackId, ref: Ref, ev: Event)
    requires pack != UNPACKED && Goes(w, w, id, pack) && ValidPage(ref.page) && ref == Refer(ref.pack, ref.page)
    requires ref.pack == pack || ref.pack == UNPACKED
    requires ref.page.Branch? ==> forall i :: 0 <= i < |ref.page.children| ==> ref.page.children[i] in w.writers[id].refs
    requires ev == if ref.pack == UNPACKED then Store(id, ref.page, true) else Stage(id, pack, ref.page)
    ensures Enabled(w, ev) && Goes(w, Next(w, ev), id, pack) && ref in Next(w, ev).writers[id].refs
  {
    hide ValidPage, Describe;
  }

  lemma {:induction false} StageChildren(w: World, id: WriterId, pack: PackId, from: set<Ref>, ref: Ref, n: nat)
    returns (evs: seq<Event>, w': World)
    requires pack != UNPACKED && Goes(w, w, id, pack) && from <= w.writers[id].refs && ref.page.Branch? && n <= |ref.page.children|
    requires forall i :: 0 <= i < |ref.page.children| ==> Buildable(from, pack, ref.page.children[i])
    ensures Leads(w, evs, w') && Goes(w, w', id, pack)
    ensures forall i :: 0 <= i < n ==> ref.page.children[i] in w'.writers[id].refs
    decreases ref, 0, n
  {
    hide Leads, Buildable;
    if n == 0 {
      evs, w' := [], w;
      Stay(w);
    } else {
      var a, w1 := StageChildren(w, id, pack, from, ref, n - 1);
      var b;
      b, w' := StageTree(w1, id, pack, from, ref.page.children[n - 1]);
      Join(w, a, w1, b, w');
      GoesOn(w, w1, w', id, pack);
      evs := a + b;
    }
  }

  lemma {:induction false} StageRoots(w: World, id: WriterId, pack: PackId, from: set<Ref>, roots: seq<Ref>) returns (evs: seq<Event>, w': World)
    requires pack != UNPACKED && Goes(w, w, id, pack) && from <= w.writers[id].refs
    requires forall i :: 0 <= i < |roots| ==> Buildable(from, pack, roots[i])
    ensures Leads(w, evs, w') && Goes(w, w', id, pack) && forall i :: 0 <= i < |roots| ==> roots[i] in w'.writers[id].refs
    decreases |roots|
  {
    hide Leads, Buildable;
    if roots == [] {
      evs, w' := [], w;
      Stay(w);
    } else {
      var n := |roots| - 1;
      var a, w1 := StageRoots(w, id, pack, from, roots[..n]);
      var b;
      b, w' := StageTree(w1, id, pack, from, roots[n]);
      Join(w, a, w1, b, w');
      GoesOn(w, w1, w', id, pack);
      evs := a + b;
      forall i | 0 <= i < |roots| ensures roots[i] in w'.writers[id].refs {
        if i < n { assert roots[..n][i] == roots[i]; }
      }
    }
  }

  // ---------------------------------------------------------------- publication

  function RootsOf(head: Head): set<Ref> {
    set i | 0 <= i < |head.roots| :: head.roots[i]
  }

  /**
    * A writer left alone publishes any trees of valid new pages over what the head reaches:
    * the new head is one version on and holds exactly those trees.
    */
  lemma {:induction false} WriteAlone(w: World, id: WriterId, pack: PackId, roots: seq<Ref>) returns (evs: seq<Event>, w': World)
    requires id !in w.writers && pack != UNPACKED && pack !in w.packs
    requires forall i :: 0 <= i < |roots| ==> Buildable(RootsOf(w.head), pack, roots[i])
    ensures Leads(w, evs, w') && w'.head.version == w.head.version + 1 && |w'.head.roots| == |roots|
    ensures forall i :: 0 <= i < |roots| ==> w'.head.roots[i] == Rooted(roots[i])
    ensures w'.writers == w.writers
  {
    hide Leads, Buildable;
    One(w, Begin(id));
    var w1 := Next(w, Begin(id));
    var a, w2 := StageRoots(w1, id, pack, RootsOf(w.head), roots);
    Join(w, [Begin(id)], w1, a, w2);
    var b, w3 := FlushStaged(w2, id, pack);
    Join(w, [Begin(id)] + a, w2, b, w3);
    var ev := Publish(id, roots);
    PublishAlone(w3, id, roots);
    One(w3, ev);
    w' := Next(w3, ev);
    Join(w, [Begin(id)] + a + b, w3, [ev], w');
    evs := [Begin(id)] + a + b + [ev];
    assert w'.writers == w3.writers - {id} == w1.writers - {id} == w.writers;
  }

  /** After the flush nothing staged is unpublished. */
  lemma {:induction false} FlushStaged(w: World, id: WriterId, pack: PackId) returns (evs: seq<Event>, w': World)
    requires Goes(w, w, id, pack) && pack !in w.packs
    ensures Leads(w, evs, w') && id in w'.writers && w'.head == w.head && w'.writers - {id} == w.writers - {id}
    ensures w'.writers[id].refs == w.writers[id].refs && w'.writers[id].seen == w.writers[id].seen
    ensures w'.writers[id].staged.Keys <= w'.writers[id].flushed
  {
    if pack in w.writers[id].staged {
      evs, w' := [Flush(id, pack, true)], Next(w, Flush(id, pack, true));
      One(w, Flush(id, pack, true));
    } else {
      evs, w' := [], w;
    }
  }

  lemma {:induction false} PublishAlone(w: World, id: WriterId, roots: seq<Ref>)
    requires id in w.writers && w.writers[id].staged.Keys <= w.writers[id].flushed && w.writers[id].seen == w.head.version
    requires forall i :: 0 <= i < |roots| ==> roots[i] in w.writers[id].refs
    ensures Enabled(w, Publish(id, roots))
    ensures var w' := Next(w, Publish(id, roots));
            && w'.head.version == w.head.version + 1 && |w'.head.roots| == |roots| && w'.writers == w.writers - {id}
            && forall i :: 0 <= i < |roots| ==> w'.head.roots[i] == Rooted(roots[i])
  {
    hide Uses;
  }

  // ----------------------------------------------------------------- collection

  /**
    * A collection left alone: after a write of the head that leaves every writer behind, the
    * packs and single pages that the roots do not reach are gone, and everything else stays.
    */
  lemma {:induction false} CollectAlone(w: World, packs: set<PackId>, pages: set<Page>) returns (w': World)
    requires Inv(w) && UNPACKED !in packs && forall i :: 0 <= i < |w.head.roots| ==> Spares(w.head.roots[i], packs, pages)
    ensures Leads(w, [Fence, Sweep(packs, pages)], w') && w'.head.roots == w.head.roots && w'.writers == w.writers
    ensures forall p :: p in w'.packs <==> p in w.packs && p !in packs
    ensures forall p :: p in w'.packs ==> w'.packs[p] == if p == UNPACKED then w.packs[p] - pages else w.packs[p]
    ensures HeadPresent(w')
  {
    hide Spares, Present, WriterOk, Leads;
    One(w, Fence);
    var w1 := Next(w, Fence);
    var ev := Sweep(packs, pages);
    forall id | id in w1.writers ensures w1.writers[id].seen < w1.head.version { assert WriterSafe(w, w.writers[id]); }
    One(w1, ev);
    w' := Next(w1, ev);
    Join(w, [Fence], w1, [ev], w');
    assert [Fence] + [ev] == [Fence, ev];
    FenceKeeps(w);
    SweepKeeps(w1, ev);
  }
}
