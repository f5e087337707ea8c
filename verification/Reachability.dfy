/**
  * The memoised walk of everything that a checkpoint reaches. Pages are content
  * addressed, so a page reference is the finite tree below it; trees may share
  * pages in any way.
  */
module Reachability {
  import opened Basics
  import opened VisitSet
  import opened ExternalSort

  /** A page under one purpose: the key of the object that stores it, and what its members lead to. */
  datatype Tree = Page(purpose: nat, key: Key, items: seq<Item>)

  /** A child page or a nested directory, or the blob of a file. */
  datatype Item = Sub(tree: Tree) | Blob(blob: Key)

  /** What an unmemoised traversal reaches. */
  function Reach(t: Tree): set<Key>
    decreases t, 1
  {
    {t.key} + ReachItems(t.items)
  }

  function ReachItems(items: seq<Item>): set<Key>
    decreases items, 0
  {
    if items == [] then {}
    else ReachItem(items[0]) + ReachItems(items[1..])
  }

  function ReachItem(item: Item): set<Key>
    decreases item, 2
  {
    match item
    case Sub(t) => Reach(t)
    case Blob(k) => {k}
  }

  function ReachAll(roots: seq<Tree>): set<Key> {
    if roots == [] then {} else ReachAll(roots[..|roots| - 1]) + Reach(roots[|roots| - 1])
  }

  lemma {:induction false} ReachStep(items: seq<Item>, n: nat)
    requires n < |items|
    ensures ReachItems(items[..n + 1]) == ReachItems(items[..n]) + ReachItem(items[n])
    decreases n
  {
    if n == 0 {
      assert items[..1] == [items[0]] && items[..1][1..] == [];
    } else {
      ReachStep(items[1..], n - 1);
      assert items[..n + 1][1..] == items[1..][..n] && items[..n][1..] == items[1..][..n - 1];
    }
  }

  /** The string that the visited set sees names one purpose, object and digest. */
  ghost predicate Injective(identity: Tree -> Key) {
    forall t, u :: identity(t) != 0 && (identity(t) == identity(u) ==> t == u)
  }

  ghost function Identities(identity: Tree -> Key, seen: set<Tree>): set<Key> {
    set t | t in seen :: identity(t)
  }

  /** Every page that was seen and is not being walked right now has all of its keys collected. */
  ghost predicate Finished(seen: set<Tree>, open: set<Tree>, keys: set<Key>) {
    forall t :: t in seen && t !in open ==> Reach(t) <= keys
  }

  /** The pages being walked lie strictly above the one at hand. */
  ghost predicate Above(open: set<Tree>, t: Tree) {
    forall u :: u in open ==> t < u
  }

  lemma {:induction false} SeenIsIdentity(identity: Tree -> Key, seen: set<Tree>, t: Tree)
    requires Injective(identity)
    ensures identity(t) != 0 && (identity(t) in Identities(identity, seen) <==> t in seen)
    ensures Identities(identity, seen + {t}) == Identities(identity, seen) + {identity(t)}
  {
  }

  /**
    * walkTreePage: a page that was seen before is skipped. On the way in it may not
    * be complete yet, but then it is an ancestor, which cannot lie below itself.
    */
  method Walk(t: Tree, identity: Tree -> Key, visited: Visited, collector: Collector, ghost seen: set<Tree>, ghost open: set<Tree>)
    returns (ghost seen': set<Tree>)
    requires Injective(identity) && 0 !in Reach(t) && Above(open, t)
    requires visited.Valid() && collector.Valid() && visited.passed == Identities(identity, seen)
    requires Finished(seen, open, collector.keys)
    modifies visited, collector
    ensures visited.Valid() && collector.Valid() && visited.passed == Identities(identity, seen')
    ensures seen <= seen' && Finished(seen', open, collector.keys)
    ensures old(collector.keys) <= collector.keys <= old(collector.keys) + Reach(t)
    ensures Reach(t) <= collector.keys
    decreases t, 1
  {
    hide Visited.Valid, Collector.Valid, Reach, ReachItems, Identities, Injective, Finished;
    SeenIsIdentity(identity, seen, t);
    Opened(t, seen, open, collector.keys);
    var before := visited.Seen(identity(t));
    if before.value { return seen; }
    var ok := collector.Add(t.key);
    FinishedGrows(seen, open, old(collector.keys), collector.keys);
    Opened(t, seen, open, collector.keys);
    assert open + {t} - {t} == open;
    seen' := WalkItems(t, identity, visited, collector, seen + {t}, open + {t});
    Closed(t, seen', open, collector.keys);
  }

  lemma {:induction false} FinishedGrows(seen: set<Tree>, open: set<Tree>, keys: set<Key>, keys': set<Key>)
    requires Finished(seen, open, keys) && keys <= keys'
    ensures Finished(seen, open, keys')
  {
  }

  lemma {:induction false} Opened(t: Tree, seen: set<Tree>, open: set<Tree>, keys: set<Key>)
    requires Finished(seen, open, keys) && Above(open, t)
    ensures t !in open && (t in seen ==> Reach(t) <= keys) && Finished(seen + {t}, open + {t}, keys)
    ensures t.key in Reach(t)
  {
  }

  lemma {:induction false} Closed(t: Tree, seen: set<Tree>, open: set<Tree>, keys: set<Key>)
    requires Finished(seen, open + {t}, keys) && Reach(t) <= keys
    ensures Finished(seen, open, keys)
  {
  }

  method WalkItems(t: Tree, identity: Tree -> Key, visited: Visited, collector: Collector, ghost seen: set<Tree>, ghost open: set<Tree>)
    returns (ghost seen': set<Tree>)
    requires Injective(identity) && 0 !in Reach(t) && t in open && Above(open - {t}, t)
    requires visited.Valid() && collector.Valid() && visited.passed == Identities(identity, seen)
    requires Finished(seen, open, collector.keys) && t.key in collector.keys
    modifies visited, collector
    ensures visited.Valid() && collector.Valid() && visited.passed == Identities(identity, seen')
    ensures seen <= seen' && Finished(seen', open, collector.keys)
    ensures old(collector.keys) <= collector.keys <= old(collector.keys) + Reach(t)
    ensures Reach(t) <= collector.keys
    decreases t, 0
  {
    hide Visited.Valid, Collector.Valid, Reach, ReachItems, Identities, Injective, Finished;
    seen' := seen;
    ReachParts(t);
    for n := 0 to |t.items|
      invariant visited.Valid() && collector.Valid() && visited.passed == Identities(identity, seen')
      invariant seen <= seen' && Finished(seen', open, collector.keys)
      invariant old(collector.keys) <= collector.keys <= old(collector.keys) + Reach(t)
      invariant ReachItems(t.items[..n]) <= collector.keys
    {
      ReachStep(t.items, n);
      InReach(t, n);
      var item := t.items[n];
      assert item < t;
      match item
      case Sub(u) => {
        assert u < item;
        AboveChild(open, t, u);
        seen' := Walk(u, identity, visited, collector, seen', open);
      }
      case Blob(k) => {
        ghost var before := collector.keys;
        var ok := collector.Add(k);
        FinishedGrows(seen', open, before, collector.keys);
      }
    }
  }

  lemma {:induction false} AboveChild(open: set<Tree>, t: Tree, u: Tree)
    requires Above(open - {t}, t) && u < t
    ensures Above(open, u)
  {
    forall w | w in open ensures u < w {
      if w != t { assert w in open - {t}; assert t < w; }
    }
  }

  lemma {:induction false} ReachParts(t: Tree)
    ensures Reach(t) == {t.key} + ReachItems(t.items[..|t.items|]) && ReachItems(t.items[..0]) == {}
  {
    assert t.items[..|t.items|] == t.items;
  }

  lemma {:induction false} InReach(t: Tree, n: nat)
    requires n < |t.items|
    ensures ReachItem(t.items[n]) <= Reach(t)
  {
    InItems(t.items, n);
  }

  lemma {:induction false} InItems(items: seq<Item>, n: nat)
    requires n < |items|
    ensures ReachItem(items[n]) <= ReachItems(items)
    decreases n
  {
    if 0 < n { InItems(items[1..], n - 1); }
  }

  /**
    * The reachability stream: strictly increasing, without repetition, exactly what
    * the unmemoised traversal of all the roots reaches together with the fixed keys,
    * for any buffer sizes.
    */
  method ReachableKeys(fixed: seq<Key>, roots: seq<Tree>, identity: Tree -> Key, visitLimit: nat, chunkSize: nat)
    returns (out: seq<Key>)
    requires Injective(identity) && 0 < visitLimit && 0 < chunkSize && 0 !in fixed && 0 !in ReachAll(roots)
    ensures Ascending(out) && Elements(out) == Elements(fixed) + ReachAll(roots)
  {
    hide Visited.Valid, Collector.Valid, Reach, Injective, Finished, Elements;
    var visited := new Visited(visitLimit);
    var collector := new Collector(chunkSize);
    InElements(fixed, 0);
    assert fixed[..0] == [];
    for n := 0 to |fixed|
      invariant fresh(collector) && collector.Valid() && collector.keys == Elements(fixed[..n])
      invariant fresh(visited) && visited.Valid() && visited.passed == {}
    {
      ElementsStep(fixed, n);
      var ok := collector.Add(fixed[n]);
    }
    assert fixed[..|fixed|] == fixed;
    ghost var seen: set<Tree> := {};
    NothingFinished(collector.keys, identity);
    for n := 0 to |roots|
      invariant fresh(visited) && fresh(collector) && visited.Valid() && collector.Valid()
      invariant visited.passed == Identities(identity, seen) && Finished(seen, {}, collector.keys)
      invariant collector.keys == Elements(fixed) + ReachAll(roots[..n])
    {
      assert roots[..n + 1][..n] == roots[..n];
      RootReach(roots, n);
      seen := Walk(roots[n], identity, visited, collector, seen, {});
    }
    assert roots[..|roots|] == roots;
    InElements(fixed, 0);
    out := SortedKeys(collector);
  }

  lemma {:induction false} NothingFinished(keys: set<Key>, identity: Tree -> Key)
    ensures Finished({}, {}, keys) && Identities(identity, {}) == {}
  {
  }

  lemma {:induction false} RootReach(roots: seq<Tree>, n: nat)
    requires n < |roots|
    ensures Reach(roots[n]) <= ReachAll(roots)
    decreases |roots|
  {
    if n < |roots| - 1 { RootReach(roots[..|roots| - 1], n); }
  }
}
