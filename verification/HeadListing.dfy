/** Listing a head: the base tree overlaid with the delta window, one page at a time. */
module HeadListing {
  import opened Basics
  import opened DomainHead
  import opened KeyPages
  import TreeMap
  import DomainTree

  type Range = TreeMap.Range

  predicate Relevant(r: Range, after: Key, k: Key) {
    after < k && TreeMap.InRange(r, k)
  }

  /** The keys of a map in range above a bound. */
  function KeysIn<V>(m: map<Key, V>, r: Range, after: Key): set<Key> {
    set k | k in m && Relevant(r, after, k)
  }

  // ------------------------------------------------------------- the window

  /** How many changes of the window are in range. */
  function RelevantIn(cs: seq<Change>, r: Range, after: Key): nat {
    if cs == [] then 0
    else RelevantIn(cs[..|cs| - 1], r, after) + if Relevant(r, after, cs[|cs| - 1].key) then 1 else 0
  }

  function RelevantChanges(ds: seq<Delta>, r: Range, after: Key): nat {
    if ds == [] then 0 else RelevantChanges(ds[..|ds| - 1], r, after) + RelevantIn(ds[|ds| - 1].changes, r, after)
  }

  function TouchedBy(cs: seq<Change>, r: Range, after: Key): set<Key> {
    if cs == [] then {}
    else TouchedBy(cs[..|cs| - 1], r, after) + if Relevant(r, after, cs[|cs| - 1].key) then {cs[|cs| - 1].key} else {}
  }

  function Touched(ds: seq<Delta>, r: Range, after: Key): set<Key> {
    if ds == [] then {} else Touched(ds[..|ds| - 1], r, after) + TouchedBy(ds[|ds| - 1].changes, r, after)
  }

  lemma {:induction false} UnionSize(a: set<Key>, b: set<Key>)
    ensures |a + b| <= |a| + |b|
  {
    assert a + b == a + (b - a);
    Subset(b - a, b);
  }

  lemma {:induction false} TouchedByFew(cs: seq<Change>, r: Range, after: Key)
    ensures |TouchedBy(cs, r, after)| <= RelevantIn(cs, r, after)
  {
    if cs != [] { TouchedByFew(cs[..|cs| - 1], r, after); }
  }

  lemma {:induction false} TouchedFew(ds: seq<Delta>, r: Range, after: Key)
    ensures |Touched(ds, r, after)| <= RelevantChanges(ds, r, after)
  {
    if ds != [] {
      TouchedFew(ds[..|ds| - 1], r, after);
      TouchedByFew(ds[|ds| - 1].changes, r, after);
      UnionSize(Touched(ds[..|ds| - 1], r, after), TouchedBy(ds[|ds| - 1].changes, r, after));
    }
  }

  /** Two maps that agree on one key still agree on it after the same changes. */
  lemma {:induction false} SameAfterChanges(a: map<Key, Value>, b: map<Key, Value>, cs: seq<Change>, k: Key, r: Range, after: Key)
    requires Relevant(r, after, k) && (Get(a, k) == Get(b, k) || k in TouchedBy(cs, r, after))
    ensures Get(ApplyChanges(a, cs), k) == Get(ApplyChanges(b, cs), k)
  {
    if cs != [] {
      var n := |cs| - 1;
      if cs[n].key != k { SameAfterChanges(a, b, cs[..n], k, r, after); }
    }
  }

  lemma {:induction false} SameAfterDeltas(a: map<Key, Value>, b: map<Key, Value>, ds: seq<Delta>, k: Key, r: Range, after: Key)
    requires Relevant(r, after, k) && (Get(a, k) == Get(b, k) || k in Touched(ds, r, after))
    ensures Get(ApplyDeltas(a, ds), k) == Get(ApplyDeltas(b, ds), k)
  {
    if ds != [] {
      var n := |ds| - 1;
      if Get(a, k) == Get(b, k) || k in Touched(ds[..n], r, after) {
        SameAfterDeltas(a, b, ds[..n], k, r, after);
      }
      SameAfterChanges(ApplyDeltas(a, ds[..n]), ApplyDeltas(b, ds[..n]), ds[n].changes, k, r, after);
    }
  }

  lemma {:induction false} UntouchedByBatch(m: map<Key, Value>, cs: seq<Change>, k: Key, r: Range, after: Key)
    requires Relevant(r, after, k) && k !in TouchedBy(cs, r, after)
    ensures Get(ApplyChanges(m, cs), k) == Get(m, k)
  {
    if cs != [] { UntouchedByBatch(m, cs[..|cs| - 1], k, r, after); }
  }

  lemma {:induction false} UntouchedByWindow(m: map<Key, Value>, ds: seq<Delta>, k: Key, r: Range, after: Key)
    requires Relevant(r, after, k) && k !in Touched(ds, r, after)
    ensures Get(ApplyDeltas(m, ds), k) == Get(m, k)
  {
    if ds != [] {
      var n := |ds| - 1;
      UntouchedByWindow(m, ds[..n], k, r, after);
      UntouchedByBatch(ApplyDeltas(m, ds[..n]), ds[n].changes, k, r, after);
    }
  }

  // ------------------------------------------- why collecting that many suffices

  function Below(s: set<Key>, x: Key): set<Key> {
    set k | k in s && k < x
  }

  /** A page of a part is the page of the whole when everything missing from the part lies above a full page of it. */
  lemma {:induction false} FirstOfPart(page: seq<Key>, part: set<Key>, whole: set<Key>, n: nat)
    requires IsFirst(page, part, n) && part <= whole
    requires forall x :: x in whole && x !in part ==> n <= |Below(part, x)|
    ensures IsFirst(page, whole, n)
  {
    Subset(part, whole);
    if part != whole {
      var x :| x in whole && x !in part;
      Subset(Below(part, x), part);
    }
    forall x, i | x in whole && x !in page && 0 <= i < |page|
      ensures page[i] < x
    {
      if x !in part && x <= page[i] {
        var smaller := Members(page, i);
        Subset(Below(part, x), smaller) by {
          forall k | k in Below(part, x) ensures k in smaller {
            assert k in page;
            var j :| 0 <= j < |page| && page[j] == k;
            assert j < i;
            assert page[..i][j] == k;
          }
        }
      }
    }
  }

  /** The base map cut down to the keys that collect returned. */
  function Kept(base: map<Key, Value>, keys: seq<Key>): map<Key, Value> {
    map k | k in base && k in keys :: base[k]
  }

  /**
    * Collecting the page size plus the number of relevant changes from the base is
    * enough: every change hides at most one collected entry, so a full page is left
    * below everything that was not collected.
    */
  lemma {:induction false} CollectedSuffices(h: Head, r: Range, after: Key, limit: nat, keys: seq<Key>, page: seq<Key>)
    requires IsFirst(keys, KeysIn(h.base, r, after), limit + RelevantChanges(h.deltas, r, after))
    requires IsFirst(page, KeysIn(ApplyDeltas(Kept(h.base, keys), h.deltas), r, after), limit)
    ensures IsFirst(page, KeysIn(Values(h), r, after), limit)
  {
    var base := KeysIn(h.base, r, after);
    var kept := Kept(h.base, keys);
    var part, whole := KeysIn(ApplyDeltas(kept, h.deltas), r, after), KeysIn(Values(h), r, after);
    var touched := Touched(h.deltas, r, after);
    forall k | Relevant(r, after, k)
      ensures k in touched ==> (k in part <==> k in whole)
      ensures k !in touched ==> (k in part <==> k in keys) && (k in whole <==> k in base)
    {
      if k in touched {
        SameAfterDeltas(kept, h.base, h.deltas, k, r, after);
      } else {
        UntouchedByWindow(kept, h.deltas, k, r, after);
        UntouchedByWindow(h.base, h.deltas, k, r, after);
        assert k in keys ==> k in base;
      }
    }
    forall x | x in whole && x !in part
      ensures limit <= |Below(part, x)|
    {
      var collected := Members(keys, |keys|);
      assert keys[..|keys|] == keys;
      assert x !in keys && x in base;
      FullPage(keys, base, limit + RelevantChanges(h.deltas, r, after), x);
      assert collected - touched <= Below(part, x);
      Subset(collected - touched, Below(part, x));
      TouchedFew(h.deltas, r, after);
      Difference(collected, touched);
    }
    FirstOfPart(page, part, whole, limit);
  }

  lemma {:induction false} Difference(a: set<Key>, b: set<Key>)
    ensures |a| <= |a - b| + |b|
  {
    assert a <= (a - b) + b;
    Subset(a, (a - b) + b);
    UnionSize(a - b, b);
  }

  // --------------------------------------------------------------- execution

  method CountRelevant(ds: seq<Delta>, r: Range, after: Key) returns (n: nat)
    ensures n == RelevantChanges(ds, r, after)
  {
    n := 0;
    for i := 0 to |ds|
      invariant n == RelevantChanges(ds[..i], r, after)
    {
      assert ds[..i + 1][..i] == ds[..i];
      var cs := ds[i].changes;
      ghost var before := n;
      for j := 0 to |cs|
        invariant n == before + RelevantIn(cs[..j], r, after)
      {
        assert cs[..j + 1][..j] == cs[..j];
        if cs[j].key > after && TreeMap.InRange(r, cs[j].key) { n := n + 1; }
      }
      assert cs[..|cs|] == cs;
    }
    assert ds[..|ds|] == ds;
  }

  /** The overlay only looks at relevant changes, and the others would not show. */
  ghost predicate AgreeIn(a: map<Key, Value>, b: map<Key, Value>, r: Range, after: Key) {
    forall k :: Relevant(r, after, k) ==> Get(a, k) == Get(b, k)
  }

  method OverlayWindow(kept: map<Key, Value>, ds: seq<Delta>, r: Range, after: Key) returns (values: map<Key, Value>)
    requires forall k :: k in kept ==> Relevant(r, after, k)
    ensures AgreeIn(values, ApplyDeltas(kept, ds), r, after)
    ensures forall k :: k in values ==> Relevant(r, after, k)
  {
    values := kept;
    for i := 0 to |ds|
      invariant AgreeIn(values, ApplyDeltas(kept, ds[..i]), r, after)
      invariant forall k :: k in values ==> Relevant(r, after, k)
    {
      assert ds[..i + 1][..i] == ds[..i];
      var cs := ds[i].changes;
      ghost var before := ApplyDeltas(kept, ds[..i]);
      for j := 0 to |cs|
        invariant AgreeIn(values, ApplyChanges(before, cs[..j]), r, after)
        invariant forall k :: k in values ==> Relevant(r, after, k)
      {
        assert cs[..j + 1][..j] == cs[..j];
        var c := cs[j];
        if after < c.key && TreeMap.InRange(r, c.key) {
          values := if c.delete then values - {c.key} else values[c.key := Value(c.data, c.version)];
        }
      }
      assert cs[..|cs|] == cs;
    }
    assert ds[..|ds|] == ds;
  }

  /** listAtHead: exactly the first `limit` entries that a reader of the head sees in range. */
  method ListAtHead(h: Head, r: Range, after: Key, limit: nat) returns (page: seq<(Key, Value)>)
    ensures IsFirst(seq(|page|, i requires 0 <= i < |page| => page[i].0), KeysIn(Values(h), r, after), limit)
    ensures forall i :: 0 <= i < |page| ==> Get(Values(h), page[i].0) == Some(page[i].1)
  {
    var relevant := CountRelevant(h.deltas, r, after);
    var collected := SortKeys(KeysIn(h.base, r, after), limit + relevant);
    var kept := Kept(h.base, collected);
    forall k | k in kept ensures Relevant(r, after, k) { assert k in KeysIn(h.base, r, after); }
    var values := OverlayWindow(kept, h.deltas, r, after);
    var keys := SortKeys(values.Keys, limit);
    assert values.Keys == KeysIn(ApplyDeltas(kept, h.deltas), r, after) by {
      assert forall k :: Relevant(r, after, k) ==> Get(values, k) == Get(ApplyDeltas(kept, h.deltas), k);
    }
    CollectedSuffices(h, r, after, limit, collected, keys);
    page := seq(|keys|, i requires 0 <= i < |keys| => (keys[i], values[keys[i]]));
    assert seq(|page|, i requires 0 <= i < |page| => page[i].0) == keys;
    forall i | 0 <= i < |page| ensures Get(Values(h), page[i].0) == Some(page[i].1) {
      ListedValue(h, r, after, collected, values, keys[i], limit);
    }
  }

  lemma {:induction false} ListedValue(h: Head, r: Range, after: Key, collected: seq<Key>, values: map<Key, Value>, k: Key, limit: nat)
    requires IsFirst(collected, KeysIn(h.base, r, after), limit + RelevantChanges(h.deltas, r, after))
    requires AgreeIn(values, ApplyDeltas(Kept(h.base, collected), h.deltas), r, after) && k in values && Relevant(r, after, k)
    ensures Get(Values(h), k) == Some(values[k])
  {
    var kept := Kept(h.base, collected);
    if k in Touched(h.deltas, r, after) {
      SameAfterDeltas(kept, h.base, h.deltas, k, r, after);
    } else {
      UntouchedByWindow(kept, h.deltas, k, r, after);
      UntouchedByWindow(h.base, h.deltas, k, r, after);
    }
  }

  // ------------------------------------------------------------------ paging

  function KeysOf(page: seq<(Key, Value)>): seq<Key> {
    seq(|page|, i requires 0 <= i < |page| => page[i].0)
  }

  lemma {:induction false} NextBound(page: seq<Key>, s: set<Key>, m: map<Key, Value>, r: Range, after: Key, n: nat)
    requires s == KeysIn(m, r, after) && IsFirst(page, s, n) && page != []
    ensures var last := page[|page| - 1];
            && after < last && KeysIn(m, r, last) == set k | k in s && k !in page
            && |KeysIn(m, r, last)| < |s|
  {
    var last := page[|page| - 1];
    assert last in s;
    forall k | k in s ensures last < k <==> k !in page {
      if k in page { var j :| 0 <= j < |page| && page[j] == k; }
    }
    assert KeysIn(m, r, last) == set k | k in s && k !in page;
    Subset(KeysIn(m, r, last), s - {last});
  }

  lemma {:induction false} ShortPage(page: seq<Key>, s: set<Key>, n: nat)
    requires IsFirst(page, s, n) && |page| < n
    ensures forall k :: k in s ==> k in page
  {
    forall k | k in s ensures k in page {
      if k !in page { FullPage(page, s, n, k); }
    }
  }

  /** Following pages by their last key enumerates the whole range, each key once and in order. */
  method ListAll(h: Head, r: Range, start: Key, limit: nat) returns (out: seq<Key>)
    requires 0 < limit
    ensures Ascending(out)
    ensures forall k :: k in out <==> k in KeysIn(Values(h), r, start)
  {
    out := [];
    var after := start;
    while true
      invariant Ascending(out) && (forall i :: 0 <= i < |out| ==> out[i] <= after) && start <= after
      invariant forall k :: k in KeysIn(Values(h), r, start) <==> k in out || k in KeysIn(Values(h), r, after)
      decreases |KeysIn(Values(h), r, after)|
    {
      var page := ListAtHead(h, r, after, limit);
      var keys := KeysOf(page);
      ghost var s := KeysIn(Values(h), r, after);
      assert IsFirst(keys, s, limit);
      forall i | 0 <= i < |keys| ensures after < keys[i] { assert keys[i] in s; }
      if |keys| < limit {
        ShortPage(keys, s, limit);
        out := out + keys;
        return;
      }
      NextBound(keys, s, Values(h), r, after, limit);
      out := out + keys;
      after := keys[|keys| - 1];
    }
  }

  // --------------------------------------------- the base, as the tree holds it

  function EntryKeys(es: seq<DomainTree.Entry>): seq<Key> {
    seq(|es|, i requires 0 <= i < |es| => es[i].key)
  }

  lemma {:induction false} SelectedIff(es: seq<DomainTree.Entry>, r: Range, after: Key, e: DomainTree.Entry)
    ensures e in TreeMap.Selected(es, r, after) <==> e in es && Relevant(r, after, e.key)
  {
    if es != [] {
      SelectedIff(es[1..], r, after, e);
      assert e in es <==> e == es[0] || e in es[1..];
    }
  }

  lemma {:induction false} SelectedSorted(es: seq<DomainTree.Entry>, r: Range, after: Key)
    requires DomainTree.Sorted(es)
    ensures DomainTree.Sorted(TreeMap.Selected(es, r, after))
  {
    if es != [] {
      SelectedSorted(es[1..], r, after);
      var rest := TreeMap.Selected(es[1..], r, after);
      forall i | 0 <= i < |rest| ensures es[0].key < rest[i].key {
        SelectedIff(es[1..], r, after, rest[i]);
        assert rest[i] in es[1..];
      }
    }
  }

  /** The whole of a sorted selection, as keys. */
  lemma {:induction false} SelectedKeys(es: seq<DomainTree.Entry>, r: Range, after: Key, k: Key)
    requires DomainTree.Sorted(es)
    ensures k in EntryKeys(TreeMap.Selected(es, r, after)) <==> exists e :: e in es && Relevant(r, after, e.key) && e.key == k
  {
    var sel := TreeMap.Selected(es, r, after);
    if e :| e in es && Relevant(r, after, e.key) && e.key == k {
      SelectedIff(es, r, after, e);
      var i :| 0 <= i < |sel| && sel[i] == e;
      assert EntryKeys(sel)[i] == k;
    }
    if k in EntryKeys(sel) {
      var i :| 0 <= i < |sel| && EntryKeys(sel)[i] == k;
      SelectedIff(es, r, after, sel[i]);
    }
  }

  lemma {:induction false} PrefixIsFirst(all: seq<Key>, s: set<Key>, n: nat)
    requires Ascending(all) && forall k :: k in s <==> k in all
    ensures IsFirst(all[..Min(n, |all|)], s, n)
  {
    var page := all[..Min(n, |all|)];
    var members := Members(all, |all|);
    assert all[..|all|] == all;
    assert members == s;
    forall x, i | x in s && x !in page && 0 <= i < |page| ensures page[i] < x {
      var j :| 0 <= j < |all| && all[j] == x;
      assert forall m :: 0 <= m < |page| ==> page[m] == all[m];
      assert |page| <= j;
    }
  }

  /** What TreeMap.Collect returns for a tree is the first page of the keys of its map. */
  lemma {:induction false} CollectIsFirst(es: seq<DomainTree.Entry>, r: Range, after: Key, n: nat)
    requires DomainTree.Sorted(es)
    ensures IsFirst(EntryKeys(TreeMap.Take(TreeMap.Selected(es, r, after), n)),
                    set e | e in es && Relevant(r, after, e.key) :: e.key, n)
  {
    hide TreeMap.Selected, IsFirst;
    SelectedSorted(es, r, after);
    var all := EntryKeys(TreeMap.Selected(es, r, after));
    forall k ensures k in (set e | e in es && Relevant(r, after, e.key) :: e.key) <==> k in all { SelectedKeys(es, r, after, k); }
    PrefixIsFirst(all, set e | e in es && Relevant(r, after, e.key) :: e.key, n);
    assert EntryKeys(TreeMap.Take(TreeMap.Selected(es, r, after), n)) == all[..Min(n, |all|)];
  }
}
