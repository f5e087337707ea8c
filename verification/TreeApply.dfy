/** apply, rewrite and lookup of the domain tree, which together refine a finite map. */
module TreeApply {
  import opened Basics
  import opened PageGroups
  import opened DomainTree
  import opened TreeEdit

  // ---------------------------------------------------------------- routing

  /** The child that an edit of a key goes to: the first whose last key reaches it, else the last child. */
  function Route(cs: seq<Child>, k: Key): (i: nat)
    requires cs != []
    ensures i < |cs|
  {
    if |cs| == 1 || k <= cs[0].last then 0 else 1 + Route(cs[1..], k)
  }

  lemma {:induction false} RouteIs(f: Format, cs: seq<Child>, k: Key, i: nat)
    requires cs != [] && i < |cs| && Disjoint(cs)
    requires forall j :: 0 <= j < |cs| ==> Describes(cs[j]) && WellFormed(f, cs[j].page)
    ensures Route(cs, k) == i <==>
            (forall j :: 0 <= j < i ==> cs[j].last < k) && (k <= cs[i].last || i == |cs| - 1)
  {
    if |cs| > 1 && cs[0].last < k {
      if 0 < i {
        RouteIs(f, cs[1..], k, i - 1);
        assert forall j :: 1 <= j < i ==> cs[1..][j - 1] == cs[j];
      }
    } else if |cs| > 1 && 0 < i {
      assert Route(cs, k) == 0;
    }
  }

  /** Entries of a child route to it. */
  lemma {:induction false} EntriesRoute(f: Format, level: nat, cs: seq<Child>, i: nat, k: Key)
    requires cs != [] && Row(f, level, cs) && i < |cs| && At(Entries(cs[i].page), k).Some?
    ensures Route(cs, k) == i
  {
    ChildEntries(f, cs[i]);
    var es := Entries(cs[i].page);
    var n := AtPresent(es, k);
    assert es[0].key <= k <= es[|es| - 1].key;
    RouteIs(f, cs, k, i);
  }

  /** A key is found in a row exactly where it routes to. */
  lemma {:induction false} AtRouted(f: Format, level: nat, cs: seq<Child>, k: Key)
    requires cs != [] && Row(f, level, cs)
    ensures At(Concat(cs), k) == At(Entries(cs[Route(cs, k)].page), k)
  {
    AtBefore(f, level, cs, |cs|, k);
    assert cs[..|cs|] == cs;
  }

  lemma {:induction false} AtBefore(f: Format, level: nat, cs: seq<Child>, n: nat, k: Key)
    requires cs != [] && Row(f, level, cs) && n <= |cs|
    ensures At(Concat(cs[..n]), k) == if Route(cs, k) < n then At(Entries(cs[Route(cs, k)].page), k) else None
  {
    if 0 < n {
      AtBefore(f, level, cs, n - 1, k);
      assert cs[..n] == cs[..n - 1] + [cs[n - 1]];
      ConcatAppend(cs[..n - 1], [cs[n - 1]]);
      assert Concat([cs[n - 1]]) == Entries(cs[n - 1].page) + [];
      assert Entries(cs[n - 1].page) + [] == Entries(cs[n - 1].page);
      AtConcat(Concat(cs[..n - 1]), Entries(cs[n - 1].page), k);
      if At(Entries(cs[n - 1].page), k).Some? { EntriesRoute(f, level, cs, n - 1, k); }
    } else {
      assert cs[..0] == [];
    }
  }

  lemma {:induction false} RouteMonotone(f: Format, level: nat, cs: seq<Child>, j: Key, k: Key)
    requires cs != [] && Row(f, level, cs) && Route(cs, j) < Route(cs, k)
    ensures j < k
  {
    RouteIs(f, cs, j, Route(cs, j));
    RouteIs(f, cs, k, Route(cs, k));
  }

  // --------------------------------------------------- changes of one child

  function Routed(cs: seq<Child>, changes: seq<Change>, i: nat): seq<Change>
    requires cs != []
  {
    if changes == [] then []
    else
      var n := |changes| - 1;
      var rest := Routed(cs, changes[..n], i);
      if Route(cs, changes[n].key) == i then rest + [changes[n]] else rest
  }

  lemma {:induction false} RoutedOk(cs: seq<Child>, changes: seq<Change>, i: nat)
    requires cs != [] && SortedBatch(changes)
    ensures SortedBatch(Routed(cs, changes, i))
    ensures forall c :: c in Routed(cs, changes, i) ==> c in changes && Route(cs, c.key) == i
    ensures forall k :: ChangeAt(Routed(cs, changes, i), k) == if Route(cs, k) == i then ChangeAt(changes, k) else None
  {
    if changes != [] {
      var n := |changes| - 1;
      RoutedOk(cs, changes[..n], i);
      var rest := Routed(cs, changes[..n], i);
      if Route(cs, changes[n].key) == i {
        assert (rest + [changes[n]])[..|rest|] == rest;
        forall j | 0 <= j < |rest| ensures rest[j].key < changes[n].key {
          var x := rest[j];
          assert x in changes[..n];
        }
      }
    }
  }

  /** consistencyDomainChildIndex */
  method ChildIndex(f: Format, level: nat, cs: seq<Child>, k: Key) returns (i: nat)
    requires cs != [] && Row(f, level, cs)
    ensures i == Route(cs, k)
  {
    forall j | 0 <= j < |cs| ensures cs[j].first <= cs[j].last { ChildEntries(f, cs[j]); }
    var lo, hi := 0, |cs|;
    while lo < hi
      invariant 0 <= lo <= hi <= |cs|
      invariant forall j :: 0 <= j < lo ==> cs[j].last < k
      invariant forall j :: hi <= j < |cs| ==> k <= cs[j].last
    {
      var mid := lo + (hi - lo) / 2;
      if cs[mid].last >= k { hi := mid; } else { lo := mid + 1; }
    }
    i := if lo == |cs| then |cs| - 1 else lo;
    RouteIs(f, cs, k, i);
  }

  ghost predicate Grouped(cs: seq<Child>, changes: seq<Change>, groups: map<nat, seq<Change>>)
    requires cs != []
  {
    forall i: nat :: Routed(cs, changes, i) == if i in groups then groups[i] else []
  }

  lemma {:induction false} GroupedStep(cs: seq<Child>, changes: seq<Change>, n: nat, groups: map<nat, seq<Change>>)
    requires cs != [] && n < |changes| && Grouped(cs, changes[..n], groups)
    ensures var i := Route(cs, changes[n].key);
            Grouped(cs, changes[..n + 1], groups[i := (if i in groups then groups[i] else []) + [changes[n]]])
  {
    assert changes[..n + 1][..n] == changes[..n];
    var i := Route(cs, changes[n].key);
    var next := groups[i := (if i in groups then groups[i] else []) + [changes[n]]];
    forall j: nat ensures Routed(cs, changes[..n + 1], j) == if j in next then next[j] else [] {
      assert Routed(cs, changes[..n], j) == if j in groups then groups[j] else [];
    }
  }

  predicate Increasing(s: seq<nat>) {
    forall i, j :: 0 <= i < j < |s| ==> s[i] < s[j]
  }

  /** Sorts the batch into one sub-batch for each child that it touches. */
  method GroupChanges(f: Format, level: nat, cs: seq<Child>, changes: seq<Change>) returns (groups: map<nat, seq<Change>>)
    requires cs != [] && Row(f, level, cs)
    ensures Grouped(cs, changes, groups)
    ensures forall i :: i in groups ==> i < |cs|
  {
    groups := map[];
    assert changes[..0] == [];
    for n := 0 to |changes|
      invariant Grouped(cs, changes[..n], groups)
      invariant forall i :: i in groups ==> i < |cs|
    {
      var index := ChildIndex(f, level, cs, changes[n].key);
      GroupedStep(cs, changes, n, groups);
      groups := groups[index := (if index in groups then groups[index] else []) + [changes[n]]];
    }
    assert changes[..|changes|] == changes;
  }

  /** The touched children in ascending order. */
  method SortedIndices(groups: map<nat, seq<Change>>, n: nat) returns (indices: seq<nat>)
    requires forall i :: i in groups ==> i < n
    ensures Increasing(indices)
    ensures forall i :: i in indices <==> i in groups
  {
    indices := [];
    for i := 0 to n
      invariant Increasing(indices)
      invariant forall j :: 0 <= j < |indices| ==> indices[j] < i
      invariant forall j :: j in indices <==> j in groups && j < i
    {
      if i in groups { indices := indices + [i]; }
    }
  }

  // ---------------------------------------------------------------- rewrite

  /** The children below `next` have been replaced by `done`, which holds their edited entries. */
  ghost predicate Rewritten(f: Format, level: nat, cs: seq<Child>, changes: seq<Change>, done: seq<Child>, next: nat)
    requires cs != []
  {
    && Row(f, level, done)
    && forall k :: At(Concat(done), k) ==
                   if Route(cs, k) < next then Edited(At(Concat(cs), k), ChangeAt(changes, k)) else None
  }

  /** The entries of one child after its own changes. */
  ghost predicate ChildEdited(f: Format, level: nat, cs: seq<Child>, changes: seq<Change>, m: nat, row: seq<Child>)
    requires cs != [] && m < |cs|
  {
    && Row(f, level, row)
    && forall k :: At(Concat(row), k) == Edited(At(Entries(cs[m].page), k), ChangeAt(Routed(cs, changes, m), k))
  }

  lemma {:induction false} ChildEditedAt(f: Format, level: nat, cs: seq<Child>, changes: seq<Change>, m: nat, row: seq<Child>, k: Key)
    requires cs != [] && m < |cs| && Row(f, level, cs) && SortedBatch(changes) && ChildEdited(f, level, cs, changes, m, row)
    ensures At(Concat(row), k) == if Route(cs, k) == m then Edited(At(Concat(cs), k), ChangeAt(changes, k)) else None
  {
    RoutedOk(cs, changes, m);
    AtRouted(f, level, cs, k);
    if Route(cs, k) != m && At(Entries(cs[m].page), k).Some? { EntriesRoute(f, level, cs, m, k); }
  }

  /** A non-empty row has its last entry's key as its last bound, and its first likewise. */
  lemma {:induction false} RowBounds(f: Format, level: nat, row: seq<Child>)
    requires Row(f, level, row) && row != []
    ensures At(Concat(row), row[0].first).Some? && At(Concat(row), row[|row| - 1].last).Some?
  {
    RowEntries(f, row);
    var es := Concat(row);
    AtIndex(es, 0);
    AtIndex(es, |es| - 1);
  }

  lemma {:induction false} RowAppend(f: Format, level: nat, a: seq<Child>, b: seq<Child>)
    requires Row(f, level, a) && Row(f, level, b)
    requires a != [] && b != [] ==> a[|a| - 1].last < b[0].first
    ensures Row(f, level, a + b)
  {
    if a != [] {
      var rest := a[1..] + b;
      assert a + b == [a[0]] + rest;
      RowParts(f, level, [a[0]], a[1..]) by { assert [a[0]] + a[1..] == a; }
      if a[1..] == [] {
        assert rest == b;
      } else {
        RowAppend(f, level, a[1..], b);
        assert rest[0] == a[1];
      }
      RowCons(f, level, a[0], rest);
    } else {
      assert a + b == b;
    }
  }

  lemma {:induction false} RewriteChild(f: Format, level: nat, cs: seq<Child>, changes: seq<Change>, done: seq<Child>, m: nat, row: seq<Child>)
    requires cs != [] && m < |cs| && Row(f, level, cs) && SortedBatch(changes)
    requires Rewritten(f, level, cs, changes, done, m) && ChildEdited(f, level, cs, changes, m, row)
    ensures Rewritten(f, level, cs, changes, done + row, m + 1)
  {
    if done != [] && row != [] {
      RowBounds(f, level, done);
      RowBounds(f, level, row);
      ChildEditedAt(f, level, cs, changes, m, row, row[0].first);
      RouteMonotone(f, level, cs, done[|done| - 1].last, row[0].first);
    }
    RowAppend(f, level, done, row);
    ConcatAppend(done, row);
    forall k
      ensures At(Concat(done + row), k) ==
              if Route(cs, k) < m + 1 then Edited(At(Concat(cs), k), ChangeAt(changes, k)) else None
    {
      AtConcat(Concat(done), Concat(row), k);
      ChildEditedAt(f, level, cs, changes, m, row, k);
    }
  }

  lemma {:induction false} KeptIsEdited(f: Format, level: nat, cs: seq<Child>, changes: seq<Change>, m: nat)
    requires cs != [] && m < |cs| && Row(f, level, cs) && SortedBatch(changes) && Routed(cs, changes, m) == []
    ensures ChildEdited(f, level, cs, changes, m, [cs[m]])
  {
    var c := cs[m];
    assert Concat([c]) == Entries(c.page) + [] == Entries(c.page);
  }

  /** Children without changes stay as they are. */
  lemma {:induction false} KeepChildren(f: Format, level: nat, cs: seq<Child>, changes: seq<Change>, done: seq<Child>, next: nat, m: nat)
    requires cs != [] && next <= m <= |cs| && Row(f, level, cs) && SortedBatch(changes)
    requires Rewritten(f, level, cs, changes, done, next)
    requires forall i: nat :: next <= i < m ==> Routed(cs, changes, i) == []
    ensures Rewritten(f, level, cs, changes, done + cs[next..m], m)
    decreases m - next
  {
    if next == m {
      assert done + cs[next..m] == done;
    } else {
      KeepChildren(f, level, cs, changes, done, next, m - 1);
      var c := cs[m - 1];
      KeptIsEdited(f, level, cs, changes, m - 1);
      hide Rewritten, ChildEdited, Routed;
      RewriteChild(f, level, cs, changes, done + cs[next..m - 1], m - 1, [c]);
      assert done + cs[next..m - 1] + [c] == done + cs[next..m];
    }
  }

  /** What a rewrite of a page must produce: the row of its replacements. */
  ghost predicate Replaces(f: Format, p: Page, changes: seq<Change>, row: seq<Child>) {
    && Row(f, Level(p), row)
    && forall k :: At(Concat(row), k) == Edited(At(Entries(p), k), ChangeAt(changes, k))
  }

  /** The edited leaf overflows exactly when the batch stores an oversized value. */
  lemma {:induction false} LeafOverflows(f: Format, es: seq<Entry>, changes: seq<Change>, out: seq<Entry>)
    requires WellFormed(f, Leaf(es)) && Sorted(out) && SortedBatch(changes)
    requires forall k :: At(out, k) == Edited(At(es, k), ChangeAt(changes, k))
    ensures Oversized(f, changes) <==> exists i :: 0 <= i < |out| && !FitsAlone(out[i], f.entryBytes, f.leafHeader, f.limit)
  {
    if Oversized(f, changes) {
      var j :| 0 <= j < |changes| && !changes[j].delete && !FitsAlone(EntryOf(changes[j]), f.entryBytes, f.leafHeader, f.limit);
      ChangeAtIndex(changes, j);
      var i := AtPresent(out, changes[j].key);
    }
    if i :| 0 <= i < |out| && !FitsAlone(out[i], f.entryBytes, f.leafHeader, f.limit) {
      var k := out[i].key;
      AtIndex(out, i);
      if ChangeAt(changes, k).None? {
        var j := AtPresent(es, k);
        MemberFitsAlone(es, f.entryBytes, j);
        assert false;
      } else {
        var j := ChangeAtPresent(changes, k);
      }
    }
  }

  lemma {:induction false} RoutedOversized(f: Format, cs: seq<Child>, changes: seq<Change>, i: nat)
    requires cs != [] && SortedBatch(changes) && Oversized(f, Routed(cs, changes, i))
    ensures Oversized(f, changes)
  {
    RoutedOk(cs, changes, i);
    var part := Routed(cs, changes, i);
    var j :| 0 <= j < |part| && !part[j].delete && !FitsAlone(EntryOf(part[j]), f.entryBytes, f.leafHeader, f.limit);
    assert part[j] in changes;
  }

  lemma {:induction false} OversizedRouted(f: Format, cs: seq<Child>, changes: seq<Change>)
    requires cs != [] && SortedBatch(changes) && Oversized(f, changes)
    ensures exists i: nat :: i < |cs| && Oversized(f, Routed(cs, changes, i))
  {
    var j :| 0 <= j < |changes| && !changes[j].delete && !FitsAlone(EntryOf(changes[j]), f.entryBytes, f.leafHeader, f.limit);
    var i := Route(cs, changes[j].key);
    RoutedOk(cs, changes, i);
    ChangeAtIndex(changes, j);
    var n := ChangeAtPresent(Routed(cs, changes, i), changes[j].key);
    assert Oversized(f, Routed(cs, changes, i));
  }

  lemma {:induction false} NothingRewritten(f: Format, level: nat, cs: seq<Child>, changes: seq<Change>)
    requires cs != []
    ensures Rewritten(f, level, cs, changes, [], 0)
  {
  }

  /** Where the running offset points while the untouched suffix is still in place. */
  lemma {:induction false} SplicePosition(cs: seq<Child>, done: seq<Child>, next: nat, original: nat)
    requires next <= original < |cs|
    ensures var children, index := done + cs[next..], |done| + original - next;
            && children[index] == cs[original]
            && children[..index] == done + cs[next..original]
            && children[index + 1..] == cs[original + 1..]
  {
  }

  /** Between two touched children nothing is routed. */
  lemma {:induction false} UntouchedBetween(cs: seq<Child>, changes: seq<Change>, groups: map<nat, seq<Change>>, indices: seq<nat>, t: nat, next: nat)
    requires cs != [] && Grouped(cs, changes, groups) && Increasing(indices) && t <= |indices|
    requires forall i :: i in indices <==> i in groups
    requires next == if t == 0 then 0 else indices[t - 1] + 1
    ensures forall i: nat :: next <= i < (if t < |indices| then indices[t] else |cs|) ==> Routed(cs, changes, i) == []
  {
    forall i: nat | next <= i < (if t < |indices| then indices[t] else |cs|)
      ensures Routed(cs, changes, i) == []
    {
      forall n | 0 <= n < |indices| ensures indices[n] != i {
        if n < t { assert indices[n] <= indices[t - 1]; } else { assert indices[t] <= indices[n]; }
      }
      assert i !in groups;
    }
  }

  /** The first `next` children are done, and no edit of theirs overflowed. */
  ghost predicate Progress(f: Format, level: nat, cs: seq<Child>, changes: seq<Change>, done: seq<Child>, next: nat)
    requires cs != []
  {
    && next <= |cs| && Rewritten(f, level, cs, changes, done, next)
    && forall i: nat :: i < next ==> !Oversized(f, Routed(cs, changes, i))
  }

  lemma {:induction false} SkipChildren(f: Format, level: nat, cs: seq<Child>, changes: seq<Change>, done: seq<Child>, next: nat, m: nat)
    requires cs != [] && next <= m <= |cs| && Row(f, level, cs) && SortedBatch(changes)
    requires Progress(f, level, cs, changes, done, next)
    requires forall i: nat :: next <= i < m ==> Routed(cs, changes, i) == []
    ensures Progress(f, level, cs, changes, done + cs[next..m], m)
  {
    KeepChildren(f, level, cs, changes, done, next, m);
  }

  lemma {:induction false} NextChild(f: Format, level: nat, cs: seq<Child>, changes: seq<Change>, done: seq<Child>, m: nat, row: seq<Child>)
    requires cs != [] && m < |cs| && Row(f, level, cs) && SortedBatch(changes)
    requires Progress(f, level, cs, changes, done, m) && !Oversized(f, Routed(cs, changes, m))
    requires Replaces(f, cs[m].page, Routed(cs, changes, m), row)
    ensures Progress(f, level, cs, changes, done + row, m + 1)
  {
    assert Level(cs[m].page) == level;
    RewriteChild(f, level, cs, changes, done, m, row);
  }

  lemma {:induction false} AllDone(f: Format, level: nat, cs: seq<Child>, changes: seq<Change>, done: seq<Child>)
    requires cs != [] && SortedBatch(changes) && Progress(f, level, cs, changes, done, |cs|)
    ensures !Oversized(f, changes)
  {
    if Oversized(f, changes) { OversizedRouted(f, cs, changes); }
  }

  /** The first child that the first t replacements have not passed. */
  function Passed(indices: seq<nat>, t: nat): nat
    requires t <= |indices|
  {
    if t == 0 then 0 else indices[t - 1] + 1
  }

  /** Puts a row of pages in the place of one child. */
  function Splice(children: seq<Child>, index: nat, row: seq<Child>): seq<Child>
    requires index < |children|
  {
    children[..index] + row + children[index + 1..]
  }

  ghost predicate SplicedFrom(f: Format, level: nat, cs: seq<Child>, changes: seq<Change>, next: nat, children: seq<Child>, offset: int, done: seq<Child>)
    requires cs != []
  {
    Progress(f, level, cs, changes, done, next) && children == done + cs[next..] && |done| == next + offset
  }

  /** `children` is a rewritten part and the untouched suffix; the offset is how far that suffix moved. */
  ghost predicate Spliced(f: Format, level: nat, cs: seq<Child>, changes: seq<Change>, next: nat, children: seq<Child>, offset: int)
    requires cs != []
  {
    next <= |cs| && exists done :: SplicedFrom(f, level, cs, changes, next, children, offset, done)
  }

  lemma {:induction false} SpliceStart(f: Format, level: nat, cs: seq<Child>, changes: seq<Change>)
    requires cs != []
    ensures Spliced(f, level, cs, changes, 0, cs, 0)
  {
    assert cs == [] + cs[0..];
    assert SplicedFrom(f, level, cs, changes, 0, cs, 0, []);
  }

  lemma {:induction false} SplicedInBounds(f: Format, level: nat, cs: seq<Child>, changes: seq<Change>, next: nat, children: seq<Child>, offset: int, m: nat)
    requires cs != [] && next <= m < |cs| && Spliced(f, level, cs, changes, next, children, offset)
    ensures 0 <= m + offset < |children| && children[m + offset] == cs[m]
  {
    var done :| SplicedFrom(f, level, cs, changes, next, children, offset, done);
    SplicePosition(cs, done, next, m);
  }

  lemma {:induction false} SpliceNext(f: Format, level: nat, cs: seq<Child>, changes: seq<Change>, next: nat,
                                      children: seq<Child>, offset: int, m: nat, row: seq<Child>)
    requires cs != [] && Row(f, level, cs) && SortedBatch(changes) && next <= m < |cs|
    requires Spliced(f, level, cs, changes, next, children, offset)
    requires forall i: nat :: next <= i < m ==> Routed(cs, changes, i) == []
    requires !Oversized(f, Routed(cs, changes, m)) && Replaces(f, cs[m].page, Routed(cs, changes, m), row)
    ensures 0 <= m + offset < |children|
    ensures Spliced(f, level, cs, changes, m + 1, Splice(children, m + offset, row), offset + |row| - 1)
  {
    hide Rewritten, Replaces, Routed, Oversized;
    var done :| SplicedFrom(f, level, cs, changes, next, children, offset, done);
    SplicePosition(cs, done, next, m);
    SkipChildren(f, level, cs, changes, done, next, m);
    NextChild(f, level, cs, changes, done + cs[next..m], m, row);
    var done' := done + cs[next..m] + row;
    assert Splice(children, m + offset, row) == done' + cs[m + 1..];
    assert SplicedFrom(f, level, cs, changes, m + 1, Splice(children, m + offset, row), offset + |row| - 1, done');
  }

  lemma {:induction false} SpliceEnd(f: Format, level: nat, cs: seq<Child>, changes: seq<Change>, next: nat, children: seq<Child>, offset: int)
    requires cs != [] && Row(f, level, cs) && SortedBatch(changes)
    requires Spliced(f, level, cs, changes, next, children, offset)
    requires forall i: nat :: next <= i < |cs| ==> Routed(cs, changes, i) == []
    ensures !Oversized(f, changes) && Rewritten(f, level, cs, changes, children, |cs|)
  {
    var done :| SplicedFrom(f, level, cs, changes, next, children, offset, done);
    SkipChildren(f, level, cs, changes, done, next, |cs|);
    assert cs[next..|cs|] == cs[next..];
    AllDone(f, level, cs, changes, children);
  }

  lemma {:induction false} PassedBefore(indices: seq<nat>, t: nat)
    requires Increasing(indices) && t < |indices|
    ensures Passed(indices, t) <= indices[t]
  {
  }

  lemma {:induction false} BranchHasRow(f: Format, p: Page)
    requires WellFormed(f, p) && p.Branch?
    ensures p.children != [] && 0 < p.height && Row(f, p.height - 1, p.children)
  {
  }

  lemma {:induction false} GroupAt(cs: seq<Child>, changes: seq<Change>, groups: map<nat, seq<Change>>, i: nat)
    requires cs != [] && Grouped(cs, changes, groups) && i in groups
    ensures groups[i] == Routed(cs, changes, i)
  {
  }

  /** Replaces each touched child in turn, shifting later positions by a running offset. */
  method RewriteChildren(f: Format, p: Page, changes: seq<Change>, groups: map<nat, seq<Change>>, indices: seq<nat>)
    returns (r: Option<seq<Child>>)
    requires ValidFormat(f) && WellFormed(f, p) && p.Branch? && SortedBatch(changes)
    requires Grouped(p.children, changes, groups) && Increasing(indices)
    requires (forall i :: i in indices <==> i in groups) && (forall i :: i in groups ==> i < |p.children|)
    ensures r.Some? <==> !Oversized(f, changes)
    ensures r.Some? ==> Rewritten(f, p.height - 1, p.children, changes, r.value, |p.children|)
    decreases p, 1
  {
    hide Spliced, Replaces, Routed, Oversized, Rewritten, SplicedFrom, WellFormed, ValidFormat, Row, SortedBatch, Grouped, Increasing, Splice;
    BranchHasRow(f, p);
    ghost var cs, level := p.children, p.height - 1;
    var children, offset, t := p.children, 0, 0;
    SpliceStart(f, level, cs, changes);
    while t < |indices|
      invariant 0 <= t <= |indices|
      invariant Spliced(f, level, cs, changes, Passed(indices, t), children, offset)
    {
      var original := indices[t];
      assert original in groups;
      GroupAt(cs, changes, groups, original);
      PassedBefore(indices, t);
      SplicedInBounds(f, level, cs, changes, Passed(indices, t), children, offset, original);
      var index := original + offset;
      var replacements := RewriteOne(f, p, children[index], changes, groups[original], original);
      if replacements.None? { return None; }
      UntouchedBetween(cs, changes, groups, indices, t, Passed(indices, t));
      SpliceNext(f, level, cs, changes, Passed(indices, t), children, offset, original, replacements.value);
      children := Splice(children, index, replacements.value);
      offset := offset + |replacements.value| - 1;
      t := t + 1;
      assert Passed(indices, t) == original + 1;
    }
    UntouchedBetween(cs, changes, groups, indices, t, Passed(indices, t));
    SpliceEnd(f, level, cs, changes, Passed(indices, t), children, offset);
    r := Some(children);
  }

  /** Rewrites one child under the changes that are routed to it. */
  method RewriteOne(f: Format, ghost p: Page, c: Child, ghost changes: seq<Change>, part: seq<Change>, ghost i: nat)
    returns (r: Option<seq<Child>>)
    requires ValidFormat(f) && WellFormed(f, p) && p.Branch? && SortedBatch(changes) && i < |p.children| && c == p.children[i]
    requires part == Routed(p.children, changes, i)
    ensures r.Some? <==> !Oversized(f, part)
    ensures r.None? ==> Oversized(f, changes)
    ensures r.Some? ==> Replaces(f, c.page, part, r.value)
    decreases p, 0
  {
    RoutedOk(p.children, changes, i);
    assert c.page < c;
    r := Rewrite(f, c.page, part);
    if r.None? { RoutedOversized(f, p.children, changes, i); }
  }

  /** rewrite: the pages that replace a page under a batch, by path copying. */
  method Rewrite(f: Format, p: Page, changes: seq<Change>) returns (r: Option<seq<Child>>)
    requires ValidFormat(f) && WellFormed(f, p) && SortedBatch(changes)
    ensures r.Some? <==> !Oversized(f, changes)
    ensures r.Some? ==> Replaces(f, p, changes, r.value)
    decreases p, 2
  {
    match p
    case Leaf(es) =>
      var out := EditLeaf(es, changes);
      LeafOverflows(f, es, changes, out);
      LeafPagesOk(f, out);
      r := WriteLeafGroups(f, out);
    case Branch(height, cs) =>
      var groups := GroupChanges(f, height - 1, cs, changes);
      var indices := SortedIndices(groups, |cs|);
      var children := RewriteChildren(f, p, changes, groups, indices);
      if children.None? { return None; }
      BranchPagesOk(f, height, children.value);
      r := WriteBranchGroups(f, height, children.value);
  }
}
