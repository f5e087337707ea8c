/** Batch edits by path copying: rewrite, the level loop, and the lookup that agrees with them. */
module TreeEdit {
  import opened Basics
  import opened PageGroups
  import opened DomainTree

  // ---------------------------------------------------------------- batches

  predicate SortedBatch(cs: seq<Change>) {
    forall i, j :: 0 <= i < j < |cs| ==> cs[i].key < cs[j].key
  }

  function ChangeAt(cs: seq<Change>, k: Key): Option<Change> {
    if cs == [] then None
    else if cs[|cs| - 1].key == k then Some(cs[|cs| - 1])
    else ChangeAt(cs[..|cs| - 1], k)
  }

  function EntryOf(c: Change): Entry {
    Entry(c.key, c.value, c.version)
  }

  /** The entry of a key after a batch. */
  function Edited(before: Option<Entry>, c: Option<Change>): Option<Entry> {
    if c.None? then before else if c.value.delete then None else Some(Entry(c.value.key, c.value.value, c.value.version))
  }

  /** Some stored value is too large for a page of its own. */
  ghost predicate Oversized(f: Format, cs: seq<Change>) {
    exists i :: 0 <= i < |cs| && !cs[i].delete && !FitsAlone(EntryOf(cs[i]), f.entryBytes, f.leafHeader, f.limit)
  }

  lemma {:induction false} ChangeAtPresent(cs: seq<Change>, k: Key) returns (i: nat)
    requires ChangeAt(cs, k).Some?
    ensures i < |cs| && cs[i].key == k && ChangeAt(cs, k) == Some(cs[i])
  {
    var n := |cs| - 1;
    if cs[n].key == k { i := n; } else { i := ChangeAtPresent(cs[..n], k); }
  }

  lemma {:induction false} ChangeAtIndex(cs: seq<Change>, i: nat)
    requires i < |cs| && SortedBatch(cs)
    ensures ChangeAt(cs, cs[i].key) == Some(cs[i])
  {
    var n := |cs| - 1;
    if i < n { assert cs[i].key < cs[n].key; ChangeAtIndex(cs[..n], i); }
  }

  /** The last change of a key is the one found. */
  lemma {:induction false} ChangeAtLast(cs: seq<Change>, i: nat)
    requires i < |cs| && forall j :: i < j < |cs| ==> cs[j].key != cs[i].key
    ensures ChangeAt(cs, cs[i].key) == Some(cs[i])
  {
    var n := |cs| - 1;
    if i < n { ChangeAtLast(cs[..n], i); }
  }

  // ------------------------------------------------------------- leaf edits

  method SearchEntries(es: seq<Entry>, k: Key) returns (i: nat)
    requires Sorted(es)
    ensures i <= |es|
    ensures forall j :: 0 <= j < i ==> es[j].key < k
    ensures forall j :: i <= j < |es| ==> k <= es[j].key
  {
    var lo, hi := 0, |es|;
    while lo < hi
      invariant 0 <= lo <= hi <= |es|
      invariant forall j :: 0 <= j < lo ==> es[j].key < k
      invariant forall j :: hi <= j < |es| ==> k <= es[j].key
    {
      var mid := lo + (hi - lo) / 2;
      if es[mid].key >= k { hi := mid; } else { lo := mid + 1; }
    }
    i := lo;
  }

  /** Replacing, inserting or deleting at the position of a key changes that key alone. */
  lemma {:induction false} SpliceEntry(a: seq<Entry>, b: seq<Entry>, mid: seq<Entry>, k: Key)
    requires Sorted(a) && Sorted(b)
    requires forall i :: 0 <= i < |a| ==> a[i].key < k
    requires forall i :: 0 <= i < |b| ==> k < b[i].key
    requires mid == [] || (|mid| == 1 && mid[0].key == k)
    ensures Sorted(a + mid + b)
    ensures forall j :: At(a + mid + b, j) == if j == k then At(mid, k) else At(a + b, j)
  {
    SortedAppend(a, mid);
    SortedAppend(a + mid, b);
    hide Sorted, At;
    forall j ensures At(a + mid + b, j) == if j == k then At(mid, k) else At(a + b, j) {
      SpliceAt(a, b, mid, k, j);
    }
  }

  lemma {:induction false} SpliceAt(a: seq<Entry>, b: seq<Entry>, mid: seq<Entry>, k: Key, j: Key)
    requires forall i :: 0 <= i < |a| ==> a[i].key < k
    requires forall i :: 0 <= i < |b| ==> k < b[i].key
    requires mid == [] || (|mid| == 1 && mid[0].key == k)
    ensures At(a + mid + b, j) == if j == k then At(mid, k) else At(a + b, j)
  {
    hide At;
    AtConcat(a + mid, b, j);
    AtConcat(a, mid, j);
    AtConcat(a, b, j);
    if j == k {
      AtAbsent(a, k);
      AtAbsent(b, k);
    } else {
      AtAbsent(mid, j);
    }
  }

  lemma {:induction false} SpliceOut(es: seq<Entry>, i: nat, rest: nat, k: Key, mid: seq<Entry>)
    requires Sorted(es) && i <= rest <= |es|
    requires forall j :: 0 <= j < i ==> es[j].key < k
    requires if i < |es| && es[i].key == k then rest == i + 1 else rest == i && (i < |es| ==> k < es[i].key)
    requires mid == [] || (|mid| == 1 && mid[0].key == k)
    ensures Sorted(es[..i] + mid + es[rest..])
    ensures forall j :: At(es[..i] + mid + es[rest..], j) == if j == k then At(mid, k) else At(es, j)
  {
    var a, b := es[..i], es[rest..];
    forall j | 0 <= j < |b| ensures k < b[j].key { assert b[j] == es[rest + j]; }
    var gone := es[i..rest];
    assert es == a + gone + b;
    SpliceEntry(a, b, gone, k);
    SpliceEntry(a, b, mid, k);
  }

  /** One change applied to the entries of a leaf at the position found by binary search. */
  method EditEntry(es: seq<Entry>, c: Change) returns (out: seq<Entry>)
    requires Sorted(es)
    ensures Sorted(out)
    ensures forall k :: At(out, k) == if k == c.key then Edited(At(es, k), Some(c)) else At(es, k)
  {
    var i := SearchEntries(es, c.key);
    var rest := if i < |es| && es[i].key == c.key then i + 1 else i;
    var mid := if c.delete then [] else [EntryOf(c)];
    SpliceOut(es, i, rest, c.key, mid);
    out := es[..i] + mid + es[rest..];
  }

  method EditLeaf(es: seq<Entry>, cs: seq<Change>) returns (out: seq<Entry>)
    requires Sorted(es)
    ensures Sorted(out)
    ensures forall k :: At(out, k) == Edited(At(es, k), ChangeAt(cs, k))
  {
    out := es;
    for n := 0 to |cs|
      invariant Sorted(out)
      invariant forall k :: At(out, k) == Edited(At(es, k), ChangeAt(cs[..n], k))
    {
      assert cs[..n + 1][..n] == cs[..n];
      out := EditEntry(out, cs[n]);
    }
    assert cs[..|cs|] == cs;
  }

  // ------------------------------------------------------------------- rows

  function LeafRow(f: Format, gs: seq<seq<Entry>>): seq<Child>
    requires forall i :: 0 <= i < |gs| ==> gs[i] != []
  {
    if gs == [] then [] else [Describe(f, Leaf(gs[0]))] + LeafRow(f, gs[1..])
  }

  function BranchRow(f: Format, height: nat, gs: seq<seq<Child>>): seq<Child>
    requires forall i :: 0 <= i < |gs| ==> gs[i] != []
  {
    if gs == [] then [] else [Describe(f, Branch(height, gs[0]))] + BranchRow(f, height, gs[1..])
  }

  lemma {:induction false} SortedParts(a: seq<Entry>, b: seq<Entry>)
    requires Sorted(a + b)
    ensures Sorted(a) && Sorted(b)
    ensures a != [] && b != [] ==> a[|a| - 1].key < b[0].key
  {
    var s := a + b;
    forall i, j | 0 <= i < j < |a| ensures a[i].key < a[j].key { assert s[i] == a[i] && s[j] == a[j]; }
    forall i, j | 0 <= i < j < |b| ensures b[i].key < b[j].key { assert s[|a| + i] == b[i] && s[|a| + j] == b[j]; }
    if a != [] && b != [] { assert s[|a| - 1] == a[|a| - 1] && s[|a|] == b[0]; }
  }

  /** A disjoint row continues with a disjoint row that starts above it. */
  lemma {:induction false} RowCons(f: Format, level: nat, c: Child, cs: seq<Child>)
    requires Row(f, level, [c]) && Row(f, level, cs) && (cs != [] ==> c.last < cs[0].first)
    ensures Row(f, level, [c] + cs)
  {
    var row := [c] + cs;
    assert [c][0] == c;
    forall i | 0 <= i < |cs| ensures cs[i].first <= cs[i].last { ChildEntries(f, cs[i]); }
    forall j | 0 <= j < |cs| ensures c.last < cs[j].first {
      if 0 < j { assert cs[0].last < cs[j].first; }
    }
  }

  lemma {:induction false} LeafRowIsRow(f: Format, gs: seq<seq<Entry>>)
    requires ValidFormat(f) && Sorted(Flatten(gs))
    requires forall i :: 0 <= i < |gs| ==> gs[i] != [] && PageFits(gs[i], f.entryBytes, f.leafHeader, f.limit)
    ensures Row(f, 0, LeafRow(f, gs)) && Concat(LeafRow(f, gs)) == Flatten(gs)
    ensures gs != [] ==> LeafRow(f, gs) != [] && LeafRow(f, gs)[0].first == Flatten(gs)[0].key
  {
    if gs != [] {
      SortedParts(gs[0], Flatten(gs[1..]));
      LeafRowIsRow(f, gs[1..]);
      var p := Leaf(gs[0]);
      DescribeIsExact(f, p);
      var c, rest := Describe(f, p), LeafRow(f, gs[1..]);
      if gs[1..] != [] { assert Flatten(gs[1..])[0] == gs[1][0]; }
      RowCons(f, 0, c, rest);
      assert ([c] + rest)[1..] == rest;
    }
  }

  lemma {:induction false} RowParts(f: Format, level: nat, a: seq<Child>, b: seq<Child>)
    requires Row(f, level, a + b)
    ensures Row(f, level, a) && Row(f, level, b)
    ensures a != [] && b != [] ==> a[|a| - 1].last < b[0].first
  {
    var s := a + b;
    forall i | 0 <= i < |a| ensures s[i] == a[i] { }
    forall i | 0 <= i < |b| ensures s[|a| + i] == b[i] { }
    forall i, j | 0 <= i < j < |a| ensures a[i].last < a[j].first { assert s[i] == a[i] && s[j] == a[j]; }
    forall i, j | 0 <= i < j < |b| ensures b[i].last < b[j].first { assert s[|a| + i] == b[i] && s[|a| + j] == b[j]; }
    if a != [] && b != [] { assert s[|a| - 1] == a[|a| - 1] && s[|a|] == b[0]; }
  }

  lemma {:induction false} BranchHead(f: Format, height: nat, cs: seq<Child>)
    requires ValidFormat(f) && 0 < height && cs != [] && Row(f, height - 1, cs)
    requires PageFits(cs, f.childBytes, f.branchHeader(height), f.limit)
    ensures Row(f, height, [Describe(f, Branch(height, cs))])
    ensures Describe(f, Branch(height, cs)).first == cs[0].first
    ensures Describe(f, Branch(height, cs)).last == cs[|cs| - 1].last
  {
    assert WellFormed(f, Branch(height, cs));
    DescribeIsExact(f, Branch(height, cs));
  }

  lemma {:induction false} BranchRowIsRow(f: Format, height: nat, gs: seq<seq<Child>>)
    requires ValidFormat(f) && 0 < height && Row(f, height - 1, Flatten(gs))
    requires forall i :: 0 <= i < |gs| ==> gs[i] != [] && PageFits(gs[i], f.childBytes, f.branchHeader(height), f.limit)
    ensures Row(f, height, BranchRow(f, height, gs)) && Concat(BranchRow(f, height, gs)) == Concat(Flatten(gs))
    ensures |BranchRow(f, height, gs)| == |gs|
    ensures gs != [] ==> BranchRow(f, height, gs)[0].first == Flatten(gs)[0].first
  {
    hide Row, Describe, BranchRow, Concat, Flatten, ValidFormat, PageFits, Entries;
    if gs == [] {
      NoBranchRow(f, height);
    } else {
      BranchRowStep(f, height, gs);
      var tail := Flatten(gs[1..]);
      RowParts(f, height - 1, gs[0], tail);
      BranchRowIsRow(f, height, gs[1..]);
      BranchHead(f, height, gs[0]);
      var c, rest := Describe(f, Branch(height, gs[0])), BranchRow(f, height, gs[1..]);
      RowCons(f, height, c, rest);
      ConcatAppend(gs[0], tail);
    }
  }

  lemma {:induction false} NoBranchRow(f: Format, height: nat)
    ensures BranchRow(f, height, []) == [] && Flatten<Child>([]) == [] && Row(f, height, [])
  {
  }

  lemma {:induction false} BranchRowStep(f: Format, height: nat, gs: seq<seq<Child>>)
    requires gs != [] && forall i :: 0 <= i < |gs| ==> gs[i] != []
    ensures var c, rest := Describe(f, Branch(height, gs[0])), BranchRow(f, height, gs[1..]);
            && BranchRow(f, height, gs) == [c] + rest && Concat([c] + rest) == Concat(gs[0]) + Concat(rest)
    ensures Flatten(gs) == gs[0] + Flatten(gs[1..])
    ensures gs[1..] != [] ==> Flatten(gs[1..]) != [] && Flatten(gs[1..])[0] == gs[1][0]
  {
    var c, rest := Describe(f, Branch(height, gs[0])), BranchRow(f, height, gs[1..]);
    assert ([c] + rest)[1..] == rest;
  }

  /** The leaves that a sorted run of entries is cut into. */
  function LeafPages(f: Format, es: seq<Entry>): Option<seq<Child>> {
    var gs := Groups(es, f.entryBytes, f.leafHeader, f.limit);
    if gs.None? then None else Some(LeafRow(f, gs.value))
  }

  /** The parents that a row of siblings is cut into. */
  function BranchPages(f: Format, height: nat, cs: seq<Child>): Option<seq<Child>> {
    var gs := Groups(cs, f.childBytes, f.branchHeader(height), f.limit);
    if gs.None? then None else Some(BranchRow(f, height, gs.value))
  }

  /** Leaves keep the entries in order, and exist exactly when every entry fits in a page of its own. */
  lemma {:induction false} LeafPagesOk(f: Format, es: seq<Entry>)
    requires ValidFormat(f) && Sorted(es)
    ensures LeafPages(f, es).Some? <==> forall i :: 0 <= i < |es| ==> FitsAlone(es[i], f.entryBytes, f.leafHeader, f.limit)
    ensures LeafPages(f, es).Some? ==> Row(f, 0, LeafPages(f, es).value) && Concat(LeafPages(f, es).value) == es
  {
    GroupsFailIff(es, f.entryBytes, f.leafHeader, f.limit);
    var groups := Groups(es, f.entryBytes, f.leafHeader, f.limit);
    if groups.Some? {
      GroupsAreGreedy(es, f.entryBytes, f.leafHeader, f.limit);
      LeafRowIsRow(f, groups.value);
    }
  }

  lemma {:induction false} PairFits(f: Format, height: nat, cs: seq<Child>)
    requires ValidFormat(f) && 2 <= |cs|
    ensures PageFits(cs[..2], f.childBytes, f.branchHeader(height), f.limit)
  {
    assert cs[..2][..1] == [cs[0]];
    assert f.branchHeader(height) + f.childBytes(cs[0]) + 1 + f.childBytes(cs[1]) <= f.limit;
  }

  /** Two or more siblings always shrink, because any two descriptors fit in one page. */
  lemma {:induction false} GroupsShrink(f: Format, height: nat, cs: seq<Child>)
    requires ValidFormat(f)
    ensures Groups(cs, f.childBytes, f.branchHeader(height), f.limit).Some?
    ensures var n := |Groups(cs, f.childBytes, f.branchHeader(height), f.limit).value|;
            n <= |cs| && (2 <= |cs| ==> n < |cs|) && (cs != [] ==> 0 < n)
    decreases |cs|
  {
    if cs != [] {
      var header := f.branchHeader(height);
      assert header + f.childBytes(cs[0]) + 1 + f.childBytes(cs[0]) <= f.limit;
      PrefixIsMaximal(cs, f.childBytes, header, f.limit);
      var n := PagePrefix(cs, f.childBytes, header, f.limit);
      if 2 <= |cs| { PairFits(f, height, cs); }
      GroupsShrink(f, height, cs[n..]);
    }
  }

  /** Parents keep the entries of their children in order, and there are fewer of them. */
  lemma {:induction false} BranchPagesOk(f: Format, height: nat, cs: seq<Child>)
    requires ValidFormat(f) && 0 < height && Row(f, height - 1, cs)
    ensures BranchPages(f, height, cs).Some?
    ensures var row := BranchPages(f, height, cs).value;
            && Row(f, height, row) && Concat(row) == Concat(cs)
            && |row| <= |cs| && (2 <= |cs| ==> |row| < |cs|) && (cs != [] ==> row != [])
  {
    GroupsShrink(f, height, cs);
    GroupsAreGreedy(cs, f.childBytes, f.branchHeader(height), f.limit);
    BranchRowIsRow(f, height, Groups(cs, f.childBytes, f.branchHeader(height), f.limit).value);
  }

  /** writeLeafGroups */
  method WriteLeafGroups(f: Format, es: seq<Entry>) returns (r: Option<seq<Child>>)
    ensures r == LeafPages(f, es)
  {
    var groups := CutGroups(es, f.entryBytes, f.leafHeader, f.limit);
    if groups.None? { return None; }
    var gs, n, row: seq<Child> := groups.value, |groups.value|, [];
    while n > 0
      invariant 0 <= n <= |gs|
      invariant row == LeafRow(f, gs[n..])
    {
      n := n - 1;
      assert gs[n..][1..] == gs[n + 1..];
      row := [Describe(f, Leaf(gs[n]))] + row;
    }
    assert gs[0..] == gs;
    r := Some(row);
  }

  /** writeBranchGroups */
  method WriteBranchGroups(f: Format, height: nat, cs: seq<Child>) returns (r: Option<seq<Child>>)
    ensures r == BranchPages(f, height, cs)
  {
    var groups := CutGroups(cs, f.childBytes, f.branchHeader(height), f.limit);
    if groups.None? { return None; }
    var gs, n, row: seq<Child> := groups.value, |groups.value|, [];
    while n > 0
      invariant 0 <= n <= |gs|
      invariant row == BranchRow(f, height, gs[n..])
    {
      n := n - 1;
      assert gs[n..][1..] == gs[n + 1..];
      row := [Describe(f, Branch(height, gs[n]))] + row;
    }
    assert gs[0..] == gs;
    r := Some(row);
  }
}
