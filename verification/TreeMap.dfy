/** The tree as its users see it: apply, buildTree, rebuild, lookup and collect refine a finite map. */
module TreeMap {
  import opened Basics
  import opened PageGroups
  import opened DomainTree
  import opened TreeEdit
  import opened TreeApply

  /** A tree root: nothing for the empty tree, else the root page with its level and totals. */
  datatype Root = Empty | Root(page: Page, level: nat, count: nat, bytes: nat)

  ghost predicate ValidRoot(f: Format, r: Root) {
    r.Root? ==>
      && WellFormed(f, r.page) && r.level == Level(r.page)
      && r.count == |Entries(r.page)| && r.bytes == ValueBytes(Entries(r.page))
  }

  function Contents(r: Root): seq<Entry> {
    if r.Empty? then [] else Entries(r.page)
  }

  function RootOf(c: Child): Root {
    Root(c.page, c.level, c.count, c.bytes)
  }

  lemma {:induction false} RootIsValid(f: Format, level: nat, c: Child)
    requires Row(f, level, [c])
    ensures ValidRoot(f, RootOf(c)) && Contents(RootOf(c)) == Concat([c])
  {
    assert [c][0] == c;
    ChildEntries(f, c);
    assert Concat([c]) == Entries(c.page) + [];
  }

  lemma {:induction false} ContentsSorted(f: Format, r: Root)
    requires ValidRoot(f, r)
    ensures Sorted(Contents(r))
  {
    if r.Root? && r.page.Branch? { RowEntries(f, r.page.children); }
  }

  // ------------------------------------------------------------ level loop

  /** The root above a row of siblings: parents are written until one page is left. */
  function Raised(f: Format, height: nat, row: seq<Child>): Option<Root>
    decreases |row|
  {
    if row == [] then Some(Empty)
    else if |row| == 1 then Some(RootOf(row[0]))
    else
      var parents := BranchPages(f, height + 1, row);
      if parents.None? || |parents.value| >= |row| then None else Raised(f, height + 1, parents.value)
  }

  /** The tree that buildTree makes of sorted entries. */
  function Built(f: Format, es: seq<Entry>): Option<Root> {
    var leaves := LeafPages(f, es);
    if leaves.None? then None else Raised(f, 0, leaves.value)
  }

  /** Writes parents until one page is left; each pass has fewer pages than the one before. */
  method RaiseLevels(f: Format, pages: seq<Child>, ghost level: nat) returns (r: Root)
    requires ValidFormat(f) && Row(f, level, pages) && pages != []
    ensures ValidRoot(f, r) && r.Root? && Contents(r) == Concat(pages)
    ensures Some(r) == Raised(f, level, pages)
  {
    var row := pages;
    ghost var height := level;
    while |row| > 1
      invariant row != [] && Row(f, height, row) && Concat(row) == Concat(pages)
      invariant Raised(f, height, row) == Raised(f, level, pages)
      decreases |row|
    {
      assert row[0].level == height;
      BranchPagesOk(f, height + 1, row);
      var parents := WriteBranchGroups(f, row[0].level + 1, row);
      row := parents.value;
      height := height + 1;
    }
    assert row == [row[0]];
    RootIsValid(f, height, row[0]);
    r := RootOf(row[0]);
  }

  method BuildTree(f: Format, es: seq<Entry>) returns (r: Result<Root, ErrorKind>)
    requires ValidFormat(f) && Sorted(es)
    ensures r.Ok? <==> forall i :: 0 <= i < |es| ==> FitsAlone(es[i], f.entryBytes, f.leafHeader, f.limit)
    ensures r.Ok? ==> ValidRoot(f, r.value) && Contents(r.value) == es && Some(r.value) == Built(f, es)
  {
    if es == [] { return Ok(Empty); }
    LeafPagesOk(f, es);
    var pages := WriteLeafGroups(f, es);
    if pages.None? { return Err(Invalid); }
    assert pages.value != [];
    var root := RaiseLevels(f, pages.value, 0);
    r := Ok(root);
  }

  // --------------------------------------------------------- sorted batches

  predicate DistinctKeys(cs: seq<Change>) {
    forall i, j :: 0 <= i < j < |cs| ==> cs[i].key != cs[j].key
  }

  lemma {:induction false} ChangeAtConcat(a: seq<Change>, b: seq<Change>, k: Key)
    ensures ChangeAt(a + b, k) == if ChangeAt(b, k).Some? then ChangeAt(b, k) else ChangeAt(a, k)
  {
    if b == [] {
      assert a + b == a;
    } else {
      var n := |b| - 1;
      assert (a + b)[..|a| + n] == a + b[..n];
      ChangeAtConcat(a, b[..n], k);
    }
  }

  lemma {:induction false} ChangeAbsent(cs: seq<Change>, k: Key)
    requires forall i :: 0 <= i < |cs| ==> cs[i].key != k
    ensures ChangeAt(cs, k) == None
  {
    if cs != [] { ChangeAbsent(cs[..|cs| - 1], k); }
  }

  lemma {:induction false} InsertedChange(a: seq<Change>, b: seq<Change>, c: Change, k: Key)
    requires forall i :: 0 <= i < |b| ==> b[i].key != c.key
    ensures ChangeAt(a + [c] + b, k) == if k == c.key then Some(c) else ChangeAt(a + b, k)
  {
    ChangeAtConcat(a + [c], b, k);
    ChangeAtConcat(a, [c], k);
    ChangeAtConcat(a, b, k);
    ChangeAbsent(b, c.key);
    assert [c][..0] == [];
  }

  /** Puts one change at its place in a sorted batch. */
  method InsertChange(cs: seq<Change>, c: Change) returns (out: seq<Change>)
    requires SortedBatch(cs) && forall x :: x in cs ==> x.key != c.key
    ensures SortedBatch(out)
    ensures forall x :: x in out <==> x in cs || x == c
    ensures forall k :: ChangeAt(out, k) == if k == c.key then Some(c) else ChangeAt(cs, k)
  {
    hide ChangeAt;
    var i := 0;
    while i < |cs| && cs[i].key < c.key
      invariant 0 <= i <= |cs| && forall j :: 0 <= j < i ==> cs[j].key < c.key
    {
      i := i + 1;
    }
    var a, b := cs[..i], cs[i..];
    assert cs == a + b;
    forall j | i <= j < |cs| ensures c.key < cs[j].key { assert cs[j] in cs && cs[i] in cs; }
    forall k ensures ChangeAt(a + [c] + b, k) == if k == c.key then Some(c) else ChangeAt(cs, k) { InsertedChange(a, b, c, k); }
    InsertedInOrder(cs, i, c);
    hide SortedBatch;
    out := a + [c] + b;
  }

  lemma {:induction false} InsertedInOrder(cs: seq<Change>, i: nat, c: Change)
    requires SortedBatch(cs) && i <= |cs| && (forall j :: 0 <= j < i ==> cs[j].key < c.key)
    requires forall j :: i <= j < |cs| ==> c.key < cs[j].key
    ensures SortedBatch(cs[..i] + [c] + cs[i..])
  {
  }

  /** sort.Slice by key: the same changes, in ascending order. */
  method SortBatch(cs: seq<Change>) returns (out: seq<Change>)
    requires DistinctKeys(cs)
    ensures SortedBatch(out)
    ensures forall c :: c in out <==> c in cs
    ensures forall k :: ChangeAt(out, k) == ChangeAt(cs, k)
  {
    out := [];
    for n := 0 to |cs|
      invariant SortedBatch(out)
      invariant forall c :: c in out <==> c in cs[..n]
      invariant forall k :: ChangeAt(out, k) == ChangeAt(cs[..n], k)
    {
      assert cs[..n + 1][..n] == cs[..n] && cs[..n + 1] == cs[..n] + [cs[n]];
      out := InsertChange(out, cs[n]);
    }
    assert cs[..|cs|] == cs;
  }

  // ------------------------------------------------------------------ apply

  /** The entries that a batch leaves in an empty tree. */
  function Stored(cs: seq<Change>): seq<Entry> {
    if cs == [] then []
    else
      var n := |cs| - 1;
      if cs[n].delete then Stored(cs[..n]) else Stored(cs[..n]) + [EntryOf(cs[n])]
  }

  lemma {:induction false} StoredOk(cs: seq<Change>)
    requires SortedBatch(cs)
    ensures Sorted(Stored(cs))
    ensures forall e :: e in Stored(cs) <==> exists i :: 0 <= i < |cs| && !cs[i].delete && e == EntryOf(cs[i])
    ensures forall k :: At(Stored(cs), k) == Edited(None, ChangeAt(cs, k))
  {
    if cs != [] {
      var n := |cs| - 1;
      var rest := Stored(cs[..n]);
      StoredOk(cs[..n]);
      forall i | 0 <= i < |rest| ensures rest[i].key < cs[n].key { assert rest[i] in rest; }
      if cs[n].delete {
        AtAbsent(rest, cs[n].key);
      } else {
        var e := EntryOf(cs[n]);
        SortedAppend(rest, [e]);
        forall k ensures At(rest + [e], k) == Edited(None, ChangeAt(cs, k)) {
          AtConcat(rest, [e], k);
          AtAbsent(rest, cs[n].key);
          assert [e][1..] == [];
        }
      }
    }
  }

  lemma {:induction false} StoredOverflows(f: Format, cs: seq<Change>)
    requires SortedBatch(cs)
    ensures Oversized(f, cs) <==>
            !forall i :: 0 <= i < |Stored(cs)| ==> FitsAlone(Stored(cs)[i], f.entryBytes, f.leafHeader, f.limit)
  {
    StoredOk(cs);
    if Oversized(f, cs) {
      var i :| 0 <= i < |cs| && !cs[i].delete && !FitsAlone(EntryOf(cs[i]), f.entryBytes, f.leafHeader, f.limit);
      assert EntryOf(cs[i]) in Stored(cs);
    }
    if i :| 0 <= i < |Stored(cs)| && !FitsAlone(Stored(cs)[i], f.entryBytes, f.leafHeader, f.limit) {
      assert Stored(cs)[i] in Stored(cs);
    }
  }

  lemma {:induction false} SameOversized(f: Format, a: seq<Change>, b: seq<Change>)
    requires (forall c :: c in a <==> c in b) && Oversized(f, a)
    ensures Oversized(f, b)
  {
    var i :| 0 <= i < |a| && !a[i].delete && !FitsAlone(EntryOf(a[i]), f.entryBytes, f.leafHeader, f.limit);
    assert a[i] in b;
  }

  /** What a batch makes of a tree: a well-formed tree that agrees with the edited map on every key. */
  ghost predicate Applied(f: Format, before: Root, cs: seq<Change>, after: Root) {
    && ValidRoot(f, after)
    && forall k :: At(Contents(after), k) == Edited(At(Contents(before), k), ChangeAt(cs, k))
  }

  /** The last change of a key decides what the tree holds under it, and other keys keep their entries. */
  lemma {:induction false} AppliedMeans(f: Format, before: Root, cs: seq<Change>, after: Root)
    requires Applied(f, before, cs, after)
    ensures forall i :: 0 <= i < |cs| && (forall j :: i < j < |cs| ==> cs[j].key != cs[i].key) ==>
              At(Contents(after), cs[i].key) == if cs[i].delete then None else Some(Entry(cs[i].key, cs[i].value, cs[i].version))
    ensures forall k :: (forall i :: 0 <= i < |cs| ==> cs[i].key != k) ==> At(Contents(after), k) == At(Contents(before), k)
  {
    hide At, Contents, ValidRoot;
    forall i | 0 <= i < |cs| && forall j :: i < j < |cs| ==> cs[j].key != cs[i].key
      ensures At(Contents(after), cs[i].key) == if cs[i].delete then None else Some(Entry(cs[i].key, cs[i].value, cs[i].version))
    {
      ChangeAtLast(cs, i);
    }
    forall k | forall i :: 0 <= i < |cs| ==> cs[i].key != k ensures At(Contents(after), k) == At(Contents(before), k) {
      ChangeAbsent(cs, k);
    }
  }

  /**
    * apply: fails exactly when the batch stores a value that no page can hold, and otherwise
    * each changed key holds its new value and version, or nothing, and no other key changes.
    */
  method Apply(f: Format, root: Root, changes: seq<Change>) returns (r: Result<Root, ErrorKind>)
    requires ValidFormat(f) && ValidRoot(f, root) && DistinctKeys(changes)
    ensures r.Ok? <==> !Oversized(f, changes)
    ensures r.Ok? ==> Applied(f, root, changes, r.value)
    ensures r.Ok? ==> forall i :: 0 <= i < |changes| ==>
              At(Contents(r.value), changes[i].key) ==
              if changes[i].delete then None else Some(Entry(changes[i].key, changes[i].value, changes[i].version))
    ensures r.Ok? ==> forall k :: (forall i :: 0 <= i < |changes| ==> changes[i].key != k) ==>
              At(Contents(r.value), k) == At(Contents(root), k)
  {
    if changes == [] { return Ok(root); }
    var batch := SortBatch(changes);
    if Oversized(f, changes) { SameOversized(f, changes, batch); }
    if Oversized(f, batch) { SameOversized(f, batch, changes); }
    if root.Empty? {
      r := ApplyToEmpty(f, batch);
    } else {
      r := ApplyToPage(f, root.page, batch);
    }
    if r.Ok? { AppliedMeans(f, root, changes, r.value); }
  }

  method ApplyToEmpty(f: Format, batch: seq<Change>) returns (r: Result<Root, ErrorKind>)
    requires ValidFormat(f) && SortedBatch(batch)
    ensures r.Ok? <==> !Oversized(f, batch)
    ensures r.Ok? ==> Applied(f, Empty, batch, r.value)
  {
    var es: seq<Entry> := [];
    for n := 0 to |batch|
      invariant es == Stored(batch[..n])
    {
      assert batch[..n + 1][..n] == batch[..n];
      if !batch[n].delete { es := es + [EntryOf(batch[n])]; }
    }
    assert batch[..|batch|] == batch;
    StoredOk(batch);
    StoredOverflows(f, batch);
    r := BuildTree(f, es);
  }

  method ApplyToPage(f: Format, p: Page, batch: seq<Change>) returns (r: Result<Root, ErrorKind>)
    requires ValidFormat(f) && WellFormed(f, p) && SortedBatch(batch)
    ensures r.Ok? <==> !Oversized(f, batch)
    ensures r.Ok? ==>
              ValidRoot(f, r.value) && forall k :: At(Contents(r.value), k) == Edited(At(Entries(p), k), ChangeAt(batch, k))
  {
    var replacements := Rewrite(f, p, batch);
    if replacements.None? { return Err(Invalid); }
    if replacements.value == [] { return Ok(Empty); }
    var root := RaiseLevels(f, replacements.value, Level(p));
    r := Ok(root);
  }

  /** Any two results of one batch, however they were built, hold the same entries in the same order. */
  lemma {:induction false} AppliedIsUnique(f: Format, before: Root, cs: seq<Change>, a: Root, b: Root)
    requires Applied(f, before, cs, a) && Applied(f, before, cs, b)
    ensures Contents(a) == Contents(b)
    ensures a.Root? && b.Root? ==> a.count == b.count && a.bytes == b.bytes
  {
    ContentsSorted(f, a);
    ContentsSorted(f, b);
    SortedUnique(Contents(a), Contents(b));
  }

  // ----------------------------------------------------------------- lookup

  /** The child that can hold a key, if the recorded bounds and filter admit it. */
  method Descend(f: Format, p: Page, k: Key) returns (c: Option<Child>)
    requires WellFormed(f, p) && p.Branch?
    ensures c.Some? ==> c.value in p.children && At(Entries(p), k) == At(Entries(c.value.page), k)
    ensures c.None? ==> At(Entries(p), k) == None
  {
    var cs := p.children;
    var i := ChildIndex(f, p.height - 1, cs, k);
    AtRouted(f, p.height - 1, cs, k);
    ChildEntries(f, cs[i]);
    OutOfBounds(Entries(cs[i].page), cs[i].first, cs[i].last, k);
    if cs[i].first > k || cs[i].last < k { return None; }
    if cs[i].level == 0 && cs[i].filter.Some? && k !in cs[i].filter.value {
      assert cs[i].page.Leaf?;
      AtAbsent(cs[i].page.entries, k);
      return None;
    }
    c := Some(cs[i]);
  }

  lemma {:induction false} OutOfBounds(es: seq<Entry>, first: Key, last: Key, k: Key)
    requires Bounded(es, first, last)
    ensures k < first || last < k ==> At(es, k) == None
  {
    if k < first || last < k {
      forall i | 0 <= i < |es| ensures es[i].key != k {
        assert es[0].key <= es[i].key <= es[|es| - 1].key;
      }
      AtAbsent(es, k);
    }
  }

  /** lookup: walks from the root to one leaf and finds what the map holds. */
  method Lookup(f: Format, root: Root, k: Key) returns (v: Option<Entry>)
    requires ValidRoot(f, root)
    ensures v == At(Contents(root), k)
  {
    if root.Empty? { return None; }
    var p := root.page;
    while p.Branch?
      invariant WellFormed(f, p) && At(Entries(p), k) == At(Contents(root), k)
      decreases p
    {
      var c := Descend(f, p, k);
      if c.None? { return None; }
      assert c.value.page < c.value;
      p := c.value.page;
    }
    var i := SearchEntries(p.entries, k);
    if i == |p.entries| || p.entries[i].key != k {
      AtAbsent(p.entries, k);
      return None;
    }
    AtIndex(p.entries, i);
    v := Some(p.entries[i]);
  }

  // ---------------------------------------------------------------- collect

  /** The keys that start with one prefix are an interval that begins at the prefix itself. */
  datatype Range = AnyKey | Prefix(start: Key, end: Key)

  predicate InRange(r: Range, k: Key) {
    r.AnyKey? || r.start <= k < r.end
  }

  function Selected(es: seq<Entry>, r: Range, after: Key): seq<Entry> {
    if es == [] then []
    else (if after < es[0].key && InRange(r, es[0].key) then [es[0]] else []) + Selected(es[1..], r, after)
  }

  function Take<T>(s: seq<T>, n: nat): seq<T> {
    s[..Min(n, |s|)]
  }

  lemma {:induction false} SelectedConcat(a: seq<Entry>, b: seq<Entry>, r: Range, after: Key)
    ensures Selected(a + b, r, after) == Selected(a, r, after) + Selected(b, r, after)
  {
    if a == [] {
      assert a + b == b;
    } else {
      assert (a + b)[1..] == a[1..] + b;
      SelectedConcat(a[1..], b, r, after);
    }
  }

  lemma {:induction false} SelectedNone(es: seq<Entry>, r: Range, after: Key)
    requires forall i :: 0 <= i < |es| ==> !(after < es[i].key && InRange(r, es[i].key))
    ensures Selected(es, r, after) == []
  {
    if es != [] { SelectedNone(es[1..], r, after); }
  }

  lemma {:induction false} TakeMore<T>(a: seq<T>, b: seq<T>, n: nat)
    ensures |a| >= n ==> Take(a + b, n) == Take(a, n)
    ensures Take(Take(a, n) + b, n) == Take(a + b, n)
  {
  }

  /** The rest of a sorted run is out of range once a key lies past the prefix. */
  lemma {:induction false} PastRange(es: seq<Entry>, r: Range, after: Key)
    requires Sorted(es) && es != [] && r.Prefix? && r.start < es[0].key && !InRange(r, es[0].key)
    ensures Selected(es, r, after) == []
  {
    forall i | 0 <= i < |es| ensures !InRange(r, es[i].key) { assert es[0].key <= es[i].key; }
    SelectedNone(es, r, after);
  }

  method CollectLeaf(es: seq<Entry>, r: Range, after: Key, limit: nat, before: seq<Entry>) returns (out: seq<Entry>)
    requires Sorted(es) && |before| < limit
    ensures out == Take(before + Selected(es, r, after), limit)
  {
    hide Selected, Sorted;
    out := before;
    var i := 0;
    assert es[0..] == es;
    while i < |es|
      invariant 0 <= i <= |es| && |out| < limit
      invariant out + Selected(es[i..], r, after) == before + Selected(es, r, after)
    {
      var e := es[i];
      SelectedNext(es, i, r, after);
      if e.key > after {
        if r.Prefix? && !InRange(r, e.key) {
          if e.key > r.start {
            SuffixPastRange(es, i, r, after);
            return;
          }
        } else {
          assert (out + [e]) + Selected(es[i + 1..], r, after) == out + ([e] + Selected(es[i + 1..], r, after));
          out := out + [e];
          if |out| == limit { return; }
        }
      }
      i := i + 1;
    }
    SelectedEnd(es, r, after);
  }

  lemma {:induction false} SelectedNext(es: seq<Entry>, i: nat, r: Range, after: Key)
    requires i < |es|
    ensures Selected(es[i..], r, after) ==
            (if after < es[i].key && InRange(r, es[i].key) then [es[i]] else []) + Selected(es[i + 1..], r, after)
  {
    assert es[i..][1..] == es[i + 1..];
  }

  lemma {:induction false} SelectedEnd(es: seq<Entry>, r: Range, after: Key)
    ensures Selected(es[|es|..], r, after) == []
  {
  }

  lemma {:induction false} SuffixPastRange(es: seq<Entry>, i: nat, r: Range, after: Key)
    requires Sorted(es) && i < |es| && r.Prefix? && r.start < es[i].key && !InRange(r, es[i].key)
    ensures Selected(es[i..], r, after) == []
  {
    PastRange(es[i..], r, after);
  }

  /** Children outside the bounds hold nothing in range. */
  lemma {:induction false} ChildOutside(f: Format, c: Child, r: Range, after: Key)
    requires Describes(c) && WellFormed(f, c.page)
    requires c.last <= after || (r.Prefix? && c.last < r.start) || (r.Prefix? && r.start < c.first && !InRange(r, c.first))
    ensures Selected(Entries(c.page), r, after) == []
  {
    ChildEntries(f, c);
    var es := Entries(c.page);
    forall i | 0 <= i < |es| ensures !(after < es[i].key && InRange(r, es[i].key)) {
      assert es[0].key <= es[i].key <= es[|es| - 1].key;
    }
    SelectedNone(es, r, after);
  }

  lemma {:induction false} RowOutside(f: Format, level: nat, cs: seq<Child>, r: Range, after: Key)
    requires Row(f, level, cs) && cs != []
    requires r.Prefix? && r.start < cs[0].first && !InRange(r, cs[0].first)
    ensures Selected(Concat(cs), r, after) == []
  {
    RowEntries(f, cs);
    PastRange(Concat(cs), r, after);
  }

  lemma {:induction false} SelectedChild(cs: seq<Child>, n: nat, r: Range, after: Key)
    requires n < |cs|
    ensures Selected(Concat(cs[n..]), r, after) ==
            Selected(Entries(cs[n].page), r, after) + Selected(Concat(cs[n + 1..]), r, after)
  {
    assert cs[n..][1..] == cs[n + 1..];
    SelectedConcat(Entries(cs[n].page), Concat(cs[n + 1..]), r, after);
  }

  lemma {:induction false} CollectStep(done: seq<Entry>, part: seq<Entry>, rest: seq<Entry>, limit: nat)
    ensures Take(Take(done + part, limit) + rest, limit) == Take(done + (part + rest), limit)
    ensures |Take(done + part, limit)| <= limit
    ensures |Take(done + part, limit)| == limit ==> Take(done + part, limit) == Take(done + (part + rest), limit)
  {
    TakeMore(done + part, rest, limit);
    assert (done + part) + rest == done + (part + rest);
  }

  /** The recursive visit of collect: prunes by bounds, and stops when the result is full. */
  method Visit(f: Format, p: Page, r: Range, after: Key, limit: nat, before: seq<Entry>) returns (out: seq<Entry>)
    requires WellFormed(f, p) && |before| < limit
    ensures out == Take(before + Selected(Entries(p), r, after), limit)
    decreases p, 1
  {
    match p
    case Leaf(es) => out := CollectLeaf(es, r, after, limit, before);
    case Branch(height, cs) => out := VisitChildren(f, height - 1, cs, r, after, limit, before);
  }

  method VisitChildren(f: Format, ghost level: nat, cs: seq<Child>, r: Range, after: Key, limit: nat, before: seq<Entry>)
    returns (out: seq<Entry>)
    requires Row(f, level, cs) && |before| < limit
    ensures out == Take(before + Selected(Concat(cs), r, after), limit)
    decreases cs, 0
  {
    hide Selected, Concat, Take;
    out := before;
    ghost var all := Take(before + Selected(Concat(cs), r, after), limit);
    assert cs[0..] == cs;
    var n := 0;
    while n < |cs| && |out| < limit
      invariant 0 <= n <= |cs| && |out| <= limit
      invariant Take(out + Selected(Concat(cs[n..]), r, after), limit) == all
      decreases |cs| - n
    {
      var c := cs[n];
      assert c.page < c && Describes(c) && WellFormed(f, c.page);
      SelectedChild(cs, n, r, after);
      ghost var part, rest := Selected(Entries(c.page), r, after), Selected(Concat(cs[n + 1..]), r, after);
      if c.last <= after || (r.Prefix? && c.last < r.start) {
        ChildOutside(f, c, r, after);
        assert [] + rest == rest;
      } else if r.Prefix? && c.first > r.start && !InRange(r, c.first) {
        RowSuffix(f, level, cs, n);
        RowOutside(f, level, cs[n..], r, after);
        TakeAll(out, limit);
        return;
      } else {
        CollectStep(out, part, rest, limit);
        out := Visit(f, c.page, r, after, limit, out);
      }
      n := n + 1;
    }
    CollectEnd(cs, n, out, r, after, limit);
  }

  lemma {:induction false} TakeAll<T>(s: seq<T>, n: nat)
    requires |s| <= n
    ensures Take(s + [], n) == s
  {
  }

  lemma {:induction false} CollectEnd(cs: seq<Child>, n: nat, out: seq<Entry>, r: Range, after: Key, limit: nat)
    requires n <= |cs| && |out| <= limit && (n == |cs| || |out| == limit)
    ensures Take(out + Selected(Concat(cs[n..]), r, after), limit) == out
  {
    if n == |cs| { assert cs[n..] == [] && out + [] == out; }
  }

  lemma {:induction false} RowSuffix(f: Format, level: nat, cs: seq<Child>, n: nat)
    requires Row(f, level, cs) && n <= |cs|
    ensures Row(f, level, cs[n..])
  {
    assert cs[..n] + cs[n..] == cs;
    RowParts(f, level, cs[..n], cs[n..]);
  }

  /** collect: the first `limit` entries in range above `after`. */
  method Collect(f: Format, root: Root, r: Range, after: Key, limit: int) returns (out: seq<Entry>)
    requires ValidRoot(f, root)
    ensures out == Take(Selected(Contents(root), r, after), if limit < 0 then 0 else limit)
  {
    if root.Empty? || limit <= 0 { return []; }
    assert [] + Selected(Contents(root), r, after) == Selected(Contents(root), r, after);
    out := Visit(f, root.page, r, after, limit, []);
  }
}
