/**
  * The checkpoint inventory: pages of object metadata, each naming the digest of
  * the page before it. A digest is injective, so a digest is the body it commits to.
  */
module Inventory {
  import opened Basics
  import opened Metadata

  const PAGE_ENTRIES := 512

  datatype Digest = Seed(checkpoint: nat, epoch: nat) | Of(page: Page)

  datatype Page = Page(checkpoint: nat, epoch: nat, index: nat, previous: Digest, entries: seq<Listed>)

  datatype Checkpoint = Checkpoint(id: nat, epoch: nat, pageCount: nat, stateCount: nat, fileCount: nat, digest: Digest)

  /** The inventory pages of one checkpoint in the object store, by index. */
  type Store = map<nat, Page>

  /** How keys are classified. */
  datatype Rules = Rules(isFile: Key -> bool, transient: Key -> bool)

  predicate Attested(x: Listed) {
    x.info.key != 0 && x.info.md5.Some? && x.info.crc.Some?
  }

  predicate ValidEntry(rules: Rules, x: Listed) {
    Attested(x) && !rules.transient(x.info.key) && x.file == rules.isFile(x.info.key)
  }

  predicate ValidEntries(rules: Rules, es: seq<Listed>) {
    OrderedListing(es) && forall i :: 0 <= i < |es| ==> ValidEntry(rules, es[i])
  }

  function Count(es: seq<Listed>, file: bool): nat {
    if es == [] then 0 else Count(es[..|es| - 1], file) + if es[|es| - 1].file == file then 1 else 0
  }

  /** The count is the number of entries of the role. */
  lemma {:induction false} CountIs(es: seq<Listed>, file: bool)
    ensures Count(es, file) == |set i | 0 <= i < |es| && es[i].file == file|
  {
    if es != [] {
      var n := |es| - 1;
      CountIs(es[..n], file);
      var before, now := set i | 0 <= i < n && es[..n][i].file == file, set i | 0 <= i < |es| && es[i].file == file;
      assert now == if es[n].file == file then before + {n} else before;
    }
  }

  lemma {:induction false} RoleCounts(es: seq<Listed>)
    ensures Count(es, false) == |set i | 0 <= i < |es| && !es[i].file|
    ensures Count(es, true) == |set i | 0 <= i < |es| && es[i].file|
  {
    CountIs(es, false);
    CountIs(es, true);
    assert (set i | 0 <= i < |es| && es[i].file == false) == (set i | 0 <= i < |es| && !es[i].file);
    assert (set i | 0 <= i < |es| && es[i].file == true) == (set i | 0 <= i < |es| && es[i].file);
  }

  /** The pages that the entries are cut into, from a given point of the chain. */
  function PagesFrom(id: nat, epoch: nat, index: nat, previous: Digest, es: seq<Listed>): seq<Page>
    decreases |es|
  {
    if es == [] then []
    else
      var n := Min(PAGE_ENTRIES, |es|);
      var p := Page(id, epoch, index, previous, es[..n]);
      [p] + PagesFrom(id, epoch, index + 1, Of(p), es[n..])
  }

  function Pages(id: nat, epoch: nat, es: seq<Listed>): seq<Page> {
    PagesFrom(id, epoch, 0, Seed(id, epoch), es)
  }

  function LastDigest(first: Digest, pages: seq<Page>): Digest {
    if pages == [] then first else Of(pages[|pages| - 1])
  }

  /** The checkpoint that commits to an inventory. */
  function Summary(id: nat, epoch: nat, es: seq<Listed>): Checkpoint {
    var pages := Pages(id, epoch, es);
    Checkpoint(id, epoch, |pages|, Count(es, false), Count(es, true), LastDigest(Seed(id, epoch), pages))
  }

  function Flat(pages: seq<Page>): seq<Listed> {
    if pages == [] then [] else Flat(pages[..|pages| - 1]) + pages[|pages| - 1].entries
  }

  // ---------------------------------------------------------------- writing

  /** Pages already in the store are the ones this inventory writes, as after a crash and restart. */
  predicate Resumable(store: Store, pages: seq<Page>) {
    forall i :: i in store ==> i < |pages| && store[i] == pages[i]
  }

  function Stored(pages: seq<Page>): Store {
    map i | 0 <= i < |pages| :: pages[i]
  }

  lemma {:induction false} FullBuffer(id: nat, epoch: nat, index: nat, previous: Digest, buffer: seq<Listed>, rest: seq<Listed>)
    requires buffer != [] && (|buffer| == PAGE_ENTRIES || (|buffer| < PAGE_ENTRIES && rest == []))
    ensures var p := Page(id, epoch, index, previous, buffer);
            PagesFrom(id, epoch, index, previous, buffer + rest) == [p] + PagesFrom(id, epoch, index + 1, Of(p), rest)
  {
    var es, n := buffer + rest, |buffer|;
    assert es[..n] == buffer && es[n..] == rest;
  }

  /** Create-only PUT of a page; an existing page must have exactly the same body. */
  method PutPage(store: Store, page: Page) returns (r: Result<Store, ErrorKind>)
    ensures r.Ok? <==> page.index !in store || store[page.index] == page
    ensures r.Ok? ==> r.value == store[page.index := page]
  {
    if page.index in store {
      if store[page.index] != page { return Err(PreconditionFailed); }
      assert store[page.index := page] == store;
      return Ok(store);
    }
    r := Ok(store[page.index := page]);
  }

  /** What a writer that has flushed the first pages still has to do. */
  ghost predicate Writing(id: nat, epoch: nat, es: seq<Listed>, pages: seq<Page>, buffer: seq<Listed>, n: nat) {
    && n <= |es| && |buffer| < PAGE_ENTRIES
    && Pages(id, epoch, es) ==
       pages + PagesFrom(id, epoch, |pages|, LastDigest(Seed(id, epoch), pages), buffer + es[n..])
  }

  lemma {:induction false} WriterStarts(id: nat, epoch: nat, es: seq<Listed>)
    ensures Writing(id, epoch, es, [], [], 0)
  {
    assert [] + es[0..] == es;
    assert [] + PagesFrom(id, epoch, 0, Seed(id, epoch), es) == PagesFrom(id, epoch, 0, Seed(id, epoch), es);
  }

  lemma {:induction false} WriterBuffers(id: nat, epoch: nat, es: seq<Listed>, pages: seq<Page>, buffer: seq<Listed>, n: nat)
    requires Writing(id, epoch, es, pages, buffer, n) && n < |es|
    ensures |buffer| + 1 < PAGE_ENTRIES ==> Writing(id, epoch, es, pages, buffer + [es[n]], n + 1)
    ensures |buffer| + 1 == PAGE_ENTRIES ==>
              var p := Page(id, epoch, |pages|, LastDigest(Seed(id, epoch), pages), buffer + [es[n]]);
              Writing(id, epoch, es, pages + [p], [], n + 1)
  {
    assert buffer + es[n..] == (buffer + [es[n]]) + es[n + 1..];
    if |buffer| + 1 == PAGE_ENTRIES {
      WriterFlushes(id, epoch, es, pages, buffer + [es[n]], n + 1);
    }
  }

  lemma {:induction false} WriterFlushes(id: nat, epoch: nat, es: seq<Listed>, pages: seq<Page>, buffer: seq<Listed>, n: nat)
    requires n <= |es| && buffer != [] && (|buffer| == PAGE_ENTRIES || (|buffer| < PAGE_ENTRIES && n == |es|))
    requires Pages(id, epoch, es) == pages + PagesFrom(id, epoch, |pages|, LastDigest(Seed(id, epoch), pages), buffer + es[n..])
    ensures var p := Page(id, epoch, |pages|, LastDigest(Seed(id, epoch), pages), buffer);
            Writing(id, epoch, es, pages + [p], [], n)
  {
    var previous := LastDigest(Seed(id, epoch), pages);
    var p := Page(id, epoch, |pages|, previous, buffer);
    FullBuffer(id, epoch, |pages|, previous, buffer, es[n..]);
    var rest := PagesFrom(id, epoch, |pages| + 1, Of(p), es[n..]);
    assert pages + ([p] + rest) == (pages + [p]) + rest;
    assert [] + es[n..] == es[n..];
  }

  /** The store holds the pages written so far, and otherwise what it held before. */
  ghost predicate Filled(before: Store, after: Store, pages: seq<Page>) {
    && (forall i :: 0 <= i < |pages| ==> i in after && after[i] == pages[i] && (i in before ==> before[i] == pages[i]))
    && (forall i: nat :: i in after <==> i in before || i < |pages|)
    && (forall i :: i in before && |pages| <= i ==> after[i] == before[i])
  }

  /** A page conflicts exactly when the store cannot be the start of this inventory. */
  lemma {:induction false} ConflictStops(id: nat, epoch: nat, es: seq<Listed>, pages: seq<Page>, buffer: seq<Listed>, n: nat,
                                         before: Store, after: Store, p: Page)
    requires Writing(id, epoch, es, pages + [p], buffer, n) && Filled(before, after, pages) && p.index == |pages|
    ensures p.index in after && after[p.index] != p ==> !Resumable(before, Pages(id, epoch, es))
    ensures p.index !in after || after[p.index] == p ==> Filled(before, after[p.index := p], pages + [p])
  {
    assert Pages(id, epoch, es)[|pages|] == p;
  }

  /** The role and key of an object. */
  function Object(x: Listed): (bool, Key) {
    (x.file, x.info.key)
  }

  predicate Distinct(es: seq<Listed>) {
    forall i, j :: 0 <= i < j < |es| ==> Object(es[i]) != Object(es[j])
  }

  lemma {:induction false} DistinctNext(es: seq<Listed>, n: nat, seen: set<(bool, Key)>)
    requires n < |es| && Distinct(es[..n]) && (forall o :: o in seen <==> exists i :: 0 <= i < n && Object(es[i]) == o)
    ensures Distinct(es[..n + 1]) <==> Object(es[n]) !in seen
    ensures Distinct(es) ==> Distinct(es[..n + 1])
  {
    hide Object;
    assert es[..n + 1][n] == es[n];
    if Object(es[n]) !in seen {
      var next := es[..n + 1];
      forall i, j | 0 <= i < j < |next| ensures Object(next[i]) != Object(next[j]) {
        assert j < n ==> es[..n][i] == es[i] && es[..n][j] == es[j];
      }
    }
    if Distinct(es[..n + 1]) {
      forall i | 0 <= i < n ensures Object(es[i]) != Object(es[n]) { assert es[..n + 1][i] == es[i]; }
    }
  }

  /**
    * prepareCheckpointInventoryMetadata: succeeds exactly when there is something to
    * record, every object is attested, none repeats where objects are tracked for the
    * garbage plan, and the store holds no other page for this checkpoint; the checkpoint
    * it returns is the summary of the metadata, and the tracked objects are all of it.
    */
  method WriteInventory(id: nat, epoch: nat, es: seq<Listed>, store: Store, tracked: bool)
    returns (r: Result<(Store, Checkpoint), ErrorKind>, seen: set<(bool, Key)>)
    ensures r.Ok? <==>
            && es != [] && (forall i :: 0 <= i < |es| ==> Attested(es[i])) && (tracked ==> Distinct(es))
            && Resumable(store, Pages(id, epoch, es))
    ensures r.Ok? && tracked ==> forall o :: o in seen <==> exists i :: 0 <= i < |es| && Object(es[i]) == o
    ensures r.Ok? ==> r.value == (Stored(Pages(id, epoch, es)), Summary(id, epoch, es))
    ensures r.Ok? ==> r.value.1.stateCount == |set i | 0 <= i < |es| && !es[i].file|
    ensures r.Ok? ==> r.value.1.fileCount == |set i | 0 <= i < |es| && es[i].file|
  {
    hide Writing, PagesFrom, Filled, Resumable, Distinct, Object;
    seen := {};
    assert Distinct(es[..0]) by { NoneRepeats(es[..0]); }
    var current, buffer: seq<Listed>, previous, index := store, [], Seed(id, epoch), 0;
    ghost var pages: seq<Page> := [];
    var state, file := 0, 0;
    WriterStarts(id, epoch, es);
    NothingFilled(store);
    for n := 0 to |es|
      invariant Writing(id, epoch, es, pages, buffer, n) && Filled(store, current, pages)
      invariant |buffer| < PAGE_ENTRIES && index == |pages| && previous == LastDigest(Seed(id, epoch), pages)
      invariant state == Count(es[..n], false) && file == Count(es[..n], true)
      invariant forall i :: 0 <= i < n ==> Attested(es[i])
      invariant tracked ==> Distinct(es[..n])
      invariant tracked ==> forall o :: o in seen <==> exists i :: 0 <= i < n && Object(es[i]) == o
    {
      if !(es[n].info.key != 0 && es[n].info.md5.Some? && es[n].info.crc.Some?) { return Err(PreconditionFailed), seen; }
      assert es[..n + 1][..n] == es[..n];
      if es[n].file { file := file + 1; } else { state := state + 1; }
      WriterBuffers(id, epoch, es, pages, buffer, n);
      buffer := buffer + [es[n]];
      if tracked {
        DistinctNext(es, n, seen);
        if Object(es[n]) in seen { return Err(PreconditionFailed), seen; }
        seen := seen + {Object(es[n])};
      }
      if |buffer| == PAGE_ENTRIES {
        var page := Page(id, epoch, index, previous, buffer);
        ConflictStops(id, epoch, es, pages, [], n + 1, store, current, page);
        var put := PutPage(current, page);
        if put.Err? { return Err(PreconditionFailed), seen; }
        current, previous, index, buffer, pages := put.value, Of(page), index + 1, [], pages + [page];
      }
    }
    assert es[..|es|] == es;
    if buffer != [] {
      var page := Page(id, epoch, index, previous, buffer);
      LastPage(id, epoch, es, pages, buffer);
      ConflictStops(id, epoch, es, pages, [], |es|, store, current, page);
      var put := PutPage(current, page);
      if put.Err? { return Err(PreconditionFailed), seen; }
      current, previous, index, buffer, pages := put.value, Of(page), index + 1, [], pages + [page];
    }
    WriterEnds(id, epoch, es, pages, store, current);
    RoleCounts(es);
    if index == 0 || exists i :: i in current && i >= index { return Err(PreconditionFailed), seen; }
    r := Ok((current, Checkpoint(id, epoch, index, state, file, previous)));
  }

  lemma {:induction false} NoneRepeats(es: seq<Listed>)
    requires es == []
    ensures Distinct(es)
  {
  }

  lemma {:induction false} NothingFilled(store: Store)
    ensures Filled(store, store, [])
  {
  }

  lemma {:induction false} LastPage(id: nat, epoch: nat, es: seq<Listed>, pages: seq<Page>, buffer: seq<Listed>)
    requires Writing(id, epoch, es, pages, buffer, |es|) && buffer != []
    ensures Writing(id, epoch, es, pages + [Page(id, epoch, |pages|, LastDigest(Seed(id, epoch), pages), buffer)], [], |es|)
  {
    WriterFlushes(id, epoch, es, pages, buffer, |es|);
  }

  lemma {:induction false} WriterEnds(id: nat, epoch: nat, es: seq<Listed>, pages: seq<Page>, before: Store, after: Store)
    requires Writing(id, epoch, es, pages, [], |es|) && Filled(before, after, pages)
    ensures pages == Pages(id, epoch, es) && (pages == [] <==> es == [])
    ensures (exists i :: i in after && i >= |pages|) <==> !Resumable(before, pages)
    ensures Resumable(before, pages) ==> after == Stored(pages)
  {
    assert [] + es[|es|..] == [];
    assert pages + [] == pages;
    if !Resumable(before, pages) {
      var i :| i in before && !(i < |pages| && before[i] == pages[i]);
      assert i in after && i >= |pages|;
    }
    if i :| i in after && i >= |pages| { assert i in before; }
  }

  // ---------------------------------------------------------------- reading

  function Loaded(store: Store, count: nat): seq<Page>
    requires forall i :: 0 <= i < count ==> i in store
  {
    seq(count, i requires 0 <= i < count => store[i])
  }

  ghost predicate LinkedAt(cp: Checkpoint, pages: seq<Page>, i: nat)
    requires i < |pages|
  {
    var p := pages[i];
    && p.checkpoint == cp.id && p.epoch == cp.epoch && p.index == i && 0 < |p.entries| <= PAGE_ENTRIES
    && p.previous == if i == 0 then Seed(cp.id, cp.epoch) else Of(pages[i - 1])
  }

  ghost predicate Linked(cp: Checkpoint, pages: seq<Page>) {
    forall i :: 0 <= i < |pages| ==> LinkedAt(cp, pages, i)
  }

  /** An inventory that a reader accepts. */
  ghost predicate Readable(rules: Rules, store: Store, cp: Checkpoint) {
    && (forall i: nat :: i in store <==> i < cp.pageCount)
    && var pages := Loaded(store, cp.pageCount);
       var es := Flat(pages);
       && Linked(cp, pages) && ValidEntries(rules, es)
       && LastDigest(Seed(cp.id, cp.epoch), pages) == cp.digest
       && Count(es, false) == cp.stateCount && Count(es, true) == cp.fileCount
  }

  /** The entries of one page, checked against the last key before them. */
  method CheckEntries(rules: Rules, before: seq<Listed>, entries: seq<Listed>) returns (ok: bool)
    requires ValidEntries(rules, before)
    ensures ok <==> ValidEntries(rules, before + entries)
  {
    var previous := if before == [] then 0 else before[|before| - 1].info.key;
    for n := 0 to |entries|
      invariant ValidEntries(rules, before + entries[..n])
      invariant previous == if before + entries[..n] == [] then 0 else (before + entries[..n])[|before| + n - 1].info.key
    {
      var x := entries[n];
      ghost var done := before + entries[..n];
      assert before + entries[..n + 1] == done + [x];
      NextEntry(rules, done, x, before + entries, |before| + n);
      if !(x.info.key != 0 && x.info.md5.Some? && x.info.crc.Some?) || rules.transient(x.info.key) ||
         x.file != rules.isFile(x.info.key) || (previous != 0 && x.info.key <= previous) {
        return false;
      }
      previous := x.info.key;
    }
    assert entries[..|entries|] == entries;
    ok := true;
  }

  lemma {:induction false} NextEntry(rules: Rules, done: seq<Listed>, x: Listed, all: seq<Listed>, n: nat)
    requires ValidEntries(rules, done) && n < |all| && done == all[..n] && x == all[n]
    ensures ValidEntries(rules, done + [x]) <==>
            ValidEntry(rules, x) && (done == [] || done[n - 1].info.key < x.info.key)
    ensures ValidEntries(rules, all) ==> ValidEntries(rules, done + [x])
  {
    var next := done + [x];
    assert next == all[..n + 1];
    assert next[n] == x;
    if done != [] && ValidEntries(rules, next) { assert next[n - 1].info.key < next[n].info.key; }
    if ValidEntry(rules, x) && (done == [] || done[n - 1].info.key < x.info.key) {
      forall i, j | 0 <= i < j < |next| ensures next[i].info.key < next[j].info.key {
        if j == n && i < n - 1 { assert done[i].info.key < done[n - 1].info.key; }
      }
    }
  }

  lemma {:induction false} CountAppend(a: seq<Listed>, b: seq<Listed>, file: bool)
    ensures Count(a + b, file) == Count(a, file) + Count(b, file)
  {
    if b == [] {
      assert a + b == a;
    } else {
      assert (a + b)[..|a| + |b| - 1] == a + b[..|b| - 1];
      CountAppend(a, b[..|b| - 1], file);
    }
  }

  lemma {:induction false} FlatPrefix(rules: Rules, pages: seq<Page>, n: nat)
    requires n <= |pages|
    ensures Flat(pages[..n]) <= Flat(pages)
    ensures ValidEntries(rules, Flat(pages)) ==> ValidEntries(rules, Flat(pages[..n]))
  {
    if n < |pages| {
      var m := |pages| - 1;
      FlatPrefix(rules, pages[..m], n);
      assert pages[..m][..n] == pages[..n];
      if ValidEntries(rules, Flat(pages)) { ValidPrefix(rules, Flat(pages[..m]), pages[m].entries); }
    } else {
      assert pages[..n] == pages;
    }
  }

  lemma {:induction false} ValidPrefix(rules: Rules, a: seq<Listed>, b: seq<Listed>)
    requires ValidEntries(rules, a + b)
    ensures ValidEntries(rules, a)
  {
    forall i | 0 <= i < |a| ensures ValidEntry(rules, a[i]) { assert (a + b)[i] == a[i]; }
    forall i, j | 0 <= i < j < |a| ensures a[i].info.key < a[j].info.key { assert (a + b)[i] == a[i] && (a + b)[j] == a[j]; }
  }

  /** The pages that were read so far hang together, and their entries are valid. */
  ghost predicate ReadSoFar(rules: Rules, cp: Checkpoint, pages: seq<Page>, es: seq<Listed>) {
    Linked(cp, pages) && es == Flat(pages) && ValidEntries(rules, es)
  }

  lemma {:induction false} ReadPage(rules: Rules, cp: Checkpoint, store: Store, n: nat, es: seq<Listed>)
    requires n < cp.pageCount && (forall i :: 0 <= i <= n ==> i in store) && ReadSoFar(rules, cp, Loaded(store, n), es)
    ensures ReadSoFar(rules, cp, Loaded(store, n + 1), es + store[n].entries) <==>
            LinkedAt(cp, Loaded(store, n + 1), n) && ValidEntries(rules, es + store[n].entries)
    ensures Readable(rules, store, cp) ==> ReadSoFar(rules, cp, Loaded(store, n + 1), es + store[n].entries)
  {
    var pages, next := Loaded(store, n), Loaded(store, n + 1);
    assert next[..n] == pages;
    forall i | 0 <= i < n ensures LinkedAt(cp, next, i) <==> LinkedAt(cp, pages, i) { }
    if Readable(rules, store, cp) {
      var all := Loaded(store, cp.pageCount);
      assert all[..n + 1] == next;
      FlatPrefix(rules, all, n + 1);
      assert LinkedAt(cp, all, n);
    }
  }

  lemma {:induction false} ReadEnds(rules: Rules, cp: Checkpoint, store: Store, es: seq<Listed>)
    requires (forall i :: 0 <= i < cp.pageCount ==> i in store) && ReadSoFar(rules, cp, Loaded(store, cp.pageCount), es)
    ensures Readable(rules, store, cp) <==>
            && LastDigest(Seed(cp.id, cp.epoch), Loaded(store, cp.pageCount)) == cp.digest
            && Count(es, false) == cp.stateCount && Count(es, true) == cp.fileCount
            && forall i :: i in store ==> i < cp.pageCount
    ensures es == Flat(Loaded(store, cp.pageCount))
  {
  }

  /** visitCheckpointInventory: accepts exactly the readable inventories, and visits their entries in order. */
  method VisitInventory(rules: Rules, store: Store, cp: Checkpoint) returns (r: Result<seq<Listed>, ErrorKind>)
    ensures r.Ok? <==> Readable(rules, store, cp)
    ensures r.Ok? ==> r.value == Flat(Loaded(store, cp.pageCount))
  {
    hide Readable, ReadSoFar, ValidEntries, Linked;
    var es: seq<Listed>, previous, n, state, file := [], Seed(cp.id, cp.epoch), 0, 0, 0;
    NothingRead(rules, cp, store);
    while n < cp.pageCount
      invariant 0 <= n <= cp.pageCount && (forall i :: 0 <= i < n ==> i in store) && ReadSoFar(rules, cp, Loaded(store, n), es)
      invariant previous == LastDigest(Seed(cp.id, cp.epoch), Loaded(store, n))
      invariant state == Count(es, false) && file == Count(es, true)
    {
      if n !in store {
        MissingPage(rules, store, cp, n);
        return Err(NotFound);
      }
      ReadPage(rules, cp, store, n, es);
      var page := store[n];
      if page.checkpoint != cp.id || page.epoch != cp.epoch || page.index != n || page.previous != previous ||
         |page.entries| == 0 || |page.entries| > PAGE_ENTRIES {
        return Err(PreconditionFailed);
      }
      ReadIsValid(rules, cp, Loaded(store, n), es);
      var ok := CheckEntries(rules, es, page.entries);
      if !ok { return Err(PreconditionFailed); }
      CountAppend(es, page.entries, false);
      CountAppend(es, page.entries, true);
      state, file := state + Count(page.entries, false), file + Count(page.entries, true);
      es, previous, n := es + page.entries, Of(page), n + 1;
    }
    ReadEnds(rules, cp, store, es);
    if previous != cp.digest || state != cp.stateCount || file != cp.fileCount || exists i :: i in store && i >= cp.pageCount {
      return Err(PreconditionFailed);
    }
    r := Ok(es);
  }

  lemma {:induction false} NothingRead(rules: Rules, cp: Checkpoint, store: Store)
    ensures Loaded(store, 0) == [] && ReadSoFar(rules, cp, [], [])
  {
  }

  lemma {:induction false} MissingPage(rules: Rules, store: Store, cp: Checkpoint, n: nat)
    requires n < cp.pageCount && n !in store
    ensures !Readable(rules, store, cp)
  {
  }

  lemma {:induction false} ReadIsValid(rules: Rules, cp: Checkpoint, pages: seq<Page>, es: seq<Listed>)
    requires ReadSoFar(rules, cp, pages, es)
    ensures ValidEntries(rules, es)
  {
  }

  // ---------------------------------------------------------------- theorems

  /** Cutting keeps the entries, and links every page to the one before. */
  lemma {:induction false} PagesAreLinked(id: nat, epoch: nat, index: nat, previous: Digest, es: seq<Listed>)
    ensures var pages := PagesFrom(id, epoch, index, previous, es);
            && (forall i :: 0 <= i < |pages| ==>
                  && pages[i].checkpoint == id && pages[i].epoch == epoch && pages[i].index == index + i
                  && 0 < |pages[i].entries| <= PAGE_ENTRIES
                  && pages[i].previous == if i == 0 then previous else Of(pages[i - 1]))
            && Flat(pages) == es
    decreases |es|
  {
    if es != [] {
      var n := Min(PAGE_ENTRIES, |es|);
      var p := Page(id, epoch, index, previous, es[..n]);
      var rest := PagesFrom(id, epoch, index + 1, Of(p), es[n..]);
      PagesAreLinked(id, epoch, index + 1, Of(p), es[n..]);
      FlatCons(p, rest);
      assert es[..n] + es[n..] == es;
      var pages := [p] + rest;
      forall i | 0 <= i < |pages|
        ensures pages[i].checkpoint == id && pages[i].epoch == epoch && pages[i].index == index + i && 0 < |pages[i].entries| <= PAGE_ENTRIES
        ensures pages[i].previous == if i == 0 then previous else Of(pages[i - 1])
      {
        if 0 < i { assert pages[i] == rest[i - 1]; if 1 < i { assert pages[i - 1] == rest[i - 2]; } }
      }
    }
  }

  lemma {:induction false} FlatCons(p: Page, rest: seq<Page>)
    ensures Flat([p] + rest) == p.entries + Flat(rest)
  {
    if rest == [] {
      assert [p] + rest == [p] && [p][..0] == [];
    } else {
      var n := |rest| - 1;
      FlatCons(p, rest[..n]);
      assert ([p] + rest)[..n + 1] == [p] + rest[..n];
    }
  }

  /** Round trip: what was written is readable, for any number of entries, and reads back as it was. */
  lemma {:induction false} WrittenIsReadable(rules: Rules, id: nat, epoch: nat, es: seq<Listed>)
    requires ValidEntries(rules, es)
    ensures var store, cp := Stored(Pages(id, epoch, es)), Summary(id, epoch, es);
            Readable(rules, store, cp) && Flat(Loaded(store, cp.pageCount)) == es
  {
    var pages := Pages(id, epoch, es);
    PagesAreLinked(id, epoch, 0, Seed(id, epoch), es);
    assert Loaded(Stored(pages), |pages|) == pages;
  }

  /** The digest of the last page pins down the whole chain. */
  lemma {:induction false} DigestPinsChain(cp: Checkpoint, a: seq<Page>, b: seq<Page>)
    requires Linked(cp, a) && Linked(cp, b) && |a| == |b|
    requires LastDigest(Seed(cp.id, cp.epoch), a) == LastDigest(Seed(cp.id, cp.epoch), b)
    ensures a == b
  {
    if a != [] {
      var n := |a| - 1;
      assert LinkedAt(cp, a, n) && LinkedAt(cp, b, n);
      LinkedPrefix(cp, a, n);
      LinkedPrefix(cp, b, n);
      DigestPinsChain(cp, a[..n], b[..n]);
      assert a == a[..n] + [a[n]] && b == b[..n] + [b[n]];
    }
  }

  lemma {:induction false} LinkedPrefix(cp: Checkpoint, pages: seq<Page>, n: nat)
    requires Linked(cp, pages) && n <= |pages|
    ensures Linked(cp, pages[..n])
  {
    forall i | 0 <= i < n ensures LinkedAt(cp, pages[..n], i) { assert LinkedAt(cp, pages, i); }
  }

  /**
    * Whatever the object store holds when the checkpoint is read, a reader that
    * accepts it sees exactly the metadata that was recorded.
    */
  lemma {:induction false} ReadingReturnsWhatWasWritten(rules: Rules, id: nat, epoch: nat, es: seq<Listed>, store: Store)
    requires Readable(rules, store, Summary(id, epoch, es))
    ensures Flat(Loaded(store, Summary(id, epoch, es).pageCount)) == es
  {
    var cp, pages := Summary(id, epoch, es), Pages(id, epoch, es);
    PagesAreLinked(id, epoch, 0, Seed(id, epoch), es);
    assert Linked(cp, pages);
    DigestPinsChain(cp, Loaded(store, cp.pageCount), pages);
  }

  /** verifyCheckpointV3, the comparison: accepts exactly when the inventory is the current metadata, entry by entry. */
  method VerifyInventory(rules: Rules, store: Store, cp: Checkpoint, metadata: seq<Listed>) returns (ok: bool)
    ensures ok <==> Readable(rules, store, cp) && Flat(Loaded(store, cp.pageCount)) == metadata
  {
    hide Readable;
    var visited := VisitInventory(rules, store, cp);
    if visited.Err? { return false; }
    var es := visited.value;
    for n := 0 to |es|
      invariant n <= |metadata| && es[..n] == metadata[..n]
    {
      if n == |metadata| { return false; }
      var x, info := es[n], metadata[n];
      if x.file != info.file || x.info.key != info.info.key || x.info.size != info.info.size || x.info.md5 != info.info.md5 ||
         x.info.crc != info.info.crc {
        return false;
      }
      assert es[..n + 1] == es[..n] + [x] && metadata[..n + 1] == metadata[..n] + [info];
    }
    assert es[..|es|] == es;
    if |es| < |metadata| { return false; }
    assert metadata[..|es|] == metadata;
    ok := true;
  }

  /** A checkpoint that verifies was taken of exactly the current metadata. */
  lemma {:induction false} VerifiedIsCurrent(rules: Rules, id: nat, epoch: nat, es: seq<Listed>, store: Store, metadata: seq<Listed>)
    requires Readable(rules, store, Summary(id, epoch, es))
    ensures Flat(Loaded(store, Summary(id, epoch, es).pageCount)) == metadata <==> metadata == es
  {
    ReadingReturnsWhatWasWritten(rules, id, epoch, es, store);
  }
}
