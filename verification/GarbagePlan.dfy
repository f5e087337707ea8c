/**
  * The durable plan of one garbage collection: the garbage in order, cut into pages,
  * with a digest of all entries. A digest is injective, so it is the sequence that
  * was hashed.
  */
module GarbagePlan {
  import opened Basics
  import opened PageGroups

  const PLAN_PAGE := 128

  /** An object by backend role and key. */
  datatype Entry = Entry(file: bool, key: Key)

  /** The order of entry identities: state objects first, then files, each by key. */
  predicate Before(a: Entry, b: Entry) {
    (!a.file && b.file) || (a.file == b.file && a.key < b.key)
  }

  predicate Sorted(es: seq<Entry>) {
    forall i, j :: 0 <= i < j < |es| ==> Before(es[i], es[j])
  }

  predicate ValidEntries(es: seq<Entry>, eligible: Entry -> bool) {
    Sorted(es) && forall i :: 0 <= i < |es| ==> eligible(es[i])
  }

  datatype Plan = Plan(root: seq<Entry>, pageCount: nat, entryCount: nat, digest: seq<Entry>)

  /** Overflow pages by index, from one on. */
  type Store = map<nat, seq<Entry>>

  /** The first page is in the plan itself and may be empty; every page but the last is full. */
  function Cut(es: seq<Entry>): (pages: seq<seq<Entry>>)
    ensures pages != []
    decreases |es|
  {
    if |es| <= PLAN_PAGE then [es] else [es[..PLAN_PAGE]] + Cut(es[PLAN_PAGE..])
  }

  function PlanOf(es: seq<Entry>): Plan {
    Plan(Cut(es)[0], |Cut(es)|, |es|, es)
  }

  predicate Holds(store: Store, pages: seq<seq<Entry>>) {
    forall i :: 1 <= i < |pages| ==> i in store && store[i] == pages[i]
  }

  /** The unreachable eligible objects of one listing. */
  function Garbage(file: bool, keys: seq<Key>, eligible: Entry -> bool, reachable: set<Entry>): seq<Entry> {
    if keys == [] then []
    else
      var n := |keys| - 1;
      var e := Entry(file, keys[n]);
      Garbage(file, keys[..n], eligible, reachable) + if eligible(e) && e !in reachable then [e] else []
  }

  lemma {:induction false} GarbageIs(file: bool, keys: seq<Key>, eligible: Entry -> bool, reachable: set<Entry>)
    requires Ascending(keys)
    ensures var es := Garbage(file, keys, eligible, reachable);
            && ValidEntries(es, eligible)
            && forall e :: e in es <==> e.file == file && e.key in keys && eligible(e) && e !in reachable
  {
    if keys != [] {
      var n := |keys| - 1;
      GarbageIs(file, keys[..n], eligible, reachable);
      var rest := Garbage(file, keys[..n], eligible, reachable);
      assert keys == keys[..n] + [keys[n]];
      forall i | 0 <= i < |rest| ensures Before(rest[i], Entry(file, keys[n])) {
        assert rest[i] in rest && rest[i].key in keys[..n];
      }
    }
  }

  // ------------------------------------------------------------ cutting pages

  lemma {:induction false} CutFlattens(es: seq<Entry>)
    ensures Flatten(Cut(es)) == es
    ensures forall i :: 0 <= i < |Cut(es)| - 1 ==> |Cut(es)[i]| == PLAN_PAGE
    ensures |Cut(es)[|Cut(es)| - 1]| <= PLAN_PAGE && (1 < |Cut(es)| ==> Cut(es)[|Cut(es)| - 1] != [])
    decreases |es|
  {
    if |es| <= PLAN_PAGE {
      assert [es][1..] == [] && es + [] == es;
    } else {
      var first, rest := es[..PLAN_PAGE], es[PLAN_PAGE..];
      CutFlattens(rest);
      var pages := [first] + Cut(rest);
      assert pages[1..] == Cut(rest) && first + rest == es;
      forall i | 0 <= i < |pages| - 1 ensures |pages[i]| == PLAN_PAGE { if 0 < i { assert pages[i] == Cut(rest)[i - 1]; } }
      assert pages[|pages| - 1] == Cut(rest)[|Cut(rest)| - 1];
      assert 1 == |Cut(rest)| ==> Cut(rest)[0] == rest;
    }
  }

  /** One more entry: it goes to the last page, or starts a new one. */
  function Extend(pages: seq<seq<Entry>>, e: Entry): seq<seq<Entry>>
    requires pages != []
  {
    var n := |pages| - 1;
    if |pages[n]| < PLAN_PAGE then pages[..n] + [pages[n] + [e]] else pages + [[e]]
  }

  lemma {:induction false} ExtendCons(first: seq<Entry>, pages: seq<seq<Entry>>, e: Entry)
    requires pages != []
    ensures Extend([first] + pages, e) == [first] + Extend(pages, e)
  {
    var n := |pages| - 1;
    assert ([first] + pages)[..n + 1] == [first] + pages[..n];
  }

  lemma {:induction false} CutNext(es: seq<Entry>, e: Entry)
    ensures Cut(es + [e]) == Extend(Cut(es), e)
    decreases |es|
  {
    if |es| < PLAN_PAGE {
      assert Cut(es)[..0] == [];
    } else if |es| == PLAN_PAGE {
      assert (es + [e])[..PLAN_PAGE] == es && (es + [e])[PLAN_PAGE..] == [e];
    } else {
      var first, rest := es[..PLAN_PAGE], es[PLAN_PAGE..];
      CutNext(rest, e);
      ExtendCons(first, Cut(rest), e);
      assert (es + [e])[..PLAN_PAGE] == first && (es + [e])[PLAN_PAGE..] == rest + [e];
    }
  }

  /** A page that is full stays as it is, whatever follows. */
  lemma {:induction false} FullPageStays(a: seq<Entry>, b: seq<Entry>, i: nat)
    requires i < |Cut(a)| && |Cut(a)[i]| == PLAN_PAGE
    ensures i < |Cut(a + b)| && Cut(a + b)[i] == Cut(a)[i]
    decreases |a|
  {
    if |a| <= PLAN_PAGE {
      if |a + b| > PLAN_PAGE { assert (a + b)[..PLAN_PAGE] == a; } else { assert a + b == a; }
    } else {
      var first, rest := a[..PLAN_PAGE], a[PLAN_PAGE..];
      assert (a + b)[..PLAN_PAGE] == first && (a + b)[PLAN_PAGE..] == rest + b;
      if 0 < i { FullPageStays(rest, b, i - 1); }
    }
  }

  /** The store holds another page where this plan would write one. */
  ghost predicate Conflicts(store: Store, es: seq<Entry>) {
    exists i :: 1 <= i < |Cut(es)| && i in store && store[i] != Cut(es)[i]
  }

  /** What was stored at first, with the written pages on top, which did not differ. */
  ghost predicate Layered(initial: Store, store: Store, digest: seq<Entry>, pageCount: nat) {
    && pageCount <= |Cut(digest)|
    && (forall i :: 1 <= i < pageCount ==> i in store && store[i] == Cut(digest)[i] && (i in initial ==> initial[i] == Cut(digest)[i]))
    && (forall i :: pageCount <= i ==> (i in store <==> i in initial) && (i in store ==> store[i] == initial[i]))
  }

  /** Full pages before a last one determine the cut. */
  lemma {:induction false} FullPagesAreCut(pages: seq<seq<Entry>>)
    requires pages != [] && (forall i :: 0 <= i < |pages| - 1 ==> |pages[i]| == PLAN_PAGE)
    requires |pages[|pages| - 1]| <= PLAN_PAGE && (1 < |pages| ==> pages[|pages| - 1] != [])
    ensures pages == Cut(Flatten(pages))
  {
    if |pages| == 1 {
      assert pages == [pages[0]] && Flatten(pages) == pages[0] + [] == pages[0];
    } else {
      var rest := pages[1..];
      forall i | 0 <= i < |rest| - 1 ensures |rest[i]| == PLAN_PAGE { assert rest[i] == pages[i + 1]; }
      FullPagesAreCut(rest);
      assert Flatten(rest) != [] by { if |rest| == 1 { assert Flatten(rest) == rest[0] + []; } else { assert |rest[0]| == PLAN_PAGE; } }
      assert Flatten(pages)[..PLAN_PAGE] == pages[0] && Flatten(pages)[PLAN_PAGE..] == Flatten(rest);
      assert [pages[0]] + rest == pages;
    }
  }

  /** A builder's root page, written pages and open page are the cut of what it hashed. */
  ghost predicate Shape(digest: seq<Entry>, root: seq<Entry>, page: seq<Entry>, pageCount: nat) {
    && 1 <= pageCount && |page| < PLAN_PAGE && root == Cut(digest)[0]
    && |Cut(digest)| == pageCount + (if page == [] then 0 else 1)
    && (page != [] ==> Cut(digest)[pageCount] == page)
    && (page == [] && 1 < pageCount ==> |Cut(digest)[pageCount - 1]| == PLAN_PAGE)
  }

  lemma {:induction false} ShapeNext(digest: seq<Entry>, e: Entry, root: seq<Entry>, page: seq<Entry>, pageCount: nat)
    requires Shape(digest, root, page, pageCount)
    ensures |root| < PLAN_PAGE ==> page == [] && Shape(digest + [e], root + [e], [], pageCount) && pageCount == 1
    ensures |root| >= PLAN_PAGE && |page| + 1 < PLAN_PAGE ==> Shape(digest + [e], root, page + [e], pageCount)
    ensures |root| >= PLAN_PAGE && |page| + 1 == PLAN_PAGE ==>
              Shape(digest + [e], root, [], pageCount + 1) && Cut(digest + [e])[pageCount] == page + [e]
    ensures |root| >= PLAN_PAGE || pageCount == 1
    ensures forall i :: 0 <= i < pageCount && i < |Cut(digest)| && 0 < i ==> Cut(digest + [e])[i] == Cut(digest)[i]
    ensures |Cut(digest)| <= |Cut(digest + [e])|
  {
    CutNext(digest, e);
    CutFlattens(digest);
    CutSize(digest);
  }

  lemma {:induction false} ShapeSize(digest: seq<Entry>, root: seq<Entry>, page: seq<Entry>, pageCount: nat)
    requires Shape(digest, root, page, pageCount)
    ensures pageCount <= |Cut(digest)| && 1 <= pageCount && |page| < PLAN_PAGE
  {
  }

  lemma {:induction false} CutSize(es: seq<Entry>)
    ensures |es| <= PLAN_PAGE <==> |Cut(es)| == 1
    ensures |Cut(es)| == 1 ==> Cut(es)[0] == es
    ensures |Cut(es)| > 1 ==> |Cut(es)[0]| == PLAN_PAGE
  {
  }

  /** A full page of this plan is stored differently. */
  ghost predicate FullConflicts(store: Store, es: seq<Entry>) {
    exists i :: 1 <= i < |Cut(es)| && |Cut(es)[i]| == PLAN_PAGE && i in store && store[i] != Cut(es)[i]
  }

  lemma {:induction false} LayeredNext(initial: Store, store: Store, digest: seq<Entry>, e: Entry, root: seq<Entry>, page: seq<Entry>, pageCount: nat)
    requires Shape(digest, root, page, pageCount) && Layered(initial, store, digest, pageCount)
    ensures |root| < PLAN_PAGE || |page| + 1 < PLAN_PAGE ==> Layered(initial, store, digest + [e], pageCount)
    ensures |root| >= PLAN_PAGE && |page| + 1 == PLAN_PAGE ==>
              if pageCount !in store || store[pageCount] == page + [e] then
                Layered(initial, store[pageCount := page + [e]], digest + [e], pageCount + 1)
              else FullConflicts(initial, digest + [e])
  {
    ShapeNext(digest, e, root, page, pageCount);
    if |root| >= PLAN_PAGE && |page| + 1 == PLAN_PAGE {
      assert Shape(digest + [e], root, [], pageCount + 1);
    }
  }

  // ------------------------------------------------------------- the builder

  class Builder {
    const eligible: Entry -> bool
    var root: seq<Entry>
    var page: seq<Entry>
    var pageCount: nat
    var entryCount: nat
    var digest: seq<Entry>
    var previous: Option<Entry>
    /** The versions listed, while one page holds everything. */
    var versions: Option<map<Entry, nat>>
    /** The pages in the object store, and what it held at first. */
    var store: Store
    ghost const initial: Store

    /** The pages are the cut of what was hashed, the last one still open. */
    ghost predicate Valid()
      reads this
    {
      && ValidEntries(digest, eligible) && entryCount == |digest| && Shape(digest, root, page, pageCount)
      && previous == (if digest == [] then None else Some(digest[|digest| - 1]))
      && Layered(initial, store, digest, pageCount)
      && (versions.Some? <==> entryCount <= PLAN_PAGE)
      && (versions.Some? ==> forall e :: e in versions.value <==> e in digest)
    }

    constructor (eligible: Entry -> bool, store: Store)
      ensures Valid() && digest == [] && this.eligible == eligible && initial == store && versions == Some(map[])
    {
      this.eligible, this.initial := eligible, store;
      root, page, pageCount, entryCount, digest, previous, versions, this.store := [], [], 1, 0, [], None, Some(map[]), store;
    }

    /** flushPage: create-only; an existing page must be the same. */
    method FlushPage() returns (ok: bool)
      requires page != []
      modifies this
      ensures ok <==> old(pageCount) !in old(store) || old(store)[old(pageCount)] == old(page)
      ensures ok ==> store == old(store)[old(pageCount) := old(page)] && pageCount == old(pageCount) + 1 && page == []
      ensures root == old(root) && digest == old(digest) && entryCount == old(entryCount) && previous == old(previous) && versions == old(versions)
    {
      if pageCount in store && store[pageCount] != page { return false; }
      store := store[pageCount := page];
      pageCount, page := pageCount + 1, [];
      ok := true;
    }

    /** add: rejects ineligible and unordered entries, and a page that the store already holds differently. */
    method Add(e: Entry, version: nat) returns (ok: bool)
      requires Valid()
      modifies this
      ensures ok ==> Valid() && digest == old(digest) + [e]
      ensures ok ==> ValidEntries(old(digest) + [e], eligible)
      ensures ok && versions.Some? ==> old(versions).Some? && versions.value == old(versions).value[e := version]
      ensures !ok && ValidEntries(old(digest) + [e], eligible) ==> FullConflicts(initial, old(digest) + [e])
    {
      hide Shape, Cut, Sorted, Layered, FullConflicts, ValidEntries;
      SortedNext(digest, e, eligible);
      if !eligible(e) { return false; }
      if previous.Some? && !((!previous.value.file && e.file) || (previous.value.file == e.file && previous.value.key < e.key)) {
        return false;
      }
      LayeredNext(initial, store, digest, e, root, page, pageCount);
      ShapeNext(digest, e, root, page, pageCount);
      ShapeSize(digest, root, page, pageCount);
      previous := Some(e);
      digest := digest + [e];
      entryCount := entryCount + 1;
      versions := if versions.Some? && entryCount <= PLAN_PAGE then Some(versions.value[e := version]) else None;
      if |root| < PLAN_PAGE {
        root := root + [e];
      } else {
        page := page + [e];
        if |page| == PLAN_PAGE {
          ok := FlushPage();
          return;
        }
      }
      ok := true;
    }
  }

  lemma {:induction false} SortedNext(es: seq<Entry>, e: Entry, eligible: Entry -> bool)
    requires ValidEntries(es, eligible)
    ensures ValidEntries(es + [e], eligible) <==> eligible(e) && (es != [] ==> Before(es[|es| - 1], e))
  {
    var out := es + [e];
    assert out[|es|] == e && (es != [] ==> out[|es| - 1] == es[|es| - 1]);
    if eligible(e) && (es != [] ==> Before(es[|es| - 1], e)) {
      forall i, j | 0 <= i < j < |out| ensures Before(out[i], out[j]) {
        if j == |es| && i < |es| - 1 { assert Before(es[i], es[|es| - 1]); }
      }
    }
  }

  // -------------------------------------------------------------- preparation

  function AllGarbage(state: seq<Key>, file: seq<Key>, eligible: Entry -> bool, reachable: set<Entry>): seq<Entry> {
    Garbage(false, state, eligible, reachable) + Garbage(true, file, eligible, reachable)
  }

  /** The garbage of both backends, in the order of entry identities: eligible, listed and not reachable. */
  lemma {:induction false} AllGarbageIs(state: seq<Key>, file: seq<Key>, eligible: Entry -> bool, reachable: set<Entry>)
    requires Ascending(state) && Ascending(file)
    ensures var es := AllGarbage(state, file, eligible, reachable);
            && ValidEntries(es, eligible)
            && forall e :: e in es <==> e.key in (if e.file then file else state) && eligible(e) && e !in reachable
  {
    GarbageIs(false, state, eligible, reachable);
    GarbageIs(true, file, eligible, reachable);
    var a, b := Garbage(false, state, eligible, reachable), Garbage(true, file, eligible, reachable);
    forall i, j | 0 <= i < j < |a + b| ensures Before((a + b)[i], (a + b)[j]) {
      if i < |a| <= j { assert a[i] in a && b[j - |a|] in b; }
    }
  }

  lemma {:induction false} ValidPart(a: seq<Entry>, b: seq<Entry>, eligible: Entry -> bool)
    requires ValidEntries(a + b, eligible)
    ensures ValidEntries(a, eligible)
  {
    forall i | 0 <= i < |a| ensures eligible(a[i]) { assert (a + b)[i] == a[i]; }
    forall i, j | 0 <= i < j < |a| ensures Before(a[i], a[j]) { assert (a + b)[i] == a[i] && (a + b)[j] == a[j]; }
  }

  /** The versions kept are those that the listing gave. */
  predicate VersionsAre(versions: Option<map<Entry, nat>>, version: Entry -> nat) {
    versions.Some? ==> forall e :: e in versions.value ==> versions.value[e] == version(e)
  }

  lemma {:induction false} VersionsNext(before: Option<map<Entry, nat>>, after: Option<map<Entry, nat>>, e: Entry, version: Entry -> nat)
    requires VersionsAre(before, version) && (after.Some? ==> before.Some? && after.value == before.value[e := version(e)])
    ensures VersionsAre(after, version)
  {
  }

  lemma {:induction false} NoVersions(version: Entry -> nat)
    ensures VersionsAre(Some(map[]), version)
  {
  }

  lemma {:induction false} VersionsOfAll(versions: Option<map<Entry, nat>>, es: seq<Entry>, version: Entry -> nat)
    requires VersionsAre(versions, version) && (versions.Some? <==> |es| <= PLAN_PAGE)
    requires versions.Some? ==> forall e :: e in versions.value <==> e in es
    ensures versions == if |es| <= PLAN_PAGE then Some(map e | e in es :: version(e)) else None
  {
    if versions.Some? { assert versions.value == map e | e in es :: version(e); }
  }

  /** One backend listing through the builder. */
  method Sweep(builder: Builder, file: bool, keys: seq<Key>, reachable: set<Entry>, version: Entry -> nat) returns (ok: bool)
    requires builder.Valid()
    requires ValidEntries(builder.digest + Garbage(file, keys, builder.eligible, reachable), builder.eligible)
    modifies builder
    ensures ok ==> builder.Valid() && builder.digest == old(builder.digest) + Garbage(file, keys, builder.eligible, reachable)
    ensures ok && old(VersionsAre(builder.versions, version)) ==> VersionsAre(builder.versions, version)
    ensures !ok ==> FullConflicts(builder.initial, old(builder.digest) + Garbage(file, keys, builder.eligible, reachable))
  {
    hide Shape, Cut, Sorted, Before, Layered, FullConflicts, ValidEntries, VersionsAre;
    ghost var start, all := builder.digest, Garbage(file, keys, builder.eligible, reachable);
    assert keys[..0] == [] && start + [] == start;
    for n := 0 to |keys|
      invariant builder.Valid() && builder.digest == start + Garbage(file, keys[..n], builder.eligible, reachable)
      invariant old(VersionsAre(builder.versions, version)) ==> VersionsAre(builder.versions, version)
    {
      var e := Entry(file, keys[n]);
      assert keys[..n + 1][..n] == keys[..n];
      if builder.eligible(e) && e !in reachable {
        ghost var next := builder.digest + [e];
        ghost var rest := SweptNext(start, file, keys, n, builder.eligible, reachable);
        ghost var before := builder.versions;
        ok := builder.Add(e, version(e));
        if ok && VersionsAre(before, version) { VersionsNext(before, builder.versions, e, version); }
        if !ok {
          StillConflicts(builder.initial, next, rest);
          return false;
        }
      }
    }
    assert keys[..|keys|] == keys;
    ok := true;
  }

  /** One more garbage entry continues what was swept, and what follows it is still to come. */
  lemma {:induction false} SweptNext(start: seq<Entry>, file: bool, keys: seq<Key>, n: nat, eligible: Entry -> bool, reachable: set<Entry>)
    returns (rest: seq<Entry>)
    requires n < |keys| && eligible(Entry(file, keys[n])) && Entry(file, keys[n]) !in reachable
    requires ValidEntries(start + Garbage(file, keys, eligible, reachable), eligible)
    ensures var next := start + Garbage(file, keys[..n], eligible, reachable) + [Entry(file, keys[n])];
            && next == start + Garbage(file, keys[..n + 1], eligible, reachable) && ValidEntries(next, eligible)
            && next + rest == start + Garbage(file, keys, eligible, reachable)
  {
    hide ValidEntries;
    assert keys[..n + 1][..n] == keys[..n];
    GarbagePrefix(file, keys, n + 1, eligible, reachable);
    var done, all := Garbage(file, keys[..n + 1], eligible, reachable), Garbage(file, keys, eligible, reachable);
    rest := all[|done|..];
    assert (start + done) + rest == start + all;
    ValidPart(start + done, rest, eligible);
  }

  lemma {:induction false} StillConflicts(store: Store, a: seq<Entry>, b: seq<Entry>)
    requires FullConflicts(store, a)
    ensures FullConflicts(store, a + b) && Conflicts(store, a + b)
  {
    var i :| 1 <= i < |Cut(a)| && |Cut(a)[i]| == PLAN_PAGE && i in store && store[i] != Cut(a)[i];
    FullPageStays(a, b, i);
  }

  lemma {:induction false} GarbagePrefix(file: bool, keys: seq<Key>, n: nat, eligible: Entry -> bool, reachable: set<Entry>)
    requires n <= |keys|
    ensures Garbage(file, keys[..n], eligible, reachable) <= Garbage(file, keys, eligible, reachable)
  {
    if n < |keys| {
      var m := |keys| - 1;
      GarbagePrefix(file, keys[..m], n, eligible, reachable);
      assert keys[..m][..n] == keys[..n];
    } else {
      assert keys[..n] == keys;
    }
  }

  /** The last flush: the open page is the last page of the cut. */
  lemma {:induction false} Finished(initial: Store, store: Store, digest: seq<Entry>, root: seq<Entry>, page: seq<Entry>, pageCount: nat)
    requires Shape(digest, root, page, pageCount) && Layered(initial, store, digest, pageCount)
    ensures page == [] ==> PlanOf(digest) == Plan(root, pageCount, |digest|, digest) && Holds(store, Cut(digest)) && !Conflicts(initial, digest)
    ensures page != [] && (pageCount !in store || store[pageCount] == page) ==>
              PlanOf(digest) == Plan(root, pageCount + 1, |digest|, digest) && Holds(store[pageCount := page], Cut(digest)) && !Conflicts(initial, digest)
    ensures page != [] && pageCount in store && store[pageCount] != page ==> Conflicts(initial, digest)
  {
  }

  /**
    * prepareCheckpointGarbagePlan: the plan is exactly the listed, eligible and
    * unreachable objects in order, unless the store holds another page of such a plan.
    * While one page holds it all, the listed versions come with it.
    */
  method PreparePlan(state: seq<Key>, file: seq<Key>, eligible: Entry -> bool, reachable: set<Entry>, version: Entry -> nat, store: Store)
    returns (r: Result<(Plan, Store), ErrorKind>, versions: Option<map<Entry, nat>>)
    requires Ascending(state) && Ascending(file)
    ensures var es := AllGarbage(state, file, eligible, reachable);
            && (r.Ok? <==> !Conflicts(store, es))
            && (r.Ok? ==> r.value.0 == PlanOf(es) && Holds(r.value.1, Cut(es)))
            && (r.Ok? ==> versions == if |es| <= PLAN_PAGE then Some(map e | e in es :: version(e)) else None)
  {
    hide Shape, Cut, Sorted, Layered, FullConflicts, Conflicts, Garbage, ValidEntries, VersionsAre, PlanOf, Holds;
    AllGarbageIs(state, file, eligible, reachable);
    ghost var es := AllGarbage(state, file, eligible, reachable);
    ghost var a, b := Garbage(false, state, eligible, reachable), Garbage(true, file, eligible, reachable);
    var builder := new Builder(eligible, store);
    assert VersionsAre(builder.versions, version) by { NoVersions(version); }
    assert [] + a == a && es == a + b;
    ValidPart(a, b, eligible);
    var ok := Sweep(builder, false, state, reachable, version);
    if !ok {
      StillConflicts(store, a, b);
      return Err(PreconditionFailed), None;
    }
    ok := Sweep(builder, true, file, reachable, version);
    if !ok {
      StillConflicts(store, es, []);
      assert es + [] == es;
      return Err(PreconditionFailed), None;
    }
    Finished(store, builder.store, es, builder.root, builder.page, builder.pageCount);
    if builder.page != [] {
      ok := builder.FlushPage();
      if !ok { return Err(PreconditionFailed), None; }
    }
    versions := builder.versions;
    VersionsOfAll(versions, es, version);
    r := Ok((Plan(builder.root, builder.pageCount, builder.entryCount, builder.digest), builder.store));
  }

  // --------------------------------------------------------------- validation

  function PagesOf(plan: Plan, store: Store): seq<seq<Entry>>
    requires 1 <= plan.pageCount && forall i :: 1 <= i < plan.pageCount ==> i in store
  {
    seq(plan.pageCount, i requires 0 <= i < plan.pageCount => if i == 0 then plan.root else store[i])
  }

  /** A plan that validation accepts. */
  ghost predicate Authentic(plan: Plan, store: Store, eligible: Entry -> bool) {
    && 1 <= plan.pageCount && |plan.root| <= PLAN_PAGE
    && (forall i :: 1 <= i < plan.pageCount ==> i in store && 0 < |store[i]| <= PLAN_PAGE)
    && var pages := PagesOf(plan, store);
       && (forall i :: 0 <= i < |pages| - 1 ==> |pages[i]| == PLAN_PAGE)
       && Flatten(pages) == plan.digest && plan.entryCount == |plan.digest| && ValidEntries(plan.digest, eligible)
  }

  /** What was prepared validates again, from the durable plan and pages alone. */
  lemma {:induction false} PreparedIsAuthentic(es: seq<Entry>, store: Store, eligible: Entry -> bool)
    requires ValidEntries(es, eligible) && Holds(store, Cut(es))
    ensures Authentic(PlanOf(es), store, eligible) && PagesOf(PlanOf(es), store) == Cut(es)
  {
    CutFlattens(es);
    hide Cut, Flatten, ValidEntries;
    var pages := Cut(es);
    assert PagesOf(PlanOf(es), store) == pages;
    forall i | 1 <= i < |pages| ensures 0 < |store[i]| <= PLAN_PAGE { assert store[i] == pages[i]; }
  }

  /** Whatever the store holds, the pages of an authentic plan are the cut of the entries that its digest commits to. */
  lemma {:induction false} AuthenticIsCut(plan: Plan, store: Store, eligible: Entry -> bool)
    requires Authentic(plan, store, eligible)
    ensures PagesOf(plan, store) == Cut(plan.digest)
  {
    FullPagesAreCut(PagesOf(plan, store));
  }

  /** The pages read so far: full, valid and in order. */
  ghost predicate Reading(plan: Plan, store: Store, eligible: Entry -> bool, n: nat, es: seq<Entry>) {
    && 1 <= plan.pageCount && n <= plan.pageCount
    && (forall i :: 1 <= i < n ==> i in store && 0 < |store[i]| <= PLAN_PAGE)
    && (forall i :: 1 <= i < n && i + 1 < plan.pageCount ==> |store[i]| == PLAN_PAGE)
    && (0 < n && 1 < plan.pageCount ==> |plan.root| == PLAN_PAGE)
    && es == Flatten(Prefix(plan, store, n)) && ValidEntries(es, eligible)
  }

  function Prefix(plan: Plan, store: Store, n: nat): seq<seq<Entry>> {
    seq(n, i requires 0 <= i < n => if i == 0 then plan.root else if i in store then store[i] else [])
  }

  lemma {:induction false} FlattenLast(pages: seq<seq<Entry>>, p: seq<Entry>)
    ensures Flatten(pages + [p]) == Flatten(pages) + p
  {
    if pages == [] {
      assert pages + [p] == [p] && [p][1..] == [];
    } else {
      assert (pages + [p])[1..] == pages[1..] + [p];
      FlattenLast(pages[1..], p);
    }
  }

  lemma {:induction false} FlattenPrefix(pages: seq<seq<Entry>>, n: nat)
    requires n <= |pages|
    ensures Flatten(pages[..n]) <= Flatten(pages)
  {
    if n < |pages| {
      var m := |pages| - 1;
      FlattenPrefix(pages[..m], n);
      assert pages[..m][..n] == pages[..n] && pages == pages[..m] + [pages[m]];
      FlattenLast(pages[..m], pages[m]);
    } else {
      assert pages[..n] == pages;
    }
  }

  /** An authentic plan passes every intermediate point of its own validation. */
  lemma {:induction false} AuthenticReads(plan: Plan, store: Store, eligible: Entry -> bool, n: nat)
    requires Authentic(plan, store, eligible) && n <= plan.pageCount
    ensures Reading(plan, store, eligible, n, Flatten(Prefix(plan, store, n)))
  {
    var pages := PagesOf(plan, store);
    assert pages[..n] == Prefix(plan, store, n);
    FlattenPrefix(pages, n);
    var es := Flatten(pages[..n]);
    assert plan.digest == es + plan.digest[|es|..];
    ValidPart(es, plan.digest[|es|..], eligible);
    forall i | 1 <= i < n && i + 1 < plan.pageCount ensures |store[i]| == PLAN_PAGE { assert pages[i] == store[i]; }
    if 1 < plan.pageCount { assert pages[0] == plan.root; }
  }

  lemma {:induction false} MemberIsValid(done: seq<Entry>, e: Entry, rest: seq<Entry>, eligible: Entry -> bool)
    ensures ValidEntries((done + [e]) + rest, eligible) ==> eligible(e) && (done != [] ==> Before(done[|done| - 1], e))
  {
    var all := (done + [e]) + rest;
    assert all[|done|] == e && (done != [] ==> all[|done| - 1] == done[|done| - 1]);
  }

  method CheckPage(before: seq<Entry>, entries: seq<Entry>, eligible: Entry -> bool) returns (ok: bool)
    requires ValidEntries(before, eligible)
    ensures ok <==> ValidEntries(before + entries, eligible)
  {
    var previous := if before == [] then None else Some(before[|before| - 1]);
    for n := 0 to |entries|
      invariant ValidEntries(before + entries[..n], eligible)
      invariant previous == if before + entries[..n] == [] then None else Some((before + entries[..n])[|before| + n - 1])
    {
      var e := entries[n];
      ghost var done := before + entries[..n];
      assert before + entries[..n + 1] == done + [e];
      assert before + entries == (done + [e]) + entries[n + 1..];
      MemberIsValid(done, e, entries[n + 1..], eligible);
      if !eligible(e) || (previous.Some? && !Before(previous.value, e)) { return false; }
      SortedNext(done, e, eligible);
      previous := Some(e);
    }
    assert entries[..|entries|] == entries;
    ok := true;
  }

  /** validateCheckpointGarbagePlan, with the checks of the decoder. */
  method ValidatePlan(plan: Plan, store: Store, eligible: Entry -> bool) returns (ok: bool)
    ensures ok <==> Authentic(plan, store, eligible)
  {
    hide Authentic, Reading, ValidEntries;
    NotAuthentic(plan, store, eligible);
    if plan.pageCount == 0 || |plan.root| > PLAN_PAGE { return false; }
    var es: seq<Entry>, n := [], 0;
    StartReading(plan, store, eligible);
    while n < plan.pageCount
      invariant 0 <= n <= plan.pageCount && Reading(plan, store, eligible, n, es)
    {
      if Authentic(plan, store, eligible) { AuthenticReads(plan, store, eligible, n + 1); }
      NextPage(plan, store, eligible, n, es);
      if 0 < n && (n !in store || |store[n]| == 0 || |store[n]| > PLAN_PAGE) { return false; }
      var entries := if n == 0 then plan.root else store[n];
      if n + 1 < plan.pageCount && |entries| != PLAN_PAGE { return false; }
      var valid := CheckPage(es, entries, eligible);
      if !valid { return false; }
      es, n := es + entries, n + 1;
    }
    EndReading(plan, store, eligible, es);
    ok := |es| == plan.entryCount && es == plan.digest;
  }

  lemma {:induction false} NotAuthentic(plan: Plan, store: Store, eligible: Entry -> bool)
    ensures Authentic(plan, store, eligible) ==> 1 <= plan.pageCount && |plan.root| <= PLAN_PAGE
  {
  }

  lemma {:induction false} StartReading(plan: Plan, store: Store, eligible: Entry -> bool)
    requires 1 <= plan.pageCount
    ensures Reading(plan, store, eligible, 0, [])
  {
  }

  lemma {:induction false} NextPage(plan: Plan, store: Store, eligible: Entry -> bool, n: nat, es: seq<Entry>)
    requires n < plan.pageCount && Reading(plan, store, eligible, n, es)
    ensures ValidEntries(es, eligible)
    ensures var entries := if n == 0 then plan.root else if n in store then store[n] else [];
            var next := Flatten(Prefix(plan, store, n + 1));
            && next == es + entries
            && (Reading(plan, store, eligible, n + 1, next) <==>
                && (0 < n ==> n in store && 0 < |store[n]| <= PLAN_PAGE) && (n + 1 < plan.pageCount ==> |entries| == PLAN_PAGE)
                && ValidEntries(es + entries, eligible))
  {
    var entries := if n == 0 then plan.root else if n in store then store[n] else [];
    assert Prefix(plan, store, n + 1) == Prefix(plan, store, n) + [entries];
    FlattenLast(Prefix(plan, store, n), entries);
  }

  lemma {:induction false} EndReading(plan: Plan, store: Store, eligible: Entry -> bool, es: seq<Entry>)
    requires Reading(plan, store, eligible, plan.pageCount, es) && |plan.root| <= PLAN_PAGE
    ensures Authentic(plan, store, eligible) <==> |es| == plan.entryCount && es == plan.digest
  {
    assert PagesOf(plan, store) == Prefix(plan, store, plan.pageCount);
  }
}
