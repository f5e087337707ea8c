/**
  * Repacking: the pages that a session staged in one pack are collected in
  * postorder, cut into ranges that fit a pack each, and rewritten so that references
  * among them name their new packs. Nothing is published before every range fits.
  */
module Repack {
  import opened Basics
  import opened PageStore

  // ---------------------------------------------------------- specification

  /** The same tree with the same descriptors, and references outside the source pack kept exactly. */
  ghost predicate SameTree(source: PackId, old_: Ref, new_: Ref)
    decreases old_
  {
    if old_.pack != source then new_ == old_
    else match old_.page
      case Leaf(entries) => new_.page == old_.page
      case Branch(level, children) =>
        && new_.page.Branch? && new_.page.level == level && |new_.page.children| == |children|
        && forall i :: 0 <= i < |children| ==>
             SameTree(source, children[i], new_.page.children[i]) && new_.page.children[i].about == children[i].about
  }

  /** The ordered entries of a repacked tree are those of the original. */
  lemma {:induction false} SameTreeSameContents(source: PackId, old_: Ref, new_: Ref)
    requires SameTree(source, old_, new_)
    ensures Contents(new_) == Contents(old_)
    decreases old_, 1
  {
    if old_.pack == source && old_.page.Branch? {
      SameContentsOf(source, old_, new_, |old_.page.children|);
    }
  }

  lemma {:induction false} SameContentsOf(source: PackId, old_: Ref, new_: Ref, n: nat)
    requires old_.pack == source && old_.page.Branch? && SameTree(source, old_, new_) && n <= |old_.page.children|
    ensures ContentsOf(new_, n) == ContentsOf(old_, n)
    decreases old_, 0, n
  {
    if 0 < n {
      SameContentsOf(source, old_, new_, n - 1);
      SameTreeSameContents(source, old_.page.children[n - 1], new_.page.children[n - 1]);
    }
  }

  // ------------------------------------------------------------- collection

  /** Every child of the page in the source pack has been collected. */
  predicate ChildrenCollected(source: PackId, page: Page, pages: seq<Page>) {
    page.Branch? ==>
      forall i :: 0 <= i < |page.children| && page.children[i].pack == source ==> page.children[i].page in pages
  }

  predicate DistinctPages(pages: seq<Page>) {
    forall i, j :: 0 <= i < j < |pages| ==> pages[i] != pages[j]
  }

  /** Each page comes once, after all of its own children. */
  predicate Postorder(source: PackId, pages: seq<Page>) {
    DistinctPages(pages) && forall i :: 0 <= i < |pages| ==> ChildrenCollected(source, pages[i], pages[..i])
  }

  /** The page is at or below the reference and reached through the source pack only. */
  ghost predicate Within(source: PackId, ref: Ref, page: Page)
    decreases ref
  {
    ref.pack == source &&
    (ref.page == page
     || (ref.page.Branch? && exists i :: 0 <= i < |ref.page.children| && Within(source, ref.page.children[i], page)))
  }

  /** Pages closed under children hold the whole closure of each of their pages. */
  lemma {:induction false} CollectedIsClosed(source: PackId, pages: seq<Page>, ref: Ref, page: Page)
    requires Postorder(source, pages) && ref.page in pages && Within(source, ref, page)
    ensures page in pages
    decreases ref
  {
    if ref.page != page {
      var i :| 0 <= i < |ref.page.children| && Within(source, ref.page.children[i], page);
      var n :| 0 <= n < |pages| && pages[n] == ref.page;
      assert ChildrenCollected(source, pages[n], pages[..n]);
      assert ref.page.children[i].pack == source;
      assert ref.page.children[i].page in pages[..n];
      CollectedIsClosed(source, pages, ref.page.children[i], page);
    }
  }

  lemma {:induction false} PostorderNext(source: PackId, pages: seq<Page>, page: Page)
    requires Postorder(source, pages) && page !in pages && ChildrenCollected(source, page, pages)
    ensures Postorder(source, pages + [page])
  {
    var pages' := pages + [page];
    forall i | 0 <= i < |pages'| ensures ChildrenCollected(source, pages'[i], pages'[..i]) {
      assert pages'[..i] == pages[..i];
      assert pages[..|pages|] == pages;
    }
  }

  /** The page was collected before, or is within the reference. */
  ghost predicate FromRef(source: PackId, ref: Ref, before: seq<Page>, pages: seq<Page>) {
    forall p :: p in pages ==> p in before || Within(source, ref, p)
  }

  /** The references of the page into the source pack describe their pages. */
  predicate ChildrenDescribed(source: PackId, page: Page) {
    page.Branch? ==> forall i :: 0 <= i < |page.children| && page.children[i].pack == source ==> Described(page.children[i])
  }

  predicate Intact(source: PackId, held: set<Page>, page: Page) {
    page in held && ValidPage(page) && ChildrenDescribed(source, page)
  }

  /** All that the reference reaches through the source pack is held, valid and described by every reference to it. */
  ghost predicate AllIntact(source: PackId, held: set<Page>, ref: Ref) {
    (ref.pack == source ==> Described(ref)) && forall p :: Within(source, ref, p) ==> Intact(source, held, p)
  }

  /** A page reached through a reference is the referenced page or a part of it. */
  lemma {:induction false} WithinIsSmaller(source: PackId, ref: Ref, page: Page)
    requires Within(source, ref, page)
    ensures page == ref.page || page < ref.page
    decreases ref
  {
    if ref.page != page {
      var i :| 0 <= i < |ref.page.children| && Within(source, ref.page.children[i], page);
      WithinIsSmaller(source, ref.page.children[i], page);
      assert ref.page.children[i].page < ref.page;
    }
  }

  /** What the first children of a branch reach. */
  ghost predicate WithinFirst(source: PackId, ref: Ref, n: nat, page: Page) {
    ref.page.Branch? && exists i :: 0 <= i < n && i < |ref.page.children| && Within(source, ref.page.children[i], page)
  }

  class Closure {
    const source: PackId
    const held: set<Page>
    var pages: seq<Page>
    var indices: map<Page, nat>
    var visiting: set<Page>

    ghost predicate Valid()
      reads this
    {
      && Postorder(source, pages) && (forall p :: p in pages ==> Intact(source, held, p))
      && (forall p :: p in pages ==> p in indices)
      && (forall p :: p in indices ==> indices[p] < |pages| && pages[indices[p]] == p)
    }

    constructor (source: PackId, held: set<Page>)
      ensures Valid() && this.source == source && this.held == held && pages == [] && visiting == {}
    {
      this.source, this.held, pages, indices, visiting := source, held, [], map[], {};
    }

    /**
      * Collects what one reference reaches through the source pack, children first. It
      * succeeds exactly when all of it is intact; a page is never met inside itself.
      */
    method Collect(ref: Ref) returns (ok: bool)
      requires Valid() && forall v :: v in visiting ==> ref.page < v
      modifies this
      ensures Valid() && old(pages) <= pages && (ok ==> visiting == old(visiting))
      ensures ok <==> AllIntact(source, held, ref)
      ensures ok && ref.pack == source ==> ref.page in pages
      ensures ok ==> FromRef(source, ref, old(pages), pages)
      decreases ref, 1
    {
      if ref.pack != source { return true; }
      assert Within(source, ref, ref.page);
      if ref.page !in held || !ValidPage(ref.page) || !Described(ref) { return false; }
      // The source refuses a page met inside itself; references by digest never form a cycle.
      assert ref.page !in visiting;
      if ref.page in indices {
        forall p | Within(source, ref, p) ensures Intact(source, held, p) { CollectedIsClosed(source, pages, ref, p); }
        return true;
      }
      ghost var before, outer := pages, visiting;
      visiting := visiting + {ref.page};
      if ref.page.Branch? {
        ok := CollectChildren(ref);
        if !ok { return; }
      }
      visiting := visiting - {ref.page};
      NotYetCollected(source, ref, before, pages);
      PostorderNext(source, pages, ref.page);
      indices := indices[ref.page := |pages|];
      pages := pages + [ref.page];
      assert visiting == outer;
      return true;
    }

    method CollectChildren(ref: Ref) returns (ok: bool)
      requires Valid() && ref.page.Branch? && ref.pack == source && ref.page in held && ValidPage(ref.page) && Described(ref)
      requires forall v :: v in visiting ==> ref.page == v || ref.page < v
      modifies this
      ensures Valid() && old(pages) <= pages && (ok ==> visiting == old(visiting))
      ensures ok <==> AllIntact(source, held, ref)
      ensures ok ==> ChildrenCollected(source, ref.page, pages) && Intact(source, held, ref.page)
      ensures ok ==> forall p :: p in pages ==> p in old(pages) || WithinFirst(source, ref, |ref.page.children|, p)
      decreases ref, 0
    {
      hide Within, WithinFirst, Postorder, AllIntact, FromRef, ValidPage, Described;
      var n := 0;
      NothingFirst(source, ref);
      while n < |ref.page.children|
        invariant n <= |ref.page.children| && Valid() && old(pages) <= pages && visiting == old(visiting)
        invariant forall p :: WithinFirst(source, ref, n, p) ==> Intact(source, held, p)
        invariant forall i :: 0 <= i < n && ref.page.children[i].pack == source ==>
          ref.page.children[i].page in pages && Described(ref.page.children[i])
        invariant forall p :: p in pages ==> p in old(pages) || WithinFirst(source, ref, n, p)
      {
        var child := ref.page.children[n];
        assert child.page < ref.page;
        ghost var before := pages;
        ok := this.Collect(child);
        if !ok {
          NotHeld(source, held, ref, n);
          return;
        }
        WithinNext(source, held, ref, n, before, pages, old(pages));
        n := n + 1;
      }
      HeldBelow(source, held, ref);
      return true;
    }
  }

  lemma {:induction false} NothingFirst(source: PackId, ref: Ref)
    ensures forall p :: !WithinFirst(source, ref, 0, p)
  {
  }

  lemma {:induction false} NotHeld(source: PackId, held: set<Page>, ref: Ref, n: nat)
    requires ref.pack == source && ref.page.Branch? && n < |ref.page.children| && !AllIntact(source, held, ref.page.children[n])
    ensures !AllIntact(source, held, ref)
  {
    hide ValidPage, Described;
    var child := ref.page.children[n];
    assert Within(source, ref, ref.page);
    if child.pack != source || Described(child) {
      var p :| Within(source, child, p) && !Intact(source, held, p);
      assert Within(source, ref, p);
    }
  }

  lemma {:induction false} HeldBelow(source: PackId, held: set<Page>, ref: Ref)
    requires ref.pack == source && ref.page.Branch? && Intact(source, held, ref.page) && Described(ref)
    requires forall p :: WithinFirst(source, ref, |ref.page.children|, p) ==> Intact(source, held, p)
    ensures AllIntact(source, held, ref)
  {
    forall p | Within(source, ref, p) ensures Intact(source, held, p) {
      assert p == ref.page || WithinFirst(source, ref, |ref.page.children|, p);
    }
  }

  lemma {:induction false} WithinNext(source: PackId, held: set<Page>, ref: Ref, n: nat, before: seq<Page>, pages: seq<Page>, start: seq<Page>)
    requires ref.page.Branch? && n < |ref.page.children|
    requires forall p :: WithinFirst(source, ref, n, p) ==> Intact(source, held, p)
    requires forall p :: p in before ==> p in start || WithinFirst(source, ref, n, p)
    requires FromRef(source, ref.page.children[n], before, pages) && AllIntact(source, held, ref.page.children[n])
    ensures forall p :: WithinFirst(source, ref, n + 1, p) ==> Intact(source, held, p)
    ensures ref.page.children[n].pack == source ==> Described(ref.page.children[n])
    ensures forall p :: p in pages ==> p in start || WithinFirst(source, ref, n + 1, p)
  {
    forall p ensures WithinFirst(source, ref, n + 1, p) <==> WithinFirst(source, ref, n, p) || Within(source, ref.page.children[n], p) {}
  }

  /** The page itself is not among what its children brought, nor was it there before. */
  lemma {:induction false} NotYetCollected(source: PackId, ref: Ref, before: seq<Page>, pages: seq<Page>)
    requires ref.pack == source && ref.page !in before
    requires forall p :: p in pages ==> p in before || (ref.page.Branch? && WithinFirst(source, ref, |ref.page.children|, p))
    ensures ref.page !in pages
    ensures FromRef(source, ref, before, pages + [ref.page])
  {
    forall p | p in pages && p !in before ensures p != ref.page && Within(source, ref, p) {
      var i :| 0 <= i < |ref.page.children| && Within(source, ref.page.children[i], p);
      WithinIsSmaller(source, ref.page.children[i], p);
      assert ref.page.children[i].page < ref.page;
    }
  }
}
