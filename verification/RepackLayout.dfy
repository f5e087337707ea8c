/**
  * The second half of repacking: the collected pages are cut into ranges, each range
  * gets a pack, pages are rewritten in postorder, ranges too large for a pack are
  * halved, and only a layout whose every range fits is published.
  */
module RepackLayout {
  import opened Basics
  import opened PageStore
  import opened Repack

  datatype Range = Range(first: nat, end: nat)

  /** Consecutive non-empty ranges from `from` up to `n`. */
  predicate Cuts(groups: seq<Range>, from: nat, n: nat)
    decreases |groups|
  {
    if groups == [] then from == n
    else
      var last := groups[|groups| - 1];
      last.end == n && last.first < n && Cuts(groups[..|groups| - 1], from, last.first)
  }

  lemma {:induction false} CutsNext(groups: seq<Range>, from: nat, mid: nat, n: nat)
    requires Cuts(groups, from, mid) && mid < n
    ensures Cuts(groups + [Range(mid, n)], from, n)
  {
    assert (groups + [Range(mid, n)])[..|groups|] == groups;
  }

  /** Non-empty ranges are at most as many as the pages they cut. */
  lemma {:induction false} CutsAreFew(groups: seq<Range>, from: nat, n: nat)
    requires Cuts(groups, from, n)
    ensures from + |groups| <= n
    decreases |groups|
  {
    if groups != [] {
      CutsAreFew(groups[..|groups| - 1], from, groups[|groups| - 1].first);
    }
  }

  /** Where a range ends the next one starts, or everything is cut. */
  lemma {:induction false} CutsAt(groups: seq<Range>, from: nat, n: nat, g: nat)
    requires Cuts(groups, from, n) && g < |groups|
    ensures groups[g].first < groups[g].end <= n && groups[0].first == from
    ensures groups[g].end == if g + 1 < |groups| then groups[g + 1].first else n
    decreases |groups|
  {
    var rest := groups[..|groups| - 1];
    if g < |rest| {
      CutsAt(rest, from, groups[|groups| - 1].first, g);
    } else if 0 < |rest| {
      CutsAt(rest, from, groups[|groups| - 1].first, 0);
    }
  }

  // ---------------------------------------------------------- initial ranges

  function Sum(sizes: seq<nat>, first: nat, end: nat): nat
    requires first <= end <= |sizes|
    decreases end
  {
    if first == end then 0 else Sum(sizes, first, end - 1) + sizes[end - 1]
  }

  /** The expanded size of a pack: its header, its members and the commas between them. */
  function PackSize(sizes: seq<nat>, header: nat, g: Range): nat
    requires g.first < g.end <= |sizes|
  {
    header + Sum(sizes, g.first, g.end) + (g.end - g.first - 1)
  }

  /** A range of several pages is within the limit, and it could not take the next page. */
  predicate Maximal(sizes: seq<nat>, header: nat, limit: nat, g: Range) {
    && g.first < g.end <= |sizes|
    && (g.first + 1 < g.end ==> PackSize(sizes, header, g) <= limit)
    && (g.end < |sizes| ==> limit < PackSize(sizes, header, Range(g.first, g.end + 1)))
  }

  method InitialRanges(sizes: seq<nat>, header: nat, limit: nat) returns (groups: seq<Range>)
    ensures Cuts(groups, 0, |sizes|)
    ensures forall g :: 0 <= g < |groups| ==> Maximal(sizes, header, limit, groups[g])
  {
    hide Cuts;
    groups := [];
    var first, expanded := 0, header;
    assert Cuts([], 0, 0) by { NoCuts(); }
    for index := 0 to |sizes|
      invariant first <= index && (0 < index ==> first < index) && Cuts(groups, 0, first)
      invariant forall g :: 0 <= g < |groups| ==> Maximal(sizes, header, limit, groups[g])
      invariant expanded == header + Sum(sizes, first, index) + (if first < index then index - first - 1 else 0)
      invariant first + 1 < index ==> expanded <= limit
    {
      var comma := if first < index then 1 else 0;
      if limit < expanded + sizes[index] + comma && first < index {
        assert Maximal(sizes, header, limit, Range(first, index));
        CutsNext(groups, 0, first, index);
        groups := groups + [Range(first, index)];
        first, expanded, comma := index, header, 0;
      }
      expanded := expanded + sizes[index] + comma;
    }
    if first < |sizes| {
      assert Maximal(sizes, header, limit, Range(first, |sizes|));
      CutsNext(groups, 0, first, |sizes|);
      groups := groups + [Range(first, |sizes|)];
    }
  }

  lemma {:induction false} NoCuts()
    ensures Cuts([], 0, 0)
  {
  }

  // --------------------------------------------------------------- rewriting

  /** A child of a rewritten page: kept when outside the source pack, else the new reference of its page. */
  ghost predicate ChildRewritten(source: PackId, pages: seq<Page>, refs: seq<Ref>, child: Ref, child': Ref) {
    if child.pack != source then child' == child
    else exists k :: 0 <= k < |refs| && k < |pages| && pages[k] == child.page && child' == refs[k]
  }

  ghost predicate PageRewritten(source: PackId, pages: seq<Page>, refs: seq<Ref>, page: Page, page': Page) {
    if page.Leaf? then page' == page
    else
      && page'.Branch? && page'.level == page.level && |page'.children| == |page.children|
      && forall i :: 0 <= i < |page.children| ==> ChildRewritten(source, pages, refs, page.children[i], page'.children[i])
  }

  /** Each page has been rewritten from the references of the pages before it, and is described anew. */
  ghost predicate Rewritten(source: PackId, pages: seq<Page>, refs: seq<Ref>) {
    && |refs| <= |pages|
    && (forall i :: 0 <= i < |refs| ==> PageRewritten(source, pages, refs[..i], pages[i], refs[i].page))
    && forall i :: 0 <= i < |refs| ==> refs[i].about == Describe(refs[i].page)
  }

  ghost predicate Indexed(pages: seq<Page>, indices: map<Page, nat>) {
    && (forall p :: p in pages ==> p in indices)
    && forall p :: p in indices ==> indices[p] < |pages| && pages[indices[p]] == p
  }

  method RewritePage(source: PackId, pages: seq<Page>, indices: map<Page, nat>, refs: seq<Ref>) returns (page: Page)
    requires Postorder(source, pages) && Indexed(pages, indices) && |refs| < |pages|
    ensures PageRewritten(source, pages, refs, pages[|refs|], page)
  {
    page := pages[|refs|];
    if page.Leaf? { return; }
    var children := page.children;
    for n := 0 to |children|
      invariant |children| == |page.children|
      invariant forall i :: n <= i < |children| ==> children[i] == page.children[i]
      invariant forall i :: 0 <= i < n ==> ChildRewritten(source, pages, refs, page.children[i], children[i])
    {
      if children[n].pack == source {
        var child := page.children[n];
        ChildComesFirst(source, pages, indices, |refs|, n);
        children := children[n := refs[indices[child.page]]];
      }
    }
    page := Branch(page.level, children);
  }

  /** Postorder makes the new reference of a child available before its parent is written. */
  lemma {:induction false} ChildComesFirst(source: PackId, pages: seq<Page>, indices: map<Page, nat>, i: nat, n: nat)
    requires Postorder(source, pages) && Indexed(pages, indices) && i < |pages| && pages[i].Branch?
    requires n < |pages[i].children| && pages[i].children[n].pack == source
    ensures pages[i].children[n].page in indices && indices[pages[i].children[n].page] < i
  {
    assert ChildrenCollected(source, pages[i], pages[..i]);
    var child := pages[i].children[n].page;
    assert child in pages[..i];
    var k :| 0 <= k < i && pages[..i][k] == child;
    assert pages[k] == child && child in pages;
  }

  ghost predicate AllChecked(source: PackId, pages: seq<Page>) {
    forall i :: 0 <= i < |pages| ==> ValidPage(pages[i]) && ChildrenDescribed(source, pages[i])
  }

  /** A reference in a valid page that describes its page is the reference that a writer makes of that page. */
  lemma {:induction false} ChildIsReferred(source: PackId, page: Page, n: nat)
    requires ValidPage(page) && ChildrenDescribed(source, page) && page.Branch? && n < |page.children|
    requires page.children[n].pack == source
    ensures page.children[n] == Refer(source, page.children[n].page)
  {
    hide Describe;
    assert ValidChild(page.children[n], page.level);
  }

  /** Equal child descriptors give equal page descriptors, and pages that are both valid or both not. */
  lemma {:induction false} SameDescriptors(a: seq<Ref>, b: seq<Ref>)
    requires |a| == |b| && forall i :: 0 <= i < |a| ==> a[i].about == b[i].about
    ensures Counts(a) == Counts(b) && Totals(a) == Totals(b) && Bounds(a) == Bounds(b)
  {
    if a != [] { SameDescriptors(a[..|a| - 1], b[..|b| - 1]); }
  }

  /** What rewriting makes of one child. */
  lemma {:induction false} ChildOf(source: PackId, pages: seq<Page>, refs: seq<Ref>, i: nat, n: nat) returns (k: nat)
    requires Rewritten(source, pages, refs) && AllChecked(source, pages) && i < |refs| && pages[i].Branch? && n < |pages[i].children|
    ensures refs[i].page.Branch? && n < |refs[i].page.children|
    ensures var child, child' := pages[i].children[n], refs[i].page.children[n];
            if child.pack != source then child' == child
            else k < i && child == Refer(source, pages[k]) && child' == refs[k]
  {
    hide Describe, ValidPage, ChildrenDescribed, Postorder;
    assert PageRewritten(source, pages, refs[..i], pages[i], refs[i].page);
    var child, child' := pages[i].children[n], refs[i].page.children[n];
    assert ChildRewritten(source, pages, refs[..i], child, child');
    k := 0;
    if child.pack == source {
      k :| 0 <= k < i && pages[k] == child.page && child' == refs[..i][k];
      ChildIsReferred(source, pages[i], n);
    }
  }

  /** Rewriting changes neither the descriptor of a page nor that it is valid. */
  lemma {:induction false} RewrittenIsDescribed(source: PackId, pages: seq<Page>, refs: seq<Ref>, i: nat)
    requires Rewritten(source, pages, refs) && AllChecked(source, pages) && i < |refs|
    ensures refs[i].about == Describe(pages[i]) && ValidPage(refs[i].page)
    decreases i
  {
    hide ChildrenDescribed, ChildRewritten;
    assert PageRewritten(source, pages, refs[..i], pages[i], refs[i].page);
    assert ValidPage(pages[i]);
    if pages[i].Branch? {
      forall n | 0 <= n < |pages[i].children| ensures refs[i].page.children[n].about == pages[i].children[n].about {
        var k := ChildOf(source, pages, refs, i, n);
        if pages[i].children[n].pack == source { RewrittenIsDescribed(source, pages, refs, k); }
      }
      SameValidity(pages[i], refs[i].page);
    }
  }

  lemma {:induction false} SameValidity(a: Page, b: Page)
    requires a.Branch? && b.Branch? && a.level == b.level && |a.children| == |b.children|
    requires forall n :: 0 <= n < |a.children| ==> b.children[n].about == a.children[n].about
    ensures Describe(b) == Describe(a) && ValidPage(b) == ValidPage(a)
  {
    SameDescriptors(a.children, b.children);
    assert forall n :: 0 <= n < |a.children| ==> ValidChild(b.children[n], b.level) == ValidChild(a.children[n], a.level);
  }

  /** A rewritten page is the same tree as the original. */
  lemma {:induction false} RewrittenIsSame(source: PackId, pages: seq<Page>, refs: seq<Ref>, i: nat)
    requires Rewritten(source, pages, refs) && AllChecked(source, pages) && i < |refs|
    ensures SameTree(source, Refer(source, pages[i]), refs[i])
    decreases i
  {
    hide ChildrenDescribed, ChildRewritten, Describe, ValidPage;
    assert PageRewritten(source, pages, refs[..i], pages[i], refs[i].page);
    if pages[i].Branch? {
      forall n | 0 <= n < |pages[i].children|
        ensures SameTree(source, pages[i].children[n], refs[i].page.children[n])
        ensures refs[i].page.children[n].about == pages[i].children[n].about
      {
        var k := ChildOf(source, pages, refs, i, n);
        if pages[i].children[n].pack == source {
          RewrittenIsSame(source, pages, refs, k);
          RewrittenIsDescribed(source, pages, refs, k);
        }
      }
    }
  }

  /** Once every pack holds its pages, everything below a rewritten page is present. */
  lemma {:induction false} RewrittenIsPresent(source: PackId, pages: seq<Page>, refs: seq<Ref>, packs: Packs, i: nat)
    requires Rewritten(source, pages, refs) && AllChecked(source, pages) && i < |refs|
    requires forall k :: 0 <= k < |refs| ==> Holds(packs, refs[k])
    requires OutsidePresent(source, pages, packs)
    ensures Present(packs, refs[i])
    decreases i
  {
    hide ChildrenDescribed, ChildRewritten, Describe, ValidPage, AllChecked;
    RewrittenIsDescribed(source, pages, refs, i);
    assert PageRewritten(source, pages, refs[..i], pages[i], refs[i].page);
    if pages[i].Branch? {
      forall n | 0 <= n < |pages[i].children| ensures Present(packs, refs[i].page.children[n]) {
        var k := ChildOf(source, pages, refs, i, n);
        if pages[i].children[n].pack == source { RewrittenIsPresent(source, pages, refs, packs, k); }
      }
    }
  }

  ghost predicate OutsidePresent(source: PackId, pages: seq<Page>, packs: Packs) {
    forall i, n :: 0 <= i < |pages| && pages[i].Branch? && 0 <= n < |pages[i].children| && pages[i].children[n].pack != source ==>
      Present(packs, pages[i].children[n])
  }

  // ------------------------------------------------------------------ layout

  function Pages(refs: seq<Ref>, first: nat, end: nat): set<Page>
    requires first <= end <= |refs|
  {
    set i | first <= i < end :: refs[i].page
  }

  /** Each page is written to the pack of its range, and that pack stages exactly the pages of the range. */
  ghost predicate Laid(groups: seq<Range>, ids: (nat, nat) -> PackId, refs: seq<Ref>, staged: seq<set<Page>>) {
    && |staged| == |groups|
    && (forall g :: 0 <= g < |groups| ==> groups[g].first < groups[g].end <= |refs|)
    && (forall g :: 0 <= g < |groups| ==> staged[g] == Pages(refs, groups[g].first, groups[g].end))
    && (forall g, i :: 0 <= g < |groups| && groups[g].first <= i < groups[g].end ==>
          refs[i].pack == ids(groups[g].first, groups[g].end))
  }

  /** One range written to its session. */
  method LayRange(source: PackId, pages: seq<Page>, indices: map<Page, nat>, g: Range, id: PackId, refs: seq<Ref>)
    returns (refs': seq<Ref>, staged: set<Page>)
    requires Postorder(source, pages) && Indexed(pages, indices)
    requires Rewritten(source, pages, refs) && |refs| == g.first < g.end <= |pages|
    ensures Rewritten(source, pages, refs') && refs <= refs' && |refs'| == g.end
    ensures staged == Pages(refs', g.first, g.end)
    ensures forall i :: g.first <= i < g.end ==> refs'[i].pack == id
  {
    hide Postorder, PageRewritten, Describe;
    refs', staged := refs, {};
    for n := g.first to g.end
      invariant |refs'| == n && Rewritten(source, pages, refs') && refs <= refs'
      invariant staged == Pages(refs', g.first, n)
      invariant forall i :: g.first <= i < n ==> refs'[i].pack == id
    {
      var page := RewritePage(source, pages, indices, refs');
      RewrittenNext(source, pages, refs', Refer(id, page));
      assert Pages(refs' + [Refer(id, page)], g.first, n + 1) == Pages(refs', g.first, n) + {page};
      refs' := refs' + [Refer(id, page)];
      staged := staged + {page};
    }
  }

  lemma {:induction false} RewrittenNext(source: PackId, pages: seq<Page>, refs: seq<Ref>, ref: Ref)
    requires Rewritten(source, pages, refs) && |refs| < |pages| && PageRewritten(source, pages, refs, pages[|refs|], ref.page)
    requires ref.about == Describe(ref.page)
    ensures Rewritten(source, pages, refs + [ref])
  {
    hide PageRewritten, Describe;
    var refs' := refs + [ref];
    forall i | 0 <= i < |refs'| ensures PageRewritten(source, pages, refs'[..i], pages[i], refs'[i].page) {
      assert refs'[..i] == refs[..i];
      assert refs[..|refs|] == refs;
    }
  }

  method LayAll(source: PackId, pages: seq<Page>, indices: map<Page, nat>, groups: seq<Range>, ids: (nat, nat) -> PackId)
    returns (refs: seq<Ref>, staged: seq<set<Page>>)
    requires Postorder(source, pages) && Indexed(pages, indices) && Cuts(groups, 0, |pages|)
    ensures |refs| == |pages| && Rewritten(source, pages, refs) && Laid(groups, ids, refs, staged)
  {
    hide Postorder, Rewritten, Indexed, Cuts;
    refs, staged := [], [];
    NothingRewritten(source, pages);
    CutsStart(groups, |pages|);
    for n := 0 to |groups|
      invariant |refs| == if n < |groups| then groups[n].first else |pages|
      invariant Rewritten(source, pages, refs) && |refs| <= |pages| && Laid(groups[..n], ids, refs, staged)
    {
      ghost var before := refs;
      CutsAt(groups, 0, |pages|, n);
      var id, more := ids(groups[n].first, groups[n].end), {};
      refs, more := LayRange(source, pages, indices, groups[n], id, refs);
      LaidNext(groups, n, ids, before, refs, staged, more);
      staged := staged + [more];
    }
    assert groups[..|groups|] == groups;
  }

  lemma {:induction false} CutsStart(groups: seq<Range>, n: nat)
    requires Cuts(groups, 0, n)
    ensures if groups == [] then n == 0 else groups[0].first == 0
  {
    if groups != [] { CutsAt(groups, 0, n, 0); }
  }

  lemma {:induction false} NothingRewritten(source: PackId, pages: seq<Page>)
    ensures Rewritten(source, pages, [])
  {
  }

  lemma {:induction false} LaidNext(groups: seq<Range>, n: nat, ids: (nat, nat) -> PackId, before: seq<Ref>, refs: seq<Ref>,
                                    staged: seq<set<Page>>, more: set<Page>)
    requires n < |groups| && Laid(groups[..n], ids, before, staged) && before <= refs
    requires groups[n].first < groups[n].end <= |refs| && more == Pages(refs, groups[n].first, groups[n].end)
    requires forall i :: groups[n].first <= i < groups[n].end ==> refs[i].pack == ids(groups[n].first, groups[n].end)
    ensures Laid(groups[..n + 1], ids, refs, staged + [more])
  {
    forall g | 0 <= g < n ensures staged[g] == Pages(refs, groups[g].first, groups[g].end) {
      assert groups[..n][g] == groups[g];
      assert Pages(before, groups[g].first, groups[g].end) == Pages(refs, groups[g].first, groups[g].end);
    }
    forall g, i | 0 <= g < n && groups[g].first <= i < groups[g].end
      ensures refs[i].pack == ids(groups[g].first, groups[g].end)
    {
      assert groups[..n][g] == groups[g];
    }
  }

  // --------------------------------------------------------------- splitting

  datatype Failure = Unreadable | TooLarge | Collision

  /** A range whose pack is too large and which holds one page cannot be split. */
  predicate Stuck(groups: seq<Range>, staged: seq<set<Page>>, fits: set<Page> -> bool) {
    exists g :: 0 <= g < |groups| && g < |staged| && !fits(staged[g]) && groups[g].end <= groups[g].first + 1
  }

  predicate AllFit(staged: seq<set<Page>>, fits: set<Page> -> bool) {
    forall g :: 0 <= g < |staged| ==> fits(staged[g])
  }

  /** One of the two halves of a range. */
  predicate IsHalf(x: Range, g: Range) {
    var middle := g.first + (g.end - g.first) / 2;
    g.first < middle < g.end && (x == Range(g.first, middle) || x == Range(middle, g.end))
  }

  /** A range that fits, or one half of a range that does not. */
  ghost predicate Comes(groups: seq<Range>, staged: seq<set<Page>>, fits: set<Page> -> bool, x: Range) {
    exists k :: 0 <= k < |groups| && k < |staged| && if fits(staged[k]) then x == groups[k] else IsHalf(x, groups[k])
  }

  /** Ranges that do not fit are halved; a single page that does not fit is an error. */
  method Refine(groups: seq<Range>, staged: seq<set<Page>>, fits: set<Page> -> bool, n: nat) returns (r: Option<seq<Range>>)
    requires Cuts(groups, 0, n) && |staged| == |groups|
    ensures r.None? <==> Stuck(groups, staged, fits)
    ensures r.Some? ==> Cuts(r.value, 0, n) && |groups| <= |r.value|
    ensures r.Some? ==> (|r.value| == |groups| <==> AllFit(staged, fits))
    ensures r.Some? && |r.value| == |groups| ==> r.value == groups
    ensures r.Some? ==> forall i :: 0 <= i < |r.value| ==> Comes(groups, staged, fits, r.value[i])
  {
    hide Cuts, Stuck, AllFit;
    var next: seq<Range> := [];
    NothingStuck(groups, staged, fits);
    CutsStart(groups, n);
    assert Cuts([], 0, 0) by { NoCuts(); }
    for i := 0 to |groups|
      invariant Cuts(next, 0, if i < |groups| then groups[i].first else n)
      invariant i <= |next| && (|next| == i <==> AllFit(staged[..i], fits))
      invariant |next| == i ==> next == groups[..i]
      invariant !Stuck(groups[..i], staged[..i], fits)
      invariant forall j :: 0 <= j < |next| ==> Comes(groups, staged, fits, next[j])
    {
      var g := groups[i];
      CutsAt(groups, 0, n, i);
      FitNext(groups, staged, i, fits);
      if !fits(staged[i]) {
        if g.end <= g.first + 1 {
          StuckInAll(groups, staged, i, fits);
          return None;
        }
        var middle := g.first + (g.end - g.first) / 2;
        assert IsHalf(Range(g.first, middle), groups[i]) && IsHalf(Range(middle, g.end), groups[i]);
        CutsNext(next, 0, g.first, middle);
        CutsNext(next + [Range(g.first, middle)], 0, middle, g.end);
        next := next + [Range(g.first, middle)] + [Range(middle, g.end)];
      } else {
        CutsNext(next, 0, g.first, g.end);
        assert Comes(groups, staged, fits, Range(g.first, g.end));
        next := next + [Range(g.first, g.end)];
      }
    }
    assert staged[..|groups|] == staged && groups[..|groups|] == groups;
    r := Some(next);
  }

  lemma {:induction false} NothingStuck(groups: seq<Range>, staged: seq<set<Page>>, fits: set<Page> -> bool)
    ensures !Stuck(groups[..0], staged[..0], fits) && AllFit(staged[..0], fits)
  {
  }

  lemma {:induction false} StuckInAll(groups: seq<Range>, staged: seq<set<Page>>, i: nat, fits: set<Page> -> bool)
    requires i < |groups| == |staged| && Stuck(groups[..i + 1], staged[..i + 1], fits)
    ensures Stuck(groups, staged, fits)
  {
    var g :| 0 <= g < i + 1 && !fits(staged[..i + 1][g]) && groups[..i + 1][g].end <= groups[..i + 1][g].first + 1;
    assert !fits(staged[g]) && groups[g].end <= groups[g].first + 1;
  }

  lemma {:induction false} FitNext(groups: seq<Range>, staged: seq<set<Page>>, i: nat, fits: set<Page> -> bool)
    requires i < |staged| == |groups|
    ensures AllFit(staged[..i + 1], fits) <==> AllFit(staged[..i], fits) && fits(staged[i])
    ensures Stuck(groups[..i + 1], staged[..i + 1], fits)
       <==> Stuck(groups[..i], staged[..i], fits) || (!fits(staged[i]) && groups[i].end <= groups[i].first + 1)
  {
    assert forall g :: 0 <= g < i ==> staged[..i + 1][g] == staged[..i][g] && groups[..i + 1][g] == groups[..i][g];
    assert staged[..i + 1][i] == staged[i] && groups[..i + 1][i] == groups[i];
  }

  datatype Layout = Layout(groups: seq<Range>, refs: seq<Ref>, staged: seq<set<Page>>, splits: nat)

  /** A way to cut the pages into ranges, each rewritten into the pack of its range. */
  ghost predicate IsLayout(source: PackId, pages: seq<Page>, ids: (nat, nat) -> PackId, l: Layout) {
    && Cuts(l.groups, 0, |pages|) && |l.refs| == |pages| && Rewritten(source, pages, l.refs)
    && Laid(l.groups, ids, l.refs, l.staged)
  }

  /** In this layout the pack of the range that x is a half of does not fit. */
  predicate Overfull(l: Layout, k: nat, fits: set<Page> -> bool, x: Range) {
    k < |l.groups| && k < |l.staged| && !fits(l.staged[k]) && IsHalf(x, l.groups[k])
  }

  /** A range of the first cut, or half of a range whose pack did not fit. */
  ghost predicate Earned(source: PackId, pages: seq<Page>, ids: (nat, nat) -> PackId, fits: set<Page> -> bool, initial: seq<Range>, x: Range) {
    x in initial || exists l, k: nat :: IsLayout(source, pages, ids, l) && Overfull(l, k, fits, x)
  }

  ghost predicate AllEarned(source: PackId, pages: seq<Page>, ids: (nat, nat) -> PackId, fits: set<Page> -> bool, initial: seq<Range>, groups: seq<Range>) {
    forall i :: 0 <= i < |groups| ==> Earned(source, pages, ids, fits, initial, groups[i])
  }

  lemma {:induction false} RefinedIsEarned(source: PackId, pages: seq<Page>, ids: (nat, nat) -> PackId, fits: set<Page> -> bool,
                                           initial: seq<Range>, l: Layout, next: seq<Range>)
    requires IsLayout(source, pages, ids, l) && AllEarned(source, pages, ids, fits, initial, l.groups)
    requires forall i :: 0 <= i < |next| ==> Comes(l.groups, l.staged, fits, next[i])
    ensures AllEarned(source, pages, ids, fits, initial, next)
  {
    hide IsLayout, IsHalf;
    forall i | 0 <= i < |next| ensures Earned(source, pages, ids, fits, initial, next[i]) {
      var k: nat :| k < |l.groups| && k < |l.staged| && if fits(l.staged[k]) then next[i] == l.groups[k] else IsHalf(next[i], l.groups[k]);
      assert fits(l.staged[k]) || Overfull(l, k, fits, next[i]);
    }
  }

  /**
    * Layouts are refined until every range fits, after fewer splits than there are pages,
    * and no range is halved without need. It fails only on a layout in which a single page
    * does not fit its pack.
    */
  method Settle(source: PackId, pages: seq<Page>, indices: map<Page, nat>, initial: seq<Range>,
                ids: (nat, nat) -> PackId, fits: set<Page> -> bool) returns (r: Result<Layout, Failure>)
    requires Postorder(source, pages) && Indexed(pages, indices) && Cuts(initial, 0, |pages|) && pages != []
    ensures r.Ok? ==> IsLayout(source, pages, ids, r.value) && AllFit(r.value.staged, fits)
    ensures r.Ok? ==> r.value.splits == |r.value.groups| - |initial| <= |pages| - 1
    ensures r.Ok? ==> AllEarned(source, pages, ids, fits, initial, r.value.groups)
    ensures r.Err? ==> r.error == TooLarge
                       && exists l :: IsLayout(source, pages, ids, l) && AllEarned(source, pages, ids, fits, initial, l.groups)
                                      && Stuck(l.groups, l.staged, fits)
  {
    hide Postorder, Rewritten, Indexed, Laid, AllFit, Stuck, Cuts, AllEarned, Comes;
    var groups := initial;
    CutsStart(initial, |pages|);
    InitialIsEarned(source, pages, ids, fits, initial);
    while true
      invariant Cuts(groups, 0, |pages|) && |initial| <= |groups|
      invariant AllEarned(source, pages, ids, fits, initial, groups)
      decreases |pages| - |groups|
    {
      var refs, staged := LayAll(source, pages, indices, groups, ids);
      LaidSize(groups, ids, refs, staged);
      var next := Refine(groups, staged, fits, |pages|);
      CutsAreFew(groups, 0, |pages|);
      ghost var l := Layout(groups, refs, staged, 0);
      assert IsLayout(source, pages, ids, l);
      if next.None? { return Err(TooLarge); }
      CutsAreFew(next.value, 0, |pages|);
      if |next.value| == |groups| {
        return Ok(Layout(groups, refs, staged, |groups| - |initial|));
      }
      RefinedIsEarned(source, pages, ids, fits, initial, l, next.value);
      groups := next.value;
    }
  }

  lemma {:induction false} InitialIsEarned(source: PackId, pages: seq<Page>, ids: (nat, nat) -> PackId, fits: set<Page> -> bool, initial: seq<Range>)
    ensures AllEarned(source, pages, ids, fits, initial, initial)
  {
  }

  lemma {:induction false} LaidSize(groups: seq<Range>, ids: (nat, nat) -> PackId, refs: seq<Ref>, staged: seq<set<Page>>)
    requires Laid(groups, ids, refs, staged)
    ensures |staged| == |groups|
  {
  }

  // -------------------------------------------------------------- publishing

  class PackStore {
    var packs: Packs

    constructor (packs: Packs)
      ensures this.packs == packs
    {
      this.packs := packs;
    }

    /** Create-only publication: an existing pack is accepted only with the same pages. */
    method Create(id: PackId, pages: set<Page>) returns (ok: bool)
      modifies this
      ensures ok <==> id !in old(packs) || old(packs)[id] == pages
      ensures packs == if ok then old(packs)[id := pages] else old(packs)
    {
      if id in packs { return packs[id] == pages; }
      packs := packs[id := pages];
      return true;
    }
  }

  /** Range g of the layout puts these pages into pack p. */
  predicate Puts(groups: seq<Range>, ids: (nat, nat) -> PackId, staged: seq<set<Page>>, g: nat, p: PackId, pages: set<Page>)
    requires |groups| == |staged|
  {
    g < |groups| && ids(groups[g].first, groups[g].end) == p && staged[g] == pages
  }

  /** A pack of the layout exists with other pages, or two ranges need different pages in one pack. */
  ghost predicate Collides(was: Packs, groups: seq<Range>, ids: (nat, nat) -> PackId, staged: seq<set<Page>>)
    requires |groups| == |staged|
  {
    || (exists g: nat, p, pages :: Puts(groups, ids, staged, g, p, pages) && p in was && was[p] != pages)
    || (exists g: nat, h: nat, p, a, b :: Puts(groups, ids, staged, g, p, a) && Puts(groups, ids, staged, h, p, b) && a != b)
  }

  /** The packs of a layout, and no others, have been added; nothing has been replaced. */
  ghost predicate Published(was: Packs, now: Packs, groups: seq<Range>, ids: (nat, nat) -> PackId, staged: seq<set<Page>>)
    requires |groups| == |staged|
  {
    && (forall p :: p in was ==> p in now && now[p] == was[p])
    && (forall p :: p in now ==> p in was || exists g :: 0 <= g < |groups| && Puts(groups, ids, staged, g, p, now[p]))
    && (forall g :: 0 <= g < |groups| ==>
          ids(groups[g].first, groups[g].end) in now && now[ids(groups[g].first, groups[g].end)] == staged[g])
  }

  method Publish(store: PackStore, layout: Layout, ids: (nat, nat) -> PackId) returns (ok: bool)
    requires |layout.groups| == |layout.staged|
    modifies store
    ensures forall p :: p in old(store.packs) ==> p in store.packs && store.packs[p] == old(store.packs)[p]
    ensures forall p :: p in store.packs ==> p in old(store.packs) || store.packs[p] in layout.staged
    ensures ok <==> !Collides(old(store.packs), layout.groups, ids, layout.staged)
    ensures ok ==> Published(old(store.packs), store.packs, layout.groups, ids, layout.staged)
  {
    hide Puts, Collides, Published;
    PublishNothing(store.packs, layout, ids);
    ghost var was := store.packs;
    for n := 0 to |layout.groups|
      invariant Published(was, store.packs, layout.groups[..n], ids, layout.staged[..n])
    {
      var g := layout.groups[n];
      ghost var before := store.packs;
      PublishedParts(was, before, layout, n, ids);
      ok := store.Create(ids(g.first, g.end), layout.staged[n]);
      if !ok {
        ConflictCollides(was, before, layout, n, ids);
        return;
      }
      PublishedNext(was, before, store.packs, layout, n, ids);
    }
    assert layout.groups[..|layout.groups|] == layout.groups && layout.staged[..|layout.groups|] == layout.staged;
    PublishedParts(was, store.packs, layout, |layout.groups|, ids);
    PublishedIsFree(was, store.packs, layout, ids);
    return true;
  }

  lemma {:induction false} PublishNothing(was: Packs, layout: Layout, ids: (nat, nat) -> PackId)
    requires |layout.groups| == |layout.staged|
    ensures Published(was, was, layout.groups[..0], ids, layout.staged[..0])
  {
  }

  lemma {:induction false} PublishedParts(was: Packs, now: Packs, layout: Layout, n: nat, ids: (nat, nat) -> PackId)
    requires n <= |layout.groups| == |layout.staged| && Published(was, now, layout.groups[..n], ids, layout.staged[..n])
    ensures forall p :: p in was ==> p in now && now[p] == was[p]
    ensures forall p :: p in now ==> p in was || now[p] in layout.staged
  {
    forall p | p in now && p !in was ensures now[p] in layout.staged {
      var g :| 0 <= g < n && Puts(layout.groups[..n], ids, layout.staged[..n], g, p, now[p]);
      assert layout.staged[g] == now[p];
    }
  }

  /** What stops the publication collides. */
  lemma {:induction false} ConflictCollides(was: Packs, before: Packs, layout: Layout, n: nat, ids: (nat, nat) -> PackId)
    requires n < |layout.groups| == |layout.staged| && Published(was, before, layout.groups[..n], ids, layout.staged[..n])
    requires var id := ids(layout.groups[n].first, layout.groups[n].end); id in before && before[id] != layout.staged[n]
    ensures Collides(was, layout.groups, ids, layout.staged)
  {
    var id := ids(layout.groups[n].first, layout.groups[n].end);
    assert Puts(layout.groups, ids, layout.staged, n, id, layout.staged[n]);
    if id !in was {
      var g :| 0 <= g < n && Puts(layout.groups[..n], ids, layout.staged[..n], g, id, before[id]);
      assert Puts(layout.groups, ids, layout.staged, g, id, before[id]);
    }
  }

  lemma {:induction false} PublishedIsFree(was: Packs, now: Packs, layout: Layout, ids: (nat, nat) -> PackId)
    requires |layout.groups| == |layout.staged| && Published(was, now, layout.groups, ids, layout.staged)
    ensures !Collides(was, layout.groups, ids, layout.staged)
  {
    forall g: nat, p, pages | Puts(layout.groups, ids, layout.staged, g, p, pages) ensures p in now && now[p] == pages {
      assert now[ids(layout.groups[g].first, layout.groups[g].end)] == layout.staged[g];
    }
  }

  lemma {:induction false} PublishedNext(was: Packs, before: Packs, now: Packs, layout: Layout, n: nat, ids: (nat, nat) -> PackId)
    requires n < |layout.groups| == |layout.staged|
    requires Published(was, before, layout.groups[..n], ids, layout.staged[..n])
    requires var id := ids(layout.groups[n].first, layout.groups[n].end);
             (id in before ==> before[id] == layout.staged[n]) && now == before[id := layout.staged[n]]
    ensures Published(was, now, layout.groups[..n + 1], ids, layout.staged[..n + 1])
  {
    var gs, ss := layout.groups[..n + 1], layout.staged[..n + 1];
    forall g | 0 <= g < n + 1
      ensures ids(gs[g].first, gs[g].end) in now && now[ids(gs[g].first, gs[g].end)] == ss[g]
    {
      if g < n { assert layout.groups[..n][g] == gs[g] && layout.staged[..n][g] == ss[g]; }
    }
    forall p | p in now && p !in was ensures exists g :: 0 <= g < n + 1 && Puts(gs, ids, ss, g, p, now[p]) {
      if p in before {
        var g :| 0 <= g < n && Puts(layout.groups[..n], ids, layout.staged[..n], g, p, before[p]);
        assert Puts(gs, ids, ss, g, p, now[p]);
      } else {
        assert Puts(gs, ids, ss, n, p, now[p]);
      }
    }
  }

  lemma {:induction false} PublishedHolds(groups: seq<Range>, ids: (nat, nat) -> PackId, refs: seq<Ref>, staged: seq<set<Page>>,
                                          was: Packs, now: Packs, i: nat)
    requires Cuts(groups, 0, |refs|) && Laid(groups, ids, refs, staged) && Published(was, now, groups, ids, staged) && i < |refs|
    ensures Holds(now, refs[i])
  {
    var g := RangeOf(groups, |refs|, i);
    assert refs[i].page in Pages(refs, groups[g].first, groups[g].end);
  }

  /** Every page belongs to a range. */
  lemma {:induction false} RangeOf(groups: seq<Range>, n: nat, i: nat) returns (g: nat)
    requires Cuts(groups, 0, n) && i < n
    ensures g < |groups| && groups[g].first <= i < groups[g].end
    decreases |groups|
  {
    var last := groups[|groups| - 1];
    if last.first <= i {
      g := |groups| - 1;
    } else {
      g := RangeOf(groups[..|groups| - 1], last.first, i);
    }
  }

  // --------------------------------------------------------------- operation

  type Root = Option<Ref>

  /** What repacking makes of a root: the same tree, with the recorded level and totals. */
  ghost predicate RootRepacked(source: PackId, root: Root, root': Root) {
    match root case None => root'.None? case Some(ref) => 
      root'.Some? && SameTree(source, ref, root'.value) && Rooted(root'.value).about == Rooted(ref).about
  }

  ghost predicate RootIntact(source: PackId, held: set<Page>, root: Root) {
    root.Some? ==> AllIntact(source, held, root.value)
  }

  method CollectRoots(closure: Closure, roots: seq<Root>) returns (ok: bool)
    requires closure.Valid() && closure.visiting == {} && closure.pages == []
    modifies closure
    ensures closure.Valid()
    ensures ok <==> forall i :: 0 <= i < |roots| ==> RootIntact(closure.source, closure.held, roots[i])
    ensures ok ==> forall i :: 0 <= i < |roots| && roots[i].Some? && roots[i].value.pack == closure.source ==>
      roots[i].value.page in closure.pages && Described(roots[i].value)
    ensures ok ==> FromRoots(closure.source, roots, closure.pages)
  {
    for n := 0 to |roots|
      invariant closure.Valid() && closure.visiting == {}
      invariant forall i :: 0 <= i < n ==> RootIntact(closure.source, closure.held, roots[i])
      invariant forall i :: 0 <= i < n && roots[i].Some? && roots[i].value.pack == closure.source ==>
        roots[i].value.page in closure.pages && Described(roots[i].value)
      invariant FromRoots(closure.source, roots, closure.pages)
    {
      if roots[n].Some? {
        ghost var before := closure.pages;
        ok := closure.Collect(roots[n].value);
        if !ok { return; }
        FromRootsNext(closure.source, roots, n, before, closure.pages);
      }
    }
    return true;
  }

  /** Every collected page is within one of the roots. */
  ghost predicate FromRoots(source: PackId, roots: seq<Root>, pages: seq<Page>) {
    forall p :: p in pages ==> exists i :: 0 <= i < |roots| && roots[i].Some? && Within(source, roots[i].value, p)
  }

  lemma {:induction false} FromRootsNext(source: PackId, roots: seq<Root>, n: nat, before: seq<Page>, pages: seq<Page>)
    requires n < |roots| && roots[n].Some? && FromRoots(source, roots, before) && FromRef(source, roots[n].value, before, pages)
    ensures FromRoots(source, roots, pages)
  {
  }

  /** A child outside the source pack, anywhere within a root, is present. */
  ghost predicate RootsOutsidePresent(source: PackId, roots: seq<Root>, packs: Packs) {
    && (forall i :: 0 <= i < |roots| && roots[i].Some? && roots[i].value.pack != source ==> Present(packs, roots[i].value))
    && (forall i, p, n ::
          (0 <= i < |roots| && roots[i].Some? && Within(source, roots[i].value, p) && p.Branch?
           && 0 <= n < |p.children| && p.children[n].pack != source)
          ==> Present(packs, p.children[n]))
  }

  lemma {:induction false} OutsideOfRoots(source: PackId, roots: seq<Root>, pages: seq<Page>, packs: Packs)
    requires FromRoots(source, roots, pages) && RootsOutsidePresent(source, roots, packs)
    ensures OutsidePresent(source, pages, packs)
  {
    forall i, n | 0 <= i < |pages| && pages[i].Branch? && 0 <= n < |pages[i].children| && pages[i].children[n].pack != source
      ensures Present(packs, pages[i].children[n])
    {
      assert pages[i] in pages;
    }
  }

  ghost predicate IsRooted(root: Ref, refs: seq<Ref>) {
    exists k :: 0 <= k < |refs| && root == Rooted(refs[k])
  }

  lemma {:induction false} RewrittenRoot(source: PackId, pages: seq<Page>, refs: seq<Ref>, k: nat, root: Ref)
    requires Rewritten(source, pages, refs) && AllChecked(source, pages) && k < |refs|
    requires root.pack == source && root.page == pages[k] && Described(root)
    ensures RootRepacked(source, Some(root), Some(Rooted(refs[k])))
  {
    hide Rewritten, AllChecked, Describe;
    RewrittenIsSame(source, pages, refs, k);
    RewrittenIsDescribed(source, pages, refs, k);
  }

  lemma {:induction false} KeptRoot(source: PackId, root: Root)
    requires root.Some? ==> root.value.pack != source
    ensures RootRepacked(source, root, root)
  {
  }

  method NewRoots(source: PackId, pages: seq<Page>, indices: map<Page, nat>, refs: seq<Ref>, roots: seq<Root>)
    returns (result: seq<Root>)
    requires Indexed(pages, indices) && Rewritten(source, pages, refs) && |refs| == |pages| && AllChecked(source, pages)
    requires forall i :: 0 <= i < |roots| && roots[i].Some? && roots[i].value.pack == source ==>
      roots[i].value.page in pages && Described(roots[i].value)
    ensures |result| == |roots| && forall i :: 0 <= i < |roots| ==> RootRepacked(source, roots[i], result[i])
    ensures forall i :: 0 <= i < |roots| && result[i].Some? && roots[i].Some? ==>
      if roots[i].value.pack == source then IsRooted(result[i].value, refs) else result[i] == roots[i]
  {
    hide RootRepacked, Rewritten, Described, AllChecked, Describe;
    result := roots;
    for n := 0 to |roots|
      invariant |result| == |roots| && forall i :: n <= i < |roots| ==> result[i] == roots[i]
      invariant forall i :: 0 <= i < n ==> RootRepacked(source, roots[i], result[i])
      invariant forall i :: 0 <= i < n && result[i].Some? && roots[i].Some? ==>
        if roots[i].value.pack == source then IsRooted(result[i].value, refs) else result[i] == roots[i]
    {
      if roots[n].Some? && roots[n].value.pack == source {
        var k := indices[roots[n].value.page];
        RewrittenRoot(source, pages, refs, k, roots[n].value);
        result := result[n := Some(Rooted(refs[k]))];
      } else {
        KeptRoot(source, roots[n]);
      }
    }
  }

  /** A layout of pages within the roots that comes from their first cut by size. */
  ghost predicate Cut(source: PackId, roots: seq<Root>, size: Page -> nat, header: nat, limit: nat, ids: (nat, nat) -> PackId,
                      fits: set<Page> -> bool, pages: seq<Page>, initial: seq<Range>, l: Layout) {
    && FromRoots(source, roots, pages) && IsLayout(source, pages, ids, l)
    && FirstCut(pages, size, header, limit, initial) && AllEarned(source, pages, ids, fits, initial, l.groups)
  }

  ghost predicate FirstCut(pages: seq<Page>, size: Page -> nat, header: nat, limit: nat, initial: seq<Range>) {
    && Cuts(initial, 0, |pages|)
    && forall g :: 0 <= g < |initial| ==>
         Maximal(seq(|pages|, i requires 0 <= i < |pages| => size(pages[i])), header, limit, initial[g])
  }

  lemma {:induction false} NothingCut(source: PackId, roots: seq<Root>, size: Page -> nat, header: nat, limit: nat,
                                      ids: (nat, nat) -> PackId, fits: set<Page> -> bool, packs: Packs)
    ensures var l := Layout([], [], [], 0);
            && Cut(source, roots, size, header, limit, ids, fits, [], [], l) && AllFit(l.staged, fits)
            && Published(packs, packs, l.groups, ids, l.staged)
  {
  }

  /**
    * The whole operation. It fails before anything is published exactly when a page cannot
    * be read or is not what a reference says, and when in some layout a single page does not
    * fit; while publishing it fails only where a pack would need other pages than it has. The
    * layout is the first cut by size with ranges halved only where a pack did not fit. No pack
    * is replaced, every pack added fits, and on success the packs added are those of the
    * layout, the new roots are the same trees, and all of them are present.
    */
  method RepackClosure(store: PackStore, source: PackId, held: set<Page>, roots: seq<Root>, size: Page -> nat, header: nat,
                       limit: nat, ids: (nat, nat) -> PackId, fits: set<Page> -> bool) returns (r: Result<seq<Root>, Failure>)
    modifies store
    ensures r == Err(Unreadable) <==> !(forall i :: 0 <= i < |roots| ==> RootIntact(source, held, roots[i]))
    ensures r.Err? && r.error != Collision ==> store.packs == old(store.packs)
    ensures r == Err(TooLarge) ==>
      exists pages, initial, l :: Cut(source, roots, size, header, limit, ids, fits, pages, initial, l) && Stuck(l.groups, l.staged, fits)
    ensures r == Err(Collision) ==>
      exists pages, initial, l ::
        && Cut(source, roots, size, header, limit, ids, fits, pages, initial, l) && AllFit(l.staged, fits)
        && |l.groups| == |l.staged| && Collides(old(store.packs), l.groups, ids, l.staged)
    ensures r.Ok? ==>
      exists pages, initial, l ::
        && Cut(source, roots, size, header, limit, ids, fits, pages, initial, l) && AllFit(l.staged, fits)
        && |l.groups| == |l.staged| && Published(old(store.packs), store.packs, l.groups, ids, l.staged)
    ensures forall p :: p in old(store.packs) ==> p in store.packs && store.packs[p] == old(store.packs)[p]
    ensures forall p :: p in store.packs && p !in old(store.packs) ==> fits(store.packs[p])
    ensures r.Ok? ==> |r.value| == |roots| && forall i :: 0 <= i < |roots| ==> RootRepacked(source, roots[i], r.value[i])
    ensures r.Ok? && RootsOutsidePresent(source, roots, old(store.packs)) ==>
      forall i :: 0 <= i < |roots| && r.value[i].Some? ==> Present(store.packs, r.value[i].value)
  {
    hide Postorder, IsLayout, SameTree, Within, AllIntact, FromRoots, AllFit, Present, OutsidePresent, Published, Stuck, Collides,
         Intact, AllChecked, Indexed, Described, RootRepacked, IsRooted, RootsOutsidePresent, Rewritten, Cuts, Laid, AllEarned, Maximal;
    ghost var was := store.packs;
    var closure := new Closure(source, held);
    var ok := CollectRoots(closure, roots);
    if !ok { return Err(Unreadable); }
    var pages, indices := closure.pages, closure.indices;
    CollectedParts(source, held, pages, indices);
    if pages == [] {
      UntouchedRoots(source, roots, was);
      NothingCut(source, roots, size, header, limit, ids, fits, was);
      return Ok(roots);
    }
    var sizes := SizesOf(pages, size);
    var initial := InitialRanges(sizes, header, limit);
    assert sizes == seq(|pages|, i requires 0 <= i < |pages| => size(pages[i]));
    assert FirstCut(pages, size, header, limit, initial);
    var settled := Settle(source, pages, indices, initial, ids, fits);
    if settled.Err? {
      ghost var l :| IsLayout(source, pages, ids, l) && AllEarned(source, pages, ids, fits, initial, l.groups)
                     && Stuck(l.groups, l.staged, fits);
      assert Cut(source, roots, size, header, limit, ids, fits, pages, initial, l);
      return Err(TooLarge);
    }
    var layout := settled.value;
    LayoutParts(source, pages, ids, layout);
    assert Cut(source, roots, size, header, limit, ids, fits, pages, initial, layout);
    ok := Publish(store, layout, ids);
    FitsEach(layout.staged, fits);
    if !ok { return Err(Collision); }
    var result := NewRoots(source, pages, indices, layout.refs, roots);
    RootsPresent(source, pages, roots, result, layout, ids, was, store.packs);
    return Ok(result);
  }

  lemma {:induction false} CollectedParts(source: PackId, held: set<Page>, pages: seq<Page>, indices: map<Page, nat>)
    requires forall p :: p in pages ==> Intact(source, held, p) && p in indices
    requires forall p :: p in indices ==> indices[p] < |pages| && pages[indices[p]] == p
    ensures AllChecked(source, pages) && Indexed(pages, indices)
  {
    hide ValidPage, ChildrenDescribed;
    forall i | 0 <= i < |pages| ensures Intact(source, held, pages[i]) { assert pages[i] in pages; }
  }

  lemma {:induction false} LayoutParts(source: PackId, pages: seq<Page>, ids: (nat, nat) -> PackId, l: Layout)
    requires IsLayout(source, pages, ids, l)
    ensures |l.staged| == |l.groups| && |l.refs| == |pages| && Rewritten(source, pages, l.refs)
    ensures Cuts(l.groups, 0, |pages|) && Laid(l.groups, ids, l.refs, l.staged)
  {
    hide Cuts, Rewritten;
  }

  method SizesOf(pages: seq<Page>, size: Page -> nat) returns (sizes: seq<nat>)
    ensures |sizes| == |pages| && forall i :: 0 <= i < |pages| ==> sizes[i] == size(pages[i])
  {
    sizes := seq(|pages|, i requires 0 <= i < |pages| => size(pages[i]));
  }

  lemma {:induction false} FitsEach(staged: seq<set<Page>>, fits: set<Page> -> bool)
    requires AllFit(staged, fits)
    ensures forall p :: p in staged ==> fits(p)
  {
  }

  lemma {:induction false} UntouchedRoots(source: PackId, roots: seq<Root>, packs: Packs)
    requires forall i :: 0 <= i < |roots| && roots[i].Some? ==> roots[i].value.pack != source
    ensures forall i :: 0 <= i < |roots| ==> RootRepacked(source, roots[i], roots[i])
    ensures RootsOutsidePresent(source, roots, packs) ==>
              forall i :: 0 <= i < |roots| && roots[i].Some? ==> Present(packs, roots[i].value)
  {
  }

  lemma {:induction false} RootsPresent(source: PackId, pages: seq<Page>, roots: seq<Root>, result: seq<Root>, layout: Layout,
                                        ids: (nat, nat) -> PackId, was: Packs, now: Packs)
    requires FromRoots(source, roots, pages) && Rewritten(source, pages, layout.refs) && |layout.refs| == |pages|
    requires AllChecked(source, pages)
    requires Cuts(layout.groups, 0, |pages|) && Laid(layout.groups, ids, layout.refs, layout.staged)
    requires Published(was, now, layout.groups, ids, layout.staged)
    requires |result| == |roots| && forall i :: 0 <= i < |roots| ==> RootRepacked(source, roots[i], result[i])
    requires forall i :: 0 <= i < |roots| && result[i].Some? && roots[i].Some? ==>
      if roots[i].value.pack == source then IsRooted(result[i].value, layout.refs) else result[i] == roots[i]
    ensures RootsOutsidePresent(source, roots, was) ==>
              forall i :: 0 <= i < |roots| && result[i].Some? ==> Present(now, result[i].value)
  {
    hide Within, Rewritten, Laid, SameTree, Cuts, FromRoots, AllChecked, Present;
    if RootsOutsidePresent(source, roots, was) {
      OutsideOfRoots(source, roots, pages, was);
      OutsideStays(source, pages, was, now);
      forall k | 0 <= k < |layout.refs| ensures Holds(now, layout.refs[k]) {
        PublishedHolds(layout.groups, ids, layout.refs, layout.staged, was, now, k);
      }
      forall i | 0 <= i < |roots| && result[i].Some? ensures Present(now, result[i].value) {
        if roots[i].value.pack == source {
          var k :| 0 <= k < |layout.refs| && result[i].value == Rooted(layout.refs[k]);
          RewrittenIsPresent(source, pages, layout.refs, now, k);
          RootedIsPresent(now, layout.refs[k]);
        } else {
          PresentInMore(was, now, None, roots[i].value);
        }
      }
    }
  }

  lemma {:induction false} OutsideStays(source: PackId, pages: seq<Page>, was: Packs, now: Packs)
    requires OutsidePresent(source, pages, was) && Covers(was, now, None)
    ensures OutsidePresent(source, pages, now)
  {
    forall i, n | 0 <= i < |pages| && pages[i].Branch? && 0 <= n < |pages[i].children| && pages[i].children[n].pack != source
      ensures Present(now, pages[i].children[n])
    {
      PresentInMore(was, now, None, pages[i].children[n]);
    }
  }
}
