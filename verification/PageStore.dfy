/**
  * Where tree pages live. Pages are grouped into packs, immutable objects created
  * only once, or stored one by one; a domain head names root pages. Writers stage
  * pages, publish packs and then the head, and may stop anywhere. Collection deletes
  * what no root reaches once a freeze has made every writer stale.
  *
  * Digests are injective, so the digest of a page is the page. A reference is a page
  * together with the pack that holds it and the recorded descriptor, so a branch here,
  * unlike one of DomainTree, says where its children are stored.
  */
module PageStore {
  import opened Basics
  import D = DomainTree

  type PackId = nat

  /** The identity of pages that are stored one by one. */
  const UNPACKED: PackId := 0

  datatype Page = Leaf(entries: seq<D.Entry>) | Branch(level: nat, children: seq<Ref>)

  /** What a reference records of its page. A root records no bounds. */
  datatype Descriptor = Descriptor(level: nat, count: nat, bytes: nat, bounds: Option<(Key, Key)>)

  datatype Ref = Ref(pack: PackId, page: Page, about: Descriptor)

  type Packs = map<PackId, set<Page>>

  predicate Holds(packs: Packs, ref: Ref) {
    ref.pack in packs && ref.page in packs[ref.pack]
  }

  // ------------------------------------------------------------- descriptors

  function Counts(cs: seq<Ref>): nat {
    if cs == [] then 0 else Counts(cs[..|cs| - 1]) + cs[|cs| - 1].about.count
  }

  function Totals(cs: seq<Ref>): nat {
    if cs == [] then 0 else Totals(cs[..|cs| - 1]) + cs[|cs| - 1].about.bytes
  }

  function Bounds(cs: seq<Ref>): Option<(Key, Key)> {
    if cs == [] || cs[0].about.bounds.None? || cs[|cs| - 1].about.bounds.None? then None
    else Some((cs[0].about.bounds.value.0, cs[|cs| - 1].about.bounds.value.1))
  }

  /** consistencyDomainPageDescriptor: computed from the page alone. */
  function Describe(page: Page): Descriptor {
    match page
    case Leaf(es) =>
      Descriptor(0, |es|, D.ValueBytes(es), if es == [] then None else Some((es[0].key, es[|es| - 1].key)))
    case Branch(level, cs) => Descriptor(level, Counts(cs), Totals(cs), Bounds(cs))
  }

  /** verifyConsistencyDomainPageRef: bounds are compared where they are recorded. */
  predicate Described(ref: Ref) {
    var d := Describe(ref.page);
    d == ref.about.(bounds := d.bounds) && (ref.about.bounds.Some? ==> ref.about.bounds == d.bounds)
  }

  predicate ValidChild(c: Ref, level: nat) {
    && c.about.level + 1 == level && 0 < c.about.count
    && c.about.bounds.Some? && c.about.bounds.value.0 <= c.about.bounds.value.1
  }

  /** ValidateDomainPage. */
  predicate ValidPage(page: Page) {
    match page
    case Leaf(es) => D.Sorted(es)
    case Branch(level, cs) =>
      && cs != [] && (forall i :: 0 <= i < |cs| ==> ValidChild(cs[i], level))
      && forall i :: 0 < i < |cs| ==> cs[i - 1].about.bounds.value.1 < cs[i].about.bounds.value.0
  }

  /** The reference to a page written to a pack, and a reference as a head records it. */
  function Refer(pack: PackId, page: Page): Ref {
    Ref(pack, page, Describe(page))
  }

  function Rooted(ref: Ref): Ref {
    ref.(about := ref.about.(bounds := None))
  }

  /** The page and every page below it are stored where their references say, valid and as described. */
  ghost predicate Present(packs: Packs, ref: Ref)
    decreases ref
  {
    && Holds(packs, ref) && ValidPage(ref.page) && Described(ref)
    && (ref.page.Branch? ==> forall i :: 0 <= i < |ref.page.children| ==> Present(packs, ref.page.children[i]))
  }

  function Contents(ref: Ref): seq<D.Entry>
    decreases ref, 1
  {
    match ref.page case Leaf(entries) => entries case Branch(_, children) => ContentsOf(ref, |children|)
  }

  function ContentsOf(ref: Ref, n: nat): seq<D.Entry>
    requires ref.page.Branch? && n <= |ref.page.children|
    decreases ref, 0, n
  {
    if n == 0 then [] else ContentsOf(ref, n - 1) + Contents(ref.page.children[n - 1])
  }

  /** The recorded descriptor is true of the entries below the reference. */
  ghost predicate TrueOf(about: Descriptor, es: seq<D.Entry>) {
    && D.Sorted(es) && about.count == |es| && about.bytes == D.ValueBytes(es)
    && (about.bounds.Some? ==> es != [] && about.bounds.value == (es[0].key, es[|es| - 1].key))
  }

  /** Every leaf below the reference lies the same number of levels down. */
  ghost predicate Uniform(ref: Ref, depth: nat)
    decreases ref
  {
    match ref.page
    case Leaf(_) => depth == 0
    case Branch(_, cs) => 0 < depth && forall i :: 0 <= i < |cs| ==> Uniform(cs[i], depth - 1)
  }

  /** A recorded level is the height of the tree. */
  lemma {:induction false} LevelIsHeight(packs: Packs, ref: Ref)
    requires Present(packs, ref)
    ensures Uniform(ref, ref.about.level)
    decreases ref
  {
    if ref.page.Branch? {
      var cs := ref.page.children;
      forall i | 0 <= i < |cs| ensures Uniform(cs[i], cs[i].about.level) && cs[i].about.level + 1 == ref.about.level {
        LevelIsHeight(packs, cs[i]);
        assert ValidChild(cs[i], ref.page.level);
      }
      assert ref.about.level == cs[0].about.level + 1;
    }
  }

  /** Whatever is present is a search tree whose every descriptor tells the truth about the entries below. */
  lemma {:induction false} DescriptorsAreTrue(packs: Packs, ref: Ref)
    requires Present(packs, ref)
    ensures TrueOf(ref.about, Contents(ref))
    decreases ref, 1
  {
    if ref.page.Branch? {
      var cs := ref.page.children;
      ContentsAreDescribed(packs, ref, |cs|);
      assert cs[..|cs|] == cs;
    }
  }

  lemma {:induction false} ContentsAreDescribed(packs: Packs, ref: Ref, n: nat)
    requires Present(packs, ref) && ref.page.Branch? && 0 < n <= |ref.page.children|
    ensures var cs, es := ref.page.children[..n], ContentsOf(ref, n);
            TrueOf(Descriptor(ref.page.level, Counts(cs), Totals(cs), Bounds(cs)), es) && es != []
    decreases ref, 0, n
  {
    var cs := ref.page.children;
    DescriptorsAreTrue(packs, cs[n - 1]);
    assert ValidChild(cs[n - 1], ref.page.level);
    assert cs[..n][..n - 1] == cs[..n - 1];
    if n == 1 {
      assert ContentsOf(ref, 0) == [] && [] + Contents(cs[0]) == Contents(cs[0]);
    } else {
      ContentsAreDescribed(packs, ref, n - 1);
      assert ValidChild(cs[n - 2], ref.page.level) && ValidChild(cs[0], ref.page.level);
      JoinDescribed(cs, n, ContentsOf(ref, n - 1), Contents(cs[n - 1]));
    }
  }

  lemma {:induction false} JoinDescribed(cs: seq<Ref>, n: nat, a: seq<D.Entry>, b: seq<D.Entry>)
    requires 1 < n <= |cs| && a != [] && b != []
    requires cs[0].about.bounds.Some? && cs[n - 2].about.bounds.Some? && cs[n - 1].about.bounds.Some?
    requires cs[n - 2].about.bounds.value.1 < cs[n - 1].about.bounds.value.0
    requires TrueOf(Descriptor(0, Counts(cs[..n - 1]), Totals(cs[..n - 1]), Bounds(cs[..n - 1])), a)
    requires TrueOf(cs[n - 1].about, b)
    ensures TrueOf(Descriptor(0, Counts(cs[..n]), Totals(cs[..n]), Bounds(cs[..n])), a + b)
  {
    assert cs[..n][..n - 1] == cs[..n - 1];
    D.SortedAppend(a, b);
    D.ValueBytesAppend(a, b);
  }

  /** readPage: the pack or the single page, the page in its pack, its own validity, and the descriptor, in that order. */
  method ReadPage(packs: Packs, ref: Ref) returns (r: Result<Page, ErrorKind>)
    ensures r.Ok? <==> ref.pack in packs && ref.page in packs[ref.pack] && ValidPage(ref.page) && Described(ref)
    ensures r.Ok? ==> r.value == ref.page
    ensures r.Err? ==> r.error == if ref.pack !in packs || (ref.pack == UNPACKED && ref.page !in packs[UNPACKED]) then NotFound else Invalid
  {
    if ref.pack !in packs { return Err(NotFound); }
    if ref.page !in packs[ref.pack] { return Err(if ref.pack == UNPACKED then NotFound else Invalid); }
    if !ValidPage(ref.page) { return Err(Invalid); }
    if !Described(ref) { return Err(Invalid); }
    r := Ok(ref.page);
  }

  /** Reading everything below a reference succeeds exactly when it is present, and gives its entries in order. */
  method ReadTree(packs: Packs, ref: Ref) returns (r: Result<seq<D.Entry>, ErrorKind>)
    ensures r.Ok? <==> Present(packs, ref)
    ensures r.Ok? ==> r.value == Contents(ref)
    decreases ref
  {
    hide ValidPage, Described;
    var page := ReadPage(packs, ref);
    if page.Err? { return Err(page.error); }
    if page.value.Leaf? { return Ok(page.value.entries); }
    var children := page.value.children;
    var out: seq<D.Entry> := [];
    for n := 0 to |children|
      invariant out == ContentsOf(ref, n)
      invariant forall i :: 0 <= i < n ==> Present(packs, children[i])
    {
      var below := ReadTree(packs, children[n]);
      if below.Err? { return Err(below.error); }
      out := out + below.value;
    }
    r := Ok(out);
  }

  /** The reference, or one below it, is to a page of this pack. */
  ghost predicate Uses(ref: Ref, pack: PackId)
    decreases ref
  {
    ref.pack == pack || (ref.page.Branch? && exists i :: 0 <= i < |ref.page.children| && Uses(ref.page.children[i], pack))
  }

  /** Every pack of the one is in the other with at least its pages, except perhaps one. */
  ghost predicate Covers(packs: Packs, packs': Packs, except: Option<PackId>) {
    forall p :: p in packs && except != Some(p) ==> p in packs' && packs[p] <= packs'[p]
  }

  lemma {:induction false} PresentInMore(packs: Packs, packs': Packs, except: Option<PackId>, ref: Ref)
    requires Covers(packs, packs', except) && Present(packs, ref)
    requires except.Some? ==> !Uses(ref, except.value)
    ensures Present(packs', ref)
    decreases ref
  {
    if ref.page.Branch? {
      forall i | 0 <= i < |ref.page.children| ensures Present(packs', ref.page.children[i]) {
        PresentInMore(packs, packs', except, ref.page.children[i]);
      }
    }
  }

  /** The reference, or one below it, is to this page where it is stored alone. */
  ghost predicate Names(ref: Ref, page: Page)
    decreases ref
  {
    || (ref.pack == UNPACKED && ref.page == page)
    || (ref.page.Branch? && exists i :: 0 <= i < |ref.page.children| && Names(ref.page.children[i], page))
  }

  /** Nothing at or below the reference is deleted. */
  ghost predicate Spares(ref: Ref, packs: set<PackId>, pages: set<Page>) {
    (forall p :: p in packs ==> !Uses(ref, p)) && (forall page :: page in pages ==> !Names(ref, page))
  }

  function Swept(was: Packs, packs: set<PackId>, pages: set<Page>): Packs {
    map p | p in was && p !in packs :: if p == UNPACKED then was[p] - pages else was[p]
  }

  lemma {:induction false} SparedIsPresent(was: Packs, ref: Ref, packs: set<PackId>, pages: set<Page>)
    requires Present(was, ref) && Spares(ref, packs, pages)
    ensures Present(Swept(was, packs, pages), ref)
    decreases ref
  {
    assert Uses(ref, ref.pack);
    assert ref.pack == UNPACKED ==> Names(ref, ref.page);
    if ref.page.Branch? {
      forall i | 0 <= i < |ref.page.children| ensures Present(Swept(was, packs, pages), ref.page.children[i]) {
        var child := ref.page.children[i];
        assert forall p :: Uses(child, p) ==> Uses(ref, p);
        assert forall page :: Names(child, page) ==> Names(ref, page);
        SparedIsPresent(was, child, packs, pages);
      }
    }
  }

  // ------------------------------------------------------------ the protocol

  /** A writer: the references it may use, the packs it stages and those it has published. */
  datatype Writer = Writer(seen: nat, refs: set<Ref>, staged: Packs, flushed: set<PackId>)

  type WriterId = nat

  datatype Head = Head(version: nat, roots: seq<Ref>)

  datatype World = World(packs: Packs, head: Head, writers: map<WriterId, Writer>)

  datatype Event =
    | Begin(id: WriterId)
    | Stage(id: WriterId, pack: PackId, page: Page)
    | Store(id: WriterId, page: Page, answered: bool)
    | Descend(id: WriterId, ref: Ref, child: nat)
    | Recall(id: WriterId, ref: Ref)
    | Flush(id: WriterId, pack: PackId, answered: bool)
    | Drop(id: WriterId, pack: PackId)
    | Publish(id: WriterId, roots: seq<Ref>)
    | Crash(id: WriterId)
    | Fence
    | Sweep(packs: set<PackId>, pages: set<Page>)

  predicate ChildrenIn(page: Page, refs: set<Ref>) {
    page.Branch? ==> forall i :: 0 <= i < |page.children| ==> page.children[i] in refs
  }

  /** The writer refers to nothing that is staged and not yet published. */
  ghost predicate Settled(w: Writer, roots: seq<Ref>) {
    forall i, p :: 0 <= i < |roots| && p in w.staged && p !in w.flushed ==> !Uses(roots[i], p)
  }

  ghost predicate Enabled(w: World, ev: Event) {
    match ev
    case Begin(id) => id !in w.writers
    case Stage(id, pack, page) =>
      id in w.writers && pack != UNPACKED && pack !in w.writers[id].flushed && ChildrenIn(page, w.writers[id].refs)
      && ValidPage(page)
    case Store(id, page, _) => id in w.writers && ChildrenIn(page, w.writers[id].refs) && ValidPage(page)
    case Descend(id, ref, child) =>
      id in w.writers && ref in w.writers[id].refs && ref.page.Branch? && child < |ref.page.children|
    case Recall(id, ref) => id in w.writers && ref in w.writers[id].refs
    case Flush(id, pack, _) =>
      id in w.writers && pack in w.writers[id].staged && pack !in w.writers[id].flushed
    case Drop(id, pack) => id in w.writers && pack in w.writers[id].staged && pack !in w.writers[id].flushed
    case Publish(id, roots) =>
      id in w.writers && (forall i :: 0 <= i < |roots| ==> roots[i] in w.writers[id].refs) && Settled(w.writers[id], roots)
    case Crash(id) => id in w.writers
    case Fence => true
    case Sweep(packs, pages) =>
      && (forall id :: id in w.writers ==> w.writers[id].seen < w.head.version)
      && UNPACKED !in packs && forall i :: 0 <= i < |w.head.roots| ==> Spares(w.head.roots[i], packs, pages)
  }

  function Staged(w: Writer, pack: PackId): set<Page> {
    if pack in w.staged then w.staged[pack] else {}
  }

  function WithStaged(x: Writer, pack: PackId, page: Page): Writer {
    x.(staged := x.staged[pack := Staged(x, pack) + {page}], refs := x.refs + {Refer(pack, page)})
  }

  function StoredPages(packs: Packs, pack: PackId): set<Page> {
    if pack in packs then packs[pack] else {}
  }

  ghost function Next(w: World, ev: Event): World
    requires Enabled(w, ev)
  {
    match ev
    case Begin(id) =>
      w.(writers := w.writers[id := Writer(w.head.version, set i | 0 <= i < |w.head.roots| :: w.head.roots[i], map[], {})])
    case Stage(id, pack, page) =>
      w.(writers := w.writers[id := WithStaged(w.writers[id], pack, page)])
    case Store(id, page, answered) =>
      var x := w.writers[id];
      w.(packs := w.packs[UNPACKED := StoredPages(w.packs, UNPACKED) + {page}],
         writers := if answered then w.writers[id := x.(refs := x.refs + {Refer(UNPACKED, page)})] else w.writers)
    case Descend(id, ref, child) =>
      var x := w.writers[id];
      w.(writers := w.writers[id := x.(refs := x.refs + {ref.page.children[child]})])
    case Recall(id, ref) =>
      var x := w.writers[id];
      w.(writers := w.writers[id := x.(refs := x.refs + {Refer(ref.pack, ref.page)})])
    case Flush(id, pack, answered) =>
      var x := w.writers[id];
      if pack in w.packs && w.packs[pack] != x.staged[pack] then w.(writers := w.writers - {id})
      else
        w.(packs := w.packs[pack := x.staged[pack]],
           writers := if answered then w.writers[id := x.(flushed := x.flushed + {pack})] else w.writers)
    case Drop(id, pack) =>
      var x := w.writers[id];
      w.(writers := w.writers[id := x.(staged := x.staged - {pack}, refs := set r | r in x.refs && !Uses(r, pack))])
    case Publish(id, roots) =>
      var x := w.writers[id];
      if w.head.version != x.seen then w.(writers := w.writers - {id})
      else w.(head := Head(w.head.version + 1, seq(|roots|, i requires 0 <= i < |roots| => Rooted(roots[i]))), writers := w.writers - {id})
    case Crash(id) => w.(writers := w.writers - {id})
    case Fence => w.(head := w.head.(version := w.head.version + 1))
    case Sweep(packs, pages) => w.(packs := Swept(w.packs, packs, pages))
  }

  // --------------------------------------------------------------- invariant

  /** The packs as this writer sees them: the stored ones and its own staged pages. */
  ghost function Visible(packs: Packs, x: Writer): Packs {
    map p | p in packs.Keys + x.staged.Keys :: StoredPages(packs, p) + Staged(x, p)
  }

  ghost predicate WriterOk(packs: Packs, x: Writer) {
    && UNPACKED !in x.staged
    && (forall p :: p in x.flushed ==> p in x.staged && p in packs && packs[p] == x.staged[p])
    && (forall r :: r in x.refs ==> Present(Visible(packs, x), r))
  }

  ghost predicate HeadPresent(w: World) {
    forall i :: 0 <= i < |w.head.roots| ==> Present(w.packs, w.head.roots[i])
  }

  ghost predicate Inv(w: World) {
    HeadPresent(w) && forall id :: id in w.writers ==> WriterSafe(w, w.writers[id])
  }

  /** A writer that the head has not left behind refers to nothing but what is stored or staged. */
  ghost predicate WriterSafe(w: World, x: Writer) {
    x.seen <= w.head.version && (x.seen == w.head.version ==> WriterOk(w.packs, x))
  }

  /** Packs are created once and only the area of single pages grows. */
  ghost predicate Grows(packs: Packs, packs': Packs) {
    forall p :: p in packs ==> p in packs' && packs[p] <= packs'[p] && (p != UNPACKED ==> packs'[p] == packs[p])
  }

  lemma {:induction false} WriterStable(packs: Packs, packs': Packs, x: Writer)
    requires WriterOk(packs, x) && Grows(packs, packs')
    ensures WriterOk(packs', x)
  {
    forall r | r in x.refs ensures Present(Visible(packs', x), r) {
      PresentInMore(Visible(packs, x), Visible(packs', x), None, r);
    }
  }

  lemma {:induction false} HeadStable(w: World, w': World)
    requires HeadPresent(w) && Grows(w.packs, w'.packs) && w'.head == w.head
    ensures HeadPresent(w')
  {
    forall i | 0 <= i < |w.head.roots| ensures Present(w'.packs, w.head.roots[i]) {
      PresentInMore(w.packs, w'.packs, None, w.head.roots[i]);
    }
  }

  /** A step that only adds to the packs and touches one writer. */
  lemma {:induction false} Frame(w: World, w': World, id: WriterId)
    requires Inv(w) && Grows(w.packs, w'.packs) && w'.head == w.head
    requires forall i :: i in w'.writers && i != id ==> i in w.writers && w'.writers[i] == w.writers[i]
    requires id in w'.writers ==> WriterSafe(w', w'.writers[id])
    ensures Inv(w')
  {
    hide WriterOk, HeadPresent, Grows;
    HeadStable(w, w');
    forall i | i in w'.writers ensures WriterSafe(w', w'.writers[i]) {
      if i != id && w.writers[i].seen == w.head.version { WriterStable(w.packs, w'.packs, w.writers[i]); }
    }
  }

  lemma {:induction false} BeginKeeps(w: World, id: WriterId)
    requires Inv(w) && Enabled(w, Begin(id))
    ensures Inv(Next(w, Begin(id)))
  {
    var w' := Next(w, Begin(id));
    var x := w'.writers[id];
    forall r | r in x.refs ensures Present(Visible(w.packs, x), r) {
      PresentInMore(w.packs, Visible(w.packs, x), None, r);
    }
    Frame(w, w', id);
  }

  /** Seeing more and holding one more reference whose children are held. */
  lemma {:induction false} WriterGains(packs: Packs, packs': Packs, x: Writer, x': Writer, ref: Ref)
    requires WriterOk(packs, x) && x'.refs == x.refs + {ref} && Covers(Visible(packs, x), Visible(packs', x'), None)
    requires Holds(Visible(packs', x'), ref) && ChildrenIn(ref.page, x.refs) && ValidPage(ref.page) && Described(ref)
    ensures forall r :: r in x'.refs ==> Present(Visible(packs', x'), r)
  {
    forall r | r in x.refs ensures Present(Visible(packs', x'), r) {
      PresentInMore(Visible(packs, x), Visible(packs', x'), None, r);
    }
  }

  /** A step of one writer that keeps it in order, or of one that the head has left behind. */
  lemma {:induction false} WriterStep(w: World, w': World, id: WriterId)
    requires Inv(w) && Grows(w.packs, w'.packs) && w'.head == w.head && id in w.writers
    requires forall i :: i in w'.writers && i != id ==> i in w.writers && w'.writers[i] == w.writers[i]
    requires id in w'.writers ==> w'.writers[id].seen == w.writers[id].seen
    requires id in w'.writers && WriterOk(w.packs, w.writers[id]) ==> WriterOk(w'.packs, w'.writers[id])
    ensures Inv(w')
  {
    hide WriterOk, HeadPresent, Grows;
    assert WriterSafe(w, w.writers[id]);
    Frame(w, w', id);
  }

  lemma {:induction false} StageKeeps(w: World, ev: Event)
    requires Inv(w) && Enabled(w, ev) && ev.Stage?
    ensures Inv(Next(w, ev))
  {
    hide Present, Uses, HeadPresent, WriterSafe, ValidPage, Described, WriterOk;
    var w', x := Next(w, ev), w.writers[ev.id];
    if WriterOk(w.packs, x) { StagedIsOk(w.packs, x, ev.pack, ev.page); }
    WriterStep(w, w', ev.id);
  }

  lemma {:induction false} StagedIsOk(packs: Packs, x: Writer, pack: PackId, page: Page)
    requires WriterOk(packs, x) && ChildrenIn(page, x.refs) && ValidPage(page) && pack != UNPACKED && pack !in x.flushed
    ensures WriterOk(packs, WithStaged(x, pack, page))
  {
    hide Present, ValidPage, Described;
    ReferIsDescribed(pack, page);
    WriterGains(packs, packs, x, WithStaged(x, pack, page), Refer(pack, page));
  }

  lemma {:induction false} ReferIsDescribed(pack: PackId, page: Page)
    ensures Described(Refer(pack, page))
  {
    hide Describe;
  }

  lemma {:induction false} StoreKeeps(w: World, ev: Event)
    requires Inv(w) && Enabled(w, ev) && ev.Store?
    ensures Inv(Next(w, ev))
  {
    hide Present, Uses, HeadPresent, WriterSafe, ValidPage, WriterOk;
    var w', x := Next(w, ev), w.writers[ev.id];
    var packs := w.packs[UNPACKED := StoredPages(w.packs, UNPACKED) + {ev.page}];
    if WriterOk(w.packs, x) { StoredIsOk(w.packs, packs, x, ev.page); }
    WriterStep(w, w', ev.id);
  }

  lemma {:induction false} StoredIsOk(packs: Packs, packs': Packs, x: Writer, page: Page)
    requires WriterOk(packs, x) && ChildrenIn(page, x.refs) && ValidPage(page)
    requires packs' == packs[UNPACKED := StoredPages(packs, UNPACKED) + {page}]
    ensures WriterOk(packs', x) && WriterOk(packs', x.(refs := x.refs + {Refer(UNPACKED, page)}))
  {
    hide Present, ValidPage, Described;
    WriterStable(packs, packs', x);
    ReferIsDescribed(UNPACKED, page);
    WriterGains(packs, packs', x, x.(refs := x.refs + {Refer(UNPACKED, page)}), Refer(UNPACKED, page));
  }

  lemma {:induction false} DescendKeeps(w: World, ev: Event)
    requires Inv(w) && Enabled(w, ev) && ev.Descend?
    ensures Inv(Next(w, ev))
  {
    hide WriterSafe, HeadPresent, ValidPage, Described;
    var w', x := Next(w, ev), w.writers[ev.id];
    var x' := w'.writers[ev.id];
    assert Visible(w.packs, x') == Visible(w.packs, x);
    assert WriterOk(w.packs, x) ==> Present(Visible(w.packs, x), ev.ref);
    WriterStep(w, w', ev.id);
  }

  lemma {:induction false} RecallKeeps(w: World, ev: Event)
    requires Inv(w) && Enabled(w, ev) && ev.Recall?
    ensures Inv(Next(w, ev))
  {
    hide WriterSafe, HeadPresent, ValidPage, Described;
    var w', x := Next(w, ev), w.writers[ev.id];
    var x' := w'.writers[ev.id];
    assert Visible(w.packs, x') == Visible(w.packs, x);
    assert WriterOk(w.packs, x) ==> Present(Visible(w.packs, x), ev.ref);
    ReferIsDescribed(ev.ref.pack, ev.ref.page);
    WriterStep(w, w', ev.id);
  }

  lemma {:induction false} FlushKeeps(w: World, ev: Event)
    requires Inv(w) && Enabled(w, ev) && ev.Flush?
    ensures Inv(Next(w, ev))
  {
    hide WriterSafe, HeadPresent, Present;
    var w', x := Next(w, ev), w.writers[ev.id];
    if ev.pack in w.packs && w.packs[ev.pack] != x.staged[ev.pack] {
      WriterStep(w, w', ev.id);
    } else {
      assert Grows(w.packs, w'.packs);
      if WriterOk(w.packs, x) {
        WriterStable(w.packs, w'.packs, x);
        if ev.answered {
          assert Visible(w'.packs, w'.writers[ev.id]) == Visible(w'.packs, x);
        }
      }
      WriterStep(w, w', ev.id);
    }
  }

  lemma {:induction false} DropKeeps(w: World, ev: Event)
    requires Inv(w) && Enabled(w, ev) && ev.Drop?
    ensures Inv(Next(w, ev))
  {
    hide WriterSafe, HeadPresent, Present, Uses;
    var w', x := Next(w, ev), w.writers[ev.id];
    var x' := w'.writers[ev.id];
    if WriterOk(w.packs, x) {
      forall r | r in x'.refs ensures Present(Visible(w.packs, x'), r) {
        PresentInMore(Visible(w.packs, x), Visible(w.packs, x'), Some(ev.pack), r);
      }
    }
    WriterStep(w, w', ev.id);
  }

  /** A reference that uses no staged and unpublished pack is in the store itself. */
  lemma {:induction false} SettledIsStored(packs: Packs, x: Writer, ref: Ref)
    requires WriterOk(packs, x) && Present(Visible(packs, x), ref)
    requires forall p :: p in x.staged && p !in x.flushed ==> !Uses(ref, p)
    ensures Present(packs, ref)
    decreases ref
  {
    assert Uses(ref, ref.pack);
    if ref.page.Branch? {
      forall i | 0 <= i < |ref.page.children| ensures Present(packs, ref.page.children[i]) {
        SettledIsStored(packs, x, ref.page.children[i]);
      }
    }
  }

  lemma {:induction false} PublishKeeps(w: World, ev: Event)
    requires Inv(w) && Enabled(w, ev) && ev.Publish?
    ensures Inv(Next(w, ev))
  {
    hide ValidPage, Described, Uses, WriterOk;
    var w', x := Next(w, ev), w.writers[ev.id];
    if w.head.version != x.seen {
      Frame(w, w', ev.id);
    } else {
      forall i | 0 <= i < |ev.roots| ensures Present(w.packs, w'.head.roots[i]) {
        RefersToVisible(w.packs, x, ev.roots[i]);
        SettledIsStored(w.packs, x, ev.roots[i]);
        RootedIsPresent(w.packs, ev.roots[i]);
      }
    }
  }

  lemma {:induction false} RefersToVisible(packs: Packs, x: Writer, ref: Ref)
    requires WriterOk(packs, x) && ref in x.refs
    ensures Present(Visible(packs, x), ref)
  {
  }

  /** A head records a present page without its bounds. */
  lemma {:induction false} RootedIsPresent(packs: Packs, ref: Ref)
    requires Present(packs, ref)
    ensures Present(packs, Rooted(ref))
  {
    hide Describe, ValidPage;
  }

  /** Deletion spares what the head reaches, and every writer has been left behind. */
  lemma {:induction false} SweepKeeps(w: World, ev: Event)
    requires Inv(w) && Enabled(w, ev) && ev.Sweep?
    ensures Inv(Next(w, ev))
  {
    hide WriterOk, Spares, Present;
    forall i | 0 <= i < |w.head.roots| ensures Present(Next(w, ev).packs, w.head.roots[i]) {
      SparedIsPresent(w.packs, w.head.roots[i], ev.packs, ev.pages);
    }
  }

  lemma {:induction false} FenceKeeps(w: World)
    requires Inv(w)
    ensures Inv(Next(w, Fence))
  {
    hide WriterOk, Present;
  }

  lemma {:induction false} StepGrows(w: World, ev: Event)
    requires Enabled(w, ev) && !ev.Sweep?
    ensures Grows(w.packs, Next(w, ev).packs)
  {
    hide Uses, Spares, ValidPage;
    assert ev.Stage? || ev.Store? || ev.Flush? || Next(w, ev).packs == w.packs;
  }

  lemma {:induction false} StepKeeps(w: World, ev: Event)
    requires Inv(w) && Enabled(w, ev)
    ensures Inv(Next(w, ev)) && (!ev.Sweep? ==> Grows(w.packs, Next(w, ev).packs))
  {
    hide Inv, Enabled, Next, Grows;
    if !ev.Sweep? { StepGrows(w, ev); }
    match ev
    case Begin(id) => BeginKeeps(w, id);
    case Stage(_, _, _) => StageKeeps(w, ev);
    case Store(_, _, _) => StoreKeeps(w, ev);
    case Descend(_, _, _) => DescendKeeps(w, ev);
    case Recall(_, _) => RecallKeeps(w, ev);
    case Flush(_, _, _) => FlushKeeps(w, ev);
    case Drop(_, _) => DropKeeps(w, ev);
    case Publish(_, _) => PublishKeeps(w, ev);
    case Crash(id) => CrashKeeps(w, id);
    case Fence => FenceKeeps(w);
    case Sweep(_, _) => SweepKeeps(w, ev);
  }

  lemma {:induction false} CrashKeeps(w: World, id: WriterId)
    requires Inv(w) && Enabled(w, Crash(id))
    ensures Inv(Next(w, Crash(id)))
  {
    hide WriterOk, HeadPresent;
    Frame(w, Next(w, Crash(id)), id);
  }

  // ------------------------------------------------------------------ theorem

  ghost predicate IsRun(ws: seq<World>, evs: seq<Event>) {
    && |ws| == |evs| + 1 && HeadPresent(ws[0]) && ws[0].writers == map[]
    && forall i :: 0 <= i < |evs| ==> Enabled(ws[i], evs[i]) && ws[i + 1] == Next(ws[i], evs[i])
  }

  lemma {:induction false} RunKeeps(ws: seq<World>, evs: seq<Event>, n: nat)
    requires IsRun(ws, evs) && n < |ws|
    ensures Inv(ws[n])
  {
    if 0 < n {
      RunKeeps(ws, evs, n - 1);
      StepKeeps(ws[n - 1], evs[n - 1]);
    }
  }

  /**
    * In every reachable state everything below a published root is stored where its
    * reference says, valid and with a descriptor that is true of the entries below it,
    * whatever writers crashed, lost responses or raced and whatever was collected.
    */
  lemma {:induction false} PublishedPagesArePresent(ws: seq<World>, evs: seq<Event>, n: nat)
    requires IsRun(ws, evs) && n < |ws|
    ensures forall i :: 0 <= i < |ws[n].head.roots| ==>
              var root := ws[n].head.roots[i];
              Present(ws[n].packs, root) && TrueOf(root.about, Contents(root)) && Uniform(root, root.about.level)
  {
    hide Enabled, Next, Present, TrueOf, WriterOk, IsRun, Uniform;
    RunKeeps(ws, evs, n);
    forall i | 0 <= i < |ws[n].head.roots|
      ensures var root := ws[n].head.roots[i];
              Present(ws[n].packs, root) && TrueOf(root.about, Contents(root)) && Uniform(root, root.about.level)
    {
      DescriptorsAreTrue(ws[n].packs, ws[n].head.roots[i]);
      LevelIsHeight(ws[n].packs, ws[n].head.roots[i]);
    }
  }

  /** A root ever published stays readable until a collection deletes something below it. */
  lemma {:induction false} OldHeadsStayPresent(ws: seq<World>, evs: seq<Event>, m: nat, n: nat, i: nat)
    requires IsRun(ws, evs) && m <= n < |ws| && i < |ws[m].head.roots|
    requires forall k :: m <= k < n && evs[k].Sweep? ==> Spares(ws[m].head.roots[i], evs[k].packs, evs[k].pages)
    ensures Present(ws[n].packs, ws[m].head.roots[i])
    decreases n
  {
    hide Enabled, Next, Present, Spares, Inv;
    if m == n {
      PublishedPagesArePresent(ws, evs, n);
    } else {
      OldHeadsStayPresent(ws, evs, m, n - 1, i);
      StaysPresent(ws[n - 1], evs[n - 1], ws[m].head.roots[i]);
    }
  }

  lemma {:induction false} StaysPresent(w: World, ev: Event, ref: Ref)
    requires Enabled(w, ev) && Present(w.packs, ref) && (ev.Sweep? ==> Spares(ref, ev.packs, ev.pages))
    ensures Present(Next(w, ev).packs, ref)
  {
    hide Present, Spares;
    if ev.Sweep? {
      SparedIsPresent(w.packs, ref, ev.packs, ev.pages);
    } else {
      StepGrows(w, ev);
      PresentInMore(w.packs, Next(w, ev).packs, None, ref);
    }
  }

  /**
    * A writer whose head is current publishes exactly its roots: the new head holds the same
    * trees in order, one version on, and everything below them is present. A writer that was
    * overtaken changes nothing.
    */
  lemma {:induction false} PublishedIsWhatWasWritten(ws: seq<World>, evs: seq<Event>, n: nat)
    requires IsRun(ws, evs) && n < |evs| && evs[n].Publish?
    ensures evs[n].id in ws[n].writers
    ensures ws[n].writers[evs[n].id].seen != ws[n].head.version ==> ws[n + 1].head == ws[n].head && ws[n + 1].packs == ws[n].packs
    ensures ws[n].writers[evs[n].id].seen == ws[n].head.version ==>
              var old_, new_ := evs[n].roots, ws[n + 1].head.roots;
              && ws[n + 1].head.version == ws[n].head.version + 1 && |new_| == |old_|
              && forall i :: 0 <= i < |old_| ==>
                   && new_[i].pack == old_[i].pack && new_[i].page == old_[i].page
                   && Contents(new_[i]) == Contents(old_[i]) && Present(ws[n + 1].packs, new_[i])
  {
    hide Present, Contents, Uses;
    var w, ev := ws[n], evs[n];
    RunKeeps(ws, evs, n + 1);
    if w.writers[ev.id].seen == w.head.version {
      forall i | 0 <= i < |ev.roots| ensures Contents(ws[n + 1].head.roots[i]) == Contents(ev.roots[i]) {
        RootedContents(ev.roots[i]);
      }
    }
  }

  lemma {:induction false} RootedContents(ref: Ref)
    ensures Contents(Rooted(ref)) == Contents(ref)
  {
    if ref.page.Branch? { SamePageContents(ref, Rooted(ref), |ref.page.children|); }
  }

  lemma {:induction false} SamePageContents(a: Ref, b: Ref, n: nat)
    requires a.page.Branch? && b.page == a.page && n <= |a.page.children|
    ensures ContentsOf(a, n) == ContentsOf(b, n)
  {
    if 0 < n { SamePageContents(a, b, n - 1); }
  }
}
