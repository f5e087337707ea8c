/**
  * The persistent ordered tree of immutable, content-addressed pages. A digest is
  * injective, so a child descriptor holds the page that its digest names.
  */
module DomainTree {
  import opened Basics
  import opened PageGroups

  datatype Entry = Entry(key: Key, value: Bytes, version: Bytes)

  datatype Change = Change(key: Key, delete: bool, value: Bytes, version: Bytes)

  datatype Page = Leaf(entries: seq<Entry>) | Branch(height: nat, children: seq<Child>)

  /** A page with the bounds and totals that its parent records; the filter is an optional lookup hint. */
  datatype Child = Child(page: Page, level: nat, first: Key, last: Key, count: nat, bytes: nat, filter: Option<set<Key>>)

  /** Sizes of canonical encodings, and the filter that a leaf descriptor gets. */
  datatype Format = Format(
    entryBytes: Entry -> nat, childBytes: Child -> nat, leafHeader: nat, branchHeader: nat -> nat, limit: nat,
    hint: seq<Entry> -> Option<set<Key>>)

  /** Filters have no false negatives, and any two child descriptors fit in one page. */
  ghost predicate ValidFormat(f: Format) {
    && (forall es: seq<Entry>, i :: 0 <= i < |es| && f.hint(es).Some? ==> es[i].key in f.hint(es).value)
    && (forall h, c, d :: f.branchHeader(h) + f.childBytes(c) + 1 + f.childBytes(d) <= f.limit)
  }

  // ------------------------------------------------------------- contents

  function Level(p: Page): nat {
    if p.Leaf? then 0 else p.height
  }

  function Entries(p: Page): seq<Entry>
    decreases p, 1
  {
    match p
    case Leaf(es) => es
    case Branch(_, cs) => Concat(cs)
  }

  function Concat(cs: seq<Child>): seq<Entry>
    decreases cs, 0
  {
    if cs == [] then []
    else
      assert cs[0].page < cs[0];
      Entries(cs[0].page) + Concat(cs[1..])
  }

  function ValueBytes(es: seq<Entry>): nat {
    if es == [] then 0 else |es[0].value| + ValueBytes(es[1..])
  }

  function Counts(cs: seq<Child>): nat {
    if cs == [] then 0 else cs[0].count + Counts(cs[1..])
  }

  function Totals(cs: seq<Child>): nat {
    if cs == [] then 0 else cs[0].bytes + Totals(cs[1..])
  }

  predicate Sorted(es: seq<Entry>) {
    forall i, j :: 0 <= i < j < |es| ==> es[i].key < es[j].key
  }

  /** consistencyDomainPageDescriptor: bounds and totals of a page from its own members. */
  function Describe(f: Format, p: Page): Child
    requires p.Leaf? ==> p.entries != []
    requires p.Branch? ==> p.children != []
  {
    match p
    case Leaf(es) => Child(p, 0, es[0].key, es[|es| - 1].key, |es|, ValueBytes(es), f.hint(es))
    case Branch(h, cs) => Child(p, h, cs[0].first, cs[|cs| - 1].last, Counts(cs), Totals(cs), None)
  }

  /** The descriptor that a reader verifies: everything but the optional hint is determined by the page. */
  ghost predicate Describes(c: Child) {
    match c.page
    case Leaf(es) =>
      && es != [] && c.level == 0 && c.first == es[0].key && c.last == es[|es| - 1].key
      && c.count == |es| && c.bytes == ValueBytes(es)
      && (c.filter.Some? ==> forall i :: 0 <= i < |es| ==> es[i].key in c.filter.value)
    case Branch(h, cs) =>
      && cs != [] && c.level == h && c.first == cs[0].first && c.last == cs[|cs| - 1].last
      && c.count == Counts(cs) && c.bytes == Totals(cs) && c.filter == None
  }

  predicate Disjoint(cs: seq<Child>) {
    forall i, j :: 0 <= i < j < |cs| ==> cs[i].last < cs[j].first
  }

  /** A well-formed page: members sorted and disjoint, uniform depth, exact descriptors, bounded size. */
  ghost predicate WellFormed(f: Format, p: Page)
    decreases p
  {
    match p
    case Leaf(es) => es != [] && Sorted(es) && PageFits(es, f.entryBytes, f.leafHeader, f.limit)
    case Branch(h, cs) =>
      && cs != [] && 0 < h && Disjoint(cs) && PageFits(cs, f.childBytes, f.branchHeader(h), f.limit)
      && forall i :: 0 <= i < |cs| ==> cs[i].level == h - 1 && Describes(cs[i]) && WellFormed(f, cs[i].page)
  }

  /** A row of sibling pages at one level, as rewrite and the level loop pass them around. */
  ghost predicate Row(f: Format, level: nat, cs: seq<Child>) {
    Disjoint(cs) && forall i :: 0 <= i < |cs| ==> cs[i].level == level && Describes(cs[i]) && WellFormed(f, cs[i].page)
  }

  // ------------------------------------------------------- entries by key

  function At(es: seq<Entry>, k: Key): Option<Entry> {
    if es == [] then None else if es[0].key == k then Some(es[0]) else At(es[1..], k)
  }

  lemma {:induction false} AtConcat(a: seq<Entry>, b: seq<Entry>, k: Key)
    ensures At(a + b, k) == if At(a, k).Some? then At(a, k) else At(b, k)
  {
    if a == [] {
      assert a + b == b;
    } else {
      assert (a + b)[1..] == a[1..] + b;
      AtConcat(a[1..], b, k);
    }
  }

  lemma {:induction false} AtIndex(es: seq<Entry>, i: nat)
    requires i < |es| && Sorted(es)
    ensures At(es, es[i].key) == Some(es[i])
  {
    if 0 < i {
      assert es[0].key < es[i].key;
      assert Sorted(es[1..]);
      AtIndex(es[1..], i - 1);
    }
  }

  lemma {:induction false} AtAbsent(es: seq<Entry>, k: Key)
    requires forall i :: 0 <= i < |es| ==> es[i].key != k
    ensures At(es, k) == None
  {
    if es != [] { AtAbsent(es[1..], k); }
  }

  lemma {:induction false} AtPresent(es: seq<Entry>, k: Key) returns (i: nat)
    requires At(es, k).Some?
    ensures i < |es| && es[i].key == k && At(es, k) == Some(es[i])
  {
    if es[0].key == k { i := 0; } else { i := AtPresent(es[1..], k); i := i + 1; }
  }

  /** Strictly sorted sequences are equal when every key finds the same entry in both. */
  lemma {:induction false} SortedUnique(a: seq<Entry>, b: seq<Entry>)
    requires Sorted(a) && Sorted(b)
    requires forall k :: At(a, k) == At(b, k)
    ensures a == b
  {
    assert b != [] ==> At(b, b[0].key).Some?;
    if a != [] {
      var x := a[0].key;
      assert At(b, x) == Some(a[0]);
      var i := AtPresent(b, x);
      var y := b[0].key;
      assert At(a, y) == Some(b[0]);
      var j := AtPresent(a, y);
      assert i == 0 && a[0] == b[0];
      assert Sorted(a[1..]) && Sorted(b[1..]);
      forall k
        ensures At(a[1..], k) == At(b[1..], k)
      {
        if k == x {
          AtAbsent(a[1..], k);
          AtAbsent(b[1..], k);
        } else {
          assert At(a, k) == At(b, k);
        }
      }
      SortedUnique(a[1..], b[1..]);
    }
  }

  // --------------------------------------------------------- page contents

  lemma {:induction false} ConcatAppend(a: seq<Child>, b: seq<Child>)
    ensures Concat(a + b) == Concat(a) + Concat(b)
  {
    if a == [] {
      assert a + b == b;
    } else {
      assert (a + b)[1..] == a[1..] + b;
      ConcatAppend(a[1..], b);
    }
  }

  /** Entries of a row that lie in order, within the recorded bounds, with exact totals. */
  ghost predicate Bounded(es: seq<Entry>, first: Key, last: Key) {
    es != [] && Sorted(es) && es[0].key == first && es[|es| - 1].key == last
  }

  lemma {:induction false} ChildEntries(f: Format, c: Child)
    requires Describes(c) && WellFormed(f, c.page)
    ensures Bounded(Entries(c.page), c.first, c.last) && c.first <= c.last
    ensures c.count == |Entries(c.page)| && c.bytes == ValueBytes(Entries(c.page))
    decreases c.page, 1
  {
    if c.page.Branch? { RowEntries(f, c.page.children); }
  }

  lemma {:induction false} RowEntries(f: Format, cs: seq<Child>)
    requires cs != [] && Disjoint(cs)
    requires forall i :: 0 <= i < |cs| ==> Describes(cs[i]) && WellFormed(f, cs[i].page)
    ensures Bounded(Concat(cs), cs[0].first, cs[|cs| - 1].last)
    ensures Counts(cs) == |Concat(cs)| && Totals(cs) == ValueBytes(Concat(cs))
    decreases cs, 0
  {
    assert cs[0].page < cs[0];
    ChildEntries(f, cs[0]);
    var a, rest := Entries(cs[0].page), cs[1..];
    if rest == [] {
      assert Concat(cs) == a + [];
      assert a + [] == a;
    } else {
      RowEntries(f, rest);
      var b := Concat(rest);
      assert cs[0].last < rest[0].first;
      assert rest[|rest| - 1] == cs[|cs| - 1];
      ValueBytesAppend(a, b);
      SortedAppend(a, b);
    }
  }

  lemma {:induction false} ValueBytesAppend(a: seq<Entry>, b: seq<Entry>)
    ensures ValueBytes(a + b) == ValueBytes(a) + ValueBytes(b)
  {
    if a == [] {
      assert a + b == b;
    } else {
      assert (a + b)[1..] == a[1..] + b;
      ValueBytesAppend(a[1..], b);
    }
  }

  lemma {:induction false} SortedAppend(a: seq<Entry>, b: seq<Entry>)
    requires Sorted(a) && Sorted(b)
    requires a != [] && b != [] ==> a[|a| - 1].key < b[0].key
    ensures Sorted(a + b)
  {
    forall i, j | 0 <= i < j < |a + b|
      ensures (a + b)[i].key < (a + b)[j].key
    {
      if i < |a| <= j {
        assert a[i].key <= a[|a| - 1].key && b[0].key <= b[j - |a|].key;
      }
    }
  }

  /** A page that decodes as well-formed determines its descriptor up to the hint. */
  lemma {:induction false} DescribeIsExact(f: Format, p: Page)
    requires ValidFormat(f) && WellFormed(f, p)
    ensures Describes(Describe(f, p)) && Describe(f, p).level == Level(p)
  {
  }
}
