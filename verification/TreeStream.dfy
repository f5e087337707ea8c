/** The streaming tree builder, and its agreement with the batch builder. */
module TreeStream {
  import opened Basics
  import opened PageGroups
  import opened DomainTree
  import opened TreeEdit
  import opened TreeMap

  // -------------------------------------------------- greedy cuts are unique

  lemma {:induction false} FitsPrefix<T>(items: seq<T>, size: T -> nat, header: nat, limit: nat, n: nat)
    requires PageFits(items, size, header, limit) && n <= |items|
    ensures PageFits(items[..n], size, header, limit)
  {
    if n < |items| {
      var m := |items| - 1;
      FitsPrefix(items[..m], size, header, limit, n);
      assert items[..m][..n] == items[..n];
    } else {
      assert items[..n] == items;
    }
  }

  lemma {:induction false} FitsShorter<T>(items: seq<T>, size: T -> nat, header: nat, limit: nat, m: nat, n: nat)
    requires n <= m <= |items| && PageFits(items[..m], size, header, limit)
    ensures PageFits(items[..n], size, header, limit)
  {
    FitsPrefix(items[..m], size, header, limit, n);
    assert items[..m][..n] == items[..n];
  }

  lemma {:induction false} FirstCut<T>(first: seq<T>, rest: seq<T>, size: T -> nat, header: nat, limit: nat)
    requires first != [] && PageFits(first, size, header, limit)
    requires rest != [] ==> !PageFits(first + [rest[0]], size, header, limit)
    ensures PagePrefix(first + rest, size, header, limit) == |first|
  {
    var items, m := first + rest, |first|;
    PrefixIsMaximal(items, size, header, limit);
    var n := PagePrefix(items, size, header, limit);
    assert items[..m] == first;
    FitsShorter(items, size, header, limit, m, 1);
    assert items[..1] == [items[0]];
    if n < m { FitsShorter(items, size, header, limit, m, n + 1); }
    if m < n {
      assert items[..m + 1] == first + [rest[0]];
      FitsShorter(items, size, header, limit, n, m + 1);
    }
  }

  /** Whoever cuts greedily, one member at a time or all at once, cuts the same pages. */
  lemma {:induction false} GreedyIsGroups<T>(gs: seq<seq<T>>, size: T -> nat, header: nat, limit: nat)
    requires Greedy(gs, size, header, limit)
    ensures Groups(Flatten(gs), size, header, limit) == Some(gs)
  {
    if gs != [] {
      var first, rest := gs[0], gs[1..];
      forall i | 0 <= i < |rest| - 1 ensures !PageFits(rest[i] + [rest[i + 1][0]], size, header, limit) {
        assert gs[i + 1] == rest[i] && gs[i + 2] == rest[i + 1];
      }
      GreedyIsGroups(rest, size, header, limit);
      if rest != [] { assert Flatten(rest)[0] == gs[1][0]; }
      FirstCut(first, Flatten(rest), size, header, limit);
      var items := Flatten(gs);
      assert items[..|first|] == first && items[|first|..] == Flatten(rest);
      assert [first] + rest == gs;
    }
  }

  // ------------------------------------------------------------ level stacks

  function ParentOf(f: Format, height: nat, cs: seq<Child>): Child
    requires cs != []
  {
    Describe(f, Branch(height + 1, cs))
  }

  predicate ParentFits(f: Format, height: nat, cs: seq<Child>) {
    PageFits(cs, f.childBytes, f.branchHeader(height + 1), f.limit)
  }

  /** addReference at the lowest of these levels: a full level becomes one reference of the next. */
  function Push(f: Format, height: nat, levels: seq<seq<Child>>, c: Child): seq<seq<Child>>
    decreases |levels|
  {
    if levels == [] then [[c]]
    else if |levels[0]| + 1 < PAGE_ITEMS then [levels[0] + [c]] + levels[1..]
    else [[]] + Push(f, height + 1, levels[1..], ParentOf(f, height, levels[0] + [c]))
  }

  /** Every page that this push writes can be encoded. */
  predicate PushFits(f: Format, height: nat, levels: seq<seq<Child>>, c: Child)
    decreases |levels|
  {
    levels == [] || |levels[0]| + 1 < PAGE_ITEMS ||
    (ParentFits(f, height, levels[0] + [c]) &&
     PushFits(f, height + 1, levels[1..], ParentOf(f, height, levels[0] + [c])))
  }

  function Total(levels: seq<seq<Child>>): nat {
    if levels == [] then 0 else |levels[0]| + Total(levels[1..])
  }

  /** A push adds one reference; when it adds a level as well, it replaced a full page by one reference. */
  lemma {:induction false} PushTotal(f: Format, height: nat, levels: seq<seq<Child>>, c: Child)
    ensures 1 <= Total(Push(f, height, levels, c)) <= Total(levels) + 1
    ensures Total(Push(f, height, levels, c)) == Total(levels) + 1 && levels != [] ==>
              |Push(f, height, levels, c)| == |levels|
    ensures Push(f, height, levels, c) != []
    decreases |levels|
  {
    var out := Push(f, height, levels, c);
    if levels == [] {
      assert [[c]][1..] == [];
    } else if |levels[0]| + 1 < PAGE_ITEMS {
      assert out[1..] == levels[1..];
    } else {
      PushTotal(f, height + 1, levels[1..], ParentOf(f, height, levels[0] + [c]));
      assert out[1..] == Push(f, height + 1, levels[1..], ParentOf(f, height, levels[0] + [c]));
    }
  }

  /** Finish: flushes the lowest level that holds references until one reference is left. */
  function Collapse(f: Format, height: nat, levels: seq<seq<Child>>): Option<Child>
    decreases Total(levels), |levels|
  {
    if levels == [] then None
    else if levels[0] == [] then Collapse(f, height + 1, levels[1..])
    else if Total(levels) == 1 then Some(levels[0][0])
    else
      PushTotal(f, height + 1, levels[1..], ParentOf(f, height, levels[0]));
      Collapse(f, height + 1, Push(f, height + 1, levels[1..], ParentOf(f, height, levels[0])))
  }

  // ---------------------------------------------- rows cut by item count only

  /** Any full page of children can be encoded, so only the item count cuts branch pages. */
  ghost predicate CountBounded(f: Format) {
    forall h: nat, cs: seq<Child> :: |cs| <= PAGE_ITEMS ==> ParentFits(f, h, cs)
  }

  /** The parents of the full pages of a row. */
  function FullParents(f: Format, height: nat, row: seq<Child>): seq<Child> {
    if |row| < PAGE_ITEMS then [] else [ParentOf(f, height, row[..PAGE_ITEMS])] + FullParents(f, height, row[PAGE_ITEMS..])
  }

  /** What the full pages leave over. */
  function Tail(row: seq<Child>): (t: seq<Child>)
    ensures |t| < PAGE_ITEMS && (t == [] ==> |row| != 1)
  {
    if |row| < PAGE_ITEMS then row else Tail(row[PAGE_ITEMS..])
  }

  function AllParents(f: Format, height: nat, row: seq<Child>): seq<Child> {
    FullParents(f, height, row) + (if Tail(row) == [] then [] else [ParentOf(f, height, Tail(row))])
  }

  /** The root above a row when pages are cut by count. */
  function Climb(f: Format, height: nat, row: seq<Child>): Child
    requires row != []
    decreases |row|
  {
    if |row| == 1 then row[0]
    else
      ParentsShrink(f, height, row);
      Climb(f, height + 1, AllParents(f, height, row))
  }

  lemma {:induction false} ParentsShrink(f: Format, height: nat, row: seq<Child>)
    ensures |AllParents(f, height, row)| <= |row| && (row != [] ==> AllParents(f, height, row) != [])
    ensures 1 < |row| ==> |AllParents(f, height, row)| < |row|
  {
    if |row| >= PAGE_ITEMS {
      var rest := row[PAGE_ITEMS..];
      ParentsShrink(f, height, rest);
      assert AllParents(f, height, row) == [ParentOf(f, height, row[..PAGE_ITEMS])] + AllParents(f, height, rest);
    }
  }

  /** The stack holds a row: each level has the left-over of the row there, and the next holds its full parents. */
  ghost predicate Holds(f: Format, height: nat, row: seq<Child>, levels: seq<seq<Child>>)
    decreases |levels|
  {
    if levels == [] then row == []
    else levels[0] == Tail(row) && Holds(f, height + 1, FullParents(f, height, row), levels[1..])
  }

  lemma {:induction false} AppendToRow(f: Format, height: nat, row: seq<Child>, c: Child)
    ensures |Tail(row)| + 1 < PAGE_ITEMS ==>
              Tail(row + [c]) == Tail(row) + [c] && FullParents(f, height, row + [c]) == FullParents(f, height, row)
    ensures |Tail(row)| + 1 == PAGE_ITEMS ==>
              Tail(row + [c]) == [] &&
              FullParents(f, height, row + [c]) == FullParents(f, height, row) + [ParentOf(f, height, Tail(row) + [c])]
  {
    if |row| < PAGE_ITEMS {
      if |row| + 1 == PAGE_ITEMS {
        assert (row + [c])[..PAGE_ITEMS] == row + [c] && (row + [c])[PAGE_ITEMS..] == [];
      }
    } else {
      var first, rest := row[..PAGE_ITEMS], row[PAGE_ITEMS..];
      AppendToRow(f, height, rest, c);
      assert (row + [c])[..PAGE_ITEMS] == first && (row + [c])[PAGE_ITEMS..] == rest + [c];
      var p := ParentOf(f, height, first);
      assert [p] + (FullParents(f, height, rest) + [ParentOf(f, height, Tail(rest) + [c])]) ==
             ([p] + FullParents(f, height, rest)) + [ParentOf(f, height, Tail(rest) + [c])];
    }
  }

  lemma {:induction false} PushHolds(f: Format, height: nat, row: seq<Child>, levels: seq<seq<Child>>, c: Child)
    requires Holds(f, height, row, levels)
    ensures Holds(f, height, row + [c], Push(f, height, levels, c))
    decreases |levels|
  {
    AppendToRow(f, height, row, c);
    var out := Push(f, height, levels, c);
    if levels == [] {
      assert row + [c] == [c] && [[c]][1..] == [];
    } else if |levels[0]| + 1 < PAGE_ITEMS {
      assert out[1..] == levels[1..];
    } else {
      var parent := ParentOf(f, height, levels[0] + [c]);
      PushHolds(f, height + 1, FullParents(f, height, row), levels[1..], parent);
      assert out[1..] == Push(f, height + 1, levels[1..], parent);
    }
  }

  /** A row is empty exactly when no level holds anything. */
  lemma {:induction false} HoldsNothing(f: Format, height: nat, row: seq<Child>, levels: seq<seq<Child>>)
    requires Holds(f, height, row, levels)
    ensures row == [] <==> Total(levels) == 0
    decreases |levels|
  {
    if levels != [] {
      HoldsNothing(f, height + 1, FullParents(f, height, row), levels[1..]);
      assert row != [] && Tail(row) == [] ==> FullParents(f, height, row) != [];
    }
  }

  /** Flushing level by level at the end builds the very root that batch building reaches. */
  lemma {:induction false} CollapseClimbs(f: Format, height: nat, row: seq<Child>, levels: seq<seq<Child>>)
    requires Holds(f, height, row, levels) && row != []
    ensures Collapse(f, height, levels) == Some(Climb(f, height, row))
    decreases |row|
  {
    var full := FullParents(f, height, row);
    ParentsShrink(f, height, row);
    HoldsNothing(f, height + 1, full, levels[1..]);
    assert full == [] ==> Tail(row) == row by { assert |row| < PAGE_ITEMS || full != []; }
    if levels[0] == [] {
      assert AllParents(f, height, row) == full;
      CollapseClimbs(f, height + 1, full, levels[1..]);
    } else if Total(levels) == 1 {
      assert Total(levels[1..]) == 0 && row == levels[0];
    } else {
      var parent := ParentOf(f, height, Tail(row));
      PushHolds(f, height + 1, full, levels[1..], parent);
      assert AllParents(f, height, row) == full + [parent];
      assert |row| == 1 ==> full == [] && Total(levels) == 1;
      CollapseClimbs(f, height + 1, full + [parent], Push(f, height + 1, levels[1..], parent));
    }
  }

  // ------------------------------------------------- which pages can be written

  /** The full pages of a row can be encoded. */
  predicate FullFits(f: Format, height: nat, row: seq<Child>) {
    |row| < PAGE_ITEMS || (ParentFits(f, height, row[..PAGE_ITEMS]) && FullFits(f, height, row[PAGE_ITEMS..]))
  }

  /** The full pages that streaming a row writes, on this level and above, can be encoded. */
  predicate StackFits(f: Format, height: nat, row: seq<Child>)
    decreases |row|
  {
    FullParentsShrink(f, height, row);
    FullFits(f, height, row) && (|row| < PAGE_ITEMS || StackFits(f, height + 1, FullParents(f, height, row)))
  }

  /** All pages above a row can be encoded, full ones and the left-over of each level. */
  predicate ClimbFits(f: Format, height: nat, row: seq<Child>)
    decreases |row|
  {
    ParentsShrink(f, height, row);
    |row| <= 1 ||
    (FullFits(f, height, row) && (Tail(row) == [] || ParentFits(f, height, Tail(row)))
     && ClimbFits(f, height + 1, AllParents(f, height, row)))
  }

  /** Every page that Finish writes for this stack can be encoded. */
  predicate CollapseFits(f: Format, height: nat, levels: seq<seq<Child>>)
    decreases Total(levels), |levels|
  {
    if levels == [] then true
    else if levels[0] == [] then CollapseFits(f, height + 1, levels[1..])
    else if Total(levels) == 1 then true
    else
      PushTotal(f, height + 1, levels[1..], ParentOf(f, height, levels[0]));
      && ParentFits(f, height, levels[0]) && PushFits(f, height + 1, levels[1..], ParentOf(f, height, levels[0]))
      && CollapseFits(f, height + 1, Push(f, height + 1, levels[1..], ParentOf(f, height, levels[0])))
  }

  lemma {:induction false} FullParentsShrink(f: Format, height: nat, row: seq<Child>)
    ensures |FullParents(f, height, row)| <= |row| && (row != [] ==> |FullParents(f, height, row)| < |row|)
    ensures |row| >= PAGE_ITEMS ==> FullParents(f, height, row) != []
  {
    if |row| >= PAGE_ITEMS { FullParentsShrink(f, height, row[PAGE_ITEMS..]); }
  }

  lemma {:induction false} FullFitsNext(f: Format, height: nat, row: seq<Child>, c: Child)
    ensures FullFits(f, height, row + [c]) <==>
            FullFits(f, height, row) && (|Tail(row)| + 1 == PAGE_ITEMS ==> ParentFits(f, height, Tail(row) + [c]))
  {
    if |row| < PAGE_ITEMS {
      if |row| + 1 == PAGE_ITEMS {
        assert (row + [c])[..PAGE_ITEMS] == row + [c] && (row + [c])[PAGE_ITEMS..] == [];
      }
    } else {
      FullFitsNext(f, height, row[PAGE_ITEMS..], c);
      assert (row + [c])[..PAGE_ITEMS] == row[..PAGE_ITEMS] && (row + [c])[PAGE_ITEMS..] == row[PAGE_ITEMS..] + [c];
    }
  }

  /** One more child keeps the pages that were written before it. */
  lemma {:induction false} StackFitsNext(f: Format, height: nat, row: seq<Child>, c: Child)
    ensures StackFits(f, height, row + [c]) ==> StackFits(f, height, row)
    ensures |Tail(row)| + 1 < PAGE_ITEMS ==> (StackFits(f, height, row + [c]) <==> StackFits(f, height, row))
    ensures |Tail(row)| + 1 == PAGE_ITEMS ==>
              (StackFits(f, height, row + [c]) <==>
                 && FullFits(f, height, row) && ParentFits(f, height, Tail(row) + [c])
                 && StackFits(f, height + 1, FullParents(f, height, row) + [ParentOf(f, height, Tail(row) + [c])]))
    decreases |row|
  {
    hide ParentFits, FullFits;
    AppendToRow(f, height, row, c);
    FullFitsNext(f, height, row, c);
    var full := FullParents(f, height, row);
    FullParentsShrink(f, height, row);
    TailIsRow(row);
    if |Tail(row)| + 1 == PAGE_ITEMS && row != [] {
      StackFitsNext(f, height + 1, full, ParentOf(f, height, Tail(row) + [c]));
      assert |row + [c]| >= PAGE_ITEMS;
      assert |row| < PAGE_ITEMS ==> full == [];
    }
    if |row| < PAGE_ITEMS { NoFullFits(f, height, row); }
    if |row| + 1 < PAGE_ITEMS { NoFullFits(f, height, row + [c]); }
  }

  lemma {:induction false} NoFullFits(f: Format, height: nat, row: seq<Child>)
    requires |row| < PAGE_ITEMS
    ensures FullFits(f, height, row)
  {
  }

  lemma {:induction false} TailIsRow(row: seq<Child>)
    ensures |Tail(row)| <= |row| && (|row| < PAGE_ITEMS ==> Tail(row) == row)
  {
    if |row| >= PAGE_ITEMS { TailIsRow(row[PAGE_ITEMS..]); }
  }

  lemma {:induction false} StackFitsPrefix(f: Format, height: nat, row: seq<Child>, n: nat)
    requires n <= |row| && StackFits(f, height, row)
    ensures StackFits(f, height, row[..n])
    decreases |row|
  {
    hide StackFits;
    if n < |row| {
      var m := |row| - 1;
      assert row == row[..m] + [row[m]];
      StackFitsNext(f, height, row[..m], row[m]);
      StackFitsPrefix(f, height, row[..m], n);
      assert row[..m][..n] == row[..n];
    } else {
      assert row[..n] == row;
    }
  }

  /** A push can be written exactly when the longer row can. */
  lemma {:induction false} PushFitsIff(f: Format, height: nat, row: seq<Child>, levels: seq<seq<Child>>, c: Child)
    requires Holds(f, height, row, levels) && StackFits(f, height, row)
    ensures PushFits(f, height, levels, c) <==> StackFits(f, height, row + [c])
    decreases |levels|
  {
    hide ParentFits, FullFits;
    StackFitsNext(f, height, row, c);
    var full := FullParents(f, height, row);
    if levels == [] {
      TailIsRow(row);
    } else if |levels[0]| + 1 == PAGE_ITEMS {
      StackAbove(f, height, row);
      PushFitsIff(f, height + 1, full, levels[1..], ParentOf(f, height, Tail(row) + [c]));
    }
  }

  lemma {:induction false} StackAbove(f: Format, height: nat, row: seq<Child>)
    requires StackFits(f, height, row)
    ensures FullFits(f, height, row) && StackFits(f, height + 1, FullParents(f, height, row))
  {
    FullParentsShrink(f, height, row);
    if |row| < PAGE_ITEMS { NoFullFits(f, height + 1, []); }
  }

  /** Whatever can be built above a row can be written while it is streamed. */
  lemma {:induction false} ClimbFitsStack(f: Format, height: nat, row: seq<Child>)
    requires ClimbFits(f, height, row)
    ensures StackFits(f, height, row)
    decreases |row|
  {
    hide ParentFits, FullFits;
    if |row| <= 1 {
      NoFullFits(f, height, row);
    } else {
      ParentsShrink(f, height, row);
      var full, all := FullParents(f, height, row), AllParents(f, height, row);
      ClimbFitsStack(f, height + 1, all);
      StackFitsPrefix(f, height + 1, all, |full|);
      assert all[..|full|] == full;
    }
  }

  /** Finishing succeeds exactly when every page above the row can be encoded. */
  lemma {:induction false} CollapseFitsIff(f: Format, height: nat, row: seq<Child>, levels: seq<seq<Child>>)
    requires Holds(f, height, row, levels) && row != [] && StackFits(f, height, row)
    ensures CollapseFits(f, height, levels) <==> ClimbFits(f, height, row)
    decreases |row|
  {
    hide ParentFits, FullFits, StackFits;
    var full := FullParents(f, height, row);
    ParentsShrink(f, height, row);
    StackAbove(f, height, row);
    HoldsNothing(f, height + 1, full, levels[1..]);
    TailIsRow(row);
    FullParentsShrink(f, height, row);
    assert full == [] ==> |row| < PAGE_ITEMS;
    if levels[0] == [] {
      assert AllParents(f, height, row) == full && 1 < |row|;
      CollapseFitsIff(f, height + 1, full, levels[1..]);
    } else if Total(levels) == 1 {
      assert Total(levels[1..]) == 0 && row == levels[0];
    } else {
      var parent := ParentOf(f, height, Tail(row));
      assert |row| == 1 ==> full == [] && Total(levels) == 1;
      assert AllParents(f, height, row) == full + [parent];
      PushFitsIff(f, height + 1, full, levels[1..], parent);
      if PushFits(f, height + 1, levels[1..], parent) {
        PushHolds(f, height + 1, full, levels[1..], parent);
        CollapseFitsIff(f, height + 1, full + [parent], Push(f, height + 1, levels[1..], parent));
      } else if ClimbFits(f, height + 1, full + [parent]) {
        ClimbFitsStack(f, height + 1, full + [parent]);
      }
    }
  }

  lemma {:induction false} CountBoundedClimbs(f: Format, height: nat, row: seq<Child>)
    requires CountBounded(f)
    ensures ClimbFits(f, height, row)
    decreases |row|
  {
    if 1 < |row| {
      ParentsShrink(f, height, row);
      CountBoundedFull(f, height, row);
      assert ParentFits(f, height, Tail(row));
      CountBoundedClimbs(f, height + 1, AllParents(f, height, row));
    }
  }

  lemma {:induction false} CountBoundedFull(f: Format, height: nat, row: seq<Child>)
    requires CountBounded(f)
    ensures FullFits(f, height, row)
  {
    if |row| >= PAGE_ITEMS {
      assert ParentFits(f, height, row[..PAGE_ITEMS]);
      CountBoundedFull(f, height, row[PAGE_ITEMS..]);
    }
  }

  /** Groups of children cut by count alone. */
  lemma {:induction false} GroupsByCount(f: Format, height: nat, row: seq<Child>)
    requires CountBounded(f)
    ensures BranchPages(f, height + 1, row) == Some(AllParents(f, height, row))
    decreases |row|
  {
    if row != [] {
      var header := f.branchHeader(height + 1);
      var n := Min(|row|, PAGE_ITEMS);
      assert ParentFits(f, height, row[..n]);
      if n < |row| { assert !PageFits(row[..n] + [row[n]], f.childBytes, header, f.limit); }
      assert row == row[..n] + row[n..];
      FirstCut(row[..n], row[n..], f.childBytes, header, f.limit);
      GroupsByCount(f, height, row[n..]);
      var rest := Groups(row[n..], f.childBytes, header, f.limit);
      assert ([row[..n]] + rest.value)[1..] == rest.value;
      if n == |row| {
        assert row[..n] == row && row[n..] == [];
      }
      CountStep(f, height, row);
    } else {
      assert AllParents(f, height, row) == [];
    }
  }

  lemma {:induction false} CountStep(f: Format, height: nat, row: seq<Child>)
    requires row != []
    ensures var n := Min(|row|, PAGE_ITEMS);
            AllParents(f, height, row) == [ParentOf(f, height, row[..n])] + AllParents(f, height, row[n..])
  {
    if |row| < PAGE_ITEMS {
      assert row[..|row|] == row && row[|row|..] == [];
    }
  }

  lemma {:induction false} ClimbIsRaised(f: Format, height: nat, row: seq<Child>)
    requires CountBounded(f) && row != []
    ensures Raised(f, height, row) == Some(RootOf(Climb(f, height, row)))
    decreases |row|
  {
    if 1 < |row| {
      GroupsByCount(f, height, row);
      ParentsShrink(f, height, row);
      ClimbIsRaised(f, height + 1, AllParents(f, height, row));
    }
  }

  // ------------------------------------------------- what the stack contains

  function StackEntries(levels: seq<seq<Child>>): seq<Entry> {
    if levels == [] then [] else StackEntries(levels[1..]) + Concat(levels[0])
  }

  ghost predicate GoodChild(f: Format, level: nat, c: Child) {
    c.level == level && Describes(c) && WellFormed(f, c.page)
  }

  ghost predicate GoodLevels(f: Format, height: nat, levels: seq<seq<Child>>) {
    forall i :: 0 <= i < |levels| ==>
      |levels[i]| < PAGE_ITEMS && forall j :: 0 <= j < |levels[i]| ==> GoodChild(f, height + i, levels[i][j])
  }

  lemma {:induction false} GoodTail(f: Format, height: nat, levels: seq<seq<Child>>)
    requires GoodLevels(f, height, levels) && levels != []
    ensures GoodLevels(f, height + 1, levels[1..])
  {
    forall i | 0 <= i < |levels[1..]|
      ensures |levels[1..][i]| < PAGE_ITEMS && forall j :: 0 <= j < |levels[1..][i]| ==> GoodChild(f, height + 1 + i, levels[1..][i][j])
    {
      assert levels[1..][i] == levels[i + 1];
    }
  }

  lemma {:induction false} GoodCons(f: Format, height: nat, cs: seq<Child>, levels: seq<seq<Child>>)
    requires |cs| < PAGE_ITEMS && (forall j :: 0 <= j < |cs| ==> GoodChild(f, height, cs[j])) && GoodLevels(f, height + 1, levels)
    ensures GoodLevels(f, height, [cs] + levels)
    ensures StackEntries([cs] + levels) == StackEntries(levels) + Concat(cs)
  {
    var all := [cs] + levels;
    assert all[1..] == levels;
    forall i | 0 <= i < |all|
      ensures |all[i]| < PAGE_ITEMS && forall j :: 0 <= j < |all[i]| ==> GoodChild(f, height + i, all[i][j])
    {
      if 0 < i { assert all[i] == levels[i - 1]; }
    }
  }

  /** Children with entries in order are disjoint. */
  lemma {:induction false} SortedIsDisjoint(f: Format, level: nat, cs: seq<Child>)
    requires (forall j :: 0 <= j < |cs| ==> GoodChild(f, level, cs[j])) && Sorted(Concat(cs))
    ensures Row(f, level, cs)
  {
    if cs != [] {
      var c, rest := cs[0], cs[1..];
      assert Concat(cs) == Entries(c.page) + Concat(rest);
      assert GoodChild(f, level, c) && Row(f, level, [c]);
      hide Sorted, Concat, Entries;
      SortedParts(Entries(c.page), Concat(rest));
      SortedIsDisjoint(f, level, rest);
      ChildEntries(f, c);
      if rest != [] {
        assert rest[0] == cs[1];
        RowEntries(f, rest);
      }
      RowCons(f, level, c, rest);
      assert [c] + rest == cs;
    }
  }

  lemma {:induction false} ParentIsGood(f: Format, height: nat, cs: seq<Child>)
    requires ValidFormat(f) && cs != [] && ParentFits(f, height, cs) && Sorted(Concat(cs))
    requires forall j :: 0 <= j < |cs| ==> GoodChild(f, height, cs[j])
    ensures GoodChild(f, height + 1, ParentOf(f, height, cs)) && Concat([ParentOf(f, height, cs)]) == Concat(cs)
  {
    SortedIsDisjoint(f, height, cs);
    BranchHead(f, height + 1, cs);
    var c := ParentOf(f, height, cs);
    assert [c][0] == c;
    assert Concat([c]) == Entries(c.page) + [];
  }

  lemma {:induction false} ConcatOne(cs: seq<Child>, c: Child)
    ensures Concat(cs + [c]) == Concat(cs) + Concat([c]) && Concat([]) == []
  {
    ConcatAppend(cs, [c]);
  }

  lemma {:induction false} GoodAppend(f: Format, height: nat, levels: seq<seq<Child>>, c: Child)
    requires GoodLevels(f, height, levels) && levels != [] && GoodChild(f, height, c)
    ensures |levels[0]| < PAGE_ITEMS
    ensures forall j :: 0 <= j < |levels[0] + [c]| ==> GoodChild(f, height, (levels[0] + [c])[j])
  {
  }

  lemma {:induction false} PushIsGood(f: Format, height: nat, levels: seq<seq<Child>>, c: Child)
    requires ValidFormat(f) && GoodLevels(f, height, levels) && GoodChild(f, height, c) && PushFits(f, height, levels, c)
    requires Sorted(StackEntries(levels) + Concat([c]))
    ensures GoodLevels(f, height, Push(f, height, levels, c))
    ensures StackEntries(Push(f, height, levels, c)) == StackEntries(levels) + Concat([c])
    decreases |levels|
  {
    hide GoodLevels, GoodChild, Concat, Sorted;
    if levels == [] {
      GoodCons(f, height, [c], []);
      assert [[c]] + [] == [[c]];
    } else {
      var cs, rest := levels[0] + [c], levels[1..];
      GoodTail(f, height, levels);
      ConcatOne(levels[0], c);
      assert StackEntries(levels) + Concat([c]) == StackEntries(rest) + Concat(cs);
      GoodAppend(f, height, levels, c);
      if |cs| < PAGE_ITEMS {
        GoodCons(f, height, cs, rest);
      } else {
        SortedParts(StackEntries(rest), Concat(cs));
        ParentIsGood(f, height, cs);
        PushIsGood(f, height + 1, rest, ParentOf(f, height, cs));
        assert StackEntries(rest) + Concat(cs) + [] == StackEntries(rest) + Concat(cs);
        GoodCons(f, height, [], Push(f, height + 1, rest, ParentOf(f, height, cs)));
      }
    }
  }

  // ------------------------------------------------------- flushing a leaf

  lemma {:induction false} FlattenOne<T>(gs: seq<seq<T>>, g: seq<T>)
    ensures Flatten(gs + [g]) == Flatten(gs) + g
  {
    if gs == [] {
      assert gs + [g] == [g] && [g][1..] == [];
    } else {
      assert (gs + [g])[1..] == gs[1..] + [g];
      FlattenOne(gs[1..], g);
    }
  }

  lemma {:induction false} LeafRowOne(f: Format, gs: seq<seq<Entry>>, g: seq<Entry>)
    requires g != [] && forall i :: 0 <= i < |gs| ==> gs[i] != []
    ensures LeafRow(f, gs + [g]) == LeafRow(f, gs) + [Describe(f, Leaf(g))]
  {
    if gs == [] {
      assert gs + [g] == [g] && [g][1..] == [];
    } else {
      assert (gs + [g])[1..] == gs[1..] + [g];
      LeafRowOne(f, gs[1..], g);
    }
  }

  lemma {:induction false} LeafIsGood(f: Format, g: seq<Entry>)
    requires ValidFormat(f) && g != [] && Sorted(g) && PageFits(g, f.entryBytes, f.leafHeader, f.limit)
    ensures GoodChild(f, 0, Describe(f, Leaf(g))) && Concat([Describe(f, Leaf(g))]) == g
  {
    DescribeIsExact(f, Leaf(g));
    var c := Describe(f, Leaf(g));
    assert [c][0] == c && [c][1..] == [];
  }

  /** Pushing the leaf that was just cut keeps the stack in step with the leaves. */
  lemma {:induction false} LeafFlushed(f: Format, written: seq<seq<Entry>>, leaf: seq<Entry>, levels: seq<seq<Child>>)
    requires ValidFormat(f) && leaf != [] && Greedy(written + [leaf], f.entryBytes, f.leafHeader, f.limit)
    requires Sorted(Flatten(written) + leaf) && GoodLevels(f, 0, levels) && StackEntries(levels) == Flatten(written)
    requires forall i :: 0 <= i < |written| ==> written[i] != []
    requires Holds(f, 0, LeafRow(f, written), levels) && StackFits(f, 0, LeafRow(f, written))
    ensures var c := Describe(f, Leaf(leaf));
            && (PushFits(f, 0, levels, c) ==>
                  && GoodLevels(f, 0, Push(f, 0, levels, c))
                  && StackEntries(Push(f, 0, levels, c)) == Flatten(written) + leaf)
            && Holds(f, 0, LeafRow(f, written) + [c], Push(f, 0, levels, c))
            && (PushFits(f, 0, levels, c) <==> StackFits(f, 0, LeafRow(f, written) + [c]))
  {
    var c := Describe(f, Leaf(leaf));
    assert PageFits((written + [leaf])[|written|], f.entryBytes, f.leafHeader, f.limit);
    SortedParts(Flatten(written), leaf);
    LeafIsGood(f, leaf);
    PushHolds(f, 0, LeafRow(f, written), levels, c);
    if PushFits(f, 0, levels, c) { PushIsGood(f, 0, levels, c); }
    PushFitsIff(f, 0, LeafRow(f, written), levels, c);
  }

  /** A leaf that cannot take the next entry is a finished cut. */
  lemma {:induction false} GreedyNext(written: seq<seq<Entry>>, leaf: seq<Entry>, e: Entry, f: Format)
    requires leaf != [] && Greedy(written + [leaf], f.entryBytes, f.leafHeader, f.limit)
    requires FitsAlone(e, f.entryBytes, f.leafHeader, f.limit)
    ensures PageFits(leaf + [e], f.entryBytes, f.leafHeader, f.limit) ==>
              Greedy(written + [leaf + [e]], f.entryBytes, f.leafHeader, f.limit)
    ensures !PageFits(leaf + [e], f.entryBytes, f.leafHeader, f.limit) ==>
              Greedy(written + [leaf] + [[e]], f.entryBytes, f.leafHeader, f.limit)
  {
    var gs := written + [leaf];
    forall i | 0 <= i < |gs| ensures gs[i] != [] && PageFits(gs[i], f.entryBytes, f.leafHeader, f.limit) { }
    if PageFits(leaf + [e], f.entryBytes, f.leafHeader, f.limit) {
      var out := written + [leaf + [e]];
      forall i | 0 <= i < |out| ensures out[i] != [] && PageFits(out[i], f.entryBytes, f.leafHeader, f.limit) {
        if i < |written| { assert out[i] == gs[i]; }
      }
      forall i | 0 <= i < |out| - 1 ensures !PageFits(out[i] + [out[i + 1][0]], f.entryBytes, f.leafHeader, f.limit) {
        assert out[i] == gs[i] && out[i + 1][0] == gs[i + 1][0];
      }
    } else {
      var out := gs + [[e]];
      forall i | 0 <= i < |out| - 1 ensures !PageFits(out[i] + [out[i + 1][0]], f.entryBytes, f.leafHeader, f.limit) {
        if i < |gs| - 1 { assert out[i] == gs[i] && out[i + 1] == gs[i + 1]; } else { assert out[i] == leaf; }
      }
    }
  }

  // ------------------------------------------------- collapsing the levels

  function Empties(n: nat): (e: seq<seq<Child>>)
    ensures |e| == n && forall i :: 0 <= i < n ==> e[i] == []
  {
    if n == 0 then [] else [[]] + Empties(n - 1)
  }

  lemma {:induction false} EmptiesAre(levels: seq<seq<Child>>)
    requires forall i :: 0 <= i < |levels| ==> levels[i] == []
    ensures levels == Empties(|levels|) && Total(levels) == 0 && StackEntries(levels) == []
  {
    if levels != [] {
      EmptiesAre(levels[1..]);
      assert levels == [[]] + levels[1..];
    }
  }

  /** An empty level at the bottom adds nothing. */
  lemma {:induction false} SkipOne(f: Format, height: nat, above: seq<seq<Child>>)
    ensures Collapse(f, height, [[]] + above) == Collapse(f, height + 1, above)
    ensures CollapseFits(f, height, [[]] + above) == CollapseFits(f, height + 1, above)
    ensures StackEntries([[]] + above) == StackEntries(above)
    ensures Total([[]] + above) == Total(above)
    ensures GoodLevels(f, height, [[]] + above) <==> GoodLevels(f, height + 1, above)
  {
    hide GoodLevels, GoodChild;
    var all := [[]] + above;
    assert all[1..] == above;
    GoodAbove(f, height, above);
  }

  lemma {:induction false} GoodAbove(f: Format, height: nat, above: seq<seq<Child>>)
    ensures GoodLevels(f, height, [[]] + above) <==> GoodLevels(f, height + 1, above)
  {
    var all := [[]] + above;
    assert all[1..] == above;
    if GoodLevels(f, height, all) { GoodTail(f, height, all); }
    if GoodLevels(f, height + 1, above) { GoodCons(f, height, [], above); }
  }

  lemma {:induction false} SkipEmpties(f: Format, height: nat, n: nat, above: seq<seq<Child>>)
    ensures Collapse(f, height, Empties(n) + above) == Collapse(f, height + n, above)
    ensures CollapseFits(f, height, Empties(n) + above) == CollapseFits(f, height + n, above)
    ensures StackEntries(Empties(n) + above) == StackEntries(above)
    ensures Total(Empties(n) + above) == Total(above)
    ensures GoodLevels(f, height, Empties(n) + above) <==> GoodLevels(f, height + n, above)
    decreases n
  {
    hide Collapse, CollapseFits, StackEntries, Total, GoodLevels;
    if n == 0 {
      assert Empties(n) + above == above;
    } else {
      SkipEmpties(f, height + 1, n - 1, above);
      SkipOne(f, height, Empties(n - 1) + above);
      assert Empties(n) + above == [[]] + (Empties(n - 1) + above);
    }
  }

  lemma {:induction false} NoTotal(levels: seq<seq<Child>>)
    requires Total(levels) == 0
    ensures StackEntries(levels) == [] && forall i :: 0 <= i < |levels| ==> levels[i] == []
  {
    if levels != [] {
      NoTotal(levels[1..]);
      forall i | 0 <= i < |levels| ensures levels[i] == [] { if 0 < i { assert levels[i] == levels[1..][i - 1]; } }
    }
  }

  /** The levels after the lowest one was flushed. */
  function Flushed(f: Format, levels: seq<seq<Child>>, n: nat): seq<seq<Child>>
    requires n < |levels| && levels[n] != []
  {
    levels[..n] + [[]] + Push(f, n + 1, levels[n + 1..], ParentOf(f, n, levels[n]))
  }

  predicate FlushFits(f: Format, levels: seq<seq<Child>>, n: nat)
    requires n < |levels| && levels[n] != []
  {
    ParentFits(f, n, levels[n]) && PushFits(f, n + 1, levels[n + 1..], ParentOf(f, n, levels[n]))
  }

  lemma {:induction false} EmptiesSucc(n: nat)
    ensures Empties(n) + [[]] == Empties(n + 1)
  {
    if 0 < n {
      EmptiesSucc(n - 1);
      assert Empties(n) + [[]] == [[]] + (Empties(n - 1) + [[]]);
    }
  }

  lemma {:induction false} CollapseStep(f: Format, height: nat, levels: seq<seq<Child>>)
    requires levels != [] && levels[0] != [] && 1 < Total(levels)
    ensures var above := Push(f, height + 1, levels[1..], ParentOf(f, height, levels[0]));
            && Collapse(f, height, levels) == Collapse(f, height + 1, above)
            && (CollapseFits(f, height, levels) <==>
                  && ParentFits(f, height, levels[0]) && PushFits(f, height + 1, levels[1..], ParentOf(f, height, levels[0]))
                  && CollapseFits(f, height + 1, above))
            && 0 < Total(above)
            && (Total(above) < Total(levels) || (Total(above) == Total(levels) && |above| < |levels|))
  {
    PushTotal(f, height + 1, levels[1..], ParentOf(f, height, levels[0]));
    if levels[1..] == [] { assert Total(levels) == |levels[0]|; }
  }

  lemma {:induction false} FlushIsGood(f: Format, height: nat, levels: seq<seq<Child>>)
    requires ValidFormat(f) && GoodLevels(f, height, levels) && Sorted(StackEntries(levels))
    requires levels != [] && levels[0] != [] && ParentFits(f, height, levels[0])
    requires PushFits(f, height + 1, levels[1..], ParentOf(f, height, levels[0]))
    ensures var above := Push(f, height + 1, levels[1..], ParentOf(f, height, levels[0]));
            GoodLevels(f, height + 1, above) && StackEntries(above) == StackEntries(levels)
  {
    hide GoodLevels, Concat, Sorted, Push, PushFits, GoodChild;
    var parent := ParentOf(f, height, levels[0]);
    GoodTail(f, height, levels);
    SortedParts(StackEntries(levels[1..]), Concat(levels[0]));
    GoodFirst(f, height, levels);
    ParentIsGood(f, height, levels[0]);
    PushIsGood(f, height + 1, levels[1..], parent);
  }

  /** A flush of the lowest level keeps the entries and the root to come, and makes progress. */
  lemma {:induction false} FlushKeeps(f: Format, levels: seq<seq<Child>>, n: nat)
    requires ValidFormat(f) && GoodLevels(f, 0, levels) && Sorted(StackEntries(levels))
    requires n < |levels| && levels[n] != [] && 1 < Total(levels) && levels[..n] == Empties(n) && FlushFits(f, levels, n)
    ensures var out := Flushed(f, levels, n);
            && GoodLevels(f, 0, out) && StackEntries(out) == StackEntries(levels)
            && Collapse(f, 0, out) == Collapse(f, 0, levels)
            && CollapseFits(f, 0, out) == CollapseFits(f, 0, levels)
            && |out| > n && out[..n + 1] == Empties(n + 1)
            && 0 < Total(out)
            && (Total(out) < Total(levels) || (Total(out) == Total(levels) && |out| <= |levels|))
  {
    hide GoodLevels, Concat, Sorted, Push, PushFits, Collapse, CollapseFits, StackEntries, Total, Empties;
    var xs := levels[n..];
    var above := Push(f, n + 1, levels[n + 1..], ParentOf(f, n, levels[n]));
    assert levels == Empties(n) + xs && xs[1..] == levels[n + 1..] && xs[0] == levels[n];
    EmptiesSucc(n);
    assert Flushed(f, levels, n) == Empties(n + 1) + above;
    SkipEmpties(f, 0, n, xs);
    SkipEmpties(f, 0, n + 1, above);
    CollapseStep(f, n, xs);
    FlushIsGood(f, n, xs);
  }

  /** A flush that cannot be written means that the stack cannot be finished. */
  lemma {:induction false} FlushFails(f: Format, levels: seq<seq<Child>>, n: nat)
    requires n < |levels| && levels[n] != [] && 1 < Total(levels) && levels[..n] == Empties(n) && !FlushFits(f, levels, n)
    ensures !CollapseFits(f, 0, levels)
  {
    hide Collapse, CollapseFits, StackEntries, Total, Empties, GoodLevels, Push, PushFits;
    var xs := levels[n..];
    assert levels == Empties(n) + xs && xs[1..] == levels[n + 1..] && xs[0] == levels[n];
    SkipEmpties(f, 0, n, xs);
    CollapseStep(f, n, xs);
  }

  lemma {:induction false} GoodFirst(f: Format, height: nat, levels: seq<seq<Child>>)
    requires GoodLevels(f, height, levels) && levels != []
    ensures forall j :: 0 <= j < |levels[0]| ==> GoodChild(f, height, levels[0][j])
  {
  }

  /** One reference left: it holds all the entries. */
  lemma {:induction false} LastReference(f: Format, levels: seq<seq<Child>>, n: nat)
    requires GoodLevels(f, 0, levels) && n < |levels| && levels[n] != [] && Total(levels) == 1 && levels[..n] == Empties(n)
    ensures Collapse(f, 0, levels) == Some(levels[n][0]) && CollapseFits(f, 0, levels)
    ensures ValidRoot(f, RootOf(levels[n][0])) && Contents(RootOf(levels[n][0])) == StackEntries(levels)
  {
    hide Collapse, CollapseFits, StackEntries, Total, Empties, GoodLevels, Concat, ValidRoot, Contents;
    var xs, c := levels[n..], levels[n][0];
    assert levels == Empties(n) + xs && xs[0] == levels[n];
    SkipEmpties(f, 0, n, xs);
    GoodFirst(f, n, xs);
    LastOne(f, n, xs);
    OneIsRow(f, n, c);
    RootIsValid(f, n, c);
  }

  lemma {:induction false} OneIsRow(f: Format, level: nat, c: Child)
    requires GoodChild(f, level, c)
    ensures Row(f, level, [c])
  {
  }

  lemma {:induction false} LastOne(f: Format, height: nat, xs: seq<seq<Child>>)
    requires xs != [] && xs[0] != [] && Total(xs) == 1
    ensures Collapse(f, height, xs) == Some(xs[0][0]) && CollapseFits(f, height, xs)
    ensures xs[0] == [xs[0][0]] && StackEntries(xs) == Concat([xs[0][0]])
  {
    assert Total(xs[1..]) == 0;
    NoTotal(xs[1..]);
    assert [] + Concat(xs[0]) == Concat(xs[0]);
  }

  /** The root that streaming entries reaches: batch leaves, and pages above them cut by count. */
  function StreamRoot(f: Format, row: seq<Child>): Root {
    if row == [] then Empty else RootOf(Climb(f, 0, row))
  }

  /** The stack of the greedy leaves collapses to the root above the batch leaves, if its pages can be encoded. */
  lemma {:induction false} StreamIsClimb(f: Format, written: seq<seq<Entry>>, levels: seq<seq<Child>>)
    requires Greedy(written, f.entryBytes, f.leafHeader, f.limit)
    requires (forall i :: 0 <= i < |written| ==> written[i] != []) && Holds(f, 0, LeafRow(f, written), levels)
    requires StackFits(f, 0, LeafRow(f, written))
    ensures LeafPages(f, Flatten(written)) == Some(LeafRow(f, written))
    ensures var c := Collapse(f, 0, levels);
            StreamRoot(f, LeafRow(f, written)) == if c.Some? then RootOf(c.value) else Empty
    ensures CollapseFits(f, 0, levels) <==> ClimbFits(f, 0, LeafRow(f, written))
    ensures Collapse(f, 0, levels).None? <==> Total(levels) == 0
  {
    hide Greedy, Holds, Collapse, Total, Groups, Climb, CollapseFits, StackFits, LeafRow;
    GreedyIsGroups(written, f.entryBytes, f.leafHeader, f.limit);
    var row := LeafRow(f, written);
    HoldsNothing(f, 0, row, levels);
    if row == [] {
      CollapseNothing(f, levels);
    } else {
      CollapseClimbs(f, 0, row, levels);
      CollapseFitsIff(f, 0, row, levels);
    }
  }

  /** Where only the item count cuts branch pages, the streamed tree is the tree that batch building makes. */
  lemma {:induction false} StreamIsBatch(f: Format, es: seq<Entry>)
    requires CountBounded(f) && LeafPages(f, es).Some?
    ensures ClimbFits(f, 0, LeafPages(f, es).value)
    ensures Built(f, es) == Some(StreamRoot(f, LeafPages(f, es).value))
  {
    hide CountBounded, LeafPages, Climb, ClimbFits;
    var row := LeafPages(f, es).value;
    CountBoundedClimbs(f, 0, row);
    if row != [] { ClimbIsRaised(f, 0, row); }
  }

  lemma {:induction false} CollapseNothing(f: Format, levels: seq<seq<Child>>)
    requires Total(levels) == 0
    ensures Collapse(f, 0, levels).None? && CollapseFits(f, 0, levels)
  {
    NoTotal(levels);
    EmptiesAre(levels);
    SkipEmpties(f, 0, |levels|, []);
    assert levels == Empties(|levels|) + [];
  }

  // ------------------------------------------------------------ the builder

  /** Builds a tree from a sorted stream, holding one leaf and less than a page of references per level. */
  class Builder {
    const f: Format
    var leaf: seq<Entry>
    var leafBytes: nat
    var levels: seq<seq<Child>>
    /** The leaves that have been written. */
    ghost var written: seq<seq<Entry>>

    ghost function Added(): seq<Entry>
      reads this
    {
      Flatten(written) + leaf
    }

    /** The stack is the stack of the written leaves. */
    ghost predicate Stacked()
      reads this
    {
      && ValidFormat(f) && Sorted(Added()) && GoodLevels(f, 0, levels) && StackEntries(levels) == Flatten(written)
      && (forall i :: 0 <= i < |written| ==> written[i] != [])
      && Greedy(written, f.entryBytes, f.leafHeader, f.limit) && Holds(f, 0, LeafRow(f, written), levels)
      && StackFits(f, 0, LeafRow(f, written))
    }

    /** The open leaf is the last of the greedy cuts so far, and its size is exact. */
    ghost predicate Valid()
      reads this
    {
      && Stacked() && (leaf == [] ==> written == [])
      && (leaf != [] ==>
            && Greedy(written + [leaf], f.entryBytes, f.leafHeader, f.limit)
            && leafBytes == f.leafHeader + Body(leaf, f.entryBytes))
    }

    constructor (f: Format)
      requires ValidFormat(f)
      ensures Valid() && Added() == [] && this.f == f
    {
      this.f := f;
      leaf, leafBytes, levels, written := [], 0, [], [];
    }

    /** addReference */
    method AddReference(level: nat, c: Child) returns (ok: bool)
      requires level <= |levels|
      modifies this`levels
      ensures ok <==> PushFits(f, level, old(levels[level..]), c)
      ensures ok ==> levels == old(levels[..level]) + Push(f, level, old(levels[level..]), c)
      decreases |levels| - level, 1
    {
      ghost var above := levels[level..];
      if |levels| <= level { levels := levels + [[]]; }
      levels := levels[level := levels[level] + [c]];
      if |levels[level]| < PAGE_ITEMS {
        assert above == [] ==> levels[level] == [c] && levels == old(levels[..level]) + [[c]];
        assert above != [] ==> levels == old(levels[..level]) + ([above[0] + [c]] + above[1..]);
        return true;
      }
      assert levels[level] == above[0] + [c] && levels[level + 1..] == above[1..];
      ok := FlushLevel(level);
    }

    /** flushLevel */
    method FlushLevel(level: nat) returns (ok: bool)
      requires level < |levels| && levels[level] != []
      modifies this`levels
      ensures ok <==> ParentFits(f, level, old(levels[level])) &&
                      PushFits(f, level + 1, old(levels[level + 1..]), ParentOf(f, level, old(levels[level])))
      ensures ok ==> levels == old(levels[..level]) + [[]] + Push(f, level + 1, old(levels[level + 1..]), ParentOf(f, level, old(levels[level])))
      decreases |levels| - level, 0
    {
      var cs := levels[level];
      if !(|cs| <= PAGE_ITEMS && f.branchHeader(level + 1) + Body(cs, f.childBytes) <= f.limit) { return false; }
      var parent := Describe(f, Branch(level + 1, cs));
      ghost var above := levels[level + 1..];
      levels := levels[level := []];
      assert levels[level + 1..] == above && levels[..level + 1] == old(levels[..level]) + [[]];
      ok := AddReference(level + 1, parent);
    }

    /** flushLeaf, for a leaf that holds something: fails exactly when a full page of references cannot be encoded. */
    method FlushLeaf() returns (ok: bool)
      requires Valid() && leaf != []
      modifies this
      ensures ok <==> StackFits(f, 0, LeafRow(f, old(written) + [old(leaf)]))
      ensures ok ==> Stacked() && leaf == [] && written == old(written) + [old(leaf)] && Added() == old(Added())
    {
      hide Holds, GoodLevels, StackEntries, Greedy, Push, PushFits, StackFits;
      LeafFlushed(f, written, leaf, levels);
      FlattenOne(written, leaf);
      LeafRowOne(f, written, leaf);
      var reference := Describe(f, Leaf(leaf));
      assert levels[..0] == [] && levels[0..] == levels;
      assert Flatten(written + [leaf]) + [] == Flatten(written) + leaf;
      written := written + [leaf];
      leaf, leafBytes := [], 0;
      assert [] + Push(f, 0, levels, reference) == Push(f, 0, levels, reference);
      ok := AddReference(0, reference);
    }

    /** The entry starts a new leaf and the pages that closing the open one writes cannot be encoded. */
    ghost predicate Blocked(e: Entry)
      reads this
      requires Valid()
    {
      && leaf != [] && !PageFits(leaf + [e], f.entryBytes, f.leafHeader, f.limit)
      && !StackFits(f, 0, LeafRow(f, written + [leaf]))
    }

    /** Add: fills the open leaf, and cuts it when the entry would make it too large. */
    method Add(e: Entry) returns (ok: bool)
      requires Valid() && Sorted(Added() + [e])
      modifies this
      ensures ok <==> FitsAlone(e, f.entryBytes, f.leafHeader, f.limit) && !old(Blocked(e))
      ensures ok ==> Valid() && Added() == old(Added()) + [e]
    {
      hide Holds, GoodLevels, StackEntries, LeafRow, StackFits;
      if leaf != [] {
        ghost var cuts := written;
        assert Greedy(written + [leaf], f.entryBytes, f.leafHeader, f.limit);
        assert Body(leaf + [e], f.entryBytes) == Body(leaf, f.entryBytes) + 1 + f.entryBytes(e) by {
          assert (leaf + [e])[..|leaf|] == leaf;
        }
        if |leaf| < PAGE_ITEMS && f.entryBytes(e) <= f.limit - leafBytes - 1 {
          GreedyNext(written, leaf, e, f);
          assert Flatten(written) + (leaf + [e]) == Added() + [e];
          leafBytes := leafBytes + 1 + f.entryBytes(e);
          leaf := leaf + [e];
          return true;
        }
        ghost var full := leaf;
        ok := FlushLeaf();
        if !ok || f.leafHeader + f.entryBytes(e) > f.limit { return false; }
        GreedyNext(cuts, full, e, f);
      } else {
        if f.leafHeader + f.entryBytes(e) > f.limit { return false; }
        assert written + [[e]] == [[e]];
      }
      assert Flatten(written) + [e] == Added() + [e];
      leaf, leafBytes := [e], f.leafHeader + f.entryBytes(e);
      ok := true;
    }

    /** The lowest level that holds references, and how many there are in all. */
    method Scan() returns (lowest: nat, total: nat)
      ensures total == Total(levels)
      ensures 0 < total ==> lowest < |levels| && levels[lowest] != [] && forall i :: 0 <= i < lowest ==> levels[i] == []
    {
      total, lowest := 0, |levels|;
      var n := |levels|;
      while n > 0
        invariant 0 <= n <= |levels| && total == Total(levels[n..])
        invariant 0 < total ==> n <= lowest < |levels| && levels[lowest] != [] && forall i :: n <= i < lowest ==> levels[i] == []
      {
        n := n - 1;
        assert levels[n..][1..] == levels[n + 1..];
        total := total + |levels[n]|;
        if levels[n] != [] { lowest := n; }
      }
      assert levels[0..] == levels;
    }

    /** The loop of Finish: flushes the lowest level until one reference is left. */
    method CollapseLevels() returns (r: Result<Root, ErrorKind>)
      requires ValidFormat(f) && GoodLevels(f, 0, levels) && Sorted(StackEntries(levels))
      modifies this`levels
      ensures r.Ok? <==> old(CollapseFits(f, 0, levels))
      ensures r.Ok? ==> ValidRoot(f, r.value) && Contents(r.value) == old(StackEntries(levels))
      ensures old(Total(levels)) > 0 && r.Ok? ==> old(Collapse(f, 0, levels)).Some?
      ensures r.Ok? ==> r.value == if old(Total(levels)) == 0 then Empty else RootOf(old(Collapse(f, 0, levels)).value)
    {
      hide GoodLevels, StackEntries, Collapse, CollapseFits, Push, PushFits, Sorted;
      ghost var low := 0;
      var lowest, total := Scan();
      if total == 0 {
        NoTotal(levels);
        CollapseNothing(f, levels);
        return Ok(Empty);
      }
      while total > 1
        invariant GoodLevels(f, 0, levels) && StackEntries(levels) == old(StackEntries(levels))
        invariant Collapse(f, 0, levels) == old(Collapse(f, 0, levels))
        invariant CollapseFits(f, 0, levels) == old(CollapseFits(f, 0, levels))
        invariant total == Total(levels) && total > 0 && 0 <= lowest < |levels| && levels[lowest] != []
        invariant (forall i :: 0 <= i < lowest ==> levels[i] == []) && low <= lowest
        decreases total, |levels| - low
      {
        EmptiesAre(levels[..lowest]);
        ghost var before := levels;
        var ok := FlushLevel(lowest);
        if !ok {
          FlushFails(f, before, lowest);
          return Err(Invalid);
        }
        FlushKeeps(f, before, lowest);
        low := lowest + 1;
        assert levels == Flushed(f, before, lowest);
        forall i | 0 <= i < low ensures levels[i] == [] { assert levels[..low][i] == []; }
        lowest, total := Scan();
      }
      EmptiesAre(levels[..lowest]);
      LastReference(f, levels, lowest);
      r := Ok(RootOf(levels[lowest][0]));
    }

    /**
      * Finish: the root above the very leaves that the batch builder cuts, for every
      * format; it fails exactly when a page above them cannot be encoded.
      */
    method Finish() returns (r: Result<Root, ErrorKind>)
      requires Valid()
      modifies this
      ensures LeafPages(f, old(Added())).Some?
      ensures r.Ok? <==> ClimbFits(f, 0, LeafPages(f, old(Added())).value)
      ensures r.Ok? ==> ValidRoot(f, r.value) && Contents(r.value) == old(Added())
      ensures r.Ok? ==> r.value == StreamRoot(f, LeafPages(f, old(Added())).value)
    {
      hide GoodLevels, StackEntries, Collapse, CollapseFits, Holds, Sorted, Greedy, Total, StackFits, ClimbFits, Climb, LeafRow, LeafPages;
      assert Flatten(written) + [] == Flatten(written);
      if leaf != [] {
        ghost var all := written + [leaf];
        GreedyLeaves(f, all);
        FlattenOne(written, leaf);
        var ok := FlushLeaf();
        if !ok {
          if ClimbFits(f, 0, LeafRow(f, all)) { ClimbFitsStack(f, 0, LeafRow(f, all)); }
          return Err(Invalid);
        }
      }
      assert Flatten(written) + [] == Flatten(written);
      StreamIsClimb(f, written, levels);
      r := CollapseLevels();
    }
  }

  lemma {:induction false} GreedyLeaves(f: Format, gs: seq<seq<Entry>>)
    requires Greedy(gs, f.entryBytes, f.leafHeader, f.limit)
    ensures (forall i :: 0 <= i < |gs| ==> gs[i] != []) && LeafPages(f, Flatten(gs)) == Some(LeafRow(f, gs))
  {
    GreedyIsGroups(gs, f.entryBytes, f.leafHeader, f.limit);
  }

  /** Leaves that were closed by an entry that did not fit are the first leaves of any longer stream. */
  lemma {:induction false} ClosedLeavesStay<T>(gs: seq<seq<T>>, rest: seq<T>, size: T -> nat, header: nat, limit: nat)
    requires Greedy(gs, size, header, limit) && gs != [] && rest != []
    requires !PageFits(gs[|gs| - 1] + [rest[0]], size, header, limit)
    ensures Groups(Flatten(gs) + rest, size, header, limit) == Prepend(gs, Groups(rest, size, header, limit))
  {
    hide PageFits, PagePrefix, Groups, Greedy, Flatten, Prepend;
    var first, more := gs[0], gs[1..];
    FlattenFirst(gs, rest);
    GreedyTail(gs, size, header, limit);
    if more == [] {
      assert gs == [first];
      FirstGroup(first, rest, size, header, limit);
    } else {
      assert more[|more| - 1] == gs[|gs| - 1];
      ClosedLeavesStay(more, rest, size, header, limit);
      FirstGroup(first, Flatten(more) + rest, size, header, limit);
      PrependTwice(first, more, Groups(rest, size, header, limit));
      assert [first] + more == gs;
    }
  }

  lemma {:induction false} FlattenFirst<T>(gs: seq<seq<T>>, rest: seq<T>)
    requires gs != []
    ensures Flatten(gs) + rest == gs[0] + (Flatten(gs[1..]) + rest)
    ensures gs[1..] == [] ==> Flatten(gs[1..]) + rest == rest
    ensures 1 < |gs| && gs[1] != [] ==> Flatten(gs[1..]) + rest != [] && (Flatten(gs[1..]) + rest)[0] == gs[1][0]
  {
  }

  lemma {:induction false} PrependTwice<T>(first: seq<T>, more: seq<seq<T>>, tail: Option<seq<seq<T>>>)
    ensures Prepend([first], Prepend(more, tail)) == Prepend([first] + more, tail)
  {
    if tail.Some? { assert [first] + (more + tail.value) == [first] + more + tail.value; }
  }

  lemma {:induction false} GreedyTail<T>(gs: seq<seq<T>>, size: T -> nat, header: nat, limit: nat)
    requires Greedy(gs, size, header, limit) && gs != []
    ensures Greedy(gs[1..], size, header, limit)
    ensures gs[0] != [] && PageFits(gs[0], size, header, limit)
    ensures gs[1..] != [] ==> gs[1] != [] && !PageFits(gs[0] + [gs[1][0]], size, header, limit)
  {
    hide PageFits;
    var more := gs[1..];
    forall i | 0 <= i < |more| - 1 ensures !PageFits(more[i] + [more[i + 1][0]], size, header, limit) {
      assert gs[i + 1] == more[i] && gs[i + 2] == more[i + 1];
    }
  }

  lemma {:induction false} FirstGroup<T>(first: seq<T>, rest: seq<T>, size: T -> nat, header: nat, limit: nat)
    requires first != [] && PageFits(first, size, header, limit)
    requires rest != [] ==> !PageFits(first + [rest[0]], size, header, limit)
    ensures Groups(first + rest, size, header, limit) == Prepend([first], Groups(rest, size, header, limit))
  {
    FirstCut(first, rest, size, header, limit);
    var items := first + rest;
    assert items[..|first|] == first && items[|first|..] == rest;
  }

  lemma {:induction false} LeafRowAppend(f: Format, a: seq<seq<Entry>>, b: seq<seq<Entry>>)
    requires (forall i :: 0 <= i < |a| ==> a[i] != []) && (forall i :: 0 <= i < |b| ==> b[i] != [])
    ensures LeafRow(f, a + b) == LeafRow(f, a) + LeafRow(f, b)
  {
    if a == [] {
      assert a + b == b;
    } else {
      assert (a + b)[1..] == a[1..] + b;
      LeafRowAppend(f, a[1..], b);
    }
  }

  /** A page that cannot be encoded when a leaf closes cannot be encoded above the whole stream either. */
  lemma {:induction false} BlockedStaysBlocked(f: Format, gs: seq<seq<Entry>>, rest: seq<Entry>)
    requires Greedy(gs, f.entryBytes, f.leafHeader, f.limit) && gs != [] && rest != []
    requires !PageFits(gs[|gs| - 1] + [rest[0]], f.entryBytes, f.leafHeader, f.limit)
    requires (forall i :: 0 <= i < |gs| ==> gs[i] != []) && !StackFits(f, 0, LeafRow(f, gs))
    ensures var row := LeafPages(f, Flatten(gs) + rest); row.Some? ==> !ClimbFits(f, 0, row.value)
  {
    hide Greedy, PageFits, StackFits, ClimbFits, LeafRow, Groups;
    ClosedLeavesStay(gs, rest, f.entryBytes, f.leafHeader, f.limit);
    var tail := Groups(rest, f.entryBytes, f.leafHeader, f.limit);
    if tail.Some? {
      LeafRowAppend(f, gs, tail.value);
      var row := LeafRow(f, gs + tail.value);
      assert row[..|LeafRow(f, gs)|] == LeafRow(f, gs);
      if ClimbFits(f, 0, row) {
        ClimbFitsStack(f, 0, row);
        StackFitsPrefix(f, 0, row, |LeafRow(f, gs)|);
      }
    }
  }

  /**
    * A whole stream through the builder, as projection construction runs it. For every
    * format its leaves are those of the batch builder. It fails exactly when an entry
    * fits no page or a page of references above the leaves cannot be encoded.
    */
  method StreamTree(f: Format, es: seq<Entry>) returns (r: Result<Root, ErrorKind>)
    requires ValidFormat(f) && Sorted(es)
    ensures r.Ok? <==> LeafPages(f, es).Some? && ClimbFits(f, 0, LeafPages(f, es).value)
    ensures r.Ok? ==> ValidRoot(f, r.value) && Contents(r.value) == es
    ensures r.Ok? ==> r.value == StreamRoot(f, LeafPages(f, es).value)
    ensures CountBounded(f) && r.Ok? ==> Some(r.value) == Built(f, es)
  {
    hide CountBounded, Built, Sorted, FitsAlone, Builder.Valid, Builder.Added, Builder.Blocked, ValidRoot, Contents, ValidFormat, ClimbFits, LeafPages, StreamRoot;
    var builder := new Builder(f);
    for n := 0 to |es|
      invariant fresh(builder) && builder.f == f && builder.Valid() && builder.Added() == es[..n]
    {
      assert es[..n + 1] == es[..n] + [es[n]];
      SortedParts(es[..n + 1], es[n + 1..]) by { assert es[..n + 1] + es[n + 1..] == es; }
      StreamFails(builder, es, n);
      var ok := builder.Add(es[n]);
      if !ok { return Err(Invalid); }
    }
    assert es[..|es|] == es;
    r := builder.Finish();
    if CountBounded(f) { StreamIsBatch(f, es); }
  }

  /** What makes an entry be refused makes the whole stream fail. */
  lemma {:induction false} StreamFails(builder: Builder, es: seq<Entry>, n: nat)
    requires builder.Valid() && n < |es| && builder.Added() == es[..n] && Sorted(es)
    ensures !FitsAlone(es[n], builder.f.entryBytes, builder.f.leafHeader, builder.f.limit) ==> LeafPages(builder.f, es).None?
    ensures builder.Blocked(es[n]) ==>
              LeafPages(builder.f, es).Some? ==> !ClimbFits(builder.f, 0, LeafPages(builder.f, es).value)
  {
    hide Greedy, PageFits, StackFits, ClimbFits, LeafRow, LeafPages, FitsAlone, Holds, GoodLevels, StackEntries, Sorted;
    var f := builder.f;
    LeafPagesOk(f, es);
    if builder.Blocked(es[n]) {
      var gs := builder.written + [builder.leaf];
      FlattenOne(builder.written, builder.leaf);
      assert gs[|gs| - 1] == builder.leaf && es[n..][0] == es[n] && Flatten(gs) + es[n..] == es;
      GreedyLeaves(f, gs);
      BlockedStaysBlocked(f, gs, es[n..]);
    }
  }
}
