/** The iterator that walks a tree with one page per level. */
module TreeCursor {
  import opened Basics
  import opened PageGroups
  import opened DomainTree
  import opened TreeEdit
  import opened TreeApply
  import opened TreeMap

  datatype Frame = Frame(page: Page, index: nat)

  /** What one frame still has to deliver, apart from what the frames above it deliver. */
  function Pending(t: Frame): seq<Entry> {
    match t.page
    case Leaf(es) => if t.index <= |es| then es[t.index..] else []
    case Branch(_, cs) => if t.index < |cs| then Concat(cs[t.index + 1..]) else []
  }

  function Rest(stack: seq<Frame>): seq<Entry> {
    if stack == [] then [] else Pending(stack[|stack| - 1]) + Rest(stack[..|stack| - 1])
  }

  ghost predicate BranchFrame(f: Format, t: Frame) {
    t.page.Branch? && WellFormed(f, t.page) && t.index < |t.page.children|
  }

  ghost predicate Branches(f: Format, stack: seq<Frame>) {
    forall i :: 0 <= i < |stack| ==> BranchFrame(f, stack[i])
  }

  /** A leaf on top of branches. */
  ghost predicate ValidStack(f: Format, stack: seq<Frame>) {
    stack != [] ==>
      var n := |stack| - 1;
      Branches(f, stack[..n]) && stack[n].page.Leaf? && WellFormed(f, stack[n].page) && stack[n].index <= |stack[n].page.entries|
  }

  lemma {:induction false} RestPush(stack: seq<Frame>, t: Frame)
    ensures Rest(stack + [t]) == Pending(t) + Rest(stack)
  {
    assert (stack + [t])[..|stack|] == stack;
  }

  lemma {:induction false} FirstChild(f: Format, p: Page)
    requires p.Branch? && WellFormed(f, p)
    ensures BranchFrame(f, Frame(p, 0)) && WellFormed(f, p.children[0].page)
    ensures Entries(p) == Entries(p.children[0].page) + Pending(Frame(p, 0))
  {
  }

  lemma {:induction false} LeafPending(f: Format, p: Page)
    requires p.Leaf? && WellFormed(f, p)
    ensures Pending(Frame(p, 0)) == Entries(p)
  {
  }

  lemma {:induction false} Assoc(a: seq<Entry>, b: seq<Entry>, c: seq<Entry>)
    ensures (a + b) + c == a + (b + c)
  {
  }

  lemma {:induction false} BranchesPush(f: Format, stack: seq<Frame>, t: Frame)
    requires Branches(f, stack) && BranchFrame(f, t)
    ensures Branches(f, stack + [t])
  {
  }

  lemma {:induction false} ValidPush(f: Format, stack: seq<Frame>, t: Frame)
    requires Branches(f, stack) && t.page.Leaf? && WellFormed(f, t.page) && t.index <= |t.page.entries|
    ensures ValidStack(f, stack + [t])
  {
    assert (stack + [t])[..|stack|] == stack;
  }

  /** descend: pushes the leftmost path below a page. */
  method PushLeftmost(f: Format, stack: seq<Frame>, page: Page) returns (out: seq<Frame>)
    requires WellFormed(f, page) && Branches(f, stack)
    ensures ValidStack(f, out) && out != [] && out[|out| - 1].index == 0
    ensures Rest(out) == Entries(page) + Rest(stack)
  {
    hide Rest, Pending, Entries, WellFormed, BranchFrame, Branches, ValidStack;
    out := stack;
    var p := page;
    while p.Branch?
      invariant WellFormed(f, p) && Branches(f, out) && Entries(p) + Rest(out) == Entries(page) + Rest(stack)
      decreases p
    {
      var t := Frame(p, 0);
      FirstChild(f, p);
      RestPush(out, t);
      BranchesPush(f, out, t);
      var c := p.children[0];
      assert c.page < c;
      Assoc(Entries(c.page), Pending(t), Rest(out));
      out := out + [t];
      p := c.page;
    }
    var t := Frame(p, 0);
    LeafPending(f, p);
    RestPush(out, t);
    ValidPush(f, out, t);
    out := out + [t];
  }

  lemma {:induction false} NextChildPending(f: Format, p: Page, index: nat)
    requires WellFormed(f, p) && p.Branch? && index + 1 < |p.children|
    ensures Pending(Frame(p, index)) == Entries(p.children[index + 1].page) + Pending(Frame(p, index + 1))
    ensures WellFormed(f, p.children[index + 1].page) && BranchFrame(f, Frame(p, index + 1))
  {
    assert p.children[index + 1..][1..] == p.children[index + 2..];
  }

  lemma {:induction false} TopBranch(f: Format, stack: seq<Frame>)
    requires Branches(f, stack) && stack != []
    ensures var n := |stack| - 1;
            && stack == stack[..n] + [stack[n]] && Branches(f, stack[..n])
            && BranchFrame(f, stack[n]) && WellFormed(f, stack[n].page) && stack[n].page.Branch?
            && (stack[n].index + 1 >= |stack[n].page.children| ==> Pending(stack[n]) == [])
  {
    var t := stack[|stack| - 1];
    assert BranchFrame(f, t);
    if t.index + 1 >= |t.page.children| { assert t.page.children[t.index + 1..] == []; }
  }

  /** Moves on after a leaf was used up: the next child of the nearest branch that has one. */
  method Advance(f: Format, stack: seq<Frame>) returns (out: seq<Frame>)
    requires Branches(f, stack)
    ensures ValidStack(f, out) && Rest(out) == Rest(stack)
    ensures out != [] ==> out[|out| - 1].index == 0
  {
    hide Rest, Pending, Entries, WellFormed, BranchFrame, Branches;
    out := stack;
    while out != []
      invariant Branches(f, out) && Rest(out) == Rest(stack)
      decreases |out|
    {
      var n := |out| - 1;
      var branch := out[n];
      TopBranch(f, out);
      RestPush(out[..n], branch);
      if branch.index + 1 < |branch.page.children| {
        NextChildPending(f, branch.page, branch.index);
        var moved := Frame(branch.page, branch.index + 1);
        RestPush(out[..n], moved);
        BranchesPush(f, out[..n], moved);
        var child := branch.page.children[branch.index + 1];
        Assoc(Entries(child.page), Pending(moved), Rest(out[..n]));
        out := PushLeftmost(f, out[..n] + [moved], child.page);
        return;
      }
      assert [] + Rest(out[..n]) == Rest(out[..n]);
      out := out[..n];
    }
  }

  // ------------------------------------------------------- starting after a key

  lemma {:induction false} SelectedAll(es: seq<Entry>, after: Key)
    requires forall i :: 0 <= i < |es| ==> after < es[i].key
    ensures Selected(es, AnyKey, after) == es
  {
    if es != [] {
      SelectedAll(es[1..], after);
      assert [es[0]] + es[1..] == es;
    }
  }

  lemma {:induction false} SelectedFrom(es: seq<Entry>, n: nat, after: Key)
    requires n <= |es| && (forall i :: 0 <= i < n ==> es[i].key <= after) && (forall i :: n <= i < |es| ==> after < es[i].key)
    ensures Selected(es, AnyKey, after) == es[n..]
  {
    SelectedConcat(es[..n], es[n..], AnyKey, after);
    assert es[..n] + es[n..] == es;
    SelectedNone(es[..n], AnyKey, after);
    SelectedAll(es[n..], after);
  }

  lemma {:induction false} RowAbove(f: Format, level: nat, cs: seq<Child>, after: Key)
    requires Row(f, level, cs) && (cs != [] ==> after < cs[0].first)
    ensures Selected(Concat(cs), AnyKey, after) == Concat(cs)
  {
    if cs != [] {
      RowEntries(f, cs);
      var es := Concat(cs);
      forall i | 0 <= i < |es| ensures after < es[i].key { assert es[0].key <= es[i].key; }
      SelectedAll(es, after);
    }
  }

  lemma {:induction false} RowBelow(f: Format, level: nat, cs: seq<Child>, after: Key)
    requires Row(f, level, cs) && (cs != [] ==> cs[|cs| - 1].last <= after)
    ensures Selected(Concat(cs), AnyKey, after) == []
  {
    if cs != [] {
      RowEntries(f, cs);
      var es := Concat(cs);
      forall i | 0 <= i < |es| ensures es[i].key <= after { assert es[i].key <= es[|es| - 1].key; }
      SelectedNone(es, AnyKey, after);
    }
  }

  lemma {:induction false} RowOf(f: Format, p: Page)
    requires WellFormed(f, p) && p.Branch?
    ensures Row(f, p.height - 1, p.children) && Entries(p) == Concat(p.children)
  {
  }

  lemma {:induction false} NothingSelected(after: Key)
    ensures Selected(Concat([]), AnyKey, after) == []
  {
  }

  lemma {:induction false} AboveNext(f: Format, level: nat, cs: seq<Child>, n: nat, after: Key)
    requires Row(f, level, cs) && n < |cs| && after < cs[n].last
    ensures n + 1 < |cs| ==> after < cs[n + 1..][0].first
  {
  }

  /** Below the first child that ends above the bound nothing is left; beyond it everything is. */
  lemma {:induction false} SelectedAtChild(f: Format, p: Page, n: nat, after: Key)
    requires WellFormed(f, p) && p.Branch? && n <= |p.children|
    requires forall i :: 0 <= i < n ==> p.children[i].last <= after
    requires n < |p.children| ==> after < p.children[n].last
    ensures Selected(Entries(p), AnyKey, after) ==
            if n == |p.children| then [] else Selected(Entries(p.children[n].page), AnyKey, after) + Pending(Frame(p, n))
  {
    hide Selected, Concat, Disjoint, Describes;
    var cs, level := p.children, p.height - 1;
    RowOf(f, p);
    assert cs[..n] + cs[n..] == cs;
    RowParts(f, level, cs[..n], cs[n..]);
    RowBelow(f, level, cs[..n], after);
    ConcatAppend(cs[..n], cs[n..]);
    SelectedConcat(Concat(cs[..n]), Concat(cs[n..]), AnyKey, after);
    if n == |cs| {
      assert cs[n..] == [];
      NothingSelected(after);
    } else {
      SelectedChild(cs, n, AnyKey, after);
      RowSuffix(f, level, cs, n + 1);
      AboveNext(f, level, cs, n, after);
      RowAbove(f, level, cs[n + 1..], after);
    }
  }

  method SearchLast(cs: seq<Child>, after: Key) returns (i: nat)
    requires Disjoint(cs) && forall j :: 0 <= j < |cs| ==> cs[j].first <= cs[j].last
    ensures i <= |cs| && (forall j :: 0 <= j < i ==> cs[j].last <= after) && (forall j :: i <= j < |cs| ==> after < cs[j].last)
  {
    var lo, hi := 0, |cs|;
    while lo < hi
      invariant 0 <= lo <= hi <= |cs|
      invariant forall j :: 0 <= j < lo ==> cs[j].last <= after
      invariant forall j :: hi <= j < |cs| ==> after < cs[j].last
    {
      var mid := lo + (hi - lo) / 2;
      if cs[mid].last > after { hi := mid; } else { lo := mid + 1; }
    }
    i := lo;
  }

  method SearchAfter(es: seq<Entry>, after: Key) returns (i: nat)
    requires Sorted(es)
    ensures i <= |es| && (forall j :: 0 <= j < i ==> es[j].key <= after) && (forall j :: i <= j < |es| ==> after < es[j].key)
  {
    var lo, hi := 0, |es|;
    while lo < hi
      invariant 0 <= lo <= hi <= |es|
      invariant forall j :: 0 <= j < lo ==> es[j].key <= after
      invariant forall j :: hi <= j < |es| ==> after < es[j].key
    {
      var mid := lo + (hi - lo) / 2;
      if es[mid].key > after { hi := mid; } else { lo := mid + 1; }
    }
    i := lo;
  }

  /** newConsistencyDomainTreeIteratorAfter: the path to the first key above the bound. */
  method SeekAfter(f: Format, page: Page, after: Key) returns (stack: seq<Frame>)
    requires WellFormed(f, page)
    ensures ValidStack(f, stack) && Rest(stack) == Selected(Entries(page), AnyKey, after)
  {
    hide Rest, Pending, Selected, Entries, WellFormed, BranchFrame, Branches, ValidStack, Describes;
    stack := [];
    var p := page;
    ghost var all, here := Selected(Entries(page), AnyKey, after), Child(page, 0, 0, 0, 0, 0, None);
    NoFrames(f);
    while p.Branch?
      invariant WellFormed(f, p) && Branches(f, stack) && Selected(Entries(p), AnyKey, after) + Rest(stack) == all
      invariant stack != [] ==> here.page == p && Describes(here) && after < here.last
      decreases p
    {
      ChildBounds(f, p);
      var n := SearchLast(p.children, after);
      SelectedAtChild(f, p, n, after);
      if n == |p.children| {
        if stack != [] { SomeChildAbove(f, here, after); }
        return;
      }
      var t, c := Frame(p, n), p.children[n];
      RestPush(stack, t);
      BranchesPush(f, stack, t);
      Assoc(Selected(Entries(c.page), AnyKey, after), Pending(t), Rest(stack));
      assert c.page < c;
      here := c;
      stack := stack + [t];
      p := c.page;
    }
    SeekLeaf(f, p);
    var n := SearchAfter(p.entries, after);
    SelectedFrom(p.entries, n, after);
    var t := Frame(p, n);
    RestPush(stack, t);
    ValidPush(f, stack, t);
    stack := stack + [t];
  }

  lemma {:induction false} NoFrames(f: Format)
    ensures Rest([]) == [] && Branches(f, []) && ValidStack(f, [])
  {
  }

  lemma {:induction false} SeekLeaf(f: Format, p: Page)
    requires WellFormed(f, p) && p.Leaf?
    ensures Sorted(p.entries) && Entries(p) == p.entries
    ensures forall n: nat :: n <= |p.entries| ==> Pending(Frame(p, n)) == p.entries[n..]
  {
  }

  lemma {:induction false} ChildBounds(f: Format, p: Page)
    requires WellFormed(f, p) && p.Branch?
    ensures p.children != [] && Disjoint(p.children)
    ensures forall j :: 0 <= j < |p.children| ==>
      p.children[j].first <= p.children[j].last && WellFormed(f, p.children[j].page) &&
      Describes(p.children[j]) && BranchFrame(f, Frame(p, j))
  {
    forall j | 0 <= j < |p.children| ensures p.children[j].first <= p.children[j].last { ChildEntries(f, p.children[j]); }
  }

  lemma {:induction false} SomeChildAbove(f: Format, c: Child, after: Key)
    requires Describes(c) && WellFormed(f, c.page) && c.page.Branch? && after < c.last
    ensures exists j :: 0 <= j < |c.page.children| && after < c.page.children[j].last
  {
    assert after < c.page.children[|c.page.children| - 1].last;
  }

  // ------------------------------------------------------------ the iterator

  class TreeIterator {
    const f: Format
    var stack: seq<Frame>

    ghost predicate Valid()
      reads this
    {
      ValidStack(f, stack)
    }

    ghost function Remaining(): seq<Entry>
      reads this
    {
      Rest(stack)
    }

    constructor (f: Format, root: Root)
      requires ValidRoot(f, root)
      ensures Valid() && Remaining() == Contents(root) && this.f == f
    {
      this.f := f;
      stack := [];
      new;
      if root.Root? {
        stack := PushLeftmost(f, [], root.page);
        assert Entries(root.page) + [] == Entries(root.page);
      }
    }

    constructor After(f: Format, root: Root, after: Key)
      requires ValidRoot(f, root)
      ensures Valid() && Remaining() == Selected(Contents(root), AnyKey, after) && this.f == f
    {
      this.f := f;
      stack := [];
      new;
      if root.Root? { stack := SeekAfter(f, root.page, after); }
    }

    /** Next: delivers the first remaining entry, and reports the end exactly when none remains. */
    method Next() returns (e: Option<Entry>)
      requires Valid()
      modifies this
      ensures Valid()
      ensures e == if old(Remaining()) == [] then None else Some(old(Remaining())[0])
      ensures Remaining() == if old(Remaining()) == [] then [] else old(Remaining())[1..]
    {
      hide Rest, Pending, WellFormed, Branches, ValidStack;
      while stack != []
        invariant Valid() && Remaining() == old(Remaining())
        decreases if stack == [] then 0 else if stack[|stack| - 1].index == 0 then 1 else 2
      {
        var n := |stack| - 1;
        var leaf, below := stack[n], stack[..n];
        TopLeaf(f, stack);
        RestPush(below, leaf);
        if leaf.index < |leaf.page.entries| {
          var moved := Frame(leaf.page, leaf.index + 1);
          RestPush(below, moved);
          ValidPush(f, below, moved);
          e := Some(leaf.page.entries[leaf.index]);
          TakeFirst(e.value, Pending(moved), Rest(below));
          stack := below + [moved];
          return;
        }
        assert [] + Rest(below) == Rest(below);
        stack := Advance(f, below);
      }
      NoFrames(f);
      e := None;
    }
  }

  lemma {:induction false} TakeFirst(e: Entry, a: seq<Entry>, b: seq<Entry>)
    ensures (([e] + a) + b)[0] == e && (([e] + a) + b)[1..] == a + b
  {
  }

  lemma {:induction false} TopLeaf(f: Format, stack: seq<Frame>)
    requires ValidStack(f, stack) && stack != []
    ensures var n := |stack| - 1;
            var leaf := stack[n];
            && stack == stack[..n] + [leaf] && Branches(f, stack[..n]) && leaf.page.Leaf? && WellFormed(f, leaf.page)
            && leaf.page.entries != [] && leaf.index <= |leaf.page.entries|
            && Pending(leaf) == if leaf.index < |leaf.page.entries| then
                                  [leaf.page.entries[leaf.index]] + Pending(Frame(leaf.page, leaf.index + 1))
                                else []
  {
  }

  /** Draining an iterator started after a bound yields exactly the entries above it, in order. */
  method Drain(f: Format, root: Root, after: Key) returns (out: seq<Entry>)
    requires ValidRoot(f, root)
    ensures out == Selected(Contents(root), AnyKey, after)
  {
    hide Selected, Rest, ValidStack, Contents;
    var cursor' := new TreeIterator.After(f, root, after);
    out := [];
    ghost var all := Selected(Contents(root), AnyKey, after);
    while true
      invariant fresh(cursor') && cursor'.Valid() && out + cursor'.Remaining() == all
      decreases |cursor'.Remaining()|
    {
      ghost var before := cursor'.Remaining();
      var e := cursor'.Next();
      if e.None? { return; }
      assert out + before == (out + [e.value]) + cursor'.Remaining();
      out := out + [e.value];
    }
  }
}
