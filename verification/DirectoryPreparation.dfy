/**
  * Preparing directories: the selected paths form a trie that is walked beside the
  * namespace. A missing directory is created when it is selected; a file, or a
  * missing directory that is not selected, blocks everything below it.
  */
module DirectoryPreparation {
  import opened Basics

  type Name = nat

  type Path = seq<Name>

  const MAX_ITEMS := 100

  datatype Identity = Existing(id: nat) | Created(path: Path)

  datatype Entry = File(identity: Identity) | Directory(identity: Identity, children: map<Name, Entry>)

  /** What a path names. */
  datatype Found = Missing | AFile(identity: Identity) | ADirectory(identity: Identity)

  function View(e: Entry, q: Path): Found
    decreases |q|
  {
    if q == [] then (if e.File? then AFile(e.identity) else ADirectory(e.identity))
    else if e.Directory? && q[0] in e.children then View(e.children[q[0]], q[1..])
    else Missing
  }

  /** The answer for one path: two fields, written by different branches of the walk. */
  datatype Outcome = Outcome(ready: bool, code: Option<ErrorKind>)

  const PENDING := Outcome(false, None)

  // ---------------------------------------------------------- specification

  /** Every proper part of the path is a directory, or is missing and selected. */
  ghost predicate Admitted(e: Entry, base: Path, selected: seq<Path>, q: Path) {
    forall k :: 0 < k <= |q| ==>
      View(e, q[..k]).ADirectory? || (View(e, q[..k]).Missing? && base + q[..k] in selected)
  }

  ghost predicate Crosses(e: Entry, q: Path) {
    exists k :: 0 < k <= |q| && View(e, q[..k]).AFile?
  }

  ghost function Verdict(e: Entry, base: Path, selected: seq<Path>, q: Path): Outcome {
    if Admitted(e, base, selected, q) then Outcome(true, None)
    else Outcome(false, Some(if Crosses(e, q) then Conflict else NotFound))
  }

  /** An outcome after a verdict was written over it: neither field is ever cleared. */
  function Marked(o: Outcome, verdict: Outcome): Outcome {
    Outcome(o.ready || verdict.ready, if verdict.code.Some? then verdict.code else o.code)
  }

  /** What the path names afterwards: what it named before, or a new directory where it was missing and admitted. */
  ghost function Prepared(e: Entry, base: Path, selected: seq<Path>, q: Path): Found {
    if View(e, q).Missing? && Admitted(e, base, selected, q) then ADirectory(Created(base + q)) else View(e, q)
  }

  ghost predicate IsPrepared(e: Entry, e': Entry, base: Path, selected: seq<Path>) {
    forall q :: View(e', q) == Prepared(e, base, selected, q)
  }

  // ------------------------------------------------------------------ trie

  datatype Node = Node(path: Path, index: Option<nat>, children: map<Name, Node>)

  function IndexAt(node: Node, q: Path): Option<nat>
    decreases |q|
  {
    if q == [] then node.index else if q[0] in node.children then IndexAt(node.children[q[0]], q[1..]) else None
  }

  ghost predicate Placed(node: Node)
    decreases node
  {
    forall n :: n in node.children ==> node.children[n].path == node.path + [n] && Placed(node.children[n])
  }

  /** The trie holds exactly the positions of the selected paths at and below its own path. */
  ghost predicate Holds(node: Node, paths: seq<Path>) {
    forall q: Path, i: nat :: IndexAt(node, q) == Some(i) <==> i < |paths| && paths[i] == node.path + q
  }

  function Insert(node: Node, q: Path, index: nat): Node
    decreases |q|
  {
    if q == [] then node.(index := Some(index))
    else
      var child := if q[0] in node.children then node.children[q[0]] else Node(node.path + [q[0]], None, map[]);
      node.(children := node.children[q[0] := Insert(child, q[1..], index)])
  }

  lemma {:induction false} InsertIs(node: Node, q: Path, index: nat, p: Path)
    ensures IndexAt(Insert(node, q, index), p) == if p == q then Some(index) else IndexAt(node, p)
    decreases |q|
  {
    if q != [] && p != [] && p[0] == q[0] {
      var child := if q[0] in node.children then node.children[q[0]] else Node(node.path + [q[0]], None, map[]);
      InsertIs(child, q[1..], index, p[1..]);
      assert p == q <==> p[1..] == q[1..] by { assert p == [p[0]] + p[1..] && q == [q[0]] + q[1..]; }
      assert IndexAt(child, p[1..]) == IndexAt(node, p);
    }
  }

  lemma {:induction false} InsertPlaced(node: Node, q: Path, index: nat)
    requires Placed(node)
    ensures Placed(Insert(node, q, index)) && Insert(node, q, index).path == node.path
    decreases |q|
  {
    if q != [] {
      var child := if q[0] in node.children then node.children[q[0]] else Node(node.path + [q[0]], None, map[]);
      InsertPlaced(child, q[1..], index);
    }
  }

  predicate DistinctPaths(paths: seq<Path>) {
    forall i, j :: 0 <= i < j < |paths| ==> paths[i] != paths[j]
  }

  method BuildTrie(paths: seq<Path>) returns (root: Node)
    requires DistinctPaths(paths)
    ensures root.path == [] && Placed(root) && Holds(root, paths)
  {
    root := Node([], None, map[]);
    for n := 0 to |paths|
      invariant root.path == [] && Placed(root) && Holds(root, paths[..n])
    {
      forall p: Path, i: nat
        ensures IndexAt(Insert(root, paths[n], n), p) == Some(i) <==> i < n + 1 && paths[i] == p
      {
        InsertIs(root, paths[n], n, p);
        assert IndexAt(root, p) == Some(i) <==> i < n && paths[..n][i] == root.path + p;
      }
      InsertPlaced(root, paths[n], n);
      root := Insert(root, paths[n], n);
    }
    assert paths[..|paths|] == paths;
  }

  /** The subtrie of a child holds the selected paths below that child. */
  lemma {:induction false} ChildHolds(node: Node, paths: seq<Path>, n: Name)
    requires Placed(node) && Holds(node, paths) && n in node.children
    ensures Holds(node.children[n], paths)
    ensures node.children[n].index.Some? <==> node.path + [n] in paths
  {
    var child := node.children[n];
    forall q: Path, i: nat ensures IndexAt(child, q) == Some(i) <==> i < |paths| && paths[i] == child.path + q {
      assert IndexAt(node, [n] + q) == IndexAt(child, q);
      assert node.path + ([n] + q) == child.path + q;
    }
    assert IndexAt(child, []) == child.index && child.path + [] == child.path;
  }

  // ------------------------------------------------- one step down the trie

  lemma {:induction false} ViewStep(e: Entry, q: Path)
    requires q != []
    ensures View(e, q) == if e.Directory? && q[0] in e.children then View(e.children[q[0]], q[1..]) else Missing
  {
  }

  /** Below a directory that exists, or one about to be created, the rest of the path is judged from there. */
  lemma {:induction false} JudgeBelow(e: Entry, base: Path, selected: seq<Path>, n: Name, child: Entry, r: Path)
    requires e.Directory? && child.Directory?
    requires if n in e.children then child == e.children[n]
             else child.children == map[] && base + [n] in selected
    ensures Admitted(e, base, selected, [n] + r) == Admitted(child, base + [n], selected, r)
    ensures Crosses(e, [n] + r) == Crosses(child, r)
  {
    var q := [n] + r;
    forall k: nat | k <= |r|
      ensures View(e, q[..k + 1]) == (if n in e.children || k != 0 then View(child, r[..k]) else Missing)
      ensures base + q[..k + 1] == base + [n] + r[..k]
    {
      assert q[..k + 1] == [n] + r[..k];
      ViewStep(e, q[..k + 1]);
      assert q[..k + 1][1..] == r[..k];
    }
    if Admitted(e, base, selected, q) {
      forall k | 0 < k <= |r|
        ensures View(child, r[..k]).ADirectory? || (View(child, r[..k]).Missing? && base + [n] + r[..k] in selected)
      {
        assert View(e, q[..k + 1]) == View(child, r[..k]);
      }
    }
    if Admitted(child, base + [n], selected, r) {
      forall j | 0 < j <= |q| ensures View(e, q[..j]).ADirectory? || (View(e, q[..j]).Missing? && base + q[..j] in selected) {
        var k: nat := j - 1;
        assert base + q[..k + 1] == base + [n] + r[..k];
        assert k == 0 ==> r[..k] == [];
      }
    }
    CrossesBelow(e, n, child, r);
  }

  lemma {:induction false} CrossesBelow(e: Entry, n: Name, child: Entry, r: Path)
    requires e.Directory? && child.Directory?
    requires if n in e.children then child == e.children[n] else child.children == map[]
    ensures Crosses(e, [n] + r) == Crosses(child, r)
  {
    var q := [n] + r;
    forall k: nat | k <= |r|
      ensures View(e, q[..k + 1]).AFile? <==> View(child, r[..k]).AFile?
    {
      assert q[..k + 1] == [n] + r[..k];
      ViewStep(e, q[..k + 1]);
      assert q[..k + 1][1..] == r[..k];
    }
    if Crosses(e, q) {
      var j :| 0 < j <= |q| && View(e, q[..j]).AFile?;
      var k: nat := j - 1;
      assert q[..k + 1] == q[..j];
      assert View(child, r[..k]).AFile?;
    }
    if Crosses(child, r) {
      var k :| 0 < k <= |r| && View(child, r[..k]).AFile?;
      assert View(e, q[..k + 1]).AFile?;
    }
  }

  /** At and below a file every path conflicts; below a missing directory that is not selected none is found. */
  lemma {:induction false} JudgeBlocked(e: Entry, base: Path, selected: seq<Path>, n: Name, r: Path)
    requires e.Directory?
    requires if n in e.children then e.children[n].File? else base + [n] !in selected
    ensures !Admitted(e, base, selected, [n] + r)
    ensures Verdict(e, base, selected, [n] + r) == Outcome(false, Some(if n in e.children then Conflict else NotFound))
  {
    var q := [n] + r;
    assert q[..1] == [n];
    ViewStep(e, [n]);
    assert View(e, q[..1]) == if n in e.children then AFile(e.children[n].identity) else Missing;
    if n !in e.children {
      forall k | 0 < k <= |q| ensures !View(e, q[..k]).AFile? {
        ViewStep(e, q[..k]);
      }
    }
  }

  // ------------------------------------------------------------------- walk

  /** Every selected path at or below `at` is marked with its verdict, and no other position has changed. */
  ghost predicate Recorded(was: seq<Outcome>, now: seq<Outcome>, paths: seq<Path>, at: Path, strict: bool, e: Entry, base: Path)
    requires |was| == |now| == |paths| && base <= at
  {
    forall i :: 0 <= i < |paths| ==>
      now[i] == if at <= paths[i] && (strict ==> at != paths[i]) then Marked(was[i], Verdict(e, base, paths, paths[i][|base|..])) else was[i]
  }

  method Block(node: Node, code: ErrorKind, result: array<Outcome>, ghost paths: seq<Path>)
    requires Placed(node) && Holds(node, paths) && result.Length == |paths|
    modifies result
    ensures forall i :: 0 <= i < |paths| ==> result[i] == if node.path <= paths[i] then old(result[i]).(code := Some(code)) else old(result[i])
    decreases node
  {
    ghost var was := result[..];
    assert node.index.Some? ==> IndexAt(node, []) == node.index && node.path + [] == node.path;
    if node.index.Some? {
      result[node.index.value] := result[node.index.value].(code := Some(code));
    }
    ghost var done: set<Name> := {};
    var rest := node.children.Keys;
    while rest != {}
      invariant rest <= node.children.Keys && done == node.children.Keys - rest
      invariant forall i :: 0 <= i < |paths| ==>
        result[i] == if Visited(node, done, paths[i]) || node.path == paths[i] then was[i].(code := Some(code)) else was[i]
    {
      var n :| n in rest;
      ChildHolds(node, paths, n);
      Block(node.children[n], code, result, paths);
      rest := rest - {n};
      done := done + {n};
    }
    forall i | 0 <= i < |paths| && node.path <= paths[i] && node.path != paths[i] ensures Visited(node, done, paths[i]) {
      AllVisited(node, paths, i);
    }
  }

  /** The path lies at or below one of the children already visited. */
  ghost predicate Visited(node: Node, done: set<Name>, p: Path) {
    exists n :: n in done && node.path + [n] <= p
  }

  lemma {:induction false} AllVisited(node: Node, paths: seq<Path>, i: nat)
    requires Holds(node, paths) && i < |paths| && node.path < paths[i]
    ensures Visited(node, node.children.Keys, paths[i])
  {
    var q := paths[i][|node.path|..];
    assert paths[i] == node.path + q;
    assert IndexAt(node, q) == Some(i);
    assert node.path + [q[0]] <= paths[i];
  }

  /** Somewhere at or below the child a directory is created. */
  ghost predicate CreatesAt(e: Entry, base: Path, selected: seq<Path>, q: Path) {
    View(e, q).Missing? && Admitted(e, base, selected, q)
  }

  /** What processing one child of the trie leaves: its edit, if any, is the prepared subtree. */
  ghost predicate ChildDone(parent: Entry, base: Path, paths: seq<Path>, n: Name, edit: Option<Entry>) {
    && (edit.None? ==> forall r :: !CreatesAt(parent, base, paths, [n] + r))
    && (edit.Some? ==>
          && (forall r :: View(edit.value, r) == Prepared(parent, base, paths, [n] + r))
          && exists r :: CreatesAt(parent, base, paths, [n] + r))
  }

  /** The walk below a directory settles the child that holds it. */
  lemma {:induction false} WalkedIsDone(parent: Entry, base: Path, paths: seq<Path>, n: Name, child: Entry, updated: Entry)
    requires parent.Directory? && child.Directory? && IsPrepared(child, updated, base + [n], paths)
    requires if n in parent.children then child == parent.children[n]
             else child.children == map[] && base + [n] in paths && child.identity == Created(base + [n])
    ensures forall r :: View(updated, r) == Prepared(parent, base, paths, [n] + r)
    ensures forall r :: CreatesAt(parent, base, paths, [n] + r)
                   <==> CreatesAt(child, base + [n], paths, r) || (n !in parent.children && r == [])
  {
    forall r: Path
      ensures View(updated, r) == Prepared(parent, base, paths, [n] + r)
      ensures CreatesAt(parent, base, paths, [n] + r)
              <==> CreatesAt(child, base + [n], paths, r) || (n !in parent.children && r == [])
    {
      JudgeBelow(parent, base, paths, n, child, r);
      ViewStep(parent, [n] + r);
      assert ([n] + r)[1..] == r;
      assert base + [n] + r == base + ([n] + r);
      assert View(updated, r) == Prepared(child, base + [n], paths, r);
    }
  }

  /** The positions below a child are judged from the directory above it. */
  lemma {:induction false} VerdictBelow(parent: Entry, base: Path, paths: seq<Path>, n: Name, child: Entry, p: Path)
    requires parent.Directory? && child.Directory? && base + [n] <= p
    requires if n in parent.children then child == parent.children[n]
             else child.children == map[] && base + [n] in paths
    ensures Verdict(parent, base, paths, p[|base|..]) == Verdict(child, base + [n], paths, p[|base| + 1..])
    ensures p == base + [n] ==> Verdict(parent, base, paths, p[|base|..]) == Outcome(true, None)
  {
    var r := p[|base| + 1..];
    assert p[|base|..] == [n] + r;
    JudgeBelow(parent, base, paths, n, child, r);
  }

  lemma {:induction false} BlockedIsDone(parent: Entry, base: Path, paths: seq<Path>, n: Name, now: seq<Outcome>, was: seq<Outcome>, code: ErrorKind)
    requires parent.Directory? && |now| == |was| == |paths|
    requires if n in parent.children then parent.children[n].File? && code == Conflict
             else base + [n] !in paths && code == NotFound
    requires forall i :: 0 <= i < |paths| ==> now[i] == if base + [n] <= paths[i] then was[i].(code := Some(code)) else was[i]
    ensures Recorded(was, now, paths, base + [n], false, parent, base)
    ensures ChildDone(parent, base, paths, n, None)
  {
    forall i | 0 <= i < |paths| && base + [n] <= paths[i]
      ensures now[i] == Marked(was[i], Verdict(parent, base, paths, paths[i][|base|..]))
    {
      assert paths[i][|base|..] == [n] + paths[i][|base| + 1..];
      JudgeBlocked(parent, base, paths, n, paths[i][|base| + 1..]);
    }
    forall r: Path ensures !CreatesAt(parent, base, paths, [n] + r) {
      JudgeBlocked(parent, base, paths, n, r);
    }
  }

  lemma {:induction false} WalkedIsRecorded(parent: Entry, base: Path, paths: seq<Path>, n: Name, child: Entry,
                                            was: seq<Outcome>, mid: seq<Outcome>, now: seq<Outcome>)
    requires parent.Directory? && child.Directory? && |now| == |was| == |mid| == |paths|
    requires if n in parent.children then child == parent.children[n]
             else child.children == map[] && base + [n] in paths
    requires Recorded(was, mid, paths, base + [n], true, child, base + [n])
    requires forall i :: 0 <= i < |paths| ==> now[i] == if base + [n] == paths[i] then mid[i].(ready := true) else mid[i]
    ensures Recorded(was, now, paths, base + [n], false, parent, base)
  {
    forall i | 0 <= i < |paths| && base + [n] <= paths[i]
      ensures now[i] == Marked(was[i], Verdict(parent, base, paths, paths[i][|base|..]))
    {
      VerdictBelow(parent, base, paths, n, child, paths[i]);
    }
  }

  method Process(parent: Entry, node: Node, n: Name, result: array<Outcome>, ghost paths: seq<Path>) returns (edit: Option<Entry>)
    requires parent.Directory? && Placed(node) && Holds(node, paths) && n in node.children && result.Length == |paths|
    modifies result
    ensures Recorded(old(result[..]), result[..], paths, node.path + [n], false, parent, node.path)
    ensures ChildDone(parent, node.path, paths, n, edit)
    decreases node, 0
  {
    hide Admitted, Crosses, Verdict, Prepared, IsPrepared, CreatesAt;
    var child := node.children[n];
    ChildHolds(node, paths, n);
    ghost var was := result[..];
    if n in parent.children && parent.children[n].File? {
      Block(child, Conflict, result, paths);
      BlockedIsDone(parent, node.path, paths, n, result[..], was, Conflict);
      return None;
    }
    if n !in parent.children && child.index.None? {
      Block(child, NotFound, result, paths);
      BlockedIsDone(parent, node.path, paths, n, result[..], was, NotFound);
      return None;
    }
    var entry := if n in parent.children then parent.children[n] else Directory(Created(child.path), map[]);
    var updated, nested := Walk(entry, child, result, paths);
    ghost var mid := result[..];
    ReadyIsIndex(child, paths);
    if child.index.Some? {
      result[child.index.value] := result[child.index.value].(ready := true);
    }
    WalkedIsRecorded(parent, node.path, paths, n, entry, was, mid, result[..]);
    WalkedIsDone(parent, node.path, paths, n, entry, updated);
    if n !in parent.children || nested {
      edit := Some(updated);
      assert n !in parent.children ==> CreatesAt(parent, node.path, paths, [n] + []);
    } else {
      edit := None;
    }
  }

  lemma {:induction false} ReadyIsIndex(node: Node, paths: seq<Path>)
    requires Holds(node, paths)
    ensures forall i: nat :: node.index == Some(i) <==> i < |paths| && paths[i] == node.path
  {
    forall i: nat ensures node.index == Some(i) <==> i < |paths| && paths[i] == node.path {
      assert IndexAt(node, []) == node.index && node.path + [] == node.path;
    }
  }

  /** The edits made so far are exactly those of the children already processed. */
  ghost predicate EditsDone(parent: Entry, base: Path, paths: seq<Path>, done: set<Name>, edits: map<Name, Entry>) {
    && edits.Keys <= done
    && forall n :: n in done ==> ChildDone(parent, base, paths, n, Get(edits, n))
  }

  ghost predicate RecordedFor(was: seq<Outcome>, now: seq<Outcome>, paths: seq<Path>, node: Node, done: set<Name>, e: Entry)
    requires |was| == |now| == |paths|
  {
    forall i :: 0 <= i < |paths| ==>
      now[i] == if Visited(node, done, paths[i]) then Marked(was[i], Verdict(e, node.path, paths, paths[i][|node.path|..])) else was[i]
  }

  lemma {:induction false} RecordNext(was: seq<Outcome>, mid: seq<Outcome>, now: seq<Outcome>, paths: seq<Path>, node: Node, done: set<Name>, n: Name, e: Entry)
    requires |was| == |mid| == |now| == |paths| && RecordedFor(was, mid, paths, node, done, e)
    requires Recorded(mid, now, paths, node.path + [n], false, e, node.path)
    ensures RecordedFor(was, now, paths, node, done + {n}, e)
  {
    hide Verdict;
    forall i | 0 <= i < |paths|
      ensures now[i] == if Visited(node, done + {n}, paths[i]) then Marked(was[i], Verdict(e, node.path, paths, paths[i][|node.path|..])) else was[i]
    {
      assert Visited(node, done, paths[i]) ==> Visited(node, done + {n}, paths[i]);
      assert node.path + [n] <= paths[i] ==> Visited(node, done + {n}, paths[i]) by { assert n in done + {n}; }
    }
  }

  lemma {:induction false} WholeIsPrepared(parent: Entry, node: Node, paths: seq<Path>, edits: map<Name, Entry>)
    requires parent.Directory? && Holds(node, paths)
    requires EditsDone(parent, node.path, paths, node.children.Keys, edits)
    ensures IsPrepared(parent, parent.(children := parent.children + edits), node.path, paths)
    ensures edits != map[] <==> exists q :: CreatesAt(parent, node.path, paths, q)
  {
    hide Admitted;
    var updated := parent.(children := parent.children + edits);
    forall q: Path
      ensures View(updated, q) == Prepared(parent, node.path, paths, q)
      ensures CreatesAt(parent, node.path, paths, q) ==> q != [] && q[0] in edits
    {
      if q != [] {
        var n, r := q[0], q[1..];
        assert q == [n] + r;
        ViewStep(updated, q);
        ViewStep(parent, q);
        CreatedIsSelected(parent, node, paths, q);
        if n in node.children { assert ChildDone(parent, node.path, paths, n, Get(edits, n)); }
      }
    }
    if edits != map[] {
      var n :| n in edits;
      assert ChildDone(parent, node.path, paths, n, Get(edits, n));
      var r :| CreatesAt(parent, node.path, paths, [n] + r);
      assert exists q :: CreatesAt(parent, node.path, paths, q);
    }
  }

  lemma {:induction false} CreatedIsSelected(parent: Entry, node: Node, paths: seq<Path>, q: Path)
    requires Holds(node, paths) && q != []
    ensures CreatesAt(parent, node.path, paths, q) ==> q[0] in node.children && node.path + q in paths
  {
    if CreatesAt(parent, node.path, paths, q) {
      assert q[..|q|] == q;
      assert node.path + q in paths;
      var i :| 0 <= i < |paths| && paths[i] == node.path + q;
      assert IndexAt(node, q) == Some(i);
    }
  }

  method Walk(parent: Entry, node: Node, result: array<Outcome>, ghost paths: seq<Path>) returns (updated: Entry, changed: bool)
    requires parent.Directory? && Placed(node) && Holds(node, paths) && result.Length == |paths|
    modifies result
    ensures Recorded(old(result[..]), result[..], paths, node.path, true, parent, node.path)
    ensures IsPrepared(parent, updated, node.path, paths)
    ensures changed <==> exists q :: CreatesAt(parent, node.path, paths, q)
    ensures !changed ==> updated == parent
    decreases node, 1
  {
    hide Admitted, Crosses, Verdict, Prepared, IsPrepared, CreatesAt, View, ChildDone;
    ghost var was := result[..];
    var edits: map<Name, Entry> := map[];
    ghost var done: set<Name> := {};
    var rest := node.children.Keys;
    while rest != {}
      invariant rest <= node.children.Keys && done == node.children.Keys - rest
      invariant EditsDone(parent, node.path, paths, done, edits)
      invariant RecordedFor(was, result[..], paths, node, done, parent)
    {
      var n :| n in rest;
      ghost var mid := result[..];
      var edit := Process(parent, node, n, result, paths);
      RecordNext(was, mid, result[..], paths, node, done, n, parent);
      if edit.Some? { edits := edits[n := edit.value]; }
      rest := rest - {n};
      done := done + {n};
    }
    assert done == node.children.Keys;
    WholeIsPrepared(parent, node, paths, edits);
    RecordedAll(was, result[..], paths, node, parent);
    changed := edits != map[];
    updated := if changed then parent.(children := parent.children + edits) else parent;
    assert !changed ==> parent.children + edits == parent.children;
  }

  lemma {:induction false} RecordedAll(was: seq<Outcome>, now: seq<Outcome>, paths: seq<Path>, node: Node, e: Entry)
    requires |was| == |now| == |paths| && Holds(node, paths) && RecordedFor(was, now, paths, node, node.children.Keys, e)
    ensures Recorded(was, now, paths, node.path, true, e, node.path)
  {
    hide Verdict;
    forall i | 0 <= i < |paths| ensures node.path < paths[i] <==> Visited(node, node.children.Keys, paths[i]) {
      if node.path < paths[i] { AllVisited(node, paths, i); }
    }
  }

  // --------------------------------------------------------------- operation

  predicate ValidPaths(paths: seq<Path>) {
    1 <= |paths| <= MAX_ITEMS && DistinctPaths(paths) && forall i :: 0 <= i < |paths| ==> paths[i] != []
  }

  datatype Preparation = Preparation(results: seq<Outcome>, tree: Entry, changed: bool)

  /**
    * Exactly the missing selected paths whose missing ancestors are all selected and
    * that cross no file are created; nothing else changes; every position is either
    * ready or carries the code of what blocks it, and never both.
    */
  method PrepareDirectories(tree: Entry, paths: seq<Path>) returns (r: Result<Preparation, ErrorKind>)
    requires tree.Directory?
    ensures r.Ok? <==> ValidPaths(paths)
    ensures r.Ok? ==> |r.value.results| == |paths|
    ensures r.Ok? ==> forall i :: 0 <= i < |paths| ==> r.value.results[i] == Verdict(tree, [], paths, paths[i])
    ensures r.Ok? ==> forall i :: 0 <= i < |paths| ==> r.value.results[i].ready == r.value.results[i].code.None?
    ensures r.Ok? ==> IsPrepared(tree, r.value.tree, [], paths)
    ensures r.Ok? ==> (r.value.changed <==> exists q :: CreatesAt(tree, [], paths, q))
    ensures r.Ok? && !r.value.changed ==> r.value.tree == tree
  {
    if !ValidPaths(paths) { return Err(Invalid); }
    var node := BuildTrie(paths);
    var result := new Outcome[|paths|](_ => PENDING);
    var updated, changed := Walk(tree, node, result, paths);
    r := Ok(Preparation(result[..], updated, changed));
    forall i | 0 <= i < |paths| ensures result[i] == Verdict(tree, [], paths, paths[i]) {
      assert paths[i][0..] == paths[i];
    }
  }

  // ----------------------------------------------------------------- theorems

  /** Only the set of selected paths matters, not their order in the request. */
  lemma {:induction false} OrderIsIrrelevant(tree: Entry, tree1: Entry, tree2: Entry, paths1: seq<Path>, paths2: seq<Path>)
    requires forall p :: p in paths1 <==> p in paths2
    requires IsPrepared(tree, tree1, [], paths1) && IsPrepared(tree, tree2, [], paths2)
    ensures tree1 == tree2
    ensures forall p :: Verdict(tree, [], paths1, p) == Verdict(tree, [], paths2, p)
  {
    forall p: Path
      ensures Admitted(tree, [], paths1, p) == Admitted(tree, [], paths2, p)
    {
      AdmittedSubset(tree, paths1, paths2, p);
      AdmittedSubset(tree, paths2, paths1, p);
    }
    forall q: Path ensures View(tree1, q) == View(tree2, q) {
      assert View(tree1, q) == Prepared(tree, [], paths1, q);
      assert View(tree2, q) == Prepared(tree, [], paths2, q);
    }
    ViewDetermines(tree1, tree2);
  }

  lemma {:induction false} AdmittedSubset(tree: Entry, paths1: seq<Path>, paths2: seq<Path>, p: Path)
    requires forall q :: q in paths1 ==> q in paths2
    ensures Admitted(tree, [], paths1, p) ==> Admitted(tree, [], paths2, p)
  {
  }

  /** Two namespaces that agree on every path are the same. */
  lemma {:induction false} ViewDetermines(e1: Entry, e2: Entry)
    requires forall q :: View(e1, q) == View(e2, q)
    ensures e1 == e2
    decreases e1
  {
    assert View(e1, []) == View(e2, []);
    if e1.Directory? {
      forall n ensures n in e1.children <==> n in e2.children {
        assert View(e1, [n]) == View(e2, [n]);
        ViewStep(e1, [n]);
        ViewStep(e2, [n]);
      }
      forall n | n in e1.children ensures e1.children[n] == e2.children[n] {
        forall q: Path ensures View(e1.children[n], q) == View(e2.children[n], q) {
          assert View(e1, [n] + q) == View(e2, [n] + q);
          assert ([n] + q)[1..] == q;
        }
        ViewDetermines(e1.children[n], e2.children[n]);
      }
      assert e1.children == e2.children;
    }
  }

  /** Preparing the same selection again changes nothing and answers the same. */
  lemma {:induction false} PreparingAgainIsStill(tree: Entry, tree': Entry, paths: seq<Path>)
    requires IsPrepared(tree, tree', [], paths)
    ensures IsPrepared(tree', tree', [], paths)
    ensures forall p :: Verdict(tree', [], paths, p) == Verdict(tree, [], paths, p)
  {
    forall p: Path
      ensures Admitted(tree', [], paths, p) == Admitted(tree, [], paths, p)
      ensures Crosses(tree', p) == Crosses(tree, p)
    {
      forall k | 0 < k <= |p| ensures View(tree', p[..k]) == Prepared(tree, [], paths, p[..k]) {}
      AdmittedAgain(tree, tree', paths, p);
      assert forall k :: 0 < k <= |p| ==> (View(tree', p[..k]).AFile? <==> View(tree, p[..k]).AFile?);
    }
    forall q: Path ensures View(tree', q) == Prepared(tree', [], paths, q) {
      assert View(tree', q) == Prepared(tree, [], paths, q);
    }
  }

  lemma {:induction false} AdmittedAgain(tree: Entry, tree': Entry, paths: seq<Path>, p: Path)
    requires IsPrepared(tree, tree', [], paths)
    ensures Admitted(tree', [], paths, p) == Admitted(tree, [], paths, p)
  {
    forall k | 0 < k <= |p| ensures View(tree', p[..k]) == Prepared(tree, [], paths, p[..k]) {}
    if Admitted(tree, [], paths, p) {
      forall k | 0 < k <= |p| ensures View(tree', p[..k]).ADirectory? {
        AdmittedPrefix(tree, paths, p, k);
      }
    }
    if Admitted(tree', [], paths, p) {
      forall k | 0 < k <= |p| ensures View(tree, p[..k]).ADirectory? || (View(tree, p[..k]).Missing? && [] + p[..k] in paths) {
        if View(tree, p[..k]).Missing? && Admitted(tree, [], paths, p[..k]) {
          assert p[..k][..k] == p[..k];
        }
      }
    }
  }

  lemma {:induction false} AdmittedPrefix(tree: Entry, paths: seq<Path>, p: Path, k: nat)
    requires Admitted(tree, [], paths, p) && k <= |p|
    ensures Admitted(tree, [], paths, p[..k])
  {
    forall j | 0 < j <= k ensures p[..k][..j] == p[..j] {}
  }

  /** A file stays the file it was, a directory the directory it was, and what is new is selected. */
  lemma {:induction false} NothingIsReplacedOrInvented(tree: Entry, tree': Entry, paths: seq<Path>, q: Path)
    requires IsPrepared(tree, tree', [], paths)
    ensures !View(tree, q).Missing? ==> View(tree', q) == View(tree, q)
    ensures View(tree, q).Missing? && !View(tree', q).Missing? ==> q in paths && View(tree', q).ADirectory?
  {
    assert View(tree', q) == Prepared(tree, [], paths, q);
    if CreatesAt(tree, [], paths, q) && q != [] {
      assert q[..|q|] == q && [] + q == q;
    }
  }
}
