/** Ordered object metadata: the merge of two backends, and the join with the reachable keys. */
module Metadata {
  import opened Basics
  import opened VisitSet

  /** What a provider listing says of one object. The fingerprint is complete when both checksums are present. */
  datatype Info = Info(key: Key, size: nat, md5: Option<nat>, crc: Option<nat>)

  /** Metadata with the backend role it came from. */
  datatype Listed = Listed(info: Info, file: bool)

  predicate Ordered(infos: seq<Info>) {
    forall i, j :: 0 <= i < j < |infos| ==> infos[i].key < infos[j].key
  }

  predicate OrderedListing(ls: seq<Listed>) {
    forall i, j :: 0 <= i < j < |ls| ==> ls[i].info.key < ls[j].info.key
  }

  function ListedKeys(ls: seq<Listed>): seq<Key> {
    seq(|ls|, i requires 0 <= i < |ls| => ls[i].info.key)
  }

  // --------------------------------------------------------------- listings

  datatype Role = AllObjects | StateObjects | FileObjects

  /** What a pass over a backend looks for, and how keys are classified. */
  datatype Scan = Scan(
    role: Role, separate: bool, schema008: bool,
    inside: Key -> bool, transient: Key -> bool, isFile: Key -> bool, authority: Key -> bool)

  /** The object belongs to the other backend. */
  predicate Misplaced(scan: Scan, k: Key) {
    && scan.separate && !scan.transient(k)
    && (if scan.isFile(k) then scan.role.StateObjects? else scan.role.FileObjects?)
  }

  /** The object belongs to the checkpoint: file data, or state that from schema 008 on must be authoritative. */
  predicate Wanted(scan: Scan, k: Key) {
    && !scan.transient(k)
    && (if scan.isFile(k) then !scan.role.StateObjects?
        else !scan.role.FileObjects? && (scan.schema008 ==> scan.authority(k)))
  }

  function Included(scan: Scan, infos: seq<Info>): seq<Info> {
    if infos == [] then []
    else
      var n := |infos| - 1;
      Included(scan, infos[..n]) + if Wanted(scan, infos[n].key) then [infos[n]] else []
  }

  /** Strictly ordered keys under the listed prefix, each in its own backend. */
  predicate CanonicalListing(scan: Scan, infos: seq<Info>) {
    && Ordered(infos)
    && forall i :: 0 <= i < |infos| ==> infos[i].key != 0 && scan.inside(infos[i].key) && !Misplaced(scan, infos[i].key)
  }

  /** checkpointRoleIncludes. */
  method RoleIncludes(scan: Scan, k: Key, fileData: bool) returns (r: Result<bool, ErrorKind>)
    requires fileData == (scan.role.FileObjects? || (scan.role.AllObjects? && scan.isFile(k)))
    ensures r == if Misplaced(scan, k) then Err(PreconditionFailed) else Ok(Wanted(scan, k))
  {
    if scan.transient(k) { return Ok(false); }
    if scan.separate && fileData != scan.isFile(k) { return Err(PreconditionFailed); }
    if fileData { return Ok(scan.isFile(k)); }
    if scan.schema008 { return Ok(!scan.isFile(k) && scan.authority(k)); }
    r := Ok(!scan.isFile(k));
  }

  /** checkpointMetadataIterator: the objects of the checkpoint, provided that the listing is canonical. */
  method ReadListing(scan: Scan, infos: seq<Info>) returns (r: Result<seq<Info>, ErrorKind>)
    ensures r == if CanonicalListing(scan, infos) then Ok(Included(scan, infos)) else Err(PreconditionFailed)
  {
    hide CanonicalListing, Included;
    var out: seq<Info>, previous := [], 0;
    EmptyListing(scan, infos);
    for n := 0 to |infos|
      invariant out == Included(scan, infos[..n]) && CanonicalListing(scan, infos[..n])
      invariant previous == if n == 0 then 0 else infos[n - 1].key
    {
      var key := infos[n].key;
      ListingNext(scan, infos, n);
      if key == 0 || !scan.inside(key) || (previous != 0 && key <= previous) { return Err(PreconditionFailed); }
      previous := key;
      var included := !scan.transient(key);
      if scan.schema008 || !scan.role.AllObjects? {
        var fileData := scan.role.FileObjects? || (scan.role.AllObjects? && scan.isFile(key));
        var decided := RoleIncludes(scan, key, fileData);
        if decided.Err? { return Err(decided.error); }
        included := decided.value;
      }
      if included { out := out + [infos[n]]; }
    }
    assert infos[..|infos|] == infos;
    r := Ok(out);
  }

  lemma {:induction false} EmptyListing(scan: Scan, infos: seq<Info>)
    ensures CanonicalListing(scan, infos[..0]) && Included(scan, infos[..0]) == []
  {
  }

  /** One more listed object, and what a listing that goes wrong here says of the whole. */
  lemma {:induction false} ListingNext(scan: Scan, infos: seq<Info>, n: nat)
    requires n < |infos| && CanonicalListing(scan, infos[..n])
    ensures var k := infos[n].key;
            CanonicalListing(scan, infos[..n + 1]) <==>
            k != 0 && scan.inside(k) && !Misplaced(scan, k) && (0 < n ==> infos[n - 1].key < k)
    ensures CanonicalListing(scan, infos) ==> CanonicalListing(scan, infos[..n + 1])
    ensures Included(scan, infos[..n + 1]) == Included(scan, infos[..n]) + (if Wanted(scan, infos[n].key) then [infos[n]] else [])
    ensures 0 < n ==> infos[n - 1].key != 0
  {
    hide Misplaced, Wanted;
    assert infos[..n + 1][..n] == infos[..n];
    assert infos[..n + 1][n] == infos[n];
    if 0 < n {
      assert infos[..n][n - 1] == infos[n - 1] && infos[..n + 1][n - 1] == infos[n - 1];
      forall i | 0 <= i < n ensures infos[i].key <= infos[n - 1].key { assert infos[..n][i] == infos[i]; }
    }
  }

  // -------------------------------------------------------- two backend roles

  /** Every object of both backends, in key order, with its role. */
  ghost predicate Merged(state: seq<Info>, file: seq<Info>, out: seq<Listed>) {
    && OrderedListing(out)
    && forall x: Listed :: x in out <==> x.info in if x.file then file else state
  }

  ghost predicate Duplicated(state: seq<Info>, file: seq<Info>) {
    exists i, j :: 0 <= i < |state| && 0 <= j < |file| && state[i].key == file[j].key
  }

  ghost predicate MergedSoFar(state: seq<Info>, file: seq<Info>, i: nat, j: nat, out: seq<Listed>) {
    && i <= |state| && j <= |file| && Merged(state[..i], file[..j], out)
    && (forall n :: 0 <= n < |out| ==>
          (i < |state| ==> out[n].info.key < state[i].key) && (j < |file| ==> out[n].info.key < file[j].key))
    && (forall a, b :: 0 <= a < i && 0 <= b < |file| ==> state[a].key != file[b].key)
    && (forall a, b :: 0 <= a < |state| && 0 <= b < j ==> state[a].key != file[b].key)
  }

  lemma {:induction false} TakeState(state: seq<Info>, file: seq<Info>, i: nat, j: nat, out: seq<Listed>)
    requires Ordered(state) && Ordered(file) && MergedSoFar(state, file, i, j, out)
    requires i < |state| && (j == |file| || state[i].key < file[j].key)
    ensures MergedSoFar(state, file, i + 1, j, out + [Listed(state[i], false)])
  {
    assert state[..i + 1] == state[..i] + [state[i]];
  }

  lemma {:induction false} TakeFile(state: seq<Info>, file: seq<Info>, i: nat, j: nat, out: seq<Listed>)
    requires Ordered(state) && Ordered(file) && MergedSoFar(state, file, i, j, out)
    requires j < |file| && (i == |state| || file[j].key < state[i].key)
    ensures MergedSoFar(state, file, i, j + 1, out + [Listed(file[j], true)])
  {
    assert file[..j + 1] == file[..j] + [file[j]];
  }

  lemma {:induction false} MergedAll(state: seq<Info>, file: seq<Info>, out: seq<Listed>)
    ensures MergedSoFar(state, file, |state|, |file|, out) ==> Merged(state, file, out) && !Duplicated(state, file)
    ensures MergedSoFar(state, file, 0, 0, [])
  {
    assert state[..|state|] == state && file[..|file|] == file;
  }

  /** checkpointMetadataStream: rejects exactly the listings that name one key in both roles. */
  method MergeBackends(state: seq<Info>, file: seq<Info>) returns (r: Result<seq<Listed>, ErrorKind>)
    requires Ordered(state) && Ordered(file)
    ensures r.Ok? <==> !Duplicated(state, file)
    ensures r.Ok? ==> Merged(state, file, r.value)
  {
    hide MergedSoFar, Merged, Ordered;
    var out: seq<Listed>, i, j := [], 0, 0;
    MergedAll(state, file, out);
    while i < |state| || j < |file|
      invariant 0 <= i <= |state| && 0 <= j <= |file| && MergedSoFar(state, file, i, j, out)
      decreases |state| - i + |file| - j
    {
      if i < |state| && (j == |file| || state[i].key < file[j].key) {
        TakeState(state, file, i, j, out);
        out := out + [Listed(state[i], false)];
        i := i + 1;
      } else if j < |file| && (i == |state| || file[j].key < state[i].key) {
        TakeFile(state, file, i, j, out);
        out := out + [Listed(file[j], true)];
        j := j + 1;
      } else {
        assert state[i].key == file[j].key;
        return Err(PreconditionFailed);
      }
    }
    MergedAll(state, file, out);
    r := Ok(out);
  }

  // ------------------------------------------------------------- merge-join

  function Reachable(ls: seq<Listed>, keys: seq<Key>): seq<Listed> {
    if ls == [] then []
    else
      var n := |ls| - 1;
      Reachable(ls[..n], keys) + if ls[n].info.key in keys then [ls[n]] else []
  }

  /** Every reachable object is listed, and every listed object that is not reachable may be collected. */
  ghost predicate Complete(keys: seq<Key>, ls: seq<Listed>, collectable: Listed -> bool) {
    && (forall i :: 0 <= i < |keys| ==> keys[i] in ListedKeys(ls))
    && (forall j :: 0 <= j < |ls| ==> ls[j].info.key in keys || collectable(ls[j]))
  }

  lemma {:induction false} KeyAt(keys: seq<Key>, i: nat, k: Key)
    requires Ascending(keys) && i <= |keys| && (i < |keys| ==> k <= keys[i]) && (0 < i ==> keys[i - 1] < k)
    ensures k in keys <==> i < |keys| && keys[i] == k
  {
    if k in keys {
      var n :| 0 <= n < |keys| && keys[n] == k;
    }
  }

  /** The first j objects have been read, and the first i keys found among them. */
  ghost predicate JoinedSoFar(keys: seq<Key>, ls: seq<Listed>, collectable: Listed -> bool, i: nat, j: nat, out: seq<Listed>) {
    && i <= |keys| && j <= |ls| && out == Reachable(ls[..j], keys) && ListedKeys(out) == keys[..i]
    && (0 < i ==> 0 < j && keys[i - 1] <= ls[j - 1].info.key)
    && (forall n :: 0 <= n < j ==> (i < |keys| ==> ls[n].info.key < keys[i]) && (ls[n].info.key in keys || collectable(ls[n])))
    && (forall n :: 0 <= n < i ==> keys[n] in ListedKeys(ls))
  }

  /** An object below the next reachable key, or after the last, is not reachable. */
  lemma {:induction false} SkipObject(keys: seq<Key>, ls: seq<Listed>, collectable: Listed -> bool, i: nat, j: nat, out: seq<Listed>)
    requires Ascending(keys) && OrderedListing(ls) && JoinedSoFar(keys, ls, collectable, i, j, out)
    requires j < |ls| && (i < |keys| ==> ls[j].info.key < keys[i])
    ensures ls[j].info.key !in keys
    ensures collectable(ls[j]) ==> JoinedSoFar(keys, ls, collectable, i, j + 1, out)
  {
    if 0 < i { assert ls[j - 1].info.key < ls[j].info.key; }
    KeyAt(keys, i, ls[j].info.key);
    assert ls[..j + 1][..j] == ls[..j];
    if collectable(ls[j]) {
      forall n | 0 <= n < j + 1 ensures (i < |keys| ==> ls[n].info.key < keys[i]) && (ls[n].info.key in keys || collectable(ls[n])) { }
    }
  }

  lemma {:induction false} EmitObject(keys: seq<Key>, ls: seq<Listed>, collectable: Listed -> bool, i: nat, j: nat, out: seq<Listed>)
    requires Ascending(keys) && OrderedListing(ls) && JoinedSoFar(keys, ls, collectable, i, j, out)
    requires i < |keys| && j < |ls| && ls[j].info.key == keys[i]
    ensures JoinedSoFar(keys, ls, collectable, i + 1, j + 1, out + [ls[j]])
  {
    assert ls[..j + 1][..j] == ls[..j];
    assert keys[..i + 1] == keys[..i] + [keys[i]];
    assert ListedKeys(out + [ls[j]]) == ListedKeys(out) + [ls[j].info.key];
    assert ListedKeys(ls)[j] == keys[i];
    forall n | 0 <= n < j + 1
      ensures (i + 1 < |keys| ==> ls[n].info.key < keys[i + 1]) && (ls[n].info.key in keys || collectable(ls[n]))
    {
    }
  }

  lemma {:induction false} JoinStuck(keys: seq<Key>, ls: seq<Listed>, collectable: Listed -> bool, i: nat, j: nat, out: seq<Listed>)
    requires OrderedListing(ls) && JoinedSoFar(keys, ls, collectable, i, j, out)
    requires i < |keys| && (j < |ls| ==> keys[i] < ls[j].info.key)
    ensures !Complete(keys, ls, collectable)
  {
    NotListed(keys, i, ls, j);
  }

  lemma {:induction false} JoinEnds(keys: seq<Key>, ls: seq<Listed>, collectable: Listed -> bool, out: seq<Listed>)
    ensures JoinedSoFar(keys, ls, collectable, |keys|, |ls|, out) ==>
              Complete(keys, ls, collectable) && out == Reachable(ls, keys) && ListedKeys(out) == keys
    ensures JoinedSoFar(keys, ls, collectable, 0, 0, [])
  {
    assert keys[..|keys|] == keys && ls[..|ls|] == ls;
    assert ListedKeys([]) == [] && ls[..0] == [];
  }

  lemma {:induction false} NotCollectable(keys: seq<Key>, ls: seq<Listed>, collectable: Listed -> bool, j: nat)
    requires j < |ls| && ls[j].info.key !in keys && !collectable(ls[j])
    ensures !Complete(keys, ls, collectable)
  {
  }

  /**
    * The metadata stream of a checkpoint, run to the end: it succeeds exactly on
    * complete listings, and then delivers one object for each reachable key, in key
    * order, skipping only collectable garbage.
    */
  method JoinReachable(keys: seq<Key>, ls: seq<Listed>, collectable: Listed -> bool) returns (r: Result<seq<Listed>, ErrorKind>)
    requires Ascending(keys) && OrderedListing(ls)
    ensures r.Ok? <==> Complete(keys, ls, collectable)
    ensures r.Ok? ==> r.value == Reachable(ls, keys) && ListedKeys(r.value) == keys
  {
    hide JoinedSoFar, Complete, Reachable, OrderedListing, Ascending;
    var out: seq<Listed>, i, j := [], 0, 0;
    JoinEnds(keys, ls, collectable, out);
    while i < |keys| || j < |ls|
      invariant 0 <= i <= |keys| && 0 <= j <= |ls| && JoinedSoFar(keys, ls, collectable, i, j, out)
      decreases |keys| - i + |ls| - j
    {
      if i < |keys| && (j == |ls| || keys[i] < ls[j].info.key) {
        JoinStuck(keys, ls, collectable, i, j, out);
        return Err(PreconditionFailed);
      }
      if i < |keys| && ls[j].info.key == keys[i] {
        EmitObject(keys, ls, collectable, i, j, out);
        out := out + [ls[j]];
        i := i + 1;
      } else {
        SkipObject(keys, ls, collectable, i, j, out);
        if !collectable(ls[j]) {
          NotCollectable(keys, ls, collectable, j);
          return Err(PreconditionFailed);
        }
      }
      j := j + 1;
    }
    JoinEnds(keys, ls, collectable, out);
    r := Ok(out);
  }

  lemma {:induction false} NotListed(keys: seq<Key>, i: nat, ls: seq<Listed>, j: nat)
    requires i < |keys| && OrderedListing(ls) && j <= |ls|
    requires forall n :: 0 <= n < j ==> ls[n].info.key < keys[i]
    requires j < |ls| ==> keys[i] < ls[j].info.key
    ensures keys[i] !in ListedKeys(ls)
  {
    forall n | 0 <= n < |ls| ensures ListedKeys(ls)[n] != keys[i] { }
  }
}
