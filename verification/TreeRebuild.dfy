/** rebuild: the whole tree is read, edited as a map and built again, which agrees with editing it in place. */
module TreeRebuild {
  import opened Basics
  import opened PageGroups
  import opened DomainTree
  import opened TreeEdit
  import opened TreeMap
  import opened KeyPages

  /** The map holds exactly these entries, each under its own key. */
  ghost predicate Mirrors(values: map<Key, Entry>, es: seq<Entry>) {
    (forall k :: Get(values, k) == At(es, k)) && forall k :: k in values ==> values[k].key == k
  }

  lemma {:induction false} SelectedAll(es: seq<Entry>)
    requires forall i :: 0 <= i < |es| ==> 0 < es[i].key
    ensures Selected(es, AnyKey, 0) == es
  {
    if es != [] { SelectedAll(es[1..]); }
  }

  method Load(es: seq<Entry>) returns (values: map<Key, Entry>)
    requires Sorted(es)
    ensures Mirrors(values, es)
  {
    values := map[];
    for n := 0 to |es|
      invariant Mirrors(values, es[..n])
    {
      var next, done := values[es[n].key := es[n]], es[..n + 1];
      forall k: Key ensures Get(next, k) == At(done, k) {
        assert Get(values, k) == At(es[..n], k);
        assert es[..n + 1] == es[..n] + [es[n]];
        AtConcat(es[..n], [es[n]], k);
        assert [es[n]][1..] == [];
        if k == es[n].key { AtAbsent(es[..n], k); }
      }
      values := next;
    }
    assert es[..|es|] == es;
  }

  /** Changes in order: of several changes of one key the last wins. */
  method EditMap(values: map<Key, Entry>, changes: seq<Change>) returns (edited: map<Key, Entry>)
    requires forall k :: k in values ==> values[k].key == k
    ensures forall k :: Get(edited, k) == Edited(Get(values, k), ChangeAt(changes, k))
    ensures forall k :: k in edited ==> edited[k].key == k
  {
    edited := values;
    for n := 0 to |changes|
      invariant forall k :: Get(edited, k) == Edited(Get(values, k), ChangeAt(changes[..n], k))
      invariant forall k :: k in edited ==> edited[k].key == k
    {
      var c := changes[n];
      assert changes[..n + 1][..n] == changes[..n];
      edited := if c.delete then edited - {c.key} else edited[c.key := EntryOf(c)];
    }
    assert changes[..|changes|] == changes;
  }

  method InOrder(values: map<Key, Entry>) returns (es: seq<Entry>)
    requires forall k :: k in values ==> values[k].key == k
    ensures Sorted(es) && Mirrors(values, es)
  {
    var keys := SortKeys(values.Keys, |values.Keys|);
    WholeSet(keys, values.Keys);
    es := seq(|keys|, i requires 0 <= i < |keys| && keys[i] in values => values[keys[i]]);
    forall k ensures Get(values, k) == At(es, k) {
      if k in values {
        assert k in keys;
        var i :| 0 <= i < |keys| && keys[i] == k;
        AtIndex(es, i);
      } else {
        AtAbsent(es, k);
      }
    }
  }

  /** Every entry that the edit leaves fits a page of its own. */
  ghost predicate AllFit(f: Format, before: Root, changes: seq<Change>) {
    forall k :: var e := Edited(At(Contents(before), k), ChangeAt(changes, k));
      e.Some? ==> FitsAlone(e.value, f.entryBytes, f.leafHeader, f.limit)
  }

  lemma {:induction false} FitsEverywhere(f: Format, before: Root, changes: seq<Change>, es: seq<Entry>)
    requires Sorted(es) && forall k :: At(es, k) == Edited(At(Contents(before), k), ChangeAt(changes, k))
    ensures AllFit(f, before, changes)
       <==> forall i :: 0 <= i < |es| ==> FitsAlone(es[i], f.entryBytes, f.leafHeader, f.limit)
  {
    if AllFit(f, before, changes) {
      forall i | 0 <= i < |es| ensures FitsAlone(es[i], f.entryBytes, f.leafHeader, f.limit) { AtIndex(es, i); }
    }
    if forall i :: 0 <= i < |es| ==> FitsAlone(es[i], f.entryBytes, f.leafHeader, f.limit) {
      forall k ensures At(es, k).Some? ==> FitsAlone(At(es, k).value, f.entryBytes, f.leafHeader, f.limit) {
        if At(es, k).Some? { var i := AtPresent(es, k); }
      }
    }
  }

  /**
    * rebuild fails exactly when some remaining entry fits no page, and otherwise is a
    * well-formed tree in which the last change of each key took effect, so it holds what
    * apply would hold.
    */
  method Rebuild(f: Format, root: Root, changes: seq<Change>) returns (r: Result<Root, ErrorKind>)
    requires ValidFormat(f) && ValidRoot(f, root) && forall i :: 0 <= i < |Contents(root)| ==> 0 < Contents(root)[i].key
    ensures r.Ok? <==> AllFit(f, root, changes)
    ensures r.Ok? ==> Applied(f, root, changes, r.value)
    ensures r.Ok? ==> forall i :: 0 <= i < |changes| && (forall j :: i < j < |changes| ==> changes[j].key != changes[i].key) ==>
              At(Contents(r.value), changes[i].key) ==
              if changes[i].delete then None else Some(Entry(changes[i].key, changes[i].value, changes[i].version))
    ensures r.Ok? ==> forall k :: (forall i :: 0 <= i < |changes| ==> changes[i].key != k) ==>
              At(Contents(r.value), k) == At(Contents(root), k)
  {
    ContentsSorted(f, root);
    SelectedAll(Contents(root));
    var entries := Collect(f, root, AnyKey, 0, (if root.Empty? then 0 else root.count) + 1);
    assert entries == Contents(root);
    var values := Load(entries);
    var edited := EditMap(values, changes);
    var es := InOrder(edited);
    forall k: Key ensures At(es, k) == Edited(At(Contents(root), k), ChangeAt(changes, k)) {
      assert Get(edited, k) == At(es, k) && Get(values, k) == At(Contents(root), k);
    }
    FitsEverywhere(f, root, changes, es);
    r := BuildTree(f, es);
    if r.Ok? { AppliedMeans(f, root, changes, r.value); }
  }

  /** Rebuilding and editing in place hold the same entries in the same order. */
  lemma {:induction false} RebuildAgreesWithApply(f: Format, before: Root, changes: seq<Change>, rebuilt: Root, applied: Root)
    requires Applied(f, before, changes, rebuilt) && Applied(f, before, changes, applied)
    ensures Contents(rebuilt) == Contents(applied)
  {
    AppliedIsUnique(f, before, changes, rebuilt, applied);
  }
}
