/**
  * The exact visited set: a bounded buffer over immutable sorted runs, one run
  * per level, merged like the carries of a binary counter. An identity stands for
  * its digest; zero is the empty string, which is not an identity.
  */
module VisitSet {
  import opened Basics
  import opened KeyPages

  function Elements(s: seq<Key>): set<Key> {
    set k | k in s
  }

  /** Everything in the runs of these levels. */
  function All(levels: seq<seq<Key>>): set<Key> {
    if levels == [] then {} else Elements(levels[0]) + All(levels[1..])
  }

  /** Runs are sorted, pairwise disjoint, and twice as long from level to level. */
  ghost predicate Runs(levels: seq<seq<Key>>, size: nat) {
    levels == [] ||
    (&& (levels[0] == [] || (Ascending(levels[0]) && |levels[0]| == size))
     && Elements(levels[0]) !! All(levels[1..])
     && Runs(levels[1..], 2 * size))
  }

  /** The number whose bits say which levels are occupied. */
  function Counter(levels: seq<seq<Key>>): nat {
    if levels == [] then 0 else (if levels[0] == [] then 0 else 1) + 2 * Counter(levels[1..])
  }

  function Bit(n: nat, i: nat): bool {
    if i == 0 then n % 2 == 1 else Bit(n / 2, i - 1)
  }

  function Pow2(i: nat): nat {
    if i == 0 then 1 else 2 * Pow2(i - 1)
  }

  /** Level i is occupied exactly when bit i of the counter is set, and then holds size times 2^i identities. */
  lemma {:induction false} LevelIsBit(levels: seq<seq<Key>>, size: nat, i: nat)
    requires Runs(levels, size)
    ensures Bit(Counter(levels), i) <==> i < |levels| && levels[i] != []
    ensures i < |levels| && levels[i] != [] ==> Ascending(levels[i]) && |levels[i]| == size * Pow2(i)
    decreases i
  {
    if levels == [] {
      NoBits(i);
    } else if 0 < i {
      LevelIsBit(levels[1..], 2 * size, i - 1);
      assert Counter(levels) / 2 == Counter(levels[1..]);
      Doubling(size, Pow2(i - 1));
    }
  }

  lemma {:induction false} NoBits(i: nat)
    ensures !Bit(0, i)
  {
    if 0 < i { NoBits(i - 1); }
  }

  lemma {:induction false} Doubling(a: nat, b: nat)
    ensures (2 * a) * b == a * (2 * b)
  {
  }

  lemma {:induction false} RunsDisjoint(levels: seq<seq<Key>>, size: nat, i: nat, j: nat)
    requires Runs(levels, size) && i < j < |levels|
    ensures Elements(levels[i]) !! Elements(levels[j])
  {
    if 0 < i {
      RunsDisjoint(levels[1..], 2 * size, i - 1, j - 1);
    } else {
      InAll(levels[1..], j - 1);
    }
  }

  lemma {:induction false} InAll(levels: seq<seq<Key>>, i: nat)
    requires i < |levels|
    ensures Elements(levels[i]) <= All(levels)
  {
    if 0 < i { InAll(levels[1..], i - 1); }
  }

  lemma {:induction false} AllWhere(levels: seq<seq<Key>>, k: Key)
    ensures k in All(levels) <==> exists i :: 0 <= i < |levels| && k in levels[i]
  {
    if levels != [] {
      AllWhere(levels[1..], k);
      if i :| 0 <= i < |levels| && k in levels[i] {
        if 0 < i { assert levels[1..][i - 1] == levels[i]; }
      }
      if i :| 0 <= i < |levels[1..]| && k in levels[1..][i] { assert levels[i + 1] == levels[1..][i]; }
    }
  }

  lemma {:induction false} AscendingSize(s: seq<Key>)
    requires Ascending(s)
    ensures |Elements(s)| == |s|
  {
    if s != [] {
      var n := |s| - 1;
      AscendingSize(s[..n]);
      assert Elements(s) == Elements(s[..n]) + {s[n]};
    }
  }

  lemma {:induction false} ElementsStep(s: seq<Key>, i: nat)
    requires i < |s|
    ensures Elements(s[..i + 1]) == Elements(s[..i]) + {s[i]}
  {
    assert s[..i + 1] == s[..i] + [s[i]];
  }

  lemma {:induction false} ElementsAppend(s: seq<Key>, k: Key)
    ensures Elements(s + [k]) == Elements(s) + {k}
  {
  }

  lemma {:induction false} InElements(s: seq<Key>, k: Key)
    ensures (k in Elements(s) <==> k in s) && Elements([]) == {}
  {
  }

  // ------------------------------------------------------- search and merge

  /** Binary search in a run. */
  method RunContains(run: seq<Key>, value: Key) returns (found: bool)
    requires Ascending(run)
    ensures found <==> value in run
  {
    var left, right := 0, |run|;
    while left < right
      invariant 0 <= left <= right <= |run|
      invariant forall i :: 0 <= i < left ==> run[i] < value
      invariant forall i :: right <= i < |run| ==> value <= run[i]
    {
      var middle := left + (right - left) / 2;
      if run[middle] < value { left := middle + 1; } else { right := middle; }
    }
    if left == |run| { return false; }
    found := run[left] == value;
  }

  /** Two-way merge of sorted runs; an identity in both is written once. */
  method MergeRuns(left: seq<Key>, right: seq<Key>) returns (out: seq<Key>)
    requires Ascending(left) && Ascending(right)
    ensures Ascending(out) && Elements(out) == Elements(left) + Elements(right)
    ensures Elements(left) !! Elements(right) ==> |out| == |left| + |right|
  {
    hide Elements;
    out := [];
    var i, j := 0, 0;
    InElements([], 0);
    while i < |left| || j < |right|
      invariant 0 <= i <= |left| && 0 <= j <= |right| && Ascending(out)
      invariant Elements(out) == Elements(left[..i]) + Elements(right[..j])
      invariant forall n :: 0 <= n < |out| ==> (i < |left| ==> out[n] < left[i]) && (j < |right| ==> out[n] < right[j])
      decreases |left| - i + |right| - j
    {
      var value, advanceLeft, advanceRight := 0, false, false;
      if j == |right| || (i < |left| && left[i] < right[j]) {
        value, advanceLeft := left[i], true;
      } else if i == |left| || right[j] < left[i] {
        value, advanceRight := right[j], true;
      } else {
        value, advanceLeft, advanceRight := left[i], true, true;
      }
      ElementsAppend(out, value);
      if out == [] || value != out[|out| - 1] { out := out + [value]; }
      if advanceLeft { ElementsStep(left, i); i := i + 1; }
      if advanceRight { ElementsStep(right, j); j := j + 1; }
    }
    assert left[..|left|] == left && right[..|right|] == right;
    AscendingSize(out);
    AscendingSize(left);
    AscendingSize(right);
  }

  method SortSet(s: set<Key>) returns (run: seq<Key>)
    ensures Ascending(run) && Elements(run) == s && |run| == |s|
  {
    run := SortKeys(s, |s|);
    WholeSet(run, s);
  }

  // -------------------------------------------------------------- the set

  class Visited {
    var buffer: set<Key>
    var levels: seq<seq<Key>>
    const limit: nat
    /** The identities passed so far, and how many buffers were flushed. */
    ghost var passed: set<Key>
    ghost var flushes: nat

    ghost predicate Valid()
      reads this
    {
      && 0 < limit && |buffer| < limit
      && Runs(levels, limit) && Counter(levels) == flushes
      && buffer !! All(levels) && passed == buffer + All(levels)
    }

    constructor (limit: nat)
      requires 0 < limit
      ensures Valid() && passed == {} && flushes == 0
    {
      this.limit := limit;
      buffer, levels, passed, flushes := {}, [], {}, 0;
    }

    method InRuns(value: Key) returns (found: bool)
      requires Valid()
      ensures found <==> value in All(levels)
    {
      AllWhere(levels, value);
      for i := 0 to |levels|
        invariant forall j :: 0 <= j < i ==> value !in levels[j]
      {
        LevelIsBit(levels, limit, i);
        if levels[i] != [] {
          found := RunContains(levels[i], value);
          if found { return; }
        }
      }
      found := false;
    }

    /** Seen: an error for the empty identity; else whether the identity was passed before, which it now is. */
    method Seen(value: Key) returns (r: Result<bool, ErrorKind>)
      requires Valid()
      modifies this
      ensures Valid()
      ensures r == if value == 0 then Err(Invalid) else Ok(value in old(passed))
      ensures passed == if value == 0 then old(passed) else old(passed) + {value}
    {
      hide Runs, Counter, All;
      if value == 0 { return Err(Invalid); }
      if value in buffer { return Ok(true); }
      var found := InRuns(value);
      if found { return Ok(true); }
      buffer := buffer + {value};
      passed := passed + {value};
      if |buffer| >= limit { Flush(); }
      r := Ok(false);
    }

    /** flush: one more sorted run of exactly `limit` identities. */
    method Flush()
      requires 0 < limit == |buffer| && Runs(levels, limit) && Counter(levels) == flushes
      requires buffer !! All(levels) && passed == buffer + All(levels)
      modifies this
      ensures Valid() && passed == old(passed) && flushes == old(flushes) + 1
    {
      hide Runs, Counter, All, Elements;
      var run := SortSet(buffer);
      buffer := {};
      assert levels[0..] == levels;
      InsertRun(0, run, limit);
      assert levels[0..] == levels;
      flushes := flushes + 1;
    }

    /** insertRun: merges equal-sized runs upwards until a level is free. */
    method InsertRun(level: nat, run: seq<Key>, ghost size: nat)
      requires level <= |levels| && Ascending(run) && |run| == size && 0 < size
      requires Runs(levels[level..], size) && Elements(run) !! All(levels[level..])
      modifies this`levels
      ensures level <= |levels| && levels[..level] == old(levels[..level])
      ensures Runs(levels[level..], size) && Counter(levels[level..]) == old(Counter(levels[level..])) + 1
      ensures All(levels[level..]) == old(All(levels[level..])) + Elements(run)
      decreases |levels| - level
    {
      ghost var above := levels[level..];
      if |levels| <= level { levels := levels + [[]]; }
      if levels[level] == [] {
        levels := levels[level := run];
        assert levels[level..] == [run] + (if above == [] then [] else above[1..]);
        assert ([run] + (if above == [] then [] else above[1..]))[1..] == if above == [] then [] else above[1..];
        return;
      }
      assert above[0] == levels[level] && levels[level + 1..] == above[1..];
      var merged := MergeRuns(levels[level], run);
      levels := levels[level := []];
      assert levels[level + 1..] == above[1..];
      InsertRun(level + 1, merged, 2 * size);
      assert levels[level..][1..] == levels[level + 1..] && levels[level..][0] == levels[..level + 1][level] == [];
      assert levels[..level] == levels[..level + 1][..level];
    }
  }

  /** Over every sequence of calls, Seen answers exactly whether the identity came before. */
  method SeenSequence(values: seq<Key>, limit: nat) returns (answers: seq<bool>)
    requires 0 < limit && forall i :: 0 <= i < |values| ==> values[i] != 0
    ensures |answers| == |values| && forall i :: 0 <= i < |values| ==> (answers[i] <==> values[i] in values[..i])
  {
    hide Runs, Counter, All, Elements;
    var visited := new Visited(limit);
    InElements([], 0);
    assert values[..0] == [];
    answers := [];
    for n := 0 to |values|
      invariant fresh(visited) && visited.Valid() && visited.passed == Elements(values[..n])
      invariant |answers| == n && forall i :: 0 <= i < n ==> (answers[i] <==> values[i] in values[..i])
    {
      var seen := visited.Seen(values[n]);
      ElementsStep(values, n);
      InElements(values[..n], values[n]);
      answers := answers + [seen.value];
    }
  }
}
