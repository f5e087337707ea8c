/** The bounded external sort of checkpoint reachability: sorted chunks, k-way merges, and an ordered stream. */
module ExternalSort {
  import opened Basics
  import opened KeyPages
  import opened VisitSet

  const MERGE_WIDTH := 64

  /** Every chunk is strictly sorted. */
  predicate SortedChunks(chunks: seq<seq<Key>>) {
    forall i :: 0 <= i < |chunks| ==> Ascending(chunks[i])
  }

  /** A heap of readers: each one holds the part of its chunk that is still to be read, which is not empty. */
  predicate Readers(queue: seq<seq<Key>>) {
    SortedChunks(queue) && forall i :: 0 <= i < |queue| ==> queue[i] != []
  }

  function TotalLength(queue: seq<seq<Key>>): nat {
    if queue == [] then 0 else |queue[0]| + TotalLength(queue[1..])
  }

  lemma {:induction false} AllAppend(a: seq<seq<Key>>, b: seq<seq<Key>>)
    ensures All(a + b) == All(a) + All(b) && TotalLength(a + b) == TotalLength(a) + TotalLength(b)
  {
    if a == [] {
      assert a + b == b;
    } else {
      assert (a + b)[1..] == a[1..] + b;
      AllAppend(a[1..], b);
    }
  }

  lemma {:induction false} AllSplit(queue: seq<seq<Key>>, i: nat)
    requires i < |queue|
    ensures All(queue) == All(queue[..i]) + Elements(queue[i]) + All(queue[i + 1..])
    ensures TotalLength(queue) == TotalLength(queue[..i]) + |queue[i]| + TotalLength(queue[i + 1..])
  {
    assert queue == queue[..i] + queue[i..] && queue[i..][1..] == queue[i + 1..];
    AllAppend(queue[..i], queue[i..]);
  }

  /** The readers after the i-th one advanced past its current key; a reader at its end leaves the heap. */
  function Advanced(queue: seq<seq<Key>>, i: nat): seq<seq<Key>>
    requires i < |queue| && queue[i] != []
  {
    queue[..i] + (if |queue[i]| == 1 then [] else [queue[i][1..]]) + queue[i + 1..]
  }

  lemma {:induction false} FirstKey(run: seq<Key>)
    requires run != []
    ensures Elements(run) == {run[0]} + Elements(run[1..])
    ensures All([run[1..]]) == Elements(run[1..]) && TotalLength([run[1..]]) == |run| - 1
    ensures |run| == 1 ==> Elements(run[1..]) == {}
    ensures All([]) == {} && TotalLength([]) == 0
  {
    assert run == [run[0]] + run[1..];
  }

  lemma {:induction false} AdvancedReaders(queue: seq<seq<Key>>, i: nat)
    requires Readers(queue) && i < |queue|
    ensures Readers(Advanced(queue, i))
  {
    var out := Advanced(queue, i);
    forall n | 0 <= n < |out| ensures Ascending(out[n]) && out[n] != [] {
      if n < i { assert out[n] == queue[n]; }
      else if |queue[i]| == 1 { assert out[n] == queue[n + 1]; }
      else if n == i { assert out[n] == queue[i][1..]; }
      else { assert out[n] == queue[n]; }
    }
  }

  lemma {:induction false} AdvancedOk(queue: seq<seq<Key>>, i: nat)
    requires Readers(queue) && i < |queue|
    ensures Readers(Advanced(queue, i)) && TotalLength(Advanced(queue, i)) < TotalLength(queue)
    ensures All(queue) == All(Advanced(queue, i)) + {queue[i][0]}
  {
    hide All, TotalLength, Elements;
    var run := queue[i];
    var mid := if |run| == 1 then [] else [run[1..]];
    AdvancedReaders(queue, i);
    AllSplit(queue, i);
    AllAppend(queue[..i], mid);
    AllAppend(queue[..i] + mid, queue[i + 1..]);
    FirstKey(run);
  }

  /** heap.Pop: a reader whose current key is least. */
  method LeastReader(queue: seq<seq<Key>>) returns (i: nat)
    requires Readers(queue) && queue != []
    ensures i < |queue| && forall k :: k in All(queue) ==> queue[i][0] <= k
  {
    i := 0;
    for j := 1 to |queue|
      invariant i < |queue| && forall n :: 0 <= n < j ==> queue[i][0] <= queue[n][0]
    {
      if queue[j][0] < queue[i][0] { i := j; }
    }
    forall k | k in All(queue) ensures queue[i][0] <= k {
      AllWhere(queue, k);
      var n :| 0 <= n < |queue| && k in queue[n];
      assert queue[n][0] <= k;
    }
  }

  /** The readers that have something to read. */
  method OpenReaders(chunks: seq<seq<Key>>) returns (queue: seq<seq<Key>>)
    requires SortedChunks(chunks)
    ensures Readers(queue) && All(queue) == All(chunks)
  {
    queue := [];
    for n := 0 to |chunks|
      invariant Readers(queue) && All(queue) == All(chunks[..n])
    {
      assert chunks[..n + 1] == chunks[..n] + [chunks[n]];
      AllAppend(chunks[..n], [chunks[n]]);
      AllAppend(queue, [chunks[n]]);
      if chunks[n] != [] { queue := queue + [chunks[n]]; }
    }
    assert chunks[..|chunks|] == chunks;
  }

  /** merge: one strictly sorted chunk with everything in the given ones. */
  method MergeChunks(chunks: seq<seq<Key>>) returns (out: seq<Key>)
    requires SortedChunks(chunks)
    ensures Ascending(out) && Elements(out) == All(chunks)
  {
    var queue := OpenReaders(chunks);
    out := [];
    while queue != []
      invariant Readers(queue) && Ascending(out) && Elements(out) + All(queue) == All(chunks)
      invariant out != [] ==> forall k :: k in All(queue) ==> out[|out| - 1] <= k
      decreases TotalLength(queue)
    {
      var i := LeastReader(queue);
      AdvancedOk(queue, i);
      var current := queue[i][0];
      assert current in All(queue);
      assert Elements(out + [current]) == Elements(out) + {current};
      if out == [] || current != out[|out| - 1] { out := out + [current]; }
      queue := Advanced(queue, i);
    }
  }

  /** Sorting one buffer and dropping repetitions. */
  method SortBuffer(buffer: seq<Key>) returns (run: seq<Key>)
    ensures Ascending(run) && Elements(run) == Elements(buffer)
  {
    run := SortSet(Elements(buffer));
  }

  /** One round of consolidation: groups of at most MERGE_WIDTH chunks, merged. */
  method MergeRound(chunks: seq<seq<Key>>) returns (merged: seq<seq<Key>>)
    requires SortedChunks(chunks)
    ensures SortedChunks(merged) && All(merged) == All(chunks)
    ensures |chunks| > MERGE_WIDTH ==> |merged| < |chunks|
  {
    merged := [];
    var start := 0;
    while start < |chunks|
      invariant 0 <= start <= |chunks| && SortedChunks(merged) && All(merged) == All(chunks[..start])
      invariant |merged| * MERGE_WIDTH <= start || (start == |chunks| && (|merged| - 1) * MERGE_WIDTH < start)
    {
      var end := Min(start + MERGE_WIDTH, |chunks|);
      var run := MergeChunks(chunks[start..end]);
      assert chunks[..end] == chunks[..start] + chunks[start..end];
      AllAppend(chunks[..start], chunks[start..end]);
      AllAppend(merged, [run]);
      merged := merged + [run];
      start := end;
    }
    assert chunks[..|chunks|] == chunks;
  }

  // ----------------------------------------------------------- the collector

  class Collector {
    var buffer: seq<Key>
    var chunks: seq<seq<Key>>
    const capacity: nat
    /** The keys added so far. */
    ghost var keys: set<Key>

    ghost predicate Valid()
      reads this
    {
      && 0 < capacity && |buffer| < capacity && SortedChunks(chunks)
      && keys == Elements(buffer) + All(chunks)
    }

    constructor (capacity: nat)
      requires 0 < capacity
      ensures Valid() && keys == {}
    {
      this.capacity := capacity;
      buffer, chunks, keys := [], [], {};
    }

    /** Add: the buffer never outgrows its capacity; the empty key is rejected. */
    method Add(key: Key) returns (ok: bool)
      requires Valid()
      modifies this
      ensures Valid() && ok == (key != 0) && keys == if key == 0 then old(keys) else old(keys) + {key}
    {
      if key == 0 { return false; }
      assert Elements(buffer + [key]) == Elements(buffer) + {key};
      buffer := buffer + [key];
      keys := keys + {key};
      if |buffer| == capacity { Flush(); }
      ok := true;
    }

    method Flush()
      requires SortedChunks(chunks) && keys == Elements(buffer) + All(chunks) && 0 < capacity
      modifies this
      ensures Valid() && buffer == [] && keys == old(keys)
    {
      if buffer == [] { return; }
      var run := SortBuffer(buffer);
      AllAppend(chunks, [run]);
      assert Elements([]) == {};
      chunks := chunks + [run];
      buffer := [];
    }

    /** consolidate: rounds of merges until the chunks can be read side by side. */
    method Consolidate()
      requires Valid()
      modifies this
      ensures Valid() && keys == old(keys) && buffer == [] && |chunks| <= MERGE_WIDTH && All(chunks) == keys
    {
      Flush();
      assert Elements([]) == {};
      while |chunks| > MERGE_WIDTH
        invariant Valid() && keys == old(keys) && buffer == [] && All(chunks) == keys
        decreases |chunks|
      {
        chunks := MergeRound(chunks);
      }
    }
  }

  // -------------------------------------------------------------- the stream

  /** An ordered stream over at most MERGE_WIDTH chunks. */
  class Stream {
    var queue: seq<seq<Key>>
    var previous: Key

    ghost predicate Valid()
      reads this
    {
      Readers(queue) && forall k :: k in All(queue) ==> previous <= k && 0 < k
    }

    /** What is still to come. */
    ghost function Remaining(): set<Key>
      reads this
    {
      All(queue) - {previous}
    }

    constructor (chunks: seq<seq<Key>>)
      requires SortedChunks(chunks) && 0 !in All(chunks)
      ensures Valid() && Remaining() == All(chunks) && previous == 0
    {
      queue, previous := [], 0;
      new;
      queue := OpenReaders(chunks);
    }

    /** Next: the least remaining key, which then is the last one delivered. */
    method Next() returns (k: Option<Key>)
      requires Valid()
      modifies this
      ensures Valid()
      ensures k.None? <==> old(Remaining()) == {}
      ensures k.None? ==> Remaining() == {}
      ensures k.Some? ==>
                && k.value in old(Remaining()) && old(previous) < k.value == previous
                && (forall x :: x in old(Remaining()) ==> k.value <= x) && Remaining() == old(Remaining()) - {k.value}
    {
      while queue != []
        invariant Valid() && Remaining() == old(Remaining()) && previous == old(previous)
        decreases TotalLength(queue)
      {
        var i := LeastReader(queue);
        AdvancedOk(queue, i);
        var value := queue[i][0];
        assert value in All(queue);
        assert value != previous ==> value in Remaining();
        queue := Advanced(queue, i);
        if value != previous {
          previous := value;
          return Some(value);
        }
      }
      k := None;
    }
  }

  /** Reading a collector to the end yields its keys strictly increasing, each once. */
  method SortedKeys(collector: Collector) returns (out: seq<Key>)
    requires collector.Valid() && 0 !in collector.keys
    modifies collector
    ensures Ascending(out) && Elements(out) == old(collector.keys)
  {
    hide Readers, SortedChunks, All, TotalLength, Elements;
    collector.Consolidate();
    var stream := new Stream(collector.chunks);
    ghost var keys := collector.keys;
    out := [];
    NextKey(out, 0);
    while true
      invariant fresh(stream) && stream.Valid() && Ascending(out) && Elements(out) + stream.Remaining() == keys
      invariant forall i :: 0 <= i < |out| ==> out[i] <= stream.previous
      decreases |stream.Remaining()|
    {
      var k := stream.Next();
      if k.None? { return; }
      NextKey(out, k.value);
      out := out + [k.value];
    }
  }

  lemma {:induction false} NextKey(out: seq<Key>, k: Key)
    ensures Elements(out + [k]) == Elements(out) + {k} && Elements([]) == {}
  {
  }
}
