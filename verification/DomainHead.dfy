/**
  * The head of one consistency domain: a base tree, a window of deltas, and the
  * trees of retained outcomes and their expiries. The trees appear here as the
  * finite maps and sets they refine (module DomainTree).
  */
module DomainHead {
  import opened Basics

  type MutationId = nat

  /** A digest is injective, so a fingerprint is the intent that it commits to. */
  datatype Fingerprint = Intent(materialized: bool, requests: seq<Request>, result: Bytes)

  datatype Version = NoVersion | ValueVersion(id: MutationId, fingerprint: Fingerprint, key: Key, data: Bytes)

  datatype Requirement = Anything | Absent | Present

  datatype Request = Request(key: Key, require: Requirement, expected: Version, delete: bool, data: Bytes)

  datatype Mutation = Mutation(
    id: MutationId, retainUntil: Time, requests: seq<Request>, result: Bytes, expectedRevision: Option<nat>)

  datatype Value = Value(data: Bytes, version: Version)

  datatype Change = Change(key: Key, delete: bool, data: Bytes, version: Version)

  datatype Delta = Delta(
    id: MutationId, fingerprint: Fingerprint, revision: nat, retainUntil: Time, changes: seq<Change>, result: Bytes)

  datatype Outcome = Outcome(
    id: MutationId, fingerprint: Fingerprint, revision: nat, retainUntil: Time, result: Bytes)

  /** A key of the expiry tree: ordered by time, then by identifier. */
  datatype Expiry = Expiry(time: Time, id: MutationId)

  datatype Head = Head(
    registered: bool, revision: nat, frozen: bool, freezeEpoch: nat, baseRevision: nat,
    base: map<Key, Value>, outcomes: map<MutationId, Outcome>, expiry: set<Expiry>, deltas: seq<Delta>)

  /** The inert head that is published before a domain enters the catalog. */
  const INERT := Head(false, 0, false, 0, 0, map[], map[], {}, [])

  const PAGE_ITEMS := 256

  // ---------------------------------------------------------------- values

  function ApplyChange(m: map<Key, Value>, c: Change): map<Key, Value> {
    if c.delete then m - {c.key} else m[c.key := Value(c.data, c.version)]
  }

  function ApplyChanges(m: map<Key, Value>, cs: seq<Change>): map<Key, Value> {
    if cs == [] then m else ApplyChange(ApplyChanges(m, cs[..|cs| - 1]), cs[|cs| - 1])
  }

  function ApplyDeltas(m: map<Key, Value>, ds: seq<Delta>): map<Key, Value> {
    if ds == [] then m else ApplyChanges(ApplyDeltas(m, ds[..|ds| - 1]), ds[|ds| - 1].changes)
  }

  /** What a reader of the head sees. */
  function Values(h: Head): map<Key, Value> {
    ApplyDeltas(h.base, h.deltas)
  }

  predicate Touches(cs: seq<Change>, k: Key) {
    exists i :: 0 <= i < |cs| && cs[i].key == k
  }

  predicate SortedChanges(cs: seq<Change>) {
    forall i, j :: 0 <= i < j < |cs| ==> cs[i].key < cs[j].key
  }

  predicate SortedWindow(ds: seq<Delta>) {
    forall i :: 0 <= i < |ds| ==> SortedChanges(ds[i].changes)
  }

  lemma {:induction false} UntouchedByChanges(m: map<Key, Value>, cs: seq<Change>, k: Key)
    requires !Touches(cs, k)
    ensures Get(ApplyChanges(m, cs), k) == Get(m, k)
  {
    if cs != [] {
      var init := cs[..|cs| - 1];
      assert !Touches(init, k);
      UntouchedByChanges(m, init, k);
      assert cs[|cs| - 1].key != k;
    }
  }

  /** In a sorted batch the one change of a key decides that key. */
  lemma {:induction false} DecidedByChange(m: map<Key, Value>, cs: seq<Change>, i: nat)
    requires i < |cs| && SortedChanges(cs)
    ensures Get(ApplyChanges(m, cs), cs[i].key) ==
            if cs[i].delete then None else Some(Value(cs[i].data, cs[i].version))
  {
    var n := |cs| - 1;
    if i < n {
      DecidedByChange(m, cs[..n], i);
      assert cs[i].key < cs[n].key;
    }
  }

  /** sort.Search over the changes of one delta. */
  method SearchChanges(cs: seq<Change>, k: Key) returns (i: nat)
    requires SortedChanges(cs)
    ensures i <= |cs|
    ensures forall j :: 0 <= j < i ==> cs[j].key < k
    ensures forall j :: i <= j < |cs| ==> k <= cs[j].key
  {
    var lo, hi := 0, |cs|;
    while lo < hi
      invariant 0 <= lo <= hi <= |cs|
      invariant forall j :: 0 <= j < lo ==> cs[j].key < k
      invariant forall j :: hi <= j < |cs| ==> k <= cs[j].key
    {
      var mid := lo + (hi - lo) / 2;
      if cs[mid].key >= k { hi := mid; } else { lo := mid + 1; }
    }
    i := lo;
  }

  /** Reads one key at a head: the newest delta that mentions it wins. */
  method LookupAtHead(h: Head, k: Key) returns (v: Option<Value>)
    requires SortedWindow(h.deltas)
    ensures v == Get(Values(h), k)
  {
    var n := |h.deltas|;
    assert h.deltas[..n] == h.deltas;
    while n > 0
      invariant 0 <= n <= |h.deltas|
      invariant Get(Values(h), k) == Get(ApplyDeltas(h.base, h.deltas[..n]), k)
    {
      n := n - 1;
      var delta := h.deltas[n];
      assert h.deltas[..n + 1][..n] == h.deltas[..n];
      ghost var below := ApplyDeltas(h.base, h.deltas[..n]);
      var i := SearchChanges(delta.changes, k);
      if i == |delta.changes| || delta.changes[i].key != k {
        assert !Touches(delta.changes, k);
        UntouchedByChanges(below, delta.changes, k);
      } else {
        DecidedByChange(below, delta.changes, i);
        var change := delta.changes[i];
        return if change.delete then None else Some(Value(change.data, change.version));
      }
    }
    v := Get(h.base, k);
  }

  // ---------------------------------------------------------- requirements

  /** The verdict of one request against the current value of its key. */
  function Check(current: Option<Value>, r: Request): Option<ErrorKind> {
    if r.require == Absent && current.Some? then Some(Conflict)
    else if r.require == Present && current.None? then Some(NotFound)
    else if r.require == Present && r.expected != NoVersion && current.value.version != r.expected then
      Some(PreconditionFailed)
    else if r.delete && current.None? then Some(NotFound)
    else None
  }

  /** What a request asks of the values before it: the key is absent, present, or present at a version. */
  predicate Allowed(values: map<Key, Value>, r: Request) {
    && (r.require.Absent? ==> r.key !in values)
    && (r.require.Present? ==> r.key in values && (r.expected.NoVersion? || values[r.key].version == r.expected))
    && (r.delete ==> r.key in values)
  }

  ghost predicate Satisfied(values: map<Key, Value>, rs: seq<Request>) {
    forall i :: 0 <= i < |rs| ==> Allowed(values, rs[i])
  }

  /** The verdict on a request is no error exactly when what it asks holds, and the error says what does not. */
  lemma {:induction false} CheckIs(values: map<Key, Value>, r: Request)
    ensures Check(Get(values, r.key), r) ==
            if Allowed(values, r) then None
            else if r.key !in values then Some(NotFound)
            else if r.require.Absent? then Some(Conflict)
            else Some(PreconditionFailed)
  {
  }

  /** Accepts exactly the batches whose every request is allowed, and otherwise says why the first is not. */
  method ValidateMutation(h: Head, rs: seq<Request>) returns (failure: Option<ErrorKind>)
    requires SortedWindow(h.deltas)
    ensures failure == None <==> Satisfied(Values(h), rs)
    ensures failure == None <==> forall i :: 0 <= i < |rs| ==>
              var r := rs[i];
              && (r.require == Absent ==> Get(Values(h), r.key) == None)
              && (r.require == Present ==> Get(Values(h), r.key).Some?)
              && (r.require == Present && r.expected != NoVersion ==> Get(Values(h), r.key).value.version == r.expected)
              && (r.delete ==> Get(Values(h), r.key).Some?)
    ensures failure.Some? ==>
              exists i :: 0 <= i < |rs| && Satisfied(Values(h), rs[..i]) && !Allowed(Values(h), rs[i])
                          && failure.value == if rs[i].key !in Values(h) then NotFound
                                              else if rs[i].require == Absent then Conflict
                                              else PreconditionFailed
  {
    for i := 0 to |rs|
      invariant Satisfied(Values(h), rs[..i])
    {
      var current := LookupAtHead(h, rs[i].key);
      CheckIs(Values(h), rs[i]);
      failure := Check(current, rs[i]);
      if failure.Some? { return; }
      assert rs[..i + 1] == rs[..i] + [rs[i]];
    }
    assert rs[..|rs|] == rs;
    failure := None;
  }

  // ------------------------------------------------------------ mutations

  /** The requests that normalisation lets through: keys distinct, present and sorted. */
  predicate Normalized(m: Mutation) {
    && m.requests != []
    && (forall i, j :: 0 <= i < j < |m.requests| ==> m.requests[i].key < m.requests[j].key)
    && (forall i :: 0 <= i < |m.requests| ==>
          var r := m.requests[i];
          0 < r.key && (r.require != Present ==> r.expected == NoVersion) && (r.delete ==> r.data == []))
  }

  function FingerprintOf(m: Mutation, materialized: bool): Fingerprint {
    Intent(materialized, m.requests, m.result)
  }

  function StoredChange(id: MutationId, f: Fingerprint, r: Request): Change {
    Change(r.key, r.delete, r.data, if r.delete then NoVersion else ValueVersion(id, f, r.key, r.data))
  }

  function StoredChanges(id: MutationId, f: Fingerprint, rs: seq<Request>): (cs: seq<Change>)
    ensures |cs| == |rs|
    ensures forall i :: 0 <= i < |rs| ==> cs[i].key == rs[i].key
  {
    seq(|rs|, i requires 0 <= i < |rs| => StoredChange(id, f, rs[i]))
  }

  function DeltaOf(m: Mutation, f: Fingerprint, revision: nat): Delta {
    Delta(m.id, f, revision, m.retainUntil, StoredChanges(m.id, f, m.requests), m.result)
  }

  function OutcomeOf(d: Delta): Outcome {
    Outcome(d.id, d.fingerprint, d.revision, d.retainUntil, d.result)
  }

  /** The head that publishes one more delta. */
  function Mutated(h: Head, m: Mutation, f: Fingerprint): Head {
    h.(registered := true, revision := h.revision + 1, deltas := h.deltas + [DeltaOf(m, f, h.revision + 1)])
  }

  /** What a mutation leaves under each key: the data of its request at a new version, nothing, or what was there. */
  ghost predicate Wrote(before: map<Key, Value>, after: map<Key, Value>, m: Mutation, f: Fingerprint) {
    && (forall i :: 0 <= i < |m.requests| ==>
          var r := m.requests[i];
          Get(after, r.key) == if r.delete then None else Some(Value(r.data, ValueVersion(m.id, f, r.key, r.data))))
    && (forall k :: (forall i :: 0 <= i < |m.requests| ==> m.requests[i].key != k) ==> Get(after, k) == Get(before, k))
  }

  lemma {:induction false} ChangesWrite(values: map<Key, Value>, m: Mutation, f: Fingerprint)
    requires Normalized(m)
    ensures Wrote(values, ApplyChanges(values, StoredChanges(m.id, f, m.requests)), m, f)
  {
    hide ApplyChanges;
    var cs := StoredChanges(m.id, f, m.requests);
    forall i | 0 <= i < |cs| { DecidedByChange(values, cs, i); }
    forall k | forall i :: 0 <= i < |m.requests| ==> m.requests[i].key != k
      ensures Get(ApplyChanges(values, cs), k) == Get(values, k)
    {
      UntouchedByChanges(values, cs, k);
    }
  }

  /** A commit leaves the requested data, whether it appends a delta or is folded into the trees. */
  lemma {:induction false} CommitWrites(h: Head, m: Mutation, f: Fingerprint, now: Time)
    requires Normalized(m)
    ensures Wrote(Values(h), Values(Mutated(h, m, f)), m, f)
    ensures Wrote(Values(h), Values(Compacted(Mutated(h, m, f), now)), m, f)
  {
    hide ApplyChanges, Wrote, DeltaOf, LiveOutcomes, LiveExpiries, Prunable;
    var h', d := Mutated(h, m, f), DeltaOf(m, f, h.revision + 1);
    assert (h.deltas + [d])[..|h.deltas|] == h.deltas;
    assert d.changes == StoredChanges(m.id, f, m.requests) by { DeltaParts(m, f, h.revision + 1); }
    ChangesWrite(Values(h), m, f);
    assert Values(Compacted(h', now)) == Values(h');
  }

  lemma {:induction false} DeltaParts(m: Mutation, f: Fingerprint, revision: nat)
    ensures DeltaOf(m, f, revision).changes == StoredChanges(m.id, f, m.requests)
    ensures OutcomeOf(DeltaOf(m, f, revision)) == Outcome(m.id, f, revision, m.retainUntil, m.result)
  {
  }

  // -------------------------------------------------------------- outcomes

  function FindOutcome(ds: seq<Delta>, id: MutationId, now: Time): Option<Outcome> {
    if ds == [] then None
    else
      var d := ds[|ds| - 1];
      if d.id == id && now < d.retainUntil then Some(OutcomeOf(d)) else FindOutcome(ds[..|ds| - 1], id, now)
  }

  /** The retained outcome of a mutation, as a replica reads it at a given time. */
  function Recorded(h: Head, id: MutationId, now: Time): Option<Outcome> {
    match FindOutcome(h.deltas, id, now)
    case Some(o) => Some(o)
    case None => if id in h.outcomes && now < h.outcomes[id].retainUntil then Some(h.outcomes[id]) else None
  }

  method LookupOutcome(h: Head, id: MutationId, now: Time) returns (o: Option<Outcome>)
    ensures o == Recorded(h, id, now)
  {
    var n := |h.deltas|;
    assert h.deltas[..n] == h.deltas;
    while n > 0
      invariant 0 <= n <= |h.deltas|
      invariant FindOutcome(h.deltas, id, now) == FindOutcome(h.deltas[..n], id, now)
    {
      n := n - 1;
      assert h.deltas[..n + 1][..n] == h.deltas[..n];
      var delta := h.deltas[n];
      if delta.id == id && now < delta.retainUntil {
        return Some(OutcomeOf(delta));
      }
    }
    if id !in h.outcomes || now >= h.outcomes[id].retainUntil { return None; }
    o := Some(h.outcomes[id]);
  }

  // ------------------------------------------------------------ compaction

  function LiveOutcomes(ds: seq<Delta>, now: Time): map<MutationId, Outcome> {
    if ds == [] then map[]
    else
      var d := ds[|ds| - 1];
      var rest := LiveOutcomes(ds[..|ds| - 1], now);
      if now < d.retainUntil then rest[d.id := OutcomeOf(d)] else rest
  }

  function LiveExpiries(ds: seq<Delta>, now: Time): set<Expiry> {
    set d | d in ds && now < d.retainUntil :: Expiry(d.retainUntil, d.id)
  }

  predicate Earlier(a: Expiry, b: Expiry) {
    a.time < b.time || (a.time == b.time && a.id < b.id)
  }

  function Preceding(es: set<Expiry>, e: Expiry): set<Expiry> {
    set x | x in es && Earlier(x, e)
  }

  /** The entries that one pruning pass removes: expired, and on the first page of the tree. */
  function Prunable(es: set<Expiry>, now: Time): set<Expiry> {
    set e | e in es && e.time <= now && |Preceding(es, e)| < PAGE_ITEMS
  }

  function Dropped(es: set<Expiry>, live: map<MutationId, Outcome>, now: Time): set<MutationId> {
    set e | e in Prunable(es, now) && e.id !in live :: e.id
  }

  /** Folds the window into the trees and prunes one page of expired outcomes. */
  function Compacted(h: Head, now: Time): Head {
    var live := LiveOutcomes(h.deltas, now);
    h.(base := Values(h),
       outcomes := (h.outcomes - Dropped(h.expiry, live, now)) + live,
       expiry := (h.expiry + LiveExpiries(h.deltas, now)) - Prunable(h.expiry, now),
       baseRevision := h.revision,
       deltas := [])
  }

  lemma {:induction false} FindsLiveOutcome(ds: seq<Delta>, id: MutationId, now: Time)
    ensures FindOutcome(ds, id, now) == Get(LiveOutcomes(ds, now), id)
  {
    if ds != [] { FindsLiveOutcome(ds[..|ds| - 1], id, now); }
  }

  /**
    * The stale-entry condition: an expired entry on the first page of the expiry
    * tree names an outcome that is still retained and is not being rewritten. It
    * arises when an identifier is used again after its first outcome expired.
    */
  ghost predicate StaleExpiry(h: Head, now: Time) {
    exists e :: e in Prunable(h.expiry, now) && e.id in h.outcomes &&
                now < h.outcomes[e.id].retainUntil && e.id !in LiveOutcomes(h.deltas, now)
  }

  /** Compaction keeps every unexpired outcome exactly when no stale entry is on the first page. */
  lemma {:induction false} CompactionKeepsOutcomesIff(h: Head, now: Time)
    ensures (forall id :: Recorded(Compacted(h, now), id, now) == Recorded(h, id, now)) <==> !StaleExpiry(h, now)
  {
    var c := Compacted(h, now);
    var live := LiveOutcomes(h.deltas, now);
    forall id
      ensures Recorded(c, id, now) == Recorded(h, id, now) <==>
              !(id in h.outcomes && now < h.outcomes[id].retainUntil && id in Dropped(h.expiry, live, now))
    {
      FindsLiveOutcome(h.deltas, id, now);
      LiveIsLive(h.deltas, id, now);
    }
    if StaleExpiry(h, now) {
      var e :| e in Prunable(h.expiry, now) && e.id in h.outcomes &&
               now < h.outcomes[e.id].retainUntil && e.id !in live;
      assert e.id in Dropped(h.expiry, live, now);
      assert Recorded(c, e.id, now) != Recorded(h, e.id, now);
    }
  }

  lemma {:induction false} LiveIsLive(ds: seq<Delta>, id: MutationId, now: Time)
    ensures id in LiveOutcomes(ds, now) ==> now < LiveOutcomes(ds, now)[id].retainUntil
  {
    if ds != [] { LiveIsLive(ds[..|ds| - 1], id, now); }
  }

  // ------------------------------------------- compaction, as it is executed

  /** A batch of tree edits by key: Some stores a value, None deletes. */
  function Overlay<K, V>(m: map<K, V>, edits: map<K, Option<V>>): map<K, V> {
    (map k | k in m && k !in edits :: m[k]) + (map k | k in edits && edits[k].Some? :: edits[k].value)
  }

  function EditOf(c: Change): Option<Value> {
    if c.delete then None else Some(Value(c.data, c.version))
  }

  lemma {:induction false} OverlayStep(m: map<Key, Value>, edits: map<Key, Option<Value>>, c: Change)
    ensures Overlay(m, edits[c.key := EditOf(c)]) == ApplyChange(Overlay(m, edits), c)
  {
  }

  /** Records the changes of one delta as the latest edits of their keys. */
  method FoldChanges(base: map<Key, Value>, before: map<Key, Option<Value>>, cs: seq<Change>)
    returns (latest: map<Key, Option<Value>>)
    ensures Overlay(base, latest) == ApplyChanges(Overlay(base, before), cs)
  {
    latest := before;
    for j := 0 to |cs|
      invariant Overlay(base, latest) == ApplyChanges(Overlay(base, before), cs[..j])
    {
      assert cs[..j + 1][..j] == cs[..j];
      OverlayStep(base, latest, cs[j]);
      latest := latest[cs[j].key := EditOf(cs[j])];
    }
    assert cs[..|cs|] == cs;
  }

  lemma {:induction false} LiveExpiriesStep(ds: seq<Delta>, i: nat, now: Time)
    requires i < |ds|
    ensures LiveExpiries(ds[..i + 1], now) ==
            LiveExpiries(ds[..i], now) + (if now < ds[i].retainUntil then {Expiry(ds[i].retainUntil, ds[i].id)} else {})
  {
    assert ds[..i + 1] == ds[..i] + [ds[i]];
  }

  /** One pass over the window fills the latest values, the live outcomes and their expiries. */
  method FoldWindow(base: map<Key, Value>, ds: seq<Delta>, now: Time)
    returns (latest: map<Key, Option<Value>>, outcomes: map<MutationId, Outcome>, expiries: set<Expiry>)
    ensures Overlay(base, latest) == ApplyDeltas(base, ds)
    ensures outcomes == LiveOutcomes(ds, now)
    ensures expiries == LiveExpiries(ds, now)
  {
    latest, outcomes, expiries := map[], map[], {};
    for i := 0 to |ds|
      invariant Overlay(base, latest) == ApplyDeltas(base, ds[..i])
      invariant outcomes == LiveOutcomes(ds[..i], now)
      invariant expiries == LiveExpiries(ds[..i], now)
    {
      var d := ds[i];
      assert ds[..i + 1][..i] == ds[..i];
      LiveExpiriesStep(ds, i, now);
      latest := FoldChanges(base, latest, d.changes);
      if now < d.retainUntil {
        outcomes := outcomes[d.id := OutcomeOf(d)];
        expiries := expiries + {Expiry(d.retainUntil, d.id)};
      }
    }
    assert ds[..|ds|] == ds;
  }

  lemma {:induction false} LeastExpiry(es: set<Expiry>) returns (e: Expiry)
    requires es != {}
    ensures e in es && forall x :: x in es && x != e ==> Earlier(e, x)
  {
    e :| e in es;
    if es != {e} {
      var f := LeastExpiry(es - {e});
      assert forall x :: x in es ==> x == e || x in es - {e};
      if Earlier(f, e) { e := f; }
    }
  }

  /** The first page of the expiry tree, in order. */
  method FirstExpiries(es: set<Expiry>, limit: nat) returns (page: seq<Expiry>)
    ensures |page| == Min(limit, |es|)
    ensures forall i, j :: 0 <= i < j < |page| ==> Earlier(page[i], page[j])
    ensures forall e :: e in page ==> e in es
    ensures forall e, i :: e in es && e !in page && 0 <= i < |page| ==> Earlier(page[i], e)
  {
    page := [];
    var rest := es;
    while |page| < limit && rest != {}
      invariant |page| <= limit && |page| + |rest| == |es|
      invariant forall i, j :: 0 <= i < j < |page| ==> Earlier(page[i], page[j])
      invariant forall e :: e in es <==> e in page || e in rest
      invariant forall e, i :: e in rest && 0 <= i < |page| ==> Earlier(page[i], e)
    {
      ghost var least := LeastExpiry(rest);
      var e :| e in rest && forall x :: x in rest && x != e ==> Earlier(e, x);
      page := page + [e];
      rest := rest - {e};
    }
  }

  lemma {:induction false} PrefixSetSize(page: seq<Expiry>, n: nat)
    requires n <= |page|
    requires forall i, j :: 0 <= i < j < |page| ==> Earlier(page[i], page[j])
    ensures |set i | 0 <= i < n :: page[i]| == n
  {
    if n > 0 {
      PrefixSetSize(page, n - 1);
      var before := set i | 0 <= i < n - 1 :: page[i];
      assert (set i | 0 <= i < n :: page[i]) == before + {page[n - 1]};
    }
  }

  /** An entry is on the first page exactly when fewer than a page of entries precede it. */
  lemma {:induction false} FirstPageByRank(es: set<Expiry>, page: seq<Expiry>, limit: nat, e: Expiry)
    requires e in es
    requires |page| == Min(limit, |es|)
    requires forall i, j :: 0 <= i < j < |page| ==> Earlier(page[i], page[j])
    requires forall x :: x in page ==> x in es
    requires forall x, i :: x in es && x !in page && 0 <= i < |page| ==> Earlier(page[i], x)
    ensures e in page <==> |Preceding(es, e)| < limit
  {
    if e in page {
      RankOnPage(es, page, e);
    } else {
      var all := set i | 0 <= i < |page| :: page[i];
      PrefixSetSize(page, |page|);
      assert all <= Preceding(es, e);
      Subset(all, Preceding(es, e));
      assert all + {e} <= es;
      Subset(all + {e}, es);
    }
  }

  lemma {:induction false} RankOnPage(es: set<Expiry>, page: seq<Expiry>, e: Expiry)
    requires e in page
    requires forall i, j :: 0 <= i < j < |page| ==> Earlier(page[i], page[j])
    requires forall x :: x in page ==> x in es
    requires forall x, i :: x in es && x !in page && 0 <= i < |page| ==> Earlier(page[i], x)
    ensures |Preceding(es, e)| < |page|
  {
    var n :| 0 <= n < |page| && page[n] == e;
    PrefixSetSize(page, n);
    var before := set i | 0 <= i < n :: page[i];
    forall x ensures x in Preceding(es, e) <==> x in before {
      if x in Preceding(es, e) {
        assert x in page;
        var i :| 0 <= i < |page| && page[i] == x;
        assert i < n;
      }
    }
    assert Preceding(es, e) == before;
  }

  /**
    * Visits the first expiry page in order, up to the first entry that is still
    * retained. An outcome that this batch rewrites is not deleted.
    */
  method PruneExpiredOutcomes(
    outcomes: map<MutationId, Outcome>, expiry: set<Expiry>, now: Time,
    live: map<MutationId, Outcome>, added: set<Expiry>)
    returns (nextOutcomes: map<MutationId, Outcome>, nextExpiry: set<Expiry>)
    ensures nextOutcomes == (outcomes - Dropped(expiry, live, now)) + live
    ensures nextExpiry == (expiry + added) - Prunable(expiry, now)
  {
    var page := FirstExpiries(expiry, PAGE_ITEMS);
    var expired: set<Expiry>, deletions: set<MutationId> := {}, {};
    var n := 0;
    while n < |page| && page[n].time <= now
      invariant 0 <= n <= |page|
      invariant forall i :: 0 <= i < n ==> page[i].time <= now
      invariant forall e :: e in expired <==> e in page[..n]
      invariant deletions == set e | e in expired && e.id !in live :: e.id
    {
      expired := expired + {page[n]};
      if page[n].id !in live { deletions := deletions + {page[n].id}; }
      n := n + 1;
    }
    PageSplit(expiry, page, n, now, expired);
    nextOutcomes := (outcomes - deletions) + live;
    nextExpiry := (expiry + added) - expired;
  }

  lemma {:induction false} PageSplit(es: set<Expiry>, page: seq<Expiry>, n: nat, now: Time, expired: set<Expiry>)
    requires |page| == Min(PAGE_ITEMS, |es|)
    requires forall i, j :: 0 <= i < j < |page| ==> Earlier(page[i], page[j])
    requires forall x :: x in page ==> x in es
    requires forall x, i :: x in es && x !in page && 0 <= i < |page| ==> Earlier(page[i], x)
    requires n <= |page| && (forall i :: 0 <= i < n ==> page[i].time <= now)
    requires n < |page| ==> now < page[n].time
    requires forall e :: e in expired <==> e in page[..n]
    ensures expired == Prunable(es, now)
  {
    forall e | e in es
      ensures e in Prunable(es, now) <==> e in page[..n]
    {
      FirstPageByRank(es, page, PAGE_ITEMS, e);
      if e in page && e.time <= now {
        var i :| 0 <= i < |page| && page[i] == e;
        assert i < n;
        assert page[..n][i] == e;
      }
    }
  }

  /** compactSnapshot, from the loaded head to the head it tries to publish. */
  method CompactSnapshot(h: Head, now: Time) returns (next: Head)
    ensures next == Compacted(h, now)
  {
    var latest, live, added := FoldWindow(h.base, h.deltas, now);
    var outcomes, expiry := PruneExpiredOutcomes(h.outcomes, h.expiry, now, live, added);
    next := h.(base := Overlay(h.base, latest), outcomes := outcomes, expiry := expiry,
               baseRevision := h.revision, deltas := []);
  }

  // ----------------------------------------------------------- materialised

  lemma {:induction false} OneMoreDelta(base: map<Key, Value>, ds: seq<Delta>, d: Delta, now: Time)
    requires now < d.retainUntil
    ensures ApplyDeltas(base, ds + [d]) == ApplyChanges(ApplyDeltas(base, ds), d.changes)
    ensures LiveOutcomes(ds + [d], now) == LiveOutcomes(ds, now)[d.id := OutcomeOf(d)]
    ensures LiveExpiries(ds + [d], now) == LiveExpiries(ds, now) + {Expiry(d.retainUntil, d.id)}
  {
    assert (ds + [d])[..|ds|] == ds;
    assert (ds + [d])[..|ds| + 1] == ds + [d];
    LiveExpiriesStep(ds + [d], |ds|, now);
  }

  /** mutateMaterializedPrepared: the window and the new mutation folded into the trees at once. */
  method Materialize(h: Head, m: Mutation, f: Fingerprint, now: Time) returns (next: Head)
    requires h.registered && now < m.retainUntil
    ensures next == Compacted(Mutated(h, m, f), now)
  {
    var latest, live, added := FoldWindow(h.base, h.deltas, now);
    var d := DeltaOf(m, f, h.revision + 1);
    OneMoreDelta(h.base, h.deltas, d, now);
    latest := FoldChanges(h.base, latest, d.changes);
    live := live[m.id := OutcomeOf(d)];
    added := added + {Expiry(m.retainUntil, m.id)};
    var outcomes, expiry := PruneExpiredOutcomes(h.outcomes, h.expiry, now, live, added);
    next := h.(base := Overlay(h.base, latest), outcomes := outcomes, expiry := expiry,
               revision := h.revision + 1, baseRevision := h.revision + 1, deltas := []);
  }
}
