/** What a caller submits, and the normal form in which the protocol handles it. */
module HeadNormalize {
  import opened Basics
  import opened DomainHead

  predicate ByKey(rs: seq<Request>) {
    forall i, j :: 0 <= i < j < |rs| ==> rs[i].key <= rs[j].key
  }

  /** What one request must look like. */
  predicate WellFormed(r: Request) {
    0 < r.key && (r.require == Present || r.expected == NoVersion) && (r.delete ==> r.data == [])
  }

  /** Requests that normalisation accepts, in whatever order they come. */
  predicate Acceptable(rs: seq<Request>) {
    && rs != [] && (forall i :: 0 <= i < |rs| ==> WellFormed(rs[i]))
    && forall i, j :: 0 <= i < j < |rs| ==> rs[i].key != rs[j].key
  }

  /** sort.Slice by key. */
  method SortRequests(rs: seq<Request>) returns (sorted: seq<Request>)
    ensures ByKey(sorted) && multiset(sorted) == multiset(rs)
  {
    sorted := [];
    for n := 0 to |rs|
      invariant ByKey(sorted) && multiset(sorted) == multiset(rs[..n])
    {
      sorted := InsertRequest(sorted, rs[n]);
      assert rs[..n + 1] == rs[..n] + [rs[n]];
    }
    assert rs[..|rs|] == rs;
  }

  method InsertRequest(rs: seq<Request>, r: Request) returns (out: seq<Request>)
    requires ByKey(rs)
    ensures ByKey(out) && multiset(out) == multiset(rs) + multiset{r}
  {
    var n := |rs|;
    while 0 < n && r.key < rs[n - 1].key
      invariant 0 <= n <= |rs| && forall i :: n <= i < |rs| ==> r.key < rs[i].key
    {
      n := n - 1;
    }
    out := rs[..n] + [r] + rs[n..];
    Inserted(rs, n, r);
  }

  lemma {:induction false} Inserted(rs: seq<Request>, n: nat, r: Request)
    requires ByKey(rs) && n <= |rs| && (0 < n ==> rs[n - 1].key <= r.key) && (n < |rs| ==> r.key <= rs[n].key)
    ensures ByKey(rs[..n] + [r] + rs[n..])
    ensures multiset(rs[..n] + [r] + rs[n..]) == multiset(rs) + multiset{r}
  {
    InsertedInOrder(rs, n, r);
    hide ByKey;
    assert rs == rs[..n] + rs[n..];
  }

  lemma {:induction false} InsertedInOrder(rs: seq<Request>, n: nat, r: Request)
    requires ByKey(rs) && n <= |rs| && (0 < n ==> rs[n - 1].key <= r.key) && (n < |rs| ==> r.key <= rs[n].key)
    ensures ByKey(rs[..n] + [r] + rs[n..])
  {
    var out := rs[..n] + [r] + rs[n..];
    forall i, j | 0 <= i < j < |out| ensures out[i].key <= out[j].key {
      var a, b := if i < n then rs[i] else r, if j <= n then r else rs[j - 1];
      assert i < n ==> rs[i].key <= rs[n - 1].key;
      assert n < j ==> rs[n].key <= rs[j - 1].key;
    }
  }

  /** The same requests in another order are acceptable together. */
  lemma {:induction false} SameRequests(a: seq<Request>, b: seq<Request>)
    requires multiset(a) == multiset(b) && Acceptable(a)
    ensures Acceptable(b)
  {
    hide WellFormed;
    assert |a| == |multiset(a)| == |multiset(b)| == |b|;
    forall i | 0 <= i < |b| ensures WellFormed(b[i]) { assert b[i] in multiset(a); }
    forall i, j | 0 <= i < j < |b| ensures b[i].key != b[j].key {
      assert b[i] in multiset(a) && b[j] in multiset(a);
      if b[i].key == b[j].key { TwiceThere(a, b, i, j); }
    }
  }

  lemma {:induction false} TwiceThere(a: seq<Request>, b: seq<Request>, i: nat, j: nat)
    requires multiset(a) == multiset(b) && i < j < |b| && b[i].key == b[j].key
    ensures exists k, l :: 0 <= k < l < |a| && a[k].key == a[l].key
  {
    assert b[i] in multiset(a) && b[j] in multiset(a);
    var k :| 0 <= k < |a| && a[k] == b[i];
    if b[i] == b[j] {
      assert multiset(b)[b[i]] >= 2 by {
        assert b == b[..j] + [b[j]] + b[j + 1..];
        assert b[i] in b[..j];
      }
      var rest := a[..k] + a[k + 1..];
      assert a == a[..k] + [a[k]] + a[k + 1..];
      assert multiset(rest)[b[i]] == multiset(a)[b[i]] - 1;
      assert b[i] in multiset(rest);
      var l :| 0 <= l < |rest| && rest[l] == b[i];
      var m := if l < k then l else l + 1;
      assert a[m] == b[i] && m != k;
      if m < k { assert a[m].key == a[k].key; } else { assert a[k].key == a[m].key; }
    } else {
      var l :| 0 <= l < |a| && a[l] == b[j];
      assert k != l;
      if l < k { assert a[l].key == a[k].key; } else { assert a[k].key == a[l].key; }
    }
  }

  /**
    * normalizeConsistencyDomainMutation: accepts exactly the acceptable requests, in any
    * order, and answers the mutation with its requests in key order and the fingerprint that
    * commits to them and to the result.
    */
  method NormalizeMutation(m: Mutation, materialized: bool) returns (r: Result<(Mutation, Fingerprint), ErrorKind>)
    ensures r.Ok? <==> Acceptable(m.requests)
    ensures r.Err? ==> r.error == Invalid
    ensures r.Ok? ==>
              var (n, f) := r.value;
              && Normalized(n) && multiset(n.requests) == multiset(m.requests)
              && n == m.(requests := n.requests) && f == Intent(materialized, n.requests, m.result)
  {
    if m.requests == [] { return Err(Invalid); }
    var requests := SortRequests(m.requests);
    assert |requests| == |multiset(requests)| == |multiset(m.requests)| == |m.requests|;
    if Acceptable(m.requests) { SameRequests(m.requests, requests); }
    var previous := 0;
    for i := 0 to |requests|
      invariant previous == if i == 0 then 0 else requests[i - 1].key
      invariant forall k :: 0 <= k < i ==> WellFormed(requests[k])
      invariant forall j, k :: 0 <= j < k < i ==> requests[j].key < requests[k].key
    {
      var q := requests[i];
      if q.key == 0 || q.key == previous || (q.require != Present && q.expected != NoVersion) || (q.delete && |q.data| != 0) {
        assert 0 < i && q.key == previous ==> requests[i - 1].key == requests[i].key;
        return Err(Invalid);
      }
      previous := q.key;
    }
    SameRequests(requests, m.requests);
    var n := m.(requests := requests);
    r := Ok((n, FingerprintOf(n, materialized)));
  }

  /** Requests in another order are the same mutation: its normal form and fingerprint do not depend on the order. */
  lemma {:induction false} OrderIsIrrelevant(a: Mutation, b: Mutation)
    requires Normalized(a) && Normalized(b) && multiset(a.requests) == multiset(b.requests)
    ensures a.requests == b.requests
  {
    forall r ensures r in a.requests <==> r in b.requests {
      assert r in a.requests <==> r in multiset(a.requests);
      assert r in b.requests <==> r in multiset(b.requests);
    }
    SortedIsUnique(a.requests, b.requests);
  }

  lemma {:induction false} SameFirst(a: seq<Request>, b: seq<Request>)
    requires a != [] && b != [] && a[0] in b && b[0] in a
    requires forall i, j :: 0 <= i < j < |a| ==> a[i].key < a[j].key
    requires forall i, j :: 0 <= i < j < |b| ==> b[i].key < b[j].key
    ensures a[0] == b[0]
  {
    var i :| 0 <= i < |b| && b[i] == a[0];
    var j :| 0 <= j < |a| && a[j] == b[0];
    assert i == 0;
  }

  lemma {:induction false} TailMembers(a: seq<Request>, r: Request)
    requires a != [] && forall i, j :: 0 <= i < j < |a| ==> a[i].key < a[j].key
    ensures r in a[1..] <==> r in a && r != a[0]
  {
    if r in a[1..] {
      var i :| 0 <= i < |a| - 1 && a[1..][i] == r;
      assert a[i + 1] == r && a[0].key < a[i + 1].key;
    }
  }

  lemma {:induction false} SortedIsUnique(a: seq<Request>, b: seq<Request>)
    requires forall r :: r in a <==> r in b
    requires forall i, j :: 0 <= i < j < |a| ==> a[i].key < a[j].key
    requires forall i, j :: 0 <= i < j < |b| ==> b[i].key < b[j].key
    ensures a == b
    decreases |a|
  {
    assert b != [] ==> b[0] in a;
    if a != [] {
      assert a[0] in b && b != [];
      SameFirst(a, b);
      forall r ensures r in a[1..] <==> r in b[1..] {
        TailMembers(a, r);
        TailMembers(b, r);
      }
      SortedIsUnique(a[1..], b[1..]);
      assert a == [a[0]] + a[1..] && b == [b[0]] + b[1..];
    }
  }
}
