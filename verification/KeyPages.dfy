/** The first members of a set of keys, in order. */
module KeyPages {
  import opened Basics

  /** The first n members of a set: ascending, no more than n, and nothing left out lies below them. */
  ghost predicate IsFirst(page: seq<Key>, s: set<Key>, n: nat) {
    && Ascending(page) && |page| == Min(n, |s|)
    && (forall i :: 0 <= i < |page| ==> page[i] in s)
    && (forall x, i :: x in s && x !in page && 0 <= i < |page| ==> page[i] < x)
  }

  lemma {:induction false} Members(page: seq<Key>, n: nat) returns (s: set<Key>)
    requires Ascending(page) && n <= |page|
    ensures |s| == n && forall k :: k in s <==> k in page[..n]
  {
    if n == 0 {
      s := {};
    } else {
      s := Members(page, n - 1);
      assert page[..n] == page[..n - 1] + [page[n - 1]];
      s := s + {page[n - 1]};
    }
  }

  lemma {:induction false} LeastKey(s: set<Key>) returns (k: Key)
    requires s != {}
    ensures k in s && forall x :: x in s && x != k ==> k < x
  {
    k :| k in s;
    if s != {k} {
      var j := LeastKey(s - {k});
      assert forall x :: x in s ==> x == k || x in s - {k};
      if j < k { k := j; }
    }
  }

  /** Sorting a set of keys and keeping the first n. */
  method SortKeys(s: set<Key>, n: nat) returns (page: seq<Key>)
    ensures IsFirst(page, s, n)
  {
    page := [];
    var rest := s;
    while |page| < n && rest != {}
      invariant |page| <= n && |page| + |rest| == |s| && Ascending(page)
      invariant forall x :: x in s <==> x in page || x in rest
      invariant forall x, i :: x in rest && 0 <= i < |page| ==> page[i] < x
    {
      ghost var least := LeastKey(rest);
      var k :| k in rest && forall x :: x in rest && x != k ==> k < x;
      page := page + [k];
      rest := rest - {k};
    }
  }

  lemma {:induction false} FullPage(page: seq<Key>, s: set<Key>, n: nat, x: Key)
    requires IsFirst(page, s, n) && x in s && x !in page
    ensures |page| == n
  {
    var all := Members(page, |page|);
    assert page[..|page|] == page;
    Subset(all + {x}, s);
  }

  /** A page that may hold the whole set holds it. */
  lemma {:induction false} WholeSet(page: seq<Key>, s: set<Key>)
    requires IsFirst(page, s, |s|)
    ensures forall k :: k in s <==> k in page
  {
    var all := Members(page, |page|);
    assert page[..|page|] == page;
    forall k | k in s ensures k in page {
      if k !in page { Subset(all + {k}, s); }
    }
  }
}
