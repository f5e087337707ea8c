/**
  * Greedy grouping of members into size-bounded canonical pages. A page is its
  * header and a compact array: a member costs its own bytes, and a comma after
  * the first. The header size, member sizes and limit are parameters.
  */
module PageGroups {
  import opened Basics

  const PAGE_ITEMS := 256

  /** Bytes of the array body: every member and a comma after each one but the last. */
  function Body<T>(items: seq<T>, size: T -> nat): nat {
    if items == [] then 0
    else if |items| == 1 then size(items[0])
    else Body(items[..|items| - 1], size) + 1 + size(items[|items| - 1])
  }

  predicate PageFits<T>(items: seq<T>, size: T -> nat, header: nat, limit: nat) {
    |items| <= PAGE_ITEMS && header + Body(items, size) <= limit
  }

  predicate FitsAlone<T>(item: T, size: T -> nat, header: nat, limit: nat) {
    header + size(item) <= limit
  }

  /** Grows a prefix of n members and `used` bytes while the next member still fits. */
  function Extend<T>(items: seq<T>, size: T -> nat, limit: nat, used: nat, n: nat): (m: nat)
    requires n <= |items|
    ensures n <= m <= |items|
    decreases |items| - n
  {
    if n < |items| && n < PAGE_ITEMS && used + 1 + size(items[n]) <= limit then
      Extend(items, size, limit, used + 1 + size(items[n]), n + 1)
    else n
  }

  /** How many members the next page takes; zero when the first does not fit even alone. */
  function PagePrefix<T>(items: seq<T>, size: T -> nat, header: nat, limit: nat): (n: nat)
    ensures n <= |items|
  {
    if items == [] || !FitsAlone(items[0], size, header, limit) then 0
    else Extend(items, size, limit, header + size(items[0]), 1)
  }

  function Groups<T>(items: seq<T>, size: T -> nat, header: nat, limit: nat): (r: Option<seq<seq<T>>>)
    ensures r.Some? ==> forall i :: 0 <= i < |r.value| ==> r.value[i] != []
    decreases |items|
  {
    if items == [] then Some([])
    else
      var n := PagePrefix(items, size, header, limit);
      if n == 0 then None
      else
        Prepend([items[..n]], Groups(items[n..], size, header, limit))
  }

  function Prepend<T>(gs: seq<seq<T>>, rest: Option<seq<seq<T>>>): Option<seq<seq<T>>> {
    if rest.None? then None else Some(gs + rest.value)
  }

  function Flatten<T>(gs: seq<seq<T>>): seq<T> {
    if gs == [] then [] else gs[0] + Flatten(gs[1..])
  }

  // ------------------------------------------------------------ properties

  lemma {:induction false} BodyStep<T>(items: seq<T>, size: T -> nat, n: nat)
    requires 1 <= n < |items|
    ensures Body(items[..n + 1], size) == Body(items[..n], size) + 1 + size(items[n])
  {
    assert items[..n + 1][..n] == items[..n];
  }

  /** The prefix is the longest one that fits. */
  lemma {:induction false} ExtendIsMaximal<T>(items: seq<T>, size: T -> nat, header: nat, limit: nat, n: nat)
    requires 1 <= n <= |items| && PageFits(items[..n], size, header, limit)
    ensures var m := Extend(items, size, limit, header + Body(items[..n], size), n);
            PageFits(items[..m], size, header, limit) && (m < |items| ==> !PageFits(items[..m + 1], size, header, limit))
    decreases |items| - n
  {
    if n < |items| {
      BodyStep(items, size, n);
      if n < PAGE_ITEMS && header + Body(items[..n + 1], size) <= limit {
        ExtendIsMaximal(items, size, header, limit, n + 1);
      }
    }
  }

  lemma {:induction false} PrefixIsMaximal<T>(items: seq<T>, size: T -> nat, header: nat, limit: nat)
    requires items != []
    ensures var n := PagePrefix(items, size, header, limit);
            && (n == 0 <==> !FitsAlone(items[0], size, header, limit))
            && (0 < n ==> PageFits(items[..n], size, header, limit))
            && (0 < n < |items| ==> !PageFits(items[..n + 1], size, header, limit))
  {
    if FitsAlone(items[0], size, header, limit) {
      assert items[..1] == [items[0]];
      ExtendIsMaximal(items, size, header, limit, 1);
    }
  }

  lemma {:induction false} MemberFitsAlone<T>(items: seq<T>, size: T -> nat, i: nat)
    requires i < |items|
    ensures size(items[i]) <= Body(items, size)
  {
    if 1 < |items| && i < |items| - 1 { MemberFitsAlone(items[..|items| - 1], size, i); }
  }

  /** Grouping fails exactly when some member does not fit in a page of its own. */
  lemma {:induction false} GroupsFailIff<T>(items: seq<T>, size: T -> nat, header: nat, limit: nat)
    ensures Groups(items, size, header, limit).Some? <==>
            forall i :: 0 <= i < |items| ==> FitsAlone(items[i], size, header, limit)
    decreases |items|
  {
    if items != [] {
      PrefixIsMaximal(items, size, header, limit);
      var n := PagePrefix(items, size, header, limit);
      if 0 < n {
        GroupsFailIff(items[n..], size, header, limit);
        forall i | 0 <= i < |items|
          ensures FitsAlone(items[i], size, header, limit) <== i < n || FitsAlone(items[n..][i - n], size, header, limit)
        {
          if i < n { MemberFitsAlone(items[..n], size, i); }
        }
        assert forall i :: 0 <= i < |items[n..]| ==> items[n..][i] == items[n + i];
      }
    }
  }

  /** The groups are the items, cut into non-empty pages that fit, each as long as it could be. */
  ghost predicate Greedy<T>(gs: seq<seq<T>>, size: T -> nat, header: nat, limit: nat) {
    && (forall i :: 0 <= i < |gs| ==> gs[i] != [] && PageFits(gs[i], size, header, limit))
    && (forall i :: 0 <= i < |gs| - 1 ==> !PageFits(gs[i] + [gs[i + 1][0]], size, header, limit))
  }

  lemma {:induction false} GroupsAreGreedy<T>(items: seq<T>, size: T -> nat, header: nat, limit: nat)
    requires Groups(items, size, header, limit).Some?
    ensures var gs := Groups(items, size, header, limit).value;
            Flatten(gs) == items && (forall i :: 0 <= i < |gs| ==> gs[i] != []) && Greedy(gs, size, header, limit)
    decreases |items|
  {
    if items != [] {
      PrefixIsMaximal(items, size, header, limit);
      var n := PagePrefix(items, size, header, limit);
      GroupsAreGreedy(items[n..], size, header, limit);
      var rest := Groups(items[n..], size, header, limit).value;
      assert Flatten([items[..n]] + rest) == items[..n] + Flatten(rest) by { assert ([items[..n]] + rest)[1..] == rest; }
      hide PageFits, PagePrefix;
      if rest != [] {
        assert rest[0][0] == Flatten(rest)[0] == items[n];
        assert items[..n] + [items[n]] == items[..n + 1];
      }
      var gs := [items[..n]] + rest;
      forall i | 0 <= i < |gs| - 1
        ensures !PageFits(gs[i] + [gs[i + 1][0]], size, header, limit)
      {
        if 0 < i { assert gs[i] == rest[i - 1] && gs[i + 1] == rest[i]; }
      }
    }
  }

  // -------------------------------------------------------------- execution

  /** canonicalDomainPagePrefix: sizes the first member with its page, then one member at a time. */
  method CanonicalPagePrefix<T>(items: seq<T>, size: T -> nat, header: nat, limit: nat) returns (n: nat)
    requires 0 < |items| <= PAGE_ITEMS
    ensures n == PagePrefix(items, size, header, limit)
  {
    if header + size(items[0]) > limit { return 0; }
    var encoded: nat := header + size(items[0]);
    n := 1;
    while n < |items|
      invariant 1 <= n <= |items|
      invariant PagePrefix(items, size, header, limit) == Extend(items, size, limit, encoded, n)
    {
      if encoded + 1 + size(items[n]) > limit { return; }
      encoded := encoded + 1 + size(items[n]);
      n := n + 1;
    }
  }

  lemma {:induction false} ExtendWindow<T>(items: seq<T>, size: T -> nat, limit: nat, used: nat, n: nat)
    requires n <= PAGE_ITEMS < |items|
    ensures Extend(items[..PAGE_ITEMS], size, limit, used, n) == Extend(items, size, limit, used, n)
    decreases |items| - n
  {
    if n < PAGE_ITEMS && used + 1 + size(items[n]) <= limit {
      ExtendWindow(items, size, limit, used + 1 + size(items[n]), n + 1);
    }
  }

  /** Looking at one page of items is enough to cut the next page. */
  lemma {:induction false} PrefixWindow<T>(items: seq<T>, size: T -> nat, header: nat, limit: nat, offset: nat)
    requires offset < |items|
    ensures PagePrefix(items[offset..Min(|items|, offset + PAGE_ITEMS)], size, header, limit) ==
            PagePrefix(items[offset..], size, header, limit)
  {
    var rest := items[offset..];
    if |items| > offset + PAGE_ITEMS {
      assert items[offset..offset + PAGE_ITEMS] == rest[..PAGE_ITEMS];
      if FitsAlone(rest[0], size, header, limit) { ExtendWindow(rest, size, limit, header + size(rest[0]), 1); }
    } else {
      assert items[offset..|items|] == rest;
    }
  }

  lemma {:induction false} CutStep<T>(items: seq<T>, size: T -> nat, header: nat, limit: nat, offset: nat, groups: seq<seq<T>>)
    requires offset < |items|
    ensures var n := PagePrefix(items[offset..], size, header, limit);
            && (n == 0 ==> Groups(items[offset..], size, header, limit) == None)
            && (0 < n ==> Prepend(groups, Groups(items[offset..], size, header, limit)) ==
                          Prepend(groups + [items[offset..offset + n]], Groups(items[offset + n..], size, header, limit)))
  {
    var n := PagePrefix(items[offset..], size, header, limit);
    if 0 < n {
      assert items[offset..][n..] == items[offset + n..];
      assert items[offset..][..n] == items[offset..offset + n];
      var rest := Groups(items[offset + n..], size, header, limit);
      if rest.Some? {
        assert groups + ([items[offset..offset + n]] + rest.value) == (groups + [items[offset..offset + n]]) + rest.value;
      }
    }
  }

  lemma {:induction false} PrependNothing<T>(rest: Option<seq<seq<T>>>)
    ensures Prepend([], rest) == rest
  {
    if rest.Some? { assert [] + rest.value == rest.value; }
  }

  lemma {:induction false} NoMoreGroups<T>(items: seq<T>, size: T -> nat, header: nat, limit: nat)
    ensures Groups(items[|items|..], size, header, limit) == Some([])
  {
  }

  /** leafGroups and branchGroups: repeated maximal prefixes of at most a page of items. */
  method CutGroups<T>(items: seq<T>, size: T -> nat, header: nat, limit: nat) returns (r: Option<seq<seq<T>>>)
    ensures r == Groups(items, size, header, limit)
  {
    hide Groups, PagePrefix;
    var groups: seq<seq<T>> := [];
    var offset := 0;
    assert items[0..] == items;
    NoMoreGroups(items, size, header, limit);
    PrependNothing(Groups(items, size, header, limit));
    while offset < |items|
      invariant 0 <= offset <= |items|
      invariant Groups(items, size, header, limit) == Prepend(groups, Groups(items[offset..], size, header, limit))
    {
      PrefixWindow(items, size, header, limit, offset);
      CutStep(items, size, header, limit, offset, groups);
      var count := CanonicalPagePrefix(items[offset..Min(|items|, offset + PAGE_ITEMS)], size, header, limit);
      if count == 0 { return None; }
      groups := groups + [items[offset..offset + count]];
      offset := offset + count;
    }
    assert groups + [] == groups;
    r := Some(groups);
  }
}
