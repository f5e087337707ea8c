/**
  * Upload recovery pages: a JSON array of items within a byte bound. When the full
  * items do not fit, every item first gets a short placeholder, and full items then
  * take their places while they fit.
  */
module ResponsePage {
  import opened Basics

  const MAX_BODY: nat := 1048576

  const MAX_ITEMS: nat := 100

  const COMMA: nat := 44

  /** The bytes of {"uploads":[ and of ]} and of {"uploads":null}. */
  const PREFIX: Bytes := [123, 34, 117, 112, 108, 111, 97, 100, 115, 34, 58, 91]

  const SUFFIX: Bytes := [93, 125]

  const NULL_PAGE: Bytes := [123, 34, 117, 112, 108, 111, 97, 100, 115, 34, 58, 110, 117, 108, 108, 125]

  /** The members of the array with commas between them. */
  function Joined(items: seq<Bytes>): Bytes {
    if items == [] then []
    else Joined(items[..|items| - 1]) + (if |items| == 1 then [] else [COMMA]) + items[|items| - 1]
  }

  function Page(items: seq<Bytes>): Bytes {
    PREFIX + Joined(items) + SUFFIX
  }

  function Total(items: seq<Bytes>): nat {
    if items == [] then 0 else Total(items[..|items| - 1]) + |items[|items| - 1]|
  }

  /** A page is its frame, its members and one comma fewer than members. */
  lemma {:induction false} PageSize(items: seq<Bytes>)
    ensures |Joined(items)| == Total(items) + (if items == [] then 0 else |items| - 1)
    ensures |Page(items)| == |PREFIX| + |SUFFIX| + |Joined(items)|
  {
    if items != [] { PageSize(items[..|items| - 1]); }
  }

  lemma {:induction false} JoinedGrows(items: seq<Bytes>, n: nat)
    requires n <= |items|
    ensures |Joined(items[..n])| <= |Joined(items)|
    decreases |items|
  {
    if n < |items| {
      JoinedGrows(items[..|items| - 1], n);
      assert items[..|items| - 1][..n] == items[..n];
    } else {
      assert items[..n] == items;
    }
  }

  lemma {:induction false} JoinedNext(items: seq<Bytes>, n: nat)
    requires n < |items|
    ensures Joined(items[..n + 1]) == Joined(items[..n]) + (if n == 0 then [] else [COMMA]) + items[n]
  {
    assert items[..n + 1][..n] == items[..n];
  }

  /** A nil page is null; any other page is given whole, or overflows exactly when it is over the bound. */
  method EncodeBounded(items: Option<seq<Bytes>>) returns (body: Option<Bytes>)
    ensures items.None? ==> body == Some(NULL_PAGE)
    ensures items.Some? ==> body == if |Page(items.value)| <= MAX_BODY then Some(Page(items.value)) else None
  {
    if items.None? { return Some(NULL_PAGE); }
    var all := items.value;
    var buffer, overflow := PREFIX, false;
    for n := 0 to |all|
      invariant !overflow ==> buffer == PREFIX + Joined(all[..n]) && |buffer| + 2 <= MAX_BODY
      invariant overflow ==> |Page(all)| > MAX_BODY
    {
      JoinedNext(all, n);
      JoinedGrows(all, n + 1);
      PageSize(all);
      if MAX_BODY < |buffer| + |all[n]| + Min(n, 1) + 2 {
        overflow := true;
      }
      if !overflow {
        if n != 0 { buffer := buffer + [COMMA]; }
        buffer := buffer + all[n];
      }
    }
    assert all[..|all|] == all;
    PageSize(all);
    if overflow { return None; }
    return Some(buffer + SUFFIX);
  }

  datatype Item = Item(full: Bytes, deferred: Bytes)

  function Fulls(items: seq<Item>): seq<Bytes> {
    seq(|items|, i requires 0 <= i < |items| => items[i].full)
  }

  function Deferreds(items: seq<Item>): seq<Bytes> {
    seq(|items|, i requires 0 <= i < |items| => items[i].deferred)
  }

  function Delta(item: Item): int {
    |item.full| - |item.deferred|
  }

  lemma {:induction false} TotalUpdate(items: seq<Bytes>, i: nat, item: Bytes)
    requires i < |items|
    ensures Total(items[i := item]) == Total(items) - |items[i]| + |item|
  {
    var n := |items| - 1;
    if i == n {
      assert items[i := item][..n] == items[..n];
    } else {
      TotalUpdate(items[..n], i, item);
      assert items[i := item][..n] == items[..n][i := item];
    }
  }

  // ------------------------------------------------------------- admission

  /** The size of the page when item n is considered: placeholders everywhere but at the admitted items before it. */
  function Used(items: seq<Item>, n: nat): int
    requires n <= |items|
    decreases n, 0
  {
    if n == 0 then |Page(Deferreds(items))|
    else Used(items, n - 1) + if Admitted(items, n - 1) then Delta(items[n - 1]) else 0
  }

  predicate Admitted(items: seq<Item>, n: nat)
    requires n < |items|
    decreases n, 1
  {
    Used(items, n) + Delta(items[n]) <= MAX_BODY
  }

  /** The members of the page: the full item where it was admitted, else its placeholder. */
  function Selection(items: seq<Item>): seq<Bytes> {
    Selected(items, |items|)
  }

  function Selected(items: seq<Item>, n: nat): seq<Bytes>
    requires n <= |items|
  {
    seq(|items|, i requires 0 <= i < |items| => if i < n && Admitted(items, i) then items[i].full else items[i].deferred)
  }

  lemma {:induction false} SelectedNext(items: seq<Item>, n: nat)
    requires n < |items|
    ensures Selected(items, n + 1) ==
            if Admitted(items, n) then Selected(items, n)[n := items[n].full] else Selected(items, n)
  {
  }

  /** The accounting is exact and never passes the bound. */
  lemma {:induction false} UsedIsSize(items: seq<Item>, n: nat)
    requires items != [] && n <= |items| && |Page(Deferreds(items))| <= MAX_BODY
    ensures Used(items, n) == |Page(Selected(items, n))| <= MAX_BODY
  {
    hide Selected, Page;
    if n == 0 {
      NothingSelected(items);
    } else {
      UsedIsSize(items, n - 1);
      SelectedNext(items, n - 1);
      SelectedAt(items, n - 1);
      if Admitted(items, n - 1) {
        PageUpdate(Selected(items, n - 1), n - 1, items[n - 1].full);
      }
    }
  }

  lemma {:induction false} NothingSelected(items: seq<Item>)
    ensures Selected(items, 0) == Deferreds(items)
  {
  }

  lemma {:induction false} SelectedAt(items: seq<Item>, n: nat)
    requires n < |items|
    ensures |Selected(items, n)| == |items| && Selected(items, n)[n] == items[n].deferred
  {
  }

  lemma {:induction false} PageUpdate(items: seq<Bytes>, i: nat, item: Bytes)
    requires i < |items|
    ensures |Page(items[i := item])| == |Page(items)| - |items[i]| + |item|
  {
    TotalUpdate(items, i, item);
    PageSize(items);
    PageSize(items[i := item]);
  }

  /** Full items replace placeholders from the front while the page stays within the bound. */
  method Admit(items: seq<Item>, start: nat) returns (selected: seq<Bytes>, used: nat)
    requires items != [] && start == |Page(Deferreds(items))| <= MAX_BODY
    ensures selected == Selection(items) && used == Used(items, |items|) == |Page(selected)| <= MAX_BODY
  {
    hide Page, Selected;
    NothingSelected(items);
    selected, used := Deferreds(items), start;
    for n := 0 to |items|
      invariant selected == Selected(items, n) && used == Used(items, n)
    {
      UsedIsSize(items, n + 1);
      SelectedNext(items, n);
      SelectedAt(items, n);
      if used + Delta(items[n]) <= MAX_BODY {
        selected := selected[n := items[n].full];
        used := used + Delta(items[n]);
      }
    }
    UsedIsSize(items, |items|);
  }

  // -------------------------------------------------------------- maximality

  /** No placeholder of the page could be replaced by its full item. */
  predicate Maximal(items: seq<Item>) {
    forall i :: 0 <= i < |items| && !Admitted(items, i) ==> MAX_BODY < Used(items, |items|) + Delta(items[i])
  }

  /** What the items admitted from position n on add to the page. */
  function AddedFrom(items: seq<Item>, n: nat): int
    requires n <= |items|
    decreases |items| - n
  {
    if n == |items| then 0 else (if Admitted(items, n) then Delta(items[n]) else 0) + AddedFrom(items, n + 1)
  }

  lemma {:induction false} UsedRest(items: seq<Item>, n: nat)
    requires n <= |items|
    ensures Used(items, |items|) == Used(items, n) + AddedFrom(items, n)
    decreases |items| - n
  {
    if n < |items| { UsedRest(items, n + 1); }
  }

  /** By how much a skipped item misses the bound when it is considered. */
  function Missing(items: seq<Item>, i: nat): int
    requires i < |items|
  {
    Used(items, i) + Delta(items[i]) - MAX_BODY
  }

  /** Later admissions free the room that the item misses. */
  predicate Freed(items: seq<Item>, i: nat)
    requires i < |items|
  {
    AddedFrom(items, i + 1) <= -Missing(items, i)
  }

  /** The page is maximal exactly when no skipped item is freed by what is admitted after it. */
  lemma {:induction false} MaximalIff(items: seq<Item>)
    ensures Maximal(items) <==> forall i :: 0 <= i < |items| && !Admitted(items, i) ==> !Freed(items, i)
  {
    forall i | 0 <= i < |items| && !Admitted(items, i)
      ensures MAX_BODY < Used(items, |items|) + Delta(items[i]) <==> !Freed(items, i)
    {
      UsedRest(items, i + 1);
    }
  }

  lemma {:induction false} NothingFreed(items: seq<Item>, n: nat)
    requires n <= |items| && forall i :: n <= i < |items| ==> 0 <= Delta(items[i])
    ensures 0 <= AddedFrom(items, n)
    decreases |items| - n
  {
    if n < |items| { NothingFreed(items, n + 1); }
  }

  /** It is enough that no placeholder after the first skipped item is longer than its full item. */
  lemma {:induction false} MaximalWhenShorter(items: seq<Item>, first: nat)
    requires first <= |items| && (forall i :: 0 <= i < first ==> Admitted(items, i))
    requires forall i :: first < i < |items| ==> 0 <= Delta(items[i])
    ensures Maximal(items)
  {
    MaximalIff(items);
    forall i | 0 <= i < |items| && !Admitted(items, i) ensures !Freed(items, i) {
      NothingFreed(items, i + 1);
    }
  }

  function Zeros(n: nat): (s: Bytes)
    ensures |s| == n
  {
    seq(n, _ => 0)
  }

  /** One item that misses by a byte, one whose placeholder is a byte longer, one that never fits. */
  function Crowded(): seq<Item> {
    [Item(Zeros(MAX_BODY - 18), Zeros(1)), Item(Zeros(1), Zeros(2)), Item(Zeros(MAX_BODY), Zeros(1))]
  }

  /**
    * A page need not be maximal: the full page overflows, the first item is skipped, the
    * second one frees a byte, and in the end the first item would fit.
    */
  lemma {:induction false} CrowdedIsNotMaximal()
    ensures var items := Crowded();
            && MAX_BODY < |Page(Fulls(items))| && |Page(Deferreds(items))| <= MAX_BODY
            && !Admitted(items, 0) && Used(items, 3) + Delta(items[0]) <= MAX_BODY && !Maximal(items)
  {
    hide Page, Total, Joined, Zeros;
    var items := Crowded();
    assert |items| == 3;
    ThreeTotal(Fulls(items));
    ThreeTotal(Deferreds(items));
    PageSize(Fulls(items));
    PageSize(Deferreds(items));
    assert Used(items, 0) == 20;
    assert Used(items, 1) == 20;
    assert Used(items, 2) == 19;
    assert Used(items, 3) == 19;
  }

  lemma {:induction false} ThreeTotal(items: seq<Bytes>)
    requires |items| == 3
    ensures Total(items) == |items[0]| + |items[1]| + |items[2]|
  {
    assert items[..2][..1] == items[..1] && items[..1][..0] == [];
    assert Total(items[..1]) == |items[0]|;
    assert Total(items[..2]) == |items[0]| + |items[1]|;
  }

  method TotalSize(items: seq<Bytes>) returns (used: nat)
    requires items != []
    ensures used == |Page(items)|
  {
    used := |PREFIX| + |SUFFIX| + |items| - 1;
    for n := 0 to |items|
      invariant used == |PREFIX| + |SUFFIX| + |items| - 1 + Total(items[..n])
    {
      assert items[..n + 1][..n] == items[..n];
      used := used + |items[n]|;
    }
    assert items[..|items|] == items;
    PageSize(items);
  }

  method WritePage(items: seq<Bytes>) returns (body: Bytes)
    ensures body == Page(items)
  {
    body := PREFIX;
    for n := 0 to |items|
      invariant body == PREFIX + Joined(items[..n])
    {
      JoinedNext(items, n);
      if n != 0 { body := body + [COMMA]; }
      body := body + items[n];
    }
    assert items[..|items|] == items;
    body := body + SUFFIX;
  }

  /**
    * The full page when it fits; else, for a cohort of an allowed size, the page of the
    * admitted items and the placeholders of the others, unless even the placeholders are
    * over the bound.
    */
  method EncodeCapacityPage(items: seq<Item>) returns (r: Result<Bytes, ErrorKind>)
    ensures r == if |Page(Fulls(items))| <= MAX_BODY then Ok(Page(Fulls(items)))
                 else if 1 <= |items| <= MAX_ITEMS && |Page(Deferreds(items))| <= MAX_BODY then Ok(Page(Selection(items)))
                 else Err(Unavailable)
    ensures r.Ok? ==> |r.value| <= MAX_BODY
  {
    hide Page, Selection;
    var whole := EncodeBounded(Some(Fulls(items)));
    if whole.Some? { return Ok(whole.value); }
    if |items| < 1 || MAX_ITEMS < |items| { return Err(Unavailable); }
    var used := TotalSize(Deferreds(items));
    if MAX_BODY < used { return Err(Unavailable); }
    var selected, size := Admit(items, used);
    var body := WritePage(selected);
    return Ok(body);
  }
}
