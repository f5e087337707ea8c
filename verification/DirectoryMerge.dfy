/**
  * The lazy content of a directory: a base snapshot, snapshots and single entries
  * removed from it, and snapshots and single entries added to it, each possibly below
  * a path prefix. They are merged by key without being materialised.
  */
module DirectoryMerge {
  import opened Basics

  type Text = seq<nat>

  const SLASH: nat := 47

  /** The byte order of strings. */
  predicate Less(a: Text, b: Text)
    decreases |a|
  {
    b != [] && (a == [] || a[0] < b[0] || (a[0] == b[0] && Less(a[1..], b[1..])))
  }

  datatype Entry = Entry(group: Text, path: Text, size: nat)

  /** Group identifiers are encoded digests, so they hold no zero byte. */
  predicate ValidEntry(e: Entry) {
    0 !in e.group
  }

  function KeyOf(e: Entry): Text {
    e.group + [0] + e.path
  }

  predicate Sorted(s: seq<Entry>) {
    && (forall i :: 0 <= i < |s| ==> ValidEntry(s[i]))
    && forall i, j :: 0 <= i < j < |s| ==> Less(KeyOf(s[i]), KeyOf(s[j]))
  }

  // ------------------------------------------------------------------ order

  lemma {:induction false} LessTransitive(a: Text, b: Text, c: Text)
    requires Less(a, b) && Less(b, c)
    ensures Less(a, c)
    decreases |a|
  {
    if a != [] && a[0] == b[0] == c[0] { LessTransitive(a[1..], b[1..], c[1..]); }
  }

  lemma {:induction false} LessTotal(a: Text, b: Text)
    ensures a == b || Less(a, b) || Less(b, a)
    ensures !(Less(a, b) && Less(b, a))
    ensures a == b ==> !Less(a, b)
    decreases |a|
  {
    if a != [] && b != [] && a[0] == b[0] {
      LessTotal(a[1..], b[1..]);
      assert a == [a[0]] + a[1..] && b == [b[0]] + b[1..];
    }
  }

  lemma {:induction false} LessIsOrder()
    ensures forall a: Text, b: Text, c: Text :: Less(a, b) && Less(b, c) ==> Less(a, c)
    ensures forall a: Text, b: Text :: Less(a, b) ==> a != b && !Less(b, a)
    ensures forall a: Text, b: Text :: Less(a, b) || a == b || Less(b, a)
  {
    forall a: Text, b: Text, c: Text | Less(a, b) && Less(b, c) ensures Less(a, c) { LessTransitive(a, b, c); }
    forall a: Text, b: Text ensures Less(a, b) ==> a != b && !Less(b, a) { LessTotal(a, b); }
    forall a: Text, b: Text ensures Less(a, b) || a == b || Less(b, a) { LessTotal(a, b); }
  }

  // ----------------------------------------------------------------- prefix

  function PathText(segments: seq<Text>): Text {
    if segments == [] then [] else PathText(segments[..|segments| - 1]) + [SLASH] + segments[|segments| - 1]
  }

  function Prefixed(prefix: seq<Text>, e: Entry): Entry {
    e.(path := PathText(prefix) + e.path)
  }

  /** prefixDirectoryContentIndexPath: the segments of the prefix, then those of the path. */
  method PrefixPath(prefix: seq<Text>, segments: seq<Text>) returns (path: Text)
    ensures path == PathText(prefix) + PathText(segments) == PathText(prefix + segments)
  {
    PathTextAppend(prefix, segments);
    path := [];
    for n := 0 to |prefix|
      invariant path == PathText(prefix[..n])
    {
      assert prefix[..n + 1][..n] == prefix[..n];
      path := path + [SLASH] + prefix[n];
    }
    assert prefix[..|prefix|] == prefix;
    for n := 0 to |segments|
      invariant path == PathText(prefix) + PathText(segments[..n])
    {
      assert segments[..n + 1][..n] == segments[..n];
      path := path + [SLASH] + segments[n];
    }
    assert segments[..|segments|] == segments;
  }

  lemma {:induction false} PathTextAppend(a: seq<Text>, b: seq<Text>)
    ensures PathText(a + b) == PathText(a) + PathText(b)
  {
    if b == [] {
      assert a + b == a;
    } else {
      PathTextAppend(a, b[..|b| - 1]);
      assert (a + b)[..|a + b| - 1] == a + b[..|b| - 1];
    }
  }

  predicate Absolute(path: Text) {
    path != [] && path[0] == SLASH
  }

  /** The segments of a path: what its slashes separate. */
  method SplitPath(path: Text) returns (segments: seq<Text>)
    requires Absolute(path)
    ensures PathText(segments) == path && segments != []
    ensures forall i :: 0 <= i < |segments| ==> SLASH !in segments[i]
  {
    segments := [[]];
    assert segments[..0] == [] && PathText(segments) == [] + [SLASH] + [];
    for n := 1 to |path|
      invariant segments != [] && PathText(segments) == path[..n]
      invariant forall i :: 0 <= i < |segments| ==> SLASH !in segments[i]
    {
      var last := |segments| - 1;
      ghost var before := segments;
      if path[n] == SLASH {
        segments := segments + [[]];
        assert segments[..last + 1] == before;
      } else {
        segments := segments[..last] + [segments[last] + [path[n]]];
        assert segments[..last] == before[..last];
      }
      assert path[..n + 1] == path[..n] + [path[n]];
    }
    assert path[..|path|] == path;
  }

  /** A prefix is put before an absolute path other than the root; without a prefix the path is left as it is. */
  predicate Placeable(prefix: seq<Text>, e: Entry) {
    prefix != [] ==> Absolute(e.path) && e.path != [SLASH]
  }

  /** An entry as its source yields it: below the source's prefix, with its group and size. */
  method PlaceEntry(prefix: seq<Text>, e: Entry) returns (r: Result<Entry, ErrorKind>)
    ensures r == if Placeable(prefix, e) then Ok(Entry(e.group, PathText(prefix) + e.path, e.size)) else Err(Invalid)
  {
    assert PathText([]) + e.path == e.path;
    if prefix == [] { return Ok(e); }
    if e.path == [] || e.path[0] != SLASH || e.path == [SLASH] { return Err(Invalid); }
    var segments := SplitPath(e.path);
    var path := PrefixPath(prefix, segments);
    r := Ok(e.(path := path));
  }

  lemma {:induction false} LessAfterCommon(c: Text, a: Text, b: Text)
    ensures Less(c + a, c + b) == Less(a, b)
    decreases |c|
  {
    if c == [] {
      assert c + a == a && c + b == b;
    } else {
      LessAfterCommon(c[1..], a, b);
      assert (c + a)[1..] == c[1..] + a && (c + b)[1..] == c[1..] + b;
    }
  }

  /** Terminated by a byte that neither holds, different groups decide the order whatever follows. */
  lemma {:induction false} GroupDecides(g: Text, h: Text, a: Text, b: Text)
    requires 0 !in g && 0 !in h && g != h
    ensures Less(g + [0] + a, h + [0] + b) == Less(g + [0], h + [0])
    decreases |g|
  {
    var x, y := g + [0], h + [0];
    assert g + [0] + a == x + a && h + [0] + b == y + b;
    if g != [] && h != [] && g[0] == h[0] {
      assert g == [g[0]] + g[1..] && h == [h[0]] + h[1..];
      GroupDecides(g[1..], h[1..], a, b);
      assert x[1..] == g[1..] + [0] && y[1..] == h[1..] + [0];
      assert (x + a)[1..] == g[1..] + [0] + a && (y + b)[1..] == h[1..] + [0] + b;
    } else {
      assert g != [] ==> g[0] in g;
      assert h != [] ==> h[0] in h;
      assert x[0] != y[0];
    }
  }

  /** Placing entries below a prefix keeps their order, so a prefixed source is still sorted. */
  lemma {:induction false} PrefixKeepsOrder(prefix: seq<Text>, e: Entry, f: Entry)
    requires ValidEntry(e) && ValidEntry(f)
    ensures Less(KeyOf(Prefixed(prefix, e)), KeyOf(Prefixed(prefix, f))) == Less(KeyOf(e), KeyOf(f))
  {
    var p := PathText(prefix);
    if e.group == f.group {
      var c := e.group + [0];
      LessAfterCommon(c, e.path, f.path);
      LessAfterCommon(c, p + e.path, p + f.path);
      LessAfterCommon(p, e.path, f.path);
    } else {
      GroupDecides(e.group, f.group, e.path, f.path);
      GroupDecides(e.group, f.group, p + e.path, p + f.path);
    }
  }

  function PrefixAll(prefix: seq<Text>, s: seq<Entry>): seq<Entry> {
    seq(|s|, i requires 0 <= i < |s| => Prefixed(prefix, s[i]))
  }

  lemma {:induction false} PrefixedIsSorted(prefix: seq<Text>, s: seq<Entry>)
    ensures Sorted(PrefixAll(prefix, s)) <==> Sorted(s)
  {
    var t := PrefixAll(prefix, s);
    assert forall i :: 0 <= i < |s| ==> ValidEntry(t[i]) == ValidEntry(s[i]);
    if forall i :: 0 <= i < |s| ==> ValidEntry(s[i]) {
      forall i, j | 0 <= i < j < |s| ensures Less(KeyOf(t[i]), KeyOf(t[j])) == Less(KeyOf(s[i]), KeyOf(s[j])) {
        PrefixKeepsOrder(prefix, s[i], s[j]);
      }
    }
  }

  /** A key determines the group and the path, so entries of one key differ in size only. */
  lemma {:induction false} KeyPins(e: Entry, f: Entry)
    requires ValidEntry(e) && ValidEntry(f) && KeyOf(e) == KeyOf(f)
    ensures e.group == f.group && e.path == f.path
  {
    var k := KeyOf(e);
    var m, n := |e.group|, |f.group|;
    assert k[m] == 0 && k[n] == 0;
    assert forall i :: 0 <= i < m ==> k[i] == e.group[i] && e.group[i] in e.group;
    assert forall i :: 0 <= i < n ==> k[i] == f.group[i] && f.group[i] in f.group;
    assert m == n;
    assert e.group == k[..m] && f.group == k[..n];
    assert e.path == k[m + 1..] && f.path == k[n + 1..];
  }

  // ---------------------------------------------------------- specification

  datatype Role = Base | Removal | Addition

  type Rests = seq<seq<Entry>>

  ghost predicate Offers(roles: seq<Role>, rest: Rests, role: Role, e: Entry) {
    exists s :: 0 <= s < |rest| && s < |roles| && roles[s] == role && e in rest[s]
  }

  ghost predicate Clash(roles: seq<Role>, rest: Rests, k: Text, s: nat, t: nat, e: Entry, f: Entry) {
    && s < t < |rest| && t < |roles| && roles[s] == roles[t]
    && e in rest[s] && f in rest[t] && KeyOf(e) == KeyOf(f) == k
  }

  /** Two sources of one role hold the key. */
  ghost predicate Repeats(roles: seq<Role>, rest: Rests, k: Text) {
    exists s: nat, t: nat, e, f :: Clash(roles, rest, k, s, t, e, f)
  }

  /** A removal of the key is not an entry of the base. */
  ghost predicate Mismatch(roles: seq<Role>, rest: Rests, k: Text) {
    exists e :: KeyOf(e) == k && Offers(roles, rest, Removal, e) && !Offers(roles, rest, Base, e)
  }

  ghost predicate Collides(roles: seq<Role>, rest: Rests, a: Entry, b: Entry) {
    && Offers(roles, rest, Addition, a) && Offers(roles, rest, Base, b) && !Offers(roles, rest, Removal, b)
    && a != b
  }

  /** An addition of the key meets a different entry that the base keeps. */
  ghost predicate Collision(roles: seq<Role>, rest: Rests, k: Text) {
    exists a, b :: KeyOf(a) == KeyOf(b) == k && Collides(roles, rest, a, b)
  }

  ghost predicate Bad(roles: seq<Role>, rest: Rests, k: Text) {
    Repeats(roles, rest, k) || Mismatch(roles, rest, k) || Collision(roles, rest, k)
  }

  /** The content: the base without the removals, with the additions. */
  ghost predicate Merged(roles: seq<Role>, rest: Rests, e: Entry) {
    Offers(roles, rest, Addition, e) || (Offers(roles, rest, Base, e) && !Offers(roles, rest, Removal, e))
  }

  ghost predicate SortedAll(roles: seq<Role>, rest: Rests) {
    |rest| == |roles| && forall s :: 0 <= s < |rest| ==> Sorted(rest[s])
  }

  ghost predicate After(front: Option<Text>, k: Text) {
    front.None? || Less(front.value, k)
  }

  /** What remains are the entries after the front. */
  ghost predicate Advanced(rest: Rests, rest': Rests, front: Option<Text>) {
    |rest'| == |rest| && forall s :: 0 <= s < |rest| ==> Remains(rest[s], rest'[s], front)
  }

  ghost predicate Remains(source: seq<Entry>, source': seq<Entry>, front: Option<Text>) {
    && (forall e :: e in source' ==> e in source && After(front, KeyOf(e)))
    && (forall e :: e in source && After(front, KeyOf(e)) ==> e in source')
  }

  /** Up to the front there is nothing wrong and nothing to yield. */
  ghost predicate Clean(roles: seq<Role>, rest: Rests, front: Option<Text>) {
    && (forall k :: !After(front, k) ==> !Bad(roles, rest, k))
    && (forall e :: !After(front, KeyOf(e)) ==> !Merged(roles, rest, e))
  }

  // ------------------------------------------------------------- one key

  predicate HeadIs(s: seq<Entry>, k: Text) {
    s != [] && KeyOf(s[0]) == k
  }

  function PoppedOne(source: seq<Entry>, k: Text): seq<Entry> {
    if HeadIs(source, k) then source[1..] else source
  }

  function Popped(rest: Rests, k: Text): Rests {
    seq(|rest|, s requires 0 <= s < |rest| => PoppedOne(rest[s], k))
  }

  datatype Slots = Slots(base: Option<Entry>, removal: Option<Entry>, addition: Option<Entry>)

  function Slot(slots: Slots, role: Role): Option<Entry> {
    match role case Base => slots.base case Removal => slots.removal case Addition => slots.addition
  }

  function Filled(slots: Slots, role: Role, e: Entry): Slots {
    match role
    case Base => slots.(base := Some(e))
    case Removal => slots.(removal := Some(e))
    case Addition => slots.(addition := Some(e))
  }

  /** No key comes before `k`, and it is there. */
  ghost predicate IsLeast(rest: Rests, k: Text) {
    && (exists s :: 0 <= s < |rest| && HeadIs(rest[s], k))
    && forall s, e :: 0 <= s < |rest| && e in rest[s] ==> !Less(KeyOf(e), k)
  }

  lemma {:induction false} HeadIsFirst(s: seq<Entry>, e: Entry)
    requires Sorted(s) && e in s
    ensures KeyOf(s[0]) == KeyOf(e) ==> s[0] == e
    ensures s[0] == e || Less(KeyOf(s[0]), KeyOf(e))
  {
    var i :| 0 <= i < |s| && s[i] == e;
    LessTotal(KeyOf(s[0]), KeyOf(e));
    if i != 0 { assert Less(KeyOf(s[0]), KeyOf(s[i])); }
  }

  /** The key at the top of the heap. */
  method LeastKey(roles: seq<Role>, rest: Rests) returns (k: Option<Text>)
    requires SortedAll(roles, rest)
    ensures k.None? ==> forall s :: 0 <= s < |rest| ==> rest[s] == []
    ensures k.Some? ==> IsLeast(rest, k.value)
  {
    hide Less;
    k := None;
    LessIsOrder();
    for n := 0 to |rest|
      invariant k.None? ==> forall s :: 0 <= s < n ==> rest[s] == []
      invariant k.Some? ==> exists s :: 0 <= s < n && HeadIs(rest[s], k.value)
      invariant k.Some? ==> forall s :: 0 <= s < n && rest[s] != [] ==> !Less(KeyOf(rest[s][0]), k.value)
    {
      if rest[n] != [] && (k.None? || Less(KeyOf(rest[n][0]), k.value)) {
        k := Some(KeyOf(rest[n][0]));
        assert HeadIs(rest[n], k.value);
      }
    }
    if k.Some? {
      forall s, e | 0 <= s < |rest| && e in rest[s] ensures !Less(KeyOf(e), k.value) {
        HeadIsFirst(rest[s], e);
      }
    }
  }

  function Heads(rest: Rests, k: Text): set<nat> {
    set s: nat | s < |rest| && HeadIs(rest[s], k)
  }

  ghost predicate Taken(roles: seq<Role>, rest: Rests, done: set<nat>, role: Role, e: Entry)
    requires |rest| == |roles|
  {
    exists s: nat :: s in done && s < |rest| && rest[s] != [] && roles[s] == role && rest[s][0] == e
  }

  /** The slots hold exactly the heads of the sources already popped, one for each role. */
  ghost predicate Holding(roles: seq<Role>, rest: Rests, done: set<nat>, slots: Slots)
    requires |rest| == |roles|
  {
    && (forall role, e :: Slot(slots, role) == Some(e) <==> Taken(roles, rest, done, role, e))
    && (forall s: nat, t: nat :: s in done && t in done && s < t < |rest| ==> roles[s] != roles[t])
  }

  lemma {:induction false} HoldingNext(roles: seq<Role>, rest: Rests, k: Text, done: set<nat>, s: nat, slots: Slots)
    requires |rest| == |roles| && Holding(roles, rest, done, slots) && done <= Heads(rest, k)
    requires s in Heads(rest, k) - done && Slot(slots, roles[s]).None?
    ensures Holding(roles, rest, done + {s}, Filled(slots, roles[s], rest[s][0]))
  {
    var slots', done' := Filled(slots, roles[s], rest[s][0]), done + {s};
    forall t: nat | t in done && t < |rest| ensures roles[t] != roles[s] {
      if roles[t] == roles[s] { assert Taken(roles, rest, done, roles[s], rest[t][0]); }
    }
    forall role, e ensures Slot(slots', role) == Some(e) <==> Taken(roles, rest, done', role, e) {
      assert Slot(slots, role) == Some(e) <==> Taken(roles, rest, done, role, e);
      if role == roles[s] {
        assert s in done';
        assert Taken(roles, rest, done', role, rest[s][0]);
      } else if Taken(roles, rest, done, role, e) {
        var t: nat :| t in done && t < |rest| && rest[t] != [] && roles[t] == role && rest[t][0] == e;
        assert t in done';
      }
    }
  }

  /** Every head of the key, taken in any order into the slot of its role. */
  method Gather(roles: seq<Role>, rest: Rests, k: Text) returns (slots: Option<Slots>)
    requires |rest| == |roles|
    ensures slots.Some? ==> Holding(roles, rest, Heads(rest, k), slots.value)
    ensures slots.None? ==> exists s: nat, t: nat :: s in Heads(rest, k) && t in Heads(rest, k) && s < t && roles[s] == roles[t]
  {
    var held := Slots(None, None, None);
    var pending := Heads(rest, k);
    while pending != {}
      invariant pending <= Heads(rest, k)
      invariant Holding(roles, rest, Heads(rest, k) - pending, held)
    {
      var s :| s in pending;
      if Slot(held, roles[s]).Some? {
        assert Taken(roles, rest, Heads(rest, k) - pending, roles[s], Slot(held, roles[s]).value);
        ghost var t: nat :| t in Heads(rest, k) - pending && t < |rest| && roles[t] == roles[s];
        assert s < t || t < s;
        return None;
      }
      HoldingNext(roles, rest, k, Heads(rest, k) - pending, s, held);
      assert Heads(rest, k) - (pending - {s}) == Heads(rest, k) - pending + {s};
      held := Filled(held, roles[s], rest[s][0]);
      pending := pending - {s};
    }
    slots := Some(held);
    assert Heads(rest, k) - {} == Heads(rest, k);
  }

  // --------------------------------------------------- one key, as specified

  /** At the least key, what a role offers is what it holds at the head. */
  lemma {:induction false} OffersAtLeast(roles: seq<Role>, rest: Rests, k: Text, role: Role, e: Entry)
    requires SortedAll(roles, rest) && IsLeast(rest, k) && KeyOf(e) == k
    ensures Offers(roles, rest, role, e) <==> Taken(roles, rest, Heads(rest, k), role, e)
  {
    if Offers(roles, rest, role, e) {
      var s :| 0 <= s < |rest| && s < |roles| && roles[s] == role && e in rest[s];
      HeadIsFirst(rest[s], e);
      assert s in Heads(rest, k);
    }
    if Taken(roles, rest, Heads(rest, k), role, e) {
      var s: nat :| s in Heads(rest, k) && s < |rest| && rest[s] != [] && roles[s] == role && rest[s][0] == e;
      assert e in rest[s];
    }
  }

  lemma {:induction false} RepeatsAtLeast(roles: seq<Role>, rest: Rests, k: Text)
    requires SortedAll(roles, rest) && IsLeast(rest, k)
    ensures Repeats(roles, rest, k)
       <==> exists s: nat, t: nat :: s in Heads(rest, k) && t in Heads(rest, k) && s < t && roles[s] == roles[t]
  {
    if Repeats(roles, rest, k) {
      var s: nat, t: nat, e, f :| Clash(roles, rest, k, s, t, e, f);
      HeadIsFirst(rest[s], e);
      HeadIsFirst(rest[t], f);
      assert s in Heads(rest, k) && t in Heads(rest, k);
    }
    if exists s: nat, t: nat :: s in Heads(rest, k) && t in Heads(rest, k) && s < t && roles[s] == roles[t] {
      var s: nat, t: nat :| s in Heads(rest, k) && t in Heads(rest, k) && s < t && roles[s] == roles[t];
      assert Clash(roles, rest, k, s, t, rest[s][0], rest[t][0]);
    }
  }

  /** The decision on one key once its slots are known. */
  function Decide(slots: Slots): Result<Option<Entry>, ErrorKind> {
    if slots.removal.Some? && slots.base != slots.removal then Err(Invalid)
    else
      var base := if slots.removal.Some? then None else slots.base;
      if slots.addition.Some? then
        if base.Some? && base != slots.addition then Err(Invalid) else Ok(slots.addition)
      else Ok(base)
  }

  lemma {:induction false} SlotsAreOffers(roles: seq<Role>, rest: Rests, k: Text, slots: Slots)
    requires SortedAll(roles, rest) && IsLeast(rest, k) && Holding(roles, rest, Heads(rest, k), slots)
    ensures forall role, e :: Slot(slots, role) == Some(e) <==> KeyOf(e) == k && Offers(roles, rest, role, e)
  {
    forall role, e ensures Slot(slots, role) == Some(e) <==> KeyOf(e) == k && Offers(roles, rest, role, e) {
      assert Slot(slots, role) == Some(e) <==> Taken(roles, rest, Heads(rest, k), role, e);
      if Taken(roles, rest, Heads(rest, k), role, e) {
        var s: nat :| s in Heads(rest, k) && s < |rest| && rest[s] != [] && roles[s] == role && rest[s][0] == e;
        assert KeyOf(e) == k;
      }
      if KeyOf(e) == k { OffersAtLeast(roles, rest, k, role, e); }
    }
  }

  /** The decision fails exactly on a bad key and otherwise yields the content of the key. */
  lemma {:induction false} DecideIs(roles: seq<Role>, rest: Rests, k: Text, slots: Slots)
    requires forall role, e :: Slot(slots, role) == Some(e) <==> KeyOf(e) == k && Offers(roles, rest, role, e)
    requires !Repeats(roles, rest, k)
    ensures Decide(slots).Err? <==> Bad(roles, rest, k)
    ensures Decide(slots).Ok? ==> forall e :: Decide(slots).value == Some(e) <==> KeyOf(e) == k && Merged(roles, rest, e)
  {
    hide Offers, KeyOf, Repeats;
    assert forall e :: slots.base == Some(e) <==> KeyOf(e) == k && Offers(roles, rest, Base, e) by {
      forall e ensures slots.base == Some(e) <==> KeyOf(e) == k && Offers(roles, rest, Base, e) { assert Slot(slots, Base) == slots.base; }
    }
    assert forall e :: slots.removal == Some(e) <==> KeyOf(e) == k && Offers(roles, rest, Removal, e) by {
      forall e ensures slots.removal == Some(e) <==> KeyOf(e) == k && Offers(roles, rest, Removal, e) { assert Slot(slots, Removal) == slots.removal; }
    }
    assert forall e :: slots.addition == Some(e) <==> KeyOf(e) == k && Offers(roles, rest, Addition, e) by {
      forall e ensures slots.addition == Some(e) <==> KeyOf(e) == k && Offers(roles, rest, Addition, e) { assert Slot(slots, Addition) == slots.addition; }
    }
    if slots.removal.Some? && slots.base != slots.removal {
      var e := slots.removal.value;
      assert KeyOf(e) == k && Offers(roles, rest, Removal, e) && !Offers(roles, rest, Base, e);
    } else if slots.addition.Some? && slots.base.Some? && slots.removal.None? && slots.base != slots.addition {
      assert Collides(roles, rest, slots.addition.value, slots.base.value);
    }
  }

  // ------------------------------------------------------------ moving on

  lemma {:induction false} PopOne(source: seq<Entry>, k: Text)
    requires Sorted(source) && forall e :: e in source ==> !Less(KeyOf(e), k)
    ensures Sorted(PoppedOne(source, k)) && Remains(source, PoppedOne(source, k), Some(k))
  {
    hide Less, KeyOf;
    var source' := PoppedOne(source, k);
    LessIsOrder();
    assert source != [] ==> source == [source[0]] + source[1..];
    forall e | e in source ensures e in source' <==> Less(k, KeyOf(e)) {
      HeadIsFirst(source, e);
      var i :| 0 <= i < |source| && source[i] == e;
      assert 0 < i ==> Less(KeyOf(source[0]), KeyOf(source[i]));
      if HeadIs(source, k) && e in source' {
        var n :| 0 <= n < |source'| && source'[n] == e;
        assert Less(KeyOf(source[0]), KeyOf(source[n + 1]));
      }
    }
  }

  lemma {:induction false} PopAdvances(roles: seq<Role>, rest: Rests, k: Text)
    requires SortedAll(roles, rest) && IsLeast(rest, k)
    ensures SortedAll(roles, Popped(rest, k)) && Advanced(rest, Popped(rest, k), Some(k))
  {
    hide Less, KeyOf, Remains, Sorted, HeadIs;
    forall s | 0 <= s < |rest|
      ensures Sorted(Popped(rest, k)[s]) && Remains(rest[s], Popped(rest, k)[s], Some(k))
    {
      PopOne(rest[s], k);
    }
  }

  lemma {:induction false} AdvanceAgain(rest: Rests, mid: Rests, rest': Rests, front: Option<Text>, k: Text)
    requires Advanced(rest, mid, front) && Advanced(mid, rest', Some(k)) && After(front, k)
    ensures Advanced(rest, rest', Some(k))
  {
    hide Less;
    LessIsOrder();
    forall s | 0 <= s < |rest| ensures Remains(rest[s], rest'[s], Some(k)) {
      assert Remains(rest[s], mid[s], front) && Remains(mid[s], rest'[s], Some(k));
    }
  }

  /** After the front, what remains offers what was offered. */
  lemma {:induction false} OffersAfter(roles: seq<Role>, rest: Rests, rest': Rests, front: Option<Text>, role: Role, e: Entry)
    requires Advanced(rest, rest', front) && |rest| == |roles|
    ensures Offers(roles, rest', role, e) <==> Offers(roles, rest, role, e) && After(front, KeyOf(e))
  {
    if Offers(roles, rest, role, e) && After(front, KeyOf(e)) {
      var s :| 0 <= s < |rest| && roles[s] == role && e in rest[s];
      assert e in rest'[s];
    }
    if Offers(roles, rest', role, e) {
      var s :| 0 <= s < |rest'| && roles[s] == role && e in rest'[s];
      assert e in rest[s];
    }
  }

  lemma {:induction false} JudgedAfter(roles: seq<Role>, rest: Rests, rest': Rests, front: Option<Text>, k: Text)
    requires Advanced(rest, rest', front) && |rest| == |roles| && After(front, k)
    ensures Bad(roles, rest', k) == Bad(roles, rest, k)
    ensures forall e :: KeyOf(e) == k ==> Merged(roles, rest', e) == Merged(roles, rest, e)
  {
    hide Less, KeyOf, Offers, Advanced, After;
    forall role, e | KeyOf(e) == k ensures Offers(roles, rest', role, e) == Offers(roles, rest, role, e) {
      OffersAfter(roles, rest, rest', front, role, e);
    }
    assert Mismatch(roles, rest', k) == Mismatch(roles, rest, k);
    assert Collision(roles, rest', k) == Collision(roles, rest, k) by {
      forall a, b | KeyOf(a) == KeyOf(b) == k ensures Collides(roles, rest', a, b) == Collides(roles, rest, a, b) {}
    }
    assert Repeats(roles, rest', k) == Repeats(roles, rest, k) by {
      forall s: nat, t: nat, e, f ensures Clash(roles, rest', k, s, t, e, f) == Clash(roles, rest, k, s, t, e, f) {
        ClashAfter(roles, rest, rest', front, k, s, t, e, f);
      }
    }
  }

  lemma {:induction false} ClashAfter(roles: seq<Role>, rest: Rests, rest': Rests, front: Option<Text>, k: Text, s: nat, t: nat, e: Entry, f: Entry)
    requires Advanced(rest, rest', front) && |rest| == |roles| && After(front, k)
    ensures Clash(roles, rest', k, s, t, e, f) == Clash(roles, rest, k, s, t, e, f)
  {
    hide Less, KeyOf;
  }

  /** A key that nothing offers is neither bad nor part of the content. */
  lemma {:induction false} NothingThere(roles: seq<Role>, rest: Rests, k: Text)
    requires forall s, e :: 0 <= s < |rest| && e in rest[s] ==> KeyOf(e) != k
    ensures !Bad(roles, rest, k)
    ensures forall e :: KeyOf(e) == k ==> !Merged(roles, rest, e)
  {
    hide KeyOf;
    forall role, e | KeyOf(e) == k ensures !Offers(roles, rest, role, e) {}
  }

  /** Between the front and the least key there is nothing, so both are judged as in the whole. */
  lemma {:induction false} CleanBefore(roles: seq<Role>, rest: Rests, rest': Rests, front: Option<Text>, k: Text, j: Text)
    requires Advanced(rest, rest', front) && |rest| == |roles| && Clean(roles, rest, front) && Less(j, k)
    requires forall s, e :: 0 <= s < |rest'| && e in rest'[s] ==> !Less(KeyOf(e), k)
    ensures !Bad(roles, rest, j)
    ensures forall e :: KeyOf(e) == j ==> !Merged(roles, rest, e)
  {
    hide Less, Bad, Merged;
    if After(front, j) {
      JudgedAfter(roles, rest, rest', front, j);
      NothingThere(roles, rest', j);
    }
  }

  /** A key without content, neither bad nor in the result, moves the front. */
  lemma {:induction false} CleanNext(roles: seq<Role>, rest: Rests, rest': Rests, front: Option<Text>, k: Text)
    requires Advanced(rest, rest', front) && |rest| == |roles| && Clean(roles, rest, front) && IsLeast(rest', k) && After(front, k)
    requires !Bad(roles, rest', k) && forall e :: KeyOf(e) == k ==> !Merged(roles, rest', e)
    ensures Clean(roles, rest, Some(k))
  {
    JudgedAfter(roles, rest, rest', front, k);
    hide Bad, Merged, Less, KeyOf;
    LessIsOrder();
    forall j | !Less(k, j) ensures !Bad(roles, rest, j) && forall e :: KeyOf(e) == j ==> !Merged(roles, rest, e) {
      if j != k { CleanBefore(roles, rest, rest', front, k, j); }
    }
  }

  lemma {:induction false} LeastIsAfter(rest: Rests, rest': Rests, front: Option<Text>, k: Text)
    requires Advanced(rest, rest', front) && IsLeast(rest', k)
    ensures After(front, k)
  {
    var s :| 0 <= s < |rest'| && HeadIs(rest'[s], k);
    assert rest'[s][0] in rest'[s];
  }

  // --------------------------------------------------------------- iterator

  function Total(rest: Rests): nat {
    if rest == [] then 0 else |rest[0]| + Total(rest[1..])
  }

  lemma {:induction false} PopShrinks(rest: Rests, k: Text)
    ensures Total(Popped(rest, k)) <= Total(rest)
    ensures (exists s :: 0 <= s < |rest| && HeadIs(rest[s], k)) ==> Total(Popped(rest, k)) < Total(rest)
  {
    if rest != [] {
      PopShrinks(rest[1..], k);
      assert Popped(rest, k)[1..] == Popped(rest[1..], k);
      if exists s :: 0 <= s < |rest| && HeadIs(rest[s], k) {
        var s :| 0 <= s < |rest| && HeadIs(rest[s], k);
        if s != 0 { assert HeadIs(rest[1..][s - 1], k); }
      }
    }
  }

  /** One call of the iterator, seen from what remained before it. */
  ghost predicate NextIs(roles: seq<Role>, rest: Rests, rest': Rests, r: Result<Option<Entry>, ErrorKind>) {
    match r
    case Err(_) => exists k :: Bad(roles, rest, k)
    case Ok(None) => (forall k :: !Bad(roles, rest, k)) && (forall e :: !Merged(roles, rest, e))
    case Ok(Some(e)) =>
      && Advanced(rest, rest', Some(KeyOf(e)))
      && (forall k :: !Less(KeyOf(e), k) ==> !Bad(roles, rest, k))
      && (forall f :: !Less(KeyOf(e), KeyOf(f)) ==> (Merged(roles, rest, f) <==> f == e))
  }

  lemma {:induction false} YieldIsNext(roles: seq<Role>, rest: Rests, mid: Rests, front: Option<Text>, e: Entry)
    requires Advanced(rest, mid, front) && SortedAll(roles, rest) && SortedAll(roles, mid) && Clean(roles, rest, front)
    requires IsLeast(mid, KeyOf(e)) && !Bad(roles, mid, KeyOf(e))
    requires forall f :: f == e <==> KeyOf(f) == KeyOf(e) && Merged(roles, mid, f)
    ensures NextIs(roles, rest, Popped(mid, KeyOf(e)), Ok(Some(e)))
  {
    hide Bad, Merged, Less, KeyOf, Advanced, Popped, SortedAll, IsLeast;
    var k := KeyOf(e);
    LeastIsAfter(rest, mid, front, k);
    PopAdvances(roles, mid, k);
    AdvanceAgain(rest, mid, Popped(mid, k), front, k);
    SortedAllSize(roles, rest);
    JudgedAfter(roles, rest, mid, front, k);
    LessIsOrder();
    LeastIsLeast(mid, k);
    forall j | !Less(k, j) ensures !Bad(roles, rest, j) && forall f :: KeyOf(f) == j ==> (Merged(roles, rest, f) <==> f == e) {
      if j != k { CleanBefore(roles, rest, mid, front, k, j); }
    }
  }

  lemma {:induction false} LeastIsLeast(rest: Rests, k: Text)
    requires IsLeast(rest, k)
    ensures forall s, e :: 0 <= s < |rest| && e in rest[s] ==> !Less(KeyOf(e), k)
  {
  }

  lemma {:induction false} EndIsNext(roles: seq<Role>, rest: Rests, mid: Rests, front: Option<Text>)
    requires Advanced(rest, mid, front) && |rest| == |roles| && Clean(roles, rest, front)
    requires forall s :: 0 <= s < |mid| ==> mid[s] == []
    ensures NextIs(roles, rest, mid, Ok(None))
  {
    hide Bad, Merged, KeyOf, Advanced;
    forall j ensures !Bad(roles, rest, j) && forall e :: KeyOf(e) == j ==> !Merged(roles, rest, e) {
      if After(front, j) {
        JudgedAfter(roles, rest, mid, front, j);
        NothingThere(roles, mid, j);
      }
    }
    forall e ensures !Merged(roles, rest, e) {
      assert !Bad(roles, rest, KeyOf(e));
    }
  }

  /** One key: its slots and the decision on them, judged against what remains. */
  method StepKey(roles: seq<Role>, rest: Rests, k: Text) returns (r: Result<Option<Entry>, ErrorKind>)
    requires SortedAll(roles, rest) && IsLeast(rest, k)
    ensures r.Err? <==> Bad(roles, rest, k)
    ensures r.Ok? ==> forall e :: r.value == Some(e) <==> KeyOf(e) == k && Merged(roles, rest, e)
  {
    var slots := Gather(roles, rest, k);
    RepeatsAtLeast(roles, rest, k);
    if slots.None? { return Err(Invalid); }
    assert !Repeats(roles, rest, k);
    SlotsAreOffers(roles, rest, k, slots.value);
    DecideIs(roles, rest, k, slots.value);
    r := Decide(slots.value);
  }

  class LazyIterator {
    const roles: seq<Role>
    var rest: Rests

    ghost predicate Valid()
      reads this
    {
      SortedAll(roles, rest)
    }

    constructor (roles: seq<Role>, sources: Rests)
      requires SortedAll(roles, sources)
      ensures Valid() && this.roles == roles && rest == sources
    {
      this.roles, rest := roles, sources;
    }

    /**
      * The next entry of the content: everything up to it was neither bad nor content.
      * A failure is a bad key, and the end means that there is neither.
      */
    method Next() returns (r: Result<Option<Entry>, ErrorKind>)
      requires Valid()
      modifies this
      ensures Valid() && NextIs(roles, old(rest), rest, r)
      ensures r.Ok? && r.value.Some? ==> Total(rest) < old(Total(rest))
    {
      hide Bad, Merged, Advanced, Clean, IsLeast, SortedAll, Popped, NextIs, Less, Total, After;
      ghost var was := rest;
      ghost var front: Option<Text> := None;
      NothingPassed(roles, was);
      SortedAllSize(roles, was);
      var k := LeastKey(roles, rest);
      while k.Some?
        invariant Valid() && Advanced(was, rest, front) && Clean(roles, was, front) && Total(rest) <= Total(was)
        invariant SortedAll(roles, was)
        invariant k.None? ==> forall s :: 0 <= s < |rest| ==> rest[s] == []
        invariant k.Some? ==> IsLeast(rest, k.value)
        decreases Total(rest)
      {
        r := StepKey(roles, rest, k.value);
        LeastIsAfter(was, rest, front, k.value);
        if r.Err? {
          FailIsNext(roles, was, rest, front, k.value, r.error);
          return;
        }
        PopIsSmaller(rest, k.value);
        PopAdvances(roles, rest, k.value);
        if r.value.Some? {
          YieldIsNext(roles, was, rest, front, r.value.value);
          rest := Popped(rest, k.value);
          return;
        }
        CleanNext(roles, was, rest, front, k.value);
        AdvanceAgain(was, rest, Popped(rest, k.value), front, k.value);
        front := Some(k.value);
        rest := Popped(rest, k.value);
        k := LeastKey(roles, rest);
      }
      EndIsNext(roles, was, rest, front);
      r := Ok(None);
    }
  }

  lemma {:induction false} SortedAllSize(roles: seq<Role>, rest: Rests)
    requires SortedAll(roles, rest)
    ensures |rest| == |roles|
  {
  }

  lemma {:induction false} NothingPassed(roles: seq<Role>, rest: Rests)
    ensures Advanced(rest, rest, None) && Clean(roles, rest, None)
  {
  }

  lemma {:induction false} PopIsSmaller(rest: Rests, k: Text)
    requires IsLeast(rest, k)
    ensures Total(Popped(rest, k)) < Total(rest)
  {
    PopShrinks(rest, k);
  }

  lemma {:induction false} FailIsNext(roles: seq<Role>, rest: Rests, mid: Rests, front: Option<Text>, k: Text, error: ErrorKind)
    requires Advanced(rest, mid, front) && SortedAll(roles, rest) && After(front, k) && Bad(roles, mid, k)
    ensures NextIs(roles, rest, mid, Err(error))
  {
    JudgedAfter(roles, rest, mid, front, k);
  }

  // ------------------------------------------------------------------- drain

  /** What has been yielded is the content up to the front, which was sound. */
  ghost predicate Yielded(roles: seq<Role>, sources: Rests, out: seq<Entry>, front: Option<Text>) {
    && (forall k :: !After(front, k) ==> !Bad(roles, sources, k))
    && (forall e :: e in out <==> Merged(roles, sources, e) && !After(front, KeyOf(e)))
    && (forall i, j :: 0 <= i < j < |out| ==> Less(KeyOf(out[i]), KeyOf(out[j])))
  }

  lemma {:induction false} YieldOne(roles: seq<Role>, sources: Rests, rest: Rests, rest': Rests, out: seq<Entry>, front: Option<Text>, e: Entry)
    requires |sources| == |roles| && Advanced(sources, rest, front) && Yielded(roles, sources, out, front)
    requires NextIs(roles, rest, rest', Ok(Some(e)))
    ensures Advanced(sources, rest', Some(KeyOf(e))) && Yielded(roles, sources, out + [e], Some(KeyOf(e)))
  {
    hide Bad, Less, KeyOf, Offers;
    LessIsOrder();
    assert Merged(roles, rest, e);
    MergedIsAfter(roles, sources, rest, front, e);
    AdvanceAgain(sources, rest, rest', front, KeyOf(e));
    hide Merged, Advanced;
    forall j | !Less(KeyOf(e), j)
      ensures !Bad(roles, sources, j)
      ensures forall f :: KeyOf(f) == j && After(front, j) ==> (Merged(roles, sources, f) <==> f == e)
    {
      if After(front, j) { JudgedAfter(roles, sources, rest, front, j); }
    }
    forall f ensures f in out + [e] <==> Merged(roles, sources, f) && !Less(KeyOf(e), KeyOf(f)) {
      assert f in out <==> Merged(roles, sources, f) && !After(front, KeyOf(f));
    }
    forall i | 0 <= i < |out| ensures Less(KeyOf(out[i]), KeyOf(e)) {
      assert out[i] in out;
    }
  }

  lemma {:induction false} MergedIsAfter(roles: seq<Role>, sources: Rests, rest: Rests, front: Option<Text>, e: Entry)
    requires |sources| == |roles| && Advanced(sources, rest, front) && Merged(roles, rest, e)
    ensures After(front, KeyOf(e))
  {
    OffersAfter(roles, sources, rest, front, Addition, e);
    OffersAfter(roles, sources, rest, front, Base, e);
  }

  lemma {:induction false} AllYielded(roles: seq<Role>, sources: Rests, rest: Rests, out: seq<Entry>, front: Option<Text>, r: Result<Option<Entry>, ErrorKind>)
    requires |sources| == |roles| && Advanced(sources, rest, front) && Yielded(roles, sources, out, front)
    requires r.Err? || r.value.None?
    requires NextIs(roles, rest, rest, r)
    ensures r.Err? ==> exists k :: Bad(roles, sources, k)
    ensures r.Ok? ==> forall k :: !Bad(roles, sources, k)
    ensures r.Ok? ==> forall e :: e in out <==> Merged(roles, sources, e)
  {
    hide Bad, Less, KeyOf, Merged, Advanced;
    if r.Err? {
      var k :| Bad(roles, rest, k);
      BadIsAfter(roles, sources, rest, front, k);
    } else {
      forall j ensures !Bad(roles, sources, j) && forall e :: KeyOf(e) == j && After(front, j) ==> !Merged(roles, sources, e) {
        if After(front, j) { JudgedAfter(roles, sources, rest, front, j); }
      }
    }
  }

  /** What is bad in the remainder is bad in the whole. */
  lemma {:induction false} BadIsAfter(roles: seq<Role>, sources: Rests, rest: Rests, front: Option<Text>, k: Text)
    requires |sources| == |roles| && Advanced(sources, rest, front) && Bad(roles, rest, k)
    ensures Bad(roles, sources, k)
  {
    if !After(front, k) {
      NothingThere(roles, rest, k);
    } else {
      JudgedAfter(roles, sources, rest, front, k);
    }
  }

  /**
    * The whole iteration: it succeeds exactly when no key is bad, and then yields the
    * base without the removals, with the additions, in strict key order.
    */
  method Drain(roles: seq<Role>, sources: Rests) returns (r: Result<seq<Entry>, ErrorKind>)
    requires SortedAll(roles, sources)
    ensures r.Ok? <==> forall k :: !Bad(roles, sources, k)
    ensures r.Ok? ==> forall i, j :: 0 <= i < j < |r.value| ==> Less(KeyOf(r.value[i]), KeyOf(r.value[j]))
    ensures r.Ok? ==> forall e :: e in r.value <==> Merged(roles, sources, e)
  {
    hide Bad, Merged, Advanced, NextIs, Less, Total, KeyOf;
    var it := new LazyIterator(roles, sources);
    var out: seq<Entry> := [];
    ghost var front: Option<Text> := None;
    NothingPassed(roles, sources);
    while true
      invariant it.Valid() && it.roles == roles && Advanced(sources, it.rest, front) && Yielded(roles, sources, out, front)
      decreases Total(it.rest)
    {
      ghost var rest := it.rest;
      var item := it.Next();
      if item.Err? || item.value.None? {
        NextIgnoresRest(roles, rest, it.rest, item);
        AllYielded(roles, sources, rest, out, front, item);
        if item.Err? { return Err(item.error); }
        return Ok(out);
      }
      YieldOne(roles, sources, rest, it.rest, out, front, item.value.value);
      out := out + [item.value.value];
      front := Some(KeyOf(item.value.value));
    }
  }

  lemma {:induction false} NextIgnoresRest(roles: seq<Role>, rest: Rests, rest': Rests, r: Result<Option<Entry>, ErrorKind>)
    requires NextIs(roles, rest, rest', r) && (r.Err? || r.value.None?)
    ensures NextIs(roles, rest, rest, r)
  {
  }

  // ------------------------------------------------------- prefixed sources

  /** A source of the merge: stored entries, and the path below which the directory sees them. */
  datatype Source = Source(role: Role, prefix: seq<Text>, stored: seq<Entry>)

  /** Some source of the role holds an entry that is this one once placed below the source's prefix. */
  ghost predicate Places(sources: seq<Source>, role: Role, e: Entry) {
    exists s, i :: 0 <= s < |sources| && sources[s].role == role && 0 <= i < |sources[s].stored|
                   && e == Prefixed(sources[s].prefix, sources[s].stored[i])
  }

  /** What the directory contains. */
  ghost predicate Contains(sources: seq<Source>, e: Entry) {
    Places(sources, Addition, e) || (Places(sources, Base, e) && !Places(sources, Removal, e))
  }

  ghost predicate SameKey(sources: seq<Source>, s: nat, i: nat, t: nat, j: nat) {
    && s < t < |sources| && sources[s].role == sources[t].role && i < |sources[s].stored| && j < |sources[t].stored|
    && KeyOf(Prefixed(sources[s].prefix, sources[s].stored[i])) == KeyOf(Prefixed(sources[t].prefix, sources[t].stored[j]))
  }

  /** Two sources of one role place entries with the same key. */
  ghost predicate PlacedTwice(sources: seq<Source>) {
    exists s: nat, i: nat, t: nat, j: nat :: SameKey(sources, s, i, t, j)
  }

  /** A removal that the base does not hold, or an addition over a different entry that the base keeps. */
  ghost predicate Unsound(sources: seq<Source>) {
    || (exists e :: Places(sources, Removal, e) && !Places(sources, Base, e))
    || (exists a, b :: KeyOf(a) == KeyOf(b) && a != b && Places(sources, Addition, a)
                       && Places(sources, Base, b) && !Places(sources, Removal, b))
  }

  /** The roles and the prefixed entries of the sources. */
  ghost predicate Opened(sources: seq<Source>, roles: seq<Role>, rests: Rests) {
    && |roles| == |rests| == |sources|
    && forall s :: 0 <= s < |sources| ==> roles[s] == sources[s].role && rests[s] == PrefixAll(sources[s].prefix, sources[s].stored)
  }

  lemma {:induction false} OffersIsPlaces(sources: seq<Source>, roles: seq<Role>, rests: Rests, role: Role, e: Entry)
    requires Opened(sources, roles, rests)
    ensures Offers(roles, rests, role, e) <==> Places(sources, role, e)
  {
    hide Prefixed;
    if Offers(roles, rests, role, e) {
      var s :| 0 <= s < |rests| && s < |roles| && roles[s] == role && e in rests[s];
      var i :| 0 <= i < |rests[s]| && rests[s][i] == e;
      assert e == Prefixed(sources[s].prefix, sources[s].stored[i]);
    }
    if Places(sources, role, e) {
      var s, i :| 0 <= s < |sources| && sources[s].role == role && 0 <= i < |sources[s].stored|
                  && e == Prefixed(sources[s].prefix, sources[s].stored[i]);
      assert rests[s][i] == e;
    }
  }

  lemma {:induction false} RepeatsIsPlacedTwice(sources: seq<Source>, roles: seq<Role>, rests: Rests)
    requires Opened(sources, roles, rests)
    ensures (exists k :: Repeats(roles, rests, k)) <==> PlacedTwice(sources)
  {
    hide Prefixed, KeyOf, SameKey, Clash;
    if k :| Repeats(roles, rests, k) {
      var s: nat, t: nat, e, f :| Clash(roles, rests, k, s, t, e, f);
      var i, j := ClashIsSameKey(sources, roles, rests, k, s, t, e, f);
    }
    if PlacedTwice(sources) {
      var s: nat, i: nat, t: nat, j: nat :| SameKey(sources, s, i, t, j);
      var k := SameKeyIsRepeat(sources, roles, rests, s, i, t, j);
    }
  }

  lemma {:induction false} ClashIsSameKey(sources: seq<Source>, roles: seq<Role>, rests: Rests,
                                          k: Text, s: nat, t: nat, e: Entry, f: Entry) returns (i: nat, j: nat)
    requires Opened(sources, roles, rests) && Clash(roles, rests, k, s, t, e, f)
    ensures SameKey(sources, s, i, t, j)
  {
    hide Prefixed, KeyOf;
    i :| 0 <= i < |rests[s]| && rests[s][i] == e;
    j :| 0 <= j < |rests[t]| && rests[t][j] == f;
  }

  lemma {:induction false} SameKeyIsRepeat(sources: seq<Source>, roles: seq<Role>, rests: Rests,
                                           s: nat, i: nat, t: nat, j: nat) returns (k: Text)
    requires Opened(sources, roles, rests) && SameKey(sources, s, i, t, j)
    ensures Repeats(roles, rests, k)
  {
    hide Prefixed, KeyOf;
    k := KeyOf(rests[s][i]);
    assert Clash(roles, rests, k, s, t, rests[s][i], rests[t][j]);
  }

  lemma {:induction false} BadIsUnsound(sources: seq<Source>, roles: seq<Role>, rests: Rests)
    requires Opened(sources, roles, rests)
    ensures (exists k :: Bad(roles, rests, k)) <==> PlacedTwice(sources) || Unsound(sources)
    ensures forall e :: Merged(roles, rests, e) <==> Contains(sources, e)
  {
    hide Offers, Places, Opened, KeyOf, Repeats, PlacedTwice;
    RepeatsIsPlacedTwice(sources, roles, rests);
    forall role, e ensures Offers(roles, rests, role, e) <==> Places(sources, role, e) {
      OffersIsPlaces(sources, roles, rests, role, e);
    }
    UnsoundIsBad(sources, roles, rests);
    if k :| Bad(roles, rests, k) {
      if Mismatch(roles, rests, k) {
        var e :| KeyOf(e) == k && Offers(roles, rests, Removal, e) && !Offers(roles, rests, Base, e);
        assert Places(sources, Removal, e) && !Places(sources, Base, e);
      } else if Collision(roles, rests, k) {
        var a, b :| KeyOf(a) == KeyOf(b) == k && Collides(roles, rests, a, b);
        assert Places(sources, Addition, a) && Places(sources, Base, b) && !Places(sources, Removal, b);
      }
    }
    if k :| Repeats(roles, rests, k) { assert Bad(roles, rests, k); }
  }

  lemma {:induction false} UnsoundIsBad(sources: seq<Source>, roles: seq<Role>, rests: Rests)
    requires forall role, e :: Offers(roles, rests, role, e) <==> Places(sources, role, e)
    ensures Unsound(sources) ==> exists k :: Bad(roles, rests, k)
  {
    hide Offers, Places, KeyOf, Repeats;
    if e :| Places(sources, Removal, e) && !Places(sources, Base, e) {
      assert Mismatch(roles, rests, KeyOf(e));
      assert Bad(roles, rests, KeyOf(e));
    } else if a, b :| KeyOf(a) == KeyOf(b) && a != b && Places(sources, Addition, a)
                      && Places(sources, Base, b) && !Places(sources, Removal, b) {
      assert Collides(roles, rests, a, b);
      assert Bad(roles, rests, KeyOf(a));
    }
  }

  method PlaceAll(prefix: seq<Text>, stored: seq<Entry>) returns (r: Result<seq<Entry>, ErrorKind>)
    ensures r.Ok? <==> forall i :: 0 <= i < |stored| ==> Placeable(prefix, stored[i])
    ensures r.Ok? ==> r.value == PrefixAll(prefix, stored)
    ensures r.Err? ==> r.error == Invalid
  {
    var placed: seq<Entry> := [];
    for n := 0 to |stored|
      invariant placed == PrefixAll(prefix, stored[..n]) && forall i :: 0 <= i < n ==> Placeable(prefix, stored[i])
    {
      var e := PlaceEntry(prefix, stored[n]);
      if e.Err? { return Err(e.error); }
      placed := placed + [e.value];
    }
    assert stored[..|stored|] == stored;
    r := Ok(placed);
  }

  ghost predicate AllPlaceable(sources: seq<Source>) {
    forall s, i :: 0 <= s < |sources| && 0 <= i < |sources[s].stored| ==> Placeable(sources[s].prefix, sources[s].stored[i])
  }

  /**
    * The content of a directory from its stored sources: the iteration fails exactly on a
    * path that cannot be prefixed, a repeated key, a removal the base does not hold or an addition over another entry, and
    * otherwise yields each entry of the content once, in key order, under its prefixed path.
    */
  method DrainPrefixed(sources: seq<Source>) returns (r: Result<seq<Entry>, ErrorKind>)
    requires forall s :: 0 <= s < |sources| ==> Sorted(sources[s].stored)
    ensures r.Ok? <==> AllPlaceable(sources) && !PlacedTwice(sources) && !Unsound(sources)
    ensures r.Ok? ==> forall i, j :: 0 <= i < j < |r.value| ==> Less(KeyOf(r.value[i]), KeyOf(r.value[j]))
    ensures r.Ok? ==> forall e :: e in r.value <==> Contains(sources, e)
  {
    hide Sorted, Less, KeyOf, Bad, Merged, PlacedTwice, Unsound, Contains, Placeable;
    var roles, rests := [], [];
    for s := 0 to |sources|
      invariant Opened(sources[..s], roles, rests) && SortedAll(roles, rests) && AllPlaceable(sources[..s])
    {
      var source := sources[s];
      PrefixedIsSorted(source.prefix, source.stored);
      var placed := PlaceAll(source.prefix, source.stored);
      if placed.Err? { return Err(placed.error); }
      roles, rests := roles + [source.role], rests + [placed.value];
    }
    assert sources[..|sources|] == sources;
    BadIsUnsound(sources, roles, rests);
    r := Drain(roles, rests);
  }
}
