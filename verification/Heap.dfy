/**
 The kernel heap on values: areas tiled by regions, and 32 free lists.
 Every operation of the allocator is a function here; the class in BucketAlloc.dfy, which works
 on headers held inside the managed memory, is proved to compute these functions.
 */
module Heap {
  import opened Common
  import opened Logs

  const HEADER: nat := 8
  const BUCKETS: nat := 32

  /** A header at `addr` followed by `size` payload bytes. */
  datatype Region = Region(addr: int, size: int, used: bool) {
    function End(): int { addr + HEADER + size }
  }

  /** One run of memory given to the allocator; its own two-word header sits just below `lo`. */
  datatype Area = Area(lo: int, hi: int, regions: seq<Region>)

  /** Areas, newest first, and the addresses in each free list, head first. */
  datatype State = State(areas: seq<Area>, lists: seq<seq<int>>)

  type Table = map<int, Region>

  // ---------------------------------------------------------------- tiling

  /** The regions lie end to end from `lo` to `hi` with nothing between them. */
  ghost predicate Tiles(rs: seq<Region>, lo: int, hi: int) {
    if rs == [] then lo == hi
    else rs[0].addr == lo && rs[0].size >= 1 && Tiles(rs[1..], rs[0].End(), hi)
  }

  /** Regions by header address. */
  function RegionMap(rs: seq<Region>): Table {
    if rs == [] then map[] else RegionMap(rs[1..])[rs[0].addr := rs[0]]
  }

  function TableOf(areas: seq<Area>): Table {
    if areas == [] then map[] else TableOf(areas[1..]) + RegionMap(areas[0].regions)
  }

  /** All entries lie in [lo, hi), are filed under their own address, and do not overlap. */
  ghost predicate Within(t: Table, lo: int, hi: int) {
    forall a :: a in t ==> t[a].addr == a && lo <= a && t[a].End() <= hi && t[a].size >= 1
  }

  ghost predicate Clear(t: Table, a: int, b: int)
    requires a in t && b in t
  {
    t[a].End() <= b || t[b].End() <= a
  }

  ghost predicate Separate(t: Table) {
    forall a, b {:trigger Clear(t, a, b)} :: a in t && b in t && a != b ==> Clear(t, a, b)
  }

  lemma {:induction false} TilesWithin(rs: seq<Region>, lo: int, hi: int)
    requires Tiles(rs, lo, hi)
    ensures lo <= hi
    ensures Within(RegionMap(rs), lo, hi) && Separate(RegionMap(rs))
    ensures rs != [] ==> lo < hi
  {
    if rs != [] {
      TilesWithin(rs[1..], rs[0].End(), hi);
      var t, u := RegionMap(rs), RegionMap(rs[1..]);
      forall a, b | a in t && b in t && a != b ensures Clear(t, a, b) {
        if a in u && b in u {
          assert Clear(u, a, b);
        }
      }
    }
  }

  ghost predicate AreaOk(r: Area) {
    8 < r.lo < r.hi < TWO32 && r.hi - r.lo < TWO31 && Tiles(r.regions, r.lo, r.hi)
  }

  ghost predicate Apart(x: Area, y: Area) {
    x.hi <= y.lo - HEADER || y.hi <= x.lo - HEADER
  }

  ghost predicate AreasOk(areas: seq<Area>) {
    && (forall i :: 0 <= i < |areas| ==> AreaOk(areas[i]))
    && (forall i, j :: 0 <= i < j < |areas| ==> Apart(areas[i], areas[j]))
  }

  /** An address interval that no area touches. */
  ghost predicate Untouched(areas: seq<Area>, lo: int, hi: int) {
    forall i :: 0 <= i < |areas| ==> areas[i].hi <= lo || hi <= areas[i].lo - HEADER
  }

  /** No region overlaps the two header words below `lo`. */
  ghost predicate ClearOf(t: Table, lo: int) {
    forall a :: a in t ==> t[a].End() <= lo - HEADER || lo <= a
  }

  /** Entries of the table and the two-word headers of the areas. */
  ghost predicate TableOk(areas: seq<Area>) {
    && Within(TableOf(areas), 9, TWO32) && Separate(TableOf(areas))
    && (forall a :: a in TableOf(areas) ==> TableOf(areas)[a].size < TWO31)
    && (forall i :: 0 <= i < |areas| ==> ClearOf(TableOf(areas), areas[i].lo))
  }

  lemma {:induction false} TableInAreas(areas: seq<Area>, lo: int, hi: int)
    requires AreasOk(areas) && Untouched(areas, lo, hi)
    ensures forall a :: a in TableOf(areas) ==> TableOf(areas)[a].End() <= lo || hi <= a - HEADER
  {
    if areas != [] {
      AreasTail(areas);
      assert forall i :: 0 <= i < |areas[1..]| ==> areas[1..][i] == areas[i + 1];
      TableInAreas(areas[1..], lo, hi);
      TilesWithin(areas[0].regions, areas[0].lo, areas[0].hi);
    }
  }

  lemma AreasTail(areas: seq<Area>)
    requires AreasOk(areas) && areas != []
    ensures AreasOk(areas[1..])
    ensures Untouched(areas[1..], areas[0].lo - HEADER, areas[0].hi)
  {
    var rest := areas[1..];
    forall i | 0 <= i < |rest| ensures AreaOk(rest[i]) && Apart(areas[0], rest[i]) {
      assert rest[i] == areas[i + 1];
    }
  }

  lemma {:induction false} AreasTable(areas: seq<Area>)
    requires AreasOk(areas)
    ensures TableOk(areas)
  {
    if areas != [] {
      var rest := areas[1..];
      AreasTail(areas);
      AreasTable(rest);
      TilesWithin(areas[0].regions, areas[0].lo, areas[0].hi);
      TableInAreas(rest, areas[0].lo - HEADER, areas[0].hi);
      JoinTables(TableOf(rest), RegionMap(areas[0].regions), areas[0].lo, areas[0].hi);
      forall i | 0 <= i < |areas|
        ensures ClearOf(TableOf(areas), areas[i].lo)
      {
        if i > 0 {
          assert areas[i] == rest[i - 1];
          assert Apart(areas[0], areas[i]);
        }
      }
    }
  }

  /** Joining a table confined to [lo, hi) with one that keeps out of it. */
  lemma JoinTables(t: Table, s: Table, lo: int, hi: int)
    requires 9 <= lo < hi < TWO32 && hi - lo < TWO31
    requires Within(t, 9, TWO32) && Separate(t) && (forall a :: a in t ==> t[a].size < TWO31)
    requires forall a :: a in t ==> t[a].End() <= lo - HEADER || hi <= a - HEADER
    requires Within(s, lo, hi) && Separate(s)
    ensures Within(t + s, 9, TWO32) && Separate(t + s)
    ensures forall a :: a in t + s ==> (t + s)[a].size < TWO31
  {
    forall a, b | a in t + s && b in t + s && a != b
      ensures Clear(t + s, a, b)
    {
      JoinedApart(t, s, lo, hi, a, b);
    }
  }

  lemma JoinedApart(t: Table, s: Table, lo: int, hi: int, a: int, b: int)
    requires Within(s, lo, hi) && Separate(s) && Separate(t) && HEADER <= lo
    requires forall c :: c in t ==> t[c].addr == c && (t[c].End() <= lo - HEADER || hi <= c - HEADER)
    requires a in t + s && b in t + s && a != b
    ensures Clear(t + s, a, b)
  {
    if a in s && b in s {
      assert Clear(s, a, b);
    } else if a !in s && b !in s {
      assert Clear(t, a, b);
    }
  }

  // ---------------------------------------------------------------- replacing one region

  /** `rs` with the region whose header is at `a` replaced by `news`. */
  function Subst(rs: seq<Region>, a: int, news: seq<Region>): seq<Region> {
    if rs == [] then []
    else if rs[0].addr == a then news + rs[1..]
    else [rs[0]] + Subst(rs[1..], a, news)
  }

  function SubstAreas(areas: seq<Area>, a: int, news: seq<Region>): (r: seq<Area>)
    ensures |r| == |areas|
    ensures forall i :: 0 <= i < |areas| ==>
              r[i].lo == areas[i].lo && r[i].hi == areas[i].hi && r[i].regions == Subst(areas[i].regions, a, news)
  {
    seq(|areas|, i requires 0 <= i < |areas| =>
      Area(areas[i].lo, areas[i].hi, Subst(areas[i].regions, a, news)))
  }

  lemma {:induction false} TilesConcat(xs: seq<Region>, ys: seq<Region>, lo: int, mid: int, hi: int)
    requires Tiles(xs, lo, mid) && Tiles(ys, mid, hi)
    ensures Tiles(xs + ys, lo, hi)
    ensures RegionMap(xs + ys) == RegionMap(ys) + RegionMap(xs)
  {
    if xs == [] {
      assert xs + ys == ys;
    } else {
      TilesConcat(xs[1..], ys, xs[0].End(), mid, hi);
      assert (xs + ys)[1..] == xs[1..] + ys;
    }
  }

  lemma {:induction false} SubstAbsent(rs: seq<Region>, a: int, news: seq<Region>)
    requires a !in RegionMap(rs)
    ensures Subst(rs, a, news) == rs
  {
    if rs != [] {
      SubstAbsent(rs[1..], a, news);
    }
  }

  lemma UpdateElsewhere(t: Table, s: Table, a: int, b: int, r: Region)
    requires b != a && b !in s
    ensures (t - {a} + s)[b := r] == t[b := r] - {a} + s
  {
  }

  lemma {:induction false} SubstTiles(rs: seq<Region>, lo: int, hi: int, a: int, news: seq<Region>)
    requires Tiles(rs, lo, hi) && a in RegionMap(rs)
    requires Tiles(news, a, RegionMap(rs)[a].End())
    ensures Tiles(Subst(rs, a, news), lo, hi)
    ensures RegionMap(Subst(rs, a, news)) == RegionMap(rs) - {a} + RegionMap(news)
  {
    var rest := rs[1..];
    TilesWithin(rest, rs[0].End(), hi);
    if rs[0].addr == a {
      TilesConcat(news, rest, lo, rs[0].End(), hi);
      assert RegionMap(rs) - {a} == RegionMap(rest);
    } else {
      assert RegionMap(rs)[a] == RegionMap(rest)[a];
      SubstTiles(rest, rs[0].End(), hi, a, news);
      TilesWithin(news, a, RegionMap(rest)[a].End());
      UpdateElsewhere(RegionMap(rest), RegionMap(news), a, rs[0].addr, rs[0]);
      assert Subst(rs, a, news)[1..] == Subst(rest, a, news);
    }
  }

  lemma SubstAreasTail(areas: seq<Area>, a: int, news: seq<Region>)
    requires areas != []
    ensures SubstAreas(areas, a, news)[1..] == SubstAreas(areas[1..], a, news)
  {
  }

  lemma {:induction false} ConsAreas(x: Area, rest: seq<Area>)
    requires AreaOk(x) && AreasOk(rest) && Untouched(rest, x.lo - HEADER, x.hi)
    ensures AreasOk([x] + rest)
    ensures TableOf([x] + rest) == TableOf(rest) + RegionMap(x.regions)
  {
    var areas := [x] + rest;
    assert areas[1..] == rest;
    forall i, j | 0 <= i < j < |areas| ensures Apart(areas[i], areas[j]) {
      assert areas[j] == rest[j - 1];
      if i > 0 {
        assert areas[i] == rest[i - 1];
      }
    }
  }

  lemma {:induction false} SubstAreasTable(areas: seq<Area>, a: int, news: seq<Region>)
    requires AreasOk(areas) && a in TableOf(areas)
    requires Tiles(news, a, TableOf(areas)[a].End())
    ensures AreasOk(SubstAreas(areas, a, news))
    ensures TableOf(SubstAreas(areas, a, news)) == TableOf(areas) - {a} + RegionMap(news)
  {
    var x, rest := areas[0], areas[1..];
    var y := Area(x.lo, x.hi, Subst(x.regions, a, news));
    AreasTail(areas);
    SubstAreasTail(areas, a, news);
    assert SubstAreas(areas, a, news) == [y] + SubstAreas(rest, a, news);
    assert TableOf(areas) == TableOf(rest) + RegionMap(x.regions);
    if a in RegionMap(x.regions) {
      SubstTiles(x.regions, x.lo, x.hi, a, news);
      NotBelow(areas, a);
      SubstAllAbsent(rest, a, news);
      ConsAreas(y, rest);
      JoinMinus(TableOf(rest), RegionMap(x.regions), RegionMap(news), a);
    } else {
      assert TableOf(areas)[a] == TableOf(rest)[a];
      SubstAbsent(x.regions, a, news);
      SubstAreasTable(rest, a, news);
      ConsAreas(y, SubstAreas(rest, a, news));
      NewsApart(areas, a, news);
      JoinLater(TableOf(rest), RegionMap(x.regions), RegionMap(news), a);
    }
  }

  lemma JoinLater(t: Table, s: Table, n: Table, a: int)
    requires a !in s && n.Keys !! s.Keys
    ensures (t - {a} + n) + s == t + s - {a} + n
  {
  }

  lemma JoinMinus(t: Table, s: Table, n: Table, a: int)
    requires a !in t
    ensures t + (s - {a} + n) == t + s - {a} + n
  {
  }

  lemma NotBelow(areas: seq<Area>, a: int)
    requires AreasOk(areas) && areas != [] && a in RegionMap(areas[0].regions)
    ensures a !in TableOf(areas[1..])
  {
    AreasTail(areas);
    TilesWithin(areas[0].regions, areas[0].lo, areas[0].hi);
    TableInAreas(areas[1..], areas[0].lo - HEADER, areas[0].hi);
    AreasTable(areas[1..]);
  }

  /** Replacement regions of an area further down do not collide with the first area. */
  lemma {:induction false} NewsApart(areas: seq<Area>, a: int, news: seq<Region>)
    requires AreasOk(areas) && areas != [] && a in TableOf(areas[1..])
    requires Tiles(news, a, TableOf(areas[1..])[a].End())
    ensures RegionMap(news).Keys !! RegionMap(areas[0].regions).Keys
    ensures a !in RegionMap(areas[0].regions)
  {
    AreasTail(areas);
    TilesWithin(areas[0].regions, areas[0].lo, areas[0].hi);
    TableInAreas(areas[1..], areas[0].lo - HEADER, areas[0].hi);
    AreasTable(areas[1..]);
    var x, end := areas[0], TableOf(areas[1..])[a].End();
    TilesWithin(news, a, end);
    assert end <= x.lo - HEADER || x.hi <= a;
    forall b | b in RegionMap(news) ensures b !in RegionMap(x.regions) {
      assert a <= b < end;
    }
  }

  lemma {:induction false} SubstAllAbsent(areas: seq<Area>, a: int, news: seq<Region>)
    requires a !in TableOf(areas)
    ensures SubstAreas(areas, a, news) == areas
  {
    if areas != [] {
      SubstAreasTail(areas, a, news);
      SubstAllAbsent(areas[1..], a, news);
      SubstAbsent(areas[0].regions, a, news);
      assert areas == [areas[0]] + areas[1..];
      assert SubstAreas(areas, a, news) == [SubstAreas(areas, a, news)[0]] + areas[1..];
    }
  }

  // ---------------------------------------------------------------- free lists

  ghost predicate NoRepeats(s: seq<int>) {
    forall i, j :: 0 <= i < j < |s| ==> s[i] != s[j]
  }

  /** Everything in list `k` is a free region of 2^k up to 2^(k+1)-1 bytes, once. */
  ghost predicate Filed(t: Table, s: seq<int>, k: nat) {
    && NoRepeats(s)
    && forall a :: a in s ==> a in t && !t[a].used && Pow2(k) <= t[a].size < Pow2(k + 1)
  }

  /** The lists hold exactly the free regions, each in the bucket of its size. */
  ghost predicate ListsOk(t: Table, lists: seq<seq<int>>) {
    && |lists| == BUCKETS
    && (forall k :: 0 <= k < BUCKETS ==> Filed(t, lists[k], k))
    && (forall a :: a in t && !t[a].used ==> 1 <= t[a].size < TWO32 && InBucket(lists, t[a].size, a))
  }

  ghost predicate InBucket(lists: seq<seq<int>>, size: int, a: int)
    requires size >= 1
  {
    Log(size) < |lists| && a in lists[Log(size)]
  }

  function Push(lists: seq<seq<int>>, k: nat, a: int): (r: seq<seq<int>>)
    requires k < |lists|
  {
    lists[k := [a] + lists[k]]
  }

  /** A free region appears in no list but its own. */
  lemma FiledOnce(t: Table, lists: seq<seq<int>>, i: nat, j: nat, a: int)
    requires ListsOk(t, lists) && i < BUCKETS && j < BUCKETS && a in lists[i] && a in lists[j]
    ensures i == j
  {
    assert Filed(t, lists[i], i) && Filed(t, lists[j], j);
    LogUnique(t[a].size, i);
    LogUnique(t[a].size, j);
  }

  lemma PushFiled(t: Table, lists: seq<seq<int>>, a: int, r: Region, i: nat)
    requires ListsOk(t, lists) && a !in t && !r.used && 1 <= r.size && Log(r.size) < BUCKETS && i < BUCKETS
    ensures Filed(t[a := r], Push(lists, Log(r.size), a)[i], i)
  {
    assert Filed(t, lists[i], i);
    if i == Log(r.size) {
      var s := [a] + lists[i];
      assert forall b :: b in s <==> b == a || b in lists[i];
    }
  }

  lemma PushOk(t: Table, lists: seq<seq<int>>, a: int, r: Region)
    requires ListsOk(t, lists) && a !in t && !r.used && 1 <= r.size < TWO32
    ensures Log(r.size) < BUCKETS
    ensures ListsOk(t[a := r], Push(lists, Log(r.size), a))
  {
    Bounded(r.size);
    var next, t' := Push(lists, Log(r.size), a), t[a := r];
    forall i | 0 <= i < BUCKETS ensures Filed(t', next[i], i) {
      PushFiled(t, lists, a, r, i);
    }
    forall b | b in t' && !t'[b].used ensures InBucket(next, t'[b].size, b) {
      if b != a {
        assert InBucket(lists, t[b].size, b);
      }
    }
  }

  lemma AddUsedOk(t: Table, lists: seq<seq<int>>, a: int, r: Region)
    requires ListsOk(t, lists) && a !in t && r.used
    ensures ListsOk(t[a := r], lists)
  {
    forall i | 0 <= i < BUCKETS ensures Filed(t[a := r], lists[i], i) {
      assert Filed(t, lists[i], i);
    }
  }

  lemma DropUsedOk(t: Table, lists: seq<seq<int>>, a: int)
    requires ListsOk(t, lists) && a in t && t[a].used
    ensures ListsOk(t - {a}, lists)
  {
    forall i | 0 <= i < BUCKETS ensures Filed(t - {a}, lists[i], i) {
      assert Filed(t, lists[i], i);
    }
  }

  lemma TailMembers(s: seq<int>)
    requires s != [] && NoRepeats(s)
    ensures NoRepeats(s[1..])
    ensures forall b :: b in s[1..] <==> b in s && b != s[0]
  {
    assert s == [s[0]] + s[1..];
  }

  lemma PopFiled(t: Table, lists: seq<seq<int>>, k: nat, i: nat)
    requires ListsOk(t, lists) && k < BUCKETS && lists[k] != [] && i < BUCKETS
    ensures Filed(t - {lists[k][0]}, lists[k := lists[k][1..]][i], i)
  {
    assert Filed(t, lists[i], i);
    if i == k {
      TailMembers(lists[k]);
    } else if lists[k][0] in lists[i] {
      FiledOnce(t, lists, i, k, lists[k][0]);
    }
  }

  lemma PopBucket(t: Table, lists: seq<seq<int>>, k: nat, b: int)
    requires ListsOk(t, lists) && k < BUCKETS && lists[k] != []
    requires b in t && b != lists[k][0] && !t[b].used
    ensures InBucket(lists[k := lists[k][1..]], t[b].size, b)
  {
    assert InBucket(lists, t[b].size, b);
    assert Filed(t, lists[k], k);
    TailMembers(lists[k]);
  }

  lemma {:induction false} PopOk(t: Table, lists: seq<seq<int>>, k: nat)
    requires ListsOk(t, lists) && k < BUCKETS && lists[k] != []
    ensures lists[k][0] in t && !t[lists[k][0]].used && Pow2(k) <= t[lists[k][0]].size
    ensures ListsOk(t - {lists[k][0]}, lists[k := lists[k][1..]])
  {
    var a, next := lists[k][0], lists[k := lists[k][1..]];
    assert Filed(t, lists[k], k);
    forall i | 0 <= i < BUCKETS ensures Filed(t - {a}, next[i], i) {
      PopFiled(t, lists, k, i);
    }
    forall b | b in t - {a} && !(t - {a})[b].used ensures InBucket(next, (t - {a})[b].size, b) {
      PopBucket(t, lists, k, b);
    }
  }

  /** The allocator's invariant. */
  ghost predicate Valid(s: State) {
    AreasOk(s.areas) && ListsOk(TableOf(s.areas), s.lists)
  }

  // ---------------------------------------------------------------- operations

  function NoLists(): (r: seq<seq<int>>)
    ensures |r| == BUCKETS && forall k :: 0 <= k < BUCKETS ==> r[k] == []
  {
    seq(BUCKETS, _ => [])
  }

  function EmptyHeap(): State { State([], NoLists()) }

  /** The first non-empty list at or above `i`. */
  function FirstNonEmpty(lists: seq<seq<int>>, i: nat): (r: Option<int>)
    requires i <= |lists|
    ensures r.Some? ==> i <= r.value < |lists| && lists[r.value] != []
    ensures r.Some? ==> forall j :: i <= j < r.value ==> lists[j] == []
    ensures r.None? ==> forall j :: i <= j < |lists| ==> lists[j] == []
    decreases |lists| - i
  {
    if i == |lists| then None
    else if lists[i] != [] then Some(i)
    else FirstNonEmpty(lists, i + 1)
  }

  /** What the head region of list `i` becomes when `size` bytes are carved from it. */
  function Carve(r: Region, size: int): (news: seq<Region>)
  {
    if size + HEADER < r.size then
      [Region(r.addr, size, true), Region(r.addr + HEADER + size, r.size - size - HEADER, false)]
    else
      [Region(r.addr, r.size, true)]
  }

  function TakeLists(lists: seq<seq<int>>, i: nat, news: seq<Region>): seq<seq<int>>
    requires |lists| == BUCKETS && i < BUCKETS && lists[i] != []
    requires 1 <= |news| <= 2 && (|news| == 2 ==> 1 <= news[1].size < TWO31)
  {
    var popped := lists[i := lists[i][1..]];
    if |news| == 1 then popped
    else Bounded(news[1].size); Push(popped, Log(news[1].size), news[1].addr)
  }

  lemma {:induction false} Bounded(size: int)
    requires 1 <= size < TWO32
    ensures Log(size) < BUCKETS
  {
    Pow2Values();
    LogBelow(size, 32);
  }

  /** mallocOneTry: the new state and the header address, or no address and no change. */
  function OneTry(s: State, size: int): (r: (State, Option<int>))
    requires Valid(s) && 1 <= size < TWO31
  {
    HighestIsCeiling(size, 31); Pow2Values();
    var found := FirstNonEmpty(s.lists, NextHighestPowerOfTwo(size));
    if found.None? then (s, None)
    else
      AreasTable(s.areas); PopOk(TableOf(s.areas), s.lists, found.value);
      var a := s.lists[found.value][0];
      var news := Carve(TableOf(s.areas)[a], size);
      (State(SubstAreas(s.areas, a, news), TakeLists(s.lists, found.value, news)), Some(a))
  }

  lemma CarveTiles(r: Region, size: int)
    requires 1 <= size <= r.size
    ensures Tiles(Carve(r, size), r.addr, r.End())
    ensures var news := Carve(r, size);
            news[0].addr == r.addr && news[0].used && size <= news[0].size &&
            RegionMap(news) == if |news| == 1 then map[r.addr := news[0]]
                               else map[r.addr := news[0], news[1].addr := news[1]]
  {
    var news := Carve(r, size);
    if |news| == 2 {
      assert news[1..] == [news[1]];
      assert Tiles([news[1]], news[1].addr, r.End()) by { assert [news[1]][1..] == []; }
      assert RegionMap([news[1]]) == map[news[1].addr := news[1]];
    } else {
      assert news[1..] == [];
    }
  }

  lemma OverwriteTwo(t: Table, a: int, r: Region, b: int, q: Region)
    requires a != b
    ensures t - {a} + map[a := r, b := q] == (t - {a})[b := q][a := r]
  {
  }

  /** Carving from the head of list `i`, seen on the lists. */
  lemma TakeOk(t: Table, lists: seq<seq<int>>, i: nat, size: int)
    requires ListsOk(t, lists) && Within(t, 9, TWO32) && Separate(t) && i < BUCKETS && lists[i] != []
    requires lists[i][0] in t && 1 <= size <= t[lists[i][0]].size < TWO31
    ensures var a := lists[i][0]; var news := Carve(t[a], size);
            ListsOk(t - {a} + RegionMap(news), TakeLists(lists, i, news))
  {
    var a := lists[i][0];
    var news := Carve(t[a], size);
    var popped := lists[i := lists[i][1..]];
    PopOk(t, lists, i);
    CarveTiles(t[a], size);
    if |news| == 1 {
      AddUsedOk(t - {a}, popped, a, news[0]);
      Overwrite(t, a, news[0]);
      assert (t - {a})[a := news[0]] == t[a := news[0]];
    } else {
      var b := news[1].addr;
      assert b in t ==> Clear(t, a, b);
      PushOk(t - {a}, popped, b, news[1]);
      AddUsedOk((t - {a})[b := news[1]], TakeLists(lists, i, news), a, news[0]);
      OverwriteTwo(t, a, news[0], b, news[1]);
    }
  }

  lemma TakeGrants(t: Table, a: int, size: int)
    requires Within(t, 9, TWO32) && Separate(t)
    requires a in t && !t[a].used && 1 <= size <= t[a].size
    ensures Granted(t, t - {a} + RegionMap(Carve(t[a], size)), a, size)
  {
    CarveTiles(t[a], size);
    var news := Carve(t[a], size);
    if |news| == 2 {
      assert news[1].addr in t ==> Clear(t, a, news[1].addr);
    }
  }

  /** One try keeps the invariant, and a block it returns was free, is large enough and is now in use. */
  lemma OneTryOk(s: State, size: int)
    requires Valid(s) && 1 <= size < TWO31
    ensures var (s', p) := OneTry(s, size);
            && Valid(s')
            && (p.Some? ==> Granted(TableOf(s.areas), TableOf(s'.areas), p.value, size))
            && (p.None? ==> s' == s && NothingFrom(s.lists, NextHighestPowerOfTwo(size)))
  {
    var (s', p) := OneTry(s, size);
    HighestIsCeiling(size, 31);
    Pow2Values();
    if p.Some? {
      var t, i := TableOf(s.areas), FirstNonEmpty(s.lists, NextHighestPowerOfTwo(size)).value;
      AreasTable(s.areas);
      PopOk(t, s.lists, i);
      HighestIsCeiling(size, i);
      CarveTiles(t[p.value], size);
      SubstAreasTable(s.areas, p.value, Carve(t[p.value], size));
      TakeOk(t, s.lists, i, size);
      TakeGrants(t, p.value, size);
    }
  }

  ghost predicate NothingFrom(lists: seq<seq<int>>, b: int) {
    forall j :: b <= j < |lists| && 0 <= j ==> lists[j] == []
  }

  /** `p` went from free to used with room for `size` bytes, and every used region stayed as it was. */
  ghost predicate Granted(t: Table, t': Table, p: int, size: int) {
    && p in t && !t[p].used
    && p in t' && t'[p].used && size <= t'[p].size <= t[p].size
    && (forall a :: a in t && t[a].used ==> a in t' && t'[a] == t[a])
    && (forall a :: a in t' && t'[a].used && a != p ==> a in t && t[a] == t'[a])
  }

  // ---------------------------------------------------------------- free

  /** free: clear the used flag and push the region on the list of its size. */
  function Release(s: State, a: int): (s': State)
    requires Valid(s) && a in TableOf(s.areas) && TableOf(s.areas)[a].used
  {
    AreasTable(s.areas);
    var r := TableOf(s.areas)[a];
    Bounded(r.size);
    State(SubstAreas(s.areas, a, [Region(a, r.size, false)]), Push(s.lists, Log(r.size), a))
  }

  lemma SingleRegion(r: Region)
    requires r.size >= 1
    ensures Tiles([r], r.addr, r.End()) && RegionMap([r]) == map[r.addr := r]
  {
    assert [r][1..] == [];
  }

  lemma Overwrite(t: Table, a: int, r: Region)
    ensures t - {a} + map[a := r] == t[a := r]
  {
  }

  lemma ReleaseOk(s: State, a: int)
    requires Valid(s) && a in TableOf(s.areas) && TableOf(s.areas)[a].used
    ensures Valid(Release(s, a))
    ensures TableOf(Release(s, a).areas) == TableOf(s.areas)[a := Region(a, TableOf(s.areas)[a].size, false)]
  {
    var t := TableOf(s.areas);
    AreasTable(s.areas);
    var r := Region(a, t[a].size, false);
    SingleRegion(r);
    SubstAreasTable(s.areas, a, [r]);
    RefileOk(t, s.lists, a);
    Overwrite(t, a, r);
  }

  lemma RefileOk(t: Table, lists: seq<seq<int>>, a: int)
    requires ListsOk(t, lists) && a in t && t[a].used && 1 <= t[a].size < TWO32
    ensures Log(t[a].size) < BUCKETS
    ensures ListsOk(t[a := Region(a, t[a].size, false)], Push(lists, Log(t[a].size), a))
  {
    var r := Region(a, t[a].size, false);
    DropUsedOk(t, lists, a);
    PushOk(t - {a}, lists, a, r);
    assert (t - {a})[a := r] == t[a := r];
  }

  // ---------------------------------------------------------------- merge

  /** The first loop of mergeOneArea: grow a free region over its free neighbours. */
  function Coalesce(rs: seq<Region>): (c: seq<Region>)
    decreases |rs|
  {
    if |rs| <= 1 then rs
    else if rs[0].used || rs[1].used then [rs[0]] + Coalesce(rs[1..])
    else Coalesce([Joined(rs[0], rs[1])] + rs[2..])
  }

  function Joined(x: Region, y: Region): Region {
    Region(x.addr, x.size + y.size + HEADER, false)
  }

  function UsedOnly(rs: seq<Region>): seq<Region> {
    if rs == [] then []
    else if rs[0].used then [rs[0]] + UsedOnly(rs[1..])
    else UsedOnly(rs[1..])
  }

  ghost predicate NoTwoFree(rs: seq<Region>) {
    forall i :: 0 <= i < |rs| - 1 ==> rs[i].used || rs[i + 1].used
  }

  /** Coalescing keeps the tiling and every used region, and leaves no free neighbours. */
  lemma {:induction false} CoalesceOk(rs: seq<Region>, lo: int, hi: int)
    requires Tiles(rs, lo, hi)
    ensures Tiles(Coalesce(rs), lo, hi)
    ensures UsedOnly(Coalesce(rs)) == UsedOnly(rs)
    ensures NoTwoFree(Coalesce(rs))
    ensures rs != [] ==> Coalesce(rs) != [] && Coalesce(rs)[0].used == rs[0].used
    decreases |rs|
  {
    if |rs| > 1 {
      if rs[0].used || rs[1].used {
        CoalesceOk(rs[1..], rs[0].End(), hi);
        var c := [rs[0]] + Coalesce(rs[1..]);
        assert c[1..] == Coalesce(rs[1..]);
        assert UsedOnly(c) == UsedOnly(rs);
      } else {
        var joined := [Joined(rs[0], rs[1])] + rs[2..];
        assert joined[1..] == rs[2..] == rs[1..][1..];
        CoalesceOk(joined, lo, hi);
      }
    }
  }

  function PushFree(lists: seq<seq<int>>, r: Region): (l: seq<seq<int>>)
    ensures |l| == |lists|
  {
    if !r.used && r.size >= 1 && Log(r.size) < |lists| then Push(lists, Log(r.size), r.addr) else lists
  }

  /** The second loop of mergeOneArea: file every free region, in address order. */
  function Rebuild(rs: seq<Region>, lists: seq<seq<int>>): (l: seq<seq<int>>)
    ensures |l| == |lists|
  {
    if rs == [] then lists else Rebuild(rs[1..], PushFree(lists, rs[0]))
  }

  lemma PushFreeOk(t: Table, lists: seq<seq<int>>, r: Region)
    requires ListsOk(t, lists) && r.addr !in t && 1 <= r.size < TWO32
    ensures ListsOk(t[r.addr := r], PushFree(lists, r))
  {
    if r.used {
      AddUsedOk(t, lists, r.addr, r);
    } else {
      PushOk(t, lists, r.addr, r);
    }
  }

  lemma {:induction false} RebuildOk(t: Table, rs: seq<Region>, lists: seq<seq<int>>, lo: int, hi: int)
    requires ListsOk(t, lists) && Tiles(rs, lo, hi) && hi - lo < TWO31
    requires forall a :: a in t ==> a < lo || hi <= a
    ensures ListsOk(t + RegionMap(rs), Rebuild(rs, lists))
    decreases |rs|
  {
    if rs == [] {
      assert t + map[] == t;
    } else {
      var r := rs[0];
      TilesWithin(rs[1..], r.End(), hi);
      PushFreeOk(t, lists, r);
      var t1 := t[r.addr := r];
      forall a | a in t1 ensures a < r.End() || hi <= a { }
      RebuildOk(t1, rs[1..], PushFree(lists, r), r.End(), hi);
      UpdateJoin(t, RegionMap(rs[1..]), r.addr, r);
    }
  }

  lemma UpdateJoin(t: Table, s: Table, a: int, r: Region)
    requires a !in s
    ensures t[a := r] + s == t + s[a := r]
  {
  }

  function MergeFrom(areas: seq<Area>, lists: seq<seq<int>>): (s: State)
    ensures |s.areas| == |areas|
  {
    if areas == [] then State([], lists)
    else
      var c := Coalesce(areas[0].regions);
      var s := MergeFrom(areas[1..], Rebuild(c, lists));
      State([Area(areas[0].lo, areas[0].hi, c)] + s.areas, s.lists)
  }

  /** merge: empty every list, then coalesce and refile each area in turn. */
  function Merge(s: State): (s': State) {
    MergeFrom(s.areas, NoLists())
  }

  ghost predicate AreaMerged(x: Area, y: Area) {
    && y.lo == x.lo && y.hi == x.hi
    && Tiles(y.regions, y.lo, y.hi)
    && UsedOnly(y.regions) == UsedOnly(x.regions)
    && NoTwoFree(y.regions)
  }

  /** A table that keeps out of every area. */
  ghost predicate Outside(t: Table, areas: seq<Area>) {
    forall a, i :: a in t && 0 <= i < |areas| ==> a < areas[i].lo || areas[i].hi <= a
  }

  lemma {:induction false} MergeAreasOk(areas: seq<Area>, lists: seq<seq<int>>)
    requires AreasOk(areas)
    ensures var s := MergeFrom(areas, lists);
            && (forall i :: 0 <= i < |areas| ==> AreaMerged(areas[i], s.areas[i]))
            && AreasOk(s.areas)
  {
    var s := MergeFrom(areas, lists);
    if areas != [] {
      AreasTail(areas);
      CoalesceOk(areas[0].regions, areas[0].lo, areas[0].hi);
      MergeAreasOk(areas[1..], Rebuild(Coalesce(areas[0].regions), lists));
      forall i | 0 <= i < |areas| ensures AreaMerged(areas[i], s.areas[i]) {
        if i > 0 {
          assert areas[i] == areas[1..][i - 1] && s.areas[i] == s.areas[1..][i - 1];
        }
      }
      forall i, j | 0 <= i < j < |areas| ensures Apart(s.areas[i], s.areas[j]) {
        assert Apart(areas[i], areas[j]);
      }
    }
  }

  lemma {:induction false} MergeListsOk(t: Table, areas: seq<Area>, lists: seq<seq<int>>)
    requires AreasOk(areas) && ListsOk(t, lists) && Outside(t, areas)
    ensures var s := MergeFrom(areas, lists);
            AreasOk(s.areas) && ListsOk(t + TableOf(s.areas), s.lists)
    decreases |areas|
  {
    if areas == [] {
      assert t + map[] == t;
    } else {
      var x, rest := areas[0], areas[1..];
      AreasTail(areas);
      var c := Coalesce(x.regions);
      CoalesceOk(x.regions, x.lo, x.hi);
      TilesWithin(c, x.lo, x.hi);
      RebuildOk(t, c, lists, x.lo, x.hi);
      forall a, i | a in t + RegionMap(c) && 0 <= i < |rest| ensures a < rest[i].lo || rest[i].hi <= a {
        assert rest[i] == areas[i + 1];
      }
      MergeListsOk(t + RegionMap(c), rest, Rebuild(c, lists));
      MergeAreasOk(rest, Rebuild(c, lists));
      MergedTable(x, c, rest, MergeFrom(rest, Rebuild(c, lists)).areas, t);
    }
  }

  /** Putting a merged area back in front of the merged rest. */
  lemma {:induction false} MergedTable(x: Area, c: seq<Region>, rest: seq<Area>, done: seq<Area>, t: Table)
    requires AreaOk(x) && Tiles(c, x.lo, x.hi) && Untouched(rest, x.lo - HEADER, x.hi)
    requires AreasOk(done) && |done| == |rest| && (forall i :: 0 <= i < |rest| ==> AreaMerged(rest[i], done[i]))
    ensures AreasOk([Area(x.lo, x.hi, c)] + done)
    ensures t + RegionMap(c) + TableOf(done) == t + TableOf([Area(x.lo, x.hi, c)] + done)
  {
    forall i | 0 <= i < |done| ensures done[i].hi <= x.lo - HEADER || x.hi <= done[i].lo - HEADER {
      assert AreaMerged(rest[i], done[i]);
    }
    ConsAreas(Area(x.lo, x.hi, c), done);
    MergedDisjoint(x, c, done);
    JoinDisjoint(t, RegionMap(c), TableOf(done));
  }

  lemma {:induction false} MergedDisjoint(x: Area, c: seq<Region>, done: seq<Area>)
    requires AreaOk(x) && Tiles(c, x.lo, x.hi) && AreasOk(done) && Untouched(done, x.lo - HEADER, x.hi)
    ensures RegionMap(c).Keys !! TableOf(done).Keys
  {
    TilesWithin(c, x.lo, x.hi);
    TableInAreas(done, x.lo - HEADER, x.hi);
    AreasTable(done);
    forall a | a in TableOf(done) ensures a !in RegionMap(c) {
      assert TableOf(done)[a].addr == a;
    }
  }

  lemma JoinDisjoint(t: Table, c: Table, r: Table)
    requires c.Keys !! r.Keys
    ensures t + c + r == t + (r + c)
  {
  }

  lemma MergeOk(s: State)
    requires Valid(s)
    ensures Valid(Merge(s))
    ensures |Merge(s).areas| == |s.areas|
    ensures forall i :: 0 <= i < |s.areas| ==> AreaMerged(s.areas[i], Merge(s).areas[i])
  {
    assert ListsOk(map[], NoLists());
    MergeListsOk(map[], s.areas, NoLists());
    MergeAreasOk(s.areas, NoLists());
    assert map[] + TableOf(Merge(s).areas) == TableOf(Merge(s).areas);
  }

  /** Used regions of a tiled run, by address. */
  lemma {:induction false} UsedInMap(rs: seq<Region>, lo: int, hi: int, a: int, r: Region)
    requires Tiles(rs, lo, hi) && r.used
    ensures a in RegionMap(rs) && RegionMap(rs)[a] == r <==> r in UsedOnly(rs) && r.addr == a
  {
    if rs != [] {
      TilesWithin(rs[1..], rs[0].End(), hi);
      UsedInMap(rs[1..], rs[0].End(), hi, a, r);
      if r in UsedOnly(rs[1..]) && r.addr == rs[0].addr {
        UsedInMap(rs[1..], rs[0].End(), hi, r.addr, r);
      }
    }
  }

  /** Area by area, two heaps with the same used regions have the same used table entries. */
  lemma {:induction false} SameUsed(xs: seq<Area>, ys: seq<Area>, a: int, r: Region)
    requires AreasOk(xs) && AreasOk(ys) && |xs| == |ys| && r.used
    requires forall i :: 0 <= i < |xs| ==> AreaAgree(xs[i], ys[i])
    requires a in TableOf(xs) && TableOf(xs)[a] == r
    ensures a in TableOf(ys) && TableOf(ys)[a] == r
  {
    AreasTail(xs);
    AreasTail(ys);
    var x, y := xs[0], ys[0];
    UsedInMap(x.regions, x.lo, x.hi, a, r);
    UsedInMap(y.regions, y.lo, y.hi, a, r);
    if a !in RegionMap(x.regions) {
      assert forall i :: 0 <= i < |xs[1..]| ==> xs[1..][i] == xs[i + 1] && ys[1..][i] == ys[i + 1];
      SameUsed(xs[1..], ys[1..], a, r);
      if a in RegionMap(y.regions) {
        NotBelow(ys, a);
      }
    }
  }

  ghost predicate SameLive(t: Table, t': Table) {
    && (forall a :: a in t && t[a].used ==> a in t' && t'[a] == t[a])
    && (forall a :: a in t' && t'[a].used ==> a in t && t[a] == t'[a])
  }

  /** merge leaves every used region's address and size untouched. */
  lemma MergeKeepsUsed(s: State)
    requires Valid(s)
    ensures Valid(Merge(s)) && SameLive(TableOf(s.areas), TableOf(Merge(s).areas))
  {
    MergeOk(s);
    var t, t' := TableOf(s.areas), TableOf(Merge(s).areas);
    forall i | 0 <= i < |s.areas|
      ensures AreaAgree(s.areas[i], Merge(s).areas[i]) && AreaAgree(Merge(s).areas[i], s.areas[i])
    {
      assert AreaMerged(s.areas[i], Merge(s).areas[i]);
    }
    forall a | a in t && t[a].used ensures a in t' && t'[a] == t[a] {
      SameUsed(s.areas, Merge(s).areas, a, t[a]);
    }
    forall a | a in t' && t'[a].used ensures a in t && t[a] == t'[a] {
      SameUsed(Merge(s).areas, s.areas, a, t'[a]);
    }
  }

  ghost predicate AreaAgree(x: Area, y: Area) {
    && y.lo == x.lo && y.hi == x.hi
    && UsedOnly(y.regions) == UsedOnly(x.regions)
  }
}
