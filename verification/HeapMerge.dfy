/** Coalescing in memory: what the two loops of mergeOneArea keep. */
module HeapMerge {
  import opened Logs
  import opened Heap
  import opened HeapMemory

  ghost predicate HeadersIn(m: Memory, rs: seq<Region>) {
    forall r :: r in rs ==> Header(m, r)
  }

  lemma {:induction false} TilesMember(rs: seq<Region>, lo: int, hi: int, r: Region)
    requires Tiles(rs, lo, hi) && r in rs
    ensures lo <= r.addr && r.End() <= hi && r.size >= 1
  {
    TilesWithin(rs[1..], rs[0].End(), hi);
    if r != rs[0] {
      TilesMember(rs[1..], rs[0].End(), hi, r);
    }
  }

  lemma {:induction false} UsedMember(rs: seq<Region>, r: Region)
    ensures r in UsedOnly(rs) <==> r in rs && r.used
  {
    if rs != [] {
      UsedMember(rs[1..], r);
    }
  }

  lemma {:induction false} InRegionMap(rs: seq<Region>, lo: int, hi: int, r: Region)
    requires Tiles(rs, lo, hi) && r in rs
    ensures r.addr in RegionMap(rs) && RegionMap(rs)[r.addr] == r
  {
    TilesWithin(rs[1..], rs[0].End(), hi);
    if r != rs[0] {
      InRegionMap(rs[1..], rs[0].End(), hi, r);
      TilesMember(rs[1..], rs[0].End(), hi, r);
    }
  }

  lemma {:induction false} FromRegionMap(rs: seq<Region>, a: int)
    requires a in RegionMap(rs)
    ensures RegionMap(rs)[a] in rs
  {
    if rs[0].addr != a {
      FromRegionMap(rs[1..], a);
    }
  }

  lemma {:induction false} InTable(areas: seq<Area>, i: nat, r: Region)
    requires AreasOk(areas) && i < |areas| && r in areas[i].regions
    ensures r.addr in TableOf(areas) && TableOf(areas)[r.addr] == r
    decreases |areas|
  {
    var x := areas[0];
    if i == 0 {
      InRegionMap(x.regions, x.lo, x.hi, r);
    } else {
      AreasTail(areas);
      InTable(areas[1..], i - 1, r);
      if r.addr in RegionMap(x.regions) {
        NotBelow(areas, r.addr);
      }
    }
  }

  lemma {:induction false} FromTable(areas: seq<Area>, a: int) returns (i: nat)
    requires a in TableOf(areas)
    ensures i < |areas| && TableOf(areas)[a] in areas[i].regions
  {
    if a in RegionMap(areas[0].regions) {
      FromRegionMap(areas[0].regions, a);
      return 0;
    } else {
      i := FromTable(areas[1..], a);
      i := i + 1;
    }
  }

  // ---------------------------------------------------------------- frames for one area

  ghost predicate Away(lists: seq<seq<int>>, lo: int, hi: int) {
    forall k, b :: 0 <= k < |lists| && b in lists[k] ==> b + HEADER <= lo || hi <= b
  }

  lemma AwayChains(m: Memory, m': Memory, heads: seq<int>, lists: seq<seq<int>>, lo: int, hi: int)
    requires Chains(m, heads, lists) && Away(lists, lo, hi) && OnlyAt(m, m', lo, hi - lo)
    ensures Chains(m', heads, lists)
  {
    forall k, b | 0 <= k < BUCKETS && b in lists[k] ensures SamePair(m, m', b) {
      OutsidePair(m, m', lo, hi - lo, b);
    }
    ChainsFrame(m, m', heads, lists);
  }

  /** Writes confined to one area leave the header words of every area ... */
  lemma OneAreaPair(m: Memory, m': Memory, areas: seq<Area>, j: nat, i: nat)
    requires AreasOk(areas) && j < |areas| && i < |areas|
    requires OnlyAt(m, m', areas[j].lo, areas[j].hi - areas[j].lo)
    ensures SamePair(m, m', areas[i].lo - HEADER)
  {
    if i != j {
      assert Apart(areas[i], areas[j]) || Apart(areas[j], areas[i]);
    }
    OutsidePair(m, m', areas[j].lo, areas[j].hi - areas[j].lo, areas[i].lo - HEADER);
  }

  /** ... so the list of areas can still be followed, from any point on ... */
  lemma {:induction false} OneAreaLinks(m: Memory, m': Memory, first: int, areas: seq<Area>, j: nat, n: nat)
    requires AreasOk(areas) && j < |areas| && n <= |areas| && AreaChain(m, first, areas[n..])
    requires OnlyAt(m, m', areas[j].lo, areas[j].hi - areas[j].lo)
    ensures AreaChain(m', first, areas[n..])
  {
    forall i | 0 <= i < |areas[n..]| ensures SamePair(m, m', areas[n..][i].lo - HEADER) {
      OneAreaPair(m, m', areas, j, n + i);
    }
    AreaChainFrame(m, m', first, areas[n..]);
  }

  /** ... and the headers of the other areas. */
  lemma OneAreaHeaders(m: Memory, m': Memory, areas: seq<Area>, j: nat, i: nat)
    requires AreasOk(areas) && j < |areas| && i < |areas| && i != j && HeadersIn(m, areas[i].regions)
    requires OnlyAt(m, m', areas[j].lo, areas[j].hi - areas[j].lo)
    ensures HeadersIn(m', areas[i].regions)
  {
    assert Apart(areas[i], areas[j]) || Apart(areas[j], areas[i]);
    forall r | r in areas[i].regions ensures Header(m', r) {
      assert Header(m, r);
      TilesMember(areas[i].regions, areas[i].lo, areas[i].hi, r);
      OutsidePair(m, m', areas[j].lo, areas[j].hi - areas[j].lo, r.addr);
    }
  }

  // ---------------------------------------------------------------- the first loop

  /** Growing a free region over its free neighbour by rewriting one size word. */
  lemma {:induction false} JoinHeaders(m: Memory, m': Memory, done: seq<Region>, rest: seq<Region>, lo: int, cur: int,
      hi: int)
    requires Tiles(done, lo, cur) && Tiles(rest, cur, hi) && |rest| >= 2
    requires HeadersIn(m, done) && HeadersIn(m, rest) && !rest[0].used && !rest[1].used
    requires WordStored(m, m', cur, rest[0].size + rest[1].size + HEADER)
    ensures Tiles([Joined(rest[0], rest[1])] + rest[2..], cur, hi)
    ensures HeadersIn(m', done) && HeadersIn(m', [Joined(rest[0], rest[1])] + rest[2..])
  {
    var joined := [Joined(rest[0], rest[1])] + rest[2..];
    assert joined[1..] == rest[2..] == rest[1..][1..];
    forall r | r in done ensures Header(m', r) {
      TilesMember(done, lo, cur, r);
      assert Header(m, r);
      OutsidePair(m, m', cur, 4, r.addr);
    }
    forall r | r in joined ensures Header(m', r) {
      if r == joined[0] {
        assert Header(m, rest[0]);
        assert SameWord(m, m', cur + 4);
      } else {
        assert r in rest[2..];
        TilesMember(rest[2..], rest[1].End(), hi, r);
        assert Header(m, r);
        OutsidePair(m, m', cur, 4, r.addr);
      }
    }
  }

  lemma {:induction false} UsedConcat(xs: seq<Region>, ys: seq<Region>)
    ensures UsedOnly(xs + ys) == UsedOnly(xs) + UsedOnly(ys)
  {
    if xs == [] {
      assert xs + ys == ys;
    } else {
      assert (xs + ys)[1..] == xs[1..] + ys;
      UsedConcat(xs[1..], ys);
    }
  }

  /** A write to the header of a free region touches no byte that a caller holds. */
  lemma {:induction false} FreeHeaderBytes(m: Memory, m': Memory, areas: seq<Area>, j: nat, done: seq<Region>,
      rest: seq<Region>, cur: int)
    requires AreasOk(areas) && j < |areas| && Tiles(done, areas[j].lo, cur) && Tiles(rest, cur, areas[j].hi)
    requires rest != [] && !rest[0].used && UsedOnly(done) + UsedOnly(rest) == UsedOnly(areas[j].regions)
    requires OnlyAt(m, m', cur, HEADER)
    ensures SameBytes(m, m', TableOf(areas))
  {
    forall y | InUse(TableOf(areas), y) ensures SameByte(m, m', y) {
      PayloadElsewhere(areas, j, done, rest, cur, y);
    }
  }

  lemma {:induction false} PayloadElsewhere(areas: seq<Area>, j: nat, done: seq<Region>, rest: seq<Region>, cur: int,
      y: int)
    requires AreasOk(areas) && j < |areas| && Tiles(done, areas[j].lo, cur) && Tiles(rest, cur, areas[j].hi)
    requires rest != [] && !rest[0].used && UsedOnly(done) + UsedOnly(rest) == UsedOnly(areas[j].regions)
    requires InUse(TableOf(areas), y)
    ensures y < cur || cur + HEADER <= y
  {
    var t := TableOf(areas);
    var c :| c in t && t[c].used && c + HEADER <= y < t[c].End();
    AreasTable(areas);
    var i := FromTable(areas, c);
    TilesMember(areas[i].regions, areas[i].lo, areas[i].hi, t[c]);
    TilesWithin(done, areas[j].lo, cur);
    TilesWithin(rest, cur, areas[j].hi);
    if i != j {
      assert Apart(areas[i], areas[j]) || Apart(areas[j], areas[i]);
    } else {
      UsedMember(areas[j].regions, t[c]);
      InOneHalf(UsedOnly(done), UsedOnly(rest), t[c]);
      UsedMember(done, t[c]);
      UsedMember(rest, t[c]);
      if t[c] in done {
        TilesMember(done, areas[j].lo, cur, t[c]);
      } else {
        assert t[c] in rest[1..];
        TilesMember(rest[1..], rest[0].End(), areas[j].hi, t[c]);
      }
    }
  }

  lemma InOneHalf(xs: seq<Region>, ys: seq<Region>, r: Region)
    requires r in xs + ys
    ensures r in xs || r in ys
  {
  }

  // ---------------------------------------------------------------- the second loop

  /** Filing one region: link written, lists pushed, headers still in place. */
  lemma {:induction false} FileHeaders(m: Memory, m': Memory, c: seq<Region>, lo: int, hi: int, r: Region, v: int)
    requires Tiles(c, lo, hi) && HeadersIn(m, c) && r in c && WordStored(m, m', r.addr + 4, v)
    ensures HeadersIn(m', c)
  {
    TilesWithin(c, lo, hi);
    InRegionMap(c, lo, hi, r);
    forall q | q in c ensures Header(m', q) {
      assert Header(m, q);
      InRegionMap(c, lo, hi, q);
      if q.addr == r.addr {
        assert SameWord(m, m', q.addr);
      } else {
        assert Clear(RegionMap(c), q.addr, r.addr);
        OutsidePair(m, m', r.addr + 4, 4, q.addr);
      }
    }
  }

  lemma FileAway(lists: seq<seq<int>>, r: Region, hi: int)
    requires Away(lists, r.addr, hi) && r.End() <= hi && r.size >= 1
    ensures Away(PushFree(lists, r), r.End(), hi)
  {
  }

  lemma {:induction false} RebuildAway(rs: seq<Region>, lists: seq<seq<int>>, lo: int, hi: int, lo': int, hi': int)
    requires Tiles(rs, lo, hi) && Away(lists, lo', hi') && (hi <= lo' || hi' <= lo)
    ensures Away(Rebuild(rs, lists), lo', hi')
    decreases |rs|
  {
    if rs != [] {
      TilesWithin(rs[1..], rs[0].End(), hi);
      PushAway(lists, rs[0], lo', hi');
      RebuildAway(rs[1..], PushFree(lists, rs[0]), rs[0].End(), hi, lo', hi');
    }
  }

  lemma PushAway(lists: seq<seq<int>>, r: Region, lo: int, hi: int)
    requires Away(lists, lo, hi) && (r.addr + HEADER <= lo || hi <= r.addr)
    ensures Away(PushFree(lists, r), lo, hi)
  {
  }

  // ---------------------------------------------------------------- the walk over all areas

  /** Where merge stands: areas already merged, areas to come, lists rebuilt so far. */
  datatype Merging = Merging(s: State, m0: Memory, first: int, done: seq<Area>, lists: seq<seq<int>>) {

    ghost predicate Ok() { Valid(s) && |done| <= |s.areas| }

    /** The areas as they are now. */
    ghost function Now(): seq<Area>
      requires Ok()
    {
      done + s.areas[|done|..]
    }

    ghost predicate Goal()
      requires Ok()
    {
      var rest := MergeFrom(s.areas[|done|..], lists);
      Merge(s) == State(done + rest.areas, rest.lists)
    }

    ghost predicate Kept(m: Memory)
      requires Ok()
    {
      && AreasOk(Now()) && (forall i :: 0 <= i < |s.areas| ==> AreaAgree(s.areas[i], Now()[i]))
      && (forall i :: 0 <= i < |s.areas| ==> HeadersIn(m, Now()[i].regions))
      && AreaChain(m, first, Now()) && SameBytes(m0, m, TableOf(s.areas))
    }

    ghost predicate Holds(m: Memory, heads: seq<int>, current: int) {
      && Ok() && Goal() && Kept(m)
      && AreaChain(m, current, s.areas[|done|..])
      && Chains(m, heads, lists)
      && (forall i :: |done| <= i < |s.areas| ==> Away(lists, s.areas[i].lo, s.areas[i].hi))
    }

    ghost function Next(): Merging
      requires Ok() && |done| < |s.areas|
    {
      var x := s.areas[|done|];
      var c := Coalesce(x.regions);
      this.(done := done + [Area(x.lo, x.hi, c)], lists := Rebuild(c, lists))
    }
  }

  lemma {:induction false} StartKept(s: State, m: Memory, first: int, lists: seq<seq<int>>)
    requires Valid(s) && Headers(m, TableOf(s.areas)) && AreaChain(m, first, s.areas)
    ensures Merging(s, m, first, [], lists).Now() == s.areas
    ensures Merging(s, m, first, [], lists).Kept(m)
  {
    assert [] + s.areas[0..] == s.areas;
    forall i | 0 <= i < |s.areas| ensures HeadersIn(m, s.areas[i].regions) {
      forall r | r in s.areas[i].regions ensures Header(m, r) {
        InTable(s.areas, i, r);
      }
    }
  }

  lemma StartMerging(s: State, m: Memory, heads: seq<int>, zeros: seq<int>, first: int)
    requires Valid(s) && Represents(m, heads, first, s) && |zeros| == BUCKETS
    requires forall k :: 0 <= k < BUCKETS ==> zeros[k] == 0
    ensures Merging(s, m, first, [], NoLists()).Holds(m, zeros, first)
  {
    StartKept(s, m, first, NoLists());
    StartGoal(s, m, first);
    ZeroChains(m, zeros);
    NothingNear(s.areas);
    assert s.areas[0..] == s.areas;
  }

  lemma NothingNear(areas: seq<Area>)
    ensures forall i :: 0 <= i < |areas| ==> Away(NoLists(), areas[i].lo, areas[i].hi)
  {
  }

  lemma StartGoal(s: State, m: Memory, first: int)
    requires Valid(s)
    ensures Merging(s, m, first, [], NoLists()).Goal()
  {
    assert s.areas[0..] == s.areas;
    assert [] + MergeFrom(s.areas, NoLists()).areas == MergeFrom(s.areas, NoLists()).areas;
  }

  lemma ZeroChains(m: Memory, zeros: seq<int>)
    requires |zeros| == BUCKETS && forall k :: 0 <= k < BUCKETS ==> zeros[k] == 0
    ensures Chains(m, zeros, NoLists())
  {
  }

  lemma NextNow(run: Merging)
    requires run.Ok() && |run.done| < |run.s.areas|
    ensures run.Next().Ok()
    ensures run.Next().Now() == run.Now()[|run.done| := run.Next().done[|run.done|]]
    ensures run.Now()[|run.done|] == run.s.areas[|run.done|]
  {
  }

  lemma NextGoal(run: Merging)
    requires run.Ok() && |run.done| < |run.s.areas| && run.Goal()
    ensures run.Next().Ok() && run.Next().Goal()
  {
    var rest := run.s.areas[|run.done|..];
    var x := rest[0];
    var c := Coalesce(x.regions);
    assert rest[1..] == run.s.areas[|run.done| + 1..];
    var tail := MergeFrom(rest[1..], Rebuild(c, run.lists));
    assert run.done + ([Area(x.lo, x.hi, c)] + tail.areas) == run.done + [Area(x.lo, x.hi, c)] + tail.areas;
  }

  /** What one call of mergeOneArea on the next area establishes. */
  ghost predicate Merged(run: Merging, m: Memory, m': Memory, heads': seq<int>)
    requires run.Ok() && |run.done| < |run.s.areas|
  {
    var x := run.s.areas[|run.done|];
    && HeadersIn(m', Coalesce(x.regions))
    && Chains(m', heads', Rebuild(Coalesce(x.regions), run.lists))
    && OnlyAt(m, m', x.lo, x.hi - x.lo)
    && SameBytes(m, m', TableOf(run.Now()))
  }

  lemma NextAreas(run: Merging, m: Memory)
    requires run.Ok() && |run.done| < |run.s.areas| && run.Kept(m)
    ensures run.Next().Ok() && AreasOk(run.Next().Now())
    ensures forall i :: 0 <= i < |run.s.areas| ==> AreaAgree(run.s.areas[i], run.Next().Now()[i])
    ensures SameShape(run.Now(), run.Next().Now())
  {
    NextNow(run);
    var x := run.s.areas[|run.done|];
    CoalesceOk(x.regions, x.lo, x.hi);
    var xs, ys := run.Now(), run.Next().Now();
    forall i, k | 0 <= i < k < |ys| ensures Apart(ys[i], ys[k]) {
      assert Apart(xs[i], xs[k]);
    }
    forall i | 0 <= i < |ys| ensures AreaOk(ys[i]) && AreaAgree(run.s.areas[i], ys[i]) {
      assert AreaOk(xs[i]);
    }
  }

  lemma NextHeaders(run: Merging, m: Memory, m': Memory, heads': seq<int>, i: nat)
    requires run.Ok() && |run.done| < |run.s.areas| && run.Kept(m) && Merged(run, m, m', heads') && i < |run.s.areas|
    ensures HeadersIn(m', run.Next().Now()[i].regions)
  {
    NextNow(run);
    if i != |run.done| {
      OneAreaHeaders(m, m', run.Now(), |run.done|, i);
    }
  }

  lemma NextBytes(run: Merging, m: Memory, m': Memory, heads': seq<int>)
    requires run.Ok() && |run.done| < |run.s.areas| && run.Kept(m) && Merged(run, m, m', heads')
    ensures SameBytes(run.m0, m', TableOf(run.s.areas))
  {
    var t, u := TableOf(run.s.areas), TableOf(run.Now());
    forall a | a in t && t[a].used ensures a in u && u[a] == t[a] {
      SameUsed(run.s.areas, run.Now(), a, t[a]);
    }
    SameBytesChain(run.m0, m, m', t, u);
  }

  lemma NextKept(run: Merging, m: Memory, m': Memory, heads': seq<int>)
    requires run.Ok() && |run.done| < |run.s.areas| && run.Kept(m) && Merged(run, m, m', heads')
    ensures run.Next().Ok() && run.Next().Kept(m')
  {
    NextAreas(run, m);
    NextNow(run);
    assert run.Now()[0..] == run.Now();
    OneAreaLinks(m, m', run.first, run.Now(), |run.done|, 0);
    AreaChainShape(m', run.first, run.Now(), run.Next().Now());
    forall i | 0 <= i < |run.s.areas| ensures HeadersIn(m', run.Next().Now()[i].regions) {
      NextHeaders(run, m, m', heads', i);
    }
    NextBytes(run, m, m', heads');
  }

  lemma NextAway(run: Merging, i: nat)
    requires run.Ok() && |run.done| < i < |run.s.areas|
    requires Away(run.lists, run.s.areas[i].lo, run.s.areas[i].hi)
    ensures Away(run.Next().lists, run.s.areas[i].lo, run.s.areas[i].hi)
  {
    var x, y := run.s.areas[|run.done|], run.s.areas[i];
    assert Apart(x, y);
    CoalesceOk(x.regions, x.lo, x.hi);
    RebuildAway(Coalesce(x.regions), run.lists, x.lo, x.hi, y.lo, y.hi);
  }

  lemma NextHolds(run: Merging, m: Memory, m': Memory, heads: seq<int>, heads': seq<int>, current: int)
    requires run.Holds(m, heads, current) && |run.done| < |run.s.areas| && Merged(run, m, m', heads')
    ensures HasWord(m', current) && run.Next().Holds(m', heads', m'[current].w)
  {
    NextKept(run, m, m', heads');
    NextGoal(run);
    OneAreaLinks(m, m', current, run.s.areas, |run.done|, |run.done|);
    assert run.s.areas[|run.done|..][1..] == run.s.areas[|run.done| + 1..];
    forall i | |run.done| < i < |run.s.areas| ensures Away(run.Next().lists, run.s.areas[i].lo, run.s.areas[i].hi) {
      NextAway(run, i);
    }
  }

  /** When no area is left, memory stands for the merged heap. */
  lemma EndMerging(run: Merging, m: Memory, heads: seq<int>)
    requires run.Holds(m, heads, 0)
    ensures Represents(m, heads, run.first, Merge(run.s)) && SameBytes(run.m0, m, TableOf(run.s.areas))
  {
    assert |run.done| == |run.s.areas|;
    assert run.Now() == run.done == Merge(run.s).areas;
    var t := TableOf(run.done);
    forall a | a in t ensures Header(m, t[a]) {
      var i := FromTable(run.done, a);
      assert HeadersIn(m, run.Now()[i].regions);
    }
  }
}
