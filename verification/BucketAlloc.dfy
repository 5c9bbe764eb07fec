/** The allocator itself: 32 list heads, an area list, and headers inside the memory it manages. */
module BucketAllocator {
  import opened Common
  import opened Logs
  import opened Heap
  import opened HeapGrowth
  import opened HeapMemory
  import opened HeapMerge

  lemma {:induction false} SplitFiled(s: State, next: State, lists: seq<seq<int>>, m: Memory, m1: Memory, m2: Memory,
      popped: seq<int>, first: int, p: int, size: int, left: int)
    requires TableOk(s.areas) && Headers(m, TableOf(s.areas)) && AreaChain(m, first, s.areas)
    requires p in TableOf(s.areas) && !TableOf(s.areas)[p].used
    requires Chains(m, popped, lists) && ListsOk(TableOf(s.areas) - {p}, lists)
    requires IsSplit(s, next, lists, p, size, left)
    requires WordStored(m, m1, p + HEADER + size, left)
    requires WordStored(m1, m2, p + HEADER + size + 4, popped[Log(left)])
    ensures AllBut(m2, popped[Log(left) := p + HEADER + size], first, next, p)
    ensures SameBytes(m, m2, TableOf(s.areas))
  {
    SplitAllBut(m, m1, m2, popped, lists, first, s, next, p, size, left);
    SplitBytes(m, m1, m2, TableOf(s.areas), p, size, left, popped[Log(left)]);
  }

  lemma SplitBytes(m: Memory, m1: Memory, m2: Memory, t: Table, p: int, size: int, left: int, link: int)
    requires Separate(t) && Within(t, 9, TWO32) && p in t && !t[p].used
    requires 1 <= size && 1 <= left && size + HEADER + left == t[p].size
    requires WordStored(m, m1, p + HEADER + size, left) && WordStored(m1, m2, p + HEADER + size + 4, link)
    ensures SameBytes(m, m2, t)
  {
    TwoWordsStored(m, m1, m2, p + HEADER + size, left, link);
    SparesBytes(m, m2, t, p, p + HEADER + size);
  }

  /** Taking the head off a list leaves the lists of the other free regions, in memory too. */
  lemma TakeHead(s: State, m: Memory, heads: seq<int>, i: nat, p: int) returns (lists: seq<seq<int>>, popped: seq<int>)
    requires Heap.Valid(s) && Chains(m, heads, s.lists) && i < BUCKETS && s.lists[i] != [] && p == s.lists[i][0]
    ensures heads[i] == p && HasWord(m, p + 4)
    ensures lists == s.lists[i := s.lists[i][1..]] && popped == heads[i := m[p + 4].w]
    ensures TableOk(s.areas) && ListsOk(TableOf(s.areas) - {p}, lists) && Chains(m, popped, lists)
  {
    PopChains(m, heads, s.lists, i);
    AreasTable(s.areas);
    PopOk(TableOf(s.areas), s.lists, i);
    lists, popped := s.lists[i := s.lists[i][1..]], heads[i := m[heads[i] + 4].w];
  }

  lemma UsedEntry(m: Memory, s: State, a: int)
    requires Heap.Valid(s) && Headers(m, TableOf(s.areas)) && a in TableOf(s.areas) && TableOf(s.areas)[a].used
    ensures 1 <= TableOf(s.areas)[a].size < TWO31 && Log(TableOf(s.areas)[a].size) < BUCKETS
    ensures HasWord(m, a) && m[a].w == TableOf(s.areas)[a].size + TWO31
  {
    AreasTable(s.areas);
    assert Header(m, TableOf(s.areas)[a]);
    Bounded(TableOf(s.areas)[a].size);
  }

  /** Clearing the used flag of `a` and pushing it on its list, in memory. */
  lemma FreedRepresents(m: Memory, m1: Memory, m2: Memory, heads: seq<int>, first: int, s: State, a: int)
    requires Heap.Valid(s) && Represents(m, heads, first, s) && a in TableOf(s.areas) && TableOf(s.areas)[a].used
    requires TableOf(s.areas)[a].size >= 1 && Log(TableOf(s.areas)[a].size) < BUCKETS
    requires WordStored(m, m1, a, TableOf(s.areas)[a].size)
    requires WordStored(m1, m2, a + 4, heads[Log(TableOf(s.areas)[a].size)])
    ensures Heap.Valid(Release(s, a))
    ensures Represents(m2, heads[Log(TableOf(s.areas)[a].size) := a], first, Release(s, a))
    ensures SameBytes(m, m2, TableOf(s.areas))
  {
    var t, k := TableOf(s.areas), Log(TableOf(s.areas)[a].size);
    AreasTable(s.areas);
    ReleaseOk(s, a);
    TwoWordsStored(m, m1, m2, a, t[a].size, heads[k]);
    FreedHeaders(m, m2, t, a, heads[k]);
    DropUsedOk(t, s.lists, a);
    RestChains(m, m1, m2, heads, s.lists, t, a, a, k, t[a].size);
    FreedAreas(m, m2, first, s, a, heads[k]);
    SparesBytes(m, m2, t, a, a);
  }

  lemma FreedHeaders(m: Memory, m': Memory, t: Table, a: int, link: int)
    requires Separate(t) && Within(t, 9, TWO32) && Headers(m, t) && a in t && t[a].size >= 0
    requires HeaderStored(m, m', a, t[a].size, link)
    ensures Headers(m', t[a := Region(a, t[a].size, false)])
  {
    forall c | c in t && c != a ensures Header(m', t[c]) {
      SparesHeader(m, m', t, a, a, c);
    }
  }

  lemma {:induction false} FreedAreas(m: Memory, m': Memory, first: int, s: State, a: int, link: int)
    requires Heap.Valid(s) && TableOk(s.areas) && AreaChain(m, first, s.areas) && a in TableOf(s.areas)
    requires TableOf(s.areas)[a].used
    requires TableOf(s.areas)[a].size >= 0 && HeaderStored(m, m', a, TableOf(s.areas)[a].size, link)
    ensures AreaChain(m', first, Release(s, a).areas)
  {
    SparesAreas(m, m', first, s.areas, a, a);
    AreaChainShape(m', first, s.areas, Release(s, a).areas);
  }

  // ---------------------------------------------------------------- a new area, in memory

  /** The four words that init writes at the start of a run. */
  ghost predicate InitWords(m: Memory, m': Memory, first: int, start: int, length: int) {
    && HasWord(m', start) && m'[start].w == first
    && HasWord(m', start + 4) && m'[start + 4].w == start + length
    && HasWord(m', start + 8) && m'[start + 8].w == length - 16
    && HasWord(m', start + 12) && m'[start + 12].w == 0
    && OnlyAt(m, m', start, 16)
  }

  lemma FourWords(m: Memory, m1: Memory, m2: Memory, m3: Memory, m4: Memory, first: int, start: int, length: int)
    requires WordStored(m, m1, start + 8, length - 16) && WordStored(m1, m2, start + 12, 0)
    requires WordStored(m2, m3, start, first) && WordStored(m3, m4, start + 4, start + length)
    ensures InitWords(m, m4, first, start, length)
  {
    OnlyAtChain(m, m1, m2, start + 8, 4, start + 12, 4, start, 16);
    OnlyAtChain(m2, m3, m4, start, 4, start + 4, 4, start, 16);
    OnlyAtChain(m, m2, m4, start, 16, start, 16, start, 16);
    assert SameWord(m1, m2, start + 8);
    assert SameWord(m2, m3, start + 8) && SameWord(m2, m3, start + 12);
    assert SameWord(m3, m4, start + 8) && SameWord(m3, m4, start + 12) && SameWord(m3, m4, start);
  }

  lemma {:induction false} InitSpares(m: Memory, m': Memory, areas: seq<Area>, start: int, length: int, a: int)
    requires AreasOk(areas) && FreshRun(areas, start, length) && length > 16 && OnlyAt(m, m', start, 16)
    requires a in TableOf(areas)
    ensures TableOf(areas)[a].addr == a && SamePair(m, m', a)
    ensures (TableOf(areas)[a].End() <= start || start + length <= a)
  {
    AreasTable(areas);
    TableInAreas(areas, start, start + length);
    OutsidePair(m, m', start, 16, a);
  }

  lemma InitChains(m: Memory, m': Memory, heads: seq<int>, s: State, first: int, start: int, length: int)
    requires Heap.Valid(s) && FreshRun(s.areas, start, length) && length > 16 && InitWords(m, m', first, start, length)
    requires Chains(m, heads, s.lists)
    ensures 0 <= NextLowestPowerOfTwo(length - 16) < BUCKETS
    ensures Chains(m', heads[NextLowestPowerOfTwo(length - 16) := start + 8], HeapGrowth.Init(s, start, length).lists)
  {
    LowestBracket(length - 16);
    forall k, b | 0 <= k < BUCKETS && b in s.lists[k] ensures SamePair(m, m', b) {
      assert Filed(TableOf(s.areas), s.lists[k], k);
      InitSpares(m, m', s.areas, start, length, b);
    }
    ChainsFrame(m, m', heads, s.lists);
    InitNewChain(m, m', first, start, length);
    ChainsWith(m', heads, s.lists, NextLowestPowerOfTwo(length - 16), start + 8, [start + 8]);
  }

  lemma {:induction false} ChainsWith(m: Memory, heads: seq<int>, lists: seq<seq<int>>, k: int, head: int,
      list: seq<int>)
    requires Chains(m, heads, lists) && 0 <= k < BUCKETS && Chain(m, head, list)
    ensures Chains(m, heads[k := head], lists[k := list])
  {
  }

  lemma {:induction false} InitNewChain(m: Memory, m': Memory, first: int, start: int, length: int)
    requires length > 16 && start + 8 != 0 && InitWords(m, m', first, start, length)
    ensures Chain(m', start + 8, [start + 8])
  {
    assert [start + 8][1..] == [];
  }

  lemma {:induction false} InitAreaChain(m: Memory, m': Memory, s: State, first: int, start: int, length: int)
    requires AreasOk(s.areas) && FreshRun(s.areas, start, length) && length > 16
    requires InitWords(m, m', first, start, length)
    requires |s.lists| == BUCKETS && AreaChain(m, first, s.areas)
    ensures AreaChain(m', start, HeapGrowth.Init(s, start, length).areas)
  {
    forall i | 0 <= i < |s.areas| ensures SamePair(m, m', s.areas[i].lo - HEADER) {
      assert AreaOk(s.areas[i]);
      OutsidePair(m, m', start, 16, s.areas[i].lo - HEADER);
    }
    AreaChainFrame(m, m', first, s.areas);
    assert HeapGrowth.Init(s, start, length).areas[1..] == s.areas;
  }

  lemma InitHeaders(m: Memory, m': Memory, s: State, first: int, start: int, length: int)
    requires Heap.Valid(s) && FreshRun(s.areas, start, length) && length > 16 && InitWords(m, m', first, start, length)
    requires Headers(m, TableOf(s.areas))
    ensures Headers(m', TableOf(HeapGrowth.Init(s, start, length).areas)) && SameBytes(m, m', TableOf(s.areas))
  {
    InitAreas(s, start, length);
    var t := TableOf(s.areas);
    forall a | a in t ensures Header(m', t[a]) {
      assert Header(m, t[a]);
      InitSpares(m, m', s.areas, start, length, a);
    }
    forall y | InUse(t, y) ensures SameByte(m, m', y) {
      var a :| a in t && t[a].used && a + HEADER <= y < t[a].End();
      InitSpares(m, m', s.areas, start, length, a);
    }
  }

  lemma InitRepresents(m: Memory, m': Memory, heads: seq<int>, first: int, s: State, start: int, length: int)
    requires Heap.Valid(s) && Represents(m, heads, first, s) && FreshRun(s.areas, start, length) && length > 16
    requires InitWords(m, m', first, start, length)
    ensures 0 <= NextLowestPowerOfTwo(length - 16) < BUCKETS
    ensures Represents(m', heads[NextLowestPowerOfTwo(length - 16) := start + 8], start,
        HeapGrowth.Init(s, start, length))
    ensures SameBytes(m, m', TableOf(s.areas))
  {
    InitChains(m, m', heads, s, first, start, length);
    InitAreaChain(m, m', s, first, start, length);
    InitHeaders(m, m', s, first, start, length);
  }

  lemma GrowReady(s: State, size: int, page: int)
    requires CanServe(s, size, page) && MustGrow(s, size)
    ensures Heap.Valid(Heap.Merge(s)) && OneTry(Heap.Merge(s), size).0 == Heap.Merge(s)
    ensures FreshRun(Heap.Merge(s).areas, page, GrowthSize(size))
    ensures Heap.Valid(HeapGrowth.Init(Heap.Merge(s), page, GrowthSize(size)))
    ensures OneTry(HeapGrowth.Init(Heap.Merge(s), page, GrowthSize(size)), size).1.Some?
    ensures SameLive(TableOf(s.areas), TableOf(Heap.Merge(s).areas))
    ensures SameLive(TableOf(Heap.Merge(s).areas),
        TableOf(HeapGrowth.Init(Heap.Merge(s), page, GrowthSize(size)).areas))
  {
    MergeKeepsUsed(s);
    OneTryOk(Heap.Merge(s), size);
    MergeUntouched(s, page, page + GrowthSize(size));
    GrownTrySucceeds(Heap.Merge(s), size, page);
  }

  lemma AddressNotZero(s: State, size: int)
    requires Heap.Valid(s) && 1 <= size < TWO31
    ensures OneTry(s, size).1.Some? ==> OneTry(s, size).1.value != 0
  {
    OneTryOk(s, size);
    AreasTable(s.areas);
  }

  // ---------------------------------------------------------------- callers' bytes

  lemma ByteApart(t: Table, x: int, b: int)
    requires Separate(t) && Within(t, 9, TWO32) && InUse(t, x) && b in t
    ensures x < b || b + HEADER <= x
  {
    InUseElsewhere(t, b, x);
  }

  lemma ByteRepresents(m: Memory, m': Memory, heads: seq<int>, first: int, s: State, x: int)
    requires Heap.Valid(s) && Represents(m, heads, first, s) && InUse(TableOf(s.areas), x) && OnlyAt(m, m', x, 1)
    ensures Represents(m', heads, first, s)
  {
    AreasTable(s.areas);
    var t := TableOf(s.areas);
    forall b | b in t ensures SamePair(m, m', b) {
      ByteApart(t, x, b);
      OutsidePair(m, m', x, 1, b);
    }
    forall b | b in t ensures Header(m', t[b]) {
      assert Header(m, t[b]) && SamePair(m, m', b);
    }
    ByteSparesLists(m, m', heads, s.lists, t);
    ByteSparesAreas(m, m', first, s.areas, x);
  }

  lemma ByteSparesLists(m: Memory, m': Memory, heads: seq<int>, lists: seq<seq<int>>, t: Table)
    requires Chains(m, heads, lists) && ListsOk(t, lists) && forall b :: b in t ==> SamePair(m, m', b)
    ensures Chains(m', heads, lists)
  {
    forall k, b | 0 <= k < BUCKETS && b in lists[k] ensures SamePair(m, m', b) {
      assert Filed(t, lists[k], k);
    }
    ChainsFrame(m, m', heads, lists);
  }

  lemma {:induction false} ByteSparesAreas(m: Memory, m': Memory, first: int, areas: seq<Area>, x: int)
    requires TableOk(areas) && AreaChain(m, first, areas) && InUse(TableOf(areas), x) && OnlyAt(m, m', x, 1)
    ensures AreaChain(m', first, areas)
  {
    var t := TableOf(areas);
    var c :| c in t && t[c].used && c + HEADER <= x < t[c].End();
    forall i | 0 <= i < |areas| ensures SamePair(m, m', areas[i].lo - HEADER) {
      assert ClearOf(t, areas[i].lo);
      OutsidePair(m, m', x, 1, areas[i].lo - HEADER);
    }
    AreaChainFrame(m, m', first, areas);
  }

  function Min(x: int, y: int): int { if x < y then x else y }

  /** Each byte of [src, src + n) in `m` is the byte at the same offset from `dst` in `m'`. */
  ghost predicate CopiedTo(m: Memory, m': Memory, src: int, dst: int, n: int) {
    forall i :: 0 <= i < n ==> CopiedByte(m, m', src, dst, i)
  }

  ghost predicate CopiedByte(m: Memory, m': Memory, src: int, dst: int, i: int) {
    src + i in m && m[src + i].Byte? ==> dst + i in m' && m'[dst + i] == m[src + i]
  }

  lemma CopyStep(m: Memory, m1: Memory, m2: Memory, src: int, dst: int, n: int, i: int)
    requires 0 <= i < n && OnlyAt(m, m1, dst, n) && CopiedTo(m, m1, src, dst, i)
    requires OnlyAt(m1, m2, dst + i, 1) && SameByte(m, m1, src + i)
    requires src + i in m1 && m1[src + i].Byte? && dst + i in m2 && m2[dst + i] == m1[src + i]
    ensures OnlyAt(m, m2, dst, n) && CopiedTo(m, m2, src, dst, i + 1)
  {
    OnlyAtChain(m, m1, m2, dst, n, dst + i, 1, dst, n);
    forall k | 0 <= k < i + 1 ensures CopiedByte(m, m2, src, dst, k) {
      if k < i {
        assert CopiedByte(m, m1, src, dst, k) && SameByte(m1, m2, dst + k);
      }
    }
  }

  lemma {:induction false} ReallocRoom(areas: seq<Area>, reg: int, p: int, n: int)
    requires AreasOk(areas) && reg in TableOf(areas) && p in TableOf(areas) && p != reg
    requires TableOf(areas)[p].used && 0 <= n <= TableOf(areas)[p].size && n <= TableOf(areas)[reg].size
    ensures reg + HEADER + n <= p + HEADER || p + HEADER + n <= reg + HEADER
    ensures forall i :: p + HEADER <= i < p + HEADER + n ==> InUse(TableOf(areas), i)
  {
    AreasTable(areas);
    assert Clear(TableOf(areas), reg, p);
  }

  lemma ReallocBytes(m: Memory, m1: Memory, m2: Memory, m3: Memory, t: Table, t': Table, reg: int, p: int, n: int,
      size: int)
    requires Separate(t') && Within(t', 9, TWO32) && Allocated(t, t', p, size) && n <= size && reg in t
    requires t[reg].used && n <= t[reg].size
    requires SameBytes(m, m1, t) && OnlyAt(m1, m2, p + HEADER, n) && SameBytes(m2, m3, t')
    requires CopiedTo(m1, m2, reg + HEADER, p + HEADER, n)
    ensures CopiedTo(m, m3, reg + HEADER, p + HEADER, n)
    ensures SameBytes(m, m3, t - {reg})
  {
    var src, dst := reg + HEADER, p + HEADER;
    forall i | 0 <= i < n ensures CopiedByte(m, m3, src, dst, i) {
      assert InUse(t, src + i) && InUse(t', dst + i);
      assert SameByte(m, m1, src + i) && SameByte(m2, m3, dst + i);
      assert CopiedByte(m1, m2, src, dst, i);
    }
    forall y | InUse(t - {reg}, y) ensures SameByte(m, m3, y) {
      OldByteKept(t, t', reg, p, n, size, y);
      assert SameByte(m, m1, y) && SameByte(m1, m2, y) && SameByte(m2, m3, y);
    }
  }

  /** A block that was in use is another one than the new block, and as large as it was. */
  lemma OtherBlock(t: Table, t': Table, reg: int, p: int, size: int)
    requires Allocated(t, t', p, size) && reg in t && t[reg].used
    ensures reg != p && reg in t' && t'[reg] == t[reg] && p in t' && t'[p].used && size <= t'[p].size
  {
  }

  lemma {:induction false} ReallocAreas(m: Memory, m1: Memory, m2: Memory, m3: Memory, t: Table, areas: seq<Area>,
      ptr: int, newmem: int, n: int, size: int)
    requires AreasOk(areas) && Allocated(t, TableOf(areas), newmem - HEADER, size)
    requires ptr - HEADER in t && t[ptr - HEADER].used && n == Min(t[ptr - HEADER].size, size)
    requires SameBytes(m, m1, t) && OnlyAt(m1, m2, newmem, n) && SameBytes(m2, m3, TableOf(areas))
    requires CopiedTo(m1, m2, ptr, newmem, n)
    ensures CopiedTo(m, m3, ptr, newmem, Min(t[ptr - HEADER].size, size))
    ensures SameBytes(m, m3, t - {ptr - HEADER})
  {
    AreasTable(areas);
    ReallocBytes(m, m1, m2, m3, t, TableOf(areas), ptr - HEADER, newmem - HEADER, n, size);
  }

  lemma OldByteKept(t: Table, t': Table, reg: int, p: int, n: int, size: int, y: int)
    requires Separate(t') && Within(t', 9, TWO32) && Allocated(t, t', p, size) && n <= size && InUse(t - {reg}, y)
    ensures InUse(t, y) && InUse(t', y) && (y < p + HEADER || p + HEADER + n <= y)
  {
    var c :| c in t - {reg} && (t - {reg})[c].used && c + HEADER <= y < (t - {reg})[c].End();
    assert c in t && t[c].used && c + HEADER <= y < t[c].End();
    assert c in t' && t'[c].used && c + HEADER <= y < t'[c].End();
    assert Clear(t', c, p);
  }

  // ---------------------------------------------------------------- steps of the merging loops

  lemma {:induction false} FirstHeader(m: Memory, rest: seq<Region>, cur: int, hi: int)
    requires Tiles(rest, cur, hi) && cur < hi && hi - cur < TWO31 && HeadersIn(m, rest)
    ensures rest != [] && rest[0].addr == cur && HasWord(m, cur) && HasWord(m, cur + 4)
    ensures m[cur].w == Tag(rest[0]) && 1 <= rest[0].size < TWO31 && rest[0].End() <= hi
  {
    assert Header(m, rest[0]);
    TilesMember(rest, cur, hi, rest[0]);
  }

  /** Moving past a region that is used, or whose neighbour is. */
  lemma {:induction false} AdvanceOne(m: Memory, done: seq<Region>, rest: seq<Region>, lo: int, cur: int, hi: int)
    requires Tiles(done, lo, cur) && Tiles(rest, cur, hi) && rest != []
    requires rest[0].used || (|rest| > 1 && rest[1].used)
    requires HeadersIn(m, done) && HeadersIn(m, rest)
    ensures Tiles(done + [rest[0]], lo, rest[0].End()) && Tiles(rest[1..], rest[0].End(), hi)
    ensures done + [rest[0]] + Coalesce(rest[1..]) == done + Coalesce(rest)
    ensures UsedOnly(done + [rest[0]]) + UsedOnly(rest[1..]) == UsedOnly(done) + UsedOnly(rest)
    ensures HeadersIn(m, done + [rest[0]]) && HeadersIn(m, rest[1..])
  {
    FiledOne(done, rest, lo, cur, hi);
    UsedPastOne(done, rest);
    CoalescePastOne(done, rest);
  }

  lemma {:induction false} UsedPastOne(done: seq<Region>, rest: seq<Region>)
    requires rest != []
    ensures UsedOnly(done + [rest[0]]) + UsedOnly(rest[1..]) == UsedOnly(done) + UsedOnly(rest)
  {
    UsedConcat(done, rest);
    UsedConcat(done + [rest[0]], rest[1..]);
    assert done + [rest[0]] + rest[1..] == done + rest;
  }

  lemma {:induction false} CoalescePastOne(done: seq<Region>, rest: seq<Region>)
    requires rest != [] && (rest[0].used || (|rest| > 1 && rest[1].used))
    ensures done + [rest[0]] + Coalesce(rest[1..]) == done + Coalesce(rest)
  {
    CoalesceHead(rest);
    Regroup(done, [rest[0]], Coalesce(rest[1..]));
  }

  lemma {:induction false} CoalesceHead(rest: seq<Region>)
    requires rest != [] && (rest[0].used || (|rest| > 1 && rest[1].used))
    ensures Coalesce(rest) == [rest[0]] + Coalesce(rest[1..])
  {
    if |rest| == 1 {
      assert rest[1..] == [];
    }
  }

  lemma Regroup(xs: seq<Region>, ys: seq<Region>, zs: seq<Region>)
    ensures xs + ys + zs == xs + (ys + zs)
  {
  }

  lemma {:induction false} LastOne(m: Memory, done: seq<Region>, rest: seq<Region>, lo: int, cur: int, hi: int)
    requires Tiles(done, lo, cur) && Tiles(rest, cur, hi) && rest != [] && rest[0].End() >= hi
    requires HeadersIn(m, done) && HeadersIn(m, rest)
    ensures Coalesce(rest) == rest && HeadersIn(m, done + rest)
  {
    TilesWithin(rest[1..], rest[0].End(), hi);
    assert |rest| == 1;
  }

  lemma {:induction false} JoinBytes(m: Memory, m1: Memory, m2: Memory, areas: seq<Area>, j: nat, done: seq<Region>,
      rest: seq<Region>, cur: int)
    requires AreasOk(areas) && j < |areas| && Tiles(done, areas[j].lo, cur) && Tiles(rest, cur, areas[j].hi)
    requires |rest| >= 2 && !rest[0].used && !rest[1].used
    requires UsedOnly(done) + UsedOnly(rest) == UsedOnly(areas[j].regions)
    requires OnlyAt(m, m1, areas[j].lo, areas[j].hi - areas[j].lo) && SameBytes(m, m1, TableOf(areas))
    requires OnlyAt(m1, m2, cur, 4)
    ensures OnlyAt(m, m2, areas[j].lo, areas[j].hi - areas[j].lo) && SameBytes(m, m2, TableOf(areas))
    ensures UsedOnly([Joined(rest[0], rest[1])] + rest[2..]) == UsedOnly(rest)
  {
    TilesWithin(done, areas[j].lo, cur);
    TilesMember(rest, cur, areas[j].hi, rest[0]);
    OnlyAtChain(m, m1, m2, areas[j].lo, areas[j].hi - areas[j].lo, cur, 4, areas[j].lo, areas[j].hi - areas[j].lo);
    FreeHeaderBytes(m1, m2, areas, j, done, rest, cur);
    SameBytesChain(m, m1, m2, TableOf(areas), TableOf(areas));
    var joined := [Joined(rest[0], rest[1])] + rest[2..];
    assert joined[1..] == rest[2..] == rest[1..][1..];
  }

  lemma {:induction false} FiledOne(done: seq<Region>, rest: seq<Region>, lo: int, cur: int, hi: int)
    requires Tiles(done, lo, cur) && Tiles(rest, cur, hi) && rest != []
    ensures Tiles(done + [rest[0]], lo, rest[0].End()) && done + [rest[0]] + rest[1..] == done + rest
  {
    SingleRegion(rest[0]);
    TilesConcat(done, [rest[0]], lo, cur, rest[0].End());
  }

  lemma {:induction false} FileBytes(m: Memory, m1: Memory, m2: Memory, areas: seq<Area>, j: nat, done: seq<Region>,
      rest: seq<Region>, cur: int)
    requires AreasOk(areas) && j < |areas| && Tiles(done, areas[j].lo, cur) && Tiles(rest, cur, areas[j].hi)
    requires rest != [] && !rest[0].used && UsedOnly(done + rest) == UsedOnly(areas[j].regions)
    requires OnlyAt(m, m1, areas[j].lo, areas[j].hi - areas[j].lo) && SameBytes(m, m1, TableOf(areas))
    requires OnlyAt(m1, m2, cur + 4, 4)
    ensures OnlyAt(m, m2, areas[j].lo, areas[j].hi - areas[j].lo) && SameBytes(m, m2, TableOf(areas))
  {
    TilesWithin(done, areas[j].lo, cur);
    TilesMember(rest, cur, areas[j].hi, rest[0]);
    UsedConcat(done, rest);
    OnlyAtChain(m, m1, m2, areas[j].lo, areas[j].hi - areas[j].lo, cur + 4, 4, areas[j].lo, areas[j].hi - areas[j].lo);
    OnlyAtChain(m1, m1, m2, cur, HEADER, cur + 4, 4, cur, HEADER);
    FreeHeaderBytes(m1, m2, areas, j, done, rest, cur);
    SameBytesChain(m, m1, m2, TableOf(areas), TableOf(areas));
  }

  /** Where the second loop of mergeOneArea stands: what is filed, what is still to come. */
  datatype Refiling = Refiling(m0: Memory, areas: seq<Area>, j: nat, c: seq<Region>, lists: seq<seq<int>>,
                               done: seq<Region>, rest: seq<Region>, filed: seq<seq<int>>, cur: int)
  {
    ghost predicate Ok() { AreasOk(areas) && j < |areas| }

    ghost function Lo(): int requires Ok() { areas[j].lo }

    ghost function Hi(): int requires Ok() { areas[j].hi }

    ghost predicate Holds(m: Memory, heads: seq<int>) {
      && Ok() && Lo() <= cur <= Hi()
      && done + rest == c && Tiles(c, Lo(), Hi()) && UsedOnly(c) == UsedOnly(areas[j].regions)
      && Tiles(done, Lo(), cur) && Tiles(rest, cur, Hi()) && HeadersIn(m, c)
      && Chains(m, heads, filed) && Away(filed, cur, Hi()) && Rebuild(rest, filed) == Rebuild(c, lists)
      && OnlyAt(m0, m, Lo(), Hi() - Lo()) && SameBytes(m0, m, TableOf(areas))
    }

    ghost function Next(): Refiling
      requires rest != []
    {
      this.(done := done + [rest[0]], rest := rest[1..], filed := PushFree(filed, rest[0]), cur := rest[0].End())
    }
  }

  class BucketAlloc {
    /** All memory, headers included. */
    var mem: Memory
    const buckets: array<int>
    var memoryLinkedList: int

    /** The state the memory stands for. */
    ghost var heap: State

    ghost predicate Valid()
      reads this, buckets
    {
      && buckets.Length == BUCKETS
      && Heap.Valid(heap)
      && Represents(mem, buckets[..], memoryLinkedList, heap)
    }

    constructor ()
      ensures Valid() && fresh(buckets) && heap == EmptyHeap() && mem == map[]
    {
      mem := map[];
      buckets := new int[BUCKETS](_ => 0);
      memoryLinkedList := 0;
      heap := EmptyHeap();
      new;
      EmptyGood();
      assert forall k :: 0 <= k < BUCKETS ==> buckets[..][k] == 0;
    }

    method StoreWord(a: int, v: int)
      modifies this`mem
      ensures WordStored(old(mem), mem, a, v)
    {
      mem := Put(mem, a, Word(v));
      PutStoresWord(old(mem), a, v);
    }

    method InsertIntoBucket(region: int)
      requires buckets.Length == BUCKETS && HasWord(mem, region)
      requires 1 <= mem[region].w < TWO32 && Log(mem[region].w) < BUCKETS
      modifies this`mem, buckets
      ensures WordStored(old(mem), mem, region + 4, old(buckets[Log(mem[region].w)]))
      ensures HasWord(mem, region) && mem[region] == old(mem[region])
      ensures buckets[..] == old(buckets[..])[Log(old(mem[region].w)) := region]
    {
      LowestBracket(mem[region].w);
      var bucket := NextLowestPowerOfTwo(mem[region].w);
      StoreWord(region + 4, buckets[bucket]);
      assert SameWord(old(mem), mem, region);
      buckets[bucket] := region;
    }

    /** The header address of a block of at least `size` bytes, or zero when no list can serve it. */
    method MallocOneTry(size: int) returns (p: int)
      requires Valid() && 1 <= size < TWO31
      modifies this`mem, this`heap, buckets
      ensures Valid() && heap == OneTry(old(heap), size).0
      ensures OneTry(old(heap), size).1 == (if p == 0 then None else Some(p))
      ensures SameBytes(old(mem), mem, TableOf(old(heap).areas)) && (p == 0 ==> mem == old(mem))
    {
      HighestIsCeiling(size, 31);
      Pow2Values();
      var i := NextHighestPowerOfTwo(size);
      while i < BUCKETS && buckets[i] == 0
        invariant 0 <= i <= BUCKETS
        invariant FirstNonEmpty(heap.lists, NextHighestPowerOfTwo(size)) == FirstNonEmpty(heap.lists, i)
      {
        assert Chain(mem, buckets[..][i], heap.lists[i]);
        i := i + 1;
      }
      if i == BUCKETS {
        return 0;
      }
      assert Chain(mem, buckets[..][i], heap.lists[i]);
      assert Picks(heap, size, i);
      AddressNotZero(heap, size);
      p := TakeFrom(i, size);
    }

    /** Use the head of list `i`, splitting off what is left when a header still fits. */
    method TakeFrom(i: nat, size: int) returns (p: int)
      requires Valid() && Picks(heap, size, i)
      modifies this`mem, this`heap, buckets
      ensures Valid() && heap == OneTry(old(heap), size).0
      ensures OneTry(old(heap), size).1 == Some(p)
      ensures SameBytes(old(mem), mem, TableOf(old(heap).areas))
    {
      p := buckets[i];
      ghost var s, m, heads := heap, mem, buckets[..];
      PickedRegion(s, size, i);
      PopChains(m, heads, s.lists, i);
      assert Header(m, TableOf(s.areas)[p]);
      OneTryOk(s, size);
      if size + HEADER < mem[p].w {
        var left := mem[p].w - size - HEADER;
        SplitState(s, size, i, left);
        SplitBlock(i, size, p, left, OneTry(s, size).0);
      } else {
        WholeState(m, heads, memoryLinkedList, s, size, i);
        buckets[i] := mem[p + 4].w;
        assert buckets[..] == heads[i := m[p + 4].w];
        FinishHeader(p, mem[p].w, OneTry(s, size).0);
      }
    }

    method SplitBlock(i: nat, size: int, p: int, left: int, ghost next: State)
      requires Valid() && i < BUCKETS && heap.lists[i] != [] && p == buckets[i] == heap.lists[i][0]
      requires p in TableOf(heap.areas) && !TableOf(heap.areas)[p].used && left < TWO31
      requires IsSplit(heap, next, heap.lists[i := heap.lists[i][1..]], p, size, left)
      requires Heap.Valid(next) && Granted(TableOf(heap.areas), TableOf(next.areas), p, size)
      modifies this`mem, this`heap, buckets
      ensures Valid() && heap == next && SameBytes(old(mem), mem, TableOf(old(heap).areas))
    {
      ghost var lists, popped := TakeHead(heap, mem, buckets[..], i, p);
      CutBlock(i, size, p, left, next, lists, popped);
    }

    method CutBlock(i: nat, size: int, p: int, left: int, ghost next: State, ghost lists: seq<seq<int>>,
        ghost popped: seq<int>)
      requires buckets.Length == BUCKETS && i < BUCKETS && HasWord(mem, p + 4)
      requires popped == buckets[..][i := mem[p + 4].w]
      requires TableOk(heap.areas) && Headers(mem, TableOf(heap.areas)) && AreaChain(mem, memoryLinkedList, heap.areas)
      requires p in TableOf(heap.areas) && !TableOf(heap.areas)[p].used && left < TWO31
      requires Chains(mem, popped, lists) && ListsOk(TableOf(heap.areas) - {p}, lists)
      requires IsSplit(heap, next, lists, p, size, left)
      requires Heap.Valid(next) && Granted(TableOf(heap.areas), TableOf(next.areas), p, size)
      modifies this`mem, this`heap, buckets
      ensures Valid() && heap == next && SameBytes(old(mem), mem, TableOf(old(heap).areas))
    {
      ghost var m, t := mem, TableOf(heap.areas);
      FileRest(i, size, p, left, next, lists, popped);
      ghost var m2 := mem;
      FinishHeader(p, size, next);
      SameBytesChain(m, m2, mem, t, TableOf(next.areas));
    }

    /** Write the header of what is left of block `p`, drop `p` from list `i` and file the rest. */
    method FileRest(i: nat, size: int, p: int, left: int, ghost next: State, ghost lists: seq<seq<int>>,
        ghost popped: seq<int>)
      requires buckets.Length == BUCKETS && i < BUCKETS && HasWord(mem, p + 4)
      requires popped == buckets[..][i := mem[p + 4].w]
      requires TableOk(heap.areas) && Headers(mem, TableOf(heap.areas)) && AreaChain(mem, memoryLinkedList, heap.areas)
      requires p in TableOf(heap.areas) && !TableOf(heap.areas)[p].used && left < TWO31
      requires Chains(mem, popped, lists) && ListsOk(TableOf(heap.areas) - {p}, lists)
      requires IsSplit(heap, next, lists, p, size, left)
      modifies this`mem, buckets
      ensures AllBut(mem, buckets[..], memoryLinkedList, next, p)
      ensures SameBytes(old(mem), mem, TableOf(heap.areas))
    {
      ghost var m := mem;
      ghost var m1 := MoveHead(i, p, p + HEADER + size, left, popped);
      SplitFiled(heap, next, lists, m, m1, mem, popped, memoryLinkedList, p, size, left);
    }

    /** Stores the size of the region `rest`, takes `p` off list `i` and files `rest`. */
    method MoveHead(i: nat, p: int, rest: int, left: int, ghost popped: seq<int>) returns (ghost m1: Memory)
      requires buckets.Length == BUCKETS && i < BUCKETS && HasWord(mem, p + 4) && p + HEADER <= rest
      requires 1 <= left < TWO31 && Log(left) < BUCKETS && popped == buckets[..][i := mem[p + 4].w]
      modifies this`mem, buckets
      ensures WordStored(old(mem), m1, rest, left) && WordStored(m1, mem, rest + 4, popped[Log(left)])
      ensures buckets[..] == popped[Log(left) := rest]
    {
      StoreWord(rest, left);
      m1 := mem;
      assert SameWord(old(mem), m1, p + 4);
      buckets[i] := mem[p + 4].w;
      assert buckets[..] == popped;
      InsertIntoBucket(rest);
    }

    /** Write the header of the used block `p` and step to the state that this completes. */
    method FinishHeader(p: int, size: int, ghost next: State)
      requires buckets.Length == BUCKETS && Heap.Valid(next) && AllBut(mem, buckets[..], memoryLinkedList, next, p)
      requires p in TableOf(next.areas) && TableOf(next.areas)[p] == Region(p, size, true)
      modifies this`mem, this`heap
      ensures Valid() && heap == next && SameBytes(old(mem), mem, TableOf(next.areas))
    {
      ghost var m := mem;
      StoreWord(p, size + TWO31);
      ghost var m1 := mem;
      StoreWord(p + 4, 0);
      TwoWordsStored(m, m1, mem, p, size + TWO31, 0);
      heap := next;
      FinishBlock(m, mem, buckets[..], memoryLinkedList, next, p);
    }

    // -------------------------------------------------------------- free

    method Free(ptr: int)
      requires Valid() && ptr - HEADER in TableOf(heap.areas) && TableOf(heap.areas)[ptr - HEADER].used
      modifies this`mem, this`heap, buckets
      ensures Valid() && heap == Release(old(heap), ptr - HEADER)
      ensures SameBytes(old(mem), mem, TableOf(old(heap).areas))
    {
      var reg := ptr - HEADER;
      ghost var s, m, heads := heap, mem, buckets[..];
      UsedEntry(m, s, reg);
      ghost var m1 := Unmark(reg, TableOf(s.areas)[reg].size);
      heap := Release(s, reg);
      FreedRepresents(m, m1, mem, heads, memoryLinkedList, s, reg);
    }

    /** Clears the used flag in the header and files the region. */
    method Unmark(reg: int, ghost size: int) returns (ghost m1: Memory)
      requires buckets.Length == BUCKETS && HasWord(mem, reg) && mem[reg].w == size + TWO31
      requires 1 <= size < TWO32 && Log(size) < BUCKETS
      modifies this`mem, buckets
      ensures WordStored(old(mem), m1, reg, size) && WordStored(m1, mem, reg + 4, old(buckets[..])[Log(size)])
      ensures buckets[..] == old(buckets[..])[Log(size) := reg]
    {
      StoreWord(reg, mem[reg].w - TWO31);
      m1 := mem;
      InsertIntoBucket(reg);
    }

    // -------------------------------------------------------------- merge

    /** The first loop of mergeOneArea, on area `j`. */
    method CoalesceArea(start: int, end: int, ghost areas: seq<Area>, ghost j: nat)
      requires AreasOk(areas) && j < |areas| && start == areas[j].lo && end == areas[j].hi
      requires HeadersIn(mem, areas[j].regions)
      modifies this`mem
      ensures HeadersIn(mem, Coalesce(areas[j].regions))
      ensures OnlyAt(old(mem), mem, start, end - start) && SameBytes(old(mem), mem, TableOf(areas))
    {
      var current := start;
      ghost var done: seq<Region>, rest := [], areas[j].regions;
      ghost var m := mem;
      while current < end
        invariant start <= current <= end
        invariant Tiles(done, start, current) && Tiles(rest, current, end)
        invariant done + Coalesce(rest) == Coalesce(areas[j].regions)
        invariant UsedOnly(done) + UsedOnly(rest) == UsedOnly(areas[j].regions)
        invariant HeadersIn(mem, done) && HeadersIn(mem, rest)
        invariant OnlyAt(m, mem, start, end - start) && SameBytes(m, mem, TableOf(areas))
        decreases |rest|
      {
        FirstHeader(mem, rest, current, end);
        if mem[current].w >= TWO31 {
          AdvanceOne(mem, done, rest, start, current, end);
          current := current + (mem[current].w - TWO31) + HEADER;
          done, rest := done + [rest[0]], rest[1..];
          continue;
        }
        if current + mem[current].w + HEADER >= end {
          LastOne(mem, done, rest, start, current, end);
          return;
        }
        var next := current + mem[current].w + HEADER;
        FirstHeader(mem, rest[1..], next, end);
        if mem[next].w >= TWO31 {
          AdvanceOne(mem, done, rest, start, current, end);
          current := current + mem[current].w + HEADER;
          done, rest := done + [rest[0]], rest[1..];
          continue;
        }
        ghost var m1 := mem;
        StoreWord(current, mem[current].w + mem[next].w + HEADER);
        JoinHeaders(m1, mem, done, rest, start, current, end);
        JoinBytes(m, m1, mem, areas, j, done, rest, current);
        rest := [Joined(rest[0], rest[1])] + rest[2..];
      }
      TilesWithin(rest, current, end);
      assert done + Coalesce([]) == done;
    }

    /** File the free region `r` of the coalesced run `c`. */
    method FileRegion(current: int, end: int, ghost c: seq<Region>, ghost start: int, ghost r: Region,
        ghost filed: seq<seq<int>>)
      requires buckets.Length == BUCKETS && Tiles(c, start, end) && HeadersIn(mem, c) && r in c && !r.used
      requires r.addr == current > 0 && 1 <= r.size < TWO31 && r.End() <= end
      requires Chains(mem, buckets[..], filed) && Away(filed, current, end)
      modifies this`mem, buckets
      ensures HeadersIn(mem, c) && Chains(mem, buckets[..], PushFree(filed, r)) && OnlyAt(old(mem), mem, current + 4, 4)
      ensures HasWord(mem, current) && mem[current] == old(mem)[current]
    {
      Bounded(r.size);
      assert Header(mem, r);
      ghost var m1, heads := mem, buckets[..];
      InsertIntoBucket(current);
      PushChains(m1, mem, heads, filed, Log(r.size), current);
      FileHeaders(m1, mem, c, start, end, r, heads[Log(r.size)]);
    }

    /** One turn of the second loop of mergeOneArea: file the region at `current` if it is free. */
    method RefileOne(current: int, end: int, ghost run: Refiling) returns (next: int)
      requires buckets.Length == BUCKETS && run.Holds(mem, buckets[..]) && run.cur == current < end == run.Hi()
      modifies this`mem, buckets
      ensures run.rest != [] && next == run.rest[0].End() && run.Next().Holds(mem, buckets[..])
    {
      ghost var r := run.rest[0];
      ghost var m := mem;
      FirstHeader(mem, run.rest, current, end);
      assert r in run.c;
      if mem[current].w < TWO31 {
        FileRegion(current, end, run.c, run.Lo(), r, run.filed);
        FileBytes(run.m0, m, mem, run.areas, run.j, run.done, run.rest, current);
      } else {
        assert r.used;
      }
      next := current + (if mem[current].w >= TWO31 then mem[current].w - TWO31 else mem[current].w) + HEADER;
      FileAway(run.filed, r, end);
      FiledOne(run.done, run.rest, run.Lo(), current, end);
    }

    /** The second loop of mergeOneArea: file every free region of the coalesced area. */
    method RefileArea(start: int, end: int, ghost areas: seq<Area>, ghost j: nat, ghost c: seq<Region>,
        ghost lists: seq<seq<int>>)
      requires buckets.Length == BUCKETS && AreasOk(areas) && j < |areas| && start == areas[j].lo && end == areas[j].hi
      requires Tiles(c, start, end) && HeadersIn(mem, c) && UsedOnly(c) == UsedOnly(areas[j].regions)
      requires Chains(mem, buckets[..], lists) && Away(lists, start, end)
      modifies this`mem, buckets
      ensures HeadersIn(mem, c) && Chains(mem, buckets[..], Rebuild(c, lists))
      ensures OnlyAt(old(mem), mem, start, end - start) && SameBytes(old(mem), mem, TableOf(areas))
    {
      var current := start;
      ghost var run := Refiling(mem, areas, j, c, lists, [], c, lists, start);
      while current < end
        invariant run.m0 == old(mem) && run.areas == areas && run.j == j && run.c == c && run.lists == lists
        invariant run.Holds(mem, buckets[..]) && run.cur == current <= end
        decreases |run.rest|
      {
        current := RefileOne(current, end, run);
        run := run.Next();
      }
      TilesWithin(run.rest, current, end);
    }

    method MergeOneArea(start: int, end: int, ghost areas: seq<Area>, ghost j: nat, ghost lists: seq<seq<int>>)
      requires buckets.Length == BUCKETS && AreasOk(areas) && j < |areas| && start == areas[j].lo && end == areas[j].hi
      requires HeadersIn(mem, areas[j].regions) && Chains(mem, buckets[..], lists) && Away(lists, start, end)
      modifies this`mem, buckets
      ensures HeadersIn(mem, Coalesce(areas[j].regions))
      ensures Chains(mem, buckets[..], Rebuild(Coalesce(areas[j].regions), lists))
      ensures OnlyAt(old(mem), mem, start, end - start) && SameBytes(old(mem), mem, TableOf(areas))
    {
      ghost var m := mem;
      CoalesceArea(start, end, areas, j);
      ghost var m1 := mem;
      AwayChains(m, m1, buckets[..], lists, start, end);
      CoalesceOk(areas[j].regions, start, end);
      RefileArea(start, end, areas, j, Coalesce(areas[j].regions), lists);
      OnlyAtChain(m, m1, mem, start, end - start, start, end - start, start, end - start);
      SameBytesChain(m, m1, mem, TableOf(areas), TableOf(areas));
    }

    method ClearBuckets()
      requires buckets.Length == BUCKETS
      modifies buckets
      ensures forall k :: 0 <= k < BUCKETS ==> buckets[k] == 0
    {
      for i := 0 to BUCKETS
        invariant forall k :: 0 <= k < i ==> buckets[k] == 0
      {
        buckets[i] := 0;
      }
    }

    method Merge()
      requires Valid()
      modifies this`mem, this`heap, buckets
      ensures Valid() && heap == Heap.Merge(old(heap))
      ensures SameBytes(old(mem), mem, TableOf(old(heap).areas))
    {
      ghost var s, m, heads := heap, mem, buckets[..];
      ClearBuckets();
      ghost var run := Merging(s, m, memoryLinkedList, [], NoLists());
      StartMerging(s, m, heads, buckets[..], memoryLinkedList);
      run := MergeAreas(run);
      EndMerging(run, mem, buckets[..]);
      MergeOk(s);
      heap := Heap.Merge(s);
    }

    /** The walk of merge over the list of areas. */
    method MergeAreas(ghost start: Merging) returns (ghost run: Merging)
      requires buckets.Length == BUCKETS && start.Holds(mem, buckets[..], memoryLinkedList)
      modifies this`mem, buckets
      ensures run.s == start.s && run.m0 == start.m0 && run.first == start.first
      ensures run.Holds(mem, buckets[..], 0)
    {
      var current := memoryLinkedList;
      run := start;
      while current != 0
        invariant run.s == start.s && run.m0 == start.m0 && run.first == start.first
        invariant run.Holds(mem, buckets[..], current)
        decreases |start.s.areas| - |run.done|
      {
        MergeNext(current, run);
        current := mem[current].w;
        run := run.Next();
      }
    }

    method MergeNext(current: int, ghost run: Merging)
      requires buckets.Length == BUCKETS && run.Holds(mem, buckets[..], current) && current != 0
      modifies this`mem, buckets
      ensures |run.done| < |run.s.areas| && HasWord(mem, current) && run.Next().Holds(mem, buckets[..], mem[current].w)
    {
      ghost var m, heads := mem, buckets[..];
      NextNow(run);
      var end := mem[current + 4].w;
      MergeOneArea(current + HEADER, end, run.Now(), |run.done|, run.lists);
      NextHolds(run, m, mem, heads, buckets[..], current);
    }

    // -------------------------------------------------------------- init, malloc, realloc

    /** init: one area, one free region; sound only while its list is empty. */
    method Init(start: int, length: int)
      requires Valid() && FreshRun(heap.areas, start, length)
      requires length > 16 ==> Heap.Valid(HeapGrowth.Init(heap, start, length))
      modifies this`mem, this`heap, this`memoryLinkedList, buckets
      ensures Valid() && heap == HeapGrowth.Init(old(heap), start, length)
      ensures SameBytes(old(mem), mem, TableOf(old(heap).areas))
    {
      if length <= 16 {
        return;
      }
      ghost var s, m, heads, first := heap, mem, buckets[..], memoryLinkedList;
      LowestBracket(length - 2 * HEADER);
      var bucket := NextLowestPowerOfTwo(length - 2 * HEADER);
      buckets[bucket] := start + HEADER;
      assert buckets[..] == heads[bucket := start + HEADER];
      WriteInitWords(start, length);
      memoryLinkedList := start;
      heap := HeapGrowth.Init(s, start, length);
      InitRepresents(m, mem, heads, first, s, start, length);
    }

    method WriteInitWords(start: int, length: int)
      modifies this`mem
      ensures InitWords(old(mem), mem, memoryLinkedList, start, length)
    {
      ghost var m := mem;
      StoreWord(start + 8, length - 16);
      ghost var m1 := mem;
      StoreWord(start + 12, 0);
      ghost var m2 := mem;
      StoreWord(start, memoryLinkedList);
      ghost var m3 := mem;
      StoreWord(start + 4, start + length);
      FourWords(m, m1, m2, m3, mem, memoryLinkedList, start, length);
    }

    method MergeAndTry(size: int) returns (p: int)
      requires Valid() && 1 <= size < TWO31
      modifies this`mem, this`heap, buckets
      ensures Valid() && Heap.Valid(Heap.Merge(old(heap))) && heap == OneTry(Heap.Merge(old(heap)), size).0
      ensures OneTry(Heap.Merge(old(heap)), size).1 == (if p == 0 then None else Some(p))
      ensures SameBytes(old(mem), mem, TableOf(old(heap).areas))
    {
      ghost var s, m := heap, mem;
      MergeKeepsUsed(s);
      Merge();
      ghost var m1 := mem;
      p := MallocOneTry(size);
      SameBytesChain(m, m1, mem, TableOf(s.areas), TableOf(Heap.Merge(s).areas));
    }

    /** The pointer handed out. The recursion is one deep: after growing, the first try succeeds. */
    method Malloc(size: int, page: int) returns (ptr: int)
      requires Valid() && CanServe(heap, size, page)
      modifies this`mem, this`heap, this`memoryLinkedList, buckets
      ensures Valid() && heap == HeapGrowth.Malloc(old(heap), size, page).0
      ensures ptr == HeapGrowth.Malloc(old(heap), size, page).1 + HEADER
      ensures SameBytes(old(mem), mem, TableOf(old(heap).areas))
      decreases OneTry(heap, size).1.None?
    {
      ghost var s, m := heap, mem;
      var p := MallocOneTry(size);
      if p == 0 {
        assert heap == s;
        p := MergeAndTry(size);
        if p == 0 {
          GrowReady(s, size, page);
          ghost var m1 := mem;
          ptr := Grow(size, page);
          SameBytesChain(m, m1, mem, TableOf(s.areas), TableOf(Heap.Merge(s).areas));
          return;
        }
      }
      ptr := p + HEADER;
    }

    /** Give the allocator a fresh run of pages and ask it again. */
    method Grow(size: int, page: int) returns (ptr: int)
      requires Valid() && 1 <= size <= TWO30 && FreshRun(heap.areas, page, GrowthSize(size))
      requires Heap.Valid(HeapGrowth.Init(heap, page, GrowthSize(size)))
      requires OneTry(heap, size).1.None? && OneTry(HeapGrowth.Init(heap, page, GrowthSize(size)), size).1.Some?
      requires SameLive(TableOf(heap.areas), TableOf(HeapGrowth.Init(heap, page, GrowthSize(size)).areas))
      modifies this`mem, this`heap, this`memoryLinkedList, buckets
      ensures Valid() && heap == OneTry(HeapGrowth.Init(old(heap), page, GrowthSize(size)), size).0
      ensures ptr == OneTry(HeapGrowth.Init(old(heap), page, GrowthSize(size)), size).1.value + HEADER
      ensures GrowthSize(size) % PAGE == 0
      ensures SameBytes(old(mem), mem, TableOf(old(heap).areas))
      decreases OneTry(heap, size).1.None?, 0
    {
      ghost var s, m := heap, mem;
      GrowthIsPages(size);
      Init(page, GrowthSize(size));
      ghost var m1 := mem;
      ghost var g := heap;
      ptr := Malloc(size, page);
      SameBytesChain(m, m1, mem, TableOf(s.areas), TableOf(g.areas));
    }

    // -------------------------------------------------------------- callers' data

    /** A caller's write inside a block it holds never disturbs the allocator. */
    method WriteByte(x: int, v: int)
      requires Valid() && InUse(TableOf(heap.areas), x)
      modifies this`mem
      ensures Valid() && OnlyAt(old(mem), mem, x, 1) && x in mem && mem[x] == Byte(v)
    {
      ghost var m := mem;
      mem := Put(mem, x, Byte(v));
      PutStoresByte(m, x, v);
      ByteRepresents(m, mem, buckets[..], memoryLinkedList, heap, x);
    }

    /** memcpy between two blocks of callers' bytes. */
    method CopyBytes(src: int, dst: int, n: int)
      requires Valid() && 0 <= n && (src + n <= dst || dst + n <= src)
      requires forall i :: dst <= i < dst + n ==> InUse(TableOf(heap.areas), i)
      modifies this`mem
      ensures Valid() && OnlyAt(old(mem), mem, dst, n) && CopiedTo(old(mem), mem, src, dst, n)
    {
      ghost var m := mem;
      for i := 0 to n
        invariant Valid() && OnlyAt(m, mem, dst, n) && CopiedTo(m, mem, src, dst, i)
      {
        assert SameByte(m, mem, src + i);
        if src + i in mem && mem[src + i].Byte? {
          ghost var m1 := mem;
          WriteByte(dst + i, mem[src + i].b);
          CopyStep(m, m1, mem, src, dst, n, i);
        }
      }
    }

    /** realloc: a new block, the old contents up to the smaller size, then the old block freed. */
    method Realloc(ptr: int, size: int, page: int) returns (newmem: int)
      requires Valid() && CanServe(heap, size, page)
      requires ptr - HEADER in TableOf(heap.areas) && TableOf(heap.areas)[ptr - HEADER].used
      modifies this`mem, this`heap, this`memoryLinkedList, buckets
      ensures Valid() && newmem == HeapGrowth.Realloc(old(heap), ptr - HEADER, size, page).1 + HEADER
      ensures heap == HeapGrowth.Realloc(old(heap), ptr - HEADER, size, page).0
      ensures CopiedTo(old(mem), mem, ptr, newmem, Min(TableOf(old(heap).areas)[ptr - HEADER].size, size))
      ensures SameBytes(old(mem), mem, TableOf(old(heap).areas) - {ptr - HEADER})
    {
      ghost var s, m := heap, mem;
      MallocOk(s, size, page);
      newmem := Malloc(size, page);
      CopyAndFree(ptr, newmem, size, TableOf(s.areas), m);
    }

    /** The old block's contents move to a block allocated after the table was `t` and the memory `m`. */
    method CopyAndFree(ptr: int, newmem: int, size: int, ghost t: Table, ghost m: Memory)
      requires Valid() && size >= 0 && Allocated(t, TableOf(heap.areas), newmem - HEADER, size) && SameBytes(m, mem, t)
      requires ptr - HEADER in t && t[ptr - HEADER].used
      modifies this`mem, this`heap, buckets
      ensures ptr - HEADER in TableOf(old(heap).areas) && TableOf(old(heap).areas)[ptr - HEADER].used
      ensures Valid() && heap == Release(old(heap), ptr - HEADER)
      ensures CopiedTo(m, mem, ptr, newmem, Min(t[ptr - HEADER].size, size)) && SameBytes(m, mem, t - {ptr - HEADER})
    {
      ghost var areas, m1 := heap.areas, mem;
      OtherBlock(t, TableOf(areas), ptr - HEADER, newmem - HEADER, size);
      ghost var n, m2 := CopyThenFree(ptr, newmem, size);
      ReallocAreas(m, m1, m2, mem, t, areas, ptr, newmem, n, size);
    }

    method CopyThenFree(ptr: int, newmem: int, size: int) returns (ghost n: int, ghost m2: Memory)
      requires Valid() && ptr != newmem && size >= 0
      requires ptr - HEADER in TableOf(heap.areas) && TableOf(heap.areas)[ptr - HEADER].used
      requires newmem - HEADER in TableOf(heap.areas) && TableOf(heap.areas)[newmem - HEADER].used
      requires size <= TableOf(heap.areas)[newmem - HEADER].size
      modifies this`mem, this`heap, buckets
      ensures Valid() && heap == Release(old(heap), ptr - HEADER)
      ensures n == Min(TableOf(old(heap).areas)[ptr - HEADER].size, size)
      ensures OnlyAt(old(mem), m2, newmem, n) && CopiedTo(old(mem), m2, ptr, newmem, n)
      ensures SameBytes(m2, mem, TableOf(old(heap).areas))
    {
      n := CopyOld(ptr, newmem, size);
      m2 := mem;
      Free(ptr);
    }

    /** Copy the contents of the block at `ptr` to the block at `newmem`, up to the smaller size. */
    method CopyOld(ptr: int, newmem: int, size: int) returns (n: int)
      requires Valid() && ptr != newmem && size >= 0
      requires ptr - HEADER in TableOf(heap.areas) && TableOf(heap.areas)[ptr - HEADER].used
      requires newmem - HEADER in TableOf(heap.areas) && TableOf(heap.areas)[newmem - HEADER].used
      requires size <= TableOf(heap.areas)[newmem - HEADER].size
      modifies this`mem
      ensures Valid() && n == Min(TableOf(heap.areas)[ptr - HEADER].size, size)
      ensures OnlyAt(old(mem), mem, newmem, n) && CopiedTo(old(mem), mem, ptr, newmem, n)
    {
      var reg := ptr - HEADER;
      UsedEntry(mem, heap, reg);
      n := Min(mem[reg].w - TWO31, size);
      ReallocRoom(heap.areas, reg, newmem - HEADER, n);
      CopyBytes(ptr, newmem, n);
    }
  }
}
