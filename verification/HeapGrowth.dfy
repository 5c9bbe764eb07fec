/** Growing the heap, malloc with its retries, and every run of the allocator from an empty heap. */
module HeapGrowth {
  import opened Common
  import opened Logs
  import opened Heap

  /** The free region that init makes of a run of `length` bytes at `start`. */
  function InitRegion(start: int, length: int): Region
    requires length > 16
  {
    Region(start + HEADER, length - 2 * HEADER, false)
  }

  /** init: the run becomes one area holding one free region, and its list head is overwritten. */
  function Init(s: State, start: int, length: int): (s': State)
    requires |s.lists| == BUCKETS && length < TWO31
  {
    if length <= 16 then s
    else
      var r := InitRegion(start, length);
      LowestBracket(r.size);
      State([Area(r.addr, start + length, [r])] + s.areas,
            s.lists[NextLowestPowerOfTwo(r.size) := [r.addr]])
  }

  /** A run of memory that no area touches and that ends inside the address space. */
  ghost predicate FreshRun(areas: seq<Area>, start: int, length: int) {
    0 < start && start + length < TWO32 && length < TWO31 && Untouched(areas, start, start + length)
  }

  lemma InitAreas(s: State, start: int, length: int)
    requires Valid(s) && FreshRun(s.areas, start, length) && length > 16
    ensures AreasOk(Init(s, start, length).areas)
    ensures var r := InitRegion(start, length);
            && r.addr !in TableOf(s.areas)
            && TableOf(Init(s, start, length).areas) == TableOf(s.areas)[r.addr := r]
  {
    var r := InitRegion(start, length);
    SingleRegion(r);
    ConsAreas(Area(r.addr, start + length, [r]), s.areas);
    TableInAreas(s.areas, start, start + length);
    AreasTable(s.areas);
    AddOne(TableOf(s.areas), r.addr, r);
  }

  lemma AddOne(t: Table, a: int, r: Region)
    ensures t + map[a := r] == t[a := r]
  {
  }

  /** init overwrites a list head, so it keeps the invariant exactly when that list was empty. */
  lemma InitKeepsInvariantIff(s: State, start: int, length: int)
    requires Valid(s) && FreshRun(s.areas, start, length) && length > 16
    ensures 0 <= NextLowestPowerOfTwo(length - 16) < BUCKETS
    ensures Valid(Init(s, start, length)) <==> s.lists[NextLowestPowerOfTwo(length - 16)] == []
  {
    var r := InitRegion(start, length);
    var k := NextLowestPowerOfTwo(length - 16);
    LowestBracket(length - 16);
    InitAreas(s, start, length);
    var t := TableOf(s.areas);
    if s.lists[k] == [] {
      PushOk(t, s.lists, r.addr, r);
      assert [r.addr] + s.lists[k] == [r.addr];
    } else {
      var b := s.lists[k][0];
      assert Filed(t, s.lists[k], k);
      LogUnique(t[b].size, k);
      assert !InBucket(Init(s, start, length).lists, t[b].size, b);
    }
  }

  // ---------------------------------------------------------------- how much to grow

  lemma {:induction false} PagesDivide(k: nat)
    requires k >= 12
    ensures Pow2(k) % PAGE == 0
    decreases k
  {
    Pow2Values();
    if k > 12 {
      PagesDivide(k - 1);
    }
  }

  lemma RoundedRange(v: nat)
    requires v >= 1
    ensures PAGE <= Rounded(v) < v + PAGE
  {
    if v < PAGE { SmallModulus(v); }
  }

  lemma BucketRange(size: int)
    requires 1 <= size < TWO31
    ensures 0 <= NextHighestPowerOfTwo(size) <= 31 && 1 <= Pow2(NextHighestPowerOfTwo(size)) <= TWO31
  {
    HighestIsCeiling(size, 31);
    Pow2Values();
    Pow2Monotone(NextHighestPowerOfTwo(size), 31);
  }

  /** The number of bytes malloc asks the page directory for. */
  function GrowthSize(size: int): (n: nat)
    requires 1 <= size < TWO31
  {
    BucketRange(size);
    var bucket := NextHighestPowerOfTwo(size);
    RoundedRange(Pow2(bucket));
    var rounded := Rounded(Pow2(bucket));
    if NextHighestPowerOfTwo(rounded - 16) == bucket then rounded + PAGE else rounded
  }

  /** Whatever the request, the new region lands in a list the retry will search. */
  lemma GrowthFits(size: int)
    requires 1 <= size < TWO31
    ensures PAGE <= GrowthSize(size) <= TWO31 + PAGE
    ensures NextHighestPowerOfTwo(size) <= NextLowestPowerOfTwo(GrowthSize(size) - 16)
  {
    Pow2Values();
    HighestIsCeiling(size, 31);
    var b := NextHighestPowerOfTwo(size);
    Pow2Monotone(b, 31);
    if b < 12 {
      SmallGrowth(b);
    } else {
      LargeGrowth(b);
    }
  }

  function Rounded(bytes: int): int {
    bytes + (if bytes % PAGE == 0 then 0 else PAGE - bytes % PAGE)
  }

  lemma {:induction false} SmallGrowth(b: nat)
    requires b < 12
    ensures Rounded(Pow2(b)) == PAGE && NextHighestPowerOfTwo(PAGE - 16) == 12
    ensures NextLowestPowerOfTwo(PAGE - 16) == 11
  {
    Pow2Values();
    Pow2Monotone(b, 11);
    SmallModulus(Pow2(b));
    HighestIsCeiling(4080, 11);
    HighestIsCeiling(4080, 12);
    LogUnique(4080, 11);
    LowestBracket(4080);
  }

  lemma {:induction false} LargeGrowth(b: nat)
    requires 12 <= b <= 31
    ensures PAGE <= Pow2(b) <= TWO31
    ensures Rounded(Pow2(b)) == Pow2(b) && NextHighestPowerOfTwo(Pow2(b) - 16) == b
    ensures NextLowestPowerOfTwo(Pow2(b) + PAGE - 16) == b
  {
    PowerRange(b);
    LargePower(Pow2(b), b);
  }

  lemma {:induction false} PowerRange(b: nat)
    requires 12 <= b <= 31
    ensures PAGE <= Pow2(b) <= TWO31 && Pow2(b) % PAGE == 0
  {
    Pow2Values();
    Pow2Monotone(12, b);
    Pow2Monotone(b, 31);
    PagesDivide(b);
  }

  lemma {:induction false} LargePower(p: nat, b: nat)
    requires 12 <= b <= 31 && p == Pow2(b) && PAGE <= p <= TWO31 && p % PAGE == 0
    ensures Rounded(p) == p && NextHighestPowerOfTwo(p - 16) == b
    ensures NextLowestPowerOfTwo(p + PAGE - 16) == b
  {
    JustBelow(p, b);
    JustAbove(p, b);
  }

  lemma {:induction false} JustBelow(p: nat, b: nat)
    requires 12 <= b <= 31 && p == Pow2(b) && PAGE <= p <= TWO31
    ensures NextHighestPowerOfTwo(p - 16) == b
  {
    HighestIsCeiling(p - 16, b);
    HighestIsCeiling(p - 16, b - 1);
  }

  lemma {:induction false} JustAbove(p: nat, b: nat)
    requires 12 <= b <= 31 && p == Pow2(b) && PAGE <= p <= TWO31
    ensures NextLowestPowerOfTwo(p + PAGE - 16) == b
  {
    LogUnique(p + PAGE - 16, b);
    LowestBracket(p + PAGE - 16);
  }

  /**
   The region that growth makes has a size word below the used flag exactly for requests of at most 2^30 bytes; a
   larger one gets 2^31 + 4096 bytes, whose size word reads as a used region.
   */
  lemma GrowthWordIff(size: int)
    requires 1 <= size < TWO31
    ensures GrowthSize(size) < TWO31 <==> size <= TWO30
    ensures GrowthSize(size) - 2 * HEADER < TWO31 <==> size <= TWO30
  {
    Pow2Values();
    HighestIsCeiling(size, 30);
    HighestIsCeiling(size, 31);
    var b := NextHighestPowerOfTwo(size);
    if b < 12 {
      SmallGrowth(b);
    } else {
      LargeGrowth(b);
      if b <= 30 { Pow2Monotone(b, 30); }
    }
  }

  /** One page for a request below half a page; otherwise the next power of two and a page more. */
  lemma GrowthExact(size: int)
    requires 1 <= size < TWO31
    ensures 0 <= NextHighestPowerOfTwo(size) <= 31
    ensures GrowthSize(size) == if size <= 2048 then PAGE else Pow2(NextHighestPowerOfTwo(size)) + PAGE
  {
    Pow2Values();
    HighestIsCeiling(size, 11);
    HighestIsCeiling(size, 31);
    var b := NextHighestPowerOfTwo(size);
    if b < 12 { SmallGrowth(b); } else { LargeGrowth(b); }
  }

  /** Where malloc looks for room to grow. */
  const GROW_FROM: int := 0xD000_0000

  /** From there to the end of the address space there is room for growth exactly for requests of at most 2^29 bytes. */
  lemma GrowthRoomIff(size: int)
    requires 1 <= size < TWO31
    ensures GROW_FROM + GrowthSize(size) <= 0x1_0000_0000 <==> size <= 0x2000_0000
  {
    Pow2Values();
    assert Pow2(29) == 0x2000_0000;
    HighestIsCeiling(size, 29);
    HighestIsCeiling(size, 31);
    var b := NextHighestPowerOfTwo(size);
    if b < 12 {
      SmallGrowth(b);
    } else {
      LargeGrowth(b);
      if b <= 29 { Pow2Monotone(b, 29); } else { Pow2Monotone(30, b); }
    }
  }

  /** No valid heap serves a request above 2^30 bytes without growing, since no free region is that large. */
  lemma LargeRequestGrows(s: State, size: int)
    requires Valid(s) && TWO30 < size < TWO31
    ensures MustGrow(s, size)
  {
    MergeOk(s);
    TopBucketEmpty(s, size);
    TopBucketEmpty(Merge(s), size);
  }

  lemma TopBucketEmpty(s: State, size: int)
    requires Valid(s) && TWO30 < size < TWO31
    ensures OneTry(s, size).1.None?
  {
    Pow2Values();
    HighestIsCeiling(size, 30);
    HighestIsCeiling(size, 31);
    TopListEmpty(s);
    assert FirstNonEmpty(s.lists, 31) == None;
  }

  lemma TopListEmpty(s: State)
    requires Valid(s)
    ensures s.lists[31] == []
  {
    Pow2Values();
    AreasTable(s.areas);
    assert Filed(TableOf(s.areas), s.lists[31], 31);
    TopUnfiled(TableOf(s.areas), s.lists[31], 31);
  }

  lemma {:induction false} TopUnfiled(t: Table, s: seq<int>, k: nat)
    requires forall a :: a in t ==> t[a].size < Pow2(k)
    ensures s != [] ==> !Filed(t, s, k)
  {
    if s != [] {
      var a := s[0];
      assert a in s;
      assert a in t ==> t[a].size < Pow2(k);
      assert Filed(t, s, k) ==> a in t;
    }
  }

  lemma SmallModulus(v: nat)
    requires v < PAGE
    ensures v % PAGE == v
  {
  }

  lemma GrowthIsPages(size: int)
    requires 1 <= size < TWO31
    ensures GrowthSize(size) % PAGE == 0
  {
    HighestIsCeiling(size, 31);
    Pow2Values();
    var b := NextHighestPowerOfTwo(size);
    if b < 12 {
      SmallGrowth(b);
    } else {
      LargeGrowth(b);
      PowerRange(b);
      OnePageMore(Pow2(b));
    }
  }

  lemma OnePageMore(v: nat)
    requires v % PAGE == 0
    ensures (v + PAGE) % PAGE == 0
  {
  }

  // ---------------------------------------------------------------- malloc

  lemma MergeUntouched(s: State, lo: int, hi: int)
    requires Valid(s) && Untouched(s.areas, lo, hi)
    ensures Untouched(Merge(s).areas, lo, hi)
  {
    MergeOk(s);
    forall i | 0 <= i < |s.areas| ensures Merge(s).areas[i].hi <= lo || hi <= Merge(s).areas[i].lo - HEADER {
      assert AreaMerged(s.areas[i], Merge(s).areas[i]);
    }
  }

  /** Once merging has failed, init on a fresh run loses no region and the next try succeeds. */
  lemma GrownTrySucceeds(s: State, size: int, page: int)
    requires Valid(s) && 1 <= size <= TWO30 && FreshRun(s.areas, page, GrowthSize(size))
    requires OneTry(s, size).1.None?
    ensures Valid(Init(s, page, GrowthSize(size)))
    ensures OneTry(Init(s, page, GrowthSize(size)), size).1.Some?
    ensures SameLive(TableOf(s.areas), TableOf(Init(s, page, GrowthSize(size)).areas))
  {
    GrowthFits(size);
    OneTryOk(s, size);
    InitAboveNothing(s, size, page, GrowthSize(size));
  }

  lemma InitAboveNothing(s: State, size: int, page: int, n: nat)
    requires Valid(s) && 1 <= size < TWO31 && n > 16 && FreshRun(s.areas, page, n)
    requires NothingFrom(s.lists, NextHighestPowerOfTwo(size))
    requires NextHighestPowerOfTwo(size) <= NextLowestPowerOfTwo(n - 16)
    ensures Valid(Init(s, page, n)) && OneTry(Init(s, page, n), size).1.Some?
    ensures SameLive(TableOf(s.areas), TableOf(Init(s, page, n).areas))
  {
    InitInEmptyBucket(s, page, n);
    InitHead(s, page, n);
    BucketServes(Init(s, page, n), size, NextLowestPowerOfTwo(n - 16));
  }

  /** With the bucket of the new region empty, init loses nothing. */
  lemma InitInEmptyBucket(s: State, page: int, n: nat)
    requires Valid(s) && n > 16 && FreshRun(s.areas, page, n)
    requires 0 <= NextLowestPowerOfTwo(n - 16) < 32 ==> s.lists[NextLowestPowerOfTwo(n - 16)] == []
    ensures Valid(Init(s, page, n)) && SameLive(TableOf(s.areas), TableOf(Init(s, page, n).areas))
  {
    LowestBracket(n - 16);
    InitKeepsInvariantIff(s, page, n);
    InitAreas(s, page, n);
  }

  lemma InitHead(s: State, page: int, n: nat)
    requires |s.lists| == BUCKETS && 16 < n < TWO31
    ensures |Init(s, page, n).lists| == BUCKETS && 0 <= NextLowestPowerOfTwo(n - 16) < BUCKETS
    ensures Init(s, page, n).lists[NextLowestPowerOfTwo(n - 16)] == [page + HEADER]
  {
    LowestBracket(n - 16);
  }

  /** A search finds something if a bucket at or above the first one searched is not empty. */
  lemma BucketServes(s: State, size: int, k: nat)
    requires Valid(s) && 1 <= size < TWO31 && NextHighestPowerOfTwo(size) <= k < |s.lists| && s.lists[k] != []
    ensures OneTry(s, size).1.Some?
  {
    HighestIsCeiling(size, 31);
  }

  function Unwrap(r: (State, Option<int>)): (State, int)
    requires r.1.Some?
  {
    (r.0, r.1.value)
  }

  /** Neither a first try nor one after merging can serve `size` bytes. */
  ghost predicate MustGrow(s: State, size: int)
    requires Valid(s) && 1 <= size < TWO31
  {
    MergeOk(s);
    OneTry(s, size).1.None? && OneTry(Merge(s), size).1.None?
  }

  /**
   A request the allocator can be given: at most 2^30 bytes, so that what it grows by can be told from a used region,
   with a fresh run of pages at hand if it must grow.
   */
  ghost predicate CanServe(s: State, size: int, page: int) {
    Valid(s) && 1 <= size <= TWO30 && (MustGrow(s, size) ==> FreshRun(s.areas, page, GrowthSize(size)))
  }

  /** malloc: try, merge and try, grow and try. `page` is used only if the heap must grow. */
  ghost function Malloc(s: State, size: int, page: int): (r: (State, int))
    requires CanServe(s, size, page)
  {
    MergeOk(s);
    if OneTry(s, size).1.Some? then Unwrap(OneTry(s, size))
    else
      if OneTry(Merge(s), size).1.Some? then Unwrap(OneTry(Merge(s), size))
      else
        MergeUntouched(s, page, page + GrowthSize(size));
        GrownTrySucceeds(Merge(s), size, page);
        Unwrap(OneTry(Init(Merge(s), page, GrowthSize(size)), size))
  }

  /** `p` is new among the used regions, holds `size` bytes, and the rest of the used regions are as before. */
  ghost predicate Allocated(t: Table, t': Table, p: int, size: int) {
    && (p in t ==> !t[p].used)
    && p in t' && t'[p].used && size <= t'[p].size
    && (forall a :: a in t && t[a].used ==> a in t' && t'[a] == t[a])
    && (forall a :: a in t' && t'[a].used && a != p ==> a in t && t[a] == t'[a])
  }

  lemma MallocOk(s: State, size: int, page: int)
    requires CanServe(s, size, page)
    ensures Valid(Malloc(s, size, page).0)
    ensures Allocated(TableOf(s.areas), TableOf(Malloc(s, size, page).0.areas), Malloc(s, size, page).1, size)
  {
    OneTryOk(s, size);
    if OneTry(s, size).1.None? {
      MergeKeepsUsed(s);
      OneTryOk(Merge(s), size);
      if OneTry(Merge(s), size).1.None? {
        MergeUntouched(s, page, page + GrowthSize(size));
        GrownTrySucceeds(Merge(s), size, page);
        OneTryOk(Init(Merge(s), page, GrowthSize(size)), size);
      }
    }
  }

  /** malloc adds an area exactly if neither a try nor a try after merging serves the request, and merges only then. */
  lemma MallocGrowsIff(s: State, size: int, page: int)
    requires CanServe(s, size, page)
    ensures |Malloc(s, size, page).0.areas| == |s.areas| + (if MustGrow(s, size) then 1 else 0)
    ensures OneTry(s, size).1.Some? ==> Malloc(s, size, page).0 == OneTry(s, size).0
  {
    OneTryOk(s, size);
    MergeOk(s);
    OneTryOk(Merge(s), size);
    if MustGrow(s, size) {
      MergeUntouched(s, page, page + GrowthSize(size));
      GrownTrySucceeds(Merge(s), size, page);
      GrowthFits(size);
      OneTryOk(Init(Merge(s), page, GrowthSize(size)), size);
    }
  }

  /** realloc: a new block first, then the old one is released. */
  ghost function Realloc(s: State, block: int, size: int, page: int): (r: (State, int))
    requires CanServe(s, size, page) && block in TableOf(s.areas) && TableOf(s.areas)[block].used
  {
    MallocOk(s, size, page);
    (Release(Malloc(s, size, page).0, block), Malloc(s, size, page).1)
  }

  // ---------------------------------------------------------------- runs

  /**
   The callers' side of the heap: the size asked for, for each live block. A block is named by its
   header address; the pointer handed out is HEADER bytes further.
   */
  datatype Run = Run(heap: State, live: map<int, int>)

  datatype Op =
    | DoMalloc(size: int, page: int)
    | DoFree(block: int)
    | DoRealloc(block: int, size: int, page: int)
    | DoMerge
    | DoInit(start: int, length: int)

  /**
   What the kernel demands of a caller: sizes in range, blocks it owns, fresh pages, and no init that would overwrite
   the head of a list in use.
   */
  ghost predicate Enabled(r: Run, op: Op) {
    match op
    case DoMalloc(size, page) => CanServe(r.heap, size, page)
    case DoFree(block) => block in r.live
    case DoRealloc(block, size, page) => block in r.live && CanServe(r.heap, size, page)
    case DoMerge => true
    case DoInit(start, length) => FreshRun(r.heap.areas, start, length) && InitSpares(r.heap, length)
  }

  ghost predicate InitSpares(s: State, length: int) {
    16 < length < TWO32 && |s.lists| == BUCKETS ==>
      0 <= NextLowestPowerOfTwo(length - 16) < BUCKETS && s.lists[NextLowestPowerOfTwo(length - 16)] == []
  }

  /** The used regions are exactly the live blocks, each at least as large as was asked. */
  ghost predicate Owns(t: Table, live: map<int, int>) {
    && (forall a :: a in live ==> a in t && t[a].used && live[a] <= t[a].size)
    && (forall a :: a in t && t[a].used ==> a in live)
  }

  ghost predicate Good(r: Run) {
    Valid(r.heap) && Owns(TableOf(r.heap.areas), r.live)
  }

  ghost function Step(r: Run, op: Op): Run
    requires Good(r) && Enabled(r, op)
  {
    match op
    case DoMalloc(size, page) =>
      var (h, a) := Malloc(r.heap, size, page);
      Run(h, r.live[a := size])
    case DoFree(block) =>
      Run(Release(r.heap, block), r.live - {block})
    case DoRealloc(block, size, page) =>
      var (h, a) := Realloc(r.heap, block, size, page);
      Run(h, r.live[a := size] - {block})
    case DoMerge => Run(Merge(r.heap), r.live)
    case DoInit(start, length) => Run(Init(r.heap, start, length), r.live)
  }

  lemma MallocGood(r: Run, size: int, page: int)
    requires Good(r) && Enabled(r, DoMalloc(size, page))
    ensures Malloc(r.heap, size, page).1 !in r.live
    ensures Good(Run(Malloc(r.heap, size, page).0, r.live[Malloc(r.heap, size, page).1 := size]))
  {
    MallocOk(r.heap, size, page);
    var (h, a) := Malloc(r.heap, size, page);
    OwnsMore(TableOf(r.heap.areas), TableOf(h.areas), r.live, a, size);
  }

  lemma OwnsMore(t: Table, t': Table, live: map<int, int>, a: int, size: int)
    requires Owns(t, live) && Allocated(t, t', a, size)
    ensures a !in live && Owns(t', live[a := size])
  {
  }

  lemma FreeGood(r: Run, block: int)
    requires Good(r) && block in r.live
    ensures Good(Run(Release(r.heap, block), r.live - {block}))
  {
    ReleaseOk(r.heap, block);
  }

  lemma NothingFiled(s: seq<int>, k: nat)
    ensures s != [] ==> !Filed(map[], s, k)
  {
    if s != [] {
      assert s[0] in s;
    }
  }

  /** The first init is always allowed. */
  lemma FirstInitAllowed(r: Run, start: int, length: int)
    requires Good(r) && r.heap.areas == [] && FreshRun([], start, length)
    ensures Enabled(r, DoInit(start, length))
  {
    if length > 16 {
      LowestBracket(length - 16);
      var k := NextLowestPowerOfTwo(length - 16);
      NothingFiled(r.heap.lists[k], k);
      assert Filed(map[], r.heap.lists[k], k);
    }
  }

  lemma InitGood(r: Run, start: int, length: int)
    requires Good(r) && Enabled(r, DoInit(start, length))
    ensures Good(Run(Init(r.heap, start, length), r.live))
  {
    if length > 16 {
      InitKeepsInvariantIff(r.heap, start, length);
      InitAreas(r.heap, start, length);
    }
  }

  lemma StepGood(r: Run, op: Op)
    requires Good(r) && Enabled(r, op)
    ensures Good(Step(r, op))
  {
    match op
    case DoMalloc(size, page) => MallocGood(r, size, page);
    case DoFree(block) => FreeGood(r, block);
    case DoRealloc(block, size, page) =>
      MallocGood(r, size, page);
      var (h, a) := Malloc(r.heap, size, page);
      FreeGood(Run(h, r.live[a := size]), block);
    case DoMerge => MergeKeepsUsed(r.heap);
    case DoInit(start, length) => InitGood(r, start, length);
  }

  /** One operation. `Step` is defined on good states; EveryRunGood shows a run has no others. */
  ghost predicate Next(q: Run, op: Op, r: Run) {
    Enabled(q, op) && (Good(q) ==> r == Step(q, op))
  }

  /** The states of a run: from the empty heap, each by its operation from the one before. */
  ghost predicate IsRun(rs: seq<Run>, ops: seq<Op>) {
    && |rs| == |ops| + 1
    && rs[0] == Run(EmptyHeap(), map[])
    && forall i :: 0 <= i < |ops| ==> Next(rs[i], ops[i], rs[i + 1])
  }

  lemma EmptyGood()
    ensures Good(Run(EmptyHeap(), map[]))
  {
    assert TableOf([]) == map[];
  }

  /** Safety of every run: tiling, exact free lists, and live blocks at least as large as asked. */
  lemma {:induction false} EveryRunGood(rs: seq<Run>, ops: seq<Op>, i: nat)
    requires IsRun(rs, ops) && i < |rs|
    ensures Good(rs[i])
  {
    if i == 0 {
      EmptyGood();
    } else {
      EveryRunGood(rs, ops, i - 1);
      assert Next(rs[i - 1], ops[i - 1], rs[i]);
      StepGood(rs[i - 1], ops[i - 1]);
    }
  }

  /** The blocks that callers hold never overlap, in any run. */
  lemma EveryRunDisjoint(rs: seq<Run>, ops: seq<Op>, i: nat, a: int, b: int)
    requires IsRun(rs, ops) && i < |rs| && a in rs[i].live && b in rs[i].live && a != b
    ensures a + HEADER + rs[i].live[a] <= b || b + HEADER + rs[i].live[b] <= a
    ensures a + HEADER + rs[i].live[a] <= TWO32
  {
    EveryRunGood(rs, ops, i);
    AreasTable(rs[i].heap.areas);
    OwnedApart(TableOf(rs[i].heap.areas), rs[i].live, a, b);
  }

  lemma OwnedApart(t: Table, live: map<int, int>, a: int, b: int)
    requires Owns(t, live) && Separate(t) && Within(t, 9, TWO32) && a in live && b in live && a != b
    ensures a + HEADER + live[a] <= b || b + HEADER + live[b] <= a
    ensures a + HEADER + live[a] <= TWO32
  {
    assert Clear(t, a, b);
  }

  // ---------------------------------------------------------------- what callers hold

  /** What an operation does to the blocks that callers hold. */
  ghost predicate LiveMoves(live: map<int, int>, op: Op, live': map<int, int>) {
    match op
    case DoMalloc(size, _) => exists a :: a !in live && live' == live[a := size]
    case DoFree(block) => block in live && live' == live - {block}
    case DoRealloc(block, size, _) => block in live && exists a :: a !in live && live' == live[a := size] - {block}
    case DoMerge => live' == live
    case DoInit(_, _) => live' == live
  }

  function Mallocs(ops: seq<Op>): nat {
    if ops == [] then 0 else Mallocs(ops[..|ops| - 1]) + (if ops[|ops| - 1].DoMalloc? then 1 else 0)
  }

  function Frees(ops: seq<Op>): nat {
    if ops == [] then 0 else Frees(ops[..|ops| - 1]) + (if ops[|ops| - 1].DoFree? then 1 else 0)
  }

  lemma StepLive(r: Run, op: Op)
    requires Good(r) && Enabled(r, op)
    ensures LiveMoves(r.live, op, Step(r, op).live)
  {
    if op.DoMalloc? || op.DoRealloc? { MallocGood(r, op.size, op.page); }
  }

  lemma OneMore(live: map<int, int>, a: int, size: int)
    requires a !in live
    ensures |live[a := size]| == |live| + 1
  {
    assert live[a := size].Keys == live.Keys + {a};
    assert |live[a := size]| == |live[a := size].Keys| && |live| == |live.Keys|;
  }

  lemma OneLess(live: map<int, int>, a: int)
    requires a in live
    ensures |live - {a}| == |live| - 1
  {
    assert (live - {a}).Keys == live.Keys - {a};
    assert |live - {a}| == |(live - {a}).Keys| && |live| == |live.Keys|;
  }

  lemma LiveSize(live: map<int, int>, op: Op, live': map<int, int>)
    requires LiveMoves(live, op, live')
    ensures |live'| == |live| + (if op.DoMalloc? then 1 else 0) - (if op.DoFree? then 1 else 0)
  {
    match op {
      case DoMalloc(size, _) =>
        var a :| a !in live && live' == live[a := size];
        OneMore(live, a, size);
      case DoFree(block) => OneLess(live, block);
      case DoRealloc(block, size, _) =>
        var a :| a !in live && live' == live[a := size] - {block};
        OneMore(live, a, size);
        OneLess(live[a := size], block);
      case DoMerge =>
      case DoInit(_, _) =>
    }
  }

  /** Merging kept the area's bounds and used regions and left no two free regions side by side. */
  ghost predicate MergedArea(x: Area, y: Area) {
    y.lo == x.lo && y.hi == x.hi && UsedOnly(y.regions) == UsedOnly(x.regions) && NoTwoFree(y.regions)
  }

  /** What init and merge do to the areas: the one adds what it was given, in front, if it has room for a region. */
  lemma StepAreas(r: Run, op: Op)
    requires Good(r) && Enabled(r, op)
    ensures op.DoInit? && op.length > 16 ==>
      && var x, y := r.heap.areas, Step(r, op).heap.areas;
         |y| == |x| + 1 && y[1..] == x && y[0].lo == op.start + HEADER && y[0].hi == op.start + op.length
    ensures op.DoInit? && op.length <= 16 ==> Step(r, op).heap == r.heap
    ensures op.DoMerge? ==>
      && var x, y := r.heap.areas, Step(r, op).heap.areas;
         |y| == |x| && (forall i :: 0 <= i < |x| ==> MergedArea(x[i], y[i]))
  {
    MergeOk(r.heap);
    forall i | 0 <= i < |r.heap.areas| ensures MergedArea(r.heap.areas[i], Merge(r.heap).areas[i]) {
      assert AreaMerged(r.heap.areas[i], Merge(r.heap).areas[i]);
    }
  }

  /**
   In every run each malloc adds one block, not held before, of the size asked for; realloc exchanges one; free takes
   one away; and nothing else changes what callers hold. So as many are held as were allocated and not freed.
   */
  lemma {:induction false} EveryRunLive(rs: seq<Run>, ops: seq<Op>, i: nat)
    requires IsRun(rs, ops) && i < |rs|
    ensures |rs[i].live| == Mallocs(ops[..i]) - Frees(ops[..i])
    ensures i < |ops| ==> LiveMoves(rs[i].live, ops[i], rs[i + 1].live)
  {
    EveryRunGood(rs, ops, i);
    if i < |ops| {
      assert Next(rs[i], ops[i], rs[i + 1]);
      StepLive(rs[i], ops[i]);
    }
    if i > 0 {
      EveryRunLive(rs, ops, i - 1);
      LiveSize(rs[i - 1].live, ops[i - 1], rs[i].live);
      assert ops[..i][..i - 1] == ops[..i - 1] && ops[..i][i - 1] == ops[i - 1];
    }
  }
}
