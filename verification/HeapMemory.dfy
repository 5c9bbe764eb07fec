/**
 The heap's in-band representation: header words, list links and area links stored inside the
 memory being managed. A store removes every cell it overlaps, so a stray write to a header would
 make the header unreadable and break the representation.
 */
module HeapMemory {
  import opened Common
  import opened Logs
  import opened Heap

  /** A 32-bit word occupying four addresses, or one byte of a caller's data. */
  datatype Cell = Word(w: int) | Byte(b: int) {
    function Width(): int { if Word? then 4 else 1 }
  }

  type Memory = map<int, Cell>

  function Put(m: Memory, a: int, c: Cell): Memory {
    (map x | x in m && (x + m[x].Width() <= a || a + c.Width() <= x) :: m[x])[a := c]
  }

  ghost predicate HasWord(m: Memory, a: int) {
    a in m && m[a].Word?
  }

  // ---------------------------------------------------------------- what a store keeps

  ghost predicate SameWord(m: Memory, m': Memory, a: int) {
    HasWord(m, a) ==> HasWord(m', a) && m'[a] == m[a]
  }

  ghost predicate SameByte(m: Memory, m': Memory, y: int) {
    y in m && m[y].Byte? ==> y in m' && m'[y] == m[y]
  }

  /** Between `m` and `m'` only the `n` addresses from `x` on were written. */
  ghost predicate OnlyAt(m: Memory, m': Memory, x: int, n: int) {
    && (forall a {:trigger SameWord(m, m', a)} :: a + 4 <= x || x + n <= a ==> SameWord(m, m', a))
    && (forall y {:trigger SameByte(m, m', y)} :: y < x || x + n <= y ==> SameByte(m, m', y))
  }

  ghost predicate WordStored(m: Memory, m': Memory, x: int, v: int) {
    HasWord(m', x) && m'[x].w == v && OnlyAt(m, m', x, 4)
  }

  /** Both header words at `x` were written. */
  ghost predicate HeaderStored(m: Memory, m': Memory, x: int, tag: int, link: int) {
    && HasWord(m', x) && m'[x].w == tag
    && HasWord(m', x + 4) && m'[x + 4].w == link
    && OnlyAt(m, m', x, HEADER)
  }

  lemma PutStoresWord(m: Memory, x: int, v: int)
    ensures WordStored(m, Put(m, x, Word(v)), x, v)
  {
  }

  lemma PutStoresByte(m: Memory, x: int, v: int)
    ensures OnlyAt(m, Put(m, x, Byte(v)), x, 1)
  {
  }

  lemma OnlyAtChain(m: Memory, m': Memory, m'': Memory, x: int, n: int, x': int, n': int, z: int, k: int)
    requires OnlyAt(m, m', x, n) && OnlyAt(m', m'', x', n')
    requires z <= x && x + n <= z + k && z <= x' && x' + n' <= z + k
    ensures OnlyAt(m, m'', z, k)
  {
    forall a | a + 4 <= z || z + k <= a ensures SameWord(m, m'', a) {
      assert SameWord(m, m', a) && SameWord(m', m'', a);
    }
    forall y | y < z || z + k <= y ensures SameByte(m, m'', y) {
      assert SameByte(m, m', y) && SameByte(m', m'', y);
    }
  }

  lemma TwoWordsStored(m: Memory, m': Memory, m'': Memory, x: int, tag: int, link: int)
    requires WordStored(m, m', x, tag) && WordStored(m', m'', x + 4, link)
    ensures HeaderStored(m, m'', x, tag, link)
  {
    assert SameWord(m', m'', x);
    OnlyAtChain(m, m', m'', x, 4, x + 4, 4, x, HEADER);
  }

  // ---------------------------------------------------------------- the representation

  /** The size word of a region, with the used flag in its top bit. */
  function Tag(r: Region): int {
    if r.used then r.size + TWO31 else r.size
  }

  ghost predicate Header(m: Memory, r: Region) {
    HasWord(m, r.addr) && m[r.addr].w == Tag(r) && HasWord(m, r.addr + 4)
  }

  ghost predicate Headers(m: Memory, t: Table) {
    forall a :: a in t ==> Header(m, t[a])
  }

  /** A free list: `head`, then each second header word, down to zero. */
  ghost predicate Chain(m: Memory, head: int, s: seq<int>)
    decreases |s|
  {
    if s == [] then head == 0
    else head == s[0] != 0 && HasWord(m, head + 4) && Chain(m, m[head + 4].w, s[1..])
  }

  ghost predicate Chains(m: Memory, heads: seq<int>, lists: seq<seq<int>>) {
    && |heads| == |lists| == BUCKETS
    && forall k :: 0 <= k < BUCKETS ==> Chain(m, heads[k], lists[k])
  }

  /** The list of areas: a link word and an end word just below each area. */
  ghost predicate AreaChain(m: Memory, first: int, areas: seq<Area>)
    decreases |areas|
  {
    if areas == [] then first == 0
    else
      && first == areas[0].lo - HEADER > 0
      && HasWord(m, first) && HasWord(m, first + 4) && m[first + 4].w == areas[0].hi
      && AreaChain(m, m[first].w, areas[1..])
  }

  ghost predicate Represents(m: Memory, heads: seq<int>, first: int, s: State) {
    && Headers(m, TableOf(s.areas))
    && Chains(m, heads, s.lists)
    && AreaChain(m, first, s.areas)
  }

  // ---------------------------------------------------------------- frames

  ghost predicate SamePair(m: Memory, m': Memory, a: int) {
    SameWord(m, m', a) && SameWord(m, m', a + 4)
  }

  lemma OutsidePair(m: Memory, m': Memory, x: int, n: int, a: int)
    requires OnlyAt(m, m', x, n) && (a + HEADER <= x || x + n <= a)
    ensures SamePair(m, m', a)
  {
  }

  lemma {:induction false} ChainFrame(m: Memory, m': Memory, head: int, s: seq<int>)
    requires Chain(m, head, s)
    requires forall b :: b in s ==> SamePair(m, m', b)
    ensures Chain(m', head, s)
    decreases |s|
  {
    if s != [] {
      assert s[0] in s;
      assert SamePair(m, m', s[0]);
      forall b | b in s[1..] ensures SamePair(m, m', b) { assert b in s; }
      ChainFrame(m, m', m[head + 4].w, s[1..]);
    }
  }

  lemma ChainsFrame(m: Memory, m': Memory, heads: seq<int>, lists: seq<seq<int>>)
    requires Chains(m, heads, lists)
    requires forall k, b :: 0 <= k < BUCKETS && b in lists[k] ==> SamePair(m, m', b)
    ensures Chains(m', heads, lists)
  {
    forall k | 0 <= k < BUCKETS ensures Chain(m', heads[k], lists[k]) {
      ChainFrame(m, m', heads[k], lists[k]);
    }
  }

  lemma {:induction false} AreaChainFrame(m: Memory, m': Memory, first: int, areas: seq<Area>)
    requires AreaChain(m, first, areas)
    requires forall i :: 0 <= i < |areas| ==> SamePair(m, m', areas[i].lo - HEADER)
    ensures AreaChain(m', first, areas)
    decreases |areas|
  {
    if areas != [] {
      assert SamePair(m, m', areas[0].lo - HEADER);
      assert forall i :: 0 <= i < |areas[1..]| ==> areas[1..][i] == areas[i + 1];
      AreaChainFrame(m, m', m[first].w, areas[1..]);
    }
  }

  ghost predicate SameShape(xs: seq<Area>, ys: seq<Area>) {
    |xs| == |ys| && forall i :: 0 <= i < |xs| ==> xs[i].lo == ys[i].lo && xs[i].hi == ys[i].hi
  }

  /** The area links depend only on where the areas lie. */
  lemma {:induction false} AreaChainShape(m: Memory, first: int, xs: seq<Area>, ys: seq<Area>)
    requires AreaChain(m, first, xs) && SameShape(xs, ys)
    ensures AreaChain(m, first, ys)
    decreases |xs|
  {
    if xs != [] {
      AreaChainShape(m, m[first].w, xs[1..], ys[1..]);
    }
  }

  /** Pushing `a` on list `k`: its link word takes the old head. */
  lemma PushChains(m: Memory, m': Memory, heads: seq<int>, lists: seq<seq<int>>, k: nat, a: int)
    requires Chains(m, heads, lists) && k < BUCKETS && a > 0 && WordStored(m, m', a + 4, heads[k])
    requires forall j, b :: 0 <= j < BUCKETS && b in lists[j] ==> b + HEADER <= a || a + HEADER <= b
    ensures Chains(m', heads[k := a], Push(lists, k, a))
  {
    forall j, b | 0 <= j < BUCKETS && b in lists[j] ensures SamePair(m, m', b) {
      OutsidePair(m, m', a + 4, 4, b);
    }
    ChainsFrame(m, m', heads, lists);
    assert Chain(m', heads[k], lists[k]);
    assert ([a] + lists[k])[1..] == lists[k];
  }

  lemma PopChains(m: Memory, heads: seq<int>, lists: seq<seq<int>>, i: nat)
    requires Chains(m, heads, lists) && i < BUCKETS && lists[i] != []
    ensures heads[i] == lists[i][0] && HasWord(m, heads[i] + 4)
    ensures Chains(m, heads[i := m[heads[i] + 4].w], lists[i := lists[i][1..]])
  {
    assert Chain(m, heads[i], lists[i]);
  }

  /** `[h, h + 8)` inside region `a` keeps clear of every other region's header ... */
  lemma InsideApart(t: Table, a: int, h: int, b: int)
    requires Separate(t) && Within(t, 9, TWO32) && a in t && b in t && b != a
    requires a <= h && h + HEADER <= t[a].End()
    ensures b + HEADER <= h || h + HEADER <= b
  {
    assert Clear(t, a, b);
  }

  /** ... so a write there leaves the other headers, ... */
  lemma SparesHeader(m: Memory, m': Memory, t: Table, a: int, h: int, b: int)
    requires Separate(t) && Within(t, 9, TWO32) && a in t && a <= h && h + HEADER <= t[a].End()
    requires b in t && b != a && OnlyAt(m, m', h, HEADER)
    ensures SamePair(m, m', b)
    ensures Header(m, t[b]) ==> Header(m', t[b])
  {
    InsideApart(t, a, h, b);
    OutsidePair(m, m', h, HEADER, b);
  }

  /** ... the links between areas, ... */
  lemma {:induction false} SparesAreas(m: Memory, m': Memory, first: int, areas: seq<Area>, a: int, h: int)
    requires TableOk(areas) && a in TableOf(areas) && AreaChain(m, first, areas)
    requires a <= h && h + HEADER <= TableOf(areas)[a].End() && OnlyAt(m, m', h, HEADER)
    ensures AreaChain(m', first, areas)
  {
    forall i | 0 <= i < |areas| ensures SamePair(m, m', areas[i].lo - HEADER) {
      assert ClearOf(TableOf(areas), areas[i].lo);
      OutsidePair(m, m', h, HEADER, areas[i].lo - HEADER);
    }
    AreaChainFrame(m, m', first, areas);
  }

  /** ... and the free lists, as long as `a` itself is on none of them. */
  lemma SparesLists(m: Memory, m': Memory, heads: seq<int>, lists: seq<seq<int>>, t: Table, a: int, h: int)
    requires Separate(t) && Within(t, 9, TWO32) && a in t && a <= h && h + HEADER <= t[a].End()
    requires Chains(m, heads, lists) && ListsOk(t - {a}, lists) && OnlyAt(m, m', h, HEADER)
    ensures Chains(m', heads, lists)
  {
    forall k, b | 0 <= k < BUCKETS && b in lists[k] ensures SamePair(m, m', b) {
      assert Filed(t - {a}, lists[k], k);
      SparesHeader(m, m', t, a, h, b);
    }
    ChainsFrame(m, m', heads, lists);
  }

  // ---------------------------------------------------------------- callers' bytes

  /** Address `y` is in the payload of a used region. */
  ghost predicate InUse(t: Table, y: int) {
    exists a :: a in t && t[a].used && a + HEADER <= y < t[a].End()
  }

  ghost predicate SameBytes(m: Memory, m': Memory, t: Table) {
    forall y {:trigger SameByte(m, m', y)} :: InUse(t, y) ==> SameByte(m, m', y)
  }

  lemma InUseElsewhere(t: Table, a: int, y: int)
    requires Separate(t) && Within(t, 9, TWO32) && a in t && InUse(t, y)
    ensures y < a || t[a].End() <= y || (t[a].used && a + HEADER <= y)
  {
    var c :| c in t && t[c].used && c + HEADER <= y < t[c].End();
    if c != a {
      assert Clear(t, a, c);
    }
  }

  /** A header write inside a free region, or over a used region's own header, touches no caller's byte. */
  lemma SparesBytes(m: Memory, m': Memory, t: Table, a: int, h: int)
    requires Separate(t) && Within(t, 9, TWO32) && a in t && a <= h && h + HEADER <= t[a].End()
    requires (t[a].used ==> h == a) && OnlyAt(m, m', h, HEADER)
    ensures SameBytes(m, m', t)
  {
    forall y | InUse(t, y) ensures SameByte(m, m', y) {
      InUseElsewhere(t, a, y);
    }
  }

  lemma SameBytesChain(m: Memory, m': Memory, m'': Memory, t: Table, t': Table)
    requires SameBytes(m, m', t) && SameBytes(m', m'', t')
    requires forall a :: a in t && t[a].used ==> a in t' && t'[a] == t[a]
    ensures SameBytes(m, m'', t)
  {
    forall y | InUse(t, y) ensures SameByte(m, m'', y) {
      assert InUse(t', y);
      assert SameByte(m, m', y) && SameByte(m', m'', y);
    }
  }

  // ---------------------------------------------------------------- carving a block, in memory

  /** All of `s` is in memory but for the header of the used region `a`. */
  ghost predicate AllBut(m: Memory, heads: seq<int>, first: int, s: State, a: int) {
    && (forall c :: c in TableOf(s.areas) && c != a ==> Header(m, TableOf(s.areas)[c]))
    && Chains(m, heads, s.lists) && AreaChain(m, first, s.areas)
  }

  /** Storing that header completes the representation. */
  lemma FinishBlock(m: Memory, m': Memory, heads: seq<int>, first: int, s: State, a: int)
    requires Valid(s) && a in TableOf(s.areas) && TableOf(s.areas)[a].used && AllBut(m, heads, first, s, a)
    requires HeaderStored(m, m', a, Tag(TableOf(s.areas)[a]), 0)
    ensures Represents(m', heads, first, s) && SameBytes(m, m', TableOf(s.areas))
  {
    AreasTable(s.areas);
    var t := TableOf(s.areas);
    DropUsedOk(t, s.lists, a);
    forall c | c in t && c != a ensures Header(m', t[c]) {
      SparesHeader(m, m', t, a, a, c);
    }
    SparesLists(m, m', heads, s.lists, t, a, a);
    SparesAreas(m, m', first, s.areas, a, a);
    SparesBytes(m, m', t, a, a);
  }

  /** Filing the free remainder `b` of region `a`: the list links. */
  lemma RestChains(m: Memory, m1: Memory, m2: Memory, heads: seq<int>, lists: seq<seq<int>>, t: Table, a: int, b: int,
      k: nat, left: int)
    requires Chains(m, heads, lists) && ListsOk(t - {a}, lists) && k < BUCKETS
    requires Separate(t) && Within(t, 9, TWO32) && a in t && a <= b && b + HEADER <= t[a].End()
    requires WordStored(m, m1, b, left) && WordStored(m1, m2, b + 4, heads[k])
    ensures Chains(m2, heads[k := b], Push(lists, k, b))
  {
    forall j, c | 0 <= j < BUCKETS && c in lists[j] ensures c + HEADER <= b || b + HEADER <= c {
      assert Filed(t - {a}, lists[j], j);
      InsideApart(t, a, b, c);
    }
    forall j, c | 0 <= j < BUCKETS && c in lists[j] ensures SamePair(m, m1, c) {
      OutsidePair(m, m1, b, 4, c);
    }
    ChainsFrame(m, m1, heads, lists);
    PushChains(m1, m2, heads, lists, k, b);
  }

  /** `t'` is `t` with the block `a` cut to `size` bytes and used, and its remainder a free region of its own. */
  ghost predicate SplitTable(t: Table, t': Table, a: int, size: int, left: int) {
    && 1 <= left && 1 <= size && a in t && size + HEADER + left == t[a].size
    && a in t' && t'[a] == Region(a, size, true)
    && a + HEADER + size in t' && t'[a + HEADER + size] == Region(a + HEADER + size, left, false)
    && (forall c :: c in t' && c != a && c != a + HEADER + size ==> c in t && t'[c] == t[c])
  }

  lemma ReplaceTwo(t: Table, a: int, size: int, left: int)
    requires 1 <= left && 1 <= size && a in t && size + HEADER + left == t[a].size
    ensures var b := a + HEADER + size;
            SplitTable(t, t - {a} + map[a := Region(a, size, true), b := Region(b, left, false)], a, size, left)
  {
  }

  /** `s'` is `s` with the block `a` cut, and its remainder filed. */
  ghost predicate IsSplit(s: State, s': State, lists: seq<seq<int>>, a: int, size: int, left: int) {
    && SplitTable(TableOf(s.areas), TableOf(s'.areas), a, size, left) && Log(left) < |lists|
    && s'.lists == Push(lists, Log(left), a + HEADER + size)
    && SameShape(s.areas, s'.areas)
  }

  lemma SplitHeaders(m: Memory, m': Memory, t: Table, t': Table, a: int, size: int, left: int, link: int)
    requires Separate(t) && Within(t, 9, TWO32) && Headers(m, t) && SplitTable(t, t', a, size, left)
    requires t[a].addr == a && HeaderStored(m, m', a + HEADER + size, left, link)
    ensures forall c :: c in t' && c != a ==> Header(m', t'[c])
  {
    forall c | c in t' && c != a ensures Header(m', t'[c]) {
      if c != a + HEADER + size { SparesHeader(m, m', t, a, a + HEADER + size, c); }
    }
  }

  /** After the remainder is filed, only the block's own header is missing from memory. */
  lemma {:induction false} SplitAllBut(m: Memory, m1: Memory, m2: Memory, heads: seq<int>, lists: seq<seq<int>>,
      first: int, s: State, s': State, a: int, size: int, left: int)
    requires TableOk(s.areas) && Headers(m, TableOf(s.areas)) && AreaChain(m, first, s.areas)
    requires IsSplit(s, s', lists, a, size, left)
    requires Chains(m, heads, lists) && ListsOk(TableOf(s.areas) - {a}, lists)
    requires WordStored(m, m1, a + HEADER + size, left) && WordStored(m1, m2, a + HEADER + size + 4, heads[Log(left)])
    ensures AllBut(m2, heads[Log(left) := a + HEADER + size], first, s', a)
  {
    var t, b, link := TableOf(s.areas), a + HEADER + size, heads[Log(left)];
    TwoWordsStored(m, m1, m2, b, left, link);
    RestChains(m, m1, m2, heads, lists, t, a, b, Log(left), left);
    SplitAreas(m, m2, first, s.areas, s'.areas, a, b, left, link);
    SplitHeaders(m, m2, t, TableOf(s'.areas), a, size, left, link);
  }

  lemma {:induction false} SplitAreas(m: Memory, m': Memory, first: int, areas: seq<Area>, areas': seq<Area>, a: int,
      b: int, left: int, link: int)
    requires TableOk(areas) && a in TableOf(areas) && AreaChain(m, first, areas) && SameShape(areas, areas')
    requires a <= b && b + HEADER <= TableOf(areas)[a].End() && HeaderStored(m, m', b, left, link)
    ensures AreaChain(m', first, areas')
  {
    SparesAreas(m, m', first, areas, a, b);
    AreaChainShape(m', first, areas, areas');
  }

  /** List `i` is the one mallocOneTry picks for `size`. */
  ghost predicate Picks(s: State, size: int, i: nat) {
    && Valid(s) && 1 <= size < TWO31 && i < BUCKETS
    && 0 <= NextHighestPowerOfTwo(size) <= BUCKETS
    && FirstNonEmpty(s.lists, NextHighestPowerOfTwo(size)) == Some(i)
  }

  lemma PickedRegion(s: State, size: int, i: nat)
    requires Picks(s, size, i)
    ensures s.lists[i] != [] && s.lists[i][0] in TableOf(s.areas)
    ensures var r := TableOf(s.areas)[s.lists[i][0]];
            r.addr == s.lists[i][0] && !r.used && size <= r.size < TWO31 && r.addr >= 9
  {
    AreasTable(s.areas);
    PopOk(TableOf(s.areas), s.lists, i);
    HighestIsCeiling(size, i);
  }

  lemma {:induction false} CarvedTable(areas: seq<Area>, a: int, size: int, left: int)
    requires AreasOk(areas) && a in TableOf(areas) && 1 <= size && 1 <= left
    requires TableOf(areas)[a].addr == a && size + HEADER + left == TableOf(areas)[a].size
    ensures var b := a + HEADER + size; var news := Carve(TableOf(areas)[a], size);
            && |news| == 2 && news[1] == Region(b, left, false)
            && SplitTable(TableOf(areas), TableOf(SubstAreas(areas, a, news)), a, size, left)
            && SameShape(areas, SubstAreas(areas, a, news))
  {
    CarveTiles(TableOf(areas)[a], size);
    SubstAreasTable(areas, a, Carve(TableOf(areas)[a], size));
    ReplaceTwo(TableOf(areas), a, size, left);
  }

  /** The state after a split, spelled out on its table and lists. */
  lemma SplitState(s: State, size: int, i: nat, left: int)
    requires Picks(s, size, i) && s.lists[i] != [] && s.lists[i][0] in TableOf(s.areas)
    requires size + HEADER + left == TableOf(s.areas)[s.lists[i][0]].size && 1 <= left < TWO31
    ensures OneTry(s, size).1 == Some(s.lists[i][0])
    ensures IsSplit(s, OneTry(s, size).0, s.lists[i := s.lists[i][1..]], s.lists[i][0], size, left)
  {
    PickedRegion(s, size, i);
    Bounded(left);
    CarvedTable(s.areas, s.lists[i][0], size, left);
  }

  /** The state after a block is taken whole: only its own header differs. */
  lemma WholeState(m: Memory, heads: seq<int>, first: int, s: State, size: int, i: nat)
    requires Picks(s, size, i) && Represents(m, heads, first, s)
    requires s.lists[i] != [] && s.lists[i][0] in TableOf(s.areas)
    requires TableOf(s.areas)[s.lists[i][0]].size <= size + HEADER
    ensures heads[i] == s.lists[i][0] && HasWord(m, heads[i] + 4)
    ensures OneTry(s, size).1 == Some(heads[i])
    ensures heads[i] in TableOf(OneTry(s, size).0.areas)
    ensures TableOf(OneTry(s, size).0.areas)[heads[i]] == Region(heads[i], TableOf(s.areas)[heads[i]].size, true)
    ensures AllBut(m, heads[i := m[heads[i] + 4].w], first, OneTry(s, size).0, heads[i])
  {
    var t, a := TableOf(s.areas), s.lists[i][0];
    PickedRegion(s, size, i);
    PopChains(m, heads, s.lists, i);
    CarveTiles(t[a], size);
    SubstAreasTable(s.areas, a, Carve(t[a], size));
    AreaChainShape(m, first, s.areas, OneTry(s, size).0.areas);
  }
}
