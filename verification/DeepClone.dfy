/** deep_clone and freePageDirectory: how fork gives a child its own copy of user memory, and gives it back. */
module DeepClone {
  import opened Common
  import opened PageEntry
  import opened Paging
  import opened MmuModel
  import Physical

  // ---------------------------------------------------------------- what fork needs of a directory

  ghost predicate Pages(p: Phys, used: set<int>, t: int)
    requires Shaped(p)
  {
    && t in p && t in used
    && forall k :: 0 <= k < SLOTS && p[t][k].present ==> p[t][k].frame in p && p[t][k].frame in used
  }

  /** The kernel's tables are all there and are no one's user memory. */
  ghost predicate Kernel(p: Phys, used: set<int>, d: int)
    requires Shaped(p) && d in p
  {
    && (forall i :: KERNEL <= i < SELF ==>
          p[d][i].present && p[d][i].frame in p && p[d][i].frame in used && p[d][i].frame != d)
    && (forall i, j :: KERNEL <= i < SELF && 1 <= j < KERNEL && p[d][j].present ==> !UserFrame(p, d, j, p[d][i].frame))
  }

  /** `f` is the table of user slot `j` or one of its pages. */
  ghost predicate UserFrame(p: Phys, d: int, j: int, f: int)
    requires Shaped(p) && d in p && 0 <= j < SLOTS
  {
    f == p[d][j].frame ||
    (p[d][j].frame in p && exists k :: 0 <= k < SLOTS && p[p[d][j].frame][k].present && p[p[d][j].frame][k].frame == f)
  }

  ghost predicate Cloneable(p: Phys, used: set<int>, d: int)
    requires Shaped(p)
  {
    && SelfMapped(p, d) && d in used && DirectoryOk(p, used, d) && Kernel(p, used, d)
    && (forall i :: 1 <= i < KERNEL && p[d][i].present ==> Pages(p, used, p[d][i].frame))
  }

  // ---------------------------------------------------------------- what deep_clone makes

  /** Memory once a page for the new directory is mapped, the frames in use before, and the two directories. */
  datatype Fork = Fork(p: Phys, used: set<int>, parent: int, child: int)

  ghost predicate ForkOk(c: Fork) {
    && Shaped(c.p) && Cloneable(c.p, c.used, c.parent)
    && c.child !in c.used && c.child in c.p
  }

  /** An entry and its copy: same flags but for RW, and a frame of its own with the same contents. */
  ghost predicate PageCloned(c: Fork, p: Phys, e: Entry, e': Entry) {
    if e.present then
      && e' == e.(frame := e'.frame, rw := true)
      && e'.frame !in c.used && e'.frame != c.child && e'.frame in p
      && e.frame in c.p && p[e'.frame] == c.p[e.frame]
    else e' == e
  }

  ghost predicate TableCloned(c: Fork, p: Phys, t: int, t': int, n: int)
    requires Shaped(c.p) && Shaped(p) && 0 <= n <= SLOTS
  {
    && t in c.p && t' in p && t' !in c.used && t' != c.child
    && forall k :: 0 <= k < n ==> PageCloned(c, p, c.p[t][k], p[t'][k])
  }

  ghost predicate SlotCloned(c: Fork, p: Phys, i: int)
    requires ForkOk(c) && Shaped(p) && c.child in p && 0 <= i < SLOTS
  {
    var e, e' := c.p[c.parent][i], p[c.child][i];
    if e.present then
      e' == e.(frame := e'.frame, owned := true) && TableCloned(c, p, e.frame, e'.frame, SLOTS)
    else !e'.present
  }

  /** The frames that a slot of a directory holds when the slot is its own: the table and what the table maps. */
  ghost function SlotFrames(p: Phys, d: int, i: int): set<int>
    requires Shaped(p) && d in p && 0 <= i < SLOTS
  {
    if p[d][i].present && p[d][i].owned && p[d][i].frame in p then TableFrames(p, p[d][i].frame, SLOTS) else {}
  }

  ghost function TableFrames(p: Phys, t: int, n: int): set<int>
    requires Shaped(p) && t in p && 0 <= n <= SLOTS
  {
    {t} + set k | 0 <= k < n && p[t][k].present :: p[t][k].frame
  }

  /** ... over user slots 1 up to `n`. */
  ghost function DirectoryFrames(p: Phys, d: int, n: int): set<int>
    requires Shaped(p) && d in p && 1 <= n <= SLOTS
  {
    if n == 1 then {} else DirectoryFrames(p, d, n - 1) + SlotFrames(p, d, n - 1)
  }

  /** No frame that was in use has changed. */
  ghost predicate Frozen(c: Fork, p: Phys) {
    forall f :: f in c.used && f in c.p ==> f in p && p[f] == c.p[f]
  }

  /** The child's directory with user slots from `i` on still the parent's, without ownership. */
  ghost predicate ChildDirectory(c: Fork, p: Phys, i: int)
    requires ForkOk(c) && Shaped(p) && 1 <= i
  {
    && c.child in p && SelfMapped(p, c.child)
    && (forall j :: KERNEL <= j < SELF ==> p[c.child][j] == c.p[c.parent][j])
    && (forall j :: i <= j < KERNEL ==> p[c.child][j] == c.p[c.parent][j].(owned := false))
    && p[c.child][0] == c.p[c.parent][0].(owned := false)
  }

  /** Slots 1 up to `i` are cloned. */
  ghost predicate Cloned(c: Fork, p: Phys, used: set<int>, i: int)
    requires ForkOk(c) && Shaped(p) && 1 <= i <= KERNEL
  {
    && p.Keys == c.p.Keys && Frozen(c, p) && ChildDirectory(c, p, i)
    && (forall j :: 1 <= j < i ==> SlotCloned(c, p, j) && SlotApart(p, c.child, j))
    && used == c.used + {c.child} + DirectoryFrames(p, c.child, i)
    && DirectoryFrames(p, c.child, i) !! c.used
  }

  // ---------------------------------------------------------------- frames

  ghost predicate SameFrame(p: Phys, p': Phys, f: int) {
    f in p ==> f in p' && p'[f] == p[f]
  }

  lemma {:induction false} DirectoryFramesKept(p: Phys, p': Phys, d: int, n: int)
    requires Shaped(p) && Shaped(p') && d in p && d in p' && 1 <= n <= SLOTS && p.Keys == p'.Keys
    requires forall j :: 1 <= j < n ==> p'[d][j] == p[d][j]
    requires forall f :: f in DirectoryFrames(p, d, n) ==> SameFrame(p, p', f)
    ensures DirectoryFrames(p', d, n) == DirectoryFrames(p, d, n)
  {
    if n > 1 {
      DirectoryFramesKept(p, p', d, n - 1);
      var e := p[d][n - 1];
      assert p'[d][n - 1] == e;
      if e.present && e.owned && e.frame in p {
        assert e.frame in TableFrames(p, e.frame, SLOTS);
        assert SameFrame(p, p', e.frame);
      }
    }
  }

  /** A cloned slot's table and pages are among the directory's frames. */
  lemma {:induction false} SlotInDirectory(p: Phys, d: int, n: int, j: int)
    requires Shaped(p) && d in p && 1 <= j < n <= SLOTS
    ensures SlotFrames(p, d, j) <= DirectoryFrames(p, d, n)
  {
    if j < n - 1 {
      SlotInDirectory(p, d, n - 1, j);
    }
  }

  /** Each entry of a table has a frame to itself, other than the table. */
  ghost predicate OnceEach(p: Phys, t: int, n: int)
    requires Shaped(p) && t in p && 0 <= n <= SLOTS
  {
    && (forall k :: 0 <= k < n && p[t][k].present ==> p[t][k].frame != t)
    && (forall k, l :: 0 <= k < l < n && p[t][k].present && p[t][l].present ==> p[t][k].frame != p[t][l].frame)
  }

  /** A slot's frames are all different and none is an earlier slot's. */
  ghost predicate SlotApart(p: Phys, d: int, j: int)
    requires Shaped(p) && d in p && 1 <= j < SLOTS
  {
    && SlotFrames(p, d, j) !! DirectoryFrames(p, d, j)
    && (p[d][j].present && p[d][j].owned && p[d][j].frame in p ==> OnceEach(p, p[d][j].frame, SLOTS))
  }

  lemma {:induction false} SlotApartKept(p: Phys, p': Phys, d: int, n: int, j: int)
    requires Shaped(p) && Shaped(p') && d in p && d in p' && 1 <= j < n <= SLOTS && p.Keys == p'.Keys
    requires forall i :: 1 <= i < n ==> p'[d][i] == p[d][i]
    requires forall f :: f in DirectoryFrames(p, d, n) ==> SameFrame(p, p', f)
    requires SlotApart(p, d, j)
    ensures SlotApart(p', d, j)
  {
    SlotInDirectory(p, d, n, j);
    EarlierSlots(p, d, n, j);
    DirectoryFramesKept(p, p', d, j);
    var e := p[d][j];
    if e.present && e.owned && e.frame in p {
      assert e.frame in SlotFrames(p, d, j);
      assert SameFrame(p, p', e.frame);
    }
  }

  lemma {:induction false} EarlierSlots(p: Phys, d: int, n: int, j: int)
    requires Shaped(p) && d in p && 1 <= j <= n <= SLOTS
    ensures DirectoryFrames(p, d, j) <= DirectoryFrames(p, d, n)
  {
    if j < n { EarlierSlots(p, d, n - 1, j); }
  }

  lemma SlotClonedKept(c: Fork, p: Phys, p': Phys, j: int)
    requires ForkOk(c) && Shaped(p) && Shaped(p') && c.child in p && c.child in p' && 0 <= j < SLOTS
    requires SlotCloned(c, p, j) && p'[c.child][j] == p[c.child][j]
    requires forall f :: f in SlotFrames(p, c.child, j) ==> SameFrame(p, p', f)
    ensures SlotCloned(c, p', j)
  {
    var e, e' := c.p[c.parent][j], p[c.child][j];
    if e.present {
      var t, t' := e.frame, e'.frame;
      assert t' in SlotFrames(p, c.child, j);
      assert SameFrame(p, p', t');
      forall k | 0 <= k < SLOTS ensures PageCloned(c, p', c.p[t][k], p'[t'][k]) {
        assert PageCloned(c, p, c.p[t][k], p[t'][k]);
        if c.p[t][k].present {
          assert p[t'][k].frame in SlotFrames(p, c.child, j);
          assert SameFrame(p, p', p[t'][k].frame);
        }
      }
    }
  }

  /** Slots below `n` done: what a later step must leave alone. */
  ghost predicate Done(c: Fork, p: Phys, n: int)
    requires ForkOk(c) && Shaped(p) && c.child in p && 1 <= n <= KERNEL
  {
    && p.Keys == c.p.Keys && Frozen(c, p)
    && (forall j :: 1 <= j < n ==> SlotCloned(c, p, j) && SlotApart(p, c.child, j))
    && DirectoryFrames(p, c.child, n) !! c.used
  }

  /** A step that writes no frame in use before, except the child's directory above slot `n`, leaves it alone. */
  lemma {:induction false} DoneKept(c: Fork, p: Phys, p': Phys, n: int)
    requires ForkOk(c) && Shaped(p) && Shaped(p') && c.child in p && c.child in p' && 1 <= n <= KERNEL
    requires Done(c, p, n) && p'.Keys == p.Keys
    requires forall j :: 1 <= j < n ==> p'[c.child][j] == p[c.child][j]
    requires forall f :: f in c.used ==> SameFrame(p, p', f)
    requires forall f :: f in DirectoryFrames(p, c.child, n) ==> SameFrame(p, p', f)
    ensures Done(c, p', n) && DirectoryFrames(p', c.child, n) == DirectoryFrames(p, c.child, n)
  {
    DirectoryFramesKept(p, p', c.child, n);
    forall j | 1 <= j < n ensures SlotCloned(c, p', j) && SlotApart(p', c.child, j) {
      SlotInDirectory(p, c.child, n, j);
      SlotClonedKept(c, p, p', j);
      SlotApartKept(p, p', c.child, n, j);
    }
    forall f | f in c.used && f in c.p ensures f in p' && p'[f] == c.p[f] {
      assert SameFrame(p, p', f);
    }
  }

  // ---------------------------------------------------------------- one slot

  /** In slot `i`, whose new table is `t`, the first `n` pages are cloned and the rest are still the parent's. */
  ghost predicate SlotProgress(c: Fork, p: Phys, used: set<int>, i: int, t: int, n: int)
    requires ForkOk(c) && Shaped(p) && 1 <= i < KERNEL && 0 <= n <= SLOTS
  {
    var e := c.p[c.parent][i];
    && c.child in p && Done(c, p, i) && ChildDirectory(c, p, i + 1)
    && e.present && p[c.child][i] == e.(frame := t, owned := true)
    && TableCloned(c, p, e.frame, t, n)
    && (forall k :: n <= k < SLOTS ==> p[t][k] == c.p[e.frame][k])
    && OnceEach(p, t, n)
    && TableFrames(p, t, n) !! DirectoryFrames(p, c.child, i)
    && TableFrames(p, t, n) !! c.used
    && used == c.used + {c.child} + DirectoryFrames(p, c.child, i) + TableFrames(p, t, n)
  }

  lemma UserFrameFrozen(c: Fork, p: Phys, i: int, f: int)
    requires ForkOk(c) && Frozen(c, p) && 1 <= i < KERNEL && c.p[c.parent][i].present
    requires UserFrame(c.p, c.parent, i, f)
    ensures f in c.used && f in c.p && f in p && p[f] == c.p[f]
  {
    assert Pages(c.p, c.used, c.p[c.parent][i].frame);
  }

  lemma PageStep(c: Fork, p: Phys, p': Phys, used: set<int>, i: int, t: int, n: int, f: int, buffer: Page)
    requires ForkOk(c) && Shaped(p) && 1 <= i < KERNEL && 0 <= n < SLOTS && SlotProgress(c, p, used, i, t, n)
    requires var e := c.p[c.parent][i]; e.frame in c.p && t in p && p[t][n].present
    requires f !in used && f in p && |buffer| == SLOTS && p[t][n].frame in c.p && buffer == c.p[p[t][n].frame]
    requires p' == p[t := p[t][n := p[t][n].(frame := f, rw := true)]][f := buffer]
    ensures Shaped(p') && SlotProgress(c, p', used + {f}, i, t, n + 1)
  {
    var t0 := c.p[c.parent][i].frame;
    assert t in TableFrames(p, t, n);
    forall g | g in used && g != t ensures SameFrame(p, p', g) { }
    DoneKept(c, p, p', i);
    forall k | 0 <= k < n + 1 ensures PageCloned(c, p', c.p[t0][k], p'[t][k]) {
      if k < n {
        EarlierPage(c, p, p', used, i, t, n, f, k);
      }
    }
    PageFrames(p, p', t, n, f);
    PageOnce(p, p', t, n, f);
  }

  lemma PageOnce(p: Phys, p': Phys, t: int, n: int, f: int)
    requires Shaped(p) && Shaped(p') && t in p && t in p' && 0 <= n < SLOTS && OnceEach(p, t, n)
    requires p'[t] == p[t][n := p[t][n].(frame := f, rw := true)] && f !in TableFrames(p, t, n)
    ensures OnceEach(p', t, n + 1)
  {
    forall k | 0 <= k < n && p[t][k].present ensures p[t][k].frame != f {
      assert p[t][k].frame in TableFrames(p, t, n);
    }
  }

  lemma EarlierPage(c: Fork, p: Phys, p': Phys, used: set<int>, i: int, t: int, n: int, f: int, k: int)
    requires ForkOk(c) && Shaped(p) && Shaped(p') && 1 <= i < KERNEL && 0 <= k < n < SLOTS
    requires SlotProgress(c, p, used, i, t, n)
    requires t in p && t in p' && p'[t][k] == p[t][k] && f !in used
    requires forall g :: g in p && g != t && g != f ==> g in p' && p'[g] == p[g]
    ensures c.p[c.parent][i].frame in c.p && PageCloned(c, p', c.p[c.p[c.parent][i].frame][k], p'[t][k])
  {
    assert PageCloned(c, p, c.p[c.p[c.parent][i].frame][k], p[t][k]);
    if p[t][k].present {
      assert p[t][k].frame in TableFrames(p, t, n);
    }
  }

  lemma PageFrames(p: Phys, p': Phys, t: int, n: int, f: int)
    requires Shaped(p) && Shaped(p') && t in p && t in p' && 0 <= n < SLOTS
    requires p'[t] == p[t][n := p[t][n].(frame := f, rw := true)] && p[t][n].present
    ensures TableFrames(p', t, n + 1) == TableFrames(p, t, n) + {f}
  {
    forall g | g in TableFrames(p, t, n) + {f} ensures g in TableFrames(p', t, n + 1) {
      if g == f {
        assert p'[t][n].frame == f;
      } else if g != t {
        var k :| 0 <= k < n && p[t][k].present && p[t][k].frame == g;
        assert p'[t][k].frame == g;
      }
    }
    forall g | g in TableFrames(p', t, n + 1) ensures g in TableFrames(p, t, n) + {f} {
      if g != t {
        var k :| 0 <= k < n + 1 && p'[t][k].present && p'[t][k].frame == g;
        if k < n {
          assert p[t][k] == p'[t][k];
        }
      }
    }
  }

  lemma SkipStep(c: Fork, p: Phys, used: set<int>, i: int, t: int, n: int)
    requires ForkOk(c) && Shaped(p) && 1 <= i < KERNEL && 0 <= n < SLOTS && SlotProgress(c, p, used, i, t, n)
    requires t in p && !p[t][n].present
    ensures SlotProgress(c, p, used, i, t, n + 1)
  {
    assert TableFrames(p, t, n + 1) == TableFrames(p, t, n);
  }

  /** Installing a new table with the parent's entries, before any page is copied. */
  lemma StartSlot(c: Fork, p: Phys, p': Phys, used: set<int>, i: int, t: int)
    requires ForkOk(c) && Shaped(p) && 1 <= i < KERNEL && Cloned(c, p, used, i) && c.p[c.parent][i].present
    requires t !in used && t in p && c.p[c.parent][i].frame in p
    requires p' == p[c.child := p[c.child][i := p[c.child][i].(frame := t, owned := true, present := true)]]
                    [t := p[c.p[c.parent][i].frame]]
    ensures Shaped(p') && SlotProgress(c, p', used + {t}, i, t, 0)
  {
    var t0 := c.p[c.parent][i].frame;
    UserFrameFrozen(c, p, i, t0);
    forall g | g in used && g != c.child ensures SameFrame(p, p', g) { }
    ChildNotOwn(c, p, i);
    DoneKept(c, p, p', i);
    assert TableFrames(p', t, 0) == {t};
  }

  /** The child's own directory is not among the frames its slots hold. */
  lemma {:induction false} ChildNotOwn(c: Fork, p: Phys, n: int)
    requires ForkOk(c) && Shaped(p) && c.child in p && 1 <= n <= KERNEL
    requires forall j :: 1 <= j < n ==> SlotCloned(c, p, j)
    ensures c.child !in DirectoryFrames(p, c.child, n)
  {
    if n > 1 {
      ChildNotOwn(c, p, n - 1);
      assert SlotCloned(c, p, n - 1);
      var e := c.p[c.parent][n - 1];
      if e.present {
        var t, t' := e.frame, p[c.child][n - 1].frame;
        forall k | 0 <= k < SLOTS && p[t'][k].present ensures p[t'][k].frame != c.child {
          assert PageCloned(c, p, c.p[t][k], p[t'][k]);
        }
      }
    }
  }

  lemma EndSlot(c: Fork, p: Phys, used: set<int>, i: int, t: int)
    requires ForkOk(c) && Shaped(p) && 1 <= i < KERNEL && SlotProgress(c, p, used, i, t, SLOTS)
    ensures Cloned(c, p, used, i + 1)
  {
    assert SlotCloned(c, p, i);
    assert SlotFrames(p, c.child, i) == TableFrames(p, t, SLOTS);
  }

  lemma EmptySlot(c: Fork, p: Phys, used: set<int>, i: int)
    requires ForkOk(c) && Shaped(p) && 1 <= i < KERNEL && Cloned(c, p, used, i) && !p[c.child][i].present
    ensures Cloned(c, p, used, i + 1)
  {
    assert SlotCloned(c, p, i);
    assert SlotFrames(p, c.child, i) == {};
  }

  // ---------------------------------------------------------------- the loops of deep_clone

  /** Copy page `k` of slot `i`; `ok` is false when physical memory has run out. */
  method ClonePage(m: Mmu, i: int, k: int, ghost c: Fork, ghost t: int) returns (ok: bool)
    requires ForkOk(c) && Shaped(m.phys) && Backed(m.phys, m.pmm.Frames()) && m.cr3 == c.child
    requires 1 <= i < KERNEL && 0 <= k < SLOTS && SlotProgress(c, m.phys, m.Used(), i, t, k)
    modifies m`phys, m.pmm.bitmap
    ensures ok ==> Shaped(m.phys) && Backed(m.phys, m.pmm.Frames()) && SlotProgress(c, m.phys, m.Used(), i, t, k + 1)
    ensures !ok ==> m.Exhausted()
  {
    ghost var p: Phys, used := m.phys, m.Used();
    var e := m.ReadTable(i, k);
    if !e.present {
      SkipStep(c, p, used, i, t, k);
      return true;
    }
    PageAddressIndices(i, k);
    assert UserFrame(c.p, c.parent, i, e.frame);
    UserFrameFrozen(c, p, i, e.frame);
    var buffer := m.LoadPage(PageAddress(i, k));
    var f := m.pmm.AllocatePhysicalMemory();
    if f == 0 {
      return false;
    }
    m.WriteTable(i, k, e.(frame := f, rw := true, present := true));
    m.StorePage(PageAddress(i, k), buffer);
    PageStep(c, p, m.phys, used, i, t, k, f, buffer);
    return true;
  }

  method CloneSlot(m: Mmu, i: int, ghost c: Fork) returns (ok: bool)
    requires ForkOk(c) && Shaped(m.phys) && Backed(m.phys, m.pmm.Frames()) && m.cr3 == c.child
    requires 1 <= i < KERNEL && Cloned(c, m.phys, m.Used(), i)
    modifies m`phys, m.pmm.bitmap
    ensures ok ==> Shaped(m.phys) && Backed(m.phys, m.pmm.Frames()) && Cloned(c, m.phys, m.Used(), i + 1)
    ensures !ok ==> m.Exhausted()
  {
    ghost var p: Phys, used := m.phys, m.Used();
    var e := m.ReadEntry(i);
    if !e.present {
      EmptySlot(c, p, used, i);
      return true;
    }
    UserFrameFrozen(c, p, i, e.frame);
    SelfMapReaches(p, c.child, i, 0);
    var buffer := m.LoadPage(TablePointer(i, 0));
    var t := m.pmm.AllocatePhysicalMemory();
    if t == 0 {
      return false;
    }
    m.WriteEntry(i, e.(frame := t, owned := true, present := true));
    SelfMapReaches(m.phys, c.child, i, 0);
    m.StorePage(TablePointer(i, 0), buffer);
    StartSlot(c, p, m.phys, used, i, t);
    ok := ClonePages(m, i, c, t);
  }

  /** The inner loop of deep_clone. */
  method ClonePages(m: Mmu, i: int, ghost c: Fork, ghost t: int) returns (ok: bool)
    requires ForkOk(c) && Shaped(m.phys) && Backed(m.phys, m.pmm.Frames()) && m.cr3 == c.child
    requires 1 <= i < KERNEL && SlotProgress(c, m.phys, m.Used(), i, t, 0)
    modifies m`phys, m.pmm.bitmap
    ensures ok ==> Shaped(m.phys) && Backed(m.phys, m.pmm.Frames()) && Cloned(c, m.phys, m.Used(), i + 1)
    ensures !ok ==> m.Exhausted()
  {
    for k := 0 to SLOTS
      invariant Shaped(m.phys) && Backed(m.phys, m.pmm.Frames()) && SlotProgress(c, m.phys, m.Used(), i, t, k)
    {
      ok := ClonePage(m, i, k, c, t);
      if !ok {
        return;
      }
    }
    EndSlot(c, m.phys, m.Used(), i, t);
    return true;
  }

  /** The outer loop of deep_clone. */
  method CloneSlots(m: Mmu, ghost c: Fork) returns (ok: bool)
    requires ForkOk(c) && Shaped(m.phys) && Backed(m.phys, m.pmm.Frames()) && m.cr3 == c.child
    requires Cloned(c, m.phys, m.Used(), 1)
    modifies m`phys, m.pmm.bitmap
    ensures ok ==> Shaped(m.phys) && Backed(m.phys, m.pmm.Frames()) && Cloned(c, m.phys, m.Used(), KERNEL)
    ensures !ok ==> m.Exhausted()
  {
    for i := 1 to KERNEL
      invariant Shaped(m.phys) && Backed(m.phys, m.pmm.Frames()) && Cloned(c, m.phys, m.Used(), i)
    {
      ok := CloneSlot(m, i, c);
      if !ok {
        return;
      }
    }
    return true;
  }

  // ---------------------------------------------------------------- clone

  lemma SamePage(p: Phys, d: int, page: int, j: int)
    requires Shaped(p) && 0 <= page < SELF_TABLES && page % PAGE == 0 && 0 <= j < SLOTS
    ensures 0 <= page + 4 * j < SPACE && WordIndex(page + 4 * j) == j && Walk(p, d, page + 4 * j) == Walk(p, d, page)
  {
    WordInPage(page, j);
  }

  /** The words of a page share its directory and table indices. */
  lemma WordInPage(page: int, j: int)
    requires 0 <= page && page % PAGE == 0 && 0 <= j < SLOTS
    ensures (page + 4 * j) / TABLE_SPAN == page / TABLE_SPAN
    ensures ((page + 4 * j) % TABLE_SPAN) / PAGE == (page % TABLE_SPAN) / PAGE
    ensures (page + 4 * j) % PAGE == 4 * j
  {
    var n := page / PAGE;
    var i, k := n / SLOTS, n % SLOTS;
    assert page == PAGE * n && n == SLOTS * i + k;
    InSpan(page, i, PAGE * k);
    InSpan(page + 4 * j, i, PAGE * k + 4 * j);
    InPage(PAGE * k, k, 0);
    InPage(PAGE * k + 4 * j, k, 4 * j);
    InPage(page + 4 * j, n, 4 * j);
  }

  lemma InPage(x: int, n: int, r: int)
    requires x == PAGE * n + r && 0 <= r < PAGE
    ensures x / PAGE == n && x % PAGE == r
  {
  }

  lemma InSpan(x: int, i: int, r: int)
    requires x == TABLE_SPAN * i + r && 0 <= r < TABLE_SPAN
    ensures x / TABLE_SPAN == i && x % TABLE_SPAN == r
  {
  }

  /** Mapping a page in a kernel slot leaves a directory cloneable and its user memory as it was. */
  lemma BindKept(p: Phys, p': Phys, used: set<int>, d: int, i: int, k: int, f: int)
    requires Shaped(p) && Cloneable(p, used, d) && KERNEL <= i < SELF && 0 <= k < SLOTS
    requires f !in used && NewPage(p, p', d, i, k, f, false)
    ensures Shaped(p') && Cloneable(p', used, d) && p'.Keys == p.Keys && p'[d] == p[d]
    ensures forall j :: 1 <= j < KERNEL && p[d][j].present ==> SameFrame(p, p', p[d][j].frame)
    ensures forall j, g :: 1 <= j < KERNEL && p[d][j].present && UserFrame(p, d, j, g) ==> SameFrame(p, p', g)
  {
    var t := p[d][i].frame;
    forall j, g | 1 <= j < KERNEL && p[d][j].present && UserFrame(p, d, j, g)
      ensures g != t && g in used && SameFrame(p, p', g)
    {
      assert Pages(p, used, p[d][j].frame);
    }
    forall j | 1 <= j < KERNEL && p[d][j].present ensures SameFrame(p, p', p[d][j].frame) {
      assert UserFrame(p, d, j, p[d][j].frame);
    }
    BindKeptRest(p, p', used, d, i, k, f);
  }

  lemma BindKeptRest(p: Phys, p': Phys, used: set<int>, d: int, i: int, k: int, f: int)
    requires Shaped(p) && Cloneable(p, used, d) && KERNEL <= i < SELF && 0 <= k < SLOTS
    requires f !in used && NewPage(p, p', d, i, k, f, false)
    requires forall j :: 1 <= j < KERNEL && p[d][j].present ==> SameFrame(p, p', p[d][j].frame)
    ensures Shaped(p') && Cloneable(p', used, d) && p'.Keys == p.Keys && p'[d] == p[d]
  {
    forall j | 0 <= j < SELF && p'[d][j].present ensures TableOk(p', used, d, j) {
      assert TableOk(p, used, d, j);
    }
    forall j | 1 <= j < KERNEL && p'[d][j].present ensures Pages(p', used, p'[d][j].frame) {
      assert Pages(p, used, p[d][j].frame) && SameFrame(p, p', p[d][j].frame);
    }
    forall n, j | KERNEL <= n < SELF && 1 <= j < KERNEL && p'[d][j].present
      ensures !UserFrame(p', d, j, p'[d][n].frame)
    {
      assert !UserFrame(p, d, j, p[d][n].frame) && SameFrame(p, p', p[d][j].frame);
    }
  }

  /** No page is unmapped from `start` up to the self-map. */
  ghost predicate NoRoom(p: Phys, d: int, start: int) {
    Shaped(p) && 0 <= start && forall va :: start <= va < SELF_TABLES ==> Walk(p, d, va).Some?
  }

  /** clone: a page for the directory, a copy of all entries, its own self-map, and no ownership of user slots. */
  method Clone(m: Mmu, thisVa: int, kernelEnd: int) returns (dir: int, ghost c: Fork, ok: bool)
    requires m.Ready() && Cloneable(m.phys, m.Used(), m.cr3)
    requires KERNEL * TABLE_SPAN <= kernelEnd < SELF_TABLES && kernelEnd % PAGE == 0
    requires KERNEL * TABLE_SPAN <= thisVa < SELF_TABLES && Walk(m.phys, m.cr3, thisVa) == Some(m.cr3)
    modifies m`phys, m.pmm.bitmap
    ensures Shaped(old(m.phys)) && SelfMapped(old(m.phys), m.cr3)
    ensures !ok ==> m.Exhausted() || NoRoom(old(m.phys), m.cr3, kernelEnd)
    ensures ok ==> kernelEnd <= dir < SELF_TABLES && dir % PAGE == 0
    ensures ok ==> ForkOk(c) && c.used == old(m.Used()) && c.parent == m.cr3
    ensures ok ==> 0 <= Pdi(dir) < SLOTS && 0 <= Pti(dir) < SLOTS &&
                   NewPage(old(m.phys), c.p, m.cr3, Pdi(dir), Pti(dir), c.child, false)
    ensures ok ==> Shaped(m.phys) && Backed(m.phys, m.pmm.Frames()) && Cloned(c, m.phys, m.Used(), 1)
    ensures ok ==> Walk(m.phys, m.cr3, dir) == Some(c.child) && Walk(c.p, m.cr3, dir) == Some(c.child)
    ensures ok ==> Walk(c.p, m.cr3, thisVa) == Some(m.cr3)
  {
    ghost var p0: Phys, used0 := m.phys, m.Used();
    dir, ok := m.BindFirstFreeVirtualPage(kernelEnd, false);
    c := Fork(m.phys, used0, m.cr3, 0);
    if !ok {
      return;
    }
    KernelIndex(dir);
    ghost var f := Walk(m.phys, m.cr3, dir).value;
    c := Fork(m.phys, used0, m.cr3, f);
    BindKept(p0, c.p, used0, m.cr3, Pdi(dir), Pti(dir), f);
    m.StorePage(dir, ZeroPage());
    assert m.phys == c.p;
    KernelIndex(thisVa);
    var buffer := m.LoadPage(thisVa);
    m.StorePage(dir, buffer);
    FillDirectory(m, dir, c);
    FilledIsCloned(c, m.phys, m.Used());
    StillMapped(c, m.phys, dir);
  }

  /** The new directory's page while clone fills it: ownership already dropped below slot `n`. */
  ghost predicate Filling(c: Fork, p: Phys, n: int)
    requires ForkOk(c) && 0 <= n <= KERNEL
  {
    && Shaped(p) && p.Keys == c.p.Keys && SelfMapped(p, c.child)
    && (forall f :: f in c.p && f != c.child ==> p[f] == c.p[f])
    && (forall j :: 0 <= j < n ==> p[c.child][j] == c.p[c.parent][j].(owned := false))
    && (forall j :: n <= j < SELF ==> p[c.child][j] == c.p[c.parent][j])
  }

  /** The address `dir` still leads to the child's directory. */
  lemma StillMapped(c: Fork, p: Phys, dir: int)
    requires ForkOk(c) && Shaped(p) && p.Keys == c.p.Keys && (forall f :: f in c.p && f != c.child ==> p[f] == c.p[f])
    requires KERNEL * TABLE_SPAN <= dir < SELF_TABLES && Walk(c.p, c.parent, dir) == Some(c.child)
    ensures Walk(p, c.parent, dir) == Some(c.child)
  {
    KernelIndex(dir);
    assert c.p[c.parent][Pdi(dir)].frame in c.used;
  }

  method FillDirectory(m: Mmu, dir: int, ghost c: Fork)
    requires ForkOk(c) && m.cr3 == c.parent && m.phys == c.p[c.child := c.p[c.parent]]
    requires KERNEL * TABLE_SPAN <= dir < SELF_TABLES && dir % PAGE == 0 && Walk(c.p, c.parent, dir) == Some(c.child)
    modifies m`phys
    ensures Filling(c, m.phys, KERNEL)
  {
    StillMapped(c, m.phys, dir);
    SamePage(m.phys, m.cr3, dir, SELF);
    var e := m.LoadWord(dir + 4 * SELF);
    var frame := Walk(m.phys, m.cr3, dir).value;
    m.StoreWord(dir + 4 * SELF, e.(frame := frame, rw := true, present := true));
    DropOwnership(m, dir, c);
  }

  method DropOwnership(m: Mmu, dir: int, ghost c: Fork)
    requires ForkOk(c) && m.cr3 == c.parent && Filling(c, m.phys, 0)
    requires KERNEL * TABLE_SPAN <= dir < SELF_TABLES && dir % PAGE == 0 && Walk(c.p, c.parent, dir) == Some(c.child)
    modifies m`phys
    ensures Filling(c, m.phys, KERNEL)
  {
    for i := 0 to KERNEL
      invariant Filling(c, m.phys, i)
    {
      DropSlot(m, dir, i, c);
    }
  }

  method DropSlot(m: Mmu, dir: int, i: int, ghost c: Fork)
    requires ForkOk(c) && m.cr3 == c.parent && 0 <= i < KERNEL && Filling(c, m.phys, i)
    requires KERNEL * TABLE_SPAN <= dir < SELF_TABLES && dir % PAGE == 0 && Walk(c.p, c.parent, dir) == Some(c.child)
    modifies m`phys
    ensures Filling(c, m.phys, i + 1)
  {
    StillMapped(c, m.phys, dir);
    SamePage(m.phys, m.cr3, dir, i);
    var e := m.LoadWord(dir + 4 * i);
    m.StoreWord(dir + 4 * i, e.(owned := false));
  }

  lemma FilledIsCloned(c: Fork, p: Phys, used: set<int>)
    requires ForkOk(c) && Filling(c, p, KERNEL) && used == c.used + {c.child}
    ensures Cloned(c, p, used, 1)
  {
  }

  lemma KernelIndex(va: int)
    requires KERNEL * TABLE_SPAN <= va < SELF_TABLES
    ensures KERNEL <= Pdi(va) < SELF && 0 <= Pti(va) < SLOTS
  {
  }

  /** Kernel addresses translate the same under parent and child, and as when the child's page was mapped. */
  lemma KernelShared(c: Fork, p: Phys, used: set<int>, va: int)
    requires ForkOk(c) && Shaped(p) && Cloned(c, p, used, KERNEL) && KERNEL * TABLE_SPAN <= va < SELF_TABLES
    ensures Walk(p, c.child, va) == Walk(c.p, c.parent, va) == Walk(p, c.parent, va)
  {
    KernelIndex(va);
    assert c.p[c.parent][Pdi(va)].frame in c.used;
  }

  // ---------------------------------------------------------------- deep_clone

  /** deep_clone, called with the directory to copy in use. The scratch buffer is a local value. */
  method DeepClone(m: Mmu, thisVa: int, kernelEnd: int) returns (dir: int, ghost c: Fork, ok: bool)
    requires m.Ready() && Cloneable(m.phys, m.Used(), m.cr3)
    requires KERNEL * TABLE_SPAN <= kernelEnd < SELF_TABLES && kernelEnd % PAGE == 0
    requires KERNEL * TABLE_SPAN <= thisVa < SELF_TABLES && Walk(m.phys, m.cr3, thisVa) == Some(m.cr3)
    modifies m`phys, m`cr3, m.pmm.bitmap
    ensures Shaped(old(m.phys)) && SelfMapped(old(m.phys), old(m.cr3))
    ensures !ok ==> m.Exhausted() || NoRoom(old(m.phys), old(m.cr3), kernelEnd)
    ensures ok ==> kernelEnd <= dir < SELF_TABLES && dir % PAGE == 0
    ensures ok ==> ForkOk(c) && c.used == old(m.Used()) && c.parent == old(m.cr3) == m.cr3
    ensures ok ==> 0 <= Pdi(dir) < SLOTS && 0 <= Pti(dir) < SLOTS &&
                   NewPage(old(m.phys), c.p, m.cr3, Pdi(dir), Pti(dir), c.child, false)
    ensures ok ==> Shaped(m.phys) && Backed(m.phys, m.pmm.Frames()) && Cloned(c, m.phys, m.Used(), KERNEL)
    ensures ok ==> Walk(m.phys, m.cr3, dir) == Some(c.child)
  {
    dir, c, ok := Clone(m, thisVa, kernelEnd);
    if !ok {
      return;
    }
    m.cr3 := Walk(m.phys, m.cr3, dir).value;
    ok := CloneSlots(m, c);
    if !ok {
      return;
    }
    KernelShared(c, m.phys, m.Used(), thisVa);
    KernelShared(c, m.phys, m.Used(), dir);
    m.cr3 := Walk(m.phys, m.cr3, thisVa).value;
  }

  // ---------------------------------------------------------------- freePageDirectory

  ghost predicate InRange(frames: set<int>, n: int) {
    forall f :: f in frames ==> 0 <= f < n
  }

  /** freeEntry: give back the table of an owned slot and every frame the table maps. */
  method FreeEntry(m: Mmu, i: int)
    requires Shaped(m.phys) && SelfMapped(m.phys, m.cr3) && 0 <= i < SELF
    requires m.phys[m.cr3][i].present && m.phys[m.cr3][i].owned ==> m.phys[m.cr3][i].frame in m.phys
    requires InRange(SlotFrames(m.phys, m.cr3, i), m.pmm.Frames())
    modifies m`phys, m.pmm.bitmap
    ensures m.cr3 in old(m.phys) && Shaped(old(m.phys))
    ensures m.Used() == old(m.Used()) - SlotFrames(old(m.phys), m.cr3, i)
    ensures var e := old(m.phys)[m.cr3][i];
            m.phys == if e.present && e.owned then old(m.phys)[m.cr3 := old(m.phys)[m.cr3][i := Zero]] else old(m.phys)
  {
    var e := m.ReadEntry(i);
    if !e.present {
      return;
    }
    if !e.owned {
      return;
    }
    FreePages(m, i, e.frame);
    m.pmm.FreePhysicalMemory(e.frame);
    m.WriteEntry(i, Zero);
  }

  /** The loop of freeEntry: present pages are given back whether or not the page itself is owned. */
  method FreePages(m: Mmu, i: int, t: int)
    requires Shaped(m.phys) && SelfMapped(m.phys, m.cr3) && 0 <= i < SELF
    requires m.phys[m.cr3][i].present && m.phys[m.cr3][i].frame == t && t in m.phys
    requires InRange(TableFrames(m.phys, t, SLOTS), m.pmm.Frames())
    modifies m.pmm.bitmap
    ensures m.Used() - {t} == old(m.Used()) - TableFrames(m.phys, t, SLOTS)
  {
    for k := 0 to SLOTS
      invariant m.Used() - {t} == old(m.Used()) - TableFrames(m.phys, t, k)
    {
      var e := m.ReadTable(i, k);
      GrowFrames(m.phys, t, k);
      if e.present {
        assert e.frame in TableFrames(m.phys, t, SLOTS);
        DropOne(m.Used(), old(m.Used()), TableFrames(m.phys, t, k), t, e.frame);
        m.pmm.FreePhysicalMemory(e.frame);
      }
    }
  }

  lemma DropOne(u: set<int>, o: set<int>, a: set<int>, t: int, f: int)
    requires u - {t} == o - a
    ensures (u - {f}) - {t} == o - (a + {f})
  {
    assert forall x :: x in (u - {f}) - {t} <==> x in u - {t} && x != f;
  }

  lemma GrowFrames(p: Phys, t: int, k: int)
    requires Shaped(p) && t in p && 0 <= k < SLOTS
    ensures TableFrames(p, t, k + 1) == TableFrames(p, t, k) + if p[t][k].present then {p[t][k].frame} else {}
  {
    forall g | g in TableFrames(p, t, k + 1) && g != t
      ensures g in TableFrames(p, t, k) || (p[t][k].present && g == p[t][k].frame)
    {
      var j :| 0 <= j < k + 1 && p[t][j].present && p[t][j].frame == g;
    }
  }

  /** The directory with slots 1 up to `n` given back: nothing else in memory has changed. */
  ghost predicate Freed(p0: Phys, p: Phys, d: int, n: int)
    requires Shaped(p0) && d in p0
  {
    && Shaped(p) && p.Keys == p0.Keys
    && (forall f :: f in p0 && f != d ==> p[f] == p0[f])
    && (forall j :: 0 <= j < SLOTS && (j == 0 || n <= j) ==> p[d][j] == p0[d][j])
  }

  lemma SlotFramesSame(p0: Phys, p: Phys, d: int, i: int)
    requires Shaped(p0) && d in p0 && 1 <= i < KERNEL && Freed(p0, p, d, i)
    requires d !in SlotFrames(p0, d, i)
    ensures SlotFrames(p, d, i) == SlotFrames(p0, d, i)
  {
    var e := p0[d][i];
    assert p[d][i] == e;
    if e.present && e.owned && e.frame in p0 {
      assert e.frame in TableFrames(p0, e.frame, SLOTS);
    }
  }

  /** The loop of freePageDirectory, with the directory to free in use. */
  method FreeSlots(m: Mmu)
    requires Shaped(m.phys) && SelfMapped(m.phys, m.cr3)
    requires m.cr3 !in DirectoryFrames(m.phys, m.cr3, KERNEL)
    requires InRange(DirectoryFrames(m.phys, m.cr3, KERNEL), m.pmm.Frames())
    requires forall i :: 1 <= i < KERNEL && m.phys[m.cr3][i].present && m.phys[m.cr3][i].owned ==>
        m.phys[m.cr3][i].frame in m.phys
    modifies m`phys, m.pmm.bitmap
    ensures Shaped(old(m.phys)) && m.cr3 in old(m.phys)
    ensures m.Used() == old(m.Used()) - DirectoryFrames(old(m.phys), m.cr3, KERNEL)
    ensures Freed(old(m.phys), m.phys, m.cr3, KERNEL)
  {
    ghost var p0: Phys := m.phys;
    for i := 1 to KERNEL
      invariant Freed(p0, m.phys, m.cr3, i)
      invariant m.Used() == old(m.Used()) - DirectoryFrames(p0, m.cr3, i)
    {
      SlotInDirectory(p0, m.cr3, KERNEL, i);
      SlotFramesSame(p0, m.phys, m.cr3, i);
      FreeEntry(m, i);
    }
  }

  /**
   freePageDirectory: give back the user slots of the directory mapped at `page`, then its own frame.
   The directory in use is the kernel's, whose frame is mapped at its own address (slot 0).
   */
  method FreePageDirectory(m: Mmu, page: int, ghost child: int, ghost known: set<int>)
    requires Shaped(m.phys) && SelfMapped(m.phys, m.cr3) && DirectoryOk(m.phys, known, m.cr3)
    requires KERNEL * TABLE_SPAN <= page < SELF_TABLES && Walk(m.phys, m.cr3, page) == Some(child) && child != m.cr3
    requires SelfMapped(m.phys, child) && child !in DirectoryFrames(m.phys, child, KERNEL)
    requires InRange(DirectoryFrames(m.phys, child, KERNEL) + {child}, m.pmm.Frames())
    requires forall i :: 1 <= i < KERNEL && m.phys[child][i].present && m.phys[child][i].owned ==>
        m.phys[child][i].frame in m.phys
    requires child !in known && OwnsPage(m.phys, m.cr3, page)
    requires 0 <= m.cr3 < 1024 && Mapped(m.phys, child, 0, m.cr3) == Some(m.cr3) && m.phys[child][0].frame != child
    modifies m`phys, m`cr3, m.pmm.bitmap
    ensures Shaped(old(m.phys)) && child in old(m.phys) && m.cr3 == old(m.cr3)
    ensures m.Used() == old(m.Used()) - DirectoryFrames(old(m.phys), child, KERNEL) - {child}
    ensures Shaped(m.phys) && Walk(m.phys, m.cr3, page) == None
  {
    ghost var p0: Phys := m.phys;
    var current := m.cr3;
    m.cr3 := Walk(m.phys, m.cr3, page).value;
    FreeSlots(m);
    LowIndices(current);
    assert m.phys[child][0] == p0[child][0];
    m.cr3 := Walk(m.phys, m.cr3, current * PAGE).value;
    KernelIndex(page);
    AfterFree(p0, m.phys, known, current, child);
    m.UnbindVirtualPage(page, known);
  }

  /** The mapping of `page` owns the frame it maps. */
  ghost predicate OwnsPage(p: Phys, d: int, page: int)
    requires Shaped(p) && 0 <= page < SELF_TABLES && Walk(p, d, page).Some?
  {
    IndicesInRange(page);
    p[p[d][Pdi(page)].frame][Pti(page)].owned
  }

  lemma LowIndices(f: int)
    requires 0 <= f < 1024
    ensures 0 <= f * PAGE < SPACE && Pdi(f * PAGE) == 0 && Pti(f * PAGE) == f
  {
  }

  lemma AfterFree(p0: Phys, p: Phys, known: set<int>, d: int, child: int)
    requires Shaped(p0) && SelfMapped(p0, d) && DirectoryOk(p0, known, d) && child in p0 && child != d
    requires child !in known
    requires Freed(p0, p, child, KERNEL)
    ensures SelfMapped(p, d) && DirectoryOk(p, known, d)
    ensures forall i, k :: 0 <= i < SELF && 0 <= k < SLOTS ==> Mapped(p, d, i, k) == Mapped(p0, d, i, k)
    ensures forall i :: 0 <= i < SELF && p0[d][i].present ==>
        p[d][i] == p0[d][i] && p[p[d][i].frame] == p0[p0[d][i].frame]
  {
    forall i | 0 <= i < SELF && p0[d][i].present ensures TableOk(p0, known, d, i) && TableOk(p, known, d, i) { }
  }

  // ---------------------------------------------------------------- what fork promises

  /**
   After deep_clone every user page is present in the child exactly when it is in the parent and has the
   contents it had at the start, the parent's translation and contents are unchanged, and the child's frame
   was not in use by anyone.
   */
  lemma ForkCopies(p0: Phys, c: Fork, p: Phys, used: set<int>, ti: int, tk: int, i: int, k: int)
    requires Shaped(p0) && Cloneable(p0, c.used, c.parent) && KERNEL <= ti < SELF && 0 <= tk < SLOTS
    requires ForkOk(c) && NewPage(p0, c.p, c.parent, ti, tk, c.child, false)
    requires Shaped(p) && Cloned(c, p, used, KERNEL)
    requires 1 <= i < KERNEL && 0 <= k < SLOTS
    ensures Mapped(p, c.parent, i, k) == Mapped(p0, c.parent, i, k)
    ensures Mapped(p, c.child, i, k).Some? <==> Mapped(p0, c.parent, i, k).Some?
    ensures Mapped(p0, c.parent, i, k).Some? ==>
              var f, g := Mapped(p0, c.parent, i, k).value, Mapped(p, c.child, i, k).value;
              && f in p0 && f in p && g in p && p[f] == p0[f] && p[g] == p0[f]
              && f in c.used && g !in c.used && g != c.child
  {
    BindKept(p0, c.p, c.used, c.parent, ti, tk, c.child);
    assert SlotCloned(c, p, i);
    var e := p0[c.parent][i];
    if e.present {
      assert SameFrame(p0, c.p, e.frame) && Pages(p0, c.used, e.frame);
      assert PageCloned(c, p, c.p[e.frame][k], p[p[c.child][i].frame][k]);
      if p0[e.frame][k].present {
        assert UserFrame(p0, c.parent, i, p0[e.frame][k].frame);
        assert SameFrame(p0, c.p, p0[e.frame][k].frame);
      }
    }
  }

  /**
   After deep_clone user code in the child may read what it may read in the parent, and may write it if the parent's
   directory entry is writable, even where the parent's page was not.
   */
  lemma ForkAccess(c: Fork, p: Phys, used: set<int>, i: int, k: int)
    requires ForkOk(c) && Shaped(p) && Cloned(c, p, used, KERNEL) && 1 <= i < KERNEL && 0 <= k < SLOTS
    ensures UserMay(p, c.child, i, k, false) <==> UserMay(p, c.parent, i, k, false)
    ensures UserMay(p, c.child, i, k, true) <==> UserMay(p, c.parent, i, k, false) && c.p[c.parent][i].rw
  {
    assert SlotCloned(c, p, i);
    if c.p[c.parent][i].present {
      ParentSlot(c, p, used, i);
      assert PageCloned(c, p, c.p[c.p[c.parent][i].frame][k], p[p[c.child][i].frame][k]);
    } else {
      assert c.parent in c.used && p[c.parent] == c.p[c.parent];
    }
  }

  /** A frame through which a directory's user memory is reached: itself, a user table or a user page. */
  ghost predicate Reaches(p: Phys, d: int, f: int)
    requires Shaped(p) && d in p
  {
    f == d || exists j :: 1 <= j < KERNEL && p[d][j].present && UserFrame(p, d, j, f)
  }

  /** Parent and child reach disjoint sets of frames. */
  lemma ForkDisjoint(c: Fork, p: Phys, used: set<int>, f: int)
    requires ForkOk(c) && Shaped(p) && Cloned(c, p, used, KERNEL) && c.parent in p && c.child in p
    ensures Reaches(p, c.parent, f) ==> f in c.used
    ensures Reaches(p, c.child, f) ==> f !in c.used
  {
    if Reaches(p, c.parent, f) && f != c.parent {
      var j :| 1 <= j < KERNEL && p[c.parent][j].present && UserFrame(p, c.parent, j, f);
      assert Pages(c.p, c.used, c.p[c.parent][j].frame);
    }
    if Reaches(p, c.child, f) && f != c.child {
      var j :| 1 <= j < KERNEL && p[c.child][j].present && UserFrame(p, c.child, j, f);
      assert SlotCloned(c, p, j);
      ChildFrames(c, p, j, f);
    }
  }

  lemma ChildFrames(c: Fork, p: Phys, j: int, f: int)
    requires ForkOk(c) && Shaped(p) && c.child in p && 1 <= j < KERNEL && SlotCloned(c, p, j)
    requires p[c.child][j].present && UserFrame(p, c.child, j, f)
    ensures f !in c.used
  {
    var t, t' := c.p[c.parent][j].frame, p[c.child][j].frame;
    if f != t' {
      var k :| 0 <= k < SLOTS && p[t'][k].present && p[t'][k].frame == f;
      assert PageCloned(c, p, c.p[t][k], p[t'][k]);
    }
  }

  /** A write to a frame that directory `d` does not reach changes none of its user memory. */
  lemma WriteUnseen(p: Phys, d: int, g: int, page: Page, i: int, k: int)
    requires Shaped(p) && d in p && !Reaches(p, d, g) && |page| == SLOTS && 1 <= i < KERNEL && 0 <= k < SLOTS
    ensures Shaped(p[g := page]) && Mapped(p[g := page], d, i, k) == Mapped(p, d, i, k)
    ensures Mapped(p, d, i, k).Some? && Mapped(p, d, i, k).value in p ==>
              p[g := page][Mapped(p, d, i, k).value] == p[Mapped(p, d, i, k).value]
  {
    var e := p[d][i];
    if e.present && e.frame in p {
      assert UserFrame(p, d, i, e.frame);
      if p[e.frame][k].present {
        assert UserFrame(p, d, i, p[e.frame][k].frame);
      }
    }
  }

  /** After fork, a write through any user page of one process is invisible in every user page of the other. */
  lemma ForkIsolates(c: Fork, p: Phys, used: set<int>, writer: int, reader: int, wi: int, wk: int, page: Page, i: int,
      k: int)
    requires ForkOk(c) && Shaped(p) && Cloned(c, p, used, KERNEL) && c.parent in p && c.child in p
    requires (writer == c.parent && reader == c.child) || (writer == c.child && reader == c.parent)
    requires 1 <= wi < KERNEL && 0 <= wk < SLOTS && Mapped(p, writer, wi, wk).Some? && |page| == SLOTS
    requires 1 <= i < KERNEL && 0 <= k < SLOTS
    ensures var g := Mapped(p, writer, wi, wk).value; var p' := p[g := page];
            && Shaped(p') && Mapped(p', reader, i, k) == Mapped(p, reader, i, k)
            && (Mapped(p, reader, i, k).Some? && Mapped(p, reader, i, k).value in p ==>
                  p'[Mapped(p, reader, i, k).value] == p[Mapped(p, reader, i, k).value])
  {
    var g := Mapped(p, writer, wi, wk).value;
    assert UserFrame(p, writer, wi, g);
    assert Reaches(p, writer, g);
    ForkDisjoint(c, p, used, g);
    WriteUnseen(p, reader, g, page, i, k);
  }

  /**
   A user slot of the child: its table and pages are in memory, allocated since the fork began, and not the directory.
   */
  lemma ChildSlot(c: Fork, p: Phys, used: set<int>, j: int)
    requires ForkOk(c) && Shaped(p) && Cloned(c, p, used, KERNEL) && 1 <= j < KERNEL && p[c.child][j].present
    ensures Pages(p, used, p[c.child][j].frame) && p[c.child][j].frame != c.child
    ensures SlotFrames(p, c.child, j) == TableFrames(p, p[c.child][j].frame, SLOTS)
    ensures forall f :: f in SlotFrames(p, c.child, j) ==> f !in c.used
  {
    assert SlotCloned(c, p, j);
    SlotInDirectory(p, c.child, KERNEL, j);
    var e, t' := c.p[c.parent][j], p[c.child][j].frame;
    forall k | 0 <= k < SLOTS && p[t'][k].present ensures p[t'][k].frame in p && p[t'][k].frame in used {
      assert PageCloned(c, p, c.p[e.frame][k], p[t'][k]);
      assert p[t'][k].frame in TableFrames(p, t', SLOTS);
    }
    assert t' in TableFrames(p, t', SLOTS);
  }

  lemma ChildUserFrame(c: Fork, p: Phys, used: set<int>, j: int, f: int)
    requires ForkOk(c) && Shaped(p) && Cloned(c, p, used, KERNEL) && 1 <= j < KERNEL && p[c.child][j].present
    requires UserFrame(p, c.child, j, f)
    ensures f !in c.used && f in SlotFrames(p, c.child, j)
  {
    ChildSlot(c, p, used, j);
  }

  /** Two user slots of the child have no frame in common. */
  lemma ChildSlotsApart(c: Fork, p: Phys, used: set<int>, i: int, j: int)
    requires ForkOk(c) && Shaped(p) && Cloned(c, p, used, KERNEL) && 1 <= i < j < KERNEL
    ensures SlotFrames(p, c.child, i) !! SlotFrames(p, c.child, j)
  {
    assert SlotApart(p, c.child, j);
    SlotInDirectory(p, c.child, j, i);
  }

  lemma ChildTables(c: Fork, p: Phys, used: set<int>, i: int, j: int)
    requires ForkOk(c) && Shaped(p) && Cloned(c, p, used, KERNEL) && 0 <= i < j < SELF
    requires p[c.child][i].present && p[c.child][j].present
    ensures p[c.child][i].frame != p[c.child][j].frame
  {
    var d, e := c.p[c.parent], p[c.child];
    if 1 <= i < KERNEL { ChildSlot(c, p, used, i); }
    if 1 <= j < KERNEL { ChildSlot(c, p, used, j); }
    if 1 <= i && j < KERNEL {
      ChildSlotsApart(c, p, used, i, j);
      assert e[i].frame in SlotFrames(p, c.child, i) && e[j].frame in SlotFrames(p, c.child, j);
    } else if 1 <= i < KERNEL {
      assert e[i].frame in SlotFrames(p, c.child, i) && TableOk(c.p, c.used, c.parent, j);
    } else if i == 0 && 1 <= j < KERNEL {
      assert e[j].frame in SlotFrames(p, c.child, j) && TableOk(c.p, c.used, c.parent, 0);
    } else {
      assert d[i].present && d[j].present && d[i].frame != d[j].frame;
    }
  }

  lemma ChildDirectoryOk(c: Fork, p: Phys, used: set<int>)
    requires ForkOk(c) && Shaped(p) && Cloned(c, p, used, KERNEL)
    ensures DirectoryOk(p, used, c.child)
  {
    forall i | 0 <= i < SELF && p[c.child][i].present ensures TableOk(p, used, c.child, i) {
      if 1 <= i < KERNEL { ChildSlot(c, p, used, i); } else { assert TableOk(c.p, c.used, c.parent, i); }
    }
    forall i, j | 0 <= i < j < SELF && p[c.child][i].present && p[c.child][j].present
      ensures p[c.child][i].frame != p[c.child][j].frame
    {
      ChildTables(c, p, used, i, j);
    }
  }

  lemma ChildKernel(c: Fork, p: Phys, used: set<int>)
    requires ForkOk(c) && Shaped(p) && Cloned(c, p, used, KERNEL)
    ensures Kernel(p, used, c.child)
  {
    forall i | KERNEL <= i < SELF
      ensures p[c.child][i].present && p[c.child][i].frame in p && p[c.child][i].frame in c.used
      ensures p[c.child][i].frame != c.child
    {
      assert p[c.child][i] == c.p[c.parent][i];
    }
    forall i, j | KERNEL <= i < SELF && 1 <= j < KERNEL && p[c.child][j].present
      ensures !UserFrame(p, c.child, j, p[c.child][i].frame)
    {
      if UserFrame(p, c.child, j, p[c.child][i].frame) { ChildUserFrame(c, p, used, j, p[c.child][i].frame); }
    }
  }

  /** The child's directory is as good as the parent's was: pages can be bound in it, and it can be forked again. */
  lemma ChildCloneable(c: Fork, p: Phys, used: set<int>)
    requires ForkOk(c) && Shaped(p) && Cloned(c, p, used, KERNEL)
    ensures Cloneable(p, used, c.child)
  {
    ChildDirectoryOk(c, p, used);
    ChildKernel(c, p, used);
    forall i | 1 <= i < KERNEL && p[c.child][i].present ensures Pages(p, used, p[c.child][i].frame) {
      ChildSlot(c, p, used, i);
    }
  }

  lemma ParentSlot(c: Fork, p: Phys, used: set<int>, j: int)
    requires ForkOk(c) && Shaped(p) && Cloned(c, p, used, KERNEL) && 1 <= j < KERNEL && c.p[c.parent][j].present
    ensures c.parent in p && p[c.parent] == c.p[c.parent] && Pages(p, used, p[c.parent][j].frame)
    ensures p[p[c.parent][j].frame] == c.p[c.p[c.parent][j].frame]
  {
    assert Pages(c.p, c.used, c.p[c.parent][j].frame);
  }

  /** So is the parent's still. */
  lemma ParentCloneable(c: Fork, p: Phys, used: set<int>)
    requires ForkOk(c) && Shaped(p) && Cloned(c, p, used, KERNEL)
    ensures Cloneable(p, used, c.parent)
  {
    var d := c.parent;
    assert d in c.used && d in p && p[d] == c.p[d];
    forall i | 0 <= i < SELF && p[d][i].present ensures TableOk(p, used, d, i) { assert TableOk(c.p, c.used, d, i); }
    forall i | 1 <= i < KERNEL && p[d][i].present ensures Pages(p, used, p[d][i].frame) { ParentSlot(c, p, used, i); }
    forall i, j | KERNEL <= i < SELF && 1 <= j < KERNEL && p[d][j].present ensures !UserFrame(p, d, j, p[d][i].frame) {
      ParentSlot(c, p, used, j);
      assert !UserFrame(c.p, d, j, c.p[d][i].frame);
    }
  }

  /** No two user pages of the child share a frame, whatever the parent shared. */
  lemma ChildPagesDistinct(c: Fork, p: Phys, used: set<int>, i: int, k: int, j: int, l: int)
    requires ForkOk(c) && Shaped(p) && Cloned(c, p, used, KERNEL) && c.child in p
    requires 1 <= i <= j < KERNEL && 0 <= k < SLOTS && 0 <= l < SLOTS && (i == j ==> k < l)
    requires Mapped(p, c.child, i, k).Some? && Mapped(p, c.child, j, l).Some?
    ensures Mapped(p, c.child, i, k) != Mapped(p, c.child, j, l)
  {
    ChildSlot(c, p, used, i);
    ChildSlot(c, p, used, j);
    if i == j {
      assert SlotApart(p, c.child, i) && SlotCloned(c, p, i);
    } else {
      ChildSlotsApart(c, p, used, i, j);
      assert p[p[c.child][i].frame][k].frame in SlotFrames(p, c.child, i);
      assert p[p[c.child][j].frame][l].frame in SlotFrames(p, c.child, j);
    }
  }

  /** Freeing a clone gives back exactly the frames that making it took. */
  lemma {:induction false} CloneThenFree(c: Fork, p: Phys, used: set<int>)
    requires ForkOk(c) && Shaped(p) && Cloned(c, p, used, KERNEL)
    ensures used - DirectoryFrames(p, c.child, KERNEL) - {c.child} == c.used
    ensures c.child !in DirectoryFrames(p, c.child, KERNEL)
  {
    ChildNotOwn(c, p, KERNEL);
  }

  /** The kernel's own directory beside a process directory made from it: same kernel slots, same low memory. */
  ghost predicate KernelDirectory(p: Phys, used: set<int>, d: int, kernel: int)
    requires Shaped(p) && d in p
  {
    && 0 <= kernel < 1024 && kernel in used && SelfMapped(p, kernel) && DirectoryOk(p, used, kernel)
    && (forall i :: KERNEL <= i < SELF ==> p[kernel][i] == p[d][i])
    && Mapped(p, d, 0, kernel) == Some(kernel) && p[d][0].frame in used
    && (forall i :: KERNEL <= i < SELF ==> p[d][i].frame != kernel && p[d][i].frame != p[d][0].frame)
  }

  /** With the kernel's directory in use again, the clone can be freed. */
  lemma FreeReady(p0: Phys, c: Fork, p: Phys, used: set<int>, dir: int, kernel: int)
    requires Shaped(p0) && Cloneable(p0, c.used, c.parent) && KernelDirectory(p0, c.used, c.parent, kernel)
    requires KERNEL * TABLE_SPAN <= dir < SELF_TABLES && KERNEL <= Pdi(dir) < SELF && 0 <= Pti(dir) < SLOTS
    requires ForkOk(c) && NewPage(p0, c.p, c.parent, Pdi(dir), Pti(dir), c.child, false)
    requires Shaped(p) && Cloned(c, p, used, KERNEL) && Walk(p, c.parent, dir) == Some(c.child)
    ensures SelfMapped(p, kernel) && DirectoryOk(p, c.used, kernel) && c.child != kernel
    ensures Walk(p, kernel, dir) == Some(c.child) && OwnsPage(p, kernel, dir)
    ensures Mapped(p, c.child, 0, kernel) == Some(kernel) && p[c.child][0].frame != c.child
  {
    assert p[kernel] == c.p[kernel] == p0[kernel];
    assert p[c.parent] == c.p[c.parent] == p0[c.parent];
    forall i | 0 <= i < SELF && p[kernel][i].present ensures TableOk(p, c.used, kernel, i) {
      assert TableOk(p0, c.used, kernel, i);
    }
    var low := p0[c.parent][0].frame;
    assert p[low] == c.p[low] == p0[low];
    var t := p0[c.parent][Pdi(dir)].frame;
    assert t in c.used && p[t] == c.p[t];
  }

  lemma ClonedSlotsPresent(c: Fork, p: Phys, used: set<int>, i: int)
    requires ForkOk(c) && Shaped(p) && Cloned(c, p, used, KERNEL) && 1 <= i < KERNEL && p[c.child][i].present
    ensures p[c.child][i].frame in p
  {
    assert SlotCloned(c, p, i);
  }

  /** deep_clone, then freePageDirectory on the result: the set of allocated frames is what it was. */
  method ForkThenFree(m: Mmu, thisVa: int, kernelEnd: int, kernel: int) returns (ok: bool)
    requires m.Ready() && Cloneable(m.phys, m.Used(), m.cr3) && KernelDirectory(m.phys, m.Used(), m.cr3, kernel)
    requires KERNEL * TABLE_SPAN <= kernelEnd < SELF_TABLES && kernelEnd % PAGE == 0
    requires KERNEL * TABLE_SPAN <= thisVa < SELF_TABLES && Walk(m.phys, m.cr3, thisVa) == Some(m.cr3)
    modifies m`phys, m`cr3, m.pmm.bitmap
    ensures ok ==> m.Used() == old(m.Used())
    ensures !ok ==> m.Exhausted() || NoRoom(old(m.phys), old(m.cr3), kernelEnd)
  {
    ghost var p0: Phys, used0 := m.phys, m.Used();
    var dir;
    ghost var c;
    dir, c, ok := DeepClone(m, thisVa, kernelEnd);
    if !ok {
      return;
    }
    KernelIndex(dir);
    FreeReady(p0, c, m.phys, m.Used(), dir, kernel);
    CloneThenFree(c, m.phys, m.Used());
    forall i | 1 <= i < KERNEL && m.phys[c.child][i].present ensures m.phys[c.child][i].frame in m.phys {
      ClonedSlotsPresent(c, m.phys, m.Used(), i);
    }
    m.cr3 := kernel;
    FreePageDirectory(m, dir, c.child, used0);
  }
}
