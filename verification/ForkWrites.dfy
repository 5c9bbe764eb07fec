/** Parent and child after fork: no sequence of writes by one is seen by the other. */
module ForkWrites {
  import opened Common
  import opened PageEntry
  import opened Paging
  import opened DeepClone

  /** One of the two processes writes a user page: entry `k` of slot `i` of its directory. */
  datatype Write = Write(child: bool, i: int, k: int, page: Page)

  predicate UserPage(i: int, k: int) { 1 <= i < KERNEL && 0 <= k < SLOTS }

  predicate WriteOk(w: Write) { UserPage(w.i, w.k) && |w.page| == SLOTS }

  predicate WritesOk(ws: seq<Write>) { forall n :: 0 <= n < |ws| ==> WriteOk(ws[n]) }

  function Directory(c: Fork, child: bool): int { if child then c.child else c.parent }

  /**
   A write lands in the frame that directory `d` maps; one to a page that is not mapped faults and changes nothing.
   */
  ghost function Put(p: Phys, d: int, w: Write): (q: Phys)
    requires Shaped(p) && WriteOk(w)
    ensures Shaped(q)
  {
    match Mapped(p, d, w.i, w.k)
    case Some(f) => p[f := w.page]
    case None => p
  }

  ghost function PutAll(c: Fork, p: Phys, ws: seq<Write>): (q: Phys)
    requires Shaped(p) && WritesOk(ws)
    ensures Shaped(q)
    decreases |ws|
  {
    if ws == [] then p else PutAll(c, Put(p, Directory(c, ws[0].child), ws[0]), ws[1..])
  }

  /** The writes of one of the two, in order. */
  function Own(ws: seq<Write>, child: bool): (r: seq<Write>)
    ensures WritesOk(ws) ==> WritesOk(r)
  {
    if ws == [] then [] else (if ws[0].child == child then [ws[0]] else []) + Own(ws[1..], child)
  }

  // ---------------------------------------------------------------- frames

  ghost predicate IsPage(p: Phys, d: int, f: int)
    requires Shaped(p)
  {
    exists i, k :: UserPage(i, k) && Mapped(p, d, i, k) == Some(f)
  }

  /** The directory itself, or one of its user tables. */
  ghost predicate IsTable(p: Phys, d: int, f: int)
    requires Shaped(p) && d in p
  {
    f == d || exists i :: 1 <= i < KERNEL && p[d][i].present && p[d][i].frame == f
  }

  /** No user page is the directory or one of its user tables, so that a process cannot edit its own mapping. */
  ghost predicate TablesHidden(p: Phys, d: int)
    requires Shaped(p) && d in p
  {
    forall f :: IsPage(p, d, f) ==> !IsTable(p, d, f)
  }

  /** All tables and pages of `d` are in memory. */
  ghost predicate Held(p: Phys, d: int)
    requires Shaped(p)
  {
    d in p && (forall f :: IsTable(p, d, f) || IsPage(p, d, f) ==> f in p)
  }

  /** Pages of `d` are neither tables nor pages of `e`. */
  ghost predicate Apart(p: Phys, d: int, e: int)
    requires Shaped(p) && d in p && e in p
  {
    forall f :: IsPage(p, d, f) ==> !IsTable(p, e, f) && !IsPage(p, e, f)
  }

  ghost predicate Separate(c: Fork, p: Phys)
    requires Shaped(p)
  {
    && Held(p, c.parent) && Held(p, c.child) && TablesHidden(p, c.parent) && TablesHidden(p, c.child)
    && Apart(p, c.parent, c.child) && Apart(p, c.child, c.parent)
  }

  /** The tables of `d` are as they were. */
  ghost predicate TablesKept(p: Phys, q: Phys, d: int)
    requires Shaped(p) && d in p
  {
    forall f :: IsTable(p, d, f) ==> f in p && f in q && q[f] == p[f]
  }

  lemma SameMapping(p: Phys, q: Phys, d: int, i: int, k: int)
    requires Shaped(p) && Shaped(q) && Held(p, d) && TablesKept(p, q, d) && UserPage(i, k)
    ensures Mapped(q, d, i, k) == Mapped(p, d, i, k)
  {
    assert IsTable(p, d, d);
    if p[d][i].present { assert IsTable(p, d, p[d][i].frame); }
  }

  /** A write by either changes no table of either. */
  lemma PutKeeps(c: Fork, p: Phys, q: Phys, w: Write, d: int)
    requires Shaped(p) && Shaped(q) && Separate(c, p) && WriteOk(w) && (d == c.parent || d == c.child)
    requires TablesKept(p, q, c.parent) && TablesKept(p, q, c.child)
    ensures TablesKept(p, Put(q, Directory(c, w.child), w), d)
  {
    var e := Directory(c, w.child);
    SameMapping(p, q, e, w.i, w.k);
    if Mapped(p, e, w.i, w.k).Some? {
      assert IsPage(p, e, Mapped(p, e, w.i, w.k).value);
    }
  }

  /** In the pages of `d` the two memories hold the same. */
  ghost predicate PagesAgree(p: Phys, q: Phys, r: Phys, d: int)
    requires Shaped(p)
  {
    forall f :: IsPage(p, d, f) ==> f in q && f in r && q[f] == r[f]
  }

  /** A write by `d` to both keeps them agreeing, and a write by the other to one does. */
  lemma PutAgrees(c: Fork, p: Phys, q: Phys, r: Phys, w: Write, child: bool)
    requires Shaped(p) && Shaped(q) && Shaped(r) && Separate(c, p) && WriteOk(w)
    requires TablesKept(p, q, Directory(c, w.child)) && TablesKept(p, r, Directory(c, w.child))
    requires PagesAgree(p, q, r, Directory(c, child))
    ensures var q' := Put(q, Directory(c, w.child), w);
            var r' := if w.child == child then Put(r, Directory(c, w.child), w) else r;
            PagesAgree(p, q', r', Directory(c, child))
  {
    var e := Directory(c, w.child);
    SameMapping(p, q, e, w.i, w.k);
    SameMapping(p, r, e, w.i, w.k);
    if Mapped(p, e, w.i, w.k).Some? {
      assert IsPage(p, e, Mapped(p, e, w.i, w.k).value);
    }
  }

  lemma {:induction false} WritesAgree(c: Fork, p: Phys, q: Phys, r: Phys, ws: seq<Write>, child: bool)
    requires Shaped(p) && Shaped(q) && Shaped(r) && Separate(c, p) && WritesOk(ws)
    requires TablesKept(p, q, c.parent) && TablesKept(p, q, c.child)
    requires TablesKept(p, r, c.parent) && TablesKept(p, r, c.child)
    requires PagesAgree(p, q, r, Directory(c, child))
    ensures var q', r' := PutAll(c, q, ws), PutAll(c, r, Own(ws, child)); var d := Directory(c, child);
            PagesAgree(p, q', r', d) && TablesKept(p, q', d) && TablesKept(p, r', d)
    decreases |ws|
  {
    if ws != [] {
      var w, rest := ws[0], ws[1..];
      var e := Directory(c, w.child);
      PutAgrees(c, p, q, r, w, child);
      PutKeeps(c, p, q, w, c.parent);
      PutKeeps(c, p, q, w, c.child);
      PutKeeps(c, p, r, w, c.parent);
      PutKeeps(c, p, r, w, c.child);
      var own := Own(rest, child);
      if w.child == child {
        assert Own(ws, child) == [w] + own && ([w] + own)[0] == w && ([w] + own)[1..] == own;
        WritesAgree(c, p, Put(q, e, w), Put(r, e, w), rest, child);
        assert PutAll(c, r, [w] + own) == PutAll(c, Put(r, e, w), own);
      } else {
        assert Own(ws, child) == own;
        WritesAgree(c, p, Put(q, e, w), r, rest, child);
      }
      assert PutAll(c, q, ws) == PutAll(c, Put(q, e, w), rest);
    }
  }

  // ---------------------------------------------------------------- after fork

  lemma PageReached(p: Phys, d: int, f: int)
    requires Shaped(p) && d in p && (IsPage(p, d, f) || IsTable(p, d, f))
    ensures Reaches(p, d, f)
  {
    if IsPage(p, d, f) {
      var i, k :| UserPage(i, k) && Mapped(p, d, i, k) == Some(f);
      assert UserFrame(p, d, i, f);
    } else if f != d {
      var i :| 1 <= i < KERNEL && p[d][i].present && p[d][i].frame == f;
      assert UserFrame(p, d, i, f);
    }
  }

  lemma CloneableHeld(p: Phys, used: set<int>, d: int)
    requires Shaped(p) && Cloneable(p, used, d)
    ensures Held(p, d)
  {
    forall f | IsTable(p, d, f) || IsPage(p, d, f) ensures f in p {
      if IsPage(p, d, f) {
        var i, k :| UserPage(i, k) && Mapped(p, d, i, k) == Some(f);
        assert Pages(p, used, p[d][i].frame);
      } else if f != d {
        var i :| 1 <= i < KERNEL && p[d][i].present && p[d][i].frame == f;
        assert Pages(p, used, f);
      }
    }
  }

  lemma ChildTableHidden(c: Fork, p: Phys, used: set<int>, i: int, k: int, j: int)
    requires ForkOk(c) && Shaped(p) && Cloned(c, p, used, KERNEL) && UserPage(i, k) && 1 <= j < KERNEL
    requires Mapped(p, c.child, i, k).Some? && p[c.child][j].present
    ensures Mapped(p, c.child, i, k).value != p[c.child][j].frame && Mapped(p, c.child, i, k).value != c.child
  {
    ChildSlot(c, p, used, i);
    ChildSlot(c, p, used, j);
    var t := p[c.child][i].frame;
    assert SlotApart(p, c.child, i) && SlotCloned(c, p, i);
    assert PageCloned(c, p, c.p[c.p[c.parent][i].frame][k], p[t][k]);
    assert p[t][k].frame in SlotFrames(p, c.child, i) && p[c.child][j].frame in SlotFrames(p, c.child, j);
    if i < j { ChildSlotsApart(c, p, used, i, j); } else if j < i { ChildSlotsApart(c, p, used, j, i); }
  }

  /** The child's tables are hidden from it, whatever the parent's were. */
  lemma ChildTablesHidden(c: Fork, p: Phys, used: set<int>)
    requires ForkOk(c) && Shaped(p) && Cloned(c, p, used, KERNEL)
    ensures TablesHidden(p, c.child)
  {
    forall f | IsPage(p, c.child, f) ensures !IsTable(p, c.child, f) {
      var i, k :| UserPage(i, k) && Mapped(p, c.child, i, k) == Some(f);
      ChildTableHidden(c, p, used, i, k, i);
      forall j | 1 <= j < KERNEL && p[c.child][j].present ensures p[c.child][j].frame != f {
        ChildTableHidden(c, p, used, i, k, j);
      }
    }
  }

  lemma ParentTablesHidden(c: Fork, p: Phys, used: set<int>)
    requires ForkOk(c) && Shaped(p) && Cloned(c, p, used, KERNEL) && TablesHidden(c.p, c.parent)
    ensures c.parent in p && TablesHidden(p, c.parent)
  {
    assert c.parent in c.used && p[c.parent] == c.p[c.parent];
    forall f | IsPage(p, c.parent, f) ensures IsPage(c.p, c.parent, f) {
      var i, k :| UserPage(i, k) && Mapped(p, c.parent, i, k) == Some(f);
      ParentSlot(c, p, used, i);
      assert Mapped(c.p, c.parent, i, k) == Some(f);
    }
    forall f | IsTable(p, c.parent, f) ensures IsTable(c.p, c.parent, f) { }
  }

  lemma ForkSeparates(c: Fork, p: Phys, used: set<int>)
    requires ForkOk(c) && Shaped(p) && Cloned(c, p, used, KERNEL) && TablesHidden(c.p, c.parent)
    ensures Separate(c, p)
  {
    ParentCloneable(c, p, used);
    ChildCloneable(c, p, used);
    CloneableHeld(p, used, c.parent);
    CloneableHeld(p, used, c.child);
    ParentTablesHidden(c, p, used);
    ChildTablesHidden(c, p, used);
    forall f | IsPage(p, c.parent, f) || IsTable(p, c.parent, f) ensures f in c.used {
      PageReached(p, c.parent, f);
      ForkDisjoint(c, p, used, f);
    }
    forall f | IsPage(p, c.child, f) || IsTable(p, c.child, f) ensures f !in c.used {
      PageReached(p, c.child, f);
      ForkDisjoint(c, p, used, f);
    }
  }

  /**
   After fork, for every interleaving of writes by parent and child, each of the two keeps its mapping and finds in
   every user page what its own writes alone would have left there.
   */
  lemma {:induction false} WritesIsolated(c: Fork, p: Phys, used: set<int>, ws: seq<Write>, child: bool, i: int, k: int)
    requires ForkOk(c) && Shaped(p) && Cloned(c, p, used, KERNEL) && TablesHidden(c.p, c.parent)
    requires WritesOk(ws) && UserPage(i, k)
    ensures var q, r, d := PutAll(c, p, ws), PutAll(c, p, Own(ws, child)), Directory(c, child);
            && Mapped(q, d, i, k) == Mapped(p, d, i, k)
            && (Mapped(p, d, i, k).Some? ==> var f := Mapped(p, d, i, k).value; f in q && f in r && q[f] == r[f])
  {
    var d := Directory(c, child);
    ForkSeparates(c, p, used);
    WritesAgree(c, p, p, p, ws, child);
    SameMapping(p, PutAll(c, p, ws), d, i, k);
    if Mapped(p, d, i, k).Some? { assert IsPage(p, d, Mapped(p, d, i, k).value); }
  }
}
