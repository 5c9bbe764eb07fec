/** The page directory operations, each working through virtual addresses of the current directory. */
module MmuModel {
  import opened Common
  import opened PageEntry
  import opened Paging
  import Physical

  /** setAddress and enableFlag(RW | PRESENT | OWNED [| USER]) on an entry. */
  function Bound(e: Entry, frame: int, user: bool): Entry {
    e.(frame := frame, rw := true, present := true, owned := true, user := e.user || user)
  }

  /** What an entry became: its flags were added to those the word had, the rest of the word stayed. */
  predicate Granted(e: Entry, e': Entry, user: bool) {
    e'.present && e'.rw && e'.owned && (e'.user <==> user || e.user) && e'.mid == e.mid && e'.top == e.top
  }

  /** A user-mode read, or write, of a page is allowed: both levels are user and, for a write, both are writable. */
  predicate UserMay(p: Phys, d: int, i: int, k: int, write: bool)
    requires Shaped(p) && 0 <= i < SLOTS && 0 <= k < SLOTS
  {
    Mapped(p, d, i, k).Some? &&
    var e, w := p[d][i], p[p[d][i].frame][k];
    e.user && w.user && (write ==> e.rw && w.rw)
  }

  /** The flags that binding sets, on the word, one bit after the other. */
  function BoundWord(v: int, frame: int, user: bool): int {
    var w := EnableFlag(EnableFlag(EnableFlag(SetAddress(v, frame * 0x1000), PFLAG_RW), PFLAG_PRESENT), PFLAG_OWNED);
    if user then EnableFlag(w, PFLAG_USER) else w
  }

  /** On words, binding is setting the address and the flags. */
  lemma BoundIsWord(e: Entry, frame: int, user: bool)
    requires Fits(e) && 0 <= frame < 0x10_0000
    ensures Encode(Bound(e, frame, user)) == BoundWord(Encode(e), frame, user)
    ensures Granted(e, Bound(e, frame, user), user)
  {
    var a := e.(frame := frame);
    var b := a.(rw := true);
    var c := b.(present := true);
    WordOperations(e, frame);
    WordOperations(a, frame);
    WordOperations(b, frame);
    WordOperations(c, frame);
    WordOperations(c.(owned := true), frame);
  }

  /** Every frame the allocator may hand out is memory. */
  ghost predicate Backed(p: Phys, frames: int) {
    forall f :: Physical.FIRST <= f < frames ==> f in p
  }

  /** The number of the first page of the self-map. */
  const LAST: int := SELF_TABLES / PAGE

  class Mmu {
    var phys: Phys
    /** The frame of the directory in use. */
    var cr3: int
    const pmm: Physical.PhysicalMemoryManager

    constructor (phys: Phys, cr3: int, pmm: Physical.PhysicalMemoryManager)
      ensures this.phys == phys && this.cr3 == cr3 && this.pmm == pmm
    {
      this.phys, this.cr3, this.pmm := phys, cr3, pmm;
    }

    ghost function Used(): set<int>
      reads pmm, pmm.bitmap
    {
      pmm.Used()
    }

    /** Memory is well formed and the current directory maps itself. */
    ghost predicate Ready()
      reads this, pmm, pmm.bitmap
    {
      Shaped(phys) && SelfMapped(phys, cr3) && cr3 in Used() && Backed(phys, pmm.Frames())
    }

    /** Every frame that may be handed out is in use. */
    ghost predicate Exhausted()
      reads pmm, pmm.bitmap
    {
      forall f :: Physical.FIRST <= f < pmm.Frames() ==> f in Used()
    }

    // -------------------------------------------------------------- loads and stores

    method LoadWord(va: int) returns (e: Entry)
      requires Shaped(phys) && 0 <= va < SPACE && Walk(phys, cr3, va).Some? && Walk(phys, cr3, va).value in phys
      ensures 0 <= WordIndex(va) < SLOTS && e == phys[Walk(phys, cr3, va).value][WordIndex(va)]
    {
      IndicesInRange(va);
      e := phys[Walk(phys, cr3, va).value][WordIndex(va)];
    }

    method StoreWord(va: int, e: Entry)
      requires Shaped(phys) && 0 <= va < SPACE && Walk(phys, cr3, va).Some? && Walk(phys, cr3, va).value in phys
      modifies this`phys
      ensures 0 <= WordIndex(va) < SLOTS && Shaped(old(phys))
      ensures var f := Walk(old(phys), cr3, va).value; phys == old(phys)[f := old(phys)[f][WordIndex(va) := e]]
    {
      IndicesInRange(va);
      var f := Walk(phys, cr3, va).value;
      phys := phys[f := phys[f][WordIndex(va) := e]];
    }

    /** memcpy of one page out of, or into, page-aligned virtual memory. */
    method LoadPage(va: int) returns (buffer: Page)
      requires Shaped(phys) && 0 <= va < SPACE && Walk(phys, cr3, va).Some? && Walk(phys, cr3, va).value in phys
      ensures buffer == phys[Walk(phys, cr3, va).value] && |buffer| == SLOTS
    {
      buffer := phys[Walk(phys, cr3, va).value];
    }

    method StorePage(va: int, buffer: Page)
      requires Shaped(phys) && 0 <= va < SPACE && Walk(phys, cr3, va).Some? && |buffer| == SLOTS
      modifies this`phys
      ensures Shaped(old(phys)) && phys == old(phys)[Walk(old(phys), cr3, va).value := buffer]
    {
      phys := phys[Walk(phys, cr3, va).value := buffer];
    }

    // -------------------------------------------------------------- entries, through the self-map

    method ReadEntry(i: int) returns (e: Entry)
      requires Shaped(phys) && SelfMapped(phys, cr3) && 0 <= i < SLOTS
      ensures e == phys[cr3][i]
    {
      SelfMapReaches(phys, cr3, i, 0);
      e := LoadWord(EntryPointer(i));
    }

    method WriteEntry(i: int, e: Entry)
      requires Shaped(phys) && SelfMapped(phys, cr3) && 0 <= i < SLOTS
      modifies this`phys
      ensures phys == old(phys)[cr3 := old(phys)[cr3][i := e]]
    {
      SelfMapReaches(phys, cr3, i, 0);
      StoreWord(EntryPointer(i), e);
    }

    method ReadTable(i: int, k: int) returns (e: Entry)
      requires Shaped(phys) && SelfMapped(phys, cr3) && 0 <= i < SLOTS && 0 <= k < SLOTS
      requires phys[cr3][i].present && phys[cr3][i].frame in phys
      ensures e == phys[phys[cr3][i].frame][k]
    {
      SelfMapReaches(phys, cr3, i, k);
      e := LoadWord(TablePointer(i, k));
    }

    method WriteTable(i: int, k: int, e: Entry)
      requires Shaped(phys) && SelfMapped(phys, cr3) && 0 <= i < SLOTS && 0 <= k < SLOTS
      requires phys[cr3][i].present && phys[cr3][i].frame in phys
      modifies this`phys
      ensures cr3 in old(phys)
      ensures var t := old(phys)[cr3][i].frame; phys == old(phys)[t := old(phys)[t][k := e]]
    {
      SelfMapReaches(phys, cr3, i, k);
      StoreWord(TablePointer(i, k), e);
    }

    // -------------------------------------------------------------- tables and pages

    /** `ok` is false when physical memory has run out, where the kernel panics. */
    method AllocateEntry(i: int, user: bool) returns (ok: bool)
      requires Ready() && 0 <= i < SELF
      modifies this`phys, pmm.bitmap
      ensures Shaped(old(phys)) && SelfMapped(old(phys), cr3)
      ensures ok && old(phys)[cr3][i].present ==> phys == old(phys) && Used() == old(Used())
      ensures ok && !old(phys)[cr3][i].present ==>
                exists t :: t !in old(Used()) && Used() == old(Used()) + {t} &&
                    NewTable(old(phys), phys, cr3, i, t, user)
      ensures ok && !old(phys)[cr3][i].present ==> cr3 in phys && Granted(old(phys)[cr3][i], phys[cr3][i], user)
      ensures ok ==> Ready()
      ensures !ok ==> Exhausted()
    {
      var e := ReadEntry(i);
      if e.present {
        return true;
      }
      var t := pmm.AllocatePhysicalMemory();
      if t == 0 {
        return false;
      }
      WriteEntry(i, Bound(e, t, user));
      ghost var p1 := phys;
      SelfMapReaches(phys, cr3, i, 0);
      StorePage(TablePointer(i, 0), ZeroPage());
      assert NewTable(old(phys), phys, cr3, i, t, user);
      return true;
    }

    /** bindVirtualPage: back a page by a fresh, cleared frame unless it is mapped already. */
    method BindVirtualPage(page: int, user: bool) returns (ok: bool)
      requires Ready() && DirectoryOk(phys, Used(), cr3) && 0 <= page < SELF_TABLES && page % PAGE == 0
      modifies this`phys, pmm.bitmap
      ensures Shaped(old(phys)) && SelfMapped(old(phys), cr3)
      ensures ok ==> Bind(old(phys), phys, old(Used()), Used(), cr3, page)
      ensures 0 <= Pdi(page) < SLOTS && 0 <= Pti(page) < SLOTS
      ensures ok && Walk(old(phys), cr3, page).None? ==> Entered(old(phys), phys, cr3, Pdi(page), Pti(page), user)
      ensures ok ==> Ready() && DirectoryOk(phys, Used(), cr3)
      ensures !ok ==> Exhausted()
    {
      IndicesInRange(page);
      ok := BindAt(page / TABLE_SPAN, (page % TABLE_SPAN) / PAGE, page, user);
    }

    method BindAt(i: int, k: int, page: int, user: bool) returns (ok: bool)
      requires Ready() && DirectoryOk(phys, Used(), cr3) && 0 <= i < SELF && 0 <= k < SLOTS
      requires 0 <= page < SPACE && Pdi(page) == i && Pti(page) == k
      modifies this`phys, pmm.bitmap
      ensures Shaped(old(phys)) && SelfMapped(old(phys), cr3)
      ensures ok ==> Ready() && DirectoryOk(phys, Used(), cr3) && OthersKept(old(phys), phys, cr3, i, k)
      ensures ok ==> ContentsKept(old(phys), phys, old(Used()), cr3, i)
      ensures !ok ==> Exhausted()
      ensures ok && Mapped(old(phys), cr3, i, k).Some? ==> phys == old(phys) && Used() == old(Used())
      ensures ok && Mapped(old(phys), cr3, i, k).None? ==>
                && old(Used()) <= Used() && Mapped(phys, cr3, i, k).Some?
                && var f := Mapped(phys, cr3, i, k).value;
                && f !in old(Used()) && f in Used() && f in phys && phys[f] == ZeroPage()
                && (old(phys)[cr3][i].present ==>
                      Used() == old(Used()) + {f} && NewPage(old(phys), phys, cr3, i, k, f, user))
                && Entered(old(phys), phys, cr3, i, k, user)
    {
      ghost var p0: Phys, used0 := phys, Used();
      ok := AllocateEntry(i, user);
      if !ok {
        return;
      }
      ghost var p1: Phys, used1 := phys, Used();
      if p0[cr3][i].present {
        SameKept(p0, used0, cr3, i);
      } else {
        ghost var t :| t !in used0 && used1 == used0 + {t} && NewTable(p0, p1, cr3, i, t, user);
        NewTableKept(p0, p1, used0, used1, cr3, i, t, user);
        NewTableContents(p0, p1, used0, cr3, i, t, user);
      }
      ok := BindInTable(i, k, page, user);
      if ok && Mapped(p1, cr3, i, k).None? {
        ghost var f :| f !in used1 && Used() == used1 + {f} && Mapped(phys, cr3, i, k) == Some(f)
                       && NewPage(p1, phys, cr3, i, k, f, user);
        BothKept(p0, p1, phys, used0, used1, cr3, i, k, f, user);
      }
    }

    /** The second half: the slot has a table. */
    method BindInTable(i: int, k: int, page: int, user: bool) returns (ok: bool)
      requires Ready() && DirectoryOk(phys, Used(), cr3) && 0 <= i < SELF && 0 <= k < SLOTS && phys[cr3][i].present
      requires 0 <= page < SPACE && Pdi(page) == i && Pti(page) == k
      modifies this`phys, pmm.bitmap
      ensures Shaped(old(phys)) && cr3 in old(phys)
      ensures ok ==> Ready() && DirectoryOk(phys, Used(), cr3) && OthersKept(old(phys), phys, cr3, i, k)
      ensures !ok ==> Exhausted()
      ensures ok && Mapped(old(phys), cr3, i, k).Some? ==> phys == old(phys) && Used() == old(Used())
      ensures ok && Mapped(old(phys), cr3, i, k).None? ==>
                exists f :: f !in old(Used()) && Used() == old(Used()) + {f} && Mapped(phys, cr3, i, k) == Some(f)
                            && NewPage(old(phys), phys, cr3, i, k, f, user)
      ensures ok && Mapped(old(phys), cr3, i, k).None? ==> Entered(old(phys), phys, cr3, i, k, user)
    {
      ghost var p1: Phys, used1 := phys, Used();
      assert TableOk(phys, Used(), cr3, i);
      var e := ReadTable(i, k);
      if e.present {
        return true;
      }
      var f := pmm.AllocatePhysicalMemory();
      if f == 0 {
        return false;
      }
      WriteTable(i, k, Bound(e, f, user));
      StorePage(page, ZeroPage());
      NewPageKept(p1, phys, used1, cr3, i, k, f, user);
      return true;
    }

    /**
     bindFirstFreeVirtualPage: the first unmapped page at or above `from` and below the self-map, now bound, or -1.
     */
    method BindFirstFreeVirtualPage(from: int, user: bool) returns (page: int, ok: bool)
      requires Ready() && DirectoryOk(phys, Used(), cr3) && 0 <= from < SELF_TABLES
      modifies this`phys, pmm.bitmap
      ensures Shaped(old(phys)) && SelfMapped(old(phys), cr3)
      ensures page == -1 <==> forall va :: PageUp(from) <= va < SELF_TABLES ==> Walk(old(phys), cr3, va).Some?
      ensures page == -1 ==> !ok && phys == old(phys) && Used() == old(Used())
      ensures page != -1 ==> from <= page < SELF_TABLES && page % PAGE == 0 && Walk(old(phys), cr3, page).None?
      ensures forall va :: PageUp(from) <= va < page ==> Walk(old(phys), cr3, va).Some?
      ensures !ok ==> page == -1 || Exhausted()
      ensures ok ==> Ready() && DirectoryOk(phys, Used(), cr3) && Bind(old(phys), phys, old(Used()), Used(), cr3, page)
      ensures ok && old(phys)[cr3][Pdi(page)].present ==>
                && 0 <= Pdi(page) < SLOTS && 0 <= Pti(page) < SLOTS && Walk(phys, cr3, page).Some?
                && var f := Walk(phys, cr3, page).value;
                Used() == old(Used()) + {f} && NewPage(old(phys), phys, cr3, Pdi(page), Pti(page), f, user)
      ensures ok ==> && 0 <= Pdi(page) < SLOTS && 0 <= Pti(page) < SLOTS
                     && Entered(old(phys), phys, cr3, Pdi(page), Pti(page), user)
    {
      var start := PageUp(from);
      var n := FirstFree(start);
      if n == LAST {
        return -1, false;
      }
      page := n * PAGE;
      PageNumber(n);
      PageBetween(start, n);
      assert Walk(phys, cr3, page).None?;
      ok := BindAt(page / TABLE_SPAN, (page % TABLE_SPAN) / PAGE, page, user);
    }

    /** The number of the first unmapped page at or above `start`, or that of the first page of the self-map. */
    method FirstFree(start: int) returns (n: int)
      requires Ready() && DirectoryOk(phys, Used(), cr3) && 0 <= start <= SELF_TABLES && start % PAGE == 0
      ensures start / PAGE <= n <= LAST && (n < LAST ==> Mapped(phys, cr3, n / 1024, n % 1024).None?)
      ensures forall va :: start <= va < n * PAGE ==> Walk(phys, cr3, va).Some?
    {
      n := start / PAGE;
      while n < LAST
        invariant start / PAGE <= n <= LAST
        invariant forall va :: start <= va < n * PAGE ==> Walk(phys, cr3, va).Some?
      {
        var i, k := n / 1024, n % 1024;
        PageNumber(n);
        var d := ReadEntry(i);
        if !d.present {
          return;
        }
        assert TableOk(phys, Used(), cr3, i);
        var e := ReadTable(i, k);
        if !e.present {
          return;
        }
        WholePage(phys, cr3, n);
        n := n + 1;
      }
    }

    /** getPhysicalAddress agrees with the walk on every present page. */
    method GetPhysicalAddress(va: int) returns (pa: int)
      requires Shaped(phys) && SelfMapped(phys, cr3) && 0 <= va < SPACE && Walk(phys, cr3, va).Some?
      ensures pa == Walk(phys, cr3, va).value * PAGE + va % PAGE
    {
      IndicesInRange(va);
      var pd := (va / PAGE) / 1024;
      var pt := (va / PAGE) % 1024;
      assert pd == Pdi(va) && pt == Pti(va);
      var e := ReadTable(pd, pt);
      pa := e.frame * PAGE + va % PAGE;
    }

    /**
     unbindVirtualPage: forget the mapping, and give back the frame if the mapping owned it.
     `known` is any set of frames in which the directory's tables are found.
     */
    method UnbindVirtualPage(page: int, ghost known: set<int>)
      requires Shaped(phys) && SelfMapped(phys, cr3) && DirectoryOk(phys, known, cr3) && 0 <= page < SELF_TABLES
      requires Walk(phys, cr3, page).Some? ==> 0 <= Walk(phys, cr3, page).value < pmm.Frames()
      modifies this`phys, pmm.bitmap
      ensures Shaped(old(phys)) && Unbind(old(phys), phys, old(Used()), Used(), cr3, page)
      ensures SelfMapped(phys, cr3)
    {
      IndicesInRange(page);
      var i := page / TABLE_SPAN;
      var k := (page % TABLE_SPAN) / PAGE;
      var d := ReadEntry(i);
      if !d.present {
        return;
      }
      var e := ReadTable(i, k);
      if !e.present {
        return;
      }
      if e.owned {
        pmm.FreePhysicalMemory(e.frame);
      }
      ghost var p: Phys := phys;
      assert TableOk(p, known, cr3, i);
      WriteTable(i, k, Zero);
      UnboundKept(p, phys, known, cr3, i, k);
    }
  }

  lemma UnboundKept(p: Phys, p': Phys, known: set<int>, d: int, i: int, k: int)
    requires Shaped(p) && SelfMapped(p, d) && DirectoryOk(p, known, d) && 0 <= i < SELF && 0 <= k < SLOTS
    requires p[d][i].present && p' == p[p[d][i].frame := p[p[d][i].frame][k := Zero]]
    ensures OthersKept(p, p', d, i, k) && Mapped(p', d, i, k) == None && SelfMapped(p', d)
  {
    assert TableOk(p, known, d, i);
    forall i', k' | 0 <= i' < SELF && 0 <= k' < SLOTS && (i' != i || k' != k)
      ensures SameAccess(p, p', d, i', k')
    {
      if p[d][i'].present {
        assert TableOk(p, known, d, i');
      }
    }
  }

  /** The first page boundary at or above an address. */
  function PageUp(a: int): (r: int)
    ensures a <= r < a + PAGE && r % PAGE == 0 && (a % PAGE == 0 ==> r == a)
  {
    a + (if a % PAGE == 0 then 0 else PAGE - a % PAGE)
  }

  lemma PageBetween(start: int, n: int)
    requires start / PAGE <= n < LAST && start % PAGE == 0
    ensures start <= n * PAGE < SELF_TABLES && (n * PAGE) % PAGE == 0
  {
  }

  lemma PageNumber(n: int)
    requires 0 <= n < SELF_TABLES / PAGE
    ensures 0 <= n * PAGE < SELF_TABLES && Pdi(n * PAGE) == n / 1024 < SELF && Pti(n * PAGE) == n % 1024
  {
    var va := n * PAGE;
    assert va == (n / 1024) * TABLE_SPAN + (n % 1024) * PAGE;
    assert va / TABLE_SPAN == n / 1024;
    assert va % TABLE_SPAN == (n % 1024) * PAGE;
  }

  /** All addresses of a page translate alike. */
  lemma WholePage(p: Phys, d: int, n: int)
    requires Shaped(p) && 0 <= n < SELF_TABLES / PAGE
    ensures forall va :: n * PAGE <= va < n * PAGE + PAGE ==>
        0 <= va < SPACE && Walk(p, d, va) == Mapped(p, d, n / 1024, n % 1024)
  {
    forall va | n * PAGE <= va < n * PAGE + PAGE
      ensures 0 <= va < SPACE && Walk(p, d, va) == Mapped(p, d, n / 1024, n % 1024)
    {
      assert va / TABLE_SPAN == n / 1024 && (va % TABLE_SPAN) / PAGE == n % 1024;
    }
  }

  /** What bindVirtualPage promises of a page: mapped after, fresh and clear if it was not before, others untouched. */
  ghost predicate Bind(p: Phys, p': Phys, used: set<int>, used': set<int>, d: int, page: int)
    requires Shaped(p) && 0 <= page < SPACE
  {
    IndicesInRange(page);
    && OthersKept(p, p', d, Pdi(page), Pti(page)) && ContentsKept(p, p', used, d, Pdi(page))
    && match Walk(p, d, page)
       case Some(_) => p' == p && used' == used
       case None =>
         && used <= used' && Walk(p', d, page).Some?
         && var f := Walk(p', d, page).value; f !in used && f in used' && f in p' && p'[f] == ZeroPage()
  }

  /** What unbindVirtualPage promises of a page. */
  ghost predicate Unbind(p: Phys, p': Phys, used: set<int>, used': set<int>, d: int, page: int)
    requires Shaped(p) && 0 <= page < SPACE
  {
    IndicesInRange(page);
    && OthersKept(p, p', d, Pdi(page), Pti(page)) && Walk(p', d, page) == None
    && match Walk(p, d, page)
       case None => p' == p && used' == used
       case Some(f) =>
         && used' == (if p[p[d][Pdi(page)].frame][Pti(page)].owned then used - {f} else used)
         && var t := p[d][Pdi(page)].frame; p' == p[t := p[t][Pti(page) := Zero]]
  }

  /** Distinct present slots of the directory have distinct tables, all allocated and none the directory itself. */
  ghost predicate DirectoryOk(p: Phys, used: set<int>, d: int)
    requires Shaped(p)
  {
    && d in p
    && (forall i :: 0 <= i < SELF && p[d][i].present ==> TableOk(p, used, d, i))
    && (forall i, j :: 0 <= i < j < SELF && p[d][i].present && p[d][j].present ==> p[d][i].frame != p[d][j].frame)
  }

  ghost predicate TableOk(p: Phys, used: set<int>, d: int, i: int)
    requires Shaped(p) && d in p && 0 <= i < SLOTS
  {
    p[d][i].frame in p && p[d][i].frame in used && p[d][i].frame != d
  }

  /** Frames in use keep their contents, except the directory and the table of slot `i`. */
  ghost predicate ContentsKept(p: Phys, p': Phys, used: set<int>, d: int, i: int)
    requires Shaped(p) && 0 <= i < SLOTS
  {
    forall f :: f in used && f in p && f != d && !(d in p && p[d][i].present && f == p[d][i].frame) ==>
        f in p' && p'[f] == p[f]
  }

  /** Every page other than (i, k) translates as before. */
  ghost predicate OthersKept(p: Phys, p': Phys, d: int, i: int, k: int)
    requires Shaped(p)
  {
    && Shaped(p')
    && forall i', k' :: 0 <= i' < SELF && 0 <= k' < SLOTS && (i' != i || k' != k) ==>
         SameAccess(p, p', d, i', k')
  }

  /** A page translates as before and is as accessible as before. */
  predicate SameAccess(p: Phys, p': Phys, d: int, i: int, k: int)
    requires Shaped(p) && Shaped(p') && 0 <= i < SLOTS && 0 <= k < SLOTS
  {
    && Mapped(p', d, i, k) == Mapped(p, d, i, k)
    && UserMay(p', d, i, k, false) == UserMay(p, d, i, k, false)
    && UserMay(p', d, i, k, true) == UserMay(p, d, i, k, true)
  }

  /**
   The entries of a newly bound page: a table that was there keeps its directory entry, a new one and the page get
   their flags, and a user-mode access is allowed exactly as asked for, if the directory entry allows it.
   */
  ghost predicate Entered(p: Phys, p': Phys, d: int, i: int, k: int, user: bool)
    requires Shaped(p) && 0 <= i < SLOTS && 0 <= k < SLOTS
  {
    && Shaped(p') && d in p && d in p' && p'[d][i].frame in p'
    && (if p[d][i].present then p'[d][i] == p[d][i] else Granted(p[d][i], p'[d][i], user))
    && var e, w := p'[d][i], if p[d][i].present && p[d][i].frame in p then p[p[d][i].frame][k] else Zero;
       && Granted(w, p'[e.frame][k], user)
       && (UserMay(p', d, i, k, false) <==> (user || w.user) && e.user)
       && (UserMay(p', d, i, k, true) <==> (user || w.user) && e.user && e.rw)
  }

  lemma NewTableKept(p: Phys, p': Phys, used: set<int>, used': set<int>, d: int, i: int, t: int, user: bool)
    requires Shaped(p) && DirectoryOk(p, used, d) && 0 <= i < SELF && !p[d][i].present
    requires t !in used && used' == used + {t} && NewTable(p, p', d, i, t, user)
    ensures Shaped(p') && DirectoryOk(p', used', d)
    ensures forall i', k' :: 0 <= i' < SELF && 0 <= k' < SLOTS ==> SameAccess(p, p', d, i', k')
    ensures Granted(p[d][i], p'[d][i], user) && p'[d][i].frame in p' && p'[p'[d][i].frame] == ZeroPage()
  {
    forall i', k' | 0 <= i' < SELF && 0 <= k' < SLOTS ensures SameAccess(p, p', d, i', k') {
      if i' != i && p[d][i'].present {
        assert TableOk(p, used, d, i');
      }
    }
    forall j | 0 <= j < SELF && p'[d][j].present ensures TableOk(p', used', d, j) {
      if j != i {
        assert TableOk(p, used, d, j);
      }
    }
  }

  /** What allocating a table, or finding one, keeps. */
  ghost predicate TableReady(p: Phys, p1: Phys, used: set<int>, d: int, i: int, user: bool)
    requires Shaped(p) && 0 <= i < SELF
  {
    && Shaped(p1) && d in p && d in p1 && p1[d][i].present && p1[d][i].frame in p1
    && (forall i', k' :: 0 <= i' < SELF && 0 <= k' < SLOTS ==> SameAccess(p, p1, d, i', k'))
    && ContentsKept(p, p1, used, d, i)
    && (if p[d][i].present then p1 == p else Granted(p[d][i], p1[d][i], user) && p1[p1[d][i].frame] == ZeroPage())
  }

  lemma SameKept(p: Phys, used: set<int>, d: int, i: int)
    requires Shaped(p) && DirectoryOk(p, used, d) && 0 <= i < SELF && p[d][i].present
    ensures forall user :: TableReady(p, p, used, d, i, user)
  {
    assert TableOk(p, used, d, i);
  }

  lemma NewTableContents(p: Phys, p': Phys, used: set<int>, d: int, i: int, t: int, user: bool)
    requires Shaped(p) && DirectoryOk(p, used, d) && 0 <= i < SELF && !p[d][i].present
    requires t !in used && NewTable(p, p', d, i, t, user)
    ensures TableReady(p, p', used, d, i, user)
  {
    NewTableKept(p, p', used, used + {t}, d, i, t, user);
  }

  /** The table, if need be, and then the page. */
  lemma BothKept(p: Phys, p1: Phys, p': Phys, used: set<int>, used1: set<int>, d: int, i: int, k: int, f: int,
      user: bool)
    requires Shaped(p) && 0 <= i < SELF && 0 <= k < SLOTS && used <= used1 && d in used1
    requires TableReady(p, p1, used, d, i, user) && DirectoryOk(p1, used1, d)
    requires f !in used1 && NewPage(p1, p', d, i, k, f, user)
    requires !p[d][i].present ==> p1[d][i].frame !in used
    ensures OthersKept(p, p', d, i, k) && ContentsKept(p, p', used, d, i) && Entered(p, p', d, i, k, user)
  {
    NewPageKept(p1, p', used1, d, i, k, f, user);
    forall i', k' | 0 <= i' < SELF && 0 <= k' < SLOTS && (i' != i || k' != k) ensures SameAccess(p, p', d, i', k') {
      assert SameAccess(p, p1, d, i', k') && SameAccess(p1, p', d, i', k');
    }
  }

  /** Exactly two frames changed: one entry of the slot's table, and the frame it now maps, which was cleared. */
  ghost predicate NewPage(p: Phys, p': Phys, d: int, i: int, k: int, f: int, user: bool)
    requires Shaped(p) && d in p && 0 <= i < SLOTS && 0 <= k < SLOTS
  {
    var t := p[d][i].frame;
    t in p && f in p && p' == p[t := p[t][k := Bound(p[t][k], f, user)]][f := ZeroPage()]
  }

  lemma NewPageKept(p: Phys, p': Phys, used: set<int>, d: int, i: int, k: int, f: int, user: bool)
    requires Shaped(p) && DirectoryOk(p, used, d) && d in used && 0 <= i < SELF && 0 <= k < SLOTS && p[d][i].present
    requires f !in used && f in p
    requires NewPage(p, p', d, i, k, f, user)
    ensures Shaped(p') && DirectoryOk(p', used + {f}, d) && OthersKept(p, p', d, i, k)
    ensures Mapped(p', d, i, k) == Some(f) && p'[f] == ZeroPage() && (d in p && p'[d] == p[d])
    ensures Entered(p, p', d, i, k, user)
  {
    assert TableOk(p, used, d, i);
    forall i', k' | 0 <= i' < SELF && 0 <= k' < SLOTS && (i' != i || k' != k)
      ensures SameAccess(p, p', d, i', k')
    {
      if p[d][i'].present {
        assert TableOk(p, used, d, i');
      }
    }
    forall j | 0 <= j < SELF && p'[d][j].present ensures TableOk(p', used + {f}, d, j) {
      assert TableOk(p, used, d, j);
    }
  }

  /** The directory gained one slot, whose table is the frame `t`, and exactly that frame was cleared. */
  ghost predicate NewTable(p: Phys, p': Phys, d: int, i: int, t: int, user: bool)
    requires Shaped(p) && d in p && 0 <= i < SLOTS
  {
    && t in p && t != d
    && p' == p[d := p[d][i := Bound(p[d][i], t, user)]][t := ZeroPage()]
  }
}
