/**
 Two-level 32-bit paging over physical memory, as in section 4.3 of the Intel SDM, volume 3A, with the
 directory mapped into its own last slot. All editing of tables goes through virtual addresses.
 */
module Paging {
  import opened Common
  import opened PageEntry

  const SLOTS: int := 1024
  /** User space is below slot 768; the kernel's slots end before the self-map. */
  const KERNEL: int := 768
  const SELF: int := 1023
  const TABLE_SPAN: int := 0x40_0000
  const SELF_TABLES: int := 0xFFC0_0000
  const SELF_DIRECTORY: int := 0xFFFF_F000
  const SPACE: int := 0x1_0000_0000

  /** A frame of memory as 1024 words. */
  type Page = seq<Entry>

  type Phys = map<int, Page>

  ghost predicate Shaped(p: Phys) {
    forall f :: f in p ==> |p[f]| == SLOTS
  }

  function ZeroPage(): (z: Page)
    ensures |z| == SLOTS && forall k :: 0 <= k < SLOTS ==> z[k] == Zero
  {
    seq(SLOTS, _ => Zero)
  }

  // ---------------------------------------------------------------- the hardware walk

  function Pdi(va: int): int { va / TABLE_SPAN }
  function Pti(va: int): int { (va % TABLE_SPAN) / PAGE }
  function WordIndex(va: int): int { (va % PAGE) / 4 }

  lemma IndicesInRange(va: int)
    requires 0 <= va < SPACE
    ensures 0 <= Pdi(va) < SLOTS && 0 <= Pti(va) < SLOTS && 0 <= WordIndex(va) < SLOTS
  {
  }

  /** The frame that slot `i`, entry `k` of directory `d` maps, if both levels are present. */
  function Mapped(p: Phys, d: int, i: int, k: int): Option<int>
    requires Shaped(p) && 0 <= i < SLOTS && 0 <= k < SLOTS
  {
    if d in p && p[d][i].present && p[d][i].frame in p && p[p[d][i].frame][k].present
    then Some(p[p[d][i].frame][k].frame) else None
  }

  /** The frame a virtual address translates to under directory `d`. */
  function Walk(p: Phys, d: int, va: int): Option<int>
    requires Shaped(p) && 0 <= va < SPACE
  {
    IndicesInRange(va);
    Mapped(p, d, Pdi(va), Pti(va))
  }

  // ---------------------------------------------------------------- the self-map

  /** getReadableTablePointer */
  function TablePointer(i: int, k: int): int { SELF_TABLES + 4 * (i * 1024 + k) }

  /** getReadableEntryPointer */
  function EntryPointer(i: int): int { SELF_DIRECTORY + 4 * i }

  /** The address of page `k` of slot `i`. */
  function PageAddress(i: int, k: int): int { i * TABLE_SPAN + k * PAGE }

  ghost predicate SelfMapped(p: Phys, d: int)
    requires Shaped(p)
  {
    d in p && p[d][SELF].present && p[d][SELF].frame == d
  }

  lemma TablePointerIndices(i: int, k: int)
    requires 0 <= i < SLOTS && 0 <= k < SLOTS
    ensures 0 <= TablePointer(i, k) < SPACE
    ensures Pdi(TablePointer(i, k)) == SELF && Pti(TablePointer(i, k)) == i && WordIndex(TablePointer(i, k)) == k
  {
    var va := TablePointer(i, k);
    assert va == SELF * TABLE_SPAN + i * PAGE + 4 * k;
    assert va / TABLE_SPAN == SELF;
    assert va % TABLE_SPAN == i * PAGE + 4 * k;
    assert (i * PAGE + 4 * k) / PAGE == i;
    assert va % PAGE == 4 * k;
  }

  lemma PageAddressIndices(i: int, k: int)
    requires 0 <= i < SLOTS && 0 <= k < SLOTS
    ensures 0 <= PageAddress(i, k) < SPACE && PageAddress(i, k) % PAGE == 0
    ensures Pdi(PageAddress(i, k)) == i && Pti(PageAddress(i, k)) == k
  {
    var va := PageAddress(i, k);
    assert va / TABLE_SPAN == i;
    assert va % TABLE_SPAN == k * PAGE;
  }

  /** The address formed for (i, k) is entry k of table i; for i alone, entry i of the directory. */
  lemma SelfMapReaches(p: Phys, d: int, i: int, k: int)
    requires Shaped(p) && SelfMapped(p, d) && 0 <= i < SLOTS && 0 <= k < SLOTS
    ensures 0 <= TablePointer(i, k) < SPACE && 0 <= EntryPointer(i) < SPACE
    ensures Walk(p, d, TablePointer(i, k)) == (if p[d][i].present then Some(p[d][i].frame) else None)
    ensures WordIndex(TablePointer(i, k)) == k
    ensures Walk(p, d, EntryPointer(i)) == Some(d) && WordIndex(EntryPointer(i)) == i
  {
    TablePointerIndices(i, k);
    TablePointerIndices(SELF, i);
    assert EntryPointer(i) == TablePointer(SELF, i);
  }
}
