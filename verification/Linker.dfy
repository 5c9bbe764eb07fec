/**
 The relocations of the ELF linker, and its global offset table.
 Addresses and words are 32 bits wide; arithmetic on them is modulo 2^32.
 */
module Linker {
  import opened Common

  const W: int := 0x1_0000_0000
  const GOT_SIZE: int := 4096

  function Mod(x: int): (r: int)
    ensures 0 <= r < W
  {
    x % W
  }

  /** A symbol: section zero means it is looked up by name among the kernel's symbols. */
  datatype Symbol = Symbol(name: string, section: int, value: int)

  /** The object file in memory, the kernel's symbols, and the address of the global offset table. */
  datatype Image = Image(base: int, sections: seq<int>, symbols: seq<Symbol>, kernel: map<string, int>, got: int)

  /** A relocation entry: the address of the word to patch, the symbol's index and the type. */
  datatype Rel = Rel(site: int, symbol: int, kind: int)

  const R_NONE: int := 0
  const R_32: int := 1
  const R_PC32: int := 2
  const R_GOT32: int := 3
  const R_PLT32: int := 4
  const R_GOTOFF: int := 9
  const R_GOTPC: int := 10

  /**
   The linker's state. Slot `k + 1` of the table was made for the symbol `slots[k]`; `index` is the map from names
   to slots.
   */
  datatype Link = Link(mem: map<int, int>, table: seq<int>, count: int, index: map<string, int>, slots: seq<int>)

  /** What the linker takes for granted about a relocation. */
  ghost predicate RelOk(img: Image, mem: map<int, int>, r: Rel) {
    0 <= r.symbol && (r.symbol == 0 || r.symbol < |img.symbols|) && r.site in mem && 0 <= r.kind < 256
  }

  function SymbolValue(img: Image, i: int): Option<int>
    requires 0 <= i < |img.symbols|
  {
    var s := img.symbols[i];
    if s.section == 0 then if s.name in img.kernel then Some(Mod(img.kernel[s.name])) else None
    else if 0 <= s.section < |img.sections| then Some(Mod(img.base + img.sections[s.section] + s.value))
    else None
  }

  function Patch(l: Link, site: int, v: int): Link { l.(mem := l.mem[site := Mod(v)]) }

  /** The slot of a symbol's name, made for it if there is none. */
  function Slot(img: Image, l: Link, i: int, v: int): (Link, int)
    requires 0 <= i < |img.symbols| && 0 <= l.count + 1 < |l.table|
  {
    var name := img.symbols[i].name;
    if name !in l.index || l.index[name] == 0 then
      (l.(count := l.count + 1, table := l.table[l.count + 1 := v],
          index := l.index[name := l.count + 1], slots := l.slots + [i]), l.count + 1)
    else (l, l.index[name])
  }

  /** relocate_entry; nothing on failure. */
  function Relocate(img: Image, l: Link, r: Rel): Option<Link>
    requires RelOk(img, l.mem, r) && |l.table| == GOT_SIZE && 0 <= l.count
  {
    if r.symbol == 0 then Some(l)
    else
      var a := l.mem[r.site];
      if r.kind == R_GOTPC then Some(Patch(l, r.site, img.got + a - r.site))
      else if SymbolValue(img, r.symbol).None? then None
      else
        var s := SymbolValue(img, r.symbol).value;
        if r.kind == R_NONE then Some(l)
        else if r.kind == R_32 then Some(Patch(l, r.site, s + a))
        else if r.kind == R_PC32 || r.kind == R_PLT32 then Some(Patch(l, r.site, s + a - r.site))
        else if r.kind == R_GOTOFF then Some(Patch(l, r.site, s + a - img.got))
        else if r.kind == R_GOT32 then
          if l.count + 1 >= GOT_SIZE then None
          else
            var p := Slot(img, l, r.symbol, s);
            Some(Patch(p.0, r.site, p.1 * 4 + a))
        else None
  }

  // ---------------------------------------------------------------- the table

  ghost predicate SlotOk(img: Image, l: Link, k: int)
    requires 0 <= k < |l.slots| && |l.slots| < |l.table|
  {
    && 0 <= l.slots[k] < |img.symbols|
    && SymbolValue(img, l.slots[k]) == Some(l.table[k + 1])
    && img.symbols[l.slots[k]].name in l.index && l.index[img.symbols[l.slots[k]].name] == k + 1
  }

  ghost predicate NameOk(img: Image, l: Link, name: string)
    requires name in l.index
  {
    1 <= l.index[name] <= |l.slots| && 0 <= l.slots[l.index[name] - 1] < |img.symbols|
    && img.symbols[l.slots[l.index[name] - 1]].name == name
  }

  /** Slots 1 to `count` and the names in the index are in one-to-one correspondence. */
  ghost predicate TableOk(img: Image, l: Link) {
    && |l.table| == GOT_SIZE && l.count == |l.slots| < GOT_SIZE
    && (forall k :: 0 <= k < |l.slots| ==> SlotOk(img, l, k))
    && (forall name :: name in l.index ==> NameOk(img, l, name))
  }

  /** Slots that exist keep their place and value. */
  ghost predicate TableKept(l: Link, l': Link) {
    && l.slots <= l'.slots && |l.slots| < |l.table| == |l'.table|
    && (forall k :: 1 <= k <= |l.slots| ==> l'.table[k] == l.table[k])
    && (forall name :: name in l.index ==> name in l'.index && l'.index[name] == l.index[name])
  }

  lemma TableKeptTrans(a: Link, b: Link, c: Link)
    requires TableKept(a, b) && TableKept(b, c)
    ensures TableKept(a, c)
  {
    assert forall k :: 1 <= k <= |a.slots| ==> b.table[k] == a.table[k] && c.table[k] == b.table[k];
  }

  lemma SlotKeeps(img: Image, l: Link, i: int)
    requires TableOk(img, l) && 0 <= i < |img.symbols| && l.count + 1 < GOT_SIZE && SymbolValue(img, i).Some?
    ensures var p := Slot(img, l, i, SymbolValue(img, i).value);
      && TableOk(img, p.0) && TableKept(l, p.0) && p.0.mem == l.mem
      && img.symbols[i].name in p.0.index && p.0.index[img.symbols[i].name] == p.1 && 1 <= p.1 <= |p.0.slots|
  {
    var name := img.symbols[i].name;
    if name in l.index {
      assert NameOk(img, l, name);
    } else {
      var l' := Slot(img, l, i, SymbolValue(img, i).value).0;
      forall k | 0 <= k < |l'.slots| ensures SlotOk(img, l', k) {
        if k < |l.slots| { assert SlotOk(img, l, k); }
      }
      forall n | n in l'.index ensures NameOk(img, l', n) {
        if n != name { assert NameOk(img, l, n); }
      }
    }
  }

  lemma PatchKeeps(img: Image, l: Link, site: int, v: int)
    requires TableOk(img, l)
    ensures TableOk(img, Patch(l, site, v)) && TableKept(l, Patch(l, site, v))
  {
    var l' := Patch(l, site, v);
    forall k | 0 <= k < |l'.slots| ensures SlotOk(img, l', k) { assert SlotOk(img, l, k); }
    forall n | n in l'.index ensures NameOk(img, l', n) { assert NameOk(img, l, n); }
  }

  // ---------------------------------------------------------------- what a patched word means

  /** The final word at a relocation's site, in terms of the word `a` that was there. */
  ghost predicate Patched(img: Image, r: Rel, a: int, l: Link)
    requires RelOk(img, l.mem, r)
  {
    var w := l.mem[r.site];
    if r.symbol == 0 || r.kind == R_NONE then w == a
    else if r.kind == R_GOTPC then w == Mod(img.got + a - r.site)
    else if r.kind == R_GOT32 then
      && img.symbols[r.symbol].name in l.index
      && w == Mod(l.index[img.symbols[r.symbol].name] * 4 + a)
    else
      && SymbolValue(img, r.symbol).Some?
      && var s := SymbolValue(img, r.symbol).value;
         w == (if r.kind == R_32 then Mod(s + a)
               else if r.kind == R_GOTOFF then Mod(s + a - img.got)
               else Mod(s + a - r.site))
  }

  /** One relocation patches its own word and nothing else, and keeps the table in order. */
  lemma RelocateOne(img: Image, l: Link, r: Rel)
    requires TableOk(img, l) && RelOk(img, l.mem, r) && Relocate(img, l, r).Some?
    ensures var l' := Relocate(img, l, r).value;
      && TableOk(img, l') && TableKept(l, l')
      && l'.mem.Keys == l.mem.Keys && (forall x :: x in l.mem && x != r.site ==> l'.mem[x] == l.mem[x])
      && Patched(img, r, l.mem[r.site], l')
  {
    if r.symbol != 0 {
      var a := l.mem[r.site];
      if r.kind == R_GOT32 {
        RelocateSlot(img, l, r);
      } else {
        PatchKeeps(img, l, r.site, Relocate(img, l, r).value.mem[r.site]);
      }
    }
  }

  lemma RelocateSlot(img: Image, l: Link, r: Rel)
    requires TableOk(img, l) && RelOk(img, l.mem, r) && Relocate(img, l, r).Some? && r.symbol != 0 && r.kind == R_GOT32
    ensures var l' := Relocate(img, l, r).value;
      && TableOk(img, l') && TableKept(l, l')
      && l'.mem.Keys == l.mem.Keys && (forall x :: x in l.mem && x != r.site ==> l'.mem[x] == l.mem[x])
      && Patched(img, r, l.mem[r.site], l')
  {
    SlotKeeps(img, l, r.symbol);
    var p := Slot(img, l, r.symbol, SymbolValue(img, r.symbol).value);
    var v := p.1 * 4 + l.mem[r.site];
    PatchKeeps(img, p.0, r.site, v);
    TableKeptTrans(l, p.0, Patch(p.0, r.site, v));
  }

  // ---------------------------------------------------------------- a whole section

  ghost predicate RelsOk(img: Image, mem: map<int, int>, rels: seq<Rel>) {
    forall i :: 0 <= i < |rels| ==> RelOk(img, mem, rels[i])
  }

  /** relocate_section, from the `n`-th entry on. */
  ghost function RelocateFrom(img: Image, l: Link, rels: seq<Rel>, n: nat): Option<Link>
    requires n <= |rels| && TableOk(img, l) && RelsOk(img, l.mem, rels)
    decreases |rels| - n
  {
    if n == |rels| then Some(l)
    else
      var r := Relocate(img, l, rels[n]);
      if r.None? then None
      else
        RelocateOne(img, l, rels[n]);
        RelocateFrom(img, r.value, rels, n + 1)
  }

  ghost predicate DistinctSites(rels: seq<Rel>) { forall i, j :: 0 <= i < j < |rels| ==> rels[i].site != rels[j].site }

  /** A patched word stays right while other words are patched and slots are added. */
  lemma PatchedKept(img: Image, r: Rel, a: int, l: Link, l': Link)
    requires RelOk(img, l.mem, r) && RelOk(img, l'.mem, r) && Patched(img, r, a, l)
    requires l'.mem[r.site] == l.mem[r.site] && TableKept(l, l')
    ensures Patched(img, r, a, l')
  {
  }

  lemma {:induction false} RelocateRest(img: Image, l: Link, rels: seq<Rel>, n: nat)
    requires n <= |rels| && TableOk(img, l) && RelsOk(img, l.mem, rels) && DistinctSites(rels)
    requires RelocateFrom(img, l, rels, n).Some?
    ensures var l' := RelocateFrom(img, l, rels, n).value;
      && TableOk(img, l') && TableKept(l, l') && l'.mem.Keys == l.mem.Keys
      && (forall x :: x in l.mem && (forall i :: n <= i < |rels| ==> rels[i].site != x) ==> l'.mem[x] == l.mem[x])
      && (forall i :: n <= i < |rels| ==> RelOk(img, l'.mem, rels[i]) && Patched(img, rels[i], l.mem[rels[i].site], l'))
    decreases |rels| - n
  {
    if n < |rels| {
      RelocateOne(img, l, rels[n]);
      var m := Relocate(img, l, rels[n]).value;
      RelocateRest(img, m, rels, n + 1);
      var l' := RelocateFrom(img, l, rels, n).value;
      TableKeptTrans(l, m, l');
      forall i | n <= i < |rels|
        ensures RelOk(img, l'.mem, rels[i]) && Patched(img, rels[i], l.mem[rels[i].site], l')
      {
        assert RelOk(img, m.mem, rels[i]);
        if i == n {
          assert forall j :: n + 1 <= j < |rels| ==> rels[j].site != rels[n].site;
          PatchedKept(img, rels[n], l.mem[rels[n].site], m, l');
        }
      }
    }
  }

  /**
   After a section is relocated without failure, every site holds the value its relocation calls for, computed from
   the word that was there, and the table's slots and names are in one-to-one correspondence.
   */
  lemma {:induction false} SectionRelocated(img: Image, l: Link, rels: seq<Rel>)
    requires TableOk(img, l) && RelsOk(img, l.mem, rels) && DistinctSites(rels)
    requires RelocateFrom(img, l, rels, 0).Some?
    ensures var l' := RelocateFrom(img, l, rels, 0).value;
      && TableOk(img, l') && TableKept(l, l')
      && (forall i :: 0 <= i < |rels| ==> RelOk(img, l'.mem, rels[i]) && Patched(img, rels[i], l.mem[rels[i].site], l'))
  {
    RelocateRest(img, l, rels, 0);
  }

  // ---------------------------------------------------------------- where a symbol is

  /** No value for a symbol: an undefined one that the kernel does not have, or one of a section that is not there. */
  predicate Unresolved(img: Image, s: Symbol) {
    if s.section == 0 then s.name !in img.kernel else !(0 <= s.section < |img.sections|)
  }

  predicate Handled(kind: int) { kind in {R_NONE, R_32, R_PC32, R_GOT32, R_PLT32, R_GOTOFF, R_GOTPC} }

  /** Exactly when a relocation fails. One with no symbol never does, and one of the table's own address needs none. */
  lemma RelocateFailsIff(img: Image, l: Link, r: Rel)
    requires RelOk(img, l.mem, r) && |l.table| == GOT_SIZE && 0 <= l.count
    ensures Relocate(img, l, r).None? <==>
      && r.symbol != 0 && r.kind != R_GOTPC
      && (Unresolved(img, img.symbols[r.symbol]) || !Handled(r.kind) || (r.kind == R_GOT32 && l.count + 1 >= GOT_SIZE))
  {
  }

  /** What a relocation's word is made relative to. */
  function Origin(img: Image, r: Rel): int {
    if r.kind == R_PC32 || r.kind == R_PLT32 then r.site else if r.kind == R_GOTOFF then img.got else 0
  }

  predicate WordKind(kind: int) { kind in {R_32, R_PC32, R_PLT32, R_GOTOFF} }

  /** Against a symbol of a section: where the file is in memory, plus the section in it, plus the symbol in that. */
  lemma SectionWord(img: Image, l: Link, r: Rel)
    requires RelOk(img, l.mem, r) && |l.table| == GOT_SIZE && 0 <= l.count && r.symbol != 0 && WordKind(r.kind)
    requires 0 < img.symbols[r.symbol].section < |img.sections|
    ensures var s, a := img.symbols[r.symbol], l.mem[r.site];
      && Relocate(img, l, r).Some?
      && Relocate(img, l, r).value.mem[r.site]
         == Mod(a + img.base + img.sections[s.section] + s.value - Origin(img, r))
  {
    var s, a := img.symbols[r.symbol], l.mem[r.site];
    ModSum(img.base + img.sections[s.section] + s.value, a - Origin(img, r));
  }

  /** Against an undefined symbol: what the kernel has under its name. */
  lemma KernelWord(img: Image, l: Link, r: Rel)
    requires RelOk(img, l.mem, r) && |l.table| == GOT_SIZE && 0 <= l.count && r.symbol != 0 && WordKind(r.kind)
    requires img.symbols[r.symbol].section == 0
    ensures var s, a := img.symbols[r.symbol], l.mem[r.site];
      && (Relocate(img, l, r).None? <==> s.name !in img.kernel)
      && (s.name in img.kernel ==>
            Relocate(img, l, r).value.mem[r.site] == Mod(a + img.kernel[s.name] - Origin(img, r)))
  {
    var s, a := img.symbols[r.symbol], l.mem[r.site];
    if s.name in img.kernel { ModSum(img.kernel[s.name], a - Origin(img, r)); }
  }

  /** The slot that a load makes holds the symbol's address. */
  lemma SlotAddress(img: Image, l: Link, r: Rel)
    requires TableOk(img, l) && RelOk(img, l.mem, r) && r.symbol != 0 && r.kind == R_GOT32 && l.count + 1 < GOT_SIZE
    requires !Unresolved(img, img.symbols[r.symbol]) && img.symbols[r.symbol].name !in l.index
    ensures var s, r' := img.symbols[r.symbol], Relocate(img, l, r);
      && r'.Some? && r'.value.count == l.count + 1 && |r'.value.table| == GOT_SIZE
      && r'.value.table[l.count + 1]
         == Mod(if s.section == 0 then img.kernel[s.name] else img.base + img.sections[s.section] + s.value)
      && r'.value.mem[r.site] == Mod(l.mem[r.site] + 4 * (l.count + 1))
  {
  }

  // ---------------------------------------------------------------- moving a section

  function MoveSection(img: Image, k: int, d: int): Image
    requires 0 <= k < |img.sections|
  {
    img.(sections := img.sections[k := img.sections[k] + d])
  }

  predicate SymbolOk(img: Image, r: Rel) { 0 <= r.symbol && (r.symbol == 0 || r.symbol < |img.symbols|) }

  /** The relocation's word holds an address, or a distance to one, in section `k`. */
  predicate Follows(img: Image, k: int, r: Rel)
    requires SymbolOk(img, r)
  {
    r.symbol != 0 && WordKind(r.kind) && img.symbols[r.symbol].section == k
  }

  /** The same slots for the same names. */
  ghost predicate SameSlots(l: Link, l': Link) { l'.count == l.count && l'.index == l.index && l'.slots == l.slots }

  lemma MovedWord(img: Image, k: int, d: int, l: Link, l': Link, r: Rel)
    requires 0 < k < |img.sections| && TableOk(img, l) && TableOk(MoveSection(img, k, d), l') && SameSlots(l, l')
    requires RelOk(img, l.mem, r) && RelOk(img, l'.mem, r) && l'.mem[r.site] == l.mem[r.site]
    ensures var m, m' := Relocate(img, l, r), Relocate(MoveSection(img, k, d), l', r);
      && (m.Some? <==> m'.Some?)
      && (m.Some? ==>
            && SameSlots(m.value, m'.value) && r.site in m.value.mem && r.site in m'.value.mem
            && m'.value.mem[r.site] == if Follows(img, k, r) then Mod(m.value.mem[r.site] + d) else m.value.mem[r.site])
  {
    var img' := MoveSection(img, k, d);
    RelocateFailsIff(img, l, r);
    RelocateFailsIff(img', l', r);
    if r.symbol != 0 && WordKind(r.kind) && !Unresolved(img, img.symbols[r.symbol]) {
      if img.symbols[r.symbol].section == 0 {
        KernelWord(img, l, r);
        KernelWord(img', l', r);
      } else {
        SectionWord(img, l, r);
        SectionWord(img', l', r);
        var s := img.symbols[r.symbol];
        ModSum(l.mem[r.site] + img.base + img.sections[s.section] + s.value - Origin(img, r), d);
      }
    }
  }

  /** Some relocation below the `n`-th holds an address in section `k` at this site. */
  ghost predicate FollowsAt(img: Image, k: int, rels: seq<Rel>, n: int, x: int)
    requires forall i :: 0 <= i < |rels| ==> SymbolOk(img, rels[i])
  {
    exists i :: 0 <= i < n && i < |rels| && rels[i].site == x && Follows(img, k, rels[i])
  }

  /** After the first `n` relocations, exactly the words that follow the section differ, and by `d`. */
  ghost predicate MovedBelow(img: Image, k: int, d: int, rels: seq<Rel>, n: int, l: Link, l': Link)
    requires RelsOk(img, l.mem, rels)
  {
    && SameSlots(l, l') && l'.mem.Keys == l.mem.Keys
    && forall x :: x in l.mem ==>
         l'.mem[x] == if FollowsAt(img, k, rels, n, x) then Mod(l.mem[x] + d) else l.mem[x]
  }

  lemma MovedNext(img: Image, k: int, d: int, rels: seq<Rel>, n: nat, l: Link, l': Link)
    requires 0 < k < |img.sections| && TableOk(img, l) && TableOk(MoveSection(img, k, d), l') && n < |rels|
    requires RelsOk(img, l.mem, rels) && RelsOk(MoveSection(img, k, d), l'.mem, rels) && DistinctSites(rels)
    requires MovedBelow(img, k, d, rels, n, l, l')
    ensures var m, m' := Relocate(img, l, rels[n]), Relocate(MoveSection(img, k, d), l', rels[n]);
      && (m.Some? <==> m'.Some?)
      && (m.Some? ==> RelsOk(img, m.value.mem, rels) && MovedBelow(img, k, d, rels, n + 1, m.value, m'.value))
  {
    var r, img' := rels[n], MoveSection(img, k, d);
    assert !FollowsAt(img, k, rels, n, r.site);
    MovedWord(img, k, d, l, l', r);
    var m, m' := Relocate(img, l, r), Relocate(img', l', r);
    if m.Some? {
      RelocateOne(img, l, r);
      RelocateOne(img', l', r);
      forall x | x in m.value.mem
        ensures m'.value.mem[x] == if FollowsAt(img, k, rels, n + 1, x) then Mod(m.value.mem[x] + d) else m.value.mem[x]
      {
        FollowsNext(img, k, rels, n, x);
      }
    }
  }

  lemma FollowsNext(img: Image, k: int, rels: seq<Rel>, n: nat, x: int)
    requires forall i :: 0 <= i < |rels| ==> SymbolOk(img, rels[i])
    requires n < |rels|
    ensures FollowsAt(img, k, rels, n + 1, x) <==>
      FollowsAt(img, k, rels, n, x) || (rels[n].site == x && Follows(img, k, rels[n]))
  {
    if rels[n].site == x && Follows(img, k, rels[n]) { assert rels[n].site == x; }
  }

  lemma {:induction false} MovedRest(img: Image, k: int, d: int, rels: seq<Rel>, n: nat, l: Link, l': Link)
    requires 0 < k < |img.sections| && TableOk(img, l) && TableOk(MoveSection(img, k, d), l') && n <= |rels|
    requires RelsOk(img, l.mem, rels) && RelsOk(MoveSection(img, k, d), l'.mem, rels) && DistinctSites(rels)
    requires MovedBelow(img, k, d, rels, n, l, l')
    ensures var m, m' := RelocateFrom(img, l, rels, n), RelocateFrom(MoveSection(img, k, d), l', rels, n);
      && (m.Some? <==> m'.Some?)
      && (m.Some? ==> RelsOk(img, m.value.mem, rels) && MovedBelow(img, k, d, rels, |rels|, m.value, m'.value))
    decreases |rels| - n
  {
    if n < |rels| {
      MovedNext(img, k, d, rels, n, l, l');
      var m, m' := Relocate(img, l, rels[n]), Relocate(MoveSection(img, k, d), l', rels[n]);
      if m.Some? {
        RelocateOne(img, l, rels[n]);
        RelocateOne(MoveSection(img, k, d), l', rels[n]);
        MovedRest(img, k, d, rels, n + 1, m.value, m'.value);
      }
    }
  }

  /**
   A file whose section `k` lies `d` bytes further on is relocated exactly if the other is, to the same slots, and
   exactly the words for symbols of that section differ: by `d`.
   */
  lemma {:induction false} SectionMoves(img: Image, k: int, d: int, l: Link, rels: seq<Rel>)
    requires 0 < k < |img.sections| && TableOk(img, l) && l.slots == []
    requires RelsOk(img, l.mem, rels) && DistinctSites(rels)
    ensures RelsOk(MoveSection(img, k, d), l.mem, rels) && TableOk(MoveSection(img, k, d), l)
    ensures var m, m' := RelocateFrom(img, l, rels, 0), RelocateFrom(MoveSection(img, k, d), l, rels, 0);
      && (m.Some? <==> m'.Some?)
      && (m.Some? ==> RelsOk(img, m.value.mem, rels) && MovedBelow(img, k, d, rels, |rels|, m.value, m'.value))
  {
    forall name: string ensures name !in l.index { assert name in l.index ==> NameOk(img, l, name); }
    forall i | 0 <= i < |rels| ensures RelOk(MoveSection(img, k, d), l.mem, rels[i]) {
      assert RelOk(img, l.mem, rels[i]);
    }
    MovedRest(img, k, d, rels, 0, l, l);
  }

  // ------------------------------------------------------------ position-independent code agrees with direct addresses

  lemma ModSum(x: int, y: int)
    ensures Mod(Mod(x) + y) == Mod(x + y)
    ensures Mod(y + Mod(x)) == Mod(x + y)
  {
  }

  /**
   A GOTPC word with addend `b` is added to the address `b` before its own, as code does that first fetched the program
   counter: that gives the table's address, and adding a GOTOFF word to it gives what a direct R_386_32 with the same
   symbol and addend holds.
   */
  lemma OffsetReaches(img: Image, l: Link, pc: Rel, b: int, off: Rel, direct: Rel, a: int)
    requires RelOk(img, l.mem, pc) && RelOk(img, l.mem, off) && RelOk(img, l.mem, direct)
    requires pc.kind == R_GOTPC && off.kind == R_GOTOFF && direct.kind == R_32
    requires pc.symbol != 0 && off.symbol != 0 && off.symbol == direct.symbol
    requires Patched(img, pc, b, l) && Patched(img, off, a, l) && Patched(img, direct, a, l)
    ensures Mod(pc.site - b + l.mem[pc.site]) == Mod(img.got)
    ensures Mod(pc.site - b + l.mem[pc.site] + l.mem[off.site]) == l.mem[direct.site]
  {
    var s := SymbolValue(img, off.symbol).value;
    ModSum(img.got + b - pc.site, pc.site - b);
    ModSum(img.got + b - pc.site, pc.site - b + l.mem[off.site]);
    ModSum(s + a - img.got, img.got);
    assert Mod(img.got + l.mem[off.site]) == Mod(s + a);
  }

  /** The slot that a load through a GOT32 word with addend `a` reads. */
  function SlotRead(l: Link, r: Rel, a: int): int
    requires r.site in l.mem
  {
    Mod(l.mem[r.site] - a) / 4
  }

  predicate IsGot(r: Rel) { r.kind == R_GOT32 && r.symbol != 0 }

  /** The load finds the value of the relocation's own symbol. */
  ghost predicate Finds(img: Image, l: Link, r: Rel, a: int)
    requires RelOk(img, l.mem, r) && IsGot(r)
  {
    0 <= SlotRead(l, r, a) < |l.table| && SymbolValue(img, r.symbol) == Some(l.table[SlotRead(l, r, a)])
  }

  /** A GOT32 load reads the slot of its symbol's name, which holds the value of the symbol the slot was made for. */
  lemma TableLoad(img: Image, l: Link, r: Rel, a: int)
    requires TableOk(img, l) && RelOk(img, l.mem, r) && IsGot(r) && Patched(img, r, a, l)
    ensures var k := SlotRead(l, r, a);
      && 1 <= k <= l.count && 0 <= l.slots[k - 1] < |img.symbols|
      && img.symbols[l.slots[k - 1]].name == img.symbols[r.symbol].name
      && SymbolValue(img, l.slots[k - 1]) == Some(l.table[k])
  {
    var name := img.symbols[r.symbol].name;
    var k := l.index[name];
    assert NameOk(img, l, name);
    assert SlotOk(img, l, k - 1);
    ModSum(k * 4 + a, -a);
    assert Mod(l.mem[r.site] - a) == 4 * k;
  }

  /** Every slot made on the way was made for the symbol of one of the relocations. */
  lemma {:induction false} SlotsFromRels(img: Image, l: Link, rels: seq<Rel>, n: nat, k: int)
    requires n <= |rels| && TableOk(img, l) && RelsOk(img, l.mem, rels) && RelocateFrom(img, l, rels, n).Some?
    requires |l.slots| <= k < |RelocateFrom(img, l, rels, n).value.slots|
    ensures var slot := RelocateFrom(img, l, rels, n).value.slots[k];
            exists i :: n <= i < |rels| && IsGot(rels[i]) && rels[i].symbol == slot
    decreases |rels| - n
  {
    if n < |rels| {
      RelocateOne(img, l, rels[n]);
      var m := Relocate(img, l, rels[n]).value;
      if k < |m.slots| {
        SlotsKept(img, m, rels, n + 1);
        assert IsGot(rels[n]) && m.slots[k] == rels[n].symbol;
      } else {
        SlotsFromRels(img, m, rels, n + 1, k);
      }
    }
  }

  lemma {:induction false} SlotsKept(img: Image, l: Link, rels: seq<Rel>, n: nat)
    requires n <= |rels| && TableOk(img, l) && RelsOk(img, l.mem, rels) && RelocateFrom(img, l, rels, n).Some?
    ensures l.slots <= RelocateFrom(img, l, rels, n).value.slots
    decreases |rels| - n
  {
    if n < |rels| {
      RelocateOne(img, l, rels[n]);
      SlotsKept(img, Relocate(img, l, rels[n]).value, rels, n + 1);
    }
  }

  /** Any two GOT32 relocations of one name are of symbols with one value. */
  ghost predicate NamesAgree(img: Image, rels: seq<Rel>) {
    forall i, j :: 0 <= i < |rels| && 0 <= j < |rels| && SameName(img, rels[i], rels[j])
      ==> SymbolValue(img, rels[i].symbol) == SymbolValue(img, rels[j].symbol)
  }

  predicate SameName(img: Image, r: Rel, q: Rel) {
    && IsGot(r) && IsGot(q) && 0 <= r.symbol < |img.symbols| && 0 <= q.symbol < |img.symbols|
    && img.symbols[r.symbol].name == img.symbols[q.symbol].name
  }

  /** What each GOT32 relocation of a list finds in the end. */
  ghost predicate AllFind(img: Image, mem: map<int, int>, rels: seq<Rel>, l: Link)
    requires RelsOk(img, mem, rels) && l.mem.Keys == mem.Keys
  {
    forall i :: 0 <= i < |rels| && IsGot(rels[i]) ==> FindsAt(img, mem, rels, l, i)
  }

  ghost predicate FindsAt(img: Image, mem: map<int, int>, rels: seq<Rel>, l: Link, i: int)
    requires RelsOk(img, mem, rels) && l.mem.Keys == mem.Keys && 0 <= i < |rels| && IsGot(rels[i])
  {
    assert RelOk(img, mem, rels[i]);
    Finds(img, l, rels[i], mem[rels[i].site])
  }

  /** Two relocations of one name read one slot. */
  lemma SameSlot(img: Image, l: Link, r: Rel, a: int, q: Rel, b: int)
    requires TableOk(img, l) && RelOk(img, l.mem, r) && IsGot(r) && Patched(img, r, a, l)
    requires RelOk(img, l.mem, q) && IsGot(q) && Patched(img, q, b, l)
    requires img.symbols[r.symbol].name == img.symbols[q.symbol].name
    ensures SlotRead(l, r, a) == SlotRead(l, q, b)
  {
    var k := l.index[img.symbols[r.symbol].name];
    assert NameOk(img, l, img.symbols[r.symbol].name);
    ModSum(k * 4 + a, -a);
    ModSum(k * 4 + b, -b);
    assert Mod(l.mem[r.site] - a) == 4 * k == Mod(l.mem[q.site] - b);
  }

  lemma {:induction false} AgreeThenFinds(img: Image, mem: map<int, int>, rels: seq<Rel>, i: int)
    requires TableOk(img, Fresh(mem)) && RelsOk(img, mem, rels) && DistinctSites(rels)
    requires RelocateFrom(img, Fresh(mem), rels, 0).Some? && 0 <= i < |rels| && IsGot(rels[i])
    requires RelocateFrom(img, Fresh(mem), rels, 0).value.mem.Keys == mem.Keys
    requires NamesAgree(img, rels)
    ensures FindsAt(img, mem, rels, RelocateFrom(img, Fresh(mem), rels, 0).value, i)
  {
    var l, a := RelocateFrom(img, Fresh(mem), rels, 0).value, mem[rels[i].site];
    SectionRelocated(img, Fresh(mem), rels);
    TableLoad(img, l, rels[i], a);
    var k := SlotRead(l, rels[i], a);
    SlotsFromRels(img, Fresh(mem), rels, 0, k - 1);
    var j :| 0 <= j < |rels| && IsGot(rels[j]) && rels[j].symbol == l.slots[k - 1];
    assert RelOk(img, mem, rels[i]) && RelOk(img, mem, rels[j]) && SameName(img, rels[i], rels[j]);
  }

  /**
   Starting from an empty table, every load through it finds its own symbol's value exactly if any two GOT32
   relocations of one name are of symbols with one value.
   */
  lemma {:induction false} LoadsFindIff(img: Image, mem: map<int, int>, rels: seq<Rel>)
    requires RelsOk(img, mem, rels) && DistinctSites(rels) && TableOk(img, Fresh(mem))
    requires RelocateFrom(img, Fresh(mem), rels, 0).Some?
    ensures RelocateFrom(img, Fresh(mem), rels, 0).value.mem.Keys == mem.Keys
    ensures AllFind(img, mem, rels, RelocateFrom(img, Fresh(mem), rels, 0).value) <==> NamesAgree(img, rels)
  {
    var l := RelocateFrom(img, Fresh(mem), rels, 0).value;
    RelocateRest(img, Fresh(mem), rels, 0);
    if NamesAgree(img, rels) {
      forall i | 0 <= i < |rels| && IsGot(rels[i]) ensures FindsAt(img, mem, rels, l, i) {
        AgreeThenFinds(img, mem, rels, i);
      }
    }
    if AllFind(img, mem, rels, l) {
      forall i, j | 0 <= i < |rels| && 0 <= j < |rels| && SameName(img, rels[i], rels[j])
        ensures SymbolValue(img, rels[i].symbol) == SymbolValue(img, rels[j].symbol)
      {
        assert FindsAt(img, mem, rels, l, i) && FindsAt(img, mem, rels, l, j);
        SameSlot(img, l, rels[i], mem[rels[i].site], rels[j], mem[rels[j].site]);
      }
    }
  }

  /** A load that finds its symbol's value, plus an addend, gives what a direct R_386_32 with that addend holds. */
  lemma TableReaches(img: Image, l: Link, r: Rel, a: int, direct: Rel, d: int)
    requires RelOk(img, l.mem, r) && RelOk(img, l.mem, direct) && IsGot(r) && direct.kind == R_32
    requires r.symbol == direct.symbol
    requires Finds(img, l, r, a) && Patched(img, direct, d, l)
    ensures Mod(l.table[SlotRead(l, r, a)] + d) == l.mem[direct.site]
  {
  }

  // ---------------------------------------------------------------- all sections of a module

  ghost function Flatten(sections: seq<seq<Rel>>): seq<Rel> {
    if sections == [] then [] else sections[0] + Flatten(sections[1..])
  }

  lemma {:induction false} RelocateShift(img: Image, l: Link, a: seq<Rel>, b: seq<Rel>, n: nat)
    requires n <= |b| && TableOk(img, l) && RelsOk(img, l.mem, a + b) && RelsOk(img, l.mem, b)
    ensures RelocateFrom(img, l, a + b, |a| + n) == RelocateFrom(img, l, b, n)
    decreases |b| - n
  {
    if n < |b| {
      assert (a + b)[|a| + n] == b[n];
      if Relocate(img, l, b[n]).Some? {
        RelocateOne(img, l, b[n]);
        RelsKept(img, l.mem, Relocate(img, l, b[n]).value.mem, a + b);
        RelsKept(img, l.mem, Relocate(img, l, b[n]).value.mem, b);
        RelocateShift(img, Relocate(img, l, b[n]).value, a, b, n + 1);
      }
    }
  }

  lemma RelsKept(img: Image, mem: map<int, int>, mem': map<int, int>, rels: seq<Rel>)
    requires RelsOk(img, mem, rels) && mem'.Keys == mem.Keys
    ensures RelsOk(img, mem', rels)
  {
    forall i | 0 <= i < |rels| ensures RelOk(img, mem', rels[i]) { assert RelOk(img, mem, rels[i]); }
  }

  lemma RelsParts(img: Image, mem: map<int, int>, a: seq<Rel>, b: seq<Rel>)
    requires RelsOk(img, mem, a + b)
    ensures RelsOk(img, mem, a) && RelsOk(img, mem, b)
  {
    forall i | 0 <= i < |a| ensures RelOk(img, mem, a[i]) { assert (a + b)[i] == a[i]; }
    forall i | 0 <= i < |b| ensures RelOk(img, mem, b[i]) { assert (a + b)[|a| + i] == b[i]; }
  }

  /** Relocating a section and then more is relocating all of it, over one table. */
  lemma {:induction false} RelocateConcat(img: Image, l: Link, a: seq<Rel>, b: seq<Rel>, n: nat)
    requires n <= |a| && TableOk(img, l) && RelsOk(img, l.mem, a + b) && RelsOk(img, l.mem, a)
    ensures var r := RelocateFrom(img, l, a, n);
      && (r.None? ==> RelocateFrom(img, l, a + b, n).None?)
      && (r.Some? ==> TableOk(img, r.value) && RelsOk(img, r.value.mem, b)
                      && RelocateFrom(img, l, a + b, n) == RelocateFrom(img, r.value, b, 0))
    decreases |a| - n
  {
    RelsParts(img, l.mem, a, b);
    if n == |a| {
      RelocateShift(img, l, a, b, 0);
    } else {
      assert (a + b)[n] == a[n];
      if Relocate(img, l, a[n]).Some? {
        RelocateOne(img, l, a[n]);
        var m := Relocate(img, l, a[n]).value;
        RelsKept(img, l.mem, m.mem, a + b);
        RelsKept(img, l.mem, m.mem, a);
        RelocateConcat(img, m, a, b, n + 1);
      }
    }
  }

  function Fresh(mem: map<int, int>): Link { Link(mem, seq(GOT_SIZE, _ => 0), 0, map[], []) }

  /** Two local symbols of one name: the second's load finds the first's address. */
  lemma NameClash()
    ensures var img := Image(0, [0, 0], [Symbol("", 0, 0), Symbol("x", 1, 4), Symbol("x", 1, 8)], map[], 1000);
            var rels := [Rel(100, 1, R_GOT32), Rel(104, 2, R_GOT32)];
            var l := Fresh(map[100 := 0, 104 := 0]);
            && TableOk(img, l) && RelsOk(img, l.mem, rels) && RelocateFrom(img, l, rels, 0).Some?
            && var l' := RelocateFrom(img, l, rels, 0).value;
               104 in l'.mem && l'.mem[104] == 4 && |l'.table| == GOT_SIZE && l'.table[1] == 4 &&
                   SymbolValue(img, 2) == Some(8)
  {
    var img := Image(0, [0, 0], [Symbol("", 0, 0), Symbol("x", 1, 4), Symbol("x", 1, 8)], map[], 1000);
    var rels := [Rel(100, 1, R_GOT32), Rel(104, 2, R_GOT32)];
    var l := Fresh(map[100 := 0, 104 := 0]);
    assert RelOk(img, l.mem, rels[0]) && RelOk(img, l.mem, rels[1]);
    RelocateOne(img, l, rels[0]);
    var m := Relocate(img, l, rels[0]).value;
    assert m.index["x"] == 1 && m.count == 1 && m.table[1] == 4 && m.mem[104] == 0;
    RelocateOne(img, m, rels[1]);
    var l' := Relocate(img, m, rels[1]).value;
    assert l'.mem[104] == 4 && l'.table == m.table;
    assert RelocateFrom(img, l', rels, 2) == Some(l');
    assert RelocateFrom(img, m, rels, 1) == Some(l');
  }
}
