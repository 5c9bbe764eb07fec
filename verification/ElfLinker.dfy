/**
 The linker as it patches memory and fills its table in place, with the hash map as its index of names.
 */
module ElfLinker {
  import opened Common
  import opened Linker
  import HashMap

  class Elf {
    const img: Image
    var mem: map<int, int>
    var table: seq<int>
    var count: int
    const index: HashMap.UnorderedMap<string, int>
    ghost var slots: seq<int>

    ghost function Model(): Link
      reads this, index
    {
      Link(mem, table, count, index.m, slots)
    }

    ghost predicate Valid()
      reads this, index
    {
      index.Valid() && index.zero == 0 && TableOk(img, Model())
    }

    constructor (img: Image, mem: map<int, int>, hash: string -> nat)
      ensures Valid() && this.img == img && Model() == Fresh(mem) && fresh(index)
    {
      this.img, this.mem := img, mem;
      table, count, slots := seq(GOT_SIZE, _ => 0), 0, [];
      index := new HashMap.UnorderedMap(hash, 0);
    }

    method LookUp(i: int) returns (v: Option<int>)
      requires 0 <= i < |img.symbols|
      ensures v == SymbolValue(img, i)
    {
      var s := img.symbols[i];
      if s.section == 0 {
        if s.name !in img.kernel {
          return None;
        }
        v := Some(Mod(img.kernel[s.name]));
      } else if 0 <= s.section < |img.sections| {
        v := Some(Mod(img.base + img.sections[s.section] + s.value));
      } else {
        v := None;
      }
    }

    /** The slot of a name: indexing creates a zero entry, and zero means no slot yet. */
    method FindSlot(i: int, v: int) returns (slot: int)
      requires Valid() && 0 <= i < |img.symbols| && count + 1 < GOT_SIZE && SymbolValue(img, i) == Some(v)
      modifies this`table, this`count, this`slots, index
      ensures index.Valid() && index.zero == 0 && (Model(), slot) == Slot(img, old(Model()), i, v)
    {
      var name := img.symbols[i].name;
      ghost var names := index.m;
      var b, k := index.Index(name);
      slot := index.buckets[b][k].1;
      if slot == 0 {
        count := count + 1;
        table := table[count := v];
        slot := count;
        index.Store(b, k, count);
        slots := slots + [i];
        assert index.m == names[name := count];
      } else {
        assert name in names;
      }
    }

    method RelocateEntry(r: Rel) returns (ok: bool)
      requires Valid() && RelOk(img, mem, r)
      modifies this, index
      ensures ok == Relocate(img, old(Model()), r).Some?
      ensures Valid() && (ok ==> Model() == Relocate(img, old(Model()), r).value)
      ensures !ok ==> Model() == old(Model())
    {
      if r.symbol == 0 {
        return true;
      }
      ghost var l := Model();
      if Relocate(img, l, r).Some? { RelocateOne(img, l, r); }
      var a := mem[r.site];
      if r.kind == R_GOTPC {
        mem := mem[r.site := Mod(img.got + a - r.site)];
        return true;
      }
      var v := LookUp(r.symbol);
      if v.None? {
        return false;
      }
      ok := RelocateSymbol(r, v.value);
    }

    /** The types that need the symbol's value `s`. */
    method RelocateSymbol(r: Rel, s: int) returns (ok: bool)
      requires Valid() && RelOk(img, mem, r) && r.symbol != 0 && r.kind != R_GOTPC
      requires SymbolValue(img, r.symbol) == Some(s)
      modifies this, index
      ensures ok == Relocate(img, old(Model()), r).Some?
      ensures index.Valid() && index.zero == 0
      ensures Model() == if ok then Relocate(img, old(Model()), r).value else old(Model())
    {
      var a := mem[r.site];
      ok := true;
      if r.kind == R_NONE {
      } else if r.kind == R_32 {
        mem := mem[r.site := Mod(s + a)];
      } else if r.kind == R_PC32 || r.kind == R_PLT32 {
        mem := mem[r.site := Mod(s + a - r.site)];
      } else if r.kind == R_GOTOFF {
        mem := mem[r.site := Mod(s + a - img.got)];
      } else if r.kind == R_GOT32 {
        if count + 1 >= GOT_SIZE {
          return false;
        }
        var slot := FindSlot(r.symbol, s);
        mem := mem[r.site := Mod(slot * 4 + a)];
      } else {
        ok := false;
      }
    }

    /** Relocates every entry in order, stopping at the first that fails. */
    method RelocateSection(rels: seq<Rel>) returns (ok: bool)
      requires Valid() && RelsOk(img, mem, rels)
      modifies this, index
      ensures Valid() && ok == RelocateFrom(img, old(Model()), rels, 0).Some?
      ensures ok ==> Model() == RelocateFrom(img, old(Model()), rels, 0).value
    {
      ghost var l := Model();
      var i := 0;
      while i < |rels|
        invariant Valid() && 0 <= i <= |rels| && RelsOk(img, mem, rels)
        invariant RelocateFrom(img, Model(), rels, i) == RelocateFrom(img, l, rels, 0)
      {
        assert RelOk(img, mem, rels[i]);
        ghost var before := Model();
        ok := RelocateEntry(rels[i]);
        if !ok {
          return;
        }
        RelocateOne(img, before, rels[i]);
        i := i + 1;
      }
      ok := true;
    }

    /** link_as_kernel_module, over the sections of relocations: one table for all of them. */
    method LinkModule(sections: seq<seq<Rel>>) returns (ok: bool)
      requires Valid() && RelsOk(img, mem, Flatten(sections))
      modifies this, index
      ensures Valid() && ok == RelocateFrom(img, old(Model()), Flatten(sections), 0).Some?
      ensures ok ==> Model() == RelocateFrom(img, old(Model()), Flatten(sections), 0).value
    {
      ghost var l := Model();
      var i := 0;
      while i < |sections|
        invariant Valid() && 0 <= i <= |sections| && RelsOk(img, mem, Flatten(sections[i..]))
        invariant RelocateFrom(img, Model(), Flatten(sections[i..]), 0) == RelocateFrom(img, l, Flatten(sections), 0)
      {
        ghost var rest := Flatten(sections[i + 1..]);
        assert sections[i..][1..] == sections[i + 1..];
        assert Flatten(sections[i..]) == sections[i] + rest;
        RelsParts(img, mem, sections[i], rest);
        RelocateConcat(img, Model(), sections[i], rest, 0);
        ok := RelocateSection(sections[i]);
        if !ok {
          return;
        }
        i := i + 1;
      }
      ok := true;
    }
  }
}
