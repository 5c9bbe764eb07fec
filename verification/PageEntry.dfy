/** A 32-bit paging entry: the record the model works with, and the word the kernel's bit operations work on. */
module PageEntry {

  /** Bits 12-31, the flag bits the kernel uses, and the bits it leaves alone (3-8 and 10-11). */
  datatype Entry = Entry(frame: int, present: bool, rw: bool, user: bool, owned: bool, mid: int, top: int)

  const Zero: Entry := Entry(0, false, false, false, false, 0, 0)

  const PFLAG_PRESENT: int := 0x1
  const PFLAG_RW: int := 0x2
  const PFLAG_USER: int := 0x4
  const PFLAG_OWNED: int := 0x200

  predicate Fits(e: Entry) {
    0 <= e.frame < 0x10_0000 && 0 <= e.mid < 64 && 0 <= e.top < 4
  }

  function Bit(b: bool): int { if b then 1 else 0 }

  function Encode(e: Entry): int {
    e.frame * 0x1000 + e.top * 0x400 + Bit(e.owned) * 0x200 + e.mid * 8 + Bit(e.user) * 4 + Bit(e.rw) * 2 +
        Bit(e.present)
  }

  /** A flag word of one bit, `value & flag == flag`. */
  predicate GetFlag(v: int, flag: int)
    requires flag > 0
  {
    (v / flag) % 2 == 1
  }

  /** `value |= flag` for a flag word of one bit. */
  function EnableFlag(v: int, flag: int): int
    requires flag > 0
  {
    if GetFlag(v, flag) then v else v + flag
  }

  /** `value &= 0xFFFFFFFF - flag` for a flag word of one bit. */
  function DisableFlag(v: int, flag: int): int
    requires flag > 0
  {
    if GetFlag(v, flag) then v - flag else v
  }

  /** `value &= ~0xFFFFF000; value |= address` for a page-aligned address. */
  function SetAddress(v: int, address: int): int {
    v % 0x1000 + address
  }

  function GetAddress(v: int): int {
    v - v % 0x1000
  }

  lemma Halves(v: int, q: int, r: int)
    requires v == 2 * q + r && 0 <= r < 2
    ensures v / 2 == q && v % 2 == r
  {
  }

  lemma Quarters(v: int, q: int, r: int)
    requires v == 4 * q + r && 0 <= r < 4
    ensures v / 4 == q && v % 4 == r
  {
  }

  lemma By512(v: int, q: int, r: int)
    requires v == 512 * q + r && 0 <= r < 512
    ensures v / 512 == q && v % 512 == r
  {
  }

  lemma ByPage(v: int, q: int, r: int)
    requires v == 4096 * q + r && 0 <= r < 4096
    ensures v / 4096 == q && v % 4096 == r
  {
  }

  lemma PresentFlag(e: Entry, v: int)
    requires Fits(e) && v == Encode(e)
    ensures GetFlag(v, PFLAG_PRESENT) == e.present
  {
    var at4 := e.frame * 0x200 + e.top * 0x80 + Bit(e.owned) * 0x40 + e.mid;
    assert v / 1 == v;
    Halves(v, 2 * (2 * at4 + Bit(e.user)) + Bit(e.rw), Bit(e.present));
  }

  lemma RwFlag(e: Entry, v: int)
    requires Fits(e) && v == Encode(e)
    ensures GetFlag(v, PFLAG_RW) == e.rw
  {
    var at4 := e.frame * 0x200 + e.top * 0x80 + Bit(e.owned) * 0x40 + e.mid;
    var half := 2 * (2 * at4 + Bit(e.user)) + Bit(e.rw);
    Halves(v, half, Bit(e.present));
    Halves(half, 2 * at4 + Bit(e.user), Bit(e.rw));
  }

  lemma UserFlag(e: Entry, v: int)
    requires Fits(e) && v == Encode(e)
    ensures GetFlag(v, PFLAG_USER) == e.user
  {
    var at4 := e.frame * 0x200 + e.top * 0x80 + Bit(e.owned) * 0x40 + e.mid;
    Quarters(v, 2 * at4 + Bit(e.user), Bit(e.rw) * 2 + Bit(e.present));
  }

  lemma OwnedFlag(e: Entry, v: int)
    requires Fits(e) && v == Encode(e)
    ensures GetFlag(v, PFLAG_OWNED) == e.owned
  {
    By512(v, 2 * (e.frame * 4 + e.top) + Bit(e.owned), e.mid * 8 + Bit(e.user) * 4 + Bit(e.rw) * 2 + Bit(e.present));
  }

  /** The entry's flags and address, read from the word. */
  lemma FlagsRead(e: Entry)
    requires Fits(e)
    ensures 0 <= Encode(e) < 0x1_0000_0000
    ensures GetFlag(Encode(e), PFLAG_PRESENT) == e.present
    ensures GetFlag(Encode(e), PFLAG_RW) == e.rw
    ensures GetFlag(Encode(e), PFLAG_USER) == e.user
    ensures GetFlag(Encode(e), PFLAG_OWNED) == e.owned
    ensures GetAddress(Encode(e)) == e.frame * 0x1000
  {
    var v := Encode(e);
    PresentFlag(e, v);
    RwFlag(e, v);
    UserFlag(e, v);
    OwnedFlag(e, v);
    ByPage(v, e.frame, v - e.frame * 0x1000);
  }

  /** The kernel's word operations are updates of the record. */
  lemma WordOperations(e: Entry, frame: int)
    requires Fits(e) && 0 <= frame < 0x10_0000
    ensures SetAddress(Encode(e), frame * 0x1000) == Encode(e.(frame := frame))
    ensures EnableFlag(Encode(e), PFLAG_PRESENT) == Encode(e.(present := true))
    ensures EnableFlag(Encode(e), PFLAG_RW) == Encode(e.(rw := true))
    ensures EnableFlag(Encode(e), PFLAG_USER) == Encode(e.(user := true))
    ensures EnableFlag(Encode(e), PFLAG_OWNED) == Encode(e.(owned := true))
    ensures DisableFlag(Encode(e), PFLAG_OWNED) == Encode(e.(owned := false))
  {
    FlagsRead(e);
  }

  /** The word determines the record. */
  lemma EncodeInjective(e: Entry, f: Entry)
    requires Fits(e) && Fits(f) && Encode(e) == Encode(f)
    ensures e == f
  {
    FlagsRead(e);
    FlagsRead(f);
    assert e.frame == f.frame;
    assert e.top * 0x400 + e.mid * 8 == f.top * 0x400 + f.mid * 8;
  }
}
