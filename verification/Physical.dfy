/** The physical frame allocator: one bit per 4 KB frame, most significant bit first. */
module Physical {
  import opened Common

  /** Allocation starts at 1 MB. */
  const FIRST: int := 0x100000 / 0x1000

  /** `0b10000000 >> j` */
  function Mask(j: nat): bv8 {
    if j == 0 then 0x80 else Mask(j - 1) >> 1
  }

  predicate Has(v: bv8, r: int)
    requires 0 <= r
  {
    (v & Mask(r)) != 0
  }

  function With(v: bv8, r: int): bv8
    requires 0 <= r
  {
    v | Mask(r)
  }

  function Without(v: bv8, r: int): bv8
    requires 0 <= r
  {
    v & !Mask(r)
  }

  predicate BitAt(b: seq<bv8>, q: int, r: int)
    requires 0 <= q < |b| && 0 <= r
  {
    Has(b[q], r)
  }

  predicate Bit(b: seq<bv8>, i: int)
    requires 0 <= i < 8 * |b|
  {
    BitAt(b, i / 8, i % 8)
  }

  function Marked(b: seq<bv8>, q: int, r: int): seq<bv8>
    requires 0 <= q < |b| && 0 <= r
  {
    b[q := With(b[q], r)]
  }

  function Cleared(b: seq<bv8>, q: int, r: int): seq<bv8>
    requires 0 <= q < |b| && 0 <= r
  {
    b[q := Without(b[q], r)]
  }

  lemma {:induction false} MaskValue(j: int, m: bv8)
    requires 0 <= j < 8 && m == Mask(j)
    ensures m == if j == 0 then 0x80 else if j == 1 then 0x40 else if j == 2 then 0x20 else if j == 3 then 0x10
                 else if j == 4 then 0x08 else if j == 5 then 0x04 else if j == 6 then 0x02 else 0x01
  {
    assert Mask(1) == 0x40;
    assert Mask(2) == 0x20;
    assert Mask(3) == 0x10;
    assert Mask(4) == 0x08;
    assert Mask(5) == 0x04;
    assert Mask(6) == 0x02;
    assert Mask(7) == 0x01;
  }

  lemma {:induction false} MaskBits(v: bv8, j: int, k: int, m: bv8, n: bv8)
    requires 0 <= j < 8 && 0 <= k < 8 && m == Mask(j) && n == Mask(k)
    ensures (((v | m) & n) != 0) == (j == k || (v & n) != 0)
    ensures (((v & !m) & n) != 0) == (j != k && (v & n) != 0)
  {
    MaskValue(j, m);
    MaskValue(k, n);
  }

  /** Setting or clearing one bit of a byte changes that bit and no other. */
  lemma ByteBits(v: bv8, j: int, k: int)
    requires 0 <= j < 8 && 0 <= k < 8
    ensures Has(With(v, j), k) == (j == k || Has(v, k))
    ensures Has(Without(v, j), k) == (j != k && Has(v, k))
  {
    MaskBits(v, j, k, Mask(j), Mask(k));
  }

  lemma SameIndex(i: int, k: int)
    ensures i == k <==> i / 8 == k / 8 && i % 8 == k % 8
  {
  }

  lemma MarkedBit(b: seq<bv8>, q: int, r: int, p: int, s: int)
    requires 0 <= q < |b| && 0 <= p < |b| && 0 <= r < 8 && 0 <= s < 8
    ensures BitAt(Marked(b, q, r), p, s) == ((q == p && r == s) || BitAt(b, p, s))
    ensures BitAt(Cleared(b, q, r), p, s) == (!(q == p && r == s) && BitAt(b, p, s))
  {
    if q == p { ByteBits(b[q], r, s); }
  }

  /** Writing one bit changes that bit and no other. */
  lemma SetBit(b: seq<bv8>, i: int, k: int, x: seq<bv8>, y: seq<bv8>)
    requires 0 <= i < 8 * |b| && 0 <= k < 8 * |b|
    requires x == Marked(b, i / 8, i % 8) && y == Cleared(b, i / 8, i % 8)
    ensures Bit(x, k) == (k == i || Bit(b, k))
    ensures Bit(y, k) == (k != i && Bit(b, k))
  {
    assert (i / 8 == k / 8 && i % 8 == k % 8) == (i == k) by { SameIndex(i, k); }
    MarkedBit(b, i / 8, i % 8, k / 8, k % 8);
  }

  /** The frames marked as allocated. */
  ghost function UsedIn(b: seq<bv8>): set<int> {
    set i | 0 <= i < 8 * |b| && Bit(b, i)
  }

  lemma UsedAfterSet(b: seq<bv8>, i: int)
    requires 0 <= i < 8 * |b|
    ensures UsedIn(Marked(b, i / 8, i % 8)) == UsedIn(b) + {i}
    ensures UsedIn(Cleared(b, i / 8, i % 8)) == UsedIn(b) - {i}
  {
    var x, y := Marked(b, i / 8, i % 8), Cleared(b, i / 8, i % 8);
    forall k ensures k in UsedIn(x) <==> k in UsedIn(b) + {i} {
      if 0 <= k < 8 * |b| { SetBit(b, i, k, x, y); }
    }
    forall k ensures k in UsedIn(y) <==> k in UsedIn(b) - {i} {
      if 0 <= k < 8 * |b| { SetBit(b, i, k, x, y); }
    }
  }

  class PhysicalMemoryManager {
    const bitmap: array<bv8>

    ghost function Used(): set<int>
      reads this, bitmap
    {
      UsedIn(bitmap[..])
    }

    function Frames(): int
      reads this
    {
      8 * bitmap.Length
    }

    /** init: every frame starts out allocated. */
    constructor (bytes: nat)
      ensures fresh(bitmap) && bitmap.Length == bytes
      ensures forall f :: f in Used() <==> 0 <= f < 8 * bytes
    {
      bitmap := new bv8[bytes](_ => 0xFF);
      new;
      forall k | 0 <= k < 8 * bytes ensures Bit(bitmap[..], k) {
        assert bitmap[..][k / 8] == 0xFF;
        MaskValue(k % 8, Mask(k % 8));
      }
    }

    method SetUsed(i: int)
      requires 0 <= i < Frames()
      modifies bitmap
      ensures Used() == old(Used()) + {i}
    {
      ghost var b := bitmap[..];
      bitmap[i / 8] := bitmap[i / 8] | Mask(i % 8);
      assert bitmap[..] == Marked(b, i / 8, i % 8);
      UsedAfterSet(b, i);
    }

    method FreePhysicalMemory(i: int)
      requires 0 <= i < Frames()
      modifies bitmap
      ensures Used() == old(Used()) - {i}
    {
      ghost var b := bitmap[..];
      bitmap[i / 8] := bitmap[i / 8] & !Mask(i % 8);
      assert bitmap[..] == Cleared(b, i / 8, i % 8);
      UsedAfterSet(b, i);
    }

    /** The least free frame at or above 1 MB, now marked allocated; zero when there is none. */
    method AllocatePhysicalMemory() returns (frame: int)
      modifies bitmap
      ensures frame != 0 ==> FIRST <= frame < Frames() && frame !in old(Used()) && Used() == old(Used()) + {frame}
      ensures frame != 0 ==> forall f :: FIRST <= f < frame ==> f in old(Used())
      ensures frame == 0 ==> Used() == old(Used()) && forall f :: FIRST <= f < Frames() ==> f in Used()
    {
      var index := FIRST;
      while index < 8 * bitmap.Length
        invariant FIRST <= index
        invariant forall f :: FIRST <= f < index && f < Frames() ==> f in Used()
        invariant bitmap[..] == old(bitmap[..])
      {
        if (bitmap[index / 8] & Mask(index % 8)) == 0 {
          assert !Bit(bitmap[..], index);
          SetUsed(index);
          return index;
        }
        assert Bit(bitmap[..], index);
        index := index + 1;
      }
      return 0;
    }

    /** Mark as free, from the frame that holds `start` on, as many frames as fit whole into `length`. */
    method RegisterAvailableMemory(start: int, length: int)
      requires 0 <= start && 0 <= length && start + length <= PAGE * Frames()
      modifies bitmap
      ensures forall f :: f in Used() <==> f in old(Used()) && !(start / PAGE <= f < start / PAGE + length / PAGE)
    {
      var offset := 0;
      ghost var n := 0;
      while offset + 0xFFF < length
        invariant 0 <= n && offset == n * PAGE && n <= length / PAGE
        invariant forall f :: f in Used() <==> f in old(Used()) && !(start / PAGE <= f < start / PAGE + n)
        decreases length - offset
      {
        var index := (start + offset) / PAGE;
        assert index == start / PAGE + n;
        FreePhysicalMemory(index);
        offset := offset + PAGE;
        n := n + 1;
      }
      assert n == length / PAGE;
    }

    /** Mark as allocated, from the frame that holds `start` on, as many frames as `length` begins. */
    method ReservePhysicalMemory(start: int, length: int)
      requires 0 <= start && 0 <= length && start + length <= PAGE * Frames()
      modifies bitmap
      ensures forall f :: f in Used() <==>
          f in old(Used()) || start / PAGE <= f < start / PAGE + (length + 0xFFF) / PAGE
    {
      var offset := 0;
      ghost var n := 0;
      while offset < length
        invariant 0 <= n && offset == n * PAGE && n <= (length + 0xFFF) / PAGE
        invariant forall f :: f in Used() <==> f in old(Used()) || start / PAGE <= f < start / PAGE + n
        decreases length - offset
      {
        var index := (start + offset) / PAGE;
        assert index == start / PAGE + n;
        SetUsed(index);
        offset := offset + PAGE;
        n := n + 1;
      }
      assert n == (length + 0xFFF) / PAGE;
    }
  }
}
