/** Bit-counting intrinsics and the two bucket-index functions of the kernel heap. */
module Logs {

  const TWO30: nat := 0x4000_0000
  const TWO31: nat := 0x8000_0000
  const TWO32: nat := 0x1_0000_0000

  function Pow2(k: nat): (p: nat)
    ensures p >= 1
  {
    if k == 0 then 1 else 2 * Pow2(k - 1)
  }

  lemma {:induction false} Pow2Monotone(i: nat, j: nat)
    requires i <= j
    ensures Pow2(i) <= Pow2(j)
    decreases j
  {
    if i < j {
      Pow2Monotone(i, j - 1);
    }
  }

  lemma Pow2Values()
    ensures Pow2(11) == 2048 && Pow2(12) == 4096 && Pow2(30) == 0x4000_0000
    ensures Pow2(31) == TWO31 && Pow2(32) == TWO32
  {
    assert Pow2(8) == 256;
    assert Pow2(16) == 65536;
    assert Pow2(24) == 0x100_0000;
  }

  /** The integer part of the base-2 logarithm. */
  function Log(v: nat): (k: nat)
    requires v >= 1
    ensures Pow2(k) <= v < Pow2(k + 1)
  {
    if v == 1 then 0 else 1 + Log(v / 2)
  }

  lemma LogUnique(v: nat, k: nat)
    requires Pow2(k) <= v < Pow2(k + 1)
    ensures v >= 1 && Log(v) == k
  {
    if Log(v) < k {
      Pow2Monotone(Log(v) + 1, k);
    } else if Log(v) > k {
      Pow2Monotone(k + 1, Log(v));
    }
  }

  lemma {:induction false} LogBelow(v: nat, k: nat)
    requires 1 <= v < Pow2(k)
    ensures Log(v) < k
  {
    if Log(v) >= k {
      Pow2Monotone(k, Log(v));
    }
  }

  /** `__builtin_clz` on a 32-bit word. */
  function Clz(v: nat): (c: nat)
    requires 0 < v < TWO32
    decreases TWO32 - v
  {
    if v >= TWO31 then 0 else 1 + Clz(2 * v)
  }

  /** `__builtin_popcount`. */
  function PopCount(v: nat): nat {
    if v == 0 then 0 else v % 2 + PopCount(v / 2)
  }

  lemma {:induction false} ClzIsLog(v: nat)
    requires 0 < v < TWO32
    ensures Clz(v) + Log(v) == 31
    decreases TWO32 - v
  {
    Pow2Values();
    if v >= TWO31 {
      LogUnique(v, 31);
    } else {
      ClzIsLog(2 * v);
      assert Log(2 * v) == 1 + Log((2 * v) / 2);
    }
  }

  lemma {:induction false} PopCountOne(v: nat)
    requires v > 0
    ensures PopCount(v) >= 1
    ensures PopCount(v) == 1 <==> v == Pow2(Log(v))
  {
    if v > 1 {
      PopCountOne(v / 2);
      assert v == 2 * (v / 2) + v % 2;
    }
  }

  function NextLowestPowerOfTwo(v: nat): (k: int)
    requires 0 < v < TWO32
  {
    31 - Clz(v)
  }

  function NextHighestPowerOfTwo(v: nat): (k: int)
    requires 0 < v < TWO32
  {
    31 - Clz(v) + (if PopCount(v) > 1 then 1 else 0)
  }

  /** The bucket a region of `v` bytes is filed in: the k with 2^k <= v < 2^(k+1). */
  lemma {:induction false} LowestBracket(v: nat)
    requires 0 < v < TWO32
    ensures 0 <= NextLowestPowerOfTwo(v) <= 31
    ensures NextLowestPowerOfTwo(v) == Log(v)
    ensures Pow2(NextLowestPowerOfTwo(v)) <= v < Pow2(NextLowestPowerOfTwo(v) + 1)
  {
    ClzIsLog(v);
  }

  /** The first bucket searched for `v` bytes: the least k with v <= 2^k. */
  lemma {:induction false} HighestIsCeiling(v: nat, j: nat)
    requires 0 < v < TWO32
    ensures 0 <= NextHighestPowerOfTwo(v) <= 32
    ensures v <= Pow2(j) <==> NextHighestPowerOfTwo(v) <= j
  {
    ClzIsLog(v);
    PopCountOne(v);
    var k := Log(v);
    if j <= k {
      Pow2Monotone(j, k);
      if j < k {
        Pow2Monotone(j + 1, k);
      }
    } else {
      Pow2Monotone(k + 1, j);
    }
  }
}
