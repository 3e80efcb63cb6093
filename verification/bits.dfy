/**
 * Bitwise operators of C on unsigned values, stated over natural numbers.
 *
 * The kernel sources combine fields with `<<`, `|` and `&`. Here `x << k` is
 * `x * Pow2(k)`, and `|`/`&` are defined bit by bit from the least significant
 * end, so that properties such as "an OR of disjoint fields is their sum" are
 * proved rather than assumed.
 */
module Bits {

  /** 2 raised to `k`; `x << k` on unsigned values is `x * Pow2(k)` as long as nothing is shifted out. */
  function Pow2(k: nat): (p: nat)
    ensures p >= 1
  {
    if k == 0 then 1 else 2 * Pow2(k - 1)
  }

  /** The shift `1 << 16` used by the kernel sources. */
  lemma Pow2Of16()
    ensures Pow2(16) == 0x1_0000
  {
    assert Pow2(4) == 16;
    assert Pow2(8) == 16 * Pow2(4);
    assert Pow2(12) == 16 * Pow2(8);
    assert Pow2(16) == 16 * Pow2(12);
  }

  /** Bit `k` (0 = least significant) of `x`, as 0 or 1. */
  function Bit(x: nat, k: nat): (b: nat)
    ensures b < 2
  {
    if k == 0 then x % 2 else Bit(x / 2, k - 1)
  }

  /** Bitwise inclusive OR (`x | y`). */
  function BitOr(x: nat, y: nat): nat
    decreases x + y
  {
    if x == 0 && y == 0 then 0
    else 2 * BitOr(x / 2, y / 2) + (if x % 2 == 1 || y % 2 == 1 then 1 else 0)
  }

  /** Bitwise AND (`x & y`). */
  function BitAnd(x: nat, y: nat): nat
    decreases x + y
  {
    if x == 0 || y == 0 then 0
    else 2 * BitAnd(x / 2, y / 2) + (if x % 2 == 1 && y % 2 == 1 then 1 else 0)
  }

  /** OR with zero leaves a value unchanged. */
  lemma {:induction false} BitOrZero(x: nat)
    ensures BitOr(x, 0) == x
    decreases x
  {
    if x != 0 {
      BitOrZero(x / 2);
    }
  }

  /**
   * A value shifted left by `k` has no bits in common with a value below
   * `2^k`, so OR-ing the two is the same as adding them.
   */
  lemma {:induction false} BitOrDisjoint(hi: nat, lo: nat, k: nat)
    requires lo < Pow2(k)
    ensures BitOr(hi * Pow2(k), lo) == hi * Pow2(k) + lo
    decreases k
  {
    if k == 0 {
      assert lo == 0;
      BitOrZero(hi);
    } else {
      var p := Pow2(k - 1);
      assert Pow2(k) == 2 * p;
      var s := hi * Pow2(k);
      assert s == 2 * (hi * p);
      assert s / 2 == hi * p && s % 2 == 0;
      assert lo / 2 < p;
      BitOrDisjoint(hi, lo / 2, k - 1);
      if s == 0 && lo == 0 {
      } else {
        assert BitOr(s, lo) == 2 * BitOr(hi * p, lo / 2) + lo % 2;
      }
    }
  }

  /** AND with the single-bit mask `2^k` keeps exactly bit `k`: the test `x & (1 << k)` is non-zero iff that bit is set. */
  lemma {:induction false} BitAndSingleBit(x: nat, k: nat)
    ensures BitAnd(x, Pow2(k)) == Bit(x, k) * Pow2(k)
    decreases k
  {
    if k == 0 {
      if x != 0 {
        assert BitAnd(x, 1) == 2 * BitAnd(x / 2, 0) + (if x % 2 == 1 then 1 else 0);
      }
    } else {
      var p := Pow2(k - 1);
      assert Pow2(k) == 2 * p;
      BitAndSingleBit(x / 2, k - 1);
      if x != 0 {
        assert Pow2(k) / 2 == p && Pow2(k) % 2 == 0;
        assert BitAnd(x, Pow2(k)) == 2 * BitAnd(x / 2, p);
      }
    }
  }
}
