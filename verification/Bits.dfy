/** The unsigned bit operations the sorters apply to keys and tree indices, on
    unbounded natural numbers. Each operation is defined bit by bit, so that
    its meaning does not depend on the facts that are later proved about it. */
module Bits {

  function Pow2(k: nat): (p: nat)
    ensures p >= 1
  {
    if k == 0 then 1 else 2 * Pow2(k - 1)
  }

  /** x >> k */
  function Shr(x: nat, k: nat): nat {
    if k == 0 then x else Shr(x / 2, k - 1)
  }

  /** x << k */
  function Shl(x: nat, k: nat): nat {
    if k == 0 then x else 2 * Shl(x, k - 1)
  }

  /** x & (2^k - 1) */
  function LowBits(x: nat, k: nat): nat {
    if k == 0 then 0 else 2 * LowBits(x / 2, k - 1) + x % 2
  }

  function Xor(a: nat, b: nat): nat
    decreases a + b
  {
    if a == 0 && b == 0 then 0
    else 2 * Xor(a / 2, b / 2) + (if a % 2 == b % 2 then 0 else 1)
  }

  function Or(a: nat, b: nat): nat
    decreases a + b
  {
    if a == 0 && b == 0 then 0
    else 2 * Or(a / 2, b / 2) + (if a % 2 == 1 || b % 2 == 1 then 1 else 0)
  }

  /** Number of zero bits above the most significant one bit of a w-bit word; w for zero. */
  function HighZeroBits(x: nat, w: nat): (z: nat)
    ensures z <= w
  {
    if w == 0 then 0
    else if x >= Pow2(w - 1) then 0
    else 1 + HighZeroBits(x, w - 1)
  }

  /** Number of zero bits below the least significant one bit of a w-bit word; w for zero. */
  function LowZeroBits(x: nat, w: nat): (z: nat)
    ensures z <= w
  {
    if w == 0 || x % 2 == 1 then 0
    else 1 + LowZeroBits(x / 2, w - 1)
  }

  // ---- powers of two and shifts -------------------------------------------------

  lemma {:induction false} Pow2Mono(a: nat, b: nat)
    requires a <= b
    ensures Pow2(a) <= Pow2(b)
    decreases b
  {
    if a < b { Pow2Mono(a, b - 1); }
  }

  lemma {:induction false} ShrAdd(x: nat, a: nat, b: nat)
    ensures Shr(x, a + b) == Shr(Shr(x, a), b)
  {
    if a > 0 { ShrAdd(x / 2, a - 1, b); }
  }

  lemma {:induction false} ShlAdd(x: nat, y: nat, k: nat)
    ensures Shl(x + y, k) == Shl(x, k) + Shl(y, k)
  {
    if k > 0 { ShlAdd(x, y, k - 1); }
  }

  lemma {:induction false} ShlPow2(l: nat, k: nat)
    ensures Shl(Pow2(l), k) == Pow2(l + k)
  {
    if k > 0 { ShlPow2(l, k - 1); }
  }

  lemma {:induction false} ShlDouble(x: nat, k: nat)
    ensures Shl(2 * x, k) == Shl(x, k + 1)
    ensures Shl(2 * x + 1, k) == Shl(x, k + 1) + Pow2(k)
  {
    if k > 0 { ShlDouble(x, k - 1); }
  }

  lemma {:induction false} ShlZero(k: nat)
    ensures Shl(0, k) == 0
  {
    if k > 0 { ShlZero(k - 1); }
  }

  lemma {:induction false} ShlBound(x: nat, l: nat, k: nat)
    requires x < Pow2(l)
    ensures Shl(x, k) + Pow2(k) <= Pow2(l + k)
  {
    if k > 0 { ShlBound(x, l, k - 1); }
  }

  /** Shifting right undoes shifting left; what was added below is shifted too. */
  lemma {:induction false} ShrPlus(hi: nat, y: nat, k: nat)
    ensures Shr(Shl(hi, k) + y, k) == hi + Shr(y, k)
  {
    if k > 0 {
      assert (2 * Shl(hi, k - 1) + y) / 2 == Shl(hi, k - 1) + y / 2;
      ShrPlus(hi, y / 2, k - 1);
    }
  }

  lemma {:induction false} ShrBound(x: nat, k: nat, w: nat)
    requires x < Pow2(w) && k <= w
    ensures Shr(x, k) < Pow2(w - k)
    decreases k
  {
    if k > 0 { ShrBound(x / 2, k - 1, w - 1); }
  }

  lemma {:induction false} LowBitsPlus(hi: nat, lo: nat, k: nat)
    requires lo < Pow2(k)
    ensures LowBits(Shl(hi, k) + lo, k) == lo
  {
    if k > 0 {
      assert (2 * Shl(hi, k - 1) + lo) / 2 == Shl(hi, k - 1) + lo / 2;
      LowBitsPlus(hi, lo / 2, k - 1);
    }
  }

  // ---- exclusive or, or -----------------------------------------------------------

  lemma {:induction false} XorZero(a: nat, b: nat)
    ensures Xor(a, b) == 0 <==> a == b
    decreases a + b
  {
    if a != 0 || b != 0 { XorZero(a / 2, b / 2); }
  }

  /** The exclusive or of two words is below 2^k exactly when they agree above bit k. */
  lemma {:induction false} XorAgreesAbove(a: nat, b: nat, k: nat)
    ensures Xor(a, b) < Pow2(k) <==> Shr(a, k) == Shr(b, k)
    decreases k
  {
    if k == 0 {
      XorZero(a, b);
    } else if a == 0 && b == 0 {
    } else {
      XorAgreesAbove(a / 2, b / 2, k - 1);
    }
  }

  lemma {:induction false} OrZero(a: nat)
    ensures Or(a, 0) == a && Or(0, a) == a
  {
    if a != 0 { OrZero(a / 2); }
  }

  /** Or of disjoint bits is their sum. */
  lemma {:induction false} OrDisjoint(hi: nat, lo: nat, k: nat)
    requires lo < Pow2(k)
    ensures Or(Shl(hi, k), lo) == Or(lo, Shl(hi, k)) == Shl(hi, k) + lo
    decreases k
  {
    if k == 0 {
      OrZero(hi);
    } else {
      OrDisjoint(hi, lo / 2, k - 1);
      assert (2 * Shl(hi, k - 1)) / 2 == Shl(hi, k - 1);
    }
  }

  // ---- counting zero bits ------------------------------------------------------------

  lemma {:induction false} HighZeroBitsBound(x: nat, w: nat, m: nat)
    requires x < Pow2(w) && m <= w
    ensures HighZeroBits(x, w) >= m <==> x < Pow2(w - m)
  {
    if m == 0 {
    } else if x >= Pow2(w - 1) {
      Pow2Mono(w - m, w - 1);
    } else {
      HighZeroBitsBound(x, w - 1, m - 1);
    }
  }

  /** A word in [2^l, 2^(l+1)) has its highest one bit at position l. */
  lemma {:induction false} HighZeroBitsLevel(x: nat, l: nat, w: nat)
    requires l < w && Pow2(l) <= x < Pow2(l + 1)
    ensures HighZeroBits(x, w) == w - 1 - l
  {
    if l + 1 < w {
      Pow2Mono(l + 1, w - 1);
      HighZeroBitsLevel(x, l, w - 1);
    }
  }

  /** Zero bits shifted in below are counted one by one. */
  lemma {:induction false} LowZeroBitsShift(y: nat, k: nat, w: nat)
    requires k <= w
    ensures LowZeroBits(Shl(y, k), w) == k + LowZeroBits(y, w - k)
    decreases k
  {
    if k > 0 {
      LowZeroBitsShift(y, k - 1, w - 1);
      assert (2 * Shl(y, k - 1)) / 2 == Shl(y, k - 1);
    }
  }

  /** A one bit below k decides the count, whatever stands above and however wide the word. */
  lemma {:induction false} LowZeroBitsLocal(hi: nat, lo: nat, k: nat, w: nat, v: nat)
    requires 0 < lo < Pow2(k) && k <= w && k <= v
    ensures LowZeroBits(Shl(hi, k) + lo, w) == LowZeroBits(lo, v) < k
    decreases k
  {
    if lo % 2 == 0 {
      LowZeroBitsLocal(hi, lo / 2, k - 1, w - 1, v - 1);
      assert (2 * Shl(hi, k - 1) + lo) / 2 == Shl(hi, k - 1) + lo / 2;
    }
  }

  /** A positive word is its lowest one bit plus what lies above it. */
  lemma {:induction false} LowestBit(x: nat, w: nat)
    requires 0 < x < Pow2(w)
    ensures var z := LowZeroBits(x, w);
            z < w && x == Shl(Shr(x, z + 1), z + 1) + Pow2(z)
  {
    if x % 2 == 0 {
      LowestBit(x / 2, w - 1);
    } else {
      assert Shr(x, 1) == x / 2;
      assert Shl(x / 2, 1) == 2 * (x / 2);
    }
  }
}
