/** Powers of two, and the rounding helper of lib/utils.h. */
module Bits {

  function Pow2(n: nat): (r: nat)
    ensures r >= 1
  {
    if n == 0 then 1 else 2 * Pow2(n - 1)
  }

  lemma {:induction false} Pow2Monotone(a: nat, b: nat)
    requires a <= b
    ensures Pow2(a) <= Pow2(b)
    ensures a < b ==> 2 * Pow2(a) <= Pow2(b)
    decreases b - a
  {
    if a < b {
      Pow2Monotone(a + 1, b);
    }
  }

  lemma {:induction false} Pow2Add(a: nat, b: nat)
    ensures Pow2(a + b) == Pow2(a) * Pow2(b)
  {
    if a > 0 {
      Pow2Add(a - 1, b);
      DoubleProduct(Pow2(a - 1), Pow2(b));
    }
  }

  lemma DoubleProduct(x: int, y: int)
    ensures (2 * x) * y == 2 * (x * y)
  {
  }

  /** __builtin_clz: leading zeros of a non-zero 32-bit word. */
  function Clz(x: nat): (c: nat)
    requires 0 < x < 0x1_0000_0000
    decreases 0x1_0000_0000 - x
  {
    if x >= 0x8000_0000 then 0 else 1 + Clz(2 * x)
  }

  lemma TopBit()
    ensures Pow2(31) == 0x8000_0000
  {
    assert Pow2(8) == 256;
    Pow2Add(8, 8);
    Pow2Add(8, 16);
    assert Pow2(7) == 128;
    Pow2Add(7, 24);
  }

  lemma {:induction false} ClzOf(x: nat, e: nat)
    requires 0 < x < 0x1_0000_0000
    requires e < 32 && Pow2(e) <= x < 2 * Pow2(e)
    ensures Clz(x) == 31 - e
    decreases 32 - e
  {
    TopBit();
    if e < 31 {
      Pow2Monotone(e + 1, 31);
      ClzOf(2 * x, e + 1);
    }
  }

  /** A logical right shift by s bits. */
  function ShiftRight(v: nat, s: nat): nat
  {
    if s == 0 then v else ShiftRight(v / 2, s - 1)
  }

  lemma {:induction false} ShiftRightPow2(n: nat, s: nat)
    requires s <= n
    ensures ShiftRight(Pow2(n), s) == Pow2(n - s)
  {
    if s > 0 {
      ShiftRightPow2(n - 1, s - 1);
    }
  }

  /** The exponent of the least power of two that is at least x. */
  function CeilLog2(x: nat): (e: nat)
    requires x >= 1
    ensures x <= Pow2(e)
    ensures e > 0 ==> Pow2(e - 1) < x
  {
    if x == 1 then 0 else 1 + CeilLog2((x + 1) / 2)
  }

  /** next_pow2: the top bit shifted right by one less than the leading zeros of x - 1. */
  function NextPow2(x: nat): nat
    requires x <= 0x8000_0000
  {
    if x <= 2 then x else ShiftRight(0x8000_0000, Clz(x - 1) - 1)
  }

  lemma NextPow2IsPow2(x: nat)
    requires 1 <= x <= 0x8000_0000
    ensures NextPow2(x) == Pow2(CeilLog2(x))
  {
    var e := CeilLog2(x);
    TopBit();
    hide Pow2, Clz;
    if x > 2 {
      if e > 31 {
        Pow2Monotone(31, e - 1);
        assert false;
      }
      if e == 1 {
        assert false;
      }
      ClzOf(x - 1, e - 1);
      ShiftRightPow2(31, 31 - e);
    }
  }

  /** next_pow2 returns the least power of two that is at least its argument. */
  lemma NextPow2IsLeast(x: nat)
    requires 1 <= x <= 0x8000_0000
    ensures NextPow2(x) == Pow2(CeilLog2(x))
    ensures x <= NextPow2(x)
    ensures forall e: nat :: x <= Pow2(e) ==> NextPow2(x) <= Pow2(e)
  {
    hide Pow2, NextPow2;
    NextPow2IsPow2(x);
    var e := CeilLog2(x);
    forall f: nat | x <= Pow2(f) ensures Pow2(e) <= Pow2(f) {
      if f < e {
        Pow2Monotone(f, e - 1);
      } else {
        Pow2Monotone(e, f);
      }
    }
  }
}
