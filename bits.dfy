/**
 * Integer bit-width helpers in the sense of Migen's `bits_for` and `log2_int`,
 * used to size counters and address buses.
 */
module Bits {

  function Pow2(k: nat): (r: nat)
    ensures r >= 1
  {
    if k == 0 then 1 else 2 * Pow2(k - 1)
  }

  lemma {:induction false} Pow2Add(a: nat, b: nat)
    ensures Pow2(a + b) == Pow2(a) * Pow2(b)
  {
    if a > 0 {
      Pow2Add(a - 1, b);
    }
  }

  /** A wider field never has a smaller range. */
  lemma {:induction false} Pow2Monotonic(a: nat, b: nat)
    requires a <= b
    ensures Pow2(a) <= Pow2(b)
  {
    if a < b {
      Pow2Monotonic(a, b - 1);
    }
  }

  /** Migen's `bits_for(n)`: the number of bits needed to hold n (at least one). */
  function BitsFor(n: nat): (r: nat)
    ensures r >= 1
  {
    if n < 2 then 1 else 1 + BitsFor(n / 2)
  }

  predicate IsPowerOfTwo(n: nat)
  {
    n == 1 || (n >= 2 && n % 2 == 0 && IsPowerOfTwo(n / 2))
  }

  /** Exact base-2 logarithm of a power of two. */
  function Log2(n: nat): nat
    requires IsPowerOfTwo(n)
  {
    if n == 1 then 0 else 1 + Log2(n / 2)
  }

  /** BitsFor(n) bits hold n, and no fewer would. */
  lemma {:induction false} BitsForBounds(n: nat)
    ensures n < Pow2(BitsFor(n))
    ensures n >= 2 ==> Pow2(BitsFor(n) - 1) <= n
  {
    if n >= 2 {
      BitsForBounds(n / 2);
    }
  }

  lemma {:induction false} Pow2IsPowerOfTwo(k: nat)
    ensures IsPowerOfTwo(Pow2(k))
  {
    if k > 0 {
      Pow2IsPowerOfTwo(k - 1);
      assert Pow2(k) / 2 == Pow2(k - 1);
    }
  }

  lemma {:induction false} Log2OfPow2(k: nat)
    ensures IsPowerOfTwo(Pow2(k)) && Log2(Pow2(k)) == k
  {
    Pow2IsPowerOfTwo(k);
    if k > 0 {
      Log2OfPow2(k - 1);
      assert Pow2(k) / 2 == Pow2(k - 1);
    }
  }

  /**
   * A counter declared with exclusive bound m (Migen `Signal(max=m)`) has
   * BitsFor(m - 1) bits; every value up to m fits unless m is a power of two.
   */
  lemma ExclusiveBoundHolds(m: nat, v: nat)
    requires m >= 1 && v <= m && !IsPowerOfTwo(m)
    ensures v < Pow2(BitsFor(m - 1))
  {
    BitsForBounds(m - 1);
    if Pow2(BitsFor(m - 1)) == m {
      Pow2IsPowerOfTwo(BitsFor(m - 1));
      assert false;
    }
  }

  /** With exclusive bound m = 2^k, the value m itself does not fit. */
  lemma {:induction false} ExclusiveBoundOverflows(k: nat)
    requires k >= 1
    ensures Pow2(BitsFor(Pow2(k) - 1)) == Pow2(k)
  {
    BitsForOfPow2Minus1(k);
  }

  lemma {:induction false} BitsForOfPow2Minus1(k: nat)
    requires k >= 1
    ensures BitsFor(Pow2(k) - 1) == k
  {
    if k > 1 {
      BitsForOfPow2Minus1(k - 1);
      assert (Pow2(k) - 1) / 2 == Pow2(k - 1) - 1;
    }
  }
}
