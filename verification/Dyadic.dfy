/** Powers of two, alignment, and the bit operations the allocators apply to addresses.
    Everything is defined bit by bit, so that each law below is a short induction
    over linear arithmetic. */
module Dyadic {
  function Pow2(n: nat): (p: nat)
    ensures p > 0
  {
    if n == 0 then 1 else 2 * Pow2(n - 1)
  }

  /** The n lowest bits of a are clear: a is a multiple of 2^n. */
  predicate Aligned(a: nat, n: nat) {
    n == 0 || (a % 2 == 0 && Aligned(a / 2, n - 1))
  }

  /** Bit n of a. */
  predicate Bit(a: nat, n: nat) {
    if n == 0 then a % 2 == 1 else Bit(a / 2, n - 1)
  }

  /** Bitwise exclusive or. */
  function Xor(a: nat, b: nat): nat
    decreases a + b
  {
    if a == 0 && b == 0 then 0
    else (if a % 2 == b % 2 then 0 else 1) + 2 * Xor(a / 2, b / 2)
  }

  /** Bitwise and. */
  function And(a: nat, b: nat): nat {
    if a == 0 then 0
    else (if a % 2 == 1 && b % 2 == 1 then 1 else 0) + 2 * And(a / 2, b / 2)
  }

  lemma {:induction false} Pow2Monotone(m: nat, n: nat)
    requires m < n
    ensures 2 * Pow2(m) <= Pow2(n)
  {
    if m + 1 < n {
      Pow2Monotone(m, n - 1);
    }
  }

  lemma Pow2Injective(m: nat, n: nat)
    requires Pow2(m) <= Pow2(n)
    ensures m <= n
  {
    if n < m {
      Pow2Monotone(n, m);
    }
  }

  lemma {:induction false} AlignedWeaken(a: nat, m: nat, n: nat)
    requires Aligned(a, n) && m <= n
    ensures Aligned(a, m)
  {
    if m > 0 {
      AlignedWeaken(a / 2, m - 1, n - 1);
    }
  }

  lemma {:induction false} AlignedSum(a: nat, b: nat, n: nat)
    requires Aligned(a, n) && Aligned(b, n)
    ensures Aligned(a + b, n)
    ensures a >= b ==> Aligned(a - b, n)
  {
    if n > 0 {
      AlignedSum(a / 2, b / 2, n - 1);
      assert (a + b) / 2 == a / 2 + b / 2;
      assert a >= b ==> (a - b) / 2 == a / 2 - b / 2;
    }
  }

  lemma {:induction false} AlignedPow2(m: nat, n: nat)
    requires n <= m
    ensures Aligned(Pow2(m), n)
  {
    if n > 0 {
      AlignedPow2(m - 1, n - 1);
    }
  }

  /** Two different multiples of 2^n are at least 2^n apart. */
  lemma {:induction false} AlignedGap(a: nat, b: nat, n: nat)
    requires Aligned(a, n) && Aligned(b, n) && a < b
    ensures a + Pow2(n) <= b
  {
    if n > 0 {
      AlignedGap(a / 2, b / 2, n - 1);
    }
  }

  lemma AlignedAtMost(a: nat, b: nat, n: nat)
    requires Aligned(a, n) && Aligned(b, n) && b < a + Pow2(n)
    ensures b <= a
  {
    if a < b {
      AlignedGap(a, b, n);
      assert false;
    }
  }

  /** A multiple of 2^n is a multiple of 2^(n+1) exactly when bit n is clear. */
  lemma {:induction false} AlignedBit(a: nat, n: nat)
    requires Aligned(a, n)
    ensures Aligned(a, n + 1) <==> !Bit(a, n)
    ensures Bit(a, n) ==> a >= Pow2(n) && Aligned(a - Pow2(n), n + 1)
  {
    if n > 0 {
      AlignedBit(a / 2, n - 1);
      if Bit(a, n) {
        assert (a - Pow2(n)) / 2 == a / 2 - Pow2(n - 1);
      }
    }
  }

  lemma {:induction false} XorZero(a: nat)
    ensures Xor(a, 0) == a
  {
    if a > 0 {
      XorZero(a / 2);
    }
  }

  lemma XorEven(a: nat, b: nat)
    requires b > 0
    ensures Xor(a, 2 * b) == a % 2 + 2 * Xor(a / 2, b)
  {
    assert (2 * b) % 2 == 0 && (2 * b) / 2 == b;
  }

  /** Exclusive or with a power of two adds or subtracts it, by the value of the bit. */
  lemma {:induction false} XorPow2(a: nat, n: nat)
    ensures Bit(a, n) ==> a >= Pow2(n) && Xor(a, Pow2(n)) == a - Pow2(n)
    ensures !Bit(a, n) ==> Xor(a, Pow2(n)) == a + Pow2(n)
  {
    if n == 0 {
      XorZero(a / 2);
      assert Xor(a, 1) == (if a % 2 == 1 then 0 else 1) + 2 * Xor(a / 2, 0);
    } else {
      XorPow2(a / 2, n - 1);
      XorEven(a, Pow2(n - 1));
    }
  }

  lemma {:induction false} BitFlips(a: nat, n: nat)
    ensures Bit(a + Pow2(n), n) <==> !Bit(a, n)
  {
    if n > 0 {
      BitFlips(a / 2, n - 1);
      assert (a + Pow2(n)) / 2 == a / 2 + Pow2(n - 1);
    }
  }

  /** Flipping the same bit twice changes nothing. */
  lemma XorInvolution(a: nat, n: nat)
    ensures Xor(Xor(a, Pow2(n)), Pow2(n)) == a
    ensures Bit(Xor(a, Pow2(n)), n) <==> !Bit(a, n)
  {
    XorPow2(a, n);
    if Bit(a, n) {
      BitFlips(a - Pow2(n), n);
      XorPow2(a - Pow2(n), n);
    } else {
      BitFlips(a, n);
      XorPow2(a + Pow2(n), n);
    }
  }

  lemma {:induction false} AndZero(a: nat)
    ensures And(a, 0) == 0
  {
    if a > 0 {
      AndZero(a / 2);
    }
  }

  lemma {:induction false} AndSelf(a: nat)
    ensures And(a, a) == a
  {
    if a > 0 {
      AndSelf(a / 2);
    }
  }

  /** Floor of the base-two logarithm; 0 for 0, as the kernel's loop answers. */
  function Log2(x: nat): nat {
    if x < 2 then 0 else 1 + Log2(x / 2)
  }

  lemma {:induction false} Log2Bounds(x: nat)
    requires x > 0
    ensures Pow2(Log2(x)) <= x < 2 * Pow2(Log2(x))
  {
    if x >= 2 {
      Log2Bounds(x / 2);
    }
  }

  lemma {:induction false} Log2Unique(x: nat, n: nat)
    requires Pow2(n) <= x < 2 * Pow2(n)
    ensures Log2(x) == n
  {
    if n > 0 {
      Log2Unique(x / 2, n - 1);
    }
  }

  lemma {:induction false} Log2Pow2(n: nat)
    ensures Log2(Pow2(n)) == n
  {
    if n > 0 {
      Log2Pow2(n - 1);
    }
  }

  /** The test x & (x - 1) == 0 recognises exactly the powers of two. */
  lemma {:induction false} AndPredecessor(x: nat)
    requires x > 0
    ensures And(x, x - 1) == 0 <==> x == Pow2(Log2(x))
  {
    if x == 1 {
    } else if x % 2 == 0 {
      AndPredecessor(x / 2);
      assert (x - 1) / 2 == x / 2 - 1;
    } else {
      AndSelf(x / 2);
      assert (x - 1) / 2 == x / 2;
      assert And(x, x - 1) == 2 * (x / 2);
      assert Pow2(Log2(x)) == 2 * Pow2(Log2(x / 2));
    }
  }
}
