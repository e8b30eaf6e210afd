/** Machine-word bit operations on natural numbers, bit by bit. */
module Bits {

  function Pow2(k: nat): (p: nat)
    ensures p > 0
  {
    if k == 0 then 1 else 2 * Pow2(k - 1)
  }

  /** x >> k */
  function Shr(x: nat, k: nat): nat
    decreases k, x
  {
    if k == 0 then x else Shr(x / 2, k - 1)
  }

  /** x << k */
  function Shl(x: nat, k: nat): nat
    decreases k, x
  {
    if k == 0 then x else 2 * Shl(x, k - 1)
  }

  lemma {:induction false} ShlIs(x: nat, k: nat)
    ensures Shl(x, k) == x * Pow2(k)
  {
    if k > 0 {
      ShlIs(x, k - 1);
    }
  }

  /** a ^ b */
  function BitXor(a: nat, b: nat): nat
    decreases a + b
  {
    if a == 0 && b == 0 then 0
    else 2 * BitXor(a / 2, b / 2) + (if a % 2 != b % 2 then 1 else 0)
  }

  /** a | b */
  function BitOr(a: nat, b: nat): nat
    decreases a + b
  {
    if a == 0 && b == 0 then 0
    else 2 * BitOr(a / 2, b / 2) + (if a % 2 == 1 || b % 2 == 1 then 1 else 0)
  }

  /** a & b */
  function BitAnd(a: nat, b: nat): nat {
    if a == 0 || b == 0 then 0
    else 2 * BitAnd(a / 2, b / 2) + (if a % 2 == 1 && b % 2 == 1 then 1 else 0)
  }

  /** a & !b */
  function BitAndNot(a: nat, b: nat): nat {
    if a == 0 then 0
    else 2 * BitAndNot(a / 2, b / 2) + (if a % 2 == 1 && b % 2 == 0 then 1 else 0)
  }

  /** floor(log2(x)): the index of the highest set bit. */
  function Log2(x: nat): nat
    requires x > 0
  {
    if x == 1 then 0 else 1 + Log2(x / 2)
  }

  lemma {:induction false} Log2Bounds(x: nat)
    requires x > 0
    ensures Pow2(Log2(x)) <= x < Pow2(Log2(x) + 1)
  {
    if x > 1 {
      Log2Bounds(x / 2);
    }
  }

  lemma {:induction false} Pow2Monotone(j: nat, k: nat)
    requires j <= k
    ensures Pow2(j) <= Pow2(k)
    ensures j < k ==> Pow2(j) < Pow2(k)
    decreases k - j
  {
    if j < k {
      Pow2Monotone(j + 1, k);
    }
  }

  lemma {:induction false} ShrStep(x: nat, k: nat)
    ensures Shr(x, k + 1) == Shr(x, k) / 2
  {
    if k > 0 {
      ShrStep(x / 2, k - 1);
    }
  }

  lemma {:induction false} ShrZero(k: nat)
    ensures Shr(0, k) == 0
  {
    if k > 0 {
      ShrZero(k - 1);
    }
  }

  /** x >> k is the one q with q * 2^k <= x < (q + 1) * 2^k. */
  lemma {:induction false} ShrBounds(x: nat, k: nat, q: nat)
    ensures q * Pow2(k) <= x < q * Pow2(k) + Pow2(k) <==> q == Shr(x, k)
  {
    if k > 0 {
      ShrBounds(x / 2, k - 1, q);
      Twice(q, Pow2(k - 1));
      HalfBounds(x, q * Pow2(k - 1), Pow2(k - 1));
    }
  }

  lemma {:induction false} HalfBounds(x: nat, a: nat, p: nat)
    ensures a <= x / 2 < a + p <==> 2 * a <= x < 2 * a + 2 * p
  {
  }

  lemma {:induction false} AndNotOdd(a: nat, b: nat)
    ensures BitAndNot(a, 2 * b + 1) == 2 * BitAndNot(a / 2, b)
  {
    assert (2 * b + 1) / 2 == b;
  }

  lemma {:induction false} Twice(q: nat, p: nat)
    ensures q * (2 * p) == 2 * (q * p)
  {
  }

  /** a & !(2^k - 1) clears the low k bits. */
  lemma {:induction false} ClearLow(a: nat, k: nat)
    ensures BitAndNot(a, Pow2(k) - 1) == Shr(a, k) * Pow2(k)
  {
    if a == 0 {
      ShrZero(k);
    } else if k == 0 {
      AndNotZero(a);
    } else {
      ClearLow(a / 2, k - 1);
      AndNotOdd(a, Pow2(k - 1) - 1);
      assert Pow2(k) - 1 == 2 * (Pow2(k - 1) - 1) + 1;
      Twice(Shr(a, k), Pow2(k - 1));
    }
  }

  lemma {:induction false} AndNotZero(a: nat)
    ensures BitAndNot(a, 0) == a
  {
    if a > 0 {
      AndNotZero(a / 2);
    }
  }

  lemma {:induction false} OrZero(a: nat)
    ensures BitOr(a, 0) == a
    ensures BitOr(0, a) == a
  {
    if a > 0 {
      OrZero(a / 2);
    }
  }

  lemma {:induction false} XorZero(a: nat)
    ensures BitXor(a, 0) == a
    ensures BitXor(0, a) == a
  {
    if a > 0 {
      XorZero(a / 2);
    }
  }

  /** a | (2^k - 1) sets the low k bits. */
  lemma {:induction false} SetLow(a: nat, k: nat)
    ensures BitOr(a, Pow2(k) - 1) == Shr(a, k) * Pow2(k) + Pow2(k) - 1
  {
    if k == 0 {
      OrZero(a);
    } else {
      SetLow(a / 2, k - 1);
      OrOdd(a, Pow2(k - 1) - 1);
      Twice(Shr(a, k), Pow2(k - 1));
    }
  }

  lemma {:induction false} OrOdd(a: nat, b: nat)
    ensures BitOr(a, 2 * b + 1) == 2 * BitOr(a / 2, b) + 1
  {
    assert (2 * b + 1) / 2 == b;
  }

  /** Clearing and setting the low k bits of x bounds exactly the numbers that agree with x above them. */
  lemma {:induction false} LowBitsBound(x: nat, k: nat, i: nat)
    ensures BitAndNot(x, Pow2(k) - 1) <= BitOr(x, Pow2(k) - 1)
    ensures BitAndNot(x, Pow2(k) - 1) <= i <= BitOr(x, Pow2(k) - 1) <==> Shr(i, k) == Shr(x, k)
  {
    ClearLow(x, k);
    SetLow(x, k);
    ShrBounds(i, k, Shr(x, k));
  }

  /** a ^ 2^k flips bit k: above k nothing changes, and at k the block index changes. */
  lemma {:induction false} FlipBit(a: nat, k: nat)
    ensures Shr(BitXor(a, Pow2(k)), k) == if Shr(a, k) % 2 == 0 then Shr(a, k) + 1 else Shr(a, k) - 1
  {
    if k == 0 {
      XorZero(a / 2);
    } else {
      FlipBit(a / 2, k - 1);
      XorEven(a, Pow2(k - 1));
    }
  }

  lemma {:induction false} XorEven(a: nat, b: nat)
    requires b > 0
    ensures BitXor(a, 2 * b) / 2 == BitXor(a / 2, b)
  {
    assert 2 * b / 2 == b;
  }

  /** x & (2^k - 1) keeps the low k bits. */
  lemma {:induction false} AndLow(x: nat, k: nat)
    ensures BitAnd(x, Pow2(k) - 1) == x - Shr(x, k) * Pow2(k)
  {
    if x == 0 {
      ShrZero(k);
    } else if k > 0 {
      AndLow(x / 2, k - 1);
      assert (2 * Pow2(k - 1) - 1) / 2 == Pow2(k - 1) - 1;
      Twice(Shr(x, k), Pow2(k - 1));
    }
  }

  /** x & (2^n - 2^k) clears the low k bits of an n-bit number. */
  lemma {:induction false} AndHigh(x: nat, k: nat, n: nat)
    requires k <= n && x < Pow2(n)
    ensures Pow2(n) >= Pow2(k) && BitAnd(x, Pow2(n) - Pow2(k)) == Shr(x, k) * Pow2(k)
  {
    Pow2Monotone(k, n);
    if x == 0 {
      ShrZero(k);
    } else if k == 0 {
      AndLow(x, n);
      ShrBounds(x, n, 0);
    } else {
      AndHigh(x / 2, k - 1, n - 1);
      assert (2 * (Pow2(n - 1) - Pow2(k - 1))) / 2 == Pow2(n - 1) - Pow2(k - 1);
      Twice(Shr(x, k), Pow2(k - 1));
    }
  }

  /** Or-ing in bits above the low k is adding them. */
  lemma {:induction false} OrHigh(x: nat, c: nat, k: nat)
    requires x < Pow2(k)
    ensures BitOr(x, c * Pow2(k)) == x + c * Pow2(k)
  {
    if k == 0 {
      OrZero(c);
    } else {
      OrHigh(x / 2, c, k - 1);
      Twice(c, Pow2(k - 1));
      assert (2 * (c * Pow2(k - 1))) / 2 == c * Pow2(k - 1);
    }
  }

  lemma {:induction false} Pow2Of16()
    ensures Pow2(16) == 0x1_0000
  {
    assert Pow2(4) == 16;
    assert Pow2(8) == 256;
    assert Pow2(12) == 4096;
  }
}
