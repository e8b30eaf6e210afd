/** The bits of a machine word as a set of positions. */
module WordBits {
  import opened Bits
  import opened Sets

  predicate BitAt(w: nat, i: nat)
    decreases i, w
  {
    if i == 0 then w % 2 == 1 else BitAt(w / 2, i - 1)
  }

  function CountOnes(w: nat): nat {
    if w == 0 then 0 else w % 2 + CountOnes(w / 2)
  }

  lemma {:induction false} AndBit(a: nat, b: nat, i: nat)
    ensures BitAt(BitAnd(a, b), i) <==> BitAt(a, i) && BitAt(b, i)
  {
    if a == 0 || b == 0 {
      NoBit(i);
    } else if i > 0 {
      AndBit(a / 2, b / 2, i - 1);
    }
  }

  lemma {:induction false} OrBit(a: nat, b: nat, i: nat)
    ensures BitAt(BitOr(a, b), i) <==> BitAt(a, i) || BitAt(b, i)
  {
    if i > 0 {
      if a == 0 && b == 0 {
        NoBit(i);
      } else {
        OrBit(a / 2, b / 2, i - 1);
      }
    }
  }

  lemma {:induction false} XorHalf(a: nat, b: nat)
    ensures BitXor(a, b) / 2 == BitXor(a / 2, b / 2) && BitXor(a, b) % 2 == if a % 2 != b % 2 then 1 else 0
  {
    if a == 0 && b == 0 {
      assert a / 2 == 0 && b / 2 == 0;
    }
  }

  lemma {:induction false} XorBit(a: nat, b: nat, i: nat)
    ensures BitAt(BitXor(a, b), i) <==> BitAt(a, i) != BitAt(b, i)
  {
    XorHalf(a, b);
    if i > 0 {
      if a == 0 && b == 0 {
        NoBit(i);
      } else {
        XorBit(a / 2, b / 2, i - 1);
      }
    }
  }

  lemma {:induction false} AndNotBit(a: nat, b: nat, i: nat)
    ensures BitAt(BitAndNot(a, b), i) <==> BitAt(a, i) && !BitAt(b, i)
  {
    if a == 0 {
      NoBit(i);
    } else if i > 0 {
      AndNotBit(a / 2, b / 2, i - 1);
    }
  }

  lemma {:induction false} NoBit(i: nat)
    ensures !BitAt(0, i)
  {
    if i > 0 {
      NoBit(i - 1);
    }
  }

  lemma {:induction false} OneBit(k: nat, i: nat)
    ensures BitAt(Shl(1, k), i) <==> i == k
  {
    if k == 0 {
      if i > 0 {
        NoBit(i - 1);
      }
    } else if i > 0 {
      OneBit(k - 1, i - 1);
    }
  }

  lemma {:induction false} SomeBit(w: nat) returns (i: nat)
    requires w > 0
    ensures BitAt(w, i)
  {
    if w % 2 == 1 {
      i := 0;
    } else {
      i := SomeBit(w / 2);
      i := i + 1;
    }
  }

  /** Words with the same bits are the same. */
  lemma {:induction false} SameBits(a: nat, b: nat)
    requires forall i: nat :: BitAt(a, i) == BitAt(b, i)
    ensures a == b
    decreases a + b
  {
    if a != 0 || b != 0 {
      assert BitAt(a, 0) == BitAt(b, 0);
      forall i: nat
        ensures BitAt(a / 2, i) == BitAt(b / 2, i)
      {
        assert BitAt(a, i + 1) == BitAt(b, i + 1);
      }
      SameBits(a / 2, b / 2);
    }
  }

  /** Testing a single-bit mask tests that bit. */
  lemma {:induction false} MaskedBit(w: nat, k: nat)
    ensures BitAnd(w, Shl(1, k)) != 0 <==> BitAt(w, k)
  {
    var m := BitAnd(w, Shl(1, k));
    AndBit(w, Shl(1, k), k);
    OneBit(k, k);
    if m == 0 {
      NoBit(k);
    } else {
      var i := SomeBit(m);
      AndBit(w, Shl(1, k), i);
      OneBit(k, i);
    }
  }

  lemma {:induction false} HighBit(w: nat, n: nat, i: nat)
    requires w < Pow2(n) && n <= i
    ensures !BitAt(w, i)
    decreases i
  {
    if n == 0 {
      NoBit(i);
    } else {
      HighBit(w / 2, n - 1, i - 1);
    }
  }

  lemma {:induction false} AndFits(a: nat, b: nat, n: nat)
    requires a < Pow2(n)
    ensures BitAnd(a, b) < Pow2(n)
  {
    if a != 0 && b != 0 {
      AndFits(a / 2, b / 2, n - 1);
    }
  }

  lemma {:induction false} OrFits(a: nat, b: nat, n: nat)
    requires a < Pow2(n) && b < Pow2(n)
    ensures BitOr(a, b) < Pow2(n)
  {
    if a != 0 || b != 0 {
      OrFits(a / 2, b / 2, n - 1);
    }
  }

  lemma {:induction false} XorFits(a: nat, b: nat, n: nat)
    requires a < Pow2(n) && b < Pow2(n)
    ensures BitXor(a, b) < Pow2(n)
  {
    if a != 0 || b != 0 {
      XorFits(a / 2, b / 2, n - 1);
    }
  }

  lemma {:induction false} AndNotFits(a: nat, b: nat, n: nat)
    requires a < Pow2(n)
    ensures BitAndNot(a, b) < Pow2(n)
  {
    if a != 0 {
      AndNotFits(a / 2, b / 2, n - 1);
    }
  }

  lemma {:induction false} OneFits(k: nat, n: nat)
    requires k < n
    ensures Shl(1, k) < Pow2(n)
  {
    ShlIs(1, k);
    Pow2Monotone(k, n);
  }

  /** The positions base + i of the bits i < n set in a word. */
  ghost function Ones(w: nat, base: nat, n: nat): (s: set<nat>)
    ensures forall v :: v in s <==> base <= v < base + n && BitAt(w, v - base)
  {
    var range := Interval(base, base + n);
    set v | v in range && BitAt(w, v - base)
  }

  lemma {:induction false} OnesSize(w: nat, base: nat, n: nat)
    requires w < Pow2(n)
    ensures |Ones(w, base, n)| == CountOnes(w)
    decreases n
  {
    if n == 0 {
      assert Ones(w, base, n) == {};
    } else {
      OnesSize(w / 2, base + 1, n - 1);
      var rest := Ones(w / 2, base + 1, n - 1);
      assert Ones(w, base, n) == (if w % 2 == 1 then {base} + rest else rest);
      if w > 0 {
        assert CountOnes(w) == w % 2 + CountOnes(w / 2);
      }
    }
  }
}
