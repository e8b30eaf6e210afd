/** Decimal digit strings and remainders modulo 97. */
module Decimals {

  type Digit = d: nat | d < 10

  function Pow10(n: nat): (p: nat)
    ensures p > 0
  {
    if n == 0 then 1 else 10 * Pow10(n - 1)
  }

  function Number(s: seq<Digit>): nat {
    if s == [] then 0 else 10 * Number(s[..|s| - 1]) + s[|s| - 1]
  }

  function ToDecimal(n: nat): (s: seq<Digit>)
    ensures s != []
  {
    if n < 10 then [n] else ToDecimal(n / 10) + [n % 10]
  }

  lemma {:induction false} NumberOfDecimal(n: nat)
    ensures Number(ToDecimal(n)) == n
  {
    if n < 10 {
      assert [n][..0] == [];
    } else {
      NumberOfDecimal(n / 10);
      assert ToDecimal(n)[..|ToDecimal(n)| - 1] == ToDecimal(n / 10);
    }
  }

  lemma {:induction false} NumberJoin(s: seq<Digit>, t: seq<Digit>)
    ensures Number(s + t) == Number(s) * Pow10(|t|) + Number(t)
  {
    if t == [] {
      assert s + t == s;
    } else {
      var t' := t[..|t| - 1];
      NumberJoin(s, t');
      assert (s + t)[..|s + t| - 1] == s + t';
      assert Number(s) * Pow10(|t|) == 10 * (Number(s) * Pow10(|t'|));
    }
  }

  lemma {:induction false} NumberBound(s: seq<Digit>)
    ensures Number(s) < Pow10(|s|)
  {
    if s != [] {
      NumberBound(s[..|s| - 1]);
    }
  }

  lemma {:induction false} Pow10Grows(m: nat, n: nat)
    requires m <= n
    ensures Pow10(m) <= Pow10(n)
    decreases n
  {
    if m < n {
      Pow10Grows(m, n - 1);
    }
  }

  /** Numbers that differ by a multiple of 97 leave the same remainder. */
  lemma {:induction false} Mod97(k: int, x: nat)
    requires 97 * k + x >= 0
    ensures (97 * k + x) % 97 == x % 97
  {
  }

  /** Replacing the leading digits by their remainder keeps the remainder. */
  lemma {:induction false} LeadReduced(a: nat, p: nat, c: nat)
    ensures ((a % 97) * p + c) % 97 == (a * p + c) % 97
  {
    var q, r := a / 97, a % 97;
    assert a * p == 97 * (q * p) + r * p;
    Mod97(q * p, r * p + c);
  }

  /** 10 is a unit modulo 97. */
  lemma {:induction false} TimesTen(m: int)
    requires (10 * m) % 97 == 0
    ensures m % 97 == 0
  {
    var q := 10 * m / 97;
    assert m == 97 * (68 * q - 7 * m);
  }

  /** A difference below 97 in size survives being shifted left. */
  lemma {:induction false} ShiftSurvives(d: int, n: nat)
    requires -97 < d < 97 && d != 0
    ensures (d * Pow10(n)) % 97 != 0
  {
    if n > 0 {
      ShiftSurvives(d, n - 1);
      assert d * Pow10(n) == 10 * (d * Pow10(n - 1));
      if (10 * (d * Pow10(n - 1))) % 97 == 0 {
        TimesTen(d * Pow10(n - 1));
      }
    }
  }

  lemma {:induction false} SameRemainder(a: int, b: int)
    requires a % 97 == b % 97
    ensures (a - b) % 97 == 0
  {
  }
}
