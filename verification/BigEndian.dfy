/** Big-endian byte strings and their lexicographic order (beserial/src/lib.rs). */
module BigEndian {
  import opened Bits

  type Byte = b: nat | b < 256

  function Pow256(n: nat): (p: nat)
    ensures p > 0
  {
    if n == 0 then 1 else 256 * Pow256(n - 1)
  }

  /** The low n bytes of a number, most significant first. */
  function Bytes(x: nat, n: nat): (s: seq<Byte>)
    ensures |s| == n
    decreases n, x
  {
    if n == 0 then [] else Bytes(x / 256, n - 1) + [x % 256]
  }

  function Value(s: seq<Byte>): nat {
    if s == [] then 0 else 256 * Value(s[..|s| - 1]) + s[|s| - 1]
  }

  predicate LexLess(a: seq<Byte>, b: seq<Byte>) {
    b != [] && (a == [] || a[0] < b[0] || (a[0] == b[0] && LexLess(a[1..], b[1..])))
  }

  lemma {:induction false} ValueBound(s: seq<Byte>)
    ensures Value(s) < Pow256(|s|)
  {
    if s != [] {
      ValueBound(s[..|s| - 1]);
    }
  }

  lemma {:induction false} ValueOfBytes(x: nat, n: nat)
    requires x < Pow256(n)
    ensures Value(Bytes(x, n)) == x
  {
    if n > 0 {
      ValueOfBytes(x / 256, n - 1);
      assert Bytes(x, n)[..n - 1] == Bytes(x / 256, n - 1);
    }
  }

  lemma {:induction false} BytesOfValue(s: seq<Byte>)
    ensures Bytes(Value(s), |s|) == s
  {
    if s != [] {
      BytesOfValue(s[..|s| - 1]);
      assert s == s[..|s| - 1] + [s[|s| - 1]];
    }
  }

  lemma {:induction false} BytesNext(x: nat, r: Byte, k: nat, y: nat)
    requires y == 256 * x + r
    ensures Bytes(y, k + 1) == Bytes(x, k) + [r]
  {
    assert y / 256 == x;
  }

  lemma {:induction false} Joined(hi: nat, m: nat, lo: nat, n: nat)
    requires lo < Pow256(n)
    ensures Bytes(hi, m) + Bytes(lo, n) == Bytes(hi * Pow256(n) + lo, m + n)
  {
    if n == 0 {
      assert Bytes(hi, m) + [] == Bytes(hi, m);
    } else {
      var q, r, p := lo / 256, lo % 256, Pow256(n - 1);
      Joined(hi, m, q, n - 1);
      Shifted(hi, p);
      BytesNext(hi * p + q, r, m + n - 1, hi * Pow256(n) + lo);
      BytesNext(q, r, n - 1, lo);
      assert Bytes(hi, m) + (Bytes(q, n - 1) + [r]) == (Bytes(hi, m) + Bytes(q, n - 1)) + [r];
    }
  }

  lemma {:induction false} Shifted(x: nat, p: nat)
    ensures x * (256 * p) == 256 * (x * p)
  {
  }

  lemma {:induction false} JoinedValue(s: seq<Byte>, t: seq<Byte>)
    ensures Value(s + t) == Value(s) * Pow256(|t|) + Value(t)
  {
    if t == [] {
      assert s + t == s;
    } else {
      var t' := t[..|t| - 1];
      JoinedValue(s, t');
      assert (s + t)[..|s + t| - 1] == s + t';
      assert Value(s) * Pow256(|t|) == 256 * (Value(s) * Pow256(|t'|));
    }
  }

  /** The first byte of a number and the rest. */
  lemma {:induction false} Parted(x: nat, n: nat) returns (h: Byte, l: nat)
    requires x < Pow256(n + 1)
    ensures x == h * Pow256(n) + l && l < Pow256(n) && Bytes(x, n + 1) == [h] + Bytes(l, n)
  {
    if n == 0 {
      h, l := x, 0;
    } else {
      var l';
      h, l' := Parted(x / 256, n - 1);
      l := 256 * l' + x % 256;
      Shifted(h, Pow256(n - 1));
      BytesNext(l', x % 256, n - 1, l);
      BytesNext(x / 256, x % 256, n, x);
      assert [h] + (Bytes(l', n - 1) + [x % 256]) == ([h] + Bytes(l', n - 1)) + [x % 256];
    }
  }

  lemma {:induction false} DigitsOrdered(a: nat, b: nat, c: nat, d: nat, p: nat)
    requires a * p + b < c * p + d && b < p && d < p
    ensures a < c || (a == c && b < d)
  {
    assert a > c ==> a * p >= (c + 1) * p;
  }

  lemma {:induction false} PartedInOrder(x: nat, y: nat, n: nat) returns (h: Byte, l: nat, h': Byte, l': nat)
    requires x < y < Pow256(n + 1)
    ensures Bytes(x, n + 1) == [h] + Bytes(l, n) && Bytes(y, n + 1) == [h'] + Bytes(l', n)
    ensures l < Pow256(n) && l' < Pow256(n) && (h < h' || (h == h' && l < l'))
  {
    h, l := Parted(x, n);
    h', l' := Parted(y, n);
    DigitsOrdered(h, l, h', l', Pow256(n));
  }

  lemma {:induction false} LexFirst(h: Byte, s: seq<Byte>, h': Byte, t: seq<Byte>)
    requires h < h' || (h == h' && LexLess(s, t))
    ensures LexLess([h] + s, [h'] + t)
  {
    assert ([h] + s)[1..] == s && ([h'] + t)[1..] == t;
  }

  /** Byte strings of one length order as the numbers they write. */
  lemma {:induction false} BytesOrdered(x: nat, y: nat, n: nat)
    requires x < y < Pow256(n)
    ensures LexLess(Bytes(x, n), Bytes(y, n))
    decreases n
  {
    if n > 0 {
      var h, l, h', l' := PartedInOrder(x, y, n - 1);
      if h == h' {
        BytesOrdered(l, l', n - 1);
      }
      LexFirst(h, Bytes(l, n - 1), h', Bytes(l', n - 1));
    }
  }

  lemma {:induction false} Pow256Is(n: nat)
    ensures Pow2(8 * n) == Pow256(n)
  {
    if n > 0 {
      Pow256Is(n - 1);
      var k := 8 * (n - 1);
      assert Pow2(k + 4) == 16 * Pow2(k) by {
        assert Pow2(k + 2) == 4 * Pow2(k);
      }
      assert Pow2(k + 8) == 16 * Pow2(k + 4) by {
        assert Pow2(k + 6) == 4 * Pow2(k + 4);
      }
    }
  }

  lemma {:induction false} Pow256Values()
    ensures Pow256(1) == 0x100 && Pow256(2) == 0x1_0000 && Pow256(3) == 0x100_0000 && Pow256(4) == 0x1_0000_0000
    ensures Pow256(5) == 0x100_0000_0000 && Pow256(6) == 0x1_0000_0000_0000 && Pow256(7) == 0x100_0000_0000_0000
    ensures Pow256(8) == 0x1_0000_0000_0000_0000 && Pow256(9) == 0x100_0000_0000_0000_0000
  {
    assert Pow256(3) == 0x100_0000;
    assert Pow256(6) == 0x1_0000_0000_0000;
  }
}
