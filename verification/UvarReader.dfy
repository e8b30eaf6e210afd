/** Reading variable-length integers (beserial/src/types.rs). */
module UvarReader {
  import opened Prelude
  import opened Bits
  import opened BigEndian
  import opened Uvars
  import opened UvarWriter

  type Reading = Result<(nat, seq<Byte>), SerializingError>

  /** A big-endian word of n bytes off the front of the input. */
  function Read(reader: seq<Byte>, n: nat): Reading {
    if |reader| < n then Failure(UnexpectedEof) else Success((Value(reader[..n]), reader[n..]))
  }

  /** Two words, the first counting 256^m times as much. */
  ghost function Read2(reader: seq<Byte>, n: nat, m: nat): Reading {
    match Read(reader, n)
    case Failure(e) => Failure(e)
    case Success(a) =>
      match Read(a.1, m)
      case Failure(e) => Failure(e)
      case Success(b) => Success((a.0 * Pow256(m) + b.0, b.1))
  }

  lemma {:induction false} TakeTwice<T>(s: seq<T>, n: nat, m: nat)
    requires n + m <= |s|
    ensures s[..n] + s[n..][..m] == s[..n + m]
  {
    assert s[n..][..m] == s[n..n + m];
  }

  lemma {:induction false} DropTwice<T>(s: seq<T>, n: nat, m: nat)
    requires n + m <= |s|
    ensures s[n..][m..] == s[n + m..]
  {
  }

  lemma {:induction false} Read2Is(reader: seq<Byte>, n: nat, m: nat)
    ensures Read2(reader, n, m) == Read(reader, n + m)
  {
    if |reader| >= n + m {
      JoinedValue(reader[..n], reader[n..][..m]);
      TakeTwice(reader, n, m);
      DropTwice(reader, n, m);
    }
  }

  lemma {:induction false} BothRead(reader: seq<Byte>, n: nat, m: nat, a: (nat, seq<Byte>), b: (nat, seq<Byte>), x: nat)
    requires Read(reader, n) == Success(a) && Read(a.1, m) == Success(b) && x == a.0 * Pow256(m) + b.0
    ensures Read(reader, n + m) == Success((x, b.1))
  {
    Read2Is(reader, n, m);
  }

  /** What a first byte and the bytes read after it amount to. */
  ghost function Completed(d: nat, k: nat, base: nat, tail: Reading): Reading {
    match tail
    case Failure(e) => Failure(e)
    case Success(a) => Finish(d * Pow256(k) + a.0 + base, a.1)
  }

  lemma {:induction false} UntaggedValue(t: seq<Byte>, k: nat, d: nat)
    requires k <= 8 && |t| == k + 1 && Tag(k) <= t[0] && d == t[0] - Tag(k)
    ensures Value(Untagged(t, k)) == d * Pow256(k) + Value(t[1..])
  {
    JoinedValue([d], t[1..]);
    assert Value([d]) == d by {
      assert [d][..0] == [];
    }
  }

  lemma {:induction false} TailRead(s: seq<Byte>, k: nat, t: seq<Byte>, rest: seq<Byte>)
    requires s == t + rest && |t| == k + 1
    ensures Read(s[1..], k) == Success((Value(t[1..]), rest))
  {
    assert t[1..] == s[1..][..k] && rest == s[1..][k..];
  }

  lemma {:induction false} DecodeWithIs(s: seq<Byte>, k: nat, d: nat, base: nat)
    requires s != [] && k <= 8 && Tag(k) <= s[0] && d == s[0] - Tag(k)
    ensures DecodeWith(s, k, base) == Completed(d, k, base, Read(s[1..], k))
  {
    if k < |s| {
      var t, rest := s[..k + 1], s[k + 1..];
      assert s == t + rest;
      UntaggedValue(t, k, d);
      TailRead(s, k, t, rest);
      DecodeWithTail(s, k, t, rest, base);
    }
  }

  lemma {:induction false} DecodeTail(s: seq<Byte>, k: nat, d: nat, base: nat)
    requires s != [] && LeadsTo(s[0], k) && d == s[0] - Tag(k) && base == Base(k)
    ensures Decode(s) == Completed(d, k, base, Read(s[1..], k))
  {
    DecodeIs(s, k);
    DecodeWithIs(s, k, d, base);
  }

  /** Short forms never overflow. */
  lemma {:induction false} TailFits(s: seq<Byte>, k: nat, d: nat, base: nat, a: nat)
    requires s != [] && LeadsTo(s[0], k) && d == s[0] - Tag(k) && base == Base(k) && k < 8 && k < |s| &&
             a == Value(s[1..][..k])
    ensures d * Pow256(k) + a + base < TWO_64
  {
    var t := s[..k + 1];
    UntaggedValue(t, k, d);
    assert t[1..] == s[1..][..k];
    Reencoded(t, k);
    Bases();
    if k + 1 < 8 {
      BasesGrow(k + 1, 8);
    }
  }

  lemma {:induction false} Truncated(s: seq<Byte>)
    requires s == [] || |s| <= Following(s[0])
    ensures Decode(s) == Failure(UnexpectedEof)
  {
  }

  lemma {:induction false} OneWord(s: seq<Byte>, k: nat, d: nat, high: nat, base: nat, a: (nat, seq<Byte>), v: nat)
    requires s != [] && Following(s[0]) == k && k < 8 && d == s[0] - Tag(k) && base == Base(k)
    requires Read(s[1..], k) == Success(a) && high == d * Pow256(k) && v == high + a.0 + base
    ensures Decode(s) == Success((v, a.1))
  {
    DecodeTail(s, k, d, base);
    TailFits(s, k, d, base, a.0);
  }

  lemma {:induction false} TwoWordsRead(s: seq<Byte>, k: nat, n: nat, m: nat, d: nat, high: nat, mid: nat, base: nat,
                                        a: (nat, seq<Byte>), b: (nat, seq<Byte>), v: nat)
    requires s != [] && Following(s[0]) == k && k < 8 && d == s[0] - Tag(k) && base == Base(k) && k == n + m
    requires Read(s[1..], n) == Success(a) && Read(a.1, m) == Success(b)
    requires high == d * Pow256(k) && mid == a.0 * Pow256(m) && v == high + mid + b.0 + base
    ensures Decode(s) == Success((v, b.1))
  {
    BothRead(s[1..], n, m, a, b, mid + b.0);
    OneWord(s, k, d, high, base, (mid + b.0, b.1), v);
  }

  lemma {:induction false} ShlBytes(x: nat, k: nat, bits: nat)
    requires bits == 8 * k
    ensures Shl(x, bits) == x * Pow256(k)
  {
    ShlIs(x, bits);
    Pow256Is(k);
  }

  /** The bits of a byte below its tag. */
  lemma {:induction false} BelowTag(first: Byte, j: nat, w: nat, q: nat, tag: nat)
    requires w == Pow2(j) && tag == q * w && tag <= first < tag + w
    ensures BitAnd(first, w - 1) == first - tag
  {
    AndLow(first, j);
    ShrBounds(first, j, q);
  }

  lemma {:induction false} Value1(s: seq<Byte>, first: Byte, a: (nat, seq<Byte>), v: nat)
    requires s != [] && s[0] == first && Following(first) == 1 && Read(s[1..], 1) == Success(a)
    requires v == Shl(BitAnd(first, 0x3f), 8) + a.0 + 0x80
    ensures Decode(s) == Success((v, a.1))
  {
    assert first - Tag(1) == BitAnd(first, 0x3f) && 0x80 == Base(1) by {
      Tags();
      Bases();
      BelowTag(first, 6, 0x40, 2, 0x80);
    }
    ShlBytes(BitAnd(first, 0x3f), 1, 8);
    OneWord(s, 1, BitAnd(first, 0x3f), Shl(BitAnd(first, 0x3f), 8), 0x80, a, v);
  }

  lemma {:induction false} Value2(s: seq<Byte>, first: Byte, a: (nat, seq<Byte>), v: nat)
    requires s != [] && s[0] == first && Following(first) == 2 && Read(s[1..], 2) == Success(a)
    requires v == Shl(BitAnd(first, 0x1f), 16) + a.0 + 0x4080
    ensures Decode(s) == Success((v, a.1))
  {
    assert first - Tag(2) == BitAnd(first, 0x1f) && 0x4080 == Base(2) by {
      Tags();
      Bases();
      BelowTag(first, 5, 0x20, 6, 0xC0);
    }
    ShlBytes(BitAnd(first, 0x1f), 2, 16);
    OneWord(s, 2, BitAnd(first, 0x1f), Shl(BitAnd(first, 0x1f), 16), 0x4080, a, v);
  }

  lemma {:induction false} Value3(s: seq<Byte>, first: Byte, a: (nat, seq<Byte>), b: (nat, seq<Byte>), v: nat)
    requires s != [] && s[0] == first && Following(first) == 3 && Read(s[1..], 1) == Success(a) &&
             Read(a.1, 2) == Success(b)
    requires v == Shl(BitAnd(first, 0x0f), 24) + Shl(a.0, 16) + b.0 + 0x20_4080
    ensures Decode(s) == Success((v, b.1))
  {
    assert first - Tag(3) == BitAnd(first, 0x0f) && 0x20_4080 == Base(3) by {
      Tags();
      Bases();
      BelowTag(first, 4, 0x10, 14, 0xE0);
    }
    ShlBytes(BitAnd(first, 0x0f), 3, 24);
    ShlBytes(a.0, 2, 16);
    TwoWordsRead(s, 3, 1, 2, BitAnd(first, 0x0f), Shl(BitAnd(first, 0x0f), 24), Shl(a.0, 16), 0x20_4080, a, b, v);
  }

  lemma {:induction false} Value4(s: seq<Byte>, first: Byte, a: (nat, seq<Byte>), v: nat)
    requires s != [] && s[0] == first && Following(first) == 4 && Read(s[1..], 4) == Success(a)
    requires v == Shl(BitAnd(first, 0x07), 32) + a.0 + 0x1020_4080
    ensures Decode(s) == Success((v, a.1))
  {
    assert first - Tag(4) == BitAnd(first, 0x07) && 0x1020_4080 == Base(4) by {
      Tags();
      Bases();
      BelowTag(first, 3, 0x08, 30, 0xF0);
    }
    ShlBytes(BitAnd(first, 0x07), 4, 32);
    OneWord(s, 4, BitAnd(first, 0x07), Shl(BitAnd(first, 0x07), 32), 0x1020_4080, a, v);
  }

  lemma {:induction false} Value5(s: seq<Byte>, first: Byte, a: (nat, seq<Byte>), b: (nat, seq<Byte>), v: nat)
    requires s != [] && s[0] == first && Following(first) == 5 && Read(s[1..], 1) == Success(a) &&
             Read(a.1, 4) == Success(b)
    requires v == Shl(BitAnd(first, 0x03), 40) + Shl(a.0, 32) + b.0 + 0x8_1020_4080
    ensures Decode(s) == Success((v, b.1))
  {
    assert first - Tag(5) == BitAnd(first, 0x03) && 0x8_1020_4080 == Base(5) by {
      Tags();
      Bases();
      BelowTag(first, 2, 0x04, 62, 0xF8);
    }
    ShlBytes(BitAnd(first, 0x03), 5, 40);
    ShlBytes(a.0, 4, 32);
    TwoWordsRead(s, 5, 1, 4, BitAnd(first, 0x03), Shl(BitAnd(first, 0x03), 40), Shl(a.0, 32), 0x8_1020_4080, a, b, v);
  }

  lemma {:induction false} Value6(s: seq<Byte>, first: Byte, a: (nat, seq<Byte>), b: (nat, seq<Byte>), v: nat)
    requires s != [] && s[0] == first && Following(first) == 6 && Read(s[1..], 2) == Success(a) &&
             Read(a.1, 4) == Success(b)
    requires v == Shl(BitAnd(first, 0x01), 48) + Shl(a.0, 32) + b.0 + 0x408_1020_4080
    ensures Decode(s) == Success((v, b.1))
  {
    assert first - Tag(6) == BitAnd(first, 0x01) && 0x408_1020_4080 == Base(6) by {
      Tags();
      Bases();
      BelowTag(first, 1, 0x02, 126, 0xFC);
    }
    ShlBytes(BitAnd(first, 0x01), 6, 48);
    ShlBytes(a.0, 4, 32);
    TwoWordsRead(s, 6, 2, 4, BitAnd(first, 0x01), Shl(BitAnd(first, 0x01), 48), Shl(a.0, 32), 0x408_1020_4080, a, b, v);
  }

  lemma {:induction false} Value0(s: seq<Byte>)
    requires s != [] && Following(s[0]) == 0
    ensures Decode(s) == Success((s[0], s[1..]))
  {
    Tags();
    assert s[1..][..0] == [] && s[1..][0..] == s[1..];
    OneWord(s, 0, s[0], s[0], 0, (0, s[1..]), s[0]);
  }

  lemma {:induction false} Shifts7(a: nat, b: nat, x: nat)
    requires x == 0x1_0000 * a + b
    ensures x == a * Pow256(2) + b && Shl(a, 48) + Shl(b, 32) == x * Pow256(4)
  {
    ShlBytes(a, 6, 48);
    ShlBytes(b, 4, 32);
    Pow256Values();
  }

  lemma {:induction false} ThreeWordsRead(s: seq<Byte>, k: nat, n: nat, m: nat, l: nat, d: nat, high: nat, mid: nat,
                                          base: nat, a: (nat, seq<Byte>), b: (nat, seq<Byte>), c: (nat, seq<Byte>),
                                          x: nat, v: nat)
    requires s != [] && Following(s[0]) == k && k < 8 && d == s[0] - Tag(k) && base == Base(k) && k == n + m + l
    requires Read(s[1..], n) == Success(a) && Read(a.1, m) == Success(b) && Read(b.1, l) == Success(c)
    requires x == a.0 * Pow256(m) + b.0 && high == d * Pow256(k) && mid == x * Pow256(l)
    requires v == high + mid + c.0 + base
    ensures Decode(s) == Success((v, c.1))
  {
    BothRead(s[1..], n, m, a, b, x);
    TwoWordsRead(s, k, n + m, l, d, high, mid, base, (x, b.1), c, v);
  }

  lemma {:induction false} Value7(s: seq<Byte>, a: (nat, seq<Byte>), b: (nat, seq<Byte>), c: (nat, seq<Byte>), v: nat)
    requires s != [] && s[0] == 0xFE && Following(s[0]) == 7
    requires Read(s[1..], 1) == Success(a) && Read(a.1, 2) == Success(b) && Read(b.1, 4) == Success(c)
    requires v == Shl(a.0, 48) + Shl(b.0, 32) + c.0 + 0x2_0408_1020_4080
    ensures Decode(s) == Success((v, c.1))
  {
    assert 0 == s[0] - Tag(7) && 0x2_0408_1020_4080 == Base(7) by {
      Tags();
      Bases();
    }
    var x := 0x1_0000 * a.0 + b.0;
    Shifts7(a.0, b.0, x);
    ThreeWordsRead(s, 7, 1, 2, 4, 0, 0, Shl(a.0, 48) + Shl(b.0, 32), 0x2_0408_1020_4080, a, b, c, x, v);
  }

  lemma {:induction false} CompletedIs(d: nat, k: nat, base: nat, a: (nat, seq<Byte>), v: nat)
    requires v == d * Pow256(k) + a.0 + base
    ensures Completed(d, k, base, Success(a)) == Finish(v, a.1)
  {
  }

  lemma {:induction false} LastForm(s: seq<Byte>, k: nat, d: nat, base: nat, a: (nat, seq<Byte>), v: nat)
    requires s != [] && Following(s[0]) == k && d == s[0] - Tag(k) && base == Base(k)
    requires Read(s[1..], k) == Success(a) && v == d * Pow256(k) + a.0 + base
    ensures Decode(s) == Finish(v, a.1)
  {
    DecodeTail(s, k, d, base);
    CompletedIs(d, k, base, a, v);
  }

  lemma {:induction false} Value8(s: seq<Byte>, a: (nat, seq<Byte>), v: nat)
    requires s != [] && s[0] == 0xFF && Following(s[0]) == 8 && Read(s[1..], 8) == Success(a)
    requires v == a.0 + 0x102_0408_1020_4080
    ensures Decode(s) == Finish(v, a.1)
  {
    assert 0 == s[0] - Tag(8) && 0x102_0408_1020_4080 == Base(8) by {
      Tags();
      Bases();
    }
    LastForm(s, 8, 0, 0x102_0408_1020_4080, a, v);
  }

  method Deserialize(reader: seq<Byte>) returns (r: Reading)
    ensures r == Decode(reader)
  {
    if reader == [] {
      Truncated(reader);
      return Failure(UnexpectedEof);
    }
    var first := reader[0];
    if |reader| <= Following(first) {
      Truncated(reader);
    }
    if first == 0xFF {
      assert Following(first) == 8 by {
        FirstByteIs(first);
      }
      var a :- Read(reader[1..], 8);
      Value8(reader, a, a.0 + 0x102_0408_1020_4080);
      if a.0 > TWO_64 - 1 - 0x102_0408_1020_4080 {
        return Failure(Overflow);
      }
      return Success((a.0 + 0x102_0408_1020_4080, a.1));
    } else if first == 0xFE {
      assert Following(first) == 7 by {
        FirstByteIs(first);
      }
      var a :- Read(reader[1..], 1);
      var b :- Read(a.1, 2);
      var c :- Read(b.1, 4);
      var v := Shl(a.0, 48) + Shl(b.0, 32) + c.0 + 0x2_0408_1020_4080;
      r := Success((v, c.1));
      assert r == Decode(reader) by {
        Value7(reader, a, b, c, v);
      }
      return;
    } else {
      r := ReadTagged(reader, first);
    }
  }

  /** The forms whose first byte also holds bits of the value. */
  method ReadTagged(reader: seq<Byte>, first: Byte) returns (r: Reading)
    requires reader != [] && first == reader[0] && first < 0xFE
    ensures r == Decode(reader)
  {
    if |reader| <= Following(first) {
      Truncated(reader);
    }
    if BitAnd(first, 0xFC) == 0xFC {
      assert Following(first) == 6 by {
        FirstByteIs(first);
      }
      var a :- Read(reader[1..], 2);
      var b :- Read(a.1, 4);
      var v := Shl(BitAnd(first, 0x01), 48) + Shl(a.0, 32) + b.0 + 0x408_1020_4080;
      r := Success((v, b.1));
      assert r == Decode(reader) by {
        Value6(reader, first, a, b, v);
      }
      return;
    } else if BitAnd(first, 0xF8) == 0xF8 {
      assert Following(first) == 5 by {
        FirstByteIs(first);
      }
      var a :- Read(reader[1..], 1);
      var b :- Read(a.1, 4);
      var v := Shl(BitAnd(first, 0x03), 40) + Shl(a.0, 32) + b.0 + 0x8_1020_4080;
      r := Success((v, b.1));
      assert r == Decode(reader) by {
        Value5(reader, first, a, b, v);
      }
      return;
    } else if BitAnd(first, 0xF0) == 0xF0 {
      assert Following(first) == 4 by {
        FirstByteIs(first);
      }
      var a :- Read(reader[1..], 4);
      var v := Shl(BitAnd(first, 0x07), 32) + a.0 + 0x1020_4080;
      r := Success((v, a.1));
      assert r == Decode(reader) by {
        Value4(reader, first, a, v);
      }
      return;
    } else {
      r := ReadShort(reader, first);
    }
  }

  /** The forms of at most four bytes. */
  method ReadShort(reader: seq<Byte>, first: Byte) returns (r: Reading)
    requires reader != [] && first == reader[0] && first < 0xFE
    requires BitAnd(first, 0xF0) != 0xF0 && BitAnd(first, 0xF8) != 0xF8 && BitAnd(first, 0xFC) != 0xFC
    ensures r == Decode(reader)
  {
    if |reader| <= Following(first) {
      Truncated(reader);
    }
    if BitAnd(first, 0xE0) == 0xE0 {
      assert Following(first) == 3 by {
        FirstByteIs(first);
      }
      var a :- Read(reader[1..], 1);
      var b :- Read(a.1, 2);
      var v := Shl(BitAnd(first, 0x0f), 24) + Shl(a.0, 16) + b.0 + 0x20_4080;
      r := Success((v, b.1));
      assert r == Decode(reader) by {
        Value3(reader, first, a, b, v);
      }
      return;
    } else if BitAnd(first, 0xC0) == 0xC0 {
      assert Following(first) == 2 by {
        FirstByteIs(first);
      }
      var a :- Read(reader[1..], 2);
      var v := Shl(BitAnd(first, 0x1f), 16) + a.0 + 0x4080;
      r := Success((v, a.1));
      assert r == Decode(reader) by {
        Value2(reader, first, a, v);
      }
      return;
    } else if BitAnd(first, 0x80) == 0x80 {
      assert Following(first) == 1 by {
        FirstByteIs(first);
      }
      var a :- Read(reader[1..], 1);
      var v := Shl(BitAnd(first, 0x3f), 8) + a.0 + 0x80;
      r := Success((v, a.1));
      assert r == Decode(reader) by {
        Value1(reader, first, a, v);
      }
      return;
    } else {
      assert Following(first) == 0 by {
        FirstByteIs(first);
      }
      r := Success((first, reader[1..]));
      assert r == Decode(reader) by {
        Value0(reader);
      }
      return;
    }
  }
}
