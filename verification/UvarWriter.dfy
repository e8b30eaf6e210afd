/** The branches that write and read variable-length integers (beserial/src/types.rs). */
module UvarWriter {
  import opened Bits
  import opened BigEndian
  import opened Uvars

  lemma {:induction false} Lead(t: nat, h: nat, l: nat, k: nat, x: nat, shifted: nat)
    requires t + h < 256 && l < Pow256(k) && x == h * Pow256(k) + l && shifted == t * Pow256(k)
    ensures Bytes(shifted + x, k + 1) == [t + h] + Bytes(l, k)
  {
    Joined(t + h, 1, l, k);
    assert Bytes(t + h, 1) == [t + h];
    Sum(t, h, Pow256(k));
  }

  lemma {:induction false} TagShifted(x: nat, k: nat, shifted: nat)
    requires PlaceIn(x, k) && shifted == Tag(k) * Pow256(k)
    ensures EncodeWith(x, k) == Bytes(shifted + x, k + 1)
  {
    FirstDigit(x, k);
    var h, l := Parted(x, k);
    Lead(Tag(k), h, l, k, x, shifted);
    assert Bytes(x, k + 1)[1..] == Bytes(l, k);
  }

  /** The leading bytes and the n bytes after them, written as two words. */
  lemma {:induction false} TwoWords(x: nat, m: nat, n: nat, p: nat, c: nat, j: nat, r: nat, bits: nat, tag: nat,
                                    shifted: nat)
    requires p == Pow256(n) && r == Pow2(j) && bits == 8 * n
    requires x < r * p && tag == c * r && shifted == tag * p
    ensures Bytes(BitOr(Shr(x, bits), tag), m) + Bytes(BitAnd(x, p - 1), n) == Bytes(shifted + x, m + n)
  {
    var q := Shr(x, bits);
    Pow256Is(n);
    ShrBounds(x, bits, q);
    Below(q, r, p, x);
    OrHigh(q, c, j);
    AndLow(x, bits);
    Words(tag, q, x, m, n, shifted);
  }

  lemma {:induction false} Words(tag: nat, q: nat, x: nat, m: nat, n: nat, shifted: nat)
    requires q * Pow256(n) <= x < q * Pow256(n) + Pow256(n) && shifted == tag * Pow256(n)
    ensures Bytes(q + tag, m) + Bytes(x - q * Pow256(n), n) == Bytes(shifted + x, m + n)
  {
    Joined(q + tag, m, x - q * Pow256(n), n);
    Sum(q, tag, Pow256(n));
  }

  lemma {:induction false} Written(v: nat, x: nat, k: nat, shifted: nat)
    requires PlaceIn(x, k) && v == x + Base(k) && v < TWO_64 && shifted == Tag(k) * Pow256(k)
    ensures Encode(v) == Bytes(shifted + x, k + 1)
  {
    TagShifted(x, k, shifted);
    EncodeIs(v, x, k, Bytes(shifted + x, k + 1));
  }

  /** The numbers involved in writing v as a word of m bytes, or-ed with a tag, and one of n bytes. */
  ghost predicate Layout(v: nat, x: nat, k: nat, m: nat, n: nat, p: nat, c: nat, j: nat, r: nat, bits: nat, tag: nat,
                         shifted: nat) {
    && PlaceIn(x, k) && v == x + Base(k) && v < TWO_64 && shifted == Tag(k) * Pow256(k) && m + n == k + 1
    && p == Pow256(n) && r == Pow2(j) && bits == 8 * n
    && x < r * p && tag == c * r && shifted == tag * p
  }

  lemma {:induction false} WrittenInWords(v: nat, x: nat, k: nat, m: nat, n: nat, p: nat, c: nat, j: nat, r: nat,
                                          bits: nat, tag: nat, shifted: nat)
    requires Layout(v, x, k, m, n, p, c, j, r, bits, tag, shifted)
    ensures Encode(v) == Bytes(BitOr(Shr(x, bits), tag), m) + Bytes(BitAnd(x, p - 1), n)
  {
    Written(v, x, k, shifted);
    TwoWords(x, m, n, p, c, j, r, bits, tag, shifted);
  }

  lemma {:induction false} Constants()
    ensures Base(0) == 0 && Base(1) == 0x80 && Base(2) == 0x4080 && Base(3) == 0x20_4080 && Base(4) == 0x1020_4080
    ensures Base(5) == 0x8_1020_4080 && Base(6) == 0x408_1020_4080 && Base(7) == 0x2_0408_1020_4080 &&
            Base(8) == 0x102_0408_1020_4080
    ensures Tag(0) == 0 && Tag(1) == 0x80 && Tag(2) == 0xC0 && Tag(3) == 0xE0 && Tag(4) == 0xF0
    ensures Tag(5) == 0xF8 && Tag(6) == 0xFC && Tag(7) == 0xFE && Tag(8) == 0xFF
    ensures Pow2(7) == 0x80 && Pow2(14) == 0x4000 && Pow2(21) == 0x20_0000 && Pow2(28) == 0x1000_0000
    ensures Pow2(35) == 0x8_0000_0000 && Pow2(42) == 0x400_0000_0000 && Pow2(49) == 0x2_0000_0000_0000 &&
            Pow2(56) == 0x100_0000_0000_0000
    ensures Pow256(1) == 0x100 && Pow256(2) == 0x1_0000 && Pow256(3) == 0x100_0000 && Pow256(4) == 0x1_0000_0000
    ensures Pow256(5) == 0x100_0000_0000 && Pow256(6) == 0x1_0000_0000_0000 && Pow256(7) == 0x100_0000_0000_0000
    ensures Pow256(8) == 0x1_0000_0000_0000_0000
  {
    Bases();
    Tags();
    Pow2Values();
    Pow256Values();
  }

  lemma {:induction false} Write0(v: nat)
    requires v < 0x80
    ensures Encode(v) == Bytes(v, 1)
  {
    Constants();
    Written(v, v, 0, 0);
  }

  lemma {:induction false} Write1(v: nat, x: nat)
    requires v == x + 0x80 && 0x80 <= v < 0x4080
    ensures Encode(v) == Bytes(BitOr(x, 0x8000), 2)
  {
    Constants();
    OrHigh(x, 2, 14);
    Written(v, x, 1, 0x8000);
  }

  lemma {:induction false} Layout2(v: nat)
    requires 0x4080 <= v < 0x20_4080
    ensures Layout(v, v - 0x4080, 2, 2, 1, 0x100, 6, 13, 0x2000, 8, 0xC000, 0xC0_0000)
  {
    Constants();
  }

  lemma {:induction false} Write2(v: nat, x: nat)
    requires v == x + 0x4080 && 0x4080 <= v < 0x20_4080
    ensures Encode(v) == Bytes(BitOr(Shr(x, 8), 0xC000), 2) + Bytes(BitAnd(x, 0xFF), 1)
  {
    Layout2(v);
    WrittenInWords(v, x, 2, 2, 1, 0x100, 6, 13, 0x2000, 8, 0xC000, 0xC0_0000);
  }

  lemma {:induction false} Write3(v: nat, x: nat)
    requires v == x + 0x20_4080 && 0x20_4080 <= v < 0x1020_4080
    ensures Encode(v) == Bytes(BitOr(x, 0xE000_0000), 4)
  {
    Constants();
    OrHigh(x, 14, 28);
    Written(v, x, 3, 0xE000_0000);
  }

  lemma {:induction false} Layout4(v: nat)
    requires 0x1020_4080 <= v < 0x8_1020_4080
    ensures Layout(v, v - 0x1020_4080, 4, 4, 1, 0x100, 30, 27, 0x800_0000, 8, 0xF000_0000, 0xF0_0000_0000)
  {
    Constants();
  }

  lemma {:induction false} Write4(v: nat, x: nat)
    requires v == x + 0x1020_4080 && 0x1020_4080 <= v < 0x8_1020_4080
    ensures Encode(v) == Bytes(BitOr(Shr(x, 8), 0xF000_0000), 4) + Bytes(BitAnd(x, 0xFF), 1)
  {
    Layout4(v);
    WrittenInWords(v, x, 4, 4, 1, 0x100, 30, 27, 0x800_0000, 8, 0xF000_0000, 0xF0_0000_0000);
  }

  lemma {:induction false} Layout5(v: nat)
    requires 0x8_1020_4080 <= v < 0x408_1020_4080
    ensures Layout(v, v - 0x8_1020_4080, 5, 4, 2, 0x1_0000, 62, 26, 0x400_0000, 16, 0xF800_0000, 0xF800_0000_0000)
  {
    Constants();
  }

  lemma {:induction false} Write5(v: nat, x: nat)
    requires v == x + 0x8_1020_4080 && 0x8_1020_4080 <= v < 0x408_1020_4080
    ensures Encode(v) == Bytes(BitOr(Shr(x, 16), 0xF800_0000), 4) + Bytes(BitAnd(x, 0xFFFF), 2)
  {
    Layout5(v);
    WrittenInWords(v, x, 5, 4, 2, 0x1_0000, 62, 26, 0x400_0000, 16, 0xF800_0000, 0xF800_0000_0000);
  }

  lemma {:induction false} ShrShr(x: nat, j: nat, k: nat)
    ensures Shr(Shr(x, j), k) == Shr(x, j + k)
  {
    if j > 0 {
      ShrShr(x / 2, j - 1, k);
    }
  }

  lemma {:induction false} LastByte(x: nat, y: nat)
    requires y == Shr(x, 8)
    ensures 256 * y <= x < 256 * y + 256 && BitAnd(x, 0xFF) == x - 256 * y
  {
    ShrBounds(x, 8, y);
    AndLow(x, 8);
  }

  lemma {:induction false} WithLastByte(x: nat, y: nat, m: nat, shifted: nat)
    requires 256 * y <= x < 256 * y + 256
    ensures Bytes(shifted + y, m) + Bytes(x - 256 * y, 1) == Bytes(256 * shifted + x, m + 1)
  {
    assert Pow256(1) == 256;
    Joined(shifted + y, m, x - 256 * y, 1);
  }

  /** A word, two more bytes and one more. */
  lemma {:induction false} ThreeWords(x: nat, y: nat, m: nat, c: nat, j: nat, r: nat, tag: nat, shifted: nat)
    requires y == Shr(x, 8) && r == Pow2(j) && x < 0x100_0000 * r && tag == c * r && shifted == 0x1_0000 * tag
    ensures Bytes(BitOr(Shr(x, 24), tag), m) + Bytes(BitAnd(y, 0xFFFF), 2) + Bytes(BitAnd(x, 0xFF), 1) ==
            Bytes(256 * shifted + x, m + 3)
  {
    LastByte(x, y);
    assert Pow256(2) == 0x1_0000;
    TwoWords(y, m, 2, 0x1_0000, c, j, r, 16, tag, shifted);
    ShrShr(x, 8, 16);
    WithLastByte(x, y, m + 2, shifted);
  }

  lemma {:induction false} Place6(v: nat)
    requires 0x408_1020_4080 <= v < 0x2_0408_1020_4080
    ensures var x := v - 0x408_1020_4080;
            && PlaceIn(x, 6) && v == x + Base(6) && 0xFC_0000_0000_0000 == Tag(6) * Pow256(6)
            && Pow2(25) == 0x200_0000 && x < 0x100_0000 * 0x200_0000
  {
    Constants();
    Pow2Sum(4, 21);
  }

  lemma {:induction false} Write6(v: nat, x: nat)
    requires v == x + 0x408_1020_4080 && 0x408_1020_4080 <= v < 0x2_0408_1020_4080
    ensures Encode(v) ==
            Bytes(BitOr(Shr(x, 24), 0xFC00_0000), 4) + Bytes(BitAnd(Shr(x, 8), 0xFFFF), 2) + Bytes(BitAnd(x, 0xFF), 1)
  {
    Place6(v);
    Written(v, x, 6, 0xFC_0000_0000_0000);
    ThreeWords(x, Shr(x, 8), 4, 126, 25, 0x200_0000, 0xFC00_0000, 0xFC00_0000_0000);
  }

  lemma {:induction false} Write7(v: nat, x: nat)
    requires v == x + 0x2_0408_1020_4080 && 0x2_0408_1020_4080 <= v < 0x102_0408_1020_4080
    ensures Encode(v) == Bytes(BitOr(x, 0xFE00_0000_0000_0000), 8)
  {
    Constants();
    OrHigh(x, 254, 56);
    Written(v, x, 7, 0xFE00_0000_0000_0000);
  }

  lemma {:induction false} Layout8(v: nat)
    requires 0x102_0408_1020_4080 <= v < TWO_64
    ensures Layout(v, v - 0x102_0408_1020_4080, 8, 8, 1, 0x100, 255, 56, 0x100_0000_0000_0000, 8, 0xFF00_0000_0000_0000,
                   0xFF_0000_0000_0000_0000)
  {
    Constants();
  }

  lemma {:induction false} Write8(v: nat, x: nat)
    requires v == x + 0x102_0408_1020_4080 && 0x102_0408_1020_4080 <= v < TWO_64
    ensures Encode(v) == Bytes(BitOr(Shr(x, 8), 0xFF00_0000_0000_0000), 8) + Bytes(BitAnd(x, 0xFF), 1)
  {
    Layout8(v);
    WrittenInWords(v, x, 8, 8, 1, 0x100, 255, 56, 0x100_0000_0000_0000, 8, 0xFF00_0000_0000_0000,
                   0xFF_0000_0000_0000_0000);
  }

  lemma {:induction false} Sum(a: nat, b: nat, p: nat)
    ensures a * p + b * p == (a + b) * p
  {
  }

  lemma {:induction false} Below(q: nat, r: nat, p: nat, x: nat)
    requires q * p <= x < r * p
    ensures q < r
  {
    if q >= r {
      TimesOrder(r, q, p);
    }
  }

  method Serialize(v: nat, writer: seq<Byte>) returns (writer': seq<Byte>, size: nat)
    requires v < TWO_64
    ensures writer' == writer + Encode(v) && size == |Encode(v)|
  {
    var written;
    if v < 0x80 {
      written := Bytes(v, 1);
      assert written == Encode(v) by {
        Write0(v);
      }
    } else if v < 0x4080 {
      var x := v - 0x80;
      written := Bytes(BitOr(x, 0x8000), 2);
      assert written == Encode(v) by {
        Write1(v, x);
      }
    } else if v < 0x20_4080 {
      var x := v - 0x4080;
      written := Bytes(BitOr(Shr(x, 8), 0xC000), 2) + Bytes(BitAnd(x, 0xFF), 1);
      assert written == Encode(v) by {
        Write2(v, x);
      }
    } else if v < 0x1020_4080 {
      var x := v - 0x20_4080;
      written := Bytes(BitOr(x, 0xE000_0000), 4);
      assert written == Encode(v) by {
        Write3(v, x);
      }
    } else if v < 0x8_1020_4080 {
      var x := v - 0x1020_4080;
      written := Bytes(BitOr(Shr(x, 8), 0xF000_0000), 4) + Bytes(BitAnd(x, 0xFF), 1);
      assert written == Encode(v) by {
        Write4(v, x);
      }
    } else if v < 0x408_1020_4080 {
      var x := v - 0x8_1020_4080;
      written := Bytes(BitOr(Shr(x, 16), 0xF800_0000), 4) + Bytes(BitAnd(x, 0xFFFF), 2);
      assert written == Encode(v) by {
        Write5(v, x);
      }
    } else if v < 0x2_0408_1020_4080 {
      var x := v - 0x408_1020_4080;
      written := Bytes(BitOr(Shr(x, 24), 0xFC00_0000), 4) + Bytes(BitAnd(Shr(x, 8), 0xFFFF), 2) +
                 Bytes(BitAnd(x, 0xFF), 1);
      assert written == Encode(v) by {
        Write6(v, x);
      }
    } else if v < 0x102_0408_1020_4080 {
      var x := v - 0x2_0408_1020_4080;
      written := Bytes(BitOr(x, 0xFE00_0000_0000_0000), 8);
      assert written == Encode(v) by {
        Write7(v, x);
      }
    } else {
      var x := v - 0x102_0408_1020_4080;
      written := Bytes(BitOr(Shr(x, 8), 0xFF00_0000_0000_0000), 8) + Bytes(BitAnd(x, 0xFF), 1);
      assert written == Encode(v) by {
        Write8(v, x);
      }
    }
    writer', size := writer + written, |written|;
  }

  function SerializedSize(v: nat): nat
    requires v < TWO_64
  {
    if v < 0x80 then 1
    else if v < 0x4080 then 2
    else if v < 0x20_4080 then 3
    else if v < 0x1020_4080 then 4
    else if v < 0x8_1020_4080 then 5
    else if v < 0x408_1020_4080 then 6
    else if v < 0x2_0408_1020_4080 then 7
    else if v < 0x102_0408_1020_4080 then 8
    else 9
  }

  function SerializedSizeFromFirstByte(first: Byte): nat {
    if first == 0xFF then 9
    else if first == 0xFE then 8
    else if BitAnd(first, 0xFC) == 0xFC then 7
    else if BitAnd(first, 0xF8) == 0xF8 then 6
    else if BitAnd(first, 0xF0) == 0xF0 then 5
    else if BitAnd(first, 0xE0) == 0xE0 then 4
    else if BitAnd(first, 0xC0) == 0xC0 then 3
    else if BitAnd(first, 0x80) == 0x80 then 2
    else 1
  }

  lemma {:induction false} SizeIs(v: nat)
    requires v < TWO_64
    ensures SerializedSize(v) == |Encode(v)|
  {
    Bases();
    ExtraIs(v, SerializedSize(v) - 1);
  }

  /** A byte has all bits from position j up set exactly if it is at least that mask. */
  lemma {:induction false} MaskTest(first: Byte, j: nat, w: nat, n: nat, mask: nat)
    requires j <= 8 && w == Pow2(j) && mask + w == 256 && (n - 1) * w == mask
    ensures BitAnd(first, mask) == mask <==> first >= mask
  {
    assert Pow2(8) == 256;
    AndHigh(first, j, 8);
    ShrBounds(first, j, Shr(first, j));
    if n > 0 {
      ShrBounds(first, j, n - 1);
    }
  }

  lemma {:induction false} FirstByteIs(first: Byte)
    ensures SerializedSizeFromFirstByte(first) == Following(first) + 1
  {
    Tags();
    MaskTest(first, 2, 0x4, 64, 0xFC);
    MaskTest(first, 3, 0x8, 32, 0xF8);
    MaskTest(first, 4, 0x10, 16, 0xF0);
    MaskTest(first, 5, 0x20, 8, 0xE0);
    MaskTest(first, 6, 0x40, 4, 0xC0);
    MaskTest(first, 7, 0x80, 2, 0x80);
    FollowingIs(first, SerializedSizeFromFirstByte(first) - 1);
  }

  lemma {:induction false} FirstOf(t: seq<Byte>, x: nat, k: nat)
    requires PlaceIn(x, k) && t == EncodeWith(x, k)
    ensures SerializedSizeFromFirstByte(t[0]) == |t|
  {
    Tagged(t, x, k);
    FirstByteIs(t[0]);
    FollowingIs(t[0], k);
  }

  /** Both size functions agree with the bytes written. */
  lemma {:induction false} SizesAgree(v: nat, t: seq<Byte>)
    requires v < TWO_64 && t == Encode(v)
    ensures SerializedSize(v) == |t| && SerializedSizeFromFirstByte(t[0]) == |t|
  {
    assert SerializedSize(v) == |t| by {
      SizeIs(v);
    }
    Placed(v);
    FirstOf(t, v - Base(Extra(v)), Extra(v));
  }
}
