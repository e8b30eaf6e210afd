/** The variable-length encoding of unsigned 64-bit integers (beserial/src/types.rs). */
module Uvars {
  import opened Prelude
  import opened Bits
  import opened BigEndian

  const TWO_64: nat := 0x1_0000_0000_0000_0000

  datatype SerializingError = UnexpectedEof | Overflow

  /** The smallest value written with k bytes after the first: 7 more bits of room each time. */
  function Base(k: nat): nat {
    if k == 0 then 0 else Base(k - 1) + Pow2(7 * k)
  }

  /** The first byte of that value: k leading one bits. */
  function Tag(k: nat): Byte
    requires k <= 8
  {
    Pow2Monotone(0, 8 - k);
    Pow2Monotone(8 - k, 8);
    256 - Pow2(8 - k)
  }

  ghost predicate WrittenWith(v: nat, k: nat) {
    k <= 8 && Base(k) <= v && (k < 8 ==> v < Base(k + 1))
  }

  lemma {:induction false} SomeExtra(v: nat, j: nat)
    requires j <= 8 && Base(j) <= v
    ensures exists k: nat :: WrittenWith(v, k)
    decreases 8 - j
  {
    if j < 8 && Base(j + 1) <= v {
      SomeExtra(v, j + 1);
    } else {
      assert WrittenWith(v, j);
    }
  }

  /** The number of bytes after the first. */
  ghost function Extra(v: nat): (k: nat)
    ensures WrittenWith(v, k)
  {
    SomeExtra(v, 0);
    var k: nat :| WrittenWith(v, k);
    k
  }

  /** The places of the values written with k bytes after the first. */
  ghost predicate PlaceIn(x: nat, k: nat) {
    k <= 8 && x < if k < 8 then Pow2(7 * (k + 1)) else Pow256(k)
  }

  /** A value's place among those of its length, in big-endian order, the length in the first byte. */
  ghost function Encode(v: nat): seq<Byte>
    requires v < TWO_64
  {
    EncodeAt(v, Extra(v), v - Base(Extra(v)))
  }

  ghost function EncodeAt(v: nat, k: nat, x: nat): seq<Byte>
    requires v < TWO_64 && WrittenWith(v, k) && x == v - Base(k)
  {
    PlacedAt(v, k, x);
    EncodeWith(x, k)
  }

  ghost function EncodeWith(x: nat, k: nat): (s: seq<Byte>)
    requires PlaceIn(x, k)
    ensures |s| == k + 1
  {
    FirstDigit(x, k);
    var b := Bytes(x, k + 1);
    [Tag(k) + b[0]] + b[1..]
  }

  ghost predicate LeadsTo(first: Byte, k: nat) {
    k <= 8 && Tag(k) <= first && (k < 8 ==> first < Tag(k + 1))
  }

  lemma {:induction false} SomeFollowing(first: Byte, j: nat)
    requires j <= 8 && Tag(j) <= first
    ensures exists k: nat :: LeadsTo(first, k)
    decreases 8 - j
  {
    if j < 8 && Tag(j + 1) <= first {
      SomeFollowing(first, j + 1);
    } else {
      assert LeadsTo(first, j);
    }
  }

  /** The number of bytes that follow a first byte: its leading one bits. */
  ghost function Following(first: Byte): (k: nat)
    ensures LeadsTo(first, k)
  {
    Tags();
    SomeFollowing(first, 0);
    var k: nat :| LeadsTo(first, k);
    k
  }

  ghost function Decode(s: seq<Byte>): Result<(nat, seq<Byte>), SerializingError> {
    if s == [] then Failure(UnexpectedEof) else DecodeWith(s, Following(s[0]), Base(Following(s[0])))
  }

  ghost function DecodeWith(s: seq<Byte>, k: nat, base: nat): Result<(nat, seq<Byte>), SerializingError>
    requires k <= 8 && s != [] && Tag(k) <= s[0]
  {
    if |s| < k + 1 then Failure(UnexpectedEof)
    else Finish(Value(Untagged(s[..k + 1], k)) + base, s[k + 1..])
  }

  ghost function Untagged(t: seq<Byte>, k: nat): seq<Byte>
    requires k <= 8 && |t| == k + 1 && Tag(k) <= t[0]
  {
    [t[0] - Tag(k)] + t[1..]
  }

  function Finish(v: nat, rest: seq<Byte>): Result<(nat, seq<Byte>), SerializingError> {
    if v >= TWO_64 then Failure(Overflow) else Success((v, rest))
  }

  /** How far the values of one length reach: a whole step of tags. */
  lemma {:induction false} Room(k: nat)
    requires k < 8
    ensures Pow2(7 * (k + 1)) == Pow2(7 - k) * Pow256(k)
    ensures Tag(k + 1) == Tag(k) + Pow2(7 - k)
  {
    Pow256Is(k);
    Pow2Sum(7 - k, 8 * k);
  }

  lemma {:induction false} Pow2Sum(a: nat, b: nat)
    ensures Pow2(a + b) == Pow2(a) * Pow2(b)
  {
    if a > 0 {
      Pow2Sum(a - 1, b);
    }
  }

  lemma {:induction false} Bases()
    ensures Base(0) == 0 && Base(1) == 0x80 && Base(2) == 0x4080 && Base(3) == 0x20_4080 && Base(4) == 0x1020_4080
    ensures Base(5) == 0x8_1020_4080 && Base(6) == 0x408_1020_4080 && Base(7) == 0x2_0408_1020_4080 &&
            Base(8) == 0x102_0408_1020_4080
  {
    Pow2Values();
    assert Base(2) == 0x4080;
    assert Base(4) == 0x1020_4080;
    assert Base(6) == 0x408_1020_4080;
  }

  lemma {:induction false} Pow2Values()
    ensures Pow2(7) == 0x80 && Pow2(14) == 0x4000 && Pow2(21) == 0x20_0000 && Pow2(28) == 0x1000_0000
    ensures Pow2(35) == 0x8_0000_0000 && Pow2(42) == 0x400_0000_0000 && Pow2(49) == 0x2_0000_0000_0000 &&
            Pow2(56) == 0x100_0000_0000_0000
  {
    assert Pow2(3) == 8;
    Pow2Sum(7, 7);
    Pow2Sum(7, 14);
    Pow2Sum(7, 21);
    Pow2Sum(7, 28);
    Pow2Sum(7, 35);
    Pow2Sum(7, 42);
    Pow2Sum(7, 49);
  }

  lemma {:induction false} Tags()
    ensures Tag(0) == 0 && Tag(1) == 0x80 && Tag(2) == 0xC0 && Tag(3) == 0xE0 && Tag(4) == 0xF0
    ensures Tag(5) == 0xF8 && Tag(6) == 0xFC && Tag(7) == 0xFE && Tag(8) == 0xFF
  {
    assert Pow2(8) == 256 && Pow2(7) == 128 && Pow2(6) == 64 && Pow2(5) == 32;
  }

  lemma {:induction false} TagsGrow(j: nat, k: nat)
    requires j < k <= 8
    ensures Tag(j) < Tag(k)
  {
    Pow2Monotone(8 - k, 8 - j);
  }

  lemma {:induction false} BasesGrow(j: nat, k: nat)
    requires j < k
    ensures Base(j) < Base(k)
  {
    if j < k - 1 {
      BasesGrow(j, k - 1);
    }
  }

  lemma {:induction false} ExtraIs(v: nat, k: nat)
    requires WrittenWith(v, k)
    ensures Extra(v) == k
  {
    ExtraGrows(v, k, v, Extra(v));
    ExtraGrows(v, Extra(v), v, k);
  }

  lemma {:induction false} ExtraGrows(v: nat, j: nat, w: nat, k: nat)
    requires v <= w && WrittenWith(v, j) && WrittenWith(w, k)
    ensures j <= k
  {
    if k < j {
      BasesAscend(k + 1, j);
    }
  }

  lemma {:induction false} BasesAscend(j: nat, k: nat)
    requires j <= k
    ensures Base(j) <= Base(k)
  {
    if j < k {
      BasesGrow(j, k);
    }
  }

  lemma {:induction false} FollowingIs(first: Byte, k: nat)
    requires LeadsTo(first, k)
    ensures Following(first) == k
  {
    var r := Following(first);
    if r + 1 < k {
      TagsGrow(r + 1, k);
    } else if k + 1 < r {
      TagsGrow(k + 1, r);
    }
  }

  lemma {:induction false} TimesOrder(a: int, b: int, p: nat)
    requires a <= b
    ensures a * p <= b * p
  {
  }

  lemma {:induction false} DigitBounds(t: nat, x: nat, h: nat, l: nat, p: nat, r: nat)
    requires t * p + x == h * p + l && l < p
    ensures t <= h && (x < r * p <==> h < t + r)
  {
    if h < t {
      TimesOrder(h + 1, t, p);
    } else if h < t + r {
      TimesOrder(h + 1, t + r, p);
    } else {
      TimesOrder(t + r, h, p);
    }
  }

  /** The first of k + 1 bytes is below r exactly if the number is below r * 256^k. */
  lemma {:induction false} FirstBelow(x: nat, k: nat, r: nat)
    requires x < Pow256(k + 1)
    ensures Bytes(x, k + 1)[0] < r <==> x < r * Pow256(k)
  {
    var h, l := Parted(x, k);
    DigitBounds(0, x, h, l, Pow256(k), r);
  }

  /** The place of a value written with k bytes after the first leaves the tag bits free. */
  lemma {:induction false} FirstDigit(x: nat, k: nat)
    requires PlaceIn(x, k)
    ensures x < Pow256(k + 1)
    ensures Tag(k) + Bytes(x, k + 1)[0] < if k < 8 then Tag(k + 1) else 256
  {
    if k < 8 {
      Room(k);
      Pow2Monotone(7 - k, 8);
      TimesOrder(Pow2(7 - k), 256, Pow256(k));
      FirstBelow(x, k, Pow2(7 - k));
    } else {
      Tags();
      FirstBelow(x, k, 1);
    }
  }

  lemma {:induction false} PlacedAt(v: nat, k: nat, x: nat)
    requires v < TWO_64 && WrittenWith(v, k) && x == v - Base(k)
    ensures PlaceIn(x, k)
  {
    if k == 8 {
      Pow256Values();
    }
  }

  lemma {:induction false} Placed(v: nat)
    requires v < TWO_64
    ensures PlaceIn(v - Base(Extra(v)), Extra(v))
  {
    PlacedAt(v, Extra(v), v - Base(Extra(v)));
  }

  lemma {:induction false} DecodeIs(s: seq<Byte>, k: nat)
    requires s != [] && LeadsTo(s[0], k)
    ensures Decode(s) == DecodeWith(s, k, Base(k))
  {
    FollowingIs(s[0], k);
  }

  lemma {:induction false} Tagged(t: seq<Byte>, x: nat, k: nat)
    requires PlaceIn(x, k) && t == EncodeWith(x, k)
    ensures LeadsTo(t[0], k) && Untagged(t, k) == Bytes(x, k + 1)
  {
    FirstDigit(x, k);
  }

  lemma {:induction false} DecodeWithTail(s: seq<Byte>, k: nat, t: seq<Byte>, rest: seq<Byte>, base: nat)
    requires s == t + rest && |t| == k + 1 && k <= 8 && Tag(k) <= t[0]
    ensures DecodeWith(s, k, base) == Finish(Value(Untagged(t, k)) + base, rest)
  {
    assert t == s[..k + 1] && rest == s[k + 1..];
  }

  lemma {:induction false} DecodeWithEncoded(t: seq<Byte>, v: nat, x: nat, k: nat, base: nat, rest: seq<Byte>)
    requires PlaceIn(x, k) && t == EncodeWith(x, k) && v == x + base && v < TWO_64
    ensures LeadsTo(t[0], k) && DecodeWith(t + rest, k, base) == Success((v, rest))
  {
    Tagged(t, x, k);
    FirstDigit(x, k);
    ValueOfBytes(x, k + 1);
    DecodeWithTail(t + rest, k, t, rest, base);
  }

  lemma {:induction false} DecodeEncoded(t: seq<Byte>, v: nat, x: nat, k: nat, rest: seq<Byte>)
    requires PlaceIn(x, k) && t == EncodeWith(x, k) && v == x + Base(k) && v < TWO_64
    ensures Decode(t + rest) == Success((v, rest))
  {
    DecodeWithEncoded(t, v, x, k, Base(k), rest);
    DecodeIs(t + rest, k);
  }

  /** Decoding inverts encoding and leaves the bytes that follow untouched. */
  lemma {:induction false} DecodeInvertsEncode(v: nat, rest: seq<Byte>)
    requires v < TWO_64
    ensures Decode(Encode(v) + rest) == Success((v, rest))
  {
    Placed(v);
    DecodeEncoded(Encode(v), v, v - Base(Extra(v)), Extra(v), rest);
  }

  lemma {:induction false} Reencoded(t: seq<Byte>, k: nat)
    requires |t| == k + 1 && LeadsTo(t[0], k)
    ensures var x := Value(Untagged(t, k)); PlaceIn(x, k) && EncodeWith(x, k) == t
  {
    var b := Untagged(t, k);
    var x := Value(b);
    ValueBound(b);
    BytesOfValue(b);
    if k < 8 {
      Room(k);
      FirstBelow(x, k, Pow2(7 - k));
    } else {
      Tags();
      FirstBelow(x, k, 1);
    }
  }

  lemma {:induction false} WrittenAt(x: nat, k: nat)
    requires PlaceIn(x, k)
    ensures WrittenWith(x + Base(k), k)
  {
  }

  lemma {:induction false} EncodeUnfolds(v: nat, k: nat, x: nat)
    requires v < TWO_64 && k == Extra(v) && x == v - Base(k)
    ensures PlaceIn(x, k) && Encode(v) == EncodeWith(x, k)
  {
    PlacedAt(v, k, x);
  }

  lemma {:induction false} EncodeIs(v: nat, x: nat, k: nat, t: seq<Byte>)
    requires PlaceIn(x, k) && t == EncodeWith(x, k) && v == x + Base(k) && v < TWO_64
    ensures Encode(v) == t
  {
    assert Extra(v) == k by {
      WrittenAt(x, k);
      ExtraIs(v, k);
    }
    EncodeUnfolds(v, k, x);
  }

  lemma {:induction false} DecodeParts(s: seq<Byte>, k: nat, base: nat, v: nat, rest: seq<Byte>) returns (t: seq<Byte>)
    requires s != [] && LeadsTo(s[0], k) && DecodeWith(s, k, base) == Success((v, rest))
    ensures v < TWO_64 && s == t + rest && |t| == k + 1 && LeadsTo(t[0], k) && v == Value(Untagged(t, k)) + base
  {
    t := s[..k + 1];
  }

  lemma {:induction false} Spelled(t: seq<Byte>, k: nat, v: nat)
    requires |t| == k + 1 && LeadsTo(t[0], k) && v == Value(Untagged(t, k)) + Base(k) && v < TWO_64
    ensures t == Encode(v)
  {
    Reencoded(t, k);
    EncodeIs(v, Value(Untagged(t, k)), k, t);
  }

  /** Every byte string that decodes is the encoding of its value: no value has two. */
  lemma {:induction false} DecodedIsEncoded(s: seq<Byte>, v: nat, rest: seq<Byte>)
    requires Decode(s) == Success((v, rest))
    ensures v < TWO_64 && s == Encode(v) + rest
  {
    var t := DecodeParts(s, Following(s[0]), Base(Following(s[0])), v, rest);
    Spelled(t, Following(s[0]), v);
  }

  lemma {:induction false} LexAsymmetric(a: seq<Byte>, b: seq<Byte>)
    requires LexLess(a, b)
    ensures !LexLess(b, a) && a != b
  {
    if a != [] && a[0] == b[0] {
      LexAsymmetric(a[1..], b[1..]);
    }
  }

  lemma {:induction false} EncodingsOrderedWith(x: nat, j: nat, y: nat, k: nat)
    requires PlaceIn(x, j) && PlaceIn(y, k) && (j < k || (j == k && x < y))
    ensures LexLess(EncodeWith(x, j), EncodeWith(y, k))
  {
    FirstDigit(x, j);
    FirstDigit(y, k);
    if j == k {
      BytesOrdered(x, y, k + 1);
    } else if j + 1 < k {
      TagsGrow(j + 1, k);
    }
  }

  lemma {:induction false} EncodingsOrderedAt(v: nat, x: nat, j: nat, w: nat, y: nat, k: nat)
    requires v < w < TWO_64 && j == Extra(v) && x == v - Base(j) && PlaceIn(x, j) && k == Extra(w) &&
             y == w - Base(k) && PlaceIn(y, k)
    ensures LexLess(EncodeWith(x, j), EncodeWith(y, k))
  {
    ExtraGrows(v, j, w, k);
    EncodingsOrderedWith(x, j, y, k);
  }

  lemma {:induction false} EncodeForm(v: nat) returns (x: nat, k: nat)
    requires v < TWO_64
    ensures k == Extra(v) && x == v - Base(k) && PlaceIn(x, k) && Encode(v) == EncodeWith(x, k)
  {
    k := Extra(v);
    x := v - Base(k);
    EncodeUnfolds(v, k, x);
  }

  lemma {:induction false} EncodingsOrdered(v: nat, w: nat)
    requires v < w < TWO_64
    ensures LexLess(Encode(v), Encode(w))
  {
    var x, j := EncodeForm(v);
    var y, k := EncodeForm(w);
    EncodingsOrderedAt(v, x, j, w, y, k);
  }

  ghost predicate Ascending(encode: nat -> seq<Byte>) {
    forall a: nat, b: nat :: a < b < TWO_64 ==> LexLess(encode(a), encode(b))
  }

  lemma {:induction false} AscendingIff(encode: nat -> seq<Byte>, v: nat, w: nat)
    requires Ascending(encode) && v < TWO_64 && w < TWO_64
    ensures v < w <==> LexLess(encode(v), encode(w))
  {
    if w < v {
      LexAsymmetric(encode(w), encode(v));
    } else if v == w {
      LexIrreflexive(encode(v));
    }
  }

  /** The byte-wise order of encodings is the numeric order of the values. */
  lemma {:induction false} OrderPreserved(v: nat, w: nat)
    requires v < TWO_64 && w < TWO_64
    ensures v < w <==> LexLess(Encode(v), Encode(w))
  {
    var encode := (a: nat) => if a < TWO_64 then Encode(a) else [];
    forall a: nat, b: nat | a < b < TWO_64
      ensures LexLess(encode(a), encode(b))
    {
      EncodingsOrdered(a, b);
    }
    AscendingIff(encode, v, w);
  }

  lemma {:induction false} LexIrreflexive(s: seq<Byte>)
    ensures !LexLess(s, s)
  {
    if s != [] {
      LexIrreflexive(s[1..]);
    }
  }
}
