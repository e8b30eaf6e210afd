/** Writing packed sets to bytes and reading them back (collections/src/bitset.rs). */
module BitSetCodec {
  import opened Prelude
  import opened Bits
  import opened BigEndian
  import opened WordBits
  import opened BitSets
  import opened Uvars
  import Writer = UvarWriter
  import Reader = UvarReader

  /** The words of a store, eight bytes each. */
  ghost function WordsBytes(store: seq<nat>): seq<Byte> {
    if store == [] then [] else Bytes(store[0], 8) + WordsBytes(store[1..])
  }

  ghost function EncodeSet(store: seq<nat>): seq<Byte>
    requires |store| < TWO_64
  {
    Encode(|store|) + WordsBytes(store)
  }

  /** n words off the front of the input, with what follows. */
  ghost function DecodeWords(s: seq<Byte>, n: nat): Result<(seq<nat>, seq<Byte>), SerializingError>
    decreases n
  {
    if n == 0 then Success(([], s))
    else if |s| < 8 then Failure(UnexpectedEof)
    else
      match DecodeWords(s[8..], n - 1)
      case Failure(e) => Failure(e)
      case Success(w) => Success(([Value(s[..8])] + w.0, w.1))
  }

  ghost function DecodeSet(s: seq<Byte>): Result<(seq<nat>, seq<Byte>), SerializingError> {
    match Decode(s)
    case Failure(e) => Failure(e)
    case Success(n) => DecodeWords(n.1, n.0)
  }

  lemma {:induction false} DecodeFirstWord(w: nat, t: seq<Byte>, n: nat, ws: seq<nat>, rest: seq<Byte>)
    requires w < Pow2(64) && DecodeWords(t, n) == Success((ws, rest))
    ensures DecodeWords(Bytes(w, 8) + t, n + 1) == Success(([w] + ws, rest))
  {
    var s := Bytes(w, 8) + t;
    assert s[..8] == Bytes(w, 8) && s[8..] == t;
    assert Value(Bytes(w, 8)) == w by {
      Pow256Is(8);
      ValueOfBytes(w, 8);
    }
  }

  lemma {:induction false} FirstWordBytes(store: seq<nat>, rest: seq<Byte>)
    requires store != []
    ensures WordsBytes(store) + rest == Bytes(store[0], 8) + (WordsBytes(store[1..]) + rest)
  {
    var first, others := Bytes(store[0], 8), WordsBytes(store[1..]);
    assert (first + others) + rest == first + (others + rest);
  }

  lemma {:induction false} WordOf(s: seq<Byte>, w: nat)
    requires |s| == 8 && w == Value(s)
    ensures w < Pow2(64) && Bytes(w, 8) == s
  {
    assert Bytes(w, 8) == s by { BytesOfValue(s); }
    assert w < Pow256(8) by { ValueBound(s); }
    Pow256Is(8);
  }

  lemma {:induction false} WordsRoundTrip(store: seq<nat>, rest: seq<Byte>)
    requires Words(store)
    ensures DecodeWords(WordsBytes(store) + rest, |store|) == Success((store, rest))
  {
    if store == [] {
      assert WordsBytes(store) + rest == rest;
    } else {
      var w, ws := store[0], store[1..];
      WordsRoundTrip(ws, rest);
      DecodeFirstWord(w, WordsBytes(ws) + rest, |ws|, ws, rest);
      FirstWordBytes(store, rest);
      assert store == [w] + ws;
    }
  }

  lemma {:induction false} WordsReencoded(s: seq<Byte>, n: nat, store: seq<nat>, rest: seq<Byte>)
    requires DecodeWords(s, n) == Success((store, rest))
    ensures |store| == n && Words(store) && s == WordsBytes(store) + rest
    decreases n
  {
    if n > 0 {
      WordsReencoded(s[8..], n - 1, store[1..], rest);
      WordOf(s[..8], store[0]);
      assert s == s[..8] + s[8..];
      FirstWordBytes(store, rest);
    }
  }

  /** Reading inverts writing, and leaves the bytes that follow. */
  lemma {:induction false} SetRoundTrip(store: seq<nat>, rest: seq<Byte>)
    requires Words(store) && |store| < TWO_64
    ensures DecodeSet(EncodeSet(store) + rest) == Success((store, rest))
  {
    DecodeInvertsEncode(|store|, WordsBytes(store) + rest);
    JoinedAgain(Encode(|store|), WordsBytes(store), rest);
    WordsRoundTrip(store, rest);
  }

  /** What can be read is what would be written for the words read. */
  lemma {:induction false} SetReencoded(s: seq<Byte>, store: seq<nat>, rest: seq<Byte>)
    requires DecodeSet(s) == Success((store, rest))
    ensures Words(store) && |store| < TWO_64 && s == EncodeSet(store) + rest
  {
    var n := Decode(s).value;
    DecodedIsEncoded(s, n.0, n.1);
    WordsReencoded(n.1, n.0, store, rest);
    JoinedAgain(Encode(|store|), WordsBytes(store), rest);
  }

  lemma {:induction false} JoinedAgain(a: seq<Byte>, b: seq<Byte>, c: seq<Byte>)
    ensures a + (b + c) == (a + b) + c
  {
  }

  method Serialize(set0: BitSet, writer: seq<Byte>) returns (r: Result<(seq<Byte>, nat), SerializingError>)
    requires set0.Valid()
    ensures if |set0.store| < TWO_64 then r == Success((writer + EncodeSet(set0.store), |EncodeSet(set0.store)|))
            else r == Failure(Overflow)
  {
    var store := set0.store;
    if |store| >= TWO_64 {
      return Failure(Overflow);
    }
    var out, size := WriteSet(store, writer);
    return Success((out, size));
  }

  method WriteSet(store: seq<nat>, writer: seq<Byte>) returns (out: seq<Byte>, size: nat)
    requires |store| < TWO_64
    ensures out == writer + EncodeSet(store) && size == |EncodeSet(store)|
  {
    ghost var a, b := Encode(|store|), WordsBytes(store);
    out, size := Writer.Serialize(|store|, writer);
    var words, more := WriteWords(store, out);
    Assembled(writer, a, b, EncodeSet(store));
    out, size := words, size + more;
  }

  lemma {:induction false} Assembled(writer: seq<Byte>, a: seq<Byte>, b: seq<Byte>, ab: seq<Byte>)
    requires ab == a + b
    ensures writer + a + b == writer + ab && |ab| == |a| + |b|
  {
  }

  method WriteWords(store: seq<nat>, writer: seq<Byte>) returns (out: seq<Byte>, size: nat)
    ensures out == writer + WordsBytes(store) && size == |WordsBytes(store)|
  {
    out, size := writer, 0;
    for i := 0 to |store|
      invariant out == writer + WordsBytes(store[..i]) && size == |WordsBytes(store[..i])|
    {
      WordsSnoc(store, i);
      out, size := out + Bytes(store[i], 8), size + 8;
    }
    assert store[..|store|] == store;
  }

  lemma {:induction false} WordsSnoc(store: seq<nat>, i: nat)
    requires i < |store|
    ensures WordsBytes(store[..i + 1]) == WordsBytes(store[..i]) + Bytes(store[i], 8)
  {
    WordsSplit(store[..i], [store[i]]);
    assert store[..i + 1] == store[..i] + [store[i]];
    assert [store[i]][1..] == [];
  }

  lemma {:induction false} WordsSplit(a: seq<nat>, b: seq<nat>)
    ensures WordsBytes(a + b) == WordsBytes(a) + WordsBytes(b)
  {
    if a == [] {
      assert a + b == b;
    } else {
      WordsSplit(a[1..], b);
      assert (a + b)[1..] == a[1..] + b;
      JoinedAgain(Bytes(a[0], 8), WordsBytes(a[1..]), WordsBytes(b));
    }
  }

  /** Reads a set; its count is the number of its members. */
  method Deserialize(reader: seq<Byte>) returns (r: Result<(BitSet, seq<Byte>), SerializingError>)
    ensures r.Failure? <==> DecodeSet(reader).Failure?
    ensures r.Failure? ==> r.error == DecodeSet(reader).error
    ensures r.Success? ==>
              fresh(r.value.0) && r.value.0.Valid() && DecodeSet(reader) == Success((r.value.0.store, r.value.1))
  {
    var n :- Reader.Deserialize(reader);
    var words :- ReadWords(n.1, n.0);
    SetReencoded(reader, words.0, words.1);
    MembersSize(words.0);
    var result := new BitSet.FromWords(words.0, words.2);
    return Success((result, words.1));
  }

  /** Reads n words and counts their bits. */
  method ReadWords(reader: seq<Byte>, n: nat) returns (r: Result<(seq<nat>, seq<Byte>, nat), SerializingError>)
    ensures match r
            case Failure(e) => DecodeWords(reader, n) == Failure(e)
            case Success(w) => DecodeWords(reader, n) == Success((w.0, w.1)) && w.2 == TotalOnes(w.0)
  {
    var rest, store, count := reader, [], 0;
    PrependedNone(DecodeWords(reader, n));
    for i := 0 to n
      invariant |store| == i && count == TotalOnes(store)
      invariant DecodeWords(reader, n) == Prepended(store, DecodeWords(rest, n - i))
    {
      var x :- Reader.Read(rest, 8);
      assert (store + [x.0])[..i] == store;
      PrependedNext(store, rest, n - i, x.0);
      rest, store, count := x.1, store + [x.0], count + CountOnes(x.0);
    }
    assert store + [] == store;
    return Success((store, rest, count));
  }

  ghost function Prepended(store: seq<nat>, r: Result<(seq<nat>, seq<Byte>), SerializingError>)
    : Result<(seq<nat>, seq<Byte>), SerializingError> {
    match r
    case Failure(e) => Failure(e)
    case Success(w) => Success((store + w.0, w.1))
  }

  lemma {:induction false} PrependedNone(r: Result<(seq<nat>, seq<Byte>), SerializingError>)
    ensures Prepended([], r) == r
  {
    if r.Success? {
      assert [] + r.value.0 == r.value.0;
    }
  }

  lemma {:induction false} PrependedNext(store: seq<nat>, s: seq<Byte>, n: nat, x: nat)
    requires n > 0 && |s| >= 8 && x == Value(s[..8])
    ensures Prepended(store, DecodeWords(s, n)) == Prepended(store + [x], DecodeWords(s[8..], n - 1))
  {
    if DecodeWords(s[8..], n - 1).Success? {
      var w := DecodeWords(s[8..], n - 1).value;
      assert store + ([x] + w.0) == store + [x] + w.0;
    }
  }
}
