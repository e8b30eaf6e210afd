/** Sets of numbers packed into 64-bit words (collections/src/bitset.rs). */
module BitSets {
  import opened Bits
  import opened WordBits

  type Op = (nat, nat) -> nat

  ghost predicate Words(store: seq<nat>) {
    forall i :: 0 <= i < |store| ==> store[i] < Pow2(64)
  }

  /** The word at a position; beyond the end there are no bits. */
  function WordAt(store: seq<nat>, i: nat): nat {
    if i < |store| then store[i] else 0
  }

  predicate Has(store: seq<nat>, v: nat) {
    BitAt(WordAt(store, v / 64), v % 64)
  }

  /** The set a store stands for. */
  ghost function Members(store: seq<nat>): (s: set<nat>)
    ensures forall v :: v in s <==> Has(store, v)
  {
    MembersBelow(store);
    set v | 0 <= v < 64 * |store| && Has(store, v)
  }

  lemma {:induction false} MembersBelow(store: seq<nat>)
    ensures forall v: nat :: Has(store, v) ==> v < 64 * |store|
  {
    forall v: nat | Has(store, v)
      ensures v < 64 * |store|
    {
      if v / 64 >= |store| {
        NoBit(v % 64);
      }
    }
  }

  function TotalOnes(store: seq<nat>): nat {
    if store == [] then 0 else TotalOnes(store[..|store| - 1]) + CountOnes(store[|store| - 1])
  }

  lemma {:induction false} MembersSplit(store: seq<nat>)
    requires store != [] && Words(store)
    ensures var n := |store| - 1;
            Members(store) == Members(store[..n]) + Ones(store[n], 64 * n, 64) &&
            Members(store[..n]) !! Ones(store[n], 64 * n, 64)
  {
    var n := |store| - 1;
    MembersBelow(store[..n]);
    MembersBelow(store);
    forall v: nat
      ensures v in Members(store) <==> v in Members(store[..n]) || v in Ones(store[n], 64 * n, 64)
    {
      if v / 64 == n {
        assert v % 64 == v - 64 * n;
      }
    }
  }

  /** Counting the bits of the words counts the members. */
  lemma {:induction false} MembersSize(store: seq<nat>)
    requires Words(store)
    ensures |Members(store)| == TotalOnes(store)
  {
    if store == [] {
      MembersBelow(store);
      assert Members(store) == {};
    } else {
      var n := |store| - 1;
      MembersSplit(store);
      MembersSize(store[..n]);
      OnesSize(store[n], 64 * n, 64);
    }
  }

  /** Without the zero words at the end. */
  function Compacted(store: seq<nat>): seq<nat> {
    if store != [] && store[|store| - 1] == 0 then Compacted(store[..|store| - 1]) else store
  }

  lemma {:induction false} CompactedSame(store: seq<nat>, v: nat)
    ensures Has(Compacted(store), v) == Has(store, v)
  {
    if store != [] && store[|store| - 1] == 0 {
      CompactedSame(store[..|store| - 1], v);
      NoBit(v % 64);
    }
  }

  lemma {:induction false} CompactedMembers(store: seq<nat>)
    ensures Members(Compacted(store)) == Members(store)
  {
    forall v: nat
      ensures Has(Compacted(store), v) == Has(store, v)
    {
      CompactedSame(store, v);
    }
  }

  lemma {:induction false} CompactedWords(store: seq<nat>)
    requires Words(store)
    ensures Words(Compacted(store)) && Compacted(store) <= store
  {
    if store != [] && store[|store| - 1] == 0 {
      CompactedWords(store[..|store| - 1]);
    }
  }

  /** Word by word, padding the shorter store with zeros. */
  function Zipped(a: seq<nat>, b: seq<nat>, op: Op, n: nat): (s: seq<nat>)
    ensures |s| == n && forall i :: 0 <= i < n ==> s[i] == op(WordAt(a, i), WordAt(b, i))
    decreases n
  {
    if n == 0 then [] else Zipped(a, b, op, n - 1) + [op(WordAt(a, n - 1), WordAt(b, n - 1))]
  }

  function Longer(a: seq<nat>, b: seq<nat>): nat {
    if |a| < |b| then |b| else |a|
  }

  /** An operation on words that acts bit by bit. */
  ghost predicate Bitwise(op: Op, f: (bool, bool) -> bool) {
    && op(0, 0) == 0 && !f(false, false)
    && (forall a: nat, b: nat :: a < Pow2(64) && b < Pow2(64) ==> op(a, b) < Pow2(64))
    && (forall a: nat, b: nat, i: nat :: BitAt(op(a, b), i) == f(BitAt(a, i), BitAt(b, i)))
  }

  lemma {:induction false} ZippedHas(a: seq<nat>, b: seq<nat>, op: Op, f: (bool, bool) -> bool, v: nat)
    requires Bitwise(op, f)
    ensures Has(Zipped(a, b, op, Longer(a, b)), v) == f(Has(a, v), Has(b, v))
  {
    if v / 64 >= Longer(a, b) {
      NoBit(v % 64);
    }
  }

  lemma {:induction false} ZippedWords(a: seq<nat>, b: seq<nat>, op: Op, f: (bool, bool) -> bool, n: nat)
    requires Bitwise(op, f) && Words(a) && Words(b)
    ensures Words(Zipped(a, b, op, n))
  {
  }

  lemma {:induction false} BitAndBitwise()
    ensures Bitwise(BitAnd, (p, q) => p && q)
  {
    forall a: nat, b: nat, i: nat
      ensures BitAt(BitAnd(a, b), i) == (BitAt(a, i) && BitAt(b, i))
    {
      AndBit(a, b, i);
    }
    forall a: nat, b: nat | a < Pow2(64) && b < Pow2(64)
      ensures BitAnd(a, b) < Pow2(64)
    {
      AndFits(a, b, 64);
    }
  }

  lemma {:induction false} BitOrBitwise()
    ensures Bitwise(BitOr, (p, q) => p || q)
  {
    forall a: nat, b: nat, i: nat
      ensures BitAt(BitOr(a, b), i) == (BitAt(a, i) || BitAt(b, i))
    {
      OrBit(a, b, i);
    }
    forall a: nat, b: nat | a < Pow2(64) && b < Pow2(64)
      ensures BitOr(a, b) < Pow2(64)
    {
      OrFits(a, b, 64);
    }
  }

  lemma {:induction false} BitXorBitwise()
    ensures Bitwise(BitXor, (p, q) => p != q)
  {
    forall a: nat, b: nat, i: nat
      ensures BitAt(BitXor(a, b), i) == (BitAt(a, i) != BitAt(b, i))
    {
      XorBit(a, b, i);
    }
    forall a: nat, b: nat | a < Pow2(64) && b < Pow2(64)
      ensures BitXor(a, b) < Pow2(64)
    {
      XorFits(a, b, 64);
    }
  }

  /** The word and the bit of a value. */
  function IndexAndMask(v: nat): (nat, nat) {
    (Shr(v, 6), Shl(1, BitAnd(v, 63)))
  }

  lemma {:induction false} IndexIs(v: nat)
    ensures IndexAndMask(v) == (v / 64, Shl(1, v % 64))
  {
    assert Pow2(6) == 64;
    ShrBounds(v, 6, v / 64);
    AndLow(v, 6);
  }

  method ZipWords(a: seq<nat>, b: seq<nat>, op: Op) returns (words: seq<nat>, total: nat)
    ensures words == Zipped(a, b, op, Longer(a, b)) && total == TotalOnes(words)
  {
    words, total := [], 0;
    for i := 0 to Longer(a, b)
      invariant words == Zipped(a, b, op, i) && total == TotalOnes(words)
    {
      var x :=
        if i < |a| && i < |b| then op(a[i], b[i])
        else if i < |a| then op(a[i], 0)
        else op(0, b[i]);
      assert (words + [x])[..i] == words;
      words, total := words + [x], total + CountOnes(x);
    }
  }

  lemma {:induction false} ZippedMembers(a: seq<nat>, b: seq<nat>, op: Op, f: (bool, bool) -> bool, words: seq<nat>)
    requires Bitwise(op, f) && words == Zipped(a, b, op, Longer(a, b))
    ensures forall v :: v in Members(words) <==> f(v in Members(a), v in Members(b))
  {
    forall v: nat
      ensures Has(words, v) == f(Has(a, v), Has(b, v))
    {
      ZippedHas(a, b, op, f, v);
    }
  }

  class BitSet {
    var store: seq<nat>
    var count: nat

    ghost predicate Valid()
      reads this
    {
      Words(store) && count == |Members(store)|
    }

    constructor ()
      ensures Valid() && Members(store) == {}
    {
      store, count := [], 0;
      new;
      MembersSize([]);
    }

    constructor FromWords(store: seq<nat>, count: nat)
      ensures this.store == store && this.count == count
    {
      this.store, this.count := store, count;
    }

    method Contains(v: nat) returns (b: bool)
      requires Valid()
      ensures b <==> v in Members(store)
    {
      var (i, m) := IndexAndMask(v);
      IndexIs(v);
      if i < |store| {
        MaskedBit(store[i], v % 64);
        b := BitAnd(store[i], m) != 0;
      } else {
        NoBit(v % 64);
        b := false;
      }
    }

    method Insert(v: nat)
      requires Valid()
      modifies this
      ensures Valid() && Members(store) == old(Members(store)) + {v}
    {
      var (i, m) := IndexAndMask(v);
      IndexIs(v);
      if i >= |store| {
        Resize(i + 1);
      }
      MaskedBit(store[i], v % 64);
      if BitAnd(store[i], m) == 0 {
        count := count + 1;
      }
      Inserted(store, v, m);
      store := store[i := BitOr(store[i], m)];
    }

    method Resize(n: nat)
      requires Words(store) && |store| <= n
      modifies this`store
      ensures |store| == n && Words(store) && Members(store) == old(Members(store))
    {
      PaddedSame(store, n);
      store := Padded(store, n);
    }

    method Remove(v: nat)
      requires Valid()
      modifies this
      ensures Valid() && Members(store) == old(Members(store)) - {v}
    {
      var (i, m) := IndexAndMask(v);
      IndexIs(v);
      if i < |store| {
        MaskedBit(store[i], v % 64);
        if BitAnd(store[i], m) != 0 {
          count := count - 1;
        }
        Removed(store, v, m);
        store := store[i := BitAndNot(store[i], m)];
      } else {
        NoBit(v % 64);
      }
      Compact();
    }

    /** Drops the zero words at the end. */
    method Compact()
      requires Words(store)
      modifies this`store
      ensures store == Compacted(old(store)) && Words(store) && Members(store) == old(Members(store))
    {
      var empty := 0;
      assert store[..|store| - empty] == store;
      while empty < |store| && store[|store| - 1 - empty] == 0
        invariant empty <= |store| && Compacted(store) == Compacted(store[..|store| - empty])
      {
        assert store[..|store| - empty][..|store| - empty - 1] == store[..|store| - empty - 1];
        empty := empty + 1;
      }
      CompactedWords(store);
      CompactedMembers(store);
      store := store[..|store| - empty];
    }

    /** A new set from two, word by word. */
    method ApplyOp(other: BitSet, op: Op, ghost f: (bool, bool) -> bool) returns (r: BitSet)
      requires Valid() && other.Valid() && Bitwise(op, f)
      ensures fresh(r) && r.Valid()
      ensures forall v :: v in Members(r.store) <==> f(v in Members(store), v in Members(other.store))
    {
      var words, total := ZipWords(store, other.store, op);
      ghost var a, b, n := store, other.store, |words|;
      assert Words(words) && total == |Members(words)| by {
        ZippedWords(a, b, op, f, n);
        MembersSize(words);
      }
      r := new BitSet.FromWords(words, total);
      r.Compact();
      ZippedMembers(a, b, op, f, words);
    }

    method And(other: BitSet) returns (r: BitSet)
      requires Valid() && other.Valid()
      ensures fresh(r) && r.Valid() && Members(r.store) == Members(store) * Members(other.store)
    {
      BitAndBitwise();
      r := ApplyOp(other, BitAnd, (p, q) => p && q);
    }

    method Or(other: BitSet) returns (r: BitSet)
      requires Valid() && other.Valid()
      ensures fresh(r) && r.Valid() && Members(r.store) == Members(store) + Members(other.store)
    {
      BitOrBitwise();
      r := ApplyOp(other, BitOr, (p, q) => p || q);
    }

    method Xor(other: BitSet) returns (r: BitSet)
      requires Valid() && other.Valid()
      ensures fresh(r) && r.Valid()
      ensures Members(r.store) == (Members(store) - Members(other.store)) + (Members(other.store) - Members(store))
    {
      BitXorBitwise();
      r := ApplyOp(other, BitXor, (p, q) => p != q);
    }

    method IsSuperset(other: BitSet) returns (b: bool)
      requires Valid() && other.Valid()
      ensures b <==> Members(store) >= Members(other.store)
    {
      var n := Longer(store, other.store);
      for i := 0 to n
        invariant forall j :: 0 <= j < i ==> SubWord(WordAt(store, j), WordAt(other.store, j))
      {
        if i >= |other.store| {
          Superset(store, other.store, i);
          return true;
        }
        var contained := if i < |store| then BitAnd(store[i], other.store[i]) == other.store[i]
                         else other.store[i] == 0;
        SubWordIs(WordAt(store, i), other.store[i]);
        if !contained {
          NotSuperset(store, other.store, i);
          return false;
        }
      }
      Superset(store, other.store, n);
      b := true;
    }

    method IntersectionSize(other: BitSet) returns (size: nat)
      requires Valid() && other.Valid()
      ensures size == |Members(store) * Members(other.store)|
    {
      size := 0;
      var n := if |store| < |other.store| then |store| else |other.store|;
      ghost var words := [];
      for i := 0 to n
        invariant words == Zipped(store, other.store, BitAnd, i) && size == TotalOnes(words)
      {
        var x := BitAnd(store[i], other.store[i]);
        assert (words + [x])[..i] == words;
        words, size := words + [x], size + CountOnes(x);
      }
      BitAndBitwise();
      ZippedWords(store, other.store, BitAnd, (p, q) => p && q, n);
      MembersSize(words);
      CommonMembers(store, other.store, words, n);
    }

    method Equals(other: BitSet) returns (b: bool)
      requires Valid() && other.Valid()
      ensures b <==> Members(store) == Members(other.store)
    {
      var n := Longer(store, other.store);
      for i := 0 to n
        invariant forall j :: 0 <= j < i ==> WordAt(store, j) == WordAt(other.store, j)
      {
        var same :=
          if i < |store| && i < |other.store| then store[i] == other.store[i]
          else if i < |store| then store[i] == 0
          else other.store[i] == 0;
        if !same {
          DifferentMembers(store, other.store, i);
          return false;
        }
      }
      SameMembers(store, other.store, n);
      b := true;
    }
  }

  function Padded(store: seq<nat>, n: nat): (s: seq<nat>)
    requires |store| <= n
    ensures |s| == n && s[..|store|] == store && forall i :: |store| <= i < n ==> s[i] == 0
    decreases n - |store|
  {
    if |store| == n then store
    else
      var s := Padded(store + [0], n);
      assert s[..|store|] == s[..|store| + 1][..|store|];
      s
  }

  lemma {:induction false} PaddedSame(store: seq<nat>, n: nat)
    requires |store| <= n && Words(store)
    ensures Words(Padded(store, n)) && Members(Padded(store, n)) == Members(store)
  {
    var s := Padded(store, n);
    assert forall i :: 0 <= i < |store| ==> s[i] == s[..|store|][i];
    assert forall v: nat :: Has(s, v) == Has(store, v);
  }

  lemma {:induction false} Inserted(store: seq<nat>, v: nat, m: nat)
    requires v / 64 < |store| && m == Shl(1, v % 64) && Words(store)
    ensures var s := store[v / 64 := BitOr(store[v / 64], m)]; Words(s) && Members(s) == Members(store) + {v}
  {
    var s := store[v / 64 := BitOr(store[v / 64], m)];
    OneFits(v % 64, 64);
    OrFits(store[v / 64], m, 64);
    forall u: nat
      ensures Has(s, u) <==> Has(store, u) || u == v
    {
      if u / 64 == v / 64 {
        OrBit(store[v / 64], m, u % 64);
        OneBit(v % 64, u % 64);
      }
    }
  }

  lemma {:induction false} Removed(store: seq<nat>, v: nat, m: nat)
    requires v / 64 < |store| && m == Shl(1, v % 64) && Words(store)
    ensures var s := store[v / 64 := BitAndNot(store[v / 64], m)]; Words(s) && Members(s) == Members(store) - {v}
  {
    var s := store[v / 64 := BitAndNot(store[v / 64], m)];
    AndNotFits(store[v / 64], m, 64);
    forall u: nat
      ensures Has(s, u) <==> Has(store, u) && u != v
    {
      if u / 64 == v / 64 {
        AndNotBit(store[v / 64], m, u % 64);
        OneBit(v % 64, u % 64);
      }
    }
  }

  ghost predicate SubWord(a: nat, b: nat) {
    forall i: nat :: BitAt(b, i) ==> BitAt(a, i)
  }

  lemma {:induction false} SubWordIs(a: nat, b: nat)
    ensures BitAnd(a, b) == b <==> SubWord(a, b)
    ensures a == 0 ==> (b == 0 <==> SubWord(a, b))
  {
    forall i: nat
      ensures BitAt(BitAnd(a, b), i) == (BitAt(a, i) && BitAt(b, i))
    {
      AndBit(a, b, i);
    }
    if SubWord(a, b) {
      SameBits(BitAnd(a, b), b);
    }
  }

  lemma {:induction false} Superset(a: seq<nat>, b: seq<nat>, n: nat)
    requires |b| <= n && forall j :: 0 <= j < n ==> SubWord(WordAt(a, j), WordAt(b, j))
    ensures Members(a) >= Members(b)
  {
    forall v | v in Members(b)
      ensures v in Members(a)
    {
      MembersBelow(b);
    }
  }

  /** A bit that one word has and another lacks, as a value in one set and not in the other. */
  lemma {:induction false} Apart(a: seq<nat>, b: seq<nat>, i: nat, k: nat)
    requires Words(a) && Words(b) && BitAt(WordAt(a, i), k) && !BitAt(WordAt(b, i), k)
    ensures 64 * i + k in Members(a) && 64 * i + k !in Members(b)
  {
    if k >= 64 {
      HighBit(WordAt(a, i), 64, k);
    }
    assert (64 * i + k) / 64 == i && (64 * i + k) % 64 == k;
  }

  lemma {:induction false} NotSuperset(a: seq<nat>, b: seq<nat>, i: nat)
    requires Words(a) && Words(b) && !SubWord(WordAt(a, i), WordAt(b, i))
    ensures !(Members(a) >= Members(b))
  {
    var k: nat :| BitAt(WordAt(b, i), k) && !BitAt(WordAt(a, i), k);
    Apart(b, a, i, k);
  }

  lemma {:induction false} DifferentMembers(a: seq<nat>, b: seq<nat>, i: nat)
    requires Words(a) && Words(b) && WordAt(a, i) != WordAt(b, i)
    ensures Members(a) != Members(b)
  {
    if forall k: nat :: BitAt(WordAt(a, i), k) == BitAt(WordAt(b, i), k) {
      SameBits(WordAt(a, i), WordAt(b, i));
    } else {
      var k: nat :| BitAt(WordAt(a, i), k) != BitAt(WordAt(b, i), k);
      if BitAt(WordAt(a, i), k) {
        Apart(a, b, i, k);
      } else {
        Apart(b, a, i, k);
      }
    }
  }

  lemma {:induction false} SameMembers(a: seq<nat>, b: seq<nat>, n: nat)
    requires |a| <= n && |b| <= n && forall j :: 0 <= j < n ==> WordAt(a, j) == WordAt(b, j)
    ensures Members(a) == Members(b)
  {
    assert forall v: nat :: Has(a, v) == Has(b, v);
  }

  lemma {:induction false} CommonMembers(a: seq<nat>, b: seq<nat>, words: seq<nat>, n: nat)
    requires words == Zipped(a, b, BitAnd, n) && (n == |a| || n == |b|)
    ensures Members(words) == Members(a) * Members(b)
  {
    forall v: nat
      ensures Has(words, v) <==> Has(a, v) && Has(b, v)
    {
      AndBit(WordAt(a, v / 64), WordAt(b, v / 64), v % 64);
      NoBit(v % 64);
    }
  }
}
