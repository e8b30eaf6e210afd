/** The binary partition of the identifier space seen by one node (handel/src/partitioner.rs). */
module Partitioner {
  import opened Prelude
  import opened Sets
  import opened Bits
  import opened Contributions

  datatype PartitioningError = InvalidLevel(level: nat) | EmptyLevel(level: nat)

  datatype IdRange = IdRange(min: nat, max: nat) {
    predicate Contains(id: nat) {
      min <= id <= max
    }
  }

  /** `level_size`: how many identifiers the levels up to this one hold together. */
  function LevelSize(level: nat): nat {
    Pow2(level)
  }

  datatype BinomialPartitioner = BinomialPartitioner(nodeId: nat, numIds: nat, numLevels: nat) {

    static function New(nodeId: nat, numIds: nat): Outcome<BinomialPartitioner> {
      if numIds == 0 then Panic
      else
        var numLevels := if numIds == 1 then 1 else Log2(numIds - 1) + 2;
        if nodeId < numIds then Ok(BinomialPartitioner(nodeId, numIds, numLevels)) else Panic
    }

    ghost predicate Valid() {
      New(nodeId, numIds) == Ok(this)
    }

    function Range(level: nat): Result<IdRange, PartitioningError> {
      if level == 0 then Success(IdRange(nodeId, nodeId))
      else if level >= numLevels then Failure(InvalidLevel(level))
      else
        var m := Pow2(level - 1) - 1;
        var f := Pow2(level - 1);
        var min := BitAndNot(BitXor(nodeId, f), m);
        var max := BitOr(BitXor(nodeId, f), m);
        if min > max then Failure(EmptyLevel(level)) else Success(IdRange(min, max))
    }
  }

  /** The aligned block of 2^k identifiers around a node. */
  function Block(node: nat, k: nat): set<nat> {
    set i | i in Interval(0, node + Pow2(k)) && Shr(i, k) == Shr(node, k)
  }

  lemma {:induction false} InBlock(node: nat, k: nat, i: nat)
    ensures i in Block(node, k) <==> Shr(i, k) == Shr(node, k)
  {
    var q := Shr(node, k);
    ShrBounds(i, k, q);
    ShrBounds(node, k, q);
  }

  lemma {:induction false} BlockIsInterval(node: nat, k: nat, base: nat)
    requires base == Shr(node, k) * Pow2(k)
    ensures Block(node, k) == Interval(base, base + Pow2(k))
  {
    forall i
      ensures i in Block(node, k) <==> i in Interval(base, base + Pow2(k))
    {
      InBlock(node, k, i);
      ShrBounds(i, k, Shr(node, k));
    }
  }

  lemma {:induction false} BlockSize(node: nat, k: nat)
    ensures |Block(node, k)| == Pow2(k)
  {
    var base := Shr(node, k) * Pow2(k);
    BlockIsInterval(node, k, base);
    IntervalSize(base, base + Pow2(k));
  }

  /** The number of levels is the least one whose top block holds every identifier. */
  lemma {:induction false} LevelsCoverIds(p: BinomialPartitioner)
    requires p.Valid()
    ensures 1 <= p.numLevels
    ensures p.numIds <= Pow2(p.numLevels - 1)
    ensures p.numLevels > 1 ==> Pow2(p.numLevels - 2) < p.numIds
  {
    if p.numIds > 1 {
      Log2Bounds(p.numIds - 1);
    }
  }

  /**
   * The identifiers a node talks to at a level: itself at level 0, and above that the half of its
   * block that the level below does not cover.
   */
  function PeerIds(node: nat, level: nat): set<nat> {
    if level == 0 then {node} else Block(node, level) - Block(node, level - 1)
  }

  /** Everyone a node talks to up to and including a level. */
  function PeerIdsUpTo(node: nat, level: nat): set<nat> {
    if level == 0 then PeerIds(node, 0) else PeerIdsUpTo(node, level - 1) + PeerIds(node, level)
  }

  /** `range` never reports an empty level, and it holds exactly the peers of its level. */
  lemma {:induction false} RangeIsPeers(p: BinomialPartitioner, level: nat, i: nat)
    requires level < p.numLevels
    ensures p.Range(level).Success?
    ensures p.Range(level).value.Contains(i) <==> i in PeerIds(p.nodeId, level)
  {
    if level > 0 {
      var k := level - 1;
      LowBitsBound(BitXor(p.nodeId, Pow2(k)), k, i);
      FlipBit(p.nodeId, k);
      PeerBits(p.nodeId, level, i);
    }
  }

  /** A peer at a level shares the node's high bits and differs in exactly the bit below them. */
  lemma {:induction false} PeerBits(node: nat, level: nat, i: nat)
    requires level > 0
    ensures i in PeerIds(node, level) <==>
            Shr(i, level - 1) == if Shr(node, level - 1) % 2 == 0 then Shr(node, level - 1) + 1
            else Shr(node, level - 1) - 1
    ensures Block(node, level - 1) <= Block(node, level)
  {
    ShrStep(i, level - 1);
    ShrStep(node, level - 1);
    InBlock(node, level, i);
    InBlock(node, level - 1, i);
    forall j | j in Block(node, level - 1)
      ensures j in Block(node, level)
    {
      ShrStep(j, level - 1);
      InBlock(node, level, j);
    }
  }

  /** Ranges up to a level tile the node's block at that level, and the next range is disjoint from them. */
  lemma {:induction false} RangesTileBlock(node: nat, level: nat)
    ensures PeerIdsUpTo(node, level) == Block(node, level)
    ensures level > 0 ==> PeerIds(node, level) !! PeerIdsUpTo(node, level - 1)
  {
    if level == 0 {
      forall i
        ensures i in Block(node, 0) <==> i == node
      {
        InBlock(node, 0, i);
      }
    } else {
      RangesTileBlock(node, level - 1);
      PeerBits(node, level, 0);
    }
  }

  lemma {:induction false} UpToSize(node: nat, level: nat)
    ensures |PeerIdsUpTo(node, level)| == LevelSize(level)
  {
    RangesTileBlock(node, level);
    BlockSize(node, level);
  }

  lemma {:induction false} PeersSize(node: nat, level: nat)
    requires level > 0
    ensures |PeerIds(node, level)| == LevelSize(level) / 2
  {
    BlockSize(node, level);
    BlockSize(node, level - 1);
    assert Block(node, level - 1) <= Block(node, level) by { PeerBits(node, level, 0); }
    SubsetSize(Block(node, level - 1), Block(node, level));
  }

  /** The levels up to one hold `level_size` identifiers together, and a level above 0 holds half of them. */
  lemma {:induction false} RangeSizes(node: nat, level: nat)
    ensures |PeerIdsUpTo(node, level)| == LevelSize(level)
    ensures |PeerIds(node, level)| == if level == 0 then LevelSize(0) else LevelSize(level) / 2
  {
    UpToSize(node, level);
    if level > 0 {
      PeersSize(node, level);
    }
  }

  lemma {:induction false} UpToMonotone(node: nat, j: nat, k: nat)
    requires j <= k
    ensures PeerIdsUpTo(node, j) <= PeerIdsUpTo(node, k)
    ensures PeerIds(node, j) <= PeerIdsUpTo(node, k)
    decreases k - j
  {
    if j < k {
      UpToMonotone(node, j + 1, k);
    }
  }

  /** One node's ranges are pairwise disjoint. */
  lemma {:induction false} RangesDisjoint(node: nat, j: nat, k: nat)
    requires j < k
    ensures PeerIds(node, j) !! PeerIds(node, k)
  {
    RangesTileBlock(node, k);
    UpToMonotone(node, j, k - 1);
  }

  lemma {:induction false} TopBlock(node: nat, k: nat)
    requires node < Pow2(k)
    ensures Block(node, k) == Interval(0, Pow2(k))
  {
    ShrBounds(node, k, 0);
    forall i
      ensures i in Block(node, k) <==> i in Interval(0, Pow2(k))
    {
      InBlock(node, k, i);
      ShrBounds(i, k, 0);
    }
  }

  /** All ranges together are exactly [0, 2^(levels-1)). */
  lemma {:induction false} RangesTileIdSpace(p: BinomialPartitioner)
    requires p.Valid()
    ensures p.numLevels > 0
    ensures PeerIdsUpTo(p.nodeId, p.numLevels - 1) == Interval(0, Pow2(p.numLevels - 1))
  {
    LevelsCoverIds(p);
    RangesTileBlock(p.nodeId, p.numLevels - 1);
    TopBlock(p.nodeId, p.numLevels - 1);
  }

  /** Being a peer at a level is mutual, and a peer's range there is all the node covers below it. */
  lemma {:induction false} PeersAreMutual(s: nat, p: nat, level: nat)
    requires level > 0
    ensures p in PeerIds(s, level) <==> s in PeerIds(p, level)
    ensures p in PeerIds(s, level) ==> PeerIdsUpTo(s, level - 1) == PeerIds(p, level)
  {
    PeerBits(s, level, p);
    PeerBits(p, level, s);
    if p in PeerIds(s, level) {
      RangesTileBlock(s, level - 1);
      forall i
        ensures i in Block(s, level - 1) <==> i in PeerIds(p, level)
      {
        BlockOfPeer(s, p, level, i);
      }
    }
  }

  lemma {:induction false} BlockOfPeer(s: nat, p: nat, level: nat, i: nat)
    requires level > 0 && p in PeerIds(s, level)
    ensures i in Block(s, level - 1) <==> i in PeerIds(p, level)
  {
    PeerBits(s, level, p);
    InBlock(s, level - 1, i);
    PeerBits(p, level, i);
  }

  lemma {:induction false} CombinesNext(cs: seq<Contribution>, i: nat)
    requires i < |cs| && PairwiseDisjoint(cs[..i]) && UnionAll(cs[..i]) !! cs[i].contributors
    ensures PairwiseDisjoint(cs[..i + 1]) && UnionAll(cs[..i + 1]) == UnionAll(cs[..i]) + cs[i].contributors
  {
    assert cs[..i + 1][..i] == cs[..i];
    forall j | 0 <= j < i
      ensures cs[j].contributors !! cs[i].contributors
    {
      assert cs[..i][j] in cs[..i];
    }
  }

  lemma {:induction false} OverlapsNext(cs: seq<Contribution>, i: nat)
    requires i < |cs| && !(UnionAll(cs[..i]) !! cs[i].contributors)
    ensures !PairwiseDisjoint(cs)
  {
    var x :| x in UnionAll(cs[..i]) && x in cs[i].contributors;
    InUnion(cs[..i], x);
  }

  /** Aggregates a list of contributions, one `combine` at a time. */
  method Combine(contributions: seq<Contribution>) returns (r: Outcome<Option<Contribution>>)
    ensures r == CombineAll(contributions)
  {
    if |contributions| == 0 {
      return Ok(None);
    }
    var combined := contributions[0];
    assert contributions[..1] == [contributions[0]];
    for i := 1 to |contributions|
      invariant PairwiseDisjoint(contributions[..i])
      invariant combined == Contribution(UnionAll(contributions[..i]))
    {
      match combined.Combine(contributions[i]) {
        case Success(c) =>
          CombinesNext(contributions, i);
          combined := c;
        case Failure(overlap) =>
          OverlapsNext(contributions, i);
          return Panic;
      }
    }
    assert contributions[..|contributions|] == contributions;
    return Ok(Some(combined));
  }
}
