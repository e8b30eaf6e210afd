/** Where the nodes of a network sit in the id space, and what that means for messages between them. */
module HandelPlaces {
  import opened Sets
  import opened Bits
  import opened Partitioner
  import opened ContributionStore
  import opened TodoLists
  import opened Levels
  import opened Aggregation
  import opened AggregationInvariant
  import Evaluator

  /** The existing identifiers of each level. */
  function Ranges(p: BinomialPartitioner): (r: seq<set<nat>>)
    ensures |r| == p.numLevels
    ensures forall l :: 0 <= l < |r| ==> r[l] == PeerIds(p.nodeId, l) * Interval(0, p.numIds)
  {
    seq(p.numLevels, l requires 0 <= l => PeerIds(p.nodeId, l) * Interval(0, p.numIds))
  }

  function PlaceOf(p: BinomialPartitioner, orders: seq<seq<nat>>): Place {
    Place(p.nodeId, Ranges(p), orders)
  }

  /** Identifiers travel as two bytes, so a network has at most 65536 nodes. */
  ghost predicate Networked(p: BinomialPartitioner) {
    p.Valid() && p.numIds <= 0x1_0000
  }

  lemma {:induction false} FewLevels(p: BinomialPartitioner)
    requires Networked(p)
    ensures 0 < p.numLevels <= 17
  {
    LevelsCoverIds(p);
    if p.numLevels > 17 {
      Pow2Monotone(16, p.numLevels - 2);
      Pow2Of16();
    }
  }

  /** The existing identifiers below a level. */
  lemma {:induction false} RangesBelow(p: BinomialPartitioner, l: nat)
    requires 0 < l <= p.numLevels
    ensures RangesUnion(Ranges(p), l) == PeerIdsUpTo(p.nodeId, l - 1) * Interval(0, p.numIds)
  {
    if l > 1 {
      RangesBelow(p, l - 1);
    } else {
      assert RangesUnion(Ranges(p), 0) == {};
    }
  }

  lemma {:induction false} RangeSmall(p: BinomialPartitioner, l: nat)
    requires Networked(p) && l < p.numLevels
    ensures |Ranges(p)[l]| <= |PeerIds(p.nodeId, l)|
    ensures Evaluator.RangeFits(Ranges(p)[l], l)
  {
    FewLevels(p);
    RangeSizes(p.nodeId, l);
    SubsetSize(Ranges(p)[l], PeerIds(p.nodeId, l));
    SubsetSize(Ranges(p)[l], Interval(0, p.numIds));
    IntervalSize(0, p.numIds);
    if l == 0 {
      assert Ranges(p)[0] == {p.nodeId};
    }
  }

  lemma {:induction false} PlacesOk(p: BinomialPartitioner, orders: seq<seq<nat>>)
    requires Networked(p) && |orders| == p.numLevels
    ensures PlaceOk(PlaceOf(p, orders))
  {
    FewLevels(p);
    assert Ranges(p)[0] == {p.nodeId};
    forall j, k | 0 <= j < k < p.numLevels
      ensures Ranges(p)[j] !! Ranges(p)[k]
    {
      Partitioner.RangesDisjoint(p.nodeId, j, k);
    }
  }

  /** What a node has gathered below a level is exactly what its peers at that level expect from it. */
  lemma {:induction false} SenderCoversReceiver(s: BinomialPartitioner, p: BinomialPartitioner, l: nat)
    requires s.numIds == p.numIds && s.numLevels == p.numLevels && 0 < l < p.numLevels
    requires p.nodeId in PeerIds(s.nodeId, l)
    ensures RangesUnion(Ranges(s), l) == Ranges(p)[l]
    ensures s.nodeId in PeerIds(p.nodeId, l)
  {
    RangesBelow(s, l);
    PeersAreMutual(s.nodeId, p.nodeId, l);
  }

  lemma {:induction false} OwnRangeBelow(g: Place, l: nat)
    requires PlaceOk(g) && 0 < l <= |g.ranges|
    ensures g.id in RangesUnion(g.ranges, l)
  {
    if l > 1 {
      OwnRangeBelow(g, l - 1);
    }
  }

  /** Every part of a received message is a contribution of the receiver's level. */
  lemma {:induction false} ReceivedItemsOk(s: BinomialPartitioner, sOrders: seq<seq<nat>>, p: BinomialPartitioner,
                                           pOrders: seq<seq<nat>>, m: Message)
    requires Networked(s) && Networked(p) && s.numIds == p.numIds && AreShuffles(s, sOrders) && AreShuffles(p, pOrders)
    requires SentOk(PlaceOf(s, sOrders), m) && m.to == p.nodeId
    ensures ItemsOf(Members(p), m.update).Ok?
    ensures forall t :: t in ItemsOf(Members(p), m.update).value ==> TodoOk(PlaceOf(p, pOrders), t)
  {
    var l := m.update.level;
    PlacesOk(s, sOrders);
    assert IsShuffle(sOrders[l], PeerIds(s.nodeId, l));
    SenderCoversReceiver(s, p, l);
    OwnRangeBelow(PlaceOf(s, sOrders), l);
    RangeIsPeers(p, l, m.update.origin);
  }
}
