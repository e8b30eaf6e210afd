/** A network has nothing left to tell each other exactly if every node knows every contribution. */
module HandelCompleteness {
  import opened Prelude
  import opened Sets
  import opened Contributions
  import opened Partitioner
  import opened ContributionStore
  import opened TodoLists
  import opened Aggregation
  import opened AggregationInvariant
  import opened HandelPlaces
  import opened HandelNetwork
  import opened AggregationDrain

  /** What node j would tell its peers at level l: all it has below that level. */
  function News(s: Net, j: nat, l: nat): TodoItem
    requires j < |s.nodes|
  {
    TodoItem(Contribution(BestUnion(s.nodes[j].store.best, l)), l)
  }

  ghost predicate Tells(s: Net, i: nat, j: nat, l: nat) {
    && i < |s.nodes| && j < |s.nodes| && 0 < l < s.nodes[i].p.numLevels && j in PeerIds(i, l)
    && Enlarges(s.nodes[i].store, News(s, j, l))
  }

  /** No node has anything below a level that would enlarge the best of a peer at that level. */
  ghost predicate Stuck(s: Net) {
    forall i: nat, j: nat, l: nat :: !Tells(s, i, j, l)
  }

  /** Every node knows every contribution. */
  ghost predicate Complete(s: Net) {
    forall i :: 0 <= i < |s.nodes| ==> Known(s.nodes[i]) == Interval(0, |s.nodes|)
  }

  /** Below level n every node holds all there is. */
  ghost predicate FullBelow(s: Net, n: nat) {
    forall i :: 0 <= i < |s.nodes| ==> HoldsBelow(s.nodes[i], n)
  }

  ghost predicate HoldsBelow(node: Node, n: nat) {
    n <= node.p.numLevels && BestUnion(node.store.best, n) == RangesUnion(Ranges(node.p), n)
  }

  /** The whole range enlarges every other part of it. */
  lemma {:induction false} RangeEnlargesPart(best: set<nat>, range: set<nat>, verified: set<nat>)
    requires verified <= best < range
    ensures |NextBest(best, range, verified)| > |best|
  {
    SubsetSize(best, range);
    assert range + VerifiedWith(verified, range) == range;
    assert (range + best) + VerifiedWith(verified, range) == range;
  }

  lemma {:induction false} NothingToGain(best: set<nat>, range: set<nat>, verified: set<nat>)
    requires verified <= best <= range && |NextBest(best, range, verified)| <= |best|
    ensures best == range
  {
    if best != range {
      RangeEnlargesPart(best, range, verified);
      assert false;
    }
  }

  lemma {:induction false} OwnLevelFull(s: Net, orders: seq<seq<seq<nat>>>, i: nat)
    requires NetInv(s, orders) && i < |s.nodes|
    ensures HoldsBelow(s.nodes[i], 1)
  {
    var n := s.nodes[i];
    assert NodeAtOk(s, orders, i);
    assert Ranges(n.p)[0] == {i};
    assert BestAt(n.store.best, 0) == {i};
    assert BestUnion(n.store.best, 1) == BestUnion(n.store.best, 0) + BestAt(n.store.best, 0);
    assert RangesUnion(Ranges(n.p), 1) == RangesUnion(Ranges(n.p), 0) + Ranges(n.p)[0];
  }

  lemma {:induction false} NodeFacts(s: Net, orders: seq<seq<seq<nat>>>, i: nat)
    requires NetInv(s, orders) && i < |s.nodes|
    ensures s.nodes[i].p == PartitionerOf(i, |s.nodes|) && Networked(s.nodes[i].p)
  {
    assert NodeAtOk(s, orders, i);
  }

  lemma {:induction false} CoveredBy(p: BinomialPartitioner, q: BinomialPartitioner, l: nat)
    requires q.numIds == p.numIds && q.numLevels == p.numLevels && 0 < l < p.numLevels &&
             q.nodeId in PeerIds(p.nodeId, l)
    ensures RangesUnion(Ranges(q), l) == Ranges(p)[l]
  {
    PeersAreMutual(p.nodeId, q.nodeId, l);
    SenderCoversReceiver(q, p, l);
  }

  /** A peer that holds all there is below a level has the whole range to tell. */
  lemma {:induction false} PeerCovers(s: Net, orders: seq<seq<seq<nat>>>, i: nat, j: nat, l: nat)
    requires NetInv(s, orders) && i < |s.nodes| && 0 < l < s.nodes[i].p.numLevels
    requires FullBelow(s, l) && j in Ranges(s.nodes[i].p)[l]
    ensures j < |s.nodes| && j in PeerIds(i, l)
    ensures News(s, j, l) == TodoItem(Contribution(Ranges(s.nodes[i].p)[l]), l)
  {
    NodeFacts(s, orders, i);
    NodeFacts(s, orders, j);
    assert HoldsBelow(s.nodes[j], l);
    CoveredBy(s.nodes[i].p, s.nodes[j].p, l);
  }

  /** If such a peer cannot enlarge the level's best, that best is full. */
  lemma {:induction false} LevelFills(s: Net, orders: seq<seq<seq<nat>>>, i: nat, l: nat)
    requires NetInv(s, orders) && i < |s.nodes| && 0 < l < s.nodes[i].p.numLevels
    requires FullBelow(s, l) && Stuck(s)
    ensures BestAt(s.nodes[i].store.best, l) == Ranges(s.nodes[i].p)[l]
  {
    var n := s.nodes[i];
    assert NodeAtOk(s, orders, i);
    var range := Ranges(n.p)[l];
    assert BestAt(n.store.best, l) <= range;
    if range != {} {
      var j :| j in range;
      PeerCovers(s, orders, i, j, l);
      assert !Tells(s, i, j, l);
      EnlargesIs(Ranges(n.p), n.store, TodoItem(Contribution(range), l));
      NothingToGain(BestAt(n.store.best, l), range, n.store.verified[l]);
    }
  }

  lemma {:induction false} HoldsNext(s: Net, orders: seq<seq<seq<nat>>>, i: nat, n: nat)
    requires NetInv(s, orders) && Stuck(s) && FullBelow(s, n) && i < |s.nodes| && 0 < n < s.nodes[i].p.numLevels
    ensures HoldsBelow(s.nodes[i], n + 1)
  {
    assert HoldsBelow(s.nodes[i], n);
    LevelFills(s, orders, i, n);
  }

  lemma {:induction false} StuckFillsBelow(s: Net, orders: seq<seq<seq<nat>>>, n: nat)
    requires NetInv(s, orders) && Stuck(s) && 0 < n <= PartitionerOf(0, |s.nodes|).numLevels
    ensures FullBelow(s, n)
  {
    if n > 1 {
      StuckFillsBelow(s, orders, n - 1);
    }
    forall i | 0 <= i < |s.nodes|
      ensures HoldsBelow(s.nodes[i], n)
    {
      NodeFacts(s, orders, i);
      if n == 1 {
        OwnLevelFull(s, orders, i);
      } else {
        HoldsNext(s, orders, i, n - 1);
      }
    }
  }

  lemma {:induction false} AllRanges(p: BinomialPartitioner)
    requires Networked(p)
    ensures p.numLevels > 0 && RangesUnion(Ranges(p), p.numLevels) == Interval(0, p.numIds)
  {
    LevelsCoverIds(p);
    RangesBelow(p, p.numLevels);
    RangesTileIdSpace(p);
  }

  /** Every level of every node then holds all existing identifiers of its range. */
  lemma {:induction false} StuckLevelsFull(s: Net, orders: seq<seq<seq<nat>>>, i: nat, l: nat)
    requires NetInv(s, orders) && Stuck(s) && i < |s.nodes| && l < s.nodes[i].p.numLevels
    ensures BestAt(s.nodes[i].store.best, l) == PeerIds(i, l) * Interval(0, |s.nodes|)
  {
    assert NodeAtOk(s, orders, i);
    if l > 0 {
      StuckFillsBelow(s, orders, l);
      LevelFills(s, orders, i, l);
    } else {
      OwnLevelFull(s, orders, i);
      assert BestUnion(s.nodes[i].store.best, 0) == {} && RangesUnion(Ranges(s.nodes[i].p), 0) == {};
    }
  }

  lemma {:induction false} StuckKnowsAll(s: Net, orders: seq<seq<seq<nat>>>, i: nat)
    requires NetInv(s, orders) && Stuck(s) && i < |s.nodes|
    ensures Known(s.nodes[i]) == Interval(0, |s.nodes|)
  {
    assert NodeAtOk(s, orders, i);
    var p := s.nodes[i].p;
    AllRanges(p);
    StuckFillsBelow(s, orders, p.numLevels);
    assert HoldsBelow(s.nodes[i], p.numLevels);
  }

  /** A network that has nothing left to say knows everything, and the other way round. */
  lemma {:induction false} StuckIffComplete(s: Net, orders: seq<seq<seq<nat>>>)
    requires NetInv(s, orders)
    ensures Stuck(s) <==> Complete(s)
  {
    if Stuck(s) {
      forall i | 0 <= i < |s.nodes|
        ensures Known(s.nodes[i]) == Interval(0, |s.nodes|)
      {
        StuckKnowsAll(s, orders, i);
      }
    }
    if Complete(s) {
      forall i: nat, j: nat, l: nat
        ensures !Tells(s, i, j, l)
      {
        if i < |s.nodes| && j < |s.nodes| && 0 < l < s.nodes[i].p.numLevels && j in PeerIds(i, l) {
          CompleteIsDeaf(s, orders, i, j, l);
        }
      }
    }
  }

  lemma {:induction false} CompleteIsDeaf(s: Net, orders: seq<seq<seq<nat>>>, i: nat, j: nat, l: nat)
    requires NetInv(s, orders) && Complete(s) && i < |s.nodes| && j < |s.nodes|
    requires 0 < l < s.nodes[i].p.numLevels && j in PeerIds(i, l)
    ensures !Enlarges(s.nodes[i].store, News(s, j, l))
  {
    var n, m := s.nodes[i], s.nodes[j];
    assert NodeAtOk(s, orders, i) && NodeAtOk(s, orders, j);
    CoveredBy(n.p, m.p, l);
    BestUnionInRanges(Ranges(m.p), m.store.best, l);
    OwnInUnion(m.store.best, l);
    IntervalSize(0, |s.nodes|);
    NothingBeyondAll(n.p, orders[i], n, News(s, j, l));
  }

  /** At every moment of every run, the network is stuck exactly if every node knows all contributions. */
  lemma {:induction false} RunsStopOnlyComplete(trace: seq<Outcome<Net>>, orders: seq<seq<seq<nat>>>, k: nat)
    requires |trace| > 0 && trace[0].Ok? && InitialNet(trace[0].value, orders) && IsRun(trace) && k < |trace|
    ensures trace[k].Ok? && (Stuck(trace[k].value) <==> Complete(trace[k].value))
  {
    RunsAreSafe(trace, orders);
    StuckIffComplete(trace[k].value, orders);
  }
}
