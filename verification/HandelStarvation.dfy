/** A node that has finished stops sending, so a network may be left incomplete for good. */
module HandelStarvation {
  import opened Prelude
  import opened Sets
  import opened Contributions
  import opened Partitioner
  import opened ContributionStore
  import opened TodoLists
  import opened Levels
  import opened Aggregation
  import opened AggregationInvariant
  import opened AggregationMessages
  import opened HandelPlaces
  import opened HandelNetwork
  import opened AggregationDrain
  import opened HandelCompleteness
  import opened HandelProgress

  /** Two nodes that send by periodic updates only. */
  ghost predicate Pair(s: Net, orders: seq<seq<seq<nat>>>) {
    && NetInv(s, orders) && |s.nodes| == 2
    && forall j :: 0 <= j < 2 ==> s.nodes[j].config.peerCount == 0 && s.nodes[j].config.updateCount > 0
  }

  /** A node that knows only itself, and has neither read nor sent anything. */
  ghost predicate Fresh(n: Node) {
    n.sent == [] && n.todos == {} && n.store.best == map[0 := Contribution({n.p.nodeId})]
  }

  lemma {:induction false} PairPeers(j: nat)
    requires j < 2
    ensures PartitionerOf(j, 2).numLevels == 2 && PeerIds(j, 1) == {1 - j}
  {
    BlockIsInterval(j, 1, 0);
    BlockIsInterval(j, 0, j);
  }

  /** A new node that tells nobody when it starts a level is fresh. */
  lemma {:induction false} NewNodeIsFresh(p: BinomialPartitioner, config: Config, weights: map<nat, nat>,
                                          order: seq<seq<nat>>, n: Node)
    requires Networked(p) && AreShuffles(p, order) && config.peerCount == 0
    requires NewNode(p, config, weights, Contribution({p.nodeId}), order) == Ok(n)
    ensures Fresh(n)
  {
    var own, g := Contribution({p.nodeId}), PlaceOf(p, order);
    PlacesOk(p, order);
    EmptyStoreInv(Ranges(p));
    PutKeepsInv(Ranges(p), EmptyStore(p.numLevels), own, 0);
    var store := PutInto(EmptyStore(p.numLevels), own, 0).value;
    FirstBest(own.contributors);
    var fresh0 := FreshNode(p, config, weights, order, store);
    FreshNodeInv(p, config, weights, order, store);
    CheckCompletedKeepsInv(g, fresh0, 0);
    CheckCompletedSends(g, fresh0, 0);
  }

  lemma {:induction false} FreshKnows(n: Node)
    requires Fresh(n) && n.p.numLevels == 2
    ensures Known(n) == {n.p.nodeId}
  {
    var best := n.store.best;
    assert BestUnion(best, 2) == BestUnion(best, 0) + BestAt(best, 0) + BestAt(best, 1);
  }

  // ---------- the first node sends ----------

  lemma {:induction false} FirstNodeSends(g: Place, n: Node)
    returns (next: Node, u: LevelUpdate)
    requires NodeInv(g, n) && Fresh(n) && n.p.nodeId == 0 && n.config.updateCount > 0 && |n.levels| == 2
    requires n.levels[1].peerIds == [1]
    ensures AutomaticUpdate(n, 1) == Ok(next) && Message(u, 1) in next.sent
    ensures next.store == n.store && next.p == n.p && next.todos == {}
    ensures u.level == 1 && u.aggregate == Contribution({0})
  {
    PeriodicTellsAll(g, n, 1, 1, 1);
    AutomaticUpdateKeepsInv(g, n, 1);
    next := AutomaticUpdate(n, 1).value;
    assert Repeat(PeriodicUpdate, next, 0) == Ok(next);
    assert Repeat(PeriodicUpdate, n, 1) == Ok(next);
    u := UpdateFor(n, 1, Below(n, 1));
    assert BestUnion(n.store.best, 1) == BestUnion(n.store.best, 0) + BestAt(n.store.best, 0);
  }

  // ---------- the second node hears it and finishes ----------

  /** Someone who has read nothing for a level is taught by anything. */
  lemma {:induction false} NewsForFresh(ranges: seq<set<nat>>, n: Node, t: TodoItem)
    requires StoreInv(ranges, n.store) && Fresh(n) && 0 < t.level < |ranges|
    requires {} != t.contribution.contributors <= ranges[t.level]
    ensures Enlarges(n.store, t)
  {
    EnlargesIs(ranges, n.store, t);
    FirstBest(t.contribution.contributors);
    assert n.store.verified[t.level] == {};
  }

  /** Handling contributions sends nothing when nobody is told on starting a level. */
  lemma {:induction false} SilentHandling(p: BinomialPartitioner, order: seq<seq<nat>>, n: Node, t: TodoItem)
    requires Sound(p, order, n) && TodoOk(PlaceOf(p, order), t) && t.level > 0 && n.config.peerCount == 0
    ensures HandleTodo(n, t).Ok? && HandleTodo(n, t).value.node.sent == n.sent
  {
    HandledTodo(p, order, n, t);
    RangeSmall(p, t.level);
    assert IsShuffle(order[t.level], PeerIds(p.nodeId, t.level));
    HandleTodoSends(PlaceOf(p, order), n, t, n.(store := PutInto(n.store, t.contribution, t.level).value));
  }

  /** Nothing can be gained at level 0, where the node has its own contribution. */
  lemma {:induction false} AboveLevelZero(ranges: seq<set<nat>>, s: Store, t: TodoItem, id: nat)
    requires StoreInv(ranges, s) && t.level < |ranges| && {} != t.contribution.contributors <= ranges[t.level]
    requires ranges[0] == {id} && 0 in s.best && Enlarges(s, t)
    ensures t.level > 0
  {
    if t.level == 0 {
      EnlargesIs(ranges, s, t);
      Evaluator.NoGainInside(BestAt(s.best, 0), t.contribution.contributors, s.verified[0]);
    }
  }

  lemma {:induction false} SilentTurn(p: BinomialPartitioner, order: seq<seq<nat>>, n: Node, input: seq<LevelUpdate>,
                                      turn: Turn)
    requires Sound(p, order, n) && Readable(p, order, input) && n.config.peerCount == 0
    requires TodoTurn(n, input, true, Ok(turn))
    ensures turn.node.sent == n.sent
  {
    var best, list := TurnPicks(p, order, n, input, true, Ok(turn));
    if best.Some? {
      UsefulIs(p, order, n, best.value);
      SilentPick(p, order, n, list, best.value);
    }
  }

  lemma {:induction false} SilentPick(p: BinomialPartitioner, order: seq<seq<nat>>, n: Node, list: set<TodoItem>,
                                      b: TodoItem)
    requires Sound(p, order, n) && n.config.peerCount == 0 && TodoOk(PlaceOf(p, order), b) && Enlarges(n.store, b)
    requires forall t :: t in list ==> TodoOk(PlaceOf(p, order), t)
    ensures HandleTodo(n.(todos := list), b).Ok? && HandleTodo(n.(todos := list), b).value.node.sent == n.sent
  {
    AboveLevelZero(Ranges(p), n.store, b, p.nodeId);
    WithList(p, order, n, list);
    SilentHandling(p, order, n.(todos := list), b);
  }

  /** A node of two that learns something knows everything, and finishes. */
  lemma {:induction false} LearnerFinishes(s: Net, orders: seq<seq<seq<nat>>>, i: nat, input: seq<LevelUpdate>,
                                           turn: Turn)
    requires NetInv(s, orders) && |s.nodes| == 2 && i < 2 && forall u :: u in input ==> InFlight(s, i, u)
    requires TodoTurn(s.nodes[i], input, true, Ok(turn)) && |Known(turn.node)| > |Known(s.nodes[i])|
    ensures Finishes(turn)
  {
    NodeTurnOk(s, orders, i, input, true, Ok(turn));
    NodeIsGood(s, orders, i);
    KnownExists(s.nodes[i].p, orders[i], s.nodes[i]);
    KnownExists(s.nodes[i].p, orders[i], turn.node);
    assert |Known(s.nodes[i])| > 0;
  }

  // ---------- the first node is left alone ----------

  /** The second node has finished without sending anything, the first has read all there is. */
  ghost predicate Abandoned(e: Net, orders: seq<seq<seq<nat>>>) {
    NetInv(e, orders) && |e.nodes| == 2 && e.finished[1] && e.nodes[0].todos == {} && e.nodes[1].sent == []
  }

  lemma {:induction false} NothingInFlight(e: Net, orders: seq<seq<seq<nat>>>, u: LevelUpdate)
    requires Abandoned(e, orders)
    ensures !InFlight(e, 0, u)
  {
    forall j: nat
      ensures !Sent(e, j, Message(u, 0))
    {
      if Sent(e, j, Message(u, 0)) && j == 0 {
        SentByNode(e, orders, 0, Message(u, 0));
        NobodyTellsItself(e.nodes[0].p, orders[0], Message(u, 0));
      }
    }
  }

  lemma {:induction false} NothingToSend(e: Net, orders: seq<seq<seq<nat>>>, u: LevelUpdate, j: nat)
    requires Abandoned(e, orders)
    ensures !WouldSend(e, j, 0, u)
  {
    if WouldSend(e, j, 0, u) {
      NewsIsForOthers(e, orders, j, 0, u);
    }
  }

  lemma {:induction false} LeftAlone(e: Net, orders: seq<seq<seq<nat>>>, i: nat, t: TodoItem)
    requires Abandoned(e, orders)
    ensures !Learnable(e, i, t)
  {
    forall u
      ensures !CanReach(e, 0, u)
    {
      NothingInFlight(e, orders, u);
      forall j: nat
        ensures !WouldSend(e, j, 0, u)
      {
        NothingToSend(e, orders, u, j);
      }
    }
  }

  lemma {:induction false} NobodyTellsItself(p: BinomialPartitioner, order: seq<seq<nat>>, m: Message)
    requires AreShuffles(p, order) && SentOk(PlaceOf(p, order), m)
    ensures m.to != p.nodeId
  {
    var l := m.update.level;
    assert IsShuffle(order[l], PeerIds(p.nodeId, l));
    Partitioner.RangesDisjoint(p.nodeId, 0, l);
  }

  lemma {:induction false} PairIsFresh(s: Net, orders: seq<seq<seq<nat>>>, j: nat)
    requires InitialNet(s, orders) && Pair(s, orders) && j < 2
    ensures Fresh(s.nodes[j]) && s.nodes[j].p == PartitionerOf(j, 2) && s.nodes[j].p.numLevels == 2
    ensures |s.nodes[j].levels| == 2 && s.nodes[j].levels[1].peerIds == [1 - j] && !s.finished[j]
  {
    assert InitialNode(s, orders[j], j);
    var n := s.nodes[j];
    NodeIsGood(s, orders, j);
    NodeFacts(s, orders, j);
    NewNodeIsFresh(n.p, n.config, n.weights, orders[j], n);
    PairPeers(j);
    PeersOf(n.p, orders[j], n, 1);
    assert LevelOk(PlaceOf(n.p, orders[j]), n.store.best, n.levels[1], 1);
    assert IsShuffle(orders[j][1], PeerIds(j, 1));
    OnlyPeer(n.levels[1].peerIds, 1 - j);
  }

  lemma {:induction false} OnlyPeer(peers: seq<nat>, a: nat)
    requires |peers| == 1 && forall i :: i in peers <==> i == a
    ensures peers == [a]
  {
    assert peers[0] in peers;
  }

  /** The two steps: the first node sends what it has, the second reads it and finishes. */
  lemma {:induction false} TwoSteps(s: Net, orders: seq<seq<seq<nat>>>) returns (s1: Net, e: Net)
    requires InitialNet(s, orders) && Pair(s, orders)
    ensures NetStep(s, Ok(s1)) && NetStep(s1, Ok(e)) && Abandoned(e, orders) && Known(e.nodes[0]) == {0}
  {
    PairIsFresh(s, orders, 0);
    PairIsFresh(s, orders, 1);
    NodeIsGood(s, orders, 0);
    var next, u := FirstNodeSends(PlaceOf(s.nodes[0].p, orders[0]), s.nodes[0]);
    PeriodicStep(s, orders, 0, next);
    s1 := WithNode(s, 0, next);
    assert Sent(s1, 0, Message(u, 1));
    FreshKnows(s.nodes[0]);
    e := SecondStep(s1, orders, u);
  }

  /** The second node reads what the first has sent. */
  ghost predicate Hears(s: Net, orders: seq<seq<seq<nat>>>, u: LevelUpdate) {
    && NetInv(s, orders) && |s.nodes| == 2 && !s.finished[1] && InFlight(s, 1, u) && Fresh(s.nodes[1])
    && s.nodes[1].config.peerCount == 0 && u.level == 1 && u.aggregate == Contribution({0})
  }

  lemma {:induction false} FirstIsNews(s: Net, orders: seq<seq<seq<nat>>>, u: LevelUpdate)
    requires Hears(s, orders, u)
    ensures Enlarges(s.nodes[1].store, TodoItem(Contribution({0}), 1))
  {
    var n := s.nodes[1];
    NodeIsGood(s, orders, 1);
    PairPeers(1);
    assert Ranges(n.p)[1] == {0} * Interval(0, 2);
    assert 0 in Interval(0, 2);
    NewsForFresh(Ranges(n.p), n, TodoItem(Contribution({0}), 1));
  }

  lemma {:induction false} SecondTurn(s: Net, orders: seq<seq<seq<nat>>>, u: LevelUpdate) returns (turn: Turn)
    requires Hears(s, orders, u)
    ensures NodeTurn(s.nodes[1], [u], true, Ok(turn)) && Finishes(turn) && turn.node.sent == []
  {
    FirstIsNews(s, orders, u);
    assert u in [u] && Carries(u, TodoItem(Contribution({0}), 1));
    turn := LearningTurn(s, orders, 1, [u], TodoItem(Contribution({0}), 1));
    NetworkNodesSound(s, orders, 1, [u]);
    SilentTurn(s.nodes[1].p, orders[1], s.nodes[1], [u], turn);
    LearnerFinishes(s, orders, 1, [u], turn);
  }

  lemma {:induction false} SecondStep(s: Net, orders: seq<seq<seq<nat>>>, u: LevelUpdate) returns (e: Net)
    requires Hears(s, orders, u)
    ensures NetStep(s, Ok(e)) && NetInv(e, orders) && |e.nodes| == 2
    ensures e.nodes[0] == s.nodes[0] && e.finished[1] && e.nodes[1].sent == []
  {
    var turn := SecondTurn(s, orders, u);
    e := Apply(s, 1, turn);
    assert NetStep(s, Ok(e));
    StepKeepsInv(s, orders, Ok(e));
  }

  /**
   * Two nodes that send by periodic updates only: once the second has read what the first sent, it
   * finishes without having sent anything, and the first never learns of it.
   */
  lemma {:induction false} FinishedNodeStarves(s: Net, orders: seq<seq<seq<nat>>>)
    returns (trace: seq<Outcome<Net>>, e: Net)
    requires InitialNet(s, orders) && Pair(s, orders)
    ensures IsRun(trace) && Starts(trace, s) && trace[|trace| - 1] == Ok(e)
    ensures NetInv(e, orders) && !Complete(e) && !CanLearn(e)
  {
    var s1;
    s1, e := TwoSteps(s, orders);
    RunThenStep([Ok(s)], Ok(s1));
    RunThenStep([Ok(s)] + [Ok(s1)], Ok(e));
    trace := [Ok(s)] + [Ok(s1)] + [Ok(e)];
    assert 1 in Interval(0, 2);
    forall i: nat, t
      ensures !Learnable(e, i, t)
    {
      LeftAlone(e, orders, i, t);
    }
  }
}
