/** Runs of a network of honest nodes: lost, repeated and reordered messages, any interleaving. */
module HandelNetwork {
  import opened Prelude
  import opened Sets
  import opened Contributions
  import opened Partitioner
  import opened ContributionStore
  import opened TodoLists
  import opened Levels
  import opened Aggregation
  import opened AggregationInvariant
  import opened AggregationCompletion
  import opened HandelPlaces
  import Evaluator

  /** All nodes, the aggregates each one has emitted so far, and which ones have finished. */
  datatype Net = Net(nodes: seq<Node>, emitted: seq<seq<Contribution>>, finished: seq<bool>)

  ghost predicate Sent(s: Net, j: nat, m: Message) {
    j < |s.nodes| && m in s.nodes[j].sent
  }

  /** Some node has sent the update to node i. */
  ghost predicate InFlight(s: Net, i: nat, u: LevelUpdate) {
    exists j :: Sent(s, j, Message(u, i))
  }

  function Apply(s: Net, i: nat, t: Turn): Net
    requires i < |s.nodes| == |s.emitted| == |s.finished|
  {
    Net(s.nodes[i := t.node], s.emitted[i := s.emitted[i] + Emits(t)], s.finished[i := Finishes(t)])
  }

  function Emits(t: Turn): seq<Contribution> {
    if t.aggregate.Some? then [t.aggregate.value] else []
  }

  /** A node is done once its aggregate has as many contributors as there are identifiers. */
  predicate Finishes(t: Turn) {
    t.aggregate.Some? && t.aggregate.value.NumContributors() == t.node.p.numIds
  }

  /** One unfinished node takes a turn, reading any updates sent to it. */
  ghost predicate NetStep(s: Net, r: Outcome<Net>) {
    |s.nodes| == |s.emitted| == |s.finished| &&
    exists i, input, verified, t ::
      && 0 <= i < |s.nodes| && !s.finished[i]
      && (forall u :: u in input ==> InFlight(s, i, u))
      && NodeTurn(s.nodes[i], input, verified, t)
      && r == if t.Panic? then Panic else Ok(Apply(s, i, t.value))
  }

  /** The outcomes of a run: it goes on from every state that is not a panic. */
  ghost predicate IsRun(trace: seq<Outcome<Net>>) {
    forall k :: 0 <= k < |trace| - 1 ==> trace[k].Ok? && NetStep(trace[k].value, trace[k + 1])
  }

  function PartitionerOf(i: nat, numIds: nat): BinomialPartitioner
    requires i < numIds
  {
    BinomialPartitioner.New(i, numIds).value
  }

  /** A network whose nodes have just been created, with any configuration and positive weights. */
  ghost predicate InitialNet(s: Net, orders: seq<seq<seq<nat>>>) {
    && 0 < |s.nodes| <= 0x1_0000
    && |s.nodes| == |s.emitted| == |s.finished| == |orders|
    && forall i :: 0 <= i < |s.nodes| ==> InitialNode(s, orders[i], i)
  }

  ghost predicate InitialNode(s: Net, order: seq<seq<nat>>, i: nat)
    requires i < |s.nodes| == |s.emitted| == |s.finished|
  {
    var n := s.nodes[i];
    && n.p == PartitionerOf(i, |s.nodes|)
    && AreShuffles(n.p, order)
    && WeightsKnown(n, |s.nodes|)
    && NewNode(n.p, n.config, n.weights, Contribution({i}), order) == Ok(n)
    && s.emitted[i] == [] && !s.finished[i]
  }

  ghost predicate WeightsKnown(n: Node, numIds: nat) {
    Evaluator.WeightsPositive(n.weights, Interval(0, numIds))
  }

  /** Everything a node knows, over all levels. */
  function Known(n: Node): set<nat> {
    BestUnion(n.store.best, n.p.numLevels)
  }

  /** Emitted aggregates grow strictly, up to what the node knows now. */
  ghost predicate EmittedOk(n: Node, emitted: seq<Contribution>) {
    && (forall k :: 0 <= k < |emitted| ==> k + 1 < emitted[k].NumContributors() <= |Known(n)|)
    && (forall j, k :: 0 <= j < k < |emitted| ==> emitted[j].NumContributors() < emitted[k].NumContributors())
    && (emitted != [] ==> emitted[|emitted| - 1].contributors == Known(n))
  }

  ghost predicate NodeOk(numIds: nat, order: seq<seq<nat>>, n: Node, emitted: seq<Contribution>, finished: bool) {
    && Networked(n.p) && n.p.numIds == numIds
    && AreShuffles(n.p, order)
    && WeightsKnown(n, numIds)
    && NodeInv(PlaceOf(n.p, order), n) && Marked(n)
    && EmittedOk(n, emitted)
    && Known(n) != {}
    && (finished <==> emitted != [] && Known(n) == Interval(0, numIds))
  }

  ghost predicate NodeAtOk(s: Net, orders: seq<seq<seq<nat>>>, i: nat)
    requires i < |s.nodes| == |s.emitted| == |s.finished| == |orders|
  {
    NodeOk(|s.nodes|, orders[i], s.nodes[i], s.emitted[i], s.finished[i]) && s.nodes[i].p.nodeId == i
  }

  ghost predicate NetInv(s: Net, orders: seq<seq<seq<nat>>>) {
    && 0 < |s.nodes| <= 0x1_0000
    && |s.nodes| == |s.emitted| == |s.finished| == |orders|
    && forall i :: 0 <= i < |s.nodes| ==> NodeAtOk(s, orders, i)
  }

  // ---------- a single turn ----------

  /** A contribution of its level can be scored, and is useful exactly when it enlarges the level's best. */
  lemma {:induction false} ScoreOfOk(g: Place, p: BinomialPartitioner, n: Node, t: TodoItem)
    requires Networked(p) && g.ranges == Ranges(p)
    requires StoreInv(g.ranges, n.store) && WeightsKnown(n, p.numIds) && TodoOk(g, t)
    ensures Scores(n.store, n.weights)(t).Ok?
    ensures PutInto(n.store, t.contribution, t.level).Ok?
    ensures Useful(Scores(n.store, n.weights), t) <==>
            |BestAt(PutInto(n.store, t.contribution, t.level).value.best, t.level)| > |BestAt(n.store.best, t.level)|
  {
    RangeSmall(p, t.level);
    Evaluator.EvaluatePredictsPut(g.ranges, n.store, n.weights, t.contribution, t.level);
  }

  /** Whatever reaches a node belongs to the level it is sent for. */
  lemma {:induction false} InFlightItemsOk(s: Net, orders: seq<seq<seq<nat>>>, i: nat, u: LevelUpdate)
    requires NetInv(s, orders) && i < |s.nodes| && InFlight(s, i, u)
    ensures ItemsOf(Members(s.nodes[i].p), u).Ok?
    ensures forall t :: t in ItemsOf(Members(s.nodes[i].p), u).value ==> TodoOk(PlaceOf(s.nodes[i].p, orders[i]), t)
  {
    var j :| Sent(s, j, Message(u, i));
    SentItemsOk(s, orders, i, j, u);
  }

  lemma {:induction false} SentItemsOk(s: Net, orders: seq<seq<seq<nat>>>, i: nat, j: nat, u: LevelUpdate)
    requires NetInv(s, orders) && i < |s.nodes| && j < |s.nodes| && Message(u, i) in s.nodes[j].sent
    ensures ItemsOf(Members(s.nodes[i].p), u).Ok?
    ensures forall t :: t in ItemsOf(Members(s.nodes[i].p), u).value ==> TodoOk(PlaceOf(s.nodes[i].p, orders[i]), t)
  {
    assert NodeAtOk(s, orders, i) && NodeAtOk(s, orders, j);
    ReceivedItemsOk(s.nodes[j].p, orders[j], s.nodes[i].p, orders[i], Message(u, i));
  }

  lemma {:induction false} OfferedOk(s: Net, orders: seq<seq<seq<nat>>>, i: nat, input: seq<LevelUpdate>)
    requires NetInv(s, orders) && i < |s.nodes|
    requires forall u :: u in input ==> InFlight(s, i, u)
    ensures Offered(Members(s.nodes[i].p), input).Ok?
    ensures forall t :: t in Offered(Members(s.nodes[i].p), input).value ==> TodoOk(PlaceOf(s.nodes[i].p, orders[i]), t)
    decreases |input|
  {
    if input != [] {
      OfferedOk(s, orders, i, input[..|input| - 1]);
      InFlightItemsOk(s, orders, i, input[|input| - 1]);
    }
  }

  lemma {:induction false} TotalGrows(best: map<nat, Contribution>, best': map<nat, Contribution>, l: nat, n: nat)
    requires forall j :: j != l ==> BestAt(best', j) == BestAt(best, j)
    requires |BestAt(best', l)| > |BestAt(best, l)|
    ensures BestTotal(best', n) >= BestTotal(best, n)
    ensures l < n ==> BestTotal(best', n) > BestTotal(best, n)
  {
    if n > 0 {
      TotalGrows(best, best', l, n - 1);
    }
  }

  /** Aggregating a useful contribution strictly enlarges what the node knows. */
  lemma {:induction false} KnownGrows(g: Place, n: Node, n': Node, t: TodoItem)
    requires NodeInv(g, n) && NodeInv(g, n') && n'.p == n.p && TodoOk(g, t)
    requires PutInto(n.store, t.contribution, t.level) == Ok(n'.store)
    requires |BestAt(n'.store.best, t.level)| > |BestAt(n.store.best, t.level)|
    ensures |Known(n')| > |Known(n)|
  {
    PutKeepsInv(g.ranges, n.store, t.contribution, t.level);
    TotalGrows(n.store.best, n'.store.best, t.level, |g.ranges|);
    BestUnionSize(g.ranges, n.store.best, |g.ranges|);
    BestUnionSize(g.ranges, n'.store.best, |g.ranges|);
  }

  lemma {:induction false} KnownExists(p: BinomialPartitioner, order: seq<seq<nat>>, n: Node)
    requires Networked(p) && n.p == p && NodeInv(PlaceOf(p, order), n)
    ensures {} != Known(n) <= Interval(0, p.numIds)
    ensures |Known(n)| <= p.numIds && (|Known(n)| == p.numIds <==> Known(n) == Interval(0, p.numIds))
  {
    BestUnionInRanges(Ranges(p), n.store.best, p.numLevels);
    RangesBelow(p, p.numLevels);
    OwnInUnion(n.store.best, p.numLevels);
    SubsetSize(Known(n), Interval(0, p.numIds));
    IntervalSize(0, p.numIds);
  }

  /** A todo turn never panics; it emits an aggregate only when the node has learned something. */
  lemma {:induction false} TodoTurnOk(p: BinomialPartitioner, order: seq<seq<nat>>, n: Node, input: seq<LevelUpdate>,
                                      verified: bool, r: Outcome<Turn>)
    requires Networked(p) && n.p == p && AreShuffles(p, order) && WeightsKnown(n, p.numIds)
    requires NodeInv(PlaceOf(p, order), n)
    requires Offered(Members(p), input).Ok?
    requires forall t :: t in Offered(Members(p), input).value ==> TodoOk(PlaceOf(p, order), t)
    requires TodoTurn(n, input, verified, r)
    ensures r.Ok? && TurnOk(PlaceOf(p, order), n, r.value)
    ensures verified && (exists t :: t in Offered(Members(p), input).value && Useful(Scores(n.store, n.weights), t)) ==>
              r.value.aggregate.Some?
  {
    PollOk(p, order, n, input);
    var best, list :| Picked(Scores(n.store, n.weights), Seen(n, input), best, list) &&
                      r == AfterPoll(n.(todos := list), best, verified);
    AfterPollOk(p, order, n, list, best, verified);
  }

  /** The items a poll looks at. */
  function Seen(n: Node, input: seq<LevelUpdate>): multiset<TodoItem>
    requires Offered(Members(n.p), input).Ok?
  {
    multiset(n.todos) + multiset(Offered(Members(n.p), input).value)
  }

  /** Polling a node succeeds and looks at items of existing levels only. */
  lemma {:induction false} PollOk(p: BinomialPartitioner, order: seq<seq<nat>>, n: Node, input: seq<LevelUpdate>)
    requires Networked(p) && n.p == p && WeightsKnown(n, p.numIds) && NodeInv(PlaceOf(p, order), n)
    requires Offered(Members(p), input).Ok?
    requires forall t :: t in Offered(Members(p), input).value ==> TodoOk(PlaceOf(p, order), t)
    ensures PollSucceeds(Scores(n.store, n.weights), Members(p), n.todos, input)
    ensures forall t :: t in Seen(n, input) ==> TodoOk(PlaceOf(p, order), t)
    ensures forall t :: t in n.todos || t in Offered(Members(p), input).value ==> t in Seen(n, input)
  {
    forall t | t in n.todos || t in Offered(Members(p), input).value
      ensures Scores(n.store, n.weights)(t).Ok?
    {
      ScoreOfOk(PlaceOf(p, order), p, n, t);
    }
  }

  /** What every turn of a node keeps. */
  ghost predicate TurnOk(g: Place, n: Node, t: Turn) {
    && NodeInv(g, t.node) && (Marked(n) ==> Marked(t.node))
    && t.node.p == n.p && t.node.weights == n.weights
    && match t.aggregate
       case None => t.node.store == n.store
       case Some(c) => c.contributors == Known(t.node) && |Known(t.node)| > |Known(n)|
  }

  lemma {:induction false} AfterPollOk(p: BinomialPartitioner, order: seq<seq<nat>>, n: Node, list: set<TodoItem>,
                                       best: Option<TodoItem>, verified: bool)
    requires Networked(p) && n.p == p && AreShuffles(p, order) && WeightsKnown(n, p.numIds)
    requires NodeInv(PlaceOf(p, order), n)
    requires forall t :: t in list ==> TodoOk(PlaceOf(p, order), t)
    requires best.Some? ==> TodoOk(PlaceOf(p, order), best.value) && Useful(Scores(n.store, n.weights), best.value)
    ensures AfterPoll(n.(todos := list), best, verified).Ok?
    ensures TurnOk(PlaceOf(p, order), n, AfterPoll(n.(todos := list), best, verified).value)
    ensures best.Some? && verified ==> AfterPoll(n.(todos := list), best, verified).value.aggregate.Some?
  {
    var g, n' := PlaceOf(p, order), n.(todos := list);
    if best.Some? && verified {
      var t := best.value;
      ScoreOfOk(g, p, n, t);
      HandleUsefulOk(p, order, n', t);
    }
  }

  lemma {:induction false} HandleUsefulOk(p: BinomialPartitioner, order: seq<seq<nat>>, n: Node, t: TodoItem)
    requires Networked(p) && n.p == p && AreShuffles(p, order)
    requires NodeInv(PlaceOf(p, order), n) && TodoOk(PlaceOf(p, order), t)
    requires PutInto(n.store, t.contribution, t.level).Ok?
    requires |BestAt(PutInto(n.store, t.contribution, t.level).value.best, t.level)| > |BestAt(n.store.best, t.level)|
    ensures HandleTodo(n, t).Ok?
    ensures TurnOk(PlaceOf(p, order), n, Turn(HandleTodo(n, t).value.node, HandleTodo(n, t).value.best))
    ensures HandleTodo(n, t).value.best.Some?
  {
    var g := PlaceOf(p, order);
    RangeSmall(p, t.level);
    assert IsShuffle(order[t.level], PeerIds(p.nodeId, t.level));
    HandleTodoKeepsInv(g, n, t);
    if Marked(n) {
      HandleTodoMarks(g, n, t);
    }
    KnownGrows(g, n, HandleTodo(n, t).value.node, t);
  }

  lemma {:induction false} NodeTurnOk(s: Net, orders: seq<seq<seq<nat>>>, i: nat, input: seq<LevelUpdate>,
                                      verified: bool, r: Outcome<Turn>)
    requires NetInv(s, orders) && i < |s.nodes|
    requires forall u :: u in input ==> InFlight(s, i, u)
    requires NodeTurn(s.nodes[i], input, verified, r)
    ensures r.Ok? && TurnOk(PlaceOf(s.nodes[i].p, orders[i]), s.nodes[i], r.value)
  {
    var n := s.nodes[i];
    assert NodeAtOk(s, orders, i);
    var g := PlaceOf(n.p, orders[i]);
    if r == Quiet(ActivateNextLevel(n)) {
      ActivateKeepsInv(g, n);
      ActivateMarks(n);
    } else if r == Quiet(AutomaticUpdate(n, 1)) {
      AutomaticUpdateKeepsInv(g, n, 1);
      PeriodicMarks(n);
    } else {
      OfferedOk(s, orders, i, input);
      TodoTurnOk(n.p, orders[i], n, input, verified, r);
    }
  }

  // ---------- whole runs ----------

  lemma {:induction false} EmittedGrows(n: Node, n': Node, emitted: seq<Contribution>, c: Contribution)
    requires EmittedOk(n, emitted) && Known(n) != {}
    requires c.contributors == Known(n') && |Known(n')| > |Known(n)|
    ensures EmittedOk(n', emitted + [c])
  {
    if emitted != [] {
      assert emitted[|emitted| - 1].NumContributors() == |Known(n)|;
    }
  }

  /** A turn that emits nothing changes nothing the node knows. */
  lemma {:induction false} QuietTurnKeeps(numIds: nat, order: seq<seq<nat>>, n: Node, emitted: seq<Contribution>,
                                          t: Turn)
    requires NodeOk(numIds, order, n, emitted, false)
    requires TurnOk(PlaceOf(n.p, order), n, t) && t.aggregate.None?
    ensures NodeOk(numIds, order, t.node, emitted, false)
  {
    assert Known(t.node) == Known(n);
  }

  /** A turn that emits an aggregate finishes the node exactly when all identifiers have contributed. */
  lemma {:induction false} EmittingTurnKeeps(numIds: nat, order: seq<seq<nat>>, n: Node, emitted: seq<Contribution>,
                                             t: Turn)
    requires NodeOk(numIds, order, n, emitted, false)
    requires TurnOk(PlaceOf(n.p, order), n, t) && t.aggregate.Some?
    ensures NodeOk(numIds, order, t.node, emitted + [t.aggregate.value],
                   t.aggregate.value.NumContributors() == t.node.p.numIds)
  {
    KnownExists(n.p, order, t.node);
    EmittedGrows(n, t.node, emitted, t.aggregate.value);
  }

  lemma {:induction false} TurnKeepsNode(numIds: nat, order: seq<seq<nat>>, n: Node, emitted: seq<Contribution>,
                                         t: Turn)
    requires NodeOk(numIds, order, n, emitted, false)
    requires TurnOk(PlaceOf(n.p, order), n, t)
    ensures NodeOk(numIds, order, t.node, emitted + Emits(t), Finishes(t)) && t.node.p == n.p
  {
    if t.aggregate.Some? {
      EmittingTurnKeeps(numIds, order, n, emitted, t);
    } else {
      QuietTurnKeeps(numIds, order, n, emitted, t);
      assert emitted + [] == emitted;
    }
  }

  lemma {:induction false} ApplyKeepsInv(s: Net, orders: seq<seq<seq<nat>>>, i: nat, t: Turn)
    requires NetInv(s, orders) && i < |s.nodes| && s.nodes[i].p.nodeId == t.node.p.nodeId
    requires NodeOk(|s.nodes|, orders[i], t.node, s.emitted[i] + Emits(t), Finishes(t))
    ensures NetInv(Apply(s, i, t), orders)
  {
    assert NodeAtOk(s, orders, i);
    forall j | 0 <= j < |s.nodes|
      ensures NodeAtOk(Apply(s, i, t), orders, j)
    {
      if j != i {
        assert NodeAtOk(s, orders, j);
        OthersUntouched(s, orders, i, t, j);
      }
    }
  }

  lemma {:induction false} OthersUntouched(s: Net, orders: seq<seq<seq<nat>>>, i: nat, t: Turn, j: nat)
    requires i < |s.nodes| == |s.emitted| == |s.finished| == |orders| && j < |s.nodes| && j != i
    ensures NodeAtOk(Apply(s, i, t), orders, j) <==> NodeAtOk(s, orders, j)
  {
  }

  lemma {:induction false} StepKeepsInv(s: Net, orders: seq<seq<seq<nat>>>, r: Outcome<Net>)
    requires NetInv(s, orders) && NetStep(s, r)
    ensures r.Ok? && NetInv(r.value, orders)
  {
    var i, input, verified, t :|
      && 0 <= i < |s.nodes| && !s.finished[i]
      && (forall u :: u in input ==> InFlight(s, i, u))
      && NodeTurn(s.nodes[i], input, verified, t)
      && r == if t.Panic? then Panic else Ok(Apply(s, i, t.value));
    NodeTurnOk(s, orders, i, input, verified, t);
    assert NodeAtOk(s, orders, i);
    TurnKeepsNode(|s.nodes|, orders[i], s.nodes[i], s.emitted[i], t.value);
    ApplyKeepsInv(s, orders, i, t.value);
  }

  /** The node before its first check: only its own contribution, nothing sent. */
  function FreshNode(p: BinomialPartitioner, config: Config, weights: map<nat, nat>, order: seq<seq<nat>>, store: Store)
    : Node {
    Node(p, config, weights, Contribution({p.nodeId}), InitialLevels(order), store, {}, 0, [])
  }

  lemma {:induction false} FreshLevelOk(p: BinomialPartitioner, order: seq<seq<nat>>, best: map<nat, Contribution>,
                                        l: nat)
    requires Networked(p) && AreShuffles(p, order) && l < p.numLevels
    ensures LevelOk(PlaceOf(p, order), best, InitialLevel(order, l), l)
  {
    if l > 0 {
      RangesBelow(p, l);
      ShufflesListAllPeers(p, order);
      ExpectedIsOneTooMany(p, order, l);
      SubsetSize(RangesUnion(Ranges(p), l), PeerIdsUpTo(p.nodeId, l - 1));
    }
  }

  lemma {:induction false} FreshNodeInv(p: BinomialPartitioner, config: Config, weights: map<nat, nat>,
                                        order: seq<seq<nat>>, store: Store)
    requires Networked(p) && AreShuffles(p, order)
    requires StoreInv(Ranges(p), store) && 0 in store.best
    ensures NodeInv(PlaceOf(p, order), FreshNode(p, config, weights, order, store))
  {
    PlacesOk(p, order);
    forall l | 0 <= l < p.numLevels
      ensures LevelOk(PlaceOf(p, order), store.best, InitialLevels(order)[l], l)
    {
      FreshLevelOk(p, order, store.best, l);
    }
  }

  /** Creating a node never panics and yields a good node. */
  lemma {:induction false} NewNodeInv(p: BinomialPartitioner, config: Config, weights: map<nat, nat>,
                                      order: seq<seq<nat>>)
    requires Networked(p) && AreShuffles(p, order)
    ensures var r := NewNode(p, config, weights, Contribution({p.nodeId}), order);
            && r.Ok? && NodeInv(PlaceOf(p, order), r.value) && Marked(r.value)
            && r.value.p == p && r.value.weights == weights
  {
    var own := Contribution({p.nodeId});
    PlacesOk(p, order);
    EmptyStoreInv(Ranges(p));
    PutKeepsInv(Ranges(p), EmptyStore(p.numLevels), own, 0);
    var store := PutInto(EmptyStore(p.numLevels), own, 0).value;
    var n := FreshNode(p, config, weights, order, store);
    FreshNodeInv(p, config, weights, order, store);
    CheckCompletedKeepsInv(PlaceOf(p, order), n, 0);
    FreshNodeMarks(p, order, n);
    CheckCompletedMarks(n, 0);
    GainedMarks(n, CheckCompleted(n, 0).value, 0);
  }

  lemma {:induction false} FreshNodeMarks(p: BinomialPartitioner, order: seq<seq<nat>>, n: Node)
    requires AreShuffles(p, order) && n.levels == InitialLevels(order) && n.store.best.Keys <= {0}
    ensures MarkedExcept(n, 0)
  {
    forall l | 0 <= l < |n.levels| && l != 0
      ensures MarkedAt(n.store.best, n.levels[l], l)
    {
      RangeSizes(p.nodeId, l);
      assert IsShuffle(order[l], PeerIds(p.nodeId, l));
    }
  }

  lemma {:induction false} InitialInv(s: Net, orders: seq<seq<seq<nat>>>)
    requires InitialNet(s, orders)
    ensures NetInv(s, orders)
  {
    forall i | 0 <= i < |s.nodes|
      ensures NodeAtOk(s, orders, i)
    {
      assert InitialNode(s, orders[i], i);
      var n := s.nodes[i];
      NewNodeInv(n.p, n.config, n.weights, orders[i]);
      KnownExists(n.p, orders[i], n);
    }
  }

  /** No run of a network of honest nodes ever panics, and every state of it keeps the invariant. */
  lemma {:induction false} RunsAreSafe(trace: seq<Outcome<Net>>, orders: seq<seq<seq<nat>>>)
    requires |trace| > 0 && trace[0].Ok? && InitialNet(trace[0].value, orders)
    requires IsRun(trace)
    ensures forall k :: 0 <= k < |trace| ==> trace[k].Ok? && NetInv(trace[k].value, orders)
  {
    var last := |trace| - 1;
    if last == 0 {
      InitialInv(trace[0].value, orders);
    } else {
      var before := trace[..last];
      RunsAreSafe(before, orders);
      assert before[last - 1] == trace[last - 1];
      StepKeepsInv(trace[last - 1].value, orders, trace[last]);
      forall k | 0 <= k < |trace|
        ensures trace[k].Ok? && NetInv(trace[k].value, orders)
      {
        if k < last {
          assert trace[k] == before[k];
        }
      }
    }
  }

  // ---------- what the invariant means ----------

  /** Levels never overlap: what a node holds for a level belongs to that level, and aggregating never panics. */
  lemma {:induction false} LevelsStaySeparate(s: Net, orders: seq<seq<seq<nat>>>, i: nat, l: nat)
    requires NetInv(s, orders) && i < |s.nodes| && l < s.nodes[i].p.numLevels
    ensures BestAt(s.nodes[i].store.best, l) <= PeerIds(i, l) * Interval(0, |s.nodes|)
    ensures CombinedUpTo(s.nodes[i].store, l) == Ok(Some(Contribution(BestUnion(s.nodes[i].store.best, l + 1))))
    ensures |BestUnion(s.nodes[i].store.best, l + 1)| == BestTotal(s.nodes[i].store.best, l + 1)
  {
    assert NodeAtOk(s, orders, i);
    NodeLevelsSeparate(s.nodes[i].p, orders[i], s.nodes[i], l);
  }

  lemma {:induction false} NodeLevelsSeparate(p: BinomialPartitioner, order: seq<seq<nat>>, n: Node, l: nat)
    requires NodeInv(PlaceOf(p, order), n) && l < p.numLevels
    ensures BestAt(n.store.best, l) <= PeerIds(p.nodeId, l) * Interval(0, p.numIds)
    ensures CombinedUpTo(n.store, l) == Ok(Some(Contribution(BestUnion(n.store.best, l + 1))))
    ensures |BestUnion(n.store.best, l + 1)| == BestTotal(n.store.best, l + 1)
  {
    CombinedBelow(PlaceOf(p, order), n, l + 1);
    BestUnionSize(Ranges(p), n.store.best, l + 1);
  }

  /** A level is marked as completed exactly when it has heard from every identifier of its range. */
  lemma {:induction false} CompletedIffFull(s: Net, orders: seq<seq<seq<nat>>>, i: nat, l: nat)
    requires NetInv(s, orders) && i < |s.nodes| && l < |s.nodes[i].levels|
    ensures s.nodes[i].levels[l].receiveCompleted <==> BestAt(s.nodes[i].store.best, l) == PeerIds(i, l)
  {
    var n := s.nodes[i];
    assert NodeAtOk(s, orders, i);
    assert LevelOk(PlaceOf(n.p, orders[i]), n.store.best, n.levels[l], l);
    assert MarkedAt(n.store.best, n.levels[l], l);
    assert IsShuffle(orders[i][l], PeerIds(i, l));
    LevelsStaySeparate(s, orders, i, l);
    SubsetSize(BestAt(n.store.best, l), PeerIds(i, l));
  }

  /**
   * Once a level has heard from every node of its range, it is marked as completed exactly if every
   * identifier of the range belongs to a node; the range itself does not stop at the last node.
   */
  lemma {:induction false} GatheredLevelCompletesIff(s: Net, orders: seq<seq<seq<nat>>>, i: nat, l: nat)
    requires NetInv(s, orders) && i < |s.nodes| && l < |s.nodes[i].levels|
    requires BestAt(s.nodes[i].store.best, l) == PeerIds(i, l) * Interval(0, |s.nodes|)
    ensures s.nodes[i].levels[l].receiveCompleted <==> forall id :: id in PeerIds(i, l) ==> id < |s.nodes|
  {
    CompletedIffFull(s, orders, i, l);
    assert PeerIds(i, l) * Interval(0, |s.nodes|) == PeerIds(i, l) <==>
           forall id :: id in PeerIds(i, l) ==> id < |s.nodes|;
  }

  /** A level with an identifier that no node has is never marked as completed. */
  lemma {:induction false} ClippedLevelsStayOpen(s: Net, orders: seq<seq<seq<nat>>>, i: nat, l: nat, missing: nat)
    requires NetInv(s, orders) && i < |s.nodes| && l < |s.nodes[i].levels|
    requires missing in PeerIds(i, l) && missing >= |s.nodes|
    ensures !s.nodes[i].levels[l].receiveCompleted
  {
    assert NodeAtOk(s, orders, i);
    CompletedIffFull(s, orders, i, l);
    LevelsStaySeparate(s, orders, i, l);
  }

  /** Aggregates emitted by a node grow strictly, so it emits fewer than there are identifiers. */
  lemma {:induction false} EmissionsGrow(s: Net, orders: seq<seq<seq<nat>>>, i: nat)
    requires NetInv(s, orders) && i < |s.nodes|
    ensures |s.emitted[i]| < |s.nodes|
    ensures forall j, k :: 0 <= j < k < |s.emitted[i]| ==>
              s.emitted[i][j].NumContributors() < s.emitted[i][k].NumContributors()
    ensures s.finished[i] ==>
              s.emitted[i] != [] && s.emitted[i][|s.emitted[i]| - 1].contributors == Interval(0, |s.nodes|)
  {
    var n := s.nodes[i];
    assert NodeAtOk(s, orders, i);
    KnownExists(n.p, orders[i], n);
    var emitted := s.emitted[i];
    if emitted != [] {
      assert |emitted| < emitted[|emitted| - 1].NumContributors() <= |Known(n)|;
    }
  }

  /** News is never wasted: reading an update that would enlarge a level's best emits a larger aggregate. */
  lemma {:induction false} NewsMakesProgress(s: Net, orders: seq<seq<seq<nat>>>, i: nat, input: seq<LevelUpdate>,
                                             r: Outcome<Turn>, t: TodoItem)
    requires NetInv(s, orders) && i < |s.nodes|
    requires forall u :: u in input ==> InFlight(s, i, u)
    requires TodoTurn(s.nodes[i], input, true, r)
    requires Offered(Members(s.nodes[i].p), input).Ok? && t in Offered(Members(s.nodes[i].p), input).value
    requires PutInto(s.nodes[i].store, t.contribution, t.level).Ok?
    requires |BestAt(PutInto(s.nodes[i].store, t.contribution, t.level).value.best, t.level)| >
             |BestAt(s.nodes[i].store.best, t.level)|
    ensures r.Ok? && r.value.aggregate.Some? && r.value.aggregate.value.NumContributors() > |Known(s.nodes[i])|
  {
    var n := s.nodes[i];
    assert NodeAtOk(s, orders, i);
    OfferedOk(s, orders, i, input);
    ScoreOfOk(PlaceOf(n.p, orders[i]), n.p, n, t);
    TodoTurnOk(n.p, orders[i], n, input, true, r);
  }

  /** What holds at every moment of every run, for every node and each of its levels. */
  lemma {:induction false} RunGuarantees(trace: seq<Outcome<Net>>, orders: seq<seq<seq<nat>>>, k: nat, i: nat, l: nat)
    requires |trace| > 0 && trace[0].Ok? && InitialNet(trace[0].value, orders) && IsRun(trace) && k < |trace|
    ensures trace[k].Ok? && NetInv(trace[k].value, orders)
    ensures i < |trace[k].value.nodes| ==>
              && |trace[k].value.emitted[i]| < |trace[k].value.nodes|
              && (l < |trace[k].value.nodes[i].levels| ==>
                    (trace[k].value.nodes[i].levels[l].receiveCompleted <==>
                     BestAt(trace[k].value.nodes[i].store.best, l) == PeerIds(i, l)))
              && (l < trace[k].value.nodes[i].p.numLevels ==>
                    && BestAt(trace[k].value.nodes[i].store.best, l) <= PeerIds(i, l)
                    && CombinedUpTo(trace[k].value.nodes[i].store, l) ==
                       Ok(Some(Contribution(BestUnion(trace[k].value.nodes[i].store.best, l + 1)))))
  {
    RunsAreSafe(trace, orders);
    var s := trace[k].value;
    if i < |s.nodes| {
      EmissionsGrow(s, orders, i);
      if l < |s.nodes[i].levels| {
        CompletedIffFull(s, orders, i, l);
      }
      if l < s.nodes[i].p.numLevels {
        LevelsStaySeparate(s, orders, i, l);
      }
    }
  }
}
