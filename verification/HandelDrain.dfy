/**
 * What becomes of everything a node reads: the list of pending contributions runs empty, and what
 * was read can enlarge the best of its level only if it shares no signer with it.
 */
module AggregationDrain {
  import opened Prelude
  import opened Sets
  import opened Contributions
  import opened Partitioner
  import opened ContributionStore
  import opened TodoLists
  import opened Levels
  import opened Aggregation
  import opened AggregationInvariant
  import opened HandelPlaces
  import opened HandelNetwork

  // ---------- one level ----------

  /** Whatever a contribution adds to the verified individuals, the best of the level is at least as large. */
  ghost predicate SettledIn(best: set<nat>, verified: set<nat>, c: set<nat>) {
    |c| == 1 || |c + verified| <= |best|
  }

  lemma {:induction false} UselessIsSettled(best: set<nat>, verified: set<nat>, c: set<nat>)
    requires c != {} && |NextBest(best, c, verified)| <= |best|
    ensures SettledIn(best, verified, c)
  {
    if |c| != 1 && c !! best {
      assert best + c == c + best;
      UnionSize(best, c);
      UnionSize(c + best, verified);
      assert false;
    }
  }

  /** A settled contribution enlarges the best exactly if it shares no signer with it. */
  lemma {:induction false} SettledGain(best: set<nat>, verified: set<nat>, c: set<nat>)
    requires verified <= best && c != {} && SettledIn(best, verified, c)
    ensures |NextBest(best, c, verified)| > |best| <==> c !! best
  {
    if c !! best {
      DisjointUnionSize(c, best);
      SubsetSize(c + best, (c + best) + VerifiedWith(verified, c));
      assert |c| > 0;
    } else if |c| == 1 {
      var x :| x in c && x in best;
      Singleton(c, x);
      SubsetSize(c + VerifiedWith(verified, c), best);
    }
  }

  lemma {:induction false} SettledStays(best: set<nat>, verified: set<nat>, c: set<nat>, best': set<nat>, c0: set<nat>)
    requires SettledIn(best, verified, c) && |best'| > |best|
    ensures SettledIn(best', VerifiedWith(verified, c0), c)
  {
    if |c| != 1 && |c0| == 1 {
      UnionSize(c + verified, c0);
      assert c + (verified + c0) == (c + verified) + c0;
    }
  }

  lemma {:induction false} MergedIsSettled(best: set<nat>, verified: set<nat>, c: set<nat>)
    requires verified <= best && c != {} && |NextBest(best, c, verified)| > |best|
    ensures SettledIn(NextBest(best, c, verified), VerifiedWith(verified, c), c)
  {
    NextBestKeeps(best, c, verified);
    SubsetSize(c + VerifiedWith(verified, c), NextBest(best, c, verified));
  }

  // ---------- one turn ----------

  /** A node of the network, as the invariants of its runs describe it. */
  ghost predicate Sound(p: BinomialPartitioner, order: seq<seq<nat>>, n: Node) {
    && Networked(p) && n.p == p && AreShuffles(p, order) && WeightsKnown(n, p.numIds)
    && NodeInv(PlaceOf(p, order), n)
  }

  /** Updates of other nodes: they can be read, and are for the levels they belong to. */
  ghost predicate Readable(p: BinomialPartitioner, order: seq<seq<nat>>, input: seq<LevelUpdate>) {
    && Offered(Members(p), input).Ok?
    && forall t :: t in Offered(Members(p), input).value ==> TodoOk(PlaceOf(p, order), t)
  }

  /** Every node of every run is such a node, and so is every update sent to it such an update. */
  lemma {:induction false} NetworkNodesSound(s: Net, orders: seq<seq<seq<nat>>>, i: nat, input: seq<LevelUpdate>)
    requires NetInv(s, orders) && i < |s.nodes| && forall u :: u in input ==> InFlight(s, i, u)
    ensures Sound(s.nodes[i].p, orders[i], s.nodes[i]) && Readable(s.nodes[i].p, orders[i], input)
  {
    assert NodeAtOk(s, orders, i);
    OfferedOk(s, orders, i, input);
  }

  ghost predicate Settled(s: Store, t: TodoItem) {
    t.level < |s.verified| && SettledIn(BestAt(s.best, t.level), s.verified[t.level], t.contribution.contributors)
  }

  /** Putting a contribution would enlarge the best of its level. */
  ghost predicate Enlarges(s: Store, t: TodoItem) {
    && PutInto(s, t.contribution, t.level).Ok?
    && |BestAt(PutInto(s, t.contribution, t.level).value.best, t.level)| > |BestAt(s.best, t.level)|
  }

  lemma {:induction false} EnlargesIs(ranges: seq<set<nat>>, s: Store, t: TodoItem)
    requires StoreInv(ranges, s) && t.level < |ranges| && {} != t.contribution.contributors <= ranges[t.level]
    ensures Enlarges(s, t) <==>
            |NextBest(BestAt(s.best, t.level), t.contribution.contributors, s.verified[t.level])| >
            |BestAt(s.best, t.level)|
    ensures s.verified[t.level] <= BestAt(s.best, t.level)
  {
    PutKeepsInv(ranges, s, t.contribution, t.level);
    assert CellInv(s.verified[t.level], s.individuals[t.level], BestAt(s.best, t.level));
  }

  lemma {:induction false} UpperHalf(p: BinomialPartitioner)
    requires p == PartitionerOf(8, 16)
    ensures p.numLevels == 5 && Ranges(p)[4] == {0, 1, 2, 3, 4, 5, 6, 7}
  {
    BlockIsInterval(8, 4, 0);
    BlockIsInterval(8, 3, 8);
  }

  /** A put of several contributors into a level without individuals. */
  lemma {:induction false} PutMany(ranges: seq<set<nat>>, s: Store, c: set<nat>, level: nat, next: set<nat>)
    requires StoreInv(ranges, s) && level < |ranges| && s.verified[level] == {} && |c| > 1 && c <= ranges[level]
    requires next == if c !! BestAt(s.best, level) then c + BestAt(s.best, level) else c
    ensures PutInto(s, Contribution(c), level).Ok?
    ensures var s' := PutInto(s, Contribution(c), level).value;
            && StoreInv(ranges, s') && s'.verified[level] == {}
            && BestAt(s'.best, level) == if |next| <= |BestAt(s.best, level)| then BestAt(s.best, level) else next
  {
    PutKeepsInv(ranges, s, Contribution(c), level);
    PutIs(s, Contribution(c), level);
    assert next + {} == next;
  }

  /** Three contributions of which the second is useless after the first, and useful after the third. */
  ghost predicate Revives(range: set<nat>, a: set<nat>, b: set<nat>, c: set<nat>) {
    && a <= range && b <= range && c <= range && 1 < |b| <= |a| < |c|
    && !(b !! a) && !(c !! a) && b !! c
  }

  lemma {:induction false} RevivesIn(ranges: seq<set<nat>>, s0: Store, level: nat, a: set<nat>, b: set<nat>,
                                     c: set<nat>)
    returns (s: Store, s': Store)
    requires StoreInv(ranges, s0) && level < |ranges| && s0.verified[level] == {} && level !in s0.best
    requires Revives(ranges[level], a, b, c)
    ensures PutInto(s0, Contribution(a), level) == Ok(s) && StoreInv(ranges, s)
    ensures PutInto(s, Contribution(c), level) == Ok(s') && StoreInv(ranges, s')
    ensures !Enlarges(s, TodoItem(Contribution(b), level)) && Enlarges(s', TodoItem(Contribution(b), level))
  {
    assert a + {} == a;
    PutMany(ranges, s0, a, level, a);
    s := PutInto(s0, Contribution(a), level).value;
    PutMany(ranges, s, b, level, b);
    PutMany(ranges, s, c, level, c);
    s' := PutInto(s, Contribution(c), level).value;
    DisjointUnionSize(b, c);
    PutMany(ranges, s', b, level, b + c);
  }

  /**
   * A contribution that was useless can become useful when the best it overlapped is replaced: node 8
   * of 16 hears at level 4, where its peers are 0 to 7, from {1, 2, 3}, then {1, 4}, then {3, 5, 6, 7}.
   */
  lemma {:induction false} UselessMayRevive(p: BinomialPartitioner) returns (s: Store, s': Store)
    requires p == PartitionerOf(8, 16)
    ensures PutInto(EmptyStore(p.numLevels), Contribution({1, 2, 3}), 4) == Ok(s) && StoreInv(Ranges(p), s)
    ensures PutInto(s, Contribution({3, 5, 6, 7}), 4) == Ok(s') && StoreInv(Ranges(p), s')
    ensures !Enlarges(s, TodoItem(Contribution({1, 4}), 4)) && Enlarges(s', TodoItem(Contribution({1, 4}), 4))
  {
    UpperHalf(p);
    EmptyStoreInv(Ranges(p));
    assert Revives(Ranges(p)[4], {1, 2, 3}, {1, 4}, {3, 5, 6, 7}) by {
      assert 1 in {1, 4} && 1 in {1, 2, 3} && 3 in {3, 5, 6, 7} && 3 in {1, 2, 3};
    }
    s, s' := RevivesIn(Ranges(p), EmptyStore(p.numLevels), 4, {1, 2, 3}, {1, 4}, {3, 5, 6, 7});
  }

  /** Settled contributions stay settled while others are merged, and merging settles. */
  lemma {:induction false} PutSettles(ranges: seq<set<nat>>, s: Store, t0: TodoItem, s': Store, t: TodoItem)
    requires StoreInv(ranges, s) && t0.level < |ranges| && {} != t0.contribution.contributors <= ranges[t0.level]
    requires Enlarges(s, t0) && PutInto(s, t0.contribution, t0.level) == Ok(s')
    requires t == t0 || Settled(s, t)
    ensures Settled(s', t)
  {
    var l, c := t0.level, t0.contribution.contributors;
    EnlargesIs(ranges, s, t0);
    PutIs(s, t0.contribution, l);
    if t == t0 {
      MergedIsSettled(BestAt(s.best, l), s.verified[l], c);
    } else if t.level == l {
      SettledStays(BestAt(s.best, l), s.verified[l], t.contribution.contributors, BestAt(s'.best, l), c);
    }
  }

  /** What is settled can enlarge the best of its level exactly if it shares no signer with it. */
  lemma {:induction false} SettledEnlargesIff(ranges: seq<set<nat>>, s: Store, t: TodoItem)
    requires StoreInv(ranges, s) && t.level < |ranges| && {} != t.contribution.contributors <= ranges[t.level]
    requires Settled(s, t)
    ensures Enlarges(s, t) <==> t.contribution.contributors !! BestAt(s.best, t.level)
  {
    EnlargesIs(ranges, s, t);
    SettledGain(BestAt(s.best, t.level), s.verified[t.level], t.contribution.contributors);
  }

  lemma {:induction false} UselessItemSettled(ranges: seq<set<nat>>, s: Store, t: TodoItem)
    requires StoreInv(ranges, s) && t.level < |ranges| && {} != t.contribution.contributors <= ranges[t.level]
    requires !Enlarges(s, t)
    ensures Settled(s, t)
  {
    EnlargesIs(ranges, s, t);
    UselessIsSettled(BestAt(s.best, t.level), s.verified[t.level], t.contribution.contributors);
  }

  lemma {:induction false} UsefulIs(p: BinomialPartitioner, order: seq<seq<nat>>, n: Node, t: TodoItem)
    requires Sound(p, order, n) && TodoOk(PlaceOf(p, order), t)
    ensures Useful(Scores(n.store, n.weights), t) <==> Enlarges(n.store, t)
  {
    ScoreOfOk(PlaceOf(p, order), p, n, t);
  }

  /** What a node has read by the end of a turn: the rest of its list and the new items. */
  ghost predicate Read(n: Node, input: seq<LevelUpdate>, t: TodoItem) {
    t in n.todos || (Offered(Members(n.p), input).Ok? && t in Offered(Members(n.p), input).value)
  }

  /** Where every item is after a turn. */
  ghost predicate Accounted(n: Node, t: TodoItem) {
    t in n.todos || Settled(n.store, t)
  }

  /** The outcome of a turn that picks nothing: all that was read is useless and forgotten. */
  lemma {:induction false} IdlePoll(p: BinomialPartitioner, order: seq<seq<nat>>, n: Node, seen: multiset<TodoItem>,
                                    list: set<TodoItem>, t: TodoItem)
    requires Sound(p, order, n) && Picked(Scores(n.store, n.weights), seen, None, list)
    requires TodoOk(PlaceOf(p, order), t) && (t in seen || Settled(n.store, t))
    ensures list == {} && Settled(n.store, t)
  {
    if t in seen {
      UsefulIs(p, order, n, t);
      assert !Useful(Scores(n.store, n.weights), t);
      UselessItemSettled(Ranges(p), n.store, t);
    }
  }

  /** The outcome of a turn that picks an item: it is merged, and whatever else was read is kept or useless. */
  lemma {:induction false} BusyPoll(p: BinomialPartitioner, order: seq<seq<nat>>, n: Node, seen: multiset<TodoItem>,
                                    best: TodoItem, list: set<TodoItem>, s': Store, t: TodoItem)
    requires Sound(p, order, n) && Picked(Scores(n.store, n.weights), seen, Some(best), list)
    requires TodoOk(PlaceOf(p, order), best) && PutInto(n.store, best.contribution, best.level) == Ok(s')
    requires TodoOk(PlaceOf(p, order), t) && (t in seen || Settled(n.store, t))
    ensures Enlarges(n.store, best) && (t in list || Settled(s', t))
  {
    UsefulIs(p, order, n, best);
    if t !in list {
      if t != best && t in seen {
        UsefulIs(p, order, n, t);
        UselessItemSettled(Ranges(p), n.store, t);
      }
      PutSettles(Ranges(p), n.store, best, s', t);
    }
  }

  lemma {:induction false} SeenOk(p: BinomialPartitioner, order: seq<seq<nat>>, n: Node, input: seq<LevelUpdate>)
    requires Sound(p, order, n) && Readable(p, order, input)
    ensures forall t :: t in Seen(n, input) ==> TodoOk(PlaceOf(p, order), t)
    ensures forall t :: Read(n, input, t) ==> t in Seen(n, input)
    ensures PollSucceeds(Scores(n.store, n.weights), Members(p), n.todos, input)
  {
    PollOk(p, order, n, input);
  }

  /** A verified turn picks an item or none, and merges what it picks. */
  ghost predicate Polled(n: Node, input: seq<LevelUpdate>, best: Option<TodoItem>, n': Node) {
    && Offered(Members(n.p), input).Ok?
    && Picked(Scores(n.store, n.weights), Seen(n, input), best, n'.todos)
    && match best
       case None => n'.store == n.store
       case Some(b) => b in Seen(n, input) && PutInto(n.store, b.contribution, b.level) == Ok(n'.store)
  }

  lemma {:induction false} HandledTodo(p: BinomialPartitioner, order: seq<seq<nat>>, n: Node, t: TodoItem)
    requires Sound(p, order, n) && TodoOk(PlaceOf(p, order), t)
    ensures HandleTodo(n, t).Ok? && HandleTodo(n, t).value.node.todos == n.todos
    ensures PutInto(n.store, t.contribution, t.level) == Ok(HandleTodo(n, t).value.node.store)
  {
    RangeSmall(p, t.level);
    assert IsShuffle(order[t.level], PeerIds(p.nodeId, t.level));
    HandleTodoKeepsInv(PlaceOf(p, order), n, t);
  }

  lemma {:induction false} WithList(p: BinomialPartitioner, order: seq<seq<nat>>, n: Node, list: set<TodoItem>)
    requires Sound(p, order, n) && forall t :: t in list ==> TodoOk(PlaceOf(p, order), t)
    ensures Sound(p, order, n.(todos := list))
  {
  }

  lemma {:induction false} AfterPolled(p: BinomialPartitioner, order: seq<seq<nat>>, n: Node, best: Option<TodoItem>,
                                       list: set<TodoItem>, t: Turn)
    requires Sound(p, order, n) && (forall i :: i in list ==> TodoOk(PlaceOf(p, order), i))
    requires best.Some? ==> TodoOk(PlaceOf(p, order), best.value)
    requires AfterPoll(n.(todos := list), best, true) == Ok(t)
    ensures t.node.todos == list
    ensures match best
            case None => t.node.store == n.store
            case Some(b) => PutInto(n.store, b.contribution, b.level) == Ok(t.node.store)
  {
    if best.Some? {
      WithList(p, order, n, list);
      HandledTodo(p, order, n.(todos := list), best.value);
    }
  }

  lemma {:induction false} TurnPolls(p: BinomialPartitioner, order: seq<seq<nat>>, n: Node, input: seq<LevelUpdate>,
                                     t: Turn) returns (best: Option<TodoItem>)
    requires Sound(p, order, n) && Readable(p, order, input) && TodoTurn(n, input, true, Ok(t))
    ensures Polled(n, input, best, t.node)
  {
    SeenOk(p, order, n, input);
    var list: set<TodoItem>;
    best, list :| Picked(Scores(n.store, n.weights), Seen(n, input), best, list)
                  && Ok(t) == AfterPoll(n.(todos := list), best, true);
    AfterPolled(p, order, n, best, list, t);
  }

  /** A verified turn accounts for everything it read and for what was settled before. */
  lemma {:induction false} TurnAccounts(p: BinomialPartitioner, order: seq<seq<nat>>, n: Node, input: seq<LevelUpdate>,
                                        best: Option<TodoItem>, n': Node, t: TodoItem)
    requires Sound(p, order, n) && Readable(p, order, input) && Polled(n, input, best, n')
    requires TodoOk(PlaceOf(p, order), t) && (Read(n, input, t) || Accounted(n, t))
    ensures Accounted(n', t)
  {
    SeenOk(p, order, n, input);
    match best {
      case None => IdlePoll(p, order, n, Seen(n, input), n'.todos, t);
      case Some(b) => BusyPoll(p, order, n, Seen(n, input), b, n'.todos, n'.store, t);
    }
  }

  /** A verified turn leaves a sound node that has learned something, or whose list is empty. */
  lemma {:induction false} TurnLearnsOrEmpties(p: BinomialPartitioner, order: seq<seq<nat>>, n: Node,
                                               input: seq<LevelUpdate>, t: Turn, best: Option<TodoItem>)
    requires Sound(p, order, n) && Readable(p, order, input) && TodoTurn(n, input, true, Ok(t))
    requires Polled(n, input, best, t.node)
    ensures Sound(p, order, t.node)
    ensures |Known(t.node)| > |Known(n)| || (|Known(t.node)| == |Known(n)| && t.node.todos == {})
    ensures n.todos == {} && input == [] ==> t.node.todos == {}
  {
    TodoTurnOk(p, order, n, input, true, Ok(t));
    if t.aggregate.None? {
      assert best.None? by {
        if best.Some? {
          SeenOk(p, order, n, input);
          BusyPoll(p, order, n, Seen(n, input), best.value, t.node.todos, t.node.store, best.value);
          assert false;
        }
      }
    }
  }

  // ---------- series of turns ----------

  ghost predicate TodoStep(n: Node, input: seq<LevelUpdate>, n': Node) {
    exists aggregate :: TodoTurn(n, input, true, Ok(Turn(n', aggregate)))
  }

  /** Verified todo turns one after another, each reading its own input. */
  ghost predicate Follow(p: BinomialPartitioner, order: seq<seq<nat>>, ns: seq<Node>, inputs: seq<seq<LevelUpdate>>) {
    && |ns| == |inputs| + 1
    && (forall k :: 0 <= k < |inputs| ==> Readable(p, order, inputs[k]))
    && (forall k :: 0 <= k < |inputs| ==> TodoStep(ns[k], inputs[k], ns[k + 1]))
  }

  ghost predicate TodoSteps(p: BinomialPartitioner, order: seq<seq<nat>>, ns: seq<Node>,
                            inputs: seq<seq<LevelUpdate>>) {
    Follow(p, order, ns, inputs) && Sound(p, order, ns[0])
  }

  lemma {:induction false} StepOk(p: BinomialPartitioner, order: seq<seq<nat>>, n: Node, input: seq<LevelUpdate>,
                                  n': Node)
    requires Sound(p, order, n) && Readable(p, order, input) && TodoStep(n, input, n')
    ensures Sound(p, order, n')
    ensures |Known(n')| > |Known(n)| || (|Known(n')| == |Known(n)| && n'.todos == {})
    ensures n.todos == {} && input == [] ==> n'.todos == {}
  {
    var aggregate :| TodoTurn(n, input, true, Ok(Turn(n', aggregate)));
    var best := TurnPolls(p, order, n, input, Turn(n', aggregate));
    TurnLearnsOrEmpties(p, order, n, input, Turn(n', aggregate), best);
  }

  lemma {:induction false} StepAccounts(p: BinomialPartitioner, order: seq<seq<nat>>, n: Node, input: seq<LevelUpdate>,
                                        n': Node, t: TodoItem)
    requires Sound(p, order, n) && Readable(p, order, input) && TodoStep(n, input, n')
    requires TodoOk(PlaceOf(p, order), t) && (Read(n, input, t) || Accounted(n, t))
    ensures Accounted(n', t)
  {
    var aggregate :| TodoTurn(n, input, true, Ok(Turn(n', aggregate)));
    var best := TurnPolls(p, order, n, input, Turn(n', aggregate));
    TurnAccounts(p, order, n, input, best, n', t);
  }

  lemma {:induction false} SoundStep(p: BinomialPartitioner, order: seq<seq<nat>>, ns: seq<Node>,
                                     inputs: seq<seq<LevelUpdate>>, k: nat)
    requires Follow(p, order, ns, inputs) && k < |inputs| && Sound(p, order, ns[k])
    ensures Sound(p, order, ns[k + 1])
  {
    assert TodoStep(ns[k], inputs[k], ns[k + 1]);
    StepOk(p, order, ns[k], inputs[k], ns[k + 1]);
  }

  lemma {:induction false} StepsKeepSound(p: BinomialPartitioner, order: seq<seq<nat>>, ns: seq<Node>,
                                          inputs: seq<seq<LevelUpdate>>, k: nat)
    requires TodoSteps(p, order, ns, inputs) && k < |ns|
    ensures Sound(p, order, ns[k])
  {
    if k > 0 {
      StepsKeepSound(p, order, ns, inputs, k - 1);
      SoundStep(p, order, ns, inputs, k - 1);
    }
  }

  ghost predicate LearnsOrEmpties(n: Node, n': Node) {
    (|Known(n')| > |Known(n)| || n'.todos == {}) && (n.todos == {} ==> n'.todos == {})
  }

  /** Without input the k-th turn teaches the node something, or its list is empty. */
  lemma {:induction false} SilentStep(p: BinomialPartitioner, order: seq<seq<nat>>, ns: seq<Node>,
                                      inputs: seq<seq<LevelUpdate>>, k: nat)
    requires TodoSteps(p, order, ns, inputs) && k < |inputs| && inputs[k] == []
    ensures LearnsOrEmpties(ns[k], ns[k + 1])
  {
    StepsKeepSound(p, order, ns, inputs, k);
    assert TodoStep(ns[k], inputs[k], ns[k + 1]);
    StepOk(p, order, ns[k], inputs[k], ns[k + 1]);
  }

  lemma {:induction false} AccountsAt(p: BinomialPartitioner, order: seq<seq<nat>>, ns: seq<Node>,
                                      inputs: seq<seq<LevelUpdate>>, k: nat, t: TodoItem)
    requires TodoSteps(p, order, ns, inputs) && k < |inputs|
    requires TodoOk(PlaceOf(p, order), t) && (Read(ns[k], inputs[k], t) || Accounted(ns[k], t))
    ensures Accounted(ns[k + 1], t)
  {
    StepsKeepSound(p, order, ns, inputs, k);
    assert TodoStep(ns[k], inputs[k], ns[k + 1]);
    StepAccounts(p, order, ns[k], inputs[k], ns[k + 1], t);
  }

  lemma {:induction false} StaysAccounted(ns: seq<Node>, j: nat, k: nat, t: TodoItem)
    requires j <= k < |ns| && Accounted(ns[j], t)
    requires forall i :: j <= i < k && Accounted(ns[i], t) ==> Accounted(ns[i + 1], t)
    ensures Accounted(ns[k], t)
    decreases k - j
  {
    if j < k {
      StaysAccounted(ns, j + 1, k, t);
    }
  }

  /** Whatever has been read stays in the list until it is settled for good. */
  lemma {:induction false} ReadIsAccounted(p: BinomialPartitioner, order: seq<seq<nat>>, ns: seq<Node>,
                                           inputs: seq<seq<LevelUpdate>>, j: nat, k: nat, t: TodoItem)
    requires TodoSteps(p, order, ns, inputs) && j < k < |ns|
    requires TodoOk(PlaceOf(p, order), t) && Read(ns[j], inputs[j], t)
    ensures Accounted(ns[k], t)
  {
    AccountsAt(p, order, ns, inputs, j, t);
    forall i | j + 1 <= i < k && Accounted(ns[i], t)
      ensures Accounted(ns[i + 1], t)
    {
      AccountsAt(p, order, ns, inputs, i, t);
    }
    StaysAccounted(ns, j + 1, k, t);
  }

  ghost predicate Silent(inputs: seq<seq<LevelUpdate>>, start: nat) {
    forall k :: start <= k < |inputs| ==> inputs[k] == []
  }

  lemma {:induction false} LearnsUntilEmpty(ns: seq<Node>, start: nat, k: nat)
    requires start <= k < |ns|
    requires forall i :: start <= i < k ==> LearnsOrEmpties(ns[i], ns[i + 1])
    ensures ns[k].todos == {} || |Known(ns[k])| >= |Known(ns[start])| + (k - start)
  {
    if start < k {
      LearnsUntilEmpty(ns, start, k - 1);
      assert LearnsOrEmpties(ns[k - 1], ns[k - 1 + 1]);
    }
  }

  /** Without input every turn teaches the node something, until its list is empty. */
  lemma {:induction false} SilenceEmpties(p: BinomialPartitioner, order: seq<seq<nat>>, ns: seq<Node>,
                                          inputs: seq<seq<LevelUpdate>>, start: nat, k: nat)
    requires TodoSteps(p, order, ns, inputs) && start <= k < |ns| && Silent(inputs, start)
    ensures ns[k].todos == {} || |Known(ns[k])| >= |Known(ns[start])| + (k - start)
  {
    forall i | start <= i < k
      ensures LearnsOrEmpties(ns[i], ns[i + 1])
    {
      SilentStep(p, order, ns, inputs, i);
    }
    LearnsUntilEmpty(ns, start, k);
  }

  /** A node that knows every contribution has no use for any other. */
  lemma {:induction false} NothingBeyondAll(p: BinomialPartitioner, order: seq<seq<nat>>, n: Node, t: TodoItem)
    requires Sound(p, order, n) && |Known(n)| >= p.numIds && TodoOk(PlaceOf(p, order), t)
    ensures !Enlarges(n.store, t)
  {
    if Enlarges(n.store, t) {
      HandleUsefulOk(p, order, n, t);
      KnownExists(p, order, HandleTodo(n, t).value.node);
      assert false;
    }
  }

  /**
   * Once a node reads nothing new, as many turns as it has contributions left to learn leave nothing
   * in its list that could enlarge a level's best. Whatever it has ever read can do so exactly if it
   * shares no signer with that best.
   */
  lemma {:induction false} NodesDrain(p: BinomialPartitioner, order: seq<seq<nat>>, ns: seq<Node>,
                                      inputs: seq<seq<LevelUpdate>>, start: nat, k: nat)
    requires TodoSteps(p, order, ns, inputs) && start <= k < |ns| && Silent(inputs, start)
    requires |Known(ns[start])| + (k - start) >= p.numIds
    ensures forall t :: t in ns[k].todos ==> !Enlarges(ns[k].store, t)
    ensures forall j, t :: 0 <= j < k && Read(ns[j], inputs[j], t) ==>
              (Enlarges(ns[k].store, t) <==> t.contribution.contributors !! BestAt(ns[k].store.best, t.level))
  {
    StepsKeepSound(p, order, ns, inputs, k);
    SilenceEmpties(p, order, ns, inputs, start, k);
    forall t | t in ns[k].todos
      ensures !Enlarges(ns[k].store, t)
    {
      NothingBeyondAll(p, order, ns[k], t);
    }
    forall j, t | 0 <= j < k && Read(ns[j], inputs[j], t)
      ensures Enlarges(ns[k].store, t) <==> t.contribution.contributors !! BestAt(ns[k].store.best, t.level)
    {
      ReadItemDrained(p, order, ns, inputs, j, k, t);
    }
  }

  lemma {:induction false} ReadItemDrained(p: BinomialPartitioner, order: seq<seq<nat>>, ns: seq<Node>,
                                           inputs: seq<seq<LevelUpdate>>, j: nat, k: nat, t: TodoItem)
    requires TodoSteps(p, order, ns, inputs) && j < k < |ns| && Sound(p, order, ns[k]) && Read(ns[j], inputs[j], t)
    requires forall i :: i in ns[k].todos ==> !Enlarges(ns[k].store, i)
    ensures Enlarges(ns[k].store, t) <==> t.contribution.contributors !! BestAt(ns[k].store.best, t.level)
  {
    StepsKeepSound(p, order, ns, inputs, j);
    SeenOk(p, order, ns[j], inputs[j]);
    ReadIsAccounted(p, order, ns, inputs, j, k, t);
    if t in ns[k].todos {
      UselessItemSettled(Ranges(p), ns[k].store, t);
    }
    SettledEnlargesIff(Ranges(p), ns[k].store, t);
  }
}
