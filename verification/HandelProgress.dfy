/** When a network can still learn something, and when it cannot any more. */
module HandelProgress {
  import opened Prelude
  import opened Sets
  import opened Contributions
  import opened Partitioner
  import opened ContributionStore
  import opened TodoLists
  import opened Levels
  import opened Aggregation
  import opened AggregationInvariant
  import opened AggregationMessages
  import opened HandelPlaces
  import opened HandelNetwork
  import opened AggregationDrain
  import opened HandelCompleteness

  // ---------- what can reach a node ----------

  /** A node that has not finished would tell node i so, by a periodic update. */
  ghost predicate WouldSend(s: Net, j: nat, i: nat, u: LevelUpdate)
    requires |s.finished| == |s.nodes|
  {
    j < |s.nodes| && !s.finished[j] && exists l :: IsNews(s.nodes[j], Message(u, i), l)
  }

  ghost predicate CanReach(s: Net, i: nat, u: LevelUpdate)
    requires |s.finished| == |s.nodes|
  {
    InFlight(s, i, u) || exists j :: WouldSend(s, j, i, u)
  }

  /** An update carries its aggregate, and the sender's own contribution if that comes with it. */
  predicate Carries(u: LevelUpdate, t: TodoItem) {
    t.level == u.level && (t.contribution == u.aggregate || u.individual == Some(t.contribution))
  }

  /** Something node i has read, or may still read. */
  ghost predicate Available(s: Net, i: nat, t: TodoItem)
    requires |s.finished| == |s.nodes|
  {
    i < |s.nodes| && (t in s.nodes[i].todos || exists u :: CanReach(s, i, u) && Carries(u, t))
  }

  ghost predicate Learnable(s: Net, i: nat, t: TodoItem)
    requires |s.finished| == |s.nodes|
  {
    i < |s.nodes| && !s.finished[i] && Available(s, i, t) && Enlarges(s.nodes[i].store, t)
  }

  ghost predicate CanLearn(s: Net)
    requires |s.finished| == |s.nodes|
  {
    exists i, t :: Learnable(s, i, t)
  }

  // ---------- reading ----------

  lemma {:induction false} PeerItems(p: BinomialPartitioner, u: LevelUpdate)
    requires u.level < p.numLevels && u.origin in PeerIds(p.nodeId, u.level)
    ensures ItemsOf(Members(p), u).Ok? && forall t :: t in ItemsOf(Members(p), u).value <==> Carries(u, t)
  {
    RangeIsPeers(p, u.level, u.origin);
  }

  lemma {:induction false} OriginIsPeer(q: BinomialPartitioner, order: seq<seq<nat>>, i: nat, m: Message)
    requires AreShuffles(q, order) && SentOk(PlaceOf(q, order), m) && m.to == i
    ensures 0 < m.update.level < q.numLevels && m.update.origin in PeerIds(i, m.update.level)
  {
    var l := m.update.level;
    assert IsShuffle(order[l], PeerIds(q.nodeId, l));
    PeersAreMutual(q.nodeId, i, l);
  }

  lemma {:induction false} SentByNode(s: Net, orders: seq<seq<seq<nat>>>, j: nat, m: Message)
    requires NetInv(s, orders) && Sent(s, j, m)
    ensures SentOk(PlaceOf(s.nodes[j].p, orders[j]), m) && AreShuffles(s.nodes[j].p, orders[j])
    ensures s.nodes[j].p == PartitionerOf(j, |s.nodes|)
  {
    assert NodeAtOk(s, orders, j);
  }

  /** Whatever has been sent to a node comes out as exactly the items it carries. */
  lemma {:induction false} InFlightItems(s: Net, orders: seq<seq<seq<nat>>>, i: nat, u: LevelUpdate)
    requires NetInv(s, orders) && i < |s.nodes| && InFlight(s, i, u)
    ensures ItemsOf(Members(s.nodes[i].p), u).Ok?
    ensures forall t :: t in ItemsOf(Members(s.nodes[i].p), u).value <==> Carries(u, t)
  {
    var j: nat :| Sent(s, j, Message(u, i));
    SentByNode(s, orders, j, Message(u, i));
    OriginIsPeer(s.nodes[j].p, orders[j], i, Message(u, i));
    NodeFacts(s, orders, i);
    PeerItems(s.nodes[i].p, u);
  }

  lemma {:induction false} OfferedCarried(s: Net, orders: seq<seq<seq<nat>>>, i: nat, input: seq<LevelUpdate>,
                                          t: TodoItem)
    requires NetInv(s, orders) && i < |s.nodes| && forall u :: u in input ==> InFlight(s, i, u)
    ensures Offered(Members(s.nodes[i].p), input).Ok?
    ensures t in Offered(Members(s.nodes[i].p), input).value <==> exists u :: u in input && Carries(u, t)
    decreases |input|
  {
    if input != [] {
      var rest, last := input[..|input| - 1], input[|input| - 1];
      OfferedCarried(s, orders, i, rest, t);
      InFlightItems(s, orders, i, last);
      assert forall u :: u in input <==> u in rest || u == last;
    }
  }

  // ---------- dead ends ----------

  /** No node knows anything else than before, and none has emitted anything new. */
  ghost predicate NothingLearned(s: Net, s': Net) {
    && |s'.nodes| == |s.nodes| && s'.emitted == s.emitted && s'.finished == s.finished
    && forall i :: 0 <= i < |s.nodes| ==> s'.nodes[i].store == s.nodes[i].store
  }

  /** A turn in which a node at most sends its news and forgets what it has read. */
  ghost predicate Idle(n: Node, t: Turn) {
    t.aggregate.None? && NewsOnly(n, t.node) && SameNews(n, t.node) && t.node.todos <= n.todos
  }

  lemma {:induction false} NewsWouldBeSent(s: Net, i: nat, t: Turn, k: nat, u: LevelUpdate)
    requires i < |s.nodes| == |s.emitted| == |s.finished| && !s.finished[i] && Idle(s.nodes[i], t)
    requires CanReach(Apply(s, i, t), k, u)
    ensures CanReach(s, k, u)
  {
    var s' := Apply(s, i, t);
    if InFlight(s', k, u) {
      var j :| Sent(s', j, Message(u, k));
      if j == i && Message(u, k) !in s.nodes[i].sent {
        assert WouldSend(s, i, k, u);
      } else {
        assert Sent(s, j, Message(u, k));
      }
    } else {
      var j :| WouldSend(s', j, k, u);
      if j == i {
        var l :| IsNews(t.node, Message(u, k), l);
        NewsStays(s.nodes[i], t.node, Message(u, k), l);
      }
      assert WouldSend(s, j, k, u);
    }
  }

  lemma {:induction false} IdleTurnAdds(s: Net, i: nat, t: Turn, k: nat, x: TodoItem)
    requires i < |s.nodes| == |s.emitted| == |s.finished| && !s.finished[i] && Idle(s.nodes[i], t)
    requires Learnable(Apply(s, i, t), k, x)
    ensures Learnable(s, k, x)
  {
    var s' := Apply(s, i, t);
    if x !in s'.nodes[k].todos {
      var u :| CanReach(s', k, u) && Carries(u, x);
      NewsWouldBeSent(s, i, t, k, u);
    }
  }

  lemma {:induction false} IdleKeepsDead(s: Net, i: nat, t: Turn)
    requires i < |s.nodes| == |s.emitted| == |s.finished| && !s.finished[i] && Idle(s.nodes[i], t) && !CanLearn(s)
    ensures NothingLearned(s, Apply(s, i, t)) && !CanLearn(Apply(s, i, t))
  {
    var s' := Apply(s, i, t);
    assert s.emitted[i] + [] == s.emitted[i];
    if CanLearn(s') {
      var k, x :| Learnable(s', k, x);
      IdleTurnAdds(s, i, t, k, x);
      assert false;
    }
  }

  /** A node with nothing to learn picks nothing, whatever it reads. */
  lemma {:induction false} DeadPoll(s: Net, orders: seq<seq<seq<nat>>>, i: nat, input: seq<LevelUpdate>, b: TodoItem)
    requires NetInv(s, orders) && i < |s.nodes| && !s.finished[i] && !CanLearn(s)
    requires forall u :: u in input ==> InFlight(s, i, u)
    requires Offered(Members(s.nodes[i].p), input).Ok? && b in Seen(s.nodes[i], input)
    ensures !Useful(Scores(s.nodes[i].store, s.nodes[i].weights), b)
  {
    var n := s.nodes[i];
    NetworkNodesSound(s, orders, i, input);
    SeenOk(n.p, orders[i], n, input);
    OfferedCarried(s, orders, i, input, b);
    if b !in n.todos {
      var u :| u in input && Carries(u, b);
      assert CanReach(s, i, u);
    }
    assert Available(s, i, b);
    assert !Learnable(s, i, b);
    UsefulIs(n.p, orders[i], n, b);
  }

  lemma {:induction false} DeadSeen(s: Net, orders: seq<seq<seq<nat>>>, i: nat, input: seq<LevelUpdate>)
    requires NetInv(s, orders) && i < |s.nodes| && !s.finished[i] && !CanLearn(s)
    requires forall u :: u in input ==> InFlight(s, i, u)
    requires Offered(Members(s.nodes[i].p), input).Ok?
    ensures forall b :: b in Seen(s.nodes[i], input) ==> !Useful(Scores(s.nodes[i].store, s.nodes[i].weights), b)
  {
    forall b | b in Seen(s.nodes[i], input)
      ensures !Useful(Scores(s.nodes[i].store, s.nodes[i].weights), b)
    {
      DeadPoll(s, orders, i, input, b);
    }
  }

  /** A turn over the todo list picks an item, or none, among what it sees. */
  lemma {:induction false} TurnPicks(p: BinomialPartitioner, order: seq<seq<nat>>, n: Node, input: seq<LevelUpdate>,
                                     verified: bool, r: Outcome<Turn>)
                                       returns (best: Option<TodoItem>, list: set<TodoItem>)
    requires Sound(p, order, n) && Readable(p, order, input) && TodoTurn(n, input, verified, r)
    ensures Picked(Scores(n.store, n.weights), Seen(n, input), best, list)
    ensures r == AfterPoll(n.(todos := list), best, verified)
    ensures forall t :: t in Seen(n, input) ==> TodoOk(PlaceOf(p, order), t)
  {
    SeenOk(p, order, n, input);
    best, list :| Picked(Scores(n.store, n.weights), Seen(n, input), best, list) &&
                  r == AfterPoll(n.(todos := list), best, verified);
  }

  lemma {:induction false} PickedNothing(score: Scorer, seen: multiset<TodoItem>, best: Option<TodoItem>,
                                         list: set<TodoItem>)
    requires Picked(score, seen, best, list) && forall b :: b in seen ==> !Useful(score, b)
    ensures best == None && list == {}
  {
  }

  lemma {:induction false} DeadTodoTurn(s: Net, orders: seq<seq<seq<nat>>>, i: nat, input: seq<LevelUpdate>,
                                        verified: bool, r: Outcome<Turn>)
    requires NetInv(s, orders) && i < |s.nodes| && !s.finished[i] && !CanLearn(s)
    requires forall u :: u in input ==> InFlight(s, i, u)
    requires TodoTurn(s.nodes[i], input, verified, r)
    ensures r.Ok? && Idle(s.nodes[i], r.value)
  {
    var n := s.nodes[i];
    NetworkNodesSound(s, orders, i, input);
    var best, list := TurnPicks(n.p, orders[i], n, input, verified, r);
    DeadSeen(s, orders, i, input);
    PickedNothing(Scores(n.store, n.weights), Seen(n, input), best, list);
  }

  lemma {:induction false} DeadTurn(s: Net, orders: seq<seq<seq<nat>>>, i: nat, input: seq<LevelUpdate>, verified: bool,
                                    r: Outcome<Turn>)
    requires NetInv(s, orders) && i < |s.nodes| && !s.finished[i] && !CanLearn(s)
    requires forall u :: u in input ==> InFlight(s, i, u)
    requires NodeTurn(s.nodes[i], input, verified, r)
    ensures r.Ok? && Idle(s.nodes[i], r.value)
  {
    var n := s.nodes[i];
    assert NodeAtOk(s, orders, i);
    var g := PlaceOf(n.p, orders[i]);
    if r == Quiet(ActivateNextLevel(n)) {
      TimeoutOnlyNews(g, n);
      ActivateKeepsInv(g, n);
    } else if r == Quiet(AutomaticUpdate(n, 1)) {
      AutomaticUpdateOnlyNews(g, n, 1);
      AutomaticUpdateKeepsInv(g, n, 1);
    } else {
      DeadTodoTurn(s, orders, i, input, verified, r);
    }
  }

  /** Where nothing can be learned, every step teaches nobody anything, and that stays so. */
  lemma {:induction false} DeadEndStays(s: Net, orders: seq<seq<seq<nat>>>, r: Outcome<Net>)
    requires NetInv(s, orders) && !CanLearn(s) && NetStep(s, r)
    ensures r.Ok? && NetInv(r.value, orders) && NothingLearned(s, r.value) && !CanLearn(r.value)
  {
    StepKeepsInv(s, orders, r);
    var i: nat, input, verified, t :|
      && i < |s.nodes| && !s.finished[i]
      && (forall u :: u in input ==> InFlight(s, i, u))
      && NodeTurn(s.nodes[i], input, verified, t)
      && r == if t.Panic? then Panic else Ok(Apply(s, i, t.value));
    DeadTurn(s, orders, i, input, verified, t);
    IdleKeepsDead(s, i, t.value);
  }

  /** Over a whole run. */
  lemma {:induction false} DeadRun(trace: seq<Outcome<Net>>, orders: seq<seq<seq<nat>>>, k: nat)
    requires k < |trace| && IsRun(trace) && trace[0].Ok? && NetInv(trace[0].value, orders) && !CanLearn(trace[0].value)
    ensures trace[k].Ok? && NetInv(trace[k].value, orders) && !CanLearn(trace[k].value)
    ensures NothingLearned(trace[0].value, trace[k].value)
  {
    if k > 0 {
      DeadRun(trace, orders, k - 1);
      assert trace[k - 1].Ok? && NetStep(trace[k - 1].value, trace[k - 1 + 1]);
      DeadEndStays(trace[k - 1].value, orders, trace[k]);
    }
  }

  // ---------- learning ----------

  lemma {:induction false} HighestScore(score: Scorer, items: set<TodoItem>) returns (b: TodoItem)
    requires items != {} && forall i :: i in items ==> score(i).Ok?
    ensures b in items && forall i :: i in items ==> score(i).value <= score(b).value
  {
    var first :| first in items;
    b := first;
    var rest := items - {first};
    assert forall i :: i in items ==> i in rest || i == first;
    if rest != {} {
      var c := HighestScore(score, rest);
      if score(c).value > score(first).value {
        b := c;
      }
    }
  }

  /** Some item can always be picked. */
  lemma {:induction false} PickExists(score: Scorer, seen: multiset<TodoItem>)
    returns (best: Option<TodoItem>, list: set<TodoItem>)
    requires forall i :: i in seen ==> score(i).Ok?
    ensures Picked(score, seen, best, list)
  {
    var useful := set i | i in seen && Useful(score, i);
    if useful == {} {
      best, list := None, {};
      assert forall i :: i in seen && Useful(score, i) ==> i in useful;
    } else {
      var b := HighestScore(score, useful);
      best, list := Some(b), if seen[b] > 1 then useful else useful - {b};
      assert forall i :: i in seen && Useful(score, i) ==> i in useful;
    }
  }

  lemma {:induction false} PicksMakeTurn(n: Node, input: seq<LevelUpdate>, best: Option<TodoItem>, list: set<TodoItem>,
                                         r: Outcome<Turn>)
    requires PollSucceeds(Scores(n.store, n.weights), Members(n.p), n.todos, input)
    requires Picked(Scores(n.store, n.weights), Seen(n, input), best, list) &&
             r == AfterPoll(n.(todos := list), best, true)
    ensures TodoTurn(n, input, true, r)
  {
  }

  lemma {:induction false} SeesItem(s: Net, orders: seq<seq<seq<nat>>>, i: nat, input: seq<LevelUpdate>, t: TodoItem)
    requires NetInv(s, orders) && i < |s.nodes| && forall u :: u in input ==> InFlight(s, i, u)
    requires t in s.nodes[i].todos || exists u :: u in input && Carries(u, t)
    ensures Offered(Members(s.nodes[i].p), input).Ok? && t in Seen(s.nodes[i], input)
  {
    NetworkNodesSound(s, orders, i, input);
    SeenOk(s.nodes[i].p, orders[i], s.nodes[i], input);
    OfferedCarried(s, orders, i, input, t);
  }

  /** A node that sees something useful learns in one turn. */
  lemma {:induction false} UsefulTurn(p: BinomialPartitioner, order: seq<seq<nat>>, n: Node, input: seq<LevelUpdate>,
                                      t: TodoItem) returns (turn: Turn)
    requires Sound(p, order, n) && Readable(p, order, input) && t in Seen(n, input) && Enlarges(n.store, t)
    ensures TodoTurn(n, input, true, Ok(turn)) && |Known(turn.node)| > |Known(n)|
  {
    SeenOk(p, order, n, input);
    var best, list := PickExists(Scores(n.store, n.weights), Seen(n, input));
    UsefulIs(p, order, n, t);
    AfterPollOk(p, order, n, list, best, true);
    turn := AfterPoll(n.(todos := list), best, true).value;
    PicksMakeTurn(n, input, best, list, Ok(turn));
  }

  /** A node that has, or is sent, something that enlarges a level's best learns in one turn. */
  lemma {:induction false} LearningTurn(s: Net, orders: seq<seq<seq<nat>>>, i: nat, input: seq<LevelUpdate>,
                                        t: TodoItem)
    returns (turn: Turn)
    requires NetInv(s, orders) && i < |s.nodes| && forall u :: u in input ==> InFlight(s, i, u)
    requires t in s.nodes[i].todos || exists u :: u in input && Carries(u, t)
    requires Enlarges(s.nodes[i].store, t)
    ensures TodoTurn(s.nodes[i], input, true, Ok(turn)) && |Known(turn.node)| > |Known(s.nodes[i])|
  {
    NetworkNodesSound(s, orders, i, input);
    SeesItem(s, orders, i, input, t);
    turn := UsefulTurn(s.nodes[i].p, orders[i], s.nodes[i], input, t);
  }

  lemma {:induction false} RunFirst(s: Outcome<Net>, rest: seq<Outcome<Net>>)
    requires rest != [] && s.Ok? && NetStep(s.value, rest[0]) && IsRun(rest)
    ensures IsRun([s] + rest)
  {
    var all := [s] + rest;
    forall k | 0 <= k < |all| - 1
      ensures all[k].Ok? && NetStep(all[k].value, all[k + 1])
    {
      if k > 0 {
        assert rest[k - 1].Ok? && NetStep(rest[k - 1].value, rest[k - 1 + 1]);
      }
    }
  }

  /** The network after one node has changed without emitting anything. */
  function WithNode(s: Net, j: nat, n: Node): Net
    requires j < |s.nodes|
  {
    s.(nodes := s.nodes[j := n])
  }

  lemma {:induction false} PeriodicStep(s: Net, orders: seq<seq<seq<nat>>>, j: nat, next: Node)
    requires NetInv(s, orders) && j < |s.nodes| && !s.finished[j] && AutomaticUpdate(s.nodes[j], 1) == Ok(next)
    ensures NetStep(s, Ok(WithNode(s, j, next))) && NetInv(WithNode(s, j, next), orders)
  {
    var t := Turn(next, None);
    assert NodeTurn(s.nodes[j], [], true, Ok(t));
    assert s.emitted[j] + [] == s.emitted[j];
    assert Apply(s, j, t) == WithNode(s, j, next);
    StepKeepsInv(s, orders, Ok(WithNode(s, j, next)));
  }

  lemma {:induction false} FirstPeriodic(s: Net, orders: seq<seq<seq<nat>>>, j: nat, k: nat, last: Node)
    returns (next: Node)
    requires NetInv(s, orders) && j < |s.nodes| && !s.finished[j] && k > 0
    requires Repeat(PeriodicUpdate, s.nodes[j], k) == Ok(last)
    ensures PeriodicUpdate(s.nodes[j]) == Ok(next) && NetInv(WithNode(s, j, next), orders)
    ensures Repeat(PeriodicUpdate, next, k - 1) == Ok(last)
  {
    next := PeriodicUpdate(s.nodes[j]).value;
    PeriodicStep(s, orders, j, next);
  }

  lemma {:induction false} PeriodicThen(s: Net, orders: seq<seq<seq<nat>>>, j: nat, next: Node, rest: seq<Outcome<Net>>,
                                        e: Net)
    requires NetInv(s, orders) && j < |s.nodes| && !s.finished[j] && PeriodicUpdate(s.nodes[j]) == Ok(next)
    requires rest != [] && IsRun(rest) && rest[0] == Ok(WithNode(s, j, next)) && rest[|rest| - 1] == Ok(e)
    ensures IsRun([Ok(s)] + rest) && ([Ok(s)] + rest)[|rest|] == Ok(e)
  {
    PeriodicStep(s, orders, j, next);
    RunFirst(Ok(s), rest);
  }

  lemma {:induction false} NodeTwice(s: Net, j: nat, n: Node, m: Node)
    requires j < |s.nodes|
    ensures WithNode(WithNode(s, j, n), j, m) == WithNode(s, j, m) && WithNode(s, j, s.nodes[j]) == s
  {
  }

  /** A node may take any number of periodic turns in a row. */
  lemma {:induction false} PeriodicRun(s: Net, orders: seq<seq<seq<nat>>>, j: nat, k: nat, last: Node, e: Net)
    returns (trace: seq<Outcome<Net>>)
    requires NetInv(s, orders) && j < |s.nodes| && !s.finished[j] && e == WithNode(s, j, last)
    requires Repeat(PeriodicUpdate, s.nodes[j], k) == Ok(last)
    ensures IsRun(trace) && |trace| > 0 && trace[0] == Ok(s) && trace[|trace| - 1] == Ok(e) && NetInv(e, orders)
    decreases k
  {
    if k == 0 {
      NodeTwice(s, j, last, last);
      trace := [Ok(s)];
    } else {
      var next := FirstPeriodic(s, orders, j, k, last);
      NodeTwice(s, j, next, last);
      var rest := PeriodicRun(WithNode(s, j, next), orders, j, k - 1, last, e);
      PeriodicThen(s, orders, j, next, rest, e);
      trace := [Ok(s)] + rest;
    }
  }

  // ---------- exactly when ----------

  /** At the end of the run some node knows more than at its beginning. */
  ghost predicate Learns(trace: seq<Outcome<Net>>) {
    && |trace| > 0 && trace[0].Ok? && trace[|trace| - 1].Ok?
    && Teaches(trace[0].value, trace[|trace| - 1].value)
  }

  ghost predicate Teaches(s: Net, s': Net) {
    exists i :: KnowsMore(s, s', i)
  }

  ghost predicate KnowsMore(s: Net, s': Net, i: nat) {
    i < |s.nodes| == |s'.nodes| && |Known(s'.nodes[i])| > |Known(s.nodes[i])|
  }

  lemma {:induction false} LearningStep(s: Net, orders: seq<seq<seq<nat>>>, i: nat, input: seq<LevelUpdate>,
                                        t: TodoItem)
    returns (r: Outcome<Net>)
    requires NetInv(s, orders) && i < |s.nodes| && !s.finished[i] && forall u :: u in input ==> InFlight(s, i, u)
    requires t in s.nodes[i].todos || exists u :: u in input && Carries(u, t)
    requires Enlarges(s.nodes[i].store, t)
    ensures NetStep(s, r) && r.Ok? && KnowsMore(s, r.value, i)
  {
    var turn := LearningTurn(s, orders, i, input, t);
    assert NodeTurn(s.nodes[i], input, true, Ok(turn));
    r := Ok(Apply(s, i, turn));
  }

  lemma {:induction false} RunThenStep(trace: seq<Outcome<Net>>, r: Outcome<Net>)
    requires trace != [] && IsRun(trace) && trace[|trace| - 1].Ok? && NetStep(trace[|trace| - 1].value, r)
    ensures IsRun(trace + [r])
  {
    var all := trace + [r];
    forall k | 0 <= k < |all| - 1
      ensures all[k].Ok? && NetStep(all[k].value, all[k + 1])
    {
      if k < |trace| - 1 {
        assert trace[k].Ok? && NetStep(trace[k].value, trace[k + 1]);
      }
    }
  }

  lemma {:induction false} NewsTold(g: Place, m: Node, i: nat, u: LevelUpdate, l: nat) returns (k: nat, n: Node)
    requires NodeInv(g, m) && m.config.updateCount > 0 && IsNews(m, Message(u, i), l)
    ensures Repeat(PeriodicUpdate, m, k) == Ok(n) && Message(u, i) in n.sent
  {
    k := |m.levels[l].peerIds|;
    PeriodicTellsAll(g, m, k, l, i);
    n := Repeat(PeriodicUpdate, m, k).value;
  }

  lemma {:induction false} NodeIsGood(s: Net, orders: seq<seq<seq<nat>>>, j: nat)
    requires NetInv(s, orders) && j < |s.nodes|
    ensures NodeInv(PlaceOf(s.nodes[j].p, orders[j]), s.nodes[j]) && AreShuffles(s.nodes[j].p, orders[j])
    ensures s.nodes[j].p == PartitionerOf(j, |s.nodes|)
  {
    assert NodeAtOk(s, orders, j);
  }

  /** A node that would tell a peer something has told it after enough periodic turns. */
  lemma {:induction false} NewsArrives(s: Net, orders: seq<seq<seq<nat>>>, j: nat, i: nat, u: LevelUpdate)
    returns (trace: seq<Outcome<Net>>, n: Node)
    requires NetInv(s, orders) && WouldSend(s, j, i, u) && s.nodes[j].config.updateCount > 0
    ensures IsRun(trace) && |trace| > 0 && trace[0] == Ok(s) && trace[|trace| - 1] == Ok(WithNode(s, j, n))
    ensures NetInv(WithNode(s, j, n), orders) && InFlight(WithNode(s, j, n), i, u)
  {
    NodeIsGood(s, orders, j);
    var l :| IsNews(s.nodes[j], Message(u, i), l);
    var k;
    k, n := NewsTold(PlaceOf(s.nodes[j].p, orders[j]), s.nodes[j], i, u, l);
    trace := PeriodicRun(s, orders, j, k, n, WithNode(s, j, n));
    assert Sent(WithNode(s, j, n), j, Message(u, i));
  }

  /** Where something can be learned, some run teaches it: the news is sent if need be, and then read. */
  lemma {:induction false} LearnableIsLearned(s: Net, orders: seq<seq<seq<nat>>>, i: nat, t: TodoItem)
    returns (trace: seq<Outcome<Net>>)
    requires NetInv(s, orders) && Learnable(s, i, t) && forall j :: 0 <= j < |s.nodes| ==>
               s.nodes[j].config.updateCount > 0
    ensures IsRun(trace) && |trace| > 0 && trace[0] == Ok(s) && Learns(trace)
  {
    if t in s.nodes[i].todos {
      var r := LearningStep(s, orders, i, [], t);
      RunThenStep([Ok(s)], r);
      trace := [Ok(s)] + [r];
      assert KnowsMore(s, r.value, i);
    } else {
      var u :| CanReach(s, i, u) && Carries(u, t);
      trace := ReachedIsLearned(s, orders, i, t, u);
    }
  }

  lemma {:induction false} ReachedIsLearned(s: Net, orders: seq<seq<seq<nat>>>, i: nat, t: TodoItem, u: LevelUpdate)
    returns (trace: seq<Outcome<Net>>)
    requires NetInv(s, orders) && i < |s.nodes| && !s.finished[i] && CanReach(s, i, u) && Carries(u, t)
    requires Enlarges(s.nodes[i].store, t) && forall j :: 0 <= j < |s.nodes| ==> s.nodes[j].config.updateCount > 0
    ensures IsRun(trace) && |trace| > 0 && trace[0] == Ok(s) && Learns(trace)
  {
    if InFlight(s, i, u) {
      assert u in [u];
      var r := LearningStep(s, orders, i, [u], t);
      RunThenStep([Ok(s)], r);
      trace := [Ok(s)] + [r];
      assert KnowsMore(s, r.value, i);
    } else {
      var j: nat :| WouldSend(s, j, i, u);
      trace := ToldIsLearned(s, orders, j, i, t, u);
    }
  }

  lemma {:induction false} ToldIsLearned(s: Net, orders: seq<seq<seq<nat>>>, j: nat, i: nat, t: TodoItem,
                                         u: LevelUpdate)
    returns (trace: seq<Outcome<Net>>)
    requires NetInv(s, orders) && i < |s.nodes| && !s.finished[i] && WouldSend(s, j, i, u) && Carries(u, t)
    requires Enlarges(s.nodes[i].store, t) && s.nodes[j].config.updateCount > 0
    ensures IsRun(trace) && |trace| > 0 && trace[0] == Ok(s) && Learns(trace)
  {
    var first, n := NewsArrives(s, orders, j, i, u);
    NewsIsForOthers(s, orders, j, i, u);
    var r := LearningStep(WithNode(s, j, n), orders, i, [u], t);
    RunThenStep(first, r);
    trace := first + [r];
    assert KnowsMore(s, r.value, i);
  }

  /** The peers of a level are exactly those of its range. */
  lemma {:induction false} PeersOf(p: BinomialPartitioner, order: seq<seq<nat>>, n: Node, l: nat)
    requires NodeInv(PlaceOf(p, order), n) && AreShuffles(p, order) && l < |n.levels|
    ensures |n.levels| == p.numLevels && forall i :: i in n.levels[l].peerIds <==> i in PeerIds(p.nodeId, l)
  {
    assert LevelOk(PlaceOf(p, order), n.store.best, n.levels[l], l);
    assert IsShuffle(order[l], PeerIds(p.nodeId, l));
  }

  lemma {:induction false} NewsIsForOthers(s: Net, orders: seq<seq<seq<nat>>>, j: nat, i: nat, u: LevelUpdate)
    requires NetInv(s, orders) && WouldSend(s, j, i, u)
    ensures i != j
  {
    NodeIsGood(s, orders, j);
    var l :| IsNews(s.nodes[j], Message(u, i), l);
    PeersOf(s.nodes[j].p, orders[j], s.nodes[j], l);
    Partitioner.RangesDisjoint(j, 0, l);
  }

  /** A network can learn something if and only if some run of it does. */
  lemma {:induction false} CanLearnIff(s: Net, orders: seq<seq<seq<nat>>>)
    requires NetInv(s, orders) && forall j :: 0 <= j < |s.nodes| ==> s.nodes[j].config.updateCount > 0
    ensures CanLearn(s) <==> exists trace :: IsRun(trace) && Starts(trace, s) && Learns(trace)
  {
    if CanLearn(s) {
      var i: nat, t :| Learnable(s, i, t);
      var trace := LearnableIsLearned(s, orders, i, t);
      assert Starts(trace, s);
    } else {
      forall trace: seq<Outcome<Net>> | IsRun(trace) && Starts(trace, s)
        ensures !Learns(trace)
      {
        DeadRun(trace, orders, |trace| - 1);
        DeadLearnsNothing(s, trace[|trace| - 1].value, orders);
        assert !Teaches(s, trace[|trace| - 1].value);
      }
    }
  }

  ghost predicate Starts(trace: seq<Outcome<Net>>, s: Net) {
    |trace| > 0 && trace[0] == Ok(s)
  }

  lemma {:induction false} DeadLearnsNothing(s: Net, s': Net, orders: seq<seq<seq<nat>>>)
    requires NetInv(s, orders) && NetInv(s', orders) && NothingLearned(s, s')
    ensures forall i :: !KnowsMore(s, s', i)
  {
    forall i: nat
      ensures !KnowsMore(s, s', i)
    {
      if i < |s.nodes| {
        NodeFacts(s, orders, i);
        NodeFacts(s', orders, i);
      }
    }
  }

  // ---------- incomplete networks ----------

  /** What a peer has below a level is news that the peer would send, and carries that item. */
  lemma {:induction false} TellsByNews(s: Net, orders: seq<seq<seq<nat>>>, i: nat, j: nat, l: nat)
    returns (u: LevelUpdate)
    requires NetInv(s, orders) && Tells(s, i, j, l) && !s.finished[j]
    ensures WouldSend(s, j, i, u) && Carries(u, News(s, j, l)) && !s.finished[i]
  {
    NodeIsGood(s, orders, i);
    NodeIsGood(s, orders, j);
    PeersAreMutual(i, j, l);
    PeersOf(s.nodes[j].p, orders[j], s.nodes[j], l);
    u := UpdateFor(s.nodes[j], l, Below(s.nodes[j], l));
    assert IsNews(s.nodes[j], Message(u, i), l);
    TellsTheUnfinished(s, orders, i, j, l);
  }

  /** Who can still be told something has not finished. */
  lemma {:induction false} TellsTheUnfinished(s: Net, orders: seq<seq<seq<nat>>>, i: nat, j: nat, l: nat)
    requires NetInv(s, orders) && Tells(s, i, j, l)
    ensures !s.finished[i]
  {
    if s.finished[i] {
      var n, m := s.nodes[i], s.nodes[j];
      assert NodeAtOk(s, orders, i);
      NodeIsGood(s, orders, j);
      CoveredBy(n.p, m.p, l);
      BestUnionInRanges(Ranges(m.p), m.store.best, l);
      OwnInUnion(m.store.best, l);
      IntervalSize(0, |s.nodes|);
      NothingBeyondAll(n.p, orders[i], n, News(s, j, l));
    }
  }

  /** An incomplete network with no finished node gets an update on its way that enlarges a level's best. */
  lemma {:induction false} IncompleteGetsNews(s: Net, orders: seq<seq<seq<nat>>>)
    returns (trace: seq<Outcome<Net>>, e: Net, i: nat, u: LevelUpdate, t: TodoItem)
    requires NetInv(s, orders) && !Complete(s)
    requires forall j :: 0 <= j < |s.nodes| ==> !s.finished[j] && s.nodes[j].config.updateCount > 0
    ensures IsRun(trace) && Starts(trace, s) && trace[|trace| - 1] == Ok(e) && NetInv(e, orders)
    ensures i < |e.nodes| && InFlight(e, i, u) && Carries(u, t) && Enlarges(e.nodes[i].store, t)
  {
    StuckIffComplete(s, orders);
    var k: nat, j: nat, l: nat :| Tells(s, k, j, l);
    i, t := k, News(s, j, l);
    u := TellsByNews(s, orders, i, j, l);
    var n;
    trace, n := NewsArrives(s, orders, j, i, u);
    NewsIsForOthers(s, orders, j, i, u);
    e := WithNode(s, j, n);
  }

  /** An incomplete network can learn as long as some node that could tell another one has not finished. */
  lemma {:induction false} TellerTeaches(s: Net, orders: seq<seq<seq<nat>>>, i: nat, j: nat, l: nat)
    requires NetInv(s, orders) && Tells(s, i, j, l) && !s.finished[j]
    ensures CanLearn(s)
  {
    var u := TellsByNews(s, orders, i, j, l);
    assert CanReach(s, i, u);
    assert Learnable(s, i, News(s, j, l));
  }

  // ---------- new nodes ----------

  /** A node that holds its own contribution, before its first check. */
  ghost predicate Unchecked(p: BinomialPartitioner, order: seq<seq<nat>>, before: Node) {
    && Networked(p) && AreShuffles(p, order) && PutInto(EmptyStore(p.numLevels), Contribution({p.nodeId}), 0).Ok?
    && before == FreshNode(p, before.config, before.weights, order,
                           PutInto(EmptyStore(p.numLevels), Contribution({p.nodeId}), 0).value)
  }

  lemma {:induction false} UncheckedIs(p: BinomialPartitioner, order: seq<seq<nat>>, before: Node)
    requires Unchecked(p, order, before)
    ensures NodeInv(PlaceOf(p, order), before) && BestAt(before.store.best, 0) == {p.nodeId} && 0 in before.store.best
  {
    var own := Contribution({p.nodeId});
    PlacesOk(p, order);
    EmptyStoreInv(Ranges(p));
    PutKeepsInv(Ranges(p), EmptyStore(p.numLevels), own, 0);
    FirstBest(own.contributors);
    FreshNodeInv(p, before.config, before.weights, order, before.store);
  }

  lemma {:induction false} UncheckedCompletes(p: BinomialPartitioner, order: seq<seq<nat>>, before: Node)
    requires Unchecked(p, order, before) && BestAt(before.store.best, 0) == {p.nodeId} && p.numLevels > 0
    ensures |before.levels| == p.numLevels && Completes(before, 0)
  {
    assert IsShuffle(order[0], PeerIds(p.nodeId, 0));
  }

  /** Before its first check, a new node holds its own contribution, which completes level 0. */
  lemma {:induction false} NewNodeReady(p: BinomialPartitioner, order: seq<seq<nat>>, before: Node)
    requires Unchecked(p, order, before)
    ensures NodeInv(PlaceOf(p, order), before) && BestAt(before.store.best, 0) == {p.nodeId} && before.sent == []
    ensures 0 in before.store.best && |before.levels| > 0 && Completes(before, 0)
  {
    UncheckedIs(p, order, before);
    FewLevels(p);
    UncheckedCompletes(p, order, before);
  }

  lemma {:induction false} NewNodeIsChecked(p: BinomialPartitioner, config: Config, weights: map<nat, nat>,
                                            order: seq<seq<nat>>, before: Node)
    requires Unchecked(p, order, before) && before.config == config && before.weights == weights
    ensures NewNode(p, config, weights, Contribution({p.nodeId}), order) == CheckCompleted(before, 0)
  {
  }
}
