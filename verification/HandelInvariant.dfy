/** What every step of one node keeps, whatever the order of its steps. */
module AggregationInvariant {
  import opened Prelude
  import opened Sets
  import opened Contributions
  import opened ContributionStore
  import opened TodoLists
  import opened Levels
  import opened Aggregation

  /**
   * The place of a node in the id space: the identifiers each level may hold, and the order in
   * which the peers of each level are contacted.
   */
  datatype Place = Place(id: nat, ranges: seq<set<nat>>, orders: seq<seq<nat>>)

  /** The facts about a place that the steps of a node rely on. */
  ghost predicate PlaceOk(g: Place) {
    && 0 < |g.ranges| == |g.orders| <= 17
    && g.id < 0x1_0000
    && g.ranges[0] == {g.id}
    && RangesDisjoint(g.ranges)
  }

  ghost predicate LevelOk(g: Place, best: map<nat, Contribution>, level: LevelData, l: nat)
    requires l < |g.ranges| == |g.orders|
  {
    && level.id == l
    && level.peerIds == g.orders[l]
    && (level.receiveCompleted ==> |BestAt(best, l)| == |level.peerIds|)
    && (l > 0 ==> |RangesUnion(g.ranges, l)| < level.sendExpectedFullSize)
  }

  /** A message tells a peer of a level something about the identifiers below that level. */
  ghost predicate SentOk(g: Place, m: Message) {
    && 0 < m.update.level < |g.ranges| == |g.orders|
    && m.update.origin == g.id
    && m.to in g.orders[m.update.level]
    && {} != m.update.aggregate.contributors <= RangesUnion(g.ranges, m.update.level)
    && (m.update.individual.Some? ==> m.update.individual.value == Contribution({g.id}))
  }

  ghost predicate TodoOk(g: Place, t: TodoItem) {
    t.level < |g.ranges| && {} != t.contribution.contributors <= g.ranges[t.level]
  }

  ghost predicate LevelsOk(g: Place, n: Node) {
    && |n.levels| == |g.ranges| == |g.orders|
    && forall l :: 0 <= l < |n.levels| ==> LevelOk(g, n.store.best, n.levels[l], l)
  }

  ghost predicate NodeInv(g: Place, n: Node) {
    && PlaceOk(g)
    && n.p.nodeId == g.id && n.p.numLevels == |g.ranges|
    && n.own == Contribution({g.id})
    && StoreInv(g.ranges, n.store) && 0 in n.store.best
    && LevelsOk(g, n)
    && (forall t :: t in n.todos ==> TodoOk(g, t))
    && (forall m :: m in n.sent ==> SentOk(g, m))
  }

  /** Everything but level states, the timeout counter and sent messages is as before. */
  ghost predicate OnlySends(n: Node, n': Node) {
    && n' == n.(levels := n'.levels, nextLevelTimeout := n'.nextLevelTimeout, sent := n'.sent)
    && n.sent <= n'.sent
  }

  lemma {:induction false} SendUpdateKeepsInv(g: Place, n: Node, c: Contribution, l: nat, count: nat)
    requires NodeInv(g, n) && 0 < l < |n.levels|
    requires {} != c.contributors <= RangesUnion(g.ranges, l)
    ensures NodeInv(g, SendUpdate(n, c, l, count)) && OnlySends(n, SendUpdate(n, c, l, count))
  {
    var n' := SendUpdate(n, c, l, count);
    var (peers, level) := SelectPeers(n.levels[l], count);
    assert LevelOk(g, n.store.best, n.levels[l], l);
    assert LevelOk(g, n'.store.best, n'.levels[l], l);
    var update := LevelUpdate.New(c, if level.receiveCompleted then None else Some(n.own), level.id, n.p.nodeId);
    forall m | m in Messages(update, peers)
      ensures SentOk(g, m)
    {
      assert m.to in peers;
    }
  }

  /** The aggregate below a level exists and stays below it. */
  lemma {:induction false} CombinedBelow(g: Place, n: Node, l: nat)
    requires NodeInv(g, n) && 0 < l <= |g.ranges|
    ensures CombinedUpTo(n.store, l - 1) == Ok(Some(Contribution(BestUnion(n.store.best, l))))
    ensures {} != BestUnion(n.store.best, l) <= RangesUnion(g.ranges, l)
  {
    CombinedIsUnion(g.ranges, n.store, l - 1);
    OwnInUnion(n.store.best, l);
  }

  lemma {:induction false} OwnInUnion(best: map<nat, Contribution>, l: nat)
    requires l > 0 && 0 in best
    ensures best[0].contributors <= BestUnion(best, l)
  {
    if l > 1 {
      OwnInUnion(best, l - 1);
    }
  }

  lemma {:induction false} SetLevelKeepsInv(g: Place, n: Node, l: nat, level: LevelData)
    requires NodeInv(g, n) && l < |n.levels| && LevelOk(g, n.store.best, level, l)
    ensures NodeInv(g, n.(levels := n.levels[l := level]))
  {
  }

  /** Starting an existing level never panics. */
  lemma {:induction false} StartLevelKeepsInv(g: Place, n: Node, l: nat)
    requires NodeInv(g, n) && l < |n.levels|
    ensures StartLevel(n, l).Ok? && NodeInv(g, StartLevel(n, l).value) && OnlySends(n, StartLevel(n, l).value)
  {
    assert LevelOk(g, n.store.best, n.levels[l], l);
    SetLevelKeepsInv(g, n, l, n.levels[l].(sendStarted := true));
    if l > 0 {
      CombinedBelow(g, n, l);
      var n' := n.(levels := n.levels[l := n.levels[l].(sendStarted := true)]);
      SendUpdateKeepsInv(g, n', Contribution(BestUnion(n.store.best, l)), l, n.config.peerCount);
    }
  }

  /**
   * Announcing a new aggregate to the higher levels never panics. It never sends anything either:
   * a level waits for one contributor more than there are identifiers below it.
   */
  lemma {:induction false} UpdateAboveKeepsInv(g: Place, n: Node, i: nat)
    requires NodeInv(g, n) && i > 0
    ensures UpdateAbove(n, i).Ok? && NodeInv(g, UpdateAbove(n, i).value) && OnlySends(n, UpdateAbove(n, i).value)
    ensures UpdateAbove(n, i).value.sent == n.sent
    decreases |n.levels| - i
  {
    if i < |n.levels| {
      var level := UpdateSignature(n.levels[i], |BestUnion(n.store.best, i)|).1;
      AnnounceKeepsInv(g, n, i, level);
      UpdateAboveKeepsInv(g, n.(levels := n.levels[i := level]), i + 1);
    }
  }

  /** A level below whose expected size an aggregate stays takes note of it and sends nothing. */
  lemma {:induction false} AnnounceIsSilent(n: Node, i: nat, c: Contribution, level: LevelData)
    requires 0 < i < |n.levels| && CombinedUpTo(n.store, i - 1) == Ok(Some(c))
    requires c.NumContributors() < n.levels[i].sendExpectedFullSize
    requires level == UpdateSignature(n.levels[i], c.NumContributors()).1
    ensures UpdateAbove(n, i) == UpdateAbove(n.(levels := n.levels[i := level]), i + 1)
  {
  }

  lemma {:induction false} NotedLevelOk(g: Place, best: map<nat, Contribution>, level: LevelData, size: nat, l: nat)
    requires l < |g.ranges| == |g.orders| && LevelOk(g, best, level, l)
    ensures LevelOk(g, best, UpdateSignature(level, size).1, l)
  {
  }

  /** One level is told about the aggregate below it, which is too small for it to send anything. */
  lemma {:induction false} AnnounceKeepsInv(g: Place, n: Node, i: nat, level: LevelData)
    requires NodeInv(g, n) && 0 < i < |n.levels|
    requires level == UpdateSignature(n.levels[i], |BestUnion(n.store.best, i)|).1
    ensures NodeInv(g, n.(levels := n.levels[i := level]))
    ensures UpdateAbove(n, i) == UpdateAbove(n.(levels := n.levels[i := level]), i + 1)
  {
    assert LevelOk(g, n.store.best, n.levels[i], i);
    CombinedBelow(g, n, i);
    SubsetSize(BestUnion(n.store.best, i), RangesUnion(g.ranges, i));
    AnnounceIsSilent(n, i, Contribution(BestUnion(n.store.best, i)), level);
    NotedLevelOk(g, n.store.best, n.levels[i], |BestUnion(n.store.best, i)|, i);
    SetLevelKeepsInv(g, n, i, level);
  }

  lemma {:induction false} CompleteLevelKeepsInv(g: Place, n: Node, l: nat)
    requires NodeInv(g, n) && l < |n.levels| && |BestAt(n.store.best, l)| == |n.levels[l].peerIds|
    ensures CompleteLevel(n, l).Ok? && NodeInv(g, CompleteLevel(n, l).value) && OnlySends(n, CompleteLevel(n, l).value)
  {
    var done := n.(levels := n.levels[l := n.levels[l].(receiveCompleted := true)]);
    MarkKeepsInv(g, n, l, done);
    if l + 1 < |n.levels| {
      StartLevelKeepsInv(g, done, l + 1);
    }
  }

  lemma {:induction false} MarkKeepsInv(g: Place, n: Node, l: nat, done: Node)
    requires NodeInv(g, n) && l < |n.levels| && |BestAt(n.store.best, l)| == |n.levels[l].peerIds|
    requires done == n.(levels := n.levels[l := n.levels[l].(receiveCompleted := true)])
    ensures NodeInv(g, done) && n.levels[l].id == l
  {
    assert LevelOk(g, n.store.best, n.levels[l], l);
    SetLevelKeepsInv(g, n, l, done.levels[l]);
  }

  lemma {:induction false} ThenUpdateKeepsInv(g: Place, n: Node, n': Node, i: nat)
    requires NodeInv(g, n') && OnlySends(n, n') && i > 0
    ensures UpdateAbove(n', i).Ok? && NodeInv(g, UpdateAbove(n', i).value) && OnlySends(n, UpdateAbove(n', i).value)
  {
    UpdateAboveKeepsInv(g, n', i);
  }

  /** Checking a level that has a best contribution never panics. */
  lemma {:induction false} CheckCompletedKeepsInv(g: Place, n: Node, l: nat)
    requires NodeInv(g, n) && l in n.store.best
    ensures CheckCompleted(n, l).Ok? && NodeInv(g, CheckCompleted(n, l).value) &&
            OnlySends(n, CheckCompleted(n, l).value)
  {
    assert LevelOk(g, n.store.best, n.levels[l], l);
    if !n.levels[l].receiveCompleted {
      if n.store.best[l].NumContributors() == |n.levels[l].peerIds| {
        CompleteLevelKeepsInv(g, n, l);
        ThenUpdateKeepsInv(g, n, CompleteLevel(n, l).value, l + 1);
      } else {
        ThenUpdateKeepsInv(g, n, n, l + 1);
      }
    }
  }

  lemma {:induction false} AutomaticUpdateKeepsInv(g: Place, n: Node, i: nat)
    requires NodeInv(g, n) && i > 0
    ensures AutomaticUpdate(n, i).Ok? && NodeInv(g, AutomaticUpdate(n, i).value) &&
            OnlySends(n, AutomaticUpdate(n, i).value)
    decreases |n.levels| - i
  {
    if i < |n.levels| {
      CombinedBelow(g, n, i);
      assert LevelOk(g, n.store.best, n.levels[i], i);
      var c := Contribution(BestUnion(n.store.best, i));
      SendUpdateKeepsInv(g, n, c, i, n.config.updateCount);
      AutomaticUpdateKeepsInv(g, SendUpdate(n, c, i, n.config.updateCount), i + 1);
    }
  }

  lemma {:induction false} ActivateKeepsInv(g: Place, n: Node)
    requires NodeInv(g, n)
    ensures ActivateNextLevel(n).Ok? && NodeInv(g, ActivateNextLevel(n).value) &&
            OnlySends(n, ActivateNextLevel(n).value)
  {
    if n.nextLevelTimeout < |n.levels| {
      StartLevelKeepsInv(g, n.(nextLevelTimeout := n.nextLevelTimeout + 1), n.nextLevelTimeout);
    }
  }

  /** A contribution stored at its level keeps the levels consistent: a completed level stays complete. */
  lemma {:induction false} PutKeepsLevels(g: Place, n: Node, s: Store, l: nat)
    requires NodeInv(g, n) && StoreInv(g.ranges, s) && l < |g.ranges|
    requires forall j :: 0 <= j < |g.ranges| && j != l ==> BestAt(s.best, j) == BestAt(n.store.best, j)
    requires s.best == n.store.best || |BestAt(s.best, l)| > |BestAt(n.store.best, l)|
    requires 0 in s.best
    requires |g.ranges[l]| <= |g.orders[l]|
    ensures NodeInv(g, n.(store := s))
  {
    forall j | 0 <= j < |n.levels|
      ensures LevelOk(g, s.best, n.levels[j], j)
    {
      assert LevelOk(g, n.store.best, n.levels[j], j);
      if j == l && l in s.best {
        SubsetSize(s.best[l].contributors, g.ranges[l]);
      }
    }
  }

  /** Aggregating a contribution of its level never panics and yields the union of all bests. */
  lemma {:induction false} HandleTodoKeepsInv(g: Place, n: Node, t: TodoItem)
    requires NodeInv(g, n) && TodoOk(g, t) && |g.ranges[t.level]| <= |g.orders[t.level]|
    ensures HandleTodo(n, t).Ok?
    ensures var r := HandleTodo(n, t).value;
            && NodeInv(g, r.node)
            && PutInto(n.store, t.contribution, t.level) == Ok(r.node.store)
            && OnlySends(n.(store := r.node.store), r.node)
            && r.best == Some(Contribution(BestUnion(r.node.store.best, |g.ranges|)))
  {
    PutKeepsNode(g, n, t);
    AfterPutKeepsInv(g, n.(store := PutInto(n.store, t.contribution, t.level).value), t.level);
  }

  lemma {:induction false} PutKeepsNode(g: Place, n: Node, t: TodoItem)
    requires NodeInv(g, n) && TodoOk(g, t) && |g.ranges[t.level]| <= |g.orders[t.level]|
    ensures PutInto(n.store, t.contribution, t.level).Ok?
    ensures var s := PutInto(n.store, t.contribution, t.level).value;
            NodeInv(g, n.(store := s)) && t.level in s.best
  {
    PutKeepsInv(g.ranges, n.store, t.contribution, t.level);
    PutKeepsLevels(g, n, PutInto(n.store, t.contribution, t.level).value, t.level);
  }

  lemma {:induction false} AfterPutKeepsInv(g: Place, n: Node, l: nat)
    requires NodeInv(g, n) && l in n.store.best
    ensures AfterPut(n, l).Ok?
    ensures var r := AfterPut(n, l).value;
            && NodeInv(g, r.node) && OnlySends(n, r.node)
            && r.best == Some(Contribution(BestUnion(n.store.best, |g.ranges|)))
  {
    StartLevelKeepsInv(g, n, l);
    var started := StartLevel(n, l).value;
    CheckCompletedKeepsInv(g, started, l);
    var n' := CheckCompleted(started, l).value;
    assert LevelOk(g, n'.store.best, n'.levels[|n'.levels| - 1], |n'.levels| - 1);
    CombinedBelow(g, n', |g.ranges|);
  }
}
