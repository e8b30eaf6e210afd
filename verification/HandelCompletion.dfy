/** When a level counts as completed (handel/src/aggregation.rs, `check_completed_level`). */
module AggregationCompletion {
  import opened Prelude
  import opened Contributions
  import opened ContributionStore
  import opened TodoLists
  import opened Levels
  import opened Aggregation
  import opened AggregationInvariant

  /** A level that has heard from as many identifiers as it has peers is marked as completed. */
  ghost predicate MarkedAt(best: map<nat, Contribution>, level: LevelData, l: nat) {
    |BestAt(best, l)| == |level.peerIds| ==> level.receiveCompleted
  }

  ghost predicate Marked(n: Node) {
    forall l :: 0 <= l < |n.levels| ==> MarkedAt(n.store.best, n.levels[l], l)
  }

  ghost predicate MarkedExcept(n: Node, except: nat) {
    forall l :: 0 <= l < |n.levels| && l != except ==> MarkedAt(n.store.best, n.levels[l], l)
  }

  /** Two states of a level with the same peers and the same mark. */
  predicate SameMark(a: LevelData, b: LevelData) {
    a.id == b.id && a.peerIds == b.peerIds && a.receiveCompleted == b.receiveCompleted
  }

  ghost predicate SameMarks(a: seq<LevelData>, b: seq<LevelData>) {
    |a| == |b| && forall l :: 0 <= l < |a| ==> SameMark(a[l], b[l])
  }

  lemma {:induction false} MarksFollow(a: seq<LevelData>, b: seq<LevelData>, c: seq<LevelData>)
    requires SameMarks(a, b) && SameMarks(b, c)
    ensures SameMarks(a, c)
  {
    forall l | 0 <= l < |a|
      ensures SameMark(a[l], c[l])
    {
      assert SameMark(a[l], b[l]) && SameMark(b[l], c[l]);
    }
  }

  /** Nothing but the mark of level l has changed, and that only if the level is full. */
  ghost predicate Gains(a: seq<LevelData>, b: seq<LevelData>, l: nat, full: bool) {
    |a| == |b| &&
    forall j :: 0 <= j < |a| ==>
      SameMark(a[j].(receiveCompleted := a[j].receiveCompleted || (j == l && full)), b[j])
  }

  lemma {:induction false} GainsFollow(a: seq<LevelData>, b: seq<LevelData>, c: seq<LevelData>, d: seq<LevelData>,
                                       l: nat, full: bool)
    requires SameMarks(a, b) && Gains(b, c, l, full) && SameMarks(c, d)
    ensures Gains(a, d, l, full)
  {
    forall j | 0 <= j < |a|
      ensures SameMark(a[j].(receiveCompleted := a[j].receiveCompleted || (j == l && full)), d[j])
    {
      assert SameMark(a[j], b[j]) && SameMark(c[j], d[j]);
      assert SameMark(b[j].(receiveCompleted := b[j].receiveCompleted || (j == l && full)), c[j]);
    }
  }

  lemma {:induction false} MarksSame(a: seq<LevelData>)
    ensures SameMarks(a, a)
  {
  }

  lemma {:induction false} MarkingGains(levels: seq<LevelData>, l: nat)
    requires l < |levels|
    ensures Gains(levels, levels[l := levels[l].(receiveCompleted := true)], l, true)
  {
  }

  lemma {:induction false} NothingGained(levels: seq<LevelData>, l: nat, full: bool)
    requires l < |levels| && (full ==> levels[l].receiveCompleted)
    ensures Gains(levels, levels, l, full)
  {
  }

  lemma {:induction false} MarksCarry(n: Node, n': Node, except: nat)
    requires MarkedExcept(n, except) && n'.store == n.store && SameMarks(n.levels, n'.levels)
    ensures MarkedExcept(n', except)
  {
    forall l | 0 <= l < |n'.levels| && l != except
      ensures MarkedAt(n'.store.best, n'.levels[l], l)
    {
      assert SameMark(n.levels[l], n'.levels[l]) && MarkedAt(n.store.best, n.levels[l], l);
    }
  }

  lemma {:induction false} SetLevelMarks(levels: seq<LevelData>, l: nat, level: LevelData)
    requires l < |levels| && SameMark(levels[l], level)
    ensures SameMarks(levels, levels[l := level])
  {
  }

  lemma {:induction false} SendUpdateMarks(n: Node, c: Contribution, l: nat, count: nat)
    requires l < |n.levels|
    ensures SameMarks(n.levels, SendUpdate(n, c, l, count).levels)
  {
    SetLevelMarks(n.levels, l, SelectPeers(n.levels[l], count).1);
  }

  lemma {:induction false} StartLevelMarks(n: Node, l: nat)
    requires StartLevel(n, l).Ok?
    ensures SameMarks(n.levels, StartLevel(n, l).value.levels) && StartLevel(n, l).value.store == n.store
  {
    var level := n.levels[l].(sendStarted := true);
    SetLevelMarks(n.levels, l, level);
    var n' := n.(levels := n.levels[l := level]);
    if n.levels[l].id > 0 {
      var best := CombinedUpTo(n.store, n.levels[l].id - 1).value;
      if best.Some? {
        SendUpdateMarks(n', best.value, l, n.config.peerCount);
        MarksFollow(n.levels, n'.levels, StartLevel(n, l).value.levels);
      }
    }
  }

  lemma {:induction false} UpdateAboveNext(n: Node, i: nat) returns (n': Node)
    requires 0 < i < |n.levels| && UpdateAbove(n, i).Ok?
    ensures UpdateAbove(n, i) == UpdateAbove(n', i + 1) && SameMarks(n.levels, n'.levels) && n'.store == n.store
  {
    var combined := CombinedUpTo(n.store, i - 1).value;
    if combined.None? {
      MarksSame(n.levels);
      n' := n;
    } else {
      AnnouncedMarks(n, i, combined.value);
      n' := Announced(n, i, combined.value);
    }
  }

  lemma {:induction false} UpdateAboveMarks(n: Node, i: nat)
    requires i > 0 && UpdateAbove(n, i).Ok?
    ensures SameMarks(n.levels, UpdateAbove(n, i).value.levels) && UpdateAbove(n, i).value.store == n.store
    decreases |n.levels| - i
  {
    if i < |n.levels| {
      var n' := UpdateAboveNext(n, i);
      UpdateAboveMarks(n', i + 1);
      MarksFollow(n.levels, n'.levels, UpdateAbove(n, i).value.levels);
    } else {
      MarksSame(n.levels);
    }
  }

  /** One level told about the aggregate below it. */
  function Announced(n: Node, i: nat, c: Contribution): Node
    requires i < |n.levels|
  {
    var (send, level) := UpdateSignature(n.levels[i], c.NumContributors());
    var n' := n.(levels := n.levels[i := level]);
    if send then SendUpdate(n', c, i, n.config.peerCount) else n'
  }

  lemma {:induction false} AnnouncedMarks(n: Node, i: nat, c: Contribution)
    requires i < |n.levels|
    ensures SameMarks(n.levels, Announced(n, i, c).levels) && Announced(n, i, c).store == n.store
  {
    var (send, level) := UpdateSignature(n.levels[i], c.NumContributors());
    SetLevelMarks(n.levels, i, level);
    var n' := n.(levels := n.levels[i := level]);
    if send {
      SendUpdateMarks(n', c, i, n.config.peerCount);
      MarksFollow(n.levels, n'.levels, Announced(n, i, c).levels);
    }
  }

  lemma {:induction false} AutomaticUpdateMarks(n: Node, i: nat)
    requires AutomaticUpdate(n, i).Ok?
    ensures SameMarks(n.levels, AutomaticUpdate(n, i).value.levels) && AutomaticUpdate(n, i).value.store == n.store
    decreases |n.levels| - i
  {
    if i < |n.levels| {
      var aggregate := CombinedUpTo(n.store, n.levels[i].id - 1).value;
      if aggregate.None? {
        AutomaticUpdateMarks(n, i + 1);
      } else {
        var n' := SendUpdate(n, aggregate.value, i, n.config.updateCount);
        SendUpdateMarks(n, aggregate.value, i, n.config.updateCount);
        AutomaticUpdateMarks(n', i + 1);
        MarksFollow(n.levels, n'.levels, AutomaticUpdate(n', i + 1).value.levels);
      }
    }
  }

  ghost predicate Full(n: Node, l: nat)
    requires l < |n.levels|
  {
    |BestAt(n.store.best, l)| == |n.levels[l].peerIds|
  }

  lemma {:induction false} CompleteLevelMarks(n: Node, l: nat)
    requires l < |n.levels| && CompleteLevel(n, l).Ok?
    ensures Gains(n.levels, CompleteLevel(n, l).value.levels, l, true) && CompleteLevel(n, l).value.store == n.store
  {
    var done := n.(levels := n.levels[l := n.levels[l].(receiveCompleted := true)]);
    MarksSame(n.levels);
    MarksSame(done.levels);
    MarkingGains(n.levels, l);
    if n.levels[l].id + 1 < |n.levels| {
      StartLevelMarks(done, n.levels[l].id + 1);
    }
    GainsFollow(n.levels, n.levels, done.levels, CompleteLevel(n, l).value.levels, l, true);
  }

  lemma {:induction false} UpdatedGains(n: Node, n': Node, l: nat, full: bool)
    requires Gains(n.levels, n'.levels, l, full) && UpdateAbove(n', l + 1).Ok?
    ensures Gains(n.levels, UpdateAbove(n', l + 1).value.levels, l, full)
    ensures UpdateAbove(n', l + 1).value.store == n'.store
  {
    MarksSame(n.levels);
    UpdateAboveMarks(n', l + 1);
    GainsFollow(n.levels, n.levels, n'.levels, UpdateAbove(n', l + 1).value.levels, l, full);
  }

  /** An open level is completed if it is full, and the levels above are told. */
  lemma {:induction false} OpenLevelCheck(n: Node, l: nat)
    requires CheckCompleted(n, l).Ok? && n.levels[l].id == l && !n.levels[l].receiveCompleted
    ensures Full(n, l) ==>
              CompleteLevel(n, l).Ok? && CheckCompleted(n, l) == UpdateAbove(CompleteLevel(n, l).value, l + 1)
    ensures !Full(n, l) ==> CheckCompleted(n, l) == UpdateAbove(n, l + 1)
  {
  }

  /** Checking a level marks it exactly if it has heard from everyone, and leaves every other mark as it was. */
  lemma {:induction false} CheckCompletedMarks(n: Node, l: nat)
    requires CheckCompleted(n, l).Ok? && n.levels[l].id == l
    ensures Gains(n.levels, CheckCompleted(n, l).value.levels, l, Full(n, l))
    ensures CheckCompleted(n, l).value.store == n.store
  {
    if n.levels[l].receiveCompleted {
      NothingGained(n.levels, l, Full(n, l));
    } else {
      OpenLevelCheck(n, l);
      if Full(n, l) {
        CompleteLevelMarks(n, l);
        UpdatedGains(n, CompleteLevel(n, l).value, l, true);
      } else {
        NothingGained(n.levels, l, false);
        UpdatedGains(n, n, l, false);
      }
    }
  }

  /** So full levels are marked again, wherever only level l was not. */
  lemma {:induction false} GainedMarks(n: Node, n': Node, l: nat)
    requires MarkedExcept(n, l) && n'.store == n.store && l < |n.levels| && Gains(n.levels, n'.levels, l, Full(n, l))
    ensures Marked(n')
  {
    forall j | 0 <= j < |n'.levels|
      ensures MarkedAt(n'.store.best, n'.levels[j], j)
    {
      assert SameMark(n.levels[j].(receiveCompleted := n.levels[j].receiveCompleted || (j == l && Full(n, l))),
                      n'.levels[j]);
      assert j != l ==> MarkedAt(n.store.best, n.levels[j], j);
    }
  }

  lemma {:induction false} ActivateMarks(n: Node)
    requires ActivateNextLevel(n).Ok? && Marked(n)
    ensures Marked(ActivateNextLevel(n).value)
  {
    if n.nextLevelTimeout < |n.levels| {
      var n' := n.(nextLevelTimeout := n.nextLevelTimeout + 1);
      StartLevelMarks(n', n.nextLevelTimeout);
      MarksCarry(n', ActivateNextLevel(n).value, |n.levels|);
    }
  }

  lemma {:induction false} PeriodicMarks(n: Node)
    requires AutomaticUpdate(n, 1).Ok? && Marked(n)
    ensures Marked(AutomaticUpdate(n, 1).value)
  {
    AutomaticUpdateMarks(n, 1);
    MarksCarry(n, AutomaticUpdate(n, 1).value, |n.levels|);
  }

  /** Putting changes the best of one level only. */
  lemma {:induction false} PutElsewhere(ranges: seq<set<nat>>, s: Store, s': Store, c: Contribution, level: nat, l: nat)
    requires StoreInv(ranges, s) && level < |ranges| && {} != c.contributors <= ranges[level]
    requires PutInto(s, c, level) == Ok(s') && l != level
    ensures BestAt(s'.best, l) == BestAt(s.best, l)
  {
    PutKeepsInv(ranges, s, c, level);
  }

  /** Handling an item marks its level exactly if that has filled up, and leaves every other mark as it was. */
  lemma {:induction false} HandleTodoMarks(g: Place, n: Node, t: TodoItem)
    requires NodeInv(g, n) && Marked(n) && TodoOk(g, t) && HandleTodo(n, t).Ok?
    ensures Marked(HandleTodo(n, t).value.node)
    ensures Gains(n.levels, HandleTodo(n, t).value.node.levels, t.level,
                  |BestAt(HandleTodo(n, t).value.node.store.best, t.level)| == |n.levels[t.level].peerIds|)
  {
    var s := PutInto(n.store, t.contribution, t.level).value;
    assert MarkedExcept(n.(store := s), t.level) by {
      forall l: nat | l != t.level
        ensures BestAt(s.best, l) == BestAt(n.store.best, l)
      {
        PutElsewhere(g.ranges, n.store, s, t.contribution, t.level, l);
      }
      PutMarks(n, s, t.level);
    }
    assert LevelOk(g, n.store.best, n.levels[t.level], t.level);
    AfterPutMarks(n.(store := s), t.level);
    GainedMarks(n.(store := s), HandleTodo(n, t).value.node, t.level);
  }

  lemma {:induction false} PutMarks(n: Node, s: Store, level: nat)
    requires Marked(n) && forall l: nat :: l != level ==> BestAt(s.best, l) == BestAt(n.store.best, l)
    ensures MarkedExcept(n.(store := s), level)
  {
    forall l | 0 <= l < |n.levels| && l != level
      ensures MarkedAt(s.best, n.levels[l], l)
    {
      assert MarkedAt(n.store.best, n.levels[l], l);
    }
  }

  lemma {:induction false} AfterPutMarks(n: Node, l: nat)
    requires AfterPut(n, l).Ok? && n.levels[l].id == l
    ensures Gains(n.levels, AfterPut(n, l).value.node.levels, l, Full(n, l)) &&
            AfterPut(n, l).value.node.store == n.store
  {
    var started := StartLevel(n, l).value;
    StartLevelMarks(n, l);
    assert SameMark(n.levels[l], started.levels[l]);
    CheckCompletedMarks(started, l);
    var checked := CheckCompleted(started, l).value;
    MarksSame(checked.levels);
    GainsFollow(n.levels, started.levels, checked.levels, checked.levels, l, Full(n, l));
  }
}
