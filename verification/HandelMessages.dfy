/** What a node sends, to whom and when (handel/src/aggregation.rs, `send_update` and its callers). */
module AggregationMessages {
  import opened Prelude
  import opened Sets
  import opened Contributions
  import opened ContributionStore
  import opened TodoLists
  import opened Levels
  import opened Aggregation
  import opened AggregationInvariant
  import opened AggregationCompletion

  function Fewer(m: nat, n: nat): nat {
    if m <= n then m else n
  }

  /** The update a node sends for a level: an aggregate, and its own contribution until the level is complete. */
  function UpdateFor(n: Node, l: nat, c: Contribution): LevelUpdate
    requires l < |n.levels|
  {
    LevelUpdate(c, if n.levels[l].receiveCompleted then None else Some(Contribution({n.p.nodeId})), l, n.p.nodeId)
  }

  /** All a node has below a level. */
  function Below(n: Node, l: nat): Contribution {
    Contribution(BestUnion(n.store.best, l))
  }

  /** The i-th peer of a level whose turn it is. */
  function PeerInTurn(level: LevelData, i: nat): nat
    requires i < |level.peerIds|
  {
    Levels.Turn(level.peerIds, level.sendPeersPos)[i]
  }

  /** Exactly one message to each of the next peers in turn has been appended. */
  ghost predicate SendsUpdate(n: Node, n': Node, l: nat, c: Contribution, count: nat)
    requires l < |n.levels|
  {
    var k := Fewer(count, |n.levels[l].peerIds|);
    && |n'.sent| == |n.sent| + k && n.sent <= n'.sent
    && forall i :: 0 <= i < k ==> n'.sent[|n.sent| + i] == Message(UpdateFor(n, l, c), PeerInTurn(n.levels[l], i))
  }

  /** Apart from what it sends, the node has only moved on to the next peers of the level. */
  ghost predicate Advances(n: Node, n': Node, l: nat, count: nat)
    requires l < |n.levels|
  {
    n' == n.(levels := n.levels[l := SelectPeers(n.levels[l], count).1], sent := n'.sent)
  }

  /** Sending an update: one message per peer in turn, with the aggregate, the level and the sender. */
  lemma {:induction false} SendUpdateSends(g: Place, n: Node, c: Contribution, l: nat, count: nat)
    requires NodeInv(g, n) && 0 < l < |n.levels|
    ensures SendsUpdate(n, SendUpdate(n, c, l, count), l, c, count) && Advances(n, SendUpdate(n, c, l, count), l, count)
  {
    assert LevelOk(g, n.store.best, n.levels[l], l);
    var peers := SelectPeers(n.levels[l], count).0;
    forall i | 0 <= i < |peers|
      ensures peers[i] == PeerInTurn(n.levels[l], i)
    {
      FirstChoices(n.levels[l], count, i);
    }
  }

  // ---------- starting a level ----------

  lemma {:induction false} StartLevelIs(g: Place, n: Node, l: nat, started: Node)
    requires NodeInv(g, n) && 0 < l < |n.levels|
    requires started == n.(levels := n.levels[l := n.levels[l].(sendStarted := true)])
    ensures StartLevel(n, l) == Ok(SendUpdate(started, Below(n, l), l, n.config.peerCount)) && NodeInv(g, started)
  {
    assert LevelOk(g, n.store.best, n.levels[l], l);
    CombinedBelow(g, n, l);
    SetLevelKeepsInv(g, n, l, n.levels[l].(sendStarted := true));
  }

  /** What is sent depends on the peers and the mark of the level only. */
  lemma {:induction false} SendsAlike(n: Node, m: Node, n': Node, l: nat, c: Contribution, count: nat)
    requires l < |n.levels| == |m.levels| && m.p == n.p && m.sent == n.sent && SendsUpdate(m, n', l, c, count)
    requires m.levels[l].(sendStarted := true) == n.levels[l].(sendStarted := true)
    ensures SendsUpdate(n, n', l, c, count)
  {
    forall i | 0 <= i < Fewer(count, |n.levels[l].peerIds|)
      ensures n'.sent[|n.sent| + i] == Message(UpdateFor(n, l, c), PeerInTurn(n.levels[l], i))
    {
      assert n'.sent[|m.sent| + i] == Message(UpdateFor(m, l, c), PeerInTurn(m.levels[l], i));
    }
  }

  /** Only one level changes, and it is started. */
  ghost predicate OnlyStarts(n: Node, n': Node, l: nat)
    requires l < |n.levels|
  {
    && |n'.levels| == |n.levels| && n'.levels[l].sendStarted
    && (forall k :: 0 <= k < |n.levels| && k != l ==> n'.levels[k] == n.levels[k])
    && n' == n.(levels := n'.levels, sent := n'.sent)
  }

  /** Starting a level tells the next peers all the node has below it; level 0 has nobody to tell. */
  lemma {:induction false} StartLevelSends(g: Place, n: Node, l: nat)
    requires NodeInv(g, n) && l < |n.levels|
    ensures StartLevel(n, l).Ok? && OnlyStarts(n, StartLevel(n, l).value, l)
    ensures l > 0 ==> SendsUpdate(n, StartLevel(n, l).value, l, Below(n, l), n.config.peerCount)
    ensures l == 0 ==> StartLevel(n, l).value.sent == n.sent
  {
    if l > 0 {
      var started := n.(levels := n.levels[l := n.levels[l].(sendStarted := true)]);
      StartLevelIs(g, n, l, started);
      SendUpdateSends(g, started, Below(n, l), l, n.config.peerCount);
      SendsAlike(n, started, StartLevel(n, l).value, l, Below(n, l), n.config.peerCount);
    } else {
      assert LevelOk(g, n.store.best, n.levels[l], l);
    }
  }

  /** The next timeout starts the next level, in order, and no other. */
  lemma {:induction false} TimeoutStarts(g: Place, n: Node)
    requires NodeInv(g, n)
    ensures ActivateNextLevel(n).Ok?
    ensures var t, n' := n.nextLevelTimeout, ActivateNextLevel(n).value;
            if t < |n.levels| then
              && n'.nextLevelTimeout == t + 1 && |n'.levels| == |n.levels| && n'.levels[t].sendStarted
              && (forall k :: 0 <= k < |n.levels| && k != t ==> n'.levels[k] == n.levels[k])
              && (if t > 0 then SendsUpdate(n, n', t, Below(n, t), n.config.peerCount) else n'.sent == n.sent)
            else n' == n
  {
    var t := n.nextLevelTimeout;
    if t < |n.levels| {
      StartLevelSends(g, n.(nextLevelTimeout := t + 1), t);
    }
  }

  /** A series of timeouts. */
  function Timeouts(n: Node, k: nat): Outcome<Node> {
    if k == 0 then Ok(n)
    else
      var before :- Timeouts(n, k - 1);
      ActivateNextLevel(before)
  }

  /** After k timeouts the next k levels have been started by them, in order, and no others. */
  lemma {:induction false} TimeoutsStart(g: Place, n: Node, k: nat)
    requires NodeInv(g, n)
    ensures Timeouts(n, k).Ok? && NodeInv(g, Timeouts(n, k).value)
    ensures var n', t := Timeouts(n, k).value, n.nextLevelTimeout;
            && n'.nextLevelTimeout == (if t >= |n.levels| then t else Fewer(t + k, |n.levels|))
            && |n'.levels| == |n.levels| && n.sent <= n'.sent
            && forall l :: 0 <= l < |n.levels| ==>
                 n'.levels[l].sendStarted == (n.levels[l].sendStarted || t <= l < t + k)
  {
    if k > 0 {
      TimeoutsStart(g, n, k - 1);
      var before := Timeouts(n, k - 1).value;
      TimeoutStarts(g, before);
      ActivateKeepsInv(g, before);
    }
  }

  // ---------- periodic updates ----------

  ghost predicate Has(n: Node, m: Message) {
    m in n.sent
  }

  /** The next peers of a level have been sent all that the node has below it. */
  ghost predicate Told(n: Node, n': Node, l: nat, count: nat)
    requires l < |n.levels|
  {
    forall i :: 0 <= i < Fewer(count, |n.levels[l].peerIds|) ==>
      Has(n', Message(UpdateFor(n, l, Below(n, l)), PeerInTurn(n.levels[l], i)))
  }

  lemma {:induction false} SentIsTold(n: Node, n': Node, n'': Node, l: nat, count: nat)
    requires l < |n.levels| && SendsUpdate(n, n', l, Below(n, l), count) && n'.sent <= n''.sent
    ensures Told(n, n'', l, count)
  {
    forall i | 0 <= i < Fewer(count, |n.levels[l].peerIds|)
      ensures Has(n'', Message(UpdateFor(n, l, Below(n, l)), PeerInTurn(n.levels[l], i)))
    {
      assert n''.sent[|n.sent| + i] == n'.sent[|n.sent| + i];
    }
  }

  lemma {:induction false} ToldCarries(n: Node, n': Node, n'': Node, l: nat, count: nat)
    requires l < |n.levels| == |n'.levels| && n'.levels[l] == n.levels[l] && n'.p == n.p && n'.store == n.store
    requires Told(n', n'', l, count)
    ensures Told(n, n'', l, count)
  {
    forall i | 0 <= i < Fewer(count, |n.levels[l].peerIds|)
      ensures Has(n'', Message(UpdateFor(n, l, Below(n, l)), PeerInTurn(n.levels[l], i)))
    {
      assert Has(n'', Message(UpdateFor(n', l, Below(n', l)), PeerInTurn(n'.levels[l], i)));
    }
  }

  /** How many messages a periodic update of the levels from i on takes. */
  function PeriodicSize(levels: seq<LevelData>, count: nat, i: nat): nat
    decreases |levels| - i
  {
    if i >= |levels| then 0 else Fewer(count, |levels[i].peerIds|) + PeriodicSize(levels, count, i + 1)
  }

  lemma {:induction false} SizeAbove(a: seq<LevelData>, b: seq<LevelData>, count: nat, i: nat)
    requires |a| == |b| && forall l :: i <= l < |a| ==> a[l] == b[l]
    ensures PeriodicSize(a, count, i) == PeriodicSize(b, count, i)
    decreases |a| - i
  {
    if i < |a| {
      SizeAbove(a, b, count, i + 1);
    }
  }

  /** Every level from i on has moved on to its next peers. */
  ghost predicate MovedOn(n: Node, n': Node, i: nat) {
    && |n'.levels| == |n.levels| && n' == n.(levels := n'.levels, sent := n'.sent) && n.sent <= n'.sent
    && (forall l :: 0 <= l < |n.levels| && l < i ==> n'.levels[l] == n.levels[l])
    && (forall l :: i <= l < |n.levels| ==> n'.levels[l] == SelectPeers(n.levels[l], n.config.updateCount).1)
  }

  lemma {:induction false} AutomaticUpdateNext(g: Place, n: Node, i: nat, n1: Node)
    requires NodeInv(g, n) && 0 < i < |n.levels| && n1 == SendUpdate(n, Below(n, i), i, n.config.updateCount)
    ensures AutomaticUpdate(n, i) == AutomaticUpdate(n1, i + 1) && NodeInv(g, n1)
    ensures SendsUpdate(n, n1, i, Below(n, i), n.config.updateCount) && Advances(n, n1, i, n.config.updateCount)
  {
    CombinedBelow(g, n, i);
    assert LevelOk(g, n.store.best, n.levels[i], i);
    SendUpdateKeepsInv(g, n, Below(n, i), i, n.config.updateCount);
    SendUpdateSends(g, n, Below(n, i), i, n.config.updateCount);
  }

  lemma {:induction false} AdvanceMovesOn(n: Node, n1: Node, n': Node, i: nat)
    requires i < |n.levels| && Advances(n, n1, i, n.config.updateCount) && n.sent <= n1.sent && MovedOn(n1, n', i + 1)
    ensures MovedOn(n, n', i)
  {
  }

  /** A periodic update tells the next peers of every level all the node has below it, and nothing else. */
  lemma {:induction false} AutomaticUpdateSends(g: Place, n: Node, i: nat)
    requires NodeInv(g, n) && i > 0
    ensures AutomaticUpdate(n, i).Ok? && MovedOn(n, AutomaticUpdate(n, i).value, i)
    ensures |AutomaticUpdate(n, i).value.sent| == |n.sent| + PeriodicSize(n.levels, n.config.updateCount, i)
    ensures forall l :: i <= l < |n.levels| ==> Told(n, AutomaticUpdate(n, i).value, l, n.config.updateCount)
    decreases |n.levels| - i
  {
    if i < |n.levels| {
      var count := n.config.updateCount;
      var n1 := SendUpdate(n, Below(n, i), i, count);
      AutomaticUpdateNext(g, n, i, n1);
      AutomaticUpdateSends(g, n1, i + 1);
      var n' := AutomaticUpdate(n1, i + 1).value;
      AdvanceMovesOn(n, n1, n', i);
      SizeAbove(n.levels, n1.levels, count, i + 1);
      SentIsTold(n, n1, n', i, count);
      forall l | i < l < |n.levels|
        ensures Told(n, n', l, count)
      {
        ToldCarries(n, n1, n', l, count);
      }
    }
  }

  // ---------- nothing else is sent ----------

  /** A message that tells a peer of a level all the node has below it. */
  ghost predicate IsNews(n: Node, m: Message, l: nat) {
    0 < l < |n.levels| && m.to in n.levels[l].peerIds && m.update == UpdateFor(n, l, Below(n, l))
  }

  ghost predicate NewsOnly(n: Node, n': Node) {
    forall m :: m in n'.sent ==> m in n.sent || exists l :: IsNews(n, m, l)
  }

  lemma {:induction false} InTurn(level: LevelData, i: nat)
    requires i < |level.peerIds|
    ensures PeerInTurn(level, i) in level.peerIds
  {
  }

  lemma {:induction false} SendsNews(n: Node, n': Node, l: nat, count: nat)
    requires 0 < l < |n.levels| && SendsUpdate(n, n', l, Below(n, l), count)
    ensures NewsOnly(n, n')
  {
    forall m | m in n'.sent && m !in n.sent
      ensures IsNews(n, m, l)
    {
      var j :| 0 <= j < |n'.sent| && n'.sent[j] == m;
      assert forall k :: 0 <= k < |n.sent| ==> n'.sent[k] in n.sent;
      var i := j - |n.sent|;
      assert n'.sent[|n.sent| + i] == Message(UpdateFor(n, l, Below(n, l)), PeerInTurn(n.levels[l], i));
      InTurn(n.levels[l], i);
    }
  }

  /** Levels with the same peers and marks have the same news. */
  ghost predicate SameNews(n: Node, n': Node) {
    && n'.p == n.p && n'.store == n.store && |n'.levels| == |n.levels|
    && forall l :: 0 <= l < |n.levels| ==> SameLevel(n.levels[l], n'.levels[l])
  }

  ghost predicate SameLevel(a: LevelData, b: LevelData) {
    a.peerIds == b.peerIds && a.receiveCompleted == b.receiveCompleted
  }

  lemma {:induction false} NewsStays(n: Node, n': Node, m: Message, l: nat)
    requires SameNews(n, n')
    ensures IsNews(n, m, l) <==> IsNews(n', m, l)
  {
    if l < |n.levels| {
      assert SameLevel(n.levels[l], n'.levels[l]);
    }
  }

  lemma {:induction false} NewsFollow(n: Node, n1: Node, n': Node)
    requires NewsOnly(n, n1) && SameNews(n, n1) && NewsOnly(n1, n')
    ensures NewsOnly(n, n')
  {
    forall m | m in n'.sent && m !in n.sent
      ensures exists l :: IsNews(n, m, l)
    {
      if m !in n1.sent {
        var l :| IsNews(n1, m, l);
        NewsStays(n, n1, m, l);
      }
    }
  }

  lemma {:induction false} MovedOnSameNews(n: Node, n': Node, i: nat)
    requires MovedOn(n, n', i)
    ensures SameNews(n, n')
  {
  }

  lemma {:induction false} AdvancesSameNews(n: Node, n': Node, l: nat, count: nat)
    requires l < |n.levels| && Advances(n, n', l, count)
    ensures SameNews(n, n')
  {
  }

  lemma {:induction false} AutomaticUpdateOnlyNews(g: Place, n: Node, i: nat)
    requires NodeInv(g, n) && i > 0
    ensures AutomaticUpdate(n, i).Ok? && NewsOnly(n, AutomaticUpdate(n, i).value) &&
            SameNews(n, AutomaticUpdate(n, i).value)
    decreases |n.levels| - i
  {
    AutomaticUpdateSends(g, n, i);
    MovedOnSameNews(n, AutomaticUpdate(n, i).value, i);
    if i < |n.levels| {
      var n1 := SendUpdate(n, Below(n, i), i, n.config.updateCount);
      AutomaticUpdateNext(g, n, i, n1);
      SendsNews(n, n1, i, n.config.updateCount);
      AdvancesSameNews(n, n1, i, n.config.updateCount);
      AutomaticUpdateOnlyNews(g, n1, i + 1);
      NewsFollow(n, n1, AutomaticUpdate(n1, i + 1).value);
    }
  }

  lemma {:induction false} StartLevelOnlyNews(g: Place, n: Node, l: nat)
    requires NodeInv(g, n) && l < |n.levels|
    ensures StartLevel(n, l).Ok? && NewsOnly(n, StartLevel(n, l).value) && SameNews(n, StartLevel(n, l).value)
  {
    StartLevelSends(g, n, l);
    if l > 0 {
      var started := n.(levels := n.levels[l := n.levels[l].(sendStarted := true)]);
      StartLevelIs(g, n, l, started);
      SendUpdateSends(g, started, Below(n, l), l, n.config.peerCount);
      AdvancesSameNews(started, StartLevel(n, l).value, l, n.config.peerCount);
      SendsNews(n, StartLevel(n, l).value, l, n.config.peerCount);
    } else {
      assert LevelOk(g, n.store.best, n.levels[l], l);
    }
  }

  lemma {:induction false} TimeoutOnlyNews(g: Place, n: Node)
    requires NodeInv(g, n)
    ensures ActivateNextLevel(n).Ok? && NewsOnly(n, ActivateNextLevel(n).value) &&
            SameNews(n, ActivateNextLevel(n).value)
  {
    if n.nextLevelTimeout < |n.levels| {
      var n' := n.(nextLevelTimeout := n.nextLevelTimeout + 1);
      StartLevelOnlyNews(g, n', n.nextLevelTimeout);
      assert SameNews(n, n') && NewsOnly(n, n');
      NewsFollow(n, n', StartLevel(n', n.nextLevelTimeout).value);
    }
  }

  // ---------- periodic updates in a row ----------

  function Repeat(step: Node -> Outcome<Node>, n: Node, k: nat): Outcome<Node>
    decreases k
  {
    if k == 0 then Ok(n)
    else
      var next :- step(n);
      Repeat(step, next, k - 1)
  }

  const PeriodicUpdate: Node -> Outcome<Node> := (n: Node) => AutomaticUpdate(n, 1)

  /** The same number of choices, k times. */
  function Repeated(count: nat, k: nat): seq<nat> {
    if k == 0 then [] else [count] + Repeated(count, k - 1)
  }

  lemma {:induction false} ChoicesAdvance(l: LevelData, count: nat, k: nat)
    requires l.id > 0 && count > 0 && l.peerIds != []
    ensures |Chosen(l, Repeated(count, k))| >= k
    decreases k
  {
    if k > 0 {
      assert Repeated(count, k)[1..] == Repeated(count, k - 1);
      ChoicesAdvance(SelectPeers(l, count).1, count, k - 1);
    }
  }

  lemma {:induction false} FirstAreTold(g: Place, n: Node, l: nat, peer: nat)
    requires NodeInv(g, n) && 0 < l < |n.levels| && peer in SelectPeers(n.levels[l], n.config.updateCount).0
    ensures AutomaticUpdate(n, 1).Ok? && Has(AutomaticUpdate(n, 1).value, Message(UpdateFor(n, l, Below(n, l)), peer))
  {
    var count, level := n.config.updateCount, n.levels[l];
    assert LevelOk(g, n.store.best, level, l);
    AutomaticUpdateSends(g, n, 1);
    var i :| 0 <= i < |SelectPeers(level, count).0| && SelectPeers(level, count).0[i] == peer;
    FirstChoices(level, count, i);
    assert Told(n, AutomaticUpdate(n, 1).value, l, count);
    assert Has(AutomaticUpdate(n, 1).value, Message(UpdateFor(n, l, Below(n, l)), PeerInTurn(level, i)));
  }

  lemma {:induction false} PeriodicNext(g: Place, n: Node, l: nat, next: Node)
    requires NodeInv(g, n) && 0 < l < |n.levels| && AutomaticUpdate(n, 1) == Ok(next)
    ensures NodeInv(g, next) && l < |next.levels| && next.config == n.config
    ensures next.levels[l] == SelectPeers(n.levels[l], n.config.updateCount).1
    ensures UpdateFor(next, l, Below(next, l)) == UpdateFor(n, l, Below(n, l))
  {
    AutomaticUpdateSends(g, n, 1);
    AutomaticUpdateKeepsInv(g, n, 1);
  }

  lemma {:induction false} ChosenNext(l: LevelData, count: nat, k: nat, peer: nat)
    requires peer in Chosen(l, Repeated(count, k))
    ensures k > 0
    ensures peer in SelectPeers(l, count).0 || peer in Chosen(SelectPeers(l, count).1, Repeated(count, k - 1))
  {
    assert k > 0;
    assert Repeated(count, k)[1..] == Repeated(count, k - 1);
  }

  lemma {:induction false} HasLater(n: Node, n': Node, m: Message)
    requires Has(n, m) && n.sent <= n'.sent
    ensures Has(n', m)
  {
    var i :| 0 <= i < |n.sent| && n.sent[i] == m;
    assert n'.sent[i] == m;
  }

  /** A step that keeps what is said, tells it to the next peers of a level, and moves on to those after them. */
  ghost predicate TellsInTurn(step: Node -> Outcome<Node>, good: Node -> bool, l: nat, count: nat, u: LevelUpdate) {
    forall n :: TellsFrom(step, good, l, count, u, n)
  }

  ghost predicate TellsFrom(step: Node -> Outcome<Node>, good: Node -> bool, l: nat, count: nat, u: LevelUpdate,
                            n: Node) {
    good(n) ==>
      step(n).Ok? && good(step(n).value) && n.sent <= step(n).value.sent && TellsNext(n, step(n).value, l, count, u)
  }

  ghost predicate TellsNext(n: Node, n': Node, l: nat, count: nat, u: LevelUpdate) {
    && l < |n.levels| == |n'.levels| && n'.levels[l] == SelectPeers(n.levels[l], count).1
    && forall peer :: peer in SelectPeers(n.levels[l], count).0 ==> Has(n', Message(u, peer))
  }

  lemma {:induction false} RepeatGrows(step: Node -> Outcome<Node>, good: Node -> bool, l: nat, count: nat,
                                       u: LevelUpdate, n: Node, k: nat)
    requires TellsInTurn(step, good, l, count, u) && good(n)
    ensures Repeat(step, n, k).Ok? && good(Repeat(step, n, k).value) && n.sent <= Repeat(step, n, k).value.sent
    decreases k
  {
    if k > 0 {
      assert TellsFrom(step, good, l, count, u, n);
      RepeatGrows(step, good, l, count, u, step(n).value, k - 1);
    }
  }

  /** Every peer chosen in a series of such steps is told. */
  lemma {:induction false} ChosenAreTold(step: Node -> Outcome<Node>, good: Node -> bool, l: nat, count: nat,
                                         u: LevelUpdate, n: Node, k: nat, peer: nat)
    requires TellsInTurn(step, good, l, count, u) && good(n) && l < |n.levels|
    requires peer in Chosen(n.levels[l], Repeated(count, k))
    ensures Repeat(step, n, k).Ok? && Has(Repeat(step, n, k).value, Message(u, peer))
    decreases k
  {
    ChosenNext(n.levels[l], count, k, peer);
    assert TellsFrom(step, good, l, count, u, n);
    var next := step(n).value;
    RepeatGrows(step, good, l, count, u, next, k - 1);
    if peer in SelectPeers(n.levels[l], count).0 {
      HasLater(next, Repeat(step, next, k - 1).value, Message(u, peer));
    } else {
      ChosenAreTold(step, good, l, count, u, next, k - 1, peer);
    }
  }

  /** Nodes with this place, configuration and news for a level. */
  ghost function WithNews(g: Place, config: Config, l: nat, u: LevelUpdate): Node -> bool {
    (n: Node) => NodeInv(g, n) && n.config == config && 0 < l < |n.levels| && u == UpdateFor(n, l, Below(n, l))
  }

  lemma {:induction false} PeriodicTells(g: Place, config: Config, l: nat, u: LevelUpdate)
    ensures TellsInTurn(PeriodicUpdate, WithNews(g, config, l, u), l, config.updateCount, u)
  {
    forall n | WithNews(g, config, l, u)(n)
      ensures TellsFrom(PeriodicUpdate, WithNews(g, config, l, u), l, config.updateCount, u, n)
    {
      AutomaticUpdateSends(g, n, 1);
      var next := AutomaticUpdate(n, 1).value;
      PeriodicNext(g, n, l, next);
      forall peer | peer in SelectPeers(n.levels[l], config.updateCount).0
        ensures Has(next, Message(u, peer))
      {
        FirstAreTold(g, n, l, peer);
      }
    }
  }

  /** As many periodic updates as a level has peers tell every one of them all the node has below it. */
  lemma {:induction false} PeriodicTellsAll(g: Place, n: Node, k: nat, l: nat, peer: nat)
    requires NodeInv(g, n) && n.config.updateCount > 0
    requires 0 < l < |n.levels| && peer in n.levels[l].peerIds && k >= |n.levels[l].peerIds|
    ensures Repeat(PeriodicUpdate, n, k).Ok?
    ensures Has(Repeat(PeriodicUpdate, n, k).value, Message(UpdateFor(n, l, Below(n, l)), peer))
  {
    var u, count := UpdateFor(n, l, Below(n, l)), n.config.updateCount;
    assert LevelOk(g, n.store.best, n.levels[l], l);
    ChoicesAdvance(n.levels[l], count, k);
    RoundRobinReachesAll(n.levels[l], Repeated(count, k), peer);
    PeriodicTells(g, n.config, l, u);
    ChosenAreTold(PeriodicUpdate, WithNews(g, n.config, l, u), l, count, u, n, k, peer);
  }

  // ---------- completing a level ----------

  /** A level that is full and not marked yet. */
  ghost predicate Completes(n: Node, l: nat)
    requires l < |n.levels|
  {
    !n.levels[l].receiveCompleted && Full(n, l)
  }

  /** Completing a level starts the next one and tells its next peers; there may be no next level. */
  lemma {:induction false} CompleteLevelSends(g: Place, n: Node, l: nat)
    requires NodeInv(g, n) && l < |n.levels| && Full(n, l)
    ensures CompleteLevel(n, l).Ok? && NodeInv(g, CompleteLevel(n, l).value)
    ensures var n' := CompleteLevel(n, l).value;
            if l + 1 < |n.levels| then
              SendsUpdate(n, n', l + 1, Below(n, l + 1), n.config.peerCount) && n'.levels[l + 1].sendStarted
            else n'.sent == n.sent
  {
    CompleteLevelKeepsInv(g, n, l);
    var done := n.(levels := n.levels[l := n.levels[l].(receiveCompleted := true)]);
    MarkKeepsInv(g, n, l, done);
    if l + 1 < |n.levels| {
      StartLevelSends(g, done, l + 1);
      SendsAlike(n, done, CompleteLevel(n, l).value, l + 1, Below(n, l + 1), n.config.peerCount);
    }
  }

  /** Checking a level sends something only when it completes it: all below the next level, to its next peers. */
  lemma {:induction false} CheckCompletedSends(g: Place, n: Node, l: nat)
    requires NodeInv(g, n) && l in n.store.best
    ensures l < |n.levels| && CheckCompleted(n, l).Ok?
    ensures if Completes(n, l) && l + 1 < |n.levels| then
              SendsUpdate(n, CheckCompleted(n, l).value, l + 1, Below(n, l + 1), n.config.peerCount)
            else CheckCompleted(n, l).value.sent == n.sent
  {
    CheckCompletedKeepsInv(g, n, l);
    assert LevelOk(g, n.store.best, n.levels[l], l);
    if !n.levels[l].receiveCompleted {
      OpenLevelCheck(n, l);
      if Full(n, l) {
        CompleteLevelSends(g, n, l);
        UpdateAboveKeepsInv(g, CompleteLevel(n, l).value, l + 1);
      } else {
        UpdateAboveKeepsInv(g, n, l + 1);
      }
    }
  }

  /** What storing a contribution for a level makes a node send. */
  ghost predicate SendsAfterPut(put: Node, node: Node, l: nat, count: nat)
    requires l < |put.levels|
  {
    var above := Completes(put, l) && l + 1 < |put.levels|;
    && put.sent <= node.sent && Told(put, node, l, count) && (above ==> Told(put, node, l + 1, count))
    && |node.sent| ==
       |put.sent| + Fewer(count, |put.levels[l].peerIds|) + if above then Fewer(count, |put.levels[l + 1].peerIds|)
       else 0
  }

  lemma {:induction false} BothSend(put: Node, started: Node, node: Node, l: nat, count: nat, above: bool)
    requires l < |put.levels| == |started.levels| && started.store == put.store && started.p == put.p
    requires above == (Completes(put, l) && l + 1 < |put.levels|)
    requires SendsUpdate(put, started, l, Below(put, l), count)
    requires above ==> started.levels[l + 1] == put.levels[l + 1]
    requires if above then SendsUpdate(started, node, l + 1, Below(started, l + 1), count)
             else node.sent == started.sent
    ensures SendsAfterPut(put, node, l, count)
  {
    SentIsTold(put, started, node, l, count);
    if above {
      SentIsTold(started, node, node, l + 1, count);
      ToldCarries(put, started, node, l + 1, count);
    }
  }

  lemma {:induction false} StartThenCheck(g: Place, put: Node, l: nat, started: Node, node: Node)
    requires NodeInv(g, put) && NodeInv(g, started) && l in put.store.best && 0 < l < |put.levels|
    requires StartLevel(put, l) == Ok(started) && CheckCompleted(started, l) == Ok(node)
    ensures SendsAfterPut(put, node, l, put.config.peerCount)
  {
    StartLevelSends(g, put, l);
    StartedAlike(g, put, started, l);
    CheckCompletedSends(g, started, l);
    BothSend(put, started, node, l, put.config.peerCount, Completes(put, l) && l + 1 < |put.levels|);
  }

  lemma {:induction false} AfterPutSends(g: Place, put: Node, l: nat)
    requires NodeInv(g, put) && l in put.store.best && l > 0
    ensures l < |put.levels| && AfterPut(put, l).Ok?
    ensures SendsAfterPut(put, AfterPut(put, l).value.node, l, put.config.peerCount)
  {
    AfterPutKeepsInv(g, put, l);
    StartLevelKeepsInv(g, put, l);
    var started := StartLevel(put, l).value;
    StartThenCheck(g, put, l, started, CheckCompleted(started, l).value);
  }

  /**
   * Handling a contribution of a level above 0 tells the next peers of that level all below it, and,
   * if the level thereby becomes full, the next peers of the level above all below that.
   */
  lemma {:induction false} HandleTodoSends(g: Place, n: Node, t: TodoItem, put: Node)
    requires NodeInv(g, n) && TodoOk(g, t) && |g.ranges[t.level]| <= |g.orders[t.level]| && t.level > 0
    requires PutInto(n.store, t.contribution, t.level).Ok?
    requires put == n.(store := PutInto(n.store, t.contribution, t.level).value)
    ensures NodeInv(g, put) && t.level < |put.levels| && HandleTodo(n, t).Ok?
    ensures SendsAfterPut(put, HandleTodo(n, t).value.node, t.level, n.config.peerCount)
  {
    PutKeepsNode(g, n, t);
    AfterPutSends(g, put, t.level);
  }

  lemma {:induction false} StartedAlike(g: Place, put: Node, started: Node, l: nat)
    requires NodeInv(g, put) && l < |put.levels| && StartLevel(put, l) == Ok(started)
    ensures |started.levels| == |put.levels| && started.store == put.store && started.p == put.p
    ensures Completes(put, l) <==> Completes(started, l)
    ensures l + 1 < |put.levels| ==> started.levels[l + 1] == put.levels[l + 1]
  {
    StartLevelSends(g, put, l);
    StartLevelOnlyNews(g, put, l);
    assert SameLevel(put.levels[l], started.levels[l]);
  }

  // ---------- what levels note ----------

  function Larger(m: nat, n: nat): nat {
    if m >= n then m else n
  }

  /** A level notes the largest aggregate below it; a larger one makes it start over with its peers. */
  ghost predicate Notes(level: LevelData, level': LevelData, size: nat) {
    && level'.sendSignatureSize == Larger(level.sendSignatureSize, size)
    && level'.sendPeersCount == (if size > level.sendSignatureSize then 0 else level.sendPeersCount)
    && level' == level.(sendSignatureSize := level'.sendSignatureSize, sendPeersCount := level'.sendPeersCount)
  }

  lemma {:induction false} UpdateSignatureNotes(level: LevelData, size: nat)
    requires size != level.sendExpectedFullSize
    ensures UpdateSignature(level, size).0 == false && Notes(level, UpdateSignature(level, size).1, size)
  {
  }

  /** The size a level waits for makes it start sending. */
  lemma {:induction false} UpdateSignatureSends(level: LevelData, size: nat)
    ensures UpdateSignature(level, size).0 <==> level.sendSignatureSize < size == level.sendExpectedFullSize
    ensures UpdateSignature(level, size).0 ==> UpdateSignature(level, size).1.sendStarted
    ensures UpdateSignature(level, size).1.sendSignatureSize == Larger(level.sendSignatureSize, size)
  {
  }

  /** Every level above has noted how much there is below it, and nothing else has changed. */
  ghost predicate NotedAbove(n: Node, n': Node, i: nat) {
    && |n'.levels| == |n.levels| && n' == n.(levels := n'.levels)
    && (forall k :: 0 <= k < |n.levels| && k < i ==> n'.levels[k] == n.levels[k])
    && (forall k :: i <= k < |n.levels| ==> Notes(n.levels[k], n'.levels[k], |BestUnion(n.store.best, k)|))
  }

  lemma {:induction false} UpdateAboveNotes(g: Place, n: Node, i: nat)
    requires NodeInv(g, n) && i > 0
    ensures UpdateAbove(n, i).Ok? && NotedAbove(n, UpdateAbove(n, i).value, i)
    decreases |n.levels| - i
  {
    if i < |n.levels| {
      var size := |BestUnion(n.store.best, i)|;
      var level := UpdateSignature(n.levels[i], size).1;
      AnnounceKeepsInv(g, n, i, level);
      BelowExpected(g, n, i);
      UpdateSignatureNotes(n.levels[i], size);
      var n1 := n.(levels := n.levels[i := level]);
      UpdateAboveNotes(g, n1, i + 1);
      NotesJoin(n, n1, UpdateAbove(n1, i + 1).value, i);
    }
  }

  lemma {:induction false} BelowExpected(g: Place, n: Node, i: nat)
    requires NodeInv(g, n) && 0 < i < |n.levels|
    ensures |BestUnion(n.store.best, i)| < n.levels[i].sendExpectedFullSize
  {
    assert LevelOk(g, n.store.best, n.levels[i], i);
    CombinedBelow(g, n, i);
    SubsetSize(BestUnion(n.store.best, i), RangesUnion(g.ranges, i));
  }

  lemma {:induction false} NotesJoin(n: Node, n1: Node, n': Node, i: nat)
    requires i < |n.levels| && |n1.levels| == |n.levels| && n1 == n.(levels := n.levels[i := n1.levels[i]])
    requires Notes(n.levels[i], n1.levels[i], |BestUnion(n.store.best, i)|) && NotedAbove(n1, n', i + 1)
    ensures NotedAbove(n, n', i)
  {
  }
}
