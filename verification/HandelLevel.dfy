/** One level of the aggregation and the round-robin choice of peers (handel/src/level.rs). */
module Levels {
  import opened Partitioner

  /** A level and its state. */
  datatype LevelRecord = LevelRecord(
    id: nat,
    peerIds: seq<nat>,
    sendExpectedFullSize: nat,
    sendStarted: bool,
    receiveCompleted: bool,
    sendPeersPos: nat,
    sendSignatureSize: nat,
    sendPeersCount: nat)
  {
    /** The position always denotes a peer, unless there is none. */
    predicate Valid() {
      sendPeersPos < |peerIds| || (peerIds == [] && sendPeersPos == 0)
    }
  }

  type LevelData = l: LevelRecord | l.Valid() witness LevelRecord(0, [], 0, false, false, 0, 0, 0)

  function NewLevel(id: nat, peerIds: seq<nat>, expected: nat): LevelData {
    LevelRecord(id, peerIds, expected, false, false, 0, 0, 0)
  }

  /** The position k steps after pos in a cycle of n, for at most one full turn. */
  function Around(n: nat, pos: nat, k: nat): nat
    requires pos < n && k <= n
  {
    if pos + k < n then pos + k else pos + k - n
  }

  function NumSelected(l: LevelData, count: nat): nat {
    if l.id == 0 then 0 else if count < |l.peerIds| then count else |l.peerIds|
  }

  /** The next peers in turn, each at most once per call. */
  function SelectPeers(l: LevelData, count: nat): (seq<nat>, LevelData) {
    var k, n := NumSelected(l, count), |l.peerIds|;
    if k == 0 then ([], l)
    else (seq(k, i requires 0 <= i < k => l.peerIds[Around(n, l.sendPeersPos, i)]),
          l.(sendPeersPos := Around(n, l.sendPeersPos, k)))
  }

  /** Records a larger aggregate; true when it has the size the level expects. */
  function UpdateSignature(l: LevelData, size: nat): (bool, LevelData) {
    if l.sendSignatureSize >= size then (false, l)
    else
      var l' := l.(sendSignatureSize := size, sendPeersCount := 0);
      if size == l.sendExpectedFullSize then (true, l'.(sendStarted := true)) else (false, l')
  }

  class Level {
    const id: nat
    const peerIds: seq<nat>
    const sendExpectedFullSize: nat
    var sendStarted: bool
    var receiveCompleted: bool
    var sendPeersPos: nat
    var sendSignatureSize: nat
    var sendPeersCount: nat

    function Value(): LevelRecord
      reads this
    {
      LevelRecord(id, peerIds, sendExpectedFullSize, sendStarted, receiveCompleted, sendPeersPos, sendSignatureSize,
                  sendPeersCount)
    }

    constructor (id: nat, peerIds: seq<nat>, expected: nat)
      ensures Value() == NewLevel(id, peerIds, expected)
    {
      this.id, this.peerIds, sendExpectedFullSize := id, peerIds, expected;
      sendStarted, receiveCompleted, sendPeersPos, sendSignatureSize, sendPeersCount := false, false, 0, 0, 0;
    }

    method SelectNextPeers(count: nat) returns (selected: seq<nat>)
      requires Value().Valid()
      modifies this
      ensures (selected, Value()) == SelectPeers(old(Value()), count)
    {
      selected := [];
      if id == 0 {
        return;
      }
      var size := if count < |peerIds| then count else |peerIds|;
      ghost var start := sendPeersPos;
      for k := 0 to size
        invariant Value() == old(Value()).(sendPeersPos := if k == 0 then start else Around(|peerIds|, start, k))
        invariant |selected| == k && forall i :: 0 <= i < k ==> selected[i] == peerIds[Around(|peerIds|, start, i)]
      {
        selected := selected + [peerIds[sendPeersPos]];
        sendPeersPos := sendPeersPos + 1;
        if sendPeersPos >= |peerIds| {
          sendPeersPos := 0;
        }
      }
      assert selected == SelectPeers(old(Value()), count).0;
    }

    method UpdateSignatureToSend(size: nat) returns (send: bool)
      requires Value().Valid()
      modifies this
      ensures (send, Value()) == UpdateSignature(old(Value()), size)
    {
      if sendSignatureSize >= size {
        return false;
      }
      sendSignatureSize := size;
      sendPeersCount := 0;
      if sendSignatureSize == sendExpectedFullSize {
        sendStarted := true;
        return true;
      }
      return false;
    }

    method Start()
      modifies this
      ensures Value() == old(Value()).(sendStarted := true)
    {
      sendStarted := true;
    }

    method Complete()
      modifies this
      ensures Value() == old(Value()).(receiveCompleted := true)
    {
      receiveCompleted := true;
    }
  }

  /** Some order of exactly the given identifiers. */
  ghost predicate IsShuffle(order: seq<nat>, ids: set<nat>) {
    |order| == |ids| && forall i :: i in order <==> i in ids
  }

  /** The shuffled peers of every level. */
  ghost predicate AreShuffles(p: BinomialPartitioner, orders: seq<seq<nat>>) {
    |orders| == p.numLevels && forall l :: 0 <= l < p.numLevels ==> IsShuffle(orders[l], PeerIds(p.nodeId, l))
  }

  /** One more than the number of peers on all lower levels. */
  function ExpectedFullSize(orders: seq<seq<nat>>, level: nat): nat
    requires level <= |orders|
  {
    if level == 0 then 1 else ExpectedFullSize(orders, level - 1) + |orders[level - 1]|
  }

  function InitialLevel(orders: seq<seq<nat>>, level: nat): LevelData
    requires level < |orders|
  {
    NewLevel(level, orders[level], ExpectedFullSize(orders, level)).(sendStarted := level == 0)
  }

  /** Creates the levels from the shuffled ranges; the shuffle is the only random choice. */
  method CreateLevels(p: BinomialPartitioner, orders: seq<seq<nat>>) returns (levels: seq<Level>)
    requires |orders| == p.numLevels
    ensures |levels| == |orders| && fresh(levels)
    ensures forall i, j :: 0 <= i < j < |levels| ==> levels[i] != levels[j]
    ensures forall i :: 0 <= i < |levels| ==> levels[i].Value() == InitialLevel(orders, i)
  {
    levels := [];
    var expected := 1;
    for i := 0 to p.numLevels
      invariant |levels| == i && fresh(levels)
      invariant expected == ExpectedFullSize(orders, i)
      invariant forall j, k :: 0 <= j < k < i ==> levels[j] != levels[k]
      invariant forall j :: 0 <= j < i ==> levels[j].Value() == InitialLevel(orders, j)
    {
      var level := new Level(i, orders[i], expected);
      if i == 0 {
        level.Start();
      }
      levels := levels + [level];
      expected := expected + |orders[i]|;
    }
  }

  /** Every level lists as many peers as its range holds. */
  ghost predicate ListsAllPeers(p: BinomialPartitioner, orders: seq<seq<nat>>) {
    |orders| == p.numLevels && forall l :: 0 <= l < p.numLevels ==> |orders[l]| == |PeerIds(p.nodeId, l)|
  }

  lemma {:induction false} ShufflesListAllPeers(p: BinomialPartitioner, orders: seq<seq<nat>>)
    requires AreShuffles(p, orders)
    ensures ListsAllPeers(p, orders)
  {
    forall l | 0 <= l < p.numLevels
      ensures |orders[l]| == |PeerIds(p.nodeId, l)|
    {
      assert IsShuffle(orders[l], PeerIds(p.nodeId, l));
    }
  }

  lemma {:induction false} ExpectedExceedsLevelSize(p: BinomialPartitioner, orders: seq<seq<nat>>, level: nat)
    requires ListsAllPeers(p, orders) && 0 < level < p.numLevels
    ensures ExpectedFullSize(orders, level) == LevelSize(level - 1) + 1
  {
    RangeSizes(p.nodeId, level - 1);
    if level > 1 {
      ExpectedExceedsLevelSize(p, orders, level - 1);
    }
  }

  /**
   * The size at which a level reports a complete aggregate to send is one more than the number of
   * identifiers below the level.
   */
  lemma {:induction false} ExpectedIsOneTooMany(p: BinomialPartitioner, orders: seq<seq<nat>>, level: nat)
    requires ListsAllPeers(p, orders) && 0 < level < p.numLevels
    ensures ExpectedFullSize(orders, level) == |PeerIdsUpTo(p.nodeId, level - 1)| + 1
  {
    ExpectedExceedsLevelSize(p, orders, level);
    UpToSize(p.nodeId, level - 1);
  }

  /** All peers chosen by a series of calls. */
  function Chosen(l: LevelData, counts: seq<nat>): seq<nat>
    decreases |counts|
  {
    if counts == [] then [] else SelectPeers(l, counts[0]).0 + Chosen(SelectPeers(l, counts[0]).1, counts[1..])
  }

  /** The peers from a position on, in turn. */
  function Turn(peers: seq<nat>, pos: nat): seq<nat>
    requires pos < |peers|
  {
    peers[pos..] + peers[..pos]
  }

  /** Calls continue where the last one stopped: the first full turn of choices is the peer list itself. */
  lemma {:induction false} ChosenFollowsTurn(l: LevelData, counts: seq<nat>, i: nat)
    requires l.id > 0 && i < |Chosen(l, counts)| && i < |l.peerIds|
    ensures Chosen(l, counts)[i] == Turn(l.peerIds, l.sendPeersPos)[i]
    decreases |counts|
  {
    var (first, l') := SelectPeers(l, counts[0]);
    if i < |first| {
      FirstChoices(l, counts[0], i);
    } else {
      TurnGoesOn(l, counts[0], i);
      ChosenFollowsTurn(l', counts[1..], i - |first|);
    }
  }

  lemma {:induction false} FirstChoices(l: LevelData, count: nat, i: nat)
    requires l.id > 0 && i < |SelectPeers(l, count).0|
    ensures i < |l.peerIds| && SelectPeers(l, count).0[i] == Turn(l.peerIds, l.sendPeersPos)[i]
  {
  }

  /** After a call the turn starts where the call stopped. */
  lemma {:induction false} TurnGoesOn(l: LevelData, count: nat, i: nat)
    requires l.id > 0 && |SelectPeers(l, count).0| <= i < |l.peerIds|
    ensures Turn(l.peerIds, SelectPeers(l, count).1.sendPeersPos)[i - |SelectPeers(l, count).0|] ==
            Turn(l.peerIds, l.sendPeersPos)[i]
  {
  }

  /** No peer is starved: as many choices as there are peers reach every peer. */
  lemma {:induction false} RoundRobinReachesAll(l: LevelData, counts: seq<nat>, peer: nat)
    requires l.id > 0 && peer in l.peerIds
    requires |Chosen(l, counts)| >= |l.peerIds|
    ensures peer in Chosen(l, counts)
  {
    var turn := Turn(l.peerIds, l.sendPeersPos);
    assert l.peerIds == l.peerIds[..l.sendPeersPos] + l.peerIds[l.sendPeersPos..];
    assert peer in turn;
    var i :| 0 <= i < |turn| && turn[i] == peer;
    ChosenFollowsTurn(l, counts, i);
  }
}
