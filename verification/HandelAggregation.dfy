/** One node of the aggregation protocol (handel/src/aggregation.rs, `NextAggregation`). */
module Aggregation {
  import opened Prelude
  import opened Contributions
  import opened Partitioner
  import opened ContributionStore
  import opened TodoLists
  import opened Levels
  import Evaluator

  datatype Config = Config(peerCount: nat, updateCount: nat)

  /** An update on its way to a peer. */
  datatype Message = Message(update: LevelUpdate, to: nat)

  /** The whole state of a node; `sent` lists every message it has handed to the network. */
  datatype Node = Node(
    p: BinomialPartitioner,
    config: Config,
    weights: map<nat, nat>,
    own: Contribution,
    levels: seq<LevelData>,
    store: Store,
    todos: set<TodoItem>,
    nextLevelTimeout: nat,
    sent: seq<Message>)

  function Messages(update: LevelUpdate, peers: seq<nat>): seq<Message> {
    seq(|peers|, i requires 0 <= i < |peers| => Message(update, peers[i]))
  }

  /** Sends an aggregate, and the own contribution while the level is incomplete, to the next peers. */
  function SendUpdate(n: Node, c: Contribution, l: nat, count: nat): (r: Node)
    requires l < |n.levels|
    ensures |r.levels| == |n.levels|
  {
    var (peers, level) := SelectPeers(n.levels[l], count);
    var individual := if level.receiveCompleted then None else Some(n.own);
    n.(levels := n.levels[l := level],
       sent := n.sent + Messages(LevelUpdate.New(c, individual, level.id, n.p.nodeId), peers))
  }

  function StartLevel(n: Node, l: nat): (r: Outcome<Node>)
    ensures r.Ok? ==> |r.value.levels| == |n.levels|
  {
    if l >= |n.levels| then Panic
    else
      var n' := n.(levels := n.levels[l := n.levels[l].(sendStarted := true)]);
      if n.levels[l].id == 0 then Ok(n')
      else
        var best :- CombinedUpTo(n.store, n.levels[l].id - 1);
        Ok(if best.None? then n' else SendUpdate(n', best.value, l, n.config.peerCount))
  }

  /** Tells every level from i on about the aggregate of the levels below it. */
  function UpdateAbove(n: Node, i: nat): Outcome<Node>
    requires i > 0
    decreases |n.levels| - i
  {
    if i >= |n.levels| then Ok(n)
    else
      var combined :- CombinedUpTo(n.store, i - 1);
      if combined.None? then UpdateAbove(n, i + 1)
      else
        var (send, level) := UpdateSignature(n.levels[i], combined.value.NumContributors());
        var n' := n.(levels := n.levels[i := level]);
        UpdateAbove(if send then SendUpdate(n', combined.value, i, n.config.peerCount) else n', i + 1)
  }

  /** Marks a level as completed and starts the one after it. */
  function CompleteLevel(n: Node, l: nat): Outcome<Node>
    requires l < |n.levels|
  {
    var done := n.(levels := n.levels[l := n.levels[l].(receiveCompleted := true)]);
    if n.levels[l].id + 1 < |n.levels| then StartLevel(done, n.levels[l].id + 1) else Ok(done)
  }

  function CheckCompleted(n: Node, l: nat): Outcome<Node> {
    if l >= |n.levels| then Panic
    else if n.levels[l].receiveCompleted then Ok(n)
    else
      var id := n.levels[l].id;
      if id !in n.store.best then Panic
      else
        var n' :- if n.store.best[id].NumContributors() == |n.levels[l].peerIds| then CompleteLevel(n, l) else Ok(n);
        UpdateAbove(n', id + 1)
  }

  /** Sends the current aggregates of the levels from i on. */
  function AutomaticUpdate(n: Node, i: nat): Outcome<Node>
    decreases |n.levels| - i
  {
    if i >= |n.levels| then Ok(n)
    else if n.levels[i].id == 0 then Panic
    else
      var aggregate :- CombinedUpTo(n.store, n.levels[i].id - 1);
      AutomaticUpdate(if aggregate.None? then n else SendUpdate(n, aggregate.value, i, n.config.updateCount), i + 1)
  }

  function ActivateNextLevel(n: Node): Outcome<Node> {
    if n.nextLevelTimeout < |n.levels| then
      StartLevel(n.(nextLevelTimeout := n.nextLevelTimeout + 1), n.nextLevelTimeout)
    else Ok(n)
  }

  /** What handling a verified todo leaves behind: the node and the new best aggregate. */
  datatype Progress = Progress(node: Node, best: Option<Contribution>)

  function HandleTodo(n: Node, todo: TodoItem): Outcome<Progress> {
    var store :- PutInto(n.store, todo.contribution, todo.level);
    AfterPut(n.(store := store), todo.level)
  }

  function AfterPut(n: Node, level: nat): Outcome<Progress> {
    var started :- StartLevel(n, level);
    var n' :- CheckCompleted(started, level);
    if n'.levels == [] then Panic
    else
      var best :- CombinedUpTo(n'.store, n'.levels[|n'.levels| - 1].id);
      Ok(Progress(n', best))
  }

  function InitialLevels(orders: seq<seq<nat>>): seq<LevelData> {
    seq(|orders|, i requires 0 <= i < |orders| => InitialLevel(orders, i))
  }

  /** A new node: its own contribution is stored, which completes level 0. */
  function NewNode(p: BinomialPartitioner, config: Config, weights: map<nat, nat>, own: Contribution,
                   orders: seq<seq<nat>>): Outcome<Node> {
    var store :- PutInto(EmptyStore(p.numLevels), own, 0);
    CheckCompleted(Node(p, config, weights, own, InitialLevels(orders), store, {}, 0, []), 0)
  }

  /** The evaluator a node uses while its todo list is polled. */
  function Scores(store: Store, weights: map<nat, nat>): Scorer {
    (item: TodoItem) => Evaluator.Evaluate(store, weights, item.contribution, item.level)
  }

  function Members(p: BinomialPartitioner): Membership {
    (level: nat, id: nat) =>
      match p.Range(level)
      case Success(range) => Ok(range.Contains(id))
      case Failure(_) => Panic
  }

  /** What a step of a node yields: its new state and, after progress, a new aggregate. */
  datatype Turn = Turn(node: Node, aggregate: Option<Contribution>)

  function Quiet(r: Outcome<Node>): Outcome<Turn> {
    if r.Panic? then Panic else Ok(Turn(r.value, None))
  }

  /** The list is polled; the best item is verified and, if that succeeds, aggregated. */
  ghost predicate TodoTurn(n: Node, input: seq<LevelUpdate>, verified: bool, r: Outcome<Turn>) {
    var score, contains := Scores(n.store, n.weights), Members(n.p);
    if !PollSucceeds(score, contains, n.todos, input) then r == Panic
    else
      exists best, list ::
        && Picked(score, multiset(n.todos) + multiset(Offered(contains, input).value), best, list)
        && r == AfterPoll(n.(todos := list), best, verified)
  }

  function AfterPoll(n: Node, best: Option<TodoItem>, verified: bool): Outcome<Turn> {
    if best.None? || !verified then Ok(Turn(n, None))
    else
      var progress :- HandleTodo(n, best.value);
      Ok(Turn(progress.node, progress.best))
  }

  /** One turn of the event loop. */
  ghost predicate NodeTurn(n: Node, input: seq<LevelUpdate>, verified: bool, r: Outcome<Turn>) {
    || r == Quiet(ActivateNextLevel(n))
    || r == Quiet(AutomaticUpdate(n, 1))
    || TodoTurn(n, input, verified, r)
  }

  /** The node as the program runs it. */
  class NextAggregation {
    const partitioner: BinomialPartitioner
    const config: Config
    const weights: map<nat, nat>
    const contribution: Contribution
    const store: ReplaceStore
    const todos: TodoList
    const levels: seq<Level>
    var nextLevelTimeout: nat
    var sent: seq<Message>
    ghost var view: seq<LevelData>

    /** Names an index: that levels are different objects is used only for the indices so named. */
    ghost predicate Slot(i: int) {
      0 <= i < |levels|
    }

    ghost predicate Apart() {
      forall i, j {:trigger Slot(i), Slot(j)} :: Slot(i) && Slot(j) && i < j ==> levels[i] != levels[j]
    }

    lemma {:induction false} OnlyAt(l: nat)
      requires Apart() && l < |levels|
      ensures forall i :: 0 <= i < |levels| && i != l ==> levels[i] != levels[l]
    {
      forall i | 0 <= i < |levels| && i != l
        ensures levels[i] != levels[l]
      {
        assert Slot(i) && Slot(l);
      }
    }

    /** The levels are different objects, and `view` is what they hold. */
    ghost predicate Valid()
      reads this`view, levels
    {
      Apart() && |view| == |levels| && forall i :: 0 <= i < |levels| ==> levels[i].Value() == view[i]
    }

    ghost function Value(): Node
      reads this, store, todos
    {
      Node(partitioner, config, weights, contribution, view, store.Value(), todos.list, nextLevelTimeout, sent)
    }

    constructor (p: BinomialPartitioner, config: Config, weights: map<nat, nat>, own: Contribution, levels: seq<Level>,
                 ghost view: seq<LevelData>)
      ensures partitioner == p && this.config == config && this.weights == weights && contribution == own
      ensures this.levels == levels && this.view == view && fresh(store) && fresh(todos)
      ensures store.Value() == EmptyStore(p.numLevels) && todos.list == {} && nextLevelTimeout == 0 && sent == []
    {
      partitioner, this.config, this.weights, contribution, this.levels := p, config, weights, own, levels;
      store := new ReplaceStore(p.numLevels);
      todos := new TodoList();
      nextLevelTimeout, sent, this.view := 0, [], view;
    }

    /** Sends an update for a level to its next `count` peers. */
    method SendUpdateTo(c: Contribution, l: nat, count: nat)
      requires Valid() && l < |levels|
      modifies this`sent, this`view, levels[l]
      ensures Valid() && Value() == SendUpdate(old(Value()), c, l, count)
    {
      OnlyAt(l);
      var peers := levels[l].SelectNextPeers(count);
      view := view[l := levels[l].Value()];
      if peers != [] {
        var individual := if levels[l].receiveCompleted then None else Some(contribution);
        Deliver(LevelUpdate.New(c, individual, levels[l].id, partitioner.nodeId), peers);
      } else {
        assert forall u :: sent + Messages(u, peers) == sent;
      }
    }

    /** Hands one message per peer to the network. */
    method Deliver(update: LevelUpdate, peers: seq<nat>)
      modifies this`sent
      ensures sent == old(sent) + Messages(update, peers)
    {
      for i := 0 to |peers|
        invariant sent == old(sent) + Messages(update, peers[..i])
      {
        sent := sent + [Message(update, peers[i])];
        assert Messages(update, peers[..i + 1]) == Messages(update, peers[..i]) + [Message(update, peers[i])];
      }
      assert peers[..|peers|] == peers;
    }

    /** Starts a level and announces what this node has below it; false where the program panics. */
    method Start(l: nat) returns (ok: bool)
      requires Valid()
      modifies this`sent, this`view, levels
      ensures Valid() && StartLevel(old(Value()), l) == if ok then Ok(Value()) else Panic
    {
      if l >= |levels| {
        return false;
      }
      MarkStarted(l);
      if levels[l].id > 0 {
        var best := store.Combined(levels[l].id - 1);
        match best {
          case Panic => return false;
          case Ok(None) =>
          case Ok(Some(c)) => SendUpdateTo(c, l, config.peerCount);
        }
      }
      return true;
    }

    /** Marks a level complete once its best has as many contributors as the level has peers. */
    method CheckCompletedLevel(l: nat) returns (ok: bool)
      requires Valid()
      modifies this`sent, this`view, levels
      ensures Valid() && CheckCompleted(old(Value()), l) == if ok then Ok(Value()) else Panic
    {
      if l >= |levels| {
        return false;
      }
      if levels[l].receiveCompleted {
        return true;
      }
      var id := levels[l].id;
      if id !in store.best {
        return false;
      }
      if store.best[id].NumContributors() == |levels[l].peerIds| {
        ok := Complete(l);
        if !ok {
          return false;
        }
      }
      ok := UpdateFrom(id + 1);
    }

    /** Marks a level as completed and starts the one after it. */
    method Complete(l: nat) returns (ok: bool)
      requires Valid() && l < |levels|
      modifies this`sent, this`view, levels
      ensures Valid() && CompleteLevel(old(Value()), l) == if ok then Ok(Value()) else Panic
    {
      MarkCompleted(l);
      if levels[l].id + 1 < |levels| {
        ok := Start(levels[l].id + 1);
      } else {
        ok := true;
      }
    }

    method MarkStarted(l: nat)
      requires Valid() && l < |levels|
      modifies this`view, levels[l]
      ensures Valid() && view == old(view)[l := old(view)[l].(sendStarted := true)]
    {
      OnlyAt(l);
      levels[l].Start();
      view := view[l := levels[l].Value()];
    }

    method MarkCompleted(l: nat)
      requires Valid() && l < |levels|
      modifies this`view, levels[l]
      ensures Valid() && view == old(view)[l := old(view)[l].(receiveCompleted := true)]
    {
      OnlyAt(l);
      levels[l].Complete();
      view := view[l := levels[l].Value()];
    }

    method NoteSize(l: nat, size: nat) returns (send: bool)
      requires Valid() && l < |levels|
      modifies this`view, levels[l]
      ensures Valid() && send == UpdateSignature(old(view)[l], size).0
      ensures view == old(view)[l := UpdateSignature(old(view)[l], size).1]
    {
      OnlyAt(l);
      send := levels[l].UpdateSignatureToSend(size);
      view := view[l := levels[l].Value()];
    }

    /** Tells every level from `first` on about the aggregate of the levels below it. */
    method UpdateFrom(first: nat) returns (ok: bool)
      requires Valid() && first > 0
      modifies this`sent, this`view, levels
      ensures Valid() && UpdateAbove(old(Value()), first) == if ok then Ok(Value()) else Panic
    {
      var i := first;
      while i < |levels|
        invariant Valid() && first <= i
        invariant UpdateAbove(old(Value()), first) == UpdateAbove(Value(), i)
      {
        ok := UpdateAt(i);
        if !ok {
          return false;
        }
        i := i + 1;
      }
      return true;
    }

    method UpdateAt(i: nat) returns (ok: bool)
      requires Valid() && 0 < i < |levels|
      modifies this`sent, this`view, levels
      ensures Valid()
      ensures UpdateAbove(old(Value()), i) == if ok then UpdateAbove(Value(), i + 1) else Panic
    {
      var combined := store.Combined(i - 1);
      match combined {
        case Panic => return false;
        case Ok(None) =>
        case Ok(Some(c)) =>
          var send := NoteSize(i, c.NumContributors());
          if send {
            SendUpdateTo(c, i, config.peerCount);
          }
      }
      return true;
    }

    /** Sends the current aggregate of every level again. */
    method UpdateAll() returns (ok: bool)
      requires Valid()
      modifies this`sent, this`view, levels
      ensures Valid() && AutomaticUpdate(old(Value()), 1) == if ok then Ok(Value()) else Panic
    {
      var i := 1;
      while i < |levels|
        invariant Valid() && 1 <= i
        invariant AutomaticUpdate(old(Value()), 1) == AutomaticUpdate(Value(), i)
      {
        ok := Resend(i);
        if !ok {
          return false;
        }
        i := i + 1;
      }
      return true;
    }

    method Resend(i: nat) returns (ok: bool)
      requires Valid() && i < |levels|
      modifies this`sent, this`view, levels
      ensures Valid()
      ensures AutomaticUpdate(old(Value()), i) == if ok then AutomaticUpdate(Value(), i + 1) else Panic
    {
      if levels[i].id == 0 {
        return false;
      }
      var aggregate := store.Combined(levels[i].id - 1);
      match aggregate {
        case Panic => return false;
        case Ok(None) =>
        case Ok(Some(c)) => SendUpdateTo(c, i, config.updateCount);
      }
      return true;
    }

    /** Starts the next level that has not been started by a timeout yet. */
    method ActivateNext() returns (ok: bool)
      requires Valid()
      modifies this, levels
      ensures Valid() && ActivateNextLevel(old(Value())) == if ok then Ok(Value()) else Panic
    {
      if nextLevelTimeout >= |levels| {
        return true;
      }
      var level := nextLevelTimeout;
      nextLevelTimeout := nextLevelTimeout + 1;
      ok := Start(level);
    }

    /** Aggregates a verified contribution and returns the new best aggregate. */
    method Handle(todo: TodoItem) returns (r: Outcome<Option<Contribution>>)
      requires Valid()
      modifies this`sent, this`view, levels, store
      ensures Valid() && HandleTodo(old(Value()), todo) == if r.Ok? then Ok(Progress(Value(), r.value)) else Panic
    {
      var ok := store.Put(todo.contribution, todo.level);
      if !ok {
        return Panic;
      }
      assert Value() == old(Value()).(store := store.Value());
      r := Announce(todo.level);
    }

    /** Starts and checks the level of a contribution just stored, and combines everything stored. */
    method Announce(level: nat) returns (r: Outcome<Option<Contribution>>)
      requires Valid()
      modifies this`sent, this`view, levels
      ensures Valid() && AfterPut(old(Value()), level) == if r.Ok? then Ok(Progress(Value(), r.value)) else Panic
    {
      var ok := Start(level);
      if !ok {
        return Panic;
      }
      ok := CheckCompletedLevel(level);
      if !ok || |levels| == 0 {
        return Panic;
      }
      r := store.Combined(levels[|levels| - 1].id);
    }

    /** Takes in new updates and picks the most useful contribution to verify next. */
    method Poll(input: seq<LevelUpdate>) returns (r: Outcome<Option<TodoItem>>)
      requires Valid()
      modifies todos
      ensures Valid() && Value() == old(Value()).(todos := todos.list)
      ensures r.Ok? <==> PollSucceeds(Scores(store.Value(), weights), Members(partitioner), old(todos.list), input)
      ensures r.Ok? ==>
                Picked(Scores(store.Value(), weights),
                       multiset(old(todos.list)) +
                       multiset(Offered(Members(partitioner), input).value), r.value, todos.list)
    {
      r := todos.PollNext(Scores(store.Value(), weights), Members(partitioner), input);
    }

    /** One turn of the event loop over the todo list; `verified` is the verdict on the picked contribution. */
    method NextTodo(input: seq<LevelUpdate>, verified: bool) returns (r: Outcome<Option<Contribution>>)
      requires Valid()
      modifies this`sent, this`view, levels, store, todos
      ensures Valid()
      ensures TodoTurn(old(Value()), input, verified, if r.Ok? then Ok(Turn(Value(), r.value)) else Panic)
    {
      var picked := Poll(input);
      if picked.Panic? {
        return Panic;
      }
      ghost var polled := Value();
      r := Ok(None);
      if picked.value.Some? && verified {
        r := Handle(picked.value.value);
      }
      assert AfterPoll(polled, picked.value, verified) == if r.Ok? then Ok(Turn(Value(), r.value)) else Panic;
    }
  }

  /** A new node that has stored its own contribution; false where the program panics. */
  method CreateNode(p: BinomialPartitioner, config: Config, weights: map<nat, nat>, own: Contribution,
                    orders: seq<seq<nat>>)
    returns (ok: bool, node: NextAggregation)
    requires |orders| == p.numLevels
    ensures node.Valid() && NewNode(p, config, weights, own, orders) == if ok then Ok(node.Value()) else Panic
  {
    var levels := CreateLevels(p, orders);
    node := new NextAggregation(p, config, weights, own, levels, InitialLevels(orders));
    ok := node.store.Put(own, 0);
    if ok {
      ok := node.CheckCompletedLevel(0);
    }
  }
}
