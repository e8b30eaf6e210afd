/** The doubly-linked list with owned nodes (collections/src/linked_list.rs). */
module LinkedLists {
  import opened Prelude

  class Node<T> {
    var next: Node?<T>
    var prev: Node?<T>
    const element: T

    constructor (element: T)
      ensures this.element == element
    {
      this.element := element;
      next, prev := null, null;
    }
  }

  /** The elements of a chain of nodes. */
  ghost function Elements<T>(nodes: seq<Node<T>>): (s: seq<T>)
    ensures |s| == |nodes| && forall i :: 0 <= i < |s| ==> s[i] == nodes[i].element
  {
    seq(|nodes|, i requires 0 <= i < |nodes| => nodes[i].element)
  }

  ghost function At<T>(nodes: seq<Node<T>>, i: int): Node?<T> {
    if 0 <= i < |nodes| then nodes[i] else null
  }

  ghost predicate Distinct<T>(nodes: seq<Node<T>>) {
    forall i, j :: 0 <= i < j < |nodes| ==> nodes[i] != nodes[j]
  }

  /** Names an index of a chain. */
  ghost predicate Slot<T>(nodes: seq<Node<T>>, i: int) {
    0 <= i < |nodes|
  }

  /** The same as being distinct, but used only for indices named as such. */
  ghost predicate Separate<T>(nodes: seq<Node<T>>) {
    forall i, j {:trigger Slot(nodes, i), Slot(nodes, j)} ::
      Slot(nodes, i) && Slot(nodes, j) && i < j ==> nodes[i] != nodes[j]
  }

  lemma {:induction false} SeparateIsDistinct<T>(nodes: seq<Node<T>>)
    ensures Separate(nodes) <==> Distinct(nodes)
  {
    if Separate(nodes) {
      forall i, j | 0 <= i < j < |nodes|
        ensures nodes[i] != nodes[j]
      {
        assert Slot(nodes, i) && Slot(nodes, j);
      }
    }
  }

  /** Following `next` walks the nodes in order and then arrives at `end`. */
  ghost predicate Forward<T>(nodes: seq<Node<T>>, end: Node?<T>)
    reads nodes
  {
    forall i {:trigger nodes[i].next} :: 0 <= i < |nodes| ==>
      nodes[i].next == if i + 1 < |nodes| then nodes[i + 1] else end
  }

  /** Following `prev` walks the nodes in reverse order and then arrives at `start`. */
  ghost predicate Backward<T>(nodes: seq<Node<T>>, start: Node?<T>)
    reads nodes
  {
    forall i {:trigger nodes[i].prev} :: 0 <= i < |nodes| ==> nodes[i].prev == if i > 0 then nodes[i - 1] else start
  }

  /** Both links of every node agree with one sequence. */
  ghost predicate Linked<T>(nodes: seq<Node<T>>)
    reads nodes
  {
    Distinct(nodes) && Forward(nodes, null) && Backward(nodes, null)
  }

  /** The same with distinctness in its other form. */
  ghost predicate Chained<T>(nodes: seq<Node<T>>)
    reads nodes
  {
    Separate(nodes) && Forward(nodes, null) && Backward(nodes, null)
  }

  lemma {:induction false} Join<T>(a: seq<Node<T>>, b: seq<Node<T>>)
    requires a != [] && b != [] && Distinct(a) && Distinct(b) && (forall n :: n in a ==> n !in b)
    requires Forward(a, b[0]) && Forward(b, null)
    requires Backward(a, null) && Backward(b, a[|a| - 1])
    ensures Linked(a + b)
  {
    var ab := a + b;
    forall i, j | 0 <= i < j < |ab|
      ensures ab[i] != ab[j]
    {
      if i < |a| <= j {
        assert a[i] in a && b[j - |a|] in b;
      }
    }
  }

  /** Makes the last node of one chain and the first of another neighbours. */
  method Connect<T>(last: Node<T>, first: Node<T>, ghost a: seq<Node<T>>, ghost b: seq<Node<T>>)
    requires Linked(a) && Linked(b) && a != [] && b != [] && (forall n :: n in a ==> n !in b)
    requires last == a[|a| - 1] && first == b[0]
    modifies last, first
    ensures Linked(a + b)
  {
    assert forall i :: 0 <= i < |a| ==> a[i] in a;
    assert forall i :: 0 <= i < |b| ==> b[i] in b;
    last.next := first;
    first.prev := last;
    Join(a, b);
  }

  ghost function First<T>(nodes: seq<Node<T>>): Node?<T> {
    At(nodes, 0)
  }

  ghost function Last<T>(nodes: seq<Node<T>>): Node?<T> {
    At(nodes, |nodes| - 1)
  }

  lemma {:induction false} PartsAround<T>(a: seq<Node<T>>, node: Node<T>, b: seq<Node<T>>)
    requires Linked(a + [node] + b)
    ensures Distinct(a + b) && Forward(a, node) && Backward(a, null) && Forward(b, null) && Backward(b, node)
    ensures node.prev == Last(a) && node.next == First(b)
  {
    var all := a + [node] + b;
    assert all[|a|] == node;
    assert forall i :: 0 <= i < |a| ==> all[i] == a[i];
    assert forall i :: 0 <= i < |b| ==> all[|a| + 1 + i] == b[i];
  }

  lemma {:induction false} JoinParts<T>(a: seq<Node<T>>, b: seq<Node<T>>)
    requires Forward(a, First(b)) && Backward(a, null) && Forward(b, null) && Backward(b, Last(a))
    ensures Forward(a + b, null) && Backward(a + b, null)
  {
  }

  /** Makes the neighbours of a node neighbours of each other. */
  method Bypass<T>(node: Node<T>, ghost a: seq<Node<T>>, ghost b: seq<Node<T>>)
    requires Distinct(a + b) && Forward(a, node) && Backward(a, null) && Forward(b, null) && Backward(b, node)
    requires node.prev == Last(a) && node.next == First(b)
    modifies node.prev, node.next
    ensures Forward(a, First(b)) && Backward(a, null) && Forward(b, null) && Backward(b, Last(a))
    ensures node.prev == old(node.prev) && node.next == old(node.next)
  {
    assert forall i :: 0 <= i < |a| ==> (a + b)[i] == a[i];
    assert forall i :: 0 <= i < |b| ==> (a + b)[|a| + i] == b[i];
    if node.prev != null {
      node.prev.next := node.next;
    }
    if node.next != null {
      node.next.prev := node.prev;
    }
  }

  class LinkedList<T> {
    var head: Node?<T>
    var tail: Node?<T>
    var len: nat
    ghost var nodes: seq<Node<T>>

    ghost predicate Valid()
      reads this, nodes
    {
      && Chained(nodes)
      && head == At(nodes, 0) && tail == At(nodes, |nodes| - 1) && len == |nodes|
    }

    constructor ()
      ensures Valid() && nodes == []
    {
      head, tail, len, nodes := null, null, 0, [];
    }

    method PushFrontNode(node: Node<T>)
      requires Valid() && node !in nodes
      modifies this, nodes, node
      ensures Valid() && nodes == [node] + old(nodes)
    {
      SeparateIsDistinct(nodes);
      node.next, node.prev := head, null;
      if head == null {
        tail := node;
      } else {
        head.prev := node;
      }
      head, len, nodes := node, len + 1, [node] + nodes;
      SeparateIsDistinct(nodes);
    }

    method PushBackNode(node: Node<T>)
      requires Valid() && node !in nodes
      modifies this, nodes, node
      ensures Valid() && nodes == old(nodes) + [node]
    {
      SeparateIsDistinct(nodes);
      node.next, node.prev := null, tail;
      if tail == null {
        head := node;
      } else {
        tail.next := node;
      }
      tail, len, nodes := node, len + 1, nodes + [node];
      SeparateIsDistinct(nodes);
    }

    method PopFrontNode() returns (node: Node?<T>)
      requires Valid()
      modifies this, nodes
      ensures Valid() && node == old(head)
      ensures nodes == if old(nodes) == [] then [] else old(nodes)[1..]
    {
      SeparateIsDistinct(nodes);
      node := head;
      if node != null {
        head := node.next;
        if head == null {
          tail := null;
        } else {
          head.prev := null;
        }
        len, nodes := len - 1, nodes[1..];
        SeparateIsDistinct(nodes);
      }
    }

    method PopBackNode() returns (node: Node?<T>)
      requires Valid()
      modifies this, nodes
      ensures Valid() && node == old(tail)
      ensures nodes == if old(nodes) == [] then [] else old(nodes)[..|old(nodes)| - 1]
    {
      SeparateIsDistinct(nodes);
      node := tail;
      if node != null {
        tail := node.prev;
        if tail == null {
          head := null;
        } else {
          tail.next := null;
        }
        len, nodes := len - 1, nodes[..|nodes| - 1];
        SeparateIsDistinct(nodes);
      }
    }

    /** Takes a node of this list out of it, wherever it is. */
    method UnlinkNode(node: Node<T>, ghost i: nat)
      requires Valid() && i < |nodes| && nodes[i] == node
      modifies this, node.prev, node.next
      ensures Valid() && nodes == old(nodes)[..i] + old(nodes)[i + 1..]
    {
      ghost var a, b := nodes[..i], nodes[i + 1..];
      SeparateIsDistinct(nodes);
      assert nodes == a + [node] + b;
      PartsAround(a, node, b);
      Bypass(node, a, b);
      if node.prev == null {
        head := node.next;
      }
      if node.next == null {
        tail := node.prev;
      }
      len, nodes := len - 1, a + b;
      JoinParts(a, b);
      SeparateIsDistinct(nodes);
    }

    /** Exchanges the contents of two lists. */
    method Swap(other: LinkedList<T>)
      requires Valid() && other.Valid() && other != this
      modifies this, other
      ensures Valid() && other.Valid() && nodes == old(other.nodes) && other.nodes == old(nodes)
    {
      head, other.head := other.head, head;
      tail, other.tail := other.tail, tail;
      len, other.len := other.len, len;
      nodes, other.nodes := other.nodes, nodes;
    }

    /** Moves all nodes of the other list to the end of this one. */
    method Append(other: LinkedList<T>)
      requires Valid() && other.Valid() && other != this
      requires forall n :: n in nodes ==> n !in other.nodes
      modifies this, other, nodes, other.nodes
      ensures Valid() && other.Valid()
      ensures nodes == old(nodes) + old(other.nodes) && other.nodes == []
    {
      if tail == null {
        Swap(other);
      } else if other.head != null {
        SeparateIsDistinct(nodes);
        SeparateIsDistinct(other.nodes);
        Connect(tail, other.head, nodes, other.nodes);
        tail, len, nodes := other.tail, len + other.len, nodes + other.nodes;
        other.head, other.tail, other.len, other.nodes := null, null, 0, [];
        SeparateIsDistinct(nodes);
      }
    }

    /** Cuts the list in two: the first `at` nodes stay, the others form the returned list. */
    method SplitOff(at: nat) returns (second: LinkedList<T>)
      requires Valid() && at <= len
      modifies this, nodes
      ensures Valid() && second.Valid() && fresh(second)
      ensures nodes == old(nodes)[..at] && second.nodes == old(nodes)[at..]
    {
      second := new LinkedList<T>();
      if at == 0 {
        Swap(second);
      } else if at < len {
        MoveSecondPart(at, second);
      }
    }

    /** Moves everything from position `at` on into an empty list. */
    method MoveSecondPart(at: nat, second: LinkedList<T>)
      requires Valid() && 0 < at < len && second != this
      modifies this, nodes, second
      ensures Valid() && second.Valid()
      ensures nodes == old(nodes)[..at] && second.nodes == old(nodes)[at..]
    {
      var split := Walk(at);
      var rest := Disconnect(split, nodes, at);
      second.head, second.tail, second.len, second.nodes := rest, tail, len - at, nodes[at..];
      tail, len, nodes := split, at, nodes[..at];
    }

    /** The node before position `at`, reached from the nearer end. */
    method Walk(at: nat) returns (node: Node<T>)
      requires Valid() && 0 < at < len
      ensures node == nodes[at - 1]
    {
      if at - 1 <= len - 1 - (at - 1) {
        node := head;
        for k := 0 to at - 1
          invariant node == nodes[k]
        {
          node := node.next;
        }
      } else {
        node := tail;
        for k := 0 to len - 1 - (at - 1)
          invariant node == nodes[len - 1 - k]
        {
          node := node.prev;
        }
      }
    }

    /** Inserts an element before the node a forward iteration would return next. */
    method InsertNext(cursor: Node?<T>, element: T, ghost i: nat)
      requires Valid() && i <= |nodes| && cursor == At(nodes, i)
      modifies this, nodes
      ensures Valid() && |nodes| == |old(nodes)| + 1
      ensures nodes[i].element == element && fresh(nodes[i])
      ensures nodes == old(nodes)[..i] + [nodes[i]] + old(nodes)[i..]
    {
      var node := new Node(element);
      if cursor == null {
        PushBackNode(node);
      } else if cursor.prev == null {
        PushFrontNode(node);
      } else {
        SeparateIsDistinct(nodes);
        InsertBetween(cursor.prev, node, cursor, nodes[..i], nodes[i..]);
        len, nodes := len + 1, nodes[..i] + [node] + nodes[i..];
        SeparateIsDistinct(nodes);
      }
    }

    /** Goes on to the next element the predicate holds of, and takes it out of the list. */
    method DrainNext(it: Node?<T>, pred: T -> bool, ghost i: nat, ghost frame: set<Node<T>>)
      returns (found: Option<T>, it': Node?<T>, ghost i': nat)
      requires Valid() && i <= |nodes| && it == At(nodes, i)
      requires forall j :: 0 <= j < |nodes| ==> nodes[j] in frame
      modifies this, frame
      ensures Valid() && i <= i' <= |nodes| && it' == At(nodes, i')
      ensures forall j :: 0 <= j < |nodes| ==> nodes[j] in frame
      ensures var was := Elements(old(nodes));
              && i' <= |was| && (forall j :: i <= j < i' ==> !pred(was[j]))
              && match found
                 case None => i' == |was| && Elements(nodes) == was
                 case Some(x) => i' < |was| && x == was[i'] && pred(x) && Elements(nodes) == was[..i'] + was[i' + 1..]
    {
      it', i', found := it, i, None;
      while it' != null
        invariant i <= i' <= |nodes| && it' == At(nodes, i')
        invariant forall j :: i <= j < i' ==> !pred(nodes[j].element)
        decreases |nodes| - i'
      {
        var node := it';
        it' := node.next;
        if pred(node.element) {
          UnlinkNode(node, i');
          return Some(node.element), it', i';
        }
        i' := i' + 1;
      }
    }

    /** Removes and returns, in order, the elements a predicate holds of. */
    method DrainFilter(pred: T -> bool) returns (removed: seq<T>)
      requires Valid()
      modifies this, nodes
      ensures Valid()
      ensures removed == Where(Elements(old(nodes)), pred)
      ensures Elements(nodes) == Where(Elements(old(nodes)), x => !pred(x))
    {
      ghost var frame, all, keep := (set n | n in nodes), Elements(nodes), (x: T) => !pred(x);
      removed := [];
      var found, it;
      ghost var i: nat, k: nat, now := 0, 0, all;
      found, it, i := DrainNext(head, pred, 0, frame);
      k, now := i, if found.Some? then all[..i] + all[i + 1..] else all;
      DrainedFirst(all, found, i, pred, keep);
      while found.Some?
        invariant Valid() && i <= |nodes| && it == At(nodes, i) && now == Elements(nodes)
        invariant forall j :: 0 <= j < |nodes| ==> nodes[j] in frame
        invariant Drained(all, k, found, removed, now, i, pred, keep)
        decreases found.Some?, |nodes|
      {
        removed := removed + [found.value];
        ghost var was, from := now, i;
        found, it, i := DrainNext(it, pred, i, frame);
        now := if found.Some? then was[..i] + was[i + 1..] else was;
        ghost var k' := k + 1 + (i - from);
        DrainedOn(all, k, k', found, removed, was, now, from, i, pred, keep);
        k := k';
      }
      DrainedAll(all, k, removed, now, i, pred, keep);
    }
  }

  /**
   * The state of draining: the elements before position k have been sorted into those removed and
   * those before position i of the list; the element at k, if any, has been found and unlinked.
   */
  ghost predicate Drained<T>(all: seq<T>, k: nat, found: Option<T>, removed: seq<T>, now: seq<T>, i: nat,
                             pred: T -> bool, keep: T -> bool) {
    && k <= |all| && i <= |now|
    && removed == WhereUpTo(all, k, pred)
    && now[..i] == WhereUpTo(all, k, keep)
    && if found.Some? then k < |all| && found.value == all[k] && pred(all[k]) && now[i..] == all[k + 1..]
       else k == |all| && i == |now|
  }

  lemma {:induction false} DrainedAll<T>(all: seq<T>, k: nat, removed: seq<T>, now: seq<T>, i: nat, pred: T -> bool,
                                         keep: T -> bool)
    requires Drained(all, k, None, removed, now, i, pred, keep)
    ensures removed == Where(all, pred) && now == Where(all, keep)
  {
    assert now[..i] == now;
  }

  lemma {:induction false} DrainedFirst<T>(all: seq<T>, found: Option<T>, i: nat, pred: T -> bool, keep: T -> bool)
    requires i <= |all| && (forall x :: keep(x) <==> !pred(x)) && (forall j :: 0 <= j < i ==> !pred(all[j]))
    requires if found.Some? then i < |all| && found.value == all[i] && pred(all[i]) else i == |all|
    ensures var now := if found.Some? then all[..i] + all[i + 1..] else all;
            Drained(all, i, found, [], now, i, pred, keep)
  {
    Passed(all, 0, i, pred, keep);
    assert [] + all[0..i] == all[..i];
    if found.Some? {
      CutOut(all, i, all[..i] + all[i + 1..]);
    }
  }

  /** Elements the predicate does not hold of are kept as they are. */
  lemma {:induction false} Passed<T>(all: seq<T>, k: nat, m: nat, pred: T -> bool, keep: T -> bool)
    requires k <= m <= |all| && (forall x :: keep(x) <==> !pred(x)) && forall j :: k <= j < m ==> !pred(all[j])
    ensures WhereUpTo(all, m, pred) == WhereUpTo(all, k, pred)
    ensures WhereUpTo(all, m, keep) == WhereUpTo(all, k, keep) + all[k..m]
  {
    if k < m {
      Passed(all, k, m - 1, pred, keep);
      assert all[k..m] == all[k..m - 1] + [all[m - 1]];
    }
  }

  /** Removing the found element and searching on from there. */
  lemma {:induction false} DrainedOn<T>(all: seq<T>, k: nat, k': nat, found: Option<T>, removed: seq<T>, was: seq<T>,
                                        now: seq<T>, from: nat, i: nat, pred: T -> bool, keep: T -> bool)
    requires k < |all| && pred(all[k]) && (forall x :: keep(x) <==> !pred(x))
    requires removed == WhereUpTo(all, k, pred) + [all[k]]
    requires from <= i <= |was| && was[..from] == WhereUpTo(all, k, keep) && was[from..] == all[k + 1..]
    requires forall j :: from <= j < i ==> !pred(was[j])
    requires if found.Some? then i < |was| && found.value == was[i] && pred(was[i]) else i == |was|
    requires now == (if found.Some? then was[..i] + was[i + 1..] else was) && k' == k + 1 + (i - from)
    ensures Drained(all, k', found, removed, now, i, pred, keep)
  {
    SortedOn(all, k, k', was, from, i, pred, keep);
    if found.Some? {
      CutOut(was, i, now);
      assert was[i] == was[i..][0] && was[i + 1..] == was[i..][1..];
      assert all[k'] == all[k'..][0] && all[k' + 1..] == all[k'..][1..];
    }
  }

  lemma {:induction false} SortedOn<T>(all: seq<T>, k: nat, k': nat, was: seq<T>, from: nat, i: nat, pred: T -> bool,
                                       keep: T -> bool)
    requires k < |all| && pred(all[k]) && (forall x :: keep(x) <==> !pred(x))
    requires from <= i <= |was| && was[..from] == WhereUpTo(all, k, keep) && was[from..] == all[k + 1..]
    requires (forall j :: from <= j < i ==> !pred(was[j])) && k' == k + 1 + (i - from)
    ensures k' <= |all| && WhereUpTo(all, k', pred) == WhereUpTo(all, k, pred) + [all[k]]
    ensures was[..i] == WhereUpTo(all, k', keep) && was[i..] == all[k'..]
  {
    MovedOn(all, k + 1, k', was, from, i);
    PassedFrom(all, k + 1, k', was, from, pred);
    Passed(all, k + 1, k', pred, keep);
  }

  lemma {:induction false} MovedOn<T>(all: seq<T>, k: nat, k': nat, was: seq<T>, from: nat, i: nat)
    requires k <= |all| && from <= i <= |was| && was[from..] == all[k..] && k' == k + (i - from)
    ensures k' <= |all| && was[..i] == was[..from] + all[k..k'] && was[i..] == all[k'..]
  {
    assert |was| - from == |all| - k;
    assert was == was[..from] + all[k..];
    Shifted(all, k, was[..from], i - from, was, i);
  }

  lemma {:induction false} PassedFrom<T>(all: seq<T>, k: nat, m: nat, was: seq<T>, from: nat, pred: T -> bool)
    requires k <= m <= |all| && from + (m - k) <= |was| && was[from..] == all[k..]
    requires forall j :: from <= j < from + (m - k) ==> !pred(was[j])
    ensures forall j :: k <= j < m ==> !pred(all[j])
  {
    forall j | k <= j < m
      ensures !pred(all[j])
    {
      assert all[j] == all[k..][j - k] == was[from..][j - k] == was[from + (j - k)];
    }
  }

  lemma {:induction false} Shifted<T>(all: seq<T>, k: nat, kept: seq<T>, d: nat, was: seq<T>, i: nat)
    requires k + d <= |all| && was == kept + all[k..] && i == |kept| + d
    ensures was[..i] == kept + all[k..k + d] && was[i..] == all[k + d..]
  {
  }

  lemma {:induction false} CutOut<T>(was: seq<T>, i: nat, now: seq<T>)
    requires i < |was| && now == was[..i] + was[i + 1..]
    ensures now[..i] == was[..i] && now[i..] == was[i + 1..]
  {
  }

  lemma {:induction false} Neighbours<T>(nodes: seq<Node<T>>, i: nat)
    requires Forward(nodes, null) && Backward(nodes, null) && i < |nodes|
    ensures nodes[i].prev == null || nodes[i].prev in nodes
    ensures nodes[i].next == null || nodes[i].next in nodes
  {
  }

  lemma {:induction false} Parts<T>(a: seq<Node<T>>, b: seq<Node<T>>)
    requires a != [] && b != [] && Linked(a + b)
    ensures Distinct(a) && Distinct(b) && Forward(a, b[0]) && Forward(b, null) && Backward(a, null) &&
            Backward(b, a[|a| - 1])
    ensures forall i, j :: 0 <= i < |a| && 0 <= j < |b| ==> a[i] != b[j]
  {
    var ab := a + b;
    assert forall i :: 0 <= i < |a| ==> ab[i] == a[i];
    assert forall i :: 0 <= i < |b| ==> ab[|a| + i] == b[i];
    forall i, j | 0 <= i < |a| && 0 <= j < |b|
      ensures a[i] != b[j]
    {
      assert ab[i] != ab[|a| + j];
    }
  }

  lemma {:induction false} JoinAround<T>(a: seq<Node<T>>, node: Node<T>, b: seq<Node<T>>)
    requires a != [] && b != [] && Distinct(a) && Distinct(b) && node !in a && node !in b
    requires forall i, j :: 0 <= i < |a| && 0 <= j < |b| ==> a[i] != b[j]
    requires Forward(a, node) && Forward(b, null) && Backward(a, null) && Backward(b, node)
    requires node.next == b[0] && node.prev == a[|a| - 1]
    ensures Linked(a + [node] + b)
  {
  }

  /** Links a new node in between two neighbours. */
  method InsertBetween<T>(before: Node<T>, node: Node<T>, after: Node<T>, ghost a: seq<Node<T>>, ghost b: seq<Node<T>>)
    requires a != [] && b != [] && Linked(a + b) && node !in a && node !in b
    requires before == a[|a| - 1] && after == b[0]
    modifies a, b, node
    ensures Linked(a + [node] + b)
  {
    Parts(a, b);
    assert forall i :: 0 <= i < |a| ==> a[i] != node;
    assert forall i :: 0 <= i < |b| ==> b[i] != node;
    node.next, node.prev := after, before;
    before.next := node;
    after.prev := node;
    JoinAround(a, node, b);
  }

  /** Separates two neighbouring parts of a chain; returns the first node of the second part. */
  method Disconnect<T>(split: Node<T>, ghost nodes: seq<Node<T>>, ghost at: nat) returns (rest: Node<T>)
    requires Chained(nodes) && 0 < at < |nodes| && split == nodes[at - 1]
    modifies nodes
    ensures Chained(nodes[..at]) && Chained(nodes[at..]) && rest == nodes[at]
  {
    SeparateIsDistinct(nodes);
    rest := split.next;
    split.next := null;
    rest.prev := null;
    SeparateIsDistinct(nodes[..at]);
    SeparateIsDistinct(nodes[at..]);
  }

  /** The elements among the first k that a predicate holds of, in order. */
  function WhereUpTo<T>(s: seq<T>, k: nat, p: T -> bool): seq<T>
    requires k <= |s|
  {
    if k == 0 then [] else WhereUpTo(s, k - 1, p) + if p(s[k - 1]) then [s[k - 1]] else []
  }

  function Where<T>(s: seq<T>, p: T -> bool): seq<T> {
    WhereUpTo(s, |s|, p)
  }

  /** Splitting a list anywhere and appending the second part restores it. */
  method SplitThenAppend<T>(list: LinkedList<T>, at: nat)
    requires list.Valid() && at <= list.len
    modifies list, list.nodes
    ensures list.Valid() && list.nodes == old(list.nodes)
  {
    SeparateIsDistinct(list.nodes);
    var second := list.SplitOff(at);
    assert forall n :: n in list.nodes ==> n !in second.nodes;
    list.Append(second);
  }
}
