/** The linked list without repetitions, indexed by a map into its nodes (collections/src/unique_linked_list.rs). */
module UniqueLinkedLists {
  import opened Prelude
  import opened LinkedLists

  ghost predicate Unique<T>(s: seq<T>) {
    forall i, j :: 0 <= i < j < |s| ==> s[i] != s[j]
  }

  /** The sequence without the first occurrence of a value. */
  function Without<T(==)>(s: seq<T>, x: T): seq<T> {
    if s == [] then [] else if s[0] == x then s[1..] else [s[0]] + Without(s[1..], x)
  }

  /** The sequence with a value at its end, unless it is there already. */
  function Including<T(==)>(s: seq<T>, x: T): seq<T> {
    if x in s then s else s + [x]
  }

  /** The sequence followed by those values of another that are new to it. */
  function Extended<T(==)>(s: seq<T>, values: seq<T>): seq<T>
    decreases |values|
  {
    if values == [] then s else Extended(Including(s, values[0]), values[1..])
  }

  lemma {:induction false} WithoutAbsent<T>(s: seq<T>, x: T)
    requires x !in s
    ensures Without(s, x) == s
  {
    if s != [] {
      assert s[0] in s;
      assert forall y :: y in s[1..] ==> y in s;
      WithoutAbsent(s[1..], x);
    }
  }

  lemma {:induction false} WithoutAt<T>(s: seq<T>, i: nat)
    requires i < |s| && Unique(s)
    ensures Without(s, s[i]) == s[..i] + s[i + 1..]
  {
    if i > 0 {
      assert s[0] != s[i];
      WithoutAt(s[1..], i - 1);
      assert s[..i] + s[i + 1..] == [s[0]] + (s[1..][..i - 1] + s[1..][i..]);
    }
  }

  lemma {:induction false} WithoutKeeps<T>(s: seq<T>, x: T)
    requires Unique(s)
    ensures Unique(Without(s, x)) && x !in Without(s, x)
    ensures forall y :: y in s && y != x ==> y in Without(s, x)
  {
    if x in s {
      var i :| 0 <= i < |s| && s[i] == x;
      WithoutAt(s, i);
      forall y | y in s && y != x
        ensures y in s[..i] + s[i + 1..]
      {
        var k :| 0 <= k < |s| && s[k] == y;
        assert k < i ==> s[..i][k] == y;
        assert k > i ==> s[i + 1..][k - i - 1] == y;
      }
    } else {
      WithoutAbsent(s, x);
    }
  }

  /** The map sends each element of the list to exactly its own node. */
  ghost predicate Indexes<T>(index: map<T, Node<T>>, nodes: seq<Node<T>>) {
    && (forall i :: 0 <= i < |nodes| ==> nodes[i].element in index && index[nodes[i].element] == nodes[i])
    && (forall x :: x in index ==> index[x] in nodes && index[x].element == x)
  }

  ghost predicate Owned<T>(nodes: seq<Node<T>>, repr: set<object>) {
    forall j :: 0 <= j < |nodes| ==> nodes[j] in repr
  }

  lemma {:induction false} IndexedOnce<T>(index: map<T, Node<T>>, nodes: seq<Node<T>>)
    requires Indexes(index, nodes) && Separate(nodes)
    ensures Unique(Elements(nodes))
    ensures forall x :: x in index <==> x in Elements(nodes)
  {
    var s := Elements(nodes);
    forall i, j | 0 <= i < j < |s|
      ensures s[i] != s[j]
    {
      assert Slot(nodes, i) && Slot(nodes, j);
    }
    forall x | x in index
      ensures x in s
    {
      var i :| 0 <= i < |nodes| && nodes[i] == index[x];
      assert s[i] == x;
    }
  }

  /** One node fewer: the others keep their entries. */
  lemma {:induction false} IndexWithout<T>(index: map<T, Node<T>>, nodes: seq<Node<T>>, i: nat, rest: seq<Node<T>>)
    requires Indexes(index, nodes) && Separate(nodes) && i < |nodes| && |rest| == |nodes| - 1
    requires forall k :: 0 <= k < |rest| ==> rest[k] == nodes[if k < i then k else k + 1]
    ensures Indexes(index - {nodes[i].element}, rest)
  {
    var x := nodes[i].element;
    forall k | 0 <= k < |rest|
      ensures rest[k].element in index - {x} && (index - {x})[rest[k].element] == rest[k]
    {
      var j := if k < i then k else k + 1;
      assert Slot(nodes, j) && Slot(nodes, i) && rest[k] == nodes[j];
    }
    forall y | y in index - {x}
      ensures (index - {x})[y] in rest && (index - {x})[y].element == y
    {
      var j :| 0 <= j < |nodes| && nodes[j] == index[y];
      var k := if j < i then j else j - 1;
      assert j != i && rest[k] == nodes[j];
    }
  }

  lemma {:induction false} IndexRest<T>(index: map<T, Node<T>>, nodes: seq<Node<T>>, repr: set<object>)
    requires Indexes(index, nodes) && Separate(nodes) && nodes != [] && Owned(nodes, repr)
    ensures Indexes(index - {nodes[0].element}, nodes[1..]) && Owned(nodes[1..], repr)
    ensures Elements(nodes) == [nodes[0].element] + Elements(nodes[1..])
  {
    IndexWithout(index, nodes, 0, nodes[1..]);
  }

  lemma {:induction false} IndexFront<T>(index: map<T, Node<T>>, nodes: seq<Node<T>>)
    requires Indexes(index, nodes) && Separate(nodes) && nodes != []
    ensures Indexes(index - {nodes[|nodes| - 1].element}, nodes[..|nodes| - 1])
    ensures Elements(nodes) == Elements(nodes[..|nodes| - 1]) + [nodes[|nodes| - 1].element]
  {
    IndexWithout(index, nodes, |nodes| - 1, nodes[..|nodes| - 1]);
  }

  ghost function Cut<T>(s: seq<T>, i: nat): seq<T>
    requires i < |s|
  {
    s[..i] + s[i + 1..]
  }

  lemma {:induction false} NodeAt<T>(index: map<T, Node<T>>, nodes: seq<Node<T>>, x: T) returns (i: nat)
    requires Indexes(index, nodes) && x in index
    ensures i < |nodes| && nodes[i] == index[x] && nodes[i].element == x
  {
    i :| i < |nodes| && nodes[i] == index[x];
  }

  lemma {:induction false} IndexDropped<T>(index: map<T, Node<T>>, nodes: seq<Node<T>>, i: nat)
    requires Indexes(index, nodes) && Separate(nodes) && i < |nodes|
    ensures Indexes(index - {nodes[i].element}, Cut(nodes, i))
    ensures Elements(Cut(nodes, i)) == Without(Elements(nodes), nodes[i].element)
  {
    IndexWithout(index, nodes, i, Cut(nodes, i));
    IndexedOnce(index, nodes);
    Dropped(nodes, i);
  }

  lemma {:induction false} Dropped<T>(nodes: seq<Node<T>>, i: nat)
    requires i < |nodes| && Unique(Elements(nodes))
    ensures Elements(nodes[..i] + nodes[i + 1..]) == Without(Elements(nodes), nodes[i].element)
  {
    WithoutAt(Elements(nodes), i);
  }

  lemma {:induction false} IndexPushed<T>(index: map<T, Node<T>>, nodes: seq<Node<T>>, node: Node<T>)
    requires Indexes(index, nodes) && node.element !in index
    ensures Indexes(index[node.element := node], nodes + [node])
    ensures Elements(nodes + [node]) == Elements(nodes) + [node.element]
  {
    assert (nodes + [node])[|nodes|] == node;
    assert forall n :: n in nodes ==> n in nodes + [node];
  }

  lemma {:induction false} IndexPushedFront<T>(index: map<T, Node<T>>, nodes: seq<Node<T>>, node: Node<T>)
    requires Indexes(index, nodes) && node.element !in index
    ensures Indexes(index[node.element := node], [node] + nodes)
    ensures Elements([node] + nodes) == [node.element] + Elements(nodes)
  {
    assert ([node] + nodes)[0] == node;
    assert forall n :: n in nodes ==> n in [node] + nodes;
  }

  class UniqueLinkedList<T(==)> {
    const list: LinkedList<T>
    var index: map<T, Node<T>>
    ghost var Repr: set<object>

    ghost predicate Valid()
      reads this, Repr
      ensures Valid() ==> this !in Repr && list in Repr
    {
      && this !in Repr && list in Repr
      && Owned(list.nodes, Repr)
      && list.Valid() && Indexes(index, list.nodes)
    }

    ghost predicate Apart(other: UniqueLinkedList<T>)
      reads this, other
    {
      this != other && this !in other.Repr && other !in Repr && Repr !! other.Repr
    }

    ghost function Contents(): seq<T>
      reads list
    {
      Elements(list.nodes)
    }

    constructor ()
      ensures Valid() && fresh(Repr) && Contents() == []
    {
      list := new LinkedList<T>();
      index := map[];
      new;
      Repr := {list};
    }

    lemma {:induction false} ContentsUnique()
      requires Valid()
      ensures Unique(Contents())
    {
      IndexedOnce(index, list.nodes);
    }

    method Contains(x: T) returns (b: bool)
      requires Valid()
      ensures b <==> x in Contents()
    {
      IndexedOnce(index, list.nodes);
      b := x in index;
    }

    method PushFront(x: T)
      requires Valid()
      modifies this, Repr
      ensures Valid() && fresh(Repr - old(Repr))
      ensures Contents() == if x in old(Contents()) then old(Contents()) else [x] + old(Contents())
    {
      var present := Contains(x);
      if present {
        return;
      }
      IndexedOnce(index, list.nodes);
      var node := new Node(x);
      AddFront(node);
    }

    method AddFront(node: Node<T>)
      requires Valid() && node !in Repr && node.element !in index
      modifies this, Repr, node
      ensures Valid() && Repr == old(Repr) + {node} && Contents() == [node.element] + old(Contents())
    {
      ghost var index0, nodes, repr := index, list.nodes, Repr;
      list.PushFrontNode(node);
      index, Repr := index[node.element := list.head], repr + {node};
      FrontAdded(index0, nodes, node, repr);
    }

    lemma {:induction false} FrontAdded(index0: map<T, Node<T>>, nodes: seq<Node<T>>, node: Node<T>, repr: set<object>)
      requires Indexes(index0, nodes) && Owned(nodes, repr) && node.element !in index0
      requires this !in Repr && list in Repr && list.Valid() && Repr == repr + {node}
      requires list.nodes == [node] + nodes && index == index0[node.element := node]
      ensures Valid() && Contents() == [node.element] + Elements(nodes)
    {
      IndexPushedFront(index0, nodes, node);
    }

    method PushBack(x: T)
      requires Valid()
      modifies this, Repr
      ensures Valid() && fresh(Repr - old(Repr))
      ensures Contents() == Including(old(Contents()), x)
    {
      var present := Contains(x);
      if present {
        return;
      }
      IndexedOnce(index, list.nodes);
      var node := new Node(x);
      AddBack(node);
    }

    method AddBack(node: Node<T>)
      requires Valid() && node !in Repr && node.element !in index
      modifies this, Repr, node
      ensures Valid() && Repr == old(Repr) + {node} && Contents() == old(Contents()) + [node.element]
    {
      ghost var index0, nodes, repr := index, list.nodes, Repr;
      list.PushBackNode(node);
      index, Repr := index[node.element := list.tail], repr + {node};
      BackAdded(index0, nodes, node, repr);
    }

    lemma {:induction false} BackAdded(index0: map<T, Node<T>>, nodes: seq<Node<T>>, node: Node<T>, repr: set<object>)
      requires Indexes(index0, nodes) && Owned(nodes, repr) && node.element !in index0
      requires this !in Repr && list in Repr && list.Valid() && Repr == repr + {node}
      requires list.nodes == nodes + [node] && index == index0[node.element := node]
      ensures Valid() && Contents() == Elements(nodes) + [node.element]
    {
      IndexPushed(index0, nodes, node);
    }

    method PopFront() returns (r: Option<T>)
      requires Valid()
      modifies this, Repr
      ensures Valid() && Repr == old(Repr)
      ensures old(Contents()) == (if r.Some? then [r.value] else []) + Contents()
      ensures r == None ==> Contents() == []
    {
      ghost var index0, nodes := index, list.nodes;
      var node := list.PopFrontNode();
      if node == null {
        return None;
      }
      r, index := Some(node.element), index - {node.element};
      FrontTaken(index0, nodes);
    }

    lemma {:induction false} FrontTaken(index0: map<T, Node<T>>, nodes: seq<Node<T>>)
      requires nodes != [] && Separate(nodes) && Indexes(index0, nodes) && Owned(nodes, Repr)
      requires this !in Repr && list in Repr && list.Valid()
      requires list.nodes == nodes[1..] && index == index0 - {nodes[0].element}
      ensures Valid() && Elements(nodes) == [nodes[0].element] + Contents()
    {
      IndexRest(index0, nodes, Repr);
    }

    method PopBack() returns (r: Option<T>)
      requires Valid()
      modifies this, Repr
      ensures Valid() && Repr == old(Repr)
      ensures old(Contents()) == Contents() + if r.Some? then [r.value] else []
      ensures r == None ==> Contents() == []
    {
      var node := list.PopBackNode();
      if node == null {
        return None;
      }
      IndexFront(index, old(list.nodes));
      r, index := Some(node.element), index - {node.element};
    }

    method Remove(x: T) returns (r: Option<T>)
      requires Valid()
      modifies this, Repr
      ensures Valid() && Repr == old(Repr)
      ensures r == if x in old(Contents()) then Some(x) else None
      ensures Contents() == Without(old(Contents()), x)
    {
      IndexedOnce(index, list.nodes);
      if x !in index {
        WithoutAbsent(Contents(), x);
        return None;
      }
      ghost var i := NodeAt(index, list.nodes, x);
      RemoveNode(index[x], i);
      r := Some(x);
    }

    /** Drops the entry of a node and unlinks it. */
    method RemoveNode(node: Node<T>, ghost i: nat)
      requires Valid() && i < |list.nodes| && list.nodes[i] == node
      modifies this, Repr
      ensures Valid() && Repr == old(Repr)
      ensures Contents() == Without(old(Contents()), node.element)
    {
      ghost var index0, nodes := index, list.nodes;
      Neighbours(nodes, i);
      index := index - {node.element};
      list.UnlinkNode(node, i);
      NodeTaken(index0, nodes, i);
    }

    lemma {:induction false} NodeTaken(index0: map<T, Node<T>>, nodes: seq<Node<T>>, i: nat)
      requires i < |nodes| && Separate(nodes) && Indexes(index0, nodes) && Owned(nodes, Repr)
      requires this !in Repr && list in Repr && list.Valid()
      requires list.nodes == Cut(nodes, i) && index == index0 - {nodes[i].element}
      ensures Valid() && Contents() == Without(Elements(nodes), nodes[i].element)
    {
      IndexDropped(index0, nodes, i);
    }

    /** Moves the elements of the other list to the back of this one, dropping those already here. */
    method Append(other: UniqueLinkedList<T>)
      requires Valid() && other.Valid() && Apart(other)
      modifies this, Repr, other, other.Repr
      ensures Valid() && other.Valid() && (forall o :: o in Repr ==> o in old(Repr) || fresh(o)) &&
              other.Repr == old(other.Repr)
      ensures Contents() == Extended(old(Contents()), old(other.Contents())) && other.Contents() == []
    {
      ghost var pending, all := other.Contents(), Extended(Contents(), other.Contents());
      var next := other.PopFront();
      while next.Some?
        invariant Valid() && other.Valid() && Apart(other) && (forall o :: o in Repr ==> o in old(Repr) || fresh(o)) &&
                  other.Repr == old(other.Repr)
        invariant pending == (if next.Some? then [next.value] else []) + other.Contents()
        invariant next == None ==> pending == []
        invariant Extended(Contents(), pending) == all
        decreases |pending|
      {
        pending := other.Contents();
        next := PushThenPop(next.value, other);
      }
    }

    method PushThenPop(x: T, other: UniqueLinkedList<T>) returns (next: Option<T>)
      requires Valid() && other.Valid() && Apart(other)
      modifies this, Repr, other, other.Repr
      ensures Valid() && other.Valid() && Apart(other) && (forall o :: o in Repr ==> o in old(Repr) || fresh(o)) &&
              other.Repr == old(other.Repr)
      ensures Contents() == Including(old(Contents()), x)
      ensures old(other.Contents()) == (if next.Some? then [next.value] else []) + other.Contents()
      ensures next == None ==> other.Contents() == []
    {
      PushBack(x);
      next := other.PopFront();
    }
  }

  /** Appending keeps the list's own elements in place and adds exactly the missing ones. */
  lemma {:induction false} ExtendedIs<T>(s: seq<T>, values: seq<T>)
    requires Unique(s)
    ensures Unique(Extended(s, values)) && s <= Extended(s, values)
    ensures forall x :: x in Extended(s, values) <==> x in s || x in values
    decreases |values|
  {
    if values != [] {
      ExtendedIs(Including(s, values[0]), values[1..]);
      assert values == [values[0]] + values[1..];
    }
  }
}
