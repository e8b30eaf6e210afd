/** The set that forgets its oldest values beyond a limit (collections/src/limit_hash_set.rs). */
module LimitHashSets {
  import opened Prelude
  import opened LinkedLists
  import opened UniqueLinkedLists

  /** The distinct values of a history, each at the place of its most recent use. */
  function LastUses<T(==)>(history: seq<T>): seq<T> {
    if history == [] then []
    else (if history[0] in history[1..] then [] else [history[0]]) + LastUses(history[1..])
  }

  /** The last n values. */
  function Newest<T>(s: seq<T>, n: nat): seq<T> {
    if |s| <= n then s else s[|s| - n..]
  }

  /** What one insertion makes of the content. */
  function Inserted<T(==)>(s: seq<T>, x: T, limit: nat): seq<T> {
    var t := Without(s, x) + [x];
    if |t| > limit then t[1..] else t
  }

  lemma {:induction false} LastUsesIs<T>(history: seq<T>)
    ensures Unique(LastUses(history))
    ensures forall x :: x in LastUses(history) <==> x in history
  {
    if history != [] {
      LastUsesIs(history[1..]);
      assert history == [history[0]] + history[1..];
    }
  }

  lemma {:induction false} WithoutFirst<T>(s: seq<T>, a: T, x: T)
    ensures Without([a] + s, x) == if a == x then s else [a] + Without(s, x)
  {
    assert ([a] + s)[1..] == s;
  }

  lemma {:induction false} LastUsesFirst<T>(a: T, rest: seq<T>)
    ensures LastUses([a] + rest) == if a in rest then LastUses(rest) else [a] + LastUses(rest)
  {
    assert ([a] + rest)[1..] == rest;
  }

  lemma {:induction false} LastUsesAfter<T>(history: seq<T>, x: T)
    ensures LastUses(history + [x]) == Without(LastUses(history), x) + [x]
  {
    if history == [] {
      assert [] + [x] == [x] + [];
      LastUsesFirst(x, []);
    } else {
      var a, rest := history[0], history[1..];
      LastUsesAfter(rest, x);
      assert history == [a] + rest && history + [x] == [a] + (rest + [x]);
      LastUsesFirst(a, rest);
      LastUsesFirst(a, rest + [x]);
      LastUsesMoved(LastUses(rest), a, rest, x);
    }
  }

  lemma {:induction false} LastUsesMoved<T>(r: seq<T>, a: T, rest: seq<T>, x: T)
    requires r == LastUses(rest)
    ensures (if a in rest + [x] then Without(r, x) + [x] else [a] + (Without(r, x) + [x])) ==
            Without(if a in rest then r else [a] + r, x) + [x]
  {
    LastUsesIs(rest);
    if a !in rest {
      WithoutFirst(r, a, x);
      if a == x {
        WithoutAbsent(r, x);
      } else {
        assert [a] + (Without(r, x) + [x]) == [a] + Without(r, x) + [x];
      }
    }
  }

  /** A sequence without repetitions that is its own history. */
  lemma {:induction false} LastUsesOfUnique<T>(s: seq<T>)
    requires Unique(s)
    ensures LastUses(s) == s
  {
    if s != [] {
      LastUsesOfUnique(s[1..]);
      assert s == [s[0]] + s[1..];
    }
  }

  lemma {:induction false} NewestUnique<T>(u: seq<T>, n: nat)
    requires Unique(u)
    ensures Unique(Newest(u, n))
  {
  }

  lemma {:induction false} NewestOf<T>(p: seq<T>, t: seq<T>, n: nat)
    requires |t| == n || (p == [] && |t| <= n)
    ensures Newest(p + t, n) == t
  {
  }

  /** Inserting a value that is not among the newest, wherever it was before. */
  lemma {:induction false} InsertedForgotten<T>(p: seq<T>, s: seq<T>, x: T, limit: nat)
    requires |s| == limit || (p == [] && |s| <= limit)
    requires x !in s
    ensures Inserted(s, x, limit) == Newest(p + s + [x], limit)
  {
    WithoutAbsent(s, x);
    var t := s + [x];
    if |t| <= limit {
      NewestOf(p, t, limit);
      assert p + t == p + s + [x];
    } else {
      NewestOf(p + [t[0]], t[1..], limit);
      assert p + [t[0]] + t[1..] == p + s + [x];
    }
  }

  /** Inserting a value that is among the newest. */
  lemma {:induction false} InsertedAgain<T>(p: seq<T>, s: seq<T>, k: nat, limit: nat)
    requires |s| == limit || (p == [] && |s| <= limit)
    requires Unique(s) && k < |s|
    ensures Inserted(s, s[k], limit) == Newest(p + Cut(s, k) + [s[k]], limit)
  {
    WithoutAt(s, k);
    NewestOf(p, Cut(s, k) + [s[k]], limit);
    assert p + (Cut(s, k) + [s[k]]) == p + Cut(s, k) + [s[k]];
  }

  lemma {:induction false} WithoutRight<T>(p: seq<T>, s: seq<T>, k: nat)
    requires Unique(p + s) && k < |s|
    ensures Without(p + s, s[k]) == p + Cut(s, k)
  {
    WithoutAt(p + s, |p| + k);
    assert (p + s)[|p| + k + 1..] == s[k + 1..] && (p + s)[..|p| + k] == p + s[..k];
  }

  lemma {:induction false} WithoutLeft<T>(p: seq<T>, s: seq<T>, k: nat)
    requires Unique(p + s) && Unique(p) && k < |p|
    ensures Without(p + s, p[k]) == Without(p, p[k]) + s
  {
    WithoutAt(p + s, k);
    WithoutAt(p, k);
    assert (p + s)[k + 1..] == p[k + 1..] + s && (p + s)[..k] == p[..k];
  }

  lemma {:induction false} UniqueLeft<T>(p: seq<T>, s: seq<T>)
    requires Unique(p + s)
    ensures Unique(p)
  {
    assert forall i :: 0 <= i < |p| ==> p[i] == (p + s)[i];
  }

  /** Where a removed value was: before a position, from it on, or nowhere. */
  lemma {:induction false} WithoutFromParts<T>(p: seq<T>, s: seq<T>, x: T)
    requires Unique(p + s)
    ensures x in s ==> exists k :: 0 <= k < |s| && s[k] == x && Without(p + s, x) == p + Cut(s, k)
    ensures x !in s ==> Without(p + s, x) == Without(p, x) + s
  {
    if x in s {
      var k :| 0 <= k < |s| && s[k] == x;
      WithoutRight(p, s, k);
    } else if x in p {
      var k :| 0 <= k < |p| && p[k] == x;
      UniqueLeft(p, s);
      WithoutLeft(p, s, k);
    } else {
      WithoutAbsent(p + s, x);
      WithoutAbsent(p, x);
    }
  }

  /** One insertion into the newest values of a sequence. */
  lemma {:induction false} InsertedIntoNewest<T>(u: seq<T>, x: T, limit: nat)
    requires Unique(u)
    ensures Inserted(Newest(u, limit), x, limit) == Newest(Without(u, x) + [x], limit)
  {
    var s := Newest(u, limit);
    var p := u[..|u| - |s|];
    NewestUnique(u, limit);
    assert u == p + s;
    WithoutFromParts(p, s, x);
    if x in s {
      var k :| 0 <= k < |s| && s[k] == x && Without(p + s, x) == p + Cut(s, k);
      InsertedAgain(p, s, k, limit);
    } else {
      InsertedForgotten(Without(p, x), s, x, limit);
    }
  }

  /**
   * After any run of insertions the content is the last `limit` distinct values, ordered by most
   * recent insertion.
   */
  lemma {:induction false} InsertionKeepsNewest<T>(history: seq<T>, x: T, limit: nat)
    ensures Inserted(Newest(LastUses(history), limit), x, limit) == Newest(LastUses(history + [x]), limit)
  {
    LastUsesIs(history);
    LastUsesAfter(history, x);
    InsertedIntoNewest(LastUses(history), x, limit);
  }

  lemma {:induction false} WithoutSize<T>(s: seq<T>, x: T)
    ensures |Without(s, x)| <= |s|
  {
    if s != [] {
      WithoutSize(s[1..], x);
    }
  }

  /** Distinct values all found in another such sequence: no longer than it, and the same if as long. */
  lemma {:induction false} SameSize<T>(s: seq<T>, t: seq<T>)
    requires Unique(s) && Unique(t) && forall x :: x in s ==> x in t
    ensures |s| <= |t|
    ensures |s| == |t| ==> forall x :: x in t ==> x in s
  {
    if s != [] {
      WithoutKeeps(t, s[0]);
      assert s[0] in s;
      var k :| 0 <= k < |t| && t[k] == s[0];
      WithoutAt(t, k);
      assert s == [s[0]] + s[1..];
      SameSize(s[1..], Without(t, s[0]));
    }
  }

  lemma {:induction false} Onward<T>(s: seq<T>, values: seq<T>, i: nat)
    requires i < |values|
    ensures s + values[..i] + [values[i]] == s + values[..i + 1]
  {
  }

  class LimitHashSet<T(==)> {
    const list: UniqueLinkedList<T>
    const limit: nat

    ghost predicate Valid()
      reads list, list.Repr
    {
      list.Valid() && |list.Contents()| <= limit
    }

    ghost function Contents(): seq<T>
      reads list.list
    {
      list.Contents()
    }

    constructor (limit: nat)
      ensures Valid() && fresh(list) && fresh(list.Repr) && this.limit == limit && Contents() == []
    {
      list := new UniqueLinkedList<T>();
      this.limit := limit;
    }

    method Contains(x: T) returns (b: bool)
      requires Valid()
      ensures b <==> x in Contents()
    {
      b := list.Contains(x);
    }

    method Insert(x: T) returns (absent: bool)
      requires Valid()
      modifies list, list.Repr
      ensures Valid() && fresh(list.Repr - old(list.Repr))
      ensures absent <==> x !in old(Contents())
      ensures Contents() == Inserted(old(Contents()), x, limit)
    {
      var previous, removed := InsertAndTrim(x);
      absent := previous.None?;
    }

    method Replace(x: T) returns (previous: Option<T>)
      requires Valid()
      modifies list, list.Repr
      ensures Valid() && fresh(list.Repr - old(list.Repr))
      ensures previous == if x in old(Contents()) then Some(x) else None
      ensures Contents() == Inserted(old(Contents()), x, limit)
    {
      var removed;
      previous, removed := InsertAndTrim(x);
    }

    /** The value removed, if any, is the oldest of those present. */
    method InsertAndGetRemoved(x: T) returns (removed: Option<T>)
      requires Valid()
      modifies list, list.Repr
      ensures Valid() && fresh(list.Repr - old(list.Repr))
      ensures Contents() == Inserted(old(Contents()), x, limit)
      ensures (if removed.Some? then [removed.value] else []) + Contents() == Without(old(Contents()), x) + [x]
    {
      var previous;
      previous, removed := InsertAndTrim(x);
    }

    method InsertAndTrim(x: T) returns (previous: Option<T>, removed: Option<T>)
      requires Valid()
      modifies list, list.Repr
      ensures Valid() && fresh(list.Repr - old(list.Repr))
      ensures previous == if x in old(Contents()) then Some(x) else None
      ensures Contents() == Inserted(old(Contents()), x, limit)
      ensures (if removed.Some? then [removed.value] else []) + Contents() == Without(old(Contents()), x) + [x]
    {
      previous := MoveToBack(x);
      removed := None;
      if list.list.len > limit {
        removed := list.PopFront();
      }
    }

    /** Leaves the list one longer than the limit when it was full without the value. */
    method MoveToBack(x: T) returns (previous: Option<T>)
      requires Valid()
      modifies list, list.Repr
      ensures list.Valid() && fresh(list.Repr - old(list.Repr))
      ensures previous == if x in old(Contents()) then Some(x) else None
      ensures Contents() == Without(old(Contents()), x) + [x] && |Contents()| <= limit + 1
    {
      list.ContentsUnique();
      WithoutKeeps(list.Contents(), x);
      WithoutSize(list.Contents(), x);
      previous := list.Remove(x);
      list.PushBack(x);
    }

    method Remove(x: T) returns (present: bool)
      requires Valid()
      modifies list, list.Repr
      ensures Valid() && list.Repr == old(list.Repr)
      ensures present <==> x in old(Contents())
      ensures Contents() == Without(old(Contents()), x)
    {
      WithoutSize(list.Contents(), x);
      var removed := list.Remove(x);
      present := removed.Some?;
    }

    /** Inserting a run of values: the content and the values are one history. */
    method Extend(values: seq<T>)
      requires Valid()
      modifies list, list.Repr
      ensures Valid() && (forall o :: o in list.Repr ==> o in old(list.Repr) || fresh(o))
      ensures Contents() == Newest(LastUses(old(Contents()) + values), limit)
    {
      ghost var start, history := Contents(), Contents();
      assert LastUses(start) == start by {
        list.ContentsUnique();
        LastUsesOfUnique(start);
      }
      for i := 0 to |values|
        invariant Valid() && (forall o :: o in list.Repr ==> o in old(list.Repr) || fresh(o))
        invariant history == start + values[..i] && Contents() == Newest(LastUses(history), limit)
      {
        var _ := Insert(values[i]);
        InsertionKeepsNewest(history, values[i], limit);
        Onward(start, values, i);
        history := start + values[..i + 1];
      }
      assert values[..|values|] == values;
    }

    /** Whether the other set holds the same values, in whatever order. */
    method Equals(other: LimitHashSet<T>) returns (b: bool)
      requires Valid() && other.Valid()
      ensures b <==> forall x :: x in Contents() <==> x in other.Contents()
    {
      list.ContentsUnique();
      other.list.ContentsUnique();
      ghost var s, t := Contents(), other.Contents();
      if list.list.len != other.list.list.len {
        if forall x :: x in s <==> x in t {
          SameSize(s, t);
          SameSize(t, s);
        }
        return false;
      }
      var node := list.list.head;
      ghost var i := 0;
      while node != null
        invariant i <= |s| && node == At(list.list.nodes, i)
        invariant forall j :: 0 <= j < i ==> s[j] in t
        decreases |s| - i
      {
        var present := other.Contains(node.element);
        if !present {
          assert s[i] in s && s[i] !in t;
          return false;
        }
        node, i := node.next, i + 1;
      }
      SameSize(s, t);
      b := true;
    }
  }
}
