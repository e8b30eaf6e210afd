/** Ordered sets of transactions, written out from the highest element to the lowest. */
module OrderedSets {
  import opened Transactions

  /** Strictly descending: the contents of an ordered set, highest first. */
  ghost predicate Descending(less: Order, q: seq<Tx>) {
    forall i, j :: 0 <= i < j < |q| ==> less(q[j], q[i])
  }

  function Insert(less: Order, q: seq<Tx>, x: Tx): seq<Tx> {
    if q == [] || less(q[0], x) then [x] + q
    else if q[0] == x then q
    else [q[0]] + Insert(less, q[1..], x)
  }

  function Remove(q: seq<Tx>, x: Tx): seq<Tx> {
    if q == [] then []
    else if q[0] == x then q[1..]
    else [q[0]] + Remove(q[1..], x)
  }

  lemma {:induction false} InsertElements(less: Order, q: seq<Tx>, x: Tx)
    ensures forall t :: t in Insert(less, q, x) <==> t in q || t == x
  {
    if q != [] && !less(q[0], x) && q[0] != x {
      InsertElements(less, q[1..], x);
      assert q == [q[0]] + q[1..];
    }
  }

  /** A list is descending when its head is above everything in a descending tail. */
  lemma {:induction false} ConsDescending(less: Order, x: Tx, q: seq<Tx>)
    requires Descending(less, q) && forall t :: t in q ==> less(t, x)
    ensures Descending(less, [x] + q)
  {
  }

  lemma {:induction false} TailDescending(less: Order, q: seq<Tx>)
    requires Descending(less, q) && q != []
    ensures Descending(less, q[1..]) && forall t :: t in q[1..] ==> less(t, q[0])
  {
  }

  lemma {:induction false} InsertDescending(less: Order, q: seq<Tx>, x: Tx)
    requires IsMempoolOrder(less) && Descending(less, q)
    ensures Descending(less, Insert(less, q, x))
  {
    if q == [] {
    } else if less(q[0], x) {
      TailDescending(less, q);
      assert forall t :: t in q ==> t == q[0] || t in q[1..];
      ConsDescending(less, x, q);
    } else if q[0] != x {
      TailDescending(less, q);
      InsertDescending(less, q[1..], x);
      InsertElements(less, q[1..], x);
      ConsDescending(less, q[0], Insert(less, q[1..], x));
    }
  }

  lemma {:induction false} RemoveElements(less: Order, q: seq<Tx>, x: Tx)
    requires IsMempoolOrder(less) && Descending(less, q)
    ensures forall t :: t in Remove(q, x) <==> t in q && t != x
    ensures Descending(less, Remove(q, x))
  {
    if q != [] {
      TailDescending(less, q);
      assert q == [q[0]] + q[1..];
      if q[0] != x {
        RemoveElements(less, q[1..], x);
        ConsDescending(less, q[0], Remove(q[1..], x));
      }
    }
  }

  lemma {:induction false} FirstIsIn(q: seq<Tx>)
    requires q != []
    ensures q[0] in q
  {
  }

  /** A set has only one descending order. */
  lemma {:induction false} DescendingIsUnique(less: Order, p: seq<Tx>, q: seq<Tx>)
    requires IsMempoolOrder(less) && Descending(less, p) && Descending(less, q)
    requires forall t :: t in p <==> t in q
    ensures p == q
  {
    if p == [] {
      if q != [] {
        FirstIsIn(q);
      }
    } else {
      assert p[0] in q;
      assert q[0] in p;
      TailDescending(less, p);
      TailDescending(less, q);
      assert p == [p[0]] + p[1..] && q == [q[0]] + q[1..];
      assert p[0] == q[0];
      forall t
        ensures t in p[1..] <==> t in q[1..]
      {
        assert t in p[1..] ==> t in p && less(t, p[0]);
        assert t in q[1..] ==> t in q && less(t, q[0]);
      }
      DescendingIsUnique(less, p[1..], q[1..]);
    }
  }

  /** The elements that satisfy a condition, in the same order. */
  function Filter(q: seq<Tx>, keep: Tx -> bool): (r: seq<Tx>)
    ensures forall t :: t in r <==> t in q && keep(t)
  {
    if q == [] then []
    else
      assert q == [q[0]] + q[1..];
      if keep(q[0]) then [q[0]] + Filter(q[1..], keep) else Filter(q[1..], keep)
  }

  lemma {:induction false} FilterDescending(less: Order, q: seq<Tx>, keep: Tx -> bool)
    requires Descending(less, q)
    ensures Descending(less, Filter(q, keep))
  {
    if q != [] {
      TailDescending(less, q);
      FilterDescending(less, q[1..], keep);
      if keep(q[0]) {
        ConsDescending(less, q[0], Filter(q[1..], keep));
      }
    }
  }

  /** The two sets in one descending list; on equal elements the first set comes first. */
  function Merge(less: Order, held: seq<Tx>, added: seq<Tx>): seq<Tx> {
    if held == [] then added
    else if added == [] then held
    else if less(held[0], added[0]) then [added[0]] + Merge(less, held, added[1..])
    else [held[0]] + Merge(less, held[1..], added)
  }

  lemma {:induction false} MergeElements(less: Order, held: seq<Tx>, added: seq<Tx>)
    ensures forall t :: t in Merge(less, held, added) <==> t in held || t in added
    decreases |held| + |added|
  {
    if held != [] && added != [] {
      assert held == [held[0]] + held[1..] && added == [added[0]] + added[1..];
      if less(held[0], added[0]) {
        MergeElements(less, held, added[1..]);
      } else {
        MergeElements(less, held[1..], added);
      }
    }
  }

  /** Merging disjoint sets gives their union in descending order. */
  lemma {:induction false} MergeDescending(less: Order, held: seq<Tx>, added: seq<Tx>)
    requires IsMempoolOrder(less) && Descending(less, held) && Descending(less, added)
    requires forall t :: t in held ==> t !in added
    ensures Descending(less, Merge(less, held, added))
    decreases |held| + |added|
  {
    if held != [] && added != [] {
      TailDescending(less, held);
      TailDescending(less, added);
      assert held[0] in held && added[0] in added;
      assert held == [held[0]] + held[1..] && added == [added[0]] + added[1..];
      if less(held[0], added[0]) {
        MergeDescending(less, held, added[1..]);
        MergeElements(less, held, added[1..]);
        ConsDescending(less, added[0], Merge(less, held, added[1..]));
      } else {
        MergeDescending(less, held[1..], added);
        MergeElements(less, held[1..], added);
        ConsDescending(less, held[0], Merge(less, held[1..], added));
      }
    }
  }

  lemma {:induction false} FilterCons(x: Tx, q: seq<Tx>, keep: Tx -> bool)
    ensures Filter([x] + q, keep) == if keep(x) then [x] + Filter(q, keep) else Filter(q, keep)
  {
    assert ([x] + q)[1..] == q;
  }
}
