/** Choosing which transactions of one sender fit its account (mempool/src/lib.rs). */
module MempoolGreedy {
  import opened Prelude
  import opened Transactions
  import opened OrderedSets

  /** Maximum number of transactions per sender. */
  const TRANSACTIONS_PER_SENDER_MAX: nat := 500

  /** Applies an outgoing transaction to its sender's account, or fails. */
  type Commit<!A> = (A, Tx) -> Option<A>

  function CommitAll<A>(commit: Commit<A>, account: A, q: seq<Tx>): Option<A>
    decreases |q|
  {
    if q == [] then Some(account)
    else match commit(account, q[0])
      case None => None
      case Some(next) => CommitAll(commit, next, q[1..])
  }

  datatype Selection = Selection(kept: seq<Tx>, dropped: seq<Tx>)

  /** One pass from the highest transaction down: keep whatever still fits. */
  function Greedy<A>(commit: Commit<A>, account: A, count: nat, q: seq<Tx>): Selection
    decreases |q|
  {
    if q == [] then Selection([], [])
    else if count < TRANSACTIONS_PER_SENDER_MAX && commit(account, q[0]).Some? then
      var rest := Greedy(commit, commit(account, q[0]).value, count + 1, q[1..]);
      Selection([q[0]] + rest.kept, rest.dropped)
    else
      var rest := Greedy(commit, account, count, q[1..]);
      Selection(rest.kept, [q[0]] + rest.dropped)
  }

  /** What is kept can be applied in order, and does not exceed the limit. */
  lemma {:induction false} GreedyFits<A>(commit: Commit<A>, account: A, count: nat, q: seq<Tx>)
    requires count <= TRANSACTIONS_PER_SENDER_MAX
    ensures CommitAll(commit, account, Greedy(commit, account, count, q).kept).Some?
    ensures count + |Greedy(commit, account, count, q).kept| <= TRANSACTIONS_PER_SENDER_MAX
    decreases |q|
  {
    if q != [] {
      if count < TRANSACTIONS_PER_SENDER_MAX && commit(account, q[0]).Some? {
        var next := commit(account, q[0]).value;
        GreedyFits(commit, next, count + 1, q[1..]);
        var kept := Greedy(commit, next, count + 1, q[1..]).kept;
        assert ([q[0]] + kept)[1..] == kept;
      } else {
        GreedyFits(commit, account, count, q[1..]);
      }
    }
  }

  lemma {:induction false} GreedyElements<A>(commit: Commit<A>, account: A, count: nat, q: seq<Tx>)
    ensures var s := Greedy(commit, account, count, q);
            forall t :: t in q <==> t in s.kept || t in s.dropped
    decreases |q|
  {
    if q != [] {
      assert q == [q[0]] + q[1..];
      if count < TRANSACTIONS_PER_SENDER_MAX && commit(account, q[0]).Some? {
        GreedyElements(commit, commit(account, q[0]).value, count + 1, q[1..]);
      } else {
        GreedyElements(commit, account, count, q[1..]);
      }
    }
  }

  /** The two parts keep the order and share nothing. */
  lemma {:induction false} GreedyParts<A>(less: Order, commit: Commit<A>, account: A, count: nat, q: seq<Tx>)
    requires IsMempoolOrder(less) && Descending(less, q)
    ensures var s := Greedy(commit, account, count, q);
            Descending(less, s.kept) && Descending(less, s.dropped) && forall t :: t in s.kept ==> t !in s.dropped
    decreases |q|
  {
    if q != [] {
      TailDescending(less, q);
      GreedyElements(commit, account, count, q[1..]);
      if count < TRANSACTIONS_PER_SENDER_MAX && commit(account, q[0]).Some? {
        var next := commit(account, q[0]).value;
        GreedyParts(less, commit, next, count + 1, q[1..]);
        GreedyElements(commit, next, count + 1, q[1..]);
        ConsDescending(less, q[0], Greedy(commit, next, count + 1, q[1..]).kept);
      } else {
        GreedyParts(less, commit, account, count, q[1..]);
        ConsDescending(less, q[0], Greedy(commit, account, count, q[1..]).dropped);
      }
    }
  }

  /** A list that fits is kept as a whole, and choosing continues after it. */
  lemma {:induction false} GreedyAfterPrefix<A>(commit: Commit<A>, account: A, count: nat, h: seq<Tx>, l: seq<Tx>)
    requires CommitAll(commit, account, h).Some? && count + |h| <= TRANSACTIONS_PER_SENDER_MAX
    ensures Greedy(commit, account, count, h + l) ==
            After(h, Greedy(commit, CommitAll(commit, account, h).value, count + |h|, l))
    decreases |h|
  {
    if h == [] {
      assert h + l == l;
      var rest := Greedy(commit, account, count, l);
      assert [] + rest.kept == rest.kept;
    } else {
      var next := commit(account, h[0]).value;
      GreedyAfterPrefix(commit, next, count + 1, h[1..], l);
      assert (h + l)[1..] == h[1..] + l;
      GreedyTakes(commit, account, count, h + l, next);
      AfterCons(h, Greedy(commit, CommitAll(commit, account, h).value, count + |h|, l));
    }
  }

  /** A selection with more kept in front. */
  function After(h: seq<Tx>, s: Selection): Selection {
    Selection(h + s.kept, s.dropped)
  }

  lemma {:induction false} AfterCons(h: seq<Tx>, s: Selection)
    requires h != []
    ensures After([h[0]], After(h[1..], s)) == After(h, s)
  {
    assert [h[0]] + (h[1..] + s.kept) == h + s.kept;
  }

  lemma {:induction false} GreedyTakes<A>(commit: Commit<A>, account: A, count: nat, q: seq<Tx>, next: A)
    requires q != [] && count < TRANSACTIONS_PER_SENDER_MAX && commit(account, q[0]) == Some(next)
    ensures Greedy(commit, account, count, q) == After([q[0]], Greedy(commit, next, count + 1, q[1..]))
  {
  }

  lemma {:induction false} GreedyKeepsFitting<A>(commit: Commit<A>, account: A, count: nat, q: seq<Tx>)
    requires CommitAll(commit, account, q).Some? && count + |q| <= TRANSACTIONS_PER_SENDER_MAX
    ensures Greedy(commit, account, count, q) == Selection(q, [])
  {
    GreedyAfterPrefix(commit, account, count, q, []);
    assert q + [] == q;
  }

  lemma {:induction false} CommitAllSplit<A>(commit: Commit<A>, account: A, h: seq<Tx>, l: seq<Tx>)
    ensures CommitAll(commit, account, h + l) ==
            if CommitAll(commit, account, h).None? then None
            else CommitAll(commit, CommitAll(commit, account, h).value, l)
    decreases |h|
  {
    if h == [] {
      assert h + l == l;
    } else {
      assert (h + l)[1..] == h[1..] + l;
      if commit(account, h[0]).Some? {
        CommitAllSplit(commit, commit(account, h[0]).value, h[1..], l);
      }
    }
  }

  /** The changes a merge asks for: new transactions to add, held ones to remove. */
  datatype Changes = Changes(toAdd: seq<Tx>, toRemove: seq<Tx>)

  /** Walks both sets from the top, the higher transaction first and held ones before equal new ones. */
  function MergeFrom<A>(less: Order, commit: Commit<A>, account: A, count: nat, held: seq<Tx>, added: seq<Tx>): Changes
    decreases |held| + |added|
  {
    if held == [] && added == [] then Changes([], [])
    else if held == [] || (added != [] && less(held[0], added[0])) then
      if count < TRANSACTIONS_PER_SENDER_MAX && commit(account, added[0]).Some? then
        var rest := MergeFrom(less, commit, commit(account, added[0]).value, count + 1, held, added[1..]);
        rest.(toAdd := [added[0]] + rest.toAdd)
      else MergeFrom(less, commit, account, count, held, added[1..])
    else
      if count < TRANSACTIONS_PER_SENDER_MAX && commit(account, held[0]).Some? then
        MergeFrom(less, commit, commit(account, held[0]).value, count + 1, held[1..], added)
      else
        var rest := MergeFrom(less, commit, account, count, held[1..], added);
        rest.(toRemove := [held[0]] + rest.toRemove)
  }

  /** Merges the transactions a sender already has with those of reverted blocks. */
  method MergeTransactions<A>(less: Order, commit: Commit<A>, senderAccount: A, held: seq<Tx>, added: seq<Tx>)
    returns (toAdd: seq<Tx>, toRemove: seq<Tx>)
    ensures Changes(toAdd, toRemove) == MergeFrom(less, commit, senderAccount, 0, held, added)
  {
    toAdd, toRemove := [], [];
    var account, count, i, j := senderAccount, 0, 0, 0;
    ghost var all := MergeFrom(less, commit, senderAccount, 0, held, added);
    assert held[0..] == held && added[0..] == added;
    while i < |held| || j < |added|
      invariant i <= |held| && j <= |added|
      invariant var rest := MergeFrom(less, commit, account, count, held[i..], added[j..]);
                all == Changes(toAdd + rest.toAdd, toRemove + rest.toRemove)
      decreases |held| - i + |added| - j
    {
      var newIsNext := i == |held| || (j < |added| && less(held[i], added[j]));
      if newIsNext {
        assert added[j..][1..] == added[j + 1..];
        if count < TRANSACTIONS_PER_SENDER_MAX {
          match commit(account, added[j]) {
            case Some(next) =>
              account, count := next, count + 1;
              toAdd := toAdd + [added[j]];
            case None =>
          }
        }
        j := j + 1;
      } else {
        assert held[i..][1..] == held[i + 1..];
        if count < TRANSACTIONS_PER_SENDER_MAX {
          match commit(account, held[i]) {
            case Some(next) =>
              account, count := next, count + 1;
            case None =>
              toRemove := toRemove + [held[i]];
          }
        } else {
          toRemove := toRemove + [held[i]];
        }
        i := i + 1;
      }
    }
  }

  /**
   * For disjoint sets the merge is the greedy pass over their union in descending order: it adds
   * exactly the new transactions that pass keeps and removes exactly the held ones it drops.
   */
  lemma {:induction false} MergeIsGreedy<A>(less: Order, commit: Commit<A>, account: A, count: nat, held: seq<Tx>,
                                            added: seq<Tx>, isHeld: Tx -> bool, isNew: Tx -> bool)
    requires forall t :: t in held ==> isHeld(t) && !isNew(t)
    requires forall t :: t in added ==> isNew(t) && !isHeld(t)
    ensures var s := Greedy(commit, account, count, Merge(less, held, added));
            MergeFrom(less, commit, account, count, held, added) ==
            Changes(Filter(s.kept, isNew), Filter(s.dropped, isHeld))
    decreases |held| + |added|
  {
    if held != [] || added != [] {
      var q := Merge(less, held, added);
      var newIsNext := held == [] || (added != [] && less(held[0], added[0]));
      MergeHead(less, held, added);
      var held', added' := if newIsNext then held else held[1..], if newIsNext then added[1..] else added;
      var fits := count < TRANSACTIONS_PER_SENDER_MAX && commit(account, q[0]).Some?;
      var account', count' := if fits then commit(account, q[0]).value else account, if fits then count + 1 else count;
      MergeIsGreedy(less, commit, account', count', held', added', isHeld, isNew);
      var rest := Greedy(commit, account', count', q[1..]);
      FilterCons(q[0], rest.kept, isNew);
      FilterCons(q[0], rest.dropped, isHeld);
    }
  }

  lemma {:induction false} MergeHead(less: Order, held: seq<Tx>, added: seq<Tx>)
    requires held != [] || added != []
    ensures var q := Merge(less, held, added);
            && q != []
            && if held == [] || (added != [] && less(held[0], added[0]))
               then q[0] == added[0] && q[1..] == Merge(less, held, added[1..])
               else q[0] == held[0] && q[1..] == Merge(less, held[1..], added)
  {
  }
}
