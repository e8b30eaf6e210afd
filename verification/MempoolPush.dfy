/** Admitting one transaction against its sender's account (mempool/src/lib.rs, `push_transaction`). */
module MempoolPush {
  import opened Prelude
  import opened Transactions
  import opened OrderedSets
  import opened MempoolGreedy

  datatype ReturnCode = FeeTooLow | Invalid | Accepted | Known | Filtered

  /** Fee threshold below which a transaction counts as free. */
  const TRANSACTION_RELAY_FEE_MIN: real := 1.0

  /** Maximum number of free transactions per sender. */
  const FREE_TRANSACTIONS_PER_SENDER_MAX: nat := 10

  predicate IsFree(t: Tx) {
    t.feePerByte < TRANSACTION_RELAY_FEE_MIN
  }

  /** The verdict on a new transaction: refused, or admitted at the price of evicting others. */
  datatype Verdict = Refuse(code: ReturnCode) | Admit(evicted: seq<Tx>)

  /** How many held transactions rank above a new one. */
  function Rank(less: Order, held: seq<Tx>, tx: Tx): (k: nat)
    ensures k <= |held|
  {
    if held == [] || less(held[0], tx) then 0 else 1 + Rank(less, held[1..], tx)
  }

  /** The new transaction is applied after all higher ones; lower ones that no longer fit are evicted. */
  function SenderVerdict<A>(less: Order, commit: Commit<A>, acceptsBalance: (A, A) -> bool, account: A, held: seq<Tx>,
                            tx: Tx): Verdict {
    var k := Rank(less, held, tx);
    match CommitAll(commit, account, held[..k])
    case None => Refuse(Invalid)
    case Some(before) =>
      if k >= TRANSACTIONS_PER_SENDER_MAX then Refuse(FeeTooLow)
      else match commit(before, tx)
        case None => Refuse(Invalid)
        case Some(after) =>
          if !acceptsBalance(before, after) then Refuse(Filtered)
          else Admit(Greedy(commit, after, k + 1, held[k..]).dropped)
  }

  method CheckSender<A>(less: Order, commit: Commit<A>, acceptsBalance: (A, A) -> bool, senderAccount: A, held: seq<Tx>,
                        tx: Tx) returns (v: Verdict)
    ensures v == SenderVerdict(less, commit, acceptsBalance, senderAccount, held, tx)
  {
    var account, i := senderAccount, 0;
    assert held[0..] == held;
    while i < |held| && !less(held[i], tx)
      invariant i <= |held|
      invariant Rank(less, held, tx) == i + Rank(less, held[i..], tx)
      invariant CommitAll(commit, senderAccount, held[..i]) == Some(account)
    {
      assert held[i..][1..] == held[i + 1..];
      CommitAllStep(commit, senderAccount, held, i);
      match commit(account, held[i]) {
        case None =>
          CommitAllFails(commit, senderAccount, held, i, Rank(less, held, tx));
          return Refuse(Invalid);
        case Some(next) => account := next;
      }
      i := i + 1;
    }
    if i >= TRANSACTIONS_PER_SENDER_MAX {
      return Refuse(FeeTooLow);
    }
    var before := account;
    match commit(account, tx) {
      case None => return Refuse(Invalid);
      case Some(next) => account := next;
    }
    if !acceptsBalance(before, account) {
      return Refuse(Filtered);
    }
    var evicted := EvictLower(commit, account, i + 1, held[i..]);
    return Admit(evicted);
  }

  /** Applies the lower transactions one by one and collects those that do not fit. */
  method EvictLower<A>(commit: Commit<A>, senderAccount: A, used: nat, lower: seq<Tx>) returns (evicted: seq<Tx>)
    ensures evicted == Greedy(commit, senderAccount, used, lower).dropped
  {
    evicted := [];
    var account, count: nat := senderAccount, used;
    assert lower[0..] == lower;
    for i := 0 to |lower|
      invariant evicted + Greedy(commit, account, count, lower[i..]).dropped ==
                Greedy(commit, senderAccount, used, lower).dropped
    {
      assert lower[i..][1..] == lower[i + 1..];
      if count < TRANSACTIONS_PER_SENDER_MAX {
        match commit(account, lower[i]) {
          case Some(next) => account, count := next, count + 1;
          case None => evicted := evicted + [lower[i]];
        }
      } else {
        evicted := evicted + [lower[i]];
      }
    }
  }

  lemma {:induction false} CommitAllStep<A>(commit: Commit<A>, account: A, q: seq<Tx>, i: nat)
    requires i < |q| && CommitAll(commit, account, q[..i]).Some?
    ensures CommitAll(commit, account, q[..i + 1]) == commit(CommitAll(commit, account, q[..i]).value, q[i])
  {
    CommitAllSplit(commit, account, q[..i], [q[i]]);
    assert q[..i + 1] == q[..i] + [q[i]];
  }

  lemma {:induction false} CommitAllFails<A>(commit: Commit<A>, account: A, q: seq<Tx>, i: nat, k: nat)
    requires i < k <= |q| && CommitAll(commit, account, q[..i + 1]).None?
    ensures CommitAll(commit, account, q[..k]).None?
  {
    CommitAllSplit(commit, account, q[..i + 1], q[i + 1..k]);
    assert q[..k] == q[..i + 1] + q[i + 1..k];
  }

  /** Free transactions at the low end, counted upwards until the first that is not free or the limit. */
  function FreeTail(q: seq<Tx>): nat {
    if q == [] || !IsFree(q[|q| - 1]) then 0 else 1 + FreeTail(q[..|q| - 1])
  }

  /** Whether a sender has used up its allowance of free transactions. */
  method FreeLimitReached(held: seq<Tx>) returns (reached: bool)
    ensures reached <==> FreeTail(held) >= FREE_TRANSACTIONS_PER_SENDER_MAX
  {
    var free, i := 0, |held|;
    assert held[..i] == held;
    while i > 0
      invariant 0 <= i <= |held| && free < FREE_TRANSACTIONS_PER_SENDER_MAX
      invariant FreeTail(held) == free + FreeTail(held[..i])
    {
      assert held[..i][..i - 1] == held[..i - 1];
      if !IsFree(held[i - 1]) {
        return false;
      }
      free := free + 1;
      if free >= FREE_TRANSACTIONS_PER_SENDER_MAX {
        return true;
      }
      i := i - 1;
    }
    return false;
  }

  /** As fees lead the order, stopping at the first paying transaction misses no free one. */
  lemma {:induction false} FreeTailCountsAll(less: Order, held: seq<Tx>)
    requires IsMempoolOrder(less) && Descending(less, held)
    ensures FreeTail(held) == |Filter(held, t => IsFree(t))|
    decreases |held|
  {
    if held != [] {
      var last := |held| - 1;
      FilterSnoc(held[..last], held[last], t => IsFree(t));
      assert held == held[..last] + [held[last]];
      if IsFree(held[last]) {
        FreeTailCountsAll(less, held[..last]);
      } else {
        forall t | t in held
          ensures !IsFree(t)
        {
        }
        assert forall t :: t in held[..last] ==> t in held;
        FilterNone(held[..last], t => IsFree(t));
      }
    }
  }

  lemma {:induction false} FilterSnoc(q: seq<Tx>, x: Tx, keep: Tx -> bool)
    ensures Filter(q + [x], keep) == Filter(q, keep) + if keep(x) then [x] else []
  {
    if q != [] {
      assert (q + [x])[1..] == q[1..] + [x];
      FilterSnoc(q[1..], x, keep);
    }
  }

  lemma {:induction false} FilterNone(q: seq<Tx>, keep: Tx -> bool)
    requires forall t :: t in q ==> !keep(t)
    ensures Filter(q, keep) == []
  {
    if q != [] {
      FilterNone(q[1..], keep);
    }
  }

  /** Merging in a single transaction puts it at its rank. */
  lemma {:induction false} MergeOne(less: Order, held: seq<Tx>, tx: Tx)
    ensures var k := Rank(less, held, tx);
            Merge(less, held, [tx]) == held[..k] + ([tx] + held[k..])
  {
    if held != [] && !less(held[0], tx) {
      MergeOne(less, held[1..], tx);
      var k := Rank(less, held, tx);
      assert held[1..][..k - 1] == held[1..k] && held[1..][k - 1..] == held[k..];
      assert held[..k] == [held[0]] + held[1..k];
    } else {
      assert [tx][1..] == [];
    }
  }

  lemma {:induction false} MergeTakes<A>(less: Order, commit: Commit<A>, account: A, held: seq<Tx>, tx: Tx, k: nat,
                                         before: A, after: A)
    requires k == Rank(less, held, tx) && CommitAll(commit, account, held[..k]) == Some(before)
    requires k < TRANSACTIONS_PER_SENDER_MAX && commit(before, tx) == Some(after)
    ensures Greedy(commit, account, 0, Merge(less, held, [tx])) ==
            After(held[..k] + [tx], Greedy(commit, after, k + 1, held[k..]))
  {
    var h, l := held[..k], held[k..];
    MergeOne(less, held, tx);
    GreedyAfterPrefix(commit, account, 0, h, [tx] + l);
    assert ([tx] + l)[1..] == l;
    GreedyTakes(commit, before, k, [tx] + l, after);
    var rest := Greedy(commit, after, k + 1, l);
    assert h + ([tx] + rest.kept) == h + [tx] + rest.kept;
  }

  lemma {:induction false} MergeSkips<A>(less: Order, commit: Commit<A>, account: A, held: seq<Tx>, tx: Tx, k: nat,
                                         before: A)
    requires k == Rank(less, held, tx) && CommitAll(commit, account, held[..k]) == Some(before)
    requires CommitAll(commit, account, held).Some? && |held| <= TRANSACTIONS_PER_SENDER_MAX
    requires k >= TRANSACTIONS_PER_SENDER_MAX || commit(before, tx).None?
    ensures Greedy(commit, account, 0, Merge(less, held, [tx])) == Selection(held, [tx])
  {
    var h, l := held[..k], held[k..];
    assert held == h + l;
    MergeOne(less, held, tx);
    CommitAllSplit(commit, account, h, l);
    GreedyAfterPrefix(commit, account, 0, h, [tx] + l);
    assert ([tx] + l)[1..] == l;
    GreedyKeepsFitting(commit, before, k, l);
  }

  /**
   * An admitted transaction and those evicted for it are what merging it into the sender's set would
   * choose. What stays can be applied in order and respects the limit, even if what was held before
   * did not fit any more.
   */
  lemma {:induction false} AdmitIsMerge<A>(less: Order, commit: Commit<A>, acceptsBalance: (A, A) -> bool, account: A,
                                           held: seq<Tx>, tx: Tx, s: Selection)
    requires SenderVerdict(less, commit, acceptsBalance, account, held, tx).Admit?
    requires s == Greedy(commit, account, 0, Merge(less, held, [tx]))
    ensures s.dropped == SenderVerdict(less, commit, acceptsBalance, account, held, tx).evicted
    ensures held[..Rank(less, held, tx)] + [tx] <= s.kept
    ensures CommitAll(commit, account, s.kept).Some? && |s.kept| <= TRANSACTIONS_PER_SENDER_MAX
  {
    var k := Rank(less, held, tx);
    var before := CommitAll(commit, account, held[..k]).value;
    MergeTakes(less, commit, account, held, tx, k, before, commit(before, tx).value);
    GreedyFits(commit, account, 0, Merge(less, held, [tx]));
  }

  /**
   * Pushing decides exactly as merging would, whatever is held: an admitted transaction is kept and
   * the same ones go; a refusal other than by the balance filter is a merge that keeps what is held
   * and drops the new one, provided what is held still fits.
   */
  lemma {:induction false} PushIsMerge<A>(less: Order, commit: Commit<A>, acceptsBalance: (A, A) -> bool, account: A,
                                          held: seq<Tx>, tx: Tx, s: Selection)
    requires s == Greedy(commit, account, 0, Merge(less, held, [tx]))
    ensures match SenderVerdict(less, commit, acceptsBalance, account, held, tx)
            case Admit(evicted) => held[..Rank(less, held, tx)] + [tx] <= s.kept && s.dropped == evicted
            case Refuse(code) =>
              CommitAll(commit, account, held).Some? && |held| <= TRANSACTIONS_PER_SENDER_MAX && code != Filtered ==>
                s == Selection(held, [tx])
  {
    var v := SenderVerdict(less, commit, acceptsBalance, account, held, tx);
    if v.Admit? {
      AdmitIsMerge(less, commit, acceptsBalance, account, held, tx, s);
    } else if CommitAll(commit, account, held).Some? && |held| <= TRANSACTIONS_PER_SENDER_MAX && v.code != Filtered {
      var k := Rank(less, held, tx);
      assert held == held[..k] + held[k..];
      CommitAllSplit(commit, account, held[..k], held[k..]);
      MergeSkips(less, commit, account, held, tx, k, CommitAll(commit, account, held[..k]).value);
    }
  }
}
