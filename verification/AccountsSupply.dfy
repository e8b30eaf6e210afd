/** Committing a block conserves coins. */
module AccountsSupply {
  import opened Prelude
  import opened Transactions
  import opened Accounts
  import opened AccountsRevert
  import opened AccountsCoins

  // ---------- sums ----------

  /** The weights of all entries. */
  ghost function Sum<X>(m: map<nat, X>, weight: X -> nat): nat
    decreases |m|
  {
    if m == map[] then 0
    else
      var a :| a in m;
      Smaller(m, a);
      weight(m[a]) + Sum(m - {a}, weight)
  }

  lemma {:induction false} Smaller<X>(m: map<nat, X>, a: nat)
    requires a in m
    ensures |m - {a}| < |m|
  {
    var rest := m - {a};
    assert rest.Keys == m.Keys - {a};
    assert |rest.Keys| == |m.Keys| - 1;
  }

  /** The order in which entries are added up does not matter. */
  lemma {:induction false} SumWithout<X>(m: map<nat, X>, weight: X -> nat, a: nat)
    requires a in m
    ensures Sum(m, weight) == weight(m[a]) + Sum(m - {a}, weight)
    decreases |m|
  {
    var b :| b in m && Sum(m, weight) == weight(m[b]) + Sum(m - {b}, weight);
    if a != b {
      Smaller(m, a);
      Smaller(m, b);
      SumWithout(m - {b}, weight, a);
      SumWithout(m - {a}, weight, b);
      assert (m - {b}) - {a} == (m - {a}) - {b};
    }
  }

  function WeightAt<X>(m: map<nat, X>, weight: X -> nat, a: nat): nat {
    if a in m then weight(m[a]) else 0
  }

  lemma {:induction false} SumUpdate<X>(m: map<nat, X>, weight: X -> nat, a: nat, x: X)
    ensures Sum(m - {a}, weight) + WeightAt(m, weight, a) == Sum(m, weight)
    ensures Sum(m[a := x], weight) + WeightAt(m, weight, a) == Sum(m, weight) + weight(x)
  {
    if a in m {
      SumWithout(m, weight, a);
    } else {
      assert m - {a} == m;
    }
    SumWithout(m[a := x], weight, a);
    assert m[a := x] - {a} == m - {a};
  }

  // ---------- any kind of account ----------

  /** All coins in the tree. */
  ghost function Supply<A>(k: Kind<A>, tree: Tree<A>): nat {
    Sum(tree, k.balance)
  }

  lemma {:induction false} SupplyPut<A>(k: Kind<A>, tree: Tree<A>, a: nat, x: A)
    requires k.balance(k.initial) == 0
    ensures Supply(k, Put(k, tree, a, x)) + k.balance(Get(k, tree, a)) == Supply(k, tree) + k.balance(x)
  {
    SumUpdate(tree, k.balance, a, x);
  }

  /** An operation changes the balance of its account by what its item says. */
  ghost predicate Transfers<A(!new), T(!new)>(k: Kind<A>, op: Op<A, T>, amount: T -> int) {
    forall a, x, r :: op(a, x, r).Success? ==> k.balance(op(a, x, r).value.0) == k.balance(a) + amount(x)
  }

  const Spent: Tx -> int := (t: Tx) => -(t.value + t.fee)
  const Received: Tx -> int := (t: Tx) => t.value
  const Rewarded: Inherent -> int := (i: Inherent) => i.value

  /** New accounts, contracts and pruned accounts do not make or lose coins, and operations say what they transfer. */
  ghost predicate Accountable<A(!new)>(k: Kind<A>, ops: Ops<A>) {
    && k.balance(k.initial) == 0 && KindOk(k) && (forall a :: k.prunable(a) ==> k.balance(a) == 0)
    && Transfers(k, ops.commitOutgoing, Spent) && Transfers(k, ops.commitIncoming, Received)
    && Transfers(k, ops.commitInherent, Rewarded)
  }

  function Total<T>(amount: T -> int, xs: seq<T>): int {
    if xs == [] then 0 else amount(xs[0]) + Total(amount, xs[1..])
  }

  function TotalFees(txs: seq<Tx>): nat {
    if txs == [] then 0 else txs[0].fee + TotalFees(txs[1..])
  }

  /** A phase changes the supply by what its items transfer. */
  lemma {:induction false} PhaseSupply<A(!new), T(!new)>(k: Kind<A>, ph: Phase<A, T>, amount: T -> int, tree: Tree<A>,
                                                         xs: seq<T>, receipts: seq<Option<Data>>)
    requires k.balance(k.initial) == 0 && Transfers(k, ph.op, amount)
    requires |receipts| == |xs| && ApplyAll(k, ph, tree, xs, receipts).Success?
    ensures Supply(k, ApplyAll(k, ph, tree, xs, receipts).value.0) == Supply(k, tree) + Total(amount, xs)
    decreases |xs|
  {
    if xs != [] {
      var a := ph.address(xs[0]);
      SupplyPut(k, tree, a, ph.op(Get(k, tree, a), xs[0], receipts[0]).value.0);
      PhaseSupply(k, ph, amount, Apply(k, ph, tree, xs[0], receipts[0]).value.0, xs[1..], receipts[1..]);
    }
  }

  lemma {:induction false} CreationSupply<A(!new)>(k: Kind<A>, tree: Tree<A>, txs: seq<Tx>)
    requires k.balance(k.initial) == 0 && KindOk(k) && CreateContracts(k, tree, txs).Success?
    ensures Supply(k, CreateContracts(k, tree, txs).value) == Supply(k, tree)
    decreases |txs|
  {
    if txs != [] {
      if CreatesContract(txs[0]) {
        var a := txs[0].recipient;
        var c := k.contract(txs[0].recipientType, k.balance(Get(k, tree, a)), txs[0]).value;
        SupplyPut(k, tree, a, c);
        CreationSupply(k, Put(k, tree, a, c), txs[1..]);
      } else {
        CreationSupply(k, tree, txs[1..]);
      }
    }
  }

  lemma {:induction false} PruneSupply<A(!new)>(k: Kind<A>, tree: Tree<A>, txs: seq<Tx>)
    requires k.balance(k.initial) == 0 && forall a :: k.prunable(a) ==> k.balance(a) == 0
    ensures Supply(k, PruneAccounts(k, tree, txs).0) == Supply(k, tree)
    decreases |txs|
  {
    if txs != [] {
      var a := txs[0].sender;
      if k.prunable(Get(k, tree, a)) {
        SupplyPut(k, tree, a, k.initial);
        PruneSupply(k, Put(k, tree, a, k.initial), txs[1..]);
      } else {
        PruneSupply(k, tree, txs[1..]);
      }
    }
  }

  lemma {:induction false} SpentIsReceivedAndFees(txs: seq<Tx>)
    ensures Total(Spent, txs) + Total(Received, txs) + TotalFees(txs) == 0
  {
    if txs != [] {
      SpentIsReceivedAndFees(txs[1..]);
    }
  }

  lemma {:induction false} RewardsSplit(inherents: seq<Inherent>)
    ensures Total(Rewarded, inherents) ==
            Total(Rewarded, Select(inherents, true)) + Total(Rewarded, Select(inherents, false))
  {
    if inherents != [] {
      RewardsSplit(inherents[1..]);
      RewardsCons(inherents[0], Select(inherents[1..], true));
      RewardsCons(inherents[0], Select(inherents[1..], false));
      assert [] + Select(inherents[1..], true) == Select(inherents[1..], true);
      assert [] + Select(inherents[1..], false) == Select(inherents[1..], false);
    }
  }

  lemma {:induction false} RewardsCons(x: Inherent, xs: seq<Inherent>)
    ensures Total(Rewarded, [x] + xs) == x.value + Total(Rewarded, xs)
  {
    assert ([x] + xs)[1..] == xs;
  }

  /** The only coins a block makes are its rewards, and the only coins it destroys are its fees. */
  lemma {:induction false} CommitConserves<A(!new)>(k: Kind<A>, ops: Ops<A>, tree: Tree<A>, txs: seq<Tx>,
                                                    inherents: seq<Inherent>)
    requires Accountable(k, ops) && Commit(k, ops, tree, txs, inherents).Success?
    ensures Supply(k, Commit(k, ops, tree, txs, inherents).value.0) + TotalFees(txs) ==
            Supply(k, tree) + Total(Rewarded, inherents)
  {
    var pre, post := Select(inherents, true), Select(inherents, false);
    var w := TrailOf(k, ops, tree, txs, inherents);
    PhaseSupply(k, Inherents(ops.commitInherent), Rewarded, tree, pre, NoReceipts(|pre|));
    PhaseSupply(k, Outgoing(ops.commitOutgoing), Spent, w.afterPre, txs, NoReceipts(|txs|));
    PhaseSupply(k, Incoming(ops.commitIncoming), Received, w.afterSenders, txs, NoReceipts(|txs|));
    CreationSupply(k, w.afterRecipients, txs);
    PruneSupply(k, w.created, txs);
    PhaseSupply(k, Inherents(ops.commitInherent), Rewarded, w.afterPruning, post, NoReceipts(|post|));
    SpentIsReceivedAndFees(txs);
    RewardsSplit(inherents);
  }

  // ---------- coin accounts ----------

  lemma {:induction false} CoinsAccountable(policy: Policy)
    ensures Accountable(CoinKind(policy), CoinOps(policy))
  {
    CoinKindOk(policy);
  }

  /** Blocks on basic, vesting and hashed time-locked accounts conserve coins. */
  lemma {:induction false} CommitConservesCoins(policy: Policy, tree: Tree<Account>, txs: seq<Tx>,
                                                inherents: seq<Inherent>)
    requires Commit(CoinKind(policy), CoinOps(policy), tree, txs, inherents).Success?
    ensures Supply(CoinKind(policy), Commit(CoinKind(policy), CoinOps(policy), tree, txs, inherents).value.0) +
            TotalFees(txs) == Supply(CoinKind(policy), tree) + Total(Rewarded, inherents)
  {
    CoinsAccountable(policy);
    CommitConserves(CoinKind(policy), CoinOps(policy), tree, txs, inherents);
  }
}
