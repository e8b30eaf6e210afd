/** Who pays and who receives: the balance of every address after a block. */
module AccountsBalances {
  import opened Prelude
  import opened Transactions
  import opened Accounts
  import opened AccountsLocal
  import opened AccountsRevert
  import opened AccountsCoins
  import opened AccountsSupply
  import opened StakingContracts
  import opened StakingPhases
  import opened StakingBlocks

  // ---------- sums ----------

  /** What an address pays, with fees. */
  function PaidBy(txs: seq<Tx>, a: nat): nat {
    if txs == [] then 0 else (if txs[0].sender == a then txs[0].value + txs[0].fee else 0) + PaidBy(txs[1..], a)
  }

  function PaidTo(txs: seq<Tx>, a: nat): nat {
    if txs == [] then 0 else (if txs[0].recipient == a then txs[0].value else 0) + PaidTo(txs[1..], a)
  }

  function RewardsOf(inherents: seq<Inherent>, a: nat): nat {
    if inherents == [] then 0
    else (if inherents[0].target == a then inherents[0].value else 0) + RewardsOf(inherents[1..], a)
  }

  /** What the items of one address transfer. */
  function TotalAt<T>(address: T -> nat, amount: T -> int, xs: seq<T>, a: nat): int {
    if xs == [] then 0 else (if address(xs[0]) == a then amount(xs[0]) else 0) + TotalAt(address, amount, xs[1..], a)
  }

  lemma {:induction false} PaidIs(txs: seq<Tx>, a: nat)
    ensures TotalAt(BySender, Spent, txs, a) + PaidBy(txs, a) == 0
    ensures TotalAt(ByRecipient, Received, txs, a) == PaidTo(txs, a)
  {
    if txs != [] {
      PaidIs(txs[1..], a);
    }
  }

  lemma {:induction false} RewardsCons(x: Inherent, xs: seq<Inherent>, a: nat)
    ensures RewardsOf([x] + xs, a) == (if x.target == a then x.value else 0) + RewardsOf(xs, a)
  {
    assert ([x] + xs)[1..] == xs;
  }

  lemma {:induction false} RewardsSplitAt(inherents: seq<Inherent>, a: nat)
    ensures RewardsOf(inherents, a) == RewardsOf(Select(inherents, true), a) + RewardsOf(Select(inherents, false), a)
  {
    if inherents != [] {
      var x, rest := inherents[0], inherents[1..];
      RewardsSplitAt(rest, a);
      RewardsCons(x, Select(rest, true), a);
      RewardsCons(x, Select(rest, false), a);
      assert [] + Select(rest, true) == Select(rest, true) && [] + Select(rest, false) == Select(rest, false);
    }
  }

  lemma {:induction false} RewardsIs<A>(op: Op<A, Inherent>, xs: seq<Inherent>, a: nat)
    ensures TotalAt(Inherents(op).address, Rewarded, xs, a) == RewardsOf(xs, a)
  {
    if xs != [] {
      RewardsIs(op, xs[1..], a);
    }
  }

  // ---------- any kind of account ----------

  /** A phase changes the balance of an address by what the items of that address transfer. */
  lemma {:induction false} PhaseBalance<A(!new), T(!new)>(k: Kind<A>, ph: Phase<A, T>, amount: T -> int, tree: Tree<A>,
                                                          xs: seq<T>, receipts: seq<Option<Data>>, a: nat)
    requires Transfers(k, ph.op, amount) && |receipts| == |xs| && ApplyAll(k, ph, tree, xs, receipts).Success?
    ensures k.balance(Get(k, ApplyAll(k, ph, tree, xs, receipts).value.0, a)) ==
            k.balance(Get(k, tree, a)) + TotalAt(ph.address, amount, xs, a)
    decreases |xs|
  {
    if xs != [] {
      var b := ph.address(xs[0]);
      GetPut(k, tree, b, ph.op(Get(k, tree, b), xs[0], receipts[0]).value.0, a);
      PhaseBalance(k, ph, amount, Apply(k, ph, tree, xs[0], receipts[0]).value.0, xs[1..], receipts[1..], a);
    }
  }

  lemma {:induction false} CreationBalance<A(!new)>(k: Kind<A>, tree: Tree<A>, txs: seq<Tx>, a: nat)
    requires KindOk(k) && CreateContracts(k, tree, txs).Success?
    ensures k.balance(Get(k, CreateContracts(k, tree, txs).value, a)) == k.balance(Get(k, tree, a))
    decreases |txs|
  {
    if txs != [] {
      if CreatesContract(txs[0]) {
        var b := txs[0].recipient;
        var c := k.contract(txs[0].recipientType, k.balance(Get(k, tree, b)), txs[0]).value;
        GetPut(k, tree, b, c, a);
        CreationBalance(k, Put(k, tree, b, c), txs[1..], a);
      } else {
        CreationBalance(k, tree, txs[1..], a);
      }
    }
  }

  lemma {:induction false} PruneBalance<A(!new)>(k: Kind<A>, tree: Tree<A>, txs: seq<Tx>, a: nat)
    requires k.balance(k.initial) == 0 && forall x :: k.prunable(x) ==> k.balance(x) == 0
    ensures k.balance(Get(k, PruneAccounts(k, tree, txs).0, a)) == k.balance(Get(k, tree, a))
    decreases |txs|
  {
    if txs != [] {
      var b := txs[0].sender;
      if k.prunable(Get(k, tree, b)) {
        GetPut(k, tree, b, k.initial, a);
        PruneBalance(k, Put(k, tree, b, k.initial), txs[1..], a);
      } else {
        PruneBalance(k, tree, txs[1..], a);
      }
    }
  }

  /** Every address loses what it pays and gains what it is paid and rewarded. */
  lemma {:induction false} BlockBalances<A(!new)>(k: Kind<A>, ops: Ops<A>, tree: Tree<A>, txs: seq<Tx>,
                                                  inherents: seq<Inherent>, a: nat)
    requires Accountable(k, ops) && Commit(k, ops, tree, txs, inherents).Success?
    ensures k.balance(Get(k, Commit(k, ops, tree, txs, inherents).value.0, a)) + PaidBy(txs, a) ==
            k.balance(Get(k, tree, a)) + PaidTo(txs, a) + RewardsOf(inherents, a)
  {
    var pre, post := Select(inherents, true), Select(inherents, false);
    var w := TrailOf(k, ops, tree, txs, inherents);
    PhaseBalance(k, Inherents(ops.commitInherent), Rewarded, tree, pre, NoReceipts(|pre|), a);
    PhaseBalance(k, Outgoing(ops.commitOutgoing), Spent, w.afterPre, txs, NoReceipts(|txs|), a);
    PhaseBalance(k, Incoming(ops.commitIncoming), Received, w.afterSenders, txs, NoReceipts(|txs|), a);
    CreationBalance(k, w.afterRecipients, txs, a);
    PruneBalance(k, w.created, txs, a);
    PhaseBalance(k, Inherents(ops.commitInherent), Rewarded, w.afterPruning, post, NoReceipts(|post|), a);
    PaidIs(txs, a);
    RewardsIs(ops.commitInherent, pre, a);
    RewardsIs(ops.commitInherent, post, a);
    RewardsSplitAt(inherents, a);
  }

  /** The balances of basic, vesting and hashed time-locked accounts after a block. */
  lemma {:induction false} CoinBalances(policy: Policy, tree: Tree<CoinAccount>, txs: seq<Tx>, inherents: seq<Inherent>,
                                        a: nat)
    requires Commit(CoinKind(policy), CoinOps(policy), tree, txs, inherents).Success?
    ensures var t := Commit(CoinKind(policy), CoinOps(policy), tree, txs, inherents).value.0;
            Get(CoinKind(policy), t, a).balance + PaidBy(txs, a) ==
            Get(CoinKind(policy), tree, a).balance + PaidTo(txs, a) + RewardsOf(inherents, a)
  {
    CoinsAccountable(policy);
    BlockBalances(CoinKind(policy), CoinOps(policy), tree, txs, inherents, a);
  }

  /** The same for accounts of all types, the staking contract included. */
  lemma {:induction false} AllBalances(p: StakingPolicy, tree: Tree<AnyAccount>, txs: seq<Tx>, inherents: seq<Inherent>,
                                       a: nat)
    requires Commit(StakingKind(p), StakingOps(p), tree, txs, inherents).Success?
    ensures var t := Commit(StakingKind(p), StakingOps(p), tree, txs, inherents).value.0;
            Get(StakingKind(p), t, a).Balance() + PaidBy(txs, a) ==
            Get(StakingKind(p), tree, a).Balance() + PaidTo(txs, a) + RewardsOf(inherents, a)
  {
    StakingAccountable(p);
    BlockBalances(StakingKind(p), StakingOps(p), tree, txs, inherents, a);
  }
}
