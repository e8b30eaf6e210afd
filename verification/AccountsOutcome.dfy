/** What a block does to coin accounts: when its transactions can be applied, and what every address then holds. */
module AccountsOutcome {
  import opened Prelude
  import opened Transactions
  import opened Accounts
  import opened AccountsLocal
  import opened AccountsRevert
  import opened AccountsCoins
  import opened AccountsSupply
  import opened AccountsBalances

  // ---------- when transactions can be applied ----------

  /** The k-th transaction can be paid: with all before it, and what has to stay behind. */
  predicate CanPay(policy: Policy, tree: Tree<Account>, txs: seq<Tx>, k: nat)
    requires k < |txs|
  {
    var t, account := txs[k], Get(CoinKind(policy), tree, txs[k].sender);
    && account.Type() == t.senderType && t.value + t.fee <= MAX_SAFE_VALUE && MinCap(policy, account, t).Success?
    && PaidBy(txs[..k + 1], t.sender) + MinCap(policy, account, t).value <= account.balance
  }

  predicate CanReceive(policy: Policy, tree: Tree<Account>, txs: seq<Tx>, k: nat)
    requires k < |txs|
  {
    var t, account := txs[k], Get(CoinKind(policy), tree, txs[k].recipient);
    && (!CreatesContract(t) ==> t.recipientType == BASIC) && account.Basic?
    && account.balance + PaidTo(txs[..k + 1], t.recipient) <= MAX_SAFE_VALUE
  }

  lemma {:induction false} PaidPrefix(txs: seq<Tx>, k: nat, a: nat)
    requires k < |txs| && txs != []
    ensures PaidBy(txs[..k + 1], a) ==
            (if txs[0].sender == a then txs[0].value + txs[0].fee else 0) + PaidBy(txs[1..][..k], a)
    ensures PaidTo(txs[..k + 1], a) == (if txs[0].recipient == a then txs[0].value else 0) + PaidTo(txs[1..][..k], a)
  {
    assert txs[..k + 1][1..] == txs[1..][..k];
  }

  lemma {:induction false} FirstPays(policy: Policy, tree: Tree<Account>, txs: seq<Tx>)
    requires txs != []
    ensures Apply(CoinKind(policy), Outgoing(CoinOps(policy).commitOutgoing), tree, txs[0], None).Success? <==>
            CanPay(policy, tree, txs, 0)
  {
    PaidPrefix(txs, 0, txs[0].sender);
    assert PaidBy([], txs[0].sender) == 0;
  }

  lemma {:induction false} NextPays(policy: Policy, tree: Tree<Account>, txs: seq<Tx>, next: Tree<Account>, k: nat)
    requires 0 < k < |txs|
    requires Apply(CoinKind(policy), Outgoing(CoinOps(policy).commitOutgoing), tree, txs[0], None) ==
             Success((next, None))
    ensures CanPay(policy, next, txs[1..], k - 1) <==> CanPay(policy, tree, txs, k)
  {
    var kind, a, b := CoinKind(policy), txs[0].sender, txs[k].sender;
    GetPut(kind, tree, a, CommitOutgoing(policy, Get(kind, tree, a), txs[0]).value.0, b);
    PaidPrefix(txs, k, b);
    assert MinCap(policy, Get(kind, next, b), txs[k]) == MinCap(policy, Get(kind, tree, b), txs[k]);
  }

  /** Something holds of all items exactly if it does of the first, and then of the others. */
  lemma {:induction false} AllFromFirst(now: nat -> bool, later: nat -> bool, n: nat)
    requires n > 0 && now(0) && forall k :: 0 < k < n ==> (later(k - 1) <==> now(k))
    ensures (forall k :: 0 <= k < n - 1 ==> later(k)) <==> forall k :: 0 <= k < n ==> now(k)
  {
    if forall k :: 0 <= k < n - 1 ==> later(k) {
      forall k | 0 <= k < n
        ensures now(k)
      {
        assert k > 0 ==> later(k - 1);
      }
    }
    if forall k :: 0 <= k < n ==> now(k) {
      forall k | 0 <= k < n - 1
        ensures later(k)
      {
        assert now(k + 1);
        assert k == k + 1 - 1;
      }
    }
  }

  function PayingIn(policy: Policy, tree: Tree<Account>, txs: seq<Tx>): nat -> bool {
    (k: nat) => k < |txs| && CanPay(policy, tree, txs, k)
  }

  function ReceivingIn(policy: Policy, tree: Tree<Account>, txs: seq<Tx>): nat -> bool {
    (k: nat) => k < |txs| && CanReceive(policy, tree, txs, k)
  }

  /** The senders of a block can pay exactly if each can pay every transaction with all before it, and keeps its cap. */
  lemma {:induction false} SendersPayIff(policy: Policy, tree: Tree<Account>, txs: seq<Tx>)
    ensures (forall k :: 0 <= k < |txs| ==> PayingIn(policy, tree, txs)(k)) <==>
            ApplyAll(CoinKind(policy), Outgoing(CoinOps(policy).commitOutgoing), tree, txs, NoReceipts(|txs|)).Success?
    decreases |txs|
  {
    if txs != [] {
      NoReceiptsTail(|txs|);
      FirstPays(policy, tree, txs);
      var first := Apply(CoinKind(policy), Outgoing(CoinOps(policy).commitOutgoing), tree, txs[0], None);
      if first.Success? {
        var next := first.value.0;
        SendersPayIff(policy, next, txs[1..]);
        forall k | 0 < k < |txs|
          ensures PayingIn(policy, next, txs[1..])(k - 1) <==> PayingIn(policy, tree, txs)(k)
        {
          NextPays(policy, tree, txs, next, k);
        }
        AllFromFirst(PayingIn(policy, tree, txs), PayingIn(policy, next, txs[1..]), |txs|);
      } else {
        assert !PayingIn(policy, tree, txs)(0);
      }
    }
  }

  lemma {:induction false} FirstReceives(policy: Policy, tree: Tree<Account>, txs: seq<Tx>)
    requires txs != []
    ensures Apply(CoinKind(policy), Incoming(CoinOps(policy).commitIncoming), tree, txs[0], None).Success? <==>
            CanReceive(policy, tree, txs, 0)
  {
    PaidPrefix(txs, 0, txs[0].recipient);
    assert PaidTo([], txs[0].recipient) == 0;
  }

  lemma {:induction false} NextReceives(policy: Policy, tree: Tree<Account>, txs: seq<Tx>, next: Tree<Account>, k: nat)
    requires 0 < k < |txs|
    requires Apply(CoinKind(policy), Incoming(CoinOps(policy).commitIncoming), tree, txs[0], None) ==
             Success((next, None))
    ensures CanReceive(policy, next, txs[1..], k - 1) <==> CanReceive(policy, tree, txs, k)
  {
    var kind, a, b := CoinKind(policy), txs[0].recipient, txs[k].recipient;
    GetPut(kind, tree, a, CommitIncoming(Get(kind, tree, a), txs[0]).value.0, b);
    PaidPrefix(txs, k, b);
  }

  /** The recipients can be paid exactly if all are basic accounts that do not overflow. */
  lemma {:induction false} RecipientsReceiveIff(policy: Policy, tree: Tree<Account>, txs: seq<Tx>)
    ensures (forall k :: 0 <= k < |txs| ==> ReceivingIn(policy, tree, txs)(k)) <==>
            ApplyAll(CoinKind(policy), Incoming(CoinOps(policy).commitIncoming), tree, txs, NoReceipts(|txs|)).Success?
    decreases |txs|
  {
    if txs != [] {
      NoReceiptsTail(|txs|);
      FirstReceives(policy, tree, txs);
      var first := Apply(CoinKind(policy), Incoming(CoinOps(policy).commitIncoming), tree, txs[0], None);
      if first.Success? {
        var next := first.value.0;
        RecipientsReceiveIff(policy, next, txs[1..]);
        forall k | 0 < k < |txs|
          ensures ReceivingIn(policy, next, txs[1..])(k - 1) <==> ReceivingIn(policy, tree, txs)(k)
        {
          NextReceives(policy, tree, txs, next, k);
        }
        AllFromFirst(ReceivingIn(policy, tree, txs), ReceivingIn(policy, next, txs[1..]), |txs|);
      } else {
        assert !ReceivingIn(policy, tree, txs)(0);
      }
    }
  }

  // ---------- when contracts can be created and rewards paid ----------

  predicate CanCreate(policy: Policy, t: Tx) {
    (t.recipientType == VESTING || t.recipientType == HTLC) && policy.parse(t.recipientType, t).Success?
  }

  /** Contracts can be created exactly if all are of a known type with terms that can be read. */
  lemma {:induction false} CreationsSucceedIff(policy: Policy, tree: Tree<Account>, txs: seq<Tx>)
    ensures CreateContracts(CoinKind(policy), tree, txs).Success? <==>
            forall t :: t in txs && CreatesContract(t) ==> CanCreate(policy, t)
    decreases |txs|
  {
    if txs != [] {
      assert txs == [txs[0]] + txs[1..];
      var k := CoinKind(policy);
      if CreatesContract(txs[0]) {
        var c := NewContract(policy, txs[0].recipientType, Get(k, tree, txs[0].recipient).balance, txs[0]);
        if c.Success? {
          CreationsSucceedIff(policy, Put(k, tree, txs[0].recipient, c.value), txs[1..]);
        }
      } else {
        CreationsSucceedIff(policy, tree, txs[1..]);
      }
    }
  }

  predicate CanReward(policy: Policy, tree: Tree<Account>, xs: seq<Inherent>, k: nat)
    requires k < |xs|
  {
    var account := Get(CoinKind(policy), tree, xs[k].target);
    xs[k].ty.Reward? && account.Basic? && account.balance + RewardsOf(xs[..k + 1], xs[k].target) <= MAX_SAFE_VALUE
  }

  function RewardingIn(policy: Policy, tree: Tree<Account>, xs: seq<Inherent>): nat -> bool {
    (k: nat) => k < |xs| && CanReward(policy, tree, xs, k)
  }

  lemma {:induction false} RewardsPrefix(xs: seq<Inherent>, k: nat, a: nat)
    requires k < |xs|
    ensures RewardsOf(xs[..k + 1], a) == (if xs[0].target == a then xs[0].value else 0) + RewardsOf(xs[1..][..k], a)
  {
    assert xs[..k + 1][1..] == xs[1..][..k];
  }

  lemma {:induction false} FirstRewarded(policy: Policy, tree: Tree<Account>, xs: seq<Inherent>)
    requires xs != []
    ensures Apply(CoinKind(policy), Inherents(CoinOps(policy).commitInherent), tree, xs[0], None).Success? <==>
            CanReward(policy, tree, xs, 0)
  {
    RewardsPrefix(xs, 0, xs[0].target);
    assert RewardsOf([], xs[0].target) == 0;
  }

  lemma {:induction false} NextRewarded(policy: Policy, tree: Tree<Account>, xs: seq<Inherent>, next: Tree<Account>,
                                        k: nat)
    requires 0 < k < |xs|
    requires Apply(CoinKind(policy), Inherents(CoinOps(policy).commitInherent), tree, xs[0], None) ==
             Success((next, None))
    ensures CanReward(policy, next, xs[1..], k - 1) <==> CanReward(policy, tree, xs, k)
  {
    var kind, a, b := CoinKind(policy), xs[0].target, xs[k].target;
    GetPut(kind, tree, a, CommitInherent(Get(kind, tree, a), xs[0]).value.0, b);
    RewardsPrefix(xs, k, b);
  }

  /** Inherents can be applied exactly if all are rewards to basic accounts that do not overflow. */
  lemma {:induction false} RewardsPaidIff(policy: Policy, tree: Tree<Account>, xs: seq<Inherent>)
    ensures (forall k :: 0 <= k < |xs| ==> RewardingIn(policy, tree, xs)(k)) <==>
            ApplyAll(CoinKind(policy), Inherents(CoinOps(policy).commitInherent), tree, xs, NoReceipts(|xs|)).Success?
    decreases |xs|
  {
    if xs != [] {
      NoReceiptsTail(|xs|);
      FirstRewarded(policy, tree, xs);
      var first := Apply(CoinKind(policy), Inherents(CoinOps(policy).commitInherent), tree, xs[0], None);
      if first.Success? {
        var next := first.value.0;
        RewardsPaidIff(policy, next, xs[1..]);
        forall k | 0 < k < |xs|
          ensures RewardingIn(policy, next, xs[1..])(k - 1) <==> RewardingIn(policy, tree, xs)(k)
        {
          NextRewarded(policy, tree, xs, next, k);
        }
        AllFromFirst(RewardingIn(policy, tree, xs), RewardingIn(policy, next, xs[1..]), |xs|);
      } else {
        assert !RewardingIn(policy, tree, xs)(0);
      }
    }
  }

  // ---------- what every address then holds ----------

  /** What a creation makes: a contract of the requested type, with the terms of the transaction. */
  function Made(policy: Policy, t: Tx, balance: Coin): Account {
    var terms := match policy.parse(t.recipientType, t) case Success(d) => d case Failure(_) => [];
    if t.recipientType == VESTING then Vesting(balance, terms) else Htlc(balance, terms)
  }

  /** The account at an address once the contracts of a block have been created. */
  function Remade(policy: Policy, account: Account, txs: seq<Tx>, a: nat): Account {
    if txs == [] then account
    else if CreatesContract(txs[|txs| - 1]) && txs[|txs| - 1].recipient == a then
      Made(policy, txs[|txs| - 1], account.balance)
    else Remade(policy, account, txs[..|txs| - 1], a)
  }

  lemma {:induction false} RemadeFirst(policy: Policy, account: Account, txs: seq<Tx>, a: nat)
    requires txs != []
    ensures Remade(policy, account, txs, a) ==
            Remade(policy, if CreatesContract(txs[0]) &&
                   txs[0].recipient == a then Made(policy, txs[0], account.balance)
                           else account, txs[1..], a)
    decreases |txs|
  {
    if |txs| > 1 {
      RemadeFirst(policy, account, txs[..|txs| - 1], a);
      assert txs[..|txs| - 1][1..] == txs[1..][..|txs| - 2];
    } else {
      assert txs[..0] == [] && txs[1..] == [];
    }
  }

  lemma {:induction false} CreatedIs(policy: Policy, tree: Tree<Account>, txs: seq<Tx>, a: nat)
    requires CreateContracts(CoinKind(policy), tree, txs).Success?
    ensures Get(CoinKind(policy), CreateContracts(CoinKind(policy), tree, txs).value, a) ==
            Remade(policy, Get(CoinKind(policy), tree, a), txs, a)
    decreases |txs|
  {
    if txs != [] {
      var k := CoinKind(policy);
      RemadeFirst(policy, Get(k, tree, a), txs, a);
      if CreatesContract(txs[0]) {
        var b := txs[0].recipient;
        var c := NewContract(policy, txs[0].recipientType, Get(k, tree, b).balance, txs[0]).value;
        GetPut(k, tree, b, c, a);
        CreatedIs(policy, Put(k, tree, b, c), txs[1..], a);
      } else {
        CreatedIs(policy, tree, txs[1..], a);
      }
    }
  }

  predicate Sends(txs: seq<Tx>, a: nat) {
    exists i :: 0 <= i < |txs| && txs[i].sender == a
  }

  lemma {:induction false} SendsFirst(txs: seq<Tx>, a: nat)
    requires txs != []
    ensures Sends(txs, a) <==> txs[0].sender == a || Sends(txs[1..], a)
  {
    if Sends(txs[1..], a) {
      var i :| 0 <= i < |txs| - 1 && txs[1..][i].sender == a;
      assert txs[i + 1].sender == a;
    }
    if Sends(txs, a) && txs[0].sender != a {
      var i :| 0 <= i < |txs| && txs[i].sender == a;
      assert txs[1..][i - 1].sender == a;
    }
  }

  /** Emptied contracts of senders are gone. */
  lemma {:induction false} PrunedIs(policy: Policy, tree: Tree<Account>, txs: seq<Tx>, a: nat)
    ensures var account := Get(CoinKind(policy), tree, a);
            Get(CoinKind(policy), PruneAccounts(CoinKind(policy), tree, txs).0, a) ==
            if Sends(txs, a) && !account.Basic? && account.balance == 0 then Basic(0) else account
    decreases |txs|
  {
    if txs != [] {
      var k, b := CoinKind(policy), txs[0].sender;
      SendsFirst(txs, a);
      if Get(k, tree, b).ToBePruned() {
        GetPut(k, tree, b, k.initial, a);
        PrunedIs(policy, Put(k, tree, b, k.initial), txs[1..], a);
      } else {
        PrunedIs(policy, tree, txs[1..], a);
      }
    }
  }

  ghost predicate OnlyBalances<T(!new)>(op: Op<Account, T>) {
    forall a, x, r :: op(a, x, r).Success? ==> op(a, x, r).value.0 == a.(balance := op(a, x, r).value.0.balance)
  }

  lemma {:induction false} PhaseOnlyBalances<T(!new)>(policy: Policy, ph: Phase<Account, T>, tree: Tree<Account>,
                                                      xs: seq<T>, receipts: seq<Option<Data>>, a: nat)
    requires OnlyBalances(ph.op) && |receipts| == |xs| && ApplyAll(CoinKind(policy), ph, tree, xs, receipts).Success?
    ensures var after := Get(CoinKind(policy), ApplyAll(CoinKind(policy), ph, tree, xs, receipts).value.0, a);
            after == Get(CoinKind(policy), tree, a).(balance := after.balance)
    decreases |xs|
  {
    if xs != [] {
      var k, b := CoinKind(policy), ph.address(xs[0]);
      GetPut(k, tree, b, ph.op(Get(k, tree, b), xs[0], receipts[0]).value.0, a);
      PhaseOnlyBalances(policy, ph, Apply(k, ph, tree, xs[0], receipts[0]).value.0, xs[1..], receipts[1..], a);
    }
  }

  lemma {:induction false} OpsOnlyBalances(policy: Policy)
    ensures OnlyBalances(CoinOps(policy).commitOutgoing) && OnlyBalances(CoinOps(policy).commitIncoming)
    ensures OnlyBalances(CoinOps(policy).commitInherent)
  {
  }

  lemma {:induction false} SelectedSlashes(inherents: seq<Inherent>)
    ensures forall i :: i in Select(inherents, true) ==> i.ty.Slash?
  {
    if inherents != [] {
      SelectedSlashes(inherents[1..]);
    }
  }

  /** Only the staking contract can be slashed. */
  lemma {:induction false} NothingSlashed(policy: Policy, tree: Tree<Account>, inherents: seq<Inherent>,
                                          t: Tree<Account>, rs: seq<Option<Data>>)
    requires ApplyAll(CoinKind(policy), Inherents(CoinOps(policy).commitInherent), tree, Select(inherents, true),
                      NoReceipts(|Select(inherents, true)|)) == Success((t, rs))
    ensures Select(inherents, true) == [] && t == tree
  {
    SelectedSlashes(inherents);
    if Select(inherents, true) != [] {
      SlashesRefused(policy, tree, Select(inherents, true));
    }
  }

  lemma {:induction false} SlashesRefused(policy: Policy, tree: Tree<Account>, xs: seq<Inherent>)
    requires xs != [] && xs[0].ty.Slash?
    ensures ApplyAll(CoinKind(policy), Inherents(CoinOps(policy).commitInherent), tree, xs, NoReceipts(|xs|)).Failure?
  {
  }

  /** The account at an address after the transactions, before creations. */
  lemma {:induction false} PaidAccount(policy: Policy, tree: Tree<Account>, txs: seq<Tx>, inherents: seq<Inherent>,
                                       w: Trail<Account>, a: nat)
    requires Follows(CoinKind(policy), CoinOps(policy), tree, txs, inherents, w)
    ensures var k := CoinKind(policy);
            && Get(k, w.afterRecipients, a) == Get(k, tree, a).(balance := Get(k, w.afterRecipients, a).balance)
            && Get(k, w.afterRecipients, a).balance + PaidBy(txs, a) == Get(k, tree, a).balance + PaidTo(txs, a)
  {
    var k, ops := CoinKind(policy), CoinOps(policy);
    NothingSlashed(policy, tree, inherents, w.afterPre, w.pre);
    OpsOnlyBalances(policy);
    CoinsAccountable(policy);
    PhaseOnlyBalances(policy, Outgoing(ops.commitOutgoing), tree, txs, NoReceipts(|txs|), a);
    PhaseOnlyBalances(policy, Incoming(ops.commitIncoming), w.afterSenders, txs, NoReceipts(|txs|), a);
    PhaseBalance(k, Outgoing(ops.commitOutgoing), Spent, tree, txs, NoReceipts(|txs|), a);
    PhaseBalance(k, Incoming(ops.commitIncoming), Received, w.afterSenders, txs, NoReceipts(|txs|), a);
    PaidIs(txs, a);
  }

  /** The account at an address after creations and pruning. */
  function Settled(policy: Policy, paid: Account, txs: seq<Tx>, a: nat): Account {
    var made := Remade(policy, paid, txs, a);
    if Sends(txs, a) && !made.Basic? && paid.balance == 0 then Basic(0) else made
  }

  lemma {:induction false} SettledIs(policy: Policy, tree: Tree<Account>, txs: seq<Tx>, created: Tree<Account>, a: nat)
    requires CreateContracts(CoinKind(policy), tree, txs) == Success(created)
    ensures Get(CoinKind(policy), PruneAccounts(CoinKind(policy), created, txs).0, a) ==
            Settled(policy, Get(CoinKind(policy), tree, a), txs, a)
  {
    CreatedIs(policy, tree, txs, a);
    RemadeBalance(policy, Get(CoinKind(policy), tree, a), txs, a);
    PrunedIs(policy, created, txs, a);
  }

  /**
   * What an address holds after a block, where `paid` is its account after paying and being paid: that
   * account, or the last contract created there, unless that is an empty contract of a sender.
   */
  lemma {:induction false} BlockOutcome(policy: Policy, tree: Tree<Account>, txs: seq<Tx>, inherents: seq<Inherent>,
                                        a: nat, paid: Account)
    requires Commit(CoinKind(policy), CoinOps(policy), tree, txs, inherents).Success?
    requires paid == Get(CoinKind(policy), tree, a).(balance := paid.balance)
    requires paid.balance + PaidBy(txs, a) == Get(CoinKind(policy), tree, a).balance + PaidTo(txs, a)
    ensures var after := Get(CoinKind(policy), Commit(CoinKind(policy), CoinOps(policy), tree, txs, inherents).value.0,
                             a);
            after == Settled(policy, paid, txs, a).(balance := after.balance)
  {
    var w := TrailOf(CoinKind(policy), CoinOps(policy), tree, txs, inherents);
    PaidAccount(policy, tree, txs, inherents, w, a);
    TrailOutcome(policy, tree, txs, inherents, w, a, paid);
  }

  lemma {:induction false} TrailOutcome(policy: Policy, tree: Tree<Account>, txs: seq<Tx>, inherents: seq<Inherent>,
                                        w: Trail<Account>, a: nat, paid: Account)
    requires Follows(CoinKind(policy), CoinOps(policy), tree, txs, inherents, w)
    requires paid == Get(CoinKind(policy), w.afterRecipients, a)
    ensures var after := Get(CoinKind(policy), w.afterPost, a);
            after == Settled(policy, paid, txs, a).(balance := after.balance)
  {
    var post := Select(inherents, false);
    SettledIs(policy, w.afterRecipients, txs, w.created, a);
    OpsOnlyBalances(policy);
    PhaseOnlyBalances(policy, Inherents(CoinOps(policy).commitInherent), w.afterPruning, post, NoReceipts(|post|), a);
  }

  lemma {:induction false} RemadeBalance(policy: Policy, account: Account, txs: seq<Tx>, a: nat)
    ensures Remade(policy, account, txs, a).balance == account.balance
  {
    if txs != [] {
      RemadeBalance(policy, account, txs[..|txs| - 1], a);
    }
  }

  /** In a committed block every payment leaves its sender, contract or not, what has to stay behind. */
  lemma {:induction false} CommitKeepsCaps(policy: Policy, tree: Tree<Account>, txs: seq<Tx>, inherents: seq<Inherent>,
                                           k: nat)
    requires Commit(CoinKind(policy), CoinOps(policy), tree, txs, inherents).Success? && k < |txs|
    ensures var account := Get(CoinKind(policy), tree, txs[k].sender);
            && MinCap(policy, account, txs[k]).Success?
            && account.balance - PaidBy(txs[..k + 1], txs[k].sender) >= MinCap(policy, account, txs[k]).value
  {
    var w := TrailOf(CoinKind(policy), CoinOps(policy), tree, txs, inherents);
    NothingSlashed(policy, tree, inherents, w.afterPre, w.pre);
    SendersPayIff(policy, tree, txs);
    assert PayingIn(policy, tree, txs)(k);
  }
}
