/** Basic, vesting and hashed time-locked accounts (primitives/account/src), and what reverting means for them. */
module AccountsCoins {
  import opened Prelude
  import opened Transactions
  import opened Accounts
  import opened AccountsLocal
  import opened AccountsRevert

  const MAX_SAFE_VALUE: nat := 9_007_199_254_740_991

  type Coin = n: nat | n <= MAX_SAFE_VALUE

  const BASIC: nat := 0
  const VESTING: nat := 1
  const HTLC: nat := 2

  const INVALID_RECEIPT: AccountError := Rejected(0)
  const INVALID_COIN_VALUE: AccountError := Rejected(1)
  const INSUFFICIENT_FUNDS: AccountError := Rejected(2)
  const INVALID_FOR_RECIPIENT: AccountError := Rejected(3)
  const INVALID_INHERENT: AccountError := Rejected(4)

  datatype Account = Basic(balance: Coin) | Vesting(balance: Coin, terms: Data) | Htlc(balance: Coin, terms: Data) {

    function Type(): nat {
      if Basic? then BASIC else if Vesting? then VESTING else HTLC
    }

    predicate ToBePruned() {
      !Basic? && balance == 0
    }
  }

  /**
   * The checks of a contract that do not concern its balance: who may spend, until when, and how
   * much has to stay behind; and the parsing of creation data.
   */
  datatype Policy = Policy(
    minCap: (nat, Data, Tx) -> Result<nat, AccountError>,
    parse: (nat, Tx) -> Result<Data, AccountError>)

  function BalanceAdd(b: Coin, v: nat): Result<Coin, AccountError> {
    if b + v <= MAX_SAFE_VALUE then Success(b + v) else Failure(INVALID_COIN_VALUE)
  }

  function BalanceSub(b: Coin, v: nat): Result<Coin, AccountError> {
    if v <= b then Success(b - v) else Failure(INSUFFICIENT_FUNDS)
  }

  function TotalValue(t: Tx): Result<Coin, AccountError> {
    if t.value + t.fee <= MAX_SAFE_VALUE then Success(t.value + t.fee) else Failure(INVALID_COIN_VALUE)
  }

  type Done = Result<(Account, Option<Data>), AccountError>

  function CommitOutgoing(policy: Policy, a: Account, t: Tx): Done {
    var total :- TotalValue(t);
    var left :- BalanceSub(a.balance, total);
    var cap :- MinCap(policy, a, t);
    if left < cap then Failure(INSUFFICIENT_FUNDS) else Success((a.(balance := left), None))
  }

  /** What has to stay in an account that may be spent from. */
  function MinCap(policy: Policy, a: Account, t: Tx): Result<nat, AccountError> {
    match a
    case Basic(_) => Success(0)
    case Vesting(_, terms) => policy.minCap(VESTING, terms, t)
    case Htlc(_, terms) => policy.minCap(HTLC, terms, t)
  }

  function RevertOutgoing(a: Account, t: Tx, receipt: Option<Data>): Done {
    if receipt.Some? then Failure(INVALID_RECEIPT)
    else
      var total :- TotalValue(t);
      var b :- BalanceAdd(a.balance, total);
      Success((a.(balance := b), None))
  }

  function CommitIncoming(a: Account, t: Tx): Done {
    if !a.Basic? then Failure(INVALID_FOR_RECIPIENT)
    else
      var b :- BalanceAdd(a.balance, t.value);
      Success((Basic(b), None))
  }

  function RevertIncoming(a: Account, t: Tx, receipt: Option<Data>): Done {
    if !a.Basic? then Failure(INVALID_FOR_RECIPIENT)
    else if receipt.Some? then Failure(INVALID_RECEIPT)
    else
      var b :- BalanceSub(a.balance, t.value);
      Success((Basic(b), None))
  }

  function CommitInherent(a: Account, i: Inherent): Done {
    if !a.Basic? || !i.ty.Reward? then Failure(INVALID_INHERENT)
    else
      var b :- BalanceAdd(a.balance, i.value);
      Success((Basic(b), None))
  }

  function RevertInherent(a: Account, i: Inherent, receipt: Option<Data>): Done {
    if !a.Basic? then Failure(INVALID_INHERENT)
    else if receipt.Some? then Failure(INVALID_RECEIPT)
    else if !i.ty.Reward? then Failure(INVALID_INHERENT)
    else
      var b :- BalanceSub(a.balance, i.value);
      Success((Basic(b), None))
  }

  function NewContract(policy: Policy, ty: nat, balance: nat, t: Tx): Result<Account, AccountError> {
    if (ty != VESTING && ty != HTLC) || balance > MAX_SAFE_VALUE then Failure(INVALID_FOR_RECIPIENT)
    else
      var terms :- policy.parse(ty, t);
      Success(if ty == VESTING then Vesting(balance, terms) else Htlc(balance, terms))
  }

  function CoinKind(policy: Policy): Kind<Account> {
    Kind(Basic(0),
         (a: Account) => a.Type(),
         (a: Account) => a.balance,
         (b: nat) => if b <= MAX_SAFE_VALUE then Basic(b) else Basic(0),
         (ty: nat, b: nat, t: Tx) => NewContract(policy, ty, b, t),
         (a: Account) => a.ToBePruned())
  }

  function CoinOps(policy: Policy): Ops<Account> {
    Ops((a: Account, t: Tx, _: Option<Data>) => CommitOutgoing(policy, a, t),
        (a: Account, t: Tx, r: Option<Data>) => RevertOutgoing(a, t, r),
        (a: Account, t: Tx, _: Option<Data>) => CommitIncoming(a, t),
        (a: Account, t: Tx, r: Option<Data>) => RevertIncoming(a, t, r),
        (a: Account, i: Inherent, _: Option<Data>) => CommitInherent(a, i),
        (a: Account, i: Inherent, r: Option<Data>) => RevertInherent(a, i, r))
  }

  lemma {:induction false} CoinKindOk(policy: Policy)
    ensures KindOk(CoinKind(policy))
  {
  }

  /** Coins can be taken back in any order: the assumptions of reverting hold. */
  lemma {:induction false} CoinOpsOk(policy: Policy)
    ensures OpsOk(CoinKind(policy), CoinOps(policy)) && NeverReceipts(CoinOps(policy))
  {
    OutgoingOk(policy);
    IncomingOk(policy);
    InherentOk(policy);
  }

  lemma {:induction false} OutgoingOk(policy: Policy)
    ensures var k, ops := CoinKind(policy), CoinOps(policy);
            Inverts(k, ops.commitOutgoing, ops.revertOutgoing) && RevertsPast(ops.commitOutgoing, ops.revertOutgoing)
  {
    OutgoingInverts(policy);
    OutgoingRevertsPast(policy);
  }

  lemma {:induction false} OutgoingInverts(policy: Policy)
    ensures Inverts(CoinKind(policy), CoinOps(policy).commitOutgoing, CoinOps(policy).revertOutgoing)
  {
    forall a, x | CommitOutgoing(policy, a, x).Success?
      ensures CommitOutgoing(policy, a, x).value.1 == None && CommitOutgoing(policy, a, x).value.0.Type() == a.Type()
      ensures RevertOutgoing(CommitOutgoing(policy, a, x).value.0, x, None) == Success((a, None))
    {
      SpendThenRefund(policy, a, x);
    }
  }

  lemma {:induction false} SpendThenRefund(policy: Policy, a: Account, x: Tx)
    requires CommitOutgoing(policy, a, x).Success?
    ensures CommitOutgoing(policy, a, x).value.1 == None && CommitOutgoing(policy, a, x).value.0.Type() == a.Type()
    ensures RevertOutgoing(CommitOutgoing(policy, a, x).value.0, x, None) == Success((a, None))
  {
  }

  lemma {:induction false} OutgoingRevertsPast(policy: Policy)
    ensures RevertsPast(CoinOps(policy).commitOutgoing, CoinOps(policy).revertOutgoing)
  {
    var ops := CoinOps(policy);
    forall c, x, r, y | ops.revertOutgoing(c, x, r).Success? && ops.commitOutgoing(c, y, None).Success?
      ensures Swaps(ops.commitOutgoing, ops.revertOutgoing, c, x, r, y)
    {
      assert r == None;
      SpendBeforeRefund(policy, c, x, y);
    }
  }

  /** Giving one payment back first leaves the other possible, with the same total effect. */
  lemma {:induction false} SpendBeforeRefund(policy: Policy, c: Account, x: Tx, y: Tx)
    requires RevertOutgoing(c, x, None).Success? && CommitOutgoing(policy, c, y).Success?
    ensures var d := RevertOutgoing(c, x, None).value.0;
            && CommitOutgoing(policy, d, y).Success?
            && RevertOutgoing(CommitOutgoing(policy, c, y).value.0, x, None) ==
               Success((CommitOutgoing(policy, d, y).value.0, None))
            && CommitOutgoing(policy, d, y).value.1 == None
  {
    var d := RevertOutgoing(c, x, None).value.0;
    assert MinCap(policy, d, y) == MinCap(policy, c, y);
  }

  lemma {:induction false} IncomingOk(policy: Policy)
    ensures var k, ops := CoinKind(policy), CoinOps(policy);
            Inverts(k, ops.commitIncoming, ops.revertIncoming) && RevertsPast(ops.commitIncoming, ops.revertIncoming)
  {
  }

  lemma {:induction false} InherentOk(policy: Policy)
    ensures var k, ops := CoinKind(policy), CoinOps(policy);
            Inverts(k, ops.commitInherent, ops.revertInherent) && RevertsPast(ops.commitInherent, ops.revertInherent)
  {
  }

  /** Whoever has received a transaction is, and stays, a basic account until contracts are created. */
  lemma {:induction false} RecipientsAreBasic(policy: Policy, tree: Tree<Account>, txs: seq<Tx>)
    requires ApplyAll(CoinKind(policy), Incoming(CoinOps(policy).commitIncoming), tree, txs, NoReceipts(|txs|)).Success?
    ensures var t := ApplyAll(CoinKind(policy), Incoming(CoinOps(policy).commitIncoming), tree, txs,
                              NoReceipts(|txs|)).value.0;
            && (forall x :: x in txs ==> Get(CoinKind(policy), t, x.recipient).Basic?)
            && (forall a :: Get(CoinKind(policy), tree, a).Basic? ==> Get(CoinKind(policy), t, a).Basic?)
    decreases |txs|
  {
    var k, ph := CoinKind(policy), Incoming(CoinOps(policy).commitIncoming);
    if txs != [] {
      NoReceiptsTail(|txs|);
      var next := Apply(k, ph, tree, txs[0], None).value.0;
      RecipientsAreBasic(policy, next, txs[1..]);
      assert Get(k, next, txs[0].recipient).Basic?;
      assert txs == [txs[0]] + txs[1..];
    }
  }

  /**
   * A committed block of coin transactions can be taken back, and then restores the tree exactly,
   * if and only if no two of its transactions create a contract at the same address.
   */
  lemma {:induction false} RevertRestoresIff(policy: Policy, tree: Tree<Account>, txs: seq<Tx>,
                                             inherents: seq<Inherent>)
    requires Normal(CoinKind(policy), tree)
    requires Commit(CoinKind(policy), CoinOps(policy), tree, txs, inherents).Success?
    ensures var (t, receipts) := Commit(CoinKind(policy), CoinOps(policy), tree, txs, inherents).value;
            Revert(CoinKind(policy), CoinOps(policy), t, txs, inherents, receipts) == Success(tree) <==>
            DistinctCreations(txs)
  {
    var k, ops := CoinKind(policy), CoinOps(policy);
    CoinKindOk(policy);
    CoinOpsOk(policy);
    var w := TrailOf(k, ops, tree, txs, inherents);
    CreationTypes(k, BASIC, w.afterRecipients, txs);
    if DistinctCreations(txs) {
      RecipientsAreBasic(policy, w.afterSenders, txs);
      RevertUndoesCommit(k, ops, tree, txs, inherents, w);
    } else if Revert(k, ops, w.afterPost, txs, inherents, AllReceipts(w)).Success? {
      RevertNeedsDistinct(policy, w.afterPost, txs, inherents, AllReceipts(w));
    }
  }

  lemma {:induction false} RevertNeedsDistinct(policy: Policy, tree: Tree<Account>, txs: seq<Tx>,
                                               inherents: seq<Inherent>, receipts: seq<Receipt<Account>>)
    requires forall t :: t in txs && CreatesContract(t) ==> t.recipientType != BASIC
    requires Revert(CoinKind(policy), CoinOps(policy), tree, txs, inherents, receipts).Success?
    ensures DistinctCreations(txs)
  {
    var k, ops := CoinKind(policy), CoinOps(policy);
    var post := Select(inherents, false);
    var p := PrepareReceipts(receipts);
    var r6 := ApplyAll(k, Inherents(ops.revertInherent), tree, post, Lookup(p.post, |post|)).value;
    RevertedOnce(k, BASIC, RestoreAccounts(k, r6.0, p.pruned), txs);
  }

  lemma {:induction false} PairApplied<T>(k: Kind<Account>, ph: Phase<Account, T>, tree: Tree<Account>, t: T, u: T,
                                          a: Tree<Account>, b: Tree<Account>)
    requires Apply(k, ph, tree, t, None) == Success((a, None)) && Apply(k, ph, a, u, None) == Success((b, None))
    ensures ApplyAll(k, ph, tree, [t, u], NoReceipts(2)).Success? &&
            ApplyAll(k, ph, tree, [t, u], NoReceipts(2)).value.0 == b
  {
    assert [t, u][1..] == [u] && [u][1..] == [] && NoReceipts(2)[1..] == NoReceipts(1) && NoReceipts(1)[1..] == [];
    assert ApplyAll(k, ph, b, [], []) == Success((b, []));
    assert ApplyAll(k, ph, a, [u], NoReceipts(1)).Success?;
  }

  /** A new contract at the same address for one coin, paid by the sender. */
  ghost predicate CreatesAt(policy: Policy, t: Tx, sender: nat, recipient: nat) {
    && t.sender == sender && t.recipient == recipient && t.senderType == BASIC && t.recipientType == HTLC
    && CreatesContract(t) && t.value == 1 && t.fee == 0 && policy.parse(HTLC, t).Success?
  }

  lemma {:induction false} PaidTwice(policy: Policy, t: Tx, u: Tx, sender: nat, recipient: nat)
    requires CreatesAt(policy, t, sender, recipient) && CreatesAt(policy, u, sender, recipient)
    ensures var r := ApplyAll(CoinKind(policy), Outgoing(CoinOps(policy).commitOutgoing), map[sender := Basic(2)],
                              [t, u], NoReceipts(2));
            r.Success? && r.value.0 == map[]
  {
    var k, empty: Tree<Account> := CoinKind(policy), map[];
    var tree: Tree<Account>, spent: Tree<Account> := map[sender := Basic(2)], map[sender := Basic(1)];
    assert tree[sender := Basic(1)] == spent && spent - {sender} == empty;
    PairApplied(k, Outgoing(CoinOps(policy).commitOutgoing), tree, t, u, spent, empty);
  }

  lemma {:induction false} ReceivedTwice(policy: Policy, t: Tx, u: Tx, sender: nat, recipient: nat)
    requires CreatesAt(policy, t, sender, recipient) && CreatesAt(policy, u, sender, recipient)
    ensures var r := ApplyAll(CoinKind(policy), Incoming(CoinOps(policy).commitIncoming), map[], [t, u], NoReceipts(2));
            r.Success? && r.value.0 == map[recipient := Basic(2)]
  {
    var k, empty: Tree<Account> := CoinKind(policy), map[];
    var one: Tree<Account>, two: Tree<Account> := map[recipient := Basic(1)], map[recipient := Basic(2)];
    assert empty[recipient := Basic(1)] == one && one[recipient := Basic(2)] == two;
    PairApplied(k, Incoming(CoinOps(policy).commitIncoming), empty, t, u, one, two);
  }

  lemma {:induction false} CreatedTwice(policy: Policy, t: Tx, u: Tx, sender: nat, recipient: nat)
    requires CreatesAt(policy, t, sender, recipient) && CreatesAt(policy, u, sender, recipient)
    ensures CreateContracts(CoinKind(policy), map[recipient := Basic(2)], [t, u]).Success?
  {
    var k, tree: Tree<Account> := CoinKind(policy), map[recipient := Basic(2)];
    var first := Put(k, tree, recipient, Htlc(2, policy.parse(HTLC, t).value));
    var second := Put(k, first, recipient, Htlc(2, policy.parse(HTLC, u).value));
    assert [t, u][1..] == [u] && [u][1..] == [];
    assert CreateContracts(k, second, []) == Success(second);
    assert Get(k, first, recipient).balance == 2;
    assert CreateContracts(k, first, [u]) == Success(second);
  }

  /** A block may create contracts twice at one address: it commits, and then it cannot be reverted. */
  lemma {:induction false} CreatingTwiceCommits(policy: Policy, t: Tx, u: Tx, sender: nat, recipient: nat)
    requires CreatesAt(policy, t, sender, recipient) && CreatesAt(policy, u, sender, recipient)
    ensures Commit(CoinKind(policy), CoinOps(policy), map[sender := Basic(2)], [t, u], []).Success?
    ensures !DistinctCreations([t, u])
  {
    PaidTwice(policy, t, u, sender, recipient);
    ReceivedTwice(policy, t, u, sender, recipient);
    CreatedTwice(policy, t, u, sender, recipient);
    assert [t, u][0].recipient == [t, u][1].recipient;
  }
}
