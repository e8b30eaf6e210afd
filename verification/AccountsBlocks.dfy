/**
 * The transactions of a verified block (`verify_block_body` in blockchain-albatross/src/blockchain/verify.rs):
 * they are in strict block order and create contracts only at the addresses they hash to. So a block
 * on basic, vesting and hashed time-locked accounts can always be taken back, and one that touches
 * the staking contract exactly if its stakes are restorable.
 */
module AccountsBlocks {
  import opened Prelude
  import opened Transactions
  import opened Accounts
  import opened AccountsRevert
  import opened AccountsCoins
  import opened StakingContracts
  import opened StakingParts
  import opened StakingPhases
  import opened StakingReverts
  import opened StakingBlocks

  datatype BlockError = DuplicateTransaction | TransactionsNotOrdered | InvalidTransaction

  /** The fields in the order in which `cmp_block_order` compares them; larger fees and values come first. */
  function BlockKey(t: Tx): seq<real> {
    [t.recipient as real, t.validityStartHeight as real, -(t.fee as real), -(t.value as real), t.sender as real,
     t.recipientType as real, t.senderType as real, t.flags as real, |t.data| as real] + Reals(t.data)
  }

  predicate BlockLess(a: Tx, b: Tx) {
    LexLess(BlockKey(a), BlockKey(b))
  }

  /** What a contract creation address is the hash of: the serialized content, with the recipient blanked. */
  datatype Content = Content(
    data: seq<nat>,
    sender: nat,
    senderType: nat,
    recipientType: nat,
    value: nat,
    fee: nat,
    validityStartHeight: nat,
    flags: nat)

  function CreationContent(t: Tx): Content {
    Content(t.data, t.sender, t.senderType, t.recipientType, t.value, t.fee, t.validityStartHeight, t.flags)
  }

  /** What verifying a transaction says of a creation: its recipient is its creation address. */
  predicate CreatesAtOwnAddress(address: Content -> nat, t: Tx) {
    CreatesContract(t) ==> t.recipient == address(CreationContent(t))
  }

  ghost predicate Injective(address: Content -> nat) {
    forall a, b :: address(a) == address(b) ==> a == b
  }

  ghost predicate InBlockOrder(txs: seq<Tx>) {
    forall i :: 0 < i < |txs| ==> BlockLess(txs[i - 1], txs[i])
  }

  /** Checks the order of the transactions and each of them, and stops at the first fault. */
  method VerifyTransactions(txs: seq<Tx>, valid: Tx -> bool) returns (r: Result<nat, BlockError>)
    ensures r.Success? <==> InBlockOrder(txs) && forall t :: t in txs ==> valid(t)
    ensures r == Failure(DuplicateTransaction) ==>
              exists i :: 0 < i < |txs| && BlockKey(txs[i - 1]) == BlockKey(txs[i])
  {
    for i := 0 to |txs|
      invariant InBlockOrder(txs[..i])
      invariant forall j :: 0 <= j < i ==> valid(txs[j])
    {
      if i > 0 && !BlockLess(txs[i - 1], txs[i]) {
        LexTotal(BlockKey(txs[i - 1]), BlockKey(txs[i]));
        return Failure(if BlockLess(txs[i], txs[i - 1]) then TransactionsNotOrdered else DuplicateTransaction);
      }
      if !valid(txs[i]) {
        return Failure(InvalidTransaction);
      }
    }
    assert txs[..|txs|] == txs;
    return Success(|txs|);
  }

  lemma {:induction false} EarlierIsLess(txs: seq<Tx>, i: nat, j: nat)
    requires InBlockOrder(txs) && i < j < |txs|
    ensures BlockLess(txs[i], txs[j])
    decreases j
  {
    assert BlockLess(txs[j - 1], txs[j]);
    if i < j - 1 {
      EarlierIsLess(txs, i, j - 1);
      LexTransitive(BlockKey(txs[i]), BlockKey(txs[j - 1]), BlockKey(txs[j]));
    }
  }

  lemma {:induction false} SameAddressSameKey(address: Content -> nat, t: Tx, u: Tx)
    requires Injective(address) && CreatesContract(t) && CreatesContract(u)
    requires CreatesAtOwnAddress(address, t) && CreatesAtOwnAddress(address, u) && t.recipient == u.recipient
    ensures BlockKey(t) == BlockKey(u)
  {
    assert CreationContent(t) == CreationContent(u);
  }

  /** No two transactions of a verified block create a contract at the same address. */
  lemma {:induction false} VerifiedCreationsDistinct(address: Content -> nat, txs: seq<Tx>)
    requires Injective(address) && InBlockOrder(txs)
    requires forall t :: t in txs ==> CreatesAtOwnAddress(address, t)
    ensures DistinctCreations(txs)
  {
    forall i, j | 0 <= i < j < |txs| && CreatesContract(txs[i]) && CreatesContract(txs[j])
      ensures txs[i].recipient != txs[j].recipient
    {
      EarlierIsLess(txs, i, j);
      if txs[i].recipient == txs[j].recipient {
        SameAddressSameKey(address, txs[i], txs[j]);
        LexIrreflexive(BlockKey(txs[i]));
        assert false;
      }
    }
  }

  /** Whatever a verified block did to accounts without a staking contract, taking it back restores them exactly. */
  lemma {:induction false} VerifiedBlocksRevert(policy: Policy, address: Content -> nat, tree: Tree<CoinAccount>,
                                                txs: seq<Tx>, inherents: seq<Inherent>)
    requires Normal(CoinKind(policy), tree)
    requires Injective(address) && InBlockOrder(txs) && forall t :: t in txs ==> CreatesAtOwnAddress(address, t)
    requires Commit(CoinKind(policy), CoinOps(policy), tree, txs, inherents).Success?
    ensures var (t, receipts) := Commit(CoinKind(policy), CoinOps(policy), tree, txs, inherents).value;
            Revert(CoinKind(policy), CoinOps(policy), t, txs, inherents, receipts) == Success(tree)
  {
    VerifiedCreationsDistinct(address, txs);
    RevertRestoresIff(policy, tree, txs, inherents);
  }

  /** With the staking contract that holds exactly if the stakes are restorable. */
  lemma {:induction false} VerifiedBlocksRevertIff(p: StakingPolicy, address: Content -> nat, tree: Tree<AnyAccount>,
                                                   txs: seq<Tx>, inherents: seq<Inherent>)
    requires Normal(StakingKind(p), tree) && SoundTree(tree) && |txs| <= U16 && |inherents| <= U16
    requires Injective(address) && InBlockOrder(txs) && Valued(txs)
    requires forall t :: t in txs ==> CreatesAtOwnAddress(address, t)
    requires Commit(StakingKind(p), StakingOps(p), tree, txs, inherents).Success?
    ensures var (t, receipts) := Commit(StakingKind(p), StakingOps(p), tree, txs, inherents).value;
            Revert(StakingKind(p), StakingOps(p), t, txs, inherents, receipts) == Success(tree) <==>
            CreatesBeside(tree, txs) && StakesRestorable(p, tree, txs)
  {
    VerifiedCreationsDistinct(address, txs);
    RevertRestoresStakesIff(p, tree, txs, inherents);
  }
}
