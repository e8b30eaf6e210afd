/** Applying a block to the accounts tree and taking it back (accounts/src/accounts.rs). */
module Accounts {
  import opened Prelude
  import opened Transactions

  type Data = seq<nat>

  datatype AccountError = TypeMismatch(expected: nat, got: nat) | Rejected(reason: nat)

  datatype InherentType = Reward | Slash | FinalizeBatch | FinalizeEpoch

  datatype Inherent = Inherent(ty: InherentType, target: nat, value: nat, data: Data) {
    predicate IsPreTransactions() {
      ty.Slash?
    }
  }

  const U16: nat := 0x1_0000

  /** An operation on one account: it may fail, and may produce a receipt. */
  type Op<!A, !T> = (A, T, Option<Data>) -> Result<(A, Option<Data>), AccountError>

  /** What the accounts tree needs to know about accounts. */
  datatype Kind<!A(==)> = Kind(
    initial: A,
    typeOf: A -> nat,
    balance: A -> nat,
    basic: nat -> A,
    contract: (nat, nat, Tx) -> Result<A, AccountError>,
    prunable: A -> bool)

  /** The operations of committing and of reverting on one account. */
  datatype Ops<!A> = Ops(
    commitOutgoing: Op<A, Tx>,
    revertOutgoing: Op<A, Tx>,
    commitIncoming: Op<A, Tx>,
    revertIncoming: Op<A, Tx>,
    commitInherent: Op<A, Inherent>,
    revertInherent: Op<A, Inherent>)

  predicate CreatesContract(t: Tx) {
    t.flags % 2 == 1
  }

  // ---------- the tree ----------

  /** Addresses without an entry have the initial account; initial accounts are never stored. */
  type Tree<!A> = map<nat, A>

  function Get<A>(k: Kind<A>, tree: Tree<A>, a: nat): A {
    if a in tree then tree[a] else k.initial
  }

  function Put<A(==)>(k: Kind<A>, tree: Tree<A>, a: nat, account: A): Tree<A> {
    if account == k.initial then tree - {a} else tree[a := account]
  }

  ghost predicate Normal<A>(k: Kind<A>, tree: Tree<A>) {
    forall a :: a in tree ==> tree[a] != k.initial
  }

  // ---------- one phase: a list of items, each acting on one account ----------

  /** Whose account an item acts on, which type that account must have, and what happens to it. */
  datatype Phase<!A, !T> = Phase(address: T -> nat, required: T -> Option<nat>, op: Op<A, T>)

  function Apply<A(==), T>(k: Kind<A>, ph: Phase<A, T>, tree: Tree<A>, x: T, receipt: Option<Data>)
    : Result<(Tree<A>, Option<Data>), AccountError> {
    var account := Get(k, tree, ph.address(x));
    var required := ph.required(x);
    if required.Some? && k.typeOf(account) != required.value then
      Failure(TypeMismatch(k.typeOf(account), required.value))
    else
      var r :- ph.op(account, x, receipt);
      Success((Put(k, tree, ph.address(x), r.0), r.1))
  }

  /** Processes the items in order; receipts[i] goes with item i, and so does the i-th result. */
  function ApplyAll<A(==), T>(k: Kind<A>, ph: Phase<A, T>, tree: Tree<A>, xs: seq<T>, receipts: seq<Option<Data>>)
    : (r: Result<(Tree<A>, seq<Option<Data>>), AccountError>)
    requires |receipts| == |xs|
    ensures r.Success? ==> |r.value.1| == |xs|
    decreases |xs|
  {
    if xs == [] then Success((tree, []))
    else
      var first :- Apply(k, ph, tree, xs[0], receipts[0]);
      var rest :- ApplyAll(k, ph, first.0, xs[1..], receipts[1..]);
      Success((rest.0, [first.1] + rest.1))
  }

  /** The receipts that items 0, 1, ... take out of a receipt map; each entry is taken at most once. */
  function Lookup(m: map<nat, Data>, n: nat): seq<Option<Data>> {
    seq(n, i requires 0 <= i < n => if i < U16 && i in m then Some(m[i]) else None)
  }

  function NoReceipts(n: nat): seq<Option<Data>> {
    seq(n, i requires 0 <= i < n => None)
  }

  datatype Receipt<A> =
    | TransactionReceipt(index: nat, sender: bool, data: Data)
    | InherentReceipt(index: nat, preTransactions: bool, data: Data)
    | PrunedAccount(address: nat, account: A)

  /** Which kind of receipt a phase writes. */
  datatype Tag = SenderTag | RecipientTag | PreTag | PostTag

  function MakeReceipt<A>(tag: Tag, index: nat, data: Data): Receipt<A> {
    match tag
    case SenderTag => TransactionReceipt(index % U16, true, data)
    case RecipientTag => TransactionReceipt(index % U16, false, data)
    case PreTag => InherentReceipt(index % U16, true, data)
    case PostTag => InherentReceipt(index % U16, false, data)
  }

  /** The receipts of the items that produced one, numbered by position. */
  function Receipts<A>(tag: Tag, results: seq<Option<Data>>): seq<Receipt<A>> {
    if results == [] then []
    else
      var last := |results| - 1;
      Receipts(tag, results[..last]) + if results[last].Some? then [MakeReceipt(tag, last, results[last].value)] else []
  }

  // ---------- contracts ----------

  function CreateContracts<A(==)>(k: Kind<A>, tree: Tree<A>, txs: seq<Tx>): Result<Tree<A>, AccountError>
    decreases |txs|
  {
    if txs == [] then Success(tree)
    else if !CreatesContract(txs[0]) then CreateContracts(k, tree, txs[1..])
    else
      var account :- k.contract(txs[0].recipientType, k.balance(Get(k, tree, txs[0].recipient)), txs[0]);
      CreateContracts(k, Put(k, tree, txs[0].recipient, account), txs[1..])
  }

  function RevertContracts<A(==)>(k: Kind<A>, tree: Tree<A>, txs: seq<Tx>): Result<Tree<A>, AccountError>
    decreases |txs|
  {
    if txs == [] then Success(tree)
    else if !CreatesContract(txs[0]) then RevertContracts(k, tree, txs[1..])
    else
      var account := Get(k, tree, txs[0].recipient);
      if k.typeOf(account) != txs[0].recipientType then Failure(TypeMismatch(k.typeOf(account), txs[0].recipientType))
      else RevertContracts(k, Put(k, tree, txs[0].recipient, k.basic(k.balance(account))), txs[1..])
  }

  // ---------- pruning ----------

  function PruneAccounts<A(==)>(k: Kind<A>, tree: Tree<A>, txs: seq<Tx>): (Tree<A>, seq<Receipt<A>>)
    decreases |txs|
  {
    if txs == [] then (tree, [])
    else
      var a := txs[0].sender;
      var account := Get(k, tree, a);
      if k.prunable(account) then
        var rest := PruneAccounts(k, Put(k, tree, a, k.initial), txs[1..]);
        (rest.0, [PrunedAccount(a, account)] + rest.1)
      else PruneAccounts(k, tree, txs[1..])
  }

  function RestoreAccounts<A(==)>(k: Kind<A>, tree: Tree<A>, pruned: seq<Receipt<A>>): Tree<A>
    requires forall r :: r in pruned ==> r.PrunedAccount?
    decreases |pruned|
  {
    if pruned == [] then tree
    else RestoreAccounts(k, Put(k, tree, pruned[0].address, pruned[0].account), pruned[1..])
  }

  // ---------- a whole block ----------

  const BySender: Tx -> nat := (t: Tx) => t.sender

  const ByRecipient: Tx -> nat := (t: Tx) => t.recipient

  function Outgoing<A>(op: Op<A, Tx>): Phase<A, Tx> {
    Phase(BySender, (t: Tx) => Some(t.senderType), op)
  }

  function Incoming<A>(op: Op<A, Tx>): Phase<A, Tx> {
    Phase(ByRecipient, (t: Tx) => if CreatesContract(t) then None else Some(t.recipientType), op)
  }

  function Inherents<A>(op: Op<A, Inherent>): Phase<A, Inherent> {
    Phase((i: Inherent) => i.target, (i: Inherent) => None, op)
  }

  /** The inherents processed before (or after) the transactions. */
  function Select(inherents: seq<Inherent>, pre: bool): seq<Inherent> {
    if inherents == [] then []
    else (if inherents[0].IsPreTransactions() == pre then [inherents[0]] else []) + Select(inherents[1..], pre)
  }

  function Commit<A(==)>(k: Kind<A>, ops: Ops<A>, tree: Tree<A>, txs: seq<Tx>, inherents: seq<Inherent>)
    : Result<(Tree<A>, seq<Receipt<A>>), AccountError> {
    var pre, post := Select(inherents, true), Select(inherents, false);
    var r1 :- ApplyAll(k, Inherents(ops.commitInherent), tree, pre, NoReceipts(|pre|));
    var r2 :- ApplyAll(k, Outgoing(ops.commitOutgoing), r1.0, txs, NoReceipts(|txs|));
    var r3 :- ApplyAll(k, Incoming(ops.commitIncoming), r2.0, txs, NoReceipts(|txs|));
    var t4 :- CreateContracts(k, r3.0, txs);
    var r5 := PruneAccounts(k, t4, txs);
    var r6 :- ApplyAll(k, Inherents(ops.commitInherent), r5.0, post, NoReceipts(|post|));
    Success((r6.0,
             Receipts(PreTag, r1.1) + Receipts(SenderTag, r2.1) + Receipts(RecipientTag, r3.1) + r5.1 +
             Receipts(PostTag, r6.1)))
  }

  /** The receipts of a block, sorted by purpose; a later receipt replaces one with the same index. */
  datatype Prepared<A> = Prepared(
    sender: map<nat, Data>,
    recipient: map<nat, Data>,
    pre: map<nat, Data>,
    post: map<nat, Data>,
    pruned: seq<Receipt<A>>)

  function PrepareReceipts<A>(receipts: seq<Receipt<A>>): (p: Prepared<A>)
    ensures forall r :: r in p.pruned ==> r.PrunedAccount?
  {
    if receipts == [] then Prepared(map[], map[], map[], map[], [])
    else
      var p, r := PrepareReceipts(receipts[..|receipts| - 1]), receipts[|receipts| - 1];
      match r
      case TransactionReceipt(index, sender, data) =>
        if sender then p.(sender := p.sender[index := data]) else p.(recipient := p.recipient[index := data])
      case InherentReceipt(index, preTransactions, data) =>
        if preTransactions then p.(pre := p.pre[index := data]) else p.(post := p.post[index := data])
      case PrunedAccount(_, _) => p.(pruned := p.pruned + [r])
  }

  function Revert<A(==)>(k: Kind<A>, ops: Ops<A>, tree: Tree<A>, txs: seq<Tx>, inherents: seq<Inherent>,
                         receipts: seq<Receipt<A>>): Result<Tree<A>, AccountError> {
    var pre, post := Select(inherents, true), Select(inherents, false);
    var p := PrepareReceipts(receipts);
    var r6 :- ApplyAll(k, Inherents(ops.revertInherent), tree, post, Lookup(p.post, |post|));
    var t5 := RestoreAccounts(k, r6.0, p.pruned);
    var t4 :- RevertContracts(k, t5, txs);
    var r3 :- ApplyAll(k, Incoming(ops.revertIncoming), t4, txs, Lookup(p.recipient, |txs|));
    var r2 :- ApplyAll(k, Outgoing(ops.revertOutgoing), r3.0, txs, Lookup(p.sender, |txs|));
    var r1 :- ApplyAll(k, Inherents(ops.revertInherent), r2.0, pre, Lookup(p.pre, |pre|));
    Success(r1.0)
  }
}
