/** The accounts database: the phases of a block, run against the stored tree (accounts/src/accounts.rs). */
module AccountsDatabase {
  import opened Prelude
  import opened Transactions
  import opened Accounts

  class Database<A(==)> {
    const k: Kind<A>
    const ops: Ops<A>
    var tree: Tree<A>

    constructor (k: Kind<A>, ops: Ops<A>)
      ensures this.k == k && this.ops == ops && tree == map[]
    {
      this.k, this.ops, tree := k, ops, map[];
    }

    /** Reads one account, applies an operation to it and writes it back. */
    method ProcessItem<T>(ph: Phase<A, T>, x: T, receipt: Option<Data>) returns (r: Result<Option<Data>, AccountError>)
      modifies this`tree
      ensures match Apply(k, ph, old(tree), x, receipt)
              case Failure(e) => r == Failure(e)
              case Success((t, data)) => tree == t && r == Success(data)
    {
      var address := ph.address(x);
      var account := Get(k, tree, address);
      var required := ph.required(x);
      if required.Some? && k.typeOf(account) != required.value {
        return Failure(TypeMismatch(k.typeOf(account), required.value));
      }
      var result := ph.op(account, x, receipt);
      match result {
        case Failure(e) => return Failure(e);
        case Success((account', data)) =>
          tree := Put(k, tree, address, account');
          return Success(data);
      }
    }

    /** Processes the items of a phase in order, handing each its receipt and collecting new ones. */
    method Process<T>(ph: Phase<A, T>, xs: seq<T>, receipts: map<nat, Data>, tag: Tag)
      returns (r: Result<seq<Receipt<A>>, AccountError>)
      modifies this`tree
      ensures match ApplyAll(k, ph, old(tree), xs, Lookup(receipts, |xs|))
              case Failure(e) => r == Failure(e)
              case Success((t, results)) => tree == t && r == Success(Receipts(tag, results))
    {
      var left: map<nat, Data> := receipts;
      var made: seq<Receipt<A>> := [];
      ghost var given, results := Lookup(receipts, |xs|), [];
      ghost var total := ApplyAll(k, ph, tree, xs, given);
      assert xs[0..] == xs && given[0..] == given;
      ContinueStart(total);
      for i := 0 to |xs|
        invariant Untaken(receipts, left, i)
        invariant |results| == i && made == Receipts(tag, results)
        invariant total == Continue(results, ApplyAll(k, ph, tree, xs[i..], given[i..]))
      {
        var index := i % U16;
        var receipt := if index in left then Some(left[index]) else None;
        TakeReceipt(receipts, left, i, |xs|);
        left := left - {index};
        ApplyNext(k, ph, tree, xs, given, i, results);
        var data := ProcessItem(ph, xs[i], receipt);
        match data {
          case Failure(e) => return Failure(e);
          case Success(d) =>
            ReceiptsWith(tag, results, d, made);
            if d.Some? {
              made := made + [MakeReceipt(tag, i, d.value)];
            }
            results := results + [d];
        }
      }
      assert results + [] == results;
      return Success(made);
    }

    method Create(txs: seq<Tx>) returns (r: Result<(), AccountError>)
      modifies this`tree
      ensures match CreateContracts(k, old(tree), txs)
              case Failure(e) => r == Failure(e)
              case Success(t) => tree == t && r == Success(())
    {
      assert txs[0..] == txs;
      for i := 0 to |txs|
        invariant CreateContracts(k, old(tree), txs) == CreateContracts(k, tree, txs[i..])
      {
        assert txs[i..][1..] == txs[i + 1..];
        if CreatesContract(txs[i]) {
          var account := Get(k, tree, txs[i].recipient);
          var contract := k.contract(txs[i].recipientType, k.balance(account), txs[i]);
          if contract.Failure? {
            return Failure(contract.error);
          }
          tree := Put(k, tree, txs[i].recipient, contract.value);
        }
      }
      return Success(());
    }

    method RevertCreation(txs: seq<Tx>) returns (r: Result<(), AccountError>)
      modifies this`tree
      ensures match RevertContracts(k, old(tree), txs)
              case Failure(e) => r == Failure(e)
              case Success(t) => tree == t && r == Success(())
    {
      assert txs[0..] == txs;
      for i := 0 to |txs|
        invariant RevertContracts(k, old(tree), txs) == RevertContracts(k, tree, txs[i..])
      {
        assert txs[i..][1..] == txs[i + 1..];
        if CreatesContract(txs[i]) {
          var account := Get(k, tree, txs[i].recipient);
          if k.typeOf(account) != txs[i].recipientType {
            return Failure(TypeMismatch(k.typeOf(account), txs[i].recipientType));
          }
          tree := Put(k, tree, txs[i].recipient, k.basic(k.balance(account)));
        }
      }
      return Success(());
    }

    method Prune(txs: seq<Tx>) returns (pruned: seq<Receipt<A>>)
      modifies this`tree
      ensures (tree, pruned) == PruneAccounts(k, old(tree), txs)
    {
      pruned := [];
      assert txs[0..] == txs;
      for i := 0 to |txs|
        invariant PruneAccounts(k, old(tree), txs).0 == PruneAccounts(k, tree, txs[i..]).0
        invariant PruneAccounts(k, old(tree), txs).1 == pruned + PruneAccounts(k, tree, txs[i..]).1
      {
        assert txs[i..][1..] == txs[i + 1..];
        var account := Get(k, tree, txs[i].sender);
        if k.prunable(account) {
          ghost var rest := PruneAccounts(k, Put(k, tree, txs[i].sender, k.initial), txs[i + 1..]).1;
          assert pruned + ([PrunedAccount(txs[i].sender, account)] + rest) ==
                 pruned + [PrunedAccount(txs[i].sender, account)] + rest;
          pruned := pruned + [PrunedAccount(txs[i].sender, account)];
          tree := Put(k, tree, txs[i].sender, k.initial);
        }
      }
      assert pruned + [] == pruned;
    }

    method Restore(pruned: seq<Receipt<A>>)
      requires forall r :: r in pruned ==> r.PrunedAccount?
      modifies this`tree
      ensures tree == RestoreAccounts(k, old(tree), pruned)
    {
      assert pruned[0..] == pruned;
      for i := 0 to |pruned|
        invariant RestoreAccounts(k, old(tree), pruned) == RestoreAccounts(k, tree, pruned[i..])
      {
        assert pruned[i..][1..] == pruned[i + 1..];
        tree := Put(k, tree, pruned[i].address, pruned[i].account);
      }
    }

    /** Applies a block; on an error the caller discards the database transaction. */
    method CommitBlock(txs: seq<Tx>, inherents: seq<Inherent>) returns (r: Result<seq<Receipt<A>>, AccountError>)
      modifies this`tree
      ensures match Commit(k, ops, old(tree), txs, inherents)
              case Failure(e) => r == Failure(e)
              case Success((t, receipts)) => tree == t && r == Success(receipts)
    {
      var pre, post := Select(inherents, true), Select(inherents, false);
      EmptyLookup(|pre|);
      EmptyLookup(|post|);
      EmptyLookup(|txs|);
      var r1 :- Process(Inherents(ops.commitInherent), pre, map[], PreTag);
      var r2 :- Process(Outgoing(ops.commitOutgoing), txs, map[], SenderTag);
      var r3 :- Process(Incoming(ops.commitIncoming), txs, map[], RecipientTag);
      var r4 :- Create(txs);
      var r5 := Prune(txs);
      var r6 :- Process(Inherents(ops.commitInherent), post, map[], PostTag);
      return Success(r1 + r2 + r3 + r5 + r6);
    }

    /** Takes a block back, given the receipts of its commit. */
    method RevertBlock(txs: seq<Tx>, inherents: seq<Inherent>, receipts: seq<Receipt<A>>)
      returns (r: Result<(), AccountError>)
      modifies this`tree
      ensures match Revert(k, ops, old(tree), txs, inherents, receipts)
              case Failure(e) => r == Failure(e)
              case Success(t) => tree == t && r == Success(())
    {
      var pre, post := Select(inherents, true), Select(inherents, false);
      var p := Prepare(receipts);
      var r6 :- Process(Inherents(ops.revertInherent), post, p.post, PostTag);
      Restore(p.pruned);
      var r4 :- RevertCreation(txs);
      var r3 :- Process(Incoming(ops.revertIncoming), txs, p.recipient, RecipientTag);
      var r2 :- Process(Outgoing(ops.revertOutgoing), txs, p.sender, SenderTag);
      var r1 :- Process(Inherents(ops.revertInherent), pre, p.pre, PreTag);
      return Success(());
    }

    static method Prepare(receipts: seq<Receipt<A>>) returns (p: Prepared<A>)
      ensures p == PrepareReceipts(receipts)
    {
      var sender, recipient, pre, post: map<nat, Data> := map[], map[], map[], map[];
      var pruned: seq<Receipt<A>> := [];
      for i := 0 to |receipts|
        invariant Prepared(sender, recipient, pre, post, pruned) == PrepareReceipts(receipts[..i])
      {
        assert receipts[..i + 1][..i] == receipts[..i];
        match receipts[i] {
          case TransactionReceipt(index, isSender, data) =>
            if isSender {
              sender := sender[index := data];
            } else {
              recipient := recipient[index := data];
            }
          case InherentReceipt(index, preTransactions, data) =>
            if preTransactions {
              pre := pre[index := data];
            } else {
              post := post[index := data];
            }
          case PrunedAccount(_, _) =>
            pruned := pruned + [receipts[i]];
        }
      }
      assert receipts[..|receipts|] == receipts;
      p := Prepared(sender, recipient, pre, post, pruned);
    }
  }

  /** The receipts not yet handed out to the first n items. */
  ghost predicate Untaken(receipts: map<nat, Data>, left: map<nat, Data>, n: nat) {
    && (forall j :: j in left <==> j in receipts && !(j < n && j < U16))
    && (forall j :: j in left ==> left[j] == receipts[j])
  }

  lemma {:induction false} TakeReceipt(receipts: map<nat, Data>, left: map<nat, Data>, i: nat, n: nat)
    requires Untaken(receipts, left, i) && i < n
    ensures Lookup(receipts, n)[i] == if i % U16 in left then Some(left[i % U16]) else None
    ensures Untaken(receipts, left - {i % U16}, i + 1)
  {
  }

  /** A phase whose first items gave `done` goes on like the rest of it. */
  function Continue<A>(done: seq<Option<Data>>, rest: Result<(Tree<A>, seq<Option<Data>>), AccountError>)
    : Result<(Tree<A>, seq<Option<Data>>), AccountError> {
    match rest
    case Failure(e) => Failure(e)
    case Success((t, results)) => Success((t, done + results))
  }

  lemma {:induction false} ContinueStart<A>(rest: Result<(Tree<A>, seq<Option<Data>>), AccountError>)
    ensures Continue([], rest) == rest
  {
    if rest.Success? {
      assert [] + rest.value.1 == rest.value.1;
    }
  }

  /** One item of a phase, then the others. */
  lemma {:induction false} ApplyNext<A, T>(k: Kind<A>, ph: Phase<A, T>, tree: Tree<A>, xs: seq<T>,
                                           given: seq<Option<Data>>, i: nat, results: seq<Option<Data>>)
    requires |given| == |xs| && i < |xs|
    ensures Continue(results, ApplyAll(k, ph, tree, xs[i..], given[i..])) ==
            match Apply(k, ph, tree, xs[i], given[i])
            case Failure(e) => Failure(e)
            case Success((t, d)) => Continue(results + [d], ApplyAll(k, ph, t, xs[i + 1..], given[i + 1..]))
  {
    assert xs[i..][1..] == xs[i + 1..] && given[i..][1..] == given[i + 1..];
    match Apply(k, ph, tree, xs[i], given[i]) {
      case Failure(_) =>
      case Success((t, d)) => ContinueStep(results, d, ApplyAll(k, ph, t, xs[i + 1..], given[i + 1..]));
    }
  }

  lemma {:induction false} ReceiptsWith<A>(tag: Tag, results: seq<Option<Data>>, d: Option<Data>, made: seq<Receipt<A>>)
    requires made == Receipts(tag, results)
    ensures Receipts(tag, results + [d]) == made + if d.Some? then [MakeReceipt(tag, |results|, d.value)] else []
  {
    assert (results + [d])[..|results|] == results;
  }

  lemma {:induction false} ContinueStep<A>(done: seq<Option<Data>>, d: Option<Data>,
                                           rest: Result<(Tree<A>, seq<Option<Data>>), AccountError>)
    ensures Continue(done, Continue([d], rest)) == Continue(done + [d], rest)
  {
    if rest.Success? {
      assert done + ([d] + rest.value.1) == done + [d] + rest.value.1;
    }
  }

  lemma {:induction false} EmptyLookup(n: nat)
    ensures Lookup(map[], n) == NoReceipts(n)
  {
  }
}
