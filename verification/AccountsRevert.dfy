/** Reverting a block undoes its commit (accounts/src/accounts.rs). */
module AccountsRevert {
  import opened Prelude
  import opened Transactions
  import opened Accounts
  import opened AccountsLocal

  // ---------- the tree ----------

  lemma {:induction false} PutBack<A>(k: Kind<A>, tree: Tree<A>, a: nat, x: A)
    requires Normal(k, tree)
    ensures Put(k, Put(k, tree, a, x), a, Get(k, tree, a)) == tree
  {
  }

  lemma {:induction false} PutSwap<A>(k: Kind<A>, tree: Tree<A>, a: nat, x: A, b: nat, y: A)
    requires a != b
    ensures Put(k, Put(k, tree, a, x), b, y) == Put(k, Put(k, tree, b, y), a, x)
  {
  }

  // ---------- what is assumed of account operations ----------

  /** Reverting an operation with its own receipt gives the account back, and types never change. */
  ghost predicate Inverts<A(!new), T(!new)>(k: Kind<A>, commit: Op<A, T>, revert: Op<A, T>) {
    && (forall a, x, r :: commit(a, x, r).Success? ==> k.typeOf(commit(a, x, r).value.0) == k.typeOf(a))
    && (forall a, x, r :: revert(a, x, r).Success? ==> k.typeOf(revert(a, x, r).value.0) == k.typeOf(a))
    && forall a, x :: Returns(commit, revert, a, x)
  }

  /** An operation can be taken back from below a later one, with the same effect and receipts. */
  ghost predicate RevertsPast<A(!new), T(!new)>(commit: Op<A, T>, revert: Op<A, T>) {
    forall c, x, r, y :: revert(c, x, r).Success? && commit(c, y, None).Success? ==> Swaps(commit, revert, c, x, r, y)
  }

  // ---------- one phase ----------

  /** Checking types first changes nothing about the algebra, as types never change. */
  lemma {:induction false} CheckedSwaps<A(!new), T(!new)>(k: Kind<A>, ph: Phase<A, T>, undo: Phase<A, T>, xs: seq<T>)
    requires undo == ph.(op := undo.op) && Inverts(k, ph.op, undo.op) && RevertsPast(ph.op, undo.op)
    ensures Exchange(Any(), Checked(k, ph), Checked(k, undo), xs)
  {
    var commit, revert := Checked(k, ph), Checked(k, undo);
    forall a, x
      ensures Returns(commit, revert, a, x)
    {
      assert Returns(ph.op, undo.op, a, x);
    }
    forall c, x, r, y | revert(c, x, r).Success? && commit(c, y, None).Success?
      ensures Swaps(commit, revert, c, x, r, y)
    {
      assert Swaps(ph.op, undo.op, c, x, r, y);
    }
  }

  /** A phase is undone by reverting its items in the same, forward order. */
  lemma {:induction false} UndoPhase<A(!new), T(!new)>(k: Kind<A>, ph: Phase<A, T>, undo: Phase<A, T>, tree: Tree<A>,
                                                       xs: seq<T>)
    requires undo == ph.(op := undo.op) && Inverts(k, ph.op, undo.op) && RevertsPast(ph.op, undo.op) && Normal(k, tree)
    requires ApplyAll(k, ph, tree, xs, NoReceipts(|xs|)).Success?
    ensures PhaseUndone(k, ph, undo, tree, xs)
  {
    forall a
      ensures UndoneAt(k, ph, undo, tree, xs, a)
    {
      CheckedSwaps(k, ph, undo, ItemsAt(ph.address, a, xs));
      SwappingIsUndone(Any(), Checked(k, ph), Checked(k, undo), Get(k, tree, a), ItemsAt(ph.address, a, xs));
    }
    PhaseUndoneIff(k, ph, undo, tree, xs);
  }

  // ---------- contracts ----------

  /** A new contract has the requested type and balance, and the initial account is not pruned. */
  ghost predicate KindOk<A(!new)>(k: Kind<A>) {
    && (forall ty, b, t :: k.contract(ty, b, t).Success? ==>
          k.typeOf(k.contract(ty, b, t).value) == ty && k.balance(k.contract(ty, b, t).value) == b)
    && !k.prunable(k.initial)
  }

  ghost predicate IsBasic<A>(k: Kind<A>, account: A) {
    account == k.basic(k.balance(account))
  }

  ghost predicate Creates(txs: seq<Tx>, a: nat) {
    exists t :: t in txs && CreatesContract(t) && t.recipient == a
  }

  /** No two transactions create a contract at the same address. */
  ghost predicate DistinctCreations(txs: seq<Tx>) {
    forall i, j :: 0 <= i < j < |txs| && CreatesContract(txs[i]) && CreatesContract(txs[j]) ==>
      txs[i].recipient != txs[j].recipient
  }

  ghost predicate BasicCreations<A>(k: Kind<A>, tree: Tree<A>, txs: seq<Tx>) {
    forall t :: t in txs && CreatesContract(t) ==> IsBasic(k, Get(k, tree, t.recipient))
  }

  /** Creating contracts elsewhere commutes with writing an address. */
  lemma {:induction false} CreateElsewhere<A>(k: Kind<A>, tree: Tree<A>, a: nat, x: A, txs: seq<Tx>)
    requires !Creates(txs, a)
    ensures var r := CreateContracts(k, tree, txs);
            && CreateContracts(k, Put(k, tree, a, x), txs) == (if r.Failure? then r else Success(Put(k, r.value, a, x)))
            && (r.Success? ==> Get(k, r.value, a) == Get(k, tree, a))
    decreases |txs|
  {
    if txs != [] {
      assert forall t :: t in txs[1..] ==> t in txs;
      assert !Creates(txs[1..], a);
      if CreatesContract(txs[0]) {
        var b := txs[0].recipient;
        assert a != b;
        GetPut(k, tree, a, x, b);
        var c := k.contract(txs[0].recipientType, k.balance(Get(k, tree, b)), txs[0]);
        if c.Success? {
          PutSwap(k, tree, a, x, b, c.value);
          GetPut(k, tree, b, c.value, a);
          CreateElsewhere(k, Put(k, tree, b, c.value), a, x, txs[1..]);
        }
      } else {
        CreateElsewhere(k, tree, a, x, txs[1..]);
      }
    }
  }

  /** Contract creations are undone, in forward order, when their addresses are distinct and were basic. */
  lemma {:induction false} UndoContracts<A(!new)>(k: Kind<A>, tree: Tree<A>, txs: seq<Tx>)
    requires KindOk(k) && Normal(k, tree) && DistinctCreations(txs) && BasicCreations(k, tree, txs)
    requires CreateContracts(k, tree, txs).Success?
    ensures RevertContracts(k, CreateContracts(k, tree, txs).value, txs) == Success(tree)
    ensures Normal(k, CreateContracts(k, tree, txs).value)
    decreases |txs|
  {
    if txs != [] {
      var rest := txs[1..];
      assert forall t :: t in rest ==> t in txs;
      assert DistinctCreations(rest);
      if CreatesContract(txs[0]) {
        var a := txs[0].recipient;
        assert !Creates(rest, a);
        var c := k.contract(txs[0].recipientType, k.balance(Get(k, tree, a)), txs[0]).value;
        CreateElsewhere(k, tree, a, c, rest);
        var done := CreateContracts(k, tree, rest).value;
        UndoContracts(k, tree, rest);
        PutNormal(k, done, a, c);
        GetPut(k, done, a, c, a);
        PutBack(k, done, a, c);
      } else {
        UndoContracts(k, tree, rest);
      }
    }
  }

  // ---------- pruning ----------

  lemma {:induction false} PrunedElsewhere<A>(k: Kind<A>, tree: Tree<A>, a: nat, txs: seq<Tx>)
    requires !k.prunable(Get(k, tree, a))
    ensures forall r :: r in PruneAccounts(k, tree, txs).1 ==> r.PrunedAccount? && r.address != a
    decreases |txs|
  {
    if txs != [] {
      var b := txs[0].sender;
      if k.prunable(Get(k, tree, b)) {
        GetPut(k, tree, b, k.initial, a);
        PrunedElsewhere(k, Put(k, tree, b, k.initial), a, txs[1..]);
      } else {
        PrunedElsewhere(k, tree, a, txs[1..]);
      }
    }
  }

  lemma {:induction false} PrunedOnly<A>(k: Kind<A>, tree: Tree<A>, txs: seq<Tx>)
    ensures forall r :: r in PruneAccounts(k, tree, txs).1 ==> r.PrunedAccount?
    decreases |txs|
  {
    if txs != [] {
      var b := txs[0].sender;
      PrunedOnly(k, if k.prunable(Get(k, tree, b)) then Put(k, tree, b, k.initial) else tree, txs[1..]);
    }
  }

  lemma {:induction false} RestoreElsewhere<A>(k: Kind<A>, tree: Tree<A>, a: nat, x: A, pruned: seq<Receipt<A>>)
    requires forall r :: r in pruned ==> r.PrunedAccount? && r.address != a
    ensures RestoreAccounts(k, Put(k, tree, a, x), pruned) == Put(k, RestoreAccounts(k, tree, pruned), a, x)
    decreases |pruned|
  {
    if pruned != [] {
      PutSwap(k, tree, a, x, pruned[0].address, pruned[0].account);
      RestoreElsewhere(k, Put(k, tree, pruned[0].address, pruned[0].account), a, x, pruned[1..]);
    }
  }

  /** Pruned accounts come back exactly, as an account is pruned at most once. */
  lemma {:induction false} UndoPrune<A(!new)>(k: Kind<A>, tree: Tree<A>, txs: seq<Tx>)
    requires KindOk(k) && Normal(k, tree)
    ensures var (t, pruned) := PruneAccounts(k, tree, txs);
            Normal(k, t) && (forall r :: r in pruned ==> r.PrunedAccount?) && RestoreAccounts(k, t, pruned) == tree
    decreases |txs|
  {
    PrunedOnly(k, tree, txs);
    if txs != [] {
      var a := txs[0].sender;
      var account := Get(k, tree, a);
      if k.prunable(account) {
        var emptied := Put(k, tree, a, k.initial);
        PutNormal(k, tree, a, k.initial);
        GetPut(k, tree, a, k.initial, a);
        UndoPrune(k, emptied, txs[1..]);
        PrunedElsewhere(k, emptied, a, txs[1..]);
        var (t, rest) := PruneAccounts(k, emptied, txs[1..]);
        RestoreElsewhere(k, t, a, account, rest);
        PutBack(k, tree, a, k.initial);
        assert ([PrunedAccount(a, account)] + rest)[1..] == rest;
      } else {
        UndoPrune(k, tree, txs[1..]);
      }
    }
  }

  // ---------- receipts ----------

  /** The receipts of a phase by position. */
  function Collected(results: seq<Option<Data>>): map<nat, Data> {
    if results == [] then map[]
    else
      var m, last := Collected(results[..|results| - 1]), |results| - 1;
      if results[last].Some? then m[last := results[last].value] else m
  }

  lemma {:induction false} CollectedIs(results: seq<Option<Data>>)
    ensures forall i :: i in Collected(results) ==> 0 <= i < |results| && results[i] == Some(Collected(results)[i])
    ensures forall i :: 0 <= i < |results| && results[i].Some? ==> i in Collected(results)
  {
    if results != [] {
      CollectedIs(results[..|results| - 1]);
    }
  }

  /** Positions fit into the two bytes of a receipt index, or there is nothing to number. */
  ghost predicate Numberable(results: seq<Option<Data>>) {
    |results| <= U16 || forall i :: 0 <= i < |results| ==> results[i].None?
  }

  /** Every item gets its own receipt back. */
  lemma {:induction false} LookupCollected(results: seq<Option<Data>>)
    requires Numberable(results)
    ensures Lookup(Collected(results), |results|) == results
  {
    CollectedIs(results);
  }

  function Extend<A>(tag: Tag, p: Prepared<A>, m: map<nat, Data>): Prepared<A> {
    match tag
    case SenderTag => p.(sender := p.sender + m)
    case RecipientTag => p.(recipient := p.recipient + m)
    case PreTag => p.(pre := p.pre + m)
    case PostTag => p.(post := p.post + m)
  }

  function Noted<A>(tag: Tag, p: Prepared<A>, i: nat, d: Data): Prepared<A> {
    match tag
    case SenderTag => p.(sender := p.sender[i := d])
    case RecipientTag => p.(recipient := p.recipient[i := d])
    case PreTag => p.(pre := p.pre[i := d])
    case PostTag => p.(post := p.post[i := d])
  }

  lemma {:induction false} PrepareNext<A>(before: seq<Receipt<A>>, tag: Tag, i: nat, d: Data)
    requires i < U16
    ensures PrepareReceipts(before + [MakeReceipt(tag, i, d)]) == Noted(tag, PrepareReceipts(before), i, d)
  {
    var all := before + [MakeReceipt(tag, i, d)];
    assert all[..|all| - 1] == before;
  }

  lemma {:induction false} NotedExtended<A>(tag: Tag, p: Prepared<A>, m: map<nat, Data>, i: nat, d: Data)
    ensures Noted(tag, Extend(tag, p, m), i, d) == Extend(tag, p, m[i := d])
  {
    var field := match tag
      case SenderTag => p.sender
      case RecipientTag => p.recipient
      case PreTag => p.pre
      case PostTag => p.post;
    UpdateUnion(field, m, i, d);
  }

  lemma {:induction false} ReceiptsNext<A>(before: seq<Receipt<A>>, tag: Tag, results: seq<Option<Data>>, last: nat)
    requires |results| == last + 1
    ensures before + Receipts(tag, results) ==
            before + Receipts(tag, results[..last]) +
            if results[last].Some? then [MakeReceipt(tag, last, results[last].value)] else []
  {
  }

  lemma {:induction false} PreparePhase<A>(before: seq<Receipt<A>>, tag: Tag, results: seq<Option<Data>>)
    requires Numberable(results)
    ensures PrepareReceipts(before + Receipts(tag, results)) == Extend(tag, PrepareReceipts(before), Collected(results))
    decreases |results|
  {
    var p := PrepareReceipts(before);
    if results == [] {
      assert before + Receipts(tag, results) == before;
      UnionEmpty(p, tag);
    } else {
      var last := |results| - 1;
      PreparePhase(before, tag, results[..last]);
      var upTo := before + Receipts(tag, results[..last]);
      ReceiptsNext(before, tag, results, last);
      if results[last].Some? {
        PrepareNext(upTo, tag, last, results[last].value);
        NotedExtended(tag, p, Collected(results[..last]), last, results[last].value);
      } else {
        assert upTo + [] == upTo;
      }
    }
  }

  lemma {:induction false} UnionEmpty<A>(p: Prepared<A>, tag: Tag)
    ensures Extend(tag, p, map[]) == p
  {
    var field := match tag
      case SenderTag => p.sender
      case RecipientTag => p.recipient
      case PreTag => p.pre
      case PostTag => p.post;
    assert field + map[] == field;
  }

  lemma {:induction false} UpdateUnion(p: map<nat, Data>, m: map<nat, Data>, i: nat, d: Data)
    ensures (p + m)[i := d] == p + m[i := d]
  {
  }

  lemma {:induction false} PrepareOnePruned<A>(before: seq<Receipt<A>>, r: Receipt<A>)
    requires r.PrunedAccount?
    ensures PrepareReceipts(before + [r]) ==
            PrepareReceipts(before).(pruned := PrepareReceipts(before).pruned + [r])
  {
    assert (before + [r])[..|before|] == before && (before + [r])[|before|] == r;
  }

  lemma {:induction false} PreparePruned<A>(before: seq<Receipt<A>>, pruned: seq<Receipt<A>>)
    requires forall r :: r in pruned ==> r.PrunedAccount?
    ensures PrepareReceipts(before + pruned) ==
            PrepareReceipts(before).(pruned := PrepareReceipts(before).pruned + pruned)
    decreases |pruned|
  {
    var p := PrepareReceipts(before);
    if pruned == [] {
      assert before + pruned == before;
      assert p.pruned + pruned == p.pruned;
    } else {
      var first, r := pruned[..|pruned| - 1], pruned[|pruned| - 1];
      PreparePruned(before, first);
      PrepareOnePruned(before + first, r);
      assert before + pruned == before + first + [r] && p.pruned + pruned == p.pruned + first + [r];
    }
  }

  /** The receipts of a commit are sorted back into exactly what each phase produced. */
  lemma {:induction false} PrepareBlock<A>(r1: seq<Option<Data>>, r2: seq<Option<Data>>, r3: seq<Option<Data>>,
                                           pruned: seq<Receipt<A>>, r6: seq<Option<Data>>)
    requires Numberable(r1) && Numberable(r2) && Numberable(r3) && Numberable(r6)
    requires forall r :: r in pruned ==> r.PrunedAccount?
    ensures PrepareReceipts(Receipts(PreTag, r1) + Receipts(SenderTag, r2) + Receipts(RecipientTag, r3) + pruned +
                            Receipts(PostTag, r6)) ==
            Prepared(Collected(r2), Collected(r3), Collected(r1), Collected(r6), pruned)
  {
    var q0: seq<Receipt<A>> := [];
    var q1: seq<Receipt<A>> := Receipts(PreTag, r1);
    var q2 := q1 + Receipts(SenderTag, r2);
    var q3 := q2 + Receipts(RecipientTag, r3);
    assert q0 + q1 == q1;
    PreparePhase(q0, PreTag, r1);
    PreparePhase(q1, SenderTag, r2);
    PreparePhase(q2, RecipientTag, r3);
    PreparePruned(q3, pruned);
    PreparePhase(q3 + pruned, PostTag, r6);
    EmptyUnion(Collected(r1));
    EmptyUnion(Collected(r2));
    EmptyUnion(Collected(r3));
    EmptyUnion(Collected(r6));
    assert [] + pruned == pruned;
  }

  lemma {:induction false} EmptyUnion(m: map<nat, Data>)
    ensures map[] + m == m
  {
  }

  // ---------- the whole block ----------

  ghost predicate OpsOk<A(!new)>(k: Kind<A>, ops: Ops<A>) {
    && Inverts(k, ops.commitOutgoing, ops.revertOutgoing) && RevertsPast(ops.commitOutgoing, ops.revertOutgoing)
    && Inverts(k, ops.commitIncoming, ops.revertIncoming) && RevertsPast(ops.commitIncoming, ops.revertIncoming)
    && Inverts(k, ops.commitInherent, ops.revertInherent) && RevertsPast(ops.commitInherent, ops.revertInherent)
  }

  /** The trees and receipts that a commit passes through. */
  datatype Trail<!A> = Trail(
    afterPre: Tree<A>, pre: seq<Option<Data>>,
    afterSenders: Tree<A>, senders: seq<Option<Data>>,
    afterRecipients: Tree<A>, recipients: seq<Option<Data>>,
    created: Tree<A>,
    afterPruning: Tree<A>, pruned: seq<Receipt<A>>,
    afterPost: Tree<A>, post: seq<Option<Data>>)

  ghost predicate Follows<A>(k: Kind<A>, ops: Ops<A>, tree: Tree<A>, txs: seq<Tx>, inherents: seq<Inherent>,
                             w: Trail<A>) {
    var pre, post := Select(inherents, true), Select(inherents, false);
    && ApplyAll(k, Inherents(ops.commitInherent), tree, pre, NoReceipts(|pre|)) == Success((w.afterPre, w.pre))
    && ApplyAll(k, Outgoing(ops.commitOutgoing), w.afterPre, txs, NoReceipts(|txs|)) ==
       Success((w.afterSenders, w.senders))
    && ApplyAll(k, Incoming(ops.commitIncoming), w.afterSenders, txs, NoReceipts(|txs|)) ==
       Success((w.afterRecipients, w.recipients))
    && CreateContracts(k, w.afterRecipients, txs) == Success(w.created)
    && PruneAccounts(k, w.created, txs) == (w.afterPruning, w.pruned)
    && ApplyAll(k, Inherents(ops.commitInherent), w.afterPruning, post, NoReceipts(|post|)) ==
       Success((w.afterPost, w.post))
  }

  ghost function AllReceipts<A>(w: Trail<A>): seq<Receipt<A>> {
    Receipts(PreTag, w.pre) + Receipts(SenderTag, w.senders) + Receipts(RecipientTag, w.recipients) + w.pruned +
    Receipts(PostTag, w.post)
  }

  /** Every committed block leaves such a trail. */
  lemma {:induction false} TrailOf<A>(k: Kind<A>, ops: Ops<A>, tree: Tree<A>, txs: seq<Tx>, inherents: seq<Inherent>)
    returns (w: Trail<A>)
    requires Commit(k, ops, tree, txs, inherents).Success?
    ensures Follows(k, ops, tree, txs, inherents, w)
    ensures Commit(k, ops, tree, txs, inherents) == Success((w.afterPost, AllReceipts(w)))
  {
    var pre, post := Select(inherents, true), Select(inherents, false);
    var r1 := ApplyAll(k, Inherents(ops.commitInherent), tree, pre, NoReceipts(|pre|)).value;
    var r2 := ApplyAll(k, Outgoing(ops.commitOutgoing), r1.0, txs, NoReceipts(|txs|)).value;
    var r3 := ApplyAll(k, Incoming(ops.commitIncoming), r2.0, txs, NoReceipts(|txs|)).value;
    var t4 := CreateContracts(k, r3.0, txs).value;
    var r5 := PruneAccounts(k, t4, txs);
    var r6 := ApplyAll(k, Inherents(ops.commitInherent), r5.0, post, NoReceipts(|post|)).value;
    w := Trail(r1.0, r1.1, r2.0, r2.1, r3.0, r3.1, t4, r5.0, r5.1, r6.0, r6.1);
  }

  lemma {:induction false} TrailIsCommit<A>(k: Kind<A>, ops: Ops<A>, tree: Tree<A>, txs: seq<Tx>,
                                            inherents: seq<Inherent>, w: Trail<A>)
    requires Follows(k, ops, tree, txs, inherents, w)
    ensures Commit(k, ops, tree, txs, inherents) == Success((w.afterPost, AllReceipts(w)))
  {
  }

  ghost predicate Traceable<A>(w: Trail<A>) {
    && Numberable(w.pre) && Numberable(w.senders) && Numberable(w.recipients) && Numberable(w.post)
    && forall r :: r in w.pruned ==> r.PrunedAccount?
  }

  /** What reverting does with the receipts of a trail. */
  ghost function Retraced<A>(k: Kind<A>, ops: Ops<A>, txs: seq<Tx>, inherents: seq<Inherent>, w: Trail<A>)
    : Result<Tree<A>, AccountError>
    requires |w.pre| == |Select(inherents, true)| && |w.post| == |Select(inherents, false)|
    requires |w.senders| == |w.recipients| == |txs| && forall r :: r in w.pruned ==> r.PrunedAccount?
  {
    var r6 :- ApplyAll(k, Inherents(ops.revertInherent), w.afterPost, Select(inherents, false), w.post);
    var t4 :- RevertContracts(k, RestoreAccounts(k, r6.0, w.pruned), txs);
    var r3 :- ApplyAll(k, Incoming(ops.revertIncoming), t4, txs, w.recipients);
    var r2 :- ApplyAll(k, Outgoing(ops.revertOutgoing), r3.0, txs, w.senders);
    var r1 :- ApplyAll(k, Inherents(ops.revertInherent), r2.0, Select(inherents, true), w.pre);
    Success(r1.0)
  }

  /** Reverting hands every item its own receipt. */
  lemma {:induction false} RevertRetraces<A>(k: Kind<A>, ops: Ops<A>, tree: Tree<A>, txs: seq<Tx>,
                                             inherents: seq<Inherent>, w: Trail<A>)
    requires Follows(k, ops, tree, txs, inherents, w) && Traceable(w)
    ensures Revert(k, ops, w.afterPost, txs, inherents, AllReceipts(w)) == Retraced(k, ops, txs, inherents, w)
  {
    PrepareBlock(w.pre, w.senders, w.recipients, w.pruned, w.post);
    LookupCollected(w.pre);
    LookupCollected(w.senders);
    LookupCollected(w.recipients);
    LookupCollected(w.post);
  }

  lemma {:induction false} ShortIsTraceable<A>(k: Kind<A>, ops: Ops<A>, tree: Tree<A>, txs: seq<Tx>,
                                               inherents: seq<Inherent>, w: Trail<A>)
    requires Follows(k, ops, tree, txs, inherents, w) && |txs| <= U16 && |inherents| <= U16
    ensures Traceable(w)
  {
    SelectSize(inherents, true);
    SelectSize(inherents, false);
    PrunedOnly(k, w.created, txs);
  }

  /** Contracts and pruned accounts are taken back exactly, up to the transactions. */
  lemma {:induction false} RetracesToRecipients<A(!new)>(k: Kind<A>, ops: Ops<A>, tree: Tree<A>, txs: seq<Tx>,
                                                         inherents: seq<Inherent>, w: Trail<A>)
    requires Follows(k, ops, tree, txs, inherents, w) && KindOk(k) && Normal(k, tree)
    requires DistinctCreations(txs) && BasicCreations(k, w.afterRecipients, txs)
    ensures Normal(k, w.afterPre) && Normal(k, w.afterSenders) && Normal(k, w.afterRecipients)
    ensures Normal(k, w.afterPruning) && forall r :: r in w.pruned ==> r.PrunedAccount?
    ensures RevertContracts(k, RestoreAccounts(k, w.afterPruning, w.pruned), txs) == Success(w.afterRecipients)
  {
    var pre := Select(inherents, true);
    RunNormal(k, Inherents(ops.commitInherent), tree, pre, NoReceipts(|pre|));
    RunNormal(k, Outgoing(ops.commitOutgoing), w.afterPre, txs, NoReceipts(|txs|));
    RunNormal(k, Incoming(ops.commitIncoming), w.afterSenders, txs, NoReceipts(|txs|));
    UndoContracts(k, w.afterRecipients, txs);
    UndoPrune(k, w.created, txs);
  }

  lemma {:induction false} SelectSize(inherents: seq<Inherent>, pre: bool)
    ensures |Select(inherents, pre)| <= |inherents|
  {
    if inherents != [] {
      SelectSize(inherents[1..], pre);
    }
  }

  /** No operation ever produces a receipt. */
  ghost predicate Silent<A(!new), T(!new)>(op: Op<A, T>) {
    forall a, x, r :: op(a, x, r).Success? ==> op(a, x, r).value.1 == None
  }

  ghost predicate NeverReceipts<A(!new)>(ops: Ops<A>) {
    Silent(ops.commitOutgoing) && Silent(ops.commitIncoming) && Silent(ops.commitInherent)
  }

  lemma {:induction false} SilentResults<A(!new), T(!new)>(k: Kind<A>, ph: Phase<A, T>, tree: Tree<A>, xs: seq<T>,
                                                           receipts: seq<Option<Data>>)
    requires |receipts| == |xs| && ApplyAll(k, ph, tree, xs, receipts).Success?
    requires |xs| <= U16 || Silent(ph.op)
    ensures Numberable(ApplyAll(k, ph, tree, xs, receipts).value.1)
    decreases |xs|
  {
    if |xs| > U16 {
      SilentTail(k, ph, tree, xs, receipts);
      var results := ApplyAll(k, ph, tree, xs, receipts).value.1;
      assert forall i :: 0 <= i < |results| ==> results[i] in results;
    }
  }

  lemma {:induction false} SilentTail<A(!new), T(!new)>(k: Kind<A>, ph: Phase<A, T>, tree: Tree<A>, xs: seq<T>,
                                                        receipts: seq<Option<Data>>)
    requires |receipts| == |xs| && ApplyAll(k, ph, tree, xs, receipts).Success? && Silent(ph.op)
    ensures forall r :: r in ApplyAll(k, ph, tree, xs, receipts).value.1 ==> r == None
    decreases |xs|
  {
    if xs != [] {
      SilentTail(k, ph, Apply(k, ph, tree, xs[0], receipts[0]).value.0, xs[1..], receipts[1..]);
    }
  }

  /**
   * Reverting a committed block with its own receipts restores the tree, although every phase is
   * reverted front to back, when contracts are created at distinct addresses that were basic.
   */
  lemma {:induction false} RevertUndoesCommit<A(!new)>(k: Kind<A>, ops: Ops<A>, tree: Tree<A>, txs: seq<Tx>,
                                                       inherents: seq<Inherent>, w: Trail<A>)
    requires KindOk(k) && OpsOk(k, ops) && Normal(k, tree) && Follows(k, ops, tree, txs, inherents, w)
    requires (|txs| <= U16 && |inherents| <= U16) || NeverReceipts(ops)
    requires DistinctCreations(txs) && BasicCreations(k, w.afterRecipients, txs)
    ensures Commit(k, ops, tree, txs, inherents) == Success((w.afterPost, AllReceipts(w)))
    ensures Revert(k, ops, w.afterPost, txs, inherents, AllReceipts(w)) == Success(tree)
  {
    TrailIsCommit(k, ops, tree, txs, inherents, w);
    var pre, post := Select(inherents, true), Select(inherents, false);
    RetracesToRecipients(k, ops, tree, txs, inherents, w);
    UndoPhase(k, Inherents(ops.commitInherent), Inherents(ops.revertInherent), tree, pre);
    UndoPhase(k, Outgoing(ops.commitOutgoing), Outgoing(ops.revertOutgoing), w.afterPre, txs);
    UndoPhase(k, Incoming(ops.commitIncoming), Incoming(ops.revertIncoming), w.afterSenders, txs);
    UndoPhase(k, Inherents(ops.commitInherent), Inherents(ops.revertInherent), w.afterPruning, post);
    if NeverReceipts(ops) {
      SilentIsTraceable(k, ops, tree, txs, inherents, w);
    } else {
      ShortIsTraceable(k, ops, tree, txs, inherents, w);
    }
    RevertRetraces(k, ops, tree, txs, inherents, w);
  }

  lemma {:induction false} SilentIsTraceable<A(!new)>(k: Kind<A>, ops: Ops<A>, tree: Tree<A>, txs: seq<Tx>,
                                                      inherents: seq<Inherent>, w: Trail<A>)
    requires Follows(k, ops, tree, txs, inherents, w) && NeverReceipts(ops)
    ensures Traceable(w)
  {
    var pre, post := Select(inherents, true), Select(inherents, false);
    SilentResults(k, Inherents(ops.commitInherent), tree, pre, NoReceipts(|pre|));
    SilentResults(k, Outgoing(ops.commitOutgoing), w.afterPre, txs, NoReceipts(|txs|));
    SilentResults(k, Incoming(ops.commitIncoming), w.afterSenders, txs, NoReceipts(|txs|));
    SilentResults(k, Inherents(ops.commitInherent), w.afterPruning, post, NoReceipts(|post|));
    PrunedOnly(k, w.created, txs);
  }

  // ---------- creations ----------

  /** Only contracts can be created. */
  lemma {:induction false} CreationTypes<A(!new)>(k: Kind<A>, basic: nat, tree: Tree<A>, txs: seq<Tx>)
    requires CreateContracts(k, tree, txs).Success? && forall b, t :: k.contract(basic, b, t).Failure?
    ensures forall t :: t in txs && CreatesContract(t) ==> t.recipientType != basic
    decreases |txs|
  {
    if txs != [] {
      assert txs == [txs[0]] + txs[1..];
      if CreatesContract(txs[0]) {
        var c := k.contract(txs[0].recipientType, k.balance(Get(k, tree, txs[0].recipient)), txs[0]).value;
        CreationTypes(k, basic, Put(k, tree, txs[0].recipient, c), txs[1..]);
      } else {
        CreationTypes(k, basic, tree, txs[1..]);
      }
    }
  }

  /** A contract that has been taken back cannot be taken back again. */
  lemma {:induction false} RevertedOnce<A(!new)>(k: Kind<A>, basic: nat, tree: Tree<A>, txs: seq<Tx>)
    requires forall b :: k.typeOf(k.basic(b)) == basic
    requires forall t :: t in txs && CreatesContract(t) ==> t.recipientType != basic
    requires RevertContracts(k, tree, txs).Success?
    ensures DistinctCreations(txs)
    ensures forall t :: t in txs && CreatesContract(t) ==> k.typeOf(Get(k, tree, t.recipient)) != basic
    decreases |txs|
  {
    if txs != [] {
      assert txs == [txs[0]] + txs[1..];
      if CreatesContract(txs[0]) {
        var a := txs[0].recipient;
        RevertedOnce(k, basic, Put(k, tree, a, k.basic(k.balance(Get(k, tree, a)))), txs[1..]);
      } else {
        RevertedOnce(k, basic, tree, txs[1..]);
      }
    }
  }
}
