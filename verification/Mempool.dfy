/** The mempool: admission, eviction and restoring after a rebranch (mempool/src/lib.rs). */
module Mempool {
  import opened Transactions
  import opened OrderedSets
  import opened MempoolGreedy
  import opened MempoolPush
  import opened MempoolIndexes

  /** Maximum number of transactions in the mempool. */
  const SIZE_MAX: nat := 100_000

  /**
   * What the mempool reads from the blockchain at its head: accounts, how outgoing transactions
   * change them, and the checks a transaction has to pass at the next block height.
   */
  datatype Chain<!A> = Chain(
    account: nat -> A,
    commit: Commit<A>,
    validAt: Tx -> bool,
    mined: TxHash -> bool,
    incoming: Tx -> bool,
    creation: Tx -> bool)
  {
    predicate Accepts(t: Tx) {
      validAt(t) && !mined(TxHash(t)) && incoming(t) && creation(t)
    }
  }

  /** Checks that only a pushed transaction has to pass. */
  datatype Rules<!A> = Rules(
    accepts: Tx -> bool,
    verifies: Tx -> bool,
    recipientType: Tx -> bool,
    recipientBalance: Tx -> bool,
    senderType: Tx -> bool,
    senderBalance: (A, A) -> bool)

  /** The verdict on a pushed transaction, in the order of the program's checks. */
  function PushVerdict<A>(less: Order, chain: Chain<A>, rules: Rules<A>, p: Pool, tx: Tx): Verdict {
    if !rules.accepts(tx) then Refuse(Filtered)
    else if TxHash(tx) in p.byHash then Refuse(Known)
    else if !rules.verifies(tx) then Refuse(Invalid)
    else if IsFree(tx) && FreeTail(Bucket(p.bySender, tx.sender)) >= FREE_TRANSACTIONS_PER_SENDER_MAX then
      Refuse(FeeTooLow)
    else if !chain.validAt(tx) || chain.mined(TxHash(tx)) || !rules.recipientType(tx) || !chain.incoming(tx) then
      Refuse(Invalid)
    else if !rules.recipientBalance(tx) then Refuse(Filtered)
    else if !chain.creation(tx) || !rules.senderType(tx) then Refuse(Invalid)
    else SenderVerdict(less, chain.commit, rules.senderBalance, chain.account(tx.sender), Bucket(p.bySender, tx.sender),
                       tx)
  }

  /** Drops the lowest transactions beyond the size limit. */
  function Trim(p: Pool): Pool
  {
    if |p.sorted| > SIZE_MAX then DropAll(p, p.sorted[SIZE_MAX..]) else p
  }

  /** Drops the lowest transaction if there are too many. */
  function DropLowest(p: Pool): Pool {
    if |p.sorted| > SIZE_MAX then Drop(p, p.sorted[|p.sorted| - 1]) else p
  }

  function AfterPush(less: Order, p: Pool, tx: Tx, v: Verdict): Pool {
    if v.Refuse? then p else DropLowest(DropAll(Add(less, p, tx), v.evicted))
  }

  /** The transactions of one sender that stay after the chain has changed. */
  function Survivors<A>(chain: Chain<A>, account: A, q: seq<Tx>): (r: seq<Tx>)
    ensures forall t :: t in r ==> t in q && chain.Accepts(t)
    decreases |q|
  {
    if q == [] then []
    else if !chain.Accepts(q[0]) then Survivors(chain, account, q[1..])
    else match chain.commit(account, q[0])
      case None => Survivors(chain, account, q[1..])
      case Some(next) => [q[0]] + Survivors(chain, next, q[1..])
  }

  ghost predicate Survives<A>(chain: Chain<A>, p: Pool, t: Tx) {
    t in Survivors(chain, chain.account(t.sender), Bucket(p.bySender, t.sender))
  }

  /** The transactions of reverted blocks that are still acceptable, by sender. */
  function Group<A>(less: Order, chain: Chain<A>, txs: seq<Tx>): Buckets {
    if txs == [] then map[]
    else
      var g, t := Group(less, chain, txs[..|txs| - 1]), txs[|txs| - 1];
      if chain.Accepts(t) then AddToBucket(less, g, t.sender, t) else g
  }

  /** What a sender holds after its transactions have been merged with the reverted ones. */
  function MergedBucket<A>(less: Order, chain: Chain<A>, p: Pool, g: Buckets, a: nat): seq<Tx> {
    if a in g then Greedy(chain.commit, chain.account(a), 0, Merge(less, Bucket(p.bySender, a), g[a])).kept
    else Bucket(p.bySender, a)
  }

  /** The pool after merging, before it is cut to size. */
  ghost predicate MergedPool<A>(less: Order, chain: Chain<A>, p: Pool, reverted: seq<Tx>, merged: Pool) {
    && IndexInv(less, merged)
    && forall a :: Bucket(merged.bySender, a) == MergedBucket(less, chain, p, Group(less, chain, reverted), a)
  }

  /** The mempool as the program holds it: four collections updated in place. */
  class MempoolState {
    const less: Order
    var byHash: map<TxHash, Tx>
    var bySender: Buckets
    var byRecipient: Buckets
    var sorted: seq<Tx>

    function Value(): Pool
      reads this
    {
      Pool(byHash, bySender, byRecipient, sorted)
    }

    constructor (less: Order)
      ensures this.less == less && Value() == Pool(map[], map[], map[], [])
    {
      this.less := less;
      byHash, bySender, byRecipient, sorted := map[], map[], map[], [];
    }

    method AddTransaction(tx: Tx)
      modifies this
      ensures Value() == Add(less, old(Value()), tx)
    {
      byHash := byHash[TxHash(tx) := tx];
      sorted := Insert(less, sorted, tx);
      var byRecipient' := if tx.recipient in byRecipient then byRecipient[tx.recipient] else [];
      byRecipient := byRecipient[tx.recipient := Insert(less, byRecipient', tx)];
      var bySender' := if tx.sender in bySender then bySender[tx.sender] else [];
      bySender := bySender[tx.sender := Insert(less, bySender', tx)];
    }

    method RemoveTransaction(tx: Tx)
      modifies this
      ensures Value() == Drop(old(Value()), tx)
    {
      byHash := byHash - {TxHash(tx)};
      sorted := Remove(sorted, tx);
      bySender := RemoveFrom(bySender, tx.sender, tx);
      byRecipient := RemoveFrom(byRecipient, tx.recipient, tx);
    }

    /** Takes a transaction out of a bucket, and an emptied bucket out of the map. */
    static method RemoveFrom(buckets: Buckets, key: nat, tx: Tx) returns (r: Buckets)
      ensures r == RemoveFromBucket(buckets, key, tx)
    {
      r := buckets;
      var removeKey := false;
      if key in r {
        r := r[key := Remove(r[key], tx)];
        removeKey := r[key] == [];
      }
      if removeKey {
        assert r - {key} == buckets - {key};
        r := r - {key};
      }
    }

    method RemoveTransactions(txs: seq<Tx>)
      modifies this
      ensures Value() == DropAll(old(Value()), txs)
    {
      for i := 0 to |txs|
        invariant Value() == DropAll(old(Value()), txs[..i])
      {
        RemoveTransaction(txs[i]);
        assert txs[..i + 1][..i] == txs[..i];
      }
      assert txs[..|txs|] == txs;
    }

    method AddTransactions(txs: seq<Tx>)
      modifies this
      ensures Value() == AddAll(less, old(Value()), txs)
    {
      for i := 0 to |txs|
        invariant Value() == AddAll(less, old(Value()), txs[..i])
      {
        AddTransaction(txs[i]);
        assert txs[..i + 1][..i] == txs[..i];
      }
      assert txs[..|txs|] == txs;
    }

    /** Checks a transaction against rules, chain and the sender's other transactions. */
    method CheckTransaction<A>(chain: Chain<A>, rules: Rules<A>, tx: Tx) returns (v: Verdict)
      ensures v == PushVerdict(less, chain, rules, Value(), tx)
    {
      if !rules.accepts(tx) {
        return Refuse(Filtered);
      }
      if TxHash(tx) in byHash {
        return Refuse(Known);
      }
      if !rules.verifies(tx) {
        return Refuse(Invalid);
      }
      var held := if tx.sender in bySender then bySender[tx.sender] else [];
      if tx.feePerByte < TRANSACTION_RELAY_FEE_MIN {
        var reached := FreeLimitReached(held);
        if reached {
          return Refuse(FeeTooLow);
        }
      }
      if !chain.validAt(tx) {
        return Refuse(Invalid);
      }
      if chain.mined(TxHash(tx)) {
        return Refuse(Invalid);
      }
      if !rules.recipientType(tx) {
        return Refuse(Invalid);
      }
      if !chain.incoming(tx) {
        return Refuse(Invalid);
      }
      if !rules.recipientBalance(tx) {
        return Refuse(Filtered);
      }
      if !chain.creation(tx) {
        return Refuse(Invalid);
      }
      if !rules.senderType(tx) {
        return Refuse(Invalid);
      }
      v := CheckSender(less, chain.commit, rules.senderBalance, chain.account(tx.sender), held, tx);
    }

    method PushTransaction<A>(chain: Chain<A>, rules: Rules<A>, tx: Tx) returns (code: ReturnCode)
      modifies this
      ensures var v := PushVerdict(less, chain, rules, old(Value()), tx);
              && code == (if v.Refuse? then v.code else Accepted)
              && Value() == AfterPush(less, old(Value()), tx, v)
    {
      var v := CheckTransaction(chain, rules, tx);
      if v.Refuse? {
        return v.code;
      }
      AddTransaction(tx);
      RemoveTransactions(v.evicted);
      if |sorted| > SIZE_MAX {
        RemoveTransaction(sorted[|sorted| - 1]);
      }
      return Accepted;
    }

    /** Splits the transactions of one sender: those mined or no longer valid, in order. */
    method Scan<A>(chain: Chain<A>, senderAccount: A, q: seq<Tx>) returns (minedTxs: seq<Tx>, evictedTxs: seq<Tx>)
      requires IsMempoolOrder(less) && Descending(less, q)
      ensures forall t :: t in minedTxs || t in evictedTxs <==> t in q && t !in Survivors(chain, senderAccount, q)
      ensures forall t :: t in minedTxs <==> t in q && chain.validAt(t) && chain.mined(TxHash(t))
    {
      minedTxs, evictedTxs := [], [];
      var account := senderAccount;
      ghost var kept: seq<Tx> := [];
      assert q[0..] == q;
      for i := 0 to |q|
        invariant kept + Survivors(chain, account, q[i..]) == Survivors(chain, senderAccount, q)
        invariant forall t :: t in q[..i] <==> t in kept || t in minedTxs || t in evictedTxs
        invariant forall t :: t in kept ==> t !in minedTxs && t !in evictedTxs
        invariant forall t :: t in minedTxs <==> t in q[..i] && chain.validAt(t) && chain.mined(TxHash(t))
      {
        assert q[i..][1..] == q[i + 1..];
        assert forall t :: t in q[..i + 1] <==> t in q[..i] || t == q[i];
        assert q[i] !in q[..i] by {
          assert forall j :: 0 <= j < i ==> q[j] != q[i];
        }
        if !chain.validAt(q[i]) {
          evictedTxs := evictedTxs + [q[i]];
        } else if chain.mined(TxHash(q[i])) {
          minedTxs := minedTxs + [q[i]];
        } else if !chain.incoming(q[i]) {
          evictedTxs := evictedTxs + [q[i]];
        } else if !chain.creation(q[i]) {
          evictedTxs := evictedTxs + [q[i]];
        } else {
          match chain.commit(account, q[i]) {
            case None => evictedTxs := evictedTxs + [q[i]];
            case Some(next) =>
              account := next;
              kept := kept + [q[i]];
          }
        }
      }
      assert q[..|q|] == q;
    }

    /** Evicts everything that is mined or no longer valid at the head of the chain. */
    method EvictTransactions<A>(chain: Chain<A>) returns (minedTxs: seq<Tx>, evictedTxs: seq<Tx>)
      requires IsMempoolOrder(less) && IndexInv(less, Value())
      modifies this
      ensures IndexInv(less, Value())
      ensures forall t :: t in sorted <==> t in old(sorted) && Survives(chain, old(Value()), t)
      ensures forall t :: t in minedTxs <==> t in old(sorted) && chain.validAt(t) && chain.mined(TxHash(t))
      ensures forall t :: t in minedTxs || t in evictedTxs <==> t in old(sorted) && t !in sorted
    {
      minedTxs, evictedTxs := [], [];
      var rest := bySender.Keys;
      while rest != {}
        invariant rest <= bySender.Keys && Value() == old(Value())
        invariant forall t :: t in minedTxs || t in evictedTxs <==>
                  t in sorted && t.sender !in rest && !Survives(chain, Value(), t)
        invariant forall t :: t in minedTxs <==>
                  t in sorted && t.sender !in rest && chain.validAt(t) && chain.mined(TxHash(t))
        decreases rest
      {
        var address :| address in rest;
        InBucket(less, Value(), address);
        var m, e := Scan(chain, chain.account(address), bySender[address]);
        minedTxs, evictedTxs := minedTxs + m, evictedTxs + e;
        rest := rest - {address};
      }
      DropAllKeepsIndexes(less, Value(), minedTxs);
      RemoveTransactions(minedTxs);
      DropAllKeepsIndexes(less, Value(), evictedTxs);
      RemoveTransactions(evictedTxs);
    }

    /** Collects the acceptable transactions of reverted blocks by sender. */
    method GroupReverted<A>(chain: Chain<A>, reverted: seq<Tx>) returns (g: Buckets)
      ensures g == Group(less, chain, reverted)
    {
      g := map[];
      for i := 0 to |reverted|
        invariant g == Group(less, chain, reverted[..i])
      {
        var tx := reverted[i];
        assert reverted[..i + 1][..i] == reverted[..i];
        if chain.validAt(tx) && !chain.mined(TxHash(tx)) && chain.incoming(tx) && chain.creation(tx) {
          var txs := if tx.sender in g then g[tx.sender] else [];
          g := g[tx.sender := Insert(less, txs, tx)];
        }
      }
      assert reverted[..|reverted|] == reverted;
    }

    /** Puts transactions of reverted blocks back, next to those already pooled. */
    method RestoreTransactions<A>(chain: Chain<A>, reverted: seq<Tx>) returns (ghost merged: Pool)
      requires IsMempoolOrder(less) && IndexInv(less, Value())
      requires forall t :: t in reverted ==> t !in sorted
      modifies this
      ensures MergedPool(less, chain, old(Value()), reverted, merged) && Value() == Trim(merged)
    {
      ghost var p := Value();
      var g := GroupReverted(chain, reverted);
      GroupOk(less, chain, reverted);
      RestoreSenders(chain, g, reverted);
      merged := Value();
      if |sorted| > SIZE_MAX {
        RemoveTransactions(sorted[SIZE_MAX..]);
      }
    }

    method RestoreSenders<A>(chain: Chain<A>, g: Buckets, ghost reverted: seq<Tx>)
      requires IsMempoolOrder(less) && IndexInv(less, Value())
      requires forall a :: a in g ==> GroupInv(less, chain, reverted, g[a], a)
      requires forall t :: t in reverted ==> t !in sorted
      modifies this
      ensures IndexInv(less, Value())
      ensures forall a :: Bucket(bySender, a) == MergedBucket(less, chain, old(Value()), g, a)
    {
      ghost var p := Value();
      ghost var target := (a: nat) => MergedBucket(less, chain, p, g, a);
      var rest := g.Keys;
      while rest != {}
        invariant rest <= g.Keys && IndexInv(less, Value())
        invariant Progressed(p.bySender, target, bySender, rest)
        decreases rest
      {
        var address :| address in rest;
        GroupIsNew(less, chain, reverted, g[address], address, p);
        RestoreNext(chain, address, g[address], p.bySender, target, rest);
        rest := rest - {address};
      }
    }

    method RestoreNext<A>(chain: Chain<A>, address: nat, group: seq<Tx>, ghost before: Buckets,
                          ghost target: nat -> seq<Tx>, ghost rest: set<nat>)
      requires IsMempoolOrder(less) && IndexInv(less, Value()) && Descending(less, group)
      requires Progressed(before, target, bySender, rest) && address in rest
      requires forall t :: t in group ==> t.sender == address && t !in Bucket(before, address)
      requires target(address) ==
               Greedy(chain.commit, chain.account(address), 0, Merge(less, Bucket(before, address), group)).kept
      modifies this
      ensures IndexInv(less, Value()) && Progressed(before, target, bySender, rest - {address})
    {
      ghost var was := bySender;
      assert Bucket(was, address) == Bucket(before, address);
      RestoreSender(chain, address, group);
      Progresses(before, target, was, bySender, rest, address);
    }

    /** Merges the reverted transactions of one sender into its bucket. */
    method RestoreSender<A>(chain: Chain<A>, address: nat, group: seq<Tx>)
      requires IsMempoolOrder(less) && IndexInv(less, Value()) && Descending(less, group)
      requires forall t :: t in group ==> t.sender == address && t !in Bucket(bySender, address)
      modifies this
      ensures IndexInv(less, Value())
      ensures Bucket(bySender, address) ==
              Greedy(chain.commit, chain.account(address), 0, Merge(less, Bucket(old(bySender), address), group)).kept
      ensures forall b :: b != address ==> Bucket(bySender, b) == Bucket(old(bySender), b)
    {
      var held := if address in bySender then bySender[address] else [];
      var toAdd, toRemove := MergeTransactions(less, chain.commit, chain.account(address), held, group);
      MergeSender(less, chain, Value(), address, group, Changes(toAdd, toRemove));
      AddTransactions(toAdd);
      RemoveTransactions(toRemove);
    }
  }

  /** Senders still to come have their old buckets, the others their new ones. */
  ghost predicate Progressed(before: Buckets, target: nat -> seq<Tx>, now: Buckets, rest: set<nat>) {
    forall a :: Bucket(now, a) == if a in rest then Bucket(before, a) else target(a)
  }

  lemma {:induction false} Progresses(before: Buckets, target: nat -> seq<Tx>, was: Buckets, now: Buckets,
                                      rest: set<nat>, address: nat)
    requires Progressed(before, target, was, rest) && Bucket(now, address) == target(address)
    requires forall b :: b != address ==> Bucket(now, b) == Bucket(was, b)
    ensures Progressed(before, target, now, rest - {address})
  {
  }

  lemma {:induction false} GroupIsNew<A>(less: Order, chain: Chain<A>, reverted: seq<Tx>, group: seq<Tx>, a: nat,
                                         p: Pool)
    requires IndexInv(less, p) && GroupInv(less, chain, reverted, group, a)
    requires forall t :: t in reverted ==> t !in p.sorted
    ensures Descending(less, group) && forall t :: t in group ==> t.sender == a && t !in Bucket(p.bySender, a)
  {
    InBucket(less, p, a);
  }

  /** A bucket holds exactly the pooled transactions of its address. */
  lemma {:induction false} InBucket(less: Order, p: Pool, a: nat)
    requires IndexInv(less, p)
    ensures Bucket(p.bySender, a) == Of(p.sorted, Sender, a)
    ensures Descending(less, Bucket(p.bySender, a))
    ensures forall t :: t in Bucket(p.bySender, a) <==> t in p.sorted && t.sender == a
  {
    OfDescending(less, p.sorted, Sender, a);
  }

  ghost predicate GroupInv<A>(less: Order, chain: Chain<A>, txs: seq<Tx>, q: seq<Tx>, a: nat) {
    Descending(less, q) && forall t :: t in q ==> t in txs && t.sender == a && chain.Accepts(t)
  }

  /** Grouped transactions are acceptable, and sorted within their group. */
  lemma {:induction false} GroupOk<A>(less: Order, chain: Chain<A>, txs: seq<Tx>)
    requires IsMempoolOrder(less)
    ensures forall a :: a in Group(less, chain, txs) ==> GroupInv(less, chain, txs, Group(less, chain, txs)[a], a)
  {
    if txs != [] {
      var before, t := txs[..|txs| - 1], txs[|txs| - 1];
      var g := Group(less, chain, before);
      GroupOk(less, chain, before);
      assert t.sender in g ==> GroupInv(less, chain, before, g[t.sender], t.sender);
      InsertElements(less, Bucket(g, t.sender), t);
      InsertDescending(less, Bucket(g, t.sender), t);
      forall a | a in Group(less, chain, txs)
        ensures GroupInv(less, chain, txs, Group(less, chain, txs)[a], a)
      {
        assert a in g ==> GroupInv(less, chain, before, g[a], a);
      }
    }
  }

  /** Adding and removing what a merge asks for leaves exactly the greedy choice in the sender's bucket. */
  lemma {:induction false} MergeSender<A>(less: Order, chain: Chain<A>, p: Pool, a: nat, group: seq<Tx>, c: Changes)
    requires IsMempoolOrder(less) && IndexInv(less, p) && Descending(less, group)
    requires forall t :: t in group ==> t.sender == a && t !in Bucket(p.bySender, a)
    requires c == MergeFrom(less, chain.commit, chain.account(a), 0, Bucket(p.bySender, a), group)
    ensures var p' := DropAll(AddAll(less, p, c.toAdd), c.toRemove);
            && IndexInv(less, p')
            && Bucket(p'.bySender, a) ==
               Greedy(chain.commit, chain.account(a), 0, Merge(less, Bucket(p.bySender, a), group)).kept
            && forall b :: b != a ==> Bucket(p'.bySender, b) == Bucket(p.bySender, b)
  {
    var held := Bucket(p.bySender, a);
    InBucket(less, p, a);
    var s := Greedy(chain.commit, chain.account(a), 0, Merge(less, held, group));
    MergeIsGreedy(less, chain.commit, chain.account(a), 0, held, group, t => t in held, t => t in group);
    MergeElements(less, held, group);
    MergeDescending(less, held, group);
    GreedyElements(chain.commit, chain.account(a), 0, Merge(less, held, group));
    GreedyParts(less, chain.commit, chain.account(a), 0, Merge(less, held, group));
    AddAllKeepsIndexes(less, p, c.toAdd);
    DropAllKeepsIndexes(less, AddAll(less, p, c.toAdd), c.toRemove);
    var p' := DropAll(AddAll(less, p, c.toAdd), c.toRemove);
    InBucket(less, p', a);
    DescendingIsUnique(less, Bucket(p'.bySender, a), s.kept);
    forall b | b != a
      ensures Bucket(p'.bySender, b) == Bucket(p.bySender, b)
    {
      InBucket(less, p, b);
      InBucket(less, p', b);
      DescendingIsUnique(less, Bucket(p'.bySender, b), Bucket(p.bySender, b));
    }
  }
}
