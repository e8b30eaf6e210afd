/** The four indexes of the mempool over one set of transactions (mempool/src/lib.rs, `MempoolState`). */
module MempoolIndexes {
  import opened Transactions
  import opened OrderedSets

  type Buckets = map<nat, seq<Tx>>
  type KeyOf = Tx -> nat

  /** The contents of the mempool; ordered sets are written highest first. */
  datatype Pool = Pool(byHash: map<TxHash, Tx>, bySender: Buckets, byRecipient: Buckets, sorted: seq<Tx>)

  const Sender: KeyOf := (t: Tx) => t.sender
  const Recipient: KeyOf := (t: Tx) => t.recipient

  function Bucket(b: Buckets, a: nat): seq<Tx> {
    if a in b then b[a] else []
  }

  function AddToBucket(less: Order, b: Buckets, a: nat, tx: Tx): Buckets {
    b[a := Insert(less, Bucket(b, a), tx)]
  }

  /** An empty bucket disappears. */
  function RemoveFromBucket(b: Buckets, a: nat, tx: Tx): Buckets {
    if a !in b then b
    else if Remove(b[a], tx) == [] then b - {a}
    else b[a := Remove(b[a], tx)]
  }

  function Add(less: Order, p: Pool, tx: Tx): Pool {
    Pool(p.byHash[TxHash(tx) := tx],
         AddToBucket(less, p.bySender, tx.sender, tx),
         AddToBucket(less, p.byRecipient, tx.recipient, tx),
         Insert(less, p.sorted, tx))
  }

  function Drop(p: Pool, tx: Tx): Pool {
    Pool(p.byHash - {TxHash(tx)},
         RemoveFromBucket(p.bySender, tx.sender, tx),
         RemoveFromBucket(p.byRecipient, tx.recipient, tx),
         Remove(p.sorted, tx))
  }

  function AddAll(less: Order, p: Pool, txs: seq<Tx>): Pool {
    if txs == [] then p else Add(less, AddAll(less, p, txs[..|txs| - 1]), txs[|txs| - 1])
  }

  function DropAll(p: Pool, txs: seq<Tx>): Pool {
    if txs == [] then p else Drop(DropAll(p, txs[..|txs| - 1]), txs[|txs| - 1])
  }

  /** The transactions of one address, highest first. */
  function Of(q: seq<Tx>, key: KeyOf, a: nat): seq<Tx> {
    Filter(q, t => key(t) == a)
  }

  /** An index lists every address that has transactions, and exactly its transactions. */
  ghost predicate BucketsOk(b: Buckets, key: KeyOf, q: seq<Tx>) {
    && (forall a :: a in b <==> Of(q, key, a) != [])
    && (forall a :: a in b ==> b[a] == Of(q, key, a))
  }

  /** All four indexes describe the transactions of `sorted`. */
  ghost predicate IndexInv(less: Order, p: Pool) {
    && Descending(less, p.sorted)
    && (forall h :: h in p.byHash <==> h.preimage in p.sorted)
    && (forall h :: h in p.byHash ==> p.byHash[h] == h.preimage)
    && BucketsOk(p.bySender, Sender, p.sorted)
    && BucketsOk(p.byRecipient, Recipient, p.sorted)
  }

  /** Nothing but the set of transactions is stored: equal sets, equal pools. */
  lemma {:induction false} IndexesAreDetermined(less: Order, p: Pool, q: Pool)
    requires IndexInv(less, p) && IndexInv(less, q) && p.sorted == q.sorted
    ensures p == q
  {
    assert p.byHash == q.byHash;
    assert p.bySender == q.bySender;
    assert p.byRecipient == q.byRecipient;
  }

  lemma {:induction false} OfDescending(less: Order, q: seq<Tx>, key: KeyOf, a: nat)
    requires Descending(less, q)
    ensures Descending(less, Of(q, key, a))
  {
    FilterDescending(less, q, t => key(t) == a);
  }

  lemma {:induction false} OfInsert(less: Order, q: seq<Tx>, key: KeyOf, a: nat, x: Tx)
    requires IsMempoolOrder(less) && Descending(less, q)
    ensures Of(Insert(less, q, x), key, a) == if key(x) == a then Insert(less, Of(q, key, a), x) else Of(q, key, a)
  {
    InsertElements(less, q, x);
    InsertDescending(less, q, x);
    OfDescending(less, Insert(less, q, x), key, a);
    OfDescending(less, q, key, a);
    InsertElements(less, Of(q, key, a), x);
    InsertDescending(less, Of(q, key, a), x);
    DescendingIsUnique(less, Of(Insert(less, q, x), key, a),
                       if key(x) == a then Insert(less, Of(q, key, a), x) else Of(q, key, a));
  }

  lemma {:induction false} OfRemove(less: Order, q: seq<Tx>, key: KeyOf, a: nat, x: Tx)
    requires IsMempoolOrder(less) && Descending(less, q)
    ensures Of(Remove(q, x), key, a) == if key(x) == a then Remove(Of(q, key, a), x) else Of(q, key, a)
  {
    RemoveElements(less, q, x);
    OfDescending(less, Remove(q, x), key, a);
    OfDescending(less, q, key, a);
    RemoveElements(less, Of(q, key, a), x);
    DescendingIsUnique(less, Of(Remove(q, x), key, a), if key(x) == a then Remove(Of(q, key, a), x) else Of(q, key, a));
  }

  lemma {:induction false} AddKeepsBuckets(less: Order, b: Buckets, key: KeyOf, q: seq<Tx>, x: Tx)
    requires IsMempoolOrder(less) && Descending(less, q) && BucketsOk(b, key, q)
    ensures BucketsOk(AddToBucket(less, b, key(x), x), key, Insert(less, q, x))
  {
    forall a
      ensures Of(Insert(less, q, x), key, a) == if key(x) == a then Insert(less, Of(q, key, a), x) else Of(q, key, a)
    {
      OfInsert(less, q, key, a, x);
    }
    InsertElements(less, Of(q, key, key(x)), x);
    assert Bucket(b, key(x)) == Of(q, key, key(x));
  }

  lemma {:induction false} RemoveKeepsBuckets(less: Order, b: Buckets, key: KeyOf, q: seq<Tx>, x: Tx)
    requires IsMempoolOrder(less) && Descending(less, q) && BucketsOk(b, key, q)
    ensures BucketsOk(RemoveFromBucket(b, key(x), x), key, Remove(q, x))
  {
    forall a
      ensures Of(Remove(q, x), key, a) == if key(x) == a then Remove(Of(q, key, a), x) else Of(q, key, a)
    {
      OfRemove(less, q, key, a, x);
    }
  }

  lemma {:induction false} AddKeepsIndexes(less: Order, p: Pool, tx: Tx)
    requires IsMempoolOrder(less) && IndexInv(less, p)
    ensures IndexInv(less, Add(less, p, tx))
    ensures forall t :: t in Add(less, p, tx).sorted <==> t in p.sorted || t == tx
  {
    InsertElements(less, p.sorted, tx);
    InsertDescending(less, p.sorted, tx);
    AddKeepsBuckets(less, p.bySender, Sender, p.sorted, tx);
    AddKeepsBuckets(less, p.byRecipient, Recipient, p.sorted, tx);
  }

  lemma {:induction false} DropKeepsIndexes(less: Order, p: Pool, tx: Tx)
    requires IsMempoolOrder(less) && IndexInv(less, p)
    ensures IndexInv(less, Drop(p, tx))
    ensures forall t :: t in Drop(p, tx).sorted <==> t in p.sorted && t != tx
  {
    RemoveElements(less, p.sorted, tx);
    RemoveKeepsBuckets(less, p.bySender, Sender, p.sorted, tx);
    RemoveKeepsBuckets(less, p.byRecipient, Recipient, p.sorted, tx);
  }

  lemma {:induction false} AddAllKeepsIndexes(less: Order, p: Pool, txs: seq<Tx>)
    requires IsMempoolOrder(less) && IndexInv(less, p)
    ensures IndexInv(less, AddAll(less, p, txs))
    ensures forall t :: t in AddAll(less, p, txs).sorted <==> t in p.sorted || t in txs
  {
    if txs != [] {
      var before := AddAll(less, p, txs[..|txs| - 1]);
      AddAllKeepsIndexes(less, p, txs[..|txs| - 1]);
      AddKeepsIndexes(less, before, txs[|txs| - 1]);
      assert forall t :: t in txs <==> t in txs[..|txs| - 1] || t == txs[|txs| - 1];
    }
  }

  lemma {:induction false} DropAllKeepsIndexes(less: Order, p: Pool, txs: seq<Tx>)
    requires IsMempoolOrder(less) && IndexInv(less, p)
    ensures IndexInv(less, DropAll(p, txs))
    ensures forall t :: t in DropAll(p, txs).sorted <==> t in p.sorted && t !in txs
  {
    if txs != [] {
      var before := DropAll(p, txs[..|txs| - 1]);
      DropAllKeepsIndexes(less, p, txs[..|txs| - 1]);
      DropKeepsIndexes(less, before, txs[|txs| - 1]);
      assert forall t :: t in txs <==> t in txs[..|txs| - 1] || t == txs[|txs| - 1];
    }
  }
}
