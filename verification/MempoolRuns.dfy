/** What the mempool guarantees over whole runs of pushes and blockchain events. */
module MempoolRuns {
  import opened Transactions
  import opened OrderedSets
  import opened MempoolGreedy
  import opened MempoolPush
  import opened MempoolIndexes
  import opened Mempool

  /** All transactions of a sender can be applied to its account, from the highest to the lowest. */
  ghost predicate Fits<A>(chain: Chain<A>, a: nat, q: seq<Tx>) {
    |q| <= TRANSACTIONS_PER_SENDER_MAX && CommitAll(chain.commit, chain.account(a), q).Some?
  }

  /** The indexes agree and respect the size limits. */
  ghost predicate SizeInv(less: Order, p: Pool) {
    && IndexInv(less, p)
    && |p.sorted| <= SIZE_MAX
    && forall a :: |Bucket(p.bySender, a)| <= TRANSACTIONS_PER_SENDER_MAX
  }

  /** Everything the pool promises relative to the head of the chain. */
  ghost predicate PoolInv<A>(less: Order, chain: Chain<A>, p: Pool) {
    && IndexInv(less, p)
    && |p.sorted| <= SIZE_MAX
    && (forall t :: t in p.sorted ==> chain.Accepts(t))
    && (forall a :: Fits(chain, a, Bucket(p.bySender, a)))
  }

  // ---------- cutting the pool to size ----------

  lemma {:induction false} FilterConcat(p: seq<Tx>, q: seq<Tx>, keep: Tx -> bool)
    ensures Filter(p + q, keep) == Filter(p, keep) + Filter(q, keep)
  {
    if p == [] {
      assert p + q == q;
    } else {
      assert (p + q)[1..] == p[1..] + q;
      FilterConcat(p[1..], q, keep);
    }
  }

  lemma {:induction false} FilterSize(q: seq<Tx>, keep: Tx -> bool)
    ensures |Filter(q, keep)| <= |q|
  {
    if q != [] {
      FilterSize(q[1..], keep);
    }
  }

  lemma {:induction false} FitsPrefix<A>(chain: Chain<A>, a: nat, p: seq<Tx>, q: seq<Tx>)
    requires Fits(chain, a, q) && p <= q
    ensures Fits(chain, a, p)
  {
    assert q == p + q[|p|..];
    CommitAllSplit(chain.commit, chain.account(a), p, q[|p|..]);
  }

  /** The lowest transactions of the pool are the lowest of their senders: each bucket loses a suffix. */
  lemma {:induction false} CutBuckets(less: Order, p: Pool, p': Pool, n: nat, a: nat)
    requires IndexInv(less, p) && IndexInv(less, p') && n <= |p.sorted| && p'.sorted == p.sorted[..n]
    ensures Bucket(p'.bySender, a) <= Bucket(p.bySender, a)
  {
    InBucket(less, p, a);
    InBucket(less, p', a);
    FilterConcat(p.sorted[..n], p.sorted[n..], t => Sender(t) == a);
    assert p.sorted == p.sorted[..n] + p.sorted[n..];
  }

  lemma {:induction false} CutDescending(less: Order, q: seq<Tx>, r: seq<Tx>, n: nat)
    requires IsMempoolOrder(less) && Descending(less, q) && Descending(less, r) && n <= |q|
    requires forall t :: t in r <==> t in q && t !in q[n..]
    ensures r == q[..n]
  {
    assert q == q[..n] + q[n..];
    assert forall i, j :: 0 <= i < n <= j < |q| ==> q[i] != q[j];
    assert forall t :: t in q && t !in q[n..] <==> t in q[..n];
    DescendingIsUnique(less, r, q[..n]);
  }

  /** Cutting a pool to size drops its lowest transactions and shortens every bucket at its low end. */
  lemma {:induction false} TrimIsCut(less: Order, p: Pool)
    requires IsMempoolOrder(less) && IndexInv(less, p)
    ensures IndexInv(less, Trim(p)) && |Trim(p).sorted| <= SIZE_MAX
    ensures Trim(p).sorted <= p.sorted
    ensures forall a :: Bucket(Trim(p).bySender, a) <= Bucket(p.bySender, a)
  {
    if |p.sorted| > SIZE_MAX {
      DropAllKeepsIndexes(less, p, p.sorted[SIZE_MAX..]);
      CutDescending(less, p.sorted, Trim(p).sorted, SIZE_MAX);
      forall a
        ensures Bucket(Trim(p).bySender, a) <= Bucket(p.bySender, a)
      {
        CutBuckets(less, p, Trim(p), SIZE_MAX, a);
      }
    }
  }

  lemma {:induction false} DropLowestIsCut(less: Order, p: Pool)
    requires IsMempoolOrder(less) && IndexInv(less, p) && |p.sorted| <= SIZE_MAX + 1
    ensures IndexInv(less, DropLowest(p)) && |DropLowest(p).sorted| <= SIZE_MAX
    ensures DropLowest(p).sorted <= p.sorted
    ensures forall a :: Bucket(DropLowest(p).bySender, a) <= Bucket(p.bySender, a)
  {
    if |p.sorted| > SIZE_MAX {
      var low := p.sorted[SIZE_MAX];
      assert p.sorted[SIZE_MAX..] == [low];
      DropKeepsIndexes(less, p, low);
      CutDescending(less, p.sorted, DropLowest(p).sorted, SIZE_MAX);
      forall a
        ensures Bucket(DropLowest(p).bySender, a) <= Bucket(p.bySender, a)
      {
        CutBuckets(less, p, DropLowest(p), SIZE_MAX, a);
      }
    }
  }

  /** Losing its lowest transactions keeps a pool valid. */
  lemma {:induction false} CutKeepsInv<A>(less: Order, chain: Chain<A>, p: Pool, p': Pool)
    requires IndexInv(less, p') && |p'.sorted| <= SIZE_MAX && p'.sorted <= p.sorted
    requires forall a :: Bucket(p'.bySender, a) <= Bucket(p.bySender, a)
    requires (forall t :: t in p.sorted ==> chain.Accepts(t)) && forall a :: Fits(chain, a, Bucket(p.bySender, a))
    ensures PoolInv(less, chain, p')
  {
    forall a
      ensures Fits(chain, a, Bucket(p'.bySender, a))
    {
      FitsPrefix(chain, a, Bucket(p'.bySender, a), Bucket(p.bySender, a));
    }
  }

  // ---------- pushing ----------

  /** After an admission the sender's bucket is the greedy choice from its old bucket and the new transaction. */
  lemma {:induction false} AdmittedBuckets<A>(less: Order, chain: Chain<A>, p: Pool, tx: Tx, s: Selection)
    requires IsMempoolOrder(less) && IndexInv(less, p) && tx !in p.sorted
    requires s == Greedy(chain.commit, chain.account(tx.sender), 0, Merge(less, Bucket(p.bySender, tx.sender), [tx]))
    requires tx in s.kept
    ensures var p' := DropAll(Add(less, p, tx), s.dropped);
            && IndexInv(less, p')
            && Bucket(p'.bySender, tx.sender) == s.kept
            && (forall a :: a != tx.sender ==> Bucket(p'.bySender, a) == Bucket(p.bySender, a))
            && forall t :: t in p'.sorted ==> t in p.sorted || t == tx
  {
    var a := tx.sender;
    var held := Bucket(p.bySender, a);
    InBucket(less, p, a);
    MergeElements(less, held, [tx]);
    MergeDescending(less, held, [tx]);
    GreedyElements(chain.commit, chain.account(a), 0, Merge(less, held, [tx]));
    GreedyParts(less, chain.commit, chain.account(a), 0, Merge(less, held, [tx]));
    AddKeepsIndexes(less, p, tx);
    DropAllKeepsIndexes(less, Add(less, p, tx), s.dropped);
    var p' := DropAll(Add(less, p, tx), s.dropped);
    InBucket(less, p', a);
    DescendingIsUnique(less, Bucket(p'.bySender, a), s.kept);
    forall b | b != a
      ensures Bucket(p'.bySender, b) == Bucket(p.bySender, b)
    {
      InBucket(less, p, b);
      InBucket(less, p', b);
      DescendingIsUnique(less, Bucket(p'.bySender, b), Bucket(p.bySender, b));
    }
  }

  lemma {:induction false} PushGrowsByOne(less: Order, p: Pool, tx: Tx, evicted: seq<Tx>)
    ensures |DropAll(Add(less, p, tx), evicted).sorted| <= |p.sorted| + 1
  {
    InsertSize(less, p.sorted, tx);
    DropAllSize(Add(less, p, tx), evicted);
  }

  lemma {:induction false} InsertSize(less: Order, q: seq<Tx>, tx: Tx)
    ensures |Insert(less, q, tx)| <= |q| + 1
  {
    if q != [] {
      InsertSize(less, q[1..], tx);
    }
  }

  lemma {:induction false} RemoveSize(q: seq<Tx>, tx: Tx)
    ensures |Remove(q, tx)| <= |q|
  {
    if q != [] {
      RemoveSize(q[1..], tx);
    }
  }

  lemma {:induction false} DropAllSize(p: Pool, txs: seq<Tx>)
    ensures |DropAll(p, txs).sorted| <= |p.sorted|
  {
    if txs != [] {
      DropAllSize(p, txs[..|txs| - 1]);
      RemoveSize(DropAll(p, txs[..|txs| - 1]).sorted, txs[|txs| - 1]);
    }
  }

  /** What an admission makes of the buckets, before the pool is cut to size. */
  lemma {:induction false} AdmitBuckets<A>(less: Order, chain: Chain<A>, rules: Rules<A>, p: Pool, tx: Tx, v: Verdict,
                                           p': Pool)
    requires IsMempoolOrder(less) && SizeInv(less, p) && tx !in p.sorted && v.Admit?
    requires v ==
             SenderVerdict(less, chain.commit, rules.senderBalance, chain.account(tx.sender),
                           Bucket(p.bySender, tx.sender), tx)
    requires p' == DropAll(Add(less, p, tx), v.evicted)
    ensures IndexInv(less, p') && |p'.sorted| <= SIZE_MAX + 1 && Fits(chain, tx.sender, Bucket(p'.bySender, tx.sender))
    ensures forall a :: a != tx.sender ==> Bucket(p'.bySender, a) == Bucket(p.bySender, a)
    ensures forall t :: t in p'.sorted ==> t in p.sorted || t == tx
  {
    var held, account := Bucket(p.bySender, tx.sender), chain.account(tx.sender);
    var s := Greedy(chain.commit, account, 0, Merge(less, held, [tx]));
    AdmitIsMerge(less, chain.commit, rules.senderBalance, account, held, tx, s);
    var k := Rank(less, held, tx);
    assert (held[..k] + [tx])[k] == s.kept[k];
    AdmittedBuckets(less, chain, p, tx, s);
    PushGrowsByOne(less, p, tx, v.evicted);
  }

  /** Dropping the lowest transaction cuts every bucket to a prefix, which keeps the limits and a fitting bucket. */
  lemma {:induction false} DropLowestKeepsSizes<A>(less: Order, chain: Chain<A>, p: Pool, s: nat)
    requires IsMempoolOrder(less) && IndexInv(less, p) && |p.sorted| <= SIZE_MAX + 1
    requires forall a :: |Bucket(p.bySender, a)| <= TRANSACTIONS_PER_SENDER_MAX
    requires Fits(chain, s, Bucket(p.bySender, s))
    ensures SizeInv(less, DropLowest(p)) && Fits(chain, s, Bucket(DropLowest(p).bySender, s))
  {
    DropLowestIsCut(less, p);
    CutKeepsSizes(less, p, DropLowest(p));
    FitsPrefix(chain, s, Bucket(DropLowest(p).bySender, s), Bucket(p.bySender, s));
  }

  lemma {:induction false} DropLowestKeepsInv<A>(less: Order, chain: Chain<A>, p: Pool)
    requires IsMempoolOrder(less) && IndexInv(less, p) && |p.sorted| <= SIZE_MAX + 1
    requires (forall t :: t in p.sorted ==> chain.Accepts(t)) && forall a :: Fits(chain, a, Bucket(p.bySender, a))
    ensures PoolInv(less, chain, DropLowest(p))
  {
    DropLowestIsCut(less, p);
    CutKeepsInv(less, chain, p, DropLowest(p));
  }

  lemma {:induction false} CutKeepsSizes(less: Order, p: Pool, p': Pool)
    requires IndexInv(less, p') && |p'.sorted| <= SIZE_MAX
    requires forall a :: Bucket(p'.bySender, a) <= Bucket(p.bySender, a)
    requires forall a :: |Bucket(p.bySender, a)| <= TRANSACTIONS_PER_SENDER_MAX
    ensures SizeInv(less, p')
  {
    forall a
      ensures |Bucket(p'.bySender, a)| <= TRANSACTIONS_PER_SENDER_MAX
    {
      assert Bucket(p'.bySender, a) <= Bucket(p.bySender, a);
    }
  }

  /** Every push, accepted or not, leaves a valid pool. */
  lemma {:induction false} PushKeepsInv<A>(less: Order, chain: Chain<A>, rules: Rules<A>, p: Pool, tx: Tx)
    requires IsMempoolOrder(less) && PoolInv(less, chain, p)
    ensures PoolInv(less, chain, AfterPush(less, p, tx, PushVerdict(less, chain, rules, p, tx)))
  {
    var v := PushVerdict(less, chain, rules, p, tx);
    if v.Admit? {
      PoolInvImpliesSizes(less, chain, p);
      var p' := DropAll(Add(less, p, tx), v.evicted);
      AdmitBuckets(less, chain, rules, p, tx, v, p');
      forall a
        ensures Fits(chain, a, Bucket(p'.bySender, a))
      {
        assert Fits(chain, a, Bucket(p.bySender, a));
      }
      DropLowestKeepsInv(less, chain, p');
    }
  }

  /**
   * A push that meets a pool not yet evicted at the new head keeps the limits, and an admitted
   * transaction leaves its sender's bucket valid at that head.
   */
  lemma {:induction false} StalePushKeepsSizes<A>(less: Order, chain: Chain<A>, rules: Rules<A>, p: Pool, tx: Tx,
                                                  p': Pool)
    requires IsMempoolOrder(less) && SizeInv(less, p)
    requires p' == AfterPush(less, p, tx, PushVerdict(less, chain, rules, p, tx))
    ensures SizeInv(less, p')
    ensures PushVerdict(less, chain, rules, p, tx).Admit? ==> Fits(chain, tx.sender, Bucket(p'.bySender, tx.sender))
  {
    var v := PushVerdict(less, chain, rules, p, tx);
    if v.Admit? {
      var q := DropAll(Add(less, p, tx), v.evicted);
      AdmitBuckets(less, chain, rules, p, tx, v, q);
      forall a
        ensures |Bucket(q.bySender, a)| <= TRANSACTIONS_PER_SENDER_MAX
      {
        assert |Bucket(p.bySender, a)| <= TRANSACTIONS_PER_SENDER_MAX;
      }
      DropLowestKeepsSizes(less, chain, q, tx.sender);
    }
  }

  // ---------- evicting ----------

  lemma {:induction false} SurvivorsFit<A>(chain: Chain<A>, account: A, q: seq<Tx>)
    ensures CommitAll(chain.commit, account, Survivors(chain, account, q)).Some?
    ensures |Survivors(chain, account, q)| <= |q|
    decreases |q|
  {
    if q != [] {
      if chain.Accepts(q[0]) && chain.commit(account, q[0]).Some? {
        var next := chain.commit(account, q[0]).value;
        SurvivorsFit(chain, next, q[1..]);
        assert ([q[0]] + Survivors(chain, next, q[1..]))[1..] == Survivors(chain, next, q[1..]);
      } else {
        SurvivorsFit(chain, account, q[1..]);
      }
    }
  }

  lemma {:induction false} SurvivorsDescending<A>(less: Order, chain: Chain<A>, account: A, q: seq<Tx>)
    requires Descending(less, q)
    ensures Descending(less, Survivors(chain, account, q))
    decreases |q|
  {
    if q != [] {
      TailDescending(less, q);
      if chain.Accepts(q[0]) && chain.commit(account, q[0]).Some? {
        var next := chain.commit(account, q[0]).value;
        SurvivorsDescending(less, chain, next, q[1..]);
        ConsDescending(less, q[0], Survivors(chain, next, q[1..]));
      } else {
        SurvivorsDescending(less, chain, account, q[1..]);
      }
    }
  }

  /** What evicting leaves behind, as the method promises it. */
  ghost predicate Evicted<A>(less: Order, chain: Chain<A>, p: Pool, p': Pool) {
    && IndexInv(less, p')
    && forall t :: t in p'.sorted <==> t in p.sorted && Survives(chain, p, t)
  }

  lemma {:induction false} EvictedBucket<A>(less: Order, chain: Chain<A>, p: Pool, p': Pool, a: nat)
    requires IsMempoolOrder(less) && IndexInv(less, p) && Evicted(less, chain, p, p')
    ensures Bucket(p'.bySender, a) == Survivors(chain, chain.account(a), Bucket(p.bySender, a))
  {
    var q, q' := Bucket(p.bySender, a), Bucket(p'.bySender, a);
    InBucket(less, p, a);
    InBucket(less, p', a);
    SurvivorsDescending(less, chain, chain.account(a), q);
    DescendingIsUnique(less, q', Survivors(chain, chain.account(a), q));
  }

  lemma {:induction false} SmallerSet(less: Order, p: seq<Tx>, q: seq<Tx>)
    requires IsMempoolOrder(less) && Descending(less, p) && Descending(less, q) && forall t :: t in p ==> t in q
    ensures |p| <= |q|
  {
    FilterDescending(less, q, t => t in p);
    DescendingIsUnique(less, p, Filter(q, t => t in p));
    FilterSize(q, t => t in p);
  }

  /** Evicting against a new head makes any pool of the right size valid for that head. */
  lemma {:induction false} EvictRestoresInv<A>(less: Order, chain: Chain<A>, p: Pool, p': Pool)
    requires IsMempoolOrder(less) && SizeInv(less, p) && Evicted(less, chain, p, p')
    ensures PoolInv(less, chain, p')
  {
    SmallerSet(less, p'.sorted, p.sorted);
    forall a
      ensures Fits(chain, a, Bucket(p'.bySender, a))
    {
      EvictedBucket(less, chain, p, p', a);
      SurvivorsFit(chain, chain.account(a), Bucket(p.bySender, a));
    }
  }

  // ---------- restoring ----------

  lemma {:induction false} RestoreKeepsSizes<A>(less: Order, chain: Chain<A>, p: Pool, reverted: seq<Tx>, merged: Pool)
    requires IsMempoolOrder(less) && SizeInv(less, p) && MergedPool(less, chain, p, reverted, merged)
    ensures SizeInv(less, Trim(merged))
  {
    TrimIsCut(less, merged);
    var g := Group(less, chain, reverted);
    forall a
      ensures |Bucket(Trim(merged).bySender, a)| <= TRANSACTIONS_PER_SENDER_MAX
    {
      assert Bucket(Trim(merged).bySender, a) <= Bucket(merged.bySender, a);
      if a in g {
        GreedyFits(chain.commit, chain.account(a), 0, Merge(less, Bucket(p.bySender, a), g[a]));
      }
    }
  }

  // ---------- whole runs ----------

  /** The head of the chain, the pool, and whether the head has moved without the pool being evicted since. */
  datatype World<!A> = World(chain: Chain<A>, pool: Pool, stale: bool)

  /** A transaction is pushed, with whatever rules apply to it. */
  ghost predicate Pushed<A>(less: Order, w: World<A>, w': World<A>, rules: Rules<A>, tx: Tx) {
    w' == w.(pool := AfterPush(less, w.pool, tx, PushVerdict(less, w.chain, rules, w.pool, tx)))
  }

  /** The head moves first and the event follows later, as when history is synchronized. */
  ghost predicate HeadMoved<A>(w: World<A>, w': World<A>) {
    w'.pool == w.pool && w'.stale
  }

  /** The chain has a head that extends the former one, and the event is handled. */
  ghost predicate Extended<A>(less: Order, w: World<A>, w': World<A>) {
    Evicted(less, w'.chain, w.pool, w'.pool) && !w'.stale
  }

  /**
   * The chain moves to another branch; the transactions of the blocks left behind had been mined.
   * Only blocks after the last macro block are ever left behind, and each of them has been followed
   * by an eviction when it was pushed.
   */
  ghost predicate Rebranched<A>(less: Order, w: World<A>, w': World<A>, reverted: seq<Tx>, merged: Pool) {
    && !w.stale && !w'.stale
    && (forall t :: t in reverted ==> w.chain.mined(TxHash(t)))
    && MergedPool(less, w'.chain, w.pool, reverted, merged)
    && Evicted(less, w'.chain, Trim(merged), w'.pool)
  }

  ghost predicate Step<A(!new)>(less: Order, w: World<A>, w': World<A>) {
    || (exists rules, tx :: Pushed(less, w, w', rules, tx))
    || HeadMoved(w, w')
    || Extended(less, w, w')
    || (exists reverted, merged :: Rebranched(less, w, w', reverted, merged))
  }

  /** The limits and indexes always hold; validity at the head holds whenever no eviction is due. */
  ghost predicate WorldInv<A>(less: Order, w: World<A>) {
    SizeInv(less, w.pool) && (!w.stale ==> PoolInv(less, w.chain, w.pool))
  }

  lemma {:induction false} PoolInvImpliesSizes<A>(less: Order, chain: Chain<A>, p: Pool)
    requires PoolInv(less, chain, p)
    ensures SizeInv(less, p)
  {
    forall a
      ensures |Bucket(p.bySender, a)| <= TRANSACTIONS_PER_SENDER_MAX
    {
      assert Fits(chain, a, Bucket(p.bySender, a));
    }
  }

  lemma {:induction false} StepKeepsInv<A(!new)>(less: Order, w: World<A>, w': World<A>)
    requires IsMempoolOrder(less) && WorldInv(less, w) && Step(less, w, w')
    ensures WorldInv(less, w')
  {
    if rules, tx :| Pushed(less, w, w', rules, tx) {
      StalePushKeepsSizes(less, w.chain, rules, w.pool, tx, w'.pool);
      if !w.stale {
        PushKeepsInv(less, w.chain, rules, w.pool, tx);
      }
    } else if HeadMoved(w, w') {
    } else if Extended(less, w, w') {
      EvictRestoresInv(less, w'.chain, w.pool, w'.pool);
      PoolInvImpliesSizes(less, w'.chain, w'.pool);
    } else {
      var reverted, merged :| Rebranched(less, w, w', reverted, merged);
      RestoreKeepsSizes(less, w'.chain, w.pool, reverted, merged);
      EvictRestoresInv(less, w'.chain, Trim(merged), w'.pool);
      PoolInvImpliesSizes(less, w'.chain, w'.pool);
    }
  }

  /** Reverted transactions are never pooled, so restoring them merges disjoint sets. */
  lemma {:induction false} RevertedAreNew<A>(less: Order, w: World<A>, reverted: seq<Tx>)
    requires PoolInv(less, w.chain, w.pool)
    requires forall t :: t in reverted ==> w.chain.mined(TxHash(t))
    ensures forall t :: t in reverted ==> t !in w.pool.sorted
  {
  }

  /**
   * Throughout any run the four indexes agree and the limits hold. Whenever no eviction is due,
   * every pooled transaction is acceptable at the head, and each sender's transactions can all be
   * applied in order to its account.
   */
  lemma {:induction false} RunsKeepPoolValid<A(!new)>(less: Order, trace: seq<World<A>>)
    requires IsMempoolOrder(less) && |trace| > 0
    requires trace[0].pool == Pool(map[], map[], map[], [])
    requires forall k :: 0 <= k < |trace| - 1 ==> Step(less, trace[k], trace[k + 1])
    ensures forall k :: 0 <= k < |trace| ==> WorldInv(less, trace[k])
  {
    forall k | 0 <= k < |trace|
      ensures WorldInv(less, trace[k])
    {
      RunKeepsPoolValid(less, trace, k);
    }
  }

  lemma {:induction false} RunKeepsPoolValid<A(!new)>(less: Order, trace: seq<World<A>>, k: nat)
    requires IsMempoolOrder(less) && k < |trace|
    requires trace[0].pool == Pool(map[], map[], map[], [])
    requires forall j :: 0 <= j < |trace| - 1 ==> Step(less, trace[j], trace[j + 1])
    ensures WorldInv(less, trace[k])
  {
    if k > 0 {
      RunKeepsPoolValid(less, trace, k - 1);
      assert Step(less, trace[k - 1], trace[k - 1 + 1]);
      StepKeepsInv(less, trace[k - 1], trace[k]);
    }
  }

  datatype Event = BlockExtended | BlockFinalized | EpochFinalized | BlocksRebranched(reverted: seq<Tx>)

  /** Handles a blockchain event: the head has moved from one state of the chain to another. */
  method OnBlockchainEvent<A(!new)>(state: MempoolState, ghost before: Chain<A>, ghost stale: bool, chain: Chain<A>,
                                    event: Event)
    requires IsMempoolOrder(state.less) && WorldInv(state.less, World(before, state.Value(), stale))
    requires event.BlocksRebranched? ==> !stale && forall t :: t in event.reverted ==> before.mined(TxHash(t))
    modifies state
    ensures Step(state.less, World(before, old(state.Value()), stale), World(chain, state.Value(), false))
    ensures PoolInv(state.less, chain, state.Value())
  {
    ghost var w := World(before, state.Value(), stale);
    var mined, evicted;
    match event {
      case BlocksRebranched(reverted) =>
        RevertedAreNew(state.less, w, reverted);
        ghost var merged := state.RestoreTransactions(chain, reverted);
        RestoreKeepsSizes(state.less, chain, w.pool, reverted, merged);
        mined, evicted := state.EvictTransactions(chain);
        assert Rebranched(state.less, w, World(chain, state.Value(), false), reverted, merged);
      case _ =>
        mined, evicted := state.EvictTransactions(chain);
        assert Extended(state.less, w, World(chain, state.Value(), false));
    }
    StepKeepsInv(state.less, w, World(chain, state.Value(), false));
  }
}
