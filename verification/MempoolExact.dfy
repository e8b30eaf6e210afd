/** Exactly which transactions the mempool holds after pushing, evicting and restoring. */
module MempoolExact {
  import opened Prelude
  import opened Transactions
  import opened OrderedSets
  import opened MempoolGreedy
  import opened MempoolPush
  import opened MempoolIndexes
  import opened Mempool
  import opened MempoolRuns

  /** The transactions of a list that rank above a given one. */
  function Above(less: Order, q: seq<Tx>, t: Tx): seq<Tx> {
    Filter(q, x => less(t, x))
  }

  /** A transaction can be applied after others. */
  predicate Applies<A>(commit: Commit<A>, account: A, before: seq<Tx>, t: Tx) {
    CommitAll(commit, account, before + [t]).Some?
  }

  /** It can, and there is room for it. */
  predicate FitsAfter<A>(commit: Commit<A>, account: A, before: seq<Tx>, t: Tx) {
    |before| < TRANSACTIONS_PER_SENDER_MAX && Applies(commit, account, before, t)
  }

  lemma {:induction false} AppliesIs<A>(commit: Commit<A>, account: A, before: seq<Tx>, t: Tx, now: A)
    requires CommitAll(commit, account, before) == Some(now)
    ensures Applies(commit, account, before, t) <==> commit(now, t).Some?
  {
    CommitAllSplit(commit, account, before, [t]);
    assert [t][1..] == [];
    assert CommitAll(commit, now, [t]) == commit(now, t);
  }

  lemma {:induction false} FilterAll(q: seq<Tx>, keep: Tx -> bool)
    requires forall t :: t in q ==> keep(t)
    ensures Filter(q, keep) == q
  {
    if q != [] {
      FilterAll(q[1..], keep);
      assert q == [q[0]] + q[1..];
    }
  }

  /** What is above an element of a descending list is what comes before it. */
  lemma {:induction false} AboveIsBefore(less: Order, h: seq<Tx>, l: seq<Tx>, t: Tx)
    requires (forall x :: x in h ==> less(t, x)) && (forall x :: x in l ==> !less(t, x))
    ensures Above(less, h + l, t) == h
  {
    FilterConcat(h, l, x => less(t, x));
    FilterAll(h, x => less(t, x));
    FilterNone(l, x => less(t, x));
  }

  // ---------- the greedy pass ----------

  /** The pass over a list is the pass over its first part, continued. */
  lemma {:induction false} GreedySplit<A>(commit: Commit<A>, account: A, count: nat, h: seq<Tx>, l: seq<Tx>)
    requires count <= TRANSACTIONS_PER_SENDER_MAX
    ensures var kept := Greedy(commit, account, count, h).kept;
            && CommitAll(commit, account, kept).Some?
            && Greedy(commit, account, count, h + l).kept ==
               kept + Greedy(commit, CommitAll(commit, account, kept).value, count + |kept|, l).kept
    decreases |h|
  {
    GreedyFits(commit, account, count, h);
    if h == [] {
      assert h + l == l;
    } else {
      assert (h + l)[1..] == h[1..] + l;
      if count < TRANSACTIONS_PER_SENDER_MAX && commit(account, h[0]).Some? {
        var next := commit(account, h[0]).value;
        GreedySplit(commit, next, count + 1, h[1..], l);
        CommitAllNext(commit, account, h[0], Greedy(commit, next, count + 1, h[1..]).kept, next);
      } else {
        GreedySplit(commit, account, count, h[1..], l);
      }
    }
  }

  /** Before and after an element of a descending list. */
  lemma {:induction false} AroundElement(less: Order, q: seq<Tx>, i: nat)
    requires IsMempoolOrder(less) && Descending(less, q) && i < |q|
    ensures q == q[..i] + ([q[i]] + q[i + 1..])
    ensures (forall x :: x in q[..i] ==> less(q[i], x) && x != q[i])
    ensures (forall x :: x in [q[i]] + q[i + 1..] ==> !less(q[i], x)) && q[i] !in q[i + 1..]
  {
    forall x | x in q[i + 1..]
      ensures less(x, q[i])
    {
    }
  }

  /** What the pass keeps above an element is what it keeps of the part before it. */
  lemma {:induction false} KeptAbove<A>(less: Order, commit: Commit<A>, account: A, now: A, h: seq<Tx>, t: Tx,
                                        l: seq<Tx>, first: seq<Tx>, rest: seq<Tx>)
    requires (forall x :: x in h ==> less(t, x) && x != t) && (forall x :: x in [t] + l ==> !less(t, x))
    requires first == Greedy(commit, account, 0, h).kept && rest == Greedy(commit, now, |first|, [t] + l).kept
    ensures Above(less, first + rest, t) == first && t !in first
  {
    GreedyElements(commit, account, 0, h);
    GreedyElements(commit, now, |first|, [t] + l);
    AboveIsBefore(less, first, rest, t);
  }

  lemma {:induction false} GreedyKeepsAt<A>(less: Order, commit: Commit<A>, account: A, h: seq<Tx>, t: Tx, l: seq<Tx>)
    requires (forall x :: x in h ==> less(t, x) && x != t) && (forall x :: x in [t] + l ==> !less(t, x)) && t !in l
    ensures var kept := Greedy(commit, account, 0, h + ([t] + l)).kept;
            t in kept <==> FitsAfter(commit, account, Above(less, kept, t), t)
  {
    GreedySplit(commit, account, 0, h, [t] + l);
    var first := Greedy(commit, account, 0, h).kept;
    var now := CommitAll(commit, account, first).value;
    KeptAbove(less, commit, account, now, h, t, l, first, Greedy(commit, now, |first|, [t] + l).kept);
    AppliesIs(commit, account, first, t, now);
    GreedyRest(commit, now, |first|, t, l);
  }

  /** The pass keeps exactly what fits after all that is kept above it. */
  lemma {:induction false} GreedyKeepsIff<A>(less: Order, commit: Commit<A>, account: A, q: seq<Tx>, t: Tx)
    requires IsMempoolOrder(less) && Descending(less, q) && t in q
    ensures var kept := Greedy(commit, account, 0, q).kept;
            t in kept <==> FitsAfter(commit, account, Above(less, kept, t), t)
  {
    var i :| 0 <= i < |q| && q[i] == t;
    AroundElement(less, q, i);
    GreedyKeepsAt(less, commit, account, q[..i], t, q[i + 1..]);
  }

  lemma {:induction false} GreedyRest<A>(commit: Commit<A>, now: A, count: nat, t: Tx, l: seq<Tx>)
    requires t !in l
    ensures t in Greedy(commit, now, count, [t] + l).kept <==>
            count < TRANSACTIONS_PER_SENDER_MAX && commit(now, t).Some?
  {
    assert ([t] + l)[1..] == l;
    if !(count < TRANSACTIONS_PER_SENDER_MAX && commit(now, t).Some?) {
      GreedyElements(commit, now, count, l);
    }
  }

  // ---------- evicting ----------

  lemma {:induction false} SurvivorsTake<A>(chain: Chain<A>, account: A, q: seq<Tx>, next: A)
    requires q != [] && chain.Accepts(q[0]) && chain.commit(account, q[0]) == Some(next)
    ensures Survivors(chain, account, q) == [q[0]] + Survivors(chain, next, q[1..])
  {
  }

  lemma {:induction false} Joined(x: Tx, first: seq<Tx>, rest: seq<Tx>)
    ensures [x] + (first + rest) == ([x] + first) + rest
  {
  }

  lemma {:induction false} SurvivorsSplit<A>(chain: Chain<A>, account: A, h: seq<Tx>, l: seq<Tx>)
    ensures CommitAll(chain.commit, account, Survivors(chain, account, h)).Some?
    ensures Survivors(chain, account, h + l) ==
            Survivors(chain, account, h) +
            Survivors(chain, CommitAll(chain.commit, account, Survivors(chain, account, h)).value, l)
    decreases |h|
  {
    if h == [] {
      assert h + l == l;
    } else {
      assert (h + l)[1..] == h[1..] + l;
      if chain.Accepts(h[0]) && chain.commit(account, h[0]).Some? {
        var next := chain.commit(account, h[0]).value;
        var first := Survivors(chain, next, h[1..]);
        SurvivorsSplit(chain, next, h[1..], l);
        CommitAllNext(chain.commit, account, h[0], first, next);
        SurvivorsTake(chain, account, h, next);
        SurvivorsTake(chain, account, h + l, next);
        Joined(h[0], first, Survivors(chain, CommitAll(chain.commit, next, first).value, l));
      } else {
        SurvivorsSplit(chain, account, h[1..], l);
      }
    }
  }

  lemma {:induction false} CommitAllNext<A>(commit: Commit<A>, account: A, t: Tx, rest: seq<Tx>, next: A)
    requires commit(account, t) == Some(next)
    ensures CommitAll(commit, account, [t] + rest) == CommitAll(commit, next, rest)
  {
    assert ([t] + rest)[1..] == rest;
  }

  lemma {:induction false} SurvivorsRest<A>(chain: Chain<A>, now: A, t: Tx, l: seq<Tx>)
    requires t !in l
    ensures t in Survivors(chain, now, [t] + l) <==> chain.Accepts(t) && chain.commit(now, t).Some?
  {
    assert ([t] + l)[1..] == l;
  }

  lemma {:induction false} SurvivesAt<A>(less: Order, chain: Chain<A>, account: A, h: seq<Tx>, t: Tx, l: seq<Tx>)
    requires (forall x :: x in h ==> less(t, x) && x != t) && (forall x :: x in [t] + l ==> !less(t, x)) && t !in l
    ensures var kept := Survivors(chain, account, h + ([t] + l));
            t in kept <==> chain.Accepts(t) && Applies(chain.commit, account, Above(less, kept, t), t)
  {
    SurvivorsSplit(chain, account, h, [t] + l);
    var first := Survivors(chain, account, h);
    var now := CommitAll(chain.commit, account, first).value;
    AboveIsBefore(less, first, Survivors(chain, now, [t] + l), t);
    AppliesIs(chain.commit, account, first, t, now);
    SurvivorsRest(chain, now, t, l);
  }

  /** What stays is exactly what is still acceptable and can be applied after all that stays above it. */
  lemma {:induction false} SurvivesIff<A>(less: Order, chain: Chain<A>, account: A, q: seq<Tx>, t: Tx)
    requires IsMempoolOrder(less) && Descending(less, q) && t in q
    ensures var kept := Survivors(chain, account, q);
            t in kept <==> chain.Accepts(t) && Applies(chain.commit, account, Above(less, kept, t), t)
  {
    var i :| 0 <= i < |q| && q[i] == t;
    AroundElement(less, q, i);
    SurvivesAt(less, chain, account, q[..i], t, q[i + 1..]);
  }

  /**
   * Evicting leaves exactly the transactions that are acceptable at the head and can be applied to
   * the sender's account after all those of the sender that rank above and stay.
   */
  lemma {:induction false} EvictedIff<A>(less: Order, chain: Chain<A>, p: Pool, p': Pool, t: Tx)
    requires IsMempoolOrder(less) && IndexInv(less, p) && Evicted(less, chain, p, p')
    ensures t in p'.sorted <==>
            && t in p.sorted && chain.Accepts(t)
            && Applies(chain.commit, chain.account(t.sender), Above(less, Bucket(p'.bySender, t.sender), t), t)
  {
    if t in p.sorted {
      InBucket(less, p, t.sender);
      EvictedBucket(less, chain, p, p', t.sender);
      SurvivesIff(less, chain, chain.account(t.sender), Bucket(p.bySender, t.sender), t);
    }
  }

  // ---------- restoring ----------

  /** The reverted transactions of a sender that are acceptable are grouped, and nothing else. */
  lemma {:induction false} GroupIs<A>(less: Order, chain: Chain<A>, txs: seq<Tx>, a: nat, t: Tx)
    ensures t in Bucket(Group(less, chain, txs), a) <==> t in txs && t.sender == a && chain.Accepts(t)
  {
    if txs != [] {
      var before, last := txs[..|txs| - 1], txs[|txs| - 1];
      GroupIs(less, chain, before, a, t);
      InsertElements(less, Bucket(Group(less, chain, before), last.sender), last);
      assert t in txs <==> t in before || t == last;
    }
  }

  lemma {:induction false} GroupKnows<A>(less: Order, chain: Chain<A>, txs: seq<Tx>, a: nat)
    ensures a in Group(less, chain, txs) <==> Bucket(Group(less, chain, txs), a) != []
  {
    if txs != [] {
      var before, last := txs[..|txs| - 1], txs[|txs| - 1];
      GroupKnows(less, chain, before, a);
      InsertElements(less, Bucket(Group(less, chain, before), last.sender), last);
    }
  }

  ghost predicate Returns<A>(chain: Chain<A>, reverted: seq<Tx>, a: nat) {
    exists t :: t in reverted && t.sender == a && chain.Accepts(t)
  }

  lemma {:induction false} GroupedIff<A>(less: Order, chain: Chain<A>, reverted: seq<Tx>, a: nat)
    ensures a in Group(less, chain, reverted) <==> Returns(chain, reverted, a)
  {
    var q := Bucket(Group(less, chain, reverted), a);
    GroupKnows(less, chain, reverted, a);
    if q != [] {
      GroupIs(less, chain, reverted, a, q[0]);
    }
    if Returns(chain, reverted, a) {
      var t :| t in reverted && t.sender == a && chain.Accepts(t);
      GroupIs(less, chain, reverted, a, t);
    }
  }

  /**
   * After merging reverted transactions, a sender of none of them holds what it held. Any other
   * sender holds exactly those of its pooled and acceptable reverted transactions that fit its
   * account after all that it holds above them.
   */
  lemma {:induction false} RestoredIff<A>(less: Order, chain: Chain<A>, p: Pool, reverted: seq<Tx>, merged: Pool, t: Tx)
    requires IsMempoolOrder(less) && IndexInv(less, p) && MergedPool(less, chain, p, reverted, merged)
    requires forall x :: x in reverted ==> x !in p.sorted
    ensures t in merged.sorted <==>
            if Returns(chain, reverted, t.sender) then
              && (t in p.sorted || (t in reverted && chain.Accepts(t)))
              && FitsAfter(chain.commit, chain.account(t.sender), Above(less, Bucket(merged.bySender, t.sender), t), t)
            else t in p.sorted
  {
    var a, g := t.sender, Group(less, chain, reverted);
    GroupedIff(less, chain, reverted, a);
    InBucket(less, p, a);
    InBucket(less, merged, a);
    assert Bucket(merged.bySender, a) == MergedBucket(less, chain, p, g, a);
    if a in g {
      GroupOk(less, chain, reverted);
      GroupIsNew(less, chain, reverted, g[a], a, p);
      GroupIs(less, chain, reverted, a, t);
      CandidateIff(less, chain, Bucket(p.bySender, a), g[a], t);
    }
  }

  lemma {:induction false} CandidateIff<A>(less: Order, chain: Chain<A>, held: seq<Tx>, group: seq<Tx>, t: Tx)
    requires IsMempoolOrder(less) && Descending(less, held) && Descending(less, group)
    requires forall x :: x in group ==> x !in held
    ensures var kept := Greedy(chain.commit, chain.account(t.sender), 0, Merge(less, held, group)).kept;
            t in kept <==>
            (t in held || t in group) && FitsAfter(chain.commit, chain.account(t.sender), Above(less, kept, t), t)
  {
    MergeElements(less, held, group);
    MergeDescending(less, held, group);
    var q := Merge(less, held, group);
    GreedyElements(chain.commit, chain.account(t.sender), 0, q);
    if t in q {
      GreedyKeepsIff(less, chain.commit, chain.account(t.sender), q, t);
    }
  }

  // ---------- cutting to size ----------

  function Smaller(m: nat, n: nat): nat {
    if m <= n then m else n
  }

  /** Cutting keeps the highest transactions, as many as there is room for, and nothing is cut where all fit. */
  lemma {:induction false} TrimIs(less: Order, p: Pool)
    requires IsMempoolOrder(less) && IndexInv(less, p)
    ensures Trim(p).sorted == p.sorted[..Smaller(|p.sorted|, SIZE_MAX)]
    ensures |p.sorted| <= SIZE_MAX ==> Trim(p) == p
  {
    if |p.sorted| > SIZE_MAX {
      DropAllKeepsIndexes(less, p, p.sorted[SIZE_MAX..]);
      CutDescending(less, p.sorted, Trim(p).sorted, SIZE_MAX);
    } else {
      assert p.sorted[..|p.sorted|] == p.sorted;
    }
  }

  lemma {:induction false} DropLowestIs(less: Order, p: Pool)
    requires IsMempoolOrder(less) && IndexInv(less, p) && |p.sorted| <= SIZE_MAX + 1
    ensures DropLowest(p).sorted == p.sorted[..Smaller(|p.sorted|, SIZE_MAX)]
    ensures |p.sorted| <= SIZE_MAX ==> DropLowest(p) == p
  {
    if |p.sorted| > SIZE_MAX {
      var low := p.sorted[SIZE_MAX];
      assert p.sorted[SIZE_MAX..] == [low];
      DropKeepsIndexes(less, p, low);
      CutDescending(less, p.sorted, DropLowest(p).sorted, SIZE_MAX);
    } else {
      assert p.sorted[..|p.sorted|] == p.sorted;
    }
  }

  // ---------- pushing ----------

  ghost function Elements(q: seq<Tx>): set<Tx> {
    set t | t in q
  }

  lemma {:induction false} DescendingSize(less: Order, q: seq<Tx>)
    requires IsMempoolOrder(less) && Descending(less, q)
    ensures |Elements(q)| == |q|
  {
    if q != [] {
      TailDescending(less, q);
      DescendingSize(less, q[1..]);
      assert q == [q[0]] + q[1..];
      assert Elements(q) == {q[0]} + Elements(q[1..]);
      assert q[0] !in Elements(q[1..]);
    }
  }

  /** What an admitted transaction leaves, before the pool is cut to size. */
  function Admitted(less: Order, p: Pool, tx: Tx, v: Verdict): Pool
    requires v.Admit?
  {
    DropAll(Add(less, p, tx), v.evicted)
  }

  /** The choice that an admission makes among what the sender holds and the new transaction. */
  lemma {:induction false} AdmissionChooses<A>(less: Order, chain: Chain<A>, rules: Rules<A>, p: Pool, tx: Tx,
                                               v: Verdict)
    returns (q: seq<Tx>, selected: Selection)
    requires IsMempoolOrder(less) && SizeInv(less, p) && v == PushVerdict(less, chain, rules, p, tx) && v.Admit?
    ensures selected == Greedy(chain.commit, chain.account(tx.sender), 0, q) && v.evicted == selected.dropped
    ensures Bucket(Admitted(less, p, tx, v).bySender, tx.sender) == selected.kept && tx in selected.kept
    ensures Descending(less, q) && forall t :: t in q <==> (t in p.sorted && t.sender == tx.sender) || t == tx
    ensures tx !in p.sorted
  {
    var account, held := chain.account(tx.sender), Bucket(p.bySender, tx.sender);
    q := Merge(less, held, [tx]);
    selected := Greedy(chain.commit, account, 0, q);
    InBucket(less, p, tx.sender);
    AdmitIsMerge(less, chain.commit, rules.senderBalance, account, held, tx, selected);
    var k := Rank(less, held, tx);
    assert (held[..k] + [tx])[k] == selected.kept[k];
    AdmittedBuckets(less, chain, p, tx, selected);
    MergeElements(less, held, [tx]);
    MergeDescending(less, held, [tx]);
  }

  /** Evicted for a new transaction are those of its sender that no longer fit after all that stays above them. */
  lemma {:induction false} EvictedForIff<A>(less: Order, chain: Chain<A>, rules: Rules<A>, p: Pool, tx: Tx, v: Verdict,
                                            t: Tx)
    requires IsMempoolOrder(less) && SizeInv(less, p) && v == PushVerdict(less, chain, rules, p, tx) && v.Admit?
    ensures t in v.evicted <==>
            && t in p.sorted && t.sender == tx.sender
            && !FitsAfter(chain.commit, chain.account(tx.sender),
                          Above(less, Bucket(Admitted(less, p, tx, v).bySender, tx.sender), t), t)
    ensures tx !in v.evicted && tx !in p.sorted
  {
    var q, selected := AdmissionChooses(less, chain, rules, p, tx, v);
    SelectedIff(less, chain.commit, chain.account(tx.sender), q, selected, t);
    SelectedIff(less, chain.commit, chain.account(tx.sender), q, selected, tx);
  }

  lemma {:induction false} SelectedIff<A>(less: Order, commit: Commit<A>, account: A, q: seq<Tx>, s: Selection, t: Tx)
    requires IsMempoolOrder(less) && Descending(less, q) && s == Greedy(commit, account, 0, q)
    ensures t in s.dropped <==> t in q && !FitsAfter(commit, account, Above(less, s.kept, t), t)
    ensures t in s.kept ==> t !in s.dropped
  {
    GreedyElements(commit, account, 0, q);
    GreedyParts(less, commit, account, 0, q);
    if t in q {
      GreedyKeepsIff(less, commit, account, q, t);
    }
  }

  lemma {:induction false} AdmittedElements(less: Order, p: Pool, tx: Tx, v: Verdict)
    requires IsMempoolOrder(less) && IndexInv(less, p) && v.Admit?
    ensures IndexInv(less, Admitted(less, p, tx, v)) && |Admitted(less, p, tx, v).sorted| <= |p.sorted| + 1
    ensures forall t :: t in Admitted(less, p, tx, v).sorted <==> (t in p.sorted || t == tx) && t !in v.evicted
  {
    AddKeepsIndexes(less, p, tx);
    DropAllKeepsIndexes(less, Add(less, p, tx), v.evicted);
    PushGrowsByOne(less, p, tx, v.evicted);
  }

  lemma {:induction false} ElementsSize(less: Order, full: seq<Tx>, q: seq<Tx>, tx: Tx, evicted: seq<Tx>)
    requires IsMempoolOrder(less) && Descending(less, full)
    requires forall t :: t in full <==> (t in q || t == tx) && t !in evicted
    ensures |full| == |Elements(q) + {tx} - Elements(evicted)|
  {
    DescendingSize(less, full);
    assert Elements(full) == Elements(q) + {tx} - Elements(evicted);
  }

  /**
   * After an admitted push the pool holds the highest of what it held and the new transaction,
   * without those evicted, as many as there is room for. Where there is room, that is all of them.
   */
  lemma {:induction false} PushedIs<A>(less: Order, chain: Chain<A>, rules: Rules<A>, p: Pool, tx: Tx, v: Verdict,
                                       after: Pool)
    requires IsMempoolOrder(less) && SizeInv(less, p) && v == PushVerdict(less, chain, rules, p, tx) && v.Admit?
    requires after == AfterPush(less, p, tx, v)
    ensures after.sorted <= Admitted(less, p, tx, v).sorted
    ensures |after.sorted| == Smaller(|Elements(p.sorted) + {tx} - Elements(v.evicted)|, SIZE_MAX)
    ensures |p.sorted| < SIZE_MAX ==>
              forall t :: t in after.sorted <==> (t in p.sorted || t == tx) && t !in v.evicted
    ensures forall t :: t in Admitted(less, p, tx, v).sorted <==> (t in p.sorted || t == tx) && t !in v.evicted
  {
    var full := Admitted(less, p, tx, v);
    AdmittedElements(less, p, tx, v);
    DropLowestIs(less, full);
    ElementsSize(less, full.sorted, p.sorted, tx, v.evicted);
  }

  // ---------- when a transaction is admitted ----------

  /** The higher ones of what a sender holds are applied before a new transaction. */
  lemma {:induction false} RankIs(less: Order, held: seq<Tx>, tx: Tx)
    requires IsMempoolOrder(less) && Descending(less, held) && tx !in held
    ensures held[..Rank(less, held, tx)] == Above(less, held, tx)
  {
    if held != [] {
      TailDescending(less, held);
      if less(held[0], tx) {
        forall x | x in held
          ensures !less(tx, x)
        {
          assert x == held[0] || x in held[1..];
        }
        FilterNone(held, x => less(tx, x));
      } else {
        RankIs(less, held[1..], tx);
        var k := Rank(less, held[1..], tx);
        assert held[..k + 1] == [held[0]] + held[1..][..k];
        assert held[0] in held;
      }
    }
  }

  /** The pooled transactions of the sender that rank above a transaction, or are free. */
  function HigherOf(less: Order, p: Pool, tx: Tx): seq<Tx> {
    Filter(p.sorted, (x: Tx) => x.sender == tx.sender && less(tx, x))
  }

  function FreeOf(p: Pool, a: nat): seq<Tx> {
    Filter(p.sorted, (x: Tx) => x.sender == a && x.feePerByte < TRANSACTION_RELAY_FEE_MIN)
  }

  lemma {:induction false} FilterTwice(q: seq<Tx>, f: Tx -> bool, g: Tx -> bool, both: Tx -> bool)
    requires forall t :: both(t) <==> f(t) && g(t)
    ensures Filter(Filter(q, f), g) == Filter(q, both)
  {
    if q != [] {
      FilterTwice(q[1..], f, g, both);
      if f(q[0]) {
        FilterCons(q[0], Filter(q[1..], f), g);
      }
    }
  }

  /** It can be paid after all higher ones of its sender, and the balance it leaves is accepted. */
  ghost predicate Affordable<A>(less: Order, chain: Chain<A>, rules: Rules<A>, p: Pool, tx: Tx) {
    var higher := HigherOf(less, p, tx);
    && |higher| < TRANSACTIONS_PER_SENDER_MAX
    && CommitAll(chain.commit, chain.account(tx.sender), higher).Some?
    && var before := CommitAll(chain.commit, chain.account(tx.sender), higher).value;
       chain.commit(before, tx).Some? && rules.senderBalance(before, chain.commit(before, tx).value)
  }

  /** All rules that concern the transaction alone. */
  predicate Passes<A>(chain: Chain<A>, rules: Rules<A>, tx: Tx) {
    && rules.accepts(tx) && rules.verifies(tx) && chain.Accepts(tx)
    && rules.recipientType(tx) && rules.recipientBalance(tx) && rules.senderType(tx)
  }

  /**
   * A transaction is admitted exactly if it passes the rules, is not pooled yet, is not one free
   * transaction too many, and can be afforded after the higher ones of its sender.
   */
  lemma {:induction false} AdmittedIff<A>(less: Order, chain: Chain<A>, rules: Rules<A>, p: Pool, tx: Tx)
    requires IsMempoolOrder(less) && IndexInv(less, p)
    ensures PushVerdict(less, chain, rules, p, tx).Admit? <==>
            && Passes(chain, rules, tx) && tx !in p.sorted
            && (tx.feePerByte < TRANSACTION_RELAY_FEE_MIN ==>
                  |FreeOf(p, tx.sender)| < FREE_TRANSACTIONS_PER_SENDER_MAX)
            && Affordable(less, chain, rules, p, tx)
  {
    assert TxHash(tx) in p.byHash <==> tx in p.sorted;
    if tx !in p.sorted {
      var a := tx.sender;
      var held := Bucket(p.bySender, a);
      InBucket(less, p, a);
      RankIs(less, held, tx);
      FilterTwice(p.sorted, t => Sender(t) == a, x => less(tx, x), (x: Tx) => x.sender == a && less(tx, x));
      FreeTailCountsAll(less, held);
      FilterTwice(p.sorted, t => Sender(t) == a, x => IsFree(x),
                  (x: Tx) => x.sender == a && x.feePerByte < TRANSACTION_RELAY_FEE_MIN);
      AffordableIs(less, chain, rules, p, tx, held);
    }
  }

  lemma {:induction false} AffordableIs<A>(less: Order, chain: Chain<A>, rules: Rules<A>, p: Pool, tx: Tx,
                                           held: seq<Tx>)
    requires held[..Rank(less, held, tx)] == HigherOf(less, p, tx)
    ensures SenderVerdict(less, chain.commit, rules.senderBalance, chain.account(tx.sender), held, tx).Admit? <==>
            Affordable(less, chain, rules, p, tx)
  {
    assert Rank(less, held, tx) == |held[..Rank(less, held, tx)]|;
  }

  /** A pooled transaction that passes the filter is refused as known, and no other. */
  lemma {:induction false} KnownIff<A>(less: Order, chain: Chain<A>, rules: Rules<A>, p: Pool, tx: Tx)
    requires IndexInv(less, p)
    ensures PushVerdict(less, chain, rules, p, tx) == Refuse(Known) <==> rules.accepts(tx) && tx in p.sorted
  {
    assert TxHash(tx) in p.byHash <==> tx in p.sorted;
  }
}
