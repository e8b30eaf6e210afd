/** Whole blocks on accounts of all types: what they keep, and exactly when they can be taken back. */
module StakingBlocks {
  import opened Prelude
  import opened Transactions
  import opened Accounts
  import opened AccountsLocal
  import opened AccountsRevert
  import opened AccountsCoins
  import opened AccountsSupply
  import opened StakeEntries
  import opened StakingContracts
  import opened StakingViews
  import opened StakingParts
  import opened StakingPhases
  import opened StakingReverts

  // ---------- what every transaction keeps, a block keeps ----------

  ghost predicate AllContracts(tree: Tree<AnyAccount>, good: Contract -> bool) {
    forall a :: a in tree && tree[a].Staking? ==> good(tree[a].contract)
  }

  ghost predicate Preserves<T(!new)>(good: Contract -> bool, inner: Op<Contract, T>, xs: seq<T>) {
    forall c, x, r :: good(c) && x in xs && inner(c, x, r).Success? ==> good(inner(c, x, r).value.0)
  }

  lemma {:induction false} RunPreserves<T(!new)>(p: StakingPolicy, good: Contract -> bool, ph: Phase<AnyAccount, T>,
                                                 inner: Op<Contract, T>, coins: Op<CoinAccount, T>,
                                                 tree: Tree<AnyAccount>, xs: seq<T>, rs: seq<Option<Data>>)
    requires ph.op == OnAccount(inner, coins) && AllContracts(tree, good) && Preserves(good, inner, xs)
    requires |rs| == |xs| && ApplyAll(StakingKind(p), ph, tree, xs, rs).Success?
    ensures AllContracts(ApplyAll(StakingKind(p), ph, tree, xs, rs).value.0, good)
    decreases |xs|
  {
    if xs != [] {
      var k, a := StakingKind(p), ph.address(xs[0]);
      OnAccountIs(inner, coins, Get(k, tree, a), xs[0], rs[0]);
      assert xs[0] in xs && forall x :: x in xs[1..] ==> x in xs;
      RunPreserves(p, good, ph, inner, coins, Apply(k, ph, tree, xs[0], rs[0]).value.0, xs[1..], rs[1..]);
    }
  }

  lemma {:induction false} CreationsPreserve(p: StakingPolicy, good: Contract -> bool, tree: Tree<AnyAccount>,
                                             txs: seq<Tx>)
    requires AllContracts(tree, good) && CreateContracts(StakingKind(p), tree, txs).Success?
    ensures AllContracts(CreateContracts(StakingKind(p), tree, txs).value, good)
    decreases |txs|
  {
    if txs != [] {
      var k, a := StakingKind(p), txs[0].recipient;
      if CreatesContract(txs[0]) {
        var c := k.contract(txs[0].recipientType, k.balance(Get(k, tree, a)), txs[0]).value;
        CreationsPreserve(p, good, Put(k, tree, a, c), txs[1..]);
      } else {
        CreationsPreserve(p, good, tree, txs[1..]);
      }
    }
  }

  lemma {:induction false} PruningPreserves(p: StakingPolicy, good: Contract -> bool, tree: Tree<AnyAccount>,
                                            txs: seq<Tx>)
    requires AllContracts(tree, good)
    ensures AllContracts(PruneAccounts(StakingKind(p), tree, txs).0, good)
    decreases |txs|
  {
    if txs != [] {
      var k, a := StakingKind(p), txs[0].sender;
      PruningPreserves(p, good, if k.prunable(Get(k, tree, a)) then Put(k, tree, a, k.initial) else tree, txs[1..]);
    }
  }

  ghost predicate BlockPreserves(p: StakingPolicy, good: Contract -> bool, txs: seq<Tx>, inherents: seq<Inherent>) {
    && Preserves(good, Act(Spending(p)), txs) && Preserves(good, Act(Receiving(p)), txs)
    && Preserves(good, Slashing(p), inherents)
  }

  lemma {:induction false} SelectAmong(inherents: seq<Inherent>, pre: bool)
    ensures forall i :: i in Select(inherents, pre) ==> i in inherents
  {
    if inherents != [] {
      SelectAmong(inherents[1..], pre);
    }
  }

  /** What every transaction and inherent keeps is kept in all trees on the way. */
  lemma {:induction false} TrailPreserves(p: StakingPolicy, good: Contract -> bool, tree: Tree<AnyAccount>,
                                          txs: seq<Tx>, inherents: seq<Inherent>, w: Trail<AnyAccount>)
    requires Follows(StakingKind(p), StakingOps(p), tree, txs, inherents, w)
    requires AllContracts(tree, good) && BlockPreserves(p, good, txs, inherents)
    ensures AllContracts(w.afterPre, good) && AllContracts(w.afterSenders, good)
    ensures AllContracts(w.afterRecipients, good) && AllContracts(w.afterPost, good)
  {
    var ops, coins := StakingOps(p), CoinOps(p.coins);
    var pre, post := Select(inherents, true), Select(inherents, false);
    SelectAmong(inherents, true);
    SelectAmong(inherents, false);
    RunPreserves(p, good, Inherents(ops.commitInherent), Slashing(p), coins.commitInherent, tree, pre,
                 NoReceipts(|pre|));
    RunPreserves(p, good, Outgoing(ops.commitOutgoing), Act(Spending(p)), coins.commitOutgoing, w.afterPre, txs,
                 NoReceipts(|txs|));
    RunPreserves(p, good, Incoming(ops.commitIncoming), Act(Receiving(p)), coins.commitIncoming, w.afterSenders, txs,
                 NoReceipts(|txs|));
    CreationsPreserve(p, good, w.afterRecipients, txs);
    PruningPreserves(p, good, w.created, txs);
    RunPreserves(p, good, Inherents(ops.commitInherent), Slashing(p), coins.commitInherent, w.afterPruning, post,
                 NoReceipts(|post|));
  }

  // ---------- stakes of zero are never listed ----------

  predicate PositiveEntry(e: Entry) {
    e.Some? ==> e.value.balance > 0
  }

  ghost predicate KeepsPositive(entry: Op<Entry, Move>) {
    forall e, m: Move, r :: PositiveEntry(e) && (m.Keep? || m.amount > 0) && entry(e, m, r).Success? ==>
      PositiveEntry(entry(e, m, r).value.0)
  }

  lemma {:induction false} EntriesStayPositive(p: StakingPolicy)
    ensures KeepsPositive(Spending(p).entry) && KeepsPositive(Receiving(p).entry)
  {
  }

  lemma {:induction false} ActKeepsSound(adding: bool, d: Side, u: Side, c: Contract, t: Tx, r: Option<Data>)
    requires Opposed(adding, d, u) && Idle(d.entry) && Moving(d.effect) && KeepsPositive(d.entry)
    requires Sound(c) && t.value > 0 && ActOn(d, c, t, r).Success?
    ensures Sound(ActOn(d, c, t, r).value.0)
  {
    var c' := ActOn(d, c, t, r).value.0;
    ShiftKeepsListed(c.validators, d.effect(t).value.shift);
    forall s | s in c'.inactive
      ensures c'.inactive[s].balance > 0
    {
      ActIs(d, c, t, r, s);
      assert PositiveEntry(EntryOf(c, s));
      assert PositiveEntry(EntryOf(c', s));
    }
  }

  ghost function IsSound(): Contract -> bool {
    (c: Contract) => Sound(c)
  }

  lemma {:induction false} SideKeepsSound(adding: bool, d: Side, u: Side, txs: seq<Tx>)
    requires Opposed(adding, d, u) && Idle(d.entry) && Moving(d.effect) && KeepsPositive(d.entry) && Valued(txs)
    ensures Preserves(IsSound(), Act(d), txs)
  {
    forall c, x, r | Sound(c) && x in txs && ActOn(d, c, x, r).Success?
      ensures Sound(ActOn(d, c, x, r).value.0)
    {
      ActKeepsSound(adding, d, u, c, x, r);
    }
  }

  lemma {:induction false} TrailStaysSound(p: StakingPolicy, tree: Tree<AnyAccount>, txs: seq<Tx>,
                                           inherents: seq<Inherent>, w: Trail<AnyAccount>)
    requires Follows(StakingKind(p), StakingOps(p), tree, txs, inherents, w) && SoundTree(tree) && Valued(txs)
    ensures SoundTree(w.afterPre) && SoundTree(w.afterSenders) && SoundTree(w.afterRecipients) && SoundTree(w.afterPost)
  {
    SpendingOpposed(p);
    ReceivingOpposed(p);
    BothMoving(p);
    EntriesStayPositive(p);
    SideKeepsSound(false, Spending(p), Unspending(p), txs);
    SideKeepsSound(true, Receiving(p), Unreceiving(p), txs);
    TrailPreserves(p, IsSound(), tree, txs, inherents, w);
  }

  /** Committing a block never lists a stake of zero. */
  lemma {:induction false} CommitStaysSound(p: StakingPolicy, tree: Tree<AnyAccount>, txs: seq<Tx>,
                                            inherents: seq<Inherent>)
    requires SoundTree(tree) && Valued(txs) && Commit(StakingKind(p), StakingOps(p), tree, txs, inherents).Success?
    ensures SoundTree(Commit(StakingKind(p), StakingOps(p), tree, txs, inherents).value.0)
  {
    var w := TrailOf(StakingKind(p), StakingOps(p), tree, txs, inherents);
    TrailStaysSound(p, tree, txs, inherents, w);
  }

  // ---------- conservation ----------

  lemma {:induction false} StakingKindOk(p: StakingPolicy)
    ensures KindOk(StakingKind(p)) && StakingKind(p).balance(StakingKind(p).initial) == 0
    ensures forall a :: StakingKind(p).prunable(a) ==> StakingKind(p).balance(a) == 0
    ensures forall b :: StakingKind(p).typeOf(StakingKind(p).basic(b)) == BASIC
    ensures forall b, t :: StakingKind(p).contract(BASIC, b, t).Failure?
  {
  }

  lemma {:induction false} AccountTransfers<T(!new)>(p: StakingPolicy, inner: Op<Contract, T>,
                                                     coins: Op<CoinAccount, T>, amount: T -> int)
    requires Transfers(CoinKind(p.coins), coins, amount)
    requires forall c, x, r :: inner(c, x, r).Success? ==> inner(c, x, r).value.0.balance == c.balance + amount(x)
    ensures Transfers(StakingKind(p), OnAccount(inner, coins), amount)
  {
    var op := OnAccount(inner, coins);
    forall a, x, r | op(a, x, r).Success?
      ensures op(a, x, r).value.0.Balance() == a.Balance() + amount(x)
    {
      OnAccountIs(inner, coins, a, x, r);
      if a.Coins? {
        assert CoinKind(p.coins).balance(coins(a.coins, x, r).value.0) ==
               CoinKind(p.coins).balance(a.coins) + amount(x);
      }
    }
  }

  lemma {:induction false} StakingAccountable(p: StakingPolicy)
    ensures Accountable(StakingKind(p), StakingOps(p))
  {
    var coins := CoinOps(p.coins);
    CoinsAccountable(p.coins);
    StakingKindOk(p);
    AccountTransfers(p, Act(Spending(p)), coins.commitOutgoing, Spent);
    AccountTransfers(p, Act(Receiving(p)), coins.commitIncoming, Received);
    AccountTransfers(p, Slashing(p), coins.commitInherent, Rewarded);
  }

  /** Blocks conserve coins, those of the staking contract included. */
  lemma {:induction false} CommitConservesStakes(p: StakingPolicy, tree: Tree<AnyAccount>, txs: seq<Tx>,
                                                 inherents: seq<Inherent>)
    requires Commit(StakingKind(p), StakingOps(p), tree, txs, inherents).Success?
    ensures Supply(StakingKind(p), Commit(StakingKind(p), StakingOps(p), tree, txs, inherents).value.0) +
            TotalFees(txs) == Supply(StakingKind(p), tree) + Total(Rewarded, inherents)
  {
    StakingAccountable(p);
    CommitConserves(StakingKind(p), StakingOps(p), tree, txs, inherents);
  }

  // ---------- taking back ----------

  /** What a block says about one staker, readable before it is committed. */
  predicate Restorable(p: StakingPolicy, c: Contract, txs: seq<Tx>, a: nat, s: nat) {
    && !JointlyEmptied(EntryOf(c, s), TakesOf(p, txs, a, s))
    && RetiresOnce(EntryOf(c, s), TakesOf(p, txs, a, s), GivesOf(p, txs, a, s), p.height)
  }

  ghost predicate StakesRestorable(p: StakingPolicy, tree: Tree<AnyAccount>, txs: seq<Tx>) {
    forall a, s :: a in tree && tree[a].Staking? ==> Restorable(p, tree[a].contract, txs, a, s)
  }

  /** Contracts are not created in place of the staking contract. */
  ghost predicate CreatesBeside(tree: Tree<AnyAccount>, txs: seq<Tx>) {
    forall t :: t in txs && CreatesContract(t) && t.recipient in tree ==> tree[t.recipient].Coins?
  }

  /** The stake of one staker of the contract at `a` as the block is committed. */
  lemma {:induction false} StakeTrail(p: StakingPolicy, tree: Tree<AnyAccount>, txs: seq<Tx>, inherents: seq<Inherent>,
                                      w: Trail<AnyAccount>, a: nat, c: Contract, s: nat)
    requires Follows(StakingKind(p), StakingOps(p), tree, txs, inherents, w) &&
             Get(StakingKind(p), tree, a) == Staking(c)
    ensures var k := StakingKind(p);
            && Get(k, w.afterPre, a).Staking? && EntryOf(Get(k, w.afterPre, a).contract, s) == EntryOf(c, s)
            && Get(k, w.afterSenders, a).Staking? && Get(k, w.afterRecipients, a).Staking?
    ensures var taken := FoldNew(CommitTaking(p.mature), EntryOf(c, s), TakesOf(p, txs, a, s));
            && taken.Success? && taken.value.0 == EntryOf(Get(StakingKind(p), w.afterSenders, a).contract, s)
            && SameReceipts(TakesOf(p, txs, a, s), Pick(BySender, a, txs, w.senders), taken.value.1)
    ensures var left := EntryOf(Get(StakingKind(p), w.afterSenders, a).contract, s);
            var given := FoldNew(CommitGiving(p.height), left, GivesOf(p, txs, a, s));
            && given.Success? && given.value.0 == EntryOf(Get(StakingKind(p), w.afterRecipients, a).contract, s)
            && SameReceipts(GivesOf(p, txs, a, s), Pick(ByRecipient, a, txs, w.recipients), given.value.1)
  {
    var ops, coins, pre := StakingOps(p), CoinOps(p.coins), Select(inherents, true);
    SpendingOpposed(p);
    ReceivingOpposed(p);
    SlashingKeepsStakes(p);
    InherentsKeepStakes(p, Inherents(ops.commitInherent), Slashing(p), coins.commitInherent, tree, pre,
                        NoReceipts(|pre|), a);
    SideAt(p, Outgoing(ops.commitOutgoing), Spending(p), coins.commitOutgoing, w.afterPre, txs, a, s);
    SideAt(p, Incoming(ops.commitIncoming), Receiving(p), coins.commitIncoming, w.afterSenders, txs, a, s);
  }

  /** No phase turns coins into stake or stake into coins. */
  lemma {:induction false} SortTrail(p: StakingPolicy, tree: Tree<AnyAccount>, txs: seq<Tx>, inherents: seq<Inherent>,
                                     w: Trail<AnyAccount>, a: nat)
    requires Follows(StakingKind(p), StakingOps(p), tree, txs, inherents, w)
    ensures var k := StakingKind(p);
            && (Get(k, w.afterPre, a).Coins? <==> Get(k, tree, a).Coins?)
            && (Get(k, w.afterSenders, a).Coins? <==> Get(k, tree, a).Coins?)
            && (Get(k, w.afterRecipients, a).Coins? <==> Get(k, tree, a).Coins?)
  {
    var ops, coins, pre := StakingOps(p), CoinOps(p.coins), Select(inherents, true);
    SortKept(p, Inherents(ops.commitInherent), Slashing(p), coins.commitInherent, tree, pre, NoReceipts(|pre|), a);
    SortKept(p, Outgoing(ops.commitOutgoing), Act(Spending(p)), coins.commitOutgoing, w.afterPre, txs,
             NoReceipts(|txs|), a);
    SortKept(p, Incoming(ops.commitIncoming), Act(Receiving(p)), coins.commitIncoming, w.afterSenders, txs,
             NoReceipts(|txs|), a);
  }

  predicate IsBasicCoins(a: AnyAccount) {
    a.Coins? && a.coins.Basic?
  }

  /** Whoever has received a transaction is a basic account or the staking contract. */
  lemma {:induction false} CoinRecipientIsBasic(p: StakingPolicy, ph: Phase<AnyAccount, Tx>, tree: Tree<AnyAccount>,
                                                txs: seq<Tx>, rs: seq<Option<Data>>, a: nat)
    requires ph == Incoming(OnAccount(Act(Receiving(p)), CoinOps(p.coins).commitIncoming)) && |rs| == |txs|
    requires ApplyAll(StakingKind(p), ph, tree, txs, rs).Success? && Get(StakingKind(p), tree, a).Coins?
    requires IsBasicCoins(Get(StakingKind(p), tree, a)) || exists x :: x in txs && x.recipient == a
    ensures IsBasicCoins(Get(StakingKind(p), ApplyAll(StakingKind(p), ph, tree, txs, rs).value.0, a))
    decreases |txs|
  {
    if txs != [] {
      var k, b := StakingKind(p), txs[0].recipient;
      var account := Get(k, tree, b);
      OnAccountIs(Act(Receiving(p)), CoinOps(p.coins).commitIncoming, account, txs[0], rs[0]);
      GetPut(k, tree, b, ph.op(account, txs[0], rs[0]).value.0, a);
      assert txs == [txs[0]] + txs[1..];
      CoinRecipientIsBasic(p, ph, Apply(k, ph, tree, txs[0], rs[0]).value.0, txs[1..], rs[1..], a);
    }
  }

  lemma {:induction false} CreationsAreBasic(p: StakingPolicy, tree: Tree<AnyAccount>, txs: seq<Tx>,
                                             inherents: seq<Inherent>, w: Trail<AnyAccount>)
    requires Follows(StakingKind(p), StakingOps(p), tree, txs, inherents, w) && CreatesBeside(tree, txs)
    ensures BasicCreations(StakingKind(p), w.afterRecipients, txs)
  {
    var k := StakingKind(p);
    forall t | t in txs && CreatesContract(t)
      ensures IsBasic(k, Get(k, w.afterRecipients, t.recipient))
    {
      SortTrail(p, tree, txs, inherents, w, t.recipient);
      CoinRecipientIsBasic(p, Incoming(StakingOps(p).commitIncoming), w.afterSenders, txs, NoReceipts(|txs|),
                           t.recipient);
    }
  }

  /** What has to hold in each phase follows from what the block says about each staker. */
  lemma {:induction false} PhasesRestorable(p: StakingPolicy, tree: Tree<AnyAccount>, txs: seq<Tx>,
                                            inherents: seq<Inherent>, w: Trail<AnyAccount>)
    requires Follows(StakingKind(p), StakingOps(p), tree, txs, inherents, w) && SoundTree(tree) && Valued(txs)
    requires StakesRestorable(p, tree, txs)
    ensures NoneEmptiedIn(p, w.afterPre, txs) && NoneRetiredTwiceIn(p, w.afterSenders, txs)
  {
    forall a | a in w.afterPre && w.afterPre[a].Staking?
      ensures NoneEmptied(p, w.afterPre[a].contract, txs, a)
    {
      SortTrail(p, tree, txs, inherents, w, a);
      forall s
        ensures !JointlyEmptied(EntryOf(w.afterPre[a].contract, s), TakesOf(p, txs, a, s))
      {
        assert Restorable(p, tree[a].contract, txs, a, s);
        StakeTrail(p, tree, txs, inherents, w, a, tree[a].contract, s);
      }
    }
    forall a | a in w.afterSenders && w.afterSenders[a].Staking?
      ensures NoneRetiredTwice(p, w.afterSenders[a].contract, txs, a)
    {
      SortTrail(p, tree, txs, inherents, w, a);
      forall s
        ensures RetiredOnceOnto(EntryOf(w.afterSenders[a].contract, s), GivesOf(p, txs, a, s), p.height)
      {
        assert Restorable(p, tree[a].contract, txs, a, s);
        StakeTrail(p, tree, txs, inherents, w, a, tree[a].contract, s);
        TakesPositive(p, txs, a, s);
        TakenIs(p.mature, EntryOf(tree[a].contract, s), TakesOf(p, txs, a, s));
      }
    }
  }

  lemma {:induction false} RestorableReverts(p: StakingPolicy, tree: Tree<AnyAccount>, txs: seq<Tx>,
                                             inherents: seq<Inherent>, w: Trail<AnyAccount>)
    requires Normal(StakingKind(p), tree) && Follows(StakingKind(p), StakingOps(p), tree, txs, inherents, w)
    requires SoundTree(tree) && Valued(txs) && Traceable(w)
    requires DistinctCreations(txs) && CreatesBeside(tree, txs) && StakesRestorable(p, tree, txs)
    ensures Retraced(StakingKind(p), StakingOps(p), txs, inherents, w) == Success(tree)
  {
    var k, ops := StakingKind(p), StakingOps(p);
    StakingKindOk(p);
    CreationsAreBasic(p, tree, txs, inherents, w);
    RetracesToRecipients(k, ops, tree, txs, inherents, w);
    InherentsUndone(p, tree, Select(inherents, true));
    InherentsUndone(p, w.afterPruning, Select(inherents, false));
    TrailStaysSound(p, tree, txs, inherents, w);
    PhasesRestorable(p, tree, txs, inherents, w);
    SendersUndoneIff(p, w.afterPre, txs);
    RecipientsUndoneIff(p, w.afterSenders, txs);
  }

  // ---------- the converse ----------

  /** Taking back a creation leaves a basic account. */
  lemma {:induction false} TakenBackIsCoins(p: StakingPolicy, tree: Tree<AnyAccount>, txs: seq<Tx>)
    requires RevertContracts(StakingKind(p), tree, txs).Success?
    ensures var k, t := StakingKind(p), RevertContracts(StakingKind(p), tree, txs).value;
            && (forall a :: Get(k, tree, a).Coins? ==> Get(k, t, a).Coins?)
            && (forall x :: x in txs && CreatesContract(x) ==> Get(k, t, x.recipient).Coins?)
    decreases |txs|
  {
    if txs != [] {
      var k, b := StakingKind(p), txs[0].recipient;
      assert txs == [txs[0]] + txs[1..];
      if CreatesContract(txs[0]) {
        var next := Put(k, tree, b, k.basic(k.balance(Get(k, tree, b))));
        assert Get(k, next, b).Coins?;
        TakenBackIsCoins(p, next, txs[1..]);
      } else {
        TakenBackIsCoins(p, tree, txs[1..]);
      }
    }
  }

  /** The trees a revert passes through, from the contracts on. */
  datatype Way = Way(contracts: Tree<AnyAccount>, recipients: Tree<AnyAccount>, senders: Tree<AnyAccount>)

  ghost predicate LeadsTo(p: StakingPolicy, txs: seq<Tx>, pre: seq<Inherent>, w: Trail<AnyAccount>, v: Way,
                          tree: Tree<AnyAccount>) {
    var k, ops := StakingKind(p), StakingOps(p);
    && |w.recipients| == |w.senders| == |txs| && |w.pre| == |pre|
    && Reaches(k, Incoming(ops.revertIncoming), v.contracts, txs, w.recipients, v.recipients)
    && Reaches(k, Outgoing(ops.revertOutgoing), v.recipients, txs, w.senders, v.senders)
    && Reaches(k, Inherents(ops.revertInherent), v.senders, pre, w.pre, tree)
  }

  ghost predicate Reaches<T>(k: Kind<AnyAccount>, ph: Phase<AnyAccount, T>, start: Tree<AnyAccount>, xs: seq<T>,
                             rs: seq<Option<Data>>, end: Tree<AnyAccount>)
    requires |rs| == |xs|
  {
    ApplyAll(k, ph, start, xs, rs).Success? && ApplyAll(k, ph, start, xs, rs).value.0 == end
  }

  /** A revert that succeeds goes such a way, and creates nothing twice. */
  lemma {:induction false} WayBack(p: StakingPolicy, tree: Tree<AnyAccount>, txs: seq<Tx>, inherents: seq<Inherent>,
                                   w: Trail<AnyAccount>) returns (v: Way)
    requires Follows(StakingKind(p), StakingOps(p), tree, txs, inherents, w) && Traceable(w)
    requires Retraced(StakingKind(p), StakingOps(p), txs, inherents, w) == Success(tree)
    ensures DistinctCreations(txs) && LeadsTo(p, txs, Select(inherents, true), w, v, tree)
    ensures forall x :: x in txs && CreatesContract(x) ==> Get(StakingKind(p), v.contracts, x.recipient).Coins?
    ensures var k, post := StakingKind(p), Select(inherents, false);
            var r6 := ApplyAll(k, Inherents(StakingOps(p).revertInherent), w.afterPost, post, w.post);
            r6.Success? && RevertContracts(k, RestoreAccounts(k, r6.value.0, w.pruned), txs) == Success(v.contracts)
  {
    var k, ops, pre := StakingKind(p), StakingOps(p), Select(inherents, true);
    var r6 := ApplyAll(k, Inherents(ops.revertInherent), w.afterPost, Select(inherents, false), w.post).value;
    var restored := RestoreAccounts(k, r6.0, w.pruned);
    var t4 := RevertContracts(k, restored, txs).value;
    var r3 := ApplyAll(k, Incoming(ops.revertIncoming), t4, txs, w.recipients).value;
    var r2 := ApplyAll(k, Outgoing(ops.revertOutgoing), r3.0, txs, w.senders).value;
    v := Way(t4, r3.0, r2.0);
    StakingKindOk(p);
    CreationTypes(k, BASIC, w.afterRecipients, txs);
    RevertedOnce(k, BASIC, restored, txs);
    TakenBackIsCoins(p, restored, txs);
  }

  lemma {:induction false} SortWay(p: StakingPolicy, txs: seq<Tx>, pre: seq<Inherent>, w: Trail<AnyAccount>, v: Way,
                                   tree: Tree<AnyAccount>, a: nat)
    requires LeadsTo(p, txs, pre, w, v, tree)
    ensures Get(StakingKind(p), tree, a).Coins? <==> Get(StakingKind(p), v.contracts, a).Coins?
  {
    var ops, coins := StakingOps(p), CoinOps(p.coins);
    SortKept(p, Incoming(ops.revertIncoming), Act(Unreceiving(p)), coins.revertIncoming, v.contracts, txs, w.recipients,
             a);
    SortKept(p, Outgoing(ops.revertOutgoing), Act(Unspending(p)), coins.revertOutgoing, v.recipients, txs, w.senders,
             a);
    SortKept(p, Inherents(ops.revertInherent), Unslashing(p), coins.revertInherent, v.senders, pre, w.pre, a);
  }

  /** The stake of one staker on the way back. */
  lemma {:induction false} StakeWay(p: StakingPolicy, txs: seq<Tx>, pre: seq<Inherent>, w: Trail<AnyAccount>, v: Way,
                                    tree: Tree<AnyAccount>, a: nat, s: nat, givers: seq<Option<Data>>,
                                    takers: seq<Option<Data>>) returns (f: Entry)
    requires LeadsTo(p, txs, pre, w, v, tree) && Get(StakingKind(p), v.contracts, a).Staking?
    requires SameReceipts(GivesOf(p, txs, a, s), Pick(ByRecipient, a, txs, w.recipients), givers)
    requires SameReceipts(TakesOf(p, txs, a, s), Pick(BySender, a, txs, w.senders), takers)
    ensures var back := Fold(RevertGiving, EntryOf(Get(StakingKind(p), v.contracts, a).contract, s),
                             GivesOf(p, txs, a, s), givers);
            back.Success? && back.value.0 == f
    ensures var back := Fold(RevertTaking, f, TakesOf(p, txs, a, s), takers);
            && Get(StakingKind(p), tree, a).Staking?
            && back.Success? && back.value.0 == EntryOf(Get(StakingKind(p), tree, a).contract, s)
  {
    var ops, coins := StakingOps(p), CoinOps(p.coins);
    SpendingOpposed(p);
    ReceivingOpposed(p);
    SlashingKeepsStakes(p);
    SideBackAt(p, Incoming(ops.revertIncoming), Unreceiving(p), coins.revertIncoming, v.contracts, txs, w.recipients, a,
               s, givers);
    SideBackAt(p, Outgoing(ops.revertOutgoing), Unspending(p), coins.revertOutgoing, v.recipients, txs, w.senders, a, s,
               takers);
    InherentsKeepStakes(p, Inherents(ops.revertInherent), Unslashing(p), coins.revertInherent, v.senders, pre, w.pre,
                        a);
    f := EntryOf(Get(StakingKind(p), v.recipients, a).contract, s);
  }

  lemma {:induction false} CreatedBeside(p: StakingPolicy, tree: Tree<AnyAccount>, txs: seq<Tx>, pre: seq<Inherent>,
                                         w: Trail<AnyAccount>, v: Way)
    requires LeadsTo(p, txs, pre, w, v, tree)
    requires forall x :: x in txs && CreatesContract(x) ==> Get(StakingKind(p), v.contracts, x.recipient).Coins?
    ensures CreatesBeside(tree, txs)
  {
    forall t | t in txs && CreatesContract(t) && t.recipient in tree
      ensures tree[t.recipient].Coins?
    {
      SortWay(p, txs, pre, w, v, tree, t.recipient);
    }
  }

  /** Up to the recipients, a revert meets the trees of the commit again. */
  lemma {:induction false} WayMeetsTrail(p: StakingPolicy, tree: Tree<AnyAccount>, txs: seq<Tx>,
                                         inherents: seq<Inherent>, w: Trail<AnyAccount>)
    requires Normal(StakingKind(p), tree) && Follows(StakingKind(p), StakingOps(p), tree, txs, inherents, w)
    requires DistinctCreations(txs) && CreatesBeside(tree, txs)
    ensures forall r :: r in w.pruned ==> r.PrunedAccount?
    ensures var k, post := StakingKind(p), Select(inherents, false);
            var r6 := ApplyAll(k, Inherents(StakingOps(p).revertInherent), w.afterPost, post, w.post);
            r6.Success? ==>
            RevertContracts(k, RestoreAccounts(k, r6.value.0, w.pruned), txs) == Success(w.afterRecipients)
  {
    StakingKindOk(p);
    CreationsAreBasic(p, tree, txs, inherents, w);
    RetracesToRecipients(StakingKind(p), StakingOps(p), tree, txs, inherents, w);
    InherentsUndone(p, w.afterPruning, Select(inherents, false));
  }

  lemma {:induction false} RevertedIsRestorableAt(p: StakingPolicy, tree: Tree<AnyAccount>, txs: seq<Tx>,
                                                  inherents: seq<Inherent>, w: Trail<AnyAccount>, v: Way, a: nat,
                                                  c: Contract, s: nat)
    requires Follows(StakingKind(p), StakingOps(p), tree, txs, inherents, w) && Valued(txs)
    requires LeadsTo(p, txs, Select(inherents, true), w, v, tree) && v.contracts == w.afterRecipients
    requires Get(StakingKind(p), tree, a) == Staking(c) && Sound(c)
    ensures Restorable(p, c, txs, a, s)
  {
    StakeTrail(p, tree, txs, inherents, w, a, c, s);
    var e, takes, gives := EntryOf(c, s), TakesOf(p, txs, a, s), GivesOf(p, txs, a, s);
    var left := FoldNew(CommitTaking(p.mature), e, takes).value.0;
    var takers, givers := FoldNew(CommitTaking(p.mature), e, takes).value.1,
                          FoldNew(CommitGiving(p.height), left, gives).value.1;
    var f := StakeWay(p, txs, Select(inherents, true), w, v, tree, a, s, givers, takers);
    assert GivenBack(p.height, left, gives, f) && TakenBack(p.mature, e, takes, f, e);
    TakesPositive(p, txs, a, s);
    StakeRestoredIff(p.mature, p.height, e, takes, left, gives);
  }

  lemma {:induction false} RevertedIsRestorable(p: StakingPolicy, tree: Tree<AnyAccount>, txs: seq<Tx>,
                                                inherents: seq<Inherent>, w: Trail<AnyAccount>)
    requires Normal(StakingKind(p), tree) && Follows(StakingKind(p), StakingOps(p), tree, txs, inherents, w)
    requires SoundTree(tree) && Valued(txs) && Traceable(w)
    requires Retraced(StakingKind(p), StakingOps(p), txs, inherents, w) == Success(tree)
    ensures DistinctCreations(txs) && CreatesBeside(tree, txs) && StakesRestorable(p, tree, txs)
  {
    var v := WayBack(p, tree, txs, inherents, w);
    CreatedBeside(p, tree, txs, Select(inherents, true), w, v);
    WayMeetsTrail(p, tree, txs, inherents, w);
    forall a, s | a in tree && tree[a].Staking?
      ensures Restorable(p, tree[a].contract, txs, a, s)
    {
      RevertedIsRestorableAt(p, tree, txs, inherents, w, v, a, tree[a].contract, s);
    }
  }

  /**
   * A committed block can be taken back, and then restores the accounts exactly, if and only if no
   * two of its transactions create a contract at the same address, none creates one in place of the
   * staking contract, no inactive stake is emptied by two or more of its transactions together, and
   * no staker retires stake twice, unless what is left from before had been retired at that height.
   */
  lemma {:induction false} RevertRestoresStakesIff(p: StakingPolicy, tree: Tree<AnyAccount>, txs: seq<Tx>,
                                                   inherents: seq<Inherent>)
    requires Normal(StakingKind(p), tree) && SoundTree(tree) && Valued(txs) && |txs| <= U16 && |inherents| <= U16
    requires Commit(StakingKind(p), StakingOps(p), tree, txs, inherents).Success?
    ensures var (t, receipts) := Commit(StakingKind(p), StakingOps(p), tree, txs, inherents).value;
            Revert(StakingKind(p), StakingOps(p), t, txs, inherents, receipts) == Success(tree) <==>
            DistinctCreations(txs) && CreatesBeside(tree, txs) && StakesRestorable(p, tree, txs)
  {
    var k, ops := StakingKind(p), StakingOps(p);
    var w := TrailOf(k, ops, tree, txs, inherents);
    ShortIsTraceable(k, ops, tree, txs, inherents, w);
    RevertRetraces(k, ops, tree, txs, inherents, w);
    if Retraced(k, ops, txs, inherents, w) == Success(tree) {
      RevertedIsRestorable(p, tree, txs, inherents, w);
    }
    if DistinctCreations(txs) && CreatesBeside(tree, txs) && StakesRestorable(p, tree, txs) {
      RestorableReverts(p, tree, txs, inherents, w);
    }
  }
}
