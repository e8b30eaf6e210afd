/** When a block that touches the staking contract can be taken back. */
module StakingReverts {
  import opened Prelude
  import opened Transactions
  import opened Accounts
  import opened AccountsLocal
  import opened AccountsCoins
  import opened StakeEntries
  import opened StakingContracts
  import opened StakingViews
  import opened StakingParts
  import opened StakingPhases

  // ---------- what a block does to one staker ----------

  /** The moves of a block on the inactive stake of staker `s` of the contract at `a`, senders' side. */
  function TakesOf(p: StakingPolicy, txs: seq<Tx>, a: nat, s: nat): seq<Move> {
    MovesOf(Spending(p).effect, ItemsAt(BySender, a, txs), s)
  }

  /** The same, recipients' side. */
  function GivesOf(p: StakingPolicy, txs: seq<Tx>, a: nat, s: nat): seq<Move> {
    MovesOf(Receiving(p).effect, ItemsAt(ByRecipient, a, txs), s)
  }

  /** No stake of zero is listed anywhere. */
  ghost predicate Sound(c: Contract) {
    Listed(c.validators) && forall s :: s in c.inactive ==> c.inactive[s].balance > 0
  }

  ghost predicate SoundTree(tree: Tree<AnyAccount>) {
    forall a :: a in tree && tree[a].Staking? ==> Sound(tree[a].contract)
  }

  lemma {:induction false} ItemsAmong<T>(address: T -> nat, a: nat, xs: seq<T>)
    ensures forall x :: x in ItemsAt(address, a, xs) ==> x in xs
    decreases |xs|
  {
    if xs != [] {
      ItemsAmong(address, a, xs[1..]);
      assert ItemsAt(address, a, xs) == (if address(xs[0]) == a then [xs[0]] else []) + ItemsAt(address, a, xs[1..]);
    }
  }

  lemma {:induction false} ItemsValued(address: Tx -> nat, a: nat, txs: seq<Tx>)
    requires Valued(txs)
    ensures Valued(ItemsAt(address, a, txs))
  {
    ItemsAmong(address, a, txs);
  }

  ghost predicate Moving(effect: Tx -> Result<Effect, AccountError>) {
    forall t: Tx :: t.value > 0 && effect(t).Success? && !effect(t).value.move.Keep? ==> effect(t).value.move.amount > 0
  }

  lemma {:induction false} BothMoving(p: StakingPolicy)
    ensures Moving(Spending(p).effect) && Moving(Receiving(p).effect)
  {
  }

  lemma {:induction false} MovesPositive(effect: Tx -> Result<Effect, AccountError>, xs: seq<Tx>, s: nat)
    requires Valued(xs) && Moving(effect)
    ensures Positive(MovesOf(effect, xs, s))
    decreases |xs|
  {
    if xs != [] {
      assert xs[0] in xs && forall t :: t in xs[1..] ==> t in xs;
      MovesPositive(effect, xs[1..], s);
    }
  }

  lemma {:induction false} TakesPositive(p: StakingPolicy, txs: seq<Tx>, a: nat, s: nat)
    requires Valued(txs)
    ensures Positive(TakesOf(p, txs, a, s)) && Positive(GivesOf(p, txs, a, s))
  {
    BothMoving(p);
    ItemsValued(BySender, a, txs);
    ItemsValued(ByRecipient, a, txs);
    MovesPositive(Spending(p).effect, ItemsAt(BySender, a, txs), s);
    MovesPositive(Receiving(p).effect, ItemsAt(ByRecipient, a, txs), s);
  }

  // ---------- one phase ----------

  /** Withdrawals are undone unless they jointly emptied the stake. */
  lemma {:induction false} TakingUndoneIff(mature: nat -> bool, e: Entry, ms: seq<Move>)
    requires FoldNew(CommitTaking(mature), e, ms).Success? && Positive(ms) && (e.Some? ==> e.value.balance > 0)
    ensures Undone(CommitTaking(mature), RevertTaking, e, ms) <==> !JointlyEmptied(e, ms)
  {
    TakenIs(mature, e, ms);
    if e.None? || Taken(ms) == e.value.balance {
      TakenBackFromNone(mature, e, ms, e);
    } else {
      TakenBackOnto(mature, e.value, ms, e.value.retireTime, e);
    }
  }

  /** At most one retirement, unless the stake there already bears the height of the block. */
  predicate RetiredOnceOnto(left: Entry, gives: seq<Move>, height: nat) {
    GiveCount(gives) <= 1 || (left.Some? && left.value.retireTime == height)
  }

  lemma {:induction false} GivingUndoneIff(height: nat, e: Entry, ms: seq<Move>)
    requires FoldNew(CommitGiving(height), e, ms).Success? && Positive(ms) && (e.Some? ==> e.value.balance > 0)
    ensures Undone(CommitGiving(height), RevertGiving, e, ms) <==> RetiredOnceOnto(e, ms, height)
  {
    GivenBackIs(height, e, ms, e);
  }

  /** One side of the transactions is undone on a contract exactly if it is for every staker. */
  lemma {:induction false} SideUndoneIff(adding: bool, d: Side, u: Side, c: Contract, xs: seq<Tx>)
    requires Opposed(adding, d, u) && Idle(d.entry) && Idle(u.entry) && Valued(xs) && Listed(c.validators)
    requires FoldNew(Act(d), c, xs).Success?
    ensures Undone(Act(d), Act(u), c, xs) <==> forall s :: EntryUndone(d, u, c, xs, s)
  {
    PartsAreUndone(adding, d, u, c, xs);
    ContractUndoneIff(d, u, c, xs, FoldNew(Act(d), c, xs).value.0, FoldNew(Act(d), c, xs).value.1);
  }

  /** What keeps the senders' side of a block from being taken back. */
  ghost predicate NoneEmptied(p: StakingPolicy, c: Contract, txs: seq<Tx>, a: nat) {
    forall s :: !JointlyEmptied(EntryOf(c, s), TakesOf(p, txs, a, s))
  }

  lemma {:induction false} SendersUndoneAt(p: StakingPolicy, tree: Tree<AnyAccount>, txs: seq<Tx>, a: nat, c: Contract)
    requires Get(StakingKind(p), tree, a) == Staking(c) && Sound(c) && Valued(txs)
    requires ApplyAll(StakingKind(p), Outgoing(StakingOps(p).commitOutgoing), tree, txs, NoReceipts(|txs|)).Success?
    ensures StakingUndone(p, BySender, Act(Spending(p)), Act(Unspending(p)), tree, txs, a) <==>
            NoneEmptied(p, c, txs, a)
  {
    var d, u, items := Spending(p), Unspending(p), ItemsAt(BySender, a, txs);
    SpendingOpposed(p);
    ItemsValued(BySender, a, txs);
    RunAtStaking(p, Outgoing(StakingOps(p).commitOutgoing), Act(d), CoinOps(p.coins).commitOutgoing, tree, txs,
                 NoReceipts(|txs|), a);
    PickNone(BySender, a, txs);
    SideUndoneIff(false, d, u, c, items);
    forall s
      ensures EntryUndone(d, u, c, items, s) <==> !JointlyEmptied(EntryOf(c, s), TakesOf(p, txs, a, s))
    {
      RunParts(d, c, items, NoReceipts(|items|), s);
      TakesPositive(p, txs, a, s);
      TakingUndoneIff(p.mature, EntryOf(c, s), TakesOf(p, txs, a, s));
    }
  }

  ghost predicate NoneRetiredTwice(p: StakingPolicy, c: Contract, txs: seq<Tx>, a: nat) {
    forall s :: RetiredOnceOnto(EntryOf(c, s), GivesOf(p, txs, a, s), p.height)
  }

  lemma {:induction false} RecipientsUndoneAt(p: StakingPolicy, tree: Tree<AnyAccount>, txs: seq<Tx>, a: nat,
                                              c: Contract)
    requires Get(StakingKind(p), tree, a) == Staking(c) && Sound(c) && Valued(txs)
    requires ApplyAll(StakingKind(p), Incoming(StakingOps(p).commitIncoming), tree, txs, NoReceipts(|txs|)).Success?
    ensures StakingUndone(p, ByRecipient, Act(Receiving(p)), Act(Unreceiving(p)), tree, txs, a) <==>
            NoneRetiredTwice(p, c, txs, a)
  {
    var d, u, items := Receiving(p), Unreceiving(p), ItemsAt(ByRecipient, a, txs);
    ReceivingOpposed(p);
    ItemsValued(ByRecipient, a, txs);
    RunAtStaking(p, Incoming(StakingOps(p).commitIncoming), Act(d), CoinOps(p.coins).commitIncoming, tree, txs,
                 NoReceipts(|txs|), a);
    PickNone(ByRecipient, a, txs);
    SideUndoneIff(true, d, u, c, items);
    forall s
      ensures EntryUndone(d, u, c, items, s) <==> RetiredOnceOnto(EntryOf(c, s), GivesOf(p, txs, a, s), p.height)
    {
      RunParts(d, c, items, NoReceipts(|items|), s);
      TakesPositive(p, txs, a, s);
      GivingUndoneIff(p.height, EntryOf(c, s), GivesOf(p, txs, a, s));
    }
  }

  ghost predicate NoneEmptiedIn(p: StakingPolicy, tree: Tree<AnyAccount>, txs: seq<Tx>) {
    forall a :: a in tree && tree[a].Staking? ==> NoneEmptied(p, tree[a].contract, txs, a)
  }

  ghost predicate NoneRetiredTwiceIn(p: StakingPolicy, tree: Tree<AnyAccount>, txs: seq<Tx>) {
    forall a :: a in tree && tree[a].Staking? ==> NoneRetiredTwice(p, tree[a].contract, txs, a)
  }

  /**
   * Taking back the senders' side of a block, front to back, restores the accounts exactly if no
   * inactive stake was emptied by two or more of its withdrawals together.
   */
  lemma {:induction false} SendersUndoneIff(p: StakingPolicy, tree: Tree<AnyAccount>, txs: seq<Tx>)
    requires Normal(StakingKind(p), tree) && SoundTree(tree) && Valued(txs)
    requires ApplyAll(StakingKind(p), Outgoing(StakingOps(p).commitOutgoing), tree, txs, NoReceipts(|txs|)).Success?
    ensures NoneEmptiedIn(p, tree, txs) <==>
            PhaseUndone(StakingKind(p), Outgoing(StakingOps(p).commitOutgoing), Outgoing(StakingOps(p).revertOutgoing),
                        tree, txs)
  {
    var coins, ops := CoinOps(p.coins), StakingOps(p);
    OutgoingOk(p.coins);
    StakingPhaseUndoneIff(p, Outgoing(ops.commitOutgoing), Outgoing(ops.revertOutgoing), Act(Spending(p)),
                          Act(Unspending(p)), coins.commitOutgoing, coins.revertOutgoing, tree, txs);
    forall a | a in tree && tree[a].Staking?
      ensures StakingUndone(p, BySender, Act(Spending(p)), Act(Unspending(p)), tree, txs, a) <==>
              NoneEmptied(p, tree[a].contract, txs, a)
    {
      SendersUndoneAt(p, tree, txs, a, tree[a].contract);
    }
  }

  /** The recipients' side is undone exactly if no stake is retired twice onto one of another height. */
  lemma {:induction false} RecipientsUndoneIff(p: StakingPolicy, tree: Tree<AnyAccount>, txs: seq<Tx>)
    requires Normal(StakingKind(p), tree) && SoundTree(tree) && Valued(txs)
    requires ApplyAll(StakingKind(p), Incoming(StakingOps(p).commitIncoming), tree, txs, NoReceipts(|txs|)).Success?
    ensures NoneRetiredTwiceIn(p, tree, txs) <==>
            PhaseUndone(StakingKind(p), Incoming(StakingOps(p).commitIncoming), Incoming(StakingOps(p).revertIncoming),
                        tree, txs)
  {
    var coins, ops := CoinOps(p.coins), StakingOps(p);
    IncomingOk(p.coins);
    StakingPhaseUndoneIff(p, Incoming(ops.commitIncoming), Incoming(ops.revertIncoming), Act(Receiving(p)),
                          Act(Unreceiving(p)), coins.commitIncoming, coins.revertIncoming, tree, txs);
    forall a | a in tree && tree[a].Staking?
      ensures StakingUndone(p, ByRecipient, Act(Receiving(p)), Act(Unreceiving(p)), tree, txs, a) <==>
              NoneRetiredTwice(p, tree[a].contract, txs, a)
    {
      RecipientsUndoneAt(p, tree, txs, a, tree[a].contract);
    }
  }

  // ---------- the stakes of a committed block ----------

  ghost predicate KeepsStakes<T(!new)>(inner: Op<Contract, T>) {
    forall c, x, r :: inner(c, x, r).Success? ==> inner(c, x, r).value.0.inactive == c.inactive
  }

  lemma {:induction false} StakesKept<T(!new)>(inner: Op<Contract, T>, c: Contract, xs: seq<T>, rs: seq<Option<Data>>)
    requires KeepsStakes(inner) && |rs| == |xs| && Fold(inner, c, xs, rs).Success?
    ensures Fold(inner, c, xs, rs).value.0.inactive == c.inactive
    decreases |xs|
  {
    if xs != [] {
      FoldHead(inner, c, xs, rs, inner(c, xs[0], rs[0]));
      StakesKept(inner, inner(c, xs[0], rs[0]).value.0, xs[1..], rs[1..]);
    }
  }

  /** Slashes, and taking them back, leave inactive stake alone. */
  lemma {:induction false} InherentsKeepStakes(p: StakingPolicy, ph: Phase<AnyAccount, Inherent>,
                                               inner: Op<Contract, Inherent>, coins: Op<CoinAccount, Inherent>,
                                               tree: Tree<AnyAccount>, xs: seq<Inherent>, rs: seq<Option<Data>>, a: nat)
    requires ph.op == OnAccount(inner, coins) && KeepsStakes(inner) && Get(StakingKind(p), tree, a).Staking?
    requires |rs| == |xs| && ApplyAll(StakingKind(p), ph, tree, xs, rs).Success?
    ensures var t := ApplyAll(StakingKind(p), ph, tree, xs, rs).value.0;
            && Get(StakingKind(p), t, a).Staking?
            && Get(StakingKind(p), t, a).contract.inactive == Get(StakingKind(p), tree, a).contract.inactive
  {
    RunAtStaking(p, ph, inner, coins, tree, xs, rs, a);
    PickSize(ph.address, a, xs, rs);
    StakesKept(inner, Get(StakingKind(p), tree, a).contract, ItemsAt(ph.address, a, xs), Pick(ph.address, a, xs, rs));
  }

  lemma {:induction false} SlashingKeepsStakes(p: StakingPolicy)
    ensures KeepsStakes(Slashing(p)) && KeepsStakes(Unslashing(p))
  {
  }

  /** One side of the transactions of a block, seen from one staker. */
  lemma {:induction false} SideAt(p: StakingPolicy, ph: Phase<AnyAccount, Tx>, d: Side, coins: Op<CoinAccount, Tx>,
                                  tree: Tree<AnyAccount>, txs: seq<Tx>, a: nat, s: nat)
    requires ph.op == OnAccount(Act(d), coins) && Idle(d.entry) && Get(StakingKind(p), tree, a).Staking?
    requires ApplyAll(StakingKind(p), ph, tree, txs, NoReceipts(|txs|)).Success?
    ensures var (t, rs) := ApplyAll(StakingKind(p), ph, tree, txs, NoReceipts(|txs|)).value;
            var ms := MovesOf(d.effect, ItemsAt(ph.address, a, txs), s);
            var run := FoldNew(d.entry, EntryOf(Get(StakingKind(p), tree, a).contract, s), ms);
            && Get(StakingKind(p), t, a).Staking? && run.Success?
            && run.value.0 == EntryOf(Get(StakingKind(p), t, a).contract, s)
            && SameReceipts(ms, Pick(ph.address, a, txs, rs), run.value.1)
  {
    var c, items := Get(StakingKind(p), tree, a).contract, ItemsAt(ph.address, a, txs);
    RunAtStaking(p, ph, Act(d), coins, tree, txs, NoReceipts(|txs|), a);
    PickNone(ph.address, a, txs);
    RunParts(d, c, items, NoReceipts(|items|), s);
  }

  /** Taking that side back, seen from one staker. */
  lemma {:induction false} SideBackAt(p: StakingPolicy, undo: Phase<AnyAccount, Tx>, u: Side,
                                      coins: Op<CoinAccount, Tx>,
                                      tree: Tree<AnyAccount>, txs: seq<Tx>, rs: seq<Option<Data>>, a: nat, s: nat,
                                      qs: seq<Option<Data>>)
    requires undo.op == OnAccount(Act(u), coins) && Idle(u.entry) && Get(StakingKind(p), tree, a).Staking?
    requires |rs| == |txs| && ApplyAll(StakingKind(p), undo, tree, txs, rs).Success?
    requires SameReceipts(MovesOf(u.effect, ItemsAt(undo.address, a, txs), s), Pick(undo.address, a, txs, rs), qs)
    ensures var t := ApplyAll(StakingKind(p), undo, tree, txs, rs).value.0;
            var ms := MovesOf(u.effect, ItemsAt(undo.address, a, txs), s);
            var run := Fold(u.entry, EntryOf(Get(StakingKind(p), tree, a).contract, s), ms, qs);
            && Get(StakingKind(p), t, a).Staking? && run.Success?
            && run.value.0 == EntryOf(Get(StakingKind(p), t, a).contract, s)
  {
    var c, items := Get(StakingKind(p), tree, a).contract, ItemsAt(undo.address, a, txs);
    RunAtStaking(p, undo, Act(u), coins, tree, txs, rs, a);
    PickSize(undo.address, a, txs, rs);
    RunParts(u, c, items, Pick(undo.address, a, txs, rs), s);
    EntryIgnores(u.entry, EntryOf(c, s), MovesOf(u.effect, items, s), Pick(undo.address, a, txs, rs), qs);
  }
}
