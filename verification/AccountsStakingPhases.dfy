/** The phases of a block, account by account, when one of the accounts is the staking contract. */
module StakingPhases {
  import opened Prelude
  import opened Accounts
  import opened AccountsLocal
  import opened AccountsRevert
  import opened AccountsCoins
  import opened StakingContracts
  import opened StakingParts

  type AnyAccount = StakingContracts.Account
  type CoinAccount = AccountsCoins.Account

  // ---------- one account ----------

  /** Every item asks for the staking contract, or for no type. */
  ghost predicate ForStaking<T>(required: T -> Option<nat>, xs: seq<T>) {
    forall x :: x in xs ==> required(x).None? || required(x).value == STAKING
  }

  lemma {:induction false} ThroughStaking<T(!new)>(p: StakingPolicy, ph: Phase<AnyAccount, T>, inner: Op<Contract, T>,
                                                   coins: Op<CoinAccount, T>, xs: seq<T>)
    requires ph.op == OnAccount(inner, coins) && ForStaking(ph.required, xs)
    ensures ActsThrough(InStaking, Checked(StakingKind(p), ph), inner, xs)
  {
  }

  lemma {:induction false} OnAccountIs<T(!new)>(inner: Op<Contract, T>, coins: Op<CoinAccount, T>, a: AnyAccount, x: T,
                                                r: Option<Data>)
    ensures OnAccount(inner, coins)(a, x, r) ==
            if a.Coins? then Lifted(InCoins, coins(a.coins, x, r)) else Lifted(InStaking, inner(a.contract, x, r))
  {
  }

  /** Items that act on the staking contract ask for it. */
  lemma {:induction false} ItemsForStaking<T(!new)>(p: StakingPolicy, ph: Phase<AnyAccount, T>, inner: Op<Contract, T>,
                                                    coins: Op<CoinAccount, T>, c: Contract, xs: seq<T>,
                                                    receipts: seq<Option<Data>>)
    requires ph.op == OnAccount(inner, coins) && |receipts| == |xs|
    requires Fold(Checked(StakingKind(p), ph), Staking(c), xs, receipts).Success?
    ensures ForStaking(ph.required, xs)
    decreases |xs|
  {
    if xs != [] {
      var op := Checked(StakingKind(p), ph);
      FoldHead(op, Staking(c), xs, receipts, op(Staking(c), xs[0], receipts[0]));
      OnAccountIs(inner, coins, Staking(c), xs[0], receipts[0]);
      ItemsForStaking(p, ph, inner, coins, inner(c, xs[0], receipts[0]).value.0, xs[1..], receipts[1..]);
      assert xs == [xs[0]] + xs[1..];
    }
  }

  /** A phase, seen from the staking contract. */
  lemma {:induction false} RunAtStaking<T(!new)>(p: StakingPolicy, ph: Phase<AnyAccount, T>, inner: Op<Contract, T>,
                                                 coins: Op<CoinAccount, T>, tree: Tree<AnyAccount>, xs: seq<T>,
                                                 receipts: seq<Option<Data>>, a: nat)
    requires ph.op == OnAccount(inner, coins) && |receipts| == |xs| && Get(StakingKind(p), tree, a).Staking?
    requires ApplyAll(StakingKind(p), ph, tree, xs, receipts).Success?
    ensures var (t, rs) := ApplyAll(StakingKind(p), ph, tree, xs, receipts).value;
            && Get(StakingKind(p), t, a).Staking?
            && LocalRun(inner, ph.address, a, Get(StakingKind(p), tree, a).contract, xs, receipts) ==
               Success((Get(StakingKind(p), t, a).contract, Pick(ph.address, a, xs, rs)))
    ensures ForStaking(ph.required, ItemsAt(ph.address, a, xs))
  {
    var k := StakingKind(p);
    var c := Get(k, tree, a).contract;
    var items, picked := ItemsAt(ph.address, a, xs), Pick(ph.address, a, xs, receipts);
    RunAt(k, ph, tree, xs, receipts, a);
    PickSize(ph.address, a, xs, receipts);
    ItemsForStaking(p, ph, inner, coins, c, items, picked);
    ThroughStaking(p, ph, inner, coins, items);
    FoldThrough(InStaking, Checked(k, ph), inner, c, items, picked);
  }

  /** Accounts stay what they are. */
  lemma {:induction false} SortKept<T(!new)>(p: StakingPolicy, ph: Phase<AnyAccount, T>, inner: Op<Contract, T>,
                                             coins: Op<CoinAccount, T>, tree: Tree<AnyAccount>, xs: seq<T>,
                                             receipts: seq<Option<Data>>, a: nat)
    requires ph.op == OnAccount(inner, coins) && |receipts| == |xs|
    requires ApplyAll(StakingKind(p), ph, tree, xs, receipts).Success?
    ensures Get(StakingKind(p), ApplyAll(StakingKind(p), ph, tree, xs, receipts).value.0, a).Coins? <==>
            Get(StakingKind(p), tree, a).Coins?
    decreases |xs|
  {
    if xs != [] {
      var k, b := StakingKind(p), ph.address(xs[0]);
      OnAccountIs(inner, coins, Get(k, tree, b), xs[0], receipts[0]);
      GetPut(k, tree, b, ph.op(Get(k, tree, b), xs[0], receipts[0]).value.0, a);
      SortKept(p, ph, inner, coins, Apply(k, ph, tree, xs[0], receipts[0]).value.0, xs[1..], receipts[1..], a);
    }
  }

  // ---------- coin accounts ----------

  lemma {:induction false} ThroughCoins<T(!new)>(p: StakingPolicy, ph: Phase<AnyAccount, T>, inner: Op<Contract, T>,
                                                 coins: Phase<CoinAccount, T>, xs: seq<T>)
    requires ph.op == OnAccount(inner, coins.op) && coins.required == ph.required
    ensures ActsThrough(InCoins, Checked(StakingKind(p), ph), Checked(CoinKind(p.coins), coins), xs)
  {
  }

  /** Beside the staking contract, coin accounts are given back as before. */
  lemma {:induction false} CoinsUndone<T(!new)>(p: StakingPolicy, ph: Phase<AnyAccount, T>, undo: Phase<AnyAccount, T>,
                                                inner: Op<Contract, T>, back: Op<Contract, T>,
                                                coins: Op<CoinAccount, T>, coinsBack: Op<CoinAccount, T>,
                                                c: CoinAccount, xs: seq<T>)
    requires ph.op == OnAccount(inner, coins) && undo == ph.(op := OnAccount(back, coinsBack))
    requires Inverts(CoinKind(p.coins), coins, coinsBack) && RevertsPast(coins, coinsBack)
    ensures Undone(Checked(StakingKind(p), ph), Checked(StakingKind(p), undo), Coins(c), xs)
  {
    var k := CoinKind(p.coins);
    var low, lowBack := Phase(ph.address, ph.required, coins), Phase(ph.address, ph.required, coinsBack);
    CheckedSwaps(k, low, lowBack, xs);
    SwappingIsUndone(Any(), Checked(k, low), Checked(k, lowBack), c, xs);
    ThroughCoins(p, ph, inner, low, xs);
    ThroughCoins(p, undo, back, lowBack, xs);
    UndoneThrough(InCoins, Checked(StakingKind(p), ph), Checked(StakingKind(p), undo), Checked(k, low),
                  Checked(k, lowBack), c, xs);
  }

  // ---------- a whole phase ----------

  /** What the block does to one staking contract can be taken back. */
  ghost predicate StakingUndone<T>(p: StakingPolicy, address: T -> nat, inner: Op<Contract, T>, back: Op<Contract, T>,
                                   tree: Tree<AnyAccount>, xs: seq<T>, a: nat) {
    Get(StakingKind(p), tree, a).Staking? ==>
      Undone(inner, back, Get(StakingKind(p), tree, a).contract, ItemsAt(address, a, xs))
  }

  lemma {:induction false} UndoneAtIff<T(!new)>(p: StakingPolicy, ph: Phase<AnyAccount, T>, undo: Phase<AnyAccount, T>,
                                                inner: Op<Contract, T>, back: Op<Contract, T>,
                                                coins: Op<CoinAccount, T>,
                                                coinsBack: Op<CoinAccount, T>, tree: Tree<AnyAccount>, xs: seq<T>,
                                                a: nat)
    requires ph.op == OnAccount(inner, coins) && undo == ph.(op := OnAccount(back, coinsBack))
    requires Inverts(CoinKind(p.coins), coins, coinsBack) && RevertsPast(coins, coinsBack)
    requires ApplyAll(StakingKind(p), ph, tree, xs, NoReceipts(|xs|)).Success?
    ensures UndoneAt(StakingKind(p), ph, undo, tree, xs, a) <==>
            StakingUndone(p, ph.address, inner, back, tree, xs, a)
  {
    var k, items := StakingKind(p), ItemsAt(ph.address, a, xs);
    match Get(k, tree, a) {
      case Coins(c) => CoinsUndone(p, ph, undo, inner, back, coins, coinsBack, c, items);
      case Staking(c) =>
        RunAtStaking(p, ph, inner, coins, tree, xs, NoReceipts(|xs|), a);
        ThroughStaking(p, ph, inner, coins, items);
        ThroughStaking(p, undo, back, coinsBack, items);
        UndoneThrough(InStaking, Checked(k, ph), Checked(k, undo), inner, back, c, items);
    }
  }

  /** A phase is undone exactly if it is undone on every staking contract. */
  lemma {:induction false} StakingPhaseUndoneIff<T(!new)>(p: StakingPolicy, ph: Phase<AnyAccount, T>,
                                                          undo: Phase<AnyAccount, T>,
                                                          inner: Op<Contract, T>, back: Op<Contract, T>,
                                                          coins: Op<CoinAccount, T>, coinsBack: Op<CoinAccount, T>,
                                                          tree: Tree<AnyAccount>, xs: seq<T>)
    requires ph.op == OnAccount(inner, coins) && undo == ph.(op := OnAccount(back, coinsBack))
    requires Inverts(CoinKind(p.coins), coins, coinsBack) && RevertsPast(coins, coinsBack)
    requires Normal(StakingKind(p), tree) && ApplyAll(StakingKind(p), ph, tree, xs, NoReceipts(|xs|)).Success?
    ensures PhaseUndone(StakingKind(p), ph, undo, tree, xs) <==>
            forall a :: StakingUndone(p, ph.address, inner, back, tree, xs, a)
  {
    PhaseUndoneIff(StakingKind(p), ph, undo, tree, xs);
    forall a
      ensures UndoneAt(StakingKind(p), ph, undo, tree, xs, a) <==>
              StakingUndone(p, ph.address, inner, back, tree, xs, a)
    {
      UndoneAtIff(p, ph, undo, inner, back, coins, coinsBack, tree, xs, a);
    }
  }

  /** Inherents can always be taken back. */
  lemma {:induction false} InherentsUndone(p: StakingPolicy, tree: Tree<AnyAccount>, xs: seq<Inherent>)
    requires Normal(StakingKind(p), tree)
    requires ApplyAll(StakingKind(p), Inherents(StakingOps(p).commitInherent), tree, xs, NoReceipts(|xs|)).Success?
    ensures PhaseUndone(StakingKind(p), Inherents(StakingOps(p).commitInherent),
                        Inherents(StakingOps(p).revertInherent), tree, xs)
  {
    var coins, ops := CoinOps(p.coins), StakingOps(p);
    InherentOk(p.coins);
    forall a
      ensures StakingUndone(p, Inherents(ops.commitInherent).address, Slashing(p), Unslashing(p), tree, xs, a)
    {
      if Get(StakingKind(p), tree, a).Staking? {
        SlashesUndone(p, Get(StakingKind(p), tree, a).contract, ItemsAt(Inherents(ops.commitInherent).address, a, xs));
      }
    }
    StakingPhaseUndoneIff(p, Inherents(ops.commitInherent), Inherents(ops.revertInherent), Slashing(p), Unslashing(p),
                          coins.commitInherent, coins.revertInherent, tree, xs);
  }
}
