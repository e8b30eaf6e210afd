/** The coins of the staking contract are those of its validators and of its inactive stakers. */
module StakingFunds {
  import opened Prelude
  import opened Transactions
  import opened Accounts
  import opened AccountsRevert
  import opened AccountsSupply
  import opened StakeEntries
  import opened StakingContracts
  import opened StakingViews
  import opened StakingPhases
  import opened StakingBlocks

  const ValidatorBalance: Validator -> nat := (v: Validator) => v.balance
  const InactiveBalance: InactiveStake -> nat := (i: InactiveStake) => i.balance
  const Amount: nat -> nat := (n: nat) => n

  /** What stakers have delegated is covered by the validator; the rest is its own deposit. */
  ghost predicate Covered(v: Validator) {
    v.balance >= Sum(v.stakes, Amount)
  }

  ghost predicate Backed(c: Contract) {
    && c.balance == Sum(c.validators, ValidatorBalance) + Sum(c.inactive, InactiveBalance)
    && forall v :: v in c.validators ==> Covered(c.validators[v])
  }

  function ShiftDelta(x: Shift): int {
    match x
    case Add(_, _, amount) => amount
    case Sub(_, _, amount) => 0 - amount
    case _ => 0
  }

  function EntryBalance(e: Entry): nat {
    if e.None? then 0 else e.value.balance
  }

  /** The deposit of a validator is not touched. */
  lemma {:induction false} GrownDeposit(v: Validator, s: nat, amount: nat)
    requires Grown(v, s, amount).Success?
    ensures var w := Grown(v, s, amount).value;
            w.balance - Sum(w.stakes, Amount) == v.balance - Sum(v.stakes, Amount) && w.balance == v.balance + amount
  {
    SumUpdate<nat>(v.stakes, Amount, s, StakeOf(v, s) + amount);
  }

  lemma {:induction false} ShrunkDeposit(v: Validator, s: nat, amount: nat)
    requires Shrunk(v, s, amount).Success?
    ensures var w := Shrunk(v, s, amount).value;
            w.balance - Sum(w.stakes, Amount) == v.balance - Sum(v.stakes, Amount) && w.balance == v.balance - amount
  {
    SumUpdate<nat>(v.stakes, Amount, s, v.stakes[s] - amount);
  }

  lemma {:induction false} ShiftedFunds(vs: Validators, x: Shift)
    requires Shifted(vs, x).Success?
    ensures var ws := Shifted(vs, x).value;
            && Sum(ws, ValidatorBalance) == Sum(vs, ValidatorBalance) + ShiftDelta(x)
            && ((forall v :: v in vs ==> Covered(vs[v])) ==> forall v :: v in ws ==> Covered(ws[v]))
  {
    match x {
      case Add(v, s, amount) =>
        GrownDeposit(vs[v], s, amount);
        SumUpdate(vs, ValidatorBalance, v, Grown(vs[v], s, amount).value);
      case Sub(v, s, amount) =>
        ShrunkDeposit(vs[v], s, amount);
        SumUpdate(vs, ValidatorBalance, v, Shrunk(vs[v], s, amount).value);
      case _ =>
    }
  }

  lemma {:induction false} SetEntryFunds(c: Contract, s: nat, e: Entry)
    ensures Sum(SetEntry(c.inactive, s, e), InactiveBalance) + EntryBalance(EntryOf(c, s)) ==
            Sum(c.inactive, InactiveBalance) + EntryBalance(e)
  {
    SumUpdate(c.inactive, InactiveBalance, s, if e.Some? then e.value else InactiveStake(0, 0));
  }

  /** A side of a transaction moves its amount either through a validator or through the inactive stake. */
  ghost predicate Moves(d: Side, c: Contract, t: Tx, r: Option<Data>)
    requires ActOn(d, c, t, r).Success?
  {
    var e := d.effect(t).value;
    ActOn(d, c, t, r).value.0.balance - c.balance ==
    ShiftDelta(d.shift(e.shift)) +
    EntryBalance(d.entry(EntryOf(c, e.staker), e.move, r).value.0) - EntryBalance(EntryOf(c, e.staker))
  }

  ghost predicate Funds(d: Side) {
    forall c, t, r :: ActOn(d, c, t, r).Success? ==> Moves(d, c, t, r)
  }

  lemma {:induction false} TakeStepTakes(mature: nat -> bool, e: Entry, m: Move)
    requires TakeStep(mature, e, m).Success?
    ensures EntryBalance(TakeStep(mature, e, m).value.0) == EntryBalance(e) - if Takes(m) then m.amount else 0
  {
  }

  lemma {:induction false} SpendingMoves(p: StakingPolicy, c: Contract, t: Tx, r: Option<Data>, e: Effect)
    requires ActOn(Spending(p), c, t, r).Success? && SenderEffect(p, t) == Success(e)
    ensures Moves(Spending(p), c, t, r)
  {
    TakeStepTakes(p.mature, EntryOf(c, e.staker), e.move);
  }

  lemma {:induction false} SpendingFunds(p: StakingPolicy)
    ensures Funds(Spending(p))
  {
    forall c, t, r | ActOn(Spending(p), c, t, r).Success?
      ensures Moves(Spending(p), c, t, r)
    {
      SpendingMoves(p, c, t, r, SenderEffect(p, t).value);
    }
  }

  lemma {:induction false} GiveStepGives(height: nat, e: Entry, m: Move)
    requires GiveStep(height, e, m).Success?
    ensures EntryBalance(GiveStep(height, e, m).value.0) == EntryBalance(e) + if m.Retire? then m.amount else 0
  {
  }

  lemma {:induction false} ReceivingMoves(p: StakingPolicy, c: Contract, t: Tx, r: Option<Data>, e: Effect)
    requires ActOn(Receiving(p), c, t, r).Success? && RecipientEffect(p, t) == Success(e)
    ensures Moves(Receiving(p), c, t, r)
  {
    GiveStepGives(p.height, EntryOf(c, e.staker), e.move);
  }

  lemma {:induction false} ReceivingFunds(p: StakingPolicy)
    ensures Funds(Receiving(p))
  {
    forall c, t, r | ActOn(Receiving(p), c, t, r).Success?
      ensures Moves(Receiving(p), c, t, r)
    {
      ReceivingMoves(p, c, t, r, RecipientEffect(p, t).value);
    }
  }

  lemma {:induction false} ActKeepsBacked(d: Side, c: Contract, t: Tx, r: Option<Data>)
    requires Funds(d) && Backed(c) && ActOn(d, c, t, r).Success?
    ensures Backed(ActOn(d, c, t, r).value.0)
  {
    var e := d.effect(t).value;
    ShiftedFunds(c.validators, d.shift(e.shift));
    SetEntryFunds(c, e.staker, d.entry(EntryOf(c, e.staker), e.move, r).value.0);
  }

  ghost function IsBacked(): Contract -> bool {
    (c: Contract) => Backed(c)
  }

  lemma {:induction false} SideKeepsBacked(d: Side, txs: seq<Tx>)
    requires Funds(d)
    ensures Preserves(IsBacked(), Act(d), txs)
  {
    forall c, x, r | Backed(c) && ActOn(d, c, x, r).Success?
      ensures Backed(ActOn(d, c, x, r).value.0)
    {
      ActKeepsBacked(d, c, x, r);
    }
  }

  lemma {:induction false} BlockKeepsBacked(p: StakingPolicy, txs: seq<Tx>, inherents: seq<Inherent>)
    ensures BlockPreserves(p, IsBacked(), txs, inherents)
  {
    SpendingFunds(p);
    ReceivingFunds(p);
    SideKeepsBacked(Spending(p), txs);
    SideKeepsBacked(Receiving(p), txs);
  }

  ghost predicate BackedTree(tree: Tree<AnyAccount>) {
    AllContracts(tree, IsBacked())
  }

  /** Committing a block keeps the balance of the contract backed by validators and inactive stake. */
  lemma {:induction false} CommitStaysBacked(p: StakingPolicy, tree: Tree<AnyAccount>, txs: seq<Tx>,
                                             inherents: seq<Inherent>)
    requires Commit(StakingKind(p), StakingOps(p), tree, txs, inherents).Success? && BackedTree(tree)
    ensures BackedTree(Commit(StakingKind(p), StakingOps(p), tree, txs, inherents).value.0)
  {
    BlockKeepsBacked(p, txs, inherents);
    var w := TrailOf(StakingKind(p), StakingOps(p), tree, txs, inherents);
    TrailPreserves(p, IsBacked(), tree, txs, inherents, w);
  }
}
