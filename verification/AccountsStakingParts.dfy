/** Balances, delegated stake and slash marks of the staking contract can always be taken back. */
module StakingParts {
  import opened Prelude
  import opened Transactions
  import opened Accounts
  import opened AccountsLocal
  import opened AccountsCoins
  import opened StakingContracts
  import opened StakingViews

  // ---------- the two sides ----------

  /** Nobody is listed with a delegated stake of zero. */
  predicate Listed(vs: Validators) {
    forall v, s :: v in vs && s in vs[v].stakes ==> vs[v].stakes[s] > 0
  }

  const ListedOnly: Validators -> bool := (vs: Validators) => Listed(vs)

  ghost predicate Valued(xs: seq<Tx>) {
    forall t :: t in xs ==> t.value > 0
  }

  function ShiftAmount(x: Shift): nat {
    match x
    case Add(_, _, amount) => amount
    case Sub(_, _, amount) => amount
    case _ => 1
  }

  /** Nothing is taken off where balances grow, and nothing added where they shrink. */
  predicate OneWay(adding: bool, x: Shift) {
    if adding then !x.Sub? else !x.Add?
  }

  /** One side takes back what the other does. */
  ghost predicate Opposed(adding: bool, d: Side, u: Side) {
    && u.effect == d.effect && d.shift == Forth && u.shift == Back
    && d.balance == (if adding then Adding else Subtracting) && u.balance == (if adding then Subtracting else Adding)
    && (forall t: Tx :: d.effect(t).Success? ==> OneWay(adding, d.effect(t).value.shift))
    && (forall t: Tx :: t.value > 0 && d.effect(t).Success? ==> ShiftAmount(d.effect(t).value.shift) > 0)
  }

  lemma {:induction false} SpendingOpposed(p: StakingPolicy)
    ensures Opposed(false, Spending(p), Unspending(p)) && Idle(Spending(p).entry) && Idle(Unspending(p).entry)
  {
  }

  lemma {:induction false} ReceivingOpposed(p: StakingPolicy)
    ensures Opposed(true, Receiving(p), Unreceiving(p)) && Idle(Receiving(p).entry) && Idle(Unreceiving(p).entry)
  {
  }

  lemma {:induction false} BalanceReturns(adding: bool, d: Side, u: Side, b: Coin, t: Tx)
    requires Opposed(adding, d, u)
    ensures Returns(BalanceOp(d), BalanceOp(u), b, t)
  {
  }

  lemma {:induction false} BalanceSwaps(adding: bool, d: Side, u: Side, b: Coin, x: Tx, y: Tx)
    requires Opposed(adding, d, u) && BalanceStep(u, b, x).Success? && BalanceStep(d, b, y).Success?
    ensures Swaps(BalanceOp(d), BalanceOp(u), b, x, None, y)
  {
  }

  lemma {:induction false} BalanceUndone(adding: bool, d: Side, u: Side, b: Coin, xs: seq<Tx>)
    requires Opposed(adding, d, u)
    ensures Undone(BalanceOp(d), BalanceOp(u), b, xs)
  {
    var commit, revert := BalanceOp(d), BalanceOp(u);
    forall a, x
      ensures Returns(commit, revert, a, x)
    {
      BalanceReturns(adding, d, u, a, x);
    }
    forall c, x, r, y | revert(c, x, r).Success? && commit(c, y, None).Success?
      ensures Swaps(commit, revert, c, x, r, y)
    {
      BalanceSwaps(adding, d, u, c, x, y);
    }
    SwappingIsUndone(Any(), commit, revert, b, xs);
  }

  // ---------- delegated stake ----------

  lemma {:induction false} ShiftKeepsListed(vs: Validators, x: Shift)
    requires Listed(vs) && ShiftAmount(x) > 0 && Shifted(vs, x).Success?
    ensures Listed(Shifted(vs, x).value)
  {
  }

  lemma {:induction false} GrownShrinks(v: Validator, s: nat, amount: nat)
    requires amount > 0 && (s in v.stakes ==> v.stakes[s] > 0)
    ensures Grown(v, s, amount).Success? ==> Shrunk(Grown(v, s, amount).value, s, amount) == Success(v)
    ensures Shrunk(v, s, amount).Success? ==> Grown(Shrunk(v, s, amount).value, s, amount) == Success(v)
  {
    var more := v.stakes[s := StakeOf(v, s) + amount];
    assert (if StakeOf(v, s) == 0 then more - {s} else more[s := StakeOf(v, s)]) == v.stakes;
    if Shrunk(v, s, amount).Success? {
      assert Shrunk(v, s, amount).value.stakes[s := v.stakes[s]] == v.stakes;
    }
  }

  lemma {:induction false} ShiftReturns(vs: Validators, x: Shift)
    requires Listed(vs) && ShiftAmount(x) > 0 && Shifted(vs, x).Success?
    ensures Shifted(Shifted(vs, x).value, Opposite(x)) == Success(vs)
  {
    if x.Add? || x.Sub? {
      GrownShrinks(vs[x.validator], x.staker, x.amount);
      assert Shifted(vs, x).value[x.validator := vs[x.validator]] == vs;
    }
  }

  /** Adding stake and taking some off commute. */
  lemma {:induction false} GrowShrinkSwap(v: Validator, s: nat, a: nat, q: nat, b: nat, grown: Validator,
                                          shrunk: Validator)
    requires a > 0 && Grown(v, s, a) == Success(grown) && Shrunk(v, q, b) == Success(shrunk)
    ensures Shrunk(grown, q, b).Success? && Grown(shrunk, s, a) == Shrunk(grown, q, b)
  {
    assert Shrunk(grown, q, b).value.stakes == Grown(shrunk, s, a).value.stakes;
  }

  lemma {:induction false} AddSubSwap(vs: Validators, x: Shift, y: Shift, added: Validators, taken: Validators)
    requires x.Add? && y.Sub? && x.amount > 0
    requires Shifted(vs, x) == Success(added) && Shifted(vs, y) == Success(taken)
    ensures Shifted(added, y).Success? && Shifted(taken, x) == Shifted(added, y)
  {
    var v, w := x.validator, y.validator;
    if v == w {
      GrowShrinkSwap(vs[v], x.staker, x.amount, y.staker, y.amount, added[v], taken[v]);
      var both := Shrunk(added[v], y.staker, y.amount).value;
      assert added[v := both] == taken[v := both];
    } else {
      assert added[w := taken[w]] == taken[v := added[v]];
    }
  }

  lemma {:induction false} ShiftSwaps(adding: bool, vs: Validators, x: Shift, y: Shift)
    requires OneWay(adding, x) && OneWay(adding, y) && ShiftAmount(x) > 0 && ShiftAmount(y) > 0
    requires Shifted(vs, Opposite(x)).Success? && Shifted(vs, y).Success?
    ensures Shifted(Shifted(vs, Opposite(x)).value, y).Success?
    ensures Shifted(Shifted(vs, y).value, Opposite(x)) == Shifted(Shifted(vs, Opposite(x)).value, y)
  {
    var back, forth := Shifted(vs, Opposite(x)).value, Shifted(vs, y).value;
    if x.Sub? && y.Sub? {
      AddSubSwap(vs, Opposite(x), y, back, forth);
    } else if x.Add? && y.Add? {
      AddSubSwap(vs, y, Opposite(x), forth, back);
    }
  }

  lemma {:induction false} LedgerExchange(adding: bool, d: Side, u: Side, xs: seq<Tx>)
    requires Opposed(adding, d, u) && Valued(xs)
    ensures Exchange(ListedOnly, LedgerOp(d), LedgerOp(u), xs)
  {
    var commit, revert := LedgerOp(d), LedgerOp(u);
    forall a, x | ListedOnly(a) && x in xs && commit(a, x, None).Success?
      ensures ListedOnly(commit(a, x, None).value.0) && Returns(commit, revert, a, x)
    {
      var shift := d.effect(x).value.shift;
      ShiftKeepsListed(a, shift);
      ShiftReturns(a, shift);
    }
    forall c, x, r, y | ListedOnly(c) && x in xs && y in xs && revert(c, x, r).Success? && commit(c, y, None).Success?
      ensures Swaps(commit, revert, c, x, r, y)
    {
      ShiftSwaps(adding, c, d.effect(x).value.shift, d.effect(y).value.shift);
    }
  }

  /** Balance and delegated stake come back whatever the block did to them. */
  lemma {:induction false} PartsAreUndone(adding: bool, d: Side, u: Side, c: Contract, xs: seq<Tx>)
    requires Opposed(adding, d, u) && Valued(xs) && Listed(c.validators)
    ensures PartsUndone(d, u, c, xs)
  {
    BalanceUndone(adding, d, u, c.balance, xs);
    LedgerExchange(adding, d, u, xs);
    SwappingIsUndone(ListedOnly, LedgerOp(d), LedgerOp(u), c.validators, xs);
  }

  lemma {:induction false} LedgerStaysListed(d: Side, vs: Validators, xs: seq<Tx>)
    requires d.shift == Forth && Listed(vs) && FoldNew(LedgerOp(d), vs, xs).Success?
    requires forall t :: t in xs && d.effect(t).Success? ==> ShiftAmount(d.effect(t).value.shift) > 0
    ensures Listed(FoldNew(LedgerOp(d), vs, xs).value.0)
    decreases |xs|
  {
    if xs != [] {
      var first := LedgerStep(d, vs, xs[0]);
      FoldNewHead(LedgerOp(d), vs, xs, first);
      assert xs[0] in xs && forall t :: t in xs[1..] ==> t in xs;
      ShiftKeepsListed(vs, d.effect(xs[0]).value.shift);
      LedgerStaysListed(d, first.value.0, xs[1..]);
    }
  }

  // ---------- slashes ----------

  /** A receipt names exactly the marks that are new. */
  lemma {:induction false} SlashBack(p: StakingPolicy, c: Contract, i: Inherent, d: Contract)
    requires CommitSlash(p, c, i).Success?
    requires CommitSlash(p, c, i).value.0.marks - c.marks <= d.marks
    ensures RevertSlash(p, d, i, CommitSlash(p, c, i).value.1) ==
            Success((d.(marks := d.marks - (CommitSlash(p, c, i).value.0.marks - c.marks)), None))
    ensures CommitSlash(p, c, i).value.0 == c.(marks := CommitSlash(p, c, i).value.0.marks)
    ensures c.marks <= CommitSlash(p, c, i).value.0.marks
  {
    var x := p.slashed(i).value;
    var unseen := CommitSlash(p, c, i).value.0.marks - c.marks;
    assert unseen == Added(x) - c.marks;
    var r := SlashReceipt(x, c.marks);
    var parked, disabled, lost := r[0] == 1, r[1] == 1 && !x.era.PreviousEpoch?, r[2] == 1;
    var gone := (if parked then {Parked(x.validator)} else {}) + (if disabled then DisabledBy(x) else {}) +
                (if lost then {LostBy(x)} else {});
    assert gone == unseen;
    if parked {
      assert Parked(x.validator) in unseen;
    }
    if disabled {
      assert Disabled(x.validator, x.slot) in d.marks;
    }
  }

  /** Taking slashes back, front to back, removes exactly the marks they left. */
  lemma {:induction false} SlashesBack(p: StakingPolicy, c: Contract, xs: seq<Inherent>, after: Contract,
                                       rs: seq<Option<Data>>, d: Contract)
    requires FoldNew(Slashing(p), c, xs) == Success((after, rs)) && after.marks - c.marks <= d.marks
    ensures c.marks <= after.marks && after == c.(marks := after.marks)
    ensures Fold(Unslashing(p), d, xs, rs).Success?
    ensures Fold(Unslashing(p), d, xs, rs).value.0 == d.(marks := d.marks - (after.marks - c.marks))
    decreases |xs|
  {
    if xs != [] {
      var first := CommitSlash(p, c, xs[0]);
      FoldNewHead(Slashing(p), c, xs, first);
      var next := first.value.0;
      SlashesKeep(p, next, xs[1..]);
      SlashBack(p, c, xs[0], d);
      var e := d.(marks := d.marks - (next.marks - c.marks));
      FoldHead(Unslashing(p), d, xs, rs, RevertSlash(p, d, xs[0], rs[0]));
      SlashesBack(p, next, xs[1..], after, rs[1..], e);
      assert d.marks - (next.marks - c.marks) - (after.marks - next.marks) == d.marks - (after.marks - c.marks);
    } else {
      assert d.marks - (after.marks - c.marks) == d.marks;
    }
  }

  lemma {:induction false} SlashesKeep(p: StakingPolicy, c: Contract, xs: seq<Inherent>)
    requires FoldNew(Slashing(p), c, xs).Success?
    ensures c.marks <= FoldNew(Slashing(p), c, xs).value.0.marks
    ensures FoldNew(Slashing(p), c, xs).value.0 == c.(marks := FoldNew(Slashing(p), c, xs).value.0.marks)
    decreases |xs|
  {
    if xs != [] {
      var first := CommitSlash(p, c, xs[0]);
      FoldNewHead(Slashing(p), c, xs, first);
      SlashesKeep(p, first.value.0, xs[1..]);
    }
  }

  /** Slashes can always be taken back. */
  lemma {:induction false} SlashesUndone(p: StakingPolicy, c: Contract, xs: seq<Inherent>)
    ensures Undone(Slashing(p), Unslashing(p), c, xs)
  {
    if FoldNew(Slashing(p), c, xs).Success? {
      var (after, rs) := FoldNew(Slashing(p), c, xs).value;
      SlashesBack(p, c, xs, after, rs, after);
      assert after.marks - (after.marks - c.marks) == c.marks;
    }
  }
}
