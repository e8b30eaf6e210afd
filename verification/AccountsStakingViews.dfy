/** A run of transactions over the staking contract, seen part by part. */
module StakingViews {
  import opened Prelude
  import opened Transactions
  import opened Accounts
  import opened AccountsLocal
  import opened AccountsCoins
  import opened StakeEntries
  import opened StakingContracts

  type Validators = map<nat, Validator>

  function BalanceStep(d: Side, b: Coin, t: Tx): Result<(Coin, Option<Data>), AccountError> {
    var e :- d.effect(t);
    var b' :- d.balance(b, e.amount);
    Success((b', None))
  }

  function BalanceOp(d: Side): Op<Coin, Tx> {
    (b: Coin, t: Tx, _: Option<Data>) => BalanceStep(d, b, t)
  }

  function LedgerStep(d: Side, vs: Validators, t: Tx): Result<(Validators, Option<Data>), AccountError> {
    var e :- d.effect(t);
    var vs' :- Shifted(vs, d.shift(e.shift));
    Success((vs', None))
  }

  function LedgerOp(d: Side): Op<Validators, Tx> {
    (vs: Validators, t: Tx, _: Option<Data>) => LedgerStep(d, vs, t)
  }

  /** What a transaction does with the inactive stake of one staker. */
  function MoveOn(effect: Result<Effect, AccountError>, s: nat): Move {
    if effect.Success? && effect.value.staker == s then effect.value.move else Keep
  }

  function MovesOf(effect: Tx -> Result<Effect, AccountError>, xs: seq<Tx>, s: nat): (ms: seq<Move>)
    ensures |ms| == |xs|
  {
    if xs == [] then [] else [MoveOn(effect(xs[0]), s)] + MovesOf(effect, xs[1..], s)
  }

  /** Who is not concerned keeps what he has. */
  ghost predicate Idle(entry: Op<Entry, Move>) {
    forall e, r :: entry(e, Keep, r) == Success((e, None))
  }

  ghost predicate SameReceipts(ms: seq<Move>, rs: seq<Option<Data>>, qs: seq<Option<Data>>) {
    |rs| == |qs| == |ms| && forall j :: 0 <= j < |ms| && !ms[j].Keep? ==> rs[j] == qs[j]
  }

  lemma {:induction false} TailReceipts(ms: seq<Move>, rs: seq<Option<Data>>, qs: seq<Option<Data>>)
    requires |rs| == |qs| == |ms| > 0
    ensures SameReceipts(ms, rs, qs) <==> (!ms[0].Keep? ==> rs[0] == qs[0]) && SameReceipts(ms[1..], rs[1..], qs[1..])
  {
    if SameReceipts(ms[1..], rs[1..], qs[1..]) && (!ms[0].Keep? ==> rs[0] == qs[0]) {
      forall j | 0 <= j < |ms| && !ms[j].Keep?
        ensures rs[j] == qs[j]
      {
        assert j > 0 ==> ms[1..][j - 1] == ms[j] && rs[1..][j - 1] == rs[j] && qs[1..][j - 1] == qs[j];
      }
    }
  }

  /** One step, part by part. */
  lemma {:induction false} ActIs(d: Side, c: Contract, t: Tx, r: Option<Data>, s: nat)
    requires Idle(d.entry) && ActOn(d, c, t, r).Success?
    ensures var c' := ActOn(d, c, t, r).value.0;
            && BalanceStep(d, c.balance, t) == Success((c'.balance, None))
            && LedgerStep(d, c.validators, t) == Success((c'.validators, None))
            && c'.marks == c.marks
            && d.entry(EntryOf(c, s), MoveOn(d.effect(t), s), r).Success?
            && d.entry(EntryOf(c, s), MoveOn(d.effect(t), s), r).value.0 == EntryOf(c', s)
            && (MoveOn(d.effect(t), s) != Keep ==>
                  d.entry(EntryOf(c, s), MoveOn(d.effect(t), s), r).value.1 == ActOn(d, c, t, r).value.1)
  {
  }

  lemma {:induction false} ActsIf(d: Side, c: Contract, t: Tx, r: Option<Data>)
    requires BalanceStep(d, c.balance, t).Success? && LedgerStep(d, c.validators, t).Success?
    requires d.entry(EntryOf(c, d.effect(t).value.staker), MoveOn(d.effect(t), d.effect(t).value.staker), r).Success?
    ensures ActOn(d, c, t, r).Success?
  {
  }

  /** The run of one part of a contract. */
  ghost predicate BalanceRuns(d: Side, b: Coin, xs: seq<Tx>, rs: seq<Option<Data>>, b': Coin) {
    |rs| == |xs| && Fold(BalanceOp(d), b, xs, rs).Success? && Fold(BalanceOp(d), b, xs, rs).value.0 == b'
  }

  ghost predicate LedgerRuns(d: Side, vs: Validators, xs: seq<Tx>, rs: seq<Option<Data>>, vs': Validators) {
    |rs| == |xs| && Fold(LedgerOp(d), vs, xs, rs).Success? && Fold(LedgerOp(d), vs, xs, rs).value.0 == vs'
  }

  ghost predicate EntryRuns(d: Side, e: Entry, xs: seq<Tx>, s: nat, rs: seq<Option<Data>>, e': Entry) {
    && |rs| == |xs| && Fold(d.entry, e, MovesOf(d.effect, xs, s), rs).Success?
    && Fold(d.entry, e, MovesOf(d.effect, xs, s), rs).value.0 == e'
  }

  /** A run over the contract is a run over each of its parts. */
  lemma {:induction false} RunParts(d: Side, c: Contract, xs: seq<Tx>, rs: seq<Option<Data>>, s: nat)
    requires Idle(d.entry) && |rs| == |xs| && Fold(Act(d), c, xs, rs).Success?
    ensures var c' := Fold(Act(d), c, xs, rs).value.0;
            && BalanceRuns(d, c.balance, xs, rs, c'.balance) && LedgerRuns(d, c.validators, xs, rs, c'.validators)
            && EntryRuns(d, EntryOf(c, s), xs, s, rs, EntryOf(c', s)) && c'.marks == c.marks
    ensures SameReceipts(MovesOf(d.effect, xs, s), Fold(Act(d), c, xs, rs).value.1,
                         Fold(d.entry, EntryOf(c, s), MovesOf(d.effect, xs, s), rs).value.1)
    decreases |xs|
  {
    if xs != [] {
      var ms := MovesOf(d.effect, xs, s);
      var next := ActOn(d, c, xs[0], rs[0]);
      FoldHead(Act(d), c, xs, rs, next);
      ActIs(d, c, xs[0], rs[0], s);
      FoldHead(BalanceOp(d), c.balance, xs, rs, BalanceStep(d, c.balance, xs[0]));
      FoldHead(LedgerOp(d), c.validators, xs, rs, LedgerStep(d, c.validators, xs[0]));
      FoldHead(d.entry, EntryOf(c, s), ms, rs, d.entry(EntryOf(c, s), ms[0], rs[0]));
      RunParts(d, next.value.0, xs[1..], rs[1..], s);
      TailReceipts(ms, Fold(Act(d), c, xs, rs).value.1, Fold(d.entry, EntryOf(c, s), ms, rs).value.1);
    }
  }

  ghost predicate EntryCanRun(d: Side, c: Contract, xs: seq<Tx>, rs: seq<Option<Data>>, s: nat) {
    |rs| == |xs| && Fold(d.entry, EntryOf(c, s), MovesOf(d.effect, xs, s), rs).Success?
  }

  /** A run over the contract succeeds if it does on all parts. */
  lemma {:induction false} PartsRun(d: Side, c: Contract, xs: seq<Tx>, rs: seq<Option<Data>>)
    requires Idle(d.entry) && |rs| == |xs|
    requires Fold(BalanceOp(d), c.balance, xs, rs).Success? && Fold(LedgerOp(d), c.validators, xs, rs).Success?
    requires forall s :: EntryCanRun(d, c, xs, rs, s)
    ensures Fold(Act(d), c, xs, rs).Success?
    decreases |xs|
  {
    if xs != [] {
      FoldHead(BalanceOp(d), c.balance, xs, rs, BalanceStep(d, c.balance, xs[0]));
      FoldHead(LedgerOp(d), c.validators, xs, rs, LedgerStep(d, c.validators, xs[0]));
      var s0 := d.effect(xs[0]).value.staker;
      assert EntryCanRun(d, c, xs, rs, s0);
      EntryHead(d, c, xs, rs, s0);
      ActsIf(d, c, xs[0], rs[0]);
      var next := ActOn(d, c, xs[0], rs[0]);
      FoldHead(Act(d), c, xs, rs, next);
      ActIs(d, c, xs[0], rs[0], s0);
      forall s
        ensures EntryCanRun(d, next.value.0, xs[1..], rs[1..], s)
      {
        assert EntryCanRun(d, c, xs, rs, s);
        EntryHead(d, c, xs, rs, s);
        ActIs(d, c, xs[0], rs[0], s);
      }
      PartsRun(d, next.value.0, xs[1..], rs[1..]);
    }
  }

  lemma {:induction false} EntryHead(d: Side, c: Contract, xs: seq<Tx>, rs: seq<Option<Data>>, s: nat)
    requires EntryCanRun(d, c, xs, rs, s) && xs != []
    ensures d.entry(EntryOf(c, s), MoveOn(d.effect(xs[0]), s), rs[0]).Success?
    ensures Fold(d.entry, d.entry(EntryOf(c, s), MoveOn(d.effect(xs[0]), s), rs[0]).value.0,
                 MovesOf(d.effect, xs[1..], s), rs[1..]).Success?
  {
    var ms := MovesOf(d.effect, xs, s);
    FoldHead(d.entry, EntryOf(c, s), ms, rs, d.entry(EntryOf(c, s), ms[0], rs[0]));
    assert ms[1..] == MovesOf(d.effect, xs[1..], s);
  }

  // ---------- receipts that do not matter ----------

  lemma {:induction false} FoldIgnores<A(!new), T(!new)>(op: Op<A, T>, a: A, xs: seq<T>, rs: seq<Option<Data>>,
                                                         qs: seq<Option<Data>>)
    requires (forall b, x, r, q :: op(b, x, r) == op(b, x, q)) && |rs| == |qs| == |xs|
    ensures Fold(op, a, xs, rs) == Fold(op, a, xs, qs)
    decreases |xs|
  {
    if xs != [] && op(a, xs[0], rs[0]).Success? {
      assert op(a, xs[0], rs[0]) == op(a, xs[0], qs[0]);
      FoldIgnores(op, op(a, xs[0], rs[0]).value.0, xs[1..], rs[1..], qs[1..]);
    } else if xs != [] {
      assert op(a, xs[0], rs[0]) == op(a, xs[0], qs[0]);
    }
  }

  lemma {:induction false} EntryIgnores(entry: Op<Entry, Move>, e: Entry, ms: seq<Move>, rs: seq<Option<Data>>,
                                        qs: seq<Option<Data>>)
    requires Idle(entry) && SameReceipts(ms, rs, qs)
    ensures Fold(entry, e, ms, rs).Success? <==> Fold(entry, e, ms, qs).Success?
    ensures Fold(entry, e, ms, rs).Success? ==> Fold(entry, e, ms, rs).value.0 == Fold(entry, e, ms, qs).value.0
    decreases |ms|
  {
    if ms != [] {
      TailReceipts(ms, rs, qs);
      var first := entry(e, ms[0], rs[0]);
      assert entry(e, ms[0], qs[0]) == first;
      FoldHead(entry, e, ms, rs, first);
      FoldHead(entry, e, ms, qs, first);
      if first.Success? {
        EntryIgnores(entry, first.value.0, ms[1..], rs[1..], qs[1..]);
      }
    }
  }

  // ---------- taking back ----------

  ghost predicate EntryUndone(d: Side, u: Side, c: Contract, xs: seq<Tx>, s: nat) {
    Undone(d.entry, u.entry, EntryOf(c, s), MovesOf(d.effect, xs, s))
  }

  lemma {:induction false} SameContract(c: Contract, c': Contract)
    requires c.balance == c'.balance && c.validators == c'.validators && c.marks == c'.marks
    requires forall s :: EntryOf(c, s) == EntryOf(c', s)
    ensures c == c'
  {
    assert c.inactive == c'.inactive by {
      forall s
        ensures s in c.inactive <==> s in c'.inactive
        ensures s in c.inactive ==> c.inactive[s] == c'.inactive[s]
      {
        assert EntryOf(c, s) == EntryOf(c', s);
      }
    }
  }

  /** How the stake of one staker comes back with the receipts of the whole contract. */
  lemma {:induction false} EntryBack(d: Side, u: Side, c: Contract, xs: seq<Tx>, c1: Contract, rs: seq<Option<Data>>,
                                     s: nat)
    requires Idle(d.entry) && Idle(u.entry) && u.effect == d.effect && FoldNew(Act(d), c, xs) == Success((c1, rs))
    ensures EntryUndone(d, u, c, xs, s) <==> EntryRuns(u, EntryOf(c1, s), xs, s, rs, EntryOf(c, s))
  {
    RunParts(d, c, xs, NoReceipts(|xs|), s);
    var ms := MovesOf(d.effect, xs, s);
    var qs := FoldNew(d.entry, EntryOf(c, s), ms).value.1;
    EntryIgnores(u.entry, EntryOf(c1, s), ms, rs, qs);
  }

  /** Balance and delegations come back, whatever the receipts. */
  ghost predicate PartsUndone(d: Side, u: Side, c: Contract, xs: seq<Tx>) {
    && Undone(BalanceOp(d), BalanceOp(u), c.balance, xs)
    && Undone(LedgerOp(d), LedgerOp(u), c.validators, xs)
  }

  lemma {:induction false} PartsBack(d: Side, u: Side, c: Contract, xs: seq<Tx>, c1: Contract, rs: seq<Option<Data>>)
    requires Idle(d.entry) && PartsUndone(d, u, c, xs) && FoldNew(Act(d), c, xs) == Success((c1, rs))
    ensures BalanceRuns(u, c1.balance, xs, rs, c.balance) && LedgerRuns(u, c1.validators, xs, rs, c.validators)
  {
    RunParts(d, c, xs, NoReceipts(|xs|), 0);
    FoldIgnores(BalanceOp(u), c1.balance, xs, FoldNew(BalanceOp(d), c.balance, xs).value.1, rs);
    FoldIgnores(LedgerOp(u), c1.validators, xs, FoldNew(LedgerOp(d), c.validators, xs).value.1, rs);
  }

  /** The contract comes back exactly if the inactive stake of every staker does. */
  lemma {:induction false} ContractUndoneIff(d: Side, u: Side, c: Contract, xs: seq<Tx>, c1: Contract,
                                             rs: seq<Option<Data>>)
    requires Idle(d.entry) && Idle(u.entry) && u.effect == d.effect && PartsUndone(d, u, c, xs)
    requires FoldNew(Act(d), c, xs) == Success((c1, rs))
    ensures Undone(Act(d), Act(u), c, xs) <==> forall s :: EntryUndone(d, u, c, xs, s)
  {
    PartsBack(d, u, c, xs, c1, rs);
    if forall s :: EntryUndone(d, u, c, xs, s) {
      forall s
        ensures EntryCanRun(u, c1, xs, rs, s)
      {
        EntryBack(d, u, c, xs, c1, rs, s);
      }
      PartsRun(u, c1, xs, rs);
      var back := Fold(Act(u), c1, xs, rs).value.0;
      RunParts(d, c, xs, NoReceipts(|xs|), 0);
      forall s
        ensures EntryOf(back, s) == EntryOf(c, s)
      {
        EntryBack(d, u, c, xs, c1, rs, s);
        RunParts(u, c1, xs, rs, s);
      }
      RunParts(u, c1, xs, rs, 0);
      SameContract(back, c);
    }
    if Undone(Act(d), Act(u), c, xs) {
      forall s
        ensures EntryUndone(d, u, c, xs, s)
      {
        RunParts(u, c1, xs, rs, s);
        EntryBack(d, u, c, xs, c1, rs, s);
      }
    }
  }
}
