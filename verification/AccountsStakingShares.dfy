/** What a block does to every single stake, read off its transactions and inherents. */
module StakingShares {
  import opened Prelude
  import opened Transactions
  import opened Accounts
  import opened AccountsLocal
  import opened AccountsRevert
  import opened AccountsCoins
  import opened AccountsSupply
  import opened StakeEntries
  import opened StakingContracts
  import opened StakingViews
  import opened StakingParts
  import opened StakingPhases
  import opened StakingReverts
  import opened StakingBlocks
  import opened StakingFunds

  // ---------- what a transaction says ----------

  /** What a transaction takes off the inactive stake of `s` in the contract at `a`. */
  function TakesFrom(p: StakingPolicy, a: nat, s: nat, t: Tx): nat {
    if t.sender != a then 0
    else if t.recipient != a then (if p.unstaker(t) == Some(s) then t.value + t.fee else 0)
    else match p.selfAction(t)
      case Some(ReactivateStake(q, _)) => if q == s then t.value + t.fee else 0
      case _ => 0
  }

  /** What it adds to that inactive stake. */
  function GivesTo(p: StakingPolicy, a: nat, s: nat, t: Tx): nat {
    if t.sender != a || t.recipient != a then 0
    else match p.selfAction(t)
      case Some(RetireStake(q, _)) => if q == s then t.value else 0
      case _ => 0
  }

  /** What it delegates to validator `v` for `s`. */
  function DelegatesTo(p: StakingPolicy, a: nat, v: nat, s: nat, t: Tx): nat {
    if t.recipient != a then 0
    else if t.sender != a then (if p.delegation(t) == Some(Delegation(s, v)) then t.value else 0)
    else if p.selfAction(t) == Some(ReactivateStake(s, v)) then t.value
    else 0
  }

  /** What it takes off what `s` has delegated to `v`. */
  function RetiresFrom(p: StakingPolicy, a: nat, v: nat, s: nat, t: Tx): nat {
    if t.sender == a && t.recipient == a && p.selfAction(t) == Some(RetireStake(s, v)) then t.value + t.fee else 0
  }

  function Taking(p: StakingPolicy, a: nat, s: nat): Tx -> nat {
    (t: Tx) => TakesFrom(p, a, s, t)
  }

  function Giving(p: StakingPolicy, a: nat, s: nat): Tx -> nat {
    (t: Tx) => GivesTo(p, a, s, t)
  }

  function Delegating(p: StakingPolicy, a: nat, v: nat, s: nat): Tx -> nat {
    (t: Tx) => DelegatesTo(p, a, v, s, t)
  }

  function Retiring(p: StakingPolicy, a: nat, v: nat, s: nat): Tx -> nat {
    (t: Tx) => RetiresFrom(p, a, v, s, t)
  }

  function SumOver(f: Tx -> nat, txs: seq<Tx>): nat {
    if txs == [] then 0 else f(txs[0]) + SumOver(f, txs[1..])
  }

  /** Whether stake of `s` is retired at all. */
  predicate RetiresAny(p: StakingPolicy, a: nat, s: nat, txs: seq<Tx>) {
    exists i :: 0 <= i < |txs| && RetiresBy(p, a, s, txs[i])
  }

  predicate RetiresBy(p: StakingPolicy, a: nat, s: nat, t: Tx) {
    t.sender == a && t.recipient == a && match p.selfAction(t) case Some(RetireStake(q, _)) => q == s case _ => false
  }

  // ---------- when it can be applied ----------

  /** A staker holds enough inactive stake to take from. */
  predicate HasInactive(c: Contract, s: nat, amount: nat) {
    s in c.inactive && amount <= c.inactive[s].balance
  }

  predicate HasDelegated(c: Contract, s: nat, v: nat, amount: nat) {
    && v in c.validators && s in c.validators[v].stakes && amount <= c.validators[v].stakes[s]
    && amount <= c.validators[v].balance
  }

  predicate CanDelegate(c: Contract, v: nat, amount: nat) {
    v in c.validators && c.validators[v].balance + amount <= MAX_SAFE_VALUE
  }

  /**
   * A transaction can be taken from the contract exactly if it withdraws mature inactive stake,
   * retires delegated stake, or reactivates inactive stake for a known validator, no more than there is.
   */
  lemma {:induction false} SpendableIff(p: StakingPolicy, c: Contract, t: Tx)
    ensures ActOn(Spending(p), c, t, None).Success? <==>
            && t.value + t.fee <= c.balance
            && if t.sender != t.recipient then
                 match p.unstaker(t)
                 case None => false
                 case Some(s) => HasInactive(c, s, t.value + t.fee) && p.mature(c.inactive[s].retireTime)
               else
                 match p.selfAction(t)
                 case None => false
                 case Some(RetireStake(s, v)) => HasDelegated(c, s, v, t.value + t.fee)
                 case Some(ReactivateStake(s, v)) => HasInactive(c, s, t.value + t.fee) && v in c.validators
  {
  }

  /** It can be paid in exactly if it delegates to a known validator, or retires stake, without an overflow. */
  lemma {:induction false} ReceivableIff(p: StakingPolicy, c: Contract, t: Tx)
    ensures ActOn(Receiving(p), c, t, None).Success? <==>
            && c.balance + t.value <= MAX_SAFE_VALUE
            && if t.sender != t.recipient then
                 match p.delegation(t)
                 case None => false
                 case Some(d) => CanDelegate(c, d.validator, t.value)
               else
                 match p.selfAction(t)
                 case None => false
                 case Some(RetireStake(s, _)) => s in c.inactive ==> c.inactive[s].balance + t.value <= MAX_SAFE_VALUE
                 case Some(ReactivateStake(s, v)) => CanDelegate(c, v, t.value)
  {
  }

  // ---------- one staker ----------

  lemma {:induction false} TakeTotal(mature: nat -> bool, e: Entry, ms: seq<Move>)
    requires FoldNew(CommitTaking(mature), e, ms).Success?
    ensures EntryBalance(FoldNew(CommitTaking(mature), e, ms).value.0) + Taken(ms) == EntryBalance(e)
    ensures var after := FoldNew(CommitTaking(mature), e, ms).value.0;
            after.Some? ==> e.Some? && after.value.retireTime == e.value.retireTime
    decreases |ms|
  {
    if ms != [] {
      var step := TakeStep(mature, e, ms[0]);
      FoldNewHead(CommitTaking(mature), e, ms, step);
      TakeTotal(mature, step.value.0, ms[1..]);
    }
  }

  lemma {:induction false} GiveTotal(height: nat, e: Entry, ms: seq<Move>)
    requires FoldNew(CommitGiving(height), e, ms).Success?
    ensures EntryBalance(FoldNew(CommitGiving(height), e, ms).value.0) == EntryBalance(e) + Given(ms)
    ensures var after := FoldNew(CommitGiving(height), e, ms).value.0;
            if GiveCount(ms) == 0 then after == e else after.Some? && after.value.retireTime == height
    decreases |ms|
  {
    if ms != [] {
      var step := GiveStep(height, e, ms[0]);
      FoldNewHead(CommitGiving(height), e, ms, step);
      GiveTotal(height, step.value.0, ms[1..]);
    }
  }

  lemma {:induction false} EffectsSucceed(d: Side, c: Contract, xs: seq<Tx>, rs: seq<Option<Data>>)
    requires |rs| == |xs| && Fold(Act(d), c, xs, rs).Success?
    ensures forall t :: t in xs ==> d.effect(t).Success?
    decreases |xs|
  {
    if xs != [] {
      FoldHead(Act(d), c, xs, rs, ActOn(d, c, xs[0], rs[0]));
      EffectsSucceed(d, ActOn(d, c, xs[0], rs[0]).value.0, xs[1..], rs[1..]);
      assert xs == [xs[0]] + xs[1..];
    }
  }

  lemma {:induction false} ItemsNext(address: Tx -> nat, a: nat, txs: seq<Tx>)
    requires txs != []
    ensures ItemsAt(address, a, txs) ==
            (if address(txs[0]) == a then [txs[0]] else []) + ItemsAt(address, a, txs[1..])
    ensures forall t :: t in ItemsAt(address, a, txs[1..]) ==> t in ItemsAt(address, a, txs)
  {
  }

  lemma {:induction false} MovesNext(effect: Tx -> Result<Effect, AccountError>, t: Tx, xs: seq<Tx>, s: nat)
    ensures MovesOf(effect, [t] + xs, s) == [MoveOn(effect(t), s)] + MovesOf(effect, xs, s)
  {
    assert ([t] + xs)[1..] == xs;
  }

  lemma {:induction false} CountNext(m: Move, ms: seq<Move>)
    ensures Taken([m] + ms) == (if Takes(m) then m.amount else 0) + Taken(ms)
    ensures Given([m] + ms) == (if m.Retire? then m.amount else 0) + Given(ms)
    ensures GiveCount([m] + ms) == (if m.Retire? then 1 else 0) + GiveCount(ms)
  {
    assert ([m] + ms)[1..] == ms;
  }

  /** What a block takes off one stake. */
  lemma {:induction false} TakesAddUp(p: StakingPolicy, txs: seq<Tx>, a: nat, s: nat)
    requires forall t :: t in ItemsAt(BySender, a, txs) ==> SenderEffect(p, t).Success?
    ensures Taken(TakesOf(p, txs, a, s)) == SumOver(Taking(p, a, s), txs)
  {
    if txs != [] {
      ItemsNext(BySender, a, txs);
      TakesAddUp(p, txs[1..], a, s);
      var rest := ItemsAt(BySender, a, txs[1..]);
      if txs[0].sender == a {
        assert txs[0] in ItemsAt(BySender, a, txs);
        MovesNext(Spending(p).effect, txs[0], rest, s);
        CountNext(MoveOn(SenderEffect(p, txs[0]), s), MovesOf(Spending(p).effect, rest, s));
      } else {
        assert [] + rest == rest;
      }
    }
  }

  lemma {:induction false} RetiresFirst(p: StakingPolicy, a: nat, s: nat, txs: seq<Tx>)
    requires txs != []
    ensures RetiresAny(p, a, s, txs) <==> RetiresBy(p, a, s, txs[0]) || RetiresAny(p, a, s, txs[1..])
  {
    if RetiresAny(p, a, s, txs[1..]) {
      var i :| 0 <= i < |txs| - 1 && RetiresBy(p, a, s, txs[1..][i]);
      assert RetiresBy(p, a, s, txs[i + 1]);
    }
    if RetiresAny(p, a, s, txs) && !RetiresBy(p, a, s, txs[0]) {
      var i :| 0 <= i < |txs| && RetiresBy(p, a, s, txs[i]);
      assert RetiresBy(p, a, s, txs[1..][i - 1]);
    }
  }

  /** What a block adds to one stake. */
  lemma {:induction false} GivesAddUp(p: StakingPolicy, txs: seq<Tx>, a: nat, s: nat)
    requires forall t :: t in ItemsAt(ByRecipient, a, txs) ==> RecipientEffect(p, t).Success?
    ensures Given(GivesOf(p, txs, a, s)) == SumOver(Giving(p, a, s), txs)
    ensures GiveCount(GivesOf(p, txs, a, s)) > 0 <==> RetiresAny(p, a, s, txs)
  {
    if txs != [] {
      ItemsNext(ByRecipient, a, txs);
      RetiresFirst(p, a, s, txs);
      GivesAddUp(p, txs[1..], a, s);
      var rest := ItemsAt(ByRecipient, a, txs[1..]);
      if txs[0].recipient == a {
        assert txs[0] in ItemsAt(ByRecipient, a, txs);
        MovesNext(Receiving(p).effect, txs[0], rest, s);
        CountNext(MoveOn(RecipientEffect(p, txs[0]), s), MovesOf(Receiving(p).effect, rest, s));
      } else {
        assert [] + rest == rest;
      }
    }
  }

  // ---------- one delegation ----------

  function StakeAt(vs: Validators, v: nat, s: nat): nat {
    if v in vs then StakeOf(vs[v], s) else 0
  }

  /** What a shift does to the delegation of `s` to `v`. */
  function ShiftOn(x: Shift, v: nat, s: nat): int {
    match x
    case Add(w, q, amount) => if w == v && q == s then amount else 0
    case Sub(w, q, amount) => if w == v && q == s then 0 - amount else 0
    case _ => 0
  }

  function EffectOn(effect: Tx -> Result<Effect, AccountError>, v: nat, s: nat, t: Tx): int {
    if effect(t).Success? then ShiftOn(effect(t).value.shift, v, s) else 0
  }

  function EffectsOn(effect: Tx -> Result<Effect, AccountError>, v: nat, s: nat, xs: seq<Tx>): int {
    if xs == [] then 0 else EffectOn(effect, v, s, xs[0]) + EffectsOn(effect, v, s, xs[1..])
  }

  lemma {:induction false} ShiftedAt(vs: Validators, x: Shift, v: nat, s: nat)
    requires Shifted(vs, x).Success?
    ensures StakeAt(Shifted(vs, x).value, v, s) == StakeAt(vs, v, s) + ShiftOn(x, v, s)
    ensures Shifted(vs, x).value.Keys == vs.Keys
  {
  }

  /** What belongs to a validator itself: its deposit, and the data it has registered. */
  ghost predicate SameOwn(vs: Validators, ws: Validators) {
    && ws.Keys == vs.Keys
    && forall v :: v in vs ==>
         Deposit(ws[v]) == Deposit(vs[v]) && ws[v].standing == vs[v].standing
  }

  ghost function Deposit(v: Validator): int {
    v.balance - Sum(v.stakes, Amount)
  }

  lemma {:induction false} ShiftedOwn(vs: Validators, x: Shift)
    requires Shifted(vs, x).Success?
    ensures SameOwn(vs, Shifted(vs, x).value)
  {
    match x {
      case Add(v, s, amount) => GrownDeposit(vs[v], s, amount);
      case Sub(v, s, amount) => ShrunkDeposit(vs[v], s, amount);
      case _ =>
    }
  }

  lemma {:induction false} LedgerAt(d: Side, vs: Validators, xs: seq<Tx>, v: nat, s: nat)
    requires d.shift == Forth && FoldNew(LedgerOp(d), vs, xs).Success?
    ensures StakeAt(FoldNew(LedgerOp(d), vs, xs).value.0, v, s) == StakeAt(vs, v, s) + EffectsOn(d.effect, v, s, xs)
    ensures SameOwn(vs, FoldNew(LedgerOp(d), vs, xs).value.0)
    decreases |xs|
  {
    if xs != [] {
      var first := LedgerStep(d, vs, xs[0]);
      FoldNewHead(LedgerOp(d), vs, xs, first);
      ShiftedAt(vs, d.effect(xs[0]).value.shift, v, s);
      ShiftedOwn(vs, d.effect(xs[0]).value.shift);
      LedgerAt(d, first.value.0, xs[1..], v, s);
    }
  }

  lemma {:induction false} EffectsNext(effect: Tx -> Result<Effect, AccountError>, v: nat, s: nat, t: Tx, xs: seq<Tx>)
    ensures EffectsOn(effect, v, s, [t] + xs) == EffectOn(effect, v, s, t) + EffectsOn(effect, v, s, xs)
  {
    assert ([t] + xs)[1..] == xs;
  }

  lemma {:induction false} RetirementsAddUp(p: StakingPolicy, txs: seq<Tx>, a: nat, v: nat, s: nat)
    requires forall t :: t in ItemsAt(BySender, a, txs) ==> SenderEffect(p, t).Success?
    ensures EffectsOn(Spending(p).effect, v, s, ItemsAt(BySender, a, txs)) + SumOver(Retiring(p, a, v, s), txs) == 0
  {
    if txs != [] {
      ItemsNext(BySender, a, txs);
      RetirementsAddUp(p, txs[1..], a, v, s);
      var rest := ItemsAt(BySender, a, txs[1..]);
      if txs[0].sender == a {
        assert txs[0] in ItemsAt(BySender, a, txs);
        EffectsNext(Spending(p).effect, v, s, txs[0], rest);
      } else {
        assert [] + rest == rest;
      }
    }
  }

  lemma {:induction false} DelegationsAddUp(p: StakingPolicy, txs: seq<Tx>, a: nat, v: nat, s: nat)
    requires forall t :: t in ItemsAt(ByRecipient, a, txs) ==> RecipientEffect(p, t).Success?
    ensures EffectsOn(Receiving(p).effect, v, s, ItemsAt(ByRecipient, a, txs)) == SumOver(Delegating(p, a, v, s), txs)
  {
    if txs != [] {
      ItemsNext(ByRecipient, a, txs);
      DelegationsAddUp(p, txs[1..], a, v, s);
      var rest := ItemsAt(ByRecipient, a, txs[1..]);
      if txs[0].recipient == a {
        assert txs[0] in ItemsAt(ByRecipient, a, txs);
        EffectsNext(Receiving(p).effect, v, s, txs[0], rest);
      } else {
        assert [] + rest == rest;
      }
    }
  }

  // ---------- marks ----------

  /** An inherent slashes the validator `v`, or the given slot, of the contract at `a`. */
  predicate Marks(p: StakingPolicy, a: nat, i: Inherent, m: Mark) {
    i.target == a && p.slashed(i).Some? &&
    var x := p.slashed(i).value;
    match m
    case Parked(v) => x.validator == v
    case Disabled(v, slot) => x.validator == v && x.slot == slot && !x.era.PreviousEpoch?
    case LostNow(slot) => x.slot == slot && x.era.Current?
    case LostBefore(slot) => x.slot == slot && !x.era.Current?
  }

  lemma {:induction false} SlashMarks(p: StakingPolicy, c: Contract, i: Inherent, m: Mark)
    requires CommitSlash(p, c, i).Success?
    ensures m in CommitSlash(p, c, i).value.0.marks <==> m in c.marks || Marks(p, i.target, i, m)
    ensures CommitSlash(p, c, i).value.0 == c.(marks := CommitSlash(p, c, i).value.0.marks)
  {
  }

  ghost predicate MarkedBy(p: StakingPolicy, a: nat, xs: seq<Inherent>, m: Mark) {
    exists i :: i in xs && Marks(p, a, i, m)
  }

  lemma {:induction false} SlashesMark(p: StakingPolicy, a: nat, c: Contract, xs: seq<Inherent>, m: Mark)
    requires FoldNew(Slashing(p), c, xs).Success? && forall i :: i in xs ==> i.target == a
    ensures m in FoldNew(Slashing(p), c, xs).value.0.marks <==> m in c.marks || MarkedBy(p, a, xs, m)
    decreases |xs|
  {
    if xs != [] {
      var first := CommitSlash(p, c, xs[0]);
      FoldNewHead(Slashing(p), c, xs, first);
      SlashMarks(p, c, xs[0], m);
      assert xs[0] in xs && forall i :: i in xs[1..] ==> i in xs;
      SlashesMark(p, a, first.value.0, xs[1..], m);
      assert MarkedBy(p, a, xs, m) <==> Marks(p, a, xs[0], m) || MarkedBy(p, a, xs[1..], m) by {
        assert xs == [xs[0]] + xs[1..];
      }
    }
  }

  // ---------- the phases of a block ----------

  lemma {:induction false} ItemsMark(p: StakingPolicy, address: Inherent -> nat, a: nat, xs: seq<Inherent>, m: Mark)
    requires forall i :: address(i) == i.target
    ensures MarkedBy(p, a, ItemsAt(address, a, xs), m) <==> MarkedBy(p, a, xs, m)
    ensures forall i :: i in ItemsAt(address, a, xs) ==> i.target == a
    decreases |xs|
  {
    if xs != [] {
      ItemsMark(p, address, a, xs[1..], m);
      var rest := ItemsAt(address, a, xs[1..]);
      assert ItemsAt(address, a, xs) == (if address(xs[0]) == a then [xs[0]] else []) + rest;
      assert forall i :: i in ItemsAt(address, a, xs) <==> (i == xs[0] && i.target == a) || i in rest;
      assert forall i :: i in xs <==> i == xs[0] || i in xs[1..];
    }
  }

  /** Slashes mark the contract and change nothing else. */
  lemma {:induction false} SlashPhase(p: StakingPolicy, tree: Tree<AnyAccount>, xs: seq<Inherent>, t: Tree<AnyAccount>,
                                      rs: seq<Option<Data>>, a: nat, m: Mark)
    requires ApplyAll(StakingKind(p), Inherents(StakingOps(p).commitInherent), tree, xs, NoReceipts(|xs|)) ==
             Success((t, rs))
    requires Get(StakingKind(p), tree, a).Staking?
    ensures Get(StakingKind(p), t, a).Staking?
    ensures var c, c' := Get(StakingKind(p), tree, a).contract, Get(StakingKind(p), t, a).contract;
            c' == c.(marks := c'.marks) && (m in c'.marks <==> m in c.marks || MarkedBy(p, a, xs, m))
  {
    var ph := Inherents(StakingOps(p).commitInherent);
    var c, items := Get(StakingKind(p), tree, a).contract, ItemsAt(ph.address, a, xs);
    RunAtStaking(p, ph, Slashing(p), CoinOps(p.coins).commitInherent, tree, xs, NoReceipts(|xs|), a);
    PickNone(ph.address, a, xs);
    ItemsMark(p, ph.address, a, xs, m);
    SlashesMark(p, a, c, items, m);
    SlashesKeep(p, c, items);
  }

  /** One side of the transactions on the contract: its effects succeed, and its delegations shift by them. */
  lemma {:induction false} SidePhase(p: StakingPolicy, ph: Phase<AnyAccount, Tx>, d: Side, coins: Op<CoinAccount, Tx>,
                                     tree: Tree<AnyAccount>, txs: seq<Tx>, a: nat, v: nat, s: nat)
    requires ph.op == OnAccount(Act(d), coins) && Idle(d.entry) && d.shift == Forth
    requires ApplyAll(StakingKind(p), ph, tree, txs, NoReceipts(|txs|)).Success? &&
             Get(StakingKind(p), tree, a).Staking?
    ensures var items, t := ItemsAt(ph.address, a, txs),
            ApplyAll(StakingKind(p), ph, tree, txs, NoReceipts(|txs|)).value.0;
            && Get(StakingKind(p), t, a).Staking? && (forall x :: x in items ==> d.effect(x).Success?)
            && var c, c' := Get(StakingKind(p), tree, a).contract, Get(StakingKind(p), t, a).contract;
               && c'.marks == c.marks && SameOwn(c.validators, c'.validators)
               && StakeAt(c'.validators, v, s) == StakeAt(c.validators, v, s) + EffectsOn(d.effect, v, s, items)
  {
    var c, items := Get(StakingKind(p), tree, a).contract, ItemsAt(ph.address, a, txs);
    RunAtStaking(p, ph, Act(d), coins, tree, txs, NoReceipts(|txs|), a);
    PickNone(ph.address, a, txs);
    EffectsSucceed(d, c, items, NoReceipts(|items|));
    RunParts(d, c, items, NoReceipts(|items|), s);
    LedgerAt(d, c.validators, items, v, s);
  }

  lemma {:induction false} PruneKeeps<A(!new)>(k: Kind<A>, tree: Tree<A>, txs: seq<Tx>, a: nat)
    requires !k.prunable(Get(k, tree, a))
    ensures Get(k, PruneAccounts(k, tree, txs).0, a) == Get(k, tree, a)
    decreases |txs|
  {
    if txs != [] {
      var b := txs[0].sender;
      if k.prunable(Get(k, tree, b)) {
        GetPut(k, tree, b, k.initial, a);
        PruneKeeps(k, Put(k, tree, b, k.initial), txs[1..], a);
      } else {
        PruneKeeps(k, tree, txs[1..], a);
      }
    }
  }

  /** After the recipients are served, only marks change. */
  lemma {:induction false} AfterRecipients(p: StakingPolicy, tree: Tree<AnyAccount>, txs: seq<Tx>,
                                           inherents: seq<Inherent>, w: Trail<AnyAccount>, a: nat, m: Mark)
    requires Follows(StakingKind(p), StakingOps(p), tree, txs, inherents, w) && !Creates(txs, a)
    requires Get(StakingKind(p), w.afterRecipients, a).Staking?
    ensures Get(StakingKind(p), w.afterPost, a).Staking?
    ensures var c := Get(StakingKind(p), w.afterRecipients, a).contract;
            var c' := Get(StakingKind(p), w.afterPost, a).contract;
            c' == c.(marks := c'.marks) &&
            (m in c'.marks <==> m in c.marks || MarkedBy(p, a, Select(inherents, false), m))
  {
    var k := StakingKind(p);
    CreateElsewhere(k, w.afterRecipients, a, Get(k, w.afterRecipients, a), txs);
    PruneKeeps(k, w.created, txs, a);
    SlashPhase(p, w.afterPruning, Select(inherents, false), w.afterPost, w.post, a, m);
  }

  lemma {:induction false} SelectedMark(p: StakingPolicy, a: nat, inherents: seq<Inherent>, m: Mark)
    ensures MarkedBy(p, a, inherents, m) <==>
            MarkedBy(p, a, Select(inherents, true), m) || MarkedBy(p, a, Select(inherents, false), m)
  {
    forall i
      ensures i in inherents <==> i in Select(inherents, true) || i in Select(inherents, false)
    {
      SelectedAll(inherents, i);
    }
  }

  lemma {:induction false} SelectedAll(inherents: seq<Inherent>, i: Inherent)
    ensures i in inherents <==> i in Select(inherents, true) || i in Select(inherents, false)
  {
    if inherents != [] {
      SelectedAll(inherents[1..], i);
      assert inherents == [inherents[0]] + inherents[1..];
    }
  }

  // ---------- whole blocks ----------

  /** The inactive stake of a staker after a block, and the time it counts from. */
  ghost predicate InactiveIs(p: StakingPolicy, txs: seq<Tx>, a: nat, c: Contract, c': Contract, s: nat) {
    var before, after := EntryOf(c, s), EntryOf(c', s);
    && EntryBalance(after) + SumOver(Taking(p, a, s), txs) == EntryBalance(before) + SumOver(Giving(p, a, s), txs)
    && (RetiresAny(p, a, s, txs) ==> after.Some? && after.value.retireTime == p.height)
    && (!RetiresAny(p, a, s, txs) && after.Some? ==>
          before.Some? && after.value.retireTime == before.value.retireTime)
  }

  /** What a staker has delegated to a validator after a block. */
  ghost predicate DelegatedIs(p: StakingPolicy, txs: seq<Tx>, a: nat, c: Contract, c': Contract, v: nat, s: nat) {
    StakeAt(c'.validators, v, s) + SumOver(Retiring(p, a, v, s), txs) ==
    StakeAt(c.validators, v, s) + SumOver(Delegating(p, a, v, s), txs)
  }

  lemma {:induction false} InactiveShares(p: StakingPolicy, tree: Tree<AnyAccount>, txs: seq<Tx>,
                                          inherents: seq<Inherent>, w: Trail<AnyAccount>, a: nat, c: Contract, s: nat)
    requires Follows(StakingKind(p), StakingOps(p), tree, txs, inherents, w)
    requires Get(StakingKind(p), tree, a) == Staking(c) && !Creates(txs, a)
    ensures Get(StakingKind(p), w.afterPost, a).Staking?
    ensures InactiveIs(p, txs, a, c, Get(StakingKind(p), w.afterPost, a).contract, s)
  {
    StakeTrail(p, tree, txs, inherents, w, a, c, s);
    AfterRecipients(p, tree, txs, inherents, w, a, Parked(0));
    SharesAddUp(p, tree, txs, inherents, w, a, s);
    TakeTotal(p.mature, EntryOf(c, s), TakesOf(p, txs, a, s));
    GiveTotal(p.height, EntryOf(Get(StakingKind(p), w.afterSenders, a).contract, s), GivesOf(p, txs, a, s));
  }

  lemma {:induction false} SharesAddUp(p: StakingPolicy, tree: Tree<AnyAccount>, txs: seq<Tx>, inherents: seq<Inherent>,
                                       w: Trail<AnyAccount>, a: nat, s: nat)
    requires Follows(StakingKind(p), StakingOps(p), tree, txs, inherents, w)
    requires Get(StakingKind(p), w.afterPre, a).Staking? && Get(StakingKind(p), w.afterSenders, a).Staking?
    ensures Taken(TakesOf(p, txs, a, s)) == SumOver(Taking(p, a, s), txs)
    ensures Given(GivesOf(p, txs, a, s)) == SumOver(Giving(p, a, s), txs)
    ensures GiveCount(GivesOf(p, txs, a, s)) > 0 <==> RetiresAny(p, a, s, txs)
  {
    var ops, coins := StakingOps(p), CoinOps(p.coins);
    SpendingOpposed(p);
    ReceivingOpposed(p);
    SidePhase(p, Outgoing(ops.commitOutgoing), Spending(p), coins.commitOutgoing, w.afterPre, txs, a, 0, 0);
    SidePhase(p, Incoming(ops.commitIncoming), Receiving(p), coins.commitIncoming, w.afterSenders, txs, a, 0, 0);
    TakesAddUp(p, txs, a, s);
    GivesAddUp(p, txs, a, s);
  }

  lemma {:induction false} DelegatedShares(p: StakingPolicy, tree: Tree<AnyAccount>, txs: seq<Tx>,
                                           inherents: seq<Inherent>,
                                           w: Trail<AnyAccount>, a: nat, c: Contract, v: nat, s: nat)
    requires Follows(StakingKind(p), StakingOps(p), tree, txs, inherents, w)
    requires Get(StakingKind(p), tree, a) == Staking(c) && !Creates(txs, a)
    ensures Get(StakingKind(p), w.afterPost, a).Staking?
    ensures SameOwn(c.validators, Get(StakingKind(p), w.afterPost, a).contract.validators)
    ensures DelegatedIs(p, txs, a, c, Get(StakingKind(p), w.afterPost, a).contract, v, s)
  {
    var ops, coins, m := StakingOps(p), CoinOps(p.coins), Parked(0);
    SpendingOpposed(p);
    ReceivingOpposed(p);
    SlashPhase(p, tree, Select(inherents, true), w.afterPre, w.pre, a, m);
    SidePhase(p, Outgoing(ops.commitOutgoing), Spending(p), coins.commitOutgoing, w.afterPre, txs, a, v, s);
    SidePhase(p, Incoming(ops.commitIncoming), Receiving(p), coins.commitIncoming, w.afterSenders, txs, a, v, s);
    RetirementsAddUp(p, txs, a, v, s);
    DelegationsAddUp(p, txs, a, v, s);
    AfterRecipients(p, tree, txs, inherents, w, a, m);
  }

  lemma {:induction false} SlashedMarks(p: StakingPolicy, tree: Tree<AnyAccount>, txs: seq<Tx>,
                                        inherents: seq<Inherent>, w: Trail<AnyAccount>, a: nat, c: Contract, m: Mark)
    requires Follows(StakingKind(p), StakingOps(p), tree, txs, inherents, w)
    requires Get(StakingKind(p), tree, a) == Staking(c) && !Creates(txs, a)
    ensures Get(StakingKind(p), w.afterPost, a).Staking?
    ensures m in Get(StakingKind(p), w.afterPost, a).contract.marks <==> m in c.marks || MarkedBy(p, a, inherents, m)
  {
    var ops, coins := StakingOps(p), CoinOps(p.coins);
    SpendingOpposed(p);
    ReceivingOpposed(p);
    SlashPhase(p, tree, Select(inherents, true), w.afterPre, w.pre, a, m);
    SidePhase(p, Outgoing(ops.commitOutgoing), Spending(p), coins.commitOutgoing, w.afterPre, txs, a, 0, 0);
    SidePhase(p, Incoming(ops.commitIncoming), Receiving(p), coins.commitIncoming, w.afterSenders, txs, a, 0, 0);
    AfterRecipients(p, tree, txs, inherents, w, a, m);
    SelectedMark(p, a, inherents, m);
  }

  /**
   * The staking contract after a block, stake by stake: what every staker holds inactive and since
   * when, what it has delegated to whom, and which validators and slots are marked. Validators, their
   * own deposits and data stay as they were.
   */
  lemma {:induction false} BlockShares(p: StakingPolicy, tree: Tree<AnyAccount>, txs: seq<Tx>, inherents: seq<Inherent>,
                                       a: nat, c: Contract) returns (c': Contract)
    requires Commit(StakingKind(p), StakingOps(p), tree, txs, inherents).Success?
    requires Get(StakingKind(p), tree, a) == Staking(c) && !Creates(txs, a)
    ensures Get(StakingKind(p), Commit(StakingKind(p), StakingOps(p), tree, txs, inherents).value.0, a) == Staking(c')
    ensures SameOwn(c.validators, c'.validators)
    ensures forall s :: InactiveIs(p, txs, a, c, c', s)
    ensures forall v, s :: DelegatedIs(p, txs, a, c, c', v, s)
    ensures forall m :: m in c'.marks <==> m in c.marks || MarkedBy(p, a, inherents, m)
  {
    var w := TrailOf(StakingKind(p), StakingOps(p), tree, txs, inherents);
    DelegatedShares(p, tree, txs, inherents, w, a, c, 0, 0);
    c' := Get(StakingKind(p), w.afterPost, a).contract;
    forall s
      ensures InactiveIs(p, txs, a, c, c', s)
    {
      InactiveShares(p, tree, txs, inherents, w, a, c, s);
    }
    forall v, s
      ensures DelegatedIs(p, txs, a, c, c', v, s)
    {
      DelegatedShares(p, tree, txs, inherents, w, a, c, v, s);
    }
    forall m
      ensures m in c'.marks <==> m in c.marks || MarkedBy(p, a, inherents, m)
    {
      SlashedMarks(p, tree, txs, inherents, w, a, c, m);
    }
  }
}
