/**
 * The staking contract as stakers and slash inherents see it (primitives/account/src/staking_contract):
 * delegated stake per validator, inactive stake per staker, and the marks that slashes leave.
 */
module StakingContracts {
  import opened Prelude
  import opened Transactions
  import opened Accounts
  import opened AccountsLocal
  import opened AccountsCoins
  import opened StakeEntries

  const STAKING: nat := 3

  /** Stands for the panic of a failed `unwrap`. */
  const ABORTED: AccountError := Rejected(6)

  /** A validator, active or not; the reward address and the time of its retirement do not matter here. */
  datatype Validator = Validator(balance: Coin, stakes: map<nat, nat>, standing: Data)

  /** What a slash inherent can add: a parked validator, a disabled slot, a slot without rewards. */
  datatype Mark =
    | Parked(validator: nat)
    | Disabled(validator: nat, slot: nat)
    | LostNow(slot: nat)
    | LostBefore(slot: nat)

  datatype Contract = Contract(
    balance: Coin,
    validators: map<nat, Validator>,
    inactive: map<nat, InactiveStake>,
    marks: set<Mark>)

  datatype SelfAction = RetireStake(staker: nat, validator: nat) | ReactivateStake(staker: nat, validator: nat)

  datatype Delegation = Delegation(staker: nat, validator: nat)

  datatype Era = PreviousEpoch | PreviousBatch | Current

  datatype Slashed = Slashed(validator: nat, slot: nat, era: Era)

  /** The block and what its transactions and inherents say: who signed, for which validator and slot. */
  datatype StakingPolicy = StakingPolicy(
    coins: Policy,
    height: nat,
    mature: nat -> bool,
    unstaker: Tx -> Option<nat>,
    delegation: Tx -> Option<Delegation>,
    selfAction: Tx -> Option<SelfAction>,
    slashed: Inherent -> Option<Slashed>)

  // ---------- the effect of a transaction ----------

  /** What happens to delegated stake. */
  datatype Shift = Still | Known(validator: nat) | Add(validator: nat, staker: nat, amount: nat)
                 | Sub(validator: nat, staker: nat, amount: nat)

  /** The amount that enters or leaves the contract, and what it does to one staker. */
  datatype Effect = Effect(amount: nat, shift: Shift, staker: nat, move: Move)

  function SenderEffect(p: StakingPolicy, t: Tx): Result<Effect, AccountError> {
    var total :- TotalValue(t);
    if t.sender != t.recipient then
      match p.unstaker(t)
      case None => Failure(INVALID_FOR_SENDER)
      case Some(s) => Success(Effect(total, Still, s, Unstake(total)))
    else
      match p.selfAction(t)
      case None => Failure(INVALID_FOR_SENDER)
      case Some(RetireStake(s, v)) => Success(Effect(total, Sub(v, s, total), s, Keep))
      case Some(ReactivateStake(s, v)) => Success(Effect(total, Known(v), s, Reactivate(total)))
  }

  function RecipientEffect(p: StakingPolicy, t: Tx): Result<Effect, AccountError> {
    if t.sender != t.recipient then
      match p.delegation(t)
      case None => Failure(INVALID_FOR_RECIPIENT)
      case Some(d) => Success(Effect(t.value, Add(d.validator, d.staker, t.value), d.staker, Keep))
    else
      match p.selfAction(t)
      case None => Failure(INVALID_FOR_RECIPIENT)
      case Some(RetireStake(s, _)) => Success(Effect(t.value, Still, s, Retire(t.value)))
      case Some(ReactivateStake(s, v)) => Success(Effect(t.value, Add(v, s, t.value), s, Keep))
  }

  function StakeOf(v: Validator, s: nat): nat {
    if s in v.stakes then v.stakes[s] else 0
  }

  /** `ActiveValidator` and `InactiveValidator` with some more stake of a staker. */
  function Grown(v: Validator, s: nat, amount: nat): Result<Validator, AccountError> {
    var b :- BalanceAdd(v.balance, amount);
    Success(v.(balance := b, stakes := v.stakes[s := StakeOf(v, s) + amount]))
  }

  /** With some less; who has nothing left is no longer listed. */
  function Shrunk(v: Validator, s: nat, amount: nat): Result<Validator, AccountError> {
    if s !in v.stakes then Failure(INVALID_FOR_SENDER)
    else if amount > v.stakes[s] then Failure(INSUFFICIENT_FUNDS)
    else
      var b :- BalanceSub(v.balance, amount);
      var left := v.stakes[s] - amount;
      Success(v.(balance := b, stakes := if left == 0 then v.stakes - {s} else v.stakes[s := left]))
  }

  function Shifted(vs: map<nat, Validator>, shift: Shift): Result<map<nat, Validator>, AccountError> {
    match shift
    case Still => Success(vs)
    case Known(v) => if v in vs then Success(vs) else Failure(INVALID_FOR_SENDER)
    case Add(v, s, amount) =>
      if v !in vs then Failure(INVALID_FOR_RECIPIENT)
      else
        var grown :- Grown(vs[v], s, amount);
        Success(vs[v := grown])
    case Sub(v, s, amount) =>
      if v !in vs then Failure(INVALID_FOR_SENDER)
      else
        var shrunk :- Shrunk(vs[v], s, amount);
        Success(vs[v := shrunk])
  }

  function Opposite(shift: Shift): Shift {
    match shift
    case Add(v, s, amount) => Sub(v, s, amount)
    case Sub(v, s, amount) => Add(v, s, amount)
    case _ => Still
  }

  function EntryOf(c: Contract, s: nat): Entry {
    if s in c.inactive then Some(c.inactive[s]) else None
  }

  function SetEntry(inactive: map<nat, InactiveStake>, s: nat, e: Entry): map<nat, InactiveStake> {
    match e
    case None => inactive - {s}
    case Some(i) => inactive[s := i]
  }

  // ---------- one side of a transaction ----------

  /** Committing or reverting the sender's or the recipient's side. */
  datatype Side = Side(
    effect: Tx -> Result<Effect, AccountError>,
    balance: (Coin, nat) -> Result<Coin, AccountError>,
    shift: Shift -> Shift,
    entry: Op<Entry, Move>)

  function ActOn(d: Side, c: Contract, t: Tx, r: Option<Data>): Result<(Contract, Option<Data>), AccountError> {
    var e :- d.effect(t);
    var b :- d.balance(c.balance, e.amount);
    var vs :- Shifted(c.validators, d.shift(e.shift));
    var i :- d.entry(EntryOf(c, e.staker), e.move, r);
    Success((Contract(b, vs, SetEntry(c.inactive, e.staker, i.0), c.marks), i.1))
  }

  function Act(d: Side): Op<Contract, Tx> {
    (c: Contract, t: Tx, r: Option<Data>) => ActOn(d, c, t, r)
  }

  const Adding: (Coin, nat) -> Result<Coin, AccountError> := (b: Coin, v: nat) => BalanceAdd(b, v)
  const Subtracting: (Coin, nat) -> Result<Coin, AccountError> := (b: Coin, v: nat) => BalanceSub(b, v)
  const Forth: Shift -> Shift := (x: Shift) => x
  const Back: Shift -> Shift := (x: Shift) => Opposite(x)

  function Spending(p: StakingPolicy): Side {
    Side((t: Tx) => SenderEffect(p, t), Subtracting, Forth, CommitTaking(p.mature))
  }

  function Unspending(p: StakingPolicy): Side {
    Side((t: Tx) => SenderEffect(p, t), Adding, Back, RevertTaking)
  }

  function Receiving(p: StakingPolicy): Side {
    Side((t: Tx) => RecipientEffect(p, t), Adding, Forth, CommitGiving(p.height))
  }

  function Unreceiving(p: StakingPolicy): Side {
    Side((t: Tx) => RecipientEffect(p, t), Subtracting, Back, RevertGiving)
  }

  // ---------- slashes ----------

  function DisabledBy(x: Slashed): set<Mark> {
    if x.era.PreviousEpoch? then {} else {Disabled(x.validator, x.slot)}
  }

  function LostBy(x: Slashed): Mark {
    if x.era.Current? then LostNow(x.slot) else LostBefore(x.slot)
  }

  function Added(x: Slashed): set<Mark> {
    {Parked(x.validator)} + DisabledBy(x) + {LostBy(x)}
  }

  function Flag(b: bool): nat {
    if b then 1 else 0
  }

  /** Which marks are new. */
  function SlashReceipt(x: Slashed, marks: set<Mark>): Data {
    [Flag(Parked(x.validator) !in marks), Flag(!(DisabledBy(x) <= marks)), Flag(LostBy(x) !in marks)]
  }

  function CommitSlash(p: StakingPolicy, c: Contract, i: Inherent): Result<(Contract, Option<Data>), AccountError> {
    if i.value != 0 || !i.ty.Slash? then Failure(INVALID_INHERENT)
    else
      match p.slashed(i)
      case None => Failure(INVALID_INHERENT)
      case Some(x) =>
        if x.validator !in c.validators then Failure(INVALID_INHERENT)
        else Success((c.(marks := c.marks + Added(x)), Some(SlashReceipt(x, c.marks))))
  }

  /** Takes back what a receipt names as new. */
  function RevertSlash(p: StakingPolicy, c: Contract, i: Inherent, r: Option<Data>)
    : Result<(Contract, Option<Data>), AccountError> {
    if !i.ty.Slash? then Failure(INVALID_FOR_RECIPIENT)
    else if r.None? || |r.value| != 3 then Failure(INVALID_RECEIPT)
    else
      match p.slashed(i)
      case None => Failure(INVALID_INHERENT)
      case Some(x) =>
        var parked, disabled, lost := r.value[0] == 1, r.value[1] == 1 && !x.era.PreviousEpoch?, r.value[2] == 1;
        if parked && Parked(x.validator) !in c.marks then Failure(INVALID_INHERENT)
        else if disabled &&
                !(exists m :: m in c.marks && m.Disabled? && m.validator == x.validator) then Failure(ABORTED)
        else
          var gone := (if parked then {Parked(x.validator)} else {}) + (if disabled then DisabledBy(x) else {}) +
                      (if lost then {LostBy(x)} else {});
          Success((c.(marks := c.marks - gone), None))
  }

  function Slashing(p: StakingPolicy): Op<Contract, Inherent> {
    (c: Contract, i: Inherent, _: Option<Data>) => CommitSlash(p, c, i)
  }

  function Unslashing(p: StakingPolicy): Op<Contract, Inherent> {
    (c: Contract, i: Inherent, r: Option<Data>) => RevertSlash(p, c, i, r)
  }

  // ---------- accounts ----------

  /** An account of any type. */
  datatype Account = Coins(coins: AccountsCoins.Account) | Staking(contract: Contract) {

    function Type(): nat {
      if Coins? then coins.Type() else STAKING
    }

    function Balance(): nat {
      if Coins? then coins.balance else contract.balance
    }

    predicate ToBePruned() {
      Coins? && coins.ToBePruned()
    }
  }

  const InCoins: AccountsCoins.Account -> Account := (c: AccountsCoins.Account) => Coins(c)

  const InStaking: Contract -> Account := (c: Contract) => Staking(c)

  /** Coin accounts do what they do; the staking contract does its own. */
  function OnAccount<T>(contract: Op<Contract, T>, coins: Op<AccountsCoins.Account, T>): Op<Account, T> {
    (a: Account, x: T, r: Option<Data>) =>
      match a
      case Coins(c) => Lifted(InCoins, coins(c, x, r))
      case Staking(c) => Lifted(InStaking, contract(c, x, r))
  }

  function StakingKind(p: StakingPolicy): Kind<Account> {
    Kind(Coins(Basic(0)),
         (a: Account) => a.Type(),
         (a: Account) => a.Balance(),
         (b: nat) => Coins(if b <= MAX_SAFE_VALUE then Basic(b) else Basic(0)),
         (ty: nat, b: nat, t: Tx) =>
           match NewContract(p.coins, ty, b, t) case Failure(e) => Failure(e) case Success(c) => Success(Coins(c)),
         (a: Account) => a.ToBePruned())
  }

  function StakingOps(p: StakingPolicy): Ops<Account> {
    var ops := CoinOps(p.coins);
    Ops(OnAccount(Act(Spending(p)), ops.commitOutgoing),
        OnAccount(Act(Unspending(p)), ops.revertOutgoing),
        OnAccount(Act(Receiving(p)), ops.commitIncoming),
        OnAccount(Act(Unreceiving(p)), ops.revertIncoming),
        OnAccount(Slashing(p), ops.commitInherent),
        OnAccount(Unslashing(p), ops.revertInherent))
  }
}
