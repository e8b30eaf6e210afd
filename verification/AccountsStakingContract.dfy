/**
 * The staking contract as the program runs it (primitives/account/src/staking_contract/actions): every
 * action updates the fields in place, and what it leaves where it succeeds is what `ActOn` says.
 */
module StakingActions {
  import opened Prelude
  import opened Transactions
  import opened Accounts
  import opened AccountsCoins
  import opened StakeEntries
  import opened StakingContracts

  type Receipted = Result<Option<Data>, AccountError>

  class StakingContract {
    var balance: Coin
    var validators: map<nat, Validator>
    var inactive: map<nat, InactiveStake>
    var marks: set<Mark>

    ghost function Value(): Contract
      reads this
    {
      Contract(balance, validators, inactive, marks)
    }

    /** What the program leaves where the specification succeeds, and that it fails elsewhere. */
    ghost predicate Follows(r: Receipted, spec: Result<(Contract, Option<Data>), AccountError>)
      reads this
    {
      (r.Success? <==> spec.Success?) && (r.Success? ==> spec == Success((Value(), r.value)))
    }

    // ---------- delegated stake ----------

    /** `stake`, `reactivate_recipient` and `revert_retire_sender`. */
    method Stake(s: nat, value: nat, v: nat) returns (e: Option<AccountError>)
      modifies this`balance, this`validators
      ensures e.None? <==>
              BalanceAdd(old(balance), value).Success? && Shifted(old(validators), Add(v, s, value)).Success?
      ensures e.None? ==> BalanceAdd(old(balance), value) == Success(balance)
      ensures e.None? ==> Shifted(old(validators), Add(v, s, value)) == Success(validators)
    {
      var b := BalanceAdd(balance, value);
      if b.Failure? {
        return Some(b.error);
      }
      if v !in validators {
        return Some(INVALID_FOR_RECIPIENT);
      }
      var entry := validators[v];
      validators := validators - {v};
      var grown := Grown(entry, s, value);
      validators := validators[v := if grown.Success? then grown.value else entry];
      if grown.Failure? {
        return Some(grown.error);
      }
      balance := b.value;
      assert old(validators)[v := grown.value] == validators;
      return None;
    }

    /** `revert_stake`, `revert_reactivate_recipient` and `retire_sender`. */
    method Unstaked(s: nat, value: nat, v: nat) returns (e: Option<AccountError>)
      modifies this`balance, this`validators
      ensures e.None? <==>
              BalanceSub(old(balance), value).Success? && Shifted(old(validators), Sub(v, s, value)).Success?
      ensures e.None? ==> BalanceSub(old(balance), value) == Success(balance)
      ensures e.None? ==> Shifted(old(validators), Sub(v, s, value)) == Success(validators)
    {
      var b := BalanceSub(balance, value);
      if b.Failure? {
        return Some(b.error);
      }
      if v !in validators {
        return Some(INVALID_FOR_SENDER);
      }
      var entry := validators[v];
      validators := validators - {v};
      var shrunk := Shrunk(entry, s, value);
      validators := validators[v := if shrunk.Success? then shrunk.value else entry];
      if shrunk.Failure? {
        return Some(shrunk.error);
      }
      balance := b.value;
      assert old(validators)[v := shrunk.value] == validators;
      return None;
    }

    // ---------- inactive stake ----------

    /** `retire_recipient` and `revert_reactivate_sender`. */
    method Retire(s: nat, value: Coin, time: Option<nat>) returns (r: Receipted)
      modifies this`balance, this`inactive
      ensures r.Success? <==>
              BalanceAdd(old(balance), value).Success? && Give(old(EntryOf(Value(), s)), value, time).Success?
      ensures r.Success? ==> BalanceAdd(old(balance), value) == Success(balance)
      ensures r.Success? ==>
                var given := Give(old(EntryOf(Value(), s)), value, time).value;
                inactive == SetEntry(old(inactive), s, given.0) && r.value == given.1
    {
      if s !in inactive && time.None? {
        return Failure(INVALID_RECEIPT);
      }
      var b := BalanceAdd(balance, value);
      if b.Failure? {
        return Failure(b.error);
      }
      balance := b.value;
      if s in inactive {
        var stake := inactive[s];
        inactive := inactive - {s};
        var total := BalanceAdd(stake.balance, value);
        if total.Failure? {
          return Failure(total.error);
        }
        inactive := inactive[s := InactiveStake(total.value, if time.Some? then time.value else stake.retireTime)];
        assert inactive == old(inactive)[s := inactive[s]];
        return Success(Some([stake.retireTime]));
      }
      inactive := inactive[s := InactiveStake(value, time.value)];
      return Success(None);
    }

    /** `reactivate_sender`: takes off some stake, and may set a new time for the rest. */
    method Reactivate(s: nat, value: nat, time: Option<nat>) returns (r: Receipted)
      modifies this`balance, this`inactive
      ensures r.Success? <==> BalanceSub(old(balance), value).Success? && s in old(inactive)
      ensures r.Success? ==> BalanceSub(old(balance), value) == Success(balance)
      ensures r.Success? ==>
                var stake := old(inactive)[s];
                if stake.balance > value then
                  && inactive == old(inactive)[s := InactiveStake(stake.balance - value,
                                                                  if time.Some? then time.value else stake.retireTime)]
                  && r.value == None
                else inactive == old(inactive) - {s} && r.value == Some([stake.retireTime])
    {
      if s !in inactive {
        return Failure(INVALID_FOR_RECIPIENT);
      }
      var stake := inactive[s];
      inactive := inactive - {s};
      var b := BalanceSub(balance, value);
      if b.Failure? {
        return Failure(b.error);
      }
      balance := b.value;
      if stake.balance > value {
        inactive := inactive[s := InactiveStake(stake.balance - value,
                                                if time.Some? then time.value else stake.retireTime)];
        assert inactive == old(inactive)[s := inactive[s]];
        return Success(None);
      }
      return Success(Some([stake.retireTime]));
    }

    /** `revert_retire_recipient`. */
    method RevertRetire(s: nat, value: nat, time: Option<nat>) returns (r: Receipted)
      modifies this`balance, this`inactive
      ensures r.Success? <==>
              BalanceSub(old(balance), value).Success? && Ungive(old(EntryOf(Value(), s)), value, time).Success?
      ensures r.Success? ==> BalanceSub(old(balance), value) == Success(balance) && r.value == None
      ensures r.Success? ==>
                inactive == SetEntry(old(inactive), s, Ungive(old(EntryOf(Value(), s)), value, time).value.0)
    {
      if s !in inactive || (inactive[s].balance > value) != time.Some? {
        return Failure(INVALID_FOR_RECIPIENT);
      }
      r := Reactivate(s, value, Some(if time.Some? then time.value else 0));
      if r.Success? {
        r := Success(None);
      }
    }

    /** `unstake`, after the checks on the amount. */
    method Unstake(s: nat, value: nat) returns (r: Receipted)
      requires s in inactive && value <= inactive[s].balance
      modifies this`balance, this`inactive
      ensures r.Success? <==> BalanceSub(old(balance), value).Success?
      ensures r.Success? ==> BalanceSub(old(balance), value) == Success(balance)
      ensures r.Success? ==>
                var taken := Take(old(EntryOf(Value(), s)), value).value;
                inactive == SetEntry(old(inactive), s, taken.0) && r.value == taken.1
    {
      var stake := inactive[s];
      inactive := inactive - {s};
      var b := BalanceSub(balance, value);
      if b.Failure? {
        return Failure(b.error);
      }
      balance := b.value;
      if stake.balance > value {
        inactive := inactive[s := stake.(balance := stake.balance - value)];
        assert inactive == old(inactive)[s := inactive[s]];
        return Success(None);
      }
      return Success(Some([stake.retireTime]));
    }

    /** `revert_unstake`. */
    method RevertUnstake(s: nat, value: Coin, time: Option<nat>) returns (r: Receipted)
      modifies this`balance, this`inactive
      ensures r.Success? <==>
              BalanceAdd(old(balance), value).Success? && Untake(old(EntryOf(Value(), s)), value, time).Success?
      ensures r.Success? ==> BalanceAdd(old(balance), value) == Success(balance) && r.value == None
      ensures r.Success? ==>
                inactive == SetEntry(old(inactive), s, Untake(old(EntryOf(Value(), s)), value, time).value.0)
    {
      var b := BalanceAdd(balance, value);
      if b.Failure? {
        return Failure(b.error);
      }
      balance := b.value;
      if s in inactive {
        var stake := inactive[s];
        inactive := inactive - {s};
        if time.Some? {
          return Failure(INVALID_RECEIPT);
        }
        var total := BalanceAdd(stake.balance, value);
        if total.Failure? {
          return Failure(total.error);
        }
        inactive := inactive[s := stake.(balance := total.value)];
        assert inactive == old(inactive)[s := inactive[s]];
      } else if time.None? {
        return Failure(INVALID_RECEIPT);
      } else {
        inactive := inactive[s := InactiveStake(value, time.value)];
      }
      return Success(None);
    }

    // ---------- transactions ----------

    predicate Delegates(s: nat, v: nat, amount: nat)
      reads this
    {
      v in validators && s in validators[v].stakes && amount <= validators[v].stakes[s]
    }

    /** The checks before a transaction is taken from the contract. */
    method CheckOutgoing(p: StakingPolicy, t: Tx, total: Coin) returns (e: Option<AccountError>)
      requires TotalValue(t) == Success(total)
      ensures e.None? <==>
              match SenderEffect(p, t)
              case Failure(_) => false
              case Success(f) =>
                && (f.shift.Sub? ==> Delegates(f.staker, f.shift.validator, total))
                && (f.shift.Known? ==> f.shift.validator in validators)
                && TakeStep(p.mature, EntryOf(Value(), f.staker), f.move).Success?
    {
      if t.sender != t.recipient {
        match p.unstaker(t) {
          case None => return Some(INVALID_FOR_SENDER);
          case Some(s) =>
            if s !in inactive || !p.mature(inactive[s].retireTime) {
              return Some(INVALID_FOR_SENDER);
            }
            return if total <= inactive[s].balance then None else Some(INSUFFICIENT_FUNDS);
        }
      }
      match p.selfAction(t) {
        case None => return Some(INVALID_FOR_SENDER);
        case Some(RetireStake(s, v)) =>
          if v !in validators || s !in validators[v].stakes {
            return Some(INVALID_FOR_SENDER);
          }
          return if total <= validators[v].stakes[s] then None else Some(INSUFFICIENT_FUNDS);
        case Some(ReactivateStake(s, v)) =>
          if s !in inactive || v !in validators {
            return Some(INVALID_FOR_SENDER);
          }
          return if total <= inactive[s].balance then None else Some(INSUFFICIENT_FUNDS);
      }
    }

    method CommitOutgoing(p: StakingPolicy, t: Tx) returns (r: Receipted)
      modifies this
      ensures Follows(r, ActOn(Spending(p), old(Value()), t, None))
    {
      var total := TotalValue(t);
      if total.Failure? {
        return Failure(total.error);
      }
      var checked := CheckOutgoing(p, t, total.value);
      if checked.Some? {
        return Failure(checked.value);
      }
      if t.sender != t.recipient {
        r := Unstake(p.unstaker(t).value, total.value);
      } else {
        match p.selfAction(t).value {
          case RetireStake(s, v) =>
            var e := Unstaked(s, total.value, v);
            assert SetEntry(inactive, s, old(EntryOf(Value(), s))) == inactive;
            r := if e.None? then Success(None) else Failure(e.value);
          case ReactivateStake(s, v) => r := Reactivate(s, total.value, None);
        }
      }
    }

    method RevertOutgoing(p: StakingPolicy, t: Tx, receipt: Option<Data>) returns (r: Receipted)
      modifies this
      ensures Follows(r, ActOn(Unspending(p), old(Value()), t, receipt))
    {
      var total := TotalValue(t);
      if total.Failure? {
        return Failure(total.error);
      }
      if t.sender != t.recipient {
        var time := TimeOf(receipt);
        match p.unstaker(t) {
          case None => return Failure(INVALID_FOR_SENDER);
          case Some(s) =>
            if time.Failure? {
              return Failure(time.error);
            }
            r := RevertUnstake(s, total.value, time.value);
        }
      } else {
        match p.selfAction(t) {
          case None => return Failure(INVALID_FOR_SENDER);
          case Some(RetireStake(s, v)) =>
            var e := Stake(s, total.value, v);
            assert SetEntry(inactive, s, old(EntryOf(Value(), s))) == inactive;
            r := if e.None? then Success(None) else Failure(e.value);
          case Some(ReactivateStake(s, _)) =>
            var time := TimeOf(receipt);
            if time.Failure? {
              return Failure(time.error);
            }
            r := Retire(s, total.value, time.value);
            if r.Success? {
              r := Success(None);
            }
        }
      }
    }

    method CommitIncoming(p: StakingPolicy, t: Tx) returns (r: Receipted)
      modifies this
      ensures Follows(r, ActOn(Receiving(p), old(Value()), t, None))
    {
      if t.sender != t.recipient {
        match p.delegation(t) {
          case None => return Failure(INVALID_FOR_RECIPIENT);
          case Some(d) =>
            var e := Stake(d.staker, t.value, d.validator);
            assert SetEntry(inactive, d.staker, old(EntryOf(Value(), d.staker))) == inactive;
            r := if e.None? then Success(None) else Failure(e.value);
        }
      } else {
        match p.selfAction(t) {
          case None => return Failure(INVALID_FOR_RECIPIENT);
          case Some(RetireStake(s, _)) =>
            if t.value > MAX_SAFE_VALUE {
              return Failure(INVALID_COIN_VALUE);
            }
            r := Retire(s, t.value, Some(p.height));
          case Some(ReactivateStake(s, v)) =>
            var e := Stake(s, t.value, v);
            assert SetEntry(inactive, s, old(EntryOf(Value(), s))) == inactive;
            r := if e.None? then Success(None) else Failure(e.value);
        }
      }
    }

    method RevertIncoming(p: StakingPolicy, t: Tx, receipt: Option<Data>) returns (r: Receipted)
      modifies this
      ensures Follows(r, ActOn(Unreceiving(p), old(Value()), t, receipt))
    {
      if t.sender != t.recipient {
        match p.delegation(t) {
          case None => return Failure(INVALID_FOR_RECIPIENT);
          case Some(d) =>
            var e := Unstaked(d.staker, t.value, d.validator);
            assert SetEntry(inactive, d.staker, old(EntryOf(Value(), d.staker))) == inactive;
            r := if e.None? then Success(None) else Failure(e.value);
        }
      } else {
        match p.selfAction(t) {
          case None => return Failure(INVALID_FOR_RECIPIENT);
          case Some(RetireStake(s, _)) =>
            var time := TimeOf(receipt);
            if time.Failure? {
              return Failure(time.error);
            }
            r := RevertRetire(s, t.value, time.value);
          case Some(ReactivateStake(s, v)) =>
            var e := Unstaked(s, t.value, v);
            assert SetEntry(inactive, s, old(EntryOf(Value(), s))) == inactive;
            r := if e.None? then Success(None) else Failure(e.value);
        }
      }
    }

    // ---------- slashes ----------

    /** Parks the validator, and disables the slot or takes its rewards, as far as that is new. */
    method CommitInherent(p: StakingPolicy, i: Inherent) returns (r: Receipted)
      modifies this`marks
      ensures Follows(r, CommitSlash(p, old(Value()), i))
    {
      if i.value != 0 || !i.ty.Slash? {
        return Failure(INVALID_INHERENT);
      }
      match p.slashed(i) {
        case None => return Failure(INVALID_INHERENT);
        case Some(x) =>
          if x.validator !in validators {
            return Failure(INVALID_INHERENT);
          }
          var parked, lost, disabled := Parked(x.validator) !in marks, LostBy(x) !in marks, false;
          marks := marks + {Parked(x.validator)};
          marks := marks + {LostBy(x)};
          if !x.era.PreviousEpoch? {
            disabled := Disabled(x.validator, x.slot) !in marks;
            marks := marks + {Disabled(x.validator, x.slot)};
          }
          assert marks == old(marks) + Added(x);
          return Success(Some([Flag(parked), Flag(disabled), Flag(lost)]));
      }
    }

    method RevertInherent(p: StakingPolicy, i: Inherent, receipt: Option<Data>) returns (r: Receipted)
      modifies this`marks
      ensures Follows(r, RevertSlash(p, old(Value()), i, receipt))
    {
      if !i.ty.Slash? {
        return Failure(INVALID_FOR_RECIPIENT);
      }
      if receipt.None? || |receipt.value| != 3 {
        return Failure(INVALID_RECEIPT);
      }
      match p.slashed(i) {
        case None => return Failure(INVALID_INHERENT);
        case Some(x) =>
          if receipt.value[0] == 1 {
            if Parked(x.validator) !in marks {
              return Failure(INVALID_INHERENT);
            }
            marks := marks - {Parked(x.validator)};
          }
          if receipt.value[1] == 1 && !x.era.PreviousEpoch? {
            var known := KnowsDisabled(x.validator);
            if !known {
              return Failure(ABORTED);
            }
            marks := marks - {Disabled(x.validator, x.slot)};
          }
          if receipt.value[2] == 1 {
            marks := marks - {LostBy(x)};
          }
          assert marks == old(marks) -
                          ((if receipt.value[0] == 1 then {Parked(x.validator)} else {}) +
                           (if receipt.value[1] == 1 && !x.era.PreviousEpoch? then DisabledBy(x) else {}) +
                           (if receipt.value[2] == 1 then {LostBy(x)} else {}));
          return Success(None);
      }
    }

    method KnowsDisabled(v: nat) returns (b: bool)
      ensures b <==> exists m :: m in marks && m.Disabled? && m.validator == v
    {
      var rest := marks;
      while rest != {}
        invariant rest <= marks
        invariant forall m :: m in marks - rest ==> !(m.Disabled? && m.validator == v)
        decreases rest
      {
        var m :| m in rest;
        if m.Disabled? && m.validator == v {
          return true;
        }
        rest := rest - {m};
      }
      return false;
    }
  }
}
