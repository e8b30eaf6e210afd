/**
 * The inactive stake of one staker, and when the moves a block makes of it can be taken back
 * (primitives/account/src/staking_contract/actions/staker.rs).
 */
module StakeEntries {
  import opened Prelude
  import opened Accounts
  import opened AccountsLocal
  import opened AccountsCoins

  const INVALID_FOR_SENDER: AccountError := Rejected(5)

  datatype InactiveStake = InactiveStake(balance: Coin, retireTime: nat)

  /** What the contract holds for a staker that is not delegated. */
  type Entry = Option<InactiveStake>

  /** What a transaction does with the inactive stake of a given staker. */
  datatype Move = Keep | Unstake(amount: nat) | Reactivate(amount: nat) | Retire(amount: nat)

  type Moved = Result<(Entry, Option<Data>), AccountError>

  /** A receipt holds the time at which the stake was retired. */
  function TimeOf(receipt: Option<Data>): Result<Option<nat>, AccountError> {
    match receipt
    case None => Success(None)
    case Some(d) => if |d| == 1 then Success(Some(d[0])) else Failure(INVALID_RECEIPT)
  }

  /** `unstake` and `reactivate_sender` with the checks before them. */
  function Take(e: Entry, v: nat): Moved {
    match e
    case None => Failure(INVALID_FOR_SENDER)
    case Some(i) =>
      if v > i.balance then Failure(INSUFFICIENT_FUNDS)
      else if i.balance > v then Success((Some(i.(balance := i.balance - v)), None))
      else Success((None, Some([i.retireTime])))
  }

  /** `retire_recipient`. */
  function Give(e: Entry, v: Coin, time: Option<nat>): Moved {
    match e
    case None =>
      if time.None? then Failure(INVALID_RECEIPT) else Success((Some(InactiveStake(v, time.value)), None))
    case Some(i) =>
      var b :- BalanceAdd(i.balance, v);
      Success((Some(InactiveStake(b, if time.Some? then time.value else i.retireTime)), Some([i.retireTime])))
  }

  /** `revert_unstake`. */
  function Untake(e: Entry, v: Coin, time: Option<nat>): Moved {
    match e
    case None =>
      if time.None? then Failure(INVALID_RECEIPT) else Success((Some(InactiveStake(v, time.value)), None))
    case Some(i) =>
      if time.Some? then Failure(INVALID_RECEIPT)
      else
        var b :- BalanceAdd(i.balance, v);
        Success((Some(i.(balance := b)), None))
  }

  /** `revert_retire_recipient`. */
  function Ungive(e: Entry, v: nat, time: Option<nat>): Moved {
    match e
    case None => Failure(INVALID_FOR_RECIPIENT)
    case Some(i) =>
      if (i.balance > v) != time.Some? then Failure(INVALID_FOR_RECIPIENT)
      else Success((if time.Some? then Some(InactiveStake(i.balance - v, time.value)) else None, None))
  }

  /** The sender's side of a transaction; stake can be withdrawn once it is mature. */
  function TakeStep(mature: nat -> bool, e: Entry, m: Move): Moved {
    match m
    case Unstake(v) => if e.Some? && !mature(e.value.retireTime) then Failure(INVALID_FOR_SENDER) else Take(e, v)
    case Reactivate(v) => Take(e, v)
    case _ => Success((e, None))
  }

  function UntakeStep(e: Entry, m: Move, r: Option<Data>): Moved {
    match m
    case Unstake(v) =>
      var time :- TimeOf(r);
      if v > MAX_SAFE_VALUE then Failure(INVALID_COIN_VALUE) else Untake(e, v, time)
    case Reactivate(v) =>
      var time :- TimeOf(r);
      if v > MAX_SAFE_VALUE then Failure(INVALID_COIN_VALUE)
      else
        var given :- Give(e, v, time);
        Success((given.0, None))
    case _ => Success((e, None))
  }

  /** The recipient's side; stake is retired at the height of the block. */
  function GiveStep(height: nat, e: Entry, m: Move): Moved {
    match m
    case Retire(v) => if v > MAX_SAFE_VALUE then Failure(INVALID_COIN_VALUE) else Give(e, v, Some(height))
    case _ => Success((e, None))
  }

  function UngiveStep(e: Entry, m: Move, r: Option<Data>): Moved {
    match m
    case Retire(v) =>
      var time :- TimeOf(r);
      Ungive(e, v, time)
    case _ => Success((e, None))
  }

  function CommitTaking(mature: nat -> bool): Op<Entry, Move> {
    (e: Entry, m: Move, _: Option<Data>) => TakeStep(mature, e, m)
  }

  const RevertTaking: Op<Entry, Move> := (e: Entry, m: Move, r: Option<Data>) => UntakeStep(e, m, r)

  function CommitGiving(height: nat): Op<Entry, Move> {
    (e: Entry, m: Move, _: Option<Data>) => GiveStep(height, e, m)
  }

  const RevertGiving: Op<Entry, Move> := (e: Entry, m: Move, r: Option<Data>) => UngiveStep(e, m, r)

  // ---------- counting ----------

  predicate Takes(m: Move) {
    m.Unstake? || m.Reactivate?
  }

  function Taken(ms: seq<Move>): nat {
    if ms == [] then 0 else (if Takes(ms[0]) then ms[0].amount else 0) + Taken(ms[1..])
  }

  function TakeCount(ms: seq<Move>): nat {
    if ms == [] then 0 else (if Takes(ms[0]) then 1 else 0) + TakeCount(ms[1..])
  }

  function Given(ms: seq<Move>): nat {
    if ms == [] then 0 else (if ms[0].Retire? then ms[0].amount else 0) + Given(ms[1..])
  }

  function GiveCount(ms: seq<Move>): nat {
    if ms == [] then 0 else (if ms[0].Retire? then 1 else 0) + GiveCount(ms[1..])
  }

  /** Transactions move something. */
  ghost predicate Positive(ms: seq<Move>) {
    forall m :: m in ms && !m.Keep? ==> m.amount > 0
  }

  lemma {:induction false} TailPositive(ms: seq<Move>)
    requires ms != [] && Positive(ms)
    ensures Positive(ms[1..]) && (!ms[0].Keep? ==> ms[0].amount > 0)
  {
    assert ms[0] in ms;
    assert forall m :: m in ms[1..] ==> m in ms;
  }

  lemma {:induction false} CountsAgree(ms: seq<Move>)
    requires Positive(ms)
    ensures Taken(ms) >= TakeCount(ms) && Given(ms) >= GiveCount(ms)
    ensures TakeCount(ms) == 0 ==> Taken(ms) == 0
    ensures GiveCount(ms) == 0 ==> Given(ms) == 0
  {
    if ms != [] {
      TailPositive(ms);
      CountsAgree(ms[1..]);
    }
  }

  // ---------- taking ----------

  /** Nothing can be taken from a staker without inactive stake. */
  lemma {:induction false} TakeFromNone(mature: nat -> bool, e: Entry, ms: seq<Move>)
    requires e.None? && FoldNew(CommitTaking(mature), e, ms).Success?
    ensures TakeCount(ms) == 0 && FoldNew(CommitTaking(mature), e, ms).value.0 == e
    decreases |ms|
  {
    if ms != [] {
      FoldNewHead(CommitTaking(mature), e, ms, TakeStep(mature, e, ms[0]));
      TakeFromNone(mature, e, ms[1..]);
    }
  }

  /** All receipts that matter are missing. */
  ghost predicate NoTimes(ms: seq<Move>, rs: seq<Option<Data>>) {
    |rs| == |ms| && forall j :: 0 <= j < |ms| && Takes(ms[j]) ==> rs[j] == None
  }

  lemma {:induction false} TailNoTimes(ms: seq<Move>, rs: seq<Option<Data>>)
    requires ms != [] && |rs| == |ms|
    ensures NoTimes(ms, rs) <==> (Takes(ms[0]) ==> rs[0] == None) && NoTimes(ms[1..], rs[1..])
  {
    if NoTimes(ms[1..], rs[1..]) && (Takes(ms[0]) ==> rs[0] == None) {
      forall j | 0 <= j < |ms| && Takes(ms[j])
        ensures rs[j] == None
      {
        assert j > 0 ==> ms[1..][j - 1] == ms[j] && rs[1..][j - 1] == rs[j];
      }
    }
  }

  /** Taking less than there is leaves the rest, without receipts. */
  lemma {:induction false} TakeSome(mature: nat -> bool, i: InactiveStake, ms: seq<Move>)
    requires FoldNew(CommitTaking(mature), Some(i), ms).Success? && Taken(ms) < i.balance
    ensures FoldNew(CommitTaking(mature), Some(i), ms).value.0 == Some(i.(balance := i.balance - Taken(ms)))
    ensures NoTimes(ms, FoldNew(CommitTaking(mature), Some(i), ms).value.1)
    decreases |ms|
  {
    if ms != [] {
      var step := TakeStep(mature, Some(i), ms[0]);
      FoldNewHead(CommitTaking(mature), Some(i), ms, step);
      TakeSome(mature, step.value.0.value, ms[1..]);
      TailNoTimes(ms, FoldNew(CommitTaking(mature), Some(i), ms).value.1);
    }
  }

  /** Without receipts the amounts are put back on top of what is there. */
  lemma {:induction false} UntakeSome(i: InactiveStake, ms: seq<Move>, rs: seq<Option<Data>>)
    requires NoTimes(ms, rs) && i.balance + Taken(ms) <= MAX_SAFE_VALUE
    ensures Fold(RevertTaking, Some(i), ms, rs).Success?
    ensures Fold(RevertTaking, Some(i), ms, rs).value.0 == Some(i.(balance := i.balance + Taken(ms)))
    decreases |ms|
  {
    if ms != [] {
      TailNoTimes(ms, rs);
      FoldHead(RevertTaking, Some(i), ms, rs, UntakeStep(Some(i), ms[0], rs[0]));
      UntakeSome(if Takes(ms[0]) then i.(balance := i.balance + ms[0].amount) else i, ms[1..], rs[1..]);
    }
  }

  /** Without receipts nothing can be put back where nothing is left. */
  lemma {:induction false} UntakeNone(ms: seq<Move>, rs: seq<Option<Data>>)
    requires |rs| == |ms| && TakeCount(ms) > 0 && FirstReceipt(ms, rs) == None
    ensures Fold(RevertTaking, None, ms, rs).Failure?
    decreases |ms|
  {
    FoldHead(RevertTaking, None, ms, rs, UntakeStep(None, ms[0], rs[0]));
    if !Takes(ms[0]) {
      UntakeNone(ms[1..], rs[1..]);
    }
  }

  /** The receipt of the first transaction that takes something. */
  function FirstReceipt(ms: seq<Move>, rs: seq<Option<Data>>): Option<Data>
    requires |rs| == |ms| && TakeCount(ms) > 0
    decreases |ms|
  {
    if Takes(ms[0]) then rs[0] else FirstReceipt(ms[1..], rs[1..])
  }

  /** Taking everything leaves nothing, and the last one gets the receipt. */
  lemma {:induction false} TakeAll(mature: nat -> bool, i: InactiveStake, ms: seq<Move>)
    requires FoldNew(CommitTaking(mature), Some(i), ms).Success? && Positive(ms) && Taken(ms) >= i.balance > 0
    ensures Taken(ms) == i.balance && TakeCount(ms) > 0 && FoldNew(CommitTaking(mature), Some(i), ms).value.0 == None
    ensures FirstReceipt(ms, FoldNew(CommitTaking(mature), Some(i), ms).value.1) ==
            if TakeCount(ms) == 1 then Some([i.retireTime]) else None
    decreases |ms|
  {
    TailPositive(ms);
    var step := TakeStep(mature, Some(i), ms[0]);
    FoldNewHead(CommitTaking(mature), Some(i), ms, step);
    var next := step.value.0;
    if next.None? {
      TakeFromNone(mature, next, ms[1..]);
      CountsAgree(ms[1..]);
    } else {
      TakeAll(mature, next.value, ms[1..]);
    }
  }

  /** A single withdrawal of everything is put back from its receipt. */
  lemma {:induction false} UntakeOnce(i: InactiveStake, ms: seq<Move>, rs: seq<Option<Data>>)
    requires |rs| == |ms| && TakeCount(ms) == 1 && Taken(ms) == i.balance
    requires FirstReceipt(ms, rs) == Some([i.retireTime])
    ensures Fold(RevertTaking, None, ms, rs).Success? && Fold(RevertTaking, None, ms, rs).value.0 == Some(i)
    decreases |ms|
  {
    FoldHead(RevertTaking, None, ms, rs, UntakeStep(None, ms[0], rs[0]));
    if Takes(ms[0]) {
      UntakeKeeps(Some(i), ms[1..], rs[1..]);
    } else {
      UntakeOnce(i, ms[1..], rs[1..]);
    }
  }

  lemma {:induction false} UntakeKeeps(e: Entry, ms: seq<Move>, rs: seq<Option<Data>>)
    requires |rs| == |ms| && TakeCount(ms) == 0
    ensures Taken(ms) == 0
    ensures Fold(RevertTaking, e, ms, rs).Success? && Fold(RevertTaking, e, ms, rs).value.0 == e
    decreases |ms|
  {
    if ms != [] {
      FoldHead(RevertTaking, e, ms, rs, UntakeStep(e, ms[0], rs[0]));
      UntakeKeeps(e, ms[1..], rs[1..]);
    }
  }

  // ---------- giving ----------

  /** Every receipt that matters holds the height of the block. */
  ghost predicate AllTimes(ms: seq<Move>, rs: seq<Option<Data>>, height: nat) {
    |rs| == |ms| && forall j :: 0 <= j < |ms| && ms[j].Retire? ==> rs[j] == Some([height])
  }

  lemma {:induction false} TailAllTimes(ms: seq<Move>, rs: seq<Option<Data>>, height: nat)
    requires ms != [] && |rs| == |ms|
    ensures AllTimes(ms, rs, height) <==>
            (ms[0].Retire? ==> rs[0] == Some([height])) && AllTimes(ms[1..], rs[1..], height)
  {
    if AllTimes(ms[1..], rs[1..], height) && (ms[0].Retire? ==> rs[0] == Some([height])) {
      forall j | 0 <= j < |ms| && ms[j].Retire?
        ensures rs[j] == Some([height])
      {
        assert j > 0 ==> ms[1..][j - 1] == ms[j] && rs[1..][j - 1] == rs[j];
      }
    }
  }

  /** Further stake retired in the same block only adds up. */
  lemma {:induction false} GiveMore(height: nat, i: InactiveStake, ms: seq<Move>)
    requires FoldNew(CommitGiving(height), Some(i), ms).Success? && i.retireTime == height
    ensures i.balance + Given(ms) <= MAX_SAFE_VALUE
    ensures FoldNew(CommitGiving(height), Some(i), ms).value.0 == Some(InactiveStake(i.balance + Given(ms), height))
    ensures AllTimes(ms, FoldNew(CommitGiving(height), Some(i), ms).value.1, height)
    decreases |ms|
  {
    if ms != [] {
      var step := GiveStep(height, Some(i), ms[0]);
      FoldNewHead(CommitGiving(height), Some(i), ms, step);
      GiveMore(height, step.value.0.value, ms[1..]);
      TailAllTimes(ms, FoldNew(CommitGiving(height), Some(i), ms).value.1, height);
    }
  }

  /** Taking it off again leaves the height of the block behind. */
  lemma {:induction false} UngiveMore(height: nat, i: InactiveStake, ms: seq<Move>, rs: seq<Option<Data>>)
    requires AllTimes(ms, rs, height) && i.balance > Given(ms)
    ensures Fold(RevertGiving, Some(i), ms, rs).Success?
    ensures Fold(RevertGiving, Some(i), ms, rs).value.0 ==
            Some(InactiveStake(i.balance - Given(ms), if GiveCount(ms) > 0 then height else i.retireTime))
    decreases |ms|
  {
    if ms != [] {
      TailAllTimes(ms, rs, height);
      FoldHead(RevertGiving, Some(i), ms, rs, UngiveStep(Some(i), ms[0], rs[0]));
      var next := if ms[0].Retire? then InactiveStake(i.balance - ms[0].amount, height) else i;
      UngiveMore(height, next, ms[1..], rs[1..]);
    }
  }

  ghost predicate GivenBack(height: nat, e: Entry, ms: seq<Move>, f: Entry)
    requires FoldNew(CommitGiving(height), e, ms).Success?
  {
    var (after, rs) := FoldNew(CommitGiving(height), e, ms).value;
    Fold(RevertGiving, after, ms, rs).Success? && Fold(RevertGiving, after, ms, rs).value.0 == f
  }

  /** What taking back retired stake yields: it fails, or gets the time wrong, after more than one. */
  lemma {:induction false} GivenBackIs(height: nat, e: Entry, ms: seq<Move>, f: Entry)
    requires FoldNew(CommitGiving(height), e, ms).Success? && Positive(ms) && (e.Some? ==> e.value.balance > 0)
    ensures GivenBack(height, e, ms, f) <==>
            if GiveCount(ms) <= 1 then f == e
            else e.Some? && f == Some(InactiveStake(e.value.balance, height))
    decreases |ms|
  {
    if ms != [] {
      TailPositive(ms);
      CountsAgree(ms[1..]);
      var step := GiveStep(height, e, ms[0]);
      FoldNewHead(CommitGiving(height), e, ms, step);
      var (after, rs) := FoldNew(CommitGiving(height), e, ms).value;
      FoldHead(RevertGiving, after, ms, rs, UngiveStep(after, ms[0], rs[0]));
      var next := step.value.0;
      if ms[0].Retire? {
        GiveMore(height, next.value, ms[1..]);
        if e.Some? {
          UngiveMore(height, InactiveStake(e.value.balance + Given(ms[1..]), e.value.retireTime), ms[1..], rs[1..]);
        } else if GiveCount(ms) == 1 {
          UngiveNothing(None, ms[1..], rs[1..]);
        }
      } else {
        GivenBackIs(height, e, ms[1..], f);
      }
    }
  }

  lemma {:induction false} UngiveNothing(e: Entry, ms: seq<Move>, rs: seq<Option<Data>>)
    requires |rs| == |ms| && GiveCount(ms) == 0
    ensures Fold(RevertGiving, e, ms, rs).Success? && Fold(RevertGiving, e, ms, rs).value.0 == e
    decreases |ms|
  {
    if ms != [] {
      FoldHead(RevertGiving, e, ms, rs, UngiveStep(e, ms[0], rs[0]));
      UngiveNothing(e, ms[1..], rs[1..]);
    }
  }

  // ---------- both ----------

  /** Two or more withdrawals that together leave nothing. */
  predicate JointlyEmptied(e: Entry, takes: seq<Move>) {
    e.Some? && Taken(takes) == e.value.balance && TakeCount(takes) > 1
  }

  /** At most one retirement, unless what was there before already bears the height of the block. */
  predicate RetiresOnce(e: Entry, takes: seq<Move>, gives: seq<Move>, height: nat) {
    GiveCount(gives) <= 1 || (e.Some? && Taken(takes) < e.value.balance && e.value.retireTime == height)
  }

  ghost predicate TakenBack(mature: nat -> bool, e: Entry, ms: seq<Move>, start: Entry, f: Entry)
    requires FoldNew(CommitTaking(mature), e, ms).Success?
  {
    var rs := FoldNew(CommitTaking(mature), e, ms).value.1;
    Fold(RevertTaking, start, ms, rs).Success? && Fold(RevertTaking, start, ms, rs).value.0 == f
  }

  /** What is left after the withdrawals of a block. */
  lemma {:induction false} TakenIs(mature: nat -> bool, e: Entry, ms: seq<Move>)
    requires FoldNew(CommitTaking(mature), e, ms).Success? && Positive(ms) && (e.Some? ==> e.value.balance > 0)
    ensures e.Some? ==> Taken(ms) <= e.value.balance
    ensures FoldNew(CommitTaking(mature), e, ms).value.0 ==
            if e.None? || Taken(ms) == e.value.balance then None
            else Some(InactiveStake(e.value.balance - Taken(ms), e.value.retireTime))
  {
    match e {
      case None => TakeFromNone(mature, e, ms);
      case Some(i) =>
        if Taken(ms) < i.balance {
          TakeSome(mature, i, ms);
        } else {
          TakeAll(mature, i, ms);
        }
    }
  }

  /** Where something is left, taking back withdrawals adds them up and keeps the time that is there. */
  lemma {:induction false} TakenBackOnto(mature: nat -> bool, i: InactiveStake, ms: seq<Move>, time: nat, f: Entry)
    requires FoldNew(CommitTaking(mature), Some(i), ms).Success? && Taken(ms) < i.balance
    ensures TakenBack(mature, Some(i), ms, Some(InactiveStake(i.balance - Taken(ms), time)), f) <==>
            f == Some(InactiveStake(i.balance, time))
  {
    TakeSome(mature, i, ms);
    var rs := FoldNew(CommitTaking(mature), Some(i), ms).value.1;
    UntakeSome(InactiveStake(i.balance - Taken(ms), time), ms, rs);
  }

  /** Where nothing is left, they can be taken back only if there was one. */
  lemma {:induction false} TakenBackFromNone(mature: nat -> bool, e: Entry, ms: seq<Move>, f: Entry)
    requires FoldNew(CommitTaking(mature), e, ms).Success? && Positive(ms)
    requires e.None? || (e.value.balance > 0 && Taken(ms) == e.value.balance)
    ensures TakenBack(mature, e, ms, None, f) <==> !JointlyEmptied(e, ms) && f == e
  {
    var rs := FoldNew(CommitTaking(mature), e, ms).value.1;
    match e {
      case None =>
        TakeFromNone(mature, e, ms);
        UntakeKeeps(None, ms, rs);
      case Some(i) =>
        TakeAll(mature, i, ms);
        if TakeCount(ms) == 1 {
          UntakeOnce(i, ms, rs);
        } else {
          UntakeNone(ms, rs);
        }
    }
  }

  /**
   * Retirements are taken back first and withdrawals then, each front to back. That restores the
   * stake exactly if the withdrawals did not jointly empty it and there was at most one retirement,
   * or the stake left had been retired at the same height already.
   */
  lemma {:induction false} StakeRestoredIff(mature: nat -> bool, height: nat, e: Entry, takes: seq<Move>, left: Entry,
                                            gives: seq<Move>)
    requires FoldNew(CommitTaking(mature), e, takes).Success? && left == FoldNew(CommitTaking(mature), e, takes).value.0
    requires FoldNew(CommitGiving(height), left, gives).Success?
    requires Positive(takes) && Positive(gives) && (e.Some? ==> e.value.balance > 0)
    ensures (exists f :: GivenBack(height, left, gives, f) && TakenBack(mature, e, takes, f, e)) <==>
            !JointlyEmptied(e, takes) && RetiresOnce(e, takes, gives, height)
  {
    TakenIs(mature, e, takes);
    if left.None? {
      TakenBackFromNone(mature, e, takes, e);
      GivenBackIs(height, None, gives, None);
      forall f
        ensures GivenBack(height, left, gives, f) ==> f == None && GiveCount(gives) <= 1
      {
        GivenBackIs(height, None, gives, f);
      }
    } else {
      var time := if GiveCount(gives) <= 1 then e.value.retireTime else height;
      var back := Some(InactiveStake(left.value.balance, time));
      TakenBackOnto(mature, e.value, takes, time, e);
      GivenBackIs(height, left, gives, back);
      forall f
        ensures GivenBack(height, left, gives, f) ==> f == back
      {
        GivenBackIs(height, left, gives, f);
      }
    }
  }
}
