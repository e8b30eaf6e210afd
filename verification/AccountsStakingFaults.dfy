/** Blocks that the staking contract commits and that cannot be taken back. */
module StakingFaults {
  import opened Prelude
  import opened Transactions
  import opened Accounts
  import opened AccountsLocal
  import opened AccountsCoins
  import opened StakeEntries
  import opened StakingContracts
  import opened StakingViews
  import opened StakingPhases
  import opened StakingReverts
  import opened StakingBlocks

  ghost predicate Steps<T>(k: Kind<AnyAccount>, ph: Phase<AnyAccount, T>, tree: Tree<AnyAccount>, t: T,
                           next: Tree<AnyAccount>) {
    Apply(k, ph, tree, t, None).Success? && Apply(k, ph, tree, t, None).value.0 == next
  }

  lemma {:induction false} PairRuns<T>(k: Kind<AnyAccount>, ph: Phase<AnyAccount, T>, tree: Tree<AnyAccount>, t: T,
                                       u: T, one: Tree<AnyAccount>, two: Tree<AnyAccount>)
    requires Steps(k, ph, tree, t, one) && Steps(k, ph, one, u, two)
    ensures Reaches(k, ph, tree, [t, u], NoReceipts(2), two)
  {
    assert [t, u][1..] == [u] && [u][1..] == [] && NoReceipts(2)[1..] == NoReceipts(1) && NoReceipts(1)[1..] == [];
    assert ApplyAll(k, ph, two, [], []) == Success((two, []));
    assert ApplyAll(k, ph, one, [u], NoReceipts(1)).Success?;
  }

  /** Two transactions that create nothing, from an account that is not pruned. */
  lemma {:induction false} PairCommits(p: StakingPolicy, tree: Tree<AnyAccount>, t: Tx, u: Tx, mid: Tree<AnyAccount>,
                                       end: Tree<AnyAccount>)
    requires !CreatesContract(t) && !CreatesContract(u)
    requires Reaches(StakingKind(p), Outgoing(StakingOps(p).commitOutgoing), tree, [t, u], NoReceipts(2), mid)
    requires Reaches(StakingKind(p), Incoming(StakingOps(p).commitIncoming), mid, [t, u], NoReceipts(2), end)
    ensures Commit(StakingKind(p), StakingOps(p), tree, [t, u], []).Success?
  {
    assert [t, u][1..] == [u] && [u][1..] == [];
    assert CreateContracts(StakingKind(p), end, [u]) == Success(end);
    assert NoReceipts(0) == [];
  }

  /** Such a block cannot be taken back where stakes are not restorable. */
  lemma {:induction false} PairFails(p: StakingPolicy, tree: Tree<AnyAccount>, t: Tx, u: Tx)
    requires Normal(StakingKind(p), tree) && SoundTree(tree) && t.value > 0 && u.value > 0
    requires Commit(StakingKind(p), StakingOps(p), tree, [t, u], []).Success? && !StakesRestorable(p, tree, [t, u])
    ensures NotTakenBack(p, tree, [t, u])
  {
    RevertRestoresStakesIff(p, tree, [t, u], []);
  }

  /** The block is committed, and taking it back fails or leaves other accounts. */
  ghost predicate NotTakenBack(p: StakingPolicy, tree: Tree<AnyAccount>, txs: seq<Tx>) {
    var k, ops := StakingKind(p), StakingOps(p);
    && Commit(k, ops, tree, txs, []).Success?
    && var (after, receipts) := Commit(k, ops, tree, txs, []).value;
       Revert(k, ops, after, txs, [], receipts) != Success(tree)
  }

  /** A tree with the staking contract only. */
  function Alone(a: nat, c: Contract): Tree<AnyAccount> {
    map[a := Staking(c)]
  }

  lemma {:induction false} ContractSteps(p: StakingPolicy, ph: Phase<AnyAccount, Tx>, d: Side,
                                         coins: Op<CoinAccount, Tx>, a: nat, c: Contract, t: Tx, c': Contract)
    requires ph.op == OnAccount(Act(d), coins) && ph.address(t) == a && ph.required(t) == Some(STAKING)
    requires ActOn(d, c, t, None).Success? && ActOn(d, c, t, None).value.0 == c'
    ensures Steps(StakingKind(p), ph, Alone(a, c), t, Alone(a, c'))
  {
    OnAccountIs(Act(d), coins, Staking(c), t, None);
    assert Alone(a, c)[a := Staking(c')] == Alone(a, c');
  }

  // ---------- two withdrawals ----------

  /** Withdraws one coin for staker `s` from the contract at `a` to a basic account at `b`. */
  ghost predicate UnstakesOne(p: StakingPolicy, t: Tx, a: nat, b: nat, s: nat) {
    && t.sender == a && t.recipient == b && a != b && t.senderType == STAKING && t.recipientType == BASIC
    && !CreatesContract(t) && t.value == 1 && t.fee == 0 && p.unstaker(t) == Some(s)
  }

  function Only(s: nat, e: Entry): map<nat, InactiveStake> {
    if e.None? then map[] else map[s := e.value]
  }

  function Holding(a: nat, s: nat, balance: Coin, e: Entry): Tree<AnyAccount> {
    Alone(a, Contract(balance, map[], Only(s, e), {}))
  }

  lemma {:induction false} UnstakeOne(p: StakingPolicy, t: Tx, a: nat, b: nat, s: nat, n: Coin, time: nat, left: Entry)
    requires UnstakesOne(p, t, a, b, s) && p.mature(time) && 0 < n
    requires left == if n == 1 then None else Some(InactiveStake(n - 1, time))
    ensures Steps(StakingKind(p), Outgoing(StakingOps(p).commitOutgoing),
                  Holding(a, s, n, Some(InactiveStake(n, time))), t, Holding(a, s, n - 1, left))
  {
    var c, d := Contract(n, map[], Only(s, Some(InactiveStake(n, time))), {}),
                Contract(n - 1, map[], Only(s, left), {});
    assert SetEntry(c.inactive, s, left) == d.inactive;
    ContractSteps(p, Outgoing(StakingOps(p).commitOutgoing), Spending(p), CoinOps(p.coins).commitOutgoing, a, c, t, d);
  }

  lemma {:induction false} ReceiveOne(p: StakingPolicy, t: Tx, tree: Tree<AnyAccount>, a: nat, b: nat, s: nat, n: Coin)
    requires UnstakesOne(p, t, a, b, s) && Get(StakingKind(p), tree, b) == Coins(Basic(n)) && n < MAX_SAFE_VALUE
    ensures Steps(StakingKind(p), Incoming(StakingOps(p).commitIncoming), tree, t, tree[b := Coins(Basic(n + 1))])
  {
    OnAccountIs(Act(Receiving(p)), CoinOps(p.coins).commitIncoming, Coins(Basic(n)), t, None);
  }

  lemma {:induction false} ReceiveTwo(p: StakingPolicy, t: Tx, u: Tx, tree: Tree<AnyAccount>, a: nat, b: nat, s: nat)
    requires UnstakesOne(p, t, a, b, s) && UnstakesOne(p, u, a, b, s) && b !in tree
    ensures Reaches(StakingKind(p), Incoming(StakingOps(p).commitIncoming), tree, [t, u], NoReceipts(2),
                    tree[b := Coins(Basic(1))][b := Coins(Basic(2))])
  {
    var one := tree[b := Coins(Basic(1))];
    ReceiveOne(p, t, tree, a, b, s, 0);
    ReceiveOne(p, u, one, a, b, s, 1);
    PairRuns(StakingKind(p), Incoming(StakingOps(p).commitIncoming), tree, t, u, one, one[b := Coins(Basic(2))]);
  }

  lemma {:induction false} UnstakingTwiceCommits(p: StakingPolicy, t: Tx, u: Tx, a: nat, b: nat, s: nat, time: nat,
                                                 two: Tree<AnyAccount>, one: Tree<AnyAccount>, none: Tree<AnyAccount>)
    requires UnstakesOne(p, t, a, b, s) && UnstakesOne(p, u, a, b, s) && b !in none
    requires Steps(StakingKind(p), Outgoing(StakingOps(p).commitOutgoing), two, t, one)
    requires Steps(StakingKind(p), Outgoing(StakingOps(p).commitOutgoing), one, u, none)
    ensures Commit(StakingKind(p), StakingOps(p), two, [t, u], []).Success?
  {
    PairRuns(StakingKind(p), Outgoing(StakingOps(p).commitOutgoing), two, t, u, one, none);
    ReceiveTwo(p, t, u, none, a, b, s);
    PairCommits(p, two, t, u, none, none[b := Coins(Basic(1))][b := Coins(Basic(2))]);
  }

  lemma {:induction false} PairItems(address: Tx -> nat, a: nat, t: Tx, u: Tx)
    requires address(t) == a && address(u) == a
    ensures ItemsAt(address, a, [t, u]) == [t, u]
  {
    assert [t, u][1..] == [u] && [u][1..] == [];
    assert ItemsAt(address, a, [u]) == [u] + ItemsAt(address, a, []);
  }

  lemma {:induction false} PairMoves(effect: Tx -> Result<Effect, AccountError>, t: Tx, u: Tx, s: nat)
    ensures MovesOf(effect, [t, u], s) == [MoveOn(effect(t), s), MoveOn(effect(u), s)]
  {
    assert [t, u][1..] == [u] && [u][1..] == [];
    assert MovesOf(effect, [u], s) == [MoveOn(effect(u), s)] + MovesOf(effect, [], s);
  }

  lemma {:induction false} PairCounts(m: Move, q: Move)
    ensures Taken([m, q]) == (if Takes(m) then m.amount else 0) + if Takes(q) then q.amount else 0
    ensures TakeCount([m, q]) == (if Takes(m) then 1 else 0) + if Takes(q) then 1 else 0
    ensures GiveCount([m, q]) == (if m.Retire? then 1 else 0) + if q.Retire? then 1 else 0
  {
    assert [m, q][1..] == [q] && [q][1..] == [];
    assert Taken([q]) == (if Takes(q) then q.amount else 0) + Taken([]);
    assert TakeCount([q]) == (if Takes(q) then 1 else 0) + TakeCount([]);
    assert GiveCount([q]) == (if q.Retire? then 1 else 0) + GiveCount([]);
  }

  lemma {:induction false} EmptyingTogether(p: StakingPolicy, t: Tx, u: Tx, a: nat, b: nat, s: nat, time: nat)
    requires UnstakesOne(p, t, a, b, s) && UnstakesOne(p, u, a, b, s)
    ensures !StakesRestorable(p, Holding(a, s, 2, Some(InactiveStake(2, time))), [t, u])
  {
    PairItems(BySender, a, t, u);
    PairMoves(Spending(p).effect, t, u, s);
    PairCounts(Unstake(1), Unstake(1));
    assert TakesOf(p, [t, u], a, s) == [Unstake(1), Unstake(1)];
    assert !Restorable(p, Holding(a, s, 2, Some(InactiveStake(2, time)))[a].contract, [t, u], a, s);
  }

  /** A block that withdraws the two coins of a staker one by one is committed, and cannot be taken back. */
  lemma {:induction false} UnstakingTwiceFails(p: StakingPolicy, t: Tx, u: Tx, a: nat, b: nat, s: nat, time: nat)
    requires UnstakesOne(p, t, a, b, s) && UnstakesOne(p, u, a, b, s) && p.mature(time)
    ensures NotTakenBack(p, Holding(a, s, 2, Some(InactiveStake(2, time))), [t, u])
  {
    var two, one := Holding(a, s, 2, Some(InactiveStake(2, time))), Holding(a, s, 1, Some(InactiveStake(1, time)));
    UnstakeOne(p, t, a, b, s, 2, time, Some(InactiveStake(1, time)));
    UnstakeOne(p, u, a, b, s, 1, time, None);
    UnstakingTwiceCommits(p, t, u, a, b, s, time, two, one, Holding(a, s, 0, None));
    EmptyingTogether(p, t, u, a, b, s, time);
    PairFails(p, two, t, u);
  }

  // ---------- two retirements ----------

  /** Retires one coin that staker `s` has delegated to `v`. */
  ghost predicate RetiresOne(p: StakingPolicy, t: Tx, a: nat, v: nat, s: nat) {
    && t.sender == a && t.recipient == a && t.senderType == STAKING && t.recipientType == STAKING
    && !CreatesContract(t) && t.value == 1 && t.fee == 0 && p.selfAction(t) == Some(RetireStake(s, v))
  }

  /** A validator to which `s` delegates `n` coins. */
  function Delegate(s: nat, n: Coin): Validator {
    Validator(n, if n == 0 then map[] else map[s := n], [])
  }

  function Managing(v: nat, s: nat, balance: Coin, n: Coin, e: Entry): Contract {
    Contract(balance, map[v := Delegate(s, n)], Only(s, e), {})
  }

  function Delegating(a: nat, v: nat, s: nat, balance: Coin, n: Coin, e: Entry): Tree<AnyAccount> {
    Alone(a, Managing(v, s, balance, n, e))
  }

  lemma {:induction false} DelegateLess(s: nat, n: Coin)
    requires 0 < n
    ensures Shrunk(Delegate(s, n), s, 1) == Success(Delegate(s, n - 1))
  {
    var stakes := Delegate(s, n).stakes;
    assert (if n == 1 then stakes - {s} else stakes[s := n - 1]) == Delegate(s, n - 1).stakes;
  }

  lemma {:induction false} RetireActs(p: StakingPolicy, t: Tx, a: nat, v: nat, s: nat, balance: Coin, n: Coin,
                                      rest: Coin, m: Coin, e: Entry)
    requires RetiresOne(p, t, a, v, s) && balance == rest + 1 && n == m + 1
    ensures ActOn(Spending(p), Managing(v, s, balance, n, e), t, None) == Success((Managing(v, s, rest, m, e), None))
  {
    var c, d := Managing(v, s, balance, n, e), Managing(v, s, rest, m, e);
    DelegateLess(s, n);
    assert c.validators[v := Delegate(s, m)] == d.validators;
    assert SetEntry(c.inactive, s, e) == d.inactive;
  }

  lemma {:induction false} RetireOne(p: StakingPolicy, t: Tx, a: nat, v: nat, s: nat, balance: Coin, n: Coin,
                                     rest: Coin, m: Coin, e: Entry)
    requires RetiresOne(p, t, a, v, s) && balance == rest + 1 && n == m + 1
    ensures Steps(StakingKind(p), Outgoing(StakingOps(p).commitOutgoing), Delegating(a, v, s, balance, n, e), t,
                  Delegating(a, v, s, rest, m, e))
  {
    RetireActs(p, t, a, v, s, balance, n, rest, m, e);
    ContractSteps(p, Outgoing(StakingOps(p).commitOutgoing), Spending(p), CoinOps(p.coins).commitOutgoing, a,
                  Managing(v, s, balance, n, e), t, Managing(v, s, rest, m, e));
  }

  ghost predicate OneMore(e: Entry, height: nat, f: Entry) {
    && f.Some? && f.value.retireTime == height
    && f.value.balance == if e.None? then 1 else e.value.balance + 1
  }

  lemma {:induction false} RetiredOne(p: StakingPolicy, t: Tx, a: nat, v: nat, s: nat, balance: Coin, more: Coin,
                                      n: Coin, e: Entry, f: Entry)
    requires RetiresOne(p, t, a, v, s) && more == balance + 1 && OneMore(e, p.height, f)
    ensures Steps(StakingKind(p), Incoming(StakingOps(p).commitIncoming), Delegating(a, v, s, balance, n, e), t,
                  Delegating(a, v, s, more, n, f))
  {
    var c, d := Managing(v, s, balance, n, e), Managing(v, s, more, n, f);
    assert SetEntry(c.inactive, s, f) == d.inactive;
    ContractSteps(p, Incoming(StakingOps(p).commitIncoming), Receiving(p), CoinOps(p.coins).commitIncoming, a, c, t, d);
  }

  lemma {:induction false} RetiringTogether(p: StakingPolicy, t: Tx, u: Tx, a: nat, v: nat, s: nat, balance: Coin,
                                            e: Entry)
    requires RetiresOne(p, t, a, v, s) && RetiresOne(p, u, a, v, s) && (e.Some? ==> e.value.retireTime != p.height)
    ensures !StakesRestorable(p, Delegating(a, v, s, balance, 2, e), [t, u])
  {
    PairItems(ByRecipient, a, t, u);
    PairMoves(Receiving(p).effect, t, u, s);
    PairCounts(Retire(1), Retire(1));
    assert GivesOf(p, [t, u], a, s) == [Retire(1), Retire(1)];
    assert !Restorable(p, Delegating(a, v, s, balance, 2, e)[a].contract, [t, u], a, s);
  }

  lemma {:induction false} RetireTwo(p: StakingPolicy, t: Tx, u: Tx, a: nat, v: nat, s: nat, balance: Coin, rest: Coin,
                                     e: Entry)
    requires RetiresOne(p, t, a, v, s) && RetiresOne(p, u, a, v, s) && balance == rest + 2
    ensures Reaches(StakingKind(p), Outgoing(StakingOps(p).commitOutgoing), Delegating(a, v, s, balance, 2, e), [t, u],
                    NoReceipts(2), Delegating(a, v, s, rest, 0, e))
  {
    var mid: Coin := rest + 1;
    RetireOne(p, t, a, v, s, balance, 2, mid, 1, e);
    RetireOne(p, u, a, v, s, mid, 1, rest, 0, e);
    PairRuns(StakingKind(p), Outgoing(StakingOps(p).commitOutgoing), Delegating(a, v, s, balance, 2, e), t, u,
             Delegating(a, v, s, mid, 1, e), Delegating(a, v, s, rest, 0, e));
  }

  lemma {:induction false} RetiredTwo(p: StakingPolicy, t: Tx, u: Tx, a: nat, v: nat, s: nat, rest: Coin, balance: Coin,
                                      e: Entry, f: Entry, g: Entry)
    requires RetiresOne(p, t, a, v, s) && RetiresOne(p, u, a, v, s) && balance == rest + 2
    requires OneMore(e, p.height, f) && OneMore(f, p.height, g)
    ensures Reaches(StakingKind(p), Incoming(StakingOps(p).commitIncoming), Delegating(a, v, s, rest, 0, e), [t, u],
                    NoReceipts(2), Delegating(a, v, s, balance, 0, g))
  {
    var mid: Coin := rest + 1;
    RetiredOne(p, t, a, v, s, rest, mid, 0, e, f);
    RetiredOne(p, u, a, v, s, mid, balance, 0, f, g);
    PairRuns(StakingKind(p), Incoming(StakingOps(p).commitIncoming), Delegating(a, v, s, rest, 0, e), t, u,
             Delegating(a, v, s, mid, 0, f), Delegating(a, v, s, balance, 0, g));
  }

  lemma {:induction false} RetiringTwiceCommits(p: StakingPolicy, t: Tx, u: Tx, a: nat, v: nat, s: nat, balance: Coin,
                                                e: Entry, f: Entry, g: Entry)
    requires RetiresOne(p, t, a, v, s) && RetiresOne(p, u, a, v, s) && balance >= 2
    requires OneMore(e, p.height, f) && OneMore(f, p.height, g)
    ensures Commit(StakingKind(p), StakingOps(p), Delegating(a, v, s, balance, 2, e), [t, u], []).Success?
  {
    var rest: Coin := balance - 2;
    RetireTwo(p, t, u, a, v, s, balance, rest, e);
    RetiredTwo(p, t, u, a, v, s, rest, balance, e, f, g);
    PairCommits(p, Delegating(a, v, s, balance, 2, e), t, u, Delegating(a, v, s, rest, 0, e),
                Delegating(a, v, s, balance, 0, g));
  }

  lemma {:induction false} DelegatingIsSound(p: StakingPolicy, a: nat, v: nat, s: nat, balance: Coin, e: Entry)
    requires e.Some? ==> 0 < e.value.balance
    ensures Normal(StakingKind(p), Delegating(a, v, s, balance, 2, e)) && SoundTree(Delegating(a, v, s, balance, 2, e))
  {
  }

  /** A block that retires stake of a staker twice, onto none or onto some of another height, likewise. */
  lemma {:induction false} RetiringTwiceFails(p: StakingPolicy, t: Tx, u: Tx, a: nat, v: nat, s: nat, balance: Coin,
                                              e: Entry)
    requires RetiresOne(p, t, a, v, s) && RetiresOne(p, u, a, v, s) && balance >= 2
    requires e.Some? ==> 0 < e.value.balance < MAX_SAFE_VALUE - 1 && e.value.retireTime != p.height
    ensures NotTakenBack(p, Delegating(a, v, s, balance, 2, e), [t, u])
  {
    var f := Some(InactiveStake(if e.None? then 1 else e.value.balance + 1, p.height));
    RetiringTwiceCommits(p, t, u, a, v, s, balance, e, f, Some(InactiveStake(f.value.balance + 1, p.height)));
    RetiringTogether(p, t, u, a, v, s, balance, e);
    DelegatingIsSound(p, a, v, s, balance, e);
    PairFails(p, Delegating(a, v, s, balance, 2, e), t, u);
  }
}
