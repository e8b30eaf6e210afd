/** A phase of a block acts on every account by itself, and is undone exactly if it is undone on each. */
module AccountsLocal {
  import opened Prelude
  import opened Accounts

  type Results<A> = Result<(A, seq<Option<Data>>), AccountError>

  // ---------- one account ----------

  /** Applies an operation for one item after another. */
  function Fold<A, T>(op: Op<A, T>, account: A, xs: seq<T>, receipts: seq<Option<Data>>): (r: Results<A>)
    requires |receipts| == |xs|
    ensures r.Success? ==> |r.value.1| == |xs|
    decreases |xs|
  {
    if xs == [] then Success((account, []))
    else
      var first :- op(account, xs[0], receipts[0]);
      var rest :- Fold(op, first.0, xs[1..], receipts[1..]);
      Success((rest.0, [first.1] + rest.1))
  }

  lemma {:induction false} NoReceiptsTail(n: nat)
    requires n > 0
    ensures NoReceipts(n)[0] == None && NoReceipts(n)[1..] == NoReceipts(n - 1)
  {
  }

  function FoldNew<A, T>(op: Op<A, T>, account: A, xs: seq<T>): Results<A> {
    Fold(op, account, xs, NoReceipts(|xs|))
  }

  /** The first item and the others. */
  lemma {:induction false} FoldHead<A, T>(op: Op<A, T>, account: A, xs: seq<T>, receipts: seq<Option<Data>>,
                                          first: Result<(A, Option<Data>), AccountError>)
    requires |receipts| == |xs| > 0 && op(account, xs[0], receipts[0]) == first
    ensures Fold(op, account, xs, receipts).Success? <==>
            first.Success? && Fold(op, first.value.0, xs[1..], receipts[1..]).Success?
    ensures Fold(op, account, xs, receipts).Success? ==>
              && Fold(op, account, xs, receipts).value.0 == Fold(op, first.value.0, xs[1..], receipts[1..]).value.0
              && Fold(op, account, xs, receipts).value.1[0] == first.value.1
              && Fold(op, account, xs, receipts).value.1[1..] == Fold(op, first.value.0, xs[1..], receipts[1..]).value.1
  {
  }

  lemma {:induction false} FoldNewHead<A, T>(op: Op<A, T>, account: A, xs: seq<T>,
                                             first: Result<(A, Option<Data>), AccountError>)
    requires |xs| > 0 && op(account, xs[0], None) == first
    ensures FoldNew(op, account, xs).Success? <==> first.Success? && FoldNew(op, first.value.0, xs[1..]).Success?
    ensures FoldNew(op, account, xs).Success? ==>
              && FoldNew(op, account, xs).value.0 == FoldNew(op, first.value.0, xs[1..]).value.0
              && FoldNew(op, account, xs).value.1[0] == first.value.1
              && FoldNew(op, account, xs).value.1[1..] == FoldNew(op, first.value.0, xs[1..]).value.1
  {
    NoReceiptsTail(|xs|);
    FoldHead(op, account, xs, NoReceipts(|xs|), first);
  }

  /** Taking the items back in the same order, with their own receipts, gives the account back. */
  ghost predicate Undone<A, T>(commit: Op<A, T>, revert: Op<A, T>, account: A, xs: seq<T>) {
    FoldNew(commit, account, xs).Success? ==>
      var (after, rs) := FoldNew(commit, account, xs).value;
      Fold(revert, after, xs, rs).Success? && Fold(revert, after, xs, rs).value.0 == account
  }

  /** Reverting an operation with its own receipt gives the account back. */
  ghost predicate Returns<A, T>(commit: Op<A, T>, revert: Op<A, T>, a: A, x: T) {
    commit(a, x, None).Success? ==>
      var (b, r) := commit(a, x, None).value; revert(b, x, r) == Success((a, None))
  }

  /** An operation can be taken back from below a later one, with the same effect and receipts. */
  ghost predicate Swaps<A, T>(commit: Op<A, T>, revert: Op<A, T>, c: A, x: T, r: Option<Data>, y: T)
    requires revert(c, x, r).Success? && commit(c, y, None).Success?
  {
    var d := revert(c, x, r).value.0;
    var (c2, r2) := commit(c, y, None).value;
    && commit(d, y, None).Success?
    && commit(d, y, None).value.1 == r2
    && revert(c2, x, r) == Success((commit(d, y, None).value.0, None))
  }

  function Any<A>(): A -> bool {
    (a: A) => true
  }

  /** The operations of some items, on accounts that they keep good, invert and swap. */
  ghost predicate Exchange<A(!new), T(!new)>(good: A -> bool, commit: Op<A, T>, revert: Op<A, T>, items: seq<T>) {
    && (forall a, x :: good(a) && x in items && commit(a, x, None).Success? ==> good(commit(a, x, None).value.0))
    && (forall a, x :: good(a) && x in items ==> Returns(commit, revert, a, x))
    && (forall c, x, r, y ::
          good(c) && x in items && y in items && revert(c, x, r).Success? && commit(c, y, None).Success? ==>
            Swaps(commit, revert, c, x, r, y))
  }

  /** An item can be taken back from below all later ones. */
  lemma {:induction false} SwapsPastAll<A(!new), T(!new)>(good: A -> bool, commit: Op<A, T>, revert: Op<A, T>, c: A,
                                                          d: A, x: T, r: Option<Data>, ys: seq<T>, items: seq<T>)
    requires Exchange(good, commit, revert, items) && good(c) && x in items && (forall y :: y in ys ==> y in items)
    requires revert(c, x, r) == Success((d, None)) && FoldNew(commit, c, ys).Success?
    ensures FoldNew(commit, d, ys).Success? && FoldNew(commit, d, ys).value.1 == FoldNew(commit, c, ys).value.1
    ensures revert(FoldNew(commit, c, ys).value.0, x, r) == Success((FoldNew(commit, d, ys).value.0, None))
    decreases |ys|
  {
    if ys != [] {
      NoReceiptsTail(|ys|);
      assert ys[0] in items && Swaps(commit, revert, c, x, r, ys[0]);
      SwapsPastAll(good, commit, revert, commit(c, ys[0], None).value.0, commit(d, ys[0], None).value.0, x, r, ys[1..],
                   items);
    }
  }

  lemma {:induction false} ExchangeTail<A(!new), T(!new)>(good: A -> bool, commit: Op<A, T>, revert: Op<A, T>,
                                                          items: seq<T>)
    requires Exchange(good, commit, revert, items) && items != []
    ensures Exchange(good, commit, revert, items[1..])
  {
    assert forall x :: x in items[1..] ==> x in items;
  }

  /** Operations that invert and swap are undone in forward order. */
  lemma {:induction false} SwappingIsUndone<A(!new), T(!new)>(good: A -> bool, commit: Op<A, T>, revert: Op<A, T>,
                                                              account: A, xs: seq<T>)
    requires Exchange(good, commit, revert, xs) && good(account)
    ensures Undone(commit, revert, account, xs)
    decreases |xs|
  {
    if xs != [] && FoldNew(commit, account, xs).Success? {
      NoReceiptsTail(|xs|);
      var (c, r) := commit(account, xs[0], None).value;
      assert xs[0] in xs && Returns(commit, revert, account, xs[0]);
      SwapsPastAll(good, commit, revert, c, account, xs[0], r, xs[1..], xs);
      ExchangeTail(good, commit, revert, xs);
      SwappingIsUndone(good, commit, revert, account, xs[1..]);
    }
  }

  // ---------- accounts inside accounts ----------

  /** The outcome on a part, put back into the whole. */
  function Lifted<A, B, R>(up: B -> A, r: Result<(B, R), AccountError>): Result<(A, R), AccountError> {
    if r.Failure? then Failure(r.error) else Success((up(r.value.0), r.value.1))
  }

  ghost predicate ActsThrough<A, B(!new), T(!new)>(up: B -> A, op: Op<A, T>, inner: Op<B, T>, xs: seq<T>) {
    forall b, x, r :: x in xs ==> op(up(b), x, r) == Lifted(up, inner(b, x, r))
  }

  lemma {:induction false} FoldThrough<A, B(!new), T(!new)>(up: B -> A, op: Op<A, T>, inner: Op<B, T>, b: B, xs: seq<T>,
                                                            receipts: seq<Option<Data>>)
    requires ActsThrough(up, op, inner, xs) && |receipts| == |xs|
    ensures Fold(op, up(b), xs, receipts) == Lifted(up, Fold(inner, b, xs, receipts))
    decreases |xs|
  {
    if xs != [] {
      assert xs[0] in xs && forall x :: x in xs[1..] ==> x in xs;
      assert op(up(b), xs[0], receipts[0]) == Lifted(up, inner(b, xs[0], receipts[0]));
      if inner(b, xs[0], receipts[0]).Success? {
        FoldThrough(up, op, inner, inner(b, xs[0], receipts[0]).value.0, xs[1..], receipts[1..]);
      }
    }
  }

  /** The whole is given back exactly if the part is. */
  lemma {:induction false} UndoneThrough<A, B(!new), T(!new)>(up: B -> A, commit: Op<A, T>, revert: Op<A, T>,
                                                              inner: Op<B, T>, undo: Op<B, T>, b: B, xs: seq<T>)
    requires ActsThrough(up, commit, inner, xs) && ActsThrough(up, revert, undo, xs)
    requires forall c, d :: up(c) == up(d) ==> c == d
    ensures Undone(commit, revert, up(b), xs) <==> Undone(inner, undo, b, xs)
  {
    FoldThrough(up, commit, inner, b, xs, NoReceipts(|xs|));
    if FoldNew(inner, b, xs).Success? {
      var (after, rs) := FoldNew(inner, b, xs).value;
      FoldThrough(up, revert, undo, after, xs, rs);
    }
  }

  // ---------- the tree ----------

  lemma {:induction false} GetPut<A>(k: Kind<A>, tree: Tree<A>, a: nat, x: A, b: nat)
    ensures Get(k, Put(k, tree, a, x), b) == if a == b then x else Get(k, tree, b)
  {
  }

  lemma {:induction false} PutNormal<A>(k: Kind<A>, tree: Tree<A>, a: nat, x: A)
    requires Normal(k, tree)
    ensures Normal(k, Put(k, tree, a, x))
  {
  }

  /** A tree without initial accounts is determined by its accounts. */
  lemma {:induction false} SameAccounts<A>(k: Kind<A>, s: Tree<A>, t: Tree<A>)
    requires Normal(k, s) && Normal(k, t) && forall a :: Get(k, s, a) == Get(k, t, a)
    ensures s == t
  {
    forall a
      ensures a in s <==> a in t
    {
      assert Get(k, s, a) == Get(k, t, a);
    }
    forall a | a in s
      ensures s[a] == t[a]
    {
      assert Get(k, s, a) == Get(k, t, a);
    }
  }

  /** What an item of a phase does to its account: the type is checked first. */
  function Checked<A, T>(k: Kind<A>, ph: Phase<A, T>): Op<A, T> {
    (account: A, x: T, r: Option<Data>) =>
      var required := ph.required(x);
      if required.Some? && k.typeOf(account) != required.value then
        Failure(TypeMismatch(k.typeOf(account), required.value))
      else ph.op(account, x, r)
  }

  /** The entries of `ys` that stand beside the items of one account. */
  function Pick<T, U>(address: T -> nat, a: nat, xs: seq<T>, ys: seq<U>): seq<U>
    requires |ys| == |xs|
    decreases |xs|
  {
    if xs == [] then []
    else (if address(xs[0]) == a then [ys[0]] else []) + Pick(address, a, xs[1..], ys[1..])
  }

  /** The items of one account. */
  function ItemsAt<T>(address: T -> nat, a: nat, xs: seq<T>): seq<T> {
    Pick(address, a, xs, xs)
  }

  lemma {:induction false} PickSize<T, U>(address: T -> nat, a: nat, xs: seq<T>, ys: seq<U>)
    requires |ys| == |xs|
    ensures |Pick(address, a, xs, ys)| == |ItemsAt(address, a, xs)|
    decreases |xs|
  {
    if xs != [] {
      PickSize(address, a, xs[1..], ys[1..]);
    }
  }

  lemma {:induction false} PickNone<T>(address: T -> nat, a: nat, xs: seq<T>)
    ensures Pick(address, a, xs, NoReceipts(|xs|)) == NoReceipts(|ItemsAt(address, a, xs)|)
    decreases |xs|
  {
    if xs != [] {
      NoReceiptsTail(|xs|);
      PickNone(address, a, xs[1..]);
    }
  }

  /** The items of one account, with their receipts. */
  function LocalRun<A, T>(op: Op<A, T>, address: T -> nat, a: nat, account: A, xs: seq<T>, receipts: seq<Option<Data>>)
    : Results<A>
    requires |receipts| == |xs|
  {
    PickSize(address, a, xs, receipts);
    Fold(op, account, ItemsAt(address, a, xs), Pick(address, a, xs, receipts))
  }

  lemma {:induction false} LocalElsewhere<A, T>(op: Op<A, T>, address: T -> nat, a: nat, account: A, xs: seq<T>,
                                                receipts: seq<Option<Data>>)
    requires |receipts| == |xs| > 0 && address(xs[0]) != a
    ensures LocalRun(op, address, a, account, xs, receipts) ==
            LocalRun(op, address, a, account, xs[1..], receipts[1..])
  {
    assert ItemsAt(address, a, xs) == ItemsAt(address, a, xs[1..]);
    assert Pick(address, a, xs, receipts) == Pick(address, a, xs[1..], receipts[1..]);
  }

  lemma {:induction false} LocalHere<A, T>(op: Op<A, T>, address: T -> nat, a: nat, account: A, xs: seq<T>,
                                           receipts: seq<Option<Data>>)
    requires |receipts| == |xs| > 0 && address(xs[0]) == a
    ensures var first, r := op(account, xs[0], receipts[0]), LocalRun(op, address, a, account, xs, receipts);
            if first.Failure? then r.Failure?
            else
              var rest := LocalRun(op, address, a, first.value.0, xs[1..], receipts[1..]);
              r == if rest.Failure? then Failure(rest.error)
                   else Success((rest.value.0, [first.value.1] + rest.value.1))
  {
    var items, rs := ItemsAt(address, a, xs), Pick(address, a, xs, receipts);
    PickSize(address, a, xs, receipts);
    PickSize(address, a, xs[1..], receipts[1..]);
    assert items[0] == xs[0] && items[1..] == ItemsAt(address, a, xs[1..]);
    assert rs[0] == receipts[0] && rs[1..] == Pick(address, a, xs[1..], receipts[1..]);
  }

  /** A run over the tree is, for every account, a run over that account alone. */
  lemma {:induction false} RunAt<A, T>(k: Kind<A>, ph: Phase<A, T>, tree: Tree<A>, xs: seq<T>,
                                       receipts: seq<Option<Data>>, a: nat)
    requires |receipts| == |xs| && ApplyAll(k, ph, tree, xs, receipts).Success?
    ensures var (t, rs) := ApplyAll(k, ph, tree, xs, receipts).value;
            LocalRun(Checked(k, ph), ph.address, a, Get(k, tree, a), xs, receipts) ==
            Success((Get(k, t, a), Pick(ph.address, a, xs, rs)))
    decreases |xs|
  {
    if xs != [] {
      var b := ph.address(xs[0]);
      var (next, r) := Apply(k, ph, tree, xs[0], receipts[0]).value;
      var rest := ApplyAll(k, ph, next, xs[1..], receipts[1..]).value;
      RunAt(k, ph, next, xs[1..], receipts[1..], a);
      assert ([r] + rest.1)[1..] == rest.1;
      GetPut(k, tree, b, Checked(k, ph)(Get(k, tree, b), xs[0], receipts[0]).value.0, a);
      if a == b {
        LocalHere(Checked(k, ph), ph.address, a, Get(k, tree, a), xs, receipts);
      } else {
        LocalElsewhere(Checked(k, ph), ph.address, a, Get(k, tree, a), xs, receipts);
        assert Pick(ph.address, a, xs, [r] + rest.1) == Pick(ph.address, a, xs[1..], rest.1);
      }
    }
  }

  ghost predicate RunsAt<A, T>(k: Kind<A>, ph: Phase<A, T>, tree: Tree<A>, xs: seq<T>, receipts: seq<Option<Data>>,
                               a: nat)
    requires |receipts| == |xs|
  {
    LocalRun(Checked(k, ph), ph.address, a, Get(k, tree, a), xs, receipts).Success?
  }

  /** A run over the tree succeeds if it does on every account alone. */
  lemma {:induction false} RunsEverywhere<A, T>(k: Kind<A>, ph: Phase<A, T>, tree: Tree<A>, xs: seq<T>,
                                                receipts: seq<Option<Data>>)
    requires |receipts| == |xs| && forall a :: RunsAt(k, ph, tree, xs, receipts, a)
    ensures ApplyAll(k, ph, tree, xs, receipts).Success?
    decreases |xs|
  {
    if xs != [] {
      var b := ph.address(xs[0]);
      assert RunsAt(k, ph, tree, xs, receipts, b);
      LocalHere(Checked(k, ph), ph.address, b, Get(k, tree, b), xs, receipts);
      var next := Apply(k, ph, tree, xs[0], receipts[0]).value.0;
      forall a
        ensures RunsAt(k, ph, next, xs[1..], receipts[1..], a)
      {
        assert RunsAt(k, ph, tree, xs, receipts, a);
        GetPut(k, tree, b, Checked(k, ph)(Get(k, tree, b), xs[0], receipts[0]).value.0, a);
        if a != b {
          LocalElsewhere(Checked(k, ph), ph.address, a, Get(k, tree, a), xs, receipts);
        }
      }
      RunsEverywhere(k, ph, next, xs[1..], receipts[1..]);
    }
  }

  lemma {:induction false} RunNormal<A, T>(k: Kind<A>, ph: Phase<A, T>, tree: Tree<A>, xs: seq<T>,
                                           receipts: seq<Option<Data>>)
    requires Normal(k, tree) && |receipts| == |xs| && ApplyAll(k, ph, tree, xs, receipts).Success?
    ensures Normal(k, ApplyAll(k, ph, tree, xs, receipts).value.0)
    decreases |xs|
  {
    if xs != [] {
      var b := ph.address(xs[0]);
      PutNormal(k, tree, b, ph.op(Get(k, tree, b), xs[0], receipts[0]).value.0);
      RunNormal(k, ph, Apply(k, ph, tree, xs[0], receipts[0]).value.0, xs[1..], receipts[1..]);
    }
  }

  /** Every account is given back by the items that act on it. */
  ghost predicate UndoneAt<A, T>(k: Kind<A>, ph: Phase<A, T>, undo: Phase<A, T>, tree: Tree<A>, xs: seq<T>, a: nat) {
    Undone(Checked(k, ph), Checked(k, undo), Get(k, tree, a), ItemsAt(ph.address, a, xs))
  }

  /** Taking a phase back in forward order gives the tree back. */
  ghost predicate PhaseUndone<A, T>(k: Kind<A>, ph: Phase<A, T>, undo: Phase<A, T>, tree: Tree<A>, xs: seq<T>)
    requires ApplyAll(k, ph, tree, xs, NoReceipts(|xs|)).Success?
  {
    var (t, rs) := ApplyAll(k, ph, tree, xs, NoReceipts(|xs|)).value;
    ApplyAll(k, undo, t, xs, rs).Success? && ApplyAll(k, undo, t, xs, rs).value.0 == tree
  }

  /** How a phase and its reversal look from one account. */
  lemma {:induction false} UndoneAtIs<A, T>(k: Kind<A>, ph: Phase<A, T>, undo: Phase<A, T>, tree: Tree<A>, xs: seq<T>,
                                            t: Tree<A>, rs: seq<Option<Data>>, a: nat)
    requires undo.address == ph.address && ApplyAll(k, ph, tree, xs, NoReceipts(|xs|)) == Success((t, rs))
    ensures UndoneAt(k, ph, undo, tree, xs, a) <==>
            && LocalRun(Checked(k, undo), undo.address, a, Get(k, t, a), xs, rs).Success?
            && LocalRun(Checked(k, undo), undo.address, a, Get(k, t, a), xs, rs).value.0 == Get(k, tree, a)
  {
    RunAt(k, ph, tree, xs, NoReceipts(|xs|), a);
    PickNone(ph.address, a, xs);
  }

  /** A phase is undone exactly if it is undone on every account. */
  lemma {:induction false} PhaseUndoneIff<A, T>(k: Kind<A>, ph: Phase<A, T>, undo: Phase<A, T>, tree: Tree<A>,
                                                xs: seq<T>)
    requires undo.address == ph.address && Normal(k, tree) && ApplyAll(k, ph, tree, xs, NoReceipts(|xs|)).Success?
    ensures PhaseUndone(k, ph, undo, tree, xs) <==> forall a :: UndoneAt(k, ph, undo, tree, xs, a)
  {
    var (t, rs) := ApplyAll(k, ph, tree, xs, NoReceipts(|xs|)).value;
    if forall a :: UndoneAt(k, ph, undo, tree, xs, a) {
      PhaseUndoneIf(k, ph, undo, tree, xs, t, rs);
    }
    if PhaseUndone(k, ph, undo, tree, xs) {
      forall a
        ensures UndoneAt(k, ph, undo, tree, xs, a)
      {
        UndoneAtIs(k, ph, undo, tree, xs, t, rs, a);
        RunAt(k, undo, t, xs, rs, a);
      }
    }
  }

  lemma {:induction false} PhaseUndoneIf<A, T>(k: Kind<A>, ph: Phase<A, T>, undo: Phase<A, T>, tree: Tree<A>,
                                               xs: seq<T>, t: Tree<A>, rs: seq<Option<Data>>)
    requires undo.address == ph.address && Normal(k, tree)
    requires ApplyAll(k, ph, tree, xs, NoReceipts(|xs|)) == Success((t, rs))
    requires forall a :: UndoneAt(k, ph, undo, tree, xs, a)
    ensures PhaseUndone(k, ph, undo, tree, xs)
  {
    forall a
      ensures RunsAt(k, undo, t, xs, rs, a)
    {
      UndoneAtIs(k, ph, undo, tree, xs, t, rs, a);
    }
    RunsEverywhere(k, undo, t, xs, rs);
    var back := ApplyAll(k, undo, t, xs, rs).value.0;
    RunNormal(k, ph, tree, xs, NoReceipts(|xs|));
    RunNormal(k, undo, t, xs, rs);
    forall a
      ensures Get(k, back, a) == Get(k, tree, a)
    {
      UndoneAtIs(k, ph, undo, tree, xs, t, rs, a);
      RunAt(k, undo, t, xs, rs, a);
    }
    SameAccounts(k, back, tree);
  }
}
