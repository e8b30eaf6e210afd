/**
 * Moving the transaction cache to another branch (blockchain-albatross/src/blockchain/push.rs): blocks
 * are reverted newest first, the window is filled up with older blocks, and the fork is pushed.
 */
module CacheRebranch {
  import opened Prelude
  import opened TransactionCaches

  const EMPTY: Cache := Cache({}, [])

  /** Reverts blocks, the last one first. */
  function RevertAll(c: Cache, bs: seq<Descriptor>): Outcome<Cache>
    decreases |bs|
  {
    if bs == [] then Ok(c)
    else
      var c' :- Reverted(c, bs[|bs| - 1]);
      RevertAll(c', bs[..|bs| - 1])
  }

  /** Prepends blocks, the last one first. */
  function PrependAll(c: Cache, bs: seq<Descriptor>): Outcome<Cache>
    decreases |bs|
  {
    if bs == [] then Ok(c)
    else
      var c' :- Prepended(c, bs[|bs| - 1]);
      PrependAll(c', bs[..|bs| - 1])
  }

  /** The blocks of a chain before those the cache holds, as many as the window misses. */
  function Missing(c: Cache, history: seq<Descriptor>): seq<Descriptor>
    requires |c.blocks| <= |history| && |c.blocks| <= VALIDITY_WINDOW
  {
    Newest(history[..|history| - |c.blocks|], VALIDITY_WINDOW - |c.blocks|)
  }

  /** A sequence without its first m elements. */
  ghost function From(s: seq<Descriptor>, m: nat): seq<Descriptor> {
    if m <= |s| then s[m..] else []
  }

  /** Two caches that hold the same blocks are the same. */
  lemma {:induction false} SameBlocks(c: Cache, d: Cache)
    requires CacheInv(c) && CacheInv(d) && c.blocks == d.blocks
    ensures c == d
  {
  }

  /** Reverting takes the blocks off the end of the window, also where the window ends within them. */
  lemma {:induction false} RevertAllIs(c: Cache, history: seq<Descriptor>, bs: seq<Descriptor>, m: nat)
    requires CacheInv(c) && c.blocks == From(history + bs, m)
    ensures RevertAll(c, bs).Ok? && CacheInv(RevertAll(c, bs).value)
    ensures RevertAll(c, bs).value.blocks == From(history, m)
    decreases |bs|
  {
    if bs == [] {
      assert history + bs == history;
    } else {
      var n := |bs| - 1;
      assert history + bs == (history + bs[..n]) + [bs[n]];
      assert c.blocks != [] ==> c.blocks[|c.blocks| - 1] == bs[n];
      RevertKeepsInv(c, bs[n]);
      assert Reverted(c, bs[n]).value.blocks == From(history + bs[..n], m);
      RevertAllIs(Reverted(c, bs[n]).value, history, bs[..n], m);
    }
  }

  lemma {:induction false} InsertFits(hashes: set<Hash>, before: seq<Hash>, txs: seq<Hash>, after: seq<Hash>)
    requires Holds(hashes, after) && NoRepeats(before + (txs + after))
    ensures InsertAll(hashes, txs).Ok?
  {
    RepeatsJoin(before, txs + after);
    RepeatsJoin(txs, after);
    InsertAllIs(hashes, txs);
  }

  /** A block can be put in front of the window if it stands there in some valid cache. */
  lemma {:induction false} PrependFits(c: Cache, first: seq<Descriptor>, b: Descriptor, d: Cache)
    requires CacheInv(c) && CacheInv(d) && d.blocks == first + ([b] + c.blocks)
    ensures Prepended(c, b).Ok?
  {
    ListedSplit(first, [b] + c.blocks);
    ListedSplit([b], c.blocks);
    ListedOne(b);
    InsertFits(c.hashes, Listed(first), b.transactions, Listed(c.blocks));
    LinkedParts(first, [b] + c.blocks);
    LinkedParts([b], c.blocks);
  }

  lemma {:induction false} PrependAllIs(c: Cache, first: seq<Descriptor>, d: Cache)
    requires CacheInv(c) && CacheInv(d) && d.blocks == first + c.blocks
    ensures PrependAll(c, first) == Ok(d)
    decreases |first|
  {
    if first == [] {
      assert first + c.blocks == c.blocks;
      SameBlocks(c, d);
    } else {
      var n := |first| - 1;
      assert first + c.blocks == first[..n] + ([first[n]] + c.blocks);
      PrependFits(c, first[..n], first[n], d);
      PrependKeepsInv(c, first[n]);
      PrependAllIs(Prepended(c, first[n]).value, first[..n], d);
    }
  }

  lemma {:induction false} NewestParts(history: seq<Descriptor>, tail: nat, n: nat)
    requires tail <= |history| && tail <= n
    ensures Newest(history[..|history| - tail], n - tail) + history[|history| - tail..] == Newest(history, n)
  {
  }

  /**
   * Pushing any run of blocks and reverting them, newest first, never panics, and prepending the
   * blocks that were shifted out meanwhile restores the cache exactly, however long the run was.
   */
  lemma {:induction false} RevertsUndoPushes(c: Cache, history: seq<Descriptor>, bs: seq<Descriptor>)
    requires CacheInv(c) && c.blocks == Newest(history, VALIDITY_WINDOW) && PushAll(c, bs).Ok?
    ensures RevertAll(PushAll(c, bs).value, bs).Ok?
    ensures var d := RevertAll(PushAll(c, bs).value, bs).value;
            |d.blocks| <= |history| && |d.blocks| <= VALIDITY_WINDOW && PrependAll(d, Missing(d, history)) == Ok(c)
  {
    RevertedWindow(c, history, bs);
    var d := RevertAll(PushAll(c, bs).value, bs).value;
    NewestParts(history, |d.blocks|, VALIDITY_WINDOW);
    PrependAllIs(d, Missing(d, history), c);
  }

  /** After the reverts the window holds what is left of it, the newest blocks of the older chain. */
  lemma {:induction false} RevertedWindow(c: Cache, history: seq<Descriptor>, bs: seq<Descriptor>)
    requires CacheInv(c) && c.blocks == Newest(history, VALIDITY_WINDOW) && PushAll(c, bs).Ok?
    ensures RevertAll(PushAll(c, bs).value, bs).Ok? && CacheInv(RevertAll(PushAll(c, bs).value, bs).value)
    ensures var kept := RevertAll(PushAll(c, bs).value, bs).value.blocks;
            |kept| <= |history| && kept == history[|history| - |kept|..]
  {
    WindowIsNewest(c, history, bs);
    var all := history + bs;
    var m := if |all| <= VALIDITY_WINDOW then 0 else |all| - VALIDITY_WINDOW;
    RevertAllIs(PushAll(c, bs).value, history, bs, m);
  }

  lemma {:induction false} PushAllJoin(c: Cache, a: seq<Descriptor>, b: seq<Descriptor>)
    requires PushAll(c, a).Ok?
    ensures PushAll(c, a + b) == PushAll(PushAll(c, a).value, b)
    decreases |a|
  {
    if a == [] {
      assert a + b == b;
    } else {
      assert (a + b)[1..] == a[1..] + b;
      PushAllJoin(Pushed(c, a[0]).value, a[1..], b);
    }
  }

  // ---------- rebranching ----------

  /** What taking back a block does to the accounts: it restores them, is refused, or leaves others. */
  datatype Undo = Restored | Refused | Differs

  /** How the accounts take blocks back and accept them. */
  datatype Accounting = Accounting(undo: Descriptor -> Undo, accepts: Descriptor -> bool)

  /**
   * A fork from the main chain. The store holds the blocks `history + left` of the main chain; the
   * last block of `history` is the common ancestor, of number `height`, and `final` is the number of
   * the last macro block.
   */
  datatype Fork = Fork(
    history: seq<Descriptor>,
    left: seq<Descriptor>,
    blocks: seq<Descriptor>,
    height: nat,
    final: nat)

  datatype Verdict = Adopted(cache: Cache) | InvalidFork | AccountsFailed

  /** Takes back blocks of the main chain, the last one first. */
  function Withdrawn(c: Cache, left: seq<Descriptor>, undo: Descriptor -> Undo): Outcome<Verdict>
    decreases |left|
  {
    if left == [] then Ok(Adopted(c))
    else
      var last := left[|left| - 1];
      if undo(last).Refused? then Ok(AccountsFailed)
      else
        var c' :- Reverted(c, last);
        if undo(last).Differs? then Panic else Withdrawn(c', left[..|left| - 1], undo)
  }

  function MissingBlocks(c: Cache): nat
    requires |c.blocks| <= VALIDITY_WINDOW
  {
    VALIDITY_WINDOW - |c.blocks|
  }

  /** How many blocks the window may miss below a block of this number. */
  function ExpectedMissing(height: nat): nat {
    if height + 1 <= VALIDITY_WINDOW then VALIDITY_WINDOW - (height + 1) else 0
  }

  /** The cache is empty or ends with the common ancestor, whose successor is known. */
  predicate AtAncestor(c: Cache, f: Fork) {
    if c.blocks == [] then f.left != [] else f.history != [] && Last(c.blocks).hash == Last(f.history).hash
  }

  function Last(bs: seq<Descriptor>): Descriptor
    requires bs != []
  {
    bs[|bs| - 1]
  }

  /** Fills the window up from the store. */
  function Filled(c: Cache, f: Fork): Outcome<Cache> {
    if !AtAncestor(c, f) || |c.blocks| > |f.history| || |c.blocks| > VALIDITY_WINDOW then Panic
    else
      var c' :- PrependAll(c, Missing(c, f.history));
      if |c'.blocks| <= VALIDITY_WINDOW && MissingBlocks(c') == ExpectedMissing(f.height) then Ok(c') else Panic
  }

  predicate ContainsAny(c: Cache, txs: seq<Hash>) {
    exists i :: 0 <= i < |txs| && txs[i] in c.hashes
  }

  /** Adopts the blocks of the fork, unless one repeats a transaction or is not accepted. */
  function Followed(c: Cache, blocks: seq<Descriptor>, accepts: Descriptor -> bool): Outcome<Verdict>
    decreases |blocks|
  {
    if blocks == [] then Ok(Adopted(c))
    else if ContainsAny(c, blocks[0].transactions) || !accepts(blocks[0]) then Ok(InvalidFork)
    else
      var c' :- Pushed(c, blocks[0]);
      Followed(c', blocks[1..], accepts)
  }

  function Rebranched(c: Cache, f: Fork, acc: Accounting): Outcome<Verdict> {
    if f.height < f.final then Ok(InvalidFork)
    else
      var withdrawn :- Withdrawn(c, f.left, acc.undo);
      if !withdrawn.Adopted? then Ok(withdrawn)
      else
        var filled :- Filled(withdrawn.cache, f);
        Followed(filled, f.blocks, acc.accepts)
  }

  /** What the accounts say to taking the blocks back, the last one first. */
  function FirstFault(left: seq<Descriptor>, undo: Descriptor -> Undo): Undo
    decreases |left|
  {
    if left == [] then Restored
    else if !undo(Last(left)).Restored? then undo(Last(left))
    else FirstFault(left[..|left| - 1], undo)
  }

  lemma {:induction false} WithdrawnIs(c: Cache, left: seq<Descriptor>, undo: Descriptor -> Undo)
    requires RevertAll(c, left).Ok?
    ensures Withdrawn(c, left, undo) ==
            match FirstFault(left, undo)
            case Restored => Ok(Adopted(RevertAll(c, left).value))
            case Refused => Ok(AccountsFailed)
            case Differs => Panic
    decreases |left|
  {
    if left != [] {
      WithdrawnIs(Reverted(c, Last(left)).value, left[..|left| - 1], undo);
    }
  }

  /** The stored blocks reach down to the first one, or fill the window. */
  predicate Complete(history: seq<Descriptor>, height: nat) {
    |history| == height + 1 || (|history| >= VALIDITY_WINDOW && height + 1 >= VALIDITY_WINDOW)
  }

  lemma {:induction false} PartIsAtAncestor(c: Cache, f: Fork, m: nat)
    requires c.blocks == From(f.history, m) && f.history != [] && (m >= |f.history| ==> f.left != [])
    ensures AtAncestor(c, f) && |c.blocks| <= |f.history| && c.blocks == f.history[|f.history| - |c.blocks|..]
  {
  }

  /** The window is filled up from any part of it. */
  lemma {:induction false} PartIsFilled(c: Cache, history: seq<Descriptor>, full: Cache)
    requires CacheInv(c) && |c.blocks| <= |history| && c.blocks == history[|history| - |c.blocks|..]
    requires CacheInv(full) && full.blocks == Newest(history, VALIDITY_WINDOW)
    ensures PrependAll(c, Missing(c, history)) == Ok(full)
  {
    NewestParts(history, |c.blocks|, VALIDITY_WINDOW);
    PrependAllIs(c, Missing(c, history), full);
  }

  lemma {:induction false} ChainIsNewest(history: seq<Descriptor>, full: Cache)
    requires PushAll(EMPTY, history) == Ok(full)
    ensures CacheInv(full) && full.blocks == Newest(history, VALIDITY_WINDOW)
  {
    assert [] + history == history;
    WindowIsNewest(EMPTY, [], history);
  }

  /** The assertion on the size of the window holds exactly if the store is complete. */
  lemma {:induction false} FilledIs(c: Cache, f: Fork, m: nat)
    requires CacheInv(c) && c.blocks == From(f.history, m) && f.history != [] && (m >= |f.history| ==> f.left != [])
    requires PushAll(EMPTY, f.history).Ok?
    ensures Filled(c, f) == if Complete(f.history, f.height) then PushAll(EMPTY, f.history) else Panic
  {
    PartIsAtAncestor(c, f, m);
    var full := PushAll(EMPTY, f.history).value;
    ChainIsNewest(f.history, full);
    PartIsFilled(c, f.history, full);
  }

  /**
   * The outcome of a rebranch. A cache that holds any last part of the main chain becomes the one
   * that pushing the stored chain gives, and then follows the fork; it panics if the accounts are
   * not restored, if an empty cache has no block to start from, or if the store is not complete down
   * to the first block or for the whole window.
   */
  lemma {:induction false} RebranchIs(c: Cache, f: Fork, acc: Accounting, m: nat)
    requires CacheInv(c) && c.blocks == From(f.history + f.left, m) && f.history != []
    requires PushAll(EMPTY, f.history + f.left).Ok?
    ensures PushAll(EMPTY, f.history).Ok?
    ensures Rebranched(c, f, acc) ==
            if f.height < f.final then Ok(InvalidFork)
            else match FirstFault(f.left, acc.undo)
                 case Refused => Ok(AccountsFailed)
                 case Differs => Panic
                 case Restored =>
                   if (f.left == [] && c.blocks == []) || !Complete(f.history, f.height) then Panic
                   else Followed(PushAll(EMPTY, f.history).value, f.blocks, acc.accepts)
  {
    PushAllSplit(EMPTY, f.history, f.left);
    RevertAllIs(c, f.history, f.left, m);
    WithdrawnIs(c, f.left, acc.undo);
    if f.left != [] || c.blocks != [] {
      assert f.left == [] ==> f.history + f.left == f.history;
      FilledIs(RevertAll(c, f.left).value, f, m);
    }
  }

  lemma {:induction false} ContainsAnyIs(c: Cache, txs: seq<Hash>)
    ensures ContainsAny(c, txs) <==> !(HashesOf(txs) !! c.hashes)
  {
    if !(HashesOf(txs) !! c.hashes) {
      var h :| h in HashesOf(txs) && h in c.hashes;
      var i :| 0 <= i < |txs| && txs[i] == h;
    }
    if ContainsAny(c, txs) {
      var i :| 0 <= i < |txs| && txs[i] in c.hashes;
      assert txs[i] in HashesOf(txs);
    }
  }

  /** A block repeats nothing in itself. */
  ghost predicate OwnDistinct(b: Descriptor) {
    NoRepeats(b.transactions)
  }

  /** Every block follows the one before, and repeats nothing in itself. */
  ghost predicate WellFormed(c: Cache, blocks: seq<Descriptor>) {
    Linked(c.blocks + blocks) && forall b :: b in blocks ==> OwnDistinct(b)
  }

  /**
   * A well-formed fork is adopted exactly if all its blocks are accepted and can be pushed, and then
   * leaves what pushing them leaves; otherwise it is invalid, never a panic.
   */
  lemma {:induction false} FollowedIs(c: Cache, blocks: seq<Descriptor>, accepts: Descriptor -> bool)
    requires CacheInv(c) && WellFormed(c, blocks)
    ensures Followed(c, blocks, accepts) ==
            if PushAll(c, blocks).Ok? && (forall i :: 0 <= i < |blocks| ==> accepts(blocks[i])) then
              Ok(Adopted(PushAll(c, blocks).value))
            else Ok(InvalidFork)
    decreases |blocks|
  {
    if blocks != [] {
      var b := blocks[0];
      assert OwnDistinct(b);
      ContainsAnyIs(c, b.transactions);
      InsertAllIs(c.hashes, b.transactions);
      assert c.blocks + blocks == (c.blocks + [b]) + blocks[1..];
      if c.blocks != [] {
        assert (c.blocks + blocks)[|c.blocks|].prevHash == (c.blocks + blocks)[|c.blocks| - 1].hash;
      }
      if !ContainsAny(c, b.transactions) {
        NextWellFormed(c, blocks);
        FollowedIs(Pushed(c, b).value, blocks[1..], accepts);
        assert forall i :: 0 < i < |blocks| ==> blocks[i] == blocks[1..][i - 1];
      }
    }
  }

  lemma {:induction false} NextWellFormed(c: Cache, blocks: seq<Descriptor>)
    requires CacheInv(c) && blocks != [] && WellFormed(c, blocks) && Pushed(c, blocks[0]).Ok?
    ensures CacheInv(Pushed(c, blocks[0]).value) && WellFormed(Pushed(c, blocks[0]).value, blocks[1..])
  {
    PushKeepsInv(c, blocks[0]);
    PushedBlocks(c, blocks[0]);
    var all := c.blocks + [blocks[0]];
    assert c.blocks + blocks == all + blocks[1..];
    NewestLinked(all, blocks[1..], VALIDITY_WINDOW);
  }

  /**
   * A rebranch onto a well-formed fork from a complete store leaves the cache that pushing the new
   * chain from the start gives, or finds the fork invalid where that is not possible.
   */
  lemma {:induction false} RebranchIsReplay(c: Cache, f: Fork, acc: Accounting, m: nat)
    requires CacheInv(c) && c.blocks == From(f.history + f.left, m) && f.history != [] &&
             (f.left != [] || c.blocks != [])
    requires PushAll(EMPTY, f.history + f.left).Ok? && WellFormed(EMPTY, f.history + f.blocks)
    requires f.height >= f.final && Complete(f.history, f.height) && FirstFault(f.left, acc.undo).Restored?
    ensures Rebranched(c, f, acc) ==
            if PushAll(EMPTY, f.history + f.blocks).Ok? &&
               (forall i :: 0 <= i < |f.blocks| ==> acc.accepts(f.blocks[i]))
            then Ok(Adopted(PushAll(EMPTY, f.history + f.blocks).value))
            else Ok(InvalidFork)
  {
    RebranchIs(c, f, acc, m);
    PushAllSplit(EMPTY, f.history, f.left);
    PushAllJoin(EMPTY, f.history, f.blocks);
    var full := PushAll(EMPTY, f.history).value;
    ChainIsNewest(f.history, full);
    ForkWellFormed(full, f);
    FollowedIs(full, f.blocks, acc.accepts);
  }

  lemma {:induction false} NewestLinked(history: seq<Descriptor>, blocks: seq<Descriptor>, n: nat)
    requires Linked(history + blocks)
    ensures Linked(Newest(history, n) + blocks)
  {
    var kept := Newest(history, n);
    var cut := |history| - |kept|;
    assert history + blocks == history[..cut] + (kept + blocks);
    LinkedParts(history[..cut], kept + blocks);
  }

  lemma {:induction false} ForkWellFormed(full: Cache, f: Fork)
    requires WellFormed(EMPTY, f.history + f.blocks) && full.blocks == Newest(f.history, VALIDITY_WINDOW)
    ensures WellFormed(full, f.blocks)
  {
    var all := f.history + f.blocks;
    assert EMPTY.blocks + all == all;
    NewestLinked(f.history, f.blocks, VALIDITY_WINDOW);
    assert forall b :: b in f.blocks ==> b in all;
  }

  // ---------- stores that are not complete ----------

  /** A store that starts at block `start` is complete exactly if that is the first one or the window is full. */
  lemma {:induction false} CompleteIff(history: seq<Descriptor>, height: nat, start: nat)
    requires |history| > 0 && height + 1 == start + |history|
    ensures Complete(history, height) <==> start == 0 || |history| >= VALIDITY_WINDOW
  {
  }

  ghost predicate Distinct(bs: seq<Descriptor>) {
    Linked(bs) && NoRepeats(Listed(bs))
  }

  lemma {:induction false} ChainTail(a: seq<Descriptor>, b: seq<Descriptor>)
    requires Distinct(a + b)
    ensures Distinct(b) && Distinct(a)
  {
    LinkedParts(a, b);
    ListedSplit(a, b);
    RepeatsJoin(Listed(a), Listed(b));
  }

  lemma {:induction false} PushFits(c: Cache, b: Descriptor)
    requires CacheInv(c) && Distinct(c.blocks + [b])
    ensures Pushed(c, b).Ok?
  {
    LastBlock(c.blocks, b);
    RepeatsJoin(Listed(c.blocks), b.transactions);
    InsertAllIs(c.hashes, b.transactions);
    LinkedParts(c.blocks, [b]);
  }

  lemma {:induction false} PushAllFits(c: Cache, bs: seq<Descriptor>)
    requires CacheInv(c) && Distinct(c.blocks + bs)
    ensures PushAll(c, bs).Ok?
    decreases |bs|
  {
    if bs != [] {
      var all := c.blocks + [bs[0]];
      assert c.blocks + bs == all + bs[1..];
      ChainTail(all, bs[1..]);
      PushFits(c, bs[0]);
      PushKeepsInv(c, bs[0]);
      PushedBlocks(c, bs[0]);
      var kept := Newest(all, VALIDITY_WINDOW);
      var cut := |all| - |kept|;
      assert c.blocks + bs == all[..cut] + (kept + bs[1..]);
      ChainTail(all[..cut], kept + bs[1..]);
      PushAllFits(Pushed(c, bs[0]).value, bs[1..]);
    }
  }

  lemma {:induction false} PushesAccepted(bs: seq<Descriptor>)
    requires Distinct(bs) && |bs| <= VALIDITY_WINDOW
    ensures PushAll(EMPTY, bs).Ok? && CacheInv(PushAll(EMPTY, bs).value) && PushAll(EMPTY, bs).value.blocks == bs
  {
    assert EMPTY.blocks + bs == bs;
    PushAllFits(EMPTY, bs);
    assert [] + bs == bs;
    WindowIsNewest(EMPTY, [], bs);
  }

  /**
   * After history sync the store holds macro blocks only. Once it has reached macro block 128, pushing
   * blocks 129 and 130 and rebranching from 129 fails the assertion on the size of the window, as
   * every fork does that the accounts do not stop before.
   */
  lemma {:induction false} SyncedStorePanics(macroBlock: Descriptor, ancestor: Descriptor, next: Descriptor,
                                             fork: seq<Descriptor>, acc: Accounting)
    requires Distinct([macroBlock, ancestor, next])
    requires acc.undo(next).Restored?
    ensures PushAll(EMPTY, [ancestor, next]).Ok?
    ensures Rebranched(PushAll(EMPTY, [ancestor, next]).value, Fork([macroBlock, ancestor], [next], fork, 129, 128),
                       acc) ==
            Panic
  {
    var f := Fork([macroBlock, ancestor], [next], fork, 129, 128);
    assert f.history + f.left == [macroBlock, ancestor, next];
    PushesAccepted([macroBlock, ancestor, next]);
    assert [macroBlock] + [ancestor, next] == [macroBlock, ancestor, next];
    ChainTail([macroBlock], [ancestor, next]);
    PushesAccepted([ancestor, next]);
    assert [ancestor, next] == From(f.history + f.left, 1);
    assert f.left[..0] == [];
    RebranchIs(PushAll(EMPTY, [ancestor, next]).value, f, acc, 1);
  }

  // ---------- the loops ----------

  method Withdraw(cache: TransactionCache, left: seq<Descriptor>, undo: Descriptor -> Undo)
    returns (r: Outcome<Verdict>)
    modifies cache
    ensures r == Withdrawn(old(cache.Content()), left, undo)
    ensures r.Ok? && r.value.Adopted? ==> r.value.cache == cache.Content()
  {
    var i := |left|;
    assert left[..i] == left;
    while i > 0
      invariant 0 <= i <= |left|
      invariant Withdrawn(old(cache.Content()), left, undo) == Withdrawn(cache.Content(), left[..i], undo)
    {
      assert left[..i][..i - 1] == left[..i - 1];
      i := i - 1;
      if undo(left[i]).Refused? {
        return Ok(AccountsFailed);
      }
      var ok := cache.RevertBlock(left[i]);
      if !ok || undo(left[i]).Differs? {
        return Panic;
      }
    }
    r := Ok(Adopted(Cache(cache.transactionHashes, cache.blockOrder)));
  }

  method FillUp(cache: TransactionCache, f: Fork) returns (ok: bool)
    modifies cache
    ensures ok <==> Filled(old(cache.Content()), f).Ok?
    ensures ok ==> Filled(old(cache.Content()), f) == Ok(cache.Content())
  {
    var c := Cache(cache.transactionHashes, cache.blockOrder);
    if !AtAncestor(c, f) || |c.blocks| > |f.history| || |c.blocks| > VALIDITY_WINDOW {
      return false;
    }
    var missing := Missing(c, f.history);
    var i := |missing|;
    assert missing[..i] == missing;
    while i > 0
      invariant 0 <= i <= |missing|
      invariant PrependAll(c, missing) == PrependAll(cache.Content(), missing[..i])
    {
      assert missing[..i][..i - 1] == missing[..i - 1];
      i := i - 1;
      ok := cache.PrependBlock(missing[i]);
      if !ok {
        return;
      }
    }
    ok := |cache.blockOrder| <= VALIDITY_WINDOW && VALIDITY_WINDOW - |cache.blockOrder| == ExpectedMissing(f.height);
  }

  method Follow(cache: TransactionCache, blocks: seq<Descriptor>, accepts: Descriptor -> bool)
    returns (r: Outcome<Verdict>)
    requires CacheInv(cache.Content())
    modifies cache
    ensures r == Followed(old(cache.Content()), blocks, accepts)
    ensures r.Ok? && r.value.Adopted? ==> r.value.cache == cache.Content()
  {
    assert blocks[0..] == blocks;
    for i := 0 to |blocks|
      invariant CacheInv(cache.Content())
      invariant Followed(old(cache.Content()), blocks, accepts) == Followed(cache.Content(), blocks[i..], accepts)
    {
      assert blocks[i..][1..] == blocks[i + 1..];
      var known := cache.ContainsAny(blocks[i].transactions);
      KnownIs(cache.Content(), blocks[i].transactions);
      if known || !accepts(blocks[i]) {
        return Ok(InvalidFork);
      }
      ghost var before := cache.Content();
      var ok := cache.PushBlock(blocks[i]);
      if !ok {
        return Panic;
      }
      PushKeepsInv(before, blocks[i]);
    }
    r := Ok(Adopted(Cache(cache.transactionHashes, cache.blockOrder)));
  }

  lemma {:induction false} KnownIs(c: Cache, txs: seq<Hash>)
    requires CacheInv(c)
    ensures ContainsAny(c, txs) <==> exists h :: h in txs && h in Listed(c.blocks)
  {
    if h :| h in txs && h in Listed(c.blocks) {
      var i :| 0 <= i < |txs| && txs[i] == h;
      assert txs[i] in c.hashes;
    }
  }

  /** Works on a copy of the cache, which is kept only if the fork is adopted. */
  method Rebranch(cache: TransactionCache, f: Fork, acc: Accounting) returns (r: Outcome<Verdict>)
    requires CacheInv(cache.Content())
    modifies cache
    ensures r == Rebranched(old(cache.Content()), f, acc)
    ensures r.Ok? && r.value.Adopted? ==> r.value.cache == cache.Content() && CacheInv(cache.Content())
  {
    if f.height < f.final {
      return Ok(InvalidFork);
    }
    ghost var c := cache.Content();
    r := Withdraw(cache, f.left, acc.undo);
    if r.Panic? || !r.value.Adopted? {
      return;
    }
    WithdrawnKeepsInv(c, f.left, acc.undo);
    ghost var d := cache.Content();
    var ok := FillUp(cache, f);
    if !ok {
      return Panic;
    }
    PrependAllKeepsInv(d, Missing(d, f.history));
    ghost var e := cache.Content();
    r := Follow(cache, f.blocks, acc.accepts);
    FollowedKeepsInv(e, f.blocks, acc.accepts);
  }

  lemma {:induction false} WithdrawnKeepsInv(c: Cache, left: seq<Descriptor>, undo: Descriptor -> Undo)
    requires CacheInv(c)
    ensures var r := Withdrawn(c, left, undo); r.Ok? && r.value.Adopted? ==> CacheInv(r.value.cache)
    decreases |left|
  {
    if left != [] && Reverted(c, Last(left)).Ok? {
      RevertKeepsInv(c, Last(left));
      WithdrawnKeepsInv(Reverted(c, Last(left)).value, left[..|left| - 1], undo);
    }
  }

  lemma {:induction false} PrependAllKeepsInv(c: Cache, bs: seq<Descriptor>)
    requires CacheInv(c)
    ensures PrependAll(c, bs).Ok? ==> CacheInv(PrependAll(c, bs).value)
    decreases |bs|
  {
    if bs != [] && Prepended(c, Last(bs)).Ok? {
      PrependKeepsInv(c, Last(bs));
      PrependAllKeepsInv(Prepended(c, Last(bs)).value, bs[..|bs| - 1]);
    }
  }

  lemma {:induction false} FollowedKeepsInv(c: Cache, blocks: seq<Descriptor>, accepts: Descriptor -> bool)
    requires CacheInv(c)
    ensures var r := Followed(c, blocks, accepts); r.Ok? && r.value.Adopted? ==> CacheInv(r.value.cache)
    decreases |blocks|
  {
    if blocks != [] && Pushed(c, blocks[0]).Ok? {
      PushKeepsInv(c, blocks[0]);
      FollowedKeepsInv(Pushed(c, blocks[0]).value, blocks[1..], accepts);
    }
  }
}
