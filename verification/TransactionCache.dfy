/** The cache of transactions in the validity window (blockchain-albatross/src/transaction_cache.rs). */
module TransactionCaches {
  import opened Prelude

  const VALIDITY_WINDOW: nat := 7200

  type Hash = nat

  /** A block as the cache sees it. */
  datatype Descriptor = Descriptor(hash: Hash, prevHash: Hash, transactions: seq<Hash>)

  datatype Cache = Cache(hashes: set<Hash>, blocks: seq<Descriptor>)

  /** Inserts the hashes one by one; a hash that is already there is a panic. */
  function InsertAll(hashes: set<Hash>, txs: seq<Hash>): Outcome<set<Hash>>
    decreases |txs|
  {
    if txs == [] then Ok(hashes)
    else if txs[0] in hashes then Panic
    else InsertAll(hashes + {txs[0]}, txs[1..])
  }

  ghost function HashesOf(txs: seq<Hash>): set<Hash> {
    set h | h in txs
  }

  ghost predicate NoRepeats(txs: seq<Hash>) {
    forall i, j :: 0 <= i < j < |txs| ==> txs[i] != txs[j]
  }

  /** Insertion succeeds exactly for distinct, new hashes, and then adds them all. */
  lemma {:induction false} InsertAllIs(hashes: set<Hash>, txs: seq<Hash>)
    ensures InsertAll(hashes, txs).Ok? <==> NoRepeats(txs) && HashesOf(txs) !! hashes
    ensures InsertAll(hashes, txs).Ok? ==> InsertAll(hashes, txs).value == hashes + HashesOf(txs)
    decreases |txs|
  {
    if txs != [] {
      var rest := txs[1..];
      InsertAllIs(hashes + {txs[0]}, rest);
      assert HashesOf(txs) == {txs[0]} + HashesOf(rest) by {
        assert txs == [txs[0]] + rest;
      }
      RepeatsSplit(txs);
    }
  }

  lemma {:induction false} RepeatsSplit(txs: seq<Hash>)
    requires txs != []
    ensures NoRepeats(txs) <==> txs[0] !in HashesOf(txs[1..]) && NoRepeats(txs[1..])
  {
    if NoRepeats(txs) {
      forall i, j | 0 <= i < j < |txs| - 1
        ensures txs[1..][i] != txs[1..][j]
      {
        assert txs[i + 1] != txs[j + 1];
      }
    } else {
      var i, j :| 0 <= i < j < |txs| && txs[i] == txs[j];
      assert txs[j] == txs[1..][j - 1];
      assert i > 0 ==> txs[i] == txs[1..][i - 1];
    }
  }

  /** The hashes of all transactions of some blocks, in order. */
  function Listed(blocks: seq<Descriptor>): seq<Hash> {
    if blocks == [] then [] else blocks[0].transactions + Listed(blocks[1..])
  }

  ghost predicate Linked(blocks: seq<Descriptor>) {
    forall i :: 0 < i < |blocks| ==> blocks[i].prevHash == blocks[i - 1].hash
  }

  /**
   * The hash set is the disjoint union of the transactions of the window's blocks, and the window
   * is a chain no longer than the validity window.
   */
  ghost predicate CacheInv(c: Cache) {
    && c.hashes == HashesOf(Listed(c.blocks)) && NoRepeats(Listed(c.blocks))
    && Linked(c.blocks) && |c.blocks| <= VALIDITY_WINDOW
  }

  function Shifted(c: Cache): Cache {
    if c.blocks == [] then c else Cache(c.hashes - (set h | h in c.blocks[0].transactions), c.blocks[1..])
  }

  function Pushed(c: Cache, b: Descriptor): Outcome<Cache> {
    if c.blocks != [] && b.prevHash != c.blocks[|c.blocks| - 1].hash then Panic
    else
      var hashes :- InsertAll(c.hashes, b.transactions);
      var c' := Cache(hashes, c.blocks + [b]);
      Ok(if |c'.blocks| > VALIDITY_WINDOW then Shifted(c') else c')
  }

  function Reverted(c: Cache, b: Descriptor): Outcome<Cache> {
    if c.blocks == [] then Ok(c)
    else
      var last := c.blocks[|c.blocks| - 1];
      if last.hash != b.hash then Panic
      else Ok(Cache(c.hashes - (set h | h in last.transactions), c.blocks[..|c.blocks| - 1]))
  }

  function Prepended(c: Cache, b: Descriptor): Outcome<Cache> {
    if c.blocks != [] && b.hash != c.blocks[0].prevHash then Panic
    else if |c.blocks| >= VALIDITY_WINDOW then Panic
    else
      var hashes :- InsertAll(c.hashes, b.transactions);
      Ok(Cache(hashes, [b] + c.blocks))
  }

  lemma {:induction false} ListedSplit(a: seq<Descriptor>, b: seq<Descriptor>)
    ensures Listed(a + b) == Listed(a) + Listed(b)
  {
    if a == [] {
      assert a + b == b;
    } else {
      ListedSplit(a[1..], b);
      assert (a + b)[1..] == a[1..] + b;
      Associative(a[0].transactions, Listed(a[1..]), Listed(b));
    }
  }

  lemma {:induction false} ListedOne(b: Descriptor)
    ensures Listed([b]) == b.transactions
  {
    assert [b][1..] == [];
  }

  lemma {:induction false} Associative(r: seq<Hash>, s: seq<Hash>, t: seq<Hash>)
    ensures r + (s + t) == r + s + t
  {
  }

  lemma {:induction false} RepeatsParts(s: seq<Hash>, t: seq<Hash>)
    requires NoRepeats(s + t)
    ensures NoRepeats(s) && NoRepeats(t) && HashesOf(s) !! HashesOf(t)
  {
    var st := s + t;
    assert forall i :: 0 <= i < |s| ==> st[i] == s[i];
    assert forall i :: 0 <= i < |t| ==> st[|s| + i] == t[i];
    forall i, j | 0 <= i < j < |t|
      ensures t[i] != t[j]
    {
      assert st[|s| + i] != st[|s| + j];
    }
    forall i, j | 0 <= i < |s| && 0 <= j < |t|
      ensures s[i] != t[j]
    {
      assert st[i] != st[|s| + j];
    }
  }

  lemma {:induction false} RepeatsTogether(s: seq<Hash>, t: seq<Hash>)
    requires NoRepeats(s) && NoRepeats(t) && HashesOf(s) !! HashesOf(t)
    ensures NoRepeats(s + t)
  {
    assert forall i :: 0 <= i < |s| ==> s[i] in HashesOf(s);
    assert forall i :: 0 <= i < |t| ==> t[i] in HashesOf(t);
  }

  /** Two lists joined repeat nothing exactly if neither does and they share nothing. */
  lemma {:induction false} RepeatsJoin(s: seq<Hash>, t: seq<Hash>)
    ensures NoRepeats(s + t) <==> NoRepeats(s) && NoRepeats(t) && HashesOf(s) !! HashesOf(t)
    ensures HashesOf(s + t) == HashesOf(s) + HashesOf(t)
  {
    if NoRepeats(s + t) {
      RepeatsParts(s, t);
    }
    if NoRepeats(s) && NoRepeats(t) && HashesOf(s) !! HashesOf(t) {
      RepeatsTogether(s, t);
    }
  }

  ghost predicate Holds(hashes: set<Hash>, listed: seq<Hash>) {
    hashes == HashesOf(listed) && NoRepeats(listed)
  }

  lemma {:induction false} HoldsAppended(hashes: set<Hash>, listed: seq<Hash>, txs: seq<Hash>)
    requires Holds(hashes, listed) && InsertAll(hashes, txs).Ok?
    ensures Holds(InsertAll(hashes, txs).value, listed + txs) && Holds(InsertAll(hashes, txs).value, txs + listed)
  {
    InsertAllIs(hashes, txs);
    RepeatsJoin(listed, txs);
    RepeatsJoin(txs, listed);
  }

  lemma {:induction false} HoldsRemoved(hashes: set<Hash>, s: seq<Hash>, t: seq<Hash>)
    requires Holds(hashes, s + t)
    ensures Holds(hashes - HashesOf(s), t) && Holds(hashes - HashesOf(t), s)
  {
    RepeatsJoin(s, t);
  }

  lemma {:induction false} FirstBlock(blocks: seq<Descriptor>)
    requires blocks != []
    ensures Listed(blocks) == blocks[0].transactions + Listed(blocks[1..])
  {
  }

  lemma {:induction false} LastBlock(blocks: seq<Descriptor>, b: Descriptor)
    ensures Listed(blocks + [b]) == Listed(blocks) + b.transactions
  {
    ListedSplit(blocks, [b]);
    ListedOne(b);
  }

  lemma {:induction false} LinkedParts(a: seq<Descriptor>, b: seq<Descriptor>)
    ensures Linked(a + b) <==> Linked(a) && Linked(b) && (a != [] && b != [] ==> b[0].prevHash == a[|a| - 1].hash)
  {
    var ab := a + b;
    assert forall i :: 0 <= i < |a| ==> ab[i] == a[i];
    assert forall i :: 0 <= i < |b| ==> ab[|a| + i] == b[i];
    if Linked(ab) {
      forall i | 0 < i < |b|
        ensures b[i].prevHash == b[i - 1].hash
      {
        assert ab[|a| + i].prevHash == ab[|a| + i - 1].hash;
      }
      if a != [] && b != [] {
        assert ab[|a|].prevHash == ab[|a| - 1].hash;
      }
    }
  }

  /** The invariant but for the length. */
  ghost predicate Chain(c: Cache) {
    Holds(c.hashes, Listed(c.blocks)) && Linked(c.blocks)
  }

  lemma {:induction false} ShiftKeepsChain(c: Cache)
    requires Chain(c) && c.blocks != []
    ensures Chain(Shifted(c))
  {
    FirstBlock(c.blocks);
    HoldsRemoved(c.hashes, c.blocks[0].transactions, Listed(c.blocks[1..]));
    LinkedParts(c.blocks[..1], c.blocks[1..]);
    assert c.blocks == c.blocks[..1] + c.blocks[1..];
  }

  lemma {:induction false} AppendKeepsChain(c: Cache, b: Descriptor, hashes: set<Hash>)
    requires Chain(c) && (c.blocks != [] ==> b.prevHash == c.blocks[|c.blocks| - 1].hash) &&
             InsertAll(c.hashes, b.transactions) == Ok(hashes)
    ensures Chain(Cache(hashes, c.blocks + [b]))
  {
    LastBlock(c.blocks, b);
    HoldsAppended(c.hashes, Listed(c.blocks), b.transactions);
    LinkedParts(c.blocks, [b]);
  }

  lemma {:induction false} PushKeepsInv(c: Cache, b: Descriptor)
    requires CacheInv(c) && Pushed(c, b).Ok?
    ensures CacheInv(Pushed(c, b).value)
  {
    var hashes := InsertAll(c.hashes, b.transactions).value;
    AppendKeepsChain(c, b, hashes);
    var c' := Cache(hashes, c.blocks + [b]);
    if |c'.blocks| > VALIDITY_WINDOW {
      ShiftKeepsChain(c');
    }
  }

  lemma {:induction false} RevertKeepsInv(c: Cache, b: Descriptor)
    requires CacheInv(c) && Reverted(c, b).Ok?
    ensures CacheInv(Reverted(c, b).value)
  {
    if c.blocks != [] {
      var n := |c.blocks| - 1;
      var first, last := c.blocks[..n], c.blocks[n];
      assert c.blocks == first + [last];
      LastBlock(first, last);
      HoldsRemoved(c.hashes, Listed(first), last.transactions);
      LinkedParts(first, [last]);
    }
  }

  lemma {:induction false} PrependKeepsInv(c: Cache, b: Descriptor)
    requires CacheInv(c) && Prepended(c, b).Ok?
    ensures CacheInv(Prepended(c, b).value)
  {
    var blocks := [b] + c.blocks;
    FirstBlock(blocks);
    assert blocks[1..] == c.blocks;
    HoldsAppended(c.hashes, Listed(c.blocks), b.transactions);
    LinkedParts([b], c.blocks);
  }

  /** A block is accepted exactly if it extends the chain with transactions the window does not hold. */
  lemma {:induction false} PushSucceedsIff(c: Cache, b: Descriptor)
    requires CacheInv(c)
    ensures Pushed(c, b).Ok? <==>
            && (c.blocks == [] || b.prevHash == c.blocks[|c.blocks| - 1].hash)
            && NoRepeats(b.transactions) && (forall h :: h in b.transactions ==> h !in Listed(c.blocks))
  {
    InsertAllIs(c.hashes, b.transactions);
    if forall h :: h in b.transactions ==> h !in Listed(c.blocks) {
      assert forall h :: h in HashesOf(b.transactions) ==> h !in c.hashes;
    } else {
      var h :| h in b.transactions && h in Listed(c.blocks);
      assert h in HashesOf(b.transactions) && h in c.hashes;
    }
  }

  /** A push and its reversal restore the cache, once a block that was shifted out is put back. */
  lemma {:induction false} RevertUndoesPush(c: Cache, b: Descriptor)
    requires CacheInv(c) && Pushed(c, b).Ok?
    ensures Reverted(Pushed(c, b).value, b).Ok?
    ensures |c.blocks| < VALIDITY_WINDOW ==> Reverted(Pushed(c, b).value, b) == Ok(c)
    ensures |c.blocks| == VALIDITY_WINDOW ==> Prepended(Reverted(Pushed(c, b).value, b).value, c.blocks[0]) == Ok(c)
  {
    InsertAllIs(c.hashes, b.transactions);
    var all := Cache(c.hashes + HashesOf(b.transactions), c.blocks + [b]);
    if |c.blocks| < VALIDITY_WINDOW {
      assert all.blocks[..|c.blocks|] == c.blocks;
      assert all.hashes - HashesOf(b.transactions) == c.hashes;
    } else {
      PutBack(c, b);
    }
  }

  lemma {:induction false} PutBack(c: Cache, b: Descriptor)
    requires CacheInv(c) && Pushed(c, b).Ok? && |c.blocks| == VALIDITY_WINDOW
    ensures Reverted(Pushed(c, b).value, b).Ok?
    ensures Prepended(Reverted(Pushed(c, b).value, b).value, c.blocks[0]) == Ok(c)
  {
    var first, rest := c.blocks[0], c.blocks[1..];
    var kept := c.hashes - HashesOf(first.transactions);
    InsertAllIs(c.hashes, b.transactions);
    FirstBlock(c.blocks);
    HoldsRemoved(c.hashes, first.transactions, Listed(rest));
    RepeatsJoin(first.transactions, Listed(rest));
    InsertAllIs(kept, first.transactions);
    Around(c.blocks, b);
    assert c.hashes + HashesOf(b.transactions) - HashesOf(first.transactions) - HashesOf(b.transactions) == kept;
    assert kept + HashesOf(first.transactions) == c.hashes;
    assert rest[0].prevHash == first.hash by {
      assert c.blocks[1].prevHash == c.blocks[0].hash;
    }
    assert Reverted(Pushed(c, b).value, b) == Ok(Cache(kept, rest));
  }

  lemma {:induction false} Around(blocks: seq<Descriptor>, b: Descriptor)
    requires blocks != []
    ensures (blocks + [b])[1..] == blocks[1..] + [b] && (blocks[1..] + [b])[..|blocks| - 1] == blocks[1..]
    ensures [blocks[0]] + blocks[1..] == blocks
  {
  }

  function PushAll(c: Cache, bs: seq<Descriptor>): Outcome<Cache>
    decreases |bs|
  {
    if bs == [] then Ok(c)
    else
      var c' :- Pushed(c, bs[0]);
      PushAll(c', bs[1..])
  }

  /** The last n blocks. */
  function Newest(bs: seq<Descriptor>, n: nat): seq<Descriptor> {
    if |bs| <= n then bs else bs[|bs| - n..]
  }

  lemma {:induction false} NewestAfter(bs: seq<Descriptor>, b: Descriptor, n: nat)
    requires n > 0
    ensures Newest(Newest(bs, n) + [b], n) == Newest(bs + [b], n)
  {
  }

  lemma {:induction false} PushedBlocks(c: Cache, b: Descriptor)
    requires |c.blocks| <= VALIDITY_WINDOW && Pushed(c, b).Ok?
    ensures Pushed(c, b).value.blocks == Newest(c.blocks + [b], VALIDITY_WINDOW)
  {
  }

  /** After any run of accepted blocks the window holds the most recent ones. */
  lemma {:induction false} WindowIsNewest(c: Cache, history: seq<Descriptor>, bs: seq<Descriptor>)
    requires CacheInv(c) && c.blocks == Newest(history, VALIDITY_WINDOW) && PushAll(c, bs).Ok?
    ensures CacheInv(PushAll(c, bs).value) && PushAll(c, bs).value.blocks == Newest(history + bs, VALIDITY_WINDOW)
    decreases |bs|
  {
    if bs == [] {
      assert history + bs == history;
    } else {
      PushKeepsInv(c, bs[0]);
      PushedBlocks(c, bs[0]);
      NewestAfter(history, bs[0], VALIDITY_WINDOW);
      WindowIsNewest(Pushed(c, bs[0]).value, history + [bs[0]], bs[1..]);
      assert history + [bs[0]] + bs[1..] == history + bs;
    }
  }

  /** No transaction is accepted twice within the validity window. */
  lemma {:induction false} NoReplay(bs: seq<Descriptor>, i: nat, j: nat)
    requires PushAll(Cache({}, []), bs).Ok? && i < j < |bs| && j - i <= VALIDITY_WINDOW
    ensures forall h :: h in bs[i].transactions ==> h !in bs[j].transactions
  {
    var before, after := bs[..j], bs[j..];
    assert bs == before + after;
    PushAllSplit(Cache({}, []), before, after);
    WindowIsNewest(Cache({}, []), [], before);
    assert [] + before == before;
    StillListed(PushAll(Cache({}, []), before).value, before, i, bs[j]);
  }

  lemma {:induction false} StillListed(c: Cache, before: seq<Descriptor>, i: nat, b: Descriptor)
    requires CacheInv(c) && c.blocks == Newest(before, VALIDITY_WINDOW) && Pushed(c, b).Ok?
    requires i < |before| <= i + VALIDITY_WINDOW
    ensures forall h :: h in before[i].transactions ==> h !in b.transactions
  {
    var k := i - (|before| - |c.blocks|);
    assert c.blocks[k] == before[i];
    ListedHolds(c.blocks, k);
    PushSucceedsIff(c, b);
  }

  lemma {:induction false} PushAllSplit(c: Cache, a: seq<Descriptor>, b: seq<Descriptor>)
    requires PushAll(c, a + b).Ok?
    ensures PushAll(c, a).Ok? && PushAll(PushAll(c, a).value, b) == PushAll(c, a + b)
    decreases |a|
  {
    if a == [] {
      assert a + b == b;
    } else {
      assert (a + b)[1..] == a[1..] + b;
      PushAllSplit(Pushed(c, a[0]).value, a[1..], b);
    }
  }

  lemma {:induction false} ListedHolds(blocks: seq<Descriptor>, k: nat)
    requires k < |blocks|
    ensures forall h :: h in blocks[k].transactions ==> h in Listed(blocks)
  {
    if k > 0 {
      ListedHolds(blocks[1..], k - 1);
    }
  }

  datatype Step = Push(block: Descriptor) | Revert(block: Descriptor) | Prepend(block: Descriptor)

  function After(c: Cache, step: Step): Outcome<Cache> {
    match step
    case Push(b) => Pushed(c, b)
    case Revert(b) => Reverted(c, b)
    case Prepend(b) => Prepended(c, b)
  }

  function Run(c: Cache, steps: seq<Step>): Outcome<Cache>
    decreases |steps|
  {
    if steps == [] then Ok(c)
    else
      var c' :- After(c, steps[0]);
      Run(c', steps[1..])
  }

  /** Every run that does not panic keeps the hash set the disjoint union of a linked, bounded window. */
  lemma {:induction false} RunsKeepInv(c: Cache, steps: seq<Step>)
    requires CacheInv(c) && Run(c, steps).Ok?
    ensures CacheInv(Run(c, steps).value)
    decreases |steps|
  {
    if steps != [] {
      match steps[0] {
        case Push(b) => PushKeepsInv(c, b);
        case Revert(b) => RevertKeepsInv(c, b);
        case Prepend(b) => PrependKeepsInv(c, b);
      }
      RunsKeepInv(After(c, steps[0]).value, steps[1..]);
    }
  }

  class TransactionCache {
    var transactionHashes: set<Hash>
    var blockOrder: seq<Descriptor>

    ghost function Content(): Cache
      reads this
    {
      Cache(transactionHashes, blockOrder)
    }

    constructor ()
      ensures CacheInv(Content()) && blockOrder == []
    {
      transactionHashes, blockOrder := {}, [];
    }

    method ContainsAny(transactions: seq<Hash>) returns (b: bool)
      requires CacheInv(Content())
      ensures b <==> exists h :: h in transactions && h in Listed(blockOrder)
    {
      for i := 0 to |transactions|
        invariant forall j :: 0 <= j < i ==> transactions[j] !in Listed(blockOrder)
      {
        if transactions[i] in transactionHashes {
          assert transactions[i] in transactions && transactions[i] in Listed(blockOrder);
          return true;
        }
      }
      b := false;
    }

    /** Inserts hashes that must all be new; false where the program would panic. */
    method InsertNew(txs: seq<Hash>) returns (ok: bool)
      modifies this`transactionHashes
      ensures ok <==> InsertAll(old(transactionHashes), txs).Ok?
      ensures ok ==> InsertAll(old(transactionHashes), txs) == Ok(transactionHashes)
    {
      assert txs[0..] == txs;
      for i := 0 to |txs|
        invariant InsertAll(old(transactionHashes), txs) == InsertAll(transactionHashes, txs[i..])
      {
        assert txs[i..][1..] == txs[i + 1..];
        if txs[i] in transactionHashes {
          return false;
        }
        transactionHashes := transactionHashes + {txs[i]};
      }
      ok := true;
    }

    method RemoveAll(txs: seq<Hash>)
      modifies this`transactionHashes
      ensures transactionHashes == old(transactionHashes) - HashesOf(txs)
    {
      for i := 0 to |txs|
        invariant transactionHashes == old(transactionHashes) - HashesOf(txs[..i])
      {
        transactionHashes := transactionHashes - {txs[i]};
        assert HashesOf(txs[..i + 1]) == HashesOf(txs[..i]) + {txs[i]};
      }
      assert txs[..|txs|] == txs;
    }

    method PushBlock(block: Descriptor) returns (ok: bool)
      modifies this
      ensures ok <==> Pushed(old(Content()), block).Ok?
      ensures ok ==> Pushed(old(Content()), block) == Ok(Content())
    {
      if blockOrder != [] && block.prevHash != blockOrder[|blockOrder| - 1].hash {
        return false;
      }
      ok := InsertNew(block.transactions);
      if ok {
        blockOrder := blockOrder + [block];
        if |blockOrder| > VALIDITY_WINDOW {
          ShiftBlock();
        }
      }
    }

    method ShiftBlock()
      modifies this
      ensures Content() == Shifted(old(Content()))
    {
      if blockOrder != [] {
        var first := blockOrder[0];
        blockOrder := blockOrder[1..];
        RemoveAll(first.transactions);
      }
    }

    method RevertBlock(block: Descriptor) returns (ok: bool)
      modifies this
      ensures ok <==> Reverted(old(Content()), block).Ok?
      ensures ok ==> Reverted(old(Content()), block) == Ok(Content())
    {
      if blockOrder == [] {
        return true;
      }
      var last := blockOrder[|blockOrder| - 1];
      blockOrder := blockOrder[..|blockOrder| - 1];
      if last.hash != block.hash {
        return false;
      }
      RemoveAll(last.transactions);
      ok := true;
    }

    method PrependBlock(block: Descriptor) returns (ok: bool)
      modifies this
      ensures ok <==> Prepended(old(Content()), block).Ok?
      ensures ok ==> Prepended(old(Content()), block) == Ok(Content())
    {
      if blockOrder != [] && block.hash != blockOrder[0].prevHash {
        return false;
      }
      if VALIDITY_WINDOW - |blockOrder| <= 0 {
        return false;
      }
      ok := InsertNew(block.transactions);
      if ok {
        blockOrder := [block] + blockOrder;
      }
    }
  }
}
