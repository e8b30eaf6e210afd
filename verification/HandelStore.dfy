/** The store of the best contribution per level (handel/src/store.rs). */
module ContributionStore {
  import opened Prelude
  import opened Sets
  import opened Contributions
  import Partitioner

  /** The contents of a store, one entry per level in each list. */
  datatype Store = Store(
    bestLevel: nat,
    verified: seq<set<nat>>,
    individuals: seq<map<nat, Contribution>>,
    best: map<nat, Contribution>)

  function EmptyStore(levels: nat): Store {
    Store(0, seq(levels, _ => {}), seq(levels, _ => map[]), map[])
  }

  /** An individual contribution that check_merge may add: present, and signed by that one peer. */
  predicate Addable(individuals: map<nat, Contribution>, id: nat) {
    id in individuals && individuals[id].contributors == {id}
  }

  /** Adds the individual contributions of the given peers; a missing or wrong one is a panic. */
  function AddIndividuals(individuals: map<nat, Contribution>, merged: Contribution, ids: set<nat>)
    : Outcome<Contribution> {
    if forall id :: id in ids ==> Addable(individuals, id) then Ok(Contribution(merged.contributors + ids)) else Panic
  }

  /** What check_merge would make the best contribution of the level, if anything. */
  function MergeInto(s: Store, c: Contribution, level: nat): Outcome<Option<Contribution>> {
    if level !in s.best then Ok(Some(c))
    else if level >= |s.verified| then Panic
    else
      var best := s.best[level];
      var merged := match c.Combine(best) case Success(m) => m case Failure(_) => c;
      var complements := s.verified[level] - merged.contributors;
      if |complements| + merged.NumContributors() <= best.NumContributors() then Ok(None)
      else
        var individuals := if level < |s.individuals| then s.individuals[level] else map[];
        var full :- AddIndividuals(individuals, merged, complements);
        Ok(Some(full))
  }

  /** Individual contributions are remembered before merging. */
  function Remember(s: Store, c: Contribution, level: nat): Outcome<Store> {
    if c.NumContributors() != 1 then Ok(s)
    else if level >= |s.verified| || level >= |s.individuals| then Panic
    else
      var id := c.Contributor();
      var entries: map<nat, Contribution> := s.individuals[level][id := c];
      Ok(s.(verified := s.verified[level := s.verified[level] + {id}],
            individuals := s.individuals[level := entries]))
  }

  function PutInto(s: Store, c: Contribution, level: nat): Outcome<Store> {
    var r :- Remember(s, c, level);
    var m :- MergeInto(r, c, level);
    match m
    case None => Ok(r)
    case Some(b) => Ok(r.(best := r.best[level := b], bestLevel := if level > r.bestLevel then level else r.bestLevel))
  }

  /** The best contributions of the levels below n, lowest level first. */
  function Bests(best: map<nat, Contribution>, n: nat): seq<Contribution> {
    if n == 0 then []
    else Bests(best, n - 1) + if n - 1 in best then [best[n - 1]] else []
  }

  function CombinedUpTo(s: Store, level: nat): Outcome<Option<Contribution>> {
    CombineAll(Bests(s.best, level + 1))
  }

  /** The store as the program holds it: every operation updates the fields in place. */
  class ReplaceStore {
    var bestLevel: nat
    var verified: seq<set<nat>>
    var individuals: seq<map<nat, Contribution>>
    var best: map<nat, Contribution>

    function Value(): Store
      reads this
    {
      Store(bestLevel, verified, individuals, best)
    }

    constructor (levels: nat)
      ensures Value() == EmptyStore(levels)
    {
      var bits: seq<set<nat>>, entries: seq<map<nat, Contribution>> := [], [];
      for l := 0 to levels
        invariant bits == seq(l, _ => {}) && entries == seq(l, _ => map[])
      {
        bits := bits + [{}];
        entries := entries + [map[]];
      }
      bestLevel, verified, individuals, best := 0, bits, entries, map[];
    }

    method CheckMerge(contribution: Contribution, level: nat) returns (r: Outcome<Option<Contribution>>)
      ensures r == MergeInto(Value(), contribution, level)
    {
      if level !in best {
        return Ok(Some(contribution));
      }
      var current := contribution;
      match current.Combine(best[level]) {
        case Success(m) => current := m;
        case Failure(_) =>
      }
      if level >= |verified| {
        return Panic;
      }
      var complements := verified[level] - current.contributors;
      if |complements| + current.NumContributors() <= best[level].NumContributors() {
        return Ok(None);
      }
      var full := AddComplements(if level < |individuals| then individuals[level] else map[], current, complements);
      match full {
        case Ok(f) => return Ok(Some(f));
        case Panic => return Panic;
      }
    }

    /** Combines the individual contributions of `ids` into `merged`, one at a time. */
    static method AddComplements(individuals: map<nat, Contribution>, merged: Contribution, ids: set<nat>)
      returns (r: Outcome<Contribution>)
      requires merged.contributors !! ids
      ensures r == AddIndividuals(individuals, merged, ids)
    {
      var current, rest := merged, ids;
      while rest != {}
        invariant rest <= ids
        invariant current.contributors == merged.contributors + (ids - rest)
        invariant forall id :: id in ids - rest ==> Addable(individuals, id)
        decreases rest
      {
        var id :| id in rest;
        if id !in individuals || individuals[id].NumContributors() != 1 || id !in individuals[id].contributors {
          assert !Addable(individuals, id);
          return Panic;
        }
        Singleton(individuals[id].contributors, id);
        match current.Combine(individuals[id]) {
          case Success(m) => current := m;
          case Failure(_) => assert false;
        }
        rest := rest - {id};
      }
      assert ids - rest == ids;
      return Ok(current);
    }

    /** Stores a contribution; reports false where the program panics. */
    method Put(contribution: Contribution, level: nat) returns (ok: bool)
      modifies this
      ensures PutInto(old(Value()), contribution, level) == if ok then Ok(Value()) else Panic
    {
      if contribution.NumContributors() == 1 {
        var id := contribution.Contributor();
        if level >= |verified| || level >= |individuals| {
          return false;
        }
        verified := verified[level := verified[level] + {id}];
        individuals := individuals[level := individuals[level][id := contribution]];
      }
      var merged := CheckMerge(contribution, level);
      match merged {
        case Panic => return false;
        case Ok(None) =>
        case Ok(Some(b)) =>
          best := best[level := b];
          if level > bestLevel {
            bestLevel := level;
          }
      }
      return true;
    }

    method Combined(level: nat) returns (r: Outcome<Option<Contribution>>)
      ensures r == CombinedUpTo(Value(), level)
    {
      var signatures := [];
      for l := 0 to level + 1
        invariant signatures == Bests(best, l)
      {
        if l in best {
          signatures := signatures + [best[l]];
        }
      }
      r := Partitioner.Combine(signatures);
    }
  }

  /** The contributors of the best contribution of a level, none when there is no best. */
  function BestAt(best: map<nat, Contribution>, level: nat): set<nat> {
    if level in best then best[level].contributors else {}
  }

  /** Every best contribution is a nonempty part of the range of its level. */
  ghost predicate BestInv(ranges: seq<set<nat>>, best: map<nat, Contribution>) {
    forall l :: l in best ==> l < |ranges| && {} != best[l].contributors <= ranges[l]
  }

  /** The records of one level agree, and every individual in them is part of the level's best. */
  ghost predicate CellInv(verified: set<nat>, individuals: map<nat, Contribution>, best: set<nat>) {
    && verified == individuals.Keys
    && verified <= best
    && forall id :: id in individuals ==> individuals[id] == Contribution({id})
  }

  /**
   * What every reachable store keeps, for a node whose level l may hold exactly the identifiers
   * ranges[l].
   */
  ghost predicate StoreInv(ranges: seq<set<nat>>, s: Store) {
    && |s.verified| == |s.individuals| == |ranges|
    && BestInv(ranges, s.best)
    && (forall l :: 0 <= l < |ranges| ==> CellInv(s.verified[l], s.individuals[l], BestAt(s.best, l)))
    && (forall l :: l in s.best ==> l <= s.bestLevel)
    && (s.bestLevel == 0 || s.bestLevel in s.best)
  }

  lemma {:induction false} EmptyStoreInv(ranges: seq<set<nat>>)
    ensures StoreInv(ranges, EmptyStore(|ranges|))
  {
  }

  /** The individuals verified at a level once c has arrived. */
  function VerifiedWith(verified: set<nat>, c: set<nat>): set<nat> {
    if |c| == 1 then verified + c else verified
  }

  /** The largest contribution that c, the best so far and the verified individuals allow. */
  function NextBest(best: set<nat>, c: set<nat>, verified: set<nat>): set<nat> {
    var merged := (if c !! best then c + best else c) + VerifiedWith(verified, c);
    if |merged| <= |best| then best else merged
  }

  /** A best contribution is replaced only by a strictly larger one, and keeps every verified individual. */
  lemma {:induction false} NextBestKeeps(best: set<nat>, c: set<nat>, verified: set<nat>)
    requires verified <= best && c != {}
    ensures NextBest(best, c, verified) == best || |NextBest(best, c, verified)| > |best|
    ensures VerifiedWith(verified, c) <= NextBest(best, c, verified) <= best + c
    ensures NextBest(best, c, verified) != {}
  {
    if |c| == 1 {
      var x :| x in c;
      Singleton(c, x);
      if x in best {
        SubsetSize(c + (verified + c), best);
      } else {
        assert (c + best) + (verified + c) == best + c;
        SubsetSize(best, best + c);
      }
    }
  }

  /** The size check_merge compares is the size of what it would build. */
  lemma {:induction false} MergedSize(merged: set<nat>, verified: set<nat>)
    ensures |verified - merged| + |merged| == |merged + verified|
  {
    DisjointUnionSize(verified - merged, merged);
    assert (verified - merged) + merged == merged + verified;
  }

  lemma {:induction false} RememberIs(s: Store, c: Contribution, level: nat)
    requires level < |s.verified| == |s.individuals|
    requires s.verified[level] == s.individuals[level].Keys
    requires forall id :: id in s.individuals[level] ==> s.individuals[level][id] == Contribution({id})
    ensures Remember(s, c, level).Ok?
    ensures var r := Remember(s, c, level).value;
            && r == s.(verified := r.verified, individuals := r.individuals)
            && r.verified == s.verified[level := VerifiedWith(s.verified[level], c.contributors)]
            && |r.individuals| == |s.individuals|
            && r.individuals == s.individuals[level := r.individuals[level]]
            && r.individuals[level].Keys == r.verified[level]
            && forall id :: id in r.individuals[level] ==> r.individuals[level][id] == Contribution({id})
  {
  }

  lemma {:induction false} AddIndividualsIs(individuals: map<nat, Contribution>, merged: Contribution,
                                            verified: set<nat>)
    requires forall id :: id in verified ==> Addable(individuals, id)
    ensures AddIndividuals(individuals, merged, verified - merged.contributors) ==
            Ok(Contribution(merged.contributors + verified))
  {
    assert merged.contributors + (verified - merged.contributors) == merged.contributors + verified;
  }

  lemma {:induction false} MergeIs(s: Store, c: Contribution, level: nat, verified: set<nat>)
    requires level < |s.verified| == |s.individuals| && level in s.best
    requires VerifiedWith(verified, c.contributors) == s.verified[level]
    requires forall id :: id in s.verified[level] ==> Addable(s.individuals[level], id)
    ensures var best := s.best[level].contributors;
            var next := NextBest(best, c.contributors, verified);
            MergeInto(s, c, level) == Ok(if next == best then None else Some(Contribution(next)))
  {
    var best := s.best[level].contributors;
    var merged := if c.contributors !! best then c.contributors + best else c.contributors;
    MergedSize(merged, s.verified[level]);
    AddIndividualsIs(s.individuals[level], Contribution(merged), s.verified[level]);
  }

  lemma {:induction false} FirstBest(c: set<nat>)
    requires c != {}
    ensures NextBest({}, c, {}) == c
  {
    assert (c + {}) + VerifiedWith({}, c) == c;
  }

  /** Replacing the records of one level by good ones keeps the store invariant. */
  lemma {:induction false} UpdateLevelKeepsInv(ranges: seq<set<nat>>, s: Store, s': Store, level: nat, next: set<nat>)
    requires StoreInv(ranges, s) && level < |ranges|
    requires |s'.verified| == |s'.individuals| == |ranges|
    requires s'.verified == s.verified[level := s'.verified[level]]
    requires s'.individuals == s.individuals[level := s'.individuals[level]]
    requires s'.best == s.best[level := Contribution(next)]
    requires s'.bestLevel == if level > s.bestLevel then level else s.bestLevel
    requires {} != next <= ranges[level] && CellInv(s'.verified[level], s'.individuals[level], next)
    ensures StoreInv(ranges, s')
  {
    forall l | 0 <= l < |ranges|
      ensures CellInv(s'.verified[l], s'.individuals[l], BestAt(s'.best, l))
    {
      assert CellInv(s.verified[l], s.individuals[l], BestAt(s.best, l));
    }
  }

  /** The effect of a put on the records of its level. */
  lemma {:induction false} PutIs(s: Store, c: Contribution, level: nat)
    requires level < |s.verified| == |s.individuals|
    requires c.contributors != {} && (forall l :: l in s.best ==> l <= s.bestLevel)
    requires CellInv(s.verified[level], s.individuals[level], BestAt(s.best, level))
    ensures PutInto(s, c, level).Ok?
    ensures var s' := PutInto(s, c, level).value;
            var next := NextBest(BestAt(s.best, level), c.contributors, s.verified[level]);
            && |s'.verified| == |s'.individuals| == |s.verified|
            && s'.verified == s.verified[level := VerifiedWith(s.verified[level], c.contributors)]
            && s'.individuals == s.individuals[level := s'.individuals[level]]
            && s'.best == s.best[level := Contribution(next)]
            && s'.bestLevel == (if level > s.bestLevel then level else s.bestLevel)
            && s'.verified[level] == s'.individuals[level].Keys
            && forall id :: id in s'.individuals[level] ==> s'.individuals[level][id] == Contribution({id})
  {
    RememberIs(s, c, level);
    var r := Remember(s, c, level).value;
    var next := NextBest(BestAt(s.best, level), c.contributors, s.verified[level]);
    MergedIs(s.verified[level], r, c, level, next);
    PutFrom(s, r, c, level, next);
  }

  lemma {:induction false} MergedIs(verified: set<nat>, r: Store, c: Contribution, level: nat, next: set<nat>)
    requires level < |r.verified| == |r.individuals| && c.contributors != {}
    requires r.verified[level] == VerifiedWith(verified, c.contributors) == r.individuals[level].Keys
    requires forall id :: id in r.individuals[level] ==> r.individuals[level][id] == Contribution({id})
    requires verified <= BestAt(r.best, level) && next == NextBest(BestAt(r.best, level), c.contributors, verified)
    ensures MergeInto(r, c, level) ==
            Ok(if level in r.best && next == r.best[level].contributors then None else Some(Contribution(next)))
  {
    if level in r.best {
      assert forall id :: id in r.verified[level] ==> Addable(r.individuals[level], id);
      MergeIs(r, c, level, verified);
    } else {
      FirstBest(c.contributors);
    }
  }

  lemma {:induction false} PutFrom(s: Store, r: Store, c: Contribution, level: nat, next: set<nat>)
    requires Remember(s, c, level) == Ok(r) && r.best == s.best && (level in r.best ==> level <= r.bestLevel)
    requires MergeInto(r, c, level) ==
             Ok(if level in r.best && next == r.best[level].contributors then None else Some(Contribution(next)))
    ensures PutInto(s, c, level) == Ok(r.(best := r.best[level := Contribution(next)],
                                          bestLevel := if level > r.bestLevel then level else r.bestLevel))
  {
    if level in r.best && next == r.best[level].contributors {
      assert r.best[level := Contribution(next)] == r.best;
    }
  }

  /**
   * Putting a nonempty contribution of the level never panics and keeps the invariant. The best of
   * the level is kept or replaced by a strictly larger one; no other level changes.
   */
  lemma {:induction false} PutKeepsInv(ranges: seq<set<nat>>, s: Store, c: Contribution, level: nat)
    requires StoreInv(ranges, s) && level < |ranges|
    requires {} != c.contributors <= ranges[level]
    ensures PutInto(s, c, level).Ok?
    ensures var s' := PutInto(s, c, level).value;
            && StoreInv(ranges, s')
            && level in s'.best
            && s'.best == s.best[level := s'.best[level]]
            && (s'.best == s.best || |BestAt(s'.best, level)| > |BestAt(s.best, level)|)
            && BestAt(s'.best, level) == NextBest(BestAt(s.best, level), c.contributors, s.verified[level])
            && BestAt(s'.best, level) <= BestAt(s.best, level) + c.contributors
  {
    var best := BestAt(s.best, level);
    assert CellInv(s.verified[level], s.individuals[level], best);
    NextBestKeeps(best, c.contributors, s.verified[level]);
    PutIs(s, c, level);
    UpdateLevelKeepsInv(ranges, s, PutInto(s, c, level).value, level,
                        NextBest(best, c.contributors, s.verified[level]));
  }

  /** The contributors of the bests below level n. */
  function BestUnion(best: map<nat, Contribution>, n: nat): set<nat> {
    if n == 0 then {} else BestUnion(best, n - 1) + BestAt(best, n - 1)
  }

  function BestTotal(best: map<nat, Contribution>, n: nat): nat {
    if n == 0 then 0 else BestTotal(best, n - 1) + |BestAt(best, n - 1)|
  }

  ghost predicate DisjointPair(ranges: seq<set<nat>>, j: nat, k: nat) {
    j < k < |ranges| ==> ranges[j] !! ranges[k]
  }

  ghost predicate RangesDisjoint(ranges: seq<set<nat>>) {
    forall j, k :: DisjointPair(ranges, j, k)
  }

  function RangesUnion(ranges: seq<set<nat>>, n: nat): set<nat>
    requires n <= |ranges|
  {
    if n == 0 then {} else RangesUnion(ranges, n - 1) + ranges[n - 1]
  }

  lemma {:induction false} RangeDisjointFromBelow(ranges: seq<set<nat>>, n: nat, k: nat)
    requires RangesDisjoint(ranges) && n <= k < |ranges|
    ensures RangesUnion(ranges, n) !! ranges[k]
  {
    if n > 0 {
      RangeDisjointFromBelow(ranges, n - 1, k);
      assert DisjointPair(ranges, n - 1, k);
    }
  }

  lemma {:induction false} BestUnionInRanges(ranges: seq<set<nat>>, best: map<nat, Contribution>, n: nat)
    requires BestInv(ranges, best) && n <= |ranges|
    ensures BestUnion(best, n) <= RangesUnion(ranges, n)
  {
    if n > 0 {
      BestUnionInRanges(ranges, best, n - 1);
    }
  }

  /** The best of a level shares nothing with the bests below it. */
  lemma {:induction false} BestDisjointFromBelow(ranges: seq<set<nat>>, best: map<nat, Contribution>, n: nat)
    requires BestInv(ranges, best) && RangesDisjoint(ranges) && n < |ranges|
    ensures BestUnion(best, n) !! BestAt(best, n)
  {
    BestUnionInRanges(ranges, best, n);
    RangeDisjointFromBelow(ranges, n, n);
  }

  lemma {:induction false} TotalNext(best: map<nat, Contribution>, n: nat)
    requires n > 0 && BestUnion(best, n - 1) !! BestAt(best, n - 1)
    ensures |BestUnion(best, n)| == |BestUnion(best, n - 1)| + |BestAt(best, n - 1)|
  {
    DisjointUnionSize(BestUnion(best, n - 1), BestAt(best, n - 1));
  }

  lemma {:induction false} BestUnionSize(ranges: seq<set<nat>>, best: map<nat, Contribution>, n: nat)
    requires BestInv(ranges, best) && RangesDisjoint(ranges) && n <= |ranges|
    ensures |BestUnion(best, n)| == BestTotal(best, n)
  {
    if n > 0 {
      BestDisjointFromBelow(ranges, best, n - 1);
      TotalNext(best, n);
      BestUnionSize(ranges, best, n - 1);
    }
  }

  lemma {:induction false} BestsStep(best: map<nat, Contribution>, n: nat)
    requires n > 0
    ensures n - 1 !in best ==> Bests(best, n) == Bests(best, n - 1)
    ensures n - 1 in best ==> |Bests(best, n)| == |Bests(best, n - 1)| + 1
    ensures n - 1 in best ==> Bests(best, n)[..|Bests(best, n - 1)|] == Bests(best, n - 1)
    ensures n - 1 in best ==> Bests(best, n)[|Bests(best, n - 1)|] == best[n - 1]
  {
  }

  lemma {:induction false} BestsUnion(ranges: seq<set<nat>>, best: map<nat, Contribution>, n: nat)
    requires BestInv(ranges, best)
    ensures UnionAll(Bests(best, n)) == BestUnion(best, n)
    ensures Bests(best, n) == [] <==> BestUnion(best, n) == {}
  {
    if n > 0 {
      BestsUnion(ranges, best, n - 1);
      BestsStep(best, n);
    }
  }

  lemma {:induction false} BestsPairwiseDisjoint(ranges: seq<set<nat>>, best: map<nat, Contribution>, n: nat)
    requires BestInv(ranges, best) && RangesDisjoint(ranges) && n <= |ranges|
    ensures PairwiseDisjoint(Bests(best, n))
  {
    if n > 0 {
      BestsPairwiseDisjoint(ranges, best, n - 1);
      BestsUnion(ranges, best, n - 1);
      BestDisjointFromBelow(ranges, best, n - 1);
      BestsStep(best, n);
      var below := Bests(best, n - 1);
      forall i | 0 <= i < |below|
        ensures below[i].contributors !! BestAt(best, n - 1)
      {
        assert below[i] in below;
      }
    }
  }

  /** combined(level) never panics: it is the disjoint union of the bests up to the level. */
  lemma {:induction false} CombinedIsUnion(ranges: seq<set<nat>>, s: Store, level: nat)
    requires StoreInv(ranges, s) && RangesDisjoint(ranges) && level < |ranges|
    ensures var u := BestUnion(s.best, level + 1);
            && CombinedUpTo(s, level) == Ok(if u == {} then None else Some(Contribution(u)))
            && u <= RangesUnion(ranges, level + 1)
            && |u| == BestTotal(s.best, level + 1)
  {
    BestsPairwiseDisjoint(ranges, s.best, level + 1);
    BestsUnion(ranges, s.best, level + 1);
    BestUnionInRanges(ranges, s.best, level + 1);
    BestUnionSize(ranges, s.best, level + 1);
  }
}
