/** What the evaluator says: the exact score of every useful contribution, and so which one is picked. */
module EvaluatorScores {
  import opened Prelude
  import opened Sets
  import opened Contributions
  import opened Partitioner
  import opened ContributionStore
  import opened TodoLists
  import opened Aggregation
  import opened AggregationInvariant
  import opened HandelPlaces
  import opened HandelNetwork
  import opened Evaluator

  // ---------- gains ----------

  /** What a contribution brings by itself: its contributors, with the best if they share none. */
  function Brought(best: set<nat>, c: set<nat>): set<nat> {
    if c !! best then c + best else c
  }

  /** By how much the best grows, and how many verified individuals have to be added for that. */
  function Growth(best: set<nat>, c: set<nat>, verified: set<nat>): int {
    |NextBest(best, c, verified)| - |best|
  }

  function FilledIn(best: set<nat>, c: set<nat>, verified: set<nat>): nat {
    |NextBest(best, c, verified) - Brought(best, c)|
  }

  lemma {:induction false} GainWithoutBest(c: set<nat>)
    requires |c| > 1
    ensures GainOver(None, c, {}) == Ok(Gain(|c|, |c|, 0))
    ensures NextBest({}, c, {}) == c && NextBest({}, c, {}) - Brought({}, c) == {}
  {
    assert c + {} == c;
    assert (c + {}) + VerifiedWith({}, c) == c;
  }

  lemma {:induction false} GainBeside(best: set<nat>, c: set<nat>, verified: set<nat>)
    requires verified <= best && best != {} && c !! best && |c| > 1
    ensures GainOver(Some(Contribution(best)), c, verified) == Ok(Gain(|c + best|, |c|, 0))
    ensures NextBest(best, c, verified) == c + best && |c + best| == |best| + |c|
  {
    DisjointUnionSize(best, c);
    assert c * best == {} && c + best == best + c;
    var final := (c + verified) + best;
    assert final == c + best && (final - (best + c)) + ((best + c) - final) == {};
    assert (c + best) + VerifiedWith(verified, c) == c + best;
  }

  lemma {:induction false} GainInstead(best: set<nat>, c: set<nat>, verified: set<nat>)
    requires verified <= best && !(c !! best) && |c| > 1 && |c + verified| > |best|
    ensures GainOver(Some(Contribution(best)), c, verified) ==
            Ok(Gain(|c + verified|, |c + verified| - |best|, |(c + verified) - c|))
    ensures NextBest(best, c, verified) == c + verified
  {
    var x :| x in c && x in best;
    assert x in c * best;
    SubsetSize(c, c + verified);
  }

  /** The estimated gain of a useful aggregate is the real one. */
  lemma {:induction false} GainIs(best: set<nat>, c: set<nat>, verified: set<nat>)
    requires verified <= best && |c| > 1 && |NextBest(best, c, verified)| > |best|
    ensures GainOver(BestOption(best), c, verified) ==
            Ok(Gain(|NextBest(best, c, verified)|, Growth(best, c, verified), FilledIn(best, c, verified)))
  {
    if best == {} {
      GainWithoutBest(c);
    } else if c !! best {
      GainBeside(best, c, verified);
      assert (c + best) - (c + best) == {};
    } else {
      GainInstead(best, c, verified);
    }
  }

  /** An individual is weighed by its own weight once some, but not all, of the best are verified individuals. */
  lemma {:induction false} IndividualGainIs(best: set<nat>, id: nat, verified: set<nat>)
    requires verified <= best && id !in best
    ensures var g := GainOver(BestOption(best), verified + {id}, verified);
            && g.Ok? && g.value.combined == 0 && g.value.newTotal <= |best| + 1
            && g.value.added == if verified == {} || verified == best then 1 else 0
  {
    var signers := verified + {id};
    assert signers + verified == signers;
    SubsetSize(verified, best);
    if best != {} && verified == {} {
      assert signers * best == {};
      var final := signers + best;
      assert final == best + signers && (final - (best + signers)) + ((best + signers) - final) == {};
      assert final == best + {id};
    } else if best != {} {
      var x :| x in verified;
      assert x in signers * best;
    }
  }

  // ---------- scores ----------

  /** What is worth scoring: a store, a contribution of a level above 0, and known weights. */
  ghost predicate Scorable(s: Store, weights: map<nat, nat>, c: Contribution, level: nat, range: set<nat>) {
    && 0 < level < |s.verified| == |s.individuals|
    && CellInv(s.verified[level], s.individuals[level], BestAt(s.best, level))
    && (level in s.best ==> s.best[level].contributors != {})
    && BestAt(s.best, level) <= range && {} != c.contributors <= range
    && RangeFits(range, level) && WeightsPositive(weights, range)
  }

  /** Points for what is gained, as long as the level is not counted as complete. */
  lemma {:induction false} ScoreIs(g: Gain, level: nat, toReceive: nat, w: nat)
    requires level <= 16 && g.added > 0 && g.newTotal != toReceive && g.combined <= 0x1_0000
    ensures Score(g, level, toReceive, w) == Ok(100_000 - 100 * level + 10 * g.added - g.combined)
  {
  }

  lemma {:induction false} WithinRange(best: set<nat>, c: set<nat>, verified: set<nat>, range: set<nat>)
    requires verified <= best <= range && {} != c <= range && |NextBest(best, c, verified)| > |best|
    ensures |best| < |range| && |NextBest(best, c, verified)| <= |range| && FilledIn(best, c, verified) <= |range|
    ensures !(c <= best)
  {
    NextBestKeeps(best, c, verified);
    SubsetSize(NextBest(best, c, verified), range);
    SubsetSize(NextBest(best, c, verified) - Brought(best, c), range);
    if c <= best {
      NoGainInside(best, c, verified);
    }
  }

  /**
   * The score of an aggregate that enlarges the best of its level: a hundred points less for every
   * level, ten more for every contributor gained, one less for every individual to be added. The bonus
   * for a complete level is never given, as a level is compared with twice the size of its range.
   */
  lemma {:induction false} AggregateScore(s: Store, weights: map<nat, nat>, c: Contribution, level: nat,
                                          range: set<nat>)
    requires Scorable(s, weights, c, level, range) && |c.contributors| > 1
    requires |NextBest(BestAt(s.best, level), c.contributors, s.verified[level])| > |BestAt(s.best, level)|
    ensures Evaluate(s, weights, c, level).Ok?
    ensures Evaluate(s, weights, c, level).value ==
            100_000 - 100 * level + 10 * Growth(BestAt(s.best, level), c.contributors, s.verified[level]) -
            FilledIn(BestAt(s.best, level), c.contributors, s.verified[level])
  {
    var best, verified := BestAt(s.best, level), s.verified[level];
    WithinRange(best, c.contributors, verified, range);
    GainIs(best, c.contributors, verified);
    var g := GainOver(BestOption(best), c.contributors, verified).value;
    ScoreOutside(s, weights, c, level, g);
    ScoreIs(g, level, LevelSize(level), IndividualWeight(weights, c));
  }

  lemma {:induction false} IndividualWithin(best: set<nat>, id: nat, range: set<nat>)
    requires best <= range && id in range && id !in best
    ensures |best| + 1 <= |range|
  {
    SubsetSize(best + {id}, range);
  }

  lemma {:induction false} IndividualIs(weights: map<nat, nat>, id: nat)
    requires id in weights
    ensures Contribution({id}).NumContributors() == 1 && IndividualWeight(weights, Contribution({id})) == weights[id]
  {
  }

  lemma {:induction false} IndividualScored(g: Gain, level: nat, toReceive: nat, w: nat)
    requires level <= 16 && g.combined == 0 && g.newTotal != toReceive && g.added <= 1
    ensures Score(g, level, toReceive, w) == Ok(if g.added == 1 then 100_000 - 100 * level + 10 else w)
  {
  }

  /** The score of an individual that the best of its level does not hold yet. */
  lemma {:induction false} IndividualScore(s: Store, weights: map<nat, nat>, id: nat, level: nat, range: set<nat>)
    requires Scorable(s, weights, Contribution({id}), level, range) && id !in BestAt(s.best, level)
    ensures Evaluate(s, weights, Contribution({id}), level) ==
            Ok(if s.verified[level] == {} || s.verified[level] == BestAt(s.best, level) then 100_000 - 100 * level + 10
               else weights[id])
  {
    var best, verified, c := BestAt(s.best, level), s.verified[level], Contribution({id});
    assert id in {id};
    IndividualWithin(best, id, range);
    IndividualGainIs(best, id, verified);
    var g := GainOver(BestOption(best), verified + {id}, verified).value;
    IndividualIs(weights, id);
    ScoreOutside(s, weights, c, level, g);
    IndividualScored(g, level, LevelSize(level), weights[id]);
  }

  // ---------- picking ----------

  ghost function GrowthOf(s: Store, t: TodoItem): int
    requires t.level < |s.verified|
  {
    Growth(BestAt(s.best, t.level), t.contribution.contributors, s.verified[t.level])
  }

  ghost function FilledInOf(s: Store, t: TodoItem): nat
    requires t.level < |s.verified|
  {
    FilledIn(BestAt(s.best, t.level), t.contribution.contributors, s.verified[t.level])
  }

  /** An aggregate for a level above 0 that would enlarge that level's best. */
  ghost predicate Enlarging(g: Place, s: Store, t: TodoItem) {
    && TodoOk(g, t) && t.level < |s.verified| && t.level > 0 && |t.contribution.contributors| > 1 && GrowthOf(s, t) > 0
  }

  lemma {:induction false} NodeScores(p: BinomialPartitioner, order: seq<seq<nat>>, n: Node, t: TodoItem)
    requires Networked(p) && n.p == p && WeightsKnown(n, p.numIds) && NodeInv(PlaceOf(p, order), n)
    requires Enlarging(PlaceOf(p, order), n.store, t)
    ensures Scores(n.store, n.weights)(t).Ok?
    ensures Scores(n.store, n.weights)(t).value ==
            100_000 - 100 * t.level + 10 * GrowthOf(n.store, t) - FilledInOf(n.store, t)
  {
    RangeSmall(p, t.level);
    ItemScorable(Ranges(p), n.store, n.weights, t);
    AggregateScore(n.store, n.weights, t.contribution, t.level, Ranges(p)[t.level]);
  }

  lemma {:induction false} ItemScorable(ranges: seq<set<nat>>, s: Store, weights: map<nat, nat>, t: TodoItem)
    requires StoreInv(ranges, s) && 0 < t.level < |ranges| && {} != t.contribution.contributors <= ranges[t.level]
    requires RangeFits(ranges[t.level], t.level) && WeightsPositive(weights, ranges[t.level])
    ensures Scorable(s, weights, t.contribution, t.level, ranges[t.level])
  {
    assert CellInv(s.verified[t.level], s.individuals[t.level], BestAt(s.best, t.level));
  }

  /**
   * The item a node picks is worth at least as much as any other useful aggregate it sees. So among
   * those of one level nothing gains more, unless it needs more individuals to be added.
   */
  lemma {:induction false} PickGainsMost(p: BinomialPartitioner, order: seq<seq<nat>>, n: Node,
                                         seen: multiset<TodoItem>, b: TodoItem, list: set<TodoItem>, t: TodoItem)
    requires Networked(p) && n.p == p && WeightsKnown(n, p.numIds) && NodeInv(PlaceOf(p, order), n)
    requires Picked(Scores(n.store, n.weights), seen, Some(b), list) && t in seen
    requires Enlarging(PlaceOf(p, order), n.store, b) && Enlarging(PlaceOf(p, order), n.store, t)
    ensures 10 * GrowthOf(n.store, t) - FilledInOf(n.store, t) - 100 * t.level <=
            10 * GrowthOf(n.store, b) - FilledInOf(n.store, b) - 100 * b.level
    ensures t.level == b.level && GrowthOf(n.store, t) > GrowthOf(n.store, b) ==>
              FilledInOf(n.store, t) > FilledInOf(n.store, b)
  {
    NodeScores(p, order, n, b);
    NodeScores(p, order, n, t);
  }
}
