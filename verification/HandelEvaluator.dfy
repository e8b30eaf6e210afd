/** How useful an unverified contribution is (handel/src/evaluator.rs, `WeightedVote`). */
module Evaluator {
  import opened Prelude
  import opened Sets
  import opened Contributions
  import opened ContributionStore
  import opened Partitioner

  /** Unsigned subtraction; the program aborts below zero. */
  function Minus(a: nat, b: nat): Outcome<nat> {
    if a < b then Panic else Ok(a - b)
  }

  function SaturatingMinus(a: nat, b: nat): nat {
    if a < b then 0 else a - b
  }

  /** How a contribution would change the best of its level. */
  datatype Gain = Gain(newTotal: nat, added: nat, combined: nat)

  function GainOver(best: Option<Contribution>, signers: set<nat>, verified: set<nat>): Outcome<Gain> {
    var withIndividuals := signers + verified;
    match best
    case Some(b) =>
      if |signers * b.contributors| > 0 then
        var combined :- Minus(|withIndividuals|, |signers|);
        Ok(Gain(|withIndividuals|, SaturatingMinus(|withIndividuals|, b.NumContributors()), combined))
      else
        var final := withIndividuals + b.contributors;
        var signed := b.contributors + signers;
        var added :- Minus(|final|, b.NumContributors());
        Ok(Gain(|final|, added, |(final - signed) + (signed - final)|))
    case None =>
      var combined :- Minus(|withIndividuals|, |signers|);
      Ok(Gain(|withIndividuals|, |withIndividuals|, combined))
  }

  function Score(g: Gain, level: nat, toReceive: nat, individualWeight: nat): Outcome<nat> {
    if g.added == 0 then Ok(individualWeight)
    else if g.newTotal == toReceive then
      var a :- Minus(1_000_000, level * 10);
      Minus(a, g.combined)
    else
      var a :- Minus(100_000, level * 100);
      Minus(a + g.added * 10, g.combined)
  }

  /** The weight of an individual contribution, and 0 for an aggregate or an unknown signer. */
  function IndividualWeight(weights: map<nat, nat>, c: Contribution): nat {
    if c.NumContributors() == 1 && c.Contributor() in weights then weights[c.Contributor()] else 0
  }

  function Evaluate(s: Store, weights: map<nat, nat>, c: Contribution, level: nat): Outcome<nat> {
    if c.NumContributors() == 1 && level >= |s.individuals| then Panic
    else if c.NumContributors() == 1 && c.Contributor() in s.individuals[level] then Ok(0)
    else
      var toReceive := LevelSize(level);
      var best := if level in s.best then Some(s.best[level]) else None;
      if best.Some? && (toReceive == best.value.NumContributors() || c.contributors <= best.value.contributors) then
        Ok(0)
      else if level >= |s.verified| then Panic
      else
        var verified := s.verified[level];
        var signers := if c.NumContributors() == 1 then verified + {c.Contributor()} else c.contributors;
        var gain :- GainOver(best, signers, verified);
        Score(gain, level, toReceive, IndividualWeight(weights, c))
  }

  /** What Handel guarantees about the range of a level: small, and only half of `level_size` above level 0. */
  ghost predicate RangeFits(range: set<nat>, level: nat) {
    && level <= 16 && |range| <= 0x1_0000
    && if level == 0 then |range| == 1 else |range| < LevelSize(level)
  }

  ghost predicate WeightsPositive(weights: map<nat, nat>, range: set<nat>) {
    forall id :: id in range ==> id in weights && weights[id] > 0
  }

  lemma {:induction false} ScoreOk(g: Gain, level: nat, toReceive: nat, w: nat)
    requires level <= 16 && g.combined <= 0x1_0000
    ensures Score(g, level, toReceive, w).Ok?
    ensures Score(g, level, toReceive, w).value > 0 <==> g.added > 0 || w > 0
  {
  }

  /** An individual that is not yet part of the best always enlarges it. */
  lemma {:induction false} GainOfIndividual(best: set<nat>, verified: set<nat>, id: nat, range: set<nat>)
    requires verified <= best <= range && id in range && id !in best
    ensures |NextBest(best, {id}, verified)| > |best|
    ensures var b := BestOption(best);
            GainOver(b, verified + {id}, verified).Ok? &&
            GainOver(b, verified + {id}, verified).value.combined <= |range|
  {
    var signers := verified + {id};
    assert ({id} + best) + (verified + {id}) == best + {id};
    SubsetSize(best, best + {id});
    assert signers + verified == signers;
    var final := signers + best;
    assert (final - (best + signers)) + ((best + signers) - final) == {};
    SubsetSize(best, final);
  }

  lemma {:induction false} GainApart(best: set<nat>, verified: set<nat>, c: set<nat>)
    requires verified <= best && c !! best && best != {} && |c| > 1
    ensures GainOver(Some(Contribution(best)), c, verified).Ok?
    ensures GainOver(Some(Contribution(best)), c, verified).value.added > 0 &&
            GainOver(Some(Contribution(best)), c, verified).value.combined == 0
    ensures |NextBest(best, c, verified)| > |best|
  {
    var final := (c + verified) + best;
    assert c * best == {};
    assert final == best + c && (c + best) + verified == best + c;
    assert (final - (best + c)) + ((best + c) - final) == {};
    DisjointUnionSize(best, c);
  }

  lemma {:induction false} GainAcross(best: set<nat>, verified: set<nat>, c: set<nat>)
    requires verified <= best && !(c !! best) && |c| > 1
    ensures GainOver(Some(Contribution(best)), c, verified).Ok?
    ensures GainOver(Some(Contribution(best)), c, verified).value.added > 0 <==> |NextBest(best, c, verified)| > |best|
    ensures GainOver(Some(Contribution(best)), c, verified).value.combined <= |c + verified|
  {
    var x :| x in c && x in best;
    assert x in c * best;
    UnionSize(c, verified);
  }

  /** For an aggregate, the estimated gain is positive exactly when merging yields something larger. */
  lemma {:induction false} GainOfAggregate(best: set<nat>, verified: set<nat>, c: set<nat>, range: set<nat>)
    requires verified <= best <= range && c <= range && |c| > 1
    ensures var b := BestOption(best);
            && GainOver(b, c, verified).Ok?
            && (GainOver(b, c, verified).value.added > 0 <==> |NextBest(best, c, verified)| > |best|)
            && GainOver(b, c, verified).value.combined <= |range|
  {
    SubsetSize(c + verified, range);
    if best == {} {
      assert (c + best) + verified == c + verified == c;
    } else if c !! best {
      GainApart(best, verified, c);
    } else {
      GainAcross(best, verified, c);
    }
  }

  lemma {:induction false} NoGainInside(best: set<nat>, c: set<nat>, verified: set<nat>)
    requires verified <= best && {} != c <= best
    ensures NextBest(best, c, verified) == best
  {
    SubsetSize(c + VerifiedWith(verified, c), best);
  }

  lemma {:induction false} ScoreInside(s: Store, weights: map<nat, nat>, c: Contribution, level: nat)
    requires level < |s.individuals| == |s.verified|
    requires level in s.best && c.contributors <= s.best[level].contributors
    ensures Evaluate(s, weights, c, level) == Ok(0)
  {
  }

  function BestOption(best: set<nat>): Option<Contribution> {
    if best == {} then None else Some(Contribution(best))
  }

  /** A contribution with news for its level is scored by its estimated gain. */
  lemma {:induction false} ScoreOutside(s: Store, weights: map<nat, nat>, c: Contribution, level: nat, g: Gain)
    requires level < |s.individuals| == |s.verified|
    requires level in s.best ==> s.best[level].contributors != {}
    requires s.verified[level] == s.individuals[level].Keys && s.verified[level] <= BestAt(s.best, level)
    requires !(c.contributors <= BestAt(s.best, level)) && |BestAt(s.best, level)| != LevelSize(level)
    requires GainOver(BestOption(BestAt(s.best, level)),
                      if c.NumContributors() == 1 then s.verified[level] + c.contributors else c.contributors,
                      s.verified[level]) == Ok(g)
    ensures Evaluate(s, weights, c, level) == Score(g, level, LevelSize(level), IndividualWeight(weights, c))
  {
  }

  lemma {:induction false} GainOutside(best: set<nat>, verified: set<nat>, c: set<nat>, range: set<nat>)
    returns (g: Gain)
    requires verified <= best <= range && c <= range && !(c <= best)
    ensures GainOver(BestOption(best), if |c| == 1 then verified + c else c, verified) == Ok(g)
    ensures g.combined <= |range|
    ensures |c| == 1 || g.added > 0 <==> |NextBest(best, c, verified)| > |best|
  {
    if |c| == 1 {
      var id :| id in c;
      Singleton(c, id);
      GainOfIndividual(best, verified, id, range);
    } else {
      var x :| x in c;
      SubsetSize({x}, c);
      GainOfAggregate(best, verified, c, range);
    }
    g := GainOver(BestOption(best), if |c| == 1 then verified + c else c, verified).value;
  }

  /**
   * For a nonempty contribution inside the range of its level, no subtraction goes below zero, and
   * the score is positive exactly when putting the contribution would enlarge the level's best.
   */
  lemma {:induction false} EvaluatePredictsPut(ranges: seq<set<nat>>, s: Store, weights: map<nat, nat>, c: Contribution,
                                               level: nat)
    requires StoreInv(ranges, s) && level < |ranges|
    requires RangeFits(ranges[level], level) && WeightsPositive(weights, ranges[level])
    requires {} != c.contributors <= ranges[level]
    ensures Evaluate(s, weights, c, level).Ok? && PutInto(s, c, level).Ok?
    ensures Evaluate(s, weights, c, level).value > 0 <==>
            |BestAt(PutInto(s, c, level).value.best, level)| > |BestAt(s.best, level)|
  {
    PutKeepsInv(ranges, s, c, level);
    ScorePredictsNextBest(s, weights, c, level, ranges[level]);
  }

  lemma {:induction false} ScorePredictsNextBest(s: Store, weights: map<nat, nat>, c: Contribution, level: nat,
                                                 range: set<nat>)
    requires level < |s.verified| == |s.individuals|
    requires CellInv(s.verified[level], s.individuals[level], BestAt(s.best, level))
    requires level in s.best ==> s.best[level].contributors != {}
    requires BestAt(s.best, level) <= range && {} != c.contributors <= range
    requires RangeFits(range, level) && WeightsPositive(weights, range)
    ensures Evaluate(s, weights, c, level).Ok?
    ensures Evaluate(s, weights, c, level).value > 0 <==>
            |NextBest(BestAt(s.best, level), c.contributors, s.verified[level])| > |BestAt(s.best, level)|
  {
    var best, verified := BestAt(s.best, level), s.verified[level];
    if c.contributors <= best {
      NoGainInside(best, c.contributors, verified);
      ScoreInside(s, weights, c, level);
    } else {
      SmallerThanRange(best, c.contributors, range);
      var g := GainOutside(best, verified, c.contributors, range);
      ScoreOutside(s, weights, c, level, g);
      ScoreOk(g, level, LevelSize(level), IndividualWeight(weights, c));
    }
  }

  lemma {:induction false} SmallerThanRange(best: set<nat>, c: set<nat>, range: set<nat>)
    requires best <= range && c <= range && !(c <= best)
    ensures |best| < |range|
  {
    SubsetSize(best, range);
  }
}
