/** Contributions and the contract `combine` is written against (handel/src/contribution.rs). */
module Contributions {
  import opened Prelude
  import opened Sets

  /** A contribution carries the identifiers of everyone who signed it. */
  datatype Contribution = Contribution(contributors: set<nat>) {

    function NumContributors(): nat {
      |contributors|
    }

    /** The only contributor; the program asserts that there is exactly one. */
    function Contributor(): (id: nat)
      requires NumContributors() == 1
      ensures contributors == {id}
    {
      AllEqual(contributors);
      var id :| id in contributors;
      id
    }

    /** Aggregates two disjoint contributions, or reports the overlap and changes nothing. */
    function Combine(other: Contribution): Result<Contribution, set<nat>> {
      if contributors !! other.contributors then
        Success(Contribution(contributors + other.contributors))
      else
        Failure(contributors * other.contributors)
    }
  }

  lemma {:induction false} AllEqual(s: set<nat>)
    requires |s| == 1
    ensures exists x :: x in s && s == {x}
  {
    var x :| x in s;
    Singleton(s, x);
  }

  /** Every identifier that signed one of the contributions. */
  function UnionAll(cs: seq<Contribution>): (u: set<nat>)
    ensures forall c :: c in cs ==> c.contributors <= u
  {
    if cs == [] then {} else UnionAll(cs[..|cs| - 1]) + cs[|cs| - 1].contributors
  }

  predicate PairwiseDisjoint(cs: seq<Contribution>) {
    forall i, j :: 0 <= i < j < |cs| ==> cs[i].contributors !! cs[j].contributors
  }

  lemma {:induction false} InUnion(cs: seq<Contribution>, x: nat)
    requires x in UnionAll(cs)
    ensures exists i :: 0 <= i < |cs| && x in cs[i].contributors
  {
    var last := |cs| - 1;
    if x !in cs[last].contributors {
      InUnion(cs[..last], x);
      var i :| 0 <= i < last && x in cs[..last][i].contributors;
      assert x in cs[i].contributors;
    }
  }

  /** The aggregate of a list of contributions: a panic as soon as two of them overlap. */
  function CombineAll(cs: seq<Contribution>): Outcome<Option<Contribution>> {
    if cs == [] then Ok(None)
    else if PairwiseDisjoint(cs) then Ok(Some(Contribution(UnionAll(cs))))
    else Panic
  }
}
