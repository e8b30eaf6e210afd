/** The in-place operators on packed sets, and when they work (collections/src/bitset.rs). */
module BitSetAssign {
  import opened Bits
  import opened WordBits
  import opened BitSets

  function Shorter(a: seq<nat>, b: seq<nat>): nat {
    if |a| < |b| then |a| else |b|
  }

  /** The words the loop leaves behind: combined where both have words, the left ones kept after that. */
  function AssignedWords(a: seq<nat>, b: seq<nat>, op: Op): seq<nat> {
    Zipped(a, b, op, Shorter(a, b)) + a[Shorter(a, b)..]
  }

  /** The bits the loop counts: those of the combined words, and of the right ones after that. */
  function AssignedCount(a: seq<nat>, b: seq<nat>, op: Op): nat {
    TotalOnes(Zipped(a, b, op, Shorter(a, b))) + TotalOnes(b[Shorter(a, b)..])
  }

  /** Beyond the length of the shorter store there are no members. */
  predicate EqualReach(a: seq<nat>, b: seq<nat>) {
    && (forall i :: Shorter(a, b) <= i < |a| ==> a[i] == 0)
    && (forall i :: Shorter(a, b) <= i < |b| ==> b[i] == 0)
  }

  function Least(i: nat, j: nat): nat {
    if i < j then i else j
  }

  /** The words after i steps of the loop over both stores. */
  ghost function WordsAfter(a: seq<nat>, b: seq<nat>, op: Op, i: nat): seq<nat> {
    Zipped(a, b, op, Least(i, Shorter(a, b))) + a[Least(i, Shorter(a, b))..]
  }

  ghost function CountAfter(a: seq<nat>, b: seq<nat>, op: Op, i: nat): nat {
    TotalOnes(Zipped(a, b, op, Least(i, Shorter(a, b)))) + TotalOnes(b[Least(i, Shorter(a, b))..Least(i, |b|)])
  }

  lemma {:induction false} NoStep(a: seq<nat>, b: seq<nat>, op: Op)
    ensures WordsAfter(a, b, op, 0) == a && CountAfter(a, b, op, 0) == 0
  {
  }

  lemma {:induction false} StepBoth(a: seq<nat>, b: seq<nat>, op: Op, i: nat, words: seq<nat>)
    requires i < |a| && i < |b| && words == WordsAfter(a, b, op, i)
    ensures i < |words| && words[i := op(words[i], b[i])] == WordsAfter(a, b, op, i + 1)
    ensures CountAfter(a, b, op, i + 1) == CountAfter(a, b, op, i) + CountOnes(op(words[i], b[i]))
  {
    Combined(a, b, op, i, words);
    assert b[i..i] == [] && b[i + 1..i + 1] == [];
  }

  lemma {:induction false} StepRight(a: seq<nat>, b: seq<nat>, op: Op, i: nat)
    requires |a| <= i < |b|
    ensures WordsAfter(a, b, op, i + 1) == WordsAfter(a, b, op, i)
    ensures CountAfter(a, b, op, i + 1) == CountAfter(a, b, op, i) + CountOnes(b[i])
  {
    Counted(b, |a|, i);
  }

  lemma {:induction false} AllDone(a: seq<nat>, b: seq<nat>, op: Op, i: nat)
    requires |b| <= i
    ensures WordsAfter(a, b, op, i) == AssignedWords(a, b, op)
    ensures CountAfter(a, b, op, i) == AssignedCount(a, b, op)
  {
    assert b[Shorter(a, b)..|b|] == b[Shorter(a, b)..];
  }

  /** The loop of the in-place operators over both stores. */
  method AssignWords(a: seq<nat>, b: seq<nat>, op: Op) returns (words: seq<nat>, count: nat)
    ensures words == AssignedWords(a, b, op) && count == AssignedCount(a, b, op)
  {
    words, count := a, 0;
    NoStep(a, b, op);
    for i := 0 to Longer(a, b)
      invariant words == WordsAfter(a, b, op, i) && count == CountAfter(a, b, op, i)
    {
      if i < |a| && i < |b| {
        StepBoth(a, b, op, i, words);
        words := words[i := op(words[i], b[i])];
        count := count + CountOnes(words[i]);
      } else if i < |a| {
        AllDone(a, b, op, i);
        return;
      } else {
        StepRight(a, b, op, i);
        count := count + CountOnes(b[i]);
      }
    }
    AllDone(a, b, op, Longer(a, b));
  }

  lemma {:induction false} Counted(b: seq<nat>, n: nat, i: nat)
    requires n <= i < |b|
    ensures TotalOnes(b[n..i + 1]) == TotalOnes(b[n..i]) + CountOnes(b[i])
  {
    assert b[n..i + 1][..i - n] == b[n..i];
  }

  /** An in-place operator. */
  method ApplyOpAssign(a: BitSet, b: BitSet, op: Op, ghost f: (bool, bool) -> bool)
    requires Words(a.store) && Words(b.store) && Bitwise(op, f)
    modifies a
    ensures Words(a.store) && a.store == Compacted(AssignedWords(old(a.store), old(b.store), op))
    ensures a.count == AssignedCount(old(a.store), old(b.store), op)
  {
    AssignedFit(a.store, b.store, op, f);
    var words, count := AssignWords(a.store, b.store, op);
    a.store, a.count := words, count;
    a.Compact();
  }

  lemma {:induction false} AssignedFit(a: seq<nat>, b: seq<nat>, op: Op, f: (bool, bool) -> bool)
    requires Words(a) && Words(b) && Bitwise(op, f)
    ensures Words(AssignedWords(a, b, op))
  {
    ZippedWords(a, b, op, f, Shorter(a, b));
  }

  lemma {:induction false} TotalSplit(s: seq<nat>, t: seq<nat>)
    ensures TotalOnes(s + t) == TotalOnes(s) + TotalOnes(t)
  {
    if t == [] {
      assert s + t == s;
    } else {
      TotalSplit(s, t[..|t| - 1]);
      assert (s + t)[..|s + t| - 1] == s + t[..|t| - 1];
    }
  }

  lemma {:induction false} NoOnes(s: seq<nat>)
    ensures TotalOnes(s) == 0 <==> forall i :: 0 <= i < |s| ==> s[i] == 0
  {
    if s != [] {
      NoOnes(s[..|s| - 1]);
      SomeOnes(s[|s| - 1]);
    }
  }

  lemma {:induction false} NoOnesFrom(s: seq<nat>, n: nat)
    requires n <= |s|
    ensures TotalOnes(s[n..]) == 0 <==> forall i :: n <= i < |s| ==> s[i] == 0
  {
    NoOnes(s[n..]);
    assert forall i :: n <= i < |s| ==> s[i] == s[n..][i - n];
  }

  lemma {:induction false} SomeOnes(w: nat)
    ensures CountOnes(w) == 0 <==> w == 0
  {
    if w > 0 {
      SomeOnes(w / 2);
    }
  }

  /** The kept count is the number of members exactly if neither store reaches beyond the other. */
  lemma {:induction false} CountRightIff(a: seq<nat>, b: seq<nat>, op: Op, f: (bool, bool) -> bool)
    requires Words(a) && Words(b) && Bitwise(op, f)
    ensures AssignedCount(a, b, op) == |Members(AssignedWords(a, b, op))| <==> EqualReach(a, b)
  {
    var n := Shorter(a, b);
    AssignedFit(a, b, op, f);
    MembersSize(AssignedWords(a, b, op));
    TotalSplit(Zipped(a, b, op, n), a[n..]);
    NoOnesFrom(a, n);
    NoOnesFrom(b, n);
  }

  lemma {:induction false} MembersRight(a: seq<nat>, b: seq<nat>, op: Op, f: (bool, bool) -> bool, v: nat)
    requires Bitwise(op, f) && EqualReach(a, b)
    ensures v in Members(AssignedWords(a, b, op)) <==> f(v in Members(a), v in Members(b))
  {
    NoBit(v % 64);
    var i := v / 64;
    assert WordAt(AssignedWords(a, b, op), i) == op(WordAt(a, i), WordAt(b, i));
  }

  /**
   * The in-place operators compute the set operation, with a right count, exactly when all words
   * beyond the length of the shorter store are zero.
   */
  lemma {:induction false} AssignIsRightIff(a: seq<nat>, b: seq<nat>, op: Op, f: (bool, bool) -> bool)
    requires Words(a) && Words(b) && Bitwise(op, f)
    ensures EqualReach(a, b) <==>
            && AssignedCount(a, b, op) == |Members(Compacted(AssignedWords(a, b, op)))|
            && forall v :: v in Members(Compacted(AssignedWords(a, b, op))) <==> f(v in Members(a), v in Members(b))
  {
    CountRightIff(a, b, op, f);
    CompactedMembers(AssignedWords(a, b, op));
    if EqualReach(a, b) {
      forall v: nat
        ensures v in Members(AssignedWords(a, b, op)) <==> f(v in Members(a), v in Members(b))
      {
        MembersRight(a, b, op, f, v);
      }
    }
  }

  lemma {:induction false} Combined(a: seq<nat>, b: seq<nat>, op: Op, i: nat, words: seq<nat>)
    requires i < |a| && i < |b| && words == Zipped(a, b, op, i) + a[i..]
    ensures words[i := op(words[i], b[i])] == Zipped(a, b, op, i + 1) + a[i + 1..]
    ensures TotalOnes(Zipped(a, b, op, i + 1)) == TotalOnes(Zipped(a, b, op, i)) + CountOnes(op(a[i], b[i]))
  {
    assert Zipped(a, b, op, i + 1)[..i] == Zipped(a, b, op, i);
  }

  /** {0} |= {64} does not gain 64. */
  lemma {:induction false} OrAssignMisses()
    ensures 64 in Members([0, 1]) && 64 !in Members(Compacted(AssignedWords([1], [0, 1], BitOr)))
  {
    var words := AssignedWords([1], [0, 1], BitOr);
    assert WordAt([0, 1], 64 / 64) == 1;
    CompactedSame(words, 64);
    assert |words| == 1;
  }
}
