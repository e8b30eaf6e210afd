/** Level updates and the list of contributions still to be aggregated (handel/src/update.rs, handel/src/todo.rs). */
module TodoLists {
  import opened Prelude
  import opened Contributions

  /** A message between two nodes; level and origin travel as one and two bytes. */
  datatype LevelUpdate = LevelUpdate(aggregate: Contribution, individual: Option<Contribution>, level: nat,
                                     origin: nat) {

    static function New(aggregate: Contribution, individual: Option<Contribution>, level: nat, origin: nat)
      : LevelUpdate {
      LevelUpdate(aggregate, individual, level % 0x100, origin % 0x1_0000)
    }
  }

  datatype TodoItem = TodoItem(contribution: Contribution, level: nat)

  /**
   * The evaluator as the list sees it: a score for an item, and whether an identifier belongs to a
   * level; either may panic. It does not change while the list is polled.
   */
  type Scorer = TodoItem -> Outcome<nat>
  type Membership = (nat, nat) -> Outcome<bool>

  predicate Useful(score: Scorer, item: TodoItem) {
    score(item).Ok? && score(item).value > 0
  }

  /** The items of one update, none unless its sender is a peer of the receiver at that level. */
  function ItemsOf(contains: Membership, u: LevelUpdate): Outcome<seq<TodoItem>> {
    var known :- contains(u.level, u.origin);
    if !known then Ok([])
    else Ok([TodoItem(u.aggregate, u.level)] +
            if u.individual.Some? then [TodoItem(u.individual.value, u.level)] else [])
  }

  /** The items of a batch of updates in order of arrival. */
  function Offered(contains: Membership, input: seq<LevelUpdate>): Outcome<seq<TodoItem>> {
    if input == [] then Ok([])
    else
      var before :- Offered(contains, input[..|input| - 1]);
      var last :- ItemsOf(contains, input[|input| - 1]);
      Ok(before + last)
  }

  /**
   * The result of scoring every item of `seen` once: `best` has the highest score, useless items
   * are gone, and all other useful items are retained. The best one is retained as well only when
   * it was seen more than once.
   */
  ghost predicate Picked(score: Scorer, seen: multiset<TodoItem>, best: Option<TodoItem>, retained: set<TodoItem>) {
    && (forall i :: i in seen ==> score(i).Ok?)
    && (forall i :: i in retained ==> i in seen && Useful(score, i))
    && (forall i :: i in seen && Useful(score, i) ==> i in retained || best == Some(i))
    && match best
       case None => retained == {}
       case Some(b) =>
         && b in seen && Useful(score, b)
         && (forall i :: i in seen ==> score(i).value <= score(b).value)
         && (b in retained <==> seen[b] > 1)
  }

  function BestScore(score: Scorer, best: Option<TodoItem>): nat {
    if best.Some? && score(best.value).Ok? then score(best.value).value else 0
  }

  /** Polling panics on an update for a level that does not exist and where scoring panics. */
  ghost predicate PollSucceeds(score: Scorer, contains: Membership, list: set<TodoItem>, input: seq<LevelUpdate>) {
    && Offered(contains, input).Ok?
    && forall i :: i in list || i in Offered(contains, input).value ==> score(i).Ok?
  }

  lemma {:induction false} BothItems(seen: multiset<TodoItem>, a: TodoItem, b: TodoItem)
    ensures seen + multiset{a} + multiset{b} == seen + multiset([a] + [b])
  {
    assert multiset([a] + [b]) == multiset{a} + multiset{b};
  }

  class TodoList {
    var list: set<TodoItem>

    constructor ()
      ensures list == {}
    {
      list := {};
    }

    /** Scores one item and keeps the better of it and the best so far; false where scoring panics. */
    static method Consider(score: Scorer, item: TodoItem, best: Option<TodoItem>, bestScore: nat,
                           retained: set<TodoItem>, ghost seen: multiset<TodoItem>)
      returns (ok: bool, best': Option<TodoItem>, bestScore': nat, retained': set<TodoItem>)
      requires Picked(score, seen, best, retained) && bestScore == BestScore(score, best)
      ensures ok <==> score(item).Ok?
      ensures ok ==> Picked(score, seen + multiset{item}, best', retained') && bestScore' == BestScore(score, best')
    {
      best', bestScore', retained' := best, bestScore, retained;
      var points := score(item);
      if points.Panic? {
        return false, best', bestScore', retained';
      }
      if points.value > 0 {
        if points.value > bestScore {
          if best.Some? {
            retained' := retained' + {best.value};
          }
          best', bestScore' := Some(item), points.value;
        } else {
          retained' := retained' + {item};
        }
      }
      return true, best', bestScore', retained';
    }

    /** Scores the items already in the list again, dropping those that have become useless. */
    method Rescore(score: Scorer) returns (ok: bool, best: Option<TodoItem>, bestScore: nat)
      modifies this
      ensures ok <==> forall i :: i in old(list) ==> score(i).Ok?
      ensures ok ==> Picked(score, multiset(old(list)), best, list) && bestScore == BestScore(score, best)
    {
      var retained: set<TodoItem>;
      ok, best, bestScore, retained := true, None, 0, {};
      var rest := list;
      ghost var done: set<TodoItem> := {};
      while rest != {}
        invariant done + rest == list == old(list) && done !! rest && ok
        invariant Picked(score, multiset(done), best, retained) && bestScore == BestScore(score, best)
        decreases rest
      {
        var item :| item in rest;
        ok, best, bestScore, retained := Consider(score, item, best, bestScore, retained, multiset(done));
        if !ok {
          return;
        }
        AddToMultiset(done, item);
        rest, done := rest - {item}, done + {item};
      }
      PickedScores(score, multiset(done), best, retained);
      list := retained;
    }

    /** Scores the items of one update. */
    method TakeIn(score: Scorer, contains: Membership, u: LevelUpdate, best: Option<TodoItem>, bestScore: nat,
                  ghost seen: multiset<TodoItem>)
      returns (ok: bool, best': Option<TodoItem>, bestScore': nat)
      requires Picked(score, seen, best, list) && bestScore == BestScore(score, best)
      modifies this
      ensures ok <==> ItemsOf(contains, u).Ok? && forall i :: i in ItemsOf(contains, u).value ==> score(i).Ok?
      ensures ok ==>
                Picked(score, seen + multiset(ItemsOf(contains, u).value), best', list) &&
                bestScore' == BestScore(score, best')
    {
      ok, best', bestScore' := true, best, bestScore;
      var known := contains(u.level, u.origin);
      if known.Panic? {
        return false, best', bestScore';
      }
      if known.value {
        var aggregate := TodoItem(u.aggregate, u.level);
        ok, best', bestScore', list := Consider(score, aggregate, best', bestScore', list, seen);
        if ok && u.individual.Some? {
          var individual := TodoItem(u.individual.value, u.level);
          ok, best', bestScore', list := Consider(score, individual, best', bestScore', list,
                                                  seen + multiset{aggregate});
          BothItems(seen, aggregate, individual);
        }
      }
    }

    /** Scores the items of all updates that have arrived. */
    method Drain(score: Scorer, contains: Membership, input: seq<LevelUpdate>, best: Option<TodoItem>, bestScore: nat,
                 ghost seen: multiset<TodoItem>)
      returns (ok: bool, best': Option<TodoItem>)
      requires Picked(score, seen, best, list) && bestScore == BestScore(score, best)
      modifies this
      ensures ok <==> DrainSucceeds(score, contains, input)
      ensures ok ==> Picked(score, seen + multiset(Offered(contains, input).value), best', list)
    {
      ok, best' := true, best;
      var score' := bestScore;
      ghost var items, total := [], seen;
      for k := 0 to |input|
        invariant Offered(contains, input[..k]) == Ok(items)
        invariant total == seen + multiset(items) && (forall i :: i in items ==> score(i).Ok?)
        invariant Picked(score, total, best', list) && score' == BestScore(score, best') && ok
      {
        OfferedStep(contains, input, k);
        ok, best', score' := TakeIn(score, contains, input[k], best', score', total);
        if !ok {
          DrainFails(score, contains, input, k);
          return;
        }
        ghost var more := ItemsOf(contains, input[k]).value;
        AppendMultiset(seen, items, more);
        items, total := items + more, total + multiset(more);
      }
      assert input[..|input|] == input;
    }

    /** Takes in a batch of updates and returns the most useful item, if there is one. */
    method PollNext(score: Scorer, contains: Membership, input: seq<LevelUpdate>) returns (r: Outcome<Option<TodoItem>>)
      modifies this
      ensures r.Ok? <==> PollSucceeds(score, contains, old(list), input)
      ensures r.Ok? ==> Picked(score, multiset(old(list)) + multiset(Offered(contains, input).value), r.value, list)
    {
      ghost var before := list;
      var ok, best, bestScore := Rescore(score);
      if !ok {
        return Panic;
      }
      ok, best := Drain(score, contains, input, best, bestScore, multiset(before));
      return if ok then Ok(best) else Panic;
    }
  }

  ghost predicate DrainSucceeds(score: Scorer, contains: Membership, input: seq<LevelUpdate>) {
    Offered(contains, input).Ok? && forall i :: i in Offered(contains, input).value ==> score(i).Ok?
  }

  lemma {:induction false} DrainFails(score: Scorer, contains: Membership, input: seq<LevelUpdate>, k: nat)
    requires k < |input|
    requires !(ItemsOf(contains, input[k]).Ok? && forall i :: i in ItemsOf(contains, input[k]).value ==> score(i).Ok?)
    ensures !DrainSucceeds(score, contains, input)
  {
    OfferedStep(contains, input, k);
    OfferedPrefix(contains, input, k);
    OfferedPrefix(contains, input, k + 1);
    if Offered(contains, input).Ok? && ItemsOf(contains, input[k]).Ok? {
      var all, upTo := Offered(contains, input).value, Offered(contains, input[..k + 1]).value;
      forall i | i in ItemsOf(contains, input[k]).value
        ensures i in all
      {
        assert i in Offered(contains, input[..k]).value + ItemsOf(contains, input[k]).value;
        assert i in upTo;
        var j :| 0 <= j < |upTo| && upTo[j] == i;
        assert all[j] == i;
      }
    }
  }

  lemma {:induction false} AppendMultiset(seen: multiset<TodoItem>, a: seq<TodoItem>, b: seq<TodoItem>)
    ensures (seen + multiset(a)) + multiset(b) == seen + multiset(a + b)
  {
  }

  lemma {:induction false} AddToMultiset(done: set<TodoItem>, item: TodoItem)
    requires item !in done
    ensures multiset(done + {item}) == multiset(done) + multiset{item}
  {
  }

  lemma {:induction false} PickedScores(score: Scorer, seen: multiset<TodoItem>, best: Option<TodoItem>,
                                        retained: set<TodoItem>)
    requires Picked(score, seen, best, retained)
    ensures forall i :: i in seen ==> score(i).Ok?
  {
  }

  lemma {:induction false} OfferedStep(contains: Membership, input: seq<LevelUpdate>, k: nat)
    requires k < |input|
    ensures Offered(contains, input[..k]).Ok? ==>
              if ItemsOf(contains, input[k]).Panic? then Offered(contains, input[..k + 1]).Panic?
              else Offered(contains, input[..k + 1]) ==
                   Ok(Offered(contains, input[..k]).value + ItemsOf(contains, input[k]).value)
  {
    assert input[..k + 1][..k] == input[..k];
  }

  /** A panic while reading a prefix of the input is a panic of the whole; items of a prefix stay. */
  lemma {:induction false} OfferedPrefix(contains: Membership, input: seq<LevelUpdate>, k: nat)
    requires k <= |input|
    ensures Offered(contains, input[..k]).Panic? ==> Offered(contains, input).Panic?
    ensures Offered(contains, input).Ok? ==> Offered(contains, input[..k]).value <= Offered(contains, input).value
    decreases |input|
  {
    if k < |input| {
      var shorter := input[..|input| - 1];
      OfferedPrefix(contains, shorter, k);
      assert shorter[..k] == input[..k];
    } else {
      assert input[..k] == input;
    }
  }
}
