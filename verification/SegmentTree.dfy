/** Segment trees over weighted keys (collections/src/segment_tree.rs). */
module SegmentTrees {
  import opened Prelude

  type Less<!T> = (T, T) -> bool

  ghost predicate LinearOrder<T(!new)>(less: Less<T>) {
    && (forall a :: !less(a, a))
    && (forall a, b, c :: less(a, b) && less(b, c) ==> less(a, c))
    && (forall a, b :: less(a, b) || less(b, a) || a == b)
  }

  type Entries<T> = seq<(T, nat)>

  datatype Range = Range(weight: nat, offset: nat)

  datatype Node<T> = Leaf(key: T, weight: nat) | Branch(key: T, weight: nat, left: Node<T>, right: Node<T>)

  datatype SegmentTree<T> = SegmentTree(root: Option<Node<T>>, size: nat)

  function Sum<T>(e: Entries<T>): nat {
    if e == [] then 0 else Sum(e[..|e| - 1]) + e[|e| - 1].1
  }

  /** The total weight of the first i entries. */
  function Before<T>(e: Entries<T>, i: nat): nat
    requires i <= |e|
  {
    Sum(e[..i])
  }

  ghost predicate Ascending<T(!new)>(e: Entries<T>, less: Less<T>) {
    forall i, j :: 0 <= i < j < |e| ==> less(e[i].0, e[j].0)
  }

  function BuildTree<T>(e: Entries<T>): (r: Option<Node<T>>)
    ensures r.Some? <==> e != []
    decreases |e|
  {
    if |e| == 0 then None
    else if |e| == 1 then Some(Leaf(e[0].0, e[0].1))
    else
      var mid := |e| / 2;
      var left, right := BuildTree(e[..mid]).value, BuildTree(e[mid..]).value;
      Some(Branch(e[mid].0, left.weight + right.weight, left, right))
  }

  function New<T>(e: Entries<T>): SegmentTree<T> {
    SegmentTree(BuildTree(e), |e|)
  }

  lemma {:induction false} SumSplit<T>(s: Entries<T>, t: Entries<T>)
    ensures Sum(s + t) == Sum(s) + Sum(t)
  {
    if t == [] {
      assert s + t == s;
    } else {
      SumSplit(s, t[..|t| - 1]);
      assert (s + t)[..|s + t| - 1] == s + t[..|t| - 1];
    }
  }

  lemma {:induction false} WeightIsSum<T>(e: Entries<T>)
    requires e != []
    ensures BuildTree(e).value.weight == Sum(e)
    decreases |e|
  {
    if |e| == 1 {
      assert e[..0] == [];
    } else {
      var mid := |e| / 2;
      WeightIsSum(e[..mid]);
      WeightIsSum(e[mid..]);
      SumSplit(e[..mid], e[mid..]);
      assert e == e[..mid] + e[mid..];
    }
  }

  lemma {:induction false} BeforeNext<T>(e: Entries<T>, i: nat)
    requires i < |e|
    ensures Before(e, i + 1) == Before(e, i) + e[i].1
  {
    assert e[..i + 1][..i] == e[..i];
  }

  lemma {:induction false} BeforeGrows<T>(e: Entries<T>, i: nat, j: nat)
    requires i <= j <= |e|
    ensures Before(e, i) <= Before(e, j)
    decreases j
  {
    if i < j {
      BeforeGrows(e, i, j - 1);
      BeforeNext(e, j - 1);
    }
  }

  lemma {:induction false} BeforeSlice<T>(e: Entries<T>, i: nat, j: nat)
    requires i <= j <= |e|
    ensures Before(e, j) == Before(e, i) + Sum(e[i..j])
  {
    SumSplit(e[..i], e[i..j]);
    assert e[..j] == e[..i] + e[i..j];
  }

  /** What a linear scan for a key finds from position i on. */
  function ScanGet<T(==)>(e: Entries<T>, key: T, i: nat): Option<Range>
    requires i <= |e|
    decreases |e| - i
  {
    if i == |e| then None
    else if e[i].0 == key then Some(Range(e[i].1, Before(e, i)))
    else ScanGet(e, key, i + 1)
  }

  /** The first key, from position i on, whose interval of points ends beyond the point. */
  function ScanFind<T>(e: Entries<T>, point: int, i: nat): Option<T>
    requires i <= |e|
    decreases |e| - i
  {
    if point < 0 || i == |e| then None
    else if point < Before(e, i + 1) then Some(e[i].0)
    else ScanFind(e, point, i + 1)
  }

  lemma {:induction false} ScanGetAt<T>(e: Entries<T>, key: T, i: nat, k: nat)
    requires i <= k < |e| && e[k].0 == key && forall j :: i <= j < k ==> e[j].0 != key
    ensures ScanGet(e, key, i) == Some(Range(e[k].1, Before(e, k)))
    decreases k - i
  {
    if i < k {
      ScanGetAt(e, key, i + 1, k);
    }
  }

  lemma {:induction false} ScanGetNone<T>(e: Entries<T>, key: T, i: nat)
    requires i <= |e| && forall j :: i <= j < |e| ==> e[j].0 != key
    ensures ScanGet(e, key, i) == None
    decreases |e| - i
  {
    if i < |e| {
      ScanGetNone(e, key, i + 1);
    }
  }

  lemma {:induction false} ScanFindAt<T>(e: Entries<T>, point: int, i: nat, k: nat)
    requires i <= k < |e| && Before(e, k) <= point < Before(e, k + 1)
    ensures ScanFind(e, point, i) == Some(e[k].0)
    decreases k - i
  {
    if i < k {
      BeforeGrows(e, i + 1, k);
      ScanFindAt(e, point, i + 1, k);
    }
  }

  lemma {:induction false} ScanFindNone<T>(e: Entries<T>, point: int, i: nat)
    requires i <= |e| && (point < 0 || point >= Sum(e))
    ensures ScanFind(e, point, i) == None
    decreases |e| - i
  {
    if i < |e| {
      BeforeGrows(e, i + 1, |e|);
      assert e[..|e|] == e;
      ScanFindNone(e, point, i + 1);
    }
  }

  /** The two halves a branch stands for. */
  lemma {:induction false} Halves<T>(e: Entries<T>, lo: nat, hi: nat, node: Node<T>) returns (mid: nat)
    requires lo < hi <= |e| && BuildTree(e[lo..hi]) == Some(node) && node.Branch?
    ensures lo < mid < hi && node.key == e[mid].0
    ensures BuildTree(e[lo..mid]) == Some(node.left) && BuildTree(e[mid..hi]) == Some(node.right)
    ensures node.left.weight == Sum(e[lo..mid]) && node.weight == Sum(e[lo..hi])
  {
    var s := e[lo..hi];
    mid := lo + |s| / 2;
    assert s[..|s| / 2] == e[lo..mid] && s[|s| / 2..] == e[mid..hi];
    WeightIsSum(e[lo..mid]);
    WeightIsSum(s);
  }

  lemma {:induction false} LeafOf<T>(e: Entries<T>, lo: nat, hi: nat, node: Node<T>)
    requires lo < hi <= |e| && BuildTree(e[lo..hi]) == Some(node) && node.Leaf?
    ensures hi == lo + 1 && node == Leaf(e[lo].0, e[lo].1)
  {
  }

  ghost predicate OnlyWithin<T>(e: Entries<T>, key: T, lo: nat, hi: nat) {
    forall i :: 0 <= i < |e| && e[i].0 == key ==> lo <= i < hi
  }

  lemma {:induction false} Narrow<T(!new)>(e: Entries<T>, less: Less<T>, key: T, lo: nat, mid: nat, hi: nat)
    requires LinearOrder(less) && Ascending(e, less) && OnlyWithin(e, key, lo, hi) && lo <= mid < hi <= |e|
    ensures if less(key, e[mid].0) then OnlyWithin(e, key, lo, mid) else OnlyWithin(e, key, mid, hi)
  {
  }

  method Get<T(==, !new)>(tree: SegmentTree<T>, key: T, less: Less<T>, ghost e: Entries<T>) returns (r: Option<Range>)
    requires tree == New(e) && LinearOrder(less) && Ascending(e, less)
    ensures r == ScanGet(e, key, 0)
  {
    if tree.root == None {
      return None;
    }
    var node, offset := tree.root.value, 0;
    ghost var lo, hi := 0, |e|;
    assert e[lo..hi] == e && e[..0] == [];
    while node.Branch?
      invariant lo < hi <= |e| && BuildTree(e[lo..hi]) == Some(node) && offset == Before(e, lo)
      invariant OnlyWithin(e, key, lo, hi)
      decreases node
    {
      ghost var mid := Halves(e, lo, hi, node);
      Narrow(e, less, key, lo, mid, hi);
      if less(key, node.key) {
        node, hi := node.left, mid;
      } else {
        BeforeSlice(e, lo, mid);
        offset := offset + node.left.weight;
        node, lo := node.right, mid;
      }
    }
    LeafOf(e, lo, hi, node);
    if key == node.key {
      ScanGetAt(e, key, 0, lo);
      r := Some(Range(node.weight, offset));
    } else {
      ScanGetNone(e, key, 0);
      r := None;
    }
  }

  method Find<T>(tree: SegmentTree<T>, point: int, ghost e: Entries<T>) returns (r: Option<T>)
    requires tree == New(e)
    ensures r == ScanFind(e, point, 0)
  {
    if point < 0 {
      return None;
    }
    if tree.root == None {
      return None;
    }
    var node, offset := tree.root.value, 0;
    ghost var lo, hi := 0, |e|;
    assert e[lo..hi] == e && e[..0] == [] && e[..|e|] == e;
    while node.Branch?
      invariant lo < hi <= |e| && BuildTree(e[lo..hi]) == Some(node) && offset == Before(e, lo)
      invariant offset <= point && (hi == |e| || point < Before(e, hi))
      decreases node
    {
      ghost var mid := Halves(e, lo, hi, node);
      BeforeSlice(e, lo, hi);
      BeforeSlice(e, lo, mid);
      if point > offset + node.weight {
        ScanFindNone(e, point, 0);
        return None;
      }
      var middle := offset + node.left.weight;
      if point < middle {
        node, hi := node.left, mid;
      } else {
        offset := middle;
        node, lo := node.right, mid;
      }
    }
    LeafOf(e, lo, hi, node);
    BeforeNext(e, lo);
    if point < offset + node.weight {
      ScanFindAt(e, point, 0, lo);
      r := Some(node.key);
    } else {
      ScanFindNone(e, point, 0);
      r := None;
    }
  }

  method TotalRange<T>(tree: SegmentTree<T>, ghost e: Entries<T>) returns (total: nat)
    requires tree == New(e)
    ensures total == Sum(e)
  {
    if tree.root.Some? {
      WeightIsSum(e);
    }
    total := if tree.root.Some? then tree.root.value.weight else 0;
  }

  /** Every point below the total lies in the interval of an entry. */
  lemma {:induction false} IntervalOf<T>(e: Entries<T>, point: int, n: nat) returns (k: nat)
    requires n <= |e| && 0 <= point < Before(e, n)
    ensures k < n && Before(e, k) <= point < Before(e, k + 1)
  {
    BeforeNext(e, n - 1);
    if Before(e, n - 1) <= point {
      k := n - 1;
    } else {
      k := IntervalOf(e, point, n - 1);
    }
  }

  /** Finding a point and getting the key found gives the one range that holds the point. */
  lemma {:induction false} GetInvertsFind<T(!new)>(e: Entries<T>, less: Less<T>, point: int)
    requires LinearOrder(less) && Ascending(e, less)
    ensures ScanFind(e, point, 0).Some? <==> 0 <= point < Sum(e)
    ensures ScanFind(e, point, 0).Some? ==>
              var r := ScanGet(e, ScanFind(e, point, 0).value, 0);
              r.Some? && r.value.offset <= point < r.value.offset + r.value.weight
  {
    if 0 <= point < Sum(e) {
      assert e[..|e|] == e;
      var k := IntervalOf(e, point, |e|);
      ScanFindAt(e, point, 0, k);
      ScanGetAt(e, e[k].0, 0, k);
      BeforeNext(e, k);
    } else {
      ScanFindNone(e, point, 0);
    }
  }

  /** Every point of the range a key gets is found to be that key's. */
  lemma {:induction false} FindInvertsGet<T(!new)>(e: Entries<T>, less: Less<T>, key: T, point: int)
    requires LinearOrder(less) && Ascending(e, less) && ScanGet(e, key, 0).Some?
    requires var r := ScanGet(e, key, 0).value; r.offset <= point < r.offset + r.weight
    ensures ScanFind(e, point, 0) == Some(key)
  {
    if k :| 0 <= k < |e| && e[k].0 == key {
      ScanGetAt(e, key, 0, k);
      BeforeNext(e, k);
      ScanFindAt(e, point, 0, k);
    } else {
      ScanGetNone(e, key, 0);
    }
  }
}
