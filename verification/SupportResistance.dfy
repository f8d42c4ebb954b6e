/** Clustering of support and resistance prices: sort by price, then a greedy scan
    against the running mean of the last cluster. */
module SupportResistance {
  import opened Rounding
  import opened Sequences

  /** One detected extremum. */
  datatype Touch = Touch(price: real, isResistance: bool)

  datatype SrLevel = SrLevel(price: real, isResistance: bool, touchCount: nat)

  ghost predicate Positive(s: seq<Touch>) {
    forall i | 0 <= i < |s| :: s[i].price > 0.0
  }

  ghost predicate Ascending(s: seq<Touch>) {
    forall i, j | 0 <= i < j < |s| :: s[i].price <= s[j].price
  }

  // ----- The stable sort by price -----

  /** Behind all touches that are not above `x`. */
  function Insert(x: Touch, s: seq<Touch>): seq<Touch> {
    if s == [] || s[|s| - 1].price <= x.price then s + [x]
    else Insert(x, s[..|s| - 1]) + [s[|s| - 1]]
  }

  function Sorted(s: seq<Touch>): seq<Touch> {
    if s == [] then [] else Insert(s[|s| - 1], Sorted(s[..|s| - 1]))
  }

  // ----- Clusters -----

  function Sum(c: seq<Touch>): real {
    if c == [] then 0.0 else Sum(c[..|c| - 1]) + c[|c| - 1].price
  }

  function Mean(c: seq<Touch>): real
    requires c != []
  {
    Sum(c) / |c| as real
  }

  /** Within `tolerance` percent of the mean; the quotient by a zero mean is no number. */
  predicate Near(price: real, mean: real, tolerance: real) {
    mean != 0.0 && Abs(price - mean) / mean * 100.0 <= tolerance
  }

  /** One step of the scan. */
  function Place(cs: seq<seq<Touch>>, x: Touch, tolerance: real): (r: seq<seq<Touch>>)
    requires NoneEmpty(cs)
    ensures NoneEmpty(r) && r != []
  {
    if cs != [] && Near(x.price, Mean(cs[|cs| - 1]), tolerance) then cs[..|cs| - 1] + [cs[|cs| - 1] + [x]]
    else cs + [[x]]
  }

  function Greedy(s: seq<Touch>, tolerance: real): (cs: seq<seq<Touch>>)
    ensures NoneEmpty(cs) && (s != [] ==> cs != [])
  {
    if s == [] then [] else Place(Greedy(s[..|s| - 1], tolerance), s[|s| - 1], tolerance)
  }

  function ResistanceCount(c: seq<Touch>): (n: nat)
    ensures n <= |c|
  {
    if c == [] then 0 else ResistanceCount(c[..|c| - 1]) + (if c[|c| - 1].isResistance then 1 else 0)
  }

  /** The published level of a cluster: rounded mean, majority vote, size. */
  function LevelOf(c: seq<Touch>): SrLevel
    requires c != []
  {
    SrLevel(Round(Mean(c), 10000.0), ResistanceCount(c) as real >= |c| as real / 2.0, |c|)
  }

  function Levels(cs: seq<seq<Touch>>): (ls: seq<SrLevel>)
    requires NoneEmpty(cs)
    ensures |ls| == |cs| && forall i | 0 <= i < |cs| :: ls[i] == LevelOf(cs[i])
  {
    seq(|cs|, i requires 0 <= i < |cs| => LevelOf(cs[i]))
  }

  // ----- Sorting: ascending, a permutation, stable -----

  lemma {:induction false} InsertPermutes(x: Touch, s: seq<Touch>)
    ensures multiset(Insert(x, s)) == multiset(s) + multiset{x}
  {
    if s != [] && s[|s| - 1].price > x.price {
      InsertPermutes(x, s[..|s| - 1]);
      assert s == s[..|s| - 1] + [s[|s| - 1]];
    }
  }

  lemma {:induction false} InsertSorts(x: Touch, s: seq<Touch>)
    requires Ascending(s)
    ensures Ascending(Insert(x, s))
  {
    if s != [] && s[|s| - 1].price > x.price {
      var t, y := s[..|s| - 1], s[|s| - 1];
      InsertSorts(x, t);
      InsertPermutes(x, t);
      forall i | 0 <= i < |Insert(x, t)| ensures Insert(x, t)[i].price <= y.price {
        assert Insert(x, t)[i] in multiset(t) + multiset{x};
      }
    }
  }

  lemma {:induction false} SortedPermutes(s: seq<Touch>)
    ensures Ascending(Sorted(s)) && multiset(Sorted(s)) == multiset(s) && |Sorted(s)| == |s|
  {
    if s != [] {
      SortedPermutes(s[..|s| - 1]);
      InsertSorts(s[|s| - 1], Sorted(s[..|s| - 1]));
      InsertPermutes(s[|s| - 1], Sorted(s[..|s| - 1]));
      assert s == s[..|s| - 1] + [s[|s| - 1]];
    }
    assert |Sorted(s)| == |multiset(Sorted(s))| == |multiset(s)| == |s|;
  }

  /** The touches at one price. */
  function At(s: seq<Touch>, price: real): seq<Touch> {
    if s == [] then []
    else At(s[..|s| - 1], price) + (if s[|s| - 1].price == price then [s[|s| - 1]] else [])
  }

  lemma {:induction false} InsertStable(x: Touch, s: seq<Touch>, price: real)
    requires Ascending(s)
    ensures At(Insert(x, s), price) == At(s + [x], price)
  {
    assert (s + [x])[..|s|] == s;
    if s != [] && s[|s| - 1].price > x.price {
      var t, y := s[..|s| - 1], s[|s| - 1];
      InsertStable(x, t, price);
      assert (t + [x])[..|t|] == t;
      assert Insert(x, s)[..|Insert(x, s)| - 1] == Insert(x, t);
    }
  }

  /** Equal prices keep their order. */
  lemma {:induction false} SortedStable(s: seq<Touch>, price: real)
    ensures At(Sorted(s), price) == At(s, price)
  {
    if s != [] {
      var t := s[..|s| - 1];
      SortedPermutes(t);
      SortedStable(t, price);
      InsertStable(s[|s| - 1], Sorted(t), price);
      assert (Sorted(t) + [s[|s| - 1]])[..|Sorted(t)|] == Sorted(t);
    }
  }

  // ----- The two loops -----

  lemma GreedyOfNothing(tolerance: real)
    ensures Sorted([]) == [] && Greedy([], tolerance) == []
  {
  }

  lemma FirstCluster(s: seq<Touch>, tolerance: real)
    requires s != []
    ensures Greedy(s[..1], tolerance) == [[s[0]]]
  {
    assert s[..1][..0] == [];
    assert Greedy([], tolerance) == [];
  }

  lemma GreedyNext(s: seq<Touch>, i: nat, tolerance: real)
    requires i < |s|
    ensures Greedy(s[..i + 1], tolerance) == Place(Greedy(s[..i], tolerance), s[i], tolerance)
  {
    assert s[..i + 1][..i] == s[..i];
  }

  /** The levels of the greedy partition of the sorted touches. */
  method ClusterLevels(levels: seq<Touch>, tolerance: real) returns (result: seq<SrLevel>)
    ensures result == Levels(Greedy(Sorted(levels), tolerance))
  {
    hide Greedy, Near, LevelOf, Ascending;
    if levels == [] {
      GreedyOfNothing(tolerance);
      return [];
    }
    var sorted := Sorted(levels);
    SortedPermutes(levels);
    var clusters := [[sorted[0]]];
    FirstCluster(sorted, tolerance);
    var i := 1;
    while i < |sorted|
      invariant 1 <= i <= |sorted|
      invariant clusters != [] && NoneEmpty(clusters) && clusters == Greedy(sorted[..i], tolerance)
    {
      var x := sorted[i];
      var last := |clusters| - 1;
      if Near(x.price, Mean(clusters[last]), tolerance) {
        clusters := clusters[last := clusters[last] + [x]];
      } else {
        clusters := clusters + [[x]];
      }
      GreedyNext(sorted, i, tolerance);
      i := i + 1;
    }
    assert sorted[..i] == sorted;
    result := [];
    var k := 0;
    while k < |clusters|
      invariant 0 <= k <= |clusters| && NoneEmpty(clusters)
      invariant result == Levels(clusters)[..k]
    {
      result := result + [LevelOf(clusters[k])];
      k := k + 1;
    }
  }

  // ----- Greedy partitions, described without the scan -----

  ghost predicate IsGreedy(cs: seq<seq<Touch>>, tolerance: real)
    requires NoneEmpty(cs)
  {
    && (forall i, k | 0 <= i < |cs| && 0 < k < |cs[i]| :: Near(cs[i][k].price, Mean(cs[i][..k]), tolerance))
    && (forall i | 0 < i < |cs| :: !Near(cs[i][0].price, Mean(cs[i - 1]), tolerance))
  }

  lemma PartitionOfNothing(tolerance: real)
    ensures Flatten<Touch>([]) == [] && IsGreedy([], tolerance)
  {
  }

  lemma PlaceFlattens(cs: seq<seq<Touch>>, x: Touch, tolerance: real)
    requires NoneEmpty(cs)
    ensures Flatten(Place(cs, x, tolerance)) == Flatten(cs) + [x]
  {
    hide Near, Mean;
    var r := Place(cs, x, tolerance);
    if cs != [] && Near(x.price, Mean(cs[|cs| - 1]), tolerance) {
      assert r[..|cs| - 1] == cs[..|cs| - 1];
    } else {
      assert r[..|cs|] == cs;
    }
  }

  lemma PlaceGreedy(cs: seq<seq<Touch>>, x: Touch, tolerance: real)
    requires NoneEmpty(cs) && IsGreedy(cs, tolerance)
    ensures IsGreedy(Place(cs, x, tolerance), tolerance)
  {
    hide Near, Mean, Flatten;
    var r := Place(cs, x, tolerance);
    if cs != [] && Near(x.price, Mean(cs[|cs| - 1]), tolerance) {
      var n := |cs| - 1;
      assert r[..n] == cs[..n] && r[n] == cs[n] + [x];
      forall i, k | 0 <= i < |r| && 0 < k < |r[i]| ensures Near(r[i][k].price, Mean(r[i][..k]), tolerance) {
        assert k <= |cs[i]| ==> r[i][..k] == cs[i][..k];
        if i == n && k == |cs[n]| { assert r[n][..k] == cs[n]; }
      }
    } else {
      assert r[..|cs|] == cs;
    }
  }

  lemma PlacePartition(cs: seq<seq<Touch>>, x: Touch, tolerance: real)
    requires NoneEmpty(cs) && IsGreedy(cs, tolerance)
    ensures Flatten(Place(cs, x, tolerance)) == Flatten(cs) + [x] && IsGreedy(Place(cs, x, tolerance), tolerance)
  {
    hide Near, Mean, IsGreedy;
    PlaceFlattens(cs, x, tolerance);
    PlaceGreedy(cs, x, tolerance);
  }

  /** The scan computes the one partition into consecutive clusters in which every
      touch is near the mean of those before it in its cluster, and the first of a
      cluster is not near the mean of the cluster before. */
  lemma {:induction false} GreedyPartition(s: seq<Touch>, tolerance: real)
    ensures Flatten(Greedy(s, tolerance)) == s && IsGreedy(Greedy(s, tolerance), tolerance)
  {
    hide Place, IsGreedy, Flatten;
    if s == [] {
      PartitionOfNothing(tolerance);
    } else {
      var t, x := s[..|s| - 1], s[|s| - 1];
      var cs := Greedy(t, tolerance);
      GreedyPartition(t, tolerance);
      PlacePartition(cs, x, tolerance);
      assert s == t + [x];
    }
  }

  lemma TakeSingle(cs: seq<seq<Touch>>, front: seq<seq<Touch>>, x: Touch, tolerance: real)
    requires NoneEmpty(cs) && IsGreedy(cs, tolerance) && cs == front + [[x]] && front == cs[..|cs| - 1]
    ensures NoneEmpty(front) && IsGreedy(front, tolerance) && cs == Place(front, x, tolerance)
    ensures Flatten(cs) == Flatten(front) + [x]
  {
    hide Near, Mean;
    var n := |front|;
    assert cs[n] == [x];
    if front != [] { assert !Near(cs[n][0].price, Mean(cs[n - 1]), tolerance) && cs[n - 1] == front[n - 1]; }
  }

  lemma TakeLast(cs: seq<seq<Touch>>, front: seq<seq<Touch>>, x: Touch, tolerance: real)
    requires NoneEmpty(cs) && IsGreedy(cs, tolerance) && cs != []
    requires var last := cs[|cs| - 1]; |last| > 1 && x == last[|last| - 1] && front == cs[..|cs| - 1] + [last[..|last| - 1]]
    requires NoneEmpty(front)
    ensures cs == Place(front, x, tolerance) && Flatten(cs) == Flatten(front) + [x]
  {
    hide Near, Mean;
    var n := |cs| - 1;
    var last := cs[n];
    assert last == last[..|last| - 1] + [x] && front[..n] == cs[..n];
    assert Near(cs[n][|last| - 1].price, Mean(cs[n][..|last| - 1]), tolerance);
  }

  lemma FrontGreedy(cs: seq<seq<Touch>>, front: seq<seq<Touch>>, tolerance: real)
    requires NoneEmpty(cs) && IsGreedy(cs, tolerance) && cs != [] && |cs[|cs| - 1]| > 1
    requires front == cs[..|cs| - 1] + [cs[|cs| - 1][..|cs[|cs| - 1]| - 1]]
    ensures NoneEmpty(front) && IsGreedy(front, tolerance)
  {
    hide Near, Mean;
    forall i, k | 0 <= i < |front| && 0 < k < |front[i]| ensures Near(front[i][k].price, Mean(front[i][..k]), tolerance) {
      assert front[i][..k] == cs[i][..k];
    }
    forall i | 0 < i < |front| ensures !Near(front[i][0].price, Mean(front[i - 1]), tolerance) {
      assert front[i - 1] == cs[i - 1];
    }
  }

  /** The partition before its last touch was placed. */
  lemma TakeBack(cs: seq<seq<Touch>>, tolerance: real) returns (front: seq<seq<Touch>>, x: Touch)
    requires NoneEmpty(cs) && IsGreedy(cs, tolerance) && cs != []
    ensures NoneEmpty(front) && IsGreedy(front, tolerance)
    ensures cs == Place(front, x, tolerance) && Flatten(cs) == Flatten(front) + [x]
  {
    hide Near, Mean;
    var n := |cs| - 1;
    var last := cs[n];
    x := last[|last| - 1];
    if |last| == 1 {
      front := cs[..n];
      assert last == [x] && cs == front + [[x]];
      TakeSingle(cs, front, x, tolerance);
    } else {
      front := cs[..n] + [last[..|last| - 1]];
      FrontGreedy(cs, front, tolerance);
      TakeLast(cs, front, x, tolerance);
    }
  }

  /** No other partition has this property. */
  lemma {:induction false} GreedyUnique(cs: seq<seq<Touch>>, s: seq<Touch>, tolerance: real)
    requires NoneEmpty(cs) && IsGreedy(cs, tolerance) && Flatten(cs) == s
    ensures cs == Greedy(s, tolerance)
    decreases |s|
  {
    hide Place, IsGreedy, Flatten, NoneEmpty;
    if cs == [] {
      PartitionOfNothing(tolerance);
    } else {
      var front, x := TakeBack(cs, tolerance);
      GreedyUnique(front, Flatten(front), tolerance);
      assert s[..|s| - 1] == Flatten(front);
    }
  }
}
