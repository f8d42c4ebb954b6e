/** What the clusters of positive prices promise: their means are apart, equal
    prices stay together, and the order of the input does not matter. */
module SupportResistanceLaws {
  import opened Rounding
  import opened Sequences
  import opened SupportResistance

  // ----- Means -----

  lemma {:induction false} SumBounds(c: seq<Touch>, lo: real, hi: real)
    requires forall i | 0 <= i < |c| :: lo <= c[i].price <= hi
    ensures lo * |c| as real <= Sum(c) <= hi * |c| as real
  {
    if c != [] {
      SumBounds(c[..|c| - 1], lo, hi);
    }
  }

  lemma MeanBounds(c: seq<Touch>, lo: real, hi: real)
    requires c != [] && forall i | 0 <= i < |c| :: lo <= c[i].price <= hi
    ensures lo <= Mean(c) <= hi
  {
    SumBounds(c, lo, hi);
    var n := |c| as real;
    DivMonotone(lo * n, Sum(c), n);
    DivMonotone(Sum(c), hi * n, n);
    assert lo * n / n == lo && hi * n / n == hi;
  }

  // ----- Clusters of an ascending list -----

  /** Earlier clusters hold no higher prices. */
  lemma {:induction false} ClustersAscend(cs: seq<seq<Touch>>, i: nat, a: nat, j: nat, b: nat)
    requires Ascending(Flatten(cs)) && i <= j < |cs| && a < |cs[i]| && b < |cs[j]| && (i == j ==> a < b)
    ensures cs[i][a].price <= cs[j][b].price
  {
    var n := |cs| - 1;
    var front := Flatten(cs[..n]);
    assert forall k | 0 <= k < |front| :: Flatten(cs)[k] == front[k];
    if j < n {
      ClustersAscend(cs[..n], i, a, j, b);
    } else {
      assert Flatten(cs)[|front| + b] == cs[n][b];
      if i < n {
        var p := InFlatten(cs[..n], i, a);
        assert Flatten(cs)[p] == cs[i][a];
      } else {
        assert Flatten(cs)[|front| + a] == cs[n][a];
      }
    }
  }

  lemma ClustersPositive(cs: seq<seq<Touch>>, i: nat, a: nat)
    requires Positive(Flatten(cs)) && i < |cs| && a < |cs[i]|
    ensures cs[i][a].price > 0.0
  {
    var p := InFlatten(cs, i, a);
  }

  /** A cluster's mean lies between its ends. */
  lemma MeanInside(cs: seq<seq<Touch>>, i: nat)
    requires NoneEmpty(cs) && Ascending(Flatten(cs)) && Positive(Flatten(cs)) && i < |cs|
    ensures 0.0 < cs[i][0].price <= Mean(cs[i]) <= cs[i][|cs[i]| - 1].price
  {
    var c := cs[i];
    ClustersPositive(cs, i, 0);
    forall k | 0 <= k < |c| ensures c[0].price <= c[k].price <= c[|c| - 1].price {
      if k > 0 { ClustersAscend(cs, i, 0, i, k); }
      if k < |c| - 1 { ClustersAscend(cs, i, k, i, |c| - 1); }
    }
    MeanBounds(c, c[0].price, c[|c| - 1].price);
  }

  // ----- Separation -----

  ghost predicate Apart(a: real, b: real, tolerance: real) {
    b > a * (1.0 + tolerance / 100.0)
  }

  lemma NotNear(x: real, m: real, tolerance: real)
    requires 0.0 < m <= x
    ensures Near(x, m, tolerance) <==> !Apart(m, x, tolerance)
  {
    var d := (x - m) / m;
    assert d * m == x - m;
    if d * 100.0 <= tolerance {
      MulMonotone(d, tolerance / 100.0, m);
    } else {
      assert (d - tolerance / 100.0) * m > 0.0;
    }
  }

  /** Consecutive means differ by more than the tolerance. */
  lemma MeansApart(s: seq<Touch>, tolerance: real, i: nat)
    requires Ascending(s) && Positive(s) && 0 < i < |Greedy(s, tolerance)|
    ensures var cs := Greedy(s, tolerance); Apart(Mean(cs[i - 1]), Mean(cs[i]), tolerance)
  {
    hide Greedy, Mean, Near, Flatten;
    var cs: seq<seq<Touch>> := Greedy(s, tolerance);
    GreedyPartition(s, tolerance);
    MeanInside(cs, i - 1);
    MeanInside(cs, i);
    ClustersAscend(cs, i - 1, |cs[i - 1]| - 1, i, 0);
    NotNear(cs[i][0].price, Mean(cs[i - 1]), tolerance);
    assert !Near(cs[i][0].price, Mean(cs[i - 1]), tolerance);
  }

  /** Any two means differ by more than the tolerance. */
  lemma {:induction false} AllMeansApart(s: seq<Touch>, tolerance: real, i: nat, j: nat)
    requires Ascending(s) && Positive(s) && tolerance >= 0.0 && i < j < |Greedy(s, tolerance)|
    ensures var cs := Greedy(s, tolerance); Apart(Mean(cs[i]), Mean(cs[j]), tolerance)
    decreases j
  {
    hide Greedy, Mean;
    var cs: seq<seq<Touch>> := Greedy(s, tolerance);
    MeansApart(s, tolerance, j);
    if i < j - 1 {
      AllMeansApart(s, tolerance, i, j - 1);
      GreedyPartition(s, tolerance);
      MeanInside(cs, i);
      MeanInside(cs, j - 1);
      MulMonotone(1.0, 1.0 + tolerance / 100.0, Mean(cs[j - 1]));
    }
  }

  lemma MeansNotNear(s: seq<Touch>, tolerance: real, i: nat)
    requires Ascending(s) && Positive(s) && tolerance >= 0.0 && 0 < i < |Greedy(s, tolerance)|
    ensures var cs := Greedy(s, tolerance); !Near(Mean(cs[i]), Mean(cs[i - 1]), tolerance)
  {
    hide Greedy, Mean, Near;
    var cs: seq<seq<Touch>> := Greedy(s, tolerance);
    MeansApart(s, tolerance, i);
    GreedyPartition(s, tolerance);
    MeanInside(cs, i - 1);
    MulMonotone(1.0, 1.0 + tolerance / 100.0, Mean(cs[i - 1]));
    NotNear(Mean(cs[i]), Mean(cs[i - 1]), tolerance);
  }

  ghost function Singles(s: seq<Touch>): (cs: seq<seq<Touch>>)
    ensures NoneEmpty(cs)
  {
    seq(|s|, i requires 0 <= i < |s| => [s[i]])
  }

  lemma MeanOfSingle(x: Touch)
    ensures Mean([x]) == x.price
  {
    assert [x][..0] == [];
    assert Sum([x]) == Sum([x][..0]) + x.price;
    assert |[x]| as real == 1.0 && x.price / 1.0 == x.price;
  }

  lemma {:induction false} FlattenSingles(s: seq<Touch>)
    ensures Flatten(Singles(s)) == s
  {
    if s != [] {
      var n := |s| - 1;
      FlattenSingles(s[..n]);
      assert Singles(s)[..n] == Singles(s[..n]);
    }
  }

  /** Clustering the means again gives one cluster per mean. */
  lemma ReclusteringIsIdle(s: seq<Touch>, tolerance: real, means: seq<Touch>)
    requires Ascending(s) && Positive(s) && tolerance >= 0.0
    requires |means| == |Greedy(s, tolerance)| && forall i | 0 <= i < |means| :: means[i].price == Mean(Greedy(s, tolerance)[i])
    ensures Greedy(means, tolerance) == Singles(means)
  {
    hide Greedy, Mean, Near;
    var singles: seq<seq<Touch>> := Singles(means);
    forall i | 0 < i < |singles| ensures !Near(singles[i][0].price, Mean(singles[i - 1]), tolerance) {
      MeansNotNear(s, tolerance, i);
      MeanOfSingle(means[i - 1]);
    }
    FlattenSingles(means);
    GreedyUnique(singles, means, tolerance);
  }

  // ----- Equal prices -----

  lemma MeanGrows(sum: real, n: real, p: real)
    requires n > 0.0 && sum / n <= p
    ensures sum / n <= (sum + p) / (n + 1.0)
  {
    var m := sum / n;
    assert m * n == sum;
    DivMonotone(m * (n + 1.0), sum + p, n + 1.0);
    assert m * (n + 1.0) / (n + 1.0) == m;
  }

  lemma NearKept(p: real, m: real, m': real, tolerance: real)
    requires 0.0 < m <= m' <= p && Near(p, m, tolerance) && tolerance >= 0.0
    ensures Near(p, m', tolerance)
  {
    NotNear(p, m, tolerance);
    NotNear(p, m', tolerance);
    MulMonotone(m, m', 1.0 + tolerance / 100.0);
  }

  /** The last price of a cluster is near the mean of the whole cluster as well. */
  lemma LastIsNear(cs: seq<seq<Touch>>, i: nat, tolerance: real)
    requires NoneEmpty(cs) && IsGreedy(cs, tolerance) && Ascending(Flatten(cs)) && Positive(Flatten(cs))
    requires i < |cs| && tolerance >= 0.0
    ensures Near(cs[i][|cs[i]| - 1].price, Mean(cs[i]), tolerance)
  {
    var c := cs[i];
    var k := |c| - 1;
    var p := c[k].price;
    MeanInside(cs, i);
    if k == 0 {
      assert c == [c[0]];
      MeanOfSingle(c[0]);
    } else {
      assert Near(c[k].price, Mean(c[..k]), tolerance);
      forall m | 0 <= m < k ensures c[0].price <= c[m].price <= p {
        ClustersAscend(cs, i, m, i, k);
        if m > 0 { ClustersAscend(cs, i, 0, i, m); }
      }
      MeanBounds(c[..k], c[0].price, p);
      MeanGrows(Sum(c[..k]), k as real, p);
      NearKept(p, Mean(c[..k]), Mean(c), tolerance);
    }
  }

  /** Prices of different clusters differ: equal prices always share a cluster. */
  lemma EqualPricesTogether(s: seq<Touch>, tolerance: real, i: nat, a: nat, j: nat, b: nat)
    requires Ascending(s) && Positive(s) && tolerance >= 0.0
    requires var cs := Greedy(s, tolerance); i < j < |cs| && a < |cs[i]| && b < |cs[j]|
    ensures var cs := Greedy(s, tolerance); cs[i][a].price < cs[j][b].price
  {
    var cs: seq<seq<Touch>> := Greedy(s, tolerance);
    GreedyPartition(s, tolerance);
    hide Greedy, Near, Mean;
    var n := |cs[i]| - 1;
    if a < n { ClustersAscend(cs, i, a, i, n); }
    ClustersAscend(cs, i, n, i + 1, 0);
    if i + 1 < j || b > 0 { ClustersAscend(cs, i + 1, 0, j, b); }
    LastIsNear(cs, i, tolerance);
    assert !Near(cs[i + 1][0].price, Mean(cs[i + 1 - 1]), tolerance);
  }

  // ----- The order of the input does not matter -----

  ghost function One(x: Touch, p: real, resistancesOnly: bool): nat {
    if x.price <= p && (resistancesOnly ==> x.isResistance) then 1 else 0
  }

  /** How many touches (or resistances only) are not above `p`. */
  ghost function Tally(s: seq<Touch>, p: real, resistancesOnly: bool): nat {
    if s == [] then 0
    else Tally(s[..|s| - 1], p, resistancesOnly) + One(s[|s| - 1], p, resistancesOnly)
  }

  lemma {:induction false} TallyParts(s: seq<Touch>, t: seq<Touch>, p: real, r: bool)
    ensures Tally(s + t, p, r) == Tally(s, p, r) + Tally(t, p, r)
  {
    if t == [] {
      assert s + t == s;
    } else {
      TallyParts(s, t[..|t| - 1], p, r);
      assert (s + t)[..|s + t| - 1] == s + t[..|t| - 1];
    }
  }

  lemma TallyOfOne(x: Touch, p: real, r: bool)
    ensures Tally([x], p, r) == One(x, p, r)
  {
    assert [x][..0] == [];
  }

  lemma {:induction false} TallyPermutes(s: seq<Touch>, t: seq<Touch>, p: real, r: bool)
    requires multiset(s) == multiset(t)
    ensures Tally(s, p, r) == Tally(t, p, r)
    decreases |s|
  {
    if s == [] {
      assert |t| == |multiset(t)| == 0;
    } else {
      var s', x := s[..|s| - 1], s[|s| - 1];
      assert s == s' + [x];
      assert multiset(s) == multiset(s') + multiset{x};
      assert x in multiset(t);
      var a, b := TakeOut(t, x);
      assert multiset(s') == multiset(s) - multiset{x} == multiset(a + b);
      TallyPermutes(s', a + b, p, r);
      TallyParts(a + [x], b, p, r);
      TallyParts(a, [x], p, r);
      TallyParts(a, b, p, r);
      TallyOfOne(x, p, r);
    }
  }

  lemma {:induction false} TallyAll(s: seq<Touch>, p: real)
    requires forall i | 0 <= i < |s| :: s[i].price <= p
    ensures Tally(s, p, false) == |s| && Tally(s, p, true) == ResistanceCount(s)
  {
    if s != [] { TallyAll(s[..|s| - 1], p); }
  }

  lemma {:induction false} TallyNone(s: seq<Touch>, p: real, r: bool)
    requires forall i | 0 <= i < |s| :: s[i].price > p
    ensures Tally(s, p, r) == 0
  {
    if s != [] { TallyNone(s[..|s| - 1], p, r); }
  }

  ghost predicate SamePrices(s: seq<Touch>, t: seq<Touch>) {
    |s| == |t| && forall i | 0 <= i < |s| :: s[i].price == t[i].price
  }

  lemma {:induction false} TallyAtMost(s: seq<Touch>, p: real)
    ensures Tally(s, p, false) <= |s|
  {
    if s != [] { TallyAtMost(s[..|s| - 1], p); }
  }

  lemma PriceNotBelow(s: seq<Touch>, t: seq<Touch>, i: nat)
    requires Ascending(s) && Ascending(t) && multiset(s) == multiset(t) && i < |s| && i < |t|
    ensures s[i].price >= t[i].price
  {
    var p := s[i].price;
    if p < t[i].price {
      assert s == s[..i + 1] + s[i + 1..] && t == t[..i] + t[i..];
      TallyAll(s[..i + 1], p);
      TallyNone(t[i..], p, false);
      TallyParts(s[..i + 1], s[i + 1..], p, false);
      TallyParts(t[..i], t[i..], p, false);
      TallyPermutes(s, t, p, false);
      TallyAtMost(t[..i], p);
    }
  }

  lemma SortedPrices(s: seq<Touch>, t: seq<Touch>)
    requires Ascending(s) && Ascending(t) && multiset(s) == multiset(t)
    ensures SamePrices(s, t)
  {
    assert |s| == |multiset(s)| == |multiset(t)| == |t|;
    forall i | 0 <= i < |s| ensures s[i].price == t[i].price {
      PriceNotBelow(s, t, i);
      PriceNotBelow(t, s, i);
    }
  }

  ghost predicate SameShape(cs: seq<seq<Touch>>, ds: seq<seq<Touch>>) {
    |cs| == |ds| && forall i | 0 <= i < |cs| :: SamePrices(cs[i], ds[i])
  }

  lemma {:induction false} SameSum(c: seq<Touch>, d: seq<Touch>)
    requires SamePrices(c, d)
    ensures Sum(c) == Sum(d)
  {
    if c != [] { SameSum(c[..|c| - 1], d[..|d| - 1]); }
  }

  lemma PlaceShape(cs: seq<seq<Touch>>, ds: seq<seq<Touch>>, x: Touch, y: Touch, tolerance: real)
    requires NoneEmpty(cs) && NoneEmpty(ds) && SameShape(cs, ds) && x.price == y.price
    ensures SameShape(Place(cs, x, tolerance), Place(ds, y, tolerance))
  {
    hide Near, Sum;
    if cs != [] { SameSum(cs[|cs| - 1], ds[|ds| - 1]); }
  }

  lemma {:induction false} GreedyShape(s: seq<Touch>, t: seq<Touch>, tolerance: real)
    requires SamePrices(s, t)
    ensures SameShape(Greedy(s, tolerance), Greedy(t, tolerance))
  {
    hide Place, Near;
    if s != [] {
      GreedyShape(s[..|s| - 1], t[..|t| - 1], tolerance);
      PlaceShape(Greedy(s[..|s| - 1], tolerance), Greedy(t[..|t| - 1], tolerance), s[|s| - 1], t[|t| - 1], tolerance);
    }
  }

  lemma {:induction false} ResistanceParts(s: seq<Touch>, t: seq<Touch>)
    ensures ResistanceCount(s + t) == ResistanceCount(s) + ResistanceCount(t)
  {
    if t == [] {
      assert s + t == s;
    } else {
      ResistanceParts(s, t[..|t| - 1]);
      assert (s + t)[..|s + t| - 1] == s + t[..|t| - 1];
    }
  }

  lemma SoFarNotAbove(cs: seq<seq<Touch>>, i: nat, k: nat)
    requires NoneEmpty(cs) && Ascending(Flatten(cs)) && i < |cs| && k < |Flatten(cs[..i + 1])|
    ensures Flatten(cs[..i + 1])[k].price <= cs[i][|cs[i]| - 1].price
  {
    hide Flatten;
    var n := |cs[i]| - 1;
    var j, a := FromFlatten(cs[..i + 1], k);
    if j < i || a < n { ClustersAscend(cs, j, a, i, n); }
  }

  lemma RestAbove(s: seq<Touch>, tolerance: real, i: nat, k: nat)
    requires Ascending(s) && Positive(s) && tolerance >= 0.0 && i < |Greedy(s, tolerance)|
    requires k < |Flatten(Greedy(s, tolerance)[i + 1..])|
    ensures var cs := Greedy(s, tolerance); Flatten(cs[i + 1..])[k].price > cs[i][|cs[i]| - 1].price
  {
    hide Flatten, Greedy;
    var cs: seq<seq<Touch>> := Greedy(s, tolerance);
    var j, a := FromFlatten(cs[i + 1..], k);
    EqualPricesTogether(s, tolerance, i, |cs[i]| - 1, i + 1 + j, a);
  }

  /** Up to a cluster's last price, the whole list has the resistances of the
      clusters so far: a count that does not depend on the order. */
  lemma ResistancesSoFar(s: seq<Touch>, tolerance: real, i: nat)
    requires Ascending(s) && Positive(s) && tolerance >= 0.0 && i < |Greedy(s, tolerance)|
    ensures var cs := Greedy(s, tolerance);
      ResistanceCount(Flatten(cs[..i + 1])) == Tally(s, cs[i][|cs[i]| - 1].price, true)
  {
    hide Flatten, Greedy, Positive, Tally, ResistanceCount;
    var cs: seq<seq<Touch>> := Greedy(s, tolerance);
    var p := cs[i][|cs[i]| - 1].price;
    var f, g := Flatten(cs[..i + 1]), Flatten(cs[i + 1..]);
    GreedyPartition(s, tolerance);
    FlattenSplit(cs, i + 1);
    forall k | 0 <= k < |f| ensures f[k].price <= p { SoFarNotAbove(cs, i, k); }
    forall k | 0 <= k < |g| ensures g[k].price > p { RestAbove(s, tolerance, i, k); }
    TallyAll(f, p);
    TallyNone(g, p, true);
    TallyParts(f, g, p, true);
  }

  lemma SoFarSame(s: seq<Touch>, t: seq<Touch>, tolerance: real, i: nat)
    requires Ascending(s) && Positive(s) && Ascending(t) && Positive(t) && tolerance >= 0.0 && multiset(s) == multiset(t)
    requires i < |Greedy(s, tolerance)| && SameShape(Greedy(s, tolerance), Greedy(t, tolerance))
    ensures ResistanceCount(Flatten(Greedy(s, tolerance)[..i + 1])) == ResistanceCount(Flatten(Greedy(t, tolerance)[..i + 1]))
  {
    hide Greedy, Flatten, Positive, Tally, ResistanceCount;
    var cs, ds := Greedy(s, tolerance), Greedy(t, tolerance);
    assert SamePrices(cs[i], ds[i]);
    ResistancesSoFar(s, tolerance, i);
    ResistancesSoFar(t, tolerance, i);
    TallyPermutes(s, t, cs[i][|cs[i]| - 1].price, true);
  }

  lemma LastOfPrefix(cs: seq<seq<Touch>>, i: nat)
    requires i < |cs|
    ensures ResistanceCount(Flatten(cs[..i + 1])) == ResistanceCount(Flatten(cs[..i])) + ResistanceCount(cs[i])
  {
    assert cs[..i + 1][..i] == cs[..i];
    ResistanceParts(Flatten(cs[..i]), cs[i]);
  }

  lemma ClusterResistances(s: seq<Touch>, t: seq<Touch>, tolerance: real, i: nat)
    requires Ascending(s) && Positive(s) && Ascending(t) && Positive(t) && tolerance >= 0.0 && multiset(s) == multiset(t)
    requires i < |Greedy(s, tolerance)| && SameShape(Greedy(s, tolerance), Greedy(t, tolerance))
    ensures ResistanceCount(Greedy(s, tolerance)[i]) == ResistanceCount(Greedy(t, tolerance)[i])
  {
    hide Greedy, Flatten, Positive, Tally, ResistanceCount;
    var cs, ds := Greedy(s, tolerance), Greedy(t, tolerance);
    SoFarSame(s, t, tolerance, i);
    LastOfPrefix(cs, i);
    LastOfPrefix(ds, i);
    if i > 0 { SoFarSame(s, t, tolerance, i - 1); } else { assert cs[..0] == ds[..0] == []; }
  }

  lemma PositivePermutes(s: seq<Touch>, t: seq<Touch>)
    requires multiset(s) == multiset(t) && Positive(s)
    ensures Positive(t)
  {
    forall i | 0 <= i < |t| ensures t[i].price > 0.0 {
      assert t[i] in multiset(s);
    }
  }

  /** Permuting the detected extrema changes nothing in the published levels. */
  lemma LevelsPermute(levels: seq<Touch>, levels': seq<Touch>, tolerance: real)
    requires multiset(levels) == multiset(levels') && Positive(levels) && tolerance >= 0.0
    ensures Levels(Greedy(Sorted(levels), tolerance)) == Levels(Greedy(Sorted(levels'), tolerance))
  {
    hide Greedy, Sorted, ResistanceCount, Sum, Ascending;
    var s, t := Sorted(levels), Sorted(levels');
    SortedPermutes(levels);
    SortedPermutes(levels');
    PositivePermutes(levels, s);
    PositivePermutes(levels, t);
    SortedPrices(s, t);
    GreedyShape(s, t, tolerance);
    var cs, ds := Greedy(s, tolerance), Greedy(t, tolerance);
    forall i | 0 <= i < |cs| ensures LevelOf(cs[i]) == LevelOf(ds[i]) {
      ClusterResistances(s, t, tolerance, i);
      SameSum(cs[i], ds[i]);
    }
  }

  // ----- What the published levels say -----

  // ----- What a published level says of its cluster -----

  /** The number of touches of one kind. */
  function Kind(c: seq<Touch>, resistance: bool): set<nat> {
    set i: nat | i < |c| && c[i].isResistance == resistance
  }

  lemma NoKind(c: seq<Touch>)
    requires c == []
    ensures Kind(c, true) == {} == Kind(c, false)
  {
  }

  lemma KindNext(c: seq<Touch>, n: nat, b: bool)
    requires |c| == n + 1
    ensures |Kind(c, b)| == |Kind(c[..n], b)| + if c[n].isResistance == b then 1 else 0
  {
    assert Kind(c, b) == Kind(c[..n], b) + if c[n].isResistance == b then {n} else {};
  }

  lemma {:induction false} KindCounts(c: seq<Touch>)
    ensures |Kind(c, true)| == ResistanceCount(c) && |Kind(c, true)| + |Kind(c, false)| == |c|
  {
    hide Kind;
    if c == [] {
      NoKind(c);
    } else {
      var n := |c| - 1;
      KindCounts(c[..n]);
      KindNext(c, n, true);
      KindNext(c, n, false);
    }
  }

  /** A level is a resistance exactly if at least as many touches are resistances as
      are supports; its price is the mean of the touches to within half a unit of
      the fourth place, and it counts them. */
  lemma LevelSays(c: seq<Touch>)
    requires c != []
    ensures LevelOf(c).isResistance <==> |Kind(c, true)| >= |Kind(c, false)|
    ensures Abs(LevelOf(c).price - Mean(c)) <= 0.00005
    ensures LevelOf(c).price * 10000.0 == (LevelOf(c).price * 10000.0).Floor as real
    ensures LevelOf(c).touchCount == |c|
  {
    hide Mean, HalfEven, Round;
    KindCounts(c);
    RoundNear(Mean(c), 10000.0);
  }

  lemma {:induction false} SumBetween(c: seq<Touch>, low: real, high: real)
    requires forall i | 0 <= i < |c| :: low <= c[i].price <= high
    ensures low * |c| as real <= Sum(c) <= high * |c| as real
  {
    if c != [] {
      SumBetween(c[..|c| - 1], low, high);
      assert low * |c| as real == low * (|c| - 1) as real + low && high * |c| as real == high * (|c| - 1) as real + high;
    }
  }

  /** The mean lies between any bounds of the touches. */
  lemma {:induction false} MeanBetween(c: seq<Touch>, low: real, high: real)
    requires c != [] && forall i | 0 <= i < |c| :: low <= c[i].price <= high
    ensures low <= Mean(c) <= high
  {
    SumBetween(c, low, high);
    var n := |c| as real;
    DivMonotone(low * n, Sum(c), n);
    DivMonotone(Sum(c), high * n, n);
    assert low * n / n == low && high * n / n == high;
  }

  /** Near means within the tolerance, as a percentage of the mean. */
  lemma NearIff(price: real, mean: real, tolerance: real)
    requires mean > 0.0
    ensures Near(price, mean, tolerance) <==>
      mean * (1.0 - tolerance / 100.0) <= price <= mean * (1.0 + tolerance / 100.0)
  {
    QuotientBounds(Abs(price - mean), mean, tolerance / 100.0);
  }

  lemma PriceAbove(cs: seq<seq<Touch>>, i: nat)
    requires Positive(Flatten(cs)) && i < |cs|
    ensures forall a | 0 <= a < |cs[i]| :: cs[i][a].price > 0.0
  {
    forall a | 0 <= a < |cs[i]| ensures cs[i][a].price > 0.0 {
      ClustersPositive(cs, i, a);
    }
  }

  lemma {:induction false} SumPositive(c: seq<Touch>)
    requires c != [] && forall a | 0 <= a < |c| :: c[a].price > 0.0
    ensures Sum(c) > 0.0
  {
    if |c| > 1 { SumPositive(c[..|c| - 1]); } else { assert Sum(c[..0]) == 0.0; }
  }

  lemma {:induction false} MeanPositive(c: seq<Touch>)
    requires c != [] && forall a | 0 <= a < |c| :: c[a].price > 0.0
    ensures Mean(c) > 0.0
  {
    SumPositive(c);
    assert Mean(c) * |c| as real == Sum(c);
  }

  /** Every touch of a cluster is within the tolerance of the mean of those before it
      in its cluster, and the first of a cluster is not, seen from the cluster before. */
  lemma ClusterSpread(levels: seq<Touch>, tolerance: real, i: nat, k: nat)
    requires Positive(levels)
    requires var cs := Greedy(Sorted(levels), tolerance); i < |cs| && k < |cs[i]| && (k > 0 || i > 0)
    ensures var cs := Greedy(Sorted(levels), tolerance);
      var mean := if k > 0 then Mean(cs[i][..k]) else Mean(cs[i - 1]);
      mean * (1.0 - tolerance / 100.0) <= cs[i][k].price <= mean * (1.0 + tolerance / 100.0) <==> k > 0
  {
    hide Greedy, Sorted, Near, Mean;
    var s := Sorted(levels);
    var cs: seq<seq<Touch>> := Greedy(s, tolerance);
    SortedPermutes(levels);
    PositivePermutes(levels, s);
    GreedyPartition(s, tolerance);
    PriceAbove(cs, i);
    if k > 0 {
      MeanPositive(cs[i][..k]);
      NearIff(cs[i][k].price, Mean(cs[i][..k]), tolerance);
    } else {
      PriceAbove(cs, i - 1);
      MeanPositive(cs[i - 1]);
      NearIff(cs[i][0].price, Mean(cs[i - 1]), tolerance);
    }
  }

  function TouchCounts(ls: seq<SrLevel>): nat {
    if ls == [] then 0 else TouchCounts(ls[..|ls| - 1]) + ls[|ls| - 1].touchCount
  }

  lemma {:induction false} CountsOfClusters(cs: seq<seq<Touch>>)
    requires NoneEmpty(cs)
    ensures TouchCounts(Levels(cs)) == |Flatten(cs)|
  {
    if cs != [] {
      var n := |cs| - 1;
      CountsOfClusters(cs[..n]);
      assert Levels(cs)[..n] == Levels(cs[..n]);
    }
  }

  /** Every extremum is counted once; no level lies below an earlier one. */
  lemma LevelsAccount(levels: seq<Touch>, tolerance: real)
    ensures TouchCounts(Levels(Greedy(Sorted(levels), tolerance))) == |levels|
    ensures Positive(levels) ==>
      var ls := Levels(Greedy(Sorted(levels), tolerance));
      forall i, j | 0 <= i < j < |ls| :: ls[i].price <= ls[j].price
  {
    hide Greedy, Sorted, Sum, ResistanceCount, Ascending;
    var s := Sorted(levels);
    var cs: seq<seq<Touch>> := Greedy(s, tolerance);
    SortedPermutes(levels);
    GreedyPartition(s, tolerance);
    CountsOfClusters(cs);
    if Positive(levels) {
      PositivePermutes(levels, s);
      forall i, j | 0 <= i < j < |cs| ensures LevelOf(cs[i]).price <= LevelOf(cs[j]).price {
        MeanInside(cs, i);
        MeanInside(cs, j);
        ClustersAscend(cs, i, |cs[i]| - 1, j, 0);
        RoundMonotone(Mean(cs[i]), Mean(cs[j]), 10000.0);
      }
    }
  }
}
