/** Which prices a plan is made of: the average range of the last candles, the
    nearest level for each target, and prices rounded to five places. */
module StopTakeProfitTargets {
  import opened Rounding
  import opened StopTakeProfit
  import opened StopTakeProfitBounds

  // ----- The average true range -----

  /** A true range is the greatest of the candle's height and the distances of its
      extremes from the close before. */
  lemma TrueRangeIs(previous: Candle, c: Candle)
    ensures var tr, p := TrueRange(previous, c), previous.close;
      && c.high - c.low <= tr
      && c.high - p <= tr && p - c.high <= tr
      && c.low - p <= tr && p - c.low <= tr
      && tr in {c.high - c.low, c.high - p, p - c.high, c.low - p, p - c.low}
  {
  }

  /** The sum of the true ranges of the candles behind `from`, up to `to`. */
  function RangeSum(ohlcv: seq<Candle>, from: nat, to: nat): real
    requires to < |ohlcv|
  {
    if to <= from then 0.0 else RangeSum(ohlcv, from, to - 1) + TrueRange(ohlcv[to - 1], ohlcv[to])
  }

  lemma {:induction false} RangeAt(ohlcv: seq<Candle>, i: nat)
    requires i + 1 < |ohlcv|
    ensures TrueRanges(ohlcv)[i] == TrueRange(ohlcv[i], ohlcv[i + 1])
  {
    if i + 2 < |ohlcv| { RangeAt(ohlcv[..|ohlcv| - 1], i); }
  }

  lemma {:induction false} SumOfRanges(ohlcv: seq<Candle>, from: nat, to: nat)
    requires from <= to < |ohlcv|
    ensures Sum(TrueRanges(ohlcv)[from..to]) == RangeSum(ohlcv, from, to)
  {
    if from < to {
      var xs := TrueRanges(ohlcv)[from..to];
      assert xs[..|xs| - 1] == TrueRanges(ohlcv)[from..to - 1];
      SumOfRanges(ohlcv, from, to - 1);
      RangeAt(ohlcv, to - 1);
    }
  }

  lemma MeanTimes(xs: seq<real>, n: nat)
    requires |xs| == n > 0
    ensures Mean(xs) * n as real == Sum(xs)
  {
    DivMul(Sum(xs), n as real);
  }

  lemma LastRanges(xs: seq<real>, n: nat)
    requires n == if |xs| < 14 then |xs| else 14
    ensures LastN(xs, ATR_PERIOD) == xs[|xs| - n..|xs|]
  {
  }

  lemma AtrIsMean(ohlcv: seq<Candle>, xs: seq<real>)
    requires |ohlcv| >= 2 && xs == LastN(TrueRanges(ohlcv), ATR_PERIOD)
    ensures xs != [] && Atr(ohlcv, ATR_PERIOD) == Mean(xs)
  {
    hide Mean, TrueRanges;
  }

  /** The plan's ATR is the mean of the last fourteen true ranges, or of all of them
      if there are fewer. */
  lemma AtrWindow(ohlcv: seq<Candle>, n: nat)
    requires |ohlcv| >= 2 && n == if |ohlcv| < 15 then |ohlcv| - 1 else 14
    ensures Atr(ohlcv, ATR_PERIOD) * n as real == RangeSum(ohlcv, |ohlcv| - 1 - n, |ohlcv| - 1)
  {
    hide Mean, TrueRanges, RangeSum, Sum, Atr, LastN;
    var trs, last := TrueRanges(ohlcv), |ohlcv| - 1;
    LastRanges(trs, n);
    AtrIsMean(ohlcv, trs[last - n..last]);
    SumOfRanges(ohlcv, last - n, last);
    MeanTimes(trs[last - n..last], n);
  }

  // ----- The second target -----

  /** Another level than the one at `p`, or another one there, pays twice the risk. */
  ghost predicate Later(dir: Direction, entry: real, levels: seq<Level>, risk: real, p: real, q: real) {
    && Level(q, dir == LONG) in levels && Eligible(dir, Level(q, dir == LONG), entry)
    && Reward(dir, entry, q) >= risk * 2.0
    && (q != p || multiset(levels)[Level(q, dir == LONG)] >= 2)
  }

  /** The nearest of them, if there is any. */
  ghost predicate NearestLater(dir: Direction, entry: real, levels: seq<Level>, risk: real, p: real, q: real) {
    && Later(dir, entry, levels, risk, p, q)
    && forall x | Later(dir, entry, levels, risk, p, x) :: Reward(dir, entry, q) <= Reward(dir, entry, x)
  }

  ghost predicate SomeLater(dir: Direction, entry: real, levels: seq<Level>, risk: real, p: real) {
    exists x :: Later(dir, entry, levels, risk, p, x)
  }

  /** The first target stands twice in the list exactly if it does in the targets. */
  lemma TwiceOnTargets(entry: real, levels: seq<Level>, risk: real, i: nat)
    requires var ts := Targets(LONG, entry, levels); i == FirstAtLeast(ts, 0, entry + risk) && i < |ts|
    ensures var ts := Targets(LONG, entry, levels);
      multiset(levels)[Level(ts[i], true)] >= 2 <==> i + 1 < |ts| && ts[i + 1] == ts[i]
  {
    hide FirstAtLeast, ResistancesAbove, SortAsc;
    var ts := Targets(LONG, entry, levels);
    TargetsLong(levels, entry);
    SortSorted(ResistancesAbove(levels, entry));
    AboveCount(levels, entry, ts[i]);
    SortedDuplicate(ts, i, entry + risk);
  }

  ghost predicate Behind(ts: seq<real>, i: nat, bound: real, q: real) {
    exists n | i < n < |ts| :: ts[n] == q && q >= bound
  }

  /** On the sorted LONG targets, the later levels stand behind the first target. */
  lemma LaterOnTargets(entry: real, levels: seq<Level>, risk: real, i: nat, q: real)
    requires risk >= 0.0
    requires var ts := Targets(LONG, entry, levels); i == FirstAtLeast(ts, 0, entry + risk) && i < |ts|
    ensures var ts := Targets(LONG, entry, levels);
      Later(LONG, entry, levels, risk, ts[i], q) <==> Behind(ts, i, entry + risk * 2.0, q)
  {
    hide FirstAtLeast, Targets;
    var ts := Targets(LONG, entry, levels);
    TargetsLong(levels, entry);
    TwiceOnTargets(entry, levels, risk, i);
    if Later(LONG, entry, levels, risk, ts[i], q) {
      var k :| 0 <= k < |levels| && levels[k] == Level(q, true);
      var n :| 0 <= n < |ts| && ts[n] == q;
      if q == ts[i] { assert ts[i + 1] == q; } else { assert n > i; }
    }
    if Behind(ts, i, entry + risk * 2.0, q) {
      var n :| i < n < |ts| && ts[n] == q && q >= entry + risk * 2.0;
      if q == ts[i] { assert ts[i] <= ts[i + 1] <= ts[n]; }
    }
  }

  /** The scan for the second target stops at the nearest of them. */
  lemma NearestBehind(ts: seq<real>, i: nat, bound: real, x: real)
    requires Sorted(ts) && i < |ts|
    ensures var j := FirstAtLeast(ts, i + 1, bound);
      && (j < |ts| ==> Behind(ts, i, bound, ts[j]))
      && (Behind(ts, i, bound, x) ==> j < |ts| && ts[j] <= x)
  {
    hide FirstAtLeast;
    var j := FirstAtLeast(ts, i + 1, bound);
    if Behind(ts, i, bound, x) {
      var n :| i < n < |ts| && ts[n] == x && x >= bound;
      assert j <= n;
    }
  }

  lemma SecondLongLevel(entry: real, levels: seq<Level>, risk: real, atr: real)
    requires risk >= 0.0 && LevelPays(LONG, entry, levels, risk)
    ensures var c := Candidates(LONG, entry, levels, risk, atr);
      if SomeLater(LONG, entry, levels, risk, c.0) then NearestLater(LONG, entry, levels, risk, c.0, c.1)
      else c.1 == Max(entry + atr * 6.0, c.0 + risk)
  {
    hide Targets, Later, FirstAtLeast, LevelPays, Behind;
    var ts := Targets(LONG, entry, levels);
    var i := FirstAtLeast(ts, 0, entry + risk);
    FirstPays(entry, levels, risk, atr);
    TargetsLong(levels, entry);
    var j := FirstAtLeast(ts, i + 1, entry + risk * 2.0);
    if j < |ts| {
      NearestBehind(ts, i, entry + risk * 2.0, ts[j]);
      LaterOnTargets(entry, levels, risk, i, ts[j]);
    }
    forall x | Later(LONG, entry, levels, risk, ts[i], x) ensures j < |ts| && ts[j] <= x {
      LaterOnTargets(entry, levels, risk, i, x);
      NearestBehind(ts, i, entry + risk * 2.0, x);
    }
  }

  lemma LaterMirror(entry: real, levels: seq<Level>, e: real, m: seq<Level>, risk: real, p: real, q: real)
    requires e == -entry && m == MirrorLevels(levels)
    ensures Later(LONG, e, m, risk, -p, -q) <==> Later(SHORT, entry, levels, risk, p, q)
  {
    CountMirror(levels, q, -q);
    assert Level(q, false) in levels <==> multiset(levels)[Level(q, false)] > 0;
    assert Level(-q, true) in m <==> multiset(m)[Level(-q, true)] > 0;
  }

  lemma NearestLaterMirror(entry: real, levels: seq<Level>, e: real, m: seq<Level>, risk: real, p: real, q: real)
    requires e == -entry && m == MirrorLevels(levels)
    ensures SomeLater(LONG, e, m, risk, -p) <==> SomeLater(SHORT, entry, levels, risk, p)
    ensures NearestLater(LONG, e, m, risk, -p, -q) ==> NearestLater(SHORT, entry, levels, risk, p, q)
  {
    hide Later;
    forall x ensures Later(LONG, e, m, risk, -p, -x) <==> Later(SHORT, entry, levels, risk, p, x) {
      LaterMirror(entry, levels, e, m, risk, p, x);
    }
    if SomeLater(LONG, e, m, risk, -p) {
      var x :| Later(LONG, e, m, risk, -p, x);
      assert -(-x) == x;
      assert Later(SHORT, entry, levels, risk, p, -x);
    }
    if SomeLater(SHORT, entry, levels, risk, p) {
      var x :| Later(SHORT, entry, levels, risk, p, x);
      assert Later(LONG, e, m, risk, -p, -x);
    }
    if NearestLater(LONG, e, m, risk, -p, -q) {
      forall x | Later(SHORT, entry, levels, risk, p, x) ensures Reward(SHORT, entry, q) <= Reward(SHORT, entry, x) {
        assert Later(LONG, e, m, risk, -p, -x);
      }
    }
  }

  ghost predicate SecondOk(dir: Direction, entry: real, levels: seq<Level>, risk: real, atr: real, c: (real, real)) {
    if LevelPays(dir, entry, levels, risk) && SomeLater(dir, entry, levels, risk, c.0)
    then NearestLater(dir, entry, levels, risk, c.0, c.1)
    else Reward(dir, entry, c.1) == Max(atr * 6.0, Reward(dir, entry, c.0) + risk)
  }

  lemma SecondOkLong(entry: real, levels: seq<Level>, risk: real, atr: real)
    requires risk >= 0.0 && atr >= 0.0
    ensures SecondOk(LONG, entry, levels, risk, atr, Candidates(LONG, entry, levels, risk, atr))
  {
    hide NearestLater, SomeLater, FirstAtLeast;
    FirstPays(entry, levels, risk, atr);
    if LevelPays(LONG, entry, levels, risk) { SecondLongLevel(entry, levels, risk, atr); }
  }

  lemma SecondOkMirror(entry: real, levels: seq<Level>, e: real, m: seq<Level>, risk: real, atr: real, c: (real, real), d: (real, real))
    requires e == -entry && m == MirrorLevels(levels) && d.0 == -c.0 && d.1 == -c.1
    requires SecondOk(LONG, e, m, risk, atr, d)
    ensures SecondOk(SHORT, entry, levels, risk, atr, c)
  {
    hide NearestLater, SomeLater, LevelPays;
    LevelPaysMirror(entry, levels, e, m, risk);
    NearestLaterMirror(entry, levels, e, m, risk, c.0, c.1);
  }

  /** The second target before the guard.  Behind a level as first target it is the
      nearest level that pays twice the risk, not counting that one; otherwise the
      farther of six ATR and the first target with the risk on top. */
  lemma SecondTarget(dir: Direction, entry: real, levels: seq<Level>, risk: real, atr: real)
    requires risk >= 0.0 && atr >= 0.0
    ensures var c := Candidates(dir, entry, levels, risk, atr);
      if LevelPays(dir, entry, levels, risk) && SomeLater(dir, entry, levels, risk, c.0)
      then NearestLater(dir, entry, levels, risk, c.0, c.1)
      else Reward(dir, entry, c.1) == Max(atr * 6.0, Reward(dir, entry, c.0) + risk)
  {
    hide NearestLater, SomeLater, LevelPays, Candidates;
    if dir == LONG {
      SecondOkLong(entry, levels, risk, atr);
    } else {
      var e, m := -entry, MirrorLevels(levels);
      ShortIsMirror(entry, levels, e, m, risk, atr);
      SecondOkLong(e, m, risk, atr);
      SecondOkMirror(entry, levels, e, m, risk, atr,
                     Candidates(SHORT, entry, levels, risk, atr), Candidates(LONG, e, m, risk, atr));
    }
  }

  /** The guard replaces a second target that is not behind the first. */
  lemma GuardedTarget(dir: Direction, entry: real, levels: seq<Level>, risk: real, atr: real)
    ensures var c, t := Candidates(dir, entry, levels, risk, atr), TakeProfits(dir, entry, levels, risk, atr);
      && t.0 == c.0
      && Reward(dir, entry, t.1) == if Reward(dir, entry, c.1) <= Reward(dir, entry, c.0) then Reward(dir, entry, c.0) + risk
                                    else Reward(dir, entry, c.1)
  {
    hide Candidates;
  }

  /** `r` is a multiple of 0.00001 and at most half of that away from `x`. */
  ghost predicate OnFivePlaces(x: real, r: real) {
    -0.000005 <= r - x <= 0.000005 && r * 100000.0 == (r * 100000.0).Floor as real
  }

  lemma PriceRounded(x: real)
    ensures OnFivePlaces(x, Round(x, PRICE_SCALE))
  {
    hide HalfEven, Round;
    RoundNear(x, PRICE_SCALE);
  }

  /** The published prices are those of the plan, to five places. */
  lemma PlanRounded(p: Plan)
    ensures OnFivePlaces(p.stop, Rounded(p).stop) && OnFivePlaces(p.tp1, Rounded(p).tp1) && OnFivePlaces(p.tp2, Rounded(p).tp2)
  {
    hide OnFivePlaces;
    PriceRounded(p.stop);
    PriceRounded(p.tp1);
    PriceRounded(p.tp2);
  }
}
