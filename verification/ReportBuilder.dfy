/** Strategies of a report: one per entry price, with rounded risk/reward
    ratios, and the filter that drops the unfavourable ones. */
module ReportBuilder {
  import opened Options
  import opened Rounding
  import opened StopTakeProfit
  import opened StopTakeProfitBounds

  const FLOAT_ZERO_EPSILON := 0.000000001
  const RATIO_SCALE := 100.0   // ratios are rounded to two places

  datatype Strategy = Strategy(dir: Direction, entry: real, plan: Plan, ratio: Option<real>, ratioTp2: Option<real>)

  /** Risk over reward to two places; nothing for missing data or no reward. */
  function RiskReward(entry: Option<real>, stop: Option<real>, tp: Option<real>): Option<real> {
    if entry == None || stop == None || tp == None then None
    else
      var risk := Abs(entry.value - stop.value);
      var reward := Abs(tp.value - entry.value);
      if reward < FLOAT_ZERO_EPSILON then None else Some(Round(risk / reward, RATIO_SCALE))
  }

  function StrategyFor(ohlcv: seq<Candle>, dir: Direction, entry: real, levels: seq<Level>): Strategy {
    var p := Rounded(Unrounded(dir, entry, levels, Atr(ohlcv, ATR_PERIOD)));
    Strategy(dir, entry, p,
             RiskReward(Some(entry), Some(p.stop), Some(p.tp1)), RiskReward(Some(entry), Some(p.stop), Some(p.tp2)))
  }

  lemma StrategyParts(ohlcv: seq<Candle>, dir: Direction, entry: real, levels: seq<Level>)
    ensures var p := Rounded(Unrounded(dir, entry, levels, Atr(ohlcv, ATR_PERIOD)));
      StrategyFor(ohlcv, dir, entry, levels) == Strategy(dir, entry, p,
        RiskReward(Some(entry), Some(p.stop), Some(p.tp1)), RiskReward(Some(entry), Some(p.stop), Some(p.tp2)))
  {
  }

  function StrategiesFor(ohlcv: seq<Candle>, dir: Direction, entries: seq<real>, levels: seq<Level>): seq<Strategy> {
    seq(|entries|, i requires 0 <= i < |entries| => StrategyFor(ohlcv, dir, entries[i], levels))
  }

  method BuildStrategies(ohlcv: seq<Candle>, dir: Direction, entries: seq<real>, levels: seq<Level>)
    returns (strategies: seq<Strategy>)
    ensures strategies == StrategiesFor(ohlcv, dir, entries, levels)
  {
    hide StrategyFor, RiskReward, Rounded, Unrounded, Atr;
    strategies := [];
    for i := 0 to |entries|
      invariant |strategies| == i
      invariant forall k | 0 <= k < i :: strategies[k] == StrategyFor(ohlcv, dir, entries[k], levels)
    {
      var p := CalculateSlTp(ohlcv, dir, entries[i], levels);
      StrategyParts(ohlcv, dir, entries[i], levels);
      var ratio := RiskReward(Some(entries[i]), Some(p.stop), Some(p.tp1));
      var ratioTp2 := RiskReward(Some(entries[i]), Some(p.stop), Some(p.tp2));
      strategies := strategies + [Strategy(dir, entries[i], p, ratio, ratioTp2)];
    }
  }

  predicate Favourable(s: Strategy) {
    s.ratio == None || s.ratio.value <= 1.0
  }

  function Kept(strategies: seq<Strategy>): seq<Strategy> {
    if strategies == [] then []
    else (if Favourable(strategies[0]) then [strategies[0]] else []) + Kept(strategies[1..])
  }

  datatype SkipReason = NotSkipped | Neutral | AllRejected

  /** The filter keeps exactly the favourable strategies. */
  lemma {:induction false} KeptExactly(ss: seq<Strategy>)
    ensures forall s :: s in Kept(ss) <==> s in ss && Favourable(s)
  {
    if ss != [] {
      KeptExactly(ss[1..]);
      assert ss == [ss[0]] + ss[1..];
    }
  }

  lemma {:induction false} KeptAppends(ss: seq<Strategy>, x: Strategy)
    ensures Kept(ss + [x]) == Kept(ss) + if Favourable(x) then [x] else []
  {
    hide Favourable;
    if ss == [] {
      assert ss + [x] == [x] && [x][1..] == [] && Kept([]) == [];
    } else {
      KeptAppends(ss[1..], x);
      assert (ss + [x])[1..] == ss[1..] + [x];
    }
  }

  /** The published strategies stand at ascending places of the built ones, and those
      places are all with a favourable strategy: order and repetitions are kept. */
  lemma {:induction false} KeptInOrder(ss: seq<Strategy>) returns (at: seq<nat>)
    ensures |at| == |Kept(ss)| && forall k | 0 <= k < |at| :: at[k] < |ss| && ss[at[k]] == Kept(ss)[k]
    ensures forall j, k | 0 <= j < k < |at| :: at[j] < at[k]
    ensures forall i | 0 <= i < |ss| :: i in at <==> Favourable(ss[i])
  {
    hide Favourable;
    if ss == [] {
      at := [];
    } else {
      hide Kept;
      var n := |ss| - 1;
      var front := ss[..n];
      assert ss == front + [ss[n]];
      KeptAppends(front, ss[n]);
      at := KeptInOrder(front);
      if Favourable(ss[n]) { at := at + [n]; }
    }
  }

  /** A ratio is risk over reward, to within half of a hundredth; there is none exactly
      without one of the prices or without reward. */
  lemma RatioIs(entry: Option<real>, stop: Option<real>, tp: Option<real>)
    ensures var r := RiskReward(entry, stop, tp);
      && (r == None <==> entry == None || stop == None || tp == None || -0.000000001 < tp.value - entry.value < 0.000000001)
      && (r != None ==>
            var risk, reward := Abs(entry.value - stop.value), Abs(tp.value - entry.value);
            (r.value - 0.005) * reward <= risk <= (r.value + 0.005) * reward)
  {
    hide Round, HalfEven;
    var r := RiskReward(entry, stop, tp);
    if r != None {
      var risk, reward := Abs(entry.value - stop.value), Abs(tp.value - entry.value);
      RoundNear(risk / reward, RATIO_SCALE);
      QuotientBounds(risk, reward, r.value + 0.005);
      QuotientBounds(risk, reward, r.value - 0.005);
    }
  }

  /** The part of `build_report` that decides which strategies are published. */
  method BuildReport(ohlcv: seq<Candle>, hasDirection: bool, dir: Direction, entries: seq<real>, levels: seq<Level>)
    returns (strategies: seq<Strategy>, skip: SkipReason)
    ensures hasDirection ==> strategies == Kept(StrategiesFor(ohlcv, dir, entries, levels))
    ensures forall s | s in strategies :: Favourable(s) && s in StrategiesFor(ohlcv, dir, entries, levels)
    ensures skip == if !hasDirection then Neutral else if strategies == [] then AllRejected else NotSkipped
    ensures !hasDirection ==> strategies == []
  {
    hide StrategyFor, Favourable;
    strategies, skip := [], NotSkipped;
    if hasDirection {
      var built := BuildStrategies(ohlcv, dir, entries, levels);
      strategies := Kept(built);
      KeptExactly(built);
      if strategies == [] {
        skip := AllRejected;
      }
    } else {
      skip := Neutral;
    }
  }

  // ----- What the filter on rounded ratios means in prices -----

  /** A ratio rounds to at most 1.00 exactly when it is at most 1.005. */
  lemma RoundedRatioAtMostOne(x: real)
    ensures Round(x, RATIO_SCALE) <= 1.0 <==> x <= 1.005
  {
    var n := HalfEven(x * RATIO_SCALE);
    assert Round(x, RATIO_SCALE) <= 1.0 <==> n <= 100;
  }

  lemma RatioAtMostOne(risk: real, reward: real)
    requires reward >= 0.0
    ensures reward >= FLOAT_ZERO_EPSILON ==> (Round(risk / reward, RATIO_SCALE) <= 1.0 <==> risk <= 1.005 * reward)
  {
    if reward >= FLOAT_ZERO_EPSILON {
      RoundedRatioAtMostOne(risk / reward);
      QuotientBounds(risk, reward, 1.005);
    }
  }

  lemma RatioFavours(entry: real, p: Plan)
    ensures var ratio := RiskReward(Some(entry), Some(p.stop), Some(p.tp1));
      var risk, reward := Abs(entry - p.stop), Abs(p.tp1 - entry);
      (ratio == None || ratio.value <= 1.0) <==> reward < FLOAT_ZERO_EPSILON || risk <= 1.005 * reward
  {
    hide Round;
    RatioAtMostOne(Abs(entry - p.stop), Abs(p.tp1 - entry));
  }

  /** A strategy is published exactly when its rounded first target is as good as
      its entry or its rounded stop risks at most 1.005 times the reward. */
  lemma FavourableIff(ohlcv: seq<Candle>, dir: Direction, entry: real, levels: seq<Level>)
    ensures var s := StrategyFor(ohlcv, dir, entry, levels);
      var risk, reward := Abs(entry - s.plan.stop), Abs(s.plan.tp1 - entry);
      Favourable(s) <==> reward < FLOAT_ZERO_EPSILON || risk <= 1.005 * reward
  {
    hide StrategyFor, Rounded, Unrounded, Atr, RiskReward;
    StrategyParts(ohlcv, dir, entry, levels);
    RatioFavours(entry, StrategyFor(ohlcv, dir, entry, levels).plan);
  }

  /** Rounding two targets on the same side of the entry, the nearer one first,
      never brings the farther one closer. */
  lemma RoundedRewards(entry: real, near: real, far: real)
    requires entry <= near <= far || entry >= near >= far
    ensures Abs(Round(near, PRICE_SCALE) - entry) <= Abs(Round(far, PRICE_SCALE) - entry)
  {
    if near <= far {
      MulMonotone(near, far, PRICE_SCALE);
      HalfEvenMonotone(near * PRICE_SCALE, far * PRICE_SCALE);
    } else {
      MulMonotone(far, near, PRICE_SCALE);
      HalfEvenMonotone(far * PRICE_SCALE, near * PRICE_SCALE);
    }
  }

  lemma RatioAntitone(risk: real, near: real, far: real)
    requires risk >= 0.0 && 0.0 < near <= far
    ensures risk / far <= risk / near
  {
    var q := risk / near;
    assert q * near == risk && q >= 0.0;
    MulMonotone(near, far, q);
    QuotientBounds(risk, far, q);
  }

  lemma RatiosInOrder(entry: real, p: Plan)
    requires Abs(p.tp1 - entry) <= Abs(p.tp2 - entry)
    ensures var r, r2 := RiskReward(Some(entry), Some(p.stop), Some(p.tp1)), RiskReward(Some(entry), Some(p.stop), Some(p.tp2));
      r != None ==> r2 != None && r2.value <= r.value
  {
    var risk, near, far := Abs(entry - p.stop), Abs(p.tp1 - entry), Abs(p.tp2 - entry);
    if near >= FLOAT_ZERO_EPSILON {
      RatioAntitone(risk, near, far);
      RoundMonotone(risk / far, risk / near, RATIO_SCALE);
    }
  }

  /** The ratio of the second target never exceeds that of the first, and it is
      there whenever the first one is. */
  lemma SecondRatioNoWorse(ohlcv: seq<Candle>, dir: Direction, entry: real, levels: seq<Level>)
    ensures var s := StrategyFor(ohlcv, dir, entry, levels);
      s.ratio != None ==> s.ratioTp2 != None && s.ratioTp2.value <= s.ratio.value
  {
    var atr := Atr(ohlcv, ATR_PERIOD);
    AtrNonNegative(ohlcv, ATR_PERIOD);
    PlanOrder(dir, entry, levels, atr);
    var u := Unrounded(dir, entry, levels, atr);
    RoundedRewards(entry, u.tp1, u.tp2);
    RatiosInOrder(entry, Rounded(u));
  }
}
