/** What the tallies, signals and factors say of the inputs they are computed from. */
module MarketMeaning {
  import opened MarketMirror
  import opened MarketSignals
  import opened Options
  import opened Rounding
  import opened StopTakeProfit

  // ----- What is counted -----

  /** The indicators with one of the given signals. */
  function Of(inds: seq<Indicator>, types: set<SignalType>): set<nat> {
    set i: nat | i < |inds| && inds[i].signal in types
  }

  function SmaOf(mas: seq<MovingAverage>, types: set<SignalType>): set<nat> {
    set i: nat | i < |mas| && mas[i].sma in types
  }

  function EmaOf(mas: seq<MovingAverage>, types: set<SignalType>): set<nat> {
    set i: nat | i < |mas| && mas[i].ema in types
  }

  lemma OfNext(inds: seq<Indicator>, n: nat, types: set<SignalType>)
    requires |inds| == n + 1
    ensures |Of(inds, types)| == |Of(inds[..n], types)| + if inds[n].signal in types then 1 else 0
  {
    assert Of(inds, types) == Of(inds[..n], types) + if inds[n].signal in types then {n} else {};
  }

  lemma SmaNext(mas: seq<MovingAverage>, n: nat, types: set<SignalType>)
    requires |mas| == n + 1
    ensures |SmaOf(mas, types)| == |SmaOf(mas[..n], types)| + if mas[n].sma in types then 1 else 0
  {
    assert SmaOf(mas, types) == SmaOf(mas[..n], types) + if mas[n].sma in types then {n} else {};
  }

  lemma EmaNext(mas: seq<MovingAverage>, n: nat, types: set<SignalType>)
    requires |mas| == n + 1
    ensures |EmaOf(mas, types)| == |EmaOf(mas[..n], types)| + if mas[n].ema in types then 1 else 0
  {
    assert EmaOf(mas, types) == EmaOf(mas[..n], types) + if mas[n].ema in types then {n} else {};
  }

  lemma AveragesNext(mas: seq<MovingAverage>, n: nat, types: set<SignalType>)
    requires |mas| == n + 1
    ensures |SmaOf(mas, types)| == |SmaOf(mas[..n], types)| + if mas[n].sma in types then 1 else 0
    ensures |EmaOf(mas, types)| == |EmaOf(mas[..n], types)| + if mas[n].ema in types then 1 else 0
  {
    SmaNext(mas, n, types);
    EmaNext(mas, n, types);
  }

  lemma NothingCounted()
    ensures forall types :: Of([], types) == {} && SmaOf([], types) == {} && EmaOf([], types) == {}
  {
  }

  /** Buy and strong buy count as buy, sell and strong sell as sell. */
  lemma {:induction false} IndicatorsCounted(inds: seq<Indicator>)
    ensures var t := TallyIndicators(inds);
      && t.buy == |Of(inds, {BUY, STRONG_BUY})| && t.sell == |Of(inds, {SELL, STRONG_SELL})| && t.neutral == |Of(inds, {NEUTRAL})|
  {
    hide Of;
    if inds == [] {
      NothingCounted();
    } else {
      var n := |inds| - 1;
      IndicatorsCounted(inds[..n]);
      OfNext(inds, n, {BUY, STRONG_BUY});
      OfNext(inds, n, {SELL, STRONG_SELL});
      OfNext(inds, n, {NEUTRAL});
    }
  }

  /** So it is with the two signals of every moving average. */
  lemma {:induction false} AveragesCounted(mas: seq<MovingAverage>)
    ensures var t := TallyAverages(mas);
      && t.buy == |SmaOf(mas, {BUY, STRONG_BUY})| + |EmaOf(mas, {BUY, STRONG_BUY})|
      && t.sell == |SmaOf(mas, {SELL, STRONG_SELL})| + |EmaOf(mas, {SELL, STRONG_SELL})|
      && t.neutral == |SmaOf(mas, {NEUTRAL})| + |EmaOf(mas, {NEUTRAL})|
  {
    hide SmaOf, EmaOf;
    if mas == [] {
      NothingCounted();
    } else {
      var n := |mas| - 1;
      AveragesCounted(mas[..n]);
      AveragesNext(mas, n, {BUY, STRONG_BUY});
      AveragesNext(mas, n, {SELL, STRONG_SELL});
      AveragesNext(mas, n, {NEUTRAL});
    }
  }

  lemma AddCounts(t: Tally, signal: SignalType)
    ensures Total(Add(t, signal)) == Total(t) + 1
  {
  }

  lemma EmptyTally()
    ensures Total(Tally(0, 0, 0)) == 0
  {
  }

  lemma {:induction false} AllIndicators(inds: seq<Indicator>)
    ensures Total(TallyIndicators(inds)) == |inds|
  {
    hide Add, Total;
    if inds == [] {
      EmptyTally();
    } else {
      AllIndicators(inds[..|inds| - 1]);
      AddCounts(TallyIndicators(inds[..|inds| - 1]), inds[|inds| - 1].signal);
    }
  }

  lemma {:induction false} AllAverages(mas: seq<MovingAverage>)
    ensures Total(TallyAverages(mas)) == 2 * |mas|
  {
    hide Add, Total;
    if mas == [] {
      EmptyTally();
    } else {
      var t, ma := TallyAverages(mas[..|mas| - 1]), mas[|mas| - 1];
      AllAverages(mas[..|mas| - 1]);
      AddCounts(t, ma.sma);
      AddCounts(Add(t, ma.sma), ma.ema);
    }
  }

  /** The overall tally of a summary is both together, and the overall answer is its. */
  lemma OverallIs(inds: seq<Indicator>, mas: seq<MovingAverage>)
    ensures var s := Summarise(inds, mas);
      && s.overall.buy == |Of(inds, {BUY, STRONG_BUY})| + |SmaOf(mas, {BUY, STRONG_BUY})| + |EmaOf(mas, {BUY, STRONG_BUY})|
      && s.overall.sell == |Of(inds, {SELL, STRONG_SELL})| + |SmaOf(mas, {SELL, STRONG_SELL})| + |EmaOf(mas, {SELL, STRONG_SELL})|
      && s.overall.buy + s.overall.sell + s.overall.neutral == |inds| + 2 * |mas|
      && s.overallSummary == OverallSignal(s.overall.buy, s.overall.sell, |inds| + 2 * |mas|)
  {
    hide Of, SmaOf, EmaOf, OverallSignal;
    IndicatorsCounted(inds);
    AveragesCounted(mas);
    AllIndicators(inds);
    AllAverages(mas);
  }

  // ----- The technical signal -----

  lemma {:induction false} IndicatorPoints(inds: seq<Indicator>)
    ensures Sum(IndicatorScores(inds)) ==
      |Of(inds, {STRONG_BUY})| as real - |Of(inds, {STRONG_SELL})| as real
      + (|Of(inds, {BUY})| as real - |Of(inds, {SELL})| as real) / 2.0
  {
    hide Of;
    if inds == [] {
      NothingCounted();
    } else {
      var n := |inds| - 1;
      var scores := IndicatorScores(inds);
      IndicatorPoints(inds[..n]);
      OfNext(inds, n, {STRONG_BUY});
      OfNext(inds, n, {STRONG_SELL});
      OfNext(inds, n, {BUY});
      OfNext(inds, n, {SELL});
      assert scores[..n] == IndicatorScores(inds[..n]);
    }
  }

  lemma SumOfTwo(xs: seq<real>, a: real, b: real)
    ensures Sum(xs + [a, b]) == Sum(xs) + a + b
  {
    var ys := xs + [a];
    assert xs + [a, b] == ys + [b];
    assert (ys + [b])[..|ys|] == ys && ys[..|xs|] == xs;
  }

  lemma {:induction false} AveragePoints(mas: seq<MovingAverage>)
    ensures Sum(AverageScores(mas)) ==
      (|SmaOf(mas, {STRONG_BUY})| + |EmaOf(mas, {STRONG_BUY})|) as real
      - (|SmaOf(mas, {STRONG_SELL})| + |EmaOf(mas, {STRONG_SELL})|) as real
      + ((|SmaOf(mas, {BUY})| + |EmaOf(mas, {BUY})|) as real - (|SmaOf(mas, {SELL})| + |EmaOf(mas, {SELL})|) as real) / 2.0
  {
    hide SmaOf, EmaOf;
    if mas == [] {
      NothingCounted();
    } else {
      var n := |mas| - 1;
      AveragePoints(mas[..n]);
      AveragesNext(mas, n, {STRONG_BUY});
      AveragesNext(mas, n, {STRONG_SELL});
      AveragesNext(mas, n, {BUY});
      AveragesNext(mas, n, {SELL});
      SumOfTwo(AverageScores(mas[..n]), SignalScore(mas[n].sma), SignalScore(mas[n].ema));
    }
  }

  lemma {:induction false} SumParts(a: seq<real>, b: seq<real>)
    ensures Sum(a + b) == Sum(a) + Sum(b)
  {
    if b == [] {
      assert a + b == a;
    } else {
      SumParts(a, b[..|b| - 1]);
      assert (a + b)[..|a + b| - 1] == a + b[..|b| - 1];
    }
  }

  /** How many of all signals are of one type. */
  function Votes(inds: seq<Indicator>, mas: seq<MovingAverage>, t: SignalType): nat {
    |Of(inds, {t})| + |SmaOf(mas, {t})| + |EmaOf(mas, {t})|
  }

  lemma EmptySum()
    ensures Sum([]) == 0.0
  {
  }

  /** Without a summary the technical signal is a point for every strong buy and half a
      one for every buy, less the same for the sells, per signal. */
  lemma TaSignalIs(inds: seq<Indicator>, mas: seq<MovingAverage>)
    ensures inds == [] && mas == [] ==> TaSignal(inds, mas, None) == 0.0
    ensures TaSignal(inds, mas, None) * (|inds| + 2 * |mas|) as real ==
      Votes(inds, mas, STRONG_BUY) as real - Votes(inds, mas, STRONG_SELL) as real
      + (Votes(inds, mas, BUY) as real - Votes(inds, mas, SELL) as real) / 2.0
  {
    hide Of, SmaOf, EmaOf, IndicatorScores, AverageScores, Sum;
    var scores := IndicatorScores(inds) + AverageScores(mas);
    SumParts(IndicatorScores(inds), AverageScores(mas));
    IndicatorPoints(inds);
    AveragePoints(mas);
    if scores == [] {
      EmptySum();
    } else {
      DivMul(Sum(scores), |scores| as real);
    }
  }

  // ----- The patterns -----

  function OfReliability(ps: seq<Pattern>, r: nat): set<nat> {
    set i: nat | i < |ps| && ps[i].reliability == r
  }

  lemma NoReliability()
    ensures forall r :: OfReliability([], r) == {}
  {
  }

  lemma ReliabilityNext(ps: seq<Pattern>, n: nat, r: nat)
    requires |ps| == n + 1
    ensures |OfReliability(ps, r)| == |OfReliability(ps[..n], r)| + if ps[n].reliability == r then 1 else 0
  {
    assert OfReliability(ps, r) == OfReliability(ps[..n], r) + if ps[n].reliability == r then {n} else {};
  }

  /** One, 1.3 or 1.6 by reliability. */
  lemma {:induction false} WeightsCounted(ps: seq<Pattern>)
    ensures MaxWeight(ps) == |OfReliability(ps, 1)| as real + |OfReliability(ps, 2)| as real * 1.3 + |OfReliability(ps, 3)| as real * 1.6
  {
    hide OfReliability;
    if ps == [] {
      NoReliability();
    } else {
      var n := |ps| - 1;
      WeightsCounted(ps[..n]);
      ReliabilityNext(ps, n, 1);
      ReliabilityNext(ps, n, 2);
      ReliabilityNext(ps, n, 3);
    }
  }

  lemma NextSum(ps: seq<Pattern>, p: Pattern)
    ensures SignedSum(ps + [p], true) == SignedSum(ps, true) + Contribution(p, true)
  {
    assert (ps + [p])[..|ps|] == ps;
  }

  lemma NoPattern()
    ensures PatternSignal([]) * MaxWeight([]) == SignedSum([], true)
  {
  }

  lemma SignalTimesWeight(ps: seq<Pattern>)
    ensures PatternSignal(ps) * MaxWeight(ps) == SignedSum(ps, true)
  {
    hide SignedSum, MaxWeight, PatternSignal;
    if ps == [] {
      NoPattern();
    } else {
      PatternClampIdle(ps);
      DivMul(SignedSum(ps, true), MaxWeight(ps));
    }
  }

  /** One more pattern pulls the weighted sum up if it is bullish and down if not, by its
      relevance, or its confidence without one, times its weight. */
  lemma NextPattern(ps: seq<Pattern>, p: Pattern)
    ensures var strength := if p.relevance > 0.0 then p.relevance else p.confidence;
      var weight := match p.reliability case 1 => 1.0 case 2 => 1.3 case _ => 1.6;
      PatternSignal(ps + [p]) * MaxWeight(ps + [p])
        == PatternSignal(ps) * MaxWeight(ps) + (if p.bullish then strength * weight else -(strength * weight))
  {
    hide MaxWeight, SignedSum;
    SignalTimesWeight(ps);
    SignalTimesWeight(ps + [p]);
    NextSum(ps, p);
  }

  // ----- The other factors -----

  /** The fundamental score as a signal, and as agreement with a direction. */
  lemma FundamentalIs(f: Option<FundamentalScore>)
    ensures f == None ==> FundamentalSignal(f) == 0.0 && FundamentalAlignment(LONG, f) == 0.5 && FundamentalAlignment(SHORT, f) == 0.5
    ensures f != None ==>
      && FundamentalSignal(f) * 100.0 == f.value
      && FundamentalAlignment(LONG, f) * 200.0 == 100.0 + f.value
      && FundamentalAlignment(SHORT, f) * 200.0 == 100.0 - f.value
  {
  }

  lemma {:induction false} AgreeingCounted(inds: seq<Indicator>, dir: Direction)
    ensures Agreeing(inds, dir) == |Of(inds, if dir == LONG then {BUY, STRONG_BUY} else {SELL, STRONG_SELL})|
  {
    hide Of;
    if inds == [] {
      NothingCounted();
    } else {
      AgreeingCounted(inds[..|inds| - 1], dir);
      OfNext(inds, |inds| - 1, if dir == LONG then {BUY, STRONG_BUY} else {SELL, STRONG_SELL});
    }
  }

  lemma SummaryShare(dir: Direction, inds: seq<Indicator>, s: Summary)
    ensures var t := s.overall;
      TaAgreement(dir, inds, Some(s)) == if Total(t) == 0 then 0.0 else (if dir == LONG then t.buy else t.sell) as real / Total(t) as real
  {
  }

  /** With a summary the technical agreement is the share of its signals that point in
      the direction. */
  lemma SummaryAgreement(dir: Direction, inds: seq<Indicator>, s: Summary)
    ensures TaAgreement(dir, inds, Some(s)) * (s.overall.buy + s.overall.sell + s.overall.neutral) as real
      == (if dir == LONG then s.overall.buy else s.overall.sell) as real
    ensures s.overall.buy + s.overall.sell + s.overall.neutral == 0 ==> TaAgreement(dir, inds, Some(s)) == 0.0
  {
    hide TaAgreement;
    SummaryShare(dir, inds, s);
    var n, t := if dir == LONG then s.overall.buy else s.overall.sell, Total(s.overall);
    if t > 0 { DivMul(n as real, t as real); }
  }

  lemma IndicatorShare(dir: Direction, inds: seq<Indicator>)
    ensures TaAgreement(dir, inds, None) == if inds == [] then 0.0 else Agreeing(inds, dir) as real / |inds| as real
  {
  }

  /** Without one it is the share of the indicators that do. */
  lemma IndicatorAgreement(dir: Direction, inds: seq<Indicator>)
    ensures TaAgreement(dir, inds, None) * |inds| as real
      == |Of(inds, if dir == LONG then {BUY, STRONG_BUY} else {SELL, STRONG_SELL})| as real
    ensures inds == [] ==> TaAgreement(dir, inds, None) == 0.0
  {
    hide Of, TaAgreement, Agreeing;
    AgreeingCounted(inds, dir);
    IndicatorShare(dir, inds);
    if inds == [] {
      NothingCounted();
    } else {
      DivMul(Agreeing(inds, dir) as real, |inds| as real);
    }
  }

  /** The strength is a fiftieth of the first reading of the ADX, at most 1, and a half
      without any. */
  lemma {:induction false} AdxIs(inds: seq<Indicator>, k: nat)
    requires k <= |inds| && forall i | 0 <= i < k :: !inds[i].adx || inds[i].value == None
    ensures k == |inds| ==> AdxStrength(inds) == 0.5
    ensures k < |inds| && inds[k].adx && inds[k].value != None ==>
      AdxStrength(inds) == if inds[k].value.value < 50.0 then inds[k].value.value / 50.0 else 1.0
  {
    if k > 0 {
      assert forall i | 0 <= i < k - 1 :: inds[1..][i] == inds[i + 1];
      AdxIs(inds[1..], k - 1);
    }
  }

  /** Without thresholds of its own a call decides at 0.15 and -0.15. */
  lemma DirectionIs(score: real, bullish: Option<real>, bearish: Option<real>)
    ensures var up := if bullish == None then 0.15 else bullish.value;
      var down := if bearish == None then -0.15 else bearish.value;
      && (DetermineDirection(score, bullish, bearish) == Some(LONG) <==> score >= up)
      && (DetermineDirection(score, bullish, bearish) == Some(SHORT) <==> down >= score && score < up)
  {
  }

  lemma QuotientInBounds(q: real, sum: real, total: real)
    requires total > 0.0 && -total <= sum <= total && q * total == sum
    ensures -1.0 <= q <= 1.0
  {
    QuotientAt(q, sum, total, 1.0);
    QuotientAt(q, sum, total, -1.0);
  }

  lemma MeanInBounds(sum: real, total: real)
    requires total > 0.0 && -total <= sum <= total
    ensures Clamp(-1.0, sum / total, 1.0) * total == sum
  {
    DivMul(sum, total);
    QuotientInBounds(sum / total, sum, total);
  }

  /** With other weights the score is the weighted mean as far as [-1, 1] goes, and
      nothing if the weights cancel out. */
  lemma ScoreIs(x: Inputs, w: Weights)
    ensures var total := w.technical + w.patterns + w.fundamental;
      var sum := TaSignal(x.indicators, x.averages, x.summary) * w.technical + PatternSignal(x.patterns) * w.patterns
        + FundamentalSignal(x.fundamental) * w.fundamental;
      var score := WeightedScore(x, Some(w));
      && -1.0 <= score <= 1.0
      && (-0.000000001 < total < 0.000000001 ==> score == 0.0)
      && (total >= 0.000000001 && -total <= sum <= total ==> score * total == sum)
  {
    hide TaSignal, PatternSignal, FundamentalSignal, WeightedSum, TotalWeight;
    SumOfThree(Sources(x, Some(w)));
    var total, sum := TotalWeight(Sources(x, Some(w))), WeightedSum(Sources(x, Some(w)));
    if total >= 0.000000001 && -total <= sum <= total {
      MeanInBounds(sum, total);
    }
  }
}
