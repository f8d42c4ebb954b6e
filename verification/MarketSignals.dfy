/** From indicator, pattern and fundamental inputs to a summary, a weighted score,
    a direction and a confidence. */
module MarketSignals {
  import opened Options
  import opened Rounding
  import opened StopTakeProfit

  datatype SignalType = STRONG_SELL | SELL | NEUTRAL | BUY | STRONG_BUY

  type Unit = x: real | 0.0 <= x <= 1.0 witness 0.0
  type Reliability = n: nat | 1 <= n <= 3 witness 1
  type FundamentalScore = x: real | -100.0 <= x <= 100.0 witness 0.0

  /** `adx` says that the name starts with "ADX". */
  datatype Indicator = Indicator(adx: bool, value: Option<real>, signal: SignalType)

  datatype MovingAverage = MovingAverage(sma: SignalType, ema: SignalType)

  datatype Pattern = Pattern(bullish: bool, confidence: Unit, relevance: Unit, reliability: Reliability)

  datatype Tally = Tally(buy: nat, sell: nat, neutral: nat)

  datatype Summary = Summary(
    maSummary: SignalType, ma: Tally, indicatorsSummary: SignalType, indicators: Tally,
    overallSummary: SignalType, overall: Tally)

  const FLOAT_ZERO_EPSILON := 0.000000001

  // ----- The summary -----

  function Add(t: Tally, signal: SignalType): Tally {
    match signal
    case BUY => t.(buy := t.buy + 1)
    case STRONG_BUY => t.(buy := t.buy + 1)
    case SELL => t.(sell := t.sell + 1)
    case STRONG_SELL => t.(sell := t.sell + 1)
    case NEUTRAL => t.(neutral := t.neutral + 1)
  }

  function Total(t: Tally): nat {
    t.buy + t.sell + t.neutral
  }

  function Both(a: Tally, b: Tally): Tally {
    Tally(a.buy + b.buy, a.sell + b.sell, a.neutral + b.neutral)
  }

  function OverallSignal(buy: nat, sell: nat, total: nat): SignalType {
    if total == 0 then NEUTRAL
    else
      var buyPct, sellPct := buy as real / total as real, sell as real / total as real;
      if buyPct >= 0.75 then STRONG_BUY
      else if buyPct >= 0.55 then BUY
      else if sellPct >= 0.75 then STRONG_SELL
      else if sellPct >= 0.55 then SELL
      else NEUTRAL
  }

  function TallyIndicators(inds: seq<Indicator>): Tally {
    if inds == [] then Tally(0, 0, 0) else Add(TallyIndicators(inds[..|inds| - 1]), inds[|inds| - 1].signal)
  }

  function TallyAverages(mas: seq<MovingAverage>): Tally {
    if mas == [] then Tally(0, 0, 0)
    else
      var ma := mas[|mas| - 1];
      Add(Add(TallyAverages(mas[..|mas| - 1]), ma.sma), ma.ema)
  }

  function SummaryOf(ma: Tally, ind: Tally): Summary {
    var all := Both(ma, ind);
    Summary(OverallSignal(ma.buy, ma.sell, Total(ma)), ma,
            OverallSignal(ind.buy, ind.sell, Total(ind)), ind,
            OverallSignal(all.buy, all.sell, Total(all)), all)
  }

  function Summarise(inds: seq<Indicator>, mas: seq<MovingAverage>): Summary {
    SummaryOf(TallyAverages(mas), TallyIndicators(inds))
  }

  method CalculateSummaries(inds: seq<Indicator>, mas: seq<MovingAverage>) returns (s: Summary)
    ensures s == Summarise(inds, mas)
  {
    var ma := Tally(0, 0, 0);
    for i := 0 to |mas|
      invariant ma == TallyAverages(mas[..i])
    {
      assert mas[..i + 1][..i] == mas[..i];
      ma := Add(ma, mas[i].sma);
      ma := Add(ma, mas[i].ema);
    }
    assert mas[..|mas|] == mas;
    var ind := Tally(0, 0, 0);
    for i := 0 to |inds|
      invariant ind == TallyIndicators(inds[..i])
    {
      assert inds[..i + 1][..i] == inds[..i];
      ind := Add(ind, inds[i].signal);
    }
    assert inds[..|inds|] == inds;
    s := SummaryOf(ma, ind);
  }

  // ----- The aggregator -----

  function SignalScore(signal: SignalType): real {
    match signal
    case STRONG_SELL => -1.0
    case SELL => -0.5
    case NEUTRAL => 0.0
    case BUY => 0.5
    case STRONG_BUY => 1.0
  }

  function IndicatorScores(inds: seq<Indicator>): (r: seq<real>)
    ensures |r| == |inds|
  {
    if inds == [] then [] else IndicatorScores(inds[..|inds| - 1]) + [SignalScore(inds[|inds| - 1].signal)]
  }

  function AverageScores(mas: seq<MovingAverage>): (r: seq<real>)
    ensures |r| == 2 * |mas|
  {
    if mas == [] then []
    else AverageScores(mas[..|mas| - 1]) + [SignalScore(mas[|mas| - 1].sma), SignalScore(mas[|mas| - 1].ema)]
  }

  /** With a summary its overall signal decides, else the mean of all scores. */
  function TaSignal(inds: seq<Indicator>, mas: seq<MovingAverage>, summary: Option<Summary>): real {
    if summary != None then SignalScore(summary.value.overallSummary)
    else
      var scores := IndicatorScores(inds) + AverageScores(mas);
      if scores == [] then 0.0 else Mean(scores)
  }

  method NormalizeTaSignal(inds: seq<Indicator>, mas: seq<MovingAverage>, summary: Option<Summary>) returns (r: real)
    ensures r == TaSignal(inds, mas, summary)
  {
    if summary != None {
      return SignalScore(summary.value.overallSummary);
    }
    var scores: seq<real> := [];
    for i := 0 to |inds|
      invariant scores == IndicatorScores(inds[..i])
    {
      assert inds[..i + 1][..i] == inds[..i];
      scores := scores + [SignalScore(inds[i].signal)];
    }
    assert inds[..|inds|] == inds;
    ghost var first := scores;
    for i := 0 to |mas|
      invariant scores == first + AverageScores(mas[..i])
    {
      assert mas[..i + 1][..i] == mas[..i];
      scores := scores + [SignalScore(mas[i].sma)];
      scores := scores + [SignalScore(mas[i].ema)];
      assert scores == first + (AverageScores(mas[..i]) + [SignalScore(mas[i].sma), SignalScore(mas[i].ema)]);
    }
    assert mas[..|mas|] == mas;
    if scores == [] {
      return 0.0;
    }
    return Mean(scores);
  }

  function PatternStrength(p: Pattern): Unit {
    if p.relevance > 0.0 then p.relevance else p.confidence
  }

  function Multiplier(p: Pattern): (m: real)
    ensures m >= 1.0
  {
    if p.reliability == 1 then 1.0 else if p.reliability == 2 then 1.3 else 1.6
  }

  /** Positive for a pattern of the given kind. */
  function Contribution(p: Pattern, bullish: bool): real {
    (if p.bullish == bullish then 1.0 else -1.0) * (PatternStrength(p) * Multiplier(p))
  }

  function SignedSum(ps: seq<Pattern>, bullish: bool): real {
    if ps == [] then 0.0 else SignedSum(ps[..|ps| - 1], bullish) + Contribution(ps[|ps| - 1], bullish)
  }

  function MaxWeight(ps: seq<Pattern>): (w: real)
    ensures w >= |ps| as real
  {
    if ps == [] then 0.0 else MaxWeight(ps[..|ps| - 1]) + Multiplier(ps[|ps| - 1])
  }

  function Clamp(lo: real, x: real, hi: real): real {
    Max(lo, Min(hi, x))
  }

  function PatternSignal(ps: seq<Pattern>): real {
    if ps == [] then 0.0 else Clamp(-1.0, SignedSum(ps, true) / MaxWeight(ps), 1.0)
  }

  method NormalizePatternSignal(ps: seq<Pattern>) returns (r: real)
    ensures r == PatternSignal(ps)
  {
    if ps == [] {
      return 0.0;
    }
    var weightedSum, totalMaxWeight := 0.0, 0.0;
    for i := 0 to |ps|
      invariant weightedSum == SignedSum(ps[..i], true) && totalMaxWeight == MaxWeight(ps[..i])
    {
      assert ps[..i + 1][..i] == ps[..i];
      var direction := if ps[i].bullish then 1.0 else -1.0;
      weightedSum := weightedSum + direction * (PatternStrength(ps[i]) * Multiplier(ps[i]));
      totalMaxWeight := totalMaxWeight + Multiplier(ps[i]);
    }
    assert ps[..|ps|] == ps;
    return Clamp(-1.0, weightedSum / totalMaxWeight, 1.0);
  }

  function FundamentalSignal(f: Option<FundamentalScore>): real {
    if f == None then 0.0 else f.value / 100.0
  }

  // ----- The weighted score -----

  /** A missing source has weight zero. */
  datatype Weights = Weights(technical: real, patterns: real, fundamental: real)

  const DEFAULT_WEIGHTS := Weights(0.5, 0.3, 0.2)

  datatype Inputs = Inputs(
    indicators: seq<Indicator>, averages: seq<MovingAverage>, summary: Option<Summary>,
    patterns: seq<Pattern>, fundamental: Option<FundamentalScore>)

  /** A score with its weight. */
  datatype Part = Part(score: real, weight: real)

  function WeightedSum(parts: seq<Part>): real {
    if parts == [] then 0.0
    else WeightedSum(parts[..|parts| - 1]) + parts[|parts| - 1].score * parts[|parts| - 1].weight
  }

  function TotalWeight(parts: seq<Part>): real {
    if parts == [] then 0.0 else TotalWeight(parts[..|parts| - 1]) + parts[|parts| - 1].weight
  }

  function Sources(x: Inputs, weights: Option<Weights>): seq<Part> {
    var w := if weights == None then DEFAULT_WEIGHTS else weights.value;
    [Part(TaSignal(x.indicators, x.averages, x.summary), w.technical),
     Part(PatternSignal(x.patterns), w.patterns),
     Part(FundamentalSignal(x.fundamental), w.fundamental)]
  }

  function Weighed(parts: seq<Part>): real {
    if Abs(TotalWeight(parts)) < FLOAT_ZERO_EPSILON then 0.0
    else Clamp(-1.0, WeightedSum(parts) / TotalWeight(parts), 1.0)
  }

  function WeightedScore(x: Inputs, weights: Option<Weights>): real {
    Weighed(Sources(x, weights))
  }

  method Weigh(parts: seq<Part>) returns (r: real)
    ensures r == Weighed(parts)
  {
    var weightedSum, totalWeight := 0.0, 0.0;
    for i := 0 to |parts|
      invariant weightedSum == WeightedSum(parts[..i]) && totalWeight == TotalWeight(parts[..i])
    {
      assert parts[..i + 1][..i] == parts[..i];
      weightedSum := weightedSum + parts[i].score * parts[i].weight;
      totalWeight := totalWeight + parts[i].weight;
    }
    assert parts[..|parts|] == parts;
    if Abs(totalWeight) < FLOAT_ZERO_EPSILON {
      return 0.0;
    }
    return Clamp(-1.0, weightedSum / totalWeight, 1.0);
  }

  method CalculateWeightedScore(x: Inputs, weights: Option<Weights>) returns (r: real)
    ensures r == WeightedScore(x, weights)
  {
    var w := if weights == None then DEFAULT_WEIGHTS else weights.value;
    var ta := NormalizeTaSignal(x.indicators, x.averages, x.summary);
    var patterns := NormalizePatternSignal(x.patterns);
    r := Weigh([Part(ta, w.technical), Part(patterns, w.patterns), Part(FundamentalSignal(x.fundamental), w.fundamental)]);
  }

  const BULLISH_THRESHOLD := 0.15
  const BEARISH_THRESHOLD := -0.15

  function DetermineDirection(score: real, bullish: Option<real>, bearish: Option<real>): Option<Direction> {
    var b := if bullish != None then bullish.value else BULLISH_THRESHOLD;
    var s := if bearish != None then bearish.value else BEARISH_THRESHOLD;
    if score >= b then Some(LONG) else if score <= s then Some(SHORT) else None
  }

  // ----- Confidence -----

  function Agreeing(inds: seq<Indicator>, dir: Direction): nat {
    if inds == [] then 0
    else
      var s := inds[|inds| - 1].signal;
      Agreeing(inds[..|inds| - 1], dir)
      + (if (if dir == LONG then s == BUY || s == STRONG_BUY else s == SELL || s == STRONG_SELL) then 1 else 0)
  }

  function TaAgreement(dir: Direction, inds: seq<Indicator>, summary: Option<Summary>): real {
    if summary != None then
      var t := summary.value.overall;
      if Total(t) == 0 then 0.0
      else if dir == LONG then t.buy as real / Total(t) as real
      else t.sell as real / Total(t) as real
    else if inds == [] then 0.0
    else Agreeing(inds, dir) as real / |inds| as real
  }

  function PatternConfirmation(dir: Direction, ps: seq<Pattern>): real {
    if ps == [] || MaxWeight(ps) < FLOAT_ZERO_EPSILON then 0.0
    else Clamp(0.0, SignedSum(ps, dir == LONG) / MaxWeight(ps), 1.0)
  }

  method ConfirmPatterns(dir: Direction, ps: seq<Pattern>) returns (r: real)
    ensures r == PatternConfirmation(dir, ps)
  {
    if ps == [] {
      return 0.0;
    }
    var signedSum, totalMaxWeight := 0.0, 0.0;
    for i := 0 to |ps|
      invariant signedSum == SignedSum(ps[..i], dir == LONG) && totalMaxWeight == MaxWeight(ps[..i])
    {
      assert ps[..i + 1][..i] == ps[..i];
      var alignment := if ps[i].bullish == (dir == LONG) then 1.0 else -1.0;
      signedSum := signedSum + alignment * (PatternStrength(ps[i]) * Multiplier(ps[i]));
      totalMaxWeight := totalMaxWeight + Multiplier(ps[i]);
    }
    assert ps[..|ps|] == ps;
    if totalMaxWeight < FLOAT_ZERO_EPSILON {
      return 0.0;
    }
    return Clamp(0.0, signedSum / totalMaxWeight, 1.0);
  }

  function FundamentalAlignment(dir: Direction, f: Option<FundamentalScore>): real {
    if f == None then 0.5
    else Clamp(0.0, ((if dir == LONG then f.value else -f.value) + 100.0) / 200.0, 1.0)
  }

  /** The first indicator named ADX with a value. */
  function AdxStrength(inds: seq<Indicator>): real {
    if inds == [] then 0.5
    else if inds[0].adx && inds[0].value != None then Min(1.0, inds[0].value.value / 50.0)
    else AdxStrength(inds[1..])
  }

  function Factors(dir: Direction, x: Inputs): seq<Part> {
    [Part(TaAgreement(dir, x.indicators, x.summary), 0.40),
     Part(PatternConfirmation(dir, x.patterns), 0.25),
     Part(FundamentalAlignment(dir, x.fundamental), 0.15),
     Part(AdxStrength(x.indicators), 0.20)]
  }

  function ConfidenceOf(dir: Direction, x: Inputs): real {
    var scores := Factors(dir, x);
    if Abs(TotalWeight(scores)) < FLOAT_ZERO_EPSILON then 0.0
    else Round(Min(100.0, Max(0.0, WeightedSum(scores) / TotalWeight(scores) * 100.0)), 10.0)
  }

  method CalculateConfidence(dir: Direction, x: Inputs) returns (r: real)
    ensures r == ConfidenceOf(dir, x)
  {
    var scores := [Part(TaAgreement(dir, x.indicators, x.summary), 0.40)];
    var confirmation := ConfirmPatterns(dir, x.patterns);
    scores := scores + [Part(confirmation, 0.25)];
    scores := scores + [Part(FundamentalAlignment(dir, x.fundamental), 0.15)];
    scores := scores + [Part(AdxStrength(x.indicators), 0.20)];
    assert scores == Factors(dir, x);
    if Abs(TotalWeight(scores)) < FLOAT_ZERO_EPSILON {
      return 0.0;
    }
    return Round(Min(100.0, Max(0.0, WeightedSum(scores) / TotalWeight(scores) * 100.0)), 10.0);
  }
}
