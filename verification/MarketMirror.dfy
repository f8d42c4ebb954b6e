/** Turning the market upside down, carried through summary, score, direction and confidence. */
module MarketMirror {
  import opened Options
  import opened Rounding
  import opened StopTakeProfit
  import opened MarketSignals

  // ----- The mirror image -----

  function Opposed(s: SignalType): SignalType {
    match s
    case STRONG_SELL => STRONG_BUY
    case SELL => BUY
    case NEUTRAL => NEUTRAL
    case BUY => SELL
    case STRONG_BUY => STRONG_SELL
  }

  function MirrorIndicators(inds: seq<Indicator>): (r: seq<Indicator>)
    ensures |r| == |inds| && forall i | 0 <= i < |r| :: r[i] == inds[i].(signal := Opposed(inds[i].signal))
  {
    seq(|inds|, i requires 0 <= i < |inds| => inds[i].(signal := Opposed(inds[i].signal)))
  }

  function MirrorAverages(mas: seq<MovingAverage>): (r: seq<MovingAverage>)
    ensures |r| == |mas| && forall i | 0 <= i < |r| :: r[i] == MovingAverage(Opposed(mas[i].sma), Opposed(mas[i].ema))
  {
    seq(|mas|, i requires 0 <= i < |mas| => MovingAverage(Opposed(mas[i].sma), Opposed(mas[i].ema)))
  }

  function MirrorPatterns(ps: seq<Pattern>): (r: seq<Pattern>)
    ensures |r| == |ps| && forall i | 0 <= i < |r| :: r[i] == ps[i].(bullish := !ps[i].bullish)
  {
    seq(|ps|, i requires 0 <= i < |ps| => ps[i].(bullish := !ps[i].bullish))
  }

  function MirrorTally(t: Tally): Tally {
    Tally(t.sell, t.buy, t.neutral)
  }

  function MirrorSummary(s: Summary): Summary {
    Summary(Opposed(s.maSummary), MirrorTally(s.ma), Opposed(s.indicatorsSummary), MirrorTally(s.indicators),
            Opposed(s.overallSummary), MirrorTally(s.overall))
  }

  function MirrorInputs(x: Inputs): Inputs {
    Inputs(MirrorIndicators(x.indicators), MirrorAverages(x.averages),
           if x.summary == None then None else Some(MirrorSummary(x.summary.value)),
           MirrorPatterns(x.patterns),
           if x.fundamental == None then None else Some(-x.fundamental.value))
  }

  function OppositeDirection(d: Option<Direction>): Option<Direction> {
    match d
    case None => None
    case Some(LONG) => Some(SHORT)
    case Some(SHORT) => Some(LONG)
  }

  // ----- The summary -----

  lemma AtLeast(q: real, c: real, t: real)
    requires t > 0.0
    ensures q >= c <==> q * t >= c * t
  {
    if q >= c { MulMonotone(c, q, t); } else { assert (c - q) * t > 0.0; }
  }

  lemma ShareAt(q: real, n: real, t: real, c: real)
    requires q * t == n && t > 0.0
    ensures q >= c <==> n >= c * t
  {
    AtLeast(q, c, t);
  }

  lemma Bound(n: nat, total: nat)
    ensures n as real >= 0.75 * total as real <==> 4 * n >= 3 * total
    ensures n as real >= 0.55 * total as real <==> 20 * n >= 11 * total
  {
    assert (4 * n) as real == 4.0 * n as real && (3 * total) as real == 3.0 * total as real;
    assert (20 * n) as real == 20.0 * n as real && (11 * total) as real == 11.0 * total as real;
  }

  lemma Share(n: nat, total: nat)
    requires total > 0
    ensures n as real / total as real >= 0.75 <==> 4 * n >= 3 * total
    ensures n as real / total as real >= 0.55 <==> 20 * n >= 11 * total
  {
    DivMul(n as real, total as real);
    ShareAt(n as real / total as real, n as real, total as real, 0.75);
    ShareAt(n as real / total as real, n as real, total as real, 0.55);
    Bound(n, total);
  }

  /** Exactly what the five answers mean; no two can hold at once. */
  lemma OverallSignalIff(buy: nat, sell: nat, total: nat)
    requires buy + sell <= total && total > 0
    ensures OverallSignal(buy, sell, total) == STRONG_BUY <==> 4 * buy >= 3 * total
    ensures OverallSignal(buy, sell, total) == BUY <==> 20 * buy >= 11 * total && 4 * buy < 3 * total
    ensures OverallSignal(buy, sell, total) == STRONG_SELL <==> 4 * sell >= 3 * total
    ensures OverallSignal(buy, sell, total) == SELL <==> 20 * sell >= 11 * total && 4 * sell < 3 * total
  {
    Share(buy, total);
    Share(sell, total);
  }

  lemma NoSignal(buy: nat, sell: nat)
    ensures OverallSignal(buy, sell, 0) == NEUTRAL
  {
  }

  lemma OverallMirror(buy: nat, sell: nat, total: nat)
    requires buy + sell <= total
    ensures OverallSignal(sell, buy, total) == Opposed(OverallSignal(buy, sell, total))
  {
    hide OverallSignal;
    if total > 0 {
      OverallSignalIff(buy, sell, total);
      OverallSignalIff(sell, buy, total);
    } else {
      NoSignal(buy, sell);
      NoSignal(sell, buy);
    }
  }

  lemma {:induction false} IndicatorsMirror(inds: seq<Indicator>)
    ensures TallyIndicators(MirrorIndicators(inds)) == MirrorTally(TallyIndicators(inds))
  {
    if inds != [] {
      IndicatorsMirror(inds[..|inds| - 1]);
      assert MirrorIndicators(inds)[..|inds| - 1] == MirrorIndicators(inds[..|inds| - 1]);
    }
  }

  lemma {:induction false} AveragesMirror(mas: seq<MovingAverage>)
    ensures TallyAverages(MirrorAverages(mas)) == MirrorTally(TallyAverages(mas))
  {
    if mas != [] {
      AveragesMirror(mas[..|mas| - 1]);
      assert MirrorAverages(mas)[..|mas| - 1] == MirrorAverages(mas[..|mas| - 1]);
    }
  }

  /** Swapping buy and sell in all signals mirrors the summary. */
  lemma SummaryMirror(inds: seq<Indicator>, mas: seq<MovingAverage>)
    ensures Summarise(MirrorIndicators(inds), MirrorAverages(mas)) == MirrorSummary(Summarise(inds, mas))
  {
    hide OverallSignal, TallyIndicators, TallyAverages;
    IndicatorsMirror(inds);
    AveragesMirror(mas);
    var ma, ind := TallyAverages(mas), TallyIndicators(inds);
    OverallMirror(ma.buy, ma.sell, Total(ma));
    OverallMirror(ind.buy, ind.sell, Total(ind));
    OverallMirror(Both(ma, ind).buy, Both(ma, ind).sell, Total(Both(ma, ind)));
  }

  // ----- The aggregated signals -----

  lemma {:induction false} SumNeg(xs: seq<real>)
    ensures Sum(Neg(xs)) == -Sum(xs)
  {
    if xs != [] {
      SumNeg(xs[..|xs| - 1]);
      assert Neg(xs)[..|xs| - 1] == Neg(xs[..|xs| - 1]);
    }
  }

  lemma QuotientNeg(a: real, b: real)
    requires b != 0.0
    ensures (-a) / b == -(a / b)
  {
  }

  lemma {:induction false} IndicatorScoresMirror(inds: seq<Indicator>)
    ensures IndicatorScores(MirrorIndicators(inds)) == Neg(IndicatorScores(inds))
  {
    if inds != [] {
      IndicatorScoresMirror(inds[..|inds| - 1]);
      assert MirrorIndicators(inds)[..|inds| - 1] == MirrorIndicators(inds[..|inds| - 1]);
    }
  }

  lemma {:induction false} AverageScoresMirror(mas: seq<MovingAverage>)
    ensures AverageScores(MirrorAverages(mas)) == Neg(AverageScores(mas))
  {
    if mas != [] {
      AverageScoresMirror(mas[..|mas| - 1]);
      assert MirrorAverages(mas)[..|mas| - 1] == MirrorAverages(mas[..|mas| - 1]);
    }
  }

  lemma TaMirror(x: Inputs)
    ensures var m := MirrorInputs(x); TaSignal(m.indicators, m.averages, m.summary) == -TaSignal(x.indicators, x.averages, x.summary)
  {
    hide Sum, IndicatorScores, AverageScores;
    if x.summary == None {
      var a, b := IndicatorScores(x.indicators), AverageScores(x.averages);
      IndicatorScoresMirror(x.indicators);
      AverageScoresMirror(x.averages);
      assert Neg(a) + Neg(b) == Neg(a + b);
      SumNeg(a + b);
      if a + b != [] { QuotientNeg(Sum(a + b), |a + b| as real); }
    }
  }

  lemma TermBounded(strength: real, multiplier: real)
    requires 0.0 <= strength <= 1.0 && multiplier >= 1.0
    ensures 0.0 <= strength * multiplier <= multiplier
  {
  }

  lemma ContributionMirror(p: Pattern, p': Pattern, b: bool, b': bool)
    requires p' == p.(bullish := !p.bullish) && b' == !b
    ensures Contribution(p', b) == -Contribution(p, b) && Contribution(p, b') == -Contribution(p, b)
    ensures Multiplier(p') == Multiplier(p) && -Multiplier(p) <= Contribution(p, b) <= Multiplier(p)
  {
    TermBounded(PatternStrength(p), Multiplier(p));
  }

  lemma {:induction false} SignedSumMirror(ps: seq<Pattern>, b: bool, b': bool)
    requires b' == !b
    ensures SignedSum(MirrorPatterns(ps), b) == -SignedSum(ps, b)
    ensures SignedSum(ps, b') == -SignedSum(ps, b)
    ensures MaxWeight(MirrorPatterns(ps)) == MaxWeight(ps)
  {
    hide Contribution, Multiplier;
    if ps != [] {
      var n := |ps| - 1;
      SignedSumMirror(ps[..n], b, b');
      assert MirrorPatterns(ps)[..n] == MirrorPatterns(ps[..n]);
      ContributionMirror(ps[n], MirrorPatterns(ps)[n], b, b');
    }
  }

  /** No pattern weighs more than its multiplier. */
  lemma {:induction false} SignedSumBounded(ps: seq<Pattern>, b: bool)
    ensures -MaxWeight(ps) <= SignedSum(ps, b) <= MaxWeight(ps)
  {
    hide Contribution, Multiplier;
    if ps != [] {
      var n := |ps| - 1;
      SignedSumBounded(ps[..n], b);
      ContributionMirror(ps[n], MirrorPatterns(ps)[n], b, !b);
    }
  }

  lemma QuotientBounded(a: real, b: real)
    requires b > 0.0 && -b <= a <= b
    ensures -1.0 <= a / b <= 1.0
  {
    DivMonotone(a, b, b);
    DivMonotone(-b, a, b);
    QuotientNeg(b, b);
  }

  lemma PatternQuotient(ps: seq<Pattern>, b: bool)
    requires ps != []
    ensures -1.0 <= SignedSum(ps, b) / MaxWeight(ps) <= 1.0
  {
    SignedSumBounded(ps, b);
    QuotientBounded(SignedSum(ps, b), MaxWeight(ps));
  }

  /** The clamp of the pattern signal never fires. */
  lemma PatternClampIdle(ps: seq<Pattern>)
    requires ps != []
    ensures PatternSignal(ps) == SignedSum(ps, true) / MaxWeight(ps) && -1.0 <= PatternSignal(ps) <= 1.0
  {
    hide SignedSum, MaxWeight;
    PatternQuotient(ps, true);
  }

  lemma PatternMirror(ps: seq<Pattern>)
    ensures PatternSignal(MirrorPatterns(ps)) == -PatternSignal(ps)
  {
    if ps != [] {
      SignedSumMirror(ps, true, false);
      PatternClampIdle(ps);
      PatternClampIdle(MirrorPatterns(ps));
      QuotientNeg(SignedSum(ps, true), MaxWeight(ps));
    }
  }

  /** The confirmation of a direction is the positive part of the pattern signal, seen from it. */
  lemma ConfirmationIsPositivePart(ps: seq<Pattern>)
    ensures PatternConfirmation(LONG, ps) == Max(0.0, PatternSignal(ps))
    ensures PatternConfirmation(SHORT, ps) == Max(0.0, -PatternSignal(ps))
  {
    if ps != [] {
      SignedSumMirror(ps, true, false);
      PatternClampIdle(ps);
      QuotientNeg(SignedSum(ps, true), MaxWeight(ps));
    }
  }

  // ----- Score and direction -----

  lemma ClampNeg(x: real)
    ensures Clamp(-1.0, -x, 1.0) == -Clamp(-1.0, x, 1.0)
  {
  }

  lemma SumOfThree(ps: seq<Part>)
    requires |ps| == 3
    ensures WeightedSum(ps) == ps[0].score * ps[0].weight + ps[1].score * ps[1].weight + ps[2].score * ps[2].weight
    ensures TotalWeight(ps) == ps[0].weight + ps[1].weight + ps[2].weight
  {
    var two, one := ps[..2], ps[..2][..1];
    assert one[..0] == [];
    assert WeightedSum(one) == one[0].score * one[0].weight && TotalWeight(one) == one[0].weight;
    assert WeightedSum(two) == WeightedSum(one) + two[1].score * two[1].weight && TotalWeight(two) == TotalWeight(one) + two[1].weight;
  }

  lemma ProductNeg(a: real, b: real, c: real)
    requires c == -a
    ensures c * b == -(a * b)
  {
  }

  lemma WeighedNeg(ps: seq<Part>, qs: seq<Part>)
    requires |ps| == |qs| == 3 && forall i | 0 <= i < 3 :: qs[i].score == -ps[i].score && qs[i].weight == ps[i].weight
    ensures Weighed(qs) == -Weighed(ps)
  {
    hide Clamp, WeightedSum, TotalWeight;
    SumOfThree(ps);
    SumOfThree(qs);
    ProductNeg(ps[0].score, ps[0].weight, qs[0].score);
    ProductNeg(ps[1].score, ps[1].weight, qs[1].score);
    ProductNeg(ps[2].score, ps[2].weight, qs[2].score);
    var a, b := WeightedSum(ps), TotalWeight(ps);
    assert WeightedSum(qs) == -a && TotalWeight(qs) == b;
    if Abs(b) >= FLOAT_ZERO_EPSILON {
      QuotientNeg(a, b);
      ClampNeg(a / b);
      assert Weighed(qs) == Clamp(-1.0, (-a) / b, 1.0);
    }
  }

  lemma FundamentalMirror(f: Option<FundamentalScore>, g: Option<FundamentalScore>)
    requires f == None <==> g == None
    requires f != None && g != None ==> g.value == -f.value
    ensures FundamentalSignal(g) == -FundamentalSignal(f) && -1.0 <= FundamentalSignal(f) <= 1.0
    ensures FundamentalAlignment(LONG, g) == FundamentalAlignment(SHORT, f)
    ensures FundamentalAlignment(SHORT, g) == FundamentalAlignment(LONG, f)
    ensures f != None ==> FundamentalAlignment(LONG, f) == (f.value + 100.0) / 200.0
  {
  }

  /** Whatever the weights, the score of the mirrored market is the negated score. */
  lemma ScoreMirror(x: Inputs, weights: Option<Weights>)
    ensures WeightedScore(MirrorInputs(x), weights) == -WeightedScore(x, weights)
  {
    hide TaSignal, PatternSignal, Weighed;
    var m := MirrorInputs(x);
    TaMirror(x);
    PatternMirror(x.patterns);
    FundamentalMirror(x.fundamental, m.fundamental);
    WeighedNeg(Sources(x, weights), Sources(m, weights));
  }

  /** Negating the score and both thresholds flips the direction, as long as the
      thresholds are ordered. */
  lemma DirectionMirror(score: real, bullish: real, bearish: real, score': real, bullish': real, bearish': real)
    requires bearish < bullish && score' == -score && bullish' == -bearish && bearish' == -bullish
    ensures DetermineDirection(score', Some(bullish'), Some(bearish')) == OppositeDirection(DetermineDirection(score, Some(bullish), Some(bearish)))
  {
  }

  /** The default thresholds are symmetric, so the decision on the mirrored market is the opposite one. */
  lemma DecisionMirror(x: Inputs, weights: Option<Weights>)
    ensures DetermineDirection(WeightedScore(MirrorInputs(x), weights), None, None)
      == OppositeDirection(DetermineDirection(WeightedScore(x, weights), None, None))
  {
    hide WeightedScore;
    ScoreMirror(x, weights);
  }

  lemma {:induction false} SumUnit(xs: seq<real>)
    requires forall i | 0 <= i < |xs| :: -1.0 <= xs[i] <= 1.0
    ensures -(|xs| as real) <= Sum(xs) <= |xs| as real
  {
    if xs != [] { SumUnit(xs[..|xs| - 1]); }
  }

  lemma {:induction false} ScoresUnit(inds: seq<Indicator>, mas: seq<MovingAverage>)
    ensures forall i | 0 <= i < |inds| :: -1.0 <= IndicatorScores(inds)[i] <= 1.0
    ensures forall i | 0 <= i < 2 * |mas| :: -1.0 <= AverageScores(mas)[i] <= 1.0
    decreases |inds| + |mas|
  {
    if inds != [] { ScoresUnit(inds[..|inds| - 1], mas); }
    if mas != [] { ScoresUnit(inds, mas[..|mas| - 1]); }
  }

  lemma TaBounded(x: Inputs)
    ensures -1.0 <= TaSignal(x.indicators, x.averages, x.summary) <= 1.0
  {
    if x.summary == None {
      var scores := IndicatorScores(x.indicators) + AverageScores(x.averages);
      ScoresUnit(x.indicators, x.averages);
      SumUnit(scores);
      if scores != [] { QuotientBounded(Sum(scores), |scores| as real); }
    }
  }

  lemma NoPatterns()
    ensures PatternSignal([]) == 0.0
  {
  }

  lemma FundamentalBounded(f: Option<FundamentalScore>)
    ensures -1.0 <= FundamentalSignal(f) <= 1.0
  {
  }

  /** With the default weights the score's clamp never fires either. */
  lemma ScoreClampIdle(x: Inputs)
    ensures WeightedScore(x, None) == TaSignal(x.indicators, x.averages, x.summary) * 0.5 + PatternSignal(x.patterns) * 0.3
                                      + FundamentalSignal(x.fundamental) * 0.2
    ensures -1.0 <= WeightedScore(x, None) <= 1.0
  {
    hide TaSignal, PatternSignal, FundamentalSignal, WeightedSum, TotalWeight;
    TaBounded(x);
    if x.patterns != [] { PatternClampIdle(x.patterns); } else { NoPatterns(); }
    FundamentalBounded(x.fundamental);
    SumOfThree(Sources(x, None));
    assert WeightedSum(Sources(x, None)) / 1.0 == WeightedSum(Sources(x, None));
  }

  // ----- Confidence -----

  lemma {:induction false} AgreeingMirror(inds: seq<Indicator>, d: Direction, d': Direction)
    requires d != d'
    ensures Agreeing(MirrorIndicators(inds), d') == Agreeing(inds, d)
  {
    if inds != [] {
      AgreeingMirror(inds[..|inds| - 1], d, d');
      assert MirrorIndicators(inds)[..|inds| - 1] == MirrorIndicators(inds[..|inds| - 1]);
    }
  }

  lemma {:induction false} AdxMirror(inds: seq<Indicator>)
    ensures AdxStrength(MirrorIndicators(inds)) == AdxStrength(inds)
  {
    if inds != [] {
      AdxMirror(inds[1..]);
      assert MirrorIndicators(inds)[1..] == MirrorIndicators(inds[1..]);
    }
  }

  lemma ConfirmationMirror(ps: seq<Pattern>)
    ensures PatternConfirmation(SHORT, MirrorPatterns(ps)) == PatternConfirmation(LONG, ps)
    ensures PatternConfirmation(LONG, MirrorPatterns(ps)) == PatternConfirmation(SHORT, ps)
  {
    hide PatternSignal, PatternConfirmation;
    ConfirmationIsPositivePart(ps);
    ConfirmationIsPositivePart(MirrorPatterns(ps));
    PatternMirror(ps);
  }

  /** A direction is as certain as its opposite on the mirrored market. */
  lemma ConfidenceMirror(dir: Direction, opposite: Direction, x: Inputs)
    requires dir != opposite
    ensures ConfidenceOf(opposite, MirrorInputs(x)) == ConfidenceOf(dir, x)
  {
    hide PatternConfirmation, AdxStrength, Agreeing, FundamentalAlignment, WeightedSum, TotalWeight;
    var m := MirrorInputs(x);
    AgreeingMirror(x.indicators, dir, opposite);
    AdxMirror(x.indicators);
    ConfirmationMirror(x.patterns);
    FundamentalMirror(x.fundamental, m.fundamental);
    assert Factors(opposite, m) == Factors(dir, x);
  }

  lemma SumOfFour(ps: seq<Part>)
    requires |ps| == 4
    ensures WeightedSum(ps) == ps[0].score * ps[0].weight + ps[1].score * ps[1].weight + ps[2].score * ps[2].weight + ps[3].score * ps[3].weight
    ensures TotalWeight(ps) == ps[0].weight + ps[1].weight + ps[2].weight + ps[3].weight
  {
    SumOfThree(ps[..3]);
  }

  lemma {:induction false} AgreeingAtMost(inds: seq<Indicator>, dir: Direction)
    ensures Agreeing(inds, dir) <= |inds|
  {
    if inds != [] { AgreeingAtMost(inds[..|inds| - 1], dir); }
  }

  lemma PartOfWhole(n: nat, total: nat)
    requires n <= total && total > 0
    ensures 0.0 <= n as real / total as real <= 1.0
  {
    DivMonotone(n as real, total as real, total as real);
    DivMonotone(0.0, n as real, total as real);
  }

  lemma AgreementUnit(dir: Direction, x: Inputs)
    ensures 0.0 <= TaAgreement(dir, x.indicators, x.summary) <= 1.0
  {
    hide Agreeing;
    AgreeingAtMost(x.indicators, dir);
    if x.summary != None {
      var t := x.summary.value.overall;
      if Total(t) > 0 {
        PartOfWhole(t.buy, Total(t));
        PartOfWhole(t.sell, Total(t));
      }
    } else if x.indicators != [] {
      PartOfWhole(Agreeing(x.indicators, dir), |x.indicators|);
    }
  }

  /** ADX readings are not negative, as the indicator's range has it. */
  ghost predicate AdxInRange(inds: seq<Indicator>) {
    forall i | 0 <= i < |inds| :: inds[i].adx && inds[i].value != None ==> inds[i].value.value >= 0.0
  }

  lemma {:induction false} AdxUnit(inds: seq<Indicator>)
    requires AdxInRange(inds)
    ensures 0.0 <= AdxStrength(inds) <= 1.0
  {
    if inds != [] && !(inds[0].adx && inds[0].value != None) { AdxUnit(inds[1..]); }
  }

  lemma ConfirmationUnit(dir: Direction, ps: seq<Pattern>)
    ensures 0.0 <= PatternConfirmation(dir, ps) <= 1.0
  {
  }

  lemma AlignmentUnit(dir: Direction, f: Option<FundamentalScore>)
    ensures 0.0 <= FundamentalAlignment(dir, f) <= 1.0
  {
  }

  /** The confidence is the rounded weighted mean of its four factors in percent:
      all four lie in [0, 1], so neither its clamp nor its guard ever fires. */
  lemma ConfidenceClampIdle(dir: Direction, x: Inputs)
    requires AdxInRange(x.indicators)
    ensures var mean := TaAgreement(dir, x.indicators, x.summary) * 0.4 + PatternConfirmation(dir, x.patterns) * 0.25
                        + FundamentalAlignment(dir, x.fundamental) * 0.15 + AdxStrength(x.indicators) * 0.2;
      0.0 <= mean <= 1.0 && ConfidenceOf(dir, x) == Round(mean * 100.0, 10.0)
  {
    hide TaAgreement, PatternConfirmation, FundamentalAlignment, AdxStrength, WeightedSum, TotalWeight, Round, AdxInRange;
    AgreementUnit(dir, x);
    ConfirmationUnit(dir, x.patterns);
    AlignmentUnit(dir, x.fundamental);
    AdxUnit(x.indicators);
    SumOfFour(Factors(dir, x));
    assert TotalWeight(Factors(dir, x)) == 1.0;
    assert WeightedSum(Factors(dir, x)) / 1.0 == WeightedSum(Factors(dir, x));
  }

  /** From the raw inputs to the answer: the mirrored market gets the opposite
      direction, with the same confidence. */
  lemma AnswerMirror(inds: seq<Indicator>, mas: seq<MovingAverage>, ps: seq<Pattern>, f: Option<FundamentalScore>)
    ensures
      var x := Inputs(inds, mas, Some(Summarise(inds, mas)), ps, f);
      var y := Inputs(MirrorIndicators(inds), MirrorAverages(mas), Some(Summarise(MirrorIndicators(inds), MirrorAverages(mas))),
                      MirrorPatterns(ps), if f == None then None else Some(-f.value));
      var dx, dy := DetermineDirection(WeightedScore(x, None), None, None), DetermineDirection(WeightedScore(y, None), None, None);
      && dy == OppositeDirection(dx)
      && (dx != None ==> ConfidenceOf(dy.value, y) == ConfidenceOf(dx.value, x))
  {
    hide WeightedScore, ConfidenceOf, Summarise, DetermineDirection;
    var x := Inputs(inds, mas, Some(Summarise(inds, mas)), ps, f);
    SummaryMirror(inds, mas);
    DecisionMirror(x, None);
    ConfidenceMirror(LONG, SHORT, x);
    ConfidenceMirror(SHORT, LONG, x);
  }
}
