/** Conservation, monotony and order-independence of the calibration counters. */
module CalibrationLaws {
  import opened Options
  import opened Rounding
  import opened Sequences
  import opened SignalOutcome
  import opened StopTakeProfit
  import opened Calibration

  // ----- What the counters count -----

  /** At or above the upper threshold is LONG, otherwise at or below the lower one SHORT. */
  predicate Falls(score: real, bullish: real, bearish: real, d: Option<Direction>) {
    match d
    case Some(LONG) => bullish <= score
    case Some(SHORT) => score < bullish && score <= bearish
    case None => bearish < score < bullish
  }

  /** How many samples fall into one direction, and have one of the given outcomes. */
  ghost function HowMany(samples: seq<Sample>, bullish: real, bearish: real, d: Option<Direction>, outcomes: set<Outcome>): nat {
    if samples == [] then 0
    else
      var s := samples[|samples| - 1];
      HowMany(samples[..|samples| - 1], bullish, bearish, d, outcomes)
      + (if Falls(s.score, bullish, bearish, d) && s.outcome in outcomes then 1 else 0)
  }

  const ANY := {TP_BEFORE_SL, SL_BEFORE_TP, UNKNOWN}

  lemma EveryOutcome(o: Outcome)
    ensures o in ANY
  {
    match o {
      case TP_BEFORE_SL =>
      case SL_BEFORE_TP =>
      case UNKNOWN =>
    }
  }

  /** Every counter is the number of samples of its kind. */
  lemma {:induction false} CountersCount(samples: seq<Sample>, bullish: real, bearish: real)
    ensures var c := Tally(samples, bullish, bearish);
      && c.total == |samples|
      && c.long == HowMany(samples, bullish, bearish, Some(LONG), ANY)
      && c.short == HowMany(samples, bullish, bearish, Some(SHORT), ANY)
      && c.neutral == HowMany(samples, bullish, bearish, None, ANY)
      && c.longTp == HowMany(samples, bullish, bearish, Some(LONG), {TP_BEFORE_SL})
      && c.longSl == HowMany(samples, bullish, bearish, Some(LONG), {SL_BEFORE_TP})
      && c.shortTp == HowMany(samples, bullish, bearish, Some(SHORT), {TP_BEFORE_SL})
      && c.shortSl == HowMany(samples, bullish, bearish, Some(SHORT), {SL_BEFORE_TP})
      && c.unknown == HowMany(samples, bullish, bearish, Some(LONG), {UNKNOWN}) + HowMany(samples, bullish, bearish, Some(SHORT), {UNKNOWN})
  {
    if samples != [] {
      CountersCount(samples[..|samples| - 1], bullish, bearish);
      EveryOutcome(samples[|samples| - 1].outcome);
    }
  }

  /** Every sample is counted in one direction, every directed one in one outcome. */
  lemma {:induction false} Conservation(samples: seq<Sample>, bullish: real, bearish: real)
    ensures var c := Tally(samples, bullish, bearish);
      && c.total == c.long + c.short + c.neutral
      && c.long + c.short == Resolved(c) + c.unknown
  {
    if samples != [] {
      Conservation(samples[..|samples| - 1], bullish, bearish);
    }
  }

  lemma Cancel(x: real, y: real, a: real, b: real, m: real)
    requires x * m == a && y * m == b && a + b == m && m > 0.0
    ensures x + y == 1.0
  {
    assert (x + y) * m == m;
    DivMul(x + y, m);
  }

  lemma Shares(a: nat, b: nat, n: nat)
    requires a + b == n && n > 0
    ensures a as real / n as real + b as real / n as real == 1.0
  {
    DivMul(a as real, n as real);
    DivMul(b as real, n as real);
    Cancel(a as real / n as real, b as real / n as real, a as real, b as real, n as real);
  }

  lemma CoverageComplement(c: Counts)
    requires c.total > 0 && c.total == Resolved(c) + (c.neutral + c.unknown)
    ensures Coverage(c) + NeutralRate(c) == 1.0
  {
    Shares(Resolved(c), c.neutral + c.unknown, c.total);
  }

  lemma PrecisionComplement(c: Counts)
    requires Resolved(c) > 0
    ensures Precision(c) + FalseSignalRate(c) == 1.0
  {
    Shares(c.longTp + c.shortTp, c.longSl + c.shortSl, Resolved(c));
  }

  /** Hence the rates are complements as soon as they are defined. */
  lemma RatesAreComplements(samples: seq<Sample>, bullish: real, bearish: real)
    ensures var c := Tally(samples, bullish, bearish);
      && (samples != [] ==> Coverage(c) + NeutralRate(c) == 1.0)
      && (Resolved(c) > 0 ==> Precision(c) + FalseSignalRate(c) == 1.0)
  {
    hide Tally, Resolved, HowMany;
    var c := Tally(samples, bullish, bearish);
    Conservation(samples, bullish, bearish);
    CountersCount(samples, bullish, bearish);
    if samples != [] { CoverageComplement(c); }
    if Resolved(c) > 0 { PrecisionComplement(c); }
  }

  // ----- The ranking, in counts -----

  /** Signals that were followed by the stop, and those followed by either level. */
  function Wrong(c: Counts): nat {
    c.longSl + c.shortSl
  }

  function Settled(c: Counts): nat {
    c.longTp + c.longSl + c.shortTp + c.shortSl
  }

  lemma FractionBelow(a: nat, b: nat, c: nat, d: nat)
    requires b > 0 && d > 0
    ensures a as real / b as real < c as real / d as real <==> a * d < c * b
    ensures a as real / b as real == c as real / d as real <==> a * d == c * b
  {
    var x, y := b as real, d as real;
    QuotientBounds(a as real, x, c as real / y);
    assert c as real / y * x == c as real * x / y;
    QuotientBounds(c as real * x, y, a as real);
    assert a as real * y == (a * d) as real && c as real * x == (c * b) as real;
  }

  /** Viable means that some signal was settled. */
  lemma ViableIff(m: Metrics)
    requires m.counts.total >= Settled(m.counts)
    ensures Viable(m) <==> Settled(m.counts) > 0
  {
    if m.counts.total > 0 { QuotientBounds(Settled(m.counts) as real, m.counts.total as real, 0.0); }
  }

  lemma RatesInCounts(c: Counts)
    requires Settled(c) > 0 && c.total > 0
    ensures FalseSignalRate(c) == Wrong(c) as real / Settled(c) as real && Coverage(c) == Settled(c) as real / c.total as real
  {
  }

  /** Better means fewer wrong signals per settled one, then more settled per sample. */
  lemma BetterInCounts(a: Metrics, b: Metrics)
    requires Settled(a.counts) > 0 && Settled(b.counts) > 0 && a.counts.total > 0 && b.counts.total > 0
    ensures Better(a, b) <==>
      || Wrong(a.counts) * Settled(b.counts) < Wrong(b.counts) * Settled(a.counts)
      || (Wrong(a.counts) * Settled(b.counts) == Wrong(b.counts) * Settled(a.counts)
          && Settled(a.counts) * b.counts.total > Settled(b.counts) * a.counts.total)
  {
    FractionBelow(Wrong(a.counts), Settled(a.counts), Wrong(b.counts), Settled(b.counts));
    FractionBelow(Settled(b.counts), b.counts.total, Settled(a.counts), a.counts.total);
    RatesInCounts(a.counts);
    RatesInCounts(b.counts);
    hide FalseSignalRate, Coverage;
  }

  /** So no viable candidate has a lower share of wrong signals than the recommended
      one, nor the same share and more settled signals per sample. */
  lemma RecommendedInCounts(ms: seq<Metrics>, best: Metrics, m: Metrics)
    requires IsRecommended(ms, best) && m in ms && Settled(m.counts) > 0
    requires forall x | x in ms :: x.counts.total >= Settled(x.counts)
    ensures best in ms && Settled(best.counts) > 0
    ensures Wrong(best.counts) * Settled(m.counts) <= Wrong(m.counts) * Settled(best.counts)
    ensures Wrong(best.counts) * Settled(m.counts) == Wrong(m.counts) * Settled(best.counts) ==>
      Settled(best.counts) * m.counts.total >= Settled(m.counts) * best.counts.total
  {
    hide Viable, Better, Wrong, Settled;
    var i: nat :| i < |ms| && ms[i] == best && Viable(best) && IsFirstBest(ms, i);
    var j :| 0 <= j < |ms| && ms[j] == m;
    ViableIff(best);
    ViableIff(m);
    BetterInCounts(m, best);
  }

  // ----- Wider thresholds -----

  /** Widening an ordered pair never finds more signals of either direction. */
  lemma {:induction false} WideningFindsFewer(samples: seq<Sample>, bullish: real, bearish: real, bullish': real, bearish': real)
    requires bearish < bullish && bullish <= bullish' && bearish' <= bearish
    ensures var c, w := Tally(samples, bullish, bearish), Tally(samples, bullish', bearish');
      w.long <= c.long && w.short <= c.short && w.neutral >= c.neutral && Resolved(w) <= Resolved(c)
  {
    if samples != [] {
      WideningFindsFewer(samples[..|samples| - 1], bullish, bearish, bullish', bearish');
    }
  }

  /** A second pair finds no more signals of either direction. */
  ghost predicate FindsNoMore(samples: seq<Sample>, bullish: real, bearish: real, bullish': real, bearish': real) {
    var c, w := Tally(samples, bullish, bearish), Tally(samples, bullish', bearish');
    w.long <= c.long && w.short <= c.short
  }

  /** At the lower threshold of a pair out of order, raising the upper one turns a
      LONG signal into a SHORT one. */
  lemma DisorderFindsMore(bullish: real, bearish: real)
    requires bullish <= bearish
    ensures !FindsNoMore([Sample(bearish, UNKNOWN)], bullish, bearish, bearish + 1.0, bearish)
  {
    var samples := [Sample(bearish, UNKNOWN)];
    assert samples[..0] == [];
    assert Tally([], bearish + 1.0, bearish) == ZERO && Tally([], bullish, bearish) == ZERO;
  }

  /** Widening a pair never finds more signals exactly if the pair is in order. */
  lemma WideningNeedsOrder(bullish: real, bearish: real)
    ensures bearish < bullish
      <==> forall samples, u, l | bullish <= u && l <= bearish :: FindsNoMore(samples, bullish, bearish, u, l)
  {
    if bearish < bullish {
      forall samples, u, l | bullish <= u && l <= bearish ensures FindsNoMore(samples, bullish, bearish, u, l) {
        WideningFindsFewer(samples, bullish, bearish, u, l);
      }
    } else {
      DisorderFindsMore(bullish, bearish);
    }
  }

  // ----- The order of the samples -----

  function Plus(a: Counts, b: Counts): Counts {
    Counts(a.total + b.total, a.long + b.long, a.short + b.short, a.neutral + b.neutral, a.unknown + b.unknown,
           a.longTp + b.longTp, a.longSl + b.longSl, a.shortTp + b.shortTp, a.shortSl + b.shortSl)
  }

  lemma AccumulatePlus(a: Counts, b: Counts, d: Option<Direction>, o: Outcome)
    ensures Accumulate(Plus(a, b), d, o) == Plus(a, Accumulate(b, d, o))
  {
  }

  lemma PlusZero(a: Counts)
    ensures Plus(a, ZERO) == a
  {
  }

  lemma PlusMoves(a: Counts, x: Counts, b: Counts)
    ensures Plus(Plus(a, x), b) == Plus(Plus(a, b), x)
  {
  }

  lemma {:induction false} TallyParts(a: seq<Sample>, b: seq<Sample>, bullish: real, bearish: real)
    ensures Tally(a + b, bullish, bearish) == Plus(Tally(a, bullish, bearish), Tally(b, bullish, bearish))
  {
    hide Accumulate, Classify, Plus;
    if b == [] {
      assert a + b == a;
      PlusZero(Tally(a, bullish, bearish));
    } else {
      var x := b[|b| - 1];
      TallyParts(a, b[..|b| - 1], bullish, bearish);
      assert (a + b)[..|a + b| - 1] == a + b[..|b| - 1];
      AccumulatePlus(Tally(a, bullish, bearish), Tally(b[..|b| - 1], bullish, bearish), Classify(x.score, bullish, bearish), x.outcome);
    }
  }

  /** Permuting the samples changes no counter. */
  lemma {:induction false} TallyPermutes(s: seq<Sample>, t: seq<Sample>, bullish: real, bearish: real)
    requires multiset(s) == multiset(t)
    ensures Tally(s, bullish, bearish) == Tally(t, bullish, bearish)
    decreases |s|
  {
    hide Tally, Plus;
    if s == [] {
      assert |t| == |multiset(t)| == 0;
      assert s == t;
    } else {
      var s', x := s[..|s| - 1], s[|s| - 1];
      assert s == s' + [x];
      assert multiset(s) == multiset(s') + multiset{x};
      assert x in multiset(t);
      var a, b := TakeOut(t, x);
      assert multiset(s') == multiset(s) - multiset{x} == multiset(a + b);
      TallyPermutes(s', a + b, bullish, bearish);
      TallyParts(s', [x], bullish, bearish);
      TallyParts(a + [x], b, bullish, bearish);
      TallyParts(a, [x], bullish, bearish);
      TallyParts(a, b, bullish, bearish);
      PlusMoves(Tally(a, bullish, bearish), Tally([x], bullish, bearish), Tally(b, bullish, bearish));
    }
  }
}
