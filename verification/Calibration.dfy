/** Evaluating candidate threshold pairs on labelled samples, and recommending one. */
module Calibration {
  import opened Options
  import opened SignalOutcome
  import opened StopTakeProfit

  datatype Sample = Sample(score: real, outcome: Outcome)

  datatype Counts = Counts(
    total: nat, long: nat, short: nat, neutral: nat, unknown: nat,
    longTp: nat, longSl: nat, shortTp: nat, shortSl: nat)

  const ZERO := Counts(0, 0, 0, 0, 0, 0, 0, 0, 0)

  function Classify(score: real, bullish: real, bearish: real): Option<Direction> {
    if score >= bullish then Some(LONG) else if score <= bearish then Some(SHORT) else None
  }

  function CountDirection(c: Counts, d: Option<Direction>): Counts {
    match d
    case Some(LONG) => c.(long := c.long + 1)
    case Some(SHORT) => c.(short := c.short + 1)
    case None => c.(neutral := c.neutral + 1)
  }

  function CountOutcome(c: Counts, d: Option<Direction>, o: Outcome): Counts {
    if d == None then c
    else if o == UNKNOWN then c.(unknown := c.unknown + 1)
    else if d == Some(LONG) then (if o == TP_BEFORE_SL then c.(longTp := c.longTp + 1) else c.(longSl := c.longSl + 1))
    else if o == TP_BEFORE_SL then c.(shortTp := c.shortTp + 1)
    else c.(shortSl := c.shortSl + 1)
  }

  function Accumulate(c: Counts, d: Option<Direction>, o: Outcome): Counts {
    CountOutcome(CountDirection(c.(total := c.total + 1), d), d, o)
  }

  function Tally(samples: seq<Sample>, bullish: real, bearish: real): Counts {
    if samples == [] then ZERO
    else
      var s := samples[|samples| - 1];
      Accumulate(Tally(samples[..|samples| - 1], bullish, bearish), Classify(s.score, bullish, bearish), s.outcome)
  }

  // ----- Rates -----

  function Resolved(c: Counts): nat {
    c.longTp + c.longSl + c.shortTp + c.shortSl
  }

  function FalseSignalRate(c: Counts): real {
    if Resolved(c) == 0 then 0.0 else (c.longSl + c.shortSl) as real / Resolved(c) as real
  }

  function Precision(c: Counts): real {
    if Resolved(c) == 0 then 0.0 else (c.longTp + c.shortTp) as real / Resolved(c) as real
  }

  function Coverage(c: Counts): real {
    if c.total == 0 then 0.0 else Resolved(c) as real / c.total as real
  }

  function NeutralRate(c: Counts): real {
    if c.total == 0 then 0.0 else (c.neutral + c.unknown) as real / c.total as real
  }

  // ----- The metrics object -----

  class CandidateMetrics {
    const bullish: real
    const bearish: real
    var total: nat
    var long: nat
    var short: nat
    var neutral: nat
    var unknown: nat
    var longTp: nat
    var longSl: nat
    var shortTp: nat
    var shortSl: nat

    ghost function View(): Counts
      reads this
    {
      Counts(total, long, short, neutral, unknown, longTp, longSl, shortTp, shortSl)
    }

    constructor (bullish: real, bearish: real)
      ensures this.bullish == bullish && this.bearish == bearish && View() == ZERO
    {
      this.bullish, this.bearish := bullish, bearish;
      total, long, short, neutral, unknown := 0, 0, 0, 0, 0;
      longTp, longSl, shortTp, shortSl := 0, 0, 0, 0;
    }

    method IncrementDirectionCounter(direction: Option<Direction>)
      modifies this
      ensures View() == CountDirection(old(View()), direction)
    {
      if direction == Some(LONG) {
        long := long + 1;
      } else if direction == Some(SHORT) {
        short := short + 1;
      } else {
        neutral := neutral + 1;
      }
    }

    method IncrementOutcomeCounter(direction: Option<Direction>, outcome: Outcome)
      modifies this
      ensures View() == CountOutcome(old(View()), direction, outcome)
    {
      if direction == None {
        return;
      }
      if outcome == UNKNOWN {
        unknown := unknown + 1;
        return;
      }
      if direction == Some(LONG) {
        if outcome == TP_BEFORE_SL { longTp := longTp + 1; } else { longSl := longSl + 1; }
        return;
      }
      if outcome == TP_BEFORE_SL { shortTp := shortTp + 1; } else { shortSl := shortSl + 1; }
    }

    method AccumulateMetrics(direction: Option<Direction>, outcome: Outcome)
      modifies this
      ensures View() == Accumulate(old(View()), direction, outcome)
    {
      total := total + 1;
      IncrementDirectionCounter(direction);
      IncrementOutcomeCounter(direction, outcome);
    }
  }

  method EvaluateCandidate(samples: seq<Sample>, bullish: real, bearish: real) returns (metrics: CandidateMetrics)
    ensures fresh(metrics) && metrics.bullish == bullish && metrics.bearish == bearish
    ensures metrics.View() == Tally(samples, bullish, bearish)
  {
    metrics := new CandidateMetrics(bullish, bearish);
    var i := 0;
    while i < |samples|
      invariant 0 <= i <= |samples|
      invariant metrics.View() == Tally(samples[..i], bullish, bearish)
    {
      assert samples[..i + 1][..i] == samples[..i];
      metrics.AccumulateMetrics(Classify(samples[i].score, bullish, bearish), samples[i].outcome);
      i := i + 1;
    }
    assert samples[..i] == samples;
  }

  /** One object per candidate, in order. */
  method EvaluateCandidates(samples: seq<Sample>, candidates: seq<(real, real)>) returns (results: seq<CandidateMetrics>)
    ensures |results| == |candidates|
    ensures forall i | 0 <= i < |results| ::
      fresh(results[i]) && results[i].bullish == candidates[i].0 && results[i].bearish == candidates[i].1
      && results[i].View() == Tally(samples, candidates[i].0, candidates[i].1)
  {
    results := [];
    var k := 0;
    while k < |candidates|
      invariant 0 <= k <= |candidates| && |results| == k
      invariant forall i | 0 <= i < k ::
        fresh(results[i]) && results[i].bullish == candidates[i].0 && results[i].bearish == candidates[i].1
        && results[i].View() == Tally(samples, candidates[i].0, candidates[i].1)
    {
      var metrics := EvaluateCandidate(samples, candidates[k].0, candidates[k].1);
      results := results + [metrics];
      k := k + 1;
    }
  }

  // ----- Recommendation -----

  /** What one candidate scored. */
  datatype Metrics = Metrics(bullish: real, bearish: real, counts: Counts)

  predicate Viable(m: Metrics) {
    Coverage(m.counts) > 0.0
  }

  /** The sort key of `a` is below that of `b`: fewer false signals, then more coverage. */
  predicate Better(a: Metrics, b: Metrics) {
    || FalseSignalRate(a.counts) < FalseSignalRate(b.counts)
    || (FalseSignalRate(a.counts) == FalseSignalRate(b.counts) && Coverage(a.counts) > Coverage(b.counts))
  }

  function ViableOnes(ms: seq<Metrics>): seq<Metrics> {
    if ms == [] then []
    else ViableOnes(ms[..|ms| - 1]) + (if Viable(ms[|ms| - 1]) then [ms[|ms| - 1]] else [])
  }

  /** Behind everything that is not worse than `m`. */
  function Insert(m: Metrics, s: seq<Metrics>): (r: seq<Metrics>)
    ensures |r| == |s| + 1
  {
    if s == [] || !Better(m, s[|s| - 1]) then s + [m] else Insert(m, s[..|s| - 1]) + [s[|s| - 1]]
  }

  /** The stable sort by the key. */
  function Sorted(s: seq<Metrics>): (r: seq<Metrics>)
    ensures |r| == |s|
  {
    if s == [] then [] else Insert(s[|s| - 1], Sorted(s[..|s| - 1]))
  }

  ghost predicate IsFirstBest(ms: seq<Metrics>, i: nat)
    requires i < |ms|
  {
    && (forall j | 0 <= j < |ms| && Viable(ms[j]) :: !Better(ms[j], ms[i]))
    && (forall j | 0 <= j < i && Viable(ms[j]) :: Better(ms[i], ms[j]))
  }

  /** The first of the best viable candidates: nothing viable is better, and
      everything viable before it is worse. */
  ghost predicate IsRecommended(ms: seq<Metrics>, best: Metrics) {
    exists i: nat :: i < |ms| && ms[i] == best && Viable(best) && IsFirstBest(ms, i)
  }

  lemma {:induction false} ViableAre(ms: seq<Metrics>)
    ensures forall m :: m in ViableOnes(ms) <==> m in ms && Viable(m)
  {
    if ms != [] {
      ViableAre(ms[..|ms| - 1]);
      assert ms == ms[..|ms| - 1] + [ms[|ms| - 1]];
    }
  }

  lemma {:induction false} ViableFirst(ms: seq<Metrics>, k: nat) returns (i: nat)
    requires k < |ViableOnes(ms)| && IsFirstBest(ViableOnes(ms), k) && forall m | m in ViableOnes(ms) :: Viable(m)
    ensures i < |ms| && ms[i] == ViableOnes(ms)[k] && IsFirstBest(ms, i)
  {
    hide Better, Viable;
    var front := ms[..|ms| - 1];
    var fv, x := ViableOnes(front), ms[|ms| - 1];
    var vs := ViableOnes(ms);
    ViableAre(ms);
    ViableAre(front);
    assert forall j | 0 <= j < |fv| :: vs[j] == fv[j];
    assert forall j | 0 <= j < |front| :: ms[j] == front[j];
    if k < |fv| {
      i := ViableFirst(front, k);
      forall j | 0 <= j < |ms| && Viable(ms[j]) ensures !Better(ms[j], ms[i]) {
        if j == |ms| - 1 { assert vs[|fv|] == x; }
      }
    } else {
      i := |ms| - 1;
      forall j | 0 <= j < |ms| && Viable(ms[j]) ensures !Better(ms[j], ms[i]) {
        var n :| 0 <= n < |vs| && vs[n] == ms[j];
      }
      forall j | 0 <= j < i && Viable(ms[j]) ensures Better(ms[i], ms[j]) {
        assert front[j] in fv;
        var n :| 0 <= n < |fv| && fv[n] == ms[j];
        assert vs[n] == ms[j];
      }
    }
  }

  lemma RecommendedOf(ms: seq<Metrics>, best: Metrics)
    requires exists k: nat :: k < |ViableOnes(ms)| && ViableOnes(ms)[k] == best && IsFirstBest(ViableOnes(ms), k)
    ensures IsRecommended(ms, best)
  {
    hide IsFirstBest;
    ViableAre(ms);
    var k: nat :| k < |ViableOnes(ms)| && ViableOnes(ms)[k] == best && IsFirstBest(ViableOnes(ms), k);
    var i := ViableFirst(ms, k);
  }

  ghost predicate AllWorse(m: Metrics, s: seq<Metrics>) {
    forall x | x in s :: Better(m, x)
  }

  lemma {:induction false} InsertHead(m: Metrics, s: seq<Metrics>)
    ensures Insert(m, s)[0] == if s == [] || AllWorse(m, s) then m else s[0]
  {
    if s != [] && Better(m, s[|s| - 1]) {
      var front := s[..|s| - 1];
      InsertHead(m, front);
      assert AllWorse(m, s) <==> AllWorse(m, front) by { assert s == front + [s[|s| - 1]]; }
    }
  }

  lemma {:induction false} InsertSame(m: Metrics, s: seq<Metrics>)
    ensures multiset(Insert(m, s)) == multiset(s) + multiset{m}
  {
    if s != [] && Better(m, s[|s| - 1]) {
      InsertSame(m, s[..|s| - 1]);
      assert s == s[..|s| - 1] + [s[|s| - 1]];
    }
  }

  lemma {:induction false} SortedSame(s: seq<Metrics>)
    ensures multiset(Sorted(s)) == multiset(s)
  {
    if s != [] {
      SortedSame(s[..|s| - 1]);
      InsertSame(s[|s| - 1], Sorted(s[..|s| - 1]));
      assert s == s[..|s| - 1] + [s[|s| - 1]];
    }
  }

  lemma SortedElements(s: seq<Metrics>)
    ensures forall x :: x in Sorted(s) <==> x in s
  {
    SortedSame(s);
    forall x ensures x in Sorted(s) <==> x in s {
      assert x in Sorted(s) <==> x in multiset(Sorted(s));
      assert x in s <==> x in multiset(s);
    }
  }

  lemma BetterIsAnOrder(a: Metrics, b: Metrics, c: Metrics)
    ensures Better(a, b) ==> !Better(b, a)
    ensures !Better(a, b) && !Better(b, c) ==> !Better(a, c)
  {
  }

  lemma NewBest(front: seq<Metrics>, m: Metrics)
    requires forall x | x in front :: Better(m, x)
    ensures IsFirstBest(front + [m], |front|)
  {
    hide Better, Viable;
    var s := front + [m];
    forall j | 0 <= j < |s| ensures !Better(s[j], m) && (j < |front| ==> Better(m, s[j])) {
      if j < |front| { assert s[j] in front; }
      BetterIsAnOrder(m, s[j], m);
    }
  }

  lemma OldBest(front: seq<Metrics>, k: nat, m: Metrics, x: Metrics)
    requires k < |front| && IsFirstBest(front, k) && x in front && Viable(x) && !Better(m, x)
    ensures IsFirstBest(front + [m], k)
  {
    hide Better, Viable;
    var j :| 0 <= j < |front| && front[j] == x;
    BetterIsAnOrder(m, x, front[k]);
    var s := front + [m];
    assert forall i | 0 <= i < |front| :: s[i] == front[i];
  }

  /** The head of the stable sort is the first of the best. */
  lemma {:induction false} FirstOfSorted(s: seq<Metrics>)
    requires s != [] && forall x | x in s :: Viable(x)
    ensures exists k: nat :: k < |s| && s[k] == Sorted(s)[0] && IsFirstBest(s, k)
  {
    hide Better, Viable, IsFirstBest, Insert;
    var front, m := s[..|s| - 1], s[|s| - 1];
    assert s == front + [m];
    InsertHead(m, Sorted(front));
    if front == [] {
      NewBest(front, m);
    } else {
      FirstOfSorted(front);
      var k: nat :| k < |front| && front[k] == Sorted(front)[0] && IsFirstBest(front, k);
      SortedElements(front);
      if AllWorse(m, Sorted(front)) {
        NewBest(front, m);
      } else {
        var x :| x in Sorted(front) && !Better(m, x);
        OldBest(front, k, m, x);
        assert s[k] == front[k];
      }
    }
  }

  method RecommendCandidate(ms: seq<Metrics>) returns (best: Option<Metrics>)
    ensures best == None <==> forall m | m in ms :: !Viable(m)
    ensures best != None ==> IsRecommended(ms, best.value)
  {
    var viable := ViableOnes(ms);
    ViableAre(ms);
    if viable == [] {
      return None;
    }
    viable := Sorted(viable);
    FirstOfSorted(ViableOnes(ms));
    RecommendedOf(ms, viable[0]);
    return Some(viable[0]);
  }
}
