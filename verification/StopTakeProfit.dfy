/** Stop loss and take profits from support/resistance levels and the average
    true range.  Prices are reals; a level is a price with its kind. */
module StopTakeProfit {
  import opened Options
  import opened Rounding

  datatype Direction = LONG | SHORT

  datatype Candle = Candle(high: real, low: real, close: real)

  datatype Level = Level(price: real, resistance: bool)

  datatype Plan = Plan(stop: real, tp1: real, tp2: real)

  const ATR_MULTIPLIER_SL := 1.5
  const ATR_MULTIPLIER_TP_FALLBACK := 3.0
  const PRICE_SCALE := 100000.0   // prices are rounded to five places

  // ----- Average true range -----

  function TrueRange(previous: Candle, c: Candle): real {
    Max(Max(c.high - c.low, Abs(c.high - previous.close)), Abs(c.low - previous.close))
  }

  function TrueRanges(ohlcv: seq<Candle>): (trs: seq<real>)
    ensures |trs| == if |ohlcv| == 0 then 0 else |ohlcv| - 1
  {
    if |ohlcv| < 2 then []
    else TrueRanges(ohlcv[..|ohlcv| - 1]) + [TrueRange(ohlcv[|ohlcv| - 2], ohlcv[|ohlcv| - 1])]
  }

  function Sum(xs: seq<real>): real {
    if xs == [] then 0.0 else Sum(xs[..|xs| - 1]) + xs[|xs| - 1]
  }

  function Mean(xs: seq<real>): real
    requires xs != []
  {
    Sum(xs) / |xs| as real
  }

  /** Python's `xs[-period:]`. */
  function LastN(xs: seq<real>, period: nat): seq<real> {
    if period == 0 || |xs| <= period then xs else xs[|xs| - period..]
  }

  function Atr(ohlcv: seq<Candle>, period: nat): real {
    if |ohlcv| < 2 then 0.0 else Mean(LastN(TrueRanges(ohlcv), period))
  }

  method CalculateAtr(ohlcv: seq<Candle>, period: nat) returns (atr: real)
    ensures atr == Atr(ohlcv, period)
  {
    if |ohlcv| < 2 {
      return 0.0;
    }
    var trValues: seq<real> := [];
    for i := 1 to |ohlcv|
      invariant trValues == TrueRanges(ohlcv[..i])
    {
      var previousClose, high, low := ohlcv[i - 1].close, ohlcv[i].high, ohlcv[i].low;
      var tr := Max(Max(high - low, Abs(high - previousClose)), Abs(low - previousClose));
      assert ohlcv[..i + 1][..i] == ohlcv[..i];
      trValues := trValues + [tr];
    }
    assert ohlcv[..|ohlcv|] == ohlcv;
    return Mean(LastN(trValues, period));
  }

  lemma {:induction false} SumNonNegative(xs: seq<real>)
    requires forall i | 0 <= i < |xs| :: xs[i] >= 0.0
    ensures Sum(xs) >= 0.0
  {
    if xs != [] {
      SumNonNegative(xs[..|xs| - 1]);
    }
  }

  lemma {:induction false} TrueRangesNonNegative(ohlcv: seq<Candle>)
    ensures forall i | 0 <= i < |TrueRanges(ohlcv)| :: TrueRanges(ohlcv)[i] >= 0.0
  {
    if |ohlcv| >= 2 {
      TrueRangesNonNegative(ohlcv[..|ohlcv| - 1]);
    }
  }

  lemma AtrNonNegative(ohlcv: seq<Candle>, period: nat)
    ensures Atr(ohlcv, period) >= 0.0
  {
    if |ohlcv| >= 2 {
      TrueRangesNonNegative(ohlcv);
      SumNonNegative(LastN(TrueRanges(ohlcv), period));
    }
  }

  // ----- Targets -----

  function InsertAsc(x: real, s: seq<real>): seq<real> {
    if s == [] || x <= s[0] then [x] + s else [s[0]] + InsertAsc(x, s[1..])
  }

  function SortAsc(s: seq<real>): seq<real> {
    if s == [] then [] else InsertAsc(s[0], SortAsc(s[1..]))
  }

  function InsertDesc(x: real, s: seq<real>): seq<real> {
    if s == [] || x >= s[0] then [x] + s else [s[0]] + InsertDesc(x, s[1..])
  }

  /** `sorted(..., reverse=True)` */
  function SortDesc(s: seq<real>): seq<real> {
    if s == [] then [] else InsertDesc(s[0], SortDesc(s[1..]))
  }

  /** The prices of the resistances above the entry. */
  function ResistancesAbove(levels: seq<Level>, entry: real): seq<real> {
    if levels == [] then []
    else (if levels[0].resistance && levels[0].price > entry then [levels[0].price] else [])
         + ResistancesAbove(levels[1..], entry)
  }

  /** The prices of the supports below the entry. */
  function SupportsBelow(levels: seq<Level>, entry: real): seq<real> {
    if levels == [] then []
    else (if !levels[0].resistance && levels[0].price < entry then [levels[0].price] else [])
         + SupportsBelow(levels[1..], entry)
  }

  function MaxOf(s: seq<real>): (m: real)
    requires s != []
    ensures m in s && forall i | 0 <= i < |s| :: s[i] <= m
  {
    if |s| == 1 then s[0]
    else
      assert forall i | 0 < i < |s| :: s[i] == s[1..][i - 1];
      Max(s[0], MaxOf(s[1..]))
  }

  function MinOf(s: seq<real>): (m: real)
    requires s != []
    ensures m in s && forall i | 0 <= i < |s| :: m <= s[i]
  {
    if |s| == 1 then s[0]
    else
      assert forall i | 0 < i < |s| :: s[i] == s[1..][i - 1];
      Min(s[0], MinOf(s[1..]))
  }

  function StopLoss(dir: Direction, entry: real, levels: seq<Level>, atr: real): real {
    if dir == LONG then
      var below := SupportsBelow(levels, entry);
      if below != [] then MaxOf(below) - atr * 0.5 else entry - atr * ATR_MULTIPLIER_SL
    else
      var above := ResistancesAbove(levels, entry);
      if above != [] then MinOf(above) + atr * 0.5 else entry + atr * ATR_MULTIPLIER_SL
  }

  /** The first index from `k` on whose target has reached the bound. */
  function FirstAtLeast(ts: seq<real>, k: nat, bound: real): (i: nat)
    requires k <= |ts|
    ensures k <= i <= |ts|
    ensures i < |ts| ==> ts[i] >= bound
    ensures forall j | k <= j < i :: ts[j] < bound
    decreases |ts| - k
  {
    if k == |ts| || ts[k] >= bound then k else FirstAtLeast(ts, k + 1, bound)
  }

  function FirstAtMost(ts: seq<real>, k: nat, bound: real): (i: nat)
    requires k <= |ts|
    ensures k <= i <= |ts|
    ensures i < |ts| ==> ts[i] <= bound
    ensures forall j | k <= j < i :: ts[j] > bound
    decreases |ts| - k
  {
    if k == |ts| || ts[k] <= bound then k else FirstAtMost(ts, k + 1, bound)
  }

  /** The take profits before the final guard: levels where the scan finds
      them, ATR multiples elsewhere. */
  function LongCandidates(ts: seq<real>, entry: real, risk: real, atr: real): (real, real) {
    var far := entry + atr * ATR_MULTIPLIER_TP_FALLBACK * 2.0;
    var i := FirstAtLeast(ts, 0, entry + risk);
    if i == |ts| then
      var tp1 := entry + atr * ATR_MULTIPLIER_TP_FALLBACK;
      (tp1, Max(far, tp1 + risk))
    else
      var j := FirstAtLeast(ts, i + 1, entry + risk * 2.0);
      (ts[i], if j < |ts| then ts[j] else Max(far, ts[i] + risk))
  }

  function ShortCandidates(ts: seq<real>, entry: real, risk: real, atr: real): (real, real) {
    var far := entry - atr * ATR_MULTIPLIER_TP_FALLBACK * 2.0;
    var i := FirstAtMost(ts, 0, entry - risk);
    if i == |ts| then
      var tp1 := entry - atr * ATR_MULTIPLIER_TP_FALLBACK;
      (tp1, Min(far, tp1 - risk))
    else
      var j := FirstAtMost(ts, i + 1, entry - risk * 2.0);
      (ts[i], if j < |ts| then ts[j] else Min(far, ts[i] - risk))
  }

  function Targets(dir: Direction, entry: real, levels: seq<Level>): seq<real> {
    if dir == LONG then SortAsc(ResistancesAbove(levels, entry)) else SortDesc(SupportsBelow(levels, entry))
  }

  function Candidates(dir: Direction, entry: real, levels: seq<Level>, risk: real, atr: real): (real, real) {
    var ts := Targets(dir, entry, levels);
    if dir == LONG then LongCandidates(ts, entry, risk, atr) else ShortCandidates(ts, entry, risk, atr)
  }

  /** The branch that the source marks as unreachable. */
  predicate GuardFires(dir: Direction, tps: (real, real)) {
    if dir == LONG then tps.1 <= tps.0 else tps.1 >= tps.0
  }

  function TakeProfits(dir: Direction, entry: real, levels: seq<Level>, risk: real, atr: real): (real, real) {
    var tps := Candidates(dir, entry, levels, risk, atr);
    if GuardFires(dir, tps) then (tps.0, if dir == LONG then tps.0 + risk else tps.0 - risk) else tps
  }

  method ScanLong(targets: seq<real>, entry: real, risk: real, atr: real) returns (tp1: real, tp2: real)
    ensures (tp1, tp2) == LongCandidates(targets, entry, risk, atr)
  {
    var first, second := None, None;
    var minTp1, minTp2 := entry + risk, entry + risk * 2.0;
    ghost var i := FirstAtLeast(targets, 0, minTp1);
    ghost var j := if i < |targets| then FirstAtLeast(targets, i + 1, minTp2) else |targets|;
    for k := 0 to |targets|
      invariant first == if i < k then Some(targets[i]) else None
      invariant second == if j < k then Some(targets[j]) else None
    {
      var t := targets[k];
      if first == None && t >= minTp1 {
        first := Some(t);
      } else if first != None && second == None && t >= minTp2 {
        second := Some(t);
      }
    }
    tp1 := if first == None then entry + atr * ATR_MULTIPLIER_TP_FALLBACK else first.value;
    var far := entry + atr * ATR_MULTIPLIER_TP_FALLBACK * 2.0;
    tp2 := if second == None then Max(far, tp1 + risk) else second.value;
  }

  method ScanShort(targets: seq<real>, entry: real, risk: real, atr: real) returns (tp1: real, tp2: real)
    ensures (tp1, tp2) == ShortCandidates(targets, entry, risk, atr)
  {
    var first, second := None, None;
    var minTp1, minTp2 := entry - risk, entry - risk * 2.0;
    ghost var i := FirstAtMost(targets, 0, minTp1);
    ghost var j := if i < |targets| then FirstAtMost(targets, i + 1, minTp2) else |targets|;
    for k := 0 to |targets|
      invariant first == if i < k then Some(targets[i]) else None
      invariant second == if j < k then Some(targets[j]) else None
    {
      var t := targets[k];
      if first == None && t <= minTp1 {
        first := Some(t);
      } else if first != None && second == None && t <= minTp2 {
        second := Some(t);
      }
    }
    tp1 := if first == None then entry - atr * ATR_MULTIPLIER_TP_FALLBACK else first.value;
    var far := entry - atr * ATR_MULTIPLIER_TP_FALLBACK * 2.0;
    tp2 := if second == None then Min(far, tp1 - risk) else second.value;
  }

  method CalculateTp(dir: Direction, entry: real, levels: seq<Level>, risk: real, atr: real)
    returns (tp1: real, tp2: real)
    ensures (tp1, tp2) == TakeProfits(dir, entry, levels, risk, atr)
  {
    if dir == LONG {
      tp1, tp2 := ScanLong(SortAsc(ResistancesAbove(levels, entry)), entry, risk, atr);
    } else {
      tp1, tp2 := ScanShort(SortDesc(SupportsBelow(levels, entry)), entry, risk, atr);
    }
    if dir == LONG && tp2 <= tp1 {
      tp2 := tp1 + risk;
    } else if dir == SHORT && tp2 >= tp1 {
      tp2 := tp1 - risk;
    }
  }

  function WithStop(dir: Direction, entry: real, levels: seq<Level>, atr: real, stop: real): Plan {
    var tps := TakeProfits(dir, entry, levels, Abs(entry - stop), atr);
    Plan(stop, tps.0, tps.1)
  }

  function Unrounded(dir: Direction, entry: real, levels: seq<Level>, atr: real): Plan {
    WithStop(dir, entry, levels, atr, StopLoss(dir, entry, levels, atr))
  }

  function Rounded(p: Plan): Plan {
    Plan(Round(p.stop, PRICE_SCALE), Round(p.tp1, PRICE_SCALE), Round(p.tp2, PRICE_SCALE))
  }

  const ATR_PERIOD := 14

  method CalculateSlTp(ohlcv: seq<Candle>, dir: Direction, entry: real, levels: seq<Level>) returns (p: Plan)
    ensures p == Rounded(Unrounded(dir, entry, levels, Atr(ohlcv, ATR_PERIOD)))
  {
    var atr := CalculateAtr(ohlcv, ATR_PERIOD);
    var stop := StopLoss(dir, entry, levels, atr);
    var risk := Abs(entry - stop);
    var tp1, tp2 := CalculateTp(dir, entry, levels, risk, atr);
    p := Plan(Round(stop, PRICE_SCALE), Round(tp1, PRICE_SCALE), Round(tp2, PRICE_SCALE));
  }

  // ----- The mirror -----

  function MirrorCandle(c: Candle): Candle {
    Candle(-c.low, -c.high, -c.close)
  }

  function MirrorCandles(s: seq<Candle>): (m: seq<Candle>)
    ensures |m| == |s| && forall i | 0 <= i < |s| :: m[i] == MirrorCandle(s[i])
  {
    seq(|s|, i requires 0 <= i < |s| => MirrorCandle(s[i]))
  }

  function MirrorLevel(l: Level): Level {
    Level(-l.price, !l.resistance)
  }

  function MirrorLevels(s: seq<Level>): (m: seq<Level>)
    ensures |m| == |s| && forall i | 0 <= i < |s| :: m[i] == MirrorLevel(s[i])
  {
    seq(|s|, i requires 0 <= i < |s| => MirrorLevel(s[i]))
  }

  function Neg(s: seq<real>): (m: seq<real>)
    ensures |m| == |s| && forall i | 0 <= i < |s| :: m[i] == -s[i]
  {
    seq(|s|, i requires 0 <= i < |s| => -s[i])
  }

  function NegPlan(p: Plan): Plan {
    Plan(-p.stop, -p.tp1, -p.tp2)
  }

  lemma {:induction false} TrueRangesMirror(s: seq<Candle>)
    ensures TrueRanges(MirrorCandles(s)) == TrueRanges(s)
  {
    if |s| >= 2 {
      TrueRangesMirror(s[..|s| - 1]);
      assert MirrorCandles(s)[..|s| - 1] == MirrorCandles(s[..|s| - 1]);
    }
  }

  /** The volatility of the mirrored market is that of the market. */
  lemma AtrMirror(s: seq<Candle>, period: nat)
    ensures Atr(MirrorCandles(s), period) == Atr(s, period)
  {
    TrueRangesMirror(s);
  }

  lemma {:induction false} InsertMirror(x: real, s: seq<real>)
    ensures InsertDesc(-x, Neg(s)) == Neg(InsertAsc(x, s))
  {
    if s != [] && !(x <= s[0]) {
      InsertMirror(x, s[1..]);
      assert Neg(s)[1..] == Neg(s[1..]);
    }
  }

  lemma {:induction false} SortMirror(s: seq<real>)
    ensures SortDesc(Neg(s)) == Neg(SortAsc(s))
  {
    if s != [] {
      SortMirror(s[1..]);
      assert Neg(s)[1..] == Neg(s[1..]);
      InsertMirror(s[0], SortAsc(s[1..]));
    }
  }

  lemma NegConcat(a: seq<real>, b: seq<real>)
    ensures Neg(a + b) == Neg(a) + Neg(b)
  {
  }

  lemma NegOne(x: real)
    ensures Neg([x]) == [-x] && Neg([]) == []
  {
  }

  lemma MirrorTail(levels: seq<Level>)
    requires levels != []
    ensures MirrorLevels(levels)[1..] == MirrorLevels(levels[1..]) && MirrorLevels(levels)[0] == MirrorLevel(levels[0])
  {
  }

  lemma {:induction false} AboveMirror(levels: seq<Level>, entry: real, e: real)
    requires e == -entry
    ensures SupportsBelow(MirrorLevels(levels), e) == Neg(ResistancesAbove(levels, entry))
  {
    hide Neg, MirrorLevels;
    if levels == [] {
      NegOne(0.0);
    } else {
      AboveMirror(levels[1..], entry, e);
      MirrorTail(levels);
      NegOne(levels[0].price);
      NegConcat(if levels[0].resistance && levels[0].price > entry then [levels[0].price] else [],
                ResistancesAbove(levels[1..], entry));
    }
  }

  lemma {:induction false} BelowMirror(levels: seq<Level>, entry: real, e: real)
    requires e == -entry
    ensures ResistancesAbove(MirrorLevels(levels), e) == Neg(SupportsBelow(levels, entry))
  {
    hide Neg, MirrorLevels;
    if levels == [] {
      NegOne(0.0);
    } else {
      BelowMirror(levels[1..], entry, e);
      MirrorTail(levels);
      NegOne(levels[0].price);
      NegConcat(if !levels[0].resistance && levels[0].price < entry then [levels[0].price] else [],
                SupportsBelow(levels[1..], entry));
    }
  }

  lemma SidesMirror(levels: seq<Level>, entry: real)
    ensures SupportsBelow(MirrorLevels(levels), -entry) == Neg(ResistancesAbove(levels, entry))
    ensures ResistancesAbove(MirrorLevels(levels), -entry) == Neg(SupportsBelow(levels, entry))
  {
    AboveMirror(levels, entry, -entry);
    BelowMirror(levels, entry, -entry);
  }

  lemma MaxMinMirror(s: seq<real>)
    requires s != []
    ensures MinOf(Neg(s)) == -MaxOf(s)
  {
    hide MaxOf, MinOf;
    var i :| 0 <= i < |s| && s[i] == MaxOf(s);
    var j :| 0 <= j < |s| && Neg(s)[j] == MinOf(Neg(s));
    assert Neg(s)[i] == -s[i] && Neg(s)[j] == -s[j];
  }

  lemma {:induction false} FirstMirror(ts: seq<real>, k: nat, bound: real)
    requires k <= |ts|
    ensures FirstAtMost(Neg(ts), k, -bound) == FirstAtLeast(ts, k, bound)
    decreases |ts| - k
  {
    if k < |ts| && ts[k] < bound {
      FirstMirror(ts, k + 1, bound);
    }
  }

  lemma StopMirror(entry: real, levels: seq<Level>, atr: real)
    ensures StopLoss(SHORT, -entry, MirrorLevels(levels), atr) == -StopLoss(LONG, entry, levels, atr)
  {
    SidesMirror(levels, entry);
    var below := SupportsBelow(levels, entry);
    if below != [] {
      MaxMinMirror(below);
    }
  }

  /** Both scans stop at the same places. */
  lemma ScanMirror(ts: seq<real>, entry: real, risk: real, k: nat)
    requires k <= |ts|
    ensures FirstAtMost(Neg(ts), k, -entry - risk) == FirstAtLeast(ts, k, entry + risk)
  {
    FirstMirror(ts, k, entry + risk);
    assert -(entry + risk) == -entry - risk;
  }

  lemma CandidatesMirror(ts: seq<real>, entry: real, risk: real, atr: real)
    ensures var l := LongCandidates(ts, entry, risk, atr);
      ShortCandidates(Neg(ts), -entry, risk, atr) == (-l.0, -l.1)
  {
    hide FirstAtLeast, FirstAtMost;
    ScanMirror(ts, entry, risk, 0);
    var i := FirstAtLeast(ts, 0, entry + risk);
    if i < |ts| { ScanMirror(ts, entry, risk * 2.0, i + 1); }
  }

  lemma TargetsMirror(entry: real, levels: seq<Level>)
    ensures Targets(SHORT, -entry, MirrorLevels(levels)) == Neg(Targets(LONG, entry, levels))
  {
    SidesMirror(levels, entry);
    SortMirror(ResistancesAbove(levels, entry));
  }

  lemma RoundedNeg(p: Plan)
    ensures Rounded(NegPlan(p)) == NegPlan(Rounded(p))
  {
    RoundOdd(p.stop, PRICE_SCALE);
    RoundOdd(p.tp1, PRICE_SCALE);
    RoundOdd(p.tp2, PRICE_SCALE);
  }

  // In the next lemmas the primed arguments are the mirror images of the
  // unprimed ones, however they are written.

  lemma BothCandidatesMirror(entry: real, levels: seq<Level>, entry': real, levels': seq<Level>, risk: real, atr: real)
    requires entry' == -entry && levels' == MirrorLevels(levels)
    ensures Candidates(SHORT, entry', levels', risk, atr).0 == -Candidates(LONG, entry, levels, risk, atr).0
    ensures Candidates(SHORT, entry', levels', risk, atr).1 == -Candidates(LONG, entry, levels, risk, atr).1
  {
    TargetsMirror(entry, levels);
    CandidatesMirror(Targets(LONG, entry, levels), entry, risk, atr);
  }

  lemma TakeProfitsMirror(entry: real, levels: seq<Level>, risk: real,
                          entry': real, levels': seq<Level>, risk': real, atr: real)
    requires entry' == -entry && levels' == MirrorLevels(levels) && risk' == risk
    ensures TakeProfits(SHORT, entry', levels', risk', atr).0 == -TakeProfits(LONG, entry, levels, risk, atr).0
    ensures TakeProfits(SHORT, entry', levels', risk', atr).1 == -TakeProfits(LONG, entry, levels, risk, atr).1
  {
    BothCandidatesMirror(entry, levels, entry', levels', risk, atr);
  }

  lemma WithStopMirror(entry: real, levels: seq<Level>, atr: real, stop: real, stop': real)
    requires stop' == -stop
    ensures WithStop(SHORT, -entry, MirrorLevels(levels), atr, stop') == NegPlan(WithStop(LONG, entry, levels, atr, stop))
  {
    hide TakeProfits;
    var risk, risk' := Abs(entry - stop), Abs(-entry - stop');
    TakeProfitsMirror(entry, levels, risk, -entry, MirrorLevels(levels), risk', atr);
  }

  lemma UnroundedMirror(entry: real, levels: seq<Level>, atr: real)
    ensures Unrounded(SHORT, -entry, MirrorLevels(levels), atr) == NegPlan(Unrounded(LONG, entry, levels, atr))
  {
    StopMirror(entry, levels, atr);
    WithStopMirror(entry, levels, atr, StopLoss(LONG, entry, levels, atr),
                   StopLoss(SHORT, -entry, MirrorLevels(levels), atr));
  }

  /** LONG on a market is SHORT on its mirror image, to the last rounded digit:
      through both sorts, both scans, every fallback and the guard. */
  lemma PlanMirror(ohlcv: seq<Candle>, entry: real, levels: seq<Level>)
    ensures Rounded(Unrounded(SHORT, -entry, MirrorLevels(levels), Atr(MirrorCandles(ohlcv), ATR_PERIOD)))
         == NegPlan(Rounded(Unrounded(LONG, entry, levels, Atr(ohlcv, ATR_PERIOD))))
  {
    AtrMirror(ohlcv, ATR_PERIOD);
    UnroundedMirror(entry, levels, Atr(ohlcv, ATR_PERIOD));
    RoundedNeg(Unrounded(LONG, entry, levels, Atr(ohlcv, ATR_PERIOD)));
  }

  /** Mirroring twice is the identity, so what holds LONG for all levels holds SHORT. */
  lemma MirrorTwice(levels: seq<Level>)
    ensures MirrorLevels(MirrorLevels(levels)) == levels
  {
  }
}
