/** The impulse-correction-impulse detector: a three-phase scan from every start,
    keeping the latest pattern of each direction. */
module IkiDetector {
  import opened Options
  import opened Rounding
  import opened StopTakeProfit

  const FIBO_RETRACEMENT_MIN := 0.382
  const FIBO_RETRACEMENT_MAX := 0.618
  const ATR_IMPULSE_MULTIPLIER := 2.0
  const MAX_IMPULSE_LEN := 10
  const MAX_CORRECTION_LEN := 15

  datatype Detection = Detection(bullish: bool, start: nat, impulseEnd: nat, correctionEnd: nat, secondEnd: nat, confidence: real)

  // ----- What the phases look at, for one direction -----

  function Move(s: seq<Candle>, bullish: bool, start: nat, j: nat): real
    requires start < |s| && j < |s|
  {
    if bullish then s[j].high - s[start].low else s[start].high - s[j].low
  }

  function ImpulseSize(s: seq<Candle>, bullish: bool, start: nat, e: nat): real
    requires start < |s| && e < |s|
  {
    if bullish then Abs(s[e].high - s[start].low) else Abs(s[e].low - s[start].high)
  }

  function RetraceRatio(s: seq<Candle>, bullish: bool, size: real, e: nat, k: nat): real
    requires e < |s| && k < |s|
  {
    var retrace := if bullish then s[e].high - s[k].low else s[k].high - s[e].low;
    if size > 0.0 then retrace / size else 0.0
  }

  function SecondMove(s: seq<Candle>, bullish: bool, k: nat, m: nat): real
    requires k < |s| && m < |s|
  {
    if bullish then s[m].high - s[k].low else s[k].high - s[m].low
  }

  function Confidence(secondMove: real, threshold: real): real
    requires threshold > 0.0
  {
    Round(Min(1.0, secondMove / threshold * 0.7 + 0.3), 100.0)
  }

  function End(from: nat, length: nat, n: nat): nat {
    if from + length < n then from + length else n
  }

  predicate InBand(ratio: real) {
    FIBO_RETRACEMENT_MIN <= ratio <= FIBO_RETRACEMENT_MAX
  }

  // ----- The pattern, described without the scan -----

  /** A detection at `d.start`: in every phase the first candle that qualifies, in
      its window; no candle before the correction's end retraces as far as its band. */
  ghost predicate IsIki(s: seq<Candle>, threshold: real, d: Detection)
    requires threshold > 0.0
  {
    && d.start < |s|
    && d.start + 2 <= d.impulseEnd < End(d.start, MAX_IMPULSE_LEN, |s|)
    && d.impulseEnd + 1 <= d.correctionEnd < End(d.impulseEnd, MAX_CORRECTION_LEN, |s|)
    && d.correctionEnd + 1 <= d.secondEnd < End(d.correctionEnd, MAX_IMPULSE_LEN, |s|)
    && var size := ImpulseSize(s, d.bullish, d.start, d.impulseEnd);
    && Move(s, d.bullish, d.start, d.impulseEnd) >= threshold
    && (forall j | d.start + 2 <= j < d.impulseEnd :: Move(s, d.bullish, d.start, j) < threshold)
    && InBand(RetraceRatio(s, d.bullish, size, d.impulseEnd, d.correctionEnd))
    && (forall k | d.impulseEnd < k < d.correctionEnd :: RetraceRatio(s, d.bullish, size, d.impulseEnd, k) < FIBO_RETRACEMENT_MIN)
    && SecondMove(s, d.bullish, d.correctionEnd, d.secondEnd) >= threshold * 0.5
    && (forall m | d.correctionEnd < m < d.secondEnd :: SecondMove(s, d.bullish, d.correctionEnd, m) < threshold * 0.5)
    && d.confidence == Confidence(SecondMove(s, d.bullish, d.correctionEnd, d.secondEnd), threshold)
  }

  // ----- The three loops -----

  /** The pattern from one start, or none; there is never more than one. */
  method FindIki(s: seq<Candle>, start: nat, threshold: real, bullish: bool) returns (found: Option<Detection>)
    requires start < |s| && threshold > 0.0
    ensures found != None ==> found.value.start == start && found.value.bullish == bullish && IsIki(s, threshold, found.value)
    ensures found == None ==> forall d: Detection | d.start == start && d.bullish == bullish :: !IsIki(s, threshold, d)
  {
    var n := |s|;
    var stop := End(start, MAX_IMPULSE_LEN, n);
    var e := start + 2;
    while e < stop && Move(s, bullish, start, e) < threshold
      invariant start + 2 <= e
      invariant e <= stop || e == start + 2
      invariant forall j | start + 2 <= j < e && j < stop :: Move(s, bullish, start, j) < threshold
    {
      e := e + 1;
    }
    if e >= stop {
      return None;
    }
    var size := ImpulseSize(s, bullish, start, e);
    stop := End(e, MAX_CORRECTION_LEN, n);
    var k := e + 1;
    while k < stop && RetraceRatio(s, bullish, size, e, k) < FIBO_RETRACEMENT_MIN
      invariant e + 1 <= k <= stop
      invariant forall j | e < j < k :: RetraceRatio(s, bullish, size, e, j) < FIBO_RETRACEMENT_MIN
    {
      k := k + 1;
    }
    if k >= stop || RetraceRatio(s, bullish, size, e, k) > FIBO_RETRACEMENT_MAX {
      return None;
    }
    stop := End(k, MAX_IMPULSE_LEN, n);
    var m := k + 1;
    while m < stop && SecondMove(s, bullish, k, m) < threshold * 0.5
      invariant k + 1 <= m <= stop
      invariant forall j | k < j < m :: SecondMove(s, bullish, k, j) < threshold * 0.5
    {
      m := m + 1;
    }
    if m >= stop {
      return None;
    }
    return Some(Detection(bullish, start, e, k, m, Confidence(SecondMove(s, bullish, k, m), threshold)));
  }

  // ----- The latest pattern of each direction -----

  /** The pattern of one direction with the greatest start in a range, if there is any. */
  ghost predicate IsLatest(s: seq<Candle>, threshold: real, lo: nat, hi: nat, bullish: bool, found: Option<Detection>)
    requires threshold > 0.0
  {
    && (found != None ==> lo <= found.value.start < hi && found.value.bullish == bullish && IsIki(s, threshold, found.value))
    && (forall d: Detection | d.bullish == bullish && lo <= d.start < hi && IsIki(s, threshold, d) ::
          found != None && d.start <= found.value.start)
  }

  function LastOf(results: seq<Detection>, bullish: bool): Option<Detection> {
    if results == [] then None
    else if results[|results| - 1].bullish == bullish then Some(results[|results| - 1])
    else LastOf(results[..|results| - 1], bullish)
  }

  lemma NothingFound()
    ensures forall b :: LastOf([], b) == None
  {
  }

  lemma LastOfNext(results: seq<Detection>, d: Detection)
    ensures forall b :: LastOf(results + [d], b) == if d.bullish == b then Some(d) else LastOf(results, b)
  {
    assert (results + [d])[..|results|] == results;
  }

  /** The value a dictionary by direction holds; `seen` lists its values in order of insertion. */
  function Pick(seen: seq<Detection>, bullish: bool): Option<Detection> {
    if seen == [] then None else if seen[0].bullish == bullish then Some(seen[0]) else Pick(seen[1..], bullish)
  }

  /** Assigning replaces in place or appends. */
  function Put(seen: seq<Detection>, d: Detection): seq<Detection> {
    if seen == [] then [d] else if seen[0].bullish == d.bullish then [d] + seen[1..] else [seen[0]] + Put(seen[1..], d)
  }

  ghost predicate OnePerDirection(seen: seq<Detection>) {
    forall i, j | 0 <= i < j < |seen| :: seen[i].bullish != seen[j].bullish
  }

  lemma {:induction false} PutPicks(seen: seq<Detection>, d: Detection, bullish: bool)
    ensures Pick(Put(seen, d), bullish) == if d.bullish == bullish then Some(d) else Pick(seen, bullish)
  {
    if seen != [] && seen[0].bullish != d.bullish {
      PutPicks(seen[1..], d, bullish);
      assert ([seen[0]] + Put(seen[1..], d))[1..] == Put(seen[1..], d);
    } else if seen != [] {
      assert ([d] + seen[1..])[1..] == seen[1..];
    }
  }

  lemma {:induction false} PutKeepsOne(seen: seq<Detection>, d: Detection)
    requires OnePerDirection(seen)
    ensures OnePerDirection(Put(seen, d))
    ensures forall x | x in Put(seen, d) :: x == d || x in seen
  {
    if seen != [] && seen[0].bullish != d.bullish {
      PutKeepsOne(seen[1..], d);
      forall x | x in seen[1..] ensures x.bullish != seen[0].bullish {
        var i :| 0 <= i < |seen[1..]| && seen[1..][i] == x;
        assert seen[i + 1] == x;
      }
      assert forall x | x in Put(seen[1..], d) :: x.bullish != seen[0].bullish;
    }
  }

  lemma ExtendLatest(s: seq<Candle>, threshold: real, lo: nat, i: nat, bullish: bool, before: Option<Detection>, found: Option<Detection>)
    requires threshold > 0.0 && lo <= i && IsLatest(s, threshold, lo, i, bullish, before)
    requires found != None ==> found.value.start == i && found.value.bullish == bullish && IsIki(s, threshold, found.value)
    requires found == None ==> forall d: Detection | d.start == i && d.bullish == bullish :: !IsIki(s, threshold, d)
    ensures IsLatest(s, threshold, lo, i + 1, bullish, if found != None then found else before)
  {
    hide IsIki;
  }

  /** The detector fills an array of true ranges; the result is the average true
      range of the stop-loss calculator. */
  method AtrByArray(ohlcv: seq<Candle>, period: nat) returns (atr: real)
    ensures atr == if |ohlcv| < period + 1 then 0.0 else Atr(ohlcv, period)
  {
    var n := |ohlcv|;
    if n < period + 1 || n < 2 {
      return 0.0;
    }
    var tr := new real[n - 1];
    for i := 1 to n
      invariant tr[..i - 1] == TrueRanges(ohlcv[..i])
    {
      tr[i - 1] := TrueRange(ohlcv[i - 1], ohlcv[i]);
      assert ohlcv[..i + 1][..i] == ohlcv[..i];
      assert tr[..i] == tr[..i - 1] + [tr[i - 1]];
    }
    assert ohlcv[..n] == ohlcv && tr[..] == tr[..n - 1];
    return Mean(LastN(tr[..], period));
  }

  method Deduplicate(results: seq<Detection>) returns (seen: seq<Detection>)
    ensures OnePerDirection(seen)
    ensures forall b :: Pick(seen, b) == LastOf(results, b)
  {
    seen := [];
    var k := 0;
    while k < |results|
      invariant 0 <= k <= |results|
      invariant OnePerDirection(seen)
      invariant forall b :: Pick(seen, b) == LastOf(results[..k], b)
    {
      PutPicks(seen, results[k], true);
      PutPicks(seen, results[k], false);
      PutKeepsOne(seen, results[k]);
      assert results[..k + 1][..k] == results[..k];
      seen := Put(seen, results[k]);
      k := k + 1;
    }
    assert results[..k] == results;
  }

  function ScanStart(n: nat, atrPeriod: nat): nat
    requires n >= atrPeriod + 20
  {
    if n - 60 > atrPeriod then n - 60 else atrPeriod
  }

  lemma NothingLatest(s: seq<Candle>, threshold: real, start: nat)
    requires threshold > 0.0
    ensures forall b :: IsLatest(s, threshold, start, start, b, None)
  {
  }

  /** What the detector answers: for each direction the latest pattern in its range of
      starts, or nothing on too few candles or without movement. */
  ghost predicate Detected(ohlcv: seq<Candle>, atrPeriod: nat, seen: seq<Detection>) {
    if |ohlcv| < atrPeriod + 20 || Atr(ohlcv, atrPeriod) <= 0.0 then seen == []
    else
      var threshold := ATR_IMPULSE_MULTIPLIER * Atr(ohlcv, atrPeriod);
      forall b :: IsLatest(ohlcv, threshold, ScanStart(|ohlcv|, atrPeriod), |ohlcv| - 10, b, Pick(seen, b))
  }

  /** The scan and the deduplication. */
  method DetectIkiPattern(ohlcv: seq<Candle>, atrPeriod: nat) returns (seen: seq<Detection>)
    ensures Detected(ohlcv, atrPeriod, seen)
    ensures OnePerDirection(seen)
  {
    hide IsIki, IsLatest, LastOf, Pick, Atr;
    if |ohlcv| < atrPeriod + 20 {
      return [];
    }
    var atr := AtrByArray(ohlcv, atrPeriod);
    if atr <= 0.0 {
      return [];
    }
    var threshold := ATR_IMPULSE_MULTIPLIER * atr;
    var results: seq<Detection> := [];
    var start := ScanStart(|ohlcv|, atrPeriod);
    NothingLatest(ohlcv, threshold, start);
    NothingFound();
    var i := start;
    while i < |ohlcv| - 10
      invariant start <= i <= |ohlcv| - 10
      invariant forall b :: IsLatest(ohlcv, threshold, start, i, b, LastOf(results, b))
    {
      var bull := FindIki(ohlcv, i, threshold, true);
      var bear := FindIki(ohlcv, i, threshold, false);
      ExtendLatest(ohlcv, threshold, start, i, true, LastOf(results, true), bull);
      ExtendLatest(ohlcv, threshold, start, i, false, LastOf(results, false), bear);
      if bull != None {
        LastOfNext(results, bull.value);
        results := results + [bull.value];
      }
      if bear != None {
        LastOfNext(results, bear.value);
        results := results + [bear.value];
      }
      i := i + 1;
    }
    seen := Deduplicate(results);
  }

  // ----- What a detection says -----

  lemma RoundedConfidence(x: real)
    requires 0.65 <= x <= 1.0
    ensures 0.65 <= Round(x, 100.0) <= 1.0
  {
    RoundMonotone(0.65, x, 100.0);
    RoundMonotone(x, 1.0, 100.0);
    HalfEvenUnique(65.0, HalfEven(65.0), 65);
    HalfEvenUnique(100.0, HalfEven(100.0), 100);
  }

  lemma ConfidenceBounds(move: real, threshold: real)
    requires threshold > 0.0 && move >= threshold * 0.5
    ensures 0.65 <= Confidence(move, threshold) <= 1.0
  {
    DivMonotone(threshold * 0.5, move, threshold);
    assert threshold * 0.5 / threshold == 0.5;
    RoundedConfidence(Min(1.0, move / threshold * 0.7 + 0.3));
  }

  /** Order, reach and confidence of every detection. */
  lemma DetectionBounds(s: seq<Candle>, threshold: real, d: Detection)
    requires threshold > 0.0 && IsIki(s, threshold, d)
    ensures d.start < d.impulseEnd < d.correctionEnd < d.secondEnd < |s| && d.secondEnd <= d.start + 32
    ensures 0.65 <= d.confidence <= 1.0
    ensures ImpulseSize(s, d.bullish, d.start, d.impulseEnd) >= threshold
  {
    hide RetraceRatio, SecondMove, Confidence;
    ConfidenceBounds(SecondMove(s, d.bullish, d.correctionEnd, d.secondEnd), threshold);
  }

  /** One start has at most one pattern of a direction. */
  lemma IkiUnique(s: seq<Candle>, threshold: real, a: Detection, b: Detection)
    requires threshold > 0.0 && IsIki(s, threshold, a) && IsIki(s, threshold, b)
    requires a.start == b.start && a.bullish == b.bullish
    ensures a == b
  {
    assert a.impulseEnd == b.impulseEnd;
    assert a.correctionEnd == b.correctionEnd;
    assert a.secondEnd == b.secondEnd;
  }

  // ----- The description in prices -----

  lemma RatioBounds(s: seq<Candle>, threshold: real, d: Detection, k: nat)
    requires threshold > 0.0 && d.bullish && d.start < |s| && d.impulseEnd < |s| && k < |s|
    requires s[d.impulseEnd].high - s[d.start].low >= threshold
    ensures var size := s[d.impulseEnd].high - s[d.start].low;
      var ratio := RetraceRatio(s, true, ImpulseSize(s, true, d.start, d.impulseEnd), d.impulseEnd, k);
      var retrace := s[d.impulseEnd].high - s[k].low;
      && (ratio < FIBO_RETRACEMENT_MIN <==> retrace < 0.382 * size)
      && (InBand(ratio) <==> 0.382 * size <= retrace <= 0.618 * size)
  {
    var size := s[d.impulseEnd].high - s[d.start].low;
    var retrace := s[d.impulseEnd].high - s[k].low;
    QuotientBounds(retrace, size, 0.382);
    QuotientBounds(retrace, size, 0.618);
  }

  /** A bullish pattern, in prices: a rise of at least the threshold within nine
      candles, then within fourteen a retracement into 38.2 to 61.8 percent of it,
      then within nine a rise of half the threshold, each as soon as it happens. */
  ghost predicate BullishPrices(s: seq<Candle>, threshold: real, start: nat, e: nat, k: nat, m: nat) {
    && start + 2 <= e < |s| && e < start + 10
    && e < k < |s| && k < e + 15
    && k < m < |s| && m < k + 10
    && var size := s[e].high - s[start].low;
    && size >= threshold
    && (forall j | start + 2 <= j < e :: s[j].high - s[start].low < threshold)
    && 0.382 * size <= s[e].high - s[k].low <= 0.618 * size
    && (forall j | e < j < k :: s[e].high - s[j].low < 0.382 * size)
    && s[m].high - s[k].low >= threshold / 2.0
    && (forall j | k < j < m :: s[j].high - s[k].low < threshold / 2.0)
  }

  /** The retracements of a pattern, without the division. */
  lemma RatiosInPrices(s: seq<Candle>, threshold: real, d: Detection)
    requires threshold > 0.0 && d.bullish && d.start < d.impulseEnd < d.correctionEnd < |s|
    requires s[d.impulseEnd].high - s[d.start].low >= threshold
    ensures var a, e := d.start, d.impulseEnd;
      var size, impulse := s[e].high - s[a].low, ImpulseSize(s, true, a, e);
      && (InBand(RetraceRatio(s, true, impulse, e, d.correctionEnd)) <==>
            0.382 * size <= s[e].high - s[d.correctionEnd].low <= 0.618 * size)
      && ((forall k | e < k < d.correctionEnd :: RetraceRatio(s, true, impulse, e, k) < FIBO_RETRACEMENT_MIN) <==>
            forall k | e < k < d.correctionEnd :: s[e].high - s[k].low < 0.382 * size)
  {
    hide RetraceRatio, ImpulseSize, InBand;
    RatioBounds(s, threshold, d, d.correctionEnd);
    forall k | d.impulseEnd < k < d.correctionEnd
      ensures RetraceRatio(s, true, ImpulseSize(s, true, d.start, d.impulseEnd), d.impulseEnd, k) < FIBO_RETRACEMENT_MIN
        <==> s[d.impulseEnd].high - s[k].low < 0.382 * (s[d.impulseEnd].high - s[d.start].low)
    {
      RatioBounds(s, threshold, d, k);
    }
  }

  lemma ConfidenceIs(move: real, threshold: real)
    requires threshold > 0.0
    ensures Confidence(move, threshold) == Round(Min(1.0, move / threshold * 0.7 + 0.3), 100.0)
  {
  }

  lemma IkiToPrices(s: seq<Candle>, threshold: real, d: Detection)
    requires threshold > 0.0 && d.bullish && IsIki(s, threshold, d)
    ensures BullishPrices(s, threshold, d.start, d.impulseEnd, d.correctionEnd, d.secondEnd)
    ensures d.confidence == Confidence(s[d.secondEnd].high - s[d.correctionEnd].low, threshold)
  {
    hide Confidence, RetraceRatio, ImpulseSize, InBand;
    RatiosInPrices(s, threshold, d);
    forall j | d.start + 2 <= j < d.impulseEnd ensures s[j].high - s[d.start].low < threshold {
      assert Move(s, true, d.start, j) < threshold;
    }
    forall j | d.correctionEnd < j < d.secondEnd ensures s[j].high - s[d.correctionEnd].low < threshold / 2.0 {
      assert SecondMove(s, true, d.correctionEnd, j) < threshold * 0.5;
    }
  }

  lemma PricesToIki(s: seq<Candle>, threshold: real, d: Detection)
    requires threshold > 0.0 && d.bullish
    requires BullishPrices(s, threshold, d.start, d.impulseEnd, d.correctionEnd, d.secondEnd)
    requires d.confidence == Confidence(s[d.secondEnd].high - s[d.correctionEnd].low, threshold)
    ensures IsIki(s, threshold, d)
  {
    hide Confidence, RetraceRatio, ImpulseSize, InBand;
    RatiosInPrices(s, threshold, d);
    forall j | d.start + 2 <= j < d.impulseEnd ensures Move(s, true, d.start, j) < threshold {
    }
    forall j | d.correctionEnd < j < d.secondEnd ensures SecondMove(s, true, d.correctionEnd, j) < threshold * 0.5 {
    }
  }

  lemma IkiInPrices(s: seq<Candle>, threshold: real, d: Detection)
    requires threshold > 0.0 && d.bullish
    ensures IsIki(s, threshold, d) <==>
      && BullishPrices(s, threshold, d.start, d.impulseEnd, d.correctionEnd, d.secondEnd)
      && d.confidence == Round(Min(1.0, (s[d.secondEnd].high - s[d.correctionEnd].low) / threshold * 0.7 + 0.3), 100.0)
  {
    hide IsIki, Round, Min, Confidence;
    if IsIki(s, threshold, d) { IkiToPrices(s, threshold, d); }
    if BullishPrices(s, threshold, d.start, d.impulseEnd, d.correctionEnd, d.secondEnd) {
      ConfidenceIs(s[d.secondEnd].high - s[d.correctionEnd].low, threshold);
      if d.confidence == Confidence(s[d.secondEnd].high - s[d.correctionEnd].low, threshold) {
        PricesToIki(s, threshold, d);
      }
    }
  }

  /** The scan is over the starts in the last sixty candles but ten, from the ATR
      period on, with twice the ATR as threshold. */
  lemma ScannedStarts(ohlcv: seq<Candle>, atrPeriod: nat, seen: seq<Detection>, bullish: bool)
    requires Detected(ohlcv, atrPeriod, seen) && |ohlcv| >= atrPeriod + 20 && Atr(ohlcv, atrPeriod) > 0.0
    ensures var found, threshold := Pick(seen, bullish), 2.0 * Atr(ohlcv, atrPeriod);
      && (found != None ==>
            var d := found.value;
            && IsIki(ohlcv, threshold, d) && d.bullish == bullish
            && atrPeriod <= d.start && |ohlcv| <= d.start + 60 && d.start + 10 < |ohlcv|)
      && forall d: Detection | IsIki(ohlcv, threshold, d) && d.bullish == bullish
          && atrPeriod <= d.start && |ohlcv| <= d.start + 60 && d.start + 10 < |ohlcv| ::
           found != None && d.start <= found.value.start
  {
    hide IsIki, Atr, Pick;
  }

  // ----- The mirror -----

  function Flip(d: Detection): Detection {
    d.(bullish := !d.bullish)
  }

  lemma PhasesMirror(s: seq<Candle>, t: seq<Candle>, b: bool, b': bool, i: nat, j: nat, size: real)
    requires t == MirrorCandles(s) && i < |s| && j < |s| && b' == !b
    ensures Move(t, b', i, j) == Move(s, b, i, j)
    ensures ImpulseSize(t, b', i, j) == ImpulseSize(s, b, i, j)
    ensures SecondMove(t, b', i, j) == SecondMove(s, b, i, j)
    ensures RetraceRatio(t, b', size, i, j) == RetraceRatio(s, b, size, i, j)
  {
  }

  lemma IkiMirrored(s: seq<Candle>, t: seq<Candle>, threshold: real, d: Detection)
    requires threshold > 0.0 && t == MirrorCandles(s) && IsIki(s, threshold, d)
    ensures IsIki(t, threshold, Flip(d))
  {
    hide Move, ImpulseSize, SecondMove, RetraceRatio, InBand, Confidence;
    var size := ImpulseSize(s, d.bullish, d.start, d.impulseEnd);
    var b := Flip(d).bullish;
    PhasesMirror(s, t, d.bullish, b, d.start, d.impulseEnd, size);
    PhasesMirror(s, t, d.bullish, b, d.impulseEnd, d.correctionEnd, size);
    PhasesMirror(s, t, d.bullish, b, d.correctionEnd, d.secondEnd, size);
    forall j | d.start + 2 <= j < d.impulseEnd ensures Move(t, b, d.start, j) < threshold {
      PhasesMirror(s, t, d.bullish, b, d.start, j, size);
    }
    forall k | d.impulseEnd < k < d.correctionEnd ensures RetraceRatio(t, b, size, d.impulseEnd, k) < FIBO_RETRACEMENT_MIN {
      PhasesMirror(s, t, d.bullish, b, d.impulseEnd, k, size);
    }
    forall m | d.correctionEnd < m < d.secondEnd ensures SecondMove(t, b, d.correctionEnd, m) < threshold * 0.5 {
      PhasesMirror(s, t, d.bullish, b, d.correctionEnd, m, size);
    }
  }

  /** Turning the market upside down turns bullish patterns into bearish ones. */
  lemma IkiMirror(s: seq<Candle>, t: seq<Candle>, threshold: real, d: Detection)
    requires threshold > 0.0 && t == MirrorCandles(s)
    ensures IsIki(s, threshold, d) <==> IsIki(t, threshold, Flip(d))
  {
    hide IsIki;
    assert MirrorCandles(t) == s;
    assert Flip(Flip(d)) == d;
    if IsIki(s, threshold, d) { IkiMirrored(s, t, threshold, d); }
    if IsIki(t, threshold, Flip(d)) { IkiMirrored(t, s, threshold, Flip(d)); }
  }

  /** The detector's answer on the mirrored market is the mirrored answer. */
  lemma LatestMirror(s: seq<Candle>, t: seq<Candle>, threshold: real, lo: nat, hi: nat, bullish: bool, found: Option<Detection>)
    requires threshold > 0.0 && t == MirrorCandles(s) && IsLatest(s, threshold, lo, hi, bullish, found)
    ensures IsLatest(t, threshold, lo, hi, !bullish, if found == None then None else Some(Flip(found.value)))
  {
    hide IsIki;
    if found != None { IkiMirror(s, t, threshold, found.value); }
    forall d: Detection | d.bullish == !bullish && lo <= d.start < hi && IsIki(t, threshold, d)
      ensures found != None && d.start <= found.value.start
    {
      IkiMirror(s, t, threshold, Flip(d));
      assert Flip(Flip(d)) == d;
    }
  }

  /** The answer is determined: two latest patterns of a range and direction are equal. */
  lemma LatestUnique(s: seq<Candle>, threshold: real, lo: nat, hi: nat, bullish: bool, a: Option<Detection>, b: Option<Detection>)
    requires threshold > 0.0 && IsLatest(s, threshold, lo, hi, bullish, a) && IsLatest(s, threshold, lo, hi, bullish, b)
    ensures a == b
  {
    hide IsIki;
    if a != None && b != None { IkiUnique(s, threshold, a.value, b.value); }
  }

  function FlipFound(found: Option<Detection>): Option<Detection> {
    if found == None then None else Some(Flip(found.value))
  }

  /** On the mirrored market the detector answers with the flipped patterns: what it
      finds of one direction there is what it finds of the other here. */
  lemma DetectionMirror(s: seq<Candle>, t: seq<Candle>, atrPeriod: nat, seen: seq<Detection>, mirrored: seq<Detection>, bullish: bool)
    requires t == MirrorCandles(s) && Detected(s, atrPeriod, seen) && Detected(t, atrPeriod, mirrored)
    ensures Pick(mirrored, !bullish) == FlipFound(Pick(seen, bullish))
  {
    hide IsLatest;
    AtrMirror(s, atrPeriod);
    if |s| >= atrPeriod + 20 && Atr(s, atrPeriod) > 0.0 {
      var threshold := ATR_IMPULSE_MULTIPLIER * Atr(s, atrPeriod);
      var lo, hi := ScanStart(|s|, atrPeriod), |s| - 10;
      LatestMirror(s, t, threshold, lo, hi, bullish, Pick(seen, bullish));
      LatestUnique(t, threshold, lo, hi, !bullish, Pick(mirrored, !bullish), FlipFound(Pick(seen, bullish)));
    }
  }
}
