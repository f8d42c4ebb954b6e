/** Labelling a historical signal by what its future candles hit first. */
module SignalOutcome {
  import opened Options
  import opened StopTakeProfit

  datatype Outcome = TP_BEFORE_SL | SL_BEFORE_TP | UNKNOWN

  predicate SlHit(dir: Direction, stop: real, c: Candle) {
    if dir == LONG then c.low <= stop else c.high >= stop
  }

  predicate TpHit(dir: Direction, tp1: real, c: Candle) {
    if dir == LONG then c.high >= tp1 else c.low <= tp1
  }

  /** The first candle that hits anything decides; both at once stay ambiguous. */
  function Label(dir: Direction, stop: real, tp1: real, future: seq<Candle>): Outcome {
    if future == [] then UNKNOWN
    else
      var sl, tp := SlHit(dir, stop, future[0]), TpHit(dir, tp1, future[0]);
      if sl && tp then UNKNOWN
      else if tp then TP_BEFORE_SL
      else if sl then SL_BEFORE_TP
      else Label(dir, stop, tp1, future[1..])
  }

  method LabelSignalOutcome(direction: Option<Direction>, entry: Option<real>, stop: Option<real>, tp1: Option<real>,
                            future: Option<seq<Candle>>) returns (outcome: Outcome)
    ensures outcome ==
      if direction == None || entry == None || stop == None || tp1 == None || future == None then UNKNOWN
      else Label(direction.value, stop.value, tp1.value, future.value)
  {
    if direction == None || entry == None || stop == None || tp1 == None || future == None || |future.value| == 0 {
      return UNKNOWN;
    }
    var candles := future.value;
    var i := 0;
    while i < |candles|
      invariant 0 <= i <= |candles|
      invariant Label(direction.value, stop.value, tp1.value, candles) == Label(direction.value, stop.value, tp1.value, candles[i..])
    {
      var slHit := SlHit(direction.value, stop.value, candles[i]);
      var tpHit := TpHit(direction.value, tp1.value, candles[i]);
      assert candles[i..][0] == candles[i] && candles[i..][1..] == candles[i + 1..];
      if slHit && tpHit {
        return UNKNOWN;
      }
      if tpHit {
        return TP_BEFORE_SL;
      }
      if slHit {
        return SL_BEFORE_TP;
      }
      i := i + 1;
    }
    return UNKNOWN;
  }

  // ----- First hit -----

  predicate Hit(dir: Direction, stop: real, tp1: real, c: Candle) {
    SlHit(dir, stop, c) || TpHit(dir, tp1, c)
  }

  /** The candle at `i` is the first that hits anything. */
  ghost predicate FirstHit(dir: Direction, stop: real, tp1: real, future: seq<Candle>, i: nat) {
    i < |future| && Hit(dir, stop, tp1, future[i]) && forall j | 0 <= j < i :: !Hit(dir, stop, tp1, future[j])
  }

  lemma {:induction false} FirstHitDecides(dir: Direction, stop: real, tp1: real, future: seq<Candle>, i: nat)
    requires FirstHit(dir, stop, tp1, future, i)
    ensures Label(dir, stop, tp1, future) == Label(dir, stop, tp1, [future[i]])
  {
    if i > 0 {
      assert !Hit(dir, stop, tp1, future[0]);
      assert forall j | 0 <= j < i - 1 :: future[1..][j] == future[j + 1];
      FirstHitDecides(dir, stop, tp1, future[1..], i - 1);
    }
  }

  lemma {:induction false} NoHitIsUnknown(dir: Direction, stop: real, tp1: real, future: seq<Candle>)
    requires forall j | 0 <= j < |future| :: !Hit(dir, stop, tp1, future[j])
    ensures Label(dir, stop, tp1, future) == UNKNOWN
  {
    if future != [] {
      assert forall j | 0 <= j < |future[1..]| :: future[1..][j] == future[j + 1];
      NoHitIsUnknown(dir, stop, tp1, future[1..]);
    }
  }

  lemma {:induction false} SomeFirstHit(dir: Direction, stop: real, tp1: real, future: seq<Candle>, k: nat) returns (i: nat)
    requires k < |future| && Hit(dir, stop, tp1, future[k])
    ensures i <= k && FirstHit(dir, stop, tp1, future, i)
  {
    if j :| 0 <= j < k && Hit(dir, stop, tp1, future[j]) {
      i := SomeFirstHit(dir, stop, tp1, future, j);
    } else {
      i := k;
    }
  }

  /** A signal won exactly if some candle hits the take profit alone and no earlier
      candle hits either level; it lost exactly if the same holds of the stop. */
  lemma {:induction false} OutcomeIff(dir: Direction, stop: real, tp1: real, future: seq<Candle>)
    ensures Label(dir, stop, tp1, future) == TP_BEFORE_SL <==>
      exists i: nat :: FirstHit(dir, stop, tp1, future, i) && !SlHit(dir, stop, future[i])
    ensures Label(dir, stop, tp1, future) == SL_BEFORE_TP <==>
      exists i: nat :: FirstHit(dir, stop, tp1, future, i) && !TpHit(dir, tp1, future[i])
  {
    if k :| 0 <= k < |future| && Hit(dir, stop, tp1, future[k]) {
      var i := SomeFirstHit(dir, stop, tp1, future, k);
      FirstHitDecides(dir, stop, tp1, future, i);
      forall j: nat | FirstHit(dir, stop, tp1, future, j) ensures j == i { }
    } else {
      NoHitIsUnknown(dir, stop, tp1, future);
    }
  }

  function Opposite(dir: Direction): Direction {
    if dir == LONG then SHORT else LONG
  }

  /** The price condition of a first hit: at `i` the candle reaches `hit`, which is
      above `missed` for LONG and below it for SHORT, and stays off `missed`; before
      it none reaches either. */
  ghost predicate FirstReached(dir: Direction, future: seq<Candle>, i: nat, hit: real, missed: real) {
    && i < |future|
    && (if dir == LONG then future[i].high >= hit && future[i].low > missed else future[i].low <= hit && future[i].high < missed)
    && forall j | 0 <= j < i ::
         if dir == LONG then future[j].high < hit && future[j].low > missed else future[j].low > hit && future[j].high < missed
  }

  /** In prices: a LONG signal wins when a high reaches the take profit and loses when
      a low reaches the stop; a SHORT one the other way round. */
  lemma OutcomeInPrices(dir: Direction, stop: real, tp1: real, future: seq<Candle>)
    ensures Label(dir, stop, tp1, future) == TP_BEFORE_SL <==> exists i: nat :: FirstReached(dir, future, i, tp1, stop)
    ensures Label(dir, stop, tp1, future) == SL_BEFORE_TP <==> exists i: nat :: FirstReached(Opposite(dir), future, i, stop, tp1)
  {
    OutcomeIff(dir, stop, tp1, future);
    forall i: nat
      ensures FirstHit(dir, stop, tp1, future, i) && !SlHit(dir, stop, future[i]) <==> FirstReached(dir, future, i, tp1, stop)
      ensures FirstHit(dir, stop, tp1, future, i) && !TpHit(dir, tp1, future[i]) <==> FirstReached(Opposite(dir), future, i, stop, tp1)
    {
    }
  }

  /** Once a prefix holds a hit, even an ambiguous one, no later candle changes the label. */
  lemma PrefixDecides(dir: Direction, stop: real, tp1: real, future: seq<Candle>, later: seq<Candle>, k: nat)
    requires k < |future| && Hit(dir, stop, tp1, future[k])
    ensures Label(dir, stop, tp1, future + later) == Label(dir, stop, tp1, future)
  {
    var i := SomeFirstHit(dir, stop, tp1, future, k);
    assert FirstHit(dir, stop, tp1, future + later, i);
    FirstHitDecides(dir, stop, tp1, future, i);
    FirstHitDecides(dir, stop, tp1, future + later, i);
  }

  // ----- Mirror and monotony -----

  /** Turning prices upside down swaps LONG and SHORT. */
  lemma {:induction false} LabelMirror(dir: Direction, stop: real, tp1: real, future: seq<Candle>)
    ensures Label(Opposite(dir), -stop, -tp1, MirrorCandles(future)) == Label(dir, stop, tp1, future)
  {
    if future != [] {
      LabelMirror(dir, stop, tp1, future[1..]);
      assert MirrorCandles(future)[1..] == MirrorCandles(future[1..]);
    }
  }

  /** `a` is not beyond `b`, seen in the direction of profit. */
  predicate NotBeyond(dir: Direction, a: real, b: real) {
    if dir == LONG then a <= b else a >= b
  }

  /** An easier take profit and a looser stop never spoil a win. */
  lemma {:induction false} EasingKeepsWins(dir: Direction, stop: real, tp1: real, stop': real, tp1': real, future: seq<Candle>)
    requires NotBeyond(dir, tp1', tp1) && NotBeyond(dir, stop', stop) && Label(dir, stop, tp1, future) == TP_BEFORE_SL
    ensures Label(dir, stop', tp1', future) == TP_BEFORE_SL
  {
    OutcomeIff(dir, stop, tp1, future);
    var i: nat :| FirstHit(dir, stop, tp1, future, i) && !SlHit(dir, stop, future[i]);
    var k := SomeFirstHit(dir, stop', tp1', future, i);
    assert !SlHit(dir, stop', future[k]) by { if k < i { assert !Hit(dir, stop, tp1, future[k]); } }
    OutcomeIff(dir, stop', tp1', future);
  }
}
