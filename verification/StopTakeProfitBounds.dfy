/** What every plan of `StopTakeProfit` satisfies: order, rewards, and when the
    branch that the source marks as unreachable is taken.  Each result is proved
    for LONG and carried to SHORT through the mirror. */
module StopTakeProfitBounds {
  import opened Rounding
  import opened StopTakeProfit

  predicate Eligible(dir: Direction, l: Level, entry: real) {
    if dir == LONG then l.resistance && l.price > entry else !l.resistance && l.price < entry
  }

  function Reward(dir: Direction, entry: real, price: real): real {
    if dir == LONG then price - entry else entry - price
  }

  /** Some level in the favourable direction pays at least the risk. */
  ghost predicate LevelPays(dir: Direction, entry: real, levels: seq<Level>, risk: real) {
    exists i | 0 <= i < |levels| :: Eligible(dir, levels[i], entry) && Reward(dir, entry, levels[i].price) >= risk
  }

  // ----- Sorting and filtering -----

  ghost predicate Sorted(s: seq<real>) {
    forall i, j | 0 <= i < j < |s| :: s[i] <= s[j]
  }

  lemma {:induction false} InsertBound(x: real, s: seq<real>, low: real)
    requires low <= x && forall i | 0 <= i < |s| :: low <= s[i]
    ensures forall i | 0 <= i < |InsertAsc(x, s)| :: low <= InsertAsc(x, s)[i]
  {
    if s != [] && !(x <= s[0]) {
      InsertBound(x, s[1..], low);
    }
  }

  lemma {:induction false} InsertSorted(x: real, s: seq<real>)
    requires Sorted(s)
    ensures Sorted(InsertAsc(x, s))
  {
    if s != [] && !(x <= s[0]) {
      InsertSorted(x, s[1..]);
      InsertBound(x, s[1..], s[0]);
    }
  }

  lemma {:induction false} InsertPermutes(x: real, s: seq<real>)
    ensures multiset(InsertAsc(x, s)) == multiset(s) + multiset{x}
  {
    if s != [] && !(x <= s[0]) {
      InsertPermutes(x, s[1..]);
      assert s == [s[0]] + s[1..];
    }
  }

  lemma {:induction false} SortSorted(s: seq<real>)
    ensures Sorted(SortAsc(s)) && multiset(SortAsc(s)) == multiset(s)
  {
    if s != [] {
      SortSorted(s[1..]);
      InsertSorted(s[0], SortAsc(s[1..]));
      InsertPermutes(s[0], SortAsc(s[1..]));
      assert s == [s[0]] + s[1..];
    }
  }

  /** The LONG targets hold each eligible level as often as the level list does. */
  lemma {:induction false} AboveCount(levels: seq<Level>, entry: real, p: real)
    ensures multiset(ResistancesAbove(levels, entry))[p] == if p > entry then multiset(levels)[Level(p, true)] else 0
  {
    if levels != [] {
      AboveCount(levels[1..], entry, p);
      assert levels == [levels[0]] + levels[1..];
    }
  }

  lemma TargetsLong(levels: seq<Level>, entry: real)
    ensures var ts := Targets(LONG, entry, levels);
      && Sorted(ts)
      && (forall i | 0 <= i < |ts| :: ts[i] > entry && Level(ts[i], true) in levels)
      && (forall i | 0 <= i < |levels| && Eligible(LONG, levels[i], entry) :: levels[i].price in ts)
  {
    var ts := Targets(LONG, entry, levels);
    SortSorted(ResistancesAbove(levels, entry));
    forall i | 0 <= i < |ts| ensures ts[i] > entry && Level(ts[i], true) in levels {
      assert ts[i] in multiset(ts);
      AboveCount(levels, entry, ts[i]);
    }
    forall i | 0 <= i < |levels| && Eligible(LONG, levels[i], entry) ensures levels[i].price in ts {
      AboveCount(levels, entry, levels[i].price);
      assert levels[i] == Level(levels[i].price, true) && levels[i] in multiset(levels);
      assert levels[i].price in multiset(ts);
    }
  }

  // ----- The first take profit is the nearest level that pays -----

  /** `p` is the price of an eligible level that pays the risk, and the nearest such. */
  ghost predicate NearestPaying(dir: Direction, entry: real, levels: seq<Level>, risk: real, p: real) {
    && Level(p, dir == LONG) in levels
    && Eligible(dir, Level(p, dir == LONG), entry)
    && Reward(dir, entry, p) >= risk
    && forall i | 0 <= i < |levels| && Eligible(dir, levels[i], entry) && Reward(dir, entry, levels[i].price) >= risk ::
         Reward(dir, entry, p) <= Reward(dir, entry, levels[i].price)
  }

  lemma FirstLong(entry: real, levels: seq<Level>, risk: real, atr: real)
    ensures var tp1 := Candidates(LONG, entry, levels, risk, atr).0;
      if LevelPays(LONG, entry, levels, risk) then NearestPaying(LONG, entry, levels, risk, tp1)
      else tp1 == entry + atr * ATR_MULTIPLIER_TP_FALLBACK
  {
    TargetsLong(levels, entry);
    var ts := Targets(LONG, entry, levels);
    var k := FirstAtLeast(ts, 0, entry + risk);
    if k < |ts| {
      var i :| 0 <= i < |levels| && levels[i] == Level(ts[k], true);
      assert LevelPays(LONG, entry, levels, risk);
    }
    forall i | 0 <= i < |levels| && Eligible(LONG, levels[i], entry) && levels[i].price - entry >= risk
      ensures k < |ts| && ts[k] <= levels[i].price
    {
      var j :| 0 <= j < |ts| && ts[j] == levels[i].price;
    }
  }

  /** Facts on the second take profit that do not depend on where the levels are. */
  lemma SecondLong(entry: real, levels: seq<Level>, risk: real, atr: real)
    requires risk >= 0.0 && atr >= 0.0
    ensures var (tp1, tp2) := TakeProfits(LONG, entry, levels, risk, atr);
      && tp1 == Candidates(LONG, entry, levels, risk, atr).0
      && entry <= tp1 <= tp2
      && (risk > 0.0 ==> tp1 < tp2)
      && (LevelPays(LONG, entry, levels, risk) ==> tp2 - entry >= risk * 2.0)
      && (!LevelPays(LONG, entry, levels, risk) ==> tp2 == Max(entry + atr * 6.0, tp1 + risk))
  {
    TargetsLong(levels, entry);
    FirstLong(entry, levels, risk, atr);
  }

  // ----- Carrying LONG results to SHORT -----
  // `e` and `m` are the mirrored entry and levels.

  lemma LevelPaysMirror(entry: real, levels: seq<Level>, e: real, m: seq<Level>, risk: real)
    requires e == -entry && m == MirrorLevels(levels)
    ensures LevelPays(LONG, e, m, risk) <==> LevelPays(SHORT, entry, levels, risk)
  {
    if LevelPays(LONG, e, m, risk) {
      var i :| 0 <= i < |m| && Eligible(LONG, m[i], e) && Reward(LONG, e, m[i].price) >= risk;
      assert Eligible(SHORT, levels[i], entry) && Reward(SHORT, entry, levels[i].price) >= risk;
    }
    if LevelPays(SHORT, entry, levels, risk) {
      var i :| 0 <= i < |levels| && Eligible(SHORT, levels[i], entry) && Reward(SHORT, entry, levels[i].price) >= risk;
      assert Eligible(LONG, m[i], e) && Reward(LONG, e, m[i].price) >= risk;
    }
  }

  /** The SHORT take profits, and those before the guard, are the negated LONG
      ones of the mirrored levels. */
  lemma ShortIsMirror(entry: real, levels: seq<Level>, e: real, m: seq<Level>, risk: real, atr: real)
    requires e == -entry && m == MirrorLevels(levels)
    ensures TakeProfits(SHORT, entry, levels, risk, atr).0 == -TakeProfits(LONG, e, m, risk, atr).0
    ensures TakeProfits(SHORT, entry, levels, risk, atr).1 == -TakeProfits(LONG, e, m, risk, atr).1
    ensures Candidates(SHORT, entry, levels, risk, atr).0 == -Candidates(LONG, e, m, risk, atr).0
    ensures Candidates(SHORT, entry, levels, risk, atr).1 == -Candidates(LONG, e, m, risk, atr).1
  {
    MirrorTwice(levels);
    TakeProfitsMirror(e, m, risk, entry, levels, risk, atr);
    BothCandidatesMirror(e, m, entry, levels, risk, atr);
  }

  // ----- Main results -----

  lemma NearestMirror(entry: real, levels: seq<Level>, e: real, m: seq<Level>, risk: real, p: real, q: real)
    requires e == -entry && m == MirrorLevels(levels) && p == -q
    requires NearestPaying(LONG, e, m, risk, q)
    ensures NearestPaying(SHORT, entry, levels, risk, p)
  {
    var i :| 0 <= i < |m| && m[i] == Level(q, true);
    assert levels[i] == Level(p, false);
    forall i | 0 <= i < |levels| && Eligible(SHORT, levels[i], entry) && Reward(SHORT, entry, levels[i].price) >= risk
      ensures Reward(SHORT, entry, p) <= Reward(SHORT, entry, levels[i].price)
    {
      assert Eligible(LONG, m[i], e) && Reward(LONG, e, m[i].price) >= risk;
    }
  }

  /** An S/R-based first take profit is the nearest eligible level that pays the
      risk; without one it is three ATRs away. */
  lemma NearestPayingLevel(dir: Direction, entry: real, levels: seq<Level>, risk: real, atr: real)
    requires risk >= 0.0 && atr >= 0.0
    ensures var tp1 := TakeProfits(dir, entry, levels, risk, atr).0;
      if LevelPays(dir, entry, levels, risk) then NearestPaying(dir, entry, levels, risk, tp1)
      else Reward(dir, entry, tp1) == atr * 3.0
  {
    if dir == LONG {
      FirstLong(entry, levels, risk, atr);
    } else {
      var e, m := -entry, MirrorLevels(levels);
      FirstLong(e, m, risk, atr);
      ShortIsMirror(entry, levels, e, m, risk, atr);
      LevelPaysMirror(entry, levels, e, m, risk);
      if LevelPays(SHORT, entry, levels, risk) {
        NearestMirror(entry, levels, e, m, risk,
                      TakeProfits(SHORT, entry, levels, risk, atr).0, Candidates(LONG, e, m, risk, atr).0);
      }
    }
  }

  /** The order of the take profits, and exactly when they pay what their
      documentation promises (1:1 and 1:2). */
  lemma TakeProfitRewards(dir: Direction, entry: real, levels: seq<Level>, risk: real, atr: real)
    requires risk >= 0.0 && atr >= 0.0
    ensures var (tp1, tp2) := TakeProfits(dir, entry, levels, risk, atr);
      var promised := LevelPays(dir, entry, levels, risk) || risk <= atr * 3.0;
      && 0.0 <= Reward(dir, entry, tp1) <= Reward(dir, entry, tp2)
      && (risk > 0.0 ==> Reward(dir, entry, tp1) < Reward(dir, entry, tp2))
      && (Reward(dir, entry, tp1) >= risk <==> promised)
      && (Reward(dir, entry, tp2) >= risk * 2.0 <==> promised)
  {
    NearestPayingLevel(dir, entry, levels, risk, atr);
    if dir == LONG {
      SecondLong(entry, levels, risk, atr);
    } else {
      var e, m := -entry, MirrorLevels(levels);
      SecondLong(e, m, risk, atr);
      ShortIsMirror(entry, levels, e, m, risk, atr);
      LevelPaysMirror(entry, levels, e, m, risk);
    }
  }

  /** A concrete plan that pays less than promised: entry 100, ATR 1 and a support at
      90 put the stop at 89.5; the take profits pay 3 and 13.5 where 10.5 and 21 are due. */
  lemma RewardsFallShort()
    ensures var levels := [Level(90.0, false)];
      && StopLoss(LONG, 100.0, levels, 1.0) == 89.5
      && TakeProfits(LONG, 100.0, levels, 10.5, 1.0) == (103.0, 113.5)
  {
    var levels := [Level(90.0, false)];
    assert levels[1..] == [];
    assert SupportsBelow(levels, 100.0) == [90.0] && ResistancesAbove(levels, 100.0) == [];
  }

  lemma {:induction false} BelowIsBelow(levels: seq<Level>, entry: real)
    ensures forall i | 0 <= i < |SupportsBelow(levels, entry)| :: SupportsBelow(levels, entry)[i] < entry
  {
    if levels != [] {
      BelowIsBelow(levels[1..], entry);
    }
  }

  lemma {:induction false} AboveIsAbove(levels: seq<Level>, entry: real)
    ensures forall i | 0 <= i < |ResistancesAbove(levels, entry)| :: ResistancesAbove(levels, entry)[i] > entry
  {
    if levels != [] {
      AboveIsAbove(levels[1..], entry);
    }
  }

  lemma StopIsAdverse(dir: Direction, entry: real, levels: seq<Level>, atr: real)
    requires atr >= 0.0
    ensures var stop := StopLoss(dir, entry, levels, atr);
      && Reward(dir, entry, stop) <= 0.0
      && Reward(dir, entry, stop) == -Abs(entry - stop)
      && (atr > 0.0 ==> Reward(dir, entry, stop) < 0.0)
  {
    if dir == LONG {
      BelowIsBelow(levels, entry);
    } else {
      AboveIsAbove(levels, entry);
    }
  }

  /** Against the direction: a support below a LONG entry, a resistance above a SHORT one. */
  predicate Adverse(dir: Direction, l: Level, entry: real) {
    if dir == LONG then !l.resistance && l.price < entry else l.resistance && l.price > entry
  }

  lemma {:induction false} AdverseLevels(levels: seq<Level>, entry: real)
    ensures forall p :: p in SupportsBelow(levels, entry) <==> p < entry && Level(p, false) in levels
    ensures forall p :: p in ResistancesAbove(levels, entry) <==> p > entry && Level(p, true) in levels
  {
    if levels != [] {
      AdverseLevels(levels[1..], entry);
      assert levels == [levels[0]] + levels[1..];
      assert levels[0] == Level(levels[0].price, levels[0].resistance);
    }
  }

  lemma NearestOf(dir: Direction, entry: real, levels: seq<Level>, l: Level)
    requires dir == LONG ==> SupportsBelow(levels, entry) != [] && l == Level(MaxOf(SupportsBelow(levels, entry)), false)
    requires dir == SHORT ==> ResistancesAbove(levels, entry) != [] && l == Level(MinOf(ResistancesAbove(levels, entry)), true)
    ensures l in levels && Adverse(dir, l, entry)
    ensures forall k | k in levels && Adverse(dir, k, entry) :: Reward(dir, entry, k.price) <= Reward(dir, entry, l.price)
  {
    AdverseLevels(levels, entry);
    forall k | k in levels && Adverse(dir, k, entry) ensures Reward(dir, entry, k.price) <= Reward(dir, entry, l.price) {
      assert k == Level(k.price, k.resistance);
      if dir == LONG { assert k.price in SupportsBelow(levels, entry); } else { assert k.price in ResistancesAbove(levels, entry); }
    }
  }

  /** The stop is half an ATR behind the adverse level nearest to the entry, or one
      and a half ATR from the entry when there is none. */
  lemma StopBehindNearest(dir: Direction, entry: real, levels: seq<Level>, atr: real)
    ensures var stop := StopLoss(dir, entry, levels, atr);
      if exists l :: l in levels && Adverse(dir, l, entry) then
        exists l :: l in levels && Adverse(dir, l, entry) && Reward(dir, l.price, stop) == -atr * 0.5
          && forall k | k in levels && Adverse(dir, k, entry) :: Reward(dir, entry, k.price) <= Reward(dir, entry, l.price)
      else Reward(dir, entry, stop) == -atr * 1.5
  {
    AdverseLevels(levels, entry);
    hide SupportsBelow, ResistancesAbove, MaxOf, MinOf;
    var below, above := SupportsBelow(levels, entry), ResistancesAbove(levels, entry);
    if dir == LONG {
      if below != [] { NearestOf(LONG, entry, levels, Level(MaxOf(below), false)); }
    } else {
      if above != [] { NearestOf(SHORT, entry, levels, Level(MinOf(above), true)); }
    }
  }

  /** Stop, entry, TP1 and TP2 are in order for every level list, duplicates
      included, and strictly in order exactly when the market moves at all or a
      level pays a positive risk. */
  lemma PlanOrder(dir: Direction, entry: real, levels: seq<Level>, atr: real)
    requires atr >= 0.0
    ensures var p := Unrounded(dir, entry, levels, atr);
      var risk := Abs(entry - p.stop);
      && Reward(dir, entry, p.stop) <= 0.0 <= Reward(dir, entry, p.tp1) <= Reward(dir, entry, p.tp2)
      && (Reward(dir, entry, p.stop) < 0.0 < Reward(dir, entry, p.tp1) < Reward(dir, entry, p.tp2)
          <==> atr > 0.0 || (risk > 0.0 && LevelPays(dir, entry, levels, risk)))
  {
    var stop := StopLoss(dir, entry, levels, atr);
    var risk := Abs(entry - stop);
    StopIsAdverse(dir, entry, levels, atr);
    TakeProfitRewards(dir, entry, levels, risk, atr);
    NearestPayingLevel(dir, entry, levels, risk, atr);
  }

  /** On any candles the rounded prices are still in (weak) order. */
  lemma RoundedOrder(ohlcv: seq<Candle>, dir: Direction, entry: real, levels: seq<Level>)
    ensures var p := Rounded(Unrounded(dir, entry, levels, Atr(ohlcv, ATR_PERIOD)));
      var e := Round(entry, PRICE_SCALE);
      if dir == LONG then p.stop <= e <= p.tp1 <= p.tp2 else p.stop >= e >= p.tp1 >= p.tp2
  {
    AtrNonNegative(ohlcv, ATR_PERIOD);
    var p := Unrounded(dir, entry, levels, Atr(ohlcv, ATR_PERIOD));
    PlanOrder(dir, entry, levels, Atr(ohlcv, ATR_PERIOD));
    if dir == LONG {
      RoundMonotone(p.stop, entry, PRICE_SCALE);
      RoundMonotone(entry, p.tp1, PRICE_SCALE);
      RoundMonotone(p.tp1, p.tp2, PRICE_SCALE);
    } else {
      RoundMonotone(entry, p.stop, PRICE_SCALE);
      RoundMonotone(p.tp1, entry, PRICE_SCALE);
      RoundMonotone(p.tp2, p.tp1, PRICE_SCALE);
    }
  }

  // ----- The guard -----

  lemma SortedDuplicate(ts: seq<real>, i: nat, bound: real)
    requires Sorted(ts) && i < |ts| && ts[i] >= bound && forall j | 0 <= j < i :: ts[j] < bound
    ensures multiset(ts)[ts[i]] >= 2 <==> i + 1 < |ts| && ts[i + 1] == ts[i]
  {
    var v := ts[i];
    assert ts == ts[..i] + [v] + ts[i + 1..];
    assert v !in multiset(ts[..i]);
    assert multiset(ts)[v] == 1 + multiset(ts[i + 1..])[v];
    if v in multiset(ts[i + 1..]) {
      var j :| 0 <= j < |ts[i + 1..]| && ts[i + 1..][j] == v;
      assert ts[i] <= ts[i + 1] <= ts[i + 1 + j];
    }
    if i + 1 < |ts| && ts[i + 1] == v {
      assert ts[i + 1..][0] == v;
    }
  }

  /** How many levels lie in the favourable direction. */
  function EligibleCount(dir: Direction, levels: seq<Level>, entry: real): nat {
    if levels == [] then 0
    else (if Eligible(dir, levels[0], entry) then 1 else 0) + EligibleCount(dir, levels[1..], entry)
  }

  lemma {:induction false} TargetCount(levels: seq<Level>, entry: real)
    ensures |ResistancesAbove(levels, entry)| == EligibleCount(LONG, levels, entry)
  {
    if levels != [] { TargetCount(levels[1..], entry); }
  }

  lemma SortLength(s: seq<real>)
    ensures |SortAsc(s)| == |s|
  {
    SortSorted(s);
    assert |SortAsc(s)| == |multiset(SortAsc(s))| == |multiset(s)| == |s|;
  }

  /** What the guard needs: the level at `p`, chosen as TP1, a second time and at
      least twice the risk away; or, without any risk, no other level and no ATR
      fallback beyond it. */
  ghost predicate Stuck(dir: Direction, entry: real, levels: seq<Level>, risk: real, atr: real, p: real) {
    || (multiset(levels)[Level(p, dir == LONG)] >= 2 && Reward(dir, entry, p) >= risk * 2.0)
    || (risk == 0.0 && EligibleCount(dir, levels, entry) == 1 && Reward(dir, entry, p) >= atr * 6.0)
  }

  /** The second target behind the first, on the sorted LONG targets. */
  lemma GuardOnTargets(ts: seq<real>, entry: real, risk: real, atr: real)
    requires risk >= 0.0 && atr >= 0.0 && Sorted(ts) && forall k | 0 <= k < |ts| :: ts[k] > entry
    ensures var tps, i := LongCandidates(ts, entry, risk, atr), FirstAtLeast(ts, 0, entry + risk);
      GuardFires(LONG, tps) <==>
        if i == |ts| then risk == 0.0 && atr == 0.0
        else
          || (i + 1 < |ts| && ts[i + 1] == ts[i] && ts[i] - entry >= risk * 2.0)
          || (risk == 0.0 && |ts| == 1 && ts[i] - entry >= atr * 6.0)
  {
    hide FirstAtLeast;
    var i := FirstAtLeast(ts, 0, entry + risk);
    if i < |ts| {
      var j := FirstAtLeast(ts, i + 1, entry + risk * 2.0);
      if i + 1 < |ts| { assert ts[i] <= ts[i + 1]; }
      if risk == 0.0 { assert ts[0] >= entry + risk && i == 0; }
    }
  }

  /** Some level pays the risk exactly if the scan finds a first target. */
  lemma FirstPays(entry: real, levels: seq<Level>, risk: real, atr: real)
    ensures var ts := Targets(LONG, entry, levels);
      LevelPays(LONG, entry, levels, risk) <==> FirstAtLeast(ts, 0, entry + risk) < |ts|
  {
    TargetsLong(levels, entry);
    var ts := Targets(LONG, entry, levels);
    var k := FirstAtLeast(ts, 0, entry + risk);
    if k < |ts| {
      var i :| 0 <= i < |levels| && levels[i] == Level(ts[k], true);
      assert LevelPays(LONG, entry, levels, risk);
    }
    if LevelPays(LONG, entry, levels, risk) {
      var i :| 0 <= i < |levels| && Eligible(LONG, levels[i], entry) && Reward(LONG, entry, levels[i].price) >= risk;
      var j :| 0 <= j < |ts| && ts[j] == levels[i].price;
    }
  }

  lemma GuardLong(entry: real, levels: seq<Level>, risk: real, atr: real)
    requires risk >= 0.0 && atr >= 0.0
    ensures var tps := Candidates(LONG, entry, levels, risk, atr);
      GuardFires(LONG, tps) <==>
        if LevelPays(LONG, entry, levels, risk) then Stuck(LONG, entry, levels, risk, atr, tps.0) else risk == 0.0 && atr == 0.0
  {
    hide ResistancesAbove, SortAsc, EligibleCount;
    var ts := Targets(LONG, entry, levels);
    var i := FirstAtLeast(ts, 0, entry + risk);
    TargetsLong(levels, entry);
    FirstPays(entry, levels, risk, atr);
    GuardOnTargets(ts, entry, risk, atr);
    TargetCount(levels, entry);
    SortLength(ResistancesAbove(levels, entry));
    hide FirstAtLeast;
    if i < |ts| {
      SortSorted(ResistancesAbove(levels, entry));
      AboveCount(levels, entry, ts[i]);
      SortedDuplicate(ts, i, entry + risk);
    }
  }

  lemma ConsCount<T>(s: seq<T>, y: T)
    requires s != []
    ensures multiset(s)[y] == (if s[0] == y then 1 else 0) + multiset(s[1..])[y]
  {
    assert s == [s[0]] + s[1..];
  }

  lemma {:induction false} CountMirror(levels: seq<Level>, p: real, q: real)
    requires q == -p
    ensures multiset(MirrorLevels(levels))[Level(q, true)] == multiset(levels)[Level(p, false)]
  {
    if levels != [] {
      CountMirror(levels[1..], p, q);
      assert MirrorLevels(levels)[1..] == MirrorLevels(levels[1..]);
      ConsCount(levels, Level(p, false));
      ConsCount(MirrorLevels(levels), Level(q, true));
    }
  }

  lemma {:induction false} EligibleCountMirror(levels: seq<Level>, entry: real, e: real)
    requires e == -entry
    ensures EligibleCount(LONG, MirrorLevels(levels), e) == EligibleCount(SHORT, levels, entry)
  {
    if levels != [] {
      EligibleCountMirror(levels[1..], entry, e);
      assert MirrorLevels(levels)[1..] == MirrorLevels(levels[1..]);
    }
  }

  lemma GuardBothWays(dir: Direction, entry: real, levels: seq<Level>, risk: real, atr: real)
    requires risk >= 0.0 && atr >= 0.0
    ensures var tps := Candidates(dir, entry, levels, risk, atr);
      GuardFires(dir, tps) <==>
        if LevelPays(dir, entry, levels, risk) then Stuck(dir, entry, levels, risk, atr, tps.0) else risk == 0.0 && atr == 0.0
  {
    if dir == LONG {
      GuardLong(entry, levels, risk, atr);
    } else {
      hide Candidates, LevelPays, EligibleCount;
      var e, m := -entry, MirrorLevels(levels);
      GuardLong(e, m, risk, atr);
      ShortIsMirror(entry, levels, e, m, risk, atr);
      LevelPaysMirror(entry, levels, e, m, risk);
      EligibleCountMirror(levels, entry, e);
      CountMirror(levels, Candidates(SHORT, entry, levels, risk, atr).0, Candidates(LONG, e, m, risk, atr).0);
    }
  }

  lemma NearestUnique(dir: Direction, entry: real, levels: seq<Level>, risk: real, p: real, q: real)
    requires NearestPaying(dir, entry, levels, risk, p) && NearestPaying(dir, entry, levels, risk, q)
    ensures p == q
  {
    var i :| 0 <= i < |levels| && levels[i] == Level(p, dir == LONG);
    var j :| 0 <= j < |levels| && levels[j] == Level(q, dir == LONG);
    assert Reward(dir, entry, p) <= Reward(dir, entry, levels[j].price);
    assert Reward(dir, entry, q) <= Reward(dir, entry, levels[i].price);
  }

  lemma FirstStays(dir: Direction, entry: real, levels: seq<Level>, risk: real, atr: real)
    ensures TakeProfits(dir, entry, levels, risk, atr).0 == Candidates(dir, entry, levels, risk, atr).0
  {
  }

  /** The "unreachable" guard, for every risk: with `p` the nearest level that pays
      the risk, it fires exactly if that level leaves the second target stuck; with
      no such level, exactly if there is neither risk nor ATR. */
  lemma GuardReached(dir: Direction, entry: real, levels: seq<Level>, risk: real, atr: real, p: real)
    requires risk >= 0.0 && atr >= 0.0
    ensures var tps := Candidates(dir, entry, levels, risk, atr);
      && (NearestPaying(dir, entry, levels, risk, p) ==> (GuardFires(dir, tps) <==> Stuck(dir, entry, levels, risk, atr, p)))
      && (!LevelPays(dir, entry, levels, risk) ==> (GuardFires(dir, tps) <==> risk == 0.0 && atr == 0.0))
  {
    hide Candidates, Stuck;
    GuardBothWays(dir, entry, levels, risk, atr);
    if NearestPaying(dir, entry, levels, risk, p) {
      var i :| 0 <= i < |levels| && levels[i] == Level(p, dir == LONG);
      assert LevelPays(dir, entry, levels, risk);
      NearestPayingLevel(dir, entry, levels, risk, atr);
      FirstStays(dir, entry, levels, risk, atr);
      NearestUnique(dir, entry, levels, risk, p, Candidates(dir, entry, levels, risk, atr).0);
    }
  }

  /** On a plan, there is no risk exactly if there is no ATR and no adverse level. */
  lemma NoRiskIff(dir: Direction, entry: real, levels: seq<Level>, atr: real)
    requires atr >= 0.0
    ensures Abs(entry - StopLoss(dir, entry, levels, atr)) == 0.0 <==>
      atr == 0.0 && forall l | l in levels :: !Adverse(dir, l, entry)
  {
    StopIsAdverse(dir, entry, levels, atr);
    StopBehindNearest(dir, entry, levels, atr);
  }

  lemma RiskNonNegative(entry: real, stop: real)
    ensures Abs(entry - stop) >= 0.0
  {
  }

  lemma NearestIsLevel(dir: Direction, entry: real, levels: seq<Level>, risk: real, p: real)
    requires NearestPaying(dir, entry, levels, risk, p)
    ensures LevelPays(dir, entry, levels, risk) && Reward(dir, entry, p) > 0.0
  {
    var i :| 0 <= i < |levels| && levels[i] == Level(p, dir == LONG);
  }

  /** Without risk, any level in the favourable direction pays. */
  lemma {:induction false} EligiblePays(dir: Direction, entry: real, levels: seq<Level>)
    ensures LevelPays(dir, entry, levels, 0.0) <==> EligibleCount(dir, levels, entry) > 0
  {
    if levels != [] {
      EligiblePays(dir, entry, levels[1..]);
      assert forall i | 0 < i < |levels| :: levels[i] == levels[1..][i - 1];
      if LevelPays(dir, entry, levels[1..], 0.0) {
        var i :| 0 <= i < |levels[1..]| && Eligible(dir, levels[1..][i], entry) && Reward(dir, entry, levels[1..][i].price) >= 0.0;
        assert levels[i + 1] == levels[1..][i];
      }
      if Eligible(dir, levels[0], entry) { assert Reward(dir, entry, levels[0].price) >= 0.0; }
    }
  }

  /** The guard on a plan, in terms of its inputs. */
  lemma PlanGuardReached(dir: Direction, entry: real, levels: seq<Level>, atr: real)
    requires atr >= 0.0
    ensures var risk := Abs(entry - StopLoss(dir, entry, levels, atr));
      GuardFires(dir, Candidates(dir, entry, levels, risk, atr)) <==>
        if atr == 0.0 && forall l | l in levels :: !Adverse(dir, l, entry) then
          || EligibleCount(dir, levels, entry) <= 1
          || exists p :: NearestPaying(dir, entry, levels, 0.0, p) && multiset(levels)[Level(p, dir == LONG)] >= 2
        else
          exists p :: NearestPaying(dir, entry, levels, risk, p) && multiset(levels)[Level(p, dir == LONG)] >= 2
            && Reward(dir, entry, p) >= risk * 2.0
  {
    hide Candidates, StopLoss, Adverse, EligibleCount, Abs;
    var risk := Abs(entry - StopLoss(dir, entry, levels, atr));
    var p := Candidates(dir, entry, levels, risk, atr).0;
    NoRiskIff(dir, entry, levels, atr);
    RiskNonNegative(entry, StopLoss(dir, entry, levels, atr));
    GuardBothWays(dir, entry, levels, risk, atr);
    NearestPayingLevel(dir, entry, levels, risk, atr);
    FirstStays(dir, entry, levels, risk, atr);
    EligiblePays(dir, entry, levels);
    forall q | NearestPaying(dir, entry, levels, risk, q) ensures q == p {
      NearestIsLevel(dir, entry, levels, risk, q);
      NearestUnique(dir, entry, levels, risk, p, q);
    }
  }

  /** A concrete plan that takes it: entry 100, ATR 2, resistance 110 found twice.
      TP2 becomes 113 although a level at 120 was found as well. */
  lemma GuardReachedExample()
    ensures var levels := [Level(110.0, true), Level(110.0, true), Level(120.0, true)];
      && StopLoss(LONG, 100.0, levels, 2.0) == 97.0
      && Candidates(LONG, 100.0, levels, 3.0, 2.0) == (110.0, 110.0)
      && TakeProfits(LONG, 100.0, levels, 3.0, 2.0) == (110.0, 113.0)
  {
    var levels := [Level(110.0, true), Level(110.0, true), Level(120.0, true)];
    assert levels[1..] == [Level(110.0, true), Level(120.0, true)] && levels[1..][1..] == [Level(120.0, true)];
    assert ResistancesAbove(levels[1..][1..], 100.0) == [120.0];
    assert ResistancesAbove(levels[1..], 100.0) == [110.0, 120.0];
    assert ResistancesAbove(levels, 100.0) == [110.0, 110.0, 120.0];
    assert SortAsc([120.0]) == [120.0];
    assert [110.0, 120.0][1..] == [120.0] && [110.0, 110.0, 120.0][1..] == [110.0, 120.0];
    assert SortAsc([110.0, 120.0]) == [110.0, 120.0];
    assert SortAsc([110.0, 110.0, 120.0]) == [110.0, 110.0, 120.0];
    assert SupportsBelow(levels[1..][1..], 100.0) == [];
    assert SupportsBelow(levels[1..], 100.0) == [];
  }

  /** Without candles there is no ATR, and without supports no risk: then the guard
      takes a plan with a single level. */
  lemma GuardReachedWithoutRisk()
    ensures var levels := [Level(110.0, true)];
      && StopLoss(LONG, 100.0, levels, Atr([], ATR_PERIOD)) == 100.0
      && GuardFires(LONG, Candidates(LONG, 100.0, levels, 0.0, Atr([], ATR_PERIOD)))
  {
    var levels := [Level(110.0, true)];
    assert levels[1..] == [];
    assert ResistancesAbove(levels, 100.0) == [110.0] && SupportsBelow(levels, 100.0) == [];
    assert [110.0][1..] == [] && SortAsc([110.0]) == [110.0];
  }
}
