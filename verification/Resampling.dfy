/** Resampling daily candles to weeks and hourly candles to four hours. */
module Resampling {
  import opened Rounding
  import opened Sequences

  /** `timestamp` counts seconds from Thursday, 1 January 1970. */
  datatype Candle = Candle(timestamp: int, open: real, high: real, low: real, close: real, volume: real)

  const DAY := 86400

  /** The number of the week from Monday to Sunday, which stands for the pair of
      ISO year and ISO week (ISO 8601:2004, section 4.1.4). */
  function WeekKey(c: Candle): int {
    (c.timestamp / DAY + 3) / 7
  }

  /** The seven days from a Monday at 00:00 on; 5 January 1970, the Monday of number 0,
      is four days after the origin. */
  predicate InWeek(monday: int, timestamp: int) {
    4 * 86400 + monday * 604800 <= timestamp < 4 * 86400 + (monday + 1) * 604800
  }

  lemma WeekIs(c: Candle, monday: int)
    ensures InWeek(monday, c.timestamp) <==> WeekKey(c) == monday + 1
  {
  }

  /** Candles share a week exactly if they are in the seven days from one Monday on. */
  lemma SameWeekIff(a: Candle, b: Candle)
    ensures WeekKey(a) == WeekKey(b) <==> exists monday :: InWeek(monday, a.timestamp) && InWeek(monday, b.timestamp)
  {
    hide InWeek, WeekKey;
    WeekIs(a, WeekKey(a) - 1);
    WeekIs(b, WeekKey(b) - 1);
    forall n ensures InWeek(n, a.timestamp) <==> WeekKey(a) == n + 1 { WeekIs(a, n); }
    forall n ensures InWeek(n, b.timestamp) <==> WeekKey(b) == n + 1 { WeekIs(b, n); }
    if WeekKey(a) == WeekKey(b) { assert InWeek(WeekKey(a) - 1, b.timestamp); }
  }

  function HighOf(cs: seq<Candle>): real
    requires cs != []
  {
    if |cs| == 1 then cs[0].high else Max(HighOf(cs[..|cs| - 1]), cs[|cs| - 1].high)
  }

  function LowOf(cs: seq<Candle>): real
    requires cs != []
  {
    if |cs| == 1 then cs[0].low else Min(LowOf(cs[..|cs| - 1]), cs[|cs| - 1].low)
  }

  function VolumeOf(cs: seq<Candle>): real {
    if cs == [] then 0.0 else VolumeOf(cs[..|cs| - 1]) + cs[|cs| - 1].volume
  }

  /** One candle for a bucket. */
  function BuildCandle(cs: seq<Candle>): Candle
    requires cs != []
  {
    Candle(cs[0].timestamp, cs[0].open, HighOf(cs), LowOf(cs), cs[|cs| - 1].close, VolumeOf(cs))
  }

  function BuildAll(buckets: seq<seq<Candle>>): (r: seq<Candle>)
    requires NoneEmpty(buckets)
    ensures |r| == |buckets| && forall i | 0 <= i < |r| :: r[i] == BuildCandle(buckets[i])
  {
    seq(|buckets|, i requires 0 <= i < |buckets| => BuildCandle(buckets[i]))
  }

  // ----- Weeks -----

  function Place(buckets: seq<seq<Candle>>, c: Candle): (r: seq<seq<Candle>>)
    requires NoneEmpty(buckets)
    ensures NoneEmpty(r) && r != []
  {
    if buckets != [] && WeekKey(buckets[|buckets| - 1][0]) == WeekKey(c) then
      buckets[..|buckets| - 1] + [buckets[|buckets| - 1] + [c]]
    else buckets + [[c]]
  }

  function Weeks(s: seq<Candle>): (r: seq<seq<Candle>>)
    ensures NoneEmpty(r) && (s != [] ==> r != [])
  {
    if s == [] then [] else Place(Weeks(s[..|s| - 1]), s[|s| - 1])
  }

  lemma WeeksNext(s: seq<Candle>, i: nat)
    requires i < |s|
    ensures Weeks(s[..i + 1]) == Place(Weeks(s[..i]), s[i])
  {
    assert s[..i + 1][..i] == s[..i];
  }

  lemma FirstPlaced(s: seq<Candle>)
    requires s != []
    ensures Weeks(s[..1]) == [] + [[s[0]]]
  {
    assert s[..1][..0] == [];
    assert Weeks([]) == [];
  }

  lemma PlaceInto(done: seq<seq<Candle>>, bucket: seq<Candle>, c: Candle)
    requires NoneEmpty(done) && bucket != []
    ensures Place(done + [bucket], c)
      == if WeekKey(bucket[0]) == WeekKey(c) then done + [bucket + [c]] else done + [bucket] + [[c]]
  {
    assert (done + [bucket])[..|done|] == done;
  }

  lemma BuildMore(buckets: seq<seq<Candle>>, bucket: seq<Candle>)
    requires NoneEmpty(buckets) && bucket != []
    ensures NoneEmpty(buckets + [bucket]) && BuildAll(buckets + [bucket]) == BuildAll(buckets) + [BuildCandle(bucket)]
  {
  }

  method ResampleToWeekly(candles: seq<Candle>) returns (result: seq<Candle>)
    ensures result == BuildAll(Weeks(candles))
  {
    hide WeekKey, BuildCandle;
    if candles == [] {
      return [];
    }
    result := [];
    var bucket: seq<Candle> := [];
    var currentWeek := 0;
    ghost var done: seq<seq<Candle>> := [];
    var i := 0;
    while i < |candles|
      invariant 0 <= i <= |candles|
      invariant i == 0 ==> bucket == [] && done == []
      invariant i > 0 ==> bucket != [] && currentWeek == WeekKey(bucket[0]) && Weeks(candles[..i]) == done + [bucket]
      invariant NoneEmpty(done) && result == BuildAll(done)
    {
      var weekKey := WeekKey(candles[i]);
      WeeksNext(candles, i);
      if i > 0 { PlaceInto(done, bucket, candles[i]); } else { FirstPlaced(candles); }
      if i == 0 || weekKey == currentWeek {
        currentWeek := weekKey;
        bucket := bucket + [candles[i]];
        assert i == 0 ==> bucket == [candles[0]];
      } else {
        BuildMore(done, bucket);
        result := result + [BuildCandle(bucket)];
        done := done + [bucket];
        currentWeek := weekKey;
        bucket := [candles[i]];
      }
      i := i + 1;
    }
    assert candles[..i] == candles;
    if bucket != [] {
      BuildMore(done, bucket);
      result := result + [BuildCandle(bucket)];
    }
  }

  // ----- Four hours -----

  /** The complete groups of four. */
  function Fours(s: seq<Candle>): (r: seq<seq<Candle>>)
    ensures |r| == |s| / 4 && forall i | 0 <= i < |r| :: |r[i]| == 4
    ensures NoneEmpty(r)
  {
    if |s| < 4 then [] else [s[..4]] + Fours(s[4..])
  }

  lemma {:induction false} FoursAppend(s: seq<Candle>, t: seq<Candle>)
    requires |s| % 4 == 0
    ensures Fours(s + t) == Fours(s) + Fours(t)
  {
    if s == [] {
      assert s + t == t;
    } else {
      assert (s + t)[..4] == s[..4] && (s + t)[4..] == s[4..] + t;
      FoursAppend(s[4..], t);
    }
  }

  lemma OneFour(s: seq<Candle>)
    requires |s| == 4
    ensures Fours(s) == [s]
  {
    assert s[..4] == s && Fours(s[4..]) == [];
  }

  lemma FourMore(s: seq<Candle>, bucket: seq<Candle>)
    requires |s| % 4 == 0 && |bucket| == 4
    ensures BuildAll(Fours(s + bucket)) == BuildAll(Fours(s)) + [BuildCandle(bucket)]
  {
    hide BuildCandle;
    FoursAppend(s, bucket);
    OneFour(bucket);
    BuildMore(Fours(s), bucket);
  }

  lemma NoFour(s: seq<Candle>)
    requires |s| < 4
    ensures Fours(s) == []
  {
  }

  method ResampleTo4h(data: seq<Candle>) returns (result: seq<Candle>)
    ensures result == BuildAll(Fours(data))
  {
    hide BuildCandle, Fours;
    NoFour([]);
    result := [];
    var bucket: seq<Candle> := [];
    var i := 0;
    while i < |data|
      invariant 0 <= i <= |data| && |bucket| == i % 4 && bucket == data[i - |bucket|..i]
      invariant result == BuildAll(Fours(data[..i - |bucket|]))
    {
      bucket := bucket + [data[i]];
      i := i + 1;
      if |bucket| == 4 {
        assert data[..i] == data[..i - 4] + bucket;
        FourMore(data[..i - 4], bucket);
        result := result + [BuildCandle(bucket)];
        bucket := [];
      }
    }
    assert data == data[..i - |bucket|] + bucket;
    FoursAppend(data[..i - |bucket|], bucket);
    NoFour(bucket);
  }

  // ----- What a bucket's candle keeps -----

  ghost predicate WellFormed(c: Candle) {
    c.low <= c.open <= c.high && c.low <= c.close <= c.high
  }

  /** A bucket's candle opens with the first and closes with the last of its candles;
      a bucket of one is that candle. */
  lemma OpensAndCloses(first: Candle, between: seq<Candle>, last: Candle)
    ensures var c := BuildCandle([first] + between + [last]);
      c.timestamp == first.timestamp && c.open == first.open && c.close == last.close
    ensures BuildCandle([first]) == first
  {
    assert [first][..0] == [] && VolumeOf([]) == 0.0;
    assert VolumeOf([first]) == VolumeOf([first][..0]) + first.volume;
  }

  /** High and low are the extremes of the bucket, and are reached in it. */
  lemma {:induction false} Extremes(cs: seq<Candle>)
    requires cs != []
    ensures forall c | c in cs :: LowOf(cs) <= c.low && c.high <= HighOf(cs)
    ensures (exists c :: c in cs && c.high == HighOf(cs)) && (exists c :: c in cs && c.low == LowOf(cs))
  {
    if |cs| == 1 {
      assert cs[0] in cs;
    } else {
      var front, last := cs[..|cs| - 1], cs[|cs| - 1];
      assert cs == front + [last];
      Extremes(front);
    }
  }

  lemma BuiltWellFormed(cs: seq<Candle>)
    requires cs != [] && forall c | c in cs :: WellFormed(c)
    ensures WellFormed(BuildCandle(cs))
  {
    Extremes(cs);
    assert cs[0] in cs && cs[|cs| - 1] in cs;
  }

  lemma {:induction false} VolumeParts(a: seq<Candle>, b: seq<Candle>)
    ensures VolumeOf(a + b) == VolumeOf(a) + VolumeOf(b)
  {
    if b == [] {
      assert a + b == a;
    } else {
      VolumeParts(a, b[..|b| - 1]);
      assert (a + b)[..|a + b| - 1] == a + b[..|b| - 1];
    }
  }

  // ----- Laws of any bucketing -----

  lemma BuiltVolume(cs: seq<Candle>)
    requires cs != []
    ensures BuildCandle(cs).volume == VolumeOf(cs)
  {
  }

  /** Building the candles of consecutive buckets conserves the volume. */
  lemma {:induction false} VolumeConserved(buckets: seq<seq<Candle>>)
    requires NoneEmpty(buckets)
    ensures VolumeOf(BuildAll(buckets)) == VolumeOf(Flatten(buckets))
  {
    hide BuildCandle;
    if buckets != [] {
      var n := |buckets| - 1;
      VolumeConserved(buckets[..n]);
      assert BuildAll(buckets)[..n] == BuildAll(buckets[..n]);
      VolumeParts(Flatten(buckets[..n]), buckets[n]);
      BuiltVolume(buckets[n]);
    }
  }

  lemma HighParts(a: seq<Candle>, b: seq<Candle>)
    requires a != [] && b != []
    ensures HighOf(a + b) == Max(HighOf(a), HighOf(b)) && LowOf(a + b) == Min(LowOf(a), LowOf(b))
    decreases |b|
  {
    if |b| == 1 {
      assert (a + b)[..|a + b| - 1] == a;
    } else {
      HighParts(a, b[..|b| - 1]);
      assert (a + b)[..|a + b| - 1] == a + b[..|b| - 1];
    }
  }

  /** It keeps the highest high and the lowest low. */
  lemma {:induction false} ExtremesKept(buckets: seq<seq<Candle>>)
    requires NoneEmpty(buckets) && buckets != []
    ensures Flatten(buckets) != []
    ensures HighOf(BuildAll(buckets)) == HighOf(Flatten(buckets)) && LowOf(BuildAll(buckets)) == LowOf(Flatten(buckets))
  {
    var n := |buckets| - 1;
    if n == 0 {
      assert Flatten(buckets) == buckets[0] by { assert Flatten(buckets[..0]) == []; }
    } else {
      ExtremesKept(buckets[..n]);
      assert BuildAll(buckets)[..n] == BuildAll(buckets[..n]);
      HighParts(Flatten(buckets[..n]), buckets[n]);
    }
  }

  /** It keeps candles well formed. */
  lemma WellFormedKept(buckets: seq<seq<Candle>>)
    requires NoneEmpty(buckets) && forall c | c in Flatten(buckets) :: WellFormed(c)
    ensures forall c | c in BuildAll(buckets) :: WellFormed(c)
  {
    hide WellFormed, BuildCandle, Flatten;
    var r := BuildAll(buckets);
    forall i | 0 <= i < |r| ensures WellFormed(r[i]) {
      forall c | c in buckets[i] ensures WellFormed(c) {
        var a :| 0 <= a < |buckets[i]| && buckets[i][a] == c;
        var p := InFlatten(buckets, i, a);
      }
      BuiltWellFormed(buckets[i]);
    }
  }

  // ----- Laws of the weekly buckets -----

  /** The buckets are consecutive, all candles of one share the week, and the week
      changes from one to the next. */
  ghost predicate IsWeeks(buckets: seq<seq<Candle>>)
    requires NoneEmpty(buckets)
  {
    && (forall i, k | 0 <= i < |buckets| && 0 <= k < |buckets[i]| :: WeekKey(buckets[i][k]) == WeekKey(buckets[i][0]))
    && (forall i | 0 < i < |buckets| :: WeekKey(buckets[i - 1][0]) != WeekKey(buckets[i][0]))
  }

  lemma PlaceFlattens(buckets: seq<seq<Candle>>, c: Candle)
    requires NoneEmpty(buckets)
    ensures Flatten(Place(buckets, c)) == Flatten(buckets) + [c]
  {
    hide WeekKey;
    var r, n := Place(buckets, c), |buckets| - 1;
    if buckets != [] && WeekKey(buckets[n][0]) == WeekKey(c) {
      assert r[..n] == buckets[..n];
    } else {
      assert r[..|buckets|] == buckets;
    }
  }

  lemma PlaceIsWeeks(buckets: seq<seq<Candle>>, c: Candle)
    requires NoneEmpty(buckets) && IsWeeks(buckets)
    ensures IsWeeks(Place(buckets, c))
  {
    hide WeekKey;
  }

  lemma {:induction false} WeeksPartition(s: seq<Candle>)
    ensures Flatten(Weeks(s)) == s && IsWeeks(Weeks(s))
  {
    hide WeekKey;
    if s == [] {
      assert Flatten<Candle>([]) == [];
    } else {
      var t, c := s[..|s| - 1], s[|s| - 1];
      WeeksPartition(t);
      PlaceFlattens(Weeks(t), c);
      PlaceIsWeeks(Weeks(t), c);
      assert s == t + [c];
    }
  }

  ghost predicate Ordered(s: seq<Candle>) {
    forall i, j | 0 <= i < j < |s| :: WeekKey(s[i]) <= WeekKey(s[j])
  }

  lemma {:induction false} WeeksAscend(s: seq<Candle>, i: nat, j: nat)
    requires Ordered(s) && i < j < |Weeks(s)|
    ensures WeekKey(Weeks(s)[i][0]) < WeekKey(Weeks(s)[j][0])
    decreases |s|
  {
    hide WeekKey;
    var t, c := s[..|s| - 1], s[|s| - 1];
    var b := Weeks(t);
    WeeksPartition(t);
    if j < |b| {
      WeeksAscend(t, i, j);
    } else {
      if i < |b| - 1 { WeeksAscend(t, i, |b| - 1); }
      var p := InFlatten(b, |b| - 1, 0);
      assert t[p] == b[|b| - 1][0] && s[p] == t[p];
    }
  }

  lemma SameWeek(cs: seq<Candle>)
    requires cs != []
    ensures WeekKey(BuildCandle(cs)) == WeekKey(cs[0])
  {
  }

  /** On candles in order, every week that has a candle gets exactly one. */
  lemma OneCandlePerWeek(s: seq<Candle>, week: int)
    requires Ordered(s)
    ensures var r := BuildAll(Weeks(s));
      && ((exists c :: c in s && WeekKey(c) == week) <==> exists i | 0 <= i < |r| :: WeekKey(r[i]) == week)
      && (forall i, j | 0 <= i < j < |r| :: WeekKey(r[i]) < WeekKey(r[j]))
  {
    hide Weeks;
    var b := Weeks(s);
    var r := BuildAll(b);
    WeeksPartition(s);
    forall i | 0 <= i < |r| ensures WeekKey(r[i]) == WeekKey(b[i][0]) { SameWeek(b[i]); }
    hide WeekKey;
    forall i, j | 0 <= i < j < |r| ensures WeekKey(r[i]) < WeekKey(r[j]) { WeeksAscend(s, i, j); }
    if c :| c in s && WeekKey(c) == week {
      var p :| 0 <= p < |s| && s[p] == c;
      var i, a := FromFlatten(b, p);
      assert WeekKey(r[i]) == week;
    }
    if i :| 0 <= i < |r| && WeekKey(r[i]) == week {
      var p := InFlatten(b, i, 0);
      assert s[p] in s;
    }
  }

  /** The buckets of two stretches put together: the ones that meet are joined if they share a week. */
  ghost function Joined(a: seq<seq<Candle>>, b: seq<seq<Candle>>): seq<seq<Candle>>
    requires NoneEmpty(a) && NoneEmpty(b) && a != [] && b != []
  {
    var n := |a| - 1;
    if WeekKey(a[n][0]) == WeekKey(b[0][0]) then a[..n] + [a[n] + b[0]] + b[1..] else a + b
  }

  lemma PlaceApart(a: seq<seq<Candle>>, b: seq<seq<Candle>>, c: Candle)
    requires NoneEmpty(a) && NoneEmpty(b) && a != [] && b != [] && WeekKey(a[|a| - 1][0]) != WeekKey(b[0][0])
    ensures NoneEmpty(Joined(a, b)) && Place(Joined(a, b), c) == Joined(a, Place(b, c))
  {
    hide WeekKey, Place;
    var front, last := b[..|b| - 1], b[|b| - 1];
    assert b == front + [last];
    PlaceInto(front, last, c);
    assert Joined(a, b) == (a + front) + [last];
    PlaceInto(a + front, last, c);
  }

  lemma PlaceMetOne(a: seq<seq<Candle>>, x: seq<Candle>, c: Candle)
    requires NoneEmpty(a) && a != [] && x != [] && WeekKey(a[|a| - 1][0]) == WeekKey(x[0])
    ensures NoneEmpty(Joined(a, [x])) && Place(Joined(a, [x]), c) == Joined(a, Place([x], c))
  {
    hide WeekKey, Place;
    var n := |a| - 1;
    assert [] + [x] == [x];
    PlaceInto([], x, c);
    assert Joined(a, [x]) == a[..n] + [a[n] + x];
    PlaceInto(a[..n], a[n] + x, c);
    assert a[n] + x + [c] == a[n] + (x + [c]);
  }

  lemma PlaceMet(a: seq<seq<Candle>>, b: seq<seq<Candle>>, c: Candle)
    requires NoneEmpty(a) && NoneEmpty(b) && a != [] && |b| > 1 && WeekKey(a[|a| - 1][0]) == WeekKey(b[0][0])
    ensures NoneEmpty(Joined(a, b)) && Place(Joined(a, b), c) == Joined(a, Place(b, c))
  {
    hide WeekKey, Place;
    var n, m := |a| - 1, |b| - 1;
    var front, last := b[..m], b[m];
    var head := a[..n] + [a[n] + b[0]] + front[1..];
    assert b == front + [last] && b[1..] == front[1..] + [last];
    PlaceInto(front, last, c);
    assert Joined(a, b) == head + [last];
    PlaceInto(head, last, c);
    assert (front + [last + [c]])[1..] == front[1..] + [last + [c]];
    assert (front + [last] + [[c]])[1..] == front[1..] + [last] + [[c]];
  }

  lemma JoinPlace(a: seq<seq<Candle>>, b: seq<seq<Candle>>, c: Candle)
    requires NoneEmpty(a) && NoneEmpty(b) && a != [] && b != []
    ensures NoneEmpty(Joined(a, b)) && Place(Joined(a, b), c) == Joined(a, Place(b, c))
  {
    if WeekKey(a[|a| - 1][0]) != WeekKey(b[0][0]) {
      PlaceApart(a, b, c);
    } else if |b| == 1 {
      PlaceMetOne(a, b[0], c);
      assert b == [b[0]];
    } else {
      PlaceMet(a, b, c);
    }
  }

  lemma OneMore(a: seq<seq<Candle>>, c: Candle)
    requires NoneEmpty(a) && a != []
    ensures Weeks([c]) == [[c]] && Place(a, c) == Joined(a, [[c]])
  {
    assert [c][..0] == [];
    var n := |a| - 1;
    assert a == a[..n] + [a[n]];
    PlaceInto(a[..n], a[n], c);
  }

  lemma {:induction false} WeeksJoin(s: seq<Candle>, t: seq<Candle>)
    requires s != [] && t != []
    ensures Weeks(s + t) == Joined(Weeks(s), Weeks(t))
    decreases |t|
  {
    hide WeekKey, Joined, Place;
    var u, c := t[..|t| - 1], t[|t| - 1];
    assert (s + t)[..|s + t| - 1] == s + u;
    if u == [] {
      assert s + u == s && t == [c];
      OneMore(Weeks(s), c);
    } else {
      WeeksJoin(s, u);
      JoinPlace(Weeks(s), Weeks(u), c);
    }
  }

  lemma {:induction false} FirstWeek(t: seq<Candle>)
    requires t != []
    ensures Weeks(t)[0][0] == t[0]
  {
    if |t| > 1 { FirstWeek(t[..|t| - 1]); }
  }

  lemma LastWeek(s: seq<Candle>)
    requires s != []
    ensures WeekKey(Weeks(s)[|Weeks(s)| - 1][0]) == WeekKey(s[|s| - 1])
  {
  }

  /** Resampling two stretches separately and together agree exactly if the week
      changes between them; else their meeting weeks become one candle. */
  lemma WeeksOfParts(s: seq<Candle>, t: seq<Candle>)
    requires s != [] && t != []
    ensures BuildAll(Weeks(s + t)) == BuildAll(Weeks(s)) + BuildAll(Weeks(t)) <==> WeekKey(s[|s| - 1]) != WeekKey(t[0])
    ensures |Weeks(s + t)| == |Weeks(s)| + |Weeks(t)| - (if WeekKey(s[|s| - 1]) == WeekKey(t[0]) then 1 else 0)
  {
    hide Weeks, WeekKey, BuildCandle;
    WeeksJoin(s, t);
    LastWeek(s);
    FirstWeek(t);
  }

  // ----- Laws of the four-hour groups -----

  lemma FlattenFirst(first: seq<Candle>, rest: seq<seq<Candle>>)
    ensures Flatten([first] + rest) == first + Flatten(rest)
  {
    var all := [first] + rest;
    FlattenSplit(all, 1);
    assert all[..1] == [first] && all[1..] == rest;
    assert Flatten([first]) == first by { assert [first][..0] == []; assert Flatten([first][..0]) == []; }
  }

  /** A quarter of the candles, rounded down; the groups are the data without at
      most three last candles. */
  lemma {:induction false} FoursCover(s: seq<Candle>)
    ensures |Fours(s)| == |s| / 4 && Flatten(Fours(s)) == s[..|s| - |s| % 4] && |s| % 4 <= 3
  {
    if |s| >= 4 {
      FoursCover(s[4..]);
      FlattenFirst(s[..4], Fours(s[4..]));
      assert s[..|s| - |s| % 4] == s[..4] + s[4..][..|s[4..]| - |s[4..]| % 4];
    }
  }

  /** Cut at a multiple of four, data can be resampled piece by piece. */
  lemma FourHoursOfParts(s: seq<Candle>, t: seq<Candle>)
    requires |s| % 4 == 0
    ensures BuildAll(Fours(s + t)) == BuildAll(Fours(s)) + BuildAll(Fours(t))
  {
    FoursAppend(s, t);
  }
}
