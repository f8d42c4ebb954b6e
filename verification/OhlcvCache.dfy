/** The OHLCV cache: one table for all symbols and timeframes, written by chunked
    upserts and refreshed by delta fetches. */
module OhlcvCache {
  import opened Options

  datatype Bar = Bar(open: real, high: real, low: real, close: real, volume: real)

  /** `zoned` says whether the timestamp carries a time zone, which storing strips. */
  datatype Candle = Candle(naive: int, zoned: bool, bar: Bar)

  datatype Key = Key(symbol: string, timeframe: string, naive: int)

  datatype Row = Row(bar: Bar, fetchedAt: real)

  type Table = map<Key, Row>

  /** What the awaited fetch function does. */
  datatype Fetch = Fetched(candles: seq<Candle>) | Raised

  /** What the caller of the service gets. */
  datatype Answer = Candles(candles: seq<Candle>) | Failed

  const UPSERT_CHUNK_SIZE := 500
  const STALENESS_SECONDS := 300.0
  const INTRADAY_TIMEFRAMES := {"M15", "H1", "H4"}

  // ----- Queries -----

  ghost predicate Distinct(ks: set<Key>) {
    forall a, b | a in ks && b in ks :: a.naive == b.naive ==> a == b
  }

  function KeysOf(t: Table, symbol: string, timeframe: string): (ks: set<Key>)
    ensures Distinct(ks)
  {
    set k | k in t && k.symbol == symbol && k.timeframe == timeframe
  }

  lemma {:induction false} Earliest(ks: set<Key>, k: Key) returns (m: Key)
    requires k in ks
    ensures m in ks && forall x | x in ks :: m.naive <= x.naive
    decreases |ks|
  {
    if y :| y in ks && y.naive < k.naive {
      m := Earliest(ks - {k}, y);
      forall z | z in ks ensures m.naive <= z.naive {
        if z != k { assert z in ks - {k}; }
      }
    } else {
      m := k;
    }
  }

  lemma EarliestExists(ks: set<Key>)
    requires ks != {}
    ensures exists m :: m in ks && forall x | x in ks :: m.naive <= x.naive
  {
    var k :| k in ks;
    var m := Earliest(ks, k);
  }

  function First(ks: set<Key>): (m: Key)
    requires ks != {} && Distinct(ks)
    ensures m in ks && forall x | x in ks :: m.naive <= x.naive
  {
    EarliestExists(ks);
    var m :| m in ks && forall x | x in ks :: m.naive <= x.naive;
    m
  }

  lemma Prepended(ks: set<Key>, m: Key, rest: seq<Key>)
    requires m in ks && Distinct(ks) && (forall k | k in ks :: m.naive <= k.naive)
    requires (forall k :: k in rest <==> k in ks - {m}) && forall i, j | 0 <= i < j < |rest| :: rest[i].naive < rest[j].naive
    ensures forall k :: k in [m] + rest <==> k in ks
    ensures var r := [m] + rest; forall i, j | 0 <= i < j < |r| :: r[i].naive < r[j].naive
  {
    var r := [m] + rest;
    forall k ensures k in r <==> k in ks {
      assert k in r <==> k == m || k in rest;
    }
    forall i, j | 0 <= i < j < |r| ensures r[i].naive < r[j].naive {
      assert r[j] in rest;
    }
  }

  /** ORDER BY timestamp. */
  function Ordered(ks: set<Key>): (r: seq<Key>)
    requires Distinct(ks)
    ensures forall k :: k in r <==> k in ks
    ensures forall i, j | 0 <= i < j < |r| :: r[i].naive < r[j].naive
    decreases |ks|
  {
    if ks == {} then []
    else
      var m := First(ks);
      var rest := Ordered(ks - {m});
      Prepended(ks, m, rest);
      [m] + rest
  }

  function Cached(t: Table, k: Key): Candle
    requires k in t
  {
    Candle(k.naive, false, t[k].bar)
  }

  function CandlesOf(t: Table, ks: seq<Key>): (r: seq<Candle>)
    requires forall k | k in ks :: k in t
    ensures |r| == |ks| && forall i | 0 <= i < |r| :: r[i] == Cached(t, ks[i])
  {
    seq(|ks|, i requires 0 <= i < |ks| => Cached(t, ks[i]))
  }

  function CachedOhlcv(t: Table, symbol: string, timeframe: string): (r: seq<Candle>)
    ensures forall i, j | 0 <= i < j < |r| :: r[i].naive < r[j].naive
    ensures forall c | c in r :: Key(symbol, timeframe, c.naive) in t && c == Cached(t, Key(symbol, timeframe, c.naive))
    ensures forall c | c in r :: !c.zoned && c.bar == t[Key(symbol, timeframe, c.naive)].bar
    ensures forall k | k in KeysOf(t, symbol, timeframe) :: Cached(t, k) in r
  {
    CandlesOf(t, Ordered(KeysOf(t, symbol, timeframe)))
  }

  function LatestTimestamp(t: Table, symbol: string, timeframe: string): (r: Option<int>)
    ensures r == None <==> KeysOf(t, symbol, timeframe) == {}
    ensures r != None ==> Key(symbol, timeframe, r.value) in t
    ensures forall k | k in KeysOf(t, symbol, timeframe) :: r != None && k.naive <= r.value
  {
    var ks := Ordered(KeysOf(t, symbol, timeframe));
    if ks == [] then None
    else
      assert ks[|ks| - 1] in KeysOf(t, symbol, timeframe);
      Some(ks[|ks| - 1].naive)
  }

  function Newest(t: Table, ks: seq<Key>): (r: real)
    requires ks != [] && forall i | 0 <= i < |ks| :: ks[i] in t
    ensures exists i | 0 <= i < |ks| :: r == t[ks[i]].fetchedAt
    ensures forall i | 0 <= i < |ks| :: t[ks[i]].fetchedAt <= r
  {
    if |ks| == 1 then t[ks[0]].fetchedAt
    else
      var r := Newest(t, ks[1..]);
      assert forall i | 0 < i < |ks| :: ks[i] == ks[1..][i - 1];
      if t[ks[0]].fetchedAt > r then t[ks[0]].fetchedAt else r
  }

  function LatestFetchedAt(t: Table, symbol: string, timeframe: string): (r: Option<real>)
    ensures r == None <==> KeysOf(t, symbol, timeframe) == {}
    ensures forall k | k in KeysOf(t, symbol, timeframe) :: r != None && t[k].fetchedAt <= r.value
    ensures r != None ==> exists k :: k in KeysOf(t, symbol, timeframe) && t[k].fetchedAt == r.value
  {
    var ks := Ordered(KeysOf(t, symbol, timeframe));
    assert forall i | 0 <= i < |ks| :: ks[i] in KeysOf(t, symbol, timeframe);
    if ks == [] then None else Some(Newest(t, ks))
  }

  predicate IsStale(fetchedAt: Option<real>, timeframe: string, now: real) {
    timeframe in INTRADAY_TIMEFRAMES && (fetchedAt == None || now - fetchedAt.value > STALENESS_SECONDS)
  }

  // ----- Upsert -----

  function Look(t: Table, k: Key): Option<Row> {
    if k in t then Some(t[k]) else None
  }

  /** The last candle with this timestamp, or -1. */
  function LastAt(candles: seq<Candle>, naive: int): (j: int)
    ensures -1 <= j < |candles|
  {
    if candles == [] then -1
    else if candles[|candles| - 1].naive == naive then |candles| - 1
    else LastAt(candles[..|candles| - 1], naive)
  }

  lemma {:induction false} LastAtIs(candles: seq<Candle>, naive: int)
    ensures var j := LastAt(candles, naive);
      (j >= 0 ==> candles[j].naive == naive) && forall i | j < i < |candles| :: candles[i].naive != naive
  {
    if candles != [] {
      var front := candles[..|candles| - 1];
      LastAtIs(front, naive);
      assert forall i | 0 <= i < |front| :: candles[i] == front[i];
    }
  }

  lemma {:induction false} LastAtOfParts(a: seq<Candle>, b: seq<Candle>, naive: int)
    ensures LastAt(a + b, naive) == if LastAt(b, naive) >= 0 then |a| + LastAt(b, naive) else LastAt(a, naive)
  {
    if b == [] {
      assert a + b == a;
    } else {
      var front := b[..|b| - 1];
      LastAtOfParts(a, front, naive);
      assert (a + b)[..|a + b| - 1] == a + front;
    }
  }

  function KeyOf(symbol: string, timeframe: string, c: Candle): Key {
    Key(symbol, timeframe, c.naive)
  }

  /** One INSERT ... ON CONFLICT DO UPDATE statement: row by row, at one time. */
  function InsertRows(t: Table, symbol: string, timeframe: string, rows: seq<Candle>, now: real): Table {
    if rows == [] then t
    else
      var c := rows[|rows| - 1];
      InsertRows(t, symbol, timeframe, rows[..|rows| - 1], now)[KeyOf(symbol, timeframe, c) := Row(c.bar, now)]
  }

  /** Where the chunk of row `j` starts. */
  function ChunkStart(j: nat, size: nat): (i: nat)
    requires size > 0
    ensures i <= j < i + size
  {
    if j < size then 0 else size + ChunkStart(j - size, size)
  }

  lemma {:induction false} SameChunk(i: nat, j: nat, size: nat)
    requires size > 0 && ChunkStart(i, size) == i && i <= j < i + size
    ensures ChunkStart(j, size) == i
    decreases i
  {
    if i >= size { SameChunk(i - size, j - size, size); }
  }

  lemma {:induction false} NextChunk(i: nat, size: nat)
    requires size > 0 && ChunkStart(i, size) == i
    ensures ChunkStart(i + size, size) == i + size
    decreases i
  {
    if i >= size { NextChunk(i - size, size); }
  }

  /** What one key holds after candles were merged into the table, the last candle
      of a timestamp winning; `clock[i]` is the database clock when the statement
      for a chunk starting at row `i` runs. */
  function RowAfter(t: Table, symbol: string, timeframe: string, candles: seq<Candle>, clock: seq<real>, size: nat, k: Key): Option<Row>
    requires size > 0 && |candles| <= |clock|
  {
    var j := LastAt(candles, k.naive);
    if k.symbol == symbol && k.timeframe == timeframe && j >= 0 then Some(Row(candles[j].bar, clock[ChunkStart(j, size)]))
    else Look(t, k)
  }

  ghost predicate Merged(t: Table, t': Table, symbol: string, timeframe: string, candles: seq<Candle>, clock: seq<real>, size: nat)
    requires size > 0 && |candles| <= |clock|
  {
    forall k :: Look(t', k) == RowAfter(t, symbol, timeframe, candles, clock, size, k)
  }

  lemma {:induction false} InsertedRow(t: Table, symbol: string, timeframe: string, rows: seq<Candle>, now: real, k: Key)
    ensures Look(InsertRows(t, symbol, timeframe, rows, now), k)
      == var j := LastAt(rows, k.naive);
        if k.symbol == symbol && k.timeframe == timeframe && j >= 0 then Some(Row(rows[j].bar, now)) else Look(t, k)
  {
    if rows != [] {
      InsertedRow(t, symbol, timeframe, rows[..|rows| - 1], now, k);
    }
  }

  /** One more chunk: from the first `i` candles to the first `n`. */
  lemma MergeChunk(t: Table, t1: Table, symbol: string, timeframe: string, candles: seq<Candle>, clock: seq<real>, size: nat,
                   i: nat, n: nat, now: real)
    requires size > 0 && i < n <= |candles| <= |clock| && n <= i + size && ChunkStart(i, size) == i && now == clock[i]
    requires Merged(t, t1, symbol, timeframe, candles[..i], clock, size)
    ensures Merged(t, InsertRows(t1, symbol, timeframe, candles[i..n], now), symbol, timeframe, candles[..n], clock, size)
  {
    hide InsertRows, LastAt;
    forall k ensures Look(InsertRows(t1, symbol, timeframe, candles[i..n], now), k)
                  == RowAfter(t, symbol, timeframe, candles[..n], clock, size, k) {
      assert candles[..n] == candles[..i] + candles[i..n];
      InsertedRow(t1, symbol, timeframe, candles[i..n], now, k);
      LastAtOfParts(candles[..i], candles[i..n], k.naive);
      assert Look(t1, k) == RowAfter(t, symbol, timeframe, candles[..i], clock, size, k);
      var j := LastAt(candles[i..n], k.naive);
      if j >= 0 { SameChunk(i, i + j, size); }
    }
  }

  /** The whole table after an upsert. */
  function Upserted(t: Table, symbol: string, timeframe: string, candles: seq<Candle>, clock: seq<real>, size: nat): Table
    requires size > 0 && |candles| <= |clock|
  {
    map k | k in t.Keys + (set c | c in candles :: KeyOf(symbol, timeframe, c)) ::
      LastAtIs(candles, k.naive);
      RowAfter(t, symbol, timeframe, candles, clock, size, k).value
  }

  lemma UpsertedMerges(t: Table, symbol: string, timeframe: string, candles: seq<Candle>, clock: seq<real>, size: nat)
    requires size > 0 && |candles| <= |clock|
    ensures Merged(t, Upserted(t, symbol, timeframe, candles, clock, size), symbol, timeframe, candles, clock, size)
  {
    hide LastAt, ChunkStart;
    forall k ensures Look(Upserted(t, symbol, timeframe, candles, clock, size), k)
                  == RowAfter(t, symbol, timeframe, candles, clock, size, k) {
      LastAtIs(candles, k.naive);
      var j := LastAt(candles, k.naive);
      if j >= 0 && k.symbol == symbol && k.timeframe == timeframe { assert k == KeyOf(symbol, timeframe, candles[j]); }
    }
  }

  lemma SameTable(a: Table, b: Table)
    requires forall k :: Look(a, k) == Look(b, k)
    ensures a == b
  {
    assert forall k :: k in a <==> Look(a, k) != None;
    assert forall k :: k in b <==> Look(b, k) != None;
    assert forall k | k in a :: Look(a, k) == Some(a[k]);
  }

  // ----- The service -----

  /** The candles at or after the latest cached timestamp. */
  function Delta(candles: seq<Candle>, latest: int): (d: seq<Candle>)
    ensures |d| <= |candles|
  {
    if candles == [] then []
    else
      var c := candles[|candles| - 1];
      Delta(candles[..|candles| - 1], latest) + (if c.naive >= latest then [c] else [])
  }

  /** The cache is empty or stale: a full fetch, whose exception propagates. */
  predicate FullFetch(t: Table, symbol: string, timeframe: string, now: real) {
    LatestTimestamp(t, symbol, timeframe) == None || IsStale(LatestFetchedAt(t, symbol, timeframe), timeframe, now)
  }

  /** What a call of the service stores. */
  function Stored(t: Table, symbol: string, timeframe: string, fetch: Fetch, now: real): (r: seq<Candle>)
    ensures fetch.Fetched? ==> |r| <= |fetch.candles|
    ensures fetch.Raised? ==> r == []
  {
    if fetch.Raised? then []
    else if FullFetch(t, symbol, timeframe, now) then fetch.candles
    else Delta(fetch.candles, LatestTimestamp(t, symbol, timeframe).value)
  }

  /** What it answers; `t'` is the table it leaves. */
  function Reply(t: Table, t': Table, symbol: string, timeframe: string, fetch: Fetch, now: real): Answer {
    if !FullFetch(t, symbol, timeframe, now) then Candles(CachedOhlcv(t', symbol, timeframe))
    else if fetch.Raised? then Failed
    else if LatestTimestamp(t, symbol, timeframe) == None || fetch.candles != [] then Candles(fetch.candles)
    else Candles(CachedOhlcv(t', symbol, timeframe))
  }

  function Cleared(t: Table, symbol: string, timeframe: string): Table {
    map k | k in t && !(k.symbol == symbol && k.timeframe == timeframe) :: t[k]
  }

  function AfterGet(t: Table, symbol: string, timeframe: string, fetch: Fetch, now: real, clock: seq<real>): Table
    requires fetch.Fetched? ==> |fetch.candles| <= |clock|
  {
    Upserted(t, symbol, timeframe, Stored(t, symbol, timeframe, fetch, now), clock, UPSERT_CHUNK_SIZE)
  }

  lemma NothingMerged(t: Table, symbol: string, timeframe: string, candles: seq<Candle>, clock: seq<real>, size: nat)
    requires size > 0 && |candles| <= |clock|
    ensures Merged(t, t, symbol, timeframe, candles[..0], clock, size) && ChunkStart(0, size) == 0
  {
  }

  lemma NothingUpserted(t: Table, symbol: string, timeframe: string, clock: seq<real>, size: nat)
    requires size > 0
    ensures Upserted(t, symbol, timeframe, [], clock, size) == t
  {
  }

  lemma MergedOnce(t: Table, a: Table, b: Table, symbol: string, timeframe: string, candles: seq<Candle>, clock: seq<real>, size: nat)
    requires size > 0 && |candles| <= |clock|
    requires Merged(t, a, symbol, timeframe, candles, clock, size) && Merged(t, b, symbol, timeframe, candles, clock, size)
    ensures a == b
  {
    hide RowAfter, Look;
    forall k ensures Look(a, k) == Look(b, k) {
      assert Look(a, k) == RowAfter(t, symbol, timeframe, candles, clock, size, k);
    }
    SameTable(a, b);
  }

  class OhlcvCacheService {
    var table: Table

    constructor ()
      ensures table == map[]
    {
      table := map[];
    }

    method UpsertOhlcv(symbol: string, timeframe: string, candles: seq<Candle>, clock: seq<real>, size: nat) returns (written: nat)
      requires size > 0 && |candles| <= |clock|
      modifies this
      ensures table == Upserted(old(table), symbol, timeframe, candles, clock, size)
      ensures written == |candles|
    {
      hide Upserted, LastAt, ChunkStart, InsertRows, RowAfter;
      written := |candles|;
      ghost var t := table;
      var i := 0;
      NothingMerged(t, symbol, timeframe, candles, clock, size);
      while i < |candles|
        invariant i == 0 || i < |candles| ==> ChunkStart(i, size) == i
        invariant Merged(t, table, symbol, timeframe, candles[..if i < |candles| then i else |candles|], clock, size)
      {
        var n := if i + size < |candles| then i + size else |candles|;
        MergeChunk(t, table, symbol, timeframe, candles, clock, size, i, n, clock[i]);
        table := InsertRows(table, symbol, timeframe, candles[i..n], clock[i]);
        NextChunk(i, size);
        i := i + size;
      }
      assert candles[..|candles|] == candles;
      UpsertedMerges(t, symbol, timeframe, candles, clock, size);
      MergedOnce(t, table, Upserted(t, symbol, timeframe, candles, clock, size), symbol, timeframe, candles, clock, size);
    }

    method ClearCache(symbol: string, timeframe: string)
      modifies this
      ensures table == Cleared(old(table), symbol, timeframe)
      ensures forall k :: k in table <==> k in old(table) && (k.symbol != symbol || k.timeframe != timeframe)
      ensures forall k | k in table :: table[k] == old(table)[k]
      ensures LatestTimestamp(table, symbol, timeframe) == None
    {
      table := map k | k in table && !(k.symbol == symbol && k.timeframe == timeframe) :: table[k];
    }

    method GetOhlcv(symbol: string, timeframe: string, fetch: Fetch, now: real, clock: seq<real>) returns (answer: Answer)
      requires fetch.Fetched? ==> |fetch.candles| <= |clock|
      modifies this
      ensures table == AfterGet(old(table), symbol, timeframe, fetch, now, clock)
      ensures answer == Reply(old(table), table, symbol, timeframe, fetch, now)
    {
      hide Upserted, LatestTimestamp, LatestFetchedAt, CachedOhlcv;
      var latest := LatestTimestamp(table, symbol, timeframe);
      var fetchedAt := LatestFetchedAt(table, symbol, timeframe);
      NothingUpserted(table, symbol, timeframe, clock, UPSERT_CHUNK_SIZE);
      if latest == None {
        if fetch.Raised? {
          return Failed;
        }
        if fetch.candles != [] {
          var _ := UpsertOhlcv(symbol, timeframe, fetch.candles, clock, UPSERT_CHUNK_SIZE);
        }
        return Candles(fetch.candles);
      }
      if IsStale(fetchedAt, timeframe, now) {
        if fetch.Raised? {
          return Failed;
        }
        if fetch.candles != [] {
          var _ := UpsertOhlcv(symbol, timeframe, fetch.candles, clock, UPSERT_CHUNK_SIZE);
          return Candles(fetch.candles);
        }
        return Candles(CachedOhlcv(table, symbol, timeframe));
      }
      // A raising fetch is only logged here.
      if fetch.Fetched? {
        var delta := Delta(fetch.candles, latest.value);
        if delta != [] {
          var _ := UpsertOhlcv(symbol, timeframe, delta, clock, UPSERT_CHUNK_SIZE);
        }
      }
      return Candles(CachedOhlcv(table, symbol, timeframe));
    }
  }
}
