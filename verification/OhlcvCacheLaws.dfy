/** What the OHLCV cache promises over calls and over runs. */
module OhlcvCacheLaws {
  import opened OhlcvCache
  import opened Options

  ghost predicate SameBars(a: Table, b: Table) {
    forall k :: (k in a <==> k in b) && (k in a && k in b ==> a[k].bar == b[k].bar)
  }

  // ----- Chunks -----

  /** Whatever the chunk size and the clock, the bars are those of one statement
      that writes row by row: one last-wins merge. */
  lemma ChunksDoNotMatter(t: Table, symbol: string, timeframe: string, candles: seq<Candle>, clock: seq<real>, size: nat, now: real)
    requires size > 0 && |candles| <= |clock|
    ensures SameBars(Upserted(t, symbol, timeframe, candles, clock, size), InsertRows(t, symbol, timeframe, candles, now))
  {
    hide LastAt, ChunkStart, Upserted, InsertRows;
    var a, b := Upserted(t, symbol, timeframe, candles, clock, size), InsertRows(t, symbol, timeframe, candles, now);
    UpsertedMerges(t, symbol, timeframe, candles, clock, size);
    forall k ensures (k in a <==> k in b) && (k in a && k in b ==> a[k].bar == b[k].bar) {
      InsertedRow(t, symbol, timeframe, candles, now, k);
      assert Look(a, k) == RowAfter(t, symbol, timeframe, candles, clock, size, k);
    }
  }

  /** An upsert writes the last bar of each timestamp for its own pair and leaves every other row alone. */
  lemma UpsertedRow(t: Table, symbol: string, timeframe: string, candles: seq<Candle>, clock: seq<real>, size: nat, k: Key)
    requires size > 0 && |candles| <= |clock|
    ensures var t' := Upserted(t, symbol, timeframe, candles, clock, size);
      var mine := k.symbol == symbol && k.timeframe == timeframe && exists c :: c in candles && c.naive == k.naive;
      && (!mine ==> Look(t', k) == Look(t, k))
      && (mine ==> exists j | 0 <= j < |candles| :: candles[j].naive == k.naive && k in t' && t'[k].bar == candles[j].bar
                     && forall i | j < i < |candles| :: candles[i].naive != k.naive)
  {
    hide LastAt, ChunkStart, Upserted;
    var t' := Upserted(t, symbol, timeframe, candles, clock, size);
    UpsertedMerges(t, symbol, timeframe, candles, clock, size);
    LastAtIs(candles, k.naive);
    assert Look(t', k) == RowAfter(t, symbol, timeframe, candles, clock, size, k);
    var j := LastAt(candles, k.naive);
    if j >= 0 { assert candles[j] in candles; }
  }

  // ----- Delta fetch -----

  lemma {:induction false} DeltaLastAt(candles: seq<Candle>, latest: int, naive: int)
    ensures naive < latest ==> LastAt(Delta(candles, latest), naive) == -1
    ensures naive >= latest ==>
      var d, j := LastAt(Delta(candles, latest), naive), LastAt(candles, naive);
      (d >= 0 <==> j >= 0) && (d >= 0 ==> Delta(candles, latest)[d] == candles[j])
  {
    if candles != [] {
      var front, c := candles[..|candles| - 1], candles[|candles| - 1];
      var d := Delta(front, latest);
      DeltaLastAt(front, latest, naive);
      assert (d + [c])[..|d|] == d && d + [] == d;
    }
  }

  /** The provider still says, for every timestamp below the latest cached one,
      what the cache holds. */
  ghost predicate Agrees(t: Table, symbol: string, timeframe: string, candles: seq<Candle>, latest: int) {
    forall k: Key | k.symbol == symbol && k.timeframe == timeframe && k.naive < latest && LastAt(candles, k.naive) >= 0 ::
      k in t && t[k].bar == candles[LastAt(candles, k.naive)].bar
  }

  /** A delta fetch leaves the bars of a full upsert exactly if the provider agrees
      with the cache below the latest timestamp. */
  lemma DeltaIsFullIff(t: Table, symbol: string, timeframe: string, candles: seq<Candle>, latest: int, clock: seq<real>, size: nat)
    requires size > 0 && |candles| <= |clock|
    ensures SameBars(Upserted(t, symbol, timeframe, Delta(candles, latest), clock, size), Upserted(t, symbol, timeframe, candles, clock, size))
      <==> Agrees(t, symbol, timeframe, candles, latest)
  {
    hide LastAt, ChunkStart, Upserted, Delta;
    var d := Delta(candles, latest);
    var a, b := Upserted(t, symbol, timeframe, d, clock, size), Upserted(t, symbol, timeframe, candles, clock, size);
    UpsertedMerges(t, symbol, timeframe, d, clock, size);
    UpsertedMerges(t, symbol, timeframe, candles, clock, size);
    forall k: Key
      ensures var differs := k.symbol == symbol && k.timeframe == timeframe && k.naive < latest && LastAt(candles, k.naive) >= 0;
        && (differs ==> Look(a, k) == Look(t, k) && k in b && b[k].bar == candles[LastAt(candles, k.naive)].bar)
        && (!differs ==> (k in a <==> k in b) && (k in a && k in b ==> a[k].bar == b[k].bar))
    {
      DeltaLastAt(candles, latest, k.naive);
      assert Look(a, k) == RowAfter(t, symbol, timeframe, d, clock, size, k);
      assert Look(b, k) == RowAfter(t, symbol, timeframe, candles, clock, size, k);
    }
    if SameBars(a, b) {
      forall k: Key | k.symbol == symbol && k.timeframe == timeframe && k.naive < latest && LastAt(candles, k.naive) >= 0
        ensures k in t && t[k].bar == candles[LastAt(candles, k.naive)].bar
      {
        assert (k in a <==> k in b) && Look(a, k) == Look(t, k);
      }
    }
  }

  // ----- Full fetch or delta -----

  /** A call fetches everything exactly if the pair has no row, or its timeframe is
      intraday and every row of it was fetched more than five minutes ago. */
  lemma FullFetchIff(t: Table, symbol: string, timeframe: string, now: real)
    ensures FullFetch(t, symbol, timeframe, now) <==>
      || (forall k | k in t :: k.symbol != symbol || k.timeframe != timeframe)
      || ((timeframe == "M15" || timeframe == "H1" || timeframe == "H4")
          && forall k | k in t && k.symbol == symbol && k.timeframe == timeframe :: now - t[k].fetchedAt > 300.0)
  {
    hide LatestTimestamp, LatestFetchedAt;
    var ks := KeysOf(t, symbol, timeframe);
    var newest := LatestFetchedAt(t, symbol, timeframe);
    if ks != {} {
      var m :| m in ks && t[m].fetchedAt == newest.value;
      assert forall k :: k in ks <==> k in t && k.symbol == symbol && k.timeframe == timeframe;
    } else {
      assert forall k | k in t :: k !in ks;
    }
  }

  /** An empty table is cached as an empty list. */
  lemma NothingCached(t: Table, symbol: string, timeframe: string)
    ensures LatestTimestamp(t, symbol, timeframe) == None ==> CachedOhlcv(t, symbol, timeframe) == []
  {
    var r := CachedOhlcv(t, symbol, timeframe);
    if LatestTimestamp(t, symbol, timeframe) == None && r != [] {
      assert false;
    }
  }

  /** A full fetch with candles is answered as it came and all of it is stored; without
      candles the answer is what the table holds. */
  lemma FullFetchAnswer(t: Table, symbol: string, timeframe: string, candles: seq<Candle>, now: real, clock: seq<real>)
    requires |candles| <= |clock| && FullFetch(t, symbol, timeframe, now)
    ensures var t' := AfterGet(t, symbol, timeframe, Fetched(candles), now, clock);
      && (candles != [] ==> Reply(t, t', symbol, timeframe, Fetched(candles), now) == Candles(candles))
      && (candles == [] ==> t' == t && Reply(t, t', symbol, timeframe, Fetched(candles), now) == Candles(CachedOhlcv(t, symbol, timeframe)))
      && forall c | c in candles :: KeyOf(symbol, timeframe, c) in t'
  {
    hide LatestTimestamp, LatestFetchedAt, IsStale, CachedOhlcv, Upserted, LastAt, ChunkStart;
    var t' := AfterGet(t, symbol, timeframe, Fetched(candles), now, clock);
    if candles == [] {
      NothingUpserted(t, symbol, timeframe, clock, UPSERT_CHUNK_SIZE);
      NothingCached(t, symbol, timeframe);
    }
    forall c | c in candles ensures KeyOf(symbol, timeframe, c) in t' {
      UpsertedRow(t, symbol, timeframe, candles, clock, UPSERT_CHUNK_SIZE, KeyOf(symbol, timeframe, c));
    }
  }

  // ----- One call of the service -----

  /** A raising fetch leaves the table alone; it surfaces exactly if a full fetch was needed. */
  lemma RaisingFetch(t: Table, symbol: string, timeframe: string, now: real, clock: seq<real>)
    ensures AfterGet(t, symbol, timeframe, Raised, now, clock) == t
    ensures Reply(t, t, symbol, timeframe, Raised, now)
      == if FullFetch(t, symbol, timeframe, now) then Failed else Candles(CachedOhlcv(t, symbol, timeframe))
  {
    NothingUpserted(t, symbol, timeframe, clock, UPSERT_CHUNK_SIZE);
  }

  /** A hit leaves every row older than the latest alone, and answers with the
      whole table of the pair, which then holds every candle fetched at or after it. */
  lemma HitKeepsOlder(t: Table, symbol: string, timeframe: string, fetch: Fetch, now: real, clock: seq<real>, k: Key)
    requires fetch.Fetched? ==> |fetch.candles| <= |clock|
    requires !FullFetch(t, symbol, timeframe, now)
    ensures var t' := AfterGet(t, symbol, timeframe, fetch, now, clock);
      && (k.symbol != symbol || k.timeframe != timeframe || k.naive < LatestTimestamp(t, symbol, timeframe).value ==> Look(t', k) == Look(t, k))
      && Reply(t, t', symbol, timeframe, fetch, now) == Candles(CachedOhlcv(t', symbol, timeframe))
  {
    hide LatestTimestamp, LatestFetchedAt, CachedOhlcv, Upserted, LastAt, Delta, ChunkStart, IsStale;
    var stored := Stored(t, symbol, timeframe, fetch, now);
    UpsertedMerges(t, symbol, timeframe, stored, clock, UPSERT_CHUNK_SIZE);
    assert Look(AfterGet(t, symbol, timeframe, fetch, now, clock), k) == RowAfter(t, symbol, timeframe, stored, clock, UPSERT_CHUNK_SIZE, k);
    if fetch.Fetched? {
      DeltaLastAt(fetch.candles, LatestTimestamp(t, symbol, timeframe).value, k.naive);
    } else {
      LastAtIs([], k.naive);
    }
  }

  // ----- Runs of calls -----

  datatype Op =
    | Get(symbol: string, timeframe: string, fetch: Fetch, now: real, clock: seq<real>)
    | Clear(symbol: string, timeframe: string)

  ghost predicate Timed(op: Op) {
    op.Get? && op.fetch.Fetched? ==> |op.fetch.candles| <= |op.clock|
  }

  function Apply(t: Table, op: Op): Table
    requires Timed(op)
  {
    match op
    case Get(symbol, timeframe, fetch, now, clock) => AfterGet(t, symbol, timeframe, fetch, now, clock)
    case Clear(symbol, timeframe) => Cleared(t, symbol, timeframe)
  }

  function Run(t: Table, ops: seq<Op>): Table
    requires forall i | 0 <= i < |ops| :: Timed(ops[i])
  {
    if ops == [] then t else Apply(Run(t, ops[..|ops| - 1]), ops[|ops| - 1])
  }

  lemma StoredFits(t: Table, op: Op)
    requires Timed(op) && op.Get?
    ensures |Stored(t, op.symbol, op.timeframe, op.fetch, op.now)| <= |op.clock|
  {
  }

  lemma KeysStay(t: Table, op: Op, k: Key)
    requires Timed(op) && k in t && op != Clear(k.symbol, k.timeframe)
    ensures k in Apply(t, op)
  {
    hide Upserted, LastAt, ChunkStart, Stored;
    match op
    case Get(symbol, timeframe, fetch, now, clock) =>
      var stored := Stored(t, symbol, timeframe, fetch, now);
      StoredFits(t, op);
      UpsertedMerges(t, symbol, timeframe, stored, clock, UPSERT_CHUNK_SIZE);
      assert Look(Apply(t, op), k) == RowAfter(t, symbol, timeframe, stored, clock, UPSERT_CHUNK_SIZE, k);
    case Clear(symbol, timeframe) =>
  }

  lemma {:induction false} KeysStayOverRuns(t: Table, ops: seq<Op>, k: Key)
    requires (forall i | 0 <= i < |ops| :: Timed(ops[i])) && k in t && Clear(k.symbol, k.timeframe) !in ops
    ensures k in Run(t, ops)
  {
    hide Apply, Timed;
    if ops != [] {
      var front, op := ops[..|ops| - 1], ops[|ops| - 1];
      assert op in ops;
      KeysStayOverRuns(t, front, k);
      KeysStay(Run(t, front), op, k);
    }
  }

  /** Over any run of calls for any pairs, the latest timestamp of a pair that is not
      cleared never decreases. */
  lemma LatestNeverDecreases(t: Table, ops: seq<Op>, symbol: string, timeframe: string)
    requires (forall i | 0 <= i < |ops| :: Timed(ops[i])) && Clear(symbol, timeframe) !in ops
    requires LatestTimestamp(t, symbol, timeframe) != None
    ensures LatestTimestamp(Run(t, ops), symbol, timeframe) != None
    ensures LatestTimestamp(Run(t, ops), symbol, timeframe).value >= LatestTimestamp(t, symbol, timeframe).value
  {
    hide Run, Timed;
    var k := Key(symbol, timeframe, LatestTimestamp(t, symbol, timeframe).value);
    KeysStayOverRuns(t, ops, k);
    assert k in KeysOf(Run(t, ops), symbol, timeframe);
  }

  /** Calls for one pair never touch another one. */
  lemma {:induction false} OtherPairsUntouched(t: Table, ops: seq<Op>, k: Key)
    requires forall i | 0 <= i < |ops| :: Timed(ops[i]) && (ops[i].symbol != k.symbol || ops[i].timeframe != k.timeframe)
    ensures Look(Run(t, ops), k) == Look(t, k)
  {
    hide Upserted, LastAt, ChunkStart, Stored, Timed;
    if ops != [] {
      var front, op := ops[..|ops| - 1], ops[|ops| - 1];
      OtherPairsUntouched(t, front, k);
      if op.Get? {
        var stored := Stored(Run(t, front), op.symbol, op.timeframe, op.fetch, op.now);
        StoredFits(Run(t, front), op);
        UpsertedMerges(Run(t, front), op.symbol, op.timeframe, stored, op.clock, UPSERT_CHUNK_SIZE);
        assert Look(Apply(Run(t, front), op), k) == RowAfter(Run(t, front), op.symbol, op.timeframe, stored, op.clock, UPSERT_CHUNK_SIZE, k);
      }
    }
  }

  /** After a miss, the next fresh call sees what was fetched: every fetched timestamp is cached. */
  lemma FetchedIsCached(t: Table, symbol: string, timeframe: string, fetch: Fetch, now: real, clock: seq<real>, c: Candle)
    requires fetch.Fetched? && |fetch.candles| <= |clock| && c in fetch.candles
    requires FullFetch(t, symbol, timeframe, now) || c.naive >= LatestTimestamp(t, symbol, timeframe).value
    ensures KeyOf(symbol, timeframe, c) in AfterGet(t, symbol, timeframe, fetch, now, clock)
  {
    hide LatestTimestamp, LatestFetchedAt, Upserted, LastAt, Delta, ChunkStart, IsStale;
    var stored := Stored(t, symbol, timeframe, fetch, now);
    var k := KeyOf(symbol, timeframe, c);
    UpsertedMerges(t, symbol, timeframe, stored, clock, UPSERT_CHUNK_SIZE);
    assert Look(AfterGet(t, symbol, timeframe, fetch, now, clock), k) == RowAfter(t, symbol, timeframe, stored, clock, UPSERT_CHUNK_SIZE, k);
    LastAtIs(fetch.candles, c.naive);
    if !FullFetch(t, symbol, timeframe, now) {
      DeltaLastAt(fetch.candles, LatestTimestamp(t, symbol, timeframe).value, c.naive);
    }
  }
}
