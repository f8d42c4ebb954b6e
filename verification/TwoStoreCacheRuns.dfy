/** Runs of the two-store cache under any failure schedule. */
module TwoStoreCacheRuns {
  import opened Cardinalities
  import opened Options
  import opened TwoStoreCache

  /** A call of `Set`, as the log of a run keeps it. */
  datatype Write = Write(key: string, value: Value, at: real, ttl: int)

  datatype System = System(state: State, now: real, log: set<Write>)

  datatype Event =
    | Set(key: string, value: Value, ttl: Option<int>, reach: Reach, victim: string)
    | Invalidate(key: string, reach: Reach)
    | Tick(to: real)
    | Forget(redisKey: string)      // Redis evicts an entry

  ghost predicate Enabled(s: System, e: Event) {
    match e
    case Set(key, _, _, _, victim) => Evicts(s.state.fallback, key, s.now) ==> victim in Live(s.state.fallback, s.now)
    case Tick(to) => s.now <= to
    case _ => true
  }

  ghost function Apply(c: Config, s: System, e: Event): System {
    match e
    case Set(key, value, ttl, reach, victim) =>
      System(AfterSet(c, s.state, key, value, ttl, reach, s.now, victim), s.now,
             s.log + {Write(key, value, s.now, TtlSeconds(c, ttl))})
    case Invalidate(key, reach) => s.(state := AfterInvalidate(c, s.state, key, reach))
    case Tick(to) => s.(now := to)
    case Forget(k) => s.(state := s.state.(redis := s.state.redis - {k}))
  }

  ghost predicate Runs(c: Config, s: System, es: seq<Event>, s': System)
    decreases |es|
  {
    if es == [] then s' == s else Enabled(s, es[0]) && Runs(c, Apply(c, s, es[0]), es[1..], s')
  }

  const INIT := System(State(map[], map[]), 0.0, {})

  // ----- Whatever is read was written -----

  function Longer(a: int, b: int): int {
    if a < b then b else a
  }

  ghost predicate Backs(c: Config, w: Write, key: string, e: Entry, now: real) {
    w.key == key && w.value == e.value && w.at <= now && e.expires <= w.at + Longer(w.ttl, c.defaultTtl) as real
  }

  ghost predicate Backed(c: Config, log: set<Write>, key: string, e: Entry, now: real) {
    exists w :: w in log && Backs(c, w, key, e, now)
  }

  ghost predicate Inv(c: Config, s: System) {
    && (forall k | k in s.state.redis :: exists key :: k == BuildKey(c, key) && Backed(c, s.log, key, s.state.redis[k], s.now))
    && (forall k | k in s.state.fallback :: Backed(c, s.log, k, s.state.fallback[k], s.now))
    && |s.state.fallback| <= FALLBACK_MAXSIZE
  }

  lemma BackedLater(c: Config, log: set<Write>, log': set<Write>, key: string, e: Entry, now: real, later: real)
    requires Backed(c, log, key, e, now) && log <= log' && now <= later
    ensures Backed(c, log', key, e, later)
  {
    var w :| w in log && Backs(c, w, key, e, now);
    assert w in log' && Backs(c, w, key, e, later);
  }

  lemma LiveSmaller(s: Store, now: real)
    ensures |Live(s, now)| <= |s|
  {
    assert Live(s, now).Keys <= s.Keys;
    SubsetCardinality(Live(s, now).Keys, s.Keys);
  }

  lemma OneMoreKey(s: Store, key: string, e: Entry)
    ensures |s[key := e]| == if key in s then |s| else |s| + 1
  {
    assert s[key := e].Keys == s.Keys + {key};
  }

  lemma FallbackFits(s: Store, key: string, value: Value, now: real, ttl: int, victim: string)
    requires |s| <= FALLBACK_MAXSIZE && (Evicts(s, key, now) ==> victim in Live(s, now))
    ensures |FallbackSet(s, key, value, now, ttl, victim)| <= FALLBACK_MAXSIZE
  {
    LiveSmaller(s, now);
    var live := Live(s, now);
    hide Live;
    if Evicts(s, key, now) {
      assert (live - {victim}).Keys == live.Keys - {victim};
      OneMoreKey(live - {victim}, key, Entry(value, now + ttl as real));
    } else {
      OneMoreKey(live, key, Entry(value, now + ttl as real));
    }
  }

  lemma BackedBy(c: Config, log: set<Write>, w: Write, key: string, e: Entry, now: real)
    requires w in log && Backs(c, w, key, e, now)
    ensures Backed(c, log, key, e, now)
  {
  }

  /** After a fallback write a key holds the new value, or what it held, still unexpired. */
  lemma FallbackEntry(s: Store, key: string, value: Value, now: real, ttl: int, victim: string, k: string)
    ensures var s' := FallbackSet(s, key, value, now, ttl, victim);
      && key in s' && s'[key] == Entry(value, now + ttl as real)
      && (k != key && k in s' ==> k in s && s'[k] == s[k])
      && (k != key && k in s && now < s[k].expires && (Evicts(s, key, now) ==> k != victim) ==> k in s')
  {
  }

  lemma SetStep(c: Config, s: System, key: string, value: Value, ttl: Option<int>, reach: Reach, victim: string)
    requires Inv(c, s) && Enabled(s, Set(key, value, ttl, reach, victim))
    ensures Inv(c, Apply(c, s, Set(key, value, ttl, reach, victim)))
  {
    hide Backed, Live, BuildKey, Evicts, FallbackSet;
    var s' := Apply(c, s, Set(key, value, ttl, reach, victim));
    var w := Write(key, value, s.now, TtlSeconds(c, ttl));
    FallbackFits(s.state.fallback, key, value, s.now, c.defaultTtl, victim);
    forall k | k in s'.state.redis ensures exists x :: k == BuildKey(c, x) && Backed(c, s'.log, x, s'.state.redis[k], s'.now) {
      if ToRedis(c, value, ttl, reach) && k == BuildKey(c, key) {
        BackedBy(c, s'.log, w, key, s'.state.redis[k], s.now);
      } else {
        var x :| k == BuildKey(c, x) && Backed(c, s.log, x, s.state.redis[k], s.now);
        BackedLater(c, s.log, s'.log, x, s.state.redis[k], s.now, s.now);
      }
    }
    forall k | k in s'.state.fallback ensures Backed(c, s'.log, k, s'.state.fallback[k], s'.now) {
      if ToRedis(c, value, ttl, reach) {
        BackedLater(c, s.log, s'.log, k, s.state.fallback[k], s.now, s.now);
      } else {
        FallbackEntry(s.state.fallback, key, value, s.now, c.defaultTtl, victim, k);
        if k == key {
          BackedBy(c, s'.log, w, key, s'.state.fallback[k], s.now);
        } else {
          BackedLater(c, s.log, s'.log, k, s.state.fallback[k], s.now, s.now);
        }
      }
    }
  }

  lemma StepInv(c: Config, s: System, e: Event)
    requires Inv(c, s) && Enabled(s, e)
    ensures Inv(c, Apply(c, s, e))
  {
    hide Backed, AfterSet, BuildKey;
    var s' := Apply(c, s, e);
    match e {
      case Set(key, value, ttl, reach, victim) => SetStep(c, s, key, value, ttl, reach, victim);
      case Tick(to) =>
        forall k | k in s'.state.redis ensures exists x :: k == BuildKey(c, x) && Backed(c, s'.log, x, s'.state.redis[k], s'.now) {
          var x :| k == BuildKey(c, x) && Backed(c, s.log, x, s.state.redis[k], s.now);
          BackedLater(c, s.log, s.log, x, s.state.redis[k], s.now, to);
        }
        forall k | k in s'.state.fallback ensures Backed(c, s'.log, k, s'.state.fallback[k], s'.now) {
          BackedLater(c, s.log, s.log, k, s.state.fallback[k], s.now, to);
        }
      case Invalidate(key, reach) =>
        assert s'.state.fallback.Keys <= s.state.fallback.Keys;
        SubsetCardinality(s'.state.fallback.Keys, s.state.fallback.Keys);
      case Forget(k) =>
    }
  }

  lemma {:induction false} RunInv(c: Config, s: System, es: seq<Event>, s': System)
    requires Inv(c, s) && Runs(c, s, es, s')
    ensures Inv(c, s')
    decreases |es|
  {
    hide Inv, Apply, Enabled;
    if es != [] {
      StepInv(c, s, es[0]);
      RunInv(c, Apply(c, s, es[0]), es[1..], s');
    }
  }

  /** Under any failure schedule, a value read for a key was written for that key,
      less than the larger of the two times to live ago. */
  lemma ReadsWereWritten(c: Config, es: seq<Event>, s: System, key: string, reach: Reach)
    requires Runs(c, INIT, es, s) && Got(c, s.state, key, reach, s.now) != None
    ensures exists w :: (w in s.log && w.key == key && Got(c, s.state, key, reach, s.now) == Some(w.value)
                          && w.at <= s.now < w.at + Longer(w.ttl, c.defaultTtl) as real)
    ensures |s.state.fallback| <= 256
  {
    RunInv(c, INIT, es, s);
    if reach == REACHABLE {
      var k := BuildKey(c, key);
      var x :| k == BuildKey(c, x) && Backed(c, s.log, x, s.state.redis[k], s.now);
      BuildKeyInjective(c, x, key);
    }
  }

  // ----- Reading back -----

  /** What one read sees right after a write: the new value if the read meets the
      store that the write reached, else what that read saw before. */
  lemma ReadAfterWrite(c: Config, s: System, key: string, value: Value, ttl: Option<int>, reach: Reach, victim: string, later: Reach)
    requires Enabled(s, Set(key, value, ttl, reach, victim)) && c.defaultTtl > 0
    ensures Got(c, Apply(c, s, Set(key, value, ttl, reach, victim)).state, key, later, s.now)
      == if ToRedis(c, value, ttl, reach) == (later == REACHABLE) then Some(value) else Got(c, s.state, key, later, s.now)
  {
    FallbackEntry(s.state.fallback, key, value, s.now, c.defaultTtl, victim, key);
  }

  lemma TwoEvents(c: Config, s: System, a: Event, b: Event)
    requires Enabled(s, a) && Enabled(Apply(c, s, a), b)
    ensures Runs(c, s, [a, b], Apply(c, Apply(c, s, a), b))
  {
    hide Enabled, Apply;
    var s', s'' := Apply(c, s, a), Apply(c, Apply(c, s, a), b);
    assert [a, b][1..] == [b] && [b][1..] == [];
    assert Runs(c, s'', [], s'');
    assert Runs(c, s', [b], s'');
  }

  /** Where a write goes and until when it can be read there, if nothing else happens:
      in Redis for the given time to live, None and 0 standing for the default; and
      else, or if Redis would refuse that time, in the fallback for the default. */
  lemma ReadUntil(c: Config, s: System, key: string, value: Value, ttl: Option<int>, reach: Reach, victim: string, later: real)
    requires Enabled(s, Set(key, value, ttl, reach, victim)) && s.now <= later
    ensures var after := Apply(c, s, Set(key, value, ttl, reach, victim)).state;
      var life := if ttl == None || ttl == Some(0) then c.defaultTtl else ttl.value;
      if reach == REACHABLE && value.serialisable && life > 0 then
        && Got(c, after, key, REACHABLE, later) == (if later < s.now + life as real then Some(value) else None)
        && after.fallback == s.state.fallback
      else
        && Got(c, after, key, UNREACHABLE, later) == (if later < s.now + c.defaultTtl as real then Some(value) else None)
        && after.redis == s.state.redis
  {
    FallbackEntry(s.state.fallback, key, value, s.now, c.defaultTtl, victim, key);
  }

  /** A fallback write loses an unexpired entry of another key only as the victim, and
      has one only for a key that is not live when 256 others are. */
  lemma FallbackLoses(s: Store, key: string, value: Value, now: real, ttl: int, victim: string, k: string)
    requires k != key && k in s && now < s[k].expires
    ensures k in FallbackSet(s, key, value, now, ttl, victim) <==>
      !(k == victim && !(key in s && now < s[key].expires) && |set x | x in s && now < s[x].expires| >= 256)
  {
    assert Live(s, now).Keys == set x | x in s && now < s[x].expires;
  }

  /** A concrete stale read: the second write of a key finds Redis unreachable, and a
      read that reaches it again returns the first value. */
  lemma StaleRead(c: Config, v: Value, w: Value)
    requires c.defaultTtl > 0 && v.serialisable && v != w
    ensures var first, second := Set("k", v, None, REACHABLE, ""), Set("k", w, None, UNREACHABLE, "");
      exists s :: Runs(c, INIT, [first, second], s) && Got(c, s.state, "k", REACHABLE, s.now) == Some(v)
  {
    var first, second := Set("k", v, None, REACHABLE, ""), Set("k", w, None, UNREACHABLE, "");
    var s := Apply(c, INIT, first);
    TwoEvents(c, INIT, first, second);
    assert Got(c, Apply(c, s, second).state, "k", REACHABLE, s.now) == Some(v);
  }

  /** Events that leave alone what is stored for a key in the store that a write reached. */
  ghost predicate Spares(c: Config, s: System, e: Event, key: string, redis: bool) {
    match e
    case Set(k, value, ttl, reach, victim) =>
      if ToRedis(c, value, ttl, reach) then redis ==> k != key
      else !redis ==> k != key && (Evicts(s.state.fallback, k, s.now) ==> victim != key)
    case Invalidate(k, reach) => k == key ==> redis && reach != REACHABLE
    case Tick(_) => true
    case Forget(k) => redis ==> k != BuildKey(c, key)
  }

  ghost predicate AllSpare(c: Config, s: System, es: seq<Event>, key: string, redis: bool)
    decreases |es|
  {
    es == [] || (Spares(c, s, es[0], key, redis) && AllSpare(c, Apply(c, s, es[0]), es[1..], key, redis))
  }

  ghost predicate Holds(c: Config, s: State, key: string, redis: bool, e: Entry) {
    if redis then BuildKey(c, key) in s.redis && s.redis[BuildKey(c, key)] == e
    else key in s.fallback && s.fallback[key] == e
  }

  lemma SpareStep(c: Config, s: System, ev: Event, key: string, redis: bool, e: Entry)
    requires Enabled(s, ev) && Spares(c, s, ev, key, redis) && Holds(c, s.state, key, redis, e) && s.now < e.expires
    ensures Holds(c, Apply(c, s, ev).state, key, redis, e)
  {
    hide BuildKey, FallbackSet, Evicts, Live;
    match ev {
      case Set(k, value, ttl, reach, victim) =>
        BuildKeyInjective(c, k, key);
        FallbackEntry(s.state.fallback, k, value, s.now, c.defaultTtl, victim, key);
      case Invalidate(k, reach) => BuildKeyInjective(c, k, key);
      case _ =>
    }
  }

  lemma TimeGoesOn(c: Config, s: System, e: Event)
    requires Enabled(s, e)
    ensures s.now <= Apply(c, s, e).now
  {
  }

  lemma {:induction false} NowGrows(c: Config, s: System, es: seq<Event>, s': System)
    requires Runs(c, s, es, s')
    ensures s.now <= s'.now
    decreases |es|
  {
    hide Apply, Enabled;
    if es != [] {
      TimeGoesOn(c, s, es[0]);
      NowGrows(c, Apply(c, s, es[0]), es[1..], s');
    }
  }

  lemma {:induction false} SpareRun(c: Config, s: System, es: seq<Event>, s': System, key: string, redis: bool, e: Entry)
    requires Runs(c, s, es, s') && AllSpare(c, s, es, key, redis) && Holds(c, s.state, key, redis, e) && s'.now < e.expires
    ensures Holds(c, s'.state, key, redis, e)
    decreases |es|
  {
    hide Apply, Enabled, Holds, Spares;
    if es != [] {
      NowGrows(c, s, es, s');
      SpareStep(c, s, es[0], key, redis, e);
      SpareRun(c, Apply(c, s, es[0]), es[1..], s', key, redis, e);
    }
  }

  /** A value is read back, whatever else happens, by a read that meets the store its
      write reached, as long as it has not expired there and nothing has overwritten,
      invalidated or evicted it in that store. */
  lemma ReadBack(c: Config, s: System, key: string, value: Value, ttl: Option<int>, reach: Reach, victim: string,
                 es: seq<Event>, s': System, later: Reach)
    requires Enabled(s, Set(key, value, ttl, reach, victim))
    requires var redis := ToRedis(c, value, ttl, reach);
      && Runs(c, Apply(c, s, Set(key, value, ttl, reach, victim)), es, s')
      && AllSpare(c, Apply(c, s, Set(key, value, ttl, reach, victim)), es, key, redis)
      && (later == REACHABLE <==> redis)
      && s'.now < s.now + (if redis then TtlSeconds(c, ttl) else c.defaultTtl) as real
    ensures Got(c, s'.state, key, later, s'.now) == Some(value)
  {
    hide AllSpare, Runs;
    var redis := ToRedis(c, value, ttl, reach);
    var e := Entry(value, s.now + (if redis then TtlSeconds(c, ttl) else c.defaultTtl) as real);
    FallbackEntry(s.state.fallback, key, value, s.now, c.defaultTtl, victim, key);
    SpareRun(c, Apply(c, s, Set(key, value, ttl, reach, victim)), es, s', key, redis, e);
  }

  // ----- Invalidation -----

  ghost predicate Absent(c: Config, s: State, key: string) {
    BuildKey(c, key) !in s.redis && key !in s.fallback
  }

  lemma AbsentStep(c: Config, s: System, e: Event, key: string)
    requires Absent(c, s.state, key) && (e.Set? ==> e.key != key)
    ensures Absent(c, Apply(c, s, e).state, key)
  {
    hide BuildKey;
    if e.Set? {
      BuildKeyInjective(c, e.key, key);
      FallbackEntry(s.state.fallback, e.key, e.value, s.now, c.defaultTtl, e.victim, key);
    }
  }

  /** After an invalidation that reached Redis, every read misses until the next write of the key. */
  lemma {:induction false} InvalidatedMisses(c: Config, s: System, es: seq<Event>, s': System, key: string, later: Reach)
    requires Absent(c, s.state, key) && Runs(c, s, es, s')
    requires forall i | 0 <= i < |es| :: es[i].Set? ==> es[i].key != key
    ensures Got(c, s'.state, key, later, s'.now) == None
    decreases |es|
  {
    hide Apply, Enabled;
    if es != [] {
      AbsentStep(c, s, es[0], key);
      InvalidatedMisses(c, Apply(c, s, es[0]), es[1..], s', key, later);
    }
  }

  /** An invalidation leaves nothing to read, in either store, exactly if it reached
      Redis or Redis held nothing unexpired for the key. */
  lemma InvalidateIff(c: Config, s: System, key: string, reach: Reach)
    ensures reach == REACHABLE ==> Absent(c, AfterInvalidate(c, s.state, key, reach), key)
    ensures (forall later :: Got(c, AfterInvalidate(c, s.state, key, reach), key, later, s.now) == None)
      <==> reach == REACHABLE || Lookup(s.state.redis, BuildKey(c, key), s.now) == None
  {
    var after := AfterInvalidate(c, s.state, key, reach);
    assert Got(c, after, key, REACHABLE, s.now) == Lookup(after.redis, BuildKey(c, key), s.now);
  }

  /** A concrete lost invalidation: it finds Redis unreachable, and the value is read
      from there afterwards. */
  lemma LostInvalidation(c: Config, v: Value)
    requires c.defaultTtl > 0 && v.serialisable
    ensures var write, drop := Set("k", v, None, REACHABLE, ""), Invalidate("k", UNREACHABLE);
      exists s :: Runs(c, INIT, [write, drop], s) && Got(c, s.state, "k", REACHABLE, s.now) == Some(v)
  {
    var write, drop := Set("k", v, None, REACHABLE, ""), Invalidate("k", UNREACHABLE);
    var s := Apply(c, INIT, write);
    TwoEvents(c, INIT, write, drop);
    assert Got(c, Apply(c, s, drop).state, "k", REACHABLE, s.now) == Some(v);
  }
}
