/** The Redis-backed cache and its in-memory fallback: two stores, of which each
    call sees the one that Redis' reachability selects. */
module TwoStoreCache {
  import opened Options

  /** A value other than None; JSON can carry the serialisable ones. */
  datatype Value = Value(payload: int, serialisable: bool)

  datatype Entry = Entry(value: Value, expires: real)

  type Store = map<string, Entry>

  /** What a call meets: no client yet, a client whose commands raise, or Redis. */
  datatype Reach = NOT_INITIALISED | UNREACHABLE | REACHABLE

  datatype Config = Config(defaultTtl: int, prefix: string)

  datatype State = State(redis: Store, fallback: Store)

  const FALLBACK_MAXSIZE := 256

  function BuildKey(c: Config, key: string): string {
    if c.prefix != "" then "ia:" + c.prefix + ":" + key else "ia:" + key
  }

  lemma BuildKeyInjective(c: Config, a: string, b: string)
    ensures BuildKey(c, a) == BuildKey(c, b) ==> a == b
  {
    var head := if c.prefix != "" then "ia:" + c.prefix + ":" else "ia:";
    assert BuildKey(c, a)[|head|..] == a && BuildKey(c, b)[|head|..] == b;
  }

  function TtlSeconds(c: Config, ttl: Option<int>): int {
    if ttl == None || ttl.value == 0 then c.defaultTtl else ttl.value
  }

  function Lookup(s: Store, key: string, now: real): Option<Value> {
    if key in s && now < s[key].expires then Some(s[key].value) else None
  }

  function Live(s: Store, now: real): Store {
    map k | k in s && now < s[k].expires :: s[k]
  }

  /** The fallback evicts only to make room for a new key. */
  predicate Evicts(s: Store, key: string, now: real) {
    key !in Live(s, now) && |Live(s, now)| >= FALLBACK_MAXSIZE
  }

  /** Expired entries go first, then `victim` if room is needed. */
  function FallbackSet(s: Store, key: string, value: Value, now: real, ttl: int, victim: string): Store {
    var room := if Evicts(s, key, now) then Live(s, now) - {victim} else Live(s, now);
    room[key := Entry(value, now + ttl as real)]
  }

  /** The value reaches Redis: it is up, JSON can carry the value, and SETEX takes the time to live. */
  predicate ToRedis(c: Config, value: Value, ttl: Option<int>, reach: Reach) {
    reach == REACHABLE && value.serialisable && TtlSeconds(c, ttl) > 0
  }

  function AfterSet(c: Config, s: State, key: string, value: Value, ttl: Option<int>, reach: Reach, now: real, victim: string): State {
    if ToRedis(c, value, ttl, reach) then
      s.(redis := s.redis[BuildKey(c, key) := Entry(value, now + TtlSeconds(c, ttl) as real)])
    else
      s.(fallback := FallbackSet(s.fallback, key, value, now, c.defaultTtl, victim))
  }

  function Got(c: Config, s: State, key: string, reach: Reach, now: real): Option<Value> {
    if reach == REACHABLE then Lookup(s.redis, BuildKey(c, key), now) else Lookup(s.fallback, key, now)
  }

  function AfterInvalidate(c: Config, s: State, key: string, reach: Reach): State {
    State(if reach == REACHABLE then s.redis - {BuildKey(c, key)} else s.redis, s.fallback - {key})
  }
}

/** The same as objects: the cache object owns its fallback and shares the server. */
module TwoStoreCacheObjects {
  import opened Options
  import opened TwoStoreCache

  class RedisServer {
    var data: Store

    constructor ()
      ensures data == map[]
    {
      data := map[];
    }

    /** SETEX refuses a time to live that is not positive. */
    method SetEx(key: string, ttl: int, value: Value, now: real) returns (raised: bool)
      modifies this
      ensures raised == (ttl <= 0)
      ensures data == if raised then old(data) else old(data)[key := Entry(value, now + ttl as real)]
    {
      raised := ttl <= 0;
      if !raised { data := data[key := Entry(value, now + ttl as real)]; }
    }
  }

  class InMemoryCache {
    const defaultTtl: int
    var cache: Store

    constructor (defaultTtl: int)
      ensures this.defaultTtl == defaultTtl && cache == map[]
    {
      this.defaultTtl := defaultTtl;
      cache := map[];
    }

    method Set(key: string, value: Value, now: real, victim: string)
      modifies this
      ensures cache == FallbackSet(old(cache), key, value, now, defaultTtl, victim)
    {
      cache := map k | k in cache && now < cache[k].expires :: cache[k];
      if key !in cache && |cache| >= FALLBACK_MAXSIZE {
        cache := cache - {victim};
      }
      cache := cache[key := Entry(value, now + defaultTtl as real)];
    }

    method Invalidate(key: string)
      modifies this
      ensures cache == old(cache) - {key}
    {
      cache := cache - {key};
    }
  }

  class RedisCache {
    const config: Config
    const server: RedisServer
    const fallback: InMemoryCache

    ghost function View(): State
      reads server, fallback
    {
      State(server.data, fallback.cache)
    }

    constructor (defaultTtl: int, prefix: string, server: RedisServer)
      ensures config == Config(defaultTtl, prefix) && this.server == server
      ensures fresh(fallback) && fallback.defaultTtl == defaultTtl && fallback.cache == map[]
    {
      config := Config(defaultTtl, prefix);
      this.server := server;
      fallback := new InMemoryCache(defaultTtl);
    }

    method Get(key: string, reach: Reach, now: real) returns (value: Option<Value>)
      ensures value == Got(config, View(), key, reach, now)
    {
      if reach == NOT_INITIALISED || reach == UNREACHABLE {
        return Lookup(fallback.cache, key, now);
      }
      return Lookup(server.data, BuildKey(config, key), now);
    }

    method Set(key: string, value: Value, ttl: Option<int>, reach: Reach, now: real, victim: string)
      requires fallback.defaultTtl == config.defaultTtl
      modifies server, fallback
      ensures View() == AfterSet(config, old(View()), key, value, ttl, reach, now, victim)
    {
      if reach == NOT_INITIALISED || !value.serialisable || reach == UNREACHABLE {
        fallback.Set(key, value, now, victim);
        return;
      }
      var raised := server.SetEx(BuildKey(config, key), TtlSeconds(config, ttl), value, now);
      if raised {
        fallback.Set(key, value, now, victim);
      }
    }

    method Invalidate(key: string, reach: Reach)
      modifies server, fallback
      ensures View() == AfterInvalidate(config, old(View()), key, reach)
    {
      if reach == REACHABLE {
        server.data := server.data - {BuildKey(config, key)};
      }
      fallback.Invalidate(key);
    }
  }
}
