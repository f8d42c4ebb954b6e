/** The per-IP WebSocket connection limiter: one Redis hash per IP shared by all
    workers, and one in-process dictionary per worker for the time Redis is out
    of reach.  This module gives the meaning of the two Lua scripts and of the
    two in-process operations as functions on values; the classes of
    `LimiterObjects` are proved to compute them, and `LimiterRuns` proves what
    every interleaving of them keeps. */
module Limiter {
  import opened Cardinalities

  type Ip = string
  type ConnId = string

  /** Connection id to absolute expiry, on the clock of the admitting worker. */
  type Entries = map<ConnId, real>

  /** A Redis hash; `expireAt` is the instant, in true time, after which the
      server drops the whole key. */
  datatype Hash = Hash(entries: Entries, expireAt: real)

  type Redis = map<Ip, Hash>

  /** The state of one worker process. */
  datatype Worker = Worker(memory: map<Ip, Entries>, memoryConnIds: set<ConnId>)

  const KEY_EXPIRE_BUFFER := 60.0

  function Unexpired(es: Entries, now: real): (live: Entries)
    ensures |live| <= |es|
  {
    var live := map id | id in es && es[id] >= now :: es[id];
    assert |live.Keys| <= |es.Keys| by { SubsetCardinality(live.Keys, es.Keys); }
    live
  }

  /** As many as there are ids whose expiry the clock has not passed. */
  lemma LiveCount(es: Entries, now: real)
    ensures |Unexpired(es, now)| == |set id | id in es && es[id] >= now|
  {
    assert Unexpired(es, now).Keys == set id | id in es && es[id] >= now;
  }

  /** What HGETALL sees at time `t`: nothing once the key has outlived its EXPIRE. */
  function HashEntries(redis: Redis, t: real, ip: Ip): Entries {
    if ip in redis && t <= redis[ip].expireAt then redis[ip].entries else map[]
  }

  /** A hash without fields does not exist. */
  function SetHash(redis: Redis, ip: Ip, es: Entries, expireAt: real): Redis {
    if es == map[] then redis - {ip} else redis[ip := Hash(es, expireAt)]
  }

  function ExpireAt(redis: Redis, ip: Ip): real {
    if ip in redis then redis[ip].expireAt else 0.0
  }

  /** The acquire script raises before its first write if it has something to prune
      and the interpreter has no `table.unpack` (`unpacks`). */
  ghost predicate ScriptRaises(unpacks: bool, redis: Redis, t: real, ip: Ip, now: real) {
    !unpacks && exists id :: id in HashEntries(redis, t, ip) && HashEntries(redis, t, ip)[id] < now
  }

  /** Else, run at time `t` with the caller's clock reading `now`: whether it grants
      a slot, and what it leaves behind. */
  predicate RedisGrants(redis: Redis, t: real, ip: Ip, now: real, max: int) {
    |Unexpired(HashEntries(redis, t, ip), now)| < max
  }

  function RedisAcquire(redis: Redis, t: real, ip: Ip, now: real, ttl: real, max: int, id: ConnId, keyTtl: real): Redis {
    var kept := Unexpired(HashEntries(redis, t, ip), now);
    if RedisGrants(redis, t, ip, now, max) then
      redis[ip := Hash(kept[id := now + ttl], t + keyTtl)]
    else
      SetHash(redis, ip, kept, ExpireAt(redis, ip))
  }

  /** What an attempt to run it leaves behind. */
  ghost function AfterAttempt(unpacks: bool, redis: Redis, t: real, ip: Ip, now: real, ttl: real, max: int, id: ConnId, keyTtl: real): Redis {
    if ScriptRaises(unpacks, redis, t, ip, now) then redis else RedisAcquire(redis, t, ip, now, ttl, max, id, keyTtl)
  }

  /** An attempt leaves no entry expired on the caller's clock, as the code intends,
      exactly if the script does not raise. */
  lemma AttemptPrunesIff(unpacks: bool, redis: Redis, t: real, ip: Ip, now: real, ttl: real, max: int, id: ConnId, keyTtl: real)
    requires ttl >= 0.0 && keyTtl >= 0.0
    ensures var after := AfterAttempt(unpacks, redis, t, ip, now, ttl, max, id, keyTtl);
      (forall x | x in HashEntries(after, t, ip) :: HashEntries(after, t, ip)[x] >= now) <==> !ScriptRaises(unpacks, redis, t, ip, now)
  {
    var after := AfterAttempt(unpacks, redis, t, ip, now, ttl, max, id, keyTtl);
    if ScriptRaises(unpacks, redis, t, ip, now) {
      var x :| x in HashEntries(redis, t, ip) && HashEntries(redis, t, ip)[x] < now;
      assert x in HashEntries(after, t, ip);
    }
  }

  /** The release script. */
  function RedisRelease(redis: Redis, t: real, ip: Ip, id: ConnId): Redis {
    SetHash(redis, ip, HashEntries(redis, t, ip) - {id}, ExpireAt(redis, ip))
  }

  function Connections(memory: map<Ip, Entries>, ip: Ip): Entries {
    if ip in memory then memory[ip] else map[]
  }

  /** The in-process acquire. */
  predicate MemoryGrants(w: Worker, ip: Ip, now: real, max: int) {
    |Unexpired(Connections(w.memory, ip), now)| < max
  }

  function MemoryAcquire(w: Worker, ip: Ip, now: real, ttl: real, max: int, id: ConnId): Worker {
    var kept := Unexpired(Connections(w.memory, ip), now);
    if MemoryGrants(w, ip, now, max) then
      Worker(w.memory[ip := kept[id := now + ttl]], w.memoryConnIds + {id})
    else
      w.(memory := w.memory[ip := kept])
  }

  /** The in-process release: when the IP has no dictionary any more the id
      stays in `memoryConnIds`. */
  function MemoryRelease(w: Worker, ip: Ip, id: ConnId): Worker {
    if ip !in w.memory then w
    else
      var left := w.memory[ip] - {id};
      Worker(if left == map[] then w.memory - {ip} else w.memory[ip := left], w.memoryConnIds - {id})
  }

  // ----- A release takes back what an acquire gave -----

  /** A granted script acquire and its release leave the entries that were unexpired. */
  lemma ReleaseUndoesShared(redis: Redis, t: real, ip: Ip, now: real, ttl: real, max: int, id: ConnId, keyTtl: real, p: Ip)
    requires keyTtl >= 0.0 && RedisGrants(redis, t, ip, now, max) && id !in HashEntries(redis, t, ip)
    ensures var after := RedisRelease(RedisAcquire(redis, t, ip, now, ttl, max, id, keyTtl), t, ip, id);
      HashEntries(after, t, p) == if p == ip then Unexpired(HashEntries(redis, t, ip), now) else HashEntries(redis, t, p)
  {
    var kept := Unexpired(HashEntries(redis, t, ip), now);
    assert kept[id := now + ttl] - {id} == kept;
  }

  /** So do a granted in-process acquire and its release, and the id is forgotten. */
  lemma ReleaseUndoesLocal(w: Worker, ip: Ip, now: real, ttl: real, max: int, id: ConnId, p: Ip)
    requires MemoryGrants(w, ip, now, max) && id !in Connections(w.memory, ip) && id !in w.memoryConnIds
    ensures var after := MemoryRelease(MemoryAcquire(w, ip, now, ttl, max, id), ip, id);
      && Connections(after.memory, p) == (if p == ip then Unexpired(Connections(w.memory, ip), now) else Connections(w.memory, p))
      && after.memoryConnIds == w.memoryConnIds
      && (ip in after.memory <==> Unexpired(Connections(w.memory, ip), now) != map[])
  {
    var kept := Unexpired(Connections(w.memory, ip), now);
    assert kept[id := now + ttl] - {id} == kept;
  }

  /** `release`: an id that was admitted in process is released in process, any
      other one in Redis, and a failing Redis is left to the TTL. */
  function ReleaseRedis(redis: Redis, w: Worker, t: real, reachable: bool, ip: Ip, id: ConnId): Redis {
    if id !in w.memoryConnIds && reachable then RedisRelease(redis, t, ip, id) else redis
  }

  function ReleaseWorker(w: Worker, ip: Ip, id: ConnId): Worker {
    if id in w.memoryConnIds then MemoryRelease(w, ip, id) else w
  }
}

/** The limiter as the program runs it: objects whose fields are assigned. */
module LimiterObjects {
  import opened Limiter

  /** The server side: the two Lua scripts run atomically on `hashes`. */
  class RedisServer {
    const unpacks: bool
    var hashes: Redis

    constructor (unpacks: bool)
      ensures this.unpacks == unpacks && hashes == map[]
    {
      this.unpacks := unpacks;
      hashes := map[];
    }

    method RunAcquire(t: real, ip: Ip, now: real, entryTtl: real, max: int, id: ConnId, keyTtl: real)
      returns (raised: bool, granted: bool)
      modifies this
      ensures raised == ScriptRaises(unpacks, old(hashes), t, ip, now)
      ensures !raised ==> granted == RedisGrants(old(hashes), t, ip, now, max)
      ensures !raised ==> (granted <==>
        |set x | x in HashEntries(old(hashes), t, ip) && HashEntries(old(hashes), t, ip)[x] >= now| < max)
      ensures hashes == AfterAttempt(unpacks, old(hashes), t, ip, now, entryTtl, max, id, keyTtl)
    {
      var entries := HashEntries(hashes, t, ip);
      var expired: set<ConnId> := {};
      var todo := entries.Keys;
      while todo != {}
        invariant todo <= entries.Keys
        invariant expired == set id | id in entries.Keys - todo && entries[id] < now
      {
        var id :| id in todo;
        if entries[id] < now {
          expired := expired + {id};
        }
        todo := todo - {id};
      }
      if expired != {} && !unpacks {
        ghost var x :| x in expired;
        return true, false;
      }
      var kept := entries - expired;
      assert kept == Unexpired(entries, now);
      LiveCount(entries, now);
      if |kept| >= max {
        hashes := SetHash(hashes, ip, kept, ExpireAt(hashes, ip));
        return false, false;
      }
      hashes := hashes[ip := Hash(kept[id := now + entryTtl], t + keyTtl)];
      return false, true;
    }

    method RunRelease(t: real, ip: Ip, id: ConnId)
      modifies this
      ensures hashes == RedisRelease(old(hashes), t, ip, id)
      ensures HashEntries(hashes, t, ip) == HashEntries(old(hashes), t, ip) - {id}
      ensures ip in hashes <==> HashEntries(old(hashes), t, ip) - {id} != map[]
      ensures hashes - {ip} == old(hashes) - {ip}
    {
      hashes := SetHash(hashes, ip, HashEntries(hashes, t, ip) - {id}, ExpireAt(hashes, ip));
    }
  }

  class WebSocketConnectionLimiter {
    const maxConnections: int
    const ttlSeconds: real
    const redis: RedisServer
    var memory: map<Ip, Entries>
    var memoryConnIds: set<ConnId>

    ghost function View(): Worker
      reads this
    {
      Worker(memory, memoryConnIds)
    }

    constructor (redis: RedisServer, maxConnections: int, ttlSeconds: real)
      ensures this.redis == redis && this.maxConnections == maxConnections && this.ttlSeconds == ttlSeconds
      ensures View() == Worker(map[], {})
    {
      this.redis, this.maxConnections, this.ttlSeconds := redis, maxConnections, ttlSeconds;
      memory, memoryConnIds := map[], {};
    }

    method AcquireMemory(now: real, ip: Ip, id: ConnId) returns (allowed: bool)
      modifies this
      ensures allowed <==>
        |set x | x in old(Connections(memory, ip)) && old(Connections(memory, ip))[x] >= now| < maxConnections
      ensures allowed == MemoryGrants(old(View()), ip, now, maxConnections)
      ensures View() == MemoryAcquire(old(View()), ip, now, ttlSeconds, maxConnections, id)
    {
      LiveCount(Connections(memory, ip), now);
      var connections := Connections(memory, ip);
      connections := Unexpired(connections, now);
      if |connections| >= maxConnections {
        memory := memory[ip := connections];
        return false;
      }
      connections := connections[id := now + ttlSeconds];
      memory := memory[ip := connections];
      memoryConnIds := memoryConnIds + {id};
      return true;
    }

    method ReleaseMemory(ip: Ip, id: ConnId)
      modifies this
      ensures View() == MemoryRelease(old(View()), ip, id)
    {
      if ip !in memory {
        return;
      }
      var connections := memory[ip] - {id};
      memory := memory[ip := connections];
      memoryConnIds := memoryConnIds - {id};
      if connections == map[] {
        memory := memory - {ip};
      }
    }

    /** `reachable` says whether the script is started; `t` is the true time and
        `now` this worker's clock.  Redis decides if the script neither fails to
        start nor raises. */
    method Acquire(t: real, now: real, reachable: bool, ip: Ip, id: ConnId) returns (allowed: bool)
      modifies this, redis
      ensures reachable && !ScriptRaises(redis.unpacks, old(redis.hashes), t, ip, now) ==>
        && allowed == RedisGrants(old(redis.hashes), t, ip, now, maxConnections)
        && redis.hashes == RedisAcquire(old(redis.hashes), t, ip, now, ttlSeconds, maxConnections, id, ttlSeconds + KEY_EXPIRE_BUFFER)
        && View() == old(View())
      ensures !reachable || ScriptRaises(redis.unpacks, old(redis.hashes), t, ip, now) ==>
        && allowed == MemoryGrants(old(View()), ip, now, maxConnections)
        && View() == MemoryAcquire(old(View()), ip, now, ttlSeconds, maxConnections, id)
        && redis.hashes == old(redis.hashes)
    {
      if reachable {
        var raised;
        raised, allowed := redis.RunAcquire(t, ip, now, ttlSeconds, maxConnections, id, ttlSeconds + KEY_EXPIRE_BUFFER);
        if !raised {
          return;
        }
      }
      allowed := AcquireMemory(now, ip, id);
    }

    method Release(t: real, reachable: bool, ip: Ip, id: ConnId)
      modifies this, redis
      ensures redis.hashes == ReleaseRedis(old(redis.hashes), old(View()), t, reachable, ip, id)
      ensures View() == ReleaseWorker(old(View()), ip, id)
    {
      if id in memoryConnIds {
        ReleaseMemory(ip, id);
        return;
      }
      if reachable {
        redis.RunRelease(t, ip, id);
      }
    }
  }
}
