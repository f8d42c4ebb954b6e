/** Every interleaving of any number of workers over the limiter, with Redis
    failing and recovering between any two steps.  Time is one true clock; each
    worker reads it through a constant offset. */
module LimiterRuns {
  import opened Cardinalities
  import opened Limiter

  /** What `acquire` admitted: where, when (true time) and until when (on the
      admitting worker's clock). */
  datatype Conn = Conn(ip: Ip, worker: nat, local: bool, acquiredAt: real, expiry: real)

  /** Bookkeeping for the statements: `admitted` records every admission ever made,
      `held` those neither released nor lost with the memory of a crashed worker,
      and `open` the sockets that are still served. */
  datatype System = System(
    time: real,
    redis: Redis,
    workers: seq<Worker>,
    admitted: map<ConnId, Conn>,
    held: set<ConnId>,
    open: set<ConnId>)

  /** One clock offset per worker; any two workers differ by at most the buffer
      that the key EXPIRE adds.  `unpacks` says whether the script interpreter has
      `table.unpack`. */
  datatype Config = Config(max: nat, ttl: real, offsets: seq<real>, unpacks: bool)

  ghost predicate Fair(c: Config) {
    && c.max >= 1 && c.ttl >= 0.0
    && forall v, w | 0 <= v < |c.offsets| && 0 <= w < |c.offsets| :: c.offsets[w] - c.offsets[v] <= KEY_EXPIRE_BUFFER
  }

  datatype Event =
    | Tick(to: real)
    | AcquireShared(worker: nat, ip: Ip, id: ConnId)  // the script decided
    | AcquireLocal(worker: nat, ip: Ip, id: ConnId)   // it raised, or was not reached
    | Close(id: ConnId, reachable: bool)              // the endpoint's finally block
    | Abandon(id: ConnId)                             // the handshake failed after acquire
    | Crash(worker: nat)

  ghost function Init(c: Config): System {
    System(0.0, map[], seq(|c.offsets|, _ => Worker(map[], {})), map[], {}, {})
  }

  ghost predicate Enabled(c: Config, s: System, e: Event) {
    match e
    case Tick(to) => s.time <= to
    case AcquireShared(w, ip, id) =>
      w < |s.workers| && w < |c.offsets| && id !in s.admitted && !ScriptRaises(c.unpacks, s.redis, s.time, ip, s.time + c.offsets[w])
    case AcquireLocal(w, _, id) => w < |s.workers| && id !in s.admitted
    case Close(id, _) => id in s.open && id in s.admitted && s.admitted[id].worker < |s.workers|
    case Abandon(id) => id in s.open
    case Crash(w) => w < |s.workers|
  }

  ghost function Admit(s: System, ok: bool, id: ConnId, k: Conn): System {
    if ok then s.(admitted := s.admitted[id := k], held := s.held + {id}, open := s.open + {id}) else s
  }

  ghost function ApplyShared(c: Config, s: System, w: nat, ip: Ip, id: ConnId): System
    requires w < |c.offsets|
  {
    var now := s.time + c.offsets[w];
    var redis := RedisAcquire(s.redis, s.time, ip, now, c.ttl, c.max, id, c.ttl + KEY_EXPIRE_BUFFER);
    Admit(s.(redis := redis), RedisGrants(s.redis, s.time, ip, now, c.max), id,
          Conn(ip, w, false, s.time, now + c.ttl))
  }

  ghost function ApplyLocal(c: Config, s: System, w: nat, ip: Ip, id: ConnId): System
    requires w < |c.offsets| == |s.workers|
  {
    var now := s.time + c.offsets[w];
    var worker := MemoryAcquire(s.workers[w], ip, now, c.ttl, c.max, id);
    Admit(s.(workers := s.workers[w := worker]), MemoryGrants(s.workers[w], ip, now, c.max), id,
          Conn(ip, w, true, s.time, now + c.ttl))
  }

  ghost function ApplyClose(s: System, id: ConnId, reachable: bool): System
    requires id in s.admitted && s.admitted[id].worker < |s.workers|
  {
    var k := s.admitted[id];
    var w := s.workers[k.worker];
    s.(redis := ReleaseRedis(s.redis, w, s.time, reachable, k.ip, id),
       workers := s.workers[k.worker := ReleaseWorker(w, k.ip, id)],
       held := if id in w.memoryConnIds || reachable then s.held - {id} else s.held,
       open := s.open - {id})
  }

  ghost function Apply(c: Config, s: System, e: Event): System
    requires |s.workers| == |c.offsets| && Enabled(c, s, e)
  {
    match e
    case Tick(to) => s.(time := to)
    case AcquireShared(w, ip, id) => ApplyShared(c, s, w, ip, id)
    case AcquireLocal(w, ip, id) => ApplyLocal(c, s, w, ip, id)
    case Close(id, reachable) => ApplyClose(s, id, reachable)
    case Abandon(id) => s.(open := s.open - {id})
    case Crash(w) =>
      s.(workers := s.workers[w := Worker(map[], {})],
         held := (set id | id in s.held && id in s.admitted && (s.admitted[id].worker != w || !s.admitted[id].local)),
         open := (set id | id in s.open && id in s.admitted && s.admitted[id].worker != w))
  }

  ghost predicate Runs(c: Config, s: System, es: seq<Event>, s': System)
    requires |s.workers| == |c.offsets|
    decreases |es|
  {
    if es == [] then s' == s else Enabled(c, s, es[0]) && Runs(c, Apply(c, s, es[0]), es[1..], s')
  }

  ghost predicate Reachable(c: Config, s: System) {
    exists es :: Runs(c, Init(c), es, s)
  }

  lemma {:induction false} RunsConcat(c: Config, s: System, es: seq<Event>, t: System, fs: seq<Event>, u: System)
    requires |s.workers| == |c.offsets| == |t.workers|
    requires Runs(c, s, es, t) && Runs(c, t, fs, u)
    ensures Runs(c, s, es + fs, u)
    decreases |es|
  {
    if es == [] {
      assert es + fs == fs;
    } else {
      RunsConcat(c, Apply(c, s, es[0]), es[1..], t, fs, u);
      assert (es + fs)[1..] == es[1..] + fs;
    }
  }

  lemma OneStep(c: Config, s: System, e: Event)
    requires |s.workers| == |c.offsets| && Enabled(c, s, e)
    ensures Runs(c, s, [e], Apply(c, s, e))
  {
    assert Runs(c, Apply(c, s, e), [], Apply(c, s, e));
  }

  lemma SameWorkers(c: Config, s: System, e: Event)
    requires |s.workers| == |c.offsets| && Enabled(c, s, e)
    ensures |Apply(c, s, e).workers| == |s.workers|
  {
  }

  lemma ReachableStep(c: Config, s: System, e: Event)
    requires |s.workers| == |c.offsets| && Reachable(c, s) && Enabled(c, s, e)
    ensures Reachable(c, Apply(c, s, e))
  {
    hide Enabled, Apply, Runs;
    var es :| Runs(c, Init(c), es, s);
    OneStep(c, s, e);
    RunsConcat(c, Init(c), es, s, [e], Apply(c, s, e));
  }

  // ----- The inductive invariant -----

  /** Still unexpired on every worker's clock. */
  ghost predicate LiveEverywhere(c: Config, s: System, id: ConnId)
    requires id in s.admitted
  {
    forall v | 0 <= v < |c.offsets| :: s.admitted[id].expiry >= s.time + c.offsets[v]
  }

  ghost predicate Recorded(admitted: map<ConnId, Conn>, ip: Ip, id: ConnId, expiry: real, local: bool) {
    id in admitted && admitted[id].ip == ip && admitted[id].expiry == expiry && admitted[id].local == local
  }

  ghost predicate HashOk(c: Config, t: real, ip: Ip, h: Hash, admitted: map<ConnId, Conn>) {
    && |h.entries| <= c.max
    && h.expireAt <= t + c.ttl + KEY_EXPIRE_BUFFER
    && (forall id | id in h.entries :: Recorded(admitted, ip, id, h.entries[id], false))
    && (forall id, v | id in h.entries && 0 <= v < |c.offsets| :: h.entries[id] <= h.expireAt + c.offsets[v])
  }

  ghost predicate RedisOk(c: Config, t: real, redis: Redis, admitted: map<ConnId, Conn>) {
    forall ip | ip in redis :: HashOk(c, t, ip, redis[ip], admitted)
  }

  ghost predicate DictOk(c: Config, ip: Ip, es: Entries, w: Worker, admitted: map<ConnId, Conn>) {
    && |es| <= c.max
    && (forall id | id in es :: id in w.memoryConnIds && Recorded(admitted, ip, id, es[id], true))
  }

  ghost predicate WorkerOk(c: Config, w: Worker, admitted: map<ConnId, Conn>) {
    && (forall ip | ip in w.memory :: DictOk(c, ip, w.memory[ip], w, admitted))
    && (forall id | id in w.memoryConnIds :: id in admitted && admitted[id].local)
  }

  ghost predicate Stored(s: System, id: ConnId)
    requires id in s.admitted && s.admitted[id].worker < |s.workers|
  {
    var k := s.admitted[id];
    if k.local then
      id in s.workers[k.worker].memoryConnIds && id in Connections(s.workers[k.worker].memory, k.ip)
    else
      id in HashEntries(s.redis, s.time, k.ip)
  }

  ghost predicate ConnOk(c: Config, s: System, id: ConnId)
    requires id in s.admitted && |s.workers| == |c.offsets|
  {
    var k := s.admitted[id];
    && k.worker < |s.workers|
    && k.acquiredAt <= s.time
    && k.expiry == k.acquiredAt + c.offsets[k.worker] + c.ttl
    && (id in s.held && LiveEverywhere(c, s, id) ==> Stored(s, id))
  }

  ghost predicate Inv(c: Config, s: System) {
    && |s.workers| == |c.offsets|
    && RedisOk(c, s.time, s.redis, s.admitted)
    && (forall w | 0 <= w < |s.workers| :: WorkerOk(c, s.workers[w], s.admitted))
    && s.open <= s.held <= s.admitted.Keys
    && (forall id | id in s.admitted :: ConnOk(c, s, id))
  }

  lemma InitInv(c: Config)
    ensures Inv(c, Init(c))
  {
  }

  lemma TickInv(c: Config, s: System, to: real)
    requires Fair(c) && Inv(c, s) && s.time <= to
    ensures Inv(c, Apply(c, s, Tick(to)))
  {
    var s' := Apply(c, s, Tick(to));
    forall id | id in s'.admitted ensures ConnOk(c, s', id) {
      assert ConnOk(c, s, id);
      if id in s'.held && LiveEverywhere(c, s', id) {
        assert LiveEverywhere(c, s, id);
        var k := s.admitted[id];
        if !k.local {
          // the key cannot have outlived its EXPIRE: the entry would be dead on its own clock
          assert HashOk(c, s.time, k.ip, s.redis[k.ip], s.admitted);
          assert s.redis[k.ip].entries[id] <= s.redis[k.ip].expireAt + c.offsets[k.worker];
          assert s'.admitted[id].expiry >= to + c.offsets[k.worker];
        }
      }
    }
  }

  // ----- Pieces of the step proofs -----

  /** Recording one more admission keeps every store well recorded. */
  lemma RecordMoreRedis(c: Config, t: real, redis: Redis, adm: map<ConnId, Conn>, id: ConnId, k: Conn)
    requires RedisOk(c, t, redis, adm) && id !in adm
    ensures RedisOk(c, t, redis, adm[id := k])
  {
    forall ip | ip in redis ensures HashOk(c, t, ip, redis[ip], adm[id := k]) {
      assert HashOk(c, t, ip, redis[ip], adm);
    }
  }

  lemma RecordMoreWorker(c: Config, w: Worker, adm: map<ConnId, Conn>, id: ConnId, k: Conn)
    requires WorkerOk(c, w, adm) && id !in adm
    ensures WorkerOk(c, w, adm[id := k])
  {
    forall ip | ip in w.memory ensures DictOk(c, ip, w.memory[ip], w, adm[id := k]) {
      assert DictOk(c, ip, w.memory[ip], w, adm);
    }
  }

  lemma AddedCardinality(m: Entries, id: ConnId, e: real)
    ensures |m[id := e]| <= |m| + 1
  {
    assert m[id := e].Keys == m.Keys + {id};
  }

  lemma RemovedCardinality(m: Entries, id: ConnId)
    ensures |m - {id}| <= |m|
  {
    SubsetCardinality((m - {id}).Keys, m.Keys);
  }

  /** The caller's clock is within the buffer of every other worker's. */
  ghost predicate ClockOk(c: Config, t: real, now: real) {
    forall v | 0 <= v < |c.offsets| :: now <= t + KEY_EXPIRE_BUFFER + c.offsets[v]
  }

  lemma GrantedHashOk(c: Config, t: real, ip: Ip, h: Hash, now: real, id: ConnId, adm: map<ConnId, Conn>)
    requires HashOk(c, t, ip, h, adm) && ClockOk(c, t, now)
    requires Recorded(adm, ip, id, now + c.ttl, false)
    requires |Unexpired(h.entries, now)| < c.max
    ensures HashOk(c, t, ip, Hash(Unexpired(h.entries, now)[id := now + c.ttl], t + c.ttl + KEY_EXPIRE_BUFFER), adm)
  {
    AddedCardinality(Unexpired(h.entries, now), id, now + c.ttl);
  }

  /** The acquire script keeps every hash within the cap and within its EXPIRE. */
  lemma RedisAcquireOk(c: Config, redis: Redis, adm: map<ConnId, Conn>, t: real, ip: Ip, now: real, id: ConnId)
    requires RedisOk(c, t, redis, adm) && c.max >= 1 && ClockOk(c, t, now)
    requires RedisGrants(redis, t, ip, now, c.max) ==> Recorded(adm, ip, id, now + c.ttl, false)
    ensures RedisOk(c, t, RedisAcquire(redis, t, ip, now, c.ttl, c.max, id, c.ttl + KEY_EXPIRE_BUFFER), adm)
  {
    var seen := HashEntries(redis, t, ip);
    var redis' := RedisAcquire(redis, t, ip, now, c.ttl, c.max, id, c.ttl + KEY_EXPIRE_BUFFER);
    var h := Hash(seen, if seen == map[] then t + c.ttl else redis[ip].expireAt);
    assert HashOk(c, t, ip, h, adm) by {
      if ip in redis { assert HashOk(c, t, ip, redis[ip], adm); }
    }
    if RedisGrants(redis, t, ip, now, c.max) {
      GrantedHashOk(c, t, ip, h, now, id, adm);
    }
    forall p | p in redis' ensures HashOk(c, t, p, redis'[p], adm) {
      if p != ip { assert HashOk(c, t, p, redis[p], adm); }
    }
  }

  /** It drops nothing that the caller's clock still holds live, and stores what it grants. */
  lemma RedisAcquireKeeps(redis: Redis, t: real, ip: Ip, now: real, ttl: real, max: nat, id: ConnId, p: Ip, x: ConnId)
    requires ttl >= 0.0
    ensures var redis' := RedisAcquire(redis, t, ip, now, ttl, max, id, ttl + KEY_EXPIRE_BUFFER);
      && (RedisGrants(redis, t, ip, now, max) ==> id in HashEntries(redis', t, ip))
      && (x in HashEntries(redis, t, p) && HashEntries(redis, t, p)[x] >= now ==> x in HashEntries(redis', t, p))
  {
  }

  lemma MemoryAcquireOk(c: Config, w: Worker, adm: map<ConnId, Conn>, ip: Ip, now: real, id: ConnId)
    requires WorkerOk(c, w, adm) && c.max >= 1
    requires MemoryGrants(w, ip, now, c.max) ==> Recorded(adm, ip, id, now + c.ttl, true)
    ensures WorkerOk(c, MemoryAcquire(w, ip, now, c.ttl, c.max, id), adm)
  {
    var kept := Unexpired(Connections(w.memory, ip), now);
    var w' := MemoryAcquire(w, ip, now, c.ttl, c.max, id);
    AddedCardinality(kept, id, now + c.ttl);
    forall p | p in w'.memory ensures DictOk(c, p, w'.memory[p], w', adm) {
      if p in w.memory { assert DictOk(c, p, w.memory[p], w, adm); }
    }
  }

  /** A connection's store still holds what it held, or the clock has moved past it. */
  lemma StaysStored(c: Config, s: System, s': System, x: ConnId)
    requires |s.workers| == |s'.workers| == |c.offsets| && s'.time >= s.time
    requires x in s.admitted && ConnOk(c, s, x)
    requires x in s'.admitted && s'.admitted[x] == s.admitted[x]
    requires x in s'.held ==> x in s.held
    requires Stored(s, x) && x in s'.held && LiveEverywhere(c, s', x) ==> Stored(s', x)
    ensures ConnOk(c, s', x)
  {
    if LiveEverywhere(c, s', x) { assert LiveEverywhere(c, s, x); }
  }

  /** A stored entry carries the expiry it was admitted with. */
  lemma StoredExpiry(c: Config, s: System, x: ConnId)
    requires Inv(c, s) && x in s.admitted
    ensures ConnOk(c, s, x)
    ensures Stored(s, x) && !s.admitted[x].local ==>
      HashEntries(s.redis, s.time, s.admitted[x].ip)[x] == s.admitted[x].expiry
    ensures Stored(s, x) && s.admitted[x].local ==>
      Connections(s.workers[s.admitted[x].worker].memory, s.admitted[x].ip)[x] == s.admitted[x].expiry
  {
    assert ConnOk(c, s, x);
    var k := s.admitted[x];
    if Stored(s, x) {
      if k.local {
        assert DictOk(c, k.ip, s.workers[k.worker].memory[k.ip], s.workers[k.worker], s.admitted);
      } else {
        assert HashOk(c, s.time, k.ip, s.redis[k.ip], s.admitted);
      }
    }
  }

  lemma SharedConn(c: Config, s: System, w: nat, ip: Ip, id: ConnId, s': System, x: ConnId)
    requires |s.workers| == |c.offsets| && w < |c.offsets| && c.ttl >= 0.0
    requires id !in s.admitted && s' == ApplyShared(c, s, w, ip, id)
    requires x in s.admitted && ConnOk(c, s, x)
    requires Stored(s, x) && !s.admitted[x].local ==>
      HashEntries(s.redis, s.time, s.admitted[x].ip)[x] == s.admitted[x].expiry
    ensures ConnOk(c, s', x)
  {
    var now := s.time + c.offsets[w];
    if LiveEverywhere(c, s', x) && !s.admitted[x].local {
      assert s.admitted[x].expiry >= now;
      RedisAcquireKeeps(s.redis, s.time, ip, now, c.ttl, c.max, id, s.admitted[x].ip, x);
    }
    StaysStored(c, s, s', x);
  }

  lemma SharedNew(c: Config, s: System, w: nat, ip: Ip, id: ConnId, s': System)
    requires |s.workers| == |c.offsets| && w < |c.offsets| && c.ttl >= 0.0
    requires id !in s.admitted && s' == ApplyShared(c, s, w, ip, id)
    ensures id in s'.admitted ==> ConnOk(c, s', id)
  {
    RedisAcquireKeeps(s.redis, s.time, ip, s.time + c.offsets[w], c.ttl, c.max, id, ip, id);
  }

  lemma SharedStores(c: Config, s: System, w: nat, ip: Ip, id: ConnId, s': System)
    requires |s.workers| == |c.offsets| && w < |c.offsets| && Fair(c)
    requires RedisOk(c, s.time, s.redis, s.admitted)
    requires id !in s.admitted && s' == ApplyShared(c, s, w, ip, id)
    ensures RedisOk(c, s'.time, s'.redis, s'.admitted)
  {
    var now := s.time + c.offsets[w];
    assert s'.time == s.time;
    assert s'.redis == RedisAcquire(s.redis, s.time, ip, now, c.ttl, c.max, id, c.ttl + KEY_EXPIRE_BUFFER);
    assert ClockOk(c, s.time, now);
    if RedisGrants(s.redis, s.time, ip, now, c.max) {
      RecordMoreRedis(c, s.time, s.redis, s.admitted, id, s'.admitted[id]);
    }
    assert RedisOk(c, s.time, s.redis, s'.admitted);
    assert RedisGrants(s.redis, s.time, ip, now, c.max) ==> Recorded(s'.admitted, ip, id, now + c.ttl, false);
    RedisAcquireOk(c, s.redis, s'.admitted, s.time, ip, now, id);
  }

  lemma AcquireSharedInv(c: Config, s: System, w: nat, ip: Ip, id: ConnId)
    requires Fair(c) && Inv(c, s) && Enabled(c, s, AcquireShared(w, ip, id))
    ensures Inv(c, Apply(c, s, AcquireShared(w, ip, id)))
  {
    var s' := Apply(c, s, AcquireShared(w, ip, id));
    SharedStores(c, s, w, ip, id, s');
    SharedNew(c, s, w, ip, id, s');
    forall v | 0 <= v < |s'.workers| ensures WorkerOk(c, s'.workers[v], s'.admitted) {
      if id in s'.admitted { RecordMoreWorker(c, s.workers[v], s.admitted, id, s'.admitted[id]); }
    }
    forall x | x in s'.admitted ensures ConnOk(c, s', x) {
      if x in s.admitted {
        StoredExpiry(c, s, x);
        SharedConn(c, s, w, ip, id, s', x);
      }
    }
  }

  lemma LocalConn(c: Config, s: System, w: nat, ip: Ip, id: ConnId, s': System, x: ConnId)
    requires |s.workers| == |c.offsets| && w < |c.offsets| && c.ttl >= 0.0
    requires id !in s.admitted && s' == ApplyLocal(c, s, w, ip, id)
    requires x in s.admitted && ConnOk(c, s, x)
    requires Stored(s, x) && s.admitted[x].local ==>
      Connections(s.workers[s.admitted[x].worker].memory, s.admitted[x].ip)[x] == s.admitted[x].expiry
    ensures ConnOk(c, s', x)
  {
    if LiveEverywhere(c, s', x) {
      assert s.admitted[x].expiry >= s.time + c.offsets[w];
    }
    StaysStored(c, s, s', x);
  }

  lemma LocalStores(c: Config, s: System, w: nat, ip: Ip, id: ConnId, s': System, v: nat)
    requires |s.workers| == |c.offsets| && w < |c.offsets| && v < |c.offsets| && Fair(c)
    requires WorkerOk(c, s.workers[v], s.admitted)
    requires id !in s.admitted && s' == ApplyLocal(c, s, w, ip, id)
    ensures WorkerOk(c, s'.workers[v], s'.admitted)
  {
    var now := s.time + c.offsets[w];
    if MemoryGrants(s.workers[w], ip, now, c.max) {
      RecordMoreWorker(c, s.workers[v], s.admitted, id, s'.admitted[id]);
    }
    assert WorkerOk(c, s.workers[v], s'.admitted);
    if v == w {
      assert s'.workers[v] == MemoryAcquire(s.workers[w], ip, now, c.ttl, c.max, id);
      assert MemoryGrants(s.workers[w], ip, now, c.max) ==> Recorded(s'.admitted, ip, id, now + c.ttl, true);
      MemoryAcquireOk(c, s.workers[w], s'.admitted, ip, now, id);
    } else {
      assert s'.workers[v] == s.workers[v];
    }
  }

  lemma AcquireLocalInv(c: Config, s: System, w: nat, ip: Ip, id: ConnId)
    requires Fair(c) && Inv(c, s) && Enabled(c, s, AcquireLocal(w, ip, id))
    ensures Inv(c, Apply(c, s, AcquireLocal(w, ip, id)))
  {
    var s' := Apply(c, s, AcquireLocal(w, ip, id));
    if id in s'.admitted {
      RecordMoreRedis(c, s.time, s.redis, s.admitted, id, s'.admitted[id]);
    }
    forall v | 0 <= v < |s'.workers| ensures WorkerOk(c, s'.workers[v], s'.admitted) {
      LocalStores(c, s, w, ip, id, s', v);
    }
    forall x | x in s'.admitted ensures ConnOk(c, s', x) {
      if x in s.admitted {
        StoredExpiry(c, s, x);
        LocalConn(c, s, w, ip, id, s', x);
      }
    }
  }

  lemma RedisReleaseOk(c: Config, t: real, redis: Redis, adm: map<ConnId, Conn>, ip: Ip, id: ConnId)
    requires RedisOk(c, t, redis, adm)
    ensures RedisOk(c, t, RedisRelease(redis, t, ip, id), adm)
  {
    var redis' := RedisRelease(redis, t, ip, id);
    forall p | p in redis' ensures HashOk(c, t, p, redis'[p], adm) {
      assert HashOk(c, t, p, redis[p], adm);
      RemovedCardinality(redis[p].entries, id);
    }
  }

  lemma MemoryReleaseOk(c: Config, w: Worker, adm: map<ConnId, Conn>, ip: Ip, id: ConnId)
    requires WorkerOk(c, w, adm)
    // the id is recorded at one IP only
    requires id in adm && adm[id].ip == ip
    ensures WorkerOk(c, MemoryRelease(w, ip, id), adm)
  {
    var w' := MemoryRelease(w, ip, id);
    forall p | p in w'.memory ensures DictOk(c, p, w'.memory[p], w', adm) {
      assert DictOk(c, p, w.memory[p], w, adm);
      RemovedCardinality(w.memory[p], id);
    }
  }

  lemma CloseConn(c: Config, s: System, id: ConnId, reachable: bool, s': System, x: ConnId)
    requires |s.workers| == |c.offsets| && Enabled(c, s, Close(id, reachable))
    requires s' == ApplyClose(s, id, reachable)
    requires x in s.admitted && ConnOk(c, s, x)
    ensures ConnOk(c, s', x)
  {
    StaysStored(c, s, s', x);
  }

  lemma CloseInv(c: Config, s: System, id: ConnId, reachable: bool)
    requires Fair(c) && Inv(c, s) && Enabled(c, s, Close(id, reachable))
    ensures Inv(c, Apply(c, s, Close(id, reachable)))
  {
    var k := s.admitted[id];
    var s' := Apply(c, s, Close(id, reachable));
    RedisReleaseOk(c, s.time, s.redis, s.admitted, k.ip, id);
    MemoryReleaseOk(c, s.workers[k.worker], s.admitted, k.ip, id);
    forall x | x in s'.admitted ensures ConnOk(c, s', x) {
      CloseConn(c, s, id, reachable, s', x);
    }
  }

  lemma CrashInv(c: Config, s: System, w: nat)
    requires Fair(c) && Inv(c, s) && Enabled(c, s, Crash(w))
    ensures Inv(c, Apply(c, s, Crash(w)))
  {
    var s' := Apply(c, s, Crash(w));
    forall x | x in s'.admitted ensures ConnOk(c, s', x) {
      assert ConnOk(c, s, x);
      StaysStored(c, s, s', x);
    }
  }

  lemma StepInv(c: Config, s: System, e: Event)
    requires Fair(c) && Inv(c, s) && Enabled(c, s, e)
    ensures Inv(c, Apply(c, s, e))
  {
    match e
    case Tick(to) => TickInv(c, s, to);
    case AcquireShared(w, ip, id) => AcquireSharedInv(c, s, w, ip, id);
    case AcquireLocal(w, ip, id) => AcquireLocalInv(c, s, w, ip, id);
    case Close(id, reachable) => CloseInv(c, s, id, reachable);
    case Crash(w) => CrashInv(c, s, w);
    case Abandon(id) =>
      forall x | x in s.admitted ensures ConnOk(c, Apply(c, s, e), x) {
        StaysStored(c, s, Apply(c, s, e), x);
      }
  }

  lemma {:induction false} RunInv(c: Config, s: System, es: seq<Event>, s': System)
    requires Fair(c) && Inv(c, s) && Runs(c, s, es, s')
    ensures Inv(c, s')
    decreases |es|
  {
    if es != [] {
      StepInv(c, s, es[0]);
      RunInv(c, Apply(c, s, es[0]), es[1..], s');
    }
  }

  lemma ReachableInv(c: Config, s: System)
    requires Fair(c) && Reachable(c, s)
    ensures Inv(c, s)
  {
    var es :| Runs(c, Init(c), es, s);
    InitInv(c);
    RunInv(c, Init(c), es, s);
  }

  // ----- What every reachable state satisfies -----

  /** Neither store ever holds more than the maximum for one IP, and what is in
      a worker's dictionaries is known to its release path. */
  lemma StoresWithinCap(c: Config, s: System)
    requires Fair(c) && Reachable(c, s)
    ensures forall ip | ip in s.redis :: |s.redis[ip].entries| <= c.max
    ensures forall w, ip | 0 <= w < |s.workers| && ip in s.workers[w].memory :: |s.workers[w].memory[ip]| <= c.max
    ensures forall w, ip, id | 0 <= w < |s.workers| && ip in s.workers[w].memory && id in s.workers[w].memory[ip] ::
      id in s.workers[w].memoryConnIds
  {
    ReachableInv(c, s);
    forall ip | ip in s.redis ensures |s.redis[ip].entries| <= c.max {
      assert HashOk(c, s.time, ip, s.redis[ip], s.admitted);
    }
    forall w, ip | 0 <= w < |s.workers| && ip in s.workers[w].memory
      ensures DictOk(c, ip, s.workers[w].memory[ip], s.workers[w], s.admitted)
    {
      assert WorkerOk(c, s.workers[w], s.admitted);
    }
  }

  /** The admissions of one IP that are neither released nor lost and that no clock
      has yet passed; the sockets may be gone. */
  ghost function LiveConnections(c: Config, s: System, ip: Ip): set<ConnId> {
    set id | id in s.held && id in s.admitted && s.admitted[id].ip == ip && LiveEverywhere(c, s, id)
  }

  ghost function LocalIds(workers: seq<Worker>, ip: Ip): set<ConnId> {
    if workers == [] then {} else Connections(workers[0].memory, ip).Keys + LocalIds(workers[1..], ip)
  }

  lemma {:induction false} LocalIdsBound(workers: seq<Worker>, ip: Ip, max: nat)
    requires forall w | 0 <= w < |workers| :: |Connections(workers[w].memory, ip)| <= max
    ensures |LocalIds(workers, ip)| <= |workers| * max
  {
    if workers != [] {
      LocalIdsBound(workers[1..], ip, max);
      UnionCardinality(Connections(workers[0].memory, ip).Keys, LocalIds(workers[1..], ip));
      assert |workers| * max == |workers[1..]| * max + max;
    }
  }

  lemma {:induction false} LocalIdsHas(workers: seq<Worker>, ip: Ip, w: nat)
    requires w < |workers|
    ensures Connections(workers[w].memory, ip).Keys <= LocalIds(workers, ip)
  {
    if w > 0 {
      LocalIdsHas(workers[1..], ip, w - 1);
    }
  }

  /** The per-IP bound over all stores: one shared hash and one dictionary per worker. */
  lemma LiveWithinCap(c: Config, s: System, ip: Ip)
    requires Fair(c) && Reachable(c, s)
    ensures |LiveConnections(c, s, ip)| <= (|c.offsets| + 1) * c.max
  {
    ReachableInv(c, s);
    StoresWithinCap(c, s);
    var shared := HashEntries(s.redis, s.time, ip).Keys;
    var local := LocalIds(s.workers, ip);
    LocalIdsBound(s.workers, ip, c.max);
    forall id | id in LiveConnections(c, s, ip) ensures id in shared + local {
      assert ConnOk(c, s, id);
      LocalIdsHas(s.workers, ip, s.admitted[id].worker);
    }
    SubsetCardinality(LiveConnections(c, s, ip), shared + local);
    UnionCardinality(shared, local);
  }

  /** No socket outlives its admission by more than the TTL less the clock
      tolerance.  The endpoint closes at 60 s against a TTL of 300 s, which
      leaves 180 s for slow sends before this fails. */
  ghost predicate SocketsPunctual(c: Config, s: System) {
    forall id | id in s.open && id in s.admitted :: s.time - s.admitted[id].acquiredAt <= c.ttl - KEY_EXPIRE_BUFFER
  }

  /** While sockets are punctual the bound is on the sockets really open. */
  lemma OpenSocketsWithinCap(c: Config, s: System, ip: Ip)
    requires Fair(c) && Reachable(c, s) && SocketsPunctual(c, s)
    ensures s.open <= s.admitted.Keys
    ensures |set id | id in s.open && s.admitted[id].ip == ip| <= (|c.offsets| + 1) * c.max
  {
    ReachableInv(c, s);
    forall id | id in s.open ensures LiveEverywhere(c, s, id) {
      assert ConnOk(c, s, id);
    }
    LiveWithinCap(c, s, ip);
    SubsetCardinality((set id | id in s.open && s.admitted[id].ip == ip), LiveConnections(c, s, ip));
  }

  /** The EXPIRE on the key never removes an entry that is live on any worker's clock. */
  lemma ExpireDropsOnlyDead(c: Config, s: System, ip: Ip, id: ConnId, v: nat)
    requires Fair(c) && Reachable(c, s) && v < |c.offsets|
    requires ip in s.redis && s.redis[ip].expireAt < s.time && id in s.redis[ip].entries
    ensures s.redis[ip].entries[id] < s.time + c.offsets[v]
  {
    ReachableInv(c, s);
    assert HashOk(c, s.time, ip, s.redis[ip], s.admitted);
  }

  /** The admissions of an IP through Redis that are at most TTL plus tolerance old. */
  ghost function RecentShared(c: Config, s: System, ip: Ip): set<ConnId> {
    set id | id in s.admitted && s.admitted[id].ip == ip && !s.admitted[id].local
          && s.time - s.admitted[id].acquiredAt <= c.ttl + 60.0
  }

  /** Reclamation: an entry whose release was skipped stops counting after the
      TTL, so when the script decides, it denies a slot only because that many
      recent admissions exist. */
  lemma DeniedOnlyByRecent(c: Config, s: System, w: nat, ip: Ip)
    requires Fair(c) && Reachable(c, s) && w < |c.offsets|
    requires !ScriptRaises(c.unpacks, s.redis, s.time, ip, s.time + c.offsets[w])
    requires !RedisGrants(s.redis, s.time, ip, s.time + c.offsets[w], c.max)
    ensures |RecentShared(c, s, ip)| >= c.max
  {
    ReachableInv(c, s);
    var kept := Unexpired(HashEntries(s.redis, s.time, ip), s.time + c.offsets[w]);
    if ip in s.redis { assert HashOk(c, s.time, ip, s.redis[ip], s.admitted); }
    forall id | id in kept ensures id in RecentShared(c, s, ip) {
      assert ConnOk(c, s, id);
      assert c.offsets[s.admitted[id].worker] - c.offsets[w] <= KEY_EXPIRE_BUFFER;
    }
    assert |kept.Keys| >= c.max;
    SubsetCardinality(kept.Keys, RecentShared(c, s, ip));
  }

  // ----- The same of the in-process store -----

  ghost predicate OwnerOk(s: System, v: nat)
    requires v < |s.workers|
  {
    forall id | id in s.workers[v].memoryConnIds :: id in s.admitted && s.admitted[id].worker == v
  }

  /** Each worker knows only ids that it admitted itself. */
  ghost predicate Owners(s: System) {
    forall v | 0 <= v < |s.workers| :: OwnerOk(s, v)
  }

  lemma StepOwners(c: Config, s: System, e: Event)
    requires |s.workers| == |c.offsets| && Inv(c, s) && Enabled(c, s, e) && Owners(s)
    ensures Owners(Apply(c, s, e))
  {
    hide Inv, Unexpired, RedisAcquire, ReleaseRedis, RedisGrants, MemoryGrants;
    var s' := Apply(c, s, e);
    forall v | 0 <= v < |s'.workers| ensures OwnerOk(s', v) {
      assert OwnerOk(s, v);
    }
  }

  lemma {:induction false} RunOwners(c: Config, s: System, es: seq<Event>, s': System)
    requires Fair(c) && |s.workers| == |c.offsets| && Inv(c, s) && Runs(c, s, es, s') && Owners(s)
    ensures Owners(s')
    decreases |es|
  {
    hide Inv, Enabled, Apply, Owners;
    if es != [] {
      StepInv(c, s, es[0]);
      StepOwners(c, s, es[0]);
      SameWorkers(c, s, es[0]);
      RunOwners(c, Apply(c, s, es[0]), es[1..], s');
    }
  }

  /** The admissions of an IP in this worker's process that are at most TTL old. */
  ghost function RecentLocal(c: Config, s: System, w: nat, ip: Ip): set<ConnId> {
    set id | id in s.admitted && s.admitted[id].ip == ip && s.admitted[id].local && s.admitted[id].worker == w
          && s.time - s.admitted[id].acquiredAt <= c.ttl
  }

  lemma ReachableOwners(c: Config, s: System)
    requires Fair(c) && Reachable(c, s)
    ensures Owners(s)
  {
    hide Inv;
    var es :| Runs(c, Init(c), es, s);
    InitInv(c);
    assert Owners(Init(c));
    RunOwners(c, Init(c), es, s);
  }

  lemma RefusedMeansFull(c: Config, s: System, w: nat, ip: Ip, id: ConnId)
    requires |s.workers| == |c.offsets| && Enabled(c, s, AcquireLocal(w, ip, id))
    requires id !in Apply(c, s, AcquireLocal(w, ip, id)).admitted
    ensures w < |c.offsets| && |Unexpired(Connections(s.workers[w].memory, ip), s.time + c.offsets[w]).Keys| >= c.max
  {
    hide Unexpired;
    var kept := Unexpired(Connections(s.workers[w].memory, ip), s.time + c.offsets[w]);
    assert |kept.Keys| == |kept|;
  }

  lemma KeptAreRecent(c: Config, s: System, w: nat, ip: Ip, kept: Entries)
    requires Inv(c, s) && Owners(s) && w < |c.offsets| == |s.workers|
    requires kept == Unexpired(Connections(s.workers[w].memory, ip), s.time + c.offsets[w])
    ensures kept.Keys <= RecentLocal(c, s, w, ip)
  {
    assert WorkerOk(c, s.workers[w], s.admitted) && OwnerOk(s, w);
    if ip in s.workers[w].memory { assert DictOk(c, ip, s.workers[w].memory[ip], s.workers[w], s.admitted); }
    forall x | x in kept ensures x in RecentLocal(c, s, w, ip) {
      assert ConnOk(c, s, x);
    }
  }

  /** An in-process acquire denies a slot only because the worker itself has admitted
      that many connections of the IP in process, at most TTL ago. */
  lemma LocalDeniedOnlyByRecent(c: Config, s: System, w: nat, ip: Ip, id: ConnId)
    requires Fair(c) && Reachable(c, s) && |s.workers| == |c.offsets| && Enabled(c, s, AcquireLocal(w, ip, id))
    requires id !in Apply(c, s, AcquireLocal(w, ip, id)).admitted
    ensures |RecentLocal(c, s, w, ip)| >= c.max
  {
    hide Apply, Enabled, Inv, Unexpired, Runs;
    ReachableInv(c, s);
    ReachableOwners(c, s);
    RefusedMeansFull(c, s, w, ip, id);
    var kept := Unexpired(Connections(s.workers[w].memory, ip), s.time + c.offsets[w]);
    KeptAreRecent(c, s, w, ip, kept);
    SubsetCardinality(kept.Keys, RecentLocal(c, s, w, ip));
  }

  /** Closing takes the id out of the store that admitted it, whichever that is, and
      no other id out of any store. */
  lemma CloseFrees(c: Config, s: System, id: ConnId, reachable: bool, p: Ip, x: ConnId, v: nat)
    requires |s.workers| == |c.offsets| && Enabled(c, s, Close(id, reachable)) && v < |s.workers|
    ensures var k, s' := s.admitted[id], Apply(c, s, Close(id, reachable));
      && (id in s.workers[k.worker].memoryConnIds ==> id !in Connections(s'.workers[k.worker].memory, k.ip))
      && (id !in s.workers[k.worker].memoryConnIds && reachable ==> id !in HashEntries(s'.redis, s.time, k.ip))
      && (x != id ==>
            && (x in HashEntries(s.redis, s.time, p) <==> x in HashEntries(s'.redis, s.time, p))
            && (x in Connections(s.workers[v].memory, p) <==> x in Connections(s'.workers[v].memory, p)))
  {
  }
}
