/** Which ids stay in `_memory_conn_ids`: a worker's set agrees with its
    dictionaries as long as no in-process acquire prunes, and not after one does. */
module LimiterLeaks {
  import opened Limiter
  import opened LimiterRuns

  // ----- When set and dictionaries agree -----

  /** An id is known to the release path exactly if some dictionary holds it. */
  ghost predicate Tight(w: Worker) {
    forall id :: id in w.memoryConnIds <==> exists ip :: ip in w.memory && id in w.memory[ip]
  }

  /** Every id is held for one IP. */
  ghost predicate OneIp(w: Worker) {
    forall p, q, id | p in w.memory && q in w.memory && id in w.memory[p] && id in w.memory[q] :: p == q
  }

  /** An in-process acquire finds an expired entry in the dictionary of its IP. */
  ghost predicate Prunes(w: Worker, ip: Ip, now: real) {
    exists id :: id in Connections(w.memory, ip) && Connections(w.memory, ip)[id] < now
  }

  /** An in-process acquire with a fresh id keeps them in agreement exactly if it prunes nothing. */
  lemma AcquireTightIff(w: Worker, ip: Ip, now: real, ttl: real, max: int, id: ConnId)
    requires Tight(w) && OneIp(w) && id !in w.memoryConnIds
    ensures Tight(MemoryAcquire(w, ip, now, ttl, max, id)) <==> !Prunes(w, ip, now)
  {
    var w' := MemoryAcquire(w, ip, now, ttl, max, id);
    assert forall p | p in w.memory && p != ip :: p in w'.memory && w'.memory[p] == w.memory[p];
    assert ip in w'.memory;
    if Prunes(w, ip, now) {
      var x :| x in Connections(w.memory, ip) && Connections(w.memory, ip)[x] < now;
      assert x in w'.memoryConnIds && x != id;
      assert forall p | p in w'.memory :: x !in w'.memory[p];
    } else {
      assert Unexpired(Connections(w.memory, ip), now) == Connections(w.memory, ip);
      forall x ensures x in w'.memoryConnIds <==> exists p :: p in w'.memory && x in w'.memory[p] {
        if p :| p in w.memory && x in w.memory[p] { assert p in w'.memory && x in w'.memory[p]; }
        if p :| p in w'.memory && x in w'.memory[p] && p != ip { assert p in w.memory && x in w.memory[p]; }
        if x == id && id in w'.memoryConnIds { assert x in w'.memory[ip]; }
      }
    }
  }

  /** Releasing an id that its IP's dictionary holds keeps them in agreement. */
  lemma ReleaseTight(w: Worker, ip: Ip, id: ConnId)
    requires Tight(w) && OneIp(w) && ip in w.memory && id in w.memory[ip]
    ensures Tight(MemoryRelease(w, ip, id))
  {
    var w' := MemoryRelease(w, ip, id);
    forall x ensures x in w'.memoryConnIds <==> exists p :: p in w'.memory && x in w'.memory[p] {
      if p :| p in w.memory && x in w.memory[p] && x != id {
        assert p in w'.memory && x in w'.memory[p] by { if p == ip { assert x in w.memory[ip] - {id}; } }
      }
      if p :| p in w'.memory && x in w'.memory[p] { assert p in w.memory && x in w.memory[p]; }
    }
  }

  /** A release discards its id exactly if the IP still has a dictionary: else it
      returns early and the id stays. */
  lemma ReleaseDiscardsIff(w: Worker, ip: Ip, id: ConnId)
    requires id in w.memoryConnIds
    ensures id !in MemoryRelease(w, ip, id).memoryConnIds <==> ip in w.memory
  {
  }

  // ----- Over steps and runs -----

  /** The step is an in-process acquire of worker `v` that prunes. */
  ghost predicate StepPrunes(c: Config, s: System, e: Event, v: nat)
    requires |s.workers| == |c.offsets| && v < |s.workers|
  {
    e.AcquireLocal? && e.worker == v && Prunes(s.workers[v], e.ip, s.time + c.offsets[v])
  }

  lemma InvOneIp(c: Config, s: System, v: nat)
    requires Inv(c, s) && v < |s.workers|
    ensures OneIp(s.workers[v]) && forall id | id in s.workers[v].memoryConnIds :: id in s.admitted
  {
    var w := s.workers[v];
    assert WorkerOk(c, w, s.admitted);
    forall p, q, id | p in w.memory && q in w.memory && id in w.memory[p] && id in w.memory[q] ensures p == q {
      assert DictOk(c, p, w.memory[p], w, s.admitted) && DictOk(c, q, w.memory[q], w, s.admitted);
    }
  }

  /** What a step makes of one worker. */
  lemma WorkerAfter(c: Config, s: System, e: Event, v: nat)
    requires Inv(c, s) && Enabled(c, s, e) && v < |s.workers|
    ensures |s.workers| == |c.offsets| && v < |Apply(c, s, e).workers|
    ensures e.Close? ==> e.id in s.admitted
    ensures e.AcquireLocal? ==> e.id !in s.admitted
    ensures Apply(c, s, e).workers[v]
      == if e.AcquireLocal? && e.worker == v then MemoryAcquire(s.workers[v], e.ip, s.time + c.offsets[v], c.ttl, c.max, e.id)
         else if e.Close? && s.admitted[e.id].worker == v && e.id in s.workers[v].memoryConnIds then
           MemoryRelease(s.workers[v], s.admitted[e.id].ip, e.id)
         else if e == Crash(v) then Worker(map[], {})
         else s.workers[v]
  {
    hide MemoryAcquire, MemoryRelease;
  }

  lemma EmptyTight()
    ensures Tight(Worker(map[], {}))
  {
  }

  lemma CloseTight(c: Config, s: System, id: ConnId, v: nat)
    requires Inv(c, s) && v < |s.workers| && Tight(s.workers[v]) && OneIp(s.workers[v])
    requires id in s.workers[v].memoryConnIds && id in s.admitted
    ensures Tight(MemoryRelease(s.workers[v], s.admitted[id].ip, id))
  {
    var w := s.workers[v];
    var p :| p in w.memory && id in w.memory[p];
    assert WorkerOk(c, w, s.admitted) && DictOk(c, p, w.memory[p], w, s.admitted);
    ReleaseTight(w, p, id);
  }

  /** In every reachable state, a step keeps a worker tight exactly if it is not a
      pruning in-process acquire of that worker. */
  lemma StepTightIff(c: Config, s: System, e: Event, v: nat)
    requires Fair(c) && Inv(c, s) && Enabled(c, s, e) && v < |s.workers| && Tight(s.workers[v])
    ensures Tight(Apply(c, s, e).workers[v]) <==> !StepPrunes(c, s, e, v)
  {
    hide Tight, OneIp, Prunes, MemoryAcquire, MemoryRelease, Inv, Enabled, Apply;
    InvOneIp(c, s, v);
    WorkerAfter(c, s, e, v);
    match e {
      case AcquireLocal(w, ip, id) =>
        if w == v { AcquireTightIff(s.workers[v], ip, s.time + c.offsets[v], c.ttl, c.max, id); }
      case Close(id, reachable) =>
        if s.admitted[id].worker == v && id in s.workers[v].memoryConnIds { CloseTight(c, s, id, v); }
      case Crash(w) => EmptyTight();
      case _ =>
    }
  }

  /** No step of the run is a pruning in-process acquire. */
  ghost predicate NeverPrunes(c: Config, s: System, es: seq<Event>)
    requires |s.workers| == |c.offsets|
    decreases |es|
  {
    es == [] ||
    (Enabled(c, s, es[0]) && (forall v | 0 <= v < |s.workers| :: !StepPrunes(c, s, es[0], v))
     && NeverPrunes(c, Apply(c, s, es[0]), es[1..]))
  }

  ghost predicate AllTight(s: System) {
    forall v | 0 <= v < |s.workers| :: Tight(s.workers[v])
  }

  lemma {:induction false} RunTight(c: Config, s: System, es: seq<Event>, s': System)
    requires Fair(c) && |s.workers| == |c.offsets| && Inv(c, s) && AllTight(s) && Runs(c, s, es, s') && NeverPrunes(c, s, es)
    ensures AllTight(s')
    decreases |es|
  {
    hide Tight, Apply, Enabled, StepPrunes, Inv;
    if es != [] {
      StepInv(c, s, es[0]);
      SameWorkers(c, s, es[0]);
      forall v | 0 <= v < |s.workers| ensures Tight(Apply(c, s, es[0]).workers[v]) { StepTightIff(c, s, es[0], v); }
      RunTight(c, Apply(c, s, es[0]), es[1..], s');
    }
  }

  /** From the start, without pruning in-process acquires, `_memory_conn_ids` never
      outgrows `_memory`. */
  lemma TightWithoutPruning(c: Config, es: seq<Event>, s: System)
    requires Fair(c) && Runs(c, Init(c), es, s) && NeverPrunes(c, Init(c), es)
    ensures AllTight(s)
  {
    InitInv(c);
    EmptyTight();
    RunTight(c, Init(c), es, s);
  }

  /** An id in the set whose socket is gone, so that nobody will release it. */
  ghost predicate LeftBehind(s: System, v: nat, id: ConnId) {
    v < |s.workers| && id in s.workers[v].memoryConnIds && id in s.admitted && id !in s.open
  }

  lemma LeftStep(c: Config, s: System, e: Event, v: nat, id: ConnId)
    requires |s.workers| == |c.offsets| && LeftBehind(s, v, id) && Enabled(c, s, e) && e != Crash(v)
    ensures LeftBehind(Apply(c, s, e), v, id)
  {
  }

  /** It stays until the worker crashes, whatever happens. */
  lemma {:induction false} LeftForEver(c: Config, s: System, es: seq<Event>, s': System, v: nat, id: ConnId)
    requires |s.workers| == |c.offsets| && LeftBehind(s, v, id) && Runs(c, s, es, s') && Crash(v) !in es
    ensures LeftBehind(s', v, id)
    decreases |es|
  {
    hide Apply, Enabled, LeftBehind;
    if es != [] {
      SameWorkers(c, s, es[0]);
      LeftStep(c, s, es[0], v, id);
      LeftForEver(c, Apply(c, s, es[0]), es[1..], s', v, id);
    }
  }

  // ----- The converse of the bookkeeping invariant fails without bound -----

  function Name(k: nat): ConnId {
    seq(k, _ => 'c')
  }

  ghost predicate Short(ids: set<ConnId>, n: nat) {
    forall id | id in ids :: |id| < n
  }

  ghost predicate Leaked(c: Config, s: System, k: nat) {
    && |s.workers| == |c.offsets| > 0
    && s.workers[0].memory == map[]
    && |s.workers[0].memoryConnIds| == k
    && Short(s.admitted.Keys, 2 * k) && Short(s.workers[0].memoryConnIds, 2 * k)
  }

  lemma AcquireAlone(w: Worker, ip: Ip, now: real, ttl: real, max: nat, id: ConnId)
    requires max >= 1 && w.memory.Keys <= {ip} && Unexpired(Connections(w.memory, ip), now) == map[]
    ensures MemoryGrants(w, ip, now, max)
    ensures MemoryAcquire(w, ip, now, ttl, max, id) == Worker(map[ip := map[id := now + ttl]], w.memoryConnIds + {id})
  {
    assert w.memory[ip := map[id := now + ttl]] == map[ip := map[id := now + ttl]];
  }

  /** An in-process admission with nothing live in the dictionary of its IP. */
  lemma LocalStep(c: Config, s: System, ip: Ip, id: ConnId) returns (es: seq<Event>, s': System)
    requires Fair(c) && |s.workers| == |c.offsets| > 0 && id !in s.admitted
    requires s.workers[0].memory.Keys <= {ip}
    requires Unexpired(Connections(s.workers[0].memory, ip), s.time + c.offsets[0]) == map[]
    ensures Runs(c, s, es, s')
    ensures |s'.workers| == |s.workers| && s'.workers[0].memoryConnIds == s.workers[0].memoryConnIds + {id}
    ensures s'.workers[0].memory == map[ip := map[id := s.time + c.offsets[0] + c.ttl]]
    ensures s'.admitted == s.admitted[id := Conn(ip, 0, true, s.time, s.time + c.offsets[0] + c.ttl)]
    ensures s'.open == s.open + {id} && s'.time == s.time
  {
    hide MemoryAcquire, MemoryGrants, Unexpired, Runs;
    AcquireAlone(s.workers[0], ip, s.time + c.offsets[0], c.ttl, c.max, id);
    es, s' := [AcquireLocal(0, ip, id)], Apply(c, s, AcquireLocal(0, ip, id));
    OneStep(c, s, AcquireLocal(0, ip, id));
  }

  /** A handshake that fails after an in-process admission, and the time until its entry has expired. */
  lemma AbandonStep(c: Config, s: System, id: ConnId) returns (es: seq<Event>)
    requires Fair(c) && |s.workers| == |c.offsets| && id in s.open
    ensures Runs(c, s, es, s.(open := s.open - {id}, time := s.time + c.ttl + 1.0))
  {
    var s1 := s.(open := s.open - {id});
    var s2 := s1.(time := s.time + c.ttl + 1.0);
    es := [Abandon(id), Tick(s.time + c.ttl + 1.0)];
    assert Runs(c, s2, [], s2);
    assert Runs(c, s1, es[1..], s2);
  }

  /** Closing the last in-process connection of an IP. */
  lemma CloseStep(c: Config, s: System, ip: Ip, id: ConnId) returns (es: seq<Event>, s': System)
    requires |s.workers| == |c.offsets| > 0
    requires id in s.open && id in s.admitted && s.admitted[id].worker == 0 && s.admitted[id].ip == ip
    requires s.workers[0].memory.Keys == {ip} && s.workers[0].memory[ip].Keys == {id}
    requires id in s.workers[0].memoryConnIds
    ensures Runs(c, s, es, s') && |s'.workers| == |s.workers| && s'.admitted == s.admitted
    ensures s'.workers[0].memory == map[] && s'.workers[0].memoryConnIds == s.workers[0].memoryConnIds - {id}
  {
    es, s' := [Close(id, false)], ApplyClose(s, id, false);
    assert s.workers[0].memory[ip] - {id} == map[];
    assert s.workers[0].memory - {ip} == map[];
    assert Runs(c, s', [], s');
  }

  lemma AllExpired(memory: map<Ip, Entries>, ip: Ip, now: real)
    requires ip in memory && forall id | id in memory[ip] :: memory[ip][id] < now
    ensures Unexpired(Connections(memory, ip), now) == map[]
  {
  }

  /** A handshake that fails after an in-process admission, up to the expiry of its entry. */
  lemma LeaveBehind(c: Config, s: System, ip: Ip, a: ConnId) returns (es: seq<Event>, s': System)
    requires Fair(c) && |s.workers| == |c.offsets| > 0 && a !in s.admitted && s.workers[0].memory == map[]
    ensures Runs(c, s, es, s') && |s'.workers| == |s.workers|
    ensures s'.workers[0].memory.Keys == {ip} && Unexpired(Connections(s'.workers[0].memory, ip), s'.time + c.offsets[0]) == map[]
    ensures s'.workers[0].memoryConnIds == s.workers[0].memoryConnIds + {a}
    ensures s'.admitted.Keys == s.admitted.Keys + {a}
  {
    var e1, s1 := LocalStep(c, s, ip, a);
    var e2 := AbandonStep(c, s1, a);
    s' := s1.(open := s1.open - {a}, time := s1.time + c.ttl + 1.0);
    RunsConcat(c, s, e1, s1, e2, s');
    es := e1 + e2;
    AllExpired(s'.workers[0].memory, ip, s'.time + c.offsets[0]);
  }

  lemma Lonely(memory: map<Ip, Entries>, ip: Ip, id: ConnId, expiry: real)
    requires memory == map[ip := map[id := expiry]]
    ensures memory.Keys == {ip} && memory[ip].Keys == {id}
  {
  }

  lemma AddedKeys(admitted: map<ConnId, Conn>, id: ConnId, k: Conn)
    ensures admitted[id := k].Keys == admitted.Keys + {id}
  {
  }

  lemma AddedRemoved(ids: set<ConnId>, id: ConnId)
    requires id !in ids
    ensures ids + {id} - {id} == ids
  {
  }

  /** One more in-process connection of that IP, opened and closed. */
  lemma OpenAndClose(c: Config, s: System, ip: Ip, b: ConnId) returns (es: seq<Event>, s': System)
    requires Fair(c) && |s.workers| == |c.offsets| > 0 && b !in s.admitted && b !in s.workers[0].memoryConnIds
    requires s.workers[0].memory.Keys == {ip} && Unexpired(Connections(s.workers[0].memory, ip), s.time + c.offsets[0]) == map[]
    ensures Runs(c, s, es, s') && |s'.workers| == |s.workers|
    ensures s'.workers[0].memory == map[] && s'.workers[0].memoryConnIds == s.workers[0].memoryConnIds
    ensures s'.admitted.Keys == s.admitted.Keys + {b}
  {
    hide Runs, Unexpired, Fair, Connections;
    var e1, s1 := LocalStep(c, s, ip, b);
    Lonely(s1.workers[0].memory, ip, b, s.time + c.offsets[0] + c.ttl);
    AddedKeys(s.admitted, b, Conn(ip, 0, true, s.time, s.time + c.offsets[0] + c.ttl));
    var e2;
    e2, s' := CloseStep(c, s1, ip, b);
    AddedRemoved(s.workers[0].memoryConnIds, b);
    RunsConcat(c, s, e1, s1, e2, s');
    es := e1 + e2;
  }

  lemma OneMoreName(ids: set<ConnId>, a: ConnId, n: nat)
    requires |a| == n && Short(ids, n)
    ensures |ids + {a}| == |ids| + 1
  {
    assert a !in ids;
  }

  lemma ShortMore(ids: set<ConnId>, a: ConnId, n: nat, m: nat)
    requires Short(ids, n) && n <= m && |a| < m
    ensures Short(ids + {a}, m)
  {
  }

  lemma LeakedIds(ids: set<ConnId>, ids': set<ConnId>, a: ConnId, k: nat)
    requires |ids| == k && Short(ids, 2 * k) && |a| == 2 * k && ids' == ids + {a}
    ensures |ids'| == k + 1 && Short(ids', 2 * (k + 1))
  {
    OneMoreName(ids, a, 2 * k);
    ShortMore(ids, a, 2 * k, 2 * (k + 1));
  }

  lemma LeakedNames(ids: set<ConnId>, ids1: set<ConnId>, ids': set<ConnId>, a: ConnId, b: ConnId, k: nat)
    requires Short(ids, 2 * k) && |a| == 2 * k && |b| == 2 * k + 1 && ids1 == ids + {a} && ids' == ids1 + {b}
    ensures Short(ids', 2 * (k + 1))
  {
    ShortMore(ids, a, 2 * k, 2 * k + 1);
    ShortMore(ids1, b, 2 * k + 1, 2 * (k + 1));
  }

  lemma StillLeaked(c: Config, s: System, k: nat, s1: System, s': System, a: ConnId, b: ConnId)
    requires Leaked(c, s, k) && |s1.workers| == |s'.workers| == |c.offsets| && |a| == 2 * k && |b| == 2 * k + 1
    requires s1.workers[0].memoryConnIds == s.workers[0].memoryConnIds + {a}
    requires s1.admitted.Keys == s.admitted.Keys + {a}
    requires s'.workers[0].memory == map[] && s'.workers[0].memoryConnIds == s1.workers[0].memoryConnIds
    requires s'.admitted.Keys == s1.admitted.Keys + {b}
    ensures Leaked(c, s', k + 1)
  {
    hide Short;
    LeakedIds(s.workers[0].memoryConnIds, s1.workers[0].memoryConnIds, a, k);
    LeakedNames(s.admitted.Keys, s1.admitted.Keys, s'.admitted.Keys, a, b, k);
  }

  /** An abandoned handshake, followed by one more connection once the entry
      has expired, leaves its id behind for ever. */
  lemma LeakOnce(c: Config, s: System, ip: Ip, k: nat) returns (es: seq<Event>, s': System)
    requires Fair(c) && Leaked(c, s, k)
    ensures Runs(c, s, es, s') && Leaked(c, s', k + 1)
  {
    var a, b := Name(2 * k), Name(2 * k + 1);
    var e1, s1 := LeaveBehind(c, s, ip, a);
    assert |a| != |b|;
    var e2;
    e2, s' := OpenAndClose(c, s1, ip, b);
    es := e1 + e2;
    RunsConcat(c, s, e1, s1, e2, s');
    StillLeaked(c, s, k, s1, s', a, b);
  }

  /** `_memory_conn_ids` can grow without bound while `_memory` is empty. */
  lemma {:induction false} ConnIdsUnbounded(c: Config, ip: Ip, k: nat) returns (s: System)
    requires Fair(c) && |c.offsets| > 0
    ensures Reachable(c, s) && Leaked(c, s, k)
  {
    if k == 0 {
      s := Init(c);
      assert Runs(c, Init(c), [], s);
    } else {
      var t := ConnIdsUnbounded(c, ip, k - 1);
      var fs;
      fs, s := LeakOnce(c, t, ip, k - 1);
      var es :| Runs(c, Init(c), es, t);
      RunsConcat(c, Init(c), es, t, fs, s);
    }
  }
}
