/** What follows from a script that cannot prune: from the first expiry in a hash
    until its key expires, Redis decides nothing for that IP. */
module LimiterStuck {
  import opened Limiter
  import opened LimiterRuns

  /** The hash holds an entry that every worker's clock has passed. */
  ghost predicate Stuck(c: Config, s: System, ip: Ip, id: ConnId) {
    && id in HashEntries(s.redis, s.time, ip) && id in s.admitted
    && forall v | 0 <= v < |c.offsets| :: HashEntries(s.redis, s.time, ip)[id] < s.time + c.offsets[v]
  }

  /** The same key, with some fields fewer. */
  ghost predicate Shrinks(s: System, s': System, ip: Ip) {
    && ip in s.redis && ip in s'.redis && s'.redis[ip].expireAt == s.redis[ip].expireAt
    && forall x | x in s'.redis[ip].entries :: x in s.redis[ip].entries && s'.redis[ip].entries[x] == s.redis[ip].entries[x]
  }

  /** No acquire script decides for a stuck hash. */
  lemma StuckRaises(c: Config, s: System, ip: Ip, id: ConnId)
    requires !c.unpacks && Stuck(c, s, ip, id)
    ensures forall w | 0 <= w < |c.offsets| :: ScriptRaises(c.unpacks, s.redis, s.time, ip, s.time + c.offsets[w])
  {
  }

  /** A step that neither releases the dead entry nor passes the key's EXPIRE
      leaves the hash stuck, and takes fields away at most. */
  lemma StuckStep(c: Config, s: System, e: Event, ip: Ip, id: ConnId)
    requires !c.unpacks && |s.workers| == |c.offsets| && Enabled(c, s, e) && Stuck(c, s, ip, id)
    requires !(e.Close? && e.id == id) && Apply(c, s, e).time <= s.redis[ip].expireAt
    ensures !(e.AcquireShared? && e.ip == ip)
    ensures Stuck(c, Apply(c, s, e), ip, id) && Shrinks(s, Apply(c, s, e), ip)
  {
    StuckRaises(c, s, ip, id);
  }

  lemma ShrinksOn(s: System, t: System, u: System, ip: Ip)
    requires Shrinks(s, t, ip) && Shrinks(t, u, ip)
    ensures Shrinks(s, u, ip)
  {
  }

  lemma ShrinksSelf(c: Config, s: System, ip: Ip, id: ConnId)
    requires Stuck(c, s, ip, id)
    ensures Shrinks(s, s, ip)
  {
  }

  /** Time only moves forward. */
  lemma {:induction false} TimeGrows(c: Config, s: System, es: seq<Event>, s': System)
    requires |s.workers| == |c.offsets| && Runs(c, s, es, s')
    ensures s.time <= s'.time
    decreases |es|
  {
    if es != [] { TimeGrows(c, Apply(c, s, es[0]), es[1..], s'); }
  }

  lemma KeptExpiry(s: System, s': System, ip: Ip)
    requires Shrinks(s, s', ip)
    ensures ip in s'.redis && s'.redis[ip].expireAt == s.redis[ip].expireAt
  {
  }

  /** Along any run up to the key's EXPIRE in which the dead entry is not released,
      no acquire of that IP is decided by Redis, and its hash only loses fields. */
  lemma {:induction false} StuckUntilExpire(c: Config, s: System, es: seq<Event>, s': System, ip: Ip, id: ConnId)
    requires !c.unpacks && |s.workers| == |c.offsets| && Runs(c, s, es, s') && Stuck(c, s, ip, id)
    requires (forall e | e in es :: !(e.Close? && e.id == id)) && s'.time <= s.redis[ip].expireAt
    ensures forall e | e in es :: !(e.AcquireShared? && e.ip == ip)
    ensures Stuck(c, s', ip, id) && Shrinks(s, s', ip)
    decreases |es|
  {
    ShrinksSelf(c, s, ip, id);
    if es != [] {
      var t := Apply(c, s, es[0]);
      SameWorkers(c, s, es[0]);
      TimeGrows(c, t, es[1..], s');
      hide Apply, Enabled, Stuck, Shrinks;
      StuckStep(c, s, es[0], ip, id);
      KeptExpiry(s, t, ip);
      StuckUntilExpire(c, t, es[1..], s', ip, id);
      ShrinksOn(s, t, s', ip);
    }
  }

  /** Such a hash is reached: one connection through Redis whose release is never
      run, looked at 30 seconds after its 300 have passed. */
  lemma StuckReached(ip: Ip, id: ConnId) returns (c: Config, s: System)
    ensures Fair(c) && !c.unpacks && Reachable(c, s) && Stuck(c, s, ip, id) && s.time < s.redis[ip].expireAt
  {
    c := Config(5, 300.0, [0.0], false);
    var e1, e2 := AcquireShared(0, ip, id), Tick(330.0);
    assert Unexpired(map[], 0.0) == map[];
    var s1 := Apply(c, Init(c), e1);
    s := Apply(c, s1, e2);
    OneStep(c, Init(c), e1);
    OneStep(c, s1, e2);
    RunsConcat(c, Init(c), [e1], s1, [e2], s);
    assert s1.redis[ip] == Hash(map[id := 300.0], 360.0);
  }
}
