/** The endpoint around the limiter: how long a socket can stay open, from its
    duration check and a bound on every single await. */
module SocketRuns {
  import opened Cardinalities
  import opened Limiter
  import L = LimiterRuns

  const MAX_CONNECTION_DURATION := 60.0

  /** What a connection that holds a slot awaits. */
  datatype Pc = ACQUIRING | ACCEPTING | SENDING | HEARTBEAT | SLEEPING | CLOSING | RELEASING

  /** Since when it awaits that, and its `connection_start`. */
  datatype Endpoint = Endpoint(pc: Pc, since: real, start: real)

  datatype System = System(core: L.System, ends: map<ConnId, Endpoint>)

  datatype Event =
    | Core(e: L.Event)
    | Resume(id: ConnId, to: Pc)     // an await returns and the code runs to the next one

  /** Where the top of the loop leads, `elapsed` seconds after the start. */
  predicate Top(elapsed: real, to: Pc) {
    if elapsed >= MAX_CONNECTION_DURATION then to == CLOSING else to in {SENDING, HEARTBEAT, SLEEPING, RELEASING}
  }

  predicate Next(e: Endpoint, now: real, to: Pc) {
    match e.pc
    case ACQUIRING => to == ACCEPTING
    case ACCEPTING => Top(0.0, to)
    case SENDING => to in {HEARTBEAT, SLEEPING, RELEASING}
    case HEARTBEAT => to in {SLEEPING, CLOSING, RELEASING}
    case SLEEPING => Top(now - e.start, to)
    case CLOSING => to == RELEASING
    case RELEASING => false
  }

  /** `d` bounds every await. */
  ghost predicate Enabled(c: L.Config, d: real, s: System, ev: Event) {
    match ev
    case Core(e) =>
      && L.Enabled(c, s.core, e)
      && (e.Tick? ==> forall id | id in s.core.open && id in s.ends :: e.to <= s.ends[id].since + d)
      && (e.Close? ==> e.id in s.ends && s.ends[e.id].pc == RELEASING)
      && (e.Abandon? ==> e.id in s.ends && s.ends[e.id].pc == ACCEPTING)
    case Resume(id, to) => id in s.core.open && id in s.ends && Next(s.ends[id], s.core.time, to)
  }

  ghost function Apply(c: L.Config, d: real, s: System, ev: Event): System
    requires |s.core.workers| == |c.offsets| && Enabled(c, d, s, ev)
  {
    match ev
    case Core(e) =>
      var core := L.Apply(c, s.core, e);
      System(core, if e.AcquireShared? || e.AcquireLocal? then s.ends[e.id := Endpoint(ACQUIRING, s.core.time, s.core.time)] else s.ends)
    case Resume(id, to) =>
      var e := s.ends[id];
      s.(ends := s.ends[id := Endpoint(to, s.core.time, if e.pc == ACCEPTING then s.core.time else e.start)])
  }

  ghost predicate Runs(c: L.Config, d: real, s: System, es: seq<Event>, s': System)
    requires |s.core.workers| == |c.offsets|
    decreases |es|
  {
    if es == [] then s' == s else Enabled(c, d, s, es[0]) && Runs(c, d, Apply(c, d, s, es[0]), es[1..], s')
  }

  ghost function Init(c: L.Config): System {
    System(L.Init(c), map[])
  }

  // ----- How late each await can start -----

  /** At most this long after the admission, for awaits bounded by `d`. */
  function Latest(pc: Pc, d: real): real {
    match pc
    case ACQUIRING => 0.0
    case ACCEPTING => d
    case SENDING => MAX_CONNECTION_DURATION + 2.0 * d
    case HEARTBEAT => MAX_CONNECTION_DURATION + 3.0 * d
    case SLEEPING => MAX_CONNECTION_DURATION + 4.0 * d
    case CLOSING => MAX_CONNECTION_DURATION + 5.0 * d
    case RELEASING => MAX_CONNECTION_DURATION + 6.0 * d
  }

  ghost predicate EndOk(d: real, now: real, acquiredAt: real, e: Endpoint) {
    && e.since <= now <= e.since + d
    && e.since <= acquiredAt + Latest(e.pc, d)
    && (e.pc != ACQUIRING && e.pc != ACCEPTING ==> e.start <= acquiredAt + 2.0 * d)
  }

  ghost predicate Inv(c: L.Config, d: real, s: System) {
    && |s.core.workers| == |c.offsets|
    && L.Reachable(c, s.core)
    && (forall id | id in s.core.open ::
          id in s.core.admitted && id in s.ends && EndOk(d, s.core.time, s.core.admitted[id].acquiredAt, s.ends[id]))
  }

  lemma NextOk(d: real, now: real, acquiredAt: real, e: Endpoint, to: Pc)
    requires d >= 0.0 && EndOk(d, now, acquiredAt, e) && Next(e, now, to)
    ensures EndOk(d, now, acquiredAt, Endpoint(to, now, if e.pc == ACCEPTING then now else e.start))
  {
  }

  lemma OldStays(c: L.Config, s: L.System, e: L.Event, id: ConnId)
    requires |s.workers| == |c.offsets| && L.Enabled(c, s, e) && id in s.admitted
    ensures id in L.Apply(c, s, e).admitted && L.Apply(c, s, e).admitted[id] == s.admitted[id]
    ensures L.Apply(c, s, e).time == (if e.Tick? then e.to else s.time) && s.time <= L.Apply(c, s, e).time
    ensures (e.AcquireShared? || e.AcquireLocal?) ==> e.id != id
  {
  }

  lemma NewConn(c: L.Config, s: L.System, e: L.Event, id: ConnId)
    requires |s.workers| == |c.offsets| && L.Enabled(c, s, e) && id !in s.open && id in L.Apply(c, s, e).open
    ensures (e.AcquireShared? || e.AcquireLocal?) && e.id == id && L.Apply(c, s, e).time == s.time
    ensures id in L.Apply(c, s, e).admitted && L.Apply(c, s, e).admitted[id].acquiredAt == s.time
  {
  }

  lemma StartOk(d: real, now: real)
    requires d >= 0.0
    ensures EndOk(d, now, now, Endpoint(ACQUIRING, now, now))
  {
  }

  lemma CoreStep(c: L.Config, d: real, s: System, e: L.Event)
    requires d >= 0.0 && Inv(c, d, s) && Enabled(c, d, s, Core(e))
    ensures Inv(c, d, Apply(c, d, s, Core(e)))
  {
    hide L.Reachable, Latest;
    var s' := Apply(c, d, s, Core(e));
    L.ReachableStep(c, s.core, e);
    L.SameWorkers(c, s.core, e);
    forall id | id in s'.core.open
      ensures id in s'.core.admitted && id in s'.ends && EndOk(d, s'.core.time, s'.core.admitted[id].acquiredAt, s'.ends[id])
    {
      if id in s.core.open {
        OldStays(c, s.core, e, id);
        assert EndOk(d, s.core.time, s.core.admitted[id].acquiredAt, s.ends[id]);
      } else {
        NewConn(c, s.core, e, id);
        StartOk(d, s.core.time);
      }
    }
  }

  lemma StepInv(c: L.Config, d: real, s: System, ev: Event)
    requires d >= 0.0 && Inv(c, d, s) && Enabled(c, d, s, ev)
    ensures Inv(c, d, Apply(c, d, s, ev))
  {
    hide L.Reachable, L.Enabled, L.Apply, Next;
    match ev {
      case Core(e) => CoreStep(c, d, s, e);
      case Resume(id, to) => NextOk(d, s.core.time, s.core.admitted[id].acquiredAt, s.ends[id], to);
    }
  }

  lemma {:induction false} RunInv(c: L.Config, d: real, s: System, es: seq<Event>, s': System)
    requires d >= 0.0 && |s.core.workers| == |c.offsets| && Inv(c, d, s) && Runs(c, d, s, es, s')
    ensures Inv(c, d, s')
    decreases |es|
  {
    hide Enabled, Apply;
    if es != [] {
      StepInv(c, d, s, es[0]);
      RunInv(c, d, Apply(c, d, s, es[0]), es[1..], s');
    }
  }

  lemma InitInv(c: L.Config, d: real)
    ensures Inv(c, d, Init(c))
  {
    assert L.Runs(c, L.Init(c), [], L.Init(c));
  }

  // ----- Main results -----

  /** With every await bounded by `d`, a socket that holds a slot is at most the
      maximal duration and seven awaits old. */
  lemma SocketAge(c: L.Config, d: real, es: seq<Event>, s: System, id: ConnId)
    requires d >= 0.0 && Runs(c, d, Init(c), es, s) && id in s.core.open
    ensures id in s.core.admitted && s.core.time - s.core.admitted[id].acquiredAt <= 60.0 + 7.0 * d
  {
    InitInv(c, d);
    RunInv(c, d, Init(c), es, s);
    assert EndOk(d, s.core.time, s.core.admitted[id].acquiredAt, s.ends[id]);
  }

  /** With the deployed 300 seconds, awaits of at most 25 seconds suffice for the
      cap to bound the sockets really open. */
  lemma OpenSocketsWithinCap(c: L.Config, d: real, es: seq<Event>, s: System, ip: Ip)
    requires L.Fair(c) && c.ttl == 300.0 && 0.0 <= d <= 25.0 && Runs(c, d, Init(c), es, s)
    ensures s.core.open <= s.core.admitted.Keys
    ensures |set id | id in s.core.open && s.core.admitted[id].ip == ip| <= (|c.offsets| + 1) * c.max
  {
    hide Runs;
    InitInv(c, d);
    RunInv(c, d, Init(c), es, s);
    forall id | id in s.core.open && id in s.core.admitted
      ensures s.core.time - s.core.admitted[id].acquiredAt <= c.ttl - KEY_EXPIRE_BUFFER
    {
      SocketAge(c, d, es, s, id);
    }
    L.OpenSocketsWithinCap(c, s.core, ip);
  }
}
