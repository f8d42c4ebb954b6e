/** Every interleaving of triggers, background runs, cache evictions and status
    sockets on one event loop, without cancellation. */
module AnalysisRuns {
  import opened Options
  import opened Pipeline

  type Id = string
  type SocketId = nat

  const MAX_CONCURRENT_ANALYSES := 5
  const MAX_BACKGROUND_TASKS := 100

  /** A socket remembers the status it sent last; `sentAt` keeps for the statements
      which entry of the history each sent status was. */
  datatype Socket = Socket(id: Id, phase: Phase, lastSent: Option<Status>, sentAt: seq<nat>)

  datatype Phase =
    | POLLING     // asleep, or about to look
    | SENDING     // the send of `lastSent` is awaited
    | ENDED       // left the loop on a terminal status
    | DROPPED     // not found, duration limit, disconnected

  /** `history` records, for the statements, every status a run showed at a suspension. */
  datatype System = System(
    runs: map<Id, Run>,
    tasks: set<Id>,
    free: int,
    sockets: map<SocketId, Socket>,
    history: map<Id, seq<Status>>)

  datatype Event =
    | Trigger(id: Id)
    | Resume(id: Id, outcome: Outcome)     // the first one enters the semaphore
    | Evict(id: Id)                        // the TTL cache drops the status
    | Connect(socket: SocketId, id: Id)
    | Poll(socket: SocketId)
    | Sent(socket: SocketId)               // the awaited send returned
    | Drop(socket: SocketId)

  const INIT := System(map[], {}, MAX_CONCURRENT_ANALYSES, map[], map[])

  ghost predicate Enabled(s: System, e: Event) {
    match e
    case Trigger(id) => id !in s.runs     // ids are fresh
    case Resume(id, o) =>
      id in s.runs && Suspended(s.runs[id].pc) && Possible(s.runs[id].pc, o) && (s.runs[id].pc == SEMAPHORE ==> s.free > 0)
    case Evict(id) => id in s.runs
    case Connect(k, id) => k !in s.sockets
    case Poll(k) => k in s.sockets && s.sockets[k].phase == POLLING
    case Sent(k) => k in s.sockets && s.sockets[k].phase == SENDING && s.sockets[k].id in s.runs
    case Drop(k) => k in s.sockets && s.sockets[k].phase in {POLLING, SENDING}
  }

  datatype Answer = Accepted | Duplicate | Full

  /** The guard of the trigger, under its lock. */
  function Guard(tasks: set<Id>, id: Id): Answer {
    if id in tasks then Duplicate else if |tasks| >= MAX_BACKGROUND_TASKS then Full else Accepted
  }

  ghost function ApplyTrigger(s: System, id: Id): System {
    var accepted := Guard(s.tasks, id) == Accepted;
    var run := Run(if accepted then SEMAPHORE else REJECTED, PENDING_STATUS, true, false, false, false);
    s.(runs := s.runs[id := run],
       tasks := if accepted then s.tasks + {id} else s.tasks,
       history := s.history[id := [PENDING_STATUS]])
  }

  ghost function Extend(h: seq<Status>, now: Status): seq<Status> {
    if h != [] && h[|h| - 1] == now then h else h + [now]
  }

  ghost function ApplyResume(s: System, id: Id, o: Outcome): System
    requires Enabled(s, Resume(id, o))
  {
    var run := Advance(s.runs[id], o);
    var ends := run.pc == FINISHED;
    System(s.runs[id := run],
           if ends then s.tasks - {id} else s.tasks,
           s.free - (if s.runs[id].pc == SEMAPHORE then 1 else 0) + (if ends then 1 else 0),
           s.sockets,
           s.history[id := Extend(if id in s.history then s.history[id] else [], run.status)])
  }

  /** Looks the status up; a new one is sent, a terminal one ends the loop. */
  ghost function AfterPoll(s: System, k: Socket): Socket {
    if k.id !in s.runs || !s.runs[k.id].published then k.(phase := DROPPED)
    else
      var now := s.runs[k.id].status;
      if k.lastSent != Some(now) then
        Socket(k.id, SENDING, Some(now), k.sentAt + [if k.id in s.history && s.history[k.id] != [] then |s.history[k.id]| - 1 else 0])
      else if Terminal(now) then k.(phase := ENDED)
      else k
  }

  /** Behind the send the loop looks at the same status object, not at what it sent. */
  ghost function AfterSent(s: System, k: Socket): Socket
    requires k.id in s.runs
  {
    if Terminal(s.runs[k.id].status) then k.(phase := ENDED) else k.(phase := POLLING)
  }

  ghost function Apply(s: System, e: Event): System
    requires Enabled(s, e)
  {
    match e
    case Trigger(id) => ApplyTrigger(s, id)
    case Resume(id, o) => ApplyResume(s, id, o)
    case Evict(id) => s.(runs := s.runs[id := s.runs[id].(published := false)])
    case Connect(k, id) => s.(sockets := s.sockets[k := Socket(id, POLLING, None, [])])
    case Poll(k) => s.(sockets := s.sockets[k := AfterPoll(s, s.sockets[k])])
    case Sent(k) => s.(sockets := s.sockets[k := AfterSent(s, s.sockets[k])])
    case Drop(k) => s.(sockets := s.sockets[k := s.sockets[k].(phase := DROPPED)])
  }

  ghost predicate Runs(s: System, es: seq<Event>, s': System)
    decreases |es|
  {
    if es == [] then s' == s else Enabled(s, es[0]) && Runs(Apply(s, es[0]), es[1..], s')
  }

  ghost predicate Reachable(s: System) {
    exists es :: Runs(INIT, es, s)
  }

  // ----- The inductive invariant -----

  ghost predicate StatusOk(s: Status) {
    && (s.progressPct == 100.0 <==> s.status == COMPLETED)
    && s.stepsCompleted <= PIPELINE_STEPS
    && (s.status == COMPLETED ==> s.stepsCompleted == PIPELINE_STEPS)
    && (s.status == FAILED ==> s.errorMessage == Some(NO_REPORT))
  }

  ghost predicate HistoryOk(h: seq<Status>, now: Status) {
    && h != [] && h[|h| - 1] == now
    && (forall i | 0 <= i < |h| :: StatusOk(h[i]))
    && (forall i, j | 0 <= i < j < |h| :: Forward(h[i], h[j]))
    && (forall i | 0 < i < |h| :: h[i - 1] != h[i])
  }

  ghost predicate RunsOk(s: System) {
    forall id | id in s.runs :: RunOk(s.runs[id]) && id in s.history && HistoryOk(s.history[id], s.runs[id].status)
  }

  ghost predicate TasksOk(s: System) {
    && (forall id | id in s.tasks :: id in s.runs)
    && (forall id | id in s.runs :: id in s.tasks <==> Suspended(s.runs[id].pc))
    && |s.tasks| <= MAX_BACKGROUND_TASKS
  }

  /** The runs that hold a slot of the semaphore. */
  ghost function Inside(s: System): set<Id> {
    set id | id in s.runs && Suspended(s.runs[id].pc) && s.runs[id].pc != SEMAPHORE
  }

  ghost predicate SlotsOk(s: System) {
    s.free >= 0 && s.free + |Inside(s)| == MAX_CONCURRENT_ANALYSES
  }

  /** What was sent is a subsequence of the history without equal neighbours. */
  ghost predicate SentOk(k: Socket, h: seq<Status>) {
    && (forall i | 0 <= i < |k.sentAt| :: k.sentAt[i] < |h|)
    && (forall i, j | 0 <= i < j < |k.sentAt| :: k.sentAt[i] < k.sentAt[j])
    && (forall i | 0 < i < |k.sentAt| :: h[k.sentAt[i - 1]] != h[k.sentAt[i]])
    && k.lastSent == if k.sentAt == [] then None else Some(h[k.sentAt[|k.sentAt| - 1]])
  }

  ghost predicate SocketOk(s: System, k: Socket) {
    if k.id in s.runs && k.id in s.history then
      && SentOk(k, s.history[k.id])
      && (k.phase == SENDING ==> k.lastSent != None)
      && (k.phase == POLLING && k.lastSent != None ==> !Terminal(k.lastSent.value))
      && (k.phase == ENDED ==> k.lastSent != None && Terminal(s.runs[k.id].status))
    else k.sentAt == [] && k.lastSent == None && k.phase in {POLLING, DROPPED}
  }

  ghost predicate SocketsOk(s: System) {
    forall k | k in s.sockets :: SocketOk(s, s.sockets[k])
  }

  ghost predicate Inv(s: System) {
    RunsOk(s) && TasksOk(s) && SlotsOk(s) && SocketsOk(s)
  }

  // ----- One step of one run -----

  lemma RunStatusOk(r: Run)
    requires RunOk(r)
    ensures StatusOk(r.status)
  {
  }

  lemma ExtendOk(h: seq<Status>, before: Status, now: Status)
    requires HistoryOk(h, before) && Forward(before, now) && StatusOk(now)
    ensures HistoryOk(Extend(h, now), now) && h <= Extend(h, now)
  {
    var h' := Extend(h, now);
    forall i, j | 0 <= i < j < |h'| ensures Forward(h'[i], h'[j]) {
      if j == |h| && i < |h| - 1 { assert Forward(h[i], h[|h| - 1]); }
    }
  }

  lemma HistoryNonEmpty(h: seq<Status>, now: Status)
    requires HistoryOk(h, now)
    ensures h != [] && h[|h| - 1] == now
  {
  }

  lemma ResumeRuns(s: System, id: Id, o: Outcome, s': System)
    requires Inv(s) && Enabled(s, Resume(id, o)) && s' == ApplyResume(s, id, o)
    ensures RunsOk(s') && s.history[id] <= s'.history[id]
  {
    hide Advance, RunOk, StatusOk, Forward, HistoryOk, Extend;
    var r := s.runs[id];
    var r' := Advance(r, o);
    AdvanceOk(r, o);
    AdvanceForward(r, o);
    RunStatusOk(r');
    HistoryNonEmpty(s.history[id], r.status);
    ExtendOk(s.history[id], r.status, r'.status);
  }

  lemma RunsOkAt(s: System, id: Id)
    requires RunsOk(s) && id in s.runs
    ensures RunOk(s.runs[id]) && id in s.history && HistoryOk(s.history[id], s.runs[id].status)
  {
  }

  lemma ResumeTasks(s: System, id: Id, o: Outcome, s': System)
    requires Inv(s) && Enabled(s, Resume(id, o)) && s' == ApplyResume(s, id, o)
    ensures TasksOk(s') && SlotsOk(s')
  {
    hide Advance, RunOk, RunsOk, SocketsOk, Extend;
    var r' := Advance(s.runs[id], o);
    RunsOkAt(s, id);
    AdvanceOk(s.runs[id], o);
    var a, b := Inside(s), Inside(s');
    if s.runs[id].pc == SEMAPHORE {
      assert b == if r'.pc == FINISHED then a else a + {id};
    } else {
      assert b == if r'.pc == FINISHED then a - {id} else a;
    }
  }

  // ----- Sockets -----

  lemma SentOkExtends(k: Socket, h: seq<Status>, h': seq<Status>)
    requires SentOk(k, h) && h <= h'
    ensures SentOk(k, h')
  {
    forall i | 0 < i < |k.sentAt| ensures h'[k.sentAt[i - 1]] != h'[k.sentAt[i]] {
      assert h[k.sentAt[i - 1]] != h[k.sentAt[i]];
    }
  }

  lemma TerminalKept(a: Status, b: Status)
    requires Forward(a, b)
    ensures Terminal(a) ==> b == a
  {
  }

  lemma NothingSentOk(k: Socket, h: seq<Status>)
    requires k.sentAt == [] && k.lastSent == None
    ensures SentOk(k, h)
  {
  }

  /** A socket stays in order while the runs go on. */
  lemma SocketKept(s: System, s': System, k: Socket)
    requires SocketOk(s, k)
    requires k.id in s.runs ==> k.id in s'.runs && Forward(s.runs[k.id].status, s'.runs[k.id].status)
    requires k.id in s.runs <==> k.id in s.history
    requires k.id in s'.runs <==> k.id in s'.history
    requires k.id in s.history ==> s.history[k.id] <= s'.history[k.id]
    ensures SocketOk(s', k)
  {
    hide Forward, SentOk;
    if k.id in s.runs {
      SentOkExtends(k, s.history[k.id], s'.history[k.id]);
      TerminalKept(s.runs[k.id].status, s'.runs[k.id].status);
    } else {
      if k.id in s'.runs { NothingSentOk(k, s'.history[k.id]); }
    }
  }

  lemma SendOk(k: Socket, h: seq<Status>, now: Status)
    requires SentOk(k, h) && HistoryOk(h, now) && k.lastSent != Some(now)
    ensures SentOk(Socket(k.id, SENDING, Some(now), k.sentAt + [|h| - 1]), h)
  {
    hide Forward, StatusOk;
    var sentAt := k.sentAt + [|h| - 1];
    var n := |k.sentAt|;
    if n > 0 {
      assert h[sentAt[n - 1]] != now && sentAt[n - 1] != |h| - 1;
      forall i | 0 <= i < n ensures sentAt[i] < |h| - 1 { assert i < n - 1 ==> sentAt[i] < sentAt[n - 1]; }
    }
    forall i | 0 < i < |sentAt| ensures h[sentAt[i - 1]] != h[sentAt[i]] {
      if i < n { assert h[k.sentAt[i - 1]] != h[k.sentAt[i]]; }
    }
  }

  lemma PollOk(s: System, k: Socket)
    requires RunsOk(s) && SocketOk(s, k) && k.phase == POLLING && (k.id in s.runs <==> k.id in s.history)
    ensures SocketOk(s, AfterPoll(s, k))
  {
    hide RunOk;
    if k.id in s.runs {
      RunsOkAt(s, k.id);
      var h, now := s.history[k.id], s.runs[k.id].status;
      if s.runs[k.id].published && k.lastSent != Some(now) { SendOk(k, h, now); }
    }
  }

  lemma LastSentBefore(k: Socket, h: seq<Status>, now: Status)
    requires SentOk(k, h) && HistoryOk(h, now) && k.lastSent != None
    ensures Forward(k.lastSent.value, now)
  {
    var i := k.sentAt[|k.sentAt| - 1];
    if i == |h| - 1 { assert StatusOk(h[i]); } else { assert Forward(h[i], h[|h| - 1]); }
  }

  /** An unfinished send of a terminal status finds that status again. */
  lemma SentOkStep(s: System, k: Socket)
    requires RunsOk(s) && SocketOk(s, k) && k.phase == SENDING && k.id in s.runs
    ensures SocketOk(s, AfterSent(s, k))
  {
    hide RunOk, StatusOk, Forward;
    RunsOkAt(s, k.id);
    LastSentBefore(k, s.history[k.id], s.runs[k.id].status);
    TerminalKept(k.lastSent.value, s.runs[k.id].status);
  }

  // ----- Steps and runs keep the invariant -----

  /** Nothing is taken away by a step: every run goes forward, every history grows. */
  ghost predicate Grows(s: System, s': System) {
    forall id | id in s.runs ::
      && id in s'.runs && Forward(s.runs[id].status, s'.runs[id].status)
      && id in s.history && id in s'.history && s.history[id] <= s'.history[id]
  }

  ghost predicate Recorded(s: System) {
    forall id :: id in s.runs <==> id in s.history
  }

  lemma SocketsKept(s: System, s': System)
    requires SocketsOk(s) && Grows(s, s') && Recorded(s) && Recorded(s') && s'.sockets == s.sockets
    ensures SocketsOk(s')
  {
    hide Forward, SocketOk;
    forall k | k in s'.sockets ensures SocketOk(s', s'.sockets[k]) {
      SocketKept(s, s', s.sockets[k]);
    }
  }

  lemma Same(s: Status)
    requires StatusOk(s)
    ensures Forward(s, s)
  {
  }

  lemma OthersForward(s: System)
    requires RunsOk(s)
    ensures forall id | id in s.runs :: Forward(s.runs[id].status, s.runs[id].status)
  {
    hide Forward, StatusOk, RunOk;
    forall id | id in s.runs ensures Forward(s.runs[id].status, s.runs[id].status) {
      RunsOkAt(s, id);
      RunStatusOk(s.runs[id]);
      Same(s.runs[id].status);
    }
  }

  lemma PendingHistory()
    ensures HistoryOk([PENDING_STATUS], PENDING_STATUS)
  {
  }

  lemma FreshRunOk(r: Run)
    requires r.pc in {SEMAPHORE, REJECTED} && r.status == PENDING_STATUS && !r.fetched && !r.cacheTried && !r.dumpFailed
    ensures RunOk(r) && StatusOk(PENDING_STATUS)
  {
  }

  lemma TriggerRuns(s: System, id: Id, s': System)
    requires RunsOk(s) && Recorded(s) && id !in s.runs && s' == ApplyTrigger(s, id)
    ensures RunsOk(s') && Recorded(s') && Grows(s, s')
  {
    hide Forward, RunOk, StatusOk, Guard;
    OthersForward(s);
    FreshRunOk(s'.runs[id]);
    hide HistoryOk;
    assert HistoryOk([PENDING_STATUS], PENDING_STATUS) by { PendingHistory(); }
  }

  lemma TriggerTasks(s: System, id: Id, s': System)
    requires TasksOk(s) && id !in s.runs && s' == ApplyTrigger(s, id)
    ensures TasksOk(s')
  {
  }

  lemma TriggerSlots(s: System, id: Id, s': System)
    requires SlotsOk(s) && id !in s.runs && s' == ApplyTrigger(s, id)
    ensures SlotsOk(s')
  {
    hide Guard;
    assert Inside(s') == Inside(s);
  }

  lemma TriggerStep(s: System, id: Id, s': System)
    requires Inv(s) && Recorded(s) && id !in s.runs && s' == ApplyTrigger(s, id)
    ensures Inv(s') && Recorded(s') && Grows(s, s')
  {
    hide RunsOk, Recorded, Grows, SocketsOk, TasksOk, SlotsOk, Guard;
    TriggerRuns(s, id, s');
    TriggerTasks(s, id, s');
    TriggerSlots(s, id, s');
    SocketsKept(s, s');
  }

  lemma ResumeStep(s: System, id: Id, o: Outcome, s': System)
    requires Inv(s) && Recorded(s) && Enabled(s, Resume(id, o)) && s' == ApplyResume(s, id, o)
    ensures Inv(s') && Recorded(s') && Grows(s, s')
  {
    hide Forward, SocketsOk, TasksOk, SlotsOk, RunOk, Advance, Possible, Extend;
    OthersForward(s);
    ResumeRuns(s, id, o, s');
    ResumeTasks(s, id, o, s');
    RunsOkAt(s, id);
    AdvanceForward(s.runs[id], o);
    SocketsKept(s, s');
  }

  lemma EvictRuns(s: System, id: Id, s': System)
    requires RunsOk(s) && Recorded(s) && id in s.runs && s' == s.(runs := s.runs[id := s.runs[id].(published := false)])
    ensures RunsOk(s') && Recorded(s') && Grows(s, s')
  {
    hide Forward, HistoryOk, StatusOk;
    OthersForward(s);
    assert RunOk(s'.runs[id]);
    hide RunOk;
  }

  lemma EvictStep(s: System, id: Id, s': System)
    requires Inv(s) && Recorded(s) && id in s.runs && s' == s.(runs := s.runs[id := s.runs[id].(published := false)])
    ensures Inv(s') && Recorded(s') && Grows(s, s')
  {
    hide RunsOk, Grows, Recorded, SocketsOk;
    EvictRuns(s, id, s');
    assert Inside(s') == Inside(s);
    SocketsKept(s, s');
  }

  /** A step of a socket, which leaves the runs alone. */
  lemma SocketStep(s: System, k: SocketId, after: Socket, s': System)
    requires Inv(s) && Recorded(s) && SocketOk(s, after) && s' == s.(sockets := s.sockets[k := after])
    ensures Inv(s') && Recorded(s') && Grows(s, s')
  {
    hide Forward, RunOk, HistoryOk, SentOk;
    OthersForward(s);
    assert Inside(s') == Inside(s);
  }

  lemma BothRecorded(s: System, id: Id)
    requires Recorded(s)
    ensures id in s.runs <==> id in s.history
  {
  }

  lemma DropOk(s: System, k: Socket)
    requires SocketOk(s, k)
    ensures SocketOk(s, k.(phase := DROPPED))
  {
  }

  lemma StepInv(s: System, e: Event)
    requires Inv(s) && Recorded(s) && Enabled(s, e)
    ensures Inv(Apply(s, e)) && Recorded(Apply(s, e)) && Grows(s, Apply(s, e))
  {
    hide RunsOk, TasksOk, SlotsOk, Recorded, Grows, ApplyResume, AfterPoll, AfterSent, SentOk;
    var s' := Apply(s, e);
    match e {
      case Trigger(id) => TriggerStep(s, id, s');
      case Resume(id, o) => ResumeStep(s, id, o, s');
      case Evict(id) => EvictStep(s, id, s');
      case Connect(k, id) =>
        var newcomer := Socket(id, POLLING, None, []);
        if id in s.history { NothingSentOk(newcomer, s.history[id]); }
        SocketStep(s, k, newcomer, s');
      case Poll(k) =>
        BothRecorded(s, s.sockets[k].id);
        PollOk(s, s.sockets[k]);
        SocketStep(s, k, AfterPoll(s, s.sockets[k]), s');
      case Sent(k) =>
        SentOkStep(s, s.sockets[k]);
        SocketStep(s, k, AfterSent(s, s.sockets[k]), s');
      case Drop(k) =>
        DropOk(s, s.sockets[k]);
        SocketStep(s, k, s.sockets[k].(phase := DROPPED), s');
    }
  }

  lemma {:induction false} RunInv(s: System, es: seq<Event>, s': System)
    requires Inv(s) && Recorded(s) && Runs(s, es, s')
    ensures Inv(s') && Recorded(s')
    decreases |es|
  {
    hide Inv, Recorded, Apply, Enabled, Grows;
    if es != [] {
      StepInv(s, es[0]);
      RunInv(Apply(s, es[0]), es[1..], s');
    }
  }

  lemma ReachableInv(s: System)
    requires Reachable(s)
    ensures Inv(s) && Recorded(s)
  {
    var es :| Runs(INIT, es, s);
    assert Inside(INIT) == {};
    RunInv(INIT, es, s);
  }

  // ----- Tasks and slots -----

  /** The task map holds exactly the started, unfinished runs, at most 100; at most
      five of them are inside the semaphore, whose counter is the rest. */
  lemma TasksAreActiveRuns(s: System)
    requires Reachable(s)
    ensures s.tasks == set id | id in s.runs && Suspended(s.runs[id].pc)
    ensures |s.tasks| <= 100
    ensures Inside(s) <= s.tasks && |Inside(s)| <= 5
    ensures s.free == 5 - |Inside(s)|
  {
    ReachableInv(s);
  }

  /** With fresh ids, the trigger never answers 409; it answers 503 exactly if a
      hundred runs are active, and then leaves a PENDING status without a task.
      Otherwise the new run waits for the semaphore, PENDING as well. */
  lemma TriggerAnswers(s: System, id: Id)
    requires Reachable(s) && Enabled(s, Trigger(id))
    ensures Guard(s.tasks, id) != Duplicate
    ensures Guard(s.tasks, id) == Full <==> |set i | i in s.runs && Suspended(s.runs[i].pc)| == 100
    ensures Guard(s.tasks, id) == Full ==>
      var s' := Apply(s, Trigger(id)); s'.tasks == s.tasks && s'.runs[id].pc == REJECTED
    ensures Guard(s.tasks, id) != Full ==>
      var s' := Apply(s, Trigger(id)); s'.tasks == s.tasks + {id} && s'.runs[id].pc == SEMAPHORE
    ensures var s' := Apply(s, Trigger(id)); s'.runs[id].published && s'.runs[id].status == Status(PENDING, 0.0, "", [], None)
  {
    TasksAreActiveRuns(s);
  }

  // ----- Status safety -----

  /** In one step: a terminal status is never left, progress never falls, completed steps stay. */
  lemma StepForward(s: System, e: Event, id: Id)
    requires Reachable(s) && Enabled(s, e) && id in s.runs
    ensures id in Apply(s, e).runs && Forward(s.runs[id].status, Apply(s, e).runs[id].status)
  {
    hide Apply, Forward;
    ReachableInv(s);
    StepInv(s, e);
  }

  /** Over whole runs: what a run shows, earlier and later. */
  lemma HistoryForward(s: System, id: Id, i: nat, j: nat)
    requires Reachable(s) && id in s.runs && id in s.history && i < j < |s.history[id]|
    ensures Forward(s.history[id][i], s.history[id][j])
    ensures s.history[id][|s.history[id]| - 1] == s.runs[id].status
  {
    hide Forward;
    ReachableInv(s);
    RunsOkAt(s, id);
  }

  /** Every status ever shown: progress 100 means COMPLETED, which means all steps;
      the steps are a prefix; a failure always carries the same message, whatever
      the cause was. */
  lemma ShownStatuses(s: System, id: Id, i: nat)
    requires Reachable(s) && id in s.runs && id in s.history && i < |s.history[id]|
    ensures var shown := s.history[id][i];
      && (shown.progressPct == 100.0 <==> shown.status == COMPLETED)
      && shown.stepsCompleted <= PIPELINE_STEPS
      && (shown.status == COMPLETED ==> shown.stepsCompleted == PIPELINE_STEPS)
      && (shown.status == FAILED ==> shown.errorMessage == Some("Pipeline returned no report"))
  {
    hide RunOk, Forward;
    ReachableInv(s);
    RunsOkAt(s, id);
    assert StatusOk(s.history[id][i]);
  }

  /** A run has completed exactly if its cache write returned or raised, or there
      was nothing to write because the report could not be dumped. */
  lemma CompletedIff(s: System, id: Id)
    requires Reachable(s) && id in s.runs
    ensures s.runs[id].status.status == COMPLETED <==> s.runs[id].cacheTried || s.runs[id].dumpFailed
    ensures !(s.runs[id].cacheTried && s.runs[id].dumpFailed)
  {
    ReachableInv(s);
    RunsOkAt(s, id);
  }

  lemma DumpStep(s: System, e: Event, id: Id)
    requires Inv(s) && Enabled(s, e) && (id in s.runs ==> !s.runs[id].dumpFailed)
    ensures id in Apply(s, e).runs && Apply(s, e).runs[id].dumpFailed <==> e == Resume(id, DumpRaises)
  {
    hide TasksOk, SlotsOk, SocketsOk, Advance, Guard;
    if e.Resume? {
      RunsOkAt(s, e.id);
      CompletesIff(s.runs[e.id], e.outcome);
    }
  }

  lemma DumpKept(s: System, e: Event, id: Id)
    requires Inv(s) && Enabled(s, e) && id in s.runs && s.runs[id].dumpFailed
    ensures id in Apply(s, e).runs && Apply(s, e).runs[id].dumpFailed
  {
    RunsOkAt(s, id);
  }

  lemma {:induction false} DumpStays(s: System, es: seq<Event>, s': System, id: Id)
    requires Inv(s) && Recorded(s) && Runs(s, es, s') && id in s.runs && s.runs[id].dumpFailed
    ensures id in s'.runs && s'.runs[id].dumpFailed
    decreases |es|
  {
    hide Inv, Recorded, Apply, Enabled, Grows;
    if es != [] {
      StepInv(s, es[0]);
      DumpKept(s, es[0], id);
      DumpStays(Apply(s, es[0]), es[1..], s', id);
    }
  }

  /** The flags, by what happened to the run: it was resumed from the awaited write,
      or from persisting with a failing dump. */
  lemma {:induction false} FlagsByEvents(s: System, es: seq<Event>, s': System, id: Id)
    requires Inv(s) && Recorded(s) && Runs(s, es, s') && id in s'.runs && (id in s.runs ==> !s.runs[id].dumpFailed)
    ensures s'.runs[id].dumpFailed <==> Resume(id, DumpRaises) in es
    decreases |es|
  {
    hide Inv, Recorded, Apply, Enabled, Grows;
    if es != [] {
      var t := Apply(s, es[0]);
      StepInv(s, es[0]);
      DumpStep(s, es[0], id);
      if id in t.runs && t.runs[id].dumpFailed {
        DumpStays(t, es[1..], s', id);
      } else {
        FlagsByEvents(t, es[1..], s', id);
      }
      assert es == [es[0]] + es[1..];
    }
  }

  lemma StartReachable()
    ensures Reachable(INIT)
  {
    assert Runs(INIT, [], INIT);
  }

  lemma ReachedBy(es: seq<Event>, s: System)
    requires Runs(INIT, es, s)
    ensures Reachable(s)
  {
  }

  /** Hence COMPLETED was published without a cache write exactly if the dump of
      that run's report raised. */
  lemma CompletedWithoutWriteIff(es: seq<Event>, s: System, id: Id)
    requires Runs(INIT, es, s) && id in s.runs && s.runs[id].status.status == COMPLETED
    ensures !s.runs[id].cacheTried <==> Resume(id, DumpRaises) in es
  {
    hide Runs, Inv;
    StartReachable();
    ReachableInv(INIT);
    FlagsByEvents(INIT, es, s, id);
    ReachedBy(es, s);
    CompletedIff(s, id);
  }

  // ----- Sockets -----

  /** A socket sends a subsequence of the history, in order and without equal neighbours. */
  lemma SocketSends(s: System, k: SocketId)
    requires Reachable(s) && k in s.sockets && s.sockets[k].sentAt != []
    ensures s.sockets[k].id in s.history && SentOk(s.sockets[k], s.history[s.sockets[k].id])
  {
    ReachableInv(s);
    assert SocketOk(s, s.sockets[k]);
  }

  /** A poll always catches up: it sends the current status, and awaits the send, as
      soon as that differs from what was sent last.  If it does not, a terminal
      status ends the loop and any other one lets it go on; without a published
      status the socket is dropped and sends nothing. */
  lemma PollCatchesUp(s: System, k: SocketId)
    requires Reachable(s) && Enabled(s, Poll(k))
    ensures var c, c' := s.sockets[k], Apply(s, Poll(k)).sockets[k];
      if c.id in s.runs && s.runs[c.id].published then
        var now := s.runs[c.id].status;
        && c'.lastSent == Some(now)
        && (c'.phase == SENDING <==> c.lastSent != Some(now))
        && (c'.phase == ENDED <==> c.lastSent == Some(now) && now.status in {COMPLETED, FAILED})
        && c.id in s.history
        && (c'.phase == SENDING ==> c'.sentAt == c.sentAt + [|s.history[c.id]| - 1])
        && (c'.phase != SENDING ==> c'.sentAt == c.sentAt)
      else
        c'.phase == DROPPED && c'.lastSent == c.lastSent && c'.sentAt == c.sentAt
  {
    hide RunOk, SentOk, Forward, StatusOk;
    ReachableInv(s);
    assert SocketOk(s, s.sockets[k]);
    if s.sockets[k].id in s.runs {
      RunsOkAt(s, s.sockets[k].id);
      HistoryNonEmpty(s.history[s.sockets[k].id], s.runs[s.sockets[k].id].status);
    }
  }

  lemma {:induction false} RunsAppend(s: System, es: seq<Event>, m: System, e: Event)
    requires Runs(s, es, m) && Enabled(m, e)
    ensures Runs(s, es + [e], Apply(m, e))
    decreases |es|
  {
    hide Enabled, Apply;
    if es == [] {
      assert Runs(Apply(m, e), [], Apply(m, e));
    } else {
      RunsAppend(Apply(s, es[0]), es[1..], m, e);
      assert (es + [e])[1..] == es[1..] + [e];
    }
  }

  lemma ReachableStep(s: System, e: Event)
    requires Reachable(s) && Enabled(s, e)
    ensures Reachable(Apply(s, e))
  {
    hide Apply, Enabled;
    var es :| Runs(INIT, es, s);
    RunsAppend(INIT, es, s, e);
  }

  // ----- Every started run leaves the task map -----

  /** How many resumptions a run has left at most. */
  function Rank(pc: Pc): nat {
    match pc
    case REJECTED => 0
    case SEMAPHORE => 10
    case FETCH => 9
    case TECHNICAL => 8
    case TREND => 7
    case PATTERNS => 6
    case SCANNER => 5
    case CONSOLIDATE => 4
    case FUNDAMENTAL => 3
    case PERSIST => 2
    case CACHE => 1
    case FINISHED => 0
  }

  lemma AdvanceRank(r: Run, o: Outcome)
    requires Suspended(r.pc) && Possible(r.pc, o)
    ensures Rank(Advance(r, o).pc) < Rank(r.pc)
  {
  }

  ghost function RankOf(runs: map<Id, Run>, id: Id): nat {
    if id in runs then Rank(runs[id].pc) else 0
  }

  ghost function Work(ids: set<Id>, runs: map<Id, Run>): nat {
    if ids == {} then 0
    else
      var id :| id in ids;
      RankOf(runs, id) + Work(ids - {id}, runs)
  }

  lemma {:induction false} WorkSplit(ids: set<Id>, runs: map<Id, Run>, id: Id)
    requires id in ids
    ensures Work(ids, runs) == RankOf(runs, id) + Work(ids - {id}, runs)
    decreases |ids|
  {
    var x :| x in ids && Work(ids, runs) == RankOf(runs, x) + Work(ids - {x}, runs);
    if x != id {
      WorkSplit(ids - {x}, runs, id);
      WorkSplit(ids - {id}, runs, x);
      assert ids - {x} - {id} == ids - {id} - {x};
    }
  }

  lemma {:induction false} WorkSame(ids: set<Id>, runs: map<Id, Run>, runs': map<Id, Run>)
    requires forall id | id in ids :: RankOf(runs, id) == RankOf(runs', id)
    ensures Work(ids, runs) == Work(ids, runs')
    decreases |ids|
  {
    if ids != {} {
      var x :| x in ids;
      WorkSplit(ids, runs, x);
      WorkSplit(ids, runs', x);
      WorkSame(ids - {x}, runs, runs');
    }
  }

  ghost function Left(s: System): nat {
    Work(s.tasks, s.runs)
  }

  lemma ResumeLeft(s: System, id: Id, o: Outcome)
    requires Inv(s) && Enabled(s, Resume(id, o))
    ensures Left(ApplyResume(s, id, o)) < Left(s)
  {
    hide RunOk, Advance, Rank, RunsOk, SlotsOk, SocketsOk, Work, Possible;
    var s' := ApplyResume(s, id, o);
    AdvanceRank(s.runs[id], o);
    WorkSplit(s.tasks, s.runs, id);
    WorkSame(s.tasks - {id}, s.runs, s'.runs);
    if id in s'.tasks {
      WorkSplit(s'.tasks, s'.runs, id);
    } else {
      assert s'.tasks == s.tasks - {id};
    }
  }

  lemma TriggerLeft(s: System, id: Id)
    requires Inv(s) && id !in s.runs
    ensures Left(ApplyTrigger(s, id)) <= Left(s) + 10
  {
    hide RunsOk, SlotsOk, SocketsOk, Work;
    var s' := ApplyTrigger(s, id);
    WorkSame(s.tasks, s.runs, s'.runs);
    if id in s'.tasks {
      WorkSplit(s'.tasks, s'.runs, id);
      assert s'.tasks - {id} == s.tasks;
    }
  }

  lemma StepLeft(s: System, e: Event)
    requires Inv(s) && Enabled(s, e)
    ensures Left(Apply(s, e)) + (if e.Resume? then 1 else 0) <= Left(s) + (if e.Trigger? then 10 else 0)
  {
    hide RunsOk, SlotsOk, SocketsOk, TasksOk, Work, ApplyTrigger, ApplyResume;
    match e {
      case Trigger(id) => TriggerLeft(s, id);
      case Resume(id, o) => ResumeLeft(s, id, o);
      case _ => WorkSame(s.tasks, s.runs, Apply(s, e).runs);
    }
  }

  function Triggers(es: seq<Event>): nat {
    if es == [] then 0 else (if es[0].Trigger? then 1 else 0) + Triggers(es[1..])
  }

  function Resumes(es: seq<Event>): nat {
    if es == [] then 0 else (if es[0].Resume? then 1 else 0) + Resumes(es[1..])
  }

  lemma {:induction false} ResumesBounded(s: System, es: seq<Event>, s': System)
    requires Inv(s) && Recorded(s) && Runs(s, es, s')
    ensures Resumes(es) + Left(s') <= Left(s) + 10 * Triggers(es)
    decreases |es|
  {
    hide Inv, Recorded, Apply, Enabled, Left, Grows;
    if es != [] {
      StepInv(s, es[0]);
      StepLeft(s, es[0]);
      ResumesBounded(Apply(s, es[0]), es[1..], s');
    }
  }

  /** As long as a task is left, some run can be resumed. */
  lemma SomeRunCanGoOn(s: System)
    requires Inv(s) && s.tasks != {}
    ensures exists id :: Enabled(s, Resume(id, Ok))
  {
    var id: Id;
    if Inside(s) != {} { id :| id in Inside(s); } else { id :| id in s.tasks; }
    assert Enabled(s, Resume(id, Ok));
  }

  /** Along any run at most ten resumptions per trigger happen, and when no run can
      be resumed any more the task map is empty: no deadlock, no run left behind. */
  lemma EveryRunLeaves(es: seq<Event>, s: System)
    requires Runs(INIT, es, s)
    ensures Resumes(es) <= 10 * Triggers(es)
    ensures (forall id :: !Enabled(s, Resume(id, Ok))) ==> s.tasks == {}
  {
    hide Inv;
    assert Reachable(s);
    ReachableInv(s);
    StartReachable();
    ReachableInv(INIT);
    ResumesBounded(INIT, es, s);
    if s.tasks != {} { SomeRunCanGoOn(s); }
  }
}
