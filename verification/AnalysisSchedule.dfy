/** In which order, and how often, a run is resumed. */
module AnalysisSchedule {
  import opened AnalysisRuns
  import opened Pipeline

  /** How often a run is resumed. */
  function ResumesOf(es: seq<Event>, id: Id): nat {
    if es == [] then 0
    else (if es[0].Resume? && es[0].id == id then 1 else 0) + ResumesOf(es[1..], id)
  }

  /** After `n` resumptions an unfinished run is suspended at the await of that
      number; a run that has tried the cache write had ten, and one whose report
      could not be dumped nine. */
  ghost predicate InOrder(r: Run, n: nat) {
    && (Suspended(r.pc) ==> n < 10 && r.pc == SUSPENSIONS[n])
    && (r.cacheTried ==> n == 10)
    && (r.dumpFailed ==> n == 9)
    && (r.pc == REJECTED ==> n == 0)
  }

  lemma ResumeInOrder(s: System, id: Id, o: Outcome, n: nat)
    requires Inv(s) && Enabled(s, Resume(id, o)) && InOrder(s.runs[id], n)
    ensures InOrder(Apply(s, Resume(id, o)).runs[id], n + 1)
  {
    hide TasksOk, SlotsOk, SocketsOk, Advance, RunOk;
    RunsOkAt(s, id);
    NextSuspension(s.runs[id], o, n);
  }

  lemma OtherRuns(s: System, e: Event, id: Id)
    requires Enabled(s, e) && id in s.runs && !(e.Resume? && e.id == id)
    ensures id in Apply(s, e).runs && Apply(s, e).runs[id].(published := true) == s.runs[id].(published := true)
  {
    hide Advance, Guard;
  }

  lemma NewRun(s: System, e: Event, id: Id)
    requires Enabled(s, e) && id !in s.runs
    ensures id in Apply(s, e).runs ==> InOrder(Apply(s, e).runs[id], 0)
    ensures !(e.Resume? && e.id == id)
  {
    hide Advance, Guard;
  }

  lemma ResumedStays(s: System, e: Event, id: Id)
    requires Enabled(s, e) && id in s.runs
    ensures id in Apply(s, e).runs
  {
    hide Advance, Guard;
  }

  lemma SameOrder(r: Run, r': Run, n: nat)
    requires InOrder(r, n) && r'.(published := true) == r.(published := true)
    ensures InOrder(r', n)
  {
    assert r'.(published := true).pc == r'.pc && r.(published := true).pc == r.pc;
    assert r'.(published := true).cacheTried == r'.cacheTried && r'.(published := true).dumpFailed == r'.dumpFailed;
  }

  lemma {:induction false} RunInOrder(s: System, es: seq<Event>, s': System, id: Id, n: nat)
    requires Inv(s) && Recorded(s) && Runs(s, es, s') && id in s'.runs
    requires if id in s.runs then InOrder(s.runs[id], n) else n == 0
    ensures InOrder(s'.runs[id], n + ResumesOf(es, id))
    decreases |es|
  {
    hide Inv, Recorded, Apply, Enabled, Grows, InOrder;
    if es != [] {
      var e, t := es[0], Apply(s, es[0]);
      StepInv(s, e);
      if id !in s.runs {
        NewRun(s, e, id);
        RunInOrder(t, es[1..], s', id, 0);
      } else if e.Resume? && e.id == id {
        ResumeInOrder(s, id, e.outcome, n);
        ResumedStays(s, e, id);
        RunInOrder(t, es[1..], s', id, n + 1);
      } else {
        OtherRuns(s, e, id);
        SameOrder(s.runs[id], t.runs[id], n);
        RunInOrder(t, es[1..], s', id, n);
      }
    }
  }

  /** Over every interleaving: an unfinished run awaits exactly the step whose number
      is how often it was resumed, in the order written out here; it completes at
      the tenth resumption, or at the ninth if the dump of its report raises. */
  lemma AwaitsInOrder(es: seq<Event>, s: System, id: Id)
    requires Runs(INIT, es, s) && id in s.runs
    ensures var n := ResumesOf(es, id);
      && (Suspended(s.runs[id].pc) ==> n < 10 && s.runs[id].pc == [SEMAPHORE, FETCH, TECHNICAL, TREND, PATTERNS,
            SCANNER, CONSOLIDATE, FUNDAMENTAL, PERSIST, CACHE][n])
      && (s.runs[id].status.status == COMPLETED ==> n == if Resume(id, DumpRaises) in es then 9 else 10)
  {
    hide Inv, Recorded, Runs;
    StartReachable();
    ReachableInv(INIT);
    RunInOrder(INIT, es, s, id, 0);
    ReachedBy(es, s);
    CompletedIff(s, id);
    FlagsByEvents(INIT, es, s, id);
  }
}
