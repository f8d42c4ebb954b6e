/** Which status sockets learn how a run ended. */
module AnalysisSockets {
  import opened AnalysisRuns
  import opened Options
  import opened Pipeline

  /** In state `s`, when the run of `id` is about to finish, the socket awaits a send. */
  ghost predicate CaughtSending(s: System, id: Id, k: SocketId) {
    k in s.sockets && s.sockets[k].id == id && s.sockets[k].phase == SENDING
  }

  ghost predicate SocketEnd(s: System, c: Socket, id: Id, k: SocketId, final: Status) {
    if CaughtSending(s, id, k) then
      c.phase != POLLING && c.lastSent != None && !Terminal(c.lastSent.value)
    else
      c.phase in {SENDING, ENDED} ==> c.lastSent == Some(final)
  }

  /** After the end: a socket caught sending never sends the final status, and any
      other one that is sending, or has ended, has sent it. */
  ghost predicate EndOk(s: System, t: System, id: Id, final: Status) {
    && id in t.runs && t.runs[id].status == final
    && (forall k | k in t.sockets && t.sockets[k].id == id :: SocketEnd(s, t.sockets[k], id, k, final))
    && (forall k | CaughtSending(s, id, k) :: k in t.sockets && t.sockets[k].id == id)
  }

  lemma SuspendedNotFinal(r: Run)
    requires RunOk(r) && Suspended(r.pc)
    ensures !Terminal(r.status)
  {
  }

  /** What a socket of a run that is not finished has sent, is not final. */
  lemma UnfinishedSent(s: System, k: SocketId)
    requires Inv(s) && k in s.sockets && s.sockets[k].id in s.runs && Suspended(s.runs[s.sockets[k].id].pc)
    ensures s.sockets[k].phase != ENDED
    ensures s.sockets[k].lastSent != None ==> !Terminal(s.sockets[k].lastSent.value)
    ensures s.sockets[k].phase == SENDING ==> s.sockets[k].lastSent != None
  {
    hide HistoryOk, SentOk, Forward;
    var c := s.sockets[k];
    assert SocketOk(s, c);
    RunsOkAt(s, c.id);
    SuspendedNotFinal(s.runs[c.id]);
    if c.lastSent != None {
      LastSentBefore(c, s.history[c.id], s.runs[c.id].status);
      TerminalKept(c.lastSent.value, s.runs[c.id].status);
    }
  }

  lemma FinishedFinal(r: Run)
    requires RunOk(r) && r.pc == FINISHED
    ensures Terminal(r.status)
  {
  }

  /** Right after the finishing step. */
  lemma EndStart(s: System, id: Id, o: Outcome, t: System)
    requires Inv(s) && Enabled(s, Resume(id, o)) && t == Apply(s, Resume(id, o)) && t.runs[id].pc == FINISHED
    ensures EndOk(s, t, id, t.runs[id].status)
  {
    hide Inv;
    forall k | k in t.sockets && t.sockets[k].id == id ensures SocketEnd(s, t.sockets[k], id, k, t.runs[id].status) {
      UnfinishedSent(s, k);
    }
  }

  lemma FinishedStays(t: System, e: Event, id: Id)
    requires Enabled(t, e) && id in t.runs && t.runs[id].pc == FINISHED
    ensures id in Apply(t, e).runs && Apply(t, e).runs[id].pc == FINISHED && Apply(t, e).runs[id].status == t.runs[id].status
  {
    hide Advance, Guard;
  }

  /** What a step makes of one socket. */
  lemma SocketAfter(t: System, e: Event, k: SocketId)
    requires Enabled(t, e) && k in Apply(t, e).sockets
    ensures k !in t.sockets ==> e.Connect? && Apply(t, e).sockets[k] == Socket(e.id, POLLING, None, [])
    ensures k in t.sockets ==>
      var c, c' := t.sockets[k], Apply(t, e).sockets[k];
      if e == Poll(k) then c' == AfterPoll(t, c)
      else if e == Sent(k) && c.id in t.runs then c' == AfterSent(t, c)
      else c' == if e == Drop(k) then c.(phase := DROPPED) else c
    ensures (e == Poll(k) ==> k in t.sockets && t.sockets[k].phase == POLLING) && (e == Sent(k) ==> t.sockets[k].phase == SENDING)
    ensures e == Sent(k) ==> t.sockets[k].id in t.runs
  {
    hide AfterPoll, AfterSent, Advance, Guard, Extend;
  }

  lemma SocketsStay(t: System, e: Event, k: SocketId)
    requires Enabled(t, e) && k in t.sockets
    ensures k in Apply(t, e).sockets && Apply(t, e).sockets[k].id == t.sockets[k].id
  {
    hide Advance, Guard, Extend;
  }

  lemma SocketEndStep(s: System, t: System, c: Socket, c': Socket, id: Id, k: SocketId, final: Status)
    requires SocketEnd(s, c, id, k, final) && c.id == id && id in t.runs && t.runs[id].status == final && Terminal(final)
    requires c.phase == POLLING && c.lastSent != None ==> !Terminal(c.lastSent.value)
    requires c' == c || (c.phase == POLLING && c' == AfterPoll(t, c)) || (c.phase == SENDING && c' == AfterSent(t, c))
      || c' == c.(phase := DROPPED)
    ensures SocketEnd(s, c', id, k, final)
  {
    hide CaughtSending, Terminal;
  }

  lemma PollingNotFinal(t: System, k: SocketId)
    requires Inv(t) && k in t.sockets && t.sockets[k].phase == POLLING && t.sockets[k].lastSent != None
    ensures !Terminal(t.sockets[k].lastSent.value)
  {
    assert SocketOk(t, t.sockets[k]);
  }

  lemma NewcomerEnd(s: System, c: Socket, id: Id, k: SocketId, final: Status)
    requires !CaughtSending(s, id, k) && c == Socket(id, POLLING, None, [])
    ensures SocketEnd(s, c, id, k, final)
  {
  }

  /** Every later step keeps that. */
  lemma EndStep(s: System, t: System, e: Event, id: Id, final: Status)
    requires Inv(t) && Enabled(t, e) && EndOk(s, t, id, final) && Terminal(final) && t.runs[id].pc == FINISHED
    ensures EndOk(s, Apply(t, e), id, final) && id in Apply(t, e).runs && Apply(t, e).runs[id].pc == FINISHED
  {
    hide CaughtSending, Apply, Enabled, Terminal, SocketEnd, AfterPoll, AfterSent, Inv;
    var u := Apply(t, e);
    FinishedStays(t, e, id);
    forall k | CaughtSending(s, id, k) ensures k in u.sockets && u.sockets[k].id == id { SocketsStay(t, e, k); }
    forall k | k in u.sockets && u.sockets[k].id == id ensures SocketEnd(s, u.sockets[k], id, k, final) {
      SocketAfter(t, e, k);
      if k in t.sockets {
        SocketsStay(t, e, k);
        if t.sockets[k].phase == POLLING && t.sockets[k].lastSent != None { PollingNotFinal(t, k); }
        SocketEndStep(s, t, t.sockets[k], u.sockets[k], id, k, final);
      } else {
        NewcomerEnd(s, u.sockets[k], id, k, final);
      }
    }
  }

  lemma {:induction false} EndRun(s: System, t: System, es: seq<Event>, u: System, id: Id, final: Status)
    requires Inv(t) && Recorded(t) && Runs(t, es, u) && EndOk(s, t, id, final) && Terminal(final) && t.runs[id].pc == FINISHED
    ensures EndOk(s, u, id, final)
    decreases |es|
  {
    hide Inv, Recorded, Apply, Enabled, EndOk, Grows, Terminal;
    if es != [] {
      StepInv(t, es[0]);
      EndStep(s, t, es[0], id, final);
      EndRun(s, Apply(t, es[0]), es[1..], u, id, final);
    }
  }

  lemma RunsOkOf(s: System)
    requires Inv(s)
    ensures RunsOk(s)
  {
  }

  /** Take a run that a step in state `s` finishes, and anything that happens then.
      A socket that ends on it has sent the final status exactly if it was not
      awaiting a send in `s`: if it was polling, or not even connected. */
  lemma FinalStatusSentIff(s: System, id: Id, o: Outcome, later: seq<Event>, u: System, k: SocketId)
    requires Reachable(s) && Enabled(s, Resume(id, o)) && Apply(s, Resume(id, o)).runs[id].pc == FINISHED
    requires Runs(Apply(s, Resume(id, o)), later, u)
    requires k in u.sockets && u.sockets[k].id == id && u.sockets[k].phase == ENDED
    ensures id in u.runs && u.sockets[k].lastSent != None
    ensures u.sockets[k].lastSent == Some(u.runs[id].status) <==> !CaughtSending(s, id, k)
  {
    hide Inv, Recorded, Runs, CaughtSending, Apply, Enabled, Grows, Terminal;
    var t := Apply(s, Resume(id, o));
    ReachableInv(s);
    StepInv(s, Resume(id, o));
    EndStart(s, id, o, t);
    RunsOkOf(t);
    RunsOkAt(t, id);
    FinishedFinal(t.runs[id]);
    EndRun(s, t, later, u, id, t.runs[id].status);
    assert SocketEnd(s, u.sockets[k], id, k, t.runs[id].status);
  }

  lemma SendingPending(id: Id) returns (s: System, k: SocketId)
    ensures Reachable(s) && id in s.runs && s.runs[id].pc == SEMAPHORE && s.free > 0
    ensures k in s.sockets && s.sockets[k].id == id && s.sockets[k].phase == SENDING && s.sockets[k].lastSent == Some(PENDING_STATUS)
  {
    hide Reachable;
    k := 0;
    StartReachable();
    ReachableStep(INIT, Trigger(id));
    var s1 := Apply(INIT, Trigger(id));
    ReachableStep(s1, Connect(k, id));
    var s2 := Apply(s1, Connect(k, id));
    ReachableStep(s2, Poll(k));
    s := Apply(s2, Poll(k));
  }

  /** The final status can get lost: it appears while an earlier one is being sent,
      and the loop then ends on it without sending it. */
  lemma FinalStatusLost() returns (s: System, k: SocketId)
    ensures Reachable(s) && k in s.sockets && s.sockets[k].phase == ENDED
    ensures s.sockets[k].lastSent != None && s.sockets[k].lastSent.value.status == PENDING
    ensures s.sockets[k].id in s.runs && s.runs[s.sockets[k].id].status.status == FAILED
  {
    hide Reachable;
    var id := "a";
    var s3;
    s3, k := SendingPending(id);
    ReachableStep(s3, Resume(id, Raises(0, "x")));
    var s4 := Apply(s3, Resume(id, Raises(0, "x")));
    ReachableStep(s4, Sent(k));
    s := Apply(s4, Sent(k));
  }
}
