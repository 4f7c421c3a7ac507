/** What the nodes of a DAG say, read off the events of the history one by one. */
module GraphFacts {
  import opened Common
  import opened History
  import opened GateMatching
  import opened CriticalPath
  import opened RunGraph
  import opened GraphBuild
  import opened GraphTheorems
  import opened GraphStability

  // ---- The reduction, event by event ----------------------------------------------------------------

  /** The reduction records the last start, with an attempt of 0 read as 1. */
  lemma {:induction false} StartedIsLastStart(h: seq<HistoryEvent>, sid: nat)
    ensures
      var e, started := LastStart(h, sid), Reduce(h).started;
      && (sid in started <==> e.Some?)
      && (e.Some? ==> started[sid] == Start(e.value.at, e.value.identity, if e.value.attempt == 0 then 1 else e.value.attempt))
  {
    if h != [] {
      hide Absorb;
      StartedIsLastStart(h[..|h| - 1], sid);
      AbsorbStart(Reduce(h[..|h| - 1]), h[|h| - 1], sid);
    }
  }

  lemma AbsorbStart(r: Reduction, e: HistoryEvent, sid: nat)
    ensures
      var after := Absorb(r, e).started;
      if Starts(e, sid) then sid in after && after[sid] == Start(e.at, e.identity, if e.attempt == 0 then 1 else e.attempt)
      else (sid in after <==> sid in r.started) && (sid in after ==> after[sid] == r.started[sid])
  {
    hide SetTimer, PopTimer, FiresAt;
  }

  lemma {:induction false} TerminalIsLastEnd(h: seq<HistoryEvent>, sid: nat)
    ensures
      var e, terminal := LastEnd(h, sid), Reduce(h).terminal;
      (sid in terminal <==> e.Some?) && (e.Some? ==> EndedBy(e.value, terminal[sid]))
  {
    if h != [] {
      hide Reduce;
      TerminalIsLastEnd(h[..|h| - 1], sid);
      TerminalFollows(h);
    } else {
      assert Reduce(h) == EMPTY;
    }
  }

  lemma {:induction false} PendingIsLast(ps: seq<Pending>, id: string)
    ensures (if id in ByActivity(ps) then Some(ByActivity(ps)[id]) else None) == LastPending(ps, id)
  {
    if ps != [] { PendingIsLast(ps[..|ps| - 1], id); }
  }

  // ---- Activities -------------------------------------------------------------------------------------

  /** The activity is drawn as a vertex of its own. */
  predicate IsWork(s: Sched) { s.activityType != "open_approval_gate" && s.activityType != "close_approval_gate" }

  function Elapsed(from: Instant, to: Instant): Option<real> {
    if from.None? || to.None? then None
    else if to.value >= from.value then Some(to.value - from.value) else Some(0.0)
  }

  lemma WorkIsDrawn(h: seq<HistoryEvent>, now: Now, s: Sched)
    requires WellFormed(h) && s in Scheds(h) && IsWork(s)
    ensures NodeOf(h, now, s) in Nodes(h, now)
    ensures NodeOf(h, now, s) == ActivityVertex(s, Reduce(h), ByActivity(now.pending)).node.(layer := NodeOf(h, now, s).layer)
  {
    NodeIsDrawn(h, now, s);
    hide Reduce, Scheds, ActivityVertex, Nodes, Rank, Keys, Vertices, WellFormed;
    assert !IsOpen(s) && !IsClose(s);
  }

  lemma NodeIsDrawn(h: seq<HistoryEvent>, now: Now, s: Sched)
    requires WellFormed(h) && s in Scheds(h) && s.activityType != "close_approval_gate"
    ensures NodeOf(h, now, s) in Nodes(h, now)
  {
    hide NodeOf, Nodes, WellFormed, Scheds;
    NodesExactly(h, now, NodeOf(h, now, s));
  }

  /** An activity that has ended: its state is how it ended, its end is that event's instant, it
      starts where it was last started, or else where the server saw it start, or else where it was
      scheduled, and its duration is the time in between. */
  lemma EndedActivity(h: seq<HistoryEvent>, now: Now, s: Sched)
    requires WellFormed(h) && s in Scheds(h) && IsWork(s) && LastEnd(h, s.eventId).Some?
    ensures
      var n, end, start, live := NodeOf(h, now, s), LastEnd(h, s.eventId).value, LastStart(h, s.eventId), LastPending(now.pending, s.activityId);
      && n in Nodes(h, now) && n.id == "a" + Decimal(s.eventId)
      && n.state.Ended? && EndedBy(end, Ending(n.state.outcome, n.endedAt, n.failure))
      && (start.Some? && start.value.at.Some? ==> n.startedAt == start.value.at)
      && (start.None? && live.None? ==> n.startedAt == s.scheduledAt)
      && (start.None? && live.Some? ==> n.startedAt == if live.value.lastStartedAt.Some? then live.value.lastStartedAt else s.scheduledAt)
      && n.duration == Elapsed(n.startedAt, n.endedAt)
  {
    hide Reduce, Scheds, Nodes, NodeOf, WellFormed, ByActivity, LastStart, LastEnd, LastPending, Decimal;
    WorkIsDrawn(h, now, s);
    StartedIsLastStart(h, s.eventId);
    TerminalIsLastEnd(h, s.eventId);
    PendingIsLast(now.pending, s.activityId);
  }

  /** In short: started at `a` and ended at `b`, it takes `b - a`. */
  lemma StartedAndEnded(h: seq<HistoryEvent>, now: Now, s: Sched, a: real, b: real)
    requires WellFormed(h) && s in Scheds(h) && IsWork(s) && a <= b
    requires LastStart(h, s.eventId).Some? && LastStart(h, s.eventId).value.at == Some(a)
    requires LastEnd(h, s.eventId).Some? && LastEnd(h, s.eventId).value.at == Some(b)
    ensures
      var n := NodeOf(h, now, s);
      n in Nodes(h, now) && n.startedAt == Some(a) && n.endedAt == Some(b) && n.duration == Some(b - a)
  {
    hide Scheds, Nodes, NodeOf, WellFormed, LastStart, LastEnd, LastPending, Decimal, Starts, Ends;
    EndedActivity(h, now, s);
  }

  /** An activity that has not ended has no end and no duration. The server's word decides: taken up
      it runs, not taken up it is queued, or retrying from the second attempt on. Without a word it
      runs if history started it and is queued otherwise. */
  lemma LiveActivity(h: seq<HistoryEvent>, now: Now, s: Sched)
    requires WellFormed(h) && s in Scheds(h) && IsWork(s) && LastEnd(h, s.eventId).None?
    ensures
      var n, start, live := NodeOf(h, now, s), LastStart(h, s.eventId), LastPending(now.pending, s.activityId);
      && n in Nodes(h, now) && n.id == "a" + Decimal(s.eventId) && n.endedAt == None && n.duration == None
      && (live.Some? && live.value.started ==> n.state == Running && n.startedAt == live.value.lastStartedAt)
      && (live.Some? && !live.value.started ==>
            n.state == (if n.attempts > 1 then Retrying else Queued) && n.startedAt == s.scheduledAt)
      && (live.Some? ==> n.failure == live.value.lastFailure)
      && (live.None? && start.Some? ==> n.state == Running && n.startedAt == start.value.at && n.failure == None)
      && (live.None? && start.None? ==> n.state == Queued && n.startedAt == s.scheduledAt && n.failure == None)
  {
    WorkIsDrawn(h, now, s);
    StartedIsLastStart(h, s.eventId);
    TerminalIsLastEnd(h, s.eventId);
    PendingIsLast(now.pending, s.activityId);
    hide Reduce, Scheds, Nodes, NodeOf, WellFormed, ByActivity, LastStart, LastEnd, LastPending, Decimal;
  }

  /** The attempt shown is the later of history's and the server's, each at least 1 when it is 0; the
      worker is the one the server names, or else the one history names. */
  lemma AttemptAndWorker(h: seq<HistoryEvent>, now: Now, s: Sched)
    requires WellFormed(h) && s in Scheds(h) && IsWork(s)
    ensures
      var n, start, live := NodeOf(h, now, s), LastStart(h, s.eventId), LastPending(now.pending, s.activityId);
      var recorded := if start.Some? && start.value.attempt != 0 then start.value.attempt else 1;
      var told := if live.Some? && live.value.attempt != 0 then live.value.attempt else 1;
      && n.attempts == (if live.Some? && told > recorded then told else recorded)
      && (live.Some? && live.value.worker != "" ==> n.worker == Some(live.value.worker))
      && (!(live.Some? && live.value.worker != "") && start.Some? && start.value.identity != "" ==> n.worker == Some(start.value.identity))
      && (!(live.Some? && live.value.worker != "") && !(start.Some? && start.value.identity != "") ==> n.worker == None)
      && n.kind == (if s.activityType == "run_node" then NodeCall else Activity) && n.decision == None && !n.onCriticalPath
  {
    WorkIsDrawn(h, now, s);
    StartedIsLastStart(h, s.eventId);
    TerminalIsLastEnd(h, s.eventId);
    PendingIsLast(now.pending, s.activityId);
    hide Reduce, Scheds, Nodes, NodeOf, WellFormed, ByActivity, LastStart, LastEnd, LastPending, Decimal;
  }

  /** Layers follow the workflow tasks that decided: the later decision, the higher layer. */
  lemma LayersFollowDecisions(h: seq<HistoryEvent>, now: Now, s: Sched, t: Sched)
    requires WellFormed(h) && s in Scheds(h) && t in Scheds(h)
    requires s.activityType != "close_approval_gate" && t.activityType != "close_approval_gate"
    ensures NodeOf(h, now, s) in Nodes(h, now) && NodeOf(h, now, t) in Nodes(h, now)
    ensures NodeOf(h, now, s).layer < NodeOf(h, now, t).layer <==> s.decidedBy < t.decidedBy
  {
    hide Reduce, Scheds, Nodes, WellFormed, VertexOf, Vertices, Keys, Rank;
    NodeIsDrawn(h, now, s);
    NodeIsDrawn(h, now, t);
    KeyIsDrawn(h, now, s);
    KeyIsDrawn(h, now, t);
    var keys := Keys(Vertices(Reduce(h), now));
    if s.decidedBy < t.decidedBy { RankGrows(keys, s.decidedBy, t.decidedBy); }
    if t.decidedBy < s.decidedBy { RankGrows(keys, t.decidedBy, s.decidedBy); }
  }

  lemma KeyIsDrawn(h: seq<HistoryEvent>, now: Now, s: Sched)
    requires WellFormed(h) && s in Scheds(h) && s.activityType != "close_approval_gate"
    ensures s.decidedBy in Keys(Vertices(Reduce(h), now)) && VertexOf(Reduce(h), now, Scheds(h), s).layerKey == s.decidedBy
  {
    OrderedIsHistory(h);
    assert !IsClose(s);
    hide Reduce, Scheds, WellFormed, Drawn, NeedsWait, Ordered, MaxKey;
    DrawnExactly(Reduce(h), now, VertexOf(Reduce(h), now, Scheds(h), s));
    KeyOfVertex(Reduce(h), now, Scheds(h), s);
    hide VertexOf;
    var v := VertexOf(Reduce(h), now, Scheds(h), s);
    assert v in Vertices(Reduce(h), now);
  }

  lemma KeyOfVertex(r: Reduction, now: Now, ss: seq<Sched>, s: Sched)
    ensures VertexOf(r, now, ss, s).layerKey == s.decidedBy
  {
    hide ResolvedBy, ActivityState, Decimal, FirstExpiry;
  }

  // ---- Gates ---------------------------------------------------------------------------------------------

  /** The close answers to the open's gate: the id it was opened under, or its activity id without one. */
  predicate SameGate(open: Sched, close: Sched) {
    (if open.gateId.Some? then open.gateId.value else open.activityId) == (if close.gateId.Some? then close.gateId.value else "")
  }

  /** A gate is drawn with the close that resolves it, and that close comes after it, is of its gate
      and is a closing activity of the history. */
  lemma {:induction false} ResolvedBySameGate(opens: seq<Sched>, closes: seq<Sched>, open: Sched)
    requires InEventOrder(opens) && open in opens && ResolvedBy(opens, closes, open.eventId).Some?
    ensures
      var close := ResolvedBy(opens, closes, open.eventId).value;
      close in closes && open.eventId < close.eventId && SameGate(open, close)
  {
    hide InEventOrder, Waiting, FirstBefore, SameGate;
    var n := |closes| - 1;
    if ResolvedBy(opens, closes[..n], open.eventId).Some? {
      ResolvedBySameGate(opens, closes[..n], open);
    } else {
      WaitingIsOfGate(opens, closes[..n], closes[n], open);
    }
  }

  lemma WaitingIsOfGate(opens: seq<Sched>, closes: seq<Sched>, close: Sched, open: Sched)
    requires InEventOrder(opens) && open in opens
    requires
      var waiting := Waiting(opens, closes, CloseKey(close));
      FirstBefore(waiting, close.eventId).Some? && waiting[FirstBefore(waiting, close.eventId).value] == open.eventId
    ensures open.eventId < close.eventId && SameGate(open, close)
  {
    hide InEventOrder, Waiting, OpenIds;
    WaitingAscends(opens, closes, CloseKey(close));
    OpenIdsAscend(opens, CloseKey(close));
    assert open.eventId in Waiting(opens, closes, CloseKey(close));
    var i :| 0 <= i < |opens| && opens[i].eventId == open.eventId && OpenKey(opens[i]) == CloseKey(close);
    SameIdSameOpen(opens, i, open);
  }

  lemma SameIdSameOpen(opens: seq<Sched>, i: nat, open: Sched)
    requires InEventOrder(opens) && i < |opens| && open in opens && opens[i].eventId == open.eventId
    ensures opens[i] == open
  {
    var j :| 0 <= j < |opens| && opens[j] == open;
  }

  lemma GateIsDrawn(h: seq<HistoryEvent>, now: Now, s: Sched)
    requires WellFormed(h) && s in Scheds(h) && s.activityType == "open_approval_gate"
    ensures NodeOf(h, now, s) in Nodes(h, now)
    ensures
      NodeOf(h, now, s) == GateVertex(s, ResolvedBy(Opens(Scheds(h)), Closes(Scheds(h)), s.eventId), Reduce(h), now.terminal).node
                             .(layer := NodeOf(h, now, s).layer)
  {
    NodeIsDrawn(h, now, s);
    hide Reduce, Scheds, GateVertex, Nodes, Rank, Keys, Vertices, WellFormed, ResolvedBy;
    assert IsOpen(s);
  }

  lemma {:induction false} ClosesAreClosing(ss: seq<Sched>, c: Sched)
    ensures c in Closes(ss) <==> c in ss && c.activityType == "close_approval_gate"
  {
    if ss != [] {
      var most, last := ss[..|ss| - 1], ss[|ss| - 1];
      assert ss == most + [last];
      ClosesAreClosing(most, c);
    }
  }

  /** A resolved gate: done at the instant its close was scheduled, with that close's decision, and
      open from the end of its opening activity, or else from when that was scheduled. */
  lemma ResolvedGate(h: seq<HistoryEvent>, now: Now, s: Sched)
    requires WellFormed(h) && s in Scheds(h) && s.activityType == "open_approval_gate"
    requires ResolvedBy(Opens(Scheds(h)), Closes(Scheds(h)), s.eventId).Some?
    ensures
      var n, close, end := NodeOf(h, now, s), ResolvedBy(Opens(Scheds(h)), Closes(Scheds(h)), s.eventId).value, LastEnd(h, s.eventId);
      && n in Nodes(h, now) && n.id == "gate:" + Decimal(s.eventId) && n.kind == Gate && n.state == Ended(Completed)
      && close in Scheds(h) && close.activityType == "close_approval_gate" && s.eventId < close.eventId && SameGate(s, close)
      && n.endedAt == close.scheduledAt
      && n.startedAt == (if end.Some? && end.value.at.Some? then end.value.at else s.scheduledAt)
      && n.duration == Elapsed(n.startedAt, n.endedAt)
      && n.decision == Some(if close.decision.Some? then close.decision.value else GateDecision(None, false, None))
      && n.attempts == 1 && n.worker == None && n.failure == None
  {
    hide Reduce, Scheds, Nodes, NodeOf, WellFormed, LastEnd, Decimal, ResolvedBy, Opens, Closes, SameGate, GateVertex, Ends, EndedBy;
    GateIsDrawn(h, now, s);
    ResolvedClose(h, s);
    GateOpensAt(h, s);
    ResolvedFields(s, ResolvedBy(Opens(Scheds(h)), Closes(Scheds(h)), s.eventId).value, Reduce(h), now.terminal);
  }

  /** When a gate is taken to have opened. */
  function OpenedAt(s: Sched, r: Reduction): Instant {
    if s.eventId in r.terminal && r.terminal[s.eventId].at.Some? then r.terminal[s.eventId].at else s.scheduledAt
  }

  lemma GateOpensAt(h: seq<HistoryEvent>, s: Sched)
    ensures OpenedAt(s, Reduce(h)) == (var end := LastEnd(h, s.eventId); if end.Some? && end.value.at.Some? then end.value.at else s.scheduledAt)
  {
    TerminalIsLastEnd(h, s.eventId);
    hide Reduce, LastEnd;
  }

  lemma ResolvedFields(s: Sched, close: Sched, r: Reduction, terminal: bool)
    ensures
      var n := GateVertex(s, Some(close), r, terminal).node;
      && n.id == "gate:" + Decimal(s.eventId) && n.kind == Gate && n.state == Ended(Completed)
      && n.endedAt == close.scheduledAt && n.startedAt == OpenedAt(s, r)
      && n.duration == Elapsed(n.startedAt, n.endedAt)
      && n.decision == Some(if close.decision.Some? then close.decision.value else GateDecision(None, false, None))
      && n.attempts == 1 && n.worker == None && n.failure == None
  {
    hide Decimal;
  }

  lemma ResolvedClose(h: seq<HistoryEvent>, s: Sched)
    requires WellFormed(h) && s in Scheds(h) && s.activityType == "open_approval_gate"
    requires ResolvedBy(Opens(Scheds(h)), Closes(Scheds(h)), s.eventId).Some?
    ensures
      var close := ResolvedBy(Opens(Scheds(h)), Closes(Scheds(h)), s.eventId).value;
      close in Scheds(h) && close.activityType == "close_approval_gate" && s.eventId < close.eventId && SameGate(s, close)
  {
    ScheduledInOrder(h);
    var ss := Scheds(h);
    OpensInEventOrder(ss);
    OpensAreOpen(ss, s);
    hide Scheds, WellFormed, ResolvedBy, InEventOrder, Opens, Closes, SameGate;
    ResolvedBySameGate(Opens(ss), Closes(ss), s);
    ClosesAreClosing(ss, ResolvedBy(Opens(ss), Closes(ss), s.eventId).value);
  }

  lemma OpensInEventOrder(ss: seq<Sched>)
    requires InEventOrder(ss)
    ensures InEventOrder(Opens(ss))
  {
    OpensInOrder(ss);
  }

  /** An unresolved gate has no decision and no duration: it was cancelled with a run that is over, and
      is parked in one that is not, to expire with the first open timer that says when it fires. */
  lemma WaitingGate(h: seq<HistoryEvent>, now: Now, s: Sched)
    requires WellFormed(h) && s in Scheds(h) && s.activityType == "open_approval_gate"
    requires ResolvedBy(Opens(Scheds(h)), Closes(Scheds(h)), s.eventId).None?
    ensures
      var n, end := NodeOf(h, now, s), LastEnd(h, s.eventId);
      && n in Nodes(h, now) && n.id == "gate:" + Decimal(s.eventId) && n.kind == Gate && n.decision == None && n.duration == None
      && n.attempts == 1 && n.worker == None && n.failure == None
      && n.state == (if now.terminal then Ended(Canceled) else Parked)
      && n.startedAt == (if end.Some? && end.value.at.Some? then end.value.at else s.scheduledAt)
      && n.endedAt == (if now.terminal then None else FirstExpiry(Reduce(h).openTimers))
  {
    hide Reduce, Scheds, Nodes, NodeOf, WellFormed, LastEnd, Decimal, ResolvedBy, Opens, Closes, GateVertex, Ends, FirstExpiry;
    GateIsDrawn(h, now, s);
    GateOpensAt(h, s);
    WaitingFields(s, Reduce(h), now.terminal);
  }

  lemma WaitingFields(s: Sched, r: Reduction, terminal: bool)
    ensures
      var n := GateVertex(s, None, r, terminal).node;
      && n.id == "gate:" + Decimal(s.eventId) && n.kind == Gate && n.decision == None && n.duration == None
      && n.attempts == 1 && n.worker == None && n.failure == None
      && n.state == (if terminal then Ended(Canceled) else Parked) && n.startedAt == OpenedAt(s, r)
      && n.endedAt == (if terminal then None else FirstExpiry(r.openTimers))
  {
    hide Decimal;
  }

  // ---- Timers ---------------------------------------------------------------------------------------------

  predicate OfTimer(e: HistoryEvent, id: string) { (e.TimerStarted? || e.TimerFired? || e.TimerCanceled?) && e.timerId == id }

  /** A timer that was started and has neither fired nor been cancelled. */
  predicate OpenTimer(h: seq<HistoryEvent>, i: int) {
    0 <= i < |h| && h[i].TimerStarted? && forall j | i < j < |h| :: !OfTimer(h[j], h[i].timerId)
  }

  /** When it fires, if both its start and its length are known. */
  function Fires(e: HistoryEvent): Instant
    requires e.TimerStarted?
  {
    if e.at.Some? && e.fireAfter.Some? then Some(e.at.value + e.fireAfter.value) else None
  }

  /** No timer id is used twice, as the server has it. */
  predicate DistinctTimers(h: seq<HistoryEvent>) {
    forall i, j | 0 <= i < j < |h| && h[i].TimerStarted? && h[j].TimerStarted? :: h[i].timerId != h[j].timerId
  }

  lemma {:induction false} SetFresh(ts: seq<Timer>, t: Timer)
    requires forall k | 0 <= k < |ts| :: ts[k].id != t.id
    ensures SetTimer(ts, t) == ts + [t]
  {
    if ts != [] { SetFresh(ts[1..], t); }
  }

  lemma {:induction false} PopAt(ts: seq<Timer>, id: string) returns (k: nat)
    ensures k <= |ts| && (forall i | 0 <= i < k :: ts[i].id != id)
    ensures k < |ts| ==> ts[k].id == id && PopTimer(ts, id) == ts[..k] + ts[k + 1..]
    ensures k == |ts| ==> PopTimer(ts, id) == ts
  {
    if ts == [] || ts[0].id == id {
      k := 0;
    } else {
      k := PopAt(ts[1..], id);
      assert forall i | 0 < i <= k && i < |ts| :: ts[i] == ts[1..][i - 1];
      k := k + 1;
    }
  }

  /** A timer set again takes the place it had, the first one of its id. */
  lemma {:induction false} SetInPlace(ts: seq<Timer>, t: Timer, k: nat)
    requires k < |ts| && ts[k].id == t.id && forall i | 0 <= i < k :: ts[i].id != t.id
    ensures SetTimer(ts, t) == ts[k := t]
  {
    if k > 0 {
      SetInPlace(ts[1..], t, k - 1);
      assert ts[k := t] == [ts[0]] + ts[1..][k - 1 := t];
    } else {
      assert ts[0 := t] == [t] + ts[1..];
    }
  }

  /** `idx` are the positions of the open timers, in order, and `ts` are those timers. */
  ghost predicate TimersAre(h: seq<HistoryEvent>, ts: seq<Timer>, idx: seq<int>) {
    && |idx| == |ts| && (forall k, l | 0 <= k < l < |idx| :: idx[k] < idx[l])
    && (forall k | 0 <= k < |idx| :: OpenTimer(h, idx[k]) && ts[k] == Timer(h[idx[k]].timerId, Fires(h[idx[k]])))
    && (forall i | OpenTimer(h, i) :: i in idx)
  }

  lemma OpenBefore(h: seq<HistoryEvent>, i: int)
    requires h != []
    ensures i < |h| - 1 ==> (OpenTimer(h, i) <==> OpenTimer(h[..|h| - 1], i) && !OfTimer(h[|h| - 1], h[i].timerId))
    ensures OpenTimer(h[..|h| - 1], i) ==> 0 <= i < |h| - 1
    ensures OpenTimer(h, |h| - 1) <==> h[|h| - 1].TimerStarted?
  {}

  lemma AbsorbTimers(r: Reduction, e: HistoryEvent)
    ensures e.TimerStarted? ==> Absorb(r, e).openTimers == SetTimer(r.openTimers, Timer(e.timerId, Fires(e)))
    ensures e.TimerFired? || e.TimerCanceled? ==> Absorb(r, e).openTimers == PopTimer(r.openTimers, e.timerId)
    ensures !e.TimerStarted? && !e.TimerFired? && !e.TimerCanceled? ==> Absorb(r, e).openTimers == r.openTimers
  {
    hide SetTimer, PopTimer;
  }

  lemma StartedTimer(h: seq<HistoryEvent>, ts: seq<Timer>, idx: seq<int>)
    requires h != [] && DistinctTimers(h) && h[|h| - 1].TimerStarted? && TimersAre(h[..|h| - 1], ts, idx)
    ensures TimersAre(h, SetTimer(ts, Timer(h[|h| - 1].timerId, Fires(h[|h| - 1]))), idx + [|h| - 1])
  {
    var n := |h| - 1;
    SetFresh(ts, Timer(h[n].timerId, Fires(h[n])));
    forall i ensures i < n ==> (OpenTimer(h, i) <==> OpenTimer(h[..n], i) && !OfTimer(h[n], h[i].timerId)) { OpenBefore(h, i); }
    OpenBefore(h, n);
    hide SetTimer;
    forall i | OpenTimer(h, i) ensures i in idx + [n] {
      if i < n { assert i in idx; }
    }
  }

  function Skip(k: nat, m: nat): nat { if m < k then m else m + 1 }

  function Without<T>(s: seq<T>, k: nat): seq<T>
    requires k < |s|
  {
    s[..k] + s[k + 1..]
  }

  /** Taking one position out keeps everything else, in order. */
  lemma WithoutAt<T>(s: seq<T>, k: nat)
    requires k < |s|
    ensures |Without(s, k)| == |s| - 1
    ensures forall m | 0 <= m < |s| - 1 :: Without(s, k)[m] == s[Skip(k, m)]
    ensures forall l | 0 <= l < |s| && l != k :: s[l] in Without(s, k)
  {
    forall l | 0 <= l < |s| && l != k ensures s[l] in Without(s, k) {
      assert Without(s, k)[if l < k then l else l - 1] == s[l];
    }
  }

  /** The timer at position `k` is the only open one of its id. */
  lemma OnlyOneOfId(h: seq<HistoryEvent>, ts: seq<Timer>, idx: seq<int>, k: nat, l: nat)
    requires DistinctTimers(h) && h != [] && TimersAre(h[..|h| - 1], ts, idx) && k < |ts| && l < |ts| && k != l
    ensures ts[l].id != ts[k].id
  {
    assert OpenTimer(h[..|h| - 1], idx[k]) && OpenTimer(h[..|h| - 1], idx[l]);
  }

  lemma StaysOpenIff(h: seq<HistoryEvent>, i: int)
    requires h != [] && (h[|h| - 1].TimerFired? || h[|h| - 1].TimerCanceled?)
    ensures OpenTimer(h, i) <==> OpenTimer(h[..|h| - 1], i) && h[i].timerId != h[|h| - 1].timerId
    ensures OpenTimer(h[..|h| - 1], i) ==> 0 <= i < |h| - 1 && h[..|h| - 1][i] == h[i]
  {
    OpenBefore(h, i);
    OpenBefore(h, |h| - 1);
    if i >= |h| - 1 {
      assert !OpenTimer(h[..|h| - 1], i) && !OpenTimer(h, i);
    }
  }

  lemma OpenAreStarts(h: seq<HistoryEvent>)
    ensures forall i | OpenTimer(h, i) :: 0 <= i < |h| && h[i].TimerStarted?
  {}

  lemma RemovedTimer(h: seq<HistoryEvent>, ts: seq<Timer>, idx: seq<int>, k: nat)
    requires h != [] && (h[|h| - 1].TimerFired? || h[|h| - 1].TimerCanceled?) && TimersAre(h[..|h| - 1], ts, idx)
    requires k < |ts| && forall l | 0 <= l < |ts| :: ts[l].id == h[|h| - 1].timerId <==> l == k
    ensures TimersAre(h, Without(ts, k), Without(idx, k))
  {
    hide OpenTimer, Without;
    var n := |h| - 1;
    OpenAreStarts(h);
    OpenAreStarts(h[..n]);
    WithoutAt(idx, k);
    WithoutAt(ts, k);
    var left, rest := Without(idx, k), Without(ts, k);
    forall l, m | 0 <= l < m < |left| ensures left[l] < left[m] {
      assert left[l] == idx[Skip(k, l)] && left[m] == idx[Skip(k, m)];
    }
    forall m | 0 <= m < |left| ensures OpenTimer(h, left[m]) {
      assert left[m] == idx[Skip(k, m)];
      StaysOpenIff(h, left[m]);
    }
    forall m | 0 <= m < |left| ensures rest[m] == Timer(h[left[m]].timerId, Fires(h[left[m]])) {
      assert left[m] == idx[Skip(k, m)] && rest[m] == ts[Skip(k, m)];
    }
    forall i | OpenTimer(h, i) ensures i in left {
      StaysOpenIff(h, i);
      assert i in idx;
      var l :| 0 <= l < |idx| && idx[l] == i;
      assert ts[l].id == h[i].timerId;
    }
  }

  lemma StoppedTimer(h: seq<HistoryEvent>, ts: seq<Timer>, idx: seq<int>) returns (left: seq<int>)
    requires h != [] && (h[|h| - 1].TimerFired? || h[|h| - 1].TimerCanceled?) && DistinctTimers(h) && TimersAre(h[..|h| - 1], ts, idx)
    ensures TimersAre(h, PopTimer(ts, h[|h| - 1].timerId), left)
  {
    hide PopTimer, OpenTimer;
    var n, id := |h| - 1, h[|h| - 1].timerId;
    var k := PopAt(ts, id);
    if k == |ts| {
      left := idx;
      OpenAreStarts(h[..n]);
      forall i ensures OpenTimer(h, i) <==> OpenTimer(h[..n], i) && h[i].timerId != id { StaysOpenIff(h, i); }
    } else {
      left := Without(idx, k);
      forall l | 0 <= l < |ts| && l != k ensures ts[l].id != id { OnlyOneOfId(h, ts, idx, k, l); }
      RemovedTimer(h, ts, idx, k);
    }
  }

  /** The open timers are exactly those started and not stopped, in the order they were started. */
  lemma {:induction false} OpenTimersExactly(h: seq<HistoryEvent>) returns (idx: seq<int>)
    requires DistinctTimers(h)
    ensures TimersAre(h, Reduce(h).openTimers, idx)
  {
    if h == [] {
      idx := [];
    } else {
      var n := |h| - 1;
      assert DistinctTimers(h[..n]);
      idx := OpenTimersExactly(h[..n]);
      AbsorbTimers(Reduce(h[..n]), h[n]);
      var ts := Reduce(h[..n]).openTimers;
      hide Absorb, TimersAre, DistinctTimers, SetTimer, PopTimer;
      if h[n].TimerStarted? {
        StartedTimer(h, ts, idx);
        idx := idx + [n];
      } else if h[n].TimerFired? || h[n].TimerCanceled? {
        idx := StoppedTimer(h, ts, idx);
      } else {
        OtherEvent(h, ts, idx);
      }
    }
  }

  lemma OtherEvent(h: seq<HistoryEvent>, ts: seq<Timer>, idx: seq<int>)
    requires h != [] && TimersAre(h[..|h| - 1], ts, idx)
    requires !h[|h| - 1].TimerStarted? && !h[|h| - 1].TimerFired? && !h[|h| - 1].TimerCanceled?
    ensures TimersAre(h, ts, idx)
  {
    forall i ensures OpenTimer(h, i) <==> OpenTimer(h[..|h| - 1], i) { OpenBefore(h, i); OpenBefore(h, |h| - 1); }
  }

  lemma {:induction false} ExpiryIsFirst(ts: seq<Timer>)
    ensures FirstExpiry(ts) == None ==> forall k | 0 <= k < |ts| :: ts[k].firesAt == None
    ensures FirstExpiry(ts).Some? ==> exists k | 0 <= k < |ts| :: ts[k].firesAt == FirstExpiry(ts) && forall l | 0 <= l < k :: ts[l].firesAt == None
  {
    if ts != [] && ts[0].firesAt.None? {
      ExpiryIsFirst(ts[1..]);
      if FirstExpiry(ts).Some? {
        var k :| 0 <= k < |ts[1..]| && ts[1..][k].firesAt == FirstExpiry(ts) && forall l | 0 <= l < k :: ts[1..][l].firesAt == None;
        assert ts[k + 1].firesAt == FirstExpiry(ts) && forall l | 0 < l < k + 1 :: ts[l] == ts[1..][l - 1];
      }
    } else if ts != [] {
      assert ts[0].firesAt == FirstExpiry(ts);
    }
  }

  /** The expiry shown on a waiting gate is when the earliest started open timer fires, among those
      that say when; there is none exactly when no open timer does. */
  lemma ExpiryFromEvents(h: seq<HistoryEvent>)
    requires DistinctTimers(h)
    ensures
      var expiry := FirstExpiry(Reduce(h).openTimers);
      && (expiry == None <==> forall i | OpenTimer(h, i) :: Fires(h[i]) == None)
      && (expiry.Some? ==> exists i | OpenTimer(h, i) :: Fires(h[i]) == expiry && forall j | OpenTimer(h, j) && j < i :: Fires(h[j]) == None)
  {
    hide Reduce, FirstExpiry, DistinctTimers, TimersAre, OpenTimer;
    var idx := OpenTimersExactly(h);
    ExpiryOfTimers(h, Reduce(h).openTimers, idx);
  }

  lemma ExpiryOfTimers(h: seq<HistoryEvent>, ts: seq<Timer>, idx: seq<int>)
    requires TimersAre(h, ts, idx)
    ensures FirstExpiry(ts) == None <==> forall i | OpenTimer(h, i) :: Fires(h[i]) == None
    ensures FirstExpiry(ts).Some? ==>
      exists i | OpenTimer(h, i) :: Fires(h[i]) == FirstExpiry(ts) && forall j | OpenTimer(h, j) && j < i :: Fires(h[j]) == None
  {
    ExpiryIsFirst(ts);
    hide FirstExpiry;
    if FirstExpiry(ts).Some? {
      var k :| 0 <= k < |ts| && ts[k].firesAt == FirstExpiry(ts) && forall l | 0 <= l < k :: ts[l].firesAt == None;
      assert OpenTimer(h, idx[k]) && Fires(h[idx[k]]) == FirstExpiry(ts);
      forall j | OpenTimer(h, j) && j < idx[k] ensures Fires(h[j]) == None {
        var l := PositionOf(h, ts, idx, j);
        assert l < k;
      }
    } else {
      forall i | OpenTimer(h, i) ensures Fires(h[i]) == None { var l := PositionOf(h, ts, idx, i); }
    }
  }

  lemma PositionOf(h: seq<HistoryEvent>, ts: seq<Timer>, idx: seq<int>, i: int) returns (k: nat)
    requires TimersAre(h, ts, idx) && OpenTimer(h, i)
    ensures k < |ts| && idx[k] == i && ts[k].firesAt == Fires(h[i])
  {
    assert i in idx;
    k :| 0 <= k < |idx| && idx[k] == i;
  }

  // ---- The synthetic wait ------------------------------------------------------------------------------------

  /** A workflow task completed, and nothing was scheduled and no timer started since. */
  predicate ParkedSince(h: seq<HistoryEvent>, i: int) {
    0 <= i < |h| && h[i].WorkflowTaskCompleted? && forall j | i < j < |h| :: !h[j].ActivityScheduled? && !h[j].TimerStarted?
  }

  lemma {:induction false} ParkedIff(h: seq<HistoryEvent>)
    ensures Reduce(h).parked <==> exists i :: ParkedSince(h, i)
  {
    if h != [] {
      var n := |h| - 1;
      ParkedIff(h[..n]);
      AbsorbParked(Reduce(h[..n]), h[n]);
      hide Absorb;
      if h[n].WorkflowTaskCompleted? {
        assert ParkedSince(h, n);
      } else if !h[n].ActivityScheduled? && !h[n].TimerStarted? {
        forall i ensures ParkedSince(h, i) <==> ParkedSince(h[..n], i) {}
      }
    }
  }

  lemma AbsorbParked(r: Reduction, e: HistoryEvent)
    ensures Absorb(r, e).parked ==
      if e.WorkflowTaskCompleted? then true else if e.ActivityScheduled? || e.TimerStarted? then false else r.parked
  {
    hide SetTimer, PopTimer;
  }

  /** A gate of the history that no close has resolved. */
  ghost predicate HasWaitingGate(h: seq<HistoryEvent>) {
    exists s | s in Scheds(h) :: s.activityType == "open_approval_gate" && ResolvedBy(Opens(Scheds(h)), Closes(Scheds(h)), s.eventId).None?
  }

  /** Something is drawn: an activity that is not the close of a gate. */
  ghost predicate DrawsSomething(h: seq<HistoryEvent>) { exists s | s in Scheds(h) :: s.activityType != "close_approval_gate" }

  lemma ParkedAtGateIff(h: seq<HistoryEvent>, now: Now)
    requires WellFormed(h) && !now.terminal
    ensures ParkedAtGate(Drawn(Reduce(h), now)) <==> HasWaitingGate(h)
    ensures Drawn(Reduce(h), now) != [] <==> DrawsSomething(h)
  {
    hide Reduce, Drawn, Scheds, WellFormed, VertexOf, ResolvedBy, Opens, Closes;
    var r, ss := Reduce(h), Scheds(h);
    OrderedIsHistory(h);
    forall v ensures v in Drawn(r, now) <==> exists s | s in ss :: !IsClose(s) && v == VertexOf(r, now, ss, s) { DrawnExactly(r, now, v); }
    forall s ensures VertexOf(r, now, ss, s).node.kind.Gate? && VertexOf(r, now, ss, s).node.state.Parked? <==>
      s.activityType == "open_approval_gate" && ResolvedBy(Opens(ss), Closes(ss), s.eventId).None?
    {
      ParkedVertexIff(r, now, ss, s);
    }
    if s :| s in ss && s.activityType == "open_approval_gate" && ResolvedBy(Opens(ss), Closes(ss), s.eventId).None? {
      assert VertexOf(r, now, ss, s) in Drawn(r, now);
    }
    if s :| s in ss && s.activityType != "close_approval_gate" { assert VertexOf(r, now, ss, s) in Drawn(r, now); }
    if Drawn(r, now) != [] { assert Drawn(r, now)[0] in Drawn(r, now); }
  }

  lemma ParkedVertexIff(r: Reduction, now: Now, ss: seq<Sched>, s: Sched)
    requires !now.terminal
    ensures VertexOf(r, now, ss, s).node.kind.Gate? && VertexOf(r, now, ss, s).node.state.Parked? <==>
      s.activityType == "open_approval_gate" && ResolvedBy(Opens(ss), Closes(ss), s.eventId).None?
  {
    hide ResolvedBy, ActivityState, Decimal, FirstExpiry;
  }

  /** The synthetic wait is drawn exactly when the run goes on with nothing to point at: no pending
      activity or workflow task, no waiting gate, something drawn already, and a last workflow task
      that led to nothing. */
  lemma WaitIsDrawnIff(h: seq<HistoryEvent>, now: Now)
    requires WellFormed(h)
    ensures (exists n | n in Nodes(h, now) :: n.kind == Wait) <==>
      && !now.terminal && now.pending == [] && !now.hasPendingWorkflowTask
      && !HasWaitingGate(h) && DrawsSomething(h) && exists i :: ParkedSince(h, i)
  {
    ParkedIff(h);
    if !now.terminal { ParkedAtGateIff(h, now); }
    WaitAmongVertices(h, now);
    hide Reduce, Drawn, Nodes, WellFormed, HasWaitingGate, DrawsSomething, ParkedSince, ParkedAtGate;
  }

  lemma WaitAmongVertices(h: seq<HistoryEvent>, now: Now)
    requires WellFormed(h)
    ensures (exists n | n in Nodes(h, now) :: n.kind == Wait) <==> NeedsWait(Reduce(h), now, Drawn(Reduce(h), now))
  {
    var r := Reduce(h);
    var vs := Vertices(r, now);
    hide Reduce, Drawn, NeedsWait, MaxKey, WellFormed, Rank, Keys;
    LayeredAt(vs, Keys(vs));
    var ns := Nodes(h, now);
    forall v | v in Drawn(r, now) ensures v.node.kind != Wait { DrawnIsNoWait(h, now, v); }
    if NeedsWait(r, now, Drawn(r, now)) {
      assert ns[|vs| - 1].kind == Wait && ns[|vs| - 1] in ns;
    }
    if n :| n in ns && n.kind == Wait {
      var i :| 0 <= i < |ns| && ns[i] == n;
      assert vs[i].node.kind == Wait && vs[i] in vs;
    }
  }

  lemma DrawnIsNoWait(h: seq<HistoryEvent>, now: Now, v: Vertex)
    requires WellFormed(h) && v in Drawn(Reduce(h), now)
    ensures v.node.kind != Wait
  {
    hide Reduce, Drawn, VertexOf, WellFormed, Ordered;
    DrawnExactly(Reduce(h), now, v);
    var s :| s in Ordered(Reduce(h)) && !IsClose(s) && v == VertexOf(Reduce(h), now, Ordered(Reduce(h)), s);
    NotAWait(Reduce(h), now, Ordered(Reduce(h)), s);
  }

  /** And it stands alone on the last layer. */
  lemma WaitStandsLast(h: seq<HistoryEvent>, now: Now, w: GraphNode, n: GraphNode)
    requires WellFormed(h) && w in Nodes(h, now) && n in Nodes(h, now) && w.kind == Wait && n.kind != Wait
    ensures w == GraphNode("wait", Wait, w.layer, Parked, 1, None, None, None, None, None, None, false) && n.layer < w.layer
  {
    hide Reduce, Vertices, MaxKey, WellFormed, Rank, Drawn;
    var vs := Vertices(Reduce(h), now);
    LayeredAt(vs, Keys(vs));
    var ns := Nodes(h, now);
    var i :| 0 <= i < |ns| && ns[i] == w;
    var j :| 0 <= j < |ns| && ns[j] == n;
    VertexOrWait(h, now, i);
    VertexOrWait(h, now, j);
    RankGrows(Keys(vs), vs[j].layerKey, vs[i].layerKey);
  }

  /** A vertex is the wait, one above all keys drawn, or no wait, and at most the highest of them. */
  lemma VertexOrWait(h: seq<HistoryEvent>, now: Now, i: nat)
    requires WellFormed(h) && i < |Vertices(Reduce(h), now)|
    ensures
      var v, top := Vertices(Reduce(h), now)[i], MaxKey(Drawn(Reduce(h), now));
      && v.layerKey in Keys(Vertices(Reduce(h), now))
      && (if v.node.kind == Wait then v == WaitVertex(top + 1) else v.layerKey <= top)
  {
    hide Reduce, Vertices, MaxKey, WellFormed, Drawn, Keys;
    var drawn, vs := Drawn(Reduce(h), now), Vertices(Reduce(h), now);
    WaitIsLast(Reduce(h), now);
    LastOrDrawn(drawn, vs, i);
    if vs[i] in drawn {
      DrawnIsNoWait(h, now, vs[i]);
      MaxKeyIsMax(drawn);
    }
  }

  lemma LastOrDrawn(drawn: seq<Vertex>, vs: seq<Vertex>, i: nat)
    requires i < |vs| && (vs == drawn || vs == drawn + [WaitVertex(MaxKey(drawn) + 1)])
    ensures vs[i] in drawn || vs[i] == WaitVertex(MaxKey(drawn) + 1)
    ensures vs[i].layerKey in Keys(vs)
  {
    hide MaxKey;
    assert vs[i] in vs;
  }

  lemma RankGrows(keys: set<nat>, low: nat, high: nat)
    requires low in keys && low < high
    ensures Rank(keys, low) < Rank(keys, high)
  {
    assert Below(keys, low) + {low} <= Below(keys, high) && low !in Below(keys, low);
    SubsetIsSmaller(Below(keys, low) + {low}, Below(keys, high));
  }

  lemma {:induction false} SubsetIsSmaller(a: set<nat>, b: set<nat>)
    requires a <= b
    ensures |a| <= |b|
    decreases |a|
  {
    if a != {} {
      var x :| x in a;
      SubsetIsSmaller(a - {x}, b - {x});
    }
  }
}
