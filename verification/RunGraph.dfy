/** A run's DAG rebuilt from its history (services/api-gateway/ancora_api/graph.py). */
module RunGraph {
  import opened Common
  import opened History
  import opened GateMatching
  import opened CriticalPath

  // ---- Reduction of the event log -------------------------------------------------------

  datatype Start = Start(at: Instant, identity: string, attempt: int)

  datatype Timer = Timer(id: string, firesAt: Instant)

  datatype Reduction = Reduction(
    scheduled: map<nat, Sched>, started: map<nat, Start>, terminal: map<nat, Ending>,
    openTimers: seq<Timer>, parked: bool)

  const EMPTY := Reduction(map[], map[], map[], [], false)

  /** A dictionary keeps a key's place when its value is replaced. */
  function SetTimer(ts: seq<Timer>, t: Timer): seq<Timer> {
    if ts == [] then [t]
    else if ts[0].id == t.id then [t] + ts[1..]
    else [ts[0]] + SetTimer(ts[1..], t)
  }

  function PopTimer(ts: seq<Timer>, id: string): seq<Timer> {
    if ts == [] then []
    else if ts[0].id == id then ts[1..]
    else [ts[0]] + PopTimer(ts[1..], id)
  }

  function FiresAt(at: Instant, fireAfter: Option<real>): Instant {
    if at.Some? && fireAfter.Some? then Some(at.value + fireAfter.value) else None
  }

  function Absorb(r: Reduction, e: HistoryEvent): Reduction {
    if EndingOf(e).Some? then r.(terminal := r.terminal[EndingOf(e).value.0 := EndingOf(e).value.1])
    else
      match e
      case ActivityScheduled(s) => r.(scheduled := r.scheduled[s.eventId := s], parked := false)
      case ActivityStarted(_, at, sid, identity, attempt, _) =>
        r.(started := r.started[sid := Start(at, identity, OrOne(attempt))])
      case TimerStarted(_, at, id, after) => r.(openTimers := SetTimer(r.openTimers, Timer(id, FiresAt(at, after))), parked := false)
      case TimerFired(_, id) => r.(openTimers := PopTimer(r.openTimers, id))
      case TimerCanceled(_, id) => r.(openTimers := PopTimer(r.openTimers, id))
      case WorkflowTaskCompleted(_) => r.(parked := true)
      case _ => r
  }

  function Reduce(h: seq<HistoryEvent>): Reduction {
    if h == [] then EMPTY else Absorb(Reduce(h[..|h| - 1]), h[|h| - 1])
  }

  method ReduceHistory(h: seq<HistoryEvent>) returns (r: Reduction)
    ensures r == Reduce(h)
  {
    var scheduled: map<nat, Sched>, started: map<nat, Start>, terminal: map<nat, Ending> := map[], map[], map[];
    var openTimers: seq<Timer>, parked := [], false;
    for i := 0 to |h|
      invariant Reduction(scheduled, started, terminal, openTimers, parked) == Reduce(h[..i])
    {
      assert h[..i + 1][..i] == h[..i];
      match h[i] {
        case ActivityScheduled(s) =>
          scheduled, parked := scheduled[s.eventId := s], false;
        case ActivityStarted(_, at, sid, identity, attempt, _) =>
          started := started[sid := Start(at, identity, OrOne(attempt))];
        case ActivityCompleted(_, at, sid) =>
          terminal := terminal[sid := Ending(Completed, at, None)];
        case ActivityFailed(_, at, sid, failure) =>
          terminal := terminal[sid := Ending(Failed, at, failure)];
        case ActivityTimedOut(_, at, sid, failure) =>
          terminal := terminal[sid := Ending(TimedOut, at, failure)];
        case ActivityCanceled(_, at, sid) =>
          terminal := terminal[sid := Ending(Canceled, at, None)];
        case TimerStarted(_, at, id, after) =>
          openTimers, parked := SetTimer(openTimers, Timer(id, FiresAt(at, after))), false;
        case TimerFired(_, id) =>
          openTimers := PopTimer(openTimers, id);
        case TimerCanceled(_, id) =>
          openTimers := PopTimer(openTimers, id);
        case WorkflowTaskCompleted(_) =>
          parked := true;
        case _ =>
      }
    }
    assert h[..|h|] == h;
    r := Reduction(scheduled, started, terminal, openTimers, parked);
  }

  // ---- Vertices ---------------------------------------------------------------------------

  function Digit(n: nat): char
    requires n < 10
  {
    "0123456789"[n]
  }

  function Decimal(n: nat): string {
    if n < 10 then [Digit(n)] else Decimal(n / 10) + [Digit(n % 10)]
  }

  lemma {:induction false} DecimalIsInjective(m: nat, n: nat)
    requires Decimal(m) == Decimal(n)
    ensures m == n
  {
    DecimalSize(m);
    DecimalSize(n);
    assert Decimal(m)[|Decimal(m)| - 1] == Digit(m % 10) && Decimal(n)[|Decimal(n)| - 1] == Digit(n % 10);
    assert m % 10 == n % 10;
    if m >= 10 && n >= 10 {
      assert Decimal(m)[..|Decimal(m)| - 1] == Decimal(m / 10) && Decimal(n)[..|Decimal(n)| - 1] == Decimal(n / 10);
      DecimalIsInjective(m / 10, n / 10);
    }
  }

  lemma {:induction false} DecimalSize(n: nat)
    ensures |Decimal(n)| >= 1 && (n >= 10 <==> |Decimal(n)| >= 2)
  {
    if n >= 10 { DecimalSize(n / 10); }
  }

  function ActivityVertexId(sid: nat): string { "a" + Decimal(sid) }

  function GateVertexId(sid: nat): string { "gate:" + Decimal(sid) }

  const WAIT_ID := "wait"

  datatype Vertex = Vertex(node: GraphNode, layerKey: nat)

  datatype Progress = Progress(
    state: NodeState, attempts: int, worker: Option<string>, startedAt: Instant, endedAt: Instant, failure: Option<string>)

  function Or<T>(a: Option<T>, b: Option<T>): Option<T> { if a.Some? then a else b }

  function MaxInt(a: int, b: int): int { if a >= b then a else b }

  /** One activity's attempts collapsed into a single state; pending state supplies the
      attempt in flight, which history does not show. */
  function ActivityState(s: Sched, r: Reduction, pending: map<string, Pending>): Progress {
    var sid := s.eventId;
    var start := if sid in r.started then Some(r.started[sid]) else None;
    var live := if s.activityId in pending then Some(pending[s.activityId]) else None;
    var recorded := if start.Some? then start.value.attempt else 1;
    var attempts := if live.Some? then MaxInt(recorded, OrOne(live.value.attempt)) else recorded;
    var ranOn := if start.Some? then NonEmpty(start.value.identity) else None;
    var worker := if live.Some? then Or(NonEmpty(live.value.worker), ranOn) else ranOn;
    var began := Or(if start.Some? then start.value.at else None, if live.Some? then live.value.lastStartedAt else None);
    if sid in r.terminal then
      var end := r.terminal[sid];
      Progress(Ended(end.outcome), attempts, worker, Or(began, s.scheduledAt), end.at, end.failure)
    else if live.Some? then
      if live.value.started then Progress(Running, attempts, worker, live.value.lastStartedAt, None, live.value.lastFailure)
      else Progress(if attempts > 1 then Retrying else Queued, attempts, worker, s.scheduledAt, None, live.value.lastFailure)
    else if start.Some? then Progress(Running, attempts, worker, began, None, None)
    else Progress(Queued, attempts, None, s.scheduledAt, None, None)
  }

  function Duration(startedAt: Instant, endedAt: Instant): Option<real> {
    if startedAt.Some? && endedAt.Some? then Some(MaxR(0.0, endedAt.value - startedAt.value)) else None
  }

  function ActivityVertex(s: Sched, r: Reduction, pending: map<string, Pending>): Vertex {
    var p := ActivityState(s, r, pending);
    Vertex(
      GraphNode(
        ActivityVertexId(s.eventId), if s.activityType == "run_node" then NodeCall else Activity, 0, p.state, p.attempts,
        p.worker, p.startedAt, p.endedAt, Duration(p.startedAt, p.endedAt), p.failure, None, false),
      s.decidedBy)
  }

  function FirstExpiry(ts: seq<Timer>): Instant {
    if ts == [] then None else if ts[0].firesAt.Some? then ts[0].firesAt else FirstExpiry(ts[1..])
  }

  /** The gate an opening activity brackets, given the close that resolved it, if any. */
  function GateVertex(open: Sched, resolution: Option<Sched>, r: Reduction, terminalRun: bool): Vertex {
    var openedAt := if open.eventId in r.terminal then r.terminal[open.eventId].at else None;
    var startedAt := Or(openedAt, open.scheduledAt);
    var waiting := GraphNode(
      GateVertexId(open.eventId), Gate, 0, Parked, 1, None, startedAt, None, None, None, None, false);
    var node := match resolution
      case Some(close) =>
        waiting.(state := Ended(Completed), endedAt := close.scheduledAt, duration := Duration(startedAt, close.scheduledAt),
                 decision := Some(if close.decision.Some? then close.decision.value else GateDecision(None, false, None)))
      case None =>
        if terminalRun then waiting.(state := Ended(Canceled))
        else if r.openTimers != [] then waiting.(endedAt := FirstExpiry(r.openTimers))
        else waiting;
    Vertex(node, open.decidedBy)
  }

  /** The first close that resolves the open `id` (no second one can, see `ResolvedIsGone`). */
  function ResolvedBy(opens: seq<Sched>, closes: seq<Sched>, id: nat): Option<Sched> {
    if closes == [] then None
    else
      var n := |closes| - 1;
      var early := ResolvedBy(opens, closes[..n], id);
      if early.Some? then early
      else if Resolves(opens, closes, n) == Some(id) then Some(closes[n])
      else None
  }

  // ---- The matching loop, on a dictionary of queues ------------------------------------------

  function At(queues: map<string, seq<nat>>, gate: string): seq<nat> { if gate in queues then queues[gate] else [] }

  method CollectOpens(opens: seq<Sched>) returns (unmatched: map<string, seq<nat>>)
    ensures forall g :: At(unmatched, g) == OpenIds(opens, g)
  {
    hide OpenKey;
    unmatched := map[];
    for i := 0 to |opens|
      invariant forall g :: At(unmatched, g) == OpenIds(opens[..i], g)
    {
      assert opens[..i + 1][..i] == opens[..i];
      var key := OpenKey(opens[i]);
      unmatched := unmatched[key := At(unmatched, key) + [opens[i].eventId]];
    }
    assert opens[..|opens|] == opens;
  }

  /** Each close takes the oldest open of its gate that precedes it; the dictionary says
      which close resolved which open. */
  method MatchGates(opens: seq<Sched>, closes: seq<Sched>) returns (resolved: map<nat, Sched>)
    requires InEventOrder(opens)
    ensures forall id :: (if id in resolved then Some(resolved[id]) else None) == ResolvedBy(opens, closes, id)
  {
    hide OpenKey, CloseKey, InEventOrder, OpenIds, FirstBefore, Waiting, ResolvedBy, Resolves, Without;
    var unmatched := CollectOpens(opens);
    resolved := map[];
    BeforeAnyClose(opens);
    for n := 0 to |closes|
      invariant forall g :: At(unmatched, g) == Waiting(opens, closes[..n], g)
      invariant forall id :: (if id in resolved then Some(resolved[id]) else None) == ResolvedBy(opens, closes[..n], id)
    {
      var key := CloseKey(closes[n]);
      var queue := At(unmatched, key);
      var taken := FirstBefore(queue, closes[n].eventId);
      OneMoreClose(opens, closes[..n], closes[n]);
      assert closes[..n + 1] == closes[..n] + [closes[n]];
      if taken.Some? {
        var sid := queue[taken.value];
        resolved := resolved[sid := closes[n]];
        unmatched := unmatched[key := queue[..taken.value] + queue[taken.value + 1..]];
      }
    }
    assert closes[..|closes|] == closes;
  }

  lemma BeforeAnyClose(opens: seq<Sched>)
    ensures forall g :: Waiting(opens, [], g) == OpenIds(opens, g)
    ensures forall id :: ResolvedBy(opens, [], id) == None
  {}

  /** What one more close resolves, and what it leaves waiting. */
  lemma OneMoreClose(opens: seq<Sched>, closes: seq<Sched>, close: Sched)
    requires InEventOrder(opens)
    ensures
      var queue, more := Waiting(opens, closes, CloseKey(close)), closes + [close];
      var taken := FirstBefore(queue, close.eventId);
      && (forall id :: ResolvedBy(opens, more, id)
                    == if taken.Some? && id == queue[taken.value] then Some(close) else ResolvedBy(opens, closes, id))
      && (forall g :: Waiting(opens, more, g)
                    == if taken.Some? && g == CloseKey(close) then queue[..taken.value] + queue[taken.value + 1..]
                       else Waiting(opens, closes, g))
  {
    hide OpenKey, CloseKey, InEventOrder, OpenIds, FirstBefore;
    var queue, more := Waiting(opens, closes, CloseKey(close)), closes + [close];
    var taken := FirstBefore(queue, close.eventId);
    assert more[..|closes|] == closes;
    if taken.Some? && ResolvedBy(opens, closes, queue[taken.value]).Some? {
      ResolvedIsGone(opens, closes, queue[taken.value], CloseKey(close));
    }
  }

  predicate Ascends(ids: seq<nat>) { forall i, j | 0 <= i < j < |ids| :: ids[i] < ids[j] }

  lemma EarlierThanLast(opens: seq<Sched>)
    requires InEventOrder(opens) && opens != []
    ensures InEventOrder(opens[..|opens| - 1])
    ensures var most := opens[..|opens| - 1]; forall i | 0 <= i < |most| :: most[i].eventId < opens[|opens| - 1].eventId
  {}

  lemma {:induction false} OpenIdsAscend(opens: seq<Sched>, gate: string)
    requires InEventOrder(opens)
    ensures Ascends(OpenIds(opens, gate))
    ensures forall id | id in OpenIds(opens, gate) :: exists i | 0 <= i < |opens| :: opens[i].eventId == id && OpenKey(opens[i]) == gate
  {
    hide OpenKey, InEventOrder;
    if opens != [] {
      var most, last := opens[..|opens| - 1], opens[|opens| - 1];
      assert InEventOrder(most) && forall i | 0 <= i < |most| :: most[i].eventId < last.eventId by { EarlierThanLast(opens); }
      OpenIdsAscend(most, gate);
      var ids := OpenIds(most, gate);
      forall k | 0 <= k < |ids| ensures ids[k] < last.eventId {
        assert ids[k] in ids;
        var i :| 0 <= i < |most| && most[i].eventId == ids[k];
        assert opens[i] == most[i];
      }
      forall id | id in OpenIds(opens, gate)
        ensures exists i | 0 <= i < |opens| :: opens[i].eventId == id && OpenKey(opens[i]) == gate
      {
        if id in ids {
          var i :| 0 <= i < |most| && most[i].eventId == id && OpenKey(most[i]) == gate;
          assert opens[i] == most[i];
        } else {
          assert opens[|opens| - 1].eventId == id;
        }
      }
    }
  }

  lemma WithoutIsSubsequence(waiting: seq<nat>, closeId: nat)
    requires Ascends(waiting)
    ensures var rest := Without(waiting, closeId);
      && Ascends(rest)
      && (forall x | x in rest :: x in waiting)
      && (FirstBefore(waiting, closeId).Some? ==> waiting[FirstBefore(waiting, closeId).value] !in rest)
  {}

  lemma {:induction false} WaitingAscends(opens: seq<Sched>, closes: seq<Sched>, gate: string)
    requires InEventOrder(opens)
    ensures Ascends(Waiting(opens, closes, gate))
    ensures forall id | id in Waiting(opens, closes, gate) :: id in OpenIds(opens, gate)
  {
    hide OpenKey, CloseKey, InEventOrder, Without;
    if closes == [] {
      OpenIdsAscend(opens, gate);
    } else {
      var n := |closes| - 1;
      WaitingAscends(opens, closes[..n], gate);
      WithoutIsSubsequence(Waiting(opens, closes[..n], gate), closes[n].eventId);
    }
  }

  /** An open that has been resolved is in no queue any more. */
  lemma {:induction false} ResolvedIsGone(opens: seq<Sched>, closes: seq<Sched>, id: nat, gate: string)
    requires InEventOrder(opens) && ResolvedBy(opens, closes, id).Some?
    ensures id !in Waiting(opens, closes, gate)
  {
    hide OpenKey, CloseKey, InEventOrder, Without, FirstBefore, OpenIds;
    var n := |closes| - 1;
    var before := Waiting(opens, closes[..n], gate);
    WaitingAscends(opens, closes[..n], gate);
    WithoutIsSubsequence(before, closes[n].eventId);
    if ResolvedBy(opens, closes[..n], id).Some? {
      ResolvedIsGone(opens, closes[..n], id, gate);
    } else if CloseKey(closes[n]) != gate && id in before {
      WaitingAscends(opens, closes[..n], CloseKey(closes[n]));
      OneGateEach(opens, id, gate, CloseKey(closes[n]));
    }
  }

  lemma OneGateEach(opens: seq<Sched>, id: nat, g: string, h: string)
    requires InEventOrder(opens) && id in OpenIds(opens, g) && id in OpenIds(opens, h)
    ensures g == h
  {
    hide OpenKey, OpenIds;
    OpenIdsAscend(opens, g);
    OpenIdsAscend(opens, h);
    var i :| 0 <= i < |opens| && opens[i].eventId == id && OpenKey(opens[i]) == g;
    var j :| 0 <= j < |opens| && opens[j].eventId == id && OpenKey(opens[j]) == h;
    assert i == j;
  }
}
