/** Decoded workflow history events, as both views of a run read them
    (services/api-gateway/ancora_api/history.py). An unset timestamp or timeout is `None`. */
module History {
  import opened Common

  type Instant = Option<real>

  /** How an approval gate was closed, as its closing activity recorded it. */
  datatype GateDecision = GateDecision(approved: Option<bool>, timedOut: bool, decidedBy: Option<string>)

  const GATE_OPEN := "open_approval_gate"
  const GATE_CLOSE := "close_approval_gate"

  /** A scheduled activity. `decidedBy` is the workflow task that commanded it. */
  datatype Sched = Sched(
    eventId: nat, decidedBy: nat, activityId: string, activityType: string, taskQueue: string,
    scheduledAt: Instant, gateId: Option<string>, decision: Option<GateDecision>)

  datatype HistoryEvent =
    | ActivityScheduled(sched: Sched)
    | ActivityStarted(id: nat, at: Instant, scheduledId: nat, identity: string, attempt: int, lastFailure: Option<string>)
    | ActivityCompleted(id: nat, at: Instant, scheduledId: nat)
    | ActivityFailed(id: nat, at: Instant, scheduledId: nat, failure: Option<string>)
    | ActivityTimedOut(id: nat, at: Instant, scheduledId: nat, failure: Option<string>)
    | ActivityCanceled(id: nat, at: Instant, scheduledId: nat)
    | TimerStarted(id: nat, at: Instant, timerId: string, fireAfter: Option<real>)
    | TimerFired(id: nat, timerId: string)
    | TimerCanceled(id: nat, timerId: string)
    | WorkflowTaskStarted(id: nat, at: Instant, identity: string)
    | WorkflowTaskCompleted(id: nat)
    | WorkflowTaskTimedOut(id: nat, at: Instant)
    | Other(id: nat)

  function EventId(e: HistoryEvent): nat { if e.ActivityScheduled? then e.sched.eventId else e.id }

  datatype Ending = Ending(outcome: Outcome, at: Instant, failure: Option<string>)

  datatype Outcome = Completed | Failed | TimedOut | Canceled

  /** The end an event brings to the activity it names. */
  function EndingOf(e: HistoryEvent): Option<(nat, Ending)> {
    match e
    case ActivityCompleted(_, at, sid) => Some((sid, Ending(Completed, at, None)))
    case ActivityFailed(_, at, sid, failure) => Some((sid, Ending(Failed, at, failure)))
    case ActivityTimedOut(_, at, sid, failure) => Some((sid, Ending(TimedOut, at, failure)))
    case ActivityCanceled(_, at, sid) => Some((sid, Ending(Canceled, at, None)))
    case _ => None
  }

  /** What the server says about an activity this instant. */
  datatype Pending = Pending(
    activityId: string, started: bool, attempt: int, lastStartedAt: Instant, worker: string, lastFailure: Option<string>)

  /** The server appends events with increasing ids; commands follow the workflow task that
      issued them; an activity ends once. */
  ghost predicate WellFormed(h: seq<HistoryEvent>) {
    && (forall i, j | 0 <= i < j < |h| :: EventId(h[i]) < EventId(h[j]))
    && (forall i, j | 0 <= i < j < |h| && h[i].ActivityScheduled? && h[j].ActivityScheduled? ::
          h[i].sched.decidedBy <= h[j].sched.decidedBy)
    && (forall i, j | 0 <= i < j < |h| && EndingOf(h[i]).Some? && EndingOf(h[j]).Some? ::
          EndingOf(h[i]).value.0 != EndingOf(h[j]).value.0)
  }

  // ---- The events of one activity -------------------------------------------------------

  predicate Starts(e: HistoryEvent, sid: nat) { e.ActivityStarted? && e.scheduledId == sid }

  predicate Ends(e: HistoryEvent, sid: nat) {
    (e.ActivityCompleted? || e.ActivityFailed? || e.ActivityTimedOut? || e.ActivityCanceled?) && e.scheduledId == sid
  }

  /** The last event that starts the activity. */
  function LastStart(h: seq<HistoryEvent>, sid: nat): (e: Option<HistoryEvent>)
    ensures e.Some? ==> Starts(e.value, sid)
  {
    if h == [] then None
    else if Starts(h[|h| - 1], sid) then Some(h[|h| - 1])
    else LastStart(h[..|h| - 1], sid)
  }

  /** The last event that ends it; in a well-formed history there is at most one. */
  function LastEnd(h: seq<HistoryEvent>, sid: nat): (e: Option<HistoryEvent>)
    ensures e.Some? ==> Ends(e.value, sid)
  {
    if h == [] then None
    else if Ends(h[|h| - 1], sid) then Some(h[|h| - 1])
    else LastEnd(h[..|h| - 1], sid)
  }

  /** The server's word on the activity; a later entry wins. */
  function LastPending(ps: seq<Pending>, activityId: string): Option<Pending> {
    if ps == [] then None
    else if ps[|ps| - 1].activityId == activityId then Some(ps[|ps| - 1])
    else LastPending(ps[..|ps| - 1], activityId)
  }

  /** How an activity ended, by the kind of event that ended it. */
  predicate EndedBy(e: HistoryEvent, end: Ending) {
    match e
    case ActivityCompleted(_, at, _) => end.outcome == Completed && end.at == at && end.failure == None
    case ActivityFailed(_, at, _, failure) => end.outcome == Failed && end.at == at && end.failure == failure
    case ActivityTimedOut(_, at, _, failure) => end.outcome == TimedOut && end.at == at && end.failure == failure
    case ActivityCanceled(_, at, _) => end.outcome == Canceled && end.at == at && end.failure == None
    case _ => false
  }

  // ---- Ids in ascending order ---------------------------------------------------------

  ghost function Greatest(s: set<nat>): (m: nat)
    requires s != {}
    ensures m in s && forall x | x in s :: x <= m
  {
    GreatestExists(s);
    var m :| m in s && forall x | x in s :: x <= m;
    m
  }

  lemma {:induction false} GreatestExists(s: set<nat>)
    requires s != {}
    ensures exists m :: m in s && forall x | x in s :: x <= m
    decreases |s|
  {
    var m :| m in s;
    if s != {m} {
      GreatestExists(s - {m});
      var g :| g in s - {m} && forall x | x in s - {m} :: x <= g;
      var top := if g < m then m else g;
      forall x | x in s ensures x <= top {
        if x != m { assert x in s - {m}; }
      }
      assert top in s;
    }
  }

  /** Python's `sorted` on a set of ids. */
  ghost function Ascending(s: set<nat>): seq<nat>
    decreases |s|
  {
    if s == {} then [] else Ascending(s - {Greatest(s)}) + [Greatest(s)]
  }

  lemma {:induction false} AscendingIsSorted(s: set<nat>)
    ensures forall x :: x in Ascending(s) <==> x in s
    ensures forall i, j | 0 <= i < j < |Ascending(s)| :: Ascending(s)[i] < Ascending(s)[j]
    ensures |Ascending(s)| == |s|
    decreases |s|
  {
    if s != {} {
      var g := Greatest(s);
      var rest := Ascending(s - {g});
      AscendingIsSorted(s - {g});
      forall i | 0 <= i < |rest| ensures rest[i] < g {
        assert rest[i] in rest;
      }
    }
  }

  lemma AscendingStep(s: set<nat>, m: nat)
    requires m in s && forall x | x in s :: x <= m
    ensures Ascending(s) == Ascending(s - {m}) + [m]
  {
    assert m == Greatest(s);
  }

  lemma AscendingAppends(s: set<nat>, x: nat)
    requires forall y | y in s :: y < x
    ensures Ascending(s + {x}) == Ascending(s) + [x]
  {
    AscendingStep(s + {x}, x);
    assert (s + {x}) - {x} == s;
  }

  method SortIds(s: set<nat>) returns (ids: seq<nat>)
    ensures ids == Ascending(s)
  {
    hide Ascending;
    ids := [];
    var rest := s;
    while rest != {}
      invariant Ascending(s) == Ascending(rest) + ids
      decreases rest
    {
      GreatestExists(rest);
      var m :| m in rest && forall x | x in rest :: x <= m;
      AscendingStep(rest, m);
      ids := [m] + ids;
      rest := rest - {m};
    }
    NothingAscends();
  }

  lemma NothingAscends()
    ensures Ascending({}) == []
  {}
}
