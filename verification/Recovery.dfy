/** Attempts, hand-offs and lost windows read back from a history
    (services/api-gateway/ancora_api/recovery.py, `_reduce_history` and `_spans`). */
module Recovery {
  import opened Common
  import opened History

  const QUEUE_GAP_FLOOR_SECONDS := 1.0

  datatype Started = Started(at: Instant, identity: string, attempt: int, lastFailure: Option<string>)

  datatype Reduction = Reduction(
    scheduled: map<nat, Sched>, started: map<nat, Started>, terminal: map<nat, Ending>,
    workers: seq<string>, completed: nat, replayedActivities: nat, handoffs: nat, lastIdentity: Option<string>)

  const EMPTY := Reduction(map[], map[], map[], [], 0, 0, 0, None)

  function SeeWorker(workers: seq<string>, identity: string): seq<string> {
    if identity != "" && identity !in workers then workers + [identity] else workers
  }

  predicate TakesOver(last: Option<string>, identity: string) {
    identity != "" && last.Some? && identity != last.value
  }

  function Absorb(r: Reduction, e: HistoryEvent): Reduction {
    match e
    case ActivityScheduled(s) => r.(scheduled := r.scheduled[s.eventId := s])
    case ActivityStarted(_, at, sid, identity, attempt, failure) =>
      r.(started := r.started[sid := Started(at, identity, attempt, failure)], workers := SeeWorker(r.workers, identity))
    case ActivityCompleted(_, at, sid) =>
      r.(terminal := r.terminal[sid := Ending(Completed, at, None)], completed := r.completed + 1)
    case ActivityFailed(_, at, sid, failure) => r.(terminal := r.terminal[sid := Ending(Failed, at, failure)])
    case ActivityTimedOut(_, at, sid, failure) => r.(terminal := r.terminal[sid := Ending(TimedOut, at, failure)])
    case ActivityCanceled(_, at, sid) => r.(terminal := r.terminal[sid := Ending(Canceled, at, None)])
    case WorkflowTaskStarted(_, _, identity) =>
      var over := TakesOver(r.lastIdentity, identity);
      r.(workers := SeeWorker(r.workers, identity),
         handoffs := if over then r.handoffs + 1 else r.handoffs,
         replayedActivities := if over && r.completed > r.replayedActivities then r.completed else r.replayedActivities,
         lastIdentity := if identity != "" then Some(identity) else r.lastIdentity)
    case _ => r
  }

  function Reduce(h: seq<HistoryEvent>): Reduction {
    if h == [] then EMPTY else Absorb(Reduce(h[..|h| - 1]), h[|h| - 1])
  }

  method ReduceHistory(h: seq<HistoryEvent>) returns (r: Reduction)
    ensures r == Reduce(h)
  {
    var scheduled: map<nat, Sched>, started: map<nat, Started>, terminal: map<nat, Ending> := map[], map[], map[];
    var workers: seq<string>, completed: nat, replayed: nat, handoffs: nat := [], 0, 0, 0;
    var lastIdentity: Option<string> := None;
    for i := 0 to |h|
      invariant Reduction(scheduled, started, terminal, workers, completed, replayed, handoffs, lastIdentity) == Reduce(h[..i])
    {
      assert h[..i + 1][..i] == h[..i];
      match h[i] {
        case ActivityScheduled(s) =>
          scheduled := scheduled[s.eventId := s];
        case ActivityStarted(_, at, sid, identity, attempt, failure) =>
          started := started[sid := Started(at, identity, attempt, failure)];
          if identity != "" && identity !in workers {
            workers := workers + [identity];
          }
        case ActivityCompleted(_, at, sid) =>
          terminal := terminal[sid := Ending(Completed, at, None)];
          completed := completed + 1;
        case ActivityFailed(_, at, sid, failure) =>
          terminal := terminal[sid := Ending(Failed, at, failure)];
        case ActivityTimedOut(_, at, sid, failure) =>
          terminal := terminal[sid := Ending(TimedOut, at, failure)];
        case ActivityCanceled(_, at, sid) =>
          terminal := terminal[sid := Ending(Canceled, at, None)];
        case WorkflowTaskStarted(_, _, identity) =>
          if identity != "" && identity !in workers {
            workers := workers + [identity];
          }
          if identity != "" && lastIdentity.Some? && identity != lastIdentity.value {
            handoffs := handoffs + 1;
            if completed > replayed {
              replayed := completed;
            }
          }
          if identity != "" {
            lastIdentity := Some(identity);
          }
        case _ =>
      }
    }
    assert h[..|h|] == h;
    r := Reduction(scheduled, started, terminal, workers, completed, replayed, handoffs, lastIdentity);
  }

  // ---- Hand-offs ---------------------------------------------------------------------------

  /** Who ran the workflow tasks, anonymous ones skipped. */
  function Identities(h: seq<HistoryEvent>): seq<string> {
    if h == [] then []
    else
      var e := h[|h| - 1];
      Identities(h[..|h| - 1]) + (if e.WorkflowTaskStarted? && e.identity != "" then [e.identity] else [])
  }

  function Changes(ids: seq<string>): nat {
    if |ids| < 2 then 0
    else Changes(ids[..|ids| - 1]) + (if ids[|ids| - 1] != ids[|ids| - 2] then 1 else 0)
  }

  function Completions(h: seq<HistoryEvent>): nat {
    if h == [] then 0 else Completions(h[..|h| - 1]) + (if h[|h| - 1].ActivityCompleted? then 1 else 0)
  }

  /** The workflow task started at `i` runs on another worker than the last named one. */
  predicate HandsOff(h: seq<HistoryEvent>, i: nat)
    requires i < |h|
  {
    && h[i].WorkflowTaskStarted? && h[i].identity != ""
    && Identities(h[..i]) != [] && Identities(h[..i])[|Identities(h[..i])| - 1] != h[i].identity
  }

  /** What one event does to the counters. */
  lemma AbsorbCounts(r: Reduction, e: HistoryEvent)
    ensures
      var r', named := Absorb(r, e), e.WorkflowTaskStarted? && e.identity != "";
      var over := e.WorkflowTaskStarted? && TakesOver(r.lastIdentity, e.identity);
      && r'.completed == r.completed + (if e.ActivityCompleted? then 1 else 0)
      && r'.lastIdentity == (if named then Some(e.identity) else r.lastIdentity)
      && r'.handoffs == r.handoffs + (if over then 1 else 0)
      && r'.replayedActivities == (if over && r.completed > r.replayedActivities then r.completed else r.replayedActivities)
  {}

  lemma {:induction false} LastIdentityIsLast(h: seq<HistoryEvent>)
    ensures var ids := Identities(h);
            Reduce(h).lastIdentity == if ids == [] then None else Some(ids[|ids| - 1])
    ensures Reduce(h).completed == Completions(h)
    ensures Reduce(h).replayedActivities <= Completions(h)
  {
    hide Absorb;
    if h != [] {
      LastIdentityIsLast(h[..|h| - 1]);
      AbsorbCounts(Reduce(h[..|h| - 1]), h[|h| - 1]);
    }
  }

  /** The last event is a hand-off exactly when the reduction takes it for one. */
  lemma LastHandsOff(h: seq<HistoryEvent>)
    requires h != []
    ensures
      var most, e := h[..|h| - 1], h[|h| - 1];
      && (HandsOff(h, |h| - 1) <==> e.WorkflowTaskStarted? && TakesOver(Reduce(most).lastIdentity, e.identity))
      && Reduce(h).handoffs == Reduce(most).handoffs + (if HandsOff(h, |h| - 1) then 1 else 0)
      && Reduce(h).replayedActivities == if HandsOff(h, |h| - 1) then Completions(most) else Reduce(most).replayedActivities
  {
    hide Absorb, Identities, Completions;
    var most, e := h[..|h| - 1], h[|h| - 1];
    LastIdentityIsLast(most);
    AbsorbCounts(Reduce(most), e);
  }

  /** Hand-offs are counted exactly: one for each change in the sequence of named workers. */
  lemma {:induction false} HandoffsAreChanges(h: seq<HistoryEvent>)
    ensures Reduce(h).handoffs == Changes(Identities(h))
  {
    hide Reduce;
    if h == [] {
      assert Reduce(h) == EMPTY by { NothingReduced(); }
    } else {
      var most, e := h[..|h| - 1], h[|h| - 1];
      HandoffsAreChanges(most);
      LastHandsOff(h);
      var ids := Identities(most);
      if e.WorkflowTaskStarted? && e.identity != "" {
        assert (ids + [e.identity])[..|ids|] == ids;
      } else {
        assert Identities(h) == ids;
      }
    }
  }

  lemma NothingReduced()
    ensures Reduce([]) == EMPTY
  {}

  lemma HandsOffInPrefix(h: seq<HistoryEvent>, n: nat, i: nat)
    requires i < n <= |h|
    ensures HandsOff(h[..n], i) <==> HandsOff(h, i)
    ensures h[..n][..i] == h[..i]
  {
    hide Identities;
    assert h[..n][..i] == h[..i];
  }

  /** `replayed_activities` is what had completed when the run last changed hands. */
  lemma {:induction false} ReplayedIsCompletionsAtLastHandoff(h: seq<HistoryEvent>, i: nat)
    requires i < |h| && HandsOff(h, i) && forall j | i < j < |h| :: !HandsOff(h, j)
    ensures Reduce(h).replayedActivities == Completions(h[..i])
    decreases |h|
  {
    hide Reduce, HandsOff, Completions;
    var n := |h| - 1;
    LastHandsOff(h);
    if i < n {
      HandsOffInPrefix(h, n, i);
      forall j | i < j < n ensures !HandsOff(h[..n], j) {
        HandsOffInPrefix(h, n, j);
      }
      ReplayedIsCompletionsAtLastHandoff(h[..n], i);
    }
  }

  lemma {:induction false} NothingReplayedWithoutHandoff(h: seq<HistoryEvent>)
    requires forall j | 0 <= j < |h| :: !HandsOff(h, j)
    ensures Reduce(h).replayedActivities == 0 && Reduce(h).handoffs == 0
  {
    hide Reduce, HandsOff, Completions;
    if h == [] {
      NothingReduced();
    } else {
      var n := |h| - 1;
      LastHandsOff(h);
      forall j | 0 <= j < n ensures !HandsOff(h[..n], j) {
        HandsOffInPrefix(h, n, j);
      }
      NothingReplayedWithoutHandoff(h[..n]);
    }
  }

  // ---- Spans -----------------------------------------------------------------------------------

  datatype SpanOutcome = Queued | Lost | Running | Ended(outcome: Outcome)

  datatype Span = Span(
    activityId: string, attempt: int, worker: Option<string>, outcome: SpanOutcome,
    startedAt: Instant, endedAt: Instant, failure: Option<string>, lostAttempts: int, approximate: bool)

  /** The activities an attempt is running for right now; a later entry wins. */
  function InFlight(ps: seq<Pending>): map<string, Pending> {
    if ps == [] then map[]
    else
      var p := ps[|ps| - 1];
      if p.started then InFlight(ps[..|ps| - 1])[p.activityId := p] else InFlight(ps[..|ps| - 1])
  }

  predicate Waited(scheduledAt: Instant, startedAt: Instant) {
    scheduledAt.Some? && startedAt.Some? && startedAt.value - scheduledAt.value > QUEUE_GAP_FLOOR_SECONDS
  }

  function LostSpan(s: Sched, attempt: int, until: Instant, failure: Option<string>): Span {
    Span(s.activityId, attempt - 1, None, Lost, s.scheduledAt, until, failure, attempt - 1, true)
  }

  function QueuedSpan(s: Sched, until: Instant): Span {
    Span(s.activityId, 1, None, Queued, s.scheduledAt, until, None, 0, false)
  }

  /** Every attempt of one activity that can be accounted for. */
  function SpansOf(s: Sched, r: Reduction, inFlight: map<string, Pending>): seq<Span> {
    var ended := if s.eventId in r.terminal then Some(r.terminal[s.eventId]) else None;
    if s.eventId !in r.started then
      if s.activityId in inFlight && ended.None? then
        var p := inFlight[s.activityId];
        var attempt := OrOne(p.attempt);
        var before :=
          if attempt > 1 && p.lastStartedAt.Some? then [LostSpan(s, attempt, p.lastStartedAt, p.lastFailure)]
          else if !(attempt > 1 && p.lastStartedAt.Some?) && Waited(s.scheduledAt, p.lastStartedAt) then [QueuedSpan(s, p.lastStartedAt)]
          else [];
        before + [Span(s.activityId, attempt, NonEmpty(p.worker), Running,
                       if p.lastStartedAt.Some? then p.lastStartedAt else s.scheduledAt, None, None, 0, false)]
      else if ended.Some? then
        [Span(s.activityId, 1, None, Ended(ended.value.outcome), s.scheduledAt, ended.value.at, ended.value.failure, 0, true)]
      else [Span(s.activityId, 1, None, Queued, s.scheduledAt, None, None, 0, false)]
    else
      var st := r.started[s.eventId];
      var before :=
        if st.attempt > 1 then [LostSpan(s, st.attempt, st.at, st.lastFailure)]
        else if Waited(s.scheduledAt, st.at) then [QueuedSpan(s, st.at)]
        else [];
      before + [Span(s.activityId, st.attempt, NonEmpty(st.identity),
                     if ended.Some? then Ended(ended.value.outcome) else Running, st.at,
                     if ended.Some? then ended.value.at else None, if ended.Some? then ended.value.failure else None, 0, false)]
  }

  function AllSpans(r: Reduction, ids: seq<nat>, inFlight: map<string, Pending>): seq<Span>
    requires forall id | id in ids :: id in r.scheduled
  {
    if ids == [] then []
    else AllSpans(r, ids[..|ids| - 1], inFlight) + SpansOf(r.scheduled[ids[|ids| - 1]], r, inFlight)
  }

  method CollectInFlight(ps: seq<Pending>) returns (inFlight: map<string, Pending>)
    ensures inFlight == InFlight(ps)
  {
    inFlight := map[];
    for i := 0 to |ps|
      invariant inFlight == InFlight(ps[..i])
    {
      assert ps[..i + 1][..i] == ps[..i];
      if ps[i].started {
        inFlight := inFlight[ps[i].activityId := ps[i]];
      }
    }
    assert ps[..|ps|] == ps;
  }

  method Spans(r: Reduction, ps: seq<Pending>) returns (spans: seq<Span>)
    ensures forall id | id in Ascending(r.scheduled.Keys) :: id in r.scheduled
    ensures spans == AllSpans(r, Ascending(r.scheduled.Keys), InFlight(ps))
  {
    hide Ascending, InFlight, SpansOf;
    var inFlight := CollectInFlight(ps);
    var ids := SortIds(r.scheduled.Keys);
    assert forall id | id in ids :: id in r.scheduled by { AscendingIsSorted(r.scheduled.Keys); }
    spans := [];
    for i := 0 to |ids|
      invariant spans == AllSpans(r, ids[..i], inFlight)
    {
      assert ids[..i + 1][..i] == ids[..i];
      var more := SpansOfOne(r.scheduled[ids[i]], r, inFlight);
      spans := spans + more;
    }
    assert ids[..|ids|] == ids;
  }

  method SpansOfOne(s: Sched, r: Reduction, inFlight: map<string, Pending>) returns (spans: seq<Span>)
    ensures spans == SpansOf(s, r, inFlight)
  {
    spans := [];
    var ended := if s.eventId in r.terminal then Some(r.terminal[s.eventId]) else None;
    if s.eventId !in r.started {
      if s.activityId in inFlight && ended.None? {
        var p := inFlight[s.activityId];
        var attemptNow := OrOne(p.attempt);
        if attemptNow > 1 && p.lastStartedAt.Some? {
          spans := spans + [LostSpan(s, attemptNow, p.lastStartedAt, p.lastFailure)];
        } else if Waited(s.scheduledAt, p.lastStartedAt) {
          spans := spans + [QueuedSpan(s, p.lastStartedAt)];
        }
        spans := spans + [Span(s.activityId, attemptNow, NonEmpty(p.worker), Running,
          if p.lastStartedAt.Some? then p.lastStartedAt else s.scheduledAt, None, None, 0, false)];
        return;
      }
      spans := spans + [match ended
        case Some(end) => Span(s.activityId, 1, None, Ended(end.outcome), s.scheduledAt, end.at, end.failure, 0, true)
        case None => Span(s.activityId, 1, None, Queued, s.scheduledAt, None, None, 0, false)];
      return;
    }
    var st := r.started[s.eventId];
    if st.attempt > 1 {
      spans := spans + [LostSpan(s, st.attempt, st.at, st.lastFailure)];
    } else if Waited(s.scheduledAt, st.at) {
      spans := spans + [QueuedSpan(s, st.at)];
    }
    spans := spans + [Span(s.activityId, st.attempt, NonEmpty(st.identity),
      if ended.Some? then Ended(ended.value.outcome) else Running, st.at,
      if ended.Some? then ended.value.at else None, if ended.Some? then ended.value.failure else None, 0, false)];
  }

  // ---- The accounts balance -----------------------------------------------------------------------

  function LostIn(spans: seq<Span>): int {
    if spans == [] then 0 else LostIn(spans[..|spans| - 1]) + spans[|spans| - 1].lostAttempts
  }

  /** The server's record of the latest attempt suffices to account for the earlier ones: its
      number is at least 1 and, if it is only known to be in flight and not the first, so is
      the instant it began. */
  predicate AttemptIsKnown(s: Sched, r: Reduction, inFlight: map<string, Pending>) {
    if s.eventId in r.started then r.started[s.eventId].attempt >= 1
    else if s.activityId in inFlight && s.eventId !in r.terminal then
      var p := inFlight[s.activityId];
      OrOne(p.attempt) >= 1 && (OrOne(p.attempt) > 1 ==> p.lastStartedAt.Some?)
    else true
  }

  /** One or two spans per activity; two of them meet, and the first begins when the activity
      was scheduled. A single span of a started activity leaves no gap above the floor. */
  lemma SpansTile(s: Sched, r: Reduction, inFlight: map<string, Pending>)
    ensures var spans := SpansOf(s, r, inFlight);
      && 1 <= |spans| <= 2
      && (forall i | 0 <= i < |spans| :: spans[i].activityId == s.activityId)
      && (|spans| == 2 ==>
            && spans[0].startedAt == s.scheduledAt && spans[0].endedAt == spans[1].startedAt
            && (spans[0].outcome.Lost? || spans[0].outcome.Queued?) && !spans[1].outcome.Lost?)
      && (|spans| == 1 ==> !Waited(s.scheduledAt, spans[0].startedAt))
  {}

  /** Lost attempts plus the one shown last add up to the attempt number, exactly when the
      latest attempt is known well enough. */
  lemma LostAttemptsAreExactIff(s: Sched, r: Reduction, inFlight: map<string, Pending>)
    ensures var spans := SpansOf(s, r, inFlight);
            LostIn(spans) + 1 == spans[|spans| - 1].attempt <==> AttemptIsKnown(s, r, inFlight)
  {
    LostInSmall();
    SpansTile(s, r, inFlight);
    var spans := SpansOf(s, r, inFlight);
    assert spans == if |spans| == 1 then [spans[0]] else [spans[0], spans[1]];
  }

  lemma LostInSmall()
    ensures forall a: Span :: LostIn([a]) == a.lostAttempts
    ensures forall a: Span, b: Span :: LostIn([a, b]) == a.lostAttempts + b.lostAttempts
  {
    forall a: Span ensures LostIn([a]) == a.lostAttempts {
      assert [a][..0] == [];
    }
    forall a: Span, b: Span ensures LostIn([a, b]) == a.lostAttempts + b.lostAttempts {
      assert [a, b][..1] == [a] && [a][..0] == [];
    }
  }

  // ---- What the spans say, from the events --------------------------------------------------------

  lemma {:induction false} StartedIsLastStart(h: seq<HistoryEvent>, sid: nat)
    ensures
      var e, started := LastStart(h, sid), Reduce(h).started;
      && (sid in started <==> e.Some?)
      && (e.Some? ==> started[sid] == Started(e.value.at, e.value.identity, e.value.attempt, e.value.lastFailure))
  {
    if h != [] {
      hide Absorb;
      StartedIsLastStart(h[..|h| - 1], sid);
      AbsorbStart(Reduce(h[..|h| - 1]), h[|h| - 1], sid);
    }
  }

  lemma AbsorbStart(r: Reduction, e: HistoryEvent, sid: nat)
    ensures
      var after := Absorb(r, e).started;
      if Starts(e, sid) then sid in after && after[sid] == Started(e.at, e.identity, e.attempt, e.lastFailure)
      else (sid in after <==> sid in r.started) && (sid in after ==> after[sid] == r.started[sid])
  {
    hide SeeWorker, TakesOver;
  }

  lemma {:induction false} TerminalIsLastEnd(h: seq<HistoryEvent>, sid: nat)
    ensures
      var e, terminal := LastEnd(h, sid), Reduce(h).terminal;
      (sid in terminal <==> e.Some?) && (e.Some? ==> EndedBy(e.value, terminal[sid]))
  {
    if h != [] {
      hide Absorb;
      TerminalIsLastEnd(h[..|h| - 1], sid);
      AbsorbEnd(Reduce(h[..|h| - 1]), h[|h| - 1], sid);
    }
  }

  lemma AbsorbEnd(r: Reduction, e: HistoryEvent, sid: nat)
    ensures
      var after := Absorb(r, e).terminal;
      if Ends(e, sid) then sid in after && EndedBy(e, after[sid])
      else (sid in after <==> sid in r.terminal) && (sid in after ==> after[sid] == r.terminal[sid])
  {
    hide SeeWorker, TakesOver;
  }

  /** The last entry that says an attempt of the activity is running. */
  function LastRunning(ps: seq<Pending>, activityId: string): Option<Pending> {
    if ps == [] then None
    else if ps[|ps| - 1].started && ps[|ps| - 1].activityId == activityId then Some(ps[|ps| - 1])
    else LastRunning(ps[..|ps| - 1], activityId)
  }

  lemma {:induction false} InFlightIsLastRunning(ps: seq<Pending>, id: string)
    ensures (if id in InFlight(ps) then Some(InFlight(ps)[id]) else None) == LastRunning(ps, id)
  {
    if ps != [] { InFlightIsLastRunning(ps[..|ps| - 1], id); }
  }

  /** The last span of a started activity is its last recorded start: that attempt on that worker,
      from then until the event that ended it, or running. */
  lemma LastSpanOfStarted(h: seq<HistoryEvent>, ps: seq<Pending>, s: Sched)
    requires LastStart(h, s.eventId).Some?
    ensures
      var spans, start, end := SpansOf(s, Reduce(h), InFlight(ps)), LastStart(h, s.eventId).value, LastEnd(h, s.eventId);
      && spans != []
      && var last := spans[|spans| - 1];
         && last.attempt == start.attempt && last.startedAt == start.at && !last.approximate
         && last.worker == (if start.identity == "" then None else Some(start.identity))
         && (end.Some? ==> last.outcome.Ended? && EndedBy(end.value, Ending(last.outcome.outcome, last.endedAt, last.failure)))
         && (end.None? ==> last.outcome == Running && last.endedAt == None && last.failure == None)
  {
    StartedIsLastStart(h, s.eventId);
    TerminalIsLastEnd(h, s.eventId);
    hide Reduce, LastStart, LastEnd, InFlight, Waited;
  }

  /** The last span of an activity history never saw start: ended as the ending event says, on no
      known worker and only approximately placed; or else what the server says is running; or else
      still queued. */
  lemma LastSpanOfUnstarted(h: seq<HistoryEvent>, ps: seq<Pending>, s: Sched)
    requires LastStart(h, s.eventId).None?
    ensures
      var spans, end, live := SpansOf(s, Reduce(h), InFlight(ps)), LastEnd(h, s.eventId), LastRunning(ps, s.activityId);
      && spans != []
      && var last := spans[|spans| - 1];
         && (end.Some? ==>
               && last.attempt == 1 && last.worker == None && last.startedAt == s.scheduledAt && last.approximate
               && last.outcome.Ended? && EndedBy(end.value, Ending(last.outcome.outcome, last.endedAt, last.failure)))
         && (end.None? && live.Some? ==>
               && last.outcome == Running && last.endedAt == None && !last.approximate
               && last.attempt == (if live.value.attempt == 0 then 1 else live.value.attempt)
               && last.worker == (if live.value.worker == "" then None else Some(live.value.worker))
               && last.startedAt == (if live.value.lastStartedAt.Some? then live.value.lastStartedAt else s.scheduledAt))
         && (end.None? && live.None? ==>
               && last.outcome == Queued && last.attempt == 1 && last.worker == None
               && last.startedAt == s.scheduledAt && last.endedAt == None)
  {
    StartedIsLastStart(h, s.eventId);
    TerminalIsLastEnd(h, s.eventId);
    InFlightIsLastRunning(ps, s.activityId);
    hide Reduce, LastStart, LastEnd, LastRunning, InFlight, Waited;
  }

  /** What the record of an attempt says came before it: an earlier attempt that was lost, if it is
      not the first, or a wait of more than a second on the queue. */
  predicate SomethingBefore(s: Sched, attempt: int, startedAt: Instant) {
    attempt > 1 || (s.scheduledAt.Some? && startedAt.Some? && startedAt.value - s.scheduledAt.value > 1.0)
  }

  /** The first of two spans of a started activity: there exactly when something came before its last
      start, lost with the attempts that left no trace, or else queued. */
  lemma FirstSpanOfStarted(h: seq<HistoryEvent>, ps: seq<Pending>, s: Sched)
    requires LastStart(h, s.eventId).Some?
    ensures
      var spans, start := SpansOf(s, Reduce(h), InFlight(ps)), LastStart(h, s.eventId).value;
      && (|spans| == 2 <==> SomethingBefore(s, start.attempt, start.at))
      && (|spans| == 2 && start.attempt > 1 ==> spans[0] == LostBefore(s, start.attempt, start.at, start.lastFailure))
      && (|spans| == 2 && start.attempt <= 1 ==>
            spans[0].outcome == Queued && spans[0].attempt == 1 && spans[0].worker == None && spans[0].failure == None
            && spans[0].lostAttempts == 0 && !spans[0].approximate)
  {
    StartedIsLastStart(h, s.eventId);
    hide Reduce, LastStart, InFlight;
  }

  /** The attempts before `attempt`, from the schedule to its start. */
  function LostBefore(s: Sched, attempt: int, until: Instant, failure: Option<string>): Span {
    Span(s.activityId, attempt - 1, None, Lost, s.scheduledAt, until, failure, attempt - 1, true)
  }

  /** The same for an attempt only the server knows of. */
  lemma FirstSpanOfRunning(h: seq<HistoryEvent>, ps: seq<Pending>, s: Sched)
    requires LastStart(h, s.eventId).None? && LastEnd(h, s.eventId).None? && LastRunning(ps, s.activityId).Some?
    ensures
      var spans, live := SpansOf(s, Reduce(h), InFlight(ps)), LastRunning(ps, s.activityId).value;
      var attempt := if live.attempt == 0 then 1 else live.attempt;
      && (|spans| == 2 <==> live.lastStartedAt.Some? && SomethingBefore(s, attempt, live.lastStartedAt))
      && (|spans| == 2 && attempt > 1 ==> spans[0] == LostBefore(s, attempt, live.lastStartedAt, live.lastFailure))
      && (|spans| == 2 && attempt <= 1 ==>
            spans[0].outcome == Queued && spans[0].attempt == 1 && spans[0].worker == None && spans[0].failure == None
            && spans[0].lostAttempts == 0 && !spans[0].approximate)
  {
    StartedIsLastStart(h, s.eventId);
    TerminalIsLastEnd(h, s.eventId);
    InFlightIsLastRunning(ps, s.activityId);
    hide Reduce, LastStart, LastEnd, LastRunning, InFlight;
  }

  // ---- The workers seen ---------------------------------------------------------------------------------

  /** The event names the worker. */
  predicate Names(e: HistoryEvent, worker: string) {
    worker != "" && ((e.ActivityStarted? && e.identity == worker) || (e.WorkflowTaskStarted? && e.identity == worker))
  }

  lemma AbsorbWorkers(r: Reduction, e: HistoryEvent)
    ensures
      var named := if e.ActivityStarted? || e.WorkflowTaskStarted? then e.identity else "";
      Absorb(r, e).workers == if named != "" && named !in r.workers then r.workers + [named] else r.workers
  {}

  /** The workers listed are exactly those named, each once, and the list only grows at its end, so
      they stand in the order in which they were first named. */
  lemma {:induction false} WorkersInOrderOfAppearance(h: seq<HistoryEvent>)
    ensures forall w :: w in Reduce(h).workers <==> exists i | 0 <= i < |h| :: Names(h[i], w)
    ensures forall i, j | 0 <= i < j < |Reduce(h).workers| :: Reduce(h).workers[i] != Reduce(h).workers[j]
    ensures h != [] ==> Reduce(h[..|h| - 1]).workers <= Reduce(h).workers
  {
    if h != [] {
      var n := |h| - 1;
      WorkersInOrderOfAppearance(h[..n]);
      AbsorbWorkers(Reduce(h[..n]), h[n]);
      hide Absorb;
      forall w ensures w in Reduce(h).workers <==> exists i | 0 <= i < |h| :: Names(h[i], w) {
        if Names(h[n], w) {
          assert w in Reduce(h).workers;
        } else if i :| 0 <= i < |h| && Names(h[i], w) {
          assert h[..n][i] == h[i];
        }
        if w in Reduce(h[..n]).workers {
          var i :| 0 <= i < n && Names(h[..n][i], w);
          assert h[i] == h[..n][i];
        }
      }
    }
  }
}
