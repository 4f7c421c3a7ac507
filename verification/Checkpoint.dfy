/** Checkpointed compute resumed across attempts (services/activity-workers/
    ancora_activity_worker/tasks.py, activities.py and ray_bridge.py). */
module Checkpoint {
  import opened Common

  /** The progress token: batches done and the checksum carried so far. */
  datatype Token = Token(batch: int, acc: int)

  // ---- The compute -----------------------------------------------------------------------------

  datatype Outcome = Returned(checksum: int) | Cancelled | InjectedCrash(batch: int)

  datatype Trace = Trace(reports: seq<Token>, outcome: Outcome)

  /** The batch that follows `t`. */
  function OneBatch(t: Token): Token { Token(t.batch + 1, t.acc + (t.batch + 1) * 7) }

  /** What the compute reports and how it ends; `cancelled` holds the batch numbers at which it
      would find cancellation requested. */
  function Compute(t: Token, total: int, failAt: int, cancelled: set<int>): Trace
    decreases total - t.batch
  {
    if t.batch >= total then Trace([], Returned(t.acc))
    else if t.batch in cancelled then Trace([], Cancelled)
    else
      var next := OneBatch(t);
      if failAt != 0 && next.batch == failAt then Trace([next], InjectedCrash(failAt))
      else
        var rest := Compute(next, total, failAt, cancelled);
        Trace([next] + rest.reports, rest.outcome)
  }

  /** The progress channel of one attempt. `reports` is everything ever put in it. */
  class LiveProgress {
    var latest: Option<Token>
    ghost var reports: seq<Token>

    ghost predicate Valid()
      reads this
    {
      latest == if reports == [] then None else Some(reports[|reports| - 1])
    }

    constructor ()
      ensures Valid() && reports == []
    {
      latest, reports := None, [];
    }

    method Report(t: Token)
      requires Valid()
      modifies this
      ensures Valid() && reports == old(reports) + [t]
    {
      latest, reports := Some(t), reports + [t];
    }
  }

  method BatchedCompute(progress: LiveProgress, total: int, startFrom: int, acc: int, failAt: int, cancelled: set<int>)
    returns (outcome: Outcome)
    requires progress.Valid()
    modifies progress
    ensures progress.Valid()
    ensures var trace := Compute(Token(startFrom, acc), total, failAt, cancelled);
            outcome == trace.outcome && progress.reports == old(progress.reports) + trace.reports
  {
    var checksum, i := acc, startFrom;
    ghost var whole := Compute(Token(startFrom, acc), total, failAt, cancelled);
    while i < total
      invariant progress.Valid()
      invariant var rest := Compute(Token(i, checksum), total, failAt, cancelled);
                rest.outcome == whole.outcome && old(progress.reports) + whole.reports == progress.reports + rest.reports
      decreases total - i
    {
      if i in cancelled {
        return Cancelled;
      }
      checksum := checksum + (i + 1) * 7;
      progress.Report(Token(i + 1, checksum));
      if failAt != 0 && i + 1 == failAt {
        return InjectedCrash(i + 1);
      }
      i := i + 1;
    }
    return Returned(checksum);
  }

  /** The checksum of batches 1 to `b`. */
  function Weight(b: int): int { 7 * (b * (b + 1) / 2) }

  lemma WeightGrows(b: int)
    ensures Weight(b + 1) == Weight(b) + (b + 1) * 7
  {
    assert (b + 1) * (b + 2) == b * (b + 1) + 2 * (b + 1);
    assert b * (b + 1) % 2 == 0 by { Even(b); }
  }

  lemma Even(b: int)
    ensures b * (b + 1) % 2 == 0
  {
    var h := b / 2;
    if b == 2 * h {
      assert b * (b + 1) == 2 * (h * (b + 1));
    } else {
      assert b + 1 == 2 * (h + 1);
      assert b * (b + 1) == 2 * (b * (h + 1));
    }
  }

  predicate OnTrack(t: Token) { t.acc == Weight(t.batch) }

  lemma {:induction false} ComputeKeepsOffset(t: Token, total: int, failAt: int, cancelled: set<int>, k: nat)
    requires k < |Compute(t, total, failAt, cancelled).reports|
    ensures var r := Compute(t, total, failAt, cancelled).reports[k];
            r.batch == t.batch + k + 1 <= total && r.acc - Weight(r.batch) == t.acc - Weight(t.batch)
    decreases total - t.batch
  {
    hide Weight;
    WeightGrows(t.batch);
    if k > 0 {
      ComputeKeepsOffset(OneBatch(t), total, failAt, cancelled, k - 1);
    }
  }

  /** The compute returns exactly when no batch left to do is the injected crash or finds
      cancellation, and then adds the weight of just those batches. */
  lemma {:induction false} ComputeReturnsIff(t: Token, total: int, failAt: int, cancelled: set<int>)
    ensures var trace := Compute(t, total, failAt, cancelled);
      && (trace.outcome.Returned? <==>
            (failAt == 0 || !(t.batch < failAt <= total)) && forall b | t.batch <= b < total :: b !in cancelled)
      && (trace.outcome.Returned? && t.batch <= total ==>
            trace.outcome.checksum == t.acc + Weight(total) - Weight(t.batch) && |trace.reports| == total - t.batch)
    decreases total - t.batch
  {
    if t.batch < total {
      hide Weight;
      WeightGrows(t.batch);
      ComputeReturnsIff(OneBatch(t), total, failAt, cancelled);
    }
  }

  lemma UninterruptedChecksum(total: nat)
    ensures Compute(Token(0, 0), total, 0, {}).outcome == Returned(Weight(total))
  {
    ComputeReturnsIff(Token(0, 0), total, 0, {});
  }

  // ---- The driver --------------------------------------------------------------------------------

  /** The last heartbeat's first detail as the next attempt finds it. */
  datatype Details = Absent | NotARecord | Record(batch: Option<int>, acc: Option<int>)

  function ResumePoint(d: Details): Token {
    if d.Record? then Token(if d.batch.Some? then d.batch.value else 0, if d.acc.Some? then d.acc.value else 0)
    else Token(0, 0)
  }

  function Heartbeat(t: Token): Details { Record(Some(t.batch), Some(t.acc)) }

  /** Resuming gives the uninterrupted result exactly when the details put the compute on track:
      a record that lost one of its two fields does not. */
  lemma ResumeIsRightIff(d: Details, total: nat)
    ensures var t := ResumePoint(d);
      Compute(t, total, 0, {}).outcome == Compute(Token(0, 0), total, 0, {}).outcome
      <==> if t.batch <= total then OnTrack(t) else t.acc == Weight(total)
  {
    UninterruptedChecksum(total);
    ComputeReturnsIff(ResumePoint(d), total, 0, {});
  }

  /** A record that lost its batch starts over and counts everything again on top of what it kept; one
      that lost its checksum skips the batches it names. */
  lemma HalfARecord(total: nat, batch: int, acc: int)
    requires batch <= total
    ensures Compute(ResumePoint(Record(None, Some(acc))), total, 0, {}).outcome == Returned(acc + Weight(total))
    ensures Compute(ResumePoint(Record(Some(batch), None)), total, 0, {}).outcome == Returned(Weight(total) - Weight(batch))
    ensures Compute(ResumePoint(NotARecord), total, 0, {}).outcome == Compute(ResumePoint(Absent), total, 0, {}).outcome == Returned(Weight(total))
  {
    hide Weight;
    assert Weight(0) == 0 by { WeightOfNothing(); }
    ComputeReturnsIff(Token(0, acc), total, 0, {});
    ComputeReturnsIff(Token(batch, 0), total, 0, {});
    ComputeReturnsIff(Token(0, 0), total, 0, {});
  }

  lemma WeightOfNothing()
    ensures Weight(0) == 0
  {}

  /** The crash is armed for the first attempt alone: every later one returns from wherever it starts. */
  lemma RetriesReturn(t: Token, total: int, failAt: int, attempt: nat)
    requires attempt != 1
    ensures Compute(t, total, FailAt(failAt, attempt), {}).outcome.Returned?
  {
    ComputeReturnsIff(t, total, FailAt(failAt, attempt), {});
  }

  /** A detached compute is always bound to attempt 1 and starts from nothing, so with a crash
      injected within its batches no attempt of it ever returns. */
  lemma DetachedReturnsIff(total: nat, failAt: int)
    ensures Compute(Token(0, 0), total, FailAt(failAt, 1), {}).outcome.Returned? <==> !(0 < failAt <= total)
  {
    ComputeReturnsIff(Token(0, 0), total, failAt, {});
  }

  function FailAt(failAt: int, attempt: nat): int { if attempt == 1 then failAt else 0 }

  // ---- Attempts one after another ------------------------------------------------------------------

  datatype Phase = Working | Crashed | Finished(checksum: int)

  datatype Attempt = Attempt(number: nat, at: Token, latest: Option<Token>, phase: Phase)

  /** `beats` is every heartbeat the server took. `executed` counts batches done, `lost` those a
      dying worker had done beyond the last heartbeat. */
  datatype State = State(launched: nat, current: Option<Attempt>, beats: seq<Token>, result: Option<int>, executed: nat, lost: int)

  const START := State(0, None, [], None, 0, 0)

  datatype Step =
    | Launch(details: Details)
    | Work
    | Finish
    | Beat
    | Close
    | Die

  function Last(beats: seq<Token>): Details { if beats == [] then Absent else Heartbeat(beats[|beats| - 1]) }

  predicate Enabled(s: State, total: nat, step: Step) {
    match step
    case Launch(d) => s.current.None? && s.result.None? && (d == Absent || exists t | t in s.beats :: d == Heartbeat(t))
    case Work => s.current.Some? && s.current.value.phase.Working? && s.current.value.at.batch < total
    case Finish => s.current.Some? && s.current.value.phase.Working? && s.current.value.at.batch >= total
    case Beat => s.current.Some? && s.current.value.latest.Some?
    case Close => s.current.Some? && !s.current.value.phase.Working?
    case Die => s.current.Some?
  }

  function Flushed(beats: seq<Token>, latest: Option<Token>): seq<Token> {
    if latest.Some? then beats + [latest.value] else beats
  }

  function Next(s: State, total: nat, failAt: int, step: Step): State
    requires Enabled(s, total, step)
  {
    match step
    case Launch(d) =>
      s.(launched := s.launched + 1, current := Some(Attempt(s.launched + 1, ResumePoint(d), None, Working)))
    case Work =>
      var a := s.current.value;
      var t := OneBatch(a.at);
      var crash := FailAt(failAt, a.number) != 0 && t.batch == FailAt(failAt, a.number);
      s.(current := Some(a.(at := t, latest := Some(t), phase := if crash then Crashed else Working)), executed := s.executed + 1)
    case Finish =>
      s.(current := Some(s.current.value.(phase := Finished(s.current.value.at.acc))))
    case Beat =>
      s.(beats := Flushed(s.beats, s.current.value.latest))
    case Close =>
      var a := s.current.value;
      s.(beats := Flushed(s.beats, a.latest), current := None,
         result := if a.phase.Finished? then Some(a.phase.checksum) else None)
    case Die =>
      s.(current := None, lost := s.lost + s.current.value.at.batch - ResumePoint(Last(s.beats)).batch)
  }

  function Run(total: nat, failAt: int, steps: seq<Step>): State {
    if steps == [] then START
    else
      var s := Run(total, failAt, steps[..|steps| - 1]);
      if Enabled(s, total, steps[|steps| - 1]) then Next(s, total, failAt, steps[|steps| - 1]) else s
  }

  // ---- A launched attempt computes what `Compute` says ----------------------------------------------

  function Works(s: State, total: nat, failAt: int, n: nat): State
    decreases n
  {
    if n == 0 then s
    else Works(if Enabled(s, total, Work) then Next(s, total, failAt, Work) else s, total, failAt, n - 1)
  }

  /** The attempt `a` after the first `n` of the trace's reports. */
  function AfterReports(a: Attempt, trace: Trace, n: nat): Attempt
    requires n <= |trace.reports|
  {
    if n == 0 then a
    else
      var last := trace.reports[n - 1];
      a.(at := last, latest := Some(last), phase := if n == |trace.reports| && trace.outcome.InjectedCrash? then Crashed else Working)
  }

  /** The `n`-th batch of a working attempt makes the `n`-th report of `Compute`, and the attempt
      crashes, or has nothing left to do and finishes, just where `Compute` ends. */
  lemma {:induction false} WorkFollowsCompute(s: State, total: nat, failAt: int, n: nat)
    requires s.current.Some? && s.current.value.phase.Working?
    requires n <= |Compute(s.current.value.at, total, FailAt(failAt, s.current.value.number), {}).reports|
    ensures
      var a := s.current.value;
      var trace := Compute(a.at, total, FailAt(failAt, a.number), {});
      var t := Works(s, total, failAt, n);
      && t == s.(current := Some(AfterReports(a, trace, n)), executed := s.executed + n)
      && (n == |trace.reports| ==>
            match trace.outcome
            case Returned(c) => Enabled(t, total, Finish) && Next(t, total, failAt, Finish).current.value.phase == Finished(c)
            case InjectedCrash(_) => t.current.value.phase.Crashed?
            case Cancelled => false)
    decreases n
  {
    var a := s.current.value;
    if n > 0 {
      var next := Next(s, total, failAt, Work);
      if next.current.value.phase.Working? {
        WorkFollowsCompute(next, total, failAt, n - 1);
      }
    }
  }

  /** Every launch gets the last heartbeat taken, as the local backend's attempts do. */
  ghost predicate Faithful(total: nat, failAt: int, steps: seq<Step>) {
    forall i | 0 <= i < |steps| && steps[i].Launch? :: steps[i].details == Last(Run(total, failAt, steps[..i]).beats)
  }

  predicate OnTrackUpTo(t: Token, total: nat) { OnTrack(t) && 0 <= t.batch <= total }

  predicate AllOnTrack(s: State, total: nat) {
    && (forall t | t in s.beats :: OnTrackUpTo(t, total))
    && (s.current.Some? ==>
          && OnTrackUpTo(s.current.value.at, total)
          && (s.current.value.latest.Some? ==> s.current.value.latest.value == s.current.value.at)
          && (s.current.value.phase.Finished? ==> s.current.value.phase.checksum == Weight(total)))
    && (s.result.Some? ==> s.result.value == Weight(total))
  }

  lemma StepOnTrack(s: State, total: nat, failAt: int, step: Step)
    requires AllOnTrack(s, total) && Enabled(s, total, step)
    ensures AllOnTrack(Next(s, total, failAt, step), total)
  {
    assert OnTrack(Token(0, 0));
    if step.Work? {
      WeightGrows(s.current.value.at.batch);
    }
  }

  /** Whatever crashes and whichever earlier checkpoint each attempt is handed: every checkpoint
      carries the weight of its batches, and a result is that of a run never interrupted. */
  lemma {:induction false} ResumeEqualsUninterrupted(total: nat, failAt: int, steps: seq<Step>)
    ensures var s := Run(total, failAt, steps);
      && AllOnTrack(s, total)
      && (s.result.Some? ==> Returned(s.result.value) == Compute(Token(0, 0), total, 0, {}).outcome)
  {
    UninterruptedChecksum(total);
    if steps != [] {
      hide Next, Enabled;
      var s := Run(total, failAt, steps[..|steps| - 1]);
      ResumeEqualsUninterrupted(total, failAt, steps[..|steps| - 1]);
      if Enabled(s, total, steps[|steps| - 1]) { StepOnTrack(s, total, failAt, steps[|steps| - 1]); }
    }
  }

  /** The batch count of the last heartbeat; zero when there was none. */
  function Reported(s: State): int { ResumePoint(Last(s.beats)).batch }

  predicate Accounted(s: State) {
    && s.lost >= 0 && Reported(s) >= 0
    && (s.current.None? ==> s.executed == Reported(s) + s.lost)
    && (s.current.Some? ==>
          var a := s.current.value;
          && s.executed == a.at.batch + s.lost && Reported(s) <= a.at.batch
          && (if a.latest.Some? then a.latest.value == a.at else a.at.batch == Reported(s)))
  }

  lemma StepAccounted(s: State, total: nat, failAt: int, step: Step)
    requires Accounted(s) && Enabled(s, total, step) && (step.Launch? ==> step.details == Last(s.beats))
    ensures Accounted(Next(s, total, failAt, step))
  {}

  lemma FaithfulPrefix(total: nat, failAt: int, steps: seq<Step>, n: nat)
    requires Faithful(total, failAt, steps) && n < |steps|
    ensures Faithful(total, failAt, steps[..n])
    ensures steps[n].Launch? ==> steps[n].details == Last(Run(total, failAt, steps[..n]).beats)
  {
    hide Run, Last;
    assert forall i | 0 <= i < n :: steps[..n][..i] == steps[..i];
  }

  /** With each attempt resuming at the last heartbeat, batches are redone only where a worker
      died: the batches executed are those reported, plus those its deaths left unreported. An
      injected crash redoes none, because its last checkpoint is flushed first. */
  lemma {:induction false} OnlyUnreportedWorkIsRedone(total: nat, failAt: int, steps: seq<Step>)
    requires Faithful(total, failAt, steps)
    ensures Accounted(Run(total, failAt, steps))
  {
    hide Next, Enabled, Accounted, Faithful, Last;
    if steps == [] {
      StartAccounted();
    } else {
      var n := |steps| - 1;
      var s := Run(total, failAt, steps[..n]);
      FaithfulPrefix(total, failAt, steps, n);
      OnlyUnreportedWorkIsRedone(total, failAt, steps[..n]);
      if Enabled(s, total, steps[n]) { StepAccounted(s, total, failAt, steps[n]); }
    }
  }

  lemma StartAccounted()
    ensures Accounted(START)
  {}

  lemma {:induction false} NothingLostWithoutDeaths(total: nat, failAt: int, steps: seq<Step>)
    requires forall i | 0 <= i < |steps| :: !steps[i].Die?
    ensures Run(total, failAt, steps).lost == 0
  {
    if steps != [] {
      NothingLostWithoutDeaths(total, failAt, steps[..|steps| - 1]);
    }
  }

  /** Over a whole job with a result: the batches executed are its own and the lost ones, and
      without a death there are no lost ones, whatever crash was injected. */
  lemma ResultCostsItsBatchesAndTheLost(total: nat, failAt: int, steps: seq<Step>)
    requires Faithful(total, failAt, steps) && Run(total, failAt, steps).result.Some?
    ensures var s := Run(total, failAt, steps); s.executed == total + s.lost
    ensures (forall i | 0 <= i < |steps| :: !steps[i].Die?) ==> Run(total, failAt, steps).executed == total
  {
    hide Run, Faithful;
    OnlyUnreportedWorkIsRedone(total, failAt, steps);
    ResultMeansAllReported(total, failAt, steps);
    if forall i | 0 <= i < |steps| :: !steps[i].Die? { NothingLostWithoutDeaths(total, failAt, steps); }
  }

  predicate Ends(s: State, total: nat) {
    && (s.result.Some? ==> s.current.None? && Reported(s) == total)
    && (s.current.Some? && s.current.value.phase.Finished? ==> s.current.value.at.batch == total)
  }

  lemma StepEnds(s: State, total: nat, failAt: int, step: Step)
    requires Ends(s, total) && Accounted(s) && AllOnTrack(s, total) && Enabled(s, total, step)
    ensures Ends(Next(s, total, failAt, step), total)
  {}

  lemma {:induction false} ResultMeansAllReported(total: nat, failAt: int, steps: seq<Step>)
    requires Faithful(total, failAt, steps)
    ensures Ends(Run(total, failAt, steps), total)
  {
    if steps != [] {
      hide Next, Enabled, Accounted, Ends, AllOnTrack, Faithful, Last;
      var n := |steps| - 1;
      var s := Run(total, failAt, steps[..n]);
      FaithfulPrefix(total, failAt, steps, n);
      ResultMeansAllReported(total, failAt, steps[..n]);
      OnlyUnreportedWorkIsRedone(total, failAt, steps[..n]);
      ResumeEqualsUninterrupted(total, failAt, steps[..n]);
      if Enabled(s, total, steps[n]) { StepEnds(s, total, failAt, steps[n]); }
    } else {
      assert Ends(START, total);
    }
  }
}
