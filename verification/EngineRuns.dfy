/** Runs of the admission engine: any interleaving of admission calls, completion reports and
    inspections. What every reachable state satisfies. */
module EngineRuns {
  import opened Common
  import opened RateLimit
  import opened Fairness
  import opened Backlog
  import opened Budget
  import opened Policy
  import opened Engine
  import opened AdmissionCalls

  /** `Inspect` is the state endpoint reading one queue: it sweeps slots and drops idle tenants. */
  datatype Event =
    | Ask(req: AdmissionRequest, at: real)
    | Report(runId: string, nodeId: string, tenant: string, usd: real, at: real)
    | Inspect(queue: string, at: real)

  ghost function Next(p: SchedulerConfig, e: EngineState, ev: Event): EngineState {
    match ev
    case Ask(req, at) => AdmitStep(p, e, req, at).0
    case Report(runId, nodeId, tenant, usd, at) => CompleteStep(e, runId, nodeId, tenant, usd).0
    case Inspect(queue, at) =>
      e.(inflight := Swept(e.inflight, p.inflightTtlSeconds, at), queues := e.queues[queue := ActiveOn(p, e, queue, at)])
  }

  ghost function Run(p: SchedulerConfig, evs: seq<Event>): EngineState {
    if evs == [] then START else Next(p, Run(p, evs[..|evs| - 1]), evs[|evs| - 1])
  }

  /** The clock never goes back, and a request asks for a positive number of tokens. */
  predicate WellTimed(evs: seq<Event>) {
    && (forall i, j | 0 <= i <= j < |evs| :: evs[i].at <= evs[j].at)
    && forall i | 0 <= i < |evs| :: evs[i].Ask? ==> evs[i].req.tokens > 0.0
  }

  ghost predicate Admits(p: SchedulerConfig, e: EngineState, ev: Event) {
    ev.Ask? && AdmitStep(p, e, ev.req, ev.at).1.outcome.Admit?
  }

  ghost predicate AdmittedAt(p: SchedulerConfig, evs: seq<Event>, i: nat)
    requires i < |evs|
  {
    Admits(p, Run(p, evs[..i]), evs[i])
  }

  lemma AdmittedInPrefix(p: SchedulerConfig, evs: seq<Event>, i: nat, n: nat)
    requires i < n <= |evs|
    ensures AdmittedAt(p, evs[..n], i) <==> AdmittedAt(p, evs, i)
  {
    hide Admits;
    assert evs[..n][..i] == evs[..i];
  }

  lemma Extend(p: SchedulerConfig, evs: seq<Event>)
    requires evs != []
    ensures Run(p, evs) == Next(p, Run(p, evs[..|evs| - 1]), evs[|evs| - 1])
    ensures WellTimed(evs) ==> WellTimed(evs[..|evs| - 1])
  {
    hide Next;
  }

  lemma LastTwo(p: SchedulerConfig, evs: seq<Event>, a: Event, b: Event)
    ensures Run(p, evs + [a] + [b]) == Next(p, Next(p, Run(p, evs), a), b)
    ensures (evs + [a] + [b])[..|evs|] == evs
  {
    hide Next;
    assert (evs + [a] + [b])[..|evs| + 1] == evs + [a] && (evs + [a])[..|evs|] == evs;
  }

  // ---- Clocks, levels, slots and depths in every reachable state ---------------------

  ghost predicate DepthsBounded(p: SchedulerConfig, e: EngineState) {
    forall q :: |Holders(e.inflight.slots, q)| <= Ceiling(WatermarkFor(p, q))
  }

  lemma StepIsPositive(p: SchedulerConfig, req: AdmissionRequest)
    requires req.tokens > 0.0
    ensures FairStepSize(p, req) > 0.0
  {}

  lemma AskKeepsClocks(p: SchedulerConfig, e: EngineState, req: AdmissionRequest, now: real)
    requires Sane(e, now) && req.tokens > 0.0
    ensures var queues := Govern(p, e, req, now).0.queues;
            forall q, t | q in queues && t in queues[q] :: queues[q][t].virtualTime >= 0.0
  {
    hide Govern, Step, Slowest, AsksFairShare, MayPass;
    QueuesAfter(p, e, req, now);
    StepIsPositive(p, req);
    var active := ActiveOn(p, e, req.taskQueue, now);
    assert Slowest(active) >= 0.0 by {
      if active != map[] {
        var t :| t in active && active[t].virtualTime == Slowest(active);
      }
    }
  }

  lemma AskKeepsBuckets(p: SchedulerConfig, e: EngineState, req: AdmissionRequest, now: real)
    requires Sane(e, now)
    ensures var buckets := Govern(p, e, req, now).0.buckets;
            forall k | k in buckets :: Sound(Some(buckets[k]), now)
  {
    hide Govern, BucketOf, RefillAndTake;
    BucketsAfter(p, e, req, now);
    if BucketOf(p, req).Some? {
      var (key, cfg) := BucketOf(p, req).value;
      PollIsSound(Lookup(e.buckets, key), cfg, req.tokens, now);
    }
  }

  lemma AskKeepsDepths(p: SchedulerConfig, e: EngineState, req: AdmissionRequest, now: real)
    requires Conserved(e.inflight) && DepthsBounded(p, e)
    ensures Conserved(Govern(p, e, req, now).0.inflight) && DepthsBounded(p, Govern(p, e, req, now).0)
  {
    hide Govern, Conserved, Swept, Take, Holders, WatermarkFor, BudgetSays;
    var (e', d) := Govern(p, e, req, now);
    var swept := Swept(e.inflight, p.inflightTtlSeconds, now);
    RestAfter(p, e, req, now);
    SweepConserves(e.inflight, p.inflightTtlSeconds, now);
    if d.outcome.Admit? {
      var again := Swept(swept, p.inflightTtlSeconds, now);
      SweepConserves(swept, p.inflightTtlSeconds, now);
      TakeConserves(again, Token(req.runId, req.nodeId), req.taskQueue, now);
    }
  }

  lemma {:induction false} ReachableIsSane(p: SchedulerConfig, evs: seq<Event>, now: real)
    requires WellTimed(evs) && (evs != [] ==> evs[|evs| - 1].at <= now)
    ensures Sane(Run(p, evs), now)
    decreases |evs|
  {
    if evs != [] {
      var e, ev := Run(p, evs[..|evs| - 1]), evs[|evs| - 1];
      Extend(p, evs);
      ReachableIsSane(p, evs[..|evs| - 1], ev.at);
      if ev.Ask? {
        AskKeepsClocks(p, e, ev.req, ev.at);
        AskKeepsBuckets(p, e, ev.req, ev.at);
      }
      hide Govern, Counted, Swept, Run, Release, WithSpend;
      assert Sane(Run(p, evs), ev.at);
    }
  }

  /** Slots are conserved and no queue is ever deeper than the higher of its two marks. */
  lemma {:induction false} ReachableQueuesAreBounded(p: SchedulerConfig, evs: seq<Event>)
    requires WellTimed(evs)
    ensures Conserved(Run(p, evs).inflight)
    ensures DepthsBounded(p, Run(p, evs))
  {
    if evs == [] {
      assert forall q :: Balanced(FRESH, q) && Holders(FRESH.slots, q) == {};
    } else {
      var e, ev := Run(p, evs[..|evs| - 1]), evs[|evs| - 1];
      Extend(p, evs);
      ReachableQueuesAreBounded(p, evs[..|evs| - 1]);
      hide Govern, Counted, Swept, Run, Release, WithSpend, WatermarkFor, Conserved, Holders;
      match ev {
        case Ask(req, at) => AskKeepsDepths(p, e, req, at);
        case Report(runId, nodeId, tenant, usd, at) => ReleaseConserves(e.inflight, Token(runId, nodeId));
        case Inspect(queue, at) => SweepConserves(e.inflight, p.inflightTtlSeconds, at);
      }
    }
  }

  /** Every slot was taken by an admission of the run, at the instant it carries. */
  ghost predicate SlotsDated(p: SchedulerConfig, evs: seq<Event>, slots: map<string, Slot>) {
    forall k | k in slots :: exists i | 0 <= i < |evs| :: AdmittedAt(p, evs, i) && evs[i].at == slots[k].admittedAt
  }

  lemma SlotOrigin(p: SchedulerConfig, e: EngineState, ev: Event, k: string)
    requires k in Next(p, e, ev).inflight.slots
    ensures
      var s := Next(p, e, ev).inflight.slots[k];
      || (k in e.inflight.slots && s == e.inflight.slots[k])
      || (Admits(p, e, ev) && s.admittedAt == ev.at)
  {
    if ev.Ask? { RestAfter(p, e, ev.req, ev.at); }
    hide Govern, Counted, Tally, Overdue, WithSpend, QueueSays, BudgetSays, ActiveOn;
  }

  lemma {:induction false} ReachableSlotsAreDated(p: SchedulerConfig, evs: seq<Event>)
    ensures SlotsDated(p, evs, Run(p, evs).inflight.slots)
  {
    hide Next, Admits;
    if evs != [] {
      var n := |evs| - 1;
      ReachableSlotsAreDated(p, evs[..n]);
      forall k | k in Run(p, evs).inflight.slots
        ensures exists i | 0 <= i < |evs| :: AdmittedAt(p, evs, i) && evs[i].at == Run(p, evs).inflight.slots[k].admittedAt
      {
        SlotOrigin(p, Run(p, evs[..n]), evs[n], k);
        if !AdmittedAt(p, evs, n) || Run(p, evs).inflight.slots[k].admittedAt != evs[n].at {
          var i :| 0 <= i < n && AdmittedAt(p, evs[..n], i)
            && evs[..n][i].at == Run(p, evs[..n]).inflight.slots[k].admittedAt;
          AdmittedInPrefix(p, evs, i, n);
        }
      }
    }
  }

  /** Lost reports never wedge a queue: once every admission is older than the time-to-live,
      the queue reads empty, whether or not anything was reported. */
  lemma QueuesDrainByThemselves(p: SchedulerConfig, evs: seq<Event>, queue: string, now: real)
    requires forall i | 0 <= i < |evs| :: AdmittedAt(p, evs, i) ==> evs[i].at + p.inflightTtlSeconds < now
    ensures DepthAt(p, Run(p, evs), queue, now) == 0
  {
    hide Run, AdmittedAt, Tally;
    ReachableSlotsAreDated(p, evs);
    assert Holders(Swept(Run(p, evs).inflight, p.inflightTtlSeconds, now).slots, queue) == {};
  }

  // ---- The counters ------------------------------------------------------------------

  function Asks(evs: seq<Event>): nat {
    if evs == [] then 0 else Asks(evs[..|evs| - 1]) + (if evs[|evs| - 1].Ask? then 1 else 0)
  }

  /** Every family of counters adds up to the number of calls, and admissions are counted
      alike by outcome, by lane and by queue. */
  ghost predicate Tallied(e: EngineState, calls: nat) {
    && Total(e.stats.byOutcome) == calls && Total(e.stats.byRule) == calls && Total(e.stats.byQueueOutcome) == calls
    && Count(e.stats.byOutcome, Outcome.Admit) == Total(e.lanes) == Total(e.inflight.admitted)
  }

  lemma AskKeepsTallies(p: SchedulerConfig, e: EngineState, req: AdmissionRequest, now: real, calls: nat)
    requires Tallied(e, calls)
    ensures Tallied(AdmitStep(p, e, req, now).0, calls + 1)
  {
    var (e', d) := Govern(p, e, req, now);
    RestAfter(p, e, req, now);
    hide Govern, Tally, Timely, Total;
    TotalBump(e.stats.byOutcome, d.outcome);
    TotalBump(e.stats.byRule, d.rule);
    TotalBump(e.stats.byQueueOutcome, (req.taskQueue, d.outcome));
    if d.outcome.Admit? {
      TotalBump(e.lanes, (req.taskQueue, req.priority));
      TotalBump(e.inflight.admitted, req.taskQueue);
    }
  }

  lemma {:induction false} CountersAgree(p: SchedulerConfig, evs: seq<Event>)
    ensures Tallied(Run(p, evs), Asks(evs))
  {
    if evs != [] {
      var e, ev := Run(p, evs[..|evs| - 1]), evs[|evs| - 1];
      CountersAgree(p, evs[..|evs| - 1]);
      if ev.Ask? {
        hide AdmitStep, Tallied;
        AskKeepsTallies(p, e, ev.req, ev.at, Asks(evs[..|evs| - 1]));
      } else {
        hide Govern, Tally, Timely, Total, WithSpend;
      }
    }
  }
}
