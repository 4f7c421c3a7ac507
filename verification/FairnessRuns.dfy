/** Weighted fairness of the whole engine over whole runs. */
module FairnessRuns {
  import opened Common
  import opened RateLimit
  import opened Fairness
  import opened Backlog
  import opened Budget
  import opened Policy
  import opened Engine
  import opened AdmissionCalls
  import opened EngineRuns

  predicate AsksOn(ev: Event, queue: string) { ev.Ask? && ev.req.taskQueue == queue }

  predicate AsksFor(ev: Event, queue: string, tenant: string) { AsksOn(ev, queue) && ev.req.tenant == tenant }

  /** The clock charge a request carries. */
  function Charge(p: SchedulerConfig, ev: Event): real { if ev.Ask? then FairStepSize(p, ev.req) else 0.0 }

  /** It is the request's tokens over its tenant's weight. */
  lemma ChargeIsTokensOverWeight(p: SchedulerConfig, ev: Event)
    requires ev.Ask?
    ensures Charge(p, ev) == ev.req.tokens / TenantFor(p, ev.req.tenant).weight
    ensures FairStepSize(p, ev.req) * TenantFor(p, ev.req.tenant).weight == ev.req.tokens
  {
    StepIsShare(TenantFor(p, ev.req.tenant).weight, ev.req.tokens);
  }

  /** No admission on the queue took more than `top` tokens per unit of weight. Refunded charges do not matter. */
  ghost predicate StepsWithin(p: SchedulerConfig, evs: seq<Event>, queue: string, top: real) {
    forall i | 0 <= i < |evs| && AsksOn(evs[i], queue) ::
      AdmittedAt(p, evs, i) ==> evs[i].req.tokens / TenantFor(p, evs[i].req.tenant).weight <= top
  }

  lemma StepsWithinPrefix(p: SchedulerConfig, evs: seq<Event>, queue: string, top: real, n: nat)
    requires StepsWithin(p, evs, queue, top) && n <= |evs|
    ensures StepsWithin(p, evs[..n], queue, top)
  {
    hide AdmittedAt;
    forall i | 0 <= i < n && AsksOn(evs[i], queue)
      ensures AdmittedAt(p, evs[..n], i) ==> evs[i].req.tokens / TenantFor(p, evs[i].req.tenant).weight <= top
    {
      AdmittedInPrefix(p, evs, i, n);
    }
  }

  /** Where no clock moved, a newcomer joined level with the slowest and the spread stands. */
  lemma KeptClocksKeepSpread(active: Contenders, after: Contenders, tenant: string, top: real)
    requires Spread(active, top) && ClocksKept(active, after, tenant) && 0.0 <= top
    ensures Spread(after, top)
  {
    if active == map[] {
      forall t | t in after ensures after[t].virtualTime == 0.0 {}
      if after != map[] { var t :| t in after && after[t].virtualTime == Slowest(after); }
    } else {
      var u :| u in active && active[u].virtualTime == Slowest(active);
      SlowestBelow(after, u);
      var t :| t in after && after[t].virtualTime == Slowest(after);
      assert Slowest(active) <= after[t].virtualTime;
    }
  }

  lemma AskSpreads(p: SchedulerConfig, e: EngineState, req: AdmissionRequest, now: real, queue: string, top: real)
    requires Sane(e, now) && req.tokens > 0.0 && 0.0 <= top
    requires Spread(On(e.queues, queue), top)
    requires Govern(p, e, req, now).1.outcome.Admit? && req.taskQueue == queue ==> FairStepSize(p, req) <= top
    ensures Spread(On(Govern(p, e, req, now).0.queues, queue), top)
  {
    hide Govern, Step, Slowest, AsksFairShare, MayPass, Spread, Refunded, Asked, ClocksKept;
    QueuesAfter(p, e, req, now);
    var (e', d) := Govern(p, e, req, now);
    if AsksFairShare(p, e, req, now) {
      var active := ActiveOn(p, e, req.taskQueue, now);
      if d.outcome.Admit? {
        if req.taskQueue == queue {
          StepIsPositive(p, req);
          PruneKeepsSpread(On(e.queues, queue), p.fairness.idleSeconds, now, top);
          AskingKeepsSpread(active, req.tenant, FairStepSize(p, req), now, top);
        }
      } else {
        RefusedCallMovesNoClock(p, e, req, now);
        if req.taskQueue == queue {
          PruneKeepsSpread(On(e.queues, queue), p.fairness.idleSeconds, now, top);
          KeptClocksKeepSpread(active, e'.queues[queue], req.tenant, top);
        }
      }
    }
  }

  lemma NextSpreads(p: SchedulerConfig, e: EngineState, ev: Event, queue: string, top: real)
    requires Sane(e, ev.at) && 0.0 <= top && (ev.Ask? ==> ev.req.tokens > 0.0)
    requires Spread(On(e.queues, queue), top)
    requires Admits(p, e, ev) && AsksOn(ev, queue) ==> Charge(p, ev) <= top
    ensures Spread(On(Next(p, e, ev).queues, queue), top)
  {
    hide Govern, Counted, FairStepSize, Prune, Spread, Swept, Release, WithSpend, Sane;
    match ev {
      case Ask(req, at) => AskSpreads(p, e, req, at, queue, top);
      case Report(_, _, _, _, _) =>
      case Inspect(q, at) => PruneKeepsSpread(On(e.queues, queue), p.fairness.idleSeconds, at, top);
    }
  }

  /** In every reachable state the active clocks of a queue are nonnegative and within two
      of the largest step ever charged of the slowest one. */
  lemma {:induction false} ReachableClocksAreSpread(p: SchedulerConfig, evs: seq<Event>, queue: string, top: real)
    requires WellTimed(evs) && StepsWithin(p, evs, queue, top) && 0.0 <= top
    ensures Spread(On(Run(p, evs).queues, queue), top)
  {
    if evs != [] {
      hide Next, Admits, Charge, Spread, Sane, TenantFor;
      var n := |evs| - 1;
      StepsWithinPrefix(p, evs, queue, top, n);
      ReachableClocksAreSpread(p, evs[..n], queue, top);
      ReachableIsSane(p, evs[..n], evs[n].at);
      assert AdmittedAt(p, evs, n) <==> Admits(p, Run(p, evs[..n]), evs[n]);
      if AsksOn(evs[n], queue) { ChargeIsTokensOverWeight(p, evs[n]); }
      NextSpreads(p, Run(p, evs[..n]), evs[n], queue, top);
    } else {
      assert On(START.queues, queue) == map[];
    }
  }

  // ---- The fairness bound --------------------------------------------------------------

  /** The event looks at the queue's contenders and drops the idle ones. */
  ghost predicate Prunes(p: SchedulerConfig, e: EngineState, ev: Event, queue: string) {
    match ev
    case Ask(req, at) => req.taskQueue == queue && AsksFairShare(p, e, req, at)
    case Report(_, _, _, _, _) => false
    case Inspect(q, _) => q == queue
  }

  /** The tenant is active before event `i` and is never dropped from then on. */
  ghost predicate StaysActive(p: SchedulerConfig, evs: seq<Event>, i: nat, queue: string, tenant: string)
    requires i <= |evs|
  {
    && tenant in On(Run(p, evs[..i]).queues, queue)
    && forall j | i <= j < |evs| :: Prunes(p, Run(p, evs[..j]), evs[j], queue)
                                ==> tenant in ActiveOn(p, Run(p, evs[..j]), queue, evs[j].at)
  }

  /** Weighted service: tokens over weight, summed over the tenant's admissions since event `i`. */
  ghost function Served(p: SchedulerConfig, evs: seq<Event>, i: nat, queue: string, tenant: string): real
    requires i <= |evs|
  {
    if i == |evs| then 0.0
    else
      var n := |evs| - 1;
      Served(p, evs[..n], i, queue, tenant)
      + (if AdmittedAt(p, evs, n) && AsksFor(evs[n], queue, tenant) then evs[n].req.tokens / TenantFor(p, tenant).weight else 0.0)
  }

  /** A surviving tenant's clock moves by exactly what it was admitted for. */
  lemma AskMovesClock(p: SchedulerConfig, e: EngineState, req: AdmissionRequest, now: real, queue: string, tenant: string)
    requires Sane(e, now) && p.fairness.enabled && tenant in On(e.queues, queue)
    requires req.taskQueue == queue && AsksFairShare(p, e, req, now) ==> tenant in ActiveOn(p, e, queue, now)
    ensures
      var (e', d) := Govern(p, e, req, now);
      && tenant in On(e'.queues, queue)
      && On(e'.queues, queue)[tenant].virtualTime == On(e.queues, queue)[tenant].virtualTime
           + (if d.outcome.Admit? && req.taskQueue == queue && req.tenant == tenant then FairStepSize(p, req) else 0.0)
  {
    hide Govern, Step, Slowest, AsksFairShare, MayPass, Refunded, Sane, Stale;
    QueuesAfter(p, e, req, now);
    if !Govern(p, e, req, now).1.outcome.Admit? {
      RefusedCallMovesNoClock(p, e, req, now);
    }
  }

  lemma NextMovesClock(p: SchedulerConfig, e: EngineState, ev: Event, queue: string, tenant: string)
    requires Sane(e, ev.at) && p.fairness.enabled && tenant in On(e.queues, queue)
    requires Prunes(p, e, ev, queue) ==> tenant in ActiveOn(p, e, queue, ev.at)
    ensures tenant in On(Next(p, e, ev).queues, queue)
    ensures On(Next(p, e, ev).queues, queue)[tenant].virtualTime == On(e.queues, queue)[tenant].virtualTime
              + (if Admits(p, e, ev) && AsksFor(ev, queue, tenant) then Charge(p, ev) else 0.0)
  {
    hide Govern, Counted, FairStepSize, Swept, Release, WithSpend, Sane, AsksFairShare;
    if ev.Ask? {
      AskMovesClock(p, e, ev.req, ev.at, queue, tenant);
    }
  }

  lemma LastIsLatest(evs: seq<Event>)
    requires WellTimed(evs) && evs != []
    ensures forall i | 0 <= i < |evs| :: evs[i].at <= evs[|evs| - 1].at
  {}

  lemma StaysActivePrefix(p: SchedulerConfig, evs: seq<Event>, i: nat, queue: string, tenant: string, n: nat)
    requires i <= n <= |evs| && StaysActive(p, evs, i, queue, tenant)
    ensures StaysActive(p, evs[..n], i, queue, tenant)
    ensures tenant in On(Run(p, evs[..i]).queues, queue)
    ensures n < |evs| && Prunes(p, Run(p, evs[..n]), evs[n], queue) ==> tenant in ActiveOn(p, Run(p, evs[..n]), queue, evs[n].at)
  {
    hide Prunes, ActiveOn, Run;
    assert forall j | 0 <= j <= n :: evs[..n][..j] == evs[..j];
  }

  lemma {:induction false} ClockIsService(p: SchedulerConfig, evs: seq<Event>, i: nat, queue: string, tenant: string)
    requires i <= |evs| && WellTimed(evs) && p.fairness.enabled && StaysActive(p, evs, i, queue, tenant)
    ensures tenant in On(Run(p, evs).queues, queue) && tenant in On(Run(p, evs[..i]).queues, queue)
    ensures On(Run(p, evs).queues, queue)[tenant].virtualTime
         == On(Run(p, evs[..i]).queues, queue)[tenant].virtualTime + Served(p, evs, i, queue, tenant)
    decreases |evs|
  {
    hide Next, Admits, Charge, Prunes, ActiveOn, Sane, StaysActive, WellTimed, TenantFor;
    if i == |evs| {
      StaysActivePrefix(p, evs, i, queue, tenant, i);
      assert evs[..i] == evs;
    } else {
      var n := |evs| - 1;
      Extend(p, evs);
      StaysActivePrefix(p, evs, i, queue, tenant, n);
      ClockIsService(p, evs[..n], i, queue, tenant);
      assert evs[..n][..i] == evs[..i];
      ReachableIsSane(p, evs[..n], evs[n].at) by { LastIsLatest(evs); }
      NextMovesClock(p, Run(p, evs[..n]), evs[n], queue, tenant);
      if AsksFor(evs[n], queue, tenant) { ChargeIsTokensOverWeight(p, evs[n]); }
    }
  }

  /** Over any interval in which both tenants stay active, their weighted service differs by
      at most four of the largest step ever charged on the queue. */
  lemma WeightedFairness(p: SchedulerConfig, evs: seq<Event>, i: nat, queue: string, a: string, b: string, top: real)
    requires i <= |evs| && WellTimed(evs) && p.fairness.enabled
    requires StepsWithin(p, evs, queue, top) && 0.0 <= top
    requires StaysActive(p, evs, i, queue, a) && StaysActive(p, evs, i, queue, b)
    ensures -4.0 * top <= Served(p, evs, i, queue, a) - Served(p, evs, i, queue, b) <= 4.0 * top
  {
    assert WellTimed(evs[..i]);
    hide Run, StaysActive, Served, StepsWithin, WellTimed, On;
    ClockIsService(p, evs, i, queue, a);
    ClockIsService(p, evs, i, queue, b);
    StepsWithinPrefix(p, evs, queue, top, i);
    ReachableClocksAreSpread(p, evs, queue, top);
    ReachableClocksAreSpread(p, evs[..i], queue, top);
    var early, late := On(Run(p, evs[..i]).queues, queue), On(Run(p, evs).queues, queue);
    SlowestBelow(early, a);
    SlowestBelow(early, b);
    SlowestBelow(late, a);
    SlowestBelow(late, b);
  }

  /** A request that reaches the gate leaves its tenant, just seen, and every active rival on the queue. */
  lemma AskerJoins(p: SchedulerConfig, e: EngineState, req: AdmissionRequest, now: real)
    requires AsksFairShare(p, e, req, now)
    ensures
      var after, active := On(AdmitStep(p, e, req, now).0.queues, req.taskQueue), ActiveOn(p, e, req.taskQueue, now);
      && req.tenant in after && after[req.tenant].lastSeen == now
      && forall t | t in active && t != req.tenant :: t in after && after[t].lastSeen == active[t].lastSeen
  {
    hide Govern, AsksFairShare, MayPass, Slowest, Step, Prune, Counted;
    QueuesAfter(p, e, req, now);
  }

  /** Whoever has asked within the idle time is active. */
  lemma SeenIsActive(p: SchedulerConfig, e: EngineState, queue: string, tenant: string, now: real)
    requires tenant in On(e.queues, queue) && now - On(e.queues, queue)[tenant].lastSeen <= p.fairness.idleSeconds
    ensures tenant in ActiveOn(p, e, queue, now) && ActiveOn(p, e, queue, now)[tenant] == On(e.queues, queue)[tenant]
  {}

  const FAIR_POLICY: SchedulerConfig := Document(
    map[], map[], map[], FairnessConfig(true, 30.0, 0.25), BudgetConfig(Off, None, 0.8), 1, 0.5)

  function SmallRequest(tenant: string): AdmissionRequest {
    AdmissionRequest("run", "node", "q", tenant, 1, None, None, 1.0, 0.0, None)
  }

  lemma EmptyQueueAsks(e: EngineState, tenant: string, now: real)
    requires DepthAt(FAIR_POLICY, e, "q", now) == 0
    ensures AsksFairShare(FAIR_POLICY, e, SmallRequest(tenant), now)
    ensures FairStepSize(FAIR_POLICY, SmallRequest(tenant)) == 1.0
  {
    hide DepthAt;
  }

  const RIVALRY: seq<Event> := [Ask(SmallRequest("a"), 0.0), Ask(SmallRequest("b"), 1.0), Ask(SmallRequest("a"), 2.0)]

  lemma RivalsAsk(i: nat)
    requires i < 3
    ensures AsksFairShare(FAIR_POLICY, Run(FAIR_POLICY, RIVALRY[..i]), RIVALRY[i].req, RIVALRY[i].at)
    ensures RIVALRY[i].req.tokens / TenantFor(FAIR_POLICY, RIVALRY[i].req.tenant).weight == 1.0
  {
    hide Run, AdmittedAt, DepthAt, AsksFairShare, FairStepSize;
    QueuesDrainByThemselves(FAIR_POLICY, RIVALRY[..i], "q", RIVALRY[i].at);
    EmptyQueueAsks(Run(FAIR_POLICY, RIVALRY[..i]), RIVALRY[i].req.tenant, RIVALRY[i].at);
  }

  lemma AfterAsk(i: nat)
    requires i < 3
    ensures Run(FAIR_POLICY, RIVALRY[..i + 1]) == AdmitStep(FAIR_POLICY, Run(FAIR_POLICY, RIVALRY[..i]), RIVALRY[i].req, RIVALRY[i].at).0
  {
    hide AdmitStep;
    assert RIVALRY[..i + 1][..i] == RIVALRY[..i];
  }

  lemma RivalsAreActive(t: string)
    requires t == "a" || t == "b"
    ensures var two := Run(FAIR_POLICY, RIVALRY[..2]); t in On(two.queues, "q") && t in ActiveOn(FAIR_POLICY, two, "q", 2.0)
  {
    hide Run, AsksFairShare, AdmitStep, ActiveOn, On;
    var p, none, one, two := FAIR_POLICY, Run(FAIR_POLICY, RIVALRY[..0]), Run(FAIR_POLICY, RIVALRY[..1]), Run(FAIR_POLICY, RIVALRY[..2]);
    RivalsAsk(0);
    RivalsAsk(1);
    AfterAsk(0);
    AfterAsk(1);
    AskerJoins(p, none, SmallRequest("a"), 0.0);
    SeenIsActive(p, one, "q", "a", 1.0);
    AskerJoins(p, one, SmallRequest("b"), 1.0);
    SeenIsActive(p, two, "q", t, 2.0);
  }

  /** The bound speaks of real competition: here two tenants stay active over an interval
      in which requests are decided. */
  lemma TwoTenantsCompete()
    ensures |RIVALRY| == 3 && WellTimed(RIVALRY) && StepsWithin(FAIR_POLICY, RIVALRY, "q", 1.0)
    ensures forall t | t in {"a", "b"} :: StaysActive(FAIR_POLICY, RIVALRY, 2, "q", t)
    ensures Prunes(FAIR_POLICY, Run(FAIR_POLICY, RIVALRY[..2]), RIVALRY[2], "q")
  {
    hide Run, AsksFairShare, AdmitStep, AdmittedAt, ActiveOn, On, TenantFor;
    RivalsAsk(0);
    RivalsAsk(1);
    RivalsAsk(2);
    RivalsAreActive("a");
    RivalsAreActive("b");
  }

  /** Fairness is not work conserving: a tenant that stays in line but is never admitted, for
      instance because a provider's bucket refuses it, holds every other active tenant of the
      queue to four steps in all, for as long as it keeps asking. */
  lemma BlockedRivalCapsEveryone(p: SchedulerConfig, evs: seq<Event>, i: nat, queue: string, a: string, blocked: string, top: real)
    requires i <= |evs| && WellTimed(evs) && p.fairness.enabled
    requires StepsWithin(p, evs, queue, top) && 0.0 <= top
    requires StaysActive(p, evs, i, queue, a) && StaysActive(p, evs, i, queue, blocked)
    requires NeverAdmitted(p, evs, i, queue, blocked)
    ensures Served(p, evs, i, queue, a) <= 4.0 * top
  {
    WeightedFairness(p, evs, i, queue, a, blocked, top);
    NothingServed(p, evs, i, queue, blocked);
  }

  /** From event `i` on, nothing the tenant asks on the queue is admitted. */
  ghost predicate NeverAdmitted(p: SchedulerConfig, evs: seq<Event>, i: nat, queue: string, tenant: string) {
    forall j | i <= j < |evs| :: AdmittedAt(p, evs, j) ==> !AsksFor(evs[j], queue, tenant)
  }

  lemma {:induction false} NothingServed(p: SchedulerConfig, evs: seq<Event>, i: nat, queue: string, tenant: string)
    requires i <= |evs| && NeverAdmitted(p, evs, i, queue, tenant)
    ensures Served(p, evs, i, queue, tenant) == 0.0
    decreases |evs|
  {
    hide AdmittedAt, TenantFor;
    if i < |evs| {
      var n := |evs| - 1;
      forall j | i <= j < n
        ensures AdmittedAt(p, evs[..n], j) ==> !AsksFor(evs[..n][j], queue, tenant)
      {
        AdmittedInPrefix(p, evs, j, n);
      }
      NothingServed(p, evs[..n], i, queue, tenant);
    }
  }

  /** A request larger than its bucket's burst is refused in every state, for ever, although
      each refusal names a finite wait. */
  lemma OversizedRequestIsNeverAdmitted(p: SchedulerConfig, e: EngineState, req: AdmissionRequest, now: real)
    requires BucketOf(p, req).Some? && req.tokens > BucketOf(p, req).value.1.burst
    ensures !AdmitStep(p, e, req, now).1.outcome.Admit?
  {
    hide Govern, Inflow, BucketOf, Counted;
    BucketsAfter(p, e, req, now);
  }

  // ---- A deferred tenant is let through once its rivals fall silent --------------------

  /** A tenant's `last_seen` is the instant of one of its own requests on the queue. */
  ghost predicate SeenAsking(evs: seq<Event>, queue: string, tenant: string, at: real) {
    exists i | 0 <= i < |evs| :: AsksFor(evs[i], queue, tenant) && evs[i].at == at
  }

  lemma SeenByAsking(p: SchedulerConfig, e: EngineState, ev: Event, queue: string, t: string)
    requires t in On(Next(p, e, ev).queues, queue)
    ensures
      || (AsksFor(ev, queue, t) && On(Next(p, e, ev).queues, queue)[t].lastSeen == ev.at)
      || (t in On(e.queues, queue) && On(Next(p, e, ev).queues, queue)[t].lastSeen == On(e.queues, queue)[t].lastSeen)
  {
    hide Govern, Counted, Swept, AsksFairShare, WithSpend, Release;
    if ev.Ask? {
      AskDatesOnlyTheAsker(p, e, ev.req, ev.at, queue, t);
    }
  }

  lemma AskDatesOnlyTheAsker(p: SchedulerConfig, e: EngineState, req: AdmissionRequest, now: real, queue: string, t: string)
    ensures t in On(Govern(p, e, req, now).0.queues, queue) ==>
      var s := On(Govern(p, e, req, now).0.queues, queue)[t];
      || (req.taskQueue == queue && req.tenant == t && s.lastSeen == now)
      || (t in On(e.queues, queue) && s.lastSeen == On(e.queues, queue)[t].lastSeen)
  {
    hide Govern, AsksFairShare, MayPass, Slowest, Step, Stale;
    QueuesAfter(p, e, req, now);
  }

  lemma {:induction false} LastSeenIsAnAsk(p: SchedulerConfig, evs: seq<Event>, queue: string)
    ensures forall t | t in On(Run(p, evs).queues, queue) ::
      SeenAsking(evs, queue, t, On(Run(p, evs).queues, queue)[t].lastSeen)
  {
    hide Next;
    if evs != [] {
      var n := |evs| - 1;
      LastSeenIsAnAsk(p, evs[..n], queue);
      forall t | t in On(Run(p, evs).queues, queue)
        ensures SeenAsking(evs, queue, t, On(Run(p, evs).queues, queue)[t].lastSeen)
      {
        SeenByAsking(p, Run(p, evs[..n]), evs[n], queue, t);
        var at := On(Run(p, evs).queues, queue)[t].lastSeen;
        if !(AsksFor(evs[n], queue, t) && at == evs[n].at) {
          assert SeenAsking(evs[..n], queue, t, at);
        }
      }
    }
  }

  /** A tenant whose rivals on the queue have all been silent for longer than `idle_seconds`
      is not deferred for fairness, whatever it was told before. */
  lemma SilentRivalsLetItThrough(p: SchedulerConfig, evs: seq<Event>, req: AdmissionRequest, now: real)
    requires forall i | 0 <= i < |evs| ::
      AsksOn(evs[i], req.taskQueue) && evs[i].req.tenant != req.tenant
      ==> evs[i].at + p.fairness.idleSeconds < now
    ensures AdmitStep(p, Run(p, evs), req, now).1.rule != FairnessRule
  {
    var e := Run(p, evs);
    LastSeenIsAnAsk(p, evs, req.taskQueue);
    assert ActiveOn(p, e, req.taskQueue, now).Keys + {req.tenant} == {req.tenant} by {
      hide Run;
    }
    AloneIsNotDeferred(p, e, req, now);
  }

  /** A lone tenant is never deferred for fairness. */
  lemma AloneIsNotDeferred(p: SchedulerConfig, e: EngineState, req: AdmissionRequest, now: real)
    requires ActiveOn(p, e, req.taskQueue, now).Keys <= {req.tenant}
    ensures AdmitStep(p, e, req, now).1.rule != FairnessRule
  {
    assert ActiveOn(p, e, req.taskQueue, now).Keys + {req.tenant} == {req.tenant};
    hide Govern, Counted, Prune, Step, Slowest, AsksFairShare;
    QueuesAfter(p, e, req, now);
  }
}
