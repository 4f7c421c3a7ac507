/** What one admission call changes, whichever governor decides it. */
module AdmissionCalls {
  import opened Common
  import opened RateLimit
  import opened Fairness
  import opened Backlog
  import opened Policy
  import opened Engine
  import opened BucketRules

  /** Clocks are nonnegative and no bucket is ahead of the clock: true of every reachable state. */
  ghost predicate Sane(e: EngineState, now: real) {
    && (forall q, t | q in e.queues && t in e.queues[q] :: e.queues[q][t].virtualTime >= 0.0)
    && (forall k | k in e.buckets :: Sound(Some(e.buckets[k]), now))
  }

  /** The contenders of a queue at `now`, idle ones dropped. */
  function ActiveOn(p: SchedulerConfig, e: EngineState, queue: string, now: real): Contenders {
    Prune(On(e.queues, queue), p.fairness.idleSeconds, now)
  }

  /** Nobody's clock moved: survivors keep theirs, and the only possible arrival is `tenant`,
      level with the slowest. */
  ghost predicate ClocksKept(active: Contenders, after: Contenders, tenant: string) {
    && active.Keys <= after.Keys <= active.Keys + {tenant}
    && forall t | t in after :: after[t].virtualTime == ClockOf(active, t)
  }

  /** Exactly `tenant` was charged, one step. */
  ghost predicate OneCharge(active: Contenders, after: Contenders, tenant: string, step: real) {
    && after.Keys == active.Keys + {tenant}
    && forall t | t in after :: after[t].virtualTime == ClockOf(active, t) + (if t == tenant then step else 0.0)
  }

  ghost predicate FairShareKept(p: SchedulerConfig, e: EngineState, e': EngineState, req: AdmissionRequest, now: real) {
    if !AsksFairShare(p, e, req, now) then e'.queues == e.queues
    else
      && e'.queues.Keys == e.queues.Keys + {req.taskQueue}
      && (forall q | q in e.queues && q != req.taskQueue :: e'.queues[q] == e.queues[q])
      && ClocksKept(ActiveOn(p, e, req.taskQueue, now), e'.queues[req.taskQueue], req.tenant)
  }

  /** What happened to the buckets: other keys' stand, and the request's own holds what it would
      have held, seen through a rule, unless it was polled and its refill shows through that rule. */
  ghost predicate TokensKept(p: SchedulerConfig, e: EngineState, e': EngineState, req: AdmissionRequest, now: real, polled: bool) {
    var b := BucketOf(p, req);
    if b.None? then e'.buckets == e.buckets
    else
      var (key, cfg) := b.value;
      && e'.buckets.Keys <= e.buckets.Keys + {key}
      && (forall k | k in e.buckets && k != key :: k in e'.buckets && e'.buckets[k] == e.buckets[k])
      && (forall rule ::
            LevelKept(Lookup(e.buckets, key), Lookup(e'.buckets, key), rule, now)
            <==> (polled ==> RefillsAlike(Lookup(e.buckets, key), cfg, rule, now)))
  }

  /** The three ways the fair-share gate leaves the queues: untouched, asked and refused or
      refunded (no clock moved), asked and charged. */
  lemma AskedWithoutCharge(active: Contenders, tenant: string, step: real, now: real)
    requires !MayPass(active, tenant, step)
    ensures ClocksKept(active, Asked(active, tenant, step, now), tenant)
  {}

  lemma ChargeThenRefund(queues: map<string, Contenders>, queue: string, active: Contenders, tenant: string, weight: real, cost: real, now: real)
    requires weight > 0.0 && MayPass(active, tenant, Step(weight, cost))
    requires forall t | t in active :: active[t].virtualTime >= 0.0
    ensures
      var charged := queues[queue := Asked(active, tenant, Step(weight, cost), now)];
      var after := Refunded(charged, queue, tenant, weight, cost);
      && after == queues[queue := after[queue]]
      && ClocksKept(active, after[queue], tenant)
  {
    hide Step, MayPass;
    if active != map[] {
      var t :| t in active && active[t].virtualTime == Slowest(active);
    }
    var charged := queues[queue := Asked(active, tenant, Step(weight, cost), now)];
    assert Refunded(charged, queue, tenant, weight, cost)
        == queues[queue := Refunded(charged, queue, tenant, weight, cost)[queue]];
  }

  lemma RefusedBucket(p: SchedulerConfig, e: EngineState, req: AdmissionRequest, now: real)
    requires Sane(e, now) && !LimiterSays(p, e, req, now).1.admitted
    ensures TokensKept(p, e, e.(buckets := LimiterSays(p, e, req, now).0), req, now, true)
  {
    hide RefillAndTake, Available, BucketOf, LevelKept, RefillsAlike;
    var (key, cfg) := BucketOf(p, req).value;
    forall rule
      ensures LevelKept(Lookup(e.buckets, key), Lookup(LimiterSays(p, e, req, now).0, key), rule, now)
        <==> RefillsAlike(Lookup(e.buckets, key), cfg, rule, now)
    {
      RefusalIsInvisibleIff(Lookup(e.buckets, key), cfg, rule, req.tokens, now);
    }
  }

  /** Which step of the pipeline wrote the fair-share queues last. */
  lemma QueuesAfter(p: SchedulerConfig, e: EngineState, req: AdmissionRequest, now: real)
    ensures
      var (e', d) := Govern(p, e, req, now);
      var active := ActiveOn(p, e, req.taskQueue, now);
      var asked := e.queues[req.taskQueue := Asked(active, req.tenant, FairStepSize(p, req), now)];
      && (!AsksFairShare(p, e, req, now) ==> e'.queues == e.queues)
      && (AsksFairShare(p, e, req, now) && !MayPass(active, req.tenant, FairStepSize(p, req)) ==>
            !d.outcome.Admit? && e'.queues == asked)
      && (AsksFairShare(p, e, req, now) && MayPass(active, req.tenant, FairStepSize(p, req)) ==>
            e'.queues == if d.outcome.Admit? then asked
                         else Refunded(asked, req.taskQueue, req.tenant, TenantFor(p, req.tenant).weight, req.tokens))
      && (d.outcome.Admit? ==> (p.fairness.enabled <==> AsksFairShare(p, e, req, now)))
      && (d.rule.FairnessRule? <==> AsksFairShare(p, e, req, now) && !MayPass(active, req.tenant, FairStepSize(p, req)))
  {
    hide Swept, LimiterSays, Refunded, MayPass, QueueSays, BudgetSays, Slowest, Asked, Step, Prune, DepthAt, PastDeadline, Take, Bump;
  }

  /** The buckets are written only by a request that reaches the limiter. */
  lemma BucketsAfter(p: SchedulerConfig, e: EngineState, req: AdmissionRequest, now: real)
    ensures
      var (e', d) := Govern(p, e, req, now);
      && (d.outcome.Admit? || d.rule.RateLimitRule? ==> e'.buckets == LimiterSays(p, e, req, now).0)
      && (!d.outcome.Admit? && !d.rule.RateLimitRule? ==> e'.buckets == e.buckets)
      && (d.outcome.Admit? ==> LimiterSays(p, e, req, now).1.admitted)
      && (d.rule.RateLimitRule? ==> !LimiterSays(p, e, req, now).1.admitted)
      && (d.outcome.Admit? <==> d.rule.NoRule?)
  {
    hide Swept, BucketOf, LimiterStep, Refunded, FairSays, QueueSays, BudgetSays, DepthAt, PastDeadline, Take, Bump;
  }

  /** Slots, lanes and the ledger are written only by an admission. */
  lemma RestAfter(p: SchedulerConfig, e: EngineState, req: AdmissionRequest, now: real)
    ensures
      var (e', d) := Govern(p, e, req, now);
      var swept := Swept(e.inflight, p.inflightTtlSeconds, now);
      && e'.ledger == e.ledger && e'.stats == e.stats
      && (!d.outcome.Admit? ==> e'.inflight == swept && e'.lanes == e.lanes)
      && (d.outcome.Admit? ==>
            && e'.inflight == Take(Swept(swept, p.inflightTtlSeconds, now), Token(req.runId, req.nodeId), req.taskQueue, now)
            && e'.lanes == Bump(e.lanes, (req.taskQueue, req.priority))
            && QueueSays(p, e, req, now).admitted && BudgetSays(p, e, req).allowed)
  {
    hide Swept, LimiterSays, Refunded, FairSays, QueueSays, BudgetSays, DepthAt, PastDeadline, Take, Bump;
  }

  /** A defer or a reject undoes everything but housekeeping: expired slots are swept, idle
      tenants dropped and the request's bucket refilled; slots, lanes, spend and clocks stand, and
      so do tokens, up to how that refill looks through another rule of the same bucket. */
  lemma RefusedCallTakesNothing(p: SchedulerConfig, e: EngineState, req: AdmissionRequest, now: real)
    requires Sane(e, now) && !Govern(p, e, req, now).1.outcome.Admit?
    ensures
      var e' := AdmitStep(p, e, req, now).0;
      && e'.inflight == Swept(e.inflight, p.inflightTtlSeconds, now)
      && e'.lanes == e.lanes && e'.ledger == e.ledger
      && FairShareKept(p, e, e', req, now)
      && TokensKept(p, e, e', req, now, Govern(p, e, req, now).1.rule.RateLimitRule?)
  {
    var (e', d) := Govern(p, e, req, now);
    assert FairShareKept(p, e, e', req, now) && FairShareKept(p, e, AdmitStep(p, e, req, now).0, req, now) by {
      RefusedCallMovesNoClock(p, e, req, now);
    }
    assert TokensKept(p, e, AdmitStep(p, e, req, now).0, req, now, d.rule.RateLimitRule?) by {
      RefusedCallTakesNoToken(p, e, req, now);
      hide Govern, BucketOf, Counted, LevelKept, RefillsAlike;
    }
    hide Govern, Counted, FairShareKept, TokensKept, Swept;
    RestAfter(p, e, req, now);
  }

  lemma RefusedCallMovesNoClock(p: SchedulerConfig, e: EngineState, req: AdmissionRequest, now: real)
    requires Sane(e, now) && !Govern(p, e, req, now).1.outcome.Admit?
    ensures FairShareKept(p, e, Govern(p, e, req, now).0, req, now)
  {
    hide Govern, Refunded, MayPass, Slowest, Asked, Step, AsksFairShare;
    QueuesAfter(p, e, req, now);
    var active := ActiveOn(p, e, req.taskQueue, now);
    var weight := TenantFor(p, req.tenant).weight;
    if AsksFairShare(p, e, req, now) {
      if MayPass(active, req.tenant, FairStepSize(p, req)) {
        ChargeThenRefund(e.queues, req.taskQueue, active, req.tenant, weight, req.tokens, now);
      } else {
        AskedWithoutCharge(active, req.tenant, FairStepSize(p, req), now);
      }
    }
  }

  lemma RefusedCallTakesNoToken(p: SchedulerConfig, e: EngineState, req: AdmissionRequest, now: real)
    requires Sane(e, now) && !Govern(p, e, req, now).1.outcome.Admit?
    ensures TokensKept(p, e, Govern(p, e, req, now).0, req, now, Govern(p, e, req, now).1.rule.RateLimitRule?)
  {
    hide Govern, BucketOf, LimiterStep, Available, RefillsAlike;
    BucketsAfter(p, e, req, now);
    if Govern(p, e, req, now).1.rule.RateLimitRule? {
      RefusedBucket(p, e, req, now);
    }
  }

  /** A refused call takes no token that any request could have drawn if and only if it was not
      polled, or its refill looks alike through every rule that reaches the bucket. */
  lemma RefusedCallTakesNoTokenIff(p: SchedulerConfig, e: EngineState, req: AdmissionRequest, now: real)
    requires Sane(e, now) && BucketOf(p, req).Some? && !Govern(p, e, req, now).1.outcome.Admit?
    ensures
      var (e', d) := AdmitStep(p, e, req, now);
      var (key, cfg) := BucketOf(p, req).value;
      (forall rule | rule in RulesReaching(p, key) :: LevelKept(Lookup(e.buckets, key), Lookup(e'.buckets, key), rule, now))
      <==> !d.rule.RateLimitRule? || forall rule | rule in RulesReaching(p, key) :: RefillsAlike(Lookup(e.buckets, key), cfg, rule, now)
  {
    RefusedCallTakesNothing(p, e, req, now);
    hide Govern, BucketOf, Counted, LevelKept, RefillsAlike, RulesReaching, FairShareKept, Swept, Sane;
  }

  /** So where the bucket has one rule, a refused call takes no token, whoever asks next. */
  lemma OneRuleKeepsEveryToken(p: SchedulerConfig, e: EngineState, req: AdmissionRequest, now: real)
    requires Sane(e, now) && BucketOf(p, req).Some? && !Govern(p, e, req, now).1.outcome.Admit?
    requires |RulesReaching(p, BucketOf(p, req).value.0)| <= 1
    ensures
      var (e', key) := (AdmitStep(p, e, req, now).0, BucketOf(p, req).value.0);
      forall other, rule | Reaches(p, other, key, rule) :: LevelKept(Lookup(e.buckets, key), Lookup(e'.buckets, key), rule, now)
  {
    var (key, cfg) := BucketOf(p, req).value;
    RefusedCallTakesNoTokenIff(p, e, req, now);
    ReachedIsListed(p, req, key, cfg);
    hide Govern, BucketOf, Counted, LevelKept, RulesReaching, Sane, AdmitStep, Available;
    OneRuleIff(p, key);
    forall rule | rule in RulesReaching(p, key) ensures RefillsAlike(Lookup(e.buckets, key), cfg, rule, now) {
      SameInSmall(RulesReaching(p, key), rule, cfg);
      OwnRefillIsAlike(Lookup(e.buckets, key), cfg, now);
    }
    forall other, rule | Reaches(p, other, key, rule)
      ensures LevelKept(Lookup(e.buckets, key), Lookup(AdmitStep(p, e, req, now).0.buckets, key), rule, now)
    {
      ReachedIsListed(p, other, key, rule);
    }
  }

  lemma OwnRefillIsAlike(m: Memory, cfg: RateLimitConfig, now: real)
    ensures RefillsAlike(m, cfg, cfg, now)
  {
    hide Inflow;
  }

  /** An admission takes one slot, one lane count, one clock charge when fairness is on and
      none when it is off, and at most one bucket's tokens, and nothing else. */
  lemma AdmittedCallTakesOneOfEach(p: SchedulerConfig, e: EngineState, req: AdmissionRequest, now: real)
    requires Govern(p, e, req, now).1.outcome.Admit?
    ensures
      var e' := AdmitStep(p, e, req, now).0;
      var token := Token(req.runId, req.nodeId);
      && e'.inflight.slots == Timely(e.inflight.slots, p.inflightTtlSeconds, now)[token := Slot(req.taskQueue, now)]
      && e'.inflight.admitted == Bump(e.inflight.admitted, req.taskQueue)
      && e'.lanes == Bump(e.lanes, (req.taskQueue, req.priority)) && e'.ledger == e.ledger
      && (if p.fairness.enabled then
            && e'.queues.Keys == e.queues.Keys + {req.taskQueue}
            && (forall q | q in e.queues && q != req.taskQueue :: e'.queues[q] == e.queues[q])
            && OneCharge(ActiveOn(p, e, req.taskQueue, now), e'.queues[req.taskQueue], req.tenant, FairStepSize(p, req))
          else e'.queues == e.queues)
      && (if BucketOf(p, req).Some? then
            var (key, cfg) := BucketOf(p, req).value;
            && req.tokens <= Available(Lookup(e.buckets, key), cfg, now)
            && e'.buckets == e.buckets[key := Bucket(Available(Lookup(e.buckets, key), cfg, now) - req.tokens, now)]
          else e'.buckets == e.buckets)
  {
    hide Govern, Counted, Overdue, Tally, MayPass, Slowest, Step, AsksFairShare, BucketOf, Inflow, QueueSays, BudgetSays, Bump, Prune, On, Timely;
    QueuesAfter(p, e, req, now);
    BucketsAfter(p, e, req, now);
    RestAfter(p, e, req, now);
    SweepTwice(e.inflight.slots, p.inflightTtlSeconds, now);
  }

  lemma SweepTwice(slots: map<string, Slot>, ttl: real, now: real)
    ensures Timely(Timely(slots, ttl, now), ttl, now) == Timely(slots, ttl, now)
  {
    hide Overdue;
  }
}
