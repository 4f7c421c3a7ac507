/** Which governor decides a request, read off the request, the policy and the state. */
module Decisions {
  import opened Common
  import opened RateLimit
  import opened Fairness
  import opened Backlog
  import opened Budget
  import opened Policy
  import opened Engine
  import opened AdmissionCalls

  predicate TooLate(req: AdmissionRequest) { req.deadlineSeconds.Some? && req.deadlineSeconds.value <= 0.0 }

  /** What the run will have spent, counting this request; a negative estimate counts as nothing. */
  function Projected(e: EngineState, req: AdmissionRequest): real {
    (if req.runId in e.ledger.byRun then e.ledger.byRun[req.runId] else 0.0)
    + (if req.estimatedUsd > 0.0 then req.estimatedUsd else 0.0)
  }

  predicate OverBudget(p: SchedulerConfig, e: EngineState, req: AdmissionRequest) {
    p.budget.mode == Hard && RunLimit(p, req.tenant).Some?
    && RunLimit(p, req.tenant).value > 0.0 && Projected(e, req) > RunLimit(p, req.tenant).value
  }

  function WarningDue(p: SchedulerConfig, e: EngineState, req: AdmissionRequest): Option<Warning> {
    var limit := RunLimit(p, req.tenant);
    if p.budget.mode == Off || limit.None? || limit.value <= 0.0 then None
    else if Projected(e, req) > limit.value then Some(Exceeded)
    else if Projected(e, req) >= p.budget.warnAt * limit.value then Some(Approaching)
    else None
  }

  /** The queue is too deep for the request's lane. */
  predicate Shed(p: SchedulerConfig, req: AdmissionRequest, depth: nat) {
    var mark := WatermarkFor(p, req.taskQueue);
    depth >= mark.soft && (depth >= mark.hard || req.priority > p.priorityCutoff)
  }

  /** The tenant is ahead of an active rival by more than its own tokens over its weight. */
  predicate Ahead(p: SchedulerConfig, e: EngineState, req: AdmissionRequest, now: real) {
    var active := ActiveOn(p, e, req.taskQueue, now);
    && p.fairness.enabled && req.tenant in active
    && exists rival | rival in active && rival != req.tenant ::
         active[req.tenant].virtualTime > active[rival].virtualTime + req.tokens / TenantFor(p, req.tenant).weight
  }

  /** The bucket the request draws from holds less than it asks for. */
  predicate Drained(p: SchedulerConfig, e: EngineState, req: AdmissionRequest, now: real) {
    var b := BucketOf(p, req);
    b.Some? && Available(Lookup(e.buckets, b.value.0), b.value.1, now) < req.tokens
  }

  lemma BudgetRefusesIff(p: SchedulerConfig, e: EngineState, req: AdmissionRequest)
    ensures !BudgetSays(p, e, req).allowed <==> OverBudget(p, e, req)
    ensures BudgetSays(p, e, req).allowed ==> BudgetSays(p, e, req).warning == WarningDue(p, e, req)
  {
    hide RunLimit;
  }

  lemma QueueRefusesIff(p: SchedulerConfig, e: EngineState, req: AdmissionRequest, now: real)
    ensures !QueueSays(p, e, req, now).admitted <==> Shed(p, req, DepthAt(p, e, req.taskQueue, now))
  {
    hide EvaluateBackpressure, WatermarkFor, DepthAt;
    AdmittedByMarksIff(DepthAt(p, e, req.taskQueue, now), WatermarkFor(p, req.taskQueue), req.priority, p.priorityCutoff);
  }

  lemma FairShareRefusesIff(p: SchedulerConfig, e: EngineState, req: AdmissionRequest, now: real)
    requires req.tokens > 0.0
    ensures p.fairness.enabled && !FairSays(p, e, req, now).1.admitted <==> Ahead(p, e, req, now)
    ensures !FairSays(p, e, req, now).1.admitted ==> FairSays(p, e, req, now).1.retryAfter == p.fairness.deferSeconds
  {
    hide MayPass, Asked, Slowest, Prune;
    var weight := TenantFor(p, req.tenant).weight;
    StepIsShare(weight, req.tokens);
    hide Step;
    DeferredIffAheadOfARival(ActiveOn(p, e, req.taskQueue, now), req.tenant, Step(weight, req.tokens));
  }

  lemma LimiterRefusesIff(p: SchedulerConfig, e: EngineState, req: AdmissionRequest, now: real)
    ensures !LimiterSays(p, e, req, now).1.admitted <==> Drained(p, e, req, now)
    ensures Drained(p, e, req, now) ==>
      var (key, cfg) := BucketOf(p, req).value;
      LimiterSays(p, e, req, now).1.retryAfter == (req.tokens - Available(Lookup(e.buckets, key), cfg, now)) / cfg.rps
  {
    hide BucketOf, Inflow;
  }

  /** The rule that decides: the first governor, in this order, that has something against the request. */
  function DecidedBy(p: SchedulerConfig, e: EngineState, req: AdmissionRequest, now: real): Rule {
    if TooLate(req) then Deadline
    else if OverBudget(p, e, req) then BudgetRule
    else if Shed(p, req, DepthAt(p, e, req.taskQueue, now)) then Backpressure
    else if Ahead(p, e, req, now) then FairnessRule
    else if Drained(p, e, req, now) then RateLimitRule
    else NoRule
  }

  /** How long a caller is told to wait. */
  function WaitToldBy(p: SchedulerConfig, e: EngineState, req: AdmissionRequest, now: real): real {
    match DecidedBy(p, e, req, now)
    case Backpressure => EvaluateBackpressure(DepthAt(p, e, req.taskQueue, now), WatermarkFor(p, req.taskQueue), req.priority, p.priorityCutoff).retryAfter
    case FairnessRule => p.fairness.deferSeconds
    case RateLimitRule =>
      var (key, cfg) := BucketOf(p, req).value;
      (req.tokens - Available(Lookup(e.buckets, key), cfg, now)) / cfg.rps
    case _ => 0.0
  }

  lemma GovernorsInOrder(p: SchedulerConfig, e: EngineState, req: AdmissionRequest, now: real)
    ensures
      var d := Govern(p, e, req, now).1;
      var rule :=
        if PastDeadline(req) then Deadline
        else if !BudgetSays(p, e, req).allowed then BudgetRule
        else if !QueueSays(p, e, req, now).admitted then Backpressure
        else if p.fairness.enabled && !FairSays(p, e, req, now).1.admitted then FairnessRule
        else if !LimiterSays(p, e, req, now).1.admitted then RateLimitRule
        else NoRule;
      && d.rule == rule
      && d.outcome == (match rule case NoRule => Admit case Deadline => Reject case BudgetRule => Reject case _ => Defer)
      && d.retryAfter == (match rule
                          case Backpressure => QueueSays(p, e, req, now).retryAfter
                          case FairnessRule => FairSays(p, e, req, now).1.retryAfter
                          case RateLimitRule => LimiterSays(p, e, req, now).1.retryAfter
                          case _ => 0.0)
      && d.timeoutSeconds == (if d.outcome.Reject? then None else req.deadlineSeconds)
      && d.warning == (if d.outcome.Reject? then None else BudgetSays(p, e, req).warning)
      && d.queueDepth == DepthAt(p, e, req.taskQueue, now) + (if d.outcome.Admit? then 1 else 0)
  {
    hide Swept, BucketOf, LimiterStep, FairStep, Refunded, QueueSays, BudgetSays, DepthAt, PastDeadline, Take, Bump;
  }

  /** The whole decision, from raw fields: which governor, what outcome, what wait, what ceiling on
      the attempt, what warning and what depth. */
  lemma DecisionTable(p: SchedulerConfig, e: EngineState, req: AdmissionRequest, now: real)
    requires req.tokens > 0.0
    ensures
      var d := AdmitStep(p, e, req, now).1;
      && d.rule == DecidedBy(p, e, req, now)
      && (d.outcome.Reject? <==> d.rule.Deadline? || d.rule.BudgetRule?)
      && (d.outcome.Defer? <==> d.rule.Backpressure? || d.rule.FairnessRule? || d.rule.RateLimitRule?)
      && (d.outcome.Admit? <==> d.rule.NoRule?)
      && d.retryAfter == WaitToldBy(p, e, req, now)
      && d.timeoutSeconds == (if d.outcome.Reject? then None else req.deadlineSeconds)
      && d.warning == (if d.outcome.Reject? then None else WarningDue(p, e, req))
      && d.queueDepth == DepthAt(p, e, req.taskQueue, now) + (if d.outcome.Admit? then 1 else 0)
  {
    GovernorsInOrder(p, e, req, now);
    hide Govern, Counted, BudgetSays, FairSays, LimiterSays, OverBudget, WarningDue, Shed, Ahead, Drained, DepthAt;
    BudgetRefusesIff(p, e, req);
    QueueRefusesIff(p, e, req, now);
    FairShareRefusesIff(p, e, req, now);
    LimiterRefusesIff(p, e, req, now);
  }
}
