/** The admission engine: five governors in order over shared state
    (services/scheduler/ancora_scheduler/engine.py). One call is one atomic step at one instant. */
module Engine {
  import opened Common
  import opened RateLimit
  import opened Fairness
  import opened Backlog
  import opened Budget
  import opened Policy

  datatype AdmissionRequest = AdmissionRequest(
    runId: string, nodeId: string, taskQueue: string, tenant: string, priority: int,
    provider: Option<string>, model: Option<string>,
    tokens: real, estimatedUsd: real, deadlineSeconds: Option<real>)

  datatype Outcome = Admit | Defer | Reject

  datatype Rule = NoRule | Deadline | BudgetRule | Backpressure | FairnessRule | RateLimitRule

  datatype AdmissionDecision = AdmissionDecision(
    outcome: Outcome, rule: Rule, retryAfter: real,
    warning: Option<Warning>, timeoutSeconds: Option<real>, queueDepth: nat)

  /** Retries of a node reuse its slot: the attempt number is not part of the token. */
  function Token(runId: string, nodeId: string): string { runId + ":" + nodeId }

  datatype Stats = Stats(
    byOutcome: map<Outcome, nat>, byRule: map<Rule, nat>,
    byQueueOutcome: map<(string, Outcome), nat>, rateLimitDefers: map<string, nat>)

  function Counted(s: Stats, queue: string, d: AdmissionDecision, provider: Option<string>): Stats {
    Stats(
      Bump(s.byOutcome, d.outcome),
      Bump(s.byRule, d.rule),
      Bump(s.byQueueOutcome, (queue, d.outcome)),
      if d.rule.RateLimitRule? && Named(provider) then Bump(s.rateLimitDefers, provider.value) else s.rateLimitDefers)
  }

  class AdmissionStats {
    var byOutcome: map<Outcome, nat>
    var byRule: map<Rule, nat>
    var byQueueOutcome: map<(string, Outcome), nat>
    var rateLimitDefers: map<string, nat>

    ghost function State(): Stats
      reads this
    {
      Stats(byOutcome, byRule, byQueueOutcome, rateLimitDefers)
    }

    constructor ()
      ensures State() == Stats(map[], map[], map[], map[])
    {
      byOutcome, byRule, byQueueOutcome, rateLimitDefers := map[], map[], map[], map[];
    }

    method Record(queue: string, d: AdmissionDecision, provider: Option<string>)
      modifies this
      ensures State() == Counted(old(State()), queue, d, provider)
    {
      hide Count;
      byOutcome := byOutcome[d.outcome := Count(byOutcome, d.outcome) + 1];
      byRule := byRule[d.rule := Count(byRule, d.rule) + 1];
      var key := (queue, d.outcome);
      byQueueOutcome := byQueueOutcome[key := Count(byQueueOutcome, key) + 1];
      if d.rule.RateLimitRule? && Named(provider) {
        rateLimitDefers := rateLimitDefers[provider.value := Count(rateLimitDefers, provider.value) + 1];
      }
    }
  }

  datatype EngineState = EngineState(
    buckets: map<string, Bucket>, inflight: Tracker, queues: map<string, Contenders>,
    ledger: Ledger, lanes: map<(string, int), nat>, stats: Stats)

  const START := EngineState(map[], FRESH, map[], Ledger(map[], map[]), map[], Stats(map[], map[], map[], map[]))

  // ---- The verdict of each governor, in the order they are asked --------------------

  predicate PastDeadline(req: AdmissionRequest) {
    req.deadlineSeconds.Some? && req.deadlineSeconds.value <= 0.0
  }

  function BudgetSays(p: SchedulerConfig, e: EngineState, req: AdmissionRequest): BudgetVerdict {
    CheckBudget(Spend(e.ledger.byRun, req.runId), req.estimatedUsd, RunLimit(p, req.tenant), p.budget.mode, p.budget.warnAt)
  }

  function DepthAt(p: SchedulerConfig, e: EngineState, queue: string, now: real): nat {
    |Holders(Swept(e.inflight, p.inflightTtlSeconds, now).slots, queue)|
  }

  function QueueSays(p: SchedulerConfig, e: EngineState, req: AdmissionRequest, now: real): BackpressureDecision {
    EvaluateBackpressure(DepthAt(p, e, req.taskQueue, now), WatermarkFor(p, req.taskQueue), req.priority, p.priorityCutoff)
  }

  /** The request gets as far as the fair-share gate and its gate is switched on. */
  predicate AsksFairShare(p: SchedulerConfig, e: EngineState, req: AdmissionRequest, now: real) {
    p.fairness.enabled && !PastDeadline(req) && BudgetSays(p, e, req).allowed && QueueSays(p, e, req, now).admitted
  }

  function FairStepSize(p: SchedulerConfig, req: AdmissionRequest): real {
    Step(TenantFor(p, req.tenant).weight, req.tokens)
  }

  ghost function FairSays(p: SchedulerConfig, e: EngineState, req: AdmissionRequest, now: real)
    : (map<string, Contenders>, FairDecision)
  {
    FairStep(e.queues, p.fairness.idleSeconds, p.fairness.deferSeconds,
             req.taskQueue, req.tenant, TenantFor(p, req.tenant).weight, req.tokens, now)
  }

  /** The bucket a request draws from: keyed by provider and model even when the rule
      that matched was the provider's or the default one. */
  function BucketOf(p: SchedulerConfig, req: AdmissionRequest): Option<(string, RateLimitConfig)> {
    var rule := RateLimitFor(p, req.provider, req.model);
    if rule.Some? && Named(req.provider) then Some((BucketKey(req.provider.value, req.model), rule.value)) else None
  }

  function LimiterSays(p: SchedulerConfig, e: EngineState, req: AdmissionRequest, now: real)
    : (map<string, Bucket>, AdmitDecision)
  {
    match BucketOf(p, req)
    case None => (e.buckets, AdmitDecision(true, 0.0))
    case Some(b) => LimiterStep(e.buckets, b.0, b.1, req.tokens, now)
  }

  /** The last gate, and what an admission takes. `e` has already been charged if fairness is on. */
  function PastFairShare(
    p: SchedulerConfig, e: EngineState, req: AdmissionRequest, now: real, depth: nat, warning: Option<Warning>)
    : (EngineState, AdmissionDecision)
  {
    var (buckets, rl) := LimiterSays(p, e, req, now);
    if !rl.admitted then
      var queues := if p.fairness.enabled
        then Refunded(e.queues, req.taskQueue, req.tenant, TenantFor(p, req.tenant).weight, req.tokens) else e.queues;
      (e.(queues := queues, buckets := buckets),
       AdmissionDecision(Defer, RateLimitRule, rl.retryAfter, warning, req.deadlineSeconds, depth))
    else
      var inflight := Take(Swept(e.inflight, p.inflightTtlSeconds, now), Token(req.runId, req.nodeId), req.taskQueue, now);
      (e.(buckets := buckets, inflight := inflight, lanes := Bump(e.lanes, (req.taskQueue, req.priority))),
       AdmissionDecision(Admit, NoRule, 0.0, warning, req.deadlineSeconds, depth + 1))
  }

  ghost function PastBackpressure(
    p: SchedulerConfig, e: EngineState, req: AdmissionRequest, now: real, depth: nat, warning: Option<Warning>)
    : (EngineState, AdmissionDecision)
  {
    if !p.fairness.enabled then PastFairShare(p, e, req, now, depth, warning)
    else
      var (queues, fd) := FairSays(p, e, req, now);
      if !fd.admitted then
        (e.(queues := queues), AdmissionDecision(Defer, FairnessRule, fd.retryAfter, warning, req.deadlineSeconds, depth))
      else PastFairShare(p, e.(queues := queues), req, now, depth, warning)
  }

  /** The whole pipeline on values. */
  ghost function Govern(p: SchedulerConfig, e: EngineState, req: AdmissionRequest, now: real)
    : (EngineState, AdmissionDecision)
  {
    var swept := e.(inflight := Swept(e.inflight, p.inflightTtlSeconds, now));
    var depth := DepthAt(p, e, req.taskQueue, now);
    var warning := BudgetSays(p, e, req).warning;
    if PastDeadline(req) then
      (swept, AdmissionDecision(Reject, Deadline, 0.0, None, None, depth))
    else if !BudgetSays(p, e, req).allowed then
      (swept, AdmissionDecision(Reject, BudgetRule, 0.0, None, None, depth))
    else if !QueueSays(p, e, req, now).admitted then
      (swept, AdmissionDecision(Defer, Backpressure, QueueSays(p, e, req, now).retryAfter, warning, req.deadlineSeconds, depth))
    else PastBackpressure(p, swept, req, now, depth, warning)
  }

  ghost function AdmitStep(p: SchedulerConfig, e: EngineState, req: AdmissionRequest, now: real)
    : (EngineState, AdmissionDecision)
  {
    var (next, d) := Govern(p, e, req, now);
    (next.(stats := Counted(next.stats, req.taskQueue, d, req.provider)), d)
  }

  function CompleteStep(e: EngineState, runId: string, nodeId: string, tenant: string, usd: real): (EngineState, bool) {
    var (inflight, released) := Release(e.inflight, Token(runId, nodeId));
    (e.(ledger := WithSpend(e.ledger, runId, tenant, usd), inflight := inflight), released)
  }

  class AdmissionEngine {
    const config: SchedulerConfig
    const limiter: InMemoryRateLimiter
    const inflight: InflightTracker
    const fair: FairShare
    const ledger: BudgetLedger
    const lanes: PriorityLanes
    const stats: AdmissionStats

    ghost predicate Wired() {
      && inflight.ttlSeconds == config.inflightTtlSeconds
      && fair.idleSeconds == config.fairness.idleSeconds
      && fair.deferSeconds == config.fairness.deferSeconds
    }

    ghost function State(): EngineState
      reads limiter, inflight, fair, ledger, lanes, stats
    {
      EngineState(limiter.state, inflight.State(), fair.queues, ledger.State(), lanes.counts, stats.State())
    }

    constructor (config: SchedulerConfig)
      ensures this.config == config && Wired() && State() == START
      ensures fresh(limiter) && fresh(inflight) && fresh(fair) && fresh(ledger) && fresh(lanes) && fresh(stats)
    {
      this.config := config;
      limiter := new InMemoryRateLimiter();
      inflight := new InflightTracker(config.inflightTtlSeconds);
      fair := new FairShare(config.fairness.idleSeconds, config.fairness.deferSeconds);
      ledger := new BudgetLedger();
      lanes := new PriorityLanes();
      stats := new AdmissionStats();
    }

    /** The decision, before it is counted. */
    method Decide(req: AdmissionRequest, now: real) returns (d: AdmissionDecision)
      requires Wired()
      modifies limiter, inflight, fair, lanes
      ensures (State(), d) == Govern(config, old(State()), req, now)
    {
      hide FairStep, Swept, EvaluateBackpressure, CheckBudget, Holders, PastFairShare;
      var depth := inflight.Depth(req.taskQueue, now);

      // 1. Deadline
      if req.deadlineSeconds.Some? && req.deadlineSeconds.value <= 0.0 {
        return AdmissionDecision(Reject, Deadline, 0.0, None, None, depth);
      }

      // 2. Budget, of the run alone
      var spent := if req.runId in ledger.byRun then ledger.byRun[req.runId] else 0.0;
      var verdict := CheckBudget(spent, req.estimatedUsd, RunLimit(config, req.tenant), config.budget.mode, config.budget.warnAt);
      if !verdict.allowed {
        return AdmissionDecision(Reject, BudgetRule, 0.0, None, None, depth);
      }

      // 3. Backpressure
      var bp := EvaluateBackpressure(depth, WatermarkFor(config, req.taskQueue), req.priority, config.priorityCutoff);
      if !bp.admitted {
        return AdmissionDecision(Defer, Backpressure, bp.retryAfter, verdict.warning, req.deadlineSeconds, depth);
      }

      // 4. Fair share; the charge stands unless step 5 gives it back
      if config.fairness.enabled {
        var fd := fair.Admit(req.taskQueue, req.tenant, TenantFor(config, req.tenant).weight, req.tokens, now);
        if !fd.decision.admitted {
          return AdmissionDecision(Defer, FairnessRule, fd.decision.retryAfter, verdict.warning, req.deadlineSeconds, depth);
        }
      }
      d := TakeTokensAndSlot(req, now, depth, verdict.warning);
    }

    /** Step 5, the provider rate limit, and the slot and lane of an admission. */
    method TakeTokensAndSlot(req: AdmissionRequest, now: real, depth: nat, warning: Option<Warning>)
      returns (d: AdmissionDecision)
      requires Wired()
      modifies limiter, inflight, fair, lanes
      ensures (State(), d) == PastFairShare(config, old(State()), req, now, depth, warning)
    {
      hide LimiterStep, Swept, Take, Refunded, Bump;
      var rule := RateLimitFor(config, req.provider, req.model);
      if rule.Some? && Named(req.provider) {
        var rl := limiter.Admit(BucketKey(req.provider.value, req.model), rule.value, req.tokens, now);
        if !rl.admitted {
          if config.fairness.enabled {
            fair.Refund(req.taskQueue, req.tenant, TenantFor(config, req.tenant).weight, req.tokens);
          }
          return AdmissionDecision(Defer, RateLimitRule, rl.retryAfter, warning, req.deadlineSeconds, depth);
        }
      }
      inflight.Admit(Token(req.runId, req.nodeId), req.taskQueue, now);
      lanes.Record(req.taskQueue, req.priority);
      d := AdmissionDecision(Outcome.Admit, NoRule, 0.0, warning, req.deadlineSeconds, depth + 1);
    }

    /** One request, decided and counted. */
    method Admit(req: AdmissionRequest, now: real) returns (d: AdmissionDecision)
      requires Wired()
      modifies limiter, inflight, fair, lanes, stats
      ensures (State(), d) == AdmitStep(config, old(State()), req, now)
    {
      hide Govern, Counted;
      d := Decide(req, now);
      stats.Record(req.taskQueue, d, req.provider);
    }

    /** One report: the spend counts even where the token holds no slot any more. */
    method Complete(runId: string, nodeId: string, tenant: string, usd: real) returns (released: bool)
      requires Wired()
      modifies inflight, ledger
      ensures (State(), released) == CompleteStep(old(State()), runId, nodeId, tenant, usd)
    {
      ledger.Record(runId, tenant, usd);
      released := inflight.Complete(Token(runId, nodeId));
    }
  }
}
