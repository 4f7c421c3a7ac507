/** The scheduler's policy document as its validators accept it
    (services/scheduler/ancora_scheduler/config.py). */
module Policy {
  import opened Common
  import opened RateLimit
  import opened Backlog
  import opened Budget

  datatype TenantPolicy = TenantPolicy(weight: real, budgetUsd: Option<real>)

  datatype FairnessConfig = FairnessConfig(enabled: bool, idleSeconds: real, deferSeconds: real)

  datatype BudgetConfig = BudgetConfig(mode: Mode, defaultRunUsd: Option<real>, warnAt: real)

  datatype Document = Document(
    rateLimits: map<string, RateLimitConfig>,
    watermarks: map<string, Watermark>,
    tenants: map<string, TenantPolicy>,
    fairness: FairnessConfig,
    budget: BudgetConfig,
    priorityCutoff: int,
    inflightTtlSeconds: real)

  const DEFAULT_WATERMARK := Watermark(50, 200, 1.0, 30.0)
  const DEFAULT_TENANT := TenantPolicy(1.0, None)

  /** `hard` is compared with `soft` only when it is given: a defaulted 200 may be lower. */
  predicate WatermarkAccepted(w: Watermark) {
    && (w.soft <= w.hard || w.hard == DEFAULT_WATERMARK.hard)
    && w.backoffSeconds > 0.0 && w.maxBackoffSeconds > 0.0
  }

  /** Exactly the marks in order keep "at hard, defer everything" and are sure to be accepted;
      the accepted ones that break it have `hard` at its default below `soft`. */
  lemma AcceptedMarksBreakTheRuleIff(w: Watermark, priority: int, cutoff: int)
    requires WatermarkAccepted(w)
    ensures (exists depth: nat | depth >= w.hard :: EvaluateBackpressure(depth, w, priority, cutoff).admitted)
       <==> w.hard == DEFAULT_WATERMARK.hard < w.soft
  {
    HardMarkStopsAllIffOrdered(w, priority, cutoff);
  }

  predicate Accepted(d: Document) {
    && (forall k | k in d.rateLimits :: d.rateLimits[k].burst >= 1.0)
    && (forall q | q in d.watermarks :: WatermarkAccepted(d.watermarks[q]))
    && (forall t | t in d.tenants ::
          d.tenants[t].weight > 0.0 && (d.tenants[t].budgetUsd.Some? ==> d.tenants[t].budgetUsd.value >= 0.0))
    && d.fairness.idleSeconds > 0.0 && d.fairness.deferSeconds > 0.0
    && (d.budget.defaultRunUsd.Some? ==> d.budget.defaultRunUsd.value >= 0.0)
    && 0.0 < d.budget.warnAt <= 1.0
    && d.priorityCutoff >= 1 && d.inflightTtlSeconds > 0.0
  }

  type SchedulerConfig = d: Document | Accepted(d)
    witness Document(map[], map[], map[], FairnessConfig(true, 30.0, 0.25), BudgetConfig(Soft, None, 0.8), 1, 900.0)

  /** A name that is absent and a name that is empty are both falsy. */
  predicate Named(s: Option<string>) { s.Some? && s.value != "" }

  function BucketKey(provider: string, model: Option<string>): string {
    if Named(model) then provider + "/" + model.value else provider
  }

  /** Most specific rule first: provider/model, then provider, then "default". */
  function RateLimitFor(d: SchedulerConfig, provider: Option<string>, model: Option<string>): Option<RateLimitConfig> {
    if Named(provider) && Named(model) && BucketKey(provider.value, model) in d.rateLimits then
      Some(d.rateLimits[BucketKey(provider.value, model)])
    else if Named(provider) && provider.value in d.rateLimits then Some(d.rateLimits[provider.value])
    else if "default" in d.rateLimits then Some(d.rateLimits["default"])
    else None
  }

  /** The rule of a model comes before its provider's, and that before the default one. */
  lemma MostSpecificRuleFirst(d: SchedulerConfig, provider: string, model: string)
    requires provider != "" && model != ""
    ensures
      var key, rules := provider + "/" + model, d.rateLimits;
      && (key in rules ==> RateLimitFor(d, Some(provider), Some(model)) == Some(rules[key]))
      && (key !in rules ==> RateLimitFor(d, Some(provider), Some(model)) == RateLimitFor(d, Some(provider), None))
      && (provider in rules ==> RateLimitFor(d, Some(provider), None) == Some(rules[provider]))
      && (provider !in rules ==> RateLimitFor(d, Some(provider), None) == RateLimitFor(d, None, Some(model)))
      && RateLimitFor(d, None, Some(model)) == (if "default" in rules then Some(rules["default"]) else None)
  {}

  /** A queue's own marks come before the default ones, and those before soft 50 and hard 200; a
      tenant's own policy before the default one, and that before weight 1 without a budget; and a
      budget that is missing or zero leaves a run to the limit for all runs. */
  lemma OwnEntryFirst(d: SchedulerConfig, queue: string, tenant: string)
    ensures queue in d.watermarks ==> WatermarkFor(d, queue) == d.watermarks[queue]
    ensures queue !in d.watermarks && "default" in d.watermarks ==> WatermarkFor(d, queue) == d.watermarks["default"]
    ensures queue !in d.watermarks && "default" !in d.watermarks ==> WatermarkFor(d, queue) == Watermark(50, 200, 1.0, 30.0)
    ensures tenant in d.tenants ==> TenantFor(d, tenant) == d.tenants[tenant]
    ensures tenant !in d.tenants && "default" in d.tenants ==> TenantFor(d, tenant) == d.tenants["default"]
    ensures tenant !in d.tenants && "default" !in d.tenants ==> TenantFor(d, tenant) == TenantPolicy(1.0, None)
    ensures TenantFor(d, tenant).budgetUsd.Some? && TenantFor(d, tenant).budgetUsd.value > 0.0
        ==> RunLimit(d, tenant) == TenantFor(d, tenant).budgetUsd
    ensures TenantFor(d, tenant).budgetUsd in {None, Some(0.0)} ==> RunLimit(d, tenant) == d.budget.defaultRunUsd
  {}

  function WatermarkFor(d: SchedulerConfig, queue: string): Watermark {
    if queue in d.watermarks then d.watermarks[queue]
    else if "default" in d.watermarks then d.watermarks["default"]
    else DEFAULT_WATERMARK
  }

  function TenantFor(d: SchedulerConfig, name: string): TenantPolicy {
    if name in d.tenants then d.tenants[name]
    else if "default" in d.tenants then d.tenants["default"]
    else DEFAULT_TENANT
  }

  /** `tenant.budget_usd or default_run_usd`: a zero budget falls through to the default. */
  function RunLimit(d: SchedulerConfig, tenant: string): Option<real> {
    var own := TenantFor(d, tenant).budgetUsd;
    if own.Some? && own.value != 0.0 then own else d.budget.defaultRunUsd
  }
}
