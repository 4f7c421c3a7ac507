/** What a provider's rule bounds, given that the bucket it fills is keyed by provider and model. */
module ProviderRules {
  import opened Common
  import opened RateLimit
  import opened Backlog
  import opened Budget
  import opened Policy
  import opened Engine
  import opened BucketRules
  import opened EngineRuns
  import opened QuotaRuns
  import opened Floods

  predicate DrawsFrom(p: SchedulerConfig, ev: Event, keys: set<string>) {
    ev.Ask? && BucketOf(p, ev.req).Some? && BucketOf(p, ev.req).value.0 in keys
  }

  /** Tokens spent by admissions since event `i` from any of the buckets. */
  ghost function SpentFrom(p: SchedulerConfig, evs: seq<Event>, i: nat, keys: set<string>): real
    requires i <= |evs|
  {
    if i == |evs| then 0.0
    else
      var n := |evs| - 1;
      SpentFrom(p, evs[..n], i, keys) + (if AdmittedAt(p, evs, n) && DrawsFrom(p, evs[n], keys) then TokensOf(evs[n]) else 0.0)
  }

  lemma {:induction false} SpentFromNowhere(p: SchedulerConfig, evs: seq<Event>, i: nat)
    requires i <= |evs|
    ensures SpentFrom(p, evs, i, {}) == 0.0
    decreases |evs|
  {
    hide AdmittedAt;
    if i < |evs| { SpentFromNowhere(p, evs[..|evs| - 1], i); }
  }

  lemma {:induction false} SpentFromOneMore(p: SchedulerConfig, evs: seq<Event>, i: nat, keys: set<string>, key: string)
    requires i <= |evs| && key in keys
    ensures SpentFrom(p, evs, i, keys) == SpentFrom(p, evs, i, keys - {key}) + Spent(p, evs, i, key)
    decreases |evs|
  {
    hide AdmittedAt, BucketOf;
    if i < |evs| { SpentFromOneMore(p, evs[..|evs| - 1], i, keys, key); }
  }

  /** A window of a run in which all the buckets are used under rules within `top`. */
  ghost predicate Window(p: SchedulerConfig, evs: seq<Event>, i: nat, keys: set<string>, top: RateLimitConfig) {
    i < |evs| && WellTimed(evs) && forall k | k in keys :: RulesWithin(p, evs, i, k, top)
  }

  function Length(evs: seq<Event>, i: nat): real
    requires i < |evs|
  {
    evs[|evs| - 1].at - evs[i].at
  }

  /** Through `n` buckets a rule lets through at most `n` times its burst plus refill. */
  lemma {:induction false} RuleTimesItsBuckets(p: SchedulerConfig, evs: seq<Event>, i: nat, keys: set<string>, top: RateLimitConfig)
    requires Window(p, evs, i, keys, top)
    ensures SpentFrom(p, evs, i, keys) <= Times(|keys|, top.burst + Inflow(top, Length(evs, i)))
    decreases |keys|
  {
    hide SpentFrom, Spent, Inflow, Times, WellTimed, RulesWithin;
    var each := top.burst + Inflow(top, Length(evs, i));
    assert each >= 0.0 by { WindowIsForward(evs, i); InflowGrows(top, Length(evs, i)); }
    TimesGrows(|keys|, each);
    if keys == {} {
      SpentFromNowhere(p, evs, i);
    } else {
      var key :| key in keys;
      SpentFromOneMore(p, evs, i, keys, key);
      EngineRespectsQuota(p, evs, i, key, top);
      RuleTimesItsBuckets(p, evs, i, keys - {key}, top);
    }
  }

  lemma WindowIsForward(evs: seq<Event>, i: nat)
    requires WellTimed(evs) && i < |evs|
    ensures Length(evs, i) >= 0.0
  {}

  function FloodKeys(n: nat): (keys: set<string>)
    ensures |keys| == n && forall k | k in keys :: |k| < n + 3
  {
    if n == 0 then {} else FloodKeys(n - 1) + {FloodKey(n - 1)}
  }

  lemma {:induction false} InFloodKeys(i: nat, n: nat)
    requires i < n
    ensures FloodKey(i) in FloodKeys(n)
  {
    if i < n - 1 { InFloodKeys(i, n - 1); }
  }

  function FloodMark(n: nat): Watermark { Watermark(n, n, 1.0, 30.0) }

  lemma {:induction false} FloodSpends(cfg: RateLimitConfig, n: nat, m: nat)
    requires cfg.burst >= 1.0 && m <= n
    ensures SpentFrom(FloodPolicy(cfg, FloodMark(n)), Flood(m, cfg.burst), 0, FloodKeys(n)) == Times(m, cfg.burst)
  {
    hide AdmittedAt, BucketOf, FloodPolicy, FloodKeys, Times, FloodKey, SpentFrom;
    TimesZero(cfg.burst);
    TimesGrows(m, cfg.burst);
    FloodSpendsOneMore(cfg, n, m);
    if m > 0 {
      FloodSpends(cfg, n, m - 1);
    }
  }

  lemma FloodSpendsOneMore(cfg: RateLimitConfig, n: nat, m: nat)
    requires cfg.burst >= 1.0 && m <= n
    ensures
      var p, keys := FloodPolicy(cfg, FloodMark(n)), FloodKeys(n);
      SpentFrom(p, Flood(m, cfg.burst), 0, keys) == if m == 0 then 0.0 else SpentFrom(p, Flood(m - 1, cfg.burst), 0, keys) + cfg.burst
  {
    hide AdmittedAt, BucketOf, FloodPolicy, FloodKeys, FloodKey, SpentFrom, Unary;
    var p, keys := FloodPolicy(cfg, FloodMark(n)), FloodKeys(n);
    if m == 0 {
      NothingSpentYet(p, Flood(0, cfg.burst), keys);
    } else {
      SpentFromLast(p, Flood(m - 1, cfg.burst), Ask(FloodRequest(m - 1, cfg.burst), 0.0), keys);
      FloodIsAdmitted(cfg, FloodMark(n), m, cfg.burst, m - 1);
      OneBucketPerModel(cfg, FloodMark(n), m - 1, cfg.burst);
      InFloodKeys(m - 1, n);
    }
  }

  lemma NothingSpentYet(p: SchedulerConfig, evs: seq<Event>, keys: set<string>)
    ensures SpentFrom(p, evs, |evs|, keys) == 0.0
  {}

  lemma SpentFromLast(p: SchedulerConfig, evs: seq<Event>, ev: Event, keys: set<string>)
    ensures SpentFrom(p, evs + [ev], 0, keys)
         == SpentFrom(p, evs, 0, keys) + (if AdmittedAt(p, evs + [ev], |evs|) && DrawsFrom(p, ev, keys) then TokensOf(ev) else 0.0)
  {
    hide AdmittedAt, DrawsFrom;
    assert (evs + [ev])[..|evs|] == evs;
  }

  lemma TimesZero(x: real)
    ensures Times(0, x) == 0.0
  {}

  /** The bound is reached: `n` models of one provider, at one instant, take `n` full bursts
      under the provider's single rule. */
  lemma RuleTimesItsBucketsIsReached(cfg: RateLimitConfig, n: nat)
    requires cfg.burst >= 1.0 && n > 0
    ensures
      var p, evs, keys := FloodPolicy(cfg, FloodMark(n)), Flood(n, cfg.burst), FloodKeys(n);
      && Window(p, evs, 0, keys, cfg) && |keys| == n && Length(evs, 0) == 0.0
      && (forall i | 0 <= i < n :: AdmittedAt(p, evs, i) && RateLimitFor(p, evs[i].req.provider, evs[i].req.model) == Some(cfg))
      && SpentFrom(p, evs, 0, keys) == Times(n, cfg.burst)
  {
    hide FloodPolicy, FloodKeys, Times, SpentFrom, AdmittedAt, BucketOf, RateLimitFor, Flood, Within, Unary;
    var p, evs := FloodPolicy(cfg, FloodMark(n)), Flood(n, cfg.burst);
    FloodSpends(cfg, n, n);
    forall i | 0 <= i < n
      ensures AdmittedAt(p, evs, i) && RateLimitFor(p, evs[i].req.provider, evs[i].req.model) == Some(cfg)
      ensures BucketOf(p, evs[i].req).Some? && Within(BucketOf(p, evs[i].req).value.1, cfg)
    {
      FloodIsAdmitted(cfg, FloodMark(n), n, cfg.burst, i);
      FloodRule(cfg, FloodMark(n), i);
    }
  }

  lemma FloodRule(cfg: RateLimitConfig, mark: Watermark, i: nat)
    requires cfg.burst >= 1.0 && WatermarkAccepted(mark)
    ensures
      var p, req := FloodPolicy(cfg, mark), FloodRequest(i, cfg.burst);
      && RateLimitFor(p, req.provider, req.model) == Some(cfg)
      && BucketOf(p, req).Some? && Within(BucketOf(p, req).value.1, cfg)
  {
    OneBucketPerModel(cfg, mark, i, cfg.burst);
    hide RateLimitFor, FloodPolicy;
  }

  /** So a rule bounds its provider's traffic by its own burst and rate if and only if that
      traffic uses a single bucket. */
  lemma RuleBoundsItsProviderIff(cfg: RateLimitConfig, n: nat)
    requires cfg.burst >= 1.0
    ensures
      (forall p, evs, i, keys | Window(p, evs, i, keys, cfg) && |keys| <= n ::
         SpentFrom(p, evs, i, keys) <= cfg.burst + Inflow(cfg, Length(evs, i)))
      <==> n <= 1
  {
    hide SpentFrom, Flood, FloodKeys, FloodPolicy, Inflow, WellTimed, RulesWithin;
    if n <= 1 {
      forall p, evs, i, keys | Window(p, evs, i, keys, cfg) && |keys| <= n
        ensures SpentFrom(p, evs, i, keys) <= cfg.burst + Inflow(cfg, Length(evs, i))
      {
        OneBucketIsBounded(p, evs, i, keys, cfg);
      }
    } else {
      ManyBucketsExceed(cfg, n);
    }
  }

  lemma ManyBucketsExceed(cfg: RateLimitConfig, n: nat)
    requires cfg.burst >= 1.0 && n > 1
    ensures
      var p, evs, keys := FloodPolicy(cfg, FloodMark(n)), Flood(n, cfg.burst), FloodKeys(n);
      Window(p, evs, 0, keys, cfg) && |keys| <= n && SpentFrom(p, evs, 0, keys) > cfg.burst + Inflow(cfg, Length(evs, 0))
  {
    hide SpentFrom, Flood, FloodKeys, FloodPolicy, AdmittedAt, RateLimitFor, Window, Times, Inflow, Length;
    RuleTimesItsBucketsIsReached(cfg, n);
    InflowGrows(cfg, 0.0);
    MoreThanOne(n, cfg.burst);
  }

  lemma MoreThanOne(n: nat, x: real)
    requires n > 1 && x > 0.0
    ensures Times(n, x) > x
  {}

  lemma OneBucketIsBounded(p: SchedulerConfig, evs: seq<Event>, i: nat, keys: set<string>, cfg: RateLimitConfig)
    requires Window(p, evs, i, keys, cfg) && |keys| <= 1
    ensures SpentFrom(p, evs, i, keys) <= cfg.burst + Inflow(cfg, Length(evs, i))
  {
    hide SpentFrom, Inflow, WellTimed, RulesWithin, Length;
    WindowIsForward(evs, i);
    InflowGrows(cfg, Length(evs, i));
    RuleTimesItsBuckets(p, evs, i, keys, cfg);
  }

  // ---- One bucket, several rules ---------------------------------------------------------------

  /** Read off the policy: if no rule that can reach the bucket exceeds `top`, no window of any run
      draws more than the burst plus the refill of `top`. */
  lemma PolicyBoundsBucket(p: SchedulerConfig, evs: seq<Event>, i: nat, key: string, top: RateLimitConfig)
    requires i < |evs| && WellTimed(evs) && forall rule | rule in RulesReaching(p, key) :: Within(rule, top)
    ensures Spent(p, evs, i, key) <= top.burst + Inflow(top, Length(evs, i))
  {
    hide Spent, Inflow, RulesReaching, WellTimed, BucketOf, Within;
    forall j | i <= j < |evs| && Draws(p, evs[j], key) ensures Within(BucketOf(p, evs[j].req).value.1, top) {
      ReachedIsListed(p, evs[j].req, key, BucketOf(p, evs[j].req).value.1);
    }
    EngineRespectsQuota(p, evs, i, key, top);
  }

  /** In particular a bucket with one rule stays within that rule. */
  lemma OneRuleBoundsBucket(p: SchedulerConfig, evs: seq<Event>, i: nat, key: string, cfg: RateLimitConfig)
    requires i < |evs| && WellTimed(evs) && cfg in RulesReaching(p, key) && |RulesReaching(p, key)| <= 1
    ensures Spent(p, evs, i, key) <= cfg.burst + Inflow(cfg, Length(evs, i))
  {
    hide Spent, Inflow, RulesReaching, WellTimed;
    forall rule | rule in RulesReaching(p, key) ensures rule == cfg {
      SameInSmall(RulesReaching(p, key), rule, cfg);
    }
    PolicyBoundsBucket(p, evs, i, key, cfg);
  }

  /** A rule for provider "a" and a default; fairness and budgets are off. */
  function TwoRulePolicy(small: RateLimitConfig, large: RateLimitConfig): SchedulerConfig
    requires small.burst >= 1.0 && large.burst >= 1.0
  {
    Document(map["a" := small, "default" := large], map[], map[], FairnessConfig(false, 30.0, 0.25), BudgetConfig(Off, None, 0.8), 1, 900.0)
  }

  function ModelRequest(tokens: real): AdmissionRequest {
    AdmissionRequest("run", "n", "q", "t", 1, Some("a"), Some("b"), tokens, 0.0, None)
  }

  function ProviderRequest(tokens: real): AdmissionRequest {
    AdmissionRequest("run", "n", "q", "t", 1, Some("a/b"), None, tokens, 0.0, None)
  }

  /** One bucket under two rules: model "b" of provider "a" falls under the provider's rule,
      a provider called "a/b" under the default one, and both draw from "a/b". */
  lemma BothDrawFromOneBucket(small: RateLimitConfig, large: RateLimitConfig, tokens: real)
    requires small.burst >= 1.0 && large.burst >= 1.0
    ensures Reaches(TwoRulePolicy(small, large), ModelRequest(tokens), "a/b", small)
    ensures Reaches(TwoRulePolicy(small, large), ProviderRequest(tokens), "a/b", large)
  {
    assert "a" + "/" + "b" == "a/b";
  }

  /** On an empty queue, with fairness and budgets off, the limiter alone decides. */
  lemma LimiterDecides(small: RateLimitConfig, large: RateLimitConfig, e: EngineState, req: AdmissionRequest)
    requires small.burst >= 1.0 && large.burst >= 1.0 && e.inflight.slots == map[]
    requires req == ModelRequest(req.tokens) || req == ProviderRequest(req.tokens)
    ensures
      var p := TwoRulePolicy(small, large);
      var (next, d) := AdmitStep(p, e, req, 0.0);
      && (d.outcome.Admit? <==> LimiterSays(p, e, req, 0.0).1.admitted)
      && next.buckets == LimiterSays(p, e, req, 0.0).0
      && (!d.outcome.Admit? ==> next.inflight.slots == map[])
  {
    hide BucketOf, LimiterStep, Tally, Take, Bump;
    assert Swept(e.inflight, 900.0, 0.0).slots == map[];
    assert Holders(map[], "q") == {};
  }

  lemma FreshPoll(small: RateLimitConfig, large: RateLimitConfig, e: EngineState, req: AdmissionRequest, cfg: RateLimitConfig)
    requires small.burst >= 1.0 && large.burst >= 1.0 && "a/b" !in e.buckets
    requires Reaches(TwoRulePolicy(small, large), req, "a/b", cfg)
    ensures
      var (buckets, d) := LimiterSays(TwoRulePolicy(small, large), e, req, 0.0);
      d.admitted == (req.tokens <= cfg.burst)
      && (!d.admitted ==> buckets == e.buckets["a/b" := Bucket(cfg.burst, 0.0)])
  {
    hide Inflow, BucketOf, TwoRulePolicy;
    InflowGrows(cfg, 0.0);
  }

  /** The smaller rule alone does not bound the bucket ... */
  lemma TwoRulesOneBucket(small: RateLimitConfig, large: RateLimitConfig, tokens: real)
    requires 1.0 <= small.burst < tokens <= large.burst
    ensures
      var p, model, provider := TwoRulePolicy(small, large), ModelRequest(tokens), ProviderRequest(tokens);
      && Reaches(p, model, "a/b", small) && Reaches(p, provider, "a/b", large)
      && AdmitStep(p, START, provider, 0.0).1.outcome.Admit? && tokens > small.burst + Inflow(small, 0.0)
  {
    hide TwoRulePolicy, AdmitStep, LimiterSays, Reaches, Inflow;
    BothDrawFromOneBucket(small, large, tokens);
    LimiterDecides(small, large, START, ProviderRequest(tokens));
    FreshPoll(small, large, START, ProviderRequest(tokens), large);
    InflowGrows(small, 0.0);
  }

  /** ... and a refusal under the smaller rule costs the larger one its tokens: a request of model
      "b" that never fits leaves "a/b" at the smaller burst, so that provider "a/b" is refused
      what it would have been given had nobody asked. */
  lemma RefusalUnderASmallerRule(small: RateLimitConfig, large: RateLimitConfig, tokens: real)
    requires 1.0 <= small.burst < tokens <= large.burst
    ensures
      var p, model, provider := TwoRulePolicy(small, large), ModelRequest(tokens), ProviderRequest(tokens);
      var (after, d) := AdmitStep(p, START, model, 0.0);
      && !d.outcome.Admit? && AdmitStep(p, START, provider, 0.0).1.outcome.Admit?
      && !AdmitStep(p, after, provider, 0.0).1.outcome.Admit?
  {
    hide TwoRulePolicy, AdmitStep, LimiterSays, Reaches;
    var p, model, provider := TwoRulePolicy(small, large), ModelRequest(tokens), ProviderRequest(tokens);
    TwoRulesOneBucket(small, large, tokens);
    LimiterDecides(small, large, START, model);
    FreshPoll(small, large, START, model, small);
    var after := AdmitStep(p, START, model, 0.0).0;
    LimiterDecides(small, large, after, provider);
    DrainedPoll(small, large, after, provider);
  }

  lemma DrainedPoll(small: RateLimitConfig, large: RateLimitConfig, e: EngineState, req: AdmissionRequest)
    requires 1.0 <= small.burst < req.tokens <= large.burst && Lookup(e.buckets, "a/b") == Some(Bucket(small.burst, 0.0))
    requires Reaches(TwoRulePolicy(small, large), req, "a/b", large)
    ensures !LimiterSays(TwoRulePolicy(small, large), e, req, 0.0).1.admitted
  {
    hide Inflow, BucketOf, TwoRulePolicy;
    InflowGrows(large, 0.0);
  }
}
