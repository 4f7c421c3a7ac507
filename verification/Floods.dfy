/** A flood: simultaneous requests to one queue and one provider, each for a model of its own.
    It drives the engine to the edge of its watermarks and of its provider rules. */
module Floods {
  import opened Common
  import opened RateLimit
  import opened Backlog
  import opened Budget
  import opened Policy
  import opened Engine
  import opened EngineRuns

  /** One rule, for provider "a"; fairness and budgets are off. */
  function FloodPolicy(cfg: RateLimitConfig, mark: Watermark): SchedulerConfig
    requires cfg.burst >= 1.0 && WatermarkAccepted(mark)
  {
    Document(map["a" := cfg], map["q" := mark], map[], FairnessConfig(false, 30.0, 0.25), BudgetConfig(Off, None, 0.8), 1, 900.0)
  }

  /** Bulk work, which is shed from the soft mark on. */
  function FloodRequest(i: nat, tokens: real): AdmissionRequest {
    AdmissionRequest("run", Unary(i), "q", "t", 5, Some("a"), Some(Unary(i)), tokens, 0.0, None)
  }

  function FloodKey(i: nat): string { "a" + "/" + Unary(i) }

  function Flood(n: nat, tokens: real): (evs: seq<Event>)
    ensures |evs| == n
    ensures forall i | 0 <= i < n :: evs[i] == Ask(FloodRequest(i, tokens), 0.0)
  {
    if n == 0 then [] else Flood(n - 1, tokens) + [Ask(FloodRequest(n - 1, tokens), 0.0)]
  }

  lemma FloodPrefix(n: nat, m: nat, tokens: real)
    requires m <= n
    ensures Flood(n, tokens)[..m] == Flood(m, tokens)
  {}

  /** Every model draws from its own bucket, under the provider's rule. */
  lemma OneBucketPerModel(cfg: RateLimitConfig, mark: Watermark, i: nat, tokens: real)
    requires cfg.burst >= 1.0 && WatermarkAccepted(mark)
    ensures BucketOf(FloodPolicy(cfg, mark), FloodRequest(i, tokens)) == Some((FloodKey(i), cfg))
  {
    assert |FloodKey(i)| == i + 3;
  }

  /** After `n` requests: `n` slots of this instant, and no token or bucket key of a later request. */
  ghost predicate Flooded(e: EngineState, n: nat) {
    && |Holders(e.inflight.slots, "q")| == n
    && (forall k | k in e.inflight.slots :: e.inflight.slots[k] == Slot("q", 0.0) && |k| < n + 5)
    && (forall k | k in e.buckets :: |k| < n + 3)
  }

  /** Below the soft mark a request for a fresh bucket's whole burst, or less, is admitted. */
  lemma FloodAdmits(cfg: RateLimitConfig, mark: Watermark, e: EngineState, n: nat, tokens: real)
    requires cfg.burst >= 1.0 && WatermarkAccepted(mark) && tokens <= cfg.burst
    requires Flooded(e, n) && n < mark.soft
    ensures
      var (next, d) := AdmitStep(FloodPolicy(cfg, mark), e, FloodRequest(n, tokens), 0.0);
      && d.outcome.Admit? && d.queueDepth == n + 1
      && next.inflight == Take(e.inflight, Token("run", Unary(n)), "q", 0.0)
      && next.buckets.Keys == e.buckets.Keys + {FloodKey(n)}
  {
    hide Take, Swept, BucketOf, Inflow, Holders, Bump;
    var p, req := FloodPolicy(cfg, mark), FloodRequest(n, tokens);
    OneBucketPerModel(cfg, mark, n, tokens);
    NothingOverdue(e.inflight, p.inflightTtlSeconds);
    InflowGrows(cfg, 0.0);
    assert |FloodKey(n)| == n + 3;
    assert FloodKey(n) !in e.buckets;
  }

  lemma FloodDeepens(e: EngineState, next: EngineState, n: nat)
    requires Flooded(e, n) && next.inflight == Take(e.inflight, Token("run", Unary(n)), "q", 0.0)
    requires next.buckets.Keys == e.buckets.Keys + {FloodKey(n)}
    ensures Flooded(next, n + 1)
  {
    hide Holders, Bump;
    assert |Token("run", Unary(n))| == n + 5 && |FloodKey(n)| == n + 3;
    HoldersPut(e.inflight.slots, Token("run", Unary(n)), Slot("q", 0.0), "q");
  }

  lemma {:induction false} FloodFills(cfg: RateLimitConfig, mark: Watermark, n: nat, tokens: real)
    requires cfg.burst >= 1.0 && WatermarkAccepted(mark) && tokens <= cfg.burst && n <= mark.soft
    ensures Flooded(Run(FloodPolicy(cfg, mark), Flood(n, tokens)), n)
  {
    hide Flooded, AdmitStep, FloodPolicy, FloodRequest, Flood, Run, Take;
    FloodRun(FloodPolicy(cfg, mark), n, tokens);
    if n == 0 {
      NotFlooded();
    } else {
      var e := Run(FloodPolicy(cfg, mark), Flood(n - 1, tokens));
      FloodFills(cfg, mark, n - 1, tokens);
      FloodAdmits(cfg, mark, e, n - 1, tokens);
      FloodDeepens(e, AdmitStep(FloodPolicy(cfg, mark), e, FloodRequest(n - 1, tokens), 0.0).0, n - 1);
    }
  }

  lemma FloodRun(p: SchedulerConfig, n: nat, tokens: real)
    ensures n == 0 ==> Run(p, Flood(n, tokens)) == START
    ensures n > 0 ==>
      Run(p, Flood(n, tokens)) == AdmitStep(p, Run(p, Flood(n - 1, tokens)), FloodRequest(n - 1, tokens), 0.0).0
  {
    hide AdmitStep, FloodRequest;
    if n > 0 { FloodPrefix(n, n - 1, tokens); }
  }

  lemma NotFlooded()
    ensures Flooded(START, 0)
  {
    assert Holders(map[], "q") == {};
  }

  /** Every request of a flood up to the soft mark is admitted. */
  lemma FloodIsAdmitted(cfg: RateLimitConfig, mark: Watermark, n: nat, tokens: real, i: nat)
    requires cfg.burst >= 1.0 && WatermarkAccepted(mark) && tokens <= cfg.burst && i < n <= mark.soft
    ensures AdmittedAt(FloodPolicy(cfg, mark), Flood(n, tokens), i)
  {
    hide Run, AdmitStep, Flooded, FloodPolicy, FloodRequest, Take;
    FloodFills(cfg, mark, i, tokens);
    FloodPrefix(n, i, tokens);
    FloodAdmits(cfg, mark, Run(FloodPolicy(cfg, mark), Flood(i, tokens)), i, tokens);
  }

  /** A mark the validator accepts, with `hard` left at its default: bulk work is admitted at a
      depth that a reachable state has and that is at or above `hard`, exactly when `soft` is higher. */
  lemma BulkPassesHardIffSoftIsHigher(cfg: RateLimitConfig, soft: nat, depth: nat)
    requires cfg.burst >= 1.0 && DEFAULT_WATERMARK.hard <= depth <= soft
    ensures
      var mark := DEFAULT_WATERMARK.(soft := soft);
      && WatermarkAccepted(mark)
      && |Holders(Run(FloodPolicy(cfg, mark), Flood(depth, 1.0)).inflight.slots, "q")| == depth
      && (AdmitStep(FloodPolicy(cfg, mark), Run(FloodPolicy(cfg, mark), Flood(depth, 1.0)), FloodRequest(depth, 1.0), 0.0).1.outcome.Admit?
          <==> depth < soft)
  {
    hide AdmitStep, FloodPolicy, FloodRequest, Flood, Run, Take, Flooded;
    var mark := DEFAULT_WATERMARK.(soft := soft);
    var e := Run(FloodPolicy(cfg, mark), Flood(depth, 1.0));
    FloodFills(cfg, mark, depth, 1.0);
    assert |Holders(e.inflight.slots, "q")| == depth by { FloodDepth(e, depth); }
    if depth < soft {
      FloodAdmits(cfg, mark, e, depth, 1.0);
    } else {
      FloodIsDeferred(cfg, mark, e, depth, 1.0);
    }
  }

  lemma FloodDepth(e: EngineState, n: nat)
    requires Flooded(e, n)
    ensures |Holders(e.inflight.slots, "q")| == n
  {
    hide Holders;
  }

  lemma FloodIsDeferred(cfg: RateLimitConfig, mark: Watermark, e: EngineState, n: nat, tokens: real)
    requires cfg.burst >= 1.0 && WatermarkAccepted(mark) && Flooded(e, n) && mark.soft <= n
    ensures
      var d := AdmitStep(FloodPolicy(cfg, mark), e, FloodRequest(n, tokens), 0.0).1;
      d.rule.Backpressure? && !d.outcome.Admit?
  {
    hide Take, Swept, BucketOf, Inflow, Holders, Bump;
    NothingOverdue(e.inflight, FloodPolicy(cfg, mark).inflightTtlSeconds);
  }
}
