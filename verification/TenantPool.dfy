/** What a tenant's budget does and does not bound: only the run's own spend is compared with it. */
module TenantPool {
  import opened Common
  import opened RateLimit
  import opened Fairness
  import opened Backlog
  import opened Budget
  import opened Policy
  import opened Engine
  import opened AdmissionCalls
  import opened EngineRuns
  import opened QuotaRuns

  function WithPool(e: EngineState, pool: map<string, real>): EngineState { e.(ledger := e.ledger.(byTenant := pool)) }

  lemma PoolPastFairShare(
    p: SchedulerConfig, e: EngineState, req: AdmissionRequest, now: real, depth: nat, warning: Option<Warning>, pool: map<string, real>)
    ensures
      var (next, d) := PastFairShare(p, e, req, now, depth, warning);
      PastFairShare(p, WithPool(e, pool), req, now, depth, warning) == (WithPool(next, pool), d)
  {
    hide Swept, BucketOf, LimiterStep, Refunded, Take, Bump;
  }

  lemma PoolPastBackpressure(
    p: SchedulerConfig, e: EngineState, req: AdmissionRequest, now: real, depth: nat, warning: Option<Warning>, pool: map<string, real>)
    ensures
      var (next, d) := PastBackpressure(p, e, req, now, depth, warning);
      PastBackpressure(p, WithPool(e, pool), req, now, depth, warning) == (WithPool(next, pool), d)
  {
    hide PastFairShare, FairStep;
    PoolPastFairShare(p, e, req, now, depth, warning, pool);
    PoolPastFairShare(p, e.(queues := FairSays(p, e, req, now).0), req, now, depth, warning, pool);
  }

  lemma PoolGoverns(p: SchedulerConfig, e: EngineState, req: AdmissionRequest, now: real, pool: map<string, real>)
    ensures
      var (next, d) := Govern(p, e, req, now);
      Govern(p, WithPool(e, pool), req, now) == (WithPool(next, pool), d)
  {
    hide PastBackpressure, Swept, CheckBudget, EvaluateBackpressure, Holders, RunLimit, WatermarkFor;
    var swept := e.(inflight := Swept(e.inflight, p.inflightTtlSeconds, now));
    PoolPastBackpressure(p, swept, req, now, DepthAt(p, e, req.taskQueue, now), BudgetSays(p, e, req).warning, pool);
  }

  /** The pool is never read: whatever it holds, every call decides alike and does the same to
      everything else. */
  lemma PoolIsNeverRead(p: SchedulerConfig, e: EngineState, req: AdmissionRequest, now: real, pool: map<string, real>)
    ensures AdmitStep(p, WithPool(e, pool), req, now).1 == AdmitStep(p, e, req, now).1
    ensures AdmitStep(p, WithPool(e, pool), req, now).0 == WithPool(AdmitStep(p, e, req, now).0, pool)
  {
    hide Govern, Counted;
    PoolGoverns(p, e, req, now, pool);
  }

  /** A limit refuses anything if and only if the mode is hard and the limit is there and positive. */
  lemma LimitBindsIff(limit: Option<real>, mode: Mode, warnAt: real)
    ensures (exists spent, estimate :: !CheckBudget(spent, estimate, limit, mode, warnAt).allowed)
       <==> mode.Hard? && limit.Some? && limit.value > 0.0
  {
    if mode.Hard? && limit.Some? && limit.value > 0.0 {
      assert !CheckBudget(limit.value + 1.0, 0.0, limit, mode, warnAt).allowed;
    }
  }

  /** What the check allows keeps the tenant's spend within its budget if and only if it allows
      nothing more, or the tenant has spent no more than this very run. */
  lemma PoolIsKeptIff(runSpent: real, tenantSpent: real, budget: real, warnAt: real)
    requires budget > 0.0
    ensures
      (forall estimate | CheckBudget(runSpent, estimate, Some(budget), Hard, warnAt).allowed :: tenantSpent + Estimate(estimate) <= budget)
      <==> runSpent > budget || tenantSpent <= runSpent
  {
    if runSpent <= budget && tenantSpent > runSpent {
      assert CheckBudget(runSpent, budget - runSpent, Some(budget), Hard, warnAt).allowed;
    }
  }

  // ---- A tenant that overdraws its pool ----------------------------------------------------------

  /** One tenant with a budget, in hard mode; fairness and rate limits are off. */
  function PoolPolicy(budget: real): SchedulerConfig
    requires budget > 0.0
  {
    Document(map[], map[], map["t" := TenantPolicy(1.0, Some(budget))], FairnessConfig(false, 30.0, 0.25),
             BudgetConfig(Hard, None, 0.8), 1, 900.0)
  }

  /** A run of a single node that is estimated at `budget` and costs just that. */
  function SoleNode(i: nat, budget: real): AdmissionRequest {
    AdmissionRequest(Unary(i), "node", "q", "t", 1, None, None, 1.0, budget, None)
  }

  /** `n` such runs, each admitted and reported before the next one asks. */
  function RunByRun(n: nat, budget: real): (evs: seq<Event>)
    ensures WellTimed(evs) && forall i | 0 <= i < |evs| :: evs[i].at == 0.0
  {
    if n == 0 then []
    else RunByRun(n - 1, budget) + [Ask(SoleNode(n - 1, budget), 0.0)] + [Report(Unary(n - 1), "node", "t", budget, 0.0)]
  }

  /** No slot is held, `n` runs have spent `budget` each, and no later run has spent anything. */
  ghost predicate Overdrawn(e: EngineState, n: nat, budget: real) {
    && e.inflight.slots == map[]
    && Spend(e.ledger.byTenant, "t") == Times(n, budget)
    && (forall k | k in e.ledger.byRun :: |k| <= n && e.ledger.byRun[k] == budget)
  }

  lemma NothingHeld(t: Tracker, ttl: real, now: real)
    requires t.slots == map[]
    ensures Swept(t, ttl, now).slots == map[] && |Holders(Swept(t, ttl, now).slots, "q")| == 0
  {
    hide Tally;
  }

  lemma NextRunIsAdmitted(e: EngineState, n: nat, budget: real)
    requires budget > 0.0 && Overdrawn(e, n, budget)
    ensures
      var (next, d) := AdmitStep(PoolPolicy(budget), e, SoleNode(n, budget), 0.0);
      d.outcome.Admit? && next.ledger == e.ledger && next.inflight.slots == map[Token(Unary(n), "node") := Slot("q", 0.0)]
  {
    hide Tally, Bump, Times, Holders, Unary;
    var p := PoolPolicy(budget);
    NothingHeld(e.inflight, p.inflightTtlSeconds, 0.0);
    NothingHeld(Swept(e.inflight, p.inflightTtlSeconds, 0.0), p.inflightTtlSeconds, 0.0);
    assert Unary(n) !in e.ledger.byRun;
  }

  lemma ReportOverdraws(e: EngineState, next: EngineState, n: nat, budget: real)
    requires budget > 0.0 && Overdrawn(e, n, budget)
    requires next.ledger == e.ledger && next.inflight.slots == map[Token(Unary(n), "node") := Slot("q", 0.0)]
    ensures Overdrawn(CompleteStep(next, Unary(n), "node", "t", budget).0, n + 1, budget)
  {
    hide Times, Bump, Unary;
    assert Unary(n) !in e.ledger.byRun;
    TimesGrows(n + 1, budget);
  }

  lemma {:induction false} RunByRunOverdraws(n: nat, budget: real)
    requires budget > 0.0
    ensures Overdrawn(Run(PoolPolicy(budget), RunByRun(n, budget)), n, budget)
  {
    hide Overdrawn, AdmitStep, CompleteStep, PoolPolicy, SoleNode, Unary, Run;
    if n == 0 {
      NothingOverdrawn(budget);
    } else {
      var evs := RunByRun(n - 1, budget);
      RunByRunOverdraws(n - 1, budget);
      var e := Run(PoolPolicy(budget), evs);
      NextRunIsAdmitted(e, n - 1, budget);
      ReportOverdraws(e, AdmitStep(PoolPolicy(budget), e, SoleNode(n - 1, budget), 0.0).0, n - 1, budget);
      LastTwo(PoolPolicy(budget), evs, Ask(SoleNode(n - 1, budget), 0.0), Report(Unary(n - 1), "node", "t", budget, 0.0));
    }
  }

  lemma NothingOverdrawn(budget: real)
    requires budget > 0.0
    ensures Overdrawn(Run(PoolPolicy(budget), RunByRun(0, budget)), 0, budget)
  {
    assert Run(PoolPolicy(budget), []) == START;
  }

  /** In hard mode, one run after the other and each at its estimate, a tenant spends any multiple
      of its budget: every run is admitted, none exceeds the limit, the pool does. */
  lemma PoolCanBeOverdrawn(n: nat, budget: real)
    requires budget > 0.0
    ensures
      var p, e := PoolPolicy(budget), Run(PoolPolicy(budget), RunByRun(n, budget));
      && WellTimed(RunByRun(n, budget)) && RunLimit(p, "t") == Some(budget) && p.budget.mode.Hard?
      && Spend(e.ledger.byTenant, "t") == Times(n, budget)
      && (forall k | k in e.ledger.byRun :: Spend(e.ledger.byRun, k) == budget)
      && AdmitStep(p, e, SoleNode(n, budget), 0.0).1.outcome.Admit?
  {
    hide AdmitStep, Run, RunByRun, Times;
    RunByRunOverdraws(n, budget);
    NextRunIsAdmitted(Run(PoolPolicy(budget), RunByRun(n, budget)), n, budget);
  }

  // ---- What a tenant can spend at most ------------------------------------------------------------

  predicate ReportsAny(ev: Event, runs: set<string>) { ev.Report? && ev.runId in runs }

  /** What the reports of these runs add up to. */
  ghost function SpentInRuns(evs: seq<Event>, runs: set<string>): real {
    if evs == [] then 0.0
    else
      var ev := evs[|evs| - 1];
      SpentInRuns(evs[..|evs| - 1], runs) + (if ReportsAny(ev, runs) && ev.usd > 0.0 then ev.usd else 0.0)
  }

  lemma {:induction false} OneRunsSpend(p: SchedulerConfig, evs: seq<Event>, runId: string)
    ensures RunSpend(p, evs, runId) == SpentInRuns(evs, {runId})
  {
    if evs != [] {
      hide Run;
      OneRunsSpend(p, evs[..|evs| - 1], runId);
      SpendFollows(p, evs, runId);
    }
  }

  lemma {:induction false} SpentInNoRun(evs: seq<Event>)
    ensures SpentInRuns(evs, {}) == 0.0
  {
    if evs != [] { SpentInNoRun(evs[..|evs| - 1]); }
  }

  lemma {:induction false} SpentInOneMore(evs: seq<Event>, runs: set<string>, runId: string)
    requires runId in runs
    ensures SpentInRuns(evs, runs) == SpentInRuns(evs, runs - {runId}) + SpentInRuns(evs, {runId})
  {
    if evs != [] { SpentInOneMore(evs[..|evs| - 1], runs, runId); }
  }

  /** Every report billed to the tenant is of one of the runs. */
  predicate BilledTo(evs: seq<Event>, tenant: string, runs: set<string>) {
    forall i | 0 <= i < |evs| && evs[i].Report? && evs[i].tenant == tenant :: evs[i].runId in runs
  }

  lemma PoolFollows(p: SchedulerConfig, e: EngineState, ev: Event, tenant: string)
    ensures Spend(Next(p, e, ev).ledger.byTenant, tenant)
         == Spend(e.ledger.byTenant, tenant) + (if ev.Report? && ev.tenant == tenant && ev.usd > 0.0 then ev.usd else 0.0)
  {
    if ev.Ask? { RestAfter(p, e, ev.req, ev.at); }
    hide Govern, Counted, Swept, Release;
  }

  lemma {:induction false} PoolIsWithinItsRuns(p: SchedulerConfig, evs: seq<Event>, tenant: string, runs: set<string>)
    requires BilledTo(evs, tenant, runs)
    ensures Spend(Run(p, evs).ledger.byTenant, tenant) <= SpentInRuns(evs, runs)
  {
    if evs != [] {
      hide Next, Spend;
      var n := |evs| - 1;
      assert BilledTo(evs[..n], tenant, runs);
      PoolIsWithinItsRuns(p, evs[..n], tenant, runs);
      PoolFollows(p, Run(p, evs[..n]), evs[n], tenant);
    } else {
      assert Run(p, evs) == START;
    }
  }

  /** Each of the runs keeps its side of the bargain, on an account of its own. */
  ghost predicate AllDisciplined(
    p: SchedulerConfig, evs: seq<Event>, runs: set<string>, accounts: map<string, Account>, k: nat, most: real, limit: real) {
    forall r | r in runs :: r in accounts && Disciplined(p, evs, r, accounts[r], k, most) && HardLimit(p, evs, r, limit)
  }

  lemma {:induction false} RunsAreBounded(
    p: SchedulerConfig, evs: seq<Event>, runs: set<string>, accounts: map<string, Account>, k: nat, most: real, limit: real)
    requires AllDisciplined(p, evs, runs, accounts, k, most, limit) && k >= 1 && 0.0 <= most && 0.0 <= limit
    ensures SpentInRuns(evs, runs) <= Times(|runs|, limit + Times(k - 1, most))
    decreases |runs|
  {
    hide SpentInRuns, Disciplined, HardLimit, RunSpend, Times;
    var each := limit + Times(k - 1, most);
    TimesGrows(k - 1, most);
    TimesGrows(|runs|, each);
    if runs == {} {
      SpentInNoRun(evs);
    } else {
      var r :| r in runs;
      SpentInOneMore(evs, runs, r);
      OneRunsSpend(p, evs, r);
      RunIsBounded(p, evs, r, accounts[r], k, most, limit);
      RunsAreBounded(p, evs, runs - {r}, accounts, k, most, limit);
    }
  }

  lemma RunIsBounded(p: SchedulerConfig, evs: seq<Event>, runId: string, acc: Account, k: nat, most: real, limit: real)
    requires Disciplined(p, evs, runId, acc, k, most) && HardLimit(p, evs, runId, limit)
    requires k >= 1 && 0.0 <= most && 0.0 <= limit
    ensures RunSpend(p, evs, runId) <= limit + Times(k - 1, most)
  {
    hide Disciplined, HardLimit, RunSpend;
    OverspendIsBounded(p, evs, runId, acc, k, most, limit);
  }

  /** The pool does have a bound, one that grows with the runs: over `m` runs a tenant spends at
      most `m` times what one run can. `PoolCanBeOverdrawn` reaches it. */
  lemma PoolIsBoundedByItsRuns(
    p: SchedulerConfig, evs: seq<Event>, tenant: string, runs: set<string>, accounts: map<string, Account>, k: nat, most: real, limit: real)
    requires BilledTo(evs, tenant, runs) && AllDisciplined(p, evs, runs, accounts, k, most, limit)
    requires k >= 1 && 0.0 <= most && 0.0 <= limit
    ensures Spend(Run(p, evs).ledger.byTenant, tenant) <= Times(|runs|, limit + Times(k - 1, most))
  {
    hide Run, Times, SpentInRuns, AllDisciplined, BilledTo;
    PoolIsWithinItsRuns(p, evs, tenant, runs);
    RunsAreBounded(p, evs, runs, accounts, k, most, limit);
  }
}
