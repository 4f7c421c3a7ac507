/** Provider quotas and run budgets over whole runs of the engine. */
module QuotaRuns {
  import opened Common
  import opened RateLimit
  import opened Backlog
  import opened Budget
  import opened Policy
  import opened Engine
  import opened AdmissionCalls
  import opened EngineRuns

  // ---- Provider buckets ----------------------------------------------------------------

  predicate Draws(p: SchedulerConfig, ev: Event, key: string) {
    ev.Ask? && BucketOf(p, ev.req).Some? && BucketOf(p, ev.req).value.0 == key
  }

  /** No faster and no deeper than `top`. */
  predicate Within(cfg: RateLimitConfig, top: RateLimitConfig) { cfg.rps <= top.rps && cfg.burst <= top.burst }

  /** From event `i` on every rule the bucket is used under lies within `top`. There can be
      several, since the key does not say which rule matched (see `ProviderRules.TwoRulesOneBucket`). */
  predicate RulesWithin(p: SchedulerConfig, evs: seq<Event>, i: nat, key: string, top: RateLimitConfig) {
    forall j | i <= j < |evs| :: Draws(p, evs[j], key) ==> Within(BucketOf(p, evs[j].req).value.1, top)
  }

  function TokensOf(ev: Event): real { if ev.Ask? then ev.req.tokens else 0.0 }

  /** Tokens of the bucket spent by admissions since event `i`. */
  ghost function Spent(p: SchedulerConfig, evs: seq<Event>, i: nat, key: string): real
    requires i <= |evs|
  {
    if i == |evs| then 0.0
    else
      var n := |evs| - 1;
      Spent(p, evs[..n], i, key) + (if AdmittedAt(p, evs, n) && Draws(p, evs[n], key) then TokensOf(evs[n]) else 0.0)
  }

  /** One event spends what it spends and lets at most the refill of `top` flow in. */
  lemma NextKeepsAccount(p: SchedulerConfig, e: EngineState, ev: Event, key: string, top: RateLimitConfig, later: real)
    requires Sane(e, ev.at) && ev.at <= later
    requires Draws(p, ev, key) ==> Within(BucketOf(p, ev.req).value.1, top)
    ensures Available(Lookup(Next(p, e, ev).buckets, key), top, later)
              + (if Admits(p, e, ev) && Draws(p, ev, key) then TokensOf(ev) else 0.0)
         <= Available(Lookup(e.buckets, key), top, ev.at) + Inflow(top, later - ev.at)
  {
    hide Govern, BucketOf, Available, Inflow, Counted, WithSpend, Swept, Release, ActiveOn, LimiterStep, Within;
    RefillIsBounded(Lookup(e.buckets, key), top, ev.at, later);
    if ev.Ask? {
      BucketsAfter(p, e, ev.req, ev.at);
      if Draws(p, ev, key) {
        DrawKeepsAccount(e.buckets, key, BucketOf(p, ev.req).value.1, top, ev.req.tokens, ev.at, later);
      } else {
        ElsewhereUntouched(p, e, ev.req, ev.at, key);
      }
    }
  }

  /** A slower rule lets less flow in over any span. */
  lemma InflowWithin(cfg: RateLimitConfig, top: RateLimitConfig, span: real)
    requires Within(cfg, top) && span >= 0.0
    ensures Inflow(cfg, span) <= Inflow(top, span)
  {}

  /** A draw under a rule within `top`, seen through `top`. */
  lemma DrawKeepsAccount(
    buckets: map<string, Bucket>, key: string, cfg: RateLimitConfig, top: RateLimitConfig, want: real, now: real, later: real)
    requires Sound(Lookup(buckets, key), now) && now <= later && Within(cfg, top)
    ensures
      var (after, d) := LimiterStep(buckets, key, cfg, want, now);
      Available(Lookup(after, key), top, later) + (if d.admitted then want else 0.0)
        <= Available(Lookup(buckets, key), top, now) + Inflow(top, later - now)
  {
    hide Inflow;
    var m := Lookup(buckets, key);
    InflowGrows(cfg, 0.0);
    InflowGrows(top, 0.0);
    if m.Some? {
      InflowWithin(cfg, top, now - m.value.ts);
    }
  }

  lemma ElsewhereUntouched(p: SchedulerConfig, e: EngineState, req: AdmissionRequest, now: real, key: string)
    requires BucketOf(p, req).Some? ==> BucketOf(p, req).value.0 != key
    ensures Lookup(LimiterSays(p, e, req, now).0, key) == Lookup(e.buckets, key)
  {
    hide BucketOf, RefillAndTake;
  }

  lemma {:induction false} AccountHolds(p: SchedulerConfig, evs: seq<Event>, i: nat, key: string, top: RateLimitConfig, later: real)
    requires i < |evs| && WellTimed(evs) && evs[|evs| - 1].at <= later && RulesWithin(p, evs, i, key, top)
    ensures Available(Lookup(Run(p, evs).buckets, key), top, later) + Spent(p, evs, i, key)
         <= Available(Lookup(Run(p, evs[..i]).buckets, key), top, evs[i].at) + Inflow(top, later - evs[i].at)
    decreases |evs|
  {
    hide Next, Admits, Available, Inflow, Draws, TokensOf, BucketOf, Sane, Within;
    var n := |evs| - 1;
    Extend(p, evs);
    assert WellTimed(evs[..n]);
    ReachableIsSane(p, evs[..n], evs[n].at);
    NextKeepsAccount(p, Run(p, evs[..n]), evs[n], key, top, later);
    if i < n {
      AccountHolds(p, evs[..n], i, key, top, evs[n].at);
      assert evs[..n][..i] == evs[..i];
      InflowAdds(top, evs[i].at, evs[n].at, later);
    } else {
      assert Spent(p, evs[..n], i, key) == 0.0;
    }
  }

  /** Whatever the other governors do in between, and whichever rules reach the bucket, the
      admissions of any window of a run draw at most the burst plus the refill of a rule that
      none of them exceeds. */
  lemma EngineRespectsQuota(p: SchedulerConfig, evs: seq<Event>, i: nat, key: string, top: RateLimitConfig)
    requires i < |evs| && WellTimed(evs) && RulesWithin(p, evs, i, key, top)
    ensures Spent(p, evs, i, key) <= top.burst + Inflow(top, evs[|evs| - 1].at - evs[i].at)
  {
    hide Run, Inflow, RefillAndTake, Spent, WellTimed, Sane, Available, RulesWithin;
    var end := evs[|evs| - 1].at;
    AccountHolds(p, evs, i, key, top, end);
    WellTimedPrefix(evs, i);
    ReachableLevel(p, evs, key, top, end);
    ReachableLevel(p, evs[..i], key, top, evs[i].at);
  }

  lemma WellTimedPrefix(evs: seq<Event>, i: nat)
    requires WellTimed(evs) && i < |evs|
    ensures WellTimed(evs[..i])
    ensures i > 0 ==> evs[..i][i - 1].at <= evs[i].at
  {}

  lemma ReachableLevel(p: SchedulerConfig, evs: seq<Event>, key: string, cfg: RateLimitConfig, now: real)
    requires WellTimed(evs) && (evs != [] ==> evs[|evs| - 1].at <= now)
    ensures 0.0 <= Available(Lookup(Run(p, evs).buckets, key), cfg, now) <= cfg.burst
  {
    hide Run, Inflow, RefillAndTake, WellTimed;
    ReachableIsSane(p, evs, now);
    PollIsSound(Lookup(Run(p, evs).buckets, key), cfg, 0.0, now);
  }

  // ---- Run budgets -----------------------------------------------------------------------

  predicate AsksIn(ev: Event, runId: string) { ev.Ask? && ev.req.runId == runId }

  predicate ReportsIn(ev: Event, runId: string) { ev.Report? && ev.runId == runId }

  /** How the reports of a run settle its admissions, both by position: `settles` gives the
      admission a report stands for, `lost` the admissions that never report, such as those of
      attempts that died with their worker. */
  datatype Account = Account(settles: map<nat, nat>, lost: set<nat>)

  /** The admissions of the run that are to report and have not, with what they were estimated at. */
  ghost function Outstanding(p: SchedulerConfig, evs: seq<Event>, runId: string, acc: Account): (promised: map<nat, real>)
    ensures forall i | i in promised :: i < |evs|
  {
    if evs == [] then map[]
    else
      var n := |evs| - 1;
      var before := Outstanding(p, evs[..n], runId, acc);
      if AsksIn(evs[n], runId) && AdmittedAt(p, evs, n) && n !in acc.lost then before[n := Estimate(evs[n].req.estimatedUsd)]
      else if ReportsIn(evs[n], runId) && n in acc.settles then before - {acc.settles[n]}
      else before
  }

  /** The caller's side of the bargain: each report stands for one outstanding admission and costs
      at most its estimate, no estimate exceeds `most`, and at most `k` admissions that are to
      report are outstanding at a time. A node may be admitted again whenever it likes, and an
      attempt that was given up may still report. */
  ghost predicate Disciplined(p: SchedulerConfig, evs: seq<Event>, runId: string, acc: Account, k: nat, most: real) {
    forall n | 0 <= n < |evs| :: DisciplinedAt(p, evs, runId, acc, k, most, n)
  }

  ghost predicate DisciplinedAt(p: SchedulerConfig, evs: seq<Event>, runId: string, acc: Account, k: nat, most: real, n: nat)
    requires n < |evs|
  {
    var before := Outstanding(p, evs[..n], runId, acc);
    && (AsksIn(evs[n], runId) && AdmittedAt(p, evs, n) && n !in acc.lost ==>
          |before| < k && Estimate(evs[n].req.estimatedUsd) <= most)
    && (ReportsIn(evs[n], runId) ==> n in acc.settles && acc.settles[n] in before && evs[n].usd <= before[acc.settles[n]])
  }

  lemma DisciplinedPrefix(p: SchedulerConfig, evs: seq<Event>, runId: string, acc: Account, k: nat, most: real, m: nat)
    requires Disciplined(p, evs, runId, acc, k, most) && m <= |evs|
    ensures Disciplined(p, evs[..m], runId, acc, k, most)
  {
    hide AdmittedAt, Outstanding, Estimate;
    forall n | 0 <= n < m ensures DisciplinedAt(p, evs[..m], runId, acc, k, most, n) {
      AdmittedInPrefix(p, evs, n, m);
      assert evs[..m][..n] == evs[..n];
      assert DisciplinedAt(p, evs, runId, acc, k, most, n);
    }
  }

  /** In hard mode every request of the run is checked against a positive limit of at most `limit`. */
  predicate HardLimit(p: SchedulerConfig, evs: seq<Event>, runId: string, limit: real) {
    && p.budget.mode.Hard?
    && forall n | 0 <= n < |evs| :: AsksIn(evs[n], runId) ==>
         RunLimit(p, evs[n].req.tenant).Some? && 0.0 < RunLimit(p, evs[n].req.tenant).value <= limit
  }

  ghost function RunSpend(p: SchedulerConfig, evs: seq<Event>, runId: string): real {
    Spend(Run(p, evs).ledger.byRun, runId)
  }

  lemma LedgerFollows(p: SchedulerConfig, e: EngineState, ev: Event, runId: string)
    ensures Spend(Next(p, e, ev).ledger.byRun, runId)
         == Spend(e.ledger.byRun, runId) + (if ReportsIn(ev, runId) && ev.usd > 0.0 then ev.usd else 0.0)
  {
    if ev.Ask? { RestAfter(p, e, ev.req, ev.at); }
    hide Govern, Counted, Swept, Release;
  }

  lemma AdmissionFitsTheLimit(p: SchedulerConfig, e: EngineState, ev: Event, runId: string, limit: real)
    requires AsksIn(ev, runId) && Admits(p, e, ev) && p.budget.mode.Hard?
    requires RunLimit(p, ev.req.tenant).Some? && 0.0 < RunLimit(p, ev.req.tenant).value <= limit
    ensures Spend(e.ledger.byRun, runId) + Estimate(ev.req.estimatedUsd) <= limit
  {
    hide Govern, Counted, RunLimit, QueueSays;
    RestAfter(p, e, ev.req, ev.at);
  }

  /** Spend plus everything still promised: the potential that an admission may raise to the
      limit plus the other promises, and a report can only lower. */
  lemma {:induction false} PromisesAreBounded(p: SchedulerConfig, evs: seq<Event>, runId: string, acc: Account, k: nat, most: real, limit: real)
    requires Disciplined(p, evs, runId, acc, k, most) && HardLimit(p, evs, runId, limit)
    requires k >= 1 && 0.0 <= most && 0.0 <= limit
    ensures var promised := Outstanding(p, evs, runId, acc);
            && |promised| <= k
            && Priced(promised, most)
            && RunSpend(p, evs, runId) + Sum(promised) <= limit + Times(k - 1, most)
  {
    hide Outstanding, RunSpend, Times, Estimate, Disciplined, HardLimit, Sum, AdmittedAt, Priced;
    TimesGrows(k - 1, most);
    if evs == [] {
      NothingSpent(p, runId, acc, most);
    } else {
      var n := |evs| - 1;
      DisciplinedPrefix(p, evs, runId, acc, k, most, n);
      HardLimitPrefix(p, evs, runId, limit, n);
      PromisesAreBounded(p, evs[..n], runId, acc, k, most, limit);
      PromisesStep(p, evs, runId, acc, k, most, limit);
    }
  }

  lemma PromisesStep(p: SchedulerConfig, evs: seq<Event>, runId: string, acc: Account, k: nat, most: real, limit: real)
    requires evs != [] && Disciplined(p, evs, runId, acc, k, most) && HardLimit(p, evs, runId, limit)
    requires k >= 1 && 0.0 <= most
    requires
      var before := Outstanding(p, evs[..|evs| - 1], runId, acc);
      && |before| <= k && Priced(before, most)
      && RunSpend(p, evs[..|evs| - 1], runId) + Sum(before) <= limit + Times(k - 1, most)
    ensures
      var promised := Outstanding(p, evs, runId, acc);
      && |promised| <= k && Priced(promised, most)
      && RunSpend(p, evs, runId) + Sum(promised) <= limit + Times(k - 1, most)
  {
    hide Outstanding, RunSpend, Times, Estimate, HardLimit, Sum, AdmittedAt, Priced;
    var n := |evs| - 1;
    var ev, before := evs[n], Outstanding(p, evs[..n], runId, acc);
    SpendFollows(p, evs, runId);
    PromisesFollow(p, evs, runId, acc);
    assert DisciplinedAt(p, evs, runId, acc, k, most, n);
    if AsksIn(ev, runId) && AdmittedAt(p, evs, n) && n !in acc.lost {
      AdmittedFitsTheLimit(p, evs, runId, limit);
      EstimateIsNonnegative(ev.req.estimatedUsd);
      PromiseMade(before, n, Estimate(ev.req.estimatedUsd), k, most);
    } else if ReportsIn(ev, runId) {
      PromiseKept(before, acc.settles[n], most);
    }
  }

  lemma PromiseMade(before: map<nat, real>, admission: nat, estimate: real, k: nat, most: real)
    requires admission !in before && |before| < k && 0.0 <= estimate <= most && Priced(before, most)
    ensures |before[admission := estimate]| == |before| + 1 && Priced(before[admission := estimate], most)
    ensures Sum(before[admission := estimate]) == Sum(before) + estimate <= Times(k - 1, most) + estimate
  {
    hide Sum, Times, Priced;
    PricedSum(before, most, k - 1);
    PricedMore(before, admission, estimate, most);
    SumAdd(before, admission, estimate);
  }

  lemma PricedSum(promised: map<nat, real>, most: real, n: nat)
    requires Priced(promised, most) && |promised| <= n && 0.0 <= most
    ensures 0.0 <= Sum(promised) <= Times(n, most)
  {
    hide Sum, Times;
    SumBounds(promised, most, n);
  }

  lemma PricedMore(promised: map<nat, real>, admission: nat, estimate: real, most: real)
    requires Priced(promised, most) && admission !in promised && 0.0 <= estimate <= most
    ensures Priced(promised[admission := estimate], most) && |promised[admission := estimate]| == |promised| + 1
  {
    assert promised[admission := estimate].Keys == promised.Keys + {admission};
  }

  lemma PromiseKept(before: map<nat, real>, admission: nat, most: real)
    requires admission in before && Priced(before, most)
    ensures |before - {admission}| == |before| - 1 && Priced(before - {admission}, most) && before[admission] >= 0.0
    ensures Sum(before) == before[admission] + Sum(before - {admission})
  {
    hide Sum;
    SumWithout(before, admission);
    SizeWithout(before, admission);
  }

  lemma NothingSpent(p: SchedulerConfig, runId: string, acc: Account, most: real)
    ensures Priced(Outstanding(p, [], runId, acc), most)
    ensures RunSpend(p, [], runId) == 0.0 && Outstanding(p, [], runId, acc) == map[] && Sum(Outstanding(p, [], runId, acc)) == 0.0
  {}

  predicate Priced(promised: map<nat, real>, most: real) {
    forall admission | admission in promised :: 0.0 <= promised[admission] <= most
  }

  lemma HardLimitPrefix(p: SchedulerConfig, evs: seq<Event>, runId: string, limit: real, n: nat)
    requires HardLimit(p, evs, runId, limit) && n <= |evs|
    ensures HardLimit(p, evs[..n], runId, limit)
  {
    hide RunLimit;
  }

  lemma SpendFollows(p: SchedulerConfig, evs: seq<Event>, runId: string)
    requires evs != []
    ensures var ev := evs[|evs| - 1];
      RunSpend(p, evs, runId) == RunSpend(p, evs[..|evs| - 1], runId) + (if ReportsIn(ev, runId) && ev.usd > 0.0 then ev.usd else 0.0)
  {
    hide Next;
    LedgerFollows(p, Run(p, evs[..|evs| - 1]), evs[|evs| - 1], runId);
  }

  lemma AdmittedFitsTheLimit(p: SchedulerConfig, evs: seq<Event>, runId: string, limit: real)
    requires evs != [] && HardLimit(p, evs, runId, limit)
    ensures AsksIn(evs[|evs| - 1], runId) && AdmittedAt(p, evs, |evs| - 1) ==>
      RunSpend(p, evs[..|evs| - 1], runId) + Estimate(evs[|evs| - 1].req.estimatedUsd) <= limit
  {
    hide Run, Admits, RunLimit, Estimate;
    if AsksIn(evs[|evs| - 1], runId) && AdmittedAt(p, evs, |evs| - 1) {
      AdmissionFitsTheLimit(p, Run(p, evs[..|evs| - 1]), evs[|evs| - 1], runId, limit);
    }
  }

  lemma EstimateIsNonnegative(usd: real)
    ensures Estimate(usd) >= 0.0
  {}

  lemma PromisesFollow(p: SchedulerConfig, evs: seq<Event>, runId: string, acc: Account)
    requires evs != []
    ensures
      var ev, before := evs[|evs| - 1], Outstanding(p, evs[..|evs| - 1], runId, acc);
      Outstanding(p, evs, runId, acc) ==
        if AsksIn(ev, runId) && AdmittedAt(p, evs, |evs| - 1) && |evs| - 1 !in acc.lost then
          before[|evs| - 1 := Estimate(ev.req.estimatedUsd)]
        else if ReportsIn(ev, runId) && |evs| - 1 in acc.settles then before - {acc.settles[|evs| - 1]}
        else before
  {
    hide AdmittedAt, Estimate;
  }

  /** Bounded overspend: a run never spends more than its limit plus one estimate for each
      admission that can be unreported beside another. Run one admission at a time and it never
      spends more than its limit. */
  lemma OverspendIsBounded(p: SchedulerConfig, evs: seq<Event>, runId: string, acc: Account, k: nat, most: real, limit: real)
    requires Disciplined(p, evs, runId, acc, k, most) && HardLimit(p, evs, runId, limit)
    requires k >= 1 && 0.0 <= most && 0.0 <= limit
    ensures RunSpend(p, evs, runId) <= limit + (k - 1) as real * most
    ensures k == 1 ==> RunSpend(p, evs, runId) <= limit
  {
    hide RunSpend, Outstanding, Disciplined, HardLimit, Sum;
    PromisesAreBounded(p, evs, runId, acc, k, most, limit);
    assert Priced(Outstanding(p, evs, runId, acc), most);
    SumBounds(Outstanding(p, evs, runId, acc), most, k);
  }
}
