/** A run that overspends its limit by as much as it can: attempts of one node, all admitted before
    the first of them reports. */
module Overspend {
  import opened Common
  import opened Backlog
  import opened Budget
  import opened Policy
  import opened Engine
  import opened EngineRuns
  import opened QuotaRuns
  import opened TenantPool

  /** A node asks `n` times before anything is reported, and then `m` of its attempts report. */
  function AllAtOnce(n: nat, m: nat, budget: real): (evs: seq<Event>)
    ensures |evs| == n + m
  {
    if m > 0 then AllAtOnce(n, m - 1, budget) + [Report(Unary(0), "node", "t", budget, 0.0)]
    else if n > 0 then AllAtOnce(n - 1, 0, budget) + [Ask(SoleNode(0, budget), 0.0)]
    else []
  }

  /** At most the node's own slot is held, and `m` reports have been billed to its run. */
  ghost predicate Billed(e: EngineState, m: nat, budget: real) {
    && e.inflight.slots.Keys <= {Token(Unary(0), "node")}
    && Spend(e.ledger.byRun, Unary(0)) == Times(m, budget)
  }

  lemma UnbilledIsAdmitted(e: EngineState, budget: real)
    requires budget > 0.0 && Billed(e, 0, budget)
    ensures
      var (next, d) := AdmitStep(PoolPolicy(budget), e, SoleNode(0, budget), 0.0);
      d.outcome.Admit? && Billed(next, 0, budget)
  {
    hide Tally, Bump, Holders, Unary, Token, Overdue;
    var p, token := PoolPolicy(budget), Token(Unary(0), "node");
    var holders := Holders(Swept(e.inflight, p.inflightTtlSeconds, 0.0).slots, "q");
    assert |holders| <= 1 by { FewHolders(Swept(e.inflight, p.inflightTtlSeconds, 0.0).slots, token); }
    hide Holders;
  }

  lemma FewHolders(slots: map<string, Slot>, token: string)
    requires slots.Keys <= {token}
    ensures |Holders(slots, "q")| <= 1
  {
    assert Holders(slots, "q") == {} || Holders(slots, "q") == {token};
  }

  lemma ReportIsBilled(e: EngineState, m: nat, budget: real)
    requires budget > 0.0 && Billed(e, m, budget)
    ensures Billed(CompleteStep(e, Unary(0), "node", "t", budget).0, m + 1, budget)
  {
    hide Times, Bump, Unary, Token;
    TimesGrows(m + 1, budget);
  }

  lemma RunOneMore(p: SchedulerConfig, evs: seq<Event>, ev: Event)
    ensures Run(p, evs + [ev]) == Next(p, Run(p, evs), ev)
  {
    hide Next;
    assert (evs + [ev])[..|evs|] == evs;
  }

  lemma {:induction false} AllAtOnceIsBilled(n: nat, m: nat, budget: real)
    requires budget > 0.0
    ensures Billed(Run(PoolPolicy(budget), AllAtOnce(n, m, budget)), m, budget)
  {
    hide Billed, AdmitStep, CompleteStep, PoolPolicy, SoleNode, Unary, Run;
    if m > 0 {
      AllAtOnceIsBilled(n, m - 1, budget);
      ReportIsBilled(Run(PoolPolicy(budget), AllAtOnce(n, m - 1, budget)), m - 1, budget);
      RunOneMore(PoolPolicy(budget), AllAtOnce(n, m - 1, budget), Report(Unary(0), "node", "t", budget, 0.0));
    } else if n > 0 {
      AllAtOnceIsBilled(n - 1, 0, budget);
      UnbilledIsAdmitted(Run(PoolPolicy(budget), AllAtOnce(n - 1, 0, budget)), budget);
      RunOneMore(PoolPolicy(budget), AllAtOnce(n - 1, 0, budget), Ask(SoleNode(0, budget), 0.0));
    } else {
      NothingBilled(budget);
    }
  }

  lemma NothingBilled(budget: real)
    requires budget > 0.0
    ensures Billed(Run(PoolPolicy(budget), []), 0, budget)
  {
    assert Run(PoolPolicy(budget), []) == START;
  }

  /** The report at position `k + i` stands for the admission at position `i`; none is lost. */
  function InTurn(k: nat): Account { Account(map i | i in Between(k, 2 * k) :: i - k, {}) }

  function Between(m: nat, n: nat): (s: set<nat>)
    ensures forall i :: i in s <==> m <= i < n
    ensures |s| == if m <= n then n - m else 0
    decreases n
  {
    if m >= n then {} else Between(m, n - 1) + {n - 1}
  }

  /** The admissions from `m` to below `n`, each estimated at `budget`. */
  function Promised(m: nat, n: nat, budget: real): (promised: map<nat, real>)
    ensures |promised| == if m <= n then n - m else 0
  {
    var promised := map i | i in Between(m, n) :: budget;
    assert promised.Keys == Between(m, n);
    promised
  }

  lemma {:induction false} AllAtOncePrefix(n: nat, m: nat, budget: real, i: nat)
    requires i <= n + m
    ensures AllAtOnce(n, m, budget)[..i] == if i <= n then AllAtOnce(i, 0, budget) else AllAtOnce(n, i - n, budget)
  {
    hide SoleNode, Unary;
    if i < n + m {
      if m > 0 { AllAtOncePrefix(n, m - 1, budget, i); } else { AllAtOncePrefix(n - 1, 0, budget, i); }
    }
  }

  lemma LastEvent(n: nat, m: nat, budget: real)
    requires n + m > 0
    ensures
      var evs := AllAtOnce(n, m, budget);
      if m > 0 then evs[n + m - 1] == Report(Unary(0), "node", "t", budget, 0.0) && evs[..n + m - 1] == AllAtOnce(n, m - 1, budget)
      else evs[n - 1] == Ask(SoleNode(0, budget), 0.0) && evs[..n - 1] == AllAtOnce(n - 1, 0, budget)
  {
    hide SoleNode, Unary;
  }

  lemma AskedIsAdmitted(n: nat, budget: real)
    requires budget > 0.0 && n > 0
    ensures AdmittedAt(PoolPolicy(budget), AllAtOnce(n, 0, budget), n - 1)
  {
    hide AdmitStep, PoolPolicy, SoleNode, Unary, Run, AllAtOnce;
    LastEvent(n, 0, budget);
    AllAtOnceIsBilled(n - 1, 0, budget);
    UnbilledIsAdmitted(Run(PoolPolicy(budget), AllAtOnce(n - 1, 0, budget)), budget);
  }

  /** The admissions from `m` on are outstanding after `n` requests and `m` reports. */
  lemma {:induction false} AllAtOncePromises(k: nat, n: nat, m: nat, budget: real)
    requires budget > 0.0 && m <= n <= k && (m > 0 ==> n == k)
    ensures Outstanding(PoolPolicy(budget), AllAtOnce(n, m, budget), Unary(0), InTurn(k)) == Promised(m, n, budget)
  {
    hide AdmittedAt, PoolPolicy, Unary, AllAtOnce, Outstanding, Promised, InTurn;
    var p, evs, acc := PoolPolicy(budget), AllAtOnce(n, m, budget), InTurn(k);
    if n + m == 0 {
      NothingPromised(p, evs, Unary(0), acc, budget);
    } else {
      LastEvent(n, m, budget);
      PromisesFollow(p, evs, Unary(0), acc);
      if m > 0 {
        AllAtOncePromises(k, n, m - 1, budget);
        SettledInTurn(k, k + m - 1);
        OnePromiseLess(m, n, budget);
      } else {
        AskedIsAdmitted(n, budget);
        NoneIsLost(k);
        AllAtOncePromises(k, n - 1, 0, budget);
        OnePromiseMore(n, budget);
      }
    }
  }

  lemma NoneIsLost(k: nat)
    ensures InTurn(k).lost == {}
  {}

  lemma OnePromiseMore(n: nat, budget: real)
    requires n > 0
    ensures Promised(0, n - 1, budget)[n - 1 := budget] == Promised(0, n, budget)
  {}

  lemma OnePromiseLess(m: nat, n: nat, budget: real)
    requires 0 < m <= n
    ensures m - 1 in Promised(m - 1, n, budget) && Promised(m - 1, n, budget)[m - 1] == budget
    ensures Promised(m - 1, n, budget) - {m - 1} == Promised(m, n, budget)
  {}

  lemma SettledInTurn(k: nat, i: nat)
    requires k <= i < 2 * k
    ensures i in InTurn(k).settles && InTurn(k).settles[i] == i - k && InTurn(k).lost == {}
  {}

  lemma NothingPromised(p: SchedulerConfig, evs: seq<Event>, runId: string, acc: Account, budget: real)
    requires evs == []
    ensures Outstanding(p, evs, runId, acc) == Promised(0, 0, budget)
  {}

  lemma AllAtOnceIsDisciplined(k: nat, budget: real, i: nat)
    requires budget > 0.0 && i < 2 * k
    ensures DisciplinedAt(PoolPolicy(budget), AllAtOnce(k, k, budget), Unary(0), InTurn(k), k, budget, i)
  {
    hide AdmittedAt, PoolPolicy, Unary, AllAtOnce, Outstanding, Promised, InTurn;
    var n, m := if i < k then i else k, if i < k then 0 else i - k;
    AllAtOncePrefix(k, k, budget, i);
    AllAtOncePrefix(k, k, budget, i + 1);
    AllAtOncePromises(k, n, m, budget);
    if i < k {
      LastEvent(i + 1, 0, budget);
    } else {
      LastEvent(k, i + 1 - k, budget);
      SettledInTurn(k, i);
      OnePromiseLess(i - k + 1, k, budget);
    }
    assert AllAtOnce(k, k, budget)[i] == AllAtOnce(k, k, budget)[..i + 1][i];
  }

  /** `QuotaRuns.OverspendIsBounded` is reached: with `k` admissions outstanding at a time, each estimated at
      the whole limit and costing just that, a run spends the limit plus `k - 1` estimates. */
  lemma OverspendIsReached(k: nat, budget: real)
    requires budget > 0.0 && k > 0
    ensures
      var p, evs, runId := PoolPolicy(budget), AllAtOnce(k, k, budget), Unary(0);
      && Disciplined(p, evs, runId, InTurn(k), k, budget) && HardLimit(p, evs, runId, budget)
      && RunSpend(p, evs, runId) == budget + Times(k - 1, budget)
  {
    AllAtOnceIsBilled(k, k, budget);
    forall i | 0 <= i < |AllAtOnce(k, k, budget)|
      ensures DisciplinedAt(PoolPolicy(budget), AllAtOnce(k, k, budget), Unary(0), InTurn(k), k, budget, i)
    {
      AllAtOnceIsDisciplined(k, budget, i);
    }
    AllAtOnceIsLimited(k, k, budget);
    hide PoolPolicy, Unary, Run, AllAtOnce, Times, DisciplinedAt, HardLimit;
    TimesGrows(k, budget);
  }

  lemma {:induction false} AllAtOnceIsLimited(n: nat, m: nat, budget: real)
    requires budget > 0.0
    ensures HardLimit(PoolPolicy(budget), AllAtOnce(n, m, budget), Unary(0), budget)
  {
    hide Unary;
    if m > 0 { AllAtOnceIsLimited(n, m - 1, budget); } else if n > 0 { AllAtOnceIsLimited(n - 1, 0, budget); }
  }
}
