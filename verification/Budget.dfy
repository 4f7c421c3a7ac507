/** The spend ledger and the budget rule (services/scheduler/ancora_scheduler/budget.py). */
module Budget {
  import opened Common

  datatype Ledger = Ledger(byRun: map<string, real>, byTenant: map<string, real>)

  function Spend(m: map<string, real>, k: string): real { if k in m then m[k] else 0.0 }

  function WithSpend(l: Ledger, runId: string, tenant: string, usd: real): Ledger {
    if usd <= 0.0 then l
    else Ledger(l.byRun[runId := Spend(l.byRun, runId) + usd], l.byTenant[tenant := Spend(l.byTenant, tenant) + usd])
  }

  class BudgetLedger {
    var byRun: map<string, real>
    var byTenant: map<string, real>

    ghost function State(): Ledger
      reads this
    {
      Ledger(byRun, byTenant)
    }

    constructor ()
      ensures State() == Ledger(map[], map[])
    {
      byRun, byTenant := map[], map[];
    }

    method Record(runId: string, tenant: string, usd: real)
      modifies this
      ensures State() == WithSpend(old(State()), runId, tenant, usd)
    {
      if usd <= 0.0 {
        return;
      }
      byRun := byRun[runId := (if runId in byRun then byRun[runId] else 0.0) + usd];
      byTenant := byTenant[tenant := (if tenant in byTenant then byTenant[tenant] else 0.0) + usd];
    }

    method ForgetRun(runId: string)
      modifies this
      ensures byRun == old(byRun) - {runId} && byTenant == old(byTenant)
    {
      if runId in byRun {
        byRun := byRun - {runId};
      }
    }
  }

  datatype Mode = Off | Soft | Hard

  datatype Warning = Exceeded | Approaching

  datatype BudgetVerdict = BudgetVerdict(allowed: bool, warning: Option<Warning>)

  /** What a request is projected to cost at least: a negative estimate counts as nothing. */
  function Estimate(estimatedUsd: real): real { MaxR(estimatedUsd, 0.0) }

  function CheckBudget(spentUsd: real, estimatedUsd: real, limitUsd: Option<real>, mode: Mode, warnAt: real): BudgetVerdict {
    if mode.Off? || limitUsd.None? || limitUsd.value <= 0.0 then BudgetVerdict(true, None)
    else
      var projected := spentUsd + Estimate(estimatedUsd);
      if projected > limitUsd.value then
        if mode.Hard? then BudgetVerdict(false, None) else BudgetVerdict(true, Some(Exceeded))
      else if projected >= limitUsd.value * warnAt then BudgetVerdict(true, Some(Approaching))
      else BudgetVerdict(true, None)
  }
}
