/** Weighted fair queuing by virtual time, and the priority lane counters
    (services/scheduler/ancora_scheduler/fairness.py). */
module Fairness {
  import opened Common

  datatype Tenant = Tenant(virtualTime: real, lastSeen: real)

  /** The tenants active on one queue. */
  type Contenders = map<string, Tenant>

  datatype FairDecision = FairDecision(
    admitted: bool, retryAfter: real, virtualTime: real, minVirtualTime: real, contenders: nat)

  /** The reply to a nonpositive weight is an exception that touches nothing. */
  datatype FairResult = BadWeight | Decided(decision: FairDecision)

  function On(queues: map<string, Contenders>, queue: string): Contenders {
    if queue in queues then queues[queue] else map[]
  }

  predicate Stale(s: Tenant, idle: real, now: real) { now - s.lastSeen > idle }

  function Prune(ts: Contenders, idle: real, now: real): Contenders {
    map t | t in ts && !Stale(ts[t], idle, now) :: ts[t]
  }

  /** `m` is the slowest active clock, 0 when nobody is active. */
  ghost predicate IsSlowest(ts: Contenders, m: real) {
    if ts == map[] then m == 0.0
    else (exists t | t in ts :: ts[t].virtualTime == m) && forall t | t in ts :: m <= ts[t].virtualTime
  }

  ghost function Slowest(ts: Contenders): (m: real)
    ensures IsSlowest(ts, m)
  {
    SlowestExists(ts);
    var m :| IsSlowest(ts, m);
    m
  }

  lemma {:induction false} SlowestExists(ts: Contenders)
    ensures exists m :: IsSlowest(ts, m)
    decreases |ts|
  {
    if ts == map[] {
      assert IsSlowest(ts, 0.0);
    } else {
      var t :| t in ts;
      var rest := ts - {t};
      SlowestExists(rest);
      var m :| IsSlowest(rest, m);
      var least := if rest == map[] then ts[t].virtualTime else MinR(m, ts[t].virtualTime);
      assert forall u | u in ts :: u == t || (u in rest && rest[u] == ts[u]);
      assert IsSlowest(ts, least);
    }
  }

  /** The clock `tenant` competes with: its own, or the front of the line if it is new. */
  ghost function ClockOf(ts: Contenders, tenant: string): real {
    if tenant in ts then ts[tenant].virtualTime else Slowest(ts)
  }

  function Step(weight: real, cost: real): real
    requires weight > 0.0
  {
    cost / weight
  }

  /** The verdict for a tenant among already pruned contenders. */
  ghost predicate MayPass(active: Contenders, tenant: string, step: real) {
    |active.Keys + {tenant}| <= 1 || ClockOf(active, tenant) <= Slowest(active) + step
  }

  /** The contenders after `tenant` asked: everyone else as before, itself seen now and,
      if it passed, its clock advanced by one step. */
  ghost function Asked(active: Contenders, tenant: string, step: real, now: real): Contenders {
    var clock := ClockOf(active, tenant);
    active[tenant := Tenant(if MayPass(active, tenant, step) then clock + step else clock, now)]
  }

  ghost function FairStep(
    queues: map<string, Contenders>, idle: real, defer: real,
    queue: string, tenant: string, weight: real, cost: real, now: real)
    : (map<string, Contenders>, FairDecision)
    requires weight > 0.0
  {
    var active := Prune(On(queues, queue), idle, now);
    var next := Asked(active, tenant, Step(weight, cost), now);
    var passed := MayPass(active, tenant, Step(weight, cost));
    (queues[queue := next],
     FairDecision(passed, if passed then 0.0 else defer, next[tenant].virtualTime, Slowest(active), |next.Keys|))
  }

  /** Give a charge back; a tenant that has gone is left alone. */
  function Refunded(queues: map<string, Contenders>, queue: string, tenant: string, weight: real, cost: real)
    : map<string, Contenders>
    requires weight > 0.0
  {
    if queue in queues && tenant in queues[queue] then
      var s := queues[queue][tenant];
      queues[queue := queues[queue][tenant :=
        s.(virtualTime := MaxR(0.0, s.virtualTime - Step(weight, cost)))]]
    else queues
  }

  class FairShare {
    const idleSeconds: real
    const deferSeconds: real
    var queues: map<string, Contenders>

    constructor (idleSeconds: real, deferSeconds: real)
      ensures this.idleSeconds == idleSeconds && this.deferSeconds == deferSeconds && queues == map[]
    {
      this.idleSeconds, this.deferSeconds := idleSeconds, deferSeconds;
      queues := map[];
    }

    /** Drops the idle tenants of a queue, one deletion at a time. */
    method Active(queue: string, now: real) returns (tenants: Contenders)
      modifies this
      ensures tenants == Prune(On(old(queues), queue), idleSeconds, now)
      ensures queues == old(queues)[queue := tenants]
    {
      tenants := On(queues, queue);
      ghost var all := tenants;
      var stale := set t | t in tenants && Stale(tenants[t], idleSeconds, now);
      while stale != {}
        invariant stale <= tenants.Keys <= all.Keys
        invariant forall t | t in tenants :: tenants[t] == all[t]
        invariant forall t | t in all :: t in tenants <==> t in stale || !Stale(all[t], idleSeconds, now)
        invariant forall t | t in stale :: Stale(all[t], idleSeconds, now)
        decreases stale
      {
        var t :| t in stale;
        tenants := tenants - {t};
        stale := stale - {t};
      }
      queues := queues[queue := tenants];
    }

    method MinClock(tenants: Contenders) returns (least: real)
      ensures least == Slowest(tenants)
    {
      least := 0.0;
      var todo, first := tenants.Keys, true;
      while todo != {}
        invariant todo <= tenants.Keys
        invariant first <==> todo == tenants.Keys
        invariant first ==> least == 0.0
        invariant !first ==> exists t | t in tenants.Keys - todo :: tenants[t].virtualTime == least
        invariant forall t | t in tenants.Keys - todo :: least <= tenants[t].virtualTime
        decreases todo
      {
        var t :| t in todo;
        if first || tenants[t].virtualTime < least {
          least := tenants[t].virtualTime;
        }
        todo, first := todo - {t}, false;
      }
      SlowestIsUnique(tenants, least, Slowest(tenants));
    }

    /** One request for a place on the queue; passing moves the tenant's clock on. */
    method Admit(queue: string, tenant: string, weight: real, cost: real, now: real) returns (r: FairResult)
      modifies this
      ensures weight <= 0.0 ==> r == BadWeight && queues == old(queues)
      ensures weight > 0.0 ==> r.Decided?
      ensures weight > 0.0 ==>
        (queues, r.decision) == FairStep(old(queues), idleSeconds, deferSeconds, queue, tenant, weight, cost, now)
    {
      hide Step, IsSlowest, Slowest, MayPass, Asked, Prune, Stale;
      if weight <= 0.0 {
        return BadWeight;
      }
      var tenants := Active(queue, now);
      ghost var active := tenants;
      AskedIs(active, tenant, Step(weight, cost), now);
      var minVt := MinClock(tenants);
      var state := if tenant in tenants then tenants[tenant] else Tenant(minVt, now);
      state := state.(lastSeen := now);
      tenants := tenants[tenant := state];
      assert tenants.Keys == active.Keys + {tenant};
      queues := queues[queue := tenants];
      var step := Step(weight, cost);
      var contended := |tenants.Keys| > 1;
      if contended && state.virtualTime > minVt + step {
        assert queues == old(queues)[queue := tenants];
        return Decided(FairDecision(false, deferSeconds, state.virtualTime, minVt, |tenants.Keys|));
      }
      state := state.(virtualTime := state.virtualTime + step);
      tenants := tenants[tenant := state];
      assert tenants == active[tenant := state];
      assert tenants.Keys == active.Keys + {tenant};
      queues := queues[queue := tenants];
      assert queues == old(queues)[queue := tenants];
      r := Decided(FairDecision(true, 0.0, state.virtualTime, minVt, |tenants.Keys|));
    }

    method Refund(queue: string, tenant: string, weight: real, cost: real)
      requires weight > 0.0
      modifies this
      ensures queues == Refunded(old(queues), queue, tenant, weight, cost)
    {
      if queue in queues {
        if tenant in queues[queue] {
          var state := queues[queue][tenant];
          state := state.(virtualTime := MaxR(0.0, state.virtualTime - cost / weight));
          queues := queues[queue := queues[queue][tenant := state]];
        }
      }
    }
  }

  /** Admissions per queue and priority lane. */
  class PriorityLanes {
    var counts: map<(string, int), nat>

    constructor ()
      ensures counts == map[]
    {
      counts := map[];
    }

    method Record(queue: string, priority: int)
      modifies this
      ensures counts == Bump(old(counts), (queue, priority))
    {
      var key := (queue, priority);
      counts := counts[key := (if key in counts then counts[key] else 0) + 1];
    }
  }

  lemma AskedIs(active: Contenders, tenant: string, step: real, now: real)
    ensures var clock := ClockOf(active, tenant);
      && (MayPass(active, tenant, step) <==> !(|active.Keys + {tenant}| > 1 && clock > Slowest(active) + step))
      && Asked(active, tenant, step, now)
           == active[tenant := Tenant(if MayPass(active, tenant, step) then clock + step else clock, now)]
  {
    hide Slowest, ClockOf;
  }

  /** A step is the cost shared out by weight: three times the weight, a third of the step. */
  lemma StepIsShare(weight: real, cost: real)
    requires weight > 0.0
    ensures Step(weight, cost) * weight == cost && Step(weight, cost) == cost / weight
  {}

  /** What passing adds to a clock and a refund takes off it, from the charge and the weight. */
  lemma ClockMovesByShare(queues: map<string, Contenders>, idle: real, defer: real, queue: string, tenant: string, weight: real, cost: real, now: real)
    requires weight > 0.0
    ensures
      var active, (next, d) := Prune(On(queues, queue), idle, now), FairStep(queues, idle, defer, queue, tenant, weight, cost, now);
      && next[queue][tenant].virtualTime == ClockOf(active, tenant) + (if d.admitted then cost / weight else 0.0)
      && next[queue][tenant].lastSeen == now && d.retryAfter == (if d.admitted then 0.0 else defer)
    ensures queue in queues && tenant in queues[queue] ==>
      var after := Refunded(queues, queue, tenant, weight, cost)[queue][tenant];
      && after.virtualTime == MaxR(0.0, queues[queue][tenant].virtualTime - cost / weight)
      && after.lastSeen == queues[queue][tenant].lastSeen
  {
    hide Prune, ClockOf, MayPass, Slowest;
  }

  /** And what the decision reports: the tenant's clock, the slowest one it was held against, and how
      many compete, the tenant included. */
  lemma DecisionReports(queues: map<string, Contenders>, idle: real, defer: real, queue: string, tenant: string, weight: real, cost: real, now: real)
    requires weight > 0.0
    ensures
      var active, (next, d) := Prune(On(queues, queue), idle, now), FairStep(queues, idle, defer, queue, tenant, weight, cost, now);
      && tenant in next[queue] && d.virtualTime == next[queue][tenant].virtualTime
      && IsSlowest(active, d.minVirtualTime) && d.contenders == |active.Keys + {tenant}|
  {
    var active := Prune(On(queues, queue), idle, now);
    hide Prune, MayPass, IsSlowest, Step, On, ClockOf;
    assert Asked(active, tenant, Step(weight, cost), now).Keys == active.Keys + {tenant};
  }

  // ---- The spread of the clocks --------------------------------------------------

  /** Every active clock is nonnegative and within `2 * top` of the slowest. */
  ghost predicate Spread(ts: Contenders, top: real) {
    forall t | t in ts :: 0.0 <= ts[t].virtualTime <= Slowest(ts) + 2.0 * top
  }

  lemma SlowestIsUnique(ts: Contenders, m: real, n: real)
    requires IsSlowest(ts, m) && IsSlowest(ts, n)
    ensures m == n
  {}

  lemma SlowestBelow(ts: Contenders, t: string)
    requires t in ts
    ensures Slowest(ts) <= ts[t].virtualTime
  {}

  /** The slowest clock never falls when somebody leaves, so leaving narrows the spread. */
  lemma PruneKeepsSpread(ts: Contenders, idle: real, now: real, top: real)
    requires Spread(ts, top) && 0.0 <= top
    ensures Spread(Prune(ts, idle, now), top)
  {
    var kept := Prune(ts, idle, now);
    if kept != map[] {
      var t :| t in kept && kept[t].virtualTime == Slowest(kept);
      SlowestBelow(ts, t);
    }
  }

  /** Asking, whether it passes or not, keeps the spread: a passing clock was within one
      step of the slowest, and a newcomer starts level with it. */
  lemma AskingKeepsSpread(active: Contenders, tenant: string, step: real, now: real, top: real)
    requires Spread(active, top) && 0.0 <= step
    requires MayPass(active, tenant, step) ==> step <= top
    requires 0.0 <= top
    ensures Spread(Asked(active, tenant, step, now), top)
    ensures active != map[] ==> Slowest(active) <= Slowest(Asked(active, tenant, step, now))
  {
    var next := Asked(active, tenant, step, now);
    var low := Slowest(active);
    var t :| t in next && next[t].virtualTime == Slowest(next);
    if active == map[] {
      assert next.Keys == {tenant};
    } else {
      assert 0.0 <= low by { var u :| u in active && active[u].virtualTime == low; }
      assert low <= ClockOf(active, tenant);
      assert low <= Slowest(next);
      if |active.Keys + {tenant}| <= 1 {
        OnlyOne(active, tenant);
        assert next.Keys == {tenant};
      }
    }
  }

  lemma OnlyOne(active: Contenders, tenant: string)
    requires active != map[] && |active.Keys + {tenant}| <= 1
    ensures active.Keys == {tenant}
  {
    var keys := active.Keys + {tenant};
    forall t | t in active ensures t == tenant {
      if t != tenant {
        assert {t, tenant} <= keys;
        SubsetSize({t, tenant}, keys);
      }
    }
    var t :| t in active;
  }

  lemma {:induction false} SubsetSize<T>(a: set<T>, b: set<T>)
    requires a <= b
    ensures |a| <= |b|
    decreases |a|
  {
    if a != {} {
      var x :| x in a;
      SubsetSize(a - {x}, b - {x});
    }
  }

  // ---- Fairness never stalls a queue ----------------------------------------------

  /** A tenant on the slowest clock passes, whatever it asks for. */
  lemma SlowestAlwaysPasses(active: Contenders, tenant: string, step: real)
    requires 0.0 <= step && tenant in active
    requires forall t | t in active :: active[tenant].virtualTime <= active[t].virtualTime
    ensures MayPass(active, tenant, step)
  {
    var t :| t in active && active[t].virtualTime == Slowest(active);
  }

  /** The exact condition of a deferral: real competition, and more than one of its own
      steps ahead of the slowest rival. */
  lemma DeferredIffAheadOfARival(active: Contenders, tenant: string, step: real)
    requires 0.0 <= step
    ensures !MayPass(active, tenant, step) <==>
      tenant in active && exists rival | rival in active && rival != tenant ::
        active[tenant].virtualTime > active[rival].virtualTime + step
  {
    if !MayPass(active, tenant, step) {
      assert active != map[] by { assert active == map[] ==> active.Keys + {tenant} == {tenant}; }
      var t :| t in active && active[t].virtualTime == Slowest(active);
      assert t != tenant && tenant in active;
    }
    if tenant in active {
      if rival :| rival in active && rival != tenant && active[tenant].virtualTime > active[rival].virtualTime + step {
        SlowestBelow(active, rival);
        if |active.Keys + {tenant}| <= 1 {
          assert rival in active.Keys;
          OnlyOne(active, tenant);
        }
      }
    }
  }
}
