/** A queue that one blocked tenant brings to a standstill. */
module StuckQueue {
  import opened Common
  import opened RateLimit
  import opened Fairness
  import opened Backlog
  import opened Budget
  import opened Policy
  import opened Engine
  import opened AdmissionCalls
  import opened EngineRuns
  import opened FairnessRuns

  /** Provider "x" gives one token at a time; fairness is on. */
  const STUCK_POLICY: SchedulerConfig := Document(
    map["x" := RateShape(1.0, 1.0)], map[], map[], FairnessConfig(true, 30.0, 0.25), BudgetConfig(Off, None, 0.8), 1, 900.0)

  /** Two tokens of "x" at once never fit. */
  const BLOCKED := AdmissionRequest("run-b", "node", "q", "b", 1, Some("x"), None, 2.0, 0.0, None)

  /** No provider is asked for anything. */
  const EAGER := AdmissionRequest("run-a", "node", "q", "a", 1, None, None, 1.0, 0.0, None)

  /** Tenant "b" asks once and "a" twice; from then on each asks once a second. */
  function Standstill(n: nat): (evs: seq<Event>)
    ensures |evs| == 3 + 2 * n
    ensures WellTimed(evs) && evs[|evs| - 1].at == n as real
  {
    if n == 0 then [Ask(BLOCKED, 0.0), Ask(EAGER, 0.0), Ask(EAGER, 0.0)]
    else Standstill(n - 1) + [Ask(BLOCKED, n as real)] + [Ask(EAGER, n as real)]
  }

  /** Both tenants stand in line, "b" at clock 0 and "a" at clock `a`. */
  ghost predicate InLine(ts: Contenders, a: real) {
    ts.Keys == {"a", "b"} && ts["a"].virtualTime == a && ts["b"].virtualTime == 0.0
  }

  lemma FrontOfLine(ts: Contenders, a: real)
    requires InLine(ts, a) && a >= 0.0
    ensures Slowest(ts) == 0.0
  {
    hide Slowest;
    assert ts["b"].virtualTime == 0.0 && "b" in ts;
    SlowestIsUnique(ts, 0.0, Slowest(ts));
  }

  /** No slot but that of "a", so the queue is far from its marks. */
  ghost predicate Shallow(e: EngineState) { e.inflight.slots.Keys <= {Token("run-a", "node")} }

  lemma ShallowAsks(e: EngineState, req: AdmissionRequest, now: real)
    requires Shallow(e) && (req == BLOCKED || req == EAGER)
    ensures AsksFairShare(STUCK_POLICY, e, req, now)
    ensures FairStepSize(STUCK_POLICY, req) == req.tokens
  {
    hide DepthAt;
    ShallowDepth(e, now);
  }

  /** The blocked tenant is refused in every state, and its charge is given back. */
  lemma BlockedIsRefused(e: EngineState, now: real, a: real)
    requires Shallow(e) && 0.0 <= a && InLine(ActiveOn(STUCK_POLICY, e, "q", now), a)
    ensures
      var (next, d) := AdmitStep(STUCK_POLICY, e, BLOCKED, now);
      && !d.outcome.Admit? && Shallow(next) && next.inflight.admitted == e.inflight.admitted
      && var ts, active := On(next.queues, "q"), ActiveOn(STUCK_POLICY, e, "q", now);
         InLine(ts, a) && ts["b"].lastSeen == now && ts["a"].lastSeen == active["a"].lastSeen
  {
    hide Govern, AsksFairShare, Slowest, FairStepSize, Prune, Token;
    ShallowAsks(e, BLOCKED, now);
    BlockedDoesNotFit();
    OversizedRequestIsNeverAdmitted(STUCK_POLICY, e, BLOCKED, now);
    FrontOfLine(ActiveOn(STUCK_POLICY, e, "q", now), a);
    QueuesAfter(STUCK_POLICY, e, BLOCKED, now);
    StaysShallow(e, BLOCKED, now);
  }

  lemma BlockedDoesNotFit()
    ensures BucketOf(STUCK_POLICY, BLOCKED) == Some(("x", RateShape(1.0, 1.0)))
  {}

  lemma StaysShallow(e: EngineState, req: AdmissionRequest, now: real)
    requires Shallow(e) && (req == BLOCKED || req == EAGER)
    ensures
      var (next, d) := AdmitStep(STUCK_POLICY, e, req, now);
      && (req == EAGER || !d.outcome.Admit? ==> Shallow(next))
      && next.inflight.admitted == if d.outcome.Admit? then Bump(e.inflight.admitted, "q") else e.inflight.admitted
  {
    hide Govern, Token, Tally, Overdue, BudgetSays, QueueSays, Bump;
    RestAfter(STUCK_POLICY, e, req, now);
  }

  /** More than one step ahead, the eager tenant is deferred for fairness and stays where it is. */
  lemma EagerIsDeferred(e: EngineState, now: real)
    requires Shallow(e) && InLine(ActiveOn(STUCK_POLICY, e, "q", now), 2.0)
    ensures
      var (next, d) := AdmitStep(STUCK_POLICY, e, EAGER, now);
      && d.rule.FairnessRule? && !d.outcome.Admit? && Shallow(next) && next.inflight.admitted == e.inflight.admitted
      && var ts, active := On(next.queues, "q"), ActiveOn(STUCK_POLICY, e, "q", now);
         InLine(ts, 2.0) && ts["a"].lastSeen == now && ts["b"].lastSeen == active["b"].lastSeen
  {
    hide Govern, AsksFairShare, FairStepSize, Prune, Token, MayPass, Slowest;
    var active := ActiveOn(STUCK_POLICY, e, "q", now);
    ShallowAsks(e, EAGER, now);
    DeferredIffAheadOfARival(active, "a", 1.0);
    assert active["a"].virtualTime > active["b"].virtualTime + 1.0;
    QueuesAfter(STUCK_POLICY, e, EAGER, now);
    StaysShallow(e, EAGER, now);
  }

  // ---- Up to the standstill ------------------------------------------------------------------------

  /** An eager tenant that may pass is admitted and moves on by one. */
  lemma EagerIsAdmitted(e: EngineState, now: real)
    requires Shallow(e) && MayPass(ActiveOn(STUCK_POLICY, e, "q", now), "a", 1.0)
    ensures
      var (next, d) := AdmitStep(STUCK_POLICY, e, EAGER, now);
      && d.outcome.Admit? && Shallow(next) && next.inflight.admitted == Bump(e.inflight.admitted, "q")
      && On(next.queues, "q") == Asked(ActiveOn(STUCK_POLICY, e, "q", now), "a", 1.0, now)
  {
    hide AsksFairShare, MayPass, Asked, Slowest, FairStepSize, Prune, Token, Govern;
    ShallowAsks(e, EAGER, now);
    QueuesAfter(STUCK_POLICY, e, EAGER, now);
    NothingElseRefusesEager(e, now);
    StaysShallow(e, EAGER, now);
  }

  lemma NothingElseRefusesEager(e: EngineState, now: real)
    ensures AsksFairShare(STUCK_POLICY, e, EAGER, now) && !Govern(STUCK_POLICY, e, EAGER, now).1.rule.FairnessRule?
        ==> Govern(STUCK_POLICY, e, EAGER, now).1.outcome.Admit?
  {
    assert BucketOf(STUCK_POLICY, EAGER) == None;
    hide BudgetSays, QueueSays, FairSays, Swept, Take, Bump, Refunded, BucketOf, DepthAt;
  }

  lemma BlockedComesFirst()
    ensures
      var e := AdmitStep(STUCK_POLICY, START, BLOCKED, 0.0).0;
      Shallow(e) && e.inflight.admitted == map[] && On(e.queues, "q") == map["b" := Tenant(0.0, 0.0)]
  {
    assert ActiveOn(STUCK_POLICY, START, "q", 0.0) == map[];
    hide Govern, AsksFairShare, FairStepSize, Token, Refunded, Asked, MayPass, ActiveOn;
    ShallowAsks(START, BLOCKED, 0.0);
    BlockedDoesNotFit();
    OversizedRequestIsNeverAdmitted(STUCK_POLICY, START, BLOCKED, 0.0);
    QueuesAfter(STUCK_POLICY, START, BLOCKED, 0.0);
    StaysShallow(START, BLOCKED, 0.0);
    RefundedNewcomer();
  }

  lemma RefundedNewcomer()
    ensures MayPass(map[], "b", 2.0)
    ensures On(Refunded(map["q" := Asked(map[], "b", 2.0, 0.0)], "q", "b", 1.0, 2.0), "q") == map["b" := Tenant(0.0, 0.0)]
  {
    var none: Contenders := map[];
    assert none.Keys + {"b"} == {"b"} && Slowest(none) == 0.0 && Step(1.0, 2.0) == 2.0;
    var line: Contenders := map["b" := Tenant(2.0, 0.0)];
    assert Asked(none, "b", 2.0, 0.0) == line;
    assert line["b" := Tenant(0.0, 0.0)] == map["b" := Tenant(0.0, 0.0)];
    assert map["q" := line]["q"]["b"] == Tenant(2.0, 0.0);
  }

  lemma SecondInLine(b: Contenders)
    requires b == map["b" := Tenant(0.0, 0.0)]
    ensures Prune(b, 30.0, 0.0) == b && MayPass(b, "a", 1.0) && InLine(Asked(b, "a", 1.0, 0.0), 1.0)
    ensures Asked(b, "a", 1.0, 0.0)["a"].lastSeen == 0.0 && Asked(b, "a", 1.0, 0.0)["b"].lastSeen == 0.0
  {
    assert b["b"].virtualTime == 0.0;
    SlowestIsUnique(b, 0.0, Slowest(b));
  }

  lemma AheadByOne(ts: Contenders)
    requires InLine(ts, 1.0) && ts["a"].lastSeen == ts["b"].lastSeen == 0.0
    ensures Prune(ts, 30.0, 0.0) == ts && MayPass(ts, "a", 1.0) && InLine(Asked(ts, "a", 1.0, 0.0), 2.0)
    ensures Asked(ts, "a", 1.0, 0.0)["a"].lastSeen == 0.0 && Asked(ts, "a", 1.0, 0.0)["b"].lastSeen == 0.0
  {
    FrontOfLine(ts, 1.0);
    hide Slowest;
  }

  lemma ReachesStandstill()
    ensures Stuck(Run(STUCK_POLICY, Standstill(0)), 0.0)
  {
    hide AdmitStep, Shallow, InLine, MayPass, Asked;
    var p, x, y := STUCK_POLICY, Ask(BLOCKED, 0.0), Ask(EAGER, 0.0);
    assert [x, y, y][..2] == [x, y] && [x, y][..1] == [x] && [x][..0] == [];
    var one := AdmitStep(p, START, BLOCKED, 0.0).0;
    var two := AdmitStep(p, one, EAGER, 0.0).0;
    assert Run(p, []) == START && Run(p, [x]) == one && Run(p, [x, y]) == two;
    BlockedComesFirst();
    SecondInLine(On(one.queues, "q"));
    EagerIsAdmitted(one, 0.0);
    AheadByOne(On(two.queues, "q"));
    EagerIsAdmitted(two, 0.0);
  }

  // ---- For ever ----------------------------------------------------------------------------------------

  /** The standstill: clocks 2 and 0, both tenants just seen, and two admissions ever. */
  ghost predicate Stuck(e: EngineState, now: real) {
    && Count(e.inflight.admitted, "q") == 2
    && Shallow(e) && InLine(On(e.queues, "q"), 2.0)
    && On(e.queues, "q")["a"].lastSeen == now && On(e.queues, "q")["b"].lastSeen == now
  }

  lemma StuckIsActive(e: EngineState, before: real, now: real)
    requires Stuck(e, before) && before <= now <= before + 30.0
    ensures ActiveOn(STUCK_POLICY, e, "q", now) == On(e.queues, "q")
  {}

  lemma OneMoreSecond(e: EngineState, before: real, now: real)
    requires Stuck(e, before) && before <= now <= before + 30.0
    ensures
      var (mid, d) := AdmitStep(STUCK_POLICY, e, BLOCKED, now);
      var (next, d') := AdmitStep(STUCK_POLICY, mid, EAGER, now);
      !d.outcome.Admit? && d'.rule.FairnessRule? && Stuck(next, now)
  {
    hide AdmitStep, Shallow, Slowest;
    StuckIsActive(e, before, now);
    BlockedIsRefused(e, now, 2.0);
    var mid := AdmitStep(STUCK_POLICY, e, BLOCKED, now).0;
    assert ActiveOn(STUCK_POLICY, mid, "q", now) == On(mid.queues, "q");
    EagerIsDeferred(mid, now);
  }

  lemma {:induction false} StandstillLasts(n: nat)
    ensures Stuck(Run(STUCK_POLICY, Standstill(n)), n as real)
  {
    hide Stuck, AdmitStep, Run, Standstill;
    if n == 0 {
      ReachesStandstill();
    } else {
      var evs, x, y := Standstill(n - 1), Ask(BLOCKED, n as real), Ask(EAGER, n as real);
      StandstillLasts(n - 1);
      OneMoreSecond(Run(STUCK_POLICY, evs), (n - 1) as real, n as real);
      LastTwo(STUCK_POLICY, evs, x, y);
      StandstillGrows(n);
    }
  }

  lemma StandstillGrows(n: nat)
    requires n > 0
    ensures Standstill(n) == Standstill(n - 1) + [Ask(BLOCKED, n as real)] + [Ask(EAGER, n as real)]
  {}

  /** The share is not work conserving: for as long as a tenant that never fits its provider keeps
      asking, its rival, which needs no provider at all and finds the queue all but empty, is
      admitted twice and never again. */
  lemma BlockedTenantStopsTheQueue(n: nat)
    ensures
      var e := Run(STUCK_POLICY, Standstill(n));
      && WellTimed(Standstill(n)) && Count(e.inflight.admitted, "q") == 2
      && DepthAt(STUCK_POLICY, e, "q", n as real) <= 1
      && AdmitStep(STUCK_POLICY, e, EAGER, n as real).1.rule.FairnessRule?
  {
    StandstillLasts(n);
    hide Run, AdmitStep, Standstill;
    var e, now := Run(STUCK_POLICY, Standstill(n)), n as real;
    StuckIsActive(e, now, now);
    EagerIsDeferred(e, now);
    ShallowDepth(e, now);
  }

  lemma ShallowDepth(e: EngineState, now: real)
    requires Shallow(e)
    ensures DepthAt(STUCK_POLICY, e, "q", now) <= 1
  {
    hide Token, Tally, Overdue;
    var holders := Holders(Swept(e.inflight, STUCK_POLICY.inflightTtlSeconds, now).slots, "q");
    assert holders <= {Token("run-a", "node")};
    SubsetSize(holders, {Token("run-a", "node")});
  }
}
