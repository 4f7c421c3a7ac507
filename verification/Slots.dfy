/** Who holds which slot: a token names a run and a node, not an attempt. */
module Slots {
  import opened Common
  import opened Fairness
  import opened Backlog
  import opened Budget
  import opened Policy
  import opened Engine
  import opened AdmissionCalls
  import opened EngineRuns

  // ---- Whose token ------------------------------------------------------------------------------

  /** Two nodes share a token exactly when run, colon and node read alike run together; where no
      run id has a colon they are the same node of the same run. */
  lemma SameTokenIff(runA: string, nodeA: string, runB: string, nodeB: string)
    ensures Token(runA, nodeA) == Token(runB, nodeB) <==> runA + ":" + nodeA == runB + ":" + nodeB
    ensures ':' !in runA && ':' !in runB ==> (Token(runA, nodeA) == Token(runB, nodeB) <==> runA == runB && nodeA == nodeB)
  {
    if ':' !in runA && ':' !in runB && Token(runA, nodeA) == Token(runB, nodeB) {
      CutAtColon(runA, runB, nodeA, nodeB);
    }
  }

  lemma ColonInARunIdCollides()
    ensures Token("a:b", "c") == Token("a", "b:c")
  {
    assert "a:b" + ":" + "c" == "a" + ":" + "b:c";
  }

  // ---- A slot of one's own --------------------------------------------------------------------------

  /** An admission deepens its queue by one, and so the depth it is told is the true one, exactly
      when no unexpired slot of the queue is already held under its token. */
  lemma AdmissionDeepensIff(p: SchedulerConfig, e: EngineState, req: AdmissionRequest, now: real)
    requires AdmitStep(p, e, req, now).1.outcome.Admit?
    ensures
      var (next, d) := AdmitStep(p, e, req, now);
      var token, live := Token(req.runId, req.nodeId), Swept(e.inflight, p.inflightTtlSeconds, now).slots;
      && d.queueDepth == DepthAt(p, e, req.taskQueue, now) + 1
      && (|Holders(next.inflight.slots, req.taskQueue)| == d.queueDepth
          <==> !(token in live && live[token].queue == req.taskQueue))
  {
    hide Holders, Tally, BudgetSays, QueueSays, FairSays, LimiterSays, Token, Bump, Refunded, Overdue;
    AdmittedDepth(p, e, req, now);
    RestAfter(p, e, req, now);
    var swept := Swept(e.inflight, p.inflightTtlSeconds, now);
    SweepTwice(e.inflight.slots, p.inflightTtlSeconds, now);
    OwnSlotIff(Swept(swept, p.inflightTtlSeconds, now), Token(req.runId, req.nodeId), req.taskQueue, now);
  }

  lemma AdmittedDepth(p: SchedulerConfig, e: EngineState, req: AdmissionRequest, now: real)
    ensures Govern(p, e, req, now).1.outcome.Admit? ==> Govern(p, e, req, now).1.queueDepth == DepthAt(p, e, req.taskQueue, now) + 1
  {
    hide DepthAt, BudgetSays, QueueSays, FairSays, LimiterSays, Swept, Take, Bump, Refunded;
  }

  // ---- One node, many attempts, one slot ---------------------------------------------------------------

  const RETRY_POLICY: SchedulerConfig := Document(
    map[], map[], map[], FairnessConfig(false, 30.0, 0.25), BudgetConfig(Off, None, 0.8), 1, 900.0)

  const ATTEMPT := AdmissionRequest("run", "node", "q", "t", 5, None, None, 1.0, 0.0, None)

  /** The node asks `n` times, once for each of its attempts. */
  function Attempts(n: nat): (evs: seq<Event>)
    ensures |evs| == n && forall i | 0 <= i < n :: evs[i] == Ask(ATTEMPT, 0.0)
  {
    if n == 0 then [] else Attempts(n - 1) + [Ask(ATTEMPT, 0.0)]
  }

  /** `n` admissions, one slot, and all but one of the admissions replaced. */
  ghost predicate Attempted(e: EngineState, n: nat) {
    && e.inflight.slots == (if n == 0 then map[] else map[Token("run", "node") := Slot("q", 0.0)])
    && Count(e.inflight.admitted, "q") == n && Count(e.inflight.replaced, "q") == (if n == 0 then 0 else n - 1)
  }

  lemma AttemptIsAdmitted(e: EngineState, n: nat)
    requires Attempted(e, n)
    ensures
      var (next, d) := AdmitStep(RETRY_POLICY, e, ATTEMPT, 0.0);
      d.outcome.Admit? && next.inflight == Take(e.inflight, Token("run", "node"), "q", 0.0)
  {
    hide Take, Swept, Bump, Token;
    NothingOverdue(e.inflight, RETRY_POLICY.inflightTtlSeconds);
    assert |Holders(e.inflight.slots, "q")| <= 1 by {
      assert Holders(e.inflight.slots, "q") == if n == 0 then {} else {Token("run", "node")};
    }
  }

  lemma AttemptReplaces(e: EngineState, next: EngineState, n: nat)
    requires Attempted(e, n) && next.inflight == Take(e.inflight, Token("run", "node"), "q", 0.0)
    ensures Attempted(next, n + 1)
  {
    hide Token, Count, Bump;
    BumpCounts(e.inflight.admitted, "q", "q");
    BumpCounts(e.inflight.replaced, "q", "q");
  }

  lemma {:induction false} AttemptsShareOneSlot(n: nat)
    ensures Attempted(Run(RETRY_POLICY, Attempts(n)), n)
  {
    hide Attempted, AdmitStep, Take, Token;
    if n == 0 {
      NothingAttempted();
    } else {
      var e := Run(RETRY_POLICY, Attempts(n - 1));
      AttemptsShareOneSlot(n - 1);
      AttemptIsAdmitted(e, n - 1);
      assert Attempts(n)[..n - 1] == Attempts(n - 1);
      AttemptReplaces(e, AdmitStep(RETRY_POLICY, e, ATTEMPT, 0.0).0, n - 1);
    }
  }

  lemma NothingAttempted()
    ensures Attempted(Run(RETRY_POLICY, Attempts(0)), 0)
  {
    assert Run(RETRY_POLICY, []) == START;
  }

  /** However often a node is admitted, its queue reads one deep; and the first report, whichever
      attempt it comes from, frees the slot of the attempt still running, whose own report then
      finds nothing to release. */
  lemma FirstReportFreesEveryAttempt(n: nat)
    requires n > 0
    ensures
      var e := Run(RETRY_POLICY, Attempts(n));
      var (once, first) := CompleteStep(e, "run", "node", "t", 0.0);
      && Count(e.inflight.admitted, "q") == n && DepthAt(RETRY_POLICY, e, "q", 0.0) == 1
      && first && DepthAt(RETRY_POLICY, once, "q", 0.0) == 0
      && !CompleteStep(once, "run", "node", "t", 0.0).1
  {
    AttemptsShareOneSlot(n);
    hide Run, Token, Bump, Tally;
    var e := Run(RETRY_POLICY, Attempts(n));
    var once := CompleteStep(e, "run", "node", "t", 0.0).0;
    NothingOverdue(e.inflight, RETRY_POLICY.inflightTtlSeconds);
    NothingOverdue(once.inflight, RETRY_POLICY.inflightTtlSeconds);
    assert Holders(e.inflight.slots, "q") == {Token("run", "node")};
    assert Holders(once.inflight.slots, "q") == {};
  }
}
