/** What the engine remembers of a run, read off the run: who holds a slot, who is active on a
    queue, and what every counter counts. */
module EngineHistory {
  import opened Common
  import opened Fairness
  import opened Backlog
  import opened Budget
  import opened Policy
  import opened Engine
  import opened AdmissionCalls
  import opened EngineRuns
  import opened FairnessRuns

  // ---- Slots --------------------------------------------------------------------------------------

  function TokenOf(ev: Event): string {
    match ev
    case Ask(req, _) => Token(req.runId, req.nodeId)
    case Report(runId, nodeId, _, _, _) => Token(runId, nodeId)
    case Inspect(_, _) => ""
  }

  /** The event takes the token's slot or frees it. */
  ghost predicate Touches(p: SchedulerConfig, evs: seq<Event>, j: nat, token: string)
    requires j < |evs|
  {
    TokenOf(evs[j]) == token && (AdmittedAt(p, evs, j) || evs[j].Report?)
  }

  /** The admission at `i` took the token's slot, and nothing has touched it since. */
  ghost predicate LastTaken(p: SchedulerConfig, evs: seq<Event>, i: int, token: string) {
    && 0 <= i < |evs| && AdmittedAt(p, evs, i) && TokenOf(evs[i]) == token
    && forall j | i < j < |evs| :: !Touches(p, evs, j, token)
  }

  /** One event and one token: taken, freed, or kept until it is older than the time to live. */
  lemma NextSlot(p: SchedulerConfig, e: EngineState, ev: Event, k: string)
    ensures
      var slots, slots' := e.inflight.slots, Next(p, e, ev).inflight.slots;
      if Admits(p, e, ev) && TokenOf(ev) == k then k in slots' && slots'[k] == Slot(ev.req.taskQueue, ev.at)
      else if ev.Report? && TokenOf(ev) == k then k !in slots'
      else
        && (k in slots' ==> k in slots && slots'[k] == slots[k])
        && (k in slots && ev.at - slots[k].admittedAt <= p.inflightTtlSeconds ==> k in slots')
  {
    if ev.Ask? { RestAfter(p, e, ev.req, ev.at); }
    hide Govern, Counted, Tally, WithSpend, QueueSays, BudgetSays, ActiveOn, Token, Bump;
  }

  lemma LastTakenBefore(p: SchedulerConfig, evs: seq<Event>, i: int, token: string)
    requires evs != [] && i < |evs| - 1
    ensures LastTaken(p, evs, i, token) <==> LastTaken(p, evs[..|evs| - 1], i, token) && !Touches(p, evs, |evs| - 1, token)
  {
    hide AdmittedAt;
    var n := |evs| - 1;
    if 0 <= i { AdmittedInPrefix(p, evs, i, n); }
    forall j | 0 <= j && i < j < n ensures Touches(p, evs[..n], j, token) <==> Touches(p, evs, j, token) {
      AdmittedInPrefix(p, evs, j, n);
    }
  }

  /** The token's slot is that of the admission at `i`. */
  predicate SlotOf(slots: map<string, Slot>, k: string, evs: seq<Event>, i: int) {
    0 <= i < |evs| && evs[i].Ask? && k in slots && slots[k] == Slot(evs[i].req.taskQueue, evs[i].at)
  }

  /** A slot is that of the token's last admission, and a young enough one is there. */
  ghost predicate SlotsRecorded(p: SchedulerConfig, evs: seq<Event>, slots: map<string, Slot>, k: string) {
    && (k in slots ==> exists i :: LastTaken(p, evs, i, k) && SlotOf(slots, k, evs, i))
    && (forall i | LastTaken(p, evs, i, k) && evs[|evs| - 1].at - evs[i].at <= p.inflightTtlSeconds :: SlotOf(slots, k, evs, i))
  }

  lemma {:induction false} SlotsAreLastAdmissions(p: SchedulerConfig, evs: seq<Event>, k: string)
    requires WellTimed(evs)
    ensures SlotsRecorded(p, evs, Run(p, evs).inflight.slots, k)
  {
    if evs != [] {
      hide Next, AdmittedAt, LastTaken, SlotOf, Touches, SlotsRecorded, TokenOf;
      var n := |evs| - 1;
      Extend(p, evs);
      SlotsAreLastAdmissions(p, evs[..n], k);
      NextSlot(p, Run(p, evs[..n]), evs[n], k);
      assert AdmittedAt(p, evs, n) <==> Admits(p, Run(p, evs[..n]), evs[n]) by { ReadsAdmits(p, evs, n); }
      var slots, slots' := Run(p, evs[..n]).inflight.slots, Run(p, evs).inflight.slots;
      hide Run, Admits;
      if AdmittedAt(p, evs, n) && TokenOf(evs[n]) == k {
        TakenIsRecorded(p, evs, slots', k);
      } else if evs[n].Report? && TokenOf(evs[n]) == k {
        FreedIsRecorded(p, evs, slots', k);
      } else {
        KeptIsRecorded(p, evs, slots, slots', k);
      }
    }
  }

  lemma ReadsAdmits(p: SchedulerConfig, evs: seq<Event>, n: nat)
    requires n < |evs|
    ensures AdmittedAt(p, evs, n) <==> Admits(p, Run(p, evs[..n]), evs[n])
    ensures AdmittedAt(p, evs, n) ==> evs[n].Ask?
  {}

  lemma TakenIsRecorded(p: SchedulerConfig, evs: seq<Event>, slots: map<string, Slot>, k: string)
    requires evs != [] && WellTimed(evs) && AdmittedAt(p, evs, |evs| - 1) && TokenOf(evs[|evs| - 1]) == k
    requires evs[|evs| - 1].Ask? && k in slots && slots[k] == Slot(evs[|evs| - 1].req.taskQueue, evs[|evs| - 1].at)
    ensures SlotsRecorded(p, evs, slots, k)
  {
    hide AdmittedAt, LastTaken, TokenOf, WellTimed;
    OneMoreTaken(p, evs, k);
    assert SlotOf(slots, k, evs, |evs| - 1);
  }

  lemma FreedIsRecorded(p: SchedulerConfig, evs: seq<Event>, slots: map<string, Slot>, k: string)
    requires evs != [] && WellTimed(evs) && evs[|evs| - 1].Report? && TokenOf(evs[|evs| - 1]) == k && k !in slots
    ensures SlotsRecorded(p, evs, slots, k)
  {
    TouchedIff(p, evs, |evs| - 1, k);
    hide AdmittedAt, LastTaken, TokenOf, WellTimed, Touches, SlotOf;
    OneMoreTaken(p, evs, k);
  }

  lemma KeptIsRecorded(p: SchedulerConfig, evs: seq<Event>, slots: map<string, Slot>, slots': map<string, Slot>, k: string)
    requires evs != [] && WellTimed(evs) && SlotsRecorded(p, evs[..|evs| - 1], slots, k)
    requires !(TokenOf(evs[|evs| - 1]) == k && (AdmittedAt(p, evs, |evs| - 1) || evs[|evs| - 1].Report?))
    requires k in slots' ==> k in slots && slots'[k] == slots[k]
    requires k in slots && evs[|evs| - 1].at - slots[k].admittedAt <= p.inflightTtlSeconds ==> k in slots'
    ensures SlotsRecorded(p, evs, slots', k)
  {
    hide AdmittedAt, LastTaken, TokenOf, WellTimed, SlotOf;
    var most := evs[..|evs| - 1];
    if k in slots' {
      var i :| LastTaken(p, most, i, k) && SlotOf(slots, k, most, i);
      TakenBefore(p, evs, i, k);
      SlotStays(slots, slots', k, evs, i);
    }
    forall i ensures LastTaken(p, evs, i, k) ==> 0 <= i < |evs| { LastTakenIsItself(p, evs, i, k); }
    forall i | LastTaken(p, evs, i, k) && evs[|evs| - 1].at - evs[i].at <= p.inflightTtlSeconds ensures SlotOf(slots', k, evs, i) {
      TakenBefore(p, evs, i, k);
      assert SlotOf(slots, k, most, i);
      SlotStays(slots, slots', k, evs, i);
    }
  }

  /** An event that does not touch the token leaves its last admission where it was. */
  lemma TakenBefore(p: SchedulerConfig, evs: seq<Event>, i: int, k: string)
    requires evs != [] && WellTimed(evs)
    requires !(TokenOf(evs[|evs| - 1]) == k && (AdmittedAt(p, evs, |evs| - 1) || evs[|evs| - 1].Report?))
    ensures LastTaken(p, evs, i, k) <==> LastTaken(p, evs[..|evs| - 1], i, k)
    ensures LastTaken(p, evs, i, k) ==> 0 <= i < |evs| - 1 && evs[i].at <= evs[|evs| - 2].at <= evs[|evs| - 1].at
  {
    TouchedIff(p, evs, |evs| - 1, k);
    OneMoreTaken(p, evs, k);
    LastTakenIsItself(p, evs, i, k);
    hide AdmittedAt, LastTaken, TokenOf, WellTimed, Touches;
  }

  lemma LastTakenIsItself(p: SchedulerConfig, evs: seq<Event>, i: int, k: string)
    ensures LastTaken(p, evs, i, k) ==> 0 <= i < |evs| && TokenOf(evs[i]) == k && AdmittedAt(p, evs, i)
  {}

  lemma SlotStays(slots: map<string, Slot>, slots': map<string, Slot>, k: string, evs: seq<Event>, i: int)
    requires evs != [] && SlotOf(slots, k, evs[..|evs| - 1], i)
    ensures k in slots && slots[k].admittedAt == evs[i].at
    ensures k in slots' && slots'[k] == slots[k] ==> SlotOf(slots', k, evs, i)
  {}

  /** How the last admission of a token moves with one more event. */
  lemma OneMoreTaken(p: SchedulerConfig, evs: seq<Event>, k: string)
    requires evs != [] && WellTimed(evs)
    ensures
      var n := |evs| - 1;
      && (AdmittedAt(p, evs, n) && TokenOf(evs[n]) == k ==> forall i :: LastTaken(p, evs, i, k) <==> i == n)
      && (Touches(p, evs, n, k) && !AdmittedAt(p, evs, n) ==> forall i :: !LastTaken(p, evs, i, k))
      && (!Touches(p, evs, n, k) ==> forall i :: LastTaken(p, evs, i, k) <==> LastTaken(p, evs[..n], i, k))
      && (forall i | 0 <= i < n :: evs[i].at <= evs[n - 1].at <= evs[n].at)
  {
    hide AdmittedAt, Touches;
    var n := |evs| - 1;
    forall i | i < n ensures LastTaken(p, evs, i, k) <==> LastTaken(p, evs[..n], i, k) && !Touches(p, evs, n, k) {
      LastTakenBefore(p, evs, i, k);
    }
    TouchedIff(p, evs, n, k);
  }

  lemma TouchedIff(p: SchedulerConfig, evs: seq<Event>, j: nat, token: string)
    requires j < |evs|
    ensures Touches(p, evs, j, token) <==> TokenOf(evs[j]) == token && (AdmittedAt(p, evs, j) || evs[j].Report?)
    ensures AdmittedAt(p, evs, j) ==> !evs[j].Report?
  {}

  /** The admission at `i` still holds its slot of the queue at `now`. */
  ghost predicate Holding(p: SchedulerConfig, evs: seq<Event>, i: int, queue: string, now: real) {
    && 0 <= i < |evs| && LastTaken(p, evs, i, TokenOf(evs[i])) && evs[i].req.taskQueue == queue
    && now - evs[i].at <= p.inflightTtlSeconds
  }

  /** Exactly who holds a slot: at `now` a token holds one of a queue if and only if its last
      admission was to that queue, no later than the time to live ago, and nothing that came after
      reported it. */
  lemma HoldsASlotIff(p: SchedulerConfig, evs: seq<Event>, queue: string, now: real, k: string)
    requires WellTimed(evs) && (evs != [] ==> evs[|evs| - 1].at <= now)
    ensures k in Holders(Swept(Run(p, evs).inflight, p.inflightTtlSeconds, now).slots, queue)
       <==> exists i :: Holding(p, evs, i, queue, now) && TokenOf(evs[i]) == k
  {
    SlotsAreLastAdmissions(p, evs, k);
    OneLastAdmission(p, evs, k);
    assert SlotsRecorded(p, evs, Run(p, evs).inflight.slots, k);
    hide Run, Tally, Token, LastTaken, WellTimed;
    var slots := Run(p, evs).inflight.slots;
    assert k in Holders(Swept(Run(p, evs).inflight, p.inflightTtlSeconds, now).slots, queue)
      <==> k in slots && slots[k].queue == queue && now - slots[k].admittedAt <= p.inflightTtlSeconds;
    hide Swept, Holders;
    if k in slots {
      var i :| LastTaken(p, evs, i, k) && SlotOf(slots, k, evs, i);
      LastTakenIsOfToken(p, evs, i, k);
      assert Holding(p, evs, i, queue, now) <==> slots[k].queue == queue && now - slots[k].admittedAt <= p.inflightTtlSeconds;
    }
    if i :| Holding(p, evs, i, queue, now) && TokenOf(evs[i]) == k {
      LastTakenIsOfToken(p, evs, i, k);
      assert SlotOf(slots, k, evs, i);
    }
  }

  lemma LastTakenIsOfToken(p: SchedulerConfig, evs: seq<Event>, i: int, k: string)
    requires LastTaken(p, evs, i, k) && WellTimed(evs)
    ensures 0 <= i < |evs| && TokenOf(evs[i]) == k && evs[i].at <= evs[|evs| - 1].at
  {
    hide AdmittedAt;
  }

  lemma OneLastAdmission(p: SchedulerConfig, evs: seq<Event>, k: string)
    ensures forall i, j | LastTaken(p, evs, i, k) && LastTaken(p, evs, j, k) :: i == j
  {
    hide AdmittedAt;
    forall i, j | LastTaken(p, evs, i, k) && LastTaken(p, evs, j, k) ensures i == j {
      assert Touches(p, evs, i, k) && Touches(p, evs, j, k);
    }
  }

  /** The admissions that hold a slot of the queue at `now`. */
  ghost function HoldingSet(p: SchedulerConfig, evs: seq<Event>, queue: string, now: real): (s: set<nat>)
    ensures forall i | i in s :: 0 <= i < |evs|
  {
    set i: nat | i < |evs| && Holding(p, evs, i, queue, now)
  }

  lemma {:induction false} SameSize(s: set<nat>, evs: seq<Event>, tokens: set<string>)
    requires (forall i | i in s :: i < |evs| && TokenOf(evs[i]) in tokens) && (forall k | k in tokens :: exists i | i in s && 0 <= i < |evs| :: TokenOf(evs[i]) == k)
    requires forall i, j | i in s && j in s && TokenOf(evs[i]) == TokenOf(evs[j]) :: i == j
    ensures |s| == |tokens|
    decreases |s|
  {
    hide TokenOf;
    if s == {} {
      assert tokens == {};
    } else {
      var i :| i in s;
      var rest, others := s - {i}, tokens - {TokenOf(evs[i])};
      forall k | k in others ensures exists j | j in rest && 0 <= j < |evs| :: TokenOf(evs[j]) == k {
        var j :| j in s && TokenOf(evs[j]) == k;
        assert j in rest;
      }
      SameSize(rest, evs, others);
    }
  }

  /** One token for one holding admission. */
  lemma HoldersAreHolding(p: SchedulerConfig, evs: seq<Event>, queue: string, now: real, tokens: set<string>)
    requires WellTimed(evs) && (evs != [] ==> evs[|evs| - 1].at <= now)
    requires tokens == Holders(Swept(Run(p, evs).inflight, p.inflightTtlSeconds, now).slots, queue)
    ensures forall i | i in HoldingSet(p, evs, queue, now) :: i < |evs| && TokenOf(evs[i]) in tokens
    ensures forall k | k in tokens :: exists i | i in HoldingSet(p, evs, queue, now) && 0 <= i < |evs| :: TokenOf(evs[i]) == k
  {
    hide Run, Swept, Holders, WellTimed, TokenOf, Holding;
    var s := HoldingSet(p, evs, queue, now);
    forall i | i in s ensures TokenOf(evs[i]) in tokens { HoldsASlotIff(p, evs, queue, now, TokenOf(evs[i])); }
    forall k | k in tokens ensures exists i | i in s && 0 <= i < |evs| :: TokenOf(evs[i]) == k {
      HoldsASlotIff(p, evs, queue, now, k);
      HoldingIsInRange(p, evs, queue, now);
      var i :| Holding(p, evs, i, queue, now) && TokenOf(evs[i]) == k;
      assert i in s;
    }
  }

  /** The exact depth of a queue: how many of the run's admissions to it are the last of their node,
      unreported and no older than the time to live. */
  lemma DepthIsHoldingAdmissions(p: SchedulerConfig, evs: seq<Event>, queue: string, now: real)
    requires WellTimed(evs) && (evs != [] ==> evs[|evs| - 1].at <= now)
    ensures DepthAt(p, Run(p, evs), queue, now) == |HoldingSet(p, evs, queue, now)|
  {
    var tokens := Holders(Swept(Run(p, evs).inflight, p.inflightTtlSeconds, now).slots, queue);
    HoldersAreHolding(p, evs, queue, now, tokens);
    hide Run, Swept, Holders, WellTimed, TokenOf, LastTaken;
    var s := HoldingSet(p, evs, queue, now);
    forall i, j | i in s && j in s && TokenOf(evs[i]) == TokenOf(evs[j]) ensures i == j {
      OneLastAdmission(p, evs, TokenOf(evs[i]));
    }
    hide HoldingSet;
    SameSize(s, evs, tokens);
  }

  lemma HoldingIsInRange(p: SchedulerConfig, evs: seq<Event>, queue: string, now: real)
    ensures forall i | Holding(p, evs, i, queue, now) :: 0 <= i < |evs|
  {}

  // ---- Who is active ---------------------------------------------------------------------------------

  /** The tenant asked at `i` and got as far as the fair-share gate. */
  ghost predicate Contended(p: SchedulerConfig, evs: seq<Event>, i: int, queue: string, tenant: string) {
    0 <= i < |evs| && AsksFor(evs[i], queue, tenant) && AsksFairShare(p, Run(p, evs[..i]), evs[i].req, evs[i].at)
  }

  lemma NextSeen(p: SchedulerConfig, e: EngineState, ev: Event, queue: string, t: string)
    ensures
      var ts, ts' := On(e.queues, queue), On(Next(p, e, ev).queues, queue);
      if AsksFor(ev, queue, t) && AsksFairShare(p, e, ev.req, ev.at) then t in ts' && ts'[t].lastSeen == ev.at
      else
        && (t in ts' ==> t in ts && ts'[t].lastSeen == ts[t].lastSeen)
        && (t in ts && ev.at - ts[t].lastSeen <= p.fairness.idleSeconds ==> t in ts')
  {
    hide Govern, Counted, Swept, AsksFairShare, WithSpend, Release, MayPass, Slowest, Step;
    if ev.Ask? { QueuesAfter(p, e, ev.req, ev.at); }
  }

  lemma {:induction false} SeenAreContenders(p: SchedulerConfig, evs: seq<Event>, queue: string, t: string)
    requires WellTimed(evs)
    ensures SeenLast(p, evs, On(Run(p, evs).queues, queue), queue, t)
  {
    if evs != [] {
      hide Next, SeenLast, Contended;
      Extend(p, evs);
      SeenAreContenders(p, evs[..|evs| - 1], queue, t);
      SeenStep(p, evs, queue, t);
    }
  }

  /** The tenant's last sight is one of its contests, and a recent contest is in sight. */
  ghost predicate SeenLast(p: SchedulerConfig, evs: seq<Event>, ts: Contenders, queue: string, t: string) {
    && (t in ts ==> exists i :: Contended(p, evs, i, queue, t) && evs[i].at == ts[t].lastSeen)
    && (forall i | Contended(p, evs, i, queue, t) && evs[|evs| - 1].at - evs[i].at <= p.fairness.idleSeconds ::
          t in ts && evs[i].at <= ts[t].lastSeen)
  }

  lemma SeenStep(p: SchedulerConfig, evs: seq<Event>, queue: string, t: string)
    requires WellTimed(evs) && evs != [] && SeenLast(p, evs[..|evs| - 1], On(Run(p, evs[..|evs| - 1]).queues, queue), queue, t)
    ensures SeenLast(p, evs, On(Run(p, evs).queues, queue), queue, t)
  {
    hide Next, AsksFairShare, On, Contended, SeenLast;
    var n := |evs| - 1;
    NextSeen(p, Run(p, evs[..n]), evs[n], queue, t);
    OneMoreContended(p, evs, queue, t);
    var ts, ts' := On(Run(p, evs[..n]).queues, queue), On(Run(p, evs).queues, queue);
    hide Run;
    if Contended(p, evs, n, queue, t) {
      JustSeen(p, evs, ts', queue, t);
    } else {
      SeenBefore(p, evs, ts, ts', queue, t);
    }
  }

  lemma JustSeen(p: SchedulerConfig, evs: seq<Event>, ts: Contenders, queue: string, t: string)
    requires WellTimed(evs) && evs != [] && Contended(p, evs, |evs| - 1, queue, t) && t in ts && ts[t].lastSeen == evs[|evs| - 1].at
    ensures SeenLast(p, evs, ts, queue, t)
  {
    hide Contended;
    ContendedIsAnEvent(p, evs, queue, t);
  }

  lemma SeenBefore(p: SchedulerConfig, evs: seq<Event>, ts: Contenders, ts': Contenders, queue: string, t: string)
    requires WellTimed(evs) && evs != [] && SeenLast(p, evs[..|evs| - 1], ts, queue, t) && !Contended(p, evs, |evs| - 1, queue, t)
    requires t in ts' ==> t in ts && ts'[t].lastSeen == ts[t].lastSeen
    requires t in ts && evs[|evs| - 1].at - ts[t].lastSeen <= p.fairness.idleSeconds ==> t in ts'
    ensures SeenLast(p, evs, ts', queue, t)
  {
    hide Contended, WellTimed;
    var most := evs[..|evs| - 1];
    OneMoreContended(p, evs, queue, t);
    ContendedIsAnEvent(p, evs, queue, t);
    ContendedIsAnEvent(p, most, queue, t);
    if t in ts' {
      var i :| Contended(p, most, i, queue, t) && most[i].at == ts[t].lastSeen;
      assert Contended(p, evs, i, queue, t) && evs[i].at == ts'[t].lastSeen;
    }
    forall i | Contended(p, evs, i, queue, t) && evs[|evs| - 1].at - evs[i].at <= p.fairness.idleSeconds
      ensures t in ts' && evs[i].at <= ts'[t].lastSeen
    {
      assert Contended(p, most, i, queue, t);
      assert t in ts && most[i].at <= ts[t].lastSeen;
    }
  }

  lemma ContendedIsAnEvent(p: SchedulerConfig, evs: seq<Event>, queue: string, t: string)
    ensures forall i | Contended(p, evs, i, queue, t) :: 0 <= i < |evs|
  {
    hide Run, AsksFairShare;
  }

  lemma OneMoreContended(p: SchedulerConfig, evs: seq<Event>, queue: string, t: string)
    requires evs != [] && WellTimed(evs)
    ensures
      var n := |evs| - 1;
      && (forall i | i < n :: Contended(p, evs, i, queue, t) <==> Contended(p, evs[..n], i, queue, t))
      && (Contended(p, evs, n, queue, t) <==> AsksFor(evs[n], queue, t) && AsksFairShare(p, Run(p, evs[..n]), evs[n].req, evs[n].at))
      && (forall i | 0 <= i < n :: evs[i].at <= evs[n - 1].at <= evs[n].at)
  {
    hide Run, AsksFairShare;
    forall i | i < |evs| - 1 ensures Contended(p, evs, i, queue, t) <==> Contended(p, evs[..|evs| - 1], i, queue, t) {
      assert 0 <= i ==> evs[..|evs| - 1][..i] == evs[..i];
    }
  }

  /** Exactly who is active: a tenant competes on a queue at `now` if and only if one of its requests
      there reached the fair-share gate no longer than the idle time ago. */
  lemma ActiveIff(p: SchedulerConfig, evs: seq<Event>, queue: string, t: string, now: real)
    requires WellTimed(evs) && (evs != [] ==> evs[|evs| - 1].at <= now)
    ensures t in ActiveOn(p, Run(p, evs), queue, now)
       <==> exists i :: Contended(p, evs, i, queue, t) && now - evs[i].at <= p.fairness.idleSeconds
  {
    SeenAreContenders(p, evs, queue, t);
    ContendedIsAnEvent(p, evs, queue, t);
    assert forall i | 0 <= i < |evs| :: evs[i].at <= evs[|evs| - 1].at;
    hide Run, WellTimed, On, Contended;
    var ts := On(Run(p, evs).queues, queue);
    assert t in ActiveOn(p, Run(p, evs), queue, now) <==> t in ts && now - ts[t].lastSeen <= p.fairness.idleSeconds;
    if i :| Contended(p, evs, i, queue, t) && now - evs[i].at <= p.fairness.idleSeconds {
      assert t in ts && evs[i].at <= ts[t].lastSeen;
    }
  }

  // ---- What the counters count -------------------------------------------------------------------------

  ghost function DecisionAt(p: SchedulerConfig, evs: seq<Event>, i: nat): AdmissionDecision
    requires i < |evs| && evs[i].Ask?
  {
    AdmitStep(p, Run(p, evs[..i]), evs[i].req, evs[i].at).1
  }

  /** How many calls were of the given kind and decided in the given way. */
  ghost function Calls(p: SchedulerConfig, evs: seq<Event>, f: (AdmissionRequest, AdmissionDecision) -> bool): nat {
    if evs == [] then 0
    else
      var n := |evs| - 1;
      Calls(p, evs[..n], f) + (if evs[n].Ask? && f(evs[n].req, DecisionAt(p, evs, n)) then 1 else 0)
  }

  /** How many reports found their token holding a slot of the queue. */
  ghost function Releases(p: SchedulerConfig, evs: seq<Event>, queue: string): nat {
    if evs == [] then 0
    else
      var n := |evs| - 1;
      var slots := Run(p, evs[..n]).inflight.slots;
      Releases(p, evs[..n], queue)
      + (if evs[n].Report? && TokenOf(evs[n]) in slots && slots[TokenOf(evs[n])].queue == queue then 1 else 0)
  }

  lemma NextCounts(p: SchedulerConfig, e: EngineState, ev: Event, rule: Rule, outcome: Outcome, queue: string, provider: string)
    ensures
      var s, s' := e, Next(p, e, ev);
      var d := if ev.Ask? then Some(AdmitStep(p, e, ev.req, ev.at).1) else None;
      && Count(s'.stats.byRule, rule) == Count(s.stats.byRule, rule) + (if d.Some? && d.value.rule == rule then 1 else 0)
      && Count(s'.stats.byOutcome, outcome) == Count(s.stats.byOutcome, outcome) + (if d.Some? && d.value.outcome == outcome then 1 else 0)
      && Count(s'.stats.byQueueOutcome, (queue, outcome)) == Count(s.stats.byQueueOutcome, (queue, outcome))
           + (if d.Some? && d.value.outcome == outcome && ev.req.taskQueue == queue then 1 else 0)
      && (provider != "" ==>
            Count(s'.stats.rateLimitDefers, provider) == Count(s.stats.rateLimitDefers, provider)
              + (if d.Some? && d.value.rule.RateLimitRule? && ev.req.provider == Some(provider) then 1 else 0))
  {
    if ev.Ask? {
      var d := Govern(p, e, ev.req, ev.at).1;
      assert Govern(p, e, ev.req, ev.at).0.stats == e.stats by { RestAfter(p, e, ev.req, ev.at); }
      hide Govern, Bump, Count;
      BumpCounts(e.stats.byRule, d.rule, rule);
      BumpCounts(e.stats.byOutcome, d.outcome, outcome);
      BumpCounts(e.stats.byQueueOutcome, (ev.req.taskQueue, d.outcome), (queue, outcome));
      if Named(ev.req.provider) { BumpCounts(e.stats.rateLimitDefers, ev.req.provider.value, provider); }
    } else {
      hide WithSpend, Release, Swept, ActiveOn, Count;
    }
  }

  lemma NextLane(p: SchedulerConfig, e: EngineState, ev: Event, queue: string, priority: int)
    ensures
      Count(Next(p, e, ev).lanes, (queue, priority)) == Count(e.lanes, (queue, priority))
        + (if Admits(p, e, ev) && ev.req.taskQueue == queue && ev.req.priority == priority then 1 else 0)
  {
    if ev.Ask? {
      RestAfter(p, e, ev.req, ev.at);
      hide Govern, Swept, Take, QueueSays, BudgetSays, Bump, Count, Counted;
      BumpCounts(e.lanes, (ev.req.taskQueue, ev.req.priority), (queue, priority));
    } else {
      hide WithSpend, Release, Swept, ActiveOn, Count;
    }
  }

  lemma CallsFollow(p: SchedulerConfig, evs: seq<Event>, f: (AdmissionRequest, AdmissionDecision) -> bool)
    requires evs != []
    ensures
      var n := |evs| - 1;
      Calls(p, evs, f) == Calls(p, evs[..n], f) + (if evs[n].Ask? && f(evs[n].req, DecisionAt(p, evs, n)) then 1 else 0)
  {}

  /** Every counter of the engine counts what it says: decisions by rule, by outcome, by queue and
      outcome, rate-limit deferrals by provider, admissions by queue and lane. */
  lemma {:induction false} CountersAreExact(
    p: SchedulerConfig, evs: seq<Event>, rule: Rule, outcome: Outcome, queue: string, priority: int, provider: string)
    ensures
      var e := Run(p, evs);
      && Count(e.stats.byRule, rule) == Calls(p, evs, OfRule(rule))
      && Count(e.stats.byOutcome, outcome) == Calls(p, evs, OfOutcome(outcome))
      && Count(e.stats.byQueueOutcome, (queue, outcome)) == Calls(p, evs, OnQueue(queue, outcome))
      && (provider != "" ==> Count(e.stats.rateLimitDefers, provider) == Calls(p, evs, RateLimited(provider)))
      && Count(e.lanes, (queue, priority)) == Calls(p, evs, InLane(queue, priority))
  {
    if evs != [] {
      hide Next, AdmitStep, Count, Calls;
      var n := |evs| - 1;
      CountersAreExact(p, evs[..n], rule, outcome, queue, priority, provider);
      NextCounts(p, Run(p, evs[..n]), evs[n], rule, outcome, queue, provider);
      NextLane(p, Run(p, evs[..n]), evs[n], queue, priority);
      CallsFollow(p, evs, OfRule(rule));
      CallsFollow(p, evs, OfOutcome(outcome));
      CallsFollow(p, evs, OnQueue(queue, outcome));
      CallsFollow(p, evs, RateLimited(provider));
      CallsFollow(p, evs, InLane(queue, priority));
    }
  }

  function OfRule(rule: Rule): (AdmissionRequest, AdmissionDecision) -> bool { (_, d: AdmissionDecision) => d.rule == rule }

  function OfOutcome(outcome: Outcome): (AdmissionRequest, AdmissionDecision) -> bool {
    (_, d: AdmissionDecision) => d.outcome == outcome
  }

  function OnQueue(queue: string, outcome: Outcome): (AdmissionRequest, AdmissionDecision) -> bool {
    (r: AdmissionRequest, d: AdmissionDecision) => d.outcome == outcome && r.taskQueue == queue
  }

  function RateLimited(provider: string): (AdmissionRequest, AdmissionDecision) -> bool {
    (r: AdmissionRequest, d: AdmissionDecision) => d.rule.RateLimitRule? && r.provider == Some(provider)
  }

  function InLane(queue: string, priority: int): (AdmissionRequest, AdmissionDecision) -> bool {
    (r: AdmissionRequest, d: AdmissionDecision) => d.outcome.Admit? && r.taskQueue == queue && r.priority == priority
  }

  lemma NextSlotCounts(p: SchedulerConfig, e: EngineState, ev: Event, queue: string)
    ensures
      var t, t' := e.inflight, Next(p, e, ev).inflight;
      && Count(t'.admitted, queue) == Count(t.admitted, queue) + (if Admits(p, e, ev) && ev.req.taskQueue == queue then 1 else 0)
      && Count(t'.completed, queue) == Count(t.completed, queue)
           + (if ev.Report? && TokenOf(ev) in t.slots && t.slots[TokenOf(ev)].queue == queue then 1 else 0)
  {
    if ev.Ask? { RestAfter(p, e, ev.req, ev.at); }
    hide Govern, Counted, Tally, Timely, WithSpend, QueueSays, BudgetSays, ActiveOn, Token, Count, Bump;
    if ev.Ask? { BumpCounts(e.inflight.admitted, ev.req.taskQueue, queue); }
    if ev.Report? && TokenOf(ev) in e.inflight.slots { BumpCounts(e.inflight.completed, e.inflight.slots[TokenOf(ev)].queue, queue); }
  }

  /** The tracker's counters too: a queue's admissions, and its reports that freed a slot. (What
      expired is then given by conservation.) */
  lemma {:induction false} SlotCountersAreExact(p: SchedulerConfig, evs: seq<Event>, queue: string)
    ensures Count(Run(p, evs).inflight.admitted, queue)
         == Calls(p, evs, OnQueue(queue, Outcome.Admit))
    ensures Count(Run(p, evs).inflight.completed, queue) == Releases(p, evs, queue)
  {
    if evs != [] {
      hide Next, AdmitStep, Count, TokenOf, Calls;
      var n := |evs| - 1;
      SlotCountersAreExact(p, evs[..n], queue);
      CallsFollow(p, evs, OnQueue(queue, Outcome.Admit));
      NextSlotCounts(p, Run(p, evs[..n]), evs[n], queue);
    }
  }
}
