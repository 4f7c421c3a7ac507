/** In-flight slots with a time-to-live, and the watermark rule
    (services/scheduler/ancora_scheduler/backlog.py). */
module Backlog {
  import opened Common

  datatype Slot = Slot(queue: string, admittedAt: real)

  /** Slots by token, cumulative counters by queue, and `replaced`: admissions whose slot a
      retry of the same node took over, a number the program does not keep. */
  datatype Tracker = Tracker(
    slots: map<string, Slot>,
    admitted: map<string, nat>, completed: map<string, nat>, expired: map<string, nat>,
    replaced: map<string, nat>)

  const FRESH := Tracker(map[], map[], map[], map[], map[])

  predicate Overdue(s: Slot, ttl: real, now: real) { now - s.admittedAt > ttl }

  /** Tokens holding a slot of `queue`. */
  function Holders(slots: map<string, Slot>, queue: string): set<string> {
    set k | k in slots && slots[k].queue == queue
  }

  function Late(slots: map<string, Slot>, ttl: real, now: real): map<string, Slot> {
    map k | k in slots && Overdue(slots[k], ttl, now) :: slots[k]
  }

  function Timely(slots: map<string, Slot>, ttl: real, now: real): map<string, Slot> {
    map k | k in slots && !Overdue(slots[k], ttl, now) :: slots[k]
  }

  function Queues(slots: map<string, Slot>): set<string> { set k | k in slots :: slots[k].queue }

  /** The counters after every slot in `gone` was counted once on its queue. */
  function Tally(before: map<string, nat>, gone: map<string, Slot>): map<string, nat> {
    map q | q in before.Keys + Queues(gone) :: Count(before, q) + |Holders(gone, q)|
  }

  /** Sweeping drops exactly the overdue slots and counts each as expired. */
  function Swept(t: Tracker, ttl: real, now: real): Tracker {
    t.(slots := Timely(t.slots, ttl, now), expired := Tally(t.expired, Late(t.slots, ttl, now)))
  }

  function Take(t: Tracker, token: string, queue: string, now: real): Tracker {
    t.(slots := t.slots[token := Slot(queue, now)],
       admitted := Bump(t.admitted, queue),
       replaced := if token in t.slots then Bump(t.replaced, t.slots[token].queue) else t.replaced)
  }

  function Release(t: Tracker, token: string): (Tracker, bool) {
    if token in t.slots then
      (t.(slots := t.slots - {token}, completed := Bump(t.completed, t.slots[token].queue)), true)
    else (t, false)
  }

  class InflightTracker {
    const ttlSeconds: real
    var entries: map<string, Slot>
    var admittedTotal: map<string, nat>
    var completedTotal: map<string, nat>
    var expiredTotal: map<string, nat>
    ghost var replacedTotal: map<string, nat>

    ghost function State(): Tracker
      reads this
    {
      Tracker(entries, admittedTotal, completedTotal, expiredTotal, replacedTotal)
    }

    constructor (ttlSeconds: real)
      ensures this.ttlSeconds == ttlSeconds && State() == FRESH
    {
      this.ttlSeconds := ttlSeconds;
      entries, admittedTotal, completedTotal, expiredTotal, replacedTotal := map[], map[], map[], map[], map[];
    }

    method Sweep(now: real)
      modifies this
      ensures State() == Swept(old(State()), ttlSeconds, now)
    {
      hide Tally, Overdue, Holders, Late, Timely;
      var due := set k | k in entries && Overdue(entries[k], ttlSeconds, now);
      ghost var all, late := entries, Late(entries, ttlSeconds, now);
      LateAndTimely(all, ttlSeconds, now);
      CountedNothing(expiredTotal);
      assert late - due == map[];
      while due != {}
        invariant due <= late.Keys
        invariant entries == all - (late - due).Keys
        invariant expiredTotal == Tally(old(expiredTotal), late - due)
        invariant State() == old(State()).(slots := entries, expired := expiredTotal)
        decreases due
      {
        var k :| k in due;
        var queue := entries[k].queue;
        CountOneMore(old(expiredTotal), late - due, k, late[k]);
        assert (late - due)[k := late[k]] == late - (due - {k});
        entries := entries - {k};
        expiredTotal := expiredTotal[queue := (if queue in expiredTotal then expiredTotal[queue] else 0) + 1];
        due := due - {k};
      }
      assert late - due == late;
    }

    /** Overdue slots go first; a slot the token already holds is taken over. */
    method Admit(token: string, queue: string, now: real)
      modifies this
      ensures State() == Take(Swept(old(State()), ttlSeconds, now), token, queue, now)
    {
      Sweep(now);
      replacedTotal := if token in entries then Bump(replacedTotal, entries[token].queue) else replacedTotal;
      entries := entries[token := Slot(queue, now)];
      admittedTotal := admittedTotal[queue := (if queue in admittedTotal then admittedTotal[queue] else 0) + 1];
    }

    /** Frees the token's slot, if it still holds one. */
    method Complete(token: string) returns (released: bool)
      modifies this
      ensures (State(), released) == Release(old(State()), token)
    {
      if token !in entries {
        return false;
      }
      var queue := entries[token].queue;
      entries := entries - {token};
      completedTotal := completedTotal[queue := (if queue in completedTotal then completedTotal[queue] else 0) + 1];
      released := true;
    }

    method Depth(queue: string, now: real) returns (depth: nat)
      modifies this
      ensures State() == Swept(old(State()), ttlSeconds, now)
      ensures depth == |Holders(entries, queue)|
    {
      Sweep(now);
      depth := 0;
      var todo := entries.Keys;
      ghost var seen: set<string> := {};
      while todo != {}
        invariant todo <= entries.Keys && seen == Holders(entries, queue) - todo
        invariant depth == |seen|
        invariant State() == Swept(old(State()), ttlSeconds, now)
        decreases todo
      {
        var k :| k in todo;
        if entries[k].queue == queue {
          depth := depth + 1;
          seen := seen + {k};
        }
        todo := todo - {k};
      }
    }
  }

  lemma LateAndTimely(slots: map<string, Slot>, ttl: real, now: real)
    ensures Timely(slots, ttl, now) == slots - Late(slots, ttl, now).Keys
    ensures Late(slots, ttl, now).Keys == set k | k in slots && Overdue(slots[k], ttl, now)
    ensures forall k | k in Late(slots, ttl, now) :: k in slots && Late(slots, ttl, now)[k] == slots[k]
  {}

  lemma HoldersPut(slots: map<string, Slot>, k: string, s: Slot, q: string)
    requires k !in slots
    ensures |Holders(slots[k := s], q)| == |Holders(slots, q)| + (if q == s.queue then 1 else 0)
  {
    assert Holders(slots[k := s], q) == if q == s.queue then Holders(slots, q) + {k} else Holders(slots, q);
  }

  lemma HoldersDrop(slots: map<string, Slot>, k: string, q: string)
    requires k in slots
    ensures |Holders(slots, q)| == |Holders(slots - {k}, q)| + (if q == slots[k].queue then 1 else 0)
  {
    assert slots == (slots - {k})[k := slots[k]];
    HoldersPut(slots - {k}, k, slots[k], q);
  }

  lemma CountedNothing(m: map<string, nat>)
    ensures Tally(m, map[]) == m
  {
    assert Queues(map[]) == {};
    assert forall q :: Holders(map[], q) == {};
  }

  lemma QueuesPut(gone: map<string, Slot>, k: string, s: Slot)
    requires k !in gone
    ensures Queues(gone[k := s]) == Queues(gone) + {s.queue}
  {
    var gone' := gone[k := s];
    forall q | q in Queues(gone) + {s.queue} ensures q in Queues(gone') {
      var j :| if q == s.queue then j == k else j in gone && gone[j].queue == q;
      assert j in gone' && gone'[j].queue == q;
    }
  }

  lemma CountOneMore(before: map<string, nat>, gone: map<string, Slot>, k: string, s: Slot)
    requires k !in gone
    ensures Tally(before, gone[k := s]) == Bump(Tally(before, gone), s.queue)
  {
    hide Holders, Queues;
    QueuesPut(gone, k, s);
    var left, right := Tally(before, gone[k := s]), Bump(Tally(before, gone), s.queue);
    assert left.Keys == right.Keys;
    forall q | q in left.Keys
      ensures left[q] == right[q]
    {
      HoldersPut(gone, k, s, q);
      if q !in before.Keys + Queues(gone) {
        NobodyElsewhere(gone, q);
      }
    }
  }

  lemma NobodyElsewhere(gone: map<string, Slot>, q: string)
    requires q !in Queues(gone)
    ensures Holders(gone, q) == {}
  {}

  lemma TallyCounts(before: map<string, nat>, gone: map<string, Slot>, q: string)
    ensures Count(Tally(before, gone), q) == Count(before, q) + |Holders(gone, q)|
  {
    hide Holders, Queues;
    if q !in Queues(gone) {
      NobodyElsewhere(gone, q);
    }
  }

  lemma NothingOverdue(t: Tracker, ttl: real)
    requires ttl >= 0.0 && forall k | k in t.slots :: t.slots[k].admittedAt == 0.0
    ensures Swept(t, ttl, 0.0) == t
  {
    hide Tally;
    assert Late(t.slots, ttl, 0.0) == map[] && Timely(t.slots, ttl, 0.0) == t.slots;
    CountedNothing(t.expired);
  }

  // ---- Slot conservation ---------------------------------------------------------

  /** The admissions of a queue are accounted for exactly once each. */
  ghost predicate Balanced(t: Tracker, q: string) {
    Count(t.admitted, q) == Count(t.completed, q) + Count(t.expired, q) + |Holders(t.slots, q)| + Count(t.replaced, q)
  }

  ghost predicate Conserved(t: Tracker) {
    forall q :: Balanced(t, q)
  }

  lemma SweepConserves(t: Tracker, ttl: real, now: real)
    requires Conserved(t)
    ensures Conserved(Swept(t, ttl, now))
    ensures forall q :: |Holders(Swept(t, ttl, now).slots, q)| <= |Holders(t.slots, q)|
  {
    hide Balanced, Holders, Swept;
    var t' := Swept(t, ttl, now);
    forall q ensures Balanced(t', q) && |Holders(t'.slots, q)| <= |Holders(t.slots, q)| {
      SweepBalances(t, ttl, now, q);
    }
  }

  lemma SweepBalances(t: Tracker, ttl: real, now: real, q: string)
    requires Balanced(t, q)
    ensures Balanced(Swept(t, ttl, now), q)
    ensures |Holders(Swept(t, ttl, now).slots, q)| <= |Holders(t.slots, q)|
  {
    hide Count, Overdue, Tally, Holders, Late, Timely;
    TallyCounts(t.expired, Late(t.slots, ttl, now), q);
    HoldersSplit(t.slots, ttl, now, q);
  }

  lemma HoldersSplit(slots: map<string, Slot>, ttl: real, now: real, q: string)
    ensures |Holders(slots, q)| == |Holders(Timely(slots, ttl, now), q)| + |Holders(Late(slots, ttl, now), q)|
  {
    hide Overdue;
    var stay, go := Holders(Timely(slots, ttl, now), q), Holders(Late(slots, ttl, now), q);
    assert Holders(slots, q) == stay + go;
    assert stay !! go;
  }

  lemma TakeConserves(t: Tracker, token: string, queue: string, now: real)
    requires Conserved(t)
    ensures Conserved(Take(t, token, queue, now))
    ensures forall q :: |Holders(Take(t, token, queue, now).slots, q)| <= |Holders(t.slots, q)| + (if q == queue then 1 else 0)
  {
    hide Count, Holders, Bump;
    var t' := Take(t, token, queue, now);
    var vacated := t.slots - {token};
    assert t'.slots == vacated[token := Slot(queue, now)];
    forall q
      ensures Balanced(t', q) && |Holders(t'.slots, q)| <= |Holders(t.slots, q)| + (if q == queue then 1 else 0)
    {
      assert Balanced(t, q);
      BumpCounts(t.admitted, queue, q);
      HoldersPut(vacated, token, Slot(queue, now), q);
      if token in t.slots {
        HoldersDrop(t.slots, token, q);
        BumpCounts(t.replaced, t.slots[token].queue, q);
      } else {
        assert vacated == t.slots;
      }
    }
  }

  lemma ReleaseConserves(t: Tracker, token: string)
    requires Conserved(t)
    ensures Conserved(Release(t, token).0)
    ensures forall q :: |Holders(Release(t, token).0.slots, q)| <= |Holders(t.slots, q)|
  {
    hide Count, Holders, Bump;
    var t' := Release(t, token).0;
    forall q ensures Balanced(t', q) && |Holders(t'.slots, q)| <= |Holders(t.slots, q)| {
      assert Balanced(t, q);
      if token in t.slots {
        HoldersDrop(t.slots, token, q);
        BumpCounts(t.completed, t.slots[token].queue, q);
      }
    }
  }

  /** An admission adds a slot to its queue exactly when its token holds none there already. */
  lemma OwnSlotIff(t: Tracker, token: string, queue: string, now: real)
    ensures |Holders(Take(t, token, queue, now).slots, queue)| == |Holders(t.slots, queue)| + 1
       <==> !(token in t.slots && t.slots[token].queue == queue)
  {
    hide Holders;
    var vacated := t.slots - {token};
    assert Take(t, token, queue, now).slots == vacated[token := Slot(queue, now)];
    HoldersPut(vacated, token, Slot(queue, now), queue);
    if token in t.slots {
      HoldersDrop(t.slots, token, queue);
    } else {
      assert vacated == t.slots;
    }
  }

  // ---- The watermark rule ---------------------------------------------------------

  datatype Watermark = Watermark(soft: nat, hard: nat, backoffSeconds: real, maxBackoffSeconds: real)

  datatype BackpressureDecision = BackpressureDecision(admitted: bool, retryAfter: real)

  /** How long a caller deferred at `depth` is told to wait: linear in the overshoot, capped. */
  function Backoff(mark: Watermark, depth: nat): real
    requires mark.soft <= depth
  {
    MinR(mark.backoffSeconds * (1.0 + Overshoot(mark, depth)), mark.maxBackoffSeconds)
  }

  /** How far `depth` is past the soft mark, in units of the distance between the marks. */
  function Overshoot(mark: Watermark, depth: nat): real
    requires mark.soft <= depth
  {
    var span := if mark.hard - mark.soft >= 1 then mark.hard - mark.soft else 1;
    (depth - mark.soft) as real / span as real
  }

  function EvaluateBackpressure(depth: nat, mark: Watermark, priority: int, cutoff: int): BackpressureDecision {
    if depth < mark.soft then BackpressureDecision(true, 0.0)
    else if depth >= mark.hard then BackpressureDecision(false, Backoff(mark, depth))
    else if priority <= cutoff then BackpressureDecision(true, 0.0)
    else BackpressureDecision(false, Backoff(mark, depth))
  }

  function Ceiling(mark: Watermark): nat { if mark.soft <= mark.hard then mark.hard else mark.soft }

  /** Admission only below the higher of the two marks; a more urgent lane is never
      treated worse; and a deeper queue never shortens the wait, up to the cap. */
  lemma WatermarkRule(depth: nat, deeper: nat, mark: Watermark, priority: int, urgent: int, cutoff: int)
    requires depth <= deeper && urgent <= priority
    requires 0.0 < mark.backoffSeconds && 0.0 < mark.maxBackoffSeconds
    ensures EvaluateBackpressure(depth, mark, priority, cutoff).admitted ==> depth < Ceiling(mark)
    ensures EvaluateBackpressure(deeper, mark, priority, cutoff).admitted
        ==> EvaluateBackpressure(depth, mark, urgent, cutoff).admitted
    ensures EvaluateBackpressure(depth, mark, priority, cutoff).retryAfter
         <= EvaluateBackpressure(deeper, mark, priority, cutoff).retryAfter <= mark.maxBackoffSeconds
  {
    hide Backoff;
    if mark.soft <= deeper {
      BackoffGrows(mark, if mark.soft <= depth then depth else mark.soft, deeper);
    }
  }

  lemma BackoffGrows(mark: Watermark, depth: nat, deeper: nat)
    requires mark.soft <= depth <= deeper
    requires 0.0 < mark.backoffSeconds && 0.0 < mark.maxBackoffSeconds
    ensures 0.0 <= Backoff(mark, depth) <= Backoff(mark, deeper) <= mark.maxBackoffSeconds
  {
    hide Overshoot;
    OvershootGrows(mark, depth, deeper);
    ScaleGrows(mark.backoffSeconds, 1.0 + Overshoot(mark, depth), 1.0 + Overshoot(mark, deeper));
  }

  lemma OvershootGrows(mark: Watermark, depth: nat, deeper: nat)
    requires mark.soft <= depth <= deeper
    ensures 0.0 <= Overshoot(mark, depth) <= Overshoot(mark, deeper)
  {}

  lemma ScaleGrows(scale: real, a: real, b: real)
    requires scale > 0.0 && 0.0 <= a <= b
    ensures 0.0 <= scale * a <= scale * b
  {}

  /** The exact verdict: everything below soft, lanes up to the cutoff between the marks, nothing
      from hard on. */
  lemma AdmittedByMarksIff(depth: nat, mark: Watermark, priority: int, cutoff: int)
    ensures EvaluateBackpressure(depth, mark, priority, cutoff).admitted
       <==> depth < mark.soft || (depth < mark.hard && priority <= cutoff)
  {}

  /** The exact wait: the base at the soft mark and one base more for each distance between the
      marks beyond it, up to the cap. */
  lemma WaitGrowsByTheBase(mark: Watermark, depth: nat, priority: int, cutoff: int)
    requires !EvaluateBackpressure(depth, mark, priority, cutoff).admitted
    ensures
      var wait, past := EvaluateBackpressure(depth, mark, priority, cutoff).retryAfter, (depth - mark.soft) as real;
      var apart := if mark.soft < mark.hard then (mark.hard - mark.soft) as real else 1.0;
      && (mark.backoffSeconds * (apart + past) <= mark.maxBackoffSeconds * apart ==> wait * apart == mark.backoffSeconds * (apart + past))
      && (mark.backoffSeconds * (apart + past) > mark.maxBackoffSeconds * apart ==> wait == mark.maxBackoffSeconds)
      && (depth == mark.soft ==> wait == MinR(mark.backoffSeconds, mark.maxBackoffSeconds))
      && (past == apart ==> wait == MinR(2.0 * mark.backoffSeconds, mark.maxBackoffSeconds))
  {
    var past, apart := (depth - mark.soft) as real, if mark.soft < mark.hard then (mark.hard - mark.soft) as real else 1.0;
    var over := Overshoot(mark, depth);
    assert over * apart == past;
    hide Overshoot;
    ScaledWait(mark.backoffSeconds, mark.maxBackoffSeconds, over, apart, past);
  }

  lemma ScaledWait(base: real, cap: real, over: real, apart: real, past: real)
    requires apart > 0.0 && over * apart == past
    ensures base * (1.0 + over) * apart == base * (apart + past)
    ensures base * (apart + past) <= cap * apart <==> base * (1.0 + over) <= cap
    ensures past == 0.0 ==> base * (1.0 + over) == base
    ensures past == apart ==> base * (1.0 + over) == 2.0 * base
  {
    SameFactor(over, 0.0, apart);
    SameFactor(over, 1.0, apart);
    ScaledCap(base, cap, over, apart, past);
  }

  lemma ScaledCap(base: real, cap: real, over: real, apart: real, past: real)
    requires apart > 0.0 && over * apart == past
    ensures base * (1.0 + over) * apart == base * (apart + past)
    ensures base * (apart + past) <= cap * apart <==> base * (1.0 + over) <= cap
  {
    Distribute(base, over, apart, past);
    SameFactor(base * (1.0 + over), cap, apart);
  }

  lemma Distribute(base: real, over: real, apart: real, past: real)
    requires over * apart == past
    ensures base * (1.0 + over) * apart == base * (apart + past)
  {
    assert (1.0 + over) * apart == apart + past;
    assert base * (1.0 + over) * apart == base * ((1.0 + over) * apart);
  }

  lemma SameFactor(x: real, y: real, k: real)
    requires k > 0.0
    ensures x * k <= y * k <==> x <= y
    ensures x * k == y * k <==> x == y
  {
    if x < y { assert (y - x) * k > 0.0; }
    if y < x { assert (x - y) * k > 0.0; }
  }

  /** "At or above hard everything defers" holds exactly when the marks are in order; a
      `hard` left at its default below `soft` is not compared with it. */
  lemma HardMarkStopsAllIffOrdered(mark: Watermark, priority: int, cutoff: int)
    ensures (forall depth: nat | depth >= mark.hard :: !EvaluateBackpressure(depth, mark, priority, cutoff).admitted)
       <==> mark.soft <= mark.hard
  {
    if mark.hard < mark.soft {
      assert EvaluateBackpressure(mark.hard, mark, priority, cutoff).admitted;
    }
  }
}
