/** Token buckets: the refill arithmetic, the in-process limiter and the Lua script
    (packages/common/ancora_common/ratelimit.py). Time is in seconds on one clock. */
module RateLimit {
  import opened Common

  datatype RateShape = RateShape(rps: real, burst: real)

  /** A shape the constructor accepts: both numbers positive. */
  type RateLimitConfig = c: RateShape | c.rps > 0.0 && c.burst > 0.0 witness RateShape(1.0, 1.0)

  datatype Bucket = Bucket(tokens: real, ts: real)

  datatype AdmitDecision = AdmitDecision(admitted: bool, retryAfter: real)

  /** Tokens that flow in over a span of time. */
  function Inflow(cfg: RateLimitConfig, span: real): real { span * cfg.rps }

  /** The bucket after one poll for `want` tokens, and the verdict: taken whole or not at all. */
  function RefillAndTake(b: Bucket, now: real, cfg: RateLimitConfig, want: real): (Bucket, AdmitDecision) {
    var elapsed := MaxR(0.0, now - b.ts);
    var available := MinR(cfg.burst, b.tokens + Inflow(cfg, elapsed));
    if available >= want then
      (Bucket(available - want, now), AdmitDecision(true, 0.0))
    else
      (Bucket(available, now), AdmitDecision(false, (want - available) / cfg.rps))
  }

  /** What the limiter remembers of one key: nothing yet, or its bucket. */
  type Memory = Option<Bucket>

  function Recall(m: Memory, cfg: RateLimitConfig, now: real): Bucket {
    if m.Some? then m.value else Bucket(cfg.burst, now)
  }

  /** Tokens a poll at `now` would find. */
  function Available(m: Memory, cfg: RateLimitConfig, now: real): real {
    var b := Recall(m, cfg, now);
    MinR(cfg.burst, b.tokens + Inflow(cfg, MaxR(0.0, now - b.ts)))
  }

  function Lookup(state: map<string, Bucket>, key: string): Memory {
    if key in state then Some(state[key]) else None
  }

  /** One call of the in-process limiter, on values. */
  function LimiterStep(state: map<string, Bucket>, key: string, cfg: RateLimitConfig, want: real, now: real)
    : (map<string, Bucket>, AdmitDecision)
  {
    var (b, d) := RefillAndTake(Recall(Lookup(state, key), cfg, now), now, cfg, want);
    (state[key := b], d)
  }

  class InMemoryRateLimiter {
    var state: map<string, Bucket>

    constructor ()
      ensures state == map[]
    {
      state := map[];
    }

    method Admit(key: string, cfg: RateLimitConfig, want: real, now: real) returns (decision: AdmitDecision)
      modifies this
      ensures (state, decision) == LimiterStep(old(state), key, cfg, want, now)
    {
      var bucket := Bucket(cfg.burst, now);
      if key in state {
        bucket := state[key];
      }
      var (next, verdict) := RefillAndTake(bucket, now, cfg, want);
      state := state[key := next];
      decision := verdict;
    }
  }

  // ---- What one poll means ------------------------------------------------------

  /** The stored level lies in [0, burst] unless a caller took a negative amount, and its clock is not ahead. */
  predicate Sound(m: Memory, now: real) {
    m.Some? ==> m.value.tokens >= 0.0 && m.value.ts <= now
  }

  lemma InflowAdds(cfg: RateLimitConfig, a: real, b: real, c: real)
    ensures Inflow(cfg, c - a) == Inflow(cfg, b - a) + Inflow(cfg, c - b)
  {}

  lemma InflowGrows(cfg: RateLimitConfig, span: real)
    ensures Inflow(cfg, 0.0) == 0.0
    ensures span >= 0.0 ==> Inflow(cfg, span) >= 0.0
    ensures span > 0.0 ==> Inflow(cfg, span) > 0.0
  {}

  lemma InflowOfQuotient(cfg: RateLimitConfig, x: real)
    ensures Inflow(cfg, x / cfg.rps) == x
    ensures x > 0.0 ==> x / cfg.rps > 0.0
  {}

  /** Levels stay nonnegative whatever is asked for, so an empty bucket is the worst case. */
  lemma PollIsSound(m: Memory, cfg: RateLimitConfig, want: real, now: real)
    requires Sound(m, now)
    ensures 0.0 <= Available(m, cfg, now) <= cfg.burst
    ensures Sound(Some(RefillAndTake(Recall(m, cfg, now), now, cfg, want).0), now)
  {
    hide Inflow;
    InflowGrows(cfg, 0.0);
    if m.Some? {
      InflowGrows(cfg, now - m.value.ts);
    }
  }

  /** A refused poll is invisible: at every later instant the bucket holds exactly
      what it would have held had nobody asked. */
  lemma RefusalLeavesNoTrace(m: Memory, cfg: RateLimitConfig, want: real, now: real, later: real)
    requires Sound(m, now) && now <= later
    requires !RefillAndTake(Recall(m, cfg, now), now, cfg, want).1.admitted
    ensures Available(Some(RefillAndTake(Recall(m, cfg, now), now, cfg, want).0), cfg, later)
         == Available(m, cfg, later)
  {
    hide Inflow;
    InflowGrows(cfg, later - now);
    if m.Some? {
      InflowGrows(cfg, now - m.value.ts);
      InflowAdds(cfg, m.value.ts, now, later);
    }
  }

  /** The bucket holds the same at every instant from `now` on, seen through `rule`. */
  ghost predicate LevelKept(before: Memory, after: Memory, rule: RateLimitConfig, now: real) {
    forall at | now <= at :: Available(after, rule, at) == Available(before, rule, at)
  }

  /** Refilling under `cfg` first leaves what `rule` finds as it is. */
  predicate RefillsAlike(m: Memory, cfg: RateLimitConfig, rule: RateLimitConfig, now: real) {
    MinR(rule.burst, Available(m, cfg, now)) == Available(m, rule, now)
  }

  /** Through another rule a refused poll is invisible exactly when refilling under its own rule
      is: that refill stores no more than its own burst, and no more or less than its own rate gives. */
  lemma RefusalIsInvisibleIff(m: Memory, cfg: RateLimitConfig, rule: RateLimitConfig, want: real, now: real)
    requires Sound(m, now) && !RefillAndTake(Recall(m, cfg, now), now, cfg, want).1.admitted
    ensures LevelKept(m, Some(RefillAndTake(Recall(m, cfg, now), now, cfg, want).0), rule, now) <==> RefillsAlike(m, cfg, rule, now)
  {
    var after := Some(RefillAndTake(Recall(m, cfg, now), now, cfg, want).0);
    hide Inflow;
    InflowGrows(rule, 0.0);
    assert Available(after, rule, now) == MinR(rule.burst, Available(m, cfg, now));
    if RefillsAlike(m, cfg, rule, now) {
      forall at | now <= at ensures Available(after, rule, at) == Available(m, rule, at) {
        InflowGrows(rule, at - now);
        if m.Some? {
          InflowGrows(rule, now - m.value.ts);
          InflowAdds(rule, m.value.ts, now, at);
        }
      }
    }
  }

  /** Between polls a bucket gains at most `rps` per second. */
  lemma RefillIsBounded(m: Memory, cfg: RateLimitConfig, now: real, later: real)
    requires Sound(m, now) && now <= later
    ensures Available(m, cfg, now) <= Available(m, cfg, later)
    ensures Available(m, cfg, later) <= Available(m, cfg, now) + Inflow(cfg, later - now)
  {
    hide Inflow;
    InflowGrows(cfg, later - now);
    if m.Some? {
      InflowGrows(cfg, now - m.value.ts);
      InflowAdds(cfg, m.value.ts, now, later);
    }
  }

  /** `retry_after` is the exact earliest instant at which the same request passes an
      otherwise quiet bucket, provided the request fits the bucket at all. A request
      larger than the burst is told a finite wait and yet never passes. */
  lemma RetryAfterIsExactIffItFits(m: Memory, cfg: RateLimitConfig, want: real, now: real, later: real)
    requires Sound(m, now) && now <= later
    requires !RefillAndTake(Recall(m, cfg, now), now, cfg, want).1.admitted
    ensures
      var (b, d) := RefillAndTake(Recall(m, cfg, now), now, cfg, want);
      RefillAndTake(b, later, cfg, want).1.admitted <==> want <= cfg.burst && later >= now + d.retryAfter
  {
    hide Inflow;
    var (b, d) := RefillAndTake(Recall(m, cfg, now), now, cfg, want);
    var wait := later - now;
    InflowOfQuotient(cfg, want - b.tokens);
    InflowGrows(cfg, wait);
    InflowGrows(cfg, wait - d.retryAfter);
    InflowGrows(cfg, d.retryAfter - wait);
    InflowAdds(cfg, 0.0, d.retryAfter, wait);
    InflowAdds(cfg, 0.0, wait, d.retryAfter);
  }

  // ---- Whole runs of one key: the arrival curve ---------------------------------

  datatype Poll = Poll(at: real, want: real)

  predicate Chronological(ps: seq<Poll>) {
    forall i, j | 0 <= i <= j < |ps| :: ps[i].at <= ps[j].at
  }

  /** The memory of a fresh key after a sequence of polls under one rule. */
  function After(cfg: RateLimitConfig, ps: seq<Poll>): Memory {
    if ps == [] then None
    else
      var p := ps[|ps| - 1];
      Some(RefillAndTake(Recall(After(cfg, ps[..|ps| - 1]), cfg, p.at), p.at, cfg, p.want).0)
  }

  /** The verdict on a poll that arrives after `ps`. */
  function Verdict(cfg: RateLimitConfig, ps: seq<Poll>, p: Poll): AdmitDecision {
    RefillAndTake(Recall(After(cfg, ps), cfg, p.at), p.at, cfg, p.want).1
  }

  /** Tokens handed out by the polls from index `k` on. */
  function Granted(cfg: RateLimitConfig, ps: seq<Poll>, k: nat): real
    requires k <= |ps|
  {
    if k == |ps| then 0.0
    else
      var n := |ps| - 1;
      Granted(cfg, ps[..n], k) + Taken(cfg, ps[..n], ps[n])
  }

  function TimeOf(ps: seq<Poll>, p: Poll, k: nat): real
    requires k <= |ps|
  {
    if k < |ps| then ps[k].at else p.at
  }

  /** What the window opening with poll `k` still allows when `p` arrives. */
  function Allowance(cfg: RateLimitConfig, ps: seq<Poll>, p: Poll, k: nat): real
    requires k <= |ps|
  {
    cfg.burst + Inflow(cfg, p.at - TimeOf(ps, p, k)) - Granted(cfg, ps, k)
  }

  lemma {:induction false} RunIsSound(cfg: RateLimitConfig, ps: seq<Poll>, now: real)
    requires Chronological(ps) && (ps != [] ==> ps[|ps| - 1].at <= now)
    ensures Sound(After(cfg, ps), now)
  {
    hide Inflow;
    if ps == [] {
    } else {
      var qs, q := ps[..|ps| - 1], ps[|ps| - 1];
      RunIsSound(cfg, qs, q.at);
      PollIsSound(After(cfg, qs), cfg, q.want, q.at);
    }
  }

  function Taken(cfg: RateLimitConfig, ps: seq<Poll>, p: Poll): real {
    if Verdict(cfg, ps, p).admitted then p.want else 0.0
  }

  /** How the level found by a poll follows from the level its predecessor found. */
  lemma LevelFollows(cfg: RateLimitConfig, qs: seq<Poll>, q: Poll, at: real)
    requires q.at <= at
    ensures Available(After(cfg, qs + [q]), cfg, at)
         == MinR(cfg.burst, Available(After(cfg, qs), cfg, q.at) - Taken(cfg, qs, q) + Inflow(cfg, at - q.at))
  {
    hide Inflow;
    assert (qs + [q])[..|qs|] == qs;
  }

  lemma GrantedFollows(cfg: RateLimitConfig, qs: seq<Poll>, q: Poll, k: nat)
    requires k <= |qs|
    ensures Granted(cfg, qs + [q], k) == Granted(cfg, qs, k) + Taken(cfg, qs, q)
    ensures Granted(cfg, qs + [q], |qs| + 1) == 0.0
  {
    hide Inflow, RefillAndTake, Recall;
    assert (qs + [q])[..|qs|] == qs;
  }

  lemma AllowanceFollows(cfg: RateLimitConfig, qs: seq<Poll>, q: Poll, p: Poll, k: nat)
    requires k <= |qs|
    ensures Allowance(cfg, qs + [q], p, k) == Allowance(cfg, qs, q, k) + Inflow(cfg, p.at - q.at) - Taken(cfg, qs, q)
    ensures Allowance(cfg, qs + [q], p, |qs| + 1) == cfg.burst
  {
    hide Inflow, RefillAndTake, Recall, Taken, Granted, Verdict;
    GrantedFollows(cfg, qs, q, k);
    InflowGrows(cfg, 0.0);
    InflowAdds(cfg, TimeOf(qs, q, k), q.at, p.at);
  }

  lemma LastTwoInOrder(qs: seq<Poll>, q: Poll, p: Poll)
    requires Chronological(qs + [q] + [p])
    ensures Chronological(qs + [q]) && q.at <= p.at
  {
    var all := qs + [q] + [p];
    assert all[|qs|] == q && all[|qs| + 1] == p;
    assert forall i | 0 <= i <= |qs| :: (qs + [q])[i] == all[i];
  }

  /** The level is the tightest allowance over all windows that are still open. */
  lemma {:induction false} LevelIsTightestWindow(cfg: RateLimitConfig, ps: seq<Poll>, p: Poll) returns (tight: nat)
    requires Chronological(ps + [p])
    ensures tight <= |ps|
    ensures Available(After(cfg, ps), cfg, p.at) == Allowance(cfg, ps, p, tight)
    ensures forall k | 0 <= k <= |ps| :: Allowance(cfg, ps, p, tight) <= Allowance(cfg, ps, p, k)
    decreases |ps|
  {
    if ps == [] {
      hide Inflow;
      InflowGrows(cfg, 0.0);
      tight := 0;
    } else {
      hide Inflow, Available, Allowance, After, Taken, Chronological, Granted, Verdict;
      var qs, q := ps[..|ps| - 1], ps[|ps| - 1];
      assert ps == qs + [q];
      LastTwoInOrder(qs, q, p);
      tight := LevelIsTightestWindow(cfg, qs, q);
      LevelFollows(cfg, qs, q, p.at);
      forall k | 0 <= k <= |qs|
        ensures Allowance(cfg, ps, p, k) == Allowance(cfg, qs, q, k) + Inflow(cfg, p.at - q.at) - Taken(cfg, qs, q)
      {
        AllowanceFollows(cfg, qs, q, p, k);
      }
      AllowanceFollows(cfg, qs, q, p, tight);
      if Allowance(cfg, ps, p, tight) > cfg.burst {
        tight := |ps|;
      }
    }
  }

  /** The exact arrival-curve characterisation of the bucket. */
  lemma AdmittedIffEveryWindowAllows(cfg: RateLimitConfig, ps: seq<Poll>, p: Poll)
    requires Chronological(ps + [p])
    ensures Verdict(cfg, ps, p).admitted
       <==> forall k | 0 <= k <= |ps| ::
              Granted(cfg, ps, k) + p.want <= cfg.burst + Inflow(cfg, p.at - TimeOf(ps, p, k))
  {
    hide Inflow, After, Granted, TimeOf, Chronological;
    var tight := LevelIsTightestWindow(cfg, ps, p);
    assert forall k | 0 <= k <= |ps| ::
      Allowance(cfg, ps, p, k) == cfg.burst + Inflow(cfg, p.at - TimeOf(ps, p, k)) - Granted(cfg, ps, k);
    assert Verdict(cfg, ps, p).admitted <==> Available(After(cfg, ps), cfg, p.at) >= p.want;
  }

  /** No window of polls ever hands out more than its burst plus its refill. */
  lemma WindowBound(cfg: RateLimitConfig, ps: seq<Poll>, k: nat)
    requires Chronological(ps) && k < |ps|
    ensures Granted(cfg, ps, k) <= cfg.burst + Inflow(cfg, ps[|ps| - 1].at - ps[k].at)
  {
    hide Inflow;
    var end := Poll(ps[|ps| - 1].at, 0.0);
    var tight := LevelIsTightestWindow(cfg, ps, end);
    RunIsSound(cfg, ps, end.at);
    PollIsSound(After(cfg, ps), cfg, 0.0, end.at);
    assert Allowance(cfg, ps, end, k) >= 0.0;
  }

  /** With a refused poll erased, every later instant finds the same level ... */
  lemma {:induction false} ErasureKeepsLevel(cfg: RateLimitConfig, before: seq<Poll>, refused: Poll, later: seq<Poll>, at: real)
    requires Chronological(before + [refused] + later)
    requires forall p | p in before + [refused] + later :: p.at <= at
    requires !Verdict(cfg, before, refused).admitted
    ensures Available(After(cfg, before + [refused] + later), cfg, at) == Available(After(cfg, before + later), cfg, at)
    decreases |later|
  {
    hide Inflow, Verdict, Available, After;
    if later == [] {
      assert before + later == before && before + [refused] + later == before + [refused];
      assert Chronological(before) && (before != [] ==> before[|before| - 1].at <= refused.at) by {
        assert forall i | 0 <= i < |before| :: before[i] == (before + [refused])[i];
        assert (before + [refused])[|before|] == refused;
      }
      RunIsSound(cfg, before, refused.at);
      RefusedPoll(cfg, before, refused, at);
    } else {
      var most, last := later[..|later| - 1], later[|later| - 1];
      var all, kept := before + [refused] + most, before + most;
      assert before + [refused] + later == all + [last] && before + later == kept + [last];
      assert forall i | 0 <= i < |all| :: all[i] == (all + [last])[i];
      assert (all + [last])[|all|] == last;
      ErasureKeepsLevel(cfg, before, refused, most, last.at);
      LevelFollows(cfg, all, last, at);
      LevelFollows(cfg, kept, last, at);
      VerdictIsLevel(cfg, all, last);
      VerdictIsLevel(cfg, kept, last);
    }
  }

  lemma RefusedPoll(cfg: RateLimitConfig, ps: seq<Poll>, p: Poll, at: real)
    requires Sound(After(cfg, ps), p.at) && p.at <= at
    requires !Verdict(cfg, ps, p).admitted
    ensures Available(After(cfg, ps + [p]), cfg, at) == Available(After(cfg, ps), cfg, at)
  {
    hide Inflow;
    assert (ps + [p])[..|ps|] == ps;
    RefusalLeavesNoTrace(After(cfg, ps), cfg, p.want, p.at, at);
  }

  lemma VerdictIsLevel(cfg: RateLimitConfig, ps: seq<Poll>, p: Poll)
    ensures var level := Available(After(cfg, ps), cfg, p.at);
            Verdict(cfg, ps, p) == if level >= p.want then AdmitDecision(true, 0.0)
                                   else AdmitDecision(false, (p.want - level) / cfg.rps)
  {
    hide Inflow, After;
  }

  /** ... so polling and being refused changes no later verdict and no later retry time. */
  lemma RefusedPollsChangeNoVerdict(cfg: RateLimitConfig, before: seq<Poll>, refused: Poll, later: seq<Poll>, p: Poll)
    requires Chronological(before + [refused] + later + [p])
    requires !Verdict(cfg, before, refused).admitted
    ensures Verdict(cfg, before + [refused] + later, p) == Verdict(cfg, before + later, p)
  {
    hide Inflow, Verdict, Available, After;
    var all := before + [refused] + later;
    assert forall i | 0 <= i < |all| :: all[i] == (all + [p])[i];
    assert (all + [p])[|all|] == p;
    ErasureKeepsLevel(cfg, before, refused, later, p.at);
    VerdictIsLevel(cfg, all, p);
    VerdictIsLevel(cfg, before + later, p);
  }
}
