/** The cluster-wide limiter: the same bucket kept in a Redis hash that expires
    (packages/common/ancora_common/ratelimit.py, the Lua script). Redis keeps time in whole
    milliseconds; the caller's clock and the server's are one clock here. */
module RedisRateLimit {
  import opened Common
  import opened RateLimit

  datatype Hash = Hash(bucket: Bucket, expireAt: int)

  function Ceil(x: real): int { -((-x).Floor) }

  function Millis(now: real): int { (now * 1000.0).Floor }

  /** PEXPIRE's argument: time to fill an empty bucket, rounded up, plus one second. */
  function TtlMillis(cfg: RateLimitConfig): int { Ceil(cfg.burst / cfg.rps * 1000.0) + 1000 }

  /** The deadline is the time to fill an empty bucket and a second more, to within a millisecond. */
  lemma DeadlineIsFillAndASecond(cfg: RateLimitConfig)
    ensures
      var fill := cfg.burst / cfg.rps;
      fill * 1000.0 + 1000.0 <= TtlMillis(cfg) as real < fill * 1000.0 + 1001.0
  {}

  /** What a script run at `now` still finds. */
  function Surviving(hashes: map<string, Hash>, key: string, now: real): Memory {
    if key in hashes && Millis(now) <= hashes[key].expireAt then Some(hashes[key].bucket) else None
  }

  /** One run of the script, on values. */
  function ScriptStep(hashes: map<string, Hash>, key: string, cfg: RateLimitConfig, want: real, now: real)
    : (map<string, Hash>, AdmitDecision)
  {
    var (b, d) := RefillAndTake(Recall(Surviving(hashes, key, now), cfg, now), now, cfg, want);
    (hashes[key := Hash(b, Millis(now) + TtlMillis(cfg))], d)
  }

  class RedisRateLimiter {
    var hashes: map<string, Hash>

    constructor ()
      ensures hashes == map[]
    {
      hashes := map[];
    }

    /** The script line by line; `ScriptStep` says what the lines add up to. */
    method Admit(key: string, cfg: RateLimitConfig, want: real, now: real) returns (decision: AdmitDecision)
      modifies this
      ensures (hashes, decision) == ScriptStep(old(hashes), key, cfg, want, now)
    {
      var tokens, ts := cfg.burst, now;
      if key in hashes && Millis(now) <= hashes[key].expireAt {
        tokens, ts := hashes[key].bucket.tokens, hashes[key].bucket.ts;
      }
      var elapsed := now - ts;
      if elapsed < 0.0 {
        elapsed := 0.0;
      }
      var available := MinR(cfg.burst, tokens + Inflow(cfg, elapsed));
      var admitted, retryAfter := false, 0.0;
      if available >= want {
        available := available - want;
        admitted := true;
      } else {
        retryAfter := (want - available) / cfg.rps;
      }
      hashes := hashes[key := Hash(Bucket(available, now), Millis(now) + TtlMillis(cfg))];
      decision := AdmitDecision(admitted, retryAfter);
    }
  }

  /** One call carries its own rule: neither limiter remembers the rule of a key. */
  datatype Call = Call(key: string, cfg: RateLimitConfig, want: real, at: real)

  predicate InOrder(cs: seq<Call>) {
    forall i, j | 0 <= i <= j < |cs| :: cs[i].at <= cs[j].at
  }

  /** State and verdicts of the in-process limiter over a run. */
  function PlainRun(cs: seq<Call>): (r: (map<string, Bucket>, seq<AdmitDecision>))
    ensures |r.1| == |cs|
  {
    if cs == [] then (map[], [])
    else
      var before, c := PlainRun(cs[..|cs| - 1]), cs[|cs| - 1];
      var step := LimiterStep(before.0, c.key, c.cfg, c.want, c.at);
      (step.0, before.1 + [step.1])
  }

  /** The same run against the expiring store. */
  function ScriptRun(cs: seq<Call>): (r: (map<string, Hash>, seq<AdmitDecision>))
    ensures |r.1| == |cs|
  {
    if cs == [] then (map[], [])
    else
      var before, c := ScriptRun(cs[..|cs| - 1]), cs[|cs| - 1];
      var step := ScriptStep(before.0, c.key, c.cfg, c.want, c.at);
      (step.0, before.1 + [step.1])
  }

  /** The rule under which the key was last touched, which set its deadline. */
  function LastRule(cs: seq<Call>, key: string): Option<RateLimitConfig> {
    if cs == [] then None
    else if cs[|cs| - 1].key == key then Some(cs[|cs| - 1].cfg)
    else LastRule(cs[..|cs| - 1], key)
  }

  /** The deadline set under `last` leaves a bucket the time to fill under `cfg`. */
  predicate Outlasts(last: RateLimitConfig, cfg: RateLimitConfig) { cfg.burst / cfg.rps * 1000.0 <= TtlMillis(last) as real }

  /** Every touch of a key finds a deadline that outlasts its own rule. */
  predicate DeadlinesSuffice(cs: seq<Call>) {
    forall n | 0 <= n < |cs| && LastRule(cs[..n], cs[n].key).Some? :: Outlasts(LastRule(cs[..n], cs[n].key).value, cs[n].cfg)
  }

  /** Every hash holds its key's bucket and the deadline set when it was last touched. */
  ghost predicate Mirrors(cs: seq<Call>, hashes: map<string, Hash>, state: map<string, Bucket>, now: real) {
    && hashes.Keys == state.Keys
    && forall k | k in state ::
         && LastRule(cs, k).Some?
         && hashes[k] == Hash(state[k], Millis(state[k].ts) + TtlMillis(LastRule(cs, k).value))
         && Sound(Some(state[k]), now)
  }

  /** By the time a key is gone, the bucket it held has refilled completely. */
  lemma ExpiredMeansFull(last: RateLimitConfig, cfg: RateLimitConfig, b: Bucket, now: real)
    requires Sound(Some(b), now) && Outlasts(last, cfg)
    requires Millis(now) > Millis(b.ts) + TtlMillis(last)
    ensures Available(Some(b), cfg, now) == cfg.burst
  {
    var fill := cfg.burst / cfg.rps;
    hide Inflow, TtlMillis;
    assert now * 1000.0 >= b.ts * 1000.0 + fill * 1000.0;
    var spare := now - b.ts - fill;
    hide Millis;
    InflowOfQuotient(cfg, cfg.burst);
    InflowAdds(cfg, 0.0, fill, now - b.ts);
    InflowGrows(cfg, spare);
  }

  lemma SameStep(cs: seq<Call>, hashes: map<string, Hash>, state: map<string, Bucket>, c: Call, before: real)
    requires Mirrors(cs, hashes, state, before) && before <= c.at
    requires LastRule(cs, c.key).Some? ==> Outlasts(LastRule(cs, c.key).value, c.cfg)
    ensures
      var (state', plain) := LimiterStep(state, c.key, c.cfg, c.want, c.at);
      var (hashes', script) := ScriptStep(hashes, c.key, c.cfg, c.want, c.at);
      plain == script && Mirrors(cs + [c], hashes', state', c.at)
  {
    hide Inflow, TtlMillis, Millis, Outlasts;
    var m := Lookup(state, c.key);
    if m.Some? && Millis(c.at) > hashes[c.key].expireAt {
      ExpiredMeansFull(LastRule(cs, c.key).value, c.cfg, m.value, c.at);
      InflowGrows(c.cfg, 0.0);
    }
    PollIsSound(m, c.cfg, c.want, c.at);
    assert (cs + [c])[..|cs|] == cs;
  }

  /** Where every touch finds a deadline long enough, expiry is unobservable: the script gives the
      verdicts and retry times of the in-process limiter on the whole run, over all keys. */
  lemma {:induction false} ScriptRefinesPlain(cs: seq<Call>)
    requires InOrder(cs) && DeadlinesSuffice(cs)
    ensures ScriptRun(cs).1 == PlainRun(cs).1
    ensures |cs| > 0 ==> Mirrors(cs, ScriptRun(cs).0, PlainRun(cs).0, cs[|cs| - 1].at)
  {
    hide LimiterStep, ScriptStep, Outlasts, LastRule, Mirrors, DeadlinesSuffice, PlainRun, ScriptRun;
    if cs == [] {
      NothingRun();
    } else {
      var n := |cs| - 1;
      ShorterRun(cs);
      ScriptRefinesPlain(cs[..n]);
      if n == 0 { NothingMirrored(cs[n].at); }
      SameStep(cs[..n], ScriptRun(cs[..n]).0, PlainRun(cs[..n]).0, cs[n], if n == 0 then cs[n].at else cs[n - 1].at);
      RunsFollow(cs);
      assert cs[..n] + [cs[n]] == cs;
    }
  }

  lemma NothingRun()
    ensures PlainRun([]).1 == [] && ScriptRun([]).1 == []
  {}

  lemma RunsFollow(cs: seq<Call>)
    requires cs != []
    ensures
      var before, c := PlainRun(cs[..|cs| - 1]), cs[|cs| - 1];
      var step := LimiterStep(before.0, c.key, c.cfg, c.want, c.at);
      PlainRun(cs) == (step.0, before.1 + [step.1])
    ensures
      var before, c := ScriptRun(cs[..|cs| - 1]), cs[|cs| - 1];
      var step := ScriptStep(before.0, c.key, c.cfg, c.want, c.at);
      ScriptRun(cs) == (step.0, before.1 + [step.1])
  {
    hide LimiterStep, ScriptStep;
  }

  lemma NothingMirrored(now: real)
    ensures Mirrors([], ScriptRun([]).0, PlainRun([]).0, now)
  {}

  lemma ShorterRun(cs: seq<Call>)
    requires cs != [] && DeadlinesSuffice(cs)
    ensures DeadlinesSuffice(cs[..|cs| - 1])
    ensures var last := LastRule(cs[..|cs| - 1], cs[|cs| - 1].key); last.Some? ==> Outlasts(last.value, cs[|cs| - 1].cfg)
  {
    hide LastRule, Outlasts;
    assert forall n | 0 <= n < |cs| :: cs[..|cs| - 1][..n] == cs[..n];
  }

  /** With one rule per key every deadline is long enough. */
  lemma FixedRulesSuffice(cs: seq<Call>)
    requires forall i, j | 0 <= i < j < |cs| && cs[i].key == cs[j].key :: cs[i].cfg == cs[j].cfg
    ensures DeadlinesSuffice(cs)
  {
    forall n | 0 <= n < |cs| && LastRule(cs[..n], cs[n].key).Some?
      ensures Outlasts(LastRule(cs[..n], cs[n].key).value, cs[n].cfg)
    {
      var i := LastTouch(cs[..n], cs[n].key);
      assert cs[i] == cs[..n][i];
    }
  }

  lemma {:induction false} LastTouch(cs: seq<Call>, key: string) returns (i: nat)
    requires LastRule(cs, key).Some?
    ensures i < |cs| && cs[i].key == key && LastRule(cs, key) == Some(cs[i].cfg)
  {
    i := |cs| - 1;
    if cs[i].key != key {
      i := LastTouch(cs[..|cs| - 1], key);
    }
  }

  function TwoCalls(last: RateLimitConfig, cfg: RateLimitConfig, early: real, now: real, first: real, second: real): seq<Call> {
    [Call("k", last, first, early), Call("k", cfg, second, now)]
  }

  lemma TwoCallsRun(c: Call, d: Call)
    ensures PlainRun([c, d]).1 == [LimiterStep(map[], c.key, c.cfg, c.want, c.at).1,
                                   LimiterStep(LimiterStep(map[], c.key, c.cfg, c.want, c.at).0, d.key, d.cfg, d.want, d.at).1]
    ensures ScriptRun([c, d]).1 == [ScriptStep(map[], c.key, c.cfg, c.want, c.at).1,
                                    ScriptStep(ScriptStep(map[], c.key, c.cfg, c.want, c.at).0, d.key, d.cfg, d.want, d.at).1]
  {
    hide LimiterStep, ScriptStep;
    assert [c, d][..1] == [c] && [c][..0] == [];
    var (state, plain) := LimiterStep(map[], c.key, c.cfg, c.want, c.at);
    var (hashes, script) := ScriptStep(map[], c.key, c.cfg, c.want, c.at);
    assert PlainRun([]) == (map[], []) && ScriptRun([]) == (map[], []);
    assert [] + [plain] == [plain] && [] + [script] == [script];
    assert PlainRun([c]) == (state, [plain]) && ScriptRun([c]) == (hashes, [script]);
  }

  /** A deadline too short shows: drain the bucket under `last`, come back just after the deadline
      under `cfg`, and the script admits a full burst that the in-process limiter refuses. */
  lemma ShortDeadlineShows(last: RateLimitConfig, cfg: RateLimitConfig) returns (early: real, now: real)
    requires !Outlasts(last, cfg)
    ensures
      var cs := TwoCalls(last, cfg, early, now, last.burst, cfg.burst);
      early <= now && !PlainRun(cs).1[1].admitted && ScriptRun(cs).1[1].admitted
  {
    var ttl, fill := TtlMillis(last), cfg.burst / cfg.rps;
    assert ttl >= 0 by { TtlIsPositive(last); }
    var gap := MinR((fill * 1000.0 - ttl as real) / 2.0, 0.5);
    early, now := (1.0 - gap) / 1000.0, (ttl + 1) as real / 1000.0;
    var c, d := Call("k", last, last.burst, early), Call("k", cfg, cfg.burst, now);
    TwoCallsRun(c, d);
    hide Inflow, TtlMillis;
    assert Millis(early) == 0 && Millis(now) == ttl + 1;
    assert now - early < fill;
    hide Millis;
    InflowGrows(last, 0.0);
    InflowGrows(cfg, 0.0);
    InflowOfQuotient(cfg, cfg.burst);
    InflowAdds(cfg, 0.0, now - early, fill);
    InflowGrows(cfg, fill - (now - early));
  }

  lemma TtlIsPositive(cfg: RateLimitConfig)
    ensures TtlMillis(cfg) >= 1000
  {
    InflowOfQuotient(cfg, cfg.burst);
    assert cfg.burst / cfg.rps * 1000.0 > 0.0;
  }

  /** Exactly: two touches of a key under `last` and then `cfg` get the same answers from both
      limiters, whatever they ask for and whenever, if and only if the deadline set under `last`
      outlasts `cfg`. */
  lemma TwoTouchesAgreeIff(last: RateLimitConfig, cfg: RateLimitConfig)
    ensures
      (forall early, now, first, second | early <= now ::
         ScriptRun(TwoCalls(last, cfg, early, now, first, second)).1 == PlainRun(TwoCalls(last, cfg, early, now, first, second)).1)
      <==> Outlasts(last, cfg)
  {
    hide PlainRun, ScriptRun, Outlasts;
    if Outlasts(last, cfg) {
      forall early, now, first, second | early <= now
        ensures ScriptRun(TwoCalls(last, cfg, early, now, first, second)).1 == PlainRun(TwoCalls(last, cfg, early, now, first, second)).1
      {
        var cs := TwoCalls(last, cfg, early, now, first, second);
        assert cs[..1] == [cs[0]] && cs[..0] == [];
        ScriptRefinesPlain(cs);
      }
    } else {
      var early, now := ShortDeadlineShows(last, cfg);
      var cs := TwoCalls(last, cfg, early, now, last.burst, cfg.burst);
      assert ScriptRun(cs).1[1] != PlainRun(cs).1[1];
    }
  }
}
