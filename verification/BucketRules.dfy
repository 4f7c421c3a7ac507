/** Which rules a policy lets reach which bucket: the key does not say which rule matched. */
module BucketRules {
  import opened Common
  import opened RateLimit
  import opened Policy
  import opened Engine

  /** A cut of the key into a provider and a model. */
  predicate CutsAt(key: string, i: nat) { 0 < i < |key| - 1 && key[i] == '/' }

  /** Every rule some request draws from the bucket under, read off the policy. */
  function RulesReaching(p: SchedulerConfig, key: string): set<RateLimitConfig> {
    if key == "" then {}
    else if key in p.rateLimits then {p.rateLimits[key]}
    else
      (set i | 0 <= i < |key| && CutsAt(key, i) && key[..i] in p.rateLimits :: p.rateLimits[key[..i]])
      + (if "default" in p.rateLimits then {p.rateLimits["default"]} else {})
  }

  predicate Reaches(p: SchedulerConfig, req: AdmissionRequest, key: string, cfg: RateLimitConfig) {
    BucketOf(p, req) == Some((key, cfg))
  }

  lemma ReachedIsListed(p: SchedulerConfig, req: AdmissionRequest, key: string, cfg: RateLimitConfig)
    requires Reaches(p, req, key, cfg)
    ensures cfg in RulesReaching(p, key)
  {
    var provider := req.provider.value;
    if Named(req.model) {
      assert CutsAt(key, |provider|) && key[..|provider|] == provider;
    }
  }

  function RequestFor(provider: string, model: Option<string>): AdmissionRequest {
    AdmissionRequest("run", "node", "q", "t", 1, Some(provider), model, 1.0, 0.0, None)
  }

  lemma ListedIsReached(p: SchedulerConfig, key: string, cfg: RateLimitConfig) returns (req: AdmissionRequest)
    requires cfg in RulesReaching(p, key)
    ensures Reaches(p, req, key, cfg)
  {
    req := RequestFor(key, None);
    if !Reaches(p, req, key, cfg) {
      var i :| 0 <= i < |key| && CutsAt(key, i) && key[..i] in p.rateLimits && p.rateLimits[key[..i]] == cfg;
      req := RequestFor(key[..i], Some(key[i + 1..]));
      assert key[..i] + "/" + key[i + 1..] == key;
    }
  }

  /** The listed rules are exactly the ones a request can draw from the bucket under. */
  lemma RulesReachingExactly(p: SchedulerConfig, key: string, cfg: RateLimitConfig)
    ensures cfg in RulesReaching(p, key) <==> exists req :: Reaches(p, req, key, cfg)
  {
    hide RulesReaching, Reaches;
    if cfg in RulesReaching(p, key) {
      var req := ListedIsReached(p, key, cfg);
    }
    if req :| Reaches(p, req, key, cfg) {
      ReachedIsListed(p, req, key, cfg);
    }
  }

  /** A bucket has one rule, whoever draws from it, if and only if at most one is listed. */
  lemma OneRuleIff(p: SchedulerConfig, key: string)
    ensures (forall a, b, r, s | Reaches(p, a, key, r) && Reaches(p, b, key, s) :: r == s) <==> |RulesReaching(p, key)| <= 1
  {
    hide RulesReaching, Reaches;
    var rules := RulesReaching(p, key);
    if |rules| <= 1 {
      forall a, b, r, s | Reaches(p, a, key, r) && Reaches(p, b, key, s) ensures r == s {
        ReachedIsListed(p, a, key, r);
        ReachedIsListed(p, b, key, s);
        SameInSmall(rules, r, s);
      }
    } else {
      var r :| r in rules;
      assert |rules - {r}| == |rules| - 1;
      var s :| s in rules - {r};
      var a := ListedIsReached(p, key, r);
      var b := ListedIsReached(p, key, s);
    }
  }

  lemma SameInSmall<T>(s: set<T>, x: T, y: T)
    requires x in s && y in s && |s| <= 1
    ensures x == y
  {
    assert |s - {x}| == 0;
  }

  /** A key without a slash, or with a rule of its own, has one rule in every policy. */
  lemma OwnRuleIsTheOnlyOne(p: SchedulerConfig, key: string)
    requires key in p.rateLimits || '/' !in key
    ensures |RulesReaching(p, key)| <= 1
  {
    if key !in p.rateLimits {
      assert RulesReaching(p, key) <= if "default" in p.rateLimits then {p.rateLimits["default"]} else {};
    }
  }
}
