# A verified model of Ancora's scheduler, run views and crash protocols

The project models four parts of Ancora in Dafny and proves what they keep over every run.

1. **The admission scheduler.** Five governors decide each request in order: deadline, budget,
   backpressure, weighted fair share, provider rate limit. They share mutable state, and a late
   refusal hands an earlier charge back. Modules `RateLimit`, `RedisRateLimit`, `Fairness`,
   `Backlog`, `Budget`, `Policy`, `Engine`, and, over whole runs, `AdmissionCalls`, `EngineRuns`,
   `FairnessRuns`, `EngineHistory`, `QuotaRuns`, `Decisions`, `BucketRules`, `ProviderRules`, `TenantPool`, `Slots`; `Floods`,
   `StuckQueue` and `Overspend` drive the engine to its edges.
2. **The views read back from a run's history.** The layered DAG with its gates and critical
   path, and the accounts of attempts and hand-offs. Modules `History`, `GateMatching`,
   `CriticalPath`, `RunGraph`, `GraphBuild`, `GraphTheorems`, `GraphStability`, `GraphFacts`, `Recovery`.
3. **Crash, reconnect and retry protocols.** The inbox guard, the reconnecting event stream, the
   idempotency store, checkpointed compute. Modules `Inbox`, `RunStream`, `CatchUp`, `Idempotency`,
   `Checkpoint`.
4. `Common` holds options, counter maps and their sums.

Objects that the program updates in place are classes here. Their methods are proved equal to
step functions on values; the theorems are about those functions and about every sequence of
them. A protocol is a transition system whose steps an adversary picks: crashes, dropped sockets,
lost frames, cancelled handlers, dying workers. Time, tokens, weights and money are reals, the
clock never goes back. One scheduler call is one atomic step at one instant, because its handlers
do not await between reading and writing their state; where the protocols do await (around an
inbox effect, a request handler, a socket send, a heartbeat) each side of the await is a step of
its own.

Two assumptions recur. A request asks for a positive number of tokens, as the API's schema demands
(services/scheduler/ancora_scheduler/api.py:48). A well-formed history has increasing event ids,
commands in the order of the workflow tasks that issued them, and at most one end per activity,
as the Temporal server writes it; only the claims that compare a history with its continuation
need it. The expiry of a gate also takes it that no timer id is used twice.

## Where the code is narrower than its prose

- **Slots.** The comment on `InflightTracker.admit` says a token names the attempt; the token is
  run and node only. An admission gets a slot of its own, and is told the true depth, exactly when
  its token holds none on the queue (`Slots.AdmissionDeepensIff`). However often a node is retried
  its queue reads one deep, and the first report frees the slot of the attempt still running
  (`Slots.FirstReportFreesEveryAttempt`). A colon in a run id can make two nodes share a token
  (`Slots.SameTokenIff`).
- **Budgets.** The engine announces a run check and a tenant check; the tenant's pool is never
  read (`TenantPool.PoolIsNeverRead`), so one run after another can spend any multiple of it
  (`TenantPool.PoolCanBeOverdrawn`). The check keeps the pool exactly when it allows nothing or the
  tenant has spent no more than this very run (`TenantPool.PoolIsKeptIff`); over whole runs the
  pool is bounded by their number alone (`TenantPool.PoolIsBoundedByItsRuns`). A limit of zero is
  no limit (`TenantPool.LimitBindsIff`).
- **Watermarks.** "At hard, defer everything" holds exactly when `soft <= hard`. A `hard` left at
  its default is never compared with `soft`, and then bulk work is admitted above it
  (`Backlog.HardMarkStopsAllIffOrdered`, `Floods.BulkPassesHardIffSoftIsHigher`).
- **Buckets.** A bucket is keyed by provider and model even when the provider's or the default
  rule matched. So each model gets a bucket of its own, and a rule bounds its provider if and only
  if a single bucket is used (`ProviderRules.RuleBoundsItsProviderIff`). A key can also be reached
  under two rules, provider `a` with model `b` and provider `a/b`
  (`ProviderRules.TwoRulesOneBucket`); the bucket is then bounded by a rule that dominates both.
  Which rules reach a key can be read off the policy (`BucketRules.RulesReachingExactly`), and it is
  one rule exactly when at most one is listed (`BucketRules.OneRuleIff`).
- **Refusals.** A refused call is meant to take nothing. Polling refills and caps the bucket under
  the request's own rule, so where a key has several rules a refusal under one can take tokens
  from the other (`ProviderRules.RefusalUnderASmallerRule`). It takes none exactly when the limiter
  was not polled or that refill looks alike through every rule of the key
  (`AdmissionCalls.RefusedCallTakesNoTokenIff`).
- **Redis expiry.** The script's keys expire after the time to fill under the rule of the last
  touch. The expiry shows as soon as the next touch's rule fills more slowly than that
  (`RedisRateLimit.TwoTouchesAgreeIff`).
- **Retry times.** A request larger than its burst is told a finite wait and never passes
  (`RateLimit.RetryAfterIsExactIffItFits`, `FairnessRuns.OversizedRequestIsNeverAdmitted`).
- **Fair share.** A tenant that keeps asking and is kept out by a later gate holds every rival on
  its queue to four steps in all (`FairnessRuns.BlockedRivalCapsEveryone`); in a concrete policy
  its rival is admitted twice and never again (`StuckQueue.BlockedTenantStopsTheQueue`). A deferral
  happens exactly when a tenant is more than one of its own steps ahead of a rival
  (`Fairness.DeferredIffAheadOfARival`).
- **Critical path.** A duration of exactly zero sorts like an unmeasured one, so the time can be
  missing although a vertex has a duration (`CriticalPath.TimeIsMissingIff`).
- **Inbox.** A row left pending by a crash does not stop the next attempt from running the effect
  (`Inbox.StalePendingRunsAgain`); of two concurrent attempts the later commit overwrites the
  stored result and the callers are told different things (`Inbox.ConcurrentAttemptsDisagree`).
  A stored result is safe, and every later caller is told it, exactly when each attempt on its key
  that is not over is about to commit that same result (`Inbox.StoredResultIsSafeIff`,
  `Inbox.LaterCallersAgreeIff`). The in-memory guard lets overlapping calls run the effect twice
  (`Inbox.OverlappingCalls`).
- **Stream.** The hook keeps its last id when it is pointed at another run, so a reconnect is
  gap-free exactly when nothing in the new run has an id that low
  (`RunStream.SwitchingRunsIsGapFreeIff`, with a gap in `RunStream.SwitchingCanMissEvents`).
- **Idempotency.** A cancelled handler, or a body that cannot be read to its end, leaves its key
  in flight until the time to live has passed; a handler that outlives the time to live can run
  beside a second one (`Idempotency.SecondHandlerIff`), and then ends the second one's reservation
  (`Idempotency.LateSuccessAnswersForAnother`, `Idempotency.LateFailureFreesAnother`, exactly when
  the key is stored for another: `Idempotency.SettlesOnlyItsOwnIff`); a colon in a path can make two
  requests share a key (`Idempotency.SameKeyIff`).
- **Checkpoints.** The detached variant always binds as attempt 1, so an injected crash strikes
  each of its attempts (`Checkpoint.DetachedReturnsIff`). On the Ray backend progress does not
  reach the driver, so attempts restart from zero; that is one of the choices the adversary has
  in `Checkpoint.ResumeEqualsUninterrupted`.

## Model

| member | source | states |
|---|---|---|
| RateLimit.InMemoryRateLimiter.Admit | packages/common/ancora_common/ratelimit.py:72-79 | one call leaves exactly the next bucket under its key and every other key alone |
| RateLimit.PollIsSound | packages/common/ancora_common/ratelimit.py:43-62 | levels stay within 0 and burst whatever is asked |
| RateLimit.RefusalLeavesNoTrace | packages/common/ancora_common/ratelimit.py:43-62 | after a refusal the level at every later instant is what it would have been without the poll |
| RateLimit.RetryAfterIsExactIffItFits | packages/common/ancora_common/ratelimit.py:59-62 | a refused request passes a quiet bucket at an instant if and only if it fits the burst and `retry_after` has elapsed |
| RateLimit.LevelIsTightestWindow | packages/common/ancora_common/ratelimit.py:43-79 | the level found by a poll is the least allowance over all windows ending there |
| RateLimit.AdmittedIffEveryWindowAllows | packages/common/ancora_common/ratelimit.py:43-79 | exact arrival curve: admitted if and only if every window, from each earlier poll on, stays within burst plus refill |
| RateLimit.WindowBound | packages/common/ancora_common/ratelimit.py:43-79 | every window of a run hands out at most burst plus refill |
| RateLimit.RefusedPollsChangeNoVerdict | packages/common/ancora_common/ratelimit.py:43-79 | erasing a refused poll from a run changes no later verdict and no later retry time |
| RedisRateLimit.RedisRateLimiter.Admit | packages/common/ancora_common/ratelimit.py:86-116 | the script's lines add up to a poll of the surviving hash, whose deadline is renewed |
| RateLimit.RefusalIsInvisibleIff | packages/common/ancora_common/ratelimit.py:43-79 | through any other rule a refused poll is invisible for ever if and only if refilling under its own rule first leaves what that rule finds as it is |
| RedisRateLimit.ExpiredMeansFull | packages/common/ancora_common/ratelimit.py:112-114 | by the time a hash is dropped, a bucket whose rule fills within that deadline has refilled completely |
| RedisRateLimit.DeadlineIsFillAndASecond | packages/common/ancora_common/ratelimit.py:113-114 | the deadline is the time to fill and a second, to within a millisecond |
| RedisRateLimit.ScriptRefinesPlain | packages/common/ancora_common/ratelimit.py:72-116 | calls carry their own rules: on every run over all keys in which each touch finds a deadline that outlasts its rule, the expiring script gives the verdicts and retry times of the in-process limiter |
| RedisRateLimit.FixedRulesSuffice | packages/common/ancora_common/ratelimit.py:112-114 | with one rule per key every deadline is long enough |
| RedisRateLimit.ShortDeadlineShows | packages/common/ancora_common/ratelimit.py:112-114 | where a deadline is too short, a run of two calls that the script admits and the in-process limiter refuses |
| RedisRateLimit.TwoTouchesAgreeIff | packages/common/ancora_common/ratelimit.py:72-116 | two touches under two rules get the same answers from both limiters at all instants and for all requests if and only if the first deadline outlasts the second rule |
| Fairness.FairShare.Active | services/scheduler/ancora_scheduler/fairness.py:60-65 | exactly the tenants silent for longer than the idle time are dropped from the queue |
| Fairness.FairShare.MinClock | services/scheduler/ancora_scheduler/fairness.py:77 | the least active virtual time, 0 when nobody is active |
| Fairness.FairShare.Admit | services/scheduler/ancora_scheduler/fairness.py:68-102 | the verdict and the new clocks of one request; a nonpositive weight changes nothing |
| Fairness.FairShare.Refund | services/scheduler/ancora_scheduler/fairness.py:104-114 | one step is given back, never below zero, and a tenant that is gone is left alone |
| Fairness.StepIsShare | services/scheduler/ancora_scheduler/fairness.py:85 | a step times the weight is the cost: three times the weight, a third of the step |
| Fairness.ClockMovesByShare | services/scheduler/ancora_scheduler/fairness.py:85-114 | passing adds cost over weight to the tenant's clock, a deferral nothing, and a refund takes cost over weight off it, never below zero |
| Fairness.DecisionReports | services/scheduler/ancora_scheduler/fairness.py:77-102 | a decision reports the tenant's clock, the slowest active one and how many compete, the tenant included |
| Fairness.PriorityLanes.Record | services/scheduler/ancora_scheduler/fairness.py:136-138 | one count in the request's lane |
| Fairness.PruneKeepsSpread | services/scheduler/ancora_scheduler/fairness.py:60-65 | dropping idle tenants keeps all clocks within two steps of the slowest |
| Fairness.AskingKeepsSpread | services/scheduler/ancora_scheduler/fairness.py:77-102 | so does a request, newcomer or not, admitted or not, and the slowest clock never falls |
| Fairness.SlowestAlwaysPasses | services/scheduler/ancora_scheduler/fairness.py:77-96 | a tenant on the least virtual time passes, whatever it asks for |
| Fairness.DeferredIffAheadOfARival | services/scheduler/ancora_scheduler/fairness.py:77-94 | deferred if and only if it is active and more than one of its own steps ahead of some rival |
| Backlog.InflightTracker.Sweep | services/scheduler/ancora_scheduler/backlog.py:46-51 | exactly the overdue slots go, each counted once as expired on its queue |
| Backlog.InflightTracker.Admit | services/scheduler/ancora_scheduler/backlog.py:53-57 | a slot is taken after a sweep; a retry's old slot is replaced |
| Backlog.InflightTracker.Complete | services/scheduler/ancora_scheduler/backlog.py:59-65 | a known token is released and counted, an unknown one changes nothing |
| Backlog.InflightTracker.Depth | services/scheduler/ancora_scheduler/backlog.py:67-69 | the number of unexpired slots of the queue |
| Backlog.SweepConserves | services/scheduler/ancora_scheduler/backlog.py:46-51 | per queue, admitted = completed + expired + live + replaced survives a sweep |
| Backlog.TakeConserves | services/scheduler/ancora_scheduler/backlog.py:53-57 | it survives an admission, retries of a live node and moves between queues included |
| Backlog.OwnSlotIff | services/scheduler/ancora_scheduler/backlog.py:53-57 | an admission adds a slot to its queue if and only if its token holds none there |
| Slots.AdmissionDeepensIff | services/scheduler/ancora_scheduler/engine.py:257-267 | the queue is as deep as an admission is told if and only if no unexpired slot of the queue is held under its token |
| Slots.SameTokenIff | services/scheduler/ancora_scheduler/engine.py:64-67 | two nodes share a token if and only if run, colon and node read alike; without colons in run ids they are the same node |
| Slots.ColonInARunIdCollides | services/scheduler/ancora_scheduler/engine.py:64-67 | two different nodes that share a token |
| Slots.FirstReportFreesEveryAttempt | services/scheduler/ancora_scheduler/backlog.py:53-69 | for every n, a node admitted n times leaves its queue one deep, one report empties it, and the next report releases nothing |
| Backlog.ReleaseConserves | services/scheduler/ancora_scheduler/backlog.py:59-65 | it survives a completion report, known or not |
| Backlog.WatermarkRule | services/scheduler/ancora_scheduler/backlog.py:105-141 | admission only below the higher mark; a more urgent lane or a shallower queue is never worse off; waits grow with depth up to the cap |
| Backlog.AdmittedByMarksIff | services/scheduler/ancora_scheduler/backlog.py:126-141 | admitted if and only if below soft, or below hard in a lane up to the cutoff |
| Backlog.WaitGrowsByTheBase | services/scheduler/ancora_scheduler/backlog.py:129-131 | the wait is the base at the soft mark, twice that one span above it, linear in between and beyond, up to the cap |
| Backlog.HardMarkStopsAllIffOrdered | services/scheduler/ancora_scheduler/config.py:54-67 | at or above `hard` everything defers if and only if `soft <= hard` |
| Policy.AcceptedMarksBreakTheRuleIff | services/scheduler/ancora_scheduler/config.py:54-67 | among marks the validator accepts, exactly those with `hard` at its default below `soft` admit at or above `hard` |
| Policy.MostSpecificRuleFirst | services/scheduler/ancora_scheduler/config.py:126-136 | a model's rule comes before its provider's and that before the default one |
| Policy.OwnEntryFirst | services/scheduler/ancora_scheduler/config.py:138-142 | a queue's marks and a tenant's policy come before the default ones and those before soft 50, hard 200, weight 1 and no budget; a missing or zero budget leaves a run to the limit for all |
| Floods.FloodFills | services/scheduler/ancora_scheduler/engine.py:178-267 | `n` simultaneous bulk requests up to the soft mark leave exactly `n` slots |
| Floods.BulkPassesHardIffSoftIsHigher | services/scheduler/ancora_scheduler/config.py:54-67 | an accepted mark and a reachable depth at or above `hard` at which bulk work is admitted if and only if the depth is below `soft` |
| Budget.BudgetLedger.Record | services/scheduler/ancora_scheduler/budget.py:47-51 | a positive spend is added to run and tenant, others are ignored |
| Budget.BudgetLedger.ForgetRun | services/scheduler/ancora_scheduler/budget.py:59-61 | the run's spend is dropped, tenants keep theirs |
| Engine.AdmissionStats.Record | services/scheduler/ancora_scheduler/engine.py:97-103 | each call adds one to its outcome, rule and queue/outcome counters |
| Engine.AdmissionEngine.Decide | services/scheduler/ancora_scheduler/engine.py:136-267 | the five governors in order, with the state each refusal leaves behind |
| Engine.AdmissionEngine.Admit | services/scheduler/ancora_scheduler/engine.py:136-267 | the decision and the whole new state, counters included |
| Engine.AdmissionEngine.Complete | services/scheduler/ancora_scheduler/engine.py:270-275 | spend is recorded and the slot released, whether or not it still exists |
| Decisions.DecisionTable | services/scheduler/ancora_scheduler/engine.py:136-267 | the whole decision from raw fields: the first governor in order with something against the request decides; its outcome, wait, ceiling on the attempt, warning and depth follow |
| AdmissionCalls.RefusedCallTakesNothing | services/scheduler/ancora_scheduler/engine.py:136-262 | a defer or reject leaves slots, lanes, spend and surviving clocks as they were, up to sweep and prune; other buckets stand, and the request's own keeps its level through a rule if and only if it was not polled or its refill looks alike through that rule |
| AdmissionCalls.RefusedCallTakesNoTokenIff | services/scheduler/ancora_scheduler/engine.py:232-256 | a refused call takes no token from any rule of its bucket if and only if it was not polled or its refill looks alike through all of them |
| AdmissionCalls.OneRuleKeepsEveryToken | services/scheduler/ancora_scheduler/engine.py:232-256 | where the policy gives the bucket one rule, a refused call takes no token, whoever asks next |
| AdmissionCalls.AdmittedCallTakesOneOfEach | services/scheduler/ancora_scheduler/engine.py:206-267 | an admission takes one slot, one lane count, one clock charge and at most one bucket take, and nothing else |
| AdmissionCalls.ChargeThenRefund | services/scheduler/ancora_scheduler/engine.py:210-243 | charge then refund moves no clock, and a newcomer keeps its place at the front |
| EngineRuns.ReachableIsSane | services/scheduler/ancora_scheduler/engine.py:136-275 | in every reachable state clocks are nonnegative and buckets sound |
| EngineRuns.ReachableQueuesAreBounded | services/scheduler/ancora_scheduler/backlog.py:46-141 | in every reachable state slots are conserved per queue and no queue is deeper than the higher of its marks |
| EngineRuns.QueuesDrainByThemselves | services/scheduler/ancora_scheduler/backlog.py:46-69 | once every admission is older than the time to live the queue reads 0, reports or not |
| EngineRuns.CountersAgree | services/scheduler/ancora_scheduler/engine.py:97-103 | outcome, rule and queue/outcome counters each sum to the calls made; admits equal the lane total and the tracker's admissions |
| EngineHistory.HoldsASlotIff | services/scheduler/ancora_scheduler/backlog.py:46-69 | on every run a token holds a slot of a queue if and only if its last admission was to that queue, no longer than the time to live ago, and nothing since reported it |
| EngineHistory.DepthIsHoldingAdmissions | services/scheduler/ancora_scheduler/backlog.py:67-69 | the depth of a queue is the number of its admissions that still hold their slot |
| EngineHistory.ActiveIff | services/scheduler/ancora_scheduler/fairness.py:60-83 | on every run a tenant competes on a queue if and only if a request of it reached the fair-share gate no longer than the idle time ago |
| EngineHistory.CountersAreExact | services/scheduler/ancora_scheduler/engine.py:97-103 | every rule, outcome, queue/outcome, provider and lane counter is the number of calls decided that way |
| EngineHistory.SlotCountersAreExact | services/scheduler/ancora_scheduler/backlog.py:53-65 | a queue's admitted counter is its admissions and its completed counter the reports that freed one of its slots |
| FairnessRuns.ReachableClocksAreSpread | services/scheduler/ancora_scheduler/engine.py:210-255 | in every reachable state all active clocks of a queue lie within twice the largest step ever charged of the slowest |
| FairnessRuns.ClockIsService | services/scheduler/ancora_scheduler/fairness.py:85-114 | over any interval a tenant's clock moves by exactly the sum of tokens over weight it was admitted for; refunded charges leave nothing |
| FairnessRuns.WeightedFairness | services/scheduler/ancora_scheduler/fairness.py:68-114 | for two tenants active throughout an interval the sums of tokens over weight differ by at most four times the largest such quotient admitted on the queue |
| FairnessRuns.TwoTenantsCompete | services/scheduler/ancora_scheduler/fairness.py:68-102 | a concrete run on which two tenants stay active while requests are decided, so the bound is about real competition |
| FairnessRuns.BlockedRivalCapsEveryone | services/scheduler/ancora_scheduler/engine.py:210-255 | a tenant that stays active unadmitted holds any rival to four steps in all |
| StuckQueue.BlockedTenantStopsTheQueue | services/scheduler/ancora_scheduler/engine.py:210-255 | for every n, on a run of n seconds in which an oversized request keeps being retried, its rival on a nearly empty queue has been admitted twice and is deferred for fairness |
| FairnessRuns.OversizedRequestIsNeverAdmitted | services/scheduler/ancora_scheduler/engine.py:232-256 | a request larger than its burst is refused in every state |
| FairnessRuns.SilentRivalsLetItThrough | services/scheduler/ancora_scheduler/fairness.py:60-102 | a tenant whose rivals have been silent for longer than the idle time is not deferred for fairness, on any history |
| FairnessRuns.AloneIsNotDeferred | services/scheduler/ancora_scheduler/fairness.py:86-102 | nor is a lone tenant |
| QuotaRuns.EngineRespectsQuota | services/scheduler/ancora_scheduler/engine.py:232-256 | in every window of an engine run the admissions draw from a bucket at most burst plus refill of any rule that dominates those it is used under |
| ProviderRules.RuleTimesItsBuckets | services/scheduler/ancora_scheduler/engine.py:232-238 | through a set of buckets a rule lets through at most their number times its burst plus refill, in every window |
| ProviderRules.RuleTimesItsBucketsIsReached | services/scheduler/ancora_scheduler/engine.py:232-238 | that bound is reached: `n` models of one provider take `n` full bursts at one instant under its single rule |
| ProviderRules.RuleBoundsItsProviderIff | services/scheduler/ancora_scheduler/engine.py:232-238 | a rule's own burst plus refill bounds all traffic through at most `n` buckets if and only if `n` is at most 1 |
| BucketRules.RulesReachingExactly | services/scheduler/ancora_scheduler/config.py:126-136 | the rules listed for a key from the policy are exactly those some request draws from it under |
| BucketRules.OneRuleIff | services/scheduler/ancora_scheduler/config.py:126-136 | all requests drawing from a key share one rule if and only if at most one is listed |
| BucketRules.OwnRuleIsTheOnlyOne | services/scheduler/ancora_scheduler/config.py:126-136 | a key without a slash, or with a rule of its own, has one rule in every policy |
| ProviderRules.PolicyBoundsBucket | services/scheduler/ancora_scheduler/engine.py:232-256 | if no rule listed for a key exceeds a rule, no window of any run draws more than its burst plus refill |
| ProviderRules.OneRuleBoundsBucket | services/scheduler/ancora_scheduler/engine.py:232-256 | a key with one listed rule stays within that rule in every window |
| ProviderRules.TwoRulesOneBucket | services/scheduler/ancora_scheduler/config.py:126-136 | one key reached under two rules, and admitted for more than the smaller one allows |
| ProviderRules.RefusalUnderASmallerRule | services/scheduler/ancora_scheduler/engine.py:232-256 | a request that never fits is refused and makes the engine refuse another that it would have admitted |
| TenantPool.PoolIsNeverRead | services/scheduler/ancora_scheduler/engine.py:160-184 | whatever the tenant pool holds, every call decides alike and leaves everything but the pool alike |
| TenantPool.PoolIsKeptIff | services/scheduler/ancora_scheduler/budget.py:71-112 | in hard mode what the check allows keeps the tenant within its budget if and only if it allows nothing or the tenant has spent no more than this run |
| TenantPool.LimitBindsIff | services/scheduler/ancora_scheduler/budget.py:71-112 | a limit refuses some request if and only if the mode is hard and the limit is present and positive |
| TenantPool.PoolCanBeOverdrawn | services/scheduler/ancora_scheduler/engine.py:160-184 | for every n, n runs in sequence, each admitted and within its limit, spend n times the tenant's budget, and the next is admitted too |
| TenantPool.PoolIsBoundedByItsRuns | services/scheduler/ancora_scheduler/budget.py:47-112 | over m runs a tenant spends at most m times (limit + (K-1)E) |
| QuotaRuns.PromisesAreBounded | services/scheduler/ancora_scheduler/budget.py:71-112 | spend plus outstanding estimates never exceeds the limit plus K-1 estimates, whatever is retried, lost or reported late |
| QuotaRuns.OverspendIsBounded | services/scheduler/ancora_scheduler/budget.py:47-112 | hard mode, through crashes and retries: at most K admissions outstanding at a time and estimates at most E keep spend within limit + (K-1)E; with one at a time the limit is never exceeded |
| Overspend.OverspendIsReached | services/scheduler/ancora_scheduler/engine.py:160-184 | for every K that bound is reached, by K attempts of one node on a run that meets its conditions |
| History.SortIds | services/api-gateway/ancora_api/graph.py:445 | the ids of a set in ascending order |
| GateMatching.MatchedOpensArePrefix | services/api-gateway/ancora_api/graph.py:295-374 | matched opens are a prefix of their gate's opens and the rest are the FIFO queue |
| GateMatching.WaitingIsQueueThenFuture | services/api-gateway/ancora_api/graph.py:339-349 | after any prefix of closes the matcher waits on the FIFO queue of the past followed by the opens of the future |
| GateMatching.TwoPassesAreOne | services/api-gateway/ancora_api/graph.py:312-349 | each close resolves the open that a single FIFO pass over history would give it |
| GateMatching.ResolutionIsFinal | services/api-gateway/ancora_api/graph.py:341-349 | later history never changes what a close resolved |
| GateMatching.PairsAreMaximal | services/api-gateway/ancora_api/graph.py:341-349 | no pairing of closes with earlier opens of their gate has more pairs |
| CriticalPath.PickSlowest | services/api-gateway/ancora_api/graph.py:525-527 | `max` under the key: the first of the greatest by duration, then id |
| CriticalPath.FindCriticalPath | services/api-gateway/ancora_api/graph.py:506-533 | the ids of one vertex per layer and their summed time, none if none of the chosen is measured |
| CriticalPath.SlowestIsGreatest | services/api-gateway/ancora_api/graph.py:525-527 | the chosen vertex is on the layer and no vertex there is greater under the key |
| CriticalPath.CriticalPathIsLongest | services/api-gateway/ancora_api/graph.py:517-533 | no way through the layers takes longer |
| CriticalPath.InputOrderIsIrrelevant | services/api-gateway/ancora_api/graph.py:517-533 | the path depends on the set of vertices, not on their order |
| CriticalPath.TimeIsMissingIff | services/api-gateway/ancora_api/graph.py:524-533 | the time is missing if and only if on every layer all measured vertices took zero and an unmeasured id sorts last |
| CriticalPath.ZeroDurationIsPassedOver | services/api-gateway/ancora_api/graph.py:527 | a run with one vertex measured at zero is reported as having no time |
| RunGraph.ReduceHistory | services/api-gateway/ancora_api/graph.py:130-191 | the loop over the log is the fold of one event at a time |
| RunGraph.CollectOpens | services/api-gateway/ancora_api/graph.py:312-339 | under each gate, the ids of its opens in order |
| RunGraph.MatchGates | services/api-gateway/ancora_api/graph.py:341-374 | the dictionary loop resolves every open as the per-close matching does |
| RunGraph.ResolvedIsGone | services/api-gateway/ancora_api/graph.py:346-349 | a resolved open waits in no queue, so no gate is resolved twice |
| RunGraph.DecimalIsInjective | services/api-gateway/ancora_api/graph.py:318 | different event ids print differently |
| GraphBuild.Collect | services/api-gateway/ancora_api/graph.py:441-453 | the vertices of all scheduled activities in event order, gates folded into one vertex each |
| GraphBuild.RankKeys | services/api-gateway/ancora_api/graph.py:465-469 | each layer key gets the number of smaller keys |
| GraphBuild.Connect | services/api-gateway/ancora_api/graph.py:474-485 | every vertex of a layer joined to every vertex of the next layer in use |
| GraphBuild.BuildGraph | services/api-gateway/ancora_api/graph.py:425-503 | vertices, layers, edges, critical path and its marks, from history and live state |
| GraphTheorems.LayersHaveNoHoles | services/api-gateway/ancora_api/graph.py:465-469 | below every layer in use all layers are in use |
| GraphTheorems.LayersAreInitial | services/api-gateway/ancora_api/graph.py:465-469 | the layers are 0 to m |
| GraphTheorems.EdgesJoinConsecutiveLayers | services/api-gateway/ancora_api/graph.py:474-485 | an edge exists if and only if it leads from a vertex to one on the next layer, and it is done if and only if its source completed |
| GraphTheorems.MarksExactlyThePath | services/api-gateway/ancora_api/graph.py:487-490 | marking changes no vertex but for its mark, which is on exactly the path |
| GraphTheorems.DrawnExactly | services/api-gateway/ancora_api/graph.py:445-453 | one vertex for every scheduled activity that is not a gate's close, and no other |
| GraphTheorems.VertexIdsAreDistinct | services/api-gateway/ancora_api/graph.py:256-419 | no two vertices share an id, the synthetic wait included |
| GraphTheorems.CriticalPathIsOptimal | services/api-gateway/ancora_api/graph.py:465-533 | in every built graph the path has one vertex per layer, none takes longer, and listing order is irrelevant |
| GraphStability.OrderedIsHistory | services/api-gateway/ancora_api/graph.py:445 | sorting a well-formed history's activities by id gives back history order |
| GraphStability.EndingsAreFinal | services/api-gateway/ancora_api/graph.py:130-191 | an activity that has ended keeps its end as history grows |
| GraphStability.ResolvedGatesStayResolved | services/api-gateway/ancora_api/graph.py:295-374 | a gate once resolved keeps the close that resolved it |
| GraphStability.LayerIsStable | services/api-gateway/ancora_api/graph.py:465-469 | a drawn vertex keeps its layer number as history grows |
| GraphStability.GraphIsStable | services/api-gateway/ancora_api/graph.py:425-503 | every activity and gate vertex reappears with the same id and layer, ended activities with the same end, resolved gates with the same decision |
| GraphFacts.StartedAndEnded | services/api-gateway/ancora_api/graph.py:205-253 | an activity last started at a and ended at b is drawn from a to b and takes b - a |
| GraphFacts.EndedActivity | services/api-gateway/ancora_api/graph.py:222-247 | an ended activity shows the outcome, instant and failure of its ending event, and starts at its last start, or as the server saw it, or where it was scheduled |
| GraphFacts.LiveActivity | services/api-gateway/ancora_api/graph.py:222-247 | an activity not ended has no end; the server's word makes it running, queued or retrying, and without a word history does |
| GraphFacts.AttemptAndWorker | services/api-gateway/ancora_api/graph.py:222-234 | the attempt is the greater of history's and the server's, the worker the server's or else history's, the kind by activity type |
| GraphFacts.LayersFollowDecisions | services/api-gateway/ancora_api/graph.py:465-469 | a vertex is on a lower layer than another if and only if an earlier workflow task decided it |
| GraphFacts.ResolvedGate | services/api-gateway/ancora_api/graph.py:312-361 | a resolved gate closed after it opened, under the same gate, and shows that close's decision and instant and the time in between |
| GraphFacts.WaitingGate | services/api-gateway/ancora_api/graph.py:376-393 | an unresolved gate is cancelled with a run that is over and parked in one that is not |
| GraphFacts.OpenTimersExactly | services/api-gateway/ancora_api/graph.py:167-180 | the open timers are those started and neither fired nor cancelled, in the order they were started |
| GraphFacts.SetInPlace | services/api-gateway/ancora_api/graph.py:167-173 | a timer set again while open takes the place it had |
| GraphFacts.ExpiryFromEvents | services/api-gateway/ancora_api/graph.py:386-389 | a waiting gate expires with the earliest started open timer that says when it fires |
| GraphFacts.WaitIsDrawnIff | services/api-gateway/ancora_api/graph.py:455-463 | the synthetic wait is drawn if and only if the run goes on with nothing pending, no waiting gate, something drawn, and a last workflow task that led to nothing |
| GraphFacts.WaitStandsLast | services/api-gateway/ancora_api/graph.py:397-419 | and then above the layers of all other vertices |
| Recovery.ReduceHistory | services/api-gateway/ancora_api/recovery.py:189-296 | the loop over the log is the fold of one event at a time |
| Recovery.HandoffsAreChanges | services/api-gateway/ancora_api/recovery.py:189-296 | hand-offs equal the changes in the sequence of named workflow-task workers |
| Recovery.ReplayedIsCompletionsAtLastHandoff | services/api-gateway/ancora_api/recovery.py:189-296 | `replayed_activities` is the completion count at the last hand-off |
| Recovery.NothingReplayedWithoutHandoff | services/api-gateway/ancora_api/recovery.py:189-296 | a run that never changed hands replayed nothing |
| Recovery.Spans | services/api-gateway/ancora_api/recovery.py:299-452 | the spans of every scheduled activity in event order |
| Recovery.LastSpanOfStarted | services/api-gateway/ancora_api/recovery.py:390-452 | the last span of a started activity is its last start's attempt and worker, up to the event that ended it |
| Recovery.LastSpanOfUnstarted | services/api-gateway/ancora_api/recovery.py:323-392 | of one history never saw start: as the ending event says, or as the server says is running, or queued |
| Recovery.FirstSpanOfStarted | services/api-gateway/ancora_api/recovery.py:394-437 | a first of two spans exactly after a lost attempt or a wait of more than a second, and what it says |
| Recovery.FirstSpanOfRunning | services/api-gateway/ancora_api/recovery.py:323-362 | the same for an attempt only the server knows of |
| Recovery.WorkersInOrderOfAppearance | services/api-gateway/ancora_api/recovery.py:200-202 | the workers listed are exactly those named, once each, in the order first named |
| Recovery.SpansTile | services/api-gateway/ancora_api/recovery.py:299-452 | one or two spans per activity, the first of two ending exactly where the second starts |
| Recovery.LostAttemptsAreExactIff | services/api-gateway/ancora_api/recovery.py:299-452 | lost attempts plus one equal the last span's attempt if and only if the latest attempt's number and start are known |
| Inbox.InMemoryInboxGuard.GetOrRun | packages/common/ancora_common/inbox.py:51-64 | for calls that do not overlap: a stored key replays without running; otherwise the effect runs once and only a result is stored |
| Inbox.OverlappingCalls | packages/common/ancora_common/inbox.py:59-64 | two calls that overlap around the await both run the effect, and the one storing last decides |
| Inbox.StoredResultIsSafeIff | packages/common/ancora_common/inbox.py:83-117 | a stored result stays as it is under every continuation if and only if each attempt on its key that is not over has run to that same result |
| Inbox.LaterCallersAgreeIff | packages/common/ancora_common/inbox.py:83-117 | under every continuation all later returns equal the stored result if and only if that condition holds |
| Inbox.ReachableKeepsInvariant | packages/common/ancora_common/inbox.py:75-117 | in every interleaving: done rows are the committed keys, running effects read before the first commit, and effects begun = committed + aborted + under way |
| Inbox.DoneStaysDone | packages/common/ancora_common/inbox.py:102-116 | a done row never leaves done, and only an attempt that read before the first commit can change its result |
| Inbox.EffectsReadBeforeTheFirstCommit | packages/common/ancora_common/inbox.py:83-99 | every effect execution belongs to an attempt whose read preceded the first commit |
| Inbox.LateReadersReplay | packages/common/ancora_common/inbox.py:84-87 | an attempt that reads after a commit returns the stored result |
| Inbox.EffectRunsOncePerAbortedAttempt | packages/common/ancora_common/inbox.py:75-117 | with sequential attempts the effect runs at most 1 + (attempts that began it and did not commit) times, exactly so once done |
| Inbox.ReturnsAgreeForever | packages/common/ancora_common/inbox.py:75-117 | with sequential attempts every return under a key, now or later, is the same |
| Inbox.StalePendingRunsAgain | packages/common/ancora_common/inbox.py:86-99 | a reservation left by a crash does not stop a second run of the effect |
| Inbox.ConcurrentAttemptsDisagree | packages/common/ancora_common/inbox.py:101-117 | two concurrent attempts can both run and return different results, the later overwriting the earlier |
| RunStream.StreamClient.OnMessage | web/lib/stream.ts:70-79 | an event frame moves the remembered id to its own and is handed on once; other frames change nothing |
| RunStream.StreamClient.OnClose | web/lib/stream.ts:80-87 | the remembered id survives; the wait doubles per failed attempt up to 15 s; nothing after tear-down |
| RunStream.DelaysDoubleToFifteenSeconds | web/lib/stream.ts:83-86 | the waits are 1, 2, 4 and 8 seconds and then 15 each |
| RunStream.ServeOnce | services/api-gateway/ancora_api/routers/stream.py:110-119 | one turn of the loop: a heartbeat alone if and only if the stream holds nothing above the cursor, otherwise a frame for each of the next 128 entries at most, in order, and the cursor moves on |
| CatchUp.ConnectedClientCatchesUp | services/api-gateway/ancora_api/routers/stream.py:110-119 | from every reachable state with a socket, finitely many reads, sends and deliveries bring it to rest with the client having seen all it is owed |
| CatchUp.EveryClientCanCatchUp | web/lib/stream.ts:57-92 | from every reachable state, connecting first where there is no socket |
| RunStream.ServingIsReadingThenSending | services/api-gateway/ancora_api/routers/stream.py:110-119 | that turn is one read and then one send per entry, the steps runs are made of |
| RunStream.RunsStayInStep | web/lib/stream.ts:57-92 | seen, on the wire and batched, end to end, are a prefix of what the client is owed, and both cursors stand where their part ends |
| RunStream.FreshClientSeesAPrefix | services/api-gateway/ancora_api/routers/stream.py:103-119 | across any connects, sends, lost frames and reconnects a fresh client has seen exactly a prefix of the stream, if only read entries were trimmed |
| RunStream.OnlyTrimmedEntriesAreMissed | packages/common/ancora_common/events.py:198-254 | under any trimming the events seen are in order, once each and published, and up to the last of them only trimmed ones are missing |
| RunStream.IdleMeansCaughtUp | services/api-gateway/ancora_api/routers/stream.py:110-116 | an idle socket means the client has seen all it is owed |
| RunStream.SwitchingRunsIsGapFreeIff | web/lib/stream.ts:44-64 | pointed at another run, the client ends up with all of it if and only if no id in it is at or below the one carried over |
| RunStream.SwitchingCanMissEvents | web/lib/stream.ts:44-64 | a reachable idle state in which a carried-over id has hidden the run's only event |
| Idempotency.IdempotencyStore.Sweep | services/api-gateway/ancora_api/idempotency.py:62-65 | exactly the entries older than the time to live go |
| Idempotency.IdempotencyStore.Begin | services/api-gateway/ancora_api/idempotency.py:67-74 | an unexpired entry is given back, otherwise the key is reserved |
| Idempotency.IdempotencyStore.Finish | services/api-gateway/ancora_api/idempotency.py:76-86 | a response below 400 is kept under its reservation, others free the key, an unknown key is ignored |
| Idempotency.IdempotencyStore.Abandon | services/api-gateway/ancora_api/idempotency.py:88-90 | the key is freed |
| Idempotency.TakesPartIff | services/api-gateway/ancora_api/idempotency.py:101-105 | a request takes part if and only if it brings a key and is a POST, PUT, PATCH or DELETE |
| Idempotency.SameKeyIff | services/api-gateway/ancora_api/idempotency.py:101-105 | two requests share a stored key if and only if verbs agree and path, colon and header run together agree; without colons in paths, all three agree |
| Idempotency.ColonInAPathCollides | services/api-gateway/ancora_api/idempotency.py:105 | two different requests that share a key |
| Idempotency.OneHandlerAtATime | services/api-gateway/ancora_api/idempotency.py:100-149 | with handlers shorter than the time to live, at most one runs per key in any interleaving |
| Idempotency.OneSuccessPerLifetime | services/api-gateway/ancora_api/idempotency.py:67-86 | after a success no handler runs on its key within the time to live of the reservation |
| Idempotency.ReplaysEqualTheSuccess | services/api-gateway/ancora_api/idempotency.py:107-124 | every replay is the success of an earlier request on the same key |
| Idempotency.AnswerFollowsHistory | services/api-gateway/ancora_api/idempotency.py:100-149 | refused if and only if a handler works on the key or was lost within the time to live, replayed if and only if a success is that young, run otherwise; so failing or raising frees the key |
| Idempotency.SecondHandlerIff | services/api-gateway/ancora_api/idempotency.py:62-74 | a second handler starts beside a running one if and only if the first has outlived the time to live |
| Idempotency.SettlesOnlyItsOwnIff | services/api-gateway/ancora_api/idempotency.py:76-90 | however a handler ends, it leaves every other reservation alone if and only if its key is not stored or stored for itself |
| Idempotency.LateSuccessAnswersForAnother | services/api-gateway/ancora_api/idempotency.py:76-86 | an outlived handler's response is replayed in the name of the second one while that one still runs |
| Idempotency.LateFailureFreesAnother | services/api-gateway/ancora_api/idempotency.py:88-90 | an outlived handler's failure lets a third one run beside the second |
| Idempotency.LostHandlerBlocksItsKey | services/api-gateway/ancora_api/idempotency.py:126-142 | a run in which a lost handler makes the next request be refused |
| Idempotency.OutlivedHandlerRunsTwice | services/api-gateway/ancora_api/idempotency.py:62-74 | a concrete run with two handlers at once |
| Checkpoint.LiveProgress.Report | services/activity-workers/ancora_activity_worker/ray_bridge.py:61-67 | the latest report is the last one made |
| Checkpoint.BatchedCompute | services/activity-workers/ancora_activity_worker/tasks.py:53-98 | the loop reports and ends as the recursion over remaining batches says, under cancellation and injected crash |
| Checkpoint.ComputeKeepsOffset | services/activity-workers/ancora_activity_worker/tasks.py:71-86 | report k is for batch start + k + 1 and carries exactly the weights of the batches done since the start |
| Checkpoint.ComputeReturnsIff | services/activity-workers/ancora_activity_worker/tasks.py:71-98 | the compute returns if and only if no remaining batch crashes or is cancelled, with the weight of just those batches |
| Checkpoint.WorkFollowsCompute | services/activity-workers/ancora_activity_worker/tasks.py:71-98 | the batches an attempt works through make the reports of `Compute` one by one and end as it does |
| Checkpoint.ResumeIsRightIff | services/activity-workers/ancora_activity_worker/activities.py:58-64 | resuming from given heartbeat details yields the uninterrupted result if and only if they are on track |
| Checkpoint.HalfARecord | services/activity-workers/ancora_activity_worker/activities.py:58-64 | details without a batch count everything again, details without a checksum skip what they name, other details start over |
| Checkpoint.RetriesReturn | services/activity-workers/ancora_activity_worker/activities.py:67-69 | the injected crash strikes the first attempt alone: every later one returns |
| Checkpoint.DetachedReturnsIff | services/activity-workers/ancora_activity_worker/activities.py:150 | a detached compute returns if and only if no crash is injected within its batches |
| Checkpoint.ResumeEqualsUninterrupted | services/activity-workers/ancora_activity_worker/activities.py:98-138 | for any crashes and any earlier checkpoint handed to each attempt, checkpoints carry 7b(b+1)/2 and the result is that of an uninterrupted run |
| Checkpoint.OnlyUnreportedWorkIsRedone | services/activity-workers/ancora_activity_worker/activities.py:112-126 | resuming at the last heartbeat, batches executed are those reported plus those that dying workers left unreported |
| Checkpoint.ResultCostsItsBatchesAndTheLost | services/activity-workers/ancora_activity_worker/activities.py:98-138 | a job with a result executed exactly its own batches and the lost ones, and just its own when no worker died |
| Checkpoint.NothingLostWithoutDeaths | services/activity-workers/ancora_activity_worker/activities.py:122-126 | an injected crash loses no batch, since the last checkpoint is flushed first |

## Left out

- Float rounding, including the rounding of the critical path's time and of the Redis reply.
- One call reads one instant; the program reads the clock again within a call.
- Reset and metrics endpoints, `forget_run` during a run, and hot reload of the policy: runs have one fixed policy.
- Labels, notes and reasons, `_disambiguate`, and the listing order of nodes by label; edges and layers are stated on nodes in the order drawn.
- GraphBuild.Collect: vertices are values; the program mutates shared node objects, each of which one queue and one list hold.
- RunGraph.ReduceHistory: does not keep the workflow's name, which only labels the graph, or its signals, which the graph never reads.
- GraphBuild.BuildGraph: does not return labels, notes or the counts of completed and of all nodes.
- Recovery.ReduceHistory: does not build the recovery markers or the list of signals.
- Recovery.Spans: a span does not carry the node id and the activity type.
- Recovery windows and fleet liveness.
- EngineRuns.QueuesDrainByThemselves: speaks of reads after the time to live; the program also keeps zero entries for drained queues in its metrics.
- Decoding of history events and of stream entries, and the publish to the global stream.
- RunStream.ServeOnce: ids are numbers; the program compares Redis ids of the form time-sequence.
- RunStream.StreamClient.OnMessage: does not take an event frame without an id, or one that does not parse; this server sends neither.
- Inbox.InMemoryInboxGuard.GetOrRun: is one call that no other overlaps; `Lookup` and `Store` are the two sides of its await.
- RunStream.FreshClientSeesAPrefix: what the fail-open publisher drops was never in the stream; the theorem is about what was published.
- Idempotency.IdempotencyStore.Begin: one instant for sweep and reservation; the response's other headers, which a replay does not carry.
- Checkpoint.ResumeEqualsUninterrupted: one attempt at a time, as the Temporal server runs them; a superseded attempt's late heartbeats are refused by the server, which is not part of this model.
- Checkpoint.OnlyUnreportedWorkIsRedone: the local backend, and a server that takes every heartbeat sent.
- The node recorder, tracing, HTTP, the database, Redis, Ray and Temporal themselves.
