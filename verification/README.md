# Verification of the dawn-kestrel run-time core

This project models the stateful core of the dawn-kestrel agent framework and proves
properties of the model. Every property is about all inputs, all runs or all
interleavings; where a property a reader would expect does not hold of the code, the
project proves exactly when it does and gives a concrete run where it does not.

`dafny verify dfyconfig.toml` checks everything. Each module has the same shape: a pure
state with step functions that follow the source branch by branch, lemmas about runs of
those steps, and, where the source updates objects in place, a class whose methods and
loops are proved to do exactly what the step functions say.

| file | what it models |
|---|---|
| `EvidenceCache.dfy`, `EvidenceCacheRecency.dfy` | the least-recently-used response cache and its get-or-compute caller; when it hits, by the calls alone |
| `RateLimit.dfy`, `RateLimitTracker.dfy`, `RateLimitReset.dfy` | one token bucket written three times (local, Lua script, fallback), the trackers around it with failover, and what a reset forgets |
| `ProviderBus.dfy`, `ProviderBusEvents.dfy` | concurrent `execute` calls: rate check, semaphore, active counter, retries, and statistics against the events of a run |
| `Bulkhead.dfy`, `BulkheadAttribution.dfy`, `BulkheadLimits.dfy` | concurrent `try_execute` and `set_limit` calls over semaphores kept in a set, whose active counts are right, and which limit a semaphore enforces |
| `Delegation.dfy`, `DelegationResults.dfy`, `DelegationPrefix.dfy`, `DelegationCount.dfy`, `DelegationEngine.dfy` | depth-first delegation over an unbounded tree, against a budget-free trace: which agents run, when that is a prefix of the whole tree's trace, and how many |
| `DelegationTrace.dfy` | what the whole tree's trace lists |
| `DelegationPool.dfy` | breadth-first delegation with a worker pool in every interleaving |
| `DelegationContent.dfy` | whose answers and errors either delegation hands back, which children are queued, and that the pool uses its workers |
| `Convergence.dfy`, `ConvergenceMeaning.dfy` | evidence signatures and the stagnation tracker; when two batches have one signature |
| `Fsm.dfy` | the state machine builder, transitions with a write-through history, and the workflow table |
| `AiSession.dfy`, `AiSessionContent.dfy` | stream processing: delta merging, tool-call de-duplication, text assembly; which calls are executed and what is handed back |
| `EventBus.dfy`, `EventBusHistory.dfy` | subscriptions, `once`, removal by value, callbacks that subscribe |
| `UnitOfWork.dfy`, `UnitOfWorkHistory.dfy` | pending entities and a commit over overwriting file storage; what a run of calls leaves stored |
| `Frontmatter.dfy`, `FrontmatterForms.dfy` | the hand-written frontmatter parser; other spacing, quoting and stray lines |
| `Prelude.dfy` | options, minima and sequence facts the others share |

## What was found

- **Delegation.** The agents a depth-first delegation runs are a prefix of one
  budget-free trace. Evidence that cannot be sorted raises inside the loop over children:
  the child's subtree is skipped and the next sibling still runs, so they are a prefix of
  the whole tree's trace exactly when no run before the last one raises with a subtree
  below it (`RunsAreFullPrefixIff`, `PrunedIsFullPrefixIff`). A child with children runs
  twice. With any configuration, tracker and clock, the cap `max_total_agents` is
  exceeded, by one, exactly when a delegation reaches it between those two runs
  (`CapExceededIff`), and the count of agents is the first place where the trace ends or,
  with no second run due, the cap is reached or the tracker has converged, unless the
  clock ends it before (`ExactCount`). `iteration_count` is never incremented, so
  `max_iterations` never stops anything, and the report always says "completed", depth 0
  and no iterations (`ReportMeaning`). Breadth-first delegation never runs grandchildren
  (`BfsKeepsBudget`). Either way the results are the agents' own answers in the order they
  ran or finished, up to evidence that raises (`DelegateFilesAnswers`, `BfsFilesAnswers`).
- **Convergence.** With an injective digest, and parts free of the joining bar, two batches
  have one signature exactly when they say the same things in any order, but that a batch
  with no part at all cannot be told from one whose only part is empty
  (`SameSignatureIff`). With a bar in a part, different evidence can pass for the same
  (`BarsCollide`).
- **Rate limits.** The Lua bucket and the local bucket answer alike on every request
  sequence exactly when the limit is positive (`LuaEqualsLocalIffPositive`). A
  script that fails to load sends one call to the fallback and the next ones back to
  Redis. So failover adds at most one capacity to every window from some moment on exactly
  when, at that moment, the script is loaded, Redis is out of use, or the key's fallback
  bucket is empty (`OneExtraCapacityIff`); it never adds more than two
  (`RedisSlidingWindow`). With `fallback_on_error=False` the tracker never uses Redis at
  all (dawn_kestrel/llm/distributed_limiter.py:154): the option turns Redis off, not the
  fallback. A reset whose deletion fails on the server is swallowed, and the server goes on
  as if nothing had been reset (`FailedDeletionForgetsNothing`).
- **Provider bus.** A denied call sleeps and goes on without drawing a token, so the
  bucket bounds admissions, not dispatches (`StatisticsAreExact`).
- **Bulkhead.** `release` drops the semaphore from a set, so a second overlapping release
  is refused and its permit is lost for good: all permits come back exactly when no two
  operations ever overlapped (`PermitsReturnIffNeverOverlapped`), and always with the
  default limit of 1. The active count of one resource may be decremented for another
  (`AttributionDrifts`); the counts are right at every moment of a run exactly when every
  release that takes effect is by a resource with no earlier-counted one holding a permit
  (`AttributionIff`). A semaphore keeps for good the limit in force when the first call for
  its resource came in, an override for that one call included; later limits change nothing
  (`RunningWithinConfigured`, `GrantedIffPermitsLeft`).
- **State machine.** A failed write leaves the machine in the new state with no history
  entry (`FailedWriteLeavesHole`). The documentation of `build` promises an error for
  undefined states; `with_transition` declares both ends, so that error cannot occur
  (`BuildOutcomes`).
- **Session.** Merging a second delta replaces a text part's creation time by an update
  time (`CreationTimeSurvivesOneDelta`). Tool calls with different tools or inputs are never
  taken for one another unless a tool's name holds a colon (`SameSignatureIff`,
  `ColonsCollide`).
- **Unit of work.** The documentation promises that no partial changes are persisted; a
  commit that fails midway leaves its earlier entities in the store and a rollback does
  not remove them (`CommitIsNotAtomic`). Whatever befalls its writes, a commit is all or
  nothing exactly when there is nothing to write or the first path is rejected
  (`AlwaysAtomicIff`); if failing writes leave no junk, exactly when every entity before
  the last possible failure is already stored as it is (`AtomicWithoutJunkIff`). Retrying
  heals it (`RetriesHeal`).
- **Event bus.** Unsubscribing removes the earliest equal subscription. It takes nobody
  else's away exactly when the caller's own is listed with no equal one made before it, or
  when no equal one is listed at all (`UnsubscribeTakesOwn`). A stale call, after a `once`
  delivery, removes an equal subscription made since, which is then never delivered
  (`StaleUnsubscribeTakesAnother`).

## Model

| member | source | states |
|---|---|---|
| EvidenceCache.RunBounded | dawn_kestrel/llm/evidence_sharing.py:49-78 | after any run of gets, sets and clears keys are distinct and the size is at most the capacity |
| EvidenceCache.HitIsLatestSet | dawn_kestrel/llm/evidence_sharing.py:59-78 | every hit returns the value of the latest set of that key since the last clear |
| EvidenceCache.OrderIsRecency | dawn_kestrel/llm/evidence_sharing.py:59-74 | the dictionary's order is the order of last use (a set, or a get that hit) |
| EvidenceCache.EvictsLeastRecentlyUsed | dawn_kestrel/llm/evidence_sharing.py:68-74 | a set that makes another key disappear found the cache full, removes only that key, and that key was used longest ago |
| EvidenceCache.Inclusion | dawn_kestrel/llm/evidence_sharing.py:48-78 | on every common run a smaller cache is a subsequence of a larger one, entries and recency order included |
| EvidenceCache.SmallHitIsLargeHit | dawn_kestrel/llm/evidence_sharing.py:59-66 | every hit of the smaller cache is the same hit in the larger one |
| EvidenceCache.AnswerIsLatestComputation | dawn_kestrel/llm/client.py:599-661 | however the provider's answers vary, get-or-compute answers with the latest computation for the key since the last clear, its own if it misses |
| EvidenceCache.CacheIsTransparent | dawn_kestrel/llm/client.py:599-661 | over a provider that answers a key always alike, any capacity answers what the provider alone would |
| EvidenceCache.MoreCapacityNeverComputesMore | dawn_kestrel/llm/client.py:599-661 | for the same calls, whatever the providers answer, the smaller cache holds the latest keys of the larger one, which never asks more often |
| EvidenceCacheRecency.HeldIffFewOthersSince | dawn_kestrel/llm/evidence_sharing.py:59-78 | after any run of gets, sets and clears a key is held exactly if, since it was last used, fewer other keys than the capacity have been used and no clear has come; those keys are the ones listed after it |
| EvidenceCacheRecency.HitIffFewOthersSince | dawn_kestrel/llm/client.py:599-661 | whatever the provider answers, a call hits exactly if its key was asked for since the last clear and fewer other keys than the capacity since then, by the calls alone |
| EvidenceCacheRecency.ComputedIsMisses | dawn_kestrel/llm/client.py:599-661 | the provider is asked once for each call that misses by that rule, and for no other |
| EvidenceCacheRecency.AnswersFollowTheCalls | dawn_kestrel/llm/client.py:599-661 | every call is answered by the last computation made for its key, which one is read off the calls alone |
| EvidenceCache.HashMapStrategy.Get | dawn_kestrel/llm/evidence_sharing.py:59-66 | a hit moves its entry to the end and returns its value, a miss changes nothing |
| EvidenceCache.HashMapStrategy.Set | dawn_kestrel/llm/evidence_sharing.py:68-74 | assigning in place, moving to the end and the popping loop together keep the last entries with the new one latest |
| EvidenceCache.HashMapStrategy.Evict | dawn_kestrel/llm/evidence_sharing.py:73-74 | the popping loop keeps exactly the latest entries, as many as the capacity |
| RateLimit.RefillComposes | dawn_kestrel/llm/provider_limits.py:196-199 | refilling in two steps gives the balance of refilling once |
| RateLimit.CheckBalance | dawn_kestrel/llm/provider_limits.py:182-210 | a check is allowed exactly when the refilled balance covers the cost, and spends exactly that |
| RateLimit.LuaStepMatches | dawn_kestrel/llm/distributed_limiter.py:38-74 | one run of the script answers and leaves a balance as the local bucket does, even on a key that expired after an hour |
| RateLimit.LuaEqualsLocalIffPositive | dawn_kestrel/llm/distributed_limiter.py:166-180 | the two buckets agree on every request sequence if and only if the limit is positive |
| RateLimit.NonPositiveLimitDiffers | dawn_kestrel/llm/distributed_limiter.py:38-74 | for any limit that is not positive there is a sequence they answer differently |
| RateLimit.DeniedPollLeavesNoTrace | dawn_kestrel/llm/provider_limits.py:196-210 | leaving out a denied poll changes no later answer, waits included |
| RateLimit.WaitSuffices | dawn_kestrel/llm/provider_limits.py:206-210 | after the returned wait with nothing spent, the balance covers the cost, if the capacity does |
| RateLimit.RetryAfterWait | dawn_kestrel/llm/provider_limits.py:196-210 | a denied request repeated after its wait with no admission in between is admitted exactly if its cost fits the capacity |
| RateLimit.WaitIsExact | dawn_kestrel/llm/provider_limits.py:196-210 | with nothing spent after a denial, the balance covers the cost exactly if the capacity does and the returned wait, less its jitter, is over: it is long enough and no longer |
| RateLimit.RetryAdmittedIff | dawn_kestrel/llm/provider_limits.py:196-210 | a denied request repeated with no admission in between, at any later time, is admitted exactly then |
| RateLimit.TooCostlyNeverAdmitted | dawn_kestrel/llm/provider_limits.py:182-210 | a cost above the capacity is denied in every run |
| RateLimitTracker.TokensStayInRange | dawn_kestrel/llm/provider_limits.py:182-210 | with costs of at least zero on its key, a bucket always holds between nothing and its capacity |
| RateLimitTracker.LocalSlidingWindow | dawn_kestrel/llm/provider_limits.py:182-234 | after any history, what a key is admitted over a window without resets or negative costs is at most the capacity plus the inflow |
| RateLimitTracker.CheckCases | dawn_kestrel/llm/distributed_limiter.py:152-194 | a check is answered by the server's bucket or by the fallback's, never both; the server spends exactly when its script runs, a lost reply included, and is given up exactly when connection, script or reply fails |
| RateLimitTracker.RedisSlidingWindow | dawn_kestrel/llm/distributed_limiter.py:152-194 | Redis and fallback together admit over any window at most three capacities plus the inflow, and at most two capacities plus twice the inflow; two capacities plus the inflow if the script is loaded or never fails to load |
| RateLimitTracker.OneExtraCapacityIff | dawn_kestrel/llm/distributed_limiter.py:132-194 | for a positive limit and after any history, every window keeps to two capacities plus the inflow if and only if the script is loaded, Redis is out of use, or the key's fallback bucket is empty |
| RateLimitTracker.LoadFailureBreaksOneWayBound | dawn_kestrel/llm/distributed_limiter.py:143-150 | from every other state, for every positive limit, four calls with one failed script load admit more than that |
| RateLimitReset.ResetForgets | dawn_kestrel/llm/provider_limits.py:229-232 | after a reset every check of the key is answered as by a tracker that has never been used, and no other key notices |
| RateLimitReset.RedisResetForgets | dawn_kestrel/llm/distributed_limiter.py:211-225 | the same of server and fallback together, unless the deletion on an available server fails |
| RateLimitReset.FailedDeletionForgetsNothing | dawn_kestrel/llm/distributed_limiter.py:217-225 | when it fails, the error is swallowed and a key that has used up its limit stays denied |
| RateLimitReset.FreshAdmitsTheLimit | dawn_kestrel/llm/provider_limits.py:175-210 | a tracker with no past admits, of any number of unit requests for a key at one instant, exactly the key's requests per minute, its own or the default, and none if that is not positive |
| RateLimitReset.FreshRedisAdmitsTheLimit | dawn_kestrel/llm/distributed_limiter.py:38-74 | so does the script while the connection holds |
| RateLimitTracker.LocalTracker.CheckAllowed | dawn_kestrel/llm/provider_limits.py:182-210 | the tracker's buckets and answer after a check, all other keys unchanged |
| RateLimitTracker.LocalTracker.Reset | dawn_kestrel/llm/provider_limits.py:229-232 | resetting forgets the key's bucket and no other |
| RateLimitTracker.RedisTracker.CheckAllowed | dawn_kestrel/llm/distributed_limiter.py:152-194 | server entries, fallback buckets, cached script and availability flag after a check on any kind of link |
| RateLimitTracker.RedisTracker.Reset | dawn_kestrel/llm/distributed_limiter.py:217-225 | the reset reaches the fallback's bucket, and the server's while it is available |
| ProviderBus.ClampNeverBites | dawn_kestrel/llm/provider_bus.py:284-287 | the decrement of the active counter never meets its clamp at zero |
| ProviderBus.PermitsAndCounters | dawn_kestrel/llm/provider_bus.py:193-289 | in every interleaving permits plus holders equal the provider's limit and the counter counts the calls between increment and decrement |
| ProviderBus.StatisticsAreExact | dawn_kestrel/llm/provider_bus.py:197-256 | requests, successes, denials, total wait and 429 errors are those of the calls; denied calls go on without a token |
| ProviderBusEvents.StatisticsCountTheEvents | dawn_kestrel/llm/provider_bus.py:197-256 | for every run each statistic counts the events themselves, a 429 only while the call has a retry left; the milliseconds waited are a thousand times the seconds asked for, to within one for each denial |
| ProviderBus.QuiescenceRestoresEverything | dawn_kestrel/llm/provider_bus.py:224-289 | when every call has returned all counters are zero and all permits are back |
| ProviderBus.NoDeadlock | dawn_kestrel/llm/provider_bus.py:193-289 | while a call has not returned, some call can move |
| ProviderBus.EveryCallReturns | dawn_kestrel/llm/provider_bus.py:233-271 | the steps of all calls are bounded by their number and their allowed retries |
| ProviderBus.SucceedsIff | dawn_kestrel/llm/provider_bus.py:233-271 | a call succeeds exactly when an attempt within the allowance succeeds after nothing but 429s |
| ProviderBus.RetryLoopIsRun | dawn_kestrel/llm/provider_bus.py:230-282 | the retry loop's effect on the bus is that of its call's own steps, from any attempt on |
| ProviderBus.Bus.EnterCall | dawn_kestrel/llm/provider_bus.py:193-198 | the semaphore is created once with the provider's limit and the request is counted |
| ProviderBus.Bus.AfterCheck | dawn_kestrel/llm/provider_bus.py:200-221 | a failed check returns, a denied one is counted with its wait in whole milliseconds and goes on |
| ProviderBus.Bus.TakeSemaphore | dawn_kestrel/llm/provider_bus.py:224 | entering the semaphore takes one of the provider's permits |
| ProviderBus.Bus.StartRequest | dawn_kestrel/llm/provider_bus.py:225-226 | the active counter goes up by one, from zero when missing |
| ProviderBus.Bus.TryOperation | dawn_kestrel/llm/provider_bus.py:230-282 | the retry loop ends as the attempts decide and counts one success or none and one 429 for each retry |
| ProviderBus.Bus.FinishRequest | dawn_kestrel/llm/provider_bus.py:284-287 | the `finally` block is the counting-down step |
| ProviderBus.Bus.LeaveSemaphore | dawn_kestrel/llm/provider_bus.py:224 | leaving the semaphore returns the permit |
| Bulkhead.StepKeepsInvariant | dawn_kestrel/llm/bulkhead.py:135-288 | every step of every `try_execute`, and every `set_limit`, keeps the permit and count accounting |
| Bulkhead.RunningWithinLimit | dawn_kestrel/llm/bulkhead.py:175-240 | running operations never exceed the limit the semaphore was created with, permits never exceed it either, and active counts sum to the outstanding permits; which limit that is, RunningWithinConfigured says |
| BulkheadLimits.RunningWithinConfigured | dawn_kestrel/llm/bulkhead.py:135-288 | running operations never exceed the limit that was in force, read off the events alone, when the resource's semaphore was created; none run before that |
| BulkheadLimits.GrantedIffPermitsLeft | dawn_kestrel/llm/bulkhead.py:187-199 | a waiting call can be granted a permit exactly while fewer permits are out, by the events, than that limit |
| BulkheadLimits.ConfiguredIsInForce | dawn_kestrel/llm/bulkhead.py:135-162 | the configured limit is the last one set, overridden by a call, or put back at that call's end; 1 if there was none |
| Bulkhead.LeakStep | dawn_kestrel/llm/bulkhead.py:196-230 | a permit leaks exactly when one is granted while the semaphore is still in the managed set |
| Bulkhead.LeakIffOverlap | dawn_kestrel/llm/bulkhead.py:211-240 | a resource has leaked a permit exactly when two of its operations have overlapped |
| Bulkhead.PermitsReturnIffNeverOverlapped | dawn_kestrel/llm/bulkhead.py:211-240 | once nothing runs, all permits are back if and only if operations never overlapped |
| Bulkhead.LimitOneNeverLeaks | dawn_kestrel/llm/bulkhead.py:153-162 | with a limit of at most 1, the default, outstanding permits are exactly the running operations |
| Bulkhead.LeakIsPermanent | dawn_kestrel/llm/bulkhead.py:211-240 | no continuation of a run brings a leaked permit back |
| Bulkhead.OverlapLosesPermit | dawn_kestrel/llm/bulkhead.py:242-288 | two overlapping operations under limit 2 leave the semaphore with one permit |
| Bulkhead.AttributionDrifts | dawn_kestrel/llm/bulkhead.py:232-235 | a run in which finishing on one resource decrements the count of another |
| BulkheadAttribution.StepAttributedIff | dawn_kestrel/llm/bulkhead.py:196-235 | while the counts are right, a step keeps them right exactly if any release it makes is by the first resource that holds a permit |
| BulkheadAttribution.AttributionIff | dawn_kestrel/llm/bulkhead.py:211-240 | over every run the counts are right at every moment if and only if every release that takes effect is of that kind |
| Bulkhead.BulkheadImpl.SetLimit | dawn_kestrel/llm/bulkhead.py:135-142 | the configured limit changes, existing semaphores do not |
| Bulkhead.BulkheadImpl.RequestPermit | dawn_kestrel/llm/bulkhead.py:186-193 | a missing semaphore is created with the limit in force, a negative limit is an error |
| Bulkhead.BulkheadImpl.TakePermit | dawn_kestrel/llm/bulkhead.py:196-201 | permit, managed set and active count after an acquisition |
| Bulkhead.BulkheadImpl.ReleasePermit | dawn_kestrel/llm/bulkhead.py:211-240 | refused outside the managed set; otherwise permit, managed set and the first positive count change |
| Delegation.CheckFiresWhenStopped | dawn_kestrel/delegation/engine.py:435-458 | inside a delegation the boundary check fires exactly for the conditions that, once true, stay true |
| Delegation.DfsFollows | dawn_kestrel/delegation/engine.py:255-351 | from any ready state the traversal runs a prefix of its trace, restores the depth, and stops early only when stopped for good |
| DelegationResults.RunsArePrefix | dawn_kestrel/delegation/engine.py:77-120 | for every tree, budget, oracle and non-decreasing clock the agents run are a prefix of one budget-free trace |
| DelegationResults.PrunedIsFullIffHarmless | dawn_kestrel/delegation/engine.py:318-348 | that trace is the whole tree's exactly when no run with a subtree below it raises |
| DelegationPrefix.RunsAreFullPrefixIff | dawn_kestrel/delegation/engine.py:302-348 | the agents run are a prefix of the whole tree's trace if and only if no run before the last raises with a subtree below it |
| DelegationPrefix.PrunedIsFullPrefixIff | dawn_kestrel/delegation/engine.py:302-348 | the same for the budget-free trace, whatever a budget lets run of it |
| DelegationResults.RaisingEvidenceSkipsSubtree | dawn_kestrel/delegation/engine.py:318-348 | a tree where evidence that cannot be sorted skips a subtree and its sibling still runs |
| DelegationResults.DelegationBalanced | dawn_kestrel/delegation/engine.py:405-433 | at the end spawned equals completed, nothing is active, and the depth is back to 0 |
| DelegationTrace.TraceIsPreorder | dawn_kestrel/delegation/engine.py:302-340 | the first runs of the whole tree's trace are its nodes above the depth limit, each once and in preorder, under their own names and prompts or the defaults; the second runs are the inner nodes below the root in that order |
| DelegationTrace.TraceIsPaired | dawn_kestrel/delegation/engine.py:318-340 | a second run comes right after the first run of the same node |
| DelegationResults.RunsStayAboveDepthLimit | dawn_kestrel/delegation/engine.py:295-300 | no agent runs at or beyond `max_depth` |
| DelegationResults.AtMostOneBeyondCap | dawn_kestrel/delegation/engine.py:304-340 | at most one agent beyond `max_total_agents`, and then it is the second run of a child |
| DelegationCount.CapExceededIff | dawn_kestrel/delegation/engine.py:304-340 | for every configuration, tracker and clock, the cap is exceeded exactly when a delegation reaches it with a second run next |
| DelegationCount.ExactCount | dawn_kestrel/delegation/engine.py:287-345 | the count is the first n where the trace ends or, with no second run next, the cap is reached or the tracker fed n outcomes has converged; only the clock ends it before |
| DelegationCount.CountIsStopCount | dawn_kestrel/delegation/engine.py:287-345 | within the time limit it is exactly that |
| DelegationResults.CountWithoutConvergence | dawn_kestrel/delegation/engine.py:304-340 | without convergence checks and timeouts it is the whole tree's trace, the cap, or one more |
| DelegationResults.EveryRunIsFiled | dawn_kestrel/delegation/engine.py:279-285 | every run leaves exactly one result or one agent error; which ones, DelegateFilesAnswers says |
| DelegationContent.DelegateFilesAnswers | dawn_kestrel/delegation/engine.py:279-348 | the results are the answers of the agents run, in order, the agent errors the messages of those that failed, and each exception stands where it was raised, except the root's, which ends the delegation |
| DelegationContent.ReportContents | dawn_kestrel/delegation/engine.py:460-483 | what the report says, read off the agents' outcomes: results, errors, success, convergence, stagnation, last signature and elapsed time |
| DelegationEngine.ReportMeaning | dawn_kestrel/delegation/engine.py:460-483 | the report always says completed, depth 0, no iterations; success means every run gave a result and nothing raised |
| DelegationEngine.Engine.ExecuteAgent | dawn_kestrel/delegation/engine.py:385-433 | the counters around one agent execution |
| DelegationEngine.Engine.ExecuteDfs | dawn_kestrel/delegation/engine.py:255-351 | the method updates its context exactly as the traversal function says |
| DelegationEngine.Engine.ExecuteChildren | dawn_kestrel/delegation/engine.py:302-348 | the loop over children, with its breaks, returns and caught exceptions |
| DelegationEngine.Engine.CheckLimits | dawn_kestrel/delegation/engine.py:435-458 | the stop reason and the clock reading of a boundary check |
| DelegationEngine.Engine.Delegate | dawn_kestrel/delegation/engine.py:109-120 | in depth-first mode: a fresh context, the traversal, and its report, or an error when the root raises; what the report holds, ReportContents says |
| DelegationPool.PoolKeepsInvariant | dawn_kestrel/delegation/engine.py:178-240 | in every interleaving each child is queued or started once and at most `max_concurrent` run |
| DelegationPool.BfsKeepsBudget | dawn_kestrel/delegation/engine.py:122-176 | breadth-first delegation spawns at most `max_total_agents`, counts spawned as active plus completed, and runs no grandchildren |
| DelegationPool.CollectFiles | dawn_kestrel/delegation/engine.py:242-253 | collecting a list of finished agents files each once and spawns nothing |
| DelegationPool.BfsFilesWhatFinished | dawn_kestrel/delegation/engine.py:122-253 | in every interleaving each child the pool finishes is filed once: results and agent errors are the agents spawned less those cancelled, unless evidence raises |
| DelegationContent.BfsFilesAnswers | dawn_kestrel/delegation/engine.py:144-249 | in every interleaving: the root's answer, then those of the children in the order they finished, up to the first whose evidence raises; and the messages of those that failed |
| DelegationContent.BfsQueuesFirstChildren | dawn_kestrel/delegation/engine.py:155-173 | the children queued are the first ones, as many as breadth and remaining agents allow, and none when the root raises, meets a limit, or may not be gone below |
| DelegationContent.PoolUsesAllWorkers | dawn_kestrel/delegation/engine.py:178-240 | the first n children can be at work at once exactly if there are n workers |
| DelegationContent.PoolNeverStalls | dawn_kestrel/delegation/engine.py:178-240 | while a child is queued or at work the pool can go on without cancelling |
| Convergence.SignatureIgnoresBatchOrder | dawn_kestrel/delegation/convergence.py:52-82 | permuting a batch changes neither its signature nor whether computing it raises |
| Convergence.SignatureIgnoresListOrder | dawn_kestrel/delegation/convergence.py:84-101 | nor does permuting a list of strings under an evidence key |
| ConvergenceMeaning.SignatureRaisesIff | dawn_kestrel/delegation/convergence.py:52-101 | computing a signature raises exactly when a list that cannot be sorted stands under an evidence key |
| ConvergenceMeaning.SameSignatureIff | dawn_kestrel/delegation/convergence.py:52-82 | for injective digests and parts free of bars, two batches have one signature exactly when the parts they say are the same up to order, no part counting as one empty part |
| ConvergenceMeaning.SameListIff | dawn_kestrel/delegation/convergence.py:84-101 | two lists of strings say the same exactly when they are permutations of each other |
| ConvergenceMeaning.NovelIffSaysOther | dawn_kestrel/delegation/convergence.py:103-130 | a batch is novel exactly when it says something other than the one observed just before it |
| ConvergenceMeaning.BarsCollide | dawn_kestrel/delegation/convergence.py:81 | without that: two different batches with a bar in their parts have one signature |
| Convergence.TrackerMeansDedup | dawn_kestrel/delegation/convergence.py:103-130 | `signatures` is the history without adjacent repetitions, and the count is the length of the last run |
| Convergence.TrackerMeansRepetition | dawn_kestrel/delegation/convergence.py:103-144 | convergence with threshold k >= 1 holds exactly when the last k + 1 non-empty batches had equal signatures |
| Convergence.ConvergenceTracker.ComputeSignature | dawn_kestrel/delegation/convergence.py:35-82 | the loop over results, dictionaries and plain values computes the signature, or raises; what it means, SameSignatureIff says |
| Convergence.ConvergenceTracker.CheckNovelty | dawn_kestrel/delegation/convergence.py:103-130 | an empty batch is not novel and changes nothing; any other is observed once; when it is novel, NovelIffSaysOther says |
| Fsm.BuildOutcomes | dawn_kestrel/core/fsm.py:719-776 | however configured, `build` never reports undefined states and succeeds exactly for a declared initial state |
| Fsm.BuilderDeclaresWhatItIsTold | dawn_kestrel/core/fsm.py:511-569 | a builder declares exactly the states its configuration names and exactly the edges it lists, in whatever order; its initial state is the last one set, or else idle |
| Fsm.AuditTrail | dawn_kestrel/core/fsm.py:281-398 | over every run the state stays declared, moves only along declared edges, and the history is exactly what was persisted |
| Fsm.HistoryIsWholeWalk | dawn_kestrel/core/fsm.py:350-398 | the history is the whole walk, hence a contiguous path, exactly when no write failed |
| Fsm.HistoryIsWhatWasConfirmed | dawn_kestrel/core/fsm.py:281-398 | over every run the history is exactly the moves confirmed to the caller, and the changes of state missing from it are as many as the persistence errors returned |
| Fsm.ReplyTellsWhatHappened | dawn_kestrel/core/fsm.py:281-398 | a move is confirmed exactly when the history grew, a persistence error is returned exactly for a declared edge whose write failed, and then too the state has changed |
| Fsm.FailedWriteLeavesHole | dawn_kestrel/core/fsm.py:350-362 | a run whose failed write moves the state, returns an error and leaves a hole in the history |
| Fsm.WorkflowBound | dawn_kestrel/core/fsm.py:782-790 | a workflow walk from intake that enters check k times makes at most 5k + 4 transitions |
| Fsm.WorkflowBoundIsTight | dawn_kestrel/core/fsm.py:782-790 | for every k some walk makes that many |
| Fsm.DoneIsReachableAndFinal | dawn_kestrel/core/fsm.py:780-790 | done is reachable from every state in three steps and never left |
| Fsm.WalkActLeadsToCheck | dawn_kestrel/core/fsm.py:782-790 | in every workflow walk act is followed by synthesize and then by check |
| Fsm.WorkflowMachineBound | dawn_kestrel/core/fsm.py:851-866 | a machine with the workflow's table keeps that bound and that order whatever is requested of it |
| Fsm.FsmImpl.TransitionTo | dawn_kestrel/core/fsm.py:281-398 | state, history and reply of a transition, for valid and invalid targets and failed writes |
| Fsm.FsmBuilder.AddTransition | dawn_kestrel/core/fsm.py:551-569 | the edge is added and both its ends are declared |
| Fsm.FsmBuilder.WithPersistence | dawn_kestrel/core/fsm.py:642-658 | machines built from here on write to the repository, nothing else changes |
| Fsm.FsmBuilder.Build | dawn_kestrel/core/fsm.py:719-776 | the outcome of a build, and a machine that shares the builder's table |
| Fsm.FsmBuilder.AddWorkflow | dawn_kestrel/core/fsm.py:851-866 | the constructor's nested loops install the workflow's states and transitions in any iteration order |
| AiSession.PruningIsInvisible | dawn_kestrel/ai_session.py:164-180 | pruning the memory beyond 128 signatures never changes a decision |
| AiSession.DeduplicationWindow | dawn_kestrel/ai_session.py:164-186 | accepted calls with one signature are at least 8 s apart, and a rejected one has an accepted twin less than 8 s before it |
| AiSession.StreamExtendsHistory | dawn_kestrel/ai_session.py:124-186 | a stream takes the session's memory from one history of calls to the next, so the window spans streams |
| AiSession.TextIsConserved | dawn_kestrel/ai_session.py:136-162 | the assembled text is the concatenation of the deltas, text parts are never adjacent, parts are numbered by position |
| AiSession.CreationTimeSurvivesOneDelta | dawn_kestrel/ai_session.py:143-162 | the opening text keeps its creation time exactly when one delta made it |
| AiSessionContent.TakenCallsAreExecuted | dawn_kestrel/ai_session.py:164-186 | one execution for each tool call of the stream that the eight-second rule takes in the session's whole history, in stream order, with its own tool, input, and given or numbered id |
| AiSessionContent.TakenCallsAreExact | dawn_kestrel/ai_session.py:164-172 | exactly those calls, whatever was called in earlier streams |
| AiSessionContent.ToolPartsAreTheTakenCalls | dawn_kestrel/ai_session.py:204-248 | the tool parts are those of the executions that succeed, in stream order, each with its own output |
| AiSessionContent.SameSignatureIff | dawn_kestrel/ai_session.py:167 | calls have one signature exactly if tool and input are the same, for tools without a colon in their name |
| AiSessionContent.UsageIsTheLastCarried | dawn_kestrel/ai_session.py:119-134 | the usage returned is that of the last finish event that carries one, zero if none does |
| AiSessionContent.AgentPartsStandInPlace | dawn_kestrel/ai_session.py:188-202 | one agent part for each finish event that asks for tool calls, and the text before it is that of the deltas before the event |
| AiSessionContent.LastPartIsTheRun | dawn_kestrel/ai_session.py:136-162 | the deltas since the last agent part are one text part, created at the only one's time or updated at the last one's |
| AiSessionContent.AgentPartSeals | dawn_kestrel/ai_session.py:143-202 | once an agent part stands, neither it nor anything before it changes |
| AiSession.Session.ProcessStream | dawn_kestrel/ai_session.py:108-250 | the loop over events and the collection of tool results compute exactly the stream's parts, usage and memory; which calls are executed, TakenCallsAreExecuted and ToolPartsAreTheTakenCalls say |
| AiSessionContent.MessagesAreSentInOrder | dawn_kestrel/ai_session.py:402-417 | every user and assistant message is sent once and in order under its own role, and nothing else is |
| AiSessionContent.AnswerIsSentAsStreamed | dawn_kestrel/ai_session.py:108-417 | a stream's parts, kept as a message, are sent to the model again as the concatenated deltas |
| AiSession.Session.AssistantText | dawn_kestrel/ai_session.py:252-263 | skipping empty text parts assembles the whole text |
| AiSession.Session.BuildLlmMessages | dawn_kestrel/ai_session.py:402-417 | user and assistant messages become the sent ones, in order, others are dropped |
| EventBus.PublishLeaves | dawn_kestrel/core/event_bus.py:70-99 | a publish calls the subscriptions listed at its start once each in order, and leaves the old non-once ones followed by those added meanwhile |
| EventBusHistory.SubscriptionsAreAsAsked | dawn_kestrel/core/event_bus.py:44-94 | over every run the i-th subscription made has the event, callback and `once` flag of the i-th one asked for, by callers or by callbacks during a publish, and no other is made |
| EventBusHistory.OnlyOwnOperationsTake | dawn_kestrel/core/event_bus.py:60-107 | operations on other events leave a list in place; a clear of its event, or one without a name, empties it; only publishing delivers |
| EventBus.OnceAtMostOnce | dawn_kestrel/core/event_bus.py:60-107 | over every run a `once` subscription is delivered at most once, and is listed no more after that |
| EventBus.UnsubscribeTakesOwn | dawn_kestrel/core/event_bus.py:60-68 | in every run unsubscribing takes the caller's own subscription exactly when it is the earliest equal one listed, and nobody else's exactly when it is or no equal one is listed |
| EventBus.StaleUnsubscribeTakesAnother | dawn_kestrel/core/event_bus.py:63-66 | after a once delivery, the old unsubscribe function removes an equal subscription made since |
| EventBus.EventBus.Subscribe | dawn_kestrel/core/event_bus.py:44-68 | the subscription goes to the end of its event's list |
| EventBus.EventBus.Unsubscribe | dawn_kestrel/core/event_bus.py:63-66 | the first equal subscription goes, if there is one |
| EventBus.EventBus.Publish | dawn_kestrel/core/event_bus.py:70-99 | snapshot, callbacks and removal loop together are the publishing step |
| EventBus.EventBus.CallEach | dawn_kestrel/core/event_bus.py:86-94 | the callback loop delivers the snapshot and collects its once subscriptions |
| EventBus.EventBus.ClearSubscriptions | dawn_kestrel/core/event_bus.py:101-107 | one event's list, or everything for a missing or empty name |
| UnitOfWork.CommitWritesPrefix | dawn_kestrel/core/unit_of_work.py:165-191 | a commit writes sessions, messages, parts up to the first failure, returns Ok exactly for the whole, and keeps everything pending otherwise |
| UnitOfWork.AlwaysAtomicIff | dawn_kestrel/core/unit_of_work.py:165-191 | a commit is all or nothing for every course its writes can take if and only if nothing is pending or the first path is rejected |
| UnitOfWork.AtomicWithoutJunkIff | dawn_kestrel/core/unit_of_work.py:165-191 | for every course without junk: if and only if every entity before the last, or before the first rejected one, is already stored as it is |
| UnitOfWork.FailedCommitLeavesNothingIff | dawn_kestrel/core/unit_of_work.py:165-191 | of one failed commit: the store is as it was exactly when each file it touched already held what was last put there |
| UnitOfWork.CommitIsNotAtomic | dawn_kestrel/core/unit_of_work.py:111-114 | the promised atomicity fails: a session stays although its message failed and the transaction was rolled back |
| UnitOfWork.RetriesHeal | dawn_kestrel/core/unit_of_work.py:154-203 | unless a failed transaction is rolled back, between transactions the store is the committed entities written in order, whatever failed and was retried |
| UnitOfWorkHistory.CommittedIsWhatWasRegistered | dawn_kestrel/core/unit_of_work.py:154-227 | unless a failed transaction was rolled back, the store holds the files of the sessions, then messages, then parts each committed transaction registered since its begin, at their paths and with their contents, and is otherwise as at first; read off the calls and what they returned |
| UnitOfWorkHistory.AnswersFollowTheHistory | dawn_kestrel/core/unit_of_work.py:154-227 | begin is refused in a transaction and all else outside one; a commit returns Ok exactly when every path registered since begin is plain and no write fails |
| UnitOfWork.RejectedPathNeverCommits | dawn_kestrel/storage/store.py:27-40 | an entity with a rejected path component makes every commit of its transaction fail |
| UnitOfWork.Storage.Create | dawn_kestrel/storage/store.py:60-69 | creating overwrites the file; a failed write may leave it changed |
| UnitOfWork.UnitOfWorkImpl.Begin | dawn_kestrel/core/unit_of_work.py:154-163 | refused inside a transaction, otherwise nothing is pending |
| UnitOfWork.UnitOfWorkImpl.Commit | dawn_kestrel/core/unit_of_work.py:165-191 | the three loops with their early returns are the committing step |
| UnitOfWork.UnitOfWorkImpl.Rollback | dawn_kestrel/core/unit_of_work.py:193-203 | pending work goes, the store stays |
| UnitOfWork.UnitOfWorkImpl.RegisterPart | dawn_kestrel/core/unit_of_work.py:221-227 | refused outside a transaction, otherwise appended to the pending parts, which a commit writes as CommittedIsWhatWasRegistered says |
| Frontmatter.RoundTripIff | scripts/validate-docs.py:41-97 | the documents the parser can return are exactly the well-formed ones, and exactly those that survive rendering and parsing |
| Frontmatter.ParseIsWellFormed | scripts/validate-docs.py:48-95 | of any text the parser makes a document with unique trimmed keys and values of the shapes rendering preserves |
| Frontmatter.ParseRender | scripts/validate-docs.py:48-95 | parsing the rendered lines gives the ordered document back |
| Frontmatter.SkippedLinesDoNotCount | scripts/validate-docs.py:49-51 | a blank line or comment anywhere changes nothing |
| FrontmatterForms.LastValueWins | scripts/validate-docs.py:72-95 | after any lines a key takes its last value, in the place of its first, and no other key notices |
| FrontmatterForms.IndentationDoesNotCount | scripts/validate-docs.py:53-66 | how far a line is indented never counts, only that it is; and by what white space at most for lines that start no item |
| FrontmatterForms.ItemSpacingDoesNotCount | scripts/validate-docs.py:53-61 | in an open array neither the indentation of an item nor the space after its dash counts |
| FrontmatterForms.StrayLineEndsArray | scripts/validate-docs.py:62-76 | a line without a colon that no array takes is passed over, but ends the array before it |
| FrontmatterForms.ScalarForms | scripts/validate-docs.py:76-89 | white space around key and value and quotes of either kind in any number come off: the line is read as the canonical one |
| FrontmatterForms.HeaderForms | scripts/validate-docs.py:76-85 | however its colon is spaced, a key with no value opens its array |
| FrontmatterForms.FrontmatterEndsAtFirstFence | scripts/validate-docs.py:33-39 | a file has frontmatter exactly if it starts with the fence line and a later line begins with three dashes; what is parsed is the text up to the earliest of those |
| Frontmatter.FileRoundTripIff | scripts/validate-docs.py:33-39 | a whole file is parsed back exactly when no rendered line after the first looks like the closing fence |
| Frontmatter.ParseLines | scripts/validate-docs.py:42-95 | the loop with its mutable variables computes the parse, and the array variables are bound wherever they are used |

## Left out

- Foreign code: agent runtimes, model providers, Redis connections, HTTP, LSP, git and subprocesses appear as oracles or as inputs of a step.
- `WorkerPool` and `InMemoryTaskQueue` are not part of this model: children are started in any order, at most `max_concurrent` at once, each at most once, and may be cancelled when the pool's wait times out.
- `delegate_with_policy`, and the adaptive mode, which always takes the breadth-first branch because it starts at depth 0.
- Delegation callbacks and asyncio cancellation: they add exception paths at every await.
- ExactCount: of a delegation cut short by the clock it says that time was up at the last clock reading, not which reading that is.
- SHA-256, JSON keys and fingerprints: digests and signatures are arbitrary functions, cache keys are used directly.
- The response a miss returns is the stored object itself, which a caller could then change in place; a hit returns a deep copy. The cache model has values without identity.
- The trackers' 429 counters, which `record_429` keeps and `reset` also clears.
- Evidence values other than strings, lists of strings, values that cannot be sorted, and values shown by one arbitrary function. In a list of other values, equal ones that print differently (1 and True) keep their order when sorted, so the order of such a list does show.
- Floating-point rounding, and the rounding of Lua numbers to strings: tokens and times are reals.
- Clocks that go backwards, `parse_retry_after`, `record_429` and the jitter of `calculate_backoff_with_jitter`: they never enter the bucket arithmetic.
- A Redis key written by another process, and changes to the limits dictionary during a tracker's life.
- `execute_stream`, an infinite wait, which cannot be counted in milliseconds, event payloads and the normalisation of provider names in the provider bus.
- The provider bus: whole calls interleave as steps on values; the class `Bus` covers the segments between awaits, not the event loop.
- The bulkhead: the class covers the segments of `try_acquire` and `release` between awaits; timeouts are events, not durations. Clients that call `try_acquire` and `release` themselves are not covered.
- Hooks, guards, mediator, observers and the reliability wrapper of the state machine. A hook that calls `transition_to` itself, or a hook or mediator that raises after the state has changed, does affect state and history; such ones are left out.
- TokensStayInRange: assumes costs of at least zero on its key, because a negative cost adds tokens beyond the capacity until the next refill.
- LocalSlidingWindow: assumes no reset and no negative cost of the key inside the window; before the window anything goes.
- Unsubscribing, clearing or publishing from inside a callback, which would wait for the lock the publish holds.
- Callbacks that raise: the bus logs the exception and goes on, as after a return.
- Timestamps, tool costs and identifiers of message parts beyond their position and call id.
- Concurrent use of one unit of work; symbolic links below the storage directory; the JSON encoding of entities.
- Retrying inside `TryOperation` is uninterrupted; interleaved retries are steps of the machine.
- `validate_patterns`, `validate_frontmatter` and the command line of `scripts/validate-docs.py`: one-branch checks over a parsed document.
- `CircuitBreakerImpl`, `CommandQueue`, routing, metrics, the command line, settings and prompts: routine or input/output.
