# EIS core: a Dafny model and its proofs

EIS is a Python platform for governed autonomous engineering. This project models the parts of
it that are loops, protocols and state machines, and proves what they keep over every run:

| files | what they model |
|---|---|
| `ResponseCache`, `CacheTrace`, `CacheInclusion`, `CacheHistory` | the bounded TTL/LRU response cache, as an object and over timed traces |
| `SingleFlight`, `SingleFlightGap`, `SingleFlightOutcomes` | `get_or_set` of that cache, with any number of calls interleaved at their awaits |
| `JobStore`, `JobProtocol`, `JobLimits`, `Worker` | the durable job table, many workers on it that crash and report late, and the worker loop |
| `Governance`, `GovernanceLimits`, `Security` | the sliding-window action budget, role authorization, approvals and the action gateway |
| `WorkflowModels`, `WorkflowStore`, `Workflow`, `WorkflowVerdicts`, `WorkflowApprovals`, `WorkflowHistory`, `WorkflowCompletion`, `EngineeringWorkflow` | the 16-phase workflow: persistence, its step machine with crashes, and the object that runs it |
| `Scheduler`, `SchedulerOrder` | the bounded priority scheduler |
| `ContextSelection`, `ContextFit`, `ContextOrder`, `ContextMeaning` | deduplication, ranking and budget fit of retrieved context |
| `Verification`, `VerificationReports` | the verification engine with bounded self-correction |
| `EngineeringAgent`, `EngineeringFiles`, `EngineeringRecords`, `EngineeringLimits`, `EngineeringRun` | the bounded implement/test/correct loop of the engineering agent |
| `Contradictions` | contradiction detection and claim validation |
| `Retry` | the three retry loops and the model runtime's bookkeeping |

How the model is built. What the code does step by step is a method or a class with the same
branches, and its contract equates the result or the new state with a specification function or
states the property outright. Where coroutines, workers or processes interleave, one event is one
region between two awaits, locks or statements, `Run` replays a list of events, and a theorem
about `Run` is a theorem about every interleaving. Handlers, factories, tools, verifiers,
analyzers, authorizer verdicts and clocks are arbitrary. Time, cost, scores and delays are reals.

What the proofs found out about the code:

- The documentation promises single flight per key. Two factory calls for a key never overlap
  (`OneOwnerPerKey`), and no factory starts while its key is cached (`FactoriesStartUncached`): once
  a value is stored, none starts until it expired, was evicted or was cleared
  (`FactoryRunsAgainOnlyAfterALoss`). The second half rests on the cache's lock being free whenever
  it is asked for, so that a call's look into the flight table directly follows its lookup. The
  machine also has the runs in which other calls come in between, as with a lock held across an
  await; there a factory can start over a cached value, exactly when one stored since the lookup has
  not been lost again (`StaleMissIffStoredSince`, `StaleMissRunsFactoryAgain`).
- A job's `attempts` are meant to stay within `max_attempts` plus its recoveries. A claim's SELECT
  and UPDATE are separate statements, and with them separated every stale claim can add one more,
  up to a bound that is reached for every number of recoveries and stale claims (`AttemptsBound`,
  `AttemptsBoundIsReached`). With separated claims the intended bound holds exactly when
  `max_attempts` is at most one, so that nothing is ever retried (`LimitHoldsIffNoRetries`); with
  uninterrupted ones always (`AttemptsBoundAtomic`).
- `completed` is final exactly when no worker holds a claim on the job any more
  (`TerminalChangesIffHeld`, `TerminalIsFinal`); a worker whose lease was recovered can put a
  completed job back into the queue (`CompletedJobRunsAgain`).
- The action rate limit can be passed by the number of actions that are admitted and not yet
  committed, less one, and no further; for every limit and every such number some run does so
  (`SlidingWindowBound`, `RateBoundIsReached`). The limit itself holds exactly when actions do not
  overlap, or the limits let nothing through (`LimitHoldsIffNoOverlap`). Cost and time can be passed
  by that many estimates and no further (`UsageStaysWithinLimits`, `BudgetSlackIsReached`); their
  limits too hold exactly when actions do not overlap, or none that uses anything is let through
  (`CostHoldsIffNoOverlap`, `TimeHoldsIffNoOverlap`).
- A request that needs approval is decided by the approval alone; the role authorizer is not asked.
- A workflow can complete exactly when IMPLEMENT is among its approval phases: without it, IMPLEMENT
  never gets an approval and the gateway refuses it (`CompletableIffImplementGated`).
- The documentation says terminal workflows are only reported. That holds for `run` and `resume`;
  `escalate` has no status guard and rewrites a finished workflow (`TerminalChangesOnlyByEscalation`).
- The status of a verification report and its `verified` property agree whatever the collaborators
  answer exactly when each round labels its results with every label an earlier round used
  (`AgreeIffLabelsCovered`). That is so when labels depend on the stage alone
  (`StatusMatchesProperty`); where a round leaves an earlier label out, some run verified by that
  round lacks the property (`UncoveredLabelHidesSuccess`).
- The order of retrieved items decides what context is selected exactly when two maximal items of
  one content tie on authority and score (`OrderIrrelevantIffNoTiedMaxima`).
- Saving a workflow raises for a dictionary key that JSON refuses, in `input` or in `data`, and for
  a value without notation in `input`.
- The engineering agent does not look at the status of an implementation call; only the two test
  calls after it decide. With a failure analyzer, its tool-call limit can stop the run of some
  environment exactly when it is at most 5 * max_iterations - 2 (`ToolCallLimitCanStopIffTight`), so
  with the defaults of 3 and 40 never.
- `retry_async` does not validate its policy: with a negative number of retries the operation is
  not called at all.

## Model

| member | source | states |
|---|---|---|
| `ResponseCache.AsyncResponseCache.Create` | src/eis/performance/cache.py:38-46 | construction fails exactly for a bound below 1 or a time to live that is not positive; otherwise the cache is empty |
| `ResponseCache.AsyncResponseCache.Get` | src/eis/performance/cache.py:53-65 | new state and result are those of the timed-map lookup: missing, expired and removed, or hit and moved to the recent end, with the matching counter |
| `ResponseCache.AsyncResponseCache.Set` | src/eis/performance/cache.py:67-75 | overwrite in place, move to the end and the eviction loop together are: drop the key, append it, keep the newest `max_entries`; bound and distinct keys are kept |
| `ResponseCache.AsyncResponseCache.EvictOverflow` | src/eis/performance/cache.py:73-75 | the loop leaves exactly the newest `max_entries` entries and counts the ones it dropped |
| `ResponseCache.AsyncResponseCache.Clear` | src/eis/performance/cache.py:115-117 | all entries go, the counters stay |
| `ResponseCache.AsyncResponseCache.Stats` | src/eis/performance/cache.py:119-120 | the counters that the conservation law is about |
| `ResponseCache.StoreEvictsAtMostOne` | src/eis/performance/cache.py:67-75 | the eviction loop runs at most once per set: it drops the oldest entry exactly when the key is new and the cache is full |
| `ResponseCache.AssignThenMove` | src/eis/performance/cache.py:70-71 | assigning an existing key and then moving it to the end is the same as removing and appending it |
| `CacheTrace.RunIsValid` | src/eis/performance/cache.py:53-75 | over every timed trace of get, set and clear the keys stay distinct and the size bound holds |
| `CacheTrace.SetLastsForItsTtl` | src/eis/performance/cache.py:67-72 | directly after a set, on any cache, a lookup at t gives the value if and only if t < now + d, where d is the `ttl_seconds` given, and the configured time for none and for zero |
| `CacheInclusion.LruInclusion` | src/eis/performance/cache.py:53-75 | for capacities n <= m on one trace, the small cache's recency order is a subsequence of the large one's with the same values and expiries, the sizes differ by at most m - n, and hits, misses and evictions are ordered |
| `CacheInclusion.LargerCacheNeverLosesAHit` | src/eis/performance/cache.py:53-65 | raising `max_entries` never turns a hit into a miss and never changes the value returned, even with lazy expiry |
| `CacheHistory.CacheAgrees` | src/eis/performance/cache.py:53-75 | every entry held is the one an unbounded timed map would hold |
| `CacheHistory.HitIsTheLastSetValue` | src/eis/performance/cache.py:53-65 | a hit returns the value last set for the key since the last clear, unexpired |
| `CacheHistory.HitHasItsSet` | src/eis/performance/cache.py:53-72 | each hit has its operation in the trace: the last set of the key, with that value, no clear since, and less time passed than it was given |
| `CacheHistory.RunIsOrdered` | src/eis/performance/cache.py:63-75 | entries nearer the recent end were touched after the last touch of those before them |
| `CacheHistory.UnexpiredMissMeansPressure` | src/eis/performance/cache.py:53-75 | an unexpired miss of a key set since the last clear means at least `max_entries` distinct other keys were touched since its own last touch |
| `CacheHistory.MissOfAFreshKeyMeansPressure` | src/eis/performance/cache.py:53-75 | the same in terms of the operations: a miss of a key whose last set was not cleared and whose time is not up means that pressure |
| `CacheHistory.HeldExactlyWhenRecent` | src/eis/performance/cache.py:53-75 | while no lookup has removed an expired entry, a key is held if and only if fewer than `max_entries` other keys were touched since |
| `CacheHistory.ExpiryKeepsAKeyLonger` | src/eis/performance/cache.py:59-62 | a concrete trace on which lazy removal lets a key outlive `max_entries` other keys, so the hypothesis above is needed |
| `CacheHistory.StoresAreConserved` | src/eis/performance/cache.py:53-75 | stores = live + evictions + overwritten, expired-removed and cleared entries; hits + misses = gets |
| `SingleFlight.OneOwnerPerKey` | src/eis/performance/cache.py:90-113 | in every interleaving at most one call per key is between registering and popping its future, and it is the one the table names |
| `SingleFlight.InflightKeysHaveOwners` | src/eis/performance/cache.py:90-113 | a key is in the table exactly while some call owns it |
| `SingleFlight.JoinerGetsOwnersOutcome` | src/eis/performance/cache.py:99-110 | a joiner ends with the value or exception of the owner it joined, for the same key |
| `SingleFlight.JoinerIsNeverStranded` | src/eis/performance/cache.py:99-113 | a waiting joiner can wake, or its owner is still producing |
| `SingleFlight.QuiescentMeansNoFlights` | src/eis/performance/cache.py:107-113 | when every call is done the table is empty and every future resolved |
| `SingleFlight.EveryRegionMakesProgress` | src/eis/performance/cache.py:77-113 | each region brings its call strictly nearer to its end and touches no other call |
| `SingleFlight.NoDeadlock` | src/eis/performance/cache.py:77-113 | while a call is unfinished some call's region can run |
| `SingleFlight.ReturnedValuesHaveASource` | src/eis/performance/cache.py:86-106 | a value returned through the cache, as owner or as joiner was produced by a factory for that key or set under it |
| `SingleFlight.AtMostFiveRegions` | src/eis/performance/cache.py:77-113 | in every interleaving a call runs at most five regions of its own, so calls terminate when their factories do |
| `SingleFlight.FactoryCallsAreOwners` | src/eis/performance/cache.py:90-103 | in every interleaving a call that owns its key's future has called its factory exactly once, and every other cacheable call never |
| `SingleFlightOutcomes.OutcomesAreTheFactorys` | src/eis/performance/cache.py:84-113 | a finished owner has the value or exception of its own factory, a joiner that of its owner's, an uncached call that of its own, and a call answered by the cache no exception |
| `SingleFlightOutcomes.LookUpAnswersFromTheCache` | src/eis/performance/cache.py:86-88 | a call is over with what the lookup found, and goes on to the flight table exactly when it found nothing |
| `SingleFlightOutcomes.CallsKeepTheirKey` | src/eis/performance/cache.py:77-85 | a call keeps the key it began with and goes round the cache exactly when it is not cacheable |
| `SingleFlightOutcomes.AnyoneMayCall` | src/eis/performance/cache.py:38-85 | runs start empty, and a new call or a use of the cache from outside is possible at any time |
| `SingleFlightGap.StepEffect` | src/eis/performance/cache.py:53-117 | the cache changes by a lookup, by an owner's store for the configured time, and by calls from outside, and by nothing else: a factory that raises and an uncached call leave it alone |
| `SingleFlightGap.FactoriesStartUncached` | src/eis/performance/cache.py:86-103 | in every run whose looks into the flight table directly follow their lookups, no factory starts while its key is cached |
| `SingleFlightGap.HeldAfterEffect` | src/eis/performance/cache.py:53-117 | after any lookup, store or clear a key is held if and only if a value was stored under it, or it was held and not found expired, evicted or cleared |
| `SingleFlightGap.FactoryRunsAgainOnlyAfterALoss` | src/eis/performance/cache.py:86-103 | in those runs, between a store under a key and the next factory for it the key was found expired, evicted or cleared |
| `SingleFlightGap.StaleMissIffStoredSince` | src/eis/performance/cache.py:86-98 | with a lock that may suspend: at any time after a lookup that missed, its key is cached if and only if a value was stored under it since and not expired, evicted or cleared since that |
| `SingleFlightGap.StaleMissRunsFactoryAgain` | src/eis/performance/cache.py:86-98 | with a lock that may suspend: a run in which a second factory starts although the value is cached |
| `JobStore.JobTable.Enqueue` | src/eis/observability/jobs.py:51-67 | appends one queued row with no attempts, lease or error, and returns it |
| `JobStore.JobTable.RecoverExpired` | src/eis/observability/jobs.py:69-77 | requeues exactly the running rows with a lease that ended before `now`, changes no other row or field, and returns how many they were |
| `JobStore.JobTable.Claim` | src/eis/observability/jobs.py:79-103 | leases the earliest queued row and returns it as it now stands; nothing is returned or changed exactly when no row is queued |
| `JobStore.JobTable.Complete` | src/eis/observability/jobs.py:105-107 | completes the row whatever its status, and nothing for an unknown id |
| `JobStore.JobTable.Fail` | src/eis/observability/jobs.py:109-114 | queued or failed by the retry flag, whatever the status, with the error cut to 4000 characters |
| `JobProtocol.ReachableInv` | src/eis/observability/jobs.py:69-114 | the counting invariant over all interleavings: each claim used up the insert, a recovery, or the retry of one distinct earlier claim |
| `JobProtocol.AttemptsBound` | src/eis/observability/jobs.py:69-114 | attempts <= max(max_attempts, 1) + recoveries + stale claims, for any number of workers, crashes and late reports, with the claim split in two |
| `JobProtocol.AttemptsBoundAtomic` | src/eis/observability/jobs.py:79-103 | with uninterrupted claims attempts <= max(max_attempts, 1) + recoveries |
| `JobProtocol.AtomicClaimsAreNeverStale` | src/eis/observability/jobs.py:82-103 | a claim whose UPDATE directly follows its SELECT hands out the row's real attempt number |
| `JobLimits.AttemptsBoundIsReached` | src/eis/observability/jobs.py:69-114 | for every max_attempts of at least two and every number of recoveries and stale claims some run makes exactly max_attempts + recoveries + stale attempts |
| `JobLimits.LimitHoldsIffNoRetries` | src/eis/observability/jobs.py:83-103 | with claims split as in the code, all runs keep attempts <= max(max_attempts, 1) + recoveries if and only if max_attempts <= 1 |
| `JobProtocol.FirstClaimComesInTurn` | src/eis/observability/jobs.py:83-92 | until a job is first claimed it stays queued, all claims went to earlier jobs, and there were at most as many as those jobs' bounds add up to, i * max(max_attempts, 1) without recoveries and stale claims |
| `JobProtocol.TerminalChangesIffHeld` | src/eis/observability/jobs.py:105-114 | a completed or failed row can be changed by some next step if and only if a worker still holds a claim on it |
| `JobProtocol.TerminalIsFinal` | src/eis/observability/jobs.py:69-114 | once nobody holds a claim on a completed or failed row no continuation changes it |
| `JobProtocol.NeverRecoveredMeansFinal` | src/eis/observability/jobs.py:69-114 | completed and failed are final for a job whose lease was never recovered |
| `JobProtocol.LeaseProtects` | src/eis/observability/jobs.py:69-114 | a leased row stays as it is, unrecovered, through any events without a recovery after the end of its lease or a report of a worker holding it |
| `JobProtocol.RecoveredIffLeaseEnded` | src/eis/observability/jobs.py:69-77 | a recovery requeues a row, and counts it, if and only if it is running and its lease ended before |
| `JobProtocol.LeaseDecidesRecovery` | src/eis/observability/jobs.py:69-103 | from its claim on a job is running, with one attempt more, under the lease it was given; a recovery gives it back if and only if it comes after that lease |
| `JobProtocol.CompletedJobRunsAgain` | src/eis/observability/jobs.py:109-114 | a run in which a late failure report requeues a completed job |
| `Worker.JobWorker.RunOnce` | src/eis/observability/worker.py:32-67 | nothing when stopping; else recover, claim, and complete, fail or requeue as handler, missing handler and attempt count demand |
| `Worker.TurnSettlesOneRow` | src/eis/observability/worker.py:35-67 | with nothing running, a turn settles the earliest queued row and touches no other |
| `Worker.TurnOnAnyTable` | src/eis/observability/worker.py:35-67 | on any table a turn settles the earliest row that is queued or whose lease has ended, queues the others whose lease has ended, and changes nothing else |
| `Worker.TurnLowersPotential` | src/eis/observability/worker.py:35-67 | every productive turn uses up part of a finite potential and leaves completed and failed rows alone |
| `Worker.SingleWorkerDrains` | src/eis/observability/worker.py:32-67 | however handlers end, at most that many turns are productive, and after them every row is completed or failed |
| `Worker.FreshJobsDrain` | src/eis/observability/worker.py:32-67 | n fresh jobs take at most n * max(max_attempts, 1) productive turns; each ends completed, or failed for lack of a handler or of attempts |
| `Governance.GovernanceGuard.Check` | src/eis/security/runtime.py:192-206 | prunes old stamps and then refuses for rate, cost or time, in that order, including negative estimates |
| `Governance.GovernanceGuard.Commit` | src/eis/security/runtime.py:208-213 | adds one stamp and the usage, or changes nothing for negative usage |
| `Governance.CheckSeesFullHistory` | src/eis/security/runtime.py:192-198 | the pruned list always equals filtering the full history, and the rate refuses exactly when the commits at most the window old are too many already |
| `Governance.PendingAreTheUnended` | src/eis/security/runtime.py:192-213 | in every run the pending actions are those admitted less those committed or abandoned |
| `Governance.CountInIsSize` | src/eis/security/runtime.py:194-196 | the number of commits in an interval is the size of the set of their positions |
| `Governance.SlidingWindowBound` | src/eis/security/runtime.py:192-213 | with at most c actions between check and commit, no closed window of the given length, wherever it starts, holds more than limit + c - 1 commits, and none under a limit below one |
| `GovernanceLimits.RateBoundIsReached` | src/eis/security/runtime.py:192-213 | for every limit of at least one and every c, some run puts exactly limit + c - 1 commits into one window |
| `GovernanceLimits.LimitHoldsIffNoOverlap` | src/eis/security/runtime.py:192-213 | all runs keep the configured limit in every window if and only if at most one action is pending at a time, or the limits admit nothing |
| `Governance.UsageStaysWithinLimits` | src/eis/security/runtime.py:199-213 | if nobody uses more than estimated, total cost and time pass their limits by at most c - 1 estimates |
| `Governance.OneAtATimeNeverPassesLimits` | src/eis/security/runtime.py:199-213 | with one action at a time and honest estimates the limits are never passed |
| `GovernanceLimits.BudgetSlackIsReached` | src/eis/security/runtime.py:199-213 | for every c an honest run uses the whole slack, of cost and time at once |
| `GovernanceLimits.CostHoldsIffNoOverlap` | src/eis/security/runtime.py:192-213 | all honest runs keep total cost within its limit if and only if at most one action is pending at a time, or no action that costs anything is ever admitted |
| `GovernanceLimits.TimeHoldsIffNoOverlap` | src/eis/security/runtime.py:192-213 | the same for total seconds |
| `Security.Authorize` | src/eis/security/runtime.py:63-95 | allowed if and only if authenticated, all roles known, granted by a role or the agent, and no matching restriction excludes the action; each denial reason exactly when its condition is the first to fail |
| `Security.AuthorizedIffHeldAndUnrestricted` | src/eis/security/runtime.py:63-95 | authorization in terms of single permissions: one for this action and a matching pattern, held by the agent or through a known role, and no matching restriction without the action |
| `Security.RegisteredRolesWin` | src/eis/security/runtime.py:69-69 | the roles a request names change nothing for an actor that is registered |
| `Security.RestrictingNeverAllowsMore` | src/eis/security/runtime.py:86-95 | adding a restriction never allows a request that was denied |
| `Security.ApprovalGate.Request` | src/eis/security/runtime.py:109-112 | records one pending approval under the request's number |
| `Security.ApprovalGate.Resolve` | src/eis/security/runtime.py:114-126 | refused exactly for a blank approver or reason; otherwise the decision asked for is recorded with both |
| `Security.SecurityGateway.Prepare` | src/eis/security/runtime.py:239-277 | one of the seven named actions or a high or critical risk takes an approved approval and nothing else, any other request authorization; with the budget this decides, refusals leave one audit record and do not touch the budget |
| `Security.SecurityGateway.Complete` | src/eis/security/runtime.py:279-294 | one commit and one audit record, or neither |
| `Security.SecurityGateway.ExecuteApproved` | src/eis/security/runtime.py:296-313 | usage is committed, and audited as allowed with the caller's result and failure, if and only if the request was admissible, within budget and its usage not negative |
| `WorkflowStore.SurvivesIffNative` | src/eis/workflows/store.py:67-72 | a value comes back equal from JSON if and only if it has no tuple, no foreign value and only distinct string keys |
| `WorkflowStore.JsonMakesPlain` | src/eis/workflows/store.py:67-140 | what JSON makes of any value: tuples become lists, foreign values texts, keys texts, and the last value of a repeated key takes the place of the first |
| `WorkflowStore.EncodableIffNothingRefused` | src/eis/workflows/store.py:67-72 | encoding raises if and only if some part, however deep, is a dictionary with a refused key or, without a default, a value without notation |
| `WorkflowStore.PhaseRoundTrip` | src/eis/workflows/store.py:109-109 | a phase's text parses to that phase and no other |
| `WorkflowStore.EventsRoundTrip` | src/eis/workflows/store.py:62-120 | event lists with their tuples and ids survive saving |
| `WorkflowStore.DecodeEncode` | src/eis/workflows/store.py:60-140 | a saved state is decoded as itself but for what JSON does to `input` and `data`, null approval included |
| `WorkflowStore.LoadAfterSave` | src/eis/workflows/store.py:60-140 | saving succeeds and loading gives the same state back if and only if `input` and `data` are JSON-native |
| `WorkflowStore.SavesAreIndependent` | src/eis/workflows/store.py:75-140 | over any sequence of saves, failing ones included, each workflow loads as last saved and no save disturbs another workflow |
| `WorkflowStore.WorkflowDatabase.Save` | src/eis/workflows/store.py:60-92 | raises exactly for a value without notation in `input` or a key that JSON refuses in `input` or `data`, before anything is written; otherwise upserts this row only |
| `WorkflowStore.WorkflowDatabase.Load` | src/eis/workflows/store.py:94-140 | the decoded row, or nothing for an unknown id |
| `Workflow.ReachableShape` | src/eis/workflows/runtime.py:51-232 | in every reachable state drivers work on the running state saved last, waiting means a checkpoint for the current gated phase, completed means all phases passed |
| `Workflow.OtherWorkflowsStay` | src/eis/workflows/runtime.py:45-174 | a step of one workflow changes nothing of another |
| `Workflow.CrashKeepsWhatWasSaved` | src/eis/workflows/runtime.py:43-131 | a crash can come at any time; what was saved outlives it, calls in progress and cached approvals do not |
| `WorkflowVerdicts.PrepareDecides` | src/eis/workflows/runtime.py:133-158 | a phase is executed exactly with a verdict in its favour and, for IMPLEMENT, an approved approval; otherwise the workflow is failed at that phase, nobody drives it, and nothing is executed |
| `WorkflowVerdicts.ExecutionsHadAVerdict` | src/eis/workflows/runtime.py:214-227 | in every run each execution is the work of a prepare of that workflow and phase with a verdict in its favour, made at that place of the run |
| `WorkflowVerdicts.RefusalFailsTheWorkflow` | src/eis/workflows/runtime.py:138-158 | in every run a prepare with an unfavourable verdict leaves its workflow failed where it stood |
| `WorkflowApprovals.GatedExecutionsAreApproved` | src/eis/workflows/runtime.py:65-93 | each execution of a gated phase uses up an earlier resume of its own: same workflow and phase, APPROVED, with a request number no other execution uses, across crashes |
| `WorkflowApprovals.ImplementNeedsApproval` | src/eis/workflows/runtime.py:214-225 | IMPLEMENT never executes without an APPROVED approval, also when it is not gated; then it never executes |
| `WorkflowApprovals.ResumeMatchesCheckpoint` | src/eis/workflows/runtime.py:70-75 | an approval that resume accepts answers the checkpoint persisted for the current phase |
| `WorkflowApprovals.GatedExecutionsAtMostResumes` | src/eis/workflows/runtime.py:65-232 | gated executions, plus one while an approval is pending, never exceed successful resumes |
| `WorkflowHistory.HistoryOnlyGrows` | src/eis/workflows/runtime.py:51-244 | over any continuation with crashes the phase index never decreases, each event list extends the previous one, request and data stay |
| `WorkflowHistory.TerminalChangesOnlyByEscalation` | src/eis/workflows/runtime.py:95-119 | a step changes a finished workflow if and only if it is an escalate call for it |
| `WorkflowHistory.TerminalIsAbsorbing` | src/eis/workflows/runtime.py:51-71 | without an escalate call a finished workflow keeps its row and executes nothing, forever |
| `WorkflowHistory.PhasesAreRecordedOnceInOrder` | src/eis/workflows/runtime.py:133-165 | the recorded phases are exactly 0, 1, ... up to the current one; the executions only repeat a phase or go on to the next |
| `WorkflowHistory.CompletedMeansEveryPhaseRan` | src/eis/workflows/runtime.py:133-174 | completed means all 16 phases were executed, each exactly once in order if no execution was lost |
| `WorkflowCompletion.CompletableIffImplementGated` | src/eis/workflows/runtime.py:42-232 | for every set of approval phases and every request, some run completes the workflow if and only if the set holds IMPLEMENT |
| `EngineeringWorkflows.EngineeringWorkflow.Start` | src/eis/workflows/runtime.py:45-49 | saves a pending workflow at phase 0, also over an existing one; under a fresh id it is the start step of the machine |
| `EngineeringWorkflows.EngineeringWorkflow.RunWorkflow` | src/eis/workflows/runtime.py:51-63 | only reports a waiting or finished workflow; otherwise extends the run of the step machine until the workflow waits, fails, completes or escalates |
| `EngineeringWorkflows.EngineeringWorkflow.Resume` | src/eis/workflows/runtime.py:65-93 | refuses, changing nothing, exactly when the workflow waits and the approval is not approved or does not match; otherwise goes on from the resume step of the machine |
| `EngineeringWorkflows.EngineeringWorkflow.Begin` | src/eis/workflows/runtime.py:121-131 | the loop starts from the saved state, running and no longer escalated |
| `EngineeringWorkflows.EngineeringWorkflow.Accept` | src/eis/workflows/runtime.py:76-93 | an accepted approval is cached, and the workflow is running again with its reason on record |
| `EngineeringWorkflows.EngineeringWorkflow.Finish` | src/eis/workflows/runtime.py:167-174 | past the last phase the workflow is completed with its history and without a checkpoint |
| `EngineeringWorkflows.EngineeringWorkflow.Escalate` | src/eis/workflows/runtime.py:95-119 | escalates any known workflow, whatever its status, with the reason on record, and touches no other |
| `EngineeringWorkflows.EngineeringWorkflow.RunPhases` | src/eis/workflows/runtime.py:121-174 | the phase loop, each pass a few steps of the machine, ends waiting, failed, completed, or still running after an escalation |
| `EngineeringWorkflows.EngineeringWorkflow.TakeCheckpoint` | src/eis/workflows/runtime.py:176-212 | waits, with a checkpoint for this phase under a fresh request number, exactly when the phase is gated and no approval is cached; a cached approval is handed on and used up |
| `EngineeringWorkflows.EngineeringWorkflow.Prepared` | src/eis/workflows/runtime.py:214-225 | lets a phase through exactly with the verdict and, for IMPLEMENT, an approved approval; otherwise executes nothing and saves the failure |
| `EngineeringWorkflows.EngineeringWorkflow.Execute` | src/eis/workflows/runtime.py:214-232 | a phase that is refused is not executed and fails the workflow; one that is let through is executed, and its operation decides: a result advances by one phase and is recorded, an exception fails it, an escalation leaves what was saved |
| `Scheduler.SchedulerBounds` | src/eis/performance/scheduler.py:45-69 | in every interleaving queued <= `max_queue`, running <= `workers`, unfinished = queued + running, each operation awaited at most once, its future resolved exactly when it is over |
| `Scheduler.FuturesAreResolvedOnce` | src/eis/performance/scheduler.py:53-69 | a step resolves only the future of the operation that ended, once, with its outcome |
| `Scheduler.OvertakenOnlyByEarlier` | src/eis/performance/scheduler.py:45-55 | whatever is started while an operation waits has a smaller priority number, or the same one and an earlier sequence; a most urgent one is overtaken by at most as many as were submitted before it |
| `SchedulerOrder.TakesTheMostUrgent` | src/eis/performance/scheduler.py:50-55 | at every take nothing queued has a smaller priority number, or the same one and an earlier sequence |
| `SchedulerOrder.FreeWorkerCanTake` | src/eis/performance/scheduler.py:53-55 | a free worker always has something to take from a queue that is not empty |
| `SchedulerOrder.MoreUrgentIsStartedFirst` | src/eis/performance/scheduler.py:50-55 | of two queued operations the more urgent one is started first, whatever happens |
| `SchedulerOrder.PrioritiesAreAsSubmitted` | src/eis/performance/scheduler.py:45-50 | submissions are numbered in order and keep the priority they were made with |
| `SchedulerOrder.SubmitEntersIfThereIsRoom` | src/eis/performance/scheduler.py:45-51 | a submission is queued at once exactly if the queue has room |
| `Scheduler.DrainWaitsForAll` | src/eis/performance/scheduler.py:71-72 | when a drain may return, everything enqueued before the call has its future resolved |
| `SchedulerOrder.DrainCoversWhatWasEnqueued` | src/eis/performance/scheduler.py:71-72 | whatever was enqueued at the moment a drain was called has its outcome once the drain is released |
| `SchedulerOrder.EverythingCanFinish` | src/eis/performance/scheduler.py:45-72 | no deadlock: from every reachable state some continuation gives every operation submitted so far its outcome and releases every drain |
| `SchedulerOrder.RunsStartAndGoOn` | src/eis/performance/scheduler.py:45-69 | runs start with nothing submitted and go on with any step that is possible |
| `Scheduler.ReleaseMeansAllFinished` | src/eis/performance/scheduler.py:68-72 | at the step that releases a drain, every operation enqueued by then is finished |
| `ContextSelection.Deduplicate` | src/eis/context/retrieval.py:182-196 | the dictionary loop computes the deduplication |
| `ContextSelection.OneItemPerKey` | src/eis/context/retrieval.py:182-196 | exactly the content keys of the input remain, once each, in order of first occurrence |
| `ContextSelection.KeepsFirstMaximal` | src/eis/context/retrieval.py:185-196 | an item is kept if and only if it is the first maximal one by (authority, score) of its content key |
| `ContextSelection.SortSorts` | src/eis/context/retrieval.py:163-179 | ranking permutes the items and leaves them ordered by score, authority and id |
| `ContextSelection.SortIsDescendingAndStable` | src/eis/context/retrieval.py:163-179 | by score, then authority, then id, and items that agree on all three keep their order |
| `ContextMeaning.ScoreWeighs` | src/eis/context/retrieval.py:154-161 | the score weighs relevance, authority, freshness and kind by 55, 25, 10 and 10 of a hundred |
| `ContextMeaning.KindsAreRanked` | src/eis/context/retrieval.py:143-161 | the seven kinds are ranked, and between items that differ only in kind the score differs by a tenth of their gap, 0.045 at most |
| `ContextMeaning.ScoreStaysInRange` | src/eis/context/retrieval.py:154-161 | inputs between 0 and 1 give a score between 0.055 and 1, and both are reached |
| `ContextFit.OptimizeContext` | src/eis/performance/context.py:22-44 | the loop computes the greedy fit of the deduplicated, ranked list within count and characters, with the default budget when none is given |
| `ContextMeaning.OptimizedKeepsItsBudget` | src/eis/performance/context.py:22-44 | at most the items and characters of the budget less its reserve, 12 and 22000 without one, and nothing is dropped exactly when the ranked list is within both |
| `ContextFit.MakeBudget` | src/eis/performance/context.py:17-19 | a budget is refused exactly without room for an item or for characters beyond the reserve |
| `ContextFit.FitIsLexicographicallyFirst` | src/eis/performance/context.py:32-44 | a subset of the ranked list is the one selected if and only if it is feasible and no feasible subset is above it in rank order |
| `ContextFit.OptimizeIsIdempotent` | src/eis/performance/context.py:22-44 | optimising optimised context changes nothing |
| `ContextOrder.OptimizeIgnoresOrder` | src/eis/performance/context.py:22-44 | the result does not depend on the input order when ids are distinct and no two maximal items of one content tie on (authority, score) |
| `ContextOrder.OrderIrrelevantIffNoTiedMaxima` | src/eis/performance/context.py:22-44 | for distinct ids, the input order is irrelevant under every budget if and only if there is no such tie |
| `ContextFit.Build` | src/eis/context/builder.py:35-56 | the builder's loop computes the greedy fit of the filtered candidates, and `truncated` holds exactly when something ranked was dropped |
| `ContextMeaning.BuildSelectsWhatIsWanted` | src/eis/context/builder.py:26-56 | whatever is selected was retrieved, is the first maximal item of its content, and meets score and kind; with nothing cut off, all such items are selected; both budgets hold |
| `ContextMeaning.FlattenedMembers` | src/eis/context/builder.py:34-34 | the candidates are the items of all retrievers |
| `ContextFit.MakeRequest` | src/eis/context/models.py:83-87 | a request is refused exactly for a limit or size below 1 or a score outside 0 to 1 |
| `ContextFit.FitKeepsAll` | src/eis/context/builder.py:43-55 | nothing is dropped exactly when the whole ranked list fits both budgets |
| `ContextFit.BuildMatchesOptimize` | src/eis/context/builder.py:35-56 | with matching budgets the builder and the optimiser select the same from the same candidates |
| `Verification.RunStages` | src/eis/verification/runtime.py:144-152 | one round holds the answers of all seven stages in order, regression from the guard when there is one |
| `Verification.Verify` | src/eis/verification/runtime.py:70-142 | the loop ends in one of four exits, each fixing status, stage log, corrections, failures and attempts as functions of the collaborators' answers |
| `Verification.ReportIsDetermined` | src/eis/verification/runtime.py:70-142 | the four exits exclude each other and determine the report |
| `Verification.VerifiedIffARoundPasses` | src/eis/verification/runtime.py:76-142 | verified if and only if the baseline holds and some round within the limit passes after rounds that failed and were corrected with a validated change |
| `Verification.ReportCounts` | src/eis/verification/runtime.py:70-142 | attempts = corrections <= limit; exact stage and failure counts for each exit |
| `Verification.OnlyTheLastIsRejected` | src/eis/verification/runtime.py:117-142 | corrections are numbered from 1; exactly the last one of a run escalated for it was rejected |
| `VerificationReports.StagesAreLogged` | src/eis/verification/runtime.py:70-152 | the stage log is the baseline, if there is a guard, and then the seven answers of every round in order, regressions answered by the guard |
| `VerificationReports.FailuresAreOfTheFirstStage` | src/eis/verification/runtime.py:93-104 | each failure reported is that of the first stage its round did not pass, or the default text if it has none |
| `VerificationReports.CorrectionsAreOfTheFirstStage` | src/eis/verification/runtime.py:113-131 | each correction carries that stage's failure, its analysis, the changes made for it, and whether they validated |
| `Verification.Verified` | src/eis/verification/models.py:98-105 | the property is true exactly when status is verified, something was logged, and every result that no later one of its stage replaces passed |
| `Verification.StatusMatchesProperty` | src/eis/verification/models.py:98-105 | when the label of a result depends on its stage alone, as it does for a label-faithful verifier, status and property agree, whatever failed earlier |
| `Verification.AgreeIffLabelsCovered` | src/eis/verification/models.py:98-105 | for a labelling of the verifiers' results, status and property agree on every report of every run within the limit if and only if each round answers under every label an earlier round used |
| `Verification.UncoveredLabelHidesSuccess` | src/eis/verification/models.py:98-105 | for every labelling and round that leaves an earlier label out, a run verified by that round lacks the property |
| `EngineeringAgents.InMemoryChangeTracker.Record` | src/eis/engineering/runtime.py:40-42 | a change is kept unless its path is already tracked |
| `EngineeringAgents.MakeLimits` | src/eis/engineering/models.py:37-41 | refused exactly for limits that are not positive |
| `EngineeringFiles.TrackedAllPaths` | src/eis/engineering/runtime.py:40-42 | exactly the paths tracked before and those of the changes are tracked, each new one with the first change that named it |
| `EngineeringFiles.TracksWhatWasReported` | src/eis/engineering/runtime.py:270-287 | in every run the tracked files are those at its start and then what its implementation calls reported |
| `EngineeringFiles.FileLimitDecides` | src/eis/engineering/runtime.py:289-291 | a run stops for its files exactly after an implementation call with which the distinct paths tracked or reported are more than the limit, and a completed run is within it |
| `EngineeringAgents.RunsAreBounded` | src/eis/engineering/runtime.py:134-233 | in every run, cut short anywhere: calls within the limit, corrections one less than turns begun, distinct tracked paths, and the loop head is never reached with all turns used |
| `EngineeringAgents.CallAndCorrectionBounds` | src/eis/engineering/runtime.py:134-233 | tool calls <= `max_tool_calls` and <= 5 * iterations (fewer in the last turn), corrections <= `max_iterations` - 1 |
| `EngineeringAgents.NoImplementBeforeValidPlan` | src/eis/engineering/runtime.py:125-144 | every implementation call comes after a plan was found valid |
| `EngineeringAgents.CompletionIsVerified` | src/eis/engineering/runtime.py:134-231 | completion means the last three tool calls were implement, passing targeted tests, passing broader tests, with distinct tracked paths within the file limit |
| `EngineeringAgents.ToolCallLimitNeedsATightLimit` | src/eis/engineering/runtime.py:293-295 | the tool-call limit stops a run only if it is at most 5 * max_iterations - 2 |
| `EngineeringLimits.RunIsDetermined` | src/eis/engineering/runtime.py:74-297 | the collaborators' answers determine a run and how it ends, unless the clock ends it |
| `EngineeringLimits.ToolCallLimitCanStopIffTight` | src/eis/engineering/runtime.py:134-295 | some environment with a failure analyzer and enough time makes a run that the limit stops (and by RunIsDetermined no other) if and only if the limit is at most that |
| `EngineeringAgents.FailuresMatchCorrections` | src/eis/engineering/runtime.py:154-212 | every diagnosed failure but at most the last one was followed by a correction: reported failures = corrections, plus one while a correction is outstanding |
| `EngineeringRecords.RecordsFollowTheProcess` | src/eis/engineering/runtime.py:84-218 | the change records of every run follow the process phase by phase, none left out, and where the run stands tells which was last |
| `EngineeringRuns.EngineeringAgent.Guard` | src/eis/engineering/runtime.py:293-297 | tool-call limit first, then the clock, exactly |
| `EngineeringRuns.EngineeringAgent.CallTool` | src/eis/engineering/runtime.py:258-261 | a call is counted exactly when the guard lets it through |
| `EngineeringRuns.EngineeringAgent.RecordChanges` | src/eis/engineering/runtime.py:270-287 | the usable changes in order, each tracked once per path |
| `EngineeringRecords.UsableInOrder` | src/eis/engineering/runtime.py:270-287 | the usable changes of an output are those of its parts in order: a change, a mapping with a path, and nothing else |
| `EngineeringRuns.EngineeringAgent.Run` | src/eis/engineering/runtime.py:74-248 | every run of the agent is a run of the event machine made of its environment's answers, its report lists what the events say, the reason to stop holds at the guard or check where it stopped, and is the time exactly when the last look at the clock came too late |
| `Contradictions.FindContradictions` | src/eis/integrity/engine.py:32-48 | the nested loops report the items at exactly the enumerated conflicting positions |
| `Contradictions.ExactlyTheConflicts` | src/eis/integrity/engine.py:32-48 | a pair of positions is reported if and only if both are fresh, on one key, of opposite polarity, the first earlier |
| `Contradictions.ReportedIffOpposed` | src/eis/integrity/engine.py:32-48 | which pairs these are: the same key, opposite polarities, and neither expired |
| `Contradictions.ReportedInOrder` | src/eis/integrity/engine.py:32-48 | pairs are reported in strictly increasing order, so none twice |
| `Contradictions.PairCount` | src/eis/integrity/engine.py:32-48 | the number of pairs is the sum over keys of fresh positives times fresh negatives |
| `Contradictions.PairCountIgnoresOrder` | src/eis/integrity/engine.py:32-48 | reordering the evidence does not change that number |
| `Contradictions.ValidateClaim` | src/eis/integrity/engine.py:67-129 | status, supporting and contradicting evidence and doubts as facts about the evidence as a whole, and questionable exactly with a contradiction or a single source |
| `Contradictions.SidesOfAClaim` | src/eis/integrity/engine.py:72-77 | supporting and contradicting evidence is the unexpired evidence on the claim's key that speaks for it, or does not |
| `Contradictions.SupportInOrder` | src/eis/integrity/engine.py:76-76 | in its order and each item once |
| `Contradictions.ObjectionsInOrder` | src/eis/integrity/engine.py:77-77 | the same for the contradicting evidence |
| `Contradictions.SidesDecideTheStatus` | src/eis/integrity/engine.py:90-120 | each of the five statuses exactly when the two sides, their sources, the kind of claim and its risk call for it |
| `Contradictions.PairForcesQuestionable` | src/eis/integrity/engine.py:89-97 | a pair on a key makes every claim on that key, and every claim on no key, questionable |
| `Contradictions.PairIffBothClaimsContradicted` | src/eis/integrity/engine.py:222-235 | the detector finds a pair on a key if and only if the two opposite claims on it are both contradicted |
| `Contradictions.StatusIgnoresOrder` | src/eis/integrity/engine.py:67-129 | reordering the evidence does not change the status |
| `Retry.RetryAsync` | src/eis/observability/resilience.py:19-39 | stops at the first attempt that returns or is not worth another, or at the limit, with the policy's sleeps between |
| `Retry.RetryOptimized` | src/eis/performance/execution.py:26-48 | the same, with optional jitter on each sleep; the raise behind the loop is dead |
| `Retry.ReliableModel.Call` | src/eis/models/runtime.py:123-159 | the same for timeouts and retryable model errors, other exceptions passing through; one trace with its attempts exactly on success |
| `Retry.ReliableModel.Generate` | src/eis/models/runtime.py:79-82 | usage is recorded once and only for a response, so recorded requests and traces stay equal in number |
| `Retry.LoopsAgree` | src/eis/models/runtime.py:133-159 | under the parameter map the three loops make the same calls and sleeps and end the same, except for the name of a last timeout |
| `Retry.SleepsBackOff` | src/eis/models/policy.py:28-32 | the sleeps of a call are the capped exponential delays 1, 2, ... |
| `Retry.DelaysWrittenOut` | src/eis/models/policy.py:28-32 | the delay of the plain loops is the first one, multiplied once per earlier attempt and cut at the cap |
| `Retry.JitteredDelay` | src/eis/performance/execution.py:41-46 | the optimised executor adds a drawn share of its jitter to it |
| `Retry.JitterIsBounded` | src/eis/performance/execution.py:41-46 | with a draw below one that lengthens it by at most the jitter |
| `Retry.MakeModelPolicy` | src/eis/models/policy.py:16-26 | refused exactly for no attempts, a negative or inverted delay, a multiplier below 1 or a negative jitter |
| `Retry.MakeRetryConfig` | src/eis/performance/execution.py:21-23 | refused exactly for no attempts or a negative delay; the jitter is not checked |
| `Retry.SleepsNeverShrink` | src/eis/models/policy.py:28-32 | they never get shorter and never exceed the cap, for any multiplier of at least 1 |
| `Retry.TotalSleepIsBounded` | src/eis/models/policy.py:28-32 | with doubling they total at most max_delay after each attempt but the last, and at most initial * 2^(n-1) - initial |

## Left out

- Cancellation of coroutines and exceptions outside `Exception`: the code does not keep the stated invariants there.
- Factories that return None, which `get_or_set` treats as a miss when cached; the key helper and its hash.
- SQLite, asyncio, OrderedDict, heap and sort internals: a sequence of rows, an interleaving of regions, an ordered sequence, a least element, a stable sort.
- Floating-point rounding, and wall-clock reads: reals and arguments. All freshness checks of one call use one instant.
- The random generation of ids: fresh numbers. Ids of context items stand for the order of their texts.
- Texts of JSON, of messages that carry a phase or error, and of summaries: values or enumerations instead.
- Query normalisation, keyword retrieval, metadata filters and glob matching: arbitrary functions or inputs.
- White-space stripping and case folding of content: the folded key is a field of the item.
- Redaction of audit texts and the other fields of an audit record.
- The keyword classifier used when no root-cause analyzer is configured: any analysis.
- Response assessment, idea evaluation and confidence calibration of the integrity engine: projections of the claim statuses.
- Streaming in the model runtime: a retry in mid-stream repeats chunks, so there is no exactly-once claim.
- Closing the scheduler, batch gathering and the concurrency limiter: they would only add easy members.
- Task metrics of the worker, and model traces other than their attempt counts.
- HTTP, GitHub and tool adapters, the SDK, configuration, knowledge and memory stores, red-team cases and rendering: plumbing and data.
- SingleFlight.OneOwnerPerKey: `get_or_set` is modelled as a step machine on values and not as a method of the cache class, because its claims are about interleavings. It lets other calls in wherever a lock is taken, so it has more runs than the code; FactoriesStartUncached is about the code's alone.
- Scheduler.SchedulerBounds: the scheduler is modelled as a step machine on values and not as a class, for the same reason.
- JobStore.JobTable.Claim: the object's claim is uninterrupted; the split claim is in JobProtocol.
- Workflow.ReachableShape: at most one driver per workflow at a time, and no call of escalate while one is in progress.
- EngineeringWorkflows.EngineeringWorkflow.Start: an existing workflow that is started again is overwritten and leaves the runs of the machine, whose ids are fresh.
- EngineeringWorkflows.EngineeringWorkflow.RunWorkflow: the object keeps states, not rows; that saving and loading them changes nothing is LoadAfterSave, for JSON-native data.
- EngineeringWorkflows.EngineeringWorkflow.Execute: the role and budget verdict is one arbitrary answer per phase, and the audit and usage of a phase are those of SecurityGateway, not repeated here.
- EngineeringRuns.EngineeringAgent.Run: the change tracker is the in-memory one, and it is not reset between runs, so files of earlier runs count towards the limit; details and summaries of the report are left out.
- ContextFit.Build: the retrievers' results are an input, and invalid requests and budgets cannot be constructed, as in the source.
