# Verified models of the background-work protocols

A Dafny model of the durable background work of the application - the transactional outbox, the
tracked application jobs, the ledger of external effects - and of the smaller concurrent and
counting kernels it rests on: keyset pagination and its cursors, the in-process cache, the
distributed locks, the single-flight loader, the rate limiter, refresh-token rotation, the provider
retry loop, the parallel evaluation run and its scoring, and the cached resolution of prompts.

`dafny verify dfyconfig.toml` checks everything.

## How the models are built

- A protocol that several parties run is a state machine: a `World`, an `Event` type with one case
  per atomic step, a total `Step` (a step that is not enabled changes nothing) and `Run` over any
  sequence of events. Every database transaction, every Redis command and every stretch of code
  between two awaits is one event; workers, crashes, duplicate deliveries, lost answers and the
  clock interleave at will. Main results quantify over every run, usually by an invariant that every
  step keeps.
- Code that changes state step by step is also a class whose methods change the same fields in the
  same order, with the source's loops. In `Outbox`, `JobService`, `EffectLedger`, `LeaseLock`,
  `RefreshSessions`, `LocalCache`, `PromptCache` and the rate limiter's fallback table their
  postconditions say that each call is one step (or one run) of the machine, so what is proved of the
  machine holds of them. The rest are proved against a specification of their own: the two methods of
  `SingleFlight`, the Redis side of the rate limiter, the retry loop, and the evaluation run, whose
  input is what a run of the machine delivers.
- Beside the results over runs there are, for the steps themselves, lemmas that say when a step changes
  anything and what every field is afterwards, in terms of the state alone and not of the functions
  the step is made of.
- Time is an argument that never goes backwards. Hashes, tokens and random ids are fresh abstract
  values; where a key, a cursor or a token is text that the code takes apart or puts together, it is
  modelled as that text.

| file | component |
|---|---|
| `outbox.dfy` | outbox rows with lease tokens, dispatchers, the operator's cancel |
| `job_service.dfy` | tracked jobs: claim, finish, release, cancel, one whole delivery |
| `effect_ledger.dfy` | claims and outcomes of external effects, the payload fingerprint |
| `cursor_codec.dfy`, `pagination.dfy` | cursors (UTF-8 and base64url, section 5 of RFC 4648), pages and traversals |
| `local_cache.dfy` | the bounded cache with expiry |
| `lease_lock.dfy`, `single_flight.dfy` | expiring Redis locks, the coordinated loader |
| `rate_limit.dfy` | fixed windows, the bounded fallback table |
| `refresh_sessions.dfy` | refresh rotation, logout, password reset |
| `provider_retry.dfy` | the retry loop under a deadline |
| `evaluation_stream.dfy`, `evaluation_scoring.dfy` | the parallel evaluation run, the score of a case |
| `prompt_cache.dfy` | cached prompt resolution and its invalidation |

## What the code does not do

Some properties that one might expect are false of the code. Each has its exact condition or a
run that breaks it:

- A cancelled application job runs again on its next delivery (`JobService.CancelledRunsAgain`), and
  a claim ignores the delay of a deferral (`JobService.ClaimIgnoresAvailability`). A report ends
  whatever run the record shows: it is another worker's exactly when the reporter's start is not the
  one recorded (`JobService.LateReportEndsNewerRun`, `JobService.LateReportCanCome`).
- Of the payloads of one length some other one shares a payload's fingerprint input exactly when it
  has two parts at least and one of them contains a NUL (`EffectLedger.CollidesExactlyWhen`).
- A lock whose SET took effect but whose answer was lost blocks its key for a whole lease
  (`LeaseLock.LostAnswerBlocksTheKey`).
- Across processes a value can be loaded twice although nothing was lost
  (`SingleFlight.LoadedTwice`). A stored value is loaded again exactly when a polling caller finds its
  deadline passed, or an attempt on the distributed lock meets no live lock or gets no answer
  (`SingleFlight.StoredValueIsReloadedExactlyWhen`, over runs
  `SingleFlight.RunReloadsExactlyWhen`); those who may still do so are exactly the callers
  between a missed look inside their process's lock and their next check of the deadline
  (`SingleFlight.WhoMayReload`). And a caller told that
  the cache is filled answers null exactly when its next look finds nothing
  (`SingleFlight.FilledCanVanish`, `SingleFlight.NullAnswerExactlyWhen`).
- The retry time that the fallback advertises to a refused call is too short unless the time left is
  whole seconds or less than one (`RateLimit.AdviceSuffices`). A full fallback table forgets a
  newcomer at once, and so never limits it, exactly when its window would end before all others
  (`RateLimit.NewcomerIsForgotten`, `RateLimit.NewcomerCanBeForgotten`).
- A refresh at the very instant of expiry passes its first check and fails its second
  (`RefreshSessions.ReadAndRotationDisagreeAtExpiry`); a password reset does not end sessions opened
  between its listing and its commit (`RefreshSessions.ResetMissesARotation`).
- The consumer of an evaluation run waits for ever exactly when some worker ended without a word and
  none reported an exception (`EvaluationStream.WaitsForeverExactlyWhen`,
  `EvaluationStream.ConsumerCanWaitForever`). A worker ends without a word when creating or entering
  its session raises, or when what is raised is not an `Exception`. Sessions come from a session maker
  that connects at the first query (`backend/db/session.py:61`), so an unreachable database is met
  while a case is scored, and reported.
- An answer that cites something cannot pass a case that expects no chunks
  (`EvaluationScoring.PassedMeans`, `EvaluationScoring.CitationsCountAgainstNothing`,
  `EvaluationScoring.CitingCanFail`).
- An active prompt version is used exactly while it is among the newest 200 of its template
  (`PromptCache.ActiveVersionCounts`, `PromptCache.ActiveVersionCanDropOut`). A failed cache deletion
  leaves the old answer in place, wrongly exactly when the operation rewrote the version it names or
  moved the choice to another one (`PromptCache.FailedDeletionServesTheOldAnswer`).

## Model

| member | source | states |
|---|---|---|
| Outbox.ReachableInv | backend/workers/outbox.py:31-216 | every run of enqueues, claims, publishes, acknowledgements, crashes and cancels keeps the invariant linking rows, held leases, issued tokens and history |
| Outbox.Fencing | backend/workers/outbox.py:175-186 | an acknowledgement changes the table if and only if its token is the last one issued for the row and the row is still dispatching; it changes that row alone |
| Outbox.Budget | backend/workers/outbox.py:116-142 | in every run a row is published at most the configured number of times, claimed at most once more, dispatched at most once, and the extra claim leaves it terminal |
| Outbox.DispatchedMeansPublished | backend/workers/outbox.py:161-169 | a row is dispatched exactly when one acknowledgement moved it there, after the broker accepted its own job, at the recorded instant |
| Outbox.NoRowIsStranded | backend/workers/outbox.py:90-106 | a row that has not ended is claimable again once the longer of lease and 900 s has passed since it was last touched |
| Outbox.ClaimMakesProgress | backend/workers/outbox.py:116-132 | each claim strictly lowers maximum + 1 - attempts, and buries the row exactly on a passed deadline or a spent budget |
| Outbox.ClaimIsRecorded | backend/workers/outbox.py:90-145 | a claim changes the world exactly when its token is fresh and the row is due or its lease over; the row has one attempt more and is leased from now with a claim that says what the row says, or is given up with its reason; nothing else changes |
| Outbox.AnswerIsKept | backend/workers/outbox.py:199-214 | the broker call leaves its answer and the clock for the acknowledgement, and publishes the job of the claim |
| Outbox.AcknowledgementIsRecorded | backend/workers/outbox.py:151-189 | an acknowledgement records its answer, field by field, on a row that still belongs to the claim, and otherwise changes no row |
| Outbox.EnqueueAddsOneRow | backend/workers/outbox.py:37-58 | an enqueue adds a row exactly when the job has none and is not run in process; the row is due at once, unattempted, and has the deadline of the ingestion job |
| Outbox.OneRowPerJob | backend/workers/outbox.py:43-47 | in every run a job has at most one row |
| Outbox.OwnedClaimsMatchTheirRows | backend/workers/outbox.py:133-142 | in every run a claim that still owns its row has the row's attempts, job, type and payload |
| Outbox.BurialFailsTheJob | backend/workers/outbox.py:61-78 | giving a row up fails its ingestion job, with the row's reason and the time, unless that had completed; other claims touch no ingestion job |
| Outbox.TerminalIsFinal | backend/workers/outbox.py:92-106 | dispatched, dead-lettered and cancelled rows never change again in any continuation |
| Outbox.CutOffLeaseNeverWins | backend/workers/outbox.py:175-186 | a lease overtaken by a later claim or a cancel never writes again, whatever anyone does |
| Outbox.ClaimHidesRow | backend/workers/outbox.py:98-105 | a claimed row becomes claimable exactly when the lease is over, not an instant sooner or later |
| Outbox.RefusalHidesRow | backend/workers/outbox.py:170-174 | after any run a row whose publish failed rests exactly one minute per claim ever taken on it, 15 minutes at the most |
| Outbox.CrashIsRecovered | backend/workers/outbox.py:98-106 | after a crash its holder writes nothing, and the row is claimable again exactly when the lease is over |
| Outbox.CompletedJobIsNotFailed | backend/workers/outbox.py:73-78 | a job that completed before its row was given up stays completed |
| Outbox.CancelWinsTheRace | backend/modules/jobs/service.py:261-278 | after the operator's cancel every unfinished row of the job is cancelled in every continuation, held leases notwithstanding |
| Outbox.CancelReachesItsJobAlone | backend/modules/jobs/service.py:261-278 | a cancel acts exactly on a pending or queued job; it cancels that job and its unfinished rows and leaves every other row, lease and job as it was |
| Outbox.Select | backend/workers/outbox.py:91-111 | the claiming query returns at most the limit, only claimable rows that nobody has locked |
| Outbox.SelectIsDistinct | backend/workers/outbox.py:91-111 | no row is returned twice |
| Outbox.SelectTakesOldest | backend/workers/outbox.py:108-111 | a claimable row is passed over only when the batch is full of rows not younger |
| Outbox.NextIsClaimable | backend/workers/outbox.py:116-121 | within one claiming transaction each selected row is still claimable when its turn comes |
| Outbox.ClaimRunLease | backend/workers/outbox.py:133-142 | a lease handed out by a claiming transaction is on its own row and owns it |
| Outbox.ClaimRunBatch | backend/workers/outbox.py:114-145 | the claims handed out are live and no token appears twice |
| Outbox.ClaimRunDispatchesNothing | backend/workers/outbox.py:116-142 | claiming neither dispatches a row nor undoes a dispatch |
| Outbox.OutboxStore.EnqueueJobEvent | backend/workers/outbox.py:43-58 | one enqueue step: a job gets at most one row, with its ingestion deadline |
| Outbox.OutboxStore.DeadLetterRow | backend/workers/outbox.py:61-78 | the row and its ingestion job after burial, field by field |
| Outbox.OutboxStore.LeaseRow | backend/workers/outbox.py:116-142 | one row's claim is one claim step of the machine, and a claim is handed out exactly when the row is not buried |
| Outbox.OutboxStore.ClaimPendingJobEvents | backend/workers/outbox.py:81-148 | the whole transaction is the machine's run of the selected claims and hands out exactly the leases recorded |
| Outbox.OutboxStore.AcknowledgeClaim | backend/workers/outbox.py:151-189 | the conditional update is one acknowledgement step and reports whether it changed the row |
| Outbox.OutboxStore.PublishAndAcknowledge | backend/workers/outbox.py:200-215 | broker call and acknowledgement of one claim, with anybody acting before either, are steps of one run; the acknowledgement is recorded exactly when the row still belongs to the claim |
| Outbox.OneTurn | backend/workers/outbox.py:200-216 | a turn adds one delivery exactly when the broker accepted and the row still belongs to the claim when the answer is recorded, and leaves the other claims as they were |
| Outbox.OutboxStore.PublishAll | backend/workers/outbox.py:199-216 | among rivals that act before every broker call and every acknowledgement the loop is a run of the machine; it returns the number of acknowledgements with its own tokens that moved a row to dispatched, which is a number of rows newly dispatched, and of all of them when nobody else acts |
| Outbox.OutboxStore.DispatchPendingJobEvents | backend/workers/outbox.py:192-216 | one pass among rivals is a run of the machine, and the number it returns is the number of acknowledgements with its own tokens that moved a row to dispatched |
| JobService.RunBudget | backend/workers/job_service.py:176-246 | under one limit any mix of duplicate deliveries, crashes, deferrals, late reports and cancels grants at most that many runs per operation; running and failed records satisfy their bounds on attempts |
| JobService.LargestLimitBounds | backend/workers/job_service.py:176-246 | under limits that differ from delivery to delivery the grants never exceed the largest one |
| JobService.FinalStatesAreFinal | backend/workers/job_service.py:269-270 | succeeded and dead-lettered records never change, late reports included |
| JobService.FinalMeansNoMoreRuns | backend/workers/job_service.py:176-190 | once an operation is final no delivery is ever told to run it |
| JobService.GrantsAreSeparated | backend/workers/job_service.py:66-71 | while workers report within their lease or never, two grants of one operation are separated by the first one's report or a full lease |
| JobService.OnlyLatestGrantEndsRunning | backend/workers/job_service.py:192-246 | under the same discipline only the latest grant's report, or a delivery after a full lease, takes a record out of running |
| JobService.LateReportEndsNewerRun | backend/workers/job_service.py:264-301 | after any run of timely reports, any report on a running record ends its run; the reporter is the latest grant's worker if and only if its start is the one recorded, and otherwise its lease is over and another worker is still at the run that ends |
| JobService.LateReportCanCome | backend/workers/job_service.py:258-284 | a run in which the first of two workers reports last and ends the second's run |
| JobService.RunKeepsStarts | backend/workers/job_service.py:214-246 | under timely reports a running record's start is that of its latest grant's worker and of nobody else |
| JobService.WhoRuns | backend/workers/job_service.py:150-246 | a delivery by a fresh worker is granted exactly when its operation has no record, or the record is neither succeeded nor dead-lettered nor running within its lease, its deadline lies ahead and one more attempt is within the limit |
| JobService.GrantedRecord | backend/workers/job_service.py:154-173 | what a granted delivery leaves, field by field; nothing else changes |
| JobService.RefusedRecord | backend/workers/job_service.py:176-228 | what a refused delivery leaves: the record as it was, or dead-lettered for its deadline or its attempts |
| JobService.OneAnswerIsCalledFor | backend/workers/job_service.py:176-246 | each record calls for exactly one of the five answers to a delivery |
| JobService.ReportTakesEffect | backend/workers/job_service.py:258-304 | which reports take effect, by the state they find, and every field they leave |
| JobService.EnsureQueuesOnce | backend/workers/job_service.py:91-120 | an operation without a record is queued, due at once, under what was asked for; one with a record is left as it is |
| JobService.CancelTakesQueuedOnly | backend/modules/jobs/service.py:243-259 | the operator's cancel takes a queued record and no other |
| JobService.CancelledRunsAgain | backend/workers/job_service.py:176-246 | a delivery on a cancelled record runs it exactly when it is inside its deadline and limit |
| JobService.ClaimIgnoresAvailability | backend/workers/job_service.py:192-246 | the decision of a claim does not depend on `available_at` |
| JobService.JobStore.ClaimExisting | backend/workers/job_service.py:176-246 | the decision on a locked record is the one it calls for, and every field after it |
| JobService.JobStore.ClaimJob | backend/workers/job_service.py:140-255 | insert-or-lock with one retry against a rival insert: always decides, as one atomic delivery, with the answer the record calls for |
| JobService.JobStore.EnsureQueuedJob | backend/workers/job_service.py:79-126 | queues the operation once, with one retry against a rival insert; an existing record is left as it is |
| JobService.JobStore.FinishJob | backend/workers/job_service.py:258-284 | the record after a report, dead-lettered exactly when not retryable or out of attempts |
| JobService.JobStore.ReleaseJobForRetry | backend/workers/job_service.py:287-304 | only a running record goes back to queued, with its delay |
| JobService.JobStore.RunTracked | backend/workers/job_service.py:307-415 | with anybody acting between claim and report, the runner is called exactly when there was no record or it calls for a run, and then exactly one report is filed on what the record has become |
| EffectLedger.GrantsAreSeparated | backend/workers/effect_ledger.py:106-133 | two executions of one effect are separated by a recorded failure or a full lease and carry the same provider key and payload, in every run |
| EffectLedger.AttemptsCountGrants | backend/workers/effect_ledger.py:117-119 | the attempts counter is the number of executions handed out |
| EffectLedger.WhoExecutes | backend/workers/effect_ledger.py:84-133 | a caller is told to execute exactly when the effect is unknown, failed or stale, with the same payload |
| EffectLedger.BeginningIsRecorded | backend/workers/effect_ledger.py:74-156 | in every run an execution is recorded as in flight from now, on one attempt more, under the key it had or the one asked for; the caller is told the state, attempts and key on record |
| EffectLedger.CompletionIsRecorded | backend/workers/effect_ledger.py:178-203 | a completion changes the ledger exactly when it reports an outcome of an effect on record that has not succeeded, and then records exactly that outcome on that effect alone |
| EffectLedger.SuccessIsFinal | backend/workers/effect_ledger.py:197-198 | after a recorded success no begin executes and no completion changes the record |
| EffectLedger.SuccessEndsTheEffect | backend/workers/effect_ledger.py:84-98 | after a success is reported of an effect on record, no beginning in any continuation executes it or changes the record |
| EffectLedger.FailureReopensTheEffect | backend/workers/effect_ledger.py:106-119 | after a failure is reported, the next beginning with the same payload executes |
| EffectLedger.AbandonedEffectIsTakenOver | backend/workers/effect_ledger.py:55-60 | an execution nobody reports on is handed out again to the same payload exactly when its lease is over |
| EffectLedger.FirstClaimHasOneWinner | backend/workers/effect_ledger.py:135-159 | of any number of racing claims exactly one executes until a lease after the first grant has passed |
| EffectLedger.HashInputIsFaithful | backend/workers/effect_ledger.py:42-47 | NUL-free payloads, or two of one length of which one is NUL-free, have the same hash input exactly when they agree part by part |
| EffectLedger.CollidesExactlyWhen | backend/workers/effect_ledger.py:42-47 | some other payload of the same length has the same hash input if and only if there are two parts at least and one contains a NUL |
| EffectLedger.Ledger.BeginExternalEffect | backend/workers/effect_ledger.py:63-164 | insert-or-lock with one retry against a rival insert is one atomic beginning, mismatch included |
| EffectLedger.Ledger.CompleteExternalEffect | backend/workers/effect_ledger.py:167-206 | an outcome is recorded unless success already was; other statuses are an error |
| CursorCodec.FirstChar | backend/core/pagination.py:56-56 | the UTF-8 reader: a well-formed character or a rejection; overlong forms and surrogates are malformed |
| CursorCodec.Utf8IsExact | backend/core/pagination.py:49-56 | a byte sequence is accepted exactly when it is the encoding of what is read from it |
| CursorCodec.PaddingIsRestored | backend/core/pagination.py:50-54 | the padding computed from the stripped length is the padding that was stripped |
| CursorCodec.CursorRoundTrip | backend/core/pagination.py:48-59 | decoding an encoded cursor gives back the timestamp and id, for every timestamp and every id |
| CursorCodec.CursorsAreDistinct | backend/core/pagination.py:48-50 | different positions have different cursors, none of them empty |
| CursorCodec.BadFirstByteIsRejected | backend/core/pagination.py:58-59 | a cursor that decodes to an impossible first byte is an invalid cursor |
| CursorCodec.EmptyCursorIsInvalid | backend/core/pagination.py:53-59 | the empty text is not a cursor |
| Pagination.IdOrderIsLexicographic | backend/core/pagination.py:120-123 | one id is less than another exactly when they first differ in a smaller character or an earlier end |
| Pagination.SortedIsDescending | backend/core/pagination.py:123-123 | ordering by value and id descending is strict when ids are unique |
| Pagination.OlderComesLater | backend/core/pagination.py:123-123 | of two rows of the sorted table the later one is older, or as old with the smaller id |
| Pagination.BelowIsOlder | backend/core/pagination.py:120-122 | a cursor admits exactly the rows older than its position, or as old with a smaller id |
| Pagination.DescendingIsUnique | backend/core/pagination.py:123-123 | there is one such arrangement of the same rows |
| Pagination.PageIsAStartOfTheRest | backend/core/pagination.py:108-134 | a page is the longest allowed start of what lies below the cursor; it promises more exactly when rows were left out, and its cursor then names its last row |
| Pagination.MalformedCursorFails | backend/core/pagination.py:118-119 | a request fails exactly when its cursor is given and does not decode |
| Pagination.TraversalDescends | backend/core/pagination.py:108-134 | following cursors while the table changes arbitrarily yields strictly descending positions, each row from a table that was read |
| Pagination.TraversalMissesNothing | backend/core/pagination.py:108-134 | a row present at every page read is returned by a finished traversal |
| Pagination.FixedTableFromBound | backend/core/pagination.py:124-134 | on a fixed table k pages return the first k * limit rows of the rest, and are all exactly when that is everything |
| Pagination.FixedTableTraversal | backend/core/pagination.py:108-134 | a fixed table of n rows takes exactly max(1, ceil(n / limit)) pages, which together are the sorted table |
| LocalCache.NeverTooLarge | backend/core/cache.py:86-90 | after any run the cache is well formed and holds at most `maxsize` keys |
| LocalCache.HeldIsLastPut | backend/core/cache.py:75-94 | what is held for a key is the value and expiry of its last put |
| LocalCache.HitIsFresh | backend/core/cache.py:75-84 | a hit returns the last value put, before its expiry |
| LocalCache.RecentKeyIsHeld | backend/core/cache.py:83-90 | an unexpired key put and not deleted, with fewer than `maxsize` other keys touched since its last touch, is held and found |
| LocalCache.EvictionIsExactlyLru | backend/core/cache.py:83-90 | when only eviction removes keys, being held is equivalent to fewer than `maxsize` other keys touched since |
| LocalCache.LocalTTLCache.Read | backend/core/cache.py:75-84 | the answer and the reordered or dropped entry |
| LocalCache.LocalTTLCache.Write | backend/core/cache.py:86-90 | the entry goes to the recent end and the eviction loop removes from the other |
| LocalCache.LocalTTLCache.Remove | backend/core/cache.py:92-94 | the keys go, in a loop |
| LeaseLock.RunKeepsInv | backend/workers/schedule_lock.py:49-90 | in every run a run that got a token has its lease in Redis unless it overstayed it |
| LeaseLock.AtMostOneHolder | backend/workers/schedule_lock.py:49-83 | two token holders of one key are never both within their lease |
| LeaseLock.LeaseSurvives | backend/core/cache_loader.py:22-27 | until it expires a lease stays as it is unless its own token is released on its own key |
| LeaseLock.OwnReleaseFrees | backend/workers/schedule_lock.py:31-36 | the owner's release removes its key and no other |
| LeaseLock.WhoMayRun | backend/workers/schedule_lock.py:62-83 | who is let through: with an answer, exactly when no lease is live; without one, by the error policy and under a fail-open handle |
| LeaseLock.AttemptIsRecorded | backend/workers/schedule_lock.py:62-83 | an attempt leaves a lease exactly when its SET took effect on a free key, and returns its token, a fail-open handle or nothing |
| LeaseLock.OnlyOwnReleasesDelete | backend/workers/schedule_lock.py:31-36 | a release changes a lock exactly when it gets through with the token of the live lease on that key; a crash changes none |
| LeaseLock.LeaseRunsOut | backend/workers/schedule_lock.py:65-65 | left alone, a lease is over exactly from its time to live on |
| LeaseLock.FailOpenNeverDeletes | backend/workers/schedule_lock.py:86-90 | releasing a fail-open or empty handle never changes any lock |
| LeaseLock.LostAnswerBlocksTheKey | backend/workers/schedule_lock.py:64-72 | a SET whose answer was lost refuses every attempt for a whole lease |
| LeaseLock.FreeAfterALeaseTime | backend/workers/schedule_lock.py:65-65 | a lease time after the last attempt the key is free, whatever its holder did |
| LeaseLock.LockClient.SetKey | backend/workers/schedule_lock.py:65-65 | SET NX EX: takes the key exactly when no lease is live |
| LeaseLock.LockClient.DeleteIfOwned | backend/workers/schedule_lock.py:31-36 | the release script deletes exactly the caller's own live lease |
| LeaseLock.LockClient.TryAcquireBeatLock | backend/workers/schedule_lock.py:49-83 | one attempt is one step of the machine with the handle it returns |
| LeaseLock.LockClient.ReleaseBeatLock | backend/workers/schedule_lock.py:86-90 | one release is one step of the machine |
| SingleFlight.RunKeepsInv | backend/core/cache_loader.py:103-150 | in every run the process lock is held by exactly the callers past it, and distributed tokens are live handles, one each |
| SingleFlight.LoadsNeverOverlap | backend/core/cache_loader.py:45-46 | in one process at most one caller is past the lock, so loader runs never overlap |
| SingleFlight.TokenLoadsDoNotOverlap | backend/core/cache_loader.py:53-76 | across processes two loads under tokens overlap only if one token is older than the lock's time to live |
| SingleFlight.OneLoadForAll | backend/core/cache_loader.py:113-150 | with loads that return something and a cache that keeps it, and nobody interrupted while loading or storing, any callers of one process cause one load at most and all answers are its result |
| SingleFlight.NoNullAnswers | backend/core/cache_loader.py:113-150 | nobody is answered null while nothing empties or hides the cache and loads return something |
| SingleFlight.FoundIsAnswered | backend/core/cache_loader.py:113-123 | whoever finds the value on its first look, or inside its process's lock, answers with it at once and loads nothing |
| SingleFlight.MissedTwice | backend/core/cache_loader.py:85-88 | who missed twice waits five seconds at most for the distributed lock, or loads at once when Redis is off |
| SingleFlight.WaitersTakeOthersValues | backend/core/cache_loader.py:89-91 | a waiting caller answers with what was stored elsewhere and loads nothing |
| SingleFlight.LoadIsAnswered | backend/core/cache_loader.py:137-150 | a load's result is the answer whether or not the cache kept it, and the token is given back |
| SingleFlight.FailingLeavesNothingBehind | backend/core/cache_loader.py:137-150 | a caller that fails has no answer, stores nothing, frees its process's lock and gives its token back |
| SingleFlight.FilledCanVanish | backend/core/cache_loader.py:131-133 | a caller told the cache is filled answers null, without loading, when the value is gone or unreadable |
| SingleFlight.NullAnswerExactlyWhen | backend/core/cache_loader.py:131-144 | a caller answers null if and only if the look after being told so finds nothing, or its own load returned null |
| SingleFlight.LateLookersDoNotLoad | backend/core/cache_loader.py:119-123 | whoever looks after the value is stored answers with it and never loads |
| SingleFlight.EarlyLookersReload | backend/core/cache_loader.py:92-98 | whoever looked before and then wins the distributed lock loads again |
| SingleFlight.TimedOutWaitersReload | backend/core/cache_loader.py:88-100 | so does a waiter whose deadline has passed |
| SingleFlight.LoadedTwice | backend/core/cache_loader.py:88-98 | a schedule of two processes, for any tokens and value, with two loads and nothing lost |
| SingleFlight.StoredValueIsReloadedExactlyWhen | backend/core/cache_loader.py:85-98 | a step loads a stored value again if and only if it finds a deadline passed, or is an attempt on the lock that meets no live lock or gets no answer |
| SingleFlight.RunReloadsExactlyWhen | backend/core/cache_loader.py:85-98 | over any run that keeps values, nobody loads a stored value again if and only if neither moment occurs |
| SingleFlight.WhoMayReload | backend/core/cache_loader.py:79-100 | those who can still load a stored value are exactly the callers between a missed look inside their process's lock and their next check of the deadline |
| SingleFlight.NoTokenIsLeftBehind | backend/core/cache_loader.py:126-150 | in every run each token gained belongs to a caller that has yet to release it, whatever raised |
| SingleFlight.WaitEnds | backend/core/cache_loader.py:87-100 | some turn ends the wait |
| SingleFlight.WaitForDistributedLock | backend/core/cache_loader.py:79-100 | the polling loop ends at the first turn that finds the deadline passed or the value, or is not refused, with the verdict for what it found, within 101 turns |
| SingleFlight.CoordinatedCacheLoad | backend/core/cache_loader.py:103-150 | what a caller that missed twice does, by the first deciding turn: with the value seen in time nothing is loaded and the answer is reread; with a token the loader runs once and that token alone is released, failures included; otherwise the loader runs once without a token |
| RateLimit.FirstOfEachWindow | backend/core/rate_limit.py:15-21 | since the current window opened exactly the first `limit` calls were let through |
| RateLimit.AcceptedByWindowStart | backend/core/rate_limit.py:39-50 | how many calls an interval has let through, by where the current window began |
| RateLimit.AtMostTwoWindows | backend/core/rate_limit.py:80-83 | at most 2 * limit - 1 calls in any stretch shorter than the window, 2 * limit in one as long, none for limits below one |
| RateLimit.BoundsAreTight | backend/core/rate_limit.py:80-83 | both bounds are attained |
| RateLimit.AdviceSuffices | backend/core/rate_limit.py:31-36 | calling again after an advertised time opens a new window if and only if that long was left; the fallback's own advice suffices exactly when the time left is whole seconds or under one |
| RateLimit.NeverTooManyKeys | backend/core/rate_limit.py:47-49 | the fallback table never exceeds 10,000 keys |
| RateLimit.Soonest | backend/core/rate_limit.py:48-48 | the evicted entry is the first among those that expire soonest |
| RateLimit.EvictsSoonest | backend/core/rate_limit.py:47-49 | eviction costs one key that expires no later than any other, and nothing else |
| RateLimit.NewcomerIsForgotten | backend/core/rate_limit.py:46-49 | a full table forgets a newcomer at once exactly when its window ends before all others |
| RateLimit.NewcomerCanBeForgotten | backend/core/rate_limit.py:46-49 | a run fills the table so that calls with a shorter window leave no trace |
| RateLimit.ReadsDecideNothing | backend/core/rate_limit.py:53-63 | a read takes out the key's own expired entry alone, and no later call is counted differently for it |
| RateLimit.ClearingStartsAfresh | backend/core/rate_limit.py:112-119 | after clearing, the key starts afresh and every other key is as it was |
| RateLimit.TableKeepsWindows | backend/core/rate_limit.py:39-63 | whatever happens to other keys, a key's entry is its own window or missing only when that is over |
| RateLimit.FixedWindowBound | backend/core/rate_limit.py:39-83 | the interval bounds for the table, for a key with one window length, not cleared and not evicted early |
| RateLimit.RateLimiter.RunScript | backend/core/rate_limit.py:15-21 | INCR with EXPIRE on the first is the fixed window |
| RateLimit.RateLimiter.SoonestKey | backend/core/rate_limit.py:48-48 | the minimum search returns that first soonest key |
| RateLimit.RateLimiter.LocalIncrement | backend/core/rate_limit.py:39-50 | the table, count and time to live after a call |
| RateLimit.RateLimiter.LocalRead | backend/core/rate_limit.py:53-63 | what is read, and that an expired entry goes |
| RateLimit.RateLimiter.CheckRateLimit | backend/core/rate_limit.py:66-83 | with both answers of Redis, with the count only, and with none: which calls are refused and what is counted where |
| RateLimit.RateLimiter.ClearRateLimit | backend/core/rate_limit.py:112-119 | the local entry always goes, the Redis entry when Redis answers |
| RefreshSessions.RevocationIsFinal | backend/modules/identity_access/repository.py:120-143 | over any run no row goes, changes user or expiry, or loses its revocation |
| RefreshSessions.RunKeepsInv | backend/modules/identity_access/service.py:145-185 | every run keeps: lineages have a root, a token is spent once at most and is then revoked, no two unrevoked rows per lineage |
| RefreshSessions.RotatedAtMostOnce | backend/modules/identity_access/repository.py:124-137 | each token wins at most one rotation |
| RefreshSessions.OneUnrevokedPerLineage | backend/modules/identity_access/service.py:160-172 | every sign-in lineage has one user and at most one unrevoked session |
| RefreshSessions.DeadForever | backend/modules/identity_access/repository.py:128-133 | a revoked or expired session stays so |
| RefreshSessions.LateRotationLoses | backend/modules/identity_access/repository.py:124-137 | a refresh whose token has died changes nothing, whatever it read before |
| RefreshSessions.DeadIsNeverSpent | backend/modules/identity_access/repository.py:124-137 | in no continuation does a dead token win a rotation |
| RefreshSessions.LogoutEndsTheSession | backend/modules/identity_access/service.py:180-185 | a logout revokes the token's session and changes nothing else, and no refresh with that token wins afterwards |
| RefreshSessions.SessionLivesItsLifetime | backend/modules/identity_access/service.py:130-137 | in every continuation a session is dead exactly when it was revoked or its lifetime since sign-in is over |
| RefreshSessions.ReadLetsThrough | backend/modules/identity_access/service.py:145-158 | a refresh goes on past the read exactly for an unrevoked session whose expiry has not passed, of a user who may refresh |
| RefreshSessions.SessionExpires | backend/modules/identity_access/repository.py:169-175 | left alone, a session is dead exactly from the end of its lifetime on |
| RefreshSessions.GivenUpHasNoSecondHalf | backend/modules/identity_access/service.py:160-172 | a refresh or reset that was given up writes nothing |
| RefreshSessions.RotationHandsOver | backend/modules/identity_access/service.py:160-172 | a rotation wins exactly on an unrevoked, unexpired row; it revokes that row and inserts one of the same lineage and user with a lifetime of its own; losing changes no row |
| RefreshSessions.OnlyTheNextRotates | backend/modules/identity_access/service.py:160-172 | the next rotation in a lineage needs the token just issued |
| RefreshSessions.ReadAndRotationDisagreeAtExpiry | backend/modules/identity_access/service.py:149-163 | first check and rotation disagree at the instant of expiry and at no other |
| RefreshSessions.ResetStaysListed | backend/modules/identity_access/repository.py:139-143 | what a reset listed is what it revokes |
| RefreshSessions.ResetEndsWhatItListed | backend/modules/identity_access/service.py:290-303 | a reset kills every session that existed at its listing; what lives on is exactly what was opened since |
| RefreshSessions.ResetReachesItsUserAlone | backend/modules/identity_access/repository.py:139-161 | the commit revokes exactly the sessions that were the user's own and live at the listing; every other row, of any user, stays as it is |
| RefreshSessions.ResetMissesARotation | backend/modules/identity_access/repository.py:139-143 | a rotation between listing and commit leaves a live session |
| RefreshSessions.SessionStore.CreateRefreshSession | backend/modules/identity_access/repository.py:102-112 | inserts one unrevoked row |
| RefreshSessions.SessionStore.OpenSession | backend/modules/identity_access/service.py:130-137 | the session step of a sign-in |
| RefreshSessions.SessionStore.GetActiveSession | backend/modules/identity_access/repository.py:169-175 | a session is found exactly while it is neither revoked nor expired |
| RefreshSessions.SessionStore.BeginRefresh | backend/modules/identity_access/service.py:145-158 | which refreshes go on past the read |
| RefreshSessions.SessionStore.RotateRefreshSession | backend/modules/identity_access/repository.py:124-137 | the conditional update and its row count |
| RefreshSessions.SessionStore.FinishRefresh | backend/modules/identity_access/service.py:160-178 | rotation and next session as one step, and when it succeeds |
| RefreshSessions.SessionStore.Logout | backend/modules/identity_access/service.py:180-185 | revokes the token's session, whatever its state |
| RefreshSessions.SessionStore.ListActiveSessions | backend/modules/identity_access/repository.py:145-161 | lists exactly the sessions of the user that are unrevoked and expire later than now |
| RefreshSessions.SessionStore.RevokeAll | backend/modules/identity_access/repository.py:139-143 | the loop revokes exactly what was listed |
| RefreshSessions.SessionStore.ResetPassword | backend/modules/identity_access/service.py:300-302 | the second half of a reset is its commit step |
| ProviderRetry.PostWithRetry | backend/modules/ai/provider_retry.py:70-166 | always ends inside the loop, at the first turn that does not go on, with the posts, pauses and outcome that turn justifies |
| ProviderRetry.OutcomeIsDetermined | backend/modules/ai/provider_retry.py:70-166 | those clauses settle where the loop ends and what the caller sees |
| ProviderRetry.PostsAreBounded | backend/modules/ai/provider_retry.py:70-72 | at most 1 + min(3, retries) posts, one when not idempotent, each begun before the deadline and after retryable answers only |
| ProviderRetry.GoesOnMeans | backend/modules/ai/provider_retry.py:68-166 | another turn follows exactly an idempotent request with a retry left of three at the most, in time, after a timeout, a transport failure or one of 429, 502, 503, 504, with time for the pause |
| ProviderRetry.RetriesAreUsedUp | backend/modules/ai/provider_retry.py:68-70 | while they may be made, all configured retries are, of which three count |
| ProviderRetry.WhatTheCallerSees | backend/modules/ai/provider_retry.py:72-166 | the outcome and its numbers, by the last turn |
| ProviderRetry.PausesFitTheBudget | backend/modules/ai/provider_retry.py:108-166 | each pause is shorter than the time left, all together shorter than the budget |
| ProviderRetry.MetadataIsTrue | backend/modules/ai/provider_retry.py:73-83 | reported attempts are the posts made, reported retries all but the first |
| EvaluationStream.OneLaneEach | backend/modules/ai/evaluation_service.py:278-278 | each position falls into exactly one stride |
| EvaluationStream.StridesPartition | backend/modules/ai/evaluation_service.py:278-278 | the strides hold each case as often as it was given |
| EvaluationStream.RunKeepsInv | backend/modules/ai/evaluation_service.py:280-312 | in every interleaving no case is lost or duplicated between workers, queue and consumer |
| EvaluationStream.FinishedHasEveryCase | backend/modules/ai/evaluation_service.py:305-310 | a consumer that finished has exactly one result per case |
| EvaluationStream.WaitsForeverExactlyWhen | backend/modules/ai/evaluation_service.py:283-310 | once nothing moves, the consumer still waits exactly when a worker ended without a word and no exception was put |
| EvaluationStream.ConsumerCanWaitForever | backend/modules/ai/evaluation_service.py:283-310 | two such runs: a session that could not be entered, and something raised that is not an `Exception` |
| EvaluationStream.NeverBlocksForGood | backend/modules/ai/evaluation_service.py:283-310 | if no worker ends without a word, the consumer is done or something can move |
| EvaluationStream.WorkersReportTheirNext | backend/modules/ai/evaluation_service.py:283-300 | a worker takes its next case and puts its result, or its failure, last into the queue |
| EvaluationStream.ConsumerTakesTheFirst | backend/modules/ai/evaluation_service.py:305-310 | the consumer takes the first message; a failure ends it, and so does the last result |
| EvaluationStream.StepsAreUsedUp | backend/modules/ai/evaluation_service.py:283-310 | every step that changes anything lowers a measure, so every run ends |
| EvaluationStream.EveryRunCanFinish | backend/modules/ai/evaluation_service.py:280-312 | every run that has met no failure has a continuation in which the consumer gets a result for each case |
| EvaluationStream.TakenIsDelivery | backend/modules/ai/evaluation_service.py:305-332 | what the consumer takes is a delivery that is complete exactly when no exception came |
| EvaluationStream.AverageIsBounded | backend/modules/ai/evaluation_service.py:355-355 | scores in [0, 1] average in [0, 1] |
| EvaluationStream.AverageIsTheMean | backend/modules/ai/evaluation_service.py:355-355 | the average times the number of results is their total |
| EvaluationStream.OrderDoesNotMatter | backend/modules/ai/evaluation_service.py:332-355 | average and number passed do not depend on the order in which results come |
| EvaluationStream.EvaluationRun.Evaluate | backend/modules/ai/evaluation_service.py:254-366 | a running run completes exactly when the consumer took every result, and has then written one item per case, in the order the results came |
| EvaluationStream.EvaluationRun.MarkFailed | backend/modules/ai/evaluation_service.py:368-378 | only a running run becomes failed |
| EvaluationStream.EvaluationRun.Flush | backend/modules/ai/evaluation_service.py:348-350 | one batch is appended to what was written |
| EvaluationStream.EvaluationRun.Consume | backend/modules/ai/evaluation_service.py:332-350 | results and passes in order, full batches written, fewer than a batch unwritten |
| EvaluationStream.EvaluationRun.Execute | backend/modules/ai/evaluation_service.py:254-366 | a completed run has written every result once, in batches within the configured size, with the true pass count and average; a failed one only whole batches; any other is untouched |
| EvaluationScoring.Deduplicated | backend/modules/ai/evaluation_scoring.py:97-97 | the same ids, each once |
| EvaluationScoring.FirstHit | backend/modules/ai/evaluation_scoring.py:101-104 | the first expected position, with none before it |
| EvaluationScoring.Cited | backend/modules/ai/evaluation_scoring.py:265-273 | cited chunks are among the retrieved |
| EvaluationScoring.GroundednessInUnit | backend/modules/ai/evaluation_scoring.py:243-262 | groundedness lies between 0 and 1, without sentences too |
| EvaluationScoring.OutputInUnit | backend/modules/ai/evaluation_scoring.py:216-236 | the output score is 1 when it passed and 0 when not; similarity lies between 0 and 1 |
| EvaluationScoring.MetricsAreInUnit | backend/modules/ai/evaluation_scoring.py:93-161 | every quality metric and the score lie between 0 and 1 |
| EvaluationScoring.GroundedAreCounted | backend/modules/ai/evaluation_scoring.py:255-262 | the grounded sentences are those with tokens of which three tenths occur in the context |
| EvaluationScoring.CitedMeans | backend/modules/ai/evaluation_scoring.py:265-273 | a chunk is cited exactly when it was retrieved and is quoted or has its number in a marker |
| EvaluationScoring.RetrievalMetricsMean | backend/modules/ai/evaluation_scoring.py:96-104 | recall, precision and reciprocal rank by the sets of expected and retrieved chunks |
| EvaluationScoring.CitationMetricsMean | backend/modules/ai/evaluation_scoring.py:106-115 | citation recall and precision by the cited chunks, with retrieval standing in when nothing is cited |
| EvaluationScoring.AnswerMetricsMean | backend/modules/ai/evaluation_scoring.py:216-262 | output, similarity, groundedness, answerability, resistance and consistency in the case's own terms |
| EvaluationScoring.ScoreMeans | backend/modules/ai/evaluation_scoring.py:129-135 | the score as the discounted weighted sum |
| EvaluationScoring.ReportedIsRounded | backend/modules/ai/evaluation_scoring.py:145-161 | each reported metric is the exact one rounded; the decision was taken before |
| EvaluationScoring.PassedMeans | backend/modules/ai/evaluation_scoring.py:136-144 | a case passes exactly when its own conditions hold: output, every expected chunk retrieved and cited, half the sentences grounded, refusals and resistance where asked |
| EvaluationScoring.CitationsCountAgainstNothing | backend/modules/ai/evaluation_scoring.py:136-144 | where nothing is expected, an answer that would pass without citations passes exactly when it cites nothing retrieved |
| EvaluationScoring.CitingCanFail | backend/modules/ai/evaluation_scoring.py:136-144 | quoting the one retrieved chunk turns a pass into a failure |
| EvaluationScoring.PassedScoresHigh | backend/modules/ai/evaluation_scoring.py:130-144 | a passing case scores at least 0.85, by groundedness alone |
| EvaluationScoring.MissedOutputScoresLow | backend/modules/ai/evaluation_scoring.py:130-135 | a missed output scores at most 0.3 |
| EvaluationScoring.CitationRecallIsBounded | backend/modules/ai/evaluation_scoring.py:106-115 | citation recall never exceeds retrieval recall |
| EvaluationScoring.ReciprocalRankIsHigh | backend/modules/ai/evaluation_scoring.py:97-104 | with a hit the reciprocal rank is at least 1 / (retrieved - hits + 1) |
| PromptCache.KeysAreFaithful | backend/modules/ai/prompt_cache.py:12-17 | different questions of users have different cache keys |
| PromptCache.NewestFirst | backend/modules/ai/repository.py:72-84 | the list has exactly the template's versions |
| PromptCache.FirstPublished | backend/modules/ai/prompt_cache.py:81-82 | a published version of the page, or none is |
| PromptCache.CommitKeepsTables | backend/modules/ai/prompt_service.py:41-142 | the four service operations keep rows and look-ups consistent |
| PromptCache.OtherAnswersStay | backend/modules/ai/prompt_service.py:58-141 | an operation leaves every answer it does not concern as it was |
| PromptCache.DropsWhatItConcerns | backend/modules/ai/prompt_cache.py:106-118 | an operation drops the cached answer to every question it concerns |
| PromptCache.DropsNothingElse | backend/modules/ai/prompt_cache.py:106-118 | an operation drops no cached answer that it does not concern |
| PromptCache.RunIsCoherent | backend/modules/ai/prompt_service.py:41-142 | after any sequence of operations everything cached is what loading would answer now |
| PromptCache.ResolveAnswersWhatLoadingWould | backend/modules/ai/prompt_cache.py:44-103 | resolving answers exactly what its loader would compute from the current tables |
| PromptCache.AnswerChangesExactlyWhen | backend/modules/ai/prompt_service.py:61-141 | an operation changes an answer if and only if it rewrites the version the answer names or makes the choice fall on another one |
| PromptCache.FailedDeletionServesTheOldAnswer | backend/modules/ai/prompt_cache.py:117-118 | without the deletion the old answer is served, wrongly if and only if the operation rewrote the version it names or moved the choice |
| PromptCache.ResolvingFillsTheCache | backend/modules/ai/prompt_cache.py:98-103 | a resolution changes its own cache entry alone; asked again, the same answer comes from the cache |
| PromptCache.TemplateIsCreated | backend/modules/ai/prompt_service.py:41-59 | when a template is refused, and what a new one is |
| PromptCache.TemplateIsUpdated | backend/modules/ai/prompt_service.py:61-83 | only a published version of the template itself can be made active; each refusal has its reason |
| PromptCache.VersionIsCreated | backend/modules/ai/prompt_service.py:85-119 | when a version is refused; a new one is the newest, and active exactly when it is published and none was |
| PromptCache.VersionIsUpdated | backend/modules/ai/prompt_service.py:121-142 | when an update is refused; otherwise what was given is set on that version alone |
| PromptCache.ListIsNewestFirst | backend/modules/ai/repository.py:79-84 | of two versions on the list the first was created later |
| PromptCache.PageIsRecent | backend/modules/ai/repository.py:72-84 | the page holds exactly the versions with fewer than 200 newer ones of their template |
| PromptCache.ChoiceIsRight | backend/modules/ai/prompt_cache.py:73-84 | a template with versions is answered with its active version while that is recent, else with its newest published one if one is recent, else with its newest |
| PromptCache.KeyIsAnsweredRightly | backend/modules/ai/prompt_cache.py:66-93 | after any run a key is answered exactly when a template of the user with that key has a version, and then with the right one as it is now |
| PromptCache.VersionIsAnsweredRightly | backend/modules/ai/prompt_cache.py:50-64 | after any run a version id is answered exactly when it is a version of one of the user's templates, and then with that version as it is now |
| PromptCache.AnswersAreTheUsersOwn | backend/modules/ai/prompt_cache.py:54-93 | a user is given only versions of the user's own templates, as they are now |
| PromptCache.ActiveVersionCounts | backend/modules/ai/prompt_cache.py:73-84 | the active version is used exactly while it is among the newest 200 |
| PromptCache.ActiveVersionCanDropOut | backend/modules/ai/prompt_cache.py:73-84 | after 200 further versions the key no longer resolves to the active one |
| PromptCache.PromptStore.InvalidateResolution | backend/modules/ai/prompt_cache.py:106-118 | the keys built from what was given are deleted |
| PromptCache.PromptStore.AddTemplate | backend/modules/ai/prompt_service.py:41-59 | one creation step, or a conflict |
| PromptCache.PromptStore.ChangeTemplate | backend/modules/ai/prompt_service.py:61-83 | one update step, or the error that stops it |
| PromptCache.PromptStore.AddVersion | backend/modules/ai/prompt_service.py:85-119 | one creation step; a first published version becomes active |
| PromptCache.PromptStore.ChangeVersion | backend/modules/ai/prompt_service.py:121-142 | one update step, or the error that stops it |
| PromptCache.PromptStore.ResolvePrompt | backend/modules/ai/prompt_cache.py:44-103 | answer and cache after one resolution |

## Left out

- SQLAlchemy, Redis, Celery, SMTP, HTTP and S3: they are tables, keys with expiry and logs of
  publishes and posts. A database transaction is atomic; a failed one leaves nothing behind.
- `_finish_job` and `_release_job_for_retry` read without a row lock: their read and write are taken
  as one step.
- Jobs without an operation id, job payloads, error texts and queue latency metrics.
- Outbox.OutboxStore.DispatchPendingJobEvents: what rivals do between its transactions is given as
  events of the machine, together with the tables they leave.
- Eager mode, in which enqueueing leaves no outbox row.
- Pagination: ids are ordered by code point, where a database may use another collation. The
  timestamp format is any that prints no NUL and is undone by its parser. `paginate_cursor_rows`
  differs only in taking the first element of a row tuple, and the offset variants are left out.
- `cache_get_json` and its relatives: which of the local and the Redis cache serves a key. The loader
  is modelled over one cache cell that a read may miss.
- SingleFlight.CoordinatedCacheLoad: one caller's way through, by what its awaits meet; a failure of
  the loader or of the storing is a parameter, Dafny having no exceptions. What other callers do at
  each await, and that a token is released whatever raises, is proved of the machine
  (`SingleFlight.NoTokenIsLeftBehind`), not of this method. In the machine a caller cancelled while its
  SET is under way keeps no lock.
- The advisory PostgreSQL lock of chat retention, and `cache_bump_generation`, which is not monotone
  across outages.
- RateLimit.RateLimiter.CheckRateLimit: which of Redis's two answers come, and the time to live it
  reports, are parameters; the interval bounds are for one backend, and a key counted by both can be let through twice as often.
- Passwords, one-time codes, e-mail verification and the deletion of reset tokens; a session row's id
  is identified with its token hash, and user accounts are a flag of the refresh.
- ProviderRetry: pauses are given as non-negative numbers, failure injection and the concurrency slot
  are absent. An error other than a timeout or a transport failure leaves the loop as it is.
- EvaluationStream: the fallback stream without per-worker sessions, the wait for the remaining
  workers after the consumer stopped, the averages of the single metrics, and loading the user, the
  dataset and the cases.
- EvaluationScoring: tokenising, sentence splitting, marker phrases and the case type are given by
  what they find; scores are reals and rounding is any monotone function exact on multiples of
  1/10000. Latency and cost are passed through unchanged by the source.
- Prompt rendering, names and descriptions of templates, and prompt operations that overlap in time:
  coherence is for one operation after another.
- `_console_state_for_application`, redaction, filters, routers, schemas, migrations, metrics, tracing
  and log lines.
