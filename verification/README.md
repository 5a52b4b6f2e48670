# Verified model of the webhook delivery service

The service stores webhook events in one table and delivers them over HTTP. Any number of instances share the table. An instance learns of an event by a notification or by a backup poll, claims the row, keeps a copy of it in a bounded queue, and lets a worker deliver the copy and write the outcome: success, failed, or pending again with a retry time. A sweep returns rows to pending that have been in processing for more than three minutes.

The project models that protocol, the fair polling query, the retry delay, the autoscaling worker pool and the configuration cache, and proves what they keep over whole runs.

| file | content |
|---|---|
| `Types.dfy` | shared names and a few facts about sequences and sets |
| `Backoff.dfy` | the retry delay with jitter and cap |
| `FairSelection.dfy` | the polling query: quota, row numbers, order, limit, skipped locks |
| `EventRows.dfy` | one row and what each SQL statement does to it |
| `CopyLifecycle.dfy` | one event with its live copies and its history, and every step on it |
| `Ownership.dfy` | invariants of one event, step by step |
| `DeliveryProtocol.dfy` | the whole service as a state machine, and theorems about all its runs |
| `Progress.dfy` | fault-free schedules that settle every event, and exactly when they exist |
| `StaleCopies.dfy` | runs that show why a worker must not be slower than the sweep |
| `Incidents.dfy` | crashes, releases and notifications: what each does, and timely runs that use up the bounds |
| `RetryTiming.dfy` | retries claimed early by notifications, and retries that polls pass over |
| `Repository.dfy` | the repository as a class over the table |
| `Service.dfy` | the goroutines as methods: poll, notification handler, processing of an event |
| `WorkerPool.dfy` | the worker pool as a class, and its controller |
| `EventsEncoding.dfy` | the comma encoding of event names |
| `ConfigCache.dfy` | the configuration cache as a class |
| `ConfigStaleness.dfy` | interleaved fetches, stores, changes and invalidations |
| `CacheRefinement.dfy` | the cache class takes the steps of that state machine |

## How the protocol is modelled

- A state is the clock, the events, the queue of each instance, the events somebody may still be notified about, and the polls that have found room in their queue and have yet to claim. An event is its row, its live copies and a log of what happened to it. Each SQL statement or transaction, each queue operation and each delivery is one atomic step; a poll's look at its queue is one step, and its select, lock, mark and commit are another.
- Crashes, lost copies, failed writes, failed releases, lost and duplicate notifications are steps too. A failed status write or a panicking worker loses its copy (`Lose`). A statement that reports an error has had no effect.
- `UpdateEventAttempts` and `ScheduleRetry` are two steps. Status writes check neither status nor owner, as in the code.
- A queue without capacity stores nothing: a copy goes straight from its claimer to a waiting worker (`HandOff`).
- There is one clock, which never goes back. A run is *timely* for an event when no sweep meets a copy of it that has lived longer than the stall timeout. Theorems either hold in all runs or say that they need this; `ExclusiveOwnership` shows that it is exactly what exclusive ownership needs.
- The classes in `Repository.dfy` and `Service.dfy` change the table and the queue in place with the row functions the state machine uses. What other goroutines, the database and the network do meanwhile is an argument: between any two actions of a poll or a notification handler, workers may receive, others may enqueue, and anybody may write any row. `Service.PerformClaim` and `Service.PerformWorkflow` tie the sequential code to the protocol's steps.

## Where the code differs from what is expected of it

- The architecture notes say that the listener falls back to polling. With a queue of capacity 0 or 1 a poll is always skipped, because the 75% mark rounds down to 0; an event whose notification is lost then stays pending for ever (`NeverStuckExactly`).
- The architecture notes say that row locks keep two instances from processing the same event. They do so only while copies are younger than the stall timeout; the status and attempts writes have no guard (`SlowWorkersDeliverOften`, `StaleWritesRepeatDeliveries`). Exclusive ownership holds exactly in timely runs (`ExclusiveOwnership`).
- A claim by notification does not look at `next_attempt_at`, so a second notification claims a retry early (`EarlyClaimRun`); this cannot happen exactly when there are no retries or no delay (`NoEarlyClaimExactly`). Retry times still do not go backwards (`RetryTimesInOrder`).
- Rows without a retry time sort first, so a webhook that keeps storing events keeps its own retries out of every poll (`RetryStarves`). When the number of ready webhooks divides the limit, a poll takes a retry of a webhook exactly when the webhook has fewer new rows than the quota (`RetriesTakenExactly`).
- `Shutdown` of a pool does not stop its controller, which starts workers again exactly when waiting events press (`TickAfterShutdown`).
- A fetch that began before a configuration change can store the old value after the invalidation (`StraddlingFetchRevivesOldValue`). An invalidation takes effect exactly when no fetch that can still be stored straddles it (`InvalidationTakesEffectExactly`).
- The service builds two caches. The listener invalidates only the one that checks incoming events (`internal/server/server.go:40-43`); the one that gives the workers their addresses (`internal/service/webhook.go:25`) is never invalidated. So a delivery may use an address that was replaced a time d ago, whatever is notified, exactly for d < ttl + delta (`OldValueExactly`).
- `GetPostURL` gives up its read lock twice exactly for a fresh entry with an empty address.
- The outer `SELECT id` of the polling query is ambiguous in SQL as written; the model takes it as the ID of the event row.

## Model

| member | source | states |
|---|---|---|
| `DeliveryProtocol.ExclusiveOwnership` | internal/repository/webhook.go:283-353 | over every run from the start, a processing row has at most one live copy, held by the instance and counted by the attempts in the row, and other rows have none, if and only if no sweep meets a copy older than the timeout |
| `DeliveryProtocol.StepExclusive` | internal/repository/webhook.go:283-303 | from a state in step, the only steps that break exclusive ownership are untimely sweeps, and all of those do |
| `DeliveryProtocol.RunFollows` | internal/service/webhook.go:45-97 | ownership, delivery budget and retry order hold in every state of a timely run |
| `DeliveryProtocol.AttemptAccounting` | internal/repository/webhook.go:220-231 | in timely runs the attempts in the row are its claims, and these are processed, released, lost or the one live copy |
| `DeliveryProtocol.AttemptsWriteIsIdempotent` | internal/repository/webhook.go:104-116 | in timely runs the separate write of the attempts never changes the stored number |
| `DeliveryProtocol.DeliveryBoundInRuns` | internal/service/webhook.go:56-97 | in timely runs at most max(1, MaxRetries) deliveries and one successful one, plus one for each lost copy, however many releases there are |
| `Incidents.CrashesRepeatDeliveries` | internal/service/webhook.go:56-97 | for every n a timely run with n crashes that reaches that bound: max(1, MaxRetries) + n deliveries |
| `Incidents.CrashesRepeatSuccesses` | internal/service/webhook.go:64-72 | for every n a timely run with n crashes and n + 1 successful deliveries |
| `Incidents.ReleasesInflateAttempts` | internal/repository/webhook.go:173-190 | for every n a timely run in which n releases leave the event pending with n attempts and no delivery |
| `Incidents.CrashLosesCopies` | internal/service/event_queue_manager.go:203-215 | a crash leaves no copy of its instance alive, nothing in its queue and no poll under way, and touches nothing else; only the sweep finds such rows again |
| `Incidents.ReleaseHasReason` | internal/service/event_queue_manager.go:160-166 | in every run a released copy was polled and met a full queue, or was notified and held for at least half a second |
| `Incidents.HeldChoices` | internal/service/event_queue_listener.go:205-218 | a held copy can enter the queue if and only if there is room, and be given back by a poller if and only if there is none, by a listener if and only if half a second has passed |
| `Incidents.LossExactly` | internal/service/worker_pool.go:104-116 | any copy can be lost alone, by a panic or a failed write, except one in the queue |
| `Incidents.StartPollExactly` | internal/service/event_queue_manager.go:121-125 | a poll goes on if and only if one more entry leaves the queue at most 75% full |
| `Incidents.PollsHaveLooked` | internal/service/event_queue_manager.go:119-136 | in every run each poll that claims has looked at its queue before |
| `Incidents.WriteIsNoticed` | internal/service/sql/event_triggers.sql:4-41 | a release, retry, sweep or write of the attempts that leaves a row pending and due sends a notification |
| `Incidents.BackToPendingIsNoticed` | internal/service/sql/event_triggers.sql:4-41 | an event that comes back to pending and is due can be notified about, even if every earlier notification was lost |
| `Incidents.NoticeHasReason` | internal/service/sql/event_triggers.sql:4-41 | a notification only comes up for a row that was just written and is pending and due, or that the retry check has found |
| `Incidents.RetryCheckFinds` | internal/service/sql/event_triggers.sql:49-100 | in every run a retry check finds min(50, n) of the n pending events whose retry time has come |
| `CopyLifecycle.CopyMovesOn` | internal/service/webhook.go:45-97 | a step moves a copy on from claim over queue and worker to its end, in this order, and only a copy with a worker is delivered |
| `DeliveryProtocol.SuccessBoundInRuns` | internal/repository/webhook.go:283-303 | in all runs at most one successful delivery, plus one for each lost copy and each sweep that overtook a copy |
| `DeliveryProtocol.DeliveryBoundInAllRuns` | internal/repository/webhook.go:104-116 | in all runs, although stale writes can lower the attempts, at most 2^(MaxRetries-1) deliveries, plus one for each lost copy and each sweep that overtook a copy |
| `CopyLifecycle.StepDeliveriesCovered` | internal/service/webhook.go:45-97 | one step, stale or not, keeps deliveries, the chances that are left and the retries that are left within that bound |
| `CopyLifecycle.StepSuccessesCovered` | internal/service/webhook.go:66-72 | one step, stale or not, keeps successes, unsettled copies and a row that can be claimed again within that bound |
| `DeliveryProtocol.OnlyForward` | internal/repository/webhook.go:250-263 | between any two states of a timely run attempts do not drop, a retry time is not unset or moved back, and a terminal row does not change |
| `DeliveryProtocol.RetryTimesInOrder` | internal/service/webhook.go:81-91 | all retry times ever set for an event in a timely run are nondecreasing and their attempt numbers strictly rise, whatever the jitter |
| `DeliveryProtocol.EveryRun` | internal/service/webhook.go:57-79 | in all runs, stale copies included: claims are conserved, a success row was delivered successfully, and a queue holds exactly its queued copies, each once, within its capacity |
| `DeliveryProtocol.RetryFilterIsRedundant` | internal/service/sql/event_triggers.sql:50-58 | in all runs pending rows have no owner and processing rows have one, so the owner and age filter of the retry check excludes nothing |
| `DeliveryProtocol.PollTakesBatch` | internal/repository/webhook.go:194-231 | a poll takes exactly its batch out of the ready rows |
| `DeliveryProtocol.PollsDrainReady` | internal/service/event_queue_manager.go:119-169 | with nothing but polls happening, ceil(R / q) of them, of any instances, empty R ready rows |
| `DeliveryProtocol.StepQueuesMatch` | internal/service/event_queue_manager.go:154-169 | every step keeps the queues and the queued copies in one-to-one correspondence within the capacity |
| `Ownership.StepOwned` | internal/repository/webhook.go:173-190 | one step on one event keeps row and copy together, unless it is a sweep that meets a stale copy |
| `Ownership.StepWithinBudget` | internal/service/webhook.go:74-97 | one step keeps the count of deliveries within retries, losses, a terminal status and the copy at hand |
| `Ownership.StepRetriesInOrder` | internal/service/webhook.go:85-91 | one step keeps the retries ordered and the stored retry time equal to that of the last one |
| `CopyLifecycle.StepSane` | internal/service/webhook.go:45-97 | one step, stale or not, conserves claims and keeps the owner columns and the success record right |
| `Progress.Finish` | internal/service/webhook.go:74-96 | from any state of any run, whatever the outcomes of the deliveries, fault-free steps settle a non-terminal event after at most max(1, MaxRetries) deliveries, or max(1, MaxRetries - attempts) in a timely run, plus one if a live copy is finished first |
| `Progress.LeadsIsFaultless` | internal/service/webhook.go:56-97 | such a schedule loses and releases nothing, and its deliveries and retries have just the outcomes and draws that the outside world decides |
| `Progress.Round` | internal/service/webhook.go:56-91 | a pending event can be claimed and delivered once, and is then settled or one attempt further |
| `Progress.ClaimByNotice` | internal/service/sql/event_triggers.sql:49-95 | an event with a retry time is found by the retry check once it is due, and claimed by the notified instance |
| `Progress.ClaimByPolls` | internal/service/event_queue_manager.go:119-169 | an event nobody is notified of is claimed by repeated polls, whose batches are handed to the workers |
| `Progress.Recover` | internal/repository/webhook.go:283-303 | a processing row without a copy is returned to pending by the sweep once the timeout has passed |
| `Progress.NeverStuckExactly` | internal/service/event_queue_manager.go:119-146 | every event of every run, timely or not, can still be settled if and only if the queue capacity is at least 2 and the poll limit at least 1 |
| `Progress.ForgottenStays` | internal/service/event_queue_manager.go:121-125 | otherwise no step at all touches the row of a pending event without a retry time and without a copy whose notification was lost |
| `StaleCopies.SlowWorkersDeliverOften` | internal/service/event_queue_manager.go:203-215 | for every n a run without losses in which n - 1 sweeps overtake a copy and the event is delivered successfully n times, so that bound is reached |
| `StaleCopies.StaleWritesRepeatDeliveries` | internal/service/webhook.go:81-91 | for every configuration a run without losses that reaches the bound on deliveries: workers that a sweep has overtaken put the attempts back and reopen the row |
| `RetryTiming.ClaimsEarlyExactly` | internal/repository/webhook.go:311-333 | a step claims an event before its retry time if and only if it handles a notification of a pending event that is not due; a poll never does |
| `RetryTiming.EarlyClaimRun` | internal/repository/webhook.go:311-335 | a timely run in which a retry is claimed before its time, wherever a delay is possible |
| `RetryTiming.NoEarlyClaimExactly` | internal/service/webhook.go:74-91 | for initial delays that are not negative, no timely run has an early claim if and only if MaxRetries < 2 or a delay setting is not positive; then no run at all has one |
| `RetryTiming.RetryPassedOver` | internal/repository/webhook.go:143-158 | as long as each poll of a run finds a quota of new rows of the webhook and no notification comes, a waiting retry stays exactly as it is |
| `RetryTiming.RetryStarves` | internal/repository/webhook.go:143-160 | for every n the service reaches a state from which, without any fault or lock, n polls in a row find a quota of new rows and miss a retry that is due |
| `Backoff.DelayBounds` | internal/service/webhook.go:99-116 | the delay lies between min(max, initial * 2^(n-1)) and min(max, 1.3 * initial * 2^(n-1)) |
| `Backoff.DelayExactly` | internal/service/webhook.go:99-116 | the delay is initial * 2^(n-1) * (1 + 0.3 * draw) without its fraction, or the maximum when that is not larger |
| `Backoff.JitterReachesExactly` | internal/service/webhook.go:104-116 | a delay is possible if and only if it is the cap of a whole number from the base to less than 30% above it |
| `Backoff.DelayMonotone` | internal/service/webhook.go:99-116 | a later attempt never waits less than an earlier one, for every pair of draws |
| `Backoff.DelayMonotoneExactly` | internal/service/webhook.go:108-113 | for delays that are not negative, this holds for all draws if and only if the largest jittered delay fits 64 bits |
| `Ownership.TotalDelayBound` | internal/service/webhook.go:74-81 | retries with rising attempt numbers up to n, with any gaps between them, wait at most 1.3 * initial * (2^n - 1) in total |
| `DeliveryProtocol.TotalDelayInRuns` | internal/service/webhook.go:74-91 | all the delays of an event in a timely run, however many numbers releases and losses skip, sum to at most 1.3 * initial * (2^(MaxRetries-1) - 1) and at most (MaxRetries - 1) * max |
| `FairSelection.QueryIsBatch` | internal/repository/webhook.go:135-161 | sorting, numbering, filtering, skipping locked rows and cutting gives an answer that the query allows, for rows in any physical order |
| `FairSelection.BatchMembership` | internal/repository/webhook.go:147-161 | with distinct keys, a row is in the batch if and only if it is unlocked, fewer than q rows of its webhook precede it, and fewer than limit such rows precede it overall |
| `FairSelection.BatchRows` | internal/repository/webhook.go:151-161 | a batch is sorted, has no repetition, only ready unlocked rows, and at most limit of them |
| `FairSelection.EarlierRowIsTaken` | internal/repository/webhook.go:149-153 | with distinct keys and no locks, every ready row of a webhook with an earlier retry time, or none, or the same and an earlier creation, is in the batch if a later one is |
| `FairSelection.BatchInColumnOrder` | internal/repository/webhook.go:159 | the batch has rows without a retry time first, then earlier retry times first, and equal ones by creation |
| `FairSelection.BatchIsEarliest` | internal/repository/webhook.go:158-160 | a row left behind although its webhook has not used up its quota comes, by these columns, before no row of the batch |
| `FairSelection.AtMostQuota` | internal/repository/webhook.go:143-158 | whatever is locked, no webhook gets more than q = max(1, ceil(limit / N)) rows |
| `FairSelection.FairShare` | internal/repository/webhook.go:137-161 | a webhook with r ready rows gets at least min(q, r) - (N - 1), and exactly min(limit / N, r) when N divides the limit |
| `FairSelection.BatchSize` | internal/repository/webhook.go:158-160 | the batch has min(limit, sum of min(q, r)) rows, the limit cuts at most N - 1 of the sum, and the batch is full when every webhook has q rows |
| `FairSelection.BatchAtLeast` | internal/repository/webhook.go:135-169 | a batch takes at least min(R, q) of R ready rows |
| `FairSelection.Draining` | internal/repository/webhook.go:135-169 | ceil(R / q) successive batches leave no ready row, with the quota q of the first |
| `FairSelection.PrefixPerWebhook` | internal/repository/webhook.go:148-153 | with distinct keys, the part of a webhook is a prefix of its own order |
| `FairSelection.RetriesWaitForNewRows` | internal/repository/webhook.go:149-150 | when a webhook has q ready rows without a retry time, the poll takes none of its retries, whatever is locked |
| `FairSelection.RetriesTakenExactly` | internal/repository/webhook.go:143-158 | when N divides the limit, a poll without locks takes a retry of a webhook that has one if and only if the webhook has fewer than q ready rows without a retry time |
| `FairSelection.FirstRetryTakenExactly` | internal/repository/webhook.go:147-161 | for any limit, with distinct keys: if and only if it also has fewer than limit candidates before its first retry |
| `FairSelection.FirstIsChosen` | internal/repository/webhook.go:159-160 | the ready row that is first of all is the first of the batch |
| `Repository.WebhookRepository.StoreEvent` | internal/repository/webhook.go:75-102 | adds a pending row under a new ID |
| `Repository.WebhookRepository.UpdateEventAttempts` | internal/repository/webhook.go:104-116 | writes attempts and last attempt time of that row, whatever its status |
| `Repository.WebhookRepository.UpdateEventStatus` | internal/repository/webhook.go:444-456 | writes the status of that row, whatever it was |
| `Repository.WebhookRepository.ReleaseEvent` | internal/repository/webhook.go:173-190 | returns that row to pending without an owner and keeps its attempts |
| `Repository.WebhookRepository.UpdateRetrySchedule` | internal/repository/webhook.go:250-280 | returns the row to pending with its retry time, or fails when there is no such row |
| `Repository.WebhookRepository.UpdateStalledEventsToPending` | internal/repository/webhook.go:283-303 | returns exactly the stalled rows to pending, counts them, and leaves no stalled row |
| `Repository.WebhookRepository.GetAndMarkEventByID` | internal/repository/webhook.go:305-353 | claims the row if and only if it is pending and not locked, counts an attempt in it, and returns its content with the number of attempts from before |
| `Repository.WebhookRepository.MarkEventsProcessing` | internal/repository/webhook.go:220-231 | claims exactly the rows with these IDs |
| `Repository.WebhookRepository.PrepareEventsFromRows` | internal/repository/webhook.go:233-248 | the copies and the IDs of the selected rows, in their order, with the attempts that the rows count |
| `Repository.WebhookRepository.GetAndMarkEventsForProcessing` | internal/repository/webhook.go:194-218 | the returned copies are a fair batch of the ready rows, exactly their rows are claimed, and each copy carries one attempt less than its row then counts |
| `Repository.WebhookRepository.CheckRetryEvents` | internal/service/sql/event_triggers.sql:49-100 | notifies about min(50, n) distinct rows of the n that are due, and counts them |
| `Service.EventQueueManager.PollEvents` | internal/service/event_queue_manager.go:119-169 | a poll is skipped at 75% fill; else it claims a fair batch of what the table holds at that moment, every claimed row that nobody else writes ends once in the queue, in pending or in processing without a copy, the queue receives that part in batch order within capacity, and no other row changes, whatever others do to the queue and to other rows |
| `Service.EventQueueManager.EnqueueOrRelease` | internal/service/event_queue_manager.go:155-168 | the loop over the batch, with receivers, other producers and other writers between its turns: what is queued, what is released, what a stop leaves; undisturbed, the first events that fit are the ones enqueued |
| `Service.EventQueueManager.Offer` | internal/service/event_queue_manager.go:160-166 | one event is enqueued if there is room at once, else released |
| `Service.EventQueueManager.Elapse` | internal/service/event_queue_manager.go:156-168 | what others do keeps the queue within capacity and in order, and touches no row they do not write |
| `Service.EventQueueManager.HandleNotification` | internal/service/event_queue_listener.go:187-218 | unless the claim fails, claims the row if pending and not locked; the copy is queued whenever there is room at once, and the row is only returned when the queue is full after the wait, or has no capacity and no worker waits; every other case changes nothing |
| `Service.EventQueueManager.ScheduleRetry` | internal/service/event_queue_manager.go:193-201 | writes the retry or reports failure and changes nothing |
| `Service.EventQueueManager.CleanupStalledEvents` | internal/service/event_queue_manager.go:203-215 | exactly the rows that have been processing for more than three minutes are pending again |
| `Service.OneMoreRow` | internal/service/event_queue_manager.go:163-165 | one more turn of the loop: a row is released if its event has that fate, and otherwise left alone |
| `Service.PerformClaim` | internal/service/event_queue_manager.go:142-168 | a claim followed by queueing, release or neither is what the protocol steps do to the row and its copies |
| `Service.PerformWorkflow` | internal/service/webhook.go:45-97 | the writes of one processing are those of the protocol steps for its copy, on every path, whichever of the writes fail |
| `Service.WebhookService.ProcessEvent` | internal/service/webhook.go:45-97 | the row afterwards on every path, whichever of the writes fail, and which deliveries and how much time the pool counts |
| `Service.WebhookService.ClaimThenProcess` | internal/service/webhook.go:56-97 | a claim and the processing of its copy whose writes are stored: after a failure on a row with a attempts the row is failed if and only if a + 1 >= MaxRetries, and else pending with a retry time |
| `WorkerPools.TickBounds` | internal/service/worker_pool.go:210-249 | a tick keeps the number of workers within its bounds, never ends with fewer while events wait, and adds none while none wait |
| `WorkerPools.TickExactly` | internal/service/worker_pool.go:210-249 | how many workers a tick ends with, at any rate and fill: three more (as far as they fit) when the queue is more than 80% full or needs more than 30 seconds, one more when it is more than half full or needs more than five, none otherwise, after one is given up below 0.1 events per second, or half of the extra ones without any activity |
| `WorkerPools.TickMonotone` | internal/service/worker_pool.go:228-249 | with the rest fixed, more waiting events never lead to fewer workers |
| `WorkerPools.WorkerPool.RateNotNegative` | internal/service/worker_pool.go:187-198 | the rate is what was processed since the last check per second, and not negative |
| `WorkerPools.IdleTickOnExtra` | internal/service/worker_pool.go:211-225 | an idle tick keeps the minimum and half of the workers above it, rounded up, but not a single one |
| `WorkerPools.IdleConvergence` | internal/service/worker_pool.go:211-225 | t idle ticks take e extra workers away if and only if e <= 2^(t-1) (or e = 0) |
| `WorkerPools.WorkerPool.ManageWhileIdle` | internal/service/worker_pool.go:161-171 | after t idle ticks of the controller the pool has its minimum of workers if and only if it had at most 2^(t-1) more |
| `WorkerPools.TickAfterShutdownRestarts` | internal/service/worker_pool.go:228-249 | with no worker left, a tick starts some if and only if the waiting events need more than five seconds or fill more than half of the queue, at any rate |
| `WorkerPools.WorkerPool.TickAfterShutdown` | internal/service/worker_pool.go:161-171 | a shutdown followed by a tick leaves workers running exactly then |
| `WorkerPools.WorkerPool.constructor` | internal/service/worker_pool.go:49-78 | clamps the bounds and starts the minimum number of workers |
| `WorkerPools.WorkerPool.AddWorker` | internal/service/worker_pool.go:80-101 | adds a worker with a fresh number unless the pool is full |
| `WorkerPools.WorkerPool.OldestWorker` | internal/service/worker_pool.go:142-150 | finds a worker created no later than any other, in any visiting order |
| `WorkerPools.WorkerPool.RemoveWorker` | internal/service/worker_pool.go:133-159 | stops an oldest worker and closes its channel for the first time, unless only the minimum is left |
| `WorkerPools.WorkerPool.WorkerPanics` | internal/service/worker_pool.go:104-113 | the registry stays consistent after a panic if and only if the worker was still registered |
| `WorkerPools.WorkerPool.Shutdown` | internal/service/worker_pool.go:276-289 | stops every worker, closing each channel exactly once |
| `WorkerPools.WorkerPool.RecordSuccess` | internal/service/worker_pool.go:291-296 | counts a success and keeps the total equal to successes plus failures |
| `WorkerPools.WorkerPool.RecordFailure` | internal/service/worker_pool.go:298-303 | counts a failure and keeps the total equal to successes plus failures |
| `WorkerPools.WorkerPool.AdjustWorkerCount` | internal/service/worker_pool.go:173-252 | ends with exactly that number of workers; no request is refused; bounds and waiting events as above |
| `EventsEncoding.RoundTripExactly` | internal/repository/webhook.go:51-70 | joining and splitting returns the list if and only if no name has a comma and it is not the list of one empty name |
| `EventsEncoding.MembershipExactly` | internal/repository/webhook.go:51-70 | the decoded list has the same members as the stored one exactly for those lists |
| `ConfigCache.FetchAgreesExactly` | internal/service/webhook_config_cache.go:81-101 | a lookup that fetches answers like the `= ANY(events)` check of the database for all names exactly for those lists, and finds the address of the row |
| `ConfigCache.WebhookConfigCache.ValidateWebhook` | internal/service/webhook_config_cache.go:64-102 | answers without change from an entry whose expiry is still to come, else from the fetch, which is stored with a new expiry if it found a row |
| `ConfigCache.WebhookConfigCache.Lists` | internal/service/webhook_config_cache.go:68-73 | the search finds a name exactly when it is listed |
| `ConfigCache.WebhookConfigCache.GetPostURL` | internal/service/webhook_config_cache.go:104-128 | the address from an entry whose expiry is still to come, or from the fetch; the read lock is misused exactly for such an entry with an empty address |
| `ConfigCache.WebhookConfigCache.StoreThenLookup` | internal/service/webhook_config_cache.go:104-128 | an address stored at t is used until t + ttl and fetched again from then on |
| `ConfigCache.WebhookConfigCache.RefreshConfig` | internal/service/webhook_config_cache.go:130-143 | replaces the entry, or leaves it when the fetch fails |
| `ConfigCache.WebhookConfigCache.RefreshAllConfigs` | internal/service/webhook_config_cache.go:145-166 | refreshes each entry once, keeps those whose fetch fails, and counts exactly both |
| `ConfigCache.WebhookConfigCache.InvalidateCache` | internal/service/webhook_config_cache.go:168-175 | removes the entry from both maps |
| `ConfigCache.WebhookConfigCache.HandleNotification` | internal/service/webhook_config_listener.go:175-187 | after a readable notification no entry of that webhook is fresh, and every other entry is as before |
| `ConfigStaleness.BoundedStaleness` | internal/service/webhook_config_cache.go:64-128 | under every interleaving a value served at t was the database's at some time after t - ttl - delta, when fetch and store are at most delta apart |
| `ConfigStaleness.InvalidationTakesEffect` | internal/service/webhook_config_cache.go:168-175 | after an invalidation that no fetch which can still be stored straddles, only values are served that the database held then or later |
| `ConfigStaleness.InvalidationTakesEffectExactly` | internal/service/webhook_config_cache.go:81-101 | no continuation serves a value fetched before the invalidation if and only if there is no such fetch |
| `ConfigStaleness.StraddlingFetchRevivesOldValue` | internal/service/webhook_config_cache.go:81-101 | a run in which a fetch straddles the invalidation that follows a change, and the value from before the change is served later, when the database no longer holds it |
| `ConfigStaleness.OldValueFor` | internal/service/webhook_config_cache.go:104-128 | for every d below ttl + delta a run in which an address is served that was replaced d ago |
| `ConfigStaleness.OldValueExactly` | internal/service/webhook.go:24-34 | in the cache of the workers, which nobody invalidates, a value that the database has not held for the last d can be served if and only if d < ttl + delta |
| `CacheRefinement.LookupAddress` | internal/service/webhook_config_cache.go:104-128 | an address lookup answers what the state machine serves, and else takes its steps of a fetch and a store |
| `CacheRefinement.LookupEvent` | internal/service/webhook_config_cache.go:64-102 | so does the check of an event name |
| `CacheRefinement.Refresh` | internal/service/webhook_config_cache.go:130-143 | a refresh takes those steps, or changes nothing when the fetch fails |
| `CacheRefinement.Notify` | internal/service/webhook_config_listener.go:175-187 | a change notification takes the step that invalidates |

## Left out

- The HTTP server and routes, the HTTP client and its mock, and the request buffer: input and output; a delivery is an arbitrary outcome.
- The database connection, LISTEN and reconnect loops, heartbeats, migrations and pool sizing: notifications are a set of events from which entries may vanish and which handling does not use up.
- Read Committed rechecking between the snapshot and the row locks of the poll, and a commit that succeeds although it reports an error: statements are atomic.
- Webhook IDs that are NULL in the table: the service always stores one.
- Which worker holds a copy and how many workers there are, in the protocol; the pool has its own model.
- Rounding of floating point, and the result of an out-of-range conversion, which is an arbitrary integer in the model.
- JSON, `Validate` methods, environment configuration, logging, metrics queries, `delivery_attempts` rows, the benchmark and the mock server.
- Locks as such: methods that hold the lock of a pool or a cache are atomic; `ConfigStaleness` splits fetch and store, and the tick of the pool is modelled without panics in its middle.
- `Service.EventQueueManager.Elapse`: what others do meanwhile does not add rows to the table, because a new row concerns neither a claimed batch nor the queue.
- `Progress.Finish`: the schedule sweeps no live copy of its own event, but it may wait so long that its sweep overtakes copies of other events.
- `RetryTiming.NoEarlyClaimExactly`: initial delays are not negative, because the configuration means them as durations.
- `DeliveryProtocol.DeliveryBoundInRuns`: counts a lost copy whether or not it had been delivered, because a status write that fails after a delivery is such a loss.
