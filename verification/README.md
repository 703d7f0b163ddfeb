# Verification of the task service's protocols

A Dafny model of the parts of the task service whose correctness spans many steps, and proofs about it:

* the **job queue**: a `jobs` row moving between states under claims, heartbeats, completion writes, releases,
  crashes and the leader's sweeps (`JobTable`, `JobLaws`, `JobProtocol`, `JobRunLaws`, `JobAccounting`, `JobBudget`,
  `JobFencing`, `LeaseTiming`, `RetryTiming`, `Draining`; the objects in `JobStore` and `WorkerPool`, tied to the protocol in
  `QueueRefinement`);
* the **idempotent write**: a key row, the task change, its outbox job and the stored response in one
  transaction, over any interleaving of requests (`IdempotentWrites`, `IdempotencyProofs`, `IdempotencySerial`,
  `KeyRetention`, `OutboxEvents`, `OutboxDedup`, `Wakeups`, `KeyLifecycle`, `Tasks`, `TaskEvents`; the objects in `PgStore`, and the in-memory twin in
  `MemoryKeys`);
* **keyset pagination** over tasks that change between pages (`Uuids`, `ListOrder`, `MemRepo`, `PageWalk`);
* the **rate limiter**, whose sweep must not be noticed (`RateLimit`);
* the **log throttle** and its accounts (`LogThrottle`);
* the request **fingerprint** (`Fingerprint`, `Decimal`) and the retry **backoff** (`Backoff`).

`Options`, `FiniteSets` and `Counting` hold what they share. `dafny verify dfyconfig.toml` checks everything.

## How it is built

Each SQL statement is a function on one row and on the whole table (`JobTable`). The system is a total step
function `Next` on a state, and a run is any sequence of events from the empty state, so every interleaving is a
run; an event whose guard fails changes nothing, as a statement that matches no row changes nothing. Nothing the
statements do not read influences a step: claim epochs, the histories of snoozes and releases and the log of commits
only record.

The objects the service updates in place are classes. `QueueRefinement` ties the queue's objects to the protocol: a
fleet of `WorkerPool.Pool` objects over one `JobStore.Store` is coupled to a run, every call of a pool, of the
producer or of the leader extends that run by the events its contract names, and pools join and die. So what is
proved of all runs is proved of the table and the pools, however their calls interleave; each call also keeps the
drain deadlines harmless, so a recorded outcome is always one of the current claim. The methods of `PgStore` are actions of
`IdempotentWrites`, and the other classes' methods are proved against the functions the theorems are about.

A function that a theorem and a method have in common is also pinned in plain values, apart from how it is computed:
`JobLaws` says field by field what each statement does to a row and to the table, `Tasks.WriteDoes` what a write does,
and likewise for keys, events, quotas, pages, framings and waits. The methods' contracts contain these laws, and
`JobRunLaws`, `KeyRetention`, `OutboxDedup`, `Tasks.LastWrite` and `RateLimit.LevelIsTokens` carry them to all runs.

What the theorems assume are predicates on a run, given by its events alone: `Prompt`, `TrackedByTick`, `Unshared`,
`Orderly`, `SameFleet`, `FreshIds`, `Punctual` and `Nondecreasing` say what timing, configuration or randomness has to
provide. Everything else is proved for all runs.

## What the proofs found

Where the code and its comments disagree, the model follows the code; each time the exact condition is proved.

* **Fencing.** In every run, a completion write matches its row only from the current claim, unless the attempt
  of the writer's claim was given back by a snooze or a release (`StaleIffGivenBack`). The drain deadline of a pool
  fences its handlers, in every continuation, exactly when it finds no claim statement of that pool in flight, or
  nothing tracked running (`DeadlineFencesIff`); so if a pool's deadlines are like that, none of its writes is ever
  stale, whatever other pools do (`Fenced`). The pool checks its draining channel before it sends the claim
  (internal/queue/pool.go:192-200), so the bad moment exists (`OvertakenIsNotFenced`): the worker takes the job it has
  just given back, under the same attempt number, and the old handler's write matches (`OvertakenIsStale`).
* **After Stop.** Stop waits for what is tracked. A handler can still start afterwards, unless at that moment no
  claim statement is in flight and nothing claimed waits to be handed over (`NoHandlerAfterStopIff`).
* **A live worker can lose leases.** Jobs of a batch are tracked one at a time, each when its turn comes
  (internal/queue/pool.go:216-231). Those behind it hold a lease that no heartbeat extends (`UntrackedIsReclaimed`),
  and on cancellation only the waiting one is handed back (`ClaimBatch`). A job that a worker holds, waiting or
  running, survives every continuation in which the worker is prompt exactly when it is tracked and its lease reaches
  the last moment at which the next beat that covers it may land (`SurvivesIff`).
* **Three intervals are not always enough.** A tracked job is safe from the reaper exactly when the lease has room
  for three intervals and the delay with which a beat may land (`KeepsIffRoom`). Validation demands room for three
  intervals only, and the defaults, 10 and 30 seconds, leave none for a delay.
* **Discarded but never finalized.** The reaper decides the state by the lower of two ceilings and `finalized_at`
  by the row's own (internal/queue/maintenance.go:27-31). When the fleet's ceiling is lower, a reaped row is
  `discarded` without `finalized_at`, and no purge ever deletes it (`FinalizedIffCeilingSlack`,
  `UnfinalizedForever`).
* **Wake-ups are not always sent in commit order.** They are exactly in the runs in which no owner sends one after
  one of a later commit (`InCommitOrderIff`), and nothing prevents that: whenever two commits owe a wake-up, the later
  one's can go first (`LaterFirst`, `TwoOutOfOrder`). What does hold always is the order within a commit
  (`InOrderAfterCommit`), and that every committed write's wake-up is sent, lost or still owed, once
  (`WakeupsConserved`).
* **409 is never sent by the durable store.** A second request waits for the key row; it never sees a row in
  progress (`RetriesAreAnswered`). The in-memory store does answer it.
* **A late in-memory unit finishes somebody else's reservation.** An open unit is sure of its own exactly until it
  expires (`SureIffOnTime`); every later one completes or frees the next reservation of its key
  (`LateUnitTouchesAnother`).
* **The sweep of idle buckets is equivalent to forgetting nothing** if and only if the TTL covers every tier's
  refill (`SweepIsInvisibleIffTTLCovers`), which configuration validation does not demand.
* **A task at the zero time with the zero id** ends a page walk: walks are complete exactly when nothing sorts
  behind such a task (`CompleteIffZeroIsLast`). The service cannot create one, for it draws random ids and uses the
  current time; only a caller of the repository can.
* **At most one line per window** holds between resets of the suppression map: a record is emitted again within the
  window exactly when the map was reset since (`EmittedAgainIffReset`). 513 different warnings within a window reset
  it, at whatever moments they come (`FloodBreaksTheWindow`).
* **Only one prefix is removed** by the canonical path, so a path with two is not canonical after one rewriting, and
  only such a path (`CanonicalOnceIff`).

## Model

| member | source | states |
|---|---|---|
| `JobProtocol.RowMoved` | internal/queue/store.go:38-241 | whatever happens, a row that is not deleted is either untouched or moved by exactly one of the statements, under that statement's guard and from a pool entitled to issue it |
| `JobAccounting.RunAccounted` | internal/queue/store.go:144-241 | in every reachable state the lock columns are set exactly while running, finalized_at only when over; the claims recorded are the attempts plus the snoozes plus the releases; and the error history has one entry per spent attempt, the i-th recording attempt i+1 by a worker that claimed the job |
| `JobAccounting.RowStep` | internal/queue/store.go:118-241 | no event changes what was enqueued, un-spends an attempt, forgets a claim or an error, or touches a row that is over |
| `JobAccounting.GoneMeansPurged` | internal/queue/maintenance.go:50-64 | in every run a job that is over is never touched again, and a job disappears only by a purge that found it over and finalized: no live job is ever deleted |
| `JobAccounting.RunUniqueLive` | internal/outbox/outbox.go:62-69 | in every reachable state at most one live job has a given unique key |
| `JobBudget.RunWithinBudget` | internal/queue/pool.go:352-397 | with one ceiling for the fleet, every waiting job has 0 <= attempt < budget and every running one 1 <= attempt <= budget, in every reachable state |
| `JobBudget.ClaimsBounded` | internal/queue/pool.go:372-377 | a job is claimed at most budget times, plus once per snooze and once per release |
| `JobBudget.FinalizedUnlessCeilingBinds` | internal/queue/maintenance.go:27-31 | a row is over without finalized_at only if the fleet ceiling is below its max_attempts |
| `JobBudget.UnfinalizedForever` | internal/queue/maintenance.go:56-64 | such a row stays exactly as it is in every continuation: no purge reaches it |
| `JobBudget.FinalizedIffCeilingSlack` | internal/queue/maintenance.go:27-31 | "over implies finalized_at" holds in all runs exactly when the fleet ceiling is not below the row's max_attempts |
| `JobBudget.CrashLoopRuns` | internal/queue/maintenance.go:25-48 | for any ceilings there is a run of crashing workers in which job 1 fails with each of them, is discarded at the lower ceiling, and is finalized only at its own |
| `JobFencing.RunClaimsTracked` | internal/queue/store.go:118-126 | in every run, a claim in memory is current and agrees with its row, or its job is over, or its attempt is spent, or it was given back |
| `JobFencing.StaleIffGivenBack` | internal/queue/store.go:118-126 | in every run, a completion write that matches comes from the current claim if and only if the attempt of the writer's claim was not given back |
| `JobFencing.Fenced` | internal/queue/store.go:118-126 | in every run where the drain deadlines of the writer's own pool are harmless, a completion write matches only the row of the claim it was made under |
| `JobFencing.DeadlineFencesIff` | internal/queue/pool.go:523-548 | the release at a drain deadline fences the pool's handlers in every continuation, exactly when no claim statement of the pool is in flight or nothing tracked is running |
| `JobFencing.OvertakenIsStale` | internal/queue/pool.go:191-200 | otherwise, from any such state, the pool takes the job again under the same attempt and the old handler's write matches |
| `JobFencing.OvertakenIsNotFenced` | internal/queue/pool.go:191-200 | there is a run that gets to such a moment |
| `LeaseTiming.LeaseSafe` | internal/config/queue.go:97-103 | with room in the lease for three intervals and the delay of a beat, and no more than two beats missed in a row, no reap at any time takes a job that is held and was tracked whenever the pool looked, waiting or running |
| `LeaseTiming.KeepsIffRoom` | internal/config/queue.go:97-103 | exactly those timings keep every tracked job of every prompt pool in every run; for any other there is a run in which one is lost |
| `LeaseTiming.RunTracked` | internal/queue/pool.go:216-231 | a job that claimBatch announced or handed over stays tracked while its claim is in memory, unless the worker finishes another claim of the same job meanwhile |
| `LeaseTiming.SurvivesIff` | internal/queue/pool.go:439-486 | a claim that holds its job keeps it in every prompt continuation exactly when the job is tracked and its lease reaches the last moment at which the next beat that covers it may land |
| `LeaseTiming.SilentIsReclaimed` | internal/queue/maintenance.go:35-36 | a job whose worker stopped is taken from it by any reap strictly after its lease, whatever the rest of the fleet does meanwhile |
| `LeaseTiming.UntrackedIsReclaimed` | internal/queue/pool.go:216-231 | a worker that meets every tick and misses no beat still loses a job it holds but does not track, if nobody else touches it |
| `RetryTiming.LeftAloneUntilDue` | internal/queue/store.go:41-42 | a waiting job is exactly as it was in every continuation that has not reached its due time |
| `RetryTiming.DelayHonoured` | internal/queue/store.go:144-212 | a retry waits out its backoff and a snooze its time, whatever the fleet does |
| `JobRunLaws.FinishResolves` | internal/queue/pool.go:353-410 | in every run a completion write that matches leaves the row succeeded for no error and scheduled for a snooze; for a failure cancelled exactly if it is terminal or not transient, otherwise discarded exactly if the attempt has reached the row's own maximum or a positive fleet ceiling, and retryable after the backoff in the rest |
| `JobRunLaws.EnqueueInserts` | internal/outbox/outbox.go:52-81 | in every run a well-formed job is inserted exactly unless its own key is not empty and a live row has that very key; the new row carries that key, or none for the empty one |
| `JobRunLaws.ReclaimedWaits` | internal/queue/maintenance.go:25-37 | a job that a sweep reclaims is discarded at the lower ceiling, and otherwise retryable at the sweep's time plus its delay, and left exactly so by every continuation that ends before that |
| `JobRunLaws.RetentionHonoured` | internal/queue/maintenance.go:56-64 | no run loses a job that is over before the retention of its own state has passed, if no purge asks for less |
| `JobRunLaws.OutlivedIsPurged` | internal/queue/maintenance.go:56-64 | a purge that reaches a row deletes it exactly if it is finalized and its state's own retention has passed |
| `Draining.NoHandlerAfterStopIff` | internal/queue/pool.go:144-200 | from a stopping pool no further handler is started in any continuation, exactly when no claim statement is in flight and nothing claimed waits to be handed over |
| `QueueRefinement.ClaimBatchRuns` | internal/queue/pool.go:191-235 | a call of `Pool.ClaimBatch` extends the run of the fleet by exactly its events, and every job it handed over is in a goroutine under a claim of its own |
| `QueueRefinement.BatchIsARun` | internal/queue/pool.go:191-235 | claim, announcements, hand-overs and hand-back, event by event: the table, the tracked jobs, the claims handed over, and a tail that nobody remembers |
| `QueueRefinement.RunJobRuns` | internal/queue/pool.go:246-350 | a call of `Pool.RunJob` extends the run by one completion, or by a dropped claim; an outcome is recorded exactly if the write got through and matched, and then the job was running under this very claim |
| `QueueRefinement.SnapshotRuns` | internal/queue/pool.go:500-515 | the first half of a heartbeat looks up what is tracked |
| `QueueRefinement.RenewRuns` | internal/queue/pool.go:464-486 | the second half, after whatever others did: one beat, delivered or missed; all handlers found are cancelled exactly if some job found is not held any more |
| `QueueRefinement.CloseDrainingRuns` | internal/queue/pool.go:144-145 | the start of a stop extends the run by that event |
| `QueueRefinement.EndDrainRuns` | internal/queue/pool.go:147-158 | its end extends it by the release, after which no write of this worker matches a job it still tracked |
| `QueueRefinement.DrainedHandlerIsRefused` | internal/queue/pool.go:531-535 | a handler that returns after the drain deadline, at whatever time and with whatever result, has its write refused |
| `QueueRefinement.EnqueueRuns` | internal/outbox/outbox.go:52-81 | an insertion extends the run by that event |
| `QueueRefinement.SweepRuns` | internal/queue/service.go:74-101 | a sweep of the leader extends it by scheduling and then reaping |
| `QueueRefinement.PurgeRuns` | internal/queue/maintenance.go:104-111 | a purge extends it by the purge of a batch of purgeable jobs, as many as it reports |
| `QueueRefinement.PoolJoins` | internal/queue/pool.go:75-101 | a pool with a new worker id joins a run at any time |
| `JobStore.SelectBatch` | internal/queue/store.go:38-46 | the chosen rows are the first `batch` claimable, unlocked ones by priority, due time and id |
| `JobStore.BatchIsUnique` | internal/queue/store.go:43-45 | that order decides the batch completely |
| `JobStore.Soonest` | internal/queue/store.go:43 | the next row comes before every other one left |
| `JobStore.ScanJobs` | internal/queue/store.go:68-83 | the claim's loop returns each chosen row once, with the attempt it has just been given |
| `JobStore.CountStates` | internal/queue/maintenance.go:81-91 | the reaper's loop counts exactly the rows that went to each state |
| `JobStore.Store.Enqueue` | internal/outbox/outbox.go:52-81 | refused, deduplicated exactly if its own non-empty key is on a live row, or inserted: claimable at once, under that key, with 5 attempts unless it asks for another number; nothing else changes |
| `JobStore.Store.Claim` | internal/queue/store.go:61-88 | claims such a batch, stamps each row with worker, time, lease and attempt, leaves all others, and hands out jobs that agree with their rows |
| `JobStore.Store.Heartbeat` | internal/queue/store.go:98-116 | renews, for a lease from now, the listed jobs running under this worker, leaves all others, and returns their number |
| `JobStore.Store.Complete` | internal/queue/store.go:126-212 | writes exactly when the claim guard holds, says whether it did, and changes nothing else |
| `JobStore.Store.Release` | internal/queue/store.go:221-240 | hands back the listed jobs running under this worker, claimable and with their attempt, leaves all others, and returns their number |
| `JobStore.Store.Reap` | internal/queue/maintenance.go:71-93 | moves exactly the lapsed rows: retryable or discarded, due after the delay, one error more, finalized at the row's own maximum only; and its two counts add up to them |
| `JobStore.Store.Purge` | internal/queue/maintenance.go:56-67 | deletes rows past the retention of their own state only: all of them, or 10000 |
| `WorkerPool.Pool.ClaimBatch` | internal/queue/pool.go:191-235 | which jobs are handed over, tracked and given back when the context is cancelled after any number of them; the rest stay held by this worker |
| `WorkerPool.Pool.Dispatch` | internal/queue/pool.go:216-231 | the loop: track, hand over, or untrack, release that one and stop |
| `WorkerPool.Pool.RunJob` | internal/queue/pool.go:246-350 | one completion write, lost exactly if the job does not run under this worker and attempt or the database is out of reach; otherwise the row ends as the result, the attempt and the ceilings say, and the outcome names that state |
| `WorkerPool.Pool.Write` | internal/queue/pool.go:353-380 | success, snooze, cancel, discard or retry: the row and the outcome for each result, and which rule wins |
| `WorkerPool.Pool.Snapshot` | internal/queue/pool.go:500-515 | all tracked jobs, and of those the ones with a handler to cancel |
| `WorkerPool.Pool.Renew` | internal/queue/pool.go:464-486 | renews what was found tracked and is held; every handler found is cancelled exactly when some job found is not held, also if it merely finished in between |
| `WorkerPool.Pool.EndDrain` | internal/queue/pool.go:147-158 | when the wait of Stop is over everything still tracked is handed back, and no completion write of this worker matches any of it; nothing happens if nothing is tracked |
| `Tasks.VersionCountsUpdates` | internal/task/memrepo/memrepo.go:94-100 | a stored task has version 1 plus the number of its accepted updates, and the creation time it was created with |
| `Tasks.VersionMonotone` | internal/task/pgrepo/pgrepo.go:71-76 | the version of a task never falls |
| `Tasks.NoLostUpdate` | internal/task/pgrepo/pgrepo.go:65-76 | of two updates expecting the same version at most one is accepted, however writes interleave |
| `Tasks.ExistsMeansCreated` | internal/task/memrepo/memrepo.go:52-57 | what is stored was created |
| `Tasks.LastWrite` | internal/task/pgrepo/pgrepo.go:66-113 | whatever was written, a task has the name, the status and the time of its last accepted create or update, and is gone after an accepted deletion |
| `Tasks.StoredIff` | internal/task/pgrepo/pgrepo.go:66-113 | a task is stored exactly if a write of it was accepted and the last accepted one was no deletion |
| `Tasks.WriteIsDecided` | internal/task/memrepo/memrepo.go:44-118 | not found, conflict or written, and every field of the written task: these rules leave one outcome and one new store |
| `TaskEvents.EventIdIdentifies` | internal/task/pgrepo/event.go:49-68 | two events have the same id exactly when they agree on what happened, to which task, at which version |
| `TaskEvents.DeletionNeedsItsName` | internal/task/pgrepo/event.go:57-61 | a deletion carries the version of the update before it, and still has another id |
| `IdempotencyProofs.AtMostOnce` | internal/idempotency/postgres.go:31-36 | between two purges of a key at most one request carrying it commits, and exactly one when the key is there |
| `IdempotencyProofs.RetriesAreAnswered` | internal/idempotency/middleware.go:133-167 | a used key is answered with the response, of status 200 to 299, of the one execution that committed, or 422 if the request differs; a request executes only if nobody holds the key and nobody has used it; nobody sees a row in progress |
| `IdempotencyProofs.FailureLeavesNothing` | internal/idempotency/middleware.go:98-129 | a request that panicked, was abandoned, answered outside 200 to 299 or could not commit changes nothing that is committed, wakes nobody, and frees its key |
| `IdempotencyProofs.RunKeys` | internal/idempotency/postgres.go:62-95 | every committed key row is completed with a status from 200 to 299, and holds the fingerprint and response of the commit that wrote it; an open transaction holds its key alone |
| `KeyRetention.EndOfRequest` | internal/idempotency/middleware.go:98-129 | a response from 200 to 299 whose commit succeeds is remembered together with the request's tasks and jobs; any other end changes nothing committed and the next request with the key executes |
| `KeyRetention.ReplayedUntilExpiry` | internal/idempotency/postgres.go:31-49 | from the reservation of a free key, through any interleaving until and after its success: until the ttl is over every retry is replayed that response, and any other request is refused |
| `KeyRetention.PurgedIffExpired` | internal/idempotency/postgres.go:43-49 | a purge takes exactly the keys whose time has passed, and these are free again |
| `IdempotencySerial.Serializable` | internal/idempotency/postgres.go:145-166 | the committed tasks are those of the committed requests run one after the other, in commit order, every write accepted at its turn |
| `Wakeups.InOrderAfterCommit` | internal/postgres/tx.go:62-90 | commit by commit, the effects that had their turn followed by those still owed are exactly the events of its writes, and those sent went out in that order |
| `Wakeups.InCommitOrderIff` | internal/idempotency/postgres.go:157-164 | across commits, workers are woken in commit order exactly in the runs in which no owner sends a wake-up after one of a later commit |
| `Wakeups.LaterFirst` | internal/idempotency/postgres.go:157-164 | whenever two commits owe a wake-up there is a continuation that is out of order |
| `Wakeups.TwoOutOfOrder` | internal/task/pgrepo/pgrepo.go:235-238 | a run of two writes that wakes the workers for the second one first |
| `Wakeups.WakeupsConserved` | internal/idempotency/postgres.go:157-164 | in every run the events of the committed writes are the wake-ups sent, lost and owed, each counted once |
| `Wakeups.WokenForCommitted` | internal/task/pgrepo/pgrepo.go:219-238 | a worker is woken only for a committed write whose job is in the outbox, and with fresh task ids never twice for one event |
| `IdempotencySerial.StageKeeps` | internal/task/pgrepo/pgrepo.go:185-233 | what a transaction has staged is what its accepted writes do to the committed tasks |
| `IdempotencySerial.CommitElsewhere` | internal/task/pgrepo/pgrepo.go:185-233 | and stays so when another transaction commits |
| `IdempotencySerial.OpsLocal` | internal/task/pgrepo/pgrepo.go:46-111 | writes depend on, and change, only the tasks they name |
| `OutboxEvents.NewEventIsNew` | internal/task/pgrepo/pgrepo.go:204-209 | the event of an accepted write differs from every event before it |
| `OutboxEvents.RunEvents` | internal/task/pgrepo/pgrepo.go:204-209 | with fresh task ids, every event enqueued or staged is behind its task, and no two describe one change |
| `OutboxEvents.OneJobPerWrite` | internal/task/pgrepo/pgrepo.go:185-241 | with fresh task ids, exactly one outbox job per committed write, in commit order, telling of the task as that write left it, or as it was before its deletion; no event id ever used twice |
| `OutboxDedup.DroppedIff` | internal/outbox/outbox.go:62-69 | the event of an accepted write is dropped exactly if a live job, or one staged by the same transaction, has its id |
| `OutboxDedup.OneLiveJobPerChange` | internal/outbox/outbox.go:62-69 | in every run, also one that uses task ids again, no two live jobs tell of the same change |
| `KeyLifecycle.StatusExists` | internal/idempotency/postgres.go:62-95 | in the durable store every key is free, in progress for one request, or completed with one response |
| `KeyLifecycle.PostgresFollows` | internal/idempotency/postgres.go:62-183 | every action moves every key along that life, and only the request that reserved it ends its progress |
| `PgStore.UnitOfWork.RunAfterCommit` | internal/postgres/tx.go:76-90 | each registered effect has one turn, in registration order, and none a second time |
| `PgStore.AfterCommit` | internal/postgres/tx.go:62-72 | an effect is registered exactly when there is an ambient unit |
| `PgStore.Unit.Complete` | internal/idempotency/postgres.go:146-166 | commits task, outbox and key at once, and runs the deferred effects afterwards, whatever others do in between; otherwise rolls everything back and runs none |
| `PgStore.OthersLeaveAlone` | internal/postgres/tx.go:74-90 | what others do between the commit and its effects does not touch what is owed |
| `PgStore.Unit.Abandon` | internal/idempotency/postgres.go:169-183 | rolls back, unless the unit is finished |
| `PgStore.ReserveKey` | internal/idempotency/postgres.go:63-95 | a free key opens a transaction that holds it; a used one returns its row and changes nothing |
| `PgStore.WriteJoined` | internal/task/pgrepo/pgrepo.go:185-233 | a joined write does to the tasks its transaction sees exactly what that write does, with every field, and registers one wake-up, for the event that tells of it; nothing is committed or notified |
| `PgStore.WriteOwn` | internal/task/pgrepo/pgrepo.go:190-241 | a write that owns its transaction commits exactly what that write does, with every field and its event, and notifies after its own commit, with others in between; it leaves nothing if it does not commit |
| `PgStore.RunHandler` | internal/idempotency/middleware.go:108 | the handler's writes join the unit one after the other, with others in between, each with the outcome of what the transaction sees then |
| `PgStore.AloneInTurn` | internal/task/pgrepo/pgrepo.go:185-233 | a request that is alone sees its writes made one after the other |
| `PgStore.Handle` | internal/idempotency/middleware.go:59-131 | the whole request with any number of writes and others acting between them: replayed, refused, executed and flushed, panicked, or 503; after a committed status from 200 to 299 the key is replayed until it expires, and after anything else nothing is committed and the key is free |
| `MemoryKeys.MemoryFollows` | internal/idempotency/memory.go:38-117 | provided no reservation expires before its unit finishes, the in-memory store keeps every key in the same life as the durable one |
| `MemoryKeys.FinishesOwnReservation` | internal/idempotency/memory.go:89-117 | under that proviso a unit finds its own, unfinished reservation under its key, and is the only one running for it |
| `MemoryKeys.SureIffOnTime` | internal/idempotency/memory.go:44-55 | an open unit is sure to find its own reservation after whatever comes next, exactly as long as it has not expired |
| `MemoryKeys.MemReplayedUntilExpiry` | internal/idempotency/memory.go:38-105 | under the same proviso a key that was reserved and completed keeps that response until its ttl is over |
| `MemoryKeys.LateUnitTouchesAnother` | internal/idempotency/memory.go:98-116 | every late unit, once its key is reserved again, completes that other request's record with its own response, or frees it |
| `MemoryKeys.MemoryStore.Reserve` | internal/idempotency/memory.go:38-56 | a record that has not expired is returned; otherwise the key is reserved anew, for its ttl from now |
| `MemoryKeys.MemoryStore.Purge` | internal/idempotency/memory.go:59-71 | deletes exactly the expired records, and counts them |
| `MemoryKeys.MemUnit.Complete` | internal/idempotency/memory.go:89-105 | once, and on whatever record the key has then |
| `MemoryKeys.MemUnit.Abandon` | internal/idempotency/memory.go:108-117 | once, whatever record the key has then |
| `Uuids.TextOrder` | internal/task/repository.go:130-145 | comparing the canonical text of two ids (section 4 of RFC 9562) is comparing their 16 bytes |
| `Uuids.TextDigits` | internal/task/repository.go:130-145 | the text of an id has each byte as its two lower-case hexadecimal digits, in order, at fixed places |
| `ListOrder.LessTotal` | internal/task/repository.go:139-146 | the list order is irreflexive and asymmetric, and decides any two tasks with different ids |
| `ListOrder.LessTransitive` | internal/task/repository.go:139-146 | and transitive |
| `ListOrder.NewestFirst` | internal/task/repository.go:139-146 | later creations first, and of two at the same time the one with the greater id |
| `ListOrder.BackendsAgree` | internal/task/pgrepo/pgrepo.go:139-145 | the SQL order and row comparison are the in-memory order and cursor test |
| `ListOrder.SortedIsUnique` | internal/task/memrepo/memrepo.go:151-164 | a set of tasks is sorted in one way only |
| `ListOrder.PageIsUnique` | internal/task/memrepo/memrepo.go:120-129 | a query has one page, so both backends return the same one |
| `MemRepo.CutIsPage` | internal/task/memrepo/memrepo.go:166-176 | cutting the sorted matches gives the first `limit` of them, and a cursor to the rest exactly when there is a rest |
| `MemRepo.SortNewestFirst` | internal/task/memrepo/memrepo.go:151-164 | sorts in place: same tasks, list order |
| `MemRepo.Insert` | internal/task/memrepo/memrepo.go:154-163 | one insertion into the sorted front |
| `MemRepo.Store.CreateTask` | internal/task/memrepo/memrepo.go:44-59 | stores a new task, or reports a conflict and changes nothing |
| `MemRepo.Store.Get` | internal/task/memrepo/memrepo.go:62-75 | the stored task, under its own id |
| `MemRepo.Store.UpdateTask` | internal/task/memrepo/memrepo.go:78-102 | not found, conflict with the version the caller read, or stored and returned with the caller's name, status and time, one version on and still as old; the caller's creation time and version are ignored |
| `MemRepo.Store.DeleteTask` | internal/task/memrepo/memrepo.go:105-118 | removes the task, or reports that there is none |
| `MemRepo.Store.Collect` | internal/task/memrepo/memrepo.go:134-149 | every selected task once, in whatever order the map is visited |
| `MemRepo.Store.List` | internal/task/memrepo/memrepo.go:121-129 | the page of the query |
| `MemRepo.RowsAreMatches` | internal/task/pgrepo/pgrepo.go:139-145 | the rows the SELECT yields before its LIMIT are the matches of the query, in list order |
| `MemRepo.ListRows` | internal/task/pgrepo/pgrepo.go:147-170 | the durable List, scanning and cutting limit + 1 rows, returns the page of the query too |
| `PageWalk.StrictlyDecreasing` | internal/task/memrepo/memrepo.go:120-176 | whatever is written between pages, a walk returns strictly decreasing keys, across pages |
| `PageWalk.NothingTwice` | internal/task/memrepo/memrepo.go:120-176 | so no key is returned twice |
| `PageWalk.NothingMissed` | internal/task/memrepo/memrepo.go:120-176 | a walk that ended returned every task present and matching throughout, exactly once |
| `PageWalk.ReturnedWasThere` | internal/task/memrepo/memrepo.go:134-149 | everything returned was stored as returned, and matched, when its page was read |
| `PageWalk.WalkEnds` | internal/task/memrepo/memrepo.go:166-176 | if what is created meanwhile is newer than the walk's position, every page but the last takes `limit` tasks off the initial ones, so the walk ends |
| `PageWalk.ZeroIsLastWhen` | internal/task/repository.go:72-73 | when the zero cursor is harmless: no task at it, or no task before the zero time |
| `PageWalk.CompleteIffZeroIsLast` | internal/task/repository.go:72-73 | walks that end on given tasks never miss one that was there throughout, exactly when nothing sorts behind a task at the zero key |
| `RateLimit.DecisionSound` | internal/ratelimit/limiter.go:134-151 | in every run remaining is between 0 and the limit, a refused caller has none, and the reset is exactly the wait until a call would be allowed |
| `RateLimit.WindowIsLeast` | internal/ratelimit/limiter.go:160-166 | the window is the least whole number of seconds, from one, in which a burst accumulates |
| `RateLimit.SweepIsInvisibleIffTTLCovers` | internal/ratelimit/limiter.go:232-250 | the sweep changes no decision of any run exactly when one nanosecond past the TTL every tier's empty bucket is full |
| `RateLimit.WindowIsEnough` | internal/ratelimit/limiter.go:160-166 | a TTL of at least every tier's advertised window is enough |
| `RateLimit.LimitEnforced` | internal/ratelimit/limiter.go:114-134 | over any stretch of any run, sweeps included, a caller of one tier is allowed at most its tier's burst plus its tier's rate times the seconds of the stretch |
| `RateLimit.LevelIsTokens` | internal/ratelimit/limiter.go:114-180 | with a TTL that covers the refills, in every run a caller's level is that of a token bucket computed from the caller's own calls alone, whatever others do and whenever idle buckets are swept |
| `RateLimit.DecidedByTokens` | internal/ratelimit/limiter.go:134-180 | and a caller is told what that token bucket says: allowed, remaining and wait, with the burst and the least window of the caller's own tier |
| `RateLimit.SweptRun` | internal/ratelimit/limiter.go:237-250 | the swept limiter holds some of the buckets of the one that never forgets, unchanged, and the others are full |
| `RateLimit.Limiter.Allow` | internal/ratelimit/limiter.go:114-152 | one call: which bucket it uses, what it takes, what it answers |
| `RateLimit.Limiter.Sweep` | internal/ratelimit/limiter.go:237-250 | drops exactly the buckets idle for longer than the TTL, and counts them |
| `LogThrottle.KeyIsExact` | internal/logging/throttle.go:71 | only a record with the same level and message shares a key |
| `LogThrottle.Bounded` | internal/logging/throttle.go:11-14 | at most 512 keys are held in any run |
| `LogThrottle.SpacedUnlessReset` | internal/logging/throttle.go:70-110 | two emissions of a record closer than the window have a reset of the whole map between them |
| `LogThrottle.EmittedAgainIffReset` | internal/logging/throttle.go:77-109 | a repeated record is emitted again within the window of its last emission exactly when the map was reset since |
| `LogThrottle.SuppressedWithinWindow` | internal/logging/throttle.go:82-90 | a record is suppressed only within the window of the last emission of its twin |
| `LogThrottle.ReportsAllSince` | internal/logging/throttle.go:82-90 | an emission reports all the records suppressed since the last emission of its twin, or none exactly if the key is not held any more |
| `LogThrottle.FloodBreaksTheWindow` | internal/logging/throttle.go:105-109 | 513 different records and then the first again, at any moments of one window, reset the map and emit the first one twice |
| `LogThrottle.FloodIsDistinct` | internal/logging/throttle.go:71 | there are such records for any moments |
| `LogThrottle.Accounted` | internal/logging/throttle.go:70-110 | for each record, admissions are emissions plus reported, pending and lost suppressions |
| `LogThrottle.AllAccounted` | internal/logging/throttle.go:70-110 | and for all records together |
| `LogThrottle.EvictKeeps` | internal/logging/throttle.go:95-110 | below 512 keys nothing is forgotten; from 512 on those last emitted within ten windows stay, unless these are 512 |
| `LogThrottle.ThrottleHandler.EvictLocked` | internal/logging/throttle.go:95-110 | the eviction: nothing below the cap, the quiet entries at it, everything if that is not enough |
| `LogThrottle.ThrottleHandler.Admit` | internal/logging/throttle.go:70-91 | the verdict and the new state of one admission |
| `LogThrottle.ThrottleHandler.Handle` | internal/logging/throttle.go:53-66 | below level 4 everything passes untouched; from it on what passes, with which count, and what is remembered |
| `LogThrottle.ThrottleHandler.Derive` | internal/logging/throttle.go:120-125 | a derived handler has its own output and this handler's budget |
| `LogThrottle.ThrottleShare.Handle` | internal/logging/throttle.go:138-150 | admission by the root's state, output to its own handler |
| `LogThrottle.ThrottleShare.Derive` | internal/logging/throttle.go:152-158 | derived again, it still shares the root |
| `Fingerprint.RoundTrip` | internal/idempotency/idempotency.go:54-61 | a decoder inverts the length-prefixed framing |
| `Fingerprint.FramingIsInjective` | internal/idempotency/idempotency.go:51-53 | no parts can be re-cut into others, of any number |
| `Fingerprint.SameHashedIffSameRequest` | internal/idempotency/idempotency.go:54-61 | what is hashed for two requests is equal exactly when method, canonical path and body are |
| `Fingerprint.Feed` | internal/idempotency/idempotency.go:56-59 | the loop over the parts feeds the framing |
| `Fingerprint.Fingerprint` | internal/idempotency/idempotency.go:54-61 | the fingerprint is the hash of it |
| `Fingerprint.CanonicalIffAlias` | internal/idempotency/idempotency.go:69-77 | exactly which paths are counted as one endpoint |
| `Fingerprint.CanonicalOnceIff` | internal/idempotency/idempotency.go:69-77 | one rewriting makes a path canonical exactly when it does not have the versioned prefix twice |
| `Backoff.RawBounds` | internal/queue/backoff.go:70-82 | later attempts wait no less, never longer than the cap, and the cap is reached |
| `Backoff.RawIsFourthPower` | internal/queue/backoff.go:70-82 | the wait is the base times the fourth power of the attempt, counted from one, below the cap |
| `Backoff.JitterBounds` | internal/queue/backoff.go:43-67 | full jitter lies in [0, raw], equal jitter in [raw/2, raw], none is raw |
| `Backoff.FullJitterReaches` | internal/queue/backoff.go:61-66 | every whole wait below the window is reached by some draw |
| `Backoff.EqualJitterReaches` | internal/queue/backoff.go:55-59 | and with equal jitter every whole wait of the upper half |

## Left out

- SQL internals: each statement is one atomic step; SKIP LOCKED is a set of rows a claim does not see, and a commit happens wholly or not at all. A commit that happens without the client hearing of it is not modelled.
- The order and limit of a batch are part of `JobStore.Store`, not of `JobProtocol`, where a claim or a purge takes any eligible set; the proofs over runs hold for every choice.
- JobFencing.Fenced: assumes that the pool's drain deadlines are harmless; `DeadlineFencesIff` shows that the assumption is exact, and `StaleIffGivenBack` states what holds without it.
- LeaseTiming.LeaseSafe: is about a claim that was tracked whenever the pool looked, and whose worker does not finish another claim of the same job meanwhile, for the map of tracked jobs has one entry per job; `SurvivesIff` is about every claim.
- JobProtocol.RowMoved: one flag says that a pool is stopping, for the closed draining channel and for the cancelled context alike.
- WorkerPool.Pool.Renew: which handlers are told to stop is modelled, not when they do.
- JobStore.Store.Complete: one method for the five completion writes, which differ only in what they set; error texts are not cut at 1024 bytes.
- PgStore.Handle: a write waits for the locks of others by being called once they are gone; deadlocks are not modelled.
- QueueRefinement.ClaimBatchRuns: a method is one step of the fleet, so a release that overtakes a claim in flight is a run of `JobProtocol` only. A release that does not reach the database is not modelled.
- IdempotencySerial.Serializable: a refused Create is a conflict in both backends; the durable one reports the violated primary key as an internal error.
- MemRepo.SortNewestFirst: an insertion sort stands for the standard library's sort, whose result the list order determines.
- MemRepo.ListRows: starts from the rows the database sends.
- RateLimit.Limiter.Allow: reads the clock once; the code reads it again after it gives up the lock, so a call can be seen slightly before it takes its token. The reset is exact where the code rounds to nanoseconds, and concurrent calls for one key are one after the other.
- Backoff.RawBounds: exact arithmetic; float64 rounding is not modelled, and the random draw is a parameter.
- Fingerprint.Fingerprint: the hash is a parameter; equal fingerprints mean equal requests as far as SHA-256 has no collisions.
- The encoding of cursors as page tokens, and of responses and payloads: they are passed as values.
- HTTP plumbing, authentication, redaction, configuration loading, metrics, tracing, codecs and the CLI: input and output, or easy members.
- Circuit breaking, retries and timeouts of the outgoing delivery: what a handler returns is arbitrary.
- LISTEN/NOTIFY, tickers and leadership by advisory lock: a wake-up or a sweep is an event that may happen at any time; queue statistics are not modelled.
