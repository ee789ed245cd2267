# Verification of the webhook delivery queue

This project models the delivery queue of webhooksmith and proves what it promises: the life of an
event from enqueueing to delivery, retry and dead letter, the circuit breaker of each endpoint, the
workers, the reaper and the operators that act on the same tables at the same time, and the two
backends that implement all of it, one on Postgres and one on SQLite.

`dafny verify dfyconfig.toml` checks everything.

## How it is organised

| file | content |
|---|---|
| `Schema.dfy`, `Queue.dfy` | the three tables, and every storage operation as a function on them |
| `PostgresStore.dfy`, `SqliteStore.dfy` | the operations as the two backends carry them out, on mutable tables, proved equal to those functions |
| `Select.dfy`, `Validation.dfy` | the ordered selection of due events; validation of endpoint settings |
| `Effects.dfy` | what the operations are seen to do, row by row |
| `Integrity.dfy`, `Bounds.dfy` | every operation keeps the tables consistent, and attempts within limits |
| `System.dfy` | the Postgres system as interleaved steps of any number of workers, reapers and operators, with a trail of what happened |
| `Invariants.dfy`, `History.dfy`, `Contracts.dfy`, `Zombie.dfy` | what holds in every state and over every run of that system, with and without promises by its environment |
| `PostgresNode.dfy` | the Postgres engine over its store: every call and every database access of a delivery is a step of that system |
| `Interference.dfy` | what others may do to the tables while a single worker is at work |
| `SqliteWorker.dfy` | the SQLite worker's loops: a delivery, a batch, a cycle, the graceful loop, draining |
| `Idempotent.dfy` | SQLite's three-statement enqueue with a key, interleaved, against the one-step upsert |
| `BulkRetry.dfy`, `Routing.dfy`, `Filter.dfy`, `Circuit.dfy`, `Retry.dfy`, `Timestamps.dfy`, `Body.dfy` | pairs of implementations, or an implementation and its ideal, that must agree |
| `Signing.dfy` | signature framing and header check |
| `Common.dfy`, `Decimals.dfy` | options and results, powers of two; decimal digits and what they stand for |

## Reading the model

- Instants are whole microseconds, and one clock serves the database's `NOW()` and the program's
  `Utc::now()`. It never runs backwards. `Timestamps.dfy` relates SQLite's text comparison to such instants.
- A statement or transaction is one step, and one that fails changes nothing. The Postgres
  `record_failure` reads `attempts` in its transaction without a row lock (storage.rs:504-511) and
  is one step here all the same. A retry of a dead event is three steps; a delivery is a claim, a look-up of the endpoint and a report.
- Row locks appear as an arbitrary set of events a claim passes over.
- Random ids are never issued twice. A random delay is chosen by a number that is a parameter; all
  choices are covered. A response is an arbitrary status and list of chunks, or an error; decoding
  of a body is an arbitrary function.
- The delivery log is kept grouped by event. Its duration and error text columns, and of an
  endpoint its URL, secret, description and times of creation and update, carry no property and are left away.
- A worker of the Postgres system may be slow without limit, or crash, and works with the endpoint
  as it read it. Its report may find the event reaped, claimed by another worker, or deleted.

## Where the code differs from what it or its documentation says

- A comment in `record_failure` says that zombie workers are no-ops (storage.rs:513). The guard on
  the status is no ownership check: `Zombie.FailureClosesForeignClaim` is a run in which a late
  report of failure closes another worker's claim. A report closes the claim its worker made exactly if
  nothing released the event since and the report is written (`Contracts.ReportClosesOwnClaimExactly`);
  it changes an event exactly if the event is delivering, whoever claimed it
  (`Contracts.FailureTakesEffectExactly`); and late or not it counts against the circuit
  (`Contracts.FailureCounts`). `Contracts.NoZombies` gives the timing under which no report is late.
- The circuit schedule is documented to double and then stay at 320 minutes. On SQLite the u64
  product wraps, and from the 69th consecutive failure on the window is zero
  (`Circuit.SqliteFollowsSchedule`; a build with overflow checks panics from the 67th). On Postgres
  `POWER` overflows and the transaction fails from the 1029th on (`Circuit.PostgresFollowsSchedule`).
- The event filter of an update is dropped on SQLite (`SqliteStore.UpdatesAgreeExactly`), and on
  neither backend are its patterns validated.
- A prefix pattern with `%`, `_` or `\` in its prefix routes differently on the two backends
  (`Filter.PatternAgreesExactly`). With `\` Postgres can lose events (`Filter.EscapeLosesEvent`); it loses
  none exactly if the prefix with its dot, read as a `LIKE` pattern, matches itself
  (`Filter.PatternLosesNothingExactly`).
- Bulk retry resets the circuit of an endpoint without dead events, single retries do not
  (`BulkRetry.BulkIsIteratedSingle`).
- The age check of a signature is documented to reject timestamps more than five minutes away. Computed
  in 64 bits it also accepts distances that wrap (`Signing.FreshExactly`); with overflow checks it panics there.

## Model

| member | source | states |
|---|---|---|
| Invariants.StepIsTruthful | webhooksmith/src/storage.rs:361-661 | every step of the interleaved system changes events and circuits exactly as the entry it adds to the history says |
| Invariants.CoreHolds | webhooksmith/migrations/0001_initial.sql:16-44 | in every reachable state: an event has its endpoint; it is delivering iff `delivering_since` is set; it has at least as many log rows as attempts, and a success row if delivered; a circuit is open iff five or more failures are counted; keys are unique |
| Invariants.RunIsHistory | webhooksmith/src/storage.rs:361-661 | every run, however interleaved, is a history: sound states joined by truthful steps |
| History.HistoryStep | webhooksmith/src/storage.rs:361-661 | status machine: delivered is final, dead only becomes pending with no attempts, a waiting event only becomes delivering by a claim, a delivering one changes only by a release, and no step changes endpoint, type, payload, key or creation time |
| History.EventsArePersistent | webhooksmith/src/storage.rs:361-661 | the same over whole runs: identity never changes, and delivered events stay exactly as they are |
| History.DeletedForGood | webhooksmith/src/storage.rs:361-661 | a deleted event never comes back |
| History.ClaimsAreExclusive | webhooksmith/src/storage.rs:361-400 | between two claims of one event, in any run, something released it |
| History.ClaimStandsExactly | webhooksmith/src/storage.rs:445-457 | for every claim, in every run: nothing released its event since iff the event is delivering and was not claimed anew |
| History.ClaimsAreConserved | webhooksmith/src/storage.rs:361-661 | in every run, since an event was last requeued: claims = attempts + reaped + handed back + closed + 1 if delivering, and attempts are the recorded results |
| History.CircuitsFollowHistory | webhooksmith/src/storage.rs:460-472 | in every run the failure counter is the length of the current streak of recorded failures, and the deadline is the scheduled window after the latest of them |
| History.CircuitDeadlineBounded | webhooksmith/src/storage.rs:549-564 | a circuit is never open for longer than 320 minutes from now |
| History.DeadlineNeverMovesBack | webhooksmith/src/storage.rs:549-564 | within a streak an open circuit stays open and its deadline never moves back |
| Contracts.AttemptsAreBounded | webhooksmith/src/storage.rs:478-547 | with limits left alone: waiting and delivering events have attempts left, dead ones used exactly all, delivered ones between one and all |
| Contracts.ClaimsAreBounded | webhooksmith/src/storage.rs:361-547 | with limits left alone: claims are at most the limit plus reaps plus hand-backs, slow workers included |
| Contracts.NothingIsEverClosed | webhooksmith/src/worker.rs:289-304 | no claim is ever closed by the endpoint-missing path, in any run |
| Contracts.MissingPathIsNoOp | webhooksmith/src/storage.rs:680-703 | the endpoint-missing path changes no table in any reachable state |
| Contracts.NoZombies | webhooksmith/src/engine.rs:133-140 | if workers report within the timeout and no reaper is more impatient, every report finds its event, if it exists, delivering since that worker's own claim |
| Contracts.OwnershipHolds | webhooksmith/src/storage.rs:364-417 | under that contract no two workers that are on time hold the same event, in any state |
| Contracts.ReportEndsDelivery | webhooksmith/src/worker.rs:278-376 | once a worker's report is written, its event is delivering later only if somebody claimed it anew |
| Contracts.JoinedBatchLeavesNothing | webhooksmith/src/worker.rs:148-170 | once the reports of all deliveries of a batch are written, whatever of the batch is delivering was claimed anew since its report |
| Contracts.ReaperReachesAll | webhooksmith/src/storage.rs:402-417 | after a reap every delivering event has been so for no longer than the timeout, and is as it was |
| Contracts.ReportTakesEffectExactly | webhooksmith/src/storage.rs:445-472 | a report of success changes events iff its event is delivering at that moment, and otherwise resets no circuit |
| Contracts.FailureTakesEffectExactly | webhooksmith/src/storage.rs:513-547 | a report of failure changes events iff its event is delivering at that moment, whoever claimed it, and the report is written |
| Contracts.FailureCommitsExactly | webhooksmith/src/storage.rs:502-569 | a report of failure is written iff its event exists and the endpoint has fewer than 1028 failures in a row |
| Contracts.FailureCounts | webhooksmith/src/storage.rs:549-567 | late or not, a failure adds one log row and one to the counter, or at 1028 is rolled back as a whole; a late one leaves all events alone |
| Contracts.ReportClosesOwnClaimExactly | webhooksmith/src/storage.rs:445-547 | over whole runs: a report closes the claim its worker made, not somebody else's or none, iff nothing released the event since that claim and the report is written |
| Contracts.RetryIsExact | webhooksmith/src/storage.rs:604-661 | whatever runs between its three accesses, a retry resets a circuit iff its own transaction moved the event from dead to pending, and it is that event's endpoint |
| Contracts.RetryTime | webhooksmith/src/storage.rs:526-533 | in every reachable state a failed event with attempts left is retried after at least min(initial delay, one hour) and at most min(one hour, initial delay * 2^attempt), attempt being the number of the one that failed |
| Contracts.RetryTimesReached | webhooksmith/src/storage.rs:526-533 | every whole number of milliseconds in that range is the wait for some draw, nothing else being different |
| Contracts.ClaimsRespectCircuits | webhooksmith/src/storage.rs:364-400 | in every run a claim takes only waiting events that are due, of enabled endpoints, whose streak of failures is below five or has its scheduled window behind it; and it leaves such an event only if it is locked, or the batch is full with events no later |
| Contracts.ClaimableByHistory | webhooksmith/src/storage.rs:370-376 | in every run the row test of the claim holds iff the event waits, is due, and its endpoint is enabled and, by the recorded failures, past its window |
| Contracts.VanishesExactly | webhooksmith/src/storage.rs:811-960 | a step makes an event vanish iff it deletes its endpoint, or cleans up its status with an age the event exceeds |
| Contracts.EventsVanishExactly | webhooksmith/src/storage.rs:811-960 | over any stretch of a run an event vanishes iff some step in it does that |
| Zombie.FailureClosesForeignClaim | webhooksmith/src/storage.rs:513-547 | an eight-step run in which a late report of failure closes the claim of the worker that took over, which is on time |
| Zombie.SuccessClosesForeignClaim | webhooksmith/src/storage.rs:445-457 | the same with a late report of success |
| Integrity.RecordFailureKeeps | webhooksmith/src/storage.rs:478-569 | recording a failure, late or not, on either backend keeps all tables consistent |
| Integrity.RecordSuccessKeeps | webhooksmith/src/storage.rs:419-476 | recording a success, late or not, keeps all tables consistent |
| Integrity.DeleteKeeps | webhooksmith/migrations/0001_initial.sql:18-35 | deleting an endpoint with the cascade leaves no dangling event or log row |
| Integrity.EnqueueKeeps | webhooksmith/migrations/0003_idempotency_key.sql:1-7 | enqueueing keeps references and key uniqueness |
| Integrity.RetryAllDeadKeeps | webhooksmith/src/storage.rs:895-924 | bulk retry keeps all tables consistent |
| Integrity.CreateKeeps | webhooksmith/src/model.rs:165-181 | validated settings make a well-formed endpoint row |
| Integrity.BroadcastKeeps | webhooksmith/src/storage.rs:253-270 | a fan-out, on either backend, keeps references and key uniqueness |
| Integrity.ClaimKeeps | webhooksmith/src/storage.rs:380-383 | claiming due events keeps all tables consistent |
| Integrity.RecoverKeeps | webhooksmith/src/storage.rs:407-410 | reaping keeps all tables consistent |
| Integrity.ResetToPendingKeeps | webhooksmith/src/storage.rs:593-595 | handing back keeps all tables consistent |
| Integrity.RecordEndpointDeletedKeeps | webhooksmith/src/storage.rs:680-703 | the endpoint-missing path keeps all tables consistent, whenever it runs |
| Integrity.RetryDeadKeeps | webhooksmith/src/storage.rs:627-657 | retrying a dead event, with whatever endpoint was read, keeps all tables consistent |
| Integrity.WithoutKeeps | webhooksmith/src/storage.rs:930-960 | deleting events with their log rows leaves nothing dangling |
| Integrity.UpdateKeeps | webhooksmith/src/model.rs:328-341 | validated limits keep endpoint rows well formed |
| Bounds.RecordFailureKeeps | webhooksmith/src/backends/sqlite.rs:571-597 | on either backend a failure recorded with the limit that holds keeps attempts within limits, and a dead event at exactly its limit |
| Bounds.RecordSuccessKeeps | webhooksmith/src/backends/sqlite.rs:517-537 | a recorded success keeps every event within its limit |
| Bounds.ClaimKeeps | webhooksmith/src/backends/sqlite.rs:449-458 | only events with attempts left are claimed |
| Bounds.RetryAllDeadKeeps | webhooksmith/src/backends/sqlite.rs:724-745 | requeued events have attempts left |
| Bounds.RetryDeadKeeps | webhooksmith/src/backends/sqlite.rs:683-722 | a requeued event has attempts left |
| Bounds.UpdateKeeps | webhooksmith/src/storage.rs:61-104 | an update that leaves the limit alone keeps every event within it |
| Effects.RecordSuccessDoes | webhooksmith/src/storage.rs:438-474 | one log row; a delivering event delivered by one more attempt and its circuit reset, settings untouched; all other rows as they were |
| Effects.SuccessIsWritten | webhooksmith/src/storage.rs:429-443 | the log row of a success carries the status and, of the body, the longest run of whole characters that fits into 4096 bytes |
| Effects.RecordFailureDoes | webhooksmith/src/storage.rs:486-567 | one log row; a delivering event dead at its limit, or waiting between min(initial delay, one hour) and min(one hour, initial delay * 2^attempt); one failure more, and from the fifth on the circuit open for 5 minutes doubled with each further one, at most 320; all other rows as they were; or nothing at all, which happens iff the event is gone or, on Postgres, the window overflows |
| Effects.RetryTimesExactly | webhooksmith/src/retry.rs:7-16 | the retry times that some draw gives are exactly the whole milliseconds of that range |
| Effects.FailureCommitsMeans | webhooksmith/src/storage.rs:502-559 | what a report of failure needs to be written, in the columns of the tables |
| Effects.SuccessAnswers | webhooksmith/src/worker.rs:339-358 | an answer with a status in 200..300 is logged as a success with that status; the event, if delivering, is delivered |
| Effects.FailureAnswers | webhooksmith/src/worker.rs:359-373 | any other answer, or none, is logged as a failure; the event, if delivering, is failed or dead |
| Effects.EarliestIsRight | webhooksmith/src/storage.rs:369-379 | the chosen events wait, are due, and belong to enabled endpoints with a circuit closed or past its time; a batch that is not full leaves no unlocked event of this kind, a full one none that is earlier |
| Effects.ClaimDoes | webhooksmith/src/storage.rs:380-383 | exactly the chosen events are delivering from now, with schedule, attempts and content kept |
| Effects.ResetToPendingDoes | webhooksmith/src/storage.rs:588-602 | a delivering event waits again, due now, with its attempts; nothing else changes |
| Effects.RecordEndpointDeletedDoes | webhooksmith/src/storage.rs:680-703 | one log row and a delivering event dead with no attempt counted, or nothing if the event is gone |
| Effects.RecoverDoes | webhooksmith/src/storage.rs:402-417 | exactly the stuck events wait again with schedule and attempts kept |
| Effects.RetryDeadDoes | webhooksmith/src/storage.rs:627-657 | a dead event waits afresh with identity kept, the circuit is reset with settings kept, or nothing changes |
| Effects.RetryAllDeadDoes | webhooksmith/src/storage.rs:895-924 | exactly the dead events of the endpoint wait afresh, nothing else but its circuit changes |
| Effects.CreateDoes | webhooksmith/src/storage.rs:18-35 | a new endpoint has the settings given or 10 attempts and 1000 ms, is enabled, and its circuit is closed |
| Effects.UpdateDoes | webhooksmith/src/storage.rs:77-100 | the settings given replace the stored ones; circuit, events and log stay |
| Effects.DeleteDoes | webhooksmith/src/storage.rs:811-820 | exactly the events of the endpoint vanish, with their log; events and logs of others stay |
| Effects.EnqueueDoes | webhooksmith/src/storage.rs:186-212 | a new event carries the content given, is pending, created and due now; it appears iff the endpoint exists and none of its events has the key |
| Effects.CleanupDoes | webhooksmith/src/storage.rs:930-960 | an event stays, with its log, iff it has another status or is no older than the age; endpoints stay |
| PostgresStore.Store.CreateEndpoint | webhooksmith/src/storage.rs:15-36 | stores the endpoint, enabled and with defaults for what is not given, iff its URL is accepted and its fields are valid |
| PostgresStore.Store.UpdateEndpoint | webhooksmith/src/storage.rs:61-104 | replaces exactly the given settings, iff the URL is accepted, the fields are valid and the endpoint exists, and which error otherwise |
| PostgresStore.Store.DeleteEndpoint | webhooksmith/src/storage.rs:811-820 | deletes the endpoint with exactly its events and their log; says whether it was there |
| PostgresStore.Store.Enqueue | webhooksmith/src/storage.rs:186-212 | the upsert: a new pending row with this content, created now, iff no event of the endpoint has the key; always a row with this endpoint and key, an error iff the endpoint is missing |
| PostgresStore.Store.BroadcastEvent | webhooksmith/src/storage.rs:244-322 | every enabled endpoint whose filter matches and whose key is free has exactly one event more, a new pending one with this content; no other endpoint has any, and no existing row changes |
| PostgresStore.Store.ClaimDueEvents | webhooksmith/src/storage.rs:364-400 | claims only unlocked events that are pending or failed, due, and of an enabled endpoint without a deadline or with one that is over; all of them if they are fewer than `limit`, otherwise `limit` of them, none later than one left behind; exactly those are delivering afterwards, with schedule and attempts kept |
| PostgresStore.Store.RecoverStuckDeliveries | webhooksmith/src/storage.rs:404-417 | releases exactly the stuck events, with schedule, attempts and all other rows kept, and counts them |
| PostgresStore.Store.RecordSuccess | webhooksmith/src/storage.rs:419-476 | one log row with status and stored body, a delivering event delivered and its circuit reset, all other rows kept; nothing if the event is gone |
| PostgresStore.Store.RecordFailure | webhooksmith/src/storage.rs:478-569 | one log row; a delivering event dead, or failed with the retry between min(initial delay, one hour) and min(one hour, initial delay * 2^attempt); one failure counted with its window; all other rows kept; nothing iff the event is gone or the window overflows |
| PostgresStore.Store.ResetToPending | webhooksmith/src/storage.rs:590-602 | a delivering event waits again, due now, with its attempts; all other rows kept |
| PostgresStore.Store.RecordEndpointDeleted | webhooksmith/src/storage.rs:680-703 | one log row and a delivering event dead, all other rows kept; nothing if the event is gone |
| PostgresStore.Store.RequeueDead | webhooksmith/src/storage.rs:627-659 | the transaction of a retry: nothing unless the event is dead |
| PostgresStore.Store.RetryDeadEvent | webhooksmith/src/storage.rs:604-661 | undisturbed: which error, or the event waits afresh and its circuit is reset, all other rows kept |
| PostgresStore.Store.RetryAllDead | webhooksmith/src/storage.rs:895-924 | exactly the dead events of the endpoint wait afresh, are counted, and its circuit is reset |
| PostgresStore.Store.CleanupEvents | webhooksmith/src/storage.rs:930-960 | an event stays, with row and log, iff its status is another or `created_at` is not before now minus the age; the count is the number that vanished; endpoints stay |
| PostgresNode.Node.ClaimBatch | webhooksmith/src/worker.rs:139-159 | claiming a batch and starting a delivery for each event is a claim step of the interleaved system |
| PostgresNode.Node.LookUpEndpoint | webhooksmith/src/worker.rs:289-304 | the first database access of a delivery is a look-up step: it finds the endpoint as it is now, or that there is none |
| PostgresNode.Node.Conclude | webhooksmith/src/worker.rs:289-375 | the one step that ends a delivery: closed if the endpoint was missing, handed back if it was disabled, otherwise, if written, delivered iff the answer has a status in 200..300, and failed or dead if not, for an event still delivering; the log row says the same |
| PostgresNode.Node.Record | webhooksmith/src/worker.rs:339-373 | the answer is recorded with that test, with its status, and on success with the stored part of the body that came before the first error |
| PostgresNode.Node.Send | webhooksmith/src/storage.rs:186-212 | enqueueing is a step of the system |
| PostgresNode.Node.RecoverStuckDeliveries | webhooksmith/src/worker.rs:133-137 | reaping is a step of the system that releases exactly the events delivering for longer than the timeout |
| PostgresNode.Node.StartRetry | webhooksmith/src/storage.rs:604-617 | the status check of a retry: which error, or the first step of a retry |
| PostgresNode.Node.LookUpRetry | webhooksmith/src/storage.rs:619-625 | the second step of a retry: it reads the endpoint of the event |
| PostgresNode.Node.CommitRetry | webhooksmith/src/storage.rs:627-660 | the transaction of a retry is its third step: the event waits afresh and the circuit is reset if the event is dead, otherwise nothing changes |
| SqliteStore.Store.UpdateEndpoint | webhooksmith/src/backends/sqlite.rs:207-262 | statement by statement replaces exactly the given settings but the filter, and which error otherwise |
| SqliteStore.UpdatesAgreeExactly | webhooksmith/src/sqlite_engine.rs:110-118 | an update does the same on both backends iff it gives no filter or the one already set |
| SqliteStore.Store.Enqueue | webhooksmith/src/backends/sqlite.rs:337-384 | undisturbed, the three statements do what the Postgres upsert does |
| SqliteStore.Store.BroadcastEvent | webhooksmith/src/backends/sqlite.rs:386-415 | the loop of single enqueues inserts exactly the rows of one fan-out: one new event for every enabled endpoint whose filter matches and whose key is free, none for any other |
| SqliteStore.Store.ClaimDueEvents | webhooksmith/src/backends/sqlite.rs:419-473 | select, mark and fetch, each in a loop, claim events by the same test as on Postgres, the earliest if not all, and return their rows in the order of their schedule |
| SqliteStore.Store.RecoverStuckDeliveries | webhooksmith/src/backends/sqlite.rs:475-490 | releases exactly the stuck events, with schedule, attempts and all other rows kept, and counts them |
| SqliteStore.Store.RecordSuccess | webhooksmith/src/backends/sqlite.rs:492-541 | one log row with status and stored body, a delivering event delivered and its circuit reset, all other rows kept; nothing if the event is gone |
| SqliteStore.Store.RecordFailure | webhooksmith/src/backends/sqlite.rs:544-631 | one log row; a delivering event dead, or failed with the retry between min(initial delay, one hour) and min(one hour, initial delay * 2^attempt); one failure counted with the window computed in the program; all other rows kept; nothing iff the event is gone |
| Queue.FailEvent | webhooksmith/src/backends/sqlite.rs:571-597 | a delivering event is dead or gets its retry time drawn, any other is left alone |
| SqliteStore.Store.ResetToPending | webhooksmith/src/backends/sqlite.rs:809-818 | a delivering event waits again, due now, with its attempts; all other rows kept |
| SqliteStore.Store.RecordEndpointDeleted | webhooksmith/src/backends/sqlite.rs:820-834 | one log row and a delivering event dead, all other rows kept; nothing if the event is gone |
| SqliteStore.Store.RetryDeadEvent | webhooksmith/src/backends/sqlite.rs:683-722 | the same though the update has no guard, as nothing runs between its statements |
| SqliteStore.Store.RetryAllDead | webhooksmith/src/backends/sqlite.rs:724-745 | exactly the dead events of the endpoint wait afresh, are counted, and its circuit is reset |
| Select.SelectEarliest | webhooksmith/src/backends/sqlite.rs:425-439 | `ORDER BY scheduled_at LIMIT n`: sorted, distinct, exactly min(n, candidates) of them, none later than one left out |
| SqliteWorker.Worker.DeliverEvent | webhooksmith/src/sqlite_engine.rs:380-449 | closed if the endpoint is missing, handed back if it is disabled; otherwise, whatever others did during the request, an event still delivering is delivered iff the answer has a status in 200..300, and failed or dead if not; the log row says the same |
| SqliteWorker.Worker.RecordAnswer | webhooksmith/src/sqlite_engine.rs:413-449 | the answer is recorded with that test, with its status, and on success with the stored part of the body that arrived |
| SqliteWorker.Worker.DeliverBatch | webhooksmith/src/sqlite_engine.rs:315-320 | the batch in order, while time passes and others act |
| SqliteWorker.Worker.RunOnce | webhooksmith/src/sqlite_engine.rs:298-323 | one cycle: recover, claim the earliest due events, deliver them all; returns how many |
| SqliteWorker.Worker.RunCycle | webhooksmith/src/sqlite_engine.rs:298-323 | the cycle claims the earliest due events, at most 50, delivers each of them and returns how many; whatever others do short of claiming, nothing is left delivering that was not so before or was for more than 120 seconds, the tables are consistent, and attempts within limits if others respect them |
| SqliteWorker.Worker.RunGraceful | webhooksmith/src/sqlite_engine.rs:270-291 | runs one full cycle after the other, sleeping half a second after an idle one, while others enqueue, retry, clean up, delete and reconfigure at any time, and returns after the cycle in which the shutdown came; nothing is left delivering that was not so and untouched since before it started, and attempts are within limits if others respect them |
| SqliteWorker.Worker.Pause | webhooksmith/src/sqlite_engine.rs:270-291 | between cycles half a second passes iff nothing was claimed |
| SqliteWorker.RunAdvances | webhooksmith/src/sqlite_engine.rs:270-291 | every cycle of the loop, not only the last, leaves the tables consistent and nothing of its own delivering |
| SqliteWorker.GracefulSettles | webhooksmith/src/sqlite_engine.rs:270-323 | in each cycle of the loop during which others only disable endpoints, every claimed event is settled and nothing else changes |
| SqliteWorker.GracefulClears | webhooksmith/src/sqlite_engine.rs:270-323 | a cycle of the loop that begins with at most 50 events due, and during which others only disable endpoints, claims them all and leaves nothing due as of its beginning |
| SqliteWorker.DeliverSettles | webhooksmith/src/sqlite_engine.rs:380-449 | whatever the network answers, and if endpoints are disabled meanwhile, a delivery leaves its event delivered, failed with a later retry time, dead, or handed back for a disabled endpoint, and touches no other |
| SqliteWorker.DeliverEnds | webhooksmith/src/sqlite_engine.rs:380-449 | whatever others do meanwhile, after a delivery its event is not delivering, nor anything that was not so before |
| SqliteWorker.DeliverKeepsBounds | webhooksmith/src/backends/sqlite.rs:571-597 | a delivery keeps every event within its limit, though it works with the endpoint as it read it before the request |
| SqliteWorker.WorkerCycles | webhooksmith/src/sqlite_engine.rs:298-323 | while others only disable endpoints, every worker cycle settles exactly the claimed events and no others, and keeps attempts within limits |
| SqliteWorker.CycleConserves | webhooksmith/src/sqlite_engine.rs:298-323 | events claimed = newly delivered + failed + dead + handed back, and no event appears or vanishes |
| SqliteWorker.CycleEnds | webhooksmith/src/sqlite_engine.rs:298-323 | whatever others do short of claiming, after a cycle nothing is delivering that was not so before and untouched, nor anything that was stuck |
| Interference.EnqueueIsLawful | webhooksmith/src/backends/sqlite.rs:337-384 | others who enqueue are admitted by the claims about the worker |
| Interference.BroadcastIsLawful | webhooksmith/src/backends/sqlite.rs:386-415 | so are those who broadcast |
| Interference.CreateIsLawful | webhooksmith/src/backends/sqlite.rs:143-167 | and those who create endpoints |
| Interference.UpdateIsLawful | webhooksmith/src/backends/sqlite.rs:207-262 | and those who change endpoints; within limits as long as the attempt limit stays |
| Interference.DeleteIsLawful | webhooksmith/src/backends/sqlite.rs:264-275 | and those who delete endpoints, even with a delivery of theirs in flight |
| Interference.CleanupIsLawful | webhooksmith/src/backends/sqlite.rs:787-807 | and those who clean up |
| Interference.RetryIsLawful | webhooksmith/src/backends/sqlite.rs:683-722 | and those who retry a dead event |
| Interference.RetryAllIsLawful | webhooksmith/src/backends/sqlite.rs:724-745 | and those who retry all of an endpoint's |
| Interference.RecoverIsLawful | webhooksmith/src/backends/sqlite.rs:475-490 | and those who reap |
| SqliteWorker.CycleDrains | webhooksmith/src/backends/sqlite.rs:586-597 | with the clock standing still a cycle claims min(50, backlog) events and the backlog shrinks by at least as many |
| SqliteWorker.CyclesTerminate | webhooksmith/src/sqlite_engine.rs:256-268 | with the clock standing still at most as many cycles find work as events were due at the start, and an idle one leaves nothing due |
| SqliteWorker.CycleClears | webhooksmith/src/sqlite_engine.rs:298-323 | a cycle that begins with at most 50 events due, and during which others only disable endpoints, claims every one and leaves nothing due |
| Idempotent.OneEventPerKey | webhooksmith/src/backends/sqlite.rs:348-383 | however the statements of any number of callers interleave, all with the same endpoint and key get the same event, the only one with the key |
| Idempotent.FirstPayloadWins | webhooksmith/src/backends/sqlite.rs:364-383 | the event returned carries type and payload of the call that inserted it |
| Idempotent.ReturnedStays | webhooksmith/src/backends/sqlite.rs:374-383 | what a call returned stays the row of its key, with the same content |
| Idempotent.RunRefines | webhooksmith/src/storage.rs:194-203 | every run of the three-statement protocol is a run of single-step Postgres upserts, each call taking effect once |
| Idempotent.RereadRefines | webhooksmith/src/backends/sqlite.rs:374-381 | without deletions the second select always finds a row |
| BulkRetry.BulkIsIteratedSingle | webhooksmith/src/storage.rs:895-924 | bulk retry equals single retries of all dead events, in any order, iff there is a dead event or the circuit is reset already |
| BulkRetry.RetryEachExactly | webhooksmith/src/storage.rs:627-657 | what any list of single retries, with repetitions, amounts to |
| BulkRetry.BulkAbsorbsSingles | webhooksmith/src/storage.rs:895-924 | single retries just before make no difference to a bulk retry, which leaves no dead event |
| BulkRetry.UnguardedRetryExactly | webhooksmith/src/backends/sqlite.rs:706-719 | the update without a guard equals the guarded one iff the event is still dead, or gone or requeued with its circuit reset |
| Routing.BackendsRouteAlike | webhooksmith/src/backends/sqlite.rs:391-394 | both backends send a broadcast to the same endpoints if all filters are portable |
| Routing.BroadcastReachesEach | webhooksmith/src/storage.rs:297-313 | every target gets exactly one new event unless its key is taken, and nobody else gets any |
| Routing.BroadcastIsIdempotent | webhooksmith/src/storage.rs:253-273 | broadcasting again under the same key changes nothing |
| Filter.PatternAgreesExactly | webhooksmith/src/storage.rs:306-311 | a pattern routes all event types alike on both backends iff it is no prefix pattern or its prefix has no `%`, `_` or `\` |
| Filter.FiltersAgree | webhooksmith/src/model.rs:218-230 | the Rust filter equals the SQL predicate for portable filters |
| Filter.PatternLosesNothingExactly | webhooksmith/src/storage.rs:306-311 | the SQL predicate accepts all a pattern accepts in Rust iff it is no prefix pattern or its dotted prefix matches itself as a `LIKE` pattern |
| Filter.RustImpliesSql | webhooksmith/src/model.rs:218-230 | if all patterns match themselves the SQL predicate accepts whatever the Rust filter accepts |
| Filter.EscapeFreeMatchesItself | webhooksmith/src/storage.rs:310 | a pattern without an escape character matches itself |
| Filter.EscapeMayMatchItself | webhooksmith/src/storage.rs:310 | a pattern with an escape character that does, too |
| Filter.EscapeLosesEvent | webhooksmith/src/storage.rs:310 | a filter and an event type that Rust routes and SQL does not |
| Filter.FilterMeans | docs/05-event-filtering.md:9-15 | without a filter everything matches, with an empty one nothing, otherwise what some pattern matches |
| Filter.NameMeans | webhooksmith/src/model.rs:221-228 | a star matches everything, a name without a star matches itself only |
| Filter.PrefixMeans | webhooksmith/src/model.rs:224-226 | `p.*` matches `p` and whatever begins with `p` and a dot |
| Circuit.WindowsAgreeExactly | webhooksmith/src/backends/sqlite.rs:608-613 | both backends open a circuit for the same time iff the failure is at most the 68th |
| Circuit.OverflowExactly | webhooksmith/src/backends/sqlite.rs:611 | the u64 product overflows iff the failure is beyond the 66th |
| Circuit.SqliteFollowsSchedule | webhooksmith/src/backends/sqlite.rs:609-613 | the SQLite window is the documented one iff the failure is at most the 68th, and zero beyond |
| Circuit.PostgresFollowsSchedule | webhooksmith/src/storage.rs:555-559 | the Postgres window is the documented one iff the failure is at most the 1028th |
| Circuit.ScheduleDoubles | docs/02-circuit-breaker.md:10-17 | the documented schedule starts at 5 minutes, doubles, and stays at 320 from the 11th failure on |
| Circuit.ScheduleMonotone | docs/02-circuit-breaker.md:10-17 | the schedule never shrinks |
| Retry.CeilingIsIdeal | webhooksmith/src/retry.rs:8-11 | on all u32 inputs the saturating, clamped ceiling is min(cap, base * 2^attempt) over unbounded integers |
| Retry.DelayRange | webhooksmith/src/retry.rs:7-16 | a delay is possible iff it lies between min(base, cap) and that ceiling, a range that is never empty |
| Retry.CeilingMonotone | webhooksmith/src/retry.rs:10-11 | later attempts never have a lower ceiling |
| Timestamps.StoreTextOrder | webhooksmith/src/backends/sqlite.rs:28-30 | store texts compare as their instants do, to the microsecond |
| Timestamps.OpenUntilOrder | webhooksmith/src/backends/sqlite.rs:431 | the text comparison `circuit_open_until <= now` holds iff the deadline, cut off to microseconds, is reached |
| Timestamps.OpenUntilPrecision | webhooksmith/src/backends/sqlite.rs:612-613 | the text comparison never keeps a circuit open too long, and closes it early by less than a microsecond |
| Timestamps.SecondsOrdered | webhooksmith/src/backends/sqlite.rs:28-30 | the calendar fields, leap years included, order instants as elapsed time does |
| Timestamps.StoreTextReads | webhooksmith/src/backends/sqlite.rs:28-30 | the stored text spells year, month, day, hour, minute, second and microsecond in fixed places with their separators |
| Timestamps.MonthsInDays | webhooksmith/src/backends/sqlite.rs:28-30 | the twelve months make up the 365 or 366 days of the year |
| Timestamps.YearsInDays | webhooksmith/src/backends/sqlite.rs:28-30 | a year has 365 days, a leap year one more |
| Timestamps.LeapYearsCounted | webhooksmith/src/backends/sqlite.rs:28-30 | of the years before a given one every fourth is a leap year, less every hundredth, plus every four-hundredth |
| Body.ReadBodyLimited | webhooksmith/src/worker.rs:228-248 | buffers exactly the first min(limit, total) bytes that arrive before the first error |
| Body.ReadBodySkipping | webhooksmith/src/sqlite_engine.rs:424-432 | the same, passing over failed chunks |
| Body.CaptureIsChunkingIndependent | webhooksmith/src/worker.rs:228-248 | however a body is split, both workers store the same: of the text its first 4096 bytes decode to, the most whole characters that fit into 4096 bytes |
| Body.TruncateKeepsLongestPrefix | webhooksmith/src/storage.rs:962-977 | truncation keeps the longest run of whole characters that fits (UTF-8, section 3 of RFC 3629) |
| Body.TruncateIdempotent | webhooksmith/src/backends/sqlite.rs:32-40 | truncating again changes nothing |
| Body.EncodeCharShape | webhooksmith/src/storage.rs:962-977 | a character takes as many bytes, marked by their upper bits, as UTF-8 says |
| Body.EncodeCharReads | webhooksmith/src/storage.rs:962-977 | the payload bits of these bytes spell the character |
| Validation.ValidateFields | webhooksmith/src/model.rs:158-207 | accepts exactly the valid settings, and the first bad pattern decides the complaint |
| Validation.PatternAccepted | webhooksmith/src/model.rs:188-202 | a pattern is accepted iff it is not blank, does not end in a dot and has no control character; the exemption for ".*" never matters |
| Validation.Validate | webhooksmith/src/model.rs:136-154 | the URL is judged first, then the fields |
| Validation.ValidateUpdate | webhooksmith/src/model.rs:299-343 | accepts exactly the updates whose URL is accepted and whose fields are valid, and which complaint otherwise |
| Signing.FramingInjective | webhooksmith/src/signing.rs:16-18 | different timestamps or payloads never give the same signed message |
| Signing.SignMeans | webhooksmith/src/signing.rs:13-23 | a signature is "v1," and the hash of the decimal timestamp, a dot and the payload |
| Signing.Verify | webhooksmith/src/signing.rs:28-53 | accepts iff the timestamp is fresh and some space-separated token is the expected signature |
| Signing.AcceptedHeaders | webhooksmith/src/signing.rs:47-52 | a token is found iff the signature stands in the header on its own |
| Signing.SignedIsAccepted | webhooksmith/src/signing.rs:47-52 | what was signed is found, alone and among other signatures |
| Signing.FreshExactly | webhooksmith/src/signing.rs:34-36 | the 64-bit age check means 300 seconds at most, except at distances that wrap |

## Left out

- HTTP delivery, DNS resolution and TLS: a response is an arbitrary value.
- MVCC, write-ahead log and lock internals of the databases; transactions and single statements are atomic.
- HMAC-SHA256, hexadecimal and JSON: the keyed hash is a parameter, payloads are opaque texts.
- URL parsing and the checks of private addresses: which URLs are accepted is a parameter.
- The check of event type and payload size before enqueueing (storage.rs:713-750).
- Enqueueing inside a caller's transaction: the same statement, visible when the caller commits.
- Queries, statistics and pagination; `ORDER BY created_at` has no tie-break that would make pages disjoint.
- The polling loop of the Postgres worker: `PostgresNode` makes each of its database accesses a step of the interleaved system, and the loop around them is modelled for SQLite.
- Contracts.JoinedBatchLeavesNothing: a delivery that crashes, or whose report of failure is rolled back, leaves its event delivering until the reaper comes; only deliveries whose report is written are covered.
- Builders, routers, extractors and the command line.
- The SQLite statements that create and delete endpoints, clean up events, and set or clear a filter: they are single statements with the effect of the Postgres ones.
- The rows a broadcast returns: only which endpoints got a new row.
- SqliteStore.Store.RetryDeadEvent: nothing else runs between its statements; `BulkRetry.UnguardedRetryExactly` says when that matters.
- SqliteStore.Store.ClaimDueEvents: nothing else runs between its statements, since the marking has no guard on the status.
- SqliteStore.Store.RecordFailure: the 32-bit failure counter is unbounded here; it would overflow after 2^31 consecutive failures.
- Idempotent.OneEventPerKey: assumes that no event is deleted meanwhile; a deletion between the insert and the second select makes that call fail.
- System: the Postgres claim's `LIMIT` and the reaper's interval are taken within the ranges the database accepts.
- SqliteWorker: database errors during a cycle are not modelled, the claims are about cycles whose writes succeed. Others may do anything but claim, before each delivery, during its request and between cycles; a second worker on the same file is not modelled, and conservation and draining are about cycles in which others at most disable endpoints.
- Validation of filter patterns when an endpoint is updated: the code has none, so stored filters need not be valid.
- Whether an endpoint is ever drained under load: nothing bounds how often a waiting event is overtaken by earlier ones.
