# Verified models of manualbox

Dafny models of the parts of manualbox whose correctness depends on how steps of
different actors interleave or on arithmetic at the edges, with proofs of what those
parts promise.

| files | what they model |
|---|---|
| `JobRows`, `JobTable`, `Worker`, `Backoff` | the job queue: rows and constraints, one function per SQL statement, the table and the worker pool as objects whose methods are proved against those functions, the retry delay |
| `Protocol`, `ProtocolInvariant`, `Leases`, `Lifecycle`, `Dedupe`, `Recovery`, `Witnesses`, `StaleWorkers` | the queue as a protocol: any number of workers, each acting on what it copied at claim time, with renewals, cancellations, reclaims, purges and crashes in any order; runs that show which stronger claims fail |
| `Liveness`, `FairSchedules` | that from any state the queue has got into, every fair schedule brings it to rest |
| `ClaimOrder`, `Drain`, `Fairness`, `DrainLoop` | what an undisturbed queue does: the order it hands out work, that every fair schedule ends the batch, and how each job ends |
| `Broker`, `BrokerOrder`, `LastWord`, `BrokerHub`, `HubProtocol` | event fan-out, the event stream that subscribes before it reads its snapshot, and when what it ends with is what the row says |
| `BlobStore` | the content-addressed store under concurrent uploads and crashes |
| `Keyring` | one data key under many wraps, with symbolic cryptography; which changes leave a secret that opens the file |
| `Sessions` | sliding session lifetimes, with requests in sequence and overlapping, and deletion |
| `Base64`, `PasswordHash` | the stored form of a password |
| `Wrappers`, `Clock` | options, results, byte strings, picking from a set; nanoseconds and stored milliseconds |

## How the queue is modelled

Each SQL statement is one atomic step: a pure function on the table in `JobRows`. The
class `JobTable.Jobs` has a method for what the queue does with them, proved against
those functions; where an operation is two statements, a parameter says what everyone
else makes of the table in between. `Protocol` uses the same functions as steps of a
state machine whose state also holds the clock, the live executions with their
claim-time copies, and a history per job. An action carries the clock reading its caller took, which may be
earlier than the moment the statement runs. Guards are as in the statements: Renew,
Progress and Release ask for a running row, Cancel for a pending one, and Complete,
Fail, Retry and Usage for nothing but the row. `ProtocolInvariant.HistoryIsWhatHappened`
ties the history to the actions of the run (`Drain.QuietHistory` does so for runs over
a fresh batch), so the results below are about runs and not about counters.

Where the code differs from its comments, the model follows the code:

- A comment in `internal/db/queries/jobs.sql` says a poison job cannot be retried
  forever. Reclaims are not counted against the limit, so attempts are bounded by the
  limit plus the number of reclaims (`AttemptsAreBounded`), and that bound is reached for
  every limit and every number of reclaims (`TheBudgetIsExact`).
- A comment on `Queue.Cancel` says a running handler observes cancellation when it next
  reports progress. Progress on a cancelled job is dropped without an error
  (`ProgressLandsIffRunning`), and the worker's outcome overwrites the cancellation
  except in the cases `CancellationSurvivesIff` names.
- A comment in `Pool.Run` says jobs left running are reclaimed on startup rather than
  waiting out their lease. Startup reclaims exactly the lapsed ones
  (`ReclaimWaitsOutLeases`).
- A comment on `Keyring.RemoveWrap` gives the refusal of the last wrap as what keeps the
  data readable. It counts wraps whose addition was reported as failed: a key file can
  be left that opens only under a secret its owner was told is not in place
  (`LastWrapRefusalCountsFailures`). `RemovalIsSafeIff` says which removals are safe.

## Model

| member | source | states |
|---|---|---|
| ProtocolInvariant.AttemptsAreBounded | internal/db/queries/jobs.sql:18-99 | in every run, attempts stay within the limit plus the reclaims of that job; attempts are claims less effective releases; so claims are within limit, reclaims and releases |
| Witnesses.TheBudgetIsExact | internal/db/queries/jobs.sql:94-99 | for every limit and number of reclaims some run attempts a job exactly that many times, so the bound is the least one |
| ProtocolInvariant.StepKeepsBudget | internal/jobs/worker.go:213-232 | every action keeps the potential behind the bound: executions that would still retry, the queued bit, and attempts beyond the limit, all paid for by reclaims |
| ProtocolInvariant.FinishKeepsBudget | internal/jobs/worker.go:213-232 | a retry spends its own right to requeue, and a release lowers a count still at least the releaser's copy, however stale the worker |
| ProtocolInvariant.HistoryIsWhatHappened | internal/jobs/worker.go:165-233 | the per-job history equals a tally of the run's claims, effective releases, reclaims, nil returns and usage |
| ProtocolInvariant.ReleaseNeverClamps | internal/db/queries/jobs.sql:66-71 | the clamp at zero attempts never takes effect in a reachable state |
| ProtocolInvariant.UsageIsConserved | internal/db/queries/jobs.sql:48-54 | until purged, each of a row's totals (tokens in, tokens out, cost) is the sum of that figure over every usage report for the job, across attempts, retries, reclaims and cancellation |
| ProtocolInvariant.RunsKeepInv | internal/db/migrations/00001_init.sql:68-122 | every reachable state keeps the table invariant, exact accounting, honest snapshots and the attempt budget |
| ProtocolInvariant.RowsAreConsistent | internal/db/queries/jobs.sql:18-99 | running if and only if leased and if and only if owned; running rows attempted and started; terminal rows dated; success complete; progress a fraction; live copies no later than the row but for one attempt given back |
| ProtocolInvariant.WriteKeepsTable | internal/db/migrations/00001_init.sql:118-122 | any write the constraints accept keeps the table invariant |
| ProtocolInvariant.PendingRowsRewriteFreely | internal/db/migrations/00001_init.sql:118-122 | a write that keeps the key of a pending row is never refused |
| Witnesses.ReclaimsExceedTheLimit | internal/db/queries/jobs.sql:94-99 | a run in which a job with one permitted attempt is attempted twice and has two live executions |
| Witnesses.CancelledJobsCanSucceed | internal/db/queries/jobs.sql:56-60 | a run in which a cancelled job is overwritten by its worker's success |
| Leases.LiveWorkersKeepTheirJobs | internal/jobs/worker.go:247-267 | when no live execution's last claim or renewal is more than a lease old, no job has two executions, in-memory attempts and totals equal the row's, and no reclaim takes a live worker's job |
| Leases.TimelyRunsAreExclusive | internal/db/queries/jobs.sql:43-46 | in such runs a live execution's row is never back in the queue and its lease is the one last asked for |
| Leases.TimelyLeaseHolds | internal/db/time.go:14 | truncating lease and clock to milliseconds never makes a timely lease look lapsed |
| Witnesses.RenewalsMayBeThisLate | internal/jobs/worker.go:75-77 | workers renew every third of a lease; no reclaim can take a live worker's job if and only if renewals are late by at most the other two thirds |
| Lifecycle.JobsKeepTheirIdentity | internal/db/queries/jobs.sql:18-99 | kind, payload, priority, limit and key never change, a start time once set never changes, a purged id never returns |
| Lifecycle.TerminalRowsYieldOnlyToExecutors | internal/db/queries/jobs.sql:56-89 | a terminal row changes state only when an execution claimed earlier and still live settles, and disappears only to a purge past its finish |
| Lifecycle.TerminalIsFinal | internal/jobs/jobs.go:36-44 | a terminal job with no live execution stays exactly as it is in every continuation until purged |
| Lifecycle.OnlyTheExecutorOverwrites | internal/jobs/worker.go:269-315 | in timely runs a terminal row, a cancelled one included, is overwritten only by its single executor |
| Lifecycle.CancellationSurvivesIff | internal/jobs/queue.go:182-210 | exactly which outcomes of an in-flight worker leave a cancellation in place |
| Lifecycle.ProgressLandsIffRunning | internal/jobs/worker.go:396-415 | a progress report never fails, lands on running rows clamped into range, and is dropped on all others |
| Lifecycle.RequeuedJobsComeDue | internal/jobs/worker.go:301-338 | a failed job comes due exactly when its backoff has passed, a released one at once with its attempt given back, a reclaimed one with attempts and due time kept |
| Lifecycle.WritesAreStamped | internal/db/queries/jobs.sql:18-99 | across all actions a row changes only with its update time set to the writer's clock |
| Lifecycle.OutcomesAreRecorded | internal/db/queries/jobs.sql:56-89 | for every handler result, field by field, what the end of an execution leaves in its row, and when that is nothing |
| Lifecycle.ClaimsAreRecorded | internal/db/queries/jobs.sql:18-33 | field by field, what a claim leaves in its row and in the worker's memory |
| Lifecycle.OtherWritesAreRecorded | internal/db/queries/jobs.sql:43-99 | field by field, what heartbeats, usage reports, cancellations and reclaims leave in a row |
| Lifecycle.EndedJobsAreDated | internal/db/queries/jobs.sql:56-99 | across all actions, a job that ends is dated with the reading of whoever ended it, which only an executor or a cancellation can |
| Dedupe.PendingKeysAreUnique | internal/db/migrations/00001_init.sql:119-122 | in every reachable state at most one pending job holds a key |
| Dedupe.EnqueueIsRefusedIff | internal/jobs/queue.go:92-113 | an insert is refused exactly when its id is taken or its key is held |
| Dedupe.RetryIsRefusedIff | internal/db/queries/jobs.sql:73-78 | a retry is refused exactly when its job had left the pending states and another pending job holds the key |
| StaleWorkers.RetriesCanBeRefused | internal/db/queries/jobs.sql:73-78 | a run in which that happens: the job was cancelled under its worker and its key went to a new one |
| Dedupe.OtherWritesAreAccepted | internal/db/queries/jobs.sql:18-89 | no other statement of a reachable state is ever refused |
| Dedupe.ReclaimIsAccepted | internal/db/queries/jobs.sql:94-99 | a reclaim never trips the index, in whatever order its rows are rewritten |
| Lifecycle.EnqueueFailsIff | internal/jobs/queue.go:96-113 | with anything happening between insert and lookup, Enqueue fails exactly when the holder of its key had left the pending states and nobody had retaken the key; otherwise it yields the new job or one that holds the key |
| StaleWorkers.EnqueueCanFail | internal/jobs/queue.go:96-113 | a run in which it fails: the holder finishes between insert and lookup |
| Recovery.CrashesLoseNothing | internal/jobs/worker.go:361-367 | after killing all workers, waiting out every lease and reclaiming once: nothing runs, ids, payloads, attempts and usage are kept, exactly the running rows changed, each is due at once |
| Recovery.ReclaimWaitsOutLeases | internal/jobs/worker.go:102-108 | a reclaim takes a running row if and only if its lease has lapsed |
| ClaimOrder.DueJobsAreHandedOutInOrder | internal/db/queries/jobs.sql:26-32 | repeated claims at one time hand out every due job once, by priority descending then id |
| ClaimOrder.ClaimAll | internal/jobs/worker.go:165-184 | claiming until nothing is due produces such an order and leaves nothing due |
| ClaimOrder.ClaimTakesOne | internal/db/queries/jobs.sql:18-33 | a claim takes exactly the selected job out of the due set and leaves all others alone |
| Fairness.FairPoolsFinish | internal/jobs/worker.go:133-162 | if every handler returns, due work is polled for and time passes, any number of workers in any interleaving reach a point from which every job is terminal and no row changes, within the claims the batch was allowed |
| Fairness.WorkComesAgain | internal/jobs/worker.go:133-162 | in such a schedule an unfinished batch always sees another claim or another finish |
| Liveness.FairQueuesComeToRest | internal/jobs/worker.go:102-162 | from whatever state a run has reached, with any number of dead workers, stale executions and cancelled or requeued jobs, and however often leases lapse and jobs are cancelled afterwards: once no more workers die or shut down and no jobs are added, every schedule in which handlers return, a due job is claimed, overtaken or stops being due, reclaims come and time passes ends with all jobs terminal, no worker at work and no row changing but to be purged |
| Liveness.WorkLeadsOn | internal/jobs/worker.go:102-233 | while a job is unfinished, what is left strictly shrinks: unused attempts first, then executions that could still retry, then unfinished jobs |
| FairSchedules.FairSchedulesExist | internal/jobs/worker.go:133-162 | schedules to which these two theorems apply |
| Drain.QuietPoolsFinish | internal/jobs/worker.go:133-162 | with no crash, reclaim, cancel or shutdown, under every interleaving claims stay within the attempts the batch was allowed, finishes within claims, and no state is stuck: while a job is not terminal one can be finished or, in time, claimed |
| Drain.QuietOutcomes | internal/jobs/worker.go:213-232 | by what the run did: attempts are the claims, a job succeeds exactly when one execution returned nil, fails for good exactly when its last one found no handler or used up the last attempt with an error, and at rest is where its last result puts it |
| Drain.NothingFollowsNil | internal/jobs/worker.go:213-216 | once an execution has returned nil the job is never claimed again, in any continuation |
| Drain.WorkIsAccountedFor | internal/jobs/worker.go:133-162 | claims plus attempts remaining is constant, finishes plus live executions equals claims |
| DrainLoop.WorkUntilDone | internal/jobs/worker.go:133-162 | whatever its handlers report, the worker's loop terminates with every job in the state and at the attempt their results determine, in exactly the attempts spent |
| DrainLoop.WorkOnce | internal/jobs/worker.go:144-160 | one turn claims the next due job, runs its handler with all it reports, and settles it, or finds nothing due |
| DrainLoop.FatedToSucceedIff | internal/jobs/worker.go:213-232 | a job is fated to succeed exactly when some permitted attempt returns nil after only errors |
| DrainLoop.ExecutionStaysOnCourse | internal/jobs/worker.go:187-233 | claiming a job, forwarding its reports and settling it keeps every job on course for its fate |
| JobTable.Jobs.ClaimNext | internal/db/gen/jobs.sql.go:32-101 | selects the first due row, or none exactly when none is due, and claims it |
| JobTable.Jobs.SelectNext | internal/db/queries/jobs.sql:26-32 | the subquery's row |
| JobTable.Jobs.Enqueue | internal/jobs/queue.go:64-119 | empty kind refused; otherwise a row that is what was asked for, in kind, payload, priority, limit, due time and key, and one event of a queued job; or on a held key whoever holds it by the time of the lookup, failing when nobody does |
| JobTable.Jobs.FindPending | internal/jobs/queue.go:121-128 | finds the pending holder of a key if there is one |
| JobTable.Jobs.Cancel | internal/jobs/queue.go:182-210 | cancels exactly pending jobs and publishes, field by field, what the row then says; otherwise tells a missing job from a finished one |
| JobTable.Jobs.Reclaim | internal/db/gen/jobs.sql.go:510-532 | requeues exactly the lapsed rows and returns how many |
| JobTable.Jobs.Purge | internal/db/gen/jobs.sql.go:161-173 | deletes exactly the terminal rows that finished before the cutoff and returns how many |
| Worker.Pool.Claim | internal/jobs/worker.go:164-184 | the job handed over is a copy of the row just claimed, or null when nothing is due |
| Worker.Pool.Reports | internal/jobs/worker.go:396-432 | row, in-memory job and events after a report: memory follows an accepted write; progress is published with the job, the fraction and the note, usage is not |
| Worker.Pool.Record | internal/jobs/worker.go:269-338 | row, in-memory job and events after an outcome: its statement, and only if accepted the memory and one event |
| Worker.ReportsAreAnnounced | internal/jobs/broker.go:23-33 | field by field, the event an accepted progress report publishes, and that nothing else does |
| Worker.OutcomesAreAnnounced | internal/jobs/worker.go:269-338 | field by field, the event a recorded outcome publishes |
| Worker.ExecutionsAnnounceTheirStart | internal/jobs/worker.go:199 | an execution with a handler first announces its job as the row has it |
| Worker.Pool.Execute | internal/jobs/worker.go:186-233 | row, in-memory job and events after an execution: the running event, every report, then the outcome its result and the claim-time copy select |
| Worker.ExecutionsAnnounceTheirEnd | internal/jobs/worker.go:269-338 | an execution nobody disturbs, whatever its handler reports and returns, publishes last an event whose every field is what its row then says |
| Worker.ReportsMirror | internal/jobs/worker.go:396-432 | while its row runs, what a worker reports lands in row and memory alike and touches nothing but progress, note, usage and update time |
| Worker.AnnouncedStateIsTrueIff | internal/jobs/worker.go:269-338 | exactly when a worker, however stale, publishes the state its row then has: for a progress report if the row runs, for a release if it is pending, for any other outcome if it has not been purged |
| StaleWorkers.StaleWorkersMisreport | internal/jobs/worker.go:396-415 | a run in which the worker of a cancelled and then purged job goes on announcing that it runs |
| Worker.ExecuteRefinesTheProtocol | internal/jobs/worker.go:186-233 | what Execute does to the table is a run of the protocol's actions |
| Worker.ReportsRefineTheProtocol | internal/jobs/worker.go:396-432 | so is any sequence of reports, row and copy |
| Worker.ClaimRefinesTheProtocol | internal/jobs/worker.go:164-184 | so is a claim |
| Backoff.ExponentialBackoff | internal/jobs/worker.go:372-388 | for every attempt and draw the delay is within the last quarter below min(5s times 2^(n-1), 10min), without overflow and drawing only from a positive bound |
| Backoff.ShiftIsExact | internal/jobs/worker.go:380-385 | the bounded 64-bit shift is exact, and where the bound applies the cap has long been reached |
| Backoff.Int64WrapsAround | internal/jobs/worker.go:380-385 | the arithmetic it is exact in is that of 64-bit integers |
| Backoff.NominalDelaysDouble | internal/jobs/worker.go:372-388 | the delay before jitter is five seconds, doubles with every attempt, and stops at ten minutes |
| Backoff.DelaysGrow | internal/jobs/worker.go:369-388 | delays strictly grow from attempt 1 to 8 whatever the jitter, and stay above 450s from then on |
| Backoff.TotalWait | internal/jobs/worker.go:369-388 | the total wait over n retries has a closed-form bound, attained up to a quarter |
| Broker.ChannelsAreSafe | internal/jobs/broker.go:56-78 | under every interleaving nothing is closed twice or sent to after closing, the open channels are exactly those in the map, buffers hold at most 32 |
| Broker.SubscribersMissOnlyWhenFull | internal/jobs/broker.go:80-94 | received plus buffered is, per publisher, in publishing order and from after subscribing; an event published while the channel was open, closed since or not, is missing only if it found the buffer full |
| Broker.StreamsMissNothing | internal/api/handlers.go:297-334 | each change published while the stream's channel was open, closed since or not, was committed before the stream's snapshot, or is in its channel, or found the buffer full |
| Broker.SnapshotFirstWouldMiss | internal/api/handlers.go:297-300 | with the order reversed a change is lost although no buffer was full |
| BrokerOrder.StreamsEndCurrent | internal/api/handlers.go:297-334 | if every other change of a job was published before its last one was committed, a stream's last event about the job is that change, or the snapshot covers it and no event about the job follows |
| BrokerOrder.OverlappingWritersCross | internal/jobs/queue.go:206-208 | otherwise it may not be: two writers of one job commit in one order and publish in the other |
| LastWord.LastWordIff | internal/jobs/broker.go:80-94 | a change on its way to a stream stays the last the stream hears about the job, in every continuation that does not change the job again, if and only if no other change about the job is on its way there |
| Broker.RunsKeepBroker | internal/jobs/broker.go:42-116 | the invariant behind these over subscribe, cancel, close, commit, publish, receive and snapshot |
| BrokerHub.Hub.Publish | internal/jobs/broker.go:80-94 | one publish appends to every buffer with room and changes nothing else |
| HubProtocol.PublishRefines | internal/jobs/broker.go:80-94 | taking the lock, offering to each subscription in any order and letting go changes what subscribers see exactly as Publish does |
| BrokerHub.Hub.Subscribe | internal/jobs/broker.go:54-78 | a fresh channel under a fresh id, or a closed one once the broker is closed |
| BrokerHub.Hub.Cancel | internal/jobs/broker.go:70-77 | removes and closes one channel; a second call changes nothing |
| BrokerHub.Hub.Close | internal/jobs/broker.go:103-116 | closes every channel once, keeping what is buffered |
| HubProtocol.SubscribeRefines | internal/jobs/broker.go:54-68 | and one step of the protocol as Subscribe does |
| HubProtocol.CancelRefines | internal/jobs/broker.go:70-77 | and one step as Cancel does, closing exactly the channel of that id |
| HubProtocol.CloseRefines | internal/jobs/broker.go:103-116 | and one step as Close does |
| BlobStore.BlobsAreWhatTheirNamesSay | internal/store/store.go:69-145 | in every interleaving of uploads, deletions, cleanups and crashes, with directory entries dropped or returning, a file at a blob path holds bytes whose digest is its name, and equal contents occupy one file |
| BlobStore.ReferencesReadBackIff | internal/store/store.go:69-179 | without collisions, a returned reference reads back its upload at every later time of every continuation that does not delete it if and only if it is in place and its directory entry has reached the disk |
| BlobStore.CommittedReferencesReadBack | internal/store/store.go:69-179 | without collisions, and if crashes lose unsynced data but no directory entry, every returned reference that is never deleted reads back its upload ever after |
| BlobStore.NewReferencesAreAtRisk | internal/store/store.go:126-145 | a Put that stores new contents always returns before the entry is on disk; a flush of the directory puts it there |
| BlobStore.CrashDrops | internal/store/store.go:126-145 | and a crash may then take the entry away |
| BlobStore.ReferencesCanBeLost | internal/store/store.go:126-145 | so some run from an empty store loses a reference that was returned |
| BlobStore.RemovedFilesMayReturn | internal/store/store.go:93-98 | whatever removes a file or puts another in its place, a crash may undo |
| BlobStore.PutsEnd | internal/store/store.go:93-98 | a Put that has returned does nothing more |
| BlobStore.StepKeepsInPlace | internal/store/store.go:126-145 | until it is deleted a blob leaves its path only to a crash that drops its entry, and never once that is on disk |
| BlobStore.DigestsStayInside | internal/store/store.go:235-264 | paths of digests consist of plain hexadecimal names, never meet an upload's path, and are distinct for distinct digests |
| BlobStore.RunsKeepStore | internal/store/store.go:80-145 | committed files, and those a crash may bring back, are synced whole uploads; temporary files hold what their upload has read |
| BlobStore.FileTree.Put | internal/store/store.go:80-145 | which blob changes, which reference is returned and what is left behind, for a fault at any step; however the upload is read, what is stored and referred to is the upload |
| BlobStore.PiecesMakeTheUpload | internal/store/store.go:99-102 | pieces put together in order are an upload exactly when they are a cutting of it |
| BlobStore.DigestsLeadInTwoLevels | internal/store/store.go:235-264 | exactly the digests have paths: the first two characters, the next two, and the digest |
| BlobStore.DeletesExactlyThat | internal/store/store.go:205-214 | deleting a digest removes its blob and nothing else |
| BlobStore.UploadsAreTemporary | internal/store/store.go:276-298 | what is cleaned up includes every upload's temporary file and no blob |
| BlobStore.FileTree.CleanTempFiles | internal/store/store.go:276-298 | removes exactly the leftover uploads that can be removed, and succeeds when none is left |
| BlobStore.CleaningRefines | internal/store/store.go:276-298 | the protocol's step leaves the same files |
| BlobStore.SoloPutRefines | internal/store/store.go:80-145 | left alone and stopped by any fault, the protocol's upload does to the files what the method does and returns a reference exactly when it does |
| Keyring.WrapsNeverRunOut | internal/keyring/keyring.go:265-302 | through additions, removals, failing saves and crashes at any step, replaced files coming back included, the wraps on disk and in memory are never empty and all hold the original key |
| Keyring.AnySecretOnDiskOpens | internal/keyring/keyring.go:194-246 | opening the file on disk gives the original key exactly when some wrap opens, whatever precedes it, and is locked otherwise |
| Keyring.ReopeningOpens | internal/keyring/keyring.go:194-246 | a process that starts anew has the original key and the file's wraps if its secret opens one, and no keyring otherwise |
| Keyring.SealedDataStaysReadable | internal/keyring/keyring.go:323-352 | data sealed at any time decrypts at every later time |
| Keyring.PassphraseWrapOpens | internal/keyring/keyring.go:396-450 | a passphrase wrap opens under its passphrase and no other |
| Keyring.ParametersAreTheWraps | internal/keyring/keyring.go:422-450 | the key of a passphrase wrap is derived from its own salt and parameters, and from none if one is missing |
| Keyring.OperationalWrapOpens | internal/keyring/keyring.go:422-473 | an operational wrap opens under every spelling of its key material and nothing else |
| Keyring.OperationalKeysAreRead | internal/keyring/keyring.go:454-473 | key material is understood in unpadded URL and in padded standard base64 alike, from 16 bytes on |
| Keyring.FreshOperationalKeysWork | internal/keyring/keyring.go:154-162 | a generated operational key is always usable |
| Keyring.SearchFindsTheKey | internal/keyring/keyring.go:219-245 | the search over good wraps finds the key if and only if one of them opens |
| Keyring.VerifyTellsTheTruth | internal/keyring/keyring.go:304-321 | a secret tests as right exactly when it would open the file on disk |
| Keyring.Open | internal/keyring/keyring.go:194-246 | the loop over the wraps returns the first key found, or why there is none, each error exactly when it applies |
| Keyring.CreatedKeyringsOpen | internal/keyring/keyring.go:166-192 | Create is refused exactly when no secret is given or the operational key is unusable; otherwise the new file opens under exactly the secrets given |
| Keyring.Ring.AddPassphrase | internal/keyring/keyring.go:265-275 | does what the protocol's steps do wherever the save stops; on success the file opens under the passphrase, otherwise the file is as it was |
| Keyring.Ring.AddOperationalKey | internal/keyring/keyring.go:277-286 | does what the protocol's steps do wherever the save stops, refusing an unusable key; on success the file opens under the key, otherwise the file is as it was |
| Keyring.Ring.RemoveWrap | internal/keyring/keyring.go:288-302 | does what the protocol's steps do wherever the save stops; refuses exactly an id no wrap has and the id of the only wrap |
| Keyring.ChangesAreExact | internal/keyring/keyring.go:265-302 | after a change that succeeds the file opens under exactly what it should: the added secret and all before it, or all that open a wrap other than the one removed; after a failed one the file is as it was |
| Keyring.SavesAreAtomic | internal/keyring/keyring.go:510-549 | a save that stops at any step replaces the file whole or leaves it |
| Keyring.RenamesFollowTheSync | internal/keyring/keyring.go:530-546 | a save is renamed into place only once it is durable |
| Keyring.CrashesLeaveAFile | internal/keyring/keyring.go:510-549 | a crash ends the process and its save; the file is the one in place or any it replaced since the directory was written out |
| Keyring.AdditionIsSafeIff | internal/keyring/keyring.go:510-549 | an added wrap stays in the file through everything but its own removal if and only if it is in the file now and in every file a crash could bring back |
| Keyring.NewAdditionsAreAtRisk | internal/keyring/keyring.go:510-549 | the rename that completes an addition does not make it safe; the directory reaching the disk does |
| Keyring.ConfirmedSecretsOpen | internal/keyring/keyring.go:288-302 | while each removal spares a wrap whose Create or addition reported success, some such secret opens the file after every step of every run |
| Keyring.SavedAdditionsAreConfirmed | internal/keyring/keyring.go:265-286 | an addition whose save succeeds counts as confirmed and is in the file |
| Keyring.RefusedRemovalsSpare | internal/keyring/keyring.go:288-302 | a refused removal changes nothing |
| Keyring.RemovalIsSafeIff | internal/keyring/keyring.go:288-302 | saving a removal leaves such a wrap on disk if and only if it spares one in memory, as it always does while no addition that failed to save is in memory |
| Keyring.LastWrapRefusalCountsFailures | internal/keyring/keyring.go:288-302 | from every keyring with one wrap, a failed addition and a removal lead to a file that opens under the secret reported as not added and no other |
| Sessions.SessionsInUseNeverExpire | internal/auth/auth.go:273-312 | with a whole-millisecond lifetime above a day, a session used in sequence with every gap below the lifetime less a day never expires |
| Sessions.OverlapIsSafeIff | internal/auth/auth.go:299-309 | with overlapping requests, whose extensions may be written late and out of order, an active session never expires if and only if the gap, the longest write delay, and a day or that delay again, whichever is longer, together fit in the lifetime |
| Sessions.FractionalLifetimesExpireInUse | internal/auth/auth.go:256-266 | with any other lifetime some session in such use does expire |
| Sessions.IdleSessionsExpire | internal/db/queries/sessions.sql:10-20 | a session idle for a full lifetime is refused |
| Sessions.DeletionIsFinal | internal/auth/auth.go:314-378 | a session ended by logout, password change or sweep is never found again, even if an earlier request's extension is still to be written |
| Sessions.SessionsComeAndGo | internal/auth/auth.go:247-324 | a run in which a session is created, used, extended and ended |
| Sessions.DeletionsAreExact | internal/db/queries/sessions.sql:10-33 | what each deletion takes from later requests: a logout its own token, a revocation its user, a sweep nothing that would still have been found |
| Sessions.SweepsAreExact | internal/db/queries/sessions.sql:32-33 | a sweep deletes exactly the sessions that have expired by its reading |
| Sessions.Service.Authenticate | internal/auth/auth.go:273-312 | finds the live session of a token or none; what it does to the table is the protocol's read and then its write |
| Sessions.AuthenticatingIsOneUse | internal/auth/auth.go:273-312 | that is one use of the session, leaves no extension behind, and does not depend on other requests under way |
| Sessions.OperationsIgnoreRequests | internal/db/queries/sessions.sql:1-33 | nor does what creation, logout, revocation and sweep do to the table |
| Sessions.Service.ChangePassword | internal/auth/auth.go:326-365 | succeeds exactly when the new password is long enough, the user exists, the old password verifies and the transaction commits; then the new password verifies and the user's sessions are gone; otherwise nothing changes, and which error says why |
| Sessions.Service.SweepExpired | internal/auth/auth.go:367-378 | deletes exactly the expired sessions and returns how many there were |
| Sessions.Service.Logout | internal/auth/auth.go:314-324 | afterwards the token is found at no instant, and every other token's session is as it was |
| Sessions.Service.CreateSession | internal/auth/auth.go:247-271 | the protocol's creation; the token finds the new session and no other, exactly until the lifetime is over |
| PasswordHash.HashRoundTrip | internal/auth/password.go:60-143 | decoding undoes printing for all parameters, salts and digests within the decoder's bounds |
| PasswordHash.DecodeHash | internal/auth/password.go:91-143 | whatever decodes is within those bounds |
| PasswordHash.FreshHashesVerify | internal/auth/password.go:46-89 | a fresh hash verifies, is not stale, and accepts another password only if the key derivation does |
| PasswordHash.StaleIffWeaker | internal/auth/password.go:70-89 | a rehash is asked for exactly when the password matches and memory or passes are below today's |
| PasswordHash.DecimalRoundTrip | internal/auth/password.go:63-67 | decimal numerals read back |
| PasswordHash.StoredFormSpelledOut | internal/auth/password.go:60-67 | the stored form in full: algorithm, version, parameters, salt and digest |
| PasswordHash.NumbersAreRead | internal/auth/password.go:107-121 | a number may follow spaces and zeros, must be below its limit and must be there; what follows is left alone |
| PasswordHash.SignedNumbersAreRead | internal/auth/password.go:107-111 | the version may carry a sign, within 64 bits |
| PasswordHash.ParamsRoundTrip | internal/auth/password.go:114-121 | parameters read back whatever follows them |
| PasswordHash.PrintedFields | internal/auth/password.go:101-106 | no printed field contains the separator, so splitting recovers the fields |
| Base64.RawRoundTrip | internal/auth/password.go:127-134 | unpadded base64 decodes to what was encoded, for both alphabets |
| Base64.EncodedTextIsClean | internal/auth/password.go:65-66 | encoded text contains no separator, padding or line break |
| Base64.RawDecodesIff | internal/auth/password.go:127-134 | unpadded text decodes exactly when, line breaks aside, it is of the alphabet with no single character left over |
| Base64.PaddedRoundTrip | internal/keyring/keyring.go:454-473 | padded decoding undoes padded encoding and insists on the padding |
| Base64.CharsFollowTheTables | internal/auth/password.go:65-66 | characters and values follow tables 1 and 2 of RFC 4648 |
| Base64.SplitKeepsTheNumber | internal/auth/password.go:65-66 | three bytes and the four characters they become are one number, most significant first |

## Left out

- SQLite, connection pools and transactions: each statement is one atomic step; writes that fail for reasons other than a constraint appear as crashes of the execution that issued them.
- Protocol.Renew: a heartbeat handed to the database before its execution ended but committed after it is not a step of the model.
- Clocks are monotone and read once per action; the lease renewal's second clock reading for its update time is the same reading.
- ProtocolInvariant.UsageIsConserved: token counts are unbounded integers, so the overflow error of a 64-bit column is not modelled.
- Progress fractions are real numbers; NaN, which the column would refuse, is not modelled.
- Payload encoding, listing, counting and the order of the active list: settled by reading one query.
- Handlers are known by what they report and return; panics count as returned errors.
- BlobStore: temporary names never repeat, also after a crash.
- BlobStore.ReferencesReadBackIff: the hash is a parameter, and freedom from collisions is assumed for the contents uploaded in the run.
- Keyring: cryptography is symbolic, with no claim about secrecy or time; wrap ids, salts and nonces are given, and the process is taken to be the only writer of the file.
- Keyring: the first save is taken to have reached the disk, directory included, when a run begins.
- Keyring: Create over an existing file, which replaces the data key, is outside the runs modelled; they begin when Create has saved.
- Sessions.OverlapIsSafeIff: a request reads its session at the instant it read the clock, and every extension is written in the end.
- PasswordHash: of the spaces a number may follow, those beyond Latin-1 are not skipped; argon2 is a function parameter.
- HTTP, cookies, logging, configuration, first-run setup, login and its opportunistic rehash, and the web client.
