# PulseOps: a verified model

PulseOps is a monitoring pipeline. A leader-elected scheduler claims due
monitors and sends them to a pool of Go workers; a Kafka consumer feeds the
results into a machine over monitor status, failure counter and incidents; a
retention job and the SLA endpoint read what was stored. This project models
the pipeline's protocols and its algorithmic cores and proves what they keep
over every run. `dafny verify dfyconfig.toml` checks it.

| module | what it models |
|---|---|
| `WorkerPool` | goroutines, the two bounded channels and the ordered shutdown of the ping engine, as interleaved steps |
| `WorkerVerdicts` | which results the writer is handed, verdict by verdict |
| `MonitorEngine` | what a result, a beat, a missed beat or a user action does to a monitor's rows; the transaction that is run again after a unique violation |
| `CheckVerdicts` | the same, column by column and case by case |
| `IncidentHistory` | what holds of these rows over whole runs |
| `Analytics` | the 30-day uptime figure against the measure of downtime |
| `MetricsConsumer` | the results consumer: markers, offsets, crashes, redelivery |
| `Retention` | daily summaries that stay true to rows being deleted |
| `Scheduler` | the claim, its release, and the two claim columns against the history |
| `LeaderLock` | the lease that is set with NX, never renewed and released by compare-and-delete |
| `StatusSpec` | the expected-status matcher in Go and in TypeScript, against what a list of codes, classes and ranges means |
| `StatusGrammar` | the schema's regular expression, and that it accepts exactly the texts of such lists |
| `BrailleChart` | the braille line chart of the terminal UI |
| `BrailleGeometry` | where the chart puts its dots: Unicode numbering, straight lines, nearest rows |
| `CircuitBreaker` | direct sends, the breaker and the retry queue of one notification channel |
| `BreakerHistory` | the stored counter and deadline against the sends made so far |
| `StatusPage` | the public status page behind its cache |
| `PageContents` | what a page says, read off the monitors it shows |
| `Workspaces` | owners, members and invites |
| `WorkspaceRequests` | what each request does, read off the rows it finds |
| `Common` | optional columns, maximum, minimum, lower case |

Code that changes rows, keys, grids or local variables is written as classes,
methods and loops; each method is proved equal to a function of the old state,
and the lemmas are about these functions over all runs. One transaction, one SQL
statement or one Redis command is one step; handlers and sweep items are atomic,
except that a result handler may act on rows it read earlier (`seen`,
`activeSeen` in `MonitorEngine.CheckEffect`) and that every statement of the
retention job is a step of its own, any of which may throw. Time is an integer of milliseconds passed in
by the caller; what the network, the clock or a mail server does is a parameter.

## Where code and comments disagree

The model follows the code. Each of these is stated as a lemma that says exactly
when the promise is kept.

- `metrics.consumer.ts:146-148` says that a result whose apply failed is
  redelivered instead of lost. The marker is written before the apply, so the
  redelivered message is skipped (`FailedApplyIsNeverRetried`); what is applied is
  one in-order pass over the first occurrences if and only if no failure falls
  between a marker and its apply (`OnePassIffNoFailureAfterMarker`), and there is
  a run that commits a result without applying it (`LosingRunLosesTheResult`).
- `metrics.consumer.ts:103-104` parks what cannot be parsed, so that it does not
  block the partition. The JSON text `null` parses, throws in line 33 before any
  marker and again in line 150, and stops the partition for good
  (`NullStopsThePartition`).
- A missed heartbeat of a monitor that still has an active incident is rolled
  back as a whole by the unique index, and nothing catches it there
  (`OverdueIsFlaggedIff`). After pause and resume during an outage the monitor
  therefore stays UP (`ResumedOutageStaysUp`, and a whole run in
  `PausedOutageEndsUp`).
- `monitor.engine.ts:474-477` says that a beat resolves any open incident. Line 214
  resolves only what is DOWN or DEGRADED: healthy results resolve the active
  incident if and only if the monitor shows one of the two when they begin
  (`RecoveryResolvesIff`). After pause and resume, or a result inside a maintenance
  window, the incident stays open through the whole recovery
  (`ResumedOutageIsNeverResolved`).
- An outage gets an incident if and only if the check that reaches the threshold
  runs outside maintenance (`OutageOpensIncidentIff`).
- A result that lands inside a maintenance window leaves the monitor PAUSED.
  After the window ticks claim it again if and only if a result has landed since
  that is healthy or reaches the threshold (`ChecksResumeIff`); ticks alone never
  do (`NoTickAfterMaintenance`).
- `retention.ts:24-28` calls the roll-up safe to repeat. Over a run it is, if and
  only if no roll-up finds a finished day that is half deleted
  (`HistoryIsTrueIff`). A prune that may stop at its batch cap, or by an error,
  is safe for every choice LIMIT can make if and only if all eligible rows fit or
  no two of them are of one monitor and day (`PruneIsSafeIff`); otherwise the
  deleted checks are missing from the next summary (`DeletedChecksAreMissing`).
- `leader-lock.ts:15` says that a holder can only release its own lock. The
  identity is the process: every job within its lease keeps its lock if and only
  if no process releases while another of its jobs is within its lease
  (`LockIsHeldIff`), and there is a run in which that fails
  (`OverstayingJobReleasesItsSuccessor`).
- The schema and the TypeScript matcher accept U+FEFF as white space, the Go
  matcher does not (`GoAndTsAgreeIff`, `MarkedSpecDisagrees`).
- Deleting a workspace cascades to its status page but not to the cache: the
  page stays visible until its entry expires exactly if it was cached
  (`DeletedWorkspaceStaysVisibleIff`, and a whole run in
  `FarewellIsStillShown`). It is the only way to an answer without a
  page (`EveryAnswerIsCurrent`).

## Model

| member | source | states |
|---|---|---|
| WorkerPool.WorkerCount | workers/ping-engine/main.go:43-47 | there is always at least one worker: as many as configured, or 20 if that is not positive |
| WorkerPool.StepKeepsBalance | workers/ping-engine/main.go:71-174 | no step of any goroutine loses or duplicates an accepted target, counted over queue, workers, results, batch, writer and unencodable results |
| WorkerPool.StepKeepsInvariant | workers/ping-engine/engine/dispatcher.go:26-48 | every step keeps the close order (reader gone before TargetChan closes, workers gone before ResultChan closes), the drained channels and the bounds |
| WorkerPool.PoolIsSafe | workers/ping-engine/main.go:71-174 | in every interleaving each accepted target is in exactly one place, no send hits a closed channel, nothing is closed twice, and channels and batches stay within 1000 and 100 |
| WorkerPool.DrainHandsOverEverything | workers/ping-engine/main.go:176-196 | when the drain completes, every accepted target has exactly one result with the writer (or was not encodable), in batches of 1 to 100, and all workers are gone |
| WorkerPool.StepUsesUpWork | workers/ping-engine/main.go:71-196 | every step except a retried read while serving strictly lowers the work left |
| WorkerPool.ServingIsNotStuck | workers/ping-engine/engine/worker.go:202-204 | while an accepted target is not handed over, a goroutine can move without the outside world |
| WorkerPool.ServingSettles | workers/ping-engine/main.go:71-174 | without a new message, a read error or the signal no run is longer than the work left, and where nothing else can happen every accepted target is handed over or was not encodable |
| WorkerPool.DrainingIsNotStuck | workers/ping-engine/main.go:190-196 | after the signal some goroutine can move until the drain is complete |
| WorkerPool.ShutdownTerminates | workers/ping-engine/main.go:176-196 | after the signal no run is longer than the work left, and a run that cannot continue has completed the drain |
| WorkerVerdicts.VerdictsAreKept | workers/ping-engine/main.go:84-95 | over every run each verdict a probe ended with is in one place; what was dropped could not be encoded, and every handed result could |
| WorkerVerdicts.DrainHandsOverEveryVerdict | workers/ping-engine/main.go:71-174 | after the drain the writer has had each encodable result exactly as often as a probe ended with it, verdict included, and no other |
| WorkerVerdicts.DrainHandsOverEveryTarget | workers/ping-engine/main.go:176-196 | if every probe of the run ends encodable, a complete drain has handed over exactly one result for every accepted target |
| WorkerVerdicts.TargetsAreAcceptedInOrder | workers/ping-engine/engine/dispatcher.go:26-48 | targets are accepted in the order read, once each, corrupt ones passed over; only the one on offer when the reader stops may be given up |
| WorkerVerdicts.Capacities | workers/ping-engine/engine/dispatcher.go:20-21 | the reader waits exactly at 1000 queued targets, a worker exactly at 1000 queued results |
| MonitorEngine.ResolveAll | backend/src/modules/monitors/monitor.engine.ts:298-311 | exactly the active incidents become resolved, now, and nothing else changes |
| MonitorEngine.TransactionAfterTwo | backend/src/modules/monitors/monitor.engine.ts:250-280 | the check insert and the monitor update never fail, so a transaction is decided by what follows them |
| MonitorEngine.LandCheck | backend/src/modules/monitors/monitor.engine.ts:250-332 | with or without a unique violation the same check row and monitor row land; an incident is opened exactly if none is active |
| MonitorEngine.Judge | backend/src/modules/monitors/monitor.engine.ts:186-247 | the chain of assignments sets status, counter, alarm, title and recovery as the cases of health, threshold and maintenance say |
| MonitorEngine.Database.ApplyCheckResult | backend/src/modules/monitors/monitor.engine.ts:173-332 | the whole effect of a result on the three tables, certificate columns included, for any row version the handler had read |
| MonitorEngine.Database.RecordHeartbeat | backend/src/modules/monitors/monitor.controller.ts:313-325 | a beat is refused for other types and paused monitors; otherwise it is stored and acts as an UP result with the stored certificate days |
| MonitorEngine.Database.ApplyHeartbeatMiss | backend/src/modules/monitors/monitor.engine.ts:509-556 | a miss pauses in maintenance, skips a DOWN monitor, and otherwise writes all three rows or, if an incident is active, none |
| MonitorEngine.Database.SweepHeartbeats | backend/src/modules/monitors/heartbeat.scheduler.ts:10-33 | one sweep treats every monitor by itself: overdue active ones that are not DOWN are missed, a failed one does not stop the rest, all others are untouched |
| MonitorEngine.Database.AcknowledgeIncident | backend/src/modules/incidents/incident.service.ts:66-118 | only an active incident is acknowledged, with its actor and time; nothing else changes |
| MonitorEngine.Database.ResolveIncident | backend/src/modules/incidents/incident.service.ts:136-187 | only an active incident is resolved, now; the monitor row is untouched |
| CheckVerdicts.OfflineGoesDown | backend/src/modules/monitors/monitor.engine.ts:222-254 | outside maintenance a result that is not up and reaches the threshold stores DOWN, in the monitor and in its check row |
| CheckVerdicts.BadCertificateDegrades | backend/src/modules/monitors/monitor.engine.ts:192-254 | one that is up with an invalid certificate, or with no more days left than the warning limit (7 unless set), stores DEGRADED in both |
| CheckVerdicts.HealthyGoesUp | backend/src/modules/monitors/monitor.engine.ts:210-221 | one that is up with nothing wrong stores UP in both and clears the counter |
| CheckVerdicts.BelowThresholdOnlyCounts | backend/src/modules/monitors/monitor.engine.ts:222-247 | below the threshold status and incidents stay and the counter goes up by one |
| CheckVerdicts.MaintenancePauses | backend/src/modules/monitors/monitor.engine.ts:195-247 | inside the window, ends included, every result leaves the monitor PAUSED and still counts |
| CheckVerdicts.ResultIsBooked | backend/src/modules/monitors/monitor.engine.ts:258-280 | every result ends the claim, makes the monitor due one interval on, stores what it says, and keeps every other column |
| CheckVerdicts.ThresholdOpensIncident | backend/src/modules/monitors/monitor.engine.ts:225-247 | the result that reaches the threshold opens one incident, whose title names error, code, certificate fault or days left |
| CheckVerdicts.OnlyTheThresholdOpens | backend/src/modules/monitors/monitor.engine.ts:282-296 | a failing result past the threshold, in maintenance or with an incident active leaves the incidents as they are |
| CheckVerdicts.RecoveryResolves | backend/src/modules/monitors/monitor.engine.ts:298-311 | a healthy result for a DOWN or DEGRADED monitor resolves what is active, now, and changes nothing else of any incident |
| CheckVerdicts.BeatIsUp | backend/src/modules/monitors/monitor.engine.ts:478-498 | a beat outside maintenance stores its time and an UP result with code 200 and no latency, unless the stored certificate days have reached the limit |
| CheckVerdicts.MissIsBooked | backend/src/modules/monitors/monitor.engine.ts:518-556 | a miss stores DOWN, the counter at the threshold, a DOWN row, and an incident that tells the seconds since the last beat to the nearest |
| CheckVerdicts.SweepPassesOver | backend/src/modules/monitors/heartbeat.scheduler.ts:10-33 | a sweep leaves alone what is no heartbeat monitor, paused, DOWN, or within interval and grace of its last beat |
| CheckVerdicts.PauseAndResumeKeepTheRest | backend/src/modules/monitors/monitor.service.ts:296-352 | pause and resume change status and activity only; counter, incidents and checks stay |
| CheckVerdicts.UserActionsOnIncident | backend/src/modules/incidents/incident.service.ts:66-187 | acknowledging and resolving write actor and time into the one incident, unless it is resolved, and no other |
| IncidentHistory.EventKeepsWellTimed | backend/src/modules/monitors/monitor.engine.ts:282-332 | every event keeps the incidents in sequence, each resolved before the next starts, and never touches a resolved one |
| IncidentHistory.IncidentsNeverOverlap | backend/prisma/migrations/20260726090000_scale_checks_rollups_and_scheduling/migration.sql:97-99 | over every run, with stale reads, at most one incident is active and no instant lies in two incidents |
| IncidentHistory.ResolvedIncidentsNeverChange | backend/src/modules/incidents/incident.service.ts:164-175 | what is resolved at some point of a run is the same at every later point |
| IncidentHistory.StepKeepsAgreement | backend/src/modules/monitors/monitor.engine.ts:202-311 | checks, beats, misses and acknowledgements keep status, counter and incident in agreement |
| IncidentHistory.StatusCounterAndIncidentAgree | backend/src/modules/monitors/monitor.engine.ts:202-311 | without maintenance, pause or manual resolve: DOWN or DEGRADED iff the counter reached the threshold iff an incident is active, otherwise UP with none |
| IncidentHistory.HeartbeatState | backend/src/modules/monitors/monitor.engine.ts:478-556 | what beats and sweeps leave stored stands for the history: the last beat, and DOWN only past its deadline |
| IncidentHistory.SweepVerdictIsExact | backend/src/modules/monitors/heartbeat.scheduler.ts:10-33 | right after a sweep at t the monitor is DOWN, with an active incident, iff t is past the last beat (or creation) plus interval plus grace |
| IncidentHistory.LaterSweepsAddNothing | backend/src/modules/monitors/monitor.engine.ts:504-530 | no number of further sweeps changes a DOWN monitor or opens another incident |
| IncidentHistory.OverdueIsFlaggedIff | backend/src/modules/monitors/monitor.engine.ts:535-556 | an overdue monitor is flagged by the sweep iff it has no active incident left |
| IncidentHistory.ResumedOutageStaysUp | backend/src/modules/monitors/monitor.service.ts:341-349 | after pause and resume during an outage the monitor shows UP at every later sweep |
| IncidentHistory.PausedOutageEndsUp | backend/src/modules/monitors/monitor.service.ts:341-349 | a run of a new heartbeat monitor that is missed, paused and resumed: it ends overdue with an open incident, and UP |
| IncidentHistory.RecoveryResolvesIff | backend/src/modules/monitors/monitor.engine.ts:210-221 | healthy results resolve the active incident iff the monitor shows DOWN or DEGRADED when they begin; otherwise the incidents stay as they were |
| IncidentHistory.ResumedOutageIsNeverResolved | backend/src/modules/monitors/monitor.service.ts:341-349 | after pause and resume during an outage no number of healthy results changes any incident |
| IncidentHistory.OutageState | backend/src/modules/monitors/monitor.engine.ts:222-247 | after any number of failing checks, from any quiet state and with any maintenance window: the counter is their number, past the threshold and outside maintenance the status is DEGRADED if the last was up and DOWN if not, and at most one incident was opened |
| IncidentHistory.OutageOpensIncidentIff | backend/src/modules/monitors/monitor.engine.ts:225-247 | any outage opens one incident iff its threshold check is outside maintenance; the monitor is DOWN or DEGRADED either way |
| Analytics.OneMoreIncident | backend/src/modules/monitors/monitor.analytics.ts:49-53 | the clipped duration of one more incident is exactly the milliseconds it adds to the downtime |
| Analytics.DowntimeFitsWindow | backend/src/modules/monitors/monitor.analytics.ts:34-35 | downtime never exceeds the window |
| Analytics.UptimeIsAFraction | backend/src/modules/monitors/monitor.analytics.ts:55 | uptime lies in [0, 1] |
| Analytics.UptimeFigures | backend/src/modules/monitors/monitor.analytics.ts:30-55 | the looped sum is the number of milliseconds of the last thirty days with an incident active, the outages are the incidents that overlap them, and the outer clamp never acts |
| Analytics.EngineIncidentsAreDisjoint | backend/src/modules/monitors/monitor.engine.ts:282-332 | the hypothesis of the figures holds of every run of the engine |
| MetricsConsumer.StepKeepsInvariant | backend/src/modules/telemetry/metrics.consumer.ts:91-159 | every step, crash and redelivery keeps markers, offsets and the record of applied and lost results consistent |
| MetricsConsumer.RedeliveryAppliesInOrderOnce | backend/src/modules/telemetry/metrics.consumer.ts:28-44 | for every schedule, results are applied in offset order, first occurrences only, one per (target, timestamp), and the tables are the fold over them |
| MetricsConsumer.LosesNothingIff | backend/src/modules/telemetry/metrics.consumer.ts:143-154 | a result that counts is lost iff a failure fell between a marker and its apply |
| MetricsConsumer.ExactlyOnceIffNoFailureAfterMarker | backend/src/modules/telemetry/metrics.consumer.ts:111-155 | every first occurrence for an active monitor is applied iff no failure fell between a marker and its apply |
| MetricsConsumer.OnePassIffNoFailureAfterMarker | backend/src/modules/telemetry/metrics.consumer.ts:83-159 | the applied offsets are exactly the first occurrences read so far, in order, with the tables their fold, iff no failure fell between a marker and its apply |
| MetricsConsumer.FailedApplyIsNeverRetried | backend/src/modules/telemetry/metrics.consumer.ts:145-154 | after a failed apply no message with its key is applied in any continuation |
| MetricsConsumer.LosingRunLosesTheResult | backend/src/modules/telemetry/metrics.consumer.ts:111-159 | for any result of any active monitor, a run of marker, failed apply and redelivery that commits it unapplied |
| MetricsConsumer.NullStopsThePartition | backend/src/modules/telemetry/metrics.consumer.ts:99-155 | a JSON null is never resolved, and nothing behind it is ever applied, in any run |
| MetricsConsumer.PartitionConsumer.EachBatch | backend/src/modules/telemetry/metrics.consumer.ts:83-160 | a batch is a run of the step machine, resolves a prefix, and if nothing fails resolves all of it, or throws iff it holds a null |
| MetricsConsumer.PartitionConsumer.HandleMessage | backend/src/modules/telemetry/metrics.consumer.ts:94-115 | messages without value, unparseable ones and duplicates are resolved unapplied, a null throws; the rest win their marker first |
| MetricsConsumer.PartitionConsumer.HandleMarked | backend/src/modules/telemetry/metrics.consumer.ts:117-154 | a marked result is applied or skipped and resolved, or fails and stays unresolved |
| MetricsConsumer.FirstsAre | backend/src/modules/telemetry/metrics.consumer.ts:28-44 | the one pass consists of the results for active monitors that have no earlier message of the same target and timestamp |
| MetricsConsumer.InactiveIsUntouched | backend/src/modules/telemetry/metrics.consumer.ts:119-126 | no run applies a result for a monitor that is inactive or gone, or changes its rows |
| MetricsConsumer.OneCheckRowPerApplication | backend/src/modules/telemetry/metrics.consumer.ts:117-145 | the check log of a monitor grows by exactly one row for each result applied to it, in order, with its code, response time and moment |
| Retention.PickUpTo | backend/src/modules/telemetry/retention.ts:84-92 | a limited selection has as many rows as there are up to the limit |
| Retention.RollUpStaysTrue | backend/src/modules/telemetry/retention.ts:29-69 | if no finished day is half deleted, the roll-up leaves every summary true |
| Retention.ShortBatchFinishes | backend/src/modules/telemetry/retention.ts:96-97 | after a short batch no eligible row remains and no day is half deleted |
| Retention.NoHistoryIsLost | backend/src/modules/telemetry/retention.ts:29-112 | over runs in which no prune stopped half way, with inserts, midnights and errors between any two statements: of every check ever recorded that day, each summary holds the number, the numbers UP, DOWN and DEGRADED, and the response times of those UP; and no row is gone without a summary |
| Retention.HistoryIsTrueIff | backend/src/modules/telemetry/retention.ts:29-112 | over every run, with capped and aborted prunes, all summaries are true all along iff no roll-up finds a half-deleted day |
| Retention.PruneIsSafeIff | backend/src/modules/telemetry/retention.ts:80-98 | whichever rows LIMIT picks, every summary is true after the next roll-up iff all eligible rows fit or no two of them share a (monitor, day) |
| Retention.DeletedChecksAreMissing | backend/src/modules/telemetry/retention.ts:55-65 | if a prune leaves a check of a day, exactly the deleted checks of that day are missing from its next summary |
| Retention.RetentionJob.DeleteUpTo | backend/src/modules/telemetry/retention.ts:81-94 | one batch deletes that many eligible rows, rolled up and past the window, and nothing else |
| Retention.RetentionJob.PruneOldChecks | backend/src/modules/telemetry/retention.ts:77-101 | the count returned is exactly the rows removed, wherever a statement throws; the loop ends early, leaving no eligible row, iff there were fewer rows than its batches can take |
| Retention.RetentionJob.RunRetentionCycle | backend/src/modules/telemetry/retention.ts:103-112 | a cycle keeps summaries true to history, and if it removed less than its batches can take, no expired check of a finished day is left |
| Retention.RollUpCoversFinishedDays | backend/src/modules/telemetry/retention.ts:36-54 | the roll-up gives every finished day that has checks a summary, and no unfinished one |
| Scheduler.DispatchScheduler.DispatchDueMonitors | backend/src/modules/monitors/monitor.scheduler.ts:54-130 | exactly the due monitors are claimed, none of them inactive or waiting for beats; a failed send releases all of them unless the release fails too, and the readiness timestamp moves only on success |
| Scheduler.HistoryState | backend/src/modules/monitors/monitor.engine.ts:260-271 | the columns stand for the history, and claims in it are spaced, after any interleaving of ticks, results and releases |
| Scheduler.ColumnsStandForHistory | backend/src/modules/monitors/monitor.scheduler.ts:54-76 | for any maintenance window and any failed sends: nextCheckAt and dispatchedAt stand for the last claim, result or release, and a tick claims iff the monitor is active and no heartbeat monitor, the time has come, an unanswered claim is more than five minutes old, and it is not held PAUSED outside its window |
| Scheduler.ClaimsAreAnIntervalApart | backend/src/modules/monitors/monitor.scheduler.ts:50-57 | a claim that does not directly follow a release is an interval after every earlier one, however many replicas tick |
| Scheduler.ReleasedIsClaimableAgain | backend/src/modules/monitors/monitor.scheduler.ts:119-127 | a released row is claimable from the release on iff, if PAUSED, it is still in maintenance |
| Scheduler.ChecksResumeIff | backend/src/modules/monitors/monitor.scheduler.ts:70-73 | after the window of a held monitor a tick claims it, when due, iff it is active, no heartbeat monitor, and a result has landed since that is healthy or reaches the threshold |
| Scheduler.NoTickAfterMaintenance | backend/src/modules/monitors/monitor.scheduler.ts:70-73 | whatever the monitor was before, once left PAUSED by a maintenance window it is claimed by none of any number of later ticks |
| Scheduler.OthersAreNeverClaimed | backend/src/modules/monitors/monitor.scheduler.ts:61-75 | from any state and over every run, a heartbeat monitor or an inactive one is never claimed |
| Scheduler.NotDueIff | backend/src/modules/monitors/monitor.scheduler.ts:61-75 | a tick passes a row over iff it is inactive, waits for beats, is not yet due, was claimed five minutes ago or less, or is PAUSED outside its window |
| LeaderLock.LeaseIsExclusive | backend/src/lib/leader-lock.ts:36-62 | if every invocation finishes within its lease, no two overlap, over any number of processes |
| LeaderLock.LockExpiresAndReleaseIsOwn | backend/src/lib/leader-lock.ts:18-26 | the key is free within one time to live of the last acquire, and a release never removes the lock of another process |
| LeaderLock.LockIsHeldIff | backend/src/lib/leader-lock.ts:15-26 | over every run, jobs within their lease hold the key throughout iff no process releases while another of its jobs is within its lease |
| LeaderLock.InTimeJobsExclude | backend/src/lib/leader-lock.ts:36-62 | jobs may overstay: if none releases while another job of its process is within its lease, those within their lease exclude each other |
| LeaderLock.OneAtATimeSuffices | backend/src/lib/leader-lock.ts:36-62 | a process that never starts a job beside its own never releases a successor's lock |
| LeaderLock.OverstayingJobReleasesItsSuccessor | backend/src/lib/leader-lock.ts:15-16 | for every positive time to live, a run that releases a successor's lock, after which two jobs overlap well within their leases |
| LeaderLock.LockClient.TryAcquire | backend/src/lib/leader-lock.ts:43-51 | the lock is won iff Redis answers and no unexpired key exists |
| LeaderLock.LockClient.Release | backend/src/lib/leader-lock.ts:20-26 | the key is deleted iff it is unexpired and holds this process |
| LeaderLock.LockByTheKey | backend/src/lib/leader-lock.ts:36-62 | step by step: what a try and a release do to the key, in every case of it |
| StatusSpec.GoStatusMatches | workers/ping-engine/engine/worker.go:42-78 | the Go loop with its early returns decides whether some part of the list reads as the code |
| StatusSpec.SplitOfTrim | backend/src/modules/monitors/probes.ts:148-152 | trimming the whole spec first changes no trimmed part |
| StatusSpec.SplitOfJoin | backend/src/modules/monitors/probes.ts:151 | splitting at commas undoes joining with commas |
| StatusSpec.TsMatchesMeaning | backend/src/modules/monitors/probes.ts:147-166 | for every spec the schema accepts, in any spacing and case, TypeScript matches exactly the codes some item denotes |
| StatusGrammar.SchemaAcceptsSpecTexts | backend/src/modules/monitors/monitor.schema.ts:77-83 | the regular expression accepts a string iff it is the text of some list of items |
| StatusGrammar.AcceptedSpecsAgree | backend/src/modules/monitors/monitor.schema.ts:77-83 | on every string the regular expression accepts that is free of U+FEFF, Go and TypeScript agree on every code |
| StatusSpec.GoMatchesMeaning | workers/ping-engine/engine/worker.go:42-78 | Go matches exactly the codes some item without U+FEFF denotes |
| StatusSpec.GoAndTsAgreeIff | backend/src/modules/monitors/monitor.schema.ts:77-83 | on an accepted spec both agree on every code iff the items Go skips denote nothing new |
| StatusSpec.GoAndTsAgree | backend/src/modules/monitors/monitor.schema.ts:77-83 | with any other white space, and on the empty spec, both agree |
| StatusSpec.MarkedSpecDisagrees | backend/src/modules/monitors/monitor.schema.ts:77-83 | an accepted spec on which they differ |
| StatusSpec.BlankSpecFallsBack | backend/src/modules/monitors/probes.ts:147-149 | without a spec, or with a blank one, both matchers accept the expected code alone, and 200 if it is 0 |
| StatusSpec.SpaceInBoth | workers/ping-engine/engine/worker.go:43-50 | what is white space in ASCII, and the two characters on which the languages differ |
| BrailleChart.LightingOneDot | cli/src/tui/format.ts:88-93 | setting a dot's bit lights that dot and no other of its cell |
| BrailleChart.CellRoundTrip | cli/src/tui/format.ts:158-160 | a cell's character decodes to its dots |
| BrailleChart.Plot | cli/src/tui/format.ts:138-143 | plot lights exactly one dot of the grid, or none if it is outside |
| BrailleChart.PlotRun | cli/src/tui/format.ts:154-155 | the inner loop lights exactly one vertical run |
| BrailleChart.Render | cli/src/tui/format.ts:102-161 | decoding the rows gives exactly the union of the vertical runs, and every character is a cell of the grid |
| BrailleChart.HigherIsHigherUp | cli/src/tui/format.ts:117-136 | higher values are drawn higher, the lowest on the bottom row, the highest on the top row |
| BrailleChart.LineStaysInside | cli/src/tui/format.ts:123-136 | the interpolated line never leaves the dot rows |
| BrailleChart.NoDotIsDropped | cli/src/tui/format.ts:138-143 | the bounds guard drops no dot of a run iff the chart has a row and a column |
| BrailleChart.NeighboursAreJoined | cli/src/tui/format.ts:145-157 | neighbouring columns that are not gaps share a dot row, and each run is unbroken |
| BrailleChart.EndsShowEndValues | cli/src/tui/format.ts:123-133 | the first and last column show the first and last value |
| BrailleGeometry.CellsAreUnicode | cli/src/tui/format.ts:88-93 | dot d of a cell is bit d - 1 above U+2800, as The Unicode Standard numbers the dots; no dots is a space |
| BrailleGeometry.StraightStaysStraight | cli/src/tui/format.ts:123-133 | samples on a straight line are drawn on that line, column by column |
| BrailleGeometry.GapsAreShown | cli/src/tui/format.ts:123-133 | a column is a gap iff both samples beside it are missing; if one is, the other is shown |
| BrailleGeometry.DrawnAtItsPlace | cli/src/tui/format.ts:117-136 | a value is drawn on the row nearest to its place between the lowest and highest sample |
| CircuitBreaker.NotificationChannel.DispatchNotification | backend/src/modules/notifications/notification.dispatch.ts:35-137 | an inactive or benched channel is not sent to; a success closes the breaker; a failure counts, and either queues a retry or trips |
| CircuitBreaker.NotificationChannel.RetryDelivery | backend/src/workers/webhook.worker.ts:19-76 | a retry of an inactive or benched channel is dropped unsent; otherwise one attempt is used, and a success closes the breaker |
| CircuitBreaker.OpenIffTenFailures | backend/src/modules/notifications/notification.dispatch.ts:82-113 | in every run disabledUntil is null iff failureCount is below 10 |
| CircuitBreaker.OutageState | backend/src/modules/notifications/notification.dispatch.ts:87-136 | the state of a channel that only fails: sends, jobs and cooldowns so far |
| CircuitBreaker.DeadChannelIsLeftAlone | backend/src/modules/notifications/notification.dispatch.ts:18-22 | in a time T of failures only: at most 10 + floor(T / 1 h) direct sends, 9 queued jobs and 45 retry sends |
| CircuitBreaker.BoundsAreReached | backend/src/modules/notifications/notification.dispatch.ts:18-22 | for every whole number of hours one outage reaches all three bounds |
| BreakerHistory.ChannelTellsItsHistory | backend/src/modules/notifications/notification.dispatch.ts:81-136 | in every run failureCount is the number of failed direct sends since the last delivery or edit; from ten on, and only then, the channel is benched until an hour after its last send; activity, last delivery and queued jobs match the history too |
| BreakerHistory.DeliveryAndEditClose | backend/src/modules/notifications/notification.service.ts:84-171 | right after a delivered send, retry or test, or an edit, the counter is 0 and disabledUntil null |
| BreakerHistory.SendsIff | backend/src/modules/notifications/notification.dispatch.ts:35-80 | a notification is sent iff the channel is switched on and not within an hour of the last of ten or more failures |
| BreakerHistory.RetriesIff | backend/src/workers/webhook.worker.ts:26-76 | a retry is sent under the same condition; delivery, the fifth attempt or not being sent ends the job, and no other job changes |
| StatusPage.StepKeepsCoherence | backend/src/modules/status/status-page.service.ts:61-153 | edits, renames, deletions, slug reuse, views, monitor changes and workspace deletions keep every cache entry current for the page of its slug, unless no page has the slug |
| StatusPage.CachedFromThePast | backend/src/modules/status/status.routes.ts:172-188 | a cached body was rendered from the monitors as they were at its generation time |
| StatusPage.OrphansAreLeftByDeletion | backend/src/modules/workspaces/workspace.service.ts:124-126 | a cache entry whose slug no page has was current when a workspace deletion took its page |
| StatusPage.EveryAnswerIsCurrent | backend/src/modules/status/status.routes.ts:22-93 | a page is shown iff it is public now, with its current title, description and entries, and monitor data less than 30 000 ms old; without a page the only answer is one that young which a workspace deletion left |
| StatusPage.DeletedWorkspaceStaysVisibleIff | backend/src/modules/workspaces/workspace.service.ts:114-127 | the page of a deleted workspace still answers iff it is in the cache |
| StatusPage.FarewellIsStillShown | backend/src/modules/workspaces/workspace.service.ts:124-126 | for any public page without monitors, a run of publishing, viewing and deleting the workspace after which the page is still shown |
| StatusPage.StatusPages.FindBySlug | backend/src/modules/status/status-page.service.ts:89-92 | a page is found iff one has the slug |
| StatusPage.StatusPages.UpsertStatusPage | backend/src/modules/status/status-page.service.ts:61-138 | refused iff a monitor is foreign or repeated or the slug is another workspace's; otherwise the page is replaced and the old and new slug leave the cache |
| StatusPage.StatusPages.DeleteStatusPage | backend/src/modules/status/status-page.service.ts:140-153 | the page and its cache entry go together |
| StatusPage.StatusPages.ViewPage | backend/src/modules/status/status.routes.ts:22-193 | a view answers from the cache or renders and stores for 30 s; a missing and an unpublished page are both refused and not cached |
| PageContents.ShowsOne | backend/src/modules/status/status.routes.ts:77-183 | an entry shows its monitor iff that exists and is active, under its alias or its own name |
| PageContents.ShowsInOrder | backend/src/modules/status/status.routes.ts:77-183 | entries are shown one after the other, in the order of the page |
| PageContents.FiguresCount | backend/src/modules/status/status.routes.ts:77-183 | the four figures are the sizes of the sets of shown monitors they are named after |
| PageContents.PageTells | backend/src/modules/status/status.routes.ts:77-183 | major outage iff everything shown is DOWN outside maintenance, partial iff some is, maintenance iff nothing is and some monitor is in its window, otherwise operational; with its own title and description |
| PageContents.EditLandsIff | backend/src/modules/status/status-page.service.ts:61-138 | an edit replaces the page and drops the old and new slug from the cache iff its monitors are its own and distinct and its slug is free; otherwise nothing changes |
| PageContents.DeletionTakesPage | backend/src/modules/status/status-page.service.ts:140-152 | a deletion takes the page and its cache entry and leaves the others |
| Workspaces.StepKeepsSound | backend/src/modules/workspaces/invite.controller.ts:137-204 | every request keeps: no dangling member or invite, no invite for OWNER, use counts within caps, one pending invite per workspace and address |
| Workspaces.OnlyItsOwnerEndsIt | backend/src/modules/workspaces/member.controller.ts:55-65 | a workspace ends iff its owner deletes it or the account, and until then its owner stays its only owner |
| Workspaces.TheFounderOwnsIt | backend/src/modules/workspaces/workspace.service.ts:19-34 | over every run every workspace has exactly one OWNER: whoever created it |
| Workspaces.EveryInviteIsAccounted | backend/src/modules/workspaces/invite.controller.ts:257-307 | whatever became of an invite, its row agrees with what was issued and with how many people it brought in |
| Workspaces.InvitesAdmitNoMoreThanTheyAllow | backend/src/modules/workspaces/invite.controller.ts:282-307 | over every run an e-mail invite brings in at most one person, a link at most its cap, and useCount is how many it brought in |
| Workspaces.UpToKeepsSound | backend/src/modules/workspaces/invite.controller.ts:134-176 | the loop over addresses changes nothing but invites |
| Workspaces.Database.FindInvite | backend/src/modules/workspaces/invite.controller.ts:158-160 | the pending invite of an address is found iff there is one |
| Workspaces.Database.CreateWorkspace | backend/src/modules/workspaces/workspace.service.ts:14-37 | with a free slug and an existing user the workspace and its OWNER row appear together, otherwise nothing does |
| Workspaces.Database.GenerateInvites | backend/src/modules/workspaces/invite.controller.ts:62-216 | no address creates one link; otherwise each new spelling of a non-member is refreshed or created, in order |
| Workspaces.Database.AcceptInvite | backend/src/modules/workspaces/invite.controller.ts:257-307 | expired, exhausted, already-member and admitted cases, with what each leaves of the invite |
| Workspaces.Database.RemoveMember | backend/src/modules/workspaces/member.controller.ts:41-71 | removes exactly that membership, never an OWNER's |
| Workspaces.Database.UpdateMemberRole | backend/src/modules/workspaces/member.controller.ts:73-116 | changes exactly that role, never to or from OWNER |
| Workspaces.Database.DeleteWorkspace | backend/src/modules/workspaces/workspace.service.ts:114-127 | only the owner deletes, and members and invites go with it |
| Workspaces.Database.DeleteAccount | backend/src/modules/auth/auth.service.ts:119-149 | the owned workspaces, the other memberships and the user go together |
| WorkspaceRequests.AcceptingLetsIn | backend/src/modules/workspaces/invite.controller.ts:257-307 | an invite not past its time, with uses left, brings in who is no member, with its role; a link counts the use, an e-mail invite is gone |
| WorkspaceRequests.AcceptingKeepsOut | backend/src/modules/workspaces/invite.controller.ts:257-307 | otherwise nobody comes in, and only an e-mail invite that is past its time or whose user is a member goes |
| WorkspaceRequests.LinkIsAsAsked | backend/src/modules/workspaces/invite.controller.ts:98-132 | a link has the role asked for, or VIEWER, a cap of at least one, and a life of the hours asked for, of seven days or without end |
| WorkspaceRequests.GeneratingReaches | backend/src/modules/workspaces/invite.controller.ts:134-176 | after a request each new spelling of an address that is no member has its pending invite as asked, and no invite is written for anything else |
| WorkspaceRequests.MembersChange | backend/src/modules/workspaces/member.controller.ts:41-116 | removal and role change touch the one membership, never an OWNER, and only the three roles are taken |
| WorkspaceRequests.CreationAdds | backend/src/modules/workspaces/workspace.service.ts:14-37 | a new workspace has the slug and one OWNER; with a taken slug or no user nothing changes |
| WorkspaceRequests.RenamingChangesSlug | backend/src/modules/workspaces/workspace.service.ts:89-112 | only an owner or admin renames, only to a free slug, and nothing but the slug changes |
| WorkspaceRequests.WorkspaceDeletionCascades | backend/src/modules/workspaces/workspace.service.ts:114-127 | the owner's deletion takes the workspace with its members and invites and nothing else |
| WorkspaceRequests.AccountDeletionCascades | backend/src/modules/auth/auth.service.ts:119-149 | an account takes the workspaces it owns, its memberships and itself, and nothing of anybody else |

## Left out

- Probing, TLS inspection, DNS, redirects and error classification: a result is an arbitrary record.
- The internals of kafkajs, BullMQ, Prisma, Postgres and Redis; offsets may be committed at any point the code asks for it, a transaction is all or nothing, and a commit whose connection then breaks is not modelled.
- EachBatch: does not model kafkajs's default of resolving the last offset of a batch when the handler returns, which the code leaves on; an offset left unresolved stays so.
- HandleMessage: a value that is neither null nor a result with a numeric target is not modelled.
- WorkerPool goroutines are steps of one machine on values, not classes: what is proved is every interleaving of channel operations, not memory effects.
- ShutdownTerminates: does not model the 30 second deadline after which `main.go:198-203` exits anyway, nor the outcome of the Kafka write.
- RedeliveryAppliesInOrderOnce: takes markers to outlive every redelivery and Redis to be up, and the monitors' active flags do not change during a run.
- Alert muting, cooldown, the live cache and the fan-out after a check (`monitor.engine.ts:334-453`): they write nothing the properties speak of.
- IncidentsNeverOverlap: Acknowledge and Resolve are atomic; a handler that read an incident before another one resolved it is not modelled.
- SSL_EXPIRY_WARNING_DAYS is its default of 7 and CHECK_RETENTION_DAYS a parameter.
- ColumnsStandForHistory: no edit, pause or resume by a user in the run.
- DispatchDueMonitors: does not model that without a configured topic the tick does nothing.
- UptimeFigures: real numbers; formatting to four decimals and the latency aggregate are not modelled.
- Summarise stands for the averages and percentiles by the response times they are computed from; rounding and interpolation are Postgres'.
- NoHistoryIsLost: checks are inserted on the current day, and one retention cycle runs at a time; a cycle that an error ends is followed by a new one from its roll-up.
- BrailleChart uses real numbers, so floating-point rounding is not modelled.
- TsMatchesMeaning: `Number` is modelled on decimal digits and the empty string, which is all an accepted spec leads to; lower-casing is that of ASCII, and code points outside the Basic Multilingual Plane do not occur.
- DeadChannelIsLeftAlone: deliveries are atomic, so two failures that read the same counter are not modelled; the backoff between attempts is not either.
- EveryAnswerIsCurrent: requests are atomic and Redis is up.
- ViewPage: does not model the 90-day history bars of the body.
- Workspaces: requests are atomic and any caller may send them, so the role middleware is not modelled; two acceptances that race between read and write are not either.
- GenerateInvites: addresses arrive split and well formed, lower-casing is that of ASCII, tokens are ids, and mail and response bodies are not modelled.
- CreateWorkspace: the slug arrives computed from the name, and failures of the database other than the unique slug and the missing user are not modelled.
- DeleteAccount: whether the password was right is a parameter.
- Authentication, billing, mail, legacy webhooks, the web frontend, the CLI client and the other terminal formatters: plumbing or user interface with only easy members.
