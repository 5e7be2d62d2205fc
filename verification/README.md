# ClusterScope: a verified model

ClusterScope runs GPU jobs on a cluster. A server keeps the jobs in a
PostgreSQL table and hands them out through an in-memory scheduler; agents on
the nodes run the processes and report back over gRPC, where messages get lost
and are sent again; an alert engine watches the metrics; a handful of guards
protect logins, administrators and connections. This project models that logic
in Dafny and proves what it promises, for all inputs and all interleavings.

Run `dafny verify dfyconfig.toml` to check everything.

## How it is put together

**Dispatch** (`Jobs`, `GpuQuota`, `Scheduling`, `JobTable`, `Dispatch`,
`DispatchProperties`, `DispatchRuns`, `DispatchServer`, `DispatchExamples`).
`Scheduling` has the scheduler as a class over its queue, slots and capacities,
proved against a functional description of one pass. `JobTable` has the SQL
statements as atomic row updates. `Dispatch` puts both under a state machine in
which every statement and every critical section is a step of its own, so that
request handlers, reaping, restarts and the scheduling cycle interleave freely;
only the read, check and write of a status report is one step. Its invariant
says that every active row has its slot on the same node, why any other slot
exists, that ids stay apart, and that no node is oversubscribed.
`DispatchProperties` draws the conclusions for whole runs, and shows where the
agreement would be lost: with a report's check and write apart, with the
streaming report handler, with a failed read at startup, with a lost answer and
with a dropped handler; `DispatchExamples` has a run to each. `DispatchServer`
is the server's own code over the job table and the scheduler, handlers, cycle
and startup, and proves each piece to be a path of the protocol.

**Agents** (`AgentProtocol`, `AgentHistory`, `AgentCancels`, `AgentRuntime`,
`AgentPids`, `CompletionMarker`, `LineReader`, `LockOrder`, `LockPrograms`).
`AgentProtocol` is the poll loop, the job tasks and the cancel handlers of one
agent as interleaved steps, with torn and failed marker writes and agent
restarts. A job has one execution in flight at most; as long as markers are
written and stay readable and retry counts do not go down, each (job, retry
count) is spawned at most once in an agent's lifetime. `AgentHistory` tells
every report by the events of the run: what an outcome comes from, which step
says what, and that success is only ever said after a process of the job exited
0 and the job was not marked cancelled; `AgentCancels`, that a cancellation is
only ever said of a job that was to be cancelled. `AgentRuntime` is the runtime
object, whose methods are steps of that protocol, and `AgentPids` tells when a
pid entry shuts its job out. `CompletionMarker` proves the marker file's round
trip, `LineReader` that the capped line reader does not depend on how a pipe
chunks its bytes, and `LockOrder` and `LockPrograms` that the locks are never
waited for in a cycle.

**Both together** (`Cluster`, `StuckJobs`). Any number of agents and the server,
with a network that loses, repeats and reorders reports: a row is `succeeded`
only if some process of that job exited cleanly on some agent; and since no
statement changes a retry count, an agent whose markers work spawns each (job,
retry count) at most once in its lifetime. `StuckJobs` shows what two gaps come
to together: a job that stays `starting` and holds its slot until somebody steps
in.

**Alerts** (`Alerts`, `AlertTiming`, `AlertTrail`). The engine as a class; when
an alert fires, told from the history of its key alone; and the persisted event
log beside the engine's memory.

**Guards** (`LoginLimiter`, `LoginConcurrency`, `LastAdmin`, `ReportCache`,
`WsManager`, `LogLineCap`). Each pairs what the code keeps (a pruned queue, a
bounded cache, a separate count, a lock) with the full history or the simple
definition it has to agree with.

`Text` holds decimal numerals, trimming and line splitting as the Rust standard
library does them.

## What the code does not do

- A placeholder pid is removed only after a process was waited for, although the
  comment at crates/agent/src/grpc_client.rs:256-258 says it goes on every exit
  path. A job that leaves without such a wait (cancelled before its start, a
  replayed or corrupt marker, no log directory, a failed spawn, a refused claim)
  keeps its entry, and the agent skips every later delivery of that job until it
  restarts (`AgentPids.WedgedIff`, `AgentPids.WedgedUntilRestart`).
- A replayed success is rejected while the row is `starting`
  (`DispatchProperties.SuccessRecordedIff`). Its replay also leaves a pid entry, so
  the job is stuck until its agent restarts, its node goes offline, somebody stops
  it or an earlier report arrives late (`StuckJobs.StuckStays`).
- The write behind a report checks nothing; the streaming handler frees the slot
  even when its write failed; a failed startup read leaves no slots
  (`DispatchProperties.RawWriteAgreesIff`, `SplitReportLosesSlot`,
  `StreamReportAgreesIff`, `BlindRestartAgreesIff`).
- A dispatch whose write took effect while its answer was lost is active without
  a slot, and a handler dropped before its slot update leaves one behind
  (`DispatchProperties.AnswerLostAgreesIff`, `HandlersDroppedExactIff`).
- A terminated line whose content is exactly as long as the cap is marked as
  truncated although nothing is missing (`LineReader.MarkedButComplete`).
- A marker message loses its trailing LF and the CR of a CR-LF pair
  (`CompletionMarker.RoundTrip`).
- A broadcast drops clients without taking their count down, and so does
  registering an id twice (`WsManager.Manager.Broadcast`, `WsManager.RunExactIff`).
- An evaluation between the two halves of an expiry or of an acknowledgement can
  make the alert log and the engine disagree (`AlertTrail.ExpireGapAgreesIff`,
  `AlertTrail.AcknowledgeGapAgreesIff`); so can a failed insert, of an evaluation
  or of an acknowledgement (`AlertTrail.FailedInsertAgreesIff`,
  `AlertTrail.FailedAcknowledgeAgreesIff`), and two streams of one node that
  write their rows the other way round (`AlertTrail.SwappedInsertsAgreeIff`).

## Model

| member | source | states |
|---|---|---|
| `GpuQuota.GpuRequirement` | crates/scheduler/src/lib.rs:36-51 | any quota gives at least 1 GPU and fits 32 bits |
| `GpuQuota.GpuRequirementOfNumeral` | crates/scheduler/src/lib.rs:32-51 | every documented notation, in any case and with blanks around it, gives its numeral, and 0 gives 1 |
| `GpuQuota.GpuRequirementOfDigits` | crates/scheduler/src/lib.rs:36-51 | the first run of digits is the number of GPUs, and 1 when it denotes 0 or does not fit 32 bits |
| `GpuQuota.GpuRequirementByDefault` | crates/scheduler/src/lib.rs:36-51 | a quota without digits gives 1 |
| `Scheduling.LeqAtDifference` | crates/scheduler/src/lib.rs:214-215 | names are ordered at their first difference, the smaller code point first |
| `Scheduling.LeqOfPrefix` | crates/scheduler/src/lib.rs:214-215 | a name comes before every longer one that starts with it |
| `Scheduling.SlotTakes` | crates/scheduler/src/lib.rs:165-172 | a slot takes from its node what its quota asks for, and nothing from any other |
| `Scheduling.InUseSplit` | crates/scheduler/src/lib.rs:165-172 | the sum of GPUs in use does not depend on the order of the slots |
| `Scheduling.ChoiceFits` | crates/scheduler/src/lib.rs:190-216 | a chosen node has room, and none is chosen only when no node has room |
| `Scheduling.ChoiceUnique` | crates/scheduler/src/lib.rs:211-216 | the choice is determined by the candidates, whatever order the map is walked in |
| `Scheduling.ScheduleConserves` | crates/scheduler/src/lib.rs:90-126 | scheduled and remaining jobs are an order-preserving merge of the old queue |
| `Scheduling.ScheduleKeepsIds` | crates/scheduler/src/lib.rs:77-126 | ids in the queue and the slots stay distinct and disjoint, and old slots are untouched |
| `Scheduling.ScheduleWithinCapacity` | crates/scheduler/src/lib.rs:90-126 | a pass leaves each node's use at most the larger of its use before and its capacity |
| `Scheduling.ScheduleIsGreedy` | crates/scheduler/src/lib.rs:98-122 | after a pass no remaining job fits on any node |
| `Scheduling.ScheduleAtTurn` | crates/scheduler/src/lib.rs:95-122 | each job gets the node picked against the slots of the jobs ahead of it, and stays queued exactly when there is none |
| `Scheduling.SchedulePlaces` | crates/scheduler/src/lib.rs:95-122 | each job goes to the node it asks for if that has room next to the jobs ahead of it, otherwise to the first name that has, and stays queued only when none has |
| `Scheduling.Scheduler.Enqueue` | crates/scheduler/src/lib.rs:77-86 | a job is appended exactly when it is neither queued nor in a slot |
| `Scheduling.Scheduler.RemoveQueued` | crates/scheduler/src/lib.rs:64-69 | every queued copy goes and nothing else; the result tells whether there was one |
| `Scheduling.Scheduler.DropJob` | crates/scheduler/src/lib.rs:73-75 | one slot goes; the result tells whether it was there |
| `Scheduling.Scheduler.RestoreRunning` | crates/scheduler/src/lib.rs:148-155 | the slots are extended by the active jobs of the list |
| `Scheduling.Scheduler.GpusInUse` | crates/scheduler/src/lib.rs:165-172 | the loop over the slots yields the sum |
| `Scheduling.Scheduler.FindNodeForJob` | crates/scheduler/src/lib.rs:190-216 | the preferred node if it fits, else the least fitting name, whatever the map order |
| `Scheduling.Scheduler.RunSchedule` | crates/scheduler/src/lib.rs:90-126 | the draining loop does the functional pass, in place |
| `JobTable.RestoredIsActiveSlots` | crates/server/src/lib.rs:71-77 | restoring a list of exactly the active rows, in any order, gives exactly their slots |
| `JobTable.JobStore.AssignJobToNode` | crates/storage/src/job_queries.rs:189-202 | of several dispatches of a queued job one wins: the job leaves the queue, becomes active on that node, and what was asked for is kept; every other row is as it was |
| `JobTable.JobStore.CancelQueuedJob` | crates/storage/src/job_queries.rs:365-379 | takes exactly a queued job out of the queue for good; the active set and every other row are as they were |
| `JobTable.JobStore.MarkStoppingIfActive` | crates/storage/src/job_queries.rs:397-409 | only the status of a starting or running row changes: queue and active set, and so the slots owed, stay |
| `JobTable.JobStore.UpdateJobStatus` | crates/storage/src/job_queries.rs:310-344 | only that row's status changes, into or out of the queue and the active set as the status says |
| `JobTable.JobStore.ResetStaleStartingJobs` | crates/storage/src/job_queries.rs:465-487 | exactly the overdue starting rows off the online nodes move from the active set to the queue, keeping their node; they are returned |
| `JobTable.JobStore.MarkLostJobsOnNodes` | crates/storage/src/job_queries.rs:252-271 | exactly the rows running or stopping on the dead nodes become lost and leave the active set; only their status changes |
| `JobTable.JobStore.MarkRunningJobsLost` | crates/storage/src/job_queries.rs:440-459 | exactly the rows running on the dead nodes become lost; what was stopping there still is |
| `JobTable.JobStore.ResetStaleStoppingJobs` | crates/storage/src/job_queries.rs:416-436 | exactly the stopping rows started, or failing that created, before the cutoff become lost; every stopping row left is younger |
| `JobTable.JobStore.ListQueuedJobs` | crates/storage/src/job_queries.rs:150-164 | lists exactly the queued rows |
| `JobTable.JobStore.ListActiveJobs` | crates/storage/src/job_queries.rs:294-307 | lists exactly the active rows, each as the scheduler's job |
| `Dispatch.StepKeepsInv` | crates/server/src/lib.rs:704-845 | every step of handlers, reaping, cycle and restart keeps the dispatch invariant |
| `Dispatch.RunKeepsInv` | crates/server/src/lib.rs:594-845 | the invariant holds in every state of every run from the empty start |
| `Dispatch.QueuedHasNoSlot` | crates/scheduler/src/lib.rs:77-86 | while rows are loaded no queued row is kept out of the queue by a slot |
| `Dispatch.RestartUsesNoMore` | crates/server/src/lib.rs:71-77 | the slots rebuilt at a restart use no more GPUs on any node than those before |
| `DispatchProperties.SlotsAgree` | crates/server/src/grpc.rs:531-602 | in every run each active row has a slot on its node, and when nothing is in progress the slots are exactly the active rows |
| `DispatchProperties.LoadReachesQueue` | crates/server/src/lib.rs:788-801 | when a load step has gone through its rows, every row queued when it read them and queued still is in the in-memory queue, and no queued row has a slot |
| `DispatchProperties.LoadReadsAll` | crates/storage/src/job_queries.rs:150-164 | the load step reads every queued row |
| `DispatchProperties.LoadCovers` | crates/server/src/lib.rs:794-801 | while a load step goes on, each row it read is either enqueued or still to come |
| `DispatchProperties.NoOversubscription` | crates/scheduler/src/lib.rs:90-126 | no step of any run, with completions inside the gap, pushes a node above the larger of its use and capacity; sums fit 32 bits |
| `DispatchProperties.DispatchOnlyToOnline` | crates/server/src/lib.rs:708-718 | new slots and newly starting rows name a node online when the running cycle began |
| `DispatchProperties.TerminalStep` | crates/common/src/job.rs:53-76 | a step leaves a terminal row as it is, or requeues one that is not lost, and never on an agent's report |
| `DispatchProperties.RetryStays` | crates/storage/src/job_queries.rs:189-487 | no statement removes a row or changes its retry count |
| `DispatchProperties.LostForever` | crates/storage/src/job_queries.rs:252-271 | a lost row stays lost, whoever reports what |
| `DispatchProperties.TerminalForever` | crates/server/src/grpc.rs:531-602 | with genuine agents every terminal row is final |
| `DispatchProperties.ActiveAgainOnlyThroughQueued` | crates/common/src/job.rs:53-76 | no terminal row is active again without having been queued in between |
| `DispatchProperties.SuccessRecordedIff` | crates/common/src/job.rs:57-66 | a reported success is recorded exactly from running or stopping |
| `DispatchProperties.ReportRecordedIff` | crates/common/src/job.rs:53-76 | for every status, the statuses from which a report of it is recorded; then only the status changes, and otherwise nothing |
| `DispatchProperties.CancelsActIff` | crates/storage/src/job_queries.rs:365-409 | the three ways to cancel act exactly on a queued, on a starting or running, and on an active row, and change nothing else |
| `DispatchProperties.RawWriteAgreesIff` | crates/storage/src/job_queries.rs:310-344 | a bare status write keeps the agreement exactly when it makes nothing active without a slot |
| `DispatchProperties.SplitReportLosesSlot` | crates/server/src/grpc.rs:547-597 | a requeue between a report's check and its write always loses the agreement |
| `DispatchProperties.StreamReportAgreesIff` | crates/server/src/grpc.rs:435-527 | the streaming handler keeps the agreement exactly when it wrote or the row was not active |
| `DispatchProperties.BlindRestartAgreesIff` | crates/server/src/lib.rs:71-77 | starting with no slots agrees exactly when no row is active |
| `DispatchProperties.AnswerLostAgreesIff` | crates/server/src/lib.rs:827-843 | a dispatch written while its answer was lost keeps the agreement exactly when the job had left the queue before |
| `DispatchProperties.HandlersDroppedExactIff` | crates/server/src/grpc.rs:580-597 | handlers dropped before their slot updates leave the slots exact exactly when none of them had a slot to free |
| `DispatchExamples.SplitReportExample` | crates/server/src/grpc.rs:547-597 | a run from the empty start to a requeue between a report's check and its write |
| `DispatchExamples.StreamReportExample` | crates/server/src/grpc.rs:435-527 | a run to a streamed report whose write fails and whose slot goes |
| `DispatchExamples.BlindRestartExample` | crates/server/src/lib.rs:71-77 | a run to a restart that forgets a dispatched job |
| `DispatchExamples.AnswerLostExample` | crates/server/src/lib.rs:827-843 | a run to a dispatch whose answer is lost |
| `DispatchExamples.HandlerDroppedExample` | crates/server/src/grpc.rs:580-597 | a run to a slot that a dropped handler leaves behind |
| `DispatchRuns.PassReached` | crates/scheduler/src/lib.rs:90-126 | the protocol's checks and inserts, uninterrupted, are the functional pass |
| `DispatchServer.Server.Restarted` | crates/server/src/lib.rs:71-77 | the startup rebuild is the protocol's restart and makes the slots exactly the active rows |
| `DispatchServer.Server.ReportStatus` | crates/server/src/grpc.rs:531-602 | any report is accepted exactly when the table allows the transition; then only that status changed and exactly a finished job's slot went; agents' reports stay within the protocol |
| `DispatchServer.Server.StopJob` | crates/server/src/handlers.rs:1019-1100 | a queued job is cancelled and leaves the queue, an active one is asked to stop and keeps its slot; slots stay exact |
| `DispatchServer.Server.CancelJob` | crates/server/src/grpc.rs:651-688 | exactly an active job is asked to stop and keeps its slot; any other is left alone |
| `DispatchServer.Server.SubmitJob` | crates/storage/src/job_queries.rs:11-49 | a new id gets its queued row, an id in use is refused and nothing changes |
| `DispatchServer.Server.RefreshCapacities` | crates/server/src/lib.rs:708-718 | the loop gives online nodes their count, other known nodes none, and leaves unknown ones |
| `DispatchServer.Server.RequeueStale` | crates/server/src/lib.rs:735-757 | exactly the overdue starting rows off the online nodes are queued again and exactly their slots go, as a path of the protocol |
| `DispatchServer.Server.ReapDeadNodes` | crates/server/src/lib.rs:764-786 | exactly the jobs running or stopping on the dead nodes are lost without a slot; every other row and slot is untouched |
| `DispatchServer.Server.ReapRunning` | crates/server/src/lib.rs:594-654 | exactly the jobs running on the dead nodes are lost without a slot; every other row and slot is untouched |
| `DispatchServer.Server.ReapStopping` | crates/server/src/lib.rs:594-654 | exactly the overdue stopping jobs are lost without a slot; one just asked to stop keeps row and slot |
| `DispatchServer.Server.LoadQueued` | crates/server/src/lib.rs:788-801 | after the loop every queued row is in the in-memory queue |
| `DispatchServer.Server.PlaceJobs` | crates/server/src/lib.rs:803-803 | no queued job is lost, and none left in the queue fits on any node |
| `DispatchServer.Server.WriteDispatches` | crates/server/src/lib.rs:804-844 | whatever wins, loses its race or fails, the loop is a path of the protocol; no dispatch that reached the database leaves its job queued |
| `DispatchServer.Server.RunSchedulerCycle` | crates/server/src/lib.rs:704-845 | a whole cycle is a path of the protocol and ends with the slots exactly the active rows; with every read and write through, each queued row is in the queue |
| `AgentRuntime.JobRuntime.TryClaim` | crates/agent/src/job_executor.rs:40-42 | the claim of the protocol: granted exactly when the task goes on, and a refused task changes nothing and is over |
| `AgentRuntime.JobRuntime.RequestCancel` | crates/agent/src/job_executor.rs:56-124 | the mark is always left; a termination signal goes out exactly on the request that leaves it, to a registered group other than 0 whose leader is gone, of unknown start time, or the one recorded; false exactly when the caller has to report |
| `AgentRuntime.JobRuntime.Escalate` | crates/agent/src/job_executor.rs:94-118 | the kill after five seconds goes exactly to such a group |
| `AgentRuntime.JobRuntime.ForceCancel` | crates/agent/src/job_executor.rs:131-156 | the mark is always left; a kill goes out exactly to such a group |
| `AgentRuntime.JobRuntime.Prune` | crates/agent/src/job_executor.rs:166-171 | exactly the marks of jobs neither claimed nor with a pid go |
| `AgentRuntime.JobRuntime.DropMark` | crates/agent/src/grpc_client.rs:228-232 | a mark nobody else looks at goes, and no other |
| `AgentRuntime.JobRuntime.IsCancelled` | crates/agent/src/job_executor.rs:158-160 | tells whether the mark is there |
| `AgentRuntime.JobRuntime.Release` | crates/agent/src/job_executor.rs:45-47 | the protocol's release of a claim |
| `AgentRuntime.JobRuntime.Reserve` | crates/agent/src/grpc_client.rs:250-263 | the placeholder of the protocol, which nothing can signal |
| `AgentRuntime.JobRuntime.Register` | crates/agent/src/job_executor.rs:361-366 | the process group takes the placeholder's place, other entries stay |
| `AgentRuntime.JobRuntime.Forget` | crates/agent/src/job_executor.rs:454-454 | the protocol's removal of the entry after the wait |
| `AgentRuntime.RepeatedCancelFindsMark` | crates/agent/src/job_executor.rs:49-67 | whatever happens between two cancel requests, prunes included while the job has a claim or a pid entry, the second finds the mark |
| `AgentProtocol.FlightStep` | crates/agent/src/job_executor.rs:206-226 | every step keeps claims and pid entries owned by the one task at work |
| `AgentProtocol.AtMostOneInFlight` | crates/agent/src/job_executor.rs:40-47 | in every run, two executions of a job in flight are the same one |
| `AgentHistory.OutcomeIff` | crates/agent/src/job_executor.rs:463-493 | succeeded exactly when the process exited 0 unmarked, cancelled exactly when it exited with its job marked, failed otherwise; the exit code is kept |
| `AgentHistory.SuccessNeedsCleanExit` | crates/agent/src/job_executor.rs:463-493 | in every run, with torn writes and restarts: if success was sent, an earlier step ended the wait for a process of the job with exit 0, and a step after it found the job unmarked |
| `AgentHistory.WrittenMarkerReplays` | crates/agent/src/job_executor.rs:607-625 | a written marker reads back as the outcome and code that were decided, for its own run |
| `AgentHistory.MarkerLeadsTo` | crates/agent/src/job_executor.rs:269-303 | a marker's outcome is replayed, a corrupt one stops the run, and none, or an unreadable one, lets it go on |
| `AgentHistory.SaysStep` | crates/agent/src/job_executor.rs:245-256 | each step adds to what was said exactly the report it stands for |
| `AgentHistory.SentIff` | crates/agent/src/job_executor.rs:463-515 | a report was sent exactly if some step of the run said it |
| `AgentHistory.RestartKeepsMarkers` | crates/agent/src/job_executor.rs:640-683 | a restart forgets memory and tasks, but keeps the markers and what was said |
| `AgentCancels.CancelledOnlyIfAsked` | crates/agent/src/grpc_client.rs:208-236 | in every run: if a job was reported cancelled, at its start, its end, or through a marker replayed later, a request to cancel it had come before |
| `AgentProtocol.MissingMeansUnspawned` | crates/agent/src/job_executor.rs:269-303 | a marker that reads as missing means that this run was never spawned |
| `AgentProtocol.SpawnedAtMostOnce` | crates/agent/src/job_executor.rs:229-518 | with markers written and readable and retry counts not decreasing, each (job, retry) is spawned at most once in a lifetime |
| `AgentProtocol.SentStep` | crates/agent/src/job_executor.rs:463-515 | agents report only running, succeeded, failed and cancelled |
| `AgentPids.PidStep` | crates/agent/src/job_executor.rs:454-454 | a delivery makes a pid entry, a finished wait or a restart removes it, and no other step does either |
| `AgentPids.PidIff` | crates/agent/src/grpc_client.rs:250-264 | in every run the entry is there exactly when the job was delivered and no process of it waited for since |
| `AgentPids.WedgedIff` | crates/agent/src/grpc_client.rs:250-264 | a job nobody works on is shut out exactly when no process was waited for since its last delivery |
| `AgentPids.WedgedUntilRestart` | crates/agent/src/grpc_client.rs:237-245 | a job shut out is not spawned again before the agent restarts |
| `AgentPids.EarlyExitWedges` | crates/agent/src/job_executor.rs:244-309 | every exit before the spawn shuts its job out |
| `AgentPids.FailedSpawnWedges` | crates/agent/src/job_executor.rs:325-352 | so does a spawn that fails |
| `AgentPids.RefusedClaimWedges` | crates/agent/src/job_executor.rs:219-222 | so does a delivery whose claim is refused, once the claim's holder leaves |
| `AgentPids.WedgedExample` | crates/agent/src/job_executor.rs:325-352 | a run from the start in which a failed spawn shuts its job out |
| `CompletionMarker.RoundTrip` | crates/agent/src/job_executor.rs:607-683 | status and code always come back, the message exactly when it has no CR-LF and no trailing LF, another retry count reads as missing, nothing as corrupt |
| `CompletionMarker.TornWriteKeepsStatus` | crates/agent/src/job_executor.rs:607-683 | a prefix of a marker that reads as valid has the status that was being written |
| `CompletionMarker.TrailingLfIsLost` | crates/agent/src/job_executor.rs:640-683 | a message that does not survive |
| `CompletionMarker.ReadIff` | crates/agent/src/job_executor.rs:640-683 | for any content: missing exactly when the first line is another retry count, valid exactly when the first three lines parse for this run, and corrupt in every other case |
| `CompletionMarker.EmptyIsCorrupt` | crates/agent/src/job_executor.rs:640-653 | an empty file stops the run |
| `CompletionMarker.ParseUnsignedIff` | crates/agent/src/job_executor.rs:646-650 | what parses as an unsigned number |
| `CompletionMarker.ParseI32Iff` | crates/agent/src/job_executor.rs:659-672 | what parses as a signed 32-bit number |
| `LineReader.Drain` | crates/agent/src/job_executor.rs:571-586 | draining an over-long line ends right after its LF or at the end, for any chunking |
| `LineReader.ReadLineCapped` | crates/agent/src/job_executor.rs:530-599 | for every input, chunking and cap: consumes exactly through the next LF or end, and returns the content, or its first cap bytes marked |
| `LineReader.ReadAll` | crates/agent/src/job_executor.rs:685-740 | repeated calls return one line per line start, in order |
| `LineReader.CallsPartitionStream` | crates/agent/src/job_executor.rs:530-599 | the stretches the calls consume concatenate to the whole stream |
| `LineReader.LinesStartAfterLf` | crates/agent/src/job_executor.rs:530-599 | calls start at the beginning and right after each LF, nowhere else |
| `LineReader.MarkedButComplete` | crates/agent/src/job_executor.rs:530-599 | a complete line is marked exactly when it is terminated and as long as the cap |
| `LineReader.MarkedButCompleteExample` | crates/agent/src/job_executor.rs:530-599 | such a line |
| `Cluster.RunKeepsInv` | crates/server/src/grpc.rs:531-602 | server and agents together keep the dispatch, agent and success invariants |
| `Cluster.SuccessIsEarned` | crates/agent/src/job_executor.rs:463-493 | with reports lost, repeated and reordered, a succeeded row has an agent on which, at earlier steps of the run, a process of the job exited 0 and the job was found unmarked |
| `Cluster.SlotsAgree` | crates/server/src/grpc.rs:580-597 | with the agents as modelled the slots agree with the rows in every state |
| `Cluster.SpawnedAtMostOnce` | crates/agent/src/job_executor.rs:269-303 | with deliveries taken from rows, whose retry counts no statement changes, and working markers, no agent spawns a (job, retry) twice in its lifetime |
| `StuckJobs.ReplayGetsStuck` | crates/agent/src/job_executor.rs:269-284 | a success replayed while the row is starting is rejected and leaves the job with a pid entry and nobody working on it |
| `StuckJobs.StartingStays` | crates/common/src/job.rs:57-59 | no step of the server but another report, a stop, or a requeue off its node moves a starting row |
| `StuckJobs.StuckStays` | crates/agent/src/grpc_client.rs:237-245 | left alone, such a job stays: its row starting, its agent neither spawning it nor reporting on it |
| `StuckJobs.StuckHoldsSlot` | crates/server/src/lib.rs:719-757 | and it holds its slot on that node |
| `Alerts.AlertEngine.Evaluate` | crates/common/src/alert.rs:156-301 | one reading moves one key's machine; the event is exactly the announced change of state |
| `Alerts.AlertEngine.ResetState` | crates/common/src/alert.rs:311-319 | the instance is Normal with count, timers and value cleared and its threshold and last update kept; every other one is left alone |
| `Alerts.AlertEngine.ResetAll` | crates/server/src/lib.rs:582-588 | the loop over the expired keys resets exactly those |
| `Alerts.AlertEngine.RemoveRuleInstances` | crates/common/src/alert.rs:324-328 | nothing of the rule is remembered and nothing else is forgotten |
| `AlertTiming.ElsewhereKeeps` | crates/common/src/alert.rs:173-190 | operations on other keys leave a key's instance alone |
| `AlertTiming.FiresIff` | crates/common/src/alert.rs:156-301 | a Firing event comes exactly when the key's condition was met without break or reset since a reading at least the rule's duration in seconds ago, and no earlier reading of the stretch came that late |
| `AlertTiming.NormalEntersPending` | crates/common/src/alert.rs:194-219 | Normal has a zero count, so a met reading always enters Pending |
| `AlertTrail.StepAgrees` | crates/server/src/grpc.rs:694-795 | evaluating, acknowledging, expiring and restarting keep log and engine in agreement |
| `AlertTrail.RunAgrees` | crates/server/src/lib.rs:575-592 | the agreement holds in every state of every run |
| `AlertTrail.NewestIsLast` | crates/storage/src/alert_queries.rs:171-189 | the row with the greatest timestamp of a key is its last one |
| `AlertTrail.ActiveViewIsComplete` | crates/storage/src/alert_queries.rs:171-189 | a Pending, Firing or Resolved instance has that state in its newest row; every open alert is in the active view |
| `AlertTrail.FiringRowsAreFiring` | crates/storage/src/alert_queries.rs:171-189 | without a restart, the firing rows of the view are exactly the firing instances |
| `AlertTrail.ExpiryHeals` | crates/storage/src/alert_queries.rs:191-225 | after an expiry nothing in the active view is older than the cutoff |
| `AlertTrail.ExpiryClosesIff` | crates/storage/src/alert_queries.rs:191-225 | an open row is closed, by a resolved row and a reset, exactly when it is older than the cutoff; any other keeps its row and instance |
| `AlertTrail.ExpireGapAgreesIff` | crates/server/src/lib.rs:575-592 | an evaluation between expiry and reset is harmless exactly when its reading does not end a pending alert's wait |
| `AlertTrail.AcknowledgeGapAgreesIff` | crates/server/src/handlers.rs:1357-1377 | an evaluation between reset and row is harmless exactly when it does not meet its condition |
| `AlertTrail.FailedInsertAgreesIff` | crates/server/src/grpc.rs:761-779 | a failed insert is harmless exactly when nothing new was announced |
| `AlertTrail.FailedAcknowledgeAgreesIff` | crates/server/src/handlers.rs:1357-1377 | an acknowledgement whose insert fails is harmless exactly when the alert was not firing |
| `AlertTrail.SwappedInsertsAgreeIff` | crates/server/src/grpc.rs:728-737 | two readings whose rows are written the other way round are harmless exactly when not both announce something |
| `AlertTrail.ExpireGapExample` | crates/server/src/lib.rs:575-592 | a run to a stale pending alert that fires inside the expiry |
| `AlertTrail.AcknowledgeGapExample` | crates/server/src/handlers.rs:1357-1377 | a run to a reading inside an acknowledgement |
| `AlertTrail.FailedInsertExample` | crates/server/src/grpc.rs:761-779 | a run to a firing whose row is lost |
| `AlertTrail.FailedAcknowledgeExample` | crates/server/src/handlers.rs:1357-1377 | a run to a firing alert reset without its row |
| `AlertTrail.SwappedInsertsExample` | crates/server/src/grpc.rs:728-737 | two readings whose rows are swapped |
| `AlertTrail.AlertService.EvaluateAndPersist` | crates/server/src/grpc.rs:694-779 | engine and log move together and still agree |
| `AlertTrail.AlertService.Acknowledge` | crates/server/src/handlers.rs:1332-1380 | the key is reset, then a resolved row written, instance or not; the agreement is kept exactly when the row is written or the alert was not firing |
| `AlertTrail.AlertService.ExpireStale` | crates/storage/src/alert_queries.rs:197-225 | stale keys get a resolved row and a reset; nothing older than the cutoff stays in the view |
| `AlertTrail.AlertService.ActiveEvents` | crates/storage/src/alert_queries.rs:171-189 | the answer contains every open instance with its state |
| `LoginLimiter.LoginKeyInjective` | crates/server/src/handlers.rs:67-69 | keys of different pairs differ, for addresses without U+001F |
| `LoginLimiter.LoginKeyConfusion` | crates/server/src/handlers.rs:67-69 | an address with U+001F is confused with another pair |
| `LoginLimiter.PopOld` | crates/server/src/handlers.rs:111-117 | popping keeps the queue standing for the history and leaves nothing old at its front |
| `LoginLimiter.Limiter.Allowed` | crates/server/src/handlers.rs:106-119 | true exactly when fewer than 10 of all failures of the pair lie in the last 60 s; an overtaken check is allowed only if that holds at the latest time seen and refused only if it fails at its own |
| `LoginLimiter.Limiter.RecordFailure` | crates/server/src/handlers.rs:122-129 | one failure is added to the pair's history |
| `LoginLimiter.Limiter.GlobalAllowed` | crates/server/src/handlers.rs:132-144 | true exactly when fewer than 300 of all attempts lie in the last 60 s, and likewise for an overtaken check |
| `LoginLimiter.Limiter.RecordAttempt` | crates/server/src/handlers.rs:147-149 | one attempt is added to the history |
| `LoginLimiter.Limiter.BeginLogin` | crates/server/src/handlers.rs:246-252 | one after the other, check and record never put more than 300 attempts in any 60 s |
| `LoginLimiter.Serve` | crates/server/src/handlers.rs:106-163 | after any sequence of calls on a new limiter no 60 s hold more than 300 attempts |
| `LoginLimiter.Limiter.Prune` | crates/server/src/handlers.rs:154-163 | what goes are buckets without a failure in the window, what stays has one, and no answer changes |
| `LoginLimiter.SpacedBoundsWindows` | crates/server/src/handlers.rs:30-38 | a spaced history has at most its limit in any window |
| `LoginConcurrency.BurstIsBounded` | crates/server/src/handlers.rs:240-277 | however logins interleave and their checks are overtaken, a bucket other than an address's refresh bucket gets at most 10 + 4 - 1 failures in any 60 s |
| `LoginConcurrency.BurstIsReached` | crates/server/src/handlers.rs:254-277 | and some run puts 13 there: nine one after the other, then four that pass the check side by side |
| `LastAdmin.UserStore.UpdateUserGuarded` | crates/storage/src/user_queries.rs:140-189 | refused exactly for an unknown user or the only enabled admin; else applied to that user alone |
| `LastAdmin.UserStore.DeleteUserGuarded` | crates/storage/src/user_queries.rs:196-229 | refused exactly likewise; user and tokens go together, and every token keeps its user |
| `LastAdmin.CommitLeavesAdmin` | crates/storage/src/user_queries.rs:155-186 | what a transaction counted under its locks still holds when it commits, so an enabled admin is left |
| `LastAdmin.RefusedIff` | crates/storage/src/user_queries.rs:155-170 | a transaction that counted the enabled admins there are is refused exactly when it would take the only one away |
| `LastAdmin.LoneUpdateIsSequential` | crates/storage/src/user_queries.rs:107-189 | a transaction alone locks and counts every enabled admin in any order and ends as the sequential update does |
| `LastAdmin.LoneDeleteIsSequential` | crates/storage/src/user_queries.rs:196-229 | the same for a delete, tokens included |
| `LastAdmin.AdminSurvives` | crates/storage/src/user_queries.rs:107-229 | for any interleaving of guarded transactions, waits and aborts, an enabled admin is always left and no token outlives its user |
| `ReportCache.KeyInjective` | crates/server/src/grpc.rs:181-181 | node and sequence can be read back from the key, even with colons in node ids |
| `ReportCache.LookupIff` | crates/server/src/grpc.rs:182-190 | a key is in the cache exactly when its report is among the last accepted ones |
| `ReportCache.SeenReports.Accept` | crates/server/src/grpc.rs:181-201 | processed exactly when not among the last 100000 accepted; never twice without 100000 others in between |
| `ReportCache.SeenReports.AcceptAll` | crates/server/src/grpc.rs:151-201 | a whole stream: only its reports are processed, and each of them has been accepted |
| `WsManager.Manager.Register` | crates/server/src/ws_handler.rs:65-84 | counts are live plus leaked clients; an id in use leaks its old count |
| `WsManager.Manager.Unregister` | crates/server/src/ws_handler.rs:86-99 | the count taken down is at least 1; no zero count stays |
| `WsManager.Manager.IpConnCount` | crates/server/src/ws_handler.rs:102-104 | never below the live clients of the address, and equal exactly while nothing leaked |
| `WsManager.Manager.Broadcast` | crates/server/src/ws_handler.rs:113-140 | exactly the interested clients that cannot be sent to go; each leaks one count |
| `WsManager.Manager.Subscribe` | crates/server/src/ws_handler.rs:320-330 | one client's filter changes, and no count |
| `WsManager.ExactIff` | crates/server/src/ws_handler.rs:47-53 | the mirror is exact everywhere exactly when nothing leaked anywhere |
| `WsManager.StepCounts` | crates/server/src/ws_handler.rs:65-140 | every operation moves an address's count with its live clients, but for what it leaks |
| `WsManager.RunCounts` | crates/server/src/ws_handler.rs:65-140 | in every run a count is the live clients plus all that leaked |
| `WsManager.RunExactIff` | crates/server/src/ws_handler.rs:65-140 | it is never below the live clients, and exact just while ids were fresh and no broadcast dropped a client of the address |
| `WsManager.LeakedCountExample` | crates/server/src/ws_handler.rs:113-140 | one client, one failed broadcast: no client is left and the count is 1 |
| `LockOrder.NeverStuck` | crates/agent/src/job_executor.rs:57-60 | tasks that take locks by rank: in every reachable state with an unfinished task some task can step |
| `LockOrder.EveryTaskFinishes` | crates/agent/src/job_executor.rs:57-60 | such runs are bounded, and one that cannot go on has finished every task |
| `LockPrograms.AgentProper` | crates/agent/src/job_executor.rs:40-171 | every call of the job runtime takes running, pids, cancelled in that order and gives them back |
| `LockPrograms.SchedulerProper` | crates/scheduler/src/lib.rs:64-196 | every call of the scheduler, a pass over any queue included, takes queue, slots, capacity in that order |
| `LockPrograms.WsProper` | crates/server/src/ws_handler.rs:65-140 | every call of the connection manager takes clients before counts |
| `LockPrograms.NoDeadlock` | crates/scheduler/src/lib.rs:77-107 | any number of tasks of one component never reach a cyclic wait |
| `LockPrograms.AllFinish` | crates/agent/src/job_executor.rs:166-171 | and all of them finish |
| `LogLineCap.BoundaryIffValidPrefix` | crates/server/src/grpc.rs:941-952 | in valid UTF-8 the character boundaries are exactly the valid prefixes |
| `LogLineCap.BoundaryIsNear` | crates/server/src/grpc.rs:941-952 | from any position a boundary is at most 3 bytes back |
| `LogLineCap.ValidUtf8Iff` | crates/server/src/grpc.rs:941-952 | the grammar accepts exactly the encodings of sequences of Unicode scalar values |
| `LogLineCap.CapLogLine` | crates/server/src/grpc.rs:933-952 | unchanged when it fits; else the longest valid prefix within the limit, at most 3 bytes below it, plus the mark; always valid UTF-8 |

## Left out

- Metrics collection, NVML, `/proc`, real signals and process groups: only spawn, exit and signal appear, as abstract events.
- SSH installation, TLS, configuration, HTTP routing, JWT, Argon2, the dashboard, rollups and SQL text.
- `history_tiers` and `MetricsAggregation`: they pick and average stored samples, and no other part of the model depends on them.
- The node registry: it turns heartbeat ages into a status, which the capacity refresh takes as an input.
- Floating point: whether a reading meets its condition is part of the reading.
- Durations beyond what the `chrono` library can hold: it stops the program there; the model goes on.
- `Job::transition_to` and its timestamps: the slot of a finished job is dropped whatever it returns.
- The order of queued rows by creation time: the load step may list them in any order.
- In the runs of the protocol a dispatch write that fails has not happened, and handlers run to their end; `DispatchProperties.AnswerLostAgreesIff` and `DispatchProperties.HandlersDroppedExactIff` say what else would follow.
- The read, check and write of a report are one step, and so are those of the gRPC `cancel_job`; `DispatchProperties.SplitReportLosesSlot` and `DispatchProperties.RawWriteAgreesIff` show why.
- Orphan cleanup after an agent crash: the agent properties are per agent lifetime, except those about success, which hold across restarts.
- Lossy UTF-8 decoding of log lines and log upload: the reader is modelled on bytes.
- Deletion of rules and retention pruning in the alert log; its values, severities and notifications.
- Database timestamps of one alert key are taken to increase with every insert. In the runs of the alert log an evaluation and its insert are one step; the lemmas on gaps, failed and swapped inserts say what finer steps can do.
- Sorting node names and taking the first is modelled as taking the least.
- The least-recently-used cache is modelled for the calls the server makes: a lookup that does not promote, and inserts of absent keys.
- Plain user updates that touch neither role nor the enabled flag, and account lockout.
- AlertTrail.AlertService.ExpireStale: takes the statement's result order as an argument, since the database chooses it.
