# Local Media Transfer: a verified model

A Dafny model of the concurrent protocols and algorithms inside Local Media Transfer, a
desktop GUI, a C++ receiver and Windows and iOS senders that move photos and videos over the
local network. Each `.dfy` file is one component.

| file | component |
|---|---|
| `ServerManager.dfy` | the lock sections that guard the GUI's owned server process |
| `Supervision.dfy` | the UI thread against any number of old and current monitors |
| `SupervisionProofs.dfy`, `SupervisionRest.dfy`, `SupervisionStart.dfy` | its invariants and guarantees; what the reported state means at rest; processes started late |
| `SupervisionRounds.dfy`, `SupervisionCalls.dfy` | what a monitor's round and each UI operation achieve alone; what superseded monitors still do |
| `SupervisionWitness.dfy` | runs that attain the bounds |
| `PipeQueue.dfy` | the receiver's bounded, coalescing outbound pipe queue |
| `WorkerPool.dfy`, `TransferSession.dfy` | the Windows sender's worker pool and the result accounting on top of it |
| `ChunkUpload.dfy` | chunk loop, bounded retry, size limits of both senders |
| `Telemetry.dfy`, `RateTracker.dfy` | the coalescing metric pump and the rolling rate |
| `SubnetWindow.dfy`, `DestinationMerge.dfy` | LAN discovery: 32-bit subnet windows and the capped round-robin merge |
| `UploadLedger.dfy` | iOS planned and acknowledged bytes |
| `MetadataMigration.dfy` | the crash-resumable directory merge |
| `RateLease.dfy` | speed leases between receiver and GUI, with the limits of handler and parser |
| `CsvExport.dfy` | the benchmark CSV writer and an RFC 4180 reader |
| `WriteLock.dfy` | reference-counted disposal of the pipe write lock |
| `LogDedup.dfy` | the log's de-duplication cache |

`dafny verify dfyconfig.toml` checks everything.

## How to read it

State that the program updates in place is a class; its methods are specified by functions on
the guarded fields. Concurrent behaviour is a transition function over those same functions: a
step is one lock section, one atomic operation or one stretch between awaits, a schedule is an
arbitrary sequence of steps, and a step that is not enabled changes nothing, so a statement
about all sequences is one about all interleavings. Everything the program does not control
(exit codes, exceptions, network replies, progress reports, clocks, the order of a hash map or
of a directory listing) is an unconstrained argument. Fields described as history exist only to
state properties. Integers are unbounded; the 32-bit arithmetic of discovery is written out.

Where the code does less than one might hope, the model keeps the code and gives the exact
condition: a coalesced value may be delivered before an older one of its type
(`PipeQueue.FailedWriteLeavesTwo`, `PipeQueue.NewestValueIsLast`); the subnet window of a local
address in the last 511 addresses is empty (`SubnetWindow.WindowSurvives`), which no private
address is; a reply naming a file twice makes the terminal counter exceed the number of files
(`TransferSession.NormalReturnIsFull`); a row without fields does not survive the CSV round trip
(`CsvExport.CsvRoundTrip`); the metrics collector alone does not keep speeds within the GUI
parser's limits (`RateLease.OneReportFitsParser`), the HTTP handler in front of it does
(`RateLease.AdmittedTraceFitsParser`); a restart that Stop overtakes can come to start a process
object that was already disposed (`SupervisionStart.StartActsOnOwned`,
`SupervisionWitness.LateStartIsReached`).

## Model

| member | source | states |
|---|---|---|
| `SupervisionProofs.SupersededMonitorNeverActs` | src/LocalMediaTransfer.GUI/Services/Server/ServerManager.cs:240-507 | from any reachable state, after any further steps, no step of a monitor of an older generation changes `_state`, `_ownedProcess` or the generation |
| `SupervisionProofs.RunningComesFromStarting` | src/LocalMediaTransfer.GUI/Services/Server/ServerProcessMonitor.cs:82-89 | every step that enters Running is a step of the current monitor, and lands on a Starting written in that same generation with the owned process unchanged, although check and write are separate lock sections |
| `SupervisionProofs.ProcessLifecycle` | src/LocalMediaTransfer.GUI/Services/Server/ServerManager.cs:240-453 | every step moves every process only along created → owned → detached → disposed or created → disposed, by the actor entitled to it; a process becomes owned only while nothing is owned |
| `SupervisionProofs.NoProcessLeaks` | src/LocalMediaTransfer.GUI/Services/Server/ServerManager.cs:367-453 | with every thread at rest, each process ever created is disposed or is the one owned process |
| `SupervisionProofs.LaunchBudget` | src/LocalMediaTransfer.GUI/Services/Server/ServerProcessMonitor.cs:122-133 | in every reachable state a generation, hence each effective Start, has made at most 1 + 3 launches |
| `SupervisionWitness.LaunchBudgetIsReached` | src/LocalMediaTransfer.GUI/Services/Server/ServerProcessMonitor.cs:101-133 | some run makes all four launches for one Start, so the budget is tight |
| `SupervisionWitness.RunningIsReached` | src/LocalMediaTransfer.GUI/Services/Server/ServerProcessMonitor.cs:62-89 | Running with an owned process is reachable, so the safety statements are not vacuous |
| `SupervisionProofs.StoppedStaysStopped` | src/LocalMediaTransfer.GUI/Services/Server/ServerManager.cs:164-169 | at rest, after Dispose or in Stopped, the state is Stopped, nothing is owned, and no run of monitor steps of any length changes the guarded fields |
| `SupervisionProofs.StopIsFinal` | src/LocalMediaTransfer.GUI/Services/Server/ServerManager.cs:164-169 | from every reachable state the step that ends Stop or Dispose leaves Stopped with nothing owned, and no later run of monitor steps changes that |
| `SupervisionProofs.DisposedStaysStopped` | src/LocalMediaTransfer.GUI/Services/Server/ServerManager.cs:549-561 | whatever is called after Dispose, whenever the UI thread is at rest the state is Stopped and nothing is owned |
| `SupervisionRest.ReportedServerIsWatched` | src/LocalMediaTransfer.GUI/Services/Server/ServerProcessMonitor.cs:49-141 | in every reachable state at rest that reports Starting or Running, the monitor of the current generation exists, has not ended, is not cancelled, and has a process to watch or is reporting or replacing the one that exited |
| `SupervisionRest.ConflictOwnsNothing` | src/LocalMediaTransfer.GUI/Services/Server/ServerProcessMonitor.cs:106-111 | at rest, Conflict and Stopped mean that nothing is owned |
| `SupervisionRest.EndingMonitorReports` | src/LocalMediaTransfer.GUI/Services/Server/ServerProcessMonitor.cs:62-139 | the current monitor ends only with a state that is neither Starting nor Running, and with nothing owned if it is Conflict |
| `SupervisionRounds.ExitRound` | src/LocalMediaTransfer.GUI/Services/Server/ServerProcessMonitor.cs:91-140 | from every reachable state in which the current monitor has found its process exited, its own steps report Conflict if and only if the code is 2, Faulted without a launch for code 3 or after three restarts, and otherwise make exactly one launch, which leaves a new process in Starting or Faulted |
| `SupervisionRounds.WatchRound` | src/LocalMediaTransfer.GUI/Services/Server/ServerProcessMonitor.cs:49-141 | a whole round over a live process ends in Running and changes nothing else; over one that cannot be inspected in Faulted; over an exited one as its code demands |
| `SupervisionRounds.HealthyRound` | src/LocalMediaTransfer.GUI/Services/Server/ServerProcessMonitor.cs:82-89 | a live process brings Starting or Running to Running |
| `SupervisionRounds.LaunchOutcome` | src/LocalMediaTransfer.GUI/Services/Server/ServerManager.cs:240-298 | a current launch takes at most seven steps and one launch: Starting with the new process owned if nothing throws, else Faulted with nothing owned |
| `SupervisionRounds.RelaunchRound` | src/LocalMediaTransfer.GUI/Services/Server/ServerProcessMonitor.cs:122-133 | a restart is one such launch, after which the monitor goes on or ends |
| `SupervisionCalls.StartCall` | src/LocalMediaTransfer.GUI/Services/Server/ServerManager.cs:140-162 | alone, Start changes nothing if the state is Starting or Running; otherwise it returns with one launch for a new generation, a fresh monitor for it and the old token cancelled |
| `SupervisionCalls.StopCall` | src/LocalMediaTransfer.GUI/Services/Server/ServerManager.cs:164-169 | alone, Stop returns in Stopped with the generation superseded, its token cancelled, its process disposed and no launch made |
| `SupervisionCalls.DisposeCall` | src/LocalMediaTransfer.GUI/Services/Server/ServerManager.cs:549-561 | Dispose does the same once; after it Start, Recover and Dispose do nothing |
| `SupervisionCalls.RecoverCall` | src/LocalMediaTransfer.GUI/Services/Server/ServerManager.cs:210-238 | Recover acts if and only if the state is Conflict and the inspection verified a stale owner; it starts anew if the other server shuts down, and otherwise leaves Conflict |
| `SupervisionCalls.SupersededIsCancelled` | src/LocalMediaTransfer.GUI/Services/Server/ServerManager.cs:455-466 | at rest the cancelled monitors are exactly the superseded ones |
| `SupervisionCalls.CancelledMonitorEnds` | src/LocalMediaTransfer.GUI/Services/Server/ServerProcessMonitor.cs:51-126 | a cancelled monitor ends at the top of its loop and asks for no restart |
| `SupervisionCalls.SupersededMonitorEnds` | src/LocalMediaTransfer.GUI/Services/Server/ServerManager.cs:321-335 | a superseded monitor is shown no process, gets none to dispose and is refused a restart |
| `SupervisionCalls.SupersededNeverLaunches` | src/LocalMediaTransfer.GUI/Services/Server/ServerManager.cs:261-272 | along every run a superseded generation makes no launch but one already under way |
| `SupervisionRest.MonitorKeepsRest` | src/LocalMediaTransfer.GUI/Services/Server/ServerProcessMonitor.cs:49-141 | monitor steps keep what the reported state means at rest |
| `SupervisionRest.UiKeepsRest` | src/LocalMediaTransfer.GUI/Services/Server/ServerManager.cs:140-238 | UI steps keep what the reported state means at rest |
| `SupervisionRest.RunKeepsRest` | src/LocalMediaTransfer.GUI/Services/Server/ServerManager.cs:140-238 | every run keeps it |
| `SupervisionStart.StartActsOnOwned` | src/LocalMediaTransfer.GUI/Services/Server/ServerManager.cs:274-284 | a monitor about to start a process finds it owned if and only if its generation is current or the next one has not come to detach it; otherwise the UI thread has detached or disposed it |
| `SupervisionStart.UiStartsOwned` | src/LocalMediaTransfer.GUI/Services/Server/ServerManager.cs:274-284 | the UI thread only ever starts the process that is owned, in state Starting |
| `SupervisionStart.UiKeepsStartPhase` | src/LocalMediaTransfer.GUI/Services/Server/ServerManager.cs:432-483 | UI steps keep the place of a process that a monitor is about to start |
| `SupervisionStart.OthersKeepStartPhase` | src/LocalMediaTransfer.GUI/Services/Server/ServerManager.cs:261-284 | steps of other monitors keep it |
| `SupervisionStart.RunKeepsStart` | src/LocalMediaTransfer.GUI/Services/Server/ServerManager.cs:240-483 | every run keeps it |
| `SupervisionWitness.LateStartIsReached` | src/LocalMediaTransfer.GUI/Services/Server/ServerManager.cs:274-284 | some run brings a monitor to start a process that the UI thread has disposed |
| `SupervisionProofs.GenerationsOnlyGrow` | src/LocalMediaTransfer.GUI/Services/Server/ServerManager.cs:455-464 | along every run the monitor generation never decreases |
| `SupervisionProofs.StepKeepsInv` | src/LocalMediaTransfer.GUI/Services/Server/ServerManager.cs:140-507 | every step of the UI thread or of any monitor keeps the supervision invariant (phases, places of processes, launch budget, meaning of Stopped) |
| `SupervisionProofs.RunKeepsInv` | src/LocalMediaTransfer.GUI/Services/Server/ServerManager.cs:140-507 | every finite interleaving keeps the supervision invariant |
| `SupervisionProofs.LaunchKeepsPhase` | src/LocalMediaTransfer.GUI/Services/Server/ServerManager.cs:240-298 | a current launch goes on in phase, or returns true with an active owned server, or returns false with Faulted and nothing owned |
| `SupervisionProofs.StaleLaunchIsInert` | src/LocalMediaTransfer.GUI/Services/Server/ServerManager.cs:261-284 | a launch for a superseded generation leaves the guarded fields alone, and reports success exactly if it was past its last check and the start does not throw |
| `SupervisionProofs.StaleMonitorIsInert` | src/LocalMediaTransfer.GUI/Services/Server/ServerManager.cs:485-507 | a step of a monitor whose generation is not current leaves the guarded fields alone |
| `SupervisionProofs.UiKeepsPhases` | src/LocalMediaTransfer.GUI/Services/Server/ServerManager.cs:140-169 | UI steps keep the phase invariants of the UI thread and of the current monitor |
| `SupervisionProofs.CurrentMonitorKeepsPhases` | src/LocalMediaTransfer.GUI/Services/Server/ServerProcessMonitor.cs:49-141 | a step of the current monitor keeps its phase, keeps the generation, and never changes the state of a server that is not up |
| `SupervisionProofs.UiMovesOneProcess` | src/LocalMediaTransfer.GUI/Services/Server/ServerManager.cs:400-453 | a UI step moves at most one process, and only one the UI thread created, detaches or holds |
| `SupervisionProofs.MonitorMovesOneProcess` | src/LocalMediaTransfer.GUI/Services/Server/ServerManager.cs:367-398 | a monitor step moves at most one process, and only one that monitor created, detaches or holds |
| `SupervisionProofs.PlaceMoveKeepsPlaces` | src/LocalMediaTransfer.GUI/Services/Server/ServerManager.cs:261-272 | such a move keeps the exact correspondence between places of processes and the threads or field that hold them |
| `SupervisionProofs.UiKeepsBudget` | src/LocalMediaTransfer.GUI/Services/Server/ServerManager.cs:150-155 | UI steps keep launches of every generation within one plus its restarts |
| `SupervisionProofs.MonitorKeepsBudget` | src/LocalMediaTransfer.GUI/Services/Server/ServerProcessMonitor.cs:122-133 | monitor steps keep launches of every generation within one plus its restarts |
| `ServerManager.Manager.constructor` | src/LocalMediaTransfer.GUI/Services/Server/ServerManager.cs:39-44 | a new manager is Stopped, owns nothing and is in generation 0 |
| `ServerManager.Manager.SetState` | src/LocalMediaTransfer.GUI/Services/Server/ServerManager.cs:485-507 | writes the state exactly if the expected generation is absent or current, and reports which |
| `ServerManager.Manager.AssignOwnedProcess` | src/LocalMediaTransfer.GUI/Services/Server/ServerManager.cs:261-272 | takes ownership exactly if the expected generation is absent or current |
| `ServerManager.Manager.DetachOwnedProcess` | src/LocalMediaTransfer.GUI/Services/Server/ServerManager.cs:432-453 | empties the field and hands out the process exactly if generation and process match |
| `ServerManager.Manager.SupersedeMonitor` | src/LocalMediaTransfer.GUI/Services/Server/ServerManager.cs:461-464 | makes every existing monitor stale |
| `ServerManager.Manager.GetOwnedProcess` | src/LocalMediaTransfer.GUI/Services/Server/ServerManager.cs:321-327 | hands out the owned process to the current generation only |
| `PipeQueue.EveryInterleaving` | src/Server/src/ipc/PipeServer.cpp:146-171 | in every interleaving of senders, takes, successful and failed writes: queued plus in flight is at most 256; accepted important messages equal delivered ++ in flight ++ queued in order; at most two of a coalescible type and at most 225 logs are outstanding |
| `PipeQueue.RefusedOnlyByImportant` | src/Server/src/ipc/PipeServer.cpp:437-454 | an important message is refused if and only if at least 255 messages are queued and all are important |
| `PipeQueue.EnqueueKeepsImportant` | src/Server/src/ipc/PipeServer.cpp:413-456 | a send appends its important message or refuses it; coalescing, log drops and eviction leave the important messages as they were |
| `PipeQueue.EnqueueBoundsKind` | src/Server/src/ipc/PipeServer.cpp:414-425 | a send never creates a second queued message of a coalescible type |
| `PipeQueue.EnqueueBoundsLogs` | src/Server/src/ipc/PipeServer.cpp:427-435 | a send never brings the queued logs above 224, the limit less the reserve |
| `PipeQueue.StepKeepsReserve` | src/Server/src/ipc/PipeServer.cpp:427-435 | every step, requeueing included, leaves the reserve but for one place to messages that are not logs |
| `PipeQueue.QueuedUnlessRefused` | src/Server/src/ipc/PipeServer.cpp:413-456 | a message of any type is in the queue with its payload after the send if and only if it was not refused or was there before |
| `PipeQueue.LogsStopAtReserve` | src/Server/src/ipc/PipeServer.cpp:427-435 | a log is appended if and only if fewer than 224 messages are queued, and otherwise changes nothing |
| `PipeQueue.ValuesYieldToImportant` | src/Server/src/ipc/PipeServer.cpp:414-454 | a coalescible message is absent afterwards if and only if 255 or more are queued, all of them important |
| `PipeQueue.OldestIsEvicted` | src/Server/src/ipc/PipeServer.cpp:437-456 | a full queue gives up exactly its oldest log or value for a message it lets in |
| `PipeQueue.RoomIsKept` | src/Server/src/ipc/PipeServer.cpp:437-456 | below 255 an important message is appended with nothing thrown away, no send shortens the queue, and sends alone never bring it past 255 |
| `PipeQueue.SendEnqueues` | src/Server/src/ipc/PipeServer.cpp:403-457 | in every interleaving a send does to the queue what the call does to it alone, and leaves the message in flight |
| `PipeQueue.HeldWasSent` | src/Server/src/ipc/PipeServer.cpp:146-171 | in every interleaving whatever is delivered, in flight or queued was sent as it is |
| `PipeQueue.DrainDelivers` | src/Server/src/ipc/PipeServer.cpp:146-171 | while writes succeed the drain loop delivers everything queued, of any type, in order |
| `PipeQueue.TypesAreKinds` | src/Server/src/ipc/PipeServer.cpp:468-472 | types are told apart by name, and exactly metrics, transfer_history and trusted_devices are coalescible |
| `PipeQueue.HandshakePassesFirst` | src/Server/src/ipc/PipeServer.cpp:404-411 | a message passes the gate if and only if a client is connected and either needs no authentication, has it, or the message is one of the three of the handshake |
| `PipeQueue.CoalescingKeepsCounts` | src/Server/src/ipc/PipeServer.cpp:414-425 | overwriting in place keeps the number of messages of every type |
| `PipeQueue.EvictionLowersCounts` | src/Server/src/ipc/PipeServer.cpp:438-446 | eviction raises the count of no type |
| `PipeQueue.SendKeepsOrder` | src/Server/src/ipc/PipeServer.cpp:413-456 | a send at any time keeps accepted == delivered ++ in flight ++ queued for important messages |
| `PipeQueue.TakeKeepsOrder` | src/Server/src/ipc/PipeServer.cpp:149-155 | so does taking the front message |
| `PipeQueue.WrittenKeepsOrder` | src/Server/src/ipc/PipeServer.cpp:156-162 | so does a successful write |
| `PipeQueue.RequeueKeepsOrder` | src/Server/src/ipc/PipeServer.cpp:163-170 | so does a failed write that requeues at the front |
| `PipeQueue.DisposableIsInvisible` | src/Server/src/ipc/PipeServer.cpp:421-446 | overwriting or evicting a message that is not important leaves the important ones and their order alone |
| `PipeQueue.OverwrittenIsFirst` | src/Server/src/ipc/PipeServer.cpp:414-425 | coalescing makes the new payload the last of its type only if the overwritten message was the only one |
| `PipeQueue.StepKeepsInv` | src/Server/src/ipc/PipeServer.cpp:146-171 | every step keeps bound, order, per-type limit and reserve |
| `PipeQueue.FailedWriteLeavesTwo` | src/Server/src/ipc/PipeServer.cpp:163-170 | a failed write can leave two messages of one coalescible type queued, the concrete run |
| `PipeQueue.NewestValueIsLast` | src/Server/src/ipc/PipeServer.cpp:414-425 | an accepted coalescible message is the last of its type in the queue if and only if at most one of the type was queued or the last one queued already said the same |
| `PipeQueue.PipeServer.constructor` | src/Server/include/ipc/PipeServer.hpp:103-107 | a new queue is empty and has dropped nothing |
| `PipeQueue.PipeServer.SendMessage` | src/Server/src/ipc/PipeServer.cpp:403-457 | a message that does not pass the gate changes nothing; any other goes through the locked section |
| `PipeQueue.PipeServer.SendLocked` | src/Server/src/ipc/PipeServer.cpp:413-457 | the locked section turns the queue into the specified one, and counts a drop if and only if a log finds 224 or more queued |
| `PipeQueue.PipeServer.FindKind` | src/Server/src/ipc/PipeServer.cpp:415-420 | the search finds the first message of the type |
| `PipeQueue.PipeServer.FindDisposable` | src/Server/src/ipc/PipeServer.cpp:438-445 | the search finds the first log or coalescible message |
| `PipeQueue.PipeServer.TakeFront` | src/Server/src/ipc/PipeServer.cpp:149-155 | takes the front message and leaves the rest |
| `PipeQueue.PipeServer.RequeueFront` | src/Server/src/ipc/PipeServer.cpp:163-167 | puts the failed message back in front of everything queued meanwhile |
| `WorkerPool.HandedAtMostOnce` | src/LocalMediaTransfer.WindowsClient/BoundedWorkerPool.cs:12-22 | in every schedule the indices handed out are 0, 1, 2, … without repetition, and every completed one was handed out and completed once |
| `WorkerPool.NormalReturnIsComplete` | src/LocalMediaTransfer.WindowsClient/BoundedWorkerPool.cs:37-38 | if the pool returns normally, every index occurs exactly once among the completed ones |
| `WorkerPool.UndisturbedSucceeds` | src/LocalMediaTransfer.WindowsClient/BoundedWorkerPool.cs:14-38 | a pool in which nothing throws and nobody cancels never fails, and succeeds once its workers have stopped |
| `WorkerPool.JoinVerdict` | src/LocalMediaTransfer.WindowsClient/BoundedWorkerPool.cs:37-38 | the join succeeds if and only if no worker threw and the caller has not cancelled |
| `WorkerPool.CompletionIsReached` | src/LocalMediaTransfer.WindowsClient/BoundedWorkerPool.cs:14-38 | for every number of items and workers some schedule completes all items and succeeds |
| `WorkerPool.ThrowFailsPool` | src/LocalMediaTransfer.WindowsClient/BoundedWorkerPool.cs:24-34 | an item that throws without excuse rules out success for ever; if fatal it also ends the session, and the others begin at most one item each |
| `WorkerPool.ExcusedReturns` | src/LocalMediaTransfer.WindowsClient/BoundedWorkerPool.cs:24-29 | an item cancelled because the session is over lets its worker return quietly |
| `WorkerPool.ThrowingWorkerStops` | src/LocalMediaTransfer.WindowsClient/BoundedWorkerPool.cs:30-34 | a worker whose item threw stops by its next step |
| `WorkerPool.CallerCancels` | src/LocalMediaTransfer.WindowsClient/BoundedWorkerPool.cs:10-11 | a caller who cancels before the join gets no success, and ends the session |
| `WorkerPool.CancellationStopsClaims` | src/LocalMediaTransfer.WindowsClient/BoundedWorkerPool.cs:16-18 | after the session is cancelled only workers already past their check hand out one more item each |
| `WorkerPool.WorkersAreBounded` | src/LocalMediaTransfer.WindowsClient/BoundedWorkerPool.cs:13 | in every schedule there are as many workers as allowed, but no more than items |
| `WorkerPool.JoinKeepsInv` | src/LocalMediaTransfer.WindowsClient/BoundedWorkerPool.cs:37-38 | all workers stopped without a throw and without outer cancellation leaves no index unprocessed |
| `WorkerPool.StepKeepsInv` | src/LocalMediaTransfer.WindowsClient/BoundedWorkerPool.cs:16-36 | every step of every worker, of cancellation and of the join keeps the pool invariant |
| `WorkerPool.RunKeepsInv` | src/LocalMediaTransfer.WindowsClient/BoundedWorkerPool.cs:9-38 | every schedule keeps the pool invariant |
| `WorkerPool.AdvanceKeepsOwners` | src/LocalMediaTransfer.WindowsClient/BoundedWorkerPool.cs:18-22 | claiming keeps the one-to-one relation between handed indices and working workers |
| `WorkerPool.FinishKeepsBlame` | src/LocalMediaTransfer.WindowsClient/BoundedWorkerPool.cs:24-34 | a cancelled session or an abandoned item is always traceable to a worker that throws or to the caller |
| `WorkerPool.NonFinishFrame` | src/LocalMediaTransfer.WindowsClient/BoundedWorkerPool.cs:16-19 | a step that ends no item changes no item except for handing out a new one |
| `WorkerPool.IndexCounter.constructor` | src/LocalMediaTransfer.WindowsClient/BoundedWorkerPool.cs:12 | a new counter has given out nothing |
| `WorkerPool.IndexCounter.Claim` | src/LocalMediaTransfer.WindowsClient/BoundedWorkerPool.cs:18-19 | an index given out was never given out before and is in range, and none is given out only if all have been; the pool takes its claims from the same function |
| `TransferSession.ResultsAreWrittenOnce` | src/LocalMediaTransfer.WindowsClient/NativeTransferClient.cs:95-137 | with distinct ids, in every schedule no step changes or removes a result already written |
| `TransferSession.NormalReturnIsFull` | src/LocalMediaTransfer.WindowsClient/NativeTransferClient.cs:138-145 | on a normal return exactly the sources have results, `terminal` exceeds their number by the repeats of the preflight reply, and so equals it if and only if the reply named no file twice |
| `TransferSession.SummaryIsPerSource` | src/LocalMediaTransfer.WindowsClient/NativeTransferClient.cs:141-154 | the summary has one entry per source in source order with its id and name; on a normal return, and wherever it is not the fallback, the entry is the written result; Cancelled is written only once the caller has cancelled |
| `TransferSession.ResultTellsUpload` | src/LocalMediaTransfer.WindowsClient/NativeTransferClient.cs:97-135 | after every schedule the result of a pending file is Completed, Skipped, Failed or Cancelled if and only if the steps of the run show its upload completed, was skipped by the receiver, ended in an error not fatal to the session, or was aborted after the caller cancelled |
| `TransferSession.SummaryTellsUpload` | src/LocalMediaTransfer.WindowsClient/NativeTransferClient.cs:141-154 | in the summary a file named by the reply is Skipped, and every other one has the state its upload left, or the fallback if it left none |
| `TransferSession.NamedStaySkipped` | src/LocalMediaTransfer.WindowsClient/NativeDuplicatePreflight.cs:48-54 | after every schedule a file named by the reply is Skipped |
| `TransferSession.ThrownUploadFailsPool` | src/LocalMediaTransfer.WindowsClient/NativeTransferClient.cs:117-119 | a fatal or unexpected exception of an upload rules out a normal return; a fatal one ends the session for the other workers |
| `TransferSession.AbortedUploadReturns` | src/LocalMediaTransfer.WindowsClient/BoundedWorkerPool.cs:24-29 | an upload aborted because the session is over leaves no result and lets its worker return |
| `TransferSession.TerminalIsBounded` | src/LocalMediaTransfer.WindowsClient/NativeTransferClient.cs:107-132 | in every schedule `terminal` exceeds the number of sources by no more than the repeats of the reply, so not at all for a reply without repeats |
| `TransferSession.RecordSkips` | src/LocalMediaTransfer.WindowsClient/NativeDuplicatePreflight.cs:45-56 | the reply loop fails exactly when an entry to skip names no source; otherwise it skips exactly the named files, and `terminal` equals their number if and only if no id is named twice |
| `TransferSession.FindSource` | src/LocalMediaTransfer.WindowsClient/NativeDuplicatePreflight.cs:50 | finds a source with the id if and only if there is one |
| `TransferSession.DistinctMeansCountable` | src/LocalMediaTransfer.WindowsClient/NativeDuplicatePreflight.cs:53-54 | the set of skipped ids has as many members as entries acted on if and only if no id repeats |
| `TransferSession.PendingMembers` | src/LocalMediaTransfer.WindowsClient/NativeTransferClient.cs:92-93 | pending are exactly the sources not skipped |
| `TransferSession.PendingIsDistinct` | src/LocalMediaTransfer.WindowsClient/NativeTransferClient.cs:92-93 | filtering keeps ids distinct |
| `TransferSession.PendingPartitions` | src/LocalMediaTransfer.WindowsClient/NativeTransferClient.cs:92-93 | every source is either skipped or pending, and the two numbers add up to the number of sources |
| `TransferSession.StepKeepsResults` | src/LocalMediaTransfer.WindowsClient/NativeTransferClient.cs:106-133 | every step keeps results with the names of their sources, and Cancelled only after the caller cancelled |
| `TransferSession.ResultsAreSources` | src/LocalMediaTransfer.WindowsClient/NativeTransferClient.cs:138-145 | after a pool that succeeded the results are exactly those of the sources |
| `TransferSession.StepKeepsInv` | src/LocalMediaTransfer.WindowsClient/NativeTransferClient.cs:95-137 | every step of pool or worker body keeps the relation of pool, results and counter |
| `TransferSession.RunKeepsInv` | src/LocalMediaTransfer.WindowsClient/NativeTransferClient.cs:95-137 | every schedule keeps it |
| `TransferSession.SucceededCountsAll` | src/LocalMediaTransfer.WindowsClient/NativeTransferClient.cs:95-137 | a pool that succeeded has recorded and counted every pending file once |
| `Telemetry.AtMostOnePump` | src/LocalMediaTransfer.WindowsClient/NativeTransferTelemetry.cs:16-24 | in every interleaving at most one pump task is in its loop |
| `Telemetry.PendingHasPump` | src/LocalMediaTransfer.WindowsClient/NativeTransferTelemetry.cs:44-57 | no lost wake-up: while unfinished, a pending sample always has a live pump |
| `Telemetry.SentIsSubsequence` | src/LocalMediaTransfer.WindowsClient/NativeTransferTelemetry.cs:59-71 | samples sent carry strictly increasing positions among those recorded, with the recorded values, and samples are taken at least a second apart |
| `Telemetry.ZeroEndsTrace` | src/LocalMediaTransfer.WindowsClient/NativeTransferTelemetry.cs:26-42 | once FinishAsync has posted its zero, the trace ends with exactly that zero and stays unchanged for ever |
| `Telemetry.NewestIsNeverDropped` | src/LocalMediaTransfer.WindowsClient/NativeTransferTelemetry.cs:59-71 | until the transfer finishes, the newest recorded sample is pending, on its way, or the last one sent |
| `Telemetry.PendingIsSent` | src/LocalMediaTransfer.WindowsClient/NativeTransferTelemetry.cs:44-73 | from every reachable state one second and at most four steps of the live pump send what is pending |
| `Telemetry.FinishCompletes` | src/LocalMediaTransfer.WindowsClient/NativeTransferTelemetry.cs:35-40 | every FinishAsync that has begun can complete: the pump it waits for ends and the zero is posted |
| `Telemetry.PumpLeavesAfterFinish` | src/LocalMediaTransfer.WindowsClient/NativeTransferTelemetry.cs:49-66 | after FinishAsync has begun any pump ends within a second and three steps of its own |
| `Telemetry.FinishBegins` | src/LocalMediaTransfer.WindowsClient/NativeTransferTelemetry.cs:28-34 | FinishAsync forgets what is pending and waits for the pump there is |
| `Telemetry.RecordIsPending` | src/LocalMediaTransfer.WindowsClient/NativeTransferTelemetry.cs:16-24 | until then every rate recorded becomes the pending sample, with a pump for it |
| `Telemetry.PumpIsPrompt` | src/LocalMediaTransfer.WindowsClient/NativeTransferTelemetry.cs:56-58 | a pump waits only after a first sample, until exactly one second after the last |
| `Telemetry.RateIsConverted` | src/LocalMediaTransfer.WindowsClient/NativeTransferTelemetry.cs:21 | megabytes per second are posted as bytes per second, negative ones as 0 |
| `Telemetry.RunInv` | src/LocalMediaTransfer.WindowsClient/NativeTransferTelemetry.cs:16-73 | every interleaving keeps the pump, sample, trace, finish and clock invariants |
| `Telemetry.StepKeepsInv` | src/LocalMediaTransfer.WindowsClient/NativeTransferTelemetry.cs:16-73 | every step keeps them |
| `Telemetry.PumpKeepsSamples` | src/LocalMediaTransfer.WindowsClient/NativeTransferTelemetry.cs:59-71 | what is pending is the newest sample and was never sent |
| `Telemetry.PumpKeepsTrace` | src/LocalMediaTransfer.WindowsClient/NativeTransferTelemetry.cs:71 | posting keeps the trace increasing and true to what was recorded |
| `Telemetry.PumpKeepsClock` | src/LocalMediaTransfer.WindowsClient/NativeTransferTelemetry.cs:56-70 | the pump keeps takes at least a second apart |
| `Telemetry.BytesPerSecond` | src/LocalMediaTransfer.WindowsClient/NativeTransferTelemetry.cs:21 | the rate posted is never negative |
| `Telemetry.NativeTransferTelemetry.constructor` | src/LocalMediaTransfer.WindowsClient/NativeTransferTelemetry.cs:8-12 | a new sender has no pump, no sample, no clock stamp and is not finished |
| `Telemetry.NativeTransferTelemetry.RecordCurrentMediaRate` | src/LocalMediaTransfer.WindowsClient/NativeTransferTelemetry.cs:16-24 | stores the sample unless finished, and starts a pump exactly if there is none |
| `Telemetry.NativeTransferTelemetry.EnterPump` | src/LocalMediaTransfer.WindowsClient/NativeTransferTelemetry.cs:49-57 | leaves, clearing the field, exactly if finished or nothing is pending |
| `Telemetry.NativeTransferTelemetry.TakeSample` | src/LocalMediaTransfer.WindowsClient/NativeTransferTelemetry.cs:59-70 | takes the newest sample and stamps the clock unless finished |
| `Telemetry.NativeTransferTelemetry.BeginFinish` | src/LocalMediaTransfer.WindowsClient/NativeTransferTelemetry.cs:28-34 | finishes, drops the pending sample and names the pump to wait for |
| `SubnetWindow.WindowIsExact` | src/LocalMediaTransfer.WindowsClient/DiscoveryClient.cs:206-230 | for a private local address and contiguous mask nothing wraps: the window lies strictly between network and broadcast; with more than 1024 hosts it is exactly 1024 wide and holds every usable host in [local-512, local+511] |
| `SubnetWindow.WindowSurvives` | src/LocalMediaTransfer.WindowsClient/DiscoveryClient.cs:217-230 | for an arbitrary local address in a large subnet the window is non-empty if and only if local + 511 does not pass 2^32 |
| `SubnetWindow.WindowIsInside` | src/LocalMediaTransfer.WindowsClient/DiscoveryClient.cs:212-230 | for every local address, every address of the window is in the subnet and is neither network nor broadcast address |
| `SubnetWindow.EnumerateSubnet` | src/LocalMediaTransfer.WindowsClient/DiscoveryClient.cs:206-236 | for every address and mask: nothing unless the mask is 2^32 - 2^k for some k from 2 to 32; for k up to 10 exactly the other hosts of the block; otherwise exactly the window without the local address; always strictly increasing and inside the subnet |
| `SubnetWindow.ScannedMasks` | src/LocalMediaTransfer.WindowsClient/DiscoveryClient.cs:210-214 | a mask is scanned if and only if it is 2^32 - 2^k for some k from 2 to 32 |
| `SubnetWindow.SubnetOfPrefix` | src/LocalMediaTransfer.WindowsClient/DiscoveryClient.cs:215-216 | with such a mask the subnet is the block of 2^k addresses that holds the local one |
| `SubnetWindow.SmallSubnetIsWhole` | src/LocalMediaTransfer.WindowsClient/DiscoveryClient.cs:217-220 | a subnet of up to ten host bits is scanned from its second to its last but one address, whatever the local address |
| `SubnetWindow.LargeSubnetIsCut` | src/LocalMediaTransfer.WindowsClient/DiscoveryClient.cs:219-230 | a larger one is scanned in exactly 1024 of its hosts, among them all from 512 below to 511 above a private local address |
| `SubnetWindow.MaskClears` | src/LocalMediaTransfer.WindowsClient/DiscoveryClient.cs:215 | masking clears the host bits |
| `SubnetWindow.Enumerate` | src/LocalMediaTransfer.WindowsClient/DiscoveryClient.cs:231-235 | the loop yields the window without the local address in increasing order and stops at the last address there is |
| `SubnetWindow.SubnetIsInterval` | src/LocalMediaTransfer.WindowsClient/DiscoveryClient.cs:215-216 | an address shares the masked bits with the local one if and only if it lies between network and broadcast; broadcast is network plus host mask and does not wrap |
| `SubnetWindow.ContiguityTest` | src/LocalMediaTransfer.WindowsClient/DiscoveryClient.cs:213 | the test, wrap-around included, holds if and only if the host mask is ones at the low end |
| `SubnetWindow.MaskIsInterval` | src/LocalMediaTransfer.WindowsClient/DiscoveryClient.cs:215 | masking with a contiguous mask cuts addresses into intervals of equal width |
| `SubnetWindow.OrIsSum` | src/LocalMediaTransfer.WindowsClient/DiscoveryClient.cs:216 | network and host bits do not overlap, so the bitwise or is their sum |
| `SubnetWindow.HostsAreInside` | src/LocalMediaTransfer.WindowsClient/DiscoveryClient.cs:217-218 | first and last usable host are network + 1 and broadcast - 1, without wrap-around |
| `SubnetWindow.NarrowIsExact` | src/LocalMediaTransfer.WindowsClient/DiscoveryClient.cs:219-230 | narrowing keeps a small window and cuts a large one to exactly 1024 around the local address |
| `SubnetWindow.PrivateBlocks` | src/LocalMediaTransfer.WindowsClient/DiscoveryClient.cs:238-245 | the byte test holds if and only if the address is in one of the blocks of section 3 of RFC 1918 or section 2.1 of RFC 3927 |
| `SubnetWindow.FromUInt32` | src/LocalMediaTransfer.WindowsClient/DiscoveryClient.cs:254-257 | the number of the bytes of an address is the address |
| `SubnetWindow.BytesRoundTrip` | src/LocalMediaTransfer.WindowsClient/DiscoveryClient.cs:247-257 | the bytes of the number of an address are those bytes |
| `DestinationMerge.Merge` | src/LocalMediaTransfer.WindowsClient/DiscoveryClient.cs:155-182 | ends with distinct addresses, at most 1024, all from some list; below 1024 it is exactly their union; it is reached by a run of single turns from all lists at their start, at every point of which the numbers consumed from live lists differ by at most one with later lists ahead, and which ends with no list left or at the cap |
| `DestinationMerge.TakeTurn` | src/LocalMediaTransfer.WindowsClient/DiscoveryClient.cs:164-173 | one turn advances or removes only the candidate at the index, keeps earlier results and adds at most the new address, with a set in place of a search |
| `DestinationMerge.TurnLosesNothing` | src/LocalMediaTransfer.WindowsClient/DiscoveryClient.cs:164-173 | after a turn every address on offer is still kept or awaited |
| `DestinationMerge.TurnKeepsOrigin` | src/LocalMediaTransfer.WindowsClient/DiscoveryClient.cs:164-173 | a turn keeps results distinct and from some list, extends them by at most one, and keeps earlier ones in place |
| `DestinationMerge.TurnKeepsRound` | src/LocalMediaTransfer.WindowsClient/DiscoveryClient.cs:160-170 | a turn, removal included, leaves the lists before the index one behind those from it on |
| `DestinationMerge.FairRunExtends` | src/LocalMediaTransfer.WindowsClient/DiscoveryClient.cs:158-174 | a fair run followed by a turn into a fair point is a fair run |
| `DestinationMerge.EnumerateDestinations` | src/LocalMediaTransfer.WindowsClient/DiscoveryClient.cs:143-182 | for any subnets: distinct, at most 1024, only hosts of eligible subnets and all of those if below 1024, by a fair run over the enumerations of the ordered candidates |
| `DestinationMerge.SmallSubnetIsReachable` | src/LocalMediaTransfer.WindowsClient/DiscoveryClient.cs:146-153 | a host of a subnet with 2 to 10 host bits is a destination if and only if the interface is to be scanned, its address is private and the host is another one |
| `DestinationMerge.ReachableIsUnion` | src/LocalMediaTransfer.WindowsClient/DiscoveryClient.cs:146-153 | subnets are scanned independently of each other |
| `DestinationMerge.GatewaysComeFirst` | src/LocalMediaTransfer.WindowsClient/DiscoveryClient.cs:150-151 | among the candidates no subnet without a gateway comes before one with, and among equals Wi-Fi is first, then cable |
| `DestinationMerge.OrderedMembers` | src/LocalMediaTransfer.WindowsClient/DiscoveryClient.cs:146-151 | the candidates are exactly the eligible subnets, gateways first, then by interface priority |
| `DestinationMerge.OrderIsStable` | src/LocalMediaTransfer.WindowsClient/DiscoveryClient.cs:150-151 | the candidates of each rank are the eligible subnets of that rank, as often and in the order in which they were given |
| `DestinationMerge.OfRankMembers` | src/LocalMediaTransfer.WindowsClient/DiscoveryClient.cs:147-151 | a group of equal rank holds exactly the eligible subnets of that rank |
| `DestinationMerge.RemovalLosesNothing` | src/LocalMediaTransfer.WindowsClient/DiscoveryClient.cs:165-170 | removing an exhausted subnet loses no address |
| `DestinationMerge.AdvanceLosesOne` | src/LocalMediaTransfer.WindowsClient/DiscoveryClient.cs:165-173 | advancing a subnet takes exactly its next address out of what is awaited |
| `DestinationMerge.EnumerateOne` | src/LocalMediaTransfer.WindowsClient/DiscoveryClient.cs:152 | the enumeration of an eligible subnet holds exactly its scanned hosts |
| `DestinationMerge.EnumerateAll` | src/LocalMediaTransfer.WindowsClient/DiscoveryClient.cs:152-153 | the list of enumerations matches the ordered subnets one by one |
| `DestinationMerge.OfferedIsReachable` | src/LocalMediaTransfer.WindowsClient/DiscoveryClient.cs:146-153 | an address in some list is a scanned host of an eligible subnet |
| `DestinationMerge.ReachableIsOffered` | src/LocalMediaTransfer.WindowsClient/DiscoveryClient.cs:146-153 | a scanned host of an eligible subnet is in some list |
| `UploadLedger.AccountingIdentity` | src/LocalMediaTransfer.iOS/src/services/UploadManager.ts:503-531 | at every await of every interleaving, for any progress reports, planned minus acknowledged equals the sum over planned, not failed files of size minus acknowledged bytes |
| `UploadLedger.AcknowledgedNeverExceedsPlanned` | src/LocalMediaTransfer.iOS/src/services/UploadManager.ts:752-783 | in every interleaving acknowledged bytes never exceed planned bytes |
| `UploadLedger.CountersAreSums` | src/LocalMediaTransfer.iOS/src/services/UploadManager.ts:503-531 | in every interleaving acknowledged is the sum of what was sent of every file, and planned the sum of the sizes of files that have not failed and of what was sent of those that have |
| `UploadLedger.ReportBringsTo` | src/LocalMediaTransfer.iOS/src/services/UploadManager.ts:753-765 | a report brings an active file exactly to what it reports, within what it had and its size; no number changes nothing |
| `UploadLedger.NativeUploadCompletes` | src/LocalMediaTransfer.iOS/src/services/UploadManager.ts:767-783 | a native upload whose last report is its size closes with all of it acknowledged |
| `UploadLedger.CompatibilityUploadCompletes` | src/LocalMediaTransfer.iOS/src/services/UploadManager.ts:823-873 | a compatibility upload may close after exactly as many chunks of 4 MiB as cover the file, and then all of it is acknowledged |
| `UploadLedger.FailureUnplansRest` | src/LocalMediaTransfer.iOS/src/services/UploadManager.ts:917-936 | a failing file keeps what was sent of it, and exactly its unsent bytes leave the plan |
| `UploadLedger.AbandonKeepsCounters` | src/LocalMediaTransfer.iOS/src/services/UploadManager.ts:918-923 | an upload given up on cancellation changes no counter |
| `UploadLedger.PlanAdds` | src/LocalMediaTransfer.iOS/src/services/UploadManager.ts:503-530 | a window adds its files to upload, waiting, and their bytes |
| `UploadLedger.PlanOfOne` | src/LocalMediaTransfer.iOS/src/services/UploadManager.ts:517-528 | a file to upload is planned with its size; a skipped or unhashed one not at all |
| `UploadLedger.PlanOfWindows` | src/LocalMediaTransfer.iOS/src/services/UploadManager.ts:506-530 | plans add up over files, in order |
| `UploadLedger.FailureFloorNeverBinds` | src/LocalMediaTransfer.iOS/src/services/UploadManager.ts:933-936 | neither clamp of the failure branch ever binds: exactly the unsent bytes of the file leave the plan |
| `UploadLedger.FinishedTransferIsComplete` | src/LocalMediaTransfer.iOS/src/services/UploadManager.ts:503-531 | when every file failed or is acknowledged in full, acknowledged equals planned |
| `UploadLedger.CompatibilityCloseIsFull` | src/LocalMediaTransfer.iOS/src/services/UploadManager.ts:813-873 | a file that finishes the compatibility loop has been acknowledged in full |
| `UploadLedger.PlanKeepsInv` | src/LocalMediaTransfer.iOS/src/services/UploadManager.ts:503-530 | planning a window keeps the identity |
| `UploadLedger.ReportKeepsInv` | src/LocalMediaTransfer.iOS/src/services/UploadManager.ts:753-765 | any report, stale, repeated, oversized or not finite, keeps the identity |
| `UploadLedger.ChunkKeepsInv` | src/LocalMediaTransfer.iOS/src/services/UploadManager.ts:823-873 | an acknowledged chunk keeps the identity |
| `UploadLedger.FailKeepsInv` | src/LocalMediaTransfer.iOS/src/services/UploadManager.ts:917-936 | a failing file keeps the identity |
| `UploadLedger.ChunkArithmetic` | src/LocalMediaTransfer.iOS/src/services/UploadManager.ts:827-828 | every chunk is non-empty, within the chunk size, and starts where the acknowledged bytes end |
| `UploadLedger.UploadAccounting.constructor` | src/LocalMediaTransfer.iOS/src/services/UploadManager.ts:170 | accounting starts with nothing planned and nothing acknowledged |
| `UploadLedger.UploadAccounting.AddWindow` | src/LocalMediaTransfer.iOS/src/services/UploadManager.ts:503-530 | the loop plans exactly the files to upload and adds their bytes once |
| `UploadLedger.UploadAccounting.RecordNativeAcknowledgement` | src/LocalMediaTransfer.iOS/src/services/UploadManager.ts:753-765 | per file, acknowledged bytes never decrease and never exceed the size |
| `UploadLedger.UploadAccounting.RecordFailure` | src/LocalMediaTransfer.iOS/src/services/UploadManager.ts:917-936 | failing takes exactly the unsent bytes out of the plan and keeps the identity |
| `MetadataMigration.MigrationIsConfluent` | src/Server/include/config/MetadataMigration.hpp:11-37 | every order of the listing reaches the same final state, defined without an order |
| `MetadataMigration.MigrationIsResumable` | src/Server/include/config/MetadataMigration.hpp:25-36 | after any number of runs killed between renames, a run that completes reaches the uninterrupted outcome |
| `MetadataMigration.MigrationIsIdempotent` | src/Server/include/config/MetadataMigration.hpp:15-36 | a further run changes nothing, in whatever order either run lists the directory |
| `MetadataMigration.NothingIsLost` | src/Server/include/config/MetadataMigration.hpp:25-36 | after any number of killed runs, and after the complete run that follows, every file is where it was or has moved with its content, and no current file is overwritten |
| `MetadataMigration.FamilyIsNeverSplit` | src/Server/include/config/MetadataMigration.hpp:16-30 | after any number of killed runs the whole hashes.db family of the legacy directory is in place; after the complete run it is in place as a whole, or moved as a whole with the directory |
| `MetadataMigration.CompleteRunIsExact` | src/Server/include/config/MetadataMigration.hpp:11-37 | after any number of killed runs a complete run leaves in the legacy directory exactly the hash database and the names in use, has moved every other file with its content, and has removed the directory if and only if nothing stays |
| `MetadataMigration.KilledIsPartial` | src/Server/include/config/MetadataMigration.hpp:25-33 | a killed run has moved exactly what it had come to |
| `MetadataMigration.FamilyIsDatabase` | src/Server/include/config/MetadataMigration.hpp:26-30 | the test of the loop recognises exactly hashes.db and names starting with hashes.db-, in any mixture of ASCII cases |
| `MetadataMigration.KilledKeepsOutcome` | src/Server/include/config/MetadataMigration.hpp:25-33 | a run killed anywhere leaves a state with the same outcome |
| `MetadataMigration.SweepMoves` | src/Server/include/config/MetadataMigration.hpp:25-33 | the loop moves exactly the movable entries it visits |
| `MetadataMigration.MetadataFolders.constructor` | src/Server/include/config/MetadataMigration.hpp:13-14 | starts from any pair of directories, either of which may be missing |
| `MetadataMigration.MetadataFolders.MigrateMetadata` | src/Server/include/config/MetadataMigration.hpp:11-37 | the in-place loop reaches the order-free outcome: the hash database and names in use stay, all else has moved |
| `RateLease.LeasesAgree` | src/LocalMediaTransfer.GUI/Services/Pipe/PipeContracts.cs:80-99 | for any sessions and any d, the speed the GUI computes d ms after an instantly delivered snapshot equals what the server would report then, "unavailable" included |
| `RateLease.LeaseIsExact` | src/Server/src/stats/MetricsCollector.cpp:159-163 | a lease of one component runs out exactly when the server would drop it |
| `RateLease.LagIsBelowOneMillisecond` | src/Server/src/stats/MetricsCollector.cpp:160-163 | between whole milliseconds the GUI never drops a component before the server and keeps it less than 1 ms longer |
| `RateLease.AggregateFormIsExact` | src/LocalMediaTransfer.GUI/Services/Pipe/PipeContracts.cs:97-98 | a snapshot without components shows a speed if and only if all components would still be fresh, and the same one |
| `RateLease.ShortestLeaseIsSafe` | src/Server/src/stats/MetricsCollector.cpp:165-167 | until the shortest lease runs out every component is fresh and the total stands |
| `RateLease.AdmittedTraceFitsParser` | src/Server/src/server/HttpServer.cpp:729-738 | for every trace of rates the HTTP handler admits, the parser accepts the snapshot |
| `RateLease.SnapshotFitsParser` | src/LocalMediaTransfer.GUI/Services/Pipe/PipeMessageParser.cs:154-167 | after every trace a snapshot has at most 32 components with leases of 1 to 30000 ms, and the parser accepts it if and only if no fresh session recorded more than 10^12 bytes per second and all of them together at most 4 * 10^12 |
| `RateLease.OneReportFitsParser` | src/LocalMediaTransfer.GUI/Services/Pipe/PipeMessageParser.cs:48-51 | of the collector alone: the parser accepts the report of a single client if and only if its rate is at most 10^12 bytes per second |
| `RateLease.CappedIsInRange` | src/Server/src/server/HttpServer.cpp:731-733 | 32 sessions at the handler limit are within the range of the parser |
| `RateLease.AdmittedTraceIsCapped` | src/Server/src/server/HttpServer.cpp:731-738 | admitted traces leave every recorded speed at or below the handler limit |
| `RateLease.LeasesAreBounded` | src/Server/src/stats/MetricsCollector.cpp:157-169 | components are at most the sessions, leases are 1 to 30000 ms, speeds and total are not negative |
| `RateLease.RunInv` | src/Server/src/stats/MetricsCollector.cpp:31-143 | after every trace there are at most 32 sessions with distinct ids and samples from the past |
| `RateLease.SpeedLifetime` | src/Server/src/stats/MetricsCollector.cpp:19-24 | every lifetime is between 5 and 30 seconds |
| `RateLease.LifetimeIsTwoChunks` | src/Server/src/stats/MetricsCollector.cpp:19-24 | a rate lasts 5 seconds if it is 0 or moves two chunks of 8 MiB in that time, and 30 if it needs that long |
| `RateLease.LifetimeBetween` | src/Server/src/stats/MetricsCollector.cpp:21-23 | otherwise it lasts the time of two chunks in whole milliseconds |
| `RateLease.ReportIsShownFor` | src/Server/src/stats/MetricsCollector.cpp:157-169 | a reported rate is shown for exactly its lifetime in whole milliseconds, and then no speed |
| `RateLease.StartEffect` | src/Server/src/stats/MetricsCollector.cpp:46-56 | a start leaves the new session without a rate, and keeps all others but the oldest of 32 |
| `RateLease.EndEffect` | src/Server/src/stats/MetricsCollector.cpp:66-74 | an end removes the addressed session and no other |
| `RateLease.RecordEffect` | src/Server/src/stats/MetricsCollector.cpp:103-117 | a report sets rate and time of the addressed session and nothing else; a negative one is refused |
| `RateLease.Lookup` | src/Server/src/stats/MetricsCollector.cpp:66-68 | finds the session with the id, or the only session for an empty id; finds none if and only if there is neither |
| `RateLease.Oldest` | src/Server/src/stats/MetricsCollector.cpp:48-51 | finds a session no other is older than |
| `RateLease.MetricsCollector.constructor` | src/Server/src/stats/MetricsCollector.cpp:27-29 | a new collector has no session |
| `RateLease.MetricsCollector.Start` | src/Server/src/stats/MetricsCollector.cpp:31-61 | a known id is restarted in place; a new one is added, and at 32 sessions the oldest makes room |
| `RateLease.MetricsCollector.End` | src/Server/src/stats/MetricsCollector.cpp:63-85 | removes the addressed session, and reports whether there was one |
| `RateLease.MetricsCollector.RecordClientSpeed` | src/Server/src/stats/MetricsCollector.cpp:100-117 | stores rate and time in the addressed session; refuses a negative rate or an unknown session |
| `RateLease.MetricsCollector.GetRealtimeMetrics` | src/Server/src/stats/MetricsCollector.cpp:152-180 | the single loop computes components, total, shortest lease and availability of the recursive specification |
| `RateLease.RecomputeSpeed` | src/LocalMediaTransfer.GUI/Services/Pipe/PipeContracts.cs:80-99 | the GUI loop computes the specified speed, for both forms of a snapshot |
| `RateTracker.NativeTransferRateTracker.Acknowledge` | src/LocalMediaTransfer.WindowsClient/NativeTransferRateTracker.cs:16-32 | keeps all fields equal to their definition over the full history: active bytes less than 5 s old, total bytes, last rate, peak |
| `RateTracker.PeakIsMaximum` | src/LocalMediaTransfer.WindowsClient/NativeTransferRateTracker.cs:31 | the peak bounds every rate computed so far and is one of them |
| `RateTracker.CurrentNeverExceedsPeak` | src/LocalMediaTransfer.WindowsClient/NativeTransferRateTracker.cs:34-42 | the current rate is between 0 and the peak |
| `RateTracker.WindowIsSuffix` | src/LocalMediaTransfer.WindowsClient/NativeTransferRateTracker.cs:22-26 | stale acknowledgements form a prefix, so the bytes in the window are the total of the rest |
| `RateTracker.StaleAfterMs` | src/LocalMediaTransfer.WindowsClient/NativeTransferRateTracker.cs:37-39 | a rate is shown for 5 to 30 seconds |
| `RateTracker.StaleAfterTwoChunks` | src/LocalMediaTransfer.WindowsClient/NativeTransferRateTracker.cs:37-39 | that time is what two chunks of 8 MiB take at the rate, within 5 and 30 seconds |
| `RateTracker.RateIsShownThenZero` | src/LocalMediaTransfer.WindowsClient/NativeTransferRateTracker.cs:34-42 | after an acknowledgement the rate is shown exactly until then, at least 5 and at most 30 seconds, and 0 after it |
| `RateTracker.RateIsBytesOverTime` | src/LocalMediaTransfer.WindowsClient/NativeTransferRateTracker.cs:27-29 | a rate is bytes over the time since the start, taken as at least 1 ms and at most 5 s, in megabytes per second |
| `RateTracker.ClampedSeconds` | src/LocalMediaTransfer.WindowsClient/NativeTransferRateTracker.cs:27-28 | the divisor is between 1 ms and 5 s |
| `RateTracker.NativeTransferRateTracker.constructor` | src/LocalMediaTransfer.WindowsClient/NativeTransferRateTracker.cs:6-14 | a new tracker agrees with the empty history |
| `RateTracker.NativeTransferRateTracker.Append` | src/LocalMediaTransfer.WindowsClient/NativeTransferRateTracker.cs:19-21 | appending keeps both sums and the queue a suffix of the history |
| `RateTracker.NativeTransferRateTracker.Trim` | src/LocalMediaTransfer.WindowsClient/NativeTransferRateTracker.cs:22-26 | trimming leaves exactly the acknowledgements younger than 5 s, and their sum |
| `RateTracker.NativeTransferRateTracker.UpdateRates` | src/LocalMediaTransfer.WindowsClient/NativeTransferRateTracker.cs:27-31 | rate and peak become those of the extended history |
| `RateTracker.NativeTransferRateTracker.CurrentMBps` | src/LocalMediaTransfer.WindowsClient/NativeTransferRateTracker.cs:34-42 | shows the last rate while it is fresh, never more than the peak |
| `CsvExport.CsvRoundTrip` | tools/LocalMediaTransfer.Benchmarks/BenchmarkExporter.cs:106-115 | for arbitrary strings, a reader written from section 2 of RFC 4180 recovers exactly the rows if and only if every row has at least one field |
| `CsvExport.FileRoundTrip` | tools/LocalMediaTransfer.Benchmarks/BenchmarkExporter.cs:106-109 | every printed table reads back, a row without fields as one empty field |
| `CsvExport.RecordRoundTrip` | tools/LocalMediaTransfer.Benchmarks/BenchmarkExporter.cs:106-109 | a printed row reads back as its fields |
| `CsvExport.FieldRoundTrip` | tools/LocalMediaTransfer.Benchmarks/BenchmarkExporter.cs:111-115 | an escaped value reads back as itself |
| `CsvExport.QuotedRoundTrip` | tools/LocalMediaTransfer.Benchmarks/BenchmarkExporter.cs:114 | doubling quotes inside quotes is undone by the reader |
| `CsvExport.PlainRoundTrip` | tools/LocalMediaTransfer.Benchmarks/BenchmarkExporter.cs:113 | a value that needs no quotes reads back as itself |
| `CsvExport.QuotesOnlyWhereNeeded` | tools/LocalMediaTransfer.Benchmarks/BenchmarkExporter.cs:111-115 | a value is written as it is if and only if it holds no comma, quote, CR or LF |
| `CsvExport.WriteRow` | tools/LocalMediaTransfer.Benchmarks/BenchmarkExporter.cs:106-109 | the loop appends the joined escaped fields and a line break |
| `CsvExport.WriteRows` | tools/LocalMediaTransfer.Benchmarks/BenchmarkExporter.cs:42-89 | writing rows one after the other gives the printed table |
| `WriteLock.DisposedSafely` | src/LocalMediaTransfer.GUI/Services/Pipe/PipeConnectionLoop.cs:145-156 | in every interleaving the lock is disposed at most once, only after `_disposed` is set and only while no send is active |
| `WriteLock.DisposedEventually` | src/LocalMediaTransfer.GUI/Services/Pipe/PipeConnectionLoop.cs:327-344 | once a Dispose and all sends have finished, it has been disposed exactly once |
| `WriteLock.SendsEnterUntilDisposed` | src/LocalMediaTransfer.GUI/Services/Pipe/PipeConnectionLoop.cs:108-115 | in every interleaving a new send enters if and only if the loop has not been disposed, which only a Dispose does |
| `WriteLock.EveryCallEnds` | src/LocalMediaTransfer.GUI/Services/Pipe/PipeConnectionLoop.cs:145-156 | a send or Dispose that has begun ends by its next step |
| `WriteLock.RunInv` | src/LocalMediaTransfer.GUI/Services/Pipe/PipeConnectionLoop.cs:108-156 | every interleaving of sends and Dispose keeps the reference count equal to the active sends and the last one responsible |
| `WriteLock.PipeConnectionLoop.constructor` | src/LocalMediaTransfer.GUI/Services/Pipe/PipeConnectionLoop.cs:26-28 | starts undisposed and without sends |
| `WriteLock.PipeConnectionLoop.EnterSend` | src/LocalMediaTransfer.GUI/Services/Pipe/PipeConnectionLoop.cs:108-115 | enters and counts exactly if not disposed |
| `WriteLock.PipeConnectionLoop.LeaveSend` | src/LocalMediaTransfer.GUI/Services/Pipe/PipeConnectionLoop.cs:147-155 | disposes the lock exactly if disposed, last and not done yet |
| `WriteLock.PipeConnectionLoop.BeginDispose` | src/LocalMediaTransfer.GUI/Services/Pipe/PipeConnectionLoop.cs:329-333 | only the first caller goes on |
| `WriteLock.PipeConnectionLoop.EndDispose` | src/LocalMediaTransfer.GUI/Services/Pipe/PipeConnectionLoop.cs:336-343 | disposes the lock exactly if no send is active and it is not done yet |
| `ChunkUpload.UploadFile` | src/LocalMediaTransfer.WindowsClient/NativeUploadWorker.cs:26-49 | a file finishes if and only if every chunk succeeds; then each chunk is acknowledged once, in order, together exactly the size, and name and verdict are those of the replies; otherwise the first failing chunk is reported; what is sent is exactly the attempts up to the deciding one of each chunk tried |
| `ChunkUpload.AttemptsAreOrdered` | src/LocalMediaTransfer.WindowsClient/NativeUploadWorker.cs:33-46 | these attempts go through the chunks in order, each at most four times |
| `ChunkUpload.AttemptsFollowFailures` | src/LocalMediaTransfer.WindowsClient/NativeUploadWorker.cs:77-104 | attempt k of a chunk is made if and only if k is below four and all before it failed in the connection or with status 408, 429, 500, 502, 503 or 504 |
| `ChunkUpload.LastNameIsLast` | src/LocalMediaTransfer.WindowsClient/NativeUploadWorker.cs:42-43 | the saved name is that of the last reply that gave one |
| `ChunkUpload.SendChunkWithRetry` | src/LocalMediaTransfer.WindowsClient/NativeUploadWorker.cs:54-106 | the reply is that of the first attempt not worth repeating or of the fourth, and exactly the attempts up to it are sent |
| `ChunkUpload.Deciding` | src/LocalMediaTransfer.WindowsClient/NativeUploadWorker.cs:77-98 | the deciding attempt is the first that is not retryable, or the fourth |
| `ChunkUpload.ChunksPartition` | src/LocalMediaTransfer.WindowsClient/NativeUploadWorker.cs:26-36 | chunks are non-empty, adjacent, and the last one ends at the size |
| `ChunkUpload.LimitsAgree` | src/LocalMediaTransfer.WindowsClient/NativeTransferClient.cs:11-15 | the C# and the TypeScript check accept the same positive sizes for equal chunk sizes: at most 100 GiB and 10,000 chunks |
| `ChunkUpload.CeilingBound` | src/LocalMediaTransfer.iOS/src/services/UploadManager.ts:747-748 | the rounded-up number of chunks is at most n if and only if the size is at most n chunks |
| `LogDedup.PruningIsUnobservable` | src/LocalMediaTransfer.GUI/App/NetworkLogService.cs:59-80 | for every trace under a non-decreasing clock, each call is accepted by the pruned log if and only if it is by one that never prunes |
| `LogDedup.ShownUnlessRepeated` | src/LocalMediaTransfer.GUI/App/NetworkLogService.cs:19-57 | for every trace, pruned or not, a message is shown if and only if it is not blank and every earlier showing of it is at least 2 seconds ago, or 12 for the two connection messages |
| `LogDedup.CacheIsLatest` | src/LocalMediaTransfer.GUI/App/NetworkLogService.cs:28-34 | without pruning the cache holds the time of the latest showing of every message |
| `LogDedup.PruningIsBounded` | src/LocalMediaTransfer.GUI/App/NetworkLogService.cs:59-80 | past 600 entries pruning removes exactly those more than 12 seconds old, before that nothing |
| `LogDedup.AcceptedAreShown` | src/LocalMediaTransfer.GUI/App/NetworkLogService.cs:37-41 | the accepted messages are those shown, newest first |
| `LogDedup.AsciiBlanks` | src/LocalMediaTransfer.GUI/App/NetworkLogService.cs:21-24 | among ASCII characters exactly tab to carriage return and space are blank |
| `LogDedup.PruningSimulates` | src/LocalMediaTransfer.GUI/App/NetworkLogService.cs:19-80 | both show the same entries, and the pruned cache lacks only what no window can reach |
| `LogDedup.ForgettingIsInvisible` | src/LocalMediaTransfer.GUI/App/NetworkLogService.cs:26-32 | forgetting an entry older than the longest window changes no later verdict |
| `LogDedup.AddForgets` | src/LocalMediaTransfer.GUI/App/NetworkLogService.cs:26-48 | one call keeps that relation |
| `LogDedup.EntriesAreNewest` | src/LocalMediaTransfer.GUI/App/NetworkLogService.cs:37-46 | the entries are always the newest at most 300 accepted messages in order |
| `LogDedup.WindowFor` | src/LocalMediaTransfer.GUI/App/NetworkLogService.cs:51-57 | every window is positive and at most the connection window |
| `LogDedup.NetworkLogService.constructor` | src/LocalMediaTransfer.GUI/App/NetworkLogService.cs:14-17 | a new service has no entries and an empty cache |
| `LogDedup.NetworkLogService.AddEntry` | src/LocalMediaTransfer.GUI/App/NetworkLogService.cs:19-49 | the in-place update is the specified one |
| `LogDedup.NetworkLogService.Prune` | src/LocalMediaTransfer.GUI/App/NetworkLogService.cs:59-80 | the loop removes exactly the expired entries, and none from a small cache |

## Left out

- Overlapping UI operations of the server manager and the order in which StateChanged events are delivered: operations are serialised, as the GUI calls them, and event handlers do not throw.
- Process inspection, killing, job objects and the ownership handshake: a process is a token with a place, and its exit, exit code and start failure are arbitrary.
- NoProcessLeaks: speaks of process objects; what starting a detached or disposed object does in the operating system is not modelled, since it is decided outside the program (`StartActsOnOwned` says exactly when it happens).
- Disposal of cancellation token sources, and the monitor's polling interval.
- Gate fields of the pipe server (`m_connected`, authentication): a producer may have read any combination before it takes the queue lock. Which connection a queued message belongs to is not claimed.
- Overflow of the pool's 32-bit counter, which needs two billion claims past the end.
- The hashing phase of the duplicate preflight (`verified` filled by index over the pool): it adds only an instance of `WorkerPool.NormalReturnIsComplete`.
- Distinct file ids are a condition of the transfer theorems, and progress callbacks do not throw.
- `ValidateSources` beyond its size check: file count, empty names and the session prefix of file ids would only add easy members.
- The file-changed check, retry delays, cancellation during a delay and reading the file in the chunk uploader; the bytes sent are identified by their range.
- The string matching in `ShouldScanInterface`: its verdict is an input of `DestinationMerge`. No gateway-first or Wi-Fi-first order of results is claimed, since the merge walks its list from the end.
- Throughput smoothing, thermal waits, the bounded queue and diagnostics of the iOS upload manager: each planned file is handed to one worker, and the throughput tracker is the running sum of acknowledged bytes.
- Case-insensitive file systems, permission errors and non-ASCII case folding in the migration; names compare exactly, and the database family is recognised by ASCII lower case.
- Peak speed, speed history, byte counters and durations of the metrics collector, and JSON parsing around the limits of the GUI parser.
- Floating-point rounding, infinities and NaN: speeds and rates are reals. Stopwatch ticks are 100 ns.
- JSON extraction in the benchmark exporter, and line breaks other than CRLF; the reader takes every character but comma, quote, CR and LF as text.
- Connection state of the pipe client: only the lifetime of the write lock is modelled.
- Non-ASCII case folding and timestamps of the network log.
- Cryptography, TLS pinning, pairing, HTTP, UDP and pipe I/O, SQLite stores, settings and all user interface code.
