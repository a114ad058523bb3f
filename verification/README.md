# Credimi Runner: a verified model of its core

Credimi Runner is a long-running service that supervises one execution "generation" at a
time.  This project models its most intricate parts in Dafny and proves what they keep:

- **Runtime supervisor** (`Generation`, `GenerationProofs`, `GenerationOutcome`, `SupervisorSpec`,
  `SupervisorProofs`, `SupervisorOutcome`, `RequestProofs`, `Supervisor`, `StateStore`):
  construction, activation, teardown, start, stop, restart, reconcile, close, light applies, rollback, the failure monitor,
  and the state file across crashes.
- **Operation coordinator** (`OperationSpec`, `OperationProofs`, `OperationOutcome`, `Operation`), **worker
  processes** (`ProcessSpec`, `Process`) and **tunnel processes** (`TunnelSpec`, `Tunnel`):
  small-step concurrency, one critical section at a time.
- **Coordinator lease** (`LockSpec`, `LockOutcome`, `Lock`) and **restart protocol** (`RestartSpec`,
  `RestartProofs`, `RestartOutcome`, `Runner`): processes that share files, one file operation at a time; and
  the one under the other (`LeasedRestart`).
- **Service compatibility** (`ServiceCompat`, `ServiceMeaning`, `ServiceDecision`, `ServiceRender`,
  `ServiceRendered`): must the
  service be replaced, as decided by the host and by the container, and what "compatible"
  guarantees about the service as it is rendered.
- **Pending changes** (`PendingSpec`, `PendingProofs`, `PendingOutcome`, `Pending`): what the dashboard
  remembers until it is applied.
- **Configuration** (`ConfigSpec`, `ConfigRules`, `ConfigBlocks`, `ConfigProofs`,
  `ConfigRoundTrip`, `ConfigReading`, `ConfigRefusal`, `Config`) and **inventory** (`InventoryProofs`,
  `InventoryReading`, `InventoryResave`, `InventorySaving`, `Inventory`): the typed and the flat representation.
- `Wrappers`, `Text` and `Numbers` hold optional values, strings, sorted lists and printed
  numbers.

Each imperative component appears twice: as functions on values that say what every step
does, and as classes and methods with the fields, branches and loops of the program, each
proved to take exactly the step of the functions.  Invariants and theorems are lemmas about
the functions, and hold for every run.  The `Outcome`, `Meaning`, `Reading`, `Saving` and
`Rendered` modules say independently of the functions what every operation answers and leaves
behind: which phase, configuration, action, field or call, and exactly when.

## How the outside world is modelled

- An outside call of the supervisor (API, edge, workers, lifecycle, registration, state save,
  and so on) is answered by an environment: an arbitrary function from the number of the call
  to its answer.  A statement about all environments is one about every failure of every
  call.  A save may report an error after the file was replaced; a registration may create
  the runner record and still fail; a poll of the failure buffer may find a failure that was
  forwarded just before.
- Interleavings are arbitrary sequences of critical sections or file operations.  In `Lock`
  and `Runner` a straight-line method runs with an arbitrary sequence of operations of other
  processes before each of its own.
- Time, timeouts and staleness become arbitrary choices.
- Hashes are injective on what they hash.  Durations are printed and read back faithfully;
  splitting an address is an arbitrary function.  Strings are sequences of characters, and
  white space and letter case are those of ASCII; numbers in a configuration have 64 bits.

## What turned out not to hold

Each of these has a lemma with the failing input and one that says exactly when it fails.

- A teardown without a local error closes everything unless a constructor of the edge or the
  telemetry returned nothing with a nil error (`NilErrorMeansClosed`, `PhantomExactly`,
  `PhantomEdgeStaysOpen`).  `Stop` and `Close` would then call `Error()` on a nil error, so the
  supervisor's theorems assume constructors that return an object or an error (`Wired`), as the
  repository's own do.
- A start requested while a transition runs may be lost: always during `Close`
  (`CloseOverwrites`), during `Stop` exactly if there is a generation (`StopKeepsExactly`),
  during `Reconcile` exactly if the slot keeps one (`ReconcileKeepsExactly`).
- One follower may act twice on one restart request (`MayActTwice`).  It does so exactly when
  the result file cannot be read or the last result was written since by another follower for
  another request (`ActsAgainExactly`, `TwiceMeansOverwritten`); a single follower never does
  (`OneCommandActsOnce`).
- `Start` of a worker that fails late stops the worker of a later `Start`
  (`LateStopHitsSuccessor`), exactly if the process runs by then in another generation
  (`LateStopExactly`).  A cancelled tunnel start stops the process of a later one
  (`CancelledStartHitsSuccessor`), exactly if that is in use by then (`CancelHitsAnotherExactly`).
- Releasing or reclaiming the coordinator lease may remove a lock that somebody else has just
  acquired (`ReleaseMayRemoveAnothersLock`, `ReclaimMayRemoveAnothersLock`), exactly if the lock
  that was looked at left its path in between and another is there (`HitsAnotherExactly`,
  `LookProtectsExactly`); the ownership check is not affected.
- The ownership check does not keep two processes from acting on one request: a follower may
  act after it has lost the lease (`LateActor`), exactly if the lock left its path after the
  check (`StillHeldExactly`).
- The last entry of the operation history need not be the newest operation
  (`LastNeedNotBeNewest`).  It is exactly if no later operation was recorded before it
  (`LastIsNewestExactly`), and always if submissions wait until nothing is active
  (`PatientHistoryInOrder`).
- The comment at `pkg/server/process.go:147` speaks of a replacement that the exiting worker
  must spare.  No such replacement can exist: the guard is always true (`ExitKeeps`).
- Extra USB capability is documented as a safe superset
  (`internal/servicemanager/service_fingerprint.go:217-219`).  On Linux the removal of the
  last USB device also leaves the host network (`RemovedUsbPhone`), so it is compatible exactly
  if something else keeps the service there (`LastUsbDeviceExactly`).
- Before setup the container may refuse what the host accepts (`BeforeSetupTheyMayDisagree`),
  exactly for want of a reason for the host network (`BeforeSetupExactly`).
- A dependency on "localhost." (with the dot) is never resolved
  (`LocalhostWithDotIsNeverCompatible`), nor is an address that no name spells canonically;
  exactly these leave a name unknown (`ResolutionMakesKnown`).
- Compatible services may differ in the source of the Android mount (`AndroidSourceMayDiffer`),
  exactly if they have keys of their own and only one of them gets nothing else
  (`AndroidSourceExactly`).
- Saving a loaded inventory twice differs from saving it once if the runner ID begins with
  two slashes, or a slash and a space (`TwoSlashes`), or a known-hosts path contains a space;
  exactly then (`SavingTwiceIsSavingOnce`).

## Model

| member | source | states |
|---|---|---|
| `SupervisorProofs.RunningMeansExecuting` | internal/runtimesupervisor/supervisor.go:187-768 | Over every run of transitions, start requests and component failures, with every outside call and state save free to fail: between transitions Actual is running exactly when the slot holds an executing generation; then Desired is running and no other generation executes |
| `SupervisorProofs.ActivationsFollowOrder` | internal/runtimesupervisor/supervisor.go:307-400 | The activation steps of every completed generation are a prefix of the documented order, each but the last succeeded, and an executing generation went through all of them |
| `SupervisorProofs.ResumedIsPaused` | internal/runtimesupervisor/supervisor.go:476-492 | Every Resume is followed by a Pause attempt before the transition that ends the generation returns; with a Register dependency none is paused before a registration was announced |
| `SupervisorProofs.OneOwner` | internal/runtimesupervisor/supervisor.go:195-239 | A completed generation is in the slot or has all five resources closed; each release succeeded at most once; its API was shut down before anything was done for a later generation |
| `SupervisorProofs.NoFailureIsLost` | internal/runtimesupervisor/supervisor.go:499-535 | An executing generation has exactly one monitor, and a failure forwarded to it is in its buffer or in that monitor's hands |
| `SupervisorProofs.StaleFailureIsIgnored` | internal/runtimesupervisor/supervisor.go:516-521 | A failure of a generation that is not in the slot, or no longer executes, changes neither state nor slot nor any other generation |
| `SupervisorProofs.DesiredChanges` | internal/runtimesupervisor/supervisor.go:476-563 | Desired becomes stopped only through Stop and running only through Start, Restart or RequestStart, although rollback and the failure handler write running |
| `SupervisorProofs.DesiredIsDecided` | internal/runtimesupervisor/supervisor.go:476-563 | Over every run: what is desired at the end was loaded and never changed, or the last operation that changed it was a Stop for stopped, and a Start, Restart or RequestStart for running |
| `RequestProofs.NothingLanded` | internal/runtimesupervisor/supervisor.go:149-157 | Without a request inside them, the transitions with requests are the plain Close, Stop, Reconcile, and Start or Restart with a failed first save |
| `RequestProofs.CloseOverwrites` | internal/runtimesupervisor/supervisor.go:742-768 | A start requested inside Close, before or after the teardown, is overwritten: Desired, also as last saved, is what it was when Close began; the invariant holds |
| `RequestProofs.StopKeepsExactly` | internal/runtimesupervisor/supervisor.go:537-563 | One requested inside Stop survives if and only if there was no generation to tear down; the invariant holds |
| `RequestProofs.ReconcileKeepsExactly` | internal/runtimesupervisor/supervisor.go:682-704 | One requested inside a Reconcile that found stopped desired survives if and only if the slot ends up empty; the invariant holds |
| `RequestProofs.RestoredForgets` | internal/runtimesupervisor/supervisor.go:195-204 | One requested between the failed first save of a Start or Restart and the restoration is forgotten in memory, while the last save says running and replaced the file exactly if that save had its effect |
| `SupervisorProofs.StopInv` | internal/runtimesupervisor/supervisor.go:537-563 | Stop keeps the invariant, leaves nothing executing, and on success the slot is empty and the state is stopped/stopped |
| `SupervisorProofs.CloseInv` | internal/runtimesupervisor/supervisor.go:742-768 | Close keeps the invariant and Desired; on success the slot is empty and Actual is stopped |
| `SupervisorProofs.RestartInv` | internal/runtimesupervisor/supervisor.go:565-586 | Restart keeps the invariant; success means a generation executes; when the first save fails nothing has changed |
| `SupervisorProofs.ReconcileInv` | internal/runtimesupervisor/supervisor.go:682-740 | Reconcile keeps the invariant and Desired; on success a generation executes exactly if running is desired |
| `SupervisorProofs.StartLockedInv` | internal/runtimesupervisor/supervisor.go:195-239 | Starting keeps the invariant; success means a generation executes; Desired is running unless the restored first save failed |
| `SupervisorProofs.RollbackInv` | internal/runtimesupervisor/supervisor.go:476-492 | A rollback at any point of an activation leads back to the invariant, with a pause for everything that was resumed |
| `SupervisorProofs.LightApplyKeeps` | internal/runtimesupervisor/supervisor.go:591-680 | A light apply changes no state and keeps the generation executing; configuration and URL advance only after the check and the registration both succeeded |
| `SupervisorProofs.MonitorHandlesInv` | internal/runtimesupervisor/supervisor.go:516-535 | Handling a failure keeps the invariant, and Desired is running if the generation was executing |
| `SupervisorProofs.StopWrites` | internal/runtimesupervisor/supervisor.go:537-563 | The writes of a Stop that returns nil end with stopped/stopped in the file |
| `SupervisorOutcome.RunsWhatWasAsked` | internal/runtimesupervisor/supervisor.go:195-240 | A Reconcile that returns nil while running is desired puts a new generation in the slot that executes the configuration it was given; a Start or Restart that makes one runs the configuration that the load call answered |
| `SupervisorOutcome.BuildExactly` | internal/runtimesupervisor/supervisor.go:223-239 | Making a generation succeeds if and only if no call of its construction and activation is an obstacle and running can be saved; then it executes this configuration in the slot, at the URL with which its edge answered its start or none, after exactly those calls; otherwise the first obstacle leads the error that is recorded and returned |
| `SupervisorOutcome.StartExactly` | internal/runtimesupervisor/supervisor.go:195-239 | Start by cases: failed first save, restored or recorded; already executing; a remainder that cannot be closed; otherwise load, check and build, in that order |
| `SupervisorOutcome.RestartExactly` | internal/runtimesupervisor/supervisor.go:565-586 | Restart likewise: pause and remove, stay failed with the causes if something could not be closed, otherwise start anew with the configuration loaded then |
| `SupervisorOutcome.ReconcileExactly` | internal/runtimesupervisor/supervisor.go:682-740 | Reconcile while running is desired: any failure of the removal is recorded and nothing is built, otherwise the given configuration is built |
| `SupervisorOutcome.ReconcileStoppedExactly` | internal/runtimesupervisor/supervisor.go:688-704 | Reconcile while stopped is desired: the slot is emptied and stopped recorded if and only if everything was closed, otherwise the causes |
| `SupervisorOutcome.StopExactly` | internal/runtimesupervisor/supervisor.go:537-563 | The state, slot, generations, both writes and the error of Stop, by what of the teardown failed |
| `SupervisorOutcome.CloseExactly` | internal/runtimesupervisor/supervisor.go:742-768 | The same for Close, which keeps Desired |
| `SupervisorOutcome.HandlesExactly` | internal/runtimesupervisor/supervisor.go:516-535 | A failure of the executing generation: taken down, recorded as failed with the failure first, out of the slot if and only if closed |
| `SupervisorOutcome.InventoryExactly` | internal/runtimesupervisor/supervisor.go:591-623 | Which calls a light apply of an inventory makes, when the devices are checked, and that the configuration becomes active only if no call fails, under the URL in use |
| `SupervisorOutcome.EndpointExactly` | internal/runtimesupervisor/supervisor.go:646-680 | The same for an endpoint, with the configured URL in manual mode |
| `SupervisorOutcome.ChangedExactly` | internal/runtimesupervisor/supervisor.go:625-641 | A device is checked if and only if it is enabled and physical and the last active device of its ID is not enabled and physical at the same address |
| `SupervisorOutcome.RequestExactly` | internal/runtimesupervisor/supervisor.go:149-157 | A requested start: running, a failure becomes stopped, the error is cleared, one write, nothing else |
| `GenerationProofs.NilErrorMeansClosed` | internal/runtimesupervisor/supervisor.go:770-823 | After a teardown every resource is closed if and only if the local error is nil and no constructor had returned nothing with a nil error |
| `GenerationProofs.PhantomExactly` | internal/runtimesupervisor/supervisor.go:266-301 | A construction that succeeds leaves a flag open for good exactly if the constructor of the edge or of the telemetry succeeded and returned nothing |
| `GenerationProofs.PhantomEdgeStaysOpen` | internal/runtimesupervisor/supervisor.go:289-301 | That happens: built with an edge constructor that returned nothing while every call works, the generation is torn down without any error and does not count as closed |
| `GenerationProofs.TeardownSound` | internal/runtimesupervisor/supervisor.go:770-823 | Teardown releases each resource successfully at most once over any number of attempts, and pauses first if asked to and registered |
| `GenerationProofs.ConstructionOutcome` | internal/runtimesupervisor/supervisor.go:241-305 | A construction holds exactly the parts whose constructors were supplied and has activated nothing |
| `GenerationOutcome.ConstructionExactly` | internal/runtimesupervisor/supervisor.go:241-305 | The calls of a construction, in order up to the first that fails, which is the error; the configuration is the one asked for |
| `GenerationOutcome.ActivationExactly` | internal/runtimesupervisor/supervisor.go:307-400 | The calls of an activation with every look at the failure buffer, in order up to the first that does not pass; it executes if and only if all pass, at the URL that the edge answered |
| `GenerationOutcome.TeardownExactly` | internal/runtimesupervisor/supervisor.go:770-823 | The calls of a teardown by what is held and what failed before; the remote error is the pause, the local one the failed releases in order; which flags are set and that the URL goes with the stopped edge |
| `RuntimeSupervisor.Supervisor.StartRuntime` | internal/runtimesupervisor/supervisor.go:187-193 | Takes exactly the specified start transition: new state, saves, calls made, every generation and the error |
| `RuntimeSupervisor.Supervisor.StartWhileLocked` | internal/runtimesupervisor/supervisor.go:195-239 | The same for startLocked with and without restoring the previous state |
| `RuntimeSupervisor.Supervisor.NewGeneration` | internal/runtimesupervisor/supervisor.go:241-305 | Builds the parts in order; a failed construction is torn down and its object dropped |
| `RuntimeSupervisor.Supervisor.ActivateGeneration` | internal/runtimesupervisor/supervisor.go:307-400 | Makes the activation calls in order, with the polls of the failure buffer between them, and stops at the first error |
| `RuntimeSupervisor.Supervisor.TeardownGeneration` | internal/runtimesupervisor/supervisor.go:770-823 | Tries every release whatever failed before, lowers and raises the five flags, and keeps the URL if the edge did not stop |
| `RuntimeSupervisor.Supervisor.RollBack` | internal/runtimesupervisor/supervisor.go:476-492 | Takes the specified rollback transition |
| `RuntimeSupervisor.Supervisor.StopRuntime` | internal/runtimesupervisor/supervisor.go:537-563 | Takes the specified stop transition |
| `RuntimeSupervisor.Supervisor.RestartRuntime` | internal/runtimesupervisor/supervisor.go:565-586 | Takes the specified restart transition |
| `RuntimeSupervisor.Supervisor.ReconcileWith` | internal/runtimesupervisor/supervisor.go:682-740 | Takes the specified reconcile transition |
| `RuntimeSupervisor.Supervisor.CloseRuntime` | internal/runtimesupervisor/supervisor.go:742-768 | Takes the specified close transition |
| `RuntimeSupervisor.Supervisor.RequestRuntimeStart` | internal/runtimesupervisor/supervisor.go:149-157 | Takes the specified request: running is desired, a failed state becomes stopped |
| `RuntimeSupervisor.Supervisor.ApplyInventoryOf` | internal/runtimesupervisor/supervisor.go:591-623 | Takes the specified light apply for an inventory |
| `RuntimeSupervisor.Supervisor.ApplyEndpointOf` | internal/runtimesupervisor/supervisor.go:646-680 | Takes the specified light apply for an endpoint |
| `RuntimeSupervisor.Supervisor.HandleGenerationFailure` | internal/runtimesupervisor/supervisor.go:516-535 | Takes the specified failure transition, on the generation in use only |
| `RuntimeSupervisor.Supervisor.ForwardFailure` | internal/runtimesupervisor/supervisor.go:866-878 | Takes the specified step of a component that fails, into the one-place buffer |
| `RuntimeSupervisor.Supervisor.ReceiveFailure` | internal/runtimesupervisor/supervisor.go:503-512 | Takes the specified step of a monitor that receives the failure |
| `RuntimeSupervisor.ChangedEnabledPhysicalDevices` | internal/runtimesupervisor/supervisor.go:625-641 | The loop over a map of previous devices returns exactly the enabled physical devices not enabled before at the same address, in order |
| `StateStore.StopIsDurable` | internal/runtimesupervisor/state_store.go:17-68 | After a Stop that returned nil, through any further operations without a start, a crash after any later write and any number of later processes that crash anywhere, the next process comes up stopped/stopped |
| `StateStore.AllLivesStayStopped` | internal/runtimesupervisor/state_store.go:17-45 | Once the file says stopped, processes that never start anything leave it so |
| `StateStore.LoadWritten` | internal/runtimesupervisor/state_store.go:17-68 | Loading what was saved gives it back |
| `StateStore.SavedIsAccepted` | internal/runtimesupervisor/state_store.go:38-54 | What is saved is accepted by loading exactly if both texts are known or missing; missing ones are read as stopped |
| `StateStore.LoadExactly` | internal/runtimesupervisor/state_store.go:17-45 | What each condition of the file is loaded as: accepted if and only if both texts are known, with an error of its own otherwise |
| `StateStore.StateFile.LoadState` | internal/runtimesupervisor/state_store.go:17-45 | Absent configuration, absent, unreadable and malformed file and invalid texts each give their own answer |
| `StateStore.StateFile.Save` | internal/runtimesupervisor/state_store.go:47-68 | Fills in missing texts and replaces the file, or leaves the old one |
| `OperationProofs.OneAtATime` | internal/controller/operation.go:88-181 | In every reachable state a queued or running operation is the active one, so there is at most one |
| `OperationProofs.RefusedWhileOneLives` | internal/controller/operation.go:95-102 | A submission is refused exactly while some operation is queued or running, and the refusal names it |
| `OperationProofs.RunGrows` | internal/controller/operation.go:134-181 | Over any run phases only move forward, a terminal snapshot never changes, and identity, kind and start time stay |
| `OperationProofs.NextGrows` | internal/controller/operation.go:134-181 | One step moves a phase by at most one: queued, running, terminal |
| `OperationProofs.DoneOnce` | internal/controller/operation.go:149-164 | The done channel is closed at most once and only on a terminal snapshot; an action that ends always finds its operation running |
| `OperationProofs.IndexIsExact` | internal/controller/operation.go:149-206 | The index is exactly the disjoint union of the history's IDs and the operations not yet recorded |
| `OperationProofs.HistoryIsRecent` | internal/controller/operation.go:166-177 | The history is free of duplicates, within its bound, holds final snapshots, and ends in the last one |
| `OperationProofs.RetrievableUntil` | internal/controller/operation.go:195-206 | A submitted ID can be looked up until maxHistory later operations have been recorded, and from then on never again |
| `OperationProofs.QuietShowsLast` | internal/controller/operation.go:178-193 | Once all operations are recorded none is active and the last history entry is current |
| `OperationProofs.LastIsNewestExactly` | internal/controller/operation.go:166-180 | In every reachable state, recording an operation leaves the newest recorded one as last exactly if no later operation is recorded already |
| `OperationProofs.RecordKeepsOrderExactly` | internal/controller/operation.go:166-180 | Recording keeps the whole journal in order of submission exactly under that condition |
| `OperationProofs.PatientHistoryInOrder` | internal/controller/operation.go:88-114 | If every submission waits until no operation is active (Submit only waits until none is live), journal and history are in order of submission |
| `OperationProofs.LastNeedNotBeNewest` | internal/controller/operation.go:149-181 | Without that it can be otherwise: a reachable state in which operation 2 is recorded and the last entry is operation 1 |
| `OperationOutcome.ConcludeExactly` | internal/controller/operation.go:116-166 | How an action ended decides phase, message, stored error and times: succeeded if and only if it returned nil with a live context, failed if and only if it failed without a cancellation, otherwise cancelled |
| `OperationOutcome.FinalTellsEnding` | internal/controller/operation.go:116-166 | Over every run: each final snapshot tells in this way how its action ended, in one step of the run |
| `OperationOutcome.HistoryTellsEnding` | internal/controller/operation.go:149-206 | So does every entry of the history and every finished operation that a lookup finds |
| `OperationOutcome.SubmitExactly` | internal/controller/operation.go:88-114 | A submission that is accepted queues one operation under the next number, shown and found at once; refused it changes nothing |
| `OperationOutcome.BeginExactly` | internal/controller/operation.go:116-117 | The first report makes a queued operation running |
| `OperationOutcome.ReportExactly` | internal/controller/operation.go:134-147 | A report changes phase, message and time of a running operation, and nothing after its end |
| `OperationOutcome.ReleaseExactly` | internal/controller/operation.go:149-165 | The channel is closed once, before the entry is made |
| `OperationOutcome.RecordExactly` | internal/controller/operation.go:167-181 | The entry is the final snapshot, the newest entries up to the bound stay in order, and the operation is active no more |
| `OperationCoordinator.Coordinator.SubmitOperation` | internal/controller/operation.go:88-114 | Takes the specified step and gives its answer |
| `OperationCoordinator.Coordinator.Begin` | internal/controller/operation.go:116-117 | Takes the specified step |
| `OperationCoordinator.Coordinator.Update` | internal/controller/operation.go:134-147 | Takes the specified step; reports after the end change nothing |
| `OperationCoordinator.Coordinator.Conclude` | internal/controller/operation.go:119-163 | The first half of finish, with the phase that error and context determine |
| `OperationCoordinator.Coordinator.CloseDone` | internal/controller/operation.go:164-164 | Closes the done channel of a concluded operation once |
| `OperationCoordinator.Coordinator.RecordFinal` | internal/controller/operation.go:166-180 | The second half of finish: history, pruning of the index, last, active |
| `OperationCoordinator.Coordinator.GetSnapshot` | internal/controller/operation.go:195-206 | Looks up by ID as specified |
| `OperationCoordinator.Coordinator.CurrentSnapshot` | internal/controller/operation.go:183-193 | The active operation, else the last one |
| `ProcessSpec.AnyInterleaving` | pkg/server/process.go:112-196 | In every interleaving at most one worker of a process is live, running means a live worker of the current generation, and each done channel is closed exactly once, at the worker's end |
| `ProcessSpec.StartKeeps` | pkg/server/process.go:116-139 | Start makes a worker exactly if none is live |
| `ProcessSpec.ExitKeeps` | pkg/server/process.go:145-154 | The generation guard at a worker's exit is always true, and the process is left without a worker |
| `ProcessSpec.StopKeeps` | pkg/server/process.go:183-196 | After Stop nothing runs and every live worker has been told to stop |
| `ProcessSpec.ClosedMeansIdle` | pkg/server/process.go:200-216 | A closed or absent channel means no live worker at all, and the other way round |
| `ProcessSpec.NilWaitLeavesNoWorker` | pkg/server/process.go:60-92 | When all waits of WaitAll returned nil and nothing was started or added meanwhile, no worker of the store is live, whatever else was interleaved |
| `ProcessSpec.StartDuringWait` | pkg/server/process.go:60-92 | That condition is needed: a start during the wait leaves a live worker |
| `ProcessSpec.LateStopExactly` | pkg/server/process.go:170-196 | In every interleaving: a Start of generation g that fails, or whose caller gives up, tells a worker of another generation to stop exactly if the process runs by then and is of another generation; the worker hit is the current one |
| `ProcessSpec.LateStopHitsSuccessor` | pkg/server/process.go:170-180 | It happens: a run in which the failed first Start stops the live worker of the second |
| `WorkerProcess.Process.FinishStart` | pkg/server/process.go:170-180 | The end of a call of Start: ready, or failed and stopping the process |
| `WorkerProcess.Process.StartSection` | pkg/server/process.go:116-139 | Takes the specified step and answers "started" exactly if no worker was live |
| `WorkerProcess.Process.StopSection` | pkg/server/process.go:183-191 | Takes the specified step and hands out the worker to cancel |
| `WorkerProcess.Process.ExitSection` | pkg/server/process.go:145-154 | Takes the specified step |
| `WorkerProcess.Process.Wait` | pkg/server/process.go:200-216 | A nil wait means that no worker is live |
| `WorkerProcess.ProcessStore.Add` | pkg/server/process.go:25-29 | Adds the process under its name and changes nothing else |
| `WorkerProcess.ProcessStore.StopAll` | pkg/server/process.go:51-55 | Stops every process of the store exactly as one Stop would |
| `WorkerProcess.ProcessStore.WaitAll` | pkg/server/process.go:68-92 | A nil result means that every process of the store is idle; all idle and waited out means nil |
| `TunnelSpec.PublicUrlIsAlive` | internal/edge/cloudflared.go:79-177 | In every run a non-empty public URL belongs to the process in use, was returned by its Start, and that process's exit is unrecorded; at most one process is unexited |
| `TunnelSpec.ExactlyOneReport` | internal/edge/cloudflared.go:227-249 | A finished process reported exactly one failure if its Start had returned the URL and no stop was requested before the exit, and none otherwise, in particular none after its Start failed |
| `TunnelSpec.StepOnTunnel` | internal/edge/cloudflared.go:147-171 | Start returns the URL only while the exit is unrecorded and this is the process in use; outcomes are final; only a stop of the process in use is remembered as requested |
| `TunnelSpec.ReportIsNotLost` | internal/edge/cloudflared.go:266-280 | A report leaves a failure to be taken even if the buffer was full; only the receiver empties it |
| `TunnelSpec.CancelMarksExactly` | internal/edge/cloudflared.go:193-195 | In every run a cancelled Start requests the stop of exactly the process in use |
| `TunnelSpec.CancelHitsAnotherExactly` | internal/edge/cloudflared.go:193-195 | So it hits a process other than its own exactly if another one is in use by then, whose stop was not requested yet |
| `TunnelSpec.CancelledStartHitsSuccessor` | internal/edge/cloudflared.go:193-195 | It happens: a run in which the cancelled first Start requests the stop of the second process |
| `CloudflaredTunnel.Cloudflared.LaunchSection` | internal/edge/cloudflared.go:80-130 | Takes the specified step; launches exactly if no process runs |
| `CloudflaredTunnel.Cloudflared.PublishSection` | internal/edge/cloudflared.go:147-171 | Takes the specified step |
| `CloudflaredTunnel.Cloudflared.StopSection` | internal/edge/cloudflared.go:310-320 | Takes the specified step |
| `CloudflaredTunnel.Cloudflared.CancelStart` | internal/edge/cloudflared.go:194-196 | Takes the specified step of a start whose context ended: it fails and stops whatever process is in use |
| `CloudflaredTunnel.Cloudflared.IsRunning` | internal/edge/cloudflared.go:368-372 | Says whether the process in use has not exited |
| `CloudflaredTunnel.Cloudflared.ExitSection` | internal/edge/cloudflared.go:227-241 | Takes the specified step and says whether a report is due |
| `CloudflaredTunnel.Cloudflared.ReportFailure` | internal/edge/cloudflared.go:266-280 | Takes the specified step |
| `LockSpec.PassMeansOwnLock` | internal/servicecoordination/servicecoordination.go:187-193 | With any number of processes interleaving at single file operations: whenever the ownership check passes, the lock it read held a nonce that this process created |
| `LockSpec.OneProcessPerLock` | internal/servicecoordination/servicecoordination.go:166-193 | Two processes never pass on the same lock |
| `LockSpec.ReplacedNeverPasses` | internal/servicecoordination/servicecoordination.go:184-193 | Once another lock let somebody pass, a process passes again only with a newly acquired nonce |
| `LockSpec.GoneStaysGone` | internal/servicecoordination/servicecoordination.go:118-153 | From the moment a lock is no longer at its path it never comes back, and no check passes on it |
| `LockSpec.HitsAnotherExactly` | internal/servicecoordination/servicecoordination.go:121-152 | In every run, at each of the three places that remove the lock (reclaiming, failed write, release): a lock it is not meant for is removed exactly if the removal succeeds when the one it is meant for has left the path for good and another is there |
| `LockSpec.LookProtectsExactly` | internal/servicecoordination/servicecoordination.go:195-212 | The look before a release or a reclaim fails to protect the removal exactly if in between, at some moment, the lock it saw left the path, and another is there at the removal |
| `LockSpec.GoneOnceGoneNow` | internal/servicecoordination/servicecoordination.go:118-153 | A lock is at its path exactly if it never left it |
| `LockSpec.ReleaseMayRemoveAnothersLock` | internal/servicecoordination/servicecoordination.go:195-212 | A reachable state in which a release removes the lock that another process holds |
| `LockSpec.ReclaimMayRemoveAnothersLock` | internal/servicecoordination/servicecoordination.go:135-152 | A reachable state in which a second reclaimer of one stale lock removes the fresh lock of the first |
| `LockOutcome.SessionExactly` | internal/servicecoordination/servicecoordination.go:107-212 | In every state of every run: where each operation leads, with two attempts at most, and what it does to the lock and to the presence |
| `LockOutcome.OthersExactly` | internal/servicecoordination/servicecoordination.go:184-193 | The two reads of an ownership check, and the beginning and end of a session |
| `CoordinatorLock.ConfigDir.AcquireCoordinator` | internal/servicecoordination/servicecoordination.go:111-155 | With everything others do between its operations, each of which may fail: part of a run of the protocol; success means that the lock was created and the nonce written, failure ends the session |
| `CoordinatorLock.ConfigDir.TryOnce` | internal/servicecoordination/servicecoordination.go:118-152 | One attempt: acquired, refused (the lock is respected or an operation failed), or again after the stale lock was removed or had vanished |
| `CoordinatorLock.ConfigDir.CoordinatorOwned` | internal/servicecoordination/servicecoordination.go:187-193 | Two reads with others in between; true is backed by a written lock whose nonce this process created |
| `CoordinatorLock.ConfigDir.RefreshCoordinator` | internal/servicecoordination/servicecoordination.go:157-182 | Rewrites the presence only after the lock was seen to be its own; the session goes on whether that works or not |
| `CoordinatorLock.ConfigDir.ReleaseCoordinator` | internal/servicecoordination/servicecoordination.go:195-212 | Ends the session; removes the lock only after it was seen to be its own |
| `CoordinatorLock.ConfigDir.StartPresence` | internal/servicecoordination/servicecoordination.go:43-58 | Acquires, publishes, and releases again if publishing fails |
| `RestartProofs.SuccessMeansMatched` | cmd/runner.go:132-202 | With configuration writes anywhere in between: a success result was written in a call during which, after the request was taken up, the manager found the service matching the very configuration that the request names |
| `RestartProofs.AppliedMeansMatched` | internal/dashboard/server.go:1234-1245 | The dashboard's "applied" means that some command saw the service match the requested configuration, whose service part is that of the configuration now; the request has the number of requests there were when the check began |
| `RestartProofs.AppliedIsLatest` | internal/dashboard/server.go:1234-1245 | Over every run: the request of an "applied" answer was the latest when the check began, and is still the latest at the answer exactly if none was made in between |
| `RestartProofs.AskedIsLatest` | internal/dashboard/server.go:1235-1238 | The request that this check reads is the latest one |
| `RestartProofs.ActsAgainExactly` | cmd/runner.go:106-112 | In every run, a follower that looks at a request it has taken up before takes it up again exactly if the result file is unreadable, or the last result was written since by another follower for another request |
| `RestartProofs.AloneActsOnce` | cmd/runner.go:106-112 | So with a readable result file and no other writer since, in particular with a single follower, it leaves the request alone |
| `RestartProofs.TwiceMeansOverwritten` | cmd/runner.go:99-119 | In the log of every run: between two times that one follower took up one request, the second with a readable result file, the last result is another follower's for another request |
| `RestartProofs.OneCommandActsOnce` | cmd/runner.go:99-119 | With at most one follower there are no two such entries: it acts on each request at most once |
| `RestartProofs.MayActTwice` | cmd/runner.go:99-119 | With two followers it happens: a slow answer to request 1 makes the quick follower act on request 2 again |
| `RestartProofs.RunSound` | cmd/runner.go:79-202 | In every interleaving every result in the file and every answer in preparation is backed |
| `RestartProofs.RunOrderly` | cmd/runner.go:79-130 | In every interleaving each follower takes requests up in order, one at a time, and answers each before the next |
| `RestartOutcome.CommandExactly` | cmd/runner.go:99-202 | Where each operation of a command leads, when it answers with a success and with which fingerprint, when a failure ends the command, and what it leaves in files, service and log |
| `RestartOutcome.CheckExactly` | internal/dashboard/server.go:1234-1245 | Each read of the dashboard, and that it says "applied" if and only if a success for the newest request carries the fingerprint of the configuration read last |
| `LeasedRestart.Projects` | cmd/runner.go:79-112 | With the ownership check of every tick made on the lease itself, each run is one of the lease and one of the restart protocol, so that the results on either hold |
| `LeasedRestart.ActsUnderItsLease` | cmd/runner.go:99-119 | Over every run: whoever acts on a request does so after a check that its own process passed on a lock created by that process, and each time after a later one |
| `LeasedRestart.OneLockOneProcess` | internal/servicecoordination/servicecoordination.go:184-193 | Followers that act under the same lock belong to one process |
| `LeasedRestart.HandedOver` | internal/servicecoordination/servicecoordination.go:184-193 | Once a check passed on another lock, nobody acts with a later check on the former one |
| `LeasedRestart.StillHeldExactly` | cmd/runner.go:99-112 | A follower about to act after a passed check still holds that lock if and only if the lock has not left its path since the check |
| `LeasedRestart.LateActor` | cmd/runner.go:99-119 | A run in which a follower loses the lease after its check and acts on a request after, and besides, the follower of the new owner |
| `AttachedRunner.SharedFiles.FollowAttachedService` | cmd/runner.go:79-130 | The loop, with everything others do between its operations, is part of a run of the protocol |
| `AttachedRunner.SharedFiles.Tick` | cmd/runner.go:99-119 | One tick: lease, request, old result, and at most one request answered |
| `AttachedRunner.SharedFiles.ApplyServiceRestartRequest` | cmd/runner.go:132-202 | Returns without an error only after writing a result for its request |
| `AttachedRunner.SharedFiles.AskForMatch` | cmd/runner.go:154-162 | Reports success only if the manager says that the service matches |
| `ServiceCompat.HostAndContainerAgree` | internal/servicemanager/service_fingerprint.go:227-276 | For a configured Linux service and one non-nil resolved-host map the container's decision from fingerprint and capabilities equals the host's from both configurations |
| `ServiceCompat.BeforeSetupExactly` | internal/servicemanager/service_fingerprint.go:253-296 | Before setup the container says compatible exactly if the host does and the desired configuration has a reason of its own for the host network |
| `ServiceCompat.BeforeSetupTheyMayDisagree` | internal/servicemanager/service_fingerprint.go:292-294 | A configuration for which they differ before setup |
| `ServiceCompat.CompatibleExactly` | internal/servicemanager/service_fingerprint.go:227-248 | Compatible if and only if every name is known, the topology is the same, and ADB, USB, emulator and known-hosts needs only shrink |
| `ServiceCompat.CompatibleIsPreorder` | internal/servicemanager/service_fingerprint.go:217-248 | Reflexive on configurations with known locality, and transitive |
| `ServiceCompat.BothWaysMeansEqual` | internal/servicemanager/service_fingerprint.go:227-248 | Compatible both ways means the same projection, so the same fingerprint |
| `ServiceCompat.KnownHostsAscend` | internal/servicemanager/service_fingerprint.go:163-199 | The known-hosts list is sorted, free of duplicates, and holds exactly the paths of the devices |
| `ServiceCompat.LastUsbDeviceExactly` | internal/servicemanager/service_fingerprint.go:282-296 | On Linux, with known names and otherwise smaller needs, devices may be replaced so that no USB device is left exactly if something else keeps the service on the host network |
| `ServiceCompat.RemovedUsbPhone` | internal/servicemanager/service_fingerprint.go:217-219 | The failing input: one USB phone removed, every capability a superset, not compatible |
| `ServiceCompat.LastUsbDeviceNeedsAnotherReason` | internal/servicemanager/service_fingerprint.go:282-296 | Whatever else changes with it, a compatible removal of the last USB device needs such a reason |
| `ServiceCompat.ResolutionMakesKnown` | internal/servicemanager/host_resolution.go:17-40 | After the host resolved a configuration's names its locality is known exactly if every name is resolvable |
| `ServiceCompat.LocalhostWithDotIsNeverCompatible` | internal/servicemanager/host_resolution.go:19-23 | A service that refers to "localhost." is never compatible, not even with itself |
| `ServiceMeaning.LocalityExactly` | internal/servicemanager/service_fingerprint.go:394-427 | A name is local if and only if it is "localhost", a loopback address, recorded with an address, or, where nothing is recorded, an address of the host; known likewise |
| `ServiceMeaning.ResolvedLocalExactly` | internal/servicemanager/host_resolution.go:17-40 | With the answers of the host a plain name is local if and only if it has an address there |
| `ServiceMeaning.ModeExactly` | internal/servicemanager/service_fingerprint.go:278-318 | The service is on the network of the host if and only if it is configured so in any spelling, or on Linux before setup, with an enabled phone on USB, or with a local dependency |
| `ServiceMeaning.MayStayExactly` | internal/servicemanager/service_fingerprint.go:227-248 | The decision of the host read off the two configurations: names known, settings and publication equal, no device needing access that is not there |
| `ServiceMeaning.ContainerExactly` | internal/servicemanager/service_fingerprint.go:253-276 | The decision of the container is the same for a service set up on Linux |
| `ServiceDecision.ServiceConfigsCompatibleWithHost` | internal/servicemanager/service_fingerprint.go:227-248 | Computes the host's decision |
| `ServiceDecision.ServiceConfigCompatibleWithFingerprint` | internal/servicemanager/service_fingerprint.go:253-276 | Computes the container's decision |
| `ServiceDecision.ProjectNeeds` | internal/servicemanager/service_fingerprint.go:163-199 | The loop with a set that is sorted at the end gives the one sorted list, whatever order the set yields |
| `ServiceDecision.ServiceHostLocalityUnknown` | internal/servicemanager/service_fingerprint.go:334-350 | Says whether some relevant name is unknown |
| `ServiceDecision.ResolveServiceHostContext` | internal/servicemanager/host_resolution.go:17-40 | Computes the host's resolution |
| `ServiceRender.CompatibleServiceProvides` | internal/servicemanager/docker_compose.go:141-321 | A compatible applied service has the image, networks, volumes and published ports of the service rendered for the desired configuration, at least its device mappings, ADB access and mount points, and every mount with source and access exactly if (on Linux) the Android sources agree |
| `ServiceRender.NeedsAreRendered` | internal/servicemanager/docker_compose.go:187-192 | On accepted configurations the exported capabilities say exactly what was rendered |
| `ServiceRender.MountTargets` | internal/servicemanager/docker_compose.go:212-312 | Nothing is mounted twice at one place, and the places are exactly the known-hosts files and the fixed directories |
| `ServiceRender.AndroidSourceExactly` | internal/servicemanager/docker_compose.go:258-265 | Compatible configurations have the same Android mount exactly if they have no keys of their own or both or neither would get only those |
| `ServiceRender.MountsProvidedExactly` | internal/servicemanager/docker_compose.go:212-312 | Every mount of the desired service, source and access included, is one of the applied service exactly if, on Linux, the Android mount is the same |
| `ServiceRender.AndroidSourceMayDiffer` | internal/servicemanager/docker_compose.go:258-266 | Two compatible configurations that both render, and a mount of the desired service that the applied one lacks |
| `ServiceRender.BuildServiceSpec` | internal/servicemanager/docker_compose.go:141-321 | Computes the rendered service, or refuses |
| `ServiceRendered.RenderedExactly` | internal/servicemanager/docker_compose.go:141-321 | A service is rendered if and only if there is a home directory and every enabled device can be served; it mounts exactly these files and directories, and gets USB, KVM and the ADB socket if and only if its devices need them |
| `ServiceRendered.FrameExactly` | internal/servicemanager/docker_compose.go:141-321 | Image, pull policy, network, volumes with their defaults, and which ports are published to whom |
| `ServiceRender.BuildFrame` | internal/servicemanager/docker_compose.go:161-180 | Computes image, networks, volumes and the published ports, without duplicates |
| `ServiceRender.AppendBindMount` | internal/servicemanager/docker_compose.go:519-526 | The first mount of a target wins |
| `PendingProofs.PendingCoversDirectDiff` | internal/dashboard/server.go:1420-1461 | Over any run of saves the pending keys and runtime and Credimi classes cover the direct difference from the settings at the last clear to the current ones |
| `PendingProofs.NothingPendingMeansCurrent` | internal/dashboard/server.go:1445-1460 | When nothing is pending, the generation was built with the current value of every setting that only a reconcile brings in, and every other runtime or Credimi setting is active, except exposure settings that the mode does not read |
| `PendingProofs.ClearedOnlyWhenDone` | internal/dashboard/server.go:1432-1460 | Pending changes are dropped only by a successful apply, when no class needs applying, or when all keys are inactive exposure |
| `PendingProofs.LightOnlyIfAllLight` | internal/dashboard/server.go:1449-1486 | The endpoint is applied alone only in manual mode with every accumulated key an endpoint key, the inventory alone only with every accumulated key an inventory key of the mode; then none asks for a new generation |
| `PendingProofs.DiffKeys` | internal/dashboard/runtime/runtime_plan.go:233-281 | The difference lists exactly the tracked keys that changed |
| `PendingProofs.DiffClasses` | internal/dashboard/runtime/runtime_plan.go:237-308 | A runtime or Credimi class is listed exactly if some changed key brings it |
| `PendingOutcome.ClassesExactly` | internal/dashboard/runtime/runtime_plan.go:227-309 | The classes of a difference by the settings that changed |
| `PendingOutcome.ActionExactly` | internal/dashboard/server.go:1420-1461 | The action over everything accumulated, each of the six with its exact condition: tried if and only if no restart is required, something concerns runtime or registration, running is desired, the configuration loads, and some key is listened to; by a reconcile if and only if some key is in neither light set |
| `PendingOutcome.RememberedExactly` | internal/dashboard/server.go:1420-1461 | What stays pending and what counts as applied and as built afterwards |
| `PendingProofs.SaveInv` | internal/dashboard/server.go:1420-1461 | One save keeps the invariant behind these results, whatever is answered during it |
| `PendingChanges.Dashboard.SaveConfig` | internal/dashboard/server.go:1420-1461 | Takes the specified step and keeps the invariant |
| `PendingChanges.Dashboard.ApplySavedConfig` | internal/dashboard/server.go:1420-1461 | Takes the specified decision and leaves pending, base, active and built settings as specified |
| `PendingChanges.DiffValuesForOS` | internal/dashboard/runtime/runtime_plan.go:227-309 | Computes the difference, with the device keys sorted |
| `PendingChanges.MergeConfigDiff` | internal/dashboard/server.go:1196-1211 | Computes the union in order of first occurrence |
| `PendingChanges.WithoutServiceClass` | internal/dashboard/server.go:1179-1187 | Drops only the service class |
| `ConfigRoundTrip.RoundTripExactly` | internal/dashboard/runtime/config.go:75-331 | For every accepted configuration with any number of devices: reading back its settings gives it unchanged if and only if it is canonical (defaults filled in, listen addresses in joined form, device texts trimmed, Wi-Fi ports and known-hosts paths explicit and free of spaces) |
| `ConfigRoundTrip.ConfigReads` | internal/dashboard/runtime/config.go:176-331 | Whatever the devices, reading gives the same host settings with the listen addresses rejoined, and fails only with the devices |
| `ConfigRoundTrip.DevicesRead` | internal/dashboard/runtime/config.go:247-326 | The devices come back exactly if each is canonical |
| `ConfigRoundTrip.DefaultsTwice` | internal/config/defaults.go:8-56 | Filling in defaults twice is filling them in once |
| `ConfigReading.ReadExactly` | internal/dashboard/runtime/config.go:176-331 | For every map of settings: when it is refused, and what every field of the configuration is read as, also where settings are missing |
| `ConfigReading.DevicesExactly` | internal/dashboard/runtime/config.go:243-327 | The same for the devices, with the defaults of emulators and Redroid devices |
| `ConfigRefusal.RefusedExactly` | internal/config/validate.go:15-319 | Every reason for which validation refuses a configuration, and that there is no other |
| `ConfigProofs.DeviceReads` | internal/dashboard/runtime/config.go:125-173 | What is read from the block of an accepted device, in closed form |
| `ConfigProofs.SpaceIsRefused` | internal/dashboard/runtime/inventory.go:181-185 | A known-hosts path with a space is refused |
| `ConfigBlocks.HostTextOf` | internal/dashboard/runtime/config.go:75-123 | Every host setting of a printed configuration, in closed form |
| `ConfigBlocks.PutDevicesKeys` | internal/dashboard/runtime/config.go:124-173 | Printing devices writes only their own numbered, known settings |
| `Numbers.NumberRoundTrip` | internal/dashboard/runtime/config.go:345-350 | Printed numbers are read back |
| `Numbers.SignedExactly` | internal/dashboard/runtime/config.go:345-350 | A number is read with its sign, and refused if it does not fit 64 bits |
| `ConfigConversion.ValuesFromTypedConfig` | internal/dashboard/runtime/config.go:75-174 | Assigns exactly the specified settings |
| `ConfigConversion.TypedConfigFromValues` | internal/dashboard/runtime/config.go:176-331 | Reads exactly the specified configuration or refuses |
| `ConfigConversion.ValidateForPlatform` | internal/config/validate.go:15-108 | Accepts exactly the configurations of the round trip |
| `ConfigConversion.ValidateDevices` | internal/config/validate.go:71-107 | The sets of what was seen say exactly whether two devices conflict |
| `InventoryParsing.ParseRunnerRuntimeConfig` | internal/dashboard/runtime/inventory.go:63-213 | Acceptance and result are those of the specification whatever the order in which the map yields its keys |
| `InventoryProofs.AcceptedInventory` | internal/dashboard/runtime/inventory.go:107-212 | Accepted devices are numbered from 1, lie under the runner, have distinct IDs, and meet the limits checked before saving |
| `InventoryReading.AcceptedExactly` | internal/dashboard/runtime/inventory.go:63-212 | For every map of settings: an inventory is accepted if and only if the count is positive, the runner has an ID, each key is known and within the count, each device is in order by itself, and no two exclude each other |
| `InventoryReading.FieldByField` | internal/dashboard/runtime/inventory.go:101-210 | Every field of every accepted device, in terms of the settings: enabled unless told otherwise, and the address of each type and mode with the default port |
| `InventoryReading.IDAloneIsEnough` | internal/dashboard/runtime/inventory.go:105-116 | A device of which only the ID is given is enabled and blank otherwise |
| `InventoryResave.SavingTwiceIsSavingOnce` | internal/dashboard/runtime/inventory.go:315-376 | For every inventory that loads: saving what was loaded and doing so again changes nothing if and only if the runner ID is canonical after one pass and no known-hosts path in force contains a space |
| `InventoryResave.TwoSlashes` | internal/dashboard/runtime/inventory.go:273-273 | A runner ID that starts with two slashes loads and is not canonical after one pass |
| `InventoryResave.LoadsSaved` | internal/dashboard/runtime/inventory.go:295-309 | Under those conditions what was saved loads, with the same runner and the same blocks |
| `InventoryResave.SavedAgain` | internal/dashboard/runtime/inventory.go:315-376 | A target read from a saved block is saved in the same way |
| `InventorySaving.SavedExactly` | internal/dashboard/runtime/inventory.go:315-376 | Every setting of the saved map: host settings with defaults for blank ones, the count, and for each device which settings are written, left out or rewritten |
| `InventoryParsing.ValidateDeviceConstraints` | internal/dashboard/runtime/inventory.go:243-271 | Accepts exactly the inventories without two emulators, two simulators or a shared serial |
| `InventoryParsing.ValuesWithRuntimeDevices` | internal/dashboard/runtime/inventory.go:315-376 | Computes the saved settings |
| `InventoryParsing.BlockedExactly` | internal/dashboard/runtime/inventory.go:108-156 | What was seen so far blocks a device exactly if it clashes with an earlier one |
| `Text.SortedIsUnique` | internal/servicemanager/service_fingerprint.go:195-198 | A sorted list without duplicates is determined by its elements |
| `Text.TrimExactly` | internal/dashboard/runtime/inventory.go:273-273 | Trimming cuts off the white space at both ends and nothing else |

## Left out

- `registerWithRetry` is one registration call that may fail and may have created the record; the number of attempts, the delays and the classification of errors do not occur.
- In the run theorems of the supervisor `RequestStart` is a step between transitions; requests inside Close, Stop, a Reconcile that found stopped desired, and a failed first save are covered one transition at a time, before and after the teardown; elsewhere inside a transition they are not.
- Assigning the state and saving it are one step; two writers whose saves reach the file in the other order are not covered.
- Constructors that return neither an object nor an error are outside the supervisor's run theorems, because the program then dereferences a nil error.
- Reconcile with a desired state other than running or stopped does not occur, since loading rejects it.
- An object whose construction failed is dropped even if its cleanup failed; the model remembers it, but no theorem says that its resources are released.
- Error values are lists of causes; their texts are not modelled, nor are log lines and the redaction of secrets.
- `Wait` and `StopAndWait` of the operation coordinator and of a process are covered by what a closed channel means, not as blocking calls.
- The 64-bit operation and generation counters, indices in the keys of device settings, and durations are unbounded numbers.
- A second `Start` of a tunnel while the first is starting returns the current URL, which may still be empty; only its effect on the state is modelled.
- Process IDs are taken to be unique while the lease is used; reuse of the ID of a dead process is not covered.
- AskForMatch: assumes a manager that compares a snapshot and says that the service matches only if its service part is the wanted one; it may fail to say so.  Managers without that comparison are not covered.
- Reading and hashing the configuration file and readiness of the replacement service are single answers; a restart that succeeds brings up the wanted configuration, which anybody may change again.
- In `Runner` the ownership check is an arbitrary answer; `LeasedRestart` ties it to the lease for the protocol, not for the class.
- Exporting the resolved hosts normalizes their names once more; the names are taken to be unchanged by that, which fails for a name that ends in two dots.
- TryOnce: takes the presence, PID and age checks of an existing lock as one look whose outcome is arbitrary, because they depend on clocks and on other processes.
- Setting the times of the lock file is not an operation of its own.
- finishSetupSync and submitRuntimeAction, which overwrite the pending changes, and the choice of a service restart by the dashboard are not covered.
- ClearedOnlyWhenDone: says nothing about the two operations named above, because they replace the pending difference without looking at it.
- The service class of a difference is an arbitrary answer on Linux; its meaning is the subject of the compatibility modules.
- BuildServiceSpec: leaves out labels, extra hosts, the restart policy and the environment variables of the rendered service, other than the exported capabilities and the ADB socket, because nothing that is proved reads them.
- ServiceSpec.Fingerprint is not covered.
- CompatibleServiceProvides: compares the sources mounted only if no known-hosts file of the applied service is named like a fixed directory of the service; the mount points it compares always.
- Parsing of URLs and addresses, and so which text is which hostname, is given with the configuration.
- A device section is one of four kinds; configurations whose type and section disagree cannot be expressed, and validation of that is not covered.
- Reading an environment variable that holds malformed capabilities is not covered; they are taken as exported.
- Saving an inventory is the map that is written; the typed file behind it is the subject of the round trip.
- HTTP handlers, templates, Docker, launchd, ADB, Temporal and OpenTelemetry are foreign calls.
- Startup and lifecycle logs, metrics, device gates and the registry are easier than what is covered.
