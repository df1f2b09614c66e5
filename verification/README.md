# Runtime lifecycles, presentation cache and read-model builders

A Dafny model of the parts of the application that keep state across calls, with proofs of what they keep. The
project checks with `dafny verify dfyconfig.toml`.

## What is modelled

**Service-owned lifecycles** (`Lifecycle*.dfy`). An owner object drives a control thread through a command channel, a
reply channel and a join handle. `LifecycleCalls` gives every owner call as a function of the runtime and of what the
outside answers (`Env`: the new thread and its start handshake, the reply to a command, whether the join succeeds). The
contract check of the returned status, unsafe text markers included, is modelled with it. The ETW, DNS and auth-remote
runtimes are one machine whose `Profile` says where the copies differ. `LifecycleRuntime` is the object with its fields
updated in place, each method proved to be the function.
`LifecycleThreads` takes the calls apart into interleaved steps of the owner and of every thread ever spawned,
`LifecycleProtocol` holds the invariant of that system and `LifecycleTheorems` what follows from it.
`LifecycleSimulation` runs the three systems in step, `LifecycleReports` says when a completed call still fails,
`LifecycleStops` which runtimes an owner can still stop, and `LifecycleCallers` what callers can rely on.
`LifecycleEffects` and `LifecycleTrail` say what every field holds after any history, in terms of the calls and replies
alone, and `LifecycleTexts` which texts are safe.

**Desktop state** (`PresentationCache`, `CacheTheorems`, `CacheHeaders`, `WakeSignal`, `Publication`,
`SchedulerWorker`, `OwnershipGate`). The epoch-keyed cache is a list with retain, push and sort, proved to be the
listing of a map. The wake signal, the publication of the read model and the worker slot are state machines over the
critical sections of the application, so every interleaving is a schedule of their actions. The gate is proved on every
status that the constructors, disconnects and reconnects can produce.

**Baseline read models** (`BoundedRefs`, `SafeSlug`, `SlugFixedPoints`, `SlugRules`, `GroupKeys`, `GroupKeyFields`,
`Grouping`, `IncidentIndexes`, `IncidentGroups`, `GroupTheorems`). Capped deduplication, the string normaliser and the
texts that it leaves alone, canonical group keys, the two inverse indexes and the builder of incident-linked groups,
from the lists of hypotheses, facts, records, incidents and alerts to the finished groups. The digest and the
identifiers are parameters: any function to texts without the separator, any such texts.

**Native permissions** (`NativePermissions`, `NativeTheorems`, `NativeOutcomes`) and **the ownership inventory**
(`OwnershipInventory`). A per-capability state machine with three bounded logs, and a counting validator whose verdict
is proved to be a declarative one.

`Text` and `Wrappers` hold ordering, sorting and option types.

## Where the code does something its users may not expect

The model follows the code. These are proved; where a law fails on some inputs, so is the exact condition under which it
holds.

- A completed stop can report an error: the published-batch total accumulates over sessions while the event count is
  overwritten by each outcome, and the contract check compares the two
  (`ReachedStopReportsOkExactlyWhen`, `ReachedActivationReportsOkExactlyWhen`; a run: `StopAfterPublishingFails`).
- A drain whose outcome fails the contract check returns an error, and its batches are gone from the adapter
  (`ReachedDrainReturnsBatchesExactlyWhen`).
- After an adapter answers a stop with an error, or panics over any command, the thread has left its loop but the slot
  keeps it: no later stop or shutdown works without a new activation (`FailedStopIsNeverJoined`). An owner can tell from
  its own results: it can still stop the runtime exactly when, since the last completed activation, no command was
  rejected or left unanswered and no stop was answered with an error (`StoppableByHistory`, `StoppableExactlyWhen`;
  runs: `RefusedStopRun`, `PanicRun`). If the panic was over a drain the runtime still calls itself Active, and an
  activation returns that status without starting anything (`PanicRun`).
- Activating with a present thread in any state but Active and Degraded (Paused, or a pause, resume or stop that failed)
  replaces the channel without joining the old thread (`ActivationDetachesExactlyWhen`, `ReactivationDetaches`); a run
  with two started adapters is `TwoAdaptersRun`. The old thread has at most two steps left
  (`DetachedThreadOnlyFinishes`).
- After a failed join the DNS and auth-remote copies keep session and worker flags that the ETW copy clears
  (`FailedJoinAgreesExactlyWhen`).
- A start that overlaps a stop can run a second scheduler worker, and the end of the stop can drop the signal of a
  running worker, which no later call cancels (`StepKeepsInvExactlyWhen`; runs: `EmptyStopCutsSignal`,
  `OverlapLosesAWorker`; `UnsignalledWorkerIsNeverCancelled`).
- A refresh that is overtaken stores an older state over a newer one (`RefreshIsCurrentExactlyWhen`; a run:
  `OvertakenRefreshRegresses`).
- A reconnect in the same epoch whose first response is invalid leaves a header fresher than its records
  (`HeaderStaysHonestExactlyWhen`; a run: `FailedReconnectLies`).
- The reconnect counter is capped at 3 but never passes 1 (`GateOnReachableStatuses`).
- `safe_slug` is not idempotent: characters are mapped after the rewrites, so the slug of `raw log` is the marker
  `raw_log` (`SlugNotIdempotent`). A second pass changes nothing exactly when the slug holds no marker and does not end
  in an underscore (`SecondPassExactlyWhen`). Group flags are normalised twice (`FlagsAreNormalisedTwice`).
- A revoked capability that is then disabled shows Revoked again after a recheck, while its permission stays disabled
  (`StandingByLastDecision`).
- The permission event log is trimmed only after a successful publish and grows without bound while publishing keeps
  failing (`FailedPublishesGrow`, `EventLogIsLast64ExactlyWhen`); after 33 revocations in a row the audit summary is
  refused (`RevocationsBreakTheSummary`, `SummaryFailsExactlyWhen`): it admits 64 entries but 32 revoked references.

## Model

| member | source | states |
|---|---|---|
| LifecycleTheorems.EveryInterleavingIsSequential | crates/app_core/src/etw_lifecycle.rs:82-325 | under every interleaving of owner and control threads, an idle owner is exactly the sequential machine replaying the calls completed so far, in a consistent state |
| LifecycleThreads.PerformIsStaged | crates/app_core/src/etw_lifecycle.rs:82-325 | taking a call apart into opening, waiting and closing stages gives the same runtime and ending as the call in one piece |
| LifecycleProtocol.ExecuteKeepsInv | crates/app_core/src/etw_lifecycle.rs:405-429 | the protocol invariant (which phases, replies and histories a thread can have for what the owner waits for) holds after every schedule |
| LifecycleTheorems.OwnerIsReleased | crates/app_core/src/etw_lifecycle.rs:105-111 | however threads are scheduled and whatever adapters return, a waiting owner can go on once its thread has run the remaining steps: two for a start, three for a reply, one for a join |
| LifecycleTheorems.ReleasedAtZero | crates/app_core/src/etw_lifecycle.rs:264-273 | the waiting owner can move exactly when no step remains; at most three remain, two for a start, one for a join |
| LifecycleTheorems.AwaitedThreadRuns | crates/app_core/src/etw_lifecycle.rs:405-429 | the awaited thread is never blocked while steps remain, and each of its steps brings release nearer |
| LifecycleTheorems.OthersDoNotDelay | crates/app_core/src/etw_lifecycle.rs:405-429 | a step of any other thread does not push release back |
| LifecycleTheorems.ReplyIsOwn | crates/app_core/src/etw_lifecycle.rs:310-325 | the answer the owner takes is what the adapter returned for this very request, or a disconnect of a request that was never answered |
| LifecycleTheorems.StartReplyIsOwn | crates/app_core/src/etw_lifecycle.rs:105-111 | the start handshake returns what the new thread's own adapter start returned, or a disconnect |
| LifecycleTheorems.AdapterCallsInOrder | crates/app_core/src/etw_lifecycle.rs:405-429 | every thread ever spawned drives its adapter as start, commands, stop; one that ended stopped it last, twice exactly if a stop command was served |
| LifecycleTheorems.DetachedThreadOnlyFinishes | crates/app_core/src/etw_lifecycle.rs:396-429 | a thread without a sender has at most two steps left in any schedule, of which at most one calls the adapter, to stop it |
| LifecycleTheorems.ReactivationDetaches | crates/app_core/src/etw_lifecycle.rs:82-126 | activating over a present thread takes its sender away without joining it; a start that is never announced detaches the new thread instead |
| LifecycleTheorems.UnfinishedThreads | crates/app_core/src/etw_lifecycle.rs:405-429 | every unfinished thread is the one whose sender is held, or can run and has one or two steps left |
| LifecycleTheorems.OkStopRests | crates/app_core/src/etw_lifecycle.rs:240-308 | an idle owner whose last call was a stop or shutdown that returned Ok is at rest: Stopped, without a thread in its slot |
| LifecycleTheorems.StoppedSystemStaysQuiet | crates/app_core/src/etw_lifecycle.rs:240-308 | from a system at rest, as after an Ok stop, no schedule without an owner's activation reaches an adapter, except for the final stops of threads already leaving |
| LifecycleTheorems.RefusedStopIsStuck | crates/app_core/src/etw_lifecycle.rs:264-267 | an error reply to a stop leaves the status Stopping, the slot filled and the thread out of its loop |
| LifecycleTheorems.FailedStopIsNeverJoined | crates/app_core/src/etw_lifecycle.rs:240-325 | from there every schedule without an owner's activation keeps the slot with the thread that left, and never reaches Stopped |
| LifecycleStops.StoppableExactlyWhen | crates/app_core/src/etw_lifecycle.rs:240-325 | in any idle state of the protocol: some schedule without an owner's activation reaches Stopped if and only if there is no thread in the slot or the thread still takes commands |
| LifecycleStops.StoppableByHistory | crates/app_core/src/etw_lifecycle.rs:82-325 | after any schedule from a new runtime: such a schedule exists if and only if, since the last completed activation, no call returned that its command was rejected or unanswered and no stop returned an adapter's error |
| LifecycleStops.ExecuteKeepsLoss | crates/app_core/src/etw_lifecycle.rs:310-325 | after every schedule, wherever the owner stands, its own results tell whether its thread left the loop |
| LifecycleStops.ServingCanShutDown | crates/app_core/src/etw_lifecycle.rs:240-308 | from every idle state whose thread takes commands, a shutdown that is acknowledged runs through to Stopped |
| LifecycleStops.LostReplyIsStuck | crates/app_core/src/etw_lifecycle.rs:310-325 | a reply that never comes, as after a panic over any command, leaves the slot with a thread that is gone and a runtime that nothing but an activation can stop |
| LifecycleStops.RefusedStopRun | crates/app_core/src/etw_lifecycle.rs:264-267 | for any profile: activate, then a stop that is answered with an error, ends Stopping with a runtime that cannot be stopped |
| LifecycleStops.PanicRun | crates/app_core/src/etw_lifecycle.rs:82-96 | for any profile: activate, then a drain over which the adapter panics, ends Active with a runtime that cannot be stopped, and activating again returns that status and starts nothing |
| LifecycleStops.ActivationDetachesExactlyWhen | crates/app_core/src/etw_lifecycle.rs:82-126 | an announced activation over a present thread takes its sender away if and only if the runtime is neither Active nor Degraded; the thread itself is left as it was |
| LifecycleStops.TwoAdaptersRun | crates/app_core/src/etw_lifecycle.rs:82-126 | for any profile: activate, pause, activate leaves two threads with started adapters, of which only the second has a sender |
| LifecycleEffects.OwnerIsChecked | crates/app_core/src/etw_lifecycle.rs:379-393 | every call but a shutdown fails with an owner mismatch if and only if category, service ownership or reference is wrong, with a stale epoch if and only if those are right and the epochs differ, and changes nothing in either case |
| LifecycleCallers.StrangersSpawnNothing | crates/app_core/src/etw_lifecycle.rs:82-111 | on every schedule in which all activations carry another category, ownership, reference or epoch no thread is ever spawned, so no adapter is called |
| LifecycleCallers.StrangerChangesNothing | crates/app_core/src/etw_lifecycle.rs:379-393 | in any idle state a stranger's call leaves runtime, threads, replies and requests as they were |
| LifecycleCallers.DrainsHandOver | crates/app_core/src/etw_lifecycle.rs:199-213 | on every schedule, every drain that returned Ok found the runtime not Active and returned nothing, or returned exactly the batches of an outcome with which an adapter answered a drain of as many batches as the caller asked for |
| LifecycleCallers.DrainCompletes | crates/app_core/src/etw_lifecycle.rs:199-213 | a drain is answered from the entry that its own request left in the thread's trace: those batches, that error, or a disconnect |
| LifecycleReports.ReachedDrainReturnsBatchesExactlyWhen | crates/app_core/src/etw_lifecycle.rs:199-213 | for a runtime of any kind after any history: a drain of an Active runtime returns the outcome's batches if and only if owner, refs, reason, counters and collection pass the contract check, and otherwise an error in their place |
| LifecycleEffects.EndingTells | crates/app_core/src/etw_lifecycle.rs:82-325 | how every call that is let in ends, by lifecycle, slot and answers: which error, which value, early or checked; only a start or an acknowledged stop moves the slot |
| LifecycleEffects.FieldIsLastWritten | crates/app_core/src/etw_lifecycle.rs:82-379 | over every history, each of ten fields (lifecycle, session, authorization, thread flags, collection, events, reason, refs, fallback) says what the last call to write it wrote, as literal values of that call's reply |
| LifecycleEffects.UnwrittenFieldIsKept | crates/app_core/src/etw_lifecycle.rs:82-379 | a field that no call of the history writes says what it began with |
| LifecycleEffects.CountersAreTotals | crates/app_core/src/etw_lifecycle.rs:116-235 | over every history of a new runtime, sessions, activations, pauses, resumes, stops, batches, publications and facts are the sums of what the calls added, up to the 32-bit maximum |
| LifecycleTrail.TrailHoldsExactly | crates/app_core/src/etw_lifecycle.rs:431-440 | over every history of a runtime of any kind, the audit trail ascends strictly and holds exactly the first entry and those that some completed call left; the bound never cuts one |
| LifecycleInvariants.PerformKeepsConsistent | crates/app_core/src/etw_lifecycle.rs:82-393 | every call keeps: sender and handle together; Active, Paused, Degraded present; Inactive, Stopped, Failed absent; a sender implies Authorized; Stopped implies every flag cleared; sessions bounded by activations plus resumes |
| LifecycleInvariants.ReplayConsistent | crates/app_core/src/etw_lifecycle.rs:82-393 | the same over every history of calls from any consistent runtime |
| LifecycleInvariants.StopOkMeansStopped | crates/app_core/src/etw_lifecycle.rs:182-308 | a stop or shutdown that returns Ok leaves the runtime Stopped, disconnected and fully cleared |
| LifecycleInvariants.DisconnectedCallIgnoresAdapters | crates/app_core/src/etw_lifecycle.rs:128-325 | without a thread, any call but an owner's activation gives one result whatever the outside would answer |
| LifecycleInvariants.StoppedUntilReactivated | crates/app_core/src/etw_lifecycle.rs:82-393 | a disconnected runtime stays so, with unchanged activation and session counts, over every history without an owner's activation |
| LifecycleReports.ReachedStopReportsOkExactlyWhen | crates/contracts/src/etw_lifecycle.rs:136-221 | for a runtime of any kind after any history: a stop that was acknowledged and joined is Stopped, and returns Ok if and only if the owner's name is safe with a non-zero epoch, the caller's bounded refs are safe, and the last outcome's counters cover the batches published over all sessions |
| LifecycleReports.ReachedActivationReportsOkExactlyWhen | crates/contracts/src/etw_lifecycle.rs:136-221 | for the same runtimes: an activation whose adapter started is Active and connected, and returns Ok if and only if owner, refs and the outcome's reason are safe, its counters cover the batches published, and it reports an active session that collects everything |
| LifecycleReports.ReachedPauseReportsOkExactlyWhen | crates/contracts/src/etw_lifecycle.rs:136-221 | a pause that was carried out is Paused, and returns Ok if and only if owner, refs and reason are safe, the counters cover the batches published, and the outcome says that the session is paused and nothing is collected |
| LifecycleReports.ReachedResumeReportsOkExactlyWhen | crates/contracts/src/etw_lifecycle.rs:136-221 | the same for a resume, whose outcome has to say that the session is active and everything collects |
| LifecycleTexts.SafeTextExactlyWhen | crates/contracts/src/etw_lifecycle.rs:136-221 | a text is safe if and only if it is not blank, its part between whitespace takes at most 128 bytes, and none of the thirteen markers stands anywhere in it, in capitals or small letters |
| LifecycleReports.StopAfterPublishingFails | crates/app_core/src/etw_lifecycle.rs:240-308 | for every kind and any outcomes: activate, record one published batch, stop with an outcome that counts no normalized event; the stop is joined, ends Stopped and reports a contract violation |
| LifecycleInvariants.PublishedBatchesNeverDrop | crates/app_core/src/etw_lifecycle.rs:215-238 | published batches never decrease and change only through a recorded handoff |
| LifecycleInvariants.RuntimesSimulateEtw | crates/app_core/src/etw_lifecycle.rs:456-1188 | on every history whose acknowledged stops join, the DNS and auth-remote runtimes agree with the ETW runtime on lifecycle, session, authorization, slot, flags and counters, an enabled provider standing for a trace session |
| LifecycleSimulation.SystemsSimulateEtw | crates/app_core/src/etw_lifecycle.rs:405-1260 | on every schedule of owner and threads whose joins succeed, the DNS or auth-remote system runs in step with the ETW system on the translated replies: same waits, threads, traces, replies and history, and agreeing runtimes |
| LifecycleInvariants.FailedJoinAgreesExactlyWhen | crates/app_core/src/etw_lifecycle.rs:638-693 | after a failed join they agree if and only if the last outcome claimed neither a session nor a worker |
| LifecycleInvariants.BoundedRefsShape | crates/app_core/src/etw_lifecycle.rs:431-440 | the refs of a call ascend strictly and are exactly the first 16 non-blank ones of its list, each once |
| LifecycleInvariants.BoundedRefsIdempotent | crates/app_core/src/etw_lifecycle.rs:431-440 | bounding refs twice is bounding them once |
| LifecycleRuntime.ServiceOwnedRuntime.Activate | crates/app_core/src/etw_lifecycle.rs:82-126 | updates the fields in place to what the specification of a checked activation says, refusals and contract check included |
| LifecycleRuntime.ServiceOwnedRuntime.Pause | crates/app_core/src/etw_lifecycle.rs:128-153 | the same for a pause |
| LifecycleRuntime.ServiceOwnedRuntime.Resume | crates/app_core/src/etw_lifecycle.rs:155-180 | the same for a resume |
| LifecycleRuntime.ServiceOwnedRuntime.StopInternal | crates/app_core/src/etw_lifecycle.rs:240-308 | the same for the inner stop, with every early return leaving its transitional state |
| LifecycleRuntime.ServiceOwnedRuntime.Stop | crates/app_core/src/etw_lifecycle.rs:182-190 | the same for an owner's stop |
| LifecycleRuntime.ServiceOwnedRuntime.ShutdownJoin | crates/app_core/src/etw_lifecycle.rs:192-197 | the same for a shutdown, which asks for no owner |
| LifecycleRuntime.ServiceOwnedRuntime.DrainLiveBatches | crates/app_core/src/etw_lifecycle.rs:199-213 | the same for a drain, which counts no session |
| LifecycleRuntime.ServiceOwnedRuntime.RecordLiveHandoff | crates/app_core/src/etw_lifecycle.rs:215-238 | the same for a handoff, with saturating counters |
| CacheTheorems.CacheIsTheLedger | apps/desktop/src/lib.rs:714-863 | after any run of calls, failed ones included, the live records list, sorted by command, the map from command to last response of the epoch in force, and the superseded list is the listings of earlier epochs in order |
| CacheTheorems.InstallIsUpdate | apps/desktop/src/lib.rs:822-855 | retain, push and sort together are one update of that map |
| CacheTheorems.ListingAscends | apps/desktop/src/lib.rs:822-855 | a listing ascends strictly by command |
| CacheTheorems.NothingInstalledIsLost | apps/desktop/src/lib.rs:714-863 | every response ever installed is live, in a closed epoch, or was overwritten by a later one for the same command and epoch, and nothing else is in the cache |
| CacheTheorems.ApplyGrowsSuperseded | apps/desktop/src/lib.rs:857-863 | no call removes or changes a superseded record |
| CacheHeaders.HeaderIsLastSet | apps/desktop/src/lib.rs:714-820 | after any run of calls, connection, pending flag and reasons are the literal ones of the last disconnect, incompatibility or reconnect that was let in |
| CacheHeaders.HeaderUntilFirstSet | apps/desktop/src/lib.rs:653-712 | until the first such call they are those of the constructor, by ownership mode |
| CacheHeaders.RecordsAreLastTouched | apps/desktop/src/lib.rs:714-855 | after any run, every live record says what the last event to touch it made of it: freshness, reason and connection of its own arrival, or stale under the connection of the last disconnect or incompatibility since |
| CacheHeaders.SupersededAreRetired | apps/desktop/src/lib.rs:857-863 | every record of an earlier epoch is marked superseded, stale and connected |
| CacheHeaders.FreshnessAfter | apps/desktop/src/lib.rs:714-855 | what each call makes of the header's freshness: stale, unavailable, fresh, or exactly the stalest among the live records |
| CacheHeaders.OkExactlyWhen | apps/desktop/src/lib.rs:714-820 | which calls succeed, in terms of the responses and the ownership; a call that fails leaves the cache as it was unless it is a reconnect that was let in |
| CacheTheorems.OkCallsLeaveHonestHeader | apps/desktop/src/lib.rs:714-855 | from any state at all, a call that returns Ok leaves a header no fresher than any live record |
| CacheTheorems.HeaderStaysHonestExactlyWhen | apps/desktop/src/lib.rs:763-820 | an honest header stays honest through every call except a same-epoch reconnect whose first response is invalid over records that are not all fresh |
| CacheTheorems.FailedReconnectLies | apps/desktop/src/lib.rs:802-820 | such a run: after a stale response is installed, a reconnect in its epoch with one invalid response leaves a Fresh header over the stale record |
| CacheTheorems.OkRunsAreHonest | apps/desktop/src/lib.rs:653-761 | in a run of calls that all return Ok the header is honest throughout |
| PresentationCache.Cache.InstallServiceSnapshot | apps/desktop/src/lib.rs:714-724 | changes the fields in place to what the functional call says, and leaves them on an invalid response |
| PresentationCache.Cache.CacheServiceResponse | apps/desktop/src/lib.rs:822-855 | the same for one response, after any adoption of its epoch |
| PresentationCache.Cache.SupersedeCurrentRecords | apps/desktop/src/lib.rs:857-863 | drains the live records to the end of the superseded list, each marked stale and superseded |
| PresentationCache.Cache.Disconnect | apps/desktop/src/lib.rs:726-739 | the same for a lost connection |
| PresentationCache.Cache.MarkProtocolIncompatible | apps/desktop/src/lib.rs:741-761 | the same for an incompatible protocol |
| PresentationCache.Cache.ReplaceAfterReconnect | apps/desktop/src/lib.rs:763-820 | the same for a reconnect, with the part done before an invalid response kept |
| WakeSignal.EveryReturnIsJustified | apps/desktop/src/lib.rs:2645-2704 | under every interleaving: after a cancellation every return is Cancelled with the last one's reason; a notification since the last return gives exactly one Woken with the last reason; TimedOut only if nothing is pending |
| WakeSignal.NoWakeIsLost | apps/desktop/src/lib.rs:2645-2704 | a blocked worker has been signalled whenever anything is pending |
| WakeSignal.OneWakePerBurst | apps/desktop/src/lib.rs:2645-2704 | two returns with no notification between them do not both answer one |
| WakeSignal.TaskSignal.Notify | apps/desktop/src/lib.rs:2645-2656 | sets the pending flag and reason unless cancelled |
| WakeSignal.TaskSignal.Cancel | apps/desktop/src/lib.rs:2658-2668 | cancels with its reason, whatever was pending |
| WakeSignal.TaskSignal.EnterWait | apps/desktop/src/lib.rs:2670-2684 | returns at once with a cancellation or a consumed wake, and otherwise blocks |
| WakeSignal.TaskSignal.ResumeWait | apps/desktop/src/lib.rs:2685-2704 | looks again after the condition variable let go, before it believes the timeout |
| Publication.ReadersSeeGenuineStates | apps/desktop/src/lib.rs:3093-3109 | however refreshes interleave, the read model is a state that the mutation core really had |
| Publication.RefreshIsCurrentExactlyWhen | apps/desktop/src/lib.rs:4929-4937 | a refresh leaves the read model at the core's current state if and only if the core did not change between its copy and its store |
| Publication.CopyIsCurrent | apps/desktop/src/lib.rs:4929-4937 | a refresh copies the core as it is at that moment, and so does a worker's mutation that succeeds |
| Publication.OvertakenRefreshRegresses | apps/desktop/src/lib.rs:4929-4937 | a command overtaken by the worker stores an older state over the newer one, and no refresh is left to repair it |
| SchedulerWorker.StepKeepsInvExactlyWhen | apps/desktop/src/lib.rs:2714-2856 | at most one worker runs and its holder can cancel and join it: a step keeps this if and only if it is neither a start over a stop that holds a running worker nor the end of a stop over a running worker in the slot |
| SchedulerWorker.OrderlyCallsRunOneWorker | apps/desktop/src/lib.rs:2714-2856 | with calls that do not overlap, at most one worker ever runs and it stays reachable |
| SchedulerWorker.OverlappingStartRunsTwo | apps/desktop/src/lib.rs:2715-2784 | a start over such a stop leaves two running workers |
| SchedulerWorker.EndOverRunningWorkerCutsIt | apps/desktop/src/lib.rs:2797-2855 | the end of a late stop takes the signal or the whole place of the running worker in the slot |
| SchedulerWorker.StopOfRunningWorker | apps/desktop/src/lib.rs:2797-2855 | a stop that nothing comes between cancels the worker, empties the slot if it finishes in time, and puts it back if it does not |
| SchedulerWorker.CancelledExactlyWhen | apps/desktop/src/lib.rs:2797-2855 | on every schedule a worker is cancelled if and only if a stop that took its signal got to cancelling |
| SchedulerWorker.StartExactlyWhen | apps/desktop/src/lib.rs:2715-2784 | a start puts a new worker into the slot if and only if the slot holds none or a finished one |
| SchedulerWorker.EmptyStopCutsSignal | apps/desktop/src/lib.rs:2797-2855 | a stop of an empty slot that a start overlaps leaves the new worker running with its handle in the slot but its signal dropped |
| SchedulerWorker.OverlapLosesAWorker | apps/desktop/src/lib.rs:2797-2855 | a stop that times out after an overlapping start puts the old worker back over the new one, of which nothing holds handle or signal any more |
| SchedulerWorker.UnsignalledWorkerIsNeverCancelled | apps/desktop/src/lib.rs:2797-2855 | a worker whose signal nothing holds, handle or not, is never cancelled by any later calls |
| SchedulerWorker.LostWorkerIsNeverJoined | apps/desktop/src/lib.rs:2715-2855 | one whose handle nothing holds either stays out of every later call's reach |
| OwnershipGate.ReachableCoherent | apps/desktop/src/lib.rs:348-475 | every status that comes from constructors, disconnects and replacements has a ruled-out duplicate, an explicit fallback and the portable mode together, and counts one attempt exactly while a reconnect is pending |
| OwnershipGate.GateOnReachableStatuses | apps/desktop/src/lib.rs:875-909 | on those statuses production is permitted if and only if the status is the explicit portable fallback, every refusal has the reason that its request and mode call for, and attempts stay at most one |
| OwnershipGate.StatusByRoot | apps/desktop/src/lib.rs:348-475 | every reachable status says what the constructor it goes back to made of it, a disconnect tells only on a service-owned one, and a local runtime is left exactly if it is portable and was neither disconnected nor put in by a replacement |
| OwnershipGate.ModeGateExactlyWhen | apps/desktop/src/lib.rs:284-318 | the gate by mode alone: an error for a service-owned mode, and a named reason for every refusal |
| OwnershipGate.GatesPartExactlyWhen | apps/desktop/src/lib.rs:284-318 | on reachable statuses the two gates differ if and only if a fallback is asked for on an unavailable or degraded service, or not asked for on a portable one |
| OwnershipGate.OwnershipState.MarkServiceDisconnected | apps/desktop/src/lib.rs:504-511 | marks the shared status in place and returns it |
| OwnershipGate.OwnershipState.ReplaceAfterReconnect | apps/desktop/src/lib.rs:513-526 | replaces the shared status with all local ownership cleared |
| BoundedRefs.BoundedRefs | crates/app_core/src/baseline_read_models.rs:1641-1647 | the loop returns the first 64 different values in order of first appearance |
| BoundedRefs.BoundedIsFirstDistinct | crates/app_core/src/baseline_read_models.rs:1629-1647 | pushing one by one under the cap is taking the first 64 different values |
| BoundedRefs.DistinctInOrder | crates/app_core/src/baseline_read_models.rs:1629-1633 | those values stand in the order of their first appearance |
| BoundedRefs.ExtendComposes | crates/app_core/src/baseline_read_models.rs:1635-1639 | extending by one list and then another is extending by both |
| BoundedRefs.BoundedIdempotent | crates/app_core/src/baseline_read_models.rs:1641-1647 | bounding a bounded list leaves it |
| BoundedRefs.BoundedShape | crates/app_core/src/baseline_read_models.rs:1629-1647 | a bounded list has no repeats, at most 64 members, all from the input, and all of the input's if it has at most 64 different ones |
| BoundedRefs.BoundedUniqueStrings | crates/app_core/src/endpoint_threat_runtime.rs:870-877 | the set-filter-then-take implementation returns what the pushing one does |
| BoundedRefs.RefList.Extend | crates/app_core/src/baseline_read_models.rs:1635-1639 | the in-place loop extends the vector as the specification says |
| SafeSlug.Slug | crates/app_core/src/baseline_read_models.rs:1554-1603 | the rewrite loop and the underscore loop terminate and compute the one-pass specification |
| SafeSlug.HalveShortens | crates/app_core/src/baseline_read_models.rs:1593-1595 | each pass of the underscore loop shortens a text that still has a double underscore |
| SafeSlug.HalveKeepsCollapse | crates/app_core/src/baseline_read_models.rs:1593-1595 | each pass keeps the collapse of all maximal underscore runs |
| SafeSlug.CollapseFixed | crates/app_core/src/baseline_read_models.rs:1593-1595 | a text without a double underscore is its own collapse, so the loop ends at the collapse |
| SafeSlug.CollapseShape | crates/app_core/src/baseline_read_models.rs:1593-1595 | a collapsed text has no double underscore, the same kind of characters, and starts with one exactly if the original does |
| SafeSlug.SlugShape | crates/app_core/src/baseline_read_models.rs:1554-1603 | a slug has 1 to 96 characters, only lowercase letters, digits and _-:. , no double or leading underscore, and ends in one if and only if the cut at 96 falls on it |
| SlugFixedPoints.SlugFixed | crates/app_core/src/baseline_read_models.rs:1554-1603 | for every text: normalising leaves it alone if and only if it looks like a slug, none of the 23 markers occurs in it, and it does not end in an underscore |
| SlugRules.SlugFixedByMarkers | crates/app_core/src/baseline_read_models.rs:1556-1582 | the same with the 23 markers written out |
| SlugRules.MarkerIsReplaced | crates/app_core/src/baseline_read_models.rs:1556-1582 | on a text without the markers before it, a marker's first occurrence becomes its replacement, written out for each, and the rewrite goes on behind it |
| SlugRules.SlugIsInnerPart | crates/app_core/src/baseline_read_models.rs:1584-1603 | a slug is the first 96 characters between the underscores at both ends of the collapsed text, and the default if there are none |
| SlugFixedPoints.SecondPassExactlyWhen | crates/app_core/src/baseline_read_models.rs:1554-1603 | normalising twice is normalising once if and only if the slug holds no marker and does not end in an underscore |
| SlugFixedPoints.RewritesSettle | crates/app_core/src/baseline_read_models.rs:1556-1582 | either no marker occurs in a text, or all rewrites together leave a text that parts from it at a place no later rewrite can mend |
| SlugFixedPoints.AdvanceParts | crates/app_core/src/baseline_read_models.rs:1580-1582 | a rewrite that finds something parts two texts at its first change or keeps them parted, whichever place comes first |
| SafeSlug.SlugNotIdempotent | crates/app_core/src/baseline_read_models.rs:1554-1603 | the slug of `raw log` is the marker `raw_log`, whose slug is `redacted_log` |
| GroupKeys.GroupKeyForHypothesis | crates/app_core/src/baseline_read_models.rs:926-962 | the loops over facts and references compute the specified key, the last fact of an id winning |
| GroupKeyFields.KeySaysExactly | crates/app_core/src/baseline_read_models.rs:926-962 | a key is the strictly ascending list of what the hypothesis says, joined with bars: category slug, first evidence, and route, provider, identity, deception and provenance of the last fact listed with each of the first eight references |
| GroupKeyFields.SameKeyExactlyWhen | crates/app_core/src/baseline_read_models.rs:926-962 | two hypotheses share a key if and only if they say the same in those fields |
| GroupKeyFields.IdentitiesSeparate | crates/app_core/src/baseline_read_models.rs:948-950 | hypotheses on an identity whose hash the other's facts do not have never share a key |
| GroupKeys.SplitJoin | crates/app_core/src/baseline_read_models.rs:959-961 | splitting a joined list of plain parts at its bars gives the list back |
| GroupKeys.CanonicalExactlyWhen | crates/app_core/src/baseline_read_models.rs:959-961 | sorted, deduplicated and joined, two lists are equal if and only if they hold the same texts |
| GroupKeys.RenderInjective | crates/app_core/src/baseline_read_models.rs:932-956 | a rendered part gives back its tag and its value |
| GroupKeys.KeysEqualExactlyWhen | crates/app_core/src/baseline_read_models.rs:926-962 | two hypotheses share a key if and only if their sets of parts are equal, and the key splits back into that set |
| GroupKeys.SharedKeySharesCategoryAndEvidence | crates/app_core/src/baseline_read_models.rs:932-935 | a shared key means the same category slug and the same first piece of evidence |
| Grouping.FoldsNext | crates/app_core/src/baseline_read_models.rs:710-719 | adding an item to the value under its key keeps every key's value the fold of its items in order |
| Grouping.GroupsPartition | crates/app_core/src/baseline_read_models.rs:710-719 | over different keys that cover the items, groups hold every item exactly once |
| IncidentIndexes.RecordsByFact | crates/app_core/src/baseline_read_models.rs:964-975 | the nested loops build the index that a plain scan describes, repeats and order included |
| IncidentIndexes.IndexedExactlyWhen | crates/app_core/src/baseline_read_models.rs:964-975 | an entry holds a baseline id if and only if a record with that id lists the fact |
| IncidentIndexes.FindingToIncident | crates/app_core/src/baseline_read_models.rs:977-994 | every finding is mapped to the last incident in list order that reaches it, directly or through an alert, and no other is mapped |
| IncidentIndexes.ClaimAll | crates/app_core/src/baseline_read_models.rs:980-990 | one incident overwrites exactly the findings it reaches |
| IncidentIndexes.OwnerIsLastReaching | crates/app_core/src/baseline_read_models.rs:977-994 | the owner is the incident after which no other reaches the finding |
| IncidentIndexes.UnreachedHasNoOwner | crates/app_core/src/baseline_read_models.rs:977-994 | a finding has no owner if and only if no incident reaches it |
| IncidentGroups.GroupBuilder.AddHypothesis | crates/app_core/src/baseline_read_models.rs:770-820 | updates all eleven vectors in place to what the specification of one addition says |
| IncidentGroups.CollectGroups | crates/app_core/src/baseline_read_models.rs:708-719 | the loop leaves a view for exactly the keys of hypotheses with evidence, the fold of their members in order |
| IncidentGroups.BuildIncidentGroups | crates/app_core/src/baseline_read_models.rs:704-724 | a group is built for exactly the keys with members, from their accumulation and the two indexes |
| IncidentGroups.BuildNeverDrops | crates/app_core/src/baseline_read_models.rs:827-829 | the check for empty references never drops a collected group |
| GroupTheorems.MemberOfGroupExactlyWhen | crates/app_core/src/baseline_read_models.rs:710-719 | a hypothesis is in a group if and only if it has evidence and carries the group's key |
| GroupTheorems.SameGroupExactlyWhen | crates/app_core/src/baseline_read_models.rs:704-719 | two hypotheses with evidence are in one group if and only if they say the same in all fields that go into a key |
| GroupTheorems.GroupsHoldEveryHypothesisOnce | crates/app_core/src/baseline_read_models.rs:710-719 | over any different keys covering the groups, member counts add up to the number of hypotheses with evidence |
| GroupTheorems.GroupHoldsBoundedRefs | crates/app_core/src/baseline_read_models.rs:848-859 | a built group lists the first 64 different references of all its members in order; the second bounding changes nothing |
| GroupTheorems.EvidenceComesFromMembers | crates/app_core/src/baseline_read_models.rs:779-782 | evidence of a group comes from a member, and none is missing while the list is below its cap |
| GroupTheorems.BaselineSharesFact | crates/app_core/src/baseline_read_models.rs:800-804 | a baseline reference of a group belongs to a record that shares a fact with a member, and none is missing below the cap |
| GroupTheorems.IncidentIsOwnerOfFirstReached | crates/app_core/src/baseline_read_models.rs:831-834 | the group's incident is the owner of the first finding it lists that any incident reaches |
| GroupTheorems.NoIncidentExactlyWhen | crates/app_core/src/baseline_read_models.rs:831-834 | it has no incident if and only if no incident reaches any finding it lists |
| GroupTheorems.WarningsCountDistinctRefs | crates/app_core/src/baseline_read_models.rs:837-840 | the merge warnings hold if and only if the members' different references, uncapped, are as few as they say |
| GroupTheorems.TimesBoundMembers | crates/app_core/src/baseline_read_models.rs:830-866 | first seen and last updated are the earliest and the latest creation among the members |
| GroupTheorems.FlagsAreNormalisedTwice | crates/app_core/src/baseline_read_models.rs:1618-1627 | every flag of a finished group is the slug of the slug of a member's flag |
| GroupTheorems.FlagsAreComplete | crates/app_core/src/baseline_read_models.rs:1618-1627 | no member's flag is missing while the members raise fewer than 64 different ones |
| GroupTheorems.ReasonIsFirstGiven | crates/app_core/src/baseline_read_models.rs:867-871 | the reason of a group is the slug of its first member's reason that has one, and metadata only if none has |
| GroupTheorems.BoundedStringsShape | crates/app_core/src/baseline_read_models.rs:1618-1627 | the finished flags ascend strictly and are exactly the bounded slugs |
| NativePermissions.PermissionRuntime.ApplyAction | crates/app_core/src/authorized_native_permissions.rs:78-211 | updates capability and logs in place to what the specification of a call says, for every way of failing |
| NativePermissions.PermissionRuntime.Publish | crates/app_core/src/authorized_native_permissions.rs:188-196 | events before a refused one stay in the log untrimmed; only a full success trims to the last 64 |
| NativeTheorems.CatalogRunsAreSane | crates/app_core/src/authorized_native_permissions.rs:371-488 | from the default catalog, over every run of calls: enabled, granted, session-bound and lifecycle Granted are one fact, which excludes revoked and the response placeholder, and every capability passes validation |
| NativeOutcomes.CatalogTells | crates/app_core/src/authorized_native_permissions.rs:371-478 | the default catalog is nine visibilities that nobody asked for and the response placeholder, none enabled, revoked or checked |
| NativeTheorems.EnabledExactlyWhen | crates/app_core/src/authorized_native_permissions.rs:90-165 | after any run a capability is enabled if and only if its last request, grant, revocation or disabling was a grant and it is not the placeholder |
| NativeTheorems.EnabledMeansUserGranted | crates/contracts/src/native_permission/mod.rs:236-247 | an enabled capability goes back to a call with an explicit user action, with nothing deciding in between |
| NativeTheorems.RevokedExactlyWhen | crates/app_core/src/authorized_native_permissions.rs:90-165 | after any run a capability is revoked if and only if its last request, grant or revocation was a revocation |
| NativeOutcomes.StandingByLastDecision | crates/app_core/src/authorized_native_permissions.rs:90-165 | after any run, lifecycle, permission, mode and reason of a capability are those that a table gives for its last request, grant, revocation or disabling and the rechecks and clearings since |
| NativeOutcomes.HealthIsLastSet | crates/app_core/src/authorized_native_permissions.rs:90-165 | after any run, availability and health are those of the last call that sets them |
| NativeOutcomes.AppliedTells | crates/app_core/src/authorized_native_permissions.rs:163-211 | a success reports the capability that the plane now holds, the entry that it wrote for this capability, action and resulting state, and five events about them; log ends hold both |
| NativeOutcomes.WrittenTells | crates/app_core/src/authorized_native_permissions.rs:163-196 | whatever becomes of its events, a call that finds a capability writes one entry about it, and its accepted events in the order of the five topics |
| NativeOutcomes.RefusedExactlyWhen | crates/app_core/src/authorized_native_permissions.rs:78-89 | which calls are refused as bad or not found, and that they change nothing |
| NativeOutcomes.CheckedExactlyWhen | crates/app_core/src/authorized_native_permissions.rs:160-165 | a capability says that it was checked if and only if a call ever reached it |
| NativeOutcomes.SummaryTells | crates/app_core/src/authorized_native_permissions.rs:345-369 | an audit summary lists the newest 64 entries, newest first, their ids, and the capability of each that left one revoked, in that order |
| NativeTheorems.AppliedExactlyWhen | crates/app_core/src/authorized_native_permissions.rs:78-211 | a sane plane applies a call if and only if it reaches a capability and all five events are accepted; a capability is never refused as unsafe |
| NativeTheorems.EverySuccessReportsDegradedVisibility | crates/app_core/src/authorized_native_permissions.rs:490-539 | every success reports exactly five events, the last of degraded visibility, all citing its audit entry |
| NativeTheorems.AuditLogIsLast64 | crates/app_core/src/authorized_native_permissions.rs:182-186 | after any run, failed calls included, the audit log is the last 64 entries ever written |
| NativeTheorems.EventLogIsWindow | crates/app_core/src/authorized_native_permissions.rs:188-196 | after any run the event log is an end of everything emitted and holds at least the last 64 |
| NativeTheorems.StepTrimsExactlyWhen | crates/app_core/src/authorized_native_permissions.rs:188-196 | a call on a log within its cap leaves exactly the last 64 if and only if it reaches nothing, has all five events accepted, or the accepted ones still fit |
| NativeTheorems.EventLogIsLast64ExactlyWhen | crates/app_core/src/authorized_native_permissions.rs:188-196 | after any run the log is exactly the last 64 if and only if what the last fully accepted call left and the events accepted since are together at most 64 |
| NativeTheorems.FailedPublishesGrow | crates/app_core/src/authorized_native_permissions.rs:188-196 | n calls refused after k accepted events leave n times k more events in the log |
| NativeTheorems.OwnRefsAreFirst64 | crates/app_core/src/authorized_native_permissions.rs:179-180 | a capability's own references are the first 64 of its own history |
| NativeTheorems.SummaryFailsExactlyWhen | crates/app_core/src/authorized_native_permissions.rs:345-369 | the audit summary fails if and only if more than 32 of the last 64 entries left a capability revoked or one of them has an unsafe text |
| NativeTheorems.RunSummaryFailsExactlyWhen | crates/app_core/src/authorized_native_permissions.rs:345-369 | on a sane plane, after any run of calls, the summary fails if and only if more than 32 of the last 64 entries written left a capability revoked |
| NativeTheorems.RevocationsBreakTheSummary | crates/app_core/src/authorized_native_permissions.rs:345-369 | after 33 revocations in a row the audit summary can no longer be produced |
| OwnershipInventory.Validate | crates/app_core/src/canonical_read_models.rs:337-385 | the verdict is an error for the first faulty entry, or for the first required category without exactly one owner if no entry is faulty, and otherwise acceptance |
| OwnershipInventory.ScanEntries | crates/app_core/src/canonical_read_models.rs:340-368 | the loop stops at the first faulty entry and otherwise has counted the intended owners of every category |
| OwnershipInventory.AcceptedExactlyWhen | crates/app_core/src/canonical_read_models.rs:337-385 | an inventory is accepted if and only if every entry is sound and every required category has exactly one intended owner |
| OwnershipInventory.AcceptedByFields | crates/app_core/src/canonical_read_models.rs:337-385 | accepted if and only if no entry is a violation, unknown or has a blank text, and each of the twenty categories is owned at exactly one position |
| OwnershipInventory.RejectedTells | crates/app_core/src/canonical_read_models.rs:337-385 | what each error says: of the first entry that is not sound, or of a category that no entry or more than one owns |
| OwnershipInventory.VerdictIsUnique | crates/app_core/src/canonical_read_models.rs:337-385 | no two verdicts fit one inventory |
| OwnershipInventory.ExtraRowsDoNotMatter | crates/app_core/src/canonical_read_models.rs:352-354 | a sound row that is no intended owner changes nothing about acceptance |

## Left out

- The `Drop` implementations of the runtimes: they stop and ignore the result, which adds no state to prove about.
- Timestamps, `updated_at` fields and generated ids of the lifecycle and cache: values that nothing branches on.
- Mutex poisoning and thread-spawn failure: their error paths are not modelled.
- Adapter internals: a start, a command or a stop returns any outcome or error, and an adapter may panic.
- The three lifecycle classes are one class with a profile; the labels of the RDP, SMB and SSH constructors are not told
  apart.
- `LifecycleThreads`, `Publication` and `SchedulerWorker` are state machines over values: threads, channels and locks
  are interleaved there, which one Dafny object cannot show. What is shared is named in each file.
- The worker loop's own work (timers and sampling, `apps/desktop/src/lib.rs` 2858-3060): a worker runs until it
  finishes.
- Tauri commands, event emission, storage and export: input and output around the modelled state.
- The demo replay installs a read model that never was a core state; `Publication` is about runs without it.
- The map of groups owns its builders, so `CollectGroups` holds them as values and takes one out to add to it.
- The final ordering of groups by first time and key hash, and the cut to 128 groups: a sort and a prefix.
- Confidence trends, severity trend, quality and report sections of a group: `f32` averages and tables of one branch.
- SHA-256 and UUID derivation: the digest is any function to texts without a bar.
- The timeline, the baseline accumulators and the indicators: the same capped lists again, or bucket tables.
- Field-by-field text safety of permissions: `sound`, `textSafe` and the reason say whether texts pass; an event that
  fails its own check counts as refused.
- The permission preview and the status and visibility summaries: counts and filters over the catalog.
- The snapshot items of the ownership inventory: one record built from each row.
