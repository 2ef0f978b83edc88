# Verification of the cmdman compose core

This project models the parts of cmdman that coordinate: the concurrent reconcile
walk behind `compose up`, `start`, `stop` and `down`, the teardown protocol of
`compose down` with its resource releases, the rotating event log, the single down
job of a project, planning and its inverse, generated names, and three small
stream transducers. It proves what their documentation promises, over all inputs
and over all interleavings.

`dafny verify dfyconfig.toml` checks everything.

## How it is built

- **Reconcile walk.** `ReconcileGraph` holds the graph, the scheduling flags and
  the critical sections, once as functions of the state and once as the methods of
  class `Graph`, which are proved to compute them. `ReconcileWalk` is the walk as a
  transition system: a pool of workers, one bounded channel, and cancellation at
  any point. `ReconcileInvariant` and `ReconcileWalkInvariant` prove what each
  critical section and each step keep; `ReconcileRuns` states safety, progress and
  termination of all runs; `ReconcileOutcome` refines the walk to a sequential
  evaluation. `DependencyGraph` and `TopoLayers` are the layering,
  `ReconcileBuild`, `Closures`, `ReconcileActions` and `ReconcileStart` lead from
  the spec to the walk, and `StartOutcomes` and `StopOutcomes` are its reports.
- **Teardown.** `Lifecycle`, `ReleaseRecorder`, `HookRuns` and `ReleaseReport` hold
  hooks, one hook run, the recorder, the retries and the report. `DownProtocol` is
  the teardown as a transition system whose steps are single hook runs of
  replicas that act at once; `DownInvariant` proves what each step keeps,
  `DownHistory` what the releases that ran say about the configuration, `DownResults`
  what a teardown must not do, `DownReleases` and `DownRetries` what it must: which
  releases run, and which run again. `DownRecords` is what a failure is reported with,
  `DownTwice` exactly where two of the promises end.
- **Event log.** `EventLogWriter` is the append in place, `EventLog` the writer's
  and the reader's steps, rotations that fail half-way among them. `EventLogRuns` is
  what a reader delivers and omits when none does, `EventLogOrder` the order of what
  it delivers in every run, `EventLogRepeats` what a failed rotation does to it,
  `EventLogProgress` how a reader gets to the end of the log.
- **Down job.** `DownJob` is the protocol of launches, lookups, monitors and
  crashes, `DownJobRuns` its invariant, `DownJobResults` its promises, `DownJobReuse`
  when a launch has to answer with the record it finds.
- **Planning and names.** `Plan`, `ComposeLabels`, `Reconstruct`, `Naming`,
  `Decimal`, `MuxOpName`.
- **Transducers.** `DetachMatcher` and `DetachKeys`, `LogLines`.

In a transition system a step is what the source does between two points at which
another process can be seen, and every order of the steps is a run. The parts that
update objects in place are classes, and their methods are proved to do what the
functions the transition systems use say.

## What was found

- `DetachKeys`: a key sequence that overlaps itself is missed in some inputs; for
  instance `a,a,b` typed as `a a a b`. The matcher recognizes a key at every
  occurrence exactly when the key is free of such an overlap.
- `ReconcileStart`: an unset `after` condition counts as `completed` when an edge is
  judged, but not when the start action decides whether to wait, so a dependent can
  be left blocked by a dependency that runs without error. Normalization never
  leaves a condition unset.
- `StartOutcomes`: the report of a start walk gives no error for a command the walk
  did not come to. A start can report a command so that it did not act on exactly when
  it has something to do and covers a command: it takes an interruption, and every walk
  can be interrupted before it comes to any command.
- `DownTwice`: the release of a resource can run twice without a retry exactly when
  the teardown is of the whole project, the holder stores a release at a stop event,
  and the hooks of its owner, which is to be removed, release it at `remove_post`, or
  at `remove_pre` under an `on_error` other than fail. When the owner is also to be
  stopped, its stop must not begin, which takes a cancelled teardown, in which no hook
  works any more; then the release has to be the first of the owner's remove hooks, at
  `remove_post`. A release can be reported as failed although its last run worked in
  the same configurations, but only when the owner is not to be stopped.
- `DownResults`: a release whose failure is recorded just before its context is found
  done ends its operation as failed, and is reported as a warning all the same when
  its `on_error` is not fail.
- `DownJobResults`: a lookup can report a record that never ran, and the record runs
  afterwards, exactly when a monitor was spawned for it by the lookup's check, as a
  launch that died can have done. The report is wrong in any way exactly when a
  monitor of the record is pending at that check.
- `DownJobReuse`: a launch removes the record of a run that began after its request,
  and runs the down again, in some schedule exactly when it finds a record that does
  not answer it while a monitor of that record is pending: the monitor can run it
  between the launch's look at the record and its try of the PID lock.
- `EventLogOrder`, `EventLogRepeats`: a rotation that fails once its marker is written
  leaves the marker in the active file. A reader delivers events in order, none twice,
  as long as it takes no snapshot behind such a marker. Taking one it opens files a
  second time: the archive, when there is one, and the active file up to the marker,
  round after round until a rotation succeeds. An
  event appended to the file behind the marker is never delivered.
- `Naming`: without the rule that a name must not begin with a dash, two projects
  could share a generated name.

## Model

| member | source | states |
|---|---|---|
| ReconcileGraph.Graph.constructor | cmdman/compose/reconcile.go:339-375 | every vertex starts unscheduled, with the state and exit code of its snapshot |
| ReconcileGraph.Graph.EvalEdge | cmdman/compose/reconcile.go:611-680 | the status of one dependency edge, by the current run inside the closure and by the snapshot outside |
| ReconcileGraph.EdgeMeans | cmdman/compose/reconcile.go:611-680 | an edge is met iff its dependency ended without an error in this walk, in a state the condition accepts, or outside the closure was observed in one; it is open iff the dependency is in the closure and not blocked, and was not acted on or did not stop though it has to |
| ReconcileGraph.Graph.EvalReadiness | cmdman/compose/reconcile.go:575-605 | blocked if some edge is blocked, else pending if some is pending; from end, pending while an in-closure dependent is left |
| ReconcileGraph.Graph.Claim | cmdman/compose/reconcile.go:505-534 | a claim skips, starts, leaves or blocks the vertex, and changes nothing else |
| ReconcileGraph.Graph.Complete | cmdman/compose/reconcile.go:539-568 | records the result with the next stamp and queues exactly the followers that are not scheduled, returning each once |
| ReconcileGraph.Graph.EnqueueFollowers | cmdman/compose/reconcile.go:553-567 | the followers queued are those returned |
| ReconcileGraph.Graph.Seed | cmdman/compose/reconcile.go:712-729 | queues exactly the targets that wait for no in-closure neighbour |
| ReconcileGraph.Graph.HasInClosureRealNeighbor | cmdman/compose/reconcile.go:733-747 | whether some in-closure neighbour precedes the vertex in the direction of the walk |
| ReconcileGraph.Graph.IsDone | cmdman/compose/reconcile.go:751-764 | whether no target is queued or in progress |
| ReconcileGraph.Graph.Finalize | cmdman/compose/reconcile.go:768-787 | blocks exactly the unconsumed targets, with distinct new stamps |
| ReconcileGraph.Graph.AnyDependentNeedsCompletion | cmdman/compose/reconcile.go:685-707 | whether an in-closure dependent asks for completion; unset conditions do not count |
| CommandSnapshot.AggregateInstances | cmdman/compose/reconcile.go:79-112 | failed over exited over running over starting, with the exit code reduced as documented |
| CommandSnapshot.AggregateMeans | cmdman/compose/reconcile.go:79-112 | failed iff some replica failed, exited iff all exited, running iff all run or start, absent iff there is none, else starting; the exit code of a command that ended is the first one recorded that is not zero, else zero if one is |
| CommandSnapshot.AggregateSuccess | cmdman/compose/reconcile.go:79-112 | exited with code zero iff all replicas exited, every recorded code is zero and one is recorded |
| ReconcileInvariant.SeedKeeps | cmdman/compose/reconcile.go:712-729 | seeding establishes the graph invariant |
| ReconcileInvariant.ClaimKeeps | cmdman/compose/reconcile.go:505-534 | a claim keeps it: exclusive flags, held edges, no lost wake-up, justified blocks, ordered stamps |
| ReconcileInvariant.CompleteKeeps | cmdman/compose/reconcile.go:539-568 | a completion keeps it |
| ReconcileInvariant.FinalizeKeeps | cmdman/compose/reconcile.go:768-787 | finalize keeps it once nothing is queued or in progress, and leaves nothing unconsumed |
| ReconcileInvariant.NothingLeftFromEnd | cmdman/compose/reconcile.go:575-589 | walking from end, a drained acyclic graph has nothing left for finalize |
| ReconcileWalkInvariant.StepKeeps | cmdman/compose/reconcile.go:432-500 | every step of every worker, and a cancellation, keeps the invariant of the walk |
| ReconcileRuns.RunInv | cmdman/compose/reconcile.go:432-500 | every state of every run, cancelled or not, satisfies it |
| ReconcileRuns.ActionEdgesHold | cmdman/compose/reconcile.go:590-605 | in a start walk an action runs only while every dependency edge is satisfied, and those edges stay satisfied |
| ReconcileRuns.ActionsOrdered | cmdman/compose/reconcile.go:455-483 | when an action begins, the actions of everything it waits for have ended |
| ReconcileRuns.ActionsBounded | cmdman/compose/reconcile.go:438-460 | no vertex is acted on twice, and at most limit are in progress |
| ReconcileRuns.QueuedAccounted | cmdman/compose/reconcile.go:446-470 | the ids in the channel and in workers' hands are exactly the queued vertices |
| ReconcileRuns.NoLostWakeup | cmdman/compose/reconcile.go:553-567 | an unconsumed target whose edges hold is queued or in progress |
| ReconcileRuns.DoneIsDetected | cmdman/compose/reconcile.go:475-479 | whenever nothing is queued or in progress, some worker is about to detect it |
| ReconcileRuns.SendNeverBlocks | cmdman/compose/reconcile.go:446-473 | a send of an uninterrupted walk finds room in the channel |
| ReconcileRuns.Progress | cmdman/compose/reconcile.go:432-483 | an uninterrupted walk is never stuck before every worker has left |
| ReconcileRuns.StepDecreases | cmdman/compose/reconcile.go:432-483 | every step lowers a lexicographic measure |
| ReconcileRuns.EveryRunEnds | cmdman/compose/reconcile.go:425-483 | no schedule runs forever |
| ReconcileOutcome.WalkRefinesEvaluation | cmdman/compose/reconcile.go:425-483 | an uninterrupted walk that ended acted on exactly the vertices a sequential evaluation in dependency order acts on, with the same results |
| ReconcileOutcome.SchedulesAgree | cmdman/compose/reconcile.go:425-483 | any two schedules and worker limits end the same |
| ReconcileOutcome.EveryTargetSettled | cmdman/compose/reconcile.go:425-483 | each target ends acted on exactly once, or blocked with an error and never acted on; a stop walk acts on all |
| StartOutcomes.ReportStarts | cmdman/compose/reconcile.go:789-805 | the in-closure commands in the order of the spec, with the errors of their vertices |
| StartOutcomes.StartsInOrder | cmdman/compose/reconcile.go:789-805 | the commands listed are those in the closure, each once and in the order of the spec |
| StartOutcomes.NoErrorMeans | cmdman/compose/reconcile.go:789-805 | a command is reported without an error iff its action ended without one or the walk has not come to it, in every state of every walk |
| StartOutcomes.NoErrorMeansActed | cmdman/compose/reconcile.go:789-805 | no error means acted on iff the walk came to every command listed |
| StartOutcomes.FinishedWalkReachesAll | cmdman/compose/reconcile.go:425-483 | an uninterrupted walk has come to every command listed when it ends |
| StartOutcomes.InterruptedReportsNothing | cmdman/compose/reconcile.go:461-462 | every walk can be interrupted so that it reports all its commands without an error and acted on none |
| StartOutcomes.UnactedExactly | cmdman/compose/reconcile.go:789-805 | a start can report a command without an error that it did not act on iff it has something to do and covers a command |
| StopOutcomes.ReportStops | cmdman/compose/reconcile.go:810-841 | the report is the in-closure commands, stably sorted by stamp |
| StopOutcomes.ItemsInOrder | cmdman/compose/reconcile.go:810-833 | what is sorted are the commands in the closure in the order of the spec, each with the error, the kill and the stamp of its vertex |
| StopOutcomes.SortOrders | cmdman/compose/reconcile.go:834-834 | the sort orders by stamp and keeps every item |
| StopOutcomes.SortStable | cmdman/compose/reconcile.go:834-834 | items of one stamp keep their order |
| StopOutcomes.StopsListedInOrder | cmdman/compose/reconcile.go:807-841 | even when cancelled, no command acted on is listed before one it had to wait for, and those not acted on come first |
| StopOutcomes.StopReportIsTeardownOrder | cmdman/compose/reconcile.go:807-841 | the report of a finished stop walk lists dependents before dependencies |
| TopoLayers.Count | cmdman/compose/graph.go:45-64 | in-degrees and dependents are counted with multiplicity; the error is a dependency that does not exist |
| TopoLayers.RemoveName | cmdman/compose/graph.go:83-89 | removing a command leaves each in-degree the number of entries that name commands not yet removed |
| TopoLayers.TopoLayers | cmdman/compose/graph.go:40-105 | succeeds iff all dependencies are known and there is no cycle; on success the layers partition the commands by longest dependency chain; a cycle error lists exactly the commands with chains of every length leading to them |
| TopoLayers.ValidateDAG | cmdman/compose/graph.go:11-28 | no error iff all dependencies are known and there is no cycle |
| TopoLayers.LayersIgnoreOrder | cmdman/compose/graph.go:40-92 | the layers do not depend on the order of the commands |
| DependencyGraph.LayersAreLayering | cmdman/compose/graph.go:30-34 | layers formed greedily are indexed by the longest chain |
| DependencyGraph.LayeringMeansAcyclic | cmdman/compose/graph.go:34-34 | a layered graph has no cycle |
| DependencyGraph.TrappedMeansCycle | cmdman/compose/graph.go:94-105 | commands that hold one another back contain a real cycle |
| DependencyGraph.StuckAreUnbounded | cmdman/compose/graph.go:94-105 | the commands left when no layer can be formed are those with unbounded chains |
| DependencyGraph.LayeringUnique | cmdman/compose/graph.go:30-34 | a graph has one layering |
| Closures.BuildDependents | cmdman/compose/reconcile.go:166-172 | the map lists exactly the dependents of each command |
| Closures.Walk | cmdman/compose/reconcile.go:131-144 | the search adds a closed set forced by its start, and ends on cyclic input |
| Closures.ResolveTargetCommands | cmdman/compose/reconcile.go:118-149 | the least set with the named commands that is closed under dependencies; every command when none is named |
| Closures.ResolveStopTargetCommands | cmdman/compose/reconcile.go:154-189 | the least set with the named commands that is closed under dependents; every command when none is named |
| Closures.ClosureIsReachable | cmdman/compose/reconcile.go:114-153 | it is exactly what dependency chains connect to the named commands |
| ReconcileBuild.BuildReconcileGraph | cmdman/compose/reconcile.go:324-395 | vertices, closure marks, narrowed snapshots, and edges mirrored at both ends |
| ReconcileBuild.BuiltVertexMeans | cmdman/compose/reconcile.go:339-375 | a target narrowed to some replicas covers these and sees a snapshot of exactly the stored replicas with their indices; any other command covers all its replicas and sees the stored snapshot |
| ReconcileBuild.ParentsMember | cmdman/compose/reconcile.go:382-392 | of several entries for one dependency the last gives the condition |
| ReconcileBuild.BuiltDependsOn | cmdman/compose/reconcile.go:382-392 | the edges are the dependencies of the commands |
| ReconcileBuild.BuiltWellFormed | cmdman/compose/reconcile.go:315-395 | a built graph is fit for the walk |
| ReconcileBuild.BuiltAcyclic | cmdman/compose/service_reconcile.go:43-45 | a validated spec gives an acyclic graph |
| ReconcileBuild.LayersAreDependencyOrder | cmdman/compose/graph.go:30-34 | the layers, one after another, list the targets in dependency order |
| ReconcileActions.StartReplicas | cmdman/compose/service_reconcile.go:130-176 | starts the covered replicas that are not held and whose last stored entry is neither running nor starting, in order, up to the first failure; without a failure all of them |
| ReconcileActions.ToStartIsFilter | cmdman/compose/service_reconcile.go:139-176 | what is to be started are exactly those names, each as often and in the order as they are covered |
| ReconcileActions.NamesCovered | cmdman/compose/reconcile.go:264-286 | a vertex acts on the selected replicas, else on 1 up to the scale and the first at any rate, in that order |
| ReconcileActions.Reduce | cmdman/compose/service_reconcile.go:206-237 | exited iff every wait ended with a code and without an error, else failed; the first error in order, and the first code that is not zero |
| ReconcileActions.ReducedSuccess | cmdman/compose/service_reconcile.go:206-237 | successful completion iff every covered replica exited with code zero |
| ReconcileActions.UpStartAction | cmdman/compose/service_reconcile.go:111-237 | the result by case; without an error no covered replica is held, and each was called to start without failing or is stored as running or starting; the command runs, or has ended when a dependent waits for that |
| ReconcileActions.ActiveInstances | cmdman/compose/reconcile.go:63-71 | the replicas that are running or starting, in order |
| ReconcileActions.StopAction | cmdman/compose/service_reconcile.go:290-346 | asks exactly the live replicas to stop; the action fails with the first failure in order, and reports a kill if any stop ended in one |
| ReconcileStart.BlockedOnlyByUnmet | cmdman/compose/service_reconcile.go:20-31 | in a finished start walk a vertex is blocked iff some dependency is blocked, failed, did not succeed although it had to, or was only asked for by unset conditions |
| ReconcileStart.TargetsAreClosed | cmdman/compose/reconcile.go:654-680 | with the resolved targets the branch for dependencies outside the closure is never taken |
| ReconcileStart.WalkFollowsLayers | cmdman/compose/service_reconcile.go:35-66 | a walk over a validated spec ends as if the commands were handled layer by layer |
| ReconcileStart.UnsetConditionStrands | cmdman/compose/reconcile.go:685-707 | an unset condition leaves a dependent blocked by a running dependency |
| Lifecycle.ValidateResourceEvents | cmdman/compose/lifecycle.go:158-202 | accepts exactly one acquire event and at most one matching release event |
| Lifecycle.ResourceEventsMatch | cmdman/compose/lifecycle.go:158-202 | a resource is acquired at one create event and released at no stop event and at most one remove event, or acquired at one start event and released at no remove event and at most one stop event |
| Lifecycle.ValidateLifecycleHooks | cmdman/compose/lifecycle.go:206-232 | accepts valid hooks with distinct names and distinct resources |
| Lifecycle.OneRelease | cmdman/compose/lifecycle.go:112-118 | among accepted hooks a resource has one release event |
| Lifecycle.ForcedHooks | cmdman/compose/lifecycle_steps.go:219-237 | no forced hook runs under fail; events and resources stay |
| Lifecycle.ForcedMeans | cmdman/compose/lifecycle_steps.go:219-237 | a forced hook runs the same command; fail, explicit or by default, becomes continue, and anything else stays |
| HookRuns.HookStore.ExecHook | cmdman/compose/lifecycle_runner.go:249-332 | whether the run works, the holder and value it worked from, and the drop that follows a release |
| HookRuns.HookStore.RunHookAs | cmdman/compose/lifecycle_runner.go:165-237 | verdict, recorded failure and holders after one run |
| HookRuns.RunVerdict | cmdman/compose/lifecycle_runner.go:165-237 | when a run succeeds, ends its operation, warns or is passed over, and when its holder goes |
| HookRuns.RecordMeans | cmdman/compose/lifecycle_runner.go:180-204 | a failure is recorded with the holder given or stored, as it is, completed with the release of the run if it stores none; without a readable one it can only be reported |
| HookRuns.RunConserves | cmdman/compose/lifecycle_runner.go:452-480 | a holder goes only when its release worked or failed under ignore |
| HookRuns.RunRecords | cmdman/compose/lifecycle_runner.go:163-204 | a failed release is always recorded, under fail when it was cancelled, and nothing else is |
| HookRuns.RecordAgrees | cmdman/compose/lifecycle_runner.go:180-213 | the record has a failed release handled under fail iff the run ended its operation, unless the context was found done only after the failure was recorded |
| HookRuns.ForcedFailsOnlyCancelled | cmdman/compose/lifecycle_steps.go:219-237 | a forced run ends the operation only when it is cancelled |
| ReleaseRecorder.Recorder.Record | cmdman/compose/release_recorder.go:60-67 | the failure becomes the last record of its holder, and no other holder's changes |
| ReleaseRecorder.Recorder.Failures | cmdman/compose/release_recorder.go:71-80 | returns every failure recorded, by holder name, those of one name in the order recorded, so the last record of each holder is still the last |
| ReleaseRecorder.Recorder.Take | cmdman/compose/release_recorder.go:84-94 | returns them in that order and leaves nothing recorded |
| ReleaseRecorder.SortSorts | cmdman/compose/release_recorder.go:96-100 | the order is by holder name and keeps every failure |
| ReleaseRecorder.SortNamed | cmdman/compose/release_recorder.go:96-100 | the sort is stable |
| ReleaseRecorder.SortLast | cmdman/compose/release_recorder.go:96-100 | the last record of each holder stays the last |
| ReleaseReport.OncePerHolder | cmdman/compose/service_down.go:348-355 | each holder once, with its last record |
| ReleaseReport.RetryFailures | cmdman/compose/service_down.go:364-420 | runs exactly the failures that copy their holder and whose owner is listed as exited, or as failed with a recorded end, once each; a retry that works drops its failure, one that fails replaces its error, and all others are left as they are |
| DownRetries.DueWhenStopped | cmdman/compose/service_down.go:364-434 | when the stops have returned a release is due for a retry iff its last failure copies its holder and its owner is listed as exited, or as failed with a recorded end |
| DownRetries.RetriedExactlyDue | cmdman/compose/service_down.go:342-420 | in every run, before the first removal, each release that is due has run once as a retry, and no other has |
| ReleaseReport.AddUnreleased | cmdman/compose/service_down.go:440-487 | each failed holder is reported once, by its last record: as an error under fail and as a warning otherwise, with the value of the holder and marked if it was retried |
| DownInvariant.StepKeeps | cmdman/compose/service_down.go:155-249 | every step of a teardown keeps its invariant |
| DownInvariant.ReleaseHookKeepsShapes | cmdman/compose/lifecycle_runner.go:37-57 | a hook runs the release of a resource no release of which ran before in this teardown |
| DownInvariant.RetryKeepsShapes | cmdman/compose/service_down.go:364-420 | a retry follows one failed stop hook run of the same resource, and none follows it |
| DownInvariant.StrandedKeepsShapes | cmdman/compose/service_down.go:261-320 | a stranded release follows no stop hook run and no retry |
| DownHistory.StrandedNeeds | cmdman/compose/service_down.go:261-320 | a release that ran in a remove hook and as stranded after it shows a configuration that allows it, and an owner whose stop did not begin; should it have, the second run failed too |
| DownResults.RunsAtMostTwice | cmdman/compose/service_down.go:129-144 | no release runs more than twice, and twice only after a failed stop hook run with a readable holder and a replica listed as verifiably stopped, or in a configuration that allows it |
| DownResults.HoldersLeaveReleased | cmdman/compose/lifecycle_runner.go:239-248 | over a whole teardown a holder leaves only after its release worked or failed under ignore |
| DownResults.FailuresReportedOnce | cmdman/compose/service_down.go:146-153 | a release is reported as failed, once, iff its last run failed, but for the configurations of CanMisreport; as an error iff that run ended its operation and was not cut in between, and marked iff it was the retry |
| DownResults.KeptNeverRemoved | cmdman/compose/service_down.go:98-101 | a replica kept by a failed stop hook is never removed |
| DownResults.ForceKeepsNone | cmdman/compose/service_down.go:102-104 | a forced teardown that is not cancelled keeps no replica its stored entry names |
| DownReleases.EveryStopBegins | cmdman/compose/lifecycle_steps.go:396-415 | unless the teardown is cancelled, the stop of every replica to be stopped begins |
| DownReleases.NoReleaseSkipped | cmdman/compose/lifecycle_steps.go:102-160 | of a stopped replica that is not kept every stop_pre release ran, and every stop_post one if the stop worked; of a removed one every remove_pre release, and every remove_post one unless an earlier hook ended the script |
| DownReleases.StopHookKeeps | cmdman/compose/lifecycle_steps.go:102-130 | a stop hook keeps its replica iff its run fails and on_error is fail, or the context is done |
| DownReleases.RefusedHooksKeep | cmdman/compose/lifecycle_steps.go:239-277 | stored hooks keep a replica from being stopped iff they do not name it, or cannot be decoded and the teardown is not forced |
| DownInvariant.ReleasesAtMeans | cmdman/compose/lifecycle_steps.go:239-277 | the releases a teardown runs are those its stored hooks declare at a stop or remove event, forced or not |
| DownReleases.LeftWhenRemoved | cmdman/compose/service_down.go:261-320 | after the removals a teardown of the whole project is to release exactly the readable holders that store a release, whose owner was gone before, or was removed without its stop release; a failed listing is reported instead |
| DownReleases.LeftReleasedOnce | cmdman/compose/service_down.go:261-320 | each of them runs once as stranded before the teardown ends, and no other does |
| DownReleases.VanishedLeft | cmdman/compose/service_down.go:261-320 | a holder whose owner was gone before the teardown is among them |
| DownRecords.ReportedValue | cmdman/compose/service_down.go:440-487 | a release is reported with the value its holder had when the teardown began; only a failure without a readable holder with that of one that cannot be read, or none |
| DownTwice.RunsTwice | cmdman/compose/lifecycle_steps.go:373-388 | with an owner that is not to be stopped every such configuration has a teardown without a cancellation in which a release fails in a remove hook and works as stranded |
| DownTwice.RunsTwiceCancelled | cmdman/compose/lifecycle_steps.go:333-415 | with an owner that is to be stopped it has one, cancelled before that stop begins, in which both runs fail |
| DownTwice.TwiceExactly | cmdman/compose/service_down.go:129-144 | a release can run twice without a retry iff the configuration allows it |
| DownTwice.TwiceUndisturbed | cmdman/compose/service_down.go:129-144 | in a teardown that is not cancelled, iff the configuration allows it and the owner is not to be stopped |
| DownTwice.MisreportedExactly | cmdman/compose/service_down.go:149-153 | a release can be reported as failed although its last run worked iff the configuration allows it and the owner is not to be stopped |
| DownTwice.MismatchRunsTwice | cmdman/compose/lifecycle_steps.go:373-388 | there is such a configuration |
| EventLogWriter.LogWriter.RotateLocked | cmdman/eventlog/writer.go:112-141 | marks the active file and puts a fresh one in its place, or stops with what was done up to the call that failed |
| EventLogWriter.LogWriter.Append | cmdman/eventlog/writer.go:60-110 | an append whose calls work marks the active file and begins a fresh one iff the limit is positive and the bytes of the active file and of the event with its newline exceed it, and else appends the event; whatever fails, what was done before it stays, and when the sync fails so does the event |
| EventLogWriter.ContentJoins | cmdman/eventlog/writer.go:90-98 | the size the rule goes by is that of all lines of the file, one after another |
| EventLogWriter.ActiveFileBounded | cmdman/eventlog/writer.go:16-17 | after an append that stored its event the bytes of the active file are within the limit, or it holds that event alone; they end in the event, behind what the file held if there was room |
| EventLogWriter.AppendIsSteps | cmdman/eventlog/writer.go:60-110 | an append, failed or not, is a run of the writer's steps |
| EventLog.DeletedMeans | cmdman/eventlog/writer.go:125-135 | on an intact disk a file is gone iff it is neither the active one nor the archive |
| EventLogRuns.StepKeeps | cmdman/eventlog/reader.go:121-228 | every step of writer and reader keeps the invariant as long as no rotation fails behind its marker |
| EventLogOrder.StepKeepsOrder | cmdman/eventlog/reader.go:121-228 | every step, failing rotations among them, keeps what was delivered the events of the files opened, up to their first markers |
| EventLogOrder.OnlyHeadsDelivered | cmdman/eventlog/reader_scan.go:32-77 | in every run what is delivered are the events before the first markers of the files opened |
| EventLogOrder.OpenedInOrder | cmdman/eventlog/reader.go:145-171 | in every run the files are opened in order, each once, iff no snapshot was taken behind the marker of a failed rotation |
| EventLogOrder.DeliveredInOrder | cmdman/eventlog/reader.go:121-228 | with no such snapshot, events are delivered in append order, none twice |
| EventLogOrder.OnlyFaultsReopen | cmdman/eventlog/writer.go:112-141 | only a rotation that failed once its marker was written leads to such a snapshot |
| EventLogRuns.OmittedFilesWereDeleted | cmdman/eventlog/reader.go:133-146 | only whole files the writer had deleted are passed over |
| EventLogRuns.NothingOmittedUnlessLate | cmdman/eventlog/reader.go:142-146 | every file is opened iff no snapshot found the active file more than two past the last one drained, and then a prefix of the log is delivered, all of it at the end of the active file |
| EventLogProgress.CatchesUp | cmdman/eventlog/reader.go:121-228 | a reader that was not cancelled, wherever it is, can read on to the end of the newest file without a step of the writer, and has then delivered the whole log unless a snapshot came late |
| EventLogRepeats.RepeatsBehindMarker | cmdman/eventlog/reader.go:154-171 | behind such a marker every reader can deliver the active file up to the marker again, and the archive before it |
| EventLogRepeats.RepeatsForever | cmdman/eventlog/reader.go:142-227 | it can do so any number of times |
| EventLogRepeats.FailedRotationRepeats | cmdman/eventlog/writer.go:115-135 | from every state with a reader about to take a snapshot, a rotation that fails behind its marker can lead there |
| DownJobRuns.StepKeeps | cmdman/cli/compose_down_job.go:235-363 | every step of launches, lookups and monitors keeps the lock invariant |
| DownJobResults.OneLiveRun | cmdman/cli/compose_down_job.go:56-76 | at most one run of the down is live |
| DownJobResults.RemovedUnmonitored | cmdman/cli/compose_down_job.go:328-363 | a record goes only while no monitor holds its PID lock or is live |
| DownJobResults.ReuseAnswers | cmdman/cli/compose_down_job.go:297-326 | a launch that starts nothing returns a job whose monitor holds its PID lock, or one that ran since the request |
| DownJobReuse.LaunchDecides | cmdman/cli/compose_down_job.go:297-326 | a launch that finds a record answers with it iff it is starting or running with a monitor behind it, or is over and its start stamp, else its creation, is no earlier than the request to the second; the record stays; else, and only then, the launch goes on to remove it |
| DownJobReuse.RemovalDecides | cmdman/cli/compose_down_job.go:318-349 | a launch that is about to remove a record still answers with it when its PID lock is held |
| DownJobReuse.RemovesRunSinceExactly | cmdman/cli/compose_down_job.go:297-363 | a launch can remove the record of a run that began no earlier than its request iff the record does not answer it and a monitor of it is pending when it decides |
| DownJobReuse.LaunchGoesThrough | cmdman/cli/compose_down_job.go:235-295 | a launch that finds no answer and no PID lock in its way can run a new job to its answer, whose record runs under a fresh id with its monitor behind it |
| DownJobReuse.FailedStartCleansUp | cmdman/cli/compose_down_job.go:264-280 | a launch whose start failed takes the record it made away, unless a monitor holds it |
| DownJobReuse.LaunchedHasRun | cmdman/cli/compose_down_job.go:263-295 | the record a launch returns as started is visible and never merely created |
| DownJobReuse.MonitorDecides | cmdman/cli/compose_down_job.go:328-332 | a monitor that finds the PID lock of its record held exits; one that takes it gets the record under way, or exits and frees the lock when the record is gone |
| DownJobReuse.ResultStays | cmdman/cli/compose_down_job.go:73-75 | the record of a run that ended keeps its result until it is removed or run again |
| DownJobReuse.LookupDecides | cmdman/cli/compose_down_job.go:162-186 | a lookup finds a job iff a record is visible, and looks closer exactly when it is created |
| DownJobResults.RanSinceMeans | cmdman/cli/compose_down_job.go:365-383 | a run after the request counts, and one that counts began less than a second before it |
| DownJobResults.CheckedIsForgotten | cmdman/cli/compose_down_job.go:188-228 | a record found created behind the lock has nothing under way iff no monitor is pending |
| DownJobResults.NeverRanHolds | cmdman/cli/compose_down_job.go:188-228 | a record reported as never run does not run later, when no monitor was pending and nobody starts it from elsewhere |
| DownJobResults.NeverRanThenRuns | cmdman/cli/compose_down_job.go:188-228 | the answer that a record never ran can be followed by a run of it, that nobody starts from elsewhere, iff a monitor is spawned for it at the check |
| DownJobResults.NeverRanWrong | cmdman/cli/compose_down_job.go:188-228 | the answer can be wrong, now or later, iff a monitor of the record is pending at the check |
| DownJobResults.NeverRanTooSoon | cmdman/cli/compose_down_job.go:188-228 | such a check is reached behind a launch that died |
| Decimal.AtoiItoa | cmdman/compose/plan.go:202-208 | a stored index reads back |
| Decimal.AtoiOnlyNumbers | cmdman/compose/plan.go:202-208 | a label that is not a sign and digits, or digits alone, does not read as a number |
| Naming.NamesInjective | cmdman/compose/hash.go:28-36 | no two distinct replicas, hook commands or resource holders share a generated name |
| Naming.LeadingDashCollides | cmdman/compose/normalize.go:545-547 | without the leading-dash rule two names collide |
| Naming.StripUndoesInstanceName | cmdman/compose/hash.go:70-78 | stripping the index suffix recovers the base name |
| MuxOpName.SanitizeMuxOpName | cmdman/cli/mux_op.go:239-272 | replaces, cuts and adds the digest as specified |
| MuxOpName.SanitizedMeans | cmdman/cli/mux_op.go:239-272 | a name that is not plain is cut to 107 characters, has an underscore for each one that is not portable, and ends in a dash and its digest |
| MuxOpName.SanitizedPlain | cmdman/cli/mux_op.go:231-272 | the result is a bounded portable name, and a name stays as it is iff it is one |
| MuxOpName.MuxOpLogNameInjective | cmdman/cli/mux_op.go:189-210 | names that need no replacement are distinct per server and identity |
| MuxOpName.BareDashCollides | cmdman/cli/mux_op.go:182-188 | a bare dash between the parts would let two windows share a name |
| ComposeLabels.ScaleIndexReadsBack | cmdman/compose/plan.go:214-220 | the index of a replica reads back from its labels |
| ComposeLabels.ScaleReadsBack | cmdman/compose/plan.go:195-212 | the scale reads back, at least one; a label that is no number reads as zero |
| Plan.ReadExisting | cmdman/compose/plan.go:86-115 | the first entry of another compose file as the error, the index by command and scale index, and the orphans |
| Plan.CreatedCollides | cmdman/compose/plan.go:86-100 | an entry created for a spec collides with another spec iff it names a file and that is not the file of the other |
| Plan.PlanCommand | cmdman/compose/plan.go:128-164 | one action per replica, each consuming the entry it finds |
| Plan.ComputePlan | cmdman/compose/plan.go:71-181 | a plan iff the graph is valid and no entry belongs to another file |
| Plan.PlanActionsMember | cmdman/compose/plan.go:46-48 | one action for each desired replica and none else |
| Plan.PlanPartitions | cmdman/compose/plan.go:45-57 | every configured entry falls into exactly one of actions, surplus and orphans |
| Plan.PlanInDependencyOrder | cmdman/compose/plan.go:46-48 | the actions of a command follow those of its dependencies |
| Plan.CarryOut | cmdman/compose/service_create.go:100-241 | carrying out a plan leaves one entry for each action, the entry found for an unchanged replica, and no surplus; other entries stay unless they are orphans to be removed |
| Plan.PlanConverges | cmdman/compose/plan.go:71-181 | planning again after the plan was carried out leaves nothing to do |
| Plan.ScaleOnlyNeverRecreates | cmdman/compose/hash.go:81-92 | a change of scale alone recreates no replica that survives, whatever scale its labels still tell |
| Plan.RecreatedExactly | cmdman/compose/plan.go:128-164 | with an injective hash, after a plan was carried out a replica of a command of the spec is created iff it is beyond the scale before, recreated iff the runtime fields or the dependencies of its command changed, and else unchanged |
| Reconstruct.ReconstructProject | cmdman/compose/reconstruct_project.go:8-77 | the project rebuilt from the labels, and when there is none |
| Reconstruct.ScanMeans | cmdman/compose/reconstruct_project.go:8-77 | the entries are accepted iff all that belong to a command name one project and the first of each command has dependencies that decode; the first entry at which that fails decides the outcome |
| Reconstruct.BaseNameMeans | cmdman/compose/reconstruct_project.go:45-49 | the base name is what precedes the stored index, the whole name without an index, and the id when nothing is left |
| Reconstruct.ReconstructRoundTrip | cmdman/compose/reconstruct_project.go:8-77 | from the labels of replicas 1..N in any order come back the names, base names, dependencies and scales, sorted |
| DetachMatcher.OutputAndMatch | cmdman/cli/attach_detachkeys.go:11-16 | what was passed on and the partial match make up the input |
| DetachMatcher.DetachEndsWithKey | cmdman/cli/attach_detachkeys.go:92-100 | at a detach only the completed key is held back |
| DetachMatcher.LongestMatch | cmdman/cli/attach_detachkeys.go:92-122 | for a key free of overlap the match is the longest prefix that ends the input |
| DetachMatcher.RecognizedIffFreeOfOverlap | cmdman/cli/attach_detachkeys.go:92-122 | the key is recognized in every input it occurs in iff it is free of overlap |
| DetachMatcher.RepeatedByteMissed | cmdman/cli/attach_detachkeys.go:92-122 | a three-byte key that is missed |
| DetachKeys.DetachKeyReader.Read | cmdman/cli/attach_detachkeys.go:35-124 | refines the matcher for every chunking of the input and every size of the caller's buffer |
| DetachKeys.DetachKeyReader.Emit | cmdman/cli/attach_detachkeys.go:126-134 | copies what fits and keeps the rest pending |
| DetachKeys.DetachKeyReader.CopyRun | cmdman/cli/attach_detachkeys.go:64-77 | the fast path changes nothing |
| DetachKeys.DetachKeyReader.Diverge | cmdman/cli/attach_detachkeys.go:102-122 | a diverging byte flushes the match, and pending stays shorter than the key |
| DetachKeys.DetachKeyReader.Conserves | cmdman/cli/attach_detachkeys.go:11-16 | output, pending bytes and partial match are the input consumed |
| LogLines.SplitLogLines | cmdman/logdriver/logdriver.go:154-178 | the records make up the write, and only the last can be partial |
| LogLines.LinesSplit | cmdman/logdriver/logdriver.go:154-156 | the terminated lines and the tail make up a stream; each line ends in the only newline it holds, and the tail holds none |
| LogLines.LineAssembler.Add | cmdman/compose/lifecycle_output.go:92-103 | per stream the lines returned are the terminated lines of its bytes, without the carriage returns and newlines they end in and nothing less, and the tail is pending |
| LogLines.TrimRightIs | cmdman/compose/lifecycle_output.go:102-102 | what is left of a line is its longest prefix that ends in no carriage return or newline |
| LogLines.LineAssembler.Rest | cmdman/compose/lifecycle_output.go:107-119 | the unterminated tails in the order of the streams |
| LogLines.Feed | cmdman/logdriver/logdriver.go:206-218 | any chunking and interleaving of writes gives the same lines |
| LogLines.DownProgress.Add | cmdman/cli/compose_down_output.go:92-113 | the summary and the last error are those of the terminated lines, however they arrive |
| LogLines.CountsAre | cmdman/cli/compose_down_output.go:115-142 | the summary counts the stops that worked, the kills among them, the removals and the unreleased resources, one for each line that tells of it |
| LogLines.LastErrorIs | cmdman/cli/compose_down_output.go:104-112 | the error is the last line with the error prefix, without it |

## Left out

- Texts of errors and wait reasons, progress events and logging: presentation; errors are told apart by kind or number.
- How many stop permits there are: that a wait for one fails is modelled, and takes a cancelled operation. In the walk the stops of one vertex are given by their results.
- The start hooks a start action runs: they are part of whether a start works.
- In the walk the end of an action and the critical section that records it are one step, and in an uninterrupted run the action of a vertex has a fixed result; once interrupted, results are arbitrary.
- A hook run of the teardown is one step, so two runs of different replicas do not interleave inside it; they touch holders of different replicas.
- A replica is known by its name; its cmdman id, its environment and its working directory are not part of the model.
- Which entries a down selects, and when it stops without a graph: the sets it stops and removes are parameters of the teardown.
- Replicas that other processes create, start or remove during a teardown: which replicas a teardown stops and removes, and the states it finds them listed in, are arbitrary.
- Acquiring hooks, `recordResource` on an acquire and `hookRelease`: no teardown runs them.
- `DownJob`: the subprocess a killed monitor may leave running, and `cmdman rm` of the record from elsewhere.
- `EventLog`: `FromEnd`, `Since`, `Until`, the watchers, malformed and torn lines, reuse of file identities, writers that crash in mid-rotation, and snapshots without a lock.
- `Plan`: an action that fails, and a plan narrowed to targets: the plan that is carried out works as a whole.
- `DetachKeys`: read errors other than the end of the input, and the parsing of the key names.
- `Plan` and `Reconstruct`: hashes and encoded labels are parameters with an inverse; user labels, hooks and logs enter the hash as one field.
- YAML, interpolation, normalization beyond the naming rule, and how the digest of an operation name is computed.
