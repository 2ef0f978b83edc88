/** What a teardown must do, where DownResults says what it must not: no release a hook
    declares is passed over, every holder left behind is released once, and a failed
    stop hook keeps its replica. */
module DownReleases {
  import opened Wrappers
  import opened Naming
  import opened Lifecycle
  import opened ReleaseRecorder
  import opened HookRuns
  import opened ReleaseReport
  import opened DownProtocol
  import opened DownInvariant

  // ---- The releases of the hooks ---------------------------------------------

  predicate HasRun(s: Down, x: ResId) {
    RunsOf(s.ran, x) != []
  }

  /** The script is past hook j of event ev. */
  predicate Past(p: Proc, stopping: bool, ev: LifecycleEvent, j: int) {
    match p
    case Hooking(pre, next) =>
      (StageEvent(stopping, pre) == ev && j < next) || (!pre && ev == StageEvent(stopping, true))
    case Operating => ev == StageEvent(stopping, true)
    case _ => false
  }

  /** A remove_post hook before hook j can have ended the script: one that fails under
      on_error fail, or any under a done context. */
  ghost predicate EndedEarly(c: Config, s: Down, r: string, j: int) {
    s.done || (HooksFor(c, r).Some? && exists k :: 0 <= k < j && k < |HooksFor(c, r).value| && FailsAt(HooksFor(c, r).value[k], RemovePost))
  }

  predicate FailsAt(h: Hook, ev: LifecycleEvent) {
    ev in h.events && Resolved(h.events[ev].onError) == Fail
  }

  predicate StopOver(s: Down, r: string) {
    s.phase.Stopping? ==> r in s.procs && s.procs[r].Over?
  }

  /** Hook j of the owner releases x at ev: what follows from how far the teardown is. */
  ghost predicate Complete(c: Config, s: Down, x: ResId, j: int, ev: LifecycleEvent) {
    var r := x.owner;
    && (r in s.halted ==> r in c.stops)
    && (s.phase.Stopping? && r in s.procs ==>
          && (s.procs[r].NotStarted? ==> r !in s.stopped)
          && (s.procs[r].NotStarted? || s.procs[r].Operating? || (s.procs[r].Hooking? && s.procs[r].pre) ==> r !in s.halted))
    && (Acting(s, r) && Past(s.procs[r], s.phase.Stopping?, ev, j) ==> HasRun(s, x))
    && (ev == RemovePre && r in s.removed ==> HasRun(s, x))
    && (ev == RemovePost && r in s.removed ==> HasRun(s, x) || EndedEarly(c, s, r, j))
    && (ev == StopPre && r in s.stopped && r !in s.kept && StopOver(s, r) ==> HasRun(s, x))
    && (ev == StopPost && r in s.halted && r !in s.kept && StopOver(s, r) ==> HasRun(s, x))
  }

  /** Only the script of another replica, or none, moved. */
  lemma OthersKeep(c: Config, s: Down, s': Down, x: ResId, j: int, ev: LifecycleEvent)
    requires Complete(c, s, x, j, ev) && s'.phase == s.phase && (s.done ==> s'.done)
    requires x.owner in s'.procs <==> x.owner in s.procs
    requires x.owner in s.procs ==> s'.procs[x.owner] == s.procs[x.owner]
    requires x.owner in s'.removed <==> x.owner in s.removed
    requires x.owner in s'.stopped <==> x.owner in s.stopped
    requires x.owner in s'.halted <==> x.owner in s.halted
    requires x.owner in s'.kept <==> x.owner in s.kept
    requires HasRun(s, x) ==> HasRun(s', x)
    ensures Complete(c, s', x, j, ev)
  {
    hide HasRun, HooksFor;
  }

  /** What a step of a hook does besides its run. */
  ghost predicate HookShape(s: Down, s': Down, r: string) {
    && Acting(s, r) && s.procs[r].Hooking? && s'.phase == s.phase && s'.stopped == s.stopped && s'.halted == s.halted
    && (s.done ==> s'.done) && r in s'.procs && s'.procs == s.procs[r := s'.procs[r]]
    && (if s'.procs[r].Over? then
          && s'.kept == (if s.phase.Stopping? then s.kept + {r} else s.kept)
          && s'.removed == (if s.phase.Removing? && !s.procs[r].pre then s.removed + {r} else s.removed)
        else
          s'.procs[r] == Hooking(s.procs[r].pre, s.procs[r].next + 1) && s'.kept == s.kept && s'.removed == s.removed)
  }

  lemma HookShaped(c: Config, s: Down, s': Down, r: string, env: Env)
    requires HookStep(c, s, s', r, env)
    ensures HookShape(s, s', r)
  {
    hide HooksFor, HookAt, EventAt, RunHook;
  }

  lemma HookCompletes(c: Config, s: Down, s': Down, r: string, env: Env, x: ResId, j: int, ev: LifecycleEvent)
    requires Complete(c, s, x, j, ev) && ReleasesAt(c, x.owner, j, x.key, ev) && HookStep(c, s, s', r, env)
    ensures Complete(c, s', x, j, ev)
  {
    hide HookStep, ReleasesAt, EndedEarly, Past, HasRun, Complete;
    HookAppends(c, s, s', r, env, x);
    HookShaped(c, s, s', r, env);
    if r != x.owner {
      OthersKeep(c, s, s', x, j, ev);
    } else {
      HookAtRuns(c, s, s', env, x, j, ev);
      EarlyEnd(c, s, s', env, r, j);
      EndedStays(c, s, s', r, j);
      NotAcquired(c, x, j, ev);
      OwnHook(c, s, s', x, j, ev);
    }
  }

  /** A script that ends at a remove_post hook before hook j has ended early. */
  lemma EarlyEnd(c: Config, s: Down, s': Down, env: Env, r: string, j: int)
    requires HookStep(c, s, s', r, env)
    ensures s'.procs[r].Over? && s.phase.Removing? && !s.procs[r].pre && s.procs[r].next < j ==> EndedEarly(c, s', r, j)
  {
    HookEnds(c, s, s', r, env, j);
    hide RunHook, HooksFor;
  }

  lemma OwnHook(c: Config, s: Down, s': Down, x: ResId, j: int, ev: LifecycleEvent)
    requires Complete(c, s, x, j, ev) && HookShape(s, s', x.owner) && !Acquires(ev)
    requires HasRun(s, x) ==> HasRun(s', x)
    requires s.procs[x.owner].next == j && StageEvent(s.phase.Stopping?, s.procs[x.owner].pre) == ev ==> HasRun(s', x)
    requires s'.procs[x.owner].Over? && s.phase.Removing? && !s.procs[x.owner].pre && s.procs[x.owner].next < j ==> EndedEarly(c, s', x.owner, j)
    requires EndedEarly(c, s, x.owner, j) ==> EndedEarly(c, s', x.owner, j)
    ensures Complete(c, s', x, j, ev)
  {
    hide HasRun, EndedEarly;
  }

  /** A step of a hook adds to the runs of x, or nothing. */
  lemma HookAppends(c: Config, s: Down, s': Down, r: string, env: Env, x: ResId)
    requires HookStep(c, s, s', r, env)
    ensures HasRun(s, x) ==> HasRun(s', x)
  {
    hide HooksFor, HookAt, EventAt, RunHook, RunsOf;
    if s'.ran != s.ran {
      RunsOfSnoc(s.ran, s'.ran[|s.ran|], x);
    }
  }

  /** When the script passes hook j of the event, its release runs. */
  lemma HookAtRuns(c: Config, s: Down, s': Down, env: Env, x: ResId, j: int, ev: LifecycleEvent)
    requires HookStep(c, s, s', x.owner, env) && ReleasesAt(c, x.owner, j, x.key, ev)
    ensures s.procs[x.owner].next == j && StageEvent(s.phase.Stopping?, s.procs[x.owner].pre) == ev ==> HasRun(s', x)
  {
    hide HooksFor, RunHook, RunsOf;
    if s.procs[x.owner].next == j && StageEvent(s.phase.Stopping?, s.procs[x.owner].pre) == ev {
      RunsOfSnoc(s.ran, s'.ran[|s.ran|], x);
    }
  }

  /** Why a script ends at a hook. */
  lemma HookEnds(c: Config, s: Down, s': Down, r: string, env: Env, j: int)
    requires HookStep(c, s, s', r, env)
    ensures s'.procs[r].Over? ==> s'.done || FailsAt(HookAt(c, s, r), EventAt(c, s, r))
  {
    hide HooksFor, HookAt, EventAt, Works, RecordOf;
  }

  lemma ScriptCompletes(c: Config, s: Down, s': Down, step: Step, x: ResId, j: int, ev: LifecycleEvent)
    requires Complete(c, s, x, j, ev) && ReleasesAt(c, x.owner, j, x.key, ev) && KeptStays(c, s)
    requires NextBy(c, s, s', step) && IsScriptStep(step) && !step.RunNext?
    ensures Complete(c, s', x, j, ev)
  {
    hide HooksFor, HasRun, EndedEarly, Complete, BeginStopStep, BeginRemoveStep, HooksDoneStep, OperateStep, KeptStays, ReleasesAt;
    ScriptSame(c, s, s', step, x);
    if step.r != x.owner {
      OthersKeep(c, s, s', x, j, ev);
    } else {
      EndedStays(c, s, s', x.owner, j);
      NotAcquired(c, x, j, ev);
      match step
      case HooksDone(_) => DoneCompletes(c, s, s', x, j, ev);
      case Operate(_, works) => OperateCompletes(c, s, s', works, x, j, ev);
      case BeginRemove(_) => BeginRemoveCompletes(c, s, s', x, j, ev);
      case BeginStop(_, begins) => BeginStopCompletes(c, s, s', begins, x, j, ev);
      case _ =>
    }
  }

  /** Only a hook runs a release, and a script moves alone. */
  /** Only the script of r moved, and no release ran. */
  ghost predicate OnlyMoves(s: Down, s': Down, r: string) {
    && s'.ran == s.ran && s'.phase == s.phase && (s.done ==> s'.done) && r in s.procs && r in s'.procs
    && s'.procs == s.procs[r := s'.procs[r]]
    && (forall q :: q != r ==>
          && (q in s'.removed <==> q in s.removed) && (q in s'.stopped <==> q in s.stopped)
          && (q in s'.halted <==> q in s.halted) && (q in s'.kept <==> q in s.kept))
  }

  lemma BeginMoves(c: Config, s: Down, s': Down, r: string, begins: bool)
    requires BeginStopStep(c, s, s', r, begins) || BeginRemoveStep(c, s, s', r)
    ensures OnlyMoves(s, s', r)
  {
    hide HooksFor;
  }

  lemma OperateMoves(c: Config, s: Down, s': Down, r: string, works: bool)
    requires OperateStep(s, s', r, works) || HooksDoneStep(c, s, s', r)
    ensures OnlyMoves(s, s', r)
  {
    hide HooksFor;
  }

  /** Only a hook runs a release, and a script moves alone. */
  lemma ScriptSame(c: Config, s: Down, s': Down, step: Step, x: ResId)
    requires NextBy(c, s, s', step) && IsScriptStep(step) && !step.RunNext?
    ensures OnlyMoves(s, s', step.r) && HasRun(s', x) == HasRun(s, x)
  {
    hide HooksFor, RunsOf, BeginStopStep, BeginRemoveStep, HooksDoneStep, OperateStep, OnlyMoves, HasRun;
    match step {
      case HooksDone(_) => OperateMoves(c, s, s', step.r, true);
      case Operate(_, works) => OperateMoves(c, s, s', step.r, works);
      case BeginRemove(_) => BeginMoves(c, s, s', step.r, true);
      case BeginStop(_, begins) => BeginMoves(c, s, s', step.r, begins);
      case _ =>
    }
    OnlySame(s, s', step.r, x);
  }

  lemma OnlySame(s: Down, s': Down, r: string, x: ResId)
    requires OnlyMoves(s, s', r)
    ensures HasRun(s', x) == HasRun(s, x)
  {
  }

  lemma NotAcquired(c: Config, x: ResId, j: int, ev: LifecycleEvent)
    requires ReleasesAt(c, x.owner, j, x.key, ev)
    ensures !Acquires(ev) && HooksFor(c, x.owner).Some? && 0 <= j < |HooksFor(c, x.owner).value|
  {
  }

  lemma DoneCompletes(c: Config, s: Down, s': Down, x: ResId, j: int, ev: LifecycleEvent)
    requires Complete(c, s, x, j, ev) && HooksDoneStep(c, s, s', x.owner) && !Acquires(ev)
    requires HooksFor(c, x.owner).Some? && 0 <= j < |HooksFor(c, x.owner).value|
    requires HasRun(s', x) == HasRun(s, x) && (EndedEarly(c, s, x.owner, j) ==> EndedEarly(c, s', x.owner, j))
    ensures Complete(c, s', x, j, ev)
  {
    hide HooksFor, HasRun, EndedEarly;
  }

  lemma OperateCompletes(c: Config, s: Down, s': Down, works: bool, x: ResId, j: int, ev: LifecycleEvent)
    requires Complete(c, s, x, j, ev) && OperateStep(s, s', x.owner, works) && !Acquires(ev) && 0 <= j && KeptStays(c, s)
    requires HasRun(s', x) == HasRun(s, x) && (EndedEarly(c, s, x.owner, j) ==> EndedEarly(c, s', x.owner, j))
    ensures Complete(c, s', x, j, ev)
  {
    hide HooksFor, HasRun, EndedEarly;
  }

  lemma BeginRemoveCompletes(c: Config, s: Down, s': Down, x: ResId, j: int, ev: LifecycleEvent)
    requires Complete(c, s, x, j, ev) && BeginRemoveStep(c, s, s', x.owner) && !Acquires(ev) && 0 <= j
    requires HasRun(s', x) == HasRun(s, x) && (EndedEarly(c, s, x.owner, j) ==> EndedEarly(c, s', x.owner, j))
    ensures Complete(c, s', x, j, ev)
  {
    hide HooksFor, HasRun, EndedEarly;
  }

  lemma BeginStopCompletes(c: Config, s: Down, s': Down, begins: bool, x: ResId, j: int, ev: LifecycleEvent)
    requires Complete(c, s, x, j, ev) && BeginStopStep(c, s, s', x.owner, begins) && !Acquires(ev) && 0 <= j && KeptStays(c, s)
    requires HasRun(s', x) == HasRun(s, x) && (EndedEarly(c, s, x.owner, j) ==> EndedEarly(c, s', x.owner, j))
    ensures Complete(c, s', x, j, ev)
  {
    hide HooksFor, HasRun, EndedEarly;
  }

  lemma EndedStays(c: Config, s: Down, s': Down, r: string, j: int)
    requires s.done ==> s'.done
    ensures EndedEarly(c, s, r, j) ==> EndedEarly(c, s', r, j)
  {
  }

  /** Between the phases, and in those without scripts. */
  lemma PhaseCompletes(c: Config, s: Down, s': Down, step: Step, x: ResId, j: int, ev: LifecycleEvent)
    requires Complete(c, s, x, j, ev) && KeptStays(c, s)
    requires NextBy(c, s, s', step) && !IsScriptStep(step)
    ensures Complete(c, s', x, j, ev)
  {
    hide HooksFor, RunRelease, StrandedHolders, Retried, Settle, RetriesFor, TakenOnce, HasRun, EndedEarly;
    EndedStays(c, s, s', x.owner, j);
    PhaseAppends(c, s, s', step, x);
  }

  lemma PhaseAppends(c: Config, s: Down, s': Down, step: Step, x: ResId)
    requires NextBy(c, s, s', step) && !IsScriptStep(step)
    ensures HasRun(s, x) ==> HasRun(s', x)
  {
    hide RunRelease, StrandedHolders, Retried, Settle, RetriesFor, TakenOnce, RunsOf, AllOver;
    if step.RunRetry? || step.RunStranded? {
      RunsOfSnoc(s.ran, s'.ran[|s.ran|], x);
    }
  }

  lemma {:induction false} AlwaysComplete(c: Config, run: seq<Down>, i: nat, x: ResId, j: int, ev: LifecycleEvent)
    requires ConfigOk(c) && IsRun(c, run) && i < |run| && ReleasesAt(c, x.owner, j, x.key, ev)
    ensures Complete(c, run[i], x, j, ev)
  {
    hide Complete, NextBy, ConfigOk, Inv, ReleasesAt;
    if i == 0 {
      InitComplete(c, x, j, ev);
    } else {
      AlwaysComplete(c, run, i - 1, x, j, ev);
      RunInv(c, run, i - 1);
      InvKeptStays(c, run[i - 1]);
      assert Next(c, run[i - 1], run[i - 1 + 1]);
      var step :| NextBy(c, run[i - 1], run[i], step);
      if step.RunNext? {
        RunNextIs(c, run[i - 1], run[i], step);
        HookCompletes(c, run[i - 1], run[i], step.r, step.env, x, j, ev);
      } else if IsScriptStep(step) {
        ScriptCompletes(c, run[i - 1], run[i], step, x, j, ev);
      } else {
        PhaseCompletes(c, run[i - 1], run[i], step, x, j, ev);
      }
    }
  }

  lemma RunNextIs(c: Config, s: Down, s': Down, step: Step)
    requires NextBy(c, s, s', step) && step.RunNext?
    ensures HookStep(c, s, s', step.r, step.env)
  {
    hide HookStep;
  }

  lemma InitComplete(c: Config, x: ResId, j: int, ev: LifecycleEvent)
    ensures Complete(c, InitState(c), x, j, ev)
  {
  }

  lemma InvKeptStays(c: Config, s: Down)
    requires Inv(c, s)
    ensures KeptStays(c, s)
  {
    hide Shapes, RetriesDue, StrandedDue, RecordsStand, HoldersConserved, KeptStays, OutcomesOnce;
  }

  /** No declared release is passed over. Once the stops have returned, the stop_pre
      releases of every replica the teardown set out to stop ran, and its stop_post
      releases if its stop worked, unless it is kept. Of every replica removed the
      remove_pre releases ran, and the remove_post ones unless one before them ended
      the script. */
  lemma NoReleaseSkipped(c: Config, run: seq<Down>, i: nat, x: ResId, j: int, ev: LifecycleEvent)
    requires ConfigOk(c) && IsRun(c, run) && i < |run| && ReleasesAt(c, x.owner, j, x.key, ev)
    ensures var s := run[i];
      && (ev == StopPre && !s.phase.Stopping? && x.owner in s.stopped && x.owner !in s.kept ==> RunsOf(s.ran, x) != [])
      && (ev == StopPost && !s.phase.Stopping? && x.owner in s.halted && x.owner !in s.kept ==> RunsOf(s.ran, x) != [])
      && (ev == RemovePre && x.owner in s.removed ==> RunsOf(s.ran, x) != [])
      && (ev == RemovePost && x.owner in s.removed ==> RunsOf(s.ran, x) != [] || EndedEarly(c, s, x.owner, j))
  {
    hide ConfigOk, IsRun, RunsOf, ReleasesAt, EndedEarly;
    AlwaysComplete(c, run, i, x, j, ev);
  }

  /** The stop of r has begun, or the teardown is cancelled. */
  predicate Begun(s: Down, r: string) {
    (s.phase.Stopping? && r in s.procs && s.procs[r].NotStarted?) || r in s.stopped || s.done
  }

  lemma ScriptBegins(c: Config, s: Down, s': Down, step: Step, r: string)
    requires Begun(s, r) && NextBy(c, s, s', step) && IsScriptStep(step) && !step.RunNext?
    ensures Begun(s', r)
  {
    hide HooksFor;
  }

  lemma HookBegins(c: Config, s: Down, s': Down, q: string, env: Env, r: string)
    requires Begun(s, r) && HookStep(c, s, s', q, env)
    ensures Begun(s', r)
  {
    hide HookStep;
    HookShaped(c, s, s', q, env);
  }

  lemma PhaseBegins(c: Config, s: Down, s': Down, step: Step, r: string)
    requires Begun(s, r) && NextBy(c, s, s', step) && !IsScriptStep(step)
    ensures Begun(s', r)
  {
    hide RunRelease, StrandedHolders, Retried, Settle, RetriesFor, TakenOnce;
  }

  /** Every replica that is to be stopped has its stop begun before the stops return,
      unless the teardown is cancelled. */
  lemma {:induction false} EveryStopBegins(c: Config, run: seq<Down>, i: nat, r: string)
    requires IsRun(c, run) && i < |run| && r in c.stops
    ensures Begun(run[i], r)
    ensures !run[i].phase.Stopping? && !run[i].done ==> r in run[i].stopped
  {
    hide NextBy;
    if i > 0 {
      EveryStopBegins(c, run, i - 1, r);
      assert Next(c, run[i - 1], run[i - 1 + 1]);
      var step :| NextBy(c, run[i - 1], run[i], step);
      if step.RunNext? {
        RunNextIs(c, run[i - 1], run[i], step);
        HookBegins(c, run[i - 1], run[i], step.r, step.env, r);
      } else if IsScriptStep(step) {
        ScriptBegins(c, run[i - 1], run[i], step, r);
      } else {
        PhaseBegins(c, run[i - 1], run[i], step, r);
      }
    }
  }

  // ---- What is kept ----------------------------------------------------------

  /** A stop hook ends the stop and keeps its replica when its command, or the removal
      of what it released, does not work, and its on_error is fail or the context is
      done; then alone. */
  lemma StopHookKeeps(c: Config, s: Down, s': Down, r: string, env: Env)
    requires HookStep(c, s, s', r, env) && s.phase.Stopping? && r !in s.kept
    ensures var h, ev := HookAt(c, s, r), EventAt(c, s, r);
      r in s'.kept <==>
        && ev in h.events
        && (!env.exec || (h.resource.Some? && !(env.lookup && env.drop)))
        && (env.doneAfter || h.events[ev].onError == OnErrorUnset || h.events[ev].onError == Fail)
    ensures r in s'.kept ==> s'.procs[r].Over?
  {
    hide HooksFor, HookAt, EventAt, RecordOf;
  }

  /** Stored hooks that are refused keep the replica when its stop begins, and nothing
      else does: an entry that does not name the replica, and without force one whose
      hooks cannot be decoded. */
  lemma RefusedHooksKeep(c: Config, s: Down, s': Down, r: string)
    requires ConfigOk(c) && BeginStopStep(c, s, s', r, true) && r !in s.kept && r in c.replicas
    ensures r in s'.kept <==> c.replicas[r].NoReplica? || (c.replicas[r].Undecodable? && !c.force)
    ensures r in s'.stopped && (r in s'.kept ==> s'.procs[r].Over?)
  {
  }

  // ---- What is left behind ---------------------------------------------------

  /** x is a readable holder that stores a release, and its owner was gone before the
      teardown began, or was removed by it without its stop release. */
  predicate LeftBehind(c: Config, s: Down, x: ResId) {
    && x in s.holders && s.holders[x].Readable? && s.holders[x].holder.release.Some?
    && var ev := s.holders[x].holder.release.value.event;
       || x.owner !in c.replicas
       || ((ev == StopPre || ev == StopPost) && x.owner in s.removed && x.owner !in s.stopped)
  }

  function StrandedRuns(runs: seq<ReleaseRun>): nat {
    if runs == [] then 0
    else StrandedRuns(runs[..|runs| - 1]) + if runs[|runs| - 1].source == Stranded then 1 else 0
  }

  lemma StrandedSnoc(runs: seq<ReleaseRun>, run: ReleaseRun)
    ensures StrandedRuns(runs + [run]) == StrandedRuns(runs) + if run.source == Stranded then 1 else 0
  {
    assert (runs + [run])[..|runs|] == runs;
  }

  lemma AppendsStranded(s: Down, s': Down, run: ReleaseRun, x: ResId)
    requires s'.ran == s.ran + [run]
    ensures StrandedRuns(RunsOf(s'.ran, x)) == StrandedRuns(RunsOf(s.ran, x)) + if run.id == x && run.source == Stranded then 1 else 0
  {
    hide RunsOf;
    RunsOfSnoc(s.ran, run, x);
    if run.id == x {
      StrandedSnoc(RunsOf(s.ran, x), run);
    } else {
      assert RunsOf(s.ran, x) + [] == RunsOf(s.ran, x);
    }
  }

  /** The stranded runs of x made, or still to be made. */
  function Strandeds(s: Down, x: ResId): nat {
    StrandedRuns(RunsOf(s.ran, x)) + if s.phase.Stranding? && x in s.phase.stranded then 1 else 0
  }

  lemma NoneBeforeRemoved(c: Config, s: Down, x: ResId)
    requires Inv(c, s) && Rank(s.phase) < 3
    ensures StrandedRuns(RunsOf(s.ran, x)) == 0
  {
    hide RetriesDue, StrandedDue, RecordsStand, HoldersConserved, KeptStays, OutcomesOnce, SomeHookRan, RunsOf;
    assert ShapeOk(c, s, x, RunsOf(s.ran, x));
    var runs := RunsOf(s.ran, x);
    if |runs| >= 1 {
      assert runs[..1] == [] + [runs[0]];
      StrandedSnoc([], runs[0]);
      if |runs| == 2 {
        assert runs == runs[..1] + [runs[1]];
        StrandedSnoc(runs[..1], runs[1]);
      } else {
        assert runs[..1] == runs;
      }
    }
  }

  /** When the removals have returned in a teardown of the whole project that can list
      the holders, exactly what is left behind is to be released. A narrowed teardown
      releases nothing more, and a failed listing is the one outcome reported. */
  lemma LeftWhenRemoved(c: Config, s: Down, s': Down, listed: bool, err: int, x: ResId)
    requires RemovesReturnedStep(c, s, s', listed, err)
    ensures s'.phase.Stranding? <==> c.whole && listed
    ensures s'.phase.Stranding? ==> (x in s'.phase.stranded <==> LeftBehind(c, s, x))
    ensures s'.phase.Stranding? && x in s'.phase.stranded ==> s'.phase.stranded[x] == s.holders[x].holder
    ensures !s'.phase.Stranding? ==> s'.phase.Ended?
    ensures c.whole && !listed ==> s'.outcomes == [ReleaseOutcome(None, "", Some(err), None, false)]
    ensures s'.ran == s.ran
  {
  }

  lemma StepKeepsStrandeds(c: Config, s: Down, s': Down, step: Step, x: ResId)
    requires NextBy(c, s, s', step) && Rank(s.phase) >= 3
    ensures Strandeds(s', x) == Strandeds(s, x) && Rank(s'.phase) >= 3
  {
    hide HooksFor, RunHook, RunRelease, RunsOf, StrandedHolders;
    if step.RunStranded? {
      AppendsStranded(s, s', s'.ran[|s.ran|], x);
    }
  }

  lemma {:induction false} StrandedsKept(c: Config, run: seq<Down>, i: nat, j: nat, x: ResId)
    requires IsRun(c, run) && i <= j < |run| && Rank(run[i].phase) >= 3
    ensures Strandeds(run[j], x) == Strandeds(run[i], x) && Rank(run[j].phase) >= 3
    decreases j
  {
    hide NextBy, Strandeds;
    if i < j {
      StrandedsKept(c, run, i, j - 1, x);
      assert Next(c, run[j - 1], run[j - 1 + 1]);
      var step :| NextBy(c, run[j - 1], run[j], step);
      StepKeepsStrandeds(c, run[j - 1], run[j], step, x);
    }
  }

  /** What is left behind when the removals have returned is released exactly once
      before the teardown ends, and nothing else is released as stranded. */
  lemma LeftReleasedOnce(c: Config, run: seq<Down>, i: nat, j: nat, x: ResId)
    requires ConfigOk(c) && IsRun(c, run) && i < j < |run| && run[j].phase.Ended?
    requires run[i].phase.Removing? && !run[i + 1].phase.Removing?
    ensures StrandedRuns(RunsOf(run[j].ran, x)) == if run[i + 1].phase.Stranding? && LeftBehind(c, run[i], x) then 1 else 0
    ensures !c.whole ==> !run[i + 1].phase.Stranding?
  {
    hide ConfigOk, Inv, LeftBehind, RunsOf, Next, StrandedRuns;
    RunInv(c, run, i);
    NoneBeforeRemoved(c, run[i], x);
    assert Next(c, run[i], run[i + 1]);
    RemovesReturn(c, run[i], run[i + 1], x);
    StrandedsKept(c, run, i + 1, j, x);
  }

  lemma RemovesReturn(c: Config, s: Down, s': Down, x: ResId)
    requires Next(c, s, s') && s.phase.Removing? && !s'.phase.Removing?
    ensures s'.ran == s.ran && Rank(s'.phase) >= 3
    ensures s'.phase.Stranding? ==> c.whole && (x in s'.phase.stranded <==> LeftBehind(c, s, x))
  {
    hide HooksFor, HookAt, EventAt, RunHook, RunRelease, StrandedHolders, AllOver, RemovesReturnedStep, HookStep, LeftBehind;
    var step :| NextBy(c, s, s', step);
    match step
    case RemovesReturned(listed, err) =>
      LeftWhenRemoved(c, s, s', listed, err, x);
      ReturnedRank(c, s, s', listed, err);
    case RunNext(r, env) =>
      HookPhase(c, s, s', r, env);
    case _ =>
  }

  lemma ReturnedRank(c: Config, s: Down, s': Down, listed: bool, err: int)
    requires RemovesReturnedStep(c, s, s', listed, err)
    ensures Rank(s'.phase) >= 3
  {
  }

  lemma HookPhase(c: Config, s: Down, s': Down, r: string, env: Env)
    requires HookStep(c, s, s', r, env)
    ensures s'.phase == s.phase
  {
    hide HooksFor, HookAt, EventAt, RunHook;
  }

  /** The holder of a resource whose owner was gone before the teardown began is still
      there then, so it is released. */
  lemma VanishedLeft(c: Config, run: seq<Down>, i: nat, x: ResId)
    requires ConfigOk(c) && IsRun(c, run) && i < |run| && Rank(run[i].phase) < 3
    requires x in c.holders && c.holders[x].Readable? && c.holders[x].holder.release.Some? && x.owner !in c.replicas
    ensures LeftBehind(c, run[i], x)
  {
    hide ConfigOk, IsRun, RetriesDue, StrandedDue, RecordsStand, KeptStays, OutcomesOnce, RunsOf, Disposed;
    RunInv(c, run, i);
    var s := run[i];
    assert ShapeOk(c, s, x, RunsOf(s.ran, x));
    NoHooks(c, s, x);
    if x !in s.holders {
      var k :| 0 <= k < |s.ran| && s.ran[k].id == x && Disposed(s.ran[k]);
      RunIsListed(s.ran, x, k);
    }
  }

  lemma NoHooks(c: Config, s: Down, x: ResId)
    requires x.owner !in c.replicas
    ensures !SomeHookRan(c, s, x, true) && !SomeHookRan(c, s, x, false)
  {
  }

  lemma {:induction false} RunIsListed(ran: seq<ReleaseRun>, x: ResId, k: nat)
    requires k < |ran| && ran[k].id == x
    ensures RunsOf(ran, x) != []
  {
    if k < |ran| - 1 {
      RunIsListed(ran[..|ran| - 1], x, k);
    }
  }
}
