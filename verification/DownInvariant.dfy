/** What every step of a teardown keeps, resource by resource and replica by
    replica. */
module DownInvariant {
  import opened Wrappers
  import opened Naming
  import opened Lifecycle
  import opened ReleaseRecorder
  import opened HookRuns
  import opened ReleaseReport
  import opened DownProtocol

  function Rank(p: Phase): nat {
    match p
    case Stopping => 0
    case Retrying(_) => 1
    case Removing => 2
    case Stranding(_) => 3
    case Ended => 4
  }

  // ---- How often a release runs ---------------------------------------------

  /** Hook j of replica r releases the resource key at ev. */
  predicate ReleasesAt(c: Config, r: string, j: int, key: string, ev: LifecycleEvent) {
    && HooksFor(c, r).Some?
    && Declares(HooksFor(c, r).value, j, key)
    && ev in HooksFor(c, r).value[j].events && !Acquires(ev)
  }

  /** In the terms of the configuration: a stored hook of the replica declares the
      resource, and the stop or remove event. */
  lemma ReleasesAtMeans(c: Config, r: string, j: int, key: string, ev: LifecycleEvent)
    ensures ReleasesAt(c, r, j, key, ev) <==>
              && r in c.replicas && c.replicas[r].Decoded?
              && 0 <= j < |c.replicas[r].hooks| && c.replicas[r].hooks[j].resource == Some(key)
              && ev in c.replicas[r].hooks[j].events && ev in {StopPre, StopPost, RemovePre, RemovePost}
  {
  }

  /** The script is past hook j of the pre or the post event. */
  predicate Passed(p: Proc, pre: bool, j: int) {
    match p
    case NotStarted => false
    case Hooking(now, next) => if now == pre then j < next else pre
    case Operating => pre
    case Over => true
  }

  /** Hook j of the owner ran the release of x in the stop or the remove phase, and
      the script is past it. */
  predicate HookRan(c: Config, s: Down, x: ResId, stopping: bool, pre: bool, j: int) {
    && ReleasesAt(c, x.owner, j, x.key, StageEvent(stopping, pre))
    && (stopping ==> x.owner in s.stopped)
    && ((if stopping then s.phase.Stopping? else s.phase.Removing?) ==>
          x.owner in s.procs && Passed(s.procs[x.owner], pre, j))
  }

  ghost predicate SomeHookRan(c: Config, s: Down, x: ResId, stopping: bool) {
    exists pre, j :: HookRan(c, s, x, stopping, pre, j)
  }

  predicate Failed(run: ReleaseRun) {
    run.record.Some?
  }

  /** A stop hook's run, failed with a readable holder, and its one retry. */
  predicate RetriedOnce(s: Down, x: ResId, runs: seq<ReleaseRun>) {
    && |runs| == 2
    && runs[0].source.StopHook? && Failed(runs[0]) && !runs[0].record.value.reportOnly
    && runs[1].source.Retry?
    && Verified(s.listing, x.owner)
  }

  /** x has a readable holder that stores a release at ev. */
  predicate StoresRelease(c: Config, x: ResId, ev: LifecycleEvent) {
    && x in c.holders && c.holders[x].Readable?
    && c.holders[x].holder.release.Some? && c.holders[x].holder.release.value.event == ev
  }

  /** A remove hook's failed run, and one of a stop release stored in the holder. */
  predicate StrandedAfterHook(c: Config, x: ResId, runs: seq<ReleaseRun>) {
    && |runs| == 2
    && StoresRelease(c, x, runs[1].event)
    && runs[0].source.RemoveHook? && Failed(runs[0]) && !AtStop(runs[0].event)
    && runs[1].source.Stranded? && AtStop(runs[1].event)
  }

  ghost predicate ShapeOk(c: Config, s: Down, x: ResId, runs: seq<ReleaseRun>) {
    || runs == []
    || (|runs| == 1 && runs[0].source.StopHook? && SomeHookRan(c, s, x, true)
        && (s.phase.Retrying? && x in s.phase.retries ==>
              Failed(runs[0]) && !runs[0].record.value.reportOnly && Verified(s.listing, x.owner)))
    || (RetriedOnce(s, x, runs) && Rank(s.phase) >= 1 && SomeHookRan(c, s, x, true) && (s.phase.Retrying? ==> x !in s.phase.retries))
    || (|runs| == 1 && runs[0].source.RemoveHook? && Rank(s.phase) >= 2 && SomeHookRan(c, s, x, false) && !AtStop(runs[0].event)
        && (!Failed(runs[0]) ==> x !in s.holders))
    || (StrandedAfterHook(c, x, runs) && Rank(s.phase) >= 3 && SomeHookRan(c, s, x, false) && (s.phase.Stranding? ==> x !in s.phase.stranded))
    || (|runs| == 1 && runs[0].source.Stranded? && Rank(s.phase) >= 3 && (s.phase.Stranding? ==> x !in s.phase.stranded))
  }

  ghost predicate Shapes(c: Config, s: Down) {
    forall x {:trigger RunsOf(s.ran, x)} :: ShapeOk(c, s, x, RunsOf(s.ran, x))
  }

  // ---- What stays listed ----------------------------------------------------

  ghost predicate RetriesDue(s: Down) {
    s.phase.Retrying? ==> forall x :: x in s.phase.retries ==>
      LastRecord(s.recorder, x).Some? && LastRecord(s.recorder, x).value.holder.release.Some?
  }

  /** What is listed as stranded has no replica, or a removed one the teardown did
      not stop whose stored release is a stop release; no remove hook released it. */
  ghost predicate StrandedDue(c: Config, s: Down) {
    s.phase.Stranding? ==> forall x :: x in s.phase.stranded ==>
      && x in c.holders && c.holders[x] == Readable(s.phase.stranded[x]) && s.phase.stranded[x].release.Some?
      && (x.owner in c.replicas ==> AtStop(s.phase.stranded[x].release.value.event) && x.owner !in s.stopped)
      && (forall i :: 0 <= i < |RunsOf(s.ran, x)| ==> Failed(RunsOf(s.ran, x)[i]))
  }

  // ---- The recorder ---------------------------------------------------------

  ghost predicate RecordsStand(s: Down) {
    && (forall x {:trigger RunsOf(s.ran, x)} :: LastRecord(s.recorder, x) == Standing(RunsOf(s.ran, x)))
    && forall i :: 0 <= i < |s.recorder| ==> s.recorder[i].holder.release.Some?
  }

  // ---- Holders --------------------------------------------------------------

  predicate Disposed(run: ReleaseRun) {
    run.verdict.Succeeded? || run.verdict.Ignored?
  }

  ghost predicate SomeDisposed(ran: seq<ReleaseRun>, x: ResId) {
    exists i :: 0 <= i < |ran| && ran[i].id == x && Disposed(ran[i])
  }

  /** Holders are never added or changed, and one that is gone was released, or
      dropped after a failure under ignore. */
  ghost predicate HoldersConserved(c: Config, s: Down) {
    && (forall x :: x in s.holders ==> x in c.holders && s.holders[x] == c.holders[x])
    && forall x :: x in c.holders && x !in s.holders ==> SomeDisposed(s.ran, x)
  }

  // ---- Replicas -------------------------------------------------------------

  ghost predicate KeptStays(c: Config, s: Down) {
    && (Rank(s.phase) < 2 ==> s.removed == {})
    && s.removed !! s.kept
    && s.stopped <= c.stops && s.removed <= c.removes
    && (s.phase.Removing? ==> forall r :: r in s.procs && (s.procs[r].Hooking? || s.procs[r].Operating?) ==> r !in s.kept)
    && (s.phase.Stopping? || s.phase.Removing? ==>
          s.procs.Keys == if s.phase.Stopping? then c.stops else c.removes)
    && (s.phase.Stopping? ==> forall r :: r in s.procs && (s.procs[r].Hooking? || s.procs[r].Operating?) ==> r in s.stopped)
  }

  // ---- Outcomes -------------------------------------------------------------

  predicate FailureIn(o: ReleaseOutcome) {
    o.err.Some? || o.warning.Some?
  }

  ghost predicate OutcomesOnce(s: Down) {
    && HoldersOnce(s.outcomes)
    && (forall i :: 0 <= i < |s.outcomes| && s.outcomes[i].holder.Some? && FailureIn(s.outcomes[i]) ==>
          LastRecord(s.recorder, s.outcomes[i].holder.value).Some?)
    && (Rank(s.phase) < 3 ==> s.outcomes == [])
    && (s.phase.Stranding? ==> forall i :: 0 <= i < |s.outcomes| ==>
          s.outcomes[i].holder.Some? && s.outcomes[i].holder.value !in s.phase.stranded)
  }

  ghost predicate Inv(c: Config, s: Down) {
    && Shapes(c, s) && RetriesDue(s) && StrandedDue(c, s) && RecordsStand(s)
    && HoldersConserved(c, s) && KeptStays(c, s) && OutcomesOnce(s)
  }

  // ---- Steps that run no release of x ---------------------------------------

  /** Nothing that bears on how often a release ran is taken back. */
  ghost predicate Progresses(s: Down, s': Down) {
    && Rank(s.phase) <= Rank(s'.phase)
    && s.stopped <= s'.stopped
    && (forall x :: x in s'.holders ==> x in s.holders)
    && (Rank(s.phase) >= 1 ==> s'.listing == s.listing)
    && (Rank(s.phase) == Rank(s'.phase) ==> forall r, pre, j :: r in s.procs && Passed(s.procs[r], pre, j) ==> r in s'.procs && Passed(s'.procs[r], pre, j))
    && (s.phase.Retrying? && s'.phase.Retrying? ==> s'.phase.retries <= s.phase.retries)
    && (s.phase.Stranding? && s'.phase.Stranding? ==> s'.phase.stranded.Keys <= s.phase.stranded.Keys)
    && (Rank(s'.phase) == 1 ==> Rank(s.phase) == 1)
    && (Rank(s'.phase) == 3 ==> Rank(s.phase) >= 2)
  }

  lemma HookRanStays(c: Config, s: Down, s': Down, x: ResId, stopping: bool)
    requires Progresses(s, s') && SomeHookRan(c, s, x, stopping)
    requires stopping || Rank(s.phase) >= 2
    ensures SomeHookRan(c, s', x, stopping)
  {
    var pre, j :| HookRan(c, s, x, stopping, pre, j);
    assert HookRan(c, s', x, stopping, pre, j);
  }

  lemma ShapeStays(c: Config, s: Down, s': Down, x: ResId)
    requires Progresses(s, s') && ShapeOk(c, s, x, RunsOf(s.ran, x)) && RunsOf(s'.ran, x) == RunsOf(s.ran, x)
    ensures ShapeOk(c, s', x, RunsOf(s'.ran, x))
  {
    hide SomeHookRan, RunsOf, AtStop;
    if SomeHookRan(c, s, x, true) {
      HookRanStays(c, s, s', x, true);
    }
    if Rank(s.phase) >= 2 && SomeHookRan(c, s, x, false) {
      HookRanStays(c, s, s', x, false);
    }
  }

  // ---- Steps that run no release --------------------------------------------

  predicate IsQuiet(c: Config, s: Down, step: Step) {
    match step
    case RunNext(r, env) => AtHook(c, s, r) && (EventAt(c, s, r) !in HookAt(c, s, r).events || HookAt(c, s, r).resource.None?)
    case StopsReturned(_, _) => false
    case RunRetry(_, _) => false
    case RunStranded(_, _) => false
    case _ => true
  }

  predicate IsScriptStep(step: Step) {
    step.BeginStop? || step.BeginRemove? || step.RunNext? || step.HooksDone? || step.Operate?
  }

  /** What a step of the script of r does when it runs no release. */
  ghost predicate ScriptMove(s: Down, s': Down, r: string) {
    && Acting(s, r) && r in s'.procs && s'.procs == s.procs[r := s'.procs[r]]
    && s'.phase == s.phase && s'.ran == s.ran && s'.recorder == s.recorder && s'.holders == s.holders
    && s'.listing == s.listing && s'.outcomes == s.outcomes
    && (forall pre, j :: Passed(s.procs[r], pre, j) ==> Passed(s'.procs[r], pre, j))
    && (s.phase.Stopping? ==>
          && s'.removed == s.removed
          && (s'.stopped == s.stopped || s'.stopped == s.stopped + {r})
          && (s'.kept == s.kept || s'.kept == s.kept + {r}))
    && (s.phase.Removing? ==>
          && s'.stopped == s.stopped && s'.kept == s.kept
          && (s'.removed == s.removed || (s'.removed == s.removed + {r} && s.procs[r].Hooking? && s'.procs[r].Over?)))
    && (s.procs[r].NotStarted? && !s'.procs[r].Over? ==> if s.phase.Stopping? then r in s'.stopped else r !in s.kept)
    && !s'.procs[r].NotStarted? && !s.procs[r].Over?
  }

  lemma HookMove(c: Config, s: Down, s': Down, r: string, env: Env)
    requires HookStep(c, s, s', r, env) && IsQuiet(c, s, RunNext(r, env))
    ensures ScriptMove(s, s', r)
  {
    hide HooksFor, RunHook, HookAt, EventAt;
    if EventAt(c, s, r) in HookAt(c, s, r).events {
      PlainRun(s.holders, EventAt(c, s, r), HookAt(c, s, r).events[EventAt(c, s, r)], env);
    }
  }

  lemma BeginMove(c: Config, s: Down, s': Down, r: string, begins: bool)
    requires BeginStopStep(c, s, s', r, begins) || BeginRemoveStep(c, s, s', r)
    ensures ScriptMove(s, s', r)
  {
    hide HooksFor;
  }

  lemma DoneMove(c: Config, s: Down, s': Down, r: string)
    requires HooksDoneStep(c, s, s', r)
    ensures ScriptMove(s, s', r)
  {
    hide HooksFor;
  }

  lemma OperateMove(s: Down, s': Down, r: string, works: bool)
    requires OperateStep(s, s', r, works)
    ensures ScriptMove(s, s', r)
  {
  }

  lemma ScriptEffect(c: Config, s: Down, s': Down, step: Step) returns (r: string)
    requires NextBy(c, s, s', step) && IsQuiet(c, s, step) && IsScriptStep(step)
    ensures ScriptMove(s, s', r)
  {
    hide HooksFor, HookStep, BeginStopStep, BeginRemoveStep, HooksDoneStep, OperateStep, HookAt, EventAt, ScriptMove;
    match step
    case BeginStop(q, begins) => r := q; BeginMove(c, s, s', q, begins);
    case BeginRemove(q) => r := q; BeginMove(c, s, s', q, true);
    case RunNext(q, env) => r := q; HookMove(c, s, s', q, env);
    case HooksDone(q) => r := q; DoneMove(c, s, s', q);
    case Operate(q, works) => r := q; OperateMove(s, s', q, works);
  }

  lemma QuietEffect(c: Config, s: Down, s': Down, step: Step)
    requires NextBy(c, s, s', step) && IsQuiet(c, s, step)
    ensures s'.ran == s.ran && s'.recorder == s.recorder && s'.holders == s.holders && s'.listing == s.listing
    ensures s.stopped <= s'.stopped && (Rank(s.phase) > 0 ==> s'.stopped == s.stopped)
    ensures s'.phase != s.phase ==> step.RetriesReturned? || step.RemovesReturned? || step.ReleasesReturned?
  {
    hide HooksFor, StrandedHolders, AllOver, HookStep, BeginStopStep, BeginRemoveStep, HooksDoneStep, OperateStep, Passed;
    if IsScriptStep(step) {
      var r := ScriptEffect(c, s, s', step);
    }
  }

  /** A hook without a resource records and drops nothing. */
  lemma PlainRun(holders: Holders, ev: LifecycleEvent, exec: Exec, env: Env)
    ensures RunHook(holders, None, ev, exec, None, env).holders == holders
    ensures RunHook(holders, None, ev, exec, None, env).record.None?
  {
  }

  lemma QuietProgresses(c: Config, s: Down, s': Down, step: Step)
    requires NextBy(c, s, s', step) && IsQuiet(c, s, step)
    ensures Progresses(s, s')
  {
    hide HooksFor, StrandedHolders, AllOver, HookStep, BeginStopStep, BeginRemoveStep, HooksDoneStep, OperateStep, Passed;
    QuietEffect(c, s, s', step);
    if IsScriptStep(step) {
      var r := ScriptEffect(c, s, s', step);
      ScriptMoves(s, s', r);
    }
  }

  /** A script only moves on. */
  lemma ScriptMoves(s: Down, s': Down, r: string)
    requires r in s.procs && r in s'.procs && s'.procs == s.procs[r := s'.procs[r]]
    requires forall pre, j :: Passed(s.procs[r], pre, j) ==> Passed(s'.procs[r], pre, j)
    ensures forall q, pre, j :: q in s.procs && Passed(s.procs[q], pre, j) ==> q in s'.procs && Passed(s'.procs[q], pre, j)
  {
  }

  lemma QuietKeepsShapes(c: Config, s: Down, s': Down, step: Step)
    requires Shapes(c, s) && NextBy(c, s, s', step) && IsQuiet(c, s, step)
    ensures Shapes(c, s')
  {
    hide NextBy, ShapeOk, Progresses;
    QuietEffect(c, s, s', step);
    QuietProgresses(c, s, s', step);
    forall x
      ensures ShapeOk(c, s', x, RunsOf(s'.ran, x))
    {
      ShapeStays(c, s, s', x);
    }
  }

  lemma ScriptKeepsKept(c: Config, s: Down, s': Down, r: string)
    requires KeptStays(c, s) && ScriptMove(s, s', r)
    ensures KeptStays(c, s')
  {
    hide Passed;
  }

  lemma QuietKeepsKept(c: Config, s: Down, s': Down, step: Step)
    requires KeptStays(c, s) && NextBy(c, s, s', step) && IsQuiet(c, s, step)
    ensures KeptStays(c, s')
  {
    hide HooksFor, RunHook, HookAt, EventAt, StrandedHolders, AllOver, HookStep, BeginStopStep, BeginRemoveStep, HooksDoneStep, OperateStep;
    if IsScriptStep(step) {
      var r := ScriptEffect(c, s, s', step);
      ScriptKeepsKept(c, s, s', r);
    }
  }

  lemma QuietKeepsRest(c: Config, s: Down, s': Down, step: Step)
    requires Inv(c, s) && NextBy(c, s, s', step) && IsQuiet(c, s, step)
    ensures RetriesDue(s') && RecordsStand(s') && HoldersConserved(c, s') && OutcomesOnce(s')
  {
    hide HooksFor, RunHook, HookAt, EventAt, Shapes, KeptStays, StrandedDue, LastRecord, Standing, RunsOf, StrandedHolders, AllOver;
    QuietEffect(c, s, s', step);
  }

  lemma QuietKeepsStranded(c: Config, s: Down, s': Down, step: Step)
    requires Inv(c, s) && NextBy(c, s, s', step) && IsQuiet(c, s, step)
    ensures StrandedDue(c, s')
  {
    hide HooksFor, RunHook, HookAt, EventAt, KeptStays, RecordsStand, RetriesDue, OutcomesOnce, AllOver, RunsOf;
    QuietEffect(c, s, s', step);
    if step.RemovesReturned? && s'.phase.Stranding? {
      forall x | x in s'.phase.stranded
        ensures forall i :: 0 <= i < |RunsOf(s'.ran, x)| ==> Failed(RunsOf(s'.ran, x)[i])
      {
        assert ShapeOk(c, s, x, RunsOf(s.ran, x));
        ListedRunsFailed(c, s, x);
      }
    }
  }

  lemma HookRanOwner(c: Config, s: Down, x: ResId, stopping: bool)
    requires SomeHookRan(c, s, x, stopping)
    ensures x.owner in c.replicas && (stopping ==> x.owner in s.stopped)
  {
    var pre, j :| HookRan(c, s, x, stopping, pre, j);
  }

  lemma ListedRunsFailed(c: Config, s: Down, x: ResId)
    requires ShapeOk(c, s, x, RunsOf(s.ran, x)) && Rank(s.phase) == 2 && x in StrandedHolders(c, s)
    ensures forall i :: 0 <= i < |RunsOf(s.ran, x)| ==> Failed(RunsOf(s.ran, x)[i])
  {
    hide SomeHookRan, RunsOf;
    if SomeHookRan(c, s, x, true) {
      HookRanOwner(c, s, x, true);
    }
  }

  lemma QuietKeeps(c: Config, s: Down, s': Down, step: Step)
    requires Inv(c, s) && NextBy(c, s, s', step) && IsQuiet(c, s, step)
    ensures Inv(c, s')
  {
    hide Shapes, RetriesDue, StrandedDue, RecordsStand, HoldersConserved, KeptStays, OutcomesOnce, NextBy, IsQuiet;
    QuietKeepsShapes(c, s, s', step);
    QuietKeepsKept(c, s, s', step);
    QuietKeepsRest(c, s, s', step);
    QuietKeepsStranded(c, s, s', step);
  }

  // ---- A run of a hook that releases ----------------------------------------

  lemma RunsOfSnoc(ran: seq<ReleaseRun>, run: ReleaseRun, x: ResId)
    ensures RunsOf(ran + [run], x) == RunsOf(ran, x) + if run.id == x then [run] else []
  {
    assert (ran + [run])[..|ran|] == ran;
  }

  /** A resource of a replica is released at one point of its scripts. */
  lemma ReleasedOnce(c: Config, r: string, i: int, e: LifecycleEvent, j: int, f: LifecycleEvent, key: string)
    requires ConfigOk(c) && ReleasesAt(c, r, i, key, e) && ReleasesAt(c, r, j, key, f)
    ensures i == j && e == f
  {
    hide HooksOk, ForcedHooks;
    var hooks := c.replicas[r].hooks;
    OneRelease(hooks, i, e, j, f, key);
  }

  predicate AtRelease(c: Config, s: Down, r: string) {
    AtHook(c, s, r) && EventAt(c, s, r) in HookAt(c, s, r).events && HookAt(c, s, r).resource.Some?
  }

  lemma AtReleaseHook(c: Config, s: Down, r: string)
    requires AtRelease(c, s, r)
    ensures var key := HookAt(c, s, r).resource.value;
      && ReleasesAt(c, r, s.procs[r].next, key, StageEvent(s.phase.Stopping?, s.procs[r].pre))
      && EventAt(c, s, r) == StageEvent(s.phase.Stopping?, s.procs[r].pre)
      && (s.phase.Removing? ==> !AtStop(EventAt(c, s, r)))
  {
  }

  /** Before a hook releases a resource, no release of it ran. */
  lemma NoRunBefore(c: Config, s: Down, r: string, x: ResId)
    requires ConfigOk(c) && AtRelease(c, s, r) && x == ResId(r, HookAt(c, s, r).resource.value)
    requires ShapeOk(c, s, x, RunsOf(s.ran, x))
    ensures RunsOf(s.ran, x) == []
  {
    hide HooksFor, HookAt, RunsOf, ReleasesAt;
    AtReleaseHook(c, s, r);
    var i, e := s.procs[r].next, StageEvent(s.phase.Stopping?, s.procs[r].pre);
    forall stopping, pre, j | HookRan(c, s, x, stopping, pre, j)
      ensures i == j && e == StageEvent(stopping, pre)
    {
      ReleasedOnce(c, r, i, e, j, StageEvent(stopping, pre), x.key);
    }
    NotPassed(c, s, r, x);
  }

  lemma NotPassed(c: Config, s: Down, r: string, x: ResId)
    requires AtHook(c, s, r) && x.owner == r
    requires forall stopping, pre, j {:trigger HookRan(c, s, x, stopping, pre, j)} :: HookRan(c, s, x, stopping, pre, j) ==>
               j == s.procs[r].next && StageEvent(s.phase.Stopping?, s.procs[r].pre) == StageEvent(stopping, pre)
    ensures !SomeHookRan(c, s, x, true) && (s.phase.Removing? ==> !SomeHookRan(c, s, x, false))
  {
    hide HooksFor, ReleasesAt;
  }

  lemma ReleaseHookProgresses(c: Config, s: Down, r: string, res: HookResult)
    requires AtHook(c, s, r) && forall x :: x in res.holders ==> x in s.holders
    ensures Progresses(s, RunsHook(c, s, r, res))
  {
    hide HooksFor, HookAt, EventAt;
    ScriptMoves(s, RunsHook(c, s, r, res), r);
  }

  lemma ReleaseHookKeepsShapes(c: Config, s: Down, r: string, res: HookResult)
    requires ConfigOk(c) && Shapes(c, s) && KeptStays(c, s) && AtRelease(c, s, r)
    requires forall x :: x in res.holders ==> x in s.holders
    requires res.record.None? ==> ResId(r, HookAt(c, s, r).resource.value) !in res.holders
    ensures Shapes(c, RunsHook(c, s, r, res))
  {
    hide ShapeOk, Progresses, HooksFor, HookAt, EventAt, RunsOf, KeptStays;
    var s' := RunsHook(c, s, r, res);
    ReleaseHookProgresses(c, s, r, res);
    var id := ResId(r, HookAt(c, s, r).resource.value);
    var run := s'.ran[|s.ran|];
    assert s'.ran == s.ran + [run];
    forall x
      ensures ShapeOk(c, s', x, RunsOf(s'.ran, x))
    {
      RunsOfSnoc(s.ran, run, x);
      assert ShapeOk(c, s, x, RunsOf(s.ran, x));
      if x == id {
        NoRunBefore(c, s, r, id);
        NewHookShape(c, s, r, res, id);
        assert RunsOf(s'.ran, x) == [run];
      } else {
        ShapeStays(c, s, s', x);
      }
    }
  }

  lemma NewHookShape(c: Config, s: Down, r: string, res: HookResult, x: ResId)
    requires AtRelease(c, s, r) && x == ResId(r, HookAt(c, s, r).resource.value) && KeptStays(c, s)
    requires res.record.None? ==> x !in res.holders
    ensures var s' := RunsHook(c, s, r, res);
      |s'.ran| == |s.ran| + 1 && ShapeOk(c, s', x, [s'.ran[|s.ran|]])
  {
    hide HooksFor, HookAt, EventAt, ReleasesAt;
    AtReleaseHook(c, s, r);
    var s' := RunsHook(c, s, r, res);
    var pre, next := s.procs[r].pre, s.procs[r].next;
    assert HookRan(c, s', x, s.phase.Stopping?, pre, next);
  }

  lemma ReleaseHookKeepsRest(c: Config, s: Down, r: string, res: HookResult)
    requires Inv(c, s) && AtRelease(c, s, r)
    requires forall x :: x in res.holders ==> x in s.holders && res.holders[x] == s.holders[x]
    requires var id := ResId(r, HookAt(c, s, r).resource.value);
      && (forall x :: x in s.holders && x !in res.holders ==> x == id && (res.verdict.Succeeded? || res.verdict.Ignored?))
      && (res.record.Some? ==> res.record.value.id == id && res.record.value.holder.release.Some?)
    ensures var s' := RunsHook(c, s, r, res); RetriesDue(s') && StrandedDue(c, s') && KeptStays(c, s') && OutcomesOnce(s')
    ensures var s' := RunsHook(c, s, r, res); RecordsStand(s') && HoldersConserved(c, s')
  {
    hide HooksFor, HookAt, EventAt, RunsOf, Standing, LastRecord, Shapes;
    var s' := RunsHook(c, s, r, res);
    var run := s'.ran[|s.ran|];
    assert s'.ran == s.ran + [run];
    RunAppends(c, s, s', run);
  }

  /** What one more run with its record does to the history. */
  lemma RunAppends(c: Config, s: Down, s': Down, run: ReleaseRun)
    requires RecordsStand(s) && HoldersConserved(c, s)
    requires s'.ran == s.ran + [run] && s'.recorder == s.recorder + RecordSeq(run.record) && !run.source.Retry?
    requires run.record.Some? ==> run.record.value.id == run.id && run.record.value.holder.release.Some?
    requires forall x :: x in s'.holders ==> x in s.holders && s'.holders[x] == s.holders[x]
    requires forall x :: x in s.holders && x !in s'.holders ==> x == run.id && Disposed(run)
    ensures RecordsStand(s') && HoldersConserved(c, s')
  {
    hide RunsOf, LastRecord, Standing;
    forall x
      ensures LastRecord(s'.recorder, x) == Standing(RunsOf(s'.ran, x))
    {
      RunsOfSnoc(s.ran, run, x);
      if run.id == x {
        StandingSnoc(RunsOf(s.ran, x), run);
      } else {
        assert RunsOf(s.ran, x) + [] == RunsOf(s.ran, x);
      }
      if run.record.Some? {
        LastRecordSnoc(s.recorder, run.record.value, x);
      } else {
        assert s'.recorder == s.recorder;
      }
      assert LastRecord(s.recorder, x) == Standing(RunsOf(s.ran, x));
    }
    DisposedStays(s.ran, run);
  }

  lemma DisposedStays(ran: seq<ReleaseRun>, run: ReleaseRun)
    ensures forall x :: SomeDisposed(ran, x) ==> SomeDisposed(ran + [run], x)
    ensures Disposed(run) ==> SomeDisposed(ran + [run], run.id)
  {
    var longer := ran + [run];
    assert longer[|ran|] == run;
    forall x | SomeDisposed(ran, x)
      ensures SomeDisposed(longer, x)
    {
      var i :| 0 <= i < |ran| && ran[i].id == x && Disposed(ran[i]);
      assert longer[i] == ran[i];
    }
  }

  lemma StandingSnoc(runs: seq<ReleaseRun>, run: ReleaseRun)
    ensures Standing(runs + [run]) ==
      match run.record
      case None => if run.source.Retry? then None else Standing(runs)
      case Some(f) =>
        if run.source.Retry? && Standing(runs).Some?
        then Some(Standing(runs).value.(err := f.err, onError := f.onError, retried := true))
        else Some(f)
  {
    assert (runs + [run])[..|runs|] == runs;
  }

  lemma ReleaseHookKeeps(c: Config, s: Down, s': Down, r: string, env: Env)
    requires ConfigOk(c) && Inv(c, s) && HookStep(c, s, s', r, env) && AtRelease(c, s, r)
    ensures Inv(c, s')
  {
    hide HooksFor, HookAt, EventAt, RunHook, RunsHook, Shapes, RetriesDue, StrandedDue, RecordsStand, HoldersConserved, KeptStays, OutcomesOnce;
    var h, ev := HookAt(c, s, r), EventAt(c, s, r);
    RunConserves(s.holders, ResourceOf(h, r), ev, h.events[ev], None, env);
    RunRecords(s.holders, ResourceOf(h, r), ev, h.events[ev], None, env);
    var res := RunHook(s.holders, ResourceOf(h, r), ev, h.events[ev], None, env);
    ReleaseHookKeepsShapes(c, s, r, res);
    ReleaseHookKeepsRest(c, s, r, res);
  }

  // ---- The end of the stops -------------------------------------------------

  lemma {:induction false} TakenRecords(failed: seq<FailedRelease>, i: nat)
    requires DistinctIds(failed) && i < |failed|
    ensures LastRecord(failed, failed[i].id) == Some(failed[i])
  {
    if i < |failed| - 1 {
      TakenRecords(failed[..|failed| - 1], i);
    }
  }

  lemma StopsReturnedProgress(c: Config, s: Down, s': Down, failed: seq<FailedRelease>, listed: Option<map<string, ReplicaState>>, x: ResId)
    requires Shapes(c, s) && RecordsStand(s) && StopsReturnedStep(c, s, s', failed, listed)
    ensures ShapeOk(c, s', x, RunsOf(s'.ran, x))
  {
    hide RunsOf, DistinctIds;
    assert ShapeOk(c, s, x, RunsOf(s.ran, x));
    if RunsOf(s.ran, x) != [] {
      HookRanLater(c, s, s', x);
      StandingOne(RunsOf(s.ran, x));
      RecordHasId(failed, x);
      assert LastRecord(failed, x) == LastRecord(s.recorder, x) == Standing(RunsOf(s.ran, x));
    }
  }

  lemma HookRanLater(c: Config, s: Down, s': Down, x: ResId)
    requires SomeHookRan(c, s, x, true) && s'.stopped == s.stopped && s'.phase.Retrying?
    ensures SomeHookRan(c, s', x, true)
  {
    var pre, j :| HookRan(c, s, x, true, pre, j);
    assert HookRan(c, s', x, true, pre, j);
  }

  lemma StandingOne(runs: seq<ReleaseRun>)
    requires |runs| == 1 && !runs[0].source.Retry?
    ensures Standing(runs) == runs[0].record
  {
    assert runs == [] + [runs[0]];
    StandingSnoc([], runs[0]);
  }

  lemma StopsReturnedKeeps(c: Config, s: Down, s': Down, failed: seq<FailedRelease>, listed: Option<map<string, ReplicaState>>)
    requires Inv(c, s) && StopsReturnedStep(c, s, s', failed, listed)
    ensures Inv(c, s')
  {
    hide ShapeOk, RunsOf, Standing, LastRecord;
    forall x
      ensures ShapeOk(c, s', x, RunsOf(s'.ran, x))
    {
      StopsReturnedProgress(c, s, s', failed, listed, x);
    }
    forall i | 0 <= i < |failed|
      ensures failed[i].holder.release.Some?
    {
      TakenRecords(failed, i);
      RecordHasId(s.recorder, failed[i].id);
    }
    forall x | x in Ids(failed)
      ensures LastRecord(failed, x).Some? && LastRecord(failed, x).value.holder.release.Some?
    {
      RecordHasId(failed, x);
    }
  }

  // ---- A retry --------------------------------------------------------------

  lemma {:induction false} SettleLast(failed: seq<FailedRelease>, x: ResId, now: Option<FailedRelease>, y: ResId)
    requires now.Some? ==> now.value.id == x
    requires LastRecord(failed, x).Some?
    ensures LastRecord(Settle(failed, x, now), y) == if y == x then now else LastRecord(failed, y)
    decreases |failed|
  {
    var init, last := failed[..|failed| - 1], failed[|failed| - 1];
    if last.id == x {
      match now
      case Some(g) =>
        LastRecordSnoc(Settle(init, x, now), g, y);
        if y != x {
          SettleOthers(init, x, now, y);
        }
      case None =>
        assert Settle(failed, x, now) == Settle(init, x, now);
        SettleOthers(init, x, now, y);
    } else {
      LastRecordSnoc(Settle(init, x, now), last, y);
      SettleLast(init, x, now, y);
    }
  }

  lemma {:induction false} SettleOthers(failed: seq<FailedRelease>, x: ResId, now: Option<FailedRelease>, y: ResId)
    requires now.Some? ==> now.value.id == x
    ensures y != x ==> LastRecord(Settle(failed, x, now), y) == LastRecord(failed, y)
    ensures now.None? ==> LastRecord(Settle(failed, x, now), x).None?
  {
    if failed != [] {
      var init, last := failed[..|failed| - 1], failed[|failed| - 1];
      SettleOthers(init, x, now, y);
      if last.id == x {
        match now
        case Some(g) => LastRecordSnoc(Settle(init, x, now), g, y);
        case None => assert Settle(failed, x, now) == Settle(init, x, now);
      } else {
        LastRecordSnoc(Settle(init, x, now), last, y);
        LastRecordSnoc(Settle(init, x, now), last, x);
      }
    }
  }

  lemma {:induction false} SettleReleases(failed: seq<FailedRelease>, x: ResId, now: Option<FailedRelease>)
    requires forall i :: 0 <= i < |failed| ==> failed[i].holder.release.Some?
    requires now.Some? ==> now.value.holder.release.Some?
    ensures forall i :: 0 <= i < |Settle(failed, x, now)| ==> Settle(failed, x, now)[i].holder.release.Some?
  {
    if failed != [] {
      SettleReleases(failed[..|failed| - 1], x, now);
    }
  }

  lemma RetryResult(holders: Holders, f: FailedRelease, force: bool, env: Env)
    requires f.holder.release.Some? && EnvOk(env)
    ensures var res := RunRelease(holders, f.id, f.holder, force, env);
      && Retried(f, force, env) == (match res.record
                                    case Some(g) => Some(f.(err := g.err, onError := g.onError, retried := true))
                                    case None => None)
      && (forall x :: x in res.holders ==> x in holders && res.holders[x] == holders[x])
      && (forall x :: x in holders && x !in res.holders ==> x == f.id && (res.verdict.Succeeded? || res.verdict.Ignored?))
      && (res.record.Some? ==> res.record.value.id == f.id && res.record.value.holder.release.Some?)
      && (res.record.None? <==> res.verdict.Succeeded?)
      && (res.record.None? ==> f.id !in res.holders)
  {
    hide RunHook;
    var rel := f.holder.release.value;
    var exec := if force then ForcedExec(Exec(rel.args, rel.onError)) else Exec(rel.args, rel.onError);
    SameRecord(holders, f, exec, env);
    RunConserves(holders, Some(f.id), rel.event, exec, Some(f.holder), env);
    RunRecords(holders, Some(f.id), rel.event, exec, Some(f.holder), env);
  }

  lemma RetryKeepsShapes(c: Config, s: Down, s': Down, x: ResId, run: ReleaseRun)
    requires Shapes(c, s) && RecordsStand(s) && s.phase.Retrying? && x in s.phase.retries
    requires LastRecord(s.recorder, x).Some?
    requires run.id == x && run.source.Retry? && (forall y :: y in s'.holders ==> y in s.holders)
    requires s' == s.(phase := Retrying(s.phase.retries - {x}), holders := s'.holders, done := s'.done, recorder := s'.recorder, ran := s.ran + [run])
    ensures Shapes(c, s')
  {
    hide RunsOf, LastRecord;
    assert Progresses(s, s');
    forall y
      ensures ShapeOk(c, s', y, RunsOf(s'.ran, y))
    {
      RunsOfSnoc(s.ran, run, y);
      assert ShapeOk(c, s, y, RunsOf(s.ran, y));
      if y == x {
        assert RunsOf(s.ran, x) != [] by {
          assert LastRecord(s.recorder, x) == Standing(RunsOf(s.ran, x));
        }
        HookRanLater(c, s, s', x);
      } else {
        ShapeStays(c, s, s', y);
      }
    }
  }

  lemma RetryKeepsRecords(c: Config, s: Down, s': Down, x: ResId, run: ReleaseRun, now: Option<FailedRelease>)
    requires RecordsStand(s) && LastRecord(s.recorder, x).Some?
    requires run.id == x && run.source.Retry? && s'.ran == s.ran + [run] && s'.recorder == Settle(s.recorder, x, now)
    requires now == match run.record
                    case Some(g) => Some(LastRecord(s.recorder, x).value.(err := g.err, onError := g.onError, retried := true))
                    case None => None
    ensures RecordsStand(s')
  {
    hide RunsOf, LastRecord, Settle, Standing;
    RecordHasId(s.recorder, x);
    SettleReleases(s.recorder, x, now);
    forall y
      ensures LastRecord(s'.recorder, y) == Standing(RunsOf(s'.ran, y))
    {
      RunsOfSnoc(s.ran, run, y);
      if y == x {
        StandingSnoc(RunsOf(s.ran, y), run);
      } else {
        assert RunsOf(s.ran, y) + [] == RunsOf(s.ran, y);
      }
      SettleLast(s.recorder, x, now, y);
      assert LastRecord(s.recorder, y) == Standing(RunsOf(s.ran, y));
    }
  }

  lemma RunKeepsHolders(c: Config, s: Down, s': Down, run: ReleaseRun)
    requires HoldersConserved(c, s) && s'.ran == s.ran + [run]
    requires forall x :: x in s'.holders ==> x in s.holders && s'.holders[x] == s.holders[x]
    requires forall x :: x in s.holders && x !in s'.holders ==> x == run.id && Disposed(run)
    ensures HoldersConserved(c, s')
  {
    DisposedStays(s.ran, run);
  }

  lemma RetryKeepsRest(c: Config, s: Down, s': Down, x: ResId)
    requires Inv(c, s) && s.phase.Retrying? && RecordsStand(s')
    requires s' == s.(phase := Retrying(s.phase.retries - {x}), holders := s'.holders, done := s'.done, recorder := s'.recorder, ran := s'.ran)
    requires forall y :: y != x ==> LastRecord(s'.recorder, y) == LastRecord(s.recorder, y)
    ensures RetriesDue(s') && StrandedDue(c, s') && KeptStays(c, s') && OutcomesOnce(s')
  {
    hide LastRecord, Shapes, RunsOf, Standing;
  }

  lemma RetryKeeps(c: Config, s: Down, s': Down, x: ResId, env: Env)
    requires Inv(c, s) && RetryStep(c, s, s', x, env)
    ensures Inv(c, s')
  {
    hide RunRelease, Retried, Shapes, RetriesDue, StrandedDue, RecordsStand, HoldersConserved, KeptStays, OutcomesOnce, Settle, LastRecord;
    var f := LastRecord(s.recorder, x).value;
    RecordHasId(s.recorder, x);
    RetryResult(s.holders, f, c.force, env);
    var res := RunRelease(s.holders, x, f.holder, c.force, env);
    var run := ReleaseRun(x, f.holder.release.value.event, Retry, res.verdict, res.record, res.cut);
    RetryKeepsShapes(c, s, s', x, run);
    RetryKeepsRecords(c, s, s', x, run, Retried(f, c.force, env));
    RunKeepsHolders(c, s, s', run);
    forall y | y != x
      ensures LastRecord(s'.recorder, y) == LastRecord(s.recorder, y)
    {
      SettleLast(s.recorder, x, Retried(f, c.force, env), y);
    }
    RetryKeepsRest(c, s, s', x);
  }

  // ---- A stranded release ---------------------------------------------------

  lemma StrandedKeepsShapes(c: Config, s: Down, s': Down, x: ResId, run: ReleaseRun)
    requires Shapes(c, s) && StrandedDue(c, s) && s.phase.Stranding? && x in s.phase.stranded
    requires s.phase.stranded[x].release.Some? && run.event == s.phase.stranded[x].release.value.event
    requires run.id == x && run.source.Stranded? && (forall y :: y in s'.holders ==> y in s.holders)
    requires s' == s.(phase := Stranding(s.phase.stranded - {x}), holders := s'.holders, done := s'.done, recorder := s'.recorder,
                      outcomes := s'.outcomes, ran := s.ran + [run])
    ensures Shapes(c, s')
  {
    hide RunsOf;
    assert Progresses(s, s');
    forall y
      ensures ShapeOk(c, s', y, RunsOf(s'.ran, y))
    {
      RunsOfSnoc(s.ran, run, y);
      assert ShapeOk(c, s, y, RunsOf(s.ran, y));
      if y == x {
        NewStrandedShape(c, s, s', x, run);
      } else {
        ShapeStays(c, s, s', y);
      }
    }
  }

  lemma NewStrandedShape(c: Config, s: Down, s': Down, x: ResId, run: ReleaseRun)
    requires ShapeOk(c, s, x, RunsOf(s.ran, x)) && StrandedDue(c, s) && s.phase.Stranding? && x in s.phase.stranded
    requires s.phase.stranded[x].release.Some? && run.event == s.phase.stranded[x].release.value.event
    requires run.id == x && run.source.Stranded? && Progresses(s, s')
    requires s'.phase == Stranding(s.phase.stranded - {x})
    ensures ShapeOk(c, s', x, RunsOf(s.ran, x) + [run])
  {
    hide SomeHookRan, RunsOf, AtStop;
    if SomeHookRan(c, s, x, true) {
      HookRanOwner(c, s, x, true);
    }
    if SomeHookRan(c, s, x, false) {
      HookRanOwner(c, s, x, false);
      HookRanStays(c, s, s', x, false);
    }
  }

  lemma StrandedKeepsRest(c: Config, s: Down, s': Down, x: ResId, run: ReleaseRun, o: ReleaseOutcome)
    requires Inv(c, s) && s.phase.Stranding? && x in s.phase.stranded && run.id == x && o.holder == Some(x)
    requires s'.recorder == s.recorder + RecordSeq(run.record)
    requires run.record.Some? ==> run.record.value.id == x
    requires FailureIn(o) ==> run.record.Some?
    requires s' == s.(phase := Stranding(s.phase.stranded - {x}), holders := s'.holders, done := s'.done, recorder := s'.recorder,
                      outcomes := s.outcomes + [o], ran := s.ran + [run])
    ensures RetriesDue(s') && StrandedDue(c, s') && KeptStays(c, s') && OutcomesOnce(s')
  {
    hide LastRecord, Shapes, RunsOf, Standing, AtStop;
    forall y | y in s'.phase.stranded
      ensures RunsOf(s'.ran, y) == RunsOf(s.ran, y)
    {
      RunsOfSnoc(s.ran, run, y);
    }
    forall y
      ensures LastRecord(s.recorder, y).Some? ==> LastRecord(s'.recorder, y).Some?
      ensures y == x && run.record.Some? ==> LastRecord(s'.recorder, y).Some?
    {
      if run.record.Some? {
        LastRecordSnoc(s.recorder, run.record.value, y);
      } else {
        assert s'.recorder == s.recorder;
      }
    }
  }

  lemma StrandedKeeps(c: Config, s: Down, s': Down, x: ResId, env: Env)
    requires Inv(c, s) && ReleaseStep(c, s, s', x, env)
    ensures Inv(c, s')
  {
    hide RunRelease, Shapes, RetriesDue, StrandedDue, RecordsStand, HoldersConserved, KeptStays, OutcomesOnce;
    var h := s.phase.stranded[x];
    RetryResult(s.holders, FailedRelease(x, h, 0, Fail, false, false), c.force, env);
    var res := RunRelease(s.holders, x, h, c.force, env);
    var run := ReleaseRun(x, h.release.value.event, Stranded, res.verdict, res.record, res.cut);
    StrandedKeepsShapes(c, s, s', x, run);
    RunAppends(c, s, s', run);
    StrandedKeepsRest(c, s, s', x, run, s'.outcomes[|s.outcomes|]);
  }

  // ---- Every step -----------------------------------------------------------

  lemma StepKeeps(c: Config, s: Down, s': Down, step: Step)
    requires ConfigOk(c) && Inv(c, s) && NextBy(c, s, s', step)
    ensures Inv(c, s')
  {
    hide Inv, HooksFor, HookAt, EventAt, StopsReturnedStep, RetryStep, ReleaseStep, HookStep;
    if IsQuiet(c, s, step) {
      QuietKeeps(c, s, s', step);
    } else {
      match step
      case RunNext(r, env) =>
        StepAtHook(c, s, s', r, env);
        ReleaseHookKeeps(c, s, s', r, env);
      case StopsReturned(failed, listed) => StopsReturnedKeeps(c, s, s', failed, listed);
      case RunRetry(x, env) => RetryKeeps(c, s, s', x, env);
      case RunStranded(x, env) => StrandedKeeps(c, s, s', x, env);
    }
  }

  lemma StepAtHook(c: Config, s: Down, s': Down, r: string, env: Env)
    requires HookStep(c, s, s', r, env)
    ensures AtHook(c, s, r)
  {
  }

  lemma InitInv(c: Config)
    requires ConfigOk(c)
    ensures Inv(c, InitState(c))
  {
  }

  lemma {:induction false} RunInv(c: Config, run: seq<Down>, i: nat)
    requires ConfigOk(c) && IsRun(c, run) && i < |run|
    ensures Inv(c, run[i])
  {
    hide Inv, NextBy, ConfigOk;
    if i == 0 {
      InitInv(c);
    } else {
      RunInv(c, run, i - 1);
      assert Next(c, run[i - 1], run[i - 1 + 1]);
      var step :| NextBy(c, run[i - 1], run[i], step);
      StepKeeps(c, run[i - 1], run[i], step);
    }
  }
}
