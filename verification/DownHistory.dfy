/** What the releases a teardown ran say about its configuration: when the release of
    a resource can run in a remove hook and once more as stranded, and how the record
    of a failed run relates to its verdict. */
module DownHistory {
  import opened Wrappers
  import opened Naming
  import opened Lifecycle
  import opened ReleaseRecorder
  import opened HookRuns
  import opened ReleaseReport
  import opened DownProtocol
  import opened DownInvariant

  // ---- The configurations ----------------------------------------------------

  /** A hook releases the resource in the remove phase at a point where a failure does
      not keep the replica from going: behind the removal, or before it under an
      on_error other than fail. */
  predicate GoesAnyway(hooks: seq<Hook>, key: string) {
    exists j :: 0 <= j < |hooks| && GoesAnywayAt(hooks, key, j)
  }

  predicate GoesAnywayAt(hooks: seq<Hook>, key: string, j: int) {
    && Declares(hooks, j, key)
    && (|| RemovePost in hooks[j].events
        || (RemovePre in hooks[j].events && Resolved(hooks[j].events[RemovePre].onError) != Fail))
  }

  predicate StoresStopRelease(c: Config, x: ResId) {
    && x in c.holders && c.holders[x].Readable?
    && c.holders[x].holder.release.Some? && AtStop(c.holders[x].holder.release.value.event)
  }

  /** The release of the resource is the first thing the hooks do around the removal,
      and behind it. */
  predicate FirstAtRemove(hooks: seq<Hook>, key: string) {
    exists j :: 0 <= j < |hooks| && FirstAtRemoveAt(hooks, key, j)
  }

  predicate FirstAtRemoveAt(hooks: seq<Hook>, key: string, j: int) {
    && Declares(hooks, j, key) && RemovePost in hooks[j].events
    && (forall k :: 0 <= k < |hooks| ==> RemovePre !in hooks[k].events)
    && (forall k :: 0 <= k < j ==> RemovePost !in hooks[k].events)
  }

  /** A teardown of the whole project is to remove the owner of a resource whose holder
      stores a stop release, while the hooks of the owner release it at a remove event
      that lets the owner go when it fails. An owner that is to be stopped first goes
      unstopped only when the teardown is cancelled, and no hook works from then on. */
  predicate CanRunTwice(c: Config, x: ResId) {
    && c.whole && StoresStopRelease(c, x) && x.owner in c.removes
    && HooksFor(c, x.owner).Some?
    && var hooks := HooksFor(c, x.owner).value;
       if x.owner in c.stops then FirstAtRemove(hooks, x.key) else GoesAnyway(hooks, x.key)
  }

  /** The same without a cancellation. */
  predicate CanMisreport(c: Config, x: ResId) {
    CanRunTwice(c, x) && x.owner !in c.stops
  }

  // ---- The history -----------------------------------------------------------

  /** The removal of r is over without having removed it. */
  predicate Stuck(s: Down, r: string) {
    r !in s.removed && (s.phase.Removing? ==> r in s.procs && s.procs[r].Over?)
  }

  /** r was to be stopped, and its stop did not begin. */
  predicate Missed(c: Config, s: Down, r: string) {
    r in c.stops && r !in s.stopped
  }

  ghost predicate RemoveRunOk(c: Config, s: Down, run: ReleaseRun) {
    run.source.RemoveHook? ==>
      && Rank(s.phase) >= 2
      && run.id.owner in c.removes
      && HooksFor(c, run.id.owner).Some?
      && var hooks := HooksFor(c, run.id.owner).value;
         Failed(run) ==>
           || (if Missed(c, s, run.id.owner) then FirstAtRemove(hooks, run.id.key) else GoesAnyway(hooks, run.id.key))
           || Stuck(s, run.id.owner)
  }

  /** What the listing of the stranded holders asks of a replica. */
  predicate LeftStranded(c: Config, s: Down, r: string) {
    c.whole && (r in c.replicas ==> r in s.removed && r !in s.stopped)
  }

  predicate StrandedRunOk(c: Config, s: Down, run: ReleaseRun) {
    run.source.Stranded? ==>
      && Rank(s.phase) >= 3 && LeftStranded(c, s, run.id.owner)
      && (run.id.owner in c.stops && run.id.owner in c.replicas ==> Failed(run))
  }

  /** The record has a failure handled under fail exactly when the run ended its
      operation, but for a run cut in between. */
  predicate RecordOk(run: ReleaseRun) {
    && (run.cut ==> Failed(run) && run.verdict.HookFailed? && run.record.value.onError != Fail)
    && (Failed(run) ==> !run.record.value.retried)
    && (Failed(run) && !run.cut ==> (run.verdict.HookFailed? <==> run.record.value.onError == Fail))
  }

  ghost predicate RunOk(c: Config, s: Down, run: ReleaseRun) {
    RemoveRunOk(c, s, run) && StrandedRunOk(c, s, run) && RecordOk(run)
  }

  /** The script of a replica met no remove hook so far. */
  predicate Untouched(hooks: seq<Hook>, p: Proc) {
    match p
    case Hooking(pre, n) =>
      if pre then forall k :: 0 <= k < n && k < |hooks| ==> RemovePre !in hooks[k].events
      else
        && (forall k :: 0 <= k < |hooks| ==> RemovePre !in hooks[k].events)
        && (forall k :: 0 <= k < n && k < |hooks| ==> RemovePost !in hooks[k].events)
    case Operating => forall k :: 0 <= k < |hooks| ==> RemovePre !in hooks[k].events
    case _ => true
  }

  /** A stop fails to begin only in a cancelled teardown; and then the removal of its
      replica ends at the first remove hook. */
  ghost predicate MissedDone(c: Config, s: Down) {
    && (s.phase.Stopping? && !s.done ==> forall r :: r in c.stops && r in s.procs && !s.procs[r].NotStarted? ==> r in s.stopped)
    && (!s.phase.Stopping? && !s.done ==> c.stops <= s.stopped)
    && (s.phase.Removing? ==> forall r :: r in s.procs && r in c.stops && r !in s.stopped && HooksFor(c, r).Some? ==>
          Untouched(HooksFor(c, r).value, s.procs[r]))
  }

  ghost predicate History(c: Config, s: Down) {
    && MissedDone(c, s)
    && (forall k :: 0 <= k < |s.ran| ==> RunOk(c, s, s.ran[k]))
    && (s.phase.Removing? ==> forall r :: r in s.removed ==> r in s.procs && s.procs[r].Over?)
    && (s.phase.Stranding? ==> forall x :: x in s.phase.stranded ==> LeftStranded(c, s, x.owner))
  }

  // ---- Steps -----------------------------------------------------------------

  /** Under a done context every run fails and ends its operation. */
  lemma DoneFails(s: Down, holders: Holders, resource: Option<ResId>, ev: LifecycleEvent, exec: Exec, given: Option<Holder>, env: Env)
    requires s.done && EnvAt(s, env)
    ensures var res := RunHook(holders, resource, ev, exec, given, env);
      res.verdict.HookFailed? && (resource.Some? ==> res.record.Some?)
  {
  }

  lemma HookKeepsMissed(c: Config, s: Down, s': Down, r: string, env: Env)
    requires MissedDone(c, s) && HookStep(c, s, s', r, env)
    ensures MissedDone(c, s')
  {
    hide RunHook, HooksFor;
    var h, ev := HookAt(c, s, r), EventAt(c, s, r);
    if s.done && ev in h.events {
      DoneFails(s, s.holders, ResourceOf(h, r), ev, h.events[ev], None, env);
    }
  }

  lemma ScriptKeepsMissed(c: Config, s: Down, s': Down, step: Step)
    requires MissedDone(c, s) && NextBy(c, s, s', step) && IsScriptStep(step)
    ensures MissedDone(c, s')
  {
    hide RunHook, HooksFor, HookStep;
    match step
    case RunNext(r, env) => HookKeepsMissed(c, s, s', r, env);
    case BeginStop(r, begins) =>
    case BeginRemove(r) =>
    case HooksDone(r) =>
    case Operate(r, works) =>
  }

  lemma StepKeepsMissed(c: Config, s: Down, s': Down, step: Step)
    requires MissedDone(c, s) && KeptStays(c, s) && NextBy(c, s, s', step)
    ensures MissedDone(c, s')
  {
    hide HooksFor, RunRelease, StrandedHolders, Retried, Settle, RetriesFor, TakenOnce, HookStep, BeginStopStep, BeginRemoveStep,
      HooksDoneStep, OperateStep;
    if IsScriptStep(step) {
      ScriptKeepsMissed(c, s, s', step);
    }
  }

  /** What the steps do to what RunOk looks at. */
  ghost predicate KeepsRuns(s: Down, s': Down) {
    && Rank(s.phase) <= Rank(s'.phase)
    && (Rank(s.phase) >= 2 ==> s'.stopped == s.stopped)
    && (Rank(s.phase) >= 3 ==> s'.removed == s.removed)
    && (Rank(s.phase) >= 2 ==> forall r :: Stuck(s, r) ==> Stuck(s', r))
  }

  lemma RunStays(c: Config, s: Down, s': Down, run: ReleaseRun)
    requires RunOk(c, s, run) && KeepsRuns(s, s')
    ensures RunOk(c, s', run)
  {
    hide GoesAnyway, FirstAtRemove, RecordOk, HooksFor;
  }

  lemma RunsStay(c: Config, s: Down, s': Down)
    requires History(c, s) && KeepsRuns(s, s') && s.ran <= s'.ran
    requires forall k :: |s.ran| <= k < |s'.ran| ==> RunOk(c, s', s'.ran[k])
    ensures forall k :: 0 <= k < |s'.ran| ==> RunOk(c, s', s'.ran[k])
  {
    hide RunOk, KeepsRuns;
    forall k | 0 <= k < |s.ran|
      ensures RunOk(c, s', s'.ran[k])
    {
      assert s'.ran[k] == s.ran[k];
      RunStays(c, s, s', s.ran[k]);
    }
  }

  lemma ScriptKeepsRemoved(c: Config, s: Down, s': Down, step: Step)
    requires NextBy(c, s, s', step) && IsQuiet(c, s, step) && IsScriptStep(step)
    requires s.phase.Removing? ==> forall r :: r in s.removed ==> r in s.procs && s.procs[r].Over?
    ensures KeepsRuns(s, s') && s'.phase == s.phase && s'.ran == s.ran
    ensures s'.phase.Removing? ==> forall r :: r in s'.removed ==> r in s'.procs && s'.procs[r].Over?
  {
    hide HooksFor, RunHook, HookAt, EventAt;
    QuietEffect(c, s, s', step);
  }

  lemma QuietKeepsHistory(c: Config, s: Down, s': Down, step: Step)
    requires History(c, s) && MissedDone(c, s') && KeptStays(c, s) && NextBy(c, s, s', step) && IsQuiet(c, s, step)
    ensures History(c, s')
  {
    hide HooksFor, RunHook, HookAt, EventAt, StrandedHolders, AllOver, RunOk, MissedDone, HookStep, BeginStopStep, BeginRemoveStep,
      HooksDoneStep, OperateStep;
    QuietEffect(c, s, s', step);
    if IsScriptStep(step) {
      ScriptKeepsRemoved(c, s, s', step);
    }
    assert KeepsRuns(s, s');
    RunsStay(c, s, s');
    if step.RemovesReturned? && s'.phase.Stranding? {
      forall x | x in s'.phase.stranded
        ensures LeftStranded(c, s', x.owner)
      {
        ListedLeft(c, s, x);
      }
    }
  }

  lemma ListedLeft(c: Config, s: Down, x: ResId)
    requires x in StrandedHolders(c, s)
    ensures x.owner in c.replicas ==> x.owner in s.removed && x.owner !in s.stopped
  {
  }

  lemma HookKeepsHistory(c: Config, s: Down, s': Down, r: string, env: Env)
    requires History(c, s) && MissedDone(c, s') && KeptStays(c, s) && HookStep(c, s, s', r, env) && AtRelease(c, s, r)
    ensures History(c, s')
  {
    hide RunHook, GoesAnyway, FirstAtRemove, StrandedHolders, MissedDone;
    var h, ev := HookAt(c, s, r), EventAt(c, s, r);
    var res := RunHook(s.holders, ResourceOf(h, r), ev, h.events[ev], None, env);
    RecordAgrees(s.holders, ResourceOf(h, r), ev, h.events[ev], None, env);
    if s.done {
      DoneFails(s, s.holders, ResourceOf(h, r), ev, h.events[ev], None, env);
    }
    var run := s'.ran[|s.ran|];
    assert s'.ran == s.ran + [run] && run.record == res.record && run.verdict == res.verdict && run.cut == res.cut;
    NewRunOk(c, s, s', r, run, res);
    assert KeepsRuns(s, s');
    RunsStay(c, s, s');
  }

  /** The new run: unless the replica goes anyway, its failure ended the removal. */
  lemma NewRunOk(c: Config, s: Down, s': Down, r: string, run: ReleaseRun, res: HookResult)
    requires AtRelease(c, s, r) && KeptStays(c, s) && MissedDone(c, s) && (s.phase.Removing? ==> r !in s.removed)
    requires s' == RunsHook(c, s, r, res) && run == s'.ran[|s.ran|] && RecordOk(run)
    requires s.done ==> run.verdict.HookFailed?
    requires Failed(run) && !run.verdict.HookFailed? ==> Resolved(HookAt(c, s, r).events[EventAt(c, s, r)].onError) != Fail
    ensures RunOk(c, s', run)
  {
    hide RecordOk;
    var j := s.procs[r].next;
    if s.phase.Removing? && Failed(run) && (!run.verdict.HookFailed? || !s.procs[r].pre) {
      var hooks := HooksFor(c, r).value;
      if Missed(c, s, r) {
        assert FirstAtRemoveAt(hooks, run.id.key, j);
      } else {
        assert GoesAnywayAt(hooks, run.id.key, j);
      }
    }
  }

  lemma RetryKeepsHistory(c: Config, s: Down, s': Down, x: ResId, env: Env)
    requires History(c, s) && MissedDone(c, s') && RetryStep(c, s, s', x, env)
    ensures History(c, s')
  {
    hide RunHook, Retried, Settle, LastRecord, GoesAnyway, FirstAtRemove, MissedDone;
    var h := LastRecord(s.recorder, x).value.holder;
    ReleaseAgrees(s.holders, x, h, c.force, env);
    assert KeepsRuns(s, s');
    RunsStay(c, s, s');
  }

  lemma ReleaseAgrees(holders: Holders, x: ResId, h: Holder, force: bool, env: Env)
    requires h.release.Some? && EnvOk(env)
    ensures var r := RunRelease(holders, x, h, force, env);
      && (r.cut ==> r.record.Some? && r.verdict.HookFailed? && r.record.value.onError != Fail)
      && (r.record.Some? ==> !r.record.value.retried)
      && (r.record.Some? && !r.cut ==> (r.verdict.HookFailed? <==> r.record.value.onError == Fail))
  {
    hide RunHook;
    var rel := h.release.value;
    var exec := Exec(rel.args, rel.onError);
    RecordAgrees(holders, Some(x), rel.event, if force then ForcedExec(exec) else exec, Some(h), env);
  }

  lemma DoneReleaseFails(s: Down, x: ResId, h: Holder, force: bool, env: Env)
    requires s.done && EnvAt(s, env) && h.release.Some?
    ensures RunRelease(s.holders, x, h, force, env).record.Some?
  {
    var rel := h.release.value;
    var exec := Exec(rel.args, rel.onError);
    DoneFails(s, s.holders, Some(x), rel.event, if force then ForcedExec(exec) else exec, Some(h), env);
  }

  lemma StrandedKeepsHistory(c: Config, s: Down, s': Down, x: ResId, env: Env)
    requires History(c, s) && MissedDone(c, s') && ReleaseStep(c, s, s', x, env)
    ensures History(c, s')
  {
    hide RunRelease, GoesAnyway, FirstAtRemove;
    if s.done {
      DoneReleaseFails(s, x, s.phase.stranded[x], c.force, env);
    }
    ReleaseAgrees(s.holders, x, s.phase.stranded[x], c.force, env);
    assert KeepsRuns(s, s');
    RunsStay(c, s, s');
  }

  lemma StopsReturnedKeepsHistory(c: Config, s: Down, s': Down, failed: seq<FailedRelease>, listed: Option<map<string, ReplicaState>>)
    requires History(c, s) && MissedDone(c, s') && StopsReturnedStep(c, s, s', failed, listed)
    ensures History(c, s')
  {
    hide RunOk, TakenOnce, MissedDone;
    assert KeepsRuns(s, s');
    RunsStay(c, s, s');
  }

  lemma StepKeepsHistory(c: Config, s: Down, s': Down, step: Step)
    requires History(c, s) && KeptStays(c, s) && NextBy(c, s, s', step)
    ensures History(c, s')
  {
    assert MissedDone(c, s);
    hide History, KeptStays, MissedDone, HooksFor, HookAt, EventAt, StopsReturnedStep, RetryStep, ReleaseStep, HookStep;
    StepKeepsMissed(c, s, s', step);
    if IsQuiet(c, s, step) {
      QuietKeepsHistory(c, s, s', step);
    } else {
      match step
      case RunNext(r, env) =>
        StepAtHook(c, s, s', r, env);
        HookKeepsHistory(c, s, s', r, env);
      case StopsReturned(failed, listed) => StopsReturnedKeepsHistory(c, s, s', failed, listed);
      case RunRetry(x, env) => RetryKeepsHistory(c, s, s', x, env);
      case RunStranded(x, env) => StrandedKeepsHistory(c, s, s', x, env);
    }
  }

  lemma {:induction false} RunHistory(c: Config, run: seq<Down>, i: nat)
    requires ConfigOk(c) && IsRun(c, run) && i < |run|
    ensures History(c, run[i])
  {
    hide History, NextBy, ConfigOk, Inv;
    if i == 0 {
      InitHistory(c);
    } else {
      RunHistory(c, run, i - 1);
      RunInv(c, run, i - 1);
      InvKept(c, run[i - 1]);
      assert Next(c, run[i - 1], run[i - 1 + 1]);
      var step :| NextBy(c, run[i - 1], run[i], step);
      StepKeepsHistory(c, run[i - 1], run[i], step);
    }
  }

  lemma InitHistory(c: Config)
    ensures History(c, InitState(c))
  {
  }

  lemma InvKept(c: Config, s: Down)
    requires Inv(c, s)
    ensures KeptStays(c, s)
  {
    hide Shapes, RetriesDue, StrandedDue, RecordsStand, HoldersConserved, KeptStays, OutcomesOnce;
  }

  // ---- What it says ----------------------------------------------------------

  lemma {:induction false} RunsOfMember(ran: seq<ReleaseRun>, x: ResId, i: nat)
    requires i < |RunsOf(ran, x)|
    ensures RunsOf(ran, x)[i] in ran && RunsOf(ran, x)[i].id == x
  {
    var init := ran[..|ran| - 1];
    if i < |RunsOf(init, x)| {
      RunsOfMember(init, x, i);
    }
  }

  lemma HistoryOf(c: Config, s: Down, x: ResId, i: nat)
    requires History(c, s) && i < |RunsOf(s.ran, x)|
    ensures RunOk(c, s, RunsOf(s.ran, x)[i]) && RunsOf(s.ran, x)[i].id == x
  {
    hide RunOk, RunsOf;
    RunsOfMember(s.ran, x, i);
    var k :| 0 <= k < |s.ran| && s.ran[k] == RunsOf(s.ran, x)[i];
  }

  /** A release that ran in a remove hook and as stranded after it shows such a
      configuration, and that the stop of the owner did not begin; when it should have,
      the stranded run failed as well. */
  lemma StrandedNeeds(c: Config, run: seq<Down>, i: nat, x: ResId)
    requires ConfigOk(c) && IsRun(c, run) && i < |run|
    requires StrandedAfterHook(c, x, RunsOf(run[i].ran, x))
    ensures CanRunTwice(c, x) && x.owner !in run[i].stopped
    ensures x.owner in c.stops ==> Failed(RunsOf(run[i].ran, x)[1])
  {
    hide IsRun, RunsOf, GoesAnyway, FirstAtRemove, HooksFor, RecordOk, AtStop, MissedDone;
    RunHistory(c, run, i);
    HistoryOf(c, run[i], x, 0);
    HistoryOf(c, run[i], x, 1);
  }
}
