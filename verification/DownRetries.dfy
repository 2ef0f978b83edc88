/** Which failed releases a teardown runs once more: exactly those that are due when
    the stops have returned, each once, before any replica is removed. */
module DownRetries {
  import opened Wrappers
  import opened Lifecycle
  import opened ReleaseRecorder
  import opened HookRuns
  import opened ReleaseReport
  import opened DownProtocol
  import opened DownInvariant

  /** The failure on record for x copies its stored holder, and its owner is listed as
      exited, or as failed with an end its monitor recorded. */
  predicate Due(recorder: seq<FailedRelease>, listing: map<string, ReplicaState>, x: ResId) {
    && LastRecord(recorder, x).Some? && !LastRecord(recorder, x).value.reportOnly
    && x.owner in listing && (listing[x.owner] == HasExited || listing[x.owner] == HasFailed(false))
  }

  function RetryRuns(runs: seq<ReleaseRun>): nat {
    if runs == [] then 0
    else RetryRuns(runs[..|runs| - 1]) + if runs[|runs| - 1].source == Retry then 1 else 0
  }

  lemma RetryRunsSnoc(runs: seq<ReleaseRun>, run: ReleaseRun)
    ensures RetryRuns(runs + [run]) == RetryRuns(runs) + if run.source == Retry then 1 else 0
  {
    assert (runs + [run])[..|runs|] == runs;
  }

  /** The runs of retries of x that were made or are still to be made. */
  function Retries(s: Down, x: ResId): nat {
    RetryRuns(RunsOf(s.ran, x)) + if s.phase.Retrying? && x in s.phase.retries then 1 else 0
  }

  /** When the stops have returned, exactly what is due is to be retried; nothing is
      without a listing, as under a done context. */
  lemma DueWhenStopped(c: Config, s: Down, s': Down, failed: seq<FailedRelease>, listed: Option<map<string, ReplicaState>>, x: ResId)
    requires StopsReturnedStep(c, s, s', failed, listed)
    ensures s'.phase.Retrying? && s'.listing == (if listed.Some? then listed.value else map[])
    ensures x in s'.phase.retries <==> listed.Some? && Due(s.recorder, listed.value, x)
    ensures s.done ==> s'.phase.retries == {}
  {
    hide DistinctIds, AllOver;
    assert LastRecord(failed, x) == LastRecord(s.recorder, x);
    if LastRecord(failed, x).Some? {
      RecordHasId(failed, x);
    }
  }

  lemma NoRetriesYet(c: Config, s: Down, x: ResId)
    requires Inv(c, s) && s.phase.Stopping?
    ensures RetryRuns(RunsOf(s.ran, x)) == 0
  {
    hide RetriesDue, StrandedDue, RecordsStand, HoldersConserved, KeptStays, OutcomesOnce, SomeHookRan, RunsOf;
    assert ShapeOk(c, s, x, RunsOf(s.ran, x));
    var runs := RunsOf(s.ran, x);
    if |runs| == 1 {
      assert runs == [] + [runs[0]];
      RetryRunsSnoc([], runs[0]);
    }
  }

  lemma AppendsRun(s: Down, s': Down, run: ReleaseRun, x: ResId)
    requires s'.ran == s.ran + [run]
    ensures RetryRuns(RunsOf(s'.ran, x)) == RetryRuns(RunsOf(s.ran, x)) + if run.id == x && run.source == Retry then 1 else 0
  {
    hide RunsOf;
    RunsOfSnoc(s.ran, run, x);
    if run.id == x {
      RetryRunsSnoc(RunsOf(s.ran, x), run);
    } else {
      assert RunsOf(s.ran, x) + [] == RunsOf(s.ran, x);
    }
  }

  /** Behind the stops no step changes how many retries there are in all. */
  lemma StepKeepsRetries(c: Config, s: Down, s': Down, step: Step, x: ResId)
    requires NextBy(c, s, s', step) && !s.phase.Stopping?
    ensures Retries(s', x) == Retries(s, x) && !s'.phase.Stopping?
  {
    hide HooksFor, HookAt, EventAt, RunHook, RunRelease, StrandedHolders, AllOver, Retried, Settle, RunsOf, LastRecord, HookStep;
    if IsQuiet(c, s, step) {
      QuietEffect(c, s, s', step);
    } else {
      match step
      case RunNext(r, env) =>
        HookAppends(c, s, s', r, env, x);
      case RunRetry(y, env) =>
        AppendsRun(s, s', s'.ran[|s.ran|], x);
      case RunStranded(y, env) =>
        AppendsRun(s, s', s'.ran[|s.ran|], x);
    }
  }

  lemma HookAppends(c: Config, s: Down, s': Down, r: string, env: Env, x: ResId)
    requires HookStep(c, s, s', r, env) && !IsQuiet(c, s, RunNext(r, env))
    ensures RetryRuns(RunsOf(s'.ran, x)) == RetryRuns(RunsOf(s.ran, x)) && s'.phase == s.phase
  {
    hide HooksFor, HookAt, EventAt, RunHook, RunsOf;
    AppendsRun(s, s', s'.ran[|s.ran|], x);
  }

  lemma {:induction false} RetriesKept(c: Config, run: seq<Down>, i: nat, j: nat, x: ResId)
    requires IsRun(c, run) && i <= j < |run| && !run[i].phase.Stopping?
    ensures Retries(run[j], x) == Retries(run[i], x) && !run[j].phase.Stopping?
    decreases j
  {
    hide NextBy, Retries;
    if i < j {
      RetriesKept(c, run, i, j - 1, x);
      assert Next(c, run[j - 1], run[j - 1 + 1]);
      var step :| NextBy(c, run[j - 1], run[j], step);
      StepKeepsRetries(c, run[j - 1], run[j], step, x);
    }
  }

  /** The retries: whatever is due when the stops have returned runs exactly once as a
      retry before the removals begin, and nothing else does, then or later. */
  lemma RetriedExactlyDue(c: Config, run: seq<Down>, i: nat, j: nat, x: ResId)
    requires ConfigOk(c) && IsRun(c, run) && i < j < |run|
    requires run[i].phase.Stopping? && !run[i + 1].phase.Stopping? && Rank(run[j].phase) >= 2
    ensures RetryRuns(RunsOf(run[j].ran, x)) == if Due(run[i].recorder, run[i + 1].listing, x) then 1 else 0
  {
    hide ConfigOk, Inv, Due, RunsOf, Next, RetryRuns;
    RunInv(c, run, i);
    NoRetriesYet(c, run[i], x);
    assert Next(c, run[i], run[i + 1]);
    StopsReturn(c, run[i], run[i + 1], x);
    RetriesKept(c, run, i + 1, j, x);
  }

  lemma StopsReturn(c: Config, s: Down, s': Down, x: ResId)
    requires Next(c, s, s') && s.phase.Stopping? && !s'.phase.Stopping?
    ensures s'.ran == s.ran && s'.phase.Retrying?
    ensures x in s'.phase.retries <==> Due(s.recorder, s'.listing, x)
  {
    hide HooksFor, HookAt, EventAt, RunHook, RunRelease, StrandedHolders, AllOver, Retried, Settle, LastRecord, StopsReturnedStep, HookStep,
      Due;
    var step :| NextBy(c, s, s', step);
    match step
    case StopsReturned(failed, listed) =>
      DueWhenStopped(c, s, s', failed, listed, x);
      Unlisted(s.recorder, x);
      StopsReturnedRuns(c, s, s', failed, listed);
    case RunNext(r, env) =>
      HookPhase(c, s, s', r, env);
    case _ =>
  }

  lemma Unlisted(recorder: seq<FailedRelease>, x: ResId)
    ensures !Due(recorder, map[], x)
  {
  }

  lemma StopsReturnedRuns(c: Config, s: Down, s': Down, failed: seq<FailedRelease>, listed: Option<map<string, ReplicaState>>)
    requires StopsReturnedStep(c, s, s', failed, listed)
    ensures s'.ran == s.ran
  {
  }

  lemma HookPhase(c: Config, s: Down, s': Down, r: string, env: Env)
    requires HookStep(c, s, s', r, env)
    ensures s'.phase == s.phase
  {
    hide HooksFor, HookAt, EventAt, RunHook;
  }
}
