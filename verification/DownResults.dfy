/** What a teardown promises as a whole, over every run of it. */
module DownResults {
  import opened Wrappers
  import opened Lifecycle
  import opened ReleaseRecorder
  import opened HookRuns
  import opened ReleaseReport
  import opened DownProtocol
  import opened DownInvariant
  import opened DownHistory

  // ---- No release runs more than twice ---------------------------------------

  lemma ShapeAt(c: Config, run: seq<Down>, i: nat, x: ResId)
    requires ConfigOk(c) && IsRun(c, run) && i < |run|
    ensures ShapeOk(c, run[i], x, RunsOf(run[i].ran, x))
  {
    hide ShapeOk, RetriesDue, StrandedDue, RecordsStand, HoldersConserved, KeptStays, OutcomesOnce, ConfigOk, Next;
    RunInv(c, run, i);
  }

  /** In one teardown the release of a resource runs at most twice. It runs twice
      when its first run failed in a stop hook, with a readable holder and a replica
      listed as verifiably stopped; or when it failed in a remove hook and ran as
      stranded after it, in a configuration that allows it. */
  lemma RunsAtMostTwice(c: Config, run: seq<Down>, i: nat, x: ResId)
    requires ConfigOk(c) && IsRun(c, run) && i < |run|
    ensures var runs := RunsOf(run[i].ran, x);
      && |runs| <= 2
      && (|runs| == 2 ==> RetriedOnce(run[i], x, runs) || (StrandedAfterHook(c, x, runs) && CanRunTwice(c, x)))
      && (|runs| == 2 && !CanRunTwice(c, x) ==> RetriedOnce(run[i], x, runs))
  {
    hide IsRun, ConfigOk, RunsOf, SomeHookRan, AtStop, CanRunTwice;
    ShapeAt(c, run, i, x);
    if StrandedAfterHook(c, x, RunsOf(run[i].ran, x)) {
      StrandedNeeds(c, run, i, x);
    }
  }

  // ---- Holders --------------------------------------------------------------

  /** A holder leaves the store only after its release worked, or failed under
      ignore; and no holder changes. */
  lemma HoldersLeaveReleased(c: Config, run: seq<Down>, i: nat, x: ResId)
    requires ConfigOk(c) && IsRun(c, run) && i < |run| && x in c.holders
    ensures var s := run[i];
      && (x in s.holders ==> s.holders[x] == c.holders[x])
      && (x !in s.holders ==> exists k :: 0 <= k < |s.ran| && s.ran[k].id == x && Disposed(s.ran[k]))
  {
    hide Shapes, RetriesDue, StrandedDue, RecordsStand, KeptStays, OutcomesOnce, ConfigOk, Next, Disposed;
    RunInv(c, run, i);
  }

  // ---- The report -----------------------------------------------------------

  /** The last run of the release failed. */
  predicate LastFailed(runs: seq<ReleaseRun>) {
    runs != [] && Failed(runs[|runs| - 1])
  }

  /** The failure that stands is that of the last run, when that run failed, or of a
      remove hook's run, when a stranded one worked behind it. */
  lemma StandingIsLastFailure(c: Config, s: Down, x: ResId, runs: seq<ReleaseRun>)
    requires ShapeOk(c, s, x, runs) && forall i :: 0 <= i < |runs| ==> RecordOk(runs[i])
    ensures Standing(runs).Some? <==> LastFailed(runs) || StrandedAfterHook(c, x, runs)
    ensures LastFailed(runs) ==>
              && Standing(runs).value.err == runs[|runs| - 1].record.value.err
              && Standing(runs).value.onError == runs[|runs| - 1].record.value.onError
              && (Standing(runs).value.retried <==> runs[|runs| - 1].source.Retry?)
  {
    hide SomeHookRan, AtStop, StoresRelease;
    if |runs| == 1 {
      assert runs == [] + [runs[0]];
      StandingSnoc([], runs[0]);
    } else if |runs| == 2 {
      assert runs == [runs[0]] + [runs[1]] && [runs[0]] == [] + [runs[0]];
      StandingSnoc([], runs[0]);
      StandingSnoc([runs[0]], runs[1]);
    }
  }

  /** The reported releases of a teardown that ended: what addUnreleased makes of
      the outcomes and the recorded failures. */
  ghost predicate Reported(s: Down, out: seq<ReleaseOutcome>) {
    s.phase.Ended? && Reports(s.outcomes, SortFailures(s.recorder), out)
  }

  ghost predicate ReportedFailed(out: seq<ReleaseOutcome>, x: ResId) {
    exists o :: o in out && o.holder == Some(x) && FailureIn(o)
  }

  /** How the failure of a run is reported: with the error of that run, as an error
      exactly when the run ended its operation, unless it was cut in between, and
      else as a warning; marked when it was the retry. */
  predicate ReportsRun(o: ReleaseOutcome, x: ResId, last: ReleaseRun)
    requires Failed(last)
  {
    var err := Some(last.record.value.err);
    && o.holder == Some(x)
    && (if last.verdict.HookFailed? && !last.cut then o.err == err && o.warning.None? else o.warning == err && o.err.None?)
    && (o.retried <==> last.source.Retry?)
  }

  /** Every release whose last run failed is reported exactly once, by that run.
      Beyond these, only a release that worked as stranded behind a failed run of
      another event is reported as failed, in a configuration that allows it. */
  lemma FailuresReportedOnce(c: Config, run: seq<Down>, out: seq<ReleaseOutcome>, x: ResId)
    requires ConfigOk(c) && IsRun(c, run) && Reported(run[|run| - 1], out)
    ensures var runs := RunsOf(run[|run| - 1].ran, x);
      && HoldersOnce(out)
      && (ReportedFailed(out, x) <==> LastFailed(runs) || StrandedAfterHook(c, x, runs))
      && (!CanMisreport(c, x) ==> (ReportedFailed(out, x) <==> LastFailed(runs)))
      && (LastFailed(runs) ==> exists o :: o in out && ReportsRun(o, x, runs[|runs| - 1]))
  {
    hide ConfigOk, Next, Shapes, RetriesDue, StrandedDue, HoldersConserved, KeptStays, SortFailures, Reports, Standing, StrandedAfterHook,
      RetriedOnce, History, CanRunTwice, RunOk, RunsOf, LastRecord, ShapeOk;
    var s := run[|run| - 1];
    var runs := RunsOf(s.ran, x);
    RunInv(c, run, |run| - 1);
    ShapeAt(c, run, |run| - 1, x);
    RunHistory(c, run, |run| - 1);
    forall i | 0 <= i < |runs|
      ensures RecordOk(runs[i])
    {
      HistoryOf(c, s, x, i);
      RecordIsOk(c, s, runs[i]);
    }
    StandingIsLastFailure(c, s, x, runs);
    if StrandedAfterHook(c, x, runs) {
      StrandedNeeds(c, run, |run| - 1, x);
      TwoRuns(c, x, runs);
    }
    SortLast(s.recorder, x);
    assert LastRecord(s.recorder, x) == Standing(runs);
    ReportOf(s.outcomes, SortFailures(s.recorder), out, x);
    OutcomesFail(s, x);
    if Standing(runs).Some? {
      var o := OutcomeOf(Standing(runs).value);
      RecordHasId(s.recorder, x);
      assert o in out && o.holder == Some(x) && FailureIn(o);
    }
  }

  lemma TwoRuns(c: Config, x: ResId, runs: seq<ReleaseRun>)
    requires StrandedAfterHook(c, x, runs)
    ensures |runs| == 2
  {
  }

  lemma RecordIsOk(c: Config, s: Down, run: ReleaseRun)
    requires RunOk(c, s, run)
    ensures RecordOk(run)
  {
    hide RemoveRunOk, StrandedRunOk, RecordOk;
  }

  lemma OutcomesFail(s: Down, x: ResId)
    requires OutcomesOnce(s)
    ensures forall o :: o in s.outcomes && o.holder == Some(x) && FailureIn(o) ==> LastRecord(s.recorder, x).Some?
  {
  }

  /** What the report holds of x. */
  lemma ReportOf(before: seq<ReleaseOutcome>, failed: seq<FailedRelease>, out: seq<ReleaseOutcome>, x: ResId)
    requires Reports(before, failed, out)
    ensures HoldersOnce(out)
    ensures LastRecord(failed, x).Some? ==> OutcomeOf(LastRecord(failed, x).value) in out
    ensures LastRecord(failed, x).None? ==> forall o :: o in out && o.holder == Some(x) ==> o in before
  {
    hide LastRecord;
    if LastRecord(failed, x).Some? {
      assert HasOutcome(out, OutcomeOf(LastRecord(failed, x).value));
    } else {
      forall o | o in out && o.holder == Some(x)
        ensures o in before
      {
        var i :| 0 <= i < |out| && out[i] == o;
        if i < |before| {
          BeforeKept(before, failed, out, i);
        }
      }
    }
  }

  // ---- Kept replicas --------------------------------------------------------

  /** A replica kept by a failed stop hook is never removed. */
  lemma KeptNeverRemoved(c: Config, run: seq<Down>, i: nat, j: nat, r: string)
    requires ConfigOk(c) && IsRun(c, run) && i <= j < |run| && r in run[i].kept
    ensures r in run[j].kept && r !in run[j].removed
  {
    hide Shapes, RetriesDue, StrandedDue, RecordsStand, HoldersConserved, OutcomesOnce, ConfigOk, Next;
    KeptGrows(c, run, i, j);
    RunInv(c, run, j);
  }

  lemma {:induction false} KeptGrows(c: Config, run: seq<Down>, i: nat, j: nat)
    requires IsRun(c, run) && i <= j < |run|
    ensures run[i].kept <= run[j].kept
    decreases j
  {
    hide NextBy;
    if i < j {
      KeptGrows(c, run, i, j - 1);
      assert Next(c, run[j - 1], run[j - 1 + 1]);
      var step :| NextBy(c, run[j - 1], run[j], step);
      StepKeepsKept(c, run[j - 1], run[j], step);
    }
  }

  lemma StepKeepsKept(c: Config, s: Down, s': Down, step: Step)
    requires NextBy(c, s, s', step)
    ensures s.kept <= s'.kept
  {
    hide HooksFor, HookAt, EventAt, RunHook, RunRelease, AllOver, StrandedHolders, Retried, Settle;
  }

  // ---- Force ----------------------------------------------------------------

  lemma StepKeepsDone(c: Config, s: Down, s': Down, step: Step)
    requires NextBy(c, s, s', step) && s.done
    ensures s'.done
  {
    hide HooksFor, HookAt, EventAt, RunHook, RunRelease, AllOver, StrandedHolders, Retried, Settle;
  }

  /** A forced teardown that is not cancelled keeps no replica, but one whose stored
      entry does not name it. */
  lemma {:induction false} ForceKeepsNone(c: Config, run: seq<Down>, i: nat, r: string)
    requires ConfigOk(c) && c.force && IsRun(c, run) && i < |run| && !run[i].done && r in run[i].kept
    ensures r !in c.replicas || c.replicas[r].NoReplica?
  {
    hide NextBy, ConfigOk;
    if i > 0 {
      assert Next(c, run[i - 1], run[i - 1 + 1]);
      var step :| NextBy(c, run[i - 1], run[i], step);
      if run[i - 1].done {
        StepKeepsDone(c, run[i - 1], run[i], step);
      } else if r in run[i - 1].kept {
        ForceKeepsNone(c, run, i - 1, r);
      } else {
        ForcedStepKeepsNone(c, run[i - 1], run[i], step, r);
      }
    }
  }

  lemma ForcedStepKeepsNone(c: Config, s: Down, s': Down, step: Step, r: string)
    requires c.force && NextBy(c, s, s', step) && !s'.done && r in s'.kept && r !in s.kept
    ensures r !in c.replicas || c.replicas[r].NoReplica?
  {
    hide RunHook, RunRelease, AllOver, StrandedHolders, Retried, Settle, ForcedHooks;
    match step
    case RunNext(q, env) =>
      ForcedAt(c, s, q, env);
    case _ =>
  }

  lemma ForcedAt(c: Config, s: Down, q: string, env: Env)
    requires c.force && AtHook(c, s, q)
    ensures var h, ev := HookAt(c, s, q), EventAt(c, s, q);
      ev in h.events ==>
        var res := RunHook(s.holders, ResourceOf(h, q), ev, h.events[ev], None, env); res.verdict.HookFailed? ==> res.done
  {
    var h, ev := HookAt(c, s, q), EventAt(c, s, q);
    if ev in h.events {
      assert Resolved(h.events[ev].onError) != Fail;
      ForcedFailsOnlyCancelled(s.holders, ResourceOf(h, q), ev, h.events[ev], None, env);
    }
  }
}
