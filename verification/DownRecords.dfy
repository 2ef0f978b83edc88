/** What a failed release is recorded and reported with: the holder as it was stored
    when the teardown began. */
module DownRecords {
  import opened Wrappers
  import opened Naming
  import opened Lifecycle
  import opened ReleaseRecorder
  import opened HookRuns
  import opened ReleaseReport
  import opened DownProtocol
  import opened DownInvariant
  import opened DownResults

  /** The holder of x was stored and readable, with this value. */
  predicate Stores(c: Config, x: ResId, value: string) {
    x in c.holders && c.holders[x].Readable? && c.holders[x].holder.value == value
  }

  /** The failure is on record with a copy of the stored holder, its release included if
      it stores one. Without a copy it can only be reported, with the value of a holder
      that cannot be read, or none. */
  predicate RecordKept(c: Config, f: FailedRelease) {
    && f.holder.release.Some?
    && (if f.reportOnly then f.holder.value == "" || (f.id in c.holders && c.holders[f.id] == Unreadable(f.holder.value))
        else Stores(c, f.id, f.holder.value) && (c.holders[f.id].holder.release.Some? ==> f.holder == c.holders[f.id].holder))
  }

  ghost predicate RecordsKept(c: Config, s: Down) {
    && (forall x :: LastRecord(s.recorder, x).Some? ==> RecordKept(c, LastRecord(s.recorder, x).value))
    && (forall o :: o in s.outcomes && o.holder.Some? ==> Stores(c, o.holder.value, o.value))
  }

  /** The record of a run that works from the store, or from a given copy of what is
      stored. */
  lemma RunRecordKept(c: Config, s: Down, id: ResId, ev: LifecycleEvent, exec: Exec, given: Option<Holder>, env: Env)
    requires HoldersConserved(c, s)
    requires given.Some? ==> id in c.holders && c.holders[id] == Readable(given.value)
    ensures var r := RunHook(s.holders, Some(id), ev, exec, given, env).record; r.Some? ==> r.value.id == id && RecordKept(c, r.value)
  {
    hide SomeDisposed, RunHook;
    if RunHook(s.holders, Some(id), ev, exec, given, env).record.Some? {
      RecordMeans(s.holders, id, ev, exec, given, env);
    }
  }

  lemma AppendKept(c: Config, s: Down, s': Down, record: Option<FailedRelease>)
    requires RecordsKept(c, s) && s'.recorder == s.recorder + RecordSeq(record) && (record.Some? ==> RecordKept(c, record.value))
    requires forall o :: o in s'.outcomes && o.holder.Some? ==> Stores(c, o.holder.value, o.value)
    ensures RecordsKept(c, s')
  {
    hide LastRecord, RecordKept, Stores;
    forall x | LastRecord(s'.recorder, x).Some?
      ensures RecordKept(c, LastRecord(s'.recorder, x).value)
    {
      if record.Some? {
        LastRecordSnoc(s.recorder, record.value, x);
      } else {
        assert s'.recorder == s.recorder;
      }
    }
  }

  lemma HookKeepsRecords(c: Config, s: Down, s': Down, r: string, env: Env)
    requires RecordsKept(c, s) && HoldersConserved(c, s) && HookStep(c, s, s', r, env)
    ensures RecordsKept(c, s')
  {
    hide HooksFor, HookAt, EventAt, RunHook, HoldersConserved, RecordsKept, RecordKept, EnvAt;
    var h, ev := HookAt(c, s, r), EventAt(c, s, r);
    if ev !in h.events {
      Untouched(c, s, s');
    } else {
      var res := RunHook(s.holders, ResourceOf(h, r), ev, h.events[ev], None, env);
      if ResourceOf(h, r).Some? {
        RunRecordKept(c, s, ResourceOf(h, r).value, ev, h.events[ev], None, env);
      } else {
        NoRecord(s.holders, ev, h.events[ev], env);
      }
      SameOutcomes(c, s);
      AppendKept(c, s, s', res.record);
    }
  }

  lemma NoRecord(holders: Holders, ev: LifecycleEvent, exec: Exec, env: Env)
    ensures RunHook(holders, None, ev, exec, None, env).record.None?
  {
  }

  lemma SameOutcomes(c: Config, s: Down)
    requires RecordsKept(c, s)
    ensures forall o :: o in s.outcomes && o.holder.Some? ==> Stores(c, o.holder.value, o.value)
  {
  }

  lemma Untouched(c: Config, s: Down, s': Down)
    requires RecordsKept(c, s) && s'.recorder == s.recorder
    requires s'.outcomes == s.outcomes || forall o :: o in s'.outcomes ==> o.holder.None?
    ensures RecordsKept(c, s')
  {
  }

  lemma ReleaseKeepsRecords(c: Config, s: Down, s': Down, x: ResId, env: Env)
    requires RecordsKept(c, s) && HoldersConserved(c, s) && StrandedDue(c, s) && ReleaseStep(c, s, s', x, env)
    ensures RecordsKept(c, s')
  {
    hide RunHook, HoldersConserved, RecordsKept, RecordKept, EnvAt, RunsOf;
    var h := s.phase.stranded[x];
    var rel := h.release.value;
    var exec := if c.force then ForcedExec(Exec(rel.args, rel.onError)) else Exec(rel.args, rel.onError);
    RunRecordKept(c, s, x, rel.event, exec, Some(h), env);
    SameOutcomes(c, s);
    AppendKept(c, s, s', RunHook(s.holders, Some(x), rel.event, exec, Some(h), env).record);
  }

  lemma RetryKeepsRecords(c: Config, s: Down, s': Down, x: ResId, env: Env)
    requires RecordsKept(c, s) && RetryStep(c, s, s', x, env)
    ensures RecordsKept(c, s')
  {
    hide RunRelease, Settle, EnvAt, Retried, LastRecord, RecordKept;
    var f := LastRecord(s.recorder, x).value;
    var now := Retried(f, c.force, env);
    RetriedMeans(f, c.force, env);
    OutcomeTells(s.recorder, x);
    assert now.Some? ==> RecordKept(c, now.value) by { SameHolder(c, f, now); }
    forall y
      ensures LastRecord(s'.recorder, y) == if y == x then now else LastRecord(s.recorder, y)
    {
      SettleLast(s.recorder, x, now, y);
    }
  }

  lemma SameHolder(c: Config, f: FailedRelease, now: Option<FailedRelease>)
    requires RecordKept(c, f)
    requires now.Some? ==> now.value == f.(err := now.value.err, onError := now.value.onError, retried := true)
    ensures now.Some? ==> RecordKept(c, now.value)
  {
  }

  lemma QuietOutcomes(c: Config, s: Down, s': Down, step: Step)
    requires NextBy(c, s, s', step) && IsQuiet(c, s, step)
    ensures s'.outcomes == s.outcomes || forall o :: o in s'.outcomes ==> o.holder.None?
  {
    hide HooksFor, HookAt, EventAt, RunHook, RunRelease, AllOver, StrandedHolders;
  }

  lemma StepKeepsRecords(c: Config, s: Down, s': Down, step: Step)
    requires RecordsKept(c, s) && HoldersConserved(c, s) && StrandedDue(c, s) && NextBy(c, s, s', step)
    ensures RecordsKept(c, s')
  {
    hide RecordsKept, HoldersConserved, StrandedDue, HookStep, RetryStep, ReleaseStep;
    match step
    case RunNext(r, env) => HookKeepsRecords(c, s, s', r, env);
    case RunRetry(x, env) => RetryKeepsRecords(c, s, s', x, env);
    case RunStranded(x, env) => ReleaseKeepsRecords(c, s, s', x, env);
    case StopsReturned(failed, listed) => TakenKeepsRecords(c, s, s', failed);
    case _ =>
      QuietEffect(c, s, s', step);
      QuietOutcomes(c, s, s', step);
      Untouched(c, s, s');
  }

  lemma TakenKeepsRecords(c: Config, s: Down, s': Down, failed: seq<FailedRelease>)
    requires RecordsKept(c, s) && TakenOnce(s.recorder, failed) && s'.recorder == failed && s'.outcomes == s.outcomes
    ensures RecordsKept(c, s')
  {
    hide LastRecord, RecordKept, Stores, DistinctIds;
  }

  lemma {:induction false} RunKeepsRecords(c: Config, run: seq<Down>, i: nat)
    requires ConfigOk(c) && IsRun(c, run) && i < |run|
    ensures RecordsKept(c, run[i])
  {
    hide RecordsKept, ConfigOk, NextBy, Inv;
    if i == 0 {
      InitKept(c);
    } else {
      RunKeepsRecords(c, run, i - 1);
      RunInv(c, run, i - 1);
      InvHolders(c, run[i - 1]);
      assert Next(c, run[i - 1], run[i - 1 + 1]);
      var step :| NextBy(c, run[i - 1], run[i], step);
      StepKeepsRecords(c, run[i - 1], run[i], step);
    }
  }

  lemma InitKept(c: Config)
    ensures RecordsKept(c, InitState(c))
  {
  }

  lemma InvHolders(c: Config, s: Down)
    requires Inv(c, s)
    ensures HoldersConserved(c, s) && StrandedDue(c, s)
  {
    hide Shapes, RetriesDue, StrandedDue, RecordsStand, HoldersConserved, KeptStays, OutcomesOnce;
  }

  /** A release is reported with the value its holder had when the teardown began. Only
      a failure without a readable holder is reported with the value of one that cannot
      be read, or with none. */
  lemma ReportedValue(c: Config, run: seq<Down>, out: seq<ReleaseOutcome>, o: ReleaseOutcome, x: ResId)
    requires ConfigOk(c) && IsRun(c, run) && Reported(run[|run| - 1], out) && o in out && o.holder == Some(x)
    ensures (x in c.holders && c.holders[x].Readable? && o.value == c.holders[x].holder.value)
            || (&& LastRecord(run[|run| - 1].recorder, x).Some? && LastRecord(run[|run| - 1].recorder, x).value.reportOnly
                && (o.value == "" || (x in c.holders && c.holders[x] == Unreadable(o.value))))
  {
    hide Next, ConfigOk, Reports, LastRecord, SortFailures, TellsOf;
    var s := run[|run| - 1];
    RunKeepsRecords(c, run, |run| - 1);
    ReportsTell(s.outcomes, SortFailures(s.recorder), out);
    SortLast(s.recorder, x);
    OutcomeTells(s.recorder, x);
    if o !in s.outcomes {
      TellsValue(o, LastRecord(s.recorder, x).value);
    }
  }

  lemma TellsValue(o: ReleaseOutcome, f: FailedRelease)
    requires TellsOf(o, f)
    ensures o.value == f.holder.value
  {
  }
}
