/** The promises of the down job: one live run, safe removal, and what the answers
    to launches and lookups mean. */
module DownJobResults {
  import opened Wrappers
  import opened DownJob
  import opened DownJobRuns

  /** At most one run of the project's down is live. */
  lemma OneLiveRun(steps: seq<Step>, m: nat, n: nat)
    requires After(steps).Some?
    requires var s := After(steps).value;
      && m in s.monitors && s.monitors[m].Live? && n in s.monitors && s.monitors[n].Live?
    ensures m == n
  {
    hide LockInv, LockOwned, ProcInv, After;
    ReachedInv(steps);
  }

  /** A record goes only while no monitor holds its PID lock, and none of its
      monitors is live. */
  lemma RemovedUnmonitored(steps: seq<Step>, step: Step, id: nat)
    requires After(steps).Some? && Enabled(After(steps).value, step)
    requires var s := After(steps).value; IsRecord(s, id) && !IsRecord(Apply(s, step), id)
    ensures var s := After(steps).value;
      !MonitorHolds(s, id) && forall m :: m in s.monitors ==> !s.monitors[m].Live?
  {
    hide Inv, After;
    ReachedInv(steps);
    var s := After(steps).value;
    match step
    case Remove(p, works) =>
      InvLock(s, p);
      NoneLive(s, id);
    case Leftover(p, works) =>
      InvLock(s, p);
      NoneLive(s, id);
      HiddenUnmonitored(s);
    case Create(p, works) =>
      InvLock(s, p);
    case _ =>
  }

  /** No monitor belongs to a record that never was visible. */
  lemma HiddenUnmonitored(s: Job)
    requires Inv(s) && s.record.Some? && !s.record.value.visible
    ensures !MonitorHolds(s, s.record.value.id)
  {
    hide KnowsRecord, Locked, PidHeld;
  }

  /** A record whose run ended and began no earlier than req, by the second. */
  predicate AnswersRequest(r: Record, req: nat) {
    (r.state.Exited? || r.state.Failed?) && RanSince(r, req)
  }

  /** A run that began after the request answers it, and one that answers it began
      less than a second before. */
  lemma RanSinceMeans(r: Record, req: nat)
    ensures var stamp := if r.startedAt.Some? then r.startedAt.value else r.createdAt;
      && (stamp >= req ==> RanSince(r, req))
      && (RanSince(r, req) ==> stamp + TICKS > req)
  {
    var stamp := if r.startedAt.Some? then r.startedAt.value else r.createdAt;
    if stamp >= req {
      SecondMonotone(req, stamp);
    }
    assert stamp < (Second(stamp) + 1) * TICKS && Second(req) * TICKS <= req;
    assert req < (Second(req) + 1) * TICKS && Second(stamp) * TICKS <= stamp;
  }

  lemma SecondMonotone(a: nat, b: nat)
    requires a <= b
    ensures Second(a) <= Second(b)
  {
  }

  /** A launch decides to reuse the record it finds. */
  lemma FindAnswers(s: Job, p: nat, id: nat)
    requires Enabled(s, Find(p)) && At(DoFind(s, p), p) == Some(Answered(Reused(id)))
    ensures s.procs[p].LFind? && IsRecord(s, id)
    ensures MonitorHolds(s, id) || (Listed(s).Some? && AnswersRequest(Listed(s).value, s.procs[p].req))
  {
    hide RanSince;
  }

  /** Or it finds its PID lock held. */
  lemma TryPidAnswers(s: Job, p: nat, id: nat)
    requires Inv(s) && Enabled(s, TryPid(p)) && At(DoTryPid(s, p), p) == Some(Answered(Reused(id)))
    ensures s.procs[p].LTryPid? && IsRecord(s, id) && MonitorHolds(s, id)
  {
    InvLock(s, p);
    hide LockInv, LockOwned, PidInv, MonitorInv, ProcInv, KnowsRecord;
    HeldByMonitor(s, p, id);
    assert KnowsRecord(s.record, s.procs[p]) ==> IsRecord(s, id) by {
      KnownRecord(s.record, s.procs[p]);
    }
  }

  predicate Reuses(x: Proc) {
    x.Answered? && x.answer.Reused?
  }

  /** The process that steps moves on to a point that is no such answer. */
  predicate NoReuse(s: Job, t: Job, q: nat) {
    q in t.procs && t.procs == s.procs[q := t.procs[q]] && !Reuses(t.procs[q])
  }

  lemma CreatesReuseNothing(s: Job, step: Step)
    requires Enabled(s, step)
    requires step.Create? || step.FinishCreate? || step.Leftover? || step.Start? || step.AwaitStart? || step.Remove?
    ensures NoReuse(s, Apply(s, step), step.p)
  {
  }

  lemma ReadsReuseNothing(s: Job, step: Step)
    requires Enabled(s, step)
    requires step.Confirm? || step.TryLock? || step.Check? || step.Conclude? || step.Crash? || step.Arrive? || step.Acquire?
    ensures NoReuse(s, Apply(s, step), step.p)
  {
    hide Listed;
  }

  lemma MonitorsReuseNothing(s: Job, step: Step)
    requires Enabled(s, step) && IsMonitorStep(step)
    ensures Apply(s, step).procs == s.procs
  {
  }

  /** No other step answers so. */
  lemma OnlyTheseReuse(s: Job, step: Step, p: nat)
    requires Enabled(s, step) && p in s.procs && !s.procs[p].Answered? && step != Find(p) && step != TryPid(p)
    ensures p in Apply(s, step).procs && !Reuses(Apply(s, step).procs[p])
  {
    hide Apply, Enabled;
    if IsMonitorStep(step) {
      MonitorsReuseNothing(s, step);
    } else if step.Find? || step.TryPid? {
      OthersStay(s, step);
    } else if step.Create? || step.FinishCreate? || step.Leftover? || step.Start? || step.AwaitStart? || step.Remove? {
      CreatesReuseNothing(s, step);
    } else {
      ReadsReuseNothing(s, step);
    }
  }

  lemma OthersStay(s: Job, step: Step)
    requires Enabled(s, step) && (step.Find? || step.TryPid?)
    ensures step.p in Apply(s, step).procs && Apply(s, step).procs == s.procs[step.p := Apply(s, step).procs[step.p]]
  {
    hide Listed, RanSince;
  }

  /** A launch that starts nothing returns the project's record: one whose monitor
      holds its PID lock, or one that ran since the request. */
  lemma ReuseAnswers(steps: seq<Step>, step: Step, p: nat, id: nat)
    requires After(steps).Some? && Enabled(After(steps).value, step)
    requires var s := After(steps).value;
      p in s.procs && !s.procs[p].Answered? && At(Apply(s, step), p) == Some(Answered(Reused(id)))
    ensures var s := After(steps).value;
      && (s.procs[p].LFind? || s.procs[p].LTryPid?)
      && IsRecord(s, id)
      && (MonitorHolds(s, id) || (Listed(s).Some? && AnswersRequest(Listed(s).value, s.procs[p].req)))
  {
    hide Inv, After, DoFind, DoTryPid, Listed;
    ReachedInv(steps);
    var s := After(steps).value;
    if step == Find(p) {
      FindAnswers(s, p, id);
    } else if step == TryPid(p) {
      TryPidAnswers(s, p, id);
    } else {
      OnlyTheseReuse(s, step, p);
    }
  }

  lemma KnownRecord(r: Option<Record>, x: Proc)
    ensures x.LTryPid? && KnowsRecord(r, x) ==> HasId(r, x.id)
  {
  }

  /** The process behind the lock that holds no PID lock finds one held by monitors
      alone. */
  lemma HeldByMonitor(s: Job, p: nat, id: nat)
    requires Inv(s) && s.lock == Some(p) && p in s.procs && PidHeld(s.procs[p]).None?
    ensures id in s.pids ==> s.pids[id].ByMonitor?
  {
    hide KnowsRecord;
  }

  // ---- A record that never ran ----------------------------------------------

  /** The record under id was never run, and nothing is under way that would run
      it. */
  ghost predicate Forgotten(s: Job, id: nat) {
    && id < s.nextId
    && (IsRecord(s, id) ==> s.record.value.state.Created?)
    && (forall m :: m in s.monitors && s.monitors[m].id == id ==> s.monitors[m].Gone?)
    && (forall p :: p in s.procs ==> !Starts(s.procs[p], id))
  }

  predicate Starts(x: Proc, id: nat) {
    match x
    case LCreating(_, i, _) => i == id
    case LStart(_, i) => i == id
    case _ => false
  }

  lemma ListedForgotten(s: Job, id: nat)
    requires Forgotten(s, id)
    ensures Forgotten(ListedState(s), id)
  {
  }

  lemma ForgottenMonitors(s: Job, step: Step, id: nat)
    requires Inv(s) && Forgotten(s, id) && Enabled(s, step) && IsMonitorStep(step) && !step.StartElsewhere?
    ensures Forgotten(Apply(s, step), id)
  {
    hide LockInv, LockOwned, PidInv, ProcInv, Starts;
  }

  lemma ForgottenCreates(s: Job, step: Step, id: nat)
    requires Inv(s) && Forgotten(s, id) && Enabled(s, step)
    requires step.Start? || step.Create? || step.FinishCreate?
    ensures Forgotten(Apply(s, step), id)
  {
    hide LockInv, LockOwned, PidInv, Listed;
    match step
    case Start(p, m, works) =>
      assert !Starts(s.procs[p], id);
    case FinishCreate(p, works) =>
      assert !Starts(s.procs[p], id);
      assert KnowsRecord(s.record, s.procs[p]);
    case _ =>
  }

  lemma ForgottenReads(s: Job, step: Step, id: nat)
    requires Forgotten(s, id) && Enabled(s, step)
    requires step.Find? || step.Confirm? || step.Check?
    ensures Forgotten(Apply(s, step), id)
  {
    ListedForgotten(s, id);
    hide Listed, ListedState;
    ListedElsewhere(s);
  }

  lemma ListedElsewhere(s: Job)
    ensures ListedState(s) == s.(record := ListedState(s).record)
  {
  }

  lemma ForgottenProcs(s: Job, step: Step, id: nat)
    requires Forgotten(s, id) && Enabled(s, step) && !IsMonitorStep(step)
    requires !step.Start? && !step.Create? && !step.FinishCreate? && !step.Find? && !step.Confirm? && !step.Check?
    ensures Forgotten(Apply(s, step), id)
  {
  }

  /** Only a start from elsewhere can change that. */
  lemma ForgottenStays(s: Job, step: Step, id: nat)
    requires Inv(s) && Forgotten(s, id) && Enabled(s, step) && !step.StartElsewhere?
    ensures Forgotten(Apply(s, step), id)
  {
    hide Inv, Forgotten, Apply, Enabled;
    if IsMonitorStep(step) {
      ForgottenMonitors(s, step, id);
    } else if step.Start? || step.Create? || step.FinishCreate? {
      ForgottenCreates(s, step, id);
    } else if step.Find? || step.Confirm? || step.Check? {
      ForgottenReads(s, step, id);
    } else {
      ForgottenProcs(s, step, id);
    }
  }

  lemma {:induction false} ForgottenForGood(steps: seq<Step>, more: seq<Step>, id: nat)
    requires After(steps).Some? && Forgotten(After(steps).value, id)
    requires After(steps + more).Some? && forall i :: 0 <= i < |more| ==> !more[i].StartElsewhere?
    ensures Forgotten(After(steps + more).value, id)
  {
    hide Forgotten, Inv, Apply, Enabled;
    if more == [] {
      assert steps + more == steps;
    } else {
      var init, last := more[..|more| - 1], more[|more| - 1];
      assert (steps + more)[..|steps + more| - 1] == steps + init;
      ForgottenForGood(steps, init, id);
      ReachedInv(steps + init);
      ForgottenStays(After(steps + init).value, last, id);
    }
  }

  predicate Pending(s: Job, id: nat) {
    exists m :: m in s.monitors && s.monitors[m].id == id && !s.monitors[m].Gone?
  }

  /** A record the lookup finds created behind the lock is forgotten exactly when no
      monitor is pending for it. */
  lemma CheckedIsForgotten(s: Job, p: nat, id: nat)
    requires Inv(s) && Enabled(s, Check(p)) && s.procs[p] == KCheck(id) && DoCheck(s, p).procs[p] == KTryPid(id)
    ensures Forgotten(DoCheck(s, p), id) <==> !Pending(s, id)
  {
    hide PidInv;
    var t := DoCheck(s, p);
    assert t.monitors == s.monitors;
    forall q | q in t.procs
      ensures !Starts(t.procs[q], id)
    {
      assert Locked(s.procs[q]) <==> s.lock == Some(q);
      assert Locked(s.procs[p]);
    }
  }

  /** What a lookup reports as never run does not run later either, when no monitor
      was pending at its check, and nobody starts the record from elsewhere. */
  lemma NeverRanHolds(steps: seq<Step>, p: nat, id: nat, more: seq<Step>, m: nat)
    requires After(steps).Some? && Enabled(After(steps).value, Check(p))
    requires var s := After(steps).value;
      s.procs[p] == KCheck(id) && DoCheck(s, p).procs[p] == KTryPid(id) && !Pending(s, id)
    requires After(steps + [Check(p)] + more).Some? && forall i :: 0 <= i < |more| ==> !more[i].StartElsewhere?
    ensures var t := After(steps + [Check(p)] + more).value;
      && (IsRecord(t, id) ==> t.record.value.state.Created?)
      && (m in t.monitors && t.monitors[m].id == id ==> !t.monitors[m].Live?)
  {
    hide Inv, DoCheck, After, Forgotten, Pending;
    ReachedInv(steps);
    CheckedIsForgotten(After(steps).value, p, id);
    AfterSnoc(steps, Check(p));
    ForgottenForGood(steps + [Check(p)], more, id);
    ForgottenMeans(After(steps + [Check(p)] + more).value, id, m);
  }

  lemma ForgottenMeans(s: Job, id: nat, m: nat)
    requires Forgotten(s, id)
    ensures IsRecord(s, id) ==> s.record.value.state.Created?
    ensures m in s.monitors && s.monitors[m].id == id ==> !s.monitors[m].Live?
  {
  }

  lemma AfterSnoc(steps: seq<Step>, step: Step)
    requires After(steps).Some? && Enabled(After(steps).value, step)
    ensures After(steps + [step]) == Some(Apply(After(steps).value, step))
  {
    hide Apply, Enabled;
    assert (steps + [step])[..|steps|] == steps;
  }

  // ---- When the answer is wrong ---------------------------------------------

  /** These steps lead on to t, none of them a start from elsewhere. */
  ghost predicate Leads(steps: seq<Step>, more: seq<Step>, t: Job) {
    After(steps + more) == Some(t) && forall i :: 0 <= i < |more| ==> !more[i].StartElsewhere?
  }

  lemma LeadsOn(steps: seq<Step>, more: seq<Step>, t: Job, step: Step)
    requires Leads(steps, more, t) && Enabled(t, step) && !step.StartElsewhere?
    ensures Leads(steps, more + [step], Apply(t, step))
  {
    hide Apply, Enabled;
    assert steps + (more + [step]) == (steps + more) + [step];
    AfterSnoc(steps + more, step);
  }

  predicate SaysNeverRan(t: Job, p: nat, id: nat) {
    At(t, p) == Some(Answered(FoundJob(id, true)))
  }

  predicate SomeLive(t: Job, id: nat) {
    exists m :: m in t.monitors && t.monitors[m] == Live(id)
  }

  predicate SomeSpawned(t: Job, id: nat) {
    exists m :: m in t.monitors && t.monitors[m] == Spawned(id)
  }

  predicate HasRun(t: Job, id: nat) {
    SomeLive(t, id) || (IsRecord(t, id) && !t.record.value.state.Created?)
  }

  /** The lookup p is at its check behind the lock, and finds the record created. */
  ghost predicate AtCheck(steps: seq<Step>, p: nat, id: nat) {
    && After(steps).Some?
    && var s := After(steps).value;
       Enabled(s, Check(p)) && s.procs[p] == KCheck(id) && DoCheck(s, p).procs[p] == KTryPid(id)
  }

  lemma CheckedRecord(s: Job, p: nat, id: nat)
    requires Inv(s) && Enabled(s, Check(p)) && s.procs[p] == KCheck(id) && DoCheck(s, p).procs[p] == KTryPid(id)
    ensures DoCheck(s, p) == Go(s, p, KTryPid(id)) && IsRecord(s, id) && id < s.nextId
    ensures p in s.procs && s.lock == Some(p) && PidHeld(s.procs[p]).None?
  {
    assert Locked(s.procs[p]);
  }

  /** From the check, once nobody holds the PID lock: the lookup answers that the
      record never ran. */
  lemma AnswersNeverRan(steps: seq<Step>, more: seq<Step>, t: Job, p: nat, id: nat)
    requires Leads(steps, more, t) && At(t, p) == Some(KTryPid(id)) && id !in t.pids
    ensures Leads(steps, more + [TryPid(p)] + [Conclude(p)],
                  t.(lock := None, pids := t.pids[id := ByProc(p)] - {id}, procs := t.procs[p := KHeld(id)][p := Answered(FoundJob(id, true))]))
  {
    LeadsOn(steps, more, t, TryPid(p));
    LeadsOn(steps, more + [TryPid(p)], Apply(t, TryPid(p)), Conclude(p));
  }

  /** A spawned monitor that finds the PID lock free and the record there is live in
      two steps. */
  lemma SpawnedGoesLive(steps: seq<Step>, more: seq<Step>, t: Job, m: nat, id: nat) returns (t': Job)
    requires Leads(steps, more, t) && m in t.monitors && t.monitors[m] == Spawned(id) && id !in t.pids && IsRecord(t, id)
    ensures Leads(steps, more + [Take(m)] + [CheckRecord(m)], t')
    ensures t'.procs == t.procs && m in t'.monitors && t'.monitors[m] == Live(id)
  {
    hide Leads;
    LeadsOn(steps, more, t, Take(m));
    var u := Apply(t, Take(m));
    LeadsOn(steps, more + [Take(m)], u, CheckRecord(m));
    t' := Apply(u, CheckRecord(m));
  }

  /** Should a monitor hold the PID lock, it can die. */
  lemma HolderDies(steps: seq<Step>, t: Job, m: nat, id: nat) returns (more: seq<Step>, t': Job)
    requires Leads(steps, [], t) && m in t.monitors && t.monitors[m] == Spawned(id)
    requires id in t.pids ==> t.pids[id].ByMonitor? && t.pids[id].m in t.monitors
                              && t.monitors[t.pids[id].m].id == id && !t.monitors[t.pids[id].m].Spawned? && !t.monitors[t.pids[id].m].Gone?
    ensures Leads(steps, more, t') && id !in t'.pids
    ensures t'.procs == t.procs && t'.record == t.record && t'.now == t.now && m in t'.monitors && t'.monitors[m] == Spawned(id)
  {
    hide Leads;
    more, t' := [], t;
    if id in t.pids {
      var h := t.pids[id].m;
      LeadsOn(steps, more, t, MonitorDies(h));
      assert [] + [MonitorDies(h)] == [MonitorDies(h)];
      more, t' := [MonitorDies(h)], Apply(t, MonitorDies(h));
    }
  }

  lemma PidHolder(s: Job, id: nat)
    requires Inv(s) && id in s.pids && s.pids[id].ByMonitor?
    ensures var h := s.pids[id].m; h in s.monitors && s.monitors[h].id == id && !s.monitors[h].Spawned? && !s.monitors[h].Gone?
  {
    hide KnowsRecord, Locked, PidHeld;
  }

  lemma LeadsNowhere(steps: seq<Step>)
    requires After(steps).Some?
    ensures Leads(steps, [], After(steps).value)
  {
    assert steps + [] == steps;
  }

  /** A monitor spawned for the record at the check can run it after the answer;
      should another monitor hold the PID lock, it dies first. */
  lemma SpawnedRunsLater(steps: seq<Step>, p: nat, id: nat, m: nat) returns (more: seq<Step>, t: Job)
    requires AtCheck(steps, p, id)
    requires var s := After(steps).value; m in s.monitors && s.monitors[m] == Spawned(id)
    ensures Leads(steps + [Check(p)], more, t) && SaysNeverRan(t, p, id) && SomeLive(t, id)
  {
    hide Inv, After, Leads, DoCheck, Enabled;
    var s := After(steps).value;
    ReachedInv(steps);
    CheckedRecord(s, p, id);
    AfterChecked(steps, p, id);
    LeadsNowhere(steps + [Check(p)]);
    HeldByMonitor(s, p, id);
    if id in s.pids {
      PidHolder(s, id);
    }
    more, t := HolderDies(steps + [Check(p)], Go(s, p, KTryPid(id)), m, id);
    AnswersNeverRan(steps + [Check(p)], more, t, p, id);
    more := more + [TryPid(p)] + [Conclude(p)];
    t := t.(lock := None, pids := t.pids[id := ByProc(p)] - {id}, procs := t.procs[p := KHeld(id)][p := Answered(FoundJob(id, true))]);
    var t' := SpawnedGoesLive(steps + [Check(p)], more, t, m, id);
    more, t := more + [Take(m)] + [CheckRecord(m)], t';
  }

  /** A monitor that holds the PID lock runs the record to its end in two steps. */
  lemma HolderEnds(steps: seq<Step>, t: Job, h: nat, id: nat) returns (more: seq<Step>, t': Job)
    requires Leads(steps, [], t) && IsRecord(t, id)
    requires h in t.monitors && (t.monitors[h] == Holding(id) || t.monitors[h] == Live(id))
    ensures Leads(steps, more, t')
    ensures t'.procs == t.procs && id !in t'.pids && IsRecord(t', id) && t'.record.value.state == Exited
  {
    hide Leads;
    more, t' := [], t;
    if t.monitors[h].Holding? {
      LeadsOn(steps, more, t', CheckRecord(h));
      more, t' := more + [CheckRecord(h)], Apply(t', CheckRecord(h));
    }
    LeadsOn(steps, more, t', End(h, false));
    more, t' := more + [End(h, false)], Apply(t', End(h, false));
  }

  /** A monitor that holds the PID lock at the check can run the record to its end
      before the lookup tries that lock. */
  lemma HolderRunsBetween(steps: seq<Step>, p: nat, id: nat, h: nat) returns (more: seq<Step>, t: Job)
    requires AtCheck(steps, p, id)
    requires var s := After(steps).value; h in s.monitors && (s.monitors[h] == Holding(id) || s.monitors[h] == Live(id))
    ensures Leads(steps + [Check(p)], more, t) && SaysNeverRan(t, p, id) && HasRun(t, id)
  {
    hide Inv, After, Leads, DoCheck, Enabled;
    var s := After(steps).value;
    ReachedInv(steps);
    CheckedRecord(s, p, id);
    AfterChecked(steps, p, id);
    LeadsNowhere(steps + [Check(p)]);
    more, t := HolderEnds(steps + [Check(p)], Go(s, p, KTryPid(id)), h, id);
    AnswersNeverRan(steps + [Check(p)], more, t, p, id);
    more := more + [TryPid(p)] + [Conclude(p)];
    t := t.(lock := None, pids := t.pids[id := ByProc(p)] - {id}, procs := t.procs[p := KHeld(id)][p := Answered(FoundJob(id, true))]);
  }

  /** No monitor is on its way to the record, and once the lookup p has tried its PID
      lock none is left. */
  ghost predicate NoneComing(s: Job, p: nat, id: nat) {
    && id < s.nextId
    && (forall m :: m in s.monitors && s.monitors[m].id == id ==> !s.monitors[m].Spawned?)
    && (forall q :: q in s.procs ==> !Starts(s.procs[q], id))
    && (At(s, p) == Some(KHeld(id)) || SaysNeverRan(s, p, id) ==>
          forall m :: m in s.monitors && s.monitors[m].id == id ==> s.monitors[m].Gone?)
  }

  lemma NoneComingMonitors(s: Job, step: Step, p: nat, id: nat)
    requires Inv(s) && NoneComing(s, p, id) && Enabled(s, step) && IsMonitorStep(step) && !step.StartElsewhere?
    ensures NoneComing(Apply(s, step), p, id)
  {
    hide LockInv, LockOwned, PidInv, ProcInv, Starts;
  }

  lemma NoneComingCreates(s: Job, step: Step, p: nat, id: nat)
    requires Inv(s) && NoneComing(s, p, id) && Enabled(s, step)
    requires step.Start? || step.Create? || step.FinishCreate?
    ensures NoneComing(Apply(s, step), p, id)
  {
    hide LockInv, LockOwned, PidInv, Listed;
    match step
    case Start(q, m, works) =>
      assert !Starts(s.procs[q], id);
    case FinishCreate(q, works) =>
      assert !Starts(s.procs[q], id);
      assert KnowsRecord(s.record, s.procs[q]);
    case _ =>
  }

  /** A process moves to a point where it neither starts the record nor has tried its
      PID lock, and nothing else that matters changes. */
  ghost predicate MovesOn(s: Job, t: Job, q: nat, id: nat) {
    && t.monitors == s.monitors && t.nextId == s.nextId
    && q in t.procs && t.procs == s.procs[q := t.procs[q]]
    && !Starts(t.procs[q], id) && !t.procs[q].KHeld?
    && (t.procs[q].Answered? && t.procs[q].answer.FoundJob? ==> !t.procs[q].answer.neverRan)
  }

  lemma FindMoves(s: Job, q: nat, id: nat)
    requires Enabled(s, Find(q))
    ensures MovesOn(s, DoFind(s, q), q, id)
  {
    hide Listed, RanSince;
  }

  lemma LockMoves(s: Job, q: nat, id: nat)
    requires Enabled(s, Confirm(q)) || Enabled(s, TryLock(q)) || Enabled(s, Check(q))
    ensures Enabled(s, Confirm(q)) ==> MovesOn(s, DoConfirm(s, q), q, id)
    ensures Enabled(s, TryLock(q)) ==> MovesOn(s, DoTryLock(s, q), q, id)
    ensures Enabled(s, Check(q)) ==> MovesOn(s, DoCheck(s, q), q, id)
  {
    hide Listed;
  }

  /** Any other process only moves itself. */
  lemma ProcsMove(s: Job, step: Step, id: nat) returns (q: nat)
    requires Enabled(s, step) && !IsMonitorStep(step) && !step.TryPid? && !step.Conclude?
    requires !step.Start? && !step.Create? && !step.FinishCreate?
    ensures MovesOn(s, Apply(s, step), q, id)
  {
    hide Listed, RanSince, DoFind, DoConfirm, DoTryLock, DoCheck;
    match step
    case Arrive(r, lookup) => q := r;
    case Acquire(r) => q := r;
    case Find(r) => q := r; FindMoves(s, q, id);
    case Remove(r, works) => q := r;
    case Leftover(r, works) => q := r;
    case AwaitStart(r, works) => q := r;
    case Confirm(r) => q := r; LockMoves(s, q, id);
    case TryLock(r) => q := r; LockMoves(s, q, id);
    case Check(r) => q := r; LockMoves(s, q, id);
    case Crash(r) => q := r;
  }

  lemma NoneComingPid(s: Job, q: nat, p: nat, id: nat)
    requires Inv(s) && NoneComing(s, p, id) && Enabled(s, TryPid(q))
    ensures NoneComing(DoTryPid(s, q), p, id)
  {
    hide LockInv, LockOwned, ProcInv, MonitorInv;
  }

  lemma NoneComingAnswer(s: Job, q: nat, p: nat, id: nat)
    requires NoneComing(s, p, id) && Enabled(s, Conclude(q))
    ensures NoneComing(DoConclude(s, q), p, id)
  {
  }

  lemma ApplyPid(s: Job, step: Step)
    requires Enabled(s, step)
    ensures step.TryPid? ==> Apply(s, step) == DoTryPid(s, step.p)
    ensures step.Conclude? ==> Apply(s, step) == DoConclude(s, step.p)
  {
    hide DoTryPid, DoConclude;
  }

  lemma NoneComingProcs(s: Job, step: Step, p: nat, id: nat)
    requires Inv(s) && NoneComing(s, p, id) && Enabled(s, step) && !IsMonitorStep(step)
    requires !step.Start? && !step.Create? && !step.FinishCreate?
    ensures NoneComing(Apply(s, step), p, id)
  {
    hide Inv, Apply, Enabled, Starts;
    if step.TryPid? {
      NoneComingPid(s, step.p, p, id);
      ApplyPid(s, step);
    } else if step.Conclude? {
      NoneComingAnswer(s, step.p, p, id);
      ApplyPid(s, step);
    } else {
      var q := ProcsMove(s, step, id);
    }
  }

  lemma {:induction false} NoneComingStays(steps: seq<Step>, more: seq<Step>, p: nat, id: nat)
    requires After(steps).Some? && NoneComing(After(steps).value, p, id)
    requires After(steps + more).Some? && forall i :: 0 <= i < |more| ==> !more[i].StartElsewhere?
    ensures NoneComing(After(steps + more).value, p, id)
  {
    hide NoneComing, Inv, Apply, Enabled;
    if more == [] {
      assert steps + more == steps;
    } else {
      var init, last := more[..|more| - 1], more[|more| - 1];
      assert (steps + more)[..|steps + more| - 1] == steps + init;
      NoneComingStays(steps, init, p, id);
      ReachedInv(steps + init);
      var t := After(steps + init).value;
      if IsMonitorStep(last) {
        NoneComingMonitors(t, last, p, id);
      } else if last.Start? || last.Create? || last.FinishCreate? {
        NoneComingCreates(t, last, p, id);
      } else {
        NoneComingProcs(t, last, p, id);
      }
    }
  }

  lemma CheckedNoneComing(s: Job, p: nat, id: nat)
    requires Inv(s) && Enabled(s, Check(p)) && s.procs[p] == KCheck(id) && DoCheck(s, p).procs[p] == KTryPid(id)
    requires !SomeSpawned(s, id)
    ensures NoneComing(DoCheck(s, p), p, id)
  {
    hide PidInv;
    CheckedRecord(s, p, id);
    var t := DoCheck(s, p);
    forall q | q in t.procs
      ensures !Starts(t.procs[q], id)
    {
      assert Locked(s.procs[q]) <==> s.lock == Some(q);
    }
  }

  /** A lookup that finds the record created can answer that it never ran and be
      followed by a run of it, exactly when a monitor was spawned for it by then.
      Nobody starts the record from elsewhere. */
  lemma NeverRanThenRuns(steps: seq<Step>, p: nat, id: nat)
    requires AtCheck(steps, p, id)
    ensures (exists more, t :: Leads(steps + [Check(p)], more, t) && SaysNeverRan(t, p, id) && SomeLive(t, id)) <==>
            SomeSpawned(After(steps).value, id)
  {
    hide Inv, DoCheck, Enabled, Apply, NoneComing, SaysNeverRan;
    var s := After(steps).value;
    if SomeSpawned(s, id) {
      var m :| m in s.monitors && s.monitors[m] == Spawned(id);
      var more, t := SpawnedRunsLater(steps, p, id, m);
    } else {
      ReachedInv(steps);
      CheckedNoneComing(s, p, id);
      AfterChecked(steps, p, id);
      forall more, t | Leads(steps + [Check(p)], more, t) && SaysNeverRan(t, p, id)
        ensures !SomeLive(t, id)
      {
        NoneComingStays(steps + [Check(p)], more, p, id);
        NoneComingMeans(t, p, id);
      }
    }
  }

  lemma AfterChecked(steps: seq<Step>, p: nat, id: nat)
    requires AtCheck(steps, p, id)
    ensures After(steps + [Check(p)]) == Some(DoCheck(After(steps).value, p))
  {
    hide DoCheck, After, Enabled;
    AfterSnoc(steps, Check(p));
  }

  lemma NoneComingMeans(t: Job, p: nat, id: nat)
    requires NoneComing(t, p, id) && SaysNeverRan(t, p, id)
    ensures !SomeLive(t, id)
  {
  }

  /** The answer that a record never ran can be wrong, be it that the record has run
      by the answer or that it runs later, exactly when a monitor of the record is
      pending at the check. */
  lemma NeverRanWrong(steps: seq<Step>, p: nat, id: nat)
    requires AtCheck(steps, p, id)
    ensures (exists more, t :: Leads(steps + [Check(p)], more, t) && SaysNeverRan(t, p, id) && HasRun(t, id)) <==>
            Pending(After(steps).value, id)
  {
    hide Inv, DoCheck, Enabled, Apply, SaysNeverRan;
    var s := After(steps).value;
    if Pending(s, id) {
      var m :| m in s.monitors && s.monitors[m].id == id && !s.monitors[m].Gone?;
      if s.monitors[m].Spawned? {
        var more, t := SpawnedRunsLater(steps, p, id, m);
      } else {
        var more, t := HolderRunsBetween(steps, p, id, m);
      }
    } else {
      forall more, t | Leads(steps + [Check(p)], more, t)
        ensures !HasRun(t, id)
      {
        NeverRun(steps, p, id, more, t);
      }
    }
  }

  lemma NeverRun(steps: seq<Step>, p: nat, id: nat, more: seq<Step>, t: Job)
    requires AtCheck(steps, p, id) && !Pending(After(steps).value, id) && Leads(steps + [Check(p)], more, t)
    ensures !HasRun(t, id)
  {
    hide DoCheck, Enabled, Apply, Pending, After;
    forall m
      ensures m in t.monitors && t.monitors[m].id == id ==> !t.monitors[m].Live?
      ensures IsRecord(t, id) ==> t.record.value.state.Created?
    {
      NeverRanHolds(steps, p, id, more, m);
    }
  }

  // ---- A monitor still on its way -------------------------------------------

  /** A launch dies behind the monitor it spawned, and a lookup comes in between. */
  const TOO_SOON: seq<Step> := [
    Arrive(0, false), Acquire(0), Find(0), Create(0, true), FinishCreate(0, true), Start(0, 0, true), Crash(0),
    Arrive(1, true), Find(1), TryLock(1)
  ]

  function TooSoon(n: nat): Job {
    var made := Record(0, false, Created, 0, None);
    var seen := made.(visible := true);
    match n
    case 0 => InitState()
    case 1 => Job(0, None, None, 0, map[], map[], map[0 := LWait(0)])
    case 2 => Job(0, Some(0), None, 0, map[], map[], map[0 := LFind(0)])
    case 3 => Job(0, Some(0), None, 0, map[], map[], map[0 := LCreate(0, false)])
    case 4 => Job(0, Some(0), Some(made), 1, map[], map[], map[0 := LCreating(0, 0, false)])
    case 5 => Job(0, Some(0), Some(seen), 1, map[], map[], map[0 := LStart(0, 0)])
    case 6 => Job(0, Some(0), Some(seen), 1, map[], map[0 := Spawned(0)], map[0 := LStarting(0, 0)])
    case 7 => Job(0, None, Some(seen), 1, map[], map[0 := Spawned(0)], map[0 := Dead])
    case 8 => Job(0, None, Some(seen), 1, map[], map[0 := Spawned(0)], map[0 := Dead, 1 := KFind])
    case 9 => Job(0, None, Some(seen), 1, map[], map[0 := Spawned(0)], map[0 := Dead, 1 := KTryLock(0)])
    case _ => Job(0, Some(1), Some(seen), 1, map[], map[0 := Spawned(0)], map[0 := Dead, 1 := KCheck(0)])
  }

  lemma TooSoonLaunch(n: nat)
    requires n < 7
    ensures Enabled(TooSoon(n), TOO_SOON[n]) && Apply(TooSoon(n), TOO_SOON[n]) == TooSoon(n + 1)
  {
  }

  lemma TooSoonLookup(n: nat)
    requires 7 <= n < 10
    ensures Enabled(TooSoon(n), TOO_SOON[n]) && Apply(TooSoon(n), TOO_SOON[n]) == TooSoon(n + 1)
  {
  }

  lemma {:induction false} TooSoonSteps(n: nat)
    requires n <= 10
    ensures After(TOO_SOON[..n]) == Some(TooSoon(n))
  {
    hide Apply, Enabled, TooSoon;
    if n == 0 {
      TooSoonInit();
    } else {
      TooSoonSteps(n - 1);
      if n <= 7 {
        TooSoonLaunch(n - 1);
      } else {
        TooSoonLookup(n - 1);
      }
      AfterSnoc(TOO_SOON[..n - 1], TOO_SOON[n - 1]);
      assert TOO_SOON[..n] == TOO_SOON[..n - 1] + [TOO_SOON[n - 1]];
    }
  }

  lemma TooSoonInit()
    ensures After([]) == Some(TooSoon(0))
  {
  }

  /** The case arises: a lookup can come to its check with a spawned monitor still on
      its way, and its answer can then be followed by a run. */
  lemma NeverRanTooSoon()
    ensures AtCheck(TOO_SOON, 1, 0) && SomeSpawned(After(TOO_SOON).value, 0)
    ensures exists more, t :: Leads(TOO_SOON + [Check(1)], more, t) && SaysNeverRan(t, 1, 0) && SomeLive(t, 0)
  {
    TooSoonSteps(10);
    assert TOO_SOON[..10] == TOO_SOON;
    TooSoonChecks();
    NeverRanThenRuns(TOO_SOON, 1, 0);
  }

  lemma TooSoonChecks()
    ensures var s := TooSoon(10);
      Enabled(s, Check(1)) && s.procs[1] == KCheck(0) && DoCheck(s, 1).procs[1] == KTryPid(0) && SomeSpawned(s, 0)
  {
    assert TooSoon(10).monitors[0] == Spawned(0);
  }
}
