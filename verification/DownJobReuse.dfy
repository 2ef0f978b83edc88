/** When a launch must answer with the record it finds, and when it can remove the
    record of a run that began since its request. */
module DownJobReuse {
  import opened Wrappers
  import opened DownJob
  import opened DownJobRuns
  import opened DownJobResults

  // ---- The decision ---------------------------------------------------------

  /** A down is under way for the record: a monitor holds its PID lock. */
  predicate UnderWay(s: Job, r: Record) {
    (r.state == Starting || r.state == Running) && r.id in s.pids && s.pids[r.id].ByMonitor?
  }

  /** The run of the record is over: it ended, or its monitor is gone. */
  predicate RunOver(s: Job, r: Record) {
    r.state == Exited || r.state == Failed || ((r.state == Starting || r.state == Running) && !UnderWay(s, r))
  }

  /** The record answers a launch asked for at req: its run is under way, or is over
      and began no earlier than req, by the second. Its creation stands in for a start
      stamp it does not have. */
  predicate AnswersLaunch(s: Job, r: Record, req: nat) {
    UnderWay(s, r) || (RunOver(s, r) && (if r.startedAt.Some? then r.startedAt.value else r.createdAt) / 1000 >= req / 1000)
  }

  /** A launch behind the lock creates a record when it finds none, answers with the
      one it finds when that answers it, and else, and only then, goes on to remove
      it. The record stays, read as failed when its monitor is gone. */
  lemma LaunchDecides(s: Job, p: nat, req: nat)
    requires At(s, p) == Some(LFind(req))
    ensures s.record.None? || !s.record.value.visible ==> DoFind(s, p) == s.(procs := s.procs[p := LCreate(req, false)])
    ensures s.record.Some? && s.record.value.visible ==>
      var r := s.record.value;
      DoFind(s, p) == s.(
        record := Some(if r.state.Starting? || r.state.Running? then (if UnderWay(s, r) then r else r.(state := Failed)) else r),
        procs := s.procs[p := if AnswersLaunch(s, r, req) then Answered(Reused(r.id)) else LTryPid(req, r.id)],
        lock := if AnswersLaunch(s, r, req) then None else s.lock)
  {
  }

  /** On the way to the removal, a PID lock that is held is still an answer. */
  lemma RemovalDecides(s: Job, p: nat, req: nat, id: nat)
    requires At(s, p) == Some(LTryPid(req, id))
    ensures DoTryPid(s, p) ==
            if id in s.pids then s.(procs := s.procs[p := Answered(Reused(id))], lock := None)
            else s.(procs := s.procs[p := LRemove(req, id)], pids := s.pids[id := ByProc(p)])
  {
  }

  /** A lookup answers with the record it finds, and looks closer at a created one. */
  lemma LookupDecides(s: Job, p: nat)
    requires At(s, p) == Some(KFind)
    ensures s.record.None? || !s.record.value.visible ==> At(DoFind(s, p), p) == Some(Answered(FoundNone))
    ensures s.record.Some? && s.record.value.visible ==>
      var id := s.record.value.id;
      At(DoFind(s, p), p) == Some(if s.record.value.state == Created then KTryLock(id) else Answered(FoundJob(id, false)))
  {
  }

  // ---- Times ----------------------------------------------------------------

  function Request(x: Proc): nat {
    match x
    case LWait(req) => req
    case LFind(req) => req
    case LTryPid(req, _) => req
    case LRemove(req, _) => req
    case _ => 0
  }

  /** Requests are past, a created record has no start stamp, and a live monitor's
      record is starting or running. */
  ghost predicate Times(s: Job) {
    && (forall p :: p in s.procs ==> Request(s.procs[p]) <= s.now)
    && (s.record.Some? && s.record.value.state.Created? ==> s.record.value.startedAt.None?)
    && (forall m :: m in s.monitors && s.monitors[m].Live? ==>
          s.record.Some? && (s.record.value.state.Starting? || s.record.value.state.Running?))
  }

  lemma MonitorsKeepTimes(s: Job, step: Step)
    requires Inv(s) && Times(s) && IsMonitorStep(step) && Enabled(s, step)
    ensures Times(Apply(s, step))
  {
    hide LockInv, LockOwned, ProcInv, KnowsRecord, Locked, PidHeld, Request;
  }

  /** The listing reads no record of a live monitor as failed. */
  lemma ListedTimes(s: Job)
    requires Inv(s) && Times(s)
    ensures Times(ListedState(s)) && ListedState(s) == s.(record := ListedState(s).record)
  {
    hide LockInv, LockOwned, ProcInv, KnowsRecord, Locked, PidHeld, Request;
  }

  /** A process moves with its request, and neither makes a record nor has it run. */
  ghost predicate TimelyMove(s: Job, t: Job, p: nat) {
    && t.now == s.now && t.monitors == s.monitors
    && p in t.procs && t.procs == s.procs[p := t.procs[p]]
    && Request(t.procs[p]) <= s.now
    && (t.record.Some? && t.record != s.record ==> t.record.value.startedAt.None? || t.record == ListedState(s).record)
    && (t.record != s.record && t.record != ListedState(s).record ==> forall m :: m in s.monitors ==> !s.monitors[m].Live?)
  }

  lemma MoveKeepsTimes(s: Job, t: Job, p: nat)
    requires Inv(s) && Times(s) && TimelyMove(s, t, p)
    ensures Times(t)
  {
    ListedTimes(s);
    hide Inv, ListedState, Request;
  }

  lemma FindTimely(s: Job, p: nat)
    requires Times(s) && Enabled(s, Find(p))
    ensures TimelyMove(s, DoFind(s, p), p)
  {
    hide Listed, RanSince;
    assert Request(s.procs[p]) <= s.now;
    ListedElsewhere(s);
  }

  lemma ChecksTimely(s: Job, p: nat)
    requires Times(s)
    ensures Enabled(s, Confirm(p)) ==> TimelyMove(s, DoConfirm(s, p), p)
    ensures Enabled(s, Check(p)) ==> TimelyMove(s, DoCheck(s, p), p)
  {
    hide Listed;
    ListedElsewhere(s);
  }

  lemma LocksTimely(s: Job, step: Step)
    requires Times(s) && Enabled(s, step) && (step.TryLock? || step.TryPid?)
    ensures TimelyMove(s, Apply(s, step), step.p)
  {
    hide ListedState;
    assert Request(s.procs[step.p]) <= s.now;
  }

  lemma ReleasesTimely(s: Job, step: Step)
    requires Times(s) && Enabled(s, step) && (step.Conclude? || step.Crash?)
    ensures TimelyMove(s, Apply(s, step), step.p)
  {
    hide ListedState, Locked, PidHeld;
  }

  lemma ReadsTimely(s: Job, step: Step)
    requires Times(s) && Enabled(s, step)
    requires step.Find? || step.Confirm? || step.Check? || step.TryLock? || step.TryPid? || step.Conclude? || step.Crash?
    ensures TimelyMove(s, Apply(s, step), step.p)
  {
    hide Times, TimelyMove, DoFind, DoConfirm, DoCheck;
    match step
    case Find(p) => FindTimely(s, p);
    case Confirm(p) => ChecksTimely(s, p);
    case Check(p) => ChecksTimely(s, p);
    case TryLock(_) => LocksTimely(s, step);
    case TryPid(_) => LocksTimely(s, step);
    case _ => ReleasesTimely(s, step);
  }

  lemma WritesTimely(s: Job, step: Step)
    requires Inv(s) && Times(s) && Enabled(s, step)
    requires step.Arrive? || step.Acquire? || step.Remove? || step.Create? || step.FinishCreate? || step.Leftover? || step.Start? || step.AwaitStart?
    requires !step.Start?
    ensures TimelyMove(s, Apply(s, step), step.p)
  {
    hide Inv, ListedState;
    InvLock(s, step.p);
    assert step.p in s.procs ==> Request(s.procs[step.p]) <= s.now;
    if step.Remove? {
      NoneLive(s, s.procs[step.p].id);
    } else if !step.Arrive? && !step.Acquire? && !step.AwaitStart? && (s.record.None? || !s.record.value.visible) {
      NoneLive(s, 0);
      HiddenCreated(s);
    }
  }

  lemma HiddenCreated(s: Job)
    requires Inv(s)
    ensures s.record.Some? && !s.record.value.visible ==> s.record.value.state.Created?
  {
  }

  lemma StartTimely(s: Job, step: Step)
    requires Times(s) && Enabled(s, step) && step.Start?
    ensures Times(Apply(s, step))
  {
  }

  lemma StepKeepsTimes(s: Job, step: Step)
    requires Inv(s) && Times(s) && Enabled(s, step)
    ensures Times(Apply(s, step))
  {
    hide Inv, Times, Apply, Enabled;
    if IsMonitorStep(step) {
      MonitorsKeepTimes(s, step);
    } else if step.Start? {
      StartTimely(s, step);
    } else if step.Find? || step.Confirm? || step.Check? || step.TryLock? || step.TryPid? || step.Conclude? || step.Crash? {
      ReadsTimely(s, step);
      MoveKeepsTimes(s, Apply(s, step), step.p);
    } else {
      WritesTimely(s, step);
      MoveKeepsTimes(s, Apply(s, step), step.p);
    }
  }

  lemma {:induction false} ReachedTimes(steps: seq<Step>)
    requires After(steps).Some?
    ensures Times(After(steps).value)
  {
    hide Inv, Times, Apply, Enabled;
    if steps == [] {
      InitTimes();
    } else {
      var init := steps[..|steps| - 1];
      ReachedTimes(init);
      ReachedInv(init);
      StepKeepsTimes(After(init).value, steps[|steps| - 1]);
    }
  }

  lemma InitTimes()
    ensures Times(InitState())
  {
  }

  // ---- A run that began since the request -----------------------------------

  /** The launch p has found the record id, of a run that began no earlier than its
      request, and can remove it now. */
  predicate RemovesRunSince(t: Job, p: nat, id: nat) {
    && p in t.procs && t.procs[p].LRemove? && t.procs[p].id == id
    && IsRecord(t, id) && t.record.value.startedAt.Some? && t.record.value.startedAt.value >= t.procs[p].req
  }

  /** Before the point at which a launch has dealt with the record it found. */
  predicate Deciding(x: Proc) {
    x.LWait? || x.LFind? || x.LTryPid? || x.LRemove?
  }

  /** The run of the record id began before req, if at all, and no monitor is pending
      for it. */
  ghost predicate StaleRecord(s: Job, req: nat, id: nat) {
    && IsRecord(s, id)
    && (s.record.value.startedAt.Some? ==> s.record.value.startedAt.value < req)
    && forall m :: m in s.monitors && s.monitors[m].id == id ==> s.monitors[m].Gone?
  }

  /** The launch p is about to remove such a record, or is past that. */
  ghost predicate Stale(s: Job, p: nat, req: nat, id: nat) {
    && p in s.procs
    && (Deciding(s.procs[p]) ==> (s.procs[p] == LTryPid(req, id) || s.procs[p] == LRemove(req, id)) && StaleRecord(s, req, id))
  }

  lemma StaleMonitors(s: Job, step: Step, p: nat, req: nat, id: nat)
    requires Inv(s) && Stale(s, p, req, id) && Enabled(s, step) && IsMonitorStep(step) && !step.StartElsewhere?
    ensures Stale(Apply(s, step), p, req, id)
  {
    hide LockInv, LockOwned, PidInv, ProcInv;
  }

  /** A launch that has decided does not come back to it. */
  lemma DecidedOn(s: Job, step: Step)
    requires Enabled(s, step) && !IsMonitorStep(step) && step.p in s.procs && !Deciding(s.procs[step.p])
    ensures var t := Apply(s, step); step.p in t.procs && !Deciding(t.procs[step.p])
  {
    hide Listed, RanSince;
  }

  lemma OwnMove(s: Job, step: Step)
    requires Enabled(s, step) && !IsMonitorStep(step)
    ensures var t := Apply(s, step); step.p in t.procs && t.procs == s.procs[step.p := t.procs[step.p]]
  {
    hide Enabled, Apply, Reuses;
    if step.Find? || step.TryPid? {
      OthersStay(s, step);
    } else if step.Create? || step.FinishCreate? || step.Leftover? || step.Start? || step.AwaitStart? || step.Remove? {
      CreatesReuseNothing(s, step);
    } else {
      ReadsReuseNothing(s, step);
    }
  }

  /** What the launch itself does. */
  lemma StaleOwn(s: Job, step: Step, p: nat, req: nat, id: nat)
    requires Stale(s, p, req, id) && Enabled(s, step) && !IsMonitorStep(step) && step.p == p && Deciding(s.procs[p])
    ensures Stale(Apply(s, step), p, req, id)
  {
  }

  /** A process that is not behind the lock leaves the run of the record as it is. */
  lemma OutsideMoves(s: Job, step: Step)
    requires Enabled(s, step) && !IsMonitorStep(step) && (step.p in s.procs ==> !Locked(s.procs[step.p])) && s.lock.Some?
    ensures var t := Apply(s, step);
      && t.monitors == s.monitors && t.record.Some? == s.record.Some?
      && (s.record.Some? ==> t.record.value.id == s.record.value.id && t.record.value.startedAt == s.record.value.startedAt)
  {
    hide RanSince;
  }

  lemma StaleStays(s: Job, step: Step, p: nat, req: nat, id: nat)
    requires Inv(s) && Stale(s, p, req, id) && Enabled(s, step) && !step.StartElsewhere?
    ensures Stale(Apply(s, step), p, req, id)
  {
    hide Inv, Apply, Enabled;
    if IsMonitorStep(step) {
      StaleMonitors(s, step, p, req, id);
    } else if !Deciding(s.procs[p]) {
      OwnMove(s, step);
      if step.p == p {
        DecidedOn(s, step);
      }
    } else if step.p == p {
      StaleOwn(s, step, p, req, id);
    } else {
      OwnMove(s, step);
      Outside(s, p, step.p);
      OutsideMoves(s, step);
    }
  }

  lemma Outside(s: Job, p: nat, q: nat)
    requires Inv(s) && p in s.procs && Locked(s.procs[p]) && q != p
    ensures s.lock == Some(p) && (q in s.procs ==> !Locked(s.procs[q]))
  {
    hide KnowsRecord, Locked, PidHeld;
  }

  lemma {:induction false} StaleForGood(steps: seq<Step>, more: seq<Step>, p: nat, req: nat, id: nat)
    requires After(steps).Some? && Stale(After(steps).value, p, req, id)
    requires After(steps + more).Some? && forall i :: 0 <= i < |more| ==> !more[i].StartElsewhere?
    ensures Stale(After(steps + more).value, p, req, id)
  {
    hide Stale, Inv, Apply, Enabled;
    if more == [] {
      assert steps + more == steps;
    } else {
      var init, last := more[..|more| - 1], more[|more| - 1];
      assert (steps + more)[..|steps + more| - 1] == steps + init;
      StaleForGood(steps, init, p, req, id);
      ReachedInv(steps + init);
      StaleStays(After(steps + init).value, last, p, req, id);
    }
  }

  /** The launch p is at its decision, and finds the record id. */
  ghost predicate AtFind(steps: seq<Step>, p: nat, req: nat, id: nat) {
    && After(steps).Some?
    && var s := After(steps).value;
       At(s, p) == Some(LFind(req)) && IsRecord(s, id) && s.record.value.visible
  }

  lemma FoundStale(s: Job, p: nat, req: nat, id: nat)
    requires Times(s) && At(s, p) == Some(LFind(req)) && IsRecord(s, id) && s.record.value.visible
    requires AnswersLaunch(s, s.record.value, req) || !Pending(s, id)
    ensures Stale(DoFind(s, p), p, req, id)
  {
    hide DoFind;
    LaunchDecides(s, p, req);
    var r := s.record.value;
    if r.startedAt.Some? {
      EarlierSecond(r.startedAt.value, req);
    }
  }

  lemma EarlierSecond(a: nat, b: nat)
    ensures a / 1000 < b / 1000 ==> a < b
  {
  }

  /** A monitor that holds the PID lock runs the record, to its end. */
  lemma HoldingRuns(steps: seq<Step>, more: seq<Step>, s: Job, m: nat, id: nat) returns (more': seq<Step>, t: Job)
    requires Leads(steps, more, s) && IsRecord(s, id) && m in s.monitors && s.monitors[m] == Holding(id)
    ensures Leads(steps, more', t)
    ensures t.procs == s.procs && id !in t.pids && IsRecord(t, id) && t.record.value.startedAt == Some(s.now)
  {
    hide Leads;
    LeadsOn(steps, more, s, CheckRecord(m));
    t := DoCheckRecord(s, m);
    LeadsOn(steps, more + [CheckRecord(m)], t, Run(m));
    t := DoRun(t);
    LeadsOn(steps, more + [CheckRecord(m)] + [Run(m)], t, End(m, false));
    more', t := more + [CheckRecord(m)] + [Run(m)] + [End(m, false)], DoEnd(t, m, false);
  }

  /** A monitor that is not yet live runs the record, to its end. */
  lemma PendingRuns(steps: seq<Step>, s: Job, p: nat, id: nat) returns (more: seq<Step>, t: Job)
    requires Leads(steps, [], s) && Inv(s) && IsRecord(s, id) && Pending(s, id)
    requires s.lock == Some(p) && p in s.procs && PidHeld(s.procs[p]).None?
    requires !(exists m :: m in s.monitors && s.monitors[m] == Live(id))
    ensures Leads(steps, more, t)
    ensures t.procs == s.procs && id !in t.pids && IsRecord(t, id) && t.record.value.startedAt == Some(s.now)
  {
    hide Leads, Inv;
    var m :| m in s.monitors && s.monitors[m].id == id && !s.monitors[m].Gone?;
    more, t := [], s;
    HeldByMonitor(s, p, id);
    if s.monitors[m].Spawned? {
      if id in s.pids {
        PidHolder(s, id);
      }
      more, t := HolderDies(steps, s, m, id);
      LeadsOn(steps, more, t, Take(m));
      more, t := more + [Take(m)], DoTake(t, m);
    }
    more, t := HoldingRuns(steps, more, t, m, id);
  }

  /** A launch that does not answer with the record it finds can remove it although a
      run of it has begun since the request, exactly when a monitor of the record is
      pending at the decision: it runs between that and the try of the PID lock. A
      record that answers the launch is never removed by it. Nobody starts the record
      from elsewhere. */
  lemma RemovesRunSinceExactly(steps: seq<Step>, p: nat, req: nat, id: nat)
    requires AtFind(steps, p, req, id)
    ensures var s := After(steps).value;
      (exists more, t :: Leads(steps + [Find(p)], more, t) && RemovesRunSince(t, p, id)) <==>
      !AnswersLaunch(s, s.record.value, req) && Pending(s, id)
  {
    hide Inv, DoFind, Enabled, Apply, Times, Stale, Pending, AnswersLaunch, RemovesRunSince, After;
    var s := After(steps).value;
    ReachedInv(steps);
    ReachedTimes(steps);
    FindApplies(s, p, req);
    AfterSnoc(steps, Find(p));
    var u := DoFind(s, p);
    if AnswersLaunch(s, s.record.value, req) || !Pending(s, id) {
      FoundStale(s, p, req, id);
      forall more, t | Leads(steps + [Find(p)], more, t)
        ensures !RemovesRunSince(t, p, id)
      {
        StaleForGood(steps + [Find(p)], more, p, req, id);
        StaleMeans(t, p, req, id);
      }
    } else {
      var more, t := RunsBetween(steps, p, req, id);
    }
  }

  lemma FindApplies(s: Job, p: nat, req: nat)
    requires At(s, p) == Some(LFind(req))
    ensures Enabled(s, Find(p)) && Apply(s, Find(p)) == DoFind(s, p)
  {
    hide DoFind;
  }

  lemma StaleMeans(t: Job, p: nat, req: nat, id: nat)
    requires Stale(t, p, req, id)
    ensures !RemovesRunSince(t, p, id)
  {
  }

  lemma RunsBetween(steps: seq<Step>, p: nat, req: nat, id: nat) returns (more: seq<Step>, t: Job)
    requires AtFind(steps, p, req, id)
    requires var s := After(steps).value; !AnswersLaunch(s, s.record.value, req) && Pending(s, id)
    ensures Leads(steps + [Find(p)], more, t) && RemovesRunSince(t, p, id)
  {
    hide Inv, DoFind, Enabled, Apply, Times, After, Leads, Pending;
    var s := After(steps).value;
    ReachedInv(steps);
    ReachedTimes(steps);
    FindApplies(s, p, req);
    AfterSnoc(steps, Find(p));
    LeadsNowhere(steps + [Find(p)]);
    LaunchDecides(s, p, req);
    var u := DoFind(s, p);
    StepKeeps(s, Find(p));
    NotLive(s, id, req);
    TimesAt(s, p, req);
    InvLock(u, p);
    assert Pending(u, id) by { SamePending(s, u, id); }
    more, t := PendingRuns(steps + [Find(p)], u, p, id);
    TriesPid(steps + [Find(p)], more, t, p, req, id);
    more, t := more + [TryPid(p)], DoTryPid(t, p);
  }

  lemma SamePending(s: Job, u: Job, id: nat)
    requires u.monitors == s.monitors && Pending(s, id)
    ensures Pending(u, id)
  {
  }

  lemma TimesAt(s: Job, p: nat, req: nat)
    requires Times(s) && At(s, p) == Some(LFind(req))
    ensures req <= s.now
  {
    assert Request(s.procs[p]) <= s.now;
  }

  lemma NotLive(s: Job, id: nat, req: nat)
    requires Inv(s) && Times(s) && IsRecord(s, id) && !AnswersLaunch(s, s.record.value, req)
    ensures forall m :: m in s.monitors ==> s.monitors[m] != Live(id)
  {
    forall m | m in s.monitors
      ensures s.monitors[m] != Live(id)
    {
      LiveRecord(s, m);
    }
  }

  lemma TriesPid(steps: seq<Step>, more: seq<Step>, t: Job, p: nat, req: nat, id: nat)
    requires Leads(steps, more, t) && At(t, p) == Some(LTryPid(req, id)) && id !in t.pids
    ensures Leads(steps, more + [TryPid(p)], DoTryPid(t, p))
    ensures DoTryPid(t, p).record == t.record && At(DoTryPid(t, p), p) == Some(LRemove(req, id))
  {
    hide Leads;
    LeadsOn(steps, more, t, TryPid(p));
  }

  // ---- A launch that goes through -------------------------------------------

  lemma FreshPidFree(s: Job)
    requires Inv(s)
    ensures s.nextId !in s.pids
  {
    hide Locked;
    forall p | p in s.procs && PidHeld(s.procs[p]).Some?
      ensures PidHeld(s.procs[p]).value < s.nextId
    {
      assert KnowsRecord(s.record, s.procs[p]);
    }
  }

  lemma CreatesRecord(steps: seq<Step>, more: seq<Step>, s: Job, p: nat, req: nat) returns (more': seq<Step>, t: Job)
    requires Leads(steps, more, s) && p in s.procs && s.procs[p].LCreate? && s.procs[p].req == req && s.record.None?
    ensures Leads(steps, more', t) && At(t, p) == Some(LStart(req, s.nextId))
    ensures t.record == Some(Record(s.nextId, true, Created, s.now, None)) && t.now == s.now && t.pids == s.pids && t.monitors == s.monitors
  {
    hide Leads;
    LeadsOn(steps, more, s, Create(p, true));
    var u := DoCreate(s, p, true);
    LeadsOn(steps, more + [Create(p, true)], u, FinishCreate(p, true));
    more', t := more + [Create(p, true)] + [FinishCreate(p, true)], DoFinishCreate(u, p, true);
  }

  lemma MonitorComesUp(steps: seq<Step>, more: seq<Step>, s: Job, p: nat, req: nat, id: nat, m: nat) returns (more': seq<Step>, t: Job)
    requires Leads(steps, more, s) && At(s, p) == Some(LStart(req, id)) && m !in s.monitors && id !in s.pids
    requires s.record == Some(Record(id, true, Created, s.now, None))
    ensures Leads(steps, more', t) && At(t, p) == Some(LStarting(req, id)) && m in t.monitors && t.monitors[m] == Live(id)
    ensures t.record == Some(Record(id, true, Running, s.now, Some(s.now))) && id in t.pids && t.pids[id] == ByMonitor(m)
  {
    hide Leads;
    LeadsOn(steps, more, s, Start(p, m, true));
    t := DoStart(s, p, m, true);
    LeadsOn(steps, more + [Start(p, m, true)], t, Take(m));
    t := DoTake(t, m);
    LeadsOn(steps, more + [Start(p, m, true)] + [Take(m)], t, CheckRecord(m));
    t := DoCheckRecord(t, m);
    LeadsOn(steps, more + [Start(p, m, true)] + [Take(m)] + [CheckRecord(m)], t, Run(m));
    more', t := more + [Start(p, m, true)] + [Take(m)] + [CheckRecord(m)] + [Run(m)], DoRun(t);
  }

  lemma LaunchReports(steps: seq<Step>, more: seq<Step>, s: Job, p: nat, req: nat, id: nat) returns (more': seq<Step>, t: Job)
    requires Leads(steps, more, s) && At(s, p) == Some(LStarting(req, id)) && IsRecord(s, id) && s.record.value.visible
    requires s.record.value.state.Running? && id in s.pids && s.pids[id].ByMonitor?
    ensures Leads(steps, more', t) && At(t, p) == Some(Answered(Launched(id)))
    ensures t.record == s.record && t.pids == s.pids && t.monitors == s.monitors && t.lock.None?
  {
    hide Leads;
    LeadsOn(steps, more, s, AwaitStart(p, true));
    var u := DoAwaitStart(s, p, true);
    LeadsOn(steps, more + [AwaitStart(p, true)], u, Confirm(p));
    more', t := more + [AwaitStart(p, true)] + [Confirm(p)], DoConfirm(u, p);
  }

  /** The project has a down running: the record of the run, a monitor behind it, and
      its start stamp. */
  predicate RunsNow(t: Job, id: nat, m: nat, since: nat) {
    && t.record == Some(Record(id, true, Running, since, Some(since)))
    && m in t.monitors && t.monitors[m] == Live(id) && id in t.pids && t.pids[id] == ByMonitor(m)
  }

  /** A record that was never visible makes way on the second try. */
  lemma ClearsLeftover(steps: seq<Step>, more: seq<Step>, s: Job, p: nat, req: nat) returns (more': seq<Step>, t: Job)
    requires Leads(steps, more, s) && At(s, p) == Some(LCreate(req, false)) && s.record.Some?
    ensures Leads(steps, more', t) && At(t, p) == Some(LCreate(req, true)) && t.record.None?
    ensures t.now == s.now && t.pids == s.pids && t.monitors == s.monitors && t.nextId == s.nextId
  {
    hide Leads;
    LeadsOn(steps, more, s, Create(p, true));
    var u := DoCreate(s, p, true);
    LeadsOn(steps, more + [Create(p, true)], u, Leftover(p, true));
    more', t := more + [Create(p, true)] + [Leftover(p, true)], DoLeftover(u, p, true);
  }

  /** A launch that does not answer with the record it finds, and finds no PID lock in
      its way, can run a new job to its answer: the old record is gone, the new one runs
      under an id of its own, and the lock is free. A record it cannot see does not keep
      it from that. */
  lemma LaunchGoesThrough(steps: seq<Step>, p: nat, req: nat, m: nat) returns (more: seq<Step>, t: Job)
    requires After(steps).Some?
    requires var s := After(steps).value;
      && At(s, p) == Some(LFind(req)) && m !in s.monitors
      && (s.record.Some? && s.record.value.visible ==> !AnswersLaunch(s, s.record.value, req) && s.record.value.id !in s.pids)
    ensures Leads(steps, more, t)
    ensures var s := After(steps).value;
      At(t, p) == Some(Answered(Launched(s.nextId))) && RunsNow(t, s.nextId, m, s.now) && t.lock.None?
  {
    hide Leads, Inv, After, DoFind, AnswersLaunch;
    var s := After(steps).value;
    ReachedInv(steps);
    FreshPidFree(s);
    LeadsNowhere(steps);
    LaunchDecides(s, p, req);
    FindApplies(s, p, req);
    LeadsOn(steps, [], s, Find(p));
    more, t := [] + [Find(p)], DoFind(s, p);
    if s.record.Some? && !s.record.value.visible {
      more, t := ClearsLeftover(steps, more, t, p, req);
    } else if s.record.Some? {
      var id := s.record.value.id;
      InvRecord(s);
      LeadsOn(steps, more, t, TryPid(p));
      more, t := more + [TryPid(p)], DoTryPid(t, p);
      LeadsOn(steps, more, t, Remove(p, true));
      more, t := more + [Remove(p, true)], DoRemove(t, p, true);
    }
    more, t := CreatesRecord(steps, more, t, p, req);
    more, t := MonitorComesUp(steps, more, t, p, req, s.nextId, m);
    more, t := LaunchReports(steps, more, t, p, req, s.nextId);
  }

  /** The start of a new job failed: the launch takes its record away, unless a monitor
      came up for it after all. It answers that it failed, with the lock free. */
  lemma FailedStartCleansUp(steps: seq<Step>, p: nat, req: nat, id: nat) returns (more: seq<Step>, t: Job)
    requires After(steps).Some? && At(After(steps).value, p) == Some(LCleanup(req, id))
    ensures Leads(steps, more, t) && At(t, p) == Some(Answered(LaunchFailed)) && t.lock.None?
    ensures var s := After(steps).value;
      && IsRecord(s, id)
      && (if MonitorHolds(s, id) then t.record == s.record && t.pids == s.pids else t.record.None? && id !in t.pids)
  {
    hide Leads, Inv, After, KnowsRecord, Locked, PidHeld;
    var s := After(steps).value;
    ReachedInv(steps);
    CleansUp(s, p, id);
    LeadsNowhere(steps);
    LeadsOn(steps, [], s, TryPid(p));
    more, t := [] + [TryPid(p)], DoTryPid(s, p);
    if id !in s.pids {
      LeadsOn(steps, more, t, Remove(p, true));
      more, t := more + [Remove(p, true)], DoRemove(t, p, true);
    }
  }

  lemma CleansUp(s: Job, p: nat, id: nat)
    requires Inv(s) && p in s.procs && s.procs[p].LCleanup? && s.procs[p].id == id
    ensures IsRecord(s, id) && (id in s.pids ==> s.pids[id].ByMonitor?)
  {
    hide Inv;
    InvLock(s, p);
    HeldByMonitor(s, p, id);
  }

  // ---- What a launch that started something returns --------------------------

  /** The record a launch is about to return has been run. */
  ghost predicate Confirms(s: Job) {
    forall p :: p in s.procs && s.procs[p].LConfirm? ==> s.record.Some? && !s.record.value.state.Created?
  }

  lemma MonitorsKeepConfirms(s: Job, step: Step)
    requires Inv(s) && Confirms(s) && IsMonitorStep(step) && Enabled(s, step)
    ensures Confirms(Apply(s, step))
  {
    hide LockInv, LockOwned, ProcInv, PidInv, MonitorInv;
  }

  lemma CreatesConfirmNothing(s: Job, step: Step)
    requires Enabled(s, step)
    requires step.Create? || step.FinishCreate? || step.Leftover? || step.Start? || step.Remove?
    ensures var t := Apply(s, step); step.p in t.procs && !t.procs[step.p].LConfirm?
  {
  }

  lemma ReadsConfirmNothing(s: Job, step: Step)
    requires Enabled(s, step) && (step.Find? || step.TryPid? || step.Confirm? || step.Check?)
    ensures var t := Apply(s, step); step.p in t.procs && !t.procs[step.p].LConfirm?
  {
    hide Listed, RanSince;
  }

  lemma LocksConfirmNothing(s: Job, step: Step)
    requires Enabled(s, step) && (step.TryLock? || step.Conclude? || step.Crash? || step.Arrive? || step.Acquire?)
    ensures var t := Apply(s, step); step.p in t.procs && !t.procs[step.p].LConfirm?
  {
  }

  lemma OwnConfirm(s: Job, step: Step)
    requires Enabled(s, step) && !IsMonitorStep(step)
    ensures var t := Apply(s, step);
      step.p in t.procs && (t.procs[step.p].LConfirm? ==> t.record.Some? && !t.record.value.state.Created?)
  {
    if step.AwaitStart? {
    } else {
      hide Enabled, Apply;
      if step.Create? || step.FinishCreate? || step.Leftover? || step.Start? || step.Remove? {
        CreatesConfirmNothing(s, step);
      } else if step.Find? || step.TryPid? || step.Confirm? || step.Check? {
        ReadsConfirmNothing(s, step);
      } else {
        LocksConfirmNothing(s, step);
      }
    }
  }

  lemma OutsideState(s: Job, step: Step)
    requires Enabled(s, step) && !IsMonitorStep(step) && (step.p in s.procs ==> !Locked(s.procs[step.p])) && s.lock.Some?
    ensures var t := Apply(s, step);
      s.record.Some? && !s.record.value.state.Created? ==> t.record.Some? && !t.record.value.state.Created?
  {
    hide RanSince;
  }

  lemma StepKeepsConfirms(s: Job, step: Step)
    requires Inv(s) && Confirms(s) && Enabled(s, step)
    ensures Confirms(Apply(s, step))
  {
    hide Inv, Apply, Enabled;
    if IsMonitorStep(step) {
      MonitorsKeepConfirms(s, step);
    } else {
      OwnMove(s, step);
      OwnConfirm(s, step);
      var t := Apply(s, step);
      forall q | q in t.procs && t.procs[q].LConfirm? && q != step.p
        ensures t.record.Some? && !t.record.value.state.Created?
      {
        Outside(s, q, step.p);
        OutsideState(s, step);
      }
    }
  }

  lemma {:induction false} ReachedConfirms(steps: seq<Step>)
    requires After(steps).Some?
    ensures Confirms(After(steps).value)
  {
    hide Inv, Confirms, Apply, Enabled;
    if steps == [] {
      NothingToConfirm();
    } else {
      var init := steps[..|steps| - 1];
      ReachedConfirms(init);
      ReachedInv(init);
      StepKeepsConfirms(After(init).value, steps[|steps| - 1]);
    }
  }

  lemma NothingToConfirm()
    ensures Confirms(InitState())
  {
  }

  /** A launch that started something returns the project's record, visible to whoever
      looks next, and under way or run to its end: never one that is merely created. */
  lemma LaunchedHasRun(steps: seq<Step>, step: Step, p: nat, id: nat)
    requires After(steps).Some? && Enabled(After(steps).value, step)
    requires At(After(steps).value, p) != Some(Answered(Launched(id))) && At(Apply(After(steps).value, step), p) == Some(Answered(Launched(id)))
    ensures var t := Apply(After(steps).value, step);
      IsRecord(t, id) && t.record.value.visible && !t.record.value.state.Created?
  {
    hide Inv, After;
    ReachedInv(steps);
    ReachedConfirms(steps);
    var s := After(steps).value;
    OnlyConfirmLaunches(s, step, p, id);
    InvLock(s, p);
  }

  lemma OnlyConfirmLaunches(s: Job, step: Step, p: nat, id: nat)
    requires Enabled(s, step) && At(s, p) != Some(Answered(Launched(id))) && At(Apply(s, step), p) == Some(Answered(Launched(id)))
    ensures step == Confirm(p)
  {
    hide Listed, RanSince;
  }

  // ---- What a monitor leaves -------------------------------------------------

  /** A monitor that finds the PID lock of its record held exits. One that takes it gets
      the record under way if it is still there, and else gives the lock up and exits. */
  lemma MonitorDecides(s: Job, m: nat, id: nat)
    requires m in s.monitors
    ensures s.monitors[m] == Spawned(id) ==>
              var t := Apply(s, Take(m));
              m in t.monitors && t.record == s.record
              && (if id in s.pids then t.monitors[m] == Gone(id) && t.pids == s.pids
                  else t.monitors[m] == Holding(id) && t.pids == s.pids[id := ByMonitor(m)])
    ensures s.monitors[m] == Holding(id) ==>
              var t := Apply(s, CheckRecord(m));
              m in t.monitors
              && (if IsRecord(s, id) then t.monitors[m] == Live(id) && t.record == Some(s.record.value.(state := Starting)) && t.pids == s.pids
                  else t.monitors[m] == Gone(id) && t.record == s.record && id !in t.pids)
  {
  }

  /** The record under id, while it is there, holds the result of a run that is over. */
  ghost predicate HoldsResult(s: Job, id: nat, result: JobState) {
    && id < s.nextId
    && (IsRecord(s, id) ==> s.record.value.state == result)
    && forall m :: m in s.monitors && s.monitors[m].id == id ==> !s.monitors[m].Live?
  }

  lemma MonitorsKeepResult(s: Job, step: Step, id: nat, result: JobState)
    requires Inv(s) && HoldsResult(s, id, result) && Enabled(s, step) && IsMonitorStep(step) && !step.CheckRecord?
    requires result == Exited || result == Failed
    ensures HoldsResult(Apply(s, step), id, result)
  {
    hide LockInv, LockOwned, PidInv, ProcInv;
  }

  lemma CreatesKeepResult(s: Job, step: Step, id: nat, result: JobState)
    requires HoldsResult(s, id, result) && Enabled(s, step)
    requires step.Create? || step.FinishCreate? || step.Leftover? || step.Start? || step.AwaitStart? || step.Remove?
    ensures HoldsResult(Apply(s, step), id, result)
  {
  }

  lemma ReadsKeepResult(s: Job, step: Step, id: nat, result: JobState)
    requires HoldsResult(s, id, result) && Enabled(s, step) && (step.Find? || step.Confirm? || step.Check?)
    requires result == Exited || result == Failed
    ensures HoldsResult(Apply(s, step), id, result)
  {
    hide RanSince;
  }

  lemma LocksKeepResult(s: Job, step: Step, id: nat, result: JobState)
    requires HoldsResult(s, id, result) && Enabled(s, step)
    requires step.TryPid? || step.TryLock? || step.Conclude? || step.Crash? || step.Arrive? || step.Acquire?
    ensures HoldsResult(Apply(s, step), id, result)
  {
    hide Locked, PidHeld;
  }

  lemma StepKeepsResult(s: Job, step: Step, id: nat, result: JobState)
    requires Inv(s) && HoldsResult(s, id, result) && Enabled(s, step) && !step.CheckRecord?
    requires result == Exited || result == Failed
    ensures HoldsResult(Apply(s, step), id, result)
  {
    hide Inv, HoldsResult, Apply, Enabled;
    if IsMonitorStep(step) {
      MonitorsKeepResult(s, step, id, result);
    } else if step.Find? || step.Confirm? || step.Check? {
      ReadsKeepResult(s, step, id, result);
    } else if step.TryPid? || step.TryLock? || step.Conclude? || step.Crash? || step.Arrive? || step.Acquire? {
      LocksKeepResult(s, step, id, result);
    } else {
      CreatesKeepResult(s, step, id, result);
    }
  }

  lemma EndHoldsResult(s: Job, m: nat, id: nat, failed: bool)
    requires Inv(s) && Enabled(s, End(m, failed)) && s.monitors[m].id == id
    ensures HoldsResult(Apply(s, End(m, failed)), id, if failed then Failed else Exited)
  {
    hide LockInv, LockOwned, ProcInv;
  }

  /** A record keeps the result of its run for whoever asks next, until it is removed or
      run again. */
  lemma {:induction false} ResultStays(steps: seq<Step>, m: nat, id: nat, failed: bool, more: seq<Step>)
    requires After(steps).Some? && Enabled(After(steps).value, End(m, failed)) && After(steps).value.monitors[m].id == id
    requires After(steps + [End(m, failed)] + more).Some? && forall i :: 0 <= i < |more| ==> !more[i].CheckRecord?
    ensures HoldsResult(After(steps + [End(m, failed)] + more).value, id, if failed then Failed else Exited)
  {
    hide Inv, HoldsResult, Apply, Enabled;
    var ended := steps + [End(m, failed)];
    if more == [] {
      assert ended + more == ended;
      ReachedInv(steps);
      AfterSnoc(steps, End(m, failed));
      EndHoldsResult(After(steps).value, m, id, failed);
    } else {
      var init, last := more[..|more| - 1], more[|more| - 1];
      assert (ended + more)[..|ended + more| - 1] == ended + init;
      ResultStays(steps, m, id, failed, init);
      ReachedInv(ended + init);
      StepKeepsResult(After(ended + init).value, last, id, if failed then Failed else Exited);
    }
  }
}
