/** What the locks of the down job guarantee, in every interleaving of launches,
    lookups, monitors and crashes. */
module DownJobRuns {
  import opened Wrappers
  import opened DownJob

  // ---- The invariant --------------------------------------------------------

  /** Whoever holds the job's lock is at a point behind it, and nobody else is. */
  ghost predicate LockInv(s: Job) {
    forall p :: p in s.procs ==> (Locked(s.procs[p]) <==> s.lock == Some(p))
  }

  ghost predicate LockOwned(s: Job) {
    s.lock.Some? ==> s.lock.value in s.procs
  }

  /** A PID lock is held by the process or the monitor that is at such a point. */
  ghost predicate PidInv(s: Job) {
    && (forall p :: p in s.procs && PidHeld(s.procs[p]).Some? ==>
          PidHeld(s.procs[p]).value in s.pids && s.pids[PidHeld(s.procs[p]).value] == ByProc(p))
    && (forall m :: m in s.monitors && (s.monitors[m].Holding? || s.monitors[m].Live?) ==>
          s.monitors[m].id in s.pids && s.pids[s.monitors[m].id] == ByMonitor(m))
    && (forall id :: id in s.pids ==> match s.pids[id]
          case ByProc(p) => p in s.procs && PidHeld(s.procs[p]) == Some(id)
          case ByMonitor(m) => m in s.monitors && (s.monitors[m].Holding? || s.monitors[m].Live?) && s.monitors[m].id == id)
  }

  predicate HasId(r: Option<Record>, id: nat) {
    r.Some? && r.value.id == id
  }

  predicate IsRecord(s: Job, id: nat) {
    HasId(s.record, id)
  }

  /** Monitors belong to records that were visible, and a live one to the record. */
  ghost predicate MonitorInv(s: Job) {
    && (s.record.Some? ==> s.record.value.id < s.nextId)
    && (s.record.Some? && !s.record.value.visible ==> s.record.value.state.Created?)
    && (forall m :: m in s.monitors ==>
          && s.monitors[m].id < s.nextId
          && (IsRecord(s, s.monitors[m].id) ==> s.record.value.visible)
          && (s.monitors[m].Live? ==> IsRecord(s, s.monitors[m].id)))
  }

  /** What a process behind the lock knows about the record. */
  predicate KnowsRecord(r: Option<Record>, x: Proc) {
    match x
    case LTryPid(_, id) => HasId(r, id) && r.value.visible
    case LRemove(_, id) => HasId(r, id) && r.value.visible
    case LCreate(_, _) => r.Some? ==> !r.value.visible
    case LCreating(_, id, _) => HasId(r, id) && !r.value.visible
    case LLeftover(_) => r.Some? ==> !r.value.visible
    case LStart(_, id) => HasId(r, id) && r.value.visible
    case LStarting(_, id) => HasId(r, id) && r.value.visible
    case LConfirm(_, id) => HasId(r, id) && r.value.visible
    case LCleanup(_, id) => HasId(r, id) && r.value.visible
    case LCleanupRemove(_, id) => HasId(r, id) && r.value.visible
    case KTryPid(id) => HasId(r, id) && r.value.visible
    case KHeld(id) => HasId(r, id) && r.value.visible
    case _ => true
  }

  ghost predicate ProcInv(s: Job) {
    forall p :: p in s.procs ==> KnowsRecord(s.record, s.procs[p])
  }

  ghost predicate Inv(s: Job) {
    LockInv(s) && LockOwned(s) && PidInv(s) && MonitorInv(s) && ProcInv(s)
  }

  // ---- Steps of processes ---------------------------------------------------

  predicate IsMonitorStep(step: Step) {
    step.Take? || step.CheckRecord? || step.Run? || step.End? || step.MonitorDies? || step.StartElsewhere? || step.Tick?
  }

  lemma ListedKeeps(s: Job)
    requires Inv(s)
    ensures Inv(ListedState(s))
    ensures ListedState(s) == s.(record := ListedState(s).record)
    ensures s.record.Some? <==> ListedState(s).record.Some?
    ensures s.record.Some? ==> ListedState(s).record.value.id == s.record.value.id && ListedState(s).record.value.visible == s.record.value.visible
  {
  }

  /** A process moves between points on one side of the locks, and the record stays. */
  lemma GoKeeps(s: Job, p: nat, to: Proc)
    requires Inv(s)
    requires if p in s.procs then Locked(s.procs[p]) == Locked(to) && PidHeld(s.procs[p]) == PidHeld(to)
             else !Locked(to) && PidHeld(to).None? && s.lock != Some(p)
    requires KnowsRecord(s.record, to)
    ensures Inv(Go(s, p, to))
  {
    hide KnowsRecord, Locked, PidHeld;
  }

  /** A process leaves the lock behind. */
  lemma UnlockKeeps(s: Job, p: nat, to: Proc)
    requires Inv(s) && p in s.procs && Locked(s.procs[p]) && PidHeld(s.procs[p]).None?
    requires !Locked(to) && PidHeld(to).None? && KnowsRecord(s.record, to)
    ensures Inv(Unlock(Go(s, p, to)))
  {
    hide KnowsRecord, Locked, PidHeld;
    assert s.lock == Some(p);
  }

  lemma LockKeeps(s: Job, p: nat, to: Proc)
    requires Inv(s) && p in s.procs && !Locked(s.procs[p]) && PidHeld(s.procs[p]).None? && s.lock.None?
    requires Locked(to) && PidHeld(to).None? && KnowsRecord(s.record, to)
    ensures Inv(Go(s.(lock := Some(p)), p, to))
  {
    hide KnowsRecord, Locked, PidHeld;
  }

  /** A process behind the lock takes a free PID lock. */
  lemma TakePidKeeps(s: Job, p: nat, id: nat, to: Proc)
    requires Inv(s) && p in s.procs && Locked(s.procs[p]) && PidHeld(s.procs[p]).None? && id !in s.pids
    requires Locked(to) && PidHeld(to) == Some(id) && KnowsRecord(s.record, to)
    ensures Inv(Go(s.(pids := s.pids[id := ByProc(p)]), p, to))
  {
    hide KnowsRecord, Locked, PidHeld;
  }

  /** Only one process is behind the lock, so only one knows about the record. */
  lemma OthersKnowNothing(s: Job, p: nat, r: Option<Record>)
    requires Inv(s) && s.lock == Some(p)
    ensures forall q :: q in s.procs && q != p ==> KnowsRecord(r, s.procs[q])
  {
  }

  /** A process that holds the PID lock of the record, or knows it never became
      visible, replaces or removes it. */
  lemma RecordKeeps(s: Job, p: nat, r: Option<Record>, nextId: nat, to: Proc)
    requires Inv(s) && s.lock == Some(p) && p in s.procs && PidHeld(s.procs[p]).None?
    requires nextId >= s.nextId
    requires r.Some? ==> r.value.id < nextId && (r.value.visible || r.value.state.Created?)
    requires r.Some? ==> r.value.id >= s.nextId || (s.record.Some? && s.record.value.id == r.value.id && r.value.visible)
    requires forall m :: m in s.monitors && s.monitors[m].Live? ==> r.Some? && r.value.id == s.monitors[m].id
    requires Locked(to) && PidHeld(to).None? && KnowsRecord(r, to)
    ensures Inv(Go(s.(record := r, nextId := nextId), p, to))
  {
    hide PidHeld, Locked;
    OthersKnowNothing(s, p, r);
    var t := Go(s.(record := r, nextId := nextId), p, to);
    assert PidInv(t) by {
      hide KnowsRecord;
    }
  }

  lemma ReleasePidKeeps(s: Job, p: nat, id: nat, to: Proc)
    requires Inv(s) && p in s.procs && PidHeld(s.procs[p]) == Some(id) && Locked(s.procs[p])
    requires Locked(to) && PidHeld(to).None? && KnowsRecord(s.record, to)
    ensures Inv(Go(ReleasePid(s, id), p, to))
  {
    hide KnowsRecord, Locked, PidHeld;
    assert s.pids[id] == ByProc(p);
  }

  lemma FindKeeps(s: Job, p: nat)
    requires Inv(s) && Enabled(s, Find(p))
    ensures Inv(DoFind(s, p))
  {
    hide Inv;
    InvLock(s, p);
    ListedKeeps(s);
    var t := ListedState(s);
    assert Listed(s).None? ==> t == s;
    match s.procs[p]
    case LFind(req) => {
      match Listed(s)
      case None => GoKeeps(t, p, LCreate(req, false));
      case Some(r) =>
        if r.state.Starting? || r.state.Running? || ((r.state.Exited? || r.state.Failed?) && RanSince(r, req)) {
          UnlockKeeps(t, p, Answered(Reused(r.id)));
        } else {
          GoKeeps(t, p, LTryPid(req, r.id));
        }
    }
    case KFind =>
      match Listed(s)
      case None => GoKeeps(s, p, Answered(FoundNone));
      case Some(r) =>
        GoKeeps(t, p, if r.state.Created? then KTryLock(r.id) else Answered(FoundJob(r.id, false)));
  }

  lemma InvLock(s: Job, p: nat)
    requires Inv(s)
    ensures p in s.procs && Locked(s.procs[p]) ==> s.lock == Some(p) && KnowsRecord(s.record, s.procs[p])
    ensures p !in s.procs ==> s.lock != Some(p)
    ensures p in s.procs && PidHeld(s.procs[p]).Some? ==> PidHeld(s.procs[p]).value in s.pids && s.pids[PidHeld(s.procs[p]).value] == ByProc(p)
  {
    hide KnowsRecord;
    assert p in s.procs ==> KnowsRecord(s.record, s.procs[p]);
  }

  lemma TryPidKeeps(s: Job, p: nat)
    requires Inv(s) && Enabled(s, TryPid(p))
    ensures Inv(DoTryPid(s, p))
  {
    hide Inv;
    InvLock(s, p);
    match s.procs[p]
    case LTryPid(req, id) =>
      if id in s.pids {
        UnlockKeeps(s, p, Answered(Reused(id)));
      } else {
        TakePidKeeps(s, p, id, LRemove(req, id));
      }
    case LCleanup(req, id) =>
      if id in s.pids {
        UnlockKeeps(s, p, Answered(LaunchFailed));
      } else {
        TakePidKeeps(s, p, id, LCleanupRemove(req, id));
      }
    case KTryPid(id) =>
      if id in s.pids {
        UnlockKeeps(s, p, Answered(FoundJob(id, false)));
      } else {
        TakePidKeeps(s, p, id, KHeld(id));
      }
  }

  /** No monitor is live while a process holds the PID lock of the record, or while
      the record never was visible. */
  lemma NoneLive(s: Job, id: nat)
    requires Inv(s)
    requires s.record.None? || !s.record.value.visible || (IsRecord(s, id) && id in s.pids && s.pids[id].ByProc?)
    ensures forall m :: m in s.monitors ==> !s.monitors[m].Live?
  {
    hide ProcInv, LockInv;
  }

  lemma RemoveKeeps(s: Job, p: nat, works: bool)
    requires Inv(s) && Enabled(s, Remove(p, works))
    ensures Inv(DoRemove(s, p, works))
  {
    hide Inv;
    InvLock(s, p);
    match s.procs[p]
    case LRemove(req, id) =>
      NoneLive(s, id);
      ReleasePidKeeps(s, p, id, LTryPid(req, id));
      var t := Go(ReleasePid(s, id), p, LTryPid(req, id));
      InvLock(t, p);
      if works {
        RecordKeeps(t, p, None, t.nextId, LCreate(req, false));
        assert DoRemove(s, p, works) == Go(t.(record := None, nextId := t.nextId), p, LCreate(req, false));
      } else {
        UnlockKeeps(t, p, Answered(LaunchFailed));
        assert DoRemove(s, p, works) == Unlock(Go(t, p, Answered(LaunchFailed)));
      }
    case LCleanupRemove(req, id) =>
      NoneLive(s, id);
      ReleasePidKeeps(s, p, id, LCleanup(req, id));
      var t := Go(ReleasePid(s, id), p, LCleanup(req, id));
      InvLock(t, p);
      if works {
        RecordKeeps(t, p, None, t.nextId, LFind(req));
        var u := Go(t.(record := None, nextId := t.nextId), p, LFind(req));
        UnlockKeeps(u, p, Answered(LaunchFailed));
        assert DoRemove(s, p, works) == Unlock(Go(u, p, Answered(LaunchFailed)));
      } else {
        UnlockKeeps(t, p, Answered(LaunchFailed));
        assert DoRemove(s, p, works) == Unlock(Go(t, p, Answered(LaunchFailed)));
      }
  }

  lemma CreateKeeps(s: Job, p: nat, works: bool)
    requires Inv(s) && Enabled(s, Create(p, works))
    ensures Inv(DoCreate(s, p, works))
  {
    hide Inv;
    InvLock(s, p);
    var (req, again) := (s.procs[p].req, s.procs[p].again);
    if works && s.record.None? {
      NoneLive(s, 0);
      RecordKeeps(s, p, Some(Record(s.nextId, false, Created, s.now, None)), s.nextId + 1, LCreating(req, s.nextId, again));
    } else if again {
      UnlockKeeps(s, p, Answered(LaunchFailed));
    } else {
      GoKeeps(s, p, LLeftover(req));
    }
  }

  lemma FinishCreateKeeps(s: Job, p: nat, works: bool)
    requires Inv(s) && Enabled(s, FinishCreate(p, works))
    ensures Inv(DoFinishCreate(s, p, works))
  {
    hide Inv;
    InvLock(s, p);
    var (req, id, again) := (s.procs[p].req, s.procs[p].id, s.procs[p].again);
    if works {
      NoneLive(s, id);
      InvRecord(s);
      RecordKeeps(s, p, Some(s.record.value.(visible := true)), s.nextId, LStart(req, id));
    } else if again {
      UnlockKeeps(s, p, Answered(LaunchFailed));
    } else {
      GoKeeps(s, p, LLeftover(req));
    }
  }

  lemma InvRecord(s: Job)
    requires Inv(s)
    ensures s.record.Some? ==> s.record.value.id < s.nextId
  {
  }

  lemma LeftoverKeeps(s: Job, p: nat, works: bool)
    requires Inv(s) && Enabled(s, Leftover(p, works))
    ensures Inv(DoLeftover(s, p, works))
  {
    hide Inv;
    InvLock(s, p);
    var req := s.procs[p].req;
    if works && s.record.Some? {
      NoneLive(s, 0);
      RecordKeeps(s, p, None, s.nextId, LCreate(req, true));
    } else {
      UnlockKeeps(s, p, Answered(LaunchFailed));
    }
  }

  lemma SpawnKeeps(s: Job, m: nat)
    requires Inv(s) && m !in s.monitors && s.record.Some? && s.record.value.visible
    ensures Inv(SetMonitor(s, m, Spawned(s.record.value.id)))
  {
    hide KnowsRecord, Locked, PidHeld;
  }

  lemma StartKeeps(s: Job, p: nat, m: nat, works: bool)
    requires Inv(s) && Enabled(s, Start(p, m, works))
    ensures Inv(DoStart(s, p, m, works))
  {
    hide Inv;
    InvLock(s, p);
    var (req, id) := (s.procs[p].req, s.procs[p].id);
    if works {
      SpawnKeeps(s, m);
      GoKeeps(SetMonitor(s, m, Spawned(id)), p, LStarting(req, id));
    } else {
      GoKeeps(s, p, LCleanup(req, id));
    }
  }

  lemma ConfirmKeeps(s: Job, p: nat)
    requires Inv(s) && Enabled(s, Confirm(p))
    ensures Inv(DoConfirm(s, p))
  {
    hide Inv;
    InvLock(s, p);
    ListedKeeps(s);
    var id := s.procs[p].id;
    var listed := Listed(s);
    UnlockKeeps(ListedState(s), p, Answered(if listed.Some? && listed.value.id == id then Launched(id) else LaunchFailed));
  }

  lemma CheckKeeps(s: Job, p: nat)
    requires Inv(s) && Enabled(s, Check(p))
    ensures Inv(DoCheck(s, p))
  {
    hide Inv;
    InvLock(s, p);
    ListedKeeps(s);
    var id := s.procs[p].id;
    var listed := Listed(s);
    if listed.Some? && listed.value.id == id && listed.value.state.Created? {
      GoKeeps(s, p, KTryPid(id));
    } else {
      UnlockKeeps(ListedState(s), p, Answered(FoundJob(id, false)));
    }
  }

  lemma ConcludeKeeps(s: Job, p: nat)
    requires Inv(s) && Enabled(s, Conclude(p))
    ensures Inv(DoConclude(s, p))
  {
    hide Inv;
    InvLock(s, p);
    var id := s.procs[p].id;
    ReleasePidKeeps(s, p, id, KTryPid(id));
    var t := Go(ReleasePid(s, id), p, KTryPid(id));
    UnlockKeeps(t, p, Answered(FoundJob(id, true)));
    assert DoConclude(s, p) == Unlock(Go(t, p, Answered(FoundJob(id, true))));
  }

  lemma CrashKeeps(s: Job, p: nat)
    requires Inv(s) && Enabled(s, Crash(p))
    ensures Inv(DoCrash(s, p))
  {
    hide Inv;
    InvLock(s, p);
    var x := s.procs[p];
    if PidHeld(x).Some? {
      var id := PidHeld(x).value;
      ReleasePidKeeps(s, p, id, LFind(0));
      var t := Go(ReleasePid(s, id), p, LFind(0));
      UnlockKeeps(t, p, Dead);
      assert DoCrash(s, p) == Unlock(Go(t, p, Dead));
    } else if Locked(x) {
      UnlockKeeps(s, p, Dead);
    } else {
      GoKeeps(s, p, Dead);
    }
  }

  // ---- Steps of monitors ----------------------------------------------------

  predicate HoldsLock(x: Monitor) {
    x.Holding? || x.Live?
  }

  /** A monitor's lock and point change; the record keeps its id and visibility. */
  predicate MonitorMove(s: Job, m: nat, t: Job) {
    && m in s.monitors && m in t.monitors && t.monitors[m].id == s.monitors[m].id
    && t == s.(monitors := s.monitors[m := t.monitors[m]], pids := t.pids, record := t.record)
    && s.record.Some? == t.record.Some?
    && (s.record.Some? ==> t.record.value.id == s.record.value.id && t.record.value.visible == s.record.value.visible)
    && (t.record != s.record ==> s.record.value.visible)
    && t.pids == (if HoldsLock(t.monitors[m]) then s.pids[s.monitors[m].id := ByMonitor(m)]
                  else if HoldsLock(s.monitors[m]) then s.pids - {s.monitors[m].id} else s.pids)
    && (HoldsLock(t.monitors[m]) && !HoldsLock(s.monitors[m]) ==> s.monitors[m].id !in s.pids)
    && (t.monitors[m].Live? ==> IsRecord(s, s.monitors[m].id))
  }

  lemma MonitorMovesPids(s: Job, m: nat, t: Job)
    requires PidInv(s) && MonitorMove(s, m, t)
    ensures PidInv(t)
  {
    hide Locked, PidHeld, HasId;
  }

  lemma MonitorMovesRecord(s: Job, m: nat, t: Job)
    requires MonitorInv(s) && ProcInv(s) && MonitorMove(s, m, t)
    ensures MonitorInv(t) && ProcInv(t)
  {
    hide Locked, PidHeld;
    forall p | p in t.procs
      ensures KnowsRecord(t.record, t.procs[p])
    {
      assert KnowsRecord(s.record, s.procs[p]);
    }
  }

  lemma MonitorMoves(s: Job, m: nat, t: Job)
    requires Inv(s) && MonitorMove(s, m, t)
    ensures Inv(t)
  {
    hide PidInv, MonitorInv, ProcInv;
    MonitorMovesPids(s, m, t);
    MonitorMovesRecord(s, m, t);
  }

  lemma LiveRecord(s: Job, m: nat)
    requires Inv(s) && m in s.monitors
    ensures IsRecord(s, s.monitors[m].id) ==> s.record.value.visible
    ensures s.monitors[m].Live? ==> IsRecord(s, s.monitors[m].id)
    ensures s.monitors[m].Holding? || s.monitors[m].Live? ==>
              s.monitors[m].id in s.pids && s.pids[s.monitors[m].id] == ByMonitor(m)
  {
    hide KnowsRecord, Locked, PidHeld;
  }

  lemma MonitorStepKeeps(s: Job, step: Step)
    requires Inv(s) && IsMonitorStep(step) && Enabled(s, step)
    ensures Inv(Apply(s, step))
  {
    hide Inv;
    match step
    case Take(m) => MonitorMoves(s, m, DoTake(s, m));
    case CheckRecord(m) => LiveRecord(s, m); MonitorMoves(s, m, DoCheckRecord(s, m));
    case Run(m) => LiveRecord(s, m); MonitorMoves(s, m, DoRun(s));
    case End(m, failed) => LiveRecord(s, m); MonitorMoves(s, m, DoEnd(s, m, failed));
    case MonitorDies(m) => MonitorMoves(s, m, DoMonitorDies(s, m));
    case StartElsewhere(m) => SpawnKeeps(s, m);
    case Tick => TickKeeps(s);
  }

  lemma TickKeeps(s: Job)
    requires Inv(s)
    ensures Inv(s.(now := s.now + 1))
  {
    hide KnowsRecord, Locked, PidHeld;
  }

  // ---- Every reachable state ------------------------------------------------

  lemma StepKeeps(s: Job, step: Step)
    requires Inv(s) && Enabled(s, step)
    ensures Inv(Apply(s, step))
  {
    hide Inv, DoFind, DoTryPid, DoRemove, DoCreate, DoFinishCreate, DoLeftover, DoStart, DoConfirm, DoCheck, DoConclude, DoCrash;
    if IsMonitorStep(step) {
      MonitorStepKeeps(s, step);
    } else {
      match step
      case Arrive(p, lookup) => InvLock(s, p); GoKeeps(s, p, if lookup then KFind else LWait(s.now));
      case Acquire(p) => LockKeeps(s, p, LFind(s.procs[p].req));
      case Find(p) => FindKeeps(s, p);
      case TryPid(p) => TryPidKeeps(s, p);
      case Remove(p, works) => RemoveKeeps(s, p, works);
      case Create(p, works) => CreateKeeps(s, p, works);
      case FinishCreate(p, works) => FinishCreateKeeps(s, p, works);
      case Leftover(p, works) => LeftoverKeeps(s, p, works);
      case Start(p, m, works) => StartKeeps(s, p, m, works);
      case AwaitStart(p, works) => InvLock(s, p); GoKeeps(s, p, DoAwaitStart(s, p, works).procs[p]);
      case Confirm(p) => ConfirmKeeps(s, p);
      case TryLock(p) =>
        if s.lock.Some? {
          GoKeeps(s, p, Answered(FoundJob(s.procs[p].id, false)));
        } else {
          LockKeeps(s, p, KCheck(s.procs[p].id));
        }
      case Check(p) => CheckKeeps(s, p);
      case Conclude(p) => ConcludeKeeps(s, p);
      case Crash(p) => CrashKeeps(s, p);
    }
  }

  lemma {:induction false} ReachedInv(steps: seq<Step>)
    requires After(steps).Some?
    ensures Inv(After(steps).value)
  {
    hide Inv, Apply, Enabled;
    if steps == [] {
      InitInv();
    } else {
      ReachedInv(steps[..|steps| - 1]);
      StepKeeps(After(steps[..|steps| - 1]).value, steps[|steps| - 1]);
    }
  }

  lemma InitInv()
    ensures Inv(InitState())
  {
  }
}
