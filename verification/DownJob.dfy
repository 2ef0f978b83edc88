/** The down job of one project: launches and lookups of it, the monitors that run
    it, and the two kinds of lock and the store they coordinate through. Any
    process may die at any point. */
module DownJob {
  import opened Wrappers

  // Time passes in ticks; stamps are stored to the second.
  const TICKS := 1000

  function Second(t: nat): nat {
    t / TICKS
  }

  datatype JobState = Created | Starting | Running | Exited | Failed

  // The record under the job's name. One whose create died half-way is not
  // visible to a listing.
  datatype Record = Record(id: nat, visible: bool, state: JobState, createdAt: nat, startedAt: Option<nat>)

  // A monitor takes the PID lock of its record, exits if the record is gone, and
  // is live from then until it ends.
  datatype Monitor = Spawned(id: nat) | Holding(id: nat) | Live(id: nat) | Gone(id: nat)

  datatype LockHolder = ByMonitor(m: nat) | ByProc(p: nat)

  datatype Answer =
    | Reused(id: nat)
    | Launched(id: nat)
    | LaunchFailed
    | FoundNone
    | FoundJob(id: nat, neverRan: bool)

  // Where a launch (L) or a lookup (K) is. req is the time of the request; again
  // marks the second try to create the record.
  datatype Proc =
    | LWait(req: nat)
    | LFind(req: nat)
    | LTryPid(req: nat, id: nat)
    | LRemove(req: nat, id: nat)
    | LCreate(req: nat, again: bool)
    | LCreating(req: nat, id: nat, again: bool)
    | LLeftover(req: nat)
    | LStart(req: nat, id: nat)
    | LStarting(req: nat, id: nat)
    | LConfirm(req: nat, id: nat)
    | LCleanup(req: nat, id: nat)
    | LCleanupRemove(req: nat, id: nat)
    | KFind
    | KTryLock(id: nat)
    | KCheck(id: nat)
    | KTryPid(id: nat)
    | KHeld(id: nat)
    | Answered(answer: Answer)
    | Dead

  datatype Job = Job(
    now: nat,
    lock: Option<nat>,
    record: Option<Record>,
    nextId: nat,
    pids: map<nat, LockHolder>,
    monitors: map<nat, Monitor>,
    procs: map<nat, Proc>
  )

  datatype Step =
    | Tick
    | Arrive(p: nat, lookup: bool)
    | Acquire(p: nat)
    | Find(p: nat)
    | TryPid(p: nat)
    | Remove(p: nat, works: bool)
    | Create(p: nat, works: bool)
    | FinishCreate(p: nat, works: bool)
    | Leftover(p: nat, works: bool)
    | Start(p: nat, m: nat, works: bool)
    | AwaitStart(p: nat, works: bool)
    | Confirm(p: nat)
    | TryLock(p: nat)
    | Check(p: nat)
    | Conclude(p: nat)
    | Crash(p: nat)
    | StartElsewhere(m: nat)
    | Take(m: nat)
    | CheckRecord(m: nat)
    | Run(m: nat)
    | End(m: nat, failed: bool)
    | MonitorDies(m: nat)

  function InitState(): Job {
    Job(0, None, None, 0, map[], map[], map[])
  }

  // ---- Reading the record ---------------------------------------------------

  predicate MonitorHolds(s: Job, id: nat) {
    id in s.pids && s.pids[id].ByMonitor?
  }

  /** The record as a listing reads it: one found starting or running with no
      monitor behind it has failed. */
  function Listed(s: Job): Option<Record> {
    if s.record.None? || !s.record.value.visible then None
    else if (s.record.value.state.Starting? || s.record.value.state.Running?) && !MonitorHolds(s, s.record.value.id)
    then Some(s.record.value.(state := Failed))
    else s.record
  }

  /** The run began no earlier than requested, by the second; the creation stands
      in for a run without a start stamp. */
  predicate RanSince(r: Record, req: nat) {
    var stamp := if r.startedAt.Some? then r.startedAt.value else r.createdAt;
    Second(stamp) >= Second(req)
  }

  function ListedState(s: Job): Job {
    if Listed(s).Some? then s.(record := Listed(s)) else s
  }

  // ---- Moves of a process ---------------------------------------------------

  function At(s: Job, p: nat): Option<Proc> {
    if p in s.procs then Some(s.procs[p]) else None
  }

  function Go(s: Job, p: nat, to: Proc): Job {
    s.(procs := s.procs[p := to])
  }

  function Unlock(s: Job): Job {
    s.(lock := None)
  }

  function ReleasePid(s: Job, id: nat): Job {
    s.(pids := s.pids - {id})
  }

  /** Decides on the record found under the job's name. */
  function Decide(s: Job, p: nat, req: nat): Job {
    var t := ListedState(s);
    match Listed(s)
    case None => Go(t, p, LCreate(req, false))
    case Some(r) =>
      match r.state
      case Starting | Running => Unlock(Go(t, p, Answered(Reused(r.id))))
      case Exited | Failed =>
        if RanSince(r, req) then Unlock(Go(t, p, Answered(Reused(r.id)))) else Go(t, p, LTryPid(req, r.id))
      case Created => Go(t, p, LTryPid(req, r.id))
  }

  function DoFind(s: Job, p: nat): Job
    requires p in s.procs
  {
    match s.procs[p]
    case LFind(req) => Decide(s, p, req)
    case KFind =>
      (match Listed(s)
       case None => Go(s, p, Answered(FoundNone))
       case Some(r) =>
         if r.state.Created? then Go(ListedState(s), p, KTryLock(r.id))
         else Go(ListedState(s), p, Answered(FoundJob(r.id, false))))
    case _ => s
  }

  /** Tries the PID lock of the record. One that is held means a launch in flight,
      that the failed start came up after all, or that the record may yet run. */
  function DoTryPid(s: Job, p: nat): Job
    requires p in s.procs
  {
    match s.procs[p]
    case LTryPid(req, id) =>
      if id in s.pids then Unlock(Go(s, p, Answered(Reused(id))))
      else Go(s.(pids := s.pids[id := ByProc(p)]), p, LRemove(req, id))
    case LCleanup(req, id) =>
      if id in s.pids then Unlock(Go(s, p, Answered(LaunchFailed)))
      else Go(s.(pids := s.pids[id := ByProc(p)]), p, LCleanupRemove(req, id))
    case KTryPid(id) =>
      if id in s.pids then Unlock(Go(s, p, Answered(FoundJob(id, false))))
      else Go(s.(pids := s.pids[id := ByProc(p)]), p, KHeld(id))
    case _ => s
  }

  function WithoutRecord(s: Job, id: nat): Job {
    if s.record.Some? && s.record.value.id == id then s.(record := None) else s
  }

  /** Removes the record under its PID lock, and gives that lock up. */
  function DoRemove(s: Job, p: nat, works: bool): Job
    requires p in s.procs
  {
    match s.procs[p]
    case LRemove(req, id) =>
      if works then Go(ReleasePid(WithoutRecord(s, id), id), p, LCreate(req, false))
      else Unlock(Go(ReleasePid(s, id), p, Answered(LaunchFailed)))
    case LCleanupRemove(req, id) =>
      Unlock(Go(ReleasePid(if works then WithoutRecord(s, id) else s, id), p, Answered(LaunchFailed)))
    case _ => s
  }

  /** Registers the record, in two writes. Nothing else may go by its name. */
  function DoCreate(s: Job, p: nat, works: bool): Job
    requires p in s.procs && s.procs[p].LCreate?
  {
    var (req, again) := (s.procs[p].req, s.procs[p].again);
    if works && s.record.None? then
      Go(s.(record := Some(Record(s.nextId, false, Created, s.now, None)), nextId := s.nextId + 1), p, LCreating(req, s.nextId, again))
    else if again then Unlock(Go(s, p, Answered(LaunchFailed)))
    else Go(s, p, LLeftover(req))
  }

  function DoFinishCreate(s: Job, p: nat, works: bool): Job
    requires p in s.procs && s.procs[p].LCreating? && s.record.Some?
  {
    var (req, id, again) := (s.procs[p].req, s.procs[p].id, s.procs[p].again);
    if works then Go(s.(record := Some(s.record.value.(visible := true))), p, LStart(req, id))
    else if again then Unlock(Go(s, p, Answered(LaunchFailed)))
    else Go(s, p, LLeftover(req))
  }

  /** Removes by its name what is in the way of a create, without its PID lock. */
  function DoLeftover(s: Job, p: nat, works: bool): Job
    requires p in s.procs && s.procs[p].LLeftover?
  {
    if works && s.record.Some? then Go(s.(record := None), p, LCreate(s.procs[p].req, true))
    else Unlock(Go(s, p, Answered(LaunchFailed)))
  }

  function DoStart(s: Job, p: nat, m: nat, works: bool): Job
    requires p in s.procs && s.procs[p].LStart?
  {
    var (req, id) := (s.procs[p].req, s.procs[p].id);
    if works then Go(s.(monitors := s.monitors[m := Spawned(id)]), p, LStarting(req, id))
    else Go(s, p, LCleanup(req, id))
  }

  /** The record as one that reported in. */
  predicate ReportedIn(s: Job, id: nat) {
    s.record.Some? && s.record.value.id == id && s.record.value.state !in {Created, Starting}
  }

  function DoAwaitStart(s: Job, p: nat, works: bool): Job
    requires p in s.procs && s.procs[p].LStarting?
  {
    var (req, id) := (s.procs[p].req, s.procs[p].id);
    Go(s, p, if works then LConfirm(req, id) else LCleanup(req, id))
  }

  function DoConfirm(s: Job, p: nat): Job
    requires p in s.procs && s.procs[p].LConfirm?
  {
    var id := s.procs[p].id;
    var listed := Listed(s);
    Unlock(Go(ListedState(s), p,
      Answered(if listed.Some? && listed.value.id == id then Launched(id) else LaunchFailed)))
  }

  function DoTryLock(s: Job, p: nat): Job
    requires p in s.procs && s.procs[p].KTryLock?
  {
    var id := s.procs[p].id;
    if s.lock.Some? then Go(s, p, Answered(FoundJob(id, false))) else Go(s.(lock := Some(p)), p, KCheck(id))
  }

  /** Reads the record again behind the lock. */
  function DoCheck(s: Job, p: nat): Job
    requires p in s.procs && s.procs[p].KCheck?
  {
    var id := s.procs[p].id;
    var listed := Listed(s);
    if listed.Some? && listed.value.id == id && listed.value.state.Created? then Go(s, p, KTryPid(id))
    else Unlock(Go(ListedState(s), p, Answered(FoundJob(id, false))))
  }

  function DoConclude(s: Job, p: nat): Job
    requires p in s.procs && s.procs[p].KHeld?
  {
    var id := s.procs[p].id;
    Unlock(Go(ReleasePid(s, id), p, Answered(FoundJob(id, true))))
  }

  /** The processes that hold the job's lock. */
  predicate Locked(x: Proc) {
    !x.LWait? && !x.KFind? && !x.KTryLock? && !x.Answered? && !x.Dead?
  }

  function PidHeld(x: Proc): Option<nat> {
    match x
    case LRemove(_, id) => Some(id)
    case LCleanupRemove(_, id) => Some(id)
    case KHeld(id) => Some(id)
    case _ => None
  }

  /** A process that exits gives up its locks. */
  function DoCrash(s: Job, p: nat): Job
    requires p in s.procs
  {
    var x := s.procs[p];
    var t := if Locked(x) then Unlock(s) else s;
    Go(if PidHeld(x).Some? then ReleasePid(t, PidHeld(x).value) else t, p, Dead)
  }

  // ---- Moves of a monitor ---------------------------------------------------

  function SetMonitor(s: Job, m: nat, to: Monitor): Job {
    s.(monitors := s.monitors[m := to])
  }

  function DoTake(s: Job, m: nat): Job
    requires m in s.monitors
  {
    var id := s.monitors[m].id;
    if id in s.pids then SetMonitor(s, m, Gone(id))
    else SetMonitor(s.(pids := s.pids[id := ByMonitor(m)]), m, Holding(id))
  }

  function DoCheckRecord(s: Job, m: nat): Job
    requires m in s.monitors
  {
    var id := s.monitors[m].id;
    if s.record.Some? && s.record.value.id == id
    then SetMonitor(s.(record := Some(s.record.value.(state := Starting))), m, Live(id))
    else SetMonitor(ReleasePid(s, id), m, Gone(id))
  }

  function DoRun(s: Job): Job
    requires s.record.Some?
  {
    s.(record := Some(s.record.value.(state := Running, startedAt := Some(s.now))))
  }

  function DoEnd(s: Job, m: nat, failed: bool): Job
    requires m in s.monitors && s.record.Some?
  {
    var id := s.monitors[m].id;
    SetMonitor(ReleasePid(s.(record := Some(s.record.value.(state := if failed then Failed else Exited))), id), m, Gone(id))
  }

  function DoMonitorDies(s: Job, m: nat): Job
    requires m in s.monitors
  {
    var x := s.monitors[m];
    SetMonitor(if x.Holding? || x.Live? then ReleasePid(s, x.id) else s, m, Gone(x.id))
  }

  // ---- Runs -----------------------------------------------------------------

  predicate Enabled(s: Job, step: Step) {
    match step
    case Tick => true
    case Arrive(p, _) => p !in s.procs
    case Acquire(p) => p in s.procs && s.procs[p].LWait? && s.lock.None?
    case Find(p) => p in s.procs && (s.procs[p].LFind? || s.procs[p].KFind?)
    case TryPid(p) => p in s.procs && (s.procs[p].LTryPid? || s.procs[p].LCleanup? || s.procs[p].KTryPid?)
    case Remove(p, _) => p in s.procs && (s.procs[p].LRemove? || s.procs[p].LCleanupRemove?)
    case Create(p, _) => p in s.procs && s.procs[p].LCreate?
    case FinishCreate(p, _) => p in s.procs && s.procs[p].LCreating? && s.record.Some?
    case Leftover(p, _) => p in s.procs && s.procs[p].LLeftover?
    case Start(p, m, _) => p in s.procs && s.procs[p].LStart? && m !in s.monitors
    case AwaitStart(p, works) => p in s.procs && s.procs[p].LStarting? && (works ==> ReportedIn(s, s.procs[p].id))
    case Confirm(p) => p in s.procs && s.procs[p].LConfirm?
    case TryLock(p) => p in s.procs && s.procs[p].KTryLock?
    case Check(p) => p in s.procs && s.procs[p].KCheck?
    case Conclude(p) => p in s.procs && s.procs[p].KHeld?
    case Crash(p) => p in s.procs && !s.procs[p].Answered?
    case StartElsewhere(m) => m !in s.monitors && s.record.Some? && s.record.value.visible
    case Take(m) => m in s.monitors && s.monitors[m].Spawned?
    case CheckRecord(m) => m in s.monitors && s.monitors[m].Holding?
    case Run(m) => m in s.monitors && s.monitors[m].Live? && s.record.Some? && s.record.value.state.Starting?
    case End(m, _) => m in s.monitors && s.monitors[m].Live? && s.record.Some?
    case MonitorDies(m) => m in s.monitors
  }

  function Apply(s: Job, step: Step): Job
    requires Enabled(s, step)
  {
    match step
    case Tick => s.(now := s.now + 1)
    case Arrive(p, lookup) => Go(s, p, if lookup then KFind else LWait(s.now))
    case Acquire(p) => Go(s.(lock := Some(p)), p, LFind(s.procs[p].req))
    case Find(p) => DoFind(s, p)
    case TryPid(p) => DoTryPid(s, p)
    case Remove(p, works) => DoRemove(s, p, works)
    case Create(p, works) => DoCreate(s, p, works)
    case FinishCreate(p, works) => DoFinishCreate(s, p, works)
    case Leftover(p, works) => DoLeftover(s, p, works)
    case Start(p, m, works) => DoStart(s, p, m, works)
    case AwaitStart(p, works) => DoAwaitStart(s, p, works)
    case Confirm(p) => DoConfirm(s, p)
    case TryLock(p) => DoTryLock(s, p)
    case Check(p) => DoCheck(s, p)
    case Conclude(p) => DoConclude(s, p)
    case Crash(p) => DoCrash(s, p)
    case StartElsewhere(m) => SetMonitor(s, m, Spawned(s.record.value.id))
    case Take(m) => DoTake(s, m)
    case CheckRecord(m) => DoCheckRecord(s, m)
    case Run(m) => DoRun(s)
    case End(m, failed) => DoEnd(s, m, failed)
    case MonitorDies(m) => DoMonitorDies(s, m)
  }

  /** The state these steps lead to, unless one is out of order. */
  function After(steps: seq<Step>): Option<Job> {
    if steps == [] then Some(InitState())
    else match After(steps[..|steps| - 1])
      case Some(t) => if Enabled(t, steps[|steps| - 1]) then Some(Apply(t, steps[|steps| - 1])) else None
      case None => None
  }
}
