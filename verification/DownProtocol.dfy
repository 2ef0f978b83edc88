/** The teardown of compose down: stop, retry, remove and release what is stranded.
    Within a phase the replicas act at once; a step is one hook run, or one of the
    other points at which a replica touches what the operation shares. */
module DownProtocol {
  import opened Wrappers
  import opened Naming
  import opened Lifecycle
  import opened ReleaseRecorder
  import opened HookRuns
  import opened ReleaseReport

  // The stored label of a replica: one that does not even name the replica, one
  // whose hooks cannot be decoded, or its hooks.
  datatype StoredHooks = NoReplica | Undecodable | Decoded(hooks: seq<Hook>)

  // replicas are the project's replicas as the operation found them, holders the
  // stored resource holders at that time. stops and removes are the replicas the
  // operation sets out to stop and to remove; whole tells that it has no targets.
  datatype Config = Config(
    replicas: map<string, StoredHooks>,
    holders: Holders,
    stops: set<string>,
    removes: set<string>,
    force: bool,
    whole: bool
  )

  predicate ConfigOk(c: Config) {
    && c.stops <= c.replicas.Keys && c.removes <= c.replicas.Keys
    && forall r :: r in c.replicas && c.replicas[r].Decoded? ==> HooksOk(c.replicas[r].hooks)
  }

  /** The hooks a step of the teardown runs for r; none when it refuses to act. */
  function HooksFor(c: Config, r: string): Option<seq<Hook>> {
    if r !in c.replicas then None
    else match c.replicas[r]
      case NoReplica => None
      case Undecodable => if c.force then Some([]) else None
      case Decoded(hooks) => Some(if c.force then ForcedHooks(hooks) else hooks)
  }

  // ---- State ----------------------------------------------------------------

  // Where a replica is in the current phase: before hook next of the pre or the
  // post event, at the operation between them, or through.
  datatype Proc = NotStarted | Hooking(pre: bool, next: nat) | Operating | Over

  datatype Phase =
    | Stopping
    | Retrying(retries: set<ResId>)
    | Removing
    | Stranding(stranded: map<ResId, Holder>)
    | Ended

  datatype Source = StopHook | Retry | RemoveHook | Stranded

  // One run of a release. record is the failure it recorded, if it failed; cut that
  // the operation was cancelled in between.
  datatype ReleaseRun = ReleaseRun(
    id: ResId,
    event: LifecycleEvent,
    source: Source,
    verdict: Verdict,
    record: Option<FailedRelease>,
    cut: bool
  )

  // halted are the replicas whose stop itself worked. listing is what the replicas were
  // listed as when the stops had returned. done tells that the context of the operation
  // is done, which it then stays. ran is a history variable.
  datatype Down = Down(
    phase: Phase,
    procs: map<string, Proc>,
    holders: Holders,
    recorder: seq<FailedRelease>,
    kept: set<string>,
    stopped: set<string>,
    halted: set<string>,
    removed: set<string>,
    listing: map<string, ReplicaState>,
    outcomes: seq<ReleaseOutcome>,
    done: bool,
    ran: seq<ReleaseRun>
  )

  function Fresh(rs: set<string>): map<string, Proc> {
    map r | r in rs :: NotStarted
  }

  function InitState(c: Config): Down {
    Down(Stopping, Fresh(c.stops), c.holders, [], {}, {}, {}, {}, map[], [], false, [])
  }

  function Advance(s: Down, r: string, p: Proc): Down {
    s.(procs := s.procs[r := p])
  }

  function RecordSeq(record: Option<FailedRelease>): seq<FailedRelease> {
    match record
    case Some(f) => [f]
    case None => []
  }

  // ---- Steps of a replica ---------------------------------------------------

  predicate Acting(s: Down, r: string) {
    (s.phase.Stopping? || s.phase.Removing?) && r in s.procs
  }

  /** What a run can meet: under a done context its command fails, as it is asked
      for once more when the command has ended. */
  predicate EnvAt(s: Down, env: Env) {
    EnvOk(env) && (s.done ==> !env.exec && env.doneAtRecord)
  }

  /** teardownStop up to its first hook. It does not come to that when the context is
      done: the stop walk leaves the replica out, or the wait for its stop permit
      fails. Stored hooks that are refused keep the replica. */
  ghost predicate BeginStopStep(c: Config, s: Down, s': Down, r: string, begins: bool) {
    && s.phase.Stopping? && Acting(s, r) && s.procs[r].NotStarted?
    && s' == if !begins then Advance(s, r, Over).(done := true)
             else if HooksFor(c, r).None? then Advance(s, r, Over).(stopped := s.stopped + {r}, kept := s.kept + {r})
             else Advance(s, r, Hooking(true, 0)).(stopped := s.stopped + {r})
  }

  /** A kept replica is skipped; stored hooks that are refused end the removal. */
  ghost predicate BeginRemoveStep(c: Config, s: Down, s': Down, r: string) {
    && s.phase.Removing? && Acting(s, r) && s.procs[r].NotStarted?
    && s' == if r in s.kept || HooksFor(c, r).None? then Advance(s, r, Over) else Advance(s, r, Hooking(true, 0))
  }

  function StageEvent(stopping: bool, pre: bool): LifecycleEvent {
    if stopping then (if pre then StopPre else StopPost) else (if pre then RemovePre else RemovePost)
  }

  function ResourceOf(h: Hook, r: string): Option<ResId> {
    match h.resource
    case Some(key) => Some(ResId(r, key))
    case None => None
  }

  /** r is before one of its hooks. */
  predicate AtHook(c: Config, s: Down, r: string) {
    && Acting(s, r) && s.procs[r].Hooking?
    && HooksFor(c, r).Some? && s.procs[r].next < |HooksFor(c, r).value|
  }

  function HookAt(c: Config, s: Down, r: string): Hook
    requires AtHook(c, s, r)
  {
    HooksFor(c, r).value[s.procs[r].next]
  }

  function EventAt(c: Config, s: Down, r: string): LifecycleEvent
    requires AtHook(c, s, r)
  {
    StageEvent(s.phase.Stopping?, s.procs[r].pre)
  }

  function RunsHook(c: Config, s: Down, r: string, res: HookResult): Down
    requires AtHook(c, s, r)
  {
    var pre, next := s.procs[r].pre, s.procs[r].next;
    var resource := ResourceOf(HookAt(c, s, r), r);
    var failed := res.verdict.HookFailed?;
    Advance(s, r, if failed then Over else Hooking(pre, next + 1)).(
      holders := res.holders,
      done := s.done || res.done,
      recorder := s.recorder + RecordSeq(res.record),
      kept := if failed && s.phase.Stopping? then s.kept + {r} else s.kept,
      removed := if failed && s.phase.Removing? && !pre then s.removed + {r} else s.removed,
      ran := if resource.Some?
             then s.ran + [ReleaseRun(resource.value, EventAt(c, s, r), if s.phase.Stopping? then StopHook else RemoveHook,
                                      res.verdict, res.record, res.cut)]
             else s.ran)
  }

  /** Runs the next hook when it sets the event, and passes over it when not. A hook
      that fails ends the stop, and keeps the replica, or ends the removal. */
  ghost predicate HookStep(c: Config, s: Down, s': Down, r: string, env: Env) {
    && AtHook(c, s, r) && EnvAt(s, env)
    && var h, ev := HookAt(c, s, r), EventAt(c, s, r);
       s' == if ev !in h.events then Advance(s, r, Hooking(s.procs[r].pre, s.procs[r].next + 1))
             else RunsHook(c, s, r, RunHook(s.holders, ResourceOf(h, r), ev, h.events[ev], None, env))
  }

  /** Goes on from the hooks of the pre event to the operation, and ends after
      those of the post event. */
  ghost predicate HooksDoneStep(c: Config, s: Down, s': Down, r: string) {
    && Acting(s, r) && s.procs[r].Hooking?
    && HooksFor(c, r).Some? && s.procs[r].next == |HooksFor(c, r).value|
    && s' == if s.procs[r].pre then Advance(s, r, Operating)
             else Advance(s, r, Over).(removed := if s.phase.Removing? then s.removed + {r} else s.removed)
  }

  /** The stop or the removal itself; a failure ends the script. */
  ghost predicate OperateStep(s: Down, s': Down, r: string, works: bool) {
    && Acting(s, r) && s.procs[r].Operating?
    && s' == Advance(s, r, if works then Hooking(false, 0) else Over).(
         halted := if works && s.phase.Stopping? then s.halted + {r} else s.halted)
  }

  predicate AllOver(s: Down) {
    forall r :: r in s.procs ==> s.procs[r].Over?
  }

  // ---- Steps between the phases ---------------------------------------------

  /** failed holds the last record of each holder once. */
  ghost predicate TakenOnce(rec: seq<FailedRelease>, failed: seq<FailedRelease>) {
    && DistinctIds(failed)
    && forall x :: LastRecord(failed, x) == LastRecord(rec, x)
  }

  /** The failures due for a retry, by the replicas as they are listed now: none when
      the operation is cancelled or the listing fails. */
  ghost predicate StopsReturnedStep(c: Config, s: Down, s': Down, failed: seq<FailedRelease>, listed: Option<map<string, ReplicaState>>) {
    && s.phase.Stopping? && AllOver(s)
    && TakenOnce(s.recorder, failed)
    && (s.done ==> listed.None?)
    && var listing := if listed.Some? then listed.value else map[];
       s' == s.(phase := Retrying(RetriesFor(failed, listing)), recorder := failed, listing := listing, procs := map[])
  }

  function RetriesFor(failed: seq<FailedRelease>, listing: map<string, ReplicaState>): set<ResId> {
    set x | x in Ids(failed) && Retryable(LastRecord(failed, x).value, listing)
  }

  function Ids(failed: seq<FailedRelease>): (ids: set<ResId>)
    ensures forall x :: x in ids <==> LastRecord(failed, x).Some?
  {
    if failed == [] then {} else Ids(failed[..|failed| - 1]) + {failed[|failed| - 1].id}
  }

  /** The failures with the one of x replaced, or gone. */
  function Settle(failed: seq<FailedRelease>, x: ResId, now: Option<FailedRelease>): seq<FailedRelease> {
    if failed == [] then []
    else
      var last := failed[|failed| - 1];
      Settle(failed[..|failed| - 1], x, now) + if last.id == x then RecordSeq(now) else [last]
  }

  ghost predicate RetryStep(c: Config, s: Down, s': Down, x: ResId, env: Env) {
    && s.phase.Retrying? && x in s.phase.retries && EnvAt(s, env)
    && LastRecord(s.recorder, x).Some? && LastRecord(s.recorder, x).value.holder.release.Some?
    && var f := LastRecord(s.recorder, x).value;
       var res := RunRelease(s.holders, x, f.holder, c.force, env);
       s' == s.(phase := Retrying(s.phase.retries - {x}),
                holders := res.holders,
                done := s.done || res.done,
                recorder := Settle(s.recorder, x, Retried(f, c.force, env)),
                ran := s.ran + [ReleaseRun(x, f.holder.release.value.event, Retry, res.verdict, res.record, res.cut)])
  }

  ghost predicate RetriesReturnedStep(c: Config, s: Down, s': Down) {
    && s.phase.Retrying? && s.phase.retries == {}
    && s' == s.(phase := Removing, procs := Fresh(c.removes))
  }

  /** The teardown removed the replica without running the release of h. */
  predicate ReleaseLeft(s: Down, x: ResId, h: Holder) {
    h.release.Some? && AtStop(h.release.value.event) && x.owner in s.removed && x.owner !in s.stopped
  }

  function StrandedHolders(c: Config, s: Down): map<ResId, Holder> {
    map x | x in s.holders && s.holders[x].Readable? && s.holders[x].holder.release.Some?
            && (x.owner in c.replicas ==> ReleaseLeft(s, x, s.holders[x].holder))
      :: s.holders[x].holder
  }

  ghost predicate RemovesReturnedStep(c: Config, s: Down, s': Down, listed: bool, err: int) {
    && s.phase.Removing? && AllOver(s)
    && s' == if !c.whole then s.(phase := Ended)
             else if !listed then s.(phase := Ended, outcomes := [ReleaseOutcome(None, "", Some(err), None, false)])
             else s.(phase := Stranding(StrandedHolders(c, s)))
  }

  ghost predicate ReleaseStep(c: Config, s: Down, s': Down, x: ResId, env: Env) {
    && s.phase.Stranding? && x in s.phase.stranded && EnvAt(s, env)
    && var h := s.phase.stranded[x];
       && h.release.Some?
       && var res := RunRelease(s.holders, x, h, c.force, env);
          s' == s.(phase := Stranding(s.phase.stranded - {x}),
                   holders := res.holders,
                   done := s.done || res.done,
                   recorder := s.recorder + RecordSeq(res.record),
                   outcomes := s.outcomes + [ReleaseOutcome(Some(x), h.value,
                                               if res.verdict.HookFailed? then Some(env.err) else None,
                                               if res.verdict.Warned? then Some(env.err) else None, false)],
                   ran := s.ran + [ReleaseRun(x, h.release.value.event, Stranded, res.verdict, res.record, res.cut)])
  }

  ghost predicate ReleasesReturnedStep(s: Down, s': Down) {
    s.phase.Stranding? && s.phase.stranded == map[] && s' == s.(phase := Ended)
  }

  /** The operation is cancelled. */
  ghost predicate CancelStep(s: Down, s': Down) {
    s' == s.(done := true)
  }

  // ---- Runs -----------------------------------------------------------------

  datatype Step =
    | BeginStop(r: string, begins: bool)
    | BeginRemove(r: string)
    | RunNext(r: string, env: Env)
    | HooksDone(r: string)
    | Operate(r: string, works: bool)
    | StopsReturned(failed: seq<FailedRelease>, replicas: Option<map<string, ReplicaState>>)
    | RunRetry(x: ResId, env: Env)
    | RetriesReturned
    | RemovesReturned(listed: bool, err: int)
    | RunStranded(x: ResId, env: Env)
    | ReleasesReturned
    | Cancel

  ghost predicate NextBy(c: Config, s: Down, s': Down, step: Step) {
    match step
    case BeginStop(r, begins) => BeginStopStep(c, s, s', r, begins)
    case BeginRemove(r) => BeginRemoveStep(c, s, s', r)
    case RunNext(r, env) => HookStep(c, s, s', r, env)
    case HooksDone(r) => HooksDoneStep(c, s, s', r)
    case Operate(r, works) => OperateStep(s, s', r, works)
    case StopsReturned(failed, listed) => StopsReturnedStep(c, s, s', failed, listed)
    case RunRetry(x, env) => RetryStep(c, s, s', x, env)
    case RetriesReturned => RetriesReturnedStep(c, s, s')
    case RemovesReturned(listed, err) => RemovesReturnedStep(c, s, s', listed, err)
    case RunStranded(x, env) => ReleaseStep(c, s, s', x, env)
    case ReleasesReturned => ReleasesReturnedStep(s, s')
    case Cancel => CancelStep(s, s')
  }

  ghost predicate Next(c: Config, s: Down, s': Down) {
    exists step :: NextBy(c, s, s', step)
  }

  ghost predicate IsRun(c: Config, run: seq<Down>) {
    && |run| > 0
    && run[0] == InitState(c)
    && forall i {:trigger run[i]} :: 0 <= i < |run| - 1 ==> Next(c, run[i], run[i + 1])
  }

  // ---- History --------------------------------------------------------------

  /** The runs of the release of x, in order. */
  function RunsOf(ran: seq<ReleaseRun>, x: ResId): seq<ReleaseRun> {
    if ran == [] then []
    else RunsOf(ran[..|ran| - 1], x) + if ran[|ran| - 1].id == x then [ran[|ran| - 1]] else []
  }

  /** The failure of x that stands after these runs: that of the last failed run,
      unless a retry worked since. A failed retry keeps the holder of the first
      failure. */
  function Standing(runs: seq<ReleaseRun>): Option<FailedRelease> {
    if runs == [] then None
    else
      var last, before := runs[|runs| - 1], Standing(runs[..|runs| - 1]);
      match last.record
      case None => if last.source.Retry? then None else before
      case Some(f) =>
        if last.source.Retry? && before.Some?
        then Some(before.value.(err := f.err, onError := f.onError, retried := true))
        else Some(f)
  }
}
