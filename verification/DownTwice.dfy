/** The teardowns in which a release runs a second time without a retry: for every
    configuration that allows it, a run of the teardown in which it does. */
module DownTwice {
  import opened Wrappers
  import opened Naming
  import opened Lifecycle
  import opened ReleaseRecorder
  import opened HookRuns
  import opened ReleaseReport
  import opened DownProtocol
  import opened DownInvariant
  import opened DownHistory
  import opened DownResults

  // ---- Runs ------------------------------------------------------------------

  ghost predicate Ran(c: Config, run: seq<Down>) {
    run != [] && IsRun(c, run)
  }

  ghost function Last(run: seq<Down>): Down
    requires run != []
  {
    run[|run| - 1]
  }

  /** A run in which nothing was cancelled: a context that is done stays done. */
  ghost predicate UndisturbedRun(c: Config, run: seq<Down>) {
    Ran(c, run) && !Last(run).done
  }

  lemma Extend(c: Config, run: seq<Down>, s': Down, step: Step) returns (more: seq<Down>)
    requires Ran(c, run) && NextBy(c, Last(run), s', step)
    ensures Ran(c, more) && Last(more) == s'
  {
    hide NextBy;
    more := run + [s'];
    forall i | 0 <= i < |more| - 1
      ensures Next(c, more[i], more[i + 1])
    {
      if i < |run| - 1 {
        assert Next(c, run[i], run[i + 1]);
      }
    }
  }

  // ---- Steps that leave x alone ----------------------------------------------

  const WORKING := Env(true, true, true, true, 0, false, false)

  const FAILING := Env(true, false, false, false, 1, false, false)

  /** Nothing happened to x or its owner, and no failure was recorded. */
  ghost predicate LeavesAlone(s: Down, s': Down, x: ResId) {
    && s'.phase == s.phase && s'.recorder == s.recorder && s'.outcomes == s.outcomes && s'.done == s.done
    && RunsOf(s'.ran, x) == RunsOf(s.ran, x)
    && (x in s'.holders <==> x in s.holders) && (x in s.holders ==> s'.holders[x] == s.holders[x])
    && (x.owner in s'.kept <==> x.owner in s.kept)
    && (x.owner in s'.stopped <==> x.owner in s.stopped)
    && (x.owner in s.removed ==> x.owner in s'.removed)
  }

  /** Hook k of r does not touch x at ev. */
  predicate Harmless(c: Config, r: string, k: int, ev: LifecycleEvent, x: ResId) {
    && HooksFor(c, r).Some? && 0 <= k < |HooksFor(c, r).value|
    && (ResourceOf(HooksFor(c, r).value[k], r) != Some(x) || ev !in HooksFor(c, r).value[k].events)
  }

  lemma WorkingHook(holders: Holders, resource: Option<ResId>, ev: LifecycleEvent, exec: Exec)
    ensures RunHook(holders, resource, ev, exec, None, WORKING) ==
              HookResult(if resource.Some? then holders - {resource.value} else holders, None, Succeeded, false, false)
  {
  }

  lemma HookWorks(c: Config, run: seq<Down>, r: string, x: ResId) returns (more: seq<Down>)
    requires UndisturbedRun(c, run) && AtHook(c, Last(run), r)
    requires Harmless(c, r, Last(run).procs[r].next, EventAt(c, Last(run), r), x)
    ensures UndisturbedRun(c, more) && LeavesAlone(Last(run), Last(more), x)
    ensures var s, s' := Last(run), Last(more);
      s'.procs == s.procs[r := Hooking(s.procs[r].pre, s.procs[r].next + 1)] && s'.removed == s.removed
  {
    hide IsRun, RunHook, HooksFor;
    var s := Last(run);
    var h, ev := HookAt(c, s, r), EventAt(c, s, r);
    var s' := Advance(s, r, Hooking(s.procs[r].pre, s.procs[r].next + 1));
    if ev in h.events {
      WorkingHook(s.holders, ResourceOf(h, r), ev, h.events[ev]);
      var res := RunHook(s.holders, ResourceOf(h, r), ev, h.events[ev], None, WORKING);
      s' := RunsHook(c, s, r, res);
      if h.resource.Some? {
        RunsOfSnoc(s.ran, s'.ran[|s.ran|], x);
      }
    }
    assert HookStep(c, s, s', r, WORKING);
    more := Extend(c, run, s', RunNext(r, WORKING));
  }

  /** The hooks of one event work, up to hook end. */
  lemma {:induction false} HooksWork(c: Config, run: seq<Down>, r: string, x: ResId, end: nat) returns (more: seq<Down>)
    requires UndisturbedRun(c, run) && Acting(Last(run), r) && Last(run).procs[r].Hooking? && HooksFor(c, r).Some?
    requires Last(run).procs[r].next <= end <= |HooksFor(c, r).value|
    requires var s := Last(run);
      forall k :: s.procs[r].next <= k < end ==> Harmless(c, r, k, StageEvent(s.phase.Stopping?, s.procs[r].pre), x)
    ensures UndisturbedRun(c, more) && LeavesAlone(Last(run), Last(more), x)
    ensures var s, s' := Last(run), Last(more);
      s'.procs == s.procs[r := Hooking(s.procs[r].pre, end)] && s'.removed == s.removed
    decreases end - Last(run).procs[r].next
  {
    hide IsRun, HooksFor, Harmless, RunsOf;
    more := run;
    if Last(run).procs[r].next < end {
      more := HookWorks(c, run, r, x);
      more := HooksWork(c, more, r, x, end);
    }
  }

  /** From the end of the pre hooks over the operation to the post hooks. */
  lemma Operates(c: Config, run: seq<Down>, r: string, x: ResId) returns (more: seq<Down>)
    requires UndisturbedRun(c, run) && Acting(Last(run), r) && HooksFor(c, r).Some?
    requires Last(run).procs[r] == Hooking(true, |HooksFor(c, r).value|)
    ensures UndisturbedRun(c, more) && LeavesAlone(Last(run), Last(more), x)
    ensures Last(more).procs == Last(run).procs[r := Hooking(false, 0)] && Last(more).removed == Last(run).removed
  {
    hide IsRun, HooksFor, RunsOf;
    var s := Last(run);
    var s1 := Advance(s, r, Operating);
    more := Extend(c, run, s1, HooksDone(r));
    var s2 := Advance(s1, r, Hooking(false, 0)).(halted := if s.phase.Stopping? then s.halted + {r} else s.halted);
    more := Extend(c, more, s2, Operate(r, true));
  }

  lemma Ends(c: Config, run: seq<Down>, r: string, x: ResId) returns (more: seq<Down>)
    requires UndisturbedRun(c, run) && Acting(Last(run), r) && HooksFor(c, r).Some?
    requires Last(run).procs[r] == Hooking(false, |HooksFor(c, r).value|)
    ensures UndisturbedRun(c, more) && LeavesAlone(Last(run), Last(more), x)
    ensures var s, s' := Last(run), Last(more);
      s'.procs == s.procs[r := Over] && s'.removed == if s.phase.Removing? then s.removed + {r} else s.removed
  {
    hide IsRun, HooksFor, RunsOf;
    var s := Last(run);
    var s' := Advance(s, r, Over).(removed := if s.phase.Removing? then s.removed + {r} else s.removed);
    more := Extend(c, run, s', HooksDone(r));
  }

  lemma OthersHarmless(c: Config, r: string, x: ResId, k: int, ev: LifecycleEvent)
    requires r != x.owner && HooksFor(c, r).Some? && 0 <= k < |HooksFor(c, r).value|
    ensures Harmless(c, r, k, ev, x)
  {
  }

  /** Another replica goes through its script. */
  lemma ReplicaEnds(c: Config, run: seq<Down>, r: string, x: ResId) returns (more: seq<Down>)
    requires UndisturbedRun(c, run) && Acting(Last(run), r) && Last(run).procs[r].NotStarted? && r != x.owner
    ensures UndisturbedRun(c, more) && LeavesAlone(Last(run), Last(more), x)
    ensures Last(more).procs == Last(run).procs[r := Over]
  {
    hide IsRun, HooksFor, RunsOf, Harmless;
    more := Begins(c, run, r, x);
    if !Last(more).procs[r].Over? {
      forall k, ev | 0 <= k < |HooksFor(c, r).value|
        ensures Harmless(c, r, k, ev, x)
      {
        OthersHarmless(c, r, x, k, ev);
      }
      more := HooksWork(c, more, r, x, |HooksFor(c, r).value|);
      more := Operates(c, more, r, x);
      more := HooksWork(c, more, r, x, |HooksFor(c, r).value|);
      more := Ends(c, more, r, x);
    }
  }

  lemma Begins(c: Config, run: seq<Down>, r: string, x: ResId) returns (more: seq<Down>)
    requires UndisturbedRun(c, run) && Acting(Last(run), r) && Last(run).procs[r].NotStarted? && r != x.owner
    ensures UndisturbedRun(c, more) && LeavesAlone(Last(run), Last(more), x)
    ensures var s, s' := Last(run), Last(more);
      s'.procs == s.procs[r := Over] || (HooksFor(c, r).Some? && s'.procs == s.procs[r := Hooking(true, 0)])
  {
    hide IsRun, HooksFor, RunsOf;
    var s := Last(run);
    var none := HooksFor(c, r).None?;
    if s.phase.Stopping? {
      var s' := Advance(s, r, if none then Over else Hooking(true, 0)).(
        stopped := s.stopped + {r}, kept := if none then s.kept + {r} else s.kept);
      more := Extend(c, run, s', BeginStop(r, true));
    } else {
      var s' := Advance(s, r, if r in s.kept || none then Over else Hooking(true, 0));
      more := Extend(c, run, s', BeginRemove(r));
    }
  }

  /** All of rs go through their scripts. */
  lemma {:induction false} ReplicasEnd(c: Config, run: seq<Down>, rs: set<string>, x: ResId) returns (more: seq<Down>)
    requires UndisturbedRun(c, run) && (Last(run).phase.Stopping? || Last(run).phase.Removing?) && x.owner !in rs
    requires forall r :: r in rs ==> r in Last(run).procs && Last(run).procs[r].NotStarted?
    ensures UndisturbedRun(c, more) && LeavesAlone(Last(run), Last(more), x)
    ensures var s, s' := Last(run), Last(more);
      && s'.procs.Keys == s.procs.Keys
      && forall r :: r in s.procs ==> s'.procs[r] == if r in rs then Over else s.procs[r]
    decreases rs
  {
    hide IsRun, RunsOf;
    more := run;
    if rs != {} {
      var r :| r in rs;
      more := ReplicaEnds(c, run, r, x);
      more := ReplicasEnd(c, more, rs - {r}, x);
    }
  }

  // ---- The failing hook ------------------------------------------------------

  /** The release of x as it fails in hook j. */
  function FailedRun(c: Config, x: ResId, j: nat, ev: LifecycleEvent): ReleaseRun
    requires HooksFor(c, x.owner).Some? && Declares(HooksFor(c, x.owner).value, j, x.key)
    requires ev in HooksFor(c, x.owner).value[j].events
  {
    var exec := HooksFor(c, x.owner).value[j].events[ev];
    var res := RunHook(c.holders, Some(x), ev, exec, None, FAILING);
    ReleaseRun(x, ev, RemoveHook, res.verdict, res.record, res.cut)
  }

  lemma FailingHook(holders: Holders, x: ResId, ev: LifecycleEvent, exec: Exec)
    ensures var res := RunHook(holders, Some(x), ev, exec, None, FAILING);
      && res.holders == holders && res.record.Some? && res.record.value.id == x && !res.done
      && (res.verdict.HookFailed? <==> Resolved(exec.onError) == Fail)
  {
  }

  lemma SameFailure(holders: Holders, holders': Holders, x: ResId, ev: LifecycleEvent, exec: Exec)
    requires x in holders && x in holders' && holders[x] == holders'[x]
    ensures var res, res' := RunHook(holders, Some(x), ev, exec, None, FAILING), RunHook(holders', Some(x), ev, exec, None, FAILING);
      res.record == res'.record && res.verdict == res'.verdict && res.cut == res'.cut
  {
  }

  /** The hook that releases x fails. */
  lemma HookFails(c: Config, run: seq<Down>, x: ResId, j: nat, ev: LifecycleEvent) returns (more: seq<Down>)
    requires UndisturbedRun(c, run) && AtHook(c, Last(run), x.owner) && Last(run).phase.Removing?
    requires Last(run).procs[x.owner].next == j && EventAt(c, Last(run), x.owner) == ev
    requires HooksFor(c, x.owner).Some? && Declares(HooksFor(c, x.owner).value, j, x.key) && ev in HooksFor(c, x.owner).value[j].events
    requires x in c.holders && x in Last(run).holders && Last(run).holders[x] == c.holders[x]
    ensures UndisturbedRun(c, more)
    ensures var s, s', failed := Last(run), Last(more), FailedRun(c, x, j, ev);
      && failed.record.Some? && failed.record.value.id == x
      && s'.phase == s.phase && s'.outcomes == s.outcomes && s'.holders == s.holders && s'.stopped == s.stopped && s'.kept == s.kept
      && s'.recorder == s.recorder + [failed.record.value]
      && RunsOf(s'.ran, x) == RunsOf(s.ran, x) + [failed]
      && (failed.verdict.HookFailed? <==> Resolved(HooksFor(c, x.owner).value[j].events[ev].onError) == Fail)
      && s'.procs == s.procs[x.owner := if failed.verdict.HookFailed? then Over else Hooking(s.procs[x.owner].pre, j + 1)]
      && s'.removed == if failed.verdict.HookFailed? && !s.procs[x.owner].pre then s.removed + {x.owner} else s.removed
  {
    hide IsRun, HooksFor, RunHook;
    var s := Last(run);
    var exec := HooksFor(c, x.owner).value[j].events[ev];
    FailingHook(s.holders, x, ev, exec);
    SameFailure(s.holders, c.holders, x, ev, exec);
    FailingHook(c.holders, x, ev, exec);
    var s' := RunsHook(c, s, x.owner, RunHook(s.holders, Some(x), ev, exec, None, FAILING));
    RunsOfSnoc(s.ran, s'.ran[|s.ran|], x);
    assert HookStep(c, s, s', x.owner, FAILING);
    more := Extend(c, run, s', RunNext(x.owner, FAILING));
  }

  // ---- The removal of the owner ----------------------------------------------

  /** The owner is removed, and the one run of the release of x failed in its hooks. */
  ghost predicate RemovedUnreleased(c: Config, s: Down, x: ResId, j: nat, ev: LifecycleEvent)
    requires HooksFor(c, x.owner).Some? && Declares(HooksFor(c, x.owner).value, j, x.key)
    requires ev in HooksFor(c, x.owner).value[j].events
  {
    && RunsOf(s.ran, x) == [FailedRun(c, x, j, ev)] && FailedRun(c, x, j, ev).record.Some? && FailedRun(c, x, j, ev).record.value.id == x
    && s.recorder == [FailedRun(c, x, j, ev).record.value] && s.outcomes == []
    && x in c.holders && x in s.holders && s.holders[x] == c.holders[x]
    && x.owner in s.removed && x.owner !in s.stopped
  }

  /** Hook j of the owner releases x, at one event. */
  ghost predicate ReleasedBy(c: Config, x: ResId, j: nat, ev: LifecycleEvent) {
    && HooksFor(c, x.owner).Some? && Declares(HooksFor(c, x.owner).value, j, x.key)
    && ev in HooksFor(c, x.owner).value[j].events && !Acquires(ev)
  }

  lemma OwnerHarmless(c: Config, x: ResId, j: nat, ev: LifecycleEvent, k: int, e: LifecycleEvent)
    requires ConfigOk(c) && ReleasedBy(c, x, j, ev) && 0 <= k < |HooksFor(c, x.owner).value| && !Acquires(e) && (k != j || e != ev)
    ensures Harmless(c, x.owner, k, e, x)
  {
    hide HooksOk;
    if !Harmless(c, x.owner, k, e, x) {
      ReleasedOnce(c, x.owner, j, ev, k, e, x.key);
    }
  }

  lemma OwnerHarmlessAll(c: Config, x: ResId, j: nat, ev: LifecycleEvent)
    requires ConfigOk(c) && ReleasedBy(c, x, j, ev)
    ensures forall k, e :: 0 <= k < |HooksFor(c, x.owner).value| && !Acquires(e) && (k != j || e != ev) ==> Harmless(c, x.owner, k, e, x)
  {
    hide ConfigOk, HooksFor, Harmless;
    forall k, e | 0 <= k < |HooksFor(c, x.owner).value| && !Acquires(e) && (k != j || e != ev)
      ensures Harmless(c, x.owner, k, e, x)
    {
      OwnerHarmless(c, x, j, ev, k, e);
    }
  }

  lemma OwnerBegins(c: Config, run: seq<Down>, x: ResId) returns (more: seq<Down>)
    requires UndisturbedRun(c, run) && HooksFor(c, x.owner).Some?
    requires var s := Last(run);
      s.phase.Removing? && x.owner in s.procs && s.procs[x.owner].NotStarted? && x.owner !in s.kept
    ensures UndisturbedRun(c, more) && LeavesAlone(Last(run), Last(more), x)
    ensures Last(more).procs == Last(run).procs[x.owner := Hooking(true, 0)]
  {
    hide IsRun, HooksFor, RunsOf;
    var s' := Advance(Last(run), x.owner, Hooking(true, 0));
    more := Extend(c, run, s', BeginRemove(x.owner));
  }

  /** The release fails behind the removal. */
  lemma OwnerFailsAfter(c: Config, run: seq<Down>, x: ResId, j: nat) returns (more: seq<Down>)
    requires ConfigOk(c) && UndisturbedRun(c, run) && ReleasedBy(c, x, j, RemovePost) && x in c.holders
    requires OwnerReady(c, Last(run), x) && Last(run).procs[x.owner] == Hooking(true, 0)
    ensures UndisturbedRun(c, more) && RemovedUnreleased(c, Last(more), x, j, RemovePost) && OwnerOver(Last(run), Last(more), x)
  {
    hide IsRun, HooksFor, RunsOf, Harmless, ConfigOk, FailedRun;
    OwnerHarmlessAll(c, x, j, RemovePost);
    var n := |HooksFor(c, x.owner).value|;
    more := HooksWork(c, run, x.owner, x, n);
    more := Operates(c, more, x.owner, x);
    more := HooksWork(c, more, x.owner, x, j);
    more := HookFails(c, more, x, j, RemovePost);
    if !FailedRun(c, x, j, RemovePost).verdict.HookFailed? {
      more := HooksWork(c, more, x.owner, x, n);
      more := Ends(c, more, x.owner, x);
    }
  }

  /** The release fails before the removal, and the owner goes all the same. */
  lemma OwnerFailsBefore(c: Config, run: seq<Down>, x: ResId, j: nat) returns (more: seq<Down>)
    requires ConfigOk(c) && UndisturbedRun(c, run) && ReleasedBy(c, x, j, RemovePre) && x in c.holders
    requires Resolved(HooksFor(c, x.owner).value[j].events[RemovePre].onError) != Fail
    requires OwnerReady(c, Last(run), x) && Last(run).procs[x.owner] == Hooking(true, 0)
    ensures UndisturbedRun(c, more) && RemovedUnreleased(c, Last(more), x, j, RemovePre) && OwnerOver(Last(run), Last(more), x)
  {
    hide IsRun, HooksFor, RunsOf, Harmless, ConfigOk, FailedRun;
    OwnerHarmlessAll(c, x, j, RemovePre);
    var n := |HooksFor(c, x.owner).value|;
    more := HooksWork(c, run, x.owner, x, j);
    more := HookFails(c, more, x, j, RemovePre);
    more := HooksWork(c, more, x.owner, x, n);
    more := Operates(c, more, x.owner, x);
    more := HooksWork(c, more, x.owner, x, n);
    more := Ends(c, more, x.owner, x);
  }

  /** Nothing has failed, the holder is stored and the owner is in the remove phase. */
  ghost predicate OwnerReady(c: Config, s: Down, x: ResId) {
    && s.phase.Removing? && x.owner in s.procs && x.owner !in s.stopped && x.owner !in s.kept
    && s.recorder == [] && s.outcomes == [] && RunsOf(s.ran, x) == []
    && (x in s.holders <==> x in c.holders) && (x in c.holders ==> s.holders[x] == c.holders[x])
  }

  ghost predicate OwnerOver(s: Down, s': Down, x: ResId) {
    s'.phase == s.phase && x.owner in s.procs && s'.procs == s.procs[x.owner := Over]
  }

  // ---- The whole teardown ----------------------------------------------------

  /** Every stop works. */
  lemma StopsEnd(c: Config, x: ResId) returns (run: seq<Down>)
    requires x.owner !in c.stops
    ensures UndisturbedRun(c, run) && AllOver(Last(run)) && LeavesAlone(InitState(c), Last(run), x)
  {
    hide IsRun, RunsOf;
    run := [InitState(c)];
    assert IsRun(c, run) by { InitRun(c); }
    run := ReplicasEnd(c, run, c.stops, x);
  }

  lemma InitRun(c: Config)
    ensures IsRun(c, [InitState(c)])
  {
  }

  lemma NothingTaken()
    ensures TakenOnce([], []) && RetriesFor([], map[]) == {}
  {
  }

  /** Nothing failed, so nothing is retried. */
  lemma RemovesBegin(c: Config, x: ResId) returns (run: seq<Down>)
    requires ConfigOk(c) && x.owner in c.removes && x.owner !in c.stops
    ensures UndisturbedRun(c, run) && OwnerReady(c, Last(run), x) && Last(run).procs == Fresh(c.removes)
  {
    hide IsRun, RunsOf, RetriesFor, TakenOnce;
    run := StopsEnd(c, x);
    assert RunsOf([], x) == [] by { NoRuns(x); }
    NothingTaken();
    var s := Last(run);
    var s1 := s.(phase := Retrying({}), recorder := [], listing := map[], procs := map[]);
    run := Extend(c, run, s1, StopsReturned([], None));
    var s2 := s1.(phase := Removing, procs := Fresh(c.removes));
    run := Extend(c, run, s2, RetriesReturned);
  }

  lemma NoRuns(x: ResId)
    ensures RunsOf([], x) == []
  {
  }

  lemma OwnerGoes(c: Config, x: ResId, j: nat, ev: LifecycleEvent) returns (run: seq<Down>)
    requires ConfigOk(c) && x.owner in c.removes && x.owner !in c.stops && x in c.holders && ReleasedBy(c, x, j, ev)
    requires ev == RemovePost || (ev == RemovePre && Resolved(HooksFor(c, x.owner).value[j].events[RemovePre].onError) != Fail)
    ensures UndisturbedRun(c, run) && RemovedUnreleased(c, Last(run), x, j, ev)
    ensures Last(run).phase.Removing? && AllOver(Last(run))
  {
    hide IsRun, RunsOf, FailedRun, HooksFor, ConfigOk;
    run := RemovesBegin(c, x);
    run := OwnerBegins(c, run, x);
    assert OwnerReady(c, Last(run), x);
    if ev == RemovePost {
      run := OwnerFailsAfter(c, run, x, j);
    } else {
      run := OwnerFailsBefore(c, run, x, j);
    }
    run := ReplicasEnd(c, run, c.removes - {x.owner}, x);
  }

  /** The release of x as it works once it is stranded. */
  function StrandedRun(c: Config, x: ResId): ReleaseRun
    requires StoresStopRelease(c, x)
  {
    ReleaseRun(x, c.holders[x].holder.release.value.event, Stranded, Succeeded, None, false)
  }

  lemma WorkingRelease(holders: Holders, x: ResId, h: Holder, force: bool)
    requires h.release.Some?
    ensures RunRelease(holders, x, h, force, WORKING) == HookResult(holders - {x}, None, Succeeded, false, false)
  {
  }

  /** The stranded release of y works. */
  lemma ReleaseWorks(c: Config, run: seq<Down>, y: ResId) returns (more: seq<Down>)
    requires UndisturbedRun(c, run) && Last(run).phase.Stranding? && y in Last(run).phase.stranded
    requires Last(run).phase.stranded[y].release.Some?
    ensures UndisturbedRun(c, more)
    ensures var s, s' := Last(run), Last(more);
      && s'.phase == Stranding(s.phase.stranded - {y}) && s'.recorder == s.recorder
      && s'.ran == s.ran + [ReleaseRun(y, s.phase.stranded[y].release.value.event, Stranded, Succeeded, None, false)]
  {
    hide IsRun, RunRelease;
    var s := Last(run);
    var h := s.phase.stranded[y];
    WorkingRelease(s.holders, y, h, c.force);
    var s' := s.(phase := Stranding(s.phase.stranded - {y}), holders := s.holders - {y}, recorder := s.recorder + [],
                 outcomes := s.outcomes + [ReleaseOutcome(Some(y), h.value, None, None, false)],
                 ran := s.ran + [ReleaseRun(y, h.release.value.event, Stranded, Succeeded, None, false)]);
    assert ReleaseStep(c, s, s', y, WORKING);
    more := Extend(c, run, s', RunStranded(y, WORKING));
  }

  /** The other stranded releases work. */
  lemma {:induction false} ReleasesWork(c: Config, run: seq<Down>, x: ResId) returns (more: seq<Down>)
    requires UndisturbedRun(c, run) && Last(run).phase.Stranding? && x !in Last(run).phase.stranded
    requires forall y :: y in Last(run).phase.stranded ==> Last(run).phase.stranded[y].release.Some?
    ensures UndisturbedRun(c, more) && Last(more).phase.Ended?
    ensures Last(more).recorder == Last(run).recorder && RunsOf(Last(more).ran, x) == RunsOf(Last(run).ran, x)
    decreases Last(run).phase.stranded.Keys
  {
    hide IsRun, RunsOf;
    var s := Last(run);
    if s.phase.stranded.Keys == {} {
      assert s.phase.stranded == map[];
      more := Extend(c, run, s.(phase := Ended), ReleasesReturned);
    } else {
      var y :| y in s.phase.stranded.Keys;
      more := ReleaseWorks(c, run, y);
      RunsOfSnoc(s.ran, Last(more).ran[|s.ran|], x);
      assert RunsOf(s.ran, x) + [] == RunsOf(s.ran, x);
      more := ReleasesWork(c, more, x);
    }
  }

  lemma LeftStrandedRuns(c: Config, run: seq<Down>, x: ResId, j: nat, ev: LifecycleEvent) returns (more: seq<Down>)
    requires UndisturbedRun(c, run) && Last(run).phase.Removing? && AllOver(Last(run)) && c.whole && StoresStopRelease(c, x)
    requires ReleasedBy(c, x, j, ev) && RemovedUnreleased(c, Last(run), x, j, ev)
    ensures UndisturbedRun(c, more) && Last(more).phase.Ended?
    ensures LastRecord(Last(more).recorder, x) == FailedRun(c, x, j, ev).record && FailedRun(c, x, j, ev).record.Some?
    ensures RunsOf(Last(more).ran, x) == [FailedRun(c, x, j, ev), StrandedRun(c, x)]
  {
    hide IsRun, RunsOf, FailedRun, AllOver, HooksFor, AtStop;
    var s := Last(run);
    var s' := s.(phase := Stranding(StrandedHolders(c, s)));
    more := Extend(c, run, s', RemovesReturned(true, 0));
    assert x in StrandedHolders(c, s);
    more := ReleaseWorks(c, more, x);
    RunsOfSnoc(s.ran, Last(more).ran[|s.ran|], x);
    more := ReleasesWork(c, more, x);
  }

  /** Every such configuration whose owner is not to be stopped has an undisturbed
      teardown in which the release of x fails in a remove hook, works as stranded, and
      is still on record as failed. */
  lemma RunsTwice(c: Config, x: ResId) returns (run: seq<Down>)
    requires ConfigOk(c) && CanMisreport(c, x)
    ensures UndisturbedRun(c, run) && Last(run).phase.Ended?
    ensures var runs := RunsOf(Last(run).ran, x);
      StrandedAfterHook(c, x, runs) && !Failed(runs[1]) && LastRecord(Last(run).recorder, x).Some?
  {
    hide IsRun, RunsOf, HooksFor, ConfigOk, RunHook, AtStop;
    var hooks := HooksFor(c, x.owner).value;
    var j :| 0 <= j < |hooks| && GoesAnywayAt(hooks, x.key, j);
    var ev := if RemovePost in hooks[j].events then RemovePost else RemovePre;
    assert ReleasedBy(c, x, j, ev);
    run := OwnerGoes(c, x, j, ev);
    run := LeftStrandedRuns(c, run, x, j, ev);
    NotAtStop(ev);
  }

  lemma NotAtStop(ev: LifecycleEvent)
    ensures ev == RemovePre || ev == RemovePost ==> !AtStop(ev)
  {
  }

  // ---- A cancelled teardown --------------------------------------------------

  const CANCELLED := Env(true, false, false, false, 1, true, true)

  /** Nothing happened to x or its owner under the done context. */
  ghost predicate Spares(s: Down, s': Down, x: ResId) {
    && s.done && s'.done && s'.phase == s.phase
    && RunsOf(s'.ran, x) == RunsOf(s.ran, x) && s'.holders == s.holders
    && s'.kept == s.kept && s'.stopped == s.stopped
    && (x.owner in s.removed ==> x.owner in s'.removed)
  }

  /** No stop begins. */
  lemma {:induction false} NoneStops(c: Config, run: seq<Down>, rs: set<string>) returns (more: seq<Down>)
    requires Ran(c, run) && Last(run).phase.Stopping? && Last(run).done
    requires forall r :: r in Last(run).procs ==> if r in rs then Last(run).procs[r].NotStarted? else Last(run).procs[r].Over?
    requires rs <= Last(run).procs.Keys
    ensures Ran(c, more) && AllOver(Last(more)) && Last(more) == Last(run).(procs := Last(more).procs)
    decreases rs
  {
    hide IsRun;
    more := run;
    if rs != {} {
      var r :| r in rs;
      more := Extend(c, run, Advance(Last(run), r, Over).(done := true), BeginStop(r, false));
      more := NoneStops(c, more, rs - {r});
    }
  }

  lemma CancelledHook(holders: Holders, resource: Option<ResId>, ev: LifecycleEvent, exec: Exec, given: Option<Holder>)
    ensures var res := RunHook(holders, resource, ev, exec, given, CANCELLED);
      res.holders == holders && res.verdict.HookFailed? && (resource.Some? ==> res.record.Some?) && res.done
  {
  }

  /** The next hook is passed over, or fails and ends the removal. */
  lemma HookCancelled(c: Config, run: seq<Down>, r: string, x: ResId) returns (more: seq<Down>)
    requires Ran(c, run) && Last(run).done && Last(run).phase.Removing? && AtHook(c, Last(run), r) && r != x.owner
    ensures Ran(c, more) && Spares(Last(run), Last(more), x)
    ensures var s, s' := Last(run), Last(more);
      s'.procs == s.procs[r := Hooking(s.procs[r].pre, s.procs[r].next + 1)] || s'.procs == s.procs[r := Over]
  {
    hide IsRun, RunHook, HooksFor;
    var s := Last(run);
    var h, ev := HookAt(c, s, r), EventAt(c, s, r);
    var s' := Advance(s, r, Hooking(s.procs[r].pre, s.procs[r].next + 1));
    if ev in h.events {
      CancelledHook(s.holders, ResourceOf(h, r), ev, h.events[ev], None);
      s' := RunsHook(c, s, r, RunHook(s.holders, ResourceOf(h, r), ev, h.events[ev], None, CANCELLED));
      if h.resource.Some? {
        RunsOfSnoc(s.ran, s'.ran[|s.ran|], x);
        assert RunsOf(s.ran, x) + [] == RunsOf(s.ran, x);
      }
    }
    assert HookStep(c, s, s', r, CANCELLED);
    more := Extend(c, run, s', RunNext(r, CANCELLED));
  }

  /** The removal of another replica fails, at a hook or itself. */
  lemma {:induction false} RemovalCancelled(c: Config, run: seq<Down>, r: string, x: ResId) returns (more: seq<Down>)
    requires Ran(c, run) && Last(run).done && Last(run).phase.Removing? && r != x.owner && r in Last(run).procs && HooksFor(c, r).Some?
    requires Last(run).procs[r].Hooking? && Last(run).procs[r].pre && Last(run).procs[r].next <= |HooksFor(c, r).value|
    ensures Ran(c, more) && Spares(Last(run), Last(more), x) && Last(more).procs == Last(run).procs[r := Over]
    decreases |HooksFor(c, r).value| - Last(run).procs[r].next
  {
    hide IsRun, HooksFor, RunsOf;
    var s := Last(run);
    if s.procs[r].next == |HooksFor(c, r).value| {
      var s1 := Advance(s, r, Operating);
      more := Extend(c, run, s1, HooksDone(r));
      more := Extend(c, more, Advance(s1, r, Over), Operate(r, false));
    } else {
      more := HookCancelled(c, run, r, x);
      if !Last(more).procs[r].Over? {
        more := RemovalCancelled(c, more, r, x);
      }
    }
  }

  lemma {:induction false} RemovalsCancelled(c: Config, run: seq<Down>, rs: set<string>, x: ResId) returns (more: seq<Down>)
    requires Ran(c, run) && Last(run).done && Last(run).phase.Removing? && x.owner !in rs
    requires forall r :: r in rs ==> r in Last(run).procs && Last(run).procs[r].NotStarted?
    ensures Ran(c, more) && Spares(Last(run), Last(more), x)
    ensures var s, s' := Last(run), Last(more);
      && s'.procs.Keys == s.procs.Keys
      && forall r :: r in s.procs ==> s'.procs[r] == if r in rs then Over else s.procs[r]
    decreases rs
  {
    hide IsRun, RunsOf, HooksFor;
    more := run;
    if rs != {} {
      var r :| r in rs;
      var s := Last(run);
      var refused := r in s.kept || HooksFor(c, r).None?;
      more := Extend(c, run, Advance(s, r, if refused then Over else Hooking(true, 0)), BeginRemove(r));
      if !refused {
        more := RemovalCancelled(c, more, r, x);
      }
      more := RemovalsCancelled(c, more, rs - {r}, x);
    }
  }

  /** Hooks that do not set the event are passed over. */
  lemma {:induction false} HooksPassed(c: Config, run: seq<Down>, r: string, end: nat) returns (more: seq<Down>)
    requires Ran(c, run) && Last(run).done && Last(run).phase.Removing? && r in Last(run).procs && HooksFor(c, r).Some?
    requires Last(run).procs[r].Hooking? && Last(run).procs[r].next <= end <= |HooksFor(c, r).value|
    requires forall k :: Last(run).procs[r].next <= k < end ==>
               StageEvent(false, Last(run).procs[r].pre) !in HooksFor(c, r).value[k].events
    ensures Ran(c, more) && Last(more) == Advance(Last(run), r, Hooking(Last(run).procs[r].pre, end))
    decreases end - Last(run).procs[r].next
  {
    hide IsRun, HooksFor;
    more := run;
    var s := Last(run);
    if s.procs[r].next < end {
      var s' := Advance(s, r, Hooking(s.procs[r].pre, s.procs[r].next + 1));
      assert HookStep(c, s, s', r, CANCELLED);
      more := Extend(c, run, s', RunNext(r, CANCELLED));
      more := HooksPassed(c, more, r, end);
    }
  }

  /** The owner is removed, and the release of x fails behind that as the first of its
      hooks. */
  lemma OwnerCancelled(c: Config, run: seq<Down>, x: ResId, j: nat) returns (more: seq<Down>)
    requires Ran(c, run) && Last(run).done && Last(run).phase.Removing? && HooksFor(c, x.owner).Some?
    requires j < |HooksFor(c, x.owner).value| && FirstAtRemoveAt(HooksFor(c, x.owner).value, x.key, j)
    requires x.owner in Last(run).procs && Last(run).procs[x.owner].NotStarted? && x.owner !in Last(run).kept
    ensures Ran(c, more)
    ensures var s, s' := Last(run), Last(more);
      && s'.done && s'.phase == s.phase && s'.holders == s.holders && s'.kept == s.kept && s'.stopped == s.stopped
      && s'.procs == s.procs[x.owner := Over] && x.owner in s'.removed
      && exists hook :: RunsOf(s'.ran, x) == RunsOf(s.ran, x) + [hook]
                        && hook.source.RemoveHook? && hook.event == RemovePost && Failed(hook)
  {
    hide IsRun, HooksFor, RunHook, RunsOf;
    var r, hooks := x.owner, HooksFor(c, x.owner).value;
    more := Extend(c, run, Advance(Last(run), r, Hooking(true, 0)), BeginRemove(r));
    more := HooksPassed(c, more, r, |hooks|);
    more := Extend(c, more, Advance(Last(more), r, Operating), HooksDone(r));
    more := Extend(c, more, Advance(Last(more), r, Hooking(false, 0)), Operate(r, true));
    more := HooksPassed(c, more, r, j);
    var s := Last(more);
    var exec := hooks[j].events[RemovePost];
    CancelledHook(s.holders, Some(x), RemovePost, exec, None);
    var s' := RunsHook(c, s, r, RunHook(s.holders, Some(x), RemovePost, exec, None, CANCELLED));
    var hook := s'.ran[|s.ran|];
    RunsOfSnoc(s.ran, hook, x);
    assert HookStep(c, s, s', r, CANCELLED);
    more := Extend(c, more, s', RunNext(r, CANCELLED));
    assert RunsOf(s'.ran, x) == RunsOf(s.ran, x) + [hook];
  }

  lemma CancelledRemoves(c: Config) returns (run: seq<Down>)
    ensures Ran(c, run)
    ensures var s := Last(run);
      && s.phase.Removing? && s.done && s.procs == Fresh(c.removes) && s.holders == c.holders
      && s.kept == {} && s.stopped == {} && s.ran == []
  {
    hide IsRun, RetriesFor, TakenOnce;
    run := [InitState(c)];
    assert IsRun(c, run) by { InitRun(c); }
    run := Extend(c, run, InitState(c).(done := true), Cancel);
    run := NoneStops(c, run, c.stops);
    NothingTaken();
    var s1 := Last(run).(phase := Retrying({}), procs := map[]);
    run := Extend(c, run, s1, StopsReturned([], None));
    run := Extend(c, run, s1.(phase := Removing, procs := Fresh(c.removes)), RetriesReturned);
  }

  /** A configuration whose owner is to be stopped has a teardown, cancelled before that
      stop begins, in which both runs are made and fail. */
  lemma RunsTwiceCancelled(c: Config, x: ResId) returns (run: seq<Down>)
    requires ConfigOk(c) && CanRunTwice(c, x) && x.owner in c.stops
    ensures Ran(c, run) && StrandedAfterHook(c, x, RunsOf(Last(run).ran, x))
  {
    hide IsRun, HooksFor, RunHook, RunsOf, ConfigOk, AtStop, AllOver;
    var hooks := HooksFor(c, x.owner).value;
    var j :| 0 <= j < |hooks| && FirstAtRemoveAt(hooks, x.key, j);
    run := CancelledRemoves(c);
    NoRuns(x);
    run := RemovalsCancelled(c, run, c.removes - {x.owner}, x);
    run := OwnerCancelled(c, run, x, j);
    var s := Last(run);
    assert AllOver(s) by { EveryoneOver(s); }
    var hook :| RunsOf(s.ran, x) == [] + [hook] && hook.source.RemoveHook? && hook.event == RemovePost && Failed(hook);
    run := Extend(c, run, s.(phase := Stranding(StrandedHolders(c, s))), RemovesReturned(true, 0));
    assert x in StrandedHolders(c, s);
    run := ReleaseCancelled(c, run, x);
    NotAtStop(RemovePost);
  }

  lemma EveryoneOver(s: Down)
    requires forall r :: r in s.procs ==> s.procs[r] == Over
    ensures AllOver(s)
  {
  }

  /** The stranded release of x fails. */
  lemma ReleaseCancelled(c: Config, run: seq<Down>, x: ResId) returns (more: seq<Down>)
    requires Ran(c, run) && Last(run).done && Last(run).phase.Stranding? && x in Last(run).phase.stranded
    requires Last(run).phase.stranded[x].release.Some?
    ensures Ran(c, more)
    ensures exists run' :: RunsOf(Last(more).ran, x) == RunsOf(Last(run).ran, x) + [run']
                           && run'.source.Stranded? && run'.event == Last(run).phase.stranded[x].release.value.event
  {
    hide IsRun, RunRelease, RunsOf;
    var s := Last(run);
    var h := s.phase.stranded[x];
    var res := RunRelease(s.holders, x, h, c.force, CANCELLED);
    var stranded := ReleaseRun(x, h.release.value.event, Stranded, res.verdict, res.record, res.cut);
    var s' := s.(phase := Stranding(s.phase.stranded - {x}), holders := res.holders, done := s.done || res.done,
                 recorder := s.recorder + RecordSeq(res.record),
                 outcomes := s.outcomes + [ReleaseOutcome(Some(x), h.value,
                                             if res.verdict.HookFailed? then Some(CANCELLED.err) else None,
                                             if res.verdict.Warned? then Some(CANCELLED.err) else None, false)],
                 ran := s.ran + [stranded]);
    assert ReleaseStep(c, s, s', x, CANCELLED);
    more := Extend(c, run, s', RunStranded(x, CANCELLED));
    RunsOfSnoc(s.ran, stranded, x);
    assert RunsOf(Last(more).ran, x) == RunsOf(s.ran, x) + [stranded];
  }

  // ---- Exactly when ----------------------------------------------------------

  /** A release can run in a remove hook and once more as stranded exactly in such a
      configuration; only there does it run twice other than by a retry. */
  lemma TwiceExactly(c: Config, x: ResId)
    requires ConfigOk(c)
    ensures (exists run :: Ran(c, run) && StrandedAfterHook(c, x, RunsOf(Last(run).ran, x))) <==> CanRunTwice(c, x)
    ensures (exists run :: Ran(c, run) && TwiceUnretried(Last(run), x)) <==> CanRunTwice(c, x)
  {
    hide IsRun, RunsOf, StrandedAfterHook, CanRunTwice, ConfigOk, TwiceUnretried;
    if CanRunTwice(c, x) {
      var run: seq<Down>;
      if x.owner in c.stops {
        run := RunsTwiceCancelled(c, x);
      } else {
        run := RunsTwice(c, x);
      }
      StrandedUnretried(c, Last(run), x);
      assert Ran(c, run) && StrandedAfterHook(c, x, RunsOf(Last(run).ran, x)) && TwiceUnretried(Last(run), x);
    }
    forall run | Ran(c, run)
      ensures StrandedAfterHook(c, x, RunsOf(Last(run).ran, x)) || TwiceUnretried(Last(run), x) ==> CanRunTwice(c, x)
    {
      RunsAtMostTwice(c, run, |run| - 1, x);
      UnretriedMeans(Last(run), x);
      if StrandedAfterHook(c, x, RunsOf(Last(run).ran, x)) {
        StrandedNeeds(c, run, |run| - 1, x);
      }
    }
  }

  predicate TwiceUnretried(s: Down, x: ResId) {
    |RunsOf(s.ran, x)| == 2 && !RetriedOnce(s, x, RunsOf(s.ran, x))
  }

  lemma UnretriedMeans(s: Down, x: ResId)
    ensures TwiceUnretried(s, x) <==> |RunsOf(s.ran, x)| == 2 && !RetriedOnce(s, x, RunsOf(s.ran, x))
  {
  }

  lemma StrandedUnretried(c: Config, s: Down, x: ResId)
    requires StrandedAfterHook(c, x, RunsOf(s.ran, x))
    ensures TwiceUnretried(s, x)
  {
    hide RunsOf;
  }

  /** Without a cancellation, exactly when besides the owner is not to be stopped. */
  lemma TwiceUndisturbed(c: Config, x: ResId)
    requires ConfigOk(c)
    ensures (exists run :: UndisturbedRun(c, run) && StrandedAfterHook(c, x, RunsOf(Last(run).ran, x))) <==> CanMisreport(c, x)
  {
    hide IsRun, RunsOf, StrandedAfterHook, CanRunTwice, ConfigOk;
    if CanMisreport(c, x) {
      var run := RunsTwice(c, x);
    }
    forall run | UndisturbedRun(c, run) && StrandedAfterHook(c, x, RunsOf(Last(run).ran, x))
      ensures CanMisreport(c, x)
    {
      StrandedNeeds(c, run, |run| - 1, x);
      NoneMissed(c, run, x);
    }
  }

  lemma NoneMissed(c: Config, run: seq<Down>, x: ResId)
    requires ConfigOk(c) && UndisturbedRun(c, run) && StrandedAfterHook(c, x, RunsOf(Last(run).ran, x))
    ensures c.stops <= Last(run).stopped
  {
    hide IsRun, RunsOf, RemoveRunOk, RecordOk, ConfigOk, Untouched;
    RunHistory(c, run, |run| - 1);
    HistoryOf(c, Last(run), x, 1);
  }

  /** A teardown can report a release as failed whose last run worked exactly in such a
      configuration whose owner is not to be stopped. */
  lemma MisreportedExactly(c: Config, x: ResId)
    requires ConfigOk(c)
    ensures (exists run, out :: Ran(c, run) && Reported(Last(run), out) && ReportedFailed(out, x)
                                && !LastFailed(RunsOf(Last(run).ran, x))) <==> CanMisreport(c, x)
  {
    hide IsRun, RunsOf, CanMisreport, ConfigOk, Reports, SortFailures, StrandedAfterHook, LastRecord, ReportedFailed;
    if CanMisreport(c, x) {
      var run := RunsTwice(c, x);
      var out := EndReport(c, run);
      FailuresReportedOnce(c, run, out, x);
      TwoRuns(c, x, RunsOf(Last(run).ran, x));
      assert Reported(Last(run), out) && ReportedFailed(out, x) && !LastFailed(RunsOf(Last(run).ran, x));
    }
    forall run, out | Ran(c, run) && Reported(Last(run), out) && ReportedFailed(out, x) && !LastFailed(RunsOf(Last(run).ran, x))
      ensures CanMisreport(c, x)
    {
      FailuresReportedOnce(c, run, out, x);
    }
  }

  lemma EndReport(c: Config, run: seq<Down>) returns (out: seq<ReleaseOutcome>)
    requires ConfigOk(c) && Ran(c, run) && Last(run).phase.Ended?
    ensures Reported(Last(run), out)
  {
    hide IsRun, ConfigOk, Shapes, RetriesDue, StrandedDue, RecordsStand, HoldersConserved, KeptStays, Reports, SortFailures;
    RunInv(c, run, |run| - 1);
    out := ReportExists(Last(run).outcomes, SortFailures(Last(run).recorder));
  }

  // ---- An instance -----------------------------------------------------------

  const HOOK := Hook("h", Some("k"), map[CreatePre := Exec(["a"], Fail), RemovePre := Exec(["b"], Continue)])

  const STORED := Holder("v", Some(Release(StopPost, ["c"], Continue)))

  /** A replica that is not running, whose hook releases at remove_pre what its holder
      says is released at stop_post. */
  const MISMATCH :=
    Config(map["r" := Decoded([HOOK])], map[ResId("r", "k") := Readable(STORED)], {}, {"r"}, false, true)

  lemma MismatchRunsTwice()
    ensures ConfigOk(MISMATCH) && CanMisreport(MISMATCH, ResId("r", "k"))
  {
    assert AcquiresOf(HOOK) == {CreatePre} && ReleasesOf(HOOK) == {RemovePre};
    assert HookOk(HOOK);
    assert HooksOk([HOOK]);
    assert GoesAnywayAt([HOOK], "k", 0);
  }
}
