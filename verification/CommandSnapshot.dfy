/** The view of one compose command taken before a reconciliation begins: its
    stored replicas, and the state and exit code reduced over them. */
module CommandSnapshot {
  import opened Collections
  import opened Wrappers

  // Absent is the empty string of the source.
  datatype EventType = Absent | Created | Starting | Running | Exited | Failed

  datatype Instance = Instance(genName: string, scaleIndex: int, state: EventType, exitCode: Option<int>)

  datatype Snapshot = Snapshot(instances: seq<Instance>, state: EventType, exitCode: Option<int>) {
    /** The snapshot narrowed to the given scale indices, reduced anew. */
    function Only(scaleIndices: seq<int>): Snapshot {
      var insts := Covered(instances, scaleIndices);
      var (state, exit) := Aggregate(insts);
      Snapshot(insts, state, exit)
    }
  }

  const EMPTY_SNAPSHOT := Snapshot([], Absent, None)

  function Covered(insts: seq<Instance>, scaleIndices: seq<int>): seq<Instance> {
    if insts == [] then []
    else
      var last := insts[|insts| - 1];
      Covered(insts[..|insts| - 1], scaleIndices) + if last.scaleIndex in scaleIndices then [last] else []
  }

  function HasIndexIn(scaleIndices: seq<int>): Instance -> bool {
    (x: Instance) => x.scaleIndex in scaleIndices
  }

  lemma {:induction false} CoveredIsFilter(insts: seq<Instance>, scaleIndices: seq<int>)
    ensures IsFilter(Covered(insts, scaleIndices), insts, HasIndexIn(scaleIndices))
  {
    hide IsFilter;
    if insts == [] {
      NothingFiltered(HasIndexIn(scaleIndices));
    } else {
      var init, last := insts[..|insts| - 1], insts[|insts| - 1];
      var before := Covered(init, scaleIndices);
      CoveredIsFilter(init, scaleIndices);
      FilterMore(before, init, last, HasIndexIn(scaleIndices));
      assert init + [last] == insts;
      assert Covered(insts, scaleIndices) == if HasIndexIn(scaleIndices)(last) then before + [last] else before;
    }
  }

  predicate IsTerminal(s: EventType) {
    s == Exited || s == Failed
  }

  predicate IsActive(s: EventType) {
    s == Running || s == Starting
  }

  /** The first non-zero exit code recorded by an exited replica, otherwise zero
      when some exited replica recorded one, otherwise none. */
  function ExitOf(insts: seq<Instance>): Option<int> {
    if insts == [] then None
    else
      var last := insts[|insts| - 1];
      var exit := ExitOf(insts[..|insts| - 1]);
      if last.state == Exited && last.exitCode.Some?
         && (exit.None? || (exit.value == 0 && last.exitCode.value != 0))
      then last.exitCode else exit
  }

  predicate AnyFailed(insts: seq<Instance>) {
    exists i :: 0 <= i < |insts| && insts[i].state == Failed
  }

  predicate AllExited(insts: seq<Instance>) {
    forall i :: 0 <= i < |insts| ==> insts[i].state == Exited
  }

  predicate AllActive(insts: seq<Instance>) {
    forall i :: 0 <= i < |insts| ==> IsActive(insts[i].state)
  }

  function Aggregate(insts: seq<Instance>): (EventType, Option<int>) {
    if insts == [] then (Absent, None)
    else if AnyFailed(insts) then (Failed, ExitOf(insts))
    else if AllExited(insts) then (Exited, ExitOf(insts))
    else if AllActive(insts) then (Running, None)
    else (Starting, None)
  }

  method AggregateInstances(insts: seq<Instance>) returns (state: EventType, exitCode: Option<int>)
    ensures (state, exitCode) == Aggregate(insts)
  {
    if |insts| == 0 {
      return Absent, None;
    }
    var anyFailed, allExited, allActive := false, true, true;
    var exit: Option<int> := None;
    for i := 0 to |insts|
      invariant anyFailed == AnyFailed(insts[..i])
      invariant allExited == AllExited(insts[..i])
      invariant allActive == AllActive(insts[..i])
      invariant exit == ExitOf(insts[..i])
    {
      var in_ := insts[i];
      assert insts[..i + 1][..i] == insts[..i];
      assert forall j :: 0 <= j < i ==> insts[..i + 1][j] == insts[..i][j];
      assert insts[..i + 1][i] == in_;
      match in_.state
      case Failed =>
        anyFailed, allExited, allActive := true, false, false;
      case Exited =>
        allActive := false;
        if in_.exitCode.Some? && (exit.None? || (exit.value == 0 && in_.exitCode.value != 0)) {
          exit := in_.exitCode;
        }
      case Running | Starting =>
        allExited := false;
      case _ =>
        allExited, allActive := false, false;
    }
    assert insts[..|insts|] == insts;
    if anyFailed {
      return Failed, exit;
    } else if allExited {
      return Exited, exit;
    } else if allActive {
      return Running, None;
    } else {
      return Starting, None;
    }
  }

  /** Replica i exited and recorded a code. */
  predicate RecordsExit(insts: seq<Instance>, i: int) {
    0 <= i < |insts| && insts[i].state == Exited && insts[i].exitCode.Some?
  }

  lemma {:induction false} ExitOfNone(insts: seq<Instance>, i: int)
    requires RecordsExit(insts, i)
    ensures ExitOf(insts).Some?
  {
    var init := insts[..|insts| - 1];
    if i < |init| {
      assert RecordsExit(init, i);
      ExitOfNone(init, i);
    }
  }

  lemma {:induction false} ExitOfFirst(insts: seq<Instance>) returns (i: int)
    requires ExitOf(insts).Some?
    ensures RecordsExit(insts, i) && insts[i].exitCode == ExitOf(insts)
  {
    var init := insts[..|insts| - 1];
    if ExitOf(insts) == ExitOf(init) {
      i := ExitOfFirst(init);
    } else {
      i := |init|;
    }
  }

  lemma {:induction false} ExitOfNonZero(insts: seq<Instance>, i: int)
    requires RecordsExit(insts, i) && insts[i].exitCode.value != 0
    ensures ExitOf(insts).Some? && ExitOf(insts).value != 0
  {
    var init := insts[..|insts| - 1];
    if i < |init| {
      assert RecordsExit(init, i);
      ExitOfNonZero(init, i);
    }
  }

  /** Replica i is the first one that recorded a code other than zero. */
  predicate FirstNonZero(insts: seq<Instance>, i: int) {
    && RecordsExit(insts, i) && insts[i].exitCode.value != 0
    && forall j :: 0 <= j < i && RecordsExit(insts, j) ==> insts[j].exitCode.value == 0
  }

  lemma {:induction false} ExitOfFirstNonZero(insts: seq<Instance>, i: int)
    requires FirstNonZero(insts, i)
    ensures ExitOf(insts) == insts[i].exitCode
  {
    var n := |insts| - 1;
    if i < n {
      assert RecordsExit(insts[..n], i);
      forall j | 0 <= j < i && RecordsExit(insts[..n], j)
        ensures insts[..n][j].exitCode.value == 0
      {
        assert RecordsExit(insts, j);
      }
      ExitOfFirstNonZero(insts[..n], i);
    } else if ExitOf(insts[..n]).Some? {
      var k := ExitOfFirst(insts[..n]);
      assert RecordsExit(insts, k);
    }
  }

  lemma ExitOfIs(insts: seq<Instance>)
    ensures ExitOf(insts).None? <==> forall i :: !RecordsExit(insts, i)
    ensures (forall i :: RecordsExit(insts, i) ==> insts[i].exitCode.value == 0) ==> ExitOf(insts) in {None, Some(0)}
    ensures forall i :: FirstNonZero(insts, i) ==> ExitOf(insts) == insts[i].exitCode
  {
    hide ExitOf;
    if ExitOf(insts).Some? {
      var k := ExitOfFirst(insts);
    }
    forall i | RecordsExit(insts, i)
      ensures ExitOf(insts).Some?
    {
      ExitOfNone(insts, i);
    }
    forall i | FirstNonZero(insts, i)
      ensures ExitOf(insts) == insts[i].exitCode
    {
      ExitOfFirstNonZero(insts, i);
    }
  }

  /** Some replica failed: failed. All exited: exited. All running or starting: running.
      Anything else: starting; and absent when there is none. A command that has ended
      has the first code other than zero that a replica recorded, else zero if one
      recorded a code. */
  lemma AggregateMeans(insts: seq<Instance>)
    ensures var (state, exit) := Aggregate(insts);
      && (state == Absent <==> insts == [])
      && (state == Failed <==> exists i :: 0 <= i < |insts| && insts[i].state == Failed)
      && (state == Exited <==> insts != [] && forall i :: 0 <= i < |insts| ==> insts[i].state == Exited)
      && (state == Running <==> insts != [] && forall i :: 0 <= i < |insts| ==> insts[i].state == Running || insts[i].state == Starting)
      && state != Created
      && (state != Exited && state != Failed ==> exit.None?)
      && (state == Exited || state == Failed ==>
            && (exit.None? <==> forall i :: !RecordsExit(insts, i))
            && ((forall i :: RecordsExit(insts, i) ==> insts[i].exitCode.value == 0) ==> exit in {None, Some(0)})
            && forall i :: FirstNonZero(insts, i) ==> exit == insts[i].exitCode)
  {
    ExitOfIs(insts);
    hide ExitOf, RecordsExit, FirstNonZero;
    if AnyFailed(insts) {
      var i :| 0 <= i < |insts| && insts[i].state == Failed;
      assert !AllExited(insts) && !AllActive(insts);
    } else if AllActive(insts) && insts != [] {
      assert insts[0].state != Exited;
    }
  }

  /** A command completed successfully exactly when every replica exited and
      every exit code recorded is zero, with at least one recorded. */
  lemma AggregateSuccess(insts: seq<Instance>)
    ensures Aggregate(insts) == (Exited, Some(0)) <==>
            && AllExited(insts)
            && (exists i :: RecordsExit(insts, i))
            && (forall i :: RecordsExit(insts, i) ==> insts[i].exitCode.value == 0)
  {
    if Aggregate(insts) == (Exited, Some(0)) {
      var j := ExitOfFirst(insts);
      forall i | RecordsExit(insts, i)
        ensures insts[i].exitCode.value == 0
      {
        if insts[i].exitCode.value != 0 {
          ExitOfNonZero(insts, i);
        }
      }
    } else if AllExited(insts) && exists i :: RecordsExit(insts, i) {
      var i :| RecordsExit(insts, i);
      ExitOfNone(insts, i);
      var j := ExitOfFirst(insts);
      assert RecordsExit(insts, j) && insts[j].exitCode == ExitOf(insts);
    }
  }
}
