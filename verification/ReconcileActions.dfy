/** What the action of a start walk does to the replicas of one vertex. The service
    calls it makes are given by their results. */
module ReconcileActions {
  import opened Wrappers
  import opened Collections
  import opened CommandSnapshot
  import opened ComposeSpec
  import opened Naming
  import opened ReconcileGraph

  // The result of waiting for one replica, and of the wait as a whole.
  datatype WaitResult = WaitResult(exitCode: Option<int>, err: Option<int>)

  datatype WaitOutcome = WaitFailed(code: int) | Waited(results: seq<WaitResult>)

  /** The scale indices 1..Scale, at least one. */
  function AllReplicaIndices(c: Command): seq<int> {
    seq(if c.scale > 1 then c.scale else 1, i => i + 1)
  }

  /** The vertex covers the replica: the selected ones, else 1 up to the scale, and the
      first at any rate. */
  predicate Covers(x: Vertex, index: int)
    requires x.command.Some?
  {
    if x.replicas.Some? then index in x.replicas.value else index == 1 || 2 <= index <= x.command.value.scale
  }

  function ReplicaIndices(x: Vertex): seq<int>
    requires x.command.Some?
  {
    if x.replicas.Some? then x.replicas.value else AllReplicaIndices(x.command.value)
  }

  function InstanceNames(x: Vertex): seq<string>
    requires x.command.Some?
  {
    var indices := ReplicaIndices(x);
    seq(|indices|, i requires 0 <= i < |indices| => InstanceName(x.command.value.generatedName, indices[i]))
  }

  /** The names a vertex acts on are those of the replicas it covers, in the order they
      are selected in, else counting up. */
  lemma NamesCovered(x: Vertex, name: string)
    requires x.command.Some?
    ensures name in InstanceNames(x) <==> exists index :: Covers(x, index) && name == InstanceName(x.command.value.generatedName, index)
    ensures x.replicas.None? ==> forall k :: 0 <= k < |ReplicaIndices(x)| ==> ReplicaIndices(x)[k] == k + 1
    ensures x.replicas.Some? ==> ReplicaIndices(x) == x.replicas.value
  {
    hide InstanceName;
    var indices, c := ReplicaIndices(x), x.command.value;
    if index :| Covers(x, index) && name == InstanceName(c.generatedName, index) {
      var k :| 0 <= k < |indices| && indices[k] == index by {
        assert x.replicas.None? ==> indices[index - 1] == index;
      }
      assert InstanceNames(x)[k] == name;
    }
    if name in InstanceNames(x) {
      var k :| 0 <= k < |indices| && InstanceNames(x)[k] == name;
      assert indices[k] in indices && Covers(x, indices[k]);
    }
  }

  /** The stored replica of a name, the last one when several share it. */
  function Stored(insts: seq<Instance>, name: string): Option<Instance> {
    if insts == [] then None
    else if insts[|insts| - 1].genName == name then Some(insts[|insts| - 1])
    else Stored(insts[..|insts| - 1], name)
  }

  predicate Active(insts: seq<Instance>, name: string) {
    var stored := Stored(insts, name);
    stored.Some? && IsActive(stored.value.state)
  }

  /** The last stored replica of the name is running or starting. */
  ghost predicate IsUp(insts: seq<Instance>, name: string) {
    exists k :: LastOf(insts, name, k) && insts[k].state in {Running, Starting}
  }

  predicate LastOf(insts: seq<Instance>, name: string, k: int) {
    0 <= k < |insts| && insts[k].genName == name && forall j :: k < j < |insts| ==> insts[j].genName != name
  }

  lemma {:induction false} ActiveIsUp(insts: seq<Instance>, name: string)
    ensures Active(insts, name) <==> IsUp(insts, name)
  {
    if insts != [] {
      var n := |insts| - 1;
      if insts[n].genName == name {
        assert LastOf(insts, name, n);
      } else {
        ActiveIsUp(insts[..n], name);
        if k :| LastOf(insts[..n], name, k) && (insts[k].state == Running || insts[k].state == Starting) {
          assert LastOf(insts, name, k);
        }
        if k :| LastOf(insts, name, k) && (insts[k].state == Running || insts[k].state == Starting) {
          assert LastOf(insts[..n], name, k);
        }
      }
    }
  }

  /** The covered replicas that are to be started: neither held nor active. */
  function ToStart(names: seq<string>, insts: seq<Instance>, held: map<string, int>): seq<string> {
    if names == [] then []
    else
      var last := names[|names| - 1];
      ToStart(names[..|names| - 1], insts, held) + if last !in held && !Active(insts, last) then [last] else []
  }

  ghost function Startable(insts: seq<Instance>, held: map<string, int>): string -> bool {
    (name: string) => name !in held && !IsUp(insts, name)
  }

  /** To be started are the covered names that are not held and whose stored replica is
      neither running nor starting, in their order. */
  lemma {:induction false} ToStartIsFilter(names: seq<string>, insts: seq<Instance>, held: map<string, int>)
    ensures IsFilter(ToStart(names, insts, held), names, Startable(insts, held))
  {
    hide IsFilter, Active, IsUp;
    if names == [] {
      NothingFiltered(Startable(insts, held));
    } else {
      var init, last := names[..|names| - 1], names[|names| - 1];
      ToStartIsFilter(init, insts, held);
      ActiveIsUp(insts, last);
      var before := ToStart(init, insts, held);
      FilterMore(before, init, last, Startable(insts, held));
      assert init + [last] == names;
      assert ToStart(names, insts, held) == if Startable(insts, held)(last) then before + [last] else before;
    }
  }

  lemma ToStartMember(names: seq<string>, insts: seq<Instance>, held: map<string, int>)
    ensures forall name :: name in ToStart(names, insts, held) <==> name in names && name !in held && !IsUp(insts, name)
  {
    hide IsFilter, IsUp;
    ToStartIsFilter(names, insts, held);
    forall name
      ensures name in ToStart(names, insts, held) <==> name in names && name !in held && !IsUp(insts, name)
    {
      FilterMember(ToStart(names, insts, held), names, Startable(insts, held), name);
    }
  }

  /** The reason of the first held replica. */
  function FirstHeld(names: seq<string>, held: map<string, int>): Option<int> {
    if names == [] then None
    else
      var first := FirstHeld(names[..|names| - 1], held);
      if first.None? && names[|names| - 1] in held then Some(held[names[|names| - 1]]) else first
  }

  lemma {:induction false} FirstHeldIs(names: seq<string>, held: map<string, int>)
    ensures FirstHeld(names, held).None? ==> forall k :: 0 <= k < |names| ==> names[k] !in held
    ensures FirstHeld(names, held).Some? ==>
              exists k :: 0 <= k < |names| && names[k] in held && FirstHeld(names, held).value == held[names[k]] && forall j :: 0 <= j < k ==> names[j] !in held
  {
    if names != [] {
      FirstHeldIs(names[..|names| - 1], held);
    }
  }

  function FirstError(results: seq<WaitResult>): Option<int> {
    if results == [] then None
    else
      var first := FirstError(results[..|results| - 1]);
      if first.None? then results[|results| - 1].err else first
  }

  lemma {:induction false} FirstErrorIs(results: seq<WaitResult>)
    ensures FirstError(results).None? ==> forall k :: 0 <= k < |results| ==> results[k].err.None?
    ensures FirstError(results).Some? ==>
              exists k :: 0 <= k < |results| && FirstError(results) == results[k].err && forall j :: 0 <= j < k ==> results[j].err.None?
  {
    if results != [] {
      FirstErrorIs(results[..|results| - 1]);
    }
  }

  function Ended(r: WaitResult): Instance {
    Instance("", 0, if r.err.Some? || r.exitCode.None? then Failed else Exited, r.exitCode)
  }

  function EndedAll(results: seq<WaitResult>): seq<Instance> {
    seq(|results|, i requires 0 <= i < |results| => Ended(results[i]))
  }

  // ---- The contract of the action -------------------------------------------

  /** An action that does not fail leaves its command running, or ended when a
      dependent waits for that. */
  predicate StartContract(needs: bool, res: ActionResult) {
    res.err.None? ==> if needs then IsTerminal(res.state) else res.state == Running
  }

  /** Every replica exited with code zero. */
  predicate AllSucceeded(results: seq<WaitResult>) {
    forall i :: 0 <= i < |results| ==> results[i].err.None? && results[i].exitCode == Some(0)
  }

  /** The calls to start were made for the first n replicas to be started; all
      but the last worked. */
  predicate StartedUpTo(calls: seq<string>, all: seq<string>, fails: map<string, int>, failed: bool) {
    && calls <= all
    && (forall i :: 0 <= i < |calls| && (failed ==> i < |calls| - 1) ==> calls[i] !in fails)
    && (if failed then |calls| > 0 && calls[|calls| - 1] in fails else calls == all)
  }

  // ---- The action -----------------------------------------------------------

  /** Starts what is to be started, in order, until one start fails. */
  method StartReplicas(names: seq<string>, insts: seq<Instance>, held: map<string, int>, fails: map<string, int>)
    returns (calls: seq<string>, failure: Option<int>, heldErr: Option<int>)
    ensures StartedUpTo(calls, ToStart(names, insts, held), fails, failure.Some?)
    ensures failure.Some? ==> failure.value == fails[calls[|calls| - 1]]
    ensures failure.None? ==> heldErr == FirstHeld(names, held)
    ensures forall name :: name in calls ==> name in names && name !in held && !IsUp(insts, name)
    ensures failure.None? ==> forall name :: name in names && name !in held && !IsUp(insts, name) ==> name in calls && name !in fails
    ensures failure.None? ==> (heldErr.None? <==> forall name :: name in names ==> name !in held)
    ensures IsFilter(ToStart(names, insts, held), names, Startable(insts, held))
  {
    hide Active, IsFilter, IsUp, Startable;
    calls, failure, heldErr := [], None, None;
    for i := 0 to |names|
      invariant calls == ToStart(names[..i], insts, held)
      invariant forall k :: 0 <= k < |calls| ==> calls[k] !in fails
      invariant heldErr == FirstHeld(names[..i], held)
    {
      var name := names[i];
      assert names[..i + 1][..i] == names[..i];
      if name in held {
        if heldErr.None? {
          heldErr := Some(held[name]);
        }
      } else if !Active(insts, name) {
        calls := calls + [name];
        if name in fails {
          ToStartPrefix(names, insts, held, i + 1);
          StartedMeans(names, insts, held, fails, calls, true);
          return calls, Some(fails[name]), heldErr;
        }
      }
    }
    assert names[..|names|] == names;
    StartedMeans(names, insts, held, fails, calls, false);
    FirstHeldIs(names, held);
  }

  /** What the replicas called to start are. */
  lemma StartedMeans(names: seq<string>, insts: seq<Instance>, held: map<string, int>, fails: map<string, int>, calls: seq<string>, failed: bool)
    requires StartedUpTo(calls, ToStart(names, insts, held), fails, failed)
    ensures IsFilter(ToStart(names, insts, held), names, Startable(insts, held))
    ensures forall name :: name in calls ==> name in names && name !in held && !IsUp(insts, name)
    ensures !failed ==> forall name :: name in names && name !in held && !IsUp(insts, name) ==> name in calls && name !in fails
  {
    hide IsFilter, IsUp, ToStart;
    ToStartIsFilter(names, insts, held);
    ToStartMember(names, insts, held);
    assert forall name :: name in calls ==> name in ToStart(names, insts, held);
  }

  lemma {:induction false} ToStartPrefix(names: seq<string>, insts: seq<Instance>, held: map<string, int>, n: nat)
    requires n <= |names|
    ensures ToStart(names[..n], insts, held) <= ToStart(names, insts, held)
    decreases |names| - n
  {
    if n < |names| {
      assert names[..n + 1][..n] == names[..n];
      ToStartPrefix(names, insts, held, n + 1);
    } else {
      assert names[..n] == names;
    }
  }

  /** Reduces the results of the wait to the result of the vertex. */
  method Reduce(results: seq<WaitResult>) returns (res: ActionResult)
    ensures IsTerminal(res.state) && !res.forceKilled
    ensures res.err == (if FirstError(results).Some? then Some(ActionError(FirstError(results).value)) else None)
    ensures res.exitCode == Aggregate(EndedAll(results)).1
    ensures res.state == Exited <==> results != [] && forall i :: 0 <= i < |results| ==> Ended(results[i]).state == Exited
    ensures res.state == Exited <==> results != [] && forall i :: 0 <= i < |results| ==> results[i].err.None? && results[i].exitCode.Some?
    ensures forall i :: FirstFailed(results, i) ==> res.err == Some(ActionError(results[i].err.value))
    ensures res.err.None? <==> forall i :: 0 <= i < |results| ==> results[i].err.None?
    ensures forall i :: FirstBadExit(results, i) ==> res.exitCode == results[i].exitCode
  {
    hide Aggregate, FirstBadExit, FirstNonZero, RecordsExit;
    var insts: seq<Instance> := [];
    var firstErr: Option<int> := None;
    for i := 0 to |results|
      invariant insts == EndedAll(results[..i])
      invariant firstErr == FirstError(results[..i])
    {
      assert results[..i + 1][..i] == results[..i];
      if results[i].err.Some? && firstErr.None? {
        firstErr := results[i].err;
      }
      insts := insts + [Ended(results[i])];
    }
    assert results[..|results|] == results;
    var state, exit := AggregateInstances(insts);
    AggregateMeans(insts);
    ErrorIsFailure(results);
    FirstErrorIs(results);
    ReducedExit(results);
    assert forall i :: 0 <= i < |results| ==> insts[i] == Ended(results[i]);
    if firstErr.Some? {
      return ActionResult(Failed, exit, Some(ActionError(firstErr.value)), false);
    } else if state == Exited {
      return ActionResult(Exited, exit, None, false);
    } else {
      return ActionResult(Failed, exit, None, false);
    }
  }

  /** The first of these results that is an error. */
  predicate FirstFailed(results: seq<WaitResult>, i: int) {
    0 <= i < |results| && results[i].err.Some? && forall k :: 0 <= k < i ==> results[k].err.None?
  }

  /** The first of these replicas that exited with a code other than zero. */
  predicate FirstBadExit(results: seq<WaitResult>, i: int) {
    && 0 <= i < |results| && results[i].err.None? && results[i].exitCode.Some? && results[i].exitCode.value != 0
    && forall k :: 0 <= k < i && results[k].err.None? && results[k].exitCode.Some? ==> results[k].exitCode.value == 0
  }

  lemma ReducedExit(results: seq<WaitResult>)
    ensures forall i :: FirstBadExit(results, i) ==> Aggregate(EndedAll(results)).1 == results[i].exitCode
  {
    hide Aggregate;
    var insts := EndedAll(results);
    AggregateMeans(insts);
    forall i | FirstBadExit(results, i)
      ensures Aggregate(insts).1 == results[i].exitCode
    {
      assert FirstNonZero(insts, i);
      assert insts[i] == Ended(results[i]);
      EndedOver(insts, results);
    }
  }

  /** Replicas that have ended are aggregated to one of the two ends. */
  lemma EndedOver(insts: seq<Instance>, results: seq<WaitResult>)
    requires insts == EndedAll(results) && insts != []
    ensures Aggregate(insts).0 == Exited || Aggregate(insts).0 == Failed
  {
    hide ExitOf;
    if !AllExited(insts) {
      var i :| 0 <= i < |insts| && insts[i].state != Exited;
      assert insts[i] == Ended(results[i]);
    }
  }

  lemma {:induction false} ErrorIsFailure(results: seq<WaitResult>)
    ensures FirstError(results).Some? <==> exists i :: 0 <= i < |results| && results[i].err.Some?
  {
    if results != [] {
      var init := results[..|results| - 1];
      ErrorIsFailure(init);
      if i :| 0 <= i < |results| && results[i].err.Some? {
        if i < |init| {
          assert init[i].err.Some?;
        }
      }
    }
  }

  /** The vertex is reported as successfully completed exactly when every covered
      replica exited with code zero. */
  lemma ReducedSuccess(results: seq<WaitResult>, state: EventType)
    requires results != []
    requires state == Exited <==> forall i :: 0 <= i < |results| ==> Ended(results[i]).state == Exited
    ensures AllSucceeded(results) <==> state == Exited && Aggregate(EndedAll(results)).1 == Some(0)
  {
    var insts := EndedAll(results);
    AggregateSuccess(insts);
    assert forall i :: 0 <= i < |results| ==> insts[i] == Ended(results[i]);
    if state == Exited {
      assert AllExited(insts);
      assert RecordsExit(insts, 0);
    }
  }

  lemma CoveredStarts(x: Vertex, calls: seq<string>, held: map<string, int>)
    requires x.command.Some?
    requires forall name :: name in calls ==> name in InstanceNames(x) && name !in held && !IsUp(x.snapshot.instances, name)
    ensures forall name :: name in calls ==>
              && (exists index :: Covers(x, index) && name == InstanceName(x.command.value.generatedName, index))
              && name !in held
              && !(exists k :: LastOf(x.snapshot.instances, name, k) && x.snapshot.instances[k].state in {Running, Starting})
  {
    hide Covers, LastOf, InstanceName, InstanceNames;
    forall name | name in calls
      ensures exists index :: Covers(x, index) && name == InstanceName(x.command.value.generatedName, index)
    {
      NamesCovered(x, name);
    }
  }

  lemma CoveredUp(x: Vertex, calls: seq<string>, held: map<string, int>, fails: map<string, int>)
    requires x.command.Some?
    requires forall name :: name in InstanceNames(x) ==> name !in held && (IsUp(x.snapshot.instances, name) || (name in calls && name !in fails))
    ensures forall index :: Covers(x, index) ==>
              var name := InstanceName(x.command.value.generatedName, index);
              && name !in held
              && ((name in calls && name !in fails)
                  || exists k :: LastOf(x.snapshot.instances, name, k) && x.snapshot.instances[k].state in {Running, Starting})
  {
    hide Covers, LastOf, InstanceName, InstanceNames;
    forall index | Covers(x, index)
      ensures InstanceName(x.command.value.generatedName, index) in InstanceNames(x)
    {
      NamesCovered(x, InstanceName(x.command.value.generatedName, index));
    }
  }

  /** upStartAction on vertex id. calls lists the replicas it starts, in order. */
  method UpStartAction(graph: Graph, id: VertexId, held: map<string, int>, fails: map<string, int>, wait: WaitOutcome)
    returns (res: ActionResult, calls: seq<string>)
    requires graph.Valid() && id in graph.g && graph.g[id].command.Some?
    requires wait.Waited? ==> |wait.results| == |ReplicaIndices(graph.g[id])| > 0
    ensures StartContract(NeedsCompletion(graph.g, id), res)
    ensures var x := graph.g[id];
      var names := InstanceNames(x);
      var all := ToStart(names, x.snapshot.instances, held);
      && !res.forceKilled
      && if !StartedUpTo(calls, all, fails, false) then
           && StartedUpTo(calls, all, fails, true)
           && res == ActionResult(x.snapshot.state, None, Some(ActionError(fails[calls[|calls| - 1]])), false)
         else if FirstHeld(names, held).Some? then
           res == ActionResult(x.snapshot.state, None, Some(ActionError(FirstHeld(names, held).value)), false)
         else if !NeedsCompletion(graph.g, id) then
           res == ActionResult(Running, x.snapshot.exitCode, None, false)
         else match wait
           case WaitFailed(code) => res == ActionResult(Running, None, Some(ActionError(code)), false)
           case Waited(results) =>
             && (res.err.None? <==> forall i :: 0 <= i < |results| ==> results[i].err.None?)
             && (res.state == Exited && res.exitCode == Some(0) <==> AllSucceeded(results))
    ensures var x := graph.g[id];
      forall name :: name in calls ==>
        && (exists index :: Covers(x, index) && name == InstanceName(x.command.value.generatedName, index))
        && name !in held
        && !(exists k :: LastOf(x.snapshot.instances, name, k) && x.snapshot.instances[k].state in {Running, Starting})
    ensures res.err.None? ==>
      var x := graph.g[id];
      forall index :: Covers(x, index) ==>
        var name := InstanceName(x.command.value.generatedName, index);
        && name !in held
        && ((name in calls && name !in fails)
            || exists k :: LastOf(x.snapshot.instances, name, k) && x.snapshot.instances[k].state in {Running, Starting})
  {
    hide StartedUpTo, ToStart, FirstHeld, AllSucceeded, Aggregate, Ended, IsFilter, Covers, LastOf, InstanceName, FirstFailed, FirstBadExit;
    var x := graph.g[id];
    var names := InstanceNames(x);
    var started, failure, heldErr := StartReplicas(names, x.snapshot.instances, held, fails);
    StartedOneWay(started, ToStart(names, x.snapshot.instances, held), fails);
    calls := started;
    CoveredStarts(x, calls, held);
    if failure.Some? {
      return ActionResult(x.snapshot.state, None, Some(ActionError(failure.value)), false), calls;
    }
    if heldErr.Some? {
      return ActionResult(x.snapshot.state, None, Some(ActionError(heldErr.value)), false), calls;
    }
    CoveredUp(x, calls, held, fails);
    var needs := graph.AnyDependentNeedsCompletion(id);
    if !needs {
      return ActionResult(Running, x.snapshot.exitCode, None, false), calls;
    }
    match wait
    case WaitFailed(code) =>
      return ActionResult(Running, None, Some(ActionError(code)), false), calls;
    case Waited(results) =>
      res := Reduce(results);
      ReducedSuccess(results, res.state);
      ErrorIsFailure(results);
  }

  lemma StartedOneWay(calls: seq<string>, all: seq<string>, fails: map<string, int>)
    ensures !(StartedUpTo(calls, all, fails, true) && StartedUpTo(calls, all, fails, false))
    ensures StartedUpTo(calls, all, fails, true) ==> |calls| > 0 && calls[|calls| - 1] in fails
  {
  }

  // ---- The action of a stop walk --------------------------------------------

  // How the stop of one replica ends.
  datatype StopResult = StopResult(err: Option<int>, forceKilled: bool)

  /** The replicas with a live monitor. */
  function Live(insts: seq<Instance>): seq<Instance> {
    if insts == [] then []
    else
      var last := insts[|insts| - 1];
      Live(insts[..|insts| - 1]) + if IsActive(last.state) then [last] else []
  }

  function IsLive(): Instance -> bool {
    (x: Instance) => x.state == Running || x.state == Starting
  }

  lemma {:induction false} LiveIsFilter(insts: seq<Instance>)
    ensures IsFilter(Live(insts), insts, IsLive())
  {
    hide IsFilter;
    if insts == [] {
      NothingFiltered(IsLive());
    } else {
      var init, last := insts[..|insts| - 1], insts[|insts| - 1];
      LiveIsFilter(init);
      FilterMore(Live(init), init, last, IsLive());
      assert init + [last] == insts;
      assert Live(insts) == if IsLive()(last) then Live(init) + [last] else Live(init);
    }
  }

  lemma LiveMember(insts: seq<Instance>, x: Instance)
    ensures x in Live(insts) <==> x in insts && (x.state == Running || x.state == Starting)
  {
    hide IsFilter;
    LiveIsFilter(insts);
    FilterMember(Live(insts), insts, IsLive(), x);
  }

  method ActiveInstances(insts: seq<Instance>) returns (live: seq<Instance>)
    ensures live == Live(insts) && IsFilter(live, insts, IsLive())
    ensures forall x :: x in live <==> x in insts && (x.state == Running || x.state == Starting)
  {
    hide IsFilter;
    LiveIsFilter(insts);
    forall x
      ensures x in Live(insts) <==> x in insts && (x.state == Running || x.state == Starting)
    {
      LiveMember(insts, x);
    }
    live := [];
    for i := 0 to |insts|
      invariant live == Live(insts[..i])
    {
      assert insts[..i + 1][..i] == insts[..i];
      if insts[i].state == Running || insts[i].state == Starting {
        live := live + [insts[i]];
      }
    }
    assert insts[..|insts|] == insts;
  }

  /** The first of these replicas whose stop failed. */
  ghost predicate FirstFailure(live: seq<Instance>, ends: Instance -> StopResult, i: int) {
    0 <= i < |live| && ends(live[i]).err.Some? && forall k :: 0 <= k < i ==> ends(live[k]).err.None?
  }

  /** stopAction on a vertex; ends tells how the stop of a replica goes, and stopped
      are the replicas it was asked to stop. With nothing live the state observed
      stays. */
  method StopAction(x: Vertex, ends: Instance -> StopResult) returns (res: ActionResult, stopped: seq<Instance>)
    ensures stopped == Live(x.snapshot.instances) && IsFilter(stopped, x.snapshot.instances, IsLive())
    ensures forall r :: r in stopped <==> r in x.snapshot.instances && (r.state == Running || r.state == Starting)
    ensures stopped == [] ==> res == ActionResult(x.snapshot.state, x.snapshot.exitCode, None, false)
    ensures stopped != [] ==>
              && (res.forceKilled <==> exists r :: r in stopped && ends(r).forceKilled)
              && (res.err.None? <==> forall r :: r in stopped ==> ends(r).err.None?)
              && (forall i :: FirstFailure(stopped, ends, i) ==>
                    res.err == Some(ActionError(ends(stopped[i]).err.value)) && res.state == x.snapshot.state && res.exitCode.None?)
              && (res.err.None? ==> res.state == Exited && res.exitCode == x.snapshot.exitCode)
  {
    hide IsFilter, Live, IsLive;
    var live := ActiveInstances(x.snapshot.instances);
    stopped := [];
    if |live| == 0 {
      return ActionResult(x.snapshot.state, x.snapshot.exitCode, None, false), stopped;
    }
    var errs: seq<Option<int>> := [];
    var forced := false;
    for i := 0 to |live|
      invariant stopped == live[..i]
      invariant |errs| == i && forall k :: 0 <= k < i ==> errs[k] == ends(live[k]).err
      invariant forced <==> exists k :: 0 <= k < i && ends(live[k]).forceKilled
    {
      var end := ends(live[i]);
      stopped := stopped + [live[i]];
      errs := errs + [end.err];
      forced := forced || end.forceKilled;
    }
    assert live[..|live|] == live;
    for i := 0 to |errs|
      invariant forall k :: 0 <= k < i ==> errs[k].None?
    {
      if errs[i].Some? {
        assert live[i] in live;
        return ActionResult(x.snapshot.state, None, Some(ActionError(errs[i].value)), forced), stopped;
      }
    }
    return ActionResult(Exited, x.snapshot.exitCode, None, forced), stopped;
  }
}
