/** The in-process reconcile graph: its vertices, the scheduling flags guarded by
    the graph's mutex, and the operations performed under that mutex. The value
    functions say what each operation does; class Graph performs them in place. */
module ReconcileGraph {
  import opened Wrappers
  import opened CommandSnapshot
  import opened ComposeSpec

  // ---- Static part ----------------------------------------------------------

  // Begin and End are the two virtual vertices.
  datatype VertexId = Begin | End | Cmd(name: string)

  // FromBegin walks dependencies first (up, start); FromEnd walks dependents
  // first (stop, down).
  datatype Direction = FromBegin | FromEnd

  // parents and children map a neighbour to the condition of the edge.
  datatype Vertex = Vertex(
    command: Option<Command>,
    snapshot: Snapshot,
    inClosure: bool,
    replicas: Option<seq<int>>,
    parents: map<VertexId, AfterCondition>,
    children: map<VertexId, AfterCondition>
  )

  type Vertices = map<VertexId, Vertex>

  /** A vertex the walk may act on. */
  predicate Target(g: Vertices, id: VertexId) {
    id in g && g[id].command.Some? && g[id].inClosure
  }

  predicate InClosure(g: Vertices, id: VertexId) {
    id in g && g[id].inClosure
  }

  /** Command v runs after command p. */
  ghost predicate DependsOn(g: Vertices, v: VertexId, p: VertexId) {
    v in g && v.Cmd? && p.Cmd? && p in g[v].parents
  }

  /** The same edge, seen from p. */
  ghost predicate HasDependent(g: Vertices, p: VertexId, v: VertexId) {
    p in g && p.Cmd? && v.Cmd? && v in g[p].children
  }

  /** The virtual vertices carry no command and are never targets; edges between
      vertices of the graph are recorded at both ends. */
  ghost predicate WellFormed(g: Vertices) {
    && Begin in g && End in g
    && (forall id :: id in g ==> (g[id].command.Some? <==> id.Cmd?))
    && (forall id :: id in g && g[id].inClosure ==> id.Cmd?)
    && (forall v, p {:trigger DependsOn(g, v, p)} :: DependsOn(g, v, p) && p in g ==>
          HasDependent(g, p, v) && g[p].children[v] == g[v].parents[p])
    && (forall v, p {:trigger HasDependent(g, p, v)} :: HasDependent(g, p, v) ==> DependsOn(g, v, p))
    && (forall v :: v in g && v.Cmd? ==> End !in g[v].parents && Begin !in g[v].children)
  }

  /** The in-closure real neighbours whose completion v waits for: dependencies
      when walking from begin, dependents when walking from end. */
  ghost predicate Precedes(g: Vertices, dir: Direction, n: VertexId, v: VertexId) {
    && v in g && InClosure(g, n)
    && (if dir == FromBegin then DependsOn(g, v, n) else HasDependent(g, v, n))
  }

  // ---- State guarded by the mutex -------------------------------------------

  // The text of an error and of a wait reason is not modelled.
  datatype Failure = ActionError(code: int) | NotReached

  datatype ActionResult = ActionResult(
    state: EventType,
    exitCode: Option<int>,
    err: Option<Failure>,
    forceKilled: bool
  )

  datatype Sched = Sched(
    queued: bool,
    inProgress: bool,
    consumed: bool,
    blocked: bool,
    state: EventType,
    exitCode: Option<int>,
    err: Option<Failure>,
    forceKilled: bool,
    order: nat
  ) {
    predicate Acted() {
      consumed && !blocked
    }
  }

  type Scheds = map<VertexId, Sched>

  datatype GraphState = GraphState(v: Scheds, seqNo: nat)

  datatype EdgeStatus = EdgeSatisfied | EdgePending | EdgeBlocked

  datatype StepStatus = StepReady | StepPending | StepBlocked | StepSkip

  function FreshSched(x: Vertex): Sched {
    Sched(false, false, false, false, x.snapshot.state, x.snapshot.exitCode, None, false, 0)
  }

  function FreshState(g: Vertices): GraphState {
    GraphState(map id | id in g :: FreshSched(g[id]), 0)
  }

  // ---- Readiness ------------------------------------------------------------

  function ConditionOn(cond: AfterCondition, state: EventType, exitCode: Option<int>): EdgeStatus {
    match cond
    case ConditionRunning => EdgeSatisfied
    case ConditionUnset | ConditionCompleted =>
      if IsTerminal(state) then EdgeSatisfied else EdgePending
    case ConditionCompletedSuccessfully =>
      if state == Exited && exitCode == Some(0) then EdgeSatisfied
      else if IsTerminal(state) then EdgeBlocked
      else EdgePending
  }

  function ConditionOnSnapshot(cond: AfterCondition, snap: Snapshot): EdgeStatus {
    match cond
    case ConditionRunning =>
      if IsActive(snap.state) then EdgeSatisfied else EdgeBlocked
    case ConditionUnset | ConditionCompleted =>
      if IsTerminal(snap.state) then EdgeSatisfied else EdgeBlocked
    case ConditionCompletedSuccessfully =>
      if snap.state == Exited && snap.exitCode == Some(0) then EdgeSatisfied else EdgeBlocked
  }

  /** One dependency edge of a walk from begin. */
  function EvalDownEdge(g: Vertices, s: Scheds, p: VertexId, cond: AfterCondition): EdgeStatus
    requires s.Keys == g.Keys
  {
    if p !in g then EdgeBlocked
    else if g[p].inClosure then
      if s[p].blocked then EdgeBlocked
      else if !s[p].consumed then EdgePending
      else if s[p].err.Some? then EdgeBlocked
      else ConditionOn(cond, s[p].state, s[p].exitCode)
    else ConditionOnSnapshot(cond, g[p].snapshot)
  }

  /** A dependency that ended this way meets the condition: it has stopped, with code
      zero if it had to succeed; to be running nothing more is asked of it. */
  predicate Meets(cond: AfterCondition, state: EventType, exitCode: Option<int>) {
    || cond == ConditionRunning
    || (cond == ConditionCompletedSuccessfully && state == Exited && exitCode == Some(0))
    || ((cond == ConditionCompleted || cond == ConditionUnset) && (state == Exited || state == Failed))
  }

  /** The edge is met: in the closure by an action that did not fail in this walk,
      outside of it by what was observed before, where a command that has to be running
      is running or starting. */
  predicate EdgeMet(g: Vertices, s: Scheds, p: VertexId, cond: AfterCondition)
    requires s.Keys == g.Keys
  {
    && p in g
    && if g[p].inClosure then
         s[p].consumed && !s[p].blocked && s[p].err.None? && Meets(cond, s[p].state, s[p].exitCode)
       else
         && (cond == ConditionRunning ==> g[p].snapshot.state == Running || g[p].snapshot.state == Starting)
         && Meets(cond, g[p].snapshot.state, g[p].snapshot.exitCode)
  }

  /** The edge can still be met: by a dependency in the closure the walk has not come to,
      or whose action left it in a state it can go on from. */
  predicate EdgeOpen(g: Vertices, s: Scheds, p: VertexId, cond: AfterCondition)
    requires s.Keys == g.Keys
  {
    && p in g && g[p].inClosure && !s[p].blocked
    && (!s[p].consumed || (s[p].err.None? && cond != ConditionRunning && s[p].state != Exited && s[p].state != Failed))
  }

  lemma EdgeMeans(g: Vertices, s: Scheds, p: VertexId, cond: AfterCondition)
    requires s.Keys == g.Keys
    ensures EvalDownEdge(g, s, p, cond) == EdgeSatisfied <==> EdgeMet(g, s, p, cond)
    ensures EvalDownEdge(g, s, p, cond) == EdgePending <==> EdgeOpen(g, s, p, cond)
  {
  }

  ghost predicate SomeEdge(g: Vertices, s: Scheds, v: VertexId, st: EdgeStatus)
    requires s.Keys == g.Keys && v in g
  {
    exists p :: p in g[v].parents && p != Begin && EvalDownEdge(g, s, p, g[v].parents[p]) == st
  }

  ghost predicate SomeDependentLeft(g: Vertices, s: Scheds, v: VertexId)
    requires s.Keys == g.Keys && v in g
  {
    exists c :: c in g[v].children && c != End && InClosure(g, c) && !s[c].consumed
  }

  ghost function Readiness(g: Vertices, s: Scheds, v: VertexId, dir: Direction): EdgeStatus
    requires s.Keys == g.Keys && v in g
  {
    if dir == FromEnd then
      if SomeDependentLeft(g, s, v) then EdgePending else EdgeSatisfied
    else if SomeEdge(g, s, v, EdgeBlocked) then EdgeBlocked
    else if SomeEdge(g, s, v, EdgePending) then EdgePending
    else EdgeSatisfied
  }

  // ---- The operations as functions of the state -----------------------------

  ghost function SeedSet(g: Vertices, dir: Direction): set<VertexId> {
    set id | id in g && Target(g, id) && !exists n :: Precedes(g, dir, n, id)
  }

  function WithQueued(s: Scheds, q: set<VertexId>): Scheds {
    map n | n in s :: if n in q then s[n].(queued := true) else s[n]
  }

  ghost function SeedState(g: Vertices, s: GraphState, dir: Direction): GraphState {
    s.(v := WithQueued(s.v, SeedSet(g, dir)))
  }

  ghost function ClaimStatus(g: Vertices, s: GraphState, id: VertexId, dir: Direction): StepStatus
    requires s.v.Keys == g.Keys
  {
    if !Target(g, id) || s.v[id].consumed || s.v[id].inProgress then StepSkip
    else match Readiness(g, s.v, id, dir)
      case EdgeSatisfied => StepReady
      case EdgePending => StepPending
      case EdgeBlocked => StepBlocked
  }

  ghost function ClaimState(g: Vertices, s: GraphState, id: VertexId, dir: Direction): GraphState
    requires s.v.Keys == g.Keys
  {
    match ClaimStatus(g, s, id, dir)
    case StepSkip => s
    case StepReady => s.(v := s.v[id := s.v[id].(queued := false, inProgress := true)])
    case StepPending => s.(v := s.v[id := s.v[id].(queued := false)])
    case StepBlocked =>
      var x := s.v[id];
      s.(v := s.v[id := x.(queued := false, consumed := true, blocked := true,
                           err := if x.err.None? then Some(NotReached) else x.err)])
  }

  /** The real neighbours id is followed by: dependents when walking from begin,
      dependencies when walking from end. */
  function Followers(g: Vertices, id: VertexId, dir: Direction): set<VertexId>
    requires id in g
  {
    if dir == FromBegin then g[id].children.Keys - {End} else g[id].parents.Keys - {Begin}
  }

  /** The vertices a completion of id newly enqueues. */
  ghost function Frontier(g: Vertices, s: Scheds, id: VertexId, dir: Direction): set<VertexId>
    requires s.Keys == g.Keys && id in g
  {
    set n | n in Followers(g, id, dir) && InClosure(g, n) && !s[n].consumed && !s[n].inProgress && !s[n].queued
  }

  function Recorded(x: Sched, res: ActionResult, order: nat): Sched {
    x.(inProgress := false, consumed := true, order := order,
       state := res.state, exitCode := res.exitCode, err := res.err, forceKilled := res.forceKilled)
  }

  ghost function CompleteFrontier(g: Vertices, s: GraphState, id: VertexId, res: ActionResult, dir: Direction): set<VertexId>
    requires s.v.Keys == g.Keys && id in g
  {
    Frontier(g, s.v[id := Recorded(s.v[id], res, s.seqNo + 1)], id, dir)
  }

  ghost function CompleteState(g: Vertices, s: GraphState, id: VertexId, res: ActionResult, dir: Direction): GraphState
    requires s.v.Keys == g.Keys && id in g
  {
    var v := s.v[id := Recorded(s.v[id], res, s.seqNo + 1)];
    GraphState(WithQueued(v, Frontier(g, v, id, dir)), s.seqNo + 1)
  }

  ghost predicate Done(g: Vertices, s: Scheds)
    requires s.Keys == g.Keys
  {
    forall id :: Target(g, id) ==> !s[id].queued && !s[id].inProgress
  }

  function Unreached(x: Sched, order: nat): Sched {
    x.(consumed := true, blocked := true, order := order, err := if x.err.None? then Some(NotReached) else x.err)
  }

  ghost function LeftOver(g: Vertices, s: Scheds): set<VertexId>
    requires s.Keys == g.Keys
  {
    set id | id in g && Target(g, id) && !s[id].consumed
  }

  /** s' is s with the vertices of left marked blocked. The stamps follow the
      order in which the graph's map was visited, which is arbitrary. */
  ghost predicate MarkedUnreached(s: GraphState, left: set<VertexId>, s': GraphState) {
    && s'.v.Keys == s.v.Keys
    && left <= s.v.Keys
    && s.seqNo <= s'.seqNo
    && (forall id :: id in s.v && id !in left ==> s'.v[id] == s.v[id])
    && (forall id :: id in left ==> s'.v[id] == Unreached(s.v[id], s'.v[id].order))
    && (forall id :: id in left ==> s.seqNo < s'.v[id].order <= s'.seqNo)
    && (forall a, b :: a in left && b in left && a != b ==> s'.v[a].order != s'.v[b].order)
  }

  ghost predicate Finalized(g: Vertices, s: GraphState, s': GraphState)
    requires s.v.Keys == g.Keys
  {
    MarkedUnreached(s, LeftOver(g, s.v), s')
  }

  /** next lists the members of q, each once. */
  ghost predicate Enumerates(next: seq<VertexId>, q: set<VertexId>) {
    && (forall i, j :: 0 <= i < j < |next| ==> next[i] != next[j])
    && (forall id :: id in next <==> id in q)
  }

  lemma WithQueuedNone(s: Scheds)
    ensures WithQueued(s, {}) == s
  {
  }

  lemma WithQueuedAdd(s: Scheds, q: set<VertexId>, n: VertexId)
    requires n in s
    ensures WithQueued(s, q)[n := WithQueued(s, q)[n].(queued := true)] == WithQueued(s, q + {n})
  {
  }

  lemma MarkNone(s: GraphState)
    ensures MarkedUnreached(s, {}, s)
  {
  }

  lemma MarkOneMore(s: GraphState, left: set<VertexId>, t: GraphState, id: VertexId)
    requires MarkedUnreached(s, left, t) && id in s.v && id !in left
    ensures MarkedUnreached(s, left + {id},
              GraphState(t.v[id := Unreached(t.v[id], t.seqNo + 1)], t.seqNo + 1))
  {
    var t' := GraphState(t.v[id := Unreached(t.v[id], t.seqNo + 1)], t.seqNo + 1);
    assert t'.v.Keys == s.v.Keys;
    forall a, b | a in left + {id} && b in left + {id} && a != b
      ensures t'.v[a].order != t'.v[b].order
    {
      if a != id && b != id {
        assert t'.v[a] == t.v[a] && t'.v[b] == t.v[b];
      }
    }
  }

  // ---- The operations in place ----------------------------------------------

  class Graph {
    const g: Vertices
    var v: Scheds
    var seqNo: nat

    ghost predicate Valid()
      reads this
    {
      WellFormed(g) && v.Keys == g.Keys
    }

    ghost function Value(): GraphState
      reads this
    {
      GraphState(v, seqNo)
    }

    constructor (g: Vertices)
      requires WellFormed(g)
      ensures Valid() && this.g == g && Value() == FreshState(g)
    {
      this.g := g;
      this.v := map id | id in g :: FreshSched(g[id]);
      this.seqNo := 0;
    }

    method EvalEdge(p: VertexId, cond: AfterCondition) returns (st: EdgeStatus)
      requires Valid()
      ensures st == EvalDownEdge(g, v, p, cond)
      ensures st == EdgeSatisfied <==> EdgeMet(g, v, p, cond)
      ensures st == EdgePending <==> EdgeOpen(g, v, p, cond)
    {
      EdgeMeans(g, v, p, cond);
      var c := if cond == ConditionUnset then ConditionCompleted else cond;
      if p !in g {
        return EdgeBlocked;
      }
      if g[p].inClosure {
        if v[p].blocked {
          return EdgeBlocked;
        }
        if !v[p].consumed {
          return EdgePending;
        }
        if v[p].err.Some? {
          return EdgeBlocked;
        }
        return ConditionOn(c, v[p].state, v[p].exitCode);
      }
      return ConditionOnSnapshot(c, g[p].snapshot);
    }

    method EvalReadiness(id: VertexId, dir: Direction) returns (st: EdgeStatus)
      requires Valid() && id in g
      ensures st == Readiness(g, v, id, dir)
    {
      if dir == FromEnd {
        var left := g[id].children.Keys;
        while left != {}
          invariant left <= g[id].children.Keys
          invariant forall c :: c in g[id].children.Keys - left && c != End && InClosure(g, c) ==> v[c].consumed
          decreases left
        {
          var c :| c in left;
          left := left - {c};
          if c != End && c in g && g[c].inClosure && !v[c].consumed {
            return EdgePending;
          }
        }
        return EdgeSatisfied;
      }
      st := EdgeSatisfied;
      var left := g[id].parents.Keys;
      while left != {}
        invariant left <= g[id].parents.Keys
        invariant st != EdgeBlocked
        invariant forall p :: p in g[id].parents.Keys - left && p != Begin ==>
                                EvalDownEdge(g, v, p, g[id].parents[p]) != EdgeBlocked
        invariant st == EdgePending ==> SomeEdge(g, v, id, EdgePending)
        invariant st == EdgeSatisfied ==>
                    forall p :: p in g[id].parents.Keys - left && p != Begin ==>
                                  EvalDownEdge(g, v, p, g[id].parents[p]) == EdgeSatisfied
        decreases left
      {
        var p :| p in left;
        left := left - {p};
        if p != Begin {
          var e := EvalEdge(p, g[id].parents[p]);
          if e == EdgeBlocked {
            return EdgeBlocked;
          }
          if e == EdgePending && st == EdgeSatisfied {
            st := EdgePending;
          }
        }
      }
    }

    method Claim(id: VertexId, dir: Direction) returns (status: StepStatus)
      requires Valid()
      modifies this
      ensures Valid() && status == ClaimStatus(g, old(Value()), id, dir)
      ensures Value() == ClaimState(g, old(Value()), id, dir)
    {
      if id !in g || g[id].command.None? || !g[id].inClosure || v[id].consumed || v[id].inProgress {
        return StepSkip;
      }
      var st := EvalReadiness(id, dir);
      match st
      case EdgeSatisfied =>
        v := v[id := v[id].(queued := false, inProgress := true)];
        return StepReady;
      case EdgePending =>
        v := v[id := v[id].(queued := false)];
        return StepPending;
      case EdgeBlocked =>
        v := v[id := v[id].(queued := false, consumed := true, blocked := true)];
        if v[id].err.None? {
          v := v[id := v[id].(err := Some(NotReached))];
        }
        return StepBlocked;
    }

    method Complete(id: VertexId, res: ActionResult, dir: Direction) returns (next: seq<VertexId>)
      requires Valid() && id in g
      modifies this
      ensures Valid()
      ensures Value() == CompleteState(g, old(Value()), id, res, dir)
      ensures Enumerates(next, CompleteFrontier(g, old(Value()), id, res, dir))
    {
      seqNo := seqNo + 1;
      v := v[id := Recorded(v[id], res, seqNo)];
      next := EnqueueFollowers(id, dir);
    }

    method EnqueueFollowers(id: VertexId, dir: Direction) returns (next: seq<VertexId>)
      requires Valid() && id in g
      modifies this`v
      ensures Valid()
      ensures v == WithQueued(old(v), Frontier(g, old(v), id, dir))
      ensures Enumerates(next, Frontier(g, old(v), id, dir))
    {
      ghost var v1, q: set<VertexId> := v, {};
      var left, skip := g[id].children.Keys, End;
      if dir == FromEnd {
        left, skip := g[id].parents.Keys, Begin;
      }
      left := left - {skip};
      next := [];
      WithQueuedNone(v);
      while left != {}
        invariant left <= Followers(g, id, dir)
        invariant q == Frontier(g, v1, id, dir) - left
        invariant Enumerates(next, q)
        invariant v == WithQueued(v1, q)
        decreases left
      {
        var n :| n in left;
        left := left - {n};
        if n in g && g[n].inClosure && !v[n].consumed && !v[n].inProgress && !v[n].queued {
          WithQueuedAdd(v1, q, n);
          v := v[n := v[n].(queued := true)];
          next := next + [n];
          q := q + {n};
        }
      }
      assert q == Frontier(g, v1, id, dir);
    }

    method Seed(dir: Direction) returns (seeds: seq<VertexId>)
      requires Valid()
      modifies this
      ensures Valid()
      ensures Value() == SeedState(g, old(Value()), dir)
      ensures Enumerates(seeds, SeedSet(g, dir))
    {
      var left := g.Keys;
      seeds := [];
      ghost var v0, q: set<VertexId> := v, {};
      WithQueuedNone(v);
      while left != {}
        invariant left <= g.Keys
        invariant q == SeedSet(g, dir) - left
        invariant Enumerates(seeds, q)
        invariant v == WithQueued(v0, q) && seqNo == old(seqNo)
        decreases left
      {
        var id :| id in left;
        left := left - {id};
        if g[id].command.Some? && g[id].inClosure {
          var waits := HasInClosureRealNeighbor(id, dir);
          if !waits {
            WithQueuedAdd(v0, q, id);
            v := v[id := v[id].(queued := true)];
            seeds := seeds + [id];
            q := q + {id};
          }
        }
      }
      assert q == SeedSet(g, dir);
    }

    method HasInClosureRealNeighbor(id: VertexId, dir: Direction) returns (waits: bool)
      requires Valid() && Target(g, id)
      ensures waits <==> exists n :: Precedes(g, dir, n, id)
    {
      var left, skip := g[id].parents.Keys, Begin;
      if dir == FromEnd {
        left, skip := g[id].children.Keys, End;
      }
      ghost var all := left;
      while left != {}
        invariant left <= all
        invariant forall n :: n in all - left ==> !Precedes(g, dir, n, id)
        decreases left
      {
        var n :| n in left;
        left := left - {n};
        if n != skip && n in g && g[n].inClosure {
          assert Precedes(g, dir, n, id);
          return true;
        }
      }
      return false;
    }

    method IsDone() returns (done: bool)
      requires Valid()
      ensures done <==> Done(g, v)
    {
      var left := g.Keys;
      while left != {}
        invariant left <= g.Keys
        invariant forall id :: id in g.Keys - left && Target(g, id) ==> !v[id].queued && !v[id].inProgress
        decreases left
      {
        var id :| id in left;
        left := left - {id};
        if g[id].command.Some? && g[id].inClosure {
          if v[id].queued || v[id].inProgress {
            return false;
          }
        }
      }
      return true;
    }

    method Finalize()
      requires Valid()
      modifies this
      ensures Valid() && Finalized(g, old(Value()), Value())
    {
      hide Unreached, MarkedUnreached, WellFormed;
      var left := g.Keys;
      ghost var s0, marked: set<VertexId> := Value(), {};
      MarkNone(s0);
      while left != {}
        invariant left <= g.Keys == v.Keys
        invariant marked == LeftOver(g, s0.v) - left
        invariant forall x :: x in left ==> v[x] == s0.v[x]
        invariant MarkedUnreached(s0, marked, Value())
        decreases left
      {
        var id :| id in left;
        left := left - {id};
        if g[id].command.Some? && g[id].inClosure && !v[id].consumed {
          MarkOneMore(s0, marked, Value(), id);
          seqNo := seqNo + 1;
          v := v[id := Unreached(v[id], seqNo)];
          marked := marked + {id};
        }
      }
      assert marked == LeftOver(g, s0.v);
    }

    /** Whether an in-closure dependent of id waits for its termination. An unset
        condition does not count here. */
    method AnyDependentNeedsCompletion(id: VertexId) returns (needs: bool)
      requires Valid()
      ensures needs <==> NeedsCompletion(g, id)
    {
      if id !in g {
        return false;
      }
      var left := g[id].children.Keys;
      while left != {}
        invariant left <= g[id].children.Keys
        invariant forall c :: c in g[id].children.Keys - left && c != End && InClosure(g, c) ==>
                    g[id].children[c] !in {ConditionCompleted, ConditionCompletedSuccessfully}
        decreases left
      {
        var c :| c in left;
        left := left - {c};
        if c != End && c in g && g[c].inClosure {
          if g[id].children[c] == ConditionCompleted || g[id].children[c] == ConditionCompletedSuccessfully {
            return true;
          }
        }
      }
      return false;
    }
  }

  ghost predicate NeedsCompletion(g: Vertices, id: VertexId) {
    && id in g
    && exists c :: c in g[id].children && c != End && InClosure(g, c)
                   && g[id].children[c] in {ConditionCompleted, ConditionCompletedSuccessfully}
  }
}
