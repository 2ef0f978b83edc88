/** What a finished, uninterrupted walk leaves behind: the result of evaluating
    the graph one vertex after another in any dependency order. */
module ReconcileOutcome {
  import opened Wrappers
  import opened CommandSnapshot
  import opened ComposeSpec
  import opened ReconcileGraph
  import opened ReconcileInvariant
  import opened ReconcileWalk
  import opened ReconcileWalkInvariant
  import opened ReconcileRuns

  // ---- The sequential evaluation --------------------------------------------

  datatype Outcome = Ran(res: ActionResult) | Skipped

  type Outcomes = map<VertexId, Outcome>

  /** Whether the edge from p holds, given the outcomes so far. A target without
      an outcome has not run. */
  predicate EdgeHolds(g: Vertices, out: Outcomes, p: VertexId, cond: AfterCondition) {
    && p in g
    && if g[p].inClosure then
         p in out && out[p].Ran? && out[p].res.err.None?
         && ConditionOn(cond, out[p].res.state, out[p].res.exitCode) == EdgeSatisfied
       else
         ConditionOnSnapshot(cond, g[p].snapshot) == EdgeSatisfied
  }

  /** Walking from begin, a vertex acts when all its dependency edges hold; walking
      from end it always acts. */
  predicate Acts(g: Vertices, dir: Direction, out: Outcomes, v: VertexId) {
    dir == FromEnd || (v in g && forall p :: p in g[v].parents && p != Begin ==> EdgeHolds(g, out, p, g[v].parents[p]))
  }

  /** Evaluates the targets among order, first to last. */
  function Evaluate(c: Config, order: seq<VertexId>): Outcomes {
    if order == [] then map[]
    else
      var out := Evaluate(c, order[..|order| - 1]);
      var v := order[|order| - 1];
      if Target(c.g, v) && v in c.act
      then out[v := if Acts(c.g, c.dir, out, v) then Ran(c.act[v]) else Skipped]
      else out
  }

  /** order lists every target once, each after the commands it depends on. */
  ghost predicate DependencyOrder(g: Vertices, order: seq<VertexId>) {
    && (forall v :: Target(g, v) ==> v in order)
    && (forall i, j :: 0 <= i < j < |order| ==> order[i] != order[j])
    && (forall i, p {:trigger DependsOn(g, order[i], p)} ::
          0 <= i < |order| && DependsOn(g, order[i], p) && Target(g, p) ==> p in order[..i])
  }

  // ---- The outcome of a walk ------------------------------------------------

  predicate ActedOn(s: Walk, id: VertexId) {
    id in s.gs.v && s.gs.v[id].Acted()
  }

  /** The walk covers the command of this name. */
  function IsCovered(g: Vertices): string -> bool {
    (name: string) => Cmd(name) in g && g[Cmd(name)].inClosure
  }

  ghost function WalkOutcomes(c: Config, s: GraphState): Outcomes
    requires s.v.Keys == c.g.Keys
  {
    map v | v in c.g && Target(c.g, v) ::
      if s.v[v].Acted() then Ran(ActionResult(s.v[v].state, s.v[v].exitCode, s.v[v].err, s.v[v].forceKilled)) else Skipped
  }

  /** Everything is consumed once an uninterrupted walk has ended. */
  lemma EndedConsumed(c: Config, s: Walk)
    requires WalkInv(c, s) && Terminated(s) && !s.interrupted
    ensures s.gs.v.Keys == c.g.Keys && LeftOver(c.g, s.gs.v) == {} && Drained(s.gs.v)
  {
    hide LeftOver, Stamps, FlagInv, TokensOf, LogCounts, LogOrdered;
    if s.workers != [] {
      assert s.workers[0] == Worker.Exited;
      assert SomeWorker(s.workers, Worker.Exited);
    }
  }

  lemma OutcomeEdge(c: Config, s: GraphState, p: VertexId, cond: AfterCondition)
    requires WellFormed(c.g) && s.v.Keys == c.g.Keys && LeftOver(c.g, s.v) == {}
    requires forall id :: id in c.g && s.v[id].blocked ==> s.v[id].consumed
    ensures EdgeHolds(c.g, WalkOutcomes(c, s), p, cond) <==> EvalDownEdge(c.g, s.v, p, cond) == EdgeSatisfied
  {
    if p in c.g && c.g[p].inClosure {
      assert Target(c.g, p);
      assert p !in LeftOver(c.g, s.v);
      assert p in WalkOutcomes(c, s);
    }
  }

  /** The outcome of a finished walk solves the equations of the evaluation. */
  lemma OutcomeSolves(c: Config, s: Walk, v: VertexId)
    requires ConfigOk(c) && WalkInv(c, s) && Terminated(s) && !s.interrupted && Target(c.g, v)
    requires s.gs.v.Keys == c.g.Keys
    ensures WalkOutcomes(c, s.gs)[v] == if Acts(c.g, c.dir, WalkOutcomes(c, s.gs), v) then Ran(c.act[v]) else Skipped
  {
    hide TokensOf, Detection, LogCounts, LogOrdered, Stamps, Terminated, LeftOver, Acyclic;
    EndedConsumed(c, s);
    OutcomeActs(c, s.gs, v);
    if s.gs.v[v].Acted() {
      assert v in ActedSet(s.gs.v);
    }
  }

  lemma OutcomeActs(c: Config, s: GraphState, v: VertexId)
    requires WellFormed(c.g) && GraphInv(c.g, s, c.dir) && Target(c.g, v) && LeftOver(c.g, s.v) == {}
    ensures s.v[v].Acted() <==> Acts(c.g, c.dir, WalkOutcomes(c, s), v)
  {
    hide Stamps, EdgeHolds, WalkOutcomes;
    var r := ReadyMap(c.g, s.v, c.dir);
    assert v !in LeftOver(c.g, s.v);
    assert VertexInv(s.v[v], c.g[v].snapshot, true, r[v], true, c.dir);
    ConsumedFlags(c, s);
    if c.dir == FromBegin {
      forall p | p in c.g[v].parents && p != Begin
        ensures EdgeHolds(c.g, WalkOutcomes(c, s), p, c.g[v].parents[p]) <==>
                EvalDownEdge(c.g, s.v, p, c.g[v].parents[p]) == EdgeSatisfied
      {
        OutcomeEdge(c, s, p, c.g[v].parents[p]);
      }
    }
  }

  lemma ConsumedFlags(c: Config, s: GraphState)
    requires GraphInv(c.g, s, c.dir)
    ensures forall id :: id in c.g && s.v[id].blocked ==> s.v[id].consumed
  {
    hide Stamps, Readiness, LeftOver;
    forall id | id in c.g && s.v[id].blocked
      ensures s.v[id].consumed
    {
      assert VertexInv(s.v[id], c.g[id].snapshot, Target(c.g, id), ReadyMap(c.g, s.v, c.dir)[id], LeftOver(c.g, s.v) == {}, c.dir);
    }
  }

  ghost predicate Solves(c: Config, out: Outcomes) {
    && out.Keys == (set v | v in c.g && Target(c.g, v))
    && forall v :: Target(c.g, v) && v in c.act ==>
         out[v] == if Acts(c.g, c.dir, out, v) then Ran(c.act[v]) else Skipped
  }

  /** Outcomes agree on what the edges of v look at. */
  lemma ActsLocal(g: Vertices, dir: Direction, a: Outcomes, b: Outcomes, v: VertexId)
    requires WellFormed(g) && Target(g, v)
    requires forall p :: DependsOn(g, v, p) && Target(g, p) ==> (p in a <==> p in b) && (p in a ==> a[p] == b[p])
    ensures Acts(g, dir, a, v) == Acts(g, dir, b, v)
  {
    forall p | p in g[v].parents && p != Begin
      ensures EdgeHolds(g, a, p, g[v].parents[p]) == EdgeHolds(g, b, p, g[v].parents[p])
    {
      if p in g && g[p].inClosure {
        assert DependsOn(g, v, p);
      }
    }
  }

  lemma {:induction false} EvaluateKeys(c: Config, order: seq<VertexId>, v: VertexId)
    requires forall x :: Target(c.g, x) ==> x in c.act
    ensures v in Evaluate(c, order) <==> v in order && Target(c.g, v)
  {
    if order != [] {
      EvaluateKeys(c, order[..|order| - 1], v);
      assert v in order <==> v in order[..|order| - 1] || v == order[|order| - 1];
    }
  }

  /** Equations over an acyclic graph have one solution: the evaluation of any
      dependency order, prefix by prefix. */
  lemma {:induction false} EvaluateSolution(c: Config, order: seq<VertexId>, n: nat, out: Outcomes, v: VertexId)
    requires ConfigOk(c) && DependencyOrder(c.g, order) && n <= |order|
    requires Solves(c, out)
    requires Target(c.g, v) && v in order[..n]
    ensures v in Evaluate(c, order[..n]) && Evaluate(c, order[..n])[v] == out[v]
    decreases n, 1
  {
    hide Acts, WellFormed, Acyclic;
    var init := order[..n][..n - 1];
    var last := order[n - 1];
    assert init == order[..n - 1] && order[..n][n - 1] == last;
    EvaluateKeys(c, order[..n], v);
    if v == last {
      EvaluateLast(c, order, n, out);
    } else {
      EvaluateSolution(c, order, n - 1, out, v);
    }
  }

  lemma {:induction false} EvaluateLast(c: Config, order: seq<VertexId>, n: nat, out: Outcomes)
    requires ConfigOk(c) && DependencyOrder(c.g, order) && 0 < n <= |order|
    requires Solves(c, out) && Target(c.g, order[n - 1])
    ensures Acts(c.g, c.dir, Evaluate(c, order[..n - 1]), order[n - 1]) == Acts(c.g, c.dir, out, order[n - 1])
    decreases n, 0
  {
    hide Acts;
    var v := order[n - 1];
    forall p | DependsOn(c.g, v, p) && Target(c.g, p)
      ensures p in Evaluate(c, order[..n - 1]) && Evaluate(c, order[..n - 1])[p] == out[p] && p in out
    {
      assert DependsOn(c.g, order[n - 1], p);
      EvaluateSolution(c, order, n - 1, out, p);
    }
    ActsLocal(c.g, c.dir, Evaluate(c, order[..n - 1]), out, v);
  }

  /** The walk refines the sequential evaluation: whatever the schedule and the
      worker limit, an uninterrupted walk that has ended acted on exactly the
      vertices the evaluation acts on, with the same results. */
  lemma WalkRefinesEvaluation(c: Config, run: seq<Walk>, order: seq<VertexId>)
    requires ConfigOk(c) && IsRun(c, run) && DependencyOrder(c.g, order)
    requires var s := run[|run| - 1]; Terminated(s) && !s.interrupted
    ensures var s := run[|run| - 1];
      s.gs.v.Keys == c.g.Keys && WalkOutcomes(c, s.gs) == Evaluate(c, order)
  {
    hide WalkInv, Terminated, DependencyOrder, WellFormed, Acyclic, Solves, NextBy, Init;
    WalkSolves(c, run);
    SolutionIsEvaluation(c, order, WalkOutcomes(c, run[|run| - 1].gs));
  }

  lemma SolutionIsEvaluation(c: Config, order: seq<VertexId>, out: Outcomes)
    requires ConfigOk(c) && DependencyOrder(c.g, order) && Solves(c, out)
    ensures out == Evaluate(c, order)
  {
    forall v
      ensures v in Evaluate(c, order) <==> v in out
      ensures v in out ==> Evaluate(c, order)[v] == out[v]
    {
      EvaluateKeys(c, order, v);
      assert order[..|order|] == order;
      if v in out {
        EvaluateSolution(c, order, |order|, out, v);
      }
    }
  }

  lemma {:induction false} SolutionsAgree(c: Config, rank: map<VertexId, nat>, a: Outcomes, b: Outcomes, v: VertexId)
    requires ConfigOk(c) && RankedBy(c.g, rank) && Solves(c, a) && Solves(c, b) && Target(c.g, v)
    ensures v in a && v in b && a[v] == b[v]
    decreases rank[v]
  {
    hide Acts, WellFormed;
    forall p | DependsOn(c.g, v, p) && Target(c.g, p)
      ensures (p in a <==> p in b) && (p in a ==> a[p] == b[p])
    {
      SolutionsAgree(c, rank, a, b, p);
    }
    ActsLocal(c.g, c.dir, a, b, v);
  }

  /** Two finished, uninterrupted walks of the same graph leave the same outcome,
      whatever their schedules and worker limits. */
  lemma SchedulesAgree(c: Config, run: seq<Walk>, limit: int, run': seq<Walk>)
    requires ConfigOk(c) && IsRun(c, run) && IsRun(c.(limit := limit), run')
    requires var s := run[|run| - 1]; Terminated(s) && !s.interrupted
    requires var s := run'[|run'| - 1]; Terminated(s) && !s.interrupted
    ensures var s, s' := run[|run| - 1], run'[|run'| - 1];
      s.gs.v.Keys == s'.gs.v.Keys == c.g.Keys && WalkOutcomes(c, s.gs) == WalkOutcomes(c, s'.gs)
  {
    hide WalkInv, Terminated, WellFormed, Acts, NextBy, Init;
    var c' := c.(limit := limit);
    var s, s' := run[|run| - 1], run'[|run'| - 1];
    WalkSolves(c, run);
    WalkSolves(c', run');
    var a, b := WalkOutcomes(c, s.gs), WalkOutcomes(c, s'.gs);
    assert b == WalkOutcomes(c', s'.gs);
    var rank :| RankedBy(c.g, rank);
    forall v | Target(c.g, v)
      ensures a[v] == b[v]
    {
      SolutionsAgree(c, rank, a, b, v);
    }
  }

  lemma WalkSolves(c: Config, run: seq<Walk>)
    requires ConfigOk(c) && IsRun(c, run)
    requires var s := run[|run| - 1]; Terminated(s) && !s.interrupted
    ensures var s := run[|run| - 1]; s.gs.v.Keys == c.g.Keys && Solves(c, WalkOutcomes(c, s.gs))
  {
    hide WalkInv, Terminated, WellFormed, Acyclic, Acts, NextBy, Init;
    var s := run[|run| - 1];
    RunInv(c, run, |run| - 1);
    EndedConsumed(c, s);
    var out := WalkOutcomes(c, s.gs);
    forall v | Target(c.g, v)
      ensures out[v] == if Acts(c.g, c.dir, out, v) then Ran(c.act[v]) else Skipped
    {
      OutcomeSolves(c, s, v);
    }
  }

  /** Once an uninterrupted walk has ended, every target was acted on exactly once
      or is blocked with an error and was never acted on. A stop walk acts on all
      of them. */
  lemma EveryTargetSettled(c: Config, run: seq<Walk>, v: VertexId)
    requires ConfigOk(c) && IsRun(c, run) && Target(c.g, v)
    requires var s := run[|run| - 1]; Terminated(s) && !s.interrupted
    ensures var s := run[|run| - 1];
      && v in s.gs.v && s.gs.v[v].consumed
      && multiset(s.log)[Begun(v)] == multiset(s.log)[Ended(v)] == (if s.gs.v[v].Acted() then 1 else 0)
      && (s.gs.v[v].blocked ==> s.gs.v[v].err.Some? && c.dir == FromBegin)
  {
    hide ConfigOk, Terminated, Init, Tokens, LogOrdered, Faithful, Capacity, Stamps, Readiness;
    var s := run[|run| - 1];
    RunInv(c, run, |run| - 1);
    EndedConsumed(c, s);
    CountsOf(s.gs.v, s.log, v);
    assert v !in LeftOver(c.g, s.gs.v);
    assert v !in BusySet(s.gs.v);
    assert VertexInv(s.gs.v[v], c.g[v].snapshot, true, ReadyMap(c.g, s.gs.v, c.dir)[v], LeftOver(c.g, s.gs.v) == {}, c.dir);
  }
}
