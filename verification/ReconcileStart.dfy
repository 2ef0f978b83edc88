/** The start of a project as a whole: the graph built from its commands, walked
    from begin, under actions that keep the contract of the start action. */
module ReconcileStart {
  import opened Wrappers
  import opened CommandSnapshot
  import opened ComposeSpec
  import opened DependencyGraph
  import opened Closures
  import opened ReconcileGraph
  import opened ReconcileInvariant
  import opened ReconcileWalk
  import opened ReconcileOutcome
  import opened ReconcileBuild
  import opened ReconcileActions

  /** Every dependency of a target is a target. */
  ghost predicate DependencyClosed(g: Vertices) {
    forall v, p {:trigger p in g[v].parents} :: Target(g, v) && p in g[v].parents && p != Begin ==> Target(g, p)
  }

  ghost predicate ActsLikeStart(c: Config) {
    forall v :: Target(c.g, v) && v in c.act ==> StartContract(NeedsCompletion(c.g, v), c.act[v])
  }

  /** The dependency can no longer make the edge hold: it is blocked, it failed, it
      did not succeed although it had to, or its completion is asked for by unset
      conditions alone, which do not make its action wait. */
  ghost predicate Unmet(g: Vertices, out: Outcomes, p: VertexId, cond: AfterCondition) {
    p in out ==>
      || out[p].Skipped?
      || out[p].res.err.Some?
      || (cond == ConditionCompletedSuccessfully && !(out[p].res.state == EventType.Exited && out[p].res.exitCode == Some(0)))
      || (cond == ConditionUnset && !NeedsCompletion(g, p))
  }

  lemma ConditionNeedsCompletion(g: Vertices, v: VertexId, p: VertexId)
    requires WellFormed(g) && Target(g, v) && p in g && p in g[v].parents && p.Cmd?
    requires g[v].parents[p] == ConditionCompleted || g[v].parents[p] == ConditionCompletedSuccessfully
    ensures NeedsCompletion(g, p)
  {
    assert DependsOn(g, v, p);
    assert HasDependent(g, p, v);
  }

  lemma EdgeHoldsUnlessUnmet(c: Config, out: Outcomes, v: VertexId, p: VertexId)
    requires ConfigOk(c) && ActsLikeStart(c) && Solves(c, out)
    requires Target(c.g, v) && Target(c.g, p) && p in c.g[v].parents
    ensures EdgeHolds(c.g, out, p, c.g[v].parents[p]) <==> !Unmet(c.g, out, p, c.g[v].parents[p])
  {
    hide ReconcileInvariant.Acyclic, Acts, NeedsCompletion;
    var cond := c.g[v].parents[p];
    if cond == ConditionCompleted || cond == ConditionCompletedSuccessfully {
      ConditionNeedsCompletion(c.g, v, p);
    }
    assert StartContract(NeedsCompletion(c.g, p), c.act[p]);
  }

  /** No vertex is left merely waiting: in a finished, uninterrupted start walk over
      targets closed under dependencies, a vertex is blocked exactly when some
      dependency can no longer meet its edge. */
  lemma BlockedOnlyByUnmet(c: Config, run: seq<Walk>, v: VertexId)
    requires ConfigOk(c) && c.dir == FromBegin && DependencyClosed(c.g) && ActsLikeStart(c)
    requires IsRun(c, run) && Target(c.g, v)
    requires var s := run[|run| - 1]; Terminated(s) && !s.interrupted
    ensures var s := run[|run| - 1];
      && s.gs.v.Keys == c.g.Keys
      && (s.gs.v[v].blocked <==>
            exists p :: p in c.g[v].parents && p != Begin && Unmet(c.g, WalkOutcomes(c, s.gs), p, c.g[v].parents[p]))
  {
    hide ConfigOk, Init, Next, Terminated, WellFormed, Unmet, EdgeHolds, StartContract;
    var s := run[|run| - 1];
    WalkSolves(c, run);
    EveryTargetSettled(c, run, v);
    var out := WalkOutcomes(c, s.gs);
    TargetActs(c, v);
    forall p | p in c.g[v].parents && p != Begin
      ensures EdgeHolds(c.g, out, p, c.g[v].parents[p]) <==> !Unmet(c.g, out, p, c.g[v].parents[p])
    {
      EdgeHoldsUnlessUnmet(c, out, v, p);
    }
    assert out[v].Skipped? <==> !Acts(c.g, c.dir, out, v);
    assert s.gs.v[v].blocked <==> out[v].Skipped?;
  }

  lemma TargetActs(c: Config, v: VertexId)
    requires ConfigOk(c) && Target(c.g, v)
    ensures v in c.act
  {
  }

  // ---- From the spec to the walk --------------------------------------------

  /** With the targets the search returns, every dependency edge of a target leads
      to a target: the branch that judges a dependency by its stored snapshot is
      never taken. */
  lemma TargetsAreClosed(commands: seq<Command>, names: seq<string>, snaps: map<string, Snapshot>, closure: set<string>,
      targets: TargetSet, g: Vertices)
    requires DistinctCommands(commands) && AllKnown(commands)
    requires IsBuilt(commands, snaps, closure, targets, g)
    requires IsClosure(commands, Dependencies, SeedsOf(commands, names), closure)
    ensures DependencyClosed(g)
  {
    hide DistinctCommands, IsBuilt, ParentsOf, IsClosure, AllKnown, Closed, After;
    forall v, p | Target(g, v) && p in g[v].parents && p != Begin
      ensures Target(g, p)
    {
      BuiltWellFormed(commands, snaps, closure, targets, g);
      TargetNamed(commands, snaps, closure, targets, g, v);
      assert v.Cmd? && p.Cmd?;
      assert DependsOn(g, v, p);
      BuiltDependsOn(commands, snaps, closure, targets, g, v.name, p.name);
      DependencyKnown(commands, v.name, p.name);
      ClosurePulls(commands, SeedsOf(commands, names), closure, v.name, p.name);
      TargetNamed(commands, snaps, closure, targets, g, p);
    }
  }

  lemma TargetNamed(commands: seq<Command>, snaps: map<string, Snapshot>, closure: set<string>, targets: TargetSet,
      g: Vertices, v: VertexId)
    requires DistinctCommands(commands) && IsBuilt(commands, snaps, closure, targets, g)
    ensures Target(g, v) <==> v.Cmd? && Known(commands, v.name) && v.name in closure
  {
    hide DistinctCommands, IsBuilt, ChildrenBuilt;
    if v.Cmd? {
      BuiltKeys(commands, snaps, closure, targets, g, v.name);
      if Known(commands, v.name) {
        BuiltVertex(commands, snaps, closure, targets, g, v.name);
      }
    } else {
      BuiltKeys(commands, snaps, closure, targets, g, "");
    }
  }

  lemma DependencyKnown(commands: seq<Command>, x: string, y: string)
    requires AllKnown(commands) && After(commands, x, y)
    ensures Known(commands, y)
  {
  }

  lemma ClosurePulls(commands: seq<Command>, seeds: seq<string>, closure: set<string>, x: string, y: string)
    requires IsClosure(commands, Dependencies, seeds, closure) && x in closure && After(commands, x, y) && Known(commands, y)
    ensures y in closure
  {
    hide After;
    assert Pulls(commands, Dependencies, x, y);
  }

  /** A walk over the graph of a valid spec is fit to run, whichever its targets,
      direction and limit, and it ends as if the commands had been handled one by
      one, layer after layer. */
  lemma WalkFollowsLayers(commands: seq<Command>, layers: Layers, snaps: map<string, Snapshot>, closure: set<string>,
      targets: TargetSet, c: Config, run: seq<Walk>)
    requires DistinctCommands(commands) && IsLayering(commands, layers)
    requires IsBuilt(commands, snaps, closure, targets, c.g)
    requires forall id :: Target(c.g, id) ==> id in c.act
    requires IsRun(c, run) && var s := run[|run| - 1]; Terminated(s) && !s.interrupted
    ensures ConfigOk(c)
    ensures var s := run[|run| - 1];
      s.gs.v.Keys == c.g.Keys && WalkOutcomes(c, s.gs) == Evaluate(c, Flatten(layers))
  {
    hide DistinctCommands, IsLayering, IsBuilt, IsRun, Terminated, WellFormed, ReconcileInvariant.Acyclic, DependencyOrder;
    BuiltWellFormed(commands, snaps, closure, targets, c.g);
    BuiltAcyclic(commands, snaps, closure, targets, c.g, layers);
    LayersAreDependencyOrder(commands, snaps, closure, targets, c.g, layers);
    WalkRefinesEvaluation(c, run, Flatten(layers));
  }

  // ---- An unset condition ---------------------------------------------------

  const DEPENDENCY := Cmd("a")
  const DEPENDENT := Cmd("b")

  function UnsetGraph(): Vertices {
    var a := ComposeSpec.Command("a", "a", [], 1, "");
    var b := ComposeSpec.Command("b", "b", [AfterSpec("a", ConditionUnset)], 1, "");
    map[
      Begin := Vertex(None, EMPTY_SNAPSHOT, false, None, map[], map[DEPENDENCY := ConditionUnset, DEPENDENT := ConditionUnset]),
      End := Vertex(None, EMPTY_SNAPSHOT, false, None, map[DEPENDENCY := ConditionUnset, DEPENDENT := ConditionUnset], map[]),
      DEPENDENCY := Vertex(Some(a), EMPTY_SNAPSHOT, true, None, map[Begin := ConditionUnset],
                           map[End := ConditionUnset, DEPENDENT := ConditionUnset]),
      DEPENDENT := Vertex(Some(b), EMPTY_SNAPSHOT, true, None, map[Begin := ConditionUnset, DEPENDENCY := ConditionUnset],
                          map[End := ConditionUnset])
    ]
  }

  /** An unset condition counts as completed when the edge is judged but not when
      the action decides whether to wait: the dependency runs without an error and
      its dependent is still left blocked. Normalization never leaves a condition
      unset. */
  lemma UnsetConditionStrands(act: map<VertexId, ActionResult>, limit: int)
    requires act.Keys == {DEPENDENCY, DEPENDENT}
    requires StartContract(NeedsCompletion(UnsetGraph(), DEPENDENCY), act[DEPENDENCY]) && act[DEPENDENCY].err.None?
    ensures var c := Config(UnsetGraph(), FromBegin, limit, act);
      Evaluate(c, [DEPENDENCY, DEPENDENT]) == map[DEPENDENCY := Ran(act[DEPENDENCY]), DEPENDENT := Skipped]
  {
    var g := UnsetGraph();
    var c := Config(g, FromBegin, limit, act);
    assert !NeedsCompletion(g, DEPENDENCY);
    assert [DEPENDENCY, DEPENDENT][..1] == [DEPENDENCY] && [DEPENDENCY][..0] == [];
    assert Evaluate(c, []) == map[];
    assert Acts(g, FromBegin, map[], DEPENDENCY);
    var out := Evaluate(c, [DEPENDENCY]);
    assert out == map[DEPENDENCY := Ran(act[DEPENDENCY])];
    assert !EdgeHolds(g, out, DEPENDENCY, ConditionUnset);
    assert DEPENDENCY in g[DEPENDENT].parents;
  }
}
