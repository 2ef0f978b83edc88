/** The report of a start walk: the commands it covered, in the order of the spec,
    each with the error of its vertex. */
module StartOutcomes {
  import opened Collections
  import opened Wrappers
  import opened ComposeSpec
  import opened ReconcileGraph
  import opened ReconcileInvariant
  import opened ReconcileWalk
  import opened ReconcileWalkInvariant
  import opened ReconcileRuns
  import opened ReconcileOutcome

  datatype StartOutcome = StartOutcome(command: string, err: Option<Failure>)

  function Starts(commands: seq<Command>, g: Vertices, v: Scheds): seq<StartOutcome>
    requires v.Keys == g.Keys
  {
    if commands == [] then []
    else
      var id := Cmd(commands[|commands| - 1].name);
      Starts(commands[..|commands| - 1], g, v) +
      if id in g && g[id].inClosure then [StartOutcome(id.name, v[id].err)] else []
  }

  method ReportStarts(graph: Graph, commands: seq<Command>) returns (out: seq<StartOutcome>)
    requires graph.Valid()
    ensures out == Starts(commands, graph.g, graph.v)
    ensures IsFilter(Listed(out), NamesOf(commands), IsCovered(graph.g))
    ensures forall i :: 0 <= i < |out| ==> InClosure(graph.g, Cmd(out[i].command)) && out[i].err == graph.v[Cmd(out[i].command)].err
  {
    hide IsFilter;
    StartsInOrder(commands, graph.g, graph.v);
    out := [];
    for i := 0 to |commands|
      invariant out == Starts(commands[..i], graph.g, graph.v)
    {
      assert commands[..i + 1][..i] == commands[..i];
      var id := Cmd(commands[i].name);
      if id in graph.g && graph.g[id].inClosure {
        out := out + [StartOutcome(id.name, graph.v[id].err)];
      }
    }
    assert commands[..|commands|] == commands;
  }

  lemma {:induction false} StartsMember(commands: seq<Command>, g: Vertices, v: Scheds, o: StartOutcome)
    requires v.Keys == g.Keys
    ensures o in Starts(commands, g, v) <==>
              Known(commands, o.command) && InClosure(g, Cmd(o.command)) && o.err == v[Cmd(o.command)].err
  {
    if commands != [] {
      var init, last := commands[..|commands| - 1], commands[|commands| - 1];
      StartsMember(init, g, v, o);
      assert commands == init + [last];
      KnownSnoc(init, last, o.command);
    }
  }

  function Listed(out: seq<StartOutcome>): seq<string> {
    seq(|out|, i requires 0 <= i < |out| => out[i].command)
  }

  /** The report lists the commands in the closure in the order of the spec, each with
      the error of its vertex. */
  lemma {:induction false} StartsInOrder(commands: seq<Command>, g: Vertices, v: Scheds)
    requires v.Keys == g.Keys
    ensures var out := Starts(commands, g, v);
      && IsFilter(Listed(out), NamesOf(commands), IsCovered(g))
      && forall i :: 0 <= i < |out| ==> InClosure(g, Cmd(out[i].command)) && out[i].err == v[Cmd(out[i].command)].err
  {
    hide IsFilter;
    if commands == [] {
      NothingFiltered(IsCovered(g));
    } else {
      var init, last := commands[..|commands| - 1], commands[|commands| - 1];
      StartsInOrder(init, g, v);
      FilterMore(Listed(Starts(init, g, v)), NamesOf(init), last.name, IsCovered(g));
      assert NamesOf(commands) == NamesOf(init) + [last.name];
      var before := Listed(Starts(init, g, v));
      assert Listed(Starts(commands, g, v)) == if IsCovered(g)(last.name) then before + [last.name] else before;
    }
  }

  lemma KnownSnoc(init: seq<Command>, last: Command, x: string)
    ensures Known(init + [last], x) <==> Known(init, x) || last.name == x
  {
    assert NamesOf(init + [last]) == NamesOf(init) + [last.name];
  }

  /** The walk has not come to the command, neither to act on it nor to block it. */
  predicate Unvisited(s: Walk, id: VertexId) {
    id in s.gs.v && !s.gs.v[id].consumed
  }

  /** In every state of every walk, interrupted or not: a command is reported without
      an error when its action ended without one, and also when the walk has not come
      to it. */
  lemma NoErrorMeans(c: Config, run: seq<Walk>, k: nat, commands: seq<Command>, o: StartOutcome)
    requires ConfigOk(c) && IsRun(c, run) && k < |run|
    ensures run[k].gs.v.Keys == c.g.Keys
    ensures o in Starts(commands, c.g, run[k].gs.v) ==>
              (o.err.None? <==> Unvisited(run[k], Cmd(o.command))
                                || (ActedOn(run[k], Cmd(o.command)) && run[k].gs.v[Cmd(o.command)].err.None?))
  {
    hide ConfigOk, ReconcileWalk.Init, Next, WalkInv;
    RunInv(c, run, k);
    InvGraph(c, run[k]);
    StartsMember(commands, c.g, run[k].gs.v, o);
    if o in Starts(commands, c.g, run[k].gs.v) {
      VertexErr(c, run[k].gs, Cmd(o.command));
    }
  }

  lemma InvGraph(c: Config, s: Walk)
    requires WalkInv(c, s)
    ensures GraphInv(c.g, s.gs, c.dir)
  {
  }

  lemma VertexErr(c: Config, s: GraphState, id: VertexId)
    requires GraphInv(c.g, s, c.dir) && id in c.g
    ensures !s.v[id].Acted() ==> s.v[id].err.Some? == s.v[id].blocked
    ensures s.v[id].blocked ==> s.v[id].consumed
  {
    hide Stamps, Readiness;
    assert VertexInv(s.v[id], c.g[id].snapshot, Target(c.g, id), ReadyMap(c.g, s.v, c.dir)[id], LeftOver(c.g, s.v) == {}, c.dir);
  }

  /** No error in the report means that the command was acted on exactly when the
      walk came to every command it lists. */
  lemma NoErrorMeansActed(c: Config, run: seq<Walk>, k: nat, commands: seq<Command>)
    requires ConfigOk(c) && IsRun(c, run) && k < |run|
    ensures run[k].gs.v.Keys == c.g.Keys
    ensures var out := Starts(commands, c.g, run[k].gs.v);
      (forall o :: o in out && o.err.None? ==> ActedOn(run[k], Cmd(o.command))) <==>
      (forall o :: o in out ==> !Unvisited(run[k], Cmd(o.command)))
  {
    hide ConfigOk, IsRun, Starts;
    NoErrorMeans(c, run, k, commands, StartOutcome("", None));
    forall o
      ensures o in Starts(commands, c.g, run[k].gs.v) ==>
              (o.err.None? <==> Unvisited(run[k], Cmd(o.command))
                                || (ActedOn(run[k], Cmd(o.command)) && run[k].gs.v[Cmd(o.command)].err.None?))
    {
      NoErrorMeans(c, run, k, commands, o);
    }
  }

  /** That holds at the end of every walk that was not interrupted. */
  lemma FinishedWalkReachesAll(c: Config, run: seq<Walk>, commands: seq<Command>, o: StartOutcome)
    requires ConfigOk(c) && IsRun(c, run)
    requires var s := run[|run| - 1]; Terminated(s) && !s.interrupted
    ensures var s := run[|run| - 1];
      && s.gs.v.Keys == c.g.Keys
      && (o in Starts(commands, c.g, s.gs.v) ==> !Unvisited(s, Cmd(o.command)))
  {
    hide ConfigOk, ReconcileWalk.Init, Next, WalkInv, Terminated;
    RunInv(c, run, |run| - 1);
    var s := run[|run| - 1];
    InvGraph(c, s);
    StartsMember(commands, c.g, s.gs.v, o);
    if o in Starts(commands, c.g, s.gs.v) {
      ClosureTarget(c, Cmd(o.command));
      EveryTargetSettled(c, run, Cmd(o.command));
    }
  }

  lemma ClosureTarget(c: Config, id: VertexId)
    requires ConfigOk(c) && InClosure(c.g, id)
    ensures Target(c.g, id)
  {
    hide Acyclic;
  }

  // ---- A walk interrupted at once -------------------------------------------

  /** Seeding queues some target. */
  ghost predicate HasWork(c: Config) {
    !Done(c.g, SeedState(c.g, FreshState(c.g), c.dir).v)
  }

  lemma {:induction false} Enumeration(q: set<VertexId>) returns (order: seq<VertexId>)
    ensures Enumerates(order, q)
  {
    if q == {} {
      order := [];
    } else {
      var id :| id in q;
      var rest := Enumeration(q - {id});
      order := rest + [id];
    }
  }

  /** The workers from n on leave. */
  lemma {:induction false} AllQuit(c: Config, run: seq<Walk>, n: nat) returns (more: seq<Walk>)
    requires run != [] && IsRun(c, run)
    requires var s := run[|run| - 1];
      && s.cancelled && n <= |s.workers|
      && forall w :: 0 <= w < |s.workers| ==> if w < n then s.workers[w].Exited? else s.workers[w].Idle?
    ensures more != [] && IsRun(c, more) && Terminated(more[|more| - 1])
    ensures var s, s' := run[|run| - 1], more[|more| - 1]; s' == s.(workers := s'.workers)
    decreases |run[|run| - 1].workers| - n
  {
    hide ReconcileWalk.Init, NextBy, IsRun;
    var s := run[|run| - 1];
    more := run;
    if n < |s.workers| {
      var s' := s.(workers := s.workers[n := Worker.Exited]);
      WorkerQuits(c, s, s', n);
      more := Longer(c, run, s');
      more := AllQuit(c, more, n + 1);
    }
  }

  lemma WorkerQuits(c: Config, s: Walk, s': Walk, n: nat)
    requires s.cancelled && n < |s.workers| && s.workers[n].Idle? && s' == s.(workers := s.workers[n := Worker.Exited])
    ensures Next(c, s, s')
  {
    assert NextBy(c, s, s', Quit(n));
  }

  lemma Longer(c: Config, run: seq<Walk>, s': Walk) returns (more: seq<Walk>)
    requires IsRun(c, run) && Next(c, run[|run| - 1], s')
    ensures more == run + [s'] && IsRun(c, more)
  {
    hide ReconcileWalk.Init, NextBy;
    more := run + [s'];
    forall i | 0 <= i < |more| - 1
      ensures Next(c, more[i], more[i + 1])
    {
      if i < |run| - 1 {
        assert Next(c, run[i], run[i + 1]);
      }
    }
  }

  /** Every walk that has something to do can be interrupted at once: it ends without
      having come to any command, and reports all of them without an error. */
  lemma InterruptedReportsNothing(c: Config, commands: seq<Command>) returns (run: seq<Walk>)
    requires ConfigOk(c) && HasWork(c)
    ensures IsRun(c, run) && Terminated(run[|run| - 1]) && run[|run| - 1].interrupted
    ensures var s := run[|run| - 1];
      && s.gs.v.Keys == c.g.Keys
      && forall o :: o in Starts(commands, c.g, s.gs.v) ==> o.err.None? && Unvisited(s, Cmd(o.command))
  {
    hide WellFormed, Acyclic, SeedSet, Terminated;
    var gs := SeedState(c.g, FreshState(c.g), c.dir);
    var queue := Enumeration(SeedSet(c.g, c.dir));
    var s := Walk(gs, queue, seq(Max(c.limit, 1), _ => Idle), false, false, []);
    var s' := s.(cancelled := true, interrupted := true);
    assert NextBy(c, s, s', Interrupt);
    run := Longer(c, [s], s');
    run := AllQuit(c, run, 0);
    forall o | o in Starts(commands, c.g, gs.v)
      ensures o.err.None? && Unvisited(run[|run| - 1], Cmd(o.command))
    {
      StartsMember(commands, c.g, gs.v, o);
    }
  }

  // ---- Exactly when ----------------------------------------------------------

  /** The walk covers a command of the spec. */
  predicate CoversSome(c: Config, commands: seq<Command>) {
    exists i :: 0 <= i < |commands| && InClosure(c.g, Cmd(commands[i].name))
  }

  /** run ended with a command reported without an error that was not acted on. */
  ghost predicate ReportsUnacted(c: Config, run: seq<Walk>, commands: seq<Command>, o: StartOutcome) {
    && IsRun(c, run) && Terminated(run[|run| - 1])
    && var s := run[|run| - 1];
       s.gs.v.Keys == c.g.Keys && o in Starts(commands, c.g, s.gs.v) && o.err.None? && !ActedOn(s, Cmd(o.command))
  }

  /** A walk that has nothing to do starts no worker and blocks every command it
      covers. */
  lemma {:induction false} NothingToDo(c: Config, run: seq<Walk>, k: nat)
    requires IsRun(c, run) && k < |run| && !HasWork(c)
    ensures run[k].workers == [] && Finalized(c.g, SeedState(c.g, FreshState(c.g), c.dir), run[k].gs)
  {
    hide Finalized, SeedSet, NextBy;
    if k > 0 {
      NothingToDo(c, run, k - 1);
      assert Next(c, run[k - 1], run[k - 1 + 1]);
      var step :| NextBy(c, run[k - 1], run[k], step);
      IdleStep(c, run[k - 1], run[k], step);
    }
  }

  lemma IdleStep(c: Config, s: Walk, s': Walk, step: Step)
    requires NextBy(c, s, s', step) && s.workers == []
    ensures s'.workers == [] && s'.gs == s.gs
  {
    hide Finalized, Enumerates, ClaimState, CompleteState;
  }

  lemma FinalizedVisited(c: Config, gs: GraphState, s: Walk, id: VertexId)
    requires gs.v.Keys == c.g.Keys && Finalized(c.g, gs, s.gs) && Target(c.g, id)
    ensures !Unvisited(s, id)
  {
  }

  /** A start reports a command without an error that it did not act on in some of its
      runs, exactly when it has something to do and covers a command. */
  lemma UnactedExactly(c: Config, commands: seq<Command>)
    requires ConfigOk(c)
    ensures (exists run, o :: ReportsUnacted(c, run, commands, o)) <==>
            HasWork(c) && CoversSome(c, commands)
  {
    hide ConfigOk, Terminated, Starts, HasWork, ReconcileWalk.Init, Next;
    if HasWork(c) && CoversSome(c, commands) {
      var run := InterruptedReportsNothing(c, commands);
      var i :| 0 <= i < |commands| && InClosure(c.g, Cmd(commands[i].name));
      var s := run[|run| - 1];
      var o := StartOutcome(commands[i].name, s.gs.v[Cmd(commands[i].name)].err);
      StartsMember(commands, c.g, s.gs.v, o);
      ListedKnown(commands, i);
      assert ReportsUnacted(c, run, commands, o);
    }
    forall run, o | ReportsUnacted(c, run, commands, o)
      ensures HasWork(c) && CoversSome(c, commands)
    {
      UnactedNeeds(c, run, commands, o);
    }
  }

  lemma ListedKnown(commands: seq<Command>, i: nat)
    requires i < |commands|
    ensures Known(commands, commands[i].name)
  {
    assert NamesOf(commands)[i] == commands[i].name;
  }

  lemma UnactedNeeds(c: Config, run: seq<Walk>, commands: seq<Command>, o: StartOutcome)
    requires ConfigOk(c) && ReportsUnacted(c, run, commands, o)
    ensures HasWork(c) && CoversSome(c, commands)
  {
    hide ConfigOk, Terminated, Starts, HasWork, ReconcileWalk.Init, Next, Finalized, SeedSet;
    var s := run[|run| - 1];
    StartsMember(commands, c.g, s.gs.v, o);
    NoErrorMeans(c, run, |run| - 1, commands, o);
    ClosureTarget(c, Cmd(o.command));
    var i :| 0 <= i < |NamesOf(commands)| && NamesOf(commands)[i] == o.command;
    assert commands[i].name == o.command;
    if !HasWork(c) {
      NothingToDo(c, run, |run| - 1);
      FinalizedVisited(c, SeedState(c.g, FreshState(c.g), c.dir), s, Cmd(o.command));
    }
  }
}
