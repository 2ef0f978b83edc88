/** What holds of every run of the walk: safety in each reachable state, and for
    runs that are not interrupted, progress and termination. */
module ReconcileRuns {
  import opened Collections
  import opened ReconcileGraph
  import opened ReconcileInvariant
  import opened ReconcileWalk
  import opened ReconcileWalkInvariant

  // ---- Reachable states keep the invariant ----------------------------------

  lemma SeededSets(c: Config)
    requires ConfigOk(c)
    ensures var v := SeedState(c.g, FreshState(c.g), c.dir).v;
      && QueuedSet(v) == SeedSet(c.g, c.dir)
      && BusySet(v) == {} && ActedSet(v) == {}
  {
  }

  lemma EnumeratesSize(q: seq<VertexId>, s: set<VertexId>)
    requires Enumerates(q, s)
    ensures |q| == |s|
  {
    EnumeratesOnce(q, s);
    assert |multiset(q)| == |multiset(s)|;
  }

  lemma InitConfig(c: Config)
    requires ConfigOk(c)
    ensures WellFormed(c.g) && Acyclic(c.g)
  {
  }

  lemma InitDone(c: Config, s: Walk)
    requires ConfigOk(c) && Init(c, s) && Done(c.g, SeedState(c.g, FreshState(c.g), c.dir).v)
    ensures WalkInv(c, s)
  {
    hide GraphInv, ConfigOk, SeedState, MarkedUnreached, LeftOver, Done, SeedSet;
    InitConfig(c);
    var seeded := SeedState(c.g, FreshState(c.g), c.dir);
    SeedKeeps(c.g, c.dir);
    SeededSets(c);
    DrainedIffDone(c.g, seeded, c.dir);
    FinalizeKeeps(c.g, seeded, s.gs, c.dir);
    FinalizeEffect(c.g, seeded, s.gs, c.dir);
    InitLog(s.gs.v);
    assert s.queue == [] && s.workers == [];
    assert Loose(s) == multiset{} && Busy(s.workers) == multiset{};
  }

  lemma InitLog(v: Scheds)
    requires Drained(v) && ActedSet(v) == {}
    ensures LogCounts(v, [])
  {
    assert BegunEvents(BusySet(v) + ActedSet(v)) == {};
    assert EndedEvents(ActedSet(v)) == {};
  }

  lemma InitTokens(c: Config, s: Walk)
    requires ConfigOk(c) && Init(c, s) && !Done(c.g, SeedState(c.g, FreshState(c.g), c.dir).v)
    ensures TokensOf(s) && |s.queue| <= Capacity(c.g)
  {
    hide ConfigOk, SeedState, Done, SeedSet, Enumerates, QueuedSet, BusySet, ActedSet;
    SeededSets(c);
    AllIdle(Max(c.limit, 1));
    EnumeratesOnce(s.queue, SeedSet(c.g, c.dir));
    EnumeratesSize(s.queue, SeedSet(c.g, c.dir));
    SeedCommands(c);
    SubsetSize(SeedSet(c.g, c.dir), Commands(c.g));
    assert Loose(s) == multiset(s.queue);
  }

  lemma InitRunning(c: Config, s: Walk)
    requires ConfigOk(c) && Init(c, s) && !Done(c.g, SeedState(c.g, FreshState(c.g), c.dir).v)
    ensures WalkInv(c, s)
  {
    hide GraphInv, ConfigOk, SeedState, LeftOver, Done, SeedSet, Enumerates, TokensOf, LogCounts;
    InitConfig(c);
    SeedKeeps(c.g, c.dir);
    SeededSets(c);
    DrainedIffDone(c.g, s.gs, c.dir);
    InitTokens(c, s);
    InitLogRunning(s.gs.v);
  }

  lemma SeedCommands(c: Config)
    ensures SeedSet(c.g, c.dir) <= Commands(c.g)
  {
  }

  lemma InitLogRunning(v: Scheds)
    requires BusySet(v) == {} && ActedSet(v) == {}
    ensures LogCounts(v, [])
  {
    assert BegunEvents(BusySet(v) + ActedSet(v)) == {};
    assert EndedEvents(ActedSet(v)) == {};
  }

  lemma InitInv(c: Config, s: Walk)
    requires ConfigOk(c) && Init(c, s)
    ensures WalkInv(c, s)
  {
    hide WalkInv, Init, ConfigOk, Done, SeedSet;
    if Done(c.g, SeedState(c.g, FreshState(c.g), c.dir).v) {
      InitDone(c, s);
    } else {
      InitRunning(c, s);
    }
  }

  /** Every state of every run, interrupted or not, satisfies the invariant. */
  lemma {:induction false} RunInv(c: Config, run: seq<Walk>, i: nat)
    requires ConfigOk(c) && IsRun(c, run) && i < |run|
    ensures WalkInv(c, run[i])
  {
    hide WalkInv, Init, ConfigOk, NextBy;
    if i == 0 {
      InitInv(c, run[0]);
    } else {
      RunInv(c, run, i - 1);
      assert Next(c, run[i - 1], run[i - 1 + 1]);
      var step :| NextBy(c, run[i - 1], run[i], step);
      StepKeeps(c, run[i - 1], run[i], step);
    }
  }

  lemma StepWorkers(c: Config, s: Walk, s': Walk, step: Step)
    requires NextBy(c, s, s', step)
    ensures |s'.workers| == |s.workers|
  {
    hide Done, Finalized, ClaimState, ClaimStatus, CompleteState, CompleteFrontier, Enumerates;
  }

  lemma {:induction false} WorkersKept(c: Config, run: seq<Walk>, i: nat)
    requires IsRun(c, run) && i < |run|
    ensures |run[i].workers| <= Max(c.limit, 1)
  {
    hide NextBy, Done, Finalized;
    if i > 0 {
      WorkersKept(c, run, i - 1);
      assert Next(c, run[i - 1], run[i - 1 + 1]);
      var step :| NextBy(c, run[i - 1], run[i], step);
      StepWorkers(c, run[i - 1], run[i], step);
    }
  }

  // ---- Safety ---------------------------------------------------------------

  /** In a walk from begin an action runs only while every dependency edge is
      satisfied, and what an action relied on never changes afterwards. */
  lemma ActionEdgesHold(c: Config, run: seq<Walk>, i: nat, v: VertexId, p: VertexId)
    requires ConfigOk(c) && IsRun(c, run) && i < |run| && c.dir == FromBegin
    requires run[i].gs.v.Keys == c.g.Keys && v in c.g
    requires run[i].gs.v[v].inProgress || run[i].gs.v[v].Acted()
    requires p in c.g[v].parents && p != Begin
    ensures EvalDownEdge(c.g, run[i].gs.v, p, c.g[v].parents[p]) == EdgeSatisfied
  {
    hide IsRun, ConfigOk;
    RunInv(c, run, i);
    EdgesOfActing(c.g, run[i].gs, c.dir, v);
    assert Readiness(c.g, run[i].gs.v, v, FromBegin) == EdgeSatisfied;
  }

  lemma EdgesOfActing(g: Vertices, s: GraphState, dir: Direction, v: VertexId)
    requires GraphInv(g, s, dir) && v in g && (s.v[v].inProgress || s.v[v].Acted())
    ensures Readiness(g, s.v, v, dir) == EdgeSatisfied
  {
    hide Readiness, Stamps;
    assert VertexInv(s.v[v], g[v].snapshot, Target(g, v), ReadyMap(g, s.v, dir)[v], LeftOver(g, s.v) == {}, dir);
  }

  /** Whenever the action of v has begun, the actions of all in-closure
      dependencies (from begin) or dependents (from end) ended before. */
  lemma ActionsOrdered(c: Config, run: seq<Walk>, i: nat, k: nat, n: VertexId)
    requires ConfigOk(c) && IsRun(c, run) && i < |run|
    requires k < |run[i].log| && run[i].log[k].Begun? && Precedes(c.g, c.dir, n, run[i].log[k].id)
    ensures exists j :: 0 <= j < k && run[i].log[j] == Ended(n)
  {
    RunInv(c, run, i);
    assert Ended(n) in run[i].log[..k];
  }

  /** No vertex is acted on twice, and at most limit are at any time. */
  lemma ActionsBounded(c: Config, run: seq<Walk>, i: nat, v: VertexId)
    requires ConfigOk(c) && IsRun(c, run) && i < |run|
    ensures multiset(run[i].log)[Ended(v)] <= multiset(run[i].log)[Begun(v)] <= 1
    ensures |BusySet(run[i].gs.v)| <= Max(c.limit, 1)
  {
    hide IsRun, ConfigOk, GraphInv, Detection, LogOrdered, Faithful, Capacity;
    RunInv(c, run, i);
    CountsOf(run[i].gs.v, run[i].log, v);
    assert |Busy(run[i].workers)| == |multiset(BusySet(run[i].gs.v))|;
    BusyAtMost(run[i].workers);
    WorkersKept(c, run, i);
  }

  lemma CountsOf(s: Scheds, log: seq<Event>, v: VertexId)
    requires LogCounts(s, log)
    ensures multiset(log)[Begun(v)] == if v in BusySet(s) + ActedSet(s) then 1 else 0
    ensures multiset(log)[Ended(v)] == if v in ActedSet(s) then 1 else 0
  {
    assert Begun(v) in BegunEvents(BusySet(s) + ActedSet(s)) <==> v in BusySet(s) + ActedSet(s);
    assert Ended(v) in EndedEvents(ActedSet(s)) <==> v in ActedSet(s);
  }

  /** The ids in the channel and those workers still hold are the queued vertices,
      each once. */
  lemma QueuedAccounted(c: Config, run: seq<Walk>, i: nat)
    requires ConfigOk(c) && IsRun(c, run) && i < |run| && !run[i].interrupted
    ensures multiset(run[i].queue) + Held(run[i].workers) == multiset(QueuedSet(run[i].gs.v))
  {
    hide IsRun, ConfigOk, GraphInv, Detection, LogOrdered, LogCounts, Faithful, Capacity, QueuedSet, Held;
    RunInv(c, run, i);
  }

  /** No wake-up is lost: a target whose edges hold and that is not consumed is
      queued or in progress. */
  lemma NoLostWakeup(c: Config, run: seq<Walk>, i: nat, v: VertexId)
    requires ConfigOk(c) && IsRun(c, run) && i < |run| && Target(c.g, v)
    ensures var s := run[i].gs.v;
      && s.Keys == c.g.Keys
      && (Readiness(c.g, s, v, c.dir) == EdgeSatisfied && !s[v].consumed ==> s[v].queued || s[v].inProgress)
  {
    hide IsRun, ConfigOk, TokensOf, Detection, LogOrdered, LogCounts, Faithful, Capacity, Readiness, Stamps;
    RunInv(c, run, i);
    var s := run[i].gs.v;
    assert VertexInv(s[v], c.g[v].snapshot, Target(c.g, v), ReadyMap(c.g, s, c.dir)[v], LeftOver(c.g, s) == {}, c.dir);
  }

  /** Whenever no target is queued or in progress and the walk is not over, some
      worker is about to detect it or has done so. */
  lemma DoneIsDetected(c: Config, run: seq<Walk>, i: nat)
    requires ConfigOk(c) && IsRun(c, run) && i < |run| && !run[i].cancelled
    ensures run[i].gs.v.Keys == c.g.Keys
    ensures Done(c.g, run[i].gs.v) ==>
              exists w :: 0 <= w < |run[i].workers| && run[i].workers[w] in {Sending([]), Finishing, Cancelling}
  {
    hide IsRun, ConfigOk, TokensOf, LogOrdered, LogCounts, Faithful, Capacity, Done, Drained;
    RunInv(c, run, i);
    GraphKeys(c.g, run[i].gs, c.dir);
    DrainedIffDone(c.g, run[i].gs, c.dir);
  }

  // ---- Progress -------------------------------------------------------------

  lemma QueueRoom(c: Config, s: Walk, w: nat)
    requires ConfigOk(c) && WalkInv(c, s) && !s.interrupted
    requires w < |s.workers| && s.workers[w].Sending? && |s.workers[w].next| > 0
    ensures |s.queue| < Capacity(c.g)
  {
    HeldPart(s.workers, w);
    var q := QueuedSet(s.gs.v);
    assert |multiset(q)| == |q|;
    assert |Held(s.workers)| >= 1 by {
      assert s.workers[w].next[0] in HeldBy(s.workers[w]);
      assert s.workers[w].next[0] in Held(s.workers);
    }
    QueuedCommands(c, s);
    SubsetSize(q, Commands(c.g));
    assert |Loose(s)| == |s.queue| + |Held(s.workers)|;
  }

  lemma QueuedCommands(c: Config, s: Walk)
    requires WalkInv(c, s)
    ensures QueuedSet(s.gs.v) <= Commands(c.g)
  {
    forall id | id in QueuedSet(s.gs.v)
      ensures id in Commands(c.g)
    {
      assert VertexInv(s.gs.v[id], c.g[id].snapshot, Target(c.g, id), ReadyMap(c.g, s.gs.v, c.dir)[id],
                       LeftOver(c.g, s.gs.v) == {}, c.dir);
    }
  }

  /** A send of an uninterrupted walk never blocks. */
  lemma SendNeverBlocks(c: Config, run: seq<Walk>, i: nat, w: nat)
    requires ConfigOk(c) && IsRun(c, run) && i < |run| && !run[i].interrupted
    requires w < |run[i].workers| && run[i].workers[w].Sending? && |run[i].workers[w].next| > 0
    ensures |run[i].queue| < Capacity(c.g)
  {
    RunInv(c, run, i);
    QueueRoom(c, run[i], w);
  }

  lemma {:induction false} EnumerationExists(q: set<VertexId>) returns (next: seq<VertexId>)
    ensures Enumerates(next, q)
  {
    if q == {} {
      next := [];
    } else {
      var x :| x in q;
      var rest := EnumerationExists(q - {x});
      next := rest + [x];
      assert forall id :: id in next <==> id in rest || id == x;
    }
  }

  lemma {:induction false} MarkingExists(s: GraphState, left: set<VertexId>) returns (s': GraphState)
    requires left <= s.v.Keys
    ensures MarkedUnreached(s, left, s')
  {
    hide MarkedUnreached;
    if left == {} {
      MarkNone(s);
      s' := s;
    } else {
      var x :| x in left;
      var t := MarkingExists(s, left - {x});
      MarkedKeys(s, left - {x}, t);
      MarkOneMore(s, left - {x}, t, x);
      s' := GraphState(t.v[x := Unreached(t.v[x], t.seqNo + 1)], t.seqNo + 1);
      assert left == (left - {x}) + {x};
    }
  }

  lemma MarkedKeys(s: GraphState, left: set<VertexId>, t: GraphState)
    requires MarkedUnreached(s, left, t)
    ensures t.v.Keys == s.v.Keys
  {
  }

  ghost predicate Enabled(c: Config, s: Walk) {
    exists step, s' :: step != Interrupt && NextBy(c, s, s', step)
  }

  lemma BusyWorkerEnabled(c: Config, s: Walk, w: nat)
    requires ConfigOk(c) && WalkInv(c, s) && !s.interrupted
    requires w < |s.workers| && !s.workers[w].Idle? && !s.workers[w].Exited?
    ensures Enabled(c, s)
  {
    hide ClaimState, ClaimStatus, CompleteState, CompleteFrontier, MarkedUnreached, ConfigOk, TokensOf, LogCounts, LogOrdered, Faithful, Detection, FlagInv, Stamps, Done, Enumerates;
    match s.workers[w]
    case Holding(id) =>
      var ready := ClaimStatus(c.g, s.gs, id, c.dir) == StepReady;
      var s' := s.(gs := ClaimState(c.g, s.gs, id, c.dir),
                   workers := s.workers[w := if ready then Acting(id) else Sending([])],
                   log := if ready then s.log + [Begun(id)] else s.log);
      assert NextBy(c, s, s', Claim(w));
    case Acting(id) =>
      ActingInGraph(c, s, w);
      var res := c.act[id];
      var next := EnumerationExists(CompleteFrontier(c.g, s.gs, id, res, c.dir));
      var s' := s.(gs := CompleteState(c.g, s.gs, id, res, c.dir),
                   workers := s.workers[w := Sending(next)], log := s.log + [Ended(id)]);
      assert NextBy(c, s, s', Complete(w, res, next));
    case Sending(next) =>
      if next == [] {
        var s' := s.(workers := s.workers[w := if Done(c.g, s.gs.v) then Finishing else Idle]);
        assert NextBy(c, s, s', CheckDone(w));
      } else {
        QueueRoom(c, s, w);
        var s' := s.(queue := s.queue + [next[0]], workers := s.workers[w := Sending(next[1..])]);
        assert NextBy(c, s, s', Send(w));
      }
    case Finishing =>
      LeftOverKeys(c.g, s.gs.v);
      var gs := MarkingExists(s.gs, LeftOver(c.g, s.gs.v));
      assert NextBy(c, s, s.(gs := gs, workers := s.workers[w := Cancelling]), Finalize(w, gs));
    case Cancelling =>
      assert NextBy(c, s, s.(cancelled := true, workers := s.workers[w := Exited]), Cancel(w));
  }

  lemma LeftOverKeys(g: Vertices, s: Scheds)
    requires s.Keys == g.Keys
    ensures LeftOver(g, s) <= s.Keys
  {
  }

  lemma ActingInGraph(c: Config, s: Walk, w: nat)
    requires ConfigOk(c) && WalkInv(c, s) && w < |s.workers| && s.workers[w].Acting?
    ensures s.workers[w].id in c.g && s.workers[w].id in c.act
  {
    hide GraphInv, Detection, LogCounts, LogOrdered, Faithful;
    var id := s.workers[w].id;
    HoldingFlagged(s, w);
    assert id in BusyBy(s.workers[w]);
    BusyFlags(c.g, s.gs, id, c.dir);
  }

  lemma {:induction false} QuietWorkersHoldNothing(ws: seq<Worker>)
    requires forall w :: 0 <= w < |ws| ==> ws[w].Idle? || ws[w].Exited?
    ensures Held(ws) == multiset{} && Busy(ws) == multiset{}
  {
    if ws != [] {
      QuietWorkersHoldNothing(ws[..|ws| - 1]);
    }
  }

  lemma QuietMeansDrained(c: Config, s: Walk)
    requires WalkInv(c, s) && !s.interrupted && s.queue == []
    requires forall w :: 0 <= w < |s.workers| ==> s.workers[w].Idle? || s.workers[w].Exited?
    ensures s.cancelled
  {
    hide GraphInv, LogCounts, LogOrdered, Faithful;
    QuietWorkersHoldNothing(s.workers);
    assert Loose(s) == multiset{};
    assert forall id :: id in QueuedSet(s.gs.v) ==> id in multiset(QueuedSet(s.gs.v));
    assert forall id :: id in BusySet(s.gs.v) ==> id in multiset(BusySet(s.gs.v));
    assert QueuedSet(s.gs.v) == {} && BusySet(s.gs.v) == {};
  }

  /** An uninterrupted walk is never stuck: until every worker has left, some
      worker can take its next step. */
  lemma Progress(c: Config, run: seq<Walk>, i: nat)
    requires ConfigOk(c) && IsRun(c, run) && i < |run|
    requires !run[i].interrupted && !Terminated(run[i])
    ensures Enabled(c, run[i])
  {
    hide IsRun, WalkInv, ConfigOk;
    RunInv(c, run, i);
    var s := run[i];
    if w :| 0 <= w < |s.workers| && !s.workers[w].Idle? && !s.workers[w].Exited? {
      BusyWorkerEnabled(c, s, w);
    } else {
      var w :| 0 <= w < |s.workers| && s.workers[w].Idle?;
      if s.queue == [] {
        QuietMeansDrained(c, s);
        assert NextBy(c, s, s.(workers := s.workers[w := Exited]), Quit(w));
      } else {
        assert NextBy(c, s, s.(queue := s.queue[1..], workers := s.workers[w := Holding(s.queue[0])]), Receive(w));
      }
    }
  }

  // ---- Termination ----------------------------------------------------------

  function Weight(x: Worker): nat {
    match x
    case Exited => 0
    case Idle => 1
    case Cancelling => 2
    case Finishing => 3
    case Sending(next) => 4 + 6 * |next|
    case Holding(_) => 5
    case Acting(_) => 0
  }

  function Weights(ws: seq<Worker>): nat {
    if ws == [] then 0 else Weights(ws[..|ws| - 1]) + Weight(ws[|ws| - 1])
  }

  lemma {:induction false} WeightsUpdate(ws: seq<Worker>, w: nat, x: Worker)
    requires w < |ws|
    ensures Weights(ws[w := x]) + Weight(ws[w]) == Weights(ws) + Weight(x)
  {
    hide Weight;
    var init := ws[..|ws| - 1];
    if w < |init| {
      WeightsUpdate(init, w, x);
      assert ws[w := x][..|ws| - 1] == init[w := x];
    } else {
      assert ws[w := x][..|ws| - 1] == init;
    }
  }

  /** Targets neither consumed nor in progress. */
  ghost function Untouched(g: Vertices, s: Scheds): set<VertexId>
    requires s.Keys == g.Keys
  {
    LeftOver(g, s) - BusySet(s)
  }

  function Chatter(s: Walk): nat {
    Weights(s.workers) + 5 * |s.queue|
  }

  /** The measure, most significant part first. */
  ghost function Measure(c: Config, s: Walk): (nat, nat, nat, nat, nat)
    requires s.gs.v.Keys == c.g.Keys
  {
    (if s.interrupted then 0 else 1,
     |LeftOver(c.g, s.gs.v)|, |Untouched(c.g, s.gs.v)|, |QueuedSet(s.gs.v)|, Chatter(s))
  }

  predicate Below(a: (nat, nat, nat, nat, nat), b: (nat, nat, nat, nat, nat)) {
    || a.0 < b.0
    || (a.0 == b.0 && a.1 < b.1)
    || (a.0 == b.0 && a.1 == b.1 && a.2 < b.2)
    || (a.0 == b.0 && a.1 == b.1 && a.2 == b.2 && a.3 < b.3)
    || (a.0 == b.0 && a.1 == b.1 && a.2 == b.2 && a.3 == b.3 && a.4 < b.4)
  }

  lemma ProperSubsetSize(a: set<VertexId>, b: set<VertexId>, x: VertexId)
    requires a <= b && x in b && x !in a
    ensures |a| < |b|
  {
    assert b == a + (b - a);
    assert x in b - a;
  }

  lemma ClaimDecreases(g: Vertices, s: GraphState, id: VertexId, dir: Direction)
    requires GraphInv(g, s, dir) && id in QueuedSet(s.v)
    ensures var s' := ClaimState(g, s, id, dir);
      && s'.v.Keys == g.Keys
      && |LeftOver(g, s'.v)| <= |LeftOver(g, s.v)|
      && (|LeftOver(g, s'.v)| == |LeftOver(g, s.v)| ==>
            && |Untouched(g, s'.v)| <= |Untouched(g, s.v)|
            && (|Untouched(g, s'.v)| == |Untouched(g, s.v)| ==> |QueuedSet(s'.v)| < |QueuedSet(s.v)|))
  {
    hide Readiness, GraphInv;
    ClaimEffect(g, s, id, dir);
    GraphKeys(g, s, dir);
    var s' := ClaimState(g, s, id, dir);
    assert LeftOver(g, s'.v) <= LeftOver(g, s.v);
    SubsetSize(LeftOver(g, s'.v), LeftOver(g, s.v));
    ProperSubsetSize(QueuedSet(s'.v), QueuedSet(s.v), id);
    if |LeftOver(g, s'.v)| == |LeftOver(g, s.v)| {
      if ClaimStatus(g, s, id, dir) == StepBlocked {
        ProperSubsetSize(LeftOver(g, s'.v), LeftOver(g, s.v), id);
      }
      SubsetSize(Untouched(g, s'.v), Untouched(g, s.v));
    }
  }

  lemma GraphKeys(g: Vertices, s: GraphState, dir: Direction)
    requires GraphInv(g, s, dir)
    ensures s.v.Keys == g.Keys
  {
  }

  lemma CompleteDecreases(g: Vertices, s: GraphState, id: VertexId, res: ActionResult, dir: Direction)
    requires GraphInv(g, s, dir) && id in BusySet(s.v)
    ensures var s' := CompleteState(g, s, id, res, dir);
      s'.v.Keys == g.Keys && |LeftOver(g, s'.v)| < |LeftOver(g, s.v)|
  {
    hide GraphInv;
    GraphKeys(g, s, dir);
    BusyFlags(g, s, id, dir);
    var s' := CompleteState(g, s, id, res, dir);
    assert LeftOver(g, s'.v) == LeftOver(g, s.v) - {id};
    ProperSubsetSize(LeftOver(g, s'.v), LeftOver(g, s.v), id);
  }

  lemma FinalizeDecreases(g: Vertices, s: GraphState, s': GraphState)
    requires s.v.Keys == g.Keys && Finalized(g, s, s')
    ensures s'.v.Keys == g.Keys
    ensures s'.v == s.v || |LeftOver(g, s'.v)| < |LeftOver(g, s.v)|
  {
    assert LeftOver(g, s'.v) == {};
    if x :| x in LeftOver(g, s.v) {
      ProperSubsetSize({}, LeftOver(g, s.v), x);
    } else {
      assert s'.v == s.v;
    }
  }

  lemma ChatterDecreases(c: Config, s: Walk, s': Walk, step: Step)
    requires NextBy(c, s, s', step) && s.gs.v.Keys == c.g.Keys
    requires step.Receive? || step.Send? || step.CheckDone? || step.Finalize? || step.Cancel? || step.Quit?
    ensures Chatter(s') < Chatter(s)
  {
    hide Done, Finalized;
    WeightsUpdate(s.workers, step.w, s'.workers[step.w]);
  }

  /** Every step lowers the measure. */
  lemma StepDecreases(c: Config, s: Walk, s': Walk, step: Step)
    requires ConfigOk(c) && WalkInv(c, s) && NextBy(c, s, s', step)
    ensures s.gs.v.Keys == s'.gs.v.Keys == c.g.Keys
    ensures Below(Measure(c, s'), Measure(c, s))
  {
    hide GraphInv, Detection, LogCounts, LogOrdered, Faithful, ClaimState, ClaimStatus, CompleteState, CompleteFrontier,
      LeftOver, Untouched, QueuedSet, Chatter, ConfigOk, Tokens, MarkedUnreached, Enumerates;
    GraphKeys(c.g, s.gs, c.dir);
    match step
    case Claim(w) =>
      HoldingFlagged(s, w);
      assert s.workers[w].id in HeldBy(s.workers[w]);
      ClaimDecreases(c.g, s.gs, s.workers[w].id, c.dir);
    case Complete(w, res, next) =>
      HoldingFlagged(s, w);
      assert s.workers[w].id in BusyBy(s.workers[w]);
      CompleteDecreases(c.g, s.gs, s.workers[w].id, res, c.dir);
    case Finalize(w, gs) =>
      FinalizeDecreases(c.g, s.gs, gs);
      ChatterDecreases(c, s, s', step);
    case Interrupt =>
    case _ =>
      ChatterDecreases(c, s, s', step);
  }

  ghost predicate StepsAt(c: Config, run: nat -> Walk, i: nat) {
    Next(c, run(i), run(i + 1))
  }

  lemma {:induction false} NoEndlessRun(c: Config, run: nat -> Walk, i: nat)
    requires ConfigOk(c)
    requires forall j: nat {:trigger StepsAt(c, run, j)} :: StepsAt(c, run, j)
    requires run(i).gs.v.Keys == c.g.Keys && WalkInv(c, run(i))
    ensures false
    decreases Measure(c, run(i)).0, Measure(c, run(i)).1, Measure(c, run(i)).2, Measure(c, run(i)).3, Measure(c, run(i)).4
  {
    hide WalkInv, ConfigOk, Measure, NextBy;
    assert StepsAt(c, run, i);
    var step :| NextBy(c, run(i), run(i + 1), step);
    StepDecreases(c, run(i), run(i + 1), step);
    StepKeeps(c, run(i), run(i + 1), step);
    NoEndlessRun(c, run, i + 1);
  }

  /** The walk ends under every schedule: an endless sequence of states that
      starts like a run fails to be one somewhere. */
  lemma EveryRunEnds(c: Config, run: nat -> Walk)
    requires ConfigOk(c) && Init(c, run(0))
    ensures exists i: nat :: !StepsAt(c, run, i)
  {
    hide Init, ConfigOk, StepsAt;
    if forall i: nat {:trigger StepsAt(c, run, i)} :: StepsAt(c, run, i) {
      InitInv(c, run(0));
      NoEndlessRun(c, run, 0);
    }
  }
}
