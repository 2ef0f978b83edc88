/** The invariant of the walk, kept by every step of every worker in every
    interleaving, cancelled or not. */
module ReconcileWalkInvariant {
  import opened ReconcileGraph
  import opened ReconcileInvariant
  import opened ReconcileWalk

  /** The ids in the channel and those workers hold are the queued vertices, each
      once. An interrupted walk may have dropped some. */
  ghost predicate Tokens(loose: multiset<VertexId>, busy: multiset<VertexId>, v: Scheds, interrupted: bool) {
    && loose <= multiset(QueuedSet(v))
    && (!interrupted ==> loose == multiset(QueuedSet(v)))
    && busy == multiset(BusySet(v))
  }

  /** The ids on their way from complete to claim. */
  ghost function Loose(s: Walk): multiset<VertexId> {
    multiset(s.queue) + Held(s.workers)
  }

  ghost predicate TokensOf(s: Walk) {
    Tokens(Loose(s), Busy(s.workers), s.gs.v, s.interrupted)
  }

  ghost predicate SomeWorker(ws: seq<Worker>, x: Worker) {
    exists w :: 0 <= w < |ws| && ws[w] == x
  }

  ghost predicate Drained(s: Scheds) {
    QueuedSet(s) == {} && BusySet(s) == {}
  }

  /** Once nothing is queued or in progress, some worker is about to detect it,
      and a worker that has detected it is right for good. */
  ghost predicate Detection(c: Config, s: Walk)
    requires s.gs.v.Keys == c.g.Keys
  {
    && (SomeWorker(s.workers, Exited) || s.workers == [] ==> s.cancelled)
    && (!s.cancelled && Drained(s.gs.v) ==>
          SomeWorker(s.workers, Sending([])) || SomeWorker(s.workers, Finishing) || SomeWorker(s.workers, Cancelling))
    && (SomeWorker(s.workers, Finishing) ==> Drained(s.gs.v))
    && (SomeWorker(s.workers, Cancelling) || (s.cancelled && !s.interrupted) ==>
          Drained(s.gs.v) && LeftOver(c.g, s.gs.v) == {})
  }

  /** In an uninterrupted run a vertex carries the result of its action. */
  ghost predicate Faithful(c: Config, v: Scheds) {
    forall id :: id in ActedSet(v) ==> id in c.act && Reports(v[id], c.act[id])
  }

  predicate Reports(x: Sched, res: ActionResult) {
    x.state == res.state && x.exitCode == res.exitCode && x.err == res.err && x.forceKilled == res.forceKilled
  }

  function BegunEvents(q: set<VertexId>): set<Event> {
    set id | id in q :: Begun(id)
  }

  function EndedEvents(q: set<VertexId>): set<Event> {
    set id | id in q :: Ended(id)
  }

  /** Every action begun is in progress or ended, and begins once, ends once. */
  ghost predicate LogCounts(v: Scheds, log: seq<Event>) {
    multiset(log) == multiset(BegunEvents(BusySet(v) + ActedSet(v))) + multiset(EndedEvents(ActedSet(v)))
  }

  /** No action begins before the actions of the vertices it waits for ended. */
  ghost predicate LogOrdered(c: Config, log: seq<Event>) {
    forall i, n {:trigger log[i], Ended(n)} ::
      0 <= i < |log| && log[i].Begun? && Precedes(c.g, c.dir, n, log[i].id) ==> Ended(n) in log[..i]
  }

  ghost predicate WalkInv(c: Config, s: Walk) {
    && GraphInv(c.g, s.gs, c.dir)
    && TokensOf(s)
    && Detection(c, s)
    && (!s.interrupted ==> Faithful(c, s.gs.v))
    && LogCounts(s.gs.v, s.log)
    && LogOrdered(c, s.log)
    && |s.queue| <= Capacity(c.g)
  }

  // ---- What the critical sections do to the sets ----------------------------

  lemma DrainedIffDone(g: Vertices, s: GraphState, dir: Direction)
    requires GraphInv(g, s, dir)
    ensures Done(g, s.v) <==> Drained(s.v)
  {
    hide Readiness, Stamps;
    forall id | id in g
      ensures s.v[id].queued || s.v[id].inProgress ==> Target(g, id)
    {
      assert VertexInv(s.v[id], g[id].snapshot, Target(g, id), ReadyMap(g, s.v, dir)[id], LeftOver(g, s.v) == {}, dir);
    }
    if Done(g, s.v) {
      assert QueuedSet(s.v) == {} && BusySet(s.v) == {};
    } else {
      var id :| Target(g, id) && (s.v[id].queued || s.v[id].inProgress);
      assert id in QueuedSet(s.v) || id in BusySet(s.v);
    }
  }

  lemma ClaimEffect(g: Vertices, s: GraphState, id: VertexId, dir: Direction)
    requires GraphInv(g, s, dir) && id in QueuedSet(s.v)
    ensures var s' := ClaimState(g, s, id, dir);
      var ready := ClaimStatus(g, s, id, dir) == StepReady;
      && QueuedSet(s'.v) == QueuedSet(s.v) - {id}
      && BusySet(s'.v) == (if ready then BusySet(s.v) + {id} else BusySet(s.v))
      && ActedSet(s'.v) == ActedSet(s.v)
      && id !in BusySet(s.v) + ActedSet(s.v)
      && id in LeftOver(g, s.v)
      && (forall n :: n in ActedSet(s.v) ==> s'.v[n] == s.v[n])
  {
    hide Readiness, Stamps;
    assert VertexInv(s.v[id], g[id].snapshot, Target(g, id), ReadyMap(g, s.v, dir)[id], LeftOver(g, s.v) == {}, dir);
  }

  lemma ClaimReadyAfter(g: Vertices, s: GraphState, id: VertexId, dir: Direction)
    requires GraphInv(g, s, dir) && ClaimStatus(g, s, id, dir) == StepReady
    ensures forall n :: Precedes(g, dir, n, id) ==> n in ActedSet(s.v)
  {
    forall n | Precedes(g, dir, n, id)
      ensures n in ActedSet(s.v)
    {
      assert VertexInv(s.v[n], g[n].snapshot, Target(g, n), ReadyMap(g, s.v, dir)[n], LeftOver(g, s.v) == {}, dir);
      ReadyAfterActed(g, s.v, id, dir, n);
    }
  }

  lemma BusyFlags(g: Vertices, s: GraphState, id: VertexId, dir: Direction)
    requires GraphInv(g, s, dir) && id in BusySet(s.v)
    ensures Target(g, id) && s.v[id].inProgress && !s.v[id].consumed && !s.v[id].queued && !s.v[id].blocked
  {
    hide Readiness, Stamps;
    assert VertexInv(s.v[id], g[id].snapshot, Target(g, id), ReadyMap(g, s.v, dir)[id], LeftOver(g, s.v) == {}, dir);
  }

  lemma RecordEffect(v: Scheds, id: VertexId, res: ActionResult, order: nat)
    requires id in v && v[id].inProgress && !v[id].consumed && !v[id].queued && !v[id].blocked
    ensures var v' := v[id := Recorded(v[id], res, order)];
      && QueuedSet(v') == QueuedSet(v)
      && BusySet(v') == BusySet(v) - {id}
      && ActedSet(v') == ActedSet(v) + {id}
      && id !in ActedSet(v)
      && (forall n :: n in ActedSet(v) ==> v'[n] == v[n])
      && Reports(v'[id], res)
  {
  }

  lemma FrontierFresh(g: Vertices, v: Scheds, id: VertexId, dir: Direction)
    requires v.Keys == g.Keys && id in g
    ensures forall n :: n in Frontier(g, v, id, dir) ==> n in v && !v[n].consumed && !v[n].inProgress && !v[n].queued
  {
  }

  lemma CompleteEffect(g: Vertices, s: GraphState, id: VertexId, res: ActionResult, dir: Direction)
    requires s.v.Keys == g.Keys && Target(g, id)
    requires s.v[id].inProgress && !s.v[id].consumed && !s.v[id].queued && !s.v[id].blocked
    ensures var s' := CompleteState(g, s, id, res, dir);
      var q := CompleteFrontier(g, s, id, res, dir);
      && s'.v.Keys == g.Keys
      && QueuedSet(s'.v) == QueuedSet(s.v) + q
      && QueuedSet(s.v) !! q
      && BusySet(s'.v) == BusySet(s.v) - {id}
      && ActedSet(s'.v) == ActedSet(s.v) + {id}
      && id !in ActedSet(s.v)
      && id in LeftOver(g, s.v)
      && (forall n :: n in ActedSet(s.v) ==> s'.v[n] == s.v[n])
      && Reports(s'.v[id], res)
  {
    hide QueuedSet, BusySet, ActedSet, WithQueued, Recorded, Frontier, Reports;
    RecordEffect(s.v, id, res, s.seqNo + 1);
    var v := s.v[id := Recorded(s.v[id], res, s.seqNo + 1)];
    FrontierFresh(g, v, id, dir);
    QueuedEffect(v, Frontier(g, v, id, dir));
  }

  lemma QueuedEffect(v: Scheds, q: set<VertexId>)
    requires forall n :: n in q ==> n in v && !v[n].consumed && !v[n].inProgress && !v[n].queued
    ensures QueuedSet(WithQueued(v, q)) == QueuedSet(v) + q && QueuedSet(v) !! q
    ensures BusySet(WithQueued(v, q)) == BusySet(v) && ActedSet(WithQueued(v, q)) == ActedSet(v)
    ensures WithQueued(v, q).Keys == v.Keys
    ensures forall n :: n in ActedSet(v) ==> n in v && WithQueued(v, q)[n] == v[n]
    ensures forall id, res :: id in ActedSet(v) && Reports(v[id], res) ==> Reports(WithQueued(v, q)[id], res)
  {
  }

  lemma FinalizeEffect(g: Vertices, s: GraphState, s': GraphState, dir: Direction)
    requires GraphInv(g, s, dir) && Drained(s.v) && Finalized(g, s, s')
    ensures Drained(s'.v)
    ensures ActedSet(s'.v) == ActedSet(s.v)
    ensures forall n :: n in ActedSet(s.v) ==> s'.v[n] == s.v[n]
  {
    hide Readiness, Stamps;
    assert QueuedSet(s'.v) == {} && BusySet(s'.v) == {};
  }

  // ---- Every step keeps the invariant ---------------------------------------

  lemma SomeWorkerUpdate(ws: seq<Worker>, w: nat, y: Worker)
    requires w < |ws|
    ensures SomeWorker(ws[w := y], y)
    ensures forall x :: x != y && SomeWorker(ws[w := y], x) ==> SomeWorker(ws, x)
    ensures forall x :: x != ws[w] && SomeWorker(ws, x) ==> SomeWorker(ws[w := y], x)
  {
    assert ws[w := y][w] == y;
    forall x | x != ws[w] && SomeWorker(ws, x)
      ensures SomeWorker(ws[w := y], x)
    {
      var i :| 0 <= i < |ws| && ws[i] == x;
      assert ws[w := y][i] == x;
    }
  }

  /** What a worker holds is flagged in the graph. */
  lemma HoldingFlagged(s: Walk, w: nat)
    requires TokensOf(s) && w < |s.workers|
    ensures forall id :: id in HeldBy(s.workers[w]) ==> id in QueuedSet(s.gs.v)
    ensures forall id :: id in BusyBy(s.workers[w]) ==> id in BusySet(s.gs.v)
  {
    HeldPart(s.workers, w);
    forall id | id in HeldBy(s.workers[w])
      ensures id in QueuedSet(s.gs.v)
    {
      assert id in Held(s.workers);
      assert id in multiset(QueuedSet(s.gs.v));
    }
    forall id | id in BusyBy(s.workers[w])
      ensures id in BusySet(s.gs.v)
    {
      assert id in Busy(s.workers);
    }
  }

  lemma SwapQuiet(ws: seq<Worker>, w: nat, y: Worker)
    requires w < |ws|
    requires HeldBy(ws[w]) == HeldBy(y) && BusyBy(ws[w]) == BusyBy(y)
    ensures Held(ws[w := y]) == Held(ws) && Busy(ws[w := y]) == Busy(ws)
  {
    hide HeldBy, BusyBy, Held, Busy;
    HeldUpdate(ws, w, y);
    BusyUpdate(ws, w, y);
    var h, b := HeldBy(y), BusyBy(y);
    assert Held(ws[w := y]) == Held(ws[w := y]) + h - h == Held(ws) + h - h == Held(ws);
    assert Busy(ws[w := y]) == Busy(ws[w := y]) + b - b == Busy(ws) + b - b == Busy(ws);
  }

  lemma SwapHeld(ws: seq<Worker>, w: nat, y: Worker, x: multiset<VertexId>)
    requires w < |ws| && BusyBy(ws[w]) == BusyBy(y) == multiset{}
    ensures HeldBy(y) == HeldBy(ws[w]) + x ==> Held(ws[w := y]) == Held(ws) + x
    ensures HeldBy(y) + x == HeldBy(ws[w]) ==> Held(ws[w := y]) + x == Held(ws)
    ensures Busy(ws[w := y]) == Busy(ws)
  {
    hide HeldBy, BusyBy, Held, Busy;
    HeldUpdate(ws, w, y);
    BusyUpdate(ws, w, y);
    var o, n := HeldBy(ws[w]), HeldBy(y);
    var H, H' := Held(ws), Held(ws[w := y]);
    if n == o + x {
      assert H' == (H' + o) - o == (H + n) - o == H + x;
    }
    if n + x == o {
      assert (H' + x) == (H' + o) - n == (H + n) - n == H;
    }
    assert Busy(ws[w := y]) == Busy(ws[w := y]) + BusyBy(ws[w]);
    assert Busy(ws) == Busy(ws) + BusyBy(y);
  }

  lemma ReceiveLoose(s: Walk, s': Walk, c: Config, w: nat)
    requires ReceiveStep(c, s, s', w)
    ensures Loose(s') == Loose(s) && Busy(s'.workers) == Busy(s.workers)
  {
    hide Held, Busy;
    SwapHeld(s.workers, w, Holding(s.queue[0]), multiset{s.queue[0]});
    assert s.queue == [s.queue[0]] + s.queue[1..];
  }

  lemma SendLoose(s: Walk, s': Walk, c: Config, w: nat)
    requires SendStep(c, s, s', w)
    ensures Loose(s') == Loose(s) && Busy(s'.workers) == Busy(s.workers)
  {
    hide Held, Busy;
    var next := s.workers[w].next;
    assert next == [next[0]] + next[1..];
    SwapHeld(s.workers, w, Sending(next[1..]), multiset{next[0]});
    var x := multiset{next[0]};
    assert multiset(s'.queue) == multiset(s.queue) + x;
    assert Loose(s') == multiset(s.queue) + (Held(s'.workers) + x);
  }

  lemma MovedDetection(c: Config, s: Walk, w: nat, y: Worker, queue: seq<VertexId>)
    requires s.gs.v.Keys == c.g.Keys && Detection(c, s) && !Drained(s.gs.v) && w < |s.workers|
    requires s.workers[w].Idle? || s.workers[w].Sending?
    requires y.Holding? || y.Sending?
    ensures Detection(c, s.(queue := queue, workers := s.workers[w := y]))
  {
    hide Drained, LeftOver;
    SomeWorkerUpdate(s.workers, w, y);
  }

  lemma LooseNotDrained(s: Walk, w: nat)
    requires TokensOf(s) && w < |s.workers|
    requires s.queue != [] || HeldBy(s.workers[w]) != multiset{}
    ensures !Drained(s.gs.v)
  {
    HoldingFlagged(s, w);
    if s.queue != [] {
      assert s.queue[0] in multiset(s.queue);
      assert s.queue[0] in multiset(QueuedSet(s.gs.v));
    } else {
      var id :| id in HeldBy(s.workers[w]);
    }
  }

  lemma InvKeys(c: Config, s: Walk)
    requires WalkInv(c, s)
    ensures s.gs.v.Keys == c.g.Keys
  {
  }

  lemma ReceiveKeeps(c: Config, s: Walk, s': Walk, w: nat)
    requires WalkInv(c, s) && ReceiveStep(c, s, s', w)
    ensures WalkInv(c, s')
  {
    hide GraphInv, Held, Busy, HeldBy, BusyBy, Tokens, LogCounts, LogOrdered, Faithful, Detection;
    InvKeys(c, s);
    ReceiveLoose(s, s', c, w);
    LooseNotDrained(s, w);
    MovedDetection(c, s, w, Holding(s.queue[0]), s'.queue);
  }

  lemma SendKeeps(c: Config, s: Walk, s': Walk, w: nat)
    requires WalkInv(c, s) && SendStep(c, s, s', w)
    ensures WalkInv(c, s')
  {
    assert HeldBy(s.workers[w])[s.workers[w].next[0]] > 0;
    assert HeldBy(s.workers[w]) != multiset{};
    hide GraphInv, Held, Busy, HeldBy, BusyBy, Tokens, LogCounts, LogOrdered, Faithful, Detection;
    InvKeys(c, s);
    SendLoose(s, s', c, w);
    LooseNotDrained(s, w);
    MovedDetection(c, s, w, Sending(s.workers[w].next[1..]), s'.queue);
  }

  lemma CheckDoneKeeps(c: Config, s: Walk, s': Walk, w: nat)
    requires WalkInv(c, s) && CheckDoneStep(c, s, s', w)
    ensures WalkInv(c, s')
  {
    hide GraphInv, Held, Busy, HeldBy, BusyBy, Tokens, LogCounts, LogOrdered, Faithful, Detection, Drained, Done;
    DrainedIffDone(c.g, s.gs, c.dir);
    QuietWorker(s.workers, w, s'.workers[w]);
    CheckedDetection(c, s, w, s'.workers[w]);
  }

  lemma QuietWorker(ws: seq<Worker>, w: nat, y: Worker)
    requires w < |ws| && ws[w] == Sending([]) && y in {Finishing, Idle}
    ensures Held(ws[w := y]) == Held(ws) && Busy(ws[w := y]) == Busy(ws)
  {
    SwapQuiet(ws, w, y);
  }

  lemma CheckedDetection(c: Config, s: Walk, w: nat, y: Worker)
    requires s.gs.v.Keys == c.g.Keys && Detection(c, s) && w < |s.workers| && s.workers[w] == Sending([])
    requires y == if Drained(s.gs.v) then Finishing else Idle
    ensures Detection(c, s.(workers := s.workers[w := y]))
  {
    hide SomeWorker, Drained, LeftOver;
    SomeWorkerUpdate(s.workers, w, y);
  }

  lemma FinalizeDetection(c: Config, s: Walk, w: nat, gs: GraphState)
    requires s.gs.v.Keys == gs.v.Keys == c.g.Keys && Detection(c, s) && w < |s.workers| && s.workers[w].Finishing?
    requires Drained(gs.v) && LeftOver(c.g, gs.v) == {}
    ensures Detection(c, s.(gs := gs, workers := s.workers[w := Cancelling]))
  {
    hide Drained, LeftOver;
    SomeWorkerUpdate(s.workers, w, Cancelling);
  }

  lemma FinishingDrained(c: Config, s: Walk, w: nat)
    requires s.gs.v.Keys == c.g.Keys && Detection(c, s) && w < |s.workers| && s.workers[w].Finishing?
    ensures Drained(s.gs.v)
  {
    assert SomeWorker(s.workers, Finishing);
  }

  lemma FinalizeSame(v: Scheds, v': Scheds, c: Config, log: seq<Event>)
    requires Drained(v) && Drained(v') && ActedSet(v') == ActedSet(v)
    requires forall n :: n in ActedSet(v) ==> v'[n] == v[n]
    ensures QueuedSet(v') == QueuedSet(v) && BusySet(v') == BusySet(v)
    ensures LogCounts(v, log) ==> LogCounts(v', log)
    ensures Faithful(c, v) ==> Faithful(c, v')
  {
  }

  lemma FinalizeStepKeeps(c: Config, s: Walk, s': Walk, w: nat, gs: GraphState)
    requires ConfigOk(c) && WalkInv(c, s) && FinalizeStep(c, s, s', w, gs)
    ensures WalkInv(c, s')
  {
    hide GraphInv, Held, Busy, LogOrdered, LogCounts, Faithful, LeftOver, MarkedUnreached, Detection, Drained, Done;
    FinishingDrained(c, s, w);
    FinalizeEffect(c.g, s.gs, gs, c.dir);
    DrainedIffDone(c.g, s.gs, c.dir);
    FinalizeKeeps(c.g, s.gs, gs, c.dir);
    FinalizeSame(s.gs.v, gs.v, c, s.log);
    SwapQuiet(s.workers, w, Cancelling);
    FinalizeKeys(c.g, s.gs, gs);
    FinalizeDetection(c, s, w, gs);
  }

  lemma FinalizeKeys(g: Vertices, s: GraphState, s': GraphState)
    requires s.v.Keys == g.Keys && Finalized(g, s, s')
    ensures s'.v.Keys == g.Keys
  {
  }

  lemma CancelDetection(c: Config, s: Walk, s': Walk, w: nat)
    requires s.gs.v.Keys == c.g.Keys && Detection(c, s) && CancelStep(c, s, s', w)
    ensures Detection(c, s')
  {
    hide SomeWorker, Drained, LeftOver;
    SomeWorkerAt(s.workers, w);
    SomeWorkerUpdate(s.workers, w, Exited);
  }

  lemma SomeWorkerAt(ws: seq<Worker>, w: nat)
    requires w < |ws|
    ensures SomeWorker(ws, ws[w])
  {
  }

  lemma CancelKeeps(c: Config, s: Walk, s': Walk, w: nat)
    requires WalkInv(c, s) && CancelStep(c, s, s', w)
    ensures WalkInv(c, s')
  {
    SwapQuiet(s.workers, w, Exited);
    CancelDetection(c, s, s', w);
    hide GraphInv, Held, Busy, HeldBy, BusyBy, Tokens, LogCounts, LogOrdered, Faithful, Detection, Capacity;
  }

  lemma QuitTokens(s: Walk, s': Walk, c: Config, w: nat)
    requires TokensOf(s) && QuitStep(c, s, s', w)
    requires s.interrupted || HeldBy(s.workers[w]) == multiset{}
    ensures TokensOf(s')
  {
    SwapHeld(s.workers, w, Exited, HeldBy(s.workers[w]));
    hide Held, Busy, HeldBy, BusyBy;
    assert Loose(s') <= Loose(s);
  }

  /** An uninterrupted walk is cancelled only when no worker holds an id. */
  lemma QuitHoldsNothing(c: Config, s: Walk, s': Walk, w: nat)
    requires WalkInv(c, s) && QuitStep(c, s, s', w)
    ensures s.interrupted || HeldBy(s.workers[w]) == multiset{}
  {
    hide GraphInv, LogCounts, LogOrdered, Faithful;
    HoldingFlagged(s, w);
    if s.workers[w].Sending? {
      assert s.workers[w].next[0] in HeldBy(s.workers[w]);
    }
  }

  lemma QuitKeeps(c: Config, s: Walk, s': Walk, w: nat)
    requires WalkInv(c, s) && QuitStep(c, s, s', w)
    ensures WalkInv(c, s')
  {
    hide GraphInv, Held, Busy, HeldBy, BusyBy, LogCounts, LogOrdered, Faithful, SomeWorker, TokensOf;
    QuitHoldsNothing(c, s, s', w);
    QuitTokens(s, s', c, w);
    SomeWorkerUpdate(s.workers, w, Exited);
  }

  lemma InterruptKeeps(c: Config, s: Walk, s': Walk)
    requires WalkInv(c, s) && InterruptStep(c, s, s')
    ensures WalkInv(c, s')
  {
    hide GraphInv, Held, Busy, LogCounts, LogOrdered, Faithful, SomeWorker;
  }

  lemma LogOrderedAppend(c: Config, log: seq<Event>, e: Event)
    requires LogOrdered(c, log)
    requires e.Begun? ==> forall n :: Precedes(c.g, c.dir, n, e.id) ==> Ended(n) in log
    ensures LogOrdered(c, log + [e])
  {
    var log' := log + [e];
    forall i, n | 0 <= i < |log'| && log'[i].Begun? && Precedes(c.g, c.dir, n, log'[i].id)
      ensures Ended(n) in log'[..i]
    {
      if i < |log| {
        assert Ended(n) in log[..i];
        assert log'[..i] == log[..i];
      } else {
        assert log'[..i] == log;
      }
    }
  }

  lemma LoggedEnded(v: Scheds, log: seq<Event>, n: VertexId)
    requires LogCounts(v, log) && n in ActedSet(v)
    ensures Ended(n) in log
  {
    assert Ended(n) in EndedEvents(ActedSet(v));
    assert Ended(n) in multiset(log);
  }

  lemma ClaimLog(v: Scheds, v': Scheds, log: seq<Event>, id: VertexId)
    requires LogCounts(v, log) && id !in BusySet(v) + ActedSet(v)
    requires BusySet(v') == BusySet(v) + {id} && ActedSet(v') == ActedSet(v)
    ensures LogCounts(v', log + [Begun(id)])
  {
    assert BegunEvents(BusySet(v') + ActedSet(v')) == BegunEvents(BusySet(v) + ActedSet(v)) + {Begun(id)};
    assert Begun(id) !in BegunEvents(BusySet(v) + ActedSet(v));
  }

  lemma CompleteLog(v: Scheds, v': Scheds, log: seq<Event>, id: VertexId)
    requires LogCounts(v, log) && id in BusySet(v) && id !in ActedSet(v)
    requires BusySet(v') == BusySet(v) - {id} && ActedSet(v') == ActedSet(v) + {id}
    ensures LogCounts(v', log + [Ended(id)])
  {
    assert BusySet(v') + ActedSet(v') == BusySet(v) + ActedSet(v);
    assert EndedEvents(ActedSet(v')) == EndedEvents(ActedSet(v)) + {Ended(id)};
    assert Ended(id) !in EndedEvents(ActedSet(v));
  }

  lemma ClaimStepKeeps(c: Config, s: Walk, s': Walk, w: nat)
    requires ConfigOk(c) && WalkInv(c, s) && ClaimStep(c, s, s', w)
    ensures WalkInv(c, s')
  {
    var id := s.workers[w].id;
    HoldingFlagged(s, w);
    assert id in HeldBy(s.workers[w]);
    ClaimEffect(c.g, s.gs, id, c.dir);
    ClaimKeeps(c.g, s.gs, id, c.dir);
    if ClaimStatus(c.g, s.gs, id, c.dir) == StepReady {
      ClaimReadyAfter(c.g, s.gs, id, c.dir);
      forall n | Precedes(c.g, c.dir, n, id)
        ensures Ended(n) in s.log
      {
        LoggedEnded(s.gs.v, s.log, n);
      }
      LogOrderedAppend(c, s.log, Begun(id));
      ClaimLog(s.gs.v, s'.gs.v, s.log, id);
    }
    ClaimTokens(c, s, s', w);
  }

  lemma SwapClaimed(ws: seq<Worker>, w: nat, ready: bool, id: VertexId)
    requires w < |ws| && ws[w] == Holding(id)
    ensures var ws' := ws[w := if ready then Acting(id) else Sending([])];
      && Held(ws') + multiset{id} == Held(ws)
      && Busy(ws') == (if ready then Busy(ws) + multiset{id} else Busy(ws))
  {
    hide Held, Busy;
    var y := if ready then Acting(id) else Sending([]);
    HeldUpdate(ws, w, y);
    BusyUpdate(ws, w, y);
    assert HeldBy(ws[w]) == multiset{id} && BusyBy(ws[w]) == multiset{};
    assert HeldBy(y) == multiset{};
    assert Held(ws) + multiset{} == Held(ws) && Busy(ws[w := y]) + multiset{} == Busy(ws[w := y]);
  }

  lemma CancelOne(a: multiset<VertexId>, b: multiset<VertexId>, id: VertexId)
    ensures a + multiset{id} <= b + multiset{id} ==> a <= b
    ensures a + multiset{id} == b + multiset{id} ==> a == b
  {
    if a + multiset{id} <= b + multiset{id} {
      forall x
        ensures a[x] <= b[x]
      {
        assert (a + multiset{id})[x] <= (b + multiset{id})[x];
      }
    }
    if a + multiset{id} == b + multiset{id} {
      assert a == a + multiset{id} - multiset{id};
      assert b == b + multiset{id} - multiset{id};
    }
  }

  lemma ClaimCounts(c: Config, s: Walk, s': Walk, w: nat)
    requires TokensOf(s) && ClaimStep(c, s, s', w)
    requires var id := s.workers[w].id; var ready := s'.workers[w] != Sending([]);
      && id in QueuedSet(s.gs.v) && id !in BusySet(s.gs.v)
      && QueuedSet(s'.gs.v) == QueuedSet(s.gs.v) - {id}
      && BusySet(s'.gs.v) == (if ready then BusySet(s.gs.v) + {id} else BusySet(s.gs.v))
    ensures TokensOf(s')
  {
    hide Held, Busy, HeldBy, BusyBy, ClaimState, ClaimStatus, QueuedSet, BusySet;
    var id := s.workers[w].id;
    SwapClaimed(s.workers, w, s'.workers[w] != Sending([]), id);
    assert Loose(s') + multiset{id} == Loose(s);
    assert multiset(QueuedSet(s'.gs.v)) + multiset{id} == multiset(QueuedSet(s.gs.v));
    CancelOne(Loose(s'), multiset(QueuedSet(s'.gs.v)), id);
  }

  lemma ClaimTokens(c: Config, s: Walk, s': Walk, w: nat)
    requires s.gs.v.Keys == s'.gs.v.Keys == c.g.Keys
    requires TokensOf(s) && Detection(c, s) && ClaimStep(c, s, s', w)
    requires var id := s.workers[w].id; var ready := s'.workers[w] != Sending([]);
      && id in QueuedSet(s.gs.v) && id !in BusySet(s.gs.v) && id in LeftOver(c.g, s.gs.v)
      && QueuedSet(s'.gs.v) == QueuedSet(s.gs.v) - {id}
      && BusySet(s'.gs.v) == (if ready then BusySet(s.gs.v) + {id} else BusySet(s.gs.v))
    ensures TokensOf(s') && Detection(c, s')
  {
    hide Held, Busy, HeldBy, BusyBy, SomeWorker, ClaimState, ClaimStatus, LeftOver, TokensOf;
    ClaimCounts(c, s, s', w);
    SomeWorkerUpdate(s.workers, w, s'.workers[w]);
  }

  lemma FaithfulMore(c: Config, v: Scheds, v': Scheds, id: VertexId)
    requires Faithful(c, v) && ActedSet(v') == ActedSet(v) + {id}
    requires forall n :: n in ActedSet(v) ==> v'[n] == v[n]
    requires id in c.act && Reports(v'[id], c.act[id])
    ensures Faithful(c, v')
  {
  }

  lemma CompleteLogKeeps(c: Config, s: Walk, s': Walk, w: nat, res: ActionResult, next: seq<VertexId>)
    requires ConfigOk(c) && WalkInv(c, s) && CompleteStep(c, s, s', w, res, next)
    ensures LogCounts(s'.gs.v, s'.log) && LogOrdered(c, s'.log)
    ensures !s'.interrupted ==> Faithful(c, s'.gs.v)
  {
    hide LogOrdered, LogCounts, CompleteState, CompleteFrontier, GraphInv, Enumerates, Detection, Acyclic, WellFormed, Faithful, Reports, ActedSet;
    var id := s.workers[w].id;
    HoldingFlagged(s, w);
    assert id in BusyBy(s.workers[w]);
    BusyFlags(c.g, s.gs, id, c.dir);
    CompleteEffect(c.g, s.gs, id, res, c.dir);
    LogOrderedAppend(c, s.log, Ended(id));
    CompleteLog(s.gs.v, s'.gs.v, s.log, id);
    assert Target(c.g, id);
    if !s.interrupted {
      FaithfulMore(c, s.gs.v, s'.gs.v, id);
    }
  }

  lemma CompleteTokensKeep(c: Config, s: Walk, s': Walk, w: nat, res: ActionResult, next: seq<VertexId>)
    requires ConfigOk(c) && WalkInv(c, s) && CompleteStep(c, s, s', w, res, next)
    ensures GraphInv(c.g, s'.gs, c.dir) && TokensOf(s') && Detection(c, s')
  {
    hide CompleteState, GraphInv, CompleteFrontier, Enumerates, LogOrdered, LogCounts, Faithful, Acyclic, WellFormed;
    var id := s.workers[w].id;
    HoldingFlagged(s, w);
    assert id in BusyBy(s.workers[w]);
    BusyFlags(c.g, s.gs, id, c.dir);
    CompleteEffect(c.g, s.gs, id, res, c.dir);
    CompleteKeeps(c.g, s.gs, id, res, c.dir);
    CompleteTokens(c, s, s', w, next, CompleteFrontier(c.g, s.gs, id, res, c.dir));
  }

  lemma CompleteStepKeeps(c: Config, s: Walk, s': Walk, w: nat, res: ActionResult, next: seq<VertexId>)
    requires ConfigOk(c) && WalkInv(c, s) && CompleteStep(c, s, s', w, res, next)
    ensures WalkInv(c, s')
  {
    hide GraphInv, TokensOf, Detection, LogCounts, LogOrdered, Faithful, CompleteState, CompleteFrontier, Enumerates;
    CompleteLogKeeps(c, s, s', w, res, next);
    CompleteTokensKeep(c, s, s', w, res, next);
  }

  lemma SwapCompleted(ws: seq<Worker>, w: nat, next: seq<VertexId>, id: VertexId)
    requires w < |ws| && ws[w] == Acting(id)
    ensures Held(ws[w := Sending(next)]) == Held(ws) + multiset(next)
    ensures Busy(ws[w := Sending(next)]) + multiset{id} == Busy(ws)
  {
    hide Held, Busy;
    HeldUpdate(ws, w, Sending(next));
    BusyUpdate(ws, w, Sending(next));
  }

  lemma CompleteCounts(s: Walk, s': Walk, w: nat, next: seq<VertexId>, q: set<VertexId>)
    requires TokensOf(s) && w < |s.workers| && s.workers[w].Acting? && Enumerates(next, q)
    requires s' == s.(gs := s'.gs, workers := s.workers[w := Sending(next)], log := s'.log)
    requires var id := s.workers[w].id;
      && id in BusySet(s.gs.v)
      && QueuedSet(s'.gs.v) == QueuedSet(s.gs.v) + q && QueuedSet(s.gs.v) !! q
      && BusySet(s'.gs.v) == BusySet(s.gs.v) - {id}
    ensures TokensOf(s')
  {
    hide Held, Busy, HeldBy, BusyBy, QueuedSet, BusySet;
    var id := s.workers[w].id;
    EnumeratesOnce(next, q);
    SwapCompleted(s.workers, w, next, id);
    assert Loose(s') == Loose(s) + multiset(next);
    assert multiset(QueuedSet(s'.gs.v)) == multiset(QueuedSet(s.gs.v)) + multiset(q);
    assert multiset(BusySet(s'.gs.v)) + multiset{id} == multiset(BusySet(s.gs.v));
    assert Busy(s'.workers) == Busy(s'.workers) + multiset{id} - multiset{id};
    assert multiset(BusySet(s'.gs.v)) == multiset(BusySet(s.gs.v)) - multiset{id};
  }

  lemma CompleteTokens(c: Config, s: Walk, s': Walk, w: nat, next: seq<VertexId>, q: set<VertexId>)
    requires s.gs.v.Keys == s'.gs.v.Keys == c.g.Keys
    requires TokensOf(s) && Detection(c, s)
    requires w < |s.workers| && s.workers[w].Acting?
    requires s' == s.(gs := s'.gs, workers := s.workers[w := Sending(next)], log := s'.log)
    requires Enumerates(next, q)
    requires var id := s.workers[w].id;
      && id in BusySet(s.gs.v) && id in LeftOver(c.g, s.gs.v)
      && QueuedSet(s'.gs.v) == QueuedSet(s.gs.v) + q && QueuedSet(s.gs.v) !! q
      && BusySet(s'.gs.v) == BusySet(s.gs.v) - {id}
    ensures TokensOf(s') && Detection(c, s')
  {
    hide Held, Busy, HeldBy, BusyBy, SomeWorker, LeftOver, Enumerates, TokensOf;
    CompleteCounts(s, s', w, next, q);
    SomeWorkerUpdate(s.workers, w, Sending(next));
    EnumeratesOnce(next, q);
    if Drained(s'.gs.v) {
      assert q == {};
      assert multiset(next) == multiset{};
      assert next == [];
    }
  }

  lemma StepKeeps(c: Config, s: Walk, s': Walk, step: Step)
    requires ConfigOk(c) && WalkInv(c, s) && NextBy(c, s, s', step)
    ensures WalkInv(c, s')
  {
    hide WalkInv;
    match step
    case Receive(w) => ReceiveKeeps(c, s, s', w);
    case Claim(w) => ClaimStepKeeps(c, s, s', w);
    case Complete(w, res, next) => CompleteStepKeeps(c, s, s', w, res, next);
    case Send(w) => SendKeeps(c, s, s', w);
    case CheckDone(w) => CheckDoneKeeps(c, s, s', w);
    case Finalize(w, gs) => FinalizeStepKeeps(c, s, s', w, gs);
    case Cancel(w) => CancelKeeps(c, s, s', w);
    case Quit(w) => QuitKeeps(c, s, s', w);
    case Interrupt => InterruptKeeps(c, s, s');
  }
}
