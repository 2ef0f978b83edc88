/** The walk: a pool of workers around one bounded channel, with the graph's
    critical sections as atomic steps. A run is any interleaving of the steps,
    with the outer context cancelled at any point of it, or never. */
module ReconcileWalk {
  import opened Wrappers
  import opened ReconcileGraph
  import opened ReconcileInvariant

  // Where a worker is in its loop. Sending([]) is the point just before done()
  // is called; Finishing and Cancelling are the calls it makes once done() has
  // returned true.
  datatype Worker =
    | Idle
    | Holding(id: VertexId)
    | Acting(id: VertexId)
    | Sending(next: seq<VertexId>)
    | Finishing
    | Cancelling
    | Exited

  // Begun and Ended record the start and the end of the action of a vertex.
  datatype Event = Begun(id: VertexId) | Ended(id: VertexId)

  // cancelled is the state of the walk's own context; interrupted tells that the
  // outer one was cancelled. log is a history variable.
  datatype Walk = Walk(
    gs: GraphState,
    queue: seq<VertexId>,
    workers: seq<Worker>,
    cancelled: bool,
    interrupted: bool,
    log: seq<Event>
  )

  // act gives the result of the action of each vertex in an uninterrupted run.
  datatype Config = Config(g: Vertices, dir: Direction, limit: int, act: map<VertexId, ActionResult>)

  function Commands(g: Vertices): set<VertexId> {
    set id | id in g && g[id].command.Some?
  }

  function Max(a: int, b: int): int {
    if a < b then b else a
  }

  function Capacity(g: Vertices): nat {
    Max(|Commands(g)|, 1)
  }

  ghost predicate ConfigOk(c: Config) {
    && WellFormed(c.g)
    && Acyclic(c.g)
    && forall id :: Target(c.g, id) ==> id in c.act
  }

  // ---- Steps ----------------------------------------------------------------

  datatype Step =
    | Receive(w: nat)
    | Claim(w: nat)
    | Complete(w: nat, res: ActionResult, next: seq<VertexId>)
    | Send(w: nat)
    | CheckDone(w: nat)
    | Finalize(w: nat, gs: GraphState)
    | Cancel(w: nat)
    | Quit(w: nat)
    | Interrupt

  /** The state before any worker starts. A walk with nothing to do finalizes and
      returns before it starts one. */
  ghost predicate Init(c: Config, s: Walk) {
    && !s.interrupted
    && s.log == []
    && var seeded := SeedState(c.g, FreshState(c.g), c.dir);
       if Done(c.g, seeded.v) then
         && Finalized(c.g, seeded, s.gs)
         && s.queue == [] && s.workers == [] && s.cancelled
       else
         && s.gs == seeded
         && Enumerates(s.queue, SeedSet(c.g, c.dir))
         && s.workers == seq(Max(c.limit, 1), _ => Idle)
         && !s.cancelled
  }

  ghost predicate ReceiveStep(c: Config, s: Walk, s': Walk, w: nat) {
    && w < |s.workers| && s.workers[w].Idle? && |s.queue| > 0
    && s' == s.(queue := s.queue[1..], workers := s.workers[w := Holding(s.queue[0])])
  }

  ghost predicate ClaimStep(c: Config, s: Walk, s': Walk, w: nat) {
    && w < |s.workers| && s.workers[w].Holding?
    && s.gs.v.Keys == c.g.Keys
    && var id := s.workers[w].id;
       var ready := ClaimStatus(c.g, s.gs, id, c.dir) == StepReady;
       s' == s.(gs := ClaimState(c.g, s.gs, id, c.dir),
                workers := s.workers[w := if ready then Acting(id) else Sending([])],
                log := if ready then s.log + [Begun(id)] else s.log)
  }

  ghost predicate CompleteStep(c: Config, s: Walk, s': Walk, w: nat, res: ActionResult, next: seq<VertexId>) {
    && w < |s.workers| && s.workers[w].Acting?
    && s.gs.v.Keys == c.g.Keys
    && var id := s.workers[w].id;
       && id in c.g
       && (!s.interrupted && id in c.act ==> res == c.act[id])
       && Enumerates(next, CompleteFrontier(c.g, s.gs, id, res, c.dir))
       && s' == s.(gs := CompleteState(c.g, s.gs, id, res, c.dir),
                   workers := s.workers[w := Sending(next)],
                   log := s.log + [Ended(id)])
  }

  ghost predicate SendStep(c: Config, s: Walk, s': Walk, w: nat) {
    && w < |s.workers| && s.workers[w].Sending? && |s.workers[w].next| > 0
    && |s.queue| < Capacity(c.g)
    && s' == s.(queue := s.queue + [s.workers[w].next[0]],
                workers := s.workers[w := Sending(s.workers[w].next[1..])])
  }

  ghost predicate CheckDoneStep(c: Config, s: Walk, s': Walk, w: nat) {
    && w < |s.workers| && s.workers[w] == Sending([])
    && s.gs.v.Keys == c.g.Keys
    && s' == s.(workers := s.workers[w := if Done(c.g, s.gs.v) then Finishing else Idle])
  }

  ghost predicate FinalizeStep(c: Config, s: Walk, s': Walk, w: nat, gs: GraphState) {
    && w < |s.workers| && s.workers[w].Finishing?
    && s.gs.v.Keys == c.g.Keys
    && Finalized(c.g, s.gs, gs)
    && s' == s.(gs := gs, workers := s.workers[w := Cancelling])
  }

  ghost predicate CancelStep(c: Config, s: Walk, s': Walk, w: nat) {
    && w < |s.workers| && s.workers[w].Cancelling?
    && s' == s.(cancelled := true, workers := s.workers[w := Exited])
  }

  /** A worker that sees its context done leaves from either select. */
  ghost predicate QuitStep(c: Config, s: Walk, s': Walk, w: nat) {
    && w < |s.workers| && s.cancelled
    && (s.workers[w].Idle? || (s.workers[w].Sending? && |s.workers[w].next| > 0))
    && s' == s.(workers := s.workers[w := Exited])
  }

  ghost predicate InterruptStep(c: Config, s: Walk, s': Walk) {
    !s.interrupted && s' == s.(cancelled := true, interrupted := true)
  }

  ghost predicate NextBy(c: Config, s: Walk, s': Walk, step: Step) {
    match step
    case Receive(w) => ReceiveStep(c, s, s', w)
    case Claim(w) => ClaimStep(c, s, s', w)
    case Complete(w, res, next) => CompleteStep(c, s, s', w, res, next)
    case Send(w) => SendStep(c, s, s', w)
    case CheckDone(w) => CheckDoneStep(c, s, s', w)
    case Finalize(w, gs) => FinalizeStep(c, s, s', w, gs)
    case Cancel(w) => CancelStep(c, s, s', w)
    case Quit(w) => QuitStep(c, s, s', w)
    case Interrupt => InterruptStep(c, s, s')
  }

  ghost predicate Next(c: Config, s: Walk, s': Walk) {
    exists step :: NextBy(c, s, s', step)
  }

  ghost predicate IsRun(c: Config, run: seq<Walk>) {
    && |run| > 0
    && Init(c, run[0])
    && forall i {:trigger run[i]} :: 0 <= i < |run| - 1 ==> Next(c, run[i], run[i + 1])
  }

  ghost predicate Terminated(s: Walk) {
    forall w :: 0 <= w < |s.workers| ==> s.workers[w].Exited?
  }

  // ---- The flags as sets ----------------------------------------------------

  function QueuedSet(s: Scheds): set<VertexId> {
    set id | id in s && s[id].queued
  }

  function BusySet(s: Scheds): set<VertexId> {
    set id | id in s && s[id].inProgress
  }

  function ActedSet(s: Scheds): set<VertexId> {
    set id | id in s && s[id].Acted()
  }

  // ---- What the workers hold ------------------------------------------------

  function HeldBy(x: Worker): multiset<VertexId> {
    match x
    case Holding(id) => multiset{id}
    case Sending(next) => multiset(next)
    case _ => multiset{}
  }

  function Held(ws: seq<Worker>): multiset<VertexId> {
    if ws == [] then multiset{} else Held(ws[..|ws| - 1]) + HeldBy(ws[|ws| - 1])
  }

  function BusyBy(x: Worker): multiset<VertexId> {
    if x.Acting? then multiset{x.id} else multiset{}
  }

  function Busy(ws: seq<Worker>): multiset<VertexId> {
    if ws == [] then multiset{} else Busy(ws[..|ws| - 1]) + BusyBy(ws[|ws| - 1])
  }

  lemma {:induction false} HeldUpdate(ws: seq<Worker>, w: nat, x: Worker)
    requires w < |ws|
    ensures Held(ws[w := x]) + HeldBy(ws[w]) == Held(ws) + HeldBy(x)
  {
    hide HeldBy;
    var init, ws' := ws[..|ws| - 1], ws[w := x];
    if w < |init| {
      HeldUpdate(init, w, x);
      assert ws'[..|ws| - 1] == init[w := x];
      assert Held(ws') == Held(init[w := x]) + HeldBy(ws[|ws| - 1]);
      assert init[w] == ws[w];
      assert Held(ws') + HeldBy(ws[w]) == Held(init[w := x]) + HeldBy(init[w]) + HeldBy(ws[|ws| - 1]);
    } else {
      assert ws'[..|ws| - 1] == init;
      assert Held(ws') == Held(init) + HeldBy(x);
    }
  }

  lemma {:induction false} BusyUpdate(ws: seq<Worker>, w: nat, x: Worker)
    requires w < |ws|
    ensures Busy(ws[w := x]) + BusyBy(ws[w]) == Busy(ws) + BusyBy(x)
  {
    hide BusyBy;
    var init, ws' := ws[..|ws| - 1], ws[w := x];
    if w < |init| {
      BusyUpdate(init, w, x);
      assert ws'[..|ws| - 1] == init[w := x];
      assert Busy(ws') == Busy(init[w := x]) + BusyBy(ws[|ws| - 1]);
      assert init[w] == ws[w];
      assert Busy(ws') + BusyBy(ws[w]) == Busy(init[w := x]) + BusyBy(init[w]) + BusyBy(ws[|ws| - 1]);
    } else {
      assert ws'[..|ws| - 1] == init;
      assert Busy(ws') == Busy(init) + BusyBy(x);
    }
  }

  lemma {:induction false} HeldPart(ws: seq<Worker>, w: nat)
    requires w < |ws|
    ensures HeldBy(ws[w]) <= Held(ws) && BusyBy(ws[w]) <= Busy(ws)
  {
    if w < |ws| - 1 {
      HeldPart(ws[..|ws| - 1], w);
    }
  }

  lemma {:induction false} AllIdle(n: nat)
    ensures Held(seq(n, _ => Idle)) == multiset{} && Busy(seq(n, _ => Idle)) == multiset{}
  {
    var ws := seq(n, _ => Idle);
    if n > 0 {
      assert ws[..n - 1] == seq(n - 1, _ => Idle);
      AllIdle(n - 1);
    }
  }

  lemma {:induction false} BusyAtMost(ws: seq<Worker>)
    ensures |Busy(ws)| <= |ws|
  {
    if ws != [] {
      BusyAtMost(ws[..|ws| - 1]);
    }
  }

  lemma {:induction false} BusyWorker(ws: seq<Worker>, id: VertexId) returns (w: nat)
    requires id in Busy(ws)
    ensures w < |ws| && ws[w] == Acting(id)
  {
    if id in BusyBy(ws[|ws| - 1]) {
      w := |ws| - 1;
    } else {
      w := BusyWorker(ws[..|ws| - 1], id);
    }
  }

  lemma {:induction false} HeldWorker(ws: seq<Worker>, id: VertexId) returns (w: nat)
    requires id in Held(ws)
    ensures w < |ws| && id in HeldBy(ws[w])
  {
    if id in HeldBy(ws[|ws| - 1]) {
      w := |ws| - 1;
    } else {
      w := HeldWorker(ws[..|ws| - 1], id);
    }
  }

  lemma {:induction false} EnumeratesOnce(next: seq<VertexId>, q: set<VertexId>)
    requires Enumerates(next, q)
    ensures multiset(next) == multiset(q)
  {
    if next == [] {
      assert q == {};
    } else {
      var last := next[|next| - 1];
      var init := next[..|next| - 1];
      assert next == init + [last];
      assert Enumerates(init, q - {last}) by {
        forall id ensures id in init <==> id in q - {last} {
          assert id in next <==> id in init || id == last;
          assert last !in init;
        }
      }
      EnumeratesOnce(init, q - {last});
      assert q == (q - {last}) + {last};
    }
  }
}
