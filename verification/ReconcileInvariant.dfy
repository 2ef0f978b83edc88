/** What the critical sections of the reconcile graph keep: facts about one graph
    state, with a lemma for each operation performed under the mutex. */
module ReconcileInvariant {
  import opened Wrappers
  import opened CommandSnapshot
  import opened ReconcileGraph

  /** Dependencies rank strictly below their dependents. */
  ghost predicate RankedBy(g: Vertices, rank: map<VertexId, nat>) {
    && rank.Keys == g.Keys
    && forall p, v {:trigger DependsOn(g, v, p)} :: DependsOn(g, v, p) && p in g ==> rank[p] < rank[v]
  }

  ghost predicate Acyclic(g: Vertices) {
    exists rank :: RankedBy(g, rank)
  }

  ghost function ReadyMap(g: Vertices, s: Scheds, dir: Direction): map<VertexId, EdgeStatus>
    requires s.Keys == g.Keys
  {
    map id | id in g :: Readiness(g, s, id, dir)
  }

  /** queued, inProgress and consumed exclude one another, and only targets carry
      a flag. */
  predicate FlagsExclude(x: Sched, target: bool) {
    && (x.queued ==> target && !x.inProgress && !x.consumed)
    && (x.inProgress ==> target && !x.consumed)
    && (x.consumed ==> target)
    && (x.blocked ==> x.consumed)
  }

  /** A vertex keeps its snapshot until its action reports, and for good when it
      is blocked. */
  predicate KeepsSnapshot(x: Sched, snap: Snapshot) {
    !x.Acted() ==>
      && x.state == snap.state && x.exitCode == snap.exitCode && !x.forceKilled
      && x.err == (if x.blocked then Some(NotReached) else None)
      && (!x.consumed ==> x.order == 0)
  }

  /** An action only ever runs on a vertex all of whose edges hold. */
  predicate EdgesHeld(x: Sched, r: EdgeStatus) {
    x.inProgress || x.Acted() ==> r == EdgeSatisfied
  }

  /** No wake-up is lost: a target that is ready and not consumed is queued or in
      progress. */
  predicate Awake(x: Sched, target: bool, r: EdgeStatus) {
    target && !x.consumed && !x.queued && !x.inProgress ==> r != EdgeSatisfied
  }

  /** A walk from end blocks nothing. In a walk from begin a vertex is blocked by
      an edge that can no longer hold, or by finalize once nothing is left. */
  predicate BlockedUnready(x: Sched, r: EdgeStatus, nothingLeft: bool, dir: Direction) {
    x.blocked ==> dir == FromBegin && r != EdgeSatisfied && (r == EdgeBlocked || nothingLeft)
  }

  predicate VertexInv(x: Sched, snap: Snapshot, target: bool, r: EdgeStatus, nothingLeft: bool, dir: Direction) {
    && FlagsExclude(x, target)
    && KeepsSnapshot(x, snap)
    && EdgesHeld(x, r)
    && Awake(x, target, r)
    && BlockedUnready(x, r, nothingLeft, dir)
  }

  ghost predicate StampsDistinct(s: GraphState) {
    && (forall id :: id in s.v ==> s.v[id].order <= s.seqNo)
    && (forall a, b {:trigger s.v[a].order, s.v[b].order} ::
          a in s.v && b in s.v && a != b && s.v[a].order == s.v[b].order ==> s.v[a].order == 0)
  }

  /** Acted vertices are stamped in the order of the edges. */
  ghost predicate StampsFollow(g: Vertices, s: Scheds, dir: Direction)
    requires s.Keys == g.Keys
  {
    && (forall id :: id in g && s[id].Acted() ==> 1 <= s[id].order)
    && (forall n, v {:trigger Precedes(g, dir, n, v)} :: v in g && s[v].Acted() && Precedes(g, dir, n, v) ==>
          s[n].Acted() && s[n].order < s[v].order)
  }

  ghost predicate Stamps(g: Vertices, s: GraphState, dir: Direction)
    requires s.v.Keys == g.Keys
  {
    StampsDistinct(s) && StampsFollow(g, s.v, dir)
  }

  ghost predicate FlagInv(g: Vertices, s: Scheds, r: map<VertexId, EdgeStatus>, dir: Direction) {
    && s.Keys == r.Keys == g.Keys
    && forall id :: id in g ==> VertexInv(s[id], g[id].snapshot, Target(g, id), r[id], LeftOver(g, s) == {}, dir)
  }

  ghost predicate GraphInv(g: Vertices, s: GraphState, dir: Direction) {
    && s.v.Keys == g.Keys
    && FlagInv(g, s.v, ReadyMap(g, s.v, dir), dir)
    && Stamps(g, s, dir)
  }

  // ---- Readiness under change -----------------------------------------------

  /** The fields of a vertex its neighbours read. */
  predicate SameResult(x: Sched, y: Sched) {
    x.consumed == y.consumed && x.blocked == y.blocked
    && x.state == y.state && x.exitCode == y.exitCode && x.err == y.err
  }

  ghost predicate Frozen(g: Vertices, s: Scheds, s': Scheds)
    requires s.Keys == s'.Keys == g.Keys
  {
    forall id :: id in g && s[id].consumed ==> SameResult(s[id], s'[id])
  }

  lemma ReadinessStable(g: Vertices, s: Scheds, s': Scheds, v: VertexId, dir: Direction)
    requires s.Keys == s'.Keys == g.Keys && v in g
    requires Frozen(g, s, s') && forall id :: id in g && s[id].blocked ==> s[id].consumed
    ensures Readiness(g, s, v, dir) == EdgeSatisfied ==> Readiness(g, s', v, dir) == EdgeSatisfied
    ensures Readiness(g, s, v, dir) == EdgeBlocked ==> Readiness(g, s', v, dir) == EdgeBlocked
  {
    forall p | p in g[v].parents && EvalDownEdge(g, s, p, g[v].parents[p]) == EdgeBlocked
      ensures EvalDownEdge(g, s', p, g[v].parents[p]) == EdgeBlocked
    {
    }
    if dir == FromBegin && Readiness(g, s, v, dir) == EdgeSatisfied {
      forall p | p in g[v].parents && p != Begin
        ensures EvalDownEdge(g, s', p, g[v].parents[p]) == EdgeSatisfied
      {
        assert EvalDownEdge(g, s, p, g[v].parents[p]) == EdgeSatisfied;
      }
    }
  }

  /** Readiness of v depends on the vertices that precede v only. */
  lemma ReadinessLocal(g: Vertices, s: Scheds, s': Scheds, v: VertexId, dir: Direction)
    requires WellFormed(g) && s.Keys == s'.Keys == g.Keys && Target(g, v)
    requires forall n :: Precedes(g, dir, n, v) ==> SameResult(s[n], s'[n])
    ensures Readiness(g, s', v, dir) == Readiness(g, s, v, dir)
  {
    if dir == FromBegin {
      forall p | p in g[v].parents && p != Begin
        ensures EvalDownEdge(g, s, p, g[v].parents[p]) == EvalDownEdge(g, s', p, g[v].parents[p])
      {
        if InClosure(g, p) {
          assert Precedes(g, dir, p, v);
        }
      }
    } else {
      forall n | n in g[v].children && n != End && InClosure(g, n)
        ensures s[n].consumed == s'[n].consumed
      {
        assert Precedes(g, dir, n, v);
      }
    }
  }

  /** A vertex whose edges hold comes after acted vertices only. */
  lemma ReadyAfterActed(g: Vertices, s: Scheds, v: VertexId, dir: Direction, n: VertexId)
    requires s.Keys == g.Keys && v in g
    requires Readiness(g, s, v, dir) == EdgeSatisfied && Precedes(g, dir, n, v)
    requires dir == FromEnd ==> !s[n].blocked
    ensures s[n].Acted()
  {
    if dir == FromBegin {
      assert EvalDownEdge(g, s, n, g[v].parents[n]) == EdgeSatisfied;
    } else {
      assert s[n].consumed;
    }
  }

  lemma FollowersPrecede(g: Vertices, id: VertexId, dir: Direction, v: VertexId)
    requires WellFormed(g) && Target(g, id) && Target(g, v)
    ensures Precedes(g, dir, id, v) <==> v in Followers(g, id, dir)
  {
    if dir == FromBegin {
      assert DependsOn(g, v, id) <==> HasDependent(g, id, v);
    } else {
      assert HasDependent(g, v, id) <==> DependsOn(g, id, v);
    }
  }

  // ---- Each operation keeps the invariant -----------------------------------

  /** What an operation that only freezes more results does to readiness. */
  ghost predicate Settles(g: Vertices, r: map<VertexId, EdgeStatus>, r': map<VertexId, EdgeStatus>)
    requires r.Keys == r'.Keys == g.Keys
  {
    forall id :: id in g ==> (r[id] == EdgeSatisfied ==> r'[id] == EdgeSatisfied) && (r[id] == EdgeBlocked ==> r'[id] == EdgeBlocked)
  }

  lemma FrozenSettles(g: Vertices, s: Scheds, s': Scheds, dir: Direction)
    requires s.Keys == s'.Keys == g.Keys && Frozen(g, s, s')
    requires forall id :: id in g && s[id].blocked ==> s[id].consumed
    ensures Settles(g, ReadyMap(g, s, dir), ReadyMap(g, s', dir))
  {
    forall v | v in g
      ensures Readiness(g, s, v, dir) == EdgeSatisfied ==> Readiness(g, s', v, dir) == EdgeSatisfied
      ensures Readiness(g, s, v, dir) == EdgeBlocked ==> Readiness(g, s', v, dir) == EdgeBlocked
    {
      ReadinessStable(g, s, s', v, dir);
    }
  }

  lemma FreshReadiness(g: Vertices, v: VertexId, dir: Direction, n: VertexId)
    requires WellFormed(g) && Precedes(g, dir, n, v)
    ensures Readiness(g, FreshState(g).v, v, dir) != EdgeSatisfied
  {
    if dir == FromBegin {
      assert EvalDownEdge(g, FreshState(g).v, n, g[v].parents[n]) == EdgePending;
    } else {
      assert SomeDependentLeft(g, FreshState(g).v, v);
    }
  }

  lemma SeedWakes(g: Vertices, dir: Direction, v: VertexId)
    requires WellFormed(g) && Target(g, v) && v !in SeedSet(g, dir)
    ensures Readiness(g, WithQueued(FreshState(g).v, SeedSet(g, dir)), v, dir) != EdgeSatisfied
  {
    var n :| Precedes(g, dir, n, v);
    FreshReadiness(g, v, dir, n);
    ReadinessLocal(g, FreshState(g).v, WithQueued(FreshState(g).v, SeedSet(g, dir)), v, dir);
  }

  lemma SeedKeeps(g: Vertices, dir: Direction)
    requires WellFormed(g)
    ensures GraphInv(g, SeedState(g, FreshState(g), dir), dir)
  {
    var v := WithQueued(FreshState(g).v, SeedSet(g, dir));
    forall id | Target(g, id) && id !in SeedSet(g, dir)
      ensures Readiness(g, v, id, dir) != EdgeSatisfied
    {
      SeedWakes(g, dir, id);
    }
    SeedFlags(g, v, SeedSet(g, dir), ReadyMap(g, v, dir), dir);
    assert Stamps(g, GraphState(v, 0), dir);
  }

  lemma SeedFlags(g: Vertices, v: Scheds, q: set<VertexId>, r: map<VertexId, EdgeStatus>, dir: Direction)
    requires v == WithQueued(FreshState(g).v, q) && r.Keys == g.Keys
    requires forall id :: id in q ==> Target(g, id)
    requires forall id :: Target(g, id) && id !in q ==> r[id] != EdgeSatisfied
    ensures FlagInv(g, v, r, dir)
  {
  }

  /** A claim that leaves the vertex unconsumed. */
  lemma ClaimOpenFlags(g: Vertices, s: Scheds, id: VertexId, start: bool, r: map<VertexId, EdgeStatus>, dir: Direction)
    requires FlagInv(g, s, r, dir) && Target(g, id) && !s[id].consumed && !s[id].inProgress
    requires start <==> r[id] == EdgeSatisfied
    ensures FlagInv(g, s[id := s[id].(queued := false, inProgress := start)], r, dir)
  {
    var s' := s[id := s[id].(queued := false, inProgress := start)];
    assert LeftOver(g, s') == LeftOver(g, s);
    forall x | x in g
      ensures VertexInv(s'[x], g[x].snapshot, Target(g, x), r[x], LeftOver(g, s') == {}, dir)
    {
      assert VertexInv(s[x], g[x].snapshot, Target(g, x), r[x], LeftOver(g, s) == {}, dir);
    }
  }

  lemma SameReady(g: Vertices, s: Scheds, s': Scheds, dir: Direction)
    requires s.Keys == s'.Keys == g.Keys
    requires forall n :: n in g ==> SameResult(s[n], s'[n])
    ensures ReadyMap(g, s', dir) == ReadyMap(g, s, dir)
  {
    forall x | x in g
      ensures Readiness(g, s', x, dir) == Readiness(g, s, x, dir)
    {
      ReadinessSame(g, s, s', x, dir);
    }
  }

  lemma ClaimOpenKeeps(g: Vertices, s: GraphState, id: VertexId, start: bool, dir: Direction)
    requires GraphInv(g, s, dir)
    requires Target(g, id) && !s.v[id].consumed && !s.v[id].inProgress
    requires start <==> ReadyMap(g, s.v, dir)[id] == EdgeSatisfied
    ensures GraphInv(g, s.(v := s.v[id := s.v[id].(queued := false, inProgress := start)]), dir)
  {
    hide Stamps, Readiness, VertexInv;
    var v := s.v[id := s.v[id].(queued := false, inProgress := start)];
    SameReady(g, s.v, v, dir);
    ClaimOpenFlags(g, s.v, id, start, ReadyMap(g, s.v, dir), dir);
    StampsSame(g, s, s.(v := v), dir);
  }

  lemma ReadinessSame(g: Vertices, s: Scheds, s': Scheds, v: VertexId, dir: Direction)
    requires s.Keys == s'.Keys == g.Keys && v in g
    requires forall n :: n in g ==> SameResult(s[n], s'[n])
    ensures Readiness(g, s', v, dir) == Readiness(g, s, v, dir)
  {
    forall p | p in g[v].parents
      ensures EvalDownEdge(g, s, p, g[v].parents[p]) == EvalDownEdge(g, s', p, g[v].parents[p])
    {
    }
  }

  lemma StampsSame(g: Vertices, s: GraphState, s': GraphState, dir: Direction)
    requires s.v.Keys == s'.v.Keys == g.Keys && s.seqNo == s'.seqNo && Stamps(g, s, dir)
    requires forall n :: n in g ==> s.v[n].Acted() == s'.v[n].Acted() && s.v[n].order == s'.v[n].order
    ensures Stamps(g, s', dir)
  {
  }

  lemma ClaimBlockedFlags(g: Vertices, s: Scheds, id: VertexId, r: map<VertexId, EdgeStatus>, r': map<VertexId, EdgeStatus>, dir: Direction)
    requires FlagInv(g, s, r, dir) && Target(g, id) && !s[id].consumed && !s[id].inProgress
    requires r[id] == EdgeBlocked && dir == FromBegin
    requires r'.Keys == g.Keys && Settles(g, r, r')
    requires forall x :: Target(g, x) && r[x] != EdgeSatisfied ==> r'[x] != EdgeSatisfied
    ensures FlagInv(g, s[id := s[id].(queued := false, consumed := true, blocked := true, err := Some(NotReached))], r', dir)
  {
    var s' := s[id := s[id].(queued := false, consumed := true, blocked := true, err := Some(NotReached))];
    assert id in LeftOver(g, s);
    forall x | x in g
      ensures VertexInv(s'[x], g[x].snapshot, Target(g, x), r'[x], LeftOver(g, s') == {}, dir)
    {
      assert VertexInv(s[x], g[x].snapshot, Target(g, x), r[x], false, dir);
    }
  }

  lemma ClaimBlockedReady(g: Vertices, s: Scheds, s': Scheds, id: VertexId)
    requires WellFormed(g) && s.Keys == s'.Keys == g.Keys && Target(g, id) && !s[id].consumed
    requires forall x :: x in g && s[x].blocked ==> s[x].consumed
    requires s' == s[id := s'[id]] && s'[id].blocked
    ensures Settles(g, ReadyMap(g, s, FromBegin), ReadyMap(g, s', FromBegin))
    ensures forall x :: Target(g, x) && ReadyMap(g, s, FromBegin)[x] != EdgeSatisfied ==>
              ReadyMap(g, s', FromBegin)[x] != EdgeSatisfied
  {
    FrozenSettles(g, s, s', FromBegin);
    forall x | Target(g, x) && Readiness(g, s, x, FromBegin) != EdgeSatisfied
      ensures Readiness(g, s', x, FromBegin) != EdgeSatisfied
    {
      if DependsOn(g, x, id) {
        assert EvalDownEdge(g, s', id, g[x].parents[id]) == EdgeBlocked;
      } else {
        ReadinessLocal(g, s, s', x, FromBegin);
      }
    }
  }

  lemma ClaimBlockedKeeps(g: Vertices, s: GraphState, id: VertexId)
    requires WellFormed(g) && GraphInv(g, s, FromBegin)
    requires Target(g, id) && !s.v[id].consumed && !s.v[id].inProgress
    requires ReadyMap(g, s.v, FromBegin)[id] == EdgeBlocked
    ensures GraphInv(g, s.(v := s.v[id := s.v[id].(queued := false, consumed := true, blocked := true, err := Some(NotReached))]), FromBegin)
  {
    hide Stamps, Readiness;
    var v := s.v[id := s.v[id].(queued := false, consumed := true, blocked := true, err := Some(NotReached))];
    ClaimBlockedReady(g, s.v, v, id);
    ClaimBlockedFlags(g, s.v, id, ReadyMap(g, s.v, FromBegin), ReadyMap(g, v, FromBegin), FromBegin);
    StampsSame(g, s, s.(v := v), FromBegin);
  }

  lemma ClaimKeeps(g: Vertices, s: GraphState, id: VertexId, dir: Direction)
    requires WellFormed(g) && GraphInv(g, s, dir)
    ensures GraphInv(g, ClaimState(g, s, id, dir), dir)
  {
    hide Stamps;
    match ClaimStatus(g, s, id, dir)
    case StepSkip =>
    case StepReady => ClaimOpenKeeps(g, s, id, true, dir);
    case StepPending => ClaimOpenKeeps(g, s, id, false, dir);
    case StepBlocked =>
      assert VertexInv(s.v[id], g[id].snapshot, true, ReadyMap(g, s.v, dir)[id], LeftOver(g, s.v) == {}, dir);
      ClaimBlockedKeeps(g, s, id);
  }

  lemma CompleteFlags(g: Vertices, s: Scheds, id: VertexId, res: ActionResult, order: nat, q: set<VertexId>,
      r: map<VertexId, EdgeStatus>, r': map<VertexId, EdgeStatus>, dir: Direction)
    requires FlagInv(g, s, r, dir) && id in g && s[id].inProgress
    requires r'.Keys == g.Keys && Settles(g, r, r')
    requires forall x :: x in q ==> Target(g, x) && x != id && !s[x].consumed && !s[x].inProgress
    requires forall x :: Target(g, x) && x !in q && x != id && !s[x].consumed && !s[x].inProgress && !s[x].queued ==>
               r'[x] == r[x]
    ensures FlagInv(g, WithQueued(s[id := Recorded(s[id], res, order)], q), r', dir)
  {
    var s' := WithQueued(s[id := Recorded(s[id], res, order)], q);
    assert VertexInv(s[id], g[id].snapshot, Target(g, id), r[id], LeftOver(g, s) == {}, dir);
    assert id in LeftOver(g, s);
    forall x | x in g
      ensures VertexInv(s'[x], g[x].snapshot, Target(g, x), r'[x], LeftOver(g, s') == {}, dir)
    {
      assert VertexInv(s[x], g[x].snapshot, Target(g, x), r[x], false, dir);
      assert s'[x] == if x == id then Recorded(s[x], res, order)
                      else if x in q then s[x].(queued := true) else s[x];
    }
  }

  lemma CompleteStamps(g: Vertices, s: GraphState, s': GraphState, id: VertexId, dir: Direction)
    requires s.v.Keys == s'.v.Keys == g.Keys && Stamps(g, s, dir) && s'.seqNo == s.seqNo + 1 && id in g
    requires forall n :: n in g && n != id ==> s.v[n].Acted() == s'.v[n].Acted() && s.v[n].order == s'.v[n].order
    requires s'.v[id].Acted() && s'.v[id].order == s'.seqNo && !s.v[id].Acted()
    requires forall n :: Precedes(g, dir, n, id) ==> s.v[n].Acted()
    ensures Stamps(g, s', dir)
  {
    CompleteStampsDistinct(s, s', id);
    assert forall n, v :: Precedes(g, dir, n, v) ==> n in g;
    hide Precedes, Sched.Acted;
    forall n, v | v in g && s'.v[v].Acted() && Precedes(g, dir, n, v)
      ensures s'.v[n].Acted() && s'.v[n].order < s'.v[v].order
    {
      assert s.v[n].Acted();
    }
  }

  lemma CompleteStampsDistinct(s: GraphState, s': GraphState, id: VertexId)
    requires s.v.Keys == s'.v.Keys && StampsDistinct(s) && s'.seqNo == s.seqNo + 1 && id in s.v
    requires forall n :: n in s.v && n != id ==> s.v[n].order == s'.v[n].order
    requires s'.v[id].order == s'.seqNo
    ensures StampsDistinct(s')
  {
  }

  lemma CompleteReady(g: Vertices, s: GraphState, id: VertexId, res: ActionResult, dir: Direction, x: VertexId)
    requires WellFormed(g) && s.v.Keys == g.Keys && Target(g, id) && !s.v[id].consumed
    requires Target(g, x) && x !in CompleteFrontier(g, s, id, res, dir) && x != id
    requires !s.v[x].consumed && !s.v[x].inProgress && !s.v[x].queued
    ensures Readiness(g, CompleteState(g, s, id, res, dir).v, x, dir) == Readiness(g, s.v, x, dir)
  {
    FollowersPrecede(g, id, dir, x);
    ReadinessLocal(g, s.v, CompleteState(g, s, id, res, dir).v, x, dir);
  }

  lemma CompleteFreezes(g: Vertices, s: GraphState, id: VertexId, res: ActionResult, dir: Direction)
    requires s.v.Keys == g.Keys && Target(g, id) && !s.v[id].consumed
    ensures Frozen(g, s.v, CompleteState(g, s, id, res, dir).v)
  {
  }

  lemma CompleteKeeps(g: Vertices, s: GraphState, id: VertexId, res: ActionResult, dir: Direction)
    requires WellFormed(g) && GraphInv(g, s, dir) && id in g && s.v[id].inProgress
    ensures GraphInv(g, CompleteState(g, s, id, res, dir), dir)
  {
    hide Stamps, Readiness, SameResult;
    var s' := CompleteState(g, s, id, res, dir);
    var q := CompleteFrontier(g, s, id, res, dir);
    var r, r' := ReadyMap(g, s.v, dir), ReadyMap(g, s'.v, dir);
    assert VertexInv(s.v[id], g[id].snapshot, Target(g, id), r[id], LeftOver(g, s.v) == {}, dir);
    CompleteFreezes(g, s, id, res, dir);
    FrozenSettles(g, s.v, s'.v, dir);
    forall x | Target(g, x) && x !in q && x != id && !s.v[x].consumed && !s.v[x].inProgress && !s.v[x].queued
      ensures r'[x] == r[x]
    {
      CompleteReady(g, s, id, res, dir, x);
    }
    CompleteFlags(g, s.v, id, res, s'.seqNo, q, r, r', dir);
    CompleteKeepsStamps(g, s, id, res, dir);
  }

  lemma InProgressAfterActed(g: Vertices, s: Scheds, id: VertexId, dir: Direction)
    requires s.Keys == g.Keys && FlagInv(g, s, ReadyMap(g, s, dir), dir) && id in g && s[id].inProgress
    ensures forall n :: Precedes(g, dir, n, id) ==> s[n].Acted()
  {
    var r := ReadyMap(g, s, dir);
    assert VertexInv(s[id], g[id].snapshot, Target(g, id), r[id], LeftOver(g, s) == {}, dir);
    forall n | Precedes(g, dir, n, id)
      ensures s[n].Acted()
    {
      assert VertexInv(s[n], g[n].snapshot, Target(g, n), r[n], LeftOver(g, s) == {}, dir);
      ReadyAfterActed(g, s, id, dir, n);
    }
  }

  lemma CompleteStampsOnce(g: Vertices, s: GraphState, id: VertexId, res: ActionResult, dir: Direction)
    requires s.v.Keys == g.Keys && id in g
    ensures var s' := CompleteState(g, s, id, res, dir);
      && s'.v.Keys == g.Keys && s'.seqNo == s.seqNo + 1
      && (s.v[id].blocked == s'.v[id].blocked && s'.v[id].consumed && s'.v[id].order == s'.seqNo)
      && forall n :: n in g && n != id ==> s.v[n].Acted() == s'.v[n].Acted() && s.v[n].order == s'.v[n].order
  {
  }

  lemma CompleteKeepsStamps(g: Vertices, s: GraphState, id: VertexId, res: ActionResult, dir: Direction)
    requires GraphInv(g, s, dir) && id in g && s.v[id].inProgress
    ensures Stamps(g, CompleteState(g, s, id, res, dir), dir)
  {
    hide Readiness, Precedes, Stamps, CompleteState;
    InProgressAfterActed(g, s.v, id, dir);
    assert VertexInv(s.v[id], g[id].snapshot, Target(g, id), ReadyMap(g, s.v, dir)[id], LeftOver(g, s.v) == {}, dir);
    CompleteStampsOnce(g, s, id, res, dir);
    CompleteStamps(g, s, CompleteState(g, s, id, res, dir), id, dir);
  }

  /** Walking from end, a drained graph has nothing left: the highest-ranked
      vertex left over would be ready, and so queued or in progress. */
  lemma DrainedFromEnd(g: Vertices, s: GraphState, rank: map<VertexId, nat>, bound: nat, v: VertexId)
    requires WellFormed(g) && RankedBy(g, rank) && GraphInv(g, s, FromEnd) && Done(g, s.v)
    requires v in LeftOver(g, s.v)
    requires forall x :: x in g ==> rank[x] <= bound
    ensures false
    decreases bound - rank[v]
  {
    assert ReadyMap(g, s.v, FromEnd)[v] != EdgeSatisfied;
    var c :| c in g[v].children && c != End && InClosure(g, c) && !s.v[c].consumed;
    assert HasDependent(g, v, c);
    assert rank[v] < rank[c];
    DrainedFromEnd(g, s, rank, bound, c);
  }

  ghost function Bound(rank: map<VertexId, nat>, dom: set<VertexId>): (b: nat)
    requires dom <= rank.Keys
    ensures forall x :: x in dom ==> rank[x] <= b
  {
    if dom == {} then 0
    else
      var x :| x in dom;
      var b := Bound(rank, dom - {x});
      if rank[x] <= b then b else rank[x]
  }

  lemma NothingLeftFromEnd(g: Vertices, s: GraphState)
    requires WellFormed(g) && Acyclic(g) && GraphInv(g, s, FromEnd) && Done(g, s.v)
    ensures LeftOver(g, s.v) == {}
  {
    if v :| v in LeftOver(g, s.v) {
      var rank :| RankedBy(g, rank);
      DrainedFromEnd(g, s, rank, Bound(rank, rank.Keys), v);
    }
  }

  lemma FinalizeFlags(g: Vertices, s: GraphState, s': GraphState, r: map<VertexId, EdgeStatus>, r': map<VertexId, EdgeStatus>)
    requires FlagInv(g, s.v, r, FromBegin) && Done(g, s.v) && Finalized(g, s, s')
    requires r'.Keys == g.Keys && Settles(g, r, r')
    requires forall v :: v in g && s'.v[v].blocked ==> r'[v] != EdgeSatisfied
    ensures FlagInv(g, s'.v, r', FromBegin) && Done(g, s'.v) && LeftOver(g, s'.v) == {}
  {
    assert LeftOver(g, s'.v) == {};
    forall x | x in g
      ensures VertexInv(s'.v[x], g[x].snapshot, Target(g, x), r'[x], true, FromBegin)
    {
      assert VertexInv(s.v[x], g[x].snapshot, Target(g, x), r[x], LeftOver(g, s.v) == {}, FromBegin);
    }
  }

  lemma FinalizeStamps(g: Vertices, s: GraphState, s': GraphState, dir: Direction)
    requires s.v.Keys == g.Keys && Stamps(g, s, dir) && Finalized(g, s, s')
    requires forall id :: id in g && !s.v[id].consumed ==> s.v[id].order == 0 || id !in LeftOver(g, s.v)
    ensures Stamps(g, s', dir)
  {
    assert forall id :: id in g && s'.v[id].Acted() ==> s'.v[id] == s.v[id];
    forall n, v | v in g && s'.v[v].Acted() && Precedes(g, dir, n, v)
      ensures s'.v[n].Acted() && s'.v[n].order < s'.v[v].order
    {
      assert s.v[n].Acted();
    }
  }

  /** What was not ready stays so when its unfinished dependencies are blocked. */
  lemma FinalizeUnready(g: Vertices, s: GraphState, s': GraphState, v: VertexId)
    requires s.v.Keys == g.Keys && Finalized(g, s, s') && v in g
    requires forall id :: InClosure(g, id) ==> Target(g, id)
    requires Readiness(g, s.v, v, FromBegin) != EdgeSatisfied
    ensures Readiness(g, s'.v, v, FromBegin) != EdgeSatisfied
  {
    var p :| p in g[v].parents && p != Begin && EvalDownEdge(g, s.v, p, g[v].parents[p]) != EdgeSatisfied;
    assert EvalDownEdge(g, s'.v, p, g[v].parents[p]) != EdgeSatisfied by {
      if InClosure(g, p) && !s.v[p].consumed {
        assert p in LeftOver(g, s.v);
      }
    }
  }

  lemma FinalizeReady(g: Vertices, s: GraphState, s': GraphState)
    requires WellFormed(g) && GraphInv(g, s, FromBegin) && Done(g, s.v) && Finalized(g, s, s')
    ensures Settles(g, ReadyMap(g, s.v, FromBegin), ReadyMap(g, s'.v, FromBegin))
    ensures forall v :: v in g && s'.v[v].blocked ==> ReadyMap(g, s'.v, FromBegin)[v] != EdgeSatisfied
  {
    hide Stamps, Readiness;
    var r := ReadyMap(g, s.v, FromBegin);
    FrozenSettles(g, s.v, s'.v, FromBegin);
    forall v | v in g && s'.v[v].blocked
      ensures Readiness(g, s'.v, v, FromBegin) != EdgeSatisfied
    {
      assert VertexInv(s.v[v], g[v].snapshot, Target(g, v), r[v], LeftOver(g, s.v) == {}, FromBegin);
      FinalizeUnready(g, s, s', v);
    }
  }

  lemma FinalizeKeepsFromBegin(g: Vertices, s: GraphState, s': GraphState)
    requires WellFormed(g) && GraphInv(g, s, FromBegin) && Done(g, s.v)
    requires Finalized(g, s, s')
    ensures GraphInv(g, s', FromBegin) && Done(g, s'.v) && LeftOver(g, s'.v) == {}
  {
    FinalizeReady(g, s, s');
    FinalizeFlags(g, s, s', ReadyMap(g, s.v, FromBegin), ReadyMap(g, s'.v, FromBegin));
    FinalizeStamps(g, s, s', FromBegin);
  }

  lemma FinalizeKeepsFromEnd(g: Vertices, s: GraphState, s': GraphState)
    requires WellFormed(g) && Acyclic(g) && GraphInv(g, s, FromEnd) && Done(g, s.v)
    requires Finalized(g, s, s')
    ensures s'.v == s.v && LeftOver(g, s'.v) == {}
    ensures GraphInv(g, s', FromEnd)
  {
    hide Readiness, VertexInv, Stamps;
    NothingLeftFromEnd(g, s);
    assert s'.v == s.v;
    FinalizeStamps(g, s, s', FromEnd);
  }

  lemma FinalizeKeeps(g: Vertices, s: GraphState, s': GraphState, dir: Direction)
    requires WellFormed(g) && Acyclic(g) && GraphInv(g, s, dir) && Done(g, s.v)
    requires Finalized(g, s, s')
    ensures GraphInv(g, s', dir) && Done(g, s'.v) && LeftOver(g, s'.v) == {}
  {
    hide GraphInv, MarkedUnreached;
    if dir == FromEnd {
      FinalizeKeepsFromEnd(g, s, s');
    } else {
      FinalizeKeepsFromBegin(g, s, s');
    }
  }
}
