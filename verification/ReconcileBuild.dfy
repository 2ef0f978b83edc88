/** How the reconcile graph is built from the commands of a spec, and why the
    layering of the commands makes it fit for a walk. */
module ReconcileBuild {
  import opened Collections
  import opened Wrappers
  import opened Names
  import opened ComposeSpec
  import opened CommandSnapshot
  import opened DependencyGraph
  import opened ReconcileGraph
  import opened ReconcileInvariant
  import opened ReconcileOutcome

  // None selects every replica of a targeted command.
  type TargetSet = map<string, Option<seq<int>>>

  // ---- What is built --------------------------------------------------------

  function ReplicasFor(c: Command, closure: set<string>, targets: TargetSet): Option<seq<int>> {
    if c.name in closure && c.name in targets then targets[c.name] else None
  }

  /** A targeted command narrowed to some replicas sees a snapshot of them alone. */
  function SnapshotFor(c: Command, snaps: map<string, Snapshot>, closure: set<string>, targets: TargetSet): Snapshot {
    var snap := if c.name in snaps then snaps[c.name] else EMPTY_SNAPSHOT;
    match ReplicasFor(c, closure, targets)
    case Some(replicas) => snap.Only(replicas)
    case None => snap
  }

  /** The parents a list of dependencies gives; the last entry of a name wins. */
  function ParentsOf(after: seq<AfterSpec>): map<VertexId, AfterCondition> {
    if after == [] then map[Begin := ConditionUnset]
    else ParentsOf(after[..|after| - 1])[Cmd(after[|after| - 1].name) := after[|after| - 1].condition]
  }

  /** The vertex of c before any edge is added. */
  function Bare(c: Command, snaps: map<string, Snapshot>, closure: set<string>, targets: TargetSet): Vertex {
    Vertex(Some(c), SnapshotFor(c, snaps, closure, targets), c.name in closure, ReplicasFor(c, closure, targets), map[], map[])
  }

  /** x is the vertex of c with the dependencies in seen. */
  ghost predicate VertexBuilt(c: Command, seen: seq<AfterSpec>, bare: Vertex, x: Vertex) {
    x.(parents := map[], children := map[]) == bare && x.parents == ParentsOf(seen)
  }

  /** The children of the vertex named p mirror the parents of the command c, as
      far as they are seen. */
  ghost predicate ChildMirrors(c: string, seen: seq<AfterSpec>, p: string, children: map<VertexId, AfterCondition>) {
    && (Cmd(c) in children <==> Cmd(p) in ParentsOf(seen))
    && (Cmd(c) in children ==> children[Cmd(c)] == ParentsOf(seen)[Cmd(p)])
  }

  ghost predicate ChildrenBuilt(commands: seq<Command>, i: nat, k: nat, p: string, children: map<VertexId, AfterCondition>)
    requires i < |commands| ==> k <= |commands[i].after|
  {
    && Begin !in children && End in children
    && (forall x :: Cmd(x) in children ==> Known(commands, x))
    && (forall j {:trigger commands[j]} :: 0 <= j < |commands| ==>
          ChildMirrors(commands[j].name, Seen(commands, i, k, j), p, children))
  }

  ghost predicate HasVertices(names: seq<string>, g: Vertices) {
    && (forall id :: id in g <==> id == Begin || id == End || (id.Cmd? && id.name in names))
    && g[Begin].command.None? && g[End].command.None? && !g[Begin].inClosure && !g[End].inClosure
  }

  /** Begin and end are wired; i commands and k dependencies of the next are
      handled. */
  ghost predicate BuiltTo(commands: seq<Command>, snaps: map<string, Snapshot>, closure: set<string>, targets: TargetSet,
      i: nat, k: nat, g: Vertices)
    requires i < |commands| ==> k <= |commands[i].after|
  {
    && HasVertices(NamesOf(commands), g)
    && forall j {:trigger commands[j]} :: 0 <= j < |commands| ==>
         && Cmd(commands[j].name) in g
         && VertexBuilt(commands[j], Seen(commands, i, k, j), Bare(commands[j], snaps, closure, targets), g[Cmd(commands[j].name)])
         && ChildrenBuilt(commands, i, k, commands[j].name, g[Cmd(commands[j].name)].children)
  }

  ghost predicate IsBuilt(commands: seq<Command>, snaps: map<string, Snapshot>, closure: set<string>, targets: TargetSet, g: Vertices) {
    BuiltTo(commands, snaps, closure, targets, |commands|, 0, g)
  }

  // ---- One dependency entry -------------------------------------------------

  function AddParent(g: Vertices, c: VertexId, p: VertexId, cond: AfterCondition): Vertices
    requires c in g
  {
    g[c := g[c].(parents := g[c].parents[p := cond])]
  }

  function AddChild(g: Vertices, p: VertexId, c: VertexId, cond: AfterCondition): Vertices
    requires p in g
  {
    g[p := g[p].(children := g[p].children[c := cond])]
  }

  lemma ParentsStep(after: seq<AfterSpec>, k: nat)
    requires k < |after|
    ensures ParentsOf(after[..k + 1]) == ParentsOf(after[..k])[Cmd(after[k].name) := after[k].condition]
  {
    assert after[..k + 1][..k] == after[..k];
  }

  lemma EntryChildren(commands: seq<Command>, i: nat, k: nat, p: string, children: map<VertexId, AfterCondition>)
    requires DistinctCommands(commands) && i < |commands| && k < |commands[i].after|
    requires ChildrenBuilt(commands, i, k, p, children)
    ensures var e := commands[i].after[k];
      ChildrenBuilt(commands, i, k + 1, p,
        if p == e.name then children[Cmd(commands[i].name) := e.condition] else children)
  {
    hide LessEq, ParentsOf;
    var e := commands[i].after[k];
    var children' := if p == e.name then children[Cmd(commands[i].name) := e.condition] else children;
    assert NamesOf(commands)[i] == commands[i].name;
    forall j | 0 <= j < |commands|
      ensures ChildMirrors(commands[j].name, Seen(commands, i, k + 1, j), p, children')
    {
      assert ChildMirrors(commands[j].name, Seen(commands, i, k, j), p, children);
      if j == i {
        ParentsStep(commands[i].after, k);
      } else {
        assert NamesOf(commands)[j] == commands[j].name != commands[i].name;
      }
    }
  }

  lemma NoEntryChildren(commands: seq<Command>, i: nat, p: string, children: map<VertexId, AfterCondition>)
    requires i < |commands| && ChildrenBuilt(commands, i, |commands[i].after|, p, children)
    ensures ChildrenBuilt(commands, i + 1, 0, p, children)
  {
    forall j | 0 <= j < |commands|
      ensures Seen(commands, i + 1, 0, j) == Seen(commands, i, |commands[i].after|, j)
    {
    }
  }

  /** Handling one dependency entry: the edge is recorded on the dependency, if it
      exists, and on the dependent. */
  lemma EntryBuilds(commands: seq<Command>, snaps: map<string, Snapshot>, closure: set<string>, targets: TargetSet,
      i: nat, k: nat, g: Vertices)
    requires DistinctCommands(commands) && i < |commands| && k < |commands[i].after|
    requires BuiltTo(commands, snaps, closure, targets, i, k, g)
    ensures var c, e := Cmd(commands[i].name), commands[i].after[k];
      && c in g
      && BuiltTo(commands, snaps, closure, targets, i, k + 1,
           AddParent(if Cmd(e.name) in g then AddChild(g, Cmd(e.name), c, e.condition) else g, c, Cmd(e.name), e.condition))
  {
    hide LessEq, ParentsOf, ChildrenBuilt, Bare;
    var c, e := Cmd(commands[i].name), commands[i].after[k];
    var g1 := if Cmd(e.name) in g then AddChild(g, Cmd(e.name), c, e.condition) else g;
    var g2 := AddParent(g1, c, Cmd(e.name), e.condition);
    assert NamesOf(commands)[i] == commands[i].name;
    forall j | 0 <= j < |commands|
      ensures Cmd(commands[j].name) in g2
      ensures VertexBuilt(commands[j], Seen(commands, i, k + 1, j), Bare(commands[j], snaps, closure, targets), g2[Cmd(commands[j].name)])
      ensures ChildrenBuilt(commands, i, k + 1, commands[j].name, g2[Cmd(commands[j].name)].children)
    {
      var x := Cmd(commands[j].name);
      EntryChildren(commands, i, k, commands[j].name, g[x].children);
      assert NamesOf(commands)[j] == commands[j].name;
      ParentsStep(commands[i].after, k);
      assert j != i ==> commands[j].name != commands[i].name;
    }
  }

  lemma NextBuilds(commands: seq<Command>, snaps: map<string, Snapshot>, closure: set<string>, targets: TargetSet,
      i: nat, g: Vertices)
    requires i < |commands| && BuiltTo(commands, snaps, closure, targets, i, |commands[i].after|, g)
    ensures BuiltTo(commands, snaps, closure, targets, i + 1, 0, g)
  {
    hide ParentsOf, ChildrenBuilt, Bare, HasVertices;
    forall j | 0 <= j < |commands|
      ensures Seen(commands, i + 1, 0, j) == Seen(commands, i, |commands[i].after|, j)
      ensures Cmd(commands[j].name) in g && ChildrenBuilt(commands, i + 1, 0, commands[j].name, g[Cmd(commands[j].name)].children)
    {
      NoEntryChildren(commands, i, commands[j].name, g[Cmd(commands[j].name)].children);
    }
  }

  lemma WiredBuilds(commands: seq<Command>, snaps: map<string, Snapshot>, closure: set<string>, targets: TargetSet, g: Vertices)
    requires HasVertices(NamesOf(commands), g)
    requires forall j :: 0 <= j < |commands| ==>
               Cmd(commands[j].name) in g && g[Cmd(commands[j].name)] == Wired(Bare(commands[j], snaps, closure, targets))
    ensures BuiltTo(commands, snaps, closure, targets, 0, 0, g)
  {
    hide Bare;
    forall j | 0 <= j < |commands|
      ensures Seen(commands, 0, 0, j) == []
    {
    }
    forall p: string
      ensures ChildrenBuilt(commands, 0, 0, p, map[End := ConditionUnset])
    {
    }
    forall j | 0 <= j < |commands|
      ensures VertexBuilt(commands[j], Seen(commands, 0, 0, j), Bare(commands[j], snaps, closure, targets), g[Cmd(commands[j].name)])
    {
      BareBare(commands[j], snaps, closure, targets);
    }
  }

  lemma BareBare(c: Command, snaps: map<string, Snapshot>, closure: set<string>, targets: TargetSet)
    ensures Bare(c, snaps, closure, targets).parents == map[] && Bare(c, snaps, closure, targets).children == map[]
  {
  }

  function Wired(x: Vertex): Vertex {
    x.(parents := map[Begin := ConditionUnset], children := map[End := ConditionUnset])
  }

  method BuildReconcileGraph(commands: seq<Command>, snaps: map<string, Snapshot>, closure: set<string>, targets: TargetSet)
    returns (g: Vertices)
    requires DistinctCommands(commands)
    ensures IsBuilt(commands, snaps, closure, targets, g)
  {
    hide DistinctCommands, BuiltTo, Bare, HasVertices;
    g := Bares(commands, snaps, closure, targets);
    g := WireVirtual(commands, snaps, closure, targets, g);
    WiredBuilds(commands, snaps, closure, targets, g);
    for i := 0 to |commands|
      invariant BuiltTo(commands, snaps, closure, targets, i, 0, g)
    {
      var c := Cmd(commands[i].name);
      for k := 0 to |commands[i].after|
        invariant BuiltTo(commands, snaps, closure, targets, i, k, g)
      {
        var e := commands[i].after[k];
        EntryBuilds(commands, snaps, closure, targets, i, k, g);
        var p := Cmd(e.name);
        if p in g {
          g := AddChild(g, p, c, e.condition);
        }
        g := AddParent(g, c, p, e.condition);
      }
      NextBuilds(commands, snaps, closure, targets, i, g);
    }
  }

  method Bares(commands: seq<Command>, snaps: map<string, Snapshot>, closure: set<string>, targets: TargetSet)
    returns (g: Vertices)
    requires DistinctCommands(commands)
    ensures HasVertices(NamesOf(commands), g)
    ensures forall j :: 0 <= j < |commands| ==>
              Cmd(commands[j].name) in g && g[Cmd(commands[j].name)] == Bare(commands[j], snaps, closure, targets)
  {
    hide LessEq, Bare;
    var virtual := Vertex(None, EMPTY_SNAPSHOT, false, None, map[], map[]);
    g := map[Begin := virtual, End := virtual];
    var names := NamesOf(commands);
    for i := 0 to |commands|
      invariant HasVertices(names[..i], g)
      invariant forall j :: 0 <= j < i ==>
                  Cmd(commands[j].name) in g && g[Cmd(commands[j].name)] == Bare(commands[j], snaps, closure, targets)
    {
      assert names[i] == commands[i].name;
      assert forall j :: 0 <= j < i ==> commands[j].name == names[j] != names[i];
      assert names[..i + 1] == names[..i] + [names[i]];
      g := g[Cmd(commands[i].name) := Bare(commands[i], snaps, closure, targets)];
    }
    assert names[..|commands|] == names;
  }

  method WireVirtual(commands: seq<Command>, snaps: map<string, Snapshot>, closure: set<string>, targets: TargetSet, was: Vertices)
    returns (g: Vertices)
    requires DistinctCommands(commands) && HasVertices(NamesOf(commands), was)
    requires forall j :: 0 <= j < |commands| ==>
               Cmd(commands[j].name) in was && was[Cmd(commands[j].name)] == Bare(commands[j], snaps, closure, targets)
    ensures HasVertices(NamesOf(commands), g)
    ensures forall j :: 0 <= j < |commands| ==>
              Cmd(commands[j].name) in g && g[Cmd(commands[j].name)] == Wired(Bare(commands[j], snaps, closure, targets))
  {
    hide LessEq, Bare;
    g := was;
    for i := 0 to |commands|
      invariant HasVertices(NamesOf(commands), g)
      invariant forall j :: 0 <= j < |commands| ==>
                  && Cmd(commands[j].name) in g
                  && var bare := Bare(commands[j], snaps, closure, targets);
                     g[Cmd(commands[j].name)] == if j < i then Wired(bare) else bare
    {
      var id := Cmd(commands[i].name);
      assert forall j :: 0 <= j < |commands| ==> commands[j].name == NamesOf(commands)[j];
      BareBare(commands[i], snaps, closure, targets);
      g := AddChild(g, Begin, id, ConditionUnset);
      g := AddParent(g, id, Begin, ConditionUnset);
      g := AddParent(g, End, id, ConditionUnset);
      g := AddChild(g, id, End, ConditionUnset);
    }
  }

  // ---- What a built graph is ------------------------------------------------

  /** Entry i is the last of after that names x. */
  predicate LastEntry(after: seq<AfterSpec>, i: int, x: string) {
    0 <= i < |after| && after[i].name == x && forall j :: i < j < |after| ==> after[j].name != x
  }

  /** The parents are Begin and the names listed, each under the condition of its
      last entry. */
  lemma {:induction false} ParentsMember(after: seq<AfterSpec>, x: string)
    ensures Begin in ParentsOf(after) && End !in ParentsOf(after)
    ensures Cmd(x) in ParentsOf(after) <==> exists i :: 0 <= i < |after| && after[i].name == x
    ensures forall i :: LastEntry(after, i, x) ==> Cmd(x) in ParentsOf(after) && ParentsOf(after)[Cmd(x)] == after[i].condition
  {
    if after != [] {
      var init, last := after[..|after| - 1], after[|after| - 1];
      ParentsMember(init, x);
      if Cmd(x) in ParentsOf(after) {
        if last.name == x {
          assert after[|after| - 1].name == x;
        } else {
          var i :| 0 <= i < |init| && init[i].name == x;
          assert after[i].name == x;
        }
      }
      forall i | LastEntry(after, i, x)
        ensures Cmd(x) in ParentsOf(after) && ParentsOf(after)[Cmd(x)] == after[i].condition
      {
        if i < |init| {
          assert after[|after| - 1].name != x;
          assert LastEntry(init, i, x);
        }
      }
    }
  }

  lemma BuiltVertex(commands: seq<Command>, snaps: map<string, Snapshot>, closure: set<string>, targets: TargetSet, g: Vertices, x: string)
    requires DistinctCommands(commands) && IsBuilt(commands, snaps, closure, targets, g) && Known(commands, x)
    ensures Cmd(x) in g && var c := Find(commands, x);
              && VertexBuilt(c, c.after, Bare(c, snaps, closure, targets), g[Cmd(x)])
              && ChildrenBuilt(commands, |commands|, 0, x, g[Cmd(x)].children)
  {
    hide LessEq, Bare, ChildrenBuilt, VertexBuilt, HasVertices;
    var c := Find(commands, x);
    var j :| 0 <= j < |commands| && commands[j] == c;
    assert Seen(commands, |commands|, 0, j) == c.after;
  }

  /** The vertex of a command is in the closure exactly when the closure names it. A
      target narrowed to some replicas covers these, and sees a snapshot of them alone,
      reduced anew; any other command covers all of its replicas and sees the stored
      snapshot, or an empty one. */
  lemma BuiltVertexMeans(commands: seq<Command>, snaps: map<string, Snapshot>, closure: set<string>, targets: TargetSet, g: Vertices, c: Command)
    requires DistinctCommands(commands) && IsBuilt(commands, snaps, closure, targets, g) && c in commands
    ensures Cmd(c.name) in g
    ensures var x := g[Cmd(c.name)];
      var stored := if c.name in snaps then snaps[c.name] else Snapshot([], Absent, None);
      var narrowed := c.name in closure && c.name in targets && targets[c.name].Some?;
      && x.command == Some(c) && (x.inClosure <==> c.name in closure)
      && x.replicas == (if narrowed then targets[c.name] else None)
      && (if narrowed then
            && IsFilter(x.snapshot.instances, stored.instances, HasIndexIn(targets[c.name].value))
            && (x.snapshot.state, x.snapshot.exitCode) == Aggregate(x.snapshot.instances)
          else x.snapshot == stored)
  {
    hide LessEq, DistinctCommands, IsBuilt, ChildrenBuilt, IsFilter, Aggregate, Covered;
    FindUnique(commands, c);
    BuiltVertex(commands, snaps, closure, targets, g, c.name);
    var stored := if c.name in snaps then snaps[c.name] else EMPTY_SNAPSHOT;
    if c.name in targets && targets[c.name].Some? {
      CoveredIsFilter(stored.instances, targets[c.name].value);
    }
  }

  /** The dependency edges of the graph are the dependencies of the commands. */
  lemma BuiltDependsOn(commands: seq<Command>, snaps: map<string, Snapshot>, closure: set<string>, targets: TargetSet, g: Vertices,
      x: string, y: string)
    requires DistinctCommands(commands) && IsBuilt(commands, snaps, closure, targets, g)
    ensures DependsOn(g, Cmd(x), Cmd(y)) <==> After(commands, x, y)
    ensures HasDependent(g, Cmd(y), Cmd(x)) <==> After(commands, x, y) && Known(commands, y)
    ensures After(commands, x, y) && Known(commands, y) ==>
              g[Cmd(y)].children[Cmd(x)] == g[Cmd(x)].parents[Cmd(y)]
  {
    hide LessEq, Bare, DistinctCommands, IsBuilt, ParentsOf;
    if Known(commands, x) {
      BuiltVertex(commands, snaps, closure, targets, g, x);
      ParentsMember(Find(commands, x).after, y);
    } else {
      BuiltKeys(commands, snaps, closure, targets, g, x);
    }
    if Known(commands, y) {
      BuiltVertex(commands, snaps, closure, targets, g, y);
      BuiltChild(commands, y, g[Cmd(y)].children, x);
    } else {
      BuiltKeys(commands, snaps, closure, targets, g, y);
    }
  }

  lemma BuiltChild(commands: seq<Command>, y: string, children: map<VertexId, AfterCondition>, x: string)
    requires DistinctCommands(commands) && ChildrenBuilt(commands, |commands|, 0, y, children)
    ensures Cmd(x) in children ==> Known(commands, x)
    ensures Known(commands, x) ==> ChildMirrors(x, Find(commands, x).after, y, children)
  {
    hide LessEq;
    if Known(commands, x) {
      var c := Find(commands, x);
      var j :| 0 <= j < |commands| && commands[j] == c;
      assert Seen(commands, |commands|, 0, j) == c.after;
    }
  }

  lemma BuiltKeys(commands: seq<Command>, snaps: map<string, Snapshot>, closure: set<string>, targets: TargetSet, g: Vertices, x: string)
    requires IsBuilt(commands, snaps, closure, targets, g)
    ensures Begin in g && End in g && (Cmd(x) in g <==> Known(commands, x))
    ensures g[Begin].command.None? && g[End].command.None? && !g[Begin].inClosure && !g[End].inClosure
  {
    hide BuiltTo, HasVertices;
    BuiltHasVertices(commands, snaps, closure, targets, g);
    KeysOf(NamesOf(commands), g, x);
  }

  lemma BuiltHasVertices(commands: seq<Command>, snaps: map<string, Snapshot>, closure: set<string>, targets: TargetSet, g: Vertices)
    requires IsBuilt(commands, snaps, closure, targets, g)
    ensures HasVertices(NamesOf(commands), g)
  {
  }

  lemma KeysOf(names: seq<string>, g: Vertices, x: string)
    requires HasVertices(names, g)
    ensures Begin in g && End in g && (Cmd(x) in g <==> x in names)
    ensures g[Begin].command.None? && g[End].command.None? && !g[Begin].inClosure && !g[End].inClosure
  {
  }

  lemma BuiltWellFormed(commands: seq<Command>, snaps: map<string, Snapshot>, closure: set<string>, targets: TargetSet, g: Vertices)
    requires DistinctCommands(commands) && IsBuilt(commands, snaps, closure, targets, g)
    ensures WellFormed(g)
  {
    hide LessEq, DistinctCommands, IsBuilt, After, ParentsOf, Known;
    BuiltKeys(commands, snaps, closure, targets, g, "");
    forall id | id in g
      ensures id.Cmd? ==> g[id].command.Some? && End !in g[id].parents && Begin !in g[id].children
    {
      if id.Cmd? {
        BuiltKeys(commands, snaps, closure, targets, g, id.name);
        BuiltVertex(commands, snaps, closure, targets, g, id.name);
        ParentsMember(Find(commands, id.name).after, "");
      }
    }
    forall v, p
      ensures DependsOn(g, v, p) && p in g ==> HasDependent(g, p, v) && g[p].children[v] == g[v].parents[p]
      ensures HasDependent(g, p, v) ==> DependsOn(g, v, p)
    {
      if v.Cmd? && p.Cmd? {
        BuiltDependsOn(commands, snaps, closure, targets, g, v.name, p.name);
        BuiltKeys(commands, snaps, closure, targets, g, p.name);
      }
    }
  }

  lemma EdgesAreCommands(g: Vertices, v: VertexId, p: VertexId)
    ensures DependsOn(g, v, p) ==> v.Cmd? && p.Cmd? && v in g && p in g[v].parents
    ensures HasDependent(g, p, v) ==> v.Cmd? && p.Cmd? && p in g && v in g[p].children
  {
  }

  // ---- The layering as a rank and as an order --------------------------------

  /** A dependency lies in an earlier layer. */
  lemma LayerBelow(commands: seq<Command>, layers: Layers, x: string, k: int, y: string, j: int)
    requires IsLayering(commands, layers) && InLayer(layers, k, x) && InLayer(layers, j, y) && After(commands, x, y)
    ensures j < k
  {
    hide Known, After;
    assert LongestChain(commands, x, k) && LongestChain(commands, y, j);
    var path :| ChainTo(commands, path, y) && |path| == j + 1;
    assert Known(commands, x);
    assert Known(commands, y);
    Edge(commands, x, y);
    Joined(commands, path, [y, x]);
    assert ChainTo(commands, path + [y, x][1..], x);
  }

  ghost function LayerOf(layers: Layers, x: string): nat {
    if exists k: nat :: InLayer(layers, k, x) then var k: nat :| InLayer(layers, k, x); k else 0
  }

  lemma BuiltAcyclic(commands: seq<Command>, snaps: map<string, Snapshot>, closure: set<string>, targets: TargetSet,
      g: Vertices, layers: Layers)
    requires DistinctCommands(commands) && IsBuilt(commands, snaps, closure, targets, g) && IsLayering(commands, layers)
    ensures ReconcileInvariant.Acyclic(g)
  {
    hide LessEq, DistinctCommands, IsBuilt, After, IsLayering, Known, InLayer, DependsOn;
    var rank := map id | id in g :: if id.Cmd? then LayerOf(layers, id.name) else 0;
    forall p, v | DependsOn(g, v, p) && p in g
      ensures v in rank && p in rank && rank[p] < rank[v]
    {
      EdgesAreCommands(g, v, p);
      BuiltKeys(commands, snaps, closure, targets, g, v.name);
      BuiltKeys(commands, snaps, closure, targets, g, p.name);
      BuiltDependsOn(commands, snaps, closure, targets, g, v.name, p.name);
      HasLayer(commands, layers, v.name);
      HasLayer(commands, layers, p.name);
      LayerBelow(commands, layers, v.name, LayerOf(layers, v.name), p.name, LayerOf(layers, p.name));
    }
    assert RankedBy(g, rank);
  }

  lemma HasLayer(commands: seq<Command>, layers: Layers, x: string)
    requires IsLayering(commands, layers) && Known(commands, x)
    ensures InLayer(layers, LayerOf(layers, x), x)
  {
    hide LessEq;
    var k :| InLayer(layers, k, x);
    assert k >= 0;
  }

  function Ids(names: seq<string>): seq<VertexId> {
    seq(|names|, i requires 0 <= i < |names| => Cmd(names[i]))
  }

  /** The commands layer by layer. */
  function Flatten(layers: Layers): seq<VertexId> {
    if layers == [] then [] else Flatten(layers[..|layers| - 1]) + Ids(layers[|layers| - 1])
  }

  lemma {:induction false} FlattenMembers(layers: Layers, id: VertexId)
    ensures id in Flatten(layers) <==> id.Cmd? && exists k :: InLayer(layers, k, id.name)
  {
    if layers != [] {
      var init, last := layers[..|layers| - 1], layers[|layers| - 1];
      FlattenMembers(init, id);
      assert id in Ids(last) <==> id.Cmd? && id.name in last by {
        if id.Cmd? && id.name in last {
          var i :| 0 <= i < |last| && last[i] == id.name;
          assert Ids(last)[i] == id;
        }
      }
      if id.Cmd? {
        if k :| InLayer(init, k, id.name) {
          assert InLayer(layers, k, id.name);
        }
        if id.name in last {
          assert InLayer(layers, |layers| - 1, id.name);
        }
      }
      if id.Cmd? && exists k :: InLayer(layers, k, id.name) {
        var k :| InLayer(layers, k, id.name);
        if k < |init| {
          assert InLayer(init, k, id.name);
        }
      }
    }
  }

  ghost predicate OrderedSoFar(commands: seq<Command>, order: seq<VertexId>) {
    && (forall i, j :: 0 <= i < j < |order| ==> order[i] != order[j])
    && (forall i, y {:trigger After(commands, order[i].name, y)} ::
          0 <= i < |order| && order[i].Cmd? && After(commands, order[i].name, y) && Known(commands, y) ==> Cmd(y) in order[..i])
  }

  lemma {:induction false} FlattenOrdered(commands: seq<Command>, layers: Layers, n: nat)
    requires IsLayering(commands, layers) && n <= |layers|
    ensures OrderedSoFar(commands, Flatten(layers[..n]))
  {
    hide LessEq, Known, After, IsLayering;
    if n > 0 {
      FlattenOrdered(commands, layers, n - 1);
      assert layers[..n][..n - 1] == layers[..n - 1];
      var before, ids := Flatten(layers[..n - 1]), Ids(layers[n - 1]);
      var order := before + ids;
      forall i, j | 0 <= i < j < |order|
        ensures order[i] != order[j]
      {
        FlattenDistinct(commands, layers, n, i, j);
      }
      forall i, y | 0 <= i < |order| && order[i].Cmd? && After(commands, order[i].name, y) && Known(commands, y)
        ensures Cmd(y) in order[..i]
      {
        FlattenBehind(commands, layers, n, i, y);
      }
    }
  }

  lemma FlattenBehind(commands: seq<Command>, layers: Layers, n: nat, i: nat, y: string)
    requires IsLayering(commands, layers) && 0 < n <= |layers|
    requires OrderedSoFar(commands, Flatten(layers[..n - 1]))
    requires i < |Flatten(layers[..n - 1]) + Ids(layers[n - 1])|
    requires var order := Flatten(layers[..n - 1]) + Ids(layers[n - 1]);
      order[i].Cmd? && After(commands, order[i].name, y) && Known(commands, y)
    ensures Cmd(y) in (Flatten(layers[..n - 1]) + Ids(layers[n - 1]))[..i]
  {
    hide LessEq, Known, After, IsLayering, Flatten;
    var before, ids := Flatten(layers[..n - 1]), Ids(layers[n - 1]);
    var order := before + ids;
    if i < |before| {
      assert before[i] == order[i];
      assert order[..i] == before[..i];
    } else {
      assert order[..i] == before + ids[..i - |before|];
      EarlierListed(commands, layers, n - 1, order[i].name, y);
    }
  }

  lemma LayersDistinct(commands: seq<Command>, layers: Layers, k: int)
    requires IsLayering(commands, layers) && 0 <= k < |layers|
    ensures Distinct(layers[k])
  {
  }

  lemma OneLayer(commands: seq<Command>, layers: Layers, k: int, j: int, x: string)
    requires IsLayering(commands, layers) && InLayer(layers, k, x) && InLayer(layers, j, x)
    ensures j == k
  {
    hide IsChain;
    assert LongestChain(commands, x, k) && LongestChain(commands, x, j);
    var a :| ChainTo(commands, a, x) && |a| == k + 1;
    var b :| ChainTo(commands, b, x) && |b| == j + 1;
  }

  lemma FlattenDistinct(commands: seq<Command>, layers: Layers, n: nat, i: int, j: int)
    requires IsLayering(commands, layers) && 0 < n <= |layers|
    requires OrderedSoFar(commands, Flatten(layers[..n - 1]))
    requires 0 <= i < j < |Flatten(layers[..n - 1]) + Ids(layers[n - 1])|
    ensures var order := Flatten(layers[..n - 1]) + Ids(layers[n - 1]); order[i] != order[j]
  {
    hide LessEq, Known, After, IsLayering, Flatten;
    var before, ids := Flatten(layers[..n - 1]), Ids(layers[n - 1]);
    var order := before + ids;
    LayersDistinct(commands, layers, n - 1);
    if i >= |before| {
      assert order[i] == Cmd(layers[n - 1][i - |before|]) && order[j] == Cmd(layers[n - 1][j - |before|]);
    } else if j >= |before| {
      var x := layers[n - 1][j - |before|];
      FlattenMembers(layers[..n - 1], order[i]);
      assert order[i] in before;
      var k :| InLayer(layers[..n - 1], k, order[i].name);
      if order[i] == order[j] {
        assert InLayer(layers, n - 1, x) && InLayer(layers, k, x);
        OneLayer(commands, layers, n - 1, k, x);
      }
    }
  }

  lemma EarlierListed(commands: seq<Command>, layers: Layers, k: nat, x: string, y: string)
    requires IsLayering(commands, layers) && InLayer(layers, k, x) && After(commands, x, y) && Known(commands, y)
    ensures Cmd(y) in Flatten(layers[..k])
  {
    hide LessEq, After, Flatten;
    var j :| InLayer(layers, j, y);
    LayerBelow(commands, layers, x, k, y, j);
    assert InLayer(layers[..k], j, y);
    FlattenMembers(layers[..k], Cmd(y));
  }

  /** The layers, one after another, list the targets in dependency order. */
  lemma LayersAreDependencyOrder(commands: seq<Command>, snaps: map<string, Snapshot>, closure: set<string>, targets: TargetSet,
      g: Vertices, layers: Layers)
    requires DistinctCommands(commands) && IsBuilt(commands, snaps, closure, targets, g) && IsLayering(commands, layers)
    ensures DependencyOrder(g, Flatten(layers))
  {
    hide LessEq, DistinctCommands, IsBuilt, IsLayering, Known, After, DependsOn, Flatten;
    var order := Flatten(layers);
    FlattenOrdered(commands, layers, |layers|);
    assert layers[..|layers|] == layers;
    forall v | Target(g, v)
      ensures v in order
    {
      BuiltKeys(commands, snaps, closure, targets, g, if v.Cmd? then v.name else "");
      LayerExists(commands, layers, v.name);
      FlattenMembers(layers, v);
    }
    forall i, p | 0 <= i < |order| && DependsOn(g, order[i], p) && Target(g, p)
      ensures p in order[..i]
    {
      EdgesAreCommands(g, order[i], p);
      BuiltDependsOn(commands, snaps, closure, targets, g, order[i].name, p.name);
      BuiltKeys(commands, snaps, closure, targets, g, p.name);
    }
  }

  lemma LayerExists(commands: seq<Command>, layers: Layers, x: string)
    requires IsLayering(commands, layers) && Known(commands, x)
    ensures exists k :: InLayer(layers, k, x)
  {
  }
}
