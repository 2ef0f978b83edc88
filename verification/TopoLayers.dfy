/** Kahn's algorithm as the source runs it: in-degrees counted with multiplicity,
    one sorted layer after another. */
module TopoLayers {
  import opened Wrappers
  import opened Names
  import opened ComposeSpec
  import opened DependencyGraph

  // ---- What the two maps hold -----------------------------------------------

  /** Entries of after that name x. */
  function Occurrences(after: seq<AfterSpec>, x: string): nat {
    if after == [] then 0
    else Occurrences(after[..|after| - 1], x) + if after[|after| - 1].name == x then 1 else 0
  }

  /** Entries of after that name a command not in done. */
  function Undone(after: seq<AfterSpec>, done: set<string>): nat {
    if after == [] then 0
    else Undone(after[..|after| - 1], done) + if after[|after| - 1].name in done then 0 else 1
  }

  /** Both maps reflect the first i commands and k entries of the next. */
  ghost predicate Counted(commands: seq<Command>, i: nat, k: nat, inDegree: map<string, int>, dependents: map<string, seq<string>>)
    requires i < |commands| ==> k <= |commands[i].after|
  {
    && inDegree.Keys == Elements(NamesOf(commands))
    && (forall j {:trigger commands[j]} :: 0 <= j < |commands| ==> CountedFor(commands[j].name, Seen(commands, i, k, j), inDegree, dependents))
    && (forall x, d :: d in DependentsOf(dependents, x) ==> Known(commands, d))
  }

  ghost predicate CountedFor(name: string, seen: seq<AfterSpec>, inDegree: map<string, int>, dependents: map<string, seq<string>>) {
    && name in inDegree && inDegree[name] == |seen|
    && forall x :: multiset(DependentsOf(dependents, x))[name] == Occurrences(seen, x)
  }

  lemma CountEntry(commands: seq<Command>, i: nat, k: nat, inDegree: map<string, int>, dependents: map<string, seq<string>>)
    requires DistinctCommands(commands) && i < |commands| && k < |commands[i].after|
    requires Counted(commands, i, k, inDegree, dependents)
    ensures var c, dep := commands[i].name, commands[i].after[k].name;
      && c in inDegree
      && Counted(commands, i, k + 1, inDegree[c := inDegree[c] + 1], dependents[dep := DependentsOf(dependents, dep) + [c]])
  {
    hide Occurrences, CountedFor;
    var c, dep := commands[i].name, commands[i].after[k].name;
    assert CountedFor(c, Seen(commands, i, k, i), inDegree, dependents);
    InDegreeHas(c, Seen(commands, i, k, i), inDegree, dependents);
    var inDegree', dependents' := inDegree[c := inDegree[c] + 1], dependents[dep := DependentsOf(dependents, dep) + [c]];
    assert NamesOf(commands)[i] == c;
    forall j | 0 <= j < |commands|
      ensures CountedFor(commands[j].name, Seen(commands, i, k + 1, j), inDegree', dependents')
    {
      assert NamesOf(commands)[j] == commands[j].name;
      assert CountedFor(commands[j].name, Seen(commands, i, k, j), inDegree, dependents);
      if j == i {
        CountEntryFor(commands[i].after, k, c, inDegree, dependents);
      } else {
        assert commands[j].name != c;
        CountEntryOther(commands[j].name, Seen(commands, i, k, j), c, dep, inDegree[c] + 1, inDegree, dependents);
      }
    }
    assert inDegree'.Keys == inDegree.Keys;
    forall x, d | d in DependentsOf(dependents', x)
      ensures Known(commands, d)
    {
      assert d in DependentsOf(dependents, x) || d == c;
    }
  }

  lemma InDegreeHas(name: string, seen: seq<AfterSpec>, inDegree: map<string, int>, dependents: map<string, seq<string>>)
    requires CountedFor(name, seen, inDegree, dependents)
    ensures name in inDegree && inDegree[name] == |seen|
  {
  }

  lemma CountEntryFor(after: seq<AfterSpec>, k: nat, c: string, inDegree: map<string, int>, dependents: map<string, seq<string>>)
    requires k < |after| && CountedFor(c, after[..k], inDegree, dependents)
    ensures CountedFor(c, after[..k + 1], inDegree[c := inDegree[c] + 1],
              dependents[after[k].name := DependentsOf(dependents, after[k].name) + [c]])
  {
    assert after[..k + 1][..k] == after[..k] && after[..k + 1][k] == after[k];
    var dep := after[k].name;
    var dependents' := dependents[dep := DependentsOf(dependents, dep) + [c]];
    forall x
      ensures multiset(DependentsOf(dependents', x))[c] == Occurrences(after[..k + 1], x)
    {
      assert multiset(DependentsOf(dependents, x))[c] == Occurrences(after[..k], x);
    }
  }

  lemma CountEntryOther(name: string, seen: seq<AfterSpec>, c: string, dep: string, n: int,
      inDegree: map<string, int>, dependents: map<string, seq<string>>)
    requires CountedFor(name, seen, inDegree, dependents) && name != c
    ensures CountedFor(name, seen, inDegree[c := n], dependents[dep := DependentsOf(dependents, dep) + [c]])
  {
    hide Occurrences;
    var dependents' := dependents[dep := DependentsOf(dependents, dep) + [c]];
    forall x
      ensures multiset(DependentsOf(dependents', x))[name] == Occurrences(seen, x)
    {
      assert multiset(DependentsOf(dependents, x))[name] == Occurrences(seen, x);
    }
  }

  lemma CountNext(commands: seq<Command>, i: nat, inDegree: map<string, int>, dependents: map<string, seq<string>>)
    requires i < |commands| && Counted(commands, i, |commands[i].after|, inDegree, dependents)
    ensures Counted(commands, i + 1, 0, inDegree, dependents)
  {
    forall j | 0 <= j < |commands|
      ensures Seen(commands, i + 1, 0, j) == Seen(commands, i, |commands[i].after|, j)
    {
    }
  }

  method Count(commands: seq<Command>)
    returns (err: Option<GraphError>, inDegree: map<string, int>, dependents: map<string, seq<string>>)
    requires DistinctCommands(commands)
    ensures err.None? <==> AllKnown(commands)
    ensures err.None? ==> Counted(commands, |commands|, 0, inDegree, dependents)
    ensures err.Some? ==> IsUnknownDependency(commands, err.value)
  {
    hide Occurrences, DistinctCommands, Counted;
    inDegree, dependents := map x | x in NamesOf(commands) :: 0, map[];
    CountNone(commands, inDegree);
    for i := 0 to |commands|
      invariant Counted(commands, i, 0, inDegree, dependents)
      invariant forall j :: 0 <= j < i ==> EntriesKnown(commands, commands[j].after, |commands[j].after|)
    {
      var c := commands[i];
      for k := 0 to |c.after|
        invariant Counted(commands, i, k, inDegree, dependents)
        invariant EntriesKnown(commands, c.after, k)
      {
        var dep := c.after[k].name;
        if dep !in NamesOf(commands) {
          return Some(UnknownDependency(c.name, dep)), inDegree, dependents;
        }
        CountEntry(commands, i, k, inDegree, dependents);
        inDegree := inDegree[c.name := inDegree[c.name] + 1];
        dependents := dependents[dep := DependentsOf(dependents, dep) + [c.name]];
      }
      CountNext(commands, i, inDegree, dependents);
    }
    err := None;
  }

  predicate EntriesKnown(commands: seq<Command>, after: seq<AfterSpec>, n: nat)
    requires n <= |after|
  {
    forall k :: 0 <= k < n ==> Known(commands, after[k].name)
  }

  lemma CountNone(commands: seq<Command>, inDegree: map<string, int>)
    requires inDegree == map x | x in NamesOf(commands) :: 0
    ensures Counted(commands, 0, 0, inDegree, map[])
  {
    forall j | 0 <= j < |commands|
      ensures CountedFor(commands[j].name, Seen(commands, 0, 0, j), inDegree, map[])
    {
      assert NamesOf(commands)[j] == commands[j].name;
      assert Seen(commands, 0, 0, j) == [];
    }
  }

  /** Some command names a dependency that does not exist. */
  ghost predicate IsUnknownDependency(commands: seq<Command>, e: GraphError) {
    && e.UnknownDependency?
    && !Known(commands, e.dep)
    && exists c :: c in commands && c.name == e.command && DependsOnName(c, e.dep)
  }

  // ---- Removing layers ------------------------------------------------------

  function Degree(c: Command, done: set<string>): int {
    if c.name in done then -1 else Undone(c.after, done)
  }

  /** inDegree counts the entries that name commands not in done; -1 marks the
      commands in done, whose dependencies are in done as well. */
  ghost predicate Degrees(commands: seq<Command>, done: set<string>, inDegree: map<string, int>) {
    && inDegree.Keys == Elements(NamesOf(commands))
    && done <= inDegree.Keys
    && forall j {:trigger commands[j]} :: 0 <= j < |commands| ==>
         && commands[j].name in inDegree
         && inDegree[commands[j].name] == Degree(commands[j], done)
         && (commands[j].name in done ==> Undone(commands[j].after, done) == 0)
  }

  lemma {:induction false} UndoneNone(after: seq<AfterSpec>)
    ensures Undone(after, {}) == |after|
  {
    if after != [] {
      UndoneNone(after[..|after| - 1]);
    }
  }

  lemma {:induction false} UndoneZero(after: seq<AfterSpec>, done: set<string>)
    ensures Undone(after, done) == 0 <==> forall i :: 0 <= i < |after| ==> after[i].name in done
  {
    if after != [] {
      UndoneZero(after[..|after| - 1], done);
    }
  }

  lemma {:induction false} UndoneLess(after: seq<AfterSpec>, done: set<string>, x: string)
    requires x !in done
    ensures Undone(after, done + {x}) + Occurrences(after, x) == Undone(after, done)
  {
    if after != [] {
      UndoneLess(after[..|after| - 1], done, x);
    }
  }

  lemma CountedDegrees(commands: seq<Command>, inDegree: map<string, int>, dependents: map<string, seq<string>>)
    requires Counted(commands, |commands|, 0, inDegree, dependents)
    ensures Degrees(commands, {}, inDegree)
  {
    forall j | 0 <= j < |commands|
      ensures commands[j].name in inDegree && inDegree[commands[j].name] == Degree(commands[j], {})
    {
      assert CountedFor(commands[j].name, Seen(commands, |commands|, 0, j), inDegree, dependents);
      UndoneNone(commands[j].after);
    }
  }

  lemma ReadyIffZero(commands: seq<Command>, done: set<string>, inDegree: map<string, int>, j: nat)
    requires DistinctCommands(commands) && Degrees(commands, done, inDegree) && j < |commands|
    ensures commands[j].name in inDegree
    ensures commands[j].name in Ready(commands, done) <==> inDegree[commands[j].name] == 0
  {
    hide Undone, LessEq;
    var c := commands[j];
    assert c in commands;
    FindUnique(commands, c);
    UndoneZero(c.after, done);
    if Satisfied(commands, c.name, done) {
      forall i | 0 <= i < |c.after|
        ensures c.after[i].name in done
      {
        assert DependsOnName(c, c.after[i].name);
        assert After(commands, c.name, c.after[i].name);
      }
    }
  }

  ghost predicate IsCollected(commands: seq<Command>, picked: seq<string>, inDegree: map<string, int>, positive: bool) {
    && Distinct(picked)
    && forall x :: x in picked <==> x in inDegree && if positive then inDegree[x] > 0 else inDegree[x] == 0
  }

  /** The names with a zero, or a positive, in-degree, in the order of commands. */
  method Collect(commands: seq<Command>, inDegree: map<string, int>, positive: bool) returns (picked: seq<string>)
    requires DistinctCommands(commands) && inDegree.Keys == Elements(NamesOf(commands))
    ensures IsCollected(commands, picked, inDegree, positive)
  {
    picked := [];
    for i := 0 to |commands|
      invariant Distinct(picked)
      invariant forall x :: x in picked <==>
                  x in NamesOf(commands)[..i] && x in inDegree && if positive then inDegree[x] > 0 else inDegree[x] == 0
    {
      var name := commands[i].name;
      assert NamesOf(commands)[i] == name;
      assert name !in NamesOf(commands)[..i];
      assert NamesOf(commands)[..i + 1] == NamesOf(commands)[..i] + [name];
      if (positive && inDegree[name] > 0) || (!positive && inDegree[name] == 0) {
        picked := picked + [name];
      }
    }
    assert NamesOf(commands)[..|commands|] == NamesOf(commands);
  }

  /** In-degrees once name is done and n of its dependents entries are handled. */
  ghost predicate Removing(commands: seq<Command>, done: set<string>, name: string, handled: seq<string>, inDegree: map<string, int>) {
    && inDegree.Keys == Elements(NamesOf(commands))
    && forall j {:trigger commands[j]} :: 0 <= j < |commands| ==>
         && commands[j].name in inDegree
         && inDegree[commands[j].name] ==
              (if commands[j].name == name then -1 else Degree(commands[j], done)) - multiset(handled)[commands[j].name]
  }

  lemma RemoveStart(commands: seq<Command>, done: set<string>, name: string, inDegree: map<string, int>)
    requires Degrees(commands, done, inDegree) && Known(commands, name)
    ensures Removing(commands, done, name, [], inDegree[name := -1])
  {
    hide Undone, Degree;
  }

  lemma RemoveMore(commands: seq<Command>, done: set<string>, name: string, handled: seq<string>, dep: string, inDegree: map<string, int>)
    requires DistinctCommands(commands) && Removing(commands, done, name, handled, inDegree) && Known(commands, dep)
    ensures dep in inDegree && Removing(commands, done, name, handled + [dep], inDegree[dep := inDegree[dep] - 1])
  {
    hide Undone, Degree;
  }

  lemma RemoveEnd(commands: seq<Command>, done: set<string>, name: string, was: map<string, int>,
      inDegree: map<string, int>, counted: map<string, int>, dependents: map<string, seq<string>>)
    requires DistinctCommands(commands) && Degrees(commands, done, was) && name in was && was[name] == 0
    requires Counted(commands, |commands|, 0, counted, dependents)
    requires Removing(commands, done, name, DependentsOf(dependents, name), inDegree)
    ensures Degrees(commands, done + {name}, inDegree)
  {
    hide LessEq, Occurrences, Undone;
    assert name !in done by {
      assert name in NamesOf(commands);
      var i :| 0 <= i < |commands| && NamesOf(commands)[i] == name;
      assert was[commands[i].name] == Degree(commands[i], done);
    }
    forall j | 0 <= j < |commands|
      ensures inDegree[commands[j].name] == Degree(commands[j], done + {name})
      ensures commands[j].name in done + {name} ==> Undone(commands[j].after, done + {name}) == 0
    {
      var c := commands[j];
      assert CountedFor(c.name, Seen(commands, |commands|, 0, j), counted, dependents);
      assert multiset(DependentsOf(dependents, name))[c.name] == Occurrences(c.after, name);
      UndoneLess(c.after, done, name);
      assert was[c.name] == Degree(c, done);
    }
  }

  method RemoveName(commands: seq<Command>, ghost done: set<string>, name: string, was: map<string, int>,
      ghost counted: map<string, int>, dependents: map<string, seq<string>>) returns (inDegree: map<string, int>)
    requires DistinctCommands(commands) && Degrees(commands, done, was) && name in was && was[name] == 0
    requires Counted(commands, |commands|, 0, counted, dependents)
    ensures Degrees(commands, done + {name}, inDegree)
  {
    hide DistinctCommands, Removing, CountedFor, Degree;
    inDegree := was[name := -1];
    RemoveStart(commands, done, name, was);
    var deps := DependentsOf(dependents, name);
    for t := 0 to |deps|
      invariant Removing(commands, done, name, deps[..t], inDegree)
    {
      assert deps[t] in DependentsOf(dependents, name);
      RemoveMore(commands, done, name, deps[..t], deps[t], inDegree);
      assert deps[..t + 1] == deps[..t] + [deps[t]];
      inDegree := inDegree[deps[t] := inDegree[deps[t]] - 1];
    }
    assert deps[..|deps|] == deps;
    RemoveEnd(commands, done, name, was, inDegree, counted, dependents);
  }

  // ---- The algorithm --------------------------------------------------------

  lemma CollectedIsReady(commands: seq<Command>, done: set<string>, inDegree: map<string, int>, picked: seq<string>)
    requires DistinctCommands(commands) && Degrees(commands, done, inDegree)
    requires IsCollected(commands, picked, inDegree, false)
    ensures Elements(picked) == Ready(commands, done)
  {
    hide LessEq, Undone, Degree, Satisfied, DistinctCommands, Distinct;
    forall x
      ensures x in picked <==> x in Ready(commands, done)
    {
      if x in NamesOf(commands) {
        var j :| 0 <= j < |commands| && NamesOf(commands)[j] == x;
        ReadyIffZero(commands, done, inDegree, j);
      }
    }
  }

  lemma CollectedIsStuck(commands: seq<Command>, done: set<string>, inDegree: map<string, int>, picked: seq<string>)
    requires DistinctCommands(commands) && AllKnown(commands) && Degrees(commands, done, inDegree)
    requires IsCollected(commands, picked, inDegree, true) && Ready(commands, done) == {}
    requires done != Elements(NamesOf(commands))
    ensures Elements(picked) == Elements(NamesOf(commands)) - done
    ensures Trapped(commands, Elements(picked))
  {
    hide LessEq, Undone, Distinct, Ready, Known, After, AllKnown, DistinctCommands, HeldBack, Degree;
    var names := Elements(NamesOf(commands));
    forall x
      ensures x in picked <==> x in names - done
      ensures x in names - done ==> HeldBack(commands, names - done, x)
    {
      if x in names {
        assert x in NamesOf(commands);
        var j :| 0 <= j < |commands| && NamesOf(commands)[j] == x;
        StuckOne(commands, done, inDegree, j);
      }
    }
    assert Elements(picked) == names - done;
    assert names - done != {};
  }

  lemma StuckOne(commands: seq<Command>, done: set<string>, inDegree: map<string, int>, j: nat)
    requires DistinctCommands(commands) && AllKnown(commands) && Degrees(commands, done, inDegree) && j < |commands|
    requires Ready(commands, done) == {}
    ensures commands[j].name in inDegree
    ensures inDegree[commands[j].name] > 0 <==> commands[j].name !in done
    ensures commands[j].name !in done ==> HeldBack(commands, Elements(NamesOf(commands)) - done, commands[j].name)
  {
    hide Undone, LessEq;
    var c := commands[j];
    ReadyIffZero(commands, done, inDegree, j);
    assert c in commands;
    FindUnique(commands, c);
    UndoneZero(c.after, done);
    if c.name !in done {
      var i :| 0 <= i < |c.after| && c.after[i].name !in done;
      assert DependsOnName(c, c.after[i].name);
      assert After(commands, c.name, c.after[i].name);
      assert Known(commands, c.after[i].name);
    }
  }

  lemma NamesSize(commands: seq<Command>, done: set<string>)
    requires DistinctCommands(commands) && done <= Elements(NamesOf(commands))
    ensures |done| <= |commands|
    ensures |done| == |commands| <==> done == Elements(NamesOf(commands))
  {
    hide LessEq;
    DistinctSize(NamesOf(commands));
    var names := Elements(NamesOf(commands));
    var rest := names - done;
    assert names == done + rest;
    assert |names| == |done| + |rest|;
  }

  lemma AppendLayer(commands: seq<Command>, layers: Layers, layer: seq<string>)
    requires LayersSoFar(commands, layers)
    requires IsLayer(commands, layer, Union(layers))
    ensures LayersSoFar(commands, layers + [layer])
    ensures Union(layers + [layer]) == Union(layers) + Elements(layer)
  {
    hide IsLayer;
    var longer := layers + [layer];
    assert longer[..|longer| - 1] == layers;
    forall k | 0 <= k < |longer|
      ensures IsLayer(commands, longer[k], Union(longer[..k]))
    {
      if k < |layers| {
        assert longer[k] == layers[k] && longer[..k] == layers[..k];
      } else {
        assert longer[..k] == layers;
      }
    }
  }

  /** Handles one sorted layer: its members leave the graph one by one. */
  method RemoveLayer(commands: seq<Command>, ghost done: set<string>, layer: seq<string>, was: map<string, int>,
      ghost counted: map<string, int>, dependents: map<string, seq<string>>, before: int)
    returns (inDegree: map<string, int>, remaining: int)
    requires DistinctCommands(commands) && Degrees(commands, done, was)
    requires Counted(commands, |commands|, 0, counted, dependents)
    requires Distinct(layer) && forall x :: x in layer ==> x in was && was[x] == 0 && x in Ready(commands, done)
    ensures Degrees(commands, done + Elements(layer), inDegree)
    ensures remaining == before - |layer|
  {
    hide Counted, DistinctCommands, Degrees, LessEq, Ready;
    inDegree, remaining := was, before;
    assert done + Elements(layer[..0]) == done;
    for t := 0 to |layer|
      invariant Degrees(commands, done + Elements(layer[..t]), inDegree)
      invariant remaining == before - t
    {
      var gone := done + Elements(layer[..t]);
      ZeroStays(commands, done, Elements(layer[..t]), layer[t], inDegree);
      inDegree := RemoveName(commands, gone, layer[t], inDegree, counted, dependents);
      remaining := remaining - 1;
      assert layer[..t + 1] == layer[..t] + [layer[t]];
      assert done + Elements(layer[..t + 1]) == gone + {layer[t]};
    }
    assert layer[..|layer|] == layer;
  }

  /** A command ready before some others were removed has in-degree zero still. */
  lemma ZeroStays(commands: seq<Command>, done: set<string>, more: set<string>, x: string, inDegree: map<string, int>)
    requires DistinctCommands(commands) && Degrees(commands, done + more, inDegree)
    requires x in Ready(commands, done) && x !in more
    ensures x in inDegree && inDegree[x] == 0
  {
    hide LessEq;
    var j :| 0 <= j < |commands| && NamesOf(commands)[j] == x;
    ReadyIffZero(commands, done + more, inDegree, j);
    assert Satisfied(commands, x, done + more);
  }

  /** topoLayers: the layering exists exactly when every dependency is known and
      no dependency cycle exists. The two errors tell which of these fails, and
      the commands a cycle error lists are those that can never become ready. */
  method TopoLayers(commands: seq<Command>) returns (r: Result<Layers, GraphError>)
    requires DistinctCommands(commands)
    ensures r.Ok? <==> AllKnown(commands) && Acyclic(commands)
    ensures r.Ok? ==> IsLayering(commands, r.value)
    ensures r.Err? && r.error.UnknownDependency? <==> !AllKnown(commands)
    ensures r.Err? && r.error.UnknownDependency? ==> IsUnknownDependency(commands, r.error)
    ensures r.Err? && r.error.DependencyCycle? ==>
              && Sorted(r.error.stuck) && Trapped(commands, Elements(r.error.stuck))
              && forall x :: x in r.error.stuck <==> Unbounded(commands, x)
  {
    hide Counted, DistinctCommands, Degrees, Ready, LessEq, Unbounded, LayersSoFar, IsCollected, AllKnown, Acyclic, Trapped, Union, Distinct, Sorted, IsLayering;
    if |commands| == 0 {
      NoCommands(commands);
      return Ok([]);
    }
    var err, inDegree, dependents := Count(commands);
    if err.Some? {
      return Err(err.value);
    }
    ghost var counted := inDegree;
    CountedDegrees(commands, inDegree, dependents);
    var layers: Layers := [];
    NoLayers(commands);
    var remaining := |commands|;
    while remaining > 0
      invariant Degrees(commands, Union(layers), inDegree)
      invariant LayersSoFar(commands, layers)
      invariant remaining == |commands| - |Union(layers)|
    {
      ghost var done := Union(layers);
      DoneKnown(commands, done, inDegree);
      var layer := Collect(commands, inDegree, false);
      CollectedIsReady(commands, done, inDegree, layer);
      if |layer| == 0 {
        var stuck := Collect(commands, inDegree, true);
        CycleFound(commands, layers, inDegree, stuck);
        return Err(DependencyCycle(Sort(stuck)));
      }
      var sorted := LayerReadyToGo(commands, layer, inDegree);
      inDegree, remaining := RemoveLayer(commands, done, sorted, inDegree, counted, dependents, remaining);
      AppendLayer(commands, layers, sorted);
      LayerGrows(commands, done, sorted);
      layers := layers + [sorted];
    }
    DoneKnown(commands, Union(layers), inDegree);
    NamesSize(commands, Union(layers));
    LayersAreLayering(commands, layers);
    LayeringMeansAcyclic(commands, layers);
    return Ok(layers);
  }

  lemma NoCommands(commands: seq<Command>)
    requires commands == []
    ensures AllKnown(commands) && IsLayering(commands, []) && Acyclic(commands)
  {
    forall path | IsCycle(commands, path)
      ensures Known(commands, path[0])
    {
    }
  }

  lemma NoLayers(commands: seq<Command>)
    ensures LayersSoFar(commands, []) && Union([]) == {}
  {
  }

  lemma DoneKnown(commands: seq<Command>, done: set<string>, inDegree: map<string, int>)
    requires Degrees(commands, done, inDegree)
    ensures done <= Elements(NamesOf(commands)) && inDegree.Keys == Elements(NamesOf(commands))
  {
  }

  lemma LayerGrows(commands: seq<Command>, done: set<string>, layer: seq<string>)
    requires Elements(layer) == Ready(commands, done) && Distinct(layer)
    ensures |done + Elements(layer)| == |done| + |layer|
  {
    DistinctSize(layer);
    assert done !! Elements(layer);
  }

  method LayerReadyToGo(commands: seq<Command>, layer: seq<string>, inDegree: map<string, int>) returns (sorted: seq<string>)
    requires IsCollected(commands, layer, inDegree, false)
    ensures sorted == Sort(layer) && Sorted(sorted) && Distinct(sorted)
    ensures Elements(sorted) == Elements(layer) && |sorted| == |layer|
    ensures forall x :: x in sorted ==> x in inDegree && inDegree[x] == 0
  {
    hide LessEq;
    SortDistinct(layer);
    sorted := Sort(layer);
    assert forall x :: x in sorted ==> x in Elements(layer);
  }

  lemma CycleFound(commands: seq<Command>, layers: Layers, inDegree: map<string, int>, stuck: seq<string>)
    requires DistinctCommands(commands) && AllKnown(commands) && Degrees(commands, Union(layers), inDegree)
    requires LayersSoFar(commands, layers) && Ready(commands, Union(layers)) == {}
    requires |Union(layers)| < |commands| && IsCollected(commands, stuck, inDegree, true)
    ensures Sorted(Sort(stuck)) && Trapped(commands, Elements(Sort(stuck))) && !Acyclic(commands)
    ensures forall x :: x in Sort(stuck) <==> Unbounded(commands, x)
  {
    hide LessEq, Counted, DistinctCommands, AllKnown, Ready, Unbounded, LayersSoFar, IsCycle, Trapped;
    var done := Union(layers);
    DoneKnown(commands, done, inDegree);
    NamesSize(commands, done);
    CollectedIsStuck(commands, done, inDegree, stuck);
    SortDistinct(stuck);
    var s := Elements(Sort(stuck));
    assert Elements(NamesOf(commands)) == done + s;
    var cycle := TrappedMeansCycle(commands, s);
    assert IsCycle(commands, cycle);
    forall x
      ensures x in Sort(stuck) <==> Unbounded(commands, x)
    {
      StuckAreUnbounded(commands, layers, s, x);
      assert x in Sort(stuck) <==> x in s;
    }
  }

  /** The error of a dependency graph that cannot be walked; none when it can. */
  method ValidateDAG(commands: seq<Command>) returns (err: Option<GraphError>)
    requires DistinctCommands(commands)
    ensures err.None? <==> AllKnown(commands) && Acyclic(commands)
    ensures err.Some? && err.value.UnknownDependency? ==> IsUnknownDependency(commands, err.value)
    ensures err.Some? && err.value.DependencyCycle? ==> AllKnown(commands) && Trapped(commands, Elements(err.value.stuck))
  {
    hide DistinctCommands, AllKnown, Acyclic, Trapped, IsLayering, Unbounded, LessEq;
    for i := 0 to |commands|
      invariant forall j :: 0 <= j < i ==> EntriesKnown(commands, commands[j].after, |commands[j].after|)
    {
      for k := 0 to |commands[i].after|
        invariant EntriesKnown(commands, commands[i].after, k)
      {
        var dep := commands[i].after[k].name;
        if dep !in NamesOf(commands) {
          UnknownEntry(commands, i, k);
          return Some(UnknownDependency(commands[i].name, dep));
        }
      }
    }
    var r := TopoLayers(commands);
    if r.Err? {
      return Some(r.error);
    }
    return None;
  }

  lemma UnknownEntry(commands: seq<Command>, i: nat, k: nat)
    requires i < |commands| && k < |commands[i].after| && !Known(commands, commands[i].after[k].name)
    ensures !AllKnown(commands)
    ensures IsUnknownDependency(commands, UnknownDependency(commands[i].name, commands[i].after[k].name))
  {
    assert commands[i] in commands;
    assert DependsOnName(commands[i], commands[i].after[k].name);
  }

  lemma ReorderedFind(a: seq<Command>, b: seq<Command>, x: string)
    requires DistinctCommands(a) && DistinctCommands(b) && multiset(a) == multiset(b) && Known(a, x)
    ensures Known(b, x) && Find(b, x) == Find(a, x)
  {
    hide LessEq;
    var c := Find(a, x);
    assert c in multiset(a);
    assert c in multiset(b);
    assert c in b;
    FindUnique(b, c);
  }

  /** The layers do not depend on the order of the commands. */
  lemma LayersIgnoreOrder(a: seq<Command>, la: Layers, b: seq<Command>, lb: Layers)
    requires DistinctCommands(a) && DistinctCommands(b) && multiset(a) == multiset(b)
    requires IsLayering(a, la) && IsLayering(b, lb)
    ensures la == lb
  {
    hide IsLayering, DistinctCommands, DependsOnName;
    forall x
      ensures Known(a, x) <==> Known(b, x)
      ensures Known(a, x) ==> Find(a, x) == Find(b, x)
    {
      if Known(a, x) {
        ReorderedFind(a, b, x);
      }
      if Known(b, x) {
        ReorderedFind(b, a, x);
      }
    }
    LayeringUnique(a, la, b, lb);
  }
}
