/** The set of commands an operation works on: the named ones with everything
    they depend on (start), or with everything that depends on them (stop). */
module Closures {
  import opened Names
  import opened ComposeSpec
  import opened DependencyGraph

  datatype Sense = Dependencies | Dependents

  /** An operation on x pulls y in. */
  ghost predicate Pulls(commands: seq<Command>, sense: Sense, x: string, y: string) {
    && Known(commands, x) && Known(commands, y)
    && if sense == Dependencies then After(commands, x, y) else After(commands, y, x)
  }

  ghost predicate Closed(commands: seq<Command>, sense: Sense, s: set<string>) {
    forall x, y {:trigger Pulls(commands, sense, x, y)} :: x in s && Pulls(commands, sense, x, y) ==> y in s
  }

  ghost predicate HasSeeds(commands: seq<Command>, seeds: seq<string>, s: set<string>) {
    forall n :: n in seeds && Known(commands, n) ==> n in s
  }

  /** The least set of commands with the known seeds that is closed. */
  ghost predicate IsClosure(commands: seq<Command>, sense: Sense, seeds: seq<string>, s: set<string>) {
    && (forall x :: x in s ==> Known(commands, x))
    && HasSeeds(commands, seeds, s) && Closed(commands, sense, s)
    && forall t {:trigger Closed(commands, sense, t)} :: HasSeeds(commands, seeds, t) && Closed(commands, sense, t) ==> s <= t
  }

  // ---- The dependents map ---------------------------------------------------

  predicate NamedIn(after: seq<AfterSpec>, x: string) {
    exists i :: 0 <= i < |after| && after[i].name == x
  }

  ghost predicate ListedSoFar(commands: seq<Command>, i: nat, k: nat, dependents: map<string, seq<string>>)
    requires i <= |commands| && (i < |commands| ==> k <= |commands[i].after|)
  {
    forall x, y {:trigger x in DependentsOf(dependents, y)} :: x in DependentsOf(dependents, y) <==>
      || (exists j :: 0 <= j < i && commands[j].name == x && NamedIn(commands[j].after, y))
      || (i < |commands| && commands[i].name == x && NamedIn(commands[i].after[..k], y))
  }

  lemma ListEntry(commands: seq<Command>, i: nat, k: nat, dependents: map<string, seq<string>>)
    requires i < |commands| && k < |commands[i].after| && ListedSoFar(commands, i, k, dependents)
    ensures var dep := commands[i].after[k].name;
      ListedSoFar(commands, i, k + 1, dependents[dep := DependentsOf(dependents, dep) + [commands[i].name]])
  {
    var dep, c := commands[i].after[k].name, commands[i].name;
    var dependents' := dependents[dep := DependentsOf(dependents, dep) + [c]];
    var was, now := commands[i].after[..k], commands[i].after[..k + 1];
    forall y
      ensures NamedIn(now, y) <==> NamedIn(was, y) || y == dep
    {
      if NamedIn(was, y) {
        var e :| 0 <= e < |was| && was[e].name == y;
        assert now[e].name == y;
      }
      assert now[k].name == dep;
    }
    forall x, y
      ensures x in DependentsOf(dependents', y) <==> x in DependentsOf(dependents, y) || (y == dep && x == c)
    {
    }
  }

  lemma ListNext(commands: seq<Command>, i: nat, dependents: map<string, seq<string>>)
    requires i < |commands| && ListedSoFar(commands, i, |commands[i].after|, dependents)
    ensures ListedSoFar(commands, i + 1, 0, dependents)
  {
    assert commands[i].after[..|commands[i].after|] == commands[i].after;
    if i + 1 < |commands| {
      assert commands[i + 1].after[..0] == [];
    }
  }

  method BuildDependents(commands: seq<Command>) returns (dependents: map<string, seq<string>>)
    requires DistinctCommands(commands)
    ensures forall x, y :: x in DependentsOf(dependents, y) <==> After(commands, x, y)
  {
    hide ListedSoFar, DistinctCommands;
    dependents := map[];
    assert ListedSoFar(commands, 0, 0, dependents) by {
      NothingListed(commands, dependents);
    }
    for i := 0 to |commands|
      invariant ListedSoFar(commands, i, 0, dependents)
    {
      for k := 0 to |commands[i].after|
        invariant ListedSoFar(commands, i, k, dependents)
      {
        ListEntry(commands, i, k, dependents);
        var dep := commands[i].after[k].name;
        dependents := dependents[dep := DependentsOf(dependents, dep) + [commands[i].name]];
      }
      ListNext(commands, i, dependents);
    }
    AllListed(commands, dependents);
  }

  lemma NothingListed(commands: seq<Command>, dependents: map<string, seq<string>>)
    requires dependents == map[]
    ensures ListedSoFar(commands, 0, 0, dependents)
  {
  }

  lemma AllListed(commands: seq<Command>, dependents: map<string, seq<string>>)
    requires DistinctCommands(commands) && ListedSoFar(commands, |commands|, 0, dependents)
    ensures forall x, y :: x in DependentsOf(dependents, y) <==> After(commands, x, y)
  {
    hide LessEq, Distinct;
    forall x, y
      ensures x in DependentsOf(dependents, y) <==> After(commands, x, y)
    {
      if x in DependentsOf(dependents, y) {
        var j :| 0 <= j < |commands| && commands[j].name == x && NamedIn(commands[j].after, y);
        assert commands[j] in commands;
        FindUnique(commands, commands[j]);
      }
      if After(commands, x, y) {
        var j :| 0 <= j < |commands| && commands[j] == Find(commands, x);
        assert NamedIn(commands[j].after, y);
      }
    }
  }

  // ---- The search -----------------------------------------------------------

  function AfterNames(after: seq<AfterSpec>): seq<string> {
    seq(|after|, i requires 0 <= i < |after| => after[i].name)
  }

  /** What the search visits from a known command n. */
  function Successors(commands: seq<Command>, sense: Sense, dependents: map<string, seq<string>>, n: string): seq<string>
    requires Known(commands, n)
  {
    if sense == Dependencies then AfterNames(Find(commands, n).after) else DependentsOf(dependents, n)
  }

  ghost predicate SuccessorsPull(commands: seq<Command>, sense: Sense, dependents: map<string, seq<string>>) {
    forall x, y {:trigger Pulls(commands, sense, x, y)} :: Known(commands, x) && Known(commands, y) ==>
      (Pulls(commands, sense, x, y) <==> y in Successors(commands, sense, dependents, x))
  }

  lemma DependenciesPull(commands: seq<Command>)
    ensures SuccessorsPull(commands, Dependencies, map[])
  {
    forall x, y | Known(commands, x) && Known(commands, y)
      ensures Pulls(commands, Dependencies, x, y) <==> y in AfterNames(Find(commands, x).after)
    {
      var after := Find(commands, x).after;
      if i :| 0 <= i < |after| && after[i].name == y {
        assert AfterNames(after)[i] == y;
      }
    }
  }

  /** Everything added lies within each closed set that holds the start, and what
      it pulls in is there too, so only vertices of the call stack are open. */
  ghost predicate Extends(commands: seq<Command>, sense: Sense, before: set<string>, after: set<string>) {
    && before <= after <= Elements(NamesOf(commands))
    && forall x, y {:trigger Pulls(commands, sense, x, y)} :: x in after - before && Pulls(commands, sense, x, y) ==> y in after
  }

  ghost predicate Forced(commands: seq<Command>, sense: Sense, starts: seq<string>, added: set<string>) {
    forall t {:trigger Closed(commands, sense, t)} :: HasSeeds(commands, starts, t) && Closed(commands, sense, t) ==> added <= t
  }

  lemma ForcedMore(commands: seq<Command>, sense: Sense, starts: seq<string>, n: string, was: set<string>, more: set<string>)
    requires Forced(commands, sense, starts, was) && Forced(commands, sense, [n], more)
    ensures Forced(commands, sense, starts + [n], was + more)
  {
    forall t | HasSeeds(commands, starts + [n], t) && Closed(commands, sense, t)
      ensures was + more <= t
    {
      assert HasSeeds(commands, starts, t) && HasSeeds(commands, [n], t);
    }
  }

  lemma ExtendsMore(commands: seq<Command>, sense: Sense, a: set<string>, b: set<string>, c: set<string>)
    requires Extends(commands, sense, a, b) && Extends(commands, sense, b, c)
    ensures Extends(commands, sense, a, c)
  {
  }

  /** Visiting the successors of n closes n as well. */
  lemma VisitCloses(commands: seq<Command>, sense: Sense, dependents: map<string, seq<string>>, n: string,
      before: set<string>, after: set<string>)
    requires SuccessorsPull(commands, sense, dependents) && Known(commands, n) && n !in before
    requires before <= Elements(NamesOf(commands))
    requires Extends(commands, sense, before + {n}, after)
    requires HasSeeds(commands, Successors(commands, sense, dependents, n), after)
    requires Forced(commands, sense, Successors(commands, sense, dependents, n), after - before - {n})
    ensures Extends(commands, sense, before, after) && Forced(commands, sense, [n], after - before)
  {
    hide Successors, After;
    forall t | HasSeeds(commands, [n], t) && Closed(commands, sense, t)
      ensures after - before <= t
    {
      assert n in [n];
      forall y | y in Successors(commands, sense, dependents, n) && Known(commands, y)
        ensures y in t
      {
        assert Pulls(commands, sense, n, y);
      }
      assert HasSeeds(commands, Successors(commands, sense, dependents, n), t);
    }
  }

  /** Depth-first search from n; a name already in target, or unknown, is skipped,
      so the search ends on cyclic graphs as well. */
  method Walk(commands: seq<Command>, sense: Sense, dependents: map<string, seq<string>>, n: string, target: set<string>)
    returns (grown: set<string>)
    requires SuccessorsPull(commands, sense, dependents) && target <= Elements(NamesOf(commands))
    ensures Extends(commands, sense, target, grown)
    ensures HasSeeds(commands, [n], grown)
    ensures Forced(commands, sense, [n], grown - target)
    decreases Elements(NamesOf(commands)) - target, 1, 0
  {
    hide Successors, After;
    if n in target || n !in NamesOf(commands) {
      return target;
    }
    var next := Successors(commands, sense, dependents, n);
    grown := WalkAll(commands, sense, dependents, next, target + {n});
    VisitCloses(commands, sense, dependents, n, target, grown);
  }

  method WalkAll(commands: seq<Command>, sense: Sense, dependents: map<string, seq<string>>, starts: seq<string>, target: set<string>)
    returns (grown: set<string>)
    requires SuccessorsPull(commands, sense, dependents) && target <= Elements(NamesOf(commands))
    ensures Extends(commands, sense, target, grown)
    ensures HasSeeds(commands, starts, grown)
    ensures Forced(commands, sense, starts, grown - target)
    decreases Elements(NamesOf(commands)) - target, 2, 0
  {
    hide SuccessorsPull, Extends, Forced, HasSeeds;
    grown := target;
    NothingVisited(commands, sense, target);
    assert starts[..0] == [] && target - target == {};
    for i := 0 to |starts|
      invariant target <= grown <= Elements(NamesOf(commands))
      invariant Extends(commands, sense, target, grown)
      invariant HasSeeds(commands, starts[..i], grown)
      invariant Forced(commands, sense, starts[..i], grown - target)
    {
      var more := Walk(commands, sense, dependents, starts[i], grown);
      ExtendsMore(commands, sense, target, grown, more);
      ForcedMore(commands, sense, starts[..i], starts[i], grown - target, more - grown);
      SeedsMore(commands, sense, starts[..i], starts[i], grown, more);
      assert starts[..i + 1] == starts[..i] + [starts[i]];
      assert (grown - target) + (more - grown) == more - target by {
        ExtendsGrows(commands, sense, grown, more);
      }
      ExtendsGrows(commands, sense, target, more);
      grown := more;
    }
    assert starts[..|starts|] == starts;
  }

  lemma NothingVisited(commands: seq<Command>, sense: Sense, target: set<string>)
    requires target <= Elements(NamesOf(commands))
    ensures Extends(commands, sense, target, target) && HasSeeds(commands, [], target) && Forced(commands, sense, [], {})
  {
  }

  lemma ExtendsGrows(commands: seq<Command>, sense: Sense, before: set<string>, after: set<string>)
    requires Extends(commands, sense, before, after)
    ensures before <= after <= Elements(NamesOf(commands))
  {
  }

  lemma SeedsMore(commands: seq<Command>, sense: Sense, starts: seq<string>, n: string, before: set<string>, after: set<string>)
    requires HasSeeds(commands, starts, before) && HasSeeds(commands, [n], after) && Extends(commands, sense, before, after)
    ensures HasSeeds(commands, starts + [n], after)
  {
    forall x | x in starts + [n] && Known(commands, x)
      ensures x in after
    {
      assert x in starts || x in [n];
    }
  }

  lemma SearchIsClosure(commands: seq<Command>, sense: Sense, names: seq<string>, grown: set<string>)
    requires Extends(commands, sense, {}, grown) && HasSeeds(commands, names, grown) && Forced(commands, sense, names, grown - {})
    ensures IsClosure(commands, sense, names, grown)
  {
    assert grown - {} == grown;
  }

  lemma EverythingIsClosure(commands: seq<Command>, sense: Sense)
    ensures IsClosure(commands, sense, NamesOf(commands), Elements(NamesOf(commands)))
  {
    hide After;
  }

  /** The names an operation starts from; none means every command. */
  function SeedsOf(commands: seq<Command>, names: seq<string>): seq<string> {
    if names == [] then NamesOf(commands) else names
  }

  method ResolveTargetCommands(commands: seq<Command>, names: seq<string>) returns (target: set<string>)
    requires DistinctCommands(commands)
    ensures IsClosure(commands, Dependencies, SeedsOf(commands, names), target)
    ensures if names == [] then target == Elements(NamesOf(commands)) else IsClosure(commands, Dependencies, names, target)
  {
    hide IsClosure, Extends, Forced, HasSeeds, SuccessorsPull;
    if |names| == 0 {
      EverythingIsClosure(commands, Dependencies);
      return Elements(NamesOf(commands));
    }
    DependenciesPull(commands);
    target := WalkAll(commands, Dependencies, map[], names, {});
    SearchIsClosure(commands, Dependencies, names, target);
  }

  method ResolveStopTargetCommands(commands: seq<Command>, names: seq<string>) returns (target: set<string>)
    requires DistinctCommands(commands)
    ensures IsClosure(commands, Dependents, SeedsOf(commands, names), target)
    ensures if names == [] then target == Elements(NamesOf(commands)) else IsClosure(commands, Dependents, names, target)
  {
    hide IsClosure, Extends, Forced, HasSeeds;
    if |names| == 0 {
      EverythingIsClosure(commands, Dependents);
      return Elements(NamesOf(commands));
    }
    var dependents := BuildDependents(commands);
    target := WalkAll(commands, Dependents, dependents, names, {});
    SearchIsClosure(commands, Dependents, names, target);
  }

  // ---- The closure as reachability ------------------------------------------

  /** A dependency chain runs from the seed to x (dependencies are pulled in), or
      from x to the seed (dependents are). */
  ghost predicate Reaches(commands: seq<Command>, sense: Sense, seeds: seq<string>, x: string, path: seq<string>) {
    && IsChain(commands, path)
    && (if sense == Dependencies then path[0] == x && path[|path| - 1] in seeds
        else path[0] in seeds && path[|path| - 1] == x)
  }

  ghost predicate Reachable(commands: seq<Command>, sense: Sense, seeds: seq<string>, x: string) {
    exists path :: Reaches(commands, sense, seeds, x, path)
  }

  lemma ReachableKnown(commands: seq<Command>, sense: Sense, seeds: seq<string>, x: string)
    requires Reachable(commands, sense, seeds, x)
    ensures Known(commands, x)
  {
    hide After, Known;
    var path :| Reaches(commands, sense, seeds, x, path);
    assert Known(commands, path[0]) && Known(commands, path[|path| - 1]);
  }

  lemma ReachableNext(commands: seq<Command>, sense: Sense, seeds: seq<string>, x: string, y: string)
    requires Reachable(commands, sense, seeds, x) && Pulls(commands, sense, x, y)
    ensures Reachable(commands, sense, seeds, y)
  {
    hide After, Known, IsChain;
    var path :| Reaches(commands, sense, seeds, x, path);
    assert path != [] by { ChainNotEmpty(commands, path); }
    if sense == Dependencies {
      Edge(commands, x, y);
      Joined(commands, [y, x], path);
      assert Reaches(commands, sense, seeds, y, [y, x] + path[1..]);
    } else {
      Edge(commands, y, x);
      Joined(commands, path, [x, y]);
      assert Reaches(commands, sense, seeds, y, path + [x, y][1..]);
    }
  }

  lemma ChainNotEmpty(commands: seq<Command>, path: seq<string>)
    requires IsChain(commands, path)
    ensures path != []
  {
  }

  lemma {:induction false} ReachedIsClosed(commands: seq<Command>, sense: Sense, seeds: seq<string>, s: set<string>, x: string, path: seq<string>)
    requires HasSeeds(commands, seeds, s) && Closed(commands, sense, s) && Reaches(commands, sense, seeds, x, path)
    ensures x in s
    decreases |path|
  {
    hide After, Known;
    if |path| > 1 {
      if sense == Dependencies {
        var y := path[1];
        assert After(commands, path[0 + 1], path[0]);
        Segment(commands, path, 1, |path| - 1);
        assert path[1..|path| - 1 + 1] == path[1..];
        ReachedIsClosed(commands, sense, seeds, s, y, path[1..]);
        assert Pulls(commands, sense, y, x);
      } else {
        var y := path[|path| - 2];
        assert After(commands, path[|path| - 2 + 1], path[|path| - 2]);
        Segment(commands, path, 0, |path| - 2);
        ReachedIsClosed(commands, sense, seeds, s, y, path[0..|path| - 2 + 1]);
        assert Pulls(commands, sense, y, x);
      }
    } else {
      assert path[0] in seeds && Known(commands, path[0]);
    }
  }

  /** The closure is exactly what dependency chains connect to the seeds. */
  lemma ClosureIsReachable(commands: seq<Command>, sense: Sense, seeds: seq<string>, s: set<string>, x: string)
    requires IsClosure(commands, sense, seeds, s)
    ensures x in s <==> Reachable(commands, sense, seeds, x)
  {
    hide After, Reachable, Pulls;
    var t := set y | y in Elements(NamesOf(commands)) && Reachable(commands, sense, seeds, y);
    forall y, z | y in t && Pulls(commands, sense, y, z)
      ensures z in t
    {
      ReachableNext(commands, sense, seeds, y, z);
      ReachableKnown(commands, sense, seeds, z);
    }
    forall n | n in seeds && Known(commands, n)
      ensures n in t
    {
      SeedReachable(commands, sense, seeds, n);
    }
    assert HasSeeds(commands, seeds, t) && Closed(commands, sense, t);
    if Reachable(commands, sense, seeds, x) {
      ReachableInside(commands, sense, seeds, s, x);
    }
  }

  lemma SeedReachable(commands: seq<Command>, sense: Sense, seeds: seq<string>, n: string)
    requires n in seeds && Known(commands, n)
    ensures Reachable(commands, sense, seeds, n)
  {
    hide After;
    assert Reaches(commands, sense, seeds, n, [n]);
  }

  lemma ReachableInside(commands: seq<Command>, sense: Sense, seeds: seq<string>, s: set<string>, x: string)
    requires IsClosure(commands, sense, seeds, s) && Reachable(commands, sense, seeds, x)
    ensures x in s
  {
    var path :| Reaches(commands, sense, seeds, x, path);
    ReachedIsClosed(commands, sense, seeds, s, x, path);
  }
}
