/** Layering of commands by their dependencies (Kahn's algorithm), and what its
    answer says about the dependency graph. */
module DependencyGraph {
  import opened Names
  import opened ComposeSpec

  datatype GraphError = UnknownDependency(command: string, dep: string) | DependencyCycle(stuck: seq<string>)

  type Layers = seq<seq<string>>

  // ---- The graph ------------------------------------------------------------

  ghost predicate AllKnown(commands: seq<Command>) {
    forall c, i :: c in commands && 0 <= i < |c.after| ==> Known(commands, c.after[i].name)
  }

  /** path leads from a dependency to its dependents, one edge at a time. */
  ghost predicate IsChain(commands: seq<Command>, path: seq<string>) {
    && path != []
    && (forall i :: 0 <= i < |path| ==> Known(commands, path[i]))
    && (forall i :: 0 <= i < |path| - 1 ==> After(commands, path[i + 1], path[i]))
  }

  ghost predicate IsCycle(commands: seq<Command>, path: seq<string>) {
    IsChain(commands, path) && |path| >= 2 && path[0] == path[|path| - 1]
  }

  ghost predicate Acyclic(commands: seq<Command>) {
    !exists path :: IsCycle(commands, path)
  }

  ghost predicate ChainTo(commands: seq<Command>, path: seq<string>, x: string) {
    IsChain(commands, path) && path[|path| - 1] == x
  }

  /** The longest chain of dependencies leading to x has k edges. */
  ghost predicate LongestChain(commands: seq<Command>, x: string, k: nat) {
    && (exists path :: ChainTo(commands, path, x) && |path| == k + 1)
    && (forall path :: ChainTo(commands, path, x) ==> |path| <= k + 1)
  }

  // ---- Layers ---------------------------------------------------------------

  function Union(layers: Layers): set<string> {
    if layers == [] then {} else Union(layers[..|layers| - 1]) + Elements(layers[|layers| - 1])
  }

  ghost predicate Satisfied(commands: seq<Command>, x: string, done: set<string>) {
    Known(commands, x) && forall y :: After(commands, x, y) ==> y in done
  }

  ghost function Ready(commands: seq<Command>, done: set<string>): set<string> {
    set x | x in Elements(NamesOf(commands)) && x !in done && Satisfied(commands, x, done)
  }

  /** Layer k holds, sorted, exactly the commands whose dependencies all lie in
      earlier layers and that lie in none. */
  ghost predicate LayersSoFar(commands: seq<Command>, layers: Layers) {
    forall k {:trigger layers[k]} :: 0 <= k < |layers| ==>
      IsLayer(commands, layers[k], Union(layers[..k]))
  }

  ghost predicate IsLayer(commands: seq<Command>, layer: seq<string>, before: set<string>) {
    layer != [] && Sorted(layer) && Distinct(layer) && Elements(layer) == Ready(commands, before)
  }

  ghost predicate InLayer(layers: Layers, k: int, x: string) {
    0 <= k < |layers| && x in layers[k]
  }

  /** The layers partition the commands, and a command's layer is the length of
      its longest dependency chain. */
  ghost predicate IsLayering(commands: seq<Command>, layers: Layers) {
    && (forall x :: Known(commands, x) <==> exists k :: InLayer(layers, k, x))
    && (forall k, x :: InLayer(layers, k, x) ==> LongestChain(commands, x, k))
    && (forall k :: 0 <= k < |layers| ==> layers[k] != [] && Sorted(layers[k]) && Distinct(layers[k]))
  }

  lemma {:induction false} UnionMembers(layers: Layers, x: string)
    ensures x in Union(layers) <==> exists k :: InLayer(layers, k, x)
  {
    if layers != [] {
      var init := layers[..|layers| - 1];
      UnionMembers(init, x);
      if k :| InLayer(init, k, x) {
        assert InLayer(layers, k, x);
      }
      if k :| InLayer(layers, k, x) {
        if k < |init| {
          assert InLayer(init, k, x);
        }
      }
      if x in layers[|layers| - 1] {
        assert InLayer(layers, |layers| - 1, x);
      }
    }
  }

  lemma LayerReady(commands: seq<Command>, layers: Layers, k: int, x: string)
    requires LayersSoFar(commands, layers) && InLayer(layers, k, x)
    ensures x in Ready(commands, Union(layers[..k]))
  {
    assert x in Elements(layers[k]);
  }

  /** A dependency lies in an earlier layer. */
  lemma EarlierLayer(commands: seq<Command>, layers: Layers, k: int, x: string, y: string) returns (j: int)
    requires LayersSoFar(commands, layers) && InLayer(layers, k, x) && After(commands, x, y)
    ensures 0 <= j < k && InLayer(layers, j, y)
  {
    LayerReady(commands, layers, k, x);
    UnionMembers(layers[..k], y);
    j :| InLayer(layers[..k], j, y);
  }

  /** A command of a later layer depends on one of the layer just before. */
  lemma PreviousLayer(commands: seq<Command>, layers: Layers, k: int, x: string) returns (y: string)
    requires LayersSoFar(commands, layers) && InLayer(layers, k, x) && k > 0
    ensures After(commands, x, y) && InLayer(layers, k - 1, y)
  {
    LayerReady(commands, layers, k, x);
    var before := Union(layers[..k - 1]);
    assert layers[..k][..k - 1] == layers[..k - 1];
    assert Union(layers[..k]) == before + Elements(layers[k - 1]);
    assert x !in Elements(layers[k - 1]);
    y :| After(commands, x, y) && y !in before;
    assert y in Elements(layers[k - 1]);
  }

  lemma {:induction false} ChainExists(commands: seq<Command>, layers: Layers, k: nat, x: string) returns (path: seq<string>)
    requires LayersSoFar(commands, layers) && InLayer(layers, k, x)
    ensures ChainTo(commands, path, x) && |path| == k + 1
  {
    LayerReady(commands, layers, k, x);
    if k == 0 {
      path := [x];
    } else {
      var y := PreviousLayer(commands, layers, k, x);
      var init := ChainExists(commands, layers, k - 1, y);
      path := init + [x];
    }
  }

  lemma {:induction false} ChainBounded(commands: seq<Command>, layers: Layers, k: nat, x: string, path: seq<string>)
    requires LayersSoFar(commands, layers) && InLayer(layers, k, x) && ChainTo(commands, path, x)
    ensures |path| <= k + 1
    decreases |path|
  {
    if |path| > 1 {
      var init := path[..|path| - 1];
      var y := init[|init| - 1];
      assert After(commands, path[|path| - 2 + 1], path[|path| - 2]);
      var j := EarlierLayer(commands, layers, k, x, y);
      ChainBounded(commands, layers, j, y, init);
    }
  }

  lemma LayersAreLayering(commands: seq<Command>, layers: Layers)
    requires LayersSoFar(commands, layers) && Union(layers) == Elements(NamesOf(commands))
    ensures IsLayering(commands, layers)
  {
    forall x
      ensures Known(commands, x) <==> exists k :: InLayer(layers, k, x)
    {
      UnionMembers(layers, x);
    }
    forall k, x | InLayer(layers, k, x)
      ensures LongestChain(commands, x, k)
    {
      var path := ChainExists(commands, layers, k, x);
      forall path | ChainTo(commands, path, x)
        ensures |path| <= k + 1
      {
        ChainBounded(commands, layers, k, x, path);
      }
    }
  }

  // ---- What a layering says about the graph ---------------------------------

  /** Going round a cycle once more gives a longer chain. */
  lemma {:induction false} CycleChain(commands: seq<Command>, cycle: seq<string>, n: nat) returns (path: seq<string>)
    requires IsCycle(commands, cycle)
    ensures ChainTo(commands, path, cycle[0]) && |path| > n
  {
    if n == 0 {
      path := cycle;
    } else {
      var init := CycleChain(commands, cycle, n - 1);
      path := init + cycle[1..];
      Joined(commands, init, cycle);
    }
  }

  /** Chains that share an end join. */
  lemma Joined(commands: seq<Command>, a: seq<string>, b: seq<string>)
    requires IsChain(commands, a) && IsChain(commands, b) && a[|a| - 1] == b[0]
    ensures IsChain(commands, a + b[1..])
  {
    hide Known, After;
    var path := a + b[1..];
    forall i | 0 <= i < |path|
      ensures Known(commands, path[i])
    {
      assert path[i] == if i < |a| then a[i] else b[i - |a| + 1];
    }
    forall i | 0 <= i < |path| - 1
      ensures After(commands, path[i + 1], path[i])
    {
      if i + 1 < |a| {
        assert After(commands, a[i + 1], a[i]);
      } else {
        var j := i - |a| + 1;
        assert path[i] == b[j] && path[i + 1] == b[j + 1];
      }
    }
  }

  lemma LayeringMeansAcyclic(commands: seq<Command>, layers: Layers)
    requires IsLayering(commands, layers)
    ensures Acyclic(commands)
  {
    if cycle :| IsCycle(commands, cycle) {
      assert Known(commands, cycle[0]);
      var k :| InLayer(layers, k, cycle[0]);
      assert LongestChain(commands, cycle[0], k);
      var path := CycleChain(commands, cycle, k + 1);
    }
  }

  ghost predicate HeldBack(commands: seq<Command>, stuck: set<string>, x: string) {
    Known(commands, x) && exists y :: y in stuck && After(commands, x, y)
  }

  /** Every command of a set depends on another of the set. */
  ghost predicate Trapped(commands: seq<Command>, stuck: set<string>) {
    stuck != {} && forall x {:trigger HeldBack(commands, stuck, x)} :: x in stuck ==> HeldBack(commands, stuck, x)
  }

  lemma Edge(commands: seq<Command>, x: string, y: string)
    requires Known(commands, x) && Known(commands, y) && After(commands, x, y)
    ensures IsChain(commands, [y, x])
  {
  }

  ghost predicate Within(path: seq<string>, stuck: set<string>) {
    forall i :: 0 <= i < |path| ==> path[i] in stuck
  }

  /** Any chain starting in a trapped set can be lengthened. */
  lemma Lengthen(commands: seq<Command>, stuck: set<string>, rest: seq<string>) returns (path: seq<string>)
    requires Trapped(commands, stuck) && IsChain(commands, rest) && Within(rest, stuck)
    ensures IsChain(commands, path) && |path| == |rest| + 1 && Within(path, stuck)
    ensures path[|path| - 1] == rest[|rest| - 1]
  {
    hide Known, After;
    var x := rest[0];
    assert HeldBack(commands, stuck, x);
    var y :| y in stuck && After(commands, x, y);
    assert HeldBack(commands, stuck, y);
    Edge(commands, x, y);
    Joined(commands, [y, x], rest);
    path := [y, x] + rest[1..];
  }

  /** A chain of n edges inside a trapped set to each of its members, for every n. */
  lemma {:induction false} TrappedChainTo(commands: seq<Command>, stuck: set<string>, x: string, n: nat) returns (path: seq<string>)
    requires Trapped(commands, stuck) && x in stuck
    ensures ChainTo(commands, path, x) && |path| == n + 1 && Within(path, stuck)
  {
    hide Known, After;
    if n == 0 {
      assert HeldBack(commands, stuck, x);
      path := [x];
    } else {
      var rest := TrappedChainTo(commands, stuck, x, n - 1);
      path := Lengthen(commands, stuck, rest);
    }
  }

  lemma DistinctBounded(s: seq<string>, from: set<string>)
    requires Distinct(s) && Within(s, from)
    ensures |s| <= |from|
  {
    DistinctSize(s);
    var rest := from - Elements(s);
    assert from == Elements(s) + rest;
  }

  /** Pigeonhole: a sequence longer than the set it draws from repeats itself. */
  lemma Repeats(s: seq<string>, from: set<string>) returns (i: nat, j: nat)
    requires Within(s, from)
    requires |s| > |from|
    ensures i < j < |s| && s[i] == s[j]
  {
    if Distinct(s) {
      DistinctBounded(s, from);
    }
    assert !Distinct(s);
    i, j :| 0 <= i < j < |s| && s[i] == s[j];
  }

  lemma Segment(commands: seq<Command>, path: seq<string>, i: nat, j: nat)
    requires IsChain(commands, path) && i <= j < |path|
    ensures IsChain(commands, path[i..j + 1])
  {
    hide Known, After;
    var part := path[i..j + 1];
    assert forall k :: 0 <= k < |part| ==> part[k] == path[i + k];
    forall k | 0 <= k < |part| - 1
      ensures After(commands, part[k + 1], part[k])
    {
      assert After(commands, path[i + k + 1], path[i + k]);
    }
  }

  lemma TrappedMeansCycle(commands: seq<Command>, stuck: set<string>) returns (cycle: seq<string>)
    requires Trapped(commands, stuck)
    ensures IsCycle(commands, cycle) && Within(cycle, stuck)
  {
    hide Known, After, IsChain;
    var x :| x in stuck;
    var path := TrappedChainTo(commands, stuck, x, |stuck|);
    var i, j := Repeats(path, stuck);
    Segment(commands, path, i, j);
    cycle := path[i..j + 1];
    assert forall k :: 0 <= k < |cycle| ==> cycle[k] == path[i + k];
  }

  /** The layering does not depend on the order in which the commands are given. */
  lemma LayeringUnique(a: seq<Command>, la: Layers, b: seq<Command>, lb: Layers)
    requires IsLayering(a, la) && IsLayering(b, lb)
    requires forall x :: Known(a, x) <==> Known(b, x)
    requires forall x, y :: After(a, x, y) <==> After(b, x, y)
    ensures la == lb
  {
    forall k, x
      ensures InLayer(la, k, x) <==> InLayer(lb, k, x)
    {
      if InLayer(la, k, x) {
        SameLayer(a, la, b, lb, k, x);
      }
      if InLayer(lb, k, x) {
        SameLayer(b, lb, a, la, k, x);
      }
    }
    if |la| > |lb| {
      assert InLayer(la, |lb|, la[|lb|][0]);
    }
    if |lb| > |la| {
      assert InLayer(lb, |la|, lb[|la|][0]);
    }
    forall k | 0 <= k < |la|
      ensures la[k] == lb[k]
    {
      forall x
        ensures x in Elements(la[k]) <==> x in Elements(lb[k])
      {
        assert InLayer(la, k, x) <==> InLayer(lb, k, x);
      }
      SortedSetUnique(la[k], lb[k]);
    }
  }

  lemma SameLayer(a: seq<Command>, la: Layers, b: seq<Command>, lb: Layers, k: int, x: string)
    requires IsLayering(a, la) && IsLayering(b, lb)
    requires forall x :: Known(a, x) <==> Known(b, x)
    requires forall x, y :: After(a, x, y) <==> After(b, x, y)
    requires InLayer(la, k, x)
    ensures InLayer(lb, k, x)
  {
    hide Known, After, LessEq, IsChain, Sorted, Distinct;
    assert Known(a, x);
    var j :| InLayer(lb, j, x);
    assert LongestChain(a, x, k) && LongestChain(b, x, j);
    var pa :| ChainTo(a, pa, x) && |pa| == k + 1;
    var pb :| ChainTo(b, pb, x) && |pb| == j + 1;
    SameChain(a, b, pa);
    SameChain(b, a, pb);
  }

  lemma SameChain(a: seq<Command>, b: seq<Command>, path: seq<string>)
    requires IsChain(a, path)
    requires forall x :: Known(a, x) <==> Known(b, x)
    requires forall x, y :: After(a, x, y) <==> After(b, x, y)
    ensures IsChain(b, path)
  {
    hide Known, After;
  }

  // ---- What is left when no layer can be formed ------------------------------

  /** There are dependency chains of every length leading to x. */
  ghost predicate Unbounded(commands: seq<Command>, x: string) {
    forall n: nat :: LongChainTo(commands, x, n)
  }

  ghost predicate LongChainTo(commands: seq<Command>, x: string, n: nat) {
    exists path :: ChainTo(commands, path, x) && |path| > n
  }

  lemma OnlyKnownHaveChains(commands: seq<Command>, x: string)
    requires x !in Elements(NamesOf(commands))
    ensures !LongChainTo(commands, x, 0)
  {
    hide After;
    forall path | ChainTo(commands, path, x)
      ensures Known(commands, x)
    {
      assert Known(commands, path[|path| - 1]);
    }
  }

  /** The commands outside the layers formed so far, when no further layer can be
      formed, are those with unbounded chains leading to them. */
  lemma StuckAreUnbounded(commands: seq<Command>, layers: Layers, stuck: set<string>, x: string)
    requires LayersSoFar(commands, layers) && Trapped(commands, stuck)
    requires Elements(NamesOf(commands)) == Union(layers) + stuck
    ensures x in stuck <==> Unbounded(commands, x)
  {
    hide Known, After, LayersSoFar, IsChain;
    if x in stuck {
      forall n: nat
        ensures LongChainTo(commands, x, n)
      {
        var path := TrappedChainTo(commands, stuck, x, n);
      }
    } else if x in Union(layers) {
      UnionMembers(layers, x);
      var k :| InLayer(layers, k, x);
      if LongChainTo(commands, x, k + 1) {
        var path :| ChainTo(commands, path, x) && |path| > k + 1;
        ChainBounded(commands, layers, k, x, path);
      }
      assert !LongChainTo(commands, x, k + 1);
    } else {
      OnlyKnownHaveChains(commands, x);
      assert !LongChainTo(commands, x, 0);
    }
  }
}
