/** The report of a stop walk: the commands it covered, in the order it acted on
    them. */
module StopOutcomes {
  import opened Collections
  import opened Wrappers
  import opened ComposeSpec
  import opened ReconcileGraph
  import opened ReconcileInvariant
  import opened ReconcileWalk
  import opened ReconcileWalkInvariant
  import opened ReconcileRuns
  import opened ReconcileOutcome

  datatype StopOutcome = StopOutcome(command: string, err: Option<Failure>, forceKilled: bool)

  datatype Item = Item(outcome: StopOutcome, order: nat)

  function ItemOf(name: string, x: Sched): Item {
    Item(StopOutcome(name, x.err, x.forceKilled), x.order)
  }

  /** The in-closure commands, in the order of the spec. */
  function Items(commands: seq<Command>, g: Vertices, v: Scheds): seq<Item>
    requires v.Keys == g.Keys
  {
    if commands == [] then []
    else
      var id := Cmd(commands[|commands| - 1].name);
      Items(commands[..|commands| - 1], g, v) +
      if id in g && g[id].inClosure then [ItemOf(id.name, v[id])] else []
  }

  /** Inserts x behind the items of the same order. */
  function InsertItem(s: seq<Item>, x: Item): seq<Item> {
    if s == [] || s[|s| - 1].order <= x.order then s + [x]
    else InsertItem(s[..|s| - 1], x) + [s[|s| - 1]]
  }

  /** A stable sort by order. */
  function SortItems(s: seq<Item>): seq<Item> {
    if s == [] then [] else InsertItem(SortItems(s[..|s| - 1]), s[|s| - 1])
  }

  function OutcomesOf(s: seq<Item>): seq<StopOutcome> {
    seq(|s|, i requires 0 <= i < |s| => s[i].outcome)
  }

  predicate InOrder(s: seq<Item>) {
    forall i, j :: 0 <= i < j < |s| ==> s[i].order <= s[j].order
  }

  lemma {:induction false} InsertKeepsOrder(s: seq<Item>, x: Item)
    requires InOrder(s)
    ensures InOrder(InsertItem(s, x)) && multiset(InsertItem(s, x)) == multiset(s) + multiset{x}
  {
    if s != [] && s[|s| - 1].order > x.order {
      var init, last := s[..|s| - 1], s[|s| - 1];
      InsertKeepsOrder(init, x);
      assert s == init + [last];
      var r := InsertItem(init, x);
      forall i | 0 <= i < |r|
        ensures r[i].order <= last.order
      {
        InsertedMember(init, x, r, i);
      }
    }
  }

  lemma {:induction false} SortOrders(s: seq<Item>)
    ensures InOrder(SortItems(s)) && multiset(SortItems(s)) == multiset(s)
  {
    if s != [] {
      SortOrders(s[..|s| - 1]);
      InsertKeepsOrder(SortItems(s[..|s| - 1]), s[|s| - 1]);
      assert s == s[..|s| - 1] + [s[|s| - 1]];
    }
  }

  /** Items of one order keep their places relative to one another. */
  function WithOrder(s: seq<Item>, order: nat): seq<Item> {
    if s == [] then []
    else WithOrder(s[..|s| - 1], order) + if s[|s| - 1].order == order then [s[|s| - 1]] else []
  }

  lemma {:induction false} InsertStable(s: seq<Item>, x: Item, order: nat)
    requires InOrder(s)
    ensures WithOrder(InsertItem(s, x), order) == WithOrder(s + [x], order)
  {
    assert (s + [x])[..|s|] == s;
    if s != [] && s[|s| - 1].order > x.order {
      var init, last := s[..|s| - 1], s[|s| - 1];
      InsertStable(init, x, order);
      assert (InsertItem(init, x) + [last])[..|InsertItem(init, x)|] == InsertItem(init, x);
      assert (init + [x])[..|init|] == init;
      if x.order == order {
        NoneWithOrder(init, x, last, order);
      }
    }
  }

  lemma NoneWithOrder(init: seq<Item>, x: Item, last: Item, order: nat)
    requires last.order > x.order == order
    ensures WithOrder(init + [x], order) == WithOrder(init, order) + [x]
    ensures WithOrder(init + [last], order) == WithOrder(init, order)
  {
    assert (init + [x])[..|init|] == init && (init + [last])[..|init|] == init;
  }

  lemma {:induction false} SortStable(s: seq<Item>, order: nat)
    ensures WithOrder(SortItems(s), order) == WithOrder(s, order)
  {
    if s != [] {
      var init, x := s[..|s| - 1], s[|s| - 1];
      SortStable(init, order);
      SortOrders(init);
      InsertStable(SortItems(init), x, order);
      assert (SortItems(init) + [x])[..|SortItems(init)|] == SortItems(init);
    }
  }

  method ReportStops(graph: Graph, commands: seq<Command>) returns (out: seq<StopOutcome>)
    requires graph.Valid()
    ensures out == OutcomesOf(SortItems(Items(commands, graph.g, graph.v)))
  {
    var items: seq<Item> := [];
    for i := 0 to |commands|
      invariant items == Items(commands[..i], graph.g, graph.v)
    {
      assert commands[..i + 1][..i] == commands[..i];
      var id := Cmd(commands[i].name);
      if id in graph.g && graph.g[id].inClosure {
        items := items + [ItemOf(id.name, graph.v[id])];
      }
    }
    assert commands[..|commands|] == commands;
    var sorted := SortItems(items);
    out := [];
    for i := 0 to |sorted|
      invariant out == OutcomesOf(sorted)[..i]
    {
      out := out + [sorted[i].outcome];
    }
  }

  // ---- What the order says --------------------------------------------------

  function Listed(items: seq<Item>): seq<string> {
    seq(|items|, i requires 0 <= i < |items| => items[i].outcome.command)
  }

  /** An item tells of the vertex: its error, whether its replicas were killed, and its
      stamp. */
  predicate TellsOf(item: Item, x: Sched) {
    item.outcome.err == x.err && (item.outcome.forceKilled <==> x.forceKilled) && item.order == x.order
  }

  /** The items are the commands in the closure in the order of the spec, each with what
      its vertex tells. */
  lemma {:induction false} ItemsInOrder(commands: seq<Command>, g: Vertices, v: Scheds)
    requires v.Keys == g.Keys
    ensures var items := Items(commands, g, v);
      && IsFilter(Listed(items), NamesOf(commands), IsCovered(g))
      && forall i :: 0 <= i < |items| ==> InClosure(g, Cmd(items[i].outcome.command)) && TellsOf(items[i], v[Cmd(items[i].outcome.command)])
  {
    hide IsFilter;
    if commands == [] {
      NothingFiltered(IsCovered(g));
    } else {
      var init, last := commands[..|commands| - 1], commands[|commands| - 1];
      ItemsInOrder(init, g, v);
      FilterMore(Listed(Items(init, g, v)), NamesOf(init), last.name, IsCovered(g));
      assert NamesOf(commands) == NamesOf(init) + [last.name];
      var before := Listed(Items(init, g, v));
      assert Listed(Items(commands, g, v)) == if IsCovered(g)(last.name) then before + [last.name] else before;
    }
  }

  lemma {:induction false} ItemsMembers(commands: seq<Command>, g: Vertices, v: Scheds, x: Item)
    requires v.Keys == g.Keys
    ensures x in Items(commands, g, v) <==>
              exists i :: 0 <= i < |commands| && InClosure(g, Cmd(commands[i].name)) && x == ItemOf(commands[i].name, v[Cmd(commands[i].name)])
  {
    if commands != [] {
      var init, last := commands[..|commands| - 1], commands[|commands| - 1];
      ItemsMembers(init, g, v, x);
      if x in Items(init, g, v) {
        var i :| 0 <= i < |init| && InClosure(g, Cmd(init[i].name)) && x == ItemOf(init[i].name, v[Cmd(init[i].name)]);
        assert commands[i] == init[i];
      }
      if i :| 0 <= i < |commands| && InClosure(g, Cmd(commands[i].name)) && x == ItemOf(commands[i].name, v[Cmd(commands[i].name)]) {
        if i < |init| {
          assert init[i] == commands[i];
        }
      }
    }
  }

  /** The report of a walk state, as items. */
  ghost function Listing(commands: seq<Command>, c: Config, s: Walk): seq<Item>
    requires s.gs.v.Keys == c.g.Keys
  {
    SortItems(Items(commands, c.g, s.gs.v))
  }

  lemma ListedItem(commands: seq<Command>, c: Config, s: Walk, i: nat)
    requires s.gs.v.Keys == c.g.Keys && i < |Listing(commands, c, s)|
    ensures var x := Listing(commands, c, s)[i];
      var id := Cmd(x.outcome.command);
      InClosure(c.g, id) && x == ItemOf(id.name, s.gs.v[id])
  {
    var items := Items(commands, c.g, s.gs.v);
    var x := Listing(commands, c, s)[i];
    SortOrders(items);
    assert x in multiset(Listing(commands, c, s));
    assert x in multiset(items);
    ItemsMembers(commands, c.g, s.gs.v, x);
  }

  ghost predicate ListedBefore(commands: seq<Command>, c: Config, s: Walk, a: VertexId, b: VertexId)
    requires s.gs.v.Keys == c.g.Keys
  {
    exists i, j :: 0 <= i < j < |Listing(commands, c, s)|
      && Cmd(Listing(commands, c, s)[i].outcome.command) == a && Cmd(Listing(commands, c, s)[j].outcome.command) == b
  }

  lemma ListedOrder(commands: seq<Command>, c: Config, s: Walk, a: VertexId, b: VertexId)
    requires s.gs.v.Keys == c.g.Keys && ListedBefore(commands, c, s, a, b)
    ensures a in s.gs.v && b in s.gs.v && s.gs.v[a].order <= s.gs.v[b].order
  {
    hide SortItems, Items;
    var i, j :| 0 <= i < j < |Listing(commands, c, s)|
      && Cmd(Listing(commands, c, s)[i].outcome.command) == a && Cmd(Listing(commands, c, s)[j].outcome.command) == b;
    SortOrders(Items(commands, c.g, s.gs.v));
    ListedItem(commands, c, s, i);
    ListedItem(commands, c, s, j);
  }

  /** In every state of a stop walk, interrupted or not: a command that was acted on
      is never listed before a command it had to wait for; and a command that was
      not acted on is listed before every one that was. */
  lemma StopsListedInOrder(c: Config, run: seq<Walk>, k: nat, commands: seq<Command>, n: VertexId, v: VertexId)
    requires ConfigOk(c) && c.dir == FromEnd && IsRun(c, run) && k < |run|
    ensures run[k].gs.v.Keys == c.g.Keys
    ensures ListedBefore(commands, c, run[k], v, n) && Precedes(c.g, FromEnd, n, v) ==> !ActedOn(run[k], v)
    ensures ListedBefore(commands, c, run[k], v, n) && !ActedOn(run[k], n) ==> !ActedOn(run[k], v)
  {
    hide ConfigOk, Init, Next, WalkInv, ListedBefore, Precedes;
    RunInv(c, run, k);
    var s := run[k];
    InvStamps(c, s);
    if ListedBefore(commands, c, s, v, n) {
      ListedOrder(commands, c, s, v, n);
      if !ActedOn(s, n) {
        UnactedUnstamped(c, s, n);
      }
    }
  }

  lemma InvStamps(c: Config, s: Walk)
    requires WalkInv(c, s)
    ensures s.gs.v.Keys == c.g.Keys && StampsFollow(c.g, s.gs.v, c.dir)
  {
  }

  /** Walking from end nothing is blocked, so what was not acted on carries no
      stamp. */
  lemma UnactedUnstamped(c: Config, s: Walk, n: VertexId)
    requires c.dir == FromEnd && WalkInv(c, s) && n in c.g && !s.gs.v[n].Acted()
    ensures s.gs.v[n].order == 0
  {
    hide Readiness, Stamps, LeftOver;
    assert VertexInv(s.gs.v[n], c.g[n].snapshot, Target(c.g, n), ReadyMap(c.g, s.gs.v, c.dir)[n], LeftOver(c.g, s.gs.v) == {}, c.dir);
  }

  /** The report of a finished, uninterrupted stop walk lists no command before one
      that depends on it. */
  lemma StopReportIsTeardownOrder(c: Config, run: seq<Walk>, commands: seq<Command>, n: VertexId, v: VertexId)
    requires ConfigOk(c) && c.dir == FromEnd && IsRun(c, run) && Precedes(c.g, FromEnd, n, v)
    requires var s := run[|run| - 1]; Terminated(s) && !s.interrupted
    ensures run[|run| - 1].gs.v.Keys == c.g.Keys && !ListedBefore(commands, c, run[|run| - 1], v, n)
  {
    hide Init, Next, Terminated, Acyclic, ListedBefore;
    StopsListedInOrder(c, run, |run| - 1, commands, n, v);
    assert Target(c.g, v) || !InClosure(c.g, v);
    if Target(c.g, v) {
      EveryTargetSettled(c, run, v);
    } else {
      OutsideNotListed(commands, c, run[|run| - 1], n, v);
    }
  }

  lemma OutsideNotListed(commands: seq<Command>, c: Config, s: Walk, n: VertexId, v: VertexId)
    requires s.gs.v.Keys == c.g.Keys && !InClosure(c.g, v)
    ensures !ListedBefore(commands, c, s, v, n)
  {
    forall i | 0 <= i < |Listing(commands, c, s)|
      ensures Cmd(Listing(commands, c, s)[i].outcome.command) != v
    {
      ListedItem(commands, c, s, i);
    }
  }
}
