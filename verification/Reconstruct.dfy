/** A project put together again from the labels of its stored replicas. */
module Reconstruct {
  import opened Wrappers
  import opened Names
  import opened ComposeSpec
  import opened ComposeLabels
  import opened Decimal
  import opened Naming
  import opened DependencyGraph
  import opened TopoLayers

  datatype ReconstructError = BadLabel | BadGraph(error: GraphError)

  // The pass over the entries: what it gathered, or why it ended early.
  datatype Scan =
    | Scanned(project: Option<string>, byName: map<string, Command>, order: seq<string>)
    | MixedProjects
    | Undecodable

  function AfterOf(l: AfterLabel): seq<AfterSpec> {
    if l.AfterList? then l.after else []
  }

  function BaseName(e: Entry): string {
    var base := StripScaleIndexSuffix(e.name, ScaleIndexOf(e));
    if base == "" then e.id else base
  }

  /** The base name is what the name holds before the index the labels tell; a name that
      does not end in it is its own base, and an entry without one goes by its id. */
  lemma BaseNameMeans(e: Entry, base: string)
    ensures ScaleIndexOf(e) > 0 && e.name == base + "-" + Itoa(ScaleIndexOf(e)) ==> BaseName(e) == if base == "" then e.id else base
    ensures ScaleIndexOf(e) <= 0 ==> BaseName(e) == if e.name == "" then e.id else e.name
  {
    hide Itoa, Atoi;
    if ScaleIndexOf(e) > 0 && e.name == base + "-" + Itoa(ScaleIndexOf(e)) {
      StripUndoesInstanceName(base, ScaleIndexOf(e));
    }
  }

  predicate Named(e: Entry) {
    e.labels.Some? && e.labels.value.command != ""
  }

  /** One more entry: another replica of a command seen before, or a new command. */
  function ScanEntry(s: Scan, e: Entry): Scan {
    if !s.Scanned? || !Named(e) then s
    else
      var l := e.labels.value;
      if s.project.Some? && s.project.value != l.project then MixedProjects
      else if l.command in s.byName then
        var c := s.byName[l.command];
        s.(project := Some(l.project), byName := s.byName[l.command := c.(scale := c.scale + 1)])
      else if l.after.Garbled? then Undecodable
      else
        Scanned(Some(l.project),
                s.byName[l.command := ComposeSpec.Command(l.command, BaseName(e), AfterOf(l.after), 1, "")],
                s.order + [l.command])
  }

  function ScanAll(entries: seq<Entry>): Scan {
    if entries == [] then Scanned(None, map[], [])
    else ScanEntry(ScanAll(entries[..|entries| - 1]), entries[|entries| - 1])
  }

  function CommandsOf(byName: map<string, Command>, names: seq<string>): seq<Command>
    requires forall i :: 0 <= i < |names| ==> names[i] in byName
  {
    seq(|names|, i requires 0 <= i < |names| => byName[names[i]])
  }

  /** What reconstructProjectFromMeta returns: the commands in the order of their
      names, when the entries name one project and its graph is in order. */
  ghost predicate IsReconstruction(entries: seq<Entry>, r: Result<Option<Spec>, ReconstructError>) {
    match ScanAll(entries)
    case MixedProjects => r == Ok(None)
    case Undecodable => r == Err(BadLabel)
    case Scanned(project, byName, order) =>
      if order == [] then r == Ok(None)
      else
        && (forall x :: x in order <==> x in byName)
        && (forall i :: 0 <= i < |Sort(order)| ==> Sort(order)[i] in byName)
        && var commands := CommandsOf(byName, Sort(order));
           && project.Some?
           && (r.Ok? <==> AllKnown(commands) && Acyclic(commands))
           && (r.Ok? ==> r.value == Some(Spec("", project.value, commands)))
           && (r.Err? ==> r.error.BadGraph?)
  }

  /** The order lists the keys of the map once each, and they name their commands. */
  ghost predicate ScanOk(s: Scan) {
    s.Scanned? ==>
      && Distinct(s.order)
      && (forall x :: x in s.order <==> x in s.byName)
      && (forall x :: x in s.byName ==> s.byName[x].name == x)
      && (s.order != [] ==> s.project.Some?)
  }

  lemma ScanEntryOk(s: Scan, e: Entry)
    requires ScanOk(s)
    ensures ScanOk(ScanEntry(s, e))
  {
    hide LessEq, BaseName;
    if s.Scanned? && Named(e) {
      var name := e.labels.value.command;
      assert forall x :: x in s.order + [name] <==> x in s.order || x == name;
    }
  }

  lemma SortedCommands(byName: map<string, Command>, order: seq<string>)
    requires Distinct(order) && (forall x :: x in order <==> x in byName) && (forall x :: x in byName ==> byName[x].name == x)
    ensures forall i :: 0 <= i < |Sort(order)| ==> Sort(order)[i] in byName
    ensures var commands := CommandsOf(byName, Sort(order));
      NamesOf(commands) == Sort(order) && DistinctCommands(commands)
    ensures forall x :: x in Sort(order) <==> x in byName
  {
    hide LessEq;
    SortDistinct(order);
    forall x
      ensures x in Sort(order) <==> x in byName
    {
      assert x in Elements(Sort(order)) <==> x in Elements(order);
    }
  }

  method ReconstructProject(entries: seq<Entry>) returns (r: Result<Option<Spec>, ReconstructError>)
    ensures IsReconstruction(entries, r)
  {
    hide LessEq, BaseName, AllKnown, Acyclic;
    var project: Option<string>, byName: map<string, Command>, order: seq<string> := None, map[], [];
    for n := 0 to |entries|
      invariant ScanAll(entries[..n]) == Scanned(project, byName, order) && ScanOk(Scanned(project, byName, order))
    {
      var e := entries[n];
      assert entries[..n + 1][..n] == entries[..n];
      ScanEntryOk(Scanned(project, byName, order), e);
      if e.labels.Some? && e.labels.value.command != "" {
        var l := e.labels.value;
        if project.Some? && project.value != l.project {
          ScanEnds(entries, n + 1);
          return Ok(None);
        }
        project := Some(l.project);
        if l.command in byName {
          var c := byName[l.command];
          byName := byName[l.command := c.(scale := c.scale + 1)];
        } else {
          if l.after.Garbled? {
            ScanEnds(entries, n + 1);
            return Err(BadLabel);
          }
          byName := byName[l.command := ComposeSpec.Command(l.command, BaseName(e), AfterOf(l.after), 1, "")];
          order := order + [l.command];
        }
      }
    }
    assert entries[..|entries|] == entries;
    if |order| == 0 {
      return Ok(None);
    }
    SortedCommands(byName, order);
    // The names differ, so sorting them sorts the commands.
    var commands := CommandsOf(byName, Sort(order));
    var err := ValidateDAG(commands);
    if err.Some? {
      return Err(BadGraph(err.value));
    }
    return Ok(Some(Spec("", project.value, commands)));
  }

  lemma {:induction false} ScanEnds(entries: seq<Entry>, n: nat)
    requires n <= |entries| && !ScanAll(entries[..n]).Scanned?
    ensures ScanAll(entries) == ScanAll(entries[..n])
    decreases |entries|
  {
    if n < |entries| {
      var init := entries[..|entries| - 1];
      assert init[..n] == entries[..n];
      ScanEnds(init, n);
    } else {
      assert entries[..n] == entries;
    }
  }

  // ---- What the pass accepts ------------------------------------------------

  /** Entry i is of a command, and so is an earlier one of another project. */
  predicate MixesAt(entries: seq<Entry>, i: int) {
    && 0 <= i < |entries| && Named(entries[i])
    && exists j :: 0 <= j < i && Named(entries[j]) && entries[j].labels.value.project != entries[i].labels.value.project
  }

  /** Entry i is the first of its command. */
  predicate FirstAt(entries: seq<Entry>, i: int) {
    && 0 <= i < |entries| && Named(entries[i])
    && forall j :: 0 <= j < i && Named(entries[j]) ==> entries[j].labels.value.command != entries[i].labels.value.command
  }

  predicate GarblesAt(entries: seq<Entry>, i: int) {
    FirstAt(entries, i) && entries[i].labels.value.after.Garbled?
  }

  predicate EndsAt(entries: seq<Entry>, i: int) {
    (MixesAt(entries, i) || GarblesAt(entries, i)) && forall j :: 0 <= j < i ==> !MixesAt(entries, j) && !GarblesAt(entries, j)
  }

  /** What the pass knows so far is the project and the commands of the entries. */
  ghost predicate Knows(entries: seq<Entry>, s: Scan) {
    s.Scanned? ==>
      && (s.project.Some? <==> exists i :: 0 <= i < |entries| && Named(entries[i]))
      && (forall i :: 0 <= i < |entries| && Named(entries[i]) ==> s.project == Some(entries[i].labels.value.project))
      && (forall x :: x in s.byName <==> exists i :: FirstAt(entries, i) && entries[i].labels.value.command == x)
      && (forall i :: FirstAt(entries, i) ==>
            var c := s.byName[entries[i].labels.value.command];
            c.generatedName == BaseName(entries[i]) && c.after == AfterOf(entries[i].labels.value.after))
  }

  lemma AtInit(entries: seq<Entry>, i: int)
    requires entries != [] && i < |entries| - 1
    ensures var init := entries[..|entries| - 1];
      (MixesAt(init, i) <==> MixesAt(entries, i)) && (FirstAt(init, i) <==> FirstAt(entries, i)) && (GarblesAt(init, i) <==> GarblesAt(entries, i))
  {
    hide Named;
    var init := entries[..|entries| - 1];
    assert forall j :: 0 <= j <= i ==> init[j] == entries[j];
  }

  lemma {:induction false} HasFirst(entries: seq<Entry>, i: nat) returns (k: nat)
    requires i < |entries| && Named(entries[i])
    ensures k <= i && FirstAt(entries, k) && entries[k].labels.value.command == entries[i].labels.value.command
  {
    k := i;
    if j: nat :| j < i && Named(entries[j]) && entries[j].labels.value.command == entries[i].labels.value.command {
      k := HasFirst(entries, j);
    }
  }

  /** How the last entry counts, by what is known before it. */
  lemma LastMixes(entries: seq<Entry>, s: Scan)
    requires entries != [] && s.Scanned? && Knows(entries[..|entries| - 1], s)
    ensures var n := |entries| - 1;
      MixesAt(entries, n) <==> Named(entries[n]) && s.project.Some? && s.project.value != entries[n].labels.value.project
  {
    hide BaseName, FirstAt;
    var n := |entries| - 1;
    var init := entries[..n];
    assert forall j :: 0 <= j < n ==> init[j] == entries[j];
    if Named(entries[n]) && s.project.Some? && s.project.value != entries[n].labels.value.project {
      var i :| 0 <= i < n && Named(init[i]);
      assert Named(entries[i]) && entries[i].labels.value.project == s.project.value;
    }
  }

  lemma LastIsFirst(entries: seq<Entry>, s: Scan)
    requires entries != [] && s.Scanned?
    requires var init := entries[..|entries| - 1];
      forall x :: x in s.byName <==> exists i :: FirstAt(init, i) && init[i].labels.value.command == x
    ensures var n := |entries| - 1;
      FirstAt(entries, n) <==> Named(entries[n]) && entries[n].labels.value.command !in s.byName
  {
    var n := |entries| - 1;
    var init := entries[..n];
    assert forall j :: 0 <= j < n ==> init[j] == entries[j];
    if Named(entries[n]) && !FirstAt(entries, n) {
      var j: nat :| j < n && Named(entries[j]) && entries[j].labels.value.command == entries[n].labels.value.command;
      assert Named(init[j]);
      var k := HasFirst(init, j);
      assert FirstAt(init, k) && init[k].labels.value.command == entries[n].labels.value.command;
    }
  }

  lemma LastCounts(entries: seq<Entry>, s: Scan)
    requires entries != [] && s.Scanned? && Knows(entries[..|entries| - 1], s)
    ensures var n := |entries| - 1;
      && (MixesAt(entries, n) <==> Named(entries[n]) && s.project.Some? && s.project.value != entries[n].labels.value.project)
      && (FirstAt(entries, n) <==> Named(entries[n]) && entries[n].labels.value.command !in s.byName)
  {
    hide MixesAt, FirstAt, Named, BaseName;
    LastMixes(entries, s);
    LastIsFirst(entries, s);
  }

  lemma KnowsMore(entries: seq<Entry>, s: Scan)
    requires entries != [] && s.Scanned? && Knows(entries[..|entries| - 1], s)
    ensures Knows(entries, ScanEntry(s, entries[|entries| - 1]))
  {
    hide BaseName, MixesAt, FirstAt, Named;
    var n := |entries| - 1;
    var init, e := entries[..n], entries[n];
    LastCounts(entries, s);
    assert forall j :: 0 <= j < n ==> init[j] == entries[j];
    forall i | 0 <= i < n
      ensures FirstAt(init, i) <==> FirstAt(entries, i)
    {
      AtInit(entries, i);
    }
    FirstIsNamed(entries);
    FirstIsNamed(init);
    var t := ScanEntry(s, e);
    if t.Scanned? {
      NamedParts(e);
      forall x
        ensures x in t.byName <==> exists i :: FirstAt(entries, i) && entries[i].labels.value.command == x
      {
        if x in s.byName {
          var i :| FirstAt(init, i) && init[i].labels.value.command == x;
          assert FirstAt(entries, i);
        }
        if i :| FirstAt(entries, i) && entries[i].labels.value.command == x {
          assert i < n ==> FirstAt(init, i);
        }
      }
    }
  }

  lemma FirstIsNamed(entries: seq<Entry>)
    ensures forall i :: FirstAt(entries, i) ==> 0 <= i < |entries| && Named(entries[i]) && entries[i].labels.Some?
    ensures forall i :: 0 <= i < |entries| && Named(entries[i]) ==> entries[i].labels.Some?
  {
  }

  lemma NamedParts(e: Entry)
    ensures Named(e) <==> e.labels.Some? && e.labels.value.command != ""
  {
  }

  /** The pass accepts the entries exactly when all that belong to a command name one
      project, and the first of each command has dependencies that decode. It ends at
      the first entry at which that fails, without a project if the projects differ
      there. What it gathered is the project, and each command with the base name and
      the dependencies of its first entry. */
  lemma {:induction false} ScanMeans(entries: seq<Entry>)
    ensures var s := ScanAll(entries);
      && (s.Scanned? <==> forall i :: !MixesAt(entries, i) && !GarblesAt(entries, i))
      && (s.MixedProjects? ==> exists i :: EndsAt(entries, i) && MixesAt(entries, i))
      && (s.Undecodable? ==> exists i :: EndsAt(entries, i) && !MixesAt(entries, i))
      && Knows(entries, s)
  {
    hide BaseName, MixesAt, FirstAt, Named, ScanEntry, GarblesAt, Knows;
    if entries == [] {
      NoEntries();
    } else {
      var n := |entries| - 1;
      var init := entries[..n];
      ScanMeans(init);
      forall i | i < n
        ensures (MixesAt(init, i) <==> MixesAt(entries, i)) && (GarblesAt(init, i) <==> GarblesAt(entries, i))
      {
        AtInit(entries, i);
      }
      Bounded(entries);
      Bounded(init);
      var s := ScanAll(init);
      if s.Scanned? {
        LastCounts(entries, s);
        KnowsMore(entries, s);
        EndsHere(entries, s);
      } else {
        var i :| EndsAt(init, i) && (s.MixedProjects? <==> MixesAt(init, i));
        assert EndsAt(entries, i);
        StaysEnded(entries, s);
      }
    }
  }

  lemma NoEntries()
    ensures Knows([], ScanAll([])) && ScanAll([]).Scanned? && forall i :: !MixesAt([], i) && !GarblesAt([], i)
  {
  }

  lemma Bounded(entries: seq<Entry>)
    ensures forall i :: MixesAt(entries, i) || GarblesAt(entries, i) ==> 0 <= i < |entries|
  {
  }

  lemma StaysEnded(entries: seq<Entry>, s: Scan)
    requires entries != [] && !s.Scanned?
    ensures ScanEntry(s, entries[|entries| - 1]) == s && Knows(entries, s)
  {
  }

  lemma EndsHere(entries: seq<Entry>, s: Scan)
    requires entries != [] && s.Scanned?
    requires var n := |entries| - 1;
      && (MixesAt(entries, n) <==> Named(entries[n]) && s.project.Some? && s.project.value != entries[n].labels.value.project)
      && (FirstAt(entries, n) <==> Named(entries[n]) && entries[n].labels.value.command !in s.byName)
    ensures var t, n := ScanEntry(s, entries[|entries| - 1]), |entries| - 1;
      && (t.MixedProjects? <==> MixesAt(entries, n))
      && (t.Undecodable? <==> GarblesAt(entries, n) && !MixesAt(entries, n))
  {
    hide MixesAt, FirstAt, BaseName;
  }

  // ---- Round trip -----------------------------------------------------------

  // Which replica an entry was created for.
  datatype Origin = Origin(command: Command, index: int, hash: string)

  /** The entry is what the create of a replica of the spec stored. */
  predicate StoredBy(spec: Spec, e: Entry, o: Origin) {
    && o.command in spec.commands && 1 <= o.index <= Replicas(o.command)
    && e == EntryFor(spec, o.command, o.hash, o.index, e.id)
  }

  predicate Covered(origins: seq<Origin>, c: Command, k: int) {
    exists i :: 0 <= i < |origins| && origins[i].command == c && origins[i].index == k
  }

  /** The entries are, in any order, those of replicas 1..N of every command, each
      once. */
  ghost predicate StoredProject(spec: Spec, entries: seq<Entry>, origins: seq<Origin>) {
    && |origins| == |entries|
    && (forall i :: 0 <= i < |entries| ==> StoredBy(spec, entries[i], origins[i]))
    && (forall i, j :: 0 <= i < j < |origins| && origins[i].command == origins[j].command ==> origins[i].index != origins[j].index)
    && (forall c, k {:trigger Covered(origins, c, k)} :: c in spec.commands && 1 <= k <= Replicas(c) ==> Covered(origins, c, k))
  }

  ghost predicate SpecOk(spec: Spec) {
    && DistinctCommands(spec.commands) && spec.commands != []
    && AllKnown(spec.commands) && Acyclic(spec.commands)
    && forall c :: c in spec.commands ==> c.name != "" && c.generatedName != "" && Replicas(c) <= MAX_INT
  }

  lemma EntryReadsBack(spec: Spec, e: Entry, o: Origin)
    requires StoredBy(spec, e, o) && Replicas(o.command) <= MAX_INT && o.command.generatedName != "" && o.command.name != ""
    ensures Named(e) && e.labels.value.project == spec.project && e.labels.value.command == o.command.name
    ensures !e.labels.value.after.Garbled? && AfterOf(e.labels.value.after) == o.command.after
    ensures BaseName(e) == o.command.generatedName
  {
    hide Itoa, Atoi, InstanceName, StripScaleIndexSuffix;
    ScaleIndexReadsBack(spec, o.command, o.hash, o.index, e.id);
    StripUndoesInstanceName(o.command.generatedName, o.index);
  }

  /** The indices seen of a command. */
  function IndicesOf(origins: seq<Origin>, c: Command): set<int> {
    set i | 0 <= i < |origins| && origins[i].command == c :: origins[i].index
  }

  /** What the pass knows of command c: nothing, or the command with as many replicas
      as indices were seen. */
  ghost predicate Gathered(byName: map<string, Command>, origins: seq<Origin>, c: Command) {
    if IndicesOf(origins, c) == {} then c.name !in byName
    else c.name in byName && byName[c.name] == c.(scale := |IndicesOf(origins, c)|, runtime := "")
  }

  lemma IndicesMore(origins: seq<Origin>, o: Origin, c: Command)
    ensures IndicesOf(origins + [o], c) == IndicesOf(origins, c) + if o.command == c then {o.index} else {}
  {
    var longer := origins + [o];
    forall k
      ensures k in IndicesOf(longer, c) <==> k in IndicesOf(origins, c) || (o.command == c && k == o.index)
    {
      if k in IndicesOf(origins, c) {
        var i :| 0 <= i < |origins| && origins[i].command == c && origins[i].index == k;
        assert longer[i] == origins[i];
      }
      assert longer[|origins|] == o;
    }
  }

  lemma GatherMore(spec: Spec, s: Scan, origins: seq<Origin>, e: Entry, o: Origin, c: Command)
    requires SpecOk(spec) && StoredBy(spec, e, o) && c in spec.commands
    requires s.Scanned? && (s.project.Some? ==> s.project.value == spec.project)
    requires Gathered(s.byName, origins, c) && Gathered(s.byName, origins, o.command)
    requires o.index !in IndicesOf(origins, o.command)
    ensures var t := ScanEntry(s, e);
      t.Scanned? && t.project == Some(spec.project) && Gathered(t.byName, origins + [o], c)
  {
    hide BaseName, AllKnown, Acyclic, LessEq, EntryFor, DistinctCommands, IndicesOf;
    EntryReadsBack(spec, e, o);
    IndicesMore(origins, o, c);
    if o.command != c {
      NamesDiffer(spec.commands, o.command, c);
    }
  }

  lemma NamesDiffer(commands: seq<Command>, c: Command, d: Command)
    requires DistinctCommands(commands) && c in commands && d in commands && c != d
    ensures c.name != d.name
  {
    hide LessEq;
    FindUnique(commands, c);
    FindUnique(commands, d);
  }

  lemma {:induction false} GatherAll(spec: Spec, entries: seq<Entry>, origins: seq<Origin>, n: nat)
    requires SpecOk(spec) && StoredProject(spec, entries, origins) && n <= |entries|
    ensures var s := ScanAll(entries[..n]);
      && s.Scanned? && ScanOk(s)
      && (s.project.Some? ==> s.project.value == spec.project)
      && (forall c :: c in spec.commands ==> Gathered(s.byName, origins[..n], c))
      && (forall x :: x in s.byName ==> Known(spec.commands, x))
  {
    hide SpecOk, ScanOk, Gathered, LessEq, BaseName, EntryFor;
    if n == 0 {
      forall c
        ensures Gathered(map[], origins[..0], c)
      {
        NothingGathered(c);
        assert origins[..0] == [];
      }
      assert ScanOk(ScanAll([])) by { NothingScanned(); }
    } else {
      GatherAll(spec, entries, origins, n - 1);
      assert entries[..n][..n - 1] == entries[..n - 1];
      var s, e, o := ScanAll(entries[..n - 1]), entries[n - 1], origins[n - 1];
      assert origins[..n] == origins[..n - 1] + [o];
      assert StoredBy(spec, e, o);
      FreshIndex(origins, n - 1);
      SpecDistinct(spec, o.command);
      ScanEntryOk(s, e);
      GatherMore(spec, s, origins[..n - 1], e, o, o.command);
      forall c | c in spec.commands
        ensures Gathered(ScanEntry(s, e).byName, origins[..n], c)
      {
        GatherMore(spec, s, origins[..n - 1], e, o, c);
      }
      ScanAdds(spec, s, e, o);
    }
  }

  lemma SpecDistinct(spec: Spec, c: Command)
    requires SpecOk(spec)
    ensures DistinctCommands(spec.commands)
  {
  }

  lemma ScanAdds(spec: Spec, s: Scan, e: Entry, o: Origin)
    requires DistinctCommands(spec.commands) && StoredBy(spec, e, o) && s.Scanned? && ScanEntry(s, e).Scanned?
    requires forall x :: x in s.byName ==> Known(spec.commands, x)
    ensures forall x :: x in ScanEntry(s, e).byName ==> Known(spec.commands, x)
  {
    hide BaseName, LessEq;
    FindUnique(spec.commands, o.command);
  }

  lemma NothingGathered(c: Command)
    ensures Gathered(map[], [], c)
  {
  }

  lemma NothingScanned()
    ensures ScanOk(ScanAll([]))
  {
  }

  lemma FreshIndex(origins: seq<Origin>, n: nat)
    requires n < |origins|
    requires forall i, j :: 0 <= i < j < |origins| && origins[i].command == origins[j].command ==> origins[i].index != origins[j].index
    ensures origins[n].index !in IndicesOf(origins[..n], origins[n].command)
  {
  }

  /** The indices 1..n. */
  function Range(n: nat): set<int> {
    if n == 0 then {} else Range(n - 1) + {n}
  }

  lemma {:induction false} RangeSize(n: nat)
    ensures |Range(n)| == n && forall k :: k in Range(n) <==> 1 <= k <= n
  {
    if n > 0 {
      RangeSize(n - 1);
    }
  }

  lemma StoredIndex(spec: Spec, e: Entry, o: Origin)
    requires StoredBy(spec, e, o)
    ensures 1 <= o.index <= Replicas(o.command)
  {
  }

  lemma AllIndices(spec: Spec, entries: seq<Entry>, origins: seq<Origin>, c: Command)
    requires StoredProject(spec, entries, origins) && c in spec.commands
    ensures |IndicesOf(origins, c)| == Replicas(c)
  {
    hide EntryFor, StoredBy;
    RangeSize(Replicas(c));
    var s := IndicesOf(origins, c);
    forall k
      ensures k in s <==> 1 <= k <= Replicas(c)
    {
      if Covered(origins, c, k) {
        var i :| 0 <= i < |origins| && origins[i].command == c && origins[i].index == k;
        assert origins[i].index in s;
      }
      if k in s {
        var i :| 0 <= i < |origins| && origins[i].command == c && origins[i].index == k;
        StoredIndex(spec, entries[i], origins[i]);
      }
    }
    assert s == Range(Replicas(c));
  }

  /** The commands are those of the spec: the names, base names, dependencies and
      replica counts, in the order of their names. */
  ghost predicate SameCommands(spec: Spec, commands: seq<Command>) {
    && Sorted(NamesOf(commands)) && DistinctCommands(commands)
    && (forall x :: Known(commands, x) <==> Known(spec.commands, x))
    && forall c :: c in spec.commands ==> c.(scale := Replicas(c), runtime := "") in commands
  }

  lemma GatheredCommand(spec: Spec, entries: seq<Entry>, origins: seq<Origin>, byName: map<string, Command>, c: Command)
    requires StoredProject(spec, entries, origins) && c in spec.commands && Gathered(byName, origins, c)
    ensures c.name in byName && byName[c.name] == c.(scale := Replicas(c), runtime := "")
  {
    hide EntryFor, StoredProject, IndicesOf;
    AllIndices(spec, entries, origins, c);
  }

  lemma RebuiltCommands(spec: Spec, entries: seq<Entry>, origins: seq<Origin>)
    requires SpecOk(spec) && StoredProject(spec, entries, origins)
    ensures var s := ScanAll(entries);
      && s.Scanned? && ScanOk(s) && s.order != [] && s.project == Some(spec.project)
      && (forall i :: 0 <= i < |Sort(s.order)| ==> Sort(s.order)[i] in s.byName)
      && SameCommands(spec, CommandsOf(s.byName, Sort(s.order)))
  {
    hide EntryFor, Gathered, StoredProject, AllKnown, Acyclic, LessEq, DistinctCommands, StoredBy, BaseName;
    assert entries[..|entries|] == entries && |origins| == |entries| by { SameLength(spec, entries, origins); }
    assert origins[..|origins|] == origins;
    GatherAll(spec, entries, origins, |entries|);
    var s := ScanAll(entries);
    SortedCommands(s.byName, s.order);
    SortSorts(s.order);
    var commands := CommandsOf(s.byName, Sort(s.order));
    forall c | c in spec.commands
      ensures c.(scale := Replicas(c), runtime := "") in commands && c.name in s.order
    {
      GatheredCommand(spec, entries, origins, s.byName, c);
      assert c.name in Sort(s.order);
      var i :| 0 <= i < |Sort(s.order)| && Sort(s.order)[i] == c.name;
      assert commands[i] == s.byName[c.name];
    }
    forall x
      ensures Known(commands, x) <==> Known(spec.commands, x)
    {
      if Known(spec.commands, x) {
        GatheredCommand(spec, entries, origins, s.byName, Find(spec.commands, x));
      }
    }
    assert spec.commands[0] in spec.commands;
  }

  lemma SameLength(spec: Spec, entries: seq<Entry>, origins: seq<Origin>)
    requires StoredProject(spec, entries, origins)
    ensures |origins| == |entries|
  {
  }

  /** The rebuilt graph is the graph of the spec. */
  lemma SameGraph(spec: Spec, commands: seq<Command>)
    requires SpecOk(spec) && SameCommands(spec, commands)
    ensures AllKnown(commands) && Acyclic(commands)
  {
    hide LessEq, DistinctCommands, Known;
    forall x
      ensures Known(commands, x) ==> Known(spec.commands, x) && Find(commands, x).after == Find(spec.commands, x).after
    {
      if Known(commands, x) {
        RebuiltFind(spec, commands, x);
      }
    }
    forall path | IsCycle(commands, path)
      ensures IsCycle(spec.commands, path)
    {
      SameChain(commands, spec.commands, path);
    }
    forall c, i | c in commands && 0 <= i < |c.after|
      ensures Known(commands, c.after[i].name)
    {
      FindUnique(commands, c);
      assert Find(spec.commands, c.name) in spec.commands;
      assert Find(spec.commands, c.name).after[i].name == c.after[i].name;
    }
  }

  lemma RebuiltFind(spec: Spec, commands: seq<Command>, x: string)
    requires DistinctCommands(spec.commands) && SameCommands(spec, commands) && Known(commands, x)
    ensures Known(spec.commands, x)
    ensures Find(commands, x) == Find(spec.commands, x).(scale := Replicas(Find(spec.commands, x)), runtime := "")
  {
    hide LessEq, Sorted;
    var c := Find(spec.commands, x);
    FindUnique(commands, c.(scale := Replicas(c), runtime := ""));
  }

  /** Rebuilding a project from the labels written for it gives the project back. */
  lemma ReconstructRoundTrip(spec: Spec, entries: seq<Entry>, origins: seq<Origin>, r: Result<Option<Spec>, ReconstructError>)
    requires SpecOk(spec) && StoredProject(spec, entries, origins) && IsReconstruction(entries, r)
    ensures r.Ok? && r.value.Some? && r.value.value.project == spec.project
    ensures SameCommands(spec, r.value.value.commands) && |r.value.value.commands| == |spec.commands|
  {
    hide SpecOk, StoredProject, SameCommands, AllKnown, Acyclic, CommandsOf;
    RebuiltCommands(spec, entries, origins);
    var s := ScanAll(entries);
    SameGraph(spec, CommandsOf(s.byName, Sort(s.order)));
    SameCount(spec, CommandsOf(s.byName, Sort(s.order)));
  }

  lemma SameCount(spec: Spec, commands: seq<Command>)
    requires SpecOk(spec) && SameCommands(spec, commands)
    ensures |commands| == |spec.commands|
  {
    hide LessEq, AllKnown, Acyclic, Sorted;
    var a, b := NamesOf(commands), NamesOf(spec.commands);
    DistinctSize(a);
    DistinctSize(b);
    assert Elements(a) == Elements(b) by {
      forall x
        ensures x in Elements(a) <==> x in Elements(b)
      {
        assert Known(commands, x) <==> Known(spec.commands, x);
      }
    }
  }
}
