/** The plan that reconciles the stored replicas of a project with its spec. */
module Plan {
  import opened Wrappers
  import opened Names
  import opened ComposeSpec
  import opened ComposeLabels
  import opened Decimal
  import opened Naming
  import opened DependencyGraph
  import opened TopoLayers
  import ReconcileBuild

  datatype Kind = Create | Recreate | Unchanged

  datatype Action = Action(kind: Kind, desired: Command, scaleIndex: int, instanceName: string, existing: Option<Entry>, hash: string)

  datatype Plan = Plan(actions: seq<Action>, orphans: seq<Entry>, excess: seq<Entry>)

  datatype PlanError = BadGraph(error: GraphError) | Collision(file: string)

  // What a config hash covers: neither the scale nor the generated name.
  datatype HashInput = HashInput(name: string, after: multiset<AfterSpec>, runtime: string)

  type Hash = HashInput -> string

  function HashOf(hash: Hash, c: Command): string {
    hash(HashInput(c.name, multiset(c.after), c.runtime))
  }

  datatype Key = Key(command: string, index: int)

  // ---- The stored replicas --------------------------------------------------

  /** An entry of a command of the spec. */
  predicate Wanted(commands: seq<Command>, e: Entry) {
    e.labels.Some? && Known(commands, e.labels.value.command)
  }

  predicate Orphan(commands: seq<Command>, e: Entry) {
    e.labels.Some? && !Known(commands, e.labels.value.command)
  }

  function KeyOf(e: Entry): Key {
    Key(if e.labels.Some? then e.labels.value.command else "", ScaleIndexOf(e))
  }

  /** The wanted entries by command and index; of two under one key the last. */
  function Indexed(commands: seq<Command>, existing: seq<Entry>): map<Key, Entry> {
    if existing == [] then map[]
    else
      var last := existing[|existing| - 1];
      var m := Indexed(commands, existing[..|existing| - 1]);
      if Wanted(commands, last) then m[KeyOf(last) := last] else m
  }

  function OrphansOf(commands: seq<Command>, existing: seq<Entry>): seq<Entry> {
    if existing == [] then []
    else
      var last := existing[|existing| - 1];
      OrphansOf(commands, existing[..|existing| - 1]) + if Orphan(commands, last) then [last] else []
  }

  predicate Collides(spec: Spec, e: Entry) {
    e.labels.Some? && e.labels.value.file != "" && e.labels.value.file != spec.composeFile
  }

  predicate FirstCollision(spec: Spec, existing: seq<Entry>, i: int) {
    0 <= i < |existing| && Collides(spec, existing[i]) && forall k :: 0 <= k < i ==> !Collides(spec, existing[k])
  }

  /** An entry created for a spec collides with another spec exactly when both are from
      different files, and the first from a file at all: never with its own. */
  lemma CreatedCollides(spec: Spec, c: Command, configHash: string, scaleIndex: int, id: string, other: Spec)
    ensures Collides(other, EntryFor(spec, c, configHash, scaleIndex, id)) <==>
              spec.composeFile != "" && spec.composeFile != other.composeFile
    ensures !Collides(spec, EntryFor(spec, c, configHash, scaleIndex, id))
  {
    hide Itoa, InstanceName;
  }

  // ---- The actions ----------------------------------------------------------

  function ActionFor(c: Command, idx: int, index: map<Key, Entry>, hash: Hash): Action {
    var key, h := Key(c.name, idx), HashOf(hash, c);
    if key !in index then Action(Create, c, idx, InstanceName(c.generatedName, idx), None, h)
    else
      var e := index[key];
      var stored := if e.labels.Some? then e.labels.value.configHash else "";
      Action(if stored == h then Unchanged else Recreate, c, idx, InstanceName(c.generatedName, idx), Some(e), h)
  }

  function ReplicaActions(c: Command, n: nat, index: map<Key, Entry>, hash: Hash): seq<Action> {
    if n == 0 then [] else ReplicaActions(c, n - 1, index, hash) + [ActionFor(c, n, index, hash)]
  }

  function ActionsFor(commands: seq<Command>, order: seq<string>, index: map<Key, Entry>, hash: Hash): seq<Action>
    requires forall x :: x in order ==> Known(commands, x)
  {
    if order == [] then []
    else
      var c := Find(commands, order[|order| - 1]);
      ActionsFor(commands, order[..|order| - 1], index, hash) + ReplicaActions(c, Replicas(c), index, hash)
  }

  /** Every command once, behind the commands it depends on. */
  ghost predicate DependencyOrder(commands: seq<Command>, order: seq<string>) {
    && Distinct(order)
    && (forall x :: x in order <==> Known(commands, x))
    && BehindDependencies(commands, order)
  }

  ghost predicate BehindDependencies(commands: seq<Command>, order: seq<string>) {
    forall i, y {:trigger ComposeSpec.After(commands, order[i], y)} ::
      0 <= i < |order| && ComposeSpec.After(commands, order[i], y) && Known(commands, y) ==> y in order[..i]
  }

  predicate Desired(commands: seq<Command>, k: Key) {
    Known(commands, k.command) && 1 <= k.index <= Replicas(Find(commands, k.command))
  }

  predicate SortedByName(s: seq<Entry>) {
    forall i, j :: 0 <= i < j < |s| ==> LessEq(s[i].name, s[j].name)
  }

  /** s lists the entries of m, one for each key. */
  ghost predicate ListsValues(s: seq<Entry>, m: map<Key, Entry>) {
    && |s| == |m|
    && (forall e :: e in s ==> exists k :: k in m && m[k] == e)
    && (forall k :: k in m ==> m[k] in s)
  }

  /** What ComputePlan returns. */
  ghost predicate IsPlan(spec: Spec, hash: Hash, existing: seq<Entry>, plan: Plan) {
    var index := Indexed(spec.commands, existing);
    && (exists order :: DependencyOrder(spec.commands, order) && plan.actions == ActionsFor(spec.commands, order, index, hash))
    && plan.orphans == OrphansOf(spec.commands, existing)
    && SortedByName(plan.excess)
    && ListsValues(plan.excess, map k | k in index && !Desired(spec.commands, k) :: index[k])
  }

  // ---- The order of the layers ----------------------------------------------

  function FlattenNames(layers: Layers): seq<string> {
    if layers == [] then [] else FlattenNames(layers[..|layers| - 1]) + layers[|layers| - 1]
  }

  lemma {:induction false} FlattenIds(layers: Layers)
    ensures ReconcileBuild.Flatten(layers) == ReconcileBuild.Ids(FlattenNames(layers))
  {
    if layers != [] {
      FlattenIds(layers[..|layers| - 1]);
    }
  }

  lemma IdsMember(names: seq<string>, x: string)
    ensures ReconcileBuild.ReconcileGraph.Cmd(x) in ReconcileBuild.Ids(names) <==> x in names
  {
    if x in names {
      var i :| 0 <= i < |names| && names[i] == x;
      assert ReconcileBuild.Ids(names)[i] == ReconcileBuild.ReconcileGraph.Cmd(x);
    }
  }

  lemma LayersGiveOrder(commands: seq<Command>, layers: Layers)
    requires IsLayering(commands, layers)
    ensures DependencyOrder(commands, FlattenNames(layers))
  {
    hide LessEq, ComposeSpec.After, Known;
    var order := FlattenNames(layers);
    var ids := ReconcileBuild.Flatten(layers);
    FlattenIds(layers);
    assert layers[..|layers|] == layers;
    ReconcileBuild.FlattenOrdered(commands, layers, |layers|);
    assert forall i :: 0 <= i < |order| ==> ids[i] == ReconcileBuild.ReconcileGraph.Cmd(order[i]);
    forall x
      ensures x in order <==> Known(commands, x)
    {
      ReconcileBuild.FlattenMembers(layers, ReconcileBuild.ReconcileGraph.Cmd(x));
      IdsMember(order, x);
    }
    forall i, y | 0 <= i < |order| && ComposeSpec.After(commands, order[i], y) && Known(commands, y)
      ensures y in order[..i]
    {
      assert ids[i].name == order[i];
      assert ComposeSpec.After(commands, ids[i].name, y);
      assert ids[..i] == ReconcileBuild.Ids(order[..i]);
      IdsMember(order[..i], y);
    }
  }

  // ---- Computing the plan ---------------------------------------------------

  method ReadExisting(spec: Spec, existing: seq<Entry>)
    returns (err: Option<PlanError>, index: map<Key, Entry>, orphans: seq<Entry>)
    ensures err.None? <==> forall e :: e in existing ==> !Collides(spec, e)
    ensures err.Some? ==> exists i :: FirstCollision(spec, existing, i) && err == Some(Collision(existing[i].labels.value.file))
    ensures err.None? ==> index == Indexed(spec.commands, existing) && orphans == OrphansOf(spec.commands, existing)
  {
    index, orphans := map[], [];
    for i := 0 to |existing|
      invariant forall k :: 0 <= k < i ==> !Collides(spec, existing[k])
      invariant index == Indexed(spec.commands, existing[..i]) && orphans == OrphansOf(spec.commands, existing[..i])
    {
      var e := existing[i];
      assert existing[..i + 1][..i] == existing[..i];
      if e.labels.Some? {
        var file := e.labels.value.file;
        if file != "" && file != spec.composeFile {
          assert FirstCollision(spec, existing, i);
          return Some(Collision(file)), index, orphans;
        }
        if e.labels.value.command in NamesOf(spec.commands) {
          index := index[Key(e.labels.value.command, ScaleIndexOf(e)) := e];
        } else {
          orphans := orphans + [e];
        }
      }
    }
    assert existing[..|existing|] == existing;
    err := None;
  }

  function KeysOf(name: string, n: nat): set<Key> {
    set i | 1 <= i <= n :: Key(name, i)
  }

  /** The actions of one command; each consumes the entry it finds. */
  method PlanCommand(c: Command, ghost index: map<Key, Entry>, was: map<Key, Entry>, hash: Hash)
    returns (actions: seq<Action>, left: map<Key, Entry>)
    requires forall i :: Key(c.name, i) in was <==> Key(c.name, i) in index
    requires forall k :: k in was ==> k in index && was[k] == index[k]
    ensures actions == ReplicaActions(c, Replicas(c), index, hash)
    ensures left == was - KeysOf(c.name, Replicas(c))
  {
    actions, left := [], was;
    var h := HashOf(hash, c);
    var n := Replicas(c);
    for idx := 1 to n + 1
      invariant actions == ReplicaActions(c, idx - 1, index, hash)
      invariant left == was - KeysOf(c.name, idx - 1)
    {
      var key := Key(c.name, idx);
      assert key in left <==> key in index;
      if key !in left {
        actions := actions + [Action(Create, c, idx, InstanceName(c.generatedName, idx), None, h)];
      } else {
        var e := left[key];
        var stored := if e.labels.Some? then e.labels.value.configHash else "";
        var kind := if stored == h then Unchanged else Recreate;
        actions := actions + [Action(kind, c, idx, InstanceName(c.generatedName, idx), Some(e), h)];
      }
      left := left - {key};
      assert KeysOf(c.name, idx) == KeysOf(c.name, idx - 1) + {key};
    }
  }

  /** The keys of the replicas of the commands listed. */
  ghost predicate Handled(commands: seq<Command>, order: seq<string>, k: Key) {
    k.command in order && Desired(commands, k)
  }

  ghost function Unhandled(commands: seq<Command>, order: seq<string>, index: map<Key, Entry>): map<Key, Entry> {
    map k | k in index && !Handled(commands, order, k) :: index[k]
  }

  method PlanActions(commands: seq<Command>, order: seq<string>, index: map<Key, Entry>, hash: Hash)
    returns (actions: seq<Action>, left: map<Key, Entry>)
    requires DependencyOrder(commands, order)
    ensures actions == ActionsFor(commands, order, index, hash)
    ensures left == map k | k in index && !Desired(commands, k) :: index[k]
  {
    hide ReplicaActions, LessEq, Known, Desired, ComposeSpec.After;
    actions, left := [], index;
    assert Unhandled(commands, order[..0], index) == index;
    for i := 0 to |order|
      invariant actions == ActionsFor(commands, order[..i], index, hash)
      invariant left == Unhandled(commands, order[..i], index)
    {
      var c := Find(commands, order[i]);
      assert order[..i + 1] == order[..i] + [order[i]];
      assert order[i] !in order[..i];
      var more, rest := PlanCommand(c, index, left, hash);
      HandledMore(commands, order[..i], order[i], index);
      actions := actions + more;
      left := rest;
    }
    assert order[..|order|] == order;
    AllHandled(commands, order, index);
  }

  lemma HandledMore(commands: seq<Command>, order: seq<string>, name: string, index: map<Key, Entry>)
    requires Known(commands, name) && name !in order
    ensures Unhandled(commands, order + [name], index) ==
            Unhandled(commands, order, index) - KeysOf(name, Replicas(Find(commands, name)))
  {
    var n := Replicas(Find(commands, name));
    forall k
      ensures Handled(commands, order + [name], k) <==> Handled(commands, order, k) || k in KeysOf(name, n)
    {
    }
  }

  lemma AllHandled(commands: seq<Command>, order: seq<string>, index: map<Key, Entry>)
    requires DependencyOrder(commands, order)
    ensures Unhandled(commands, order, index) == map k | k in index && !Desired(commands, k) :: index[k]
  {
  }

  // ---- The surplus ----------------------------------------------------------

  function InsertEntry(e: Entry, s: seq<Entry>): seq<Entry> {
    if s == [] || LessEq(e.name, s[0].name) then [e] + s else [s[0]] + InsertEntry(e, s[1..])
  }

  lemma {:induction false} InsertEntrySorts(e: Entry, s: seq<Entry>)
    requires SortedByName(s)
    ensures SortedByName(InsertEntry(e, s)) && |InsertEntry(e, s)| == |s| + 1
    ensures forall x :: x in InsertEntry(e, s) <==> x == e || x in s
  {
    if s == [] {
    } else if LessEq(e.name, s[0].name) {
      forall j | 0 < j < |s| + 1
        ensures LessEq(e.name, ([e] + s)[j].name)
      {
        if j > 1 {
          LessEqTransitive(e.name, s[0].name, s[j - 1].name);
        }
      }
    } else {
      InsertEntrySorts(e, s[1..]);
      LessEqTotal(e.name, s[0].name);
      var r := InsertEntry(e, s[1..]);
      forall j | 0 <= j < |r|
        ensures LessEq(s[0].name, r[j].name)
      {
        assert r[j] in r;
      }
      assert forall x :: x in s <==> x == s[0] || x in s[1..];
    }
  }

  /** The entries left over, in no particular order, then by name. */
  method Surplus(left: map<Key, Entry>) returns (excess: seq<Entry>)
    ensures SortedByName(excess) && ListsValues(excess, left)
  {
    hide LessEq;
    excess := [];
    var keys := left.Keys;
    while keys != {}
      invariant keys <= left.Keys
      invariant SortedByName(excess) && |excess| == |left.Keys - keys|
      invariant forall e :: e in excess ==> exists k :: k in left && left[k] == e
      invariant forall k :: k in left.Keys - keys ==> left[k] in excess
      decreases keys
    {
      var k :| k in keys;
      InsertEntrySorts(left[k], excess);
      assert left.Keys - (keys - {k}) == (left.Keys - keys) + {k};
      excess := InsertEntry(left[k], excess);
      keys := keys - {k};
    }
    assert left.Keys - keys == left.Keys;
    assert |left.Keys| == |left|;
  }

  method ComputePlan(spec: Spec, hash: Hash, existing: seq<Entry>) returns (r: Result<Plan, PlanError>)
    requires DistinctCommands(spec.commands)
    ensures r.Ok? <==> && AllKnown(spec.commands) && Acyclic(spec.commands)
                       && forall e :: e in existing ==> !Collides(spec, e)
    ensures r.Ok? ==> IsPlan(spec, hash, existing, r.value)
  {
    hide LessEq, AllKnown, Acyclic, IsLayering, Indexed, OrphansOf, ActionsFor, ListsValues, Collides, DistinctCommands, SortedByName;
    var bad := ValidateDAG(spec.commands);
    if bad.Some? {
      return Err(BadGraph(bad.value));
    }
    var err, index, orphans := ReadExisting(spec, existing);
    if err.Some? {
      return Err(err.value);
    }
    var layers := TopoLayers.TopoLayers(spec.commands);
    // The graph was validated above, so its layering exists.
    assert layers.Ok?;
    LayersGiveOrder(spec.commands, layers.value);
    var order := FlattenNames(layers.value);
    var actions, left := PlanActions(spec.commands, order, index, hash);
    var excess := Surplus(left);
    r := Ok(Plan(actions, orphans, excess));
    assert DependencyOrder(spec.commands, order) && actions == ActionsFor(spec.commands, order, index, hash);
  }

  // ---- What a plan says -----------------------------------------------------

  lemma {:induction false} ReplicaActionsMember(c: Command, n: nat, index: map<Key, Entry>, hash: Hash, a: Action)
    ensures a in ReplicaActions(c, n, index, hash) <==> 1 <= a.scaleIndex <= n && a == ActionFor(c, a.scaleIndex, index, hash)
  {
    if n > 0 {
      ReplicaActionsMember(c, n - 1, index, hash, a);
    }
  }

  lemma {:induction false} ActionsMember(commands: seq<Command>, order: seq<string>, index: map<Key, Entry>, hash: Hash, a: Action)
    requires forall x :: x in order ==> Known(commands, x)
    ensures a in ActionsFor(commands, order, index, hash) <==>
              a.desired.name in order && Desired(commands, Key(a.desired.name, a.scaleIndex))
              && a == ActionFor(Find(commands, a.desired.name), a.scaleIndex, index, hash)
  {
    hide ReplicaActions, ActionFor, LessEq;
    if order != [] {
      var init, name := order[..|order| - 1], order[|order| - 1];
      var c := Find(commands, name);
      ActionsMember(commands, init, index, hash, a);
      ReplicaActionsMember(c, Replicas(c), index, hash, a);
      assert a.desired.name in order <==> a.desired.name in init || a.desired.name == name;
      ActionForDesires(c, a.scaleIndex, index, hash);
    }
  }

  lemma ActionForDesires(c: Command, idx: int, index: map<Key, Entry>, hash: Hash)
    ensures ActionFor(c, idx, index, hash).desired == c && ActionFor(c, idx, index, hash).scaleIndex == idx
  {
  }

  /** A plan holds one action for each desired replica, and none else. */
  lemma PlanActionsMember(spec: Spec, hash: Hash, existing: seq<Entry>, plan: Plan, a: Action)
    requires IsPlan(spec, hash, existing, plan)
    ensures a in plan.actions <==>
              Desired(spec.commands, Key(a.desired.name, a.scaleIndex))
              && a == ActionFor(Find(spec.commands, a.desired.name), a.scaleIndex, Indexed(spec.commands, existing), hash)
  {
    hide ActionsFor, ActionFor, ListsValues, SortedByName, OrphansOf, Indexed;
    var index := Indexed(spec.commands, existing);
    var order :| DependencyOrder(spec.commands, order) && plan.actions == ActionsFor(spec.commands, order, index, hash);
    ActionsMember(spec.commands, order, index, hash, a);
  }

  /** Wanted entries have distinct commands or indices. */
  predicate KeysDistinct(commands: seq<Command>, existing: seq<Entry>) {
    forall i, j :: 0 <= i < j < |existing| && Wanted(commands, existing[i]) && Wanted(commands, existing[j]) ==>
      KeyOf(existing[i]) != KeyOf(existing[j])
  }

  lemma LastKeyFresh(commands: seq<Command>, existing: seq<Entry>, e: Entry)
    requires KeysDistinct(commands, existing) && existing != [] && e in existing[..|existing| - 1]
    requires Wanted(commands, e) && Wanted(commands, existing[|existing| - 1])
    ensures KeyOf(e) != KeyOf(existing[|existing| - 1])
  {
    var i :| 0 <= i < |existing| - 1 && existing[..|existing| - 1][i] == e;
    assert existing[i] == e;
  }

  lemma {:induction false} IndexedMember(commands: seq<Command>, existing: seq<Entry>, k: Key)
    requires KeysDistinct(commands, existing)
    ensures k in Indexed(commands, existing) <==> exists e :: e in existing && Wanted(commands, e) && KeyOf(e) == k
    ensures forall e :: e in existing && Wanted(commands, e) && KeyOf(e) == k ==>
              k in Indexed(commands, existing) && Indexed(commands, existing)[k] == e
  {
    hide Known, KeyOf;
    if existing != [] {
      var init, last := existing[..|existing| - 1], existing[|existing| - 1];
      IndexedMember(commands, init, k);
      assert existing == init + [last];
      forall e | e in existing && Wanted(commands, e) && KeyOf(e) == k
        ensures k in Indexed(commands, existing) && Indexed(commands, existing)[k] == e
      {
        if e in init && Wanted(commands, last) {
          LastKeyFresh(commands, existing, e);
        }
      }
      if k in Indexed(commands, existing) {
        if Wanted(commands, last) && KeyOf(last) == k {
          assert last in existing;
        } else {
          var e :| e in init && Wanted(commands, e) && KeyOf(e) == k;
          assert e in existing;
        }
      }
    }
  }

  lemma {:induction false} OrphansMember(commands: seq<Command>, existing: seq<Entry>, e: Entry)
    ensures e in OrphansOf(commands, existing) <==> e in existing && Orphan(commands, e)
  {
    hide Known;
    if existing != [] {
      OrphansMember(commands, existing[..|existing| - 1], e);
      assert existing == existing[..|existing| - 1] + [existing[|existing| - 1]];
    }
  }

  ghost predicate InActions(plan: Plan, e: Entry) {
    exists a :: a in plan.actions && a.existing == Some(e)
  }

  /** Every stored entry with a config falls into exactly one part of the plan: the
      entry of a desired replica is in an action, that of another replica of a
      desired command in the surplus, any other among the orphans. */
  lemma PlanPartitions(spec: Spec, hash: Hash, existing: seq<Entry>, plan: Plan, e: Entry)
    requires IsPlan(spec, hash, existing, plan) && KeysDistinct(spec.commands, existing)
    requires e in existing && e.labels.Some?
    ensures InActions(plan, e) <==> Wanted(spec.commands, e) && Desired(spec.commands, KeyOf(e))
    ensures e in plan.excess <==> Wanted(spec.commands, e) && !Desired(spec.commands, KeyOf(e))
    ensures e in plan.orphans <==> !Wanted(spec.commands, e)
  {
    hide ActionsFor, DependencyOrder, SortedByName, OrphansOf, Indexed, KeyOf, KeysDistinct, Desired;
    var index := Indexed(spec.commands, existing);
    OrphansMember(spec.commands, existing, e);
    forall k | k in index && index[k] == e
      ensures k == KeyOf(e) && Wanted(spec.commands, e)
    {
      IndexedKey(spec.commands, existing, k);
    }
    if Wanted(spec.commands, e) {
      var k := KeyOf(e);
      IndexedMember(spec.commands, existing, k);
      if Desired(spec.commands, k) {
        KeyParts(spec.commands, e);
        var a := ActionFor(Find(spec.commands, k.command), k.index, index, hash);
        PlanActionsMember(spec, hash, existing, plan, a);
        assert a in plan.actions && a.existing == Some(e);
      }
    }
    var left := map k | k in index && !Desired(spec.commands, k) :: index[k];
    if Wanted(spec.commands, e) && !Desired(spec.commands, KeyOf(e)) {
      assert KeyOf(e) in left && left[KeyOf(e)] == e;
    }
    if e in plan.excess {
      var k :| k in left && left[k] == e;
    }
    if InActions(plan, e) {
      var a :| a in plan.actions && a.existing == Some(e);
      PlanActionsMember(spec, hash, existing, plan, a);
      DesiredKnown(spec.commands, Key(a.desired.name, a.scaleIndex));
      assert Key(a.desired.name, a.scaleIndex) in index;
    }
  }

  lemma DesiredKnown(commands: seq<Command>, k: Key)
    requires Desired(commands, k)
    ensures Known(commands, k.command) && Find(commands, k.command).name == k.command
  {
  }

  lemma KeyParts(commands: seq<Command>, e: Entry)
    requires Wanted(commands, e)
    ensures Known(commands, KeyOf(e).command) && Find(commands, KeyOf(e).command).name == KeyOf(e).command
  {
  }

  lemma {:induction false} IndexedKey(commands: seq<Command>, existing: seq<Entry>, k: Key)
    requires k in Indexed(commands, existing)
    ensures var e := Indexed(commands, existing)[k]; e in existing && Wanted(commands, e) && KeyOf(e) == k
  {
    hide Known, KeyOf;
    var init, last := existing[..|existing| - 1], existing[|existing| - 1];
    assert existing == init + [last];
    if !(Wanted(commands, last) && KeyOf(last) == k) {
      IndexedKey(commands, init, k);
    }
  }

  // ---- Convergence ----------------------------------------------------------

  /** What action a leaves stored for its replica: the entry it found when it has
      nothing to do, with the labels of an earlier spec on it, else a new one. */
  ghost predicate Leaves(spec: Spec, a: Action, e: Entry) {
    if a.kind.Unchanged? then a.existing == Some(e)
    else exists id :: e == EntryFor(spec, a.desired, a.hash, a.scaleIndex, id)
  }

  ghost predicate LeftBy(spec: Spec, plan: Plan, e: Entry) {
    exists a :: a in plan.actions && Leaves(spec, a, e)
  }

  ghost predicate LeavesOne(spec: Spec, a: Action, after: seq<Entry>) {
    exists e :: e in after && Leaves(spec, a, e)
  }

  /** The stored entries once the plan is carried out: one for each action, besides
      orphans that were left in place and entries without a config. */
  ghost predicate Applied(spec: Spec, plan: Plan, after: seq<Entry>) {
    && (forall a :: a in plan.actions ==> LeavesOne(spec, a, after))
    && (forall e :: e in after ==> !Wanted(spec.commands, e) || LeftBy(spec, plan, e))
  }

  /** What an action leaves is stored under its replica, with the hash of its
      command. */
  lemma LeftMeans(spec: Spec, hash: Hash, existing: seq<Entry>, plan: Plan, a: Action, e: Entry)
    requires IsPlan(spec, hash, existing, plan) && ScalesFit(spec.commands)
    requires a in plan.actions && Leaves(spec, a, e)
    ensures Wanted(spec.commands, e) && KeyOf(e) == Key(a.desired.name, a.scaleIndex) && Desired(spec.commands, KeyOf(e))
    ensures e.labels.value.configHash == HashOf(hash, a.desired) && a.desired == Find(spec.commands, a.desired.name)
  {
    hide ActionsFor, DependencyOrder, SortedByName, OrphansOf, Indexed, IsPlan, ListsValues, Itoa, Atoi;
    var index := Indexed(spec.commands, existing);
    PlanActionsMember(spec, hash, existing, plan, a);
    var k := Key(a.desired.name, a.scaleIndex);
    DesiredKnown(spec.commands, k);
    ActionForDesires(Find(spec.commands, k.command), k.index, index, hash);
    if a.kind.Unchanged? {
      IndexedKey(spec.commands, existing, k);
    } else {
      var id :| e == EntryFor(spec, a.desired, a.hash, a.scaleIndex, id);
      ScaleIndexReadsBack(spec, a.desired, a.hash, a.scaleIndex, id);
    }
  }

  predicate ScalesFit(commands: seq<Command>) {
    forall c :: c in commands ==> Replicas(c) <= MAX_INT
  }

  /** Commands that differ in nothing but scale and generated name. */
  ghost predicate SameButScale(before: seq<Command>, after: seq<Command>) {
    forall x :: Known(before, x) && Known(after, x) ==>
      && Find(before, x).after == Find(after, x).after && Find(before, x).runtime == Find(after, x).runtime
  }

  lemma AppliedEntry(spec: Spec, hash: Hash, existing: seq<Entry>, plan: Plan, after: seq<Entry>, e: Entry)
    requires IsPlan(spec, hash, existing, plan) && Applied(spec, plan, after) && ScalesFit(spec.commands)
    requires e in after && Wanted(spec.commands, e)
    ensures Desired(spec.commands, KeyOf(e))
    ensures e.labels.value.configHash == HashOf(hash, Find(spec.commands, e.labels.value.command))
  {
    hide IsPlan, Leaves, KeyOf, Desired, ScalesFit;
    assert LeftBy(spec, plan, e);
    var a :| a in plan.actions && Leaves(spec, a, e);
    LeftMeans(spec, hash, existing, plan, a, e);
    KeyCommand(e);
  }

  lemma AppliedHas(spec: Spec, hash: Hash, existing: seq<Entry>, plan: Plan, after: seq<Entry>, k: Key)
    requires IsPlan(spec, hash, existing, plan) && Applied(spec, plan, after) && ScalesFit(spec.commands)
    requires Desired(spec.commands, k)
    ensures exists e :: e in after && Wanted(spec.commands, e) && KeyOf(e) == k
  {
    hide IsPlan, Leaves, KeyOf, Desired, ScalesFit, Indexed, ActionFor;
    DesiredKnown(spec.commands, k);
    var index := Indexed(spec.commands, existing);
    var c := Find(spec.commands, k.command);
    var a := ActionFor(c, k.index, index, hash);
    ActionForDesires(c, k.index, index, hash);
    PlanActionsMember(spec, hash, existing, plan, a);
    assert LeavesOne(spec, a, after);
    var e :| e in after && Leaves(spec, a, e);
    LeftMeans(spec, hash, existing, plan, a, e);
  }

  lemma {:induction false} IndexedSome(commands: seq<Command>, existing: seq<Entry>, e: Entry)
    requires e in existing && Wanted(commands, e)
    ensures KeyOf(e) in Indexed(commands, existing)
  {
    hide Known, KeyOf;
    var init, last := existing[..|existing| - 1], existing[|existing| - 1];
    assert existing == init + [last];
    if e != last {
      IndexedSome(commands, init, e);
    }
  }

  /** Planning again after a plan was carried out, for commands that differ at most in
      scale and generated name, recreates nothing: a replica that survives is
      unchanged, and it is missing only beyond the replica count planned before. */
  lemma ScaleOnlyNeverRecreates(spec: Spec, hash: Hash, existing: seq<Entry>, plan: Plan, after: seq<Entry>,
      spec': Spec, plan': Plan, a: Action)
    requires IsPlan(spec, hash, existing, plan) && Applied(spec, plan, after) && ScalesFit(spec.commands)
    requires IsPlan(spec', hash, after, plan') && SameButScale(spec.commands, spec'.commands)
    requires forall x :: Known(spec'.commands, x) <==> Known(spec.commands, x)
    requires a in plan'.actions
    ensures a.kind == if Desired(spec.commands, Key(a.desired.name, a.scaleIndex)) then Unchanged else Create
  {
    hide IsPlan, Applied, ScalesFit, Desired, KeyOf, Indexed, Known;
    var index := Indexed(spec'.commands, after);
    PlanActionsMember(spec', hash, after, plan', a);
    var k := Key(a.desired.name, a.scaleIndex);
    DesiredKnown(spec'.commands, k);
    if k in index {
      IndexedKey(spec'.commands, after, k);
      AppliedEntry(spec, hash, existing, plan, after, index[k]);
      KeyCommand(index[k]);
    }
    if Desired(spec.commands, k) {
      AppliedHas(spec, hash, existing, plan, after, k);
      var e :| e in after && Wanted(spec.commands, e) && KeyOf(e) == k;
      IndexedSome(spec'.commands, after, e);
    }
  }

  /** No two inputs have one hash. */
  ghost predicate Injective(hash: Hash) {
    forall x, y :: hash(x) == hash(y) ==> x == y
  }

  /** The command runs the same way: its runtime fields agree, and so do its
      dependencies up to their order. */
  predicate SameConfig(c: Command, d: Command) {
    c.runtime == d.runtime && multiset(c.after) == multiset(d.after)
  }

  lemma HashTells(hash: Hash, c: Command, d: Command)
    requires Injective(hash) && c.name == d.name
    ensures HashOf(hash, c) == HashOf(hash, d) <==> SameConfig(c, d)
  {
  }

  /** Planning for a changed spec after a plan was carried out: of the commands that
      were in the spec before, a replica that is there already is recreated exactly
      when its command changed in its runtime fields or its dependencies, and else is
      unchanged; one beyond the replica count planned before is created. */
  lemma RecreatedExactly(spec: Spec, hash: Hash, existing: seq<Entry>, plan: Plan, after: seq<Entry>,
      spec': Spec, plan': Plan, a: Action)
    requires IsPlan(spec, hash, existing, plan) && Applied(spec, plan, after) && ScalesFit(spec.commands)
    requires IsPlan(spec', hash, after, plan') && Injective(hash)
    requires a in plan'.actions && Known(spec.commands, a.desired.name)
    ensures var was := Find(spec.commands, a.desired.name);
      && a.desired in spec'.commands && a.hash == HashOf(hash, a.desired)
      && a.kind == if a.scaleIndex > 1 && a.scaleIndex > was.scale then Create
                   else if was.runtime == a.desired.runtime && multiset(was.after) == multiset(a.desired.after) then Unchanged
                   else Recreate
  {
    hide IsPlan, Applied, ScalesFit, Desired, KeyOf, Indexed, Known, HashOf;
    var index := Indexed(spec'.commands, after);
    PlanActionsMember(spec', hash, after, plan', a);
    var k := Key(a.desired.name, a.scaleIndex);
    DesiredKnown(spec'.commands, k);
    DesiredIndex(spec.commands, k);
    DesiredIndex(spec'.commands, k);
    if k in index {
      IndexedKey(spec'.commands, after, k);
      KeyCommand(index[k]);
      AppliedEntry(spec, hash, existing, plan, after, index[k]);
    }
    if Desired(spec.commands, k) {
      AppliedHas(spec, hash, existing, plan, after, k);
      var e :| e in after && Wanted(spec.commands, e) && KeyOf(e) == k;
      KeyCommand(e);
      IndexedSome(spec'.commands, after, e);
      HashTells(hash, Find(spec.commands, k.command), a.desired);
    }
  }

  lemma DesiredIndex(commands: seq<Command>, k: Key)
    ensures Desired(commands, k) <==>
              Known(commands, k.command) && k.index >= 1 && (k.index == 1 || k.index <= Find(commands, k.command).scale)
  {
  }

  lemma KeyCommand(e: Entry)
    ensures e.labels.Some? ==> KeyOf(e).command == e.labels.value.command
  {
  }

  /** Carrying out a plan and planning again leaves nothing to do. */
  lemma PlanConverges(spec: Spec, hash: Hash, existing: seq<Entry>, plan: Plan, after: seq<Entry>, plan': Plan)
    requires IsPlan(spec, hash, existing, plan) && Applied(spec, plan, after) && ScalesFit(spec.commands)
    requires IsPlan(spec, hash, after, plan')
    ensures (forall a :: a in plan'.actions ==> a.kind == Unchanged) && plan'.excess == []
  {
    hide Applied, ScalesFit, Desired, KeyOf, Indexed, Known, ActionsFor, DependencyOrder, OrphansOf, SortedByName;
    forall a | a in plan'.actions
      ensures a.kind == Unchanged
    {
      PlanActionsMember(spec, hash, after, plan', a);
      ScaleOnlyNeverRecreates(spec, hash, existing, plan, after, spec, plan', a);
    }
    var index := Indexed(spec.commands, after);
    forall k | k in index
      ensures Desired(spec.commands, k)
    {
      IndexedKey(spec.commands, after, k);
      AppliedEntry(spec, hash, existing, plan, after, index[k]);
    }
    assert (map k | k in index && !Desired(spec.commands, k) :: index[k]) == map[];
  }

  // ---- Carrying out a plan --------------------------------------------------

  function Without(s: seq<Entry>, e: Entry): (r: seq<Entry>)
    ensures forall x :: x in r <==> x in s && x != e
  {
    if s == [] then []
    else Without(s[..|s| - 1], e) + if s[|s| - 1] == e then [] else [s[|s| - 1]]
  }

  function NewEntry(spec: Spec, a: Action, id: string): Entry {
    EntryFor(spec, a.desired, a.hash, a.scaleIndex, id)
  }

  /** The ids a store gives out are new. */
  ghost predicate NewIds(existing: seq<Entry>, newId: nat -> string) {
    forall i, e :: e in existing ==> newId(i) != e.id
  }

  ghost predicate Replaced(plan: Plan, e: Entry, n: nat) {
    exists j :: 0 <= j < n && j < |plan.actions| && plan.actions[j].kind.Recreate? && plan.actions[j].existing == Some(e)
  }

  ghost predicate Made(spec: Spec, plan: Plan, newId: nat -> string, e: Entry, n: nat) {
    exists j: nat :: j < n && j < |plan.actions| && !plan.actions[j].kind.Unchanged? && e == NewEntry(spec, plan.actions[j], newId(j))
  }

  /** What is stored once the surplus is removed, the orphans too when asked for, and
      the first n actions are carried out. */
  ghost predicate StoredAfter(spec: Spec, plan: Plan, existing: seq<Entry>, removeOrphans: bool, newId: nat -> string,
      after: seq<Entry>, n: nat)
  {
    forall e :: e in after <==>
      || Made(spec, plan, newId, e, n)
      || (e in existing && e !in plan.excess && !(removeOrphans && e in plan.orphans) && !Replaced(plan, e, n))
  }

  /** Removes what the plan leaves over, then carries out its actions in order; all of
      it works. */
  method CarryOut(spec: Spec, ghost hash: Hash, existing: seq<Entry>, plan: Plan, removeOrphans: bool, newId: nat -> string)
    returns (after: seq<Entry>)
    requires IsPlan(spec, hash, existing, plan) && KeysDistinct(spec.commands, existing) && NewIds(existing, newId)
    ensures Applied(spec, plan, after)
    ensures forall e :: e in existing && !Wanted(spec.commands, e) ==> (e in after <==> !(removeOrphans && e in plan.orphans))
  {
    hide IsPlan, Wanted, KeysDistinct;
    after := existing;
    if removeOrphans {
      for i := 0 to |plan.orphans|
        invariant forall e :: e in after <==> e in existing && e !in plan.orphans[..i]
      {
        assert plan.orphans[..i + 1] == plan.orphans[..i] + [plan.orphans[i]];
        after := Without(after, plan.orphans[i]);
      }
      assert plan.orphans[..|plan.orphans|] == plan.orphans;
    }
    ghost var orphaned := after;
    for i := 0 to |plan.excess|
      invariant forall e :: e in after <==> e in orphaned && e !in plan.excess[..i]
    {
      assert plan.excess[..i + 1] == plan.excess[..i] + [plan.excess[i]];
      after := Without(after, plan.excess[i]);
    }
    assert plan.excess[..|plan.excess|] == plan.excess;
    for i := 0 to |plan.actions|
      invariant StoredAfter(spec, plan, existing, removeOrphans, newId, after, i)
    {
      var a := plan.actions[i];
      if a.kind.Recreate? {
        ActionEntry(spec, hash, existing, plan, a);
      }
      StoredNext(spec, plan, existing, removeOrphans, newId, after, i);
      match a.kind
      case Unchanged =>
      case Create =>
        after := after + [NewEntry(spec, a, newId(i))];
      case Recreate =>
        after := Without(after, a.existing.value) + [NewEntry(spec, a, newId(i))];
    }
    StoredIsApplied(spec, hash, existing, plan, removeOrphans, newId, after);
    forall e | e in existing && !Wanted(spec.commands, e)
      ensures e in after <==> !(removeOrphans && e in plan.orphans)
    {
      UnwantedStays(spec, hash, existing, plan, newId, e, |plan.actions|);
    }
  }

  lemma ActionEntry(spec: Spec, hash: Hash, existing: seq<Entry>, plan: Plan, a: Action)
    requires IsPlan(spec, hash, existing, plan) && a in plan.actions
    ensures a.kind.Create? <==> a.existing.None?
    ensures a.existing.Some? ==>
              a.existing.value in existing && Wanted(spec.commands, a.existing.value)
              && KeyOf(a.existing.value) == Key(a.desired.name, a.scaleIndex) && Desired(spec.commands, KeyOf(a.existing.value))
  {
    hide IsPlan, Indexed, Desired, KeyOf, Wanted;
    PlanActionsMember(spec, hash, existing, plan, a);
    var k := Key(a.desired.name, a.scaleIndex);
    if k in Indexed(spec.commands, existing) {
      IndexedKey(spec.commands, existing, k);
    }
  }

  lemma StoredNext(spec: Spec, plan: Plan, existing: seq<Entry>, removeOrphans: bool, newId: nat -> string, after: seq<Entry>, n: nat)
    requires StoredAfter(spec, plan, existing, removeOrphans, newId, after, n) && n < |plan.actions| && NewIds(existing, newId)
    requires plan.actions[n].kind.Recreate? ==> plan.actions[n].existing.Some? && plan.actions[n].existing.value in existing
    ensures var a := plan.actions[n];
      var made := NewEntry(spec, a, newId(n));
      StoredAfter(spec, plan, existing, removeOrphans, newId,
        if a.kind.Unchanged? then after
        else if a.kind.Create? then after + [made]
        else Without(after, a.existing.value) + [made], n + 1)
  {
    var a := plan.actions[n];
    var made := NewEntry(spec, a, newId(n));
    forall e
      ensures Made(spec, plan, newId, e, n + 1) <==> Made(spec, plan, newId, e, n) || (!a.kind.Unchanged? && e == made)
      ensures Replaced(plan, e, n + 1) <==> Replaced(plan, e, n) || (a.kind.Recreate? && a.existing == Some(e))
      ensures Made(spec, plan, newId, e, n) ==> e !in existing
    {
    }
  }

  lemma UnwantedStays(spec: Spec, hash: Hash, existing: seq<Entry>, plan: Plan, newId: nat -> string, e: Entry, n: nat)
    requires IsPlan(spec, hash, existing, plan) && KeysDistinct(spec.commands, existing) && NewIds(existing, newId)
    requires e in existing && !Wanted(spec.commands, e)
    ensures e !in plan.excess && !Replaced(plan, e, n) && !Made(spec, plan, newId, e, n)
  {
    hide IsPlan, Wanted, KeyOf, Desired, KeysDistinct;
    if e in plan.excess {
      ExcessMeans(spec, hash, existing, plan, e);
    }
    if Replaced(plan, e, n) {
      var j :| 0 <= j < n && j < |plan.actions| && plan.actions[j].kind.Recreate? && plan.actions[j].existing == Some(e);
      ActionEntry(spec, hash, existing, plan, plan.actions[j]);
    }
  }

  lemma ExcessMeans(spec: Spec, hash: Hash, existing: seq<Entry>, plan: Plan, e: Entry)
    requires IsPlan(spec, hash, existing, plan)
    ensures e in plan.excess ==> Wanted(spec.commands, e) && !Desired(spec.commands, KeyOf(e))
  {
    hide ActionsFor, DependencyOrder, SortedByName, OrphansOf, Indexed, KeyOf, Desired;
    if e in plan.excess {
      var index := Indexed(spec.commands, existing);
      var left := map k | k in index && !Desired(spec.commands, k) :: index[k];
      var k :| k in left && left[k] == e;
      IndexedKey(spec.commands, existing, k);
    }
  }

  lemma StoredIsApplied(spec: Spec, hash: Hash, existing: seq<Entry>, plan: Plan, removeOrphans: bool, newId: nat -> string, after: seq<Entry>)
    requires IsPlan(spec, hash, existing, plan) && KeysDistinct(spec.commands, existing) && NewIds(existing, newId)
    requires StoredAfter(spec, plan, existing, removeOrphans, newId, after, |plan.actions|)
    ensures Applied(spec, plan, after)
  {
    hide IsPlan, Wanted, KeyOf, Desired, KeysDistinct, StoredAfter, Replaced;
    forall a | a in plan.actions
      ensures LeavesOne(spec, a, after)
    {
      var j: nat :| j < |plan.actions| && plan.actions[j] == a;
      if a.kind.Unchanged? {
        ActionEntry(spec, hash, existing, plan, a);
        UnchangedStays(spec, hash, existing, plan, a, |plan.actions|);
        InStore(spec, plan, existing, removeOrphans, newId, after, a.existing.value);
        assert Leaves(spec, a, a.existing.value);
      } else {
        var made := NewEntry(spec, a, newId(j));
        assert Made(spec, plan, newId, made, |plan.actions|);
        InStore(spec, plan, existing, removeOrphans, newId, after, made);
        assert Leaves(spec, a, made);
      }
    }
    forall e | e in after && Wanted(spec.commands, e)
      ensures LeftBy(spec, plan, e)
    {
      InStore(spec, plan, existing, removeOrphans, newId, after, e);
      if Made(spec, plan, newId, e, |plan.actions|) {
        var j: nat :| j < |plan.actions| && !plan.actions[j].kind.Unchanged? && e == NewEntry(spec, plan.actions[j], newId(j));
        assert plan.actions[j] in plan.actions && Leaves(spec, plan.actions[j], e);
      } else {
        WantedLeft(spec, hash, existing, plan, e);
      }
    }
  }

  lemma InStore(spec: Spec, plan: Plan, existing: seq<Entry>, removeOrphans: bool, newId: nat -> string, after: seq<Entry>, e: Entry)
    requires StoredAfter(spec, plan, existing, removeOrphans, newId, after, |plan.actions|)
    ensures e in after <==>
      || Made(spec, plan, newId, e, |plan.actions|)
      || (e in existing && e !in plan.excess && !(removeOrphans && e in plan.orphans) && !Replaced(plan, e, |plan.actions|))
  {
  }

  /** A stored entry that is neither surplus nor replaced belongs to an unchanged
      replica. */
  lemma WantedLeft(spec: Spec, hash: Hash, existing: seq<Entry>, plan: Plan, e: Entry)
    requires IsPlan(spec, hash, existing, plan) && KeysDistinct(spec.commands, existing)
    requires e in existing && Wanted(spec.commands, e) && e !in plan.excess && !Replaced(plan, e, |plan.actions|)
    ensures LeftBy(spec, plan, e)
  {
    hide IsPlan, KeysDistinct, KeyOf, Desired;
    PlanPartitions(spec, hash, existing, plan, e);
    var a :| a in plan.actions && a.existing == Some(e);
    var j :| 0 <= j < |plan.actions| && plan.actions[j] == a;
    ActionEntry(spec, hash, existing, plan, a);
    assert Leaves(spec, a, e);
  }

  lemma UnchangedStays(spec: Spec, hash: Hash, existing: seq<Entry>, plan: Plan, a: Action, n: nat)
    requires IsPlan(spec, hash, existing, plan) && KeysDistinct(spec.commands, existing)
    requires a in plan.actions && a.kind.Unchanged? && a.existing.Some?
    ensures a.existing.value !in plan.excess && a.existing.value !in plan.orphans && !Replaced(plan, a.existing.value, n)
  {
    hide IsPlan, KeysDistinct, KeyOf, Desired, Indexed, ActionFor;
    var e := a.existing.value;
    ActionEntry(spec, hash, existing, plan, a);
    PlanPartitions(spec, hash, existing, plan, e);
    if Replaced(plan, e, n) {
      var j :| 0 <= j < n && j < |plan.actions| && plan.actions[j].kind.Recreate? && plan.actions[j].existing == Some(e);
      var b := plan.actions[j];
      ActionEntry(spec, hash, existing, plan, b);
      PlanActionsMember(spec, hash, existing, plan, a);
      PlanActionsMember(spec, hash, existing, plan, b);
    }
  }

  // ---- The order of the actions ---------------------------------------------

  lemma BehindInit(commands: seq<Command>, order: seq<string>)
    requires BehindDependencies(commands, order) && Distinct(order) && order != []
    ensures BehindDependencies(commands, order[..|order| - 1]) && Distinct(order[..|order| - 1])
    ensures forall y :: ComposeSpec.After(commands, order[|order| - 1], y) && Known(commands, y) ==> y in order[..|order| - 1]
    ensures order[|order| - 1] !in order[..|order| - 1]
  {
    hide ComposeSpec.After, Known, LessEq;
    var init := order[..|order| - 1];
    forall i, y | 0 <= i < |init| && ComposeSpec.After(commands, init[i], y) && Known(commands, y)
      ensures y in init[..i]
    {
      assert ComposeSpec.After(commands, order[i], y);
      assert init[..i] == order[..i];
    }
  }

  /** The actions come in dependency order. */
  lemma {:induction false} ActionsOrdered(commands: seq<Command>, order: seq<string>, index: map<Key, Entry>, hash: Hash, i: nat, j: nat)
    requires Distinct(order) && BehindDependencies(commands, order) && forall x :: x in order ==> Known(commands, x)
    requires i < |ActionsFor(commands, order, index, hash)| && j < |ActionsFor(commands, order, index, hash)|
    requires var actions := ActionsFor(commands, order, index, hash);
      ComposeSpec.After(commands, actions[i].desired.name, actions[j].desired.name)
    ensures j < i
  {
    hide ReplicaActions, ActionFor, LessEq, ComposeSpec.After, Known, BehindDependencies, Distinct;
    var init, name := order[..|order| - 1], order[|order| - 1];
    var c := Find(commands, name);
    var before, own := ActionsFor(commands, init, index, hash), ReplicaActions(c, Replicas(c), index, hash);
    BehindInit(commands, order);
    NamesKnown(commands, order, index, hash, j);
    if j < |before| {
      if i < |before| {
        ActionsOrdered(commands, init, index, hash, i, j);
      }
    } else {
      ReplicaActionsName(c, Replicas(c), index, hash, own[j - |before|]);
      if i < |before| {
        InitName(commands, init, index, hash, i);
        BehindMember(commands, init, before[i].desired.name, name);
      } else {
        ReplicaActionsName(c, Replicas(c), index, hash, own[i - |before|]);
      }
    }
  }

  lemma InitName(commands: seq<Command>, order: seq<string>, index: map<Key, Entry>, hash: Hash, i: nat)
    requires forall x :: x in order ==> Known(commands, x)
    requires i < |ActionsFor(commands, order, index, hash)|
    ensures ActionsFor(commands, order, index, hash)[i].desired.name in order
  {
    hide ActionsFor, ActionFor;
    ActionsMember(commands, order, index, hash, ActionsFor(commands, order, index, hash)[i]);
  }

  lemma BehindMember(commands: seq<Command>, order: seq<string>, x: string, y: string)
    requires BehindDependencies(commands, order) && x in order && ComposeSpec.After(commands, x, y) && Known(commands, y)
    ensures y in order
  {
    hide ComposeSpec.After, Known;
    var n :| 0 <= n < |order| && order[n] == x;
    assert ComposeSpec.After(commands, order[n], y);
  }

  lemma ReplicaActionsName(c: Command, n: nat, index: map<Key, Entry>, hash: Hash, a: Action)
    requires a in ReplicaActions(c, n, index, hash)
    ensures a.desired.name == c.name
  {
    ReplicaActionsMember(c, n, index, hash, a);
  }

  lemma NamesKnown(commands: seq<Command>, order: seq<string>, index: map<Key, Entry>, hash: Hash, j: nat)
    requires forall x :: x in order ==> Known(commands, x)
    requires j < |ActionsFor(commands, order, index, hash)|
    ensures Known(commands, ActionsFor(commands, order, index, hash)[j].desired.name)
  {
    hide ActionsFor, ActionFor;
    ActionsMember(commands, order, index, hash, ActionsFor(commands, order, index, hash)[j]);
  }

  /** In a plan the actions of a command follow those of its dependencies. */
  lemma PlanInDependencyOrder(spec: Spec, hash: Hash, existing: seq<Entry>, plan: Plan, i: nat, j: nat)
    requires IsPlan(spec, hash, existing, plan) && i < |plan.actions| && j < |plan.actions|
    requires ComposeSpec.After(spec.commands, plan.actions[i].desired.name, plan.actions[j].desired.name)
    ensures j < i
  {
    hide ActionsFor, ListsValues, SortedByName, OrphansOf, Indexed, ComposeSpec.After, Known;
    var index := Indexed(spec.commands, existing);
    var order :| DependencyOrder(spec.commands, order) && plan.actions == ActionsFor(spec.commands, order, index, hash);
    ActionsOrdered(spec.commands, order, index, hash, i, j);
  }
}
