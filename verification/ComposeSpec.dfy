/** The part of a normalized compose specification the other modules work on. */
module ComposeSpec {
  import opened Names

  // ConditionUnset is the empty string of the source, which normalization never
  // leaves in place.
  datatype AfterCondition =
    | ConditionUnset
    | ConditionRunning
    | ConditionCompleted
    | ConditionCompletedSuccessfully

  datatype AfterSpec = AfterSpec(name: string, condition: AfterCondition)

  // runtime stands for the fields of a command that only matter to its config
  // hash.
  datatype Command = Command(
    name: string,
    generatedName: string,
    after: seq<AfterSpec>,
    scale: int,
    runtime: string
  )

  function NamesOf(commands: seq<Command>): seq<string> {
    seq(|commands|, i requires 0 <= i < |commands| => commands[i].name)
  }

  /** Commands come from the keys of a map, so their names differ. */
  predicate DistinctCommands(commands: seq<Command>) {
    Distinct(NamesOf(commands))
  }

  predicate DependsOnName(c: Command, dep: string) {
    exists i :: 0 <= i < |c.after| && c.after[i].name == dep
  }

  predicate Known(commands: seq<Command>, name: string) {
    name in NamesOf(commands)
  }

  function Find(commands: seq<Command>, name: string): Command
    requires Known(commands, name)
    ensures Find(commands, name) in commands && Find(commands, name).name == name
  {
    if commands[0].name == name then commands[0]
    else
      assert NamesOf(commands) == [commands[0].name] + NamesOf(commands[1..]);
      Find(commands[1..], name)
  }

  /** Command x runs after command y. */
  predicate After(commands: seq<Command>, x: string, y: string) {
    Known(commands, x) && DependsOnName(Find(commands, x), y)
  }

  lemma {:induction false} FindUnique(commands: seq<Command>, c: Command)
    requires DistinctCommands(commands) && c in commands
    ensures Known(commands, c.name) && Find(commands, c.name) == c
  {
    var i :| 0 <= i < |commands| && commands[i] == c;
    assert NamesOf(commands)[i] == c.name;
    var f := Find(commands, c.name);
    var j :| 0 <= j < |commands| && commands[j] == f;
    assert NamesOf(commands)[j] == c.name;
  }

  // ---- Passes over the dependencies -----------------------------------------

  /** The dependencies of command j a pass has seen once it handled i commands and k
      dependencies of the next. */
  function Seen(commands: seq<Command>, i: nat, k: nat, j: nat): seq<AfterSpec>
    requires j < |commands| && (j == i ==> k <= |commands[j].after|)
  {
    if j < i then commands[j].after else if j == i then commands[j].after[..k] else []
  }

  function DependentsOf(dependents: map<string, seq<string>>, x: string): seq<string> {
    if x in dependents then dependents[x] else []
  }
}
