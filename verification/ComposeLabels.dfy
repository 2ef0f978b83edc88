/** The labels compose stores on the replicas of a command, and what is read back
    from them. */
module ComposeLabels {
  import opened Wrappers
  import opened ComposeSpec
  import opened Decimal
  import opened Naming

  // The encoded dependency list, decoded: absent, a list, or undecodable.
  datatype AfterLabel = NoAfter | AfterList(after: seq<AfterSpec>) | Garbled

  // A label that is missing is the empty string.
  datatype Labels = Labels(
    project: string,
    command: string,
    configHash: string,
    file: string,
    scaleIndex: string,
    scale: string,
    after: AfterLabel
  )

  // labels is None for an entry without a stored config.
  datatype Entry = Entry(name: string, id: string, labels: Option<Labels>)

  datatype Spec = Spec(composeFile: string, project: string, commands: seq<Command>)

  function Replicas(c: Command): int {
    if c.scale > 1 then c.scale else 1
  }

  function BuildLabels(spec: Spec, c: Command, configHash: string, scaleIndex: int): Labels {
    Labels(spec.project, c.name, configHash, spec.composeFile, Itoa(scaleIndex), Itoa(Replicas(c)),
           if c.after == [] then NoAfter else AfterList(c.after))
  }

  function ScaleLabelValue(v: string): int {
    match Atoi(v)
    case Some(n) => n
    case None => 0
  }

  function ScaleIndexOf(e: Entry): int {
    match e.labels
    case Some(l) => ScaleLabelValue(l.scaleIndex)
    case None => 0
  }

  /** The entry created for replica scaleIndex of c. */
  function EntryFor(spec: Spec, c: Command, configHash: string, scaleIndex: int, id: string): Entry {
    Entry(InstanceName(c.generatedName, scaleIndex), id, Some(BuildLabels(spec, c, configHash, scaleIndex)))
  }

  /** The index of a replica reads back as it was stored. */
  lemma ScaleIndexReadsBack(spec: Spec, c: Command, configHash: string, scaleIndex: int, id: string)
    requires 1 <= scaleIndex <= MAX_INT
    ensures ScaleIndexOf(EntryFor(spec, c, configHash, scaleIndex, id)) == scaleIndex
  {
    AtoiItoa(scaleIndex);
  }

  /** So does the scale of its command, at least one. A label that is no number reads as
      zero. */
  lemma ScaleReadsBack(spec: Spec, c: Command, configHash: string, scaleIndex: int, v: string)
    requires c.scale <= MAX_INT
    ensures ScaleLabelValue(BuildLabels(spec, c, configHash, scaleIndex).scale) == if c.scale < 1 then 1 else c.scale
    ensures Atoi(v).None? ==> ScaleLabelValue(v) == 0
  {
    AtoiItoa(Replicas(c));
  }
}
