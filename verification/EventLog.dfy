/** The rotating event log. A file is a sequence of lines; the files ever created
    are numbered in order, and the number of a file stands for its identity. The
    newest file is the active one, the one before it the archive; older ones are
    deleted, though a reader may still hold one open. A rotation that fails half-way
    can leave the archive or the active file missing. */
module EventLog {
  import opened Wrappers

  datatype Event = Event(text: string)

  datatype Line = Entry(e: Event) | Marker

  type File = seq<Line>

  // NoArchive: the archive was removed and the active file is still there.
  // NoActive: the active file became the archive and no new one was created.
  datatype Disk = Whole | NoArchive | NoActive

  function Active(files: seq<File>, disk: Disk): Option<nat> {
    if files == [] || disk.NoActive? then None else Some(|files| - 1)
  }

  function Archive(files: seq<File>, disk: Disk): Option<nat> {
    match disk
    case Whole => if |files| < 2 then None else Some(|files| - 2)
    case NoArchive => None
    case NoActive => if files == [] then None else Some(|files| - 1)
  }

  predicate Deleted(files: seq<File>, g: nat) {
    g + 2 < |files|
  }

  /** The files that are neither the active one nor the archive. */
  lemma DeletedMeans(files: seq<File>, g: nat)
    requires g < |files|
    ensures Deleted(files, g) <==> Active(files, Whole) != Some(g) && Archive(files, Whole) != Some(g)
  {
  }

  function EventsIn(f: File): seq<Event> {
    if f == [] then []
    else EventsIn(f[..|f| - 1]) + if f[|f| - 1].Entry? then [f[|f| - 1].e] else []
  }

  /** The events of the given files, one file after another. */
  function EventsOf(files: seq<File>, gens: seq<nat>): seq<Event>
    requires forall i :: 0 <= i < |gens| ==> gens[i] < |files|
  {
    if gens == [] then [] else EventsOf(files, gens[..|gens| - 1]) + EventsIn(files[gens[|gens| - 1]])
  }

  // ---- Processes ------------------------------------------------------------

  // Where the writer that holds the lock is in its append.
  datatype Writer = Free | Opened(e: Event) | Marked(e: Event) | Reopened(e: Event)

  datatype Cursor = Cursor(gen: nat, pos: nat)

  // AtTop is the point where a snapshot is taken. InArchive keeps the active file
  // of the snapshot open. AtWait waits for an active file to appear.
  datatype Phase = AtTop | InArchive(active: Option<nat>) | InActive | AtWait | Stopped

  // drained and late are history variables: the files read to their end, and
  // whether some snapshot found the active file more than two past the last one
  // drained.
  datatype Reader = Reader(
    phase: Phase,
    cur: Option<Cursor>,
    last: Option<nat>,
    out: seq<Event>,
    drained: seq<nat>,
    late: bool
  )

  // How a rotation fails once its marker is written: before it removes the archive,
  // before it renames the active file, or when it creates the new one.
  datatype Fault = MarkerLeft | ArchiveGone | NotReopened

  // log is a history variable: the events appended, in order. faulty tells that
  // a rotation failed once its marker was written.
  datatype Log = Log(files: seq<File>, disk: Disk, writer: Writer, reader: Reader, log: seq<Event>, faulty: bool)

  datatype Step =
    | Open(e: Event)
    | Mark
    | Rotate
    | RotateFails(fault: Fault)
    | Write
    | GiveUp
    | Snapshot
    | Appear
    | ReadLine
    | EndArchive
    | EndActive
    | EndOfFile
    | Cancel

  ghost predicate Init(s: Log) {
    s == Log([], Whole, Free, Reader(AtTop, None, None, [], [], false), [], false)
  }

  /** The active file with one more line. */
  function Appended(files: seq<File>, line: Line): seq<File>
    requires files != []
  {
    files[|files| - 1 := files[|files| - 1] + [line]]
  }

  // ---- The writer -----------------------------------------------------------

  function WithActive(files: seq<File>, disk: Disk): (r: seq<File>)
    ensures r != []
  {
    if files == [] || disk.NoActive? then files + [[]] else files
  }

  function DiskWithActive(disk: Disk): Disk {
    if disk.NoActive? then Whole else disk
  }

  /** Takes the lock and opens the active file, creating it if there is none. */
  ghost predicate OpenStep(s: Log, s': Log, e: Event) {
    && s.writer.Free?
    && s' == s.(files := WithActive(s.files, s.disk), disk := DiskWithActive(s.disk), writer := Opened(e))
  }

  ghost predicate MarkStep(s: Log, s': Log) {
    s.writer.Opened? && s.files != [] && s' == s.(files := Appended(s.files, Marker), writer := Marked(s.writer.e))
  }

  /** Removes the archive, renames the active file and creates a new one. */
  ghost predicate RotateStep(s: Log, s': Log) {
    s.writer.Marked? && s' == s.(files := s.files + [[]], disk := Whole, writer := Reopened(s.writer.e))
  }

  function DiskAfter(disk: Disk, fault: Fault): Disk {
    match fault
    case MarkerLeft => disk
    case ArchiveGone => NoArchive
    case NotReopened => NoActive
  }

  /** The append returns an error; its marker stays. */
  ghost predicate RotateFailsStep(s: Log, s': Log, fault: Fault) {
    s.writer.Marked? && s' == s.(writer := Free, disk := DiskAfter(s.disk, fault), faulty := true)
  }

  /** The append returns an error and has written nothing since it opened the file. */
  ghost predicate GiveUpStep(s: Log, s': Log) {
    (s.writer.Opened? || s.writer.Reopened?) && s' == s.(writer := Free)
  }

  /** Writes the event and gives up the lock. */
  ghost predicate WriteStep(s: Log, s': Log) {
    && (s.writer.Opened? || s.writer.Reopened?) && s.files != []
    && s' == s.(files := Appended(s.files, Entry(s.writer.e)), writer := Free, log := s.log + [s.writer.e])
  }

  // ---- The reader -----------------------------------------------------------

  /** The file due after the last one drained. */
  function Due(last: Option<nat>): nat {
    if last.None? then 0 else last.value + 1
  }

  function Late(files: seq<File>, last: Option<nat>): bool {
    files != [] && |files| - 1 > Due(last) + 1
  }

  /** Goes on with the active file of a snapshot. */
  function EnterActive(r: Reader, active: Option<nat>, follow: bool): Reader {
    match active
    case None => r.(phase := if follow then AtWait else Stopped, cur := None)
    case Some(a) => r.(phase := InActive, cur := Some(Cursor(a, 0)), last := Some(a))
  }

  /** An archive is replayed unless it is the file drained last. */
  function AfterSnapshot(files: seq<File>, disk: Disk, r: Reader, follow: bool): Reader {
    var r' := r.(late := r.late || Late(files, r.last));
    match Archive(files, disk)
    case Some(a) =>
      if r.last.None? || a != r.last.value
      then r'.(phase := InArchive(Active(files, disk)), cur := Some(Cursor(a, 0)))
      else EnterActive(r', Active(files, disk), follow)
    case None => EnterActive(r', Active(files, disk), follow)
  }

  /** A snapshot is taken under the lock, so never while an append is under way. */
  ghost predicate SnapshotStep(s: Log, s': Log, follow: bool) {
    s.reader.phase.AtTop? && s.writer.Free? && s' == s.(reader := AfterSnapshot(s.files, s.disk, s.reader, follow))
  }

  ghost predicate AppearStep(s: Log, s': Log) {
    s.reader.phase.AtWait? && s' == s.(reader := s.reader.(phase := AtTop))
  }

  predicate Scanning(r: Reader) {
    (r.phase.InArchive? || r.phase.InActive?) && r.cur.Some?
  }

  ghost predicate AtLine(s: Log) {
    && Scanning(s.reader)
    && s.reader.cur.value.gen < |s.files|
    && s.reader.cur.value.pos < |s.files[s.reader.cur.value.gen]|
  }

  ghost predicate ReadLineStep(s: Log, s': Log) {
    && AtLine(s)
    && var c := s.reader.cur.value;
       var line := s.files[c.gen][c.pos];
       && line.Entry?
       && s' == s.(reader := s.reader.(cur := Some(c.(pos := c.pos + 1)), out := s.reader.out + [line.e]))
  }

  ghost predicate AtMarker(s: Log) {
    AtLine(s) && var c := s.reader.cur.value; s.files[c.gen][c.pos].Marker?
  }

  ghost predicate AtEnd(s: Log) {
    && Scanning(s.reader)
    && s.reader.cur.value.gen < |s.files|
    && s.reader.cur.value.pos == |s.files[s.reader.cur.value.gen]|
  }

  /** An archive ends at its marker, or at its end should it hold none. */
  ghost predicate EndArchiveStep(s: Log, s': Log, follow: bool) {
    && s.reader.phase.InArchive? && (AtMarker(s) || AtEnd(s))
    && var g := s.reader.cur.value.gen;
       s' == s.(reader := EnterActive(s.reader.(last := Some(g), drained := s.reader.drained + [g]), s.reader.phase.active, follow))
  }

  ghost predicate EndActiveStep(s: Log, s': Log) {
    && s.reader.phase.InActive? && AtMarker(s)
    && s' == s.(reader := s.reader.(phase := AtTop, cur := None, drained := s.reader.drained + [s.reader.cur.value.gen]))
  }

  /** A reader that does not follow leaves at the end of the active file. */
  ghost predicate EndOfFileStep(s: Log, s': Log, follow: bool) {
    s.reader.phase.InActive? && AtEnd(s) && !follow && s' == s.(reader := s.reader.(phase := Stopped))
  }

  ghost predicate CancelStep(s: Log, s': Log) {
    s' == s.(reader := s.reader.(phase := Stopped))
  }

  ghost predicate NextBy(s: Log, s': Log, follow: bool, step: Step) {
    match step
    case Open(e) => OpenStep(s, s', e)
    case Mark => MarkStep(s, s')
    case Rotate => RotateStep(s, s')
    case RotateFails(fault) => RotateFailsStep(s, s', fault)
    case GiveUp => GiveUpStep(s, s')
    case Write => WriteStep(s, s')
    case Snapshot => SnapshotStep(s, s', follow)
    case Appear => AppearStep(s, s')
    case ReadLine => ReadLineStep(s, s')
    case EndArchive => EndArchiveStep(s, s', follow)
    case EndActive => EndActiveStep(s, s')
    case EndOfFile => EndOfFileStep(s, s', follow)
    case Cancel => CancelStep(s, s')
  }

  ghost predicate Next(s: Log, s': Log, follow: bool) {
    exists step :: NextBy(s, s', follow, step)
  }

  ghost predicate IsRun(run: seq<Log>, follow: bool) {
    && |run| > 0
    && Init(run[0])
    && forall i {:trigger run[i]} :: 0 <= i < |run| - 1 ==> Next(run[i], run[i + 1], follow)
  }
}
