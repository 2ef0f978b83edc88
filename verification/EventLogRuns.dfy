/** What a reader that starts at the beginning delivers and omits, over every
    interleaving of appends, rotations and its own steps in which no rotation fails
    once its marker is written. */
module EventLogRuns {
  import opened Wrappers
  import opened EventLog

  // ---- Files ----------------------------------------------------------------

  predicate Unmarked(f: File) {
    forall i :: 0 <= i < |f| ==> f[i].Entry?
  }

  /** A file that was rotated away: a marker ends it, and there is no other. */
  predicate Closed(f: File) {
    f != [] && f[|f| - 1].Marker? && Unmarked(f[..|f| - 1])
  }

  /** Nothing is appended to file g any more. */
  predicate Frozen(files: seq<File>, writer: Writer, g: nat) {
    g < |files| && (g < |files| - 1 || writer.Marked?)
  }

  ghost predicate FilesInv(files: seq<File>, writer: Writer) {
    && (!writer.Free? ==> files != [])
    && forall g {:trigger files[g]} :: 0 <= g < |files| ==>
         if Frozen(files, writer, g) then Closed(files[g]) else Unmarked(files[g])
  }

  // ---- The reader's position ------------------------------------------------

  predicate Increasing(gens: seq<nat>) {
    forall i, j :: 0 <= i < j < |gens| ==> gens[i] < gens[j]
  }

  /** The files opened so far, the current one last. */
  function OpenedGens(r: Reader): seq<nat> {
    if r.cur.Some? then r.drained + [r.cur.value.gen] else r.drained
  }

  function LastOf(gens: seq<nat>): Option<nat> {
    if gens == [] then None else Some(gens[|gens| - 1])
  }

  /** The part of the current file that was read. */
  function Partial(files: seq<File>, cur: Option<Cursor>): seq<Event> {
    if cur.Some? && cur.value.gen < |files| && cur.value.pos <= |files[cur.value.gen]|
    then EventsIn(files[cur.value.gen][..cur.value.pos]) else []
  }

  ghost predicate Delivered(files: seq<File>, r: Reader) {
    && (forall i :: 0 <= i < |r.drained| ==> r.drained[i] < |files|)
    && r.out == EventsOf(files, r.drained) + Partial(files, r.cur)
  }

  /** The files the reader passed over were deleted. */
  ghost predicate OmitsDeletedOnly(files: seq<File>, gens: seq<nat>) {
    forall g: nat {:trigger Deleted(files, g)} :: gens != [] && g < gens[|gens| - 1] && g !in gens ==> Deleted(files, g)
  }

  predicate Consecutive(gens: seq<nat>) {
    forall i :: 0 <= i < |gens| ==> gens[i] == i
  }

  ghost predicate CursorInv(files: seq<File>, r: Reader) {
    r.cur.Some? ==>
      && r.cur.value.gen < |files| && r.cur.value.pos <= |files[r.cur.value.gen]|
      && Unmarked(files[r.cur.value.gen][..r.cur.value.pos])
  }

  ghost predicate PhaseInv(files: seq<File>, r: Reader) {
    match r.phase
    case AtTop => r.cur.None? && r.last == LastOf(r.drained)
    case AtWait => r.cur.None? && r.drained == [] && r.last.None?
    case InArchive(active) =>
      r.cur.Some? && r.last == LastOf(r.drained) && active == Some(r.cur.value.gen + 1) && r.cur.value.gen + 1 < |files|
    case InActive => r.cur.Some? && r.last == Some(r.cur.value.gen)
    case Stopped => true
  }

  ghost predicate ReaderInv(files: seq<File>, writer: Writer, r: Reader) {
    && Increasing(OpenedGens(r))
    && (forall i :: 0 <= i < |r.drained| ==> Frozen(files, writer, r.drained[i]))
    && CursorInv(files, r)
    && PhaseInv(files, r)
    && Delivered(files, r)
    && OmitsDeletedOnly(files, OpenedGens(r))
    && (r.late <==> !Consecutive(OpenedGens(r)))
  }

  function AllGens(n: nat): seq<nat> {
    seq(n, i => i)
  }

  ghost predicate Inv(s: Log) {
    && s.disk.Whole?
    && FilesInv(s.files, s.writer)
    && ReaderInv(s.files, s.writer, s.reader)
    && s.log == EventsOf(s.files, AllGens(|s.files|))
  }

  // ---- Events under change --------------------------------------------------

  lemma EventsInAppend(f: File, line: Line)
    ensures EventsIn(f + [line]) == EventsIn(f) + if line.Entry? then [line.e] else []
  {
    assert (f + [line])[..|f|] == f;
  }

  lemma {:induction false} EventsOfSame(files: seq<File>, files': seq<File>, gens: seq<nat>)
    requires forall i :: 0 <= i < |gens| ==> gens[i] < |files| && gens[i] < |files'| && files'[gens[i]] == files[gens[i]]
    ensures EventsOf(files', gens) == EventsOf(files, gens)
  {
    if gens != [] {
      EventsOfSame(files, files', gens[..|gens| - 1]);
    }
  }

  lemma EventsOfSnoc(files: seq<File>, gens: seq<nat>, g: nat)
    requires g < |files| && forall i :: 0 <= i < |gens| ==> gens[i] < |files|
    ensures EventsOf(files, gens + [g]) == EventsOf(files, gens) + EventsIn(files[g])
  {
    assert (gens + [g])[..|gens|] == gens;
  }

  lemma LogAppended(files: seq<File>, line: Line)
    requires files != []
    ensures EventsOf(Appended(files, line), AllGens(|files|)) ==
            EventsOf(files, AllGens(|files|)) + if line.Entry? then [line.e] else []
  {
    hide EventsOf, EventsIn;
    var n := |files| - 1;
    SplitLast(files);
    SplitLast(Appended(files, line));
    EventsOfSame(files, Appended(files, line), AllGens(n));
    EventsInAppend(files[n], line);
  }

  lemma SplitLast(files: seq<File>)
    requires files != []
    ensures EventsOf(files, AllGens(|files|)) == EventsOf(files, AllGens(|files| - 1)) + EventsIn(files[|files| - 1])
  {
    hide EventsIn;
    var n := |files| - 1;
    assert AllGens(|files|) == AllGens(n) + [n];
    EventsOfSnoc(files, AllGens(n), n);
  }

  lemma LogRotated(files: seq<File>)
    ensures EventsOf(files + [[]], AllGens(|files| + 1)) == EventsOf(files, AllGens(|files|))
  {
    var n := |files|;
    assert AllGens(n + 1) == AllGens(n) + [n];
    EventsOfSnoc(files + [[]], AllGens(n), n);
    EventsOfSame(files, files + [[]], AllGens(n));
  }

  // ---- Writer steps ---------------------------------------------------------

  /** The files grew at most at the end of the active one, or by a new one. */
  ghost predicate Grows(files: seq<File>, writer: Writer, files': seq<File>, writer': Writer) {
    && |files| <= |files'|
    && (forall g {:trigger files'[g]} :: 0 <= g < |files| ==> files[g] <= files'[g] && (Frozen(files, writer, g) ==> files'[g] == files[g]))
    && (forall g: nat :: Frozen(files, writer, g) ==> Frozen(files', writer', g))
  }

  lemma GrowKeepsReader(files: seq<File>, writer: Writer, files': seq<File>, writer': Writer, r: Reader)
    requires ReaderInv(files, writer, r) && Grows(files, writer, files', writer')
    ensures ReaderInv(files', writer', r)
  {
    hide EventsIn, EventsOf, Unmarked;
    EventsOfSame(files, files', r.drained);
    if r.cur.Some? {
      var c := r.cur.value;
      assert files'[c.gen][..c.pos] == files[c.gen][..c.pos];
    }
    forall g: nat | OpenedGens(r) != [] && g < OpenedGens(r)[|OpenedGens(r)| - 1] && g !in OpenedGens(r)
      ensures Deleted(files', g)
    {
      assert Deleted(files, g);
    }
  }

  lemma OpenKeeps(s: Log, s': Log, e: Event)
    requires Inv(s) && OpenStep(s, s', e)
    ensures Inv(s')
  {
    hide ReaderInv;
    assert Grows(s.files, s.writer, s'.files, s'.writer);
    GrowKeepsReader(s.files, s.writer, s'.files, s'.writer, s.reader);
    if s.files == [] {
      assert s.files + [[]] == [[]];
      LogRotated(s.files);
    }
  }

  lemma MarkKeeps(s: Log, s': Log)
    requires Inv(s) && MarkStep(s, s')
    ensures Inv(s')
  {
    hide ReaderInv, EventsOf, EventsIn;
    assert s.files[|s.files| - 1] == s'.files[|s.files| - 1][..|s'.files[|s.files| - 1]| - 1];
    assert Grows(s.files, s.writer, s'.files, s'.writer);
    GrowKeepsReader(s.files, s.writer, s'.files, s'.writer, s.reader);
    LogAppended(s.files, Marker);
  }

  lemma RotateKeeps(s: Log, s': Log)
    requires Inv(s) && RotateStep(s, s')
    ensures Inv(s')
  {
    hide ReaderInv, EventsOf, EventsIn;
    assert Grows(s.files, s.writer, s'.files, s'.writer);
    GrowKeepsReader(s.files, s.writer, s'.files, s'.writer, s.reader);
    LogRotated(s.files);
  }

  lemma WriteKeeps(s: Log, s': Log)
    requires Inv(s) && WriteStep(s, s')
    ensures Inv(s')
  {
    hide ReaderInv, EventsOf, EventsIn;
    assert Grows(s.files, s.writer, s'.files, s'.writer);
    GrowKeepsReader(s.files, s.writer, s'.files, s'.writer, s.reader);
    LogAppended(s.files, Entry(s.writer.e));
  }

  lemma GiveUpKeeps(s: Log, s': Log)
    requires Inv(s) && GiveUpStep(s, s')
    ensures Inv(s')
  {
    hide ReaderInv, EventsOf, EventsIn;
    assert Grows(s.files, s.writer, s'.files, s'.writer);
    GrowKeepsReader(s.files, s.writer, s'.files, s'.writer, s.reader);
  }

  // ---- Reader steps ---------------------------------------------------------

  /** A reader at the top drained files that are frozen, so the file due next is
      not beyond the active one. */
  lemma DueExists(files: seq<File>, r: Reader)
    requires ReaderInv(files, Free, r) && r.phase.AtTop? && files != []
    ensures Due(r.last) <= |files| - 1
  {
    hide EventsIn, EventsOf, Unmarked, OmitsDeletedOnly;
    if r.drained != [] {
      assert Frozen(files, Free, r.drained[|r.drained| - 1]);
    }
  }

  /** Opening file g, the one due next or a later one. */
  lemma OpenFile(files: seq<File>, writer: Writer, r: Reader, g: nat, late: bool)
    requires ReaderInv(files, writer, r) && r.cur.None? && r.last == LastOf(r.drained)
    requires g < |files| && Due(r.last) <= g
    requires forall x: nat :: Due(r.last) <= x < g ==> Deleted(files, x)
    requires late <==> r.late || g > Due(r.last)
    ensures var r' := r.(cur := Some(Cursor(g, 0)), late := late);
      && Increasing(OpenedGens(r')) && CursorInv(files, r') && Delivered(files, r')
      && OmitsDeletedOnly(files, OpenedGens(r')) && (r'.late <==> !Consecutive(OpenedGens(r')))
  {
    hide EventsOf;
    var r' := r.(cur := Some(Cursor(g, 0)), late := late);
    assert files[g][..0] == [];
    assert Partial(files, r'.cur) == [];
    var gens := OpenedGens(r');
    forall x: nat | x < g && x !in gens
      ensures Deleted(files, x)
    {
      assert forall i :: 0 <= i < |r.drained| ==> gens[i] == r.drained[i];
      if x < Due(r.last) {
        assert x !in r.drained;
        assert x < r.drained[|r.drained| - 1];
      }
    }
    OpenConsecutive(r.drained, g, r.last);
  }

  lemma OpenConsecutive(drained: seq<nat>, g: nat, last: Option<nat>)
    requires last == LastOf(drained) && Due(last) <= g && Increasing(drained)
    ensures Consecutive(drained + [g]) <==> Consecutive(drained) && g == Due(last)
  {
    var gens := drained + [g];
    assert forall i :: 0 <= i < |drained| ==> gens[i] == drained[i];
    if Consecutive(gens) {
      assert gens[|drained|] == |drained|;
      assert drained != [] ==> drained[|drained| - 1] == |drained| - 1;
    }
  }

  lemma SnapshotKeeps(s: Log, s': Log, follow: bool)
    requires Inv(s) && SnapshotStep(s, s', follow)
    ensures Inv(s')
  {
    hide EventsOf, EventsIn, FilesInv, OmitsDeletedOnly, Increasing, Consecutive, CursorInv, Delivered;
    if s.files != [] {
      DueExists(s.files, s.reader);
      var r, r' := s.reader, s'.reader;
      if r'.phase.InArchive? {
        OpenFile(s.files, s.writer, r, r'.cur.value.gen, r'.late);
        SameView(s.files, r.(cur := r'.cur, late := r'.late), r');
      } else {
        OpenFile(s.files, s.writer, r, r'.cur.value.gen, r'.late);
        SameView(s.files, r.(cur := r'.cur, late := r'.late), r');
      }
    } else {
      EmptyView(s.files, s.reader, s'.reader);
    }
  }

  lemma FilesNeeded(drained: seq<nat>, n: nat)
    requires forall i :: 0 <= i < |drained| ==> drained[i] < n
    ensures drained != [] ==> n > 0
  {
    if drained != [] {
      var first := drained[0];
    }
  }

  lemma EmptyView(files: seq<File>, r: Reader, r': Reader)
    requires files == [] && ReaderInv(files, Free, r) && r.phase.AtTop? && r' == r.(phase := r'.phase)
    requires r'.phase.AtWait? || r'.phase.Stopped?
    ensures ReaderInv(files, Free, r')
  {
    hide EventsOf, EventsIn;
    FilesNeeded(r.drained, |files|);
    SameView(files, r, r');
  }

  /** Phase and last do not enter these facts. */
  lemma SameView(files: seq<File>, r: Reader, r': Reader)
    requires r'.cur == r.cur && r'.drained == r.drained && r'.out == r.out && r'.late == r.late
    ensures OpenedGens(r') == OpenedGens(r)
    ensures CursorInv(files, r') == CursorInv(files, r) && Delivered(files, r') == Delivered(files, r)
  {
  }

  lemma ReadLineKeeps(s: Log, s': Log)
    requires Inv(s) && ReadLineStep(s, s')
    ensures Inv(s')
  {
    hide EventsOf, EventsIn, FilesInv, OmitsDeletedOnly, Increasing, Consecutive;
    var c := s.reader.cur.value;
    var f := s.files[c.gen];
    assert f[..c.pos + 1] == f[..c.pos] + [f[c.pos]];
    EventsInAppend(f[..c.pos], f[c.pos]);
    assert OpenedGens(s'.reader) == OpenedGens(s.reader);
  }

  /** At a marker or at the end, all events of the file were read. */
  lemma AllRead(files: seq<File>, writer: Writer, c: Cursor)
    requires FilesInv(files, writer) && c.gen < |files| && c.pos <= |files[c.gen]|
    requires c.pos == |files[c.gen]| || files[c.gen][c.pos].Marker?
    ensures EventsIn(files[c.gen][..c.pos]) == EventsIn(files[c.gen])
    ensures c.pos < |files[c.gen]| ==> Frozen(files, writer, c.gen)
  {
    var f := files[c.gen];
    if c.pos == |f| {
      assert f[..c.pos] == f;
    } else {
      assert Frozen(files, writer, c.gen);
      var body := f[..|f| - 1];
      assert forall i :: 0 <= i < |body| ==> body[i] == f[i];
      assert c.pos == |f| - 1;
    }
  }

  /** The current file joins the drained ones. */
  lemma Drain(files: seq<File>, writer: Writer, r: Reader)
    requires FilesInv(files, writer) && ReaderInv(files, writer, r) && r.cur.Some?
    requires Frozen(files, writer, r.cur.value.gen) && r.cur.value.pos <= |files[r.cur.value.gen]|
    requires r.cur.value.pos == |files[r.cur.value.gen]| || files[r.cur.value.gen][r.cur.value.pos].Marker?
    ensures var r' := r.(phase := AtTop, cur := None, last := Some(r.cur.value.gen), drained := r.drained + [r.cur.value.gen]);
      ReaderInv(files, writer, r')
  {
    hide EventsOf, EventsIn, FilesInv, OmitsDeletedOnly, Increasing, Consecutive, Unmarked;
    var c := r.cur.value;
    AllRead(files, writer, c);
    EventsOfSnoc(files, r.drained, c.gen);
    var r' := r.(phase := AtTop, cur := None, last := Some(c.gen), drained := r.drained + [c.gen]);
    assert OpenedGens(r') == OpenedGens(r);
    assert EventsOf(files, r'.drained) + [] == EventsOf(files, r'.drained);
  }

  lemma EndActiveKeeps(s: Log, s': Log)
    requires Inv(s) && EndActiveStep(s, s')
    ensures Inv(s')
  {
    hide EventsOf, EventsIn, FilesInv, OmitsDeletedOnly, Increasing, Consecutive, Unmarked;
    AllRead(s.files, s.writer, s.reader.cur.value);
    Drain(s.files, s.writer, s.reader);
  }

  lemma EndArchiveKeeps(s: Log, s': Log, follow: bool)
    requires Inv(s) && EndArchiveStep(s, s', follow)
    ensures Inv(s')
  {
    hide EventsOf, EventsIn, FilesInv, OmitsDeletedOnly, Increasing, Consecutive, Unmarked, CursorInv, Delivered;
    CursorIn(s.files, s.reader);
    Drain(s.files, s.writer, s.reader);
    var g := s.reader.cur.value.gen;
    var r := s.reader.(phase := AtTop, cur := None, last := Some(g), drained := s.reader.drained + [g]);
    OpenFile(s.files, s.writer, r, g + 1, r.late);
    SameView(s.files, r.(cur := s'.reader.cur, late := r.late), s'.reader);
  }

  lemma CursorIn(files: seq<File>, r: Reader)
    requires CursorInv(files, r) && r.cur.Some?
    ensures r.cur.value.gen < |files| && r.cur.value.pos <= |files[r.cur.value.gen]|
  {
  }

  lemma StepKeeps(s: Log, s': Log, follow: bool, step: Step)
    requires Inv(s) && NextBy(s, s', follow, step) && !s'.faulty
    ensures Inv(s')
  {
    hide Inv, AtMarker, AtEnd, AtLine, AfterSnapshot;
    match step
    case Open(e) => OpenKeeps(s, s', e);
    case Mark => MarkKeeps(s, s');
    case Rotate => RotateKeeps(s, s');
    case RotateFails(fault) =>
    case GiveUp => GiveUpKeeps(s, s');
    case Write => WriteKeeps(s, s');
    case Snapshot => SnapshotKeeps(s, s', follow);
    case Appear => QuietKeeps(s, s');
    case ReadLine => ReadLineKeeps(s, s');
    case EndArchive => EndArchiveKeeps(s, s', follow);
    case EndActive => EndActiveKeeps(s, s');
    case EndOfFile => QuietKeeps(s, s');
    case Cancel => QuietKeeps(s, s');
  }

  lemma QuietKeeps(s: Log, s': Log)
    requires Inv(s) && s' == s.(reader := s.reader.(phase := s'.reader.phase))
    requires s'.reader.phase.Stopped? || (s.reader.phase.AtWait? && s'.reader.phase.AtTop?)
    ensures Inv(s')
  {
    hide EventsOf, EventsIn, FilesInv, OmitsDeletedOnly, Increasing, Consecutive, Unmarked;
    SameView(s.files, s.reader, s'.reader);
  }

  lemma {:induction false} RunInv(run: seq<Log>, follow: bool, i: nat)
    requires IsRun(run, follow) && i < |run| && !run[i].faulty
    ensures Inv(run[i])
  {
    hide Inv, NextBy;
    if i == 0 {
      InitInv(run[0]);
    } else {
      assert Next(run[i - 1], run[i - 1 + 1], follow);
      var step :| NextBy(run[i - 1], run[i], follow, step);
      FaultStays(run[i - 1], run[i], follow, step);
      RunInv(run, follow, i - 1);
      StepKeeps(run[i - 1], run[i], follow, step);
    }
  }

  lemma InitInv(s: Log)
    requires Init(s)
    ensures Inv(s)
  {
    assert AllGens(0) == [];
  }

  lemma FaultStays(s: Log, s': Log, follow: bool, step: Step)
    requires NextBy(s, s', follow, step)
    ensures s.faulty ==> s'.faulty
  {
    hide AtMarker, AtEnd, AtLine, AfterSnapshot;
  }

  // ---- What the reader delivers ---------------------------------------------

  lemma {:induction false} EventsInPrefix(f: File, n: nat)
    requires n <= |f|
    ensures EventsIn(f[..n]) <= EventsIn(f)
    decreases |f| - n
  {
    if n == |f| {
      assert f[..n] == f;
    } else {
      assert f[..n + 1] == f[..n] + [f[n]];
      EventsInAppend(f[..n], f[n]);
      EventsInPrefix(f, n + 1);
    }
  }

  /** What was delivered is the events of whole files, opened in order, up to the
      position in the current one; a file passed over had been deleted by the
      writer. */
  lemma OmittedFilesWereDeleted(run: seq<Log>, follow: bool, i: nat, g: nat)
    requires IsRun(run, follow) && i < |run| && !run[i].faulty
    ensures var s := run[i];
      var gens := OpenedGens(s.reader);
      && Delivered(s.files, s.reader) && Increasing(gens)
      && (gens != [] && g < gens[|gens| - 1] && g !in gens ==> Deleted(s.files, g))
  {
    hide IsRun;
    RunInv(run, follow, i);
    assert Deleted(run[i].files, g) || !Deleted(run[i].files, g);
  }

  // ---- Nothing is omitted by a reader that keeps up --------------------------

  /** Step j was a snapshot that found the active file more than two past the last
      file drained. */
  ghost predicate LateSnapshot(run: seq<Log>, follow: bool, j: nat) {
    j + 1 < |run| && SnapshotStep(run[j], run[j + 1], follow) && Late(run[j].files, run[j].reader.last)
  }

  lemma StepLate(s: Log, s': Log, follow: bool, step: Step)
    requires NextBy(s, s', follow, step)
    ensures s'.reader.late <==> s.reader.late || (SnapshotStep(s, s', follow) && Late(s.files, s.reader.last))
  {
    hide AtMarker, AtEnd, AtLine, Late;
    if step.Snapshot? {
    } else {
      assert s'.reader.late == s.reader.late;
      if SnapshotStep(s, s', follow) {
      }
    }
  }

  lemma {:induction false} LateHistory(run: seq<Log>, follow: bool, i: nat)
    requires IsRun(run, follow) && i < |run|
    ensures run[i].reader.late <==> exists j: nat :: j < i && LateSnapshot(run, follow, j)
  {
    hide NextBy, SnapshotStep, Late;
    if i > 0 {
      LateHistory(run, follow, i - 1);
      assert Next(run[i - 1], run[i - 1 + 1], follow);
      var step :| NextBy(run[i - 1], run[i], follow, step);
      StepLate(run[i - 1], run[i], follow, step);
      assert LateSnapshot(run, follow, i - 1) <==>
        SnapshotStep(run[i - 1], run[i], follow) && Late(run[i - 1].files, run[i - 1].reader.last);
    }
  }

  lemma ConsecutiveGens(gens: seq<nat>)
    requires Consecutive(gens)
    ensures gens == AllGens(|gens|)
  {
  }

  lemma ConsecutiveDelivers(s: Log)
    requires Inv(s) && Consecutive(OpenedGens(s.reader))
    ensures s.reader.out <= s.log
    ensures s.reader.phase.InActive? && AtEnd(s) && s.reader.cur.value.gen == |s.files| - 1 ==> s.reader.out == s.log
  {
    hide EventsIn, FilesInv, OmitsDeletedOnly, Unmarked;
    var r := s.reader;
    ConsecutiveGens(OpenedGens(r));
    if r.cur.None? {
      DrainedBound(s.files, r.drained);
      LogPrefix(s.files, |r.drained|, |s.files|);
    } else {
      var c := r.cur.value;
      assert OpenedGens(r)[|r.drained|] == c.gen == |r.drained|;
      assert r.drained == OpenedGens(r)[..c.gen];
      assert r.drained == AllGens(c.gen);
      EventsInPrefix(s.files[c.gen], c.pos);
      assert AllGens(c.gen + 1) == AllGens(c.gen) + [c.gen];
      EventsOfSnoc(s.files, AllGens(c.gen), c.gen);
      LogPrefix(s.files, c.gen + 1, |s.files|);
      if c.pos == |s.files[c.gen]| {
        assert s.files[c.gen][..c.pos] == s.files[c.gen];
      }
    }
  }

  lemma DrainedBound(files: seq<File>, drained: seq<nat>)
    requires Consecutive(drained) && forall i :: 0 <= i < |drained| ==> drained[i] < |files|
    ensures |drained| <= |files|
  {
    assert drained != [] ==> drained[|drained| - 1] == |drained| - 1;
  }

  lemma {:induction false} LogPrefix(files: seq<File>, n: nat, m: nat)
    requires n <= m <= |files|
    ensures EventsOf(files, AllGens(n)) <= EventsOf(files, AllGens(m))
    decreases m
  {
    if n < m {
      LogPrefix(files, n, m - 1);
      assert AllGens(m) == AllGens(m - 1) + [m - 1];
      EventsOfSnoc(files, AllGens(m - 1), m - 1);
    }
  }

  /** The reader opens every file, and delivers a prefix of the log, exactly as long
      as no snapshot finds the active file more than two past the last drained one;
      having reached the end of the active file it has then delivered everything. */
  lemma NothingOmittedUnlessLate(run: seq<Log>, follow: bool, i: nat)
    requires IsRun(run, follow) && i < |run| && !run[i].faulty
    ensures Consecutive(OpenedGens(run[i].reader)) <==> !exists j: nat :: j < i && LateSnapshot(run, follow, j)
    ensures (forall j: nat :: j < i ==> !LateSnapshot(run, follow, j)) ==>
              && run[i].reader.out <= run[i].log
              && (run[i].reader.phase.InActive? && AtEnd(run[i]) && run[i].reader.cur.value.gen == |run[i].files| - 1 ==>
                    run[i].reader.out == run[i].log)
  {
    hide IsRun, LateSnapshot;
    RunInv(run, follow, i);
    LateHistory(run, follow, i);
    if Consecutive(OpenedGens(run[i].reader)) {
      ConsecutiveDelivers(run[i]);
    }
  }
}
