/** The order in which a reader delivers events, over every run: also one in which
    rotations fail half-way, leaving a marker in a file that stays active. A reader
    reads a file up to its first marker. */
module EventLogOrder {
  import opened Wrappers
  import opened EventLog
  import opened EventLogRuns

  // ---- The part of a file that is read --------------------------------------

  /** The position of the first marker, or the end. */
  function FirstMarker(f: File): (n: nat)
    ensures n <= |f|
  {
    if f == [] || f[0].Marker? then 0 else 1 + FirstMarker(f[1..])
  }

  lemma {:induction false} FirstMarkerIs(f: File, n: nat)
    requires n <= |f| && Unmarked(f[..n]) && (n < |f| ==> f[n].Marker?)
    ensures FirstMarker(f) == n
  {
    if n > 0 {
      assert f[0] == f[..n][0];
      assert f[1..][..n - 1] == f[..n][1..];
      FirstMarkerIs(f[1..], n - 1);
    }
  }

  lemma {:induction false} FirstMarkerMeans(f: File)
    ensures Unmarked(f[..FirstMarker(f)]) && (FirstMarker(f) < |f| ==> f[FirstMarker(f)].Marker?)
  {
    if f != [] && !f[0].Marker? {
      FirstMarkerMeans(f[1..]);
      var n := FirstMarker(f[1..]);
      forall i | 0 <= i < n + 1
        ensures f[i].Entry?
      {
        if i > 0 {
          assert f[1..][..n][i - 1] == f[i];
        }
      }
    }
  }

  predicate Ended(f: File) {
    FirstMarker(f) < |f|
  }

  function Head(f: File): File {
    f[..FirstMarker(f)]
  }

  /** What is read of a file that holds a marker does not change any more. */
  lemma HeadStays(f: File, f': File)
    requires Ended(f) && f <= f'
    ensures Ended(f') && Head(f') == Head(f)
  {
    FirstMarkerMeans(f);
    assert f'[..FirstMarker(f)] == f[..FirstMarker(f)];
    FirstMarkerIs(f', FirstMarker(f));
  }

  /** The events read of the given files, one after another. */
  function HeadsOf(files: seq<File>, gens: seq<nat>): seq<Event>
    requires forall i :: 0 <= i < |gens| ==> gens[i] < |files|
  {
    if gens == [] then [] else HeadsOf(files, gens[..|gens| - 1]) + EventsIn(Head(files[gens[|gens| - 1]]))
  }

  lemma HeadsOfSnoc(files: seq<File>, gens: seq<nat>, g: nat)
    requires g < |files| && forall i :: 0 <= i < |gens| ==> gens[i] < |files|
    ensures HeadsOf(files, gens + [g]) == HeadsOf(files, gens) + EventsIn(Head(files[g]))
  {
    assert (gens + [g])[..|gens|] == gens;
  }

  lemma {:induction false} HeadsOfSame(files: seq<File>, files': seq<File>, gens: seq<nat>)
    requires forall i :: 0 <= i < |gens| ==> gens[i] < |files| && gens[i] < |files'| && Head(files'[gens[i]]) == Head(files[gens[i]])
    ensures HeadsOf(files', gens) == HeadsOf(files, gens)
  {
    if gens != [] {
      HeadsOfSame(files, files', gens[..|gens| - 1]);
    }
  }

  // ---- The invariant of all runs --------------------------------------------

  /** Every file but the newest holds a marker; that one too while it is being
      rotated, and when it was renamed and no new one created. */
  ghost predicate FilesEnd(files: seq<File>, disk: Disk, writer: Writer) {
    && (!writer.Free? ==> files != [] && !disk.NoActive?)
    && (disk.NoActive? ==> files != [])
    && (forall g :: 0 <= g < |files| - 1 ==> Ended(files[g]))
    && (writer.Marked? || disk.NoActive? ==> Ended(files[|files| - 1]))
  }

  ghost predicate PhaseAt(files: seq<File>, r: Reader) {
    match r.phase
    case AtTop => r.cur.None? && r.last == LastOf(r.drained)
    case AtWait => r.cur.None? && r.last == LastOf(r.drained)
    case InArchive(active) =>
      && r.cur.Some? && r.last == LastOf(r.drained) && r.cur.value.gen < |files| && Ended(files[r.cur.value.gen])
      && (active.Some? ==> active.value == r.cur.value.gen + 1 && active.value < |files|)
    case InActive => r.cur.Some? && r.last == Some(r.cur.value.gen)
    case Stopped => true
  }

  ghost predicate ReadInOrder(files: seq<File>, r: Reader) {
    && (forall i :: 0 <= i < |r.drained| ==> r.drained[i] < |files| && Ended(files[r.drained[i]]))
    && CursorInv(files, r)
    && r.out == HeadsOf(files, r.drained) + Partial(files, r.cur)
  }

  ghost predicate OrderInv(s: Log) {
    && FilesEnd(s.files, s.disk, s.writer)
    && ReadInOrder(s.files, s.reader)
    && PhaseAt(s.files, s.reader)
    && s.log == EventsOf(s.files, AllGens(|s.files|))
  }

  /** Files only grow. */
  ghost predicate Longer(files: seq<File>, files': seq<File>) {
    |files| <= |files'| && forall g {:trigger files'[g]} :: 0 <= g < |files| ==> files[g] <= files'[g]
  }

  lemma LongerKeepsReader(files: seq<File>, files': seq<File>, r: Reader)
    requires ReadInOrder(files, r) && PhaseAt(files, r) && Longer(files, files')
    ensures ReadInOrder(files', r) && PhaseAt(files', r)
  {
    hide EventsIn, HeadsOf, Unmarked, Ended, Head;
    forall g | 0 <= g < |files| && Ended(files[g])
      ensures Ended(files'[g]) && Head(files'[g]) == Head(files[g])
    {
      HeadStays(files[g], files'[g]);
    }
    HeadsOfSame(files, files', r.drained);
    if r.cur.Some? {
      var c := r.cur.value;
      assert files'[c.gen][..c.pos] == files[c.gen][..c.pos];
    }
  }

  lemma EndedByMarker(f: File)
    ensures Ended(f + [Marker])
  {
    var longer := f + [Marker];
    FirstMarkerMeans(longer);
    assert longer[..|longer|] == longer && longer[|f|].Marker?;
  }

  lemma WriterKeepsOrder(s: Log, s': Log, follow: bool, step: Step)
    requires OrderInv(s) && NextBy(s, s', follow, step)
    requires step.Open? || step.Mark? || step.Rotate? || step.RotateFails? || step.Write? || step.GiveUp?
    ensures OrderInv(s')
  {
    hide ReadInOrder, PhaseAt, EventsOf, EventsIn, Head, Ended;
    assert Longer(s.files, s'.files) by {
      hide FilesEnd;
      assert s.files != [] ==> s.files[|s.files| - 1] <= s.files[|s.files| - 1] + [Marker];
    }
    LongerKeepsReader(s.files, s'.files, s.reader);
    match step
    case Open(e) =>
      if s'.files != s.files {
        LogRotated(s.files);
      }
    case Mark =>
      LogAppended(s.files, Marker);
      EndedByMarker(s.files[|s.files| - 1]);
    case Rotate => LogRotated(s.files);
    case RotateFails(fault) =>
    case Write => LogAppended(s.files, Entry(s.writer.e));
    case GiveUp =>
  }

  // ---- Steps of the reader --------------------------------------------------

  lemma AtFirstMarker(f: File, pos: nat)
    requires pos < |f| && Unmarked(f[..pos]) && f[pos].Marker?
    ensures Ended(f) && Head(f) == f[..pos]
  {
    FirstMarkerIs(f, pos);
  }

  /** The current file is read up to its first marker. */
  lemma FileRead(files: seq<File>, r: Reader, r': Reader)
    requires ReadInOrder(files, r) && r.cur.Some?
    requires var c := r.cur.value; c.pos < |files[c.gen]| && files[c.gen][c.pos].Marker?
    requires r'.drained == r.drained + [r.cur.value.gen] && r'.out == r.out
    requires r'.cur.None? || (r'.cur.value.pos == 0 && r'.cur.value.gen < |files|)
    ensures ReadInOrder(files, r')
  {
    hide EventsIn, HeadsOf, Ended;
    var c := r.cur.value;
    AtFirstMarker(files[c.gen], c.pos);
    HeadsOfSnoc(files, r.drained, c.gen);
    if r'.cur.Some? {
      NothingRead(files, r'.cur.value.gen);
    }
    assert forall i :: 0 <= i < |r'.drained| ==> r'.drained[i] == if i < |r.drained| then r.drained[i] else c.gen;
  }

  lemma NothingRead(files: seq<File>, g: nat)
    requires g < |files|
    ensures Partial(files, Some(Cursor(g, 0))) == [] && Unmarked(files[g][..0])
  {
    assert files[g][..0] == [];
  }

  lemma SnapshotKeepsOrder(s: Log, s': Log, follow: bool)
    requires OrderInv(s) && SnapshotStep(s, s', follow)
    ensures OrderInv(s')
  {
    hide EventsOf, EventsIn, HeadsOf, Ended, Unmarked, Late;
    var r' := s'.reader;
    if r'.cur.Some? {
      NothingRead(s.files, r'.cur.value.gen);
    }
  }

  lemma ReadLineKeepsOrder(s: Log, s': Log)
    requires OrderInv(s) && ReadLineStep(s, s')
    ensures OrderInv(s')
  {
    hide EventsOf, EventsIn, HeadsOf, Ended;
    var c := s.reader.cur.value;
    var f := s.files[c.gen];
    assert f[..c.pos + 1] == f[..c.pos] + [f[c.pos]];
    EventsInAppend(f[..c.pos], f[c.pos]);
  }

  /** A file that holds a marker is not read beyond it. */
  lemma EndsAtMarker(f: File, pos: nat)
    requires pos <= |f| && Unmarked(f[..pos]) && Ended(f)
    ensures pos <= FirstMarker(f) < |f|
  {
    FirstMarkerMeans(f);
    assert forall i :: 0 <= i < pos ==> f[..pos][i] == f[i];
  }

  lemma EndsKeepOrder(s: Log, s': Log, follow: bool)
    requires OrderInv(s) && (EndArchiveStep(s, s', follow) || EndActiveStep(s, s'))
    ensures OrderInv(s')
  {
    hide EventsOf, EventsIn, HeadsOf, Unmarked, ReadInOrder, Ended, FilesEnd;
    var c := s.reader.cur.value;
    if s.reader.phase.InArchive? {
      CursorAt(s.files, s.reader);
      EndsAtMarker(s.files[c.gen], c.pos);
    }
    assert AtMarker(s);
    FileRead(s.files, s.reader, s'.reader);
  }

  lemma CursorAt(files: seq<File>, r: Reader)
    requires ReadInOrder(files, r) && r.cur.Some?
    ensures r.cur.value.gen < |files| && r.cur.value.pos <= |files[r.cur.value.gen]|
    ensures Unmarked(files[r.cur.value.gen][..r.cur.value.pos])
  {
  }

  lemma StepKeepsOrder(s: Log, s': Log, follow: bool, step: Step)
    requires OrderInv(s) && NextBy(s, s', follow, step)
    ensures OrderInv(s')
  {
    hide OrderInv, AtMarker, AtEnd, AtLine, AfterSnapshot;
    match step
    case Snapshot => SnapshotKeepsOrder(s, s', follow);
    case Appear => PhaseMoves(s, s');
    case ReadLine => ReadLineKeepsOrder(s, s');
    case EndArchive => EndsKeepOrder(s, s', follow);
    case EndActive => EndsKeepOrder(s, s', follow);
    case EndOfFile => PhaseMoves(s, s');
    case Cancel => PhaseMoves(s, s');
    case _ => WriterKeepsOrder(s, s', follow, step);
  }

  lemma PhaseMoves(s: Log, s': Log)
    requires OrderInv(s) && s' == s.(reader := s.reader.(phase := s'.reader.phase))
    requires s'.reader.phase.Stopped? || (s.reader.phase.AtWait? && s'.reader.phase.AtTop?)
    ensures OrderInv(s')
  {
    hide EventsOf, EventsIn, HeadsOf, Unmarked, Ended;
  }

  lemma {:induction false} RunInOrder(run: seq<Log>, follow: bool, i: nat)
    requires IsRun(run, follow) && i < |run|
    ensures OrderInv(run[i])
  {
    hide OrderInv, NextBy;
    if i == 0 {
      InitInOrder(run[0]);
    } else {
      RunInOrder(run, follow, i - 1);
      assert Next(run[i - 1], run[i - 1 + 1], follow);
      var step :| NextBy(run[i - 1], run[i], follow, step);
      StepKeepsOrder(run[i - 1], run[i], follow, step);
    }
  }

  lemma InitInOrder(s: Log)
    requires Init(s)
    ensures OrderInv(s)
  {
    assert AllGens(0) == [];
  }

  /** What is delivered, in every run: of the files opened, one after another, the
      events before their first markers. An event behind one is never delivered. */
  lemma OnlyHeadsDelivered(run: seq<Log>, follow: bool, i: nat)
    requires IsRun(run, follow) && i < |run|
    ensures var s, r := run[i], run[i].reader;
      && (forall k :: 0 <= k < |r.drained| ==> r.drained[k] < |s.files|)
      && (r.cur.Some? ==> r.cur.value.gen < |s.files| && r.cur.value.pos <= FirstMarker(s.files[r.cur.value.gen]))
      && r.out == HeadsOf(s.files, r.drained) +
                  (if r.cur.Some? then EventsIn(s.files[r.cur.value.gen][..r.cur.value.pos]) else [])
  {
    hide IsRun, HeadsOf, EventsIn, Ended, FilesEnd, Unmarked;
    RunInOrder(run, follow, i);
    var s, r := run[i], run[i].reader;
    if r.cur.Some? {
      var f := s.files[r.cur.value.gen];
      if Ended(f) {
        EndsAtMarker(f, r.cur.value.pos);
      } else {
        NotEnded(f);
      }
    }
  }

  lemma NotEnded(f: File)
    requires !Ended(f)
    ensures FirstMarker(f) == |f|
  {
  }

  // ---- When a file is read twice --------------------------------------------

  /** The reader is about to take a snapshot, and the file it drained last is still
      the active one: it met the marker of a rotation that failed. */
  predicate BehindMarker(s: Log) {
    s.reader.phase.AtTop? && s.reader.last.Some? && s.reader.last == Active(s.files, s.disk)
  }

  ghost predicate Reopens(run: seq<Log>, follow: bool, j: nat) {
    j + 1 < |run| && SnapshotStep(run[j], run[j + 1], follow) && BehindMarker(run[j])
  }

  lemma IncreasingSnoc(gens: seq<nat>, g: nat)
    ensures Increasing(gens + [g]) <==> Increasing(gens) && (gens != [] ==> gens[|gens| - 1] < g)
  {
    var more := gens + [g];
    assert forall i :: 0 <= i < |gens| ==> more[i] == gens[i];
    if Increasing(more) && gens != [] {
      assert more[|gens| - 1] < more[|gens|];
    }
  }

  lemma SnapshotOrder(s: Log, s': Log, follow: bool)
    requires OrderInv(s) && SnapshotStep(s, s', follow)
    ensures Increasing(OpenedGens(s'.reader)) <==> Increasing(OpenedGens(s.reader)) && !BehindMarker(s)
  {
    hide EventsOf, EventsIn, HeadsOf, Ended, Unmarked, Late, Increasing, CursorInv;
    var r, r' := s.reader, s'.reader;
    assert r.drained != [] ==> r.drained[|r.drained| - 1] < |s.files|;
    if r'.cur.Some? {
      IncreasingSnoc(r.drained, r'.cur.value.gen);
    }
  }

  lemma StepOrder(s: Log, s': Log, follow: bool, step: Step)
    requires OrderInv(s) && NextBy(s, s', follow, step)
    ensures Increasing(OpenedGens(s'.reader)) <==>
            Increasing(OpenedGens(s.reader)) && !(SnapshotStep(s, s', follow) && BehindMarker(s))
  {
    hide AtMarker, AtEnd, AtLine, Increasing, BehindMarker, OrderInv;
    if SnapshotStep(s, s', follow) {
      SnapshotOrder(s, s', follow);
    } else {
      OtherOrder(s, s', follow, step);
    }
  }

  lemma OtherOrder(s: Log, s': Log, follow: bool, step: Step)
    requires OrderInv(s) && NextBy(s, s', follow, step) && !SnapshotStep(s, s', follow)
    ensures Increasing(OpenedGens(s'.reader)) <==> Increasing(OpenedGens(s.reader))
  {
    hide AtMarker, AtEnd, Increasing, AfterSnapshot, FilesEnd, ReadInOrder;
    match step
    case EndArchive =>
      IncreasingSnoc(s.reader.drained + [s.reader.cur.value.gen], s.reader.cur.value.gen + 1);
    case EndActive =>
      assert OpenedGens(s'.reader) == OpenedGens(s.reader);
    case ReadLine =>
      assert OpenedGens(s'.reader) == OpenedGens(s.reader);
    case Snapshot =>
    case _ =>
      assert OpenedGens(s'.reader) == OpenedGens(s.reader);
  }

  /** The files are opened in order, each at most once, exactly as long as no snapshot
      is taken behind the marker of a failed rotation. */
  lemma {:induction false} OpenedInOrder(run: seq<Log>, follow: bool, i: nat)
    requires IsRun(run, follow) && i < |run|
    ensures Increasing(OpenedGens(run[i].reader)) <==> !exists j: nat :: j < i && Reopens(run, follow, j)
  {
    hide OrderInv, NextBy, SnapshotStep, BehindMarker, EventLog.Init, Increasing, OpenedGens;
    if i == 0 {
      NothingOpened(run[0]);
    } else {
      OpenedInOrder(run, follow, i - 1);
      RunInOrder(run, follow, i - 1);
      assert Next(run[i - 1], run[i - 1 + 1], follow);
      var step :| NextBy(run[i - 1], run[i], follow, step);
      StepOrder(run[i - 1], run[i], follow, step);
      var last: nat := i - 1;
      assert Reopens(run, follow, last) <==> SnapshotStep(run[i - 1], run[i], follow) && BehindMarker(run[i - 1]);
    }
  }

  lemma NothingOpened(s: Log)
    requires EventLog.Init(s)
    ensures Increasing(OpenedGens(s.reader))
  {
    assert OpenedGens(s.reader) == [];
  }

  // ---- The order of the events ----------------------------------------------

  /** out picks the events of log at strictly increasing positions. */
  ghost predicate PickedAt(out: seq<Event>, log: seq<Event>, at: seq<nat>) {
    && |at| == |out|
    && Increasing(at)
    && forall i :: 0 <= i < |at| ==> at[i] < |log| && out[i] == log[at[i]]
  }

  /** Where the events of file g begin in the log. */
  ghost function Offset(files: seq<File>, g: nat): nat
    requires g <= |files|
  {
    |EventsOf(files, AllGens(g))|
  }

  lemma {:induction false} EventsAtOffset(files: seq<File>, g: nat, n: nat)
    requires g < n <= |files|
    ensures Offset(files, g) + |EventsIn(files[g])| <= Offset(files, n)
    ensures EventsOf(files, AllGens(n))[Offset(files, g)..Offset(files, g) + |EventsIn(files[g])|] == EventsIn(files[g])
  {
    assert AllGens(n) == AllGens(n - 1) + [n - 1];
    EventsOfSnoc(files, AllGens(n - 1), n - 1);
    if g < n - 1 {
      EventsAtOffset(files, g, n - 1);
    }
  }

  /** The first events of file g, in the log. */
  lemma PrefixAtOffset(files: seq<File>, g: nat, n: nat)
    requires g < |files| && n <= |files[g]|
    ensures var more := EventsIn(files[g][..n]);
      && Offset(files, g) + |more| <= Offset(files, g) + |EventsIn(files[g])| <= |EventsOf(files, AllGens(|files|))|
      && EventsOf(files, AllGens(|files|))[Offset(files, g)..Offset(files, g) + |more|] == more
  {
    hide EventsIn, EventsOf;
    EventsAtOffset(files, g, |files|);
    EventsInPrefix(files[g], n);
    var log := EventsOf(files, AllGens(|files|));
    var at, whole, more := Offset(files, g), EventsIn(files[g]), EventsIn(files[g][..n]);
    assert log[at..at + |more|] == log[at..at + |whole|][..|more|];
  }

  lemma PickMore(out: seq<Event>, log: seq<Event>, at: seq<nat>, bound: nat, more: seq<Event>, offset: nat) returns (at': seq<nat>)
    requires PickedAt(out, log, at) && forall i :: 0 <= i < |at| ==> at[i] < bound
    requires bound <= offset && offset + |more| <= |log| && log[offset..offset + |more|] == more
    ensures PickedAt(out + more, log, at') && forall i :: 0 <= i < |at'| ==> at'[i] < offset + |more| || at'[i] < bound
  {
    at' := at + seq(|more|, i => offset + i);
    forall i | 0 <= i < |at'|
      ensures at'[i] < |log| && (out + more)[i] == log[at'[i]]
    {
      if i >= |at| {
        assert log[offset..offset + |more|][i - |at|] == more[i - |at|];
      }
    }
  }

  /** The events read of increasing files lie in the log at increasing positions, and
      before the events of every later file. */
  lemma {:induction false} HeadsPicked(files: seq<File>, gens: seq<nat>, bound: nat) returns (at: seq<nat>)
    requires Increasing(gens) && (forall i :: 0 <= i < |gens| ==> gens[i] < bound) && bound <= |files|
    ensures PickedAt(HeadsOf(files, gens), EventsOf(files, AllGens(|files|)), at)
    ensures forall i :: 0 <= i < |at| ==> at[i] < Offset(files, bound)
    decreases |gens|
  {
    hide EventsIn, EventsOf;
    if gens == [] {
      at := [];
    } else {
      var init, g := gens[..|gens| - 1], gens[|gens| - 1];
      var before := HeadsPicked(files, init, g);
      EventsAtOffset(files, g, bound);
      PrefixAtOffset(files, g, FirstMarker(files[g]));
      at := PickMore(HeadsOf(files, init), EventsOf(files, AllGens(|files|)), before, Offset(files, g),
                     EventsIn(Head(files[g])), Offset(files, g));
    }
  }

  lemma DeliveredPicked(s: Log) returns (at: seq<nat>)
    requires OrderInv(s) && Increasing(OpenedGens(s.reader))
    ensures PickedAt(s.reader.out, s.log, at)
  {
    hide EventsIn, EventsOf, HeadsOf, FilesEnd, Unmarked, PhaseAt, Ended, Head;
    var r := s.reader;
    if r.cur.None? {
      at := HeadsPicked(s.files, r.drained, |s.files|);
    } else {
      var c := r.cur.value;
      assert OpenedGens(r) == r.drained + [c.gen];
      IncreasingSnoc(r.drained, c.gen);
      assert forall i :: 0 <= i < |r.drained| ==> r.drained[i] == OpenedGens(r)[i] < OpenedGens(r)[|r.drained|];
      var before := HeadsPicked(s.files, r.drained, c.gen);
      PrefixAtOffset(s.files, c.gen, c.pos);
      at := PickMore(HeadsOf(s.files, r.drained), s.log, before, Offset(s.files, c.gen),
                     EventsIn(s.files[c.gen][..c.pos]), Offset(s.files, c.gen));
    }
  }

  /** As long as no snapshot is taken behind the marker of a failed rotation, events
      are delivered in the order they were appended, none twice. (A marker is not an
      event, so none is delivered.) */
  lemma DeliveredInOrder(run: seq<Log>, follow: bool, i: nat)
    requires IsRun(run, follow) && i < |run|
    requires !exists j: nat :: j < i && Reopens(run, follow, j)
    ensures exists at :: PickedAt(run[i].reader.out, run[i].log, at)
  {
    hide IsRun, Reopens, OrderInv;
    RunInOrder(run, follow, i);
    OpenedInOrder(run, follow, i);
    var at := DeliveredPicked(run[i]);
  }

  /** Only a rotation that failed once its marker was written leaves such a marker. */
  lemma OnlyFaultsReopen(run: seq<Log>, follow: bool, i: nat)
    requires IsRun(run, follow) && i < |run| && !run[i].faulty
    ensures !exists j: nat :: j < i && Reopens(run, follow, j)
  {
    hide IsRun, Reopens, FilesInv, PhaseInv, Delivered, CursorInv;
    EventLogRuns.RunInv(run, follow, i);
    OpenedInOrder(run, follow, i);
  }
}
