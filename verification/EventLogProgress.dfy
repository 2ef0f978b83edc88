/** A reader gets on: with no writer under way it can always read to the end of the
    log. */
module EventLogProgress {
  import opened Wrappers
  import opened EventLog
  import opened EventLogRuns
  import opened EventLogOrder
  import opened EventLogRepeats

  /** The reader is in the newest file, with nothing left to read. */
  ghost predicate CaughtUp(s: Log) {
    && s.reader.phase.InActive? && s.reader.cur.Some?
    && s.reader.cur.value.gen == |s.files| - 1 && s.reader.cur.value.pos == |s.files[|s.files| - 1]|
  }

  lemma {:induction false} ReadToEnd(run: seq<Log>, follow: bool) returns (more: seq<Log>)
    requires Ran(run, follow) && Last(run).reader.phase.InActive? && Last(run).reader.cur.Some?
    requires var s := Last(run);
      var c := s.reader.cur.value;
      c.gen == |s.files| - 1 && c.pos <= |s.files[c.gen]| && Unmarked(s.files[c.gen])
    ensures Ran(more, follow) && run <= more && ReaderMoved(Last(run), Last(more)) && CaughtUp(Last(more))
    decreases var s := Last(run); |s.files[s.reader.cur.value.gen]| - s.reader.cur.value.pos
  {
    hide IsRun;
    var s := Last(run);
    var c := s.reader.cur.value;
    var f := s.files[c.gen];
    if c.pos == |f| {
      more := run;
    } else {
      var s' := s.(reader := s.reader.(cur := Some(c.(pos := c.pos + 1)), out := s.reader.out + [f[c.pos].e]));
      Extend(run, follow, s', ReadLine);
      more := ReadToEnd(run + [s'], follow);
    }
  }

  /** From a snapshot it reads the archive that is due, and the active file. */
  lemma FromTop(run: seq<Log>, follow: bool) returns (more: seq<Log>)
    requires Ran(run, follow) && Last(run).writer.Free? && Last(run).disk.Whole? && Last(run).reader.phase.AtTop?
    requires var s := Last(run); s.files != [] && Unmarked(s.files[|s.files| - 1])
    ensures Ran(more, follow) && run <= more && ReaderMoved(Last(run), Last(more)) && CaughtUp(Last(more))
  {
    hide IsRun, Late, Unmarked;
    var s := Last(run);
    var s' := s.(reader := AfterSnapshot(s.files, s.disk, s.reader, follow));
    Extend(run, follow, s', Snapshot);
    var begun := run + [s'];
    if s'.reader.phase.InArchive? {
      RunInOrder(begun, follow, |begun| - 1);
      ArchiveEnded(s', |s.files| - 2);
      begun := DrainArchive(begun, follow);
    }
    more := ReadToEnd(begun, follow);
  }

  /** A part without a marker lies before the first one. */
  lemma BeforeMarker(f: File, pos: nat)
    requires pos <= |f| && Unmarked(f[..pos]) && Ended(f)
    ensures pos <= FirstMarker(f)
  {
    FirstMarkerMeans(f);
    assert forall i :: 0 <= i < pos ==> f[i] == f[..pos][i];
  }

  lemma LeaveArchive(run: seq<Log>, follow: bool) returns (more: seq<Log>)
    requires Ran(run, follow) && Last(run).reader.phase.InArchive? && Last(run).reader.phase.active.Some? && OrderInv(Last(run))
    ensures Ran(more, follow) && run <= more && ReaderMoved(Last(run), Last(more)) && Last(more).reader.phase.InActive?
  {
    hide IsRun, AtMarker, HeadsOf, EventsOf, EventsIn, FirstMarker, Unmarked;
    var s := Last(run);
    BeforeMarker(s.files[s.reader.cur.value.gen], s.reader.cur.value.pos);
    var read := ReadToMarker(run, follow);
    var t := Last(read);
    var g := t.reader.cur.value.gen;
    var t' := t.(reader := EnterActive(t.reader.(last := Some(g), drained := t.reader.drained + [g]), t.reader.phase.active, follow));
    Extend(read, follow, t', EndArchive);
    more := read + [t'];
  }

  lemma LeaveActive(run: seq<Log>, follow: bool) returns (more: seq<Log>)
    requires Ran(run, follow) && Last(run).reader.phase.InActive? && OrderInv(Last(run))
    requires Last(run).reader.cur.Some? && Last(run).reader.cur.value.gen < |Last(run).files| - 1
    ensures Ran(more, follow) && run <= more && ReaderMoved(Last(run), Last(more)) && Last(more).reader.phase.AtTop?
  {
    hide IsRun, AtMarker, HeadsOf, EventsOf, EventsIn, FirstMarker, Unmarked;
    var s := Last(run);
    BeforeMarker(s.files[s.reader.cur.value.gen], s.reader.cur.value.pos);
    var read := ReadToMarker(run, follow);
    var t := Last(read);
    var t' := t.(reader := t.reader.(phase := AtTop, cur := None, drained := t.reader.drained + [t.reader.cur.value.gen]));
    Extend(read, follow, t', EndActive);
    more := read + [t'];
  }

  /** What a run without a faulty rotation is like while nothing is being written. */
  lemma Quiet(run: seq<Log>, follow: bool)
    requires Ran(run, follow) && !Last(run).faulty && Last(run).writer.Free?
    ensures var s := Last(run);
      && Inv(s) && OrderInv(s) && s.disk.Whole?
      && (s.files != [] ==> Unmarked(s.files[|s.files| - 1]))
      && (s.reader.phase.InArchive? ==> s.reader.phase.active.Some?)
      && (s.reader.phase.InActive? ==> s.reader.cur.Some? && s.reader.cur.value.gen < |s.files|
                                         && s.reader.cur.value.pos <= |s.files[s.reader.cur.value.gen]|)
  {
    hide IsRun, EventsOf, EventsIn, OmitsDeletedOnly, HeadsOf;
    RunInv(run, follow, |run| - 1);
    RunInOrder(run, follow, |run| - 1);
    if Last(run).files != [] {
      var files := Last(run).files;
      assert !Frozen(files, Last(run).writer, |files| - 1);
      assert Unmarked(files[|files| - 1]);
    }
  }

  lemma FromActive(run: seq<Log>, follow: bool) returns (more: seq<Log>)
    requires Ran(run, follow) && !Last(run).faulty && Last(run).writer.Free? && Last(run).reader.phase.InActive?
    ensures Ran(more, follow) && run <= more && ReaderMoved(Last(run), Last(more)) && CaughtUp(Last(more))
  {
    hide IsRun, Inv, OrderInv;
    Quiet(run, follow);
    var s := Last(run);
    if s.reader.cur.value.gen == |s.files| - 1 {
      more := ReadToEnd(run, follow);
    } else {
      more := LeaveActive(run, follow);
      more := FromTop(more, follow);
    }
  }

  /** Wherever a reader that was not cancelled is, while no append is under way and no
      rotation was faulty, it can read on to the end of the newest file, without a step
      of the writer. Then it has delivered the whole log, unless some snapshot of it came
      late. */
  lemma CatchesUp(run: seq<Log>, follow: bool) returns (more: seq<Log>)
    requires Ran(run, follow) && !Last(run).faulty && Last(run).writer.Free? && Last(run).files != [] && !Last(run).reader.phase.Stopped?
    ensures Ran(more, follow) && run <= more && ReaderMoved(Last(run), Last(more)) && CaughtUp(Last(more))
    ensures !Last(more).reader.late ==> Last(more).reader.out == Last(more).log
  {
    hide IsRun, Inv, OrderInv, CaughtUp;
    Quiet(run, follow);
    var s := Last(run);
    match s.reader.phase {
      case AtTop => more := FromTop(run, follow);
      case AtWait =>
        var s' := s.(reader := s.reader.(phase := AtTop));
        Extend(run, follow, s', Appear);
        more := FromTop(run + [s'], follow);
      case InArchive(_) =>
        more := LeaveArchive(run, follow);
        more := FromActive(more, follow);
      case InActive => more := FromActive(run, follow);
    }
    Quiet(more, follow);
    AllDelivered(Last(more));
  }

  lemma AllDelivered(s: Log)
    requires Inv(s) && CaughtUp(s)
    ensures !s.reader.late ==> s.reader.out == s.log
  {
    hide EventsOf, EventsIn, OmitsDeletedOnly, FilesInv;
    if !s.reader.late {
      ConsecutiveDelivers(s);
    }
  }
}
