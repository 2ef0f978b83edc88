/** What a reader does behind the marker of a rotation that failed: it opens the same
    file again and delivers its events once more, until a rotation succeeds. */
module EventLogRepeats {
  import opened Wrappers
  import opened EventLog
  import opened EventLogRuns
  import opened EventLogOrder

  ghost function Last(run: seq<Log>): Log
    requires run != []
  {
    run[|run| - 1]
  }

  ghost predicate Ran(run: seq<Log>, follow: bool) {
    run != [] && IsRun(run, follow)
  }

  lemma Extend(run: seq<Log>, follow: bool, s': Log, step: Step)
    requires Ran(run, follow) && NextBy(Last(run), s', follow, step)
    ensures Ran(run + [s'], follow) && run <= run + [s'] && Last(run + [s']) == s'
  {
    hide NextBy;
    var longer := run + [s'];
    forall i | 0 <= i < |longer| - 1
      ensures Next(longer[i], longer[i + 1], follow)
    {
      if i < |run| - 1 {
        assert Next(run[i], run[i + 1], follow);
      }
    }
  }

  /** Only the reader moved. */
  ghost predicate ReaderMoved(s: Log, s': Log) {
    s' == s.(reader := s'.reader)
  }

  /** Reads on to the first marker of the current file. */
  lemma {:induction false} ReadToMarker(run: seq<Log>, follow: bool) returns (more: seq<Log>)
    requires Ran(run, follow) && Scanning(Last(run).reader)
    requires var s := Last(run);
      var c := s.reader.cur.value;
      c.gen < |s.files| && c.pos <= FirstMarker(s.files[c.gen]) && Ended(s.files[c.gen])
    ensures Ran(more, follow) && run <= more && ReaderMoved(Last(run), Last(more))
    ensures var s, r' := Last(run), Last(more).reader;
      var g := s.reader.cur.value.gen;
      && r' == s.reader.(cur := Some(Cursor(g, FirstMarker(s.files[g]))), out := r'.out)
      && AtMarker(Last(more))
    decreases var s := Last(run); FirstMarker(s.files[s.reader.cur.value.gen]) - s.reader.cur.value.pos
  {
    hide IsRun;
    var s := Last(run);
    var c := s.reader.cur.value;
    var f := s.files[c.gen];
    FirstMarkerMeans(f);
    if c.pos == FirstMarker(f) {
      more := run;
    } else {
      assert f[..FirstMarker(f)][c.pos] == f[c.pos];
      var s' := s.(reader := s.reader.(cur := Some(c.(pos := c.pos + 1)), out := s.reader.out + [f[c.pos].e]));
      Extend(run, follow, s', ReadLine);
      more := ReadToMarker(run + [s'], follow);
    }
  }

  /** Reads the archive, and goes on with the active file. */
  lemma DrainArchive(run: seq<Log>, follow: bool) returns (more: seq<Log>)
    requires Ran(run, follow) && Last(run).reader.phase.InArchive? && Last(run).reader.phase.active.Some?
    requires Last(run).reader.cur.Some? && Last(run).reader.cur.value.pos == 0
    requires Last(run).reader.cur.value.gen < |Last(run).files| && Ended(Last(run).files[Last(run).reader.cur.value.gen])
    ensures Ran(more, follow) && run <= more && ReaderMoved(Last(run), Last(more))
    ensures var r, r' := Last(run).reader, Last(more).reader;
      && r'.phase.InActive? && r'.cur == Some(Cursor(r.phase.active.value, 0)) && r'.last == r.phase.active
      && r'.drained == r.drained + [r.cur.value.gen]
  {
    hide IsRun, AtMarker;
    var read := ReadToMarker(run, follow);
    var s := Last(read);
    var g := s.reader.cur.value.gen;
    var s' := s.(reader := EnterActive(s.reader.(last := Some(g), drained := s.reader.drained + [g]), s.reader.phase.active, follow));
    Extend(read, follow, s', EndArchive);
    more := read + [s'];
  }

  lemma DrainActive(run: seq<Log>, follow: bool) returns (more: seq<Log>)
    requires Ran(run, follow) && Last(run).reader.phase.InActive?
    requires Last(run).reader.cur.Some? && Last(run).reader.cur.value.pos == 0
    requires Last(run).reader.cur.value.gen < |Last(run).files| && Ended(Last(run).files[Last(run).reader.cur.value.gen])
    ensures Ran(more, follow) && run <= more && ReaderMoved(Last(run), Last(more))
    ensures var r, r' := Last(run).reader, Last(more).reader;
      r'.phase.AtTop? && r'.cur.None? && r'.last == r.last && r'.drained == r.drained + [r.cur.value.gen]
  {
    hide IsRun, AtMarker;
    var read := ReadToMarker(run, follow);
    var s := Last(read);
    var s' := s.(reader := s.reader.(phase := AtTop, cur := None, drained := s.reader.drained + [s.reader.cur.value.gen]));
    Extend(read, follow, s', EndActive);
    more := read + [s'];
  }

  /** The archive, when the next snapshot finds one that is not the file drained
      last. */
  function ArchiveDue(s: Log): seq<nat> {
    match Archive(s.files, s.disk)
    case Some(a) => if s.reader.last == Some(a) then [] else [a]
    case None => []
  }

  /** One round of a reader while the active file holds a marker: it reads the archive
      that is due, and the active file up to the marker. */
  lemma Round(run: seq<Log>, follow: bool) returns (more: seq<Log>)
    requires Ran(run, follow)
    requires var s := Last(run);
      s.writer.Free? && s.reader.phase.AtTop? && s.files != [] && !s.disk.NoActive? && Ended(s.files[|s.files| - 1])
    ensures Ran(more, follow) && run <= more && ReaderMoved(Last(run), Last(more)) && BehindMarker(Last(more))
    ensures var s, s' := Last(run), Last(more);
      s'.reader.drained == s.reader.drained + ArchiveDue(s) + [|s.files| - 1]
  {
    hide IsRun, Ended, Late;
    var s := Last(run);
    var s' := s.(reader := AfterSnapshot(s.files, s.disk, s.reader, follow));
    Extend(run, follow, s', Snapshot);
    var begun := run + [s'];
    if ArchiveDue(s) != [] {
      RunInOrder(begun, follow, |begun| - 1);
      ArchiveEnded(s', |s.files| - 2);
      begun := DrainArchive(begun, follow);
    }
    more := DrainActive(begun, follow);
  }

  lemma ArchiveEnded(s: Log, a: nat)
    requires OrderInv(s) && a + 1 < |s.files|
    ensures Ended(s.files[a])
  {
  }

  /** At the top nothing is half read. */
  lemma DrainedOut(run: seq<Log>, follow: bool)
    requires Ran(run, follow) && Last(run).reader.phase.AtTop?
    ensures var s := Last(run);
      && (forall i :: 0 <= i < |s.reader.drained| ==> s.reader.drained[i] < |s.files| && Ended(s.files[s.reader.drained[i]]))
      && s.reader.cur.None? && s.reader.last == LastOf(s.reader.drained)
      && s.reader.out == HeadsOf(s.files, s.reader.drained)
  {
    hide IsRun, FilesEnd, EventsOf, HeadsOf, Ended;
    RunInOrder(run, follow, |run| - 1);
  }

  lemma HeadsOfMore(files: seq<File>, gens: seq<nat>, due: seq<nat>, g: nat)
    requires |due| <= 1 && g < |files| && forall i :: 0 <= i < |gens| ==> gens[i] < |files|
    requires forall i :: 0 <= i < |due| ==> due[i] < |files|
    ensures forall i :: 0 <= i < |gens + due + [g]| ==> (gens + due + [g])[i] < |files|
    ensures HeadsOf(files, gens + due + [g]) == HeadsOf(files, gens) + HeadsOf(files, due + [g])
  {
    hide HeadsOf, EventsIn;
    HeadsOfSnoc(files, gens + due, g);
    HeadsOfSnoc(files, due, g);
    if due == [] {
      assert gens + due == gens;
      NoHeads(files);
    } else {
      assert due == [] + [due[0]] && gens + due == gens + [due[0]];
      HeadsOfSnoc(files, gens, due[0]);
      HeadsOfSnoc(files, [], due[0]);
      NoHeads(files);
    }
  }

  lemma NoHeads(files: seq<File>)
    ensures HeadsOf(files, []) == []
  {
  }

  /** Behind such a marker every reader can go on to read the whole of the active file
      up to the marker once more, the archive before it where there is one, and be
      behind the marker again. The files it read before. */
  lemma RepeatsBehindMarker(run: seq<Log>, follow: bool) returns (more: seq<Log>)
    requires Ran(run, follow) && BehindMarker(Last(run)) && Last(run).writer.Free?
    ensures Ran(more, follow) && run <= more && ReaderMoved(Last(run), Last(more)) && BehindMarker(Last(more))
    ensures var s, s' := Last(run), Last(more);
      var g := |s.files| - 1;
      && s.files != [] && g in s.reader.drained
      && (forall i :: 0 <= i < |ArchiveDue(s)| ==> ArchiveDue(s)[i] < |s.files|)
      && s'.reader.drained == s.reader.drained + ArchiveDue(s) + [g]
      && s'.reader.out == s.reader.out + HeadsOf(s.files, ArchiveDue(s) + [g])
  {
    hide IsRun, Ended, HeadsOf;
    var s := Last(run);
    DrainedOut(run, follow);
    assert s.reader.drained[|s.reader.drained| - 1] == |s.files| - 1;
    more := Round(run, follow);
    DrainedOut(more, follow);
    HeadsOfMore(s.files, s.reader.drained, ArchiveDue(s), |s.files| - 1);
  }

  /** It can do so any number of times. */
  lemma {:induction false} RepeatsForever(run: seq<Log>, follow: bool, n: nat) returns (more: seq<Log>)
    requires Ran(run, follow) && BehindMarker(Last(run)) && Last(run).writer.Free?
    ensures Ran(more, follow) && run <= more && ReaderMoved(Last(run), Last(more)) && BehindMarker(Last(more))
    ensures Last(run).files != []
    ensures var g := |Last(run).files| - 1;
      multiset(Last(more).reader.drained)[g] >= multiset(Last(run).reader.drained)[g] + n
    decreases n
  {
    hide IsRun, HeadsOf;
    more := run;
    if n > 0 {
      var once := RepeatsBehindMarker(run, follow);
      more := RepeatsForever(once, follow, n - 1);
    }
  }

  /** A rotation that fails with its marker left in the active file. */
  lemma RotationFails(run: seq<Log>, follow: bool, e: Event) returns (more: seq<Log>)
    requires Ran(run, follow) && Last(run).writer.Free?
    ensures Ran(more, follow) && run <= more
    ensures var s := Last(run);
      Last(more) == s.(files := Appended(WithActive(s.files, s.disk), Marker), disk := DiskWithActive(s.disk), faulty := true)
    ensures Ended(Last(more).files[|Last(more).files| - 1])
  {
    hide IsRun, Ended;
    var s := Last(run);
    var s1 := s.(files := WithActive(s.files, s.disk), disk := DiskWithActive(s.disk), writer := Opened(e));
    Extend(run, follow, s1, Open(e));
    var s2 := s1.(files := Appended(s1.files, Marker), writer := Marked(e));
    Extend(run + [s1], follow, s2, Mark);
    var s3 := s2.(writer := Free, faulty := true);
    Extend(run + [s1] + [s2], follow, s3, RotateFails(MarkerLeft));
    EndedByMarker(s1.files[|s1.files| - 1]);
    more := run + [s1] + [s2] + [s3];
  }

  lemma TwoRounds(drained: seq<nat>, due: seq<nat>, again: seq<nat>, g: nat)
    ensures multiset(drained + due + [g] + again + [g])[g] >= multiset(drained)[g] + 2
  {
  }

  /** From wherever the reader is about to take a snapshot, a rotation that fails once
      its marker is written can make it deliver what the active file holds before the
      marker twice, though nothing was appended. */
  lemma FailedRotationRepeats(run: seq<Log>, follow: bool, e: Event) returns (more: seq<Log>)
    requires Ran(run, follow) && Last(run).writer.Free? && Last(run).reader.phase.AtTop?
    ensures Ran(more, follow) && run <= more && BehindMarker(Last(more))
    ensures var s, s' := Last(run), Last(more);
      var g := |s'.files| - 1;
      && s'.files == Appended(WithActive(s.files, s.disk), Marker) && s'.log == s.log
      && multiset(s'.reader.drained)[g] >= multiset(s.reader.drained)[g] + 2
      && (forall i :: 0 <= i < |s'.reader.drained| ==> s'.reader.drained[i] < |s'.files|)
      && s'.reader.out == HeadsOf(s'.files, s'.reader.drained)
      && (var f := WithActive(s.files, s.disk)[g]; Unmarked(f) ==> Head(s'.files[g]) == f)
  {
    hide IsRun, HeadsOf, Ended, Appended, WithActive, ArchiveDue;
    var s := Last(run);
    HeadOfActive(s);
    var failed := RotationFails(run, follow, e);
    assert Last(failed).files != [] by { NotEmpty(s); }
    var once := Round(failed, follow);
    more := RepeatsBehindMarker(once, follow);
    DrainedOut(more, follow);
    TwoRounds(s.reader.drained, ArchiveDue(Last(failed)), ArchiveDue(Last(once)), |Last(more).files| - 1);
  }

  lemma NotEmpty(s: Log)
    ensures |Appended(WithActive(s.files, s.disk), Marker)| > 0
  {
  }

  /** In a file without an earlier marker that is all of its events. */
  lemma HeadOfActive(s: Log)
    ensures var files := WithActive(s.files, s.disk);
      var g := |files| - 1;
      && |Appended(files, Marker)| == g + 1
      && (Unmarked(files[g]) ==> Head(Appended(files, Marker)[g]) == files[g])
  {
    var files := WithActive(s.files, s.disk);
    var f := files[|files| - 1];
    assert (f + [Marker])[..|f|] == f;
    if Unmarked(f) {
      FirstMarkerIs(f + [Marker], |f|);
    }
  }
}
