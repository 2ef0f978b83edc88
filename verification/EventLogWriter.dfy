/** The append of the writer, in place: the rotation rule by size, the ways it can
    fail, and its steps behind the lock. */
module EventLogWriter {
  import opened Wrappers
  import opened EventLog

  // An event is a line of its text; marker is the line a rotation writes.
  function Bytes(line: Line, marker: string): string {
    match line
    case Entry(e) => e.text + "\n"
    case Marker => marker
  }

  /** The bytes of a file. */
  function Content(f: File, marker: string): string {
    if f == [] then "" else Content(f[..|f| - 1], marker) + Bytes(f[|f| - 1], marker)
  }

  lemma ContentSnoc(f: File, line: Line, marker: string)
    ensures Content(f + [line], marker) == Content(f, marker) + Bytes(line, marker)
  {
    assert (f + [line])[..|f|] == f;
  }

  /** An empty file has no bytes, and one of one line has those of the line: an event
      ends in a newline. */
  lemma ContentOfOne(line: Line, marker: string)
    ensures Content([], marker) == ""
    ensures Content([line], marker) == match line case Entry(e) => e.text + "\n" case Marker => marker
  {
    ContentSnoc([], line, marker);
    assert [] + [line] == [line];
  }

  lemma Regroup<T>(a: seq<T>, b: seq<T>, c: seq<T>)
    ensures a + b + c == a + (b + c)
  {
  }

  /** The bytes of a file are those of its lines, one after another. */
  lemma {:induction false} ContentJoins(f: File, g: File, marker: string)
    ensures Content(f + g, marker) == Content(f, marker) + Content(g, marker)
    decreases |g|
  {
    if g == [] {
      assert f + g == f;
    } else {
      hide Content, Bytes;
      var init, last := g[..|g| - 1], g[|g| - 1];
      assert init + [last] == g;
      ContentJoins(f, init, marker);
      ContentSnoc(f + init, last, marker);
      ContentSnoc(init, last, marker);
      Regroup(f, init, [last]);
      Regroup(Content(f, marker), Content(init, marker), Bytes(last, marker));
    }
  }

  // How the calls of an append go: whether the lock and the active file are opened,
  // the marker and the event are written, where a rotation fails, if it does, and
  // whether the file is synced in the end.
  datatype Env = Env(opens: bool, marks: bool, fault: Option<Fault>, writes: bool, syncs: bool)

  datatype RotateResult = RotateResult(files: seq<File>, disk: Disk, ok: bool)

  // stored tells that the event is in the file, ok that no error is returned.
  datatype AppendResult = AppendResult(files: seq<File>, disk: Disk, stored: bool, ok: bool)

  /** The active file would outgrow maxSize, which is checked only when positive. */
  predicate Outgrows(f: File, e: Event, maxSize: int, marker: string) {
    maxSize > 0 && |Content(f, marker)| + |Bytes(Entry(e), marker)| > maxSize
  }

  /** What a rotation leaves of these files. */
  function Rotated(files: seq<File>, disk: Disk, env: Env): RotateResult
    requires files != []
  {
    if !env.marks then RotateResult(files, disk, false)
    else match env.fault
      case Some(fault) => RotateResult(Appended(files, Marker), DiskAfter(disk, fault), false)
      case None => RotateResult(Appended(files, Marker) + [[]], Whole, true)
  }

  /** The log after an append: an event that the active file has no room for goes to
      a fresh file. An append whose sync fails returns an error, and the event stays. */
  function AppendTo(files: seq<File>, disk: Disk, e: Event, env: Env, maxSize: int, marker: string): AppendResult {
    if !env.opens then AppendResult(files, disk, false, false)
    else
      var base := WithActive(files, disk);
      var r := if Outgrows(base[|base| - 1], e, maxSize, marker) then Rotated(base, DiskWithActive(disk), env)
               else RotateResult(base, DiskWithActive(disk), true);
      if r.ok && env.writes then AppendResult(Appended(r.files, Entry(e)), r.disk, true, env.syncs)
      else AppendResult(r.files, r.disk, false, false)
  }

  /** The lines of the active file; none when it is missing. */
  function ActiveLines(files: seq<File>, disk: Disk): File {
    if files == [] || disk.NoActive? then [] else files[|files| - 1]
  }

  predicate Works(env: Env) {
    env.opens && env.marks && env.fault.None? && env.writes
  }

  /** The files after an append of e to these. It rotates exactly when the limit is
      positive and the bytes of the active file and those of the event, with its
      newline, exceed it: it then marks the active file, and the event begins a new
      one. Else the event is appended to it. The other files stay. */
  predicate BySize(files: seq<File>, disk: Disk, e: Event, maxSize: int, marker: string, after: seq<File>) {
    var f := ActiveLines(files, disk);
    var older := if files == [] || disk.NoActive? then files else files[..|files| - 1];
    if maxSize > 0 && |Content(f, marker)| + |e.text| + 1 > maxSize
    then after == older + [f + [Marker]] + [[Entry(e)]]
    else after == older + [f + [Entry(e)]]
  }

  class LogWriter {
    const maxSize: int
    const marker: string
    var files: seq<File>
    var disk: Disk

    constructor (maxSize: int, marker: string)
      ensures this.maxSize == maxSize && this.marker == marker && files == [] && disk == Whole
    {
      this.maxSize, this.marker, this.files, this.disk := maxSize, marker, [], Whole;
    }

    method WriteLine(line: Line)
      requires files != []
      modifies this`files
      ensures files == Appended(old(files), line)
    {
      files := files[|files| - 1 := files[|files| - 1] + [line]];
    }

    /** Marks the active file and makes it the archive, which drops the previous
        archive, behind a fresh active file. On an error what was done so far stays. */
    method RotateLocked(env: Env) returns (ok: bool)
      requires files != []
      modifies this
      ensures RotateResult(files, disk, ok) == Rotated(old(files), old(disk), env)
      ensures !ok ==> files == old(files) || files == Appended(old(files), Marker)
      ensures ok ==> Active(files, disk) == Some(|old(files)|) && files[|old(files)|] == [] && Archive(files, disk) == Some(|old(files)| - 1)
    {
      if !env.marks {
        return false;
      }
      WriteLine(Marker);
      if env.fault == Some(MarkerLeft) {
        return false;
      }
      disk := NoArchive;
      if env.fault == Some(ArchiveGone) {
        return false;
      }
      disk := NoActive;
      if env.fault == Some(NotReopened) {
        return false;
      }
      files, disk := files + [[]], Whole;
      return true;
    }

    method Append(e: Event, env: Env) returns (ok: bool)
      modifies this
      ensures var r := AppendTo(old(files), old(disk), e, env, maxSize, marker);
        files == r.files && disk == r.disk && ok == r.ok
      ensures Works(env) ==> BySize(old(files), old(disk), e, maxSize, marker, files) && (ok <==> env.syncs)
    {
      hide Content, BySize;
      if Works(env) {
        RotatesBySize(files, disk, e, env, maxSize, marker);
      }
      if !env.opens {
        return false;
      }
      if files == [] || disk.NoActive? {
        files := files + [[]];
        disk := if disk.NoActive? then Whole else disk;
      }
      var size := |Content(files[|files| - 1], marker)|;
      if maxSize > 0 && size + |Bytes(Entry(e), marker)| > maxSize {
        var rotated := RotateLocked(env);
        if !rotated {
          return false;
        }
      }
      if !env.writes {
        return false;
      }
      WriteLine(Entry(e));
      return env.syncs;
    }
  }

  lemma AppendedLast(older: seq<File>, f: File, line: Line)
    ensures Appended(older + [f], line) == older + [f + [line]]
  {
  }

  lemma ActiveLast(files: seq<File>, disk: Disk)
    ensures WithActive(files, disk) == (if files == [] || disk.NoActive? then files else files[..|files| - 1]) + [ActiveLines(files, disk)]
  {
  }

  /** An append whose calls work is one by size. */
  lemma RotatesBySize(files: seq<File>, disk: Disk, e: Event, env: Env, maxSize: int, marker: string)
    requires Works(env)
    ensures BySize(files, disk, e, maxSize, marker, AppendTo(files, disk, e, env, maxSize, marker).files)
  {
    hide Content, Appended, WithActive, ActiveLines;
    var f := ActiveLines(files, disk);
    var older := if files == [] || disk.NoActive? then files else files[..|files| - 1];
    ActiveLast(files, disk);
    assert |Bytes(Entry(e), marker)| == |e.text| + 1;
    AppendedLast(older, f, Marker);
    AppendedLast(older, f, Entry(e));
    AppendedLast(older + [f + [Marker]], [], Entry(e));
    assert [] + [Entry(e)] == [Entry(e)];
  }

  /** After an append that stored its event the bytes of the active file are within the
      limit, unless it holds that event alone. The file ends in the event, behind what
      it held before if there was room. */
  lemma ActiveFileBounded(files: seq<File>, disk: Disk, e: Event, env: Env, maxSize: int, marker: string)
    requires maxSize > 0 && AppendTo(files, disk, e, env, maxSize, marker).stored
    ensures var files' := AppendTo(files, disk, e, env, maxSize, marker).files;
      && files' != []
      && var f, f' := ActiveLines(files, disk), files'[|files'| - 1];
         && (|Content(f', marker)| <= maxSize || f' == [Entry(e)])
         && Content(f', marker) == (if |Content(f, marker)| + |e.text| + 1 <= maxSize then Content(f, marker) else "") + e.text + "\n"
  {
    hide Content;
    var base := WithActive(files, disk);
    var f := base[|base| - 1];
    assert |Bytes(Entry(e), marker)| == |e.text| + 1;
    ContentSnoc(f, Entry(e), marker);
    ContentOfOne(Entry(e), marker);
    if Outgrows(f, e, maxSize, marker) {
      assert [] + [Entry(e)] == [Entry(e)];
    }
  }

  // ---- The append as steps --------------------------------------------------

  ghost predicate Path(run: seq<Log>, follow: bool) {
    run != [] && forall i {:trigger run[i]} :: 0 <= i < |run| - 1 ==> Next(run[i], run[i + 1], follow)
  }

  lemma Follow(run: seq<Log>, follow: bool, s': Log, step: Step)
    requires Path(run, follow) && NextBy(run[|run| - 1], s', follow, step)
    ensures Path(run + [s'], follow)
  {
    hide NextBy;
    var longer := run + [s'];
    forall i | 0 <= i < |longer| - 1
      ensures Next(longer[i], longer[i + 1], follow)
    {
      if i < |run| - 1 {
        assert Next(run[i], run[i + 1], follow);
      }
    }
  }

  /** The steps of a rotation. */
  lemma RotationSteps(run: seq<Log>, follow: bool, env: Env) returns (more: seq<Log>)
    requires Path(run, follow)
    requires var s := run[|run| - 1]; s.writer.Opened? && s.files != []
    ensures Path(more, follow) && more[0] == run[0]
    ensures var s, s' := run[|run| - 1], more[|more| - 1];
      var r := Rotated(s.files, s.disk, env);
      s' == s.(files := r.files, disk := r.disk, writer := if r.ok then Reopened(s.writer.e) else Free,
               faulty := s.faulty || (env.marks && env.fault.Some?))
  {
    var s := run[|run| - 1];
    if !env.marks {
      var s' := s.(writer := Free);
      Follow(run, follow, s', GiveUp);
      more := run + [s'];
    } else {
      var marked := s.(files := Appended(s.files, Marker), writer := Marked(s.writer.e));
      Follow(run, follow, marked, Mark);
      match env.fault
      case Some(fault) =>
        var s' := marked.(writer := Free, disk := DiskAfter(s.disk, fault), faulty := true);
        Follow(run + [marked], follow, s', RotateFails(fault));
        more := run + [marked] + [s'];
      case None =>
        var s' := marked.(files := marked.files + [[]], disk := Whole, writer := Reopened(s.writer.e));
        Follow(run + [marked], follow, s', Rotate);
        more := run + [marked] + [s'];
    }
  }

  /** The last step of an append, unless its rotation failed. */
  lemma WriteSteps(run: seq<Log>, follow: bool, env: Env) returns (more: seq<Log>)
    requires Path(run, follow)
    requires var s := run[|run| - 1]; s.writer.Free? || ((s.writer.Opened? || s.writer.Reopened?) && s.files != [])
    ensures Path(more, follow) && more[0] == run[0]
    ensures var s, s' := run[|run| - 1], more[|more| - 1];
      s' == if s.writer.Free? then s
            else if env.writes then s.(files := Appended(s.files, Entry(s.writer.e)), writer := Free, log := s.log + [s.writer.e])
            else s.(writer := Free)
  {
    var s := run[|run| - 1];
    more := run;
    if !s.writer.Free? {
      var s' := if env.writes then s.(files := Appended(s.files, Entry(s.writer.e)), writer := Free, log := s.log + [s.writer.e])
                else s.(writer := Free);
      Follow(run, follow, s', if env.writes then Write else GiveUp);
      more := run + [s'];
    }
  }

  lemma OpenSteps(s: Log, e: Event, follow: bool) returns (run: seq<Log>)
    requires s.writer.Free?
    ensures Path(run, follow) && run[0] == s
    ensures run[|run| - 1] == s.(files := WithActive(s.files, s.disk), disk := DiskWithActive(s.disk), writer := Opened(e))
  {
    var s' := s.(files := WithActive(s.files, s.disk), disk := DiskWithActive(s.disk), writer := Opened(e));
    Follow([s], follow, s', Open(e));
    run := [s] + [s'];
  }

  /** An append is a run of writer steps, whether it works or fails: from any state
      with the lock free they lead to the log it leaves, with the event at the end of
      the history when it was stored. */
  lemma AppendIsSteps(s: Log, e: Event, follow: bool, env: Env, maxSize: int, marker: string) returns (run: seq<Log>)
    requires s.writer.Free?
    ensures Path(run, follow) && run[0] == s
    ensures var r := AppendTo(s.files, s.disk, e, env, maxSize, marker);
      run[|run| - 1] == s.(files := r.files, disk := r.disk, log := if r.stored then s.log + [e] else s.log,
                           faulty := run[|run| - 1].faulty)
    ensures run[|run| - 1].faulty <==>
              s.faulty || (env.opens && env.marks && env.fault.Some?
                           && var base := WithActive(s.files, s.disk); Outgrows(base[|base| - 1], e, maxSize, marker))
  {
    hide Outgrows, Next, WithActive, Appended;
    if env.opens {
      run := OpenSteps(s, e, follow);
      var ready := run[|run| - 1];
      if Outgrows(ready.files[|ready.files| - 1], e, maxSize, marker) {
        run := RotationSteps(run, follow, env);
        RotatedFiles(ready.files, ready.disk, env);
      }
      run := WriteSteps(run, follow, env);
    } else {
      run := [s];
    }
  }

  lemma RotatedFiles(files: seq<File>, disk: Disk, env: Env)
    requires files != []
    ensures Rotated(files, disk, env).files != []
  {
  }
}
