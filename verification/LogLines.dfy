/** Output of a command as log records, and the lines put together from them
    again. */
module LogLines {
  import opened Collections
  import opened Wrappers

  datatype Stream = Stderr | Stdout

  function Other(stream: Stream): Stream {
    if stream == Stderr then Stdout else Stderr
  }

  datatype LogLine = LogLine(stream: Stream, partial: bool, line: string)

  // ---- The lines of a byte stream -------------------------------------------

  /** What follows the last newline. */
  function Tail(s: string): string {
    if s == [] || s[|s| - 1] == '\n' then [] else Tail(s[..|s| - 1]) + [s[|s| - 1]]
  }

  /** The lines of s that end in a newline, with it. */
  function Lines(s: string): seq<string> {
    if s == [] then []
    else if s[|s| - 1] == '\n' then Lines(s[..|s| - 1]) + [Tail(s[..|s| - 1]) + "\n"]
    else Lines(s[..|s| - 1])
  }

  predicate Unbroken(s: string) {
    forall i :: 0 <= i < |s| ==> s[i] != '\n'
  }

  /** A record holds one line with its newline, or, marked partial, a piece of one. */
  predicate RecordOk(l: LogLine) {
    if l.partial then l.line != [] && Unbroken(l.line)
    else l.line != [] && l.line[|l.line| - 1] == '\n' && Unbroken(l.line[..|l.line| - 1])
  }

  lemma AddByte(s: string, c: char)
    ensures Tail(s + [c]) == if c == '\n' then [] else Tail(s) + [c]
    ensures Lines(s + [c]) == if c == '\n' then Lines(s) + [Tail(s) + "\n"] else Lines(s)
  {
    assert (s + [c])[..|s|] == s;
  }

  lemma {:induction false} AddPiece(s: string, piece: string)
    requires Unbroken(piece)
    ensures Tail(s + piece) == Tail(s) + piece && Lines(s + piece) == Lines(s)
  {
    hide Tail, Lines;
    if piece == [] {
      assert s + piece == s;
    } else {
      var init, c := piece[..|piece| - 1], piece[|piece| - 1];
      assert piece == init + [c];
      AddPiece(s, init);
      Associate(s, init, [c]);
      Associate(Tail(s), init, [c]);
      AddByte(s + init, c);
    }
  }

  lemma Associate(a: string, b: string, c: string)
    ensures a + (b + c) == a + b + c
  {
  }

  lemma AddLine(s: string, line: string)
    requires line != [] && line[|line| - 1] == '\n' && Unbroken(line[..|line| - 1])
    ensures Tail(s + line) == [] && Lines(s + line) == Lines(s) + [Tail(s) + line]
  {
    hide Tail, Lines;
    var piece := line[..|line| - 1];
    assert line == piece + ['\n'];
    AddPiece(s, piece);
    Associate(s, piece, ['\n']);
    Associate(Tail(s), piece, ['\n']);
    AddByte(s + piece, '\n');
  }

  /** Text without a newline but for the one it ends in. */
  predicate IsLine(line: string) {
    line != [] && line[|line| - 1] == '\n' && Unbroken(line[..|line| - 1])
  }

  lemma {:induction false} LinesAreLines(s: string)
    ensures (forall i :: 0 <= i < |Lines(s)| ==> IsLine(Lines(s)[i])) && Unbroken(Tail(s))
  {
    if s != [] {
      var init := s[..|s| - 1];
      LinesAreLines(init);
      assert (Tail(init) + "\n")[..|Tail(init)|] == Tail(init);
    }
  }

  /** The terminated lines and the tail make up the stream. Each line ends in a newline
      and holds no other, and the tail holds none. */
  lemma LinesSplit(s: string)
    ensures Concat(Lines(s)) + Tail(s) == s
    ensures (forall i :: 0 <= i < |Lines(s)| ==> IsLine(Lines(s)[i])) && Unbroken(Tail(s))
  {
    LinesCover(s);
    LinesAreLines(s);
  }

  lemma {:induction false} LinesCover(s: string)
    ensures Concat(Lines(s)) + Tail(s) == s
  {
    if s != [] {
      var init := s[..|s| - 1];
      LinesCover(init);
      assert s == init + [s[|s| - 1]];
      if s[|s| - 1] == '\n' {
        ConcatSnoc(Lines(init), Tail(init) + "\n");
      }
    }
  }

  function Concat(lines: seq<string>): string {
    if lines == [] then [] else Concat(lines[..|lines| - 1]) + lines[|lines| - 1]
  }

  lemma ConcatSnoc(lines: seq<string>, line: string)
    ensures Concat(lines + [line]) == Concat(lines) + line
  {
    assert (lines + [line])[..|lines|] == lines;
  }

  // ---- Splitting ------------------------------------------------------------

  function Texts(records: seq<LogLine>): seq<string> {
    seq(|records|, i requires 0 <= i < |records| => records[i].line)
  }

  /** Splits one write behind each newline; the last record is partial when the write
      does not end in one. */
  method SplitLogLines(stream: Stream, p: string) returns (records: seq<LogLine>)
    ensures Concat(Texts(records)) == p
    ensures forall i :: 0 <= i < |records| ==> RecordOk(records[i]) && records[i].stream == stream
    ensures forall i :: 0 <= i < |records| - 1 ==> !records[i].partial
  {
    records := [];
    var rest := p;
    while |rest| > 0
      invariant Concat(Texts(records)) + rest == p
      invariant forall i :: 0 <= i < |records| ==> RecordOk(records[i]) && records[i].stream == stream
      invariant forall i :: 0 <= i < |records| ==> (i < |records| - 1 || rest != []) ==> !records[i].partial
      decreases |rest|
    {
      var nl := IndexOf(rest, '\n');
      var line, partial := rest, true;
      if nl < |rest| {
        line, partial := rest[..nl + 1], false;
      }
      var record := LogLine(stream, partial, line);
      assert Texts(records + [record]) == Texts(records) + [line];
      ConcatSnoc(Texts(records), line);
      assert rest == line + rest[|line|..];
      assert Concat(Texts(records)) + line + rest[|line|..] == p;
      records := records + [record];
      rest := rest[|line|..];
    }
    assert Concat(Texts(records)) + [] == p;
  }

  // ---- Trimming -------------------------------------------------------------

  /** Without the carriage returns and newlines that end it. */
  function TrimRight(s: string): string {
    if s != [] && (s[|s| - 1] == '\r' || s[|s| - 1] == '\n') then TrimRight(s[..|s| - 1]) else s
  }

  /** t is what is left of s without all of the carriage returns and newlines it ends
      in, and nothing else. */
  predicate IsTrimmed(s: string, t: string) {
    && t <= s
    && (forall i :: |t| <= i < |s| ==> s[i] == '\r' || s[i] == '\n')
    && (t != [] ==> t[|t| - 1] != '\r' && t[|t| - 1] != '\n')
  }

  lemma {:induction false} TrimRightIs(s: string)
    ensures IsTrimmed(s, TrimRight(s))
  {
    if s != [] && (s[|s| - 1] == '\r' || s[|s| - 1] == '\n') {
      TrimRightIs(s[..|s| - 1]);
    }
  }

  function TrimAll(lines: seq<string>): seq<string> {
    seq(|lines|, i requires 0 <= i < |lines| => TrimRight(lines[i]))
  }

  lemma TrimSnoc(lines: seq<string>, line: string)
    ensures TrimAll(lines + [line]) == TrimAll(lines) + [TrimRight(line)]
  {
    hide TrimRight;
  }

  // ---- Assembling -----------------------------------------------------------

  function Get(m: map<Stream, string>, stream: Stream): string {
    if stream in m then m[stream] else []
  }

  class LineAssembler {
    var pending: map<Stream, string>

    // The bytes of the records taken in, and the lines returned, per stream.
    ghost var input: map<Stream, string>
    ghost var returned: map<Stream, seq<string>>

    ghost function Input(stream: Stream): string
      reads this
    {
      Get(input, stream)
    }

    ghost function Returned(stream: Stream): seq<string>
      reads this
    {
      if stream in returned then returned[stream] else []
    }

    /** Per stream, the terminated lines of its bytes were returned, and the
        unterminated tail is pending. */
    ghost predicate Valid()
      reads this
    {
      ValidFor(Stderr) && ValidFor(Stdout)
    }

    ghost predicate ValidFor(stream: Stream)
      reads this
    {
      && Get(pending, stream) == Tail(Input(stream))
      && Returned(stream) == TrimAll(Lines(Input(stream)))
    }

    lemma ValidEach(stream: Stream)
      ensures Valid() <==> ValidFor(stream) && ValidFor(Other(stream))
    {
      match stream
      case Stderr =>
      case Stdout =>
    }

    constructor ()
      ensures Valid() && forall stream :: Input(stream) == [] && Returned(stream) == []
    {
      pending, input, returned := map[], map[], map[];
    }

    method Add(l: LogLine) returns (line: Option<string>)
      requires Valid() && RecordOk(l)
      modifies this
      ensures Valid()
      ensures Input(l.stream) == old(Input(l.stream)) + l.line
      ensures line.None? <==> l.partial
      ensures line.Some? ==> IsTrimmed(old(Tail(Input(l.stream))) + l.line, line.value)
      ensures Returned(l.stream) == old(Returned(l.stream)) + if line.Some? then [line.value] else []
      ensures var other := Other(l.stream); Input(other) == old(Input(other)) && Returned(other) == old(Returned(other))
    {
      hide Tail, Lines, TrimRight, TrimAll, Unbroken, IsTrimmed;
      ghost var was := Input(l.stream);
      ValidEach(l.stream);
      input := input[l.stream := was + l.line];
      if l.partial {
        AddPiece(was, l.line);
        pending := pending[l.stream := Get(pending, l.stream) + l.line];
        ValidEach(l.stream);
        return None;
      }
      AddLine(was, l.line);
      var whole := Get(pending, l.stream) + l.line;
      pending := pending - {l.stream};
      var text := TrimRight(whole);
      TrimRightIs(whole);
      TrimSnoc(Lines(was), whole);
      returned := returned[l.stream := Returned(l.stream) + [text]];
      ValidEach(l.stream);
      return Some(text);
    }

    /** The tails that are not empty, in the order of the streams' names. */
    method Rest() returns (out: seq<LogLine>)
      requires Valid()
      modifies this`pending
      ensures pending == map[]
      ensures out == (if Tail(Input(Stderr)) != [] then [LogLine(Stderr, false, Tail(Input(Stderr)))] else [])
                     + if Tail(Input(Stdout)) != [] then [LogLine(Stdout, false, Tail(Input(Stdout)))] else []
    {
      out := [];
      if Get(pending, Stderr) != [] {
        out := out + [LogLine(Stderr, false, pending[Stderr])];
      }
      if Get(pending, Stdout) != [] {
        out := out + [LogLine(Stdout, false, pending[Stdout])];
      }
      pending := map[];
    }
  }

  lemma NoText(s: string)
    ensures s + Concat([]) == s
  {
  }

  /** A stream written in any number of writes, interleaved with those of the other
      stream, comes out as its lines. */
  method Feed(a: LineAssembler, stream: Stream, p: string)
    requires a.Valid()
    modifies a
    ensures a.Valid() && a.Input(stream) == old(a.Input(stream)) + p
    ensures a.Input(Other(stream)) == old(a.Input(Other(stream)))
  {
    hide Tail, Lines, TrimAll, Concat, RecordOk;
    var records := SplitLogLines(stream, p);
    ghost var start := a.Input(stream);
    assert Texts(records[..0]) == [] && start + Concat([]) == start by { NoText(start); }
    for i := 0 to |records|
      invariant a.Valid() && a.Input(stream) == start + Concat(Texts(records[..i]))
      invariant a.Input(Other(stream)) == old(a.Input(Other(stream)))
    {
      assert Texts(records[..i + 1]) == Texts(records[..i]) + [records[i].line];
      ConcatSnoc(Texts(records[..i]), records[i].line);
      Associate(start, Concat(Texts(records[..i])), records[i].line);
      var _ := a.Add(records[i]);
    }
    assert records[..|records|] == records;
  }

  // ---- Progress of a down job -----------------------------------------------

  // What a progress record counts as; the decoding itself is a parameter.
  datatype Progress = Stopped(failed: bool, forceKilled: bool) | Removed | Unreleased | Uncounted

  datatype Summary = Summary(stopped: nat, forceKilled: nat, removed: nat, unreleased: nat)

  function Count(s: Summary, p: Progress): Summary {
    match p
    case Stopped(failed, forceKilled) =>
      if failed then s
      else s.(stopped := s.stopped + 1, forceKilled := s.forceKilled + if forceKilled then 1 else 0)
    case Removed => s.(removed := s.removed + 1)
    case Unreleased => s.(unreleased := s.unreleased + 1)
    case Uncounted => s
  }

  function CountAll(texts: seq<string>, decode: string -> Progress): Summary {
    if texts == [] then Summary(0, 0, 0, 0)
    else Count(CountAll(texts[..|texts| - 1], decode), decode(texts[|texts| - 1]))
  }

  datatype Tally = OfStopped | OfKilled | OfRemoved | OfUnreleased

  /** A stop that worked, one of these in which the replica was killed, a removal, or a
      resource left unreleased. */
  predicate TellsOf(p: Progress, k: Tally) {
    match k
    case OfStopped => p.Stopped? && !p.failed
    case OfKilled => p.Stopped? && !p.failed && p.forceKilled
    case OfRemoved => p.Removed?
    case OfUnreleased => p.Unreleased?
  }

  function Places(texts: seq<string>, decode: string -> Progress, k: Tally): set<nat> {
    set i: nat | i < |texts| && TellsOf(decode(texts[i]), k)
  }

  lemma PlacesMore(texts: seq<string>, decode: string -> Progress, k: Tally)
    requires texts != []
    ensures |Places(texts, decode, k)| ==
            |Places(texts[..|texts| - 1], decode, k)| + if TellsOf(decode(texts[|texts| - 1]), k) then 1 else 0
  {
    hide TellsOf;
    var n := |texts| - 1;
    var init := texts[..n];
    var before := Places(init, decode, k);
    forall i: nat
      ensures i in Places(texts, decode, k) <==> i in before || (i == n && TellsOf(decode(texts[n]), k))
    {
      assert i < n ==> texts[i] == init[i];
    }
    if TellsOf(decode(texts[n]), k) {
      assert Places(texts, decode, k) == before + {n};
    } else {
      assert Places(texts, decode, k) == before;
    }
  }

  /** The summary counts the lines that tell of each of these, every line once. */
  lemma {:induction false} CountsAre(texts: seq<string>, decode: string -> Progress)
    ensures var s := CountAll(texts, decode);
      && s.stopped == |Places(texts, decode, OfStopped)|
      && s.forceKilled == |Places(texts, decode, OfKilled)|
      && s.removed == |Places(texts, decode, OfRemoved)|
      && s.unreleased == |Places(texts, decode, OfUnreleased)|
  {
    if texts == [] {
      assert forall k :: Places(texts, decode, k) == {};
    } else {
      hide Places;
      CountsAre(texts[..|texts| - 1], decode);
      PlacesMore(texts, decode, OfStopped);
      PlacesMore(texts, decode, OfKilled);
      PlacesMore(texts, decode, OfRemoved);
      PlacesMore(texts, decode, OfUnreleased);
    }
  }

  lemma CountChanges(s: Summary, p: Progress)
    ensures Count(s, p) != s <==> !p.Uncounted? && !(p.Stopped? && p.failed)
  {
  }

  const ERROR_PREFIX := "error: "

  /** The message of the last line that reports an error. */
  function LastError(texts: seq<string>): string {
    if texts == [] then ""
    else
      var last := texts[|texts| - 1];
      if ERROR_PREFIX <= last then last[|ERROR_PREFIX|..] else LastError(texts[..|texts| - 1])
  }

  /** The last of the lines that begin with "error: ", without that; no error when there
      is none. */
  lemma {:induction false} LastErrorIs(texts: seq<string>)
    ensures (forall i :: 0 <= i < |texts| ==> !("error: " <= texts[i])) ==> LastError(texts) == ""
    ensures forall k :: 0 <= k < |texts| && "error: " <= texts[k] && (forall i :: k < i < |texts| ==> !("error: " <= texts[i])) ==>
              texts[k] == "error: " + LastError(texts)
  {
    if texts != [] {
      LastErrorIs(texts[..|texts| - 1]);
    }
  }

  lemma Counted(texts: seq<string>, text: string, decode: string -> Progress)
    ensures CountAll(texts + [text], decode) == Count(CountAll(texts, decode), decode(text))
    ensures LastError(texts + [text]) == if ERROR_PREFIX <= text then text[|ERROR_PREFIX|..] else LastError(texts)
    ensures decode(text).Uncounted? || (decode(text).Stopped? && decode(text).failed) ==>
              Count(CountAll(texts, decode), decode(text)) == CountAll(texts, decode)
  {
    assert (texts + [text])[..|texts|] == texts;
  }

  class DownProgress {
    const decode: string -> Progress
    var summary: Summary
    var lastErr: string
    var partial: map<Stream, string>

    ghost var input: map<Stream, string>

    ghost function Input(stream: Stream): string
      reads this
    {
      Get(input, stream)
    }

    ghost predicate PartialFor(stream: Stream)
      reads this
    {
      Get(partial, stream) == Tail(Input(stream))
    }

    lemma PartialEach(stream: Stream)
      ensures PartialFor(Stderr) && PartialFor(Stdout) <==> PartialFor(stream) && PartialFor(Other(stream))
    {
      match stream
      case Stderr =>
      case Stdout =>
    }

    /** The summary counts the terminated lines of stdout, and the error is the last
        one among those of stderr, however the output was cut into records. */
    ghost predicate Valid()
      reads this
    {
      && PartialFor(Stderr) && PartialFor(Stdout)
      && summary == CountAll(TrimAll(Lines(Input(Stdout))), decode)
      && lastErr == LastError(TrimAll(Lines(Input(Stderr))))
    }

    constructor (decode: string -> Progress)
      ensures Valid() && this.decode == decode && forall stream :: Input(stream) == []
    {
      this.decode := decode;
      summary, lastErr, partial, input := Summary(0, 0, 0, 0), "", map[], map[];
    }

    method Add(l: LogLine) returns (changed: bool)
      requires Valid() && RecordOk(l)
      modifies this
      ensures Valid()
      ensures Input(l.stream) == old(Input(l.stream)) + l.line
      ensures Input(Other(l.stream)) == old(Input(Other(l.stream)))
      ensures changed <==> summary != old(summary)
    {
      hide Tail, Lines, TrimRight, TrimAll, Unbroken, CountAll, LastError, Count;
      PartialEach(l.stream);
      var buf := Get(partial, l.stream) + l.line;
      ghost var was := Input(l.stream);
      input := input[l.stream := was + l.line];
      if l.partial {
        AddPiece(was, l.line);
        partial := partial[l.stream := buf];
        PartialEach(l.stream);
        return false;
      }
      AddLine(was, l.line);
      partial := partial - {l.stream};
      PartialEach(l.stream);
      var text := TrimRight(buf);
      ghost var before := TrimAll(Lines(was));
      assert buf == Tail(was) + l.line;
      TrimSnoc(Lines(was), buf);
      Counted(before, text, decode);
      if l.stream == Stderr {
        if ERROR_PREFIX <= text {
          lastErr := text[|ERROR_PREFIX|..];
        }
        return false;
      }
      CountChanges(summary, decode(text));
      var counted := Count(summary, decode(text));
      changed := !decode(text).Uncounted? && !(decode(text).Stopped? && decode(text).failed);
      summary := counted;
    }
  }
}
