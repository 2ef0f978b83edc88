/** The reader that looks for the detach keys in its input, over a buffered reader
    that is filled one chunk at a time. */
module DetachKeys {
  import opened Collections
  import opened DetachMatcher

  datatype ReadErr = NoErr | ErrDetach | ErrEof

  function Concat(chunks: seq<seq<Byte>>): seq<Byte> {
    if chunks == [] then [] else chunks[0] + Concat(chunks[1..])
  }

  /** A read of zero bytes is no chunk. */
  predicate NoneEmpty(chunks: seq<seq<Byte>>) {
    forall i :: 0 <= i < |chunks| ==> chunks[i] != []
  }

  function Min(a: nat, b: nat): nat {
    if a < b then a else b
  }

  /** Copies as much of src into p from offset n as fits. */
  method Copy(p: array<Byte>, n: nat, src: seq<Byte>) returns (copied: nat)
    requires n <= p.Length
    modifies p
    ensures copied == Min(p.Length - n, |src|)
    ensures p[..n] == old(p[..n]) && p[n..n + copied] == src[..copied]
  {
    copied := Min(p.Length - n, |src|);
    for i := 0 to copied
      invariant p[..n] == old(p[..n]) && p[n..n + i] == src[..i]
    {
      p[n + i] := src[i];
      assert p[n..n + i + 1] == p[n..n + i] + [src[i]];
      assert src[..i + 1] == src[..i] + [src[i]];
    }
  }

  class DetachKeyReader {
    const detachKey: seq<Byte>
    var matched: nat
    var pending: seq<Byte>
    var detached: bool

    // The buffered reader: what it has buffered, and what its reads will return.
    var buf: seq<Byte>
    var chunks: seq<seq<Byte>>

    // The bytes taken from the input and the bytes given to callers; ended tells
    // that a partial match was passed on at the end of the input.
    ghost var consumed: seq<Byte>
    ghost var delivered: seq<Byte>
    ghost var ended: bool

    ghost function Remaining(): seq<Byte>
      reads this
    {
      buf + Concat(chunks)
    }

    /** What was passed on so far. */
    ghost function Output(): seq<Byte>
      reads this
    {
      delivered + pending
    }

    /** The reader has done what the matcher does on the bytes consumed. */
    ghost predicate Refines()
      reads this
    {
      && detachKey != []
      && var m := Feed(detachKey, consumed);
         && detached == m.detached
         && (detached ==> consumed != [] && !Feed(detachKey, consumed[..|consumed| - 1]).detached)
         && if ended then !detached && matched == 0 && Remaining() == [] && Output() == m.out + detachKey[..m.matched]
            else matched == m.matched && Output() == m.out
    }

    ghost predicate Valid()
      reads this
    {
      Refines() && |pending| < |detachKey| && NoneEmpty(chunks)
    }

    constructor (detachKeys: seq<Byte>, chunks: seq<seq<Byte>>)
      requires detachKeys != [] && NoneEmpty(chunks)
      ensures Valid() && detachKey == detachKeys && Remaining() == Concat(chunks)
      ensures consumed == [] && delivered == [] && pending == []
    {
      this.detachKey := detachKeys;
      this.matched, this.pending, this.detached := 0, [], false;
      this.buf, this.chunks := [], chunks;
      this.consumed, this.delivered, this.ended := [], [], false;
    }

    /** Nothing is lost, added or reordered: what was passed on and the partial match
        are the input consumed; of a completed key sequence nothing is passed on. */
    lemma Conserves()
      requires Valid()
      ensures if detached then Output() + detachKey == consumed
              else if ended then Output() == consumed
              else Output() + detachKey[..matched] == consumed
    {
      if detached {
        var n := |consumed| - 1;
        assert consumed == consumed[..n] + [consumed[n]];
        DetachEndsWithKey(detachKey, consumed[..n], consumed[n]);
      } else {
        OutputAndMatch(detachKey, consumed);
      }
    }

    /** Takes the next byte of the input, reading a chunk when none is buffered. */
    method ReadByte() returns (b: Byte, eof: bool)
      requires NoneEmpty(chunks)
      modifies this`buf, this`chunks
      ensures NoneEmpty(chunks)
      ensures eof ==> old(Remaining()) == [] && Remaining() == []
      ensures !eof ==> old(Remaining()) == [b] + Remaining()
      ensures old(buf) != [] ==> chunks == old(chunks)
    {
      b := 0;
      if buf == [] {
        if chunks == [] {
          return b, true;
        }
        buf, chunks := chunks[0], chunks[1..];
      }
      b := buf[0];
      assert buf == [b] + buf[1..];
      buf := buf[1..];
      return b, false;
    }

    /** Copies src into p from offset n, and keeps what does not fit as pending. */
    method Emit(p: array<Byte>, n: nat, src: seq<Byte>) returns (m: nat)
      requires n <= p.Length
      modifies p, this`pending, this`delivered
      ensures m == n + Min(p.Length - n, |src|)
      ensures p[..n] == old(p[..n]) && delivered == old(delivered) + p[n..m]
      ensures |pending| == |old(pending)| + |src| - (m - n)
      ensures old(pending) == [] ==> Output() == old(delivered) + src
    {
      var copied := Copy(p, n, src);
      assert src == src[..copied] + src[copied..];
      delivered := delivered + src[..copied];
      if copied < |src| {
        pending := pending + src[copied..];
      }
      return n + copied;
    }

    /** Whatever the sizes of the chunks and of the callers' buffers, the bytes given
        out are those the matcher passes on, in order. */
    method Read(p: array<Byte>) returns (n: nat, err: ReadErr)
      requires Valid()
      modifies this, p
      ensures Valid()
      ensures n <= p.Length && delivered == old(delivered) + p[..n]
      ensures consumed + Remaining() == old(consumed + Remaining())
      ensures p.Length > 0 && n == 0 ==> err != NoErr
      ensures err == ErrDetach ==> detached && pending == []
      ensures err == ErrEof ==> n == 0 && Remaining() == [] && matched == 0 && pending == [] && !detached
      ensures err == NoErr && p.Length > 0 ==> 0 < n
    {
      hide Refines;
      if p.Length == 0 {
        assert p[..0] == [];
        return 0, NoErr;
      }
      n := 0;
      assert p[..0] == [];
      if |pending| > 0 {
        n := FlushPending(p);
        if |pending| > 0 {
          return n, NoErr;
        }
      }
      if detached {
        return n, ErrDetach;
      }
      while n < p.Length
        invariant n <= p.Length
        invariant Valid() && !detached && pending == [] && delivered == old(delivered) + p[..n]
        invariant consumed + Remaining() == old(consumed + Remaining())
        decreases |Remaining()|, matched
      {
        if n > 0 && |buf| == 0 {
          return n, NoErr;
        }
        if matched == 0 && |buf| > 0 {
          var run := IndexOf(buf, detachKey[0]);
          if run > 0 {
            n := CopyRun(p, n, run);
            continue;
          }
        }
        var stop;
        n, err, stop := TakeByte(p, n);
        if stop {
          return n, err;
        }
      }
      return n, NoErr;
    }

    method FlushPending(p: array<Byte>) returns (n: nat)
      requires Valid() && |pending| > 0 && p.Length > 0
      modifies p, this`pending, this`delivered
      ensures Valid() && 0 < n <= p.Length && delivered == old(delivered) + p[..n]
      ensures |pending| > 0 ==> n == p.Length
    {
      n := Copy(p, 0, pending);
      assert p[0..n] == p[..n];
      delivered := delivered + pending[..n];
      assert pending == pending[..n] + pending[n..];
      assert delivered + pending[n..] == old(delivered) + pending;
      pending := pending[n..];
    }

    /** The fast path: copies buffered bytes none of which can begin the key. */
    method CopyRun(p: array<Byte>, n: nat, run: nat) returns (m: nat)
      requires Valid() && !detached && matched == 0 && pending == []
      requires n < p.Length && 0 < run <= |buf| && forall k :: 0 <= k < run ==> buf[k] != detachKey[0]
      modifies p, this`buf, this`consumed, this`delivered
      ensures Valid() && n < m <= p.Length
      ensures p[..n] == old(p[..n]) && delivered == old(delivered) + p[n..m]
      ensures consumed + Remaining() == old(consumed + Remaining())
      ensures |Remaining()| < old(|Remaining()|)
    {
      var copied := Copy(p, n, buf[..run]);
      assert buf[..run][..copied] == buf[..copied];
      LiteralRun(detachKey, consumed, buf[..copied]);
      NotEnded();
      TakeFromBuf(copied);
      return n + copied;
    }

    lemma NotEnded()
      requires Valid() && Remaining() != []
      ensures !ended
    {
    }

    /** Moves bytes from the buffer to the history. */
    method TakeFromBuf(copied: nat)
      requires copied <= |buf|
      modifies this`buf, this`consumed, this`delivered
      ensures buf == old(buf[copied..])
      ensures consumed == old(consumed + buf[..copied]) && delivered == old(delivered + buf[..copied])
      ensures consumed + Remaining() == old(consumed + Remaining()) && |Remaining()| == old(|Remaining()|) - copied
    {
      ghost var rest := Concat(chunks);
      assert buf == buf[..copied] + buf[copied..];
      assert consumed + (buf + rest) == consumed + buf[..copied] + (buf[copied..] + rest);
      consumed := consumed + buf[..copied];
      delivered := delivered + buf[..copied];
      buf := buf[copied..];
    }

    /** One byte of the input, or its end. stop tells that the read returns. */
    method TakeByte(p: array<Byte>, n: nat) returns (m: nat, err: ReadErr, stop: bool)
      requires Valid() && !detached && pending == [] && n < p.Length
      modifies p, this
      ensures Valid() && n <= m <= p.Length
      ensures p[..n] == old(p[..n]) && delivered == old(delivered) + p[n..m]
      ensures consumed + Remaining() == old(consumed + Remaining())
      ensures !stop ==> err == NoErr && !detached && pending == [] && |Remaining()| < old(|Remaining()|)
      ensures err == NoErr && stop ==> m > 0
      ensures err == ErrDetach ==> stop && detached && pending == []
      ensures err == ErrEof ==> stop && m == 0 && Remaining() == [] && matched == 0 && pending == [] && !detached
    {
      hide Feed;
      var b, eof := ReadByte();
      if eof {
        m, err := AtEof(p, n);
        return m, err, true;
      }
      ghost var was := consumed;
      FeedSnoc(detachKey, consumed, b);
      assert was + ([b] + Remaining()) == (was + [b]) + Remaining();
      consumed := consumed + [b];
      assert consumed[..|consumed| - 1] == was;
      if b == detachKey[matched] {
        matched := matched + 1;
        assert p[n..n] == [];
        if matched == |detachKey| {
          matched := 0;
          detached := true;
          return n, ErrDetach, true;
        }
        return n, NoErr, false;
      }
      m, stop := Diverge(p, n, b);
      return m, NoErr, stop;
    }

    /** At the end of the input a partial match is passed on. */
    method AtEof(p: array<Byte>, n: nat) returns (m: nat, err: ReadErr)
      requires Valid() && !detached && pending == [] && n < p.Length && Remaining() == []
      modifies p, this`matched, this`pending, this`delivered, this`ended
      ensures Valid() && n <= m <= p.Length
      ensures p[..n] == old(p[..n]) && delivered == old(delivered) + p[n..m]
      ensures err == NoErr ==> m > 0
      ensures err == ErrEof ==> m == 0 && matched == 0 && pending == []
      ensures err != ErrDetach
    {
      m := n;
      assert p[n..n] == [];
      if matched > 0 {
        m := Emit(p, n, detachKey[..matched]);
        ended := true;
        matched := 0;
      }
      return m, if m > 0 then NoErr else ErrEof;
    }

    /** A byte that diverges: passes on the matched prefix, and takes b as the
        beginning of a new match or as a literal. b is consumed already. */
    method Diverge(p: array<Byte>, n: nat, b: Byte) returns (m: nat, stop: bool)
      requires detachKey != [] && matched < |detachKey| && b != detachKey[matched]
      requires !detached && pending == [] && n < p.Length && !ended && NoneEmpty(chunks)
      requires var now := Feed(detachKey, consumed);
        && !now.detached
        && now.matched == (if matched > 0 && b == detachKey[0] then 1 else 0)
        && now.out == delivered + detachKey[..matched] + (if now.matched == 1 then [] else [b])
      modifies p, this`matched, this`pending, this`delivered
      ensures Valid() && n < m <= p.Length
      ensures p[..n] == old(p[..n]) && delivered == old(delivered) + p[n..m]
      ensures !stop ==> pending == []
    {
      m := n;
      ghost var d0 := delivered;
      assert p[n..n] == [];
      assert detachKey[..0] == [];
      if matched > 0 {
        var was := matched;
        matched := 0;
        m := Emit(p, n, detachKey[..was]);
        if b == detachKey[0] {
          matched := 1;
          assert Output() == d0 + detachKey[..was] + [];
          return m, |pending| > 0 || m == p.Length;
        }
      }
      ghost var given := p[n..m];
      m, stop := PassLiteral(p, n, m, b);
    }

    /** Passes b on behind what was emitted. */
    method PassLiteral(p: array<Byte>, ghost n: nat, m: nat, b: Byte) returns (k: nat, stop: bool)
      requires n <= m <= p.Length && (|pending| > 0 ==> m == p.Length)
      modifies p, this`pending, this`delivered
      ensures m <= k <= p.Length && (m < p.Length ==> k == m + 1)
      ensures p[..m] == old(p[..m]) && delivered == old(delivered) + p[m..k]
      ensures Output() == old(Output()) + [b]
      ensures p[n..k] == old(p[n..m]) + p[m..k]
      ensures |pending| <= |old(pending)| + (if m == p.Length then 1 else 0)
      ensures !stop ==> pending == [] && m < p.Length
    {
      if |pending| > 0 || m == p.Length {
        pending := pending + [b];
        assert p[m..m] == [];
        assert delivered + pending == old(delivered + pending) + [b];
        return m, true;
      }
      p[m] := b;
      delivered := delivered + [b];
      assert p[m..m + 1] == [b];
      return m + 1, false;
    }
  }

  /** Bytes none of which is the first of the key pass through one by one. */
  lemma {:induction false} LiteralRun(key: seq<Byte>, input: seq<Byte>, run: seq<Byte>)
    requires key != [] && !Feed(key, input).detached && Feed(key, input).matched == 0
    requires forall k :: 0 <= k < |run| ==> run[k] != key[0]
    ensures Feed(key, input + run) == Matcher(0, false, Feed(key, input).out + run)
  {
    if run == [] {
      assert input + run == input;
    } else {
      var init, b := run[..|run| - 1], run[|run| - 1];
      LiteralRun(key, input, init);
      assert input + run == (input + init) + [b];
      FeedSnoc(key, input + init, b);
      assert key[..0] == [];
      assert Feed(key, input).out + init + [] + [b] == Feed(key, input).out + run;
    }
  }
}
