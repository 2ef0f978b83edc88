/** The names of multiplexer operations: one per server and identity. */
module MuxOpName {
  import opened Naming

  const MAX_LEN := 120
  const DIGEST_LEN := 12
  const SEPARATOR := "-_"

  predicate Portable(c: char) {
    'a' <= c <= 'z' || 'A' <= c <= 'Z' || '0' <= c <= '9' || c == '-' || c == '_' || c == '.'
  }

  predicate AllPortable(s: string) {
    forall i :: 0 <= i < |s| ==> Portable(s[i])
  }

  function Replaced(s: string): string {
    seq(|s|, i requires 0 <= i < |s| => if Portable(s[i]) then s[i] else '_')
  }

  /** The name itself when it is a portable file name that is not too long. */
  predicate Plain(name: string) {
    name != [] && AllPortable(name) && |name| <= MAX_LEN
  }

  /** digest stands for the hexadecimal digest of the name. */
  function Sanitized(name: string, digest: string): string {
    if Plain(name) then name
    else
      var out := Replaced(name);
      var keep := MAX_LEN - DIGEST_LEN - 1;
      (if |out| > keep then out[..keep] else out) + "-" + digest
  }

  method SanitizeMuxOpName(name: string, digest: string) returns (out: string)
    ensures out == Sanitized(name, digest)
  {
    out := [];
    var replaced := false;
    for i := 0 to |name|
      invariant out == Replaced(name[..i])
      invariant replaced == !AllPortable(name[..i])
    {
      assert name[..i + 1] == name[..i] + [name[i]];
      if Portable(name[i]) {
        out := out + [name[i]];
      } else {
        assert !Portable(name[..i + 1][i]);
        out := out + ['_'];
        replaced := true;
      }
    }
    assert name[..|name|] == name;
    if out == "" {
      replaced := true;
    }
    if !replaced && |out| <= MAX_LEN {
      assert out == name;
      return;
    }
    var keep := MAX_LEN - DIGEST_LEN - 1;
    if |out| > keep {
      out := out[..keep];
    }
    out := out + "-" + digest;
  }

  predicate Digest(d: string) {
    |d| == DIGEST_LEN && AllPortable(d)
  }

  /** The result is a portable file name of bounded length, and a name is left as it
      is exactly when it is one already. */
  lemma SanitizedPlain(name: string, digest: string)
    requires Digest(digest)
    ensures Plain(Sanitized(name, digest))
    ensures Sanitized(name, digest) == name <==> Plain(name)
  {
  }

  /** A name that is not one is cut to 107 characters and gets a dash and its digest at
      the end; what is not portable in it becomes an underscore. */
  lemma SanitizedMeans(name: string, digest: string, k: nat)
    requires !Plain(name)
    ensures var kept := if |name| <= 107 then |name| else 107;
      var out := Sanitized(name, digest);
      && |out| == kept + 1 + |digest|
      && out[kept..] == "-" + digest
      && (k < kept ==> out[k] == if Portable(name[k]) then name[k] else '_')
  {
  }

  function Joined(server: string, identity: string): string {
    if server == "" then EscapeName(identity) else EscapeName(server) + SEPARATOR + EscapeName(identity)
  }

  function MuxOpLogName(server: string, identity: string, digest: string): string {
    Sanitized(Joined(server, identity), digest)
  }

  /** An escaped part alone holds no separator. */
  lemma {:induction false} SplitAlone(part: string)
    ensures SplitPart(EscapeName(part)) == (part, [])
  {
    if part != [] {
      SplitAlone(part[1..]);
      var tail := EscapeName(part[1..]);
      if part[0] == '-' {
        assert EscapeName(part) == "--" + tail && EscapeName(part)[2..] == tail;
      } else {
        assert EscapeName(part) == [part[0]] + tail && EscapeName(part)[1..] == tail;
      }
      assert part == [part[0]] + part[1..];
    }
  }

  /** The joined name reads back as the server and what follows the dash that
      separates it, if there is one. */
  lemma JoinedSplits(server: string, identity: string)
    ensures SplitPart(Joined(server, identity)) ==
            if server == "" then (identity, []) else (server, "_" + EscapeName(identity))
  {
    if server == "" {
      SplitAlone(identity);
    } else {
      var rest := "_" + EscapeName(identity);
      SplitEscaped(server, rest);
      assert Joined(server, identity) == EscapeName(server) + "-" + rest;
    }
  }

  lemma JoinedInjective(s: string, i: string, t: string, j: string)
    requires Joined(s, i) == Joined(t, j)
    ensures s == t && i == j
  {
    JoinedSplits(s, i);
    JoinedSplits(t, j);
    if s != "" && t != "" {
      assert ("_" + EscapeName(i))[1..] == EscapeName(i) && ("_" + EscapeName(j))[1..] == EscapeName(j);
      SplitAlone(i);
      SplitAlone(j);
    }
  }

  /** Two windows whose names need no replacement never share one, not even across
      the default server and a named one. */
  lemma MuxOpLogNameInjective(s: string, i: string, t: string, j: string, d: string, e: string)
    requires Plain(Joined(s, i)) && Plain(Joined(t, j))
    requires MuxOpLogName(s, i, d) == MuxOpLogName(t, j, e)
    ensures s == t && i == j
  {
    JoinedInjective(s, i, t, j);
  }

  /** Joined by a bare dash, two windows would share a name. */
  lemma BareDashCollides()
    ensures EscapeName("w-") + "-" + EscapeName("d") == EscapeName("w") + "-" + EscapeName("-d")
  {
    assert "w-"[1..] == "-" && "-"[1..] == "" && "w"[1..] == "" && "d"[1..] == "" && "-d"[1..] == "d";
    assert EscapeName("-") == "--";
    assert EscapeName("w-") == "w--" && EscapeName("d") == "d" && EscapeName("w") == "w" && EscapeName("-d") == "--d";
  }
}
