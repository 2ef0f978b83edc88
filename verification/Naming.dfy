/** The cmdman command names generated for replicas, hook commands and resource
    holders, and their unique decomposition. */
module Naming {
  import opened Decimal

  function EscapeName(s: string): string {
    if s == [] then []
    else (if s[0] == '-' then "--" else [s[0]]) + EscapeName(s[1..])
  }

  function GenerateName(wdHash: string, project: string, command: string): string {
    wdHash + "-" + EscapeName(project) + "-" + EscapeName(command)
  }

  function InstanceName(base: string, scaleIndex: int): string {
    base + "-" + Itoa(scaleIndex)
  }

  function TrimSuffix(s: string, suffix: string): string {
    if |suffix| <= |s| && s[|s| - |suffix|..] == suffix then s[..|s| - |suffix|] else s
  }

  function StripScaleIndexSuffix(instanceName: string, scaleIndex: int): string {
    if scaleIndex <= 0 then instanceName else TrimSuffix(instanceName, "-" + Itoa(scaleIndex))
  }

  datatype LifecycleEvent =
    | CreatePre | CreatePost | StartPre | StartPost | StopPre | StopPost | RemovePre | RemovePost

  function EventName(ev: LifecycleEvent): string {
    match ev
    case CreatePre => "create_pre"
    case CreatePost => "create_post"
    case StartPre => "start_pre"
    case StartPost => "start_post"
    case StopPre => "stop_pre"
    case StopPost => "stop_post"
    case RemovePre => "remove_pre"
    case RemovePost => "remove_post"
  }

  function ExecCommandName(replica: string, hook: string, ev: LifecycleEvent): string {
    replica + ".hook." + hook + "." + EventName(ev)
  }

  function HolderName(replica: string, key: string): string {
    replica + ".res." + key
  }

  // ---- Valid parts ----------------------------------------------------------

  predicate IsNameChar(c: char) {
    'a' <= c <= 'z' || 'A' <= c <= 'Z' || '0' <= c <= '9' || c in "._-"
  }

  /** What validateName accepts. */
  predicate ValidName(name: string) {
    && 0 < |name| <= 63
    && name[0] != '.' && name[0] != '-'
    && forall i :: 0 <= i < |name| ==> IsNameChar(name[i])
  }

  /** The hexadecimal prefix of a hash. */
  predicate ValidHash(h: string) {
    |h| == 12 && forall i :: 0 <= i < |h| ==> '0' <= h[i] <= '9' || 'a' <= h[i] <= 'f'
  }

  // ---- Everything a name is generated for ------------------------------------

  datatype Replica = Replica(wdHash: string, project: string, command: string, scaleIndex: int)

  datatype Named =
    | ForReplica(replica: Replica)
    | ForHook(replica: Replica, hook: string, event: LifecycleEvent)
    | ForResource(replica: Replica, key: string)

  function ReplicaName(r: Replica): string {
    InstanceName(GenerateName(r.wdHash, r.project, r.command), r.scaleIndex)
  }

  function NameOf(x: Named): string {
    match x
    case ForReplica(r) => ReplicaName(r)
    case ForHook(r, hook, event) => ExecCommandName(ReplicaName(r), hook, event)
    case ForResource(r, key) => HolderName(ReplicaName(r), key)
  }

  /** An unnamed project counts: its work directory tells it from others. */
  predicate ValidReplica(r: Replica) {
    ValidHash(r.wdHash) && (r.project == "" || ValidName(r.project)) && ValidName(r.command) && r.scaleIndex >= 1
  }

  predicate ValidNamed(x: Named) {
    && ValidReplica(x.replica)
    && (x.ForHook? ==> ValidName(x.hook))
    && (x.ForResource? ==> ValidName(x.key))
  }

  // ---- Decoding -------------------------------------------------------------

  /** Reads an escaped part up to the separator: the dash no other dash follows. */
  function SplitPart(s: string): (string, string) {
    if s == [] then ([], [])
    else if s[0] != '-' then
      var (part, rest) := SplitPart(s[1..]);
      ([s[0]] + part, rest)
    else if |s| >= 2 && s[1] == '-' then
      var (part, rest) := SplitPart(s[2..]);
      ("-" + part, rest)
    else ([], s[1..])
  }

  /** A separator is found behind any part, when what follows it does not begin
      with a dash. */
  lemma {:induction false} SplitEscaped(part: string, rest: string)
    requires rest != [] && rest[0] != '-'
    ensures SplitPart(EscapeName(part) + "-" + rest) == (part, rest)
  {
    var s := EscapeName(part) + "-" + rest;
    if part == [] {
      assert s == "-" + rest;
    } else {
      SplitEscaped(part[1..], rest);
      var tail := EscapeName(part[1..]) + "-" + rest;
      if part[0] == '-' {
        assert s == "--" + tail && s[2..] == tail;
      } else {
        assert s == [part[0]] + tail && s[1..] == tail;
      }
      assert part == [part[0]] + part[1..];
    }
  }

  lemma EscapedHead(part: string)
    requires part != [] && part[0] != '-'
    ensures EscapeName(part) != [] && EscapeName(part)[0] == part[0]
  {
  }

  predicate Lacks(s: string, c: char) {
    forall i :: 0 <= i < |s| ==> s[i] != c
  }

  lemma FirstNotLater(a: string, x: string, b: string, y: string, c: char)
    requires Lacks(b, c) && a + [c] + x == b + [c] + y
    ensures |b| <= |a|
  {
    var s := a + [c] + x;
    assert s[|a|] == c;
    assert forall i :: 0 <= i < |b| ==> s[i] == b[i];
  }

  lemma LastNotEarlier(a: string, x: string, b: string, y: string, c: char)
    requires Lacks(y, c) && a + [c] + x == b + [c] + y
    ensures |a| <= |b|
  {
    var s := a + [c] + x;
    assert s[|a|] == c;
    assert forall i :: |b| < i < |s| ==> s[i] == y[i - |b| - 1];
  }

  lemma SameLengths(a: string, x: string, b: string, y: string, c: char)
    requires a + [c] + x == b + [c] + y && |a| == |b|
    ensures a == b && x == y
  {
    var s := a + [c] + x;
    assert s[..|a|] == a && s[..|b|] == b;
    assert s[|a| + 1..] == x && s[|b| + 1..] == y;
  }

  /** Strings that agree have the same parts around the first separator. */
  lemma FirstSeparator(a: string, x: string, b: string, y: string, c: char)
    requires Lacks(a, c) && Lacks(b, c)
    requires a + [c] + x == b + [c] + y
    ensures a == b && x == y
  {
    FirstNotLater(a, x, b, y, c);
    FirstNotLater(b, y, a, x, c);
    SameLengths(a, x, b, y, c);
  }

  lemma LastSeparator(a: string, x: string, b: string, y: string, c: char)
    requires Lacks(x, c) && Lacks(y, c)
    requires a + [c] + x == b + [c] + y
    ensures a == b && x == y
  {
    LastNotEarlier(a, x, b, y, c);
    LastNotEarlier(b, y, a, x, c);
    SameLengths(a, x, b, y, c);
  }

  /** What follows the scale index. */
  function Suffix(x: Named): string {
    match x
    case ForReplica(_) => ""
    case ForHook(_, hook, event) => ".hook." + hook + "." + EventName(event)
    case ForResource(_, key) => ".res." + key
  }

  lemma SuffixInjective(x: Named, y: Named)
    requires ValidNamed(x) && ValidNamed(y) && Suffix(x) == Suffix(y)
    ensures x.replica == y.replica ==> x == y
  {
    var s := Suffix(x);
    assert x.ForHook? ==> s[1] == 'h';
    assert x.ForResource? ==> s[1] == 'r';
    assert y.ForHook? ==> s[1] == 'h';
    assert y.ForResource? ==> s[1] == 'r';
    if x.ForResource? {
      assert s[5..] == x.key && s[5..] == y.key;
    } else if x.ForHook? {
      HookSuffix(x.hook, x.event, y.hook, y.event);
    }
  }

  lemma HookSuffix(h: string, e: LifecycleEvent, k: string, f: LifecycleEvent)
    requires ".hook." + h + "." + EventName(e) == ".hook." + k + "." + EventName(f)
    ensures h == k && e == f
  {
    hide EventName;
    var s := ".hook." + h + "." + EventName(e);
    EventNamePlain(e);
    EventNamePlain(f);
    assert s[6..] == h + ['.'] + EventName(e);
    assert s[6..] == k + ['.'] + EventName(f);
    LastSeparator(h, EventName(e), k, EventName(f), '.');
    EventNamesDiffer(e, f);
  }

  lemma EventNamePlain(e: LifecycleEvent)
    ensures Lacks(EventName(e), '.')
  {
  }

  lemma EventNamesDiffer(e: LifecycleEvent, f: LifecycleEvent)
    requires EventName(e) == EventName(f)
    ensures e == f
  {
    var s := EventName(e);
    assert s[2] == EventName(f)[2] && |s| == |EventName(f)| && s[0] == EventName(f)[0];
  }

  lemma DigitsNotLonger(a: string, s: string, b: string, t: string)
    requires AllDigits(b) && (s == [] || s[0] == '.') && a + s == b + t
    ensures |b| <= |a|
  {
    var w := a + s;
    assert forall i :: 0 <= i < |b| ==> w[i] == b[i];
    assert s != [] ==> w[|a|] == s[0];
    assert s == [] ==> |w| == |a|;
  }

  /** Indices with suffixes that do not begin with a digit. */
  lemma IndexSuffix(i: int, s: string, j: int, t: string)
    requires i >= 1 && j >= 1
    requires s == [] || s[0] == '.'
    requires t == [] || t[0] == '.'
    requires Itoa(i) + s == Itoa(j) + t
    ensures i == j && s == t
  {
    var a, b := Itoa(i), Itoa(j);
    var w := a + s;
    DigitsNotLonger(a, s, b, t);
    DigitsNotLonger(b, t, a, s);
    assert w[..|a|] == a && w[..|b|] == b && w[|a|..] == s && w[|b|..] == t;
    ItoaInjective(i, j);
  }

  lemma SuffixHead(x: Named)
    ensures Suffix(x) == [] || Suffix(x)[0] == '.'
  {
  }

  function Tail(x: Named): string {
    Itoa(x.replica.scaleIndex) + Suffix(x)
  }

  lemma NameShape(x: Named)
    ensures NameOf(x) ==
              x.replica.wdHash + ['-'] + (EscapeName(x.replica.project) + "-" + (EscapeName(x.replica.command) + "-" + Tail(x)))
  {
    hide EscapeName, Itoa, EventName, Digits;
    var r := x.replica;
    match x
    case ForReplica(_) =>
      assert ReplicaName(r) + "" == ReplicaName(r);
    case ForHook(_, hook, event) =>
      Regroup3(ReplicaName(r), ".hook.", hook, ".", EventName(event));
    case ForResource(_, key) =>
      Regroup3(ReplicaName(r), ".res.", key, "", "");
    assert NameOf(x) == ReplicaName(r) + Suffix(x);
    Regroup(r.wdHash, EscapeName(r.project), EscapeName(r.command), Itoa(r.scaleIndex), Suffix(x));
  }

  lemma Regroup3(a: string, b: string, c: string, d: string, e: string)
    ensures a + b + c + d + e == a + (b + c + d + e)
    ensures a + b + c == a + (b + c)
  {
  }

  lemma Regroup(h: string, p: string, c: string, i: string, s: string)
    ensures h + "-" + p + "-" + c + "-" + i + s == h + ['-'] + (p + "-" + (c + "-" + (i + s)))
  {
  }

  /** Behind the hash, the name decodes to the project, the command and the rest. */
  lemma NameDecodes(x: Named)
    requires ValidNamed(x)
    ensures var (project, rest) := SplitPart(EscapeName(x.replica.project) + "-" + (EscapeName(x.replica.command) + "-" + Tail(x)));
      && project == x.replica.project
      && SplitPart(rest) == (x.replica.command, Tail(x))
  {
    hide SplitPart, EscapeName, Suffix;
    var rest := EscapeName(x.replica.command) + "-" + Tail(x);
    EscapedHead(x.replica.command);
    assert rest[0] == x.replica.command[0];
    SplitEscaped(x.replica.project, rest);
    assert IsDigit(Itoa(x.replica.scaleIndex)[0]);
    assert Tail(x)[0] == Itoa(x.replica.scaleIndex)[0];
    SplitEscaped(x.replica.command, Tail(x));
  }

  lemma HashLacksDash(h: string)
    requires ValidHash(h)
    ensures Lacks(h, '-')
  {
  }

  /** No two distinct replicas, hook commands or resource holders share a name. */
  lemma NamesInjective(x: Named, y: Named)
    requires ValidNamed(x) && ValidNamed(y) && NameOf(x) == NameOf(y)
    ensures x == y
  {
    hide NameOf, EscapeName, SplitPart, Suffix, ValidName, Itoa;
    NameShape(x);
    NameShape(y);
    HashLacksDash(x.replica.wdHash);
    HashLacksDash(y.replica.wdHash);
    var a := EscapeName(x.replica.project) + "-" + (EscapeName(x.replica.command) + "-" + Tail(x));
    var b := EscapeName(y.replica.project) + "-" + (EscapeName(y.replica.command) + "-" + Tail(y));
    FirstSeparator(x.replica.wdHash, a, y.replica.wdHash, b, '-');
    NameDecodes(x);
    NameDecodes(y);
    SuffixHead(x);
    SuffixHead(y);
    IndexSuffix(x.replica.scaleIndex, Suffix(x), y.replica.scaleIndex, Suffix(y));
    SuffixInjective(x, y);
  }

  /** The names would collide without the rule that a name must not begin with a
      dash. */
  lemma LeadingDashCollides(wdHash: string)
    ensures GenerateName(wdHash, "a-", "b") == GenerateName(wdHash, "a", "-b")
    ensures !ValidName("-b")
  {
    assert EscapeName("a-") == "a--" by {
      assert "a-"[1..] == "-" && "-"[1..] == "";
      assert EscapeName("-") == "--";
    }
    assert EscapeName("-b") == "--b" by {
      assert "-b"[1..] == "b" && "b"[1..] == "";
      assert EscapeName("b") == "b";
    }
    assert EscapeName("a") == "a" by {
      assert "a"[1..] == "";
    }
    assert EscapeName("b") == "b" by {
      assert "b"[1..] == "";
    }
  }

  /** The base name is recovered from the name of a replica. */
  lemma StripUndoesInstanceName(base: string, scaleIndex: int)
    requires scaleIndex >= 1
    ensures StripScaleIndexSuffix(InstanceName(base, scaleIndex), scaleIndex) == base
  {
    hide Itoa;
    var suffix := "-" + Itoa(scaleIndex);
    assert InstanceName(base, scaleIndex) == base + suffix;
    assert (base + suffix)[|base|..] == suffix && (base + suffix)[..|base|] == base;
  }
}
