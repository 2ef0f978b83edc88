/** The retry of the releases that failed, and the report of those that are left. */
module ReleaseReport {
  import opened Wrappers
  import opened Names
  import opened Lifecycle
  import opened ReleaseRecorder
  import opened HookRuns

  // ---- One record per holder -------------------------------------------------

  predicate DistinctIds(s: seq<FailedRelease>) {
    forall i, j :: 0 <= i < j < |s| ==> s[i].id != s[j].id
  }

  /** Holders have the names of distinct resources, as generated names do. */
  predicate NamesApart(s: seq<FailedRelease>) {
    forall i, j :: 0 <= i < |s| && 0 <= j < |s| && NameOfId(s[i].id) == NameOfId(s[j].id) ==> s[i].id == s[j].id
  }

  /** Adjacent records of one holder become its last one. */
  method OncePerHolder(taken: seq<FailedRelease>) returns (failed: seq<FailedRelease>)
    requires SortedByName(taken) && NamesApart(taken)
    ensures DistinctIds(failed)
    ensures forall x :: LastRecord(failed, x) == LastRecord(taken, x)
  {
    hide LessEq, NameOfId, DistinctIds;
    failed := [];
    assert DistinctIds(failed) by { NoneDistinct(); }
    for i := 0 to |taken|
      invariant forall x :: LastRecord(failed, x) == LastRecord(taken[..i], x)
      invariant DistinctIds(failed)
      invariant forall k :: 0 <= k < |failed| ==> exists j :: 0 <= j < i && taken[j].id == failed[k].id
      invariant i > 0 ==> failed != [] && failed[|failed| - 1].id == taken[i - 1].id
    {
      var f := taken[i];
      assert taken[..i + 1] == taken[..i] + [f];
      forall x
        ensures LastRecord(taken[..i + 1], x) == if f.id == x then Some(f) else LastRecord(taken[..i], x)
      {
        LastRecordSnoc(taken[..i], f, x);
      }
      var n := |failed|;
      if n > 0 && NameOfId(failed[n - 1].id) == NameOfId(f.id) {
        assert failed[n - 1].id == f.id;
        ReplaceLast(failed, f);
        ReplacedDistinct(failed, f);
        failed := failed[n - 1 := f];
        assert taken[i].id == failed[n - 1].id;
      } else {
        forall k | 0 <= k < n
          ensures failed[k].id != f.id
        {
          var j :| 0 <= j < i && taken[j].id == failed[k].id;
          if failed[k].id == f.id {
            Between(taken, j, i - 1, i);
          }
        }
        forall x
          ensures LastRecord(failed + [f], x) == if f.id == x then Some(f) else LastRecord(failed, x)
        {
          LastRecordSnoc(failed, f, x);
        }
        AppendedDistinct(failed, f);
        assert taken[i].id == f.id;
        failed := failed + [f];
      }
    }
    assert taken[..|taken|] == taken;
  }

  lemma ReplaceLast(failed: seq<FailedRelease>, f: FailedRelease)
    requires failed != [] && failed[|failed| - 1].id == f.id
    ensures forall x :: LastRecord(failed[|failed| - 1 := f], x) == if f.id == x then Some(f) else LastRecord(failed, x)
  {
    var r := failed[|failed| - 1 := f];
    assert r[..|r| - 1] == failed[..|failed| - 1];
    forall x
      ensures LastRecord(r, x) == if f.id == x then Some(f) else LastRecord(failed, x)
    {
    }
  }

  lemma NoneDistinct()
    ensures DistinctIds([])
  {
  }

  lemma ReplacedDistinct(failed: seq<FailedRelease>, f: FailedRelease)
    requires failed != [] && DistinctIds(failed) && failed[|failed| - 1].id == f.id
    ensures DistinctIds(failed[|failed| - 1 := f])
  {
  }

  lemma AppendedDistinct(failed: seq<FailedRelease>, f: FailedRelease)
    requires DistinctIds(failed) && forall k :: 0 <= k < |failed| ==> failed[k].id != f.id
    ensures DistinctIds(failed + [f])
  {
  }

  /** Sorted names between two equal ones equal them. */
  lemma Between(s: seq<FailedRelease>, i: int, j: int, k: int)
    requires SortedByName(s) && 0 <= i <= j < k < |s| && s[i].id == s[k].id
    ensures NameOfId(s[j].id) == NameOfId(s[k].id)
  {
    if i < j {
      LessEqAntisymmetric(NameOfId(s[j].id), NameOfId(s[k].id));
    }
  }

  // ---- The retry ------------------------------------------------------------

  /** What becomes of a failure whose release runs once more from its recorded
      holder: it goes when the run works, and else carries the failure of that
      run. */
  function Retried(f: FailedRelease, force: bool, env: Env): Option<FailedRelease>
    requires f.holder.release.Some?
  {
    var r := RunRelease(map[], f.id, f.holder, force, env);
    if r.record.Some? then Some(f.(err := r.record.value.err, onError := r.record.value.onError, retried := true))
    else None
  }

  // The state a replica is listed in; died tells that its monitor died unexpectedly.
  datatype ReplicaState = IsCreated | IsStarting | IsRunning | HasExited | HasFailed(died: bool)

  /** The run of the replica is over for sure. */
  predicate VerifiedStopped(x: ReplicaState) {
    match x
    case HasExited => true
    case HasFailed(died) => !died
    case _ => false
  }

  predicate Verified(listing: map<string, ReplicaState>, r: string) {
    r in listing && VerifiedStopped(listing[r])
  }

  /** Only a release recorded with a copy of its stored holder, of a replica that
      has verifiably stopped, runs again. */
  predicate Retryable(f: FailedRelease, listing: map<string, ReplicaState>) {
    !f.reportOnly && Verified(listing, f.id.owner)
  }

  /** The failures left, given how each retry goes. */
  function LeftAfter(failed: seq<FailedRelease>, listing: map<string, ReplicaState>, force: bool, envs: seq<Env>): seq<FailedRelease>
    requires |envs| == |failed| && forall i :: 0 <= i < |failed| ==> failed[i].holder.release.Some?
  {
    if failed == [] then []
    else
      var n := |failed| - 1;
      var f := failed[n];
      LeftAfter(failed[..n], listing, force, envs[..n]) +
      if !Retryable(f, listing) then [f]
      else match Retried(f, force, envs[n])
        case Some(g) => [g]
        case None => []
  }

  /** The on_error of a failed retry: fail when it was cancelled, else the stored one,
      with fail, explicit or by default, turned into continue by force. */
  predicate RetriedUnder(stored: OnError, force: bool, cancelled: bool, o: OnError) {
    if cancelled then o == Fail
    else if stored == OnErrorUnset || stored == Fail then o == (if force then Continue else Fail)
    else o == stored
  }

  /** The retry of f: gone when its command works and its holder is removed, else f
      with the failure of that run. */
  predicate RetryOf(f: FailedRelease, force: bool, env: Env, now: Option<FailedRelease>)
    requires f.holder.release.Some?
  {
    if env.exec && env.drop then now.None?
    else now.Some? && now.value == f.(err := env.err, onError := now.value.onError, retried := true)
         && RetriedUnder(f.holder.release.value.onError, force, env.doneAtRecord, now.value.onError)
  }

  lemma RetriedMeans(f: FailedRelease, force: bool, env: Env)
    requires f.holder.release.Some?
    ensures RetryOf(f, force, env, Retried(f, force, env))
  {
  }

  /** Failure i after the retries. */
  ghost predicate Settled(failed: seq<FailedRelease>, ran: set<nat>, force: bool, envs: seq<Env>, left: seq<FailedRelease>, i: nat)
    requires i < |failed| == |envs| && failed[i].holder.release.Some?
  {
    var now := LastRecord(left, failed[i].id);
    if i in ran then RetryOf(failed[i], force, envs[i], now) else now == Some(failed[i])
  }

  lemma {:induction false} LeftOnlyListed(failed: seq<FailedRelease>, listing: map<string, ReplicaState>, force: bool, envs: seq<Env>, x: ResId)
    requires |envs| == |failed| && forall i :: 0 <= i < |failed| ==> failed[i].holder.release.Some?
    ensures LastRecord(LeftAfter(failed, listing, force, envs), x).Some? ==> exists i :: 0 <= i < |failed| && failed[i].id == x
  {
    if failed != [] {
      var n := |failed| - 1;
      LeftOnlyListed(failed[..n], listing, force, envs[..n], x);
      LeftMore(failed, listing, force, envs, x);
      if i :| 0 <= i < n && failed[..n][i].id == x {
        assert failed[i].id == x;
      }
    }
  }

  /** What the last failure adds. */
  lemma LeftMore(failed: seq<FailedRelease>, listing: map<string, ReplicaState>, force: bool, envs: seq<Env>, x: ResId)
    requires failed != [] && |envs| == |failed| && forall i :: 0 <= i < |failed| ==> failed[i].holder.release.Some?
    ensures var n := |failed| - 1;
      var before := LastRecord(LeftAfter(failed[..n], listing, force, envs[..n]), x);
      LastRecord(LeftAfter(failed, listing, force, envs), x) ==
        if failed[n].id != x then before
        else if !Retryable(failed[n], listing) then Some(failed[n])
        else if Retried(failed[n], force, envs[n]).Some? then Retried(failed[n], force, envs[n])
        else before
  {
    hide Retryable;
    var n := |failed| - 1;
    var init := LeftAfter(failed[..n], listing, force, envs[..n]);
    var f := failed[n];
    if !Retryable(f, listing) {
      LastRecordSnoc(init, f, x);
    } else if Retried(f, force, envs[n]).Some? {
      LastRecordSnoc(init, Retried(f, force, envs[n]).value, x);
    } else {
      assert init + [] == init;
    }
  }

  lemma {:induction false} LeftAt(failed: seq<FailedRelease>, listing: map<string, ReplicaState>, force: bool, envs: seq<Env>, i: nat)
    requires |envs| == |failed| && (forall i :: 0 <= i < |failed| ==> failed[i].holder.release.Some?)
    requires DistinctIds(failed) && i < |failed|
    ensures LastRecord(LeftAfter(failed, listing, force, envs), failed[i].id) ==
            if Retryable(failed[i], listing) then Retried(failed[i], force, envs[i]) else Some(failed[i])
  {
    hide Retryable, Retried;
    var n := |failed| - 1;
    var x := failed[i].id;
    LeftMore(failed, listing, force, envs, x);
    if i < n {
      assert failed[..n][i] == failed[i] && envs[..n][i] == envs[i];
      LeftAt(failed[..n], listing, force, envs[..n], i);
    } else {
      LeftOnlyListed(failed[..n], listing, force, envs[..n], x);
    }
  }

  /** One retry, with a recorder of its own. */
  method RetryOne(store: HookStore, f: FailedRelease, force: bool, env: Env) returns (now: Option<FailedRelease>)
    requires f.holder.release.Some?
    modifies store
    ensures now == Retried(f, force, env) && RetryOf(f, force, env, now)
    ensures store.holders.Keys <= old(store.holders.Keys)
    ensures forall x :: x in old(store.holders) && x !in store.holders ==> x == f.id
  {
    var again := new Recorder();
    var rel := f.holder.release.value;
    var exec := if force then ForcedExec(Exec(rel.args, rel.onError)) else Exec(rel.args, rel.onError);
    ghost var was := store.holders;
    SameRecord(was, f, exec, env);
    RunConserves(was, Some(f.id), rel.event, exec, Some(f.holder), env);
    RetriedMeans(f, force, env);
    var _ := store.RunHookAs(again, Some(f.id), rel.event, exec, Some(f.holder), env);
    var retry := again.Failures();
    OrderedOne(retry, again.failed);
    now := None;
    if |retry| > 0 {
      var last := retry[|retry| - 1];
      now := Some(f.(err := last.err, onError := last.onError, retried := true));
    }
  }

  /** The retries, each with a recorder of its own. They write to disjoint entries,
      so one order stands for all. ran are the failures that are retried: those with a
      copy of their holder, of a replica listed as exited, or as failed with an end its
      monitor recorded. Without a listing there are none. */
  method RetryFailures(store: HookStore, failed: seq<FailedRelease>, listed: Option<map<string, ReplicaState>>, force: bool, envs: seq<Env>)
    returns (left: seq<FailedRelease>, ran: set<nat>)
    requires |envs| == |failed| && (forall i :: 0 <= i < |failed| ==> failed[i].holder.release.Some?)
    requires DistinctIds(failed)
    modifies store
    ensures forall i: nat :: i in ran <==>
              && i < |failed| && !failed[i].reportOnly
              && listed.Some? && failed[i].id.owner in listed.value
              && (listed.value[failed[i].id.owner] == HasExited || listed.value[failed[i].id.owner] == HasFailed(false))
    ensures forall i: nat :: i < |failed| ==> Settled(failed, ran, force, envs, left, i)
    ensures forall x :: LastRecord(left, x).Some? ==> exists i :: 0 <= i < |failed| && failed[i].id == x
    ensures left == LeftAfter(failed, if listed.Some? then listed.value else map[], force, envs)
    ensures store.holders.Keys <= old(store.holders.Keys)
    ensures forall x :: x in old(store.holders) && x !in store.holders ==> exists i: nat :: i in ran && failed[i].id == x
  {
    hide Retried, DistinctIds, LastRecord, Settled;
    var listing := if listed.Some? then listed.value else map[];
    left, ran := [], {};
    for i := 0 to |failed|
      invariant left == LeftAfter(failed[..i], listing, force, envs[..i])
      invariant forall k: nat :: k in ran <==> k < i && Retryable(failed[k], listing)
      invariant store.holders.Keys <= old(store.holders.Keys)
      invariant forall x :: x in old(store.holders) && x !in store.holders ==> exists k: nat :: k in ran && failed[k].id == x
    {
      var f := failed[i];
      assert failed[..i + 1][..i] == failed[..i] && envs[..i + 1][..i] == envs[..i];
      if !Retryable(f, listing) {
        left := left + [f];
      } else {
        var now := RetryOne(store, f, force, envs[i]);
        ran := ran + {i};
        if now.Some? {
          left := left + [now.value];
        }
      }
    }
    assert failed[..|failed|] == failed && envs[..|envs|] == envs;
    LeftMeans(failed, listing, force, envs, ran);
  }

  /** What is left is what the retries made of each failure. */
  lemma LeftMeans(failed: seq<FailedRelease>, listing: map<string, ReplicaState>, force: bool, envs: seq<Env>, ran: set<nat>)
    requires |envs| == |failed| && (forall i :: 0 <= i < |failed| ==> failed[i].holder.release.Some?) && DistinctIds(failed)
    requires forall k: nat :: k in ran <==> k < |failed| && Retryable(failed[k], listing)
    ensures var left := LeftAfter(failed, listing, force, envs);
      && (forall i: nat :: i < |failed| ==> Settled(failed, ran, force, envs, left, i))
      && forall x :: LastRecord(left, x).Some? ==> exists i :: 0 <= i < |failed| && failed[i].id == x
  {
    hide Retryable, Retried, RetryOf, LeftAfter, DistinctIds;
    var left := LeftAfter(failed, listing, force, envs);
    forall i: nat | i < |failed|
      ensures Settled(failed, ran, force, envs, left, i)
    {
      LeftAt(failed, listing, force, envs, i);
      RetriedMeans(failed[i], force, envs[i]);
    }
    forall x | LastRecord(left, x).Some?
      ensures exists i :: 0 <= i < |failed| && failed[i].id == x
    {
      LeftOnlyListed(failed, listing, force, envs, x);
    }
  }

  /** A run that is given its holder does not look at the stored ones. */
  lemma SameRecord(holders: Holders, f: FailedRelease, exec: Exec, env: Env)
    requires f.holder.release.Some?
    ensures var ev := f.holder.release.value.event;
      && RunHook(holders, Some(f.id), ev, exec, Some(f.holder), env).record == RunHook(map[], Some(f.id), ev, exec, Some(f.holder), env).record
      && RunHook(holders, Some(f.id), ev, exec, Some(f.holder), env).verdict == RunHook(map[], Some(f.id), ev, exec, Some(f.holder), env).verdict
  {
  }

  lemma OrderedOne(out: seq<FailedRelease>, s: seq<FailedRelease>)
    requires Ordered(out, s) && |s| <= 1
    ensures out == s
  {
    assert |multiset(out)| == |out| && |multiset(s)| == |s|;
    if |s| == 1 {
      assert s[0] in multiset(s);
      assert s[0] in multiset(out);
    }
  }

  // ---- The report -----------------------------------------------------------

  // No holder stands for the failure to list the holders.
  datatype ReleaseOutcome = ReleaseOutcome(
    holder: Option<ResId>,
    value: string,
    err: Option<int>,
    warning: Option<int>,
    retried: bool
  )

  function OutcomeOf(f: FailedRelease): ReleaseOutcome {
    var fails := f.onError == Fail;
    ReleaseOutcome(Some(f.id), f.holder.value, if fails then Some(f.err) else None, if fails then None else Some(f.err), f.retried)
  }

  /** The outcome tells of the failure: as an error when it is handled under fail, else
      as a warning, with the value of its holder and whether it was the retry. */
  predicate TellsOf(o: ReleaseOutcome, f: FailedRelease) {
    && o.holder == Some(f.id) && o.value == f.holder.value && (o.retried <==> f.retried)
    && (if f.onError == Fail then o.err == Some(f.err) && o.warning.None? else o.warning == Some(f.err) && o.err.None?)
  }

  predicate HoldersOnce(outcomes: seq<ReleaseOutcome>) {
    forall i, j :: 0 <= i < j < |outcomes| && outcomes[i].holder.Some? ==> outcomes[i].holder != outcomes[j].holder
  }

  predicate HasOutcome(outcomes: seq<ReleaseOutcome>, o: ReleaseOutcome) {
    o in outcomes
  }

  /** The outcome reported for a holder: that of its last failure on record, else
      the one it had. */
  ghost predicate Reports(before: seq<ReleaseOutcome>, failed: seq<FailedRelease>, after: seq<ReleaseOutcome>) {
    && HoldersOnce(after)
    && |before| <= |after|
    && (forall i :: 0 <= i < |before| ==>
          after[i] == if before[i].holder.Some? && LastRecord(failed, before[i].holder.value).Some?
                      then OutcomeOf(LastRecord(failed, before[i].holder.value).value)
                      else before[i])
    && (forall i :: |before| <= i < |after| ==>
          after[i].holder.Some? && LastRecord(failed, after[i].holder.value) != None
          && after[i] == OutcomeOf(LastRecord(failed, after[i].holder.value).value))
    && (forall x :: LastRecord(failed, x).Some? ==> HasOutcome(after, OutcomeOf(LastRecord(failed, x).value)))
  }

  function IndexOf(outcomes: seq<ReleaseOutcome>, x: ResId): Option<nat> {
    if outcomes == [] then None
    else if outcomes[|outcomes| - 1].holder == Some(x) then Some(|outcomes| - 1)
    else IndexOf(outcomes[..|outcomes| - 1], x)
  }

  ghost predicate Indexed(outcomes: seq<ReleaseOutcome>, at: map<ResId, nat>) {
    && (forall x :: x in at ==> at[x] < |outcomes| && outcomes[at[x]].holder == Some(x))
    && (forall i :: 0 <= i < |outcomes| && outcomes[i].holder.Some? ==>
          outcomes[i].holder.value in at && at[outcomes[i].holder.value] == i)
  }

  method IndexOutcomes(outcomes: seq<ReleaseOutcome>) returns (at: map<ResId, nat>)
    requires HoldersOnce(outcomes)
    ensures Indexed(outcomes, at)
  {
    at := map[];
    for i := 0 to |outcomes|
      invariant forall x :: x in at ==> at[x] < i && outcomes[at[x]].holder == Some(x)
      invariant forall k :: 0 <= k < i && outcomes[k].holder.Some? ==> outcomes[k].holder.value in at && at[outcomes[k].holder.value] == k
    {
      if outcomes[i].holder.Some? {
        at := at[outcomes[i].holder.value := i];
      }
    }
  }

  /** Overwrites or appends the outcome of each failure, through an index by
      holder. */
  method AddUnreleased(outcomes: seq<ReleaseOutcome>, failed: seq<FailedRelease>) returns (out: seq<ReleaseOutcome>)
    requires HoldersOnce(outcomes)
    ensures Reports(outcomes, failed, out)
    ensures forall x :: LastRecord(failed, x).Some? ==> exists o :: o in out && TellsOf(o, LastRecord(failed, x).value)
    ensures forall o :: o in out ==>
              o in outcomes || (o.holder.Some? && LastRecord(failed, o.holder.value).Some? && TellsOf(o, LastRecord(failed, o.holder.value).value))
  {
    hide Reports;
    out := outcomes;
    var at: map<ResId, nat> := IndexOutcomes(outcomes);
    NothingFailed(outcomes);
    for i := 0 to |failed|
      invariant Indexed(out, at)
      invariant Reports(outcomes, failed[..i], out)
    {
      var f := failed[i];
      assert failed[..i + 1] == failed[..i] + [f];
      if f.id in at {
        ReportOver(outcomes, failed[..i], out, f, at[f.id]);
        out := out[at[f.id] := OutcomeOf(f)];
      } else {
        ReportMore(outcomes, failed[..i], out, f);
        at := at[f.id := |out|];
        out := out + [OutcomeOf(f)];
      }
    }
    assert failed[..|failed|] == failed;
    ReportsTell(outcomes, failed, out);
  }

  lemma OutcomeTells(failed: seq<FailedRelease>, x: ResId)
    ensures LastRecord(failed, x).Some? ==> LastRecord(failed, x).value.id == x
    ensures LastRecord(failed, x).Some? ==> TellsOf(OutcomeOf(LastRecord(failed, x).value), LastRecord(failed, x).value)
  {
  }

  /** What is in a report. */
  lemma ReportsTell(before: seq<ReleaseOutcome>, failed: seq<FailedRelease>, out: seq<ReleaseOutcome>)
    requires Reports(before, failed, out)
    ensures forall x :: LastRecord(failed, x).Some? ==> exists o :: o in out && TellsOf(o, LastRecord(failed, x).value)
    ensures forall o :: o in out ==>
              o in before || (o.holder.Some? && LastRecord(failed, o.holder.value).Some? && TellsOf(o, LastRecord(failed, o.holder.value).value))
  {
    hide LastRecord, TellsOf, OutcomeOf, HoldersOnce;
    forall x | LastRecord(failed, x).Some?
      ensures exists o :: o in out && TellsOf(o, LastRecord(failed, x).value)
    {
      OutcomeTells(failed, x);
      assert HasOutcome(out, OutcomeOf(LastRecord(failed, x).value));
    }
    forall o | o in out
      ensures o in before || (o.holder.Some? && LastRecord(failed, o.holder.value).Some? && TellsOf(o, LastRecord(failed, o.holder.value).value))
    {
      var i :| 0 <= i < |out| && out[i] == o;
      if o !in before {
        if i < |before| {
          assert o != before[i];
        }
        var x := if i < |before| then before[i].holder.value else o.holder.value;
        OutcomeTells(failed, x);
        OutcomeHolder(failed, x);
      }
    }
  }

  lemma OutcomeHolder(failed: seq<FailedRelease>, x: ResId)
    ensures LastRecord(failed, x).Some? ==> OutcomeOf(LastRecord(failed, x).value).holder == Some(LastRecord(failed, x).value.id)
  {
  }

  /** There is always a report. */
  lemma {:induction false} ReportExists(before: seq<ReleaseOutcome>, failed: seq<FailedRelease>) returns (out: seq<ReleaseOutcome>)
    requires HoldersOnce(before)
    ensures Reports(before, failed, out)
  {
    hide Reports;
    if failed == [] {
      NothingFailed(before);
      out := before;
    } else {
      var init, f := failed[..|failed| - 1], failed[|failed| - 1];
      assert failed == init + [f];
      var was := ReportExists(before, init);
      if k: nat :| k < |was| && was[k].holder == Some(f.id) {
        ReportOver(before, init, was, f, k);
        out := was[k := OutcomeOf(f)];
      } else {
        ReportMore(before, init, was, f);
        out := was + [OutcomeOf(f)];
      }
    }
  }

  lemma NothingFailed(outcomes: seq<ReleaseOutcome>)
    requires HoldersOnce(outcomes)
    ensures Reports(outcomes, [], outcomes)
  {
  }

  lemma ReportOver(before: seq<ReleaseOutcome>, failed: seq<FailedRelease>, out: seq<ReleaseOutcome>, f: FailedRelease, k: nat)
    requires Reports(before, failed, out) && k < |out| && out[k].holder == Some(f.id)
    ensures Reports(before, failed + [f], out[k := OutcomeOf(f)])
  {
    hide LastRecord;
    var out' := out[k := OutcomeOf(f)];
    forall x
      ensures LastRecord(failed + [f], x) == if f.id == x then Some(f) else LastRecord(failed, x)
    {
      LastRecordSnoc(failed, f, x);
    }
    assert forall i :: 0 <= i < |out| ==> out'[i].holder == out[i].holder;
    forall i | 0 <= i < |before|
      ensures out[i].holder == before[i].holder
    {
      BeforeKept(before, failed, out, i);
    }
    forall x | LastRecord(failed + [f], x).Some?
      ensures HasOutcome(out', OutcomeOf(LastRecord(failed + [f], x).value))
    {
      if x == f.id {
        assert out'[k] == OutcomeOf(f);
      } else {
        assert HasOutcome(out, OutcomeOf(LastRecord(failed, x).value));
        RecordHasId(failed, x);
        var i :| 0 <= i < |out| && out[i] == OutcomeOf(LastRecord(failed, x).value);
        assert out'[i] == out[i];
      }
    }
  }

  lemma {:induction false} RecordHasId(failed: seq<FailedRelease>, x: ResId)
    ensures LastRecord(failed, x).Some? ==> LastRecord(failed, x).value.id == x && LastRecord(failed, x).value in failed
  {
    if failed != [] {
      RecordHasId(failed[..|failed| - 1], x);
    }
  }

  lemma ReportMore(before: seq<ReleaseOutcome>, failed: seq<FailedRelease>, out: seq<ReleaseOutcome>, f: FailedRelease)
    requires Reports(before, failed, out) && forall i :: 0 <= i < |out| ==> out[i].holder != Some(f.id)
    ensures Reports(before, failed + [f], out + [OutcomeOf(f)])
  {
    hide LastRecord;
    var out' := out + [OutcomeOf(f)];
    forall x
      ensures LastRecord(failed + [f], x) == if f.id == x then Some(f) else LastRecord(failed, x)
    {
      LastRecordSnoc(failed, f, x);
    }
    forall i | 0 <= i < |before|
      ensures before[i].holder.Some? ==> before[i].holder.value != f.id
    {
      BeforeKept(before, failed, out, i);
    }
    forall x | LastRecord(failed + [f], x).Some?
      ensures HasOutcome(out', OutcomeOf(LastRecord(failed + [f], x).value))
    {
      if x == f.id {
        assert out'[|out|] == OutcomeOf(f);
      } else {
        assert HasOutcome(out, OutcomeOf(LastRecord(failed, x).value));
        var i :| 0 <= i < |out| && out[i] == OutcomeOf(LastRecord(failed, x).value);
        assert out'[i] == out[i];
      }
    }
  }

  lemma BeforeKept(before: seq<ReleaseOutcome>, failed: seq<FailedRelease>, out: seq<ReleaseOutcome>, i: int)
    requires Reports(before, failed, out) && 0 <= i < |before|
    ensures out[i].holder == before[i].holder
  {
    if before[i].holder.Some? {
      RecordHasId(failed, before[i].holder.value);
    }
  }
}
