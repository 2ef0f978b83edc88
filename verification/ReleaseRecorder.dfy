/** The failed releases of one operation, in the order they were recorded, and
    their stable order by holder name. */
module ReleaseRecorder {
  import opened Collections
  import opened Wrappers
  import opened Names
  import opened Naming
  import opened Lifecycle

  // A resource of a replica; its holder is named by owner and key.
  datatype ResId = ResId(owner: string, key: string)

  datatype Release = Release(event: LifecycleEvent, args: seq<string>, onError: OnError)

  datatype Holder = Holder(value: string, release: Option<Release>)

  datatype FailedRelease = FailedRelease(
    id: ResId,
    holder: Holder,
    err: int,
    onError: OnError,
    retried: bool,
    reportOnly: bool
  )

  function NameOfId(id: ResId): string {
    HolderName(id.owner, id.key)
  }

  /** The last record of a holder. */
  function LastRecord(failed: seq<FailedRelease>, x: ResId): Option<FailedRelease> {
    if failed == [] then None
    else if failed[|failed| - 1].id == x then Some(failed[|failed| - 1])
    else LastRecord(failed[..|failed| - 1], x)
  }

  // ---- The stable sort ------------------------------------------------------

  function InsertFailure(s: seq<FailedRelease>, f: FailedRelease): seq<FailedRelease> {
    if s == [] || LessEq(NameOfId(s[|s| - 1].id), NameOfId(f.id)) then s + [f]
    else InsertFailure(s[..|s| - 1], f) + [s[|s| - 1]]
  }

  function SortFailures(s: seq<FailedRelease>): seq<FailedRelease> {
    if s == [] then [] else InsertFailure(SortFailures(s[..|s| - 1]), s[|s| - 1])
  }

  predicate SortedByName(s: seq<FailedRelease>) {
    forall i, j :: 0 <= i < j < |s| ==> LessEq(NameOfId(s[i].id), NameOfId(s[j].id))
  }

  lemma LastRecordSnoc(s: seq<FailedRelease>, f: FailedRelease, x: ResId)
    ensures LastRecord(s + [f], x) == if f.id == x then Some(f) else LastRecord(s, x)
  {
    assert (s + [f])[..|s|] == s;
  }

  lemma {:induction false} InsertLast(s: seq<FailedRelease>, f: FailedRelease, x: ResId)
    ensures LastRecord(InsertFailure(s, f), x) == LastRecord(s + [f], x)
  {
    hide NameOfId;
    if s != [] && !LessEq(NameOfId(s[|s| - 1].id), NameOfId(f.id)) {
      var init, last := s[..|s| - 1], s[|s| - 1];
      InsertLast(init, f, x);
      LastRecordSnoc(InsertFailure(init, f), last, x);
      LastRecordSnoc(init, f, x);
      LastRecordSnoc(s, f, x);
      assert last.id != f.id by { LessEqTotal(NameOfId(last.id), NameOfId(last.id)); }
    }
  }

  /** Sorting keeps the last record of each holder the last one. */
  lemma {:induction false} SortLast(s: seq<FailedRelease>, x: ResId)
    ensures LastRecord(SortFailures(s), x) == LastRecord(s, x)
  {
    if s != [] {
      var init, last := s[..|s| - 1], s[|s| - 1];
      SortLast(init, x);
      InsertLast(SortFailures(init), last, x);
      LastRecordSnoc(SortFailures(init), last, x);
      LastRecordSnoc(init, last, x);
      assert s == init + [last];
    }
  }

  lemma {:induction false} InsertKeepsSorted(s: seq<FailedRelease>, f: FailedRelease)
    requires SortedByName(s)
    ensures SortedByName(InsertFailure(s, f)) && multiset(InsertFailure(s, f)) == multiset(s) + multiset{f}
  {
    hide NameOfId;
    if s == [] {
    } else if LessEq(NameOfId(s[|s| - 1].id), NameOfId(f.id)) {
      forall i | 0 <= i < |s|
        ensures LessEq(NameOfId(s[i].id), NameOfId(f.id))
      {
        if i < |s| - 1 {
          LessEqTransitive(NameOfId(s[i].id), NameOfId(s[|s| - 1].id), NameOfId(f.id));
        }
      }
    } else {
      var init, last := s[..|s| - 1], s[|s| - 1];
      InsertKeepsSorted(init, f);
      LessEqTotal(NameOfId(last.id), NameOfId(f.id));
      assert s == init + [last];
      var r := InsertFailure(init, f);
      forall i | 0 <= i < |r|
        ensures LessEq(NameOfId(r[i].id), NameOfId(last.id))
      {
        InsertedMember(init, f, r, i);
      }
    }
  }

  lemma {:induction false} SortSorts(s: seq<FailedRelease>)
    ensures SortedByName(SortFailures(s)) && multiset(SortFailures(s)) == multiset(s)
  {
    if s != [] {
      SortSorts(s[..|s| - 1]);
      InsertKeepsSorted(SortFailures(s[..|s| - 1]), s[|s| - 1]);
      assert s == s[..|s| - 1] + [s[|s| - 1]];
    }
  }

  /** The failures of holders of one name, in their order. */
  function Named(s: seq<FailedRelease>, name: string): seq<FailedRelease> {
    if s == [] then []
    else Named(s[..|s| - 1], name) + if NameOfId(s[|s| - 1].id) == name then [s[|s| - 1]] else []
  }

  lemma NamedSnoc(s: seq<FailedRelease>, f: FailedRelease, name: string)
    ensures Named(s + [f], name) == Named(s, name) + if NameOfId(f.id) == name then [f] else []
  {
    assert (s + [f])[..|s|] == s;
  }

  lemma {:induction false} InsertNamed(s: seq<FailedRelease>, f: FailedRelease, name: string)
    ensures Named(InsertFailure(s, f), name) == Named(s + [f], name)
  {
    hide NameOfId;
    NamedSnoc(s, f, name);
    if s != [] && !LessEq(NameOfId(s[|s| - 1].id), NameOfId(f.id)) {
      var init, last := s[..|s| - 1], s[|s| - 1];
      InsertNamed(init, f, name);
      NamedSnoc(InsertFailure(init, f), last, name);
      NamedSnoc(init, f, name);
      LessEqTotal(NameOfId(last.id), NameOfId(last.id));
    }
  }

  /** The sort is stable: failures of one name keep their order. */
  lemma {:induction false} SortNamed(s: seq<FailedRelease>, name: string)
    ensures Named(SortFailures(s), name) == Named(s, name)
  {
    if s != [] {
      var init, last := s[..|s| - 1], s[|s| - 1];
      SortNamed(init, name);
      InsertNamed(SortFailures(init), last, name);
      NamedSnoc(SortFailures(init), last, name);
      NamedSnoc(init, last, name);
      assert s == init + [last];
    }
  }

  /** out holds the failures recorded, by holder name, those of one name in the order
      they were recorded. */
  ghost predicate Ordered(out: seq<FailedRelease>, recorded: seq<FailedRelease>) {
    && SortedByName(out)
    && multiset(out) == multiset(recorded)
    && (forall name :: Named(out, name) == Named(recorded, name))
    && (forall x :: LastRecord(out, x) == LastRecord(recorded, x))
  }

  lemma SortOrders(s: seq<FailedRelease>)
    ensures Ordered(SortFailures(s), s)
  {
    SortSorts(s);
    forall name
      ensures Named(SortFailures(s), name) == Named(s, name)
    {
      SortNamed(s, name);
    }
    forall x
      ensures LastRecord(SortFailures(s), x) == LastRecord(s, x)
    {
      SortLast(s, x);
    }
  }

  class Recorder {
    var failed: seq<FailedRelease>

    constructor ()
      ensures failed == []
    {
      failed := [];
    }

    method Record(f: FailedRelease)
      modifies this
      ensures failed == old(failed) + [f]
      ensures forall x :: LastRecord(failed, x) == if x == f.id then Some(f) else LastRecord(old(failed), x)
    {
      forall x
        ensures LastRecord(failed + [f], x) == if x == f.id then Some(f) else LastRecord(failed, x)
      {
        LastRecordSnoc(failed, f, x);
      }
      failed := failed + [f];
    }

    method Failures() returns (out: seq<FailedRelease>)
      ensures Ordered(out, failed)
    {
      SortOrders(failed);
      out := SortFailures(failed);
    }

    method Take() returns (out: seq<FailedRelease>)
      modifies this
      ensures Ordered(out, old(failed)) && failed == []
    {
      SortOrders(failed);
      out := SortFailures(failed);
      failed := [];
    }
  }
}
