/** Facts about sequences, sets and multisets of any type. */
module Collections {
  /** The place of the first x in s, or the length of s. */
  function IndexOf<T(==)>(s: seq<T>, x: T): (i: nat)
    ensures i <= |s| && (forall k :: 0 <= k < i ==> s[k] != x) && (i < |s| ==> s[i] == x)
  {
    if s == [] || s[0] == x then 0 else 1 + IndexOf(s[1..], x)
  }

  lemma SubsetSize<T>(a: set<T>, b: set<T>)
    requires a <= b
    ensures |a| <= |b|
  {
    assert b == a + (b - a);
  }

  lemma InsertedMember<T>(s: seq<T>, x: T, r: seq<T>, i: int)
    requires multiset(r) == multiset(s) + multiset{x} && 0 <= i < |r|
    ensures r[i] == x || r[i] in s
  {
    assert r[i] in multiset(r);
  }

  /** The elements of s that keep holds of, each as often and in the order in which they
      are there: at lists their places. */
  ghost predicate Picks<T(!new)>(out: seq<T>, s: seq<T>, keep: T -> bool, at: seq<nat>) {
    && |at| == |out|
    && (forall i, j :: 0 <= i < j < |at| ==> at[i] < at[j])
    && (forall i :: 0 <= i < |at| ==> at[i] < |s| && out[i] == s[at[i]])
    && (forall k: nat :: k < |s| ==> (k in at <==> keep(s[k])))
  }

  ghost predicate IsFilter<T(!new)>(out: seq<T>, s: seq<T>, keep: T -> bool) {
    exists at :: Picks(out, s, keep, at)
  }

  lemma NothingFiltered<T(!new)>(keep: T -> bool)
    ensures IsFilter([], [], keep)
  {
    assert Picks([], [], keep, []);
  }

  lemma FilterMore<T(!new)>(out: seq<T>, s: seq<T>, x: T, keep: T -> bool)
    requires IsFilter(out, s, keep)
    ensures IsFilter(if keep(x) then out + [x] else out, s + [x], keep)
  {
    var at :| Picks(out, s, keep, at);
    PickMore(out, s, x, keep, at);
  }

  lemma PickMore<T(!new)>(out: seq<T>, s: seq<T>, x: T, keep: T -> bool, at: seq<nat>)
    requires Picks(out, s, keep, at)
    ensures Picks(if keep(x) then out + [x] else out, s + [x], keep, if keep(x) then at + [|s|] else at)
  {
    var more := if keep(x) then at + [|s|] else at;
    forall k: nat | k < |s| + 1
      ensures k in more <==> keep((s + [x])[k])
    {
      if k < |s| {
        assert k in at <==> keep(s[k]);
      }
    }
  }

  lemma FilterMember<T(!new)>(out: seq<T>, s: seq<T>, keep: T -> bool, x: T)
    requires IsFilter(out, s, keep)
    ensures x in out <==> x in s && keep(x)
  {
    var at :| Picks(out, s, keep, at);
    if x in s && keep(x) {
      var k: nat :| k < |s| && s[k] == x;
      assert k in at;
    }
  }
}
