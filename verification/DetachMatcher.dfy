/** The detach-key matcher one byte at a time, and the keys it recognizes at every
    occurrence. */
module DetachMatcher {
  newtype Byte = x: int | 0 <= x < 256

  // matched counts the key bytes matched so far; out is what was passed on.
  datatype Matcher = Matcher(matched: nat, detached: bool, out: seq<Byte>)

  /** A byte that diverges gives up the matched prefix as literal input, and may
      itself begin the key again. */
  function Step(key: seq<Byte>, m: Matcher, b: Byte): (r: Matcher)
    requires m.matched < |key|
    ensures r.matched < |key|
  {
    if m.detached then m
    else if b == key[m.matched] then
      if m.matched + 1 == |key| then m.(matched := 0, detached := true) else m.(matched := m.matched + 1)
    else if m.matched > 0 && b == key[0] then Matcher(1, false, m.out + key[..m.matched])
    else Matcher(0, false, m.out + key[..m.matched] + [b])
  }

  function Feed(key: seq<Byte>, input: seq<Byte>): (m: Matcher)
    requires key != []
    ensures m.matched < |key|
  {
    if input == [] then Matcher(0, false, []) else Step(key, Feed(key, input[..|input| - 1]), input[|input| - 1])
  }

  lemma FeedSnoc(key: seq<Byte>, input: seq<Byte>, b: Byte)
    requires key != []
    ensures Feed(key, input + [b]) == Step(key, Feed(key, input), b)
  {
    assert (input + [b])[..|input|] == input;
  }

  // ---- What is passed on ----------------------------------------------------

  /** Nothing is lost, added or reordered: before a detach, what was passed on and
      the partial match make up the input. */
  lemma {:induction false} OutputAndMatch(key: seq<Byte>, input: seq<Byte>)
    requires key != []
    ensures var m := Feed(key, input); !m.detached ==> m.out + key[..m.matched] == input
  {
    if input != [] {
      var before := input[..|input| - 1];
      var b := input[|input| - 1];
      var m := Feed(key, before);
      OutputAndMatch(key, before);
      assert input == before + [b];
      if !m.detached && b == key[m.matched] && m.matched + 1 < |key| {
        assert key[..m.matched + 1] == key[..m.matched] + [b];
        assert m.out + key[..m.matched + 1] == m.out + key[..m.matched] + [b];
      } else if !m.detached && m.matched > 0 && b == key[0] && b != key[m.matched] {
        assert key[..1] == [b];
      } else if !m.detached && b != key[m.matched] {
        assert key[..0] == [];
      }
    }
  }

  /** The input up to a detach ends with the key, and only that is held back. */
  lemma DetachEndsWithKey(key: seq<Byte>, input: seq<Byte>, b: Byte)
    requires key != [] && !Feed(key, input).detached
    ensures var m := Feed(key, input + [b]); m.detached ==> m.out + key == input + [b]
  {
    FeedSnoc(key, input, b);
    OutputAndMatch(key, input);
    var m := Feed(key, input);
    if b == key[m.matched] && m.matched + 1 == |key| {
      assert key == key[..m.matched] + [b];
      assert m.out + key == m.out + key[..m.matched] + [b];
    }
  }

  lemma {:induction false} DetachedStays(key: seq<Byte>, input: seq<Byte>, n: nat)
    requires key != [] && n <= |input| && Feed(key, input[..n]).detached
    ensures Feed(key, input).detached
    decreases |input|
  {
    if n < |input| {
      var before := input[..|input| - 1];
      assert before[..n] == input[..n];
      DetachedStays(key, before, n);
    } else {
      assert input[..n] == input;
    }
  }

  // ---- Which keys are recognized wherever they occur -------------------------

  /** The first j bytes of the key end the input. */
  predicate Ends(key: seq<Byte>, input: seq<Byte>, j: nat) {
    j <= |key| && j <= |input| && key[..j] == input[|input| - j..]
  }

  predicate OccursAt(key: seq<Byte>, input: seq<Byte>, i: nat) {
    i + |key| <= |input| && input[i..i + |key|] == key
  }

  predicate Occurs(key: seq<Byte>, input: seq<Byte>) {
    exists i :: 0 <= i <= |input| && OccursAt(key, input, i)
  }

  /** Where the match of the first m bytes breaks, the j bytes that end the input
      could begin the key again, for some j beyond the one byte the matcher
      considers. */
  predicate Overlap(key: seq<Byte>, m: int, j: int) {
    2 <= j <= m < |key| && key[..j - 1] == key[m - j + 1..m] && key[j - 1] != key[m]
  }

  predicate FreeOfOverlap(key: seq<Byte>) {
    forall m, j :: 2 <= j <= m < |key| ==> !Overlap(key, m, j)
  }

  lemma EndsSnoc(key: seq<Byte>, input: seq<Byte>, b: Byte, j: nat)
    requires 1 <= j <= |key|
    ensures Ends(key, input + [b], j) <==> Ends(key, input, j - 1) && key[j - 1] == b
  {
    var longer := input + [b];
    if j <= |longer| {
      assert longer[|longer| - j..] == input[|input| - (j - 1)..] + [b];
      assert key[..j] == key[..j - 1] + [key[j - 1]];
      if Ends(key, longer, j) {
        assert key[..j][..j - 1] == longer[|longer| - j..][..j - 1];
        assert key[..j][j - 1] == longer[|longer| - j..][j - 1];
      }
    }
  }

  /** Two prefixes of the key that end the input overlap. */
  lemma EndsNested(key: seq<Byte>, input: seq<Byte>, m: nat, j: nat)
    requires 1 <= j <= m && Ends(key, input, m) && Ends(key, input, j - 1)
    ensures key[..j - 1] == key[m - j + 1..m]
  {
    assert key[m - j + 1..m] == key[..m][m - j + 1..];
    assert input[|input| - m..][m - j + 1..] == input[|input| - (j - 1)..];
  }

  /** The longest prefix of the key that ends the input is the one matched. */
  ghost predicate MatchIsLongest(key: seq<Byte>, input: seq<Byte>)
    requires key != []
  {
    var m := Feed(key, input).matched;
    Ends(key, input, m) && forall j :: m < j <= |key| ==> !Ends(key, input, j)
  }

  lemma NotLonger(key: seq<Byte>, input: seq<Byte>, b: Byte, m: nat, j: nat)
    requires FreeOfOverlap(key) && m < |key| && Ends(key, input, m) && forall i :: m < i <= |key| ==> !Ends(key, input, i)
    requires if b == key[m] then m + 1 < j <= |key| else if b == key[0] then 2 <= j <= |key| else 1 <= j <= |key|
    ensures !Ends(key, input + [b], j)
  {
    EndsSnoc(key, input, b, j);
    if j - 1 <= m && Ends(key, input, j - 1) && key[j - 1] == b && j <= m {
      EndsNested(key, input, m, j);
      assert j >= 2 ==> Overlap(key, m, j);
    }
  }

  lemma {:induction false} LongestMatch(key: seq<Byte>, input: seq<Byte>)
    requires key != [] && FreeOfOverlap(key)
    ensures !Feed(key, input).detached ==> MatchIsLongest(key, input) && !Occurs(key, input)
  {
    hide FreeOfOverlap;
    if input == [] {
      assert key[..0] == [];
    } else {
      var before, b := input[..|input| - 1], input[|input| - 1];
      assert input == before + [b];
      LongestMatch(key, before);
      var was, now := Feed(key, before), Feed(key, input);
      if !now.detached {
        if now.matched > 0 {
          EndsSnoc(key, before, b, now.matched);
          assert key[..0] == [];
        }
        forall j | now.matched < j <= |key|
          ensures !Ends(key, input, j)
        {
          NotLonger(key, before, b, was.matched, j);
        }
        NotAtEnd(key, before, b);
      }
    }
  }

  /** The key occurs in a longer input only at its end. */
  lemma NotAtEnd(key: seq<Byte>, input: seq<Byte>, b: Byte)
    requires key != [] && !Occurs(key, input) && !Ends(key, input + [b], |key|)
    ensures !Occurs(key, input + [b])
  {
    var longer := input + [b];
    forall i | 0 <= i <= |longer|
      ensures !OccursAt(key, longer, i)
    {
      if i + |key| == |longer| {
        assert longer[i..i + |key|] == longer[|longer| - |key|..];
        assert key[..|key|] == key;
      } else if i + |key| < |longer| {
        assert longer[i..i + |key|] == input[i..i + |key|];
        assert !OccursAt(key, input, i);
      }
    }
  }

  // ---- A key that overlaps itself is missed ----------------------------------

  lemma {:induction false} FeedKeyPrefix(key: seq<Byte>, m: nat)
    requires m < |key|
    ensures Feed(key, key[..m]) == Matcher(m, false, [])
  {
    if m > 0 {
      FeedKeyPrefix(key, m - 1);
      assert key[..m] == key[..m - 1] + [key[m - 1]];
      FeedSnoc(key, key[..m - 1], key[m - 1]);
    }
  }

  /** A match grows by one byte at a time. */
  lemma {:induction false} MatchGrowsSlowly(key: seq<Byte>, input: seq<Byte>, more: seq<Byte>)
    requires key != [] && !Feed(key, input).detached && Feed(key, input).matched + |more| < |key|
    ensures var m := Feed(key, input + more);
      !m.detached && (m.matched <= Feed(key, input).matched + |more| || m.matched <= 1)
  {
    if more == [] {
      assert input + more == input;
    } else {
      var init, b := more[..|more| - 1], more[|more| - 1];
      MatchGrowsSlowly(key, input, init);
      assert input + more == (input + init) + [b];
      FeedSnoc(key, input + init, b);
    }
  }

  function MissedInput(key: seq<Byte>, m: int, j: int): seq<Byte>
    requires Overlap(key, m, j)
  {
    key[..m] + key[j - 1..]
  }

  /** An input in which a key that overlaps itself occurs unnoticed. */
  lemma OverlapMissed(key: seq<Byte>, m: int, j: int)
    requires Overlap(key, m, j)
    ensures Occurs(key, MissedInput(key, m, j)) && !Feed(key, MissedInput(key, m, j)).detached
  {
    var input := MissedInput(key, m, j);
    var i := m - j + 1;
    assert input[i..i + |key|] == key[i..m] + key[j - 1..];
    assert key == key[..j - 1] + key[j - 1..];
    assert OccursAt(key, input, i);
    FeedKeyPrefix(key, m);
    var start := key[..m] + [key[j - 1]];
    FeedSnoc(key, key[..m], key[j - 1]);
    assert Feed(key, start).matched <= 1;
    MatchGrowsSlowly(key, start, key[j..]);
    assert input == start + key[j..];
  }

  /** The matcher detaches on every input the key occurs in exactly when the key is
      free of overlap. */
  lemma RecognizedIffFreeOfOverlap(key: seq<Byte>)
    requires key != []
    ensures FreeOfOverlap(key) <==> forall input :: Occurs(key, input) ==> Feed(key, input).detached
  {
    hide FreeOfOverlap, Occurs, Overlap;
    if FreeOfOverlap(key) {
      forall input | Occurs(key, input)
        ensures Feed(key, input).detached
      {
        LongestMatch(key, input);
      }
    } else {
      var m, j := SomeOverlap(key);
      OverlapMissed(key, m, j);
    }
  }

  lemma SomeOverlap(key: seq<Byte>) returns (m: int, j: int)
    requires !FreeOfOverlap(key)
    ensures Overlap(key, m, j)
  {
    m, j :| 2 <= j <= m < |key| && Overlap(key, m, j);
  }

  /** For instance a key of three bytes whose first two are alike. */
  lemma RepeatedByteMissed(a: Byte, b: Byte)
    requires a != b
    ensures Occurs([a, a, b], [a, a, a, b]) && !Feed([a, a, b], [a, a, a, b]).detached
  {
    var key := [a, a, b];
    assert key[..1] == [a] && key[1..2] == [a];
    assert Overlap(key, 2, 2);
    OverlapMissed(key, 2, 2);
    assert MissedInput(key, 2, 2) == [a, a, a, b];
  }
}
