/** Fisher–Yates `shuffle`: walks the array from the back and swaps each
    position with one chosen at random at or before it. The random index is
    a nondeterministic choice in the range `Math.floor(Math.random() * (i + 1))`
    can produce. */
module Shuffling {

  /** Shuffles `a` in place and returns the same array, holding the same
      elements as before. */
  method Shuffle<T>(a: array<T>) returns (r: array<T>)
    modifies a
    ensures r == a
    ensures multiset(a[..]) == multiset(old(a[..]))
  {
    var i := a.Length - 1;
    while i > 0
      invariant -1 <= i < a.Length
      invariant multiset(a[..]) == multiset(old(a[..]))
    {
      var j :| 0 <= j <= i;
      a[i], a[j] := a[j], a[i];
      i := i - 1;
    }
    return a;
  }

  /** `shuffle([...xs])`: a shuffled copy of a list, which has the same
      length and the same elements as the list. */
  method ShuffledCopy<T>(xs: seq<T>) returns (r: seq<T>)
    ensures |r| == |xs|
    ensures multiset(r) == multiset(xs)
  {
    var a := new T[|xs|](i requires 0 <= i < |xs| => xs[i]);
    assert a[..] == xs;
    a := Shuffle(a);
    r := a[..];
  }

  /** No value occurs twice: stated on the multiset so that it carries over
      to every permutation. */
  predicate NoRepeats<T(==)>(s: seq<T>)
  {
    forall x | x in multiset(s) :: multiset(s)[x] == 1
  }

  /** A list whose last element is new to it keeps having no repeats. */
  lemma NoRepeatsSnoc<T>(s: seq<T>, x: T)
    requires NoRepeats(s) && x !in s
    ensures NoRepeats(s + [x])
  {
    assert multiset(s + [x]) == multiset(s) + multiset{x};
  }

  /** A permutation of a list without repeats has none either, and holds the
      same values. */
  lemma NoRepeatsPermutation<T>(s: seq<T>, t: seq<T>)
    requires multiset(s) == multiset(t) && NoRepeats(s)
    ensures NoRepeats(t)
    ensures forall x :: x in s <==> x in t
  {
    forall x
      ensures x in s <==> x in t
    {
      assert x in s <==> x in multiset(s);
      assert x in t <==> x in multiset(t);
    }
  }

  /** Without repeats, two positions hold different values. */
  lemma NoRepeatsDistinct<T>(s: seq<T>, i: int, j: int)
    requires NoRepeats(s) && 0 <= i < j < |s|
    ensures s[i] != s[j]
  {
    assert s == s[..j] + s[j..];
    assert multiset(s) == multiset(s[..j]) + multiset(s[j..]);
    assert s[..j][i] == s[i];
    assert s[j..][0] == s[j];
    assert s[i] in multiset(s[..j]);
    assert multiset(s)[s[i]] == 1;
    assert s[i] !in multiset(s[j..]);
  }
}
