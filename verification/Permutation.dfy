/** Sequences with the same elements in another order. */
module Permutation {

  function Without<T>(s: seq<T>, j: nat): seq<T>
    requires j < |s|
  {
    s[..j] + s[j + 1..]
  }

  /** Dropping an inner element leaves the last one in place. */
  lemma WithoutInner<T>(s: seq<T>, j: nat)
    requires j < |s| - 1
    ensures var t := Without(s, j);
            |t| == |s| - 1 && t[..|t| - 1] == Without(s[..|s| - 1], j) && t[|t| - 1] == s[|s| - 1]
  {
  }

  lemma WithoutMultiset<T>(s: seq<T>, j: nat)
    requires j < |s|
    ensures multiset(s) == multiset(Without(s, j)) + multiset{s[j]}
  {
    assert s == s[..j] + [s[j]] + s[j + 1..];
  }

  /** The last element of one occurs in the other; without it they still match. */
  lemma Match<T>(s: seq<T>, t: seq<T>) returns (j: nat)
    requires s != [] && multiset(s) == multiset(t)
    ensures j < |t| && t[j] == s[|s| - 1]
    ensures multiset(s[..|s| - 1]) == multiset(Without(t, j))
  {
    var k := |s| - 1;
    assert s[k] in multiset(s);
    var i :| 0 <= i < |t| && t[i] == s[k];
    j := i;
    WithoutMultiset(t, j);
    WithoutMultiset(s, k);
    assert Without(s, k) == s[..k];
    assert multiset(s[..k]) == multiset(s) - multiset{s[k]};
    assert multiset(Without(t, j)) == multiset(t) - multiset{t[j]};
  }
}
