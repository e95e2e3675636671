/** Lists without repetition, and sizes. */
module Sequences {
  ghost predicate Distinct<T>(s: seq<T>) {
    forall i, j :: 0 <= i < j < |s| ==> s[i] != s[j]
  }

  lemma SubsetSize<T>(a: set<T>, b: set<T>)
    requires a <= b
    ensures |a| <= |b|
  {
    assert b == a + (b - a);
  }

  lemma {:induction false} DistinctCardinality<T>(s: seq<T>, within: set<T>)
    requires Distinct(s)
    requires forall x :: x in s ==> x in within
    ensures |s| <= |within|
  {
    if s != [] {
      var t := s[..|s| - 1];
      DistinctCardinality(t, within - {s[|s| - 1]});
    }
  }
}
