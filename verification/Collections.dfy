/** Sizes of sets and of sequences without repetition. */
module Collections {

  ghost predicate Distinct<T>(s: seq<T>) {
    forall i, j :: 0 <= i < j < |s| ==> s[i] != s[j]
  }

  lemma SubsetSize<T>(a: set<T>, b: set<T>)
    requires a <= b
    ensures |a| <= |b|
    ensures a != b ==> |a| < |b|
  {
    assert b == a + (b - a);
    assert a != b ==> b - a != {};
  }

  // A sequence has at least as many places as different elements.
  lemma {:induction false} ElementsBound<T>(s: seq<T>, xs: set<T>)
    requires forall x :: x in xs ==> x in s
    ensures |xs| <= |s|
  {
    if s != [] {
      var x := s[|s|-1];
      ElementsBound(s[..|s|-1], xs - {x});
      assert |xs| <= |xs - {x}| + 1;
    } else {
      assert xs == {};
    }
  }

  // Without repetition it has no more places than a set its elements come from.
  lemma {:induction false} DistinctBound<T>(s: seq<T>, xs: set<T>)
    requires Distinct(s) && forall i :: 0 <= i < |s| ==> s[i] in xs
    ensures |s| <= |xs|
  {
    if s != [] {
      var x := s[|s|-1];
      DistinctBound(s[..|s|-1], xs - {x});
    }
  }
}
