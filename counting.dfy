/** Small facts about finite sets and sums used by several modules. */
module Counting {
  /** A set of integers drawn from `[0, n)` has at most `n` elements. */
  lemma {:induction false} RangeBound(s: set<int>, n: nat)
    requires forall x :: x in s ==> 0 <= x < n
    ensures |s| <= n
  {
    if n > 0 {
      var rest := s - {n - 1};
      assert forall x :: x in rest ==> 0 <= x < n - 1;
      RangeBound(rest, n - 1);
      if n - 1 in s {
        assert s == rest + {n - 1};
      } else {
        assert s == rest;
      }
    } else {
      assert forall y :: y !in s;
      assert s == {};
    }
  }

  /** A subset is no larger than its superset. */
  lemma SubsetCard<T>(a: set<T>, b: set<T>)
    requires a <= b
    ensures |a| <= |b|
  {
    assert b == a + (b - a);
  }
}
