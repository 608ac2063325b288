/** Sizes of sets of small numbers. */
module Counting {

  lemma {:induction false} Below(n: nat) returns (all: set<nat>)
    ensures |all| == n && forall i: nat :: i in all <==> i < n
  {
    if n == 0 {
      all := {};
    } else {
      all := Below(n - 1);
      all := all + {n - 1};
    }
  }

  lemma SameSize(a: set<nat>, b: set<nat>)
    requires a <= b && |a| == |b|
    ensures a == b
  {
    assert b == a + (b - a);
    assert |a + (b - a)| == |a| + |b - a|;
  }
}
