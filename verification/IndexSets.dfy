/** Counting: n distinct indices below n are all of them. */
module IndexSets {
  lemma {:induction false} Pigeons(a: set<nat>, n: nat)
    requires forall x :: x in a ==> x < n
    ensures |a| <= n
    ensures |a| == n ==> forall i: nat :: i < n ==> i in a
    decreases n
  {
    if n == 0 {
      assert a <= {};
    } else {
      var rest := a - {n - 1};
      Pigeons(rest, n - 1);
      if n - 1 in a {
        assert rest + {n - 1} == a;
        assert |rest| == |a| - 1;
        if |a| == n {
          forall i: nat | i < n ensures i in a {
            assert i < n - 1 ==> i in rest;
          }
        }
      } else {
        assert rest == a;
      }
    }
  }
}
