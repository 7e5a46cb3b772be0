/** Lists of distinct numbers below a bound. */
module Distinct {
  ghost predicate Below(order: seq<nat>, n: nat) {
    forall k :: 0 <= k < |order| ==> order[k] < n
  }

  ghost predicate AllDistinct(order: seq<nat>) {
    forall j, k :: 0 <= j < k < |order| ==> order[j] != order[k]
  }

  function Range(n: nat): (r: set<nat>)
    ensures forall i: nat :: i in r <==> i < n
    ensures |r| == n
  {
    if n == 0 then {}
    else
      var r := Range(n - 1);
      assert n - 1 !in r;
      r + {n - 1}
  }

  function Members(order: seq<nat>): (r: set<nat>)
    ensures forall x :: x in r <==> x in order
  {
    if order == [] then {}
    else
      var n := |order| - 1;
      assert order == order[..n] + [order[n]];
      Members(order[..n]) + {order[n]}
  }

  lemma {:induction false} DistinctSize(order: seq<nat>)
    requires AllDistinct(order)
    ensures |Members(order)| == |order|
  {
    if order != [] {
      var n := |order| - 1;
      DistinctSize(order[..n]);
      assert order[n] !in order[..n];
    }
  }

  /** Such a list is at most `n` long, and is `n` long exactly when it has every number. */
  lemma CoversIff(order: seq<nat>, n: nat)
    requires Below(order, n) && AllDistinct(order)
    ensures |order| <= n
    ensures |order| == n <==> Members(order) == Range(n)
  {
    DistinctSize(order);
    var have, all := Members(order), Range(n);
    assert have <= all;
    assert |all - have| == |all| - |have|;
    if |have| == |all| {
      assert all - have == {};
      assert all == have + (all - have);
    }
  }
}
