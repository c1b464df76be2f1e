/** Lists of places in another list, from the first to the last. */
module Indices {
  predicate Increase(at: seq<nat>) { forall i, j :: 0 <= i < j < |at| ==> at[i] < at[j] }

  lemma OneMoreBehind(at: seq<nat>, n: nat)
    requires Increase(at) && forall i :: 0 <= i < |at| ==> at[i] < n
    ensures Increase(at + [n]) && forall k: nat :: k in at + [n] <==> k in at || k == n
  {
  }

  lemma ZeroInFront(at: seq<nat>)
    requires Increase(at) && forall i :: 0 <= i < |at| ==> at[i] > 0
    ensures Increase([0] + at) && forall k: nat :: k in [0] + at <==> k in at || k == 0
  {
  }

  /** The same places in a list with `m` more elements in front. */
  function Shifted(at: seq<nat>, m: nat): (r: seq<nat>)
    ensures |r| == |at|
  {
    seq(|at|, k requires 0 <= k < |at| => at[k] + m)
  }

  lemma ShiftedIncrease(at: seq<nat>, m: nat)
    requires Increase(at)
    ensures Increase(Shifted(at, m)) && forall k: nat :: k in at ==> k + m in Shifted(at, m)
  {
    forall k: nat | k in at ensures k + m in Shifted(at, m) {
      var i :| 0 <= i < |at| && at[i] == k;
      assert Shifted(at, m)[i] == k + m;
    }
  }
}
