/** Adding up a weight over a sequence, to count the threads that are in the way of another. */
module Tally {

  function Sum<T>(xs: seq<T>, weight: T -> nat): nat {
    if xs == [] then 0 else weight(xs[0]) + Sum(xs[1..], weight)
  }

  lemma {:induction false} SumUpdate<T>(xs: seq<T>, i: nat, x: T, weight: T -> nat)
    requires i < |xs|
    ensures Sum(xs[i := x], weight) == Sum(xs, weight) - weight(xs[i]) + weight(x)
    ensures weight(xs[i]) <= Sum(xs, weight)
  {
    if i == 0 {
      assert xs[i := x][1..] == xs[1..];
    } else {
      assert xs[i := x][1..] == xs[1..][i - 1 := x];
      SumUpdate(xs[1..], i - 1, x, weight);
    }
  }

  lemma {:induction false} SumAppend<T>(xs: seq<T>, x: T, weight: T -> nat)
    ensures Sum(xs + [x], weight) == Sum(xs, weight) + weight(x)
  {
    if xs == [] {
      assert [x][1..] == [];
    } else {
      assert (xs + [x])[1..] == xs[1..] + [x];
      SumAppend(xs[1..], x, weight);
    }
  }

  lemma {:induction false} SumOrder<T>(xs: seq<T>, lighter: T -> nat, heavier: T -> nat)
    requires forall i :: 0 <= i < |xs| ==> lighter(xs[i]) <= heavier(xs[i])
    ensures Sum(xs, lighter) <= Sum(xs, heavier)
  {
    if xs == [] {
    } else {
      SumOrder(xs[1..], lighter, heavier);
    }
  }

  lemma {:induction false} SumAtMost<T>(xs: seq<T>, weight: T -> nat, bound: nat)
    requires forall i :: 0 <= i < |xs| ==> weight(xs[i]) <= bound
    ensures Sum(xs, weight) <= bound * |xs|
  {
    if xs == [] {
    } else {
      SumAtMost(xs[1..], weight, bound);
    }
  }
}
