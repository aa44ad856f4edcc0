/** Running sums of axis sizes: the value that the cumulative cache of an
    axis has to hold, and the facts about it the layout relies on. */
module Sums {

  /** Sum of a sequence of sizes, folded from the left exactly as a running
      total visits them. */
  function Sum(s: seq<real>): (r: real)
  {
    if |s| == 0 then 0.0 else Sum(s[..|s| - 1]) + s[|s| - 1]
  }

  /** Non-decreasing order, the precondition of a binary search. */
  predicate Sorted(s: seq<real>)
  {
    forall i, j :: 0 <= i <= j < |s| ==> s[i] <= s[j]
  }

  predicate NonNegative(s: seq<real>)
  {
    forall i :: 0 <= i < |s| ==> s[i] >= 0.0
  }

  /** `acc` is the inclusive prefix-sum sequence of `ws`: its entry `i` is
      the end offset of index `i`. */
  predicate IsPrefixSums(acc: seq<real>, ws: seq<real>)
  {
    |acc| == |ws| && forall i :: 0 <= i < |ws| ==> acc[i] == Sum(ws[..i + 1])
  }

  /** One more entry adds its own size to the running sum. */
  lemma SumStep(ws: seq<real>, i: nat)
    requires i < |ws|
    ensures Sum(ws[..i + 1]) == Sum(ws[..i]) + ws[i]
  {
    assert ws[..i + 1][..i] == ws[..i];
  }

  /** With non-negative sizes a longer prefix never has a smaller sum. */
  lemma {:induction false} SumPrefixMonotone(ws: seq<real>, i: nat, j: nat)
    requires NonNegative(ws)
    requires i <= j <= |ws|
    ensures Sum(ws[..i]) <= Sum(ws[..j])
  {
    if i < j {
      SumPrefixMonotone(ws, i, j - 1);
      SumStep(ws, j - 1);
    }
  }

  /** Prefix sums of non-negative sizes are non-decreasing, so they can be
      binary searched. */
  lemma PrefixSumsSorted(acc: seq<real>, ws: seq<real>)
    requires IsPrefixSums(acc, ws)
    requires NonNegative(ws)
    ensures Sorted(acc)
  {
    forall i, j | 0 <= i <= j < |acc|
      ensures acc[i] <= acc[j]
    {
      SumPrefixMonotone(ws, i + 1, j + 1);
    }
  }
}
