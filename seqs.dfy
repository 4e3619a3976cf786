/** Sequence helpers shared by the losses: index validity, gathering by an
    index sequence (torch's `t[idx]` on the leading dimension) and finite
    sums (torch's `sum` over a dimension). */
module Seqs {
  import opened RealArith

  /** Every index is a valid position in a sequence of length `n`. */
  predicate InRange(idx: seq<nat>, n: nat) {
    forall k :: 0 <= k < |idx| ==> idx[k] < n
  }

  /** Entry `k` of the result is entry `idx[k]` of `s`. */
  function Gather<T>(s: seq<T>, idx: seq<nat>): (r: seq<T>)
    requires InRange(idx, |s|)
    ensures |r| == |idx|
    ensures forall k :: 0 <= k < |idx| ==> r[k] == s[idx[k]]
  {
    seq(|idx|, k requires 0 <= k < |idx| => s[idx[k]])
  }

  function Sum(s: seq<real>): real {
    if s == [] then 0.0 else Sum(s[..|s| - 1]) + s[|s| - 1]
  }

  lemma {:induction false} SumNonNegative(s: seq<real>)
    requires forall k :: 0 <= k < |s| ==> s[k] >= 0.0
    ensures Sum(s) >= 0.0
  {
    if s != [] {
      SumNonNegative(s[..|s| - 1]);
    }
  }

  lemma {:induction false} SumOfZeros(s: seq<real>)
    requires forall k :: 0 <= k < |s| ==> s[k] == 0.0
    ensures Sum(s) == 0.0
  {
    if s != [] {
      SumOfZeros(s[..|s| - 1]);
    }
  }

  /** `sum(w * t)` over matching positions. */
  function WeightedSum(w: seq<real>, t: seq<real>): real
    requires |w| == |t|
  {
    Sum(seq(|w|, i requires 0 <= i < |w| => w[i] * t[i]))
  }

  lemma WeightedSumNonNegative(w: seq<real>, t: seq<real>)
    requires |w| == |t|
    requires forall i :: 0 <= i < |w| ==> w[i] >= 0.0 && t[i] >= 0.0
    ensures WeightedSum(w, t) >= 0.0
  {
    var products := seq(|w|, i requires 0 <= i < |w| => w[i] * t[i]);
    forall i | 0 <= i < |w| ensures products[i] >= 0.0 {
      ProductNonNegative(w[i], t[i]);
    }
    SumNonNegative(products);
  }

  lemma WeightedSumOfZeros(w: seq<real>, t: seq<real>)
    requires |w| == |t|
    requires forall i :: 0 <= i < |t| ==> t[i] == 0.0
    ensures WeightedSum(w, t) == 0.0
  {
    var products := seq(|w|, i requires 0 <= i < |w| => w[i] * t[i]);
    SumOfZeros(products);
  }
}
