// Running sums over a column, as pandas' `cumsum` computes them.
module Series {

  /** The sum of a column. */
  function Sum(xs: seq<nat>): nat
  {
    if xs == [] then 0 else Sum(xs[..|xs| - 1]) + xs[|xs| - 1]
  }

  lemma SumPrefixes(xs: seq<nat>)
    ensures forall k :: 0 <= k < |xs| ==> Sum(xs[..k + 1]) == Sum(xs[..k]) + xs[k]
  {
    forall k | 0 <= k < |xs| ensures Sum(xs[..k + 1]) == Sum(xs[..k]) + xs[k] {
      assert xs[..k + 1][..k] == xs[..k];
    }
  }

  /** `cumsum()`: entry k is the sum of entries 0..k; each step adds the next entry. */
  function CumSum(xs: seq<nat>): (r: seq<nat>)
    ensures |r| == |xs|
    ensures |xs| > 0 ==> r[0] == xs[0]
    ensures forall k :: 0 < k < |xs| ==> r[k] == r[k - 1] + xs[k]
  {
    SumPrefixes(xs);
    seq(|xs|, k requires 0 <= k < |xs| => Sum(xs[..k + 1]))
  }
}
