// The figures finalise_collection_cycle derives from the per-node latency
// lists: each node's mean latency, the number of nodes collected from, and the
// cycle's reliability.

module Metrics {
  import opened Wrappers

  /** sum() of a list, added up from the left. */
  function Sum(xs: seq<real>): real {
    if |xs| == 0 then 0.0 else Sum(xs[..|xs| - 1]) + xs[|xs| - 1]
  }

  /** A node's mean latency: sum / len for a non-empty list, and no value for an empty one. */
  function Mean(xs: seq<real>): (m: Option<real>)
    ensures m.None? <==> |xs| == 0
  {
    if |xs| == 0 then None else Some(Sum(xs) / |xs| as real)
  }

  /** A sum of values in [lo, hi] lies between len * lo and len * hi. */
  lemma {:induction false} SumBounds(xs: seq<real>, lo: real, hi: real)
    requires forall i :: 0 <= i < |xs| ==> lo <= xs[i] <= hi
    ensures |xs| as real * lo <= Sum(xs) <= |xs| as real * hi
  {
    if |xs| > 0 {
      SumBounds(xs[..|xs| - 1], lo, hi);
      assert (|xs| - 1) as real * lo + lo == |xs| as real * lo;
      assert (|xs| - 1) as real * hi + hi == |xs| as real * hi;
    }
  }

  /** The mean of latencies in [lo, hi] is in [lo, hi]: between the fastest and the slowest exchange. */
  lemma MeanWithinBounds(xs: seq<real>, lo: real, hi: real)
    requires |xs| > 0
    requires forall i :: 0 <= i < |xs| ==> lo <= xs[i] <= hi
    ensures lo <= Mean(xs).value <= hi
  {
    SumBounds(xs, lo, hi);
    var n := |xs| as real;
    assert Sum(xs) / n * n == Sum(xs);
  }

  /** Number of nodes with at least one latency: the SNs_collected_from counter. */
  function CollectedFrom(latencies: seq<seq<real>>): (c: nat)
    ensures c <= |latencies|
  {
    if |latencies| == 0 then 0
    else CollectedFrom(latencies[..|latencies| - 1]) + (if |latencies[|latencies| - 1]| > 0 then 1 else 0)
  }

  /** Every node was collected from exactly when no latency list is empty. */
  lemma {:induction false} CollectedFromAll(latencies: seq<seq<real>>)
    ensures CollectedFrom(latencies) == |latencies| <==> forall i :: 0 <= i < |latencies| ==> |latencies[i]| > 0
  {
    if |latencies| > 0 {
      var init := latencies[..|latencies| - 1];
      CollectedFromAll(init);
      assert forall i :: 0 <= i < |init| ==> init[i] == latencies[i];
    }
  }

  /** No node was collected from exactly when every latency list is empty. */
  lemma {:induction false} CollectedFromNone(latencies: seq<seq<real>>)
    ensures CollectedFrom(latencies) == 0 <==> forall i :: 0 <= i < |latencies| ==> |latencies[i]| == 0
  {
    if |latencies| > 0 {
      var init := latencies[..|latencies| - 1];
      CollectedFromNone(init);
      assert forall i :: 0 <= i < |init| ==> init[i] == latencies[i];
    }
  }

  /** Reliability: the fraction of the nodes collected from, and no value without nodes. */
  function Reliability(collected: nat, nodes: nat): (r: Option<real>)
    ensures r.None? <==> nodes == 0
    ensures r.Some? && collected <= nodes ==> 0.0 <= r.value <= 1.0
    ensures r.Some? ==> (r.value == 1.0 <==> collected == nodes)
    ensures r.Some? ==> (r.value == 0.0 <==> collected == 0)
  {
    if nodes == 0 then None else Some(collected as real / nodes as real)
  }

  /** The reliability of a cycle lies in [0, 1], and is 1 exactly when every node was collected from. */
  lemma CycleReliability(latencies: seq<seq<real>>)
    requires |latencies| > 0
    ensures var r := Reliability(CollectedFrom(latencies), |latencies|).value;
      && 0.0 <= r <= 1.0
      && (r == 1.0 <==> forall i :: 0 <= i < |latencies| ==> |latencies[i]| > 0)
  {
    CollectedFromAll(latencies);
  }
}
