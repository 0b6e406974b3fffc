/** Threshold banding, the selection step of the striped and rocky
    materials: an if/else-if chain that compares one scalar against an
    ordered list of thresholds and takes the branch of the first comparison
    that holds. */
module Bands {

  /** Strictly increasing thresholds. */
  ghost predicate Increasing(ts: seq<real>) {
    forall i, j :: 0 <= i < j < |ts| ==> ts[i] < ts[j]
  }

  /** Strictly decreasing thresholds. */
  ghost predicate Decreasing(ts: seq<real>) {
    forall i, j :: 0 <= i < j < |ts| ==> ts[i] > ts[j]
  }

  /** The chain `if v < ts[0] {..} else if v < ts[1] {..} .. else {..}`:
      the index of the branch taken, |ts| for the final else. */
  function Ascending(v: real, ts: seq<real>): (k: nat)
    ensures k <= |ts|
    ensures forall j :: 0 <= j < k ==> ts[j] <= v
    ensures k < |ts| ==> v < ts[k]
  {
    if ts == [] then 0
    else if v < ts[0] then 0
    else 1 + Ascending(v, ts[1..])
  }

  /** The chain `if v > ts[0] {..} else if v > ts[1] {..} .. else {..}`. */
  function Descending(v: real, ts: seq<real>): (k: nat)
    ensures k <= |ts|
    ensures forall j :: 0 <= j < k ==> v <= ts[j]
    ensures k < |ts| ==> v > ts[k]
  {
    if ts == [] then 0
    else if v > ts[0] then 0
    else 1 + Descending(v, ts[1..])
  }

  /** With increasing thresholds, band k is exactly [ts[k-1], ts[k]). */
  lemma {:induction false} AscendingBand(v: real, ts: seq<real>, k: nat)
    requires Increasing(ts) && k <= |ts|
    ensures Ascending(v, ts) == k <==> (k == 0 || ts[k - 1] <= v) && (k == |ts| || v < ts[k])
  {
    if ts != [] && ts[0] <= v && k > 0 {
      var rest := ts[1..];
      assert Increasing(rest) by {
        forall i, j | 0 <= i < j < |rest| ensures rest[i] < rest[j] {
          assert rest[i] == ts[i + 1] && rest[j] == ts[j + 1];
        }
      }
      AscendingBand(v, rest, k - 1);
      assert k - 1 == 0 || rest[k - 2] == ts[k - 1];
      assert k - 1 == |rest| || rest[k - 1] == ts[k];
    }
  }

  /** A larger value never falls into an earlier ascending band. */
  lemma {:induction false} AscendingMonotone(v: real, w: real, ts: seq<real>)
    requires Increasing(ts) && v <= w
    ensures Ascending(v, ts) <= Ascending(w, ts)
  {
    if ts != [] && ts[0] <= v {
      var rest := ts[1..];
      assert Increasing(rest) by {
        forall i, j | 0 <= i < j < |rest| ensures rest[i] < rest[j] {
          assert rest[i] == ts[i + 1] && rest[j] == ts[j + 1];
        }
      }
      AscendingMonotone(v, w, rest);
    }
  }

  /** A value equal to a threshold goes to the band above it. */
  lemma AscendingOnThreshold(ts: seq<real>, k: nat)
    requires Increasing(ts) && k < |ts|
    ensures Ascending(ts[k], ts) == k + 1
  {
    AscendingBand(ts[k], ts, k + 1);
  }

  /** With decreasing thresholds, band k is exactly (ts[k], ts[k-1]]. */
  lemma {:induction false} DescendingBand(v: real, ts: seq<real>, k: nat)
    requires Decreasing(ts) && k <= |ts|
    ensures Descending(v, ts) == k <==> (k == 0 || v <= ts[k - 1]) && (k == |ts| || v > ts[k])
  {
    if ts != [] && v <= ts[0] && k > 0 {
      var rest := ts[1..];
      assert Decreasing(rest) by {
        forall i, j | 0 <= i < j < |rest| ensures rest[i] > rest[j] {
          assert rest[i] == ts[i + 1] && rest[j] == ts[j + 1];
        }
      }
      DescendingBand(v, rest, k - 1);
      assert k - 1 == 0 || rest[k - 2] == ts[k - 1];
      assert k - 1 == |rest| || rest[k - 1] == ts[k];
    }
  }

  /** A larger value never falls into a later descending band. */
  lemma {:induction false} DescendingMonotone(v: real, w: real, ts: seq<real>)
    requires Decreasing(ts) && v <= w
    ensures Descending(w, ts) <= Descending(v, ts)
  {
    if ts != [] && w <= ts[0] {
      var rest := ts[1..];
      assert Decreasing(rest) by {
        forall i, j | 0 <= i < j < |rest| ensures rest[i] > rest[j] {
          assert rest[i] == ts[i + 1] && rest[j] == ts[j + 1];
        }
      }
      DescendingMonotone(v, w, rest);
    }
  }

  /** A value equal to a threshold fails the strict `>` and goes to the next band. */
  lemma DescendingOnThreshold(ts: seq<real>, k: nat)
    requires Decreasing(ts) && k < |ts|
    ensures Descending(ts[k], ts) == k + 1
  {
    DescendingBand(ts[k], ts, k + 1);
  }

  /** Every region of an increasing chain at once: the form the
      materials' chains use to name the branch they take. */
  lemma {:induction false} AscendingRegions(v: real, ts: seq<real>)
    requires Increasing(ts)
    ensures |ts| > 0 && v < ts[0] ==> Ascending(v, ts) == 0
    ensures forall k :: 0 < k < |ts| && ts[k - 1] <= v < ts[k] ==> Ascending(v, ts) == k
    ensures |ts| > 0 && ts[|ts| - 1] <= v ==> Ascending(v, ts) == |ts|
  {
    forall k | 0 <= k <= |ts| ensures Ascending(v, ts) == k <==> (k == 0 || ts[k - 1] <= v) && (k == |ts| || v < ts[k]) {
      AscendingBand(v, ts, k);
    }
  }

  /** Every region of a decreasing chain at once. */
  lemma {:induction false} DescendingRegions(v: real, ts: seq<real>)
    requires Decreasing(ts)
    ensures |ts| > 0 && v > ts[0] ==> Descending(v, ts) == 0
    ensures forall k :: 0 < k < |ts| && ts[k] < v <= ts[k - 1] ==> Descending(v, ts) == k
    ensures |ts| > 0 && v <= ts[|ts| - 1] ==> Descending(v, ts) == |ts|
  {
    forall k | 0 <= k <= |ts| ensures Descending(v, ts) == k <==> (k == 0 || v <= ts[k - 1]) && (k == |ts| || v > ts[k]) {
      DescendingBand(v, ts, k);
    }
  }
}
