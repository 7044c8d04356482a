/** Histogram bounds and the sequential meaning of a histogram.

    Observations and bounds are reals: rounding and NaN are not modelled. The
    only non-finite bound is +Inf, which `check_and_adjust_buckets` drops. */
module Buckets {
  import opened Wrappers

  datatype Bound = Finite(value: real) | PosInf

  const DEFAULT_BUCKETS: seq<Bound> := [
    Finite(0.005), Finite(0.01), Finite(0.025), Finite(0.05), Finite(0.1), Finite(0.25),
    Finite(0.5), Finite(1.0), Finite(2.5), Finite(5.0), Finite(10.0)
  ]

  predicate Less(a: Bound, b: Bound) {
    a.Finite? && (b.PosInf? || a.value < b.value)
  }

  ghost predicate StrictlyIncreasing(bounds: seq<Bound>) {
    forall i, j :: 0 <= i < j < |bounds| ==> Less(bounds[i], bounds[j])
  }

  ghost predicate Increasing(bounds: seq<real>) {
    forall i, j :: 0 <= i < j < |bounds| ==> bounds[i] < bounds[j]
  }

  /** The bounds the caller asked for, with the defaults standing in for none. */
  function Requested(bounds: seq<Bound>): seq<Bound> {
    if bounds == [] then DEFAULT_BUCKETS else bounds
  }

  /** `adjusted` is `bounds` as plain numbers, without a final +Inf. */
  ghost predicate DropsInfinity(bounds: seq<Bound>, adjusted: seq<real>) {
    && (|adjusted| == |bounds| || (|adjusted| + 1 == |bounds| && bounds[|adjusted|] == PosInf))
    && forall i :: 0 <= i < |adjusted| ==> bounds[i] == Finite(adjusted[i])
  }

  /** Checking neighbours is enough: the order is transitive. */
  lemma {:induction false} NeighboursSuffice(bounds: seq<Bound>)
    requires forall i :: 0 <= i < |bounds| - 1 ==> Less(bounds[i], bounds[i + 1])
    ensures StrictlyIncreasing(bounds)
  {
    if |bounds| > 1 {
      var m := |bounds| - 1;
      var front := bounds[..m];
      assert forall i :: 0 <= i < |front| - 1 ==> Less(front[i], front[i + 1]) by {
        forall i | 0 <= i < |front| - 1 ensures Less(front[i], front[i + 1]) {
          assert Less(bounds[i], bounds[i + 1]);
        }
      }
      NeighboursSuffice(front);
      assert Less(bounds[m - 1], bounds[m - 1 + 1]);
      forall i, j | 0 <= i < j < |bounds| ensures Less(bounds[i], bounds[j]) {
        if j < m {
          assert Less(front[i], front[j]);
        } else if i < m - 1 {
          assert Less(front[i], front[m - 1]);
        }
      }
    }
  }

  /** Accepts exactly the strictly increasing bounds; a failure names the first
      offending pair. */
  method CheckAndAdjustBuckets(bounds: seq<Bound>) returns (r: Result<seq<real>, nat>)
    ensures r.Success? <==> StrictlyIncreasing(Requested(bounds))
    ensures r.Success? ==> Increasing(r.value) && DropsInfinity(Requested(bounds), r.value)
    ensures r.Failure? ==>
      && r.error + 1 < |Requested(bounds)|
      && !Less(Requested(bounds)[r.error], Requested(bounds)[r.error + 1])
      && forall i :: 0 <= i < r.error ==> Less(Requested(bounds)[i], Requested(bounds)[i + 1])
  {
    var buckets := Requested(bounds);
    var i := 0;
    while i < |buckets|
      invariant 0 <= i <= |buckets|
      invariant forall k :: 0 <= k < i && k < |buckets| - 1 ==> Less(buckets[k], buckets[k + 1])
    {
      if i < |buckets| - 1 && !Less(buckets[i], buckets[i + 1]) {
        return Failure(i);
      }
      i := i + 1;
    }
    NeighboursSuffice(buckets);
    var finite: seq<real> := [];
    if buckets[|buckets| - 1].PosInf? {
      buckets := buckets[..|buckets| - 1];
    }
    i := 0;
    while i < |buckets|
      invariant 0 <= i <= |buckets| && |finite| == i
      invariant forall k :: 0 <= k < i ==> buckets[k] == Finite(finite[k])
    {
      assert i + 1 < |Requested(bounds)| ==> Less(Requested(bounds)[i], Requested(bounds)[i + 1]);
      finite := finite + [buckets[i].value];
      i := i + 1;
    }
    forall k, l | 0 <= k < l < |finite| ensures finite[k] < finite[l] {
      assert Less(Requested(bounds)[k], Requested(bounds)[l]);
    }
    return Success(finite);
  }

  /** Index of the first bound that holds `v`, or `|bounds|` when none does. */
  function FirstBucket(bounds: seq<real>, v: real): (i: nat)
    ensures i <= |bounds|
    ensures i < |bounds| ==> v <= bounds[i]
    ensures forall k :: 0 <= k < i ==> bounds[k] < v
  {
    FirstBucketFrom(bounds, v, 0)
  }

  function FirstBucketFrom(bounds: seq<real>, v: real, from: nat): (i: nat)
    requires from <= |bounds|
    ensures from <= i <= |bounds|
    ensures i < |bounds| ==> v <= bounds[i]
    ensures forall k :: from <= k < i ==> bounds[k] < v
    decreases |bounds| - from
  {
    if from == |bounds| || v <= bounds[from] then from else FirstBucketFrom(bounds, v, from + 1)
  }

  /** Number of values whose first matching bucket is `i`. */
  function BucketCount(bounds: seq<real>, values: seq<real>, i: nat): nat {
    if values == [] then 0
    else
      BucketCount(bounds, values[..|values| - 1], i)
      + if FirstBucket(bounds, values[|values| - 1]) == i then 1 else 0
  }

  function SumOf(values: seq<real>): real {
    if values == [] then 0.0 else SumOf(values[..|values| - 1]) + values[|values| - 1]
  }

  /** Number of values that are at most `bound`. */
  function CountAtMost(values: seq<real>, bound: real): nat {
    if values == [] then 0
    else CountAtMost(values[..|values| - 1], bound) + if values[|values| - 1] <= bound then 1 else 0
  }

  /** The exposed histogram: what one `proto` call returns. */
  datatype Snapshot = Snapshot(count: nat, sum: real, cumulative: seq<nat>)

  /** The reference meaning: the histogram of `values`, by counting directly. */
  function HistogramOf(bounds: seq<real>, values: seq<real>): Snapshot {
    Snapshot(|values|, SumOf(values), seq(|bounds|, i requires 0 <= i < |bounds| => CountAtMost(values, bounds[i])))
  }

  /** Running sum of bucket counts up to and including bucket `i`. */
  function RunningCount(bounds: seq<real>, values: seq<real>, i: nat): nat {
    BucketCount(bounds, values, i) + if i == 0 then 0 else RunningCount(bounds, values, i - 1)
  }

  lemma {:induction false} RunningCountStep(bounds: seq<real>, values: seq<real>, i: nat)
    requires values != []
    ensures RunningCount(bounds, values, i)
         == RunningCount(bounds, values[..|values| - 1], i)
            + if FirstBucket(bounds, values[|values| - 1]) <= i then 1 else 0
    decreases i
  {
    if i > 0 {
      RunningCountStep(bounds, values, i - 1);
    }
  }

  lemma {:induction false} RunningCountOfNone(bounds: seq<real>, i: nat)
    ensures RunningCount(bounds, [], i) == 0
    decreases i
  {
    if i > 0 {
      RunningCountOfNone(bounds, i - 1);
    }
  }

  /** A value lies in one bucket only, so a running sum never exceeds their number. */
  lemma {:induction false} RunningCountBound(bounds: seq<real>, values: seq<real>, i: nat)
    ensures RunningCount(bounds, values, i) <= |values|
    decreases |values|
  {
    if values == [] {
      RunningCountOfNone(bounds, i);
    } else {
      RunningCountStep(bounds, values, i);
      RunningCountBound(bounds, values[..|values| - 1], i);
    }
  }

  /** First-match bucketing followed by a running sum counts the values at or
      below each bound. */
  lemma {:induction false} RunningCountIsCumulative(bounds: seq<real>, values: seq<real>, i: nat)
    requires Increasing(bounds) && i < |bounds|
    ensures RunningCount(bounds, values, i) == CountAtMost(values, bounds[i])
    decreases |values|
  {
    if values == [] {
      RunningCountOfNone(bounds, i);
    } else {
      var v := values[|values| - 1];
      RunningCountIsCumulative(bounds, values[..|values| - 1], i);
      RunningCountStep(bounds, values, i);
      var f := FirstBucket(bounds, v);
      if f <= i {
        assert v <= bounds[f] <= bounds[i];
      } else {
        assert bounds[i] < v;
      }
    }
  }

  lemma {:induction false} CountAtMostGrows(values: seq<real>, lo: real, hi: real)
    requires lo <= hi
    ensures CountAtMost(values, lo) <= CountAtMost(values, hi) <= |values|
    decreases |values|
  {
    if values != [] {
      CountAtMostGrows(values[..|values| - 1], lo, hi);
    }
  }

  /** The exposed counts never decrease and never exceed the sample count. */
  lemma HistogramIsMonotone(bounds: seq<real>, values: seq<real>, i: nat, j: nat)
    requires Increasing(bounds) && i <= j < |bounds|
    ensures HistogramOf(bounds, values).cumulative[i] <= HistogramOf(bounds, values).cumulative[j]
    ensures HistogramOf(bounds, values).cumulative[j] <= HistogramOf(bounds, values).count
  {
    CountAtMostGrows(values, bounds[i], bounds[j]);
  }

  lemma {:induction false} BucketCountAppend(bounds: seq<real>, a: seq<real>, b: seq<real>, i: nat)
    ensures BucketCount(bounds, a + b, i) == BucketCount(bounds, a, i) + BucketCount(bounds, b, i)
    decreases |b|
  {
    if b == [] {
      assert a + b == a;
    } else {
      assert (a + b)[..|a + b| - 1] == a + b[..|b| - 1];
      BucketCountAppend(bounds, a, b[..|b| - 1], i);
    }
  }

  lemma SumOfOne(v: real)
    ensures SumOf([v]) == v && SumOf([]) == 0.0
  {
    assert [v][..0] == [];
  }

  lemma {:induction false} SumOfAppend(a: seq<real>, b: seq<real>)
    ensures SumOf(a + b) == SumOf(a) + SumOf(b)
    decreases |b|
  {
    if b == [] {
      assert a + b == a;
    } else {
      assert (a + b)[..|a + b| - 1] == a + b[..|b| - 1];
      SumOfAppend(a, b[..|b| - 1]);
    }
  }

  lemma {:induction false} BucketCountBound(bounds: seq<real>, values: seq<real>, i: nat)
    ensures BucketCount(bounds, values, i) <= |values|
    decreases |values|
  {
    if values != [] {
      BucketCountBound(bounds, values[..|values| - 1], i);
    }
  }
}
