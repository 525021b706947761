/**
 * The histogram itself (histogram.go): a bounded list of bins updated in place by `Add`
 * and `trim`, and the queries `Mean`, `Variance`, `Quantile`, `CDF` and `Count`. Each
 * method is proved against the functions of `HistogramSpec`.
 */
module Histograms {
  import opened Util
  import opened Arith
  import opened Vectors
  import opened HistogramSpec

  /**
   * The closest-pair scan of `trim`: every ordered pair `(i, j)` with `i != j`, in order of
   * `i` then `j`, replacing the candidate only on a strictly smaller distance. The source
   * starts from the sentinel distance 1e99; here the first pair visited is the first
   * candidate.
   */
  method FindClosestPair(bins: seq<Bin>, d: nat) returns (minI: nat, minJ: nat)
    requires AllWellFormed(bins, d) && |bins| >= 2
    ensures IsClosestPair(bins, d, minI, minJ)
  {
    var n := |bins|;
    var found := false;
    var minDelta := 0.0;
    minI, minJ := 0, 0;
    for i := 0 to n
      invariant Scanned(bins, d, found, minI, minJ, minDelta, i, 0)
    {
      for j := 0 to n
        invariant Scanned(bins, d, found, minI, minJ, minDelta, i, j)
      {
        ScanStep(bins, d, found, minI, minJ, minDelta, i, j);
        if i == j {
          continue;
        }
        var delta := SquaredDistance(bins[i].vec, bins[j].vec);
        if !found || delta < minDelta {
          minDelta := delta;
          minI, minJ := i, j;
          found := true;
        }
      }
      ScanNextRow(bins, d, found, minI, minJ, minDelta, i);
    }
    assert ScanBefore(0, 1, n, 0);
  }

  /**
   * The scan of `Add`: the index of the first bin whose representative equals `v`, or
   * `|bins|` when there is none.
   */
  method FindBin(bins: seq<Bin>, v: Vector) returns (i: nat)
    ensures i == ProbeIndex(bins, v)
  {
    i := 0;
    while i < |bins| && !Equals(bins[i].vec, v)
      invariant i <= |bins|
      invariant forall k :: 0 <= k < i ==> bins[k].vec != v
    {
      i := i + 1;
    }
  }

  /**
   * The first loop of `Mean`: a fresh array holding, for every coordinate, the sum over
   * the bins of representative times weight.
   */
  method FirstMoments(bins: seq<Bin>, d: nat) returns (sum: array<real>)
    requires AllShaped(bins, d)
    ensures fresh(sum) && sum.Length == d
    ensures forall k :: 0 <= k < d ==> sum[k] == MomentSum(bins, First, k)
  {
    sum := new real[d](_ => 0.0);
    for i := 0 to |bins|
      invariant forall k :: 0 <= k < d ==> sum[k] == MomentSum(bins[..i], First, k)
    {
      for j := 0 to d
        invariant forall k :: 0 <= k < j ==> sum[k] == MomentSum(bins[..i + 1], First, k)
        invariant forall k :: j <= k < d ==> sum[k] == MomentSum(bins[..i], First, k)
      {
        MomentSumSnoc(bins, i, First, j);
        sum[j] := sum[j] + bins[i].vec[j] * bins[i].count as real;
      }
    }
    assert bins[..|bins|] == bins;
  }

  /**
   * The first loop of `Variance`: a fresh array holding, for every coordinate, the sum
   * over the bins of weight times (variance plus squared representative).
   */
  method SecondMoments(bins: seq<Bin>, d: nat) returns (sum: array<real>)
    requires AllShaped(bins, d)
    ensures fresh(sum) && sum.Length == d
    ensures forall k :: 0 <= k < d ==> sum[k] == MomentSum(bins, Second, k)
  {
    sum := new real[d](_ => 0.0);
    for i := 0 to |bins|
      invariant forall k :: 0 <= k < d ==> sum[k] == MomentSum(bins[..i], Second, k)
    {
      for j := 0 to d
        invariant forall k :: 0 <= k < j ==> sum[k] == MomentSum(bins[..i + 1], Second, k)
        invariant forall k :: j <= k < d ==> sum[k] == MomentSum(bins[..i], Second, k)
      {
        MomentSumSnoc(bins, i, Second, j);
        var term := bins[i].count as real * (bins[i].variance[j] + bins[i].vec[j] * bins[i].vec[j]);
        assert term == BinMoment(bins[i], Second, j);
        sum[j] := sum[j] + term;
      }
    }
    assert bins[..|bins|] == bins;
  }

  /**
   * The inner loop of `CDF`: the weight of bin `b` scaled, coordinate by coordinate, by
   * the factor of `x` against the bin's box.
   */
  method BinMass(b: Bin, x: Vector) returns (count: real)
    requires |x| <= |b.min| && |x| <= |b.max|
    ensures count == Mass(b, x, |x|)
  {
    count := b.count as real;
    for j := 0 to |x|
      invariant count == Mass(b, x, j)
    {
      var factor: real;
      var xj, min, max := x[j], b.min[j], b.max[j];
      if xj < min {
        factor := 1.0;
      } else if xj >= max {
        factor := 0.0;
      } else {
        factor := (xj - min) / (max - min);
      }
      MassStep(b, x, j, count, factor);
      count := count * factor;
    }
  }

  class Histogram {
    var bins: seq<Bin>
    var maxbins: int
    var total: nat
    var dimension: nat
    /** The observations `Add` accepted, in order. */
    ghost var observations: seq<Vector>

    /**
     * The histogram invariant: the list fits the budget, every bin is well formed, the
     * weights sum to `total`, and `total` counts the accepted observations.
     */
    ghost predicate Valid()
      reads this
    {
      maxbins >= 1 && |bins| <= maxbins && AllWellFormed(bins, dimension) &&
      Weight(bins) == total && total == |observations|
    }

    /** `NewHistogram(n, d)`: no bins, budget `n`, dimension `d`. */
    constructor (n: int, d: nat)
      requires n >= 1
      ensures Valid()
      ensures bins == [] && maxbins == n && total == 0 && dimension == d && observations == []
    {
      bins := [];
      maxbins := n;
      total := 0;
      dimension := d;
      observations := [];
    }

    /**
     * `Add`: an observation of another dimension is ignored. Otherwise `total` goes up by
     * one; the first bin sitting at the all-zero vector gains a unit of weight, or else the
     * singleton bin of the observation is appended and `trim` runs.
     */
    method Add(values: Vector)
      requires Valid()
      modifies this
      ensures Valid()
      ensures maxbins == old(maxbins) && dimension == old(dimension)
      ensures |values| != dimension ==>
        bins == old(bins) && total == old(total) && observations == old(observations)
      ensures |values| == dimension ==>
        total == old(total) + 1 && observations == old(observations) + [values] &&
        Reaches(Insert(old(bins), values, Zeros(|values|)), bins, dimension, maxbins)
    {
      var m := values;
      var v := Zeros(|values|);
      if dimension != |m| {
        return;
      }
      ghost var inserted := Insert(bins, m, v);
      InsertKeepsInvariant(bins, m, dimension);
      total := total + 1;
      observations := observations + [values];
      var i := FindBin(bins, v);
      if i < |bins| {
        bins := bins[i := bins[i].(count := bins[i].count + 1)];
        assert bins == inserted;
        ReachesWithinBudget(bins, dimension, maxbins);
        return;
      }
      bins := bins + [Bin(m, v, 1, m, m)];
      assert bins == inserted;
      Trim();
    }

    /**
     * `trim`: while the list exceeds the budget, remove the closest pair and append its
     * merge. The result is the list `Reaches` relates to the list before.
     */
    method Trim()
      requires maxbins >= 1 && AllWellFormed(bins, dimension)
      modifies this`bins
      ensures Reaches(old(bins), bins, dimension, maxbins)
      ensures AllWellFormed(bins, dimension) && |bins| <= maxbins && Weight(bins) == Weight(old(bins))
    {
      while |bins| > maxbins
        invariant AllWellFormed(bins, dimension) && Weight(bins) == Weight(old(bins))
        invariant forall f :: Reaches(bins, f, dimension, maxbins) ==> Reaches(old(bins), f, dimension, maxbins)
        decreases |bins|
      {
        var minI, minJ := FindClosestPair(bins, dimension);
        var mergedbin := Merge(bins[minI], bins[minJ]);
        var (min, max) := Sort(minI, minJ);
        var head, mid, tail := bins[..min], bins[min + 1..max], bins[max + 1..];
        var next := head + mid + tail + [mergedbin];
        assert next == TrimStep(bins, dimension, minI, minJ);
        forall f | Reaches(next, f, dimension, maxbins)
          ensures Reaches(bins, f, dimension, maxbins)
        {
          assert IsClosestPair(bins, dimension, minI, minJ) && Reaches(TrimStep(bins, dimension, minI, minJ), f, dimension, maxbins);
        }
        TrimStepKeepsWeight(bins, dimension, minI, minJ);
        bins := next;
      }
    }

    /** `Mean`: empty before any observation, otherwise the weighted mean of the bins. */
    method Mean() returns (r: seq<real>)
      requires AllShaped(bins, dimension)
      ensures r == MeanOf(bins, total, dimension)
    {
      if total == 0 {
        return [];
      }
      var sum := FirstMoments(bins, dimension);
      for k := 0 to dimension
        invariant forall t :: 0 <= t < k ==> sum[t] == MomentSum(bins, First, t) / total as real
        invariant forall t :: k <= t < dimension ==> sum[t] == MomentSum(bins, First, t)
      {
        sum[k] := sum[k] / total as real;
      }
      r := sum[..];
    }

    /**
     * `Variance`: empty before any observation, otherwise the weighted second moment over
     * `total` minus the squared mean.
     */
    method Variance() returns (r: seq<real>)
      requires AllShaped(bins, dimension)
      ensures r == VarianceOf(bins, total, dimension)
    {
      if total == 0 {
        return [];
      }
      var mean := Mean();
      var sum := SecondMoments(bins, dimension);
      for k := 0 to dimension
        invariant forall t :: 0 <= t < k ==> sum[t] == VarianceOf(bins, total, dimension)[t]
        invariant forall t :: k <= t < dimension ==> sum[t] == MomentSum(bins, Second, t)
      {
        assert mean[k] * mean[k] == Square(MeanOf(bins, total, dimension)[k]);
        sum[k] := sum[k] / total as real;
        sum[k] := sum[k] - mean[k] * mean[k];
      }
      r := sum[..];
    }

    /**
     * `Quantile(q)`: walks the bins subtracting their weights from `q * total` and returns
     * the representative of the first bin that brings the remainder to zero or below.
     */
    method Quantile(q: real) returns (r: Vector)
      ensures r == QuantileOf(bins, q, total)
    {
      var count := q * total as real;
      for i := 0 to |bins|
        invariant QuantileFrom(bins[i..], count) == QuantileOf(bins, q, total)
      {
        assert bins[i..][1..] == bins[i + 1..];
        count := count - bins[i].count as real;
        if count <= 0.0 {
          return bins[i].vec;
        }
      }
      return [];
    }

    /**
     * `CDF(x)`: -1 on a dimension mismatch; otherwise each bin's weight is scaled by the
     * factor of every coordinate, and the sum is divided by `total`.
     */
    method CDF(x: Vector) returns (r: real)
      requires AllShaped(bins, dimension) && (|x| == dimension ==> total > 0)
      ensures r == CdfOf(bins, x, total, dimension)
    {
      if |x| != dimension {
        return -1.0;
      }
      var sum := 0.0;
      for i := 0 to |bins|
        invariant AllShaped(bins[..i], dimension)
        invariant sum == CdfSum(bins[..i], x, dimension)
      {
        assert bins[..i + 1][..i] == bins[..i];
        assert AllShaped(bins[..i + 1], dimension);
        var count := BinMass(bins[i], x);
        sum := sum + count;
      }
      assert bins[..|bins|] == bins;
      r := sum / total as real;
    }

    /** `Count`: the number of observations accepted so far. */
    function Count(): (r: real)
      reads this
      requires Valid()
      ensures r == |observations| as real
    {
      total as real
    }
  }
}
