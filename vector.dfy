/**
 * Points and bins of the histogram package (vector.go): coordinate-wise comparison,
 * squared distance, and the merge of two bins by the combined-moments formula.
 */
module Vectors {
  import opened Util
  import opened Arith

  /**
   * A point in real coordinate space. The accessors `Dimension`, `Value` and `Values`
   * are the sequence's length, indexing and the sequence itself.
   */
  type Vector = seq<real>

  // ---------------------------------------------------------------------------
  // Vector operations

  /**
   * `Distance`, squared: the sum over the coordinates of `v` of the squared difference.
   * The loop runs over `v`'s coordinates and reads the same index of `o`, so `o` must be
   * at least as long. The square root is left out: it is monotone, so it changes no
   * comparison between distances.
   */
  function SquaredDistance(v: Vector, o: Vector): (r: real)
    requires |v| <= |o|
    ensures r >= 0.0
    decreases |v|
  {
    if |v| == 0 then 0.0
    else SquaredDistance(v[..|v| - 1], o[..|v| - 1]) + Square(v[|v| - 1] - o[|v| - 1])
  }

  lemma SquareOfNegation(a: real, b: real)
    ensures Square(a - b) == Square(b - a)
  {
    calc {
      Square(a - b);
      (a - b) * (a - b);
      (b - a) * (b - a);
      Square(b - a);
    }
  }

  /** Distance is symmetric between points of the same dimension. */
  lemma {:induction false} DistanceSymmetric(v: Vector, o: Vector)
    requires |v| == |o|
    ensures SquaredDistance(v, o) == SquaredDistance(o, v)
    decreases |v|
  {
    if |v| > 0 {
      var n := |v| - 1;
      DistanceSymmetric(v[..n], o[..n]);
      SquareOfNegation(v[n], o[n]);
    }
  }

  /** Distance is zero exactly between equal points; in particular from a point to itself. */
  lemma {:induction false} DistanceZeroIffEqual(v: Vector, o: Vector)
    requires |v| == |o|
    ensures SquaredDistance(v, o) == 0.0 <==> v == o
    decreases |v|
  {
    if |v| > 0 {
      var n := |v| - 1;
      DistanceZeroIffEqual(v[..n], o[..n]);
      SquareZero(v[n] - o[n]);
      assert v == v[..n] + [v[n]];
      assert o == o[..n] + [o[n]];
    }
  }

  /**
   * `LessThanOrEqualTo`: scans the coordinates of `v` and stops at the first one that
   * exceeds the matching coordinate of `o`.
   */
  function LessThanOrEqualTo(v: Vector, o: Vector): (r: bool)
    requires |v| <= |o|
    ensures r <==> forall i :: 0 <= i < |v| ==> v[i] <= o[i]
    decreases |v|
  {
    if |v| == 0 then true
    else if v[0] > o[0] then false
    else LessThanOrEqualTo(v[1..], o[1..])
  }

  /** `LessThanOrEqualTo` is reflexive and transitive. */
  lemma LessThanOrEqualToPreorder(u: Vector, v: Vector, w: Vector)
    requires |u| == |v| == |w|
    ensures LessThanOrEqualTo(u, u)
    ensures LessThanOrEqualTo(u, v) && LessThanOrEqualTo(v, w) ==> LessThanOrEqualTo(u, w)
  {
  }

  /**
   * `Equals`: false when the dimensions differ, otherwise a scan that stops at the first
   * differing coordinate. It decides exact equality of points (hence it is reflexive).
   */
  function Equals(v: Vector, o: Vector): (r: bool)
    ensures r <==> v == o
    decreases |v|
  {
    if |v| != |o| then false
    else if |v| == 0 then true
    else if v[0] != o[0] then false
    else
      var r := Equals(v[1..], o[1..]);
      assert r ==> v == [v[0]] + v[1..] == [o[0]] + o[1..] == o;
      assert !r ==> v[1..] != o[1..];
      r
  }

  // ---------------------------------------------------------------------------
  // Bins

  /**
   * A cluster of observations: representative (weighted mean) `vec`, per-coordinate
   * population `variance`, weight `count`, and bounding box `min`..`max`.
   */
  datatype Bin = Bin(vec: Vector, variance: Vector, count: nat, min: Vector, max: Vector)

  /** Each vector of `b` has at least `d` coordinates (what `Merge` reads). */
  predicate Covers(b: Bin, d: nat)
  {
    |b.vec| >= d && |b.variance| >= d && |b.min| >= d && |b.max| >= d
  }

  /** Each vector of `b` has exactly `d` coordinates. */
  predicate Shaped(b: Bin, d: nat)
  {
    |b.vec| == d && |b.variance| == d && |b.min| == d && |b.max| == d
  }

  /**
   * The invariant of every bin a histogram of dimension `d` holds: positive weight, the
   * representative inside the bounding box and a non-negative variance, per coordinate.
   */
  predicate WellFormed(b: Bin, d: nat)
  {
    Shaped(b, d) && b.count >= 1 &&
    forall i :: 0 <= i < d ==> b.min[i] <= b.vec[i] <= b.max[i] && b.variance[i] >= 0.0
  }

  /** Weighted first moment of coordinate `i`: the sum of that coordinate over the bin's points. */
  function FirstMoment(b: Bin, i: nat): real
    requires i < |b.vec|
  {
    b.count as real * b.vec[i]
  }

  /** Weighted second moment of coordinate `i`: the sum of that coordinate squared over the bin's points. */
  function SecondMoment(b: Bin, i: nat): real
    requires i < |b.vec| && i < |b.variance|
  {
    SquareSum(b.count as real, b.vec[i], b.variance[i])
  }

  /** Coordinate `i` of the merged representative: the weighted mean. */
  function MergedMean(b: Bin, o: Bin, i: nat): real
    requires i < |b.vec| && i < |o.vec| && b.count + o.count > 0
  {
    WeightedMean(b.count as real, o.count as real, b.vec[i], o.vec[i])
  }

  /** Coordinate `i` of the merged variance: combined second moment over weight, minus the squared mean. */
  function MergedVariance(b: Bin, o: Bin, i: nat): real
    requires i < |b.vec| && i < |o.vec| && i < |b.variance| && i < |o.variance| && b.count + o.count > 0
  {
    CombinedVariance(b.count as real, o.count as real, b.vec[i], o.vec[i], b.variance[i], o.variance[i])
  }

  /** A bin `c` whose weight is the sum of the two weights and whose coordinate `i` is the merged mean keeps the first moment. */
  lemma MergedFirstMoment(b: Bin, o: Bin, c: Bin, i: nat)
    requires i < |b.vec| && i < |o.vec| && b.count + o.count > 0
    requires i < |c.vec| && c.count == b.count + o.count && c.vec[i] == MergedMean(b, o, i)
    ensures FirstMoment(c, i) == FirstMoment(b, i) + FirstMoment(o, i)
  {
    MeanMoment(c.count as real, c.vec[i], b.count as real, o.count as real, b.vec[i], o.vec[i]);
  }

  /** If coordinate `i` of `c` also holds the merged variance, the second moment is kept too. */
  lemma MergedSecondMoment(b: Bin, o: Bin, c: Bin, i: nat)
    requires i < |b.vec| && i < |o.vec| && i < |b.variance| && i < |o.variance| && b.count + o.count > 0
    requires i < |c.vec| && i < |c.variance| && c.count == b.count + o.count
    requires c.vec[i] == MergedMean(b, o, i) && c.variance[i] == MergedVariance(b, o, i)
    ensures SecondMoment(c, i) == SecondMoment(b, i) + SecondMoment(o, i)
  {
    VarianceMoment(c.count as real, c.vec[i], c.variance[i], b.count as real, o.count as real,
                   b.vec[i], o.vec[i], b.variance[i], o.variance[i]);
  }

  /**
   * `Merge` (the receiver is `b`): weights add, the representative is the weighted mean,
   * the variance follows the combined-moments formula, and the box is the coordinate-wise
   * min of the mins and max of the maxes. The result has the receiver's dimension.
   */
  function Merge(b: Bin, o: Bin): (c: Bin)
    requires Covers(b, |b.vec|) && Covers(o, |b.vec|)
    requires b.count + o.count > 0
    ensures Shaped(c, |b.vec|)
    ensures c.count == b.count + o.count
    ensures forall i :: 0 <= i < |b.vec| ==> FirstMoment(c, i) == FirstMoment(b, i) + FirstMoment(o, i)
    ensures forall i :: 0 <= i < |b.vec| ==> SecondMoment(c, i) == SecondMoment(b, i) + SecondMoment(o, i)
    ensures forall i :: 0 <= i < |b.vec| ==>
      c.min[i] <= b.min[i] && c.min[i] <= o.min[i] && (c.min[i] == b.min[i] || c.min[i] == o.min[i])
    ensures forall i :: 0 <= i < |b.vec| ==>
      c.max[i] >= b.max[i] && c.max[i] >= o.max[i] && (c.max[i] == b.max[i] || c.max[i] == o.max[i])
  {
    var d := |b.vec|;
    var c := Bin(seq(d, i requires 0 <= i < d => MergedMean(b, o, i)),
                 seq(d, i requires 0 <= i < d => MergedVariance(b, o, i)),
                 b.count + o.count,
                 seq(d, i requires 0 <= i < d => Min(b.min[i], o.min[i])),
                 seq(d, i requires 0 <= i < d => Max(b.max[i], o.max[i])));
    assert forall i :: 0 <= i < d ==>
      FirstMoment(c, i) == FirstMoment(b, i) + FirstMoment(o, i) &&
      SecondMoment(c, i) == SecondMoment(b, i) + SecondMoment(o, i)
    by {
      forall i | 0 <= i < d
        ensures FirstMoment(c, i) == FirstMoment(b, i) + FirstMoment(o, i)
        ensures SecondMoment(c, i) == SecondMoment(b, i) + SecondMoment(o, i)
      {
        MergedFirstMoment(b, o, c, i);
        MergedSecondMoment(b, o, c, i);
      }
    }
    c
  }

  /** Coordinate `i` of a merged representative lies in the merged box. */
  lemma MergedMeanInBox(b: Bin, o: Bin, c: Bin, i: nat)
    requires i < |b.vec| && i < |o.vec| && i < |c.vec| && i < |c.min| && i < |c.max| && i < |b.min| && i < |o.min| && i < |b.max| && i < |o.max|
    requires b.count >= 1 && o.count >= 1
    requires b.min[i] <= b.vec[i] <= b.max[i] && o.min[i] <= o.vec[i] <= o.max[i]
    requires c.vec[i] == MergedMean(b, o, i)
    requires c.min[i] == Min(b.min[i], o.min[i]) && c.max[i] == Max(b.max[i], o.max[i])
    ensures c.min[i] <= c.vec[i] <= c.max[i]
  {
    WeightedMeanBetween(b.count as real, o.count as real, b.vec[i], o.vec[i], c.min[i], c.max[i]);
  }

  /** Coordinate `i` of a merged variance is non-negative. */
  lemma MergedVarianceNonNegative(b: Bin, o: Bin, c: Bin, i: nat)
    requires i < |b.vec| && i < |o.vec| && i < |b.variance| && i < |o.variance| && i < |c.vec| && i < |c.variance|
    requires b.count >= 1 && o.count >= 1 && b.variance[i] >= 0.0 && o.variance[i] >= 0.0
    requires c.vec[i] == MergedMean(b, o, i) && c.variance[i] == MergedVariance(b, o, i)
    ensures c.variance[i] >= 0.0
  {
    CombinedVarianceNonNegative(b.count as real, o.count as real, b.vec[i], o.vec[i], b.variance[i], o.variance[i]);
  }

  /**
   * Merging two well-formed bins gives a well-formed bin: the weighted mean is a convex
   * combination of two points of the merged box, and the combined variance is the
   * weighted within-bin variance plus a non-negative between-bin term.
   */
  lemma MergeKeepsWellFormed(b: Bin, o: Bin, d: nat)
    requires WellFormed(b, d) && WellFormed(o, d)
    ensures WellFormed(Merge(b, o), d)
  {
    var c := Merge(b, o);
    forall i | 0 <= i < d
      ensures c.min[i] <= c.vec[i] <= c.max[i] && c.variance[i] >= 0.0
    {
      MergedMeanInBox(b, o, c, i);
      MergedVarianceNonNegative(b, o, c, i);
    }
  }

  /** Merge is commutative between bins of the same dimension. */
  lemma MergeCommutative(b: Bin, o: Bin)
    requires Covers(b, |b.vec|) && Shaped(o, |b.vec|) && b.count + o.count > 0
    ensures Merge(b, o) == Merge(o, b)
  {
    var c, e := Merge(b, o), Merge(o, b);
    assert c.vec == e.vec;
    assert c.variance == e.variance;
    assert c.min == e.min;
    assert c.max == e.max;
  }

  /**
   * Merge is associative in weight and bounding box: merging `a` with `b` and then `c`
   * gives the same weight and box as merging `a` with the merge of `b` and `c`.
   */
  lemma MergeAssociativeWeightAndBox(a: Bin, b: Bin, c: Bin, d: nat)
    requires WellFormed(a, d) && WellFormed(b, d) && WellFormed(c, d)
    ensures Merge(Merge(a, b), c).count == Merge(a, Merge(b, c)).count
    ensures Merge(Merge(a, b), c).min == Merge(a, Merge(b, c)).min
    ensures Merge(Merge(a, b), c).max == Merge(a, Merge(b, c)).max
  {
    var l, r := Merge(Merge(a, b), c), Merge(a, Merge(b, c));
    assert l.min == r.min;
    assert l.max == r.max;
  }
}
