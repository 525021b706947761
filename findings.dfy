/**
 * Three places where the histogram as written departs from what it evidently means to
 * compute, each shown on a concrete input, and the corrected definitions with the intended
 * property proved about them:
 *
 *  1. `Add` looks for a bin equal to the all-zero vector instead of the observation, so an
 *     observation can be folded into a bin that sits at the origin.
 *  2. Even at the right bin, `Add` only bumps the weight: the observation's contribution to
 *     the spread is lost when that bin already has a variance.
 *  3. `CDF` gives weight 1 to a bin entirely above the point and 0 to a bin entirely below.
 *
 * With `InsertIntended` in place of the insertion step, mean and variance of the histogram
 * are those of the observations for every bin budget; `CdfIntended` lies within [0, 1],
 * is 0 below every box and 1 at or above every box.
 */
module Findings {
  import opened Util
  import opened Arith
  import opened Vectors
  import opened HistogramSpec

  // ---------------------------------------------------------------------------
  // Statistics of the observations themselves

  /** Coordinate `k` of observation `v` (zero for a coordinate it lacks). */
  function Coord(v: Vector, k: nat): real
  {
    if k < |v| then v[k] else 0.0
  }

  /** Sum of coordinate `k` over the observations. */
  function SampleSum(obs: seq<Vector>, k: nat): real
  {
    if |obs| == 0 then 0.0 else SampleSum(obs[..|obs| - 1], k) + Coord(obs[|obs| - 1], k)
  }

  /** Sum of the squares of coordinate `k` over the observations. */
  function SampleSquares(obs: seq<Vector>, k: nat): real
  {
    if |obs| == 0 then 0.0 else SampleSquares(obs[..|obs| - 1], k) + Square(Coord(obs[|obs| - 1], k))
  }

  /** Sum of the squared deviations of coordinate `k` from `c`. */
  function Deviations(obs: seq<Vector>, k: nat, c: real): real
  {
    if |obs| == 0 then 0.0 else Deviations(obs[..|obs| - 1], k, c) + Square(Coord(obs[|obs| - 1], k) - c)
  }

  /** The sample mean: per coordinate, the sum over the number of observations. */
  function SampleMean(obs: seq<Vector>, d: nat): (r: seq<real>)
    ensures |obs| == 0 ==> r == []
    ensures |obs| > 0 ==> |r| == d
  {
    if |obs| == 0 then []
    else seq(d, k requires 0 <= k < d => SampleSum(obs, k) / |obs| as real)
  }

  /** The sample variance: per coordinate, the mean squared deviation from the sample mean. */
  function SampleVariance(obs: seq<Vector>, d: nat): (r: seq<real>)
    ensures |obs| == 0 ==> r == []
    ensures |obs| > 0 ==> |r| == d
  {
    if |obs| == 0 then []
    else seq(d, k requires 0 <= k < d => Deviations(obs, k, SampleSum(obs, k) / |obs| as real) / |obs| as real)
  }

  /** The sum of squared deviations from `c`, expanded into the sum and the sum of squares. */
  lemma {:induction false} DeviationsExpand(obs: seq<Vector>, k: nat, c: real)
    ensures Expanded(Deviations(obs, k, c), SampleSquares(obs, k), SampleSum(obs, k), |obs| as real, c)
    decreases |obs|
  {
    if |obs| > 0 {
      var n := |obs| - 1;
      var prefix := obs[..n];
      DeviationsExpand(prefix, k, c);
      var dev, s2, s1, x := Deviations(prefix, k, c), SampleSquares(prefix, k), SampleSum(prefix, k), Coord(obs[n], k);
      DeviationStep(dev, s2, s1, |prefix| as real, x, c);
    }
  }

  /** The sample variance is the mean of the squares minus the square of the mean. */
  lemma SampleVarianceFromMoments(obs: seq<Vector>, d: nat, k: nat)
    requires |obs| > 0 && k < d
    ensures SampleVariance(obs, d)[k] ==
      SampleSquares(obs, k) / |obs| as real - Square(SampleSum(obs, k) / |obs| as real)
  {
    var c := SampleSum(obs, k) / |obs| as real;
    DeviationsExpand(obs, k, c);
    VarianceFromMoments(SampleVariance(obs, d)[k], Deviations(obs, k, c),
                        SampleSum(obs, k), SampleSquares(obs, k), |obs| as real, c);
  }

  // ---------------------------------------------------------------------------
  // Findings 1 and 2: the insertion step of Add

  /**
   * Finding 1, as written: in dimension 1, adding [0] and then [5] bumps the bin at the
   * origin for the second observation (the probe is the zero vector), so the mean is [0]
   * where the observations have mean [2.5]. No `trim` runs for any budget of at least 1.
   */
  lemma ZeroProbeFoldsObservation()
    ensures Insert(Insert([], [0.0], Zeros(1)), [5.0], Zeros(1)) == [Bin([0.0], [0.0], 2, [0.0], [0.0])]
    ensures MeanOf(Insert(Insert([], [0.0], Zeros(1)), [5.0], Zeros(1)), 2, 1) == [0.0]
    ensures SampleMean([[0.0], [5.0]], 1) == [2.5]
  {
    var first := Insert([], [0.0], Zeros(1));
    assert Zeros(1) == [0.0];
    assert first == [Bin([0.0], [0.0], 1, [0.0], [0.0])];
    assert ProbeIndex(first, Zeros(1)) == 0;
    var bins := Insert(first, [5.0], Zeros(1));
    assert bins == [Bin([0.0], [0.0], 2, [0.0], [0.0])];
    assert bins[..0] == [];
    assert MomentSum(bins, First, 0) == 0.0;
    var obs: seq<Vector> := [[0.0], [5.0]];
    assert obs[..1][..0] == [];
    assert SampleSum(obs, 0) == 5.0;
  }

  /**
   * Findings 1 and 2, as written, for any list: when some bin sits at the origin, `Insert`
   * bumps the first such bin. The coordinate sums do not change at all, whatever the
   * observation, and the sums of squares grow by that bin's variance instead of by the
   * square of the observation.
   */
  lemma BumpAtOrigin(bins: seq<Bin>, m: Vector, d: nat, k: nat)
    requires AllWellFormed(bins, d) && |m| == d && k < d
    requires ProbeIndex(bins, Zeros(d)) < |bins|
    ensures MomentSum(Insert(bins, m, Zeros(d)), First, k) == MomentSum(bins, First, k)
    ensures MomentSum(Insert(bins, m, Zeros(d)), Second, k) ==
      MomentSum(bins, Second, k) + bins[ProbeIndex(bins, Zeros(d))].variance[k]
  {
    var i := ProbeIndex(bins, Zeros(d));
    assert Insert(bins, m, Zeros(d)) == bins[i := bins[i].(count := bins[i].count + 1)];
    assert WellFormed(bins[i], d) && bins[i].vec[k] == 0.0;
    BumpedSums(bins, i, k);
  }

  /** Bumping the weight of bin `i`, which sits at 0 in coordinate `k`, keeps the sum and adds its variance to the sum of squares. */
  lemma BumpedSums(bins: seq<Bin>, i: nat, k: nat)
    requires i < |bins| && k < |bins[i].vec| && k < |bins[i].variance| && bins[i].vec[k] == 0.0
    ensures MomentSum(bins[i := bins[i].(count := bins[i].count + 1)], First, k) == MomentSum(bins, First, k)
    ensures MomentSum(bins[i := bins[i].(count := bins[i].count + 1)], Second, k) ==
      MomentSum(bins, Second, k) + bins[i].variance[k]
  {
    var b := bins[i].(count := bins[i].count + 1);
    BumpedMoments(bins[i], k);
    MomentSumUpdate(bins, i, b, First, k);
    MomentSumUpdate(bins, i, b, Second, k);
  }

  /** One more unit of weight on a bin at 0 in coordinate `k` adds nothing to the sum and its variance to the sum of squares. */
  lemma BumpedMoments(b: Bin, k: nat)
    requires k < |b.vec| && k < |b.variance| && b.vec[k] == 0.0
    ensures BinMoment(b.(count := b.count + 1), First, k) == BinMoment(b, First, k) == 0.0
    ensures BinMoment(b.(count := b.count + 1), Second, k) == BinMoment(b, Second, k) + b.variance[k]
  {
    var w := b.count as real;
    SquareSumGrows(w, b.variance[k]);
  }

  /** The merge of the singletons at -1 and 1 sits at 0. */
  lemma PairMergeMean()
    ensures Merge(Singleton([-1.0]), Singleton([1.0])).vec[0] == 0.0
  {
  }

  /** The merge of the singletons at -1 and 1 has variance 1. */
  lemma PairMergeVariance()
    ensures Merge(Singleton([-1.0]), Singleton([1.0])).variance[0] == 1.0
  {
  }

  /** In dimension 1, the singletons at -1 and 1 form the closest pair (0, 1). */
  lemma PairIsClosest()
    ensures AllWellFormed([Singleton([-1.0]), Singleton([1.0])], 1)
    ensures IsClosestPair([Singleton([-1.0]), Singleton([1.0])], 1, 0, 1)
  {
    var b, o := Singleton([-1.0]), Singleton([1.0]);
    // the only pairs of distinct bins are (0, 1) and (1, 0), both at squared distance 4
    assert SquaredDistance(b.vec, o.vec) == 4.0;
    assert SquaredDistance(o.vec, b.vec) == 4.0;
  }

  /** In dimension 1, adding [-1] and then [1] appends both singletons. */
  lemma PairInserted()
    ensures Insert(Insert([], [-1.0], Zeros(1)), [1.0], Zeros(1)) == [Singleton([-1.0]), Singleton([1.0])]
  {
    assert Zeros(1) == [0.0];
    assert ProbeIndex([Singleton([-1.0])], Zeros(1)) == 1;
  }

  /** Merging the closest pair (0, 1) of the two singletons leaves their merge alone. */
  lemma PairTrimStep()
    ensures AllWellFormed([Singleton([-1.0]), Singleton([1.0])], 1)
    ensures TrimStep([Singleton([-1.0]), Singleton([1.0])], 1, 0, 1) == [Merge(Singleton([-1.0]), Singleton([1.0]))]
  {
    var pair := [Singleton([-1.0]), Singleton([1.0])];
    assert pair[..0] + pair[1..1] + pair[2..] == [];
  }

  /** With budget 1, adding [-1] and then [1] leaves the single merge of the two singletons. */
  lemma PairTrimsToMerge()
    ensures Insert(Insert([], [-1.0], Zeros(1)), [1.0], Zeros(1)) == [Singleton([-1.0]), Singleton([1.0])]
    ensures AllWellFormed([Singleton([-1.0]), Singleton([1.0])], 1)
    ensures Reaches([Singleton([-1.0]), Singleton([1.0])], [Merge(Singleton([-1.0]), Singleton([1.0]))], 1, 1)
  {
    PairInserted();
    PairIsClosest();
    PairTrimStep();
  }

  /**
   * Finding 2, as written: with budget 1, adding [-1] and [1] leaves one bin at [0] with
   * variance [1]; adding [0] then only bumps that bin's weight, so the variance stays [1]
   * where the three observations have variance [2/3].
   */
  lemma CountBumpKeepsVariance()
    ensures Reaches(Insert(Insert([], [-1.0], Zeros(1)), [1.0], Zeros(1)), [Merge(Singleton([-1.0]), Singleton([1.0]))], 1, 1)
    ensures VarianceOf(Insert([Merge(Singleton([-1.0]), Singleton([1.0]))], [0.0], Zeros(1)), 3, 1) == [1.0]
    ensures SampleVariance([[-1.0], [1.0], [0.0]], 1) == [2.0 / 3.0]
  {
    PairTrimsToMerge();
    PairMergeMean();
    PairMergeVariance();
    var b, o := Singleton([-1.0]), Singleton([1.0]);
    MergeKeepsWellFormed(b, o, 1);
    BumpedPairVariance(Merge(b, o));
    ThreePointVariance();
  }

  /** Bumping a weight-2 bin at [0] with variance [1] gives variance [1] at weight 3. */
  lemma BumpedPairVariance(c: Bin)
    requires WellFormed(c, 1) && c.count == 2 && c.vec[0] == 0.0 && c.variance[0] == 1.0
    ensures VarianceOf(Insert([c], [0.0], Zeros(1)), 3, 1) == [1.0]
  {
    assert Zeros(1) == [0.0];
    assert c.vec == [0.0];
    assert ProbeIndex([c], Zeros(1)) == 0;
    var after := Insert([c], [0.0], Zeros(1));
    assert after == [c.(count := 3)];
    assert after[..0] == [];
    assert MomentSum(after, First, 0) == 0.0;
    assert MomentSum(after, Second, 0) == 3.0;
  }

  /** The observations -1, 1 and 0 have variance 2/3. */
  lemma ThreePointVariance()
    ensures SampleVariance([[-1.0], [1.0], [0.0]], 1) == [2.0 / 3.0]
  {
    var obs: seq<Vector> := [[-1.0], [1.0], [0.0]];
    var o1, o2 := obs[..1], obs[..2];
    assert o1[..0] == [] && o2[..1] == o1 && obs[..2] == o2;
    assert SampleSum(o1, 0) == -1.0 && SampleSquares(o1, 0) == 1.0;
    assert SampleSum(o2, 0) == 0.0 && SampleSquares(o2, 0) == 2.0;
    assert SampleSum(obs, 0) == 0.0 && SampleSquares(obs, 0) == 2.0;
    SampleVarianceFromMoments(obs, 1, 0);
  }

  /**
   * The insertion step of `Add` as evidently intended: the observation is merged into the
   * first bin whose representative equals it, so that its weight, sum and sum of squares
   * all count; with no such bin, its singleton is appended.
   */
  function InsertIntended(bins: seq<Bin>, m: Vector): (r: seq<Bin>)
    requires AllWellFormed(bins, |m|)
    ensures AllWellFormed(r, |m|)
    ensures Weight(r) == Weight(bins) + 1
    ensures |r| <= |bins| + 1
  {
    var k := ProbeIndex(bins, m);
    if k < |bins| then
      MergeKeepsWellFormed(bins[k], Singleton(m), |m|);
      WeightUpdate(bins, k, Merge(bins[k], Singleton(m)));
      bins[k := Merge(bins[k], Singleton(m))]
    else
      WeightConcat(bins, [Singleton(m)]);
      bins + [Singleton(m)]
  }

  /** The corrected insertion adds exactly the observation's sum and sum of squares. */
  lemma InsertIntendedAddsObservation(bins: seq<Bin>, m: Vector, k: nat)
    requires AllWellFormed(bins, |m|) && k < |m|
    ensures MomentSum(InsertIntended(bins, m), First, k) == MomentSum(bins, First, k) + m[k]
    ensures MomentSum(InsertIntended(bins, m), Second, k) == MomentSum(bins, Second, k) + Square(m[k])
  {
    var i := ProbeIndex(bins, m);
    var s := Singleton(m);
    SingletonMoments(m, k);
    if i < |bins| {
      var c := Merge(bins[i], s);
      MergeAddsMoments(bins[i], s, |m|, First, k);
      MergeAddsMoments(bins[i], s, |m|, Second, k);
      MomentSumUpdate(bins, i, c, First, k);
      MomentSumUpdate(bins, i, c, Second, k);
    } else {
      assert (bins + [s])[..|bins|] == bins;
    }
  }

  /**
   * `bins` is what a histogram of dimension `d` and budget `maxbins` holds after accepting
   * the observations `obs` in order, with the corrected insertion followed by `trim`.
   */
  ghost predicate IntendedRun(obs: seq<Vector>, bins: seq<Bin>, d: nat, maxbins: int)
    decreases |obs|
  {
    if |obs| == 0 then bins == []
    else
      |obs[|obs| - 1]| == d &&
      exists mid :: AllWellFormed(mid, d) && IntendedRun(obs[..|obs| - 1], mid, d, maxbins) &&
        Reaches(InsertIntended(mid, obs[|obs| - 1]), bins, d, maxbins)
  }

  /** After any corrected run the bins fit the budget, are well formed, and weigh as many as the observations. */
  lemma {:induction false} IntendedRunShape(obs: seq<Vector>, bins: seq<Bin>, d: nat, maxbins: int)
    requires maxbins >= 1 && IntendedRun(obs, bins, d, maxbins)
    ensures AllWellFormed(bins, d) && |bins| <= maxbins && Weight(bins) == |obs|
    decreases |obs|
  {
    if |obs| > 0 {
      var n := |obs| - 1;
      var mid :| AllWellFormed(mid, d) && IntendedRun(obs[..n], mid, d, maxbins) &&
        Reaches(InsertIntended(mid, obs[n]), bins, d, maxbins);
      IntendedRunShape(obs[..n], mid, d, maxbins);
      ReachesShape(InsertIntended(mid, obs[n]), bins, d, maxbins);
      ReachesKeepsMoments(InsertIntended(mid, obs[n]), bins, d, maxbins);
    }
  }

  /** After any corrected run the bins carry exactly the observations' sums and sums of squares. */
  lemma {:induction false} IntendedRunSummarises(obs: seq<Vector>, bins: seq<Bin>, d: nat, maxbins: int)
    requires IntendedRun(obs, bins, d, maxbins)
    ensures forall k :: 0 <= k < d ==>
      MomentSum(bins, First, k) == SampleSum(obs, k) && MomentSum(bins, Second, k) == SampleSquares(obs, k)
    decreases |obs|
  {
    if |obs| > 0 {
      var n := |obs| - 1;
      var m := obs[n];
      var mid :| AllWellFormed(mid, d) && IntendedRun(obs[..n], mid, d, maxbins) &&
        Reaches(InsertIntended(mid, m), bins, d, maxbins);
      IntendedRunSummarises(obs[..n], mid, d, maxbins);
      forall k | 0 <= k < d
        ensures MomentSum(bins, First, k) == SampleSum(obs, k) && MomentSum(bins, Second, k) == SampleSquares(obs, k)
      {
        IntendedStepMoments(obs, mid, bins, d, maxbins, k);
      }
    }
  }

  /**
   * One step of a corrected run: bins that carry the sums of all observations but the
   * last, after the corrected insertion of the last one and `trim`, carry the sums of all.
   */
  lemma IntendedStepMoments(obs: seq<Vector>, mid: seq<Bin>, bins: seq<Bin>, d: nat, maxbins: int, k: nat)
    requires |obs| > 0 && |obs[|obs| - 1]| == d && k < d && AllWellFormed(mid, d)
    requires Reaches(InsertIntended(mid, obs[|obs| - 1]), bins, d, maxbins)
    requires MomentSum(mid, First, k) == SampleSum(obs[..|obs| - 1], k)
    requires MomentSum(mid, Second, k) == SampleSquares(obs[..|obs| - 1], k)
    ensures MomentSum(bins, First, k) == SampleSum(obs, k) && MomentSum(bins, Second, k) == SampleSquares(obs, k)
  {
    var m := obs[|obs| - 1];
    ReachesKeepsMoments(InsertIntended(mid, m), bins, d, maxbins);
    InsertIntendedAddsObservation(mid, m, k);
    SampleStep(obs, k, MomentSum(mid, First, k), MomentSum(mid, Second, k));
  }

  /** Sums that match all observations but the last, plus the last one, match all of them. */
  lemma SampleStep(obs: seq<Vector>, k: nat, s1: real, s2: real)
    requires |obs| > 0 && k < |obs[|obs| - 1]|
    requires s1 == SampleSum(obs[..|obs| - 1], k) && s2 == SampleSquares(obs[..|obs| - 1], k)
    ensures s1 + obs[|obs| - 1][k] == SampleSum(obs, k)
    ensures s2 + Square(obs[|obs| - 1][k]) == SampleSquares(obs, k)
  {
  }

  /**
   * Corrected fix of findings 1 and 2: for every budget, `Mean` and `Variance` of the
   * histogram are the sample mean and the sample variance of the observations.
   */
  lemma IntendedStatistics(obs: seq<Vector>, bins: seq<Bin>, d: nat, maxbins: int)
    requires IntendedRun(obs, bins, d, maxbins)
    ensures MeanOf(bins, |obs|, d) == SampleMean(obs, d)
    ensures VarianceOf(bins, |obs|, d) == SampleVariance(obs, d)
  {
    IntendedRunSummarises(obs, bins, d, maxbins);
    StatisticsOfSums(obs, bins, d);
  }

  /** Bins carrying the observations' sums and sums of squares report their mean and variance. */
  lemma StatisticsOfSums(obs: seq<Vector>, bins: seq<Bin>, d: nat)
    requires forall k :: 0 <= k < d ==>
      MomentSum(bins, First, k) == SampleSum(obs, k) && MomentSum(bins, Second, k) == SampleSquares(obs, k)
    ensures MeanOf(bins, |obs|, d) == SampleMean(obs, d)
    ensures VarianceOf(bins, |obs|, d) == SampleVariance(obs, d)
  {
    if |obs| > 0 {
      forall k | 0 <= k < d
        ensures MeanOf(bins, |obs|, d)[k] == SampleMean(obs, d)[k]
        ensures VarianceOf(bins, |obs|, d)[k] == SampleVariance(obs, d)[k]
      {
        SampleVarianceFromMoments(obs, d, k);
      }
    }
  }

  /** Two corrected runs over the same observations agree on mean and variance, whatever their budgets. */
  lemma IntendedBudgetIndependent(obs: seq<Vector>, b1: seq<Bin>, b2: seq<Bin>, d: nat, n1: int, n2: int)
    requires IntendedRun(obs, b1, d, n1) && IntendedRun(obs, b2, d, n2)
    ensures MeanOf(b1, |obs|, d) == MeanOf(b2, |obs|, d)
    ensures VarianceOf(b1, |obs|, d) == VarianceOf(b2, |obs|, d)
  {
    IntendedStatistics(obs, b1, d, n1);
    IntendedStatistics(obs, b2, d, n2);
  }

  // ---------------------------------------------------------------------------
  // Finding 3: the tails of CDF

  /**
   * Finding 3, as written: for a single observation at [5], `CDF([0])` is 1 and `CDF([10])`
   * is 0, the reverse of a distribution function.
   */
  lemma CdfTailsSwapped()
    ensures AllShaped([Singleton([5.0])], 1)
    ensures CdfOf([Singleton([5.0])], [0.0], 1, 1) == 1.0
    ensures CdfOf([Singleton([5.0])], [10.0], 1, 1) == 0.0
  {
    var bins := [Singleton([5.0])];
    assert bins[..0] == [];
    assert Mass(bins[0], [0.0], 1) == 1.0;
    assert Mass(bins[0], [10.0], 1) == 0.0;
  }

  /** The per-coordinate factor as evidently intended: the share of the box at or below `x`. */
  function FactorIntended(x: real, lo: real, hi: real): (f: real)
    ensures 0.0 <= f <= 1.0
    ensures x < lo ==> f == 0.0
    ensures lo <= x && x >= hi ==> f == 1.0
  {
    if x < lo then 0.0
    else if x >= hi then 1.0
    else
      NonNegativeQuotient(x - lo, hi - lo);
      assert (x - lo) / (hi - lo) <= 1.0 by { DivideThenScale(x - lo, hi - lo); }
      (x - lo) / (hi - lo)
  }

  /** The weight of bin `b` scaled by the corrected factors of its first `j` coordinates. */
  function MassIntended(b: Bin, x: Vector, j: nat): (r: real)
    requires j <= |x| && j <= |b.min| && j <= |b.max|
    ensures 0.0 <= r <= b.count as real
  {
    if j == 0 then b.count as real
    else
      var r0 := MassIntended(b, x, j - 1);
      var f := FactorIntended(x[j - 1], b.min[j - 1], b.max[j - 1]);
      ScaledBelow(r0, f, b.count as real);
      r0 * f
  }

  /** Sum of the corrected bin masses. */
  function CdfIntendedSum(bins: seq<Bin>, x: Vector, d: nat): (r: real)
    requires AllShaped(bins, d) && |x| == d
    ensures 0.0 <= r <= Weight(bins) as real
  {
    if |bins| == 0 then 0.0
    else
      assert AllShaped(bins[..|bins| - 1], d);
      CdfIntendedSum(bins[..|bins| - 1], x, d) + MassIntended(bins[|bins| - 1], x, d)
  }

  /** `CDF` as evidently intended: -1 on a dimension mismatch, else the corrected masses over `total`. */
  function CdfIntended(bins: seq<Bin>, x: Vector, total: nat, d: nat): real
    requires AllShaped(bins, d) && (|x| == d ==> total > 0)
  {
    if |x| != d then -1.0 else CdfIntendedSum(bins, x, d) / total as real
  }

  /** With the weights summing to `total`, the corrected `CDF` lies in [0, 1] or is -1. */
  lemma CdfIntendedBounded(bins: seq<Bin>, x: Vector, total: nat, d: nat)
    requires AllWellFormed(bins, d) && Weight(bins) == total && (|x| == d ==> total > 0)
    ensures |x| != d ==> CdfIntended(bins, x, total, d) == -1.0
    ensures |x| == d ==> 0.0 <= CdfIntended(bins, x, total, d) <= 1.0
  {
    if |x| == d {
      var s := CdfIntendedSum(bins, x, d);
      NonNegativeQuotient(s, total as real);
      QuotientMonotone(s, total as real, total as real);
      SelfQuotient(total as real);
    }
  }

  /** Below the lower corner of a box in some coordinate, the corrected mass is zero. */
  lemma {:induction false} MassIntendedBelowBox(b: Bin, x: Vector, j: nat, k: nat)
    requires j <= |x| && j <= |b.min| && j <= |b.max| && k < j && x[k] < b.min[k]
    ensures MassIntended(b, x, j) == 0.0
  {
    if k < j - 1 {
      MassIntendedBelowBox(b, x, j - 1, k);
    }
  }

  /** At or above the upper corner of a box in every coordinate, the corrected mass is the whole weight. */
  lemma {:induction false} MassIntendedAboveBox(b: Bin, x: Vector, j: nat)
    requires j <= |x| && j <= |b.min| && j <= |b.max|
    requires forall k :: 0 <= k < j ==> x[k] >= b.max[k] && b.min[k] <= b.max[k]
    ensures MassIntended(b, x, j) == b.count as real
  {
    if j > 0 {
      MassIntendedAboveBox(b, x, j - 1);
    }
  }

  /** `x` is below the lower corner of the box of `b` in some of the `d` coordinates. */
  predicate BelowSomeCorner(b: Bin, x: Vector, d: nat)
    requires |x| == d && Shaped(b, d)
  {
    exists k :: 0 <= k < d && x[k] < b.min[k]
  }

  /** Below some corner of every box, the corrected masses add up to zero. */
  lemma {:induction false} CdfIntendedSumBelow(bins: seq<Bin>, x: Vector, d: nat)
    requires AllShaped(bins, d) && |x| == d
    requires forall i :: 0 <= i < |bins| ==> BelowSomeCorner(bins[i], x, d)
    ensures CdfIntendedSum(bins, x, d) == 0.0
    decreases |bins|
  {
    if |bins| > 0 {
      var n := |bins| - 1;
      var prefix := bins[..n];
      assert forall i :: 0 <= i < n ==> prefix[i] == bins[i];
      CdfIntendedSumBelow(prefix, x, d);
      assert BelowSomeCorner(bins[n], x, d);
      var k :| 0 <= k < d && x[k] < bins[n].min[k];
      MassIntendedBelowBox(bins[n], x, d, k);
    }
  }

  /** At or above every box in all coordinates, the corrected masses add up to the whole weight. */
  lemma {:induction false} CdfIntendedSumAbove(bins: seq<Bin>, x: Vector, d: nat)
    requires AllShaped(bins, d) && |x| == d
    requires forall i :: 0 <= i < |bins| ==> AboveBox(bins[i], x, d)
    ensures CdfIntendedSum(bins, x, d) == Weight(bins) as real
    decreases |bins|
  {
    if |bins| > 0 {
      var n := |bins| - 1;
      var prefix := bins[..n];
      assert forall i :: 0 <= i < n ==> prefix[i] == bins[i];
      CdfIntendedSumAbove(prefix, x, d);
      assert AboveBox(bins[n], x, d);
      MassIntendedAboveBox(bins[n], x, d);
    }
  }

  /** Corrected fix of finding 3: the corrected `CDF` is 0 below some corner of every box. */
  lemma CdfIntendedBelowAllIsZero(bins: seq<Bin>, x: Vector, total: nat, d: nat)
    requires AllShaped(bins, d) && |x| == d && total > 0
    requires forall i :: 0 <= i < |bins| ==> exists k :: 0 <= k < d && x[k] < bins[i].min[k]
    ensures CdfIntended(bins, x, total, d) == 0.0
  {
    forall i | 0 <= i < |bins|
      ensures BelowSomeCorner(bins[i], x, d)
    {
    }
    CdfIntendedSumBelow(bins, x, d);
  }

  /** Corrected fix of finding 3: the corrected `CDF` is 1 at or above every box in all coordinates. */
  lemma CdfIntendedAboveAllIsOne(bins: seq<Bin>, x: Vector, total: nat, d: nat)
    requires AllWellFormed(bins, d) && Weight(bins) == total && |x| == d && total > 0
    requires forall i, k :: 0 <= i < |bins| && 0 <= k < d ==> x[k] >= bins[i].max[k]
    ensures CdfIntended(bins, x, total, d) == 1.0
  {
    forall i | 0 <= i < |bins|
      ensures AboveBox(bins[i], x, d)
    {
      assert WellFormed(bins[i], d);
    }
    CdfIntendedSumAbove(bins, x, d);
    SelfQuotient(total as real);
  }
}
