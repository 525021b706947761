/**
 * The state of a histogram (histogram.go) as values: the bin list and the functions that
 * say what `Add`, `trim` and the queries compute. The class in histogram.dfy is proved
 * against these definitions.
 */
module HistogramSpec {
  import opened Util
  import opened Arith
  import opened Vectors

  // ---------------------------------------------------------------------------
  // Bin lists

  /** Every bin of the list is a well-formed bin of dimension `d`. */
  predicate AllWellFormed(bins: seq<Bin>, d: nat)
  {
    forall i :: 0 <= i < |bins| ==> WellFormed(bins[i], d)
  }

  /** Every bin of the list has dimension `d` (what the queries index). */
  predicate AllShaped(bins: seq<Bin>, d: nat)
  {
    forall i :: 0 <= i < |bins| ==> Shaped(bins[i], d)
  }

  /** Sum of the bin weights, accumulated from the front as the source's loops do. */
  function Weight(bins: seq<Bin>): nat
  {
    if |bins| == 0 then 0 else Weight(bins[..|bins| - 1]) + bins[|bins| - 1].count
  }

  /** The three per-coordinate moments a bin carries: its weight, its sum and its sum of squares. */
  datatype Order = Zeroth | First | Second

  /** Moment of order `p` of coordinate `k` of bin `b` (zero for a coordinate the bin lacks). */
  function BinMoment(b: Bin, p: Order, k: nat): real
  {
    match p
    case Zeroth => b.count as real
    case First => if k < |b.vec| then FirstMoment(b, k) else 0.0
    case Second => if k < |b.vec| && k < |b.variance| then SecondMoment(b, k) else 0.0
  }

  /** Moment of order `p` of coordinate `k` over the whole list. */
  function MomentSum(bins: seq<Bin>, p: Order, k: nat): real
  {
    if |bins| == 0 then 0.0 else MomentSum(bins[..|bins| - 1], p, k) + BinMoment(bins[|bins| - 1], p, k)
  }

  /** Moment sums split over a concatenation. */
  lemma {:induction false} MomentSumConcat(a: seq<Bin>, b: seq<Bin>, p: Order, k: nat)
    ensures MomentSum(a + b, p, k) == MomentSum(a, p, k) + MomentSum(b, p, k)
    decreases |b|
  {
    if |b| > 0 {
      var n := |b| - 1;
      assert (a + b)[..|a + b| - 1] == a + b[..n];
      MomentSumConcat(a, b[..n], p, k);
    } else {
      assert a + b == a;
    }
  }

  /** Extending a prefix by one bin adds that bin's moment. */
  lemma MomentSumSnoc(bins: seq<Bin>, i: nat, p: Order, k: nat)
    requires i < |bins|
    ensures MomentSum(bins[..i + 1], p, k) == MomentSum(bins[..i], p, k) + BinMoment(bins[i], p, k)
  {
    assert bins[..i + 1][..i] == bins[..i];
  }

  /** Weights split over a concatenation. */
  lemma {:induction false} WeightConcat(a: seq<Bin>, b: seq<Bin>)
    ensures Weight(a + b) == Weight(a) + Weight(b)
    decreases |b|
  {
    if |b| > 0 {
      var n := |b| - 1;
      assert (a + b)[..|a + b| - 1] == a + b[..n];
      WeightConcat(a, b[..n]);
    } else {
      assert a + b == a;
    }
  }

  /** Replacing one bin changes the weight by the difference of the two bins' weights. */
  lemma {:induction false} WeightUpdate(bins: seq<Bin>, k: nat, b: Bin)
    requires k < |bins|
    ensures Weight(bins[k := b]) + bins[k].count == Weight(bins) + b.count
    decreases |bins|
  {
    var n := |bins| - 1;
    if k < n {
      assert bins[k := b][..n] == bins[..n][k := b];
      WeightUpdate(bins[..n], k, b);
    } else {
      assert bins[k := b][..n] == bins[..n];
    }
  }

  /** Replacing one bin changes every moment sum by the difference of the two bins' moments. */
  lemma {:induction false} MomentSumUpdate(bins: seq<Bin>, i: nat, b: Bin, p: Order, k: nat)
    requires i < |bins|
    ensures MomentSum(bins[i := b], p, k) + BinMoment(bins[i], p, k) == MomentSum(bins, p, k) + BinMoment(b, p, k)
    decreases |bins|
  {
    var n := |bins| - 1;
    if i < n {
      assert bins[i := b][..n] == bins[..n][i := b];
      MomentSumUpdate(bins[..n], i, b, p, k);
    } else {
      assert bins[i := b][..n] == bins[..n];
    }
  }

  /** The zeroth moment of a list is its weight, whatever the coordinate. */
  lemma {:induction false} ZerothMomentIsWeight(bins: seq<Bin>, k: nat)
    ensures MomentSum(bins, Zeroth, k) == Weight(bins) as real
    decreases |bins|
  {
    if |bins| > 0 {
      ZerothMomentIsWeight(bins[..|bins| - 1], k);
    }
  }

  /** Merging two bins adds their moments, coordinate by coordinate. */
  lemma MergeAddsMoments(b: Bin, o: Bin, d: nat, p: Order, k: nat)
    requires WellFormed(b, d) && WellFormed(o, d) && (k < d || p == Zeroth)
    ensures BinMoment(Merge(b, o), p, k) == BinMoment(b, p, k) + BinMoment(o, p, k)
  {
  }

  // ---------------------------------------------------------------------------
  // Add

  /** The all-zero vector of `n` coordinates: the slice `make([]float64, n)`. */
  function Zeros(n: nat): (z: Vector)
    ensures |z| == n && forall i :: 0 <= i < n ==> z[i] == 0.0
  {
    seq(n, i => 0.0)
  }

  /** The weight-1 bin `Add` appends for observation `m`: zero variance and a point box. */
  function Singleton(m: Vector): (b: Bin)
    ensures WellFormed(b, |m|)
    ensures b.vec == m && b.min == m && b.max == m && b.count == 1
  {
    Bin(m, Zeros(|m|), 1, m, m)
  }

  /** The singleton of `m` carries `m[k]` as its sum and `m[k]^2` as its sum of squares. */
  lemma SingletonMoments(m: Vector, k: nat)
    requires k < |m|
    ensures BinMoment(Singleton(m), First, k) == m[k]
    ensures BinMoment(Singleton(m), Second, k) == Square(m[k])
  {
    assert Singleton(m).variance[k] == 0.0;
    SquareSumOfPoint(m[k]);
  }

  /**
   * The scan of `Add`: the index of the first bin whose representative equals `probe`,
   * or `|bins|` when there is none.
   */
  function ProbeIndex(bins: seq<Bin>, probe: Vector): (r: nat)
    ensures r <= |bins|
    ensures r < |bins| ==> bins[r].vec == probe
    ensures forall i :: 0 <= i < r ==> bins[i].vec != probe
    decreases |bins|
  {
    if |bins| == 0 then 0
    else if Equals(bins[0].vec, probe) then 0
    else 1 + ProbeIndex(bins[1..], probe)
  }

  /**
   * `Add` before its `trim`, comparing against `probe`: the first bin equal to `probe`
   * gains one unit of weight and nothing else changes; with no such bin, the singleton
   * of `m` is appended.
   */
  function Insert(bins: seq<Bin>, m: Vector, probe: Vector): (r: seq<Bin>)
  {
    var k := ProbeIndex(bins, probe);
    if k < |bins| then bins[k := bins[k].(count := bins[k].count + 1)]
    else bins + [Singleton(m)]
  }

  /** `Insert` keeps every bin well formed and adds exactly one unit of weight. */
  lemma InsertKeepsInvariant(bins: seq<Bin>, m: Vector, d: nat)
    requires AllWellFormed(bins, d) && |m| == d
    ensures AllWellFormed(Insert(bins, m, Zeros(d)), d)
    ensures Weight(Insert(bins, m, Zeros(d))) == Weight(bins) + 1
    ensures |Insert(bins, m, Zeros(d))| <= |bins| + 1
  {
    var k := ProbeIndex(bins, Zeros(d));
    if k < |bins| {
      var b := bins[k].(count := bins[k].count + 1);
      assert WellFormed(b, d) by {
        assert WellFormed(bins[k], d);
      }
      WeightUpdate(bins, k, b);
      assert Insert(bins, m, Zeros(d)) == bins[k := b];
    } else {
      WeightConcat(bins, [Singleton(m)]);
      assert Insert(bins, m, Zeros(d)) == bins + [Singleton(m)];
    }
  }

  /**
   * When no bin sits at the origin, `Insert` adds exactly the observation's moments:
   * one unit of weight, `m[k]` to the sum and `m[k]^2` to the sum of squares.
   */
  lemma InsertAddsObservation(bins: seq<Bin>, m: Vector, d: nat, k: nat)
    requires AllWellFormed(bins, d) && |m| == d && k < d
    requires ProbeIndex(bins, Zeros(d)) == |bins|
    ensures MomentSum(Insert(bins, m, Zeros(d)), Zeroth, k) == MomentSum(bins, Zeroth, k) + 1.0
    ensures MomentSum(Insert(bins, m, Zeros(d)), First, k) == MomentSum(bins, First, k) + m[k]
    ensures MomentSum(Insert(bins, m, Zeros(d)), Second, k) == MomentSum(bins, Second, k) + Square(m[k])
  {
    var s := Singleton(m);
    SingletonMoments(m, k);
    assert Insert(bins, m, Zeros(d)) == bins + [s];
    assert (bins + [s])[..|bins|] == bins;
  }

  // ---------------------------------------------------------------------------
  // trim: the closest pair

  /** Pair `(a, b)` comes before `(i, j)` in the scan order of `trim`: by `i`, then by `j`. */
  predicate ScanBefore(a: int, b: int, i: int, j: int)
  {
    a < i || (a == i && b < j)
  }

  /** Squared distance between the representatives of bins `i` and `j`. */
  function PairDistance(bins: seq<Bin>, d: nat, i: nat, j: nat): (r: real)
    requires AllWellFormed(bins, d) && i < |bins| && j < |bins|
    ensures r >= 0.0
  {
    SquaredDistance(bins[i].vec, bins[j].vec)
  }

  /**
   * `(i, j)` is what the scan holds once it has visited every pair before `(ei, ej)`:
   * a pair of distinct bins visited so far, no farther apart than any visited pair, and
   * strictly closer than every visited pair before it (the scan replaces only on `<`).
   */
  predicate FirstClosestBefore(bins: seq<Bin>, d: nat, i: nat, j: nat, ei: int, ej: int)
    requires AllWellFormed(bins, d)
  {
    i < |bins| && j < |bins| && i != j && ScanBefore(i, j, ei, ej) &&
    (forall a, b :: 0 <= a < |bins| && 0 <= b < |bins| && a != b && ScanBefore(a, b, ei, ej) ==>
      PairDistance(bins, d, i, j) <= PairDistance(bins, d, a, b)) &&
    (forall a, b :: 0 <= a < |bins| && 0 <= b < |bins| && a != b && ScanBefore(a, b, i, j) ==>
      PairDistance(bins, d, i, j) < PairDistance(bins, d, a, b))
  }

  /** Every pair visited before `(ei, ej)` pairs a bin with itself: the scan has no candidate yet. */
  predicate NoPairBefore(n: int, ei: int, ej: int)
  {
    forall a, b :: 0 <= a < n && 0 <= b < n && ScanBefore(a, b, ei, ej) ==> a == b
  }

  /** Visiting `(i, j)` without replacing keeps the candidate. */
  lemma ScanKeep(bins: seq<Bin>, d: nat, mi: nat, mj: nat, i: nat, j: nat)
    requires AllWellFormed(bins, d) && i < |bins| && j < |bins|
    requires FirstClosestBefore(bins, d, mi, mj, i, j)
    requires i == j || PairDistance(bins, d, mi, mj) <= PairDistance(bins, d, i, j)
    ensures FirstClosestBefore(bins, d, mi, mj, i, j + 1)
  {
  }

  /** Visiting a strictly closer `(i, j)` makes it the candidate. */
  lemma ScanReplace(bins: seq<Bin>, d: nat, mi: nat, mj: nat, i: nat, j: nat)
    requires AllWellFormed(bins, d) && i < |bins| && j < |bins| && i != j
    requires FirstClosestBefore(bins, d, mi, mj, i, j)
    requires PairDistance(bins, d, i, j) < PairDistance(bins, d, mi, mj)
    ensures FirstClosestBefore(bins, d, i, j, i, j + 1)
  {
  }

  /** The first pair of distinct bins visited becomes the candidate. */
  lemma ScanFirst(bins: seq<Bin>, d: nat, i: nat, j: nat)
    requires AllWellFormed(bins, d) && i < |bins| && j < |bins| && i != j
    requires NoPairBefore(|bins|, i, j)
    ensures FirstClosestBefore(bins, d, i, j, i, j + 1)
  {
    forall a, b | 0 <= a < |bins| && 0 <= b < |bins| && a != b && ScanBefore(a, b, i, j + 1)
      ensures PairDistance(bins, d, i, j) <= PairDistance(bins, d, a, b)
    {
      assert !ScanBefore(a, b, i, j);
    }
  }

  /** Visiting a pair `(i, i)` leaves the scan without a candidate. */
  lemma ScanDiagonal(n: int, i: int)
    requires NoPairBefore(n, i, i)
    ensures NoPairBefore(n, i, i + 1)
  {
    var k := i + 1;
    forall a, b | 0 <= a < n && 0 <= b < n && ScanBefore(a, b, i, k)
      ensures a == b
    {
      if !ScanBefore(a, b, i, i) {
        assert a == i && b == i;
      }
    }
  }

  /**
   * The state of the scan before `(ei, ej)`: with a candidate (`found`), `(mi, mj)` is the
   * first closest pair visited and `delta` its distance; without one, no pair of distinct
   * bins has been visited.
   */
  predicate Scanned(bins: seq<Bin>, d: nat, found: bool, mi: nat, mj: nat, delta: real, ei: int, ej: int)
    requires AllWellFormed(bins, d)
  {
    if found then FirstClosestBefore(bins, d, mi, mj, ei, ej) && delta == PairDistance(bins, d, mi, mj)
    else NoPairBefore(|bins|, ei, ej)
  }

  /**
   * One visit of the scan: the pair `(i, j)` of distinct bins becomes the candidate when
   * there is none or it is strictly closer; otherwise the state carries over.
   */
  lemma ScanStep(bins: seq<Bin>, d: nat, found: bool, mi: nat, mj: nat, delta: real, i: nat, j: nat)
    requires AllWellFormed(bins, d) && i < |bins| && j < |bins|
    requires Scanned(bins, d, found, mi, mj, delta, i, j)
    ensures i != j && (!found || PairDistance(bins, d, i, j) < delta) ==>
      Scanned(bins, d, true, i, j, PairDistance(bins, d, i, j), i, j + 1)
    ensures !(i != j && (!found || PairDistance(bins, d, i, j) < delta)) ==>
      Scanned(bins, d, found, mi, mj, delta, i, j + 1)
  {
    if i == j {
      if found {
        ScanKeep(bins, d, mi, mj, i, j);
      } else {
        ScanDiagonal(|bins|, i);
      }
    } else if !found {
      ScanFirst(bins, d, i, j);
    } else if PairDistance(bins, d, i, j) < delta {
      ScanReplace(bins, d, mi, mj, i, j);
    } else {
      ScanKeep(bins, d, mi, mj, i, j);
    }
  }

  /** Finishing row `i` is starting row `i + 1`. */
  lemma ScanNextRow(bins: seq<Bin>, d: nat, found: bool, mi: nat, mj: nat, delta: real, i: nat)
    requires AllWellFormed(bins, d) && Scanned(bins, d, found, mi, mj, delta, i, |bins|)
    ensures Scanned(bins, d, found, mi, mj, delta, i + 1, 0)
  {
    if found {
      forall a, b | 0 <= a < |bins| && 0 <= b < |bins| && a != b && ScanBefore(a, b, i + 1, 0)
        ensures PairDistance(bins, d, mi, mj) <= PairDistance(bins, d, a, b)
      {
        assert ScanBefore(a, b, i, |bins|);
      }
      assert ScanBefore(mi, mj, i + 1, 0);
    } else {
      var k := i + 1;
      forall a, b | 0 <= a < |bins| && 0 <= b < |bins| && ScanBefore(a, b, k, 0)
        ensures a == b
      {
        assert ScanBefore(a, b, i, |bins|);
      }
    }
  }

  /** The pair `trim` merges: the first pair in scan order at minimal distance. */
  predicate IsClosestPair(bins: seq<Bin>, d: nat, i: nat, j: nat)
    requires AllWellFormed(bins, d)
  {
    FirstClosestBefore(bins, d, i, j, |bins|, 0)
  }

  /** There is at most one closest pair. */
  lemma ClosestPairUnique(bins: seq<Bin>, d: nat, i: nat, j: nat, i2: nat, j2: nat)
    requires AllWellFormed(bins, d)
    requires IsClosestPair(bins, d, i, j) && IsClosestPair(bins, d, i2, j2)
    ensures i == i2 && j == j2
  {
    assert PairDistance(bins, d, i, j) == PairDistance(bins, d, i2, j2);
  }

  /**
   * The closest pair has `i < j`: distance is symmetric, so `(j, i)` would be an earlier
   * pair at the same distance. Scanning only `j > i` would choose the same pair.
   */
  lemma ClosestPairOrdered(bins: seq<Bin>, d: nat, i: nat, j: nat)
    requires AllWellFormed(bins, d) && IsClosestPair(bins, d, i, j)
    ensures i < j
  {
    DistanceSymmetric(bins[i].vec, bins[j].vec);
    assert PairDistance(bins, d, i, j) == PairDistance(bins, d, j, i);
  }

  // ---------------------------------------------------------------------------
  // trim: one step and the whole loop

  /**
   * One iteration of `trim` on pair `(i, j)`: both bins are removed, the others keep their
   * order, and the merge of bin `i` with bin `j` is appended last.
   */
  function TrimStep(bins: seq<Bin>, d: nat, i: nat, j: nat): (r: seq<Bin>)
    requires AllWellFormed(bins, d) && i < |bins| && j < |bins| && i != j
    ensures |r| == |bins| - 1
    ensures AllWellFormed(r, d)
    ensures r[|r| - 1] == Merge(bins[i], bins[j])
    ensures var (lo, hi) := Sort(i, j);
      forall k :: 0 <= k < |bins| - 2 ==>
        r[k] == bins[if k < lo then k else if k < hi - 1 then k + 1 else k + 2]
  {
    var (lo, hi) := Sort(i, j);
    MergeKeepsWellFormed(bins[i], bins[j], d);
    var r := bins[..lo] + bins[lo + 1..hi] + bins[hi + 1..] + [Merge(bins[i], bins[j])];
    assert forall k :: 0 <= k < |r| - 1 ==> r[k] in bins;
    r
  }

  /** A trim step keeps every moment of every coordinate. */
  lemma TrimStepKeepsMoments(bins: seq<Bin>, d: nat, i: nat, j: nat, p: Order, k: nat)
    requires AllWellFormed(bins, d) && i < |bins| && j < |bins| && i != j && (k < d || p == Zeroth)
    ensures MomentSum(TrimStep(bins, d, i, j), p, k) == MomentSum(bins, p, k)
  {
    var (lo, hi) := Sort(i, j);
    var m := Merge(bins[i], bins[j]);
    assert TrimStep(bins, d, i, j) == bins[..lo] + bins[lo + 1..hi] + bins[hi + 1..] + [m];
    MomentSumRemovePair(bins, lo, hi, m, p, k);
    MergeAddsMoments(bins[i], bins[j], d, p, k);
  }

  /** Removing bins `lo < hi` and appending `m` trades their moments for the moment of `m`. */
  lemma MomentSumRemovePair(bins: seq<Bin>, lo: nat, hi: nat, m: Bin, p: Order, k: nat)
    requires lo < hi < |bins|
    ensures MomentSum(bins[..lo] + bins[lo + 1..hi] + bins[hi + 1..] + [m], p, k) + BinMoment(bins[lo], p, k) + BinMoment(bins[hi], p, k)
         == MomentSum(bins, p, k) + BinMoment(m, p, k)
  {
    var a, b, c := bins[..lo], bins[lo + 1..hi], bins[hi + 1..];
    assert bins == (a + [bins[lo]]) + (b + [bins[hi]]) + c;
    MomentSumSnocBin(a + b + c, m, p, k);
    MomentSumOfThree(a, b, c, p, k);
    MomentSumOfThree(a + [bins[lo]], b + [bins[hi]], c, p, k);
    MomentSumSnocBin(a, bins[lo], p, k);
    MomentSumSnocBin(b, bins[hi], p, k);
  }

  /** Moment sums split over three consecutive parts. */
  lemma MomentSumOfThree(a: seq<Bin>, b: seq<Bin>, c: seq<Bin>, p: Order, k: nat)
    ensures MomentSum(a + b + c, p, k) == MomentSum(a, p, k) + MomentSum(b, p, k) + MomentSum(c, p, k)
  {
    MomentSumConcat(a + b, c, p, k);
    MomentSumConcat(a, b, p, k);
  }

  /** Appending one bin adds its moment. */
  lemma MomentSumSnocBin(a: seq<Bin>, x: Bin, p: Order, k: nat)
    ensures MomentSum(a + [x], p, k) == MomentSum(a, p, k) + BinMoment(x, p, k)
  {
    assert (a + [x])[..|a|] == a;
  }

  /** A trim step keeps the total weight. */
  lemma TrimStepKeepsWeight(bins: seq<Bin>, d: nat, i: nat, j: nat)
    requires AllWellFormed(bins, d) && i < |bins| && j < |bins| && i != j
    ensures Weight(TrimStep(bins, d, i, j)) == Weight(bins)
  {
    TrimStepKeepsMoments(bins, d, i, j, Zeroth, 0);
    ZerothMomentIsWeight(bins, 0);
    ZerothMomentIsWeight(TrimStep(bins, d, i, j), 0);
  }

  /**
   * `trim` may turn `before` into `after`: either the list is within the budget and stays
   * as it is, or one step on the closest pair leads to a list that reaches `after`.
   */
  ghost predicate Reaches(before: seq<Bin>, after: seq<Bin>, d: nat, maxbins: int)
    requires AllWellFormed(before, d)
    decreases |before|
  {
    if |before| <= maxbins then after == before
    else exists i: nat, j: nat :: IsClosestPair(before, d, i, j) && Reaches(TrimStep(before, d, i, j), after, d, maxbins)
  }

  /** A list within the budget reaches itself: `trim` leaves it untouched. */
  lemma ReachesWithinBudget(bins: seq<Bin>, d: nat, maxbins: int)
    requires AllWellFormed(bins, d) && |bins| <= maxbins
    ensures Reaches(bins, bins, d, maxbins)
  {
  }

  /**
   * After `trim` the list fits the budget: it is untouched when it already fits, and
   * otherwise shrinks one bin per step to exactly `maxbins` bins, all well formed.
   */
  lemma {:induction false} ReachesShape(before: seq<Bin>, after: seq<Bin>, d: nat, maxbins: int)
    requires AllWellFormed(before, d) && maxbins >= 0 && Reaches(before, after, d, maxbins)
    ensures |before| <= maxbins ==> after == before
    ensures |before| > maxbins ==> |after| == maxbins
    ensures AllWellFormed(after, d)
    decreases |before|
  {
    if |before| > maxbins {
      var i: nat, j: nat :| IsClosestPair(before, d, i, j) && Reaches(TrimStep(before, d, i, j), after, d, maxbins);
      ReachesShape(TrimStep(before, d, i, j), after, d, maxbins);
    }
  }

  /** `trim` keeps the total weight and every moment of every coordinate. */
  lemma {:induction false} ReachesKeepsMoments(before: seq<Bin>, after: seq<Bin>, d: nat, maxbins: int)
    requires AllWellFormed(before, d) && Reaches(before, after, d, maxbins)
    ensures Weight(after) == Weight(before)
    ensures forall p: Order, k: nat :: k < d ==> MomentSum(after, p, k) == MomentSum(before, p, k)
    decreases |before|
  {
    if |before| > maxbins {
      var i: nat, j: nat :| IsClosestPair(before, d, i, j) && Reaches(TrimStep(before, d, i, j), after, d, maxbins);
      ReachesKeepsMoments(TrimStep(before, d, i, j), after, d, maxbins);
      TrimStepKeepsWeight(before, d, i, j);
      forall p: Order, k: nat | k < d
        ensures MomentSum(after, p, k) == MomentSum(before, p, k)
      {
        TrimStepKeepsMoments(before, d, i, j, p, k);
      }
    }
  }

  /** `trim` is deterministic: the closest pair is unique at every step. */
  lemma {:induction false} ReachesDeterministic(before: seq<Bin>, a1: seq<Bin>, a2: seq<Bin>, d: nat, maxbins: int)
    requires AllWellFormed(before, d) && Reaches(before, a1, d, maxbins) && Reaches(before, a2, d, maxbins)
    ensures a1 == a2
    decreases |before|
  {
    if |before| > maxbins {
      var i: nat, j: nat :| IsClosestPair(before, d, i, j) && Reaches(TrimStep(before, d, i, j), a1, d, maxbins);
      var i2: nat, j2: nat :| IsClosestPair(before, d, i2, j2) && Reaches(TrimStep(before, d, i2, j2), a2, d, maxbins);
      ClosestPairUnique(before, d, i, j, i2, j2);
      ReachesDeterministic(TrimStep(before, d, i, j), a1, a2, d, maxbins);
    }
  }

  // ---------------------------------------------------------------------------
  // Queries

  /** `Mean`: empty before any observation, otherwise the first moment over `total`. */
  function MeanOf(bins: seq<Bin>, total: nat, d: nat): (r: seq<real>)
    ensures total == 0 ==> r == []
    ensures total > 0 ==> |r| == d
  {
    if total == 0 then [] else seq(d, k requires 0 <= k < d => MomentSum(bins, First, k) / total as real)
  }

  /** `Variance`: empty before any observation, otherwise second moment over `total` minus the squared mean. */
  function VarianceOf(bins: seq<Bin>, total: nat, d: nat): (r: seq<real>)
    ensures total == 0 ==> r == []
    ensures total > 0 ==> |r| == d
  {
    if total == 0 then []
    else seq(d, k requires 0 <= k < d => MomentSum(bins, Second, k) / total as real - Square(MomentSum(bins, First, k) / total as real))
  }

  /**
   * Mean and variance do not depend on the bin budget: `trim` leaves both unchanged, so a
   * histogram reports the same statistics however many merges happened.
   */
  lemma TrimKeepsMeanAndVariance(before: seq<Bin>, after: seq<Bin>, total: nat, d: nat, maxbins: int)
    requires AllWellFormed(before, d) && Reaches(before, after, d, maxbins)
    ensures MeanOf(after, total, d) == MeanOf(before, total, d)
    ensures VarianceOf(after, total, d) == VarianceOf(before, total, d)
  {
    ReachesKeepsMoments(before, after, d, maxbins);
    SameSumsSameStatistics(after, before, total, d);
  }

  /** Lists with the same sums and sums of squares report the same mean and variance. */
  lemma SameSumsSameStatistics(a: seq<Bin>, b: seq<Bin>, total: nat, d: nat)
    requires forall k :: 0 <= k < d ==>
      MomentSum(a, First, k) == MomentSum(b, First, k) && MomentSum(a, Second, k) == MomentSum(b, Second, k)
    ensures MeanOf(a, total, d) == MeanOf(b, total, d)
    ensures VarianceOf(a, total, d) == VarianceOf(b, total, d)
  {
    if total > 0 {
      forall k | 0 <= k < d
        ensures MeanOf(a, total, d)[k] == MeanOf(b, total, d)[k]
        ensures VarianceOf(a, total, d)[k] == VarianceOf(b, total, d)[k]
      {
      }
    }
  }

  /**
   * The scan of `Quantile` over `bins` with running remainder `c`: the first bin whose
   * weight brings the remainder to zero or below; empty when none does.
   */
  function QuantileFrom(bins: seq<Bin>, c: real): Vector
    decreases |bins|
  {
    if |bins| == 0 then []
    else if c - bins[0].count as real <= 0.0 then bins[0].vec
    else QuantileFrom(bins[1..], c - bins[0].count as real)
  }

  /** `Quantile(q)`: the scan started from `q * total`. */
  function QuantileOf(bins: seq<Bin>, q: real, total: nat): Vector
  {
    QuantileFrom(bins, q * total as real)
  }

  /** Weight of the first `n` bins, as a real. */
  function PrefixWeight(bins: seq<Bin>, n: nat): real
    requires n <= |bins|
  {
    Weight(bins[..n]) as real
  }

  /**
   * `Quantile(q)` is the representative of the first bin at which the cumulative weight
   * reaches `q * total`.
   */
  lemma {:induction false} QuantileIsFirstReach(bins: seq<Bin>, c: real, i: nat)
    requires i < |bins| && PrefixWeight(bins, i + 1) >= c
    requires forall n :: 0 < n <= i ==> PrefixWeight(bins, n) < c
    ensures QuantileFrom(bins, c) == bins[i].vec
    decreases i
  {
    WeightConcat([bins[0]], bins[1..i + 1]);
    assert bins[..i + 1] == [bins[0]] + bins[1..i + 1];
    assert [bins[0]][..0] == [];
    if i > 0 {
      assert PrefixWeight(bins, 1) < c;
      assert bins[..1] == [bins[0]];
      var rest := bins[1..];
      var c2 := c - bins[0].count as real;
      forall n | 0 < n <= i - 1
        ensures PrefixWeight(rest, n) < c2
      {
        assert bins[..n + 1] == [bins[0]] + rest[..n];
        WeightConcat([bins[0]], rest[..n]);
        assert PrefixWeight(bins, n + 1) < c;
      }
      assert rest[..i] == bins[1..i + 1];
      QuantileIsFirstReach(rest, c2, i - 1);
    }
  }

  /** When the whole weight stays below `c`, `Quantile` finds nothing and returns empty. */
  lemma {:induction false} QuantileBeyondTotal(bins: seq<Bin>, c: real)
    requires Weight(bins) as real < c
    ensures QuantileFrom(bins, c) == []
    decreases |bins|
  {
    if |bins| > 0 {
      assert bins == [bins[0]] + bins[1..];
      WeightConcat([bins[0]], bins[1..]);
      assert [bins[0]][..0] == [];
      QuantileBeyondTotal(bins[1..], c - bins[0].count as real);
    }
  }

  /**
   * With `q <= 1` and the weights summing to `total`, `Quantile` returns the representative
   * of some bin of a non-empty histogram.
   */
  lemma {:induction false} QuantileFound(bins: seq<Bin>, c: real)
    requires |bins| > 0 && c <= Weight(bins) as real
    ensures exists i :: 0 <= i < |bins| && QuantileFrom(bins, c) == bins[i].vec
    decreases |bins|
  {
    if c - bins[0].count as real <= 0.0 {
      assert QuantileFrom(bins, c) == bins[0].vec;
    } else {
      assert bins == [bins[0]] + bins[1..];
      WeightConcat([bins[0]], bins[1..]);
      assert [bins[0]][..0] == [];
      QuantileFound(bins[1..], c - bins[0].count as real);
      var i :| 0 <= i < |bins[1..]| && QuantileFrom(bins[1..], c - bins[0].count as real) == bins[1..][i].vec;
      assert QuantileFrom(bins, c) == bins[i + 1].vec;
    }
  }

  /**
   * The per-coordinate factor of `CDF`, as written: 1 below the box, 0 at or above its
   * upper edge, and the linear interpolation inside. Always within [0, 1].
   */
  function Factor(x: real, lo: real, hi: real): (f: real)
    ensures 0.0 <= f <= 1.0
    ensures x < lo ==> f == 1.0
    ensures lo <= x && x >= hi ==> f == 0.0
  {
    if x < lo then 1.0
    else if x >= hi then 0.0
    else
      NonNegativeQuotient(x - lo, hi - lo);
      assert (x - lo) / (hi - lo) <= 1.0 by { DivideThenScale(x - lo, hi - lo); }
      (x - lo) / (hi - lo)
  }

  /** The weight of bin `b` scaled by the factors of its first `j` coordinates. */
  function Mass(b: Bin, x: Vector, j: nat): (r: real)
    requires j <= |x| && j <= |b.min| && j <= |b.max|
    ensures 0.0 <= r <= b.count as real
  {
    if j == 0 then b.count as real
    else
      var r0 := Mass(b, x, j - 1);
      var f := Factor(x[j - 1], b.min[j - 1], b.max[j - 1]);
      ScaledBelow(r0, f, b.count as real);
      r0 * f
  }

  /** One more coordinate multiplies the mass by that coordinate's factor. */
  lemma MassStep(b: Bin, x: Vector, j: nat, r: real, f: real)
    requires j < |x| && j < |b.min| && j < |b.max|
    requires r == Mass(b, x, j) && f == Factor(x[j], b.min[j], b.max[j])
    ensures Mass(b, x, j + 1) == r * f
  {
  }

  /** Sum of the bin masses over the whole list. */
  function CdfSum(bins: seq<Bin>, x: Vector, d: nat): (r: real)
    requires AllShaped(bins, d) && |x| == d
    ensures 0.0 <= r <= Weight(bins) as real
  {
    if |bins| == 0 then 0.0
    else
      assert AllShaped(bins[..|bins| - 1], d);
      CdfSum(bins[..|bins| - 1], x, d) + Mass(bins[|bins| - 1], x, d)
  }

  /** `CDF`: -1 on a dimension mismatch, otherwise the summed masses over `total`. */
  function CdfOf(bins: seq<Bin>, x: Vector, total: nat, d: nat): real
    requires AllShaped(bins, d) && (|x| == d ==> total > 0)
  {
    if |x| != d then -1.0 else CdfSum(bins, x, d) / total as real
  }

  /** A value in [0, w] scaled by a factor in [0, 1] stays in [0, w]. */
  lemma ScaledBelow(r: real, f: real, w: real)
    requires 0.0 <= r <= w && 0.0 <= f <= 1.0
    ensures 0.0 <= r * f <= w
  {
    NonNegativeProduct(r, f);
    NonNegativeProduct(r, 1.0 - f);
  }

  /** With the weights summing to `total`, `CDF` lies in [0, 1] or is the mismatch marker -1. */
  lemma CdfBounded(bins: seq<Bin>, x: Vector, total: nat, d: nat)
    requires AllWellFormed(bins, d) && Weight(bins) == total && (|x| == d ==> total > 0)
    ensures |x| != d ==> CdfOf(bins, x, total, d) == -1.0
    ensures |x| == d ==> 0.0 <= CdfOf(bins, x, total, d) <= 1.0
  {
    if |x| == d {
      var s := CdfSum(bins, x, d);
      NonNegativeQuotient(s, total as real);
      NonNegativeQuotient(total as real - s, total as real);
      DivSplit(s, total as real - s, total as real);
    }
  }

  /** Below the lower corner of every box, every bin keeps its whole weight. */
  lemma {:induction false} MassBelowBox(b: Bin, x: Vector, j: nat)
    requires j <= |x| && j <= |b.min| && j <= |b.max|
    requires forall k :: 0 <= k < j ==> x[k] < b.min[k]
    ensures Mass(b, x, j) == b.count as real
  {
    if j > 0 {
      MassBelowBox(b, x, j - 1);
    }
  }

  /** At or above the upper corner of a box in every coordinate, a bin contributes nothing. */
  lemma {:induction false} MassAboveBox(b: Bin, x: Vector, j: nat)
    requires 0 < j <= |x| && j <= |b.min| && j <= |b.max|
    requires forall k :: 0 <= k < j ==> x[k] >= b.max[k] && b.min[k] <= b.max[k]
    ensures Mass(b, x, j) == 0.0
  {
    if j > 1 {
      MassAboveBox(b, x, j - 1);
    }
    if x[j - 1] < b.min[j - 1] {
      assert false;
    }
  }

  /** Below every bin's box in all coordinates, the masses add up to the whole weight. */
  lemma {:induction false} CdfSumBelowAll(bins: seq<Bin>, x: Vector, d: nat)
    requires AllShaped(bins, d) && |x| == d
    requires forall i, k :: 0 <= i < |bins| && 0 <= k < d ==> x[k] < bins[i].min[k]
    ensures CdfSum(bins, x, d) == Weight(bins) as real
    decreases |bins|
  {
    if |bins| > 0 {
      var n := |bins| - 1;
      assert AllShaped(bins[..n], d);
      CdfSumBelowAll(bins[..n], x, d);
      MassBelowBox(bins[n], x, d);
    }
  }

  /** `x` is at or above the upper corner of the (ordered) box of `b` in all `d` coordinates. */
  predicate AboveBox(b: Bin, x: Vector, d: nat)
    requires |x| == d && Shaped(b, d)
  {
    forall k :: 0 <= k < d ==> x[k] >= b.max[k] && b.min[k] <= b.max[k]
  }

  /** At or above every bin's box in all coordinates (with `d > 0`), the masses add up to zero. */
  lemma {:induction false} CdfSumAboveAll(bins: seq<Bin>, x: Vector, d: nat)
    requires AllShaped(bins, d) && |x| == d && d > 0
    requires forall i :: 0 <= i < |bins| ==> AboveBox(bins[i], x, d)
    ensures CdfSum(bins, x, d) == 0.0
    decreases |bins|
  {
    if |bins| > 0 {
      var n := |bins| - 1;
      var prefix := bins[..n];
      assert forall i :: 0 <= i < n ==> prefix[i] == bins[i];
      CdfSumAboveAll(prefix, x, d);
      assert AboveBox(bins[n], x, d);
      MassAboveBox(bins[n], x, d);
    }
  }

  /** `CDF` as written is 1 at a point below every bin's box in all coordinates. */
  lemma CdfBelowAllIsOne(bins: seq<Bin>, x: Vector, total: nat, d: nat)
    requires AllWellFormed(bins, d) && Weight(bins) == total && |x| == d && total > 0
    requires forall i, k :: 0 <= i < |bins| && 0 <= k < d ==> x[k] < bins[i].min[k]
    ensures CdfOf(bins, x, total, d) == 1.0
  {
    CdfSumBelowAll(bins, x, d);
    var t := total as real;
    calc {
      CdfOf(bins, x, total, d);
      CdfSum(bins, x, d) / t;
      t / t;
      { SelfQuotient(t); }
      1.0;
    }
  }

  /** `CDF` as written is 0 at a point at or above every bin's box in all coordinates. */
  lemma CdfAboveAllIsZero(bins: seq<Bin>, x: Vector, total: nat, d: nat)
    requires AllWellFormed(bins, d) && |x| == d && d > 0 && total > 0
    requires forall i, k :: 0 <= i < |bins| && 0 <= k < d ==> x[k] >= bins[i].max[k]
    ensures CdfOf(bins, x, total, d) == 0.0
  {
    forall i | 0 <= i < |bins|
      ensures AboveBox(bins[i], x, d)
    {
      assert WellFormed(bins[i], d);
    }
    CdfSumAboveAll(bins, x, d);
  }
}
