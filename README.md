# histogram: a streaming multi-dimensional histogram sketch, in Dafny

This project models the bin-management engine of the Go package `histogram`. A histogram
of dimension `d` keeps at most `maxbins` bins. Each bin stands for a cluster of
observations and records five things:

- a weight (`count`);
- a representative point (`vec`, the cluster mean);
- a per-coordinate variance;
- the lower corner of the cluster's bounding box (`min`);
- the upper corner of the bounding box (`max`).

`Add` either gives an existing bin one more unit of weight or appends a weight-1 bin for
the observation. `trim` then repeats one step while the list is over budget: it finds the
closest ordered pair of bins in scan order, removes both, and appends their merge. The
queries `Mean`, `Variance`, `Quantile`, `CDF` and `Count` read the bins.

Coordinates are exact reals (`real`), vectors are `seq<real>`, and a bin is a datatype
with a `nat` weight. The modules follow the three source files:

- `Util` (util.dfy) models util.go: `sort`, `square`, `min`/`max`, `add`/`subtract`,
  `linspace`.
- `Arith` (arith.dfy) holds facts of real arithmetic used by the merge proofs.
- `Vectors` (vector.dfy) models vector.go: distance, `LessThanOrEqualTo`, `Equals`, the
  bin, and `Merge` by the combined-moments formula.
- `HistogramSpec` (histogram_spec.dfy) holds the functions that say what histogram.go
  computes:
  - the moment sums of a bin list;
  - the insertion step of `Add`;
  - the closest pair and one `trim` step;
  - the relation `Reaches` between a list and what `trim` leaves of it;
  - the queries.
- `Histograms` (histogram.dfy) is the histogram itself: a class whose methods `Add` and
  `Trim` update `bins`, `total` and a ghost record of the accepted observations in place.
  The query methods keep the source's loops and are proved against `HistogramSpec`.
- `Findings` (findings.dfy) holds three departures of the code from what it evidently
  means to compute. Each is shown on a concrete input, and each has a corrected
  definition with the intended property proved about it.

The class models the code as written, including its quirks:

- `Add` probes for a bin at the all-zero vector.
- A matching bin only gains weight.
- `CDF` has its tail factors swapped.

The main results are these:

- **Merges conserve moments.** A merge adds the weights and conserves each coordinate's
  weighted sum and sum of squares. The merged box contains both boxes, and the merged
  representative stays inside it.
- **`trim` stays within budget and is deterministic.** It leaves exactly `maxbins` bins
  when over budget and keeps weight and moments, so mean and variance are unchanged. The
  closest pair it picks is unique, so the outcome is deterministic.
- **`Add` keeps the histogram invariant.** The invariant is:
  - the list fits the budget;
  - every bin is well formed;
  - the weights sum to `total`;
  - `total` counts the accepted observations.
- **The corrected insertion reports the observations' statistics.** With it, mean and
  variance are those of the observations, for every bin budget. The test suite asserts
  exactly this.

## Model

| member | source | states |
|---|---|---|
| Util.Sort | src/histogram/util.go:55-60 | the first component is at most the second, and the pair is `(x, y)` or `(y, x)` |
| Util.Square | src/histogram/util.go:51-53 | defines `square` as a value times itself (no ensures; its sign is stated by `SquareNonNegative`) |
| Util.SquareNonNegative | src/histogram/util.go:51-53 | a square is never negative |
| Util.SquareZero | src/histogram/util.go:51-53 | a square is zero exactly when its argument is zero |
| Util.Max | src/histogram/util.go:62-67 | the result is at least both arguments and is one of them |
| Util.Min | src/histogram/util.go:69-74 | the result is at most both arguments and is one of them |
| Util.Plus | src/histogram/util.go:27-37 | defines the result of `add`: empty when the lengths differ, else the coordinate-wise sum (the method `Util.Add` is proved against it) |
| Util.Minus | src/histogram/util.go:39-49 | defines the result of `subtract`: empty when the lengths differ, else the coordinate-wise difference (the method `Util.Subtract` is proved against it) |
| Util.Add | src/histogram/util.go:27-37 | empty when the lengths differ; otherwise of length `len(x)` with `r[i] = x[i] + y[i]` |
| Util.Subtract | src/histogram/util.go:39-49 | empty when the lengths differ; otherwise of length `len(x)` with `r[i] = x[i] - y[i]` |
| Util.SubtractUndoesAdd | src/histogram/util.go:27-49 | over reals, subtracting `y` undoes adding `y`, and adding `y` undoes subtracting `y` |
| Util.Linspace | src/histogram/util.go:83-95 | one point gives `[start]`; otherwise `num` points; from two points on, the first is `start`, the last is `stop`, and consecutive points differ by `(stop - start) / (num - 1)` |
| Vectors.SquaredDistance | src/histogram/vector.go:77-85 | the squared distance is non-negative |
| Vectors.DistanceSymmetric | src/histogram/vector.go:77-85 | the distance from `v` to `o` equals the distance from `o` to `v` |
| Vectors.DistanceZeroIffEqual | src/histogram/vector.go:77-85 | between vectors of one length, the distance is zero exactly when they are equal, so it is zero from a vector to itself |
| Vectors.LessThanOrEqualTo | src/histogram/vector.go:87-98 | true exactly when every coordinate of `v` is at most the same coordinate of `o` |
| Vectors.LessThanOrEqualToPreorder | src/histogram/vector.go:87-98 | the comparison is reflexive and transitive |
| Vectors.Equals | src/histogram/vector.go:104-114 | true exactly when the vectors have the same length and the same coordinates |
| Vectors.MergedFirstMoment | src/histogram/vector.go:28 | the merged weight times the merged mean is the sum of the two weighted means |
| Vectors.MergedSecondMoment | src/histogram/vector.go:30-32 | the merged weight times (variance plus squared mean) is the sum of the same quantity over the two bins |
| Vectors.Merge | src/histogram/vector.go:17-55 | the result has the receiver's dimension and the summed weight; it conserves each coordinate's weighted sum and sum of squares; each corner of its box is the smaller (larger) of the two corners, so the box contains both boxes |
| Vectors.MergedMeanInBox | src/histogram/vector.go:28-44 | with positive weights and both representatives inside their boxes, the merged representative lies inside the merged box |
| Vectors.MergedVarianceNonNegative | src/histogram/vector.go:30-32 | non-negative input variances give a non-negative merged variance |
| Vectors.MergeKeepsWellFormed | src/histogram/vector.go:17-55 | merging two well-formed bins gives a well-formed bin: positive weight, representative in the box, variance non-negative |
| Vectors.MergeCommutative | src/histogram/vector.go:17-55 | `b.Merge(o)` equals `o.Merge(b)` |
| Vectors.MergeAssociativeWeightAndBox | src/histogram/vector.go:20-44 | merging three bins either way round gives the same weight and the same box |
| HistogramSpec.MergeAddsMoments | src/histogram/vector.go:17-55 | a merged bin's weight, sum and sum of squares are those of the two inputs added |
| HistogramSpec.Zeros | src/histogram/histogram.go:41 | the probe `v` of `Add`: a vector of the given length whose every coordinate is 0 |
| HistogramSpec.Singleton | src/histogram/histogram.go:53 | the appended bin is well formed, has weight 1, and has representative and both corners equal to the observation |
| HistogramSpec.ProbeIndex | src/histogram/histogram.go:47-52 | the index of the first bin whose representative equals the probe, or the list length when there is none |
| HistogramSpec.Insert | src/histogram/histogram.go:46-53 | defines the insertion step of `Add` before `trim`: the first bin equal to the probe gains one unit of weight and nothing else changes, or else the observation's singleton is appended (no ensures; its properties are `InsertKeepsInvariant` and `InsertAddsObservation`) |
| HistogramSpec.InsertKeepsInvariant | src/histogram/histogram.go:46-53 | the insertion step keeps every bin well formed, adds exactly one unit of weight and adds at most one bin |
| HistogramSpec.InsertAddsObservation | src/histogram/histogram.go:53 | appending the observation's bin adds one to the weight, the observation to each coordinate sum and its square to each sum of squares |
| HistogramSpec.IsClosestPair | src/histogram/histogram.go:166-183 | defines the pair the scan of `trim` picks: `i != j`, no pair has a smaller distance, and no pair of equal distance comes earlier in scan order (by `i`, then `j`) (no ensures; `ClosestPairUnique` and `ClosestPairOrdered` are its properties) |
| HistogramSpec.ClosestPairUnique | src/histogram/histogram.go:170-183 | the first pair in scan order with the smallest distance is unique |
| HistogramSpec.ClosestPairOrdered | src/histogram/histogram.go:170-183 | that pair has `min_i < min_j`, because the distance is symmetric |
| HistogramSpec.TrimStep | src/histogram/histogram.go:186-198 | one step leaves one bin fewer, all bins well formed, and the merge of the pair last; the bins before it are the input without bins `i` and `j`, in their original order |
| HistogramSpec.TrimStepKeepsMoments | src/histogram/histogram.go:186-198 | one step keeps every coordinate's weight, sum and sum of squares over the list |
| HistogramSpec.TrimStepKeepsWeight | src/histogram/histogram.go:186-198 | one step keeps the total weight |
| HistogramSpec.Reaches | src/histogram/histogram.go:164-200 | defines `trim` as a whole: a list within the budget is left as it is, and a longer one takes one step on its closest pair and continues (no ensures; `ReachesShape`, `ReachesKeepsMoments` and `ReachesDeterministic` are its properties) |
| HistogramSpec.ReachesWithinBudget | src/histogram/histogram.go:165 | `trim` leaves a list within the budget as it is |
| HistogramSpec.ReachesShape | src/histogram/histogram.go:164-200 | after `trim`, a list within the budget is unchanged, one over the budget has exactly `maxbins` bins, and every bin is well formed |
| HistogramSpec.ReachesKeepsMoments | src/histogram/histogram.go:164-200 | `trim` keeps the total weight and every coordinate's sum and sum of squares |
| HistogramSpec.ReachesDeterministic | src/histogram/histogram.go:164-200 | `trim` has exactly one possible outcome |
| HistogramSpec.MeanOf | src/histogram/histogram.go:57-75 | empty when `total` is 0, otherwise one entry per dimension |
| HistogramSpec.VarianceOf | src/histogram/histogram.go:78-97 | empty when `total` is 0, otherwise one entry per dimension |
| HistogramSpec.TrimKeepsMeanAndVariance | src/histogram/sample_test.go:30-50 | `Mean` and `Variance` are the same before and after `trim`, so they do not depend on the number of merges |
| HistogramSpec.QuantileFrom | src/histogram/histogram.go:101-109 | defines the walk of `Quantile` from a running remainder: subtract each weight in order and return the representative of the first bin that brings the remainder to 0 or below, or empty (no ensures; characterised by `QuantileIsFirstReach`, `QuantileBeyondTotal`, `QuantileFound`) |
| HistogramSpec.QuantileOf | src/histogram/histogram.go:99-110 | defines `Quantile(q)`: the walk started from `q * total` (no ensures) |
| HistogramSpec.QuantileIsFirstReach | src/histogram/histogram.go:99-110 | the result is the representative of the first bin at which the cumulative weight reaches `q * total` |
| HistogramSpec.QuantileBeyondTotal | src/histogram/histogram.go:99-110 | the result is empty when `q * total` exceeds the total weight |
| HistogramSpec.QuantileFound | src/histogram/histogram.go:99-110 | with at least one bin and `q * total` at most the total weight, the result is some bin's representative |
| HistogramSpec.Factor | src/histogram/histogram.go:127-133 | a coordinate's factor lies in [0, 1]; it is 1 below the box and 0 at or above its upper corner |
| HistogramSpec.Mass | src/histogram/histogram.go:119-135 | a bin's scaled weight lies between 0 and its weight |
| HistogramSpec.CdfSum | src/histogram/histogram.go:117-137 | the summed scaled weights lie between 0 and the total weight |
| HistogramSpec.CdfOf | src/histogram/histogram.go:112-140 | defines `CDF`: -1 on a dimension mismatch, otherwise the summed masses over `total` (no ensures; its properties are `CdfBounded`, `CdfBelowAllIsOne` and `CdfAboveAllIsZero`) |
| HistogramSpec.CdfBounded | src/histogram/histogram.go:112-140 | `CDF` is -1 on a dimension mismatch, and otherwise lies in [0, 1] when the weights sum to `total > 0` |
| HistogramSpec.CdfBelowAllIsOne | src/histogram/histogram.go:112-140 | `CDF` is 1 at a point below every bin's lower corner in all coordinates |
| HistogramSpec.CdfAboveAllIsZero | src/histogram/histogram.go:112-140 | `CDF` is 0 at a point at or above every bin's upper corner in all coordinates |
| Histograms.FindClosestPair | src/histogram/histogram.go:166-183 | the scan returns the first pair in scan order (by `i`, then `j`, with `i != j`) whose distance is smallest |
| Histograms.FindBin | src/histogram/histogram.go:47-52 | the loop of `Add` stops at the first bin equal to the probe, or at the end |
| Histograms.FirstMoments | src/histogram/histogram.go:62-68 | the accumulation loop of `Mean` yields each coordinate's weighted sum over the bins |
| Histograms.SecondMoments | src/histogram/histogram.go:83-90 | the accumulation loop of `Variance` yields each coordinate's weighted sum of variance plus squared representative |
| Histograms.BinMass | src/histogram/histogram.go:119-135 | the inner loop of `CDF` yields the bin's weight scaled by every coordinate's factor |
| Histograms.Histogram.constructor | src/histogram/histogram.go:30-37 | a new histogram has no bins, total 0, the given budget and dimension, and satisfies the invariant |
| Histograms.Histogram.Add | src/histogram/histogram.go:39-55 | a vector of another dimension changes nothing. Otherwise `total` grows by one and the observation is recorded. The bins become what `trim` leaves of the insertion step: the first bin at the all-zero vector gains one unit of weight, or else the observation's bin is appended. The invariant is kept |
| Histograms.Histogram.Trim | src/histogram/histogram.go:164-200 | the loop ends in a list `Reaches` relates to the list before; it fits the budget, keeps all bins well formed and keeps the total weight |
| Histograms.Histogram.Mean | src/histogram/histogram.go:57-75 | the result is `MeanOf` the bins: empty before any observation, else each coordinate's weighted sum over `total` |
| Histograms.Histogram.Variance | src/histogram/histogram.go:78-97 | the result is `VarianceOf` the bins: empty before any observation, else each coordinate's second moment over `total` minus the squared mean |
| Histograms.Histogram.Quantile | src/histogram/histogram.go:99-110 | the result is `QuantileOf` the bins, the scan the quantile lemmas characterise |
| Histograms.Histogram.CDF | src/histogram/histogram.go:112-140 | the result is `CdfOf` the bins: -1 on a dimension mismatch, else the scaled weights over `total` |
| Histograms.Histogram.Count | src/histogram/histogram.go:158-160 | `Count` is the number of accepted observations |
| Findings.SampleMean | src/histogram/histogram_test.go:30-39 | the observations' mean, as the tests compute it: empty for no observations, else one entry per dimension |
| Findings.SampleVariance | src/histogram/histogram_test.go:49-58 | the observations' mean squared deviation, as the tests compute it: empty for no observations, else one entry per dimension |
| Findings.SampleVarianceFromMoments | src/histogram/histogram_test.go:49-58 | the mean squared deviation equals the mean of the squares minus the squared mean |
| Findings.ZeroProbeFoldsObservation | src/histogram/histogram.go:41-50 | adding [0] and then [5] leaves one bin at [0] of weight 2, so `Mean` is [0] where the observations' mean is [2.5] |
| Findings.BumpAtOrigin | src/histogram/histogram.go:47-50 | when a bin sits at the origin, the insertion leaves every coordinate sum unchanged and adds that bin's variance to the sums of squares, whatever the observation |
| Findings.CountBumpKeepsVariance | src/histogram/histogram.go:47-50 | with budget 1, adding [-1], [1] and then [0] gives `Variance` [1] where the observations' variance is [2/3] |
| Findings.InsertIntended | src/histogram/histogram.go:46-53 | the corrected insertion keeps every bin well formed, adds one unit of weight and at most one bin |
| Findings.InsertIntendedAddsObservation | src/histogram/histogram.go:46-53 | the corrected insertion adds the observation to each coordinate sum and its square to each sum of squares |
| Findings.IntendedRun | src/histogram/histogram.go:39-55 | defines a run of the corrected histogram: the bins reached from the empty list by, for each accepted observation in order, the corrected insertion followed by `trim` (no ensures) |
| Findings.IntendedRunShape | src/histogram/histogram.go:39-55 | after any corrected run with budget at least 1, the bins fit the budget, are well formed and weigh as many as the observations |
| Findings.IntendedRunSummarises | src/histogram/sample_test.go:30-50 | after any corrected run, the bins carry exactly the observations' coordinate sums and sums of squares |
| Findings.IntendedStatistics | src/histogram/histogram_test.go:42-66 | after any corrected run, `Mean` and `Variance` equal the observations' mean and variance |
| Findings.IntendedBudgetIndependent | src/histogram/sample_test.go:30-50 | two corrected runs over the same observations with different budgets report the same mean and variance |
| Findings.CdfTailsSwapped | src/histogram/histogram.go:127-133 | for one bin at [5], `CDF([0])` is 1 and `CDF([10])` is 0 |
| Findings.FactorIntended | src/histogram/histogram.go:127-133 | the corrected factor lies in [0, 1]; it is 0 below the box and 1 at or above its upper corner |
| Findings.MassIntended | src/histogram/histogram.go:119-135 | the corrected scaled weight of a bin lies between 0 and its weight |
| Findings.CdfIntendedSum | src/histogram/histogram.go:117-137 | the corrected masses sum to between 0 and the total weight |
| Findings.CdfIntended | src/histogram/histogram.go:112-140 | defines the corrected `CDF`: -1 on a dimension mismatch, otherwise the corrected masses over `total` (no ensures; its properties are `CdfIntendedBounded`, `CdfIntendedBelowAllIsZero` and `CdfIntendedAboveAllIsOne`) |
| Findings.CdfIntendedBounded | src/histogram/histogram.go:112-140 | the corrected `CDF` is -1 on a dimension mismatch, and otherwise lies in [0, 1] |
| Findings.CdfIntendedBelowAllIsZero | src/histogram/histogram.go:112-140 | the corrected `CDF` is 0 at a point below some lower corner of every bin |
| Findings.CdfIntendedAboveAllIsOne | src/histogram/histogram.go:112-140 | the corrected `CDF` is 1 at a point at or above every bin's upper corner in all coordinates |

## Left out

- The `String` methods of the histogram and of `vector` are not modelled. They only format debug output.
- The exported `Histogram` interface is not modelled. It only lists signatures.
- example.go is not part of this model.
- The test files are not modelled as code. They use random data and print results; their assertions are stated as lemmas instead.
- Floating point is not modelled. Coordinates are exact reals, so there is no rounding in the merge and variance formulas.
- `approx`, `approx2`, `pow`, `sqrt` and `log` in util.go are not modelled. They are thin wrappers over `math`, or test tolerances.
- The `fmt.Println` calls inside `add` and `subtract` are output only and are not modelled.
- Slice aliasing is not modelled, because vectors are immutable values here:
  - `NewVector` keeps the caller's slice, so a bin shares memory with the caller's input;
  - `Quantile` hands out a bin's internal slice.
- The accessors `NewVector`, `Dimension`, `Value` and `Values` are not separate members. They are sequence construction, length, indexing and the sequence itself.
- `total` is a `uint64` in the source. It is a `nat` here, so overflow is not modelled.
- A bin's weight is a `float64` in the source. It is a `nat` here, which is exact: weights start at 1 and only increase or add.
- The loops of `Distance`, `Equals`, `LessThanOrEqualTo` and `Merge` are written as recursive functions or sequence comprehensions. They do not mutate their inputs.
- The accumulation loops of `Add`, `Mean`, `Variance` and `CDF` are separate methods: `FindBin`, `FirstMoments`, `SecondMoments` and `BinMass`. The divide loops of `Mean` and `Variance` and the outer loop of `CDF` stay in those methods, and `Variance` calls `Mean` before it accumulates, as the source does.
- The sentinel `minDelta := 1e99` in `trim` is modelled as "no candidate yet": the first pair visited becomes the candidate, so a pair at distance 1e99 or more is still considered. In the source, when no pair is closer than 1e99, `min_i = min_j = 0` stay as set at histogram.go:168-169. `bins[0]` is then merged with itself at line 186, and the slice `h.bins[1:0]` at line 192 panics. `Trim` instead merges the first closest pair.
- Vectors.SquaredDistance: the square root of `Distance` is left out. It is monotone, so the closest pair `trim` picks is the same.
- Vectors.Merge: requires a positive combined weight. With weight zero the source divides by zero and produces NaN.
- Vectors.MergeAssociativeWeightAndBox: states associativity for weight and box only, not for the representative and variance.
- Histograms.Histogram.constructor: requires a budget of at least 1. With `maxbins <= 0`, the first `Add` makes `trim` slice `bins[1:0]` and panic.
- Histograms.Histogram.constructor: the dimension is a `nat`. `NewHistogram` accepts a negative dimension, with which every `Add` is ignored (no vector has negative length) and `CDF` always returns -1; the model does not cover that case.
- Histograms.Histogram.Mean: requires every bin to have the histogram's dimension. The invariant provides this; the source would index out of range otherwise.
- Histograms.Histogram.Variance: requires every bin to have the histogram's dimension, as `Mean` does.
- Histograms.Histogram.CDF: requires `total > 0` when the dimension matches. The source divides by zero and returns NaN at `total == 0`.
- HistogramSpec.CdfAboveAllIsZero: requires dimension at least 1. In dimension 0 no factor applies, and `CDF` is 1.
- Util.Linspace: `num` is a `nat`. A negative `num` makes the source's `make` panic.
- The class `Histogram` uses the insertion and the `CDF` as written. The corrected definitions live in `Findings` and are used only by the lemmas about corrected runs.
- Monotonicity of the corrected `CDF` in `x` is not stated.

## Findings

| source | as written | input that shows it | evidently intended | confidence | as-written member | corrected member |
|---|---|---|---|---|---|---|
| src/histogram/histogram.go:41-48 | `Add` compares each bin's representative with `v`, the freshly made all-zero vector, not with the observation `m` | dimension 1, budget at least 1: `Add([0])`, then `Add([5])`. The second observation only bumps the bin at [0], so `Mean` is [0] instead of [2.5] | look for a bin equal to the observation | high; not executed | Findings.ZeroProbeFoldsObservation | Findings.IntendedStatistics |
| src/histogram/histogram.go:47-50 | a matching bin only gains a unit of weight. For a bin with non-zero variance, this adds the variance to the sum of squares instead of the square of the observation | dimension 1, budget 1: `Add([-1])`, `Add([1])`, `Add([0])`. The merged bin at [0] has variance 1 and is bumped, so `Variance` is [1] where the observations' variance is [2/3] | merge the observation into the bin, so that its weight, sum and sum of squares all count | high; not executed | Findings.CountBumpKeepsVariance | Findings.IntendedBudgetIndependent |
| src/histogram/histogram.go:127-133 | the factor is 1 when the point is below the box and 0 when it is at or above it | one bin at [5]: `CDF([0])` is 1 and `CDF([10])` is 0 | factor 0 below the box and 1 at or above it, as for a distribution function | high; not executed | Findings.CdfTailsSwapped | Findings.CdfIntendedAboveAllIsOne |
