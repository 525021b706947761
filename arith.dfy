/**
 * Facts of exact real arithmetic used by the bin-merge proofs. Each is stated over plain
 * real variables, so that the solver sees a small polynomial problem.
 */
module Arith {
  import opened Util

  /** Dividing by a non-zero weight and scaling back is the identity. */
  lemma DivideThenScale(s: real, w: real)
    requires w != 0.0
    ensures w * (s / w) == s
  {
  }

  /** A non-zero value over itself is one. */
  lemma SelfQuotient(t: real)
    requires t != 0.0
    ensures t / t == 1.0
  {
  }

  /** Non-negative factors give a non-negative product. */
  lemma NonNegativeProduct(a: real, b: real)
    requires a >= 0.0 && b >= 0.0
    ensures a * b >= 0.0
  {
  }

  /** A non-negative value over a positive weight is non-negative. */
  lemma NonNegativeQuotient(a: real, w: real)
    requires a >= 0.0 && w > 0.0
    ensures a / w >= 0.0
  {
  }

  /** The weighted mean of two values `xb`, `xo` with weights `wb`, `wo`. */
  function WeightedMean(wb: real, wo: real, xb: real, xo: real): real
    requires wb + wo != 0.0
  {
    (wb * xb + wo * xo) / (wb + wo)
  }

  /**
   * The variance of the union of two groups with weights `wb`, `wo`, means `xb`, `xo` and
   * variances `vb`, `vo`: the pooled second moment over the total weight, minus the squared mean.
   */
  function CombinedVariance(wb: real, wo: real, xb: real, xo: real, vb: real, vo: real): real
    requires wb + wo != 0.0
  {
    (wb * (vb + Square(xb)) + wo * (vo + Square(xo))) / (wb + wo) - Square(WeightedMean(wb, wo, xb, xo))
  }

  /** A convex combination of two points of `[lo, hi]` stays in `[lo, hi]`. */
  lemma WeightedMeanBetween(wb: real, wo: real, xb: real, xo: real, lo: real, hi: real)
    requires wb >= 0.0 && wo >= 0.0 && wb + wo > 0.0
    requires lo <= xb <= hi && lo <= xo <= hi
    ensures lo <= WeightedMean(wb, wo, xb, xo) <= hi
  {
    var w, s := wb + wo, wb * xb + wo * xo;
    NonNegativeProduct(wb, xb - lo);
    NonNegativeProduct(wo, xo - lo);
    NonNegativeProduct(wb, hi - xb);
    NonNegativeProduct(wo, hi - xo);
    NonNegativeQuotient(s - w * lo, w);
    NonNegativeQuotient(w * hi - s, w);
    calc {
      s / w - lo;
      (s - w * lo) / w;
    }
    calc {
      hi - s / w;
      (w * hi - s) / w;
    }
    assert WeightedMean(wb, wo, xb, xo) == s / w;
  }

  /** The between-group gap: `w * e2 - s * s` factors as `wb * wo * (xb - xo)^2`. */
  lemma GapIdentity(w: real, s: real, e2: real, wb: real, wo: real, xb: real, xo: real)
    requires w == wb + wo && s == wb * xb + wo * xo && e2 == wb * (xb * xb) + wo * (xo * xo)
    ensures w * e2 - s * s == wb * wo * ((xb - xo) * (xb - xo))
  {
  }

  /** Scaling `e2 / w - m * m` by `w * w` clears the denominators. */
  lemma ScaledGap(w: real, e2: real, s: real, m: real, d: real, p: real)
    requires w != 0.0 && m == s / w && d == e2 / w - m * m && p == w * w
    ensures p * d == w * e2 - s * s
  {
  }

  /** A non-negative product with a positive factor has a non-negative co-factor. */
  lemma NonNegativeFactor(p: real, d: real)
    requires p > 0.0 && p * d >= 0.0
    ensures d >= 0.0
  {
  }

  /** Positive factors give a positive product. */
  lemma PositiveProduct(a: real, b: real)
    requires a > 0.0 && b > 0.0
    ensures a * b > 0.0
  {
  }

  /** Division distributes over a sum. */
  lemma DivSplit(a: real, b: real, w: real)
    requires w != 0.0
    ensures (a + b) / w == a / w + b / w
  {
  }

  /**
   * The pooled variance of two groups is the weighted within-group variance plus a
   * non-negative between-group term, hence non-negative.
   */
  lemma CombinedVarianceNonNegative(wb: real, wo: real, xb: real, xo: real, vb: real, vo: real)
    requires wb >= 0.0 && wo >= 0.0 && wb + wo > 0.0 && vb >= 0.0 && vo >= 0.0
    ensures CombinedVariance(wb, wo, xb, xo, vb, vo) >= 0.0
  {
    var w := wb + wo;
    var s := wb * xb + wo * xo;
    var m := s / w;
    var e2 := wb * (xb * xb) + wo * (xo * xo);
    var v := wb * vb + wo * vo;
    DivideThenScale(s, w);
    DivideThenScale(e2, w);
    // the within-bin part
    NonNegativeProduct(wb, vb);
    NonNegativeProduct(wo, vo);
    NonNegativeQuotient(v, w);
    // the between-bin part
    var d := e2 / w - m * m;
    var p, k, g := w * w, wb * wo, Square(xb - xo);
    calc {
      p * d;
      { ScaledGap(w, e2, s, m, d, p); }
      w * e2 - s * s;
      { GapIdentity(w, s, e2, wb, wo, xb, xo); }
      k * ((xb - xo) * (xb - xo));
      k * g;
      >= { NonNegativeProduct(wb, wo); NonNegativeProduct(k, g); }
      0.0;
    }
    calc { p; == w * w; > { PositiveProduct(w, w); } 0.0; }
    NonNegativeFactor(p, d);
    assert wb * (vb + Square(xb)) + wo * (vo + Square(xo)) == v + e2 by {
      assert wb * (vb + Square(xb)) == wb * vb + wb * (xb * xb);
      assert wo * (vo + Square(xo)) == wo * vo + wo * (xo * xo);
    }
    DivSplit(v, e2, w);
    calc {
      (wb * (vb + Square(xb)) + wo * (vo + Square(xo))) / w - Square(m);
      (v + e2) / w - m * m;
      v / w + d;
    }
    assert WeightedMean(wb, wo, xb, xo) == m;
    assert CombinedVariance(wb, wo, xb, xo, vb, vo) == (wb * (vb + Square(xb)) + wo * (vo + Square(xo))) / w - Square(m);
  }

  /** A value `m` equal to the weighted mean, scaled by the total weight `w`, gives the pooled first moment. */
  lemma MeanMoment(w: real, m: real, wb: real, wo: real, xb: real, xo: real)
    requires w == wb + wo && w != 0.0 && m == WeightedMean(wb, wo, xb, xo)
    ensures w * m == wb * xb + wo * xo
  {
    DivideThenScale(wb * xb + wo * xo, w);
  }

  /** The second moment of a group of weight `w`, mean `m` and variance `v`: the sum of its squares. */
  function SquareSum(w: real, m: real, v: real): real
  {
    w * (v + Square(m))
  }

  /**
   * Values `m` and `v` equal to the weighted mean and the combined variance, with `v` plus the
   * squared mean scaled by the total weight `w`, give the pooled second moment.
   */
  lemma VarianceMoment(w: real, m: real, v: real, wb: real, wo: real, xb: real, xo: real, vb: real, vo: real)
    requires w == wb + wo && w != 0.0 && m == WeightedMean(wb, wo, xb, xo)
    requires v == CombinedVariance(wb, wo, xb, xo, vb, vo)
    ensures SquareSum(w, m, v) == SquareSum(wb, xb, vb) + SquareSum(wo, xo, vo)
  {
    var s := wb * (vb + Square(xb)) + wo * (vo + Square(xo));
    assert v + Square(m) == s / w;
    SquareSumOfQuotient(w, m, v, s);
  }

  /** A group whose variance plus squared mean is `s / w` has second moment `s` at weight `w`. */
  lemma SquareSumOfQuotient(w: real, m: real, v: real, s: real)
    requires w != 0.0 && v + Square(m) == s / w
    ensures SquareSum(w, m, v) == s
  {
    DivideThenScale(s, w);
  }

  /** Expanding the square of a difference. */
  lemma SquareOfDifference(x: real, c: real)
    ensures Square(x - c) == Square(x) - 2.0 * c * x + Square(c)
  {
  }

  /**
   * `dev` is the sum of squared deviations from `c` of `n` values with sum `s1` and sum
   * of squares `s2`, written out: `s2 - 2 c s1 + n c^2`.
   */
  predicate Expanded(dev: real, s2: real, s1: real, n: real, c: real)
  {
    dev == s2 - 2.0 * c * s1 + n * Square(c)
  }

  /** Adding one value `x` to the values keeps the written-out form. */
  lemma DeviationStep(dev: real, s2: real, s1: real, n: real, x: real, c: real)
    requires Expanded(dev, s2, s1, n, c)
    ensures Expanded(dev + Square(x - c), s2 + Square(x), s1 + x, n + 1.0, c)
  {
    SquareOfDifference(x, c);
  }

  /**
   * With `c` the mean `s1 / n`, the mean squared deviation `v = dev / n` is `s2 / n` minus
   * the squared mean.
   */
  lemma VarianceFromMoments(v: real, dev: real, s1: real, s2: real, n: real, c: real)
    requires n > 0.0 && c == s1 / n && v == dev / n && Expanded(dev, s2, s1, n, c)
    ensures v == s2 / n - Square(c)
  {
    DivideThenScale(s1, n);
    assert dev == s2 - n * Square(c);
    DivSplit(s2, -(n * Square(c)), n);
    assert -(n * Square(c)) / n == -Square(c);
  }

  /** Division by a positive weight is monotone. */
  lemma QuotientMonotone(a: real, b: real, w: real)
    requires a <= b && w > 0.0
    ensures a / w <= b / w
  {
    NonNegativeQuotient(b - a, w);
    DivSplit(a, b - a, w);
  }

  /** One more unit of weight at mean 0 adds the variance to the second moment. */
  lemma SquareSumGrows(w: real, v: real)
    ensures SquareSum(w + 1.0, 0.0, v) == SquareSum(w, 0.0, v) + v
  {
  }

  /** A single point of weight 1 and variance 0 has second moment its square. */
  lemma SquareSumOfPoint(x: real)
    ensures SquareSum(1.0, x, 0.0) == Square(x)
  {
  }
}
