/** Scalar and slice helpers of the histogram package (util.go), over exact reals. */
module Util {

  /** `sort`: orders a pair of indices; the result is the pair itself or the pair swapped. */
  function Sort(x: int, y: int): (r: (int, int))
    ensures r.0 <= r.1
    ensures (r.0 == x && r.1 == y) || (r.0 == y && r.1 == x)
  {
    if x < y then (x, y) else (y, x)
  }

  /** `square`: a value times itself. */
  function Square(x: real): real
  {
    x * x
  }

  /** A square is never negative. */
  lemma SquareNonNegative(x: real)
    ensures Square(x) >= 0.0
  {
    if x < 0.0 {
      calc { Square(x); == (-x) * (-x); >= 0.0; }
    }
  }

  /** The square is zero exactly at zero. */
  lemma SquareZero(x: real)
    ensures Square(x) == 0.0 <==> x == 0.0
  {
    if x < 0.0 {
      calc { Square(x); == (-x) * (-x); > 0.0; }
    } else if x > 0.0 {
      calc { Square(x); == x * x; > 0.0; }
    }
  }

  /** `max`: one of its arguments, at least as large as both. */
  function Max(x: real, y: real): (r: real)
    ensures r >= x && r >= y
    ensures r == x || r == y
  {
    if x > y then x else y
  }

  /** `min`: one of its arguments, at most as large as both. */
  function Min(x: real, y: real): (r: real)
    ensures r <= x && r <= y
    ensures r == x || r == y
  {
    if x < y then x else y
  }

  /** Element-wise sum; the empty sequence when the lengths differ. */
  function Plus(x: seq<real>, y: seq<real>): seq<real>
  {
    if |x| != |y| then [] else seq(|x|, i requires 0 <= i < |x| => x[i] + y[i])
  }

  /** Element-wise difference; the empty sequence when the lengths differ. */
  function Minus(x: seq<real>, y: seq<real>): seq<real>
  {
    if |x| != |y| then [] else seq(|x|, i requires 0 <= i < |x| => x[i] - y[i])
  }

  /** `add`: fills a fresh array with the element-wise sum. */
  method Add(x: seq<real>, y: seq<real>) returns (r: seq<real>)
    ensures |x| != |y| ==> r == []
    ensures |x| == |y| ==> |r| == |x| && forall i :: 0 <= i < |x| ==> r[i] == x[i] + y[i]
    ensures r == Plus(x, y)
  {
    if |x| != |y| {
      return [];
    }
    var a := new real[|x|];
    for i := 0 to |x|
      invariant forall k :: 0 <= k < i ==> a[k] == x[k] + y[k]
    {
      a[i] := x[i] + y[i];
    }
    r := a[..];
  }

  /** `subtract`: fills a fresh array with the element-wise difference. */
  method Subtract(x: seq<real>, y: seq<real>) returns (r: seq<real>)
    ensures |x| != |y| ==> r == []
    ensures |x| == |y| ==> |r| == |x| && forall i :: 0 <= i < |x| ==> r[i] == x[i] - y[i]
    ensures r == Minus(x, y)
  {
    if |x| != |y| {
      return [];
    }
    var a := new real[|x|];
    for i := 0 to |x|
      invariant forall k :: 0 <= k < i ==> a[k] == x[k] - y[k]
    {
      a[i] := x[i] - y[i];
    }
    r := a[..];
  }

  /** Over exact reals, subtracting `y` undoes adding it, and adding undoes subtracting. */
  lemma SubtractUndoesAdd(x: seq<real>, y: seq<real>)
    requires |x| == |y|
    ensures Minus(Plus(x, y), y) == x
    ensures Plus(Minus(x, y), y) == x
  {
    var s, d := Plus(x, y), Minus(x, y);
    assert |s| == |y| && |d| == |y|;
    assert forall i :: 0 <= i < |x| ==> Minus(s, y)[i] == x[i];
    assert forall i :: 0 <= i < |x| ==> Plus(d, y)[i] == x[i];
  }

  /** `(n - 1) * ((b - a) / (n - 1)) == b - a` for a non-zero divisor. */
  lemma ScaleBack(a: real, b: real, n: real)
    requires n != 0.0
    ensures a + n * ((b - a) / n) == b
  {
  }

  /**
   * `linspace`: `num` evenly spaced points from `start` to `stop`. One point is just `start`;
   * otherwise point i is `start + i * step` with `step == (stop - start) / (num - 1)`.
   */
  method Linspace(start: real, stop: real, num: nat) returns (r: seq<real>)
    ensures num == 1 ==> r == [start]
    ensures num != 1 ==> |r| == num
    ensures num >= 2 ==> r[0] == start && r[num - 1] == stop
    ensures num >= 2 ==> forall i :: 0 <= i < num - 1 ==> r[i + 1] - r[i] == (stop - start) / (num - 1) as real
  {
    var step := 0.0;
    if num == 1 {
      return [start];
    }
    step := (stop - start) / (num - 1) as real;
    var a := new real[num];
    for i := 0 to num
      invariant forall k :: 0 <= k < i ==> a[k] == start + k as real * step
    {
      a[i] := start + i as real * step;
    }
    r := a[..];
    if num >= 2 {
      EvenlySpaced(r, start, stop, step);
    }
  }

  /** Points `start + i * step` with the step that spreads `|r|` points over `[start, stop]`. */
  lemma EvenlySpaced(r: seq<real>, start: real, stop: real, step: real)
    requires |r| >= 2 && step == (stop - start) / (|r| - 1) as real
    requires forall k :: 0 <= k < |r| ==> r[k] == start + k as real * step
    ensures r[0] == start && r[|r| - 1] == stop
    ensures forall i :: 0 <= i < |r| - 1 ==> r[i + 1] - r[i] == step
  {
    var n := |r|;
    ScaleBack(start, stop, (n - 1) as real);
    assert r[n - 1] == start + (n - 1) as real * step;
    forall i | 0 <= i < n - 1
      ensures r[i + 1] - r[i] == step
    {
      StepDifference(start, step, i as real);
    }
  }

  /** Consecutive points of an arithmetic progression differ by its step. */
  lemma StepDifference(start: real, step: real, i: real)
    ensures (start + (i + 1.0) * step) - (start + i * step) == step
  {
  }
}
