/** SMT divergence: a flag that is 1 where y makes (or matches) a rolling high
    while x stays below its own rolling high. */
module Smt {
  import opened Series

  /** The largest point of a non-empty window. */
  function Max(w: seq<real>): (m: real)
    requires |w| > 0
    ensures m in w
    ensures forall k :: 0 <= k < |w| ==> w[k] <= m
  {
    if |w| == 1 then w[0]
    else
      var rest := Max(w[1..]);
      assert forall k :: 1 <= k < |w| ==> w[k] == w[1..][k - 1];
      if w[0] >= rest then w[0] else rest
  }

  /** `s.rolling(lookback).max()`: NaN until a full window of at least one
      point ends at t. */
  function RollingMax(s: seq<real>, lookback: nat): (highs: seq<Option<real>>)
    ensures |highs| == |s|
    ensures forall t :: 0 <= t < |s| ==> (highs[t].Some? <==> 1 <= lookback <= t + 1)
  {
    seq(|s|, t requires 0 <= t < |s| =>
      if 1 <= lookback <= t + 1 then Some(Max(Window(s, t, lookback))) else None)
  }

  /** `v >= high`; false when the high is NaN. */
  predicate AtLeast(v: real, high: Option<real>)
  {
    high.Some? && v >= high.value
  }

  /** `v < high`; false when the high is NaN. */
  predicate Under(v: real, high: Option<real>)
  {
    high.Some? && v < high.value
  }

  /** At t a full window of at least one point ends, y is at or above its
      high and x is below its own high. */
  predicate Diverges(y: seq<real>, x: seq<real>, lookback: nat, t: nat)
    requires |x| == |y| && t < |y|
  {
    1 <= lookback <= t + 1 &&
    y[t] >= Max(Window(y, t, lookback)) && x[t] < Max(Window(x, t, lookback))
  }

  /** `smt_divergence(y, x, lookback)`. */
  function SmtDivergence(y: seq<real>, x: seq<real>, lookback: nat): (d: seq<int>)
    requires |x| == |y|
    ensures |d| == |y|
    ensures forall t :: 0 <= t < |d| ==> d[t] == 0 || d[t] == 1
  {
    var highsY := RollingMax(y, lookback);
    var highsX := RollingMax(x, lookback);
    seq(|y|, t requires 0 <= t < |y| =>
      if AtLeast(y[t], highsY[t]) && Under(x[t], highsX[t]) then 1 else 0)
  }

  /** Point t is flagged exactly when a full window of at least one point
      ends at t, y[t] is at or above the window high of y, and x[t] is below
      the window high of x; so points 0 .. lookback - 2 are never flagged. */
  lemma SmtDivergenceAt(y: seq<real>, x: seq<real>, lookback: nat, t: nat)
    requires |x| == |y| && t < |y|
    ensures SmtDivergence(y, x, lookback)[t] == 1 <==> Diverges(y, x, lookback, t)
    ensures t + 1 < lookback ==> SmtDivergence(y, x, lookback)[t] == 0
  {
    var highsY := RollingMax(y, lookback);
    var highsX := RollingMax(x, lookback);
    if 1 <= lookback <= t + 1 {
      assert highsY[t] == Some(Max(Window(y, t, lookback)));
      assert highsX[t] == Some(Max(Window(x, t, lookback)));
    } else {
      assert highsY[t] == None;
    }
  }

  /** Since y[t] lies in its own window, the y-condition says that y[t] is
      the window's maximum; the first lookback - 1 points are never flagged. */
  lemma DivergenceAtNewHigh(y: seq<real>, x: seq<real>, lookback: nat, t: nat)
    requires |x| == |y| && t < |y|
    ensures SmtDivergence(y, x, lookback)[t] == 1 <==>
      1 <= lookback <= t + 1 &&
      y[t] == Max(Window(y, t, lookback)) && x[t] < Max(Window(x, t, lookback))
  {
    SmtDivergenceAt(y, x, lookback, t);
    if 1 <= lookback <= t + 1 {
      var w := Window(y, t, lookback);
      assert w[lookback - 1] == y[t];
    }
  }

  /** When x is at the high of its own window there is no divergence. */
  lemma NoDivergenceWhenXAtHigh(y: seq<real>, x: seq<real>, lookback: nat, t: nat)
    requires |x| == |y| && t < |y|
    requires 1 <= lookback <= t + 1 && x[t] == Max(Window(x, t, lookback))
    ensures SmtDivergence(y, x, lookback)[t] == 0
  {
    SmtDivergenceAt(y, x, lookback, t);
  }
}
