/** The spread, its rolling z-score and the threshold signals derived from it.

    Series operations follow pandas: arithmetic is element by element over a
    shared index, a rolling statistic is NaN (`None`) until its window is full,
    and a comparison with NaN is false. */
module SignalLogic {
  import opened Series

  // ---------------------------------------------------------------------
  // Spread

  /** Scalar times series, `beta * x`. */
  function Scale(c: real, x: seq<real>): (r: seq<real>)
    ensures |r| == |x|
    ensures forall t :: 0 <= t < |x| ==> r[t] == c * x[t]
  {
    seq(|x|, t requires 0 <= t < |x| => c * x[t])
  }

  /** Series minus series over the same index, `a - b`. */
  function Minus(a: seq<real>, b: seq<real>): (r: seq<real>)
    requires |a| == |b|
    ensures |r| == |a|
    ensures forall t :: 0 <= t < |a| ==> r[t] == a[t] - b[t]
  {
    seq(|a|, t requires 0 <= t < |a| => a[t] - b[t])
  }

  /** `compute_spread(y, x, beta)`. */
  function ComputeSpread(y: seq<real>, x: seq<real>, beta: real): (spread: seq<real>)
    requires |y| == |x|
    ensures |spread| == |y|
    ensures forall t :: 0 <= t < |y| ==> spread[t] == y[t] - beta * x[t]
  {
    Minus(y, Scale(beta, x))
  }

  /** The spread is linear in the hedge ratio: changing beta moves every
      point by the change times x. */
  lemma SpreadLinearInBeta(y: seq<real>, x: seq<real>, beta1: real, beta2: real)
    requires |y| == |x|
    ensures forall t :: 0 <= t < |y| ==>
      ComputeSpread(y, x, beta1)[t] - ComputeSpread(y, x, beta2)[t] == (beta2 - beta1) * x[t]
  {
    forall t | 0 <= t < |y|
      ensures ComputeSpread(y, x, beta1)[t] - ComputeSpread(y, x, beta2)[t] == (beta2 - beta1) * x[t]
    {
      calc {
        ComputeSpread(y, x, beta1)[t] - ComputeSpread(y, x, beta2)[t];
        (y[t] - beta1 * x[t]) - (y[t] - beta2 * x[t]);
        (beta2 - beta1) * x[t];
      }
    }
  }

  /** With a zero hedge ratio the spread is the dependent series itself. */
  lemma SpreadZeroBeta(y: seq<real>, x: seq<real>)
    requires |y| == |x|
    ensures ComputeSpread(y, x, 0.0) == y
  {
  }

  // ---------------------------------------------------------------------
  // Rolling mean and sample standard deviation

  function Sum(w: seq<real>): real
  {
    if |w| == 0 then 0.0 else w[0] + Sum(w[1..])
  }

  /** Arithmetic mean of a non-empty window. */
  function Mean(w: seq<real>): real
    requires |w| > 0
  {
    Sum(w) / (|w| as real)
  }

  function Sq(a: real): real
  {
    a * a
  }

  /** Sum of squared deviations from m. */
  function SumSqDev(w: seq<real>, m: real): real
  {
    if |w| == 0 then 0.0 else Sq(w[0] - m) + SumSqDev(w[1..], m)
  }

  /** Sample variance (divisor n - 1, pandas' default ddof = 1); it needs at
      least two points. */
  function SampleVariance(w: seq<real>): real
    requires |w| >= 2
  {
    SumSqDev(w, Mean(w)) / ((|w| - 1) as real)
  }

  /** Every point of w has the same value. */
  predicate Constant(w: seq<real>)
  {
    forall k :: 0 <= k < |w| ==> w[k] == w[0]
  }

  /** `sqrt` is a square root on the non-negative reals. */
  ghost predicate IsSqrt(sqrt: real -> real)
  {
    forall v :: 0.0 <= v ==> 0.0 <= sqrt(v) && Sq(sqrt(v)) == v
  }

  lemma ProductPositive(a: real, b: real)
    requires a > 0.0 && b > 0.0
    ensures a * b > 0.0
  {
  }

  lemma SquarePositive(a: real)
    requires a != 0.0
    ensures Sq(a) > 0.0
  {
    if a > 0.0 {
      calc {
        Sq(a);
        a * a;
      > { ProductPositive(a, a); }
        0.0;
      }
    } else {
      calc {
        Sq(a);
        (-a) * (-a);
      > { ProductPositive(-a, -a); }
        0.0;
      }
    }
  }

  lemma SquareZero(a: real)
    requires a == 0.0
    ensures Sq(a) == 0.0
  {
    calc {
      Sq(a);
      0.0 * 0.0;
      0.0;
    }
  }

  lemma SquareNonNegative(a: real)
    ensures Sq(a) >= 0.0
  {
    if a == 0.0 {
      SquareZero(a);
    } else {
      SquarePositive(a);
    }
  }

  lemma {:induction false} SumSqDevNonNegative(w: seq<real>, m: real)
    ensures SumSqDev(w, m) >= 0.0
  {
    if |w| > 0 {
      SquareNonNegative(w[0] - m);
      SumSqDevNonNegative(w[1..], m);
    }
  }

  /** One point away from m makes the squared deviations positive. */
  lemma {:induction false} SumSqDevPositive(w: seq<real>, m: real, k: nat)
    requires k < |w| && w[k] != m
    ensures SumSqDev(w, m) > 0.0
  {
    SquareNonNegative(w[0] - m);
    SumSqDevNonNegative(w[1..], m);
    if k == 0 {
      SquarePositive(w[0] - m);
    } else {
      assert w[1..][k - 1] == w[k];
      SumSqDevPositive(w[1..], m, k - 1);
    }
  }

  /** No point away from m leaves no squared deviation. */
  lemma {:induction false} SumSqDevZero(w: seq<real>, m: real)
    requires forall k :: 0 <= k < |w| ==> w[k] == m
    ensures SumSqDev(w, m) == 0.0
  {
    if |w| > 0 {
      assert forall k :: 0 <= k < |w[1..]| ==> w[1..][k] == w[k + 1];
      SumSqDevZero(w[1..], m);
      SquareZero(w[0] - m);
    }
  }

  lemma {:induction false} SumOfConstant(w: seq<real>, c: real)
    requires forall k :: 0 <= k < |w| ==> w[k] == c
    ensures Sum(w) == (|w| as real) * c
  {
    if |w| > 0 {
      assert forall k :: 0 <= k < |w[1..]| ==> w[1..][k] == w[k + 1];
      SumOfConstant(w[1..], c);
    }
  }

  /** The sample variance is never negative, and it is zero exactly when the
      window is constant. */
  lemma VarianceZeroIffConstant(w: seq<real>)
    requires |w| >= 2
    ensures SampleVariance(w) >= 0.0
    ensures SampleVariance(w) == 0.0 <==> Constant(w)
  {
    var m := Mean(w);
    SumSqDevNonNegative(w, m);
    if Constant(w) {
      SumOfConstant(w, w[0]);
      assert m == w[0];
      SumSqDevZero(w, m);
    } else {
      var k :| 0 <= k < |w| && w[k] != w[0];
      var j := if w[k] != m then k else 0;
      SumSqDevPositive(w, m, j);
    }
  }

  /** `spread.rolling(window).mean()`. */
  function RollingMean(s: seq<real>, window: nat): (mean: seq<Option<real>>)
    ensures |mean| == |s|
    ensures forall t :: 0 <= t < |s| ==> (mean[t].Some? <==> 1 <= window <= t + 1)
  {
    seq(|s|, t requires 0 <= t < |s| =>
      if 1 <= window <= t + 1 then Some(Mean(Window(s, t, window))) else None)
  }

  /** `spread.rolling(window).std()`, with the square root as a parameter. */
  function RollingStd(s: seq<real>, window: nat, sqrt: real -> real): (std: seq<Option<real>>)
    ensures |std| == |s|
    ensures forall t :: 0 <= t < |s| ==> (std[t].Some? <==> 2 <= window <= t + 1)
  {
    seq(|s|, t requires 0 <= t < |s| =>
      if 2 <= window <= t + 1 then Some(sqrt(SampleVariance(Window(s, t, window)))) else None)
  }

  /** `(v - mean) / std` on one point, NaN-propagating; a zero divisor gives
      NaN (no value). */
  function Standardize(v: real, mean: Option<real>, std: Option<real>): (z: Option<real>)
    ensures z.Some? <==> mean.Some? && std.Some? && std.value != 0.0
    ensures z.Some? ==> z.value * std.value == v - mean.value
  {
    if mean.Some? && std.Some? && std.value != 0.0 then Some((v - mean.value) / std.value) else None
  }

  /** `compute_zscore(spread, window)`. */
  function ComputeZScore(s: seq<real>, window: nat, sqrt: real -> real): (z: seq<Option<real>>)
    ensures |z| == |s|
    ensures forall t :: 0 <= t < |s| && t + 1 < window ==> z[t] == None
  {
    var mean := RollingMean(s, window);
    var std := RollingStd(s, window, sqrt);
    seq(|s|, t requires 0 <= t < |s| => Standardize(s[t], mean[t], std[t]))
  }

  /** At position t the z-score is defined exactly when a full window of at
      least two points ends at t and that window is not constant; where it is
      defined, z times the window's sample standard deviation (which is then
      positive) is the distance of s[t] from the window mean. */
  lemma ZScoreAt(s: seq<real>, window: nat, sqrt: real -> real, t: nat)
    requires IsSqrt(sqrt)
    requires t < |s|
    ensures var z := ComputeZScore(s, window, sqrt)[t];
      (z.Some? <==> 2 <= window <= t + 1 && !Constant(Window(s, t, window))) &&
      (z.Some? ==>
        var w := Window(s, t, window);
        sqrt(SampleVariance(w)) > 0.0 && z.value * sqrt(SampleVariance(w)) == s[t] - Mean(w))
  {
    var z := ComputeZScore(s, window, sqrt)[t];
    if 2 <= window <= t + 1 {
      var w := Window(s, t, window);
      var v := SampleVariance(w);
      VarianceZeroIffConstant(w);
      assert Sq(sqrt(v)) == v;
      if sqrt(v) == 0.0 {
        SquareZero(sqrt(v));
      } else {
        SquarePositive(sqrt(v));
      }
      assert RollingMean(s, window)[t] == Some(Mean(w));
      assert RollingStd(s, window, sqrt)[t] == Some(sqrt(v));
      assert z == Standardize(s[t], Some(Mean(w)), Some(sqrt(v)));
    } else {
      assert RollingStd(s, window, sqrt)[t] == None;
    }
  }

  // ---------------------------------------------------------------------
  // Signals

  /** `zscore > level`; false for NaN. */
  predicate Above(z: Option<real>, level: real)
  {
    z.Some? && z.value > level
  }

  /** `zscore < level`; false for NaN. */
  predicate Below(z: Option<real>, level: real)
  {
    z.Some? && z.value < level
  }

  /** `abs(zscore) < exit`; false for NaN. */
  predicate InsideExit(z: Option<real>, exit: real)
  {
    z.Some? && AbsReal(z.value) < exit
  }

  /** The value a masked assignment `signals[mask] = v` leaves at one point. */
  function Masked(prior: int, mask: bool, v: int): int
  {
    if mask then v else prior
  }

  /** A point after the first masked assignment (line 13). */
  function FirstPass(z: Option<real>, entry: real): int
  {
    Masked(0, Above(z, entry), -1)
  }

  /** A point after the second masked assignment (line 14). */
  function SecondPass(z: Option<real>, entry: real): int
  {
    Masked(FirstPass(z, entry), Below(z, -entry), 1)
  }

  /** A point after all three masked assignments: the signal for one z-score.
      The last assignment wins, so the exit band overrides both entries, and
      the long entry overrides the short one. */
  function Signal(z: Option<real>, entry: real, exit: real): (sig: int)
    ensures sig == -1 || sig == 0 || sig == 1
    ensures InsideExit(z, exit) ==> sig == 0
    ensures !InsideExit(z, exit) && Below(z, -entry) ==> sig == 1
    ensures !InsideExit(z, exit) && !Below(z, -entry) && Above(z, entry) ==> sig == -1
    ensures !Above(z, entry) && !Below(z, -entry) ==> sig == 0
  {
    Masked(SecondPass(z, entry), InsideExit(z, exit), 0)
  }

  /** The signal series, point by point. */
  function Signals(z: seq<Option<real>>, entry: real, exit: real): (sig: seq<int>)
    ensures |sig| == |z|
  {
    seq(|z|, t requires 0 <= t < |z| => Signal(z[t], entry, exit))
  }

  /** `generate_signals(zscore, entry_threshold, exit_threshold)`: a series
      of zeros overwritten by three masked assignments. The closing
      `ffill().fillna(0)` is the identity here, since no point is ever NaN. */
  method GenerateSignals(z: seq<Option<real>>, entry: real, exit: real) returns (signals: seq<int>)
    ensures signals == Signals(z, entry, exit)
  {
    var a := new int[|z|](_ => 0);
    for t := 0 to a.Length
      invariant forall k :: 0 <= k < t ==> a[k] == FirstPass(z[k], entry)
      invariant forall k :: t <= k < a.Length ==> a[k] == 0
    {
      if Above(z[t], entry) {
        a[t] := -1;
      }
    }
    for t := 0 to a.Length
      invariant forall k :: 0 <= k < t ==> a[k] == SecondPass(z[k], entry)
      invariant forall k :: t <= k < a.Length ==> a[k] == FirstPass(z[k], entry)
    {
      if Below(z[t], -entry) {
        a[t] := 1;
      }
    }
    for t := 0 to a.Length
      invariant forall k :: 0 <= k < t ==> a[k] == Signal(z[k], entry, exit)
      invariant forall k :: t <= k < a.Length ==> a[k] == SecondPass(z[k], entry)
    {
      if InsideExit(z[t], exit) {
        a[t] := 0;
      }
    }
    signals := a[..];
  }

  /** A z-score with magnitude between the exit and the entry thresholds, or
      no z-score at all, gives a flat signal: nothing is held over from an
      earlier position. */
  lemma SignalFlatOutsideEntry(v: real, entry: real, exit: real)
    requires exit <= AbsReal(v) <= entry
    ensures Signal(Some(v), entry, exit) == 0
    ensures Signal(None, entry, exit) == 0
  {
  }

  /** Every signal is -1, 0 or 1, and the signal at t depends on z[t] only. */
  lemma SignalsPointwise(z1: seq<Option<real>>, z2: seq<Option<real>>, entry: real, exit: real, t: nat)
    requires t < |z1| && t < |z2| && z1[t] == z2[t]
    ensures Signals(z1, entry, exit)[t] == Signals(z2, entry, exit)[t]
    ensures Signals(z1, entry, exit)[t] in {-1, 0, 1}
  {
  }

  /** A short entry followed by a z-score inside the band is not held: the
      position drops to flat at once. */
  lemma NoHoldAfterEntry()
    ensures Signals([Some(3.0), Some(1.0)], 2.0, 0.5) == [-1, 0]
  {
  }
}
