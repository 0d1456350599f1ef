# Futures mean-reversion pairs trading, modelled in Dafny

This project models the computational core of a pairs-trading research
pipeline for futures: screening every pair of instruments for
cointegration, building the spread of a pair from its hedge ratio,
normalising the spread into a rolling z-score, turning z-scores into
positions in {-1, 0, +1}, backtesting those positions into a per-period
PnL series, and the SMT divergence flag.

Series are `seq<real>` indexed by position; a pandas NaN is `None` of
`Series.Option`. The statsmodels routines (the Engle-Granger `coint` test and
the OLS fit) and the square root are parameters. Every result holds whatever
`coint` and `ols` compute; for the square root, the z-score facts
(`SignalLogic.ZScoreAt`) assume `IsSqrt`: it returns a non-negative root.

Files and modules:

- `series.dfy` (`Series`): `Option`, the trailing rolling `Window`.
- `cointegration.dfy` (`Cointegration`): `find_cointegrated_pairs` as a method
  with the nested loops of the source, and the enumeration it follows as the
  function `Accepted`, with its soundness, completeness, order and size.
- `signal_logic.dfy` (`SignalLogic`): `compute_spread`, `compute_zscore`
  (rolling mean, sample variance with divisor n - 1, NaN until the window is
  full) and `generate_signals` as a method over an array overwritten by three
  masked passes, proved equal to the pointwise `Signals`.
- `backtester.dfy` (`Backtester`): `backtest` as a method with the source's
  loop, proved equal to the closed form `PnL`.
- `smt.dfy` (`Smt`): `smt_divergence` with rolling maxima.
- `pipeline.dfy` (`Pipeline`): the stages chained together.

Behaviour of the code that a reader might not expect:

- `generate_signals` has no hysteresis and no memory. `signals` starts all 0
  and is never NaN, so `ffill()` fills nothing, and no position is held
  between thresholds: a z-score between the exit and entry thresholds gives 0
  (`SignalLogic.SignalFlatOutsideEntry`, `SignalLogic.NoHoldAfterEntry`).
- `find_cointegrated_pairs` does not catch errors from the regression: a
  singular fit is not skipped. Here the OLS fit is a total parameter, so every
  accepted pair gets a record.
- For y = [100, 101, 103, 102, 104], x = [50, 50.2, 50.6, 50.4, 50.8] and
  beta = 2, the spread `y - beta * x` ends at 104 - 101.6 = 2.4
  (`Pipeline.FlatScenario`).
- Series are not checked for alignment. pandas combines them by index label
  and `backtest` reads them by position. The model requires equal lengths for
  the spread and for SMT. For `backtest` it requires prices at least as long
  as the signals.

Default arguments of the source are explicit parameters here. They are:
threshold 0.05, window 30, entry 2, exit 0.5, cost 0.0001, lookback 20.

## Model

| member | source | states |
|---|---|---|
| `Cointegration.FindCointegratedPairs` | src/cointegration.py:23-40 | The nested loops return one pair record and one summary row per accepted column pair, in enumeration order. Both lists have the same length. The record for columns (i, j) holds symbols[i] and symbols[j], the slope `params[1]` of the OLS fit with column i as y and column j as x, and the Engle-Granger p-value of (column i, column j). The k-th row is labelled "a & b" and repeats the record's p-value and beta. |
| `Cointegration.PValue` | src/cointegration.py:13-15 | The p-value used for columns (i, j) is the second result of `coint` with column i as y and column j as x (the argument order of line 31). |
| `Cointegration.EstimateHedgeRatio` | src/cointegration.py:17-21 | The hedge ratio is the slope `params[1]` of the OLS fit of y on a constant and x, not the intercept. |
| `Cointegration.ScreenColumn` | src/cointegration.py:28-39 | The inner loop for column i reports, after what was reported before, exactly the accepted pairs (i, j) with j > i, each with its record and summary row. |
| `Cointegration.ScreenedExactly` | src/cointegration.py:27-32 | A column pair (i, j) is emitted if and only if i < j < N and its p-value is strictly below the threshold. A p-value equal to the threshold is rejected. No column is paired with itself, and every qualifying pair appears. |
| `Cointegration.ScreenedOrdered` | src/cointegration.py:27-34 | The emitted pairs are strictly increasing in lexicographic order of column positions, so each qualifying pair appears exactly once. |
| `Cointegration.ScreenedBound` | src/cointegration.py:27-28 | At most N(N-1)/2 pairs are emitted for N columns. |
| `Cointegration.AcceptedComplete` | src/cointegration.py:27-34 | Completeness of the enumeration from any loop position: every later column pair that passes the test is accepted. |
| `SignalLogic.ComputeSpread` | src/signal_logic.py:3-4 | The spread has the length of y, and point t is y[t] - beta * x[t]. |
| `SignalLogic.SpreadLinearInBeta` | src/signal_logic.py:4 | spread(beta1)[t] - spread(beta2)[t] = (beta2 - beta1) * x[t] at every point. |
| `SignalLogic.SpreadZeroBeta` | src/signal_logic.py:4 | With beta = 0 the spread is y. |
| `SignalLogic.RollingMean` | src/signal_logic.py:7 | The rolling mean keeps the length of the series and has a value at t exactly when a full window of at least 1 point ends at t. Its value is stated through `SignalLogic.ZScoreAt`. |
| `SignalLogic.RollingStd` | src/signal_logic.py:8 | The rolling standard deviation keeps the length and has a value at t exactly when a full window of at least 2 points ends at t (divisor n - 1). Its value is stated through `SignalLogic.ZScoreAt`. |
| `SignalLogic.Standardize` | src/signal_logic.py:9 | `(v - mean) / std` has a value exactly when mean and std have values and std is not 0. Then z * std = v - mean. |
| `SignalLogic.ComputeZScore` | src/signal_logic.py:6-9 | The z-score keeps the length of the spread. The first window - 1 points have no value. |
| `SignalLogic.ZScoreAt` | src/signal_logic.py:6-9 | Point t has a value if and only if a full window of at least 2 points ends at t and that window is not constant. A constant window gives std 0, hence 0/0, hence no value. Where z is defined, the window's sample std is positive and z * std = s[t] - mean(window). |
| `SignalLogic.VarianceZeroIffConstant` | src/signal_logic.py:8 | The sample variance of a window is non-negative. It is zero if and only if every point of the window is equal. |
| `SignalLogic.Signal` | src/signal_logic.py:12-15 | A signal is -1, 0 or 1. If abs(z) < exit the signal is 0, because the last assignment wins. Otherwise z < -entry gives 1, and otherwise z > entry gives -1. A z that crosses neither entry threshold, or is NaN, gives 0. |
| `SignalLogic.GenerateSignals` | src/signal_logic.py:11-16 | The array of zeros after the three masked overwrites equals the pointwise signal series `Signals`. |
| `SignalLogic.SignalFlatOutsideEntry` | src/signal_logic.py:12-16 | A z with exit <= abs(z) <= entry, or an undefined z, gives 0. No position is held. |
| `SignalLogic.SignalsPointwise` | src/signal_logic.py:12-16 | The signal at t depends only on z[t] and is in {-1, 0, 1}. |
| `SignalLogic.NoHoldAfterEntry` | src/signal_logic.py:11-16 | z = [3, 1] with entry 2 and exit 0.5 gives [-1, 0]: the short entry is not held through the band. |
| `Backtester.Backtest` | src/backtester.py:3-17 | The loop that carries `position` and appends one return per step gives exactly `PnL`. `PnL` has length len(signals) - 1, or 0 for an empty series. Its entry k is the return of step k + 1, earned by the position held before that step. |
| `Backtester.FirstStepFlat` | src/backtester.py:5-10 | The first PnL entry is 0, and changing signals[0] changes no PnL entry. |
| `Backtester.HeldStep` | src/backtester.py:7-14 | For step i >= 2 the position held is signals[i-1]. The return is 0 when that position is 0. Otherwise it is p * ((y[i] - y[i-1]) - beta * (x[i] - x[i-1])) - 2 * cost * abs(p). |
| `Backtester.FlatSignalsZeroPnL` | src/backtester.py:9-10 | An all-zero signal series gives an all-zero PnL series. |
| `Backtester.CostChargedWhileHeld` | src/backtester.py:14 | With unchanged prices, a period with position p loses 2 * cost * abs(p). The cost is charged every period a position is held, not only when it changes. |
| `Smt.Max` | src/SMT.py:2-3 | The rolling high of a window is a point of the window and bounds every point of it. |
| `Smt.RollingMax` | src/SMT.py:2-3 | The rolling high keeps the length and has a value at t exactly when a full window of lookback >= 1 points ends at t. Its value is stated through `Smt.Max` and `Smt.SmtDivergenceAt`. |
| `Smt.SmtDivergence` | src/SMT.py:1-5 | The output has the length of y, and every value is 0 or 1. |
| `Smt.SmtDivergenceAt` | src/SMT.py:2-4 | Point t is 1 if and only if a full window of lookback >= 1 points ends at t, y[t] >= the window high of y, and x[t] < the window high of x. Points 0 .. lookback-2 are therefore 0. |
| `Smt.DivergenceAtNewHigh` | src/SMT.py:2-4 | Because y[t] lies in its own window, the y-condition holds exactly when y[t] equals its rolling high. |
| `Smt.NoDivergenceWhenXAtHigh` | src/SMT.py:3-4 | If x[t] is the high of its own window, the flag is 0. |
| `Pipeline.UndefinedZScoresEarnNothing` | src/backtester.py:9-10 | When no z-score is defined, the signals are all 0 and every PnL entry is 0. |
| `Pipeline.FlatScenario` | src/signal_logic.py:3-16 | For y = [100, 101, 103, 102, 104], x = [50, 50.2, 50.6, 50.4, 50.8] and beta 2, the spread is [0, 0.6, 1.8, 1.2, 2.4]. A window longer than 5 gives all-0 signals and all-0 PnL. |

## Left out

- `main.py` is script glue and is not modelled: CSV input and output, printing, and plots (including the fixed lines at ±2).
- `src/load_data.py` is not modelled: the yfinance download, file writes, and the `concat(...).dropna()` merge. Its empty-download `ValueError` belongs to the network call.
- `adf_test` (src/cointegration.py:5-11) is unused by the pipeline and is not modelled.
- The statistics inside `coint` and `sm.OLS` are not modelled. They are the parameters `coint` and `ols`, and only the argument order and the `params[1]` slope are stated.
- Square root: `compute_zscore` takes the square root as a parameter. `IsSqrt` states what is assumed of it.
- IEEE floating point is replaced by exact reals: no rounding, no infinities. A zero standard deviation is modelled as "no value". With reals that only happens on a constant window, where pandas computes 0/0 = NaN, so the ±inf that a nonzero numerator over zero would give cannot arise.
- Index labels are not modelled. Series are combined by position. The PnL series' index `signals.index[1:]` appears only as "entry k belongs to position k + 1".
- `ComputeZScore` and `SmtDivergence` take window sizes as `nat`. A negative window, which pandas rejects, is not modelled. Window 0 is modelled as no value anywhere.
- `GenerateSignals`: the trailing `ffill().fillna(0)` is not modelled as a separate step. It is the identity, because no signal is ever NaN.
- `Backtest`: requires prices at least as long as the signals. The source reads `y.iloc[i]` and `x.iloc[i]` only when the held position is non-zero (src/backtester.py:10-12). So shorter prices pass while the position is flat, and the source raises IndexError at the first held step past their end; that error path is not modelled.
- `Backtest`: signals are integers, as `generate_signals` produces them. Arbitrary numeric signal values are not modelled.
