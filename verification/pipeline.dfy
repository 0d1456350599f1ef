/** The stages chained together: spread, z-score, signals, backtest. */
module Pipeline {
  import opened Series
  import SignalLogic
  import Backtester

  /** Where no z-score is defined the signals are flat, and a flat signal
      series earns zero PnL in every period, whatever the prices. */
  lemma UndefinedZScoresEarnNothing(y: seq<real>, x: seq<real>, beta: real, z: seq<Option<real>>,
                                    entry: real, exit: real, cost: real)
    requires |z| <= |y| && |z| <= |x|
    requires forall t :: 0 <= t < |z| ==> z[t] == None
    ensures var signals := SignalLogic.Signals(z, entry, exit);
      forall k :: 0 <= k < Backtester.Steps(signals) ==>
        Backtester.PnL(y, x, beta, signals, cost)[k] == 0.0
  {
    var signals := SignalLogic.Signals(z, entry, exit);
    assert forall t :: 0 <= t < |signals| ==> signals[t] == 0;
    Backtester.FlatSignalsZeroPnL(y, x, beta, signals, cost);
  }

  /** A worked example: for y = [100, 101, 103, 102, 104], x = [50, 50.2,
      50.6, 50.4, 50.8] and beta = 2 the spread is [0, 0.6, 1.8, 1.2, 2.4];
      with a window longer than the series no z-score is defined, every
      signal is 0 and every PnL entry is 0. */
  lemma FlatScenario(sqrt: real -> real, window: nat, entry: real, exit: real, cost: real)
    requires window > 5
    ensures var y := [100.0, 101.0, 103.0, 102.0, 104.0];
      var x := [50.0, 50.2, 50.6, 50.4, 50.8];
      var spread := SignalLogic.ComputeSpread(y, x, 2.0);
      var signals := SignalLogic.Signals(SignalLogic.ComputeZScore(spread, window, sqrt), entry, exit);
      spread == [0.0, 0.6, 1.8, 1.2, 2.4] &&
      signals == [0, 0, 0, 0, 0] &&
      Backtester.PnL(y, x, 2.0, signals, cost) == [0.0, 0.0, 0.0, 0.0]
  {
    var y := [100.0, 101.0, 103.0, 102.0, 104.0];
    var x := [50.0, 50.2, 50.6, 50.4, 50.8];
    var spread := SignalLogic.ComputeSpread(y, x, 2.0);
    var z := SignalLogic.ComputeZScore(spread, window, sqrt);
    var signals := SignalLogic.Signals(z, entry, exit);
    assert forall t :: 0 <= t < |z| ==> z[t] == None;
    UndefinedZScoresEarnNothing(y, x, 2.0, z, entry, exit, cost);
  }
}
