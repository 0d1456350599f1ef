/** The backtest: one forward pass over a signal series that books, for each
    period, the spread change earned by the position held during it, less a
    round-trip cost charged every period a position is held. */
module Backtester {

  function Abs(p: int): nat
  {
    if p < 0 then -p else p
  }

  /** The position `prev_pos` that the loop holds during step i (the period
      from i - 1 to i): the seed 0 at the first step, `signals[i - 1]` after. */
  function HeldPosition(signals: seq<int>, i: nat): int
    requires 1 <= i < |signals|
  {
    if i == 1 then 0 else signals[i - 1]
  }

  /** The return booked at step i for a held position. */
  function StepReturn(prevPos: int, y: seq<real>, x: seq<real>, beta: real, cost: real, i: nat): real
    requires 1 <= i < |y| && i < |x|
  {
    if prevPos != 0 then
      var spreadChange := (y[i] - y[i - 1]) - beta * (x[i] - x[i - 1]);
      (prevPos as real) * spreadChange - 2.0 * cost * (Abs(prevPos) as real)
    else 0.0
  }

  /** Number of PnL entries: one per step i in [1, |signals|). */
  function Steps(signals: seq<int>): nat
  {
    if |signals| == 0 then 0 else |signals| - 1
  }

  /** The PnL series as a function of the inputs: entry k is the return of
      step k + 1, labelled by `signals.index[k + 1]`. */
  function PnL(y: seq<real>, x: seq<real>, beta: real, signals: seq<int>, cost: real): (pnl: seq<real>)
    requires |signals| <= |y| && |signals| <= |x|
    ensures |pnl| == Steps(signals)
  {
    seq(Steps(signals), k requires 0 <= k < Steps(signals) =>
      StepReturn(HeldPosition(signals, k + 1), y, x, beta, cost, k + 1))
  }

  /** `backtest(y, x, beta, signals, cost)`: the loop carries `position` from
      one step to the next and appends one return per step. Prices are read
      by position, so y and x must be at least as long as the signals. */
  method Backtest(y: seq<real>, x: seq<real>, beta: real, signals: seq<int>, cost: real)
    returns (pnl: seq<real>)
    requires |signals| <= |y| && |signals| <= |x|
    ensures pnl == PnL(y, x, beta, signals, cost)
  {
    pnl := [];
    var position := 0;
    var i := 1;
    while i < |signals|
      invariant 1 <= i <= |signals| || (i == 1 && |signals| == 0)
      invariant |pnl| == i - 1
      invariant i == 1 ==> position == 0
      invariant 1 < i ==> position == signals[i - 1]
      invariant forall k :: 0 <= k < i - 1 ==>
        pnl[k] == StepReturn(HeldPosition(signals, k + 1), y, x, beta, cost, k + 1)
    {
      var prevPos := position;
      position := signals[i];
      var ret := 0.0;
      if prevPos != 0 {
        var dy := y[i] - y[i - 1];
        var dx := x[i] - x[i - 1];
        var spreadChange := dy - beta * dx;
        ret := (prevPos as real) * spreadChange - 2.0 * cost * (Abs(prevPos) as real);
      }
      assert prevPos == HeldPosition(signals, i);
      pnl := pnl + [ret];
      i := i + 1;
    }
  }

  /** The first PnL entry is always zero: the position is seeded flat, and
      `signals[0]` never affects any return. */
  lemma FirstStepFlat(y: seq<real>, x: seq<real>, beta: real, signals: seq<int>, cost: real, v: int)
    requires 2 <= |signals| && |signals| <= |y| && |signals| <= |x|
    ensures PnL(y, x, beta, signals, cost)[0] == 0.0
    ensures PnL(y, x, beta, signals[0 := v], cost) == PnL(y, x, beta, signals, cost)
  {
    var s2 := signals[0 := v];
    forall k | 0 <= k < Steps(signals)
      ensures PnL(y, x, beta, s2, cost)[k] == PnL(y, x, beta, signals, cost)[k]
    {
      assert HeldPosition(s2, k + 1) == HeldPosition(signals, k + 1);
    }
  }

  /** From the second step on, the return is earned by the previous signal:
      zero when it is flat, and otherwise the position times the spread
      change less the round-trip cost on the position's size. */
  lemma HeldStep(y: seq<real>, x: seq<real>, beta: real, signals: seq<int>, cost: real, i: nat)
    requires 2 <= i < |signals| && |signals| <= |y| && |signals| <= |x|
    ensures var p := signals[i - 1];
      PnL(y, x, beta, signals, cost)[i - 1] ==
        if p == 0 then 0.0
        else (p as real) * ((y[i] - y[i - 1]) - beta * (x[i] - x[i - 1])) - 2.0 * cost * (Abs(p) as real)
  {
  }

  /** An all-flat signal series earns exactly zero in every period. */
  lemma FlatSignalsZeroPnL(y: seq<real>, x: seq<real>, beta: real, signals: seq<int>, cost: real)
    requires |signals| <= |y| && |signals| <= |x|
    requires forall t :: 0 <= t < |signals| ==> signals[t] == 0
    ensures forall k :: 0 <= k < Steps(signals) ==> PnL(y, x, beta, signals, cost)[k] == 0.0
  {
  }

  /** The cost is charged on every period a position is held, not only when
      it changes: with unchanged prices a held position loses 2 * cost * |p|. */
  lemma CostChargedWhileHeld(y: seq<real>, x: seq<real>, beta: real, signals: seq<int>, cost: real, i: nat)
    requires 2 <= i < |signals| && |signals| <= |y| && |signals| <= |x|
    requires y[i] == y[i - 1] && x[i] == x[i - 1]
    ensures PnL(y, x, beta, signals, cost)[i - 1] == -2.0 * cost * (Abs(signals[i - 1]) as real)
  {
  }
}
