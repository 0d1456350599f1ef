/** Pair screening: every pair of columns (i, j) with i < j is put to the
    Engle-Granger cointegration test, and the pairs whose p-value is below
    the threshold are kept together with their OLS hedge ratio.

    The test and the regression are statsmodels code; they enter the model as
    the parameters `coint` (the p-value of `coint(y, x)`) and `ols` (the
    parameters of `OLS(y, add_constant(x)).fit()`), so every fact below holds
    whatever those library routines compute. */
module Cointegration {

  /** The p-value the Engle-Granger test reports for dependent series `y`
      and regressor series `x`. */
  type CointTest = (seq<real>, seq<real>) -> real

  /** The fitted parameters of an OLS regression of `y` on `x` with an
      intercept term: `params[0]` is the intercept, `params[1]` the slope. */
  datatype OlsParams = OlsParams(intercept: real, slope: real)

  type OlsFit = (seq<real>, seq<real>) -> OlsParams

  /** A price table: one column of closing prices per instrument symbol;
      `symbols[i]` labels `columns[i]`. */
  datatype Panel = Panel(symbols: seq<string>, columns: seq<seq<real>>)

  /** An accepted pair (symbol_a, symbol_b, beta, p). */
  datatype PairRecord = PairRecord(a: string, b: string, beta: real, p: real)

  /** One row of the summary table: label, p-value, beta. */
  datatype SummaryRow = SummaryRow(pair: string, pValue: real, beta: real)

  /** `engle_granger_test(df[symbols[i]], df[symbols[j]])`: the p-value of
      the Engle-Granger test with column i as y and column j as x. */
  function PValue(df: Panel, coint: CointTest, i: nat, j: nat): (p: real)
    requires i < |df.columns| && j < |df.columns|
    ensures p == coint(df.columns[i], df.columns[j])
  {
    coint(df.columns[i], df.columns[j])
  }

  /** `estimate_hedge_ratio(y, x)`: the slope `params[1]` of the OLS fit. */
  function EstimateHedgeRatio(y: seq<real>, x: seq<real>, ols: OlsFit): (beta: real)
    ensures beta == ols(y, x).slope
  {
    ols(y, x).slope
  }

  /** The column-position pairs that the nested loops accept from position
      (i, j) of the enumeration onwards, in the order the loops visit them. */
  function Accepted(df: Panel, coint: CointTest, threshold: real, i: nat, j: nat): seq<(nat, nat)>
    requires i < j
    requires i < |df.columns| ==> j <= |df.columns|
    decreases |df.columns| - i, |df.columns| - j
  {
    if i >= |df.columns| then []
    else if j == |df.columns| then Accepted(df, coint, threshold, i + 1, i + 2)
    else if PValue(df, coint, i, j) < threshold then [(i, j)] + Accepted(df, coint, threshold, i, j + 1)
    else Accepted(df, coint, threshold, i, j + 1)
  }

  /** The accepted column-position pairs of the whole screening. */
  function Screened(df: Panel, coint: CointTest, threshold: real): seq<(nat, nat)>
  {
    Accepted(df, coint, threshold, 0, 1)
  }

  /** `e` does not come before (i, j) in the enumeration order. */
  predicate NotBefore(e: (nat, nat), i: nat, j: nat)
  {
    e.0 > i || (e.0 == i && e.1 >= j)
  }

  /** Strict lexicographic order on column positions. */
  predicate LexLess(e: (nat, nat), f: (nat, nat))
  {
    e.0 < f.0 || (e.0 == f.0 && e.1 < f.1)
  }

  /** Strictly increasing in lexicographic order. */
  predicate Increasing(ks: seq<(nat, nat)>)
  {
    forall a, b :: 0 <= a < b < |ks| ==> LexLess(ks[a], ks[b])
  }

  /** Number of unordered pairs among m columns. */
  function Triangle(m: nat): nat
  {
    if m == 0 then 0 else (m - 1) + Triangle(m - 1)
  }

  /** Number of (i', j') pairs the loops have still to visit from (i, j). */
  function Remaining(n: nat, i: nat, j: nat): nat
    requires i < n ==> j <= n
  {
    if i >= n then 0 else (n - j) + Triangle(n - i - 1)
  }

  /** The record `find_cointegrated_pairs` appends for columns (i, j): column i
      is the dependent series `y` of both the test and the regression, column j
      the regressor `x`, and beta is the regression's slope. */
  function Record(df: Panel, coint: CointTest, ols: OlsFit, e: (nat, nat)): PairRecord
    requires |df.symbols| == |df.columns|
    requires e.0 < |df.columns| && e.1 < |df.columns|
  {
    PairRecord(df.symbols[e.0], df.symbols[e.1],
               EstimateHedgeRatio(df.columns[e.0], df.columns[e.1], ols),
               PValue(df, coint, e.0, e.1))
  }

  /** The summary row reported beside a pair record, labelled "<a> & <b>". */
  function Row(r: PairRecord): SummaryRow
  {
    SummaryRow(r.a + " & " + r.b, r.p, r.beta)
  }

  /** `pairs` and `results` report the column pairs `ks`, entry by entry. */
  predicate Reports(df: Panel, coint: CointTest, ols: OlsFit, ks: seq<(nat, nat)>,
                    pairs: seq<PairRecord>, results: seq<SummaryRow>)
    requires |df.symbols| == |df.columns|
  {
    |pairs| == |ks| && |results| == |ks| &&
    forall k :: 0 <= k < |ks| ==>
      ks[k].0 < ks[k].1 < |df.columns| &&
      pairs[k] == Record(df, coint, ols, ks[k]) && results[k] == Row(pairs[k])
  }

  // ---------------------------------------------------------------------
  // The screening loop

  /** `find_cointegrated_pairs(df, threshold)`: the accepted pairs and the
      summary rows, in enumeration order. */
  method FindCointegratedPairs(df: Panel, coint: CointTest, ols: OlsFit, threshold: real)
    returns (pairs: seq<PairRecord>, results: seq<SummaryRow>)
    requires |df.symbols| == |df.columns|
    ensures |pairs| == |Screened(df, coint, threshold)| && |results| == |pairs|
    ensures forall k :: 0 <= k < |pairs| ==>
      var e := Screened(df, coint, threshold)[k];
      e.0 < e.1 < |df.columns| && pairs[k] == Record(df, coint, ols, e)
    ensures forall k :: 0 <= k < |results| ==> results[k] == Row(pairs[k])
  {
    pairs := [];
    results := [];
    ghost var done: seq<(nat, nat)> := [];
    var n := |df.symbols|;
    var i := 0;
    while i < n
      invariant 0 <= i <= n
      invariant done + Accepted(df, coint, threshold, i, i + 1) == Screened(df, coint, threshold)
      invariant Reports(df, coint, ols, done, pairs, results)
    {
      done, pairs, results := ScreenColumn(df, coint, ols, threshold, i, done, pairs, results);
      i := i + 1;
    }
  }

  /** The inner loop of `find_cointegrated_pairs` for column i: it tests
      (i, j) for every later column j and appends the accepted ones, so that
      what is reported afterwards is what was reported before followed by the
      pairs the enumeration accepts in row i. */
  method ScreenColumn(df: Panel, coint: CointTest, ols: OlsFit, threshold: real, i: nat,
                      ghost done0: seq<(nat, nat)>, pairs0: seq<PairRecord>, results0: seq<SummaryRow>)
    returns (ghost done: seq<(nat, nat)>, pairs: seq<PairRecord>, results: seq<SummaryRow>)
    requires |df.symbols| == |df.columns| && i < |df.columns|
    requires Reports(df, coint, ols, done0, pairs0, results0)
    ensures Reports(df, coint, ols, done, pairs, results)
    ensures done + Accepted(df, coint, threshold, i + 1, i + 2) == done0 + Accepted(df, coint, threshold, i, i + 1)
  {
    pairs, results, done := pairs0, results0, done0;
    var n := |df.symbols|;
    var j := i + 1;
    while j < n
      invariant i < j <= n
      invariant done + Accepted(df, coint, threshold, i, j) == done0 + Accepted(df, coint, threshold, i, i + 1)
      invariant Reports(df, coint, ols, done, pairs, results)
    {
      var y := df.columns[i];
      var x := df.columns[j];
      var p := coint(y, x);
      ghost var before := done;
      if p < threshold {
        var beta := EstimateHedgeRatio(y, x, ols);
        ReportsAppend(df, coint, ols, done, pairs, results, (i, j));
        pairs := pairs + [PairRecord(df.symbols[i], df.symbols[j], beta, p)];
        results := results + [SummaryRow(df.symbols[i] + " & " + df.symbols[j], p, beta)];
        done := done + [(i, j)];
      }
      AcceptedStep(df, coint, threshold, i, j, before, done);
      j := j + 1;
    }
  }

  /** One step of the inner loop keeps "reported so far followed by what is
      still to come" unchanged. */
  lemma AcceptedStep(df: Panel, coint: CointTest, threshold: real, i: nat, j: nat,
                     before: seq<(nat, nat)>, after: seq<(nat, nat)>)
    requires i < j < |df.columns|
    requires after == if PValue(df, coint, i, j) < threshold then before + [(i, j)] else before
    ensures after + Accepted(df, coint, threshold, i, j + 1) == before + Accepted(df, coint, threshold, i, j)
  {
    var rest := Accepted(df, coint, threshold, i, j + 1);
    var head: seq<(nat, nat)> := if PValue(df, coint, i, j) < threshold then [(i, j)] else [];
    assert Accepted(df, coint, threshold, i, j) == head + rest;
    assert after == before + head;
    assert (before + head) + rest == before + (head + rest);
  }

  lemma ReportsAppend(df: Panel, coint: CointTest, ols: OlsFit, ks: seq<(nat, nat)>,
                      pairs: seq<PairRecord>, results: seq<SummaryRow>, e: (nat, nat))
    requires |df.symbols| == |df.columns|
    requires Reports(df, coint, ols, ks, pairs, results)
    requires e.0 < e.1 < |df.columns|
    ensures var r := Record(df, coint, ols, e);
      Reports(df, coint, ols, ks + [e], pairs + [r], results + [Row(r)])
  {
  }

  // ---------------------------------------------------------------------
  // What the enumeration promises

  /** Every accepted pair is a pair of distinct existing columns in the right
      order, passed the test strictly, and lies at or after (i, j). */
  lemma {:induction false} AcceptedSound(df: Panel, coint: CointTest, threshold: real, i: nat, j: nat)
    requires i < j
    requires i < |df.columns| ==> j <= |df.columns|
    decreases |df.columns| - i, |df.columns| - j
    ensures forall e | e in Accepted(df, coint, threshold, i, j) ::
      e.0 < e.1 < |df.columns| && PValue(df, coint, e.0, e.1) < threshold && NotBefore(e, i, j)
  {
    var n := |df.columns|;
    if i >= n {
    } else if j == n {
      AcceptedSound(df, coint, threshold, i + 1, i + 2);
    } else {
      AcceptedSound(df, coint, threshold, i, j + 1);
    }
  }

  /** Every pair of columns (a, b), a < b, at or after (i, j) whose p-value
      is below the threshold is accepted. */
  lemma {:induction false} AcceptedComplete(df: Panel, coint: CointTest, threshold: real, i: nat, j: nat, e: (nat, nat))
    requires i < j
    requires i < |df.columns| ==> j <= |df.columns|
    requires e.0 < e.1 < |df.columns| && PValue(df, coint, e.0, e.1) < threshold
    requires NotBefore(e, i, j)
    decreases |df.columns| - i, |df.columns| - j
    ensures e in Accepted(df, coint, threshold, i, j)
  {
    var n := |df.columns|;
    if j == n {
      AcceptedComplete(df, coint, threshold, i + 1, i + 2, e);
    } else if e != (i, j) {
      AcceptedComplete(df, coint, threshold, i, j + 1, e);
    }
  }

  /** The accepted pairs come out in strictly increasing lexicographic order
      of column positions. */
  lemma {:induction false} AcceptedOrdered(df: Panel, coint: CointTest, threshold: real, i: nat, j: nat)
    requires i < j
    requires i < |df.columns| ==> j <= |df.columns|
    decreases |df.columns| - i, |df.columns| - j
    ensures Increasing(Accepted(df, coint, threshold, i, j))
  {
    var n := |df.columns|;
    if i >= n {
    } else if j == n {
      AcceptedOrdered(df, coint, threshold, i + 1, i + 2);
    } else {
      var rest := Accepted(df, coint, threshold, i, j + 1);
      AcceptedOrdered(df, coint, threshold, i, j + 1);
      if PValue(df, coint, i, j) < threshold {
        AcceptedSound(df, coint, threshold, i, j + 1);
        IncreasingCons((i, j), rest);
      }
    }
  }

  lemma IncreasingCons(e: (nat, nat), rest: seq<(nat, nat)>)
    requires Increasing(rest)
    requires forall f | f in rest :: LexLess(e, f)
    ensures Increasing([e] + rest)
  {
    var ks := [e] + rest;
    forall a, b | 0 <= a < b < |ks| ensures LexLess(ks[a], ks[b]) {
      assert ks[b] == rest[b - 1];
      if a > 0 {
        assert ks[a] == rest[a - 1];
      }
    }
  }

  /** The loops visit no more pairs than remain in the enumeration. */
  lemma {:induction false} AcceptedCount(df: Panel, coint: CointTest, threshold: real, i: nat, j: nat)
    requires i < j
    requires i < |df.columns| ==> j <= |df.columns|
    decreases |df.columns| - i, |df.columns| - j
    ensures |Accepted(df, coint, threshold, i, j)| <= Remaining(|df.columns|, i, j)
  {
    var n := |df.columns|;
    if i >= n {
    } else if j == n {
      AcceptedCount(df, coint, threshold, i + 1, i + 2);
      assert Remaining(n, i + 1, i + 2) == Triangle(n - i - 1);
    } else {
      AcceptedCount(df, coint, threshold, i, j + 1);
    }
  }

  lemma {:induction false} TriangleClosedForm(m: nat)
    ensures 2 * Triangle(m) == m * (m - 1)
  {
    if m > 0 {
      TriangleClosedForm(m - 1);
    }
  }

  /** Soundness and completeness of the screening: a pair of column positions
      is emitted exactly when its positions are increasing and its p-value is
      strictly below the threshold (a p-value equal to it is rejected). */
  lemma ScreenedExactly(df: Panel, coint: CointTest, threshold: real)
    ensures forall e: (nat, nat) :: e in Screened(df, coint, threshold) <==>
      (e.0 < e.1 < |df.columns| && PValue(df, coint, e.0, e.1) < threshold)
  {
    AcceptedSound(df, coint, threshold, 0, 1);
    forall e: (nat, nat) | e.0 < e.1 < |df.columns| && PValue(df, coint, e.0, e.1) < threshold
      ensures e in Screened(df, coint, threshold)
    {
      AcceptedComplete(df, coint, threshold, 0, 1, e);
    }
  }

  /** The emitted pairs are in strictly increasing lexicographic order of
      column positions, so no pair is emitted twice. */
  lemma ScreenedOrdered(df: Panel, coint: CointTest, threshold: real)
    ensures Increasing(Screened(df, coint, threshold))
  {
    AcceptedOrdered(df, coint, threshold, 0, 1);
  }

  /** At most N(N-1)/2 pairs are emitted for N columns. */
  lemma ScreenedBound(df: Panel, coint: CointTest, threshold: real)
    ensures 2 * |Screened(df, coint, threshold)| <= |df.columns| * (|df.columns| - 1)
  {
    var n := |df.columns|;
    AcceptedCount(df, coint, threshold, 0, 1);
    TriangleClosedForm(n);
    if n > 0 {
      assert Remaining(n, 0, 1) == Triangle(n);
    }
  }
}
