/** Shared vocabulary for the time series of the pipeline: a series is a
    sequence of reals indexed by position, and a pandas NaN ("no value") is
    `None`. */
module Series {

  /** A possibly missing value: `None` stands for NaN in a pandas series. */
  datatype Option<+T> = None | Some(value: T)

  /** The trailing window of `w` points that ends at position `t`, inclusive,
      as pandas' `rolling(w)` sees it at that position. */
  function Window(s: seq<real>, t: nat, w: nat): (win: seq<real>)
    requires w <= t + 1 <= |s|
    ensures |win| == w
    ensures forall k :: 0 <= k < w ==> win[k] == s[t + 1 - w + k]
    ensures w > 0 ==> win[w - 1] == s[t]
  {
    s[t + 1 - w .. t + 1]
  }

  function AbsReal(v: real): (r: real)
    ensures r >= 0.0 && (r == v || r == -v)
  {
    if v < 0.0 then -v else v
  }
}
