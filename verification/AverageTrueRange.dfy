/** The four Wilder ATR computations of the bot, all proved against one per-prefix definition. */
module AverageTrueRange {
  import opened Prelude

  datatype Candle = Candle(ts: int, open: real, high: real, low: real, close: real, volume: real)

  /** The close lies inside the bar. */
  predicate WellFormed(bar: Candle) {
    bar.low <= bar.close <= bar.high
  }

  function RangeOf(high: real, low: real, previousClose: real): (r: real)
    ensures r >= 0.0
  {
    Max(high - low, Max(Abs(high - previousClose), Abs(low - previousClose)))
  }

  /** The true range is the length of the shortest interval that holds the bar and the previous close. */
  lemma TrueRangeIsSpan(high: real, low: real, previousClose: real)
    requires low <= high
    ensures RangeOf(high, low, previousClose) == Max(high, previousClose) - Min(low, previousClose)
  {
  }

  /** It is the largest of bar length and distances of both ends from the previous close. */
  lemma TrueRangeIsLargest(c: seq<Candle>, i: nat)
    requires 0 < i < |c|
    ensures var bar, close, r := c[i], c[i - 1].close, TrueRange(c, i);
            && r >= bar.high - bar.low && r >= bar.high - close && r >= close - bar.high && r >= bar.low - close && r >= close - bar.low
            && r in {bar.high - bar.low, bar.high - close, close - bar.high, bar.low - close, close - bar.low}
  {
  }

  function TrueRange(c: seq<Candle>, i: nat): (r: real)
    requires 0 < i < |c|
    ensures r >= 0.0
  {
    RangeOf(c[i].high, c[i].low, c[i - 1].close)
  }

  /** True ranges of bars 1 .. |c| - 1. */
  function TrueRanges(c: seq<Candle>): (t: seq<real>)
    requires c != []
    ensures |t| == |c| - 1
  {
    seq(|c| - 1, i requires 0 <= i < |c| - 1 => TrueRange(c, i + 1))
  }

  /** One step of Wilder's smoothing. */
  function Smooth(average: real, x: real, period: nat): real
    requires period >= 1
  {
    (average * (period - 1) as real + x) / period as real
  }

  function Mean(total: real, period: nat): real
    requires period >= 1
  {
    total / period as real
  }

  /** Wilder's ATR of a whole candle history: the mean of the first `period` true ranges,
      then one smoothing step per later bar; zero when the history is too short. */
  function Atr(c: seq<Candle>, period: nat): real
    requires period >= 1
  {
    if |c| < period + 1 then 0.0
    else if |c| == period + 1 then Mean(Sum(TrueRanges(c)), period)
    else Smooth(Atr(c[..|c| - 1], period), TrueRange(c, |c| - 1), period)
  }

  /** Wilder's smoothing folded over a list of true ranges, the shape the three list-based loops share. */
  function Wilder(trs: seq<real>, period: nat): real
    requires period >= 1 && |trs| >= period
  {
    if |trs| == period then Mean(Sum(trs), period)
    else Smooth(Wilder(trs[..|trs| - 1], period), trs[|trs| - 1], period)
  }

  lemma {:induction false} WilderIsAtr(c: seq<Candle>, period: nat)
    requires period >= 1 && |c| >= period + 1
    ensures Wilder(TrueRanges(c), period) == Atr(c, period)
  {
    hide Smooth, Mean, RangeOf;
    var t, n := TrueRanges(c), |c| - 1;
    if n > period {
      assert t[..n - 1] == TrueRanges(c[..n]);
      WilderIsAtr(c[..n], period);
    }
  }

  /** Backtest engine: one pass over the candles fills the ATR of every prefix. */
  method AtrArray(c: seq<Candle>, period: nat) returns (atr: array<real>)
    requires period >= 1
    ensures atr.Length == |c|
    ensures forall i :: 0 <= i < |c| ==> atr[i] == Atr(c[..i + 1], period)
  {
    hide Smooth, Mean, RangeOf;
    var n := |c|;
    atr := new real[n](_ => 0.0);
    if n < period + 1 {
      return;
    }
    var tr := seq(n, i requires 0 <= i < n => if i == 0 then 0.0 else TrueRange(c, i));
    atr[period] := Mean(Sum(tr[1..period + 1]), period);
    assert tr[1..period + 1] == TrueRanges(c[..period + 1]);
    for i := period + 1 to n
      invariant forall k :: 0 <= k < i ==> atr[k] == Atr(c[..k + 1], period)
    {
      assert c[..i + 1][..i] == c[..i];
      atr[i] := Smooth(atr[i - 1], tr[i], period);
    }
  }

  /** Backtest engine: the ATR recomputed from one candle history; `round8` rounds to 8 decimals. */
  method HistoryAtr(c: seq<Candle>, period: nat, round8: real -> real) returns (r: real)
    requires period >= 1
    ensures r == if |c| < period + 1 then 0.0 else round8(Atr(c, period))
  {
    if |c| < period + 1 {
      return 0.0;
    }
    var trs: seq<real> := [];
    for i := 1 to |c|
      invariant trs == TrueRanges(c[..i])
    {
      trs := trs + [TrueRange(c, i)];
    }
    assert c[..|c|] == c;
    var atr := SmoothList(trs, period);
    WilderIsAtr(c, period);
    r := round8(atr);
  }

  /** Live decision engine: previous closes come from a rolled copy of the close column, no rounding. */
  method LiveAtr(c: seq<Candle>, period: nat) returns (r: real)
    requires period >= 1
    ensures r == Atr(c, period)
  {
    if |c| < period + 1 {
      return 0.0;
    }
    var n := |c|;
    var prev := seq(n, i requires 0 <= i < n => if i == 0 then c[0].close else c[i - 1].close);
    var tr := seq(n, i requires 0 <= i < n => RangeOf(c[i].high, c[i].low, prev[i]));
    tr := tr[1..];
    assert tr == TrueRanges(c);
    r := SmoothList(tr, period);
    WilderIsAtr(c, period);
  }

  /** Candles read off three columns; the close column says how many. */
  function Columns(highs: seq<real>, lows: seq<real>, closes: seq<real>): (c: seq<Candle>)
    requires |closes| <= |highs| && |closes| <= |lows|
    ensures |c| == |closes|
    ensures forall i :: 0 <= i < |c| ==> c[i].high == highs[i] && c[i].low == lows[i] && c[i].close == closes[i]
  {
    seq(|closes|, i requires 0 <= i < |closes| => Candle(0, 0.0, highs[i], lows[i], closes[i], 0.0))
  }

  /** Reading a price column past its end. */
  datatype Fault = IndexError

  /** TA tools: three separate price columns, `None` when there is too little data, and a failure exactly when there is
      enough but the high or low column is shorter than the close column. */
  method ToolsAtr(highs: seq<real>, lows: seq<real>, closes: seq<real>, period: nat, round8: real -> real)
    returns (r: Result<Option<real>, Fault>)
    requires period >= 1
    ensures |closes| < period + 1 ==> r == Ok(None)
    ensures |closes| >= period + 1 && (|highs| < |closes| || |lows| < |closes|) ==> r == Err(IndexError)
    ensures |closes| >= period + 1 && |highs| >= |closes| && |lows| >= |closes| ==>
              r == Ok(Some(round8(Atr(Columns(highs, lows, closes), period))))
  {
    if |closes| < period + 1 {
      return Ok(None);
    }
    var trs: seq<real> := [];
    for i := 1 to |closes|
      invariant i > 1 ==> i <= |highs| && i <= |lows|
      invariant |highs| >= |closes| && |lows| >= |closes| ==> trs == TrueRanges(Columns(highs, lows, closes)[..i])
      invariant |trs| == i - 1
    {
      if i >= |highs| || i >= |lows| {
        return Err(IndexError);
      }
      trs := trs + [RangeOf(highs[i], lows[i], closes[i - 1])];
    }
    ghost var c := Columns(highs, lows, closes);
    assert c[..|c|] == c;
    var atr := SmoothList(trs, period);
    WilderIsAtr(c, period);
    r := Ok(Some(round8(atr)));
  }

  /** The smoothing loop `atr = sum(trs[:period]) / period; for tr in trs[period:] ...`. */
  method SmoothList(trs: seq<real>, period: nat) returns (atr: real)
    requires period >= 1 && |trs| >= period
    ensures atr == Wilder(trs, period)
  {
    hide Smooth, Mean;
    atr := Mean(Sum(trs[..period]), period);
    for i := period to |trs|
      invariant atr == Wilder(trs[..i], period)
    {
      assert trs[..i + 1][..i] == trs[..i];
      atr := Smooth(atr, trs[i], period);
    }
    assert trs[..|trs|] == trs;
  }

  /** Each smoothing step moves the average towards the new value by one part in `period`. */
  lemma SmoothMovesOnePart(average: real, x: real, period: nat)
    requires period >= 1
    ensures (Smooth(average, x, period) - average) * period as real == x - average
  {
    var p := period as real;
    assert Smooth(average, x, period) * p == average * (p - 1.0) + x;
    assert average * (p - 1.0) == average * p - average;
  }

  /** The ATR of every history: nothing up to `period` candles, then the mean of the true ranges, then one part in `period`
      of each new true range. */
  lemma AtrRecurrence(c: seq<Candle>, period: nat)
    requires period >= 1
    ensures |c| <= period ==> Atr(c, period) == 0.0
    ensures |c| == period + 1 ==>
              Atr(c, period) * period as real == Sum(seq(period, i requires 0 <= i < period => TrueRange(c, i + 1)))
    ensures |c| > period + 1 ==>
              var before := Atr(c[..|c| - 1], period);
              Atr(c, period) * period as real == before * period as real - before + TrueRange(c, |c| - 1)
  {
    hide TrueRange, Mean, Smooth;
    if |c| == period + 1 {
      assert TrueRanges(c) == seq(period, i requires 0 <= i < period => TrueRange(c, i + 1));
      MeanTimes(Sum(TrueRanges(c)), period);
    } else if |c| > period + 1 {
      SmoothTimes(Atr(c[..|c| - 1], period), TrueRange(c, |c| - 1), period);
    }
  }

  lemma MeanTimes(total: real, period: nat)
    requires period >= 1
    ensures Mean(total, period) * period as real == total
  {
  }

  lemma SmoothTimes(average: real, x: real, period: nat)
    requires period >= 1
    ensures Smooth(average, x, period) * period as real == average * period as real - average + x
  {
    hide Smooth;
    SmoothMovesOnePart(average, x, period);
    var p, s := period as real, Smooth(average, x, period);
    assert (s - average) * p == s * p - average * p;
  }

  /** The ATR is a weighted mean of true ranges: it never leaves the band they lie in. */
  lemma {:induction false} AtrWithinTrueRanges(c: seq<Candle>, period: nat, lo: real, hi: real)
    requires period >= 1 && |c| >= period + 1
    requires forall i :: 1 <= i < |c| ==> lo <= TrueRange(c, i) <= hi
    ensures lo <= Atr(c, period) <= hi
  {
    hide Smooth, Mean, RangeOf;
    var n := |c| - 1;
    if n == period {
      SumBounds(TrueRanges(c), lo, hi);
      MeanBounds(Sum(TrueRanges(c)), period, lo, hi);
    } else {
      var shorter := c[..n];
      assert forall i :: 1 <= i < n ==> TrueRange(shorter, i) == TrueRange(c, i);
      AtrWithinTrueRanges(shorter, period, lo, hi);
      SmoothBounds(Atr(shorter, period), TrueRange(c, n), period, lo, hi);
    }
  }

  /** Dividing a total between period*lo and period*hi by the period gives a mean between lo and hi. */
  lemma MeanBounds(total: real, period: nat, lo: real, hi: real)
    requires period >= 1 && period as real * lo <= total <= period as real * hi
    ensures lo <= Mean(total, period) <= hi
  {
    var p, mean := period as real, Mean(total, period);
    assert mean * p == total;
    NonNegativeFactor(mean - lo, p);
    NonNegativeFactor(hi - mean, p);
  }

  lemma NonNegativeFactor(a: real, b: real)
    requires b > 0.0 && a * b >= 0.0
    ensures a >= 0.0
  {
  }

  lemma SmoothBounds(average: real, x: real, period: nat, lo: real, hi: real)
    requires period >= 1 && lo <= average <= hi && lo <= x <= hi
    ensures lo <= Smooth(average, x, period) <= hi
  {
    var q := (period - 1) as real;
    assert Smooth(average, x, period) == Mean(average * q + x, period);
    hide Smooth, Mean;
    Scale(lo, average, q);
    Scale(average, hi, q);
    assert period as real == q + 1.0;
    assert (q + 1.0) * lo == lo * q + lo && (q + 1.0) * hi == hi * q + hi;
    MeanBounds(average * q + x, period, lo, hi);
  }

  lemma Scale(x: real, y: real, q: real)
    requires x <= y && q >= 0.0
    ensures x * q <= y * q
  {
    assert (y - x) * q >= 0.0;
  }

  lemma AtrNonNegative(c: seq<Candle>, period: nat)
    requires period >= 1
    ensures Atr(c, period) >= 0.0
  {
    if |c| >= period + 1 {
      var hi := MaxTrueRange(c, |c| - 1);
      AtrWithinTrueRanges(c, period, 0.0, hi);
    }
  }

  lemma {:induction false} MaxTrueRange(c: seq<Candle>, n: nat) returns (hi: real)
    requires n < |c|
    ensures forall i :: 1 <= i <= n ==> TrueRange(c, i) <= hi
  {
    hi := 0.0;
    if n > 0 {
      var m := MaxTrueRange(c, n - 1);
      hi := Max(m, TrueRange(c, n));
    }
  }
}
