/**
 * The indicator calculator of backtest.py (`do_sma_calcs`): trailing simple
 * moving averages of the close prices.  Prices are whole cents; a mean is an
 * exact `real`.  A cell with fewer than `w` bars behind it is undefined
 * (`None`), as pandas' `rolling(window=w).mean()` leaves it NaN.
 */
module Indicators {
  import opened Wrappers

  /** The two windows the strategy uses: 10 bars (fast) and 200 bars (slow). */
  const FastWindow: nat := 10
  const SlowWindow: nat := 200

  /** Sum of a run of prices, taken from the last element backwards. */
  function Sum(s: seq<int>): int
  {
    if |s| == 0 then 0 else Sum(s[..|s| - 1]) + s[|s| - 1]
  }

  /** Arithmetic mean of a non-empty run of prices. */
  function Mean(s: seq<int>): real
    requires |s| > 0
  {
    Sum(s) as real / |s| as real
  }

  /** The `w` closes that end at bar `i`, bar `i` included. */
  function Window(close: seq<int>, w: nat, i: nat): (r: seq<int>)
    requires 0 < w <= i + 1 <= |close|
    ensures |r| == w
    ensures forall k :: 0 <= k < w ==> r[k] == close[i + 1 - w + k]
  {
    close[i + 1 - w .. i + 1]
  }

  /**
   * `close.rolling(window=w).mean()`: the mean of the trailing window at every
   * bar that has `w` bars behind it, and nothing before that.
   */
  function RollingMean(close: seq<int>, w: nat): (r: seq<Option<real>>)
    requires w > 0
    ensures |r| == |close|
    ensures forall i :: 0 <= i < |r| ==> (r[i].Some? <==> w <= i + 1)
  {
    seq(|close|, i requires 0 <= i < |close| =>
      if i + 1 < w then None else Some(Mean(Window(close, w, i))))
  }

  /** Sum distributes over concatenation. */
  lemma {:induction false} SumConcat(a: seq<int>, b: seq<int>)
    ensures Sum(a + b) == Sum(a) + Sum(b)
    decreases |b|
  {
    if |b| == 0 {
      assert a + b == a;
    } else {
      assert (a + b)[..|a + b| - 1] == a + b[..|b| - 1];
      SumConcat(a, b[..|b| - 1]);
    }
  }

  /**
   * The sliding-sum form of the rolling mean: the window sum at bar `i` is a
   * difference of two prefix sums, so each mean can be had in O(1) from a
   * running total.  This is an independent definition of the same column.
   */
  lemma RollingMeanByPrefixSums(close: seq<int>, w: nat, i: nat)
    requires 0 < w <= i + 1 <= |close|
    ensures RollingMean(close, w)[i]
         == Some((Sum(close[..i + 1]) - Sum(close[..i + 1 - w])) as real / w as real)
  {
    assert close[..i + 1] == close[..i + 1 - w] + Window(close, w, i);
    SumConcat(close[..i + 1 - w], Window(close, w, i));
  }

  /** Moving the window one bar forward adds the new close and drops the oldest. */
  lemma WindowSumSlides(close: seq<int>, w: nat, i: nat)
    requires 0 < w <= i < |close|
    ensures Sum(Window(close, w, i)) == Sum(Window(close, w, i - 1)) + close[i] - close[i - w]
  {
    var prev := Window(close, w, i - 1);
    var next := Window(close, w, i);
    assert prev + [close[i]] == [close[i - w]] + next;
    SumConcat(prev, [close[i]]);
    SumConcat([close[i - w]], next);
    assert Sum([close[i]]) == close[i] by { assert [close[i]][..0] == []; }
    assert Sum([close[i - w]]) == close[i - w] by { assert [close[i - w]][..0] == []; }
  }

  /** A sum lies between |s| times a lower and |s| times an upper bound of its terms. */
  lemma {:induction false} SumBounds(s: seq<int>, lo: int, hi: int)
    requires forall k :: 0 <= k < |s| ==> lo <= s[k] <= hi
    ensures |s| * lo <= Sum(s) <= |s| * hi
    decreases |s|
  {
    if |s| > 0 {
      SumBounds(s[..|s| - 1], lo, hi);
      assert |s| * lo == (|s| - 1) * lo + lo && |s| * hi == (|s| - 1) * hi + hi;
    }
  }

  /** A non-empty sum of terms all strictly above `m` is strictly above |s| * m. */
  lemma {:induction false} SumAbove(s: seq<int>, m: int)
    requires |s| > 0
    requires forall k :: 0 <= k < |s| ==> m < s[k]
    ensures |s| * m < Sum(s)
    decreases |s|
  {
    if |s| > 1 {
      SumAbove(s[..|s| - 1], m);
    }
  }

  /** Dividing a total by a positive count keeps it between the scaled bounds. */
  lemma QuotientBounds(total: real, n: real, lo: real, hi: real)
    requires n > 0.0 && n * lo <= total <= n * hi
    ensures lo <= total / n <= hi
  {
    var q := total / n;
    assert (q - lo) * n == total - n * lo >= 0.0;
    assert (hi - q) * n == n * hi - total >= 0.0;
  }

  /** A mean lies between any lower and upper bound of the prices it averages. */
  lemma MeanBounds(s: seq<int>, lo: int, hi: int)
    requires |s| > 0
    requires forall k :: 0 <= k < |s| ==> lo <= s[k] <= hi
    ensures lo as real <= Mean(s) <= hi as real
  {
    SumBounds(s, lo, hi);
    QuotientBounds(Sum(s) as real, |s| as real, lo as real, hi as real);
  }

  /** Every defined moving average of positive prices is positive. */
  lemma RollingMeanPositive(close: seq<int>, w: nat, i: nat)
    requires 0 < w <= i + 1 <= |close|
    requires forall k :: 0 <= k < |close| ==> close[k] > 0
    ensures RollingMean(close, w)[i].value > 0.0
  {
    SumAbove(Window(close, w, i), 0);
  }

  /** On a flat series every defined moving average equals the constant close. */
  lemma FlatSeriesMean(close: seq<int>, c: int, w: nat, i: nat)
    requires 0 < w <= i + 1 <= |close|
    requires forall k :: 0 <= k < |close| ==> close[k] == c
    ensures RollingMean(close, w)[i] == Some(c as real)
  {
    MeanBounds(Window(close, w, i), c, c);
  }

  /**
   * On a strictly rising series the fast average is strictly above the slow
   * one at every bar where both are defined: the last 10 closes all exceed
   * the 190 before them.
   */
  lemma RisingSeriesFastAboveSlow(close: seq<int>, i: nat)
    requires SlowWindow <= i + 1 <= |close|
    requires forall j, k :: 0 <= j < k < |close| ==> close[j] < close[k]
    ensures RollingMean(close, FastWindow)[i].value > RollingMean(close, SlowWindow)[i].value
  {
    var slow := Window(close, SlowWindow, i);
    var fast := Window(close, FastWindow, i);
    var older := slow[..SlowWindow - FastWindow];
    assert slow == older + fast;
    SumConcat(older, fast);
    var m := close[i - FastWindow];
    SumBounds(older, older[0], m);
    SumAbove(fast, m);
    assert 19 * Sum(fast) > Sum(older);
    var f := Sum(fast) as real;
    var o := Sum(older) as real;
    assert RollingMean(close, FastWindow)[i].value == f / 10.0;
    assert RollingMean(close, SlowWindow)[i].value == (o + f) / 200.0;
    assert 19.0 * f > o;
  }
}
