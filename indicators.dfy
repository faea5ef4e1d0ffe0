/**
 * The indicator library shared by engine.py and bot.py: an exponential moving
 * average seeded with a simple average, and the average true range over the
 * last ATR_PERIOD candles. Values are exact reals.
 */
module Indicators {
  import opened Wrappers

  const ATR_PERIOD: nat := 14

  /** Sum of a sequence, left to right as the running total of a loop. */
  function Sum(s: seq<real>): real
  {
    if s == [] then 0.0 else Sum(s[..|s| - 1]) + s[|s| - 1]
  }

  /** The arithmetic mean of a non-empty sequence (Python's statistics.mean). */
  function Mean(s: seq<real>): real
    requires |s| > 0
  {
    Sum(s) / |s| as real
  }

  lemma {:induction false} SumBounds(s: seq<real>, lo: real, hi: real)
    requires forall i :: 0 <= i < |s| ==> lo <= s[i] <= hi
    ensures |s| as real * lo <= Sum(s) <= |s| as real * hi
  {
    if s != [] {
      SumBounds(s[..|s| - 1], lo, hi);
    }
  }

  lemma MeanBounds(s: seq<real>, lo: real, hi: real)
    requires |s| > 0
    requires forall i :: 0 <= i < |s| ==> lo <= s[i] <= hi
    ensures lo <= Mean(s) <= hi
  {
    SumBounds(s, lo, hi);
    var n := |s| as real;
    assert n * lo <= Sum(s) <= n * hi;
    assert Sum(s) / n >= lo by {
      assert Sum(s) >= lo * n;
    }
    assert Sum(s) / n <= hi by {
      assert Sum(s) <= hi * n;
    }
  }

  // ---------------------------------------------------------------- EMA

  /** The smoothing factor k = 2 / (p + 1). */
  function Smoothing(p: nat): (k: real)
    requires p >= 1
    ensures 0.0 < k <= 1.0
  {
    2.0 / (p as real + 1.0)
  }

  /** One smoothing step: the new value weighs `x` by k and the old by 1 - k. */
  function EmaStep(e: real, x: real, k: real): real
  {
    x * k + e * (1.0 - k)
  }

  /** Smooths `xs` into the running value `e`, oldest element first. */
  function EmaFold(e: real, k: real, xs: seq<real>): real
  {
    if xs == [] then e else EmaStep(EmaFold(e, k, xs[..|xs| - 1]), xs[|xs| - 1], k)
  }

  /** The number of values that seed the average: data[:p] in the source. */
  function SeedLength(data: seq<real>, p: nat): (n: nat)
    ensures n <= |data| && n <= p && (n == p || n == |data|)
  {
    if p <= |data| then p else |data|
  }

  /**
   * ema(data, p): seed with sum(data[:p]) / p, then smooth every later value
   * with k = 2 / (p + 1). A window shorter than p is seeded with the sum of
   * what there is, still divided by p, as the source does.
   */
  function Ema(data: seq<real>, p: nat): real
    requires p >= 1
  {
    var n := SeedLength(data, p);
    EmaFold(Sum(data[..n]) / p as real, Smoothing(p), data[n..])
  }

  /** The source's loop: `e` is the running value over data[p:]. */
  method ComputeEma(data: seq<real>, p: nat) returns (e: real)
    requires p >= 1
    ensures e == Ema(data, p)
  {
    var k := 2.0 / (p as real + 1.0);
    var n := if p <= |data| then p else |data|;
    var total := 0.0;
    var i := 0;
    while i < n
      invariant 0 <= i <= n
      invariant total == Sum(data[..i])
    {
      assert data[..i + 1][..i] == data[..i];
      total := total + data[i];
      i := i + 1;
    }
    e := total / p as real;
    var rest := data[n..];
    var j := 0;
    while j < |rest|
      invariant 0 <= j <= |rest|
      invariant e == EmaFold(total / p as real, k, rest[..j])
    {
      assert rest[..j + 1][..j] == rest[..j];
      e := rest[j] * k + e * (1.0 - k);
      j := j + 1;
    }
    assert rest[..j] == rest;
  }

  lemma {:induction false} EmaFoldBounds(e: real, k: real, xs: seq<real>, lo: real, hi: real)
    requires 0.0 <= k <= 1.0
    requires lo <= e <= hi
    requires forall i :: 0 <= i < |xs| ==> lo <= xs[i] <= hi
    ensures lo <= EmaFold(e, k, xs) <= hi
  {
    if xs != [] {
      var prefix := xs[..|xs| - 1];
      EmaFoldBounds(e, k, prefix, lo, hi);
      EmaStepBetween(EmaFold(e, k, prefix), xs[|xs| - 1], k);
    }
  }

  /** A smoothing step lands between the old value and the new observation. */
  lemma EmaStepBetween(e: real, x: real, k: real)
    requires 0.0 <= k <= 1.0
    ensures e <= x ==> e <= EmaStep(e, x, k) <= x
    ensures x <= e ==> x <= EmaStep(e, x, k) <= e
  {
    assert EmaStep(e, x, k) == e + k * (x - e);
    if e <= x {
      FractionOf(k, x - e);
    } else {
      FractionOf(k, e - x);
      assert k * (x - e) == -(k * (e - x));
    }
  }

  /** A fraction k in [0, 1] of a non-negative d lies in [0, d]. */
  lemma FractionOf(k: real, d: real)
    requires 0.0 <= k <= 1.0 && d >= 0.0
    ensures 0.0 <= k * d <= d
  {
    assert d - k * d == (1.0 - k) * d;
  }

  /**
   * When the window holds at least p values, the EMA is a weighted average
   * of them: it lies between their minimum and maximum, so a constant series
   * has that constant as its EMA.
   */
  lemma EmaBounds(data: seq<real>, p: nat, lo: real, hi: real)
    requires 1 <= p <= |data|
    requires forall i :: 0 <= i < |data| ==> lo <= data[i] <= hi
    ensures lo <= Ema(data, p) <= hi
  {
    var seed := data[..p];
    MeanBounds(seed, lo, hi);
    EmaFoldBounds(Sum(seed) / p as real, Smoothing(p), data[p..], lo, hi);
  }

  /** The worked example: ema([1, 2, 3, 4, 5], 3) seeds with 2, then 3, then 4. */
  lemma EmaExample()
    ensures Ema([1.0, 2.0, 3.0, 4.0, 5.0], 3) == 4.0
  {
    var data := [1.0, 2.0, 3.0, 4.0, 5.0];
    assert data[..3] == [1.0, 2.0, 3.0];
    assert Sum([1.0, 2.0, 3.0]) == 6.0 by {
      assert [1.0, 2.0, 3.0][..2] == [1.0, 2.0];
      assert [1.0, 2.0][..1] == [1.0];
      assert [1.0][..0] == [];
    }
    assert data[3..] == [4.0, 5.0];
    assert Smoothing(3) == 0.5;
    assert [4.0, 5.0][..1] == [4.0];
    assert [4.0][..0] == [];
    assert EmaFold(2.0, 0.5, [4.0]) == 3.0;
  }

  // ---------------------------------------------------------------- ATR

  function Abs(x: real): real
  {
    if x < 0.0 then -x else x
  }

  function Max3(a: real, b: real, c: real): real
  {
    if a >= b && a >= c then a else if b >= c then b else c
  }

  /** max(high - low, |high - previous close|, |low - previous close|). */
  function TrueRange(high: real, low: real, prevClose: real): (tr: real)
    ensures tr >= 0.0
    ensures tr >= high - low && tr >= Abs(high - prevClose) && tr >= Abs(low - prevClose)
    ensures tr == high - low || tr == Abs(high - prevClose) || tr == Abs(low - prevClose)
  {
    Max3(high - low, Abs(high - prevClose), Abs(low - prevClose))
  }

  /** The true ranges of candles 1 .. n-1, each against the previous close. */
  function TrueRanges(highs: seq<real>, lows: seq<real>, closes: seq<real>, n: nat): (tr: seq<real>)
    requires n <= |closes| && n <= |highs| && n <= |lows|
    ensures |tr| == if n == 0 then 0 else n - 1
    ensures forall i :: 0 <= i < |tr| ==> tr[i] == TrueRange(highs[i + 1], lows[i + 1], closes[i])
  {
    if n <= 1 then []
    else TrueRanges(highs, lows, closes, n - 1) + [TrueRange(highs[n - 1], lows[n - 1], closes[n - 2])]
  }

  /** The mean of the last ATR_PERIOD true ranges, or None when there are fewer. */
  function Atr(highs: seq<real>, lows: seq<real>, closes: seq<real>): Option<real>
    requires |closes| <= |highs| && |closes| <= |lows|
  {
    var tr := TrueRanges(highs, lows, closes, |closes|);
    if |tr| >= ATR_PERIOD then Some(Mean(tr[|tr| - ATR_PERIOD..])) else None
  }

  /**
   * The ATR is undefined exactly when fewer than ATR_PERIOD true ranges exist
   * (fewer than ATR_PERIOD + 1 closes); otherwise it is non-negative.
   */
  lemma AtrSpec(highs: seq<real>, lows: seq<real>, closes: seq<real>)
    requires |closes| <= |highs| && |closes| <= |lows|
    ensures Atr(highs, lows, closes).None? <==> |closes| < ATR_PERIOD + 1
    ensures Atr(highs, lows, closes).Some? ==> Atr(highs, lows, closes).value >= 0.0
  {
    var tr := TrueRanges(highs, lows, closes, |closes|);
    if |tr| >= ATR_PERIOD {
      SumNonNegative(tr[|tr| - ATR_PERIOD..]);
    }
  }

  /** A defined ATR is the mean of the true ranges of the last ATR_PERIOD candles. */
  lemma AtrWindow(highs: seq<real>, lows: seq<real>, closes: seq<real>)
    requires |closes| <= |highs| && |closes| <= |lows|
    ensures Atr(highs, lows, closes).Some? ==>
      var n := |closes|;
      Atr(highs, lows, closes).value ==
        Mean(seq(ATR_PERIOD, i requires 0 <= i < ATR_PERIOD =>
          TrueRange(highs[n - ATR_PERIOD + i], lows[n - ATR_PERIOD + i], closes[n - ATR_PERIOD + i - 1])))
  {
    var tr := TrueRanges(highs, lows, closes, |closes|);
    if |tr| >= ATR_PERIOD {
      var n := |closes|;
      assert tr[|tr| - ATR_PERIOD..] == seq(ATR_PERIOD, i requires 0 <= i < ATR_PERIOD =>
          TrueRange(highs[n - ATR_PERIOD + i], lows[n - ATR_PERIOD + i], closes[n - ATR_PERIOD + i - 1]));
    }
  }

  lemma {:induction false} SumNonNegative(s: seq<real>)
    requires forall i :: 0 <= i < |s| ==> s[i] >= 0.0
    ensures Sum(s) >= 0.0
  {
    if s != [] {
      SumNonNegative(s[..|s| - 1]);
    }
  }

  /** The source's loop: append one true range per candle after the first. */
  method ComputeAtr(highs: seq<real>, lows: seq<real>, closes: seq<real>) returns (a: Option<real>)
    requires |closes| <= |highs| && |closes| <= |lows|
    ensures a == Atr(highs, lows, closes)
  {
    var tr: seq<real> := [];
    var i := 1;
    while i < |closes|
      invariant 1 <= i <= if |closes| == 0 then 1 else |closes|
      invariant tr == TrueRanges(highs, lows, closes, if |closes| == 0 then 0 else i)
    {
      tr := tr + [TrueRange(highs[i], lows[i], closes[i - 1])];
      i := i + 1;
    }
    assert tr == TrueRanges(highs, lows, closes, |closes|);
    if |tr| >= ATR_PERIOD {
      a := Some(Mean(tr[|tr| - ATR_PERIOD..]));
    } else {
      a := None;
    }
  }
}
