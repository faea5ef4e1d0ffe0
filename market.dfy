/**
 * Market observations. The exchange's kline endpoint is not modelled: a
 * candle window is an input, and a response that is not a list of candles
 * is the empty window.
 */
module Market {
  type Pair = string

  /** One kline: only the fields the engine reads (high, low, close). */
  datatype Candle = Candle(high: real, low: real, close: real)

  /** The candles fetched for `pair`; a pair missing from `m` got no list back. */
  function KlinesOf(m: map<Pair, seq<Candle>>, pair: Pair): (kl: seq<Candle>)
    ensures pair !in m ==> kl == []
  {
    if pair in m then m[pair] else []
  }

  function Closes(kl: seq<Candle>): (c: seq<real>)
    ensures |c| == |kl| && forall i :: 0 <= i < |kl| ==> c[i] == kl[i].close
  {
    seq(|kl|, i requires 0 <= i < |kl| => kl[i].close)
  }

  function Highs(kl: seq<Candle>): (h: seq<real>)
    ensures |h| == |kl| && forall i :: 0 <= i < |kl| ==> h[i] == kl[i].high
  {
    seq(|kl|, i requires 0 <= i < |kl| => kl[i].high)
  }

  function Lows(kl: seq<Candle>): (l: seq<real>)
    ensures |l| == |kl| && forall i :: 0 <= i < |kl| ==> l[i] == kl[i].low
  {
    seq(|kl|, i requires 0 <= i < |kl| => kl[i].low)
  }

  /** Exchange prices are positive; the source divides by the last close. */
  predicate PositiveCloses(kl: seq<Candle>)
  {
    forall i :: 0 <= i < |kl| ==> kl[i].close > 0.0
  }

  predicate ValidMarket(m: map<Pair, seq<Candle>>)
  {
    forall p :: p in m ==> PositiveCloses(m[p])
  }

  predicate Distinct<T(==)>(s: seq<T>)
  {
    forall i, j :: 0 <= i < j < |s| ==> s[i] != s[j]
  }
}
