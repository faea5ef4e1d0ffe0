/**
 * auto_select_pairs and analyze_pair of engine.py as pure functions: every
 * candidate pair is classified (accepted with its ATR percentage, or rejected
 * with a reason), the accepted ones are sorted by distance to the target
 * volatility and the first MAX_AUTO_PAIRS are kept.
 */
module PairSelector {
  import opened Wrappers
  import opened Market
  import opened Indicators

  const ALL_PAIRS: seq<Pair> := [
    "SOLUSDT", "BNBUSDT",
    "DOGEUSDT", "TRXUSDT",
    "ADAUSDT", "XRPUSDT",
    "TONUSDT", "ARBUSDT",
    "OPUSDT"
  ]

  const MAX_AUTO_PAIRS: nat := 4
  const MIN_CANDLES: nat := 50
  const PRICE_CEILING: real := 20.0
  const ATR_PCT_MIN: real := 0.4
  const ATR_PCT_MAX: real := 3.0
  const ATR_PCT_TARGET: real := 1.2

  lemma AllPairsDistinct()
    ensures Distinct(ALL_PAIRS)
  {
  }

  /** Why a pair was not selected (the LAST_REJECT_REASON strings). */
  datatype Reject = NotEnoughCandles | AtrUnavailable | PriceTooHigh | AtrPctBad(atrPct: real)

  function LastClose(kl: seq<Candle>): real
    requires |kl| > 0
  {
    kl[|kl| - 1].close
  }

  function CandleAtr(kl: seq<Candle>): Option<real>
  {
    Atr(Highs(kl), Lows(kl), Closes(kl))
  }

  /** Python's truthiness of the ATR: None and 0.0 are both false. */
  predicate Truthy(a: Option<real>)
  {
    a.Some? && a.value != 0.0
  }

  /** The filters of auto_select_pairs, in the source's order. */
  function Classify(kl: seq<Candle>): Result<real, Reject>
    requires PositiveCloses(kl)
  {
    if |kl| < MIN_CANDLES then Err(NotEnoughCandles)
    else
      var price := LastClose(kl);
      var a := CandleAtr(kl);
      if !Truthy(a) then Err(AtrUnavailable)
      else
        var atrPct := a.value / price * 100.0;
        if price > PRICE_CEILING then Err(PriceTooHigh)
        else if atrPct < ATR_PCT_MIN || atrPct > ATR_PCT_MAX then Err(AtrPctBad(atrPct))
        else Ok(atrPct)
  }

  /**
   * A pair is accepted exactly when it has enough candles, a non-zero ATR, a
   * price within the ceiling and an ATR percentage inside the band; with
   * enough candles the ATR always exists, so "ATR unavailable" means a zero ATR.
   * Each reject reason holds exactly when the earlier filters pass and its own
   * fails: the price ceiling is tested before the ATR band, and a bad band
   * carries the ATR percentage it measured.
   */
  lemma ClassifySpec(kl: seq<Candle>)
    requires PositiveCloses(kl)
    ensures Classify(kl) == Err(NotEnoughCandles) <==> |kl| < MIN_CANDLES
    ensures Classify(kl) == Err(AtrUnavailable) <==> |kl| >= MIN_CANDLES && CandleAtr(kl) == Some(0.0)
    ensures Classify(kl).Ok? <==>
      && |kl| >= MIN_CANDLES
      && CandleAtr(kl).Some? && CandleAtr(kl).value > 0.0
      && LastClose(kl) <= PRICE_CEILING
      && ATR_PCT_MIN <= CandleAtr(kl).value / LastClose(kl) * 100.0 <= ATR_PCT_MAX
    ensures Classify(kl).Ok? ==> Classify(kl).value == CandleAtr(kl).value / LastClose(kl) * 100.0
    ensures Classify(kl) == Err(PriceTooHigh) <==>
      |kl| >= MIN_CANDLES && Truthy(CandleAtr(kl)) && LastClose(kl) > PRICE_CEILING
    ensures Classify(kl).Err? && Classify(kl).error.AtrPctBad? <==>
      && |kl| >= MIN_CANDLES && Truthy(CandleAtr(kl)) && LastClose(kl) <= PRICE_CEILING
      && !(ATR_PCT_MIN <= CandleAtr(kl).value / LastClose(kl) * 100.0 <= ATR_PCT_MAX)
    ensures Classify(kl).Err? && Classify(kl).error.AtrPctBad? ==>
      Classify(kl).error.atrPct == CandleAtr(kl).value / LastClose(kl) * 100.0
  {
    AtrSpec(Highs(kl), Lows(kl), Closes(kl));
  }

  /** A scored pair: (pair, atr_pct). */
  datatype Candidate = Candidate(pair: Pair, atrPct: real)

  /** The sort key: distance of the ATR percentage from the target. */
  function Score(c: Candidate): real
  {
    Abs(c.atrPct - ATR_PCT_TARGET)
  }

  /** The classification of every candidate pair. */
  type Verdicts = map<Pair, Result<real, Reject>>

  function VerdictsOf(m: map<Pair, seq<Candle>>): (v: Verdicts)
    requires ValidMarket(m)
    ensures forall p :: p in v <==> p in ALL_PAIRS
  {
    map p | p in ALL_PAIRS :: Classify(KlinesOf(m, p))
  }

  predicate Covers(v: Verdicts, pairs: seq<Pair>)
  {
    forall i :: 0 <= i < |pairs| ==> pairs[i] in v
  }

  /** The accepted pairs of `pairs`, in order. */
  function Scored(pairs: seq<Pair>, v: Verdicts): seq<Candidate>
    requires Covers(v, pairs)
  {
    if pairs == [] then []
    else
      var p := pairs[|pairs| - 1];
      Scored(pairs[..|pairs| - 1], v) + (if v[p].Ok? then [Candidate(p, v[p].value)] else [])
  }

  /** The reject reasons recorded for `pairs`. */
  function Rejections(pairs: seq<Pair>, v: Verdicts): map<Pair, Reject>
    requires Covers(v, pairs)
  {
    if pairs == [] then map[]
    else
      var p := pairs[|pairs| - 1];
      Rejections(pairs[..|pairs| - 1], v) + (if v[p].Err? then map[p := v[p].error] else map[])
  }

  /**
   * Every pair is either scored, with the ATR percentage it was accepted
   * with, or recorded with the reason it was rejected; nothing else appears.
   */
  lemma {:induction false} ScoredSpec(pairs: seq<Pair>, v: Verdicts)
    requires Covers(v, pairs)
    ensures forall c :: c in Scored(pairs, v) ==> c.pair in pairs && c.pair in v && v[c.pair] == Ok(c.atrPct)
    ensures forall p :: p in pairs && p in v && v[p].Ok? ==> Candidate(p, v[p].value) in Scored(pairs, v)
    ensures forall p :: p in Rejections(pairs, v) <==> p in pairs && p in v && v[p].Err?
    ensures forall p :: p in Rejections(pairs, v) ==> p in v && Rejections(pairs, v)[p] == v[p].error
    ensures Distinct(pairs) ==> Distinct(Scored(pairs, v))
  {
    if pairs != [] {
      var prefix := pairs[..|pairs| - 1];
      ScoredSpec(prefix, v);
      assert pairs == prefix + [pairs[|pairs| - 1]];
      if Distinct(pairs) {
        assert Distinct(prefix);
        assert pairs[|pairs| - 1] !in prefix;
      }
    }
  }

  // ------------------------------------------------------- stable sort

  predicate SortedByScore(s: seq<Candidate>)
  {
    forall i, j :: 0 <= i < j < |s| ==> Score(s[i]) <= Score(s[j])
  }

  /** Inserts `c` after every element whose score is not greater (keeps ties in order). */
  function Insert(c: Candidate, s: seq<Candidate>): seq<Candidate>
  {
    if s == [] then [c]
    else if Score(s[0]) <= Score(c) then [s[0]] + Insert(c, s[1..])
    else [c] + s
  }

  /** A stable insertion sort by Score, like Python's list.sort with a key. */
  function SortByScore(s: seq<Candidate>): seq<Candidate>
  {
    if s == [] then [] else Insert(s[|s| - 1], SortByScore(s[..|s| - 1]))
  }

  lemma {:induction false} InsertPerm(c: Candidate, s: seq<Candidate>)
    ensures multiset(Insert(c, s)) == multiset(s) + multiset{c}
  {
    if s != [] && Score(s[0]) <= Score(c) {
      InsertPerm(c, s[1..]);
      assert s == [s[0]] + s[1..];
    }
  }

  lemma {:induction false} InsertMembers(c: Candidate, s: seq<Candidate>)
    ensures forall x :: x in Insert(c, s) <==> x == c || x in s
  {
    if s != [] && Score(s[0]) <= Score(c) {
      InsertMembers(c, s[1..]);
      assert s == [s[0]] + s[1..];
    }
  }

  lemma {:induction false} InsertSorted(c: Candidate, s: seq<Candidate>)
    requires SortedByScore(s)
    ensures SortedByScore(Insert(c, s))
  {
    if s != [] && Score(s[0]) <= Score(c) {
      var rest := s[1..];
      InsertSorted(c, rest);
      InsertMembers(c, rest);
      var ins := Insert(c, rest);
      forall j | 0 <= j < |ins| ensures Score(s[0]) <= Score(ins[j]) {
        assert ins[j] in ins;
        if ins[j] != c {
          var k :| 0 <= k < |rest| && rest[k] == ins[j];
          assert s[k + 1] == ins[j];
        }
      }
      var r := Insert(c, s);
      assert r == [s[0]] + ins;
      forall i, j | 0 <= i < j < |r| ensures Score(r[i]) <= Score(r[j]) {
        assert r[j] == ins[j - 1];
        if i > 0 {
          assert r[i] == ins[i - 1];
        }
      }
    }
  }

  lemma {:induction false} SortSpec(s: seq<Candidate>)
    ensures multiset(SortByScore(s)) == multiset(s)
    ensures SortedByScore(SortByScore(s))
  {
    if s != [] {
      var prefix := s[..|s| - 1];
      SortSpec(prefix);
      InsertPerm(s[|s| - 1], SortByScore(prefix));
      InsertSorted(s[|s| - 1], SortByScore(prefix));
      assert s == prefix + [s[|s| - 1]];
    }
  }

  lemma {:induction false} InsertDistinct(c: Candidate, s: seq<Candidate>)
    requires Distinct(s) && c !in s
    ensures Distinct(Insert(c, s))
  {
    if s != [] && Score(s[0]) <= Score(c) {
      var rest := s[1..];
      assert forall k :: 0 <= k < |rest| ==> rest[k] == s[k + 1];
      InsertDistinct(c, rest);
      InsertMembers(c, rest);
      var r := Insert(c, s);
      assert s[0] !in Insert(c, rest) by {
        assert s[0] != c;
        assert s[0] !in rest;
      }
    }
  }

  lemma {:induction false} SortDistinct(s: seq<Candidate>)
    requires Distinct(s)
    ensures Distinct(SortByScore(s))
  {
    if s != [] {
      var prefix := s[..|s| - 1];
      SortDistinct(prefix);
      SortSpec(prefix);
      var last := s[|s| - 1];
      assert last !in prefix;
      assert last !in multiset(prefix);
      assert last !in SortByScore(prefix);
      InsertDistinct(last, SortByScore(prefix));
    }
  }

  // ------------------------------------------------------- selection

  function Names(cs: seq<Candidate>): (ps: seq<Pair>)
    ensures |ps| == |cs| && forall i :: 0 <= i < |cs| ==> ps[i] == cs[i].pair
  {
    seq(|cs|, i requires 0 <= i < |cs| => cs[i].pair)
  }

  /** Sort candidates by score and keep the first MAX_AUTO_PAIRS names. */
  function Top(scored: seq<Candidate>): seq<Pair>
  {
    var ranked := SortByScore(scored);
    Names(ranked[..if |ranked| < MAX_AUTO_PAIRS then |ranked| else MAX_AUTO_PAIRS])
  }

  /** The names auto_select_pairs keeps from the accepted pairs of `pairs`. */
  function Rank(pairs: seq<Pair>, v: Verdicts): seq<Pair>
    requires Covers(v, pairs)
  {
    Top(Scored(pairs, v))
  }

  /** The pairs auto_select_pairs stores in AUTO_SELECTED_PAIRS. */
  function SelectPairs(m: map<Pair, seq<Candle>>): seq<Pair>
    requires ValidMarket(m)
  {
    Rank(ALL_PAIRS, VerdictsOf(m))
  }

  /** The distance to the target volatility of an accepted verdict. */
  function VerdictScore(r: Result<real, Reject>): real
    requires r.Ok?
  {
    Abs(r.value - ATR_PCT_TARGET)
  }

  /** The ranked candidates are the accepted pairs, without repeats. */
  lemma RankedMembers(pairs: seq<Pair>, v: Verdicts)
    requires Covers(v, pairs)
    ensures forall c :: c in SortByScore(Scored(pairs, v)) ==> c.pair in pairs && c.pair in v && v[c.pair] == Ok(c.atrPct)
    ensures forall p :: p in pairs && p in v && v[p].Ok? ==> Candidate(p, v[p].value) in SortByScore(Scored(pairs, v))
    ensures Distinct(pairs) ==> Distinct(SortByScore(Scored(pairs, v)))
  {
    var scored := Scored(pairs, v);
    ScoredSpec(pairs, v);
    SortSpec(scored);
    forall c | c in SortByScore(scored)
      ensures c.pair in pairs && c.pair in v && v[c.pair] == Ok(c.atrPct)
    {
      assert c in multiset(SortByScore(scored));
    }
    forall p | p in pairs && p in v && v[p].Ok?
      ensures Candidate(p, v[p].value) in SortByScore(scored)
    {
      assert Candidate(p, v[p].value) in multiset(scored);
    }
    if Distinct(pairs) {
      SortDistinct(scored);
    }
  }

  /** The ranked candidates' names and scores, position by position. */
  lemma RankIsPrefix(pairs: seq<Pair>, v: Verdicts)
    requires Covers(v, pairs)
    ensures var ranked := SortByScore(Scored(pairs, v));
      && |Rank(pairs, v)| == (if |ranked| < MAX_AUTO_PAIRS then |ranked| else MAX_AUTO_PAIRS)
      && forall i :: 0 <= i < |Rank(pairs, v)| ==>
        && Rank(pairs, v)[i] == ranked[i].pair
        && Rank(pairs, v)[i] in pairs && Rank(pairs, v)[i] in v && v[Rank(pairs, v)[i]].Ok?
        && VerdictScore(v[Rank(pairs, v)[i]]) == Score(ranked[i])
  {
    var ranked := SortByScore(Scored(pairs, v));
    RankedMembers(pairs, v);
    forall i | 0 <= i < |Rank(pairs, v)| ensures ranked[i] in ranked {
    }
  }

  lemma RankDistinct(pairs: seq<Pair>, v: Verdicts)
    requires Covers(v, pairs) && Distinct(pairs)
    ensures Distinct(Rank(pairs, v))
  {
    var ranked := SortByScore(Scored(pairs, v));
    var r := Rank(pairs, v);
    RankIsPrefix(pairs, v);
    RankedMembers(pairs, v);
    forall i, j | 0 <= i < j < |r| ensures r[i] != r[j] {
      assert ranked[i] in ranked && ranked[j] in ranked;
      assert ranked[i] != ranked[j];
    }
  }

  lemma RankOrdered(pairs: seq<Pair>, v: Verdicts)
    requires Covers(v, pairs)
    ensures forall i :: 0 <= i < |Rank(pairs, v)| ==> Rank(pairs, v)[i] in v && v[Rank(pairs, v)[i]].Ok?
    ensures forall i, j :: 0 <= i < j < |Rank(pairs, v)| ==>
      VerdictScore(v[Rank(pairs, v)[i]]) <= VerdictScore(v[Rank(pairs, v)[j]])
  {
    RankIsPrefix(pairs, v);
    SortSpec(Scored(pairs, v));
  }

  lemma RankBest(pairs: seq<Pair>, v: Verdicts)
    requires Covers(v, pairs)
    ensures forall i :: 0 <= i < |Rank(pairs, v)| ==> Rank(pairs, v)[i] in v && v[Rank(pairs, v)[i]].Ok?
    ensures forall p :: p in pairs && p in v && v[p].Ok? && p !in Rank(pairs, v) ==>
      |Rank(pairs, v)| == MAX_AUTO_PAIRS &&
      forall i :: 0 <= i < MAX_AUTO_PAIRS ==> VerdictScore(v[Rank(pairs, v)[i]]) <= VerdictScore(v[p])
  {
    var ranked := SortByScore(Scored(pairs, v));
    var r := Rank(pairs, v);
    RankIsPrefix(pairs, v);
    RankedMembers(pairs, v);
    SortSpec(Scored(pairs, v));
    forall p | p in pairs && p in v && v[p].Ok? && p !in r
      ensures |r| == MAX_AUTO_PAIRS
      ensures forall i :: 0 <= i < MAX_AUTO_PAIRS ==> VerdictScore(v[r[i]]) <= VerdictScore(v[p])
    {
      var c := Candidate(p, v[p].value);
      var k :| 0 <= k < |ranked| && ranked[k] == c;
      assert forall i :: 0 <= i < |r| ==> ranked[i] != c;
      assert k >= |r|;
      assert VerdictScore(v[p]) == Score(ranked[k]);
    }
  }

  /**
   * Ranking keeps at most MAX_AUTO_PAIRS distinct accepted pairs, ordered by
   * distance to the target; an accepted pair is left out only when the list
   * is full of pairs at least as close to the target.
   */
  lemma RankSpec(pairs: seq<Pair>, v: Verdicts)
    requires Covers(v, pairs) && Distinct(pairs)
    ensures |Rank(pairs, v)| <= MAX_AUTO_PAIRS
    ensures Distinct(Rank(pairs, v))
    ensures forall i :: 0 <= i < |Rank(pairs, v)| ==>
      Rank(pairs, v)[i] in pairs && Rank(pairs, v)[i] in v && v[Rank(pairs, v)[i]].Ok?
    ensures forall i, j :: 0 <= i < j < |Rank(pairs, v)| ==>
      VerdictScore(v[Rank(pairs, v)[i]]) <= VerdictScore(v[Rank(pairs, v)[j]])
    ensures forall p :: p in pairs && p in v && v[p].Ok? && p !in Rank(pairs, v) ==>
      |Rank(pairs, v)| == MAX_AUTO_PAIRS &&
      forall i :: 0 <= i < MAX_AUTO_PAIRS ==> VerdictScore(v[Rank(pairs, v)[i]]) <= VerdictScore(v[p])
  {
    RankIsPrefix(pairs, v);
    RankDistinct(pairs, v);
    RankOrdered(pairs, v);
    RankBest(pairs, v);
  }

  /**
   * What auto_select_pairs promises: at most MAX_AUTO_PAIRS distinct pairs of
   * ALL_PAIRS, each accepted by every filter, ordered by distance to the
   * target volatility, and no accepted pair left out while a place is free or
   * a farther pair holds one.
   */
  lemma SelectPairsSpec(m: map<Pair, seq<Candle>>)
    requires ValidMarket(m)
    ensures |SelectPairs(m)| <= MAX_AUTO_PAIRS
    ensures Distinct(SelectPairs(m))
    ensures forall i :: 0 <= i < |SelectPairs(m)| ==>
      SelectPairs(m)[i] in ALL_PAIRS && Classify(KlinesOf(m, SelectPairs(m)[i])).Ok?
    ensures forall i, j :: 0 <= i < j < |SelectPairs(m)| ==>
      VerdictScore(Classify(KlinesOf(m, SelectPairs(m)[i]))) <= VerdictScore(Classify(KlinesOf(m, SelectPairs(m)[j])))
    ensures forall p :: p in ALL_PAIRS && Classify(KlinesOf(m, p)).Ok? && p !in SelectPairs(m) ==>
      |SelectPairs(m)| == MAX_AUTO_PAIRS &&
      forall i :: 0 <= i < MAX_AUTO_PAIRS ==>
        VerdictScore(Classify(KlinesOf(m, SelectPairs(m)[i]))) <= VerdictScore(Classify(KlinesOf(m, p)))
  {
    AllPairsDistinct();
    RankSpec(ALL_PAIRS, VerdictsOf(m));
  }

  // ------------------------------------------------------- analyze_pair

  datatype Side = Long | Short | Flat

  /** The trend side analyze_pair reports (computed, never used to build). */
  function SideOf(price: real, e7: real, e25: real): (s: Side)
    ensures s == Long ==> price > e25
    ensures s == Short ==> price < e25
    ensures s == Flat <==> !(price > e7 > e25) && !(price < e7 < e25)
  {
    if price > e7 > e25 then Long
    else if price < e7 < e25 then Short
    else Flat
  }

  datatype Analysis = Analysis(price: real, side: Side, atr: Option<real>)

  /**
   * analyze_pair: nothing for fewer than MIN_CANDLES candles; otherwise the
   * last close, the trend side from EMA(7) and EMA(25), and the window's own
   * ATR, which with so many candles always exists and is non-negative.
   */
  function AnalyzePair(kl: seq<Candle>): (r: Option<Analysis>)
    ensures r.None? <==> |kl| < MIN_CANDLES
    ensures r.Some? ==> r.value.price == LastClose(kl) && r.value.atr.Some? && r.value.atr.value >= 0.0
    ensures r.Some? ==> r.value.atr == CandleAtr(kl) && r.value.side == Trend(kl)
  {
    if |kl| < MIN_CANDLES then None
    else
      var price := LastClose(kl);
      AtrSpec(Highs(kl), Lows(kl), Closes(kl));
      Some(Analysis(price, Trend(kl), CandleAtr(kl)))
  }

  /** The side from the last close against EMA(7) and EMA(25) of the closes. */
  function Trend(kl: seq<Candle>): Side
    requires |kl| > 0
  {
    var c := Closes(kl);
    SideOf(c[|c| - 1], Ema(c, 7), Ema(c, 25))
  }
}
