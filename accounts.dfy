/**
 * The realised-profit bookkeeping both grid engines keep in globals:
 * TOTAL_PNL, DEALS and PAIR_STATS. A pair's entry is created on its first
 * closed round trip (dict.setdefault) and then accumulates.
 */
module Accounts {
  import opened Market

  datatype PairStat = PairStat(pnl: real, deals: nat)

  /** The statistics of `pair`, or the setdefault zero entry when it has none. */
  function StatOf(stats: map<Pair, PairStat>, pair: Pair): PairStat
  {
    if pair in stats then stats[pair] else PairStat(0.0, 0)
  }

  /** Adds `n` round trips worth `pnl` in total to a pair's statistics. */
  function Credited(s: PairStat, pnl: real, n: nat): PairStat
  {
    PairStat(s.pnl + pnl, s.deals + n)
  }

  /** Sum of the deal counts of the pairs in `u`. */
  function SumDeals(u: seq<Pair>, stats: map<Pair, PairStat>): nat
  {
    if u == [] then 0 else StatOf(stats, u[0]).deals + SumDeals(u[1..], stats)
  }

  /** Sum of the realised profit of the pairs in `u`. */
  function SumPnl(u: seq<Pair>, stats: map<Pair, PairStat>): real
  {
    if u == [] then 0.0 else StatOf(stats, u[0]).pnl + SumPnl(u[1..], stats)
  }

  lemma {:induction false} SumsIgnoreOthers(u: seq<Pair>, stats: map<Pair, PairStat>, pair: Pair, s: PairStat)
    requires pair !in u
    ensures SumDeals(u, stats[pair := s]) == SumDeals(u, stats)
    ensures SumPnl(u, stats[pair := s]) == SumPnl(u, stats)
  {
    if u != [] {
      SumsIgnoreOthers(u[1..], stats, pair, s);
    }
  }

  /** Changing one pair's statistics changes the totals by exactly the difference. */
  lemma {:induction false} SumsAfterUpdate(u: seq<Pair>, stats: map<Pair, PairStat>, pair: Pair, s: PairStat)
    requires Distinct(u) && pair in u
    ensures SumDeals(u, stats[pair := s]) == SumDeals(u, stats) - StatOf(stats, pair).deals + s.deals
    ensures SumPnl(u, stats[pair := s]) == SumPnl(u, stats) - StatOf(stats, pair).pnl + s.pnl
  {
    if u[0] == pair {
      assert pair !in u[1..] by {
        forall i | 0 <= i < |u[1..]| ensures u[1..][i] != pair {
          assert u[1..][i] == u[i + 1];
        }
      }
      SumsIgnoreOthers(u[1..], stats, pair, s);
    } else {
      SumsAfterUpdate(u[1..], stats, pair, s);
    }
  }

  lemma {:induction false} SumsOfEmpty(u: seq<Pair>)
    ensures SumDeals(u, map[]) == 0 && SumPnl(u, map[]) == 0.0
  {
    if u != [] {
      SumsOfEmpty(u[1..]);
    }
  }

  /**
   * The accountant. `universe` lists, without repeats, every pair that can
   * ever be credited; Valid() says the aggregate counters equal the sums of
   * the per-pair ones.
   */
  class Ledger {
    const universe: seq<Pair>
    var totalPnl: real
    var deals: nat
    var pairStats: map<Pair, PairStat>

    ghost predicate Valid()
      reads this
    {
      && Distinct(universe)
      && (forall p :: p in pairStats ==> p in universe)
      && deals == SumDeals(universe, pairStats)
      && totalPnl == SumPnl(universe, pairStats)
    }

    constructor (universe: seq<Pair>)
      requires Distinct(universe)
      ensures Valid() && this.universe == universe
      ensures totalPnl == 0.0 && deals == 0 && pairStats == map[]
    {
      this.universe := universe;
      totalPnl := 0.0;
      deals := 0;
      pairStats := map[];
      new;
      SumsOfEmpty(universe);
    }

    /**
     * One closed round trip on `pair` worth `pnl`: TOTAL_PNL += pnl,
     * DEALS += 1, and the same on the pair's entry, created if missing.
     */
    method Record(pair: Pair, pnl: real)
      requires Valid() && pair in universe
      modifies this
      ensures Valid()
      ensures totalPnl == old(totalPnl) + pnl && deals == old(deals) + 1
      ensures pairStats == old(pairStats)[pair := Credited(StatOf(old(pairStats), pair), pnl, 1)]
    {
      var s := StatOf(pairStats, pair);
      SumsAfterUpdate(universe, pairStats, pair, Credited(s, pnl, 1));
      totalPnl := totalPnl + pnl;
      deals := deals + 1;
      pairStats := pairStats[pair := Credited(s, pnl, 1)];
    }
  }
}
