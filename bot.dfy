/**
 * One iteration of bot.py's grid_engine, a second, single-file variant of
 * the engine: for each configured pair in turn, build a grid when it has
 * none, then retire it if the price left its range, or step its orders and
 * book every close at its gross profit (no fees).
 */
module GridBot {
  import opened Wrappers
  import opened Market
  import opened Indicators
  import opened Pnl
  import opened GridBuilder
  import opened Accounts
  import opened GridUpdate
  import opened PairSelector

  /** The pairs bot.py trades (its ACTIVE_PAIRS). */
  const ACTIVE_PAIRS: seq<Pair> := ["SOLUSDT", "BNBUSDT"]
  /** Declared by bot.py but never read by its engine. */
  const MAX_GRIDS: nat := 2

  lemma ActivePairsDistinct()
    ensures Distinct(ACTIVE_PAIRS)
  {
  }

  /**
   * The grid bot.py builds for a pair that has none: only with at least
   * MIN_CANDLES candles and a truthy ATR: build_grid of the last close and
   * the window's ATR. Such a grid has a positive ATR, so every order spans a
   * positive step.
   */
  function FreshGrid(kl: seq<Candle>): (r: Option<Grid>)
    requires PositiveCloses(kl)
    ensures r.Some? <==> |kl| >= MIN_CANDLES && CandleAtr(kl) != Some(0.0)
    ensures r.Some? ==> r.value.atr > 0.0 && PositiveSpread(r.value) && NotionalFloor(r.value)
    ensures r.Some? ==>
      r.value.low == LastClose(kl) - RANGE_ATR_MULTIPLE * r.value.atr &&
      r.value.high == LastClose(kl) + RANGE_ATR_MULTIPLE * r.value.atr
    ensures r.Some? ==> CandleAtr(kl).Some? && r.value == BuildGrid(LastClose(kl), CandleAtr(kl).value)
  {
    AtrSpec(Highs(kl), Lows(kl), Closes(kl));
    if |kl| < MIN_CANDLES then None
    else
      var a := CandleAtr(kl);
      if !Truthy(a) then None
      else
        BuiltGridInvariants(LastClose(kl), a.value);
        BuildGridSpec(LastClose(kl), a.value);
        Some(BuildGrid(LastClose(kl), a.value))
  }

  /** The grid a pair holds once its turn has come: its own, or a fresh one. */
  function Held(grids: map<Pair, Grid>, pair: Pair, kl: seq<Candle>): Option<Grid>
    requires PositiveCloses(kl)
  {
    if pair in grids then Some(grids[pair]) else FreshGrid(kl)
  }

  /** A price is needed exactly when the pair holds a grid at its turn. */
  predicate Priced(grids: map<Pair, Grid>, pair: Pair, kl: seq<Candle>, prices: map<Pair, real>)
    requires PositiveCloses(kl)
  {
    Held(grids, pair, kl).Some? ==> pair in prices
  }

  /** The grids after `pair`'s turn: dropped out of range, stepped otherwise. */
  function Visited(grids: map<Pair, Grid>, pair: Pair, kl: seq<Candle>, prices: map<Pair, real>): map<Pair, Grid>
    requires PositiveCloses(kl) && Priced(grids, pair, kl, prices)
  {
    match Held(grids, pair, kl)
    case None => grids
    case Some(g) =>
      if !InBounds(g, prices[pair]) then grids - {pair}
      else grids[pair := g.(orders := StepAll(g.orders, prices[pair]))]
  }

  /** The gross profit booked on `pair`'s turn. */
  function VisitPnl(grids: map<Pair, Grid>, pair: Pair, kl: seq<Candle>, prices: map<Pair, real>): real
    requires PositiveCloses(kl) && Priced(grids, pair, kl, prices)
  {
    match Held(grids, pair, kl)
    case None => 0.0
    case Some(g) => if !InBounds(g, prices[pair]) then 0.0 else RealisedPnl(g.orders, prices[pair], Gross)
  }

  /** The round trips completed on `pair`'s turn. */
  function VisitCloses(grids: map<Pair, Grid>, pair: Pair, kl: seq<Candle>, prices: map<Pair, real>): nat
    requires PositiveCloses(kl) && Priced(grids, pair, kl, prices)
  {
    match Held(grids, pair, kl)
    case None => 0
    case Some(g) => if !InBounds(g, prices[pair]) then 0 else CloseCount(g.orders, prices[pair])
  }

  /** The grid `pair` is left with after its turn, if any. */
  function Outcome(grids: map<Pair, Grid>, pair: Pair, kl: seq<Candle>, prices: map<Pair, real>): Option<Grid>
    requires PositiveCloses(kl) && Priced(grids, pair, kl, prices)
  {
    var after := Visited(grids, pair, kl, prices);
    if pair in after then Some(after[pair]) else None
  }

  /**
   * A pair ends its turn holding a grid exactly when it held or could build
   * one and the price lies inside that grid's range; the grid it keeps has
   * the same bounds, with every order stepped at the price.
   */
  lemma OutcomeSpec(grids: map<Pair, Grid>, pair: Pair, kl: seq<Candle>, prices: map<Pair, real>)
    requires PositiveCloses(kl) && Priced(grids, pair, kl, prices)
    ensures Outcome(grids, pair, kl, prices).Some? <==>
      Held(grids, pair, kl).Some? && InBounds(Held(grids, pair, kl).value, prices[pair])
    ensures Outcome(grids, pair, kl, prices).Some? ==>
      var g := Held(grids, pair, kl).value;
      var r := Outcome(grids, pair, kl, prices).value;
      r == g.(orders := StepAll(g.orders, prices[pair])) && r.low == g.low && r.high == g.high
  {
  }

  /**
   * A pair's turn leaves the pair with its outcome and every other pair's
   * grid as it was, and books a profit that is never negative, because
   * every grid spans a positive step.
   */
  lemma VisitSpec(grids: map<Pair, Grid>, pair: Pair, kl: seq<Candle>, prices: map<Pair, real>)
    requires PositiveCloses(kl) && Priced(grids, pair, kl, prices)
    requires forall p :: p in grids ==> PositiveSpread(grids[p])
    ensures pair in Visited(grids, pair, kl, prices) <==> Outcome(grids, pair, kl, prices).Some?
    ensures pair in Visited(grids, pair, kl, prices) ==>
      Visited(grids, pair, kl, prices)[pair] == Outcome(grids, pair, kl, prices).value
    ensures forall q :: q != pair ==> Agrees(Visited(grids, pair, kl, prices), grids, q)
    ensures VisitPnl(grids, pair, kl, prices) >= 0.0
    ensures VisitCloses(grids, pair, kl, prices) == 0 ==> VisitPnl(grids, pair, kl, prices) == 0.0
  {
    match Held(grids, pair, kl)
    case None =>
    case Some(g) =>
      GrossPnlNonNegative(g.orders, prices[pair]);
      CloseCountBound(g.orders, prices[pair]);
  }

  /** What one pair's turn does: the grid it is left with, and the profit and round trips it books. */
  datatype Turn = Turn(grid: Option<Grid>, pnl: real, closes: nat)

  function TurnOf(grids: map<Pair, Grid>, pair: Pair, kl: seq<Candle>, prices: map<Pair, real>): Turn
    requires PositiveCloses(kl) && Priced(grids, pair, kl, prices)
  {
    Turn(Outcome(grids, pair, kl, prices), VisitPnl(grids, pair, kl, prices), VisitCloses(grids, pair, kl, prices))
  }

  /** Every pair's turn, each taken on the grids the pass starts from. */
  function Turns(grids0: map<Pair, Grid>, m: map<Pair, seq<Candle>>, prices: map<Pair, real>): (t: map<Pair, Turn>)
    requires ValidMarket(m)
    requires forall p :: p in ACTIVE_PAIRS ==> Priced(grids0, p, KlinesOf(m, p), prices)
    ensures forall p :: p in t <==> p in ACTIVE_PAIRS
  {
    map p | p in ACTIVE_PAIRS :: TurnOf(grids0, p, KlinesOf(m, p), prices)
  }

  /** The profit booked by the turns of `pairs`. */
  function TurnsPnl(t: map<Pair, Turn>, pairs: seq<Pair>): real
    requires forall j :: 0 <= j < |pairs| ==> pairs[j] in t
  {
    if pairs == [] then 0.0 else TurnsPnl(t, pairs[..|pairs| - 1]) + t[pairs[|pairs| - 1]].pnl
  }

  /** The round trips completed by the turns of `pairs`. */
  function TurnsCloses(t: map<Pair, Turn>, pairs: seq<Pair>): nat
    requires forall j :: 0 <= j < |pairs| ==> pairs[j] in t
  {
    if pairs == [] then 0 else TurnsCloses(t, pairs[..|pairs| - 1]) + t[pairs[|pairs| - 1]].closes
  }

  /** Taking one more turn into the totals adds that turn's profit and round trips. */
  lemma TotalsStep(t: map<Pair, Turn>, pairs: seq<Pair>, i: nat)
    requires i < |pairs| && forall j :: 0 <= j < |pairs| ==> pairs[j] in t
    ensures TurnsPnl(t, pairs[..i + 1]) == TurnsPnl(t, pairs[..i]) + t[pairs[i]].pnl
    ensures TurnsCloses(t, pairs[..i + 1]) == TurnsCloses(t, pairs[..i]) + t[pairs[i]].closes
  {
    assert pairs[..i + 1][..i] == pairs[..i];
  }

  /** With every grid spanning positive steps, a whole pass of bot.py never books a loss. */
  lemma PassGains(grids0: map<Pair, Grid>, m: map<Pair, seq<Candle>>, prices: map<Pair, real>)
    requires ValidMarket(m) && forall p :: p in grids0 ==> PositiveSpread(grids0[p])
    requires forall p :: p in ACTIVE_PAIRS ==> Priced(grids0, p, KlinesOf(m, p), prices)
    ensures TurnsPnl(Turns(grids0, m, prices), ACTIVE_PAIRS) >= 0.0
  {
    var t := Turns(grids0, m, prices);
    forall j | 0 <= j < |ACTIVE_PAIRS|
      ensures t[ACTIVE_PAIRS[j]].pnl >= 0.0
    {
      var p := ACTIVE_PAIRS[j];
      VisitSpec(grids0, p, KlinesOf(m, p), prices);
    }
    TurnsPnlNonNegative(t, ACTIVE_PAIRS);
  }

  /** When every turn books a non-negative profit, so do the turns together. */
  lemma {:induction false} TurnsPnlNonNegative(t: map<Pair, Turn>, pairs: seq<Pair>)
    requires forall j :: 0 <= j < |pairs| ==> pairs[j] in t && t[pairs[j]].pnl >= 0.0
    ensures TurnsPnl(t, pairs) >= 0.0
  {
    if pairs != [] {
      TurnsPnlNonNegative(t, pairs[..|pairs| - 1]);
    }
  }

  class Bot {
    var activeGrids: map<Pair, Grid>
    const ledger: Ledger

    /**
     * Grids only for the bot's pairs, each with positive steps and orders
     * above the notional floor; totals equal the per-pair sums, and no pair
     * has lost money.
     */
    ghost predicate Valid()
      reads this, ledger
    {
      && ledger.Valid()
      && (forall p :: p in activeGrids ==>
           p in ledger.universe && PositiveSpread(activeGrids[p]) && NotionalFloor(activeGrids[p]))
      && (forall p :: p in ledger.pairStats ==> ledger.pairStats[p].pnl >= 0.0)
    }

    constructor ()
      ensures Valid() && fresh(ledger) && ledger.universe == ACTIVE_PAIRS
      ensures activeGrids == map[]
      ensures ledger.totalPnl == 0.0 && ledger.deals == 0 && ledger.pairStats == map[]
    {
      ActivePairsDistinct();
      ledger := new Ledger(ACTIVE_PAIRS);
      activeGrids := map[];
    }

    /** One pair's turn of the loop; `kl` is the 120-candle window, `prices` the latest closes. */
    method Visit(pair: Pair, kl: seq<Candle>, prices: map<Pair, real>)
      requires Valid() && pair in ledger.universe
      requires PositiveCloses(kl) && Priced(activeGrids, pair, kl, prices)
      modifies this, ledger
      ensures Valid()
      ensures activeGrids == Visited(old(activeGrids), pair, kl, prices)
      ensures ledger.totalPnl == old(ledger.totalPnl) + VisitPnl(old(activeGrids), pair, kl, prices)
      ensures ledger.deals == old(ledger.deals) + VisitCloses(old(activeGrids), pair, kl, prices)
      ensures VisitCloses(old(activeGrids), pair, kl, prices) == 0 ==> ledger.pairStats == old(ledger.pairStats)
      ensures VisitCloses(old(activeGrids), pair, kl, prices) > 0 ==>
        ledger.pairStats == old(ledger.pairStats)[pair :=
          Credited(StatOf(old(ledger.pairStats), pair),
            VisitPnl(old(activeGrids), pair, kl, prices), VisitCloses(old(activeGrids), pair, kl, prices))]
    {
      var held := Held(activeGrids, pair, kl);
      if held.None? {
        return;
      }
      var grid := held.value;
      var price := prices[pair];
      if !(grid.low <= price <= grid.high) {
        activeGrids := activeGrids - {pair};
        return;
      }
      StepGrid(pair, grid, price);
    }

    /** Step every order of `pair`'s grid at `price`, booking each close at its gross profit. */
    method StepGrid(pair: Pair, grid: Grid, price: real)
      requires Valid() && pair in ledger.universe
      requires PositiveSpread(grid) && NotionalFloor(grid)
      modifies this, ledger
      ensures Valid()
      ensures activeGrids == old(activeGrids)[pair := grid.(orders := StepAll(grid.orders, price))]
      ensures ledger.totalPnl == old(ledger.totalPnl) + RealisedPnl(grid.orders, price, Gross)
      ensures ledger.deals == old(ledger.deals) + CloseCount(grid.orders, price)
      ensures CloseCount(grid.orders, price) == 0 ==> ledger.pairStats == old(ledger.pairStats)
      ensures CloseCount(grid.orders, price) > 0 ==>
        ledger.pairStats == old(ledger.pairStats)[pair :=
          Credited(StatOf(old(ledger.pairStats), pair), RealisedPnl(grid.orders, price, Gross), CloseCount(grid.orders, price))]
    {
      GrossPnlNonNegative(grid.orders, price);
      var stepped := StepOrders(ledger, pair, grid.orders, price, Gross);
      StepKeepsLevels(grid, price);
      activeGrids := activeGrids[pair := grid.(orders := stepped)];
    }

    /**
     * The turn of ACTIVE_PAIRS[i] within a pass that started from `grids0`
     * and `stats0` with totals `pnl0` and `deals0`: it settles that pair and
     * adds its turn to the totals.
     */
    method TakeTurn(m: map<Pair, seq<Candle>>, prices: map<Pair, real>, i: nat,
                    ghost grids0: map<Pair, Grid>, ghost stats0: map<Pair, PairStat>, ghost t: map<Pair, Turn>,
                    ghost pnl0: real, ghost deals0: nat)
      requires Valid() && ledger.universe == ACTIVE_PAIRS && ValidMarket(m) && i < |ACTIVE_PAIRS|
      requires forall p :: p in ACTIVE_PAIRS ==> Priced(grids0, p, KlinesOf(m, p), prices)
      requires t == Turns(grids0, m, prices)
      requires TurnsDone(grids0, stats0, t, ACTIVE_PAIRS, i, activeGrids, ledger.pairStats)
      requires ledger.totalPnl == pnl0 + TurnsPnl(t, ACTIVE_PAIRS[..i])
      requires ledger.deals == deals0 + TurnsCloses(t, ACTIVE_PAIRS[..i])
      modifies this, ledger
      ensures Valid()
      ensures TurnsDone(grids0, stats0, t, ACTIVE_PAIRS, i + 1, activeGrids, ledger.pairStats)
      ensures ledger.totalPnl == pnl0 + TurnsPnl(t, ACTIVE_PAIRS[..i + 1])
      ensures ledger.deals == deals0 + TurnsCloses(t, ACTIVE_PAIRS[..i + 1])
    {
      ActivePairsDistinct();
      var pair := ACTIVE_PAIRS[i];
      var kl := KlinesOf(m, pair);
      ghost var before, bstats := activeGrids, ledger.pairStats;
      OwnGridOnly(activeGrids, grids0, pair, kl, prices);
      VisitSpec(activeGrids, pair, kl, prices);
      assert t[pair] == TurnOf(before, pair, kl, prices);
      TotalsStep(t, ACTIVE_PAIRS, i);
      Visit(pair, kl, prices);
      CreditedTurn(bstats, ledger.pairStats, pair, t[pair].pnl, t[pair].closes);
      TurnStep(grids0, stats0, t, ACTIVE_PAIRS, i, before, bstats, activeGrids, ledger.pairStats);
    }

    /**
     * One pass over ACTIVE_PAIRS. `m` holds each pair's candle window and
     * `prices` the latest close of each pair that holds a grid at its turn
     * (bot.py reads the last of two fetched candles and assumes it exists).
     * Every pair ends with the grid its turn leaves it, its statistics are
     * credited with exactly what its turn closed, and the totals grow by the
     * sum over all turns.
     */
    method Tick(m: map<Pair, seq<Candle>>, prices: map<Pair, real>)
      requires Valid() && ledger.universe == ACTIVE_PAIRS && ValidMarket(m)
      requires forall p :: p in ACTIVE_PAIRS ==> Priced(activeGrids, p, KlinesOf(m, p), prices)
      modifies this, ledger
      ensures Valid()
      ensures forall p :: p in activeGrids ==> p in ACTIVE_PAIRS
      ensures forall p :: p in ACTIVE_PAIRS ==> Priced(old(activeGrids), p, KlinesOf(m, p), prices)
      ensures var t := Turns(old(activeGrids), m, prices);
        forall p :: p in ACTIVE_PAIRS ==>
          && (p in activeGrids <==> t[p].grid.Some?)
          && (p in activeGrids ==> activeGrids[p] == t[p].grid.value)
      ensures var t := Turns(old(activeGrids), m, prices);
        forall p :: p in ACTIVE_PAIRS ==>
          && StatOf(ledger.pairStats, p) == Credited(StatOf(old(ledger.pairStats), p), t[p].pnl, t[p].closes)
          && (p in ledger.pairStats <==> p in old(ledger.pairStats) || t[p].closes > 0)
      ensures var t := Turns(old(activeGrids), m, prices);
        && ledger.totalPnl == old(ledger.totalPnl) + TurnsPnl(t, ACTIVE_PAIRS)
        && ledger.deals == old(ledger.deals) + TurnsCloses(t, ACTIVE_PAIRS)
    {
      ActivePairsDistinct();
      ghost var grids0, stats0 := activeGrids, ledger.pairStats;
      ghost var t := Turns(grids0, m, prices);
      for i := 0 to |ACTIVE_PAIRS|
        invariant Valid()
        invariant TurnsDone(grids0, stats0, t, ACTIVE_PAIRS, i, activeGrids, ledger.pairStats)
        invariant ledger.totalPnl == old(ledger.totalPnl) + TurnsPnl(t, ACTIVE_PAIRS[..i])
        invariant ledger.deals == old(ledger.deals) + TurnsCloses(t, ACTIVE_PAIRS[..i])
      {
        TakeTurn(m, prices, i, grids0, stats0, t, old(ledger.totalPnl), old(ledger.deals));
      }
      assert ACTIVE_PAIRS[..|ACTIVE_PAIRS|] == ACTIVE_PAIRS;
      PassDone(grids0, stats0, t, ACTIVE_PAIRS, activeGrids, ledger.pairStats);
    }
  }

  /** Two grid maps agree on `p`. */
  predicate Agrees(a: map<Pair, Grid>, b: map<Pair, Grid>, p: Pair)
  {
    (p in a <==> p in b) && (p in a ==> a[p] == b[p])
  }

  /** A pair's turn depends on the grids only through the pair's own entry. */
  lemma OwnGridOnly(a: map<Pair, Grid>, b: map<Pair, Grid>, pair: Pair, kl: seq<Candle>, prices: map<Pair, real>)
    requires PositiveCloses(kl) && Agrees(a, b, pair)
    ensures Held(a, pair, kl) == Held(b, pair, kl)
    ensures Priced(a, pair, kl, prices) == Priced(b, pair, kl, prices)
    ensures Priced(a, pair, kl, prices) ==> TurnOf(a, pair, kl, prices) == TurnOf(b, pair, kl, prices)
  {
  }

  /** `p` holds the grid of its turn and its statistics carry what the turn booked. */
  predicate Settled(grids: map<Pair, Grid>, stats: map<Pair, PairStat>, stats0: map<Pair, PairStat>, p: Pair, turn: Turn)
  {
    && (p in grids <==> turn.grid.Some?)
    && (p in grids ==> grids[p] == turn.grid.value)
    && StatOf(stats, p) == Credited(StatOf(stats0, p), turn.pnl, turn.closes)
    && (p in stats <==> p in stats0 || turn.closes > 0)
  }

  /** `p`'s statistics are as they were. */
  predicate Untouched(stats: map<Pair, PairStat>, stats0: map<Pair, PairStat>, p: Pair)
  {
    StatOf(stats, p) == StatOf(stats0, p) && (p in stats <==> p in stats0)
  }

  /**
   * The pass after the first i turns: each pair that has had its turn is
   * settled, the others hold their starting grids and statistics.
   */
  ghost predicate TurnsDone(grids0: map<Pair, Grid>, stats0: map<Pair, PairStat>, t: map<Pair, Turn>,
                            pairs: seq<Pair>, i: nat, grids: map<Pair, Grid>, stats: map<Pair, PairStat>)
  {
    && i <= |pairs|
    && (forall j :: 0 <= j < |pairs| ==> pairs[j] in t)
    && (forall j :: 0 <= j < i ==> Settled(grids, stats, stats0, pairs[j], t[pairs[j]]))
    && (forall j :: i <= j < |pairs| ==> Agrees(grids, grids0, pairs[j]) && Untouched(stats, stats0, pairs[j]))
    && (forall p :: p !in pairs ==> Agrees(grids, grids0, p) && Untouched(stats, stats0, p))
  }

  /**
   * Booking a turn's closes on `pair` (nothing when it closed nothing)
   * credits exactly the turn and leaves every other pair alone.
   */
  lemma CreditedTurn(before: map<Pair, PairStat>, after: map<Pair, PairStat>, pair: Pair, pnl: real, closes: nat)
    requires closes == 0 ==> after == before && pnl == 0.0
    requires closes > 0 ==> after == before[pair := Credited(StatOf(before, pair), pnl, closes)]
    ensures StatOf(after, pair) == Credited(StatOf(before, pair), pnl, closes)
    ensures pair in after <==> pair in before || closes > 0
    ensures forall q :: q != pair ==> Untouched(after, before, q)
  {
  }

  /** A turn that settles pair i and touches no other pair keeps TurnsDone. */
  lemma TurnStep(grids0: map<Pair, Grid>, stats0: map<Pair, PairStat>, t: map<Pair, Turn>, pairs: seq<Pair>, i: nat,
                 before: map<Pair, Grid>, bstats: map<Pair, PairStat>, after: map<Pair, Grid>, astats: map<Pair, PairStat>)
    requires TurnsDone(grids0, stats0, t, pairs, i, before, bstats) && i < |pairs| && Distinct(pairs)
    requires Settled(after, astats, bstats, pairs[i], t[pairs[i]])
    requires forall q :: q != pairs[i] ==> Agrees(after, before, q) && Untouched(astats, bstats, q)
    ensures TurnsDone(grids0, stats0, t, pairs, i + 1, after, astats)
  {
    forall j | 0 <= j < |pairs| && j != i
      ensures Agrees(after, before, pairs[j]) && Untouched(astats, bstats, pairs[j])
    {
      assert pairs[j] != pairs[i];
    }
    assert Untouched(bstats, stats0, pairs[i]);
    forall j | i < j < |pairs|
      ensures Agrees(after, grids0, pairs[j]) && Untouched(astats, stats0, pairs[j])
    {
      assert Agrees(after, before, pairs[j]) && Agrees(before, grids0, pairs[j]);
      assert Untouched(astats, bstats, pairs[j]) && Untouched(bstats, stats0, pairs[j]);
    }
    forall p | p !in pairs
      ensures Agrees(after, grids0, p) && Untouched(astats, stats0, p)
    {
      assert p != pairs[i];
      assert Agrees(after, before, p) && Agrees(before, grids0, p);
      assert Untouched(astats, bstats, p) && Untouched(bstats, stats0, p);
    }
  }

  /** Once every turn is taken, every pair of the pass is settled. */
  lemma PassDone(grids0: map<Pair, Grid>, stats0: map<Pair, PairStat>, t: map<Pair, Turn>, pairs: seq<Pair>,
                 grids: map<Pair, Grid>, stats: map<Pair, PairStat>)
    requires TurnsDone(grids0, stats0, t, pairs, |pairs|, grids, stats)
    ensures forall p :: p in pairs ==> p in t && Settled(grids, stats, stats0, p, t[p])
  {
    forall p | p in pairs
      ensures p in t && Settled(grids, stats, stats0, p, t[p])
    {
      var j :| 0 <= j < |pairs| && pairs[j] == p;
    }
  }
}
