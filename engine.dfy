/**
 * One iteration of engine.py's grid_engine: re-select pairs, update every
 * active grid (retire it, or step its orders and book the closes), then open
 * grids for selected pairs without one until MAX_GRIDS are active. The
 * module-level globals become the fields of an Engine object; the ledger
 * holds TOTAL_PNL, DEALS and PAIR_STATS.
 */
module GridEngine {
  import opened Wrappers
  import opened Market
  import opened Pnl
  import opened GridBuilder
  import opened Accounts
  import opened GridUpdate
  import opened PairSelector

  const AUTO_MODE: bool := true
  /** The manually configured pairs (ACTIVE_PAIRS in engine.py). */
  const MANUAL_PAIRS: seq<Pair> := ["DOGEUSDT", "TONUSDT"]
  const MAX_GRIDS: nat := 2

  lemma ManualPairsKnown()
    ensures forall p :: p in MANUAL_PAIRS ==> p in ALL_PAIRS
  {
  }

  /**
   * Scanning pair i adds it to the scored list when accepted, and otherwise
   * records its reason on top of whatever was recorded before the scan.
   */
  lemma ScanStep(prior: map<Pair, Reject>, pairs: seq<Pair>, v: Verdicts, i: nat)
    requires i < |pairs| && Covers(v, pairs)
    ensures Covers(v, pairs[..i]) && Covers(v, pairs[..i + 1])
    ensures v[pairs[i]].Ok? ==>
      && Scored(pairs[..i + 1], v) == Scored(pairs[..i], v) + [Candidate(pairs[i], v[pairs[i]].value)]
      && prior + Rejections(pairs[..i + 1], v) == prior + Rejections(pairs[..i], v)
    ensures v[pairs[i]].Err? ==>
      && Scored(pairs[..i + 1], v) == Scored(pairs[..i], v)
      && prior + Rejections(pairs[..i + 1], v) == (prior + Rejections(pairs[..i], v))[pairs[i] := v[pairs[i]].error]
  {
    assert pairs[..i + 1][..i] == pairs[..i];
  }

  /** The per-pair statistics after one grid of the update phase is booked. */
  function Booked(stats: map<Pair, PairStat>, pair: Pair, g: Grid, price: Option<real>, selected: bool)
    : map<Pair, PairStat>
  {
    if GridCloses(g, price, selected) == 0 then stats
    else stats[pair := Credited(StatOf(stats, pair), GridPnl(g, price, selected, NetOfFees), GridCloses(g, price, selected))]
  }

  /**
   * Booking a grid credits its own pair with the grid's profit and closes,
   * adds the pair to the table only when something closed, and leaves every
   * other pair alone.
   */
  lemma BookedSpec(stats: map<Pair, PairStat>, pair: Pair, g: Grid, price: Option<real>, selected: bool)
    ensures StatOf(Booked(stats, pair, g, price, selected), pair) ==
      Credited(StatOf(stats, pair), GridPnl(g, price, selected, NetOfFees), GridCloses(g, price, selected))
    ensures forall q :: q != pair ==> StatOf(Booked(stats, pair, g, price, selected), q) == StatOf(stats, q)
    ensures forall q :: q in Booked(stats, pair, g, price, selected) <==>
      q in stats || (q == pair && GridCloses(g, price, selected) > 0)
  {
    if price.Some? {
      CloseCountBound(g.orders, price.value);
    }
  }

  /**
   * The state of the update phase once the grids outside `pending` are done:
   * those were retired or advanced and booked, the pending ones untouched.
   */
  ghost predicate UpdatedSoFar(grids0: map<Pair, Grid>, stats0: map<Pair, PairStat>,
                               prices: map<Pair, real>, allPairs: seq<Pair>, pending: set<Pair>,
                               grids: map<Pair, Grid>, stats: map<Pair, PairStat>)
  {
    && (forall p :: p in grids <==>
         p in grids0 && (p in pending || !Retires(grids0[p], PriceOf(prices, p), p in allPairs)))
    && (forall p :: p in grids ==>
         grids[p] == if p in pending then grids0[p] else Advance(grids0[p], PriceOf(prices, p)))
    && (forall p :: (StatOf(stats, p) ==
         if p in grids0 && p !in pending then
           Credited(StatOf(stats0, p),
             GridPnl(grids0[p], PriceOf(prices, p), p in allPairs, NetOfFees),
             GridCloses(grids0[p], PriceOf(prices, p), p in allPairs))
         else StatOf(stats0, p)))
    && (forall p :: p in stats <==>
         p in stats0 || (p in grids0 && p !in pending && GridCloses(grids0[p], PriceOf(prices, p), p in allPairs) > 0))
  }

  /** Doing one pending grid keeps UpdatedSoFar. */
  lemma UpdatedStep(grids0: map<Pair, Grid>, stats0: map<Pair, PairStat>,
                    prices: map<Pair, real>, allPairs: seq<Pair>, pending: set<Pair>,
                    grids: map<Pair, Grid>, stats: map<Pair, PairStat>, pair: Pair)
    requires UpdatedSoFar(grids0, stats0, prices, allPairs, pending, grids, stats)
    requires pair in pending && pending <= grids0.Keys
    ensures pair in grids && grids[pair] == grids0[pair]
    ensures
      var price := PriceOf(prices, pair);
      var selected := pair in allPairs;
      UpdatedSoFar(grids0, stats0, prices, allPairs, pending - {pair},
        if Retires(grids[pair], price, selected) then grids - {pair}
        else grids[pair := Advance(grids[pair], price)],
        Booked(stats, pair, grids[pair], price, selected))
  {
    var price := PriceOf(prices, pair);
    var selected := pair in allPairs;
    BookedSpec(stats, pair, grids[pair], price, selected);
    assert StatOf(stats, pair) == StatOf(stats0, pair);
  }

  /** A pass's pairs, manual or auto-selected, are all candidate pairs. */
  lemma PassPairsKnown(selection: map<Pair, seq<Candle>>, autoSelected: seq<Pair>, allPairs: seq<Pair>)
    requires ValidMarket(selection) && forall p :: p in autoSelected ==> p in ALL_PAIRS
    requires forall p :: p in allPairs <==>
      p in MANUAL_PAIRS || p in (if AUTO_MODE then SelectPairs(selection) else autoSelected)
    ensures forall i :: 0 <= i < |allPairs| ==> allPairs[i] in ALL_PAIRS
  {
    ManualPairsKnown();
    SelectedKnown(selection);
  }

  /** The verdicts cover every candidate pair. */
  lemma VerdictsCover(m: map<Pair, seq<Candle>>)
    requires ValidMarket(m)
    ensures Covers(VerdictsOf(m), ALL_PAIRS)
  {
  }

  /** Every auto-selected pair is one of the candidates. */
  lemma SelectedKnown(m: map<Pair, seq<Candle>>)
    requires ValidMarket(m)
    ensures forall p :: p in SelectPairs(m) ==> p in ALL_PAIRS
  {
    SelectPairsSpec(m);
  }

  /**
   * The grid the open phase builds from an analysis window, if analyze_pair
   * gives one: build_grid of the window's last close and the window's ATR.
   */
  function NewGrid(kl: seq<Candle>): (r: Option<Grid>)
    requires PositiveCloses(kl)
    ensures r.None? <==> |kl| < MIN_CANDLES
    ensures r.Some? ==> NotionalFloor(r.value) && r.value.atr >= 0.0
    ensures r.Some? ==> r.value.low == LastClose(kl) - RANGE_ATR_MULTIPLE * r.value.atr
    ensures r.Some? ==> r.value.high == LastClose(kl) + RANGE_ATR_MULTIPLE * r.value.atr
    ensures r.Some? ==> CandleAtr(kl).Some? && r.value == BuildGrid(LastClose(kl), CandleAtr(kl).value)
  {
    match AnalyzePair(kl)
    case None => None
    case Some(a) =>
      BuiltGridInvariants(a.price, a.atr.value);
      BuildGridSpec(a.price, a.atr.value);
      Some(BuildGrid(a.price, a.atr.value))
  }

  /**
   * The open phase after the first i selected pairs, where `plan` holds the
   * grid each pair's window yields (None when it is short of candles): old
   * grids untouched, every new grid the planned one, and every pair seen
   * either holding a grid or without a plan.
   */
  ghost predicate OpenedSoFar(grids0: map<Pair, Grid>, allPairs: seq<Pair>, plan: map<Pair, Option<Grid>>,
                              i: nat, grids: map<Pair, Grid>)
  {
    && i <= |allPairs|
    && (forall j :: 0 <= j < |allPairs| ==> allPairs[j] in plan)
    && (forall p :: p in grids0 ==> p in grids && grids[p] == grids0[p])
    && (forall p :: p in grids && p !in grids0 ==> p in allPairs[..i] && p in plan && plan[p] == Some(grids[p]))
    && (forall j :: 0 <= j < i ==> allPairs[j] in grids || plan[allPairs[j]].None?)
  }

  /** Trying pair i keeps OpenedSoFar for the first i + 1 pairs. */
  lemma OpenedStep(grids0: map<Pair, Grid>, allPairs: seq<Pair>, plan: map<Pair, Option<Grid>>,
                   i: nat, grids: map<Pair, Grid>)
    requires OpenedSoFar(grids0, allPairs, plan, i, grids) && i < |allPairs|
    ensures allPairs[i] in grids ==> OpenedSoFar(grids0, allPairs, plan, i + 1, grids)
    ensures allPairs[i] !in grids && plan[allPairs[i]].None? ==>
      OpenedSoFar(grids0, allPairs, plan, i + 1, grids)
    ensures allPairs[i] !in grids && plan[allPairs[i]].Some? ==>
      OpenedSoFar(grids0, allPairs, plan, i + 1, grids[allPairs[i] := plan[allPairs[i]].value])
  {
    assert allPairs[..i + 1] == allPairs[..i] + [allPairs[i]];
  }

  /** The grid of `p` comes through the update phase: it was active and is not retired. */
  predicate Survives(grids: map<Pair, Grid>, prices: map<Pair, real>, allPairs: seq<Pair>, p: Pair)
  {
    p in grids && !Retires(grids[p], PriceOf(prices, p), p in allPairs)
  }

  /** At most MAX_GRIDS grids, only for known pairs, every order above the notional floor. */
  predicate GridsOk(grids: map<Pair, Grid>, universe: seq<Pair>)
  {
    && |grids| <= MAX_GRIDS
    && forall p :: p in grids ==> p in universe && NotionalFloor(grids[p])
  }

  /** Storing one more valid grid under the cap keeps GridsOk. */
  lemma GridsOkInsert(grids: map<Pair, Grid>, universe: seq<Pair>, pair: Pair, g: Grid)
    requires GridsOk(grids, universe) && pair !in grids && |grids| < MAX_GRIDS
    requires pair in universe && NotionalFloor(g)
    ensures GridsOk(grids[pair := g], universe) && |grids[pair := g]| == |grids| + 1
  {
  }

  class Engine {
    var autoSelected: seq<Pair>
    var activeGrids: map<Pair, Grid>
    var lastRejectReason: map<Pair, Reject>
    const ledger: Ledger

    /**
     * At most MAX_GRIDS grids, only for known pairs, every order above the
     * notional floor, and the ledger's totals equal to its per-pair sums.
     */
    ghost predicate Valid()
      reads this, ledger
    {
      && ledger.Valid()
      && (forall p :: p in autoSelected ==> p in ledger.universe)
      && GridsOk(activeGrids, ledger.universe)
    }

    constructor ()
      ensures Valid() && fresh(ledger) && ledger.universe == ALL_PAIRS
      ensures autoSelected == [] && activeGrids == map[] && lastRejectReason == map[]
      ensures ledger.totalPnl == 0.0 && ledger.deals == 0 && ledger.pairStats == map[]
    {
      AllPairsDistinct();
      ledger := new Ledger(ALL_PAIRS);
      autoSelected := [];
      activeGrids := map[];
      lastRejectReason := map[];
    }

    /**
     * auto_select_pairs: classify every pair of ALL_PAIRS, record a reason for
     * each rejected one, and keep the best MAX_AUTO_PAIRS accepted ones.
     */
    method AutoSelectPairs(m: map<Pair, seq<Candle>>)
      requires Valid() && ValidMarket(m) && ledger.universe == ALL_PAIRS
      modifies this
      ensures Valid()
      ensures autoSelected == SelectPairs(m)
      ensures lastRejectReason == old(lastRejectReason) + Rejections(ALL_PAIRS, VerdictsOf(m))
      ensures activeGrids == old(activeGrids)
    {
      VerdictsCover(m);
      var scored := Screen(m, ALL_PAIRS);
      autoSelected := Top(scored);
      SelectedKnown(m);
    }

    /**
     * The scan of auto_select_pairs: classify each pair in turn, record the
     * reason of every rejection and collect the accepted (pair, atr_pct).
     */
    method Screen(m: map<Pair, seq<Candle>>, pairs: seq<Pair>) returns (scored: seq<Candidate>)
      requires ValidMarket(m) && Covers(VerdictsOf(m), pairs)
      modifies this
      ensures scored == Scored(pairs, VerdictsOf(m))
      ensures lastRejectReason == old(lastRejectReason) + Rejections(pairs, VerdictsOf(m))
      ensures activeGrids == old(activeGrids) && autoSelected == old(autoSelected)
    {
      ghost var v := VerdictsOf(m);
      scored := [];
      for i := 0 to |pairs|
        invariant scored == Scored(pairs[..i], v)
        invariant lastRejectReason == old(lastRejectReason) + Rejections(pairs[..i], v)
        invariant activeGrids == old(activeGrids) && autoSelected == old(autoSelected)
      {
        var pair := pairs[i];
        var verdict := Classify(KlinesOf(m, pair));
        assert verdict == v[pair];
        ScanStep(old(lastRejectReason), pairs, v, i);
        if verdict.Err? {
          lastRejectReason := lastRejectReason[pair := verdict.error];
          continue;
        }
        scored := scored + [Candidate(pair, verdict.value)];
      }
      assert pairs[..|pairs|] == pairs;
    }

    /**
     * The update phase. For every grid (in any order): with no price it is
     * left alone; if the pair left the selection or the price left
     * [low, high] it is dropped, open orders unsettled; otherwise each order
     * takes its transition and every close is booked with fees.
     */
    method UpdateGrids(allPairs: seq<Pair>, prices: map<Pair, real>)
      requires Valid()
      modifies this, ledger
      ensures Valid()
      ensures autoSelected == old(autoSelected) && lastRejectReason == old(lastRejectReason)
      ensures forall p :: p in activeGrids <==>
        p in old(activeGrids) && !Retires(old(activeGrids)[p], PriceOf(prices, p), p in allPairs)
      ensures forall p :: p in activeGrids ==> activeGrids[p] == Advance(old(activeGrids)[p], PriceOf(prices, p))
      ensures forall p :: (StatOf(ledger.pairStats, p) ==
        if p in old(activeGrids) then
          Credited(StatOf(old(ledger.pairStats), p),
            GridPnl(old(activeGrids)[p], PriceOf(prices, p), p in allPairs, NetOfFees),
            GridCloses(old(activeGrids)[p], PriceOf(prices, p), p in allPairs))
        else StatOf(old(ledger.pairStats), p))
      ensures forall p :: p in ledger.pairStats <==>
        p in old(ledger.pairStats) ||
        (p in old(activeGrids) && GridCloses(old(activeGrids)[p], PriceOf(prices, p), p in allPairs) > 0)
    {
      ghost var grids0 := activeGrids;
      ghost var stats0 := ledger.pairStats;
      var pending := activeGrids.Keys;
      while pending != {}
        invariant pending <= grids0.Keys
        invariant Valid()
        invariant autoSelected == old(autoSelected) && lastRejectReason == old(lastRejectReason)
        invariant UpdatedSoFar(grids0, stats0, prices, allPairs, pending, activeGrids, ledger.pairStats)
        decreases pending
      {
        var pair :| pair in pending;
        UpdatedStep(grids0, stats0, prices, allPairs, pending, activeGrids, ledger.pairStats, pair);
        pending := pending - {pair};
        UpdateGrid(pair, PriceOf(prices, pair), pair in allPairs);
      }
    }

    /** One grid of the update phase; `price` is None when no price was fetched. */
    method UpdateGrid(pair: Pair, price: Option<real>, selected: bool)
      requires Valid() && pair in activeGrids
      modifies this, ledger
      ensures Valid()
      ensures autoSelected == old(autoSelected) && lastRejectReason == old(lastRejectReason)
      ensures activeGrids ==
        if Retires(old(activeGrids)[pair], price, selected) then old(activeGrids) - {pair}
        else old(activeGrids)[pair := Advance(old(activeGrids)[pair], price)]
      ensures ledger.pairStats == Booked(old(ledger.pairStats), pair, old(activeGrids)[pair], price, selected)
    {
      var g := activeGrids[pair];
      if price.None? {
        return;
      }
      if !selected || !(g.low <= price.value <= g.high) {
        activeGrids := activeGrids - {pair};
        return;
      }
      var stepped := StepOrders(ledger, pair, g.orders, price.value, NetOfFees);
      CloseCountBound(g.orders, price.value);
      StepKeepsLevels(g, price.value);
      activeGrids := activeGrids[pair := g.(orders := stepped)];
    }

    /**
     * The open phase: when fewer than MAX_GRIDS grids are active, walk the
     * selected pairs, skip those holding a grid or lacking candles, build a
     * grid for the others, and stop once MAX_GRIDS are active.
     */
    method OpenGrids(allPairs: seq<Pair>, m: map<Pair, seq<Candle>>)
      requires Valid() && ValidMarket(m)
      requires forall i :: 0 <= i < |allPairs| ==> allPairs[i] in ledger.universe
      modifies this
      ensures Valid()
      ensures autoSelected == old(autoSelected) && lastRejectReason == old(lastRejectReason)
      ensures forall p :: p in old(activeGrids) ==> p in activeGrids && activeGrids[p] == old(activeGrids)[p]
      ensures forall p :: p in activeGrids && p !in old(activeGrids) ==>
        p in allPairs && NewGrid(KlinesOf(m, p)).Some? && activeGrids[p] == NewGrid(KlinesOf(m, p)).value
      ensures |old(activeGrids)| >= MAX_GRIDS ==> activeGrids == old(activeGrids)
      ensures |activeGrids| < MAX_GRIDS ==>
        forall p :: p in allPairs ==> p in activeGrids || |KlinesOf(m, p)| < MIN_CANDLES
    {
      if |activeGrids| >= MAX_GRIDS {
        return;
      }
      ghost var plan := map p | p in allPairs :: NewGrid(KlinesOf(m, p));
      var i := 0;
      while i < |allPairs|
        invariant 0 <= i <= |allPairs|
        invariant Valid() && |activeGrids| < MAX_GRIDS
        invariant autoSelected == old(autoSelected) && lastRejectReason == old(lastRejectReason)
        invariant OpenedSoFar(old(activeGrids), allPairs, plan, i, activeGrids)
      {
        var pair := allPairs[i];
        OpenedStep(old(activeGrids), allPairs, plan, i, activeGrids);
        if pair in activeGrids {
          i := i + 1;
          continue;
        }
        var built := OpenGrid(pair, KlinesOf(m, pair));
        if !built {
          i := i + 1;
          continue;
        }
        if |activeGrids| >= MAX_GRIDS {
          return;
        }
        i := i + 1;
      }
    }

    /** Analyse one pair and, when it has enough candles, build and store its grid. */
    method OpenGrid(pair: Pair, kl: seq<Candle>) returns (built: bool)
      requires Valid() && PositiveCloses(kl)
      requires pair in ledger.universe && pair !in activeGrids && |activeGrids| < MAX_GRIDS
      modifies this
      ensures Valid()
      ensures autoSelected == old(autoSelected) && lastRejectReason == old(lastRejectReason)
      ensures built <==> NewGrid(kl).Some?
      ensures activeGrids == if built then old(activeGrids)[pair := NewGrid(kl).value] else old(activeGrids)
    {
      var grid := NewGrid(kl);
      if grid.None? {
        return false;
      }
      GridsOkInsert(activeGrids, ledger.universe, pair, grid.value);
      activeGrids := activeGrids[pair := grid.value];
      return true;
    }

    /**
     * One pass of the engine loop. `allPairs` is list(set(manual + auto)):
     * the selected pairs without repeats, in whatever order the set yields.
     * `selection`, `prices` and `analysis` are the three market fetches of
     * the pass (120 candles per pair, the latest close per grid, 120 candles
     * per pair to open). Every surviving grid is advanced and kept, every
     * other grid is the one its pair's analysis window yields, the open
     * phase fills up to MAX_GRIDS while candles allow, and each pair that
     * held a grid is credited net of fees with what that grid closed.
     */
    method Tick(selection: map<Pair, seq<Candle>>, allPairs: seq<Pair>,
                prices: map<Pair, real>, analysis: map<Pair, seq<Candle>>)
      requires Valid() && ledger.universe == ALL_PAIRS && ValidMarket(selection) && ValidMarket(analysis)
      requires Distinct(allPairs)
      requires forall p :: p in allPairs <==>
        p in MANUAL_PAIRS || p in (if AUTO_MODE then SelectPairs(selection) else autoSelected)
      modifies this, ledger
      ensures Valid()
      ensures AUTO_MODE ==> autoSelected == SelectPairs(selection)
      ensures AUTO_MODE ==>
        lastRejectReason == old(lastRejectReason) + Rejections(ALL_PAIRS, VerdictsOf(selection))
      ensures forall p :: p in old(activeGrids) && p in prices && p !in allPairs ==> p !in activeGrids
      ensures forall p :: p in activeGrids ==> p in allPairs || (p in old(activeGrids) && p !in prices)
      ensures forall p :: Survives(old(activeGrids), prices, allPairs, p) ==>
        p in activeGrids && activeGrids[p] == Advance(old(activeGrids)[p], PriceOf(prices, p))
      ensures forall p :: p in activeGrids && !Survives(old(activeGrids), prices, allPairs, p) ==>
        p in allPairs && NewGrid(KlinesOf(analysis, p)).Some? && activeGrids[p] == NewGrid(KlinesOf(analysis, p)).value
      ensures |activeGrids| < MAX_GRIDS ==>
        forall p :: p in allPairs ==> p in activeGrids || |KlinesOf(analysis, p)| < MIN_CANDLES
      ensures forall p :: (StatOf(ledger.pairStats, p) ==
        if p in old(activeGrids) then
          Credited(StatOf(old(ledger.pairStats), p),
            GridPnl(old(activeGrids)[p], PriceOf(prices, p), p in allPairs, NetOfFees),
            GridCloses(old(activeGrids)[p], PriceOf(prices, p), p in allPairs))
        else StatOf(old(ledger.pairStats), p))
      ensures forall p :: p in ledger.pairStats <==>
        p in old(ledger.pairStats) ||
        (p in old(activeGrids) && GridCloses(old(activeGrids)[p], PriceOf(prices, p), p in allPairs) > 0)
    {
      if AUTO_MODE {
        AutoSelectPairs(selection);
      }
      PassPairsKnown(selection, autoSelected, allPairs);
      UpdateGrids(allPairs, prices);
      OpenGrids(allPairs, analysis);
    }
  }
}
