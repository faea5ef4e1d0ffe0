/**
 * The per-order state machine shared by engine.py and bot.py, and the update
 * a grid receives on one tick. A closed order opens when the price is at or
 * below its entry; an open order closes, realising one round trip, when the
 * price is at or above its exit.
 */
module GridUpdate {
  import opened Wrappers
  import opened Market
  import opened Pnl
  import opened GridBuilder
  import opened Accounts

  /** The one transition an order can make at `price`. */
  function Transition(o: Order, price: real): (r: Order)
    ensures r.entry == o.entry && r.exit == o.exit && r.qty == o.qty
    ensures !o.open ==> (r.open <==> price <= o.entry)
    ensures o.open ==> (r.open <==> price < o.exit)
  {
    if !o.open && price <= o.entry then o.(open := true)
    else if o.open && price >= o.exit then o.(open := false)
    else o
  }

  /** The order completes a round trip at `price`. */
  predicate ClosesAt(o: Order, price: real)
  {
    o.open && price >= o.exit
  }

  /** Every order of the grid after one tick at `price`. */
  function StepAll(orders: seq<Order>, price: real): (r: seq<Order>)
    ensures |r| == |orders|
    ensures forall j :: 0 <= j < |orders| ==> r[j] == Transition(orders[j], price)
  {
    seq(|orders|, j requires 0 <= j < |orders| => Transition(orders[j], price))
  }

  /** The profit realised by the orders that close at `price`. */
  function RealisedPnl(orders: seq<Order>, price: real, fm: FeeModel): real
  {
    if orders == [] then 0.0
    else
      var o := orders[|orders| - 1];
      RealisedPnl(orders[..|orders| - 1], price, fm) + (if ClosesAt(o, price) then Realise(fm, o.entry, o.exit, o.qty) else 0.0)
  }

  /** The number of orders that close at `price`. */
  function CloseCount(orders: seq<Order>, price: real): nat
  {
    if orders == [] then 0
    else CloseCount(orders[..|orders| - 1], price) + (if ClosesAt(orders[|orders| - 1], price) then 1 else 0)
  }

  /** The number of orders holding a position. */
  function OpenCount(orders: seq<Order>): nat
  {
    if orders == [] then 0
    else OpenCount(orders[..|orders| - 1]) + (if orders[|orders| - 1].open then 1 else 0)
  }

  /**
   * Only an open order can close, and it then stops holding: the closes of a
   * tick are at most the open orders, and no tick closes what it opened.
   */
  lemma {:induction false} CloseCountBound(orders: seq<Order>, price: real)
    ensures CloseCount(orders, price) <= OpenCount(orders)
    ensures CloseCount(orders, price) == 0 ==> RealisedPnl(orders, price, NetOfFees) == 0.0
    ensures CloseCount(orders, price) == 0 ==> RealisedPnl(orders, price, Gross) == 0.0
  {
    if orders != [] {
      CloseCountBound(orders[..|orders| - 1], price);
    }
  }

  /** On orders that each span a positive step, fee-less profit never goes down. */
  lemma {:induction false} GrossPnlNonNegative(orders: seq<Order>, price: real)
    requires forall j :: 0 <= j < |orders| ==> orders[j].exit > orders[j].entry && orders[j].qty > 0.0
    ensures RealisedPnl(orders, price, Gross) >= 0.0
  {
    if orders != [] {
      GrossPnlNonNegative(orders[..|orders| - 1], price);
      var o := orders[|orders| - 1];
      GrossPnlPositive(o.entry, o.exit, o.qty);
    }
  }

  /** A tick changes only the open flags, so the levels and their floor stay. */
  lemma StepKeepsLevels(g: Grid, price: real)
    ensures NotionalFloor(g) ==> NotionalFloor(g.(orders := StepAll(g.orders, price)))
    ensures PositiveSpread(g) ==> PositiveSpread(g.(orders := StepAll(g.orders, price)))
  {
  }

  /** The price fetched for `pair` this tick, if any. */
  function PriceOf(prices: map<Pair, real>, pair: Pair): (r: Option<real>)
    ensures r.Some? <==> pair in prices
    ensures r.Some? ==> r.value == prices[pair]
  {
    if pair in prices then Some(prices[pair]) else None
  }

  predicate InBounds(g: Grid, price: real)
  {
    g.low <= price <= g.high
  }

  /** The grid after a tick that kept it: bounds as they were, orders stepped. */
  function Advance(g: Grid, price: Option<real>): (r: Grid)
    ensures r.low == g.low && r.high == g.high && r.atr == g.atr
    ensures |r.orders| == |g.orders|
  {
    if price.None? then g else g.(orders := StepAll(g.orders, price.value))
  }

  /**
   * engine.py retires a grid when a price was fetched and either the pair left
   * the selection or the price is outside [low, high].
   */
  predicate Retires(g: Grid, price: Option<real>, selected: bool)
  {
    price.Some? && (!selected || !InBounds(g, price.value))
  }

  /** The profit a surviving grid realises on this tick (0 when it is skipped or retired). */
  function GridPnl(g: Grid, price: Option<real>, selected: bool, fm: FeeModel): real
  {
    if price.None? || Retires(g, price, selected) then 0.0 else RealisedPnl(g.orders, price.value, fm)
  }

  /** The round trips a surviving grid completes on this tick. */
  function GridCloses(g: Grid, price: Option<real>, selected: bool): nat
  {
    if price.None? || Retires(g, price, selected) then 0 else CloseCount(g.orders, price.value)
  }

  /** Extending the prefix by order i adds that order's close, if any, to the tallies. */
  lemma TallyStep(orders: seq<Order>, price: real, fm: FeeModel, i: nat)
    requires i < |orders|
    ensures RealisedPnl(orders[..i + 1], price, fm) == RealisedPnl(orders[..i], price, fm) +
      (if ClosesAt(orders[i], price) then Realise(fm, orders[i].entry, orders[i].exit, orders[i].qty) else 0.0)
    ensures CloseCount(orders[..i + 1], price) == CloseCount(orders[..i], price) +
      (if ClosesAt(orders[i], price) then 1 else 0)
    ensures CloseCount(orders[..i], price) == 0 ==> RealisedPnl(orders[..i], price, fm) == 0.0
  {
    assert orders[..i + 1][..i] == orders[..i];
    CloseCountBound(orders[..i], price);
  }

  /**
   * The inner loop of both engines: each order takes its one transition in
   * turn, and every close is booked on the ledger at once.
   */
  method StepOrders(ledger: Ledger, pair: Pair, orders: seq<Order>, price: real, fm: FeeModel)
    returns (stepped: seq<Order>)
    requires ledger.Valid() && pair in ledger.universe
    modifies ledger
    ensures ledger.Valid()
    ensures stepped == StepAll(orders, price)
    ensures ledger.totalPnl == old(ledger.totalPnl) + RealisedPnl(orders, price, fm)
    ensures ledger.deals == old(ledger.deals) + CloseCount(orders, price)
    ensures CloseCount(orders, price) == 0 ==> ledger.pairStats == old(ledger.pairStats)
    ensures CloseCount(orders, price) > 0 ==>
      ledger.pairStats == old(ledger.pairStats)[pair :=
        Credited(StatOf(old(ledger.pairStats), pair), RealisedPnl(orders, price, fm), CloseCount(orders, price))]
  {
    stepped := orders;
    var i := 0;
    while i < |orders|
      invariant 0 <= i <= |orders|
      invariant ledger.Valid()
      invariant |stepped| == |orders|
      invariant forall j :: 0 <= j < i ==> stepped[j] == Transition(orders[j], price)
      invariant forall j :: i <= j < |orders| ==> stepped[j] == orders[j]
      invariant ledger.totalPnl == old(ledger.totalPnl) + RealisedPnl(orders[..i], price, fm)
      invariant ledger.deals == old(ledger.deals) + CloseCount(orders[..i], price)
      invariant CloseCount(orders[..i], price) == 0 ==> ledger.pairStats == old(ledger.pairStats)
      invariant CloseCount(orders[..i], price) > 0 ==>
        ledger.pairStats == old(ledger.pairStats)[pair :=
          Credited(StatOf(old(ledger.pairStats), pair), RealisedPnl(orders[..i], price, fm), CloseCount(orders[..i], price))]
    {
      TallyStep(orders, price, fm, i);
      var o := stepped[i];
      if !o.open && price <= o.entry {
        stepped := stepped[i := o.(open := true)];
      } else if o.open && price >= o.exit {
        var pnl := Realise(fm, o.entry, o.exit, o.qty);
        ledger.Record(pair, pnl);
        stepped := stepped[i := o.(open := false)];
      }
      i := i + 1;
    }
    assert orders[..i] == orders;
  }
}
