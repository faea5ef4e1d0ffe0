/**
 * main.py's single-centre stepping bot: one PEPEUSDT position keyed on a
 * moving centre. Each running tick buys when the price has fallen a step
 * below the centre, sells when it has risen a step above it, and re-centres
 * on the traded price; orders reach the exchange only in live mode.
 */
module CenterStepper {
  import opened Wrappers

  const DEPOSIT: real := 5.0
  const LEVERAGE: real := 5.0
  /** The step, as a fraction of the centre (0.2%). */
  const STEP_PCT: real := 0.002
  const MIN_NOTIONAL: real := 5.0

  /** The notional every order is sized to. */
  function Notional(): real
  {
    DEPOSIT * LEVERAGE
  }

  datatype Side = Buy | Sell

  /** A market order handed to the exchange. */
  datatype OrderRequest = OrderRequest(side: Side, qty: real)

  /** What a running tick does at a price. */
  datatype Decision =
    | Seed                         // no centre yet: the price becomes the centre
    | Skip                         // the order would be under the exchange minimum
    | Trade(side: Side, qty: real) // a step was crossed: trade and re-centre
    | Hold                         // inside the band around the centre

  /** A centre comes from an observed price, so it is positive. */
  predicate CenterOk(center: Option<real>)
  {
    center.Some? ==> center.value > 0.0
  }

  /**
   * The decision of one running tick. A buy happens exactly when the price
   * is at least a step below the centre and a sell exactly when it is at
   * least a step above; the two bands never overlap, every trade is sized
   * to the full notional and lands at least a step away from the old
   * centre, and the minimum-notional guard never fires, because the
   * notional (25) is above the minimum (5).
   */
  function Decide(center: Option<real>, price: real): (d: Decision)
    requires price > 0.0 && CenterOk(center)
    ensures center.None? <==> d == Seed
    ensures d != Skip
    ensures d.Trade? && d.side == Buy <==>
      center.Some? && price <= center.value - center.value * STEP_PCT
    ensures d.Trade? && d.side == Sell <==>
      center.Some? && price >= center.value + center.value * STEP_PCT
    ensures d.Trade? ==> d.qty > 0.0 && d.qty * price == Notional()
    ensures d.Trade? ==>
      var c := center.value;
      price - c >= c * STEP_PCT || c - price >= c * STEP_PCT
    ensures d == Hold <==>
      center.Some? && center.value - center.value * STEP_PCT < price < center.value + center.value * STEP_PCT
  {
    match center
    case None => Seed
    case Some(c) =>
      var step := c * STEP_PCT;
      var qty := Notional() / price;
      assert qty * price == Notional();
      if qty * price < MIN_NOTIONAL then Skip
      else if price <= c - step then Trade(Buy, qty)
      else if price >= c + step then Trade(Sell, qty)
      else Hold
  }

  /** main.py's STATE dictionary, as far as the trading loop uses it. */
  class Stepper {
    var running: bool
    var live: bool
    var deals: nat
    var center: Option<real>
    var lastPrice: Option<real>
    /** The orders sent to the exchange, oldest first. */
    var sent: seq<OrderRequest>

    /**
     * A centre is always a positive observed price, a centre exists only
     * once a price was observed, and there are never more orders sent
     * than deals counted.
     */
    predicate Valid()
      reads this
    {
      && CenterOk(center)
      && (center.Some? ==> lastPrice.Some?)
      && |sent| <= deals
    }

    constructor ()
      ensures Valid()
      ensures !running && !live && deals == 0
      ensures center == None && lastPrice == None && sent == []
    {
      running := false;
      live := false;
      deals := 0;
      center := None;
      lastPrice := None;
      sent := [];
    }

    /** The POST /start handler. */
    method Start()
      modifies this
      ensures running
      ensures live == old(live) && deals == old(deals) && center == old(center)
      ensures lastPrice == old(lastPrice) && sent == old(sent)
    {
      running := true;
    }

    /** The POST /stop handler. */
    method Stop()
      modifies this
      ensures !running
      ensures live == old(live) && deals == old(deals) && center == old(center)
      ensures lastPrice == old(lastPrice) && sent == old(sent)
    {
      running := false;
    }

    /** The POST /live handler: flips between paper and live trading. */
    method ToggleLive()
      modifies this
      ensures live == !old(live)
      ensures running == old(running) && deals == old(deals) && center == old(center)
      ensures lastPrice == old(lastPrice) && sent == old(sent)
    {
      live := !live;
    }

    /** Sends a market order, but only in live mode. */
    method PlaceOrder(side: Side, qty: real)
      modifies this
      ensures sent == if old(live) then old(sent) + [OrderRequest(side, qty)] else old(sent)
      ensures running == old(running) && live == old(live) && deals == old(deals)
      ensures center == old(center) && lastPrice == old(lastPrice)
    {
      if !live {
        return;
      }
      sent := sent + [OrderRequest(side, qty)];
    }

    /**
     * One pass of grid_loop at the fetched price. A stopped bot changes
     * nothing. A running one records the price, then seeds, holds or
     * trades as Decide says: a trade re-centres on the price, counts one
     * deal and sends its order when live.
     */
    method Tick(price: real)
      requires Valid() && price > 0.0
      modifies this
      ensures Valid()
      ensures running == old(running) && live == old(live)
      ensures !old(running) ==>
        deals == old(deals) && center == old(center) && lastPrice == old(lastPrice) && sent == old(sent)
      ensures old(running) ==> lastPrice == Some(price)
      ensures old(running) ==>
        match Decide(old(center), price)
        case Seed => center == Some(price) && deals == old(deals) && sent == old(sent)
        case Trade(side, qty) =>
          && center == Some(price) && deals == old(deals) + 1
          && sent == old(sent) + (if live then [OrderRequest(side, qty)] else [])
        case _ => center == old(center) && deals == old(deals) && sent == old(sent)
    {
      if !running {
        return;
      }
      lastPrice := Some(price);
      if center.None? {
        center := Some(price);
        return;
      }
      var c := center.value;
      var step := c * STEP_PCT;
      var notional := DEPOSIT * LEVERAGE;
      var qty := notional / price;
      if qty * price < MIN_NOTIONAL {
        return;
      }
      if price <= c - step {
        PlaceOrder(Buy, qty);
        center := Some(price);
        deals := deals + 1;
      } else if price >= c + step {
        PlaceOrder(Sell, qty);
        center := Some(price);
        deals := deals + 1;
      }
    }
  }
}
