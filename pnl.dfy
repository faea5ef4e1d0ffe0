/**
 * Realised profit of one long round trip (buy at `entry`, sell at `exit`).
 * engine.py charges the maker fee on the entry leg and the taker fee on the
 * exit leg; bot.py books the gross difference only.
 */
module Pnl {
  const MAKER_FEE: real := 0.0002
  const TAKER_FEE: real := 0.0004

  /** Which calc_pnl a variant uses. */
  datatype FeeModel = NetOfFees | Gross

  /** bot.py's calc_pnl: (exit - entry) * qty. */
  function GrossPnl(entry: real, exit: real, qty: real): real
  {
    (exit - entry) * qty
  }

  function Fees(entry: real, exit: real, qty: real): real
  {
    entry * qty * MAKER_FEE + exit * qty * TAKER_FEE
  }

  /** engine.py's calc_pnl: gross minus the two fees. */
  function CalcPnl(entry: real, exit: real, qty: real): real
  {
    GrossPnl(entry, exit, qty) - Fees(entry, exit, qty)
  }

  function Realise(fm: FeeModel, entry: real, exit: real, qty: real): real
  {
    match fm
    case NetOfFees => CalcPnl(entry, exit, qty)
    case Gross => GrossPnl(entry, exit, qty)
  }

  /**
   * With non-negative prices and quantity the fees only take away, and a
   * round trip nets a profit exactly when the exit, less the taker fee, beats
   * the entry plus the maker fee.
   */
  lemma CalcPnlSpec(entry: real, exit: real, qty: real)
    requires entry >= 0.0 && exit >= 0.0 && qty > 0.0
    ensures CalcPnl(entry, exit, qty) <= GrossPnl(entry, exit, qty)
    ensures CalcPnl(entry, exit, qty) > 0.0 <==> exit * (1.0 - TAKER_FEE) > entry * (1.0 + MAKER_FEE)
  {
    var d := exit * (1.0 - TAKER_FEE) - entry * (1.0 + MAKER_FEE);
    assert CalcPnl(entry, exit, qty) == d * qty;
    assert Fees(entry, exit, qty) == (entry * MAKER_FEE + exit * TAKER_FEE) * qty;
    assert entry * MAKER_FEE + exit * TAKER_FEE >= 0.0;
    if d > 0.0 {
      assert d * qty > 0.0;
    } else {
      assert d * qty <= 0.0;
    }
  }

  /** The worked example: gross 20, fees 0.04 + 0.088 = 0.128, net 19.872. */
  lemma CalcPnlExample()
    ensures GrossPnl(100.0, 110.0, 2.0) == 20.0
    ensures Fees(100.0, 110.0, 2.0) == 0.128
    ensures CalcPnl(100.0, 110.0, 2.0) == 19.872
  {
  }

  /** A fee-less round trip on a level whose exit is above its entry gains. */
  lemma GrossPnlPositive(entry: real, exit: real, qty: real)
    requires exit > entry && qty > 0.0
    ensures GrossPnl(entry, exit, qty) > 0.0
  {
    assert (exit - entry) * qty > 0.0;
  }
}
