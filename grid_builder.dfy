/**
 * build_grid (engine.py and bot.py, identical apart from engine.py also
 * recording the ATR): a long-only ladder of LEVELS levels spanning
 * price +- 2.5 * ATR, one common quantity, levels under the minimum notional
 * dropped.
 */
module GridBuilder {
  const DEPOSIT: real := 100.0
  const LEVERAGE: real := 10.0
  const MAX_MARGIN_PER_GRID: real := 0.10
  const MIN_ORDER_NOTIONAL: real := 5.0
  const LEVELS: nat := 8
  const RANGE_ATR_MULTIPLE: real := 2.5

  /** One level: buy at `entry`, sell at `exit`; `open` is true while holding. */
  datatype Order = Order(entry: real, exit: real, qty: real, open: bool)

  /** A grid: its bounds, its levels and the ATR it was built from. */
  datatype Grid = Grid(low: real, high: real, orders: seq<Order>, atr: real)

  /** The quantity every level gets: margin * leverage / price / LEVELS. */
  function LevelQty(price: real): (qty: real)
    requires price > 0.0
    ensures qty > 0.0
    ensures qty * price * LEVELS as real == DEPOSIT * MAX_MARGIN_PER_GRID * LEVERAGE
  {
    (DEPOSIT * MAX_MARGIN_PER_GRID * LEVERAGE / price) / LEVELS as real
  }

  /** The entry price of level i. */
  function Entry(low: real, step: real, i: nat): real
  {
    low + step * i as real
  }

  /** Level i: entry low + step * i, exit one step higher, not yet open. */
  function Level(low: real, step: real, qty: real, i: nat): Order
  {
    Order(Entry(low, step, i), Entry(low, step, i) + step, qty, false)
  }

  predicate MeetsFloor(o: Order)
  {
    o.entry * o.qty >= MIN_ORDER_NOTIONAL
  }

  /** The levels 0 .. n-1 that meet the notional floor, in order. */
  function KeptLevels(low: real, step: real, qty: real, n: nat): seq<Order>
  {
    if n == 0 then []
    else
      var o := Level(low, step, qty, n - 1);
      KeptLevels(low, step, qty, n - 1) + (if MeetsFloor(o) then [o] else [])
  }

  function BuildGrid(price: real, atr: real): Grid
    requires price > 0.0
  {
    var rng := atr * RANGE_ATR_MULTIPLE;
    var low := price - rng;
    var high := price + rng;
    var step := (high - low) / LEVELS as real;
    Grid(low, high, KeptLevels(low, step, LevelQty(price), LEVELS), atr)
  }

  /** The source's loop: append each level that meets the floor. */
  method ComputeGrid(price: real, atr: real) returns (g: Grid)
    requires price > 0.0
    ensures g == BuildGrid(price, atr)
  {
    var rng := atr * RANGE_ATR_MULTIPLE;
    var low := price - rng;
    var high := price + rng;
    var step := (high - low) / LEVELS as real;
    var qty := (DEPOSIT * MAX_MARGIN_PER_GRID * LEVERAGE / price) / LEVELS as real;
    var orders: seq<Order> := [];
    for i := 0 to LEVELS
      invariant orders == KeptLevels(low, step, qty, i)
    {
      var o := Level(low, step, qty, i);
      if !MeetsFloor(o) {
        continue;
      }
      orders := orders + [o];
    }
    g := Grid(low, high, orders, atr);
  }

  /** The lowest level kept among levels 0 .. n-1 (n when none is kept). */
  function FirstKept(low: real, step: real, qty: real, n: nat): (k: nat)
    ensures k <= n
  {
    if n == 0 then 0
    else if MeetsFloor(Level(low, step, qty, n - 1)) then FirstKept(low, step, qty, n - 1)
    else n
  }

  lemma MulMono(a: real, b: real, c: real)
    requires a <= b && c >= 0.0
    ensures a * c <= b * c && c * a <= c * b
  {
    assert (b - a) * c >= 0.0;
  }

  lemma EntryStrict(low: real, step: real, i: nat, j: nat)
    requires step > 0.0 && i < j
    ensures Entry(low, step, i) < Entry(low, step, j)
  {
    assert step * (j as real - i as real) > 0.0;
  }

  lemma NotionalMono(low: real, step: real, qty: real, i: nat, j: nat)
    requires step >= 0.0 && qty > 0.0 && i <= j
    ensures Entry(low, step, i) * qty <= Entry(low, step, j) * qty
  {
    MulMono(i as real, j as real, step);
    MulMono(Entry(low, step, i), Entry(low, step, j), qty);
  }

  /**
   * With a non-negative step the notional grows with the level, so the levels
   * dropped by the floor are exactly the lowest ones: level i is kept iff
   * i >= FirstKept, and the kept levels are FirstKept .. n-1 in order.
   */
  lemma {:induction false} KeptLevelsShape(low: real, step: real, qty: real, n: nat)
    requires step >= 0.0 && qty > 0.0
    ensures var k := FirstKept(low, step, qty, n);
      && |KeptLevels(low, step, qty, n)| == n - k
      && (forall j :: 0 <= j < n - k ==> KeptLevels(low, step, qty, n)[j] == Level(low, step, qty, k + j))
      && (forall i :: 0 <= i < n ==> (MeetsFloor(Level(low, step, qty, i)) <==> i >= k))
  {
    if n > 0 {
      KeptLevelsShape(low, step, qty, n - 1);
      var top := Level(low, step, qty, n - 1);
      if !MeetsFloor(top) {
        forall i | 0 <= i < n ensures !MeetsFloor(Level(low, step, qty, i)) {
          NotionalMono(low, step, qty, i, n - 1);
        }
      }
    }
  }

  /** The distance between adjacent levels. */
  function Step(g: Grid): real
  {
    (g.high - g.low) / LEVELS as real
  }

  /**
   * The grid build_grid returns: bounds price -+ 2.5 * ATR; at most LEVELS
   * orders, all closed, all with the common quantity, each one step wide and
   * meeting the notional floor; the kept ones are the top levels, so a level
   * is dropped exactly when it is under the floor.
   */
  lemma BuildGridSpec(price: real, atr: real)
    requires price > 0.0 && atr >= 0.0
    ensures BuildGrid(price, atr).low == price - RANGE_ATR_MULTIPLE * atr
    ensures BuildGrid(price, atr).high == price + RANGE_ATR_MULTIPLE * atr
    ensures BuildGrid(price, atr).atr == atr
    ensures |BuildGrid(price, atr).orders| <= LEVELS
    ensures var g := BuildGrid(price, atr);
      forall j :: 0 <= j < |g.orders| ==>
        && g.orders[j].entry == Entry(g.low, Step(g), LEVELS - |g.orders| + j)
        && g.orders[j].exit == g.orders[j].entry + Step(g)
        && g.orders[j].qty == LevelQty(price)
        && !g.orders[j].open
        && g.orders[j].entry * g.orders[j].qty >= MIN_ORDER_NOTIONAL
    ensures var g := BuildGrid(price, atr);
      forall i :: 0 <= i < LEVELS ==>
        (Entry(g.low, Step(g), i) * LevelQty(price) >= MIN_ORDER_NOTIONAL <==> i >= LEVELS - |g.orders|)
  {
    var g := BuildGrid(price, atr);
    assert Step(g) >= 0.0;
    KeptLevelsShape(g.low, Step(g), LevelQty(price), LEVELS);
    forall i | 0 <= i < LEVELS
      ensures Entry(g.low, Step(g), i) * LevelQty(price) >= MIN_ORDER_NOTIONAL <==> i >= LEVELS - |g.orders|
    {
      assert MeetsFloor(Level(g.low, Step(g), LevelQty(price), i)) <==> i >= LEVELS - |g.orders|;
    }
  }

  /** With a positive ATR the entries strictly increase and every exit is above its entry. */
  lemma BuildGridIncreasing(price: real, atr: real)
    requires price > 0.0 && atr > 0.0
    ensures var os := BuildGrid(price, atr).orders;
      && (forall j :: 0 <= j < |os| ==> os[j].exit > os[j].entry && os[j].qty > 0.0)
      && (forall i, j :: 0 <= i < j < |os| ==> os[i].entry < os[j].entry)
  {
    BuildGridSpec(price, atr);
    var g := BuildGrid(price, atr);
    var k := LEVELS - |g.orders|;
    assert Step(g) > 0.0;
    forall i, j | 0 <= i < j < |g.orders| ensures g.orders[i].entry < g.orders[j].entry {
      EntryStrict(g.low, Step(g), k + i, k + j);
    }
  }

  /** Every order of `g` meets the notional floor. */
  predicate NotionalFloor(g: Grid)
  {
    forall j :: 0 <= j < |g.orders| ==> MeetsFloor(g.orders[j])
  }

  /** Every order of `g` spans a positive step with a positive quantity. */
  predicate PositiveSpread(g: Grid)
  {
    forall j :: 0 <= j < |g.orders| ==> g.orders[j].exit > g.orders[j].entry && g.orders[j].qty > 0.0
  }

  lemma BuiltGridInvariants(price: real, atr: real)
    requires price > 0.0 && atr >= 0.0
    ensures NotionalFloor(BuildGrid(price, atr))
    ensures atr > 0.0 ==> PositiveSpread(BuildGrid(price, atr))
  {
    BuildGridSpec(price, atr);
    if atr > 0.0 {
      BuildGridIncreasing(price, atr);
    }
  }
}
