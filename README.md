# Grid trading engine, modelled in Dafny

This project models the decision core of a small crypto-futures grid bot
with three variants:

- `engine.py` has the main engine. It auto-selects pairs by volatility,
  keeps at most two grids, and books fees on every closed round trip.
- `bot.py` is a second, single-file engine. It uses a fixed pair list and
  books gross profit.
- `main.py` is a single-centre stepper. It buys a step below its centre,
  sells a step above it, and re-centres on each trade.

Prices, quantities and profits are exact `real`s. Market data is an input
and is not fetched:

- a map from pair to its candle window (high, low and close per candle);
- a map from pair to its latest close;
- for `main.py`, the fetched price.

A missing window is the empty window. `get_klines` returns `[]` when the
exchange answers with something that is not a list of candles; a request
that fails outright raises instead (see "Left out").

The modules follow the program's structure:

- `Indicators`: `ema` and `atr`. Each is a function plus a method that
  follows the source's loop.
- `PairSelector`: `auto_select_pairs` as a pure pipeline. Every pair is
  classified, the accepted ones are stable-sorted by distance to the target
  volatility, and the first `MAX_AUTO_PAIRS` are kept. It also holds
  `analyze_pair`.
- `GridBuilder`: `build_grid`, again as a function plus a method that
  follows the loop.
- `Pnl`: both `calc_pnl` variants.
- `GridUpdate`: the per-order state machine, and the order loop that books
  every close.
- `Accounts`: a `Ledger` class for `TOTAL_PNL`, `DEALS` and `PAIR_STATS`.
  Its invariant says that the totals equal the sums of the per-pair
  entries.
- `GridEngine`: one pass of `engine.py`'s `grid_engine`, as methods of an
  `Engine` class.
- `GridBot`: one pass of `bot.py`'s `grid_engine`, as methods of a `Bot`
  class.
- `CenterStepper`: `main.py`'s `STATE`, its loop body and its HTTP
  handlers, as a `Stepper` class.

Points where the model follows the code closely:

- The code has no drift-from-centre rule, no short side and no tiered
  sizing; the model has none either.
- `engine.py`'s open phase builds a grid from whatever ATR `analyze_pair`
  returns, including an ATR of zero. That gives a grid whose orders have
  exit equal to entry.
  - `GridEngine.NewGrid` models this as written and promises only
    `atr >= 0`.
  - `bot.py` skips a zero ATR, so `GridBot.FreshGrid` promises `atr > 0`
    and positive steps.
  - Auto-selection rejects a zero ATR ("ATR unavailable"), but the open
    phase analyses its own fetch of candles. Any selected pair, manual or
    auto-selected, whose analysis window has a zero ATR gets a grid of
    zero steps.

## Model

| member | source | states |
|---|---|---|
| Indicators.Smoothing | engine.py:79 | the smoothing factor 2/(p+1) lies in (0, 1] |
| Indicators.Ema | engine.py:78-83 | the EMA of a window: a plain function; ComputeEma ties the source's loop to it, EmaBounds keeps it between the data's minimum and maximum, EmaExample pins one value |
| Indicators.ComputeEma | engine.py:78-83 | the loop's result is the seed sum(data[:p])/p smoothed by e := x·k + e·(1−k) over data[p:] |
| Indicators.EmaStepBetween | engine.py:82 | one smoothing step lands between the old value and the new observation |
| Indicators.EmaBounds | engine.py:78-83 | with at least p values, the EMA lies between the minimum and maximum of the data |
| Indicators.EmaExample | engine.py:78-83 | ema([1,2,3,4,5], 3) = 4.0 |
| Indicators.TrueRange | engine.py:88-92 | the true range is ≥ 0, is at least each of its three candidates, and equals one of them |
| Indicators.TrueRanges | engine.py:86-92 | one true range per candle after the first, each taken against the previous close |
| Indicators.Atr | engine.py:85-93 | the 14-period ATR: a plain function; AtrSpec says when it exists and that it is ≥ 0, AtrWindow that it is the mean of the last 14 true ranges, ComputeAtr ties bot.py's loop to it |
| Indicators.AtrSpec | engine.py:93 | the ATR is None exactly when there are fewer than 15 closes (fewer than 14 true ranges); otherwise it is ≥ 0 |
| Indicators.AtrWindow | engine.py:93 | a defined ATR is the mean of the true ranges of the last 14 candles |
| Indicators.ComputeAtr | bot.py:61-69 | the append loop computes the ATR function (the same code as engine.py:85-93) |
| Pnl.CalcPnlSpec | engine.py:202-205 | with fees, profit never exceeds gross; it is positive exactly when exit·(1−taker) > entry·(1+maker) |
| Pnl.CalcPnlExample | engine.py:202-205 | entry 100, exit 110, qty 2: gross 20, fees 0.128, net 19.872 |
| Pnl.CalcPnl | engine.py:202-205 | gross minus maker and taker fees: a plain function; CalcPnlSpec bounds it by gross and gives the exact condition for a positive result, CalcPnlExample pins one value |
| Pnl.GrossPnl | bot.py:109-110 | (exit − entry)·qty: a plain function; GrossPnlPositive and GridUpdate.GrossPnlNonNegative state its sign |
| Pnl.GrossPnlPositive | bot.py:109-110 | fee-less profit is positive when exit > entry and qty > 0 |
| GridBuilder.LevelQty | engine.py:176-178 | every level's quantity is positive, and the LEVELS quantities together hold margin·leverage of notional at the price |
| GridBuilder.ComputeGrid | engine.py:168-200 | the level loop with its notional filter computes the BuildGrid function |
| GridBuilder.KeptLevelsShape | engine.py:181-193 | with a non-negative step, the filter drops exactly the lowest levels; the kept ones are consecutive and in order |
| GridBuilder.BuildGridSpec | engine.py:168-200 | bounds are price ∓ 2.5·ATR; at most 8 orders, all closed, each one step wide with the common quantity and above the notional floor; a level is dropped exactly when it is under the floor |
| GridBuilder.BuildGrid | engine.py:168-200 | the grid of one pair: a plain function; BuildGridSpec states its bounds, size, steps and floor, BuildGridIncreasing its order, ComputeGrid ties the source's loop to it |
| GridBuilder.BuildGridIncreasing | engine.py:181-183 | with a positive ATR, entries strictly increase and each exit is above its entry |
| GridBuilder.BuiltGridInvariants | bot.py:82-107 | a built grid meets the notional floor; with a positive ATR every order spans a positive step |
| Accounts.SumsAfterUpdate | engine.py:238-240 | changing one pair's entry changes the summed deals and profit by exactly the difference |
| Accounts.Ledger.constructor | engine.py:53-56 | the ledger starts at zero profit, zero deals and no pair entries |
| Accounts.Ledger.Record | engine.py:234-240 | one close adds pnl to TOTAL_PNL and 1 to DEALS, and the same to the pair's entry (created if missing); totals stay equal to the per-pair sums |
| GridUpdate.Transition | engine.py:229-242 | a closed order opens exactly when price ≤ entry; an open order closes exactly when price ≥ exit; levels never change |
| GridUpdate.CloseCountBound | engine.py:229-242 | a tick closes at most the orders that were open, and with no close it realises no profit |
| GridUpdate.GrossPnlNonNegative | bot.py:141-153 | on orders with exit > entry, the fee-less profit of a tick is ≥ 0 |
| GridUpdate.StepKeepsLevels | engine.py:229-242 | stepping keeps the notional floor and positive steps of a grid |
| GridUpdate.Retires | engine.py:219-226 | a priced grid is removed when its pair is deselected or the price leaves its bounds: a plain predicate; GridEngine.Engine.UpdateGrids and GridEngine.Engine.Tick state its effect |
| GridUpdate.Advance | engine.py:229-242 | a kept grid keeps its bounds, ATR and number of orders |
| GridUpdate.TallyStep | engine.py:233-240 | taking one more order into account adds its close (profit and one deal) to the running tallies |
| GridUpdate.StepOrders | engine.py:229-243 | the order loop steps every order, adds the closed profit to TOTAL_PNL and the closes to DEALS, credits the pair's entry only when something closed, and keeps the ledger invariant |
| PairSelector.AllPairsDistinct | engine.py:18-24 | the candidate list has no repeats |
| PairSelector.ClassifySpec | engine.py:110-138 | a pair is accepted exactly when it has ≥ 50 candles, a non-zero ATR, price ≤ 20 and ATR% in [0.4, 3.0], with score ATR/price·100; each reject reason holds exactly when the earlier filters pass and its own fails (candles, then ATR, then the price ceiling, then the ATR band), and a bad band carries the measured ATR% |
| PairSelector.Classify | engine.py:112-138 | one pair's verdict: a plain function; ClassifySpec states each verdict's exact condition |
| PairSelector.ScoredSpec | engine.py:108-138 | the scored list holds exactly the accepted pairs with their ATR%, without repeats; the recorded reasons are exactly the rejected pairs with their reasons |
| PairSelector.SortSpec | engine.py:140 | sorting is a permutation and orders by distance to 1.2 |
| PairSelector.SortDistinct | engine.py:140 | sorting keeps a list free of repeats |
| PairSelector.SortByScore | engine.py:140 | insertion sort by distance to 1.2: a plain function; SortSpec proves it an ordered permutation, SortDistinct keeps a list free of repeats |
| PairSelector.RankSpec | engine.py:140-141 | at most 4 distinct accepted pairs, ordered by distance to the target; an accepted pair is left out only when the 4 kept are all at least as close |
| PairSelector.SelectPairsSpec | engine.py:106-141 | AUTO_SELECTED_PAIRS: at most 4 distinct pairs of ALL_PAIRS, each passing every filter, ordered by distance, none better left out |
| PairSelector.SelectPairs | engine.py:106-141 | AUTO_SELECTED_PAIRS as a plain function; SelectPairsSpec states what it holds, GridEngine.Engine.AutoSelectPairs computes it |
| PairSelector.SideOf | engine.py:158-163 | LONG only when price is above EMA25, SHORT only when below; FLAT exactly when neither chain of comparisons holds |
| PairSelector.AnalyzePair | engine.py:144-165 | no analysis for fewer than 50 candles; otherwise the last close, the trend side from EMA(7) and EMA(25), and the window's own ATR, which exists and is ≥ 0 |
| GridEngine.ManualPairsKnown | engine.py:27 | the manual pairs are candidate pairs |
| GridEngine.ScanStep | engine.py:110-138 | scanning one pair appends it to the scored list when accepted, or overwrites its reject reason when rejected |
| GridEngine.BookedSpec | engine.py:238-240 | booking a grid credits only its own pair, adding an entry only when something closed |
| GridEngine.UpdatedStep | engine.py:218-243 | updating one more grid, in any order, keeps the state of the update phase so far |
| GridEngine.SelectedKnown | engine.py:141 | every auto-selected pair is a candidate pair |
| GridEngine.PassPairsKnown | engine.py:215 | every pair of a pass, manual or auto-selected, is a candidate pair |
| GridEngine.NewGrid | engine.py:251-255 | a grid is built exactly when the window has ≥ 50 candles; it is build_grid of the last close and the window's ATR (so BuildGridSpec gives its shape), centred at ±2.5·ATR with ATR ≥ 0, and meets the notional floor |
| GridEngine.OpenedStep | engine.py:246-259 | trying one more pair keeps the state of the open phase so far |
| GridEngine.GridsOkInsert | engine.py:255 | storing one more valid grid below the cap keeps the cap and the floor |
| GridEngine.Engine.constructor | engine.py:49-56 | no grids, no selection, no reasons and an empty ledger |
| GridEngine.Engine.AutoSelectPairs | engine.py:106-141 | AUTO_SELECTED_PAIRS becomes the selection, and every rejected pair's reason is recorded over the old ones |
| GridEngine.Engine.Screen | engine.py:110-138 | the scan loop yields the scored list and the reject reasons of its pairs |
| GridEngine.Engine.UpdateGrids | engine.py:218-243 | for any iteration order: without a price a grid stays as it is; a deselected or out-of-range grid is removed; every other grid is stepped and its closes are credited, net of fees, to its pair |
| GridEngine.Engine.UpdateGrid | engine.py:219-243 | one grid is retired or advanced, and its pair's statistics are booked |
| GridEngine.Engine.OpenGrids | engine.py:246-259 | old grids are untouched; each new grid is the one its pair's window yields; nothing opens at the cap; below the cap, every selected pair holds a grid or lacks candles |
| GridEngine.Engine.OpenGrid | engine.py:251-256 | a grid is stored exactly when the analysis yields one |
| GridEngine.Engine.Tick | engine.py:208-261 | after one pass: the invariants hold (at most 2 grids, floor respected, totals equal the per-pair sums); the selection is recomputed and every rejected pair's reason is written over the old reasons; every surviving grid is kept and advanced at its price; every other grid belongs to a selected pair and is exactly the grid its analysis window yields; deselected priced grids are gone; below the cap every selected pair holds a grid or lacks candles; each pair that held a grid is credited, net of fees, with what it closed, gaining an entry only when something closed, and every other pair keeps its statistics |
| GridBot.ActivePairsDistinct | bot.py:34 | the bot's pairs have no repeats |
| GridBot.FreshGrid | bot.py:118-131 | a grid is built exactly when there are ≥ 50 candles and the ATR is truthy; it is build_grid of the last close and the window's ATR, with a positive ATR, positive steps and the floor |
| GridBot.Visited | bot.py:117-153 | the grids after one pair's turn: a plain function; VisitSpec says it changes only that pair and leaves it holding exactly its outcome, OutcomeSpec says what that outcome is |
| GridBot.OutcomeSpec | bot.py:117-153 | after its turn, a pair holds a grid exactly when it held or built one and the price is inside the range; that grid has the same bounds and its orders stepped |
| GridBot.VisitSpec | bot.py:133-153 | a turn changes only its own pair, leaves it holding exactly its outcome, and books a gross profit ≥ 0 that is 0 when nothing closed |
| GridBot.OwnGridOnly | bot.py:117-118 | a pair's turn depends only on that pair's own entry |
| GridBot.TurnStep | bot.py:117 | settling pair i while touching no other pair keeps the state of the pass so far |
| GridBot.CreditedTurn | bot.py:149-151 | booking a turn credits exactly its pair's entry with the turn's profit and closes, creating it only when something closed, and touches no other pair |
| GridBot.TotalsStep | bot.py:146-147 | taking one more turn into the running totals adds exactly that turn's profit and closes |
| GridBot.PassDone | bot.py:117-153 | once every pair has had its turn, each pair holds its turn's grid and its statistics are credited with that turn |
| GridBot.TurnsPnlNonNegative | bot.py:141-153 | the summed gross profit of turns that are each ≥ 0 is ≥ 0 |
| GridBot.PassGains | bot.py:113-156 | on grids whose orders have exit > entry, one whole pass never lowers TOTAL_PNL |
| GridBot.Bot.constructor | bot.py:34-39 | no grids and an empty ledger over ACTIVE_PAIRS |
| GridBot.Bot.Visit | bot.py:117-153 | one pair's turn: the grids become its outcome (build if missing, retire when out of range, otherwise step); TOTAL_PNL and DEALS grow by the turn's gross profit and closes, which are credited to the pair's PAIR_STATS entry (created only when something closed); other pairs' entries are unchanged |
| GridBot.Bot.TakeTurn | bot.py:117-153 | taking pair i's turn extends the state of the pass by that pair and the totals by that turn's profit and closes |
| GridBot.Bot.StepGrid | bot.py:141-153 | the grid's orders are stepped; TOTAL_PNL and DEALS grow by the closed gross profit and count, and the pair's PAIR_STATS entry by the same (created only when something closed); no other entry changes |
| GridBot.Bot.Tick | bot.py:113-156 | after one pass, each pair holds exactly its turn's grid; grids are only for ACTIVE_PAIRS; each pair's PAIR_STATS entry is its old one credited with its turn's profit and closes, existing exactly when it existed or something closed; TOTAL_PNL and DEALS grow by exactly the sums of the turns |
| CenterStepper.Decide | main.py:99-117 | BUY exactly when price ≤ center − step; SELL exactly when price ≥ center + step (never both); the notional guard never fires (25 ≥ 5); a trade uses the full notional and moves at least a step from the centre |
| CenterStepper.Stepper.constructor | main.py:28-35 | stopped, paper mode, no deals, no centre, no price |
| CenterStepper.Stepper.Start | main.py:128-131 | running becomes true; nothing else changes |
| CenterStepper.Stepper.Stop | main.py:133-136 | running becomes false; nothing else changes |
| CenterStepper.Stepper.ToggleLive | main.py:138-141 | live is negated (so toggling twice restores it); nothing else changes |
| CenterStepper.Stepper.PlaceOrder | main.py:61-82 | an order is sent only in live mode |
| CenterStepper.Stepper.Tick | main.py:85-119 | a stopped tick changes nothing; a running tick records the price, then seeds the centre, trades (re-centre, one more deal, the order sent when live) or holds, as Decide says; orders sent never exceed deals |

## Left out

- Network and exchange I/O are not modelled: `get_klines`, `get_price`, and the signed POST in `place_order`. Their results are parameters of the model. `PlaceOrder` records the request in `sent`.
- `sign` (HMAC-SHA256 of RFC 2104) and `server_ip` are foreign library calls.
- `save_state` writes JSON, `time.time()` supplies uptime and timestamps, and `asyncio.sleep` with the endless `while True` only repeats the modelled pass. None of them is modelled.
- The web front ends (`web.py`, `api.py`, `app.py`) are presentation only.
- Floating-point rounding, `round(qty, 3)`, `float(...)` parsing and the formatting of reject reasons as strings (`f"ATR {atr_pct:.2f}% bad"`, rounded to two decimals) are not modelled. Arithmetic is exact, and `AtrPctBad` carries the exact percentage.
- Python's `set` order in `list(set(ACTIVE_PAIRS + AUTO_SELECTED_PAIRS))` is unspecified. `GridEngine.Engine.Tick` takes any duplicate-free sequence with exactly those members.
- The update-phase order over `ACTIVE_GRIDS` is modelled as arbitrary (`:|`), which is at least as general as dict order.
- Candle closes are required to be positive. The source divides by the last close and would crash on zero.
- GridBot.Bot.Tick requires a fetched price for every pair that holds a grid at its turn. bot.py indexes `kl[-1]` without a check and crashes on an empty fetch. The crash is not modelled.
- `get_klines` raises on a connection error or a body that is not JSON, and the exception ends the engine loop. The model has no such failure: every fetch yields a window, empty when the answer was not a list.
- CenterStepper.Decide and CenterStepper.Stepper.Tick require a positive price. main.py divides by the fetched price (`notional / price`) and raises on zero; that crash is not modelled.
- The model's grid record carries the ATR, as engine.py's does. bot.py's grid dict has no `atr` key. The field is never read in bot.py's logic.
- `MAX_GRIDS` in bot.py is declared but never read, so the bot's grid count is not capped.
- `analyze_pair`'s `side` is computed (`PairSelector.SideOf`) but nothing acts on it.
- `sum(data[:p]) / p` divides by `p` even when the window is shorter than `p`. `Ema` follows the source, and `EmaBounds` is stated only for windows of at least `p` values.
- PairSelector.SortByScore: sorting is proved to be an ordered permutation. Stability, meaning that ties keep scan order as in Python's `list.sort`, holds by construction but is not proved.
