# Moving-average crossover backtest, modelled in Dafny

This project models the core of a single-security backtester (`backtest.py`).
The backtester does two things:

- `do_sma_calcs` adds two trailing simple moving averages of the daily close to
  the price frame: a fast one over 10 bars and a slow one over 200 bars.
- `run_strategy` walks the bars once, from bar 200 to the last bar, keeping
  cash, a share count and a trade log.
  - A *golden cross* is fast strictly above slow now, and at or below it on the
    previous bar. When one happens and there is any cash, the strategy buys as
    many whole shares as the cash pays for.
  - A *death cross* is the mirror image. When one happens and shares are held,
    the strategy sells all of them.
  - After the last bar, any shares still held are sold at the last close.
  - It returns the final cash and the trade log.

Files:

- `wrappers.dfy`: `Option`. An undefined moving-average cell (pandas' NaN) is `None`.
- `indicators.dfy` (module `Indicators`): `Sum`, `Mean`, the trailing `Window`,
  and `RollingMean` (`rolling(window=w).mean()`), with lemmas about them:
  - the prefix-sum (sliding-sum) form of the same column;
  - bounds on a mean, and positivity of every defined mean of positive prices;
  - on a flat series every defined mean is the constant close;
  - on a strictly rising series the fast mean is above the slow one.
- `strategy.dfy` (module `Strategy`):
  - the frame, `Trade` and portfolio datatypes, and `DoSmaCalcs`;
  - the crossover predicates, and one loop iteration as a function (`BarStep`);
  - the loop as a forward fold (`Run`), the closing sale (`Liquidate`) and the
    whole run (`Backtest`);
  - `RunStrategy`, the imperative loop that updates cash, shares and the log
    step by step. It is proved equal to `Backtest`.
- `strategy_props.dfy` (module `StrategyProps`): what a run promises. This covers
  the trade log read as a ledger (cash flow and holding), value conservation at
  each bar, the buy and sell guards, the order of the log, the no-trade cases,
  and the crossover conditions restated over sums of closes.

Representation:

- Bars are indices `0 .. n-1`; dates are not modelled.
- Prices and cash are whole cents (`int`), and every close is positive. With cash
  and price both positive, `int(cash / current_price)` is exact floor division,
  which is Dafny's `/`.
- Moving averages are exact `real`s.
- Any comparison with an undefined cell is false, as any comparison with NaN is.
  So `run_strategy` is modelled on arbitrary average columns of the right
  length, and the link to the closes is `DoSmaCalcs`.
- Starting cash is a parameter `money`. The two windows are the constants
  `FastWindow = 10` and `SlowWindow = 200`.

Some consequences of the code that a reader of the strategy's one-line
description might not expect:

- A golden cross with positive cash logs a BUY even when the cash does not pay
  for one share. That BUY has quantity 0 and changes nothing else
  (`ZeroQuantityBuyIsLogged`).
- The number of BUYs minus the number of SELLs is not bounded by one, even
  counting the closing sale. A golden cross fires again when the fast average
  touches the slow one and rises again without falling strictly below it. 200
  closes at $1.00 followed by $1.01, $0.99, $1.01, $0.99, $1.01, averaged as
  `do_sma_calcs` does, give golden crosses at bars 200, 202 and 204 and no
  death cross. Starting from $1.50, the log is BUY 1, BUY 0, BUY 0 and the
  closing SELL 1 (`ZigzagExample`).
- A series of 201 closes rising by a dollar a day makes no trade at all. On any
  strictly rising series the fast average is already above the slow one at bar
  199, so it never crosses (`RisingSeriesNoTrades`).
- A loop SELL and the closing SELL never share a bar. The closing sale only runs
  when shares remain, and a loop SELL leaves none (`BacktestLog`).

## Model

| member | source | states |
|---|---|---|
| `Indicators.RollingMean` | backtest.py:15-16 | the rolling column has one cell per bar, defined exactly at the bars with at least `w` bars up to and including them |
| `Indicators.RollingMeanByPrefixSums` | backtest.py:15-16 | each defined cell equals the difference of two prefix sums of the closes divided by `w` (the O(1)-per-bar sliding-sum definition of the same mean) |
| `Indicators.WindowSumSlides` | backtest.py:15-16 | moving a window one bar on adds the new close and drops the oldest one |
| `Indicators.MeanBounds` | backtest.py:15-16 | a mean lies between any lower and upper bound of the closes it averages |
| `Indicators.RollingMeanPositive` | backtest.py:15-16 | every defined moving average of positive closes is positive |
| `Indicators.FlatSeriesMean` | backtest.py:15-16 | on a constant series every defined moving average equals the constant |
| `Indicators.RisingSeriesFastAboveSlow` | backtest.py:15-16 | on a strictly rising series the 10-bar mean is strictly above the 200-bar mean at every bar from 199 on |
| `Strategy.DoSmaCalcs` | backtest.py:14-17 | the frame keeps the closes; fastMA is defined exactly from bar 9 and slowMA exactly from bar 199, so every cell the loop reads (bars `i` and `i-1`, `i >= 200`) is defined; positive closes give a valid frame |
| `Strategy.Frame.Valid` | backtest.py:14-30 | the frame the loop reads: one fast and one slow average cell per close, and every close positive, so the `cash / current_price` at line 30 is a division by a positive price |
| `Strategy.GoldenCross` | backtest.py:28 | fast strictly above slow at bar `i` and at or below it at `i-1`; it holds only when all four cells are defined (a NaN cell makes every comparison false), and it never holds together with a death cross |
| `Strategy.DeathCross` | backtest.py:37 | fast strictly below slow at bar `i` and at or above it at `i-1`; it holds only when all four cells are defined |
| `Strategy.BuyStep` | backtest.py:29-34 | with positive cash, buys `cash / price` whole shares, leaving `0 <= cash < price`, and logs exactly that BUY (quantity possibly 0); cash plus holding at `price` is unchanged; without cash nothing changes |
| `Strategy.SellStep` | backtest.py:38-42 | with shares held, sells all of them, leaving none, and logs exactly that SELL; cash plus holding at `price` is unchanged; without shares nothing changes |
| `Strategy.BarStep` | backtest.py:26-42 | one loop iteration: without a signal nothing changes; otherwise at most one trade is appended and earlier ones are kept; a new BUY only on a golden cross with positive cash, a new SELL only on a death cross with shares held; non-negative cash and holding stay non-negative |
| `Strategy.Run` | backtest.py:25-42 | the loop never makes the holding negative; it never makes cash negative when cash starts non-negative; it ends holding shares only if shares were held at the start or some bar was visited |
| `Strategy.Liquidate` | backtest.py:45-48 | with shares left, sells all of them at the last close, leaving none, and appends that one SELL at the last bar; cash plus holding at the last close is unchanged; with none left nothing changes |
| `Strategy.Backtest` | backtest.py:19-50 | the whole run (loop from bar 200, then the closing sale) as a function of the frame and the starting cash; non-negative starting cash ends non-negative; with 200 bars or fewer the result is the starting cash and an empty log |
| `Strategy.RunStrategy` | backtest.py:19-50 | the imperative loop and closing sale return exactly `Backtest`'s cash and log; the loop keeps the holding non-negative, and cash non-negative when it starts so, at every bar; with non-negative starting cash the final cash is non-negative; with 200 bars or fewer the result is the starting cash and an empty log |
| `StrategyProps.BuySpendsAtMostCash` | backtest.py:28-34 | a golden cross with positive cash buys `cash / price` shares at that bar's close, leaves `0 <= cash < price`, and logs exactly that BUY |
| `StrategyProps.ZeroQuantityBuyIsLogged` | backtest.py:29-34 | with `0 < cash < price` a golden cross logs a BUY of 0 shares and leaves cash and holding unchanged |
| `StrategyProps.SellEmptiesHolding` | backtest.py:37-42 | a death cross with shares held logs a SELL of the whole holding at that bar's close and leaves none; with no shares it changes nothing |
| `StrategyProps.BarStepConservesValue` | backtest.py:28-42 | cash plus holding valued at the bar's close is the same before and after the bar |
| `StrategyProps.HoldingsSoundAt` | backtest.py:29-48 | in a sound log every trade has a non-negative quantity, the holding after each trade is non-negative, and each SELL sells exactly the shares held before it |
| `StrategyProps.BarsInOrderAt` | backtest.py:25-41 | in the loop's log every trade is at a visited bar, at that bar's close and on that bar's signal (a BUY on a golden cross, a SELL on a death cross), and trade bars are strictly increasing |
| `StrategyProps.BarStepKeepsLog` | backtest.py:25-42 | one bar keeps the log ordered and sound, and keeps cash and shares equal to what the log implies |
| `StrategyProps.RunShape` | backtest.py:25-42 | the rest of the loop keeps the log ordered and sound and the state accounted for by the log |
| `StrategyProps.LoopShape` | backtest.py:20-42 | from the starting state the loop ends with an ordered, sound log, cash equal to starting cash plus the log's net cash flow, and the log's holding |
| `StrategyProps.BacktestLedger` | backtest.py:19-50 | final cash equals starting cash plus the net cash flow of the returned log, and the log nets to zero shares |
| `StrategyProps.ClosingSellSharesBarOnlyWithBuy` | backtest.py:41-48 | when shares remain for the closing sale, a loop trade at the last bar can only be the last loop trade and a BUY |
| `StrategyProps.LiquidateFinishesLog` | backtest.py:45-48 | the closing sale turns the loop's log into a final log (see `BacktestLog`) |
| `StrategyProps.BacktestLog` | backtest.py:25-50 | in the returned log every trade is at a bar from 200 on and at that bar's close; every BUY is on a golden cross and every SELL on a death cross, except a closing SELL as the last trade at the last bar; bars are non-decreasing; two trades share a bar only as the final pair, a BUY then the closing SELL at the last bar; holdings are sound and end at zero |
| `StrategyProps.QuietRun` | backtest.py:25-42 | with no cross at any remaining bar the loop leaves the state unchanged |
| `StrategyProps.NoCrossNoTrades` | backtest.py:19-50 | a frame with no cross at any bar from 200 on returns the starting cash and an empty log |
| `StrategyProps.FlatSeriesNoTrades` | backtest.py:15-42 | a constant close series never trades |
| `StrategyProps.RisingSeriesNoTrades` | backtest.py:15-42 | a strictly rising close series never trades |
| `StrategyProps.FastVersusSlow` | backtest.py:15-16 | fast above (below) slow at a bar is 20 times the 10-bar sum above (below) the 200-bar sum |
| `StrategyProps.CrossesInCloses` | backtest.py:15-37 | on the computed frame, a golden (death) cross at bar `i` is exactly a strict rise (fall) of 20 times the 10-bar sum over the 200-bar sum at `i`, after being at or below (at or above) it at `i-1` |
| `StrategyProps.ZigzagSignals` | backtest.py:14-37 | on the averages computed from 200 closes of 100 cents followed by 101, 99, 101, 99, 101, golden crosses fall at bars 200, 202 and 204, none at 201 or 203, and there is no death cross |
| `StrategyProps.ThreeGoldenCrossesRun` | backtest.py:19-50 | on any 205-bar frame with golden crosses at bars 200, 202 and 204 at a 101-cent close and no other cross from bar 200 on, a backtest from 150 cents returns 150 cents and the log BUY 1, BUY 0, BUY 0, closing SELL 1 |
| `StrategyProps.ZigzagExample` | backtest.py:14-50 | the full pipeline on those closes (averages, loop, closing sale) returns 150 cents and three BUYs against one SELL, so BUYs can outnumber SELLs by two even counting the closing sale |

## Left out

- `download_stock_data` (backtest.py:11-12) fetches data over the network. Its result is the input sequence of closes.
- `make_plot` (backtest.py:52-74) only renders a chart. Its BUY/SELL filter loops exist only to feed the scatter calls.
- The module-level driver and the printed summary (backtest.py:77-86) are I/O and 2-decimal float formatting.
- Floating point is not modelled. Prices and cash are exact whole cents and averages are exact reals. Float rounding changes outcomes, not just last digits, in three ways:
  - `int(cash / current_price)` at line 30 truncates, so a quotient rounded just below a whole number loses a whole share. In doubles `1765.32 / 37.56` is 46.99999999999999, so the source buys 46 shares and keeps 37.56, where the exact model buys 47 and keeps 0. At the next golden cross the source then logs a BUY and the model logs nothing.
  - `cash - price` at line 32 can go slightly negative: in doubles `3636.72 - 12 * 303.06` is about -4.5e-13. So the non-negative-cash guarantees of `Strategy.Run`, `Strategy.Backtest` and `Strategy.RunStrategy` (and the solvency clause of `Strategy.BarStep`) hold for exact arithmetic only.
  - When the two averages nearly touch, rounding in the rolling means can make a cross appear or vanish. The signals of `Strategy.GoldenCross` and `Strategy.DeathCross`, and every theorem about which trades happen, are about the exact averages.
- NaN is modelled only through comparisons. An undefined average is `None`, and every comparison with it is false.
- Pandas frames, date indexes and the `Open`/`High`/`Low`/`Volume` columns are left out. Bars are integer indices, and a trade's date is its bar index.
- The global symbol, date range and starting cash (backtest.py:6-9) are not modelled as globals. Starting cash is the parameter `money`, and the symbol and dates belong to the fetch.
- Every close must be positive (`Frame.Valid`), so frames with a zero or negative close are not modelled at all. In the source a zero close fails only when a golden cross falls on it with positive cash: `cash / current_price` on a float64 close is then infinity (numpy warns rather than raising), and `int(...)` at line 30 raises `OverflowError`. A zero close anywhere else runs to completion (a death cross there sells at price 0, and a zero last close makes the closing sale worth nothing). Those completing runs are excluded from the model too.
