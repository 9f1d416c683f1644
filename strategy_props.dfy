/**
 * What the crossover strategy of backtest.py promises, stated over the
 * functional specification `Backtest` in strategy.dfy (which the loop
 * `RunStrategy` is proved equal to).
 */
module StrategyProps {
  import opened Wrappers
  import opened Indicators
  import opened Strategy

  // ---------------------------------------------------------------------
  // The trade log read as a ledger
  // ---------------------------------------------------------------------

  /** Cash a trade moves: a BUY pays quantity * price, a SELL receives it. */
  function Flow(t: Trade): int
  {
    match t.side
    case Buy => -(t.quantity * t.price)
    case Sell => t.quantity * t.price
  }

  /** Shares a trade moves: a BUY adds its quantity, a SELL removes it. */
  function Delta(t: Trade): int
  {
    match t.side
    case Buy => t.quantity
    case Sell => -t.quantity
  }

  /** Net cash moved by a log. */
  function CashFlow(ts: seq<Trade>): int
  {
    if |ts| == 0 then 0 else CashFlow(ts[..|ts| - 1]) + Flow(ts[|ts| - 1])
  }

  /** Net shares held according to a log. */
  function Holding(ts: seq<Trade>): int
  {
    if |ts| == 0 then 0 else Holding(ts[..|ts| - 1]) + Delta(ts[|ts| - 1])
  }

  /** Mark-to-market value of a portfolio at a given price. */
  function Value(p: Portfolio, price: int): int
  {
    p.cash + p.shares * price
  }

  lemma AppendTrade(ts: seq<Trade>, t: Trade)
    ensures CashFlow(ts + [t]) == CashFlow(ts) + Flow(t)
    ensures Holding(ts + [t]) == Holding(ts) + Delta(t)
    ensures forall j :: 0 <= j <= |ts| ==> (ts + [t])[..j] == ts[..j]
  {
    assert (ts + [t])[..|ts|] == ts;
  }

  // ---------------------------------------------------------------------
  // One bar
  // ---------------------------------------------------------------------

  /**
   * A golden cross with cash in hand buys floor(cash / price) shares: it
   * never spends more than the cash there is, and what is left would not pay
   * for one more share.
   */
  lemma BuySpendsAtMostCash(f: Frame, p: Portfolio, i: nat)
    requires f.Valid() && 1 <= i < |f.close|
    requires GoldenCross(f, i) && p.cash > 0
    ensures var q := BarStep(f, p, i);
      && 0 <= q.cash < f.close[i]
      && q.shares - p.shares == p.cash / f.close[i] >= 0
      && q.trades == p.trades + [Trade(Buy, i, q.shares - p.shares, f.close[i])]
  {
  }

  /**
   * When the cash does not reach one share's price, a golden cross still
   * logs a BUY, of zero shares, and changes neither cash nor holding.
   */
  lemma ZeroQuantityBuyIsLogged(f: Frame, p: Portfolio, i: nat)
    requires f.Valid() && 1 <= i < |f.close|
    requires GoldenCross(f, i) && 0 < p.cash < f.close[i]
    ensures var q := BarStep(f, p, i);
      q.cash == p.cash && q.shares == p.shares && q.trades == p.trades + [Trade(Buy, i, 0, f.close[i])]
  {
  }

  /**
   * A death cross sells the whole holding when there is one, leaving no
   * shares, and logs nothing when there is none.
   */
  lemma SellEmptiesHolding(f: Frame, p: Portfolio, i: nat)
    requires f.Valid() && 1 <= i < |f.close|
    requires DeathCross(f, i) && p.shares >= 0
    ensures var q := BarStep(f, p, i);
      && q.shares == 0
      && (p.shares > 0 ==> q.trades == p.trades + [Trade(Sell, i, p.shares, f.close[i])])
      && (p.shares == 0 ==> q == p)
  {
  }

  /** A bar's buy or sell only swaps cash for shares at that bar's close. */
  lemma BarStepConservesValue(f: Frame, p: Portfolio, i: nat)
    requires f.Valid() && 1 <= i < |f.close|
    ensures Value(BarStep(f, p, i), f.close[i]) == Value(p, f.close[i])
  {
    var price := f.close[i];
    if GoldenCross(f, i) && p.cash > 0 {
      var n := p.cash / price;
      assert (p.shares + n) * price == p.shares * price + n * price;
    }
  }

  // ---------------------------------------------------------------------
  // The whole loop
  // ---------------------------------------------------------------------

  /**
   * Reading the log from its start: no trade has a negative quantity, the
   * holding the log implies never goes negative, and each SELL sells exactly
   * the shares held just before it.
   */
  predicate HoldingsSound(ts: seq<Trade>)
  {
    |ts| == 0 ||
    var before := ts[..|ts| - 1];
    var t := ts[|ts| - 1];
    && HoldingsSound(before)
    && t.quantity >= 0
    && Holding(ts) >= 0
    && (t.side == Sell ==> 0 < t.quantity == Holding(before))
  }

  /** `HoldingsSound` stated trade by trade. */
  lemma {:induction false} HoldingsSoundAt(ts: seq<Trade>, j: nat)
    requires HoldingsSound(ts) && j < |ts|
    ensures ts[j].quantity >= 0 && Holding(ts[..j + 1]) >= 0
    ensures ts[j].side == Sell ==> 0 < ts[j].quantity == Holding(ts[..j])
    decreases |ts|
  {
    var before := ts[..|ts| - 1];
    if j == |ts| - 1 {
      assert ts[..j + 1] == ts;
      assert ts[..j] == before;
    } else {
      HoldingsSoundAt(before, j);
      assert before[..j] == ts[..j];
      assert before[..j + 1] == ts[..j + 1];
    }
  }

  /**
   * Every trade of the log is at a bar from SlowWindow on and before `k`, at
   * that bar's close, on that bar's signal (a BUY on a golden cross, a SELL
   * on a death cross), and each trade's bar is strictly before the next one's.
   */
  predicate BarsInOrder(f: Frame, ts: seq<Trade>, k: nat)
    requires f.Valid()
  {
    |ts| == 0 ||
    var t := ts[|ts| - 1];
    && SlowWindow <= t.index < k && t.index < |f.close| && t.price == f.close[t.index]
    && OnSignal(f, t)
    && BarsInOrder(f, ts[..|ts| - 1], t.index)
  }

  /** A BUY at a golden cross, a SELL at a death cross. */
  predicate OnSignal(f: Frame, t: Trade)
    requires f.Valid() && 1 <= t.index < |f.close|
  {
    match t.side
    case Buy => GoldenCross(f, t.index)
    case Sell => DeathCross(f, t.index)
  }

  /** `BarsInOrder` stated trade by trade: at most one trade per bar, in bar order. */
  lemma {:induction false} BarsInOrderAt(f: Frame, ts: seq<Trade>, k: nat, j: nat)
    requires f.Valid() && BarsInOrder(f, ts, k) && j < |ts|
    ensures SlowWindow <= ts[j].index < k && ts[j].index < |f.close| && ts[j].price == f.close[ts[j].index]
    ensures OnSignal(f, ts[j])
    ensures forall l :: j < l < |ts| ==> ts[j].index < ts[l].index
    decreases |ts|
  {
    if j < |ts| - 1 {
      BarsInOrderAt(f, ts[..|ts| - 1], ts[|ts| - 1].index, j);
    }
  }

  /** The log the loop writes while visiting bars SlowWindow .. k - 1. */
  predicate LoopLog(f: Frame, ts: seq<Trade>, k: nat)
    requires f.Valid()
  {
    BarsInOrder(f, ts, k) && HoldingsSound(ts)
  }

  /** The loop's running state agrees with its log read as a ledger. */
  predicate Accounted(p: Portfolio, money: int)
  {
    p.cash == money + CashFlow(p.trades) && p.shares == Holding(p.trades)
  }

  /** Appending a trade at the newly visited bar keeps the log's shape. */
  lemma LoopLogAppend(f: Frame, ts: seq<Trade>, t: Trade, k: nat)
    requires f.Valid() && LoopLog(f, ts, k)
    requires SlowWindow <= t.index == k < |f.close| && t.price == f.close[k] && OnSignal(f, t)
    requires t.quantity >= 0 && Holding(ts) + Delta(t) >= 0
    requires t.side == Sell ==> 0 < t.quantity == Holding(ts)
    ensures LoopLog(f, ts + [t], k + 1)
  {
    AppendTrade(ts, t);
    assert (ts + [t])[..|ts|] == ts;
  }

  /** Appending a bar's trade keeps the log shaped and the state accounted. */
  lemma TradeKeepsLog(f: Frame, p: Portfolio, q: Portfolio, money: int, t: Trade)
    requires f.Valid() && SlowWindow <= t.index < |f.close| && t.price == f.close[t.index]
    requires OnSignal(f, t) && t.quantity >= 0
    requires t.side == Sell ==> 0 < t.quantity == p.shares
    requires LoopLog(f, p.trades, t.index) && Accounted(p, money) && p.shares >= 0
    requires q.trades == p.trades + [t] && q.cash == p.cash + Flow(t) && q.shares == p.shares + Delta(t)
    ensures LoopLog(f, q.trades, t.index + 1) && Accounted(q, money)
  {
    AppendTrade(p.trades, t);
    LoopLogAppend(f, p.trades, t, t.index);
  }

  /** One bar keeps the log shaped and the state accounted. */
  lemma BarStepKeepsLog(f: Frame, p: Portfolio, money: int, i: nat)
    requires f.Valid() && SlowWindow <= i < |f.close|
    requires LoopLog(f, p.trades, i) && Accounted(p, money) && p.shares >= 0
    ensures LoopLog(f, BarStep(f, p, i).trades, i + 1) && Accounted(BarStep(f, p, i), money)
  {
    var q := BarStep(f, p, i);
    var price := f.close[i];
    if GoldenCross(f, i) && p.cash > 0 {
      var t := Trade(Buy, i, p.cash / price, price);
      assert q == BuyStep(p, i, price);
      TradeKeepsLog(f, p, q, money, t);
    } else if DeathCross(f, i) && p.shares > 0 {
      var t := Trade(Sell, i, p.shares, price);
      assert q == SellStep(p, i, price);
      TradeKeepsLog(f, p, q, money, t);
    } else {
      assert q == p;
    }
  }

  /**
   * Running the loop from bar `i` keeps the log shaped and accounted, up to
   * the last bar.
   */
  lemma {:induction false} RunShape(f: Frame, money: int, p: Portfolio, i: nat)
    requires f.Valid() && SlowWindow <= i
    requires LoopLog(f, p.trades, i) && Accounted(p, money) && p.shares >= 0
    ensures LoopLog(f, Run(f, p, i).trades, |f.close|) && Accounted(Run(f, p, i), money)
    decreases |f.close| - i
  {
    if i < |f.close| {
      BarStepKeepsLog(f, p, money, i);
      RunShape(f, money, BarStep(f, p, i), i + 1);
    }
  }

  /** The log the loop hands to the closing sale is shaped and accounted. */
  lemma LoopShape(f: Frame, money: int)
    requires f.Valid()
    ensures var p := Run(f, Start(money), SlowWindow);
      LoopLog(f, p.trades, |f.close|) && Accounted(p, money) && p.shares >= 0
  {
    RunShape(f, money, Start(money), SlowWindow);
  }

  // ---------------------------------------------------------------------
  // The result of a backtest
  // ---------------------------------------------------------------------

  /**
   * No value is created or destroyed outside the recorded trades: the final
   * cash is the starting cash plus the net cash flow of the log, and the log
   * leaves no shares held.
   */
  lemma BacktestLedger(f: Frame, money: int)
    requires f.Valid()
    ensures var (cash, trades) := Backtest(f, money);
      cash == money + CashFlow(trades) && Holding(trades) == 0
  {
    var p := Run(f, Start(money), SlowWindow);
    LoopShape(f, money);
    if p.shares > 0 {
      AppendTrade(p.trades, Liquidate(f, p).trades[|p.trades|]);
    }
  }

  /**
   * The bars of the final log: every trade at a bar from SlowWindow on and at
   * that bar's close; every BUY on a golden cross; every SELL on a death cross
   * unless it is the log's last trade at the last bar (the closing sale);
   * bars non-decreasing; two trades share a bar only as the last pair, a BUY
   * at the last bar followed by the closing SELL.
   */
  ghost predicate FinalBars(f: Frame, ts: seq<Trade>)
    requires f.Valid()
  {
    && (forall j :: 0 <= j < |ts| ==>
          && SlowWindow <= ts[j].index < |f.close| && ts[j].price == f.close[ts[j].index]
          && (OnSignal(f, ts[j]) || (ts[j].side == Sell && j == |ts| - 1 && ts[j].index == |f.close| - 1)))
    && (forall j, l :: 0 <= j < l < |ts| ==> ts[j].index <= ts[l].index)
    && (forall j, l :: 0 <= j < l < |ts| && ts[j].index == ts[l].index ==>
          && l == |ts| - 1 && j == l - 1
          && ts[j].side == Buy && ts[l].side == Sell && ts[l].index == |f.close| - 1)
  }

  /** The shape of the final log: `FinalBars`, holdings sound and none left at the end. */
  ghost predicate FinalLog(f: Frame, ts: seq<Trade>)
    requires f.Valid()
  {
    FinalBars(f, ts) && HoldingsSound(ts) && Holding(ts) == 0
  }

  /** The loop's log alone: trades at distinct bars, in order. */
  lemma LoopLogIsFinal(f: Frame, money: int, p: Portfolio)
    requires f.Valid() && LoopLog(f, p.trades, |f.close|) && Accounted(p, money) && p.shares == 0
    ensures FinalLog(f, p.trades)
  {
    forall j | 0 <= j < |p.trades|
      ensures SlowWindow <= p.trades[j].index < |f.close| && p.trades[j].price == f.close[p.trades[j].index]
      ensures OnSignal(f, p.trades[j])
      ensures forall l :: j < l < |p.trades| ==> p.trades[j].index < p.trades[l].index
    {
      BarsInOrderAt(f, p.trades, |f.close|, j);
    }
  }

  /** Only a BUY at the last bar can share its bar with the closing SELL. */
  lemma ClosingSellSharesBarOnlyWithBuy(f: Frame, money: int, p: Portfolio, j: nat)
    requires f.Valid() && LoopLog(f, p.trades, |f.close|) && Accounted(p, money) && p.shares > 0
    requires j < |p.trades| && p.trades[j].index == |f.close| - 1
    ensures j == |p.trades| - 1 && p.trades[j].side == Buy
  {
    var last := |p.trades| - 1;
    BarsInOrderAt(f, p.trades, |f.close|, j);
    BarsInOrderAt(f, p.trades, |f.close|, last);
    // a SELL as the loop's last trade would have left nothing to liquidate
    assert p.trades[last].side == Sell ==> Holding(p.trades) == 0;
  }

  /** After the closing sale the bars of the log are as `FinalBars` says. */
  lemma ClosingSellKeepsBarOrder(f: Frame, money: int, p: Portfolio)
    requires f.Valid() && LoopLog(f, p.trades, |f.close|) && Accounted(p, money) && p.shares > 0
    ensures FinalBars(f, Liquidate(f, p).trades)
  {
    var ts := Liquidate(f, p).trades;
    var n := |f.close|;
    assert ts == p.trades + [Trade(Sell, n - 1, p.shares, f.close[n - 1])];
    forall j | 0 <= j < |p.trades|
      ensures SlowWindow <= ts[j].index < n && ts[j].price == f.close[ts[j].index]
      ensures OnSignal(f, ts[j])
      ensures forall l :: j < l < |p.trades| ==> ts[j].index < ts[l].index
      ensures ts[j].index == n - 1 ==> j == |ts| - 2 && ts[j].side == Buy
    {
      BarsInOrderAt(f, p.trades, n, j);
      if ts[j].index == n - 1 {
        ClosingSellSharesBarOnlyWithBuy(f, money, p, j);
      }
    }
  }

  /** After the closing sale the holdings are sound and nothing is held. */
  lemma ClosingSellEmptiesHolding(f: Frame, money: int, p: Portfolio)
    requires f.Valid() && LoopLog(f, p.trades, |f.close|) && Accounted(p, money) && p.shares > 0
    ensures HoldingsSound(Liquidate(f, p).trades) && Holding(Liquidate(f, p).trades) == 0
  {
    var t := Trade(Sell, |f.close| - 1, p.shares, f.close[|f.close| - 1]);
    assert Liquidate(f, p).trades == p.trades + [t];
    AppendTrade(p.trades, t);
  }

  /** The closing sale turns the loop's log into a final log. */
  lemma LiquidateFinishesLog(f: Frame, money: int, p: Portfolio)
    requires f.Valid() && LoopLog(f, p.trades, |f.close|) && Accounted(p, money) && p.shares >= 0
    ensures FinalLog(f, Liquidate(f, p).trades)
  {
    if p.shares > 0 {
      ClosingSellKeepsBarOrder(f, money, p);
      ClosingSellEmptiesHolding(f, money, p);
    } else {
      LoopLogIsFinal(f, money, p);
    }
  }

  /** The log a backtest returns is a final log. */
  lemma BacktestLog(f: Frame, money: int)
    requires f.Valid()
    ensures FinalLog(f, Backtest(f, money).1)
  {
    LoopShape(f, money);
    LiquidateFinishesLog(f, money, Run(f, Start(money), SlowWindow));
  }

  /** With no crossing at any bar from `i` on, the loop leaves the state as it found it. */
  lemma {:induction false} QuietRun(f: Frame, p: Portfolio, i: nat)
    requires f.Valid() && 1 <= i
    requires forall j :: i <= j < |f.close| ==> !GoldenCross(f, j) && !DeathCross(f, j)
    ensures Run(f, p, i) == p
    decreases |f.close| - i
  {
    if i < |f.close| {
      QuietRun(f, p, i + 1);
    }
  }

  /** A series on which neither signal ever fires ends with the starting cash and no trades. */
  lemma NoCrossNoTrades(f: Frame, money: int)
    requires f.Valid()
    requires forall i :: SlowWindow <= i < |f.close| ==> !GoldenCross(f, i) && !DeathCross(f, i)
    ensures Backtest(f, money) == (money, [])
  {
    QuietRun(f, Start(money), SlowWindow);
  }

  /** A flat price series never crosses, so it never trades. */
  lemma FlatSeriesNoTrades(close: seq<int>, c: int, money: int)
    requires c > 0 && forall k :: 0 <= k < |close| ==> close[k] == c
    ensures Backtest(DoSmaCalcs(close), money) == (money, [])
  {
    var f := DoSmaCalcs(close);
    forall i | SlowWindow <= i < |close| ensures !GoldenCross(f, i) && !DeathCross(f, i) {
      FlatSeriesMean(close, c, FastWindow, i);
      FlatSeriesMean(close, c, SlowWindow, i);
    }
    NoCrossNoTrades(f, money);
  }

  /**
   * A strictly rising series never trades: the fast average is already above
   * the slow one at bar 199, so it never crosses up, and never falls below.
   */
  lemma RisingSeriesNoTrades(close: seq<int>, money: int)
    requires forall k :: 0 <= k < |close| ==> close[k] > 0
    requires forall j, k :: 0 <= j < k < |close| ==> close[j] < close[k]
    ensures Backtest(DoSmaCalcs(close), money) == (money, [])
  {
    var f := DoSmaCalcs(close);
    forall i | SlowWindow <= i < |close| ensures !GoldenCross(f, i) && !DeathCross(f, i) {
      RisingSeriesFastAboveSlow(close, i);
      RisingSeriesFastAboveSlow(close, i - 1);
    }
    NoCrossNoTrades(f, money);
  }

  // ---------------------------------------------------------------------
  // The signals in terms of the closes
  // ---------------------------------------------------------------------

  /** Fast above (below) slow at bar i is 20 times the 10-bar sum above (below) the 200-bar sum. */
  lemma FastVersusSlow(close: seq<int>, i: nat)
    requires SlowWindow <= i + 1 <= |close|
    ensures var f := DoSmaCalcs(close);
      var fast := Sum(Window(close, FastWindow, i));
      var slow := Sum(Window(close, SlowWindow, i));
      && (f.fastMA[i].value > f.slowMA[i].value <==> 20 * fast > slow)
      && (f.fastMA[i].value < f.slowMA[i].value <==> 20 * fast < slow)
  {
    var fast := Sum(Window(close, FastWindow, i)) as real;
    var slow := Sum(Window(close, SlowWindow, i)) as real;
    assert DoSmaCalcs(close).fastMA[i].value == fast / 10.0;
    assert DoSmaCalcs(close).slowMA[i].value == slow / 200.0;
  }

  /**
   * On the frame `do_sma_calcs` builds, every cell the loop reads is defined,
   * and the crosses are statements about window sums of the closes.
   */
  lemma CrossesInCloses(close: seq<int>, i: nat)
    requires SlowWindow <= i < |close|
    requires forall k :: 0 <= k < |close| ==> close[k] > 0
    ensures var f := DoSmaCalcs(close);
      var fastNow := Sum(Window(close, FastWindow, i));
      var slowNow := Sum(Window(close, SlowWindow, i));
      var fastBefore := Sum(Window(close, FastWindow, i - 1));
      var slowBefore := Sum(Window(close, SlowWindow, i - 1));
      && (GoldenCross(f, i) <==> 20 * fastNow > slowNow && 20 * fastBefore <= slowBefore)
      && (DeathCross(f, i) <==> 20 * fastNow < slowNow && 20 * fastBefore >= slowBefore)
  {
    FastVersusSlow(close, i);
    FastVersusSlow(close, i - 1);
  }

  // ---------------------------------------------------------------------
  // A worked run
  // ---------------------------------------------------------------------

  /**
   * 200 closes at $1.00, then $1.01, $0.99, $1.01, $0.99, $1.01: the fast
   * average rises above the slow one at bars 200, 202 and 204 and falls back
   * onto it, never strictly below, at bars 201 and 203.
   */
  function ZigzagCloses(): (close: seq<int>)
    ensures |close| == 205
    ensures forall k :: 0 <= k < |close| ==> close[k] > 0
  {
    seq(205, k => if k < 200 then 100 else if k % 2 == 0 then 101 else 99)
  }

  /**
   * Moving either window of `ZigzagCloses` onto bar `i` drops a $1.00 close
   * and adds a $1.01 close at an even bar or a $0.99 close at an odd one.
   */
  lemma ZigzagSlide(i: nat)
    requires SlowWindow <= i < 205
    ensures var c := ZigzagCloses();
      var d := if i % 2 == 0 then 1 else -1;
      && Sum(Window(c, FastWindow, i)) == Sum(Window(c, FastWindow, i - 1)) + d
      && Sum(Window(c, SlowWindow, i)) == Sum(Window(c, SlowWindow, i - 1)) + d
  {
    var c := ZigzagCloses();
    WindowSumSlides(c, FastWindow, i);
    WindowSumSlides(c, SlowWindow, i);
    assert c[i - FastWindow] == 100 && c[i - SlowWindow] == 100;
    assert c[i] == if i % 2 == 0 then 101 else 99;
  }

  /** Both windows ending at bar 199 hold only $1.00 closes. */
  lemma ZigzagFlatStart()
    ensures var c := ZigzagCloses();
      Sum(Window(c, FastWindow, 199)) == 1000 && Sum(Window(c, SlowWindow, 199)) == 20000
  {
    var c := ZigzagCloses();
    var fast := Window(c, FastWindow, 199);
    var slow := Window(c, SlowWindow, 199);
    assert forall k :: 0 <= k < |fast| ==> fast[k] == c[190 + k] == 100;
    assert forall k :: 0 <= k < |slow| ==> slow[k] == c[k] == 100;
    SumBounds(fast, 100, 100);
    SumBounds(slow, 100, 100);
  }

  /** The 10-bar and 200-bar window sums of `ZigzagCloses` at bars 199 .. 204. */
  lemma ZigzagSums()
    ensures var c := ZigzagCloses();
      && Sum(Window(c, FastWindow, 199)) == 1000 && Sum(Window(c, SlowWindow, 199)) == 20000
      && Sum(Window(c, FastWindow, 200)) == 1001 && Sum(Window(c, SlowWindow, 200)) == 20001
      && Sum(Window(c, FastWindow, 201)) == 1000 && Sum(Window(c, SlowWindow, 201)) == 20000
      && Sum(Window(c, FastWindow, 202)) == 1001 && Sum(Window(c, SlowWindow, 202)) == 20001
      && Sum(Window(c, FastWindow, 203)) == 1000 && Sum(Window(c, SlowWindow, 203)) == 20000
      && Sum(Window(c, FastWindow, 204)) == 1001 && Sum(Window(c, SlowWindow, 204)) == 20001
  {
    ZigzagFlatStart();
    ZigzagSlide(200);
    ZigzagSlide(201);
    ZigzagSlide(202);
    ZigzagSlide(203);
    ZigzagSlide(204);
  }

  /**
   * On the averages `do_sma_calcs` computes from `ZigzagCloses`: golden
   * crosses at bars 200, 202 and 204, none at 201 or 203, and no death
   * cross at all.
   */
  lemma ZigzagSignals()
    ensures ThreeGoldenCrosses(DoSmaCalcs(ZigzagCloses()))
  {
    var c := ZigzagCloses();
    ZigzagSums();
    forall i | SlowWindow <= i < 205
      ensures var f := DoSmaCalcs(c);
        var fastNow := Sum(Window(c, FastWindow, i));
        var slowNow := Sum(Window(c, SlowWindow, i));
        var fastBefore := Sum(Window(c, FastWindow, i - 1));
        var slowBefore := Sum(Window(c, SlowWindow, i - 1));
        && (GoldenCross(f, i) <==> 20 * fastNow > slowNow && 20 * fastBefore <= slowBefore)
        && (DeathCross(f, i) <==> 20 * fastNow < slowNow && 20 * fastBefore >= slowBefore)
    {
      CrossesInCloses(c, i);
    }
  }

  /** The signals `ThreeGoldenCrossesRun` asks of a 205-bar frame. */
  predicate ThreeGoldenCrosses(f: Frame)
  {
    && f.Valid() && |f.close| == 205
    && f.close[200] == 101 && f.close[202] == 101 && f.close[204] == 101
    && GoldenCross(f, 200) && !DeathCross(f, 200)
    && !GoldenCross(f, 201) && !DeathCross(f, 201)
    && GoldenCross(f, 202) && !DeathCross(f, 202)
    && !GoldenCross(f, 203) && !DeathCross(f, 203)
    && GoldenCross(f, 204) && !DeathCross(f, 204)
  }

  /** The loop from bar `i` is the loop from bar `i + 1` after bar `i`'s step. */
  lemma RunBar(f: Frame, p: Portfolio, i: nat, q: Portfolio)
    requires f.Valid() && 1 <= i < |f.close| && BarStep(f, p, i) == q
    ensures Run(f, p, i) == Run(f, q, i + 1)
  {
  }

  /** Bars 200 .. 202 of such a frame from $1.50: BUY 1 at bar 200, nothing at 201, BUY 0 at 202. */
  lemma ThreeGoldenCrossesFirstBars(f: Frame)
    requires ThreeGoldenCrosses(f)
    ensures Run(f, Start(150), SlowWindow)
         == Run(f, Portfolio(49, 1, [Trade(Buy, 200, 1, 101), Trade(Buy, 202, 0, 101)]), 203)
  {
    var p0 := Start(150);
    var p1 := Portfolio(49, 1, [Trade(Buy, 200, 1, 101)]);
    var p3 := Portfolio(49, 1, [Trade(Buy, 200, 1, 101), Trade(Buy, 202, 0, 101)]);
    assert 150 / 101 == 1 && 49 / 101 == 0;
    assert BarStep(f, p0, 200) == BuyStep(p0, 200, 101) == p1;
    assert BarStep(f, p1, 201) == p1;
    assert BarStep(f, p1, 202) == BuyStep(p1, 202, 101) == p3;
    RunBar(f, p0, 200, p1);
    RunBar(f, p1, 201, p1);
    RunBar(f, p1, 202, p3);
  }

  /** Bars 203 and 204 of such a frame: nothing at 203, BUY 0 at 204, and the loop ends. */
  lemma ThreeGoldenCrossesLastBars(f: Frame)
    requires ThreeGoldenCrosses(f)
    ensures Run(f, Portfolio(49, 1, [Trade(Buy, 200, 1, 101), Trade(Buy, 202, 0, 101)]), 203)
         == Portfolio(49, 1, [Trade(Buy, 200, 1, 101), Trade(Buy, 202, 0, 101), Trade(Buy, 204, 0, 101)])
  {
    var p3 := Portfolio(49, 1, [Trade(Buy, 200, 1, 101), Trade(Buy, 202, 0, 101)]);
    var p5 := Portfolio(49, 1, [Trade(Buy, 200, 1, 101), Trade(Buy, 202, 0, 101), Trade(Buy, 204, 0, 101)]);
    assert 49 / 101 == 0;
    assert BarStep(f, p3, 203) == p3;
    assert BarStep(f, p3, 204) == BuyStep(p3, 204, 101) == p5;
    RunBar(f, p3, 203, p3);
    RunBar(f, p3, 204, p5);
    assert Run(f, p5, 205) == p5;
  }

  /**
   * Any 205-bar frame with golden crosses at bars 200, 202 and 204 at a
   * $1.01 close, and no other cross from bar 200 on: from $1.50 the
   * backtest buys 1 share at bar 200, logs BUYs of 0 shares at 202 and 204,
   * and sells the share at the closing sale.
   */
  lemma ThreeGoldenCrossesRun(f: Frame)
    requires ThreeGoldenCrosses(f)
    ensures Backtest(f, 150)
         == (150, [Trade(Buy, 200, 1, 101), Trade(Buy, 202, 0, 101), Trade(Buy, 204, 0, 101),
                   Trade(Sell, 204, 1, 101)])
  {
    ThreeGoldenCrossesFirstBars(f);
    ThreeGoldenCrossesLastBars(f);
    var p5 := Portfolio(49, 1, [Trade(Buy, 200, 1, 101), Trade(Buy, 202, 0, 101), Trade(Buy, 204, 0, 101)]);
    assert Liquidate(f, p5) == Portfolio(150, 0, p5.trades + [Trade(Sell, 204, 1, 101)]);
    assert p5.trades + [Trade(Sell, 204, 1, 101)]
        == [Trade(Buy, 200, 1, 101), Trade(Buy, 202, 0, 101), Trade(Buy, 204, 0, 101),
            Trade(Sell, 204, 1, 101)];
  }

  /**
   * A backtest of `ZigzagCloses` with $1.50 logs three BUYs (of 1, 0 and 0
   * shares) and one SELL, the closing sale: BUYs outnumber SELLs by two,
   * counting the closing sale, and zero-share BUYs are logged.
   */
  lemma ZigzagExample()
    ensures Backtest(DoSmaCalcs(ZigzagCloses()), 150)
         == (150, [Trade(Buy, 200, 1, 101), Trade(Buy, 202, 0, 101), Trade(Buy, 204, 0, 101),
                   Trade(Sell, 204, 1, 101)])
  {
    ZigzagSignals();
    ThreeGoldenCrossesRun(DoSmaCalcs(ZigzagCloses()));
  }
}
