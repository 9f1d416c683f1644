/**
 * The strategy simulator of backtest.py (`run_strategy`): one pass over the
 * daily bars from bar 200 on, buying all-in on a golden cross and selling
 * all-out on a death cross, then selling whatever is still held at the last
 * close.  Bars are indices, prices and cash are whole cents.
 *
 * The loop itself is the method `RunStrategy`; it is proved equal to the
 * functional specification `Backtest`, a fold (`Run`) of `BarStep` over the bars
 * followed by `Liquidate`, about which the lemmas in strategy_props.dfy speak.
 */
module Strategy {
  import opened Wrappers
  import opened Indicators

  /** The price frame after `do_sma_calcs`: closes and the two average columns. */
  datatype Frame = Frame(close: seq<int>, fastMA: seq<Option<real>>, slowMA: seq<Option<real>>)
  {
    /** Columns of one length, and prices a share can be bought at. */
    predicate Valid()
    {
      && |fastMA| == |close|
      && |slowMA| == |close|
      && forall i :: 0 <= i < |close| ==> close[i] > 0
    }
  }

  datatype Side = Buy | Sell

  /** One entry of the trade log: side, bar index, number of shares, unit price. */
  datatype Trade = Trade(side: Side, index: nat, quantity: int, price: int)

  /** The simulator's running state: cash, shares held and the trade log so far. */
  datatype Portfolio = Portfolio(cash: int, shares: int, trades: seq<Trade>)

  /** `do_sma_calcs`: add the 10-bar and 200-bar trailing means to the closes. */
  function DoSmaCalcs(close: seq<int>): (f: Frame)
    ensures f.close == close && |f.fastMA| == |close| && |f.slowMA| == |close|
    ensures (forall i :: 0 <= i < |close| ==> close[i] > 0) ==> f.Valid()
    ensures forall i :: 0 <= i < |close| ==>
      (f.fastMA[i].Some? <==> FastWindow <= i + 1) && (f.slowMA[i].Some? <==> SlowWindow <= i + 1)
  {
    Frame(close, RollingMean(close, FastWindow), RollingMean(close, SlowWindow))
  }

  // Comparisons of two average cells.  An undefined cell is NaN in the
  // source, and every comparison with NaN is false.

  predicate Above(a: Option<real>, b: Option<real>) { a.Some? && b.Some? && a.value > b.value }
  predicate Below(a: Option<real>, b: Option<real>) { a.Some? && b.Some? && a.value < b.value }
  predicate AtOrAbove(a: Option<real>, b: Option<real>) { a.Some? && b.Some? && a.value >= b.value }
  predicate AtOrBelow(a: Option<real>, b: Option<real>) { a.Some? && b.Some? && a.value <= b.value }

  /**
   * Fast average strictly above the slow one at `i`, at or below it at `i - 1`.
   * An undefined average at either bar rules a cross out, and a golden cross
   * is never also a death cross.
   */
  predicate GoldenCross(f: Frame, i: nat)
    requires f.Valid() && 1 <= i < |f.close|
    ensures GoldenCross(f, i) ==>
      f.fastMA[i].Some? && f.slowMA[i].Some? && f.fastMA[i - 1].Some? && f.slowMA[i - 1].Some?
    ensures GoldenCross(f, i) ==> !DeathCross(f, i)
  {
    Above(f.fastMA[i], f.slowMA[i]) && AtOrBelow(f.fastMA[i - 1], f.slowMA[i - 1])
  }

  /**
   * Fast average strictly below the slow one at `i`, at or above it at `i - 1`.
   * An undefined average at either bar rules a cross out.
   */
  predicate DeathCross(f: Frame, i: nat)
    requires f.Valid() && 1 <= i < |f.close|
    ensures DeathCross(f, i) ==>
      f.fastMA[i].Some? && f.slowMA[i].Some? && f.fastMA[i - 1].Some? && f.slowMA[i - 1].Some?
  {
    Below(f.fastMA[i], f.slowMA[i]) && AtOrAbove(f.fastMA[i - 1], f.slowMA[i - 1])
  }

  /**
   * The golden-cross branch: with any cash at all, buy as many whole shares
   * as it pays for.  What is left is less than one share's price, the value
   * at `price` is unchanged, and exactly one BUY is logged; without cash
   * nothing happens.
   */
  function BuyStep(p: Portfolio, i: nat, price: int): (r: Portfolio)
    requires price > 0
    ensures p.cash <= 0 ==> r == p
    ensures p.cash > 0 ==>
      && 0 <= r.cash < price
      && r.shares - p.shares == p.cash / price >= 0
      && r.trades == p.trades + [Trade(Buy, i, r.shares - p.shares, price)]
    ensures r.cash + r.shares * price == p.cash + p.shares * price
  {
    if p.cash > 0 then
      var shares := p.cash / price;
      Portfolio(p.cash - shares * price, p.shares + shares, p.trades + [Trade(Buy, i, shares, price)])
    else
      p
  }

  /**
   * The death-cross branch: with any shares at all, sell every one of them.
   * Afterwards nothing is held, the value at `price` is unchanged, and exactly
   * one SELL of the whole holding is logged; without shares nothing happens.
   */
  function SellStep(p: Portfolio, i: nat, price: int): (r: Portfolio)
    ensures p.shares <= 0 ==> r == p
    ensures p.shares > 0 ==> r.shares == 0 && r.trades == p.trades + [Trade(Sell, i, p.shares, price)]
    ensures r.cash + r.shares * price == p.cash + p.shares * price
  {
    if p.shares > 0 then
      Portfolio(p.cash + p.shares * price, 0, p.trades + [Trade(Sell, i, p.shares, price)])
    else
      p
  }

  /**
   * One iteration of the loop at bar `i`: the golden-cross check, then the
   * death-cross check.  Without a signal nothing changes; otherwise at most
   * one trade is appended, a BUY only on a golden cross with cash in hand and
   * a SELL only on a death cross with shares held; non-negative cash and
   * holding stay non-negative.
   */
  function BarStep(f: Frame, p: Portfolio, i: nat): (r: Portfolio)
    requires f.Valid() && 1 <= i < |f.close|
    ensures !GoldenCross(f, i) && !DeathCross(f, i) ==> r == p
    ensures |p.trades| <= |r.trades| <= |p.trades| + 1 && r.trades[..|p.trades|] == p.trades
    ensures |r.trades| > |p.trades| ==>
      || (r.trades[|p.trades|].side == Buy && GoldenCross(f, i) && p.cash > 0)
      || (r.trades[|p.trades|].side == Sell && DeathCross(f, i) && p.shares > 0)
    ensures p.cash >= 0 && p.shares >= 0 ==> r.cash >= 0 && r.shares >= 0
  {
    var afterBuy := if GoldenCross(f, i) then BuyStep(p, i, f.close[i]) else p;
    if DeathCross(f, i) then SellStep(afterBuy, i, f.close[i]) else afterBuy
  }

  /**
   * The loop from bar `i` to the last bar, starting in state `p`.  A holding
   * that starts non-negative stays so; cash that starts non-negative with
   * it stays so; and shares are held at the end only if they were held at
   * the start or some bar was visited.
   */
  function Run(f: Frame, p: Portfolio, i: nat): (r: Portfolio)
    requires f.Valid() && 1 <= i
    ensures p.shares >= 0 ==> r.shares >= 0
    ensures p.shares >= 0 && p.cash >= 0 ==> r.cash >= 0
    ensures r.shares > 0 ==> p.shares > 0 || i < |f.close|
    decreases |f.close| - i
  {
    if i >= |f.close| then p else Run(f, BarStep(f, p, i), i + 1)
  }

  /** The state before the first bar: the starting cash, no shares, no trades. */
  function Start(money: int): Portfolio
  {
    Portfolio(money, 0, [])
  }

  /**
   * After the loop: sell any remaining shares at the last bar's close.  A
   * non-negative holding ends at zero, value at the last close is unchanged,
   * and at most one SELL, at the last bar, is appended.
   */
  function Liquidate(f: Frame, p: Portfolio): (r: Portfolio)
    requires f.Valid() && (p.shares > 0 ==> |f.close| > 0)
    ensures p.shares <= 0 ==> r == p
    ensures p.shares > 0 ==>
      && r.shares == 0
      && r.trades == p.trades + [Trade(Sell, |f.close| - 1, p.shares, f.close[|f.close| - 1])]
    ensures |f.close| > 0 ==>
      r.cash + r.shares * f.close[|f.close| - 1] == p.cash + p.shares * f.close[|f.close| - 1]
  {
    if p.shares > 0 then
      var last := f.close[|f.close| - 1];
      Portfolio(p.cash + p.shares * last, 0, p.trades + [Trade(Sell, |f.close| - 1, p.shares, last)])
    else
      p
  }

  /**
   * `run_strategy` as a function: final cash and the trade log.  Starting
   * cash that is non-negative ends non-negative, and with no bar past the
   * slow window nothing is traded.
   */
  function Backtest(f: Frame, money: int): (r: (int, seq<Trade>))
    requires f.Valid()
    ensures money >= 0 ==> r.0 >= 0
    ensures |f.close| <= SlowWindow ==> r == (money, [])
  {
    var p := Liquidate(f, Run(f, Start(money), SlowWindow));
    (p.cash, p.trades)
  }

  /**
   * `run_strategy`: the loop over bars 200 .. n - 1 (empty when there are
   * fewer bars), updating cash, shares and the trade log in place, and the
   * final liquidation.
   */
  method RunStrategy(data: Frame, money: int) returns (cash: int, trades: seq<Trade>)
    requires data.Valid()
    ensures (cash, trades) == Backtest(data, money)
    ensures money >= 0 ==> cash >= 0
    ensures |data.close| <= SlowWindow ==> cash == money && trades == []
  {
    cash := money;
    var numShares := 0;
    trades := [];
    var n := |data.close|;
    var i := SlowWindow;
    while i < n
      invariant SlowWindow <= i && (i <= n || i == SlowWindow)
      invariant Run(data, Portfolio(cash, numShares, trades), i) == Run(data, Start(money), SlowWindow)
      invariant numShares >= 0 && (money >= 0 ==> cash >= 0)
    {
      var currentPrice := data.close[i];
      if Above(data.fastMA[i], data.slowMA[i]) && AtOrBelow(data.fastMA[i - 1], data.slowMA[i - 1]) {
        if cash > 0 {
          var shares := cash / currentPrice;
          var price := shares * currentPrice;
          cash := cash - price;
          numShares := numShares + shares;
          trades := trades + [Trade(Buy, i, shares, currentPrice)];
        }
      }
      if Below(data.fastMA[i], data.slowMA[i]) && AtOrAbove(data.fastMA[i - 1], data.slowMA[i - 1]) {
        if numShares > 0 {
          var moneyBack := numShares * currentPrice;
          cash := cash + moneyBack;
          trades := trades + [Trade(Sell, i, numShares, currentPrice)];
          numShares := 0;
        }
      }
      i := i + 1;
    }
    if numShares > 0 {
      var lastPrice := data.close[n - 1];
      var finalSale := numShares * lastPrice;
      cash := cash + finalSale;
      trades := trades + [Trade(Sell, n - 1, numShares, lastPrice)];
    }
  }
}
