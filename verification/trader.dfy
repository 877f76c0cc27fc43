/**
 * The automatic trader of AetherTrader.java: the trading-state enum, the
 * decision `doAction` takes on each tick, the reading of a trading state
 * off the wallet's balances, the id search of `getOrder`, and the object
 * that ties the market history, the wallet and the trader's own fields
 * together in `doNextAutoTrade`.
 */
module Trader {
  import opened Wrappers
  import Market
  import History
  import Wallet

  /**
   * Where the account's value sits. Expected progression:
   * HoldIn -> Long -> HoldOut -> Short -> HoldIn.
   */
  datatype TradingState = HoldIn | Long | HoldOut | Short | Unknown

  /** `PROFIT_MARGIN`: the offset of a limit order from the entry price. */
  const ProfitMargin: real := 0.015

  /** The value of `priceAtLastTransaction` before the first transaction. */
  const NoPrice: real := -1.0

  /** What `calculatePercentChange` returns when it has no data. */
  const NoSample: real := -999.0

  /** `MARKET_HISTORY_LENGTH`: the capacity of the market history. */
  const MarketHistoryLength: int := 20

  /** The BTC and EUR a trading session starts its test wallet with. */
  const StartBtc: real := 0.00338066
  const StartEur: real := 0.0

  /** The test wallet a trading session starts from: all in BTC, nothing reserved. */
  function StartLedger(): (l: Wallet.Ledger)
    ensures AllIn(l)
  {
    Wallet.Ledger(StartBtc, StartBtc, StartEur, StartEur, [], 0, 0, 0, 0)
  }

  /** What one tick asks of the wallet. */
  datatype Action =
    | Hold
    | PlaceSellLimit(amount: real, price: real)
    | PlaceBuyLimit(amount: real, price: real)
    | PlaceSellInstant(amount: real)
    | PlaceBuyInstant(amount: real)
    | CancelOrder(id: int)

  /** The state `doAction` returns, the entry price it leaves, and the request it makes. */
  datatype Decision = Decision(next: TradingState, entry: real, action: Action)

  /** The entry price a tick works with: the sentinel stands for the current price. */
  function Resolve(entry: real, last: real): real
  {
    if entry == NoPrice then last else entry
  }

  predicate PlacesLimit(a: Action) { a.PlaceSellLimit? || a.PlaceBuyLimit? }

  // ---------------------------------------------------------------- doAction

  /**
   * `doAction` as a step. `trend` is the prediction, `last` the price read
   * first, `recheck` the price read again in a Long or Short position,
   * `openOrders` whether the open-orders read succeeded and found orders,
   * and `cancelOk` whether a cancellation of `lastOrderId` would succeed.
   * The guards on the price in HoldIn and HoldOut are absent, and a
   * successful cancellation is followed by no further order.
   */
  function Step(state: TradingState, trend: Market.Trend, last: real, recheck: real, entry: real,
                btcAvailable: real, eurAvailable: real, lastOrderId: int,
                openOrders: Option<bool>, cancelOk: bool): Decision
  {
    var e := Resolve(entry, last);
    match state
    case HoldIn =>
      if trend.Up? then Decision(Long, last, PlaceSellLimit(btcAvailable, last * (1.0 + ProfitMargin)))
      else if trend.Down? then Decision(HoldOut, e, PlaceSellInstant(btcAvailable))
      else Decision(HoldIn, e, Hold)
    case Long =>
      (match openOrders
       case None => Decision(Unknown, e, Hold)
       case Some(open) =>
         if !open then Decision(HoldOut, e, Hold)
         else if trend.Down? && recheck < e * (1.0 - ProfitMargin) then
           Decision(if cancelOk then HoldIn else Long, e, CancelOrder(lastOrderId))
         else Decision(Long, e, Hold))
    case HoldOut =>
      if trend.Down? then Decision(Short, last, PlaceBuyLimit(btcAvailable, last * (1.0 - ProfitMargin)))
      else if trend.Up? then Decision(HoldIn, e, PlaceBuyInstant(eurAvailable))
      else Decision(HoldOut, e, Hold)
    case Short =>
      (match openOrders
       case None => Decision(Unknown, e, Hold)
       case Some(open) =>
         if !open then Decision(HoldIn, e, Hold)
         else if trend.Up? && recheck > e * (1.0 + ProfitMargin) then
           Decision(if cancelOk then HoldOut else Short, e, CancelOrder(lastOrderId))
         else Decision(Short, e, Hold))
    case Unknown => Decision(Unknown, e, Hold)
  }

  /** The properties `doAction` promises of its decision `d`. */
  predicate DecisionMeaning(d: Decision, state: TradingState, trend: Market.Trend, last: real, recheck: real, entry: real,
                            btcAvailable: real, eurAvailable: real, lastOrderId: int,
                            openOrders: Option<bool>, cancelOk: bool)
  {
    // Unknown is reached only from Unknown or a failed read in a position, and it is absorbing.
    && (d.next == Unknown <==>
          state == Unknown || ((state == Long || state == Short) && openOrders.None?))
    && (state == Unknown ==> d.action == Hold)
    // A cancellation is made only in a position with open orders, when the trend turns
    // against it and the rechecked price has moved past the margin.
    && (d.action.CancelOrder? <==>
          && openOrders == Some(true)
          && ((state == Long && trend.Down? && recheck < Resolve(entry, last) * (1.0 - ProfitMargin)) ||
              (state == Short && trend.Up? && recheck > Resolve(entry, last) * (1.0 + ProfitMargin))))
    && (d.action.CancelOrder? ==>
          && d.action.id == lastOrderId
          && d.next == (if !cancelOk then state else if state == Long then HoldIn else HoldOut))
    // An executed limit order closes the position.
    && ((state == Long || state == Short) && openOrders == Some(false) ==>
          d.action == Hold && d.next == (if state == Long then HoldOut else HoldIn))
    // Only HoldIn sells and only HoldOut buys, and only when the trend is not flat.
    && ((d.action.PlaceSellLimit? || d.action.PlaceSellInstant?) <==> state == HoldIn && !trend.Flat?)
    && ((d.action.PlaceBuyLimit? || d.action.PlaceBuyInstant?) <==> state == HoldOut && !trend.Flat?)
    && (PlacesLimit(d.action) <==>
          (state == HoldIn && trend.Up?) || (state == HoldOut && trend.Down?))
    // What is placed, and where it leads.
    && (d.action.PlaceSellLimit? ==> d.action == PlaceSellLimit(btcAvailable, last * (1.0 + ProfitMargin)) && d.next == Long)
    && (d.action.PlaceBuyLimit? ==> d.action == PlaceBuyLimit(btcAvailable, last * (1.0 - ProfitMargin)) && d.next == Short)
    && (d.action.PlaceSellInstant? ==> d.action == PlaceSellInstant(btcAvailable) && d.next == HoldOut)
    && (d.action.PlaceBuyInstant? ==> d.action == PlaceBuyInstant(eurAvailable) && d.next == HoldIn)
    // A flat trend changes nothing while holding.
    && ((state == HoldIn || state == HoldOut) && trend.Flat? ==> d.action == Hold && d.next == state)
    // Opening a position records the current price as the entry; otherwise the sentinel is resolved.
    && (d.entry == if PlacesLimit(d.action) then last else Resolve(entry, last))
  }

  /**
   * What a step decides: when it gives up to Unknown, when it cancels and
   * where a cancellation leads, who buys and who sells, what is placed at
   * which price, and which entry price it leaves.
   */
  lemma StepDecides(state: TradingState, trend: Market.Trend, last: real, recheck: real, entry: real,
                    btcAvailable: real, eurAvailable: real, lastOrderId: int,
                    openOrders: Option<bool>, cancelOk: bool)
    ensures var d := Step(state, trend, last, recheck, entry, btcAvailable, eurAvailable, lastOrderId, openOrders, cancelOk);
      DecisionMeaning(d, state, trend, last, recheck, entry, btcAvailable, eurAvailable, lastOrderId, openOrders, cancelOk)
  {
  }

  /** The successor of each state in the expected progression. */
  function Successor(s: TradingState): TradingState
  {
    match s
    case HoldIn => Long
    case Long => HoldOut
    case HoldOut => Short
    case Short => HoldIn
    case Unknown => Unknown
  }

  /**
   * A step stays put, follows the progression, skips the position by an
   * instant order, steps back out of a position by cancelling it, or gives
   * up to Unknown; it never jumps between the two positions.
   */
  lemma StepFollowsProgression(state: TradingState, trend: Market.Trend, last: real, recheck: real, entry: real,
                               btcAvailable: real, eurAvailable: real, lastOrderId: int,
                               openOrders: Option<bool>, cancelOk: bool)
    ensures var d := Step(state, trend, last, recheck, entry, btcAvailable, eurAvailable, lastOrderId, openOrders, cancelOk);
      && (d.next == state || d.next == Unknown || d.next == Successor(state)
          || ((d.action.PlaceSellInstant? || d.action.PlaceBuyInstant?) && d.next == Successor(Successor(state)))
          || (d.action.CancelOrder? && Successor(d.next) == state))
      && (state == Long ==> d.next != Short)
      && (state == Short ==> d.next != Long)
  {
  }

  // ---------------------------------------------------------- getTradingState

  function Abs(x: real): real { if x < 0.0 then -x else x }

  /**
   * `getTradingState`, given the shares of the value held in BTC and in
   * EUR. An even split is Unknown; otherwise the larger raw balance (BTC
   * amount against EUR amount) picks the side, and a reservation on that
   * side marks the position.
   */
  function GetTradingState(fracBtc: real, fracEur: real, btcBal: real, btcAvail: real,
                           eurBal: real, eurAvail: real): (s: TradingState)
    ensures s == Unknown <==> Abs(fracBtc - fracEur) <= 0.9
    ensures (s == Long || s == HoldIn) <==> s != Unknown && btcBal > eurBal
    ensures s == Long ==> btcBal > btcAvail
    ensures s == HoldIn ==> btcBal <= btcAvail
    ensures s == Short ==> eurBal > eurAvail
    ensures s == HoldOut ==> eurBal <= eurAvail
  {
    if Abs(fracBtc - fracEur) <= 0.9 then Unknown
    else if btcBal > eurBal then (if btcBal > btcAvail then Long else HoldIn)
    else if eurBal > eurAvail then Short
    else HoldOut
  }

  /** `getTradingState` on a wallet, with the shares taken exactly at the price `last`. */
  function ReadTradingState(l: Wallet.Ledger, last: real): TradingState
    requires Wallet.Value(l, last) != 0.0
  {
    var v := Wallet.Value(l, last);
    GetTradingState(l.btcBalance * last / v, l.eurBalance / v,
                    l.btcBalance, l.btcAvailable, l.eurBalance, l.eurAvailable)
  }

  lemma ScaleMonotone(x: real, y: real, v: real)
    requires v > 0.0
    ensures x <= y <==> x * v <= y * v
  {
    assert (y - x) * v == y * v - x * v;
    if x <= y {
      assert (y - x) * v >= 0.0;
    } else {
      assert (x - y) * v > 0.0;
    }
  }

  /** Shares of a positive whole that add up to it: their difference is small exactly between 5% and 95%. */
  lemma SharesSplit(b: real, e: real, v: real)
    requires v > 0.0 && b + e == v
    ensures Abs(b / v - e / v) <= 0.9 <==> 0.05 * v <= b <= 0.95 * v
  {
    var fb := b / v;
    var fe := e / v;
    assert fb * v == b && fe * v == e;
    assert (fb + fe - 1.0) * v == 0.0;
    assert fb + fe == 1.0;
    ScaleMonotone(0.05, fb, v);
    ScaleMonotone(fb, 0.95, v);
  }

  /**
   * The split test of `getTradingState`: the state is Unknown exactly when
   * between 5% and 95% of the value is held in BTC.
   */
  lemma UnknownMeansEvenSplit(l: Wallet.Ledger, last: real)
    requires Wallet.Value(l, last) > 0.0
    ensures var v := Wallet.Value(l, last);
      ReadTradingState(l, last) == Unknown <==> 0.05 * v <= l.btcBalance * last <= 0.95 * v
  {
    SharesSplit(l.btcBalance * last, l.eurBalance, Wallet.Value(l, last));
  }

  /**
   * While balances and reservations agree, the position `getTradingState`
   * reports is a pending order: Long exactly when a sell of a positive
   * amount is pending on the BTC side, Short exactly when a buy of positive
   * cost is pending on the EUR side.
   */
  lemma PositionMeansPendingOrder(l: Wallet.Ledger, last: real)
    requires Wallet.WellFormed(l) && Wallet.Balanced(l) && Wallet.Value(l, last) != 0.0
    ensures var s := ReadTradingState(l, last);
      && (s == Long <==>
            && s != Unknown && l.btcBalance > l.eurBalance
            && exists j :: 0 <= j < |l.orders| && l.orders[j].kind == Wallet.Sell && l.orders[j].amount > 0.0)
      && (s == Short <==>
            && s != Unknown && l.btcBalance <= l.eurBalance
            && exists j :: 0 <= j < |l.orders| && l.orders[j].kind == Wallet.Buy && l.orders[j].amount * l.orders[j].price > 0.0)
  {
    Wallet.ReservedBtcPositive(l.orders);
    Wallet.ReservedEurPositive(l.orders);
  }

  // ---------------------------------------------------------------- getOrder

  /** What `getOrder` returns: the order, "no order with id", or the failed read itself. */
  datatype Lookup = Found(order: Wallet.Order) | NoSuchOrder | ReadFailed

  /** `getOrder`: the first open order with this id. `None` is a failed open-orders read. */
  method GetOrder(openOrders: Option<seq<Wallet.Order>>, id: int) returns (r: Lookup)
    ensures openOrders.None? <==> r == ReadFailed
    ensures openOrders.Some? ==>
      var i := Wallet.IndexOfId(openOrders.value, id);
      r == if i == -1 then NoSuchOrder else Found(openOrders.value[i])
    ensures r.Found? ==> r.order.id == id
  {
    if openOrders.None? {
      return ReadFailed;
    }
    var orders := openOrders.value;
    var k := 0;
    while k < |orders|
      invariant 0 <= k <= |orders|
      invariant forall j :: 0 <= j < k ==> orders[j].id != id
    {
      if orders[k].id == id {
        return Found(orders[k]);
      }
      k := k + 1;
    }
    return NoSuchOrder;
  }

  // ------------------------------------------------------------------- ticks

  /** The wallet after a request, the order a placement returned, and whether a cancellation succeeded. */
  datatype Performed = Performed(ledger: Wallet.Ledger, placed: Option<Wallet.Order>, cancelled: bool)

  function AfterPlacing(p: Wallet.Placing): Performed
  {
    Performed(p.ledger, if p.result.Placed? then Some(p.result.order) else None, false)
  }

  /** The wallet carrying out a request at the market price `last`. */
  function Perform(l: Wallet.Ledger, a: Action, last: real): Performed
    requires last > 0.0
  {
    match a
    case Hold => Performed(l, None, false)
    case PlaceSellLimit(amt, price) => AfterPlacing(Wallet.SellLimit(l, amt, price))
    case PlaceBuyLimit(amt, price) => AfterPlacing(Wallet.BuyLimit(l, amt, price))
    case PlaceSellInstant(amt) => AfterPlacing(Wallet.SellInstant(l, amt, last))
    case PlaceBuyInstant(amt) => AfterPlacing(Wallet.BuyInstant(l, amt, last))
    case CancelOrder(id) =>
      var c := Wallet.Cancel(l, id);
      Performed(c.ledger, None, c.result.Some?)
  }

  /** The trader's own fields: `tradingState`, `marketState`, `priceAtLastTransaction`, `lastOrderID`. */
  datatype Trader = Trader(state: TradingState, market: Market.MarketState, entry: real, lastOrderId: int)

  /** Everything one tick reads and writes. */
  datatype World = World(trader: Trader, history: seq<Market.MarketState>, wallet: Wallet.Ledger)

  /** The trader's fields and the wallet after `doAction`. */
  datatype Outcome = Outcome(trader: Trader, wallet: Wallet.Ledger)

  /**
   * `doAction` for the predicted `trend`. The wallet answers the
   * open-orders read with its pending list, and it is the wallet's own
   * cancellation that decides the next state.
   */
  function Act(t: Trader, trend: Market.Trend, l: Wallet.Ledger, last: real, recheck: real): (o: Outcome)
    requires last > 0.0
  {
    var d := Step(t.state, trend, last, recheck, t.entry, l.btcAvailable, l.eurAvailable,
                  t.lastOrderId, Some(|l.orders| > 0), Wallet.Cancel(l, t.lastOrderId).result.Some?);
    var p := Perform(l, d.action, last);
    Outcome(Trader(d.next, t.market, d.entry, if p.placed.Some? then p.placed.value.id else t.lastOrderId), p.ledger)
  }

  /** `doAction` in LONG with a known entry price, one case per branch. */
  lemma ActInLong(t: Trader, trend: Market.Trend, l: Wallet.Ledger, last: real, recheck: real)
    requires last > 0.0 && t.state == Long && t.entry != NoPrice
    ensures Act(t, trend, l, last, recheck) ==
      if |l.orders| == 0 then Outcome(t.(state := HoldOut), l)
      else if trend.Down? && recheck < t.entry * (1.0 - ProfitMargin) then
        var c := Wallet.Cancel(l, t.lastOrderId);
        Outcome(t.(state := if c.result.Some? then HoldIn else Long), c.ledger)
      else Outcome(t, l)
  {
  }

  /** `doAction` in SHORT with a known entry price, one case per branch. */
  lemma ActInShort(t: Trader, trend: Market.Trend, l: Wallet.Ledger, last: real, recheck: real)
    requires last > 0.0 && t.state == Short && t.entry != NoPrice
    ensures Act(t, trend, l, last, recheck) ==
      if |l.orders| == 0 then Outcome(t.(state := HoldIn), l)
      else if trend.Up? && recheck > t.entry * (1.0 + ProfitMargin) then
        var c := Wallet.Cancel(l, t.lastOrderId);
        Outcome(t.(state := if c.result.Some? then HoldOut else Short), c.ledger)
      else Outcome(t, l)
  {
  }

  /** `doAction` sees the entry price only once the sentinel is resolved. */
  lemma ActResolvesEntry(t: Trader, trend: Market.Trend, l: Wallet.Ledger, last: real, recheck: real)
    requires last > 0.0
    ensures Act(t, trend, l, last, recheck) == Act(t.(entry := Resolve(t.entry, last)), trend, l, last, recheck)
  {
  }

  /**
   * `doNextAutoTrade`: a tick without a sample changes nothing; otherwise
   * the classified sample is pushed onto the history and `doAction` runs on
   * the result.
   */
  function Tick(w: World, percent: real, last: real, recheck: real): (r: World)
    requires percent != NoSample ==> last > 0.0
    ensures percent == NoSample ==> r == w
    ensures percent != NoSample ==>
      && r.trader.market == Market.Classify(percent)
      && r.history == History.Pushed(w.history, MarketHistoryLength, Market.Classify(percent))
  {
    if percent == NoSample then w
    else
      var m := Market.Classify(percent);
      var h := History.Pushed(w.history, MarketHistoryLength, m);
      var o := Act(w.trader.(market := m), Market.PredictTrend(h), w.wallet, last, recheck);
      World(o.trader, h, o.wallet)
  }

  /**
   * Every order the trader places passes the wallet's guard: it always
   * offers exactly what is available, so no placement is rejected.
   */
  lemma PlacementsAreAccepted(t: Trader, trend: Market.Trend, l: Wallet.Ledger, last: real, recheck: real)
    requires last > 0.0
    ensures var d := Step(t.state, trend, last, recheck, t.entry, l.btcAvailable, l.eurAvailable,
                          t.lastOrderId, Some(|l.orders| > 0), Wallet.Cancel(l, t.lastOrderId).result.Some?);
      d.action != Hold && !d.action.CancelOrder? ==>
        && Perform(l, d.action, last).placed.Some?
        && Perform(l, d.action, last).placed.value.id == l.nextOrderId
        && Act(t, trend, l, last, recheck).trader.lastOrderId == l.nextOrderId
  {
  }

  // ------------------------------------------- the wallet behind each state

  /** All value in BTC, nothing reserved. */
  predicate AllIn(l: Wallet.Ledger)
  {
    l.orders == [] && l.eurBalance == 0.0 && l.eurAvailable == 0.0 && l.btcBalance == l.btcAvailable > 0.0
  }

  /** All value in EUR, nothing reserved. */
  predicate AllOut(l: Wallet.Ledger)
  {
    l.orders == [] && l.btcBalance == 0.0 && l.btcAvailable == 0.0 && l.eurBalance == l.eurAvailable > 0.0
  }

  lemma AllInReadsHoldIn(l: Wallet.Ledger, last: real)
    requires AllIn(l) && last > 0.0
    ensures Wallet.Value(l, last) > 0.0 && ReadTradingState(l, last) == HoldIn
  {
    var v := Wallet.Value(l, last);
    assert v == l.btcBalance * last;
    assert l.btcBalance * last / v == 1.0;
  }

  lemma AllOutReadsHoldOut(l: Wallet.Ledger, last: real)
    requires AllOut(l) && last > 0.0
    ensures Wallet.Value(l, last) > 0.0 && ReadTradingState(l, last) == HoldOut
  {
    var v := Wallet.Value(l, last);
    assert v == l.eurBalance;
    assert l.eurBalance / v == 1.0;
  }

  /**
   * Entering a Long position from a wallet fully in BTC reserves all of it
   * in one sell at the margin above the price, and `getTradingState` then
   * reads Long as well.
   */
  lemma EnteringLongMatchesWallet(t: Trader, trend: Market.Trend, l: Wallet.Ledger, last: real, recheck: real)
    requires t.state == HoldIn && trend.Up? && AllIn(l) && last > 0.0
    ensures var w := Act(t, trend, l, last, recheck);
      && w.trader.state == Long && w.trader.entry == last && w.trader.lastOrderId == l.nextOrderId
      && w.wallet.orders == [Wallet.Order(l.nextOrderId, l.btcBalance, last * (1.0 + ProfitMargin), Wallet.Sell)]
      && Wallet.Value(w.wallet, last) > 0.0 && ReadTradingState(w.wallet, last) == Long
  {
    var w := Act(t, trend, l, last, recheck);
    var v := Wallet.Value(w.wallet, last);
    assert w.wallet.btcBalance == l.btcBalance && w.wallet.btcAvailable == 0.0 && w.wallet.eurBalance == 0.0;
    assert v == l.btcBalance * last;
    assert l.btcBalance * last / v == 1.0;
  }

  /** Selling out of HoldIn empties the BTC side into EUR at the price, and the wallet reads HoldOut. */
  lemma SellingOutMatchesWallet(t: Trader, trend: Market.Trend, l: Wallet.Ledger, last: real, recheck: real)
    requires t.state == HoldIn && trend.Down? && AllIn(l) && last > 0.0
    ensures var w := Act(t, trend, l, last, recheck);
      && w.trader.state == HoldOut && AllOut(w.wallet) && w.wallet.eurBalance == l.btcBalance * last
      && ReadTradingState(w.wallet, last) == HoldOut
  {
    var w := Act(t, trend, l, last, recheck);
    assert l.btcBalance * last > 0.0;
    assert AllOut(w.wallet);
    AllOutReadsHoldOut(w.wallet, last);
  }

  /** Buying in from HoldOut turns all EUR into BTC at the price, and the wallet reads HoldIn. */
  lemma BuyingInMatchesWallet(t: Trader, trend: Market.Trend, l: Wallet.Ledger, last: real, recheck: real)
    requires t.state == HoldOut && trend.Up? && AllOut(l) && last > 0.0
    ensures var w := Act(t, trend, l, last, recheck);
      && w.trader.state == HoldIn && AllIn(w.wallet) && w.wallet.btcBalance == l.eurBalance / last
      && ReadTradingState(w.wallet, last) == HoldIn
  {
    var w := Act(t, trend, l, last, recheck);
    assert l.eurBalance / last > 0.0;
    assert AllIn(w.wallet);
    AllInReadsHoldIn(w.wallet, last);
  }

  /**
   * Closing a Long position by cancelling its sell returns the wallet to
   * fully in BTC with nothing reserved, and the wallet reads HoldIn.
   */
  lemma ClosingLongMatchesWallet(t: Trader, trend: Market.Trend, l: Wallet.Ledger, last: real, recheck: real, a: real, price: real)
    requires t.state == Long && trend.Down? && last > 0.0
    requires recheck < Resolve(t.entry, last) * (1.0 - ProfitMargin)
    requires a > 0.0 && l.orders == [Wallet.Order(t.lastOrderId, a, price, Wallet.Sell)]
    requires l.btcBalance == a && l.btcAvailable == 0.0 && l.eurBalance == 0.0 && l.eurAvailable == 0.0
    ensures var w := Act(t, trend, l, last, recheck);
      && w.trader.state == HoldIn && AllIn(w.wallet) && w.wallet.btcBalance == a
      && ReadTradingState(w.wallet, last) == HoldIn
  {
    var w := Act(t, trend, l, last, recheck);
    assert Wallet.IndexOfId(l.orders, t.lastOrderId) == 0;
    assert l.orders[..0] + l.orders[1..] == [];
    assert AllIn(w.wallet);
    AllInReadsHoldIn(w.wallet, last);
  }

  /**
   * A Short position entered from a wallet fully in EUR, as written: the
   * buy is sized by the BTC available, which is zero, so the order buys
   * nothing, reserves nothing, and the wallet still reads HoldOut while the
   * trader believes it is Short.
   */
  lemma ShortBuysNothing(t: Trader, trend: Market.Trend, l: Wallet.Ledger, last: real, recheck: real)
    requires t.state == HoldOut && trend.Down? && AllOut(l) && last > 0.0
    ensures var w := Act(t, trend, l, last, recheck);
      && w.trader.state == Short
      && w.wallet.orders == [Wallet.Order(l.nextOrderId, 0.0, last * (1.0 - ProfitMargin), Wallet.Buy)]
      && w.wallet.eurAvailable == l.eurAvailable
      && ReadTradingState(w.wallet, last) == HoldOut
  {
    var w := Act(t, trend, l, last, recheck);
    var v := Wallet.Value(w.wallet, last);
    assert w.wallet.eurAvailable == l.eurAvailable - 0.0 * (last * (1.0 - ProfitMargin));
    assert v == l.eurBalance;
    assert w.wallet.eurBalance / v == 1.0;
  }

  /**
   * The intended Short entry: spend the EUR available on a buy limit at the
   * margin below the price, through the EUR-funded placement. It is always
   * accepted, reserves all the EUR, and the wallet then reads Short.
   */
  function FundedShortEntry(l: Wallet.Ledger, last: real): (p: Wallet.Placing)
    requires last > 0.0
  {
    var price := last * (1.0 - ProfitMargin);
    Wallet.FundedBuyLimit(l, l.eurAvailable / price, price)
  }

  lemma FundedShortMatchesWallet(l: Wallet.Ledger, last: real)
    requires AllOut(l) && last > 0.0
    ensures var p := FundedShortEntry(l, last);
      && p.result.Placed?
      && p.ledger.eurAvailable == 0.0 && p.ledger.eurBalance == l.eurBalance
      && Wallet.Value(p.ledger, last) > 0.0
      && ReadTradingState(p.ledger, last) == Short
  {
    var price := last * (1.0 - ProfitMargin);
    assert price > 0.0;
    var amt := l.eurAvailable / price;
    assert amt * price == l.eurAvailable;
    var p := FundedShortEntry(l, last);
    assert p.ledger.eurAvailable == 0.0;
    var v := Wallet.Value(p.ledger, last);
    assert v == l.eurBalance;
    assert p.ledger.eurBalance / v == 1.0;
  }

  /**
   * A Long position whose sell executes leaves the proceeds in the EUR
   * balance but not in the EUR available, because matching never credits
   * `available`. The trader moves to HoldOut while the wallet reads Short,
   * and the instant buy that HoldOut later makes spends nothing.
   */
  lemma ExecutedLongStrandsProceeds(t: Trader, trend: Market.Trend, l: Wallet.Ledger, a: real, price: real,
                                    last: real, recheck: real)
    requires t.state == Long && last > 0.0 && a > 0.0 && price > 0.0 && last >= price
    requires l.orders == [Wallet.Order(t.lastOrderId, a, price, Wallet.Sell)]
    requires l.btcBalance == a && l.btcAvailable == 0.0 && l.eurBalance == 0.0 && l.eurAvailable == 0.0
    ensures var m := Wallet.Match(l, last).ledger;
      var w := Act(t, trend, m, last, recheck);
      && m.orders == [] && m.eurBalance == a * price && m.eurAvailable == 0.0
      && w.trader.state == HoldOut
      && Wallet.Value(w.wallet, last) > 0.0
      && ReadTradingState(w.wallet, last) == Short
  {
    var m := Wallet.Match(l, last).ledger;
    var s := Wallet.ScanOrders(l.orders, last, l.btcBalance, l.eurBalance, 1);
    assert Wallet.ScanOrders(l.orders, last, l.btcBalance, l.eurBalance, 0).indexes == [];
    assert s.indexes == [0];
    assert s.btcBalance == 0.0 && s.eurBalance == a * price;
    var rest := l.orders[..0] + l.orders[1..];
    assert rest == [];
    assert Wallet.RemoveEach(l.orders, [0]) == Wallet.Removal([], 1, false) by {
      assert [0][1..] == [];
      assert Wallet.RemoveEach(rest, []) == Wallet.Removal(rest, 0, false);
    }
    assert m.orders == [] && m.eurBalance == a * price;
    var w := Act(t, trend, m, last, recheck);
    assert w.wallet == m;
    assert a * price > 0.0;
    var v := Wallet.Value(m, last);
    assert v == a * price;
    assert m.eurBalance / v == 1.0;
  }

  // ------------------------------------------------------------------ object

  /** The auto-trading part of AetherTrader: its fields, its market history and its wallet. */
  class AutoTrader {
    var tradingState: TradingState
    var marketState: Market.MarketState
    var priceAtLastTransaction: real
    var lastOrderId: int
    const marketHistory: History.CircularList<Market.MarketState>
    const wallet: Wallet.TestWallet

    ghost predicate Valid()
      reads this, marketHistory
    {
      marketHistory.maxSize == MarketHistoryLength && marketHistory.Valid()
    }

    /** The fields, the history and the wallet, read as one value. */
    function Snapshot(): World
      reads this, marketHistory, wallet
    {
      World(Trader(tradingState, marketState, priceAtLastTransaction, lastOrderId),
            marketHistory.items, wallet.Snapshot())
    }

    /**
     * `startAuto` at the price `last`: a fresh test wallet with the starting
     * BTC, the trading state read from that wallet, an UNKNOWN market, no
     * entry price and an empty history.
     */
    constructor (last: real)
      requires last > 0.0
      ensures Valid() && fresh(marketHistory) && fresh(wallet)
      ensures Wallet.Value(StartLedger(), last) > 0.0
      ensures tradingState == ReadTradingState(StartLedger(), last) == HoldIn
      ensures Snapshot() == World(Trader(HoldIn, Market.MarketState.Unknown, NoPrice, 0), [], StartLedger())
    {
      var w := new Wallet.TestWallet(StartBtc, StartEur);
      AllInReadsHoldIn(StartLedger(), last);
      wallet := w;
      tradingState := ReadTradingState(w.Snapshot(), last);
      marketState := Market.MarketState.Unknown;
      priceAtLastTransaction := NoPrice;
      lastOrderId := 0;
      marketHistory := new History.CircularList(MarketHistoryLength);
    }

    /**
     * One tick with the percentage change `percent`, the price `last` and
     * the price `recheck` a position reads again.
     */
    method DoNextAutoTrade(percent: real, last: real, recheck: real)
      requires Valid() && (percent != NoSample ==> last > 0.0)
      modifies this, marketHistory, wallet
      ensures Valid()
      ensures Snapshot() == Tick(old(Snapshot()), percent, last, recheck)
    {
      if percent == NoSample {
        return;
      }
      marketState := Market.Classify(percent);
      marketHistory.Push(marketState);
      tradingState := DoAction(last, recheck);
    }

    /**
     * Decides on the history as it stands, asks the wallet, and returns the
     * next state; the first tick takes the current price as its entry.
     */
    method DoAction(last: real, recheck: real) returns (next: TradingState)
      requires Valid() && last > 0.0
      modifies this, wallet
      ensures Valid() && tradingState == old(tradingState) && marketState == old(marketState)
      ensures var o := Act(old(Snapshot()).trader, Market.PredictTrend(marketHistory.items), old(wallet.Snapshot()), last, recheck);
        Trader(next, marketState, priceAtLastTransaction, lastOrderId) == o.trader && wallet.Snapshot() == o.wallet
    {
      ActResolvesEntry(old(Snapshot()).trader, Market.PredictTrend(marketHistory.items), wallet.Snapshot(), last, recheck);
      if priceAtLastTransaction == NoPrice {
        priceAtLastTransaction := last;
      }
      var trend := Market.PredictMarket(marketHistory.items);
      match tradingState
      case HoldIn => next := HoldInArm(trend, last, recheck);
      case Long => next := LongArm(trend, last, recheck);
      case HoldOut => next := HoldOutArm(trend, last, recheck);
      case Short => next := ShortArm(trend, last, recheck);
      case Unknown => next := Unknown;
    }

    /** HoldIn: sell-limit everything into a rise, sell everything at once into a fall. */
    method HoldInArm(trend: Market.Trend, last: real, recheck: real) returns (next: TradingState)
      requires last > 0.0 && priceAtLastTransaction != NoPrice
      modifies this, wallet
      ensures tradingState == old(tradingState) && marketState == old(marketState)
      ensures var o := Act(Trader(HoldIn, old(marketState), old(priceAtLastTransaction), old(lastOrderId)),
                           trend, old(wallet.Snapshot()), last, recheck);
        Trader(next, marketState, priceAtLastTransaction, lastOrderId) == o.trader && wallet.Snapshot() == o.wallet
    {
      if trend.Up? {
        priceAtLastTransaction := last;
        var r := wallet.PlaceSellLimitOrder(wallet.btcAvailable, priceAtLastTransaction * (1.0 + ProfitMargin));
        if r.Placed? {
          lastOrderId := r.order.id;
        }
        next := Long;
      } else if trend.Down? {
        var r := wallet.PlaceSellInstantOrder(wallet.btcAvailable, last);
        if r.Placed? {
          lastOrderId := r.order.id;
        }
        next := HoldOut;
      } else {
        next := HoldIn;
      }
    }

    /** Long: the sell has executed once no order is open; a fall past the margin cancels it. */
    method LongArm(trend: Market.Trend, last: real, recheck: real) returns (next: TradingState)
      requires last > 0.0 && priceAtLastTransaction != NoPrice
      modifies this, wallet
      ensures tradingState == old(tradingState) && marketState == old(marketState)
      ensures var o := Act(Trader(Long, old(marketState), old(priceAtLastTransaction), old(lastOrderId)),
                           trend, old(wallet.Snapshot()), last, recheck);
        Trader(next, marketState, priceAtLastTransaction, lastOrderId) == o.trader && wallet.Snapshot() == o.wallet
    {
      ghost var l0 := wallet.Snapshot();
      ActInLong(Trader(Long, marketState, priceAtLastTransaction, lastOrderId), trend, l0, last, recheck);
      var open := wallet.GetOpenOrders();
      if |open| > 0 {
        if trend.Down? && recheck < priceAtLastTransaction * (1.0 - ProfitMargin) {
          var cancelled := wallet.CancelOrder(lastOrderId);
          assert wallet.Snapshot() == Wallet.Cancel(l0, lastOrderId).ledger;
          next := if cancelled.Some? then HoldIn else Long;
        } else {
          next := Long;
        }
      } else {
        next := HoldOut;
      }
    }

    /** HoldOut: buy-limit into a fall, buy with all EUR at once into a rise. */
    method HoldOutArm(trend: Market.Trend, last: real, recheck: real) returns (next: TradingState)
      requires last > 0.0 && priceAtLastTransaction != NoPrice
      modifies this, wallet
      ensures tradingState == old(tradingState) && marketState == old(marketState)
      ensures var o := Act(Trader(HoldOut, old(marketState), old(priceAtLastTransaction), old(lastOrderId)),
                           trend, old(wallet.Snapshot()), last, recheck);
        Trader(next, marketState, priceAtLastTransaction, lastOrderId) == o.trader && wallet.Snapshot() == o.wallet
    {
      if trend.Down? {
        priceAtLastTransaction := last;
        var r := wallet.PlaceBuyLimitOrder(wallet.btcAvailable, priceAtLastTransaction * (1.0 - ProfitMargin));
        if r.Placed? {
          lastOrderId := r.order.id;
        }
        next := Short;
      } else if trend.Up? {
        var r := wallet.PlaceBuyInstantOrder(wallet.eurAvailable, last);
        if r.Placed? {
          lastOrderId := r.order.id;
        }
        next := HoldIn;
      } else {
        next := HoldOut;
      }
    }

    /** Short: the buy has executed once no order is open; a rise past the margin cancels it. */
    method ShortArm(trend: Market.Trend, last: real, recheck: real) returns (next: TradingState)
      requires last > 0.0 && priceAtLastTransaction != NoPrice
      modifies this, wallet
      ensures tradingState == old(tradingState) && marketState == old(marketState)
      ensures var o := Act(Trader(Short, old(marketState), old(priceAtLastTransaction), old(lastOrderId)),
                           trend, old(wallet.Snapshot()), last, recheck);
        Trader(next, marketState, priceAtLastTransaction, lastOrderId) == o.trader && wallet.Snapshot() == o.wallet
    {
      ghost var l0 := wallet.Snapshot();
      ActInShort(Trader(Short, marketState, priceAtLastTransaction, lastOrderId), trend, l0, last, recheck);
      var open := wallet.GetOpenOrders();
      if |open| > 0 {
        if trend.Up? && recheck > priceAtLastTransaction * (1.0 + ProfitMargin) {
          var cancelled := wallet.CancelOrder(lastOrderId);
          assert wallet.Snapshot() == Wallet.Cancel(l0, lastOrderId).ledger;
          next := if cancelled.Some? then HoldOut else Short;
        } else {
          next := Short;
        }
      } else {
        next := HoldIn;
      }
    }
  }
}
