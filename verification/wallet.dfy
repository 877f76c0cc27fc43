/**
 * The simulated exchange account of TestWallet.java: four balance fields,
 * a list of pending limit orders, an order-id counter and three counters,
 * with instant and limit placement, cancellation by id and a matching
 * pass against the market price.
 */
module Wallet {
  import opened Wrappers

  /** The `type` of an order: 0 is a buy, 1 a sell. */
  datatype OrderType = Buy | Sell

  /** A pending or returned order: its `id`, `amount` (BTC), `price` (EUR) and `type`. */
  datatype Order = Order(id: int, amount: real, price: real, kind: OrderType)

  /** The whole state of a wallet, as a value. */
  datatype Ledger = Ledger(
    btcAvailable: real, btcBalance: real,
    eurAvailable: real, eurBalance: real,
    orders: seq<Order>, nextOrderId: int,
    placed: int, executed: int, cancelled: int)

  /** The JSON a placement returns: the order, or a failure with its reason. */
  datatype Placement = Placed(order: Order) | Rejected(reason: string)

  datatype Placing = Placing(ledger: Ledger, result: Placement)

  datatype Cancelling = Cancelling(ledger: Ledger, result: Option<Order>)

  // ---------------------------------------------------------------- placement

  /** `placeSellInstantOrder`: sells `amt` BTC at once at the market price `last`. */
  function SellInstant(l: Ledger, amt: real, last: real): (p: Placing)
  {
    if amt <= l.btcAvailable then
      var o := Order(l.nextOrderId, amt, last, Sell);
      Placing(l.(btcAvailable := l.btcAvailable - amt, btcBalance := l.btcBalance - amt,
                 eurAvailable := l.eurAvailable + amt * last, eurBalance := l.eurBalance + amt * last,
                 nextOrderId := l.nextOrderId + 1, placed := l.placed + 1, executed := l.executed + 1),
              Placed(o))
    else
      Placing(l, Rejected("Not enough BTC available."))
  }

  /**
   * `placeBuyInstantOrder`: spends `amt` EUR at once at the market price
   * `last`. The returned order carries type 1, as the source writes it.
   */
  function BuyInstant(l: Ledger, amt: real, last: real): (p: Placing)
    requires amt <= l.eurAvailable ==> last != 0.0
  {
    if amt <= l.eurAvailable then
      var o := Order(l.nextOrderId, amt, last, Sell);
      Placing(l.(btcAvailable := l.btcAvailable + amt / last, btcBalance := l.btcBalance + amt / last,
                 eurAvailable := l.eurAvailable - amt, eurBalance := l.eurBalance - amt,
                 nextOrderId := l.nextOrderId + 1, placed := l.placed + 1, executed := l.executed + 1),
              Placed(o))
    else
      Placing(l, Rejected("Not enough EUR available."))
  }

  /** `placeSellLimitOrder`: reserves `amt` BTC and appends a pending sell at `price`. */
  function SellLimit(l: Ledger, amt: real, price: real): (p: Placing)
  {
    if amt <= l.btcAvailable then
      var o := Order(l.nextOrderId, amt, price, Sell);
      Placing(l.(orders := l.orders + [o], nextOrderId := l.nextOrderId + 1, placed := l.placed + 1,
                 btcAvailable := l.btcAvailable - amt),
              Placed(o))
    else
      Placing(l, Rejected("Not enough BTC available."))
  }

  /**
   * `placeBuyLimitOrder`: reserves `amt * price` EUR and appends a pending
   * buy. Its guard compares `amt` with the BTC available, as written.
   */
  function BuyLimit(l: Ledger, amt: real, price: real): (p: Placing)
  {
    if amt <= l.btcAvailable then
      var o := Order(l.nextOrderId, amt, price, Buy);
      Placing(l.(orders := l.orders + [o], nextOrderId := l.nextOrderId + 1, placed := l.placed + 1,
                 eurAvailable := l.eurAvailable - amt * price),
              Placed(o))
    else
      Placing(l, Rejected("Not enough BTC available."))
  }

  // ------------------------------------------------------------- cancellation

  /** The position of the first order with this id, or -1. */
  function IndexOfId(orders: seq<Order>, id: int): (i: int)
    ensures -1 <= i < |orders|
    ensures i >= 0 ==> orders[i].id == id && forall j :: 0 <= j < i ==> orders[j].id != id
    ensures i == -1 ==> forall j :: 0 <= j < |orders| ==> orders[j].id != id
  {
    if orders == [] then -1
    else if orders[0].id == id then 0
    else var k := IndexOfId(orders[1..], id); if k == -1 then -1 else k + 1
  }

  /** `cancelOrder`: drops the first order with this id and releases its reservation. */
  function Cancel(l: Ledger, id: int): (c: Cancelling)
  {
    var i := IndexOfId(l.orders, id);
    if i == -1 then Cancelling(l, None)
    else
      var o := l.orders[i];
      var released :=
        if o.kind == Buy then l.(eurAvailable := l.eurAvailable + o.amount * o.price)
        else l.(btcAvailable := l.btcAvailable + o.amount);
      Cancelling(released.(orders := l.orders[..i] + l.orders[i + 1..], cancelled := l.cancelled + 1), Some(o))
  }

  // ----------------------------------------------------------------- matching

  /** A buy executes when the market is at or below its price, a sell at or above. */
  predicate Executes(o: Order, last: real)
  {
    if o.kind == Buy then last <= o.price else last >= o.price
  }

  /** The balances and the collected indexes after the first loop of `run` has seen `n` orders. */
  datatype Scan = Scan(btcBalance: real, eurBalance: real, indexes: seq<int>)

  function ScanOrders(orders: seq<Order>, last: real, btc: real, eur: real, n: nat): (s: Scan)
    requires n <= |orders|
  {
    if n == 0 then Scan(btc, eur, [])
    else
      var s := ScanOrders(orders, last, btc, eur, n - 1);
      var o := orders[n - 1];
      if !Executes(o, last) then s
      else if o.kind == Buy then Scan(s.btcBalance + o.amount, s.eurBalance - o.amount * o.price, s.indexes + [n - 1])
      else Scan(s.btcBalance - o.amount, s.eurBalance + o.amount * o.price, s.indexes + [n - 1])
  }

  /**
   * The first loop of `run` collects, in ascending order, exactly the
   * positions of the orders that execute.
   */
  lemma {:induction false} ScanIndexes(orders: seq<Order>, last: real, btc: real, eur: real, n: nat)
    requires n <= |orders|
    ensures var ix := ScanOrders(orders, last, btc, eur, n).indexes;
      && |ix| <= n
      && (forall j :: 0 <= j < |ix| ==> 0 <= ix[j] < n && Executes(orders[ix[j]], last))
      && (forall j :: 0 <= j < n && Executes(orders[j], last) ==> j in ix)
      && (forall a, b :: 0 <= a < b < |ix| ==> ix[a] < ix[b])
  {
    if n > 0 {
      ScanIndexes(orders, last, btc, eur, n - 1);
    }
  }

  /** The orders left after the second loop of `run`, how many it removed, and whether it failed. */
  datatype Removal = Removal(orders: seq<Order>, removed: nat, failed: bool)

  /**
   * The second loop of `run`: `orders.remove(i)` for each collected index in
   * turn, on the list the previous removals have already shortened. An index
   * past the end throws IndexOutOfBoundsException and ends the pass.
   */
  function RemoveEach(orders: seq<Order>, indexes: seq<int>): (r: Removal)
    ensures r.removed <= |indexes|
  {
    if indexes == [] then Removal(orders, 0, false)
    else
      var i := indexes[0];
      if 0 <= i < |orders| then
        var r := RemoveEach(orders[..i] + orders[i + 1..], indexes[1..]);
        Removal(r.orders, r.removed + 1, r.failed)
      else Removal(orders, 0, true)
  }

  datatype Matching = Matching(ledger: Ledger, completed: bool)

  /**
   * `run`: executes every pending order the price `last` reaches. Execution
   * adjusts only the balances; the available amounts are left alone.
   */
  function Match(l: Ledger, last: real): (m: Matching)
    ensures m.ledger.btcAvailable == l.btcAvailable && m.ledger.eurAvailable == l.eurAvailable
    ensures m.ledger.nextOrderId == l.nextOrderId && m.ledger.placed == l.placed
    ensures m.ledger.cancelled == l.cancelled
  {
    var s := ScanOrders(l.orders, last, l.btcBalance, l.eurBalance, |l.orders|);
    var r := RemoveEach(l.orders, s.indexes);
    Matching(l.(btcBalance := s.btcBalance, eurBalance := s.eurBalance, orders := r.orders,
                executed := l.executed + r.removed),
             !r.failed)
  }

  /** The `value` entry of `getBalance`: EUR balance plus BTC balance at the price `last`. */
  function Value(l: Ledger, last: real): real
  {
    l.eurBalance + l.btcBalance * last
  }

  // ------------------------------------------------------------------- object

  class TestWallet {
    var btcAvailable: real
    var btcBalance: real
    var eurAvailable: real
    var eurBalance: real
    var orders: seq<Order>
    var nextOrderId: int
    var ordersPlaced: int
    var ordersExecuted: int
    var ordersCancelled: int

    /** The fields, read as one value. */
    function Snapshot(): Ledger
      reads this
    {
      Ledger(btcAvailable, btcBalance, eurAvailable, eurBalance, orders, nextOrderId,
             ordersPlaced, ordersExecuted, ordersCancelled)
    }

    constructor (btc: real, eur: real)
      ensures Snapshot() == Ledger(btc, btc, eur, eur, [], 0, 0, 0, 0)
    {
      btcAvailable, btcBalance := btc, btc;
      eurAvailable, eurBalance := eur, eur;
      orders, nextOrderId := [], 0;
      ordersPlaced, ordersExecuted, ordersCancelled := 0, 0, 0;
    }

    method PlaceSellInstantOrder(amt: real, last: real) returns (r: Placement)
      modifies this
      ensures Snapshot() == SellInstant(old(Snapshot()), amt, last).ledger
      ensures r == SellInstant(old(Snapshot()), amt, last).result
    {
      if amt <= btcAvailable {
        r := Placed(Order(nextOrderId, amt, last, Sell));
        nextOrderId := nextOrderId + 1;
        btcAvailable := btcAvailable - amt;
        btcBalance := btcBalance - amt;
        eurAvailable := eurAvailable + amt * last;
        eurBalance := eurBalance + amt * last;
        ordersPlaced := ordersPlaced + 1;
        ordersExecuted := ordersExecuted + 1;
      } else {
        r := Rejected("Not enough BTC available.");
      }
    }

    method PlaceBuyInstantOrder(amt: real, last: real) returns (r: Placement)
      requires amt <= eurAvailable ==> last != 0.0
      modifies this
      ensures Snapshot() == BuyInstant(old(Snapshot()), amt, last).ledger
      ensures r == BuyInstant(old(Snapshot()), amt, last).result
    {
      if amt <= eurAvailable {
        r := Placed(Order(nextOrderId, amt, last, Sell));
        nextOrderId := nextOrderId + 1;
        btcAvailable := btcAvailable + amt / last;
        btcBalance := btcBalance + amt / last;
        eurAvailable := eurAvailable - amt;
        eurBalance := eurBalance - amt;
        ordersPlaced := ordersPlaced + 1;
        ordersExecuted := ordersExecuted + 1;
      } else {
        r := Rejected("Not enough EUR available.");
      }
    }

    method PlaceSellLimitOrder(amt: real, price: real) returns (r: Placement)
      modifies this
      ensures Snapshot() == SellLimit(old(Snapshot()), amt, price).ledger
      ensures r == SellLimit(old(Snapshot()), amt, price).result
    {
      if amt <= btcAvailable {
        var o := Order(nextOrderId, amt, price, Sell);
        nextOrderId := nextOrderId + 1;
        orders := orders + [o];
        ordersPlaced := ordersPlaced + 1;
        btcAvailable := btcAvailable - amt;
        r := Placed(o);
      } else {
        r := Rejected("Not enough BTC available.");
      }
    }

    method PlaceBuyLimitOrder(amt: real, price: real) returns (r: Placement)
      modifies this
      ensures Snapshot() == BuyLimit(old(Snapshot()), amt, price).ledger
      ensures r == BuyLimit(old(Snapshot()), amt, price).result
    {
      if amt <= btcAvailable {
        var o := Order(nextOrderId, amt, price, Buy);
        nextOrderId := nextOrderId + 1;
        orders := orders + [o];
        ordersPlaced := ordersPlaced + 1;
        eurAvailable := eurAvailable - o.amount * o.price;
        r := Placed(o);
      } else {
        r := Rejected("Not enough BTC available.");
      }
    }

    /** Searches the orders for `id`, releasing the reservation of the one it finds. */
    method CancelOrder(id: int) returns (r: Option<Order>)
      modifies this
      ensures Snapshot() == Cancel(old(Snapshot()), id).ledger
      ensures r == Cancel(old(Snapshot()), id).result
    {
      var index := -1;
      var k := 0;
      while k < |orders|
        invariant 0 <= k <= |orders|
        invariant forall j :: 0 <= j < k ==> orders[j].id != id
        invariant Snapshot() == old(Snapshot())
      {
        if orders[k].id == id {
          var o := orders[k];
          if o.kind == Buy {
            eurAvailable := eurAvailable + o.amount * o.price;
          } else {
            btcAvailable := btcAvailable + o.amount;
          }
          index := k;
          break;
        }
        k := k + 1;
      }
      if index != -1 {
        r := Some(orders[index]);
        orders := orders[..index] + orders[index + 1..];
        ordersCancelled := ordersCancelled + 1;
      } else {
        r := None;
      }
    }

    method GetOpenOrders() returns (open: seq<Order>)
      ensures open == orders
    {
      open := orders;
    }

    /**
     * One matching pass at the market price `last`. `completed` is false
     * when the removal loop threw IndexOutOfBoundsException; the balance
     * updates and the removals made before it stay in place.
     */
    method Run(last: real) returns (completed: bool)
      modifies this
      ensures Snapshot() == Match(old(Snapshot()), last).ledger
      ensures completed == Match(old(Snapshot()), last).completed
    {
      var indexes := ScanPass(last);
      completed := RemovePass(indexes);
    }

    /** The first loop of `run`: applies each execution to the balances and collects its index. */
    method ScanPass(last: real) returns (indexes: seq<int>)
      modifies this
      ensures Scan(btcBalance, eurBalance, indexes)
           == ScanOrders(old(orders), last, old(btcBalance), old(eurBalance), |old(orders)|)
      ensures Snapshot() == old(Snapshot()).(btcBalance := btcBalance, eurBalance := eurBalance)
    {
      indexes := [];
      var k := 0;
      while k < |orders|
        invariant 0 <= k <= |orders|
        invariant Scan(btcBalance, eurBalance, indexes)
               == ScanOrders(orders, last, old(btcBalance), old(eurBalance), k)
        invariant Snapshot() == old(Snapshot()).(btcBalance := btcBalance, eurBalance := eurBalance)
      {
        var o := orders[k];
        if o.kind == Buy {
          if last <= o.price {
            btcBalance := btcBalance + o.amount;
            eurBalance := eurBalance - o.amount * o.price;
            indexes := indexes + [k];
          }
        } else {
          if last >= o.price {
            btcBalance := btcBalance - o.amount;
            eurBalance := eurBalance + o.amount * o.price;
            indexes := indexes + [k];
          }
        }
        k := k + 1;
      }
    }

    /**
     * The second loop of `run`: removes each collected index in turn and
     * stops, returning false, at the first index past the end.
     */
    method RemovePass(indexes: seq<int>) returns (completed: bool)
      modifies this
      ensures var r := RemoveEach(old(orders), indexes);
        && Snapshot() == old(Snapshot()).(orders := r.orders, executed := old(ordersExecuted) + r.removed)
        && completed == !r.failed
    {
      ghost var total := RemoveEach(orders, indexes);
      var n := 0;
      while n < |indexes|
        invariant 0 <= n <= |indexes|
        invariant RemoveEach(orders, indexes[n..]).orders == total.orders
        invariant RemoveEach(orders, indexes[n..]).failed == total.failed
        invariant ordersExecuted + RemoveEach(orders, indexes[n..]).removed == old(ordersExecuted) + total.removed
        invariant Snapshot() == old(Snapshot()).(orders := orders, executed := ordersExecuted)
      {
        var i := indexes[n];
        assert indexes[n..][0] == i && indexes[n..][1..] == indexes[n + 1..];
        if !(0 <= i < |orders|) {
          return false;
        }
        orders := orders[..i] + orders[i + 1..];
        ordersExecuted := ordersExecuted + 1;
        n := n + 1;
      }
      assert indexes[n..] == [];
      completed := true;
    }
  }

  // --------------------------------------------------------------- invariants

  /** BTC held back by a pending order: the amount of a sell. */
  function BtcReserve(o: Order): real { if o.kind == Sell then o.amount else 0.0 }

  /** EUR held back by a pending order: amount times price of a buy. */
  function EurReserve(o: Order): real { if o.kind == Buy then o.amount * o.price else 0.0 }

  function ReservedBtc(orders: seq<Order>): real
  {
    if orders == [] then 0.0 else ReservedBtc(orders[..|orders| - 1]) + BtcReserve(orders[|orders| - 1])
  }

  function ReservedEur(orders: seq<Order>): real
  {
    if orders == [] then 0.0 else ReservedEur(orders[..|orders| - 1]) + EurReserve(orders[|orders| - 1])
  }

  lemma {:induction false} ReservedConcat(a: seq<Order>, b: seq<Order>)
    ensures ReservedBtc(a + b) == ReservedBtc(a) + ReservedBtc(b)
    ensures ReservedEur(a + b) == ReservedEur(a) + ReservedEur(b)
  {
    if b == [] {
      assert a + b == a;
    } else {
      ReservedConcat(a, b[..|b| - 1]);
      assert (a + b)[..|a + b| - 1] == a + b[..|b| - 1];
    }
  }

  /** Removing the order at `i` releases exactly its reservation. */
  lemma ReservedRemove(orders: seq<Order>, i: nat)
    requires i < |orders|
    ensures ReservedBtc(orders[..i] + orders[i + 1..]) == ReservedBtc(orders) - BtcReserve(orders[i])
    ensures ReservedEur(orders[..i] + orders[i + 1..]) == ReservedEur(orders) - EurReserve(orders[i])
  {
    var front, x, back := orders[..i], orders[i], orders[i + 1..];
    var upTo := orders[..i + 1];
    assert orders == upTo + back;
    assert upTo[..|upTo| - 1] == front && upTo[|upTo| - 1] == x;
    ReservedConcat(upTo, back);
    ReservedConcat(front, back);
  }

  lemma {:induction false} ReservedNonNegative(orders: seq<Order>)
    requires forall j :: 0 <= j < |orders| ==> orders[j].amount >= 0.0 && orders[j].price >= 0.0
    ensures ReservedBtc(orders) >= 0.0 && ReservedEur(orders) >= 0.0
  {
    if orders != [] {
      ReservedNonNegative(orders[..|orders| - 1]);
      var o := orders[|orders| - 1];
      assert o.amount * o.price >= 0.0;
    }
  }

  /** Some BTC is held back exactly when a sell of a positive amount is pending. */
  lemma {:induction false} ReservedBtcPositive(orders: seq<Order>)
    requires forall j :: 0 <= j < |orders| ==> orders[j].amount >= 0.0 && orders[j].price >= 0.0
    ensures ReservedBtc(orders) > 0.0 <==>
      exists j :: 0 <= j < |orders| && orders[j].kind == Sell && orders[j].amount > 0.0
  {
    if orders != [] {
      var init := orders[..|orders| - 1];
      ReservedBtcPositive(init);
      ReservedNonNegative(init);
      if exists j :: 0 <= j < |orders| && orders[j].kind == Sell && orders[j].amount > 0.0 {
        var j :| 0 <= j < |orders| && orders[j].kind == Sell && orders[j].amount > 0.0;
        if j < |orders| - 1 {
          assert init[j] == orders[j];
        }
      }
      if exists j :: 0 <= j < |init| && init[j].kind == Sell && init[j].amount > 0.0 {
        var j :| 0 <= j < |init| && init[j].kind == Sell && init[j].amount > 0.0;
        assert orders[j] == init[j];
      }
    }
  }

  /** Some EUR is held back exactly when a buy of positive cost is pending. */
  lemma {:induction false} ReservedEurPositive(orders: seq<Order>)
    requires forall j :: 0 <= j < |orders| ==> orders[j].amount >= 0.0 && orders[j].price >= 0.0
    ensures ReservedEur(orders) > 0.0 <==>
      exists j :: 0 <= j < |orders| && orders[j].kind == Buy && orders[j].amount * orders[j].price > 0.0
  {
    if orders != [] {
      var init := orders[..|orders| - 1];
      ReservedEurPositive(init);
      ReservedNonNegative(init);
      var o := orders[|orders| - 1];
      assert o.amount * o.price >= 0.0;
      if exists j :: 0 <= j < |orders| && orders[j].kind == Buy && orders[j].amount * orders[j].price > 0.0 {
        var j :| 0 <= j < |orders| && orders[j].kind == Buy && orders[j].amount * orders[j].price > 0.0;
        if j < |orders| - 1 {
          assert init[j] == orders[j];
        }
      }
      if exists j :: 0 <= j < |init| && init[j].kind == Buy && init[j].amount * init[j].price > 0.0 {
        var j :| 0 <= j < |init| && init[j].kind == Buy && init[j].amount * init[j].price > 0.0;
        assert orders[j] == init[j];
      }
    }
  }

  /** Ids increase along the list and lie below `next`; amounts and prices are not negative. */
  ghost predicate OrdersWellFormed(orders: seq<Order>, next: int)
  {
    && (forall i, j :: 0 <= i < j < |orders| ==> orders[i].id < orders[j].id)
    && (forall i :: 0 <= i < |orders| ==> orders[i].id < next)
    && (forall i :: 0 <= i < |orders| ==> orders[i].amount >= 0.0 && orders[i].price >= 0.0)
  }

  ghost predicate WellFormed(l: Ledger)
  {
    OrdersWellFormed(l.orders, l.nextOrderId)
  }

  lemma AppendWellFormed(orders: seq<Order>, next: int, o: Order)
    requires OrdersWellFormed(orders, next)
    requires o.id == next && o.amount >= 0.0 && o.price >= 0.0
    ensures OrdersWellFormed(orders + [o], next + 1)
  {
    var r := orders + [o];
    forall i, j | 0 <= i < j < |r| ensures r[i].id < r[j].id {
      assert r[i] == orders[i];
      if j < |orders| {
        assert r[j] == orders[j];
      }
    }
  }

  lemma RemoveWellFormed(orders: seq<Order>, next: int, i: nat)
    requires OrdersWellFormed(orders, next) && i < |orders|
    ensures OrdersWellFormed(orders[..i] + orders[i + 1..], next)
  {
    var rest := orders[..i] + orders[i + 1..];
    forall a | 0 <= a < |rest| ensures rest[a] == orders[if a < i then a else a + 1] {
    }
    forall a, b | 0 <= a < b < |rest| ensures rest[a].id < rest[b].id {
      var a' := if a < i then a else a + 1;
      var b' := if b < i then b else b + 1;
      assert rest[a] == orders[a'] && rest[b] == orders[b'];
    }
  }

  /** Balance minus available is exactly what the pending orders hold back, for each asset. */
  ghost predicate Balanced(l: Ledger)
  {
    && l.btcBalance - l.btcAvailable == ReservedBtc(l.orders)
    && l.eurBalance - l.eurAvailable == ReservedEur(l.orders)
  }

  /** Balance minus available covers at least what the pending orders hold back. */
  ghost predicate Covered(l: Ledger)
  {
    && l.btcBalance - l.btcAvailable >= ReservedBtc(l.orders)
    && l.eurBalance - l.eurAvailable >= ReservedEur(l.orders)
  }

  /** Under the invariant the available amount never exceeds the balance. */
  lemma AvailableWithinBalance(l: Ledger)
    requires WellFormed(l) && Covered(l)
    ensures l.btcAvailable <= l.btcBalance && l.eurAvailable <= l.eurBalance
  {
    ReservedNonNegative(l.orders);
  }

  lemma AppendOrder(l: Ledger, o: Order)
    ensures ReservedBtc(l.orders + [o]) == ReservedBtc(l.orders) + BtcReserve(o)
    ensures ReservedEur(l.orders + [o]) == ReservedEur(l.orders) + EurReserve(o)
  {
    assert (l.orders + [o])[..|l.orders|] == l.orders;
  }

  /** A buy limit placement releases nothing and reserves exactly `amt * price` EUR. */
  lemma BuyLimitBalanced(l: Ledger, amt: real, price: real)
    requires Balanced(l)
    ensures Balanced(BuyLimit(l, amt, price).ledger)
  {
    AppendOrder(l, Order(l.nextOrderId, amt, price, Buy));
  }

  /** A sell limit placement reserves exactly `amt` BTC. */
  lemma SellLimitBalanced(l: Ledger, amt: real, price: real)
    requires Balanced(l)
    ensures Balanced(SellLimit(l, amt, price).ledger)
  {
    AppendOrder(l, Order(l.nextOrderId, amt, price, Sell));
  }

  lemma LimitOrdersWellFormed(l: Ledger, amt: real, price: real)
    requires WellFormed(l) && amt >= 0.0 && price >= 0.0
    ensures WellFormed(SellLimit(l, amt, price).ledger) && WellFormed(BuyLimit(l, amt, price).ledger)
  {
    if amt <= l.btcAvailable {
      AppendWellFormed(l.orders, l.nextOrderId, Order(l.nextOrderId, amt, price, Sell));
      AppendWellFormed(l.orders, l.nextOrderId, Order(l.nextOrderId, amt, price, Buy));
    }
  }

  /** Both limit placements keep the ledger well formed and balanced. */
  lemma LimitOrdersKeepInvariant(l: Ledger, amt: real, price: real)
    requires WellFormed(l) && Balanced(l) && amt >= 0.0 && price >= 0.0
    ensures WellFormed(SellLimit(l, amt, price).ledger) && Balanced(SellLimit(l, amt, price).ledger)
    ensures WellFormed(BuyLimit(l, amt, price).ledger) && Balanced(BuyLimit(l, amt, price).ledger)
  {
    SellLimitBalanced(l, amt, price);
    BuyLimitBalanced(l, amt, price);
    LimitOrdersWellFormed(l, amt, price);
  }

  /** Instant orders move balance and available together and keep the invariant. */
  lemma InstantOrdersKeepInvariant(l: Ledger, amt: real, last: real)
    requires WellFormed(l) && Balanced(l) && last != 0.0
    ensures WellFormed(SellInstant(l, amt, last).ledger) && Balanced(SellInstant(l, amt, last).ledger)
    ensures WellFormed(BuyInstant(l, amt, last).ledger) && Balanced(BuyInstant(l, amt, last).ledger)
  {
  }

  /** An instant order at the market price leaves the wallet's value at that price unchanged. */
  lemma InstantOrdersConserveValue(l: Ledger, amt: real, last: real)
    requires last != 0.0
    ensures Value(SellInstant(l, amt, last).ledger, last) == Value(l, last)
    ensures Value(BuyInstant(l, amt, last).ledger, last) == Value(l, last)
  {
    assert (amt / last) * last == amt;
    assert (l.btcBalance + amt / last) * last == l.btcBalance * last + (amt / last) * last;
    assert (l.btcBalance - amt) * last == l.btcBalance * last - amt * last;
  }

  /** Cancelling the order found at `i` removes it and adds its reservation back to `available`. */
  lemma CancelShape(l: Ledger, id: int, i: int)
    requires i == IndexOfId(l.orders, id) && i != -1
    ensures Cancel(l, id).ledger
         == l.(btcAvailable := l.btcAvailable + BtcReserve(l.orders[i]),
               eurAvailable := l.eurAvailable + EurReserve(l.orders[i]),
               orders := l.orders[..i] + l.orders[i + 1..], cancelled := l.cancelled + 1)
  {
  }

  /**
   * Cancelling the order found at `i` releases exactly its reservation to
   * `available`, leaves the balances alone and keeps the ledger well formed.
   */
  lemma CancelReleases(l: Ledger, id: int, i: int)
    requires WellFormed(l) && i == IndexOfId(l.orders, id) && i != -1
    ensures WellFormed(Cancel(l, id).ledger)
    ensures Cancel(l, id).ledger.btcBalance == l.btcBalance && Cancel(l, id).ledger.eurBalance == l.eurBalance
    ensures Cancel(l, id).ledger.btcAvailable == l.btcAvailable + BtcReserve(l.orders[i])
    ensures Cancel(l, id).ledger.eurAvailable == l.eurAvailable + EurReserve(l.orders[i])
    ensures ReservedBtc(Cancel(l, id).ledger.orders) == ReservedBtc(l.orders) - BtcReserve(l.orders[i])
    ensures ReservedEur(Cancel(l, id).ledger.orders) == ReservedEur(l.orders) - EurReserve(l.orders[i])
  {
    CancelShape(l, id, i);
    ReservedRemove(l.orders, i);
    RemoveWellFormed(l.orders, l.nextOrderId, i);
  }

  /** Cancelling keeps the ledger well formed and balanced. */
  lemma CancelKeepsInvariant(l: Ledger, id: int)
    requires WellFormed(l) && Balanced(l)
    ensures WellFormed(Cancel(l, id).ledger) && Balanced(Cancel(l, id).ledger)
  {
    var i := IndexOfId(l.orders, id);
    if i != -1 {
      CancelReleases(l, id, i);
    }
  }

  /**
   * Both limit placements keep the weaker invariant the wallet still has
   * after matching: balance minus available covers the reservations.
   */
  lemma LimitOrdersKeepCover(l: Ledger, amt: real, price: real)
    requires WellFormed(l) && Covered(l) && amt >= 0.0 && price >= 0.0
    ensures WellFormed(SellLimit(l, amt, price).ledger) && Covered(SellLimit(l, amt, price).ledger)
    ensures WellFormed(BuyLimit(l, amt, price).ledger) && Covered(BuyLimit(l, amt, price).ledger)
  {
    AppendOrder(l, Order(l.nextOrderId, amt, price, Sell));
    AppendOrder(l, Order(l.nextOrderId, amt, price, Buy));
    LimitOrdersWellFormed(l, amt, price);
  }

  /** Instant orders keep the ledger well formed and covered. */
  lemma InstantOrdersKeepCover(l: Ledger, amt: real, last: real)
    requires WellFormed(l) && Covered(l) && last != 0.0
    ensures WellFormed(SellInstant(l, amt, last).ledger) && Covered(SellInstant(l, amt, last).ledger)
    ensures WellFormed(BuyInstant(l, amt, last).ledger) && Covered(BuyInstant(l, amt, last).ledger)
  {
  }

  /** Cancelling keeps the ledger well formed and covered. */
  lemma CancelKeepsCover(l: Ledger, id: int)
    requires WellFormed(l) && Covered(l)
    ensures WellFormed(Cancel(l, id).ledger) && Covered(Cancel(l, id).ledger)
  {
    var i := IndexOfId(l.orders, id);
    if i != -1 {
      CancelReleases(l, id, i);
    }
  }

  /**
   * Placing a sell limit order and then cancelling it by the id it was
   * given restores the wallet exactly, apart from the counters.
   */
  lemma SellLimitThenCancel(l: Ledger, amt: real, price: real)
    requires WellFormed(l) && amt <= l.btcAvailable
    ensures var p := SellLimit(l, amt, price);
      p.result.Placed? &&
      Cancel(p.ledger, p.result.order.id)
        == Cancelling(l.(nextOrderId := l.nextOrderId + 1, placed := l.placed + 1, cancelled := l.cancelled + 1),
                      Some(p.result.order))
  {
    var p := SellLimit(l, amt, price);
    var i := IndexOfId(p.ledger.orders, l.nextOrderId);
    assert p.ledger.orders[|l.orders|].id == l.nextOrderId;
    assert i == |l.orders|;
    assert p.ledger.orders[..i] == l.orders;
  }

  /**
   * The same for a buy limit order: cancelling returns `amt * price` to the
   * EUR available, exactly what the placement took.
   */
  lemma BuyLimitThenCancel(l: Ledger, amt: real, price: real)
    requires WellFormed(l) && amt <= l.btcAvailable
    ensures var p := BuyLimit(l, amt, price);
      p.result.Placed? &&
      Cancel(p.ledger, p.result.order.id)
        == Cancelling(l.(nextOrderId := l.nextOrderId + 1, placed := l.placed + 1, cancelled := l.cancelled + 1),
                      Some(p.result.order))
  {
    var p := BuyLimit(l, amt, price);
    var i := IndexOfId(p.ledger.orders, l.nextOrderId);
    assert p.ledger.orders[|l.orders|].id == l.nextOrderId;
    assert i == |l.orders|;
    assert p.ledger.orders[..i] == l.orders;
  }

  /** How an executed order moves the BTC balance. */
  function BtcEffect(o: Order): real { if o.kind == Buy then o.amount else -o.amount }

  /** How an executed order moves the EUR balance. */
  function EurEffect(o: Order): real { if o.kind == Buy then -(o.amount * o.price) else o.amount * o.price }

  /** A matching pass that executes nothing leaves the balances; one that executes one order applies just its effect. */
  lemma {:induction false} ScanAtMostOne(orders: seq<Order>, last: real, btc: real, eur: real, n: nat)
    requires n <= |orders|
    ensures var s := ScanOrders(orders, last, btc, eur, n);
      (s.indexes == [] ==> s.btcBalance == btc && s.eurBalance == eur) &&
      (|s.indexes| == 1 ==>
         var k := s.indexes[0];
         0 <= k < n &&
         s.btcBalance == btc + BtcEffect(orders[k]) &&
         s.eurBalance == eur + EurEffect(orders[k]))
  {
    ScanIndexes(orders, last, btc, eur, n);
    if n > 0 {
      ScanAtMostOne(orders, last, btc, eur, n - 1);
    }
  }

  /** Executing the order at `i` and removing it keeps the reservations covered. */
  lemma ExecutionKeepsCover(l: Ledger, i: nat)
    requires WellFormed(l) && Covered(l) && i < |l.orders|
    ensures var o := l.orders[i];
      Covered(l.(btcBalance := l.btcBalance + BtcEffect(o), eurBalance := l.eurBalance + EurEffect(o),
                 orders := l.orders[..i] + l.orders[i + 1..]))
  {
    var o := l.orders[i];
    ReservedRemove(l.orders, i);
    assert o.amount >= 0.0 && o.price >= 0.0;
    var cost := o.amount * o.price;
    assert cost >= 0.0;
    assert EurEffect(o) == if o.kind == Buy then -cost else cost;
    assert EurReserve(o) == if o.kind == Buy then cost else 0.0;
  }

  /**
   * When a matching pass executes at most one order it removes exactly that
   * order, completes, and keeps the ledger well formed and covered, so that
   * available stays at or below balance.
   */
  lemma MatchOneExecution(l: Ledger, last: real)
    requires WellFormed(l) && Covered(l)
    requires |ScanOrders(l.orders, last, l.btcBalance, l.eurBalance, |l.orders|).indexes| <= 1
    ensures var m := Match(l, last);
      var ix := ScanOrders(l.orders, last, l.btcBalance, l.eurBalance, |l.orders|).indexes;
      m.completed && WellFormed(m.ledger) && Covered(m.ledger) &&
      (ix == [] ==> m.ledger == l) &&
      (|ix| == 1 ==> 0 <= ix[0] < |l.orders| && m.ledger.orders == l.orders[..ix[0]] + l.orders[ix[0] + 1..])
  {
    var s := ScanOrders(l.orders, last, l.btcBalance, l.eurBalance, |l.orders|);
    ScanAtMostOne(l.orders, last, l.btcBalance, l.eurBalance, |l.orders|);
    if |s.indexes| == 1 {
      var i := s.indexes[0];
      var rest := l.orders[..i] + l.orders[i + 1..];
      assert s.indexes[1..] == [];
      assert RemoveEach(rest, []) == Removal(rest, 0, false);
      assert RemoveEach(l.orders, s.indexes) == Removal(rest, 1, false);
      ExecutionKeepsCover(l, i);
      RemoveWellFormed(l.orders, l.nextOrderId, i);
    }
  }

  /**
   * Matching never credits `available`: the proceeds of an executed sell
   * reach the EUR balance only, so a balanced ledger stops being balanced
   * and the proceeds stay unspendable.
   */
  lemma SellProceedsStayReserved()
    ensures var l := Ledger(0.0, 1.0, 0.0, 0.0, [Order(0, 1.0, 100.0, Sell)], 1, 1, 0, 0);
      var m := Match(l, 100.0);
      Balanced(l) && m.completed && m.ledger.orders == [] &&
      m.ledger.eurBalance == 100.0 && m.ledger.eurAvailable == 0.0 && !Balanced(m.ledger)
  {
    var o := Order(0, 1.0, 100.0, Sell);
    var l := Ledger(0.0, 1.0, 0.0, 0.0, [o], 1, 1, 0, 0);
    assert [o][..0] == [];
    assert ReservedBtc(l.orders) == 1.0 && ReservedEur(l.orders) == 0.0;
    assert ScanOrders(l.orders, 100.0, 1.0, 0.0, 0) == Scan(1.0, 0.0, []);
    assert ScanOrders(l.orders, 100.0, 1.0, 0.0, 1) == Scan(0.0, 100.0, [0]);
    assert [o][..0] + [o][1..] == [];
    assert RemoveEach([], []) == Removal([], 0, false);
    assert RemoveEach(l.orders, [0]) == Removal([], 1, false);
    var m := Match(l, 100.0).ledger;
    assert m.orders == [] && ReservedEur(m.orders) == 0.0;
  }

  // ------------------------------------------------------------------ findings

  /**
   * Index-shifting removal, as written: with sells a, b at 10 and c at 90
   * and the price at 50, a and b execute (indexes [0, 1]); removing index 0
   * and then index 1 of the shortened list drops c and keeps b. With only
   * a and b pending the second removal is out of range.
   */
  lemma TwoExecutionsMisremove()
    ensures var a := Order(0, 1.0, 10.0, Sell);
      var b := Order(1, 1.0, 10.0, Sell);
      var c := Order(2, 1.0, 90.0, Sell);
      ScanOrders([a, b, c], 50.0, 2.0, 0.0, 3).indexes == [0, 1] &&
      RemoveEach([a, b, c], [0, 1]) == Removal([b], 2, false) &&
      RemoveEach([a, b], [0, 1]) == Removal([b], 1, true)
  {
    var a := Order(0, 1.0, 10.0, Sell);
    var b := Order(1, 1.0, 10.0, Sell);
    var c := Order(2, 1.0, 90.0, Sell);
    assert ScanOrders([a, b, c], 50.0, 2.0, 0.0, 1).indexes == [0];
    assert ScanOrders([a, b, c], 50.0, 2.0, 0.0, 2).indexes == [0, 1];
    assert [a, b, c][..0] + [a, b, c][1..] == [b, c];
    assert [b, c][..1] + [b, c][2..] == [b];
    assert [a, b][..0] + [a, b][1..] == [b];
    assert [0, 1][1..] == [1] && [1][1..] == [];
    assert RemoveEach([b], [1]) == Removal([b], 0, true);
    assert RemoveEach([b], []) == Removal([b], 0, false);
    assert RemoveEach([b, c], [1]) == Removal([b], 1, false);
  }

  /** The intended removal: keep exactly the orders that did not execute, in order. */
  function KeepUnexecuted(orders: seq<Order>, last: real): (r: seq<Order>)
    ensures |r| <= |orders|
  {
    if orders == [] then []
    else (if Executes(orders[0], last) then [] else [orders[0]]) + KeepUnexecuted(orders[1..], last)
  }

  lemma {:induction false} KeepUnexecutedConcat(a: seq<Order>, b: seq<Order>, last: real)
    ensures KeepUnexecuted(a + b, last) == KeepUnexecuted(a, last) + KeepUnexecuted(b, last)
  {
    if a != [] {
      KeepUnexecutedConcat(a[1..], b, last);
      assert (a + b)[1..] == a[1..] + b;
    } else {
      assert a + b == b;
    }
  }

  /** What the corrected removal keeps: no executed order survives and every unexecuted one does. */
  lemma {:induction false} KeepUnexecutedExact(orders: seq<Order>, last: real)
    ensures forall o :: o in KeepUnexecuted(orders, last) ==> o in orders && !Executes(o, last)
    ensures forall j :: 0 <= j < |orders| && !Executes(orders[j], last) ==> orders[j] in KeepUnexecuted(orders, last)
  {
    if orders != [] {
      KeepUnexecutedExact(orders[1..], last);
      forall j | 0 <= j < |orders| && !Executes(orders[j], last)
        ensures orders[j] in KeepUnexecuted(orders, last)
      {
        if j > 0 {
          assert orders[j] == orders[1..][j - 1];
        }
      }
    }
  }

  lemma {:induction false} KeepAllWhenNoneExecutes(orders: seq<Order>, last: real)
    requires forall j :: 0 <= j < |orders| ==> !Executes(orders[j], last)
    ensures KeepUnexecuted(orders, last) == orders
  {
    if orders != [] {
      KeepAllWhenNoneExecutes(orders[1..], last);
    }
  }

  /** When only the order at `i` executes, the corrected removal drops exactly that order. */
  lemma {:induction false} KeepAllButOne(orders: seq<Order>, i: nat, last: real)
    requires i < |orders| && Executes(orders[i], last)
    requires forall j :: 0 <= j < |orders| && j != i ==> !Executes(orders[j], last)
    ensures KeepUnexecuted(orders, last) == orders[..i] + orders[i + 1..]
    decreases i
  {
    var rest := orders[1..];
    if i == 0 {
      forall j | 0 <= j < |rest| ensures !Executes(rest[j], last) {
        assert rest[j] == orders[j + 1];
      }
      KeepAllWhenNoneExecutes(rest, last);
      assert orders[..0] + orders[1..] == rest;
    } else {
      assert !Executes(orders[0], last);
      assert rest[i - 1] == orders[i];
      forall j | 0 <= j < |rest| && j != i - 1 ensures !Executes(rest[j], last) {
        assert rest[j] == orders[j + 1];
      }
      KeepAllButOne(rest, i - 1, last);
      assert [orders[0]] + rest[..i - 1] == orders[..i];
      assert rest[i..] == orders[i + 1..];
    }
  }

  /** With at most one execution the removal as written agrees with the corrected one. */
  lemma RemovalAgreesForOneExecution(orders: seq<Order>, last: real, btc: real, eur: real)
    requires |ScanOrders(orders, last, btc, eur, |orders|).indexes| <= 1
    ensures RemoveEach(orders, ScanOrders(orders, last, btc, eur, |orders|).indexes).orders
         == KeepUnexecuted(orders, last)
  {
    var ix := ScanOrders(orders, last, btc, eur, |orders|).indexes;
    ScanIndexes(orders, last, btc, eur, |orders|);
    if ix == [] {
      KeepAllWhenNoneExecutes(orders, last);
    } else {
      var i := ix[0];
      assert ix == [i];
      forall j | 0 <= j < |orders| && j != i ensures !Executes(orders[j], last) {
        assert j !in ix;
      }
      KeepAllButOne(orders, i, last);
      var rest := orders[..i] + orders[i + 1..];
      assert RemoveEach(rest, []) == Removal(rest, 0, false);
    }
  }

  /** Removals at positions past `p` leave the order at `p` where it is. */
  lemma {:induction false} RemovalsAboveKeep(orders: seq<Order>, indexes: seq<int>, p: nat)
    requires p < |orders|
    requires forall j :: 0 <= j < |indexes| ==> indexes[j] > p
    ensures p < |RemoveEach(orders, indexes).orders| && RemoveEach(orders, indexes).orders[p] == orders[p]
  {
    if indexes != [] {
      var i := indexes[0];
      if 0 <= i < |orders| {
        var rest := orders[..i] + orders[i + 1..];
        assert rest[p] == orders[p];
        assert forall j :: 0 <= j < |indexes[1..]| ==> indexes[1..][j] == indexes[j + 1];
        RemovalsAboveKeep(rest, indexes[1..], p);
      }
    }
  }

  /**
   * Index-shifting removal, in general: whenever a matching pass executes
   * two or more orders, the second of them is never removed, so the pass
   * never leaves the intended list.
   */
  lemma SecondExecutionStaysPending(orders: seq<Order>, last: real, btc: real, eur: real)
    requires |ScanOrders(orders, last, btc, eur, |orders|).indexes| >= 2
    ensures var ix := ScanOrders(orders, last, btc, eur, |orders|).indexes;
      var r := RemoveEach(orders, ix);
      && 0 <= ix[1] < |orders| && Executes(orders[ix[1]], last)
      && orders[ix[1]] in r.orders
      && r.orders != KeepUnexecuted(orders, last)
  {
    var ix := ScanOrders(orders, last, btc, eur, |orders|).indexes;
    ScanIndexes(orders, last, btc, eur, |orders|);
    var i, k := ix[0], ix[1];
    var rest := orders[..i] + orders[i + 1..];
    assert rest[k - 1] == orders[k];
    forall j | 0 <= j < |ix[1..]| ensures ix[1..][j] > k - 1 {
      assert ix[1..][j] == ix[j + 1];
    }
    RemovalsAboveKeep(rest, ix[1..], k - 1);
    assert RemoveEach(orders, ix).orders == RemoveEach(rest, ix[1..]).orders;
    KeepUnexecutedExact(orders, last);
  }

  /** Sells of 1 and 2 BTC at 10 and of 1 BTC at 90, reserving all 4 BTC of the balance. */
  function ThreeSells(): Ledger
  {
    Ledger(0.0, 4.0, 0.0, 0.0,
           [Order(0, 1.0, 10.0, Sell), Order(1, 2.0, 10.0, Sell), Order(2, 1.0, 90.0, Sell)], 3, 3, 0, 0)
  }

  lemma ThreeSellsBalanced()
    ensures WellFormed(ThreeSells()) && Balanced(ThreeSells())
  {
    var a, b, d := Order(0, 1.0, 10.0, Sell), Order(1, 2.0, 10.0, Sell), Order(2, 1.0, 90.0, Sell);
    assert ThreeSells().orders == [a, b, d];
    assert [a, b, d][..2] == [a, b] && [a, b][..1] == [a] && [a][..0] == [];
    assert EurReserve(a) == 0.0 && EurReserve(b) == 0.0 && EurReserve(d) == 0.0;
    assert ReservedEur([a]) == ReservedEur([]) + EurReserve(a);
    assert ReservedBtc([a]) == 1.0 && ReservedEur([a]) == 0.0;
    assert ReservedBtc([a, b]) == 3.0 && ReservedEur([a, b]) == 0.0;
    assert ReservedBtc([a, b, d]) == ReservedBtc([a, b]) + BtcReserve(d);
    assert ReservedEur([a, b, d]) == ReservedEur([a, b]) + EurReserve(d);
  }

  /** At 50 the first two sells execute and the removal as written keeps the 2-BTC one. */
  lemma ThreeSellsMatch()
    ensures Match(ThreeSells(), 50.0)
         == Matching(ThreeSells().(btcBalance := 1.0, eurBalance := 30.0,
                                   orders := [Order(1, 2.0, 10.0, Sell)], executed := 2), true)
  {
    var a, b, d := Order(0, 1.0, 10.0, Sell), Order(1, 2.0, 10.0, Sell), Order(2, 1.0, 90.0, Sell);
    var orders := ThreeSells().orders;
    assert orders == [a, b, d];
    assert ScanOrders(orders, 50.0, 4.0, 0.0, 1) == Scan(3.0, 10.0, [0]);
    assert ScanOrders(orders, 50.0, 4.0, 0.0, 2) == Scan(1.0, 30.0, [0, 1]);
    assert ScanOrders(orders, 50.0, 4.0, 0.0, 3) == Scan(1.0, 30.0, [0, 1]);
    assert [a, b, d][..0] + [a, b, d][1..] == [b, d];
    assert [b, d][..1] + [b, d][2..] == [b];
    assert [0, 1][1..] == [1] && [1][1..] == [];
    assert RemoveEach([b], []) == Removal([b], 0, false);
    assert RemoveEach([b, d], [1]) == Removal([b], 1, false);
    assert RemoveEach(orders, [0, 1]) == Removal([b], 2, false);
  }

  /**
   * What the misremoval does to the wallet: after matching at 50 the 2-BTC
   * sell stays pending against 1 BTC of balance, and cancelling it makes
   * 2 BTC available out of that 1.
   */
  lemma MisremovalBreaksCover()
    ensures var m := Match(ThreeSells(), 50.0);
      var c := Cancel(m.ledger, 1).ledger;
      WellFormed(ThreeSells()) && Balanced(ThreeSells()) && m.completed && !Covered(m.ledger) &&
      c.btcAvailable == 2.0 && c.btcBalance == 1.0
  {
    ThreeSellsBalanced();
    ThreeSellsMatch();
    var b := Order(1, 2.0, 10.0, Sell);
    assert [b][..0] == [] && ReservedBtc([b]) == 2.0;
    assert IndexOfId([b], 1) == 0;
  }

  /**
   * The buy-limit guard as written compares the amount with the BTC
   * available: one BTC and no EUR is enough to reserve 100 EUR, driving the
   * EUR available below zero.
   */
  lemma BuyLimitOverdraws()
    ensures var p := BuyLimit(Ledger(1.0, 1.0, 0.0, 0.0, [], 0, 0, 0, 0), 1.0, 100.0);
      p.result.Placed? && p.ledger.eurAvailable == -100.0
  {
  }

  /** The intended buy-limit placement: funded by the EUR available. */
  function FundedBuyLimit(l: Ledger, amt: real, price: real): (p: Placing)
    ensures l.eurAvailable >= 0.0 ==> p.ledger.eurAvailable >= 0.0
    ensures p.result.Placed? <==> amt * price <= l.eurAvailable
  {
    if amt * price <= l.eurAvailable then
      var o := Order(l.nextOrderId, amt, price, Buy);
      Placing(l.(orders := l.orders + [o], nextOrderId := l.nextOrderId + 1, placed := l.placed + 1,
                 eurAvailable := l.eurAvailable - amt * price),
              Placed(o))
    else
      Placing(l, Rejected("Not enough EUR available."))
  }
}
