/** The exchange as an object, the service that feeds its fills to the ledger, and what
    paper trading can never show. */
module PaperTrading {
  import opened Arithmetic
  import opened Options
  import opened Ledger
  import opened LedgerLaws
  import opened LedgerRuns
  import opened AdverseRuns
  import opened MockExchange
  import opened PositionManager

  // ----- no free profit -----

  // Slippage that never favours the trader, and prices that are not negative.
  predicate Plausible(m: Params, prices: map<string, real>) {
    && m.baseSlippage >= 0.0 && m.marketImpact >= 0.0 && m.maxSlippage >= 0.0
    && forall s :: s in prices ==> prices[s] >= 0.0
  }

  lemma SlippageNotNegative(m: Params, quantity: real, price: real)
    requires m.baseSlippage >= 0.0 && m.marketImpact >= 0.0 && m.maxSlippage >= 0.0
    requires quantity >= 0.0 && price >= 0.0
    ensures Slippage(m, quantity, price) >= 0.0
  {
    TimesMonotone(0.0, quantity, price);
    var size := quantity * price / 1000000.0;
    TimesMonotone(0.0, m.marketImpact, size);
  }

  // Every buy fill is at or above the mid price, every sell fill at or below it.
  lemma FillsAdverse(m: Params, side: OrderSide, quantity: real, mid: real, start: int)
    requires m.baseSlippage >= 0.0 && m.marketImpact >= 0.0 && m.maxSlippage >= 0.0
    requires quantity > 0.0 && mid >= 0.0
    ensures var fills := MarketFills(m, side, quantity, mid, start);
      forall i :: 0 <= i < |fills| ==> Adverse(Adds(side), fills[i].price, mid)
  {
    var slippage, base := Slippage(m, quantity, mid), BasePrice(m, side, quantity, mid);
    SlippageNotNegative(m, quantity, mid);
    FillPrices(side, quantity, base, start);
    BaseAdverse(side, mid, slippage);
    forall i | 0 <= i < MAX_FILLS
      ensures Adverse(Adds(side), VariedPrice(side, base, i), mid)
    {
      if base >= 0.0 {
        VariedPriceAdverse(side, base, i);
      } else {
        NegativeBase(side, base, i);
      }
    }
  }

  lemma BaseAdverse(side: OrderSide, mid: real, slippage: real)
    requires mid >= 0.0 && slippage >= 0.0
    ensures mid * (1.0 - slippage) <= mid <= mid * (1.0 + slippage)
  {
    TimesMonotone(1.0, 1.0 + slippage, mid);
    TimesMonotone(1.0 - slippage, 1.0, mid);
  }

  lemma NegativeBase(side: OrderSide, base: real, count: nat)
    requires base < 0.0 && count < MAX_FILLS
    ensures VariedPrice(side, base, count) < 0.0
  {
    if count == 0 {
    } else if count == 1 {
    } else if count == 2 {
    } else if count == 3 {
    } else {
      assert count == 4;
    }
  }

  // A request and the time it is placed at.
  datatype Placement = Placement(req: Request, at: int)

  // What the position manager is told of a series of requests: the fills of the valid market
  // orders among them, at the prices of `prices`.
  function FilledOrders(m: Params, prices: map<string, real>, placements: seq<Placement>): (orders: seq<Order>)
    ensures ValidOrders(orders)
  {
    if placements == [] then []
    else
      var n := |placements| - 1;
      var (req, at) := (placements[n].req, placements[n].at);
      var before := FilledOrders(m, prices, placements[..n]);
      if ValidRequest(req) && req.orderType == Market then before + [FilledOrder(m, prices, req, at)] else before
  }

  function FilledOrder(m: Params, prices: map<string, real>, req: Request, at: int): (o: Order)
    requires req.quantity > 0.0
    ensures ValidFills(o.fills) && TotalQty(o.fills) == req.quantity
  {
    var mid := Mid(prices, req.symbol);
    PartialFillsConserve(req.side, req.quantity, BasePrice(m, req.side, req.quantity, mid), at);
    Order(req.symbol, req.side, MarketFills(m, req.side, req.quantity, mid, at))
  }

  lemma {:induction false} FilledOrdersAdverse(m: Params, prices: map<string, real>, placements: seq<Placement>,
                                               t: string)
    requires Plausible(m, prices)
    ensures AdverseOrders(FilledOrders(m, prices, placements), t, Mid(prices, t))
  {
    if placements != [] {
      var n := |placements| - 1;
      var (req, at) := (placements[n].req, placements[n].at);
      FilledOrdersAdverse(m, prices, placements[..n], t);
      if ValidRequest(req) && req.orderType == Market {
        FillsAdverse(m, req.side, req.quantity, Mid(prices, req.symbol), at);
        assert AdverseOrder(FilledOrder(m, prices, req, at), Mid(prices, req.symbol));
      }
    }
  }

  // With constant mid prices and slippage that is not negative, no series of orders ever shows
  // a profit on any symbol: realised profit before fees plus the open position valued at the mid
  // price is at most zero. This is so with a database, whichever of its statements fail, and
  // without one, although then the orders that reduce a position are dropped.
  lemma NoFreeProfit(m: Params, prices: map<string, real>, placements: seq<Placement>, db: Option<seq<bool>>,
                     feeRate: real, t: string)
    requires Plausible(m, prices)
    ensures Worth(Run(db, FilledOrders(m, prices, placements), feeRate).0, t, Mid(prices, t)) <= 0.0
  {
    FilledOrdersAdverse(m, prices, placements, t);
    AdverseRunLoses(db, FilledOrders(m, prices, placements), feeRate, t, Mid(prices, t));
  }

  // ----- the exchange -----

  datatype OrderState = OrderState(req: Request, filledQty: real, avgFillPrice: real, status: OrderStatus,
                                   createdAt: int, updatedAt: int, filledAt: Option<int>)

  class PlacedOrder {
    const id: nat
    var state: OrderState

    constructor (id: nat, req: Request, now: int)
      ensures this.id == id && state == OrderState(req, 0.0, 0.0, Pending, now, now, None)
    {
      this.id, state := id, OrderState(req, 0.0, 0.0, Pending, now, now, None);
    }
  }

  // The state of the new order after a valid request is placed.
  function Placed(m: Params, prices: map<string, real>, req: Request, now: int): OrderState
    requires req.quantity > 0.0
  {
    if req.orderType == Market then
      var fills := MarketFills(m, req.side, req.quantity, Mid(prices, req.symbol), now);
      OrderState(req, req.quantity, TotalValue(fills) / req.quantity, Filled, now, now, Some(now))
    else OrderState(req, 0.0, 0.0, Open, now, now, None)
  }

  // A market order is filled completely at its average price, a limit order waits.
  lemma PlacedMeans(m: Params, prices: map<string, real>, req: Request, now: int)
    requires req.quantity > 0.0
    ensures
      var o := Placed(m, prices, req, now);
      var fills := MarketFills(m, req.side, req.quantity, Mid(prices, req.symbol), now);
      if req.orderType == Market
      then o == OrderState(req, req.quantity, o.avgFillPrice, Filled, now, now, Some(now))
           && Times(o.avgFillPrice, req.quantity) == TotalValue(fills)
      else o == OrderState(req, 0.0, 0.0, Open, now, now, None)
  {
    if req.orderType == Market {
      var fills := MarketFills(m, req.side, req.quantity, Mid(prices, req.symbol), now);
      QuotientTimes(TotalValue(fills), req.quantity);
    }
  }

  // A filled order was filled completely: its fills add up to its quantity, and their values to
  // the filled quantity at the average price. Any other order has no fills.
  predicate Consistent(o: OrderState, hasFills: bool, fills: seq<Fill>) {
    if o.status == Filled then
      && hasFills && ValidFills(fills)
      && o.filledQty == o.req.quantity == TotalQty(fills)
      && o.filledQty * o.avgFillPrice == TotalValue(fills)
    else !hasFills && o.filledQty == 0.0
  }

  class Exchange {
    const params: Params
    var marketPrices: map<string, real>
    var orders: map<nat, PlacedOrder>
    var fills: map<nat, seq<Fill>>
    var nextId: nat

    ghost predicate Valid()
      reads this, orders.Values
    {
      && fills.Keys <= orders.Keys
      && (forall id :: id in orders ==> id < nextId && orders[id].id == id)
      && (forall id :: id in orders ==> Consistent(orders[id].state, id in fills, FillsOf(id)))
    }

    // Of an order without fills there is an empty list.
    function FillsOf(id: nat): seq<Fill>
      reads this`fills
    {
      if id in fills then fills[id] else []
    }

    constructor Default()
      ensures Valid() && orders == map[] && fills == map[] && marketPrices == map[]
      ensures params == Params(0.0005, 0.0001, 0.003)
    {
      params := DEFAULT_PARAMS;
      marketPrices, orders, fills, nextId := map[], map[], map[], 0;
    }

    constructor (params: Params)
      ensures Valid() && orders == map[] && fills == map[] && marketPrices == map[] && this.params == params
    {
      this.params := params;
      marketPrices, orders, fills, nextId := map[], map[], map[], 0;
    }

    method SetMarketPrice(symbol: string, price: real)
      requires Valid()
      modifies this`marketPrices
      ensures Valid() && marketPrices == old(marketPrices)[symbol := price]
    {
      marketPrices := marketPrices[symbol := price];
    }

    // What an order is to those who are told of it.
    function OrderOf(id: nat): Order
      requires id in orders
      reads this`orders, this`fills, orders.Values
    {
      Order(orders[id].state.req.symbol, orders[id].state.req.side, FillsOf(id))
    }

    // A request that is not valid is rejected and leaves no trace. A valid market order is
    // filled at once, a valid limit order stays open.
    method PlaceOrder(req: Request, now: int) returns (orderId: Option<nat>)
      requires Valid()
      modifies this`orders, this`fills, this`nextId
      ensures Valid()
      ensures orderId.None? <==>
        || req.symbol == "" || req.side == UnknownSide || req.orderType == UnknownType
        || req.quantity <= 0.0 || (req.orderType == Limit && req.price <= 0.0)
      ensures orderId.None? ==> orders == old(orders) && fills == old(fills)
      ensures orderId.Some? ==>
        && orderId.value !in old(orders) && orderId.value in orders
        && orders == old(orders)[orderId.value := orders[orderId.value]]
        && fresh(orders[orderId.value])
        && orders[orderId.value].state == Placed(params, marketPrices, req, now)
      ensures orderId.Some? && req.orderType == Market ==>
        && fills == old(fills)[orderId.value := FillsOf(orderId.value)]
        && OrderOf(orderId.value) == FilledOrder(params, marketPrices, req, now)
      ensures orderId.Some? && req.orderType == Limit ==> fills == old(fills)
    {
      if !ValidRequest(req) {
        return None;
      }
      var order := new PlacedOrder(nextId, req, now);
      var newFills := [];
      if req.orderType == Market {
        newFills := SimulateMarketFill(order, now);
      } else {
        order.state := order.state.(status := Open, updatedAt := now);
      }
      StoreOrder(order, newFills);
      orderId := Some(order.id);
    }

    method StoreOrder(order: PlacedOrder, newFills: seq<Fill>)
      requires Valid() && order.id == nextId && order !in orders.Values
      requires Consistent(order.state, newFills != [], newFills)
      modifies this`orders, this`fills, this`nextId
      ensures Valid() && orders == old(orders)[order.id := order]
      ensures fills == if newFills == [] then old(fills) else old(fills)[order.id := newFills]
      ensures order.id !in old(orders) && order.id !in old(fills)
    {
      assert nextId !in orders;
      orders := orders[order.id := order];
      if newFills != [] {
        fills := fills[order.id := newFills];
      }
      nextId := nextId + 1;
    }

    method SimulateMarketFill(order: PlacedOrder, now: int) returns (newFills: seq<Fill>)
      requires var req := order.state.req;
        && req.quantity > 0.0 && req.orderType == Market
        && order.state == OrderState(req, 0.0, 0.0, Pending, now, now, None)
      modifies order
      ensures var req := old(order.state.req);
        && newFills == MarketFills(params, req.side, req.quantity, Mid(marketPrices, req.symbol), now)
        && order.state == Placed(params, marketPrices, req, now)
        && Consistent(order.state, true, newFills)
    {
      var req := order.state.req;
      var avgPrice;
      newFills, avgPrice := FillAtMarket(req, now);
      order.state := order.state.(filledQty := req.quantity, avgFillPrice := avgPrice, status := Filled,
                                  updatedAt := now, filledAt := Some(now));
    }

    method FillAtMarket(req: Request, now: int) returns (newFills: seq<Fill>, avgPrice: real)
      requires req.quantity > 0.0
      ensures newFills == MarketFills(params, req.side, req.quantity, Mid(marketPrices, req.symbol), now)
      ensures ValidFills(newFills) && TotalQty(newFills) == req.quantity
      ensures avgPrice == TotalValue(newFills) / req.quantity && req.quantity * avgPrice == TotalValue(newFills)
    {
      var midPrice := DEFAULT_MID;
      if req.symbol in marketPrices {
        midPrice := marketPrices[req.symbol];
      }
      var fillPrice := BasePrice(params, req.side, req.quantity, midPrice);
      newFills := SimulatePartialFills(req.side, req.quantity, fillPrice, now);
      PartialFillsConserve(req.side, req.quantity, fillPrice, now);
      avgPrice := AverageFillPrice(newFills);
    }

    static method AverageFillPrice(fs: seq<Fill>) returns (avgPrice: real)
      requires ValidFills(fs)
      ensures TotalQty(fs) > 0.0 && avgPrice == TotalValue(fs) / TotalQty(fs)
      ensures TotalQty(fs) * avgPrice == TotalValue(fs)
    {
      var totalValue, totalQty := 0.0, 0.0;
      for i := 0 to |fs|
        invariant totalValue == TotalValue(fs[..i]) && totalQty == TotalQty(fs[..i])
      {
        assert fs[..i + 1][..i] == fs[..i];
        totalValue := totalValue + Value(fs[i]);
        totalQty := totalQty + fs[i].quantity;
      }
      assert fs[..|fs|] == fs;
      TotalQtyPositive(fs);
      avgPrice := totalValue / totalQty;
      QuotientTimes(totalValue, totalQty);
    }

    method SimulatePartialFills(side: OrderSide, quantity: real, basePrice: real, startTime: int)
      returns (fs: seq<Fill>)
      ensures fs == SimulatedFills(side, quantity, basePrice, startTime)
    {
      if quantity < 1.0 {
        return [Fill(basePrice, quantity, startTime)];
      }
      fs := [];
      var remainingQty, fillTime, fillCount := quantity, startTime, 0;
      while remainingQty > 0.0 && fillCount < MAX_FILLS
        invariant 0 <= fillCount
        invariant remainingQty == Remaining(quantity, fillCount) && fillTime == Clock(startTime, fillCount)
        invariant NumberOfFills(quantity, fillCount) == NumberOfFills(quantity, 0)
        invariant fs == FirstFills(side, quantity, basePrice, startTime, fillCount)
        decreases MAX_FILLS - fillCount
      {
        var fillQty := NextQuantity(remainingQty, fillCount);
        fs := fs + [Fill(VariedPrice(side, basePrice, fillCount), fillQty, fillTime)];
        remainingQty := remainingQty - fillQty;
        fillCount := fillCount + 1;
        fillTime := fillTime + Delay(fillCount);
      }
    }

    // Only an order that is still open can be cancelled, so never one that has been filled.
    method CancelOrder(orderId: nat, now: int) returns (ok: bool)
      requires Valid()
      modifies orders.Values
      ensures Valid()
      ensures ok <==> (orderId in orders && old(orders[orderId].state.status) in {Open, Pending})
      ensures ok ==> orders[orderId].state == old(orders[orderId].state).(status := Cancelled, updatedAt := now)
      ensures forall id :: id in orders && !(ok && id == orderId) ==> orders[id].state == old(orders[id].state)
    {
      if orderId !in orders || (orders[orderId].state.status != Open && orders[orderId].state.status != Pending) {
        return false;
      }
      var order := orders[orderId];
      order.state := order.state.(status := Cancelled, updatedAt := now);
      ok := true;
    }
  }

  // Tells the manager of an order that has been filled; without a session it refuses.
  method ReportFills(exchange: Exchange, manager: PositionManager, orderId: nat) returns (ok: bool)
    requires exchange.Valid() && orderId in exchange.orders && exchange.orders[orderId].state.status == Filled
    requires manager.Valid() && PositiveHoldings(manager.View())
    modifies manager, manager.db, manager.openPositions.Values
    ensures exchange.Valid() && manager.Valid() && PositiveHoldings(manager.View())
    ensures orderId in exchange.fills && ValidFills(exchange.fills[orderId])
    ensures manager.session == old(manager.session)
    ensures manager.session.None? ==> !ok && manager.View() == old(manager.View())
    ensures manager.session.Some? ==>
      (manager.View(), ok) == OnOrderFilled(old(manager.View()), exchange.OrderOf(orderId), manager.feeRate)
  {
    var state := exchange.orders[orderId].state;
    assert Consistent(state, orderId in exchange.fills, exchange.FillsOf(orderId));
    var filled := Order(state.req.symbol, state.req.side, exchange.fills[orderId]);
    HoldingsStayPositive(manager.View(), filled, manager.feeRate);
    ok := manager.OnOrderFilled(filled);
  }

  // A market order from end to end: the fills the exchange gives it are what the ledger books,
  // if a session is active. An error of the manager is not passed on.
  method PlaceMarketOrder(exchange: Exchange, manager: PositionManager, req: Request, now: int)
    returns (orderId: Option<nat>)
    requires exchange.Valid() && manager.Valid() && PositiveHoldings(manager.View())
    requires req.orderType == Market
    modifies exchange, manager, manager.db, manager.openPositions.Values
    ensures exchange.Valid() && manager.Valid() && PositiveHoldings(manager.View())
    ensures orderId.None? <==> !ValidRequest(req)
    ensures orderId.None? || old(manager.session).None? ==> manager.View() == old(manager.View())
    ensures orderId.Some? && old(manager.session).Some? ==>
      var order := FilledOrder(exchange.params, exchange.marketPrices, req, now);
      manager.View() == OnOrderFilled(old(manager.View()), order, manager.feeRate).0
  {
    orderId := exchange.PlaceOrder(req, now);
    ghost var b := manager.View();
    assert b == old(manager.View());
    if orderId.Some? {
      ghost var order := exchange.OrderOf(orderId.value);
      var ok := ReportFills(exchange, manager, orderId.value);
      assert exchange.OrderOf(orderId.value) == order;
    }
  }
}
