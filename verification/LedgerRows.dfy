/** What the table says after a run: which rows are open, and what profit they hold. */
module LedgerRows {
  import opened Options
  import opened Ledger
  import opened LedgerLaws
  import opened LedgerRuns
  import opened LedgerHistory

  // ----- open rows -----

  // A row that is open in the table although no position has its id.
  ghost predicate Orphan(b: Book, id: nat) {
    && b.db.Some? && IsOpenRow(b.db.value, id) && id < b.nextId
    && forall s :: s in b.open ==> b.open[s].id != id
  }

  // The open rows are those of the open positions and no others.
  ghost predicate Mirrors(b: Book) {
    forall id :: !Orphan(b, id)
  }

  // Every row survives as it was, except perhaps the one of the position in `symbol`.
  ghost predicate KeepsRows(b: Book, b1: Book, symbol: string) {
    && b.db.Some? && b1.db.Some? && b.nextId <= b1.nextId
    && forall id :: id in b.db.value.rows && (symbol in b.open ==> b.open[symbol].id != id) ==>
      id in b1.db.value.rows && b1.db.value.rows[id] == b.db.value.rows[id]
  }

  lemma FlipKeepsRows(b: Book, o: Order, price: real, fees: real)
    requires b.db.Some? && o.symbol in b.open
    ensures KeepsRows(b, Flip(b, o, price, fees).0, o.symbol)
  {
    var b1 := CloseAt(b, o.symbol, price, fees).0;
    assert KeepsRows(b, b1, o.symbol);
    var b2 := OpenAt(b1, o.symbol, Adds(o.side), price, TotalQty(o.fills) - b.open[o.symbol].qty, fees).0;
    assert KeepsRows(b1, b2, o.symbol);
  }

  // An order touches no position but its symbol's, and no row but that position's.
  lemma ApplyKeepsRows(b: Book, o: Order, price: real, fees: real)
    requires Agrees(b) && ValidFills(o.fills) && b.db.Some?
    ensures KeepsRows(b, Apply(b, o, price, fees).0, o.symbol)
  {
    TotalQtyPositive(o.fills);
    if o.symbol in b.open {
      if Reduces(b, o) {
        PartialCloseRows(b.db.value, b.open[o.symbol].id, b.nextId, TotalQty(o.fills), price, fees);
      } else if !Averages(b, o) {
        FlipKeepsRows(b, o, price, fees);
      }
    }
  }

  lemma ApplyKeepsHoldings(b: Book, o: Order, price: real, fees: real)
    requires ValidFills(o.fills) && PositiveHoldings(b)
    ensures var b1 := Apply(b, o, price, fees).0;
      && (forall s :: s != o.symbol ==> (s in b1.open <==> s in b.open) && (s in b.open ==> b1.open[s] == b.open[s]))
      && (o.symbol in b1.open ==>
            b1.open[o.symbol].id >= b.nextId || (o.symbol in b.open && b1.open[o.symbol].id == b.open[o.symbol].id))
  {
    TotalQtyPositive(o.fills);
  }

  // It inserts one beside the position's own row only when it reduces.
  lemma ApplyInsertsRows(b: Book, o: Order, price: real, fees: real)
    requires Agrees(b) && ValidFills(o.fills) && b.db.Some? && Apply(b, o, price, fees).1
    ensures var b1 := Apply(b, o, price, fees).0;
      && b1.db.Some?
      && (Reduces(b, o) ==> IsOpenRow(b1.db.value, b.nextId) && b.nextId < b1.nextId && b1.open.Keys == b.open.Keys)
      && (Reduces(b, o) ==> b1.open[o.symbol].id != b.nextId)
      && (!Reduces(b, o) ==> forall id :: IsOpenRow(b1.db.value, id) ==>
            (o.symbol in b1.open && b1.open[o.symbol].id == id)
            || (IsOpenRow(b.db.value, id) && (o.symbol in b.open ==> b.open[o.symbol].id != id)))
  {
    TotalQtyPositive(o.fills);
  }

  lemma OrderRows(b: Book, o: Order, feeRate: real)
    requires Agrees(b) && ValidFills(o.fills) && b.db.Some?
    ensures var (b1, ok) := OnOrderFilled(b, o, feeRate);
      && (forall id :: Orphan(b, id) ==> Orphan(b1, id))
      && (ok && Reduces(b, o) ==> Orphan(b1, b.nextId))
      && (ok && !Reduces(b, o) && Mirrors(b) ==> Mirrors(b1))
  {
    TotalQtyPositive(o.fills);
    var price, fees := TotalValue(o.fills) / TotalQty(o.fills), TotalFees(o.fills, feeRate);
    var (b1, ok) := Apply(b, o, price, fees);
    ApplyKeepsRows(b, o, price, fees);
    ApplyKeepsHoldings(b, o, price, fees);
    if ok {
      ApplyInsertsRows(b, o, price, fees);
    }
    if ok && !Reduces(b, o) {
      forall id | Orphan(b1, id)
        ensures Orphan(b, id)
      {
      }
    }
  }

  // The closed part of a partial close is inserted without its exit columns, so its row stays
  // open for good: after a run filled without error the open rows of the table are those of the
  // open positions exactly when no order of the run reduced a position.
  lemma {:induction false} TableMirrorsUnlessReduced(db: seq<bool>, orders: seq<Order>, feeRate: real)
    requires ValidOrders(orders) && Run(Some(db), orders, feeRate).1
    ensures Mirrors(Run(Some(db), orders, feeRate).0) <==> NeverReduces(orders)
  {
    var n := |orders| - 1;
    if n >= 0 {
      var init, o := orders[..n], orders[n];
      TableMirrorsUnlessReduced(db, init, feeRate);
      RunBooks(Some(db), init, feeRate, o.symbol);
      var b := Run(Some(db), init, feeRate).0;
      ReducesIsNet(b, o);
      OrderRows(b, o, feeRate);
      assert ReducesAt(orders, n) <==> Reduces(b, o);
      NeverReducesSteps(orders);
    }
  }

  function BuyThenSell(s: string, bought: Fill, sold: Fill): seq<Order> {
    [Order(s, Buy, [bought]), Order(s, Sell, [sold])]
  }

  lemma OneFill(f: Fill)
    ensures TotalQty([f]) == f.quantity && TotalValue([f]) == Value(f) && TotalFees([f], 0.0) == 0.0
  {
    assert [f][..0] == [];
  }

  lemma BuyPays(s: string, bought: Fill)
    requires bought.quantity > 0.0
    ensures TapeNet(Tape([Order(s, Buy, [bought])], s)) == bought.quantity
  {
    var buy := Order(s, Buy, [bought]);
    OneFill(bought);
    OrderPays(buy, TotalValue(buy.fills) / TotalQty(buy.fills), s);
  }

  lemma SellingAPartReduces(s: string, bought: Fill, sold: Fill)
    requires 0.0 < sold.quantity < bought.quantity
    ensures ValidOrders(BuyThenSell(s, bought, sold)) && !NeverReduces(BuyThenSell(s, bought, sold))
  {
    var orders := BuyThenSell(s, bought, sold);
    OneFill(bought);
    OneFill(sold);
    BuyPays(s, bought);
    assert orders[..1] == [orders[0]];
    assert ReducesAt(orders, 1);
  }

  // What the code comes to at once: a part of what was bought is sold, and nothing fails.
  lemma PartialSellLeavesRow(s: string, bought: Fill, sold: Fill, outcomes: seq<bool>, feeRate: real)
    requires 0.0 < sold.quantity < bought.quantity && AllUp(outcomes)
    ensures ValidOrders(BuyThenSell(s, bought, sold))
    ensures var (b, ok) := Run(Some(outcomes), BuyThenSell(s, bought, sold), feeRate); ok && !Mirrors(b)
  {
    SellingAPartReduces(s, bought, sold);
    HealthyRun(outcomes, BuyThenSell(s, bought, sold), feeRate);
    TableMirrorsUnlessReduced(outcomes, BuyThenSell(s, bought, sold), feeRate);
  }

  // ----- the profit in the rows -----

  // The profit stored with row `id`, as far as it is one of `t`.
  function Stored(rows: map<nat, Row>, id: nat, t: string): real {
    if id in rows && rows[id].symbol == t && rows[id].exit.Some? then rows[id].exit.value.realized else 0.0
  }

  // That of all rows with an id below `n`.
  function RowsRealised(rows: map<nat, Row>, n: nat, t: string): real {
    if n == 0 then 0.0 else RowsRealised(rows, n - 1, t) + Stored(rows, n - 1, t)
  }

  // The profit that has been logged for `t`, net of the exit fees.
  function Logged(rs: seq<Realisation>, t: string): real {
    if rs == [] then 0.0
    else
      var last := rs[|rs| - 1];
      Logged(rs[..|rs| - 1], t) + if last.symbol == t then last.pnl else 0.0
  }

  lemma LoggedAppend(rs: seq<Realisation>, r: Realisation, t: string)
    ensures Logged(rs + [r], t) == Logged(rs, t) + if r.symbol == t then r.pnl else 0.0
  {
    assert (rs + [r])[..|rs|] == rs;
  }

  // Storing a profit with one more row adds just that; other changes add nothing.
  lemma {:induction false} OneRowStores(rows: map<nat, Row>, rows': map<nat, Row>, n: nat, t: string, id: nat)
    requires forall k :: 0 <= k < n && k != id ==> Stored(rows', k, t) == Stored(rows, k, t)
    ensures RowsRealised(rows', n, t) ==
      RowsRealised(rows, n, t) + if id < n then Stored(rows', id, t) - Stored(rows, id, t) else 0.0
  {
    if n > 0 {
      OneRowStores(rows, rows', n - 1, t, id);
    }
  }

  // What is logged for `t` and not stored in a row.
  function Unstored(b: Book, t: string): real
    requires b.db.Some?
  {
    Logged(b.realised, t) - RowsRealised(b.db.value.rows, b.nextId, t)
  }

  lemma OpenStores(b: Book, s: string, side: Side, price: real, qty: real, fees: real, t: string)
    requires b.db.Some? && forall id :: id in b.db.value.rows ==> id < b.nextId
    ensures var b1 := OpenAt(b, s, side, price, qty, fees).0;
      b1.db.Some? && Unstored(b1, t) == Unstored(b, t)
  {
    var rows' := OpenAt(b, s, side, price, qty, fees).0.db.value.rows;
    OneRowStores(b.db.value.rows, rows', b.nextId, t, b.nextId);
  }

  lemma CloseStores(b: Book, s: string, price: real, fees: real, t: string)
    requires Agrees(b) && b.db.Some? && s in b.open
    ensures var (b1, ok) := CloseAt(b, s, price, fees);
      b1.db.Some? && (ok ==> Unstored(b1, t) == Unstored(b, t))
  {
    var h := b.open[s];
    var (b1, ok) := CloseAt(b, s, price, fees);
    assert RowAgrees(b, s);
    if ok {
      var r := Realisation(s, Unrealised(h, price) - fees, fees);
      assert b1.realised == b.realised + [r];
      assert b1.db.value.rows[h.id].exit.value.realized == r.pnl;
      LoggedAppend(b.realised, r, t);
      OneRowStores(b.db.value.rows, b1.db.value.rows, b.nextId, t, h.id);
    }
  }

  lemma AverageStores(b: Book, s: string, price: real, qty: real, fees: real, t: string)
    requires Agrees(b) && b.db.Some? && s in b.open && qty > 0.0
    ensures var (b1, ok) := AverageAt(b, s, price, qty, fees);
      b1.db.Some? && Unstored(b1, t) == Unstored(b, t)
  {
    var b1 := AverageAt(b, s, price, qty, fees).0;
    OneRowStores(b.db.value.rows, b1.db.value.rows, b.nextId, t, b.nextId);
  }

  // What a partial close realises.
  function ReducedProfit(h: Holding, qty: real, price: real, fees: real): real {
    Gross(h.side, h.entry, price, qty) - fees
  }

  lemma ReduceStores(b: Book, s: string, qty: real, price: real, fees: real, t: string)
    requires Agrees(b) && b.db.Some? && s in b.open
    ensures var (b1, ok) := ReduceAt(b, s, qty, price, fees);
      && b1.db.Some?
      && var profit := if s == t then ReducedProfit(b.open[s], qty, price, fees) else 0.0;
         (ok ==> Unstored(b1, t) == Unstored(b, t) + profit)
  {
    var h := b.open[s];
    var (b1, ok) := ReduceAt(b, s, qty, price, fees);
    assert RowAgrees(b, s);
    if ok {
      AgreeingFits(b);
      ReduceDone(b, s, qty, price, fees);
      LoggedAppend(b.realised, Realisation(s, ReducedProfit(h, qty, price, fees), fees), t);
      ReduceKeepsStored(b, s, qty, price, fees, t);
    }
  }

  lemma ReduceKeepsStored(b: Book, s: string, qty: real, price: real, fees: real, t: string)
    requires Agrees(b) && b.db.Some? && s in b.open && ReduceAt(b, s, qty, price, fees).1
    ensures var b1 := ReduceAt(b, s, qty, price, fees).0;
      && b1.db.Some?
      && RowsRealised(b1.db.value.rows, b1.nextId, t) == RowsRealised(b.db.value.rows, b.nextId, t)
  {
    var rows' := ReduceAt(b, s, qty, price, fees).0.db.value.rows;
    assert RowAgrees(b, s);
    PartialCloseRows(b.db.value, b.open[s].id, b.nextId, qty, price, fees);
    OneRowStores(b.db.value.rows, rows', b.nextId, t, b.nextId);
    assert Stored(rows', b.nextId, t) == 0.0;
  }

  lemma FlipStores(b: Book, o: Order, price: real, fees: real, t: string)
    requires Agrees(b) && b.db.Some? && o.symbol in b.open
    ensures var (b1, ok) := Flip(b, o, price, fees);
      b1.db.Some? && (ok ==> Unstored(b1, t) == Unstored(b, t))
  {
    var (b1, ok) := CloseAt(b, o.symbol, price, fees);
    var surplus := TotalQty(o.fills) - b.open[o.symbol].qty;
    CloseStores(b, o.symbol, price, fees, t);
    CloseAgrees(b, o.symbol, price, fees);
    if ok && surplus > 0.0 {
      OpenStores(b1, o.symbol, Adds(o.side), price, surplus, fees, t);
    }
  }

  // What one order realises that no row stores.
  function PartialProfit(b: Book, o: Order, feeRate: real, t: string): real
    requires ValidFills(o.fills)
  {
    TotalQtyPositive(o.fills);
    var qty := TotalQty(o.fills);
    if o.symbol == t && Reduces(b, o)
    then ReducedProfit(b.open[t], qty, TotalValue(o.fills) / qty, TotalFees(o.fills, feeRate))
    else 0.0
  }

  lemma OrderStores(b: Book, o: Order, feeRate: real, t: string)
    requires Agrees(b) && b.db.Some? && ValidFills(o.fills)
    ensures var (b1, ok) := OnOrderFilled(b, o, feeRate);
      b1.db.Some? && (ok ==> Unstored(b1, t) == Unstored(b, t) + PartialProfit(b, o, feeRate, t))
  {
    TotalQtyPositive(o.fills);
    var qty := TotalQty(o.fills);
    var price, fees := TotalValue(o.fills) / qty, TotalFees(o.fills, feeRate);
    if o.symbol !in b.open {
      OpenStores(b, o.symbol, Adds(o.side), price, qty, fees, t);
    } else if Averages(b, o) {
      AverageStores(b, o.symbol, price, qty, fees, t);
    } else if Reduces(b, o) {
      ReduceStores(b, o.symbol, qty, price, fees, t);
    } else {
      FlipStores(b, o, price, fees, t);
    }
  }

  // The profit of all partial closes of a run.
  function PartialProfits(db: seq<bool>, orders: seq<Order>, feeRate: real, t: string): real
    requires ValidOrders(orders)
  {
    if orders == [] then 0.0
    else
      var n := |orders| - 1;
      var b := Run(Some(db), orders[..n], feeRate).0;
      PartialProfits(db, orders[..n], feeRate, t) + PartialProfit(b, orders[n], feeRate, t)
  }

  // After a run filled without error the profit logged for a symbol is that stored in its rows
  // and that of its partial closes; without any of these the rows tell all of it.
  lemma {:induction false} RowsTellProfit(db: seq<bool>, orders: seq<Order>, feeRate: real, t: string)
    requires ValidOrders(orders) && Run(Some(db), orders, feeRate).1
    ensures var b := Run(Some(db), orders, feeRate).0;
      && Logged(b.realised, t) ==
           RowsRealised(b.db.value.rows, b.nextId, t) + PartialProfits(db, orders, feeRate, t)
      && (NeverReduces(orders) ==> PartialProfits(db, orders, feeRate, t) == 0.0)
  {
    var n := |orders| - 1;
    if n >= 0 {
      RowsTellProfit(db, orders[..n], feeRate, t);
      RunBooks(Some(db), orders[..n], feeRate, orders[n].symbol);
      var b := Run(Some(db), orders[..n], feeRate).0;
      OrderStores(b, orders[n], feeRate, t);
      ReducesIsNet(b, orders[n]);
      NeverReducesSteps(orders);
    }
  }

  // A run that reduces need not be one whose rows miss profit: a partial close at the entry price
  // and without fees realises none.
  lemma EvenPartialSell(s: string, bought: Fill, sold: Fill, outcomes: seq<bool>)
    requires 0.0 < sold.quantity < bought.quantity && bought.price == sold.price && AllUp(outcomes)
    ensures ValidOrders(BuyThenSell(s, bought, sold)) && !NeverReduces(BuyThenSell(s, bought, sold))
    ensures var b := Run(Some(outcomes), BuyThenSell(s, bought, sold), 0.0).0;
      b.db.Some? && Logged(b.realised, s) == RowsRealised(b.db.value.rows, b.nextId, s)
  {
    var orders := BuyThenSell(s, bought, sold);
    SellingAPartReduces(s, bought, sold);
    HealthyRun(outcomes, orders, 0.0);
    RowsTellProfit(outcomes, orders, 0.0, s);
    assert orders[..1] == [orders[0]];
    OneFillEntry(s, bought, outcomes);
    RowsTellProfit(outcomes, [orders[0]], 0.0, s);
    EvenProfit(Run(Some(outcomes), [orders[0]], 0.0).0, orders[1], sold);
  }

  lemma OneFillEntry(s: string, bought: Fill, outcomes: seq<bool>)
    requires bought.quantity > 0.0 && AllUp(outcomes)
    ensures ValidOrders([Order(s, Buy, [bought])])
    ensures var (b, ok) := Run(Some(outcomes), [Order(s, Buy, [bought])], 0.0);
      ok && (s in b.open ==> b.open[s].entry == bought.price)
    ensures NeverReduces([Order(s, Buy, [bought])])
  {
    var orders := [Order(s, Buy, [bought])];
    HealthyRun(outcomes, orders, 0.0);
    assert orders[..0] == [];
    EntryBetweenFills(Some(outcomes), orders, 0.0, s, bought.price, bought.price);
  }

  lemma EvenProfit(b: Book, o: Order, sold: Fill)
    requires o.fills == [sold] && sold.quantity > 0.0 && (o.symbol in b.open ==> b.open[o.symbol].entry == sold.price)
    ensures PartialProfit(b, o, 0.0, o.symbol) == 0.0
  {
    OneFill(sold);
    assert Value(sold) / sold.quantity == sold.price;
  }
}
