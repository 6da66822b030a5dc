/** What closing stores: the exit price, the profit and the fees in the rows of closed positions. */
module LedgerExits {
  import opened Arithmetic
  import opened Options
  import opened Ledger
  import opened LedgerLaws
  import opened LedgerRuns

  // The fees of an order are its value times the rate.
  lemma {:induction false} FeesOfFills(fills: seq<Fill>, feeRate: real)
    ensures TotalFees(fills, feeRate) == Times(TotalValue(fills), feeRate)
  {
    if fills != [] {
      var n := |fills| - 1;
      FeesOfFills(fills[..n], feeRate);
      SumTimes(TotalValue(fills[..n]), Value(fills[n]), feeRate);
    } else {
      assert Times(0.0, feeRate) == 0.0;
    }
  }

  lemma SumTimes(x: real, y: real, factor: real)
    ensures Times(x + y, factor) == Times(x, factor) + Times(y, factor)
  {}

  // The signed difference of two prices: what a unit earns between them.
  function Gain(side: Side, entry: real, exitPrice: real): real {
    match side
    case Long => exitPrice - entry
    case Short => entry - exitPrice
  }

  // `after` is the open row `before` closed by `o`: at the average price of the fills of `o`, with
  // the profit on its whole quantity less the fees of `o`, which are added to those it had.
  predicate ClosedBy(before: Row, after: Row, o: Order, feeRate: real) {
    && before.exit.None? && after.exit.Some?
    && o.symbol == before.symbol && before.side == Opposite(Adds(o.side)) && before.qty <= TotalQty(o.fills)
    && var price, fees := after.exit.value.price, Times(TotalValue(o.fills), feeRate);
       && Times(price, TotalQty(o.fills)) == TotalValue(o.fills)
       && after.exit.value.realized == Times(Gain(before.side, before.entry, price), before.qty) - fees
       && after == before.(exit := after.exit, unrealized := Some(0.0), fees := before.fees + fees)
  }

  // The price is then between the least and the greatest of the fills.
  lemma ExitBetweenFills(before: Row, after: Row, o: Order, feeRate: real, lo: real, hi: real)
    requires ValidFills(o.fills) && ClosedBy(before, after, o, feeRate) && Within(PricesOf(o.fills), lo, hi)
    ensures lo <= after.exit.value.price <= hi
  {
    TotalQtyPositive(o.fills);
    ValueWithin(o.fills, lo, hi);
    TimesCancels(lo, after.exit.value.price, TotalQty(o.fills));
    TimesCancels(after.exit.value.price, hi, TotalQty(o.fills));
  }

  // ----- one order -----

  // A closed row has been left alone, or has been open and is closed by `o`.
  predicate LeftOrClosed(b: Book, b1: Book, id: nat, o: Order, feeRate: real)
    requires b.db.Some? && b1.db.Some? && id in b1.db.value.rows
  {
    b1.db.value.rows[id].exit.Some? ==>
      && id in b.db.value.rows
      && var before, after := b.db.value.rows[id], b1.db.value.rows[id];
         after == before || ClosedBy(before, after, o, feeRate)
  }

  // Opening, averaging and reducing close no row.
  predicate ClosesNone(b: Book, b1: Book) {
    b.db.Some? && b1.db.Some? && forall id :: id in b1.db.value.rows && b1.db.value.rows[id].exit.Some? ==>
      id in b.db.value.rows && b1.db.value.rows[id] == b.db.value.rows[id]
  }

  lemma OpenClosesNone(b: Book, s: string, side: Side, price: real, qty: real, fees: real)
    requires b.db.Some?
    ensures ClosesNone(b, OpenAt(b, s, side, price, qty, fees).0)
  {}

  lemma AverageClosesNone(b: Book, s: string, price: real, qty: real, fees: real)
    requires b.db.Some? && s in b.open && b.open[s].qty + qty != 0.0
    ensures ClosesNone(b, AverageAt(b, s, price, qty, fees).0)
  {}

  lemma ReduceClosesNone(b: Book, s: string, qty: real, price: real, fees: real)
    requires b.db.Some? && s in b.open
    ensures ClosesNone(b, ReduceAt(b, s, qty, price, fees).0)
  {}

  // What closing writes into the row of the position, and into no other.
  lemma CloseWrites(b: Book, s: string, price: real, fees: real)
    requires Agrees(b) && b.db.Some? && s in b.open && CloseAt(b, s, price, fees).1
    ensures var b1, id := CloseAt(b, s, price, fees).0, b.open[s].id;
      && b1.db.Some? && id in b1.db.value.rows && id in b.db.value.rows
      && (forall k :: k in b1.db.value.rows && k != id ==>
            k in b.db.value.rows && b1.db.value.rows[k] == b.db.value.rows[k])
      && var before, after := b.db.value.rows[id], b1.db.value.rows[id];
         && after.exit == Some(Exit(price, Times(Gain(before.side, before.entry, price), before.qty) - fees))
         && after == before.(exit := after.exit, unrealized := Some(0.0), fees := before.fees + fees)
         && before.exit.None? && before.symbol == s && before.side == b.open[s].side && before.qty == b.open[s].qty
  {
    assert RowAgrees(b, s);
    var row := b.db.value.rows[b.open[s].id];
    GrossIsGain(row.side, row.entry, price, row.qty);
  }

  lemma GrossIsGain(side: Side, entry: real, price: real, qty: real)
    ensures Gross(side, entry, price, qty) == Times(Gain(side, entry, price), qty)
  {}

  lemma FlipCloses(b: Book, o: Order, price: real, fees: real, feeRate: real, id: nat)
    requires Agrees(b) && b.db.Some? && ValidFills(o.fills) && o.symbol in b.open && Flip(b, o, price, fees).1
    requires b.open[o.symbol].side == Opposite(Adds(o.side)) && b.open[o.symbol].qty <= TotalQty(o.fills)
    requires Times(price, TotalQty(o.fills)) == TotalValue(o.fills) && fees == Times(TotalValue(o.fills), feeRate)
    ensures var b2 := Flip(b, o, price, fees).0;
      b2.db.Some? && (id in b2.db.value.rows ==> LeftOrClosed(b, b2, id, o, feeRate))
  {
    CloseWrites(b, o.symbol, price, fees);
    var b1 := CloseAt(b, o.symbol, price, fees).0;
    var surplus := TotalQty(o.fills) - b.open[o.symbol].qty;
    if surplus > 0.0 {
      OpenClosesNone(b1, o.symbol, Adds(o.side), price, surplus, fees);
    }
  }

  lemma ApplyCloses(b: Book, o: Order, price: real, fees: real, feeRate: real, id: nat)
    requires Agrees(b) && b.db.Some? && ValidFills(o.fills) && Apply(b, o, price, fees).1
    requires Times(price, TotalQty(o.fills)) == TotalValue(o.fills) && fees == Times(TotalValue(o.fills), feeRate)
    ensures var b1 := Apply(b, o, price, fees).0;
      b1.db.Some? && (id in b1.db.value.rows ==> LeftOrClosed(b, b1, id, o, feeRate))
  {
    TotalQtyPositive(o.fills);
    var s, side, qty := o.symbol, Adds(o.side), TotalQty(o.fills);
    if s !in b.open {
      OpenClosesNone(b, s, side, price, qty, fees);
    } else if Averages(b, o) {
      AverageClosesNone(b, s, price, qty, fees);
    } else if Reduces(b, o) {
      ReduceClosesNone(b, s, qty, price, fees);
    } else {
      FlipCloses(b, o, price, fees, feeRate, id);
    }
  }

  lemma OrderCloses(b: Book, o: Order, feeRate: real, id: nat)
    requires Agrees(b) && b.db.Some? && ValidFills(o.fills) && OnOrderFilled(b, o, feeRate).1
    ensures var b1 := OnOrderFilled(b, o, feeRate).0;
      b1.db.Some? && (id in b1.db.value.rows ==> LeftOrClosed(b, b1, id, o, feeRate))
  {
    TotalQtyPositive(o.fills);
    QuotientTimes(TotalValue(o.fills), TotalQty(o.fills));
    FeesOfFills(o.fills, feeRate);
    ApplyCloses(b, o, TotalValue(o.fills) / TotalQty(o.fills), TotalFees(o.fills, feeRate), feeRate, id);
  }

  // ----- runs -----

  // Row `id`, as it is after the run, was closed by order number `k`.
  predicate ClosedInRun(db: seq<bool>, orders: seq<Order>, feeRate: real, id: nat, k: nat)
    requires ValidOrders(orders) && k < |orders|
  {
    var before, after := Run(Some(db), orders[..k], feeRate).0.db, Run(Some(db), orders, feeRate).0.db;
    && before.Some? && after.Some? && id in before.value.rows && id in after.value.rows
    && ClosedBy(before.value.rows[id], after.value.rows[id], orders[k], feeRate)
  }

  // After a run filled without error every closed row was closed by one of its orders: it holds
  // the average fill price of that order, the profit made on the position at that price less the
  // fees of that order, and these fees besides those it had.
  lemma {:induction false} ClosedRows(db: seq<bool>, orders: seq<Order>, feeRate: real, id: nat)
    requires ValidOrders(orders) && Run(Some(db), orders, feeRate).1
    requires var rows := Run(Some(db), orders, feeRate).0.db.value.rows; id in rows && rows[id].exit.Some?
    ensures exists k :: 0 <= k < |orders| && ClosedInRun(db, orders, feeRate, id, k)
  {
    var n := |orders| - 1;
    if n >= 0 {
      var b := Run(Some(db), orders[..n], feeRate).0;
      RunBooks(Some(db), orders[..n], feeRate, "");
      OrderCloses(b, orders[n], feeRate, id);
      var rows, rows1 := b.db.value.rows, Run(Some(db), orders, feeRate).0.db.value.rows;
      if rows1[id] == rows[id] {
        ClosedRows(db, orders[..n], feeRate, id);
        var k :| 0 <= k < n && ClosedInRun(db, orders[..n], feeRate, id, k);
        assert orders[..n][..k] == orders[..k];
        assert ClosedInRun(db, orders, feeRate, id, k);
      } else {
        assert ClosedInRun(db, orders, feeRate, id, n);
      }
    }
  }
}
