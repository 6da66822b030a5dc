/** The position manager: one mutable position per symbol, changed in place by order fills. */
module PositionManager {
  import opened Options
  import opened Ledger
  import opened LedgerMarks
  import opened PositionStore

  class Position {
    const id: nat
    const symbol: string
    const side: Side
    var entryPrice: real
    var quantity: real
    var fees: real
    var unrealizedPnL: Option<real>

    constructor (id: nat, symbol: string, side: Side, entryPrice: real, quantity: real, fees: real,
                 unrealizedPnL: Option<real>)
      ensures this.symbol == symbol
      ensures Value() == Holding(id, side, entryPrice, quantity, fees, unrealizedPnL)
    {
      this.id, this.symbol, this.side := id, symbol, side;
      this.entryPrice, this.quantity, this.fees, this.unrealizedPnL := entryPrice, quantity, fees, unrealizedPnL;
    }

    ghost function Value(): Holding
      reads this
    {
      Holding(id, side, entryPrice, quantity, fees, unrealizedPnL)
    }

    method Set(entryPrice: real, quantity: real, fees: real)
      modifies this
      ensures Value() == old(Value()).(entry := entryPrice, qty := quantity, fees := fees)
    {
      this.entryPrice, this.quantity, this.fees := entryPrice, quantity, fees;
    }
  }

  class PositionManager {
    const db: DB?
    const feeRate: real
    var openPositions: map<string, Position>
    var session: Option<nat>
    var nextId: nat  // where fresh UUIDs come from
    ghost var realised: seq<Realisation>  // what has been logged as realised

    // Every position is filed under its own symbol, hence under one symbol only.
    ghost predicate Valid()
      reads this
    {
      forall s :: s in openPositions ==> openPositions[s].symbol == s
    }

    ghost function Holdings(): map<string, Holding>
      reads `openPositions, openPositions.Values
    {
      map s | s in openPositions :: openPositions[s].Value()
    }

    ghost function View(): Book
      reads this, db, openPositions.Values
    {
      Book(Holdings(), if db == null then None else Some(db.State()), session, nextId, realised)
    }

    constructor (db: DB?, feeRate: real, firstId: nat)
      ensures Valid() && openPositions == map[] && this.db == db && this.feeRate == feeRate
      ensures View() == Book(map[], if db == null then None else Some(db.State()), None, firstId, [])
    {
      this.db, this.feeRate := db, feeRate;
      openPositions, session, nextId, realised := map[], None, firstId, [];
    }

    // Starts, changes or ends the session. With a database one that starts loads its open rows;
    // when the query fails, the positions held so far stay.
    method SetSession(newSession: Option<nat>)
      requires Valid()
      modifies this, db
      ensures Valid() && session == newSession
      ensures fresh(openPositions.Values - old(openPositions.Values))
      ensures Loadable(old(View()), newSession, Holdings())
      ensures View() == Switched(old(View()), newSession, Holdings())
    {
      session := newSession;
      if newSession.Some? && db != null {
        LoadOpenPositions();
      } else {
        openPositions := map[];
      }
    }

    method LoadOpenPositions()
      requires Valid() && db != null
      modifies this`openPositions, db
      ensures Valid() && fresh(openPositions.Values - old(openPositions.Values))
      ensures var (up, d) := Exec(old(db.State()));
        && db.State() == d
        && if up then Loads(d, session, Holdings()) else openPositions == old(openPositions)
    {
      var up, positions := db.GetOpenPositions(session);
      if up {
        FilePositions(positions);
        FilingLoads(db.State(), session, positions);
      }
    }

    method FilePositions(positions: seq<Listed>)
      modifies this`openPositions
      ensures Valid() && fresh(openPositions.Values) && Holdings() == Filed(positions)
    {
      openPositions := map[];
      for i := 0 to |positions|
        invariant Valid() && forall s :: s in openPositions ==> fresh(openPositions[s])
        invariant Holdings() == Filed(positions[..i])
      {
        assert positions[..i + 1][..i] == positions[..i];
        ghost var before := Holdings();
        var symbol, h := positions[i].symbol, positions[i].holding;
        var position := new Position(h.id, symbol, h.side, h.entry, h.qty, h.fees, h.unrealized);
        openPositions := openPositions[symbol := position];
        assert Holdings() == before[symbol := h];
      }
      assert positions[..|positions|] == positions;
    }

    method OnOrderFilled(order: Order) returns (ok: bool)
      requires Valid() && ValidFills(order.fills) && PositiveHoldings(View())
      modifies this, db, openPositions.Values
      ensures Valid() && session == old(session)
      ensures fresh(openPositions.Values - old(openPositions.Values))
      ensures session.None? ==> !ok && View() == old(View())
      ensures session.Some? ==> (View(), ok) == Ledger.OnOrderFilled(old(View()), order, feeRate)
    {
      if session.None? {
        return false;
      }
      var fills := order.fills;
      var totalValue, totalQty, totalFees := 0.0, 0.0, 0.0;
      for i := 0 to |fills|
        invariant totalValue == TotalValue(fills[..i])
        invariant totalQty == TotalQty(fills[..i])
        invariant totalFees == TotalFees(fills[..i], feeRate)
      {
        assert fills[..i + 1][..i] == fills[..i];
        totalValue := totalValue + Value(fills[i]);
        totalQty := totalQty + fills[i].quantity;
        totalFees := totalFees + Fee(fills[i], feeRate);
      }
      assert fills[..|fills|] == fills;
      TotalQtyPositive(fills);
      var avgFillPrice := totalValue / totalQty;
      ghost var b := View();
      if order.symbol !in openPositions {
        ok := OpenPosition(order.symbol, Adds(order.side), avgFillPrice, totalQty, totalFees);
        return;
      }
      var existing := openPositions[order.symbol];
      assert b.open[order.symbol] == existing.Value();
      if existing.side == Adds(order.side) {
        ok := AveragePosition(existing, avgFillPrice, totalQty, totalFees);
      } else if totalQty >= existing.quantity {
        var closeQty := existing.quantity;
        ok := ClosePosition(existing, avgFillPrice, totalFees);
        if ok && totalQty > closeQty {
          ok := OpenPosition(order.symbol, Adds(order.side), avgFillPrice, totalQty - closeQty, totalFees);
        }
      } else {
        ok := PartialClosePosition(existing, totalQty, avgFillPrice, totalFees);
      }
    }

    method OpenPosition(symbol: string, side: Side, entryPrice: real, quantity: real, fees: real) returns (ok: bool)
      requires Valid()
      modifies this, db
      ensures Valid() && session == old(session)
      ensures fresh(openPositions.Values - old(openPositions.Values))
      ensures (View(), ok) == OpenAt(old(View()), symbol, side, entryPrice, quantity, fees)
    {
      var position := new Position(nextId, symbol, side, entryPrice, quantity, fees, None);
      nextId := nextId + 1;
      openPositions := openPositions[symbol := position];
      ok := true;
      if db != null {
        ok := db.CreatePosition(position.id, Origin(session, position.id), symbol, side, entryPrice, quantity);
      }
      assert Holdings() == old(Holdings())[symbol := position.Value()];
    }

    method ClosePosition(position: Position, exitPrice: real, fees: real) returns (ok: bool)
      requires Valid() && position.symbol in openPositions && openPositions[position.symbol] == position
      modifies this, db
      ensures Valid() && session == old(session)
      ensures openPositions.Values <= old(openPositions.Values)
      ensures (View(), ok) == CloseAt(old(View()), position.symbol, exitPrice, fees)
    {
      ghost var b := View();
      ghost var h := b.open[position.symbol];
      assert h == position.Value();
      openPositions := openPositions - {position.symbol};
      assert Holdings() == b.open - {position.symbol};
      if db != null {
        ok := db.ClosePosition(position.id, exitPrice, fees);
        if !ok {
          assert Holdings() == b.open - {position.symbol};
          return;
        }
      }
      var realizedPnL;
      if position.side == Long {
        realizedPnL := (exitPrice - position.entryPrice) * position.quantity;
      } else {
        realizedPnL := (position.entryPrice - exitPrice) * position.quantity;
      }
      assert realizedPnL == Gross(position.side, position.entryPrice, exitPrice, position.quantity);
      assert realizedPnL == Unrealised(h, exitPrice);
      realizedPnL := realizedPnL - fees;
      realised := realised + [Realisation(position.symbol, realizedPnL, fees)];
      ok := true;
      assert realised == b.realised + [Realisation(position.symbol, Unrealised(h, exitPrice) - fees, fees)];
      assert Holdings() == b.open - {position.symbol};
    }

    method PartialClosePosition(position: Position, closeQuantity: real, exitPrice: real, fees: real) returns (ok: bool)
      requires Valid() && position.symbol in openPositions && openPositions[position.symbol] == position
      modifies this, db, position
      ensures Valid() && session == old(session) && openPositions == old(openPositions)
      ensures (View(), ok) == ReduceAt(old(View()), position.symbol, closeQuantity, exitPrice, fees)
    {
      if db == null {
        return true;
      }
      assert Holdings()[position.symbol] == position.Value();
      var pnl := PartialCloseRow(position.id, closeQuantity, exitPrice, fees);
      ok := pnl.Some?;
      if ok {
        ShrinkPosition(position, closeQuantity, pnl.value, fees);
      }
    }

    method PartialCloseRow(id: nat, closeQuantity: real, exitPrice: real, fees: real) returns (pnl: Option<real>)
      requires Valid() && db != null
      modifies this`nextId, db
      ensures Valid()
      ensures var (pnl', d) := PartialClose(old(db.State()), id, old(nextId), closeQuantity, exitPrice, fees);
        pnl == pnl' && View() == old(View()).(db := Some(d), nextId := old(nextId) + 1)
    {
      var newId := nextId;
      nextId := nextId + 1;
      pnl := db.PartialClosePosition(id, newId, closeQuantity, exitPrice, fees);
      assert Holdings() == old(Holdings());
    }

    method ShrinkPosition(position: Position, closeQuantity: real, pnl: real, fees: real)
      requires Valid() && position.symbol in openPositions && openPositions[position.symbol] == position
      modifies this`realised, position
      ensures Valid()
      ensures
        var h := old(Holdings())[position.symbol];
        var smaller := h.(qty := h.qty - closeQuantity, fees := h.fees + fees);
        View() == old(View()).(open := old(Holdings())[position.symbol := smaller],
                               realised := old(realised) + [Realisation(position.symbol, pnl, fees)])
    {
      assert Holdings()[position.symbol] == position.Value();
      position.Set(position.entryPrice, position.quantity - closeQuantity, position.fees + fees);
      realised := realised + [Realisation(position.symbol, pnl, fees)];
      assert Holdings() == old(Holdings())[position.symbol := position.Value()];
    }

    method AveragePosition(position: Position, newPrice: real, newQuantity: real, fees: real) returns (ok: bool)
      requires Valid() && position.symbol in openPositions && openPositions[position.symbol] == position
      requires position.quantity + newQuantity != 0.0
      modifies this, db, position
      ensures Valid() && session == old(session) && openPositions == old(openPositions)
      ensures (View(), ok) == AverageAt(old(View()), position.symbol, newPrice, newQuantity, fees)
    {
      ghost var h := old(Holdings())[position.symbol];
      assert h == position.Value();
      var oldPrice, oldQuantity := position.entryPrice, position.quantity;
      var totalQuantity := oldQuantity + newQuantity;
      var newAvgPrice := AveragePrice(oldPrice, oldQuantity, newPrice, newQuantity);
      position.Set(newAvgPrice, totalQuantity, position.fees + fees);
      assert Holdings() == old(Holdings())[position.symbol := position.Value()];
      ok := true;
      if db != null {
        ok := db.UpdatePositionAveraging(position.id, newAvgPrice, totalQuantity, fees);
        if !ok {
          position.Set(oldPrice, oldQuantity, position.fees - fees);
          assert position.Value() == h;
          assert Holdings() == old(Holdings());
        }
      }
    }

    method MarkPosition(position: Position, price: real) returns (ok: bool)
      requires Valid() && position.symbol in openPositions && openPositions[position.symbol] == position
      modifies db, position
      ensures Valid() && (View(), ok) == MarkAt(old(View()), position.symbol, price)
    {
      assert Holdings()[position.symbol] == position.Value();
      ok := true;
      if db != null {
        ok := db.UpdateUnrealizedPnL(position.id, price);
        assert Holdings() == old(Holdings());
      }
      if ok {
        var unrealizedPnL;
        if position.side == Long {
          unrealizedPnL := (price - position.entryPrice) * position.quantity;
        } else {
          unrealizedPnL := (position.entryPrice - price) * position.quantity;
        }
        assert unrealizedPnL == Gross(position.side, position.entryPrice, price, position.quantity);
        position.unrealizedPnL := Some(unrealizedPnL);
        assert Holdings() == old(Holdings())[position.symbol := position.Value()];
      }
    }

    // Every position whose price is known is marked to it, unless a statement on its row fails;
    // then it keeps its mark. If none fails the rows are marked as well. Nothing else changes.
    method UpdateUnrealizedPnL(prices: map<string, real>)
      requires Valid()
      modifies db, openPositions.Values
      ensures Valid() && openPositions == old(openPositions) && OnlyMarks(old(View()), View())
      ensures forall s :: s in old(Holdings()) ==>
        Settled(old(Holdings())[s], Holdings()[s], s, prices, RowsReachable(old(View())))
      ensures db != null && RowsReachable(old(View())) ==>
        forall s :: s in openPositions && s in prices ==> IsMarked(db.rows, openPositions[s].id, prices[s])
    {
      ghost var b := View();
      ghost var order: seq<string> := [];
      var todo := openPositions.Keys;
      while todo != {}
        invariant todo <= openPositions.Keys && Valid()
        invariant Distinct(order) && forall s :: s in order <==> s in openPositions && s !in todo
        invariant View() == MarkAll(b, order, prices)
      {
        var symbol :| symbol in todo;
        todo := todo - {symbol};
        ghost var before := order;
        order := order + [symbol];
        assert order[..|order| - 1] == before;
        if symbol in prices {
          var marked := MarkPosition(openPositions[symbol], prices[symbol]);
        }
      }
      AllSettle(b, order, prices);
    }
  }
}
