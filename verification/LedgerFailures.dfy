/** The accounts of runs in which statements fail: what each order really comes to. */
module LedgerFailures {
  import opened Options
  import opened Ledger
  import opened LedgerLaws
  import opened LedgerRuns

  // ----- one order -----

  // What an order comes to. One that adds to a position or reduces it is traded if it is booked,
  // and otherwise not at all. One that opens a position is traded in any case. One that closes a
  // position is traded if the closing works; otherwise the position is dropped, as if it had been
  // closed at its entry price.
  function Effect(b: Book, o: Order, feeRate: real): seq<Trade>
    requires PositiveHoldings(b) && ValidFills(o.fills)
  {
    var trades := TradesOf(o.side, o.fills);
    if o.symbol !in b.open then trades
    else
      var h := b.open[o.symbol];
      if Averages(b, o) || Reduces(b, o) then
        if OnOrderFilled(b, o, feeRate).1 && (b.db.Some? || !Reduces(b, o)) then trades else []
      else if ClosingWorks(b, h.id) then trades
      else [Trade(Opposite(h.side), h.qty, h.entry)]
  }

  // Closing reads the row, which has to be there, and updates it.
  predicate ClosingWorks(b: Book, id: nat) {
    b.db.Some? ==> Exec(b.db.value).0 && IsOpenRow(b.db.value, id) && Exec(Exec(b.db.value).1).0
  }

  lemma ClosingWorksIf(b: Book, s: string, price: real, fees: real)
    requires s in b.open
    ensures CloseAt(b, s, price, fees).1 <==> ClosingWorks(b, b.open[s].id)
  {}

  // As far as `t` can tell, `b1` is `b` after the trades on `symbol`.
  predicate Accounts(b: Book, b1: Book, symbol: string, trades: seq<Trade>, t: string) {
    && Net(b1, t) == Net(b, t) + (if t == symbol then TapeNet(trades) else 0.0)
    && Cash(b1, t) == Cash(b, t) + if t == symbol then TapeCash(trades) else 0.0
  }

  lemma NothingTraded(b: Book, b1: Book, symbol: string, t: string)
    requires b1.open == b.open && b1.realised == b.realised
    ensures Accounts(b, b1, symbol, [], t)
  {}

  lemma OneTrade(x: Trade)
    ensures TapeNet([x]) == Signed(x.side, x.qty) && TapeCash([x]) == -Paid(x.side, x.qty, x.price)
  {
    assert [x][..0] == [];
  }

  // A position that is dropped leaves the account as closing it at its entry price would.
  lemma DroppingAccounts(b: Book, s: string, price: real, fees: real, t: string)
    requires s in b.open && !CloseAt(b, s, price, fees).1
    ensures var h := b.open[s];
      Accounts(b, CloseAt(b, s, price, fees).0, s, [Trade(Opposite(h.side), h.qty, h.entry)], t)
  {
    var h := b.open[s];
    OneTrade(Trade(Opposite(h.side), h.qty, h.entry));
    assert Signed(Opposite(h.side), h.qty) == -Signed(h.side, h.qty);
    OppositePays(h.side, h.qty, h.entry);
  }

  lemma TradedAccounts(b: Book, b1: Book, o: Order, price: real, t: string)
    requires ValidFills(o.fills) && TotalQty(o.fills) != 0.0 && price == TotalValue(o.fills) / TotalQty(o.fills)
    requires Traded(b, b1, o.symbol, Adds(o.side), TotalQty(o.fills), price, t)
    ensures Accounts(b, b1, o.symbol, TradesOf(o.side, o.fills), t)
  {
    OrderSums(o.side, o.fills);
    AveragePays(TotalQty(o.fills), TotalValue(o.fills), price, Adds(o.side));
  }

  lemma ReduceAccounts(b: Book, o: Order, price: real, fees: real, t: string)
    requires Fits(b) && Reduces(b, o) && b.db.Some?
    ensures var (b1, ok) := ReduceAt(b, o.symbol, TotalQty(o.fills), price, fees);
      if ok then Traded(b, b1, o.symbol, Adds(o.side), TotalQty(o.fills), price, t)
      else b1.open == b.open && b1.realised == b.realised
  {
    if ReduceAt(b, o.symbol, TotalQty(o.fills), price, fees).1 {
      assert RowFits(b, o.symbol);
      ReduceTrades(b, o.symbol, TotalQty(o.fills), price, fees, t);
    }
  }

  // Whatever fails, an order accounts for its effect.
  lemma OrderAccounts(b: Book, o: Order, feeRate: real, t: string)
    requires Fits(b) && ValidFills(o.fills)
    ensures Accounts(b, OnOrderFilled(b, o, feeRate).0, o.symbol, Effect(b, o, feeRate), t)
  {
    TotalQtyPositive(o.fills);
    var s, side, qty := o.symbol, Adds(o.side), TotalQty(o.fills);
    var price, fees := TotalValue(o.fills) / qty, TotalFees(o.fills, feeRate);
    var (b1, ok) := Apply(b, o, price, fees);
    if s !in b.open {
      OpenTrades(b, s, side, price, qty, fees, t);
      TradedAccounts(b, b1, o, price, t);
    } else if Averages(b, o) {
      if ok {
        AverageTrades(b, s, price, qty, fees, t);
        TradedAccounts(b, b1, o, price, t);
      } else {
        NothingTraded(b, b1, s, t);
      }
    } else if Reduces(b, o) {
      if b.db.Some? {
        ReduceAccounts(b, o, price, fees, t);
      }
      if b.db.Some? && ok {
        TradedAccounts(b, b1, o, price, t);
      } else {
        NothingTraded(b, b1, s, t);
      }
    } else {
      ClosingWorksIf(b, s, price, fees);
      if CloseAt(b, s, price, fees).1 {
        FlipTrades(b, o, price, fees, t);
        TradedAccounts(b, b1, o, price, t);
      } else {
        DroppingAccounts(b, s, price, fees, t);
      }
    }
  }

  // ----- runs -----

  lemma OrderFits(b: Book, o: Order, feeRate: real)
    requires Fits(b) && ValidFills(o.fills)
    ensures Fits(OnOrderFilled(b, o, feeRate).0)
  {
    TotalQtyPositive(o.fills);
    var s, qty := o.symbol, TotalQty(o.fills);
    var price, fees := TotalValue(o.fills) / qty, TotalFees(o.fills, feeRate);
    if s !in b.open {
      OpenFits(b, s, Adds(o.side), price, qty, fees);
    } else if Averages(b, o) {
      AverageFits(b, s, price, qty, fees);
    } else if Reduces(b, o) {
      ReduceFits(b, s, qty, price, fees);
    } else {
      FlipFits(b, o, price, fees);
    }
  }

  lemma FlipFits(b: Book, o: Order, price: real, fees: real)
    requires Fits(b) && o.symbol in b.open
    ensures Fits(Flip(b, o, price, fees).0)
  {
    CloseFits(b, o.symbol, price, fees);
    var (b1, ok) := CloseAt(b, o.symbol, price, fees);
    var surplus := TotalQty(o.fills) - b.open[o.symbol].qty;
    if ok && surplus > 0.0 {
      OpenFits(b1, o.symbol, Adds(o.side), price, surplus, fees);
    }
  }

  // What the orders of a run come to on `t`.
  function EffectTape(db: Option<seq<bool>>, orders: seq<Order>, feeRate: real, t: string): seq<Trade>
    requires ValidOrders(orders)
  {
    if orders == [] then []
    else
      var n := |orders| - 1;
      var b := Run(db, orders[..n], feeRate).0;
      EffectTape(db, orders[..n], feeRate, t) + if orders[n].symbol == t then Effect(b, orders[n], feeRate) else []
  }

  lemma {:induction false} RunAccounts(db: Option<seq<bool>>, orders: seq<Order>, feeRate: real, t: string)
    requires ValidOrders(orders)
    ensures var b, tape := Run(db, orders, feeRate).0, EffectTape(db, orders, feeRate, t);
      Fits(b) && Net(b, t) == TapeNet(tape) && Cash(b, t) == TapeCash(tape)
  {
    var n := |orders| - 1;
    if n >= 0 {
      RunAccounts(db, orders[..n], feeRate, t);
      var b, o := Run(db, orders[..n], feeRate).0, orders[n];
      OrderFits(b, o, feeRate);
      OrderAccounts(b, o, feeRate, t);
      TapeSums(EffectTape(db, orders[..n], feeRate, t), if o.symbol == t then Effect(b, o, feeRate) else []);
    }
  }

  // Conservation through failures. After any run whatever, with or without a database, realised
  // profit (exit fees added back) plus unrealised profit at any price is what the effects of the
  // orders earn at that price, and the signed position is their sum.
  lemma ConservationThroughFailures(db: Option<seq<bool>>, orders: seq<Order>, feeRate: real, t: string, p: real)
    requires ValidOrders(orders)
    ensures var b, tape := Run(db, orders, feeRate).0, EffectTape(db, orders, feeRate, t);
      Worth(b, t, p) == TapeWorth(tape, p) && Net(b, t) == TapeNet(tape)
  {
    RunAccounts(db, orders, feeRate, t);
    WorthIsLinear(Run(db, orders, feeRate).0, t, p);
    TapeWorthIsLinear(EffectTape(db, orders, feeRate, t), p);
  }

  // In a run that is booked the effects of the orders are their fills.
  lemma {:induction false} BookedRunsTradeFills(db: Option<seq<bool>>, orders: seq<Order>, feeRate: real, t: string)
    requires Booked(db, orders, feeRate)
    ensures EffectTape(db, orders, feeRate, t) == Tape(orders, t)
  {
    var n := |orders| - 1;
    if n >= 0 {
      if db.None? {
        PrefixNeverReduces(orders, n);
      }
      BookedRunsTradeFills(db, orders[..n], feeRate, t);
      var b, o := Run(db, orders[..n], feeRate).0, orders[n];
      RunBooks(db, orders[..n], feeRate, o.symbol);
      ReducesIsNet(b, o);
      assert db.None? ==> !ReducesAt(orders, n);
      BookedOrderTradesFills(b, o, feeRate);
    }
  }

  lemma BookedOrderTradesFills(b: Book, o: Order, feeRate: real)
    requires PositiveHoldings(b) && ValidFills(o.fills) && OnOrderFilled(b, o, feeRate).1
    requires b.db.Some? || !Reduces(b, o)
    ensures Effect(b, o, feeRate) == TradesOf(o.side, o.fills)
  {
    TotalQtyPositive(o.fills);
    if o.symbol in b.open && !Averages(b, o) && !Reduces(b, o) {
      ClosingWorksIf(b, o.symbol, TotalValue(o.fills) / TotalQty(o.fills), TotalFees(o.fills, feeRate));
    }
  }
}
