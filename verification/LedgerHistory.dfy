/** Where the entry prices of the open positions of a run come from. */
module LedgerHistory {
  import opened Arithmetic
  import opened Options
  import opened Ledger
  import opened LedgerLaws
  import opened LedgerRuns

  // ----- entry prices -----

  // The prices a position is made of after one more order, given those before and the signed
  // quantity held before: none when it is closed, those of the order when it opens or flips.
  function BuiltStep(prices: seq<real>, net: real, o: Order): seq<real> {
    var traded := Signed(Adds(o.side), TotalQty(o.fills));
    if (net > 0.0 && traded > 0.0) || (net < 0.0 && traded < 0.0) then prices + PricesOf(o.fills)
    else if Shrinks(net, traded) then prices
    else if net + traded == 0.0 then []
    else PricesOf(o.fills)
  }

  // The prices of the fills that built the open position of `t`.
  function Built(orders: seq<Order>, t: string): seq<real> {
    if orders == [] then []
    else
      var n := |orders| - 1;
      var before := Built(orders[..n], t);
      if orders[n].symbol == t then BuiltStep(before, TapeNet(Tape(orders[..n], t)), orders[n]) else before
  }

  lemma AverageWithin(entry: real, held: real, price: real, qty: real, lo: real, hi: real)
    requires held > 0.0 && qty > 0.0 && lo <= entry <= hi && lo <= price <= hi
    ensures lo <= AveragePrice(entry, held, price, qty) <= hi
  {
    AverageAtLeast(entry, held, price, qty, lo);
    AverageAtMost(entry, held, price, qty, hi);
    QuotientWithin(entry * held + price * qty, held + qty, lo, hi);
  }

  lemma WithinParts(a: seq<real>, b: seq<real>, lo: real, hi: real)
    requires Within(a + b, lo, hi)
    ensures Within(a, lo, hi) && Within(b, lo, hi)
  {
    assert forall i :: 0 <= i < |a| ==> a[i] == (a + b)[i];
    assert forall i :: 0 <= i < |b| ==> b[i] == (a + b)[|a| + i];
  }

  // How one order moves the entry price of its symbol.
  lemma ApplyEntry(b: Book, o: Order, price: real, fees: real, t: string)
    requires ValidFills(o.fills) && PositiveHoldings(b) && TotalQty(o.fills) > 0.0
    ensures var (b1, ok) := Apply(b, o, price, fees);
      ok && t in b1.open ==>
        if t != o.symbol || Reduces(b, o) then t in b.open && b1.open[t].entry == b.open[t].entry
        else if Averages(b, o) then
          b1.open[t].entry == AveragePrice(b.open[t].entry, b.open[t].qty, price, TotalQty(o.fills))
        else b1.open[t].entry == price
  {
    TotalQtyPositive(o.fills);
  }

  lemma EntryStep(b: Book, o: Order, feeRate: real, t: string, prices: seq<real>, lo: real, hi: real)
    requires Agrees(b) && ValidFills(o.fills)
    requires t in b.open ==> prices != [] && (Within(prices, lo, hi) ==> lo <= b.open[t].entry <= hi)
    ensures var (b1, ok) := OnOrderFilled(b, o, feeRate);
      var after := if o.symbol == t then BuiltStep(prices, Net(b, t), o) else prices;
      ok && t in b1.open ==> after != [] && (Within(after, lo, hi) ==> lo <= b1.open[t].entry <= hi)
  {
    TotalQtyPositive(o.fills);
    var qty := TotalQty(o.fills);
    var price, fees := TotalValue(o.fills) / qty, TotalFees(o.fills, feeRate);
    ApplyEntry(b, o, price, fees, t);
    if Within(PricesOf(o.fills), lo, hi) {
      ValueWithin(o.fills, lo, hi);
      QuotientWithin(TotalValue(o.fills), qty, lo, hi);
    }
    if o.symbol == t {
      ReducesIsNet(b, o);
      if Averages(b, o) && Within(prices + PricesOf(o.fills), lo, hi) {
        WithinParts(prices, PricesOf(o.fills), lo, hi);
        ValueWithin(o.fills, lo, hi);
        QuotientWithin(TotalValue(o.fills), qty, lo, hi);
        AverageWithin(b.open[t].entry, b.open[t].qty, price, qty, lo, hi);
      }
    }
  }

  // After any run that is booked, an open position was built by at least one fill, and its entry
  // price lies between the least and the greatest price of the fills that built it.
  lemma {:induction false} EntryBetweenFills(db: Option<seq<bool>>, orders: seq<Order>, feeRate: real, t: string,
                                             lo: real, hi: real)
    requires Booked(db, orders, feeRate)
    ensures var b := Run(db, orders, feeRate).0;
      t in b.open ==>
        && Built(orders, t) != []
        && (Within(Built(orders, t), lo, hi) ==> lo <= b.open[t].entry <= hi)
  {
    var n := |orders| - 1;
    if n >= 0 {
      if db.None? {
        PrefixNeverReduces(orders, n);
      }
      EntryBetweenFills(db, orders[..n], feeRate, t, lo, hi);
      RunBooks(db, orders[..n], feeRate, t);
      EntryStep(Run(db, orders[..n], feeRate).0, orders[n], feeRate, t, Built(orders[..n], t), lo, hi);
    }
  }
}
