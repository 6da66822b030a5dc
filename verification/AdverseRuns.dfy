/** Runs in which every fill is at a price that is bad for the trader, whatever fails on the way. */
module AdverseRuns {
  import opened Arithmetic
  import opened Options
  import opened Ledger
  import opened LedgerLaws
  import opened LedgerRuns

  // ----- bad prices -----

  // No better than trading at `mid`.
  predicate Adverse(side: Side, price: real, mid: real) {
    if side == Long then price >= mid else price <= mid
  }

  predicate AdverseOrder(o: Order, mid: real) {
    forall i :: 0 <= i < |o.fills| ==> Adverse(Adds(o.side), o.fills[i].price, mid)
  }

  lemma GrossLoses(side: Side, entry: real, price: real, qty: real, mid: real)
    requires Adverse(side, entry, mid) && Adverse(Opposite(side), price, mid) && qty >= 0.0
    ensures Gross(side, entry, price, qty) <= 0.0
  {
    if side == Long {
      TimesMonotone(price - entry, 0.0, qty);
    } else {
      TimesMonotone(entry - price, 0.0, qty);
    }
  }

  lemma {:induction false} AdverseValue(side: Side, fills: seq<Fill>, mid: real)
    requires forall i :: 0 <= i < |fills| ==> fills[i].quantity > 0.0 && Adverse(side, fills[i].price, mid)
    ensures Adverse(side, TotalValue(fills), Times(mid, TotalQty(fills)))
  {
    if fills == [] {
      assert Times(mid, 0.0) == 0.0;
    } else {
      var n := |fills| - 1;
      AdverseValue(side, fills[..n], mid);
      TimesSum(mid, TotalQty(fills[..n]), fills[n].quantity);
      AdverseFill(side, fills[n], mid);
    }
  }

  lemma AdverseFill(side: Side, f: Fill, mid: real)
    requires f.quantity > 0.0 && Adverse(side, f.price, mid)
    ensures Adverse(side, Value(f), Times(mid, f.quantity))
  {
    assert Value(f) == Times(f.price, f.quantity);
    if side == Long {
      TimesMonotone(mid, f.price, f.quantity);
    } else {
      TimesMonotone(f.price, mid, f.quantity);
    }
  }

  lemma AdverseQuotient(side: Side, value: real, qty: real, mid: real)
    requires qty > 0.0 && Adverse(side, value, Times(mid, qty))
    ensures Adverse(side, value / qty, mid)
  {
    if side == Long {
      QuotientAtLeast(value, qty, mid);
    } else {
      QuotientAtMost(value, qty, mid);
    }
  }

  lemma AdverseAverage(side: Side, entry: real, held: real, price: real, qty: real, mid: real)
    requires held > 0.0 && qty > 0.0 && Adverse(side, entry, mid) && Adverse(side, price, mid)
    ensures Adverse(side, AveragePrice(entry, held, price, qty), mid)
  {
    if side == Long {
      AverageAtLeast(entry, held, price, qty, mid);
    } else {
      AverageAtMost(entry, held, price, qty, mid);
    }
    AdverseQuotient(side, entry * held + price * qty, held + qty, mid);
  }

  // ----- what is lost -----

  // Nothing has been earned on `t` so far, and its position can earn nothing at `mid`.
  predicate Loses(b: Book, t: string, mid: real) {
    && GrossRealised(b.realised, t) <= 0.0
    && (t in b.open ==> Adverse(b.open[t].side, b.open[t].entry, mid))
  }

  ghost predicate FitsAndLoses(b: Book, t: string, mid: real) {
    Fits(b) && Loses(b, t, mid)
  }

  lemma LosesWorth(b: Book, t: string, mid: real)
    requires PositiveHoldings(b) && Loses(b, t, mid)
    ensures Worth(b, t, mid) <= 0.0
  {
    if t in b.open {
      var h := b.open[t];
      GrossLoses(h.side, h.entry, mid, h.qty, mid);
    }
  }

  lemma RealisedLoses(rs: seq<Realisation>, r: Realisation, t: string)
    requires GrossRealised(rs, t) <= 0.0 && (r.symbol == t ==> r.pnl + r.fees <= 0.0)
    ensures GrossRealised(rs + [r], t) <= 0.0
  {
    GrossRealisedAppend(rs, r, t);
  }

  // ----- one operation, successful or not -----

  lemma OpenLoses(b: Book, s: string, side: Side, price: real, qty: real, fees: real, t: string, mid: real)
    requires FitsAndLoses(b, t, mid) && s !in b.open && qty > 0.0 && (s == t ==> Adverse(side, price, mid))
    ensures FitsAndLoses(OpenAt(b, s, side, price, qty, fees).0, t, mid)
  {
    OpenFits(b, s, side, price, qty, fees);
  }

  lemma CloseLoses(b: Book, s: string, price: real, fees: real, t: string, mid: real)
    requires FitsAndLoses(b, t, mid) && s in b.open
    requires s == t ==> Adverse(Opposite(b.open[s].side), price, mid)
    ensures FitsAndLoses(CloseAt(b, s, price, fees).0, t, mid)
  {
    CloseFits(b, s, price, fees);
    var h := b.open[s];
    var earned := Unrealised(h, price);
    if s == t {
      GrossLoses(h.side, h.entry, price, h.qty, mid);
    }
    RealisedLoses(b.realised, Realisation(s, earned - fees, fees), t);
  }

  lemma ReduceLoses(b: Book, s: string, qty: real, price: real, fees: real, t: string, mid: real)
    requires FitsAndLoses(b, t, mid) && s in b.open && 0.0 < qty < b.open[s].qty
    requires s == t ==> Adverse(Opposite(b.open[s].side), price, mid)
    ensures FitsAndLoses(ReduceAt(b, s, qty, price, fees).0, t, mid)
  {
    ReduceFits(b, s, qty, price, fees);
    var h := b.open[s];
    if b.db.Some? && ReduceAt(b, s, qty, price, fees).1 {
      ReduceDone(b, s, qty, price, fees);
      if s == t {
        GrossLoses(h.side, h.entry, price, qty, mid);
      }
      RealisedLoses(b.realised, Realisation(s, Gross(h.side, h.entry, price, qty) - fees, fees), t);
    }
  }

  lemma AverageLoses(b: Book, s: string, price: real, qty: real, fees: real, t: string, mid: real)
    requires FitsAndLoses(b, t, mid) && s in b.open && qty > 0.0
    requires s == t ==> Adverse(b.open[s].side, price, mid)
    ensures FitsAndLoses(AverageAt(b, s, price, qty, fees).0, t, mid)
  {
    AverageFits(b, s, price, qty, fees);
    if s == t {
      AdverseAverage(b.open[s].side, b.open[s].entry, b.open[s].qty, price, qty, mid);
    }
  }

  lemma FlipLoses(b: Book, o: Order, price: real, fees: real, t: string, mid: real)
    requires FitsAndLoses(b, t, mid) && o.symbol in b.open && b.open[o.symbol].side == Opposite(Adds(o.side))
    requires o.symbol == t ==> Adverse(Adds(o.side), price, mid)
    ensures FitsAndLoses(Flip(b, o, price, fees).0, t, mid)
  {
    var (b1, ok) := CloseAt(b, o.symbol, price, fees);
    var surplus := TotalQty(o.fills) - b.open[o.symbol].qty;
    if !ok || surplus <= 0.0 {
      assert Flip(b, o, price, fees).0 == b1;
      CloseLoses(b, o.symbol, price, fees, t, mid);
    } else {
      var side := Adds(o.side);
      assert Flip(b, o, price, fees).0 == OpenAt(b1, o.symbol, side, price, surplus, fees).0;
      assert FitsAndLoses(b1, t, mid) by {
        CloseLoses(b, o.symbol, price, fees, t, mid);
      }
      assert o.symbol !in b1.open;
      OpenLoses(b1, o.symbol, side, price, surplus, fees, t, mid);
    }
  }

  lemma ApplyLoses(b: Book, o: Order, price: real, fees: real, t: string, mid: real)
    requires FitsAndLoses(b, t, mid) && ValidFills(o.fills)
    requires o.symbol == t ==> Adverse(Adds(o.side), price, mid)
    ensures FitsAndLoses(Apply(b, o, price, fees).0, t, mid)
  {
    var s, side, qty := o.symbol, Adds(o.side), TotalQty(o.fills);
    TotalQtyPositive(o.fills);
    if s !in b.open {
      OpenLoses(b, s, side, price, qty, fees, t, mid);
    } else if Averages(b, o) {
      AverageLoses(b, s, price, qty, fees, t, mid);
    } else if Reduces(b, o) {
      ReduceLoses(b, s, qty, price, fees, t, mid);
    } else {
      FlipLoses(b, o, price, fees, t, mid);
    }
  }

  // An order filled no better than at `mid` earns nothing at it, also when its call fails or it
  // is dropped for want of a database.
  lemma AdverseOrderLoses(b: Book, o: Order, feeRate: real, t: string, mid: real)
    requires FitsAndLoses(b, t, mid) && ValidFills(o.fills) && (o.symbol == t ==> AdverseOrder(o, mid))
    ensures FitsAndLoses(OnOrderFilled(b, o, feeRate).0, t, mid)
  {
    TotalQtyPositive(o.fills);
    var price := TotalValue(o.fills) / TotalQty(o.fills);
    if o.symbol == t {
      AdverseValue(Adds(o.side), o.fills, mid);
      AdverseQuotient(Adds(o.side), TotalValue(o.fills), TotalQty(o.fills), mid);
    }
    ApplyLoses(b, o, price, TotalFees(o.fills, feeRate), t, mid);
  }

  // ----- runs -----

  ghost predicate AdverseOrders(orders: seq<Order>, t: string, mid: real) {
    forall k :: 0 <= k < |orders| && orders[k].symbol == t ==> AdverseOrder(orders[k], mid)
  }

  // Whatever statements fail and whichever calls go wrong, a run of orders that are filled no
  // better than at `mid` never shows a profit at `mid`.
  lemma {:induction false} AdverseRunLoses(db: Option<seq<bool>>, orders: seq<Order>, feeRate: real, t: string,
                                           mid: real)
    requires ValidOrders(orders) && AdverseOrders(orders, t, mid)
    ensures var b := Run(db, orders, feeRate).0;
      FitsAndLoses(b, t, mid) && Worth(b, t, mid) <= 0.0
  {
    if orders != [] {
      var n := |orders| - 1;
      AdverseRunLoses(db, orders[..n], feeRate, t, mid);
      AdverseOrderLoses(Run(db, orders[..n], feeRate).0, orders[n], feeRate, t, mid);
    }
    LosesWorth(Run(db, orders, feeRate).0, t, mid);
  }
}
