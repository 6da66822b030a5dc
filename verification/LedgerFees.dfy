/** Where the fees of a run go: to the open positions, to their rows, and against realised profit. */
module LedgerFees {
  import opened Arithmetic
  import opened Options
  import opened Ledger
  import opened LedgerLaws
  import opened LedgerRuns
  import opened LedgerExits

  // The fees that the open position of a symbol holds, those in its row, and those charged
  // against the profit realised so far.
  datatype Account = Account(held: real, stored: real, charged: real)

  // The same after one more order of fees `fee`, given the signed quantities held and traded. The
  // row of a position is created without the fees of the order that opened it, and does not get
  // those of a partial close. A flip charges its fees to both positions.
  function AccountStep(a: Account, net: real, traded: real, fee: real): Account {
    if net == 0.0 then Account(fee, 0.0, a.charged)
    else if (net > 0.0 && traded > 0.0) || (net < 0.0 && traded < 0.0) then
      Account(a.held + fee, a.stored + fee, a.charged)
    else if Shrinks(net, traded) then Account(a.held + fee, a.stored, a.charged + fee)
    else Account(fee, 0.0, a.charged + fee)
  }

  // The account of `t` after a run, from the fills and the fee rate alone.
  function AccountOf(orders: seq<Order>, feeRate: real, t: string): Account {
    if orders == [] then Account(0.0, 0.0, 0.0)
    else
      var n := |orders| - 1;
      var o, before := orders[n], AccountOf(orders[..n], feeRate, t);
      if o.symbol != t then before
      else
        var net, traded := TapeNet(Tape(orders[..n], t)), Signed(Adds(o.side), TotalQty(o.fills));
        AccountStep(before, net, traded, Times(TotalValue(o.fills), feeRate))
  }

  // The fees of all realisations of `t`.
  function Charged(rs: seq<Realisation>, t: string): real {
    if rs == [] then 0.0
    else
      var last := rs[|rs| - 1];
      Charged(rs[..|rs| - 1], t) + if last.symbol == t then last.fees else 0.0
  }

  lemma ChargedAppend(rs: seq<Realisation>, r: Realisation, t: string)
    ensures Charged(rs + [r], t) == Charged(rs, t) + if r.symbol == t then r.fees else 0.0
  {
    assert (rs + [r])[..|rs|] == rs;
  }

  // The book keeps the account.
  predicate Keeps(b: Book, a: Account, t: string) {
    && Charged(b.realised, t) == a.charged
    && (t in b.open ==>
          && b.open[t].fees == a.held
          && (b.db.Some? && b.open[t].id in b.db.value.rows ==> b.db.value.rows[b.open[t].id].fees == a.stored))
  }

  lemma OpenKeeps(b: Book, s: string, side: Side, price: real, qty: real, fees: real, a: Account)
    requires Charged(b.realised, s) == a.charged && s !in b.open
    requires b.db.Some? ==> b.nextId !in b.db.value.rows
    ensures Keeps(OpenAt(b, s, side, price, qty, fees).0, Account(fees, 0.0, a.charged), s)
  {}

  lemma CloseKeeps(b: Book, s: string, price: real, fees: real, a: Account)
    requires s in b.open && Keeps(b, a, s) && CloseAt(b, s, price, fees).1
    ensures Charged(CloseAt(b, s, price, fees).0.realised, s) == a.charged + fees
  {
    ChargedAppend(b.realised, Realisation(s, Unrealised(b.open[s], price) - fees, fees), s);
  }

  lemma AverageKeeps(b: Book, s: string, price: real, qty: real, fees: real, a: Account)
    requires Agrees(b) && s in b.open && qty > 0.0 && Keeps(b, a, s) && AverageAt(b, s, price, qty, fees).1
    ensures Keeps(AverageAt(b, s, price, qty, fees).0, Account(a.held + fees, a.stored + fees, a.charged), s)
  {
    assert RowAgrees(b, s);
  }

  lemma ReduceKeeps(b: Book, s: string, qty: real, price: real, fees: real, a: Account)
    requires Agrees(b) && b.db.Some? && s in b.open && Keeps(b, a, s) && ReduceAt(b, s, qty, price, fees).1
    ensures Keeps(ReduceAt(b, s, qty, price, fees).0, Account(a.held + fees, a.stored, a.charged + fees), s)
  {
    var h := b.open[s];
    assert RowAgrees(b, s);
    AgreeingFits(b);
    ReduceDone(b, s, qty, price, fees);
    PartialCloseRows(b.db.value, h.id, b.nextId, qty, price, fees);
    ChargedAppend(b.realised, Realisation(s, Gross(h.side, h.entry, price, qty) - fees, fees), s);
  }

  lemma FlipKeeps(b: Book, o: Order, price: real, fees: real, a: Account)
    requires Agrees(b) && o.symbol in b.open && Keeps(b, a, o.symbol) && Flip(b, o, price, fees).1
    ensures Keeps(Flip(b, o, price, fees).0, Account(fees, 0.0, a.charged + fees), o.symbol)
  {
    var s, side := o.symbol, Adds(o.side);
    var b1, surplus := CloseAt(b, s, price, fees).0, TotalQty(o.fills) - b.open[s].qty;
    assert CloseAt(b, s, price, fees).1 && s !in b1.open;
    CloseKeeps(b, s, price, fees, a);
    if surplus > 0.0 {
      assert Flip(b, o, price, fees).0 == OpenAt(b1, s, side, price, surplus, fees).0;
      assert b1.db.Some? ==> b1.nextId !in b1.db.value.rows by {
        CloseAgrees(b, s, price, fees);
      }
      OpenKeeps(b1, s, side, price, surplus, fees, a.(charged := a.charged + fees));
    } else {
      assert Flip(b, o, price, fees).0 == b1;
    }
  }

  lemma ApplyKeeps(b: Book, o: Order, price: real, fees: real, a: Account)
    requires Agrees(b) && ValidFills(o.fills) && Keeps(b, a, o.symbol) && Apply(b, o, price, fees).1
    requires b.db.Some? || !Reduces(b, o)
    ensures
      var net, traded := Net(b, o.symbol), Signed(Adds(o.side), TotalQty(o.fills));
      Keeps(Apply(b, o, price, fees).0, AccountStep(a, net, traded, fees), o.symbol)
  {
    TotalQtyPositive(o.fills);
    ReducesIsNet(b, o);
    var s, side, qty := o.symbol, Adds(o.side), TotalQty(o.fills);
    if s !in b.open {
      OpenKeeps(b, s, side, price, qty, fees, a);
    } else if Averages(b, o) {
      AverageKeeps(b, s, price, qty, fees, a);
    } else if Reduces(b, o) {
      ReduceKeeps(b, s, qty, price, fees, a);
    } else {
      FlipKeeps(b, o, price, fees, a);
    }
  }

  // ----- the other symbols -----

  // The book is another, but not for the account of `t`.
  predicate SameAccount(b: Book, b1: Book, t: string) {
    && Charged(b1.realised, t) == Charged(b.realised, t)
    && (t in b1.open <==> t in b.open)
    && (t in b.open ==> b1.open[t].id == b.open[t].id && b1.open[t].fees == b.open[t].fees)
    && (t in b.open && b1.db.Some? && b.open[t].id in b1.db.value.rows ==>
          && b.db.Some? && b.open[t].id in b.db.value.rows
          && b1.db.value.rows[b.open[t].id].fees == b.db.value.rows[b.open[t].id].fees)
  }

  lemma OpenSpares(b: Book, s: string, side: Side, price: real, qty: real, fees: real, t: string)
    requires Agrees(b) && t != s
    ensures SameAccount(b, OpenAt(b, s, side, price, qty, fees).0, t)
  {}

  lemma CloseSpares(b: Book, s: string, price: real, fees: real, t: string)
    requires Agrees(b) && s in b.open && t != s
    ensures SameAccount(b, CloseAt(b, s, price, fees).0, t)
  {
    assert t in b.open ==> b.open[t].id != b.open[s].id;
    ChargedAppend(b.realised, Realisation(s, Unrealised(b.open[s], price) - fees, fees), t);
  }

  lemma AverageSpares(b: Book, s: string, price: real, qty: real, fees: real, t: string)
    requires Agrees(b) && s in b.open && qty > 0.0 && t != s
    ensures SameAccount(b, AverageAt(b, s, price, qty, fees).0, t)
  {
    assert t in b.open ==> b.open[t].id != b.open[s].id;
  }

  lemma ReduceSpares(b: Book, s: string, qty: real, price: real, fees: real, t: string)
    requires Agrees(b) && b.db.Some? && s in b.open && t != s && ReduceAt(b, s, qty, price, fees).1
    ensures SameAccount(b, ReduceAt(b, s, qty, price, fees).0, t)
  {
    var h := b.open[s];
    assert t in b.open ==> b.open[t].id != h.id && b.open[t].id < b.nextId;
    AgreeingFits(b);
    ReduceDone(b, s, qty, price, fees);
    PartialCloseRows(b.db.value, h.id, b.nextId, qty, price, fees);
    ChargedAppend(b.realised, Realisation(s, Gross(h.side, h.entry, price, qty) - fees, fees), t);
  }

  lemma FlipSpares(b: Book, o: Order, price: real, fees: real, t: string)
    requires Agrees(b) && o.symbol in b.open && Flip(b, o, price, fees).1 && t != o.symbol
    ensures SameAccount(b, Flip(b, o, price, fees).0, t)
  {
    CloseSpares(b, o.symbol, price, fees, t);
    CloseAgrees(b, o.symbol, price, fees);
    var b1 := CloseAt(b, o.symbol, price, fees).0;
    var surplus := TotalQty(o.fills) - b.open[o.symbol].qty;
    if surplus > 0.0 {
      OpenSpares(b1, o.symbol, Adds(o.side), price, surplus, fees, t);
    }
  }

  lemma ApplySpares(b: Book, o: Order, price: real, fees: real, t: string)
    requires Agrees(b) && ValidFills(o.fills) && t != o.symbol && Apply(b, o, price, fees).1
    requires b.db.Some? || !Reduces(b, o)
    ensures SameAccount(b, Apply(b, o, price, fees).0, t)
  {
    TotalQtyPositive(o.fills);
    var s, side, qty := o.symbol, Adds(o.side), TotalQty(o.fills);
    if s !in b.open {
      OpenSpares(b, s, side, price, qty, fees, t);
    } else if Averages(b, o) {
      AverageSpares(b, s, price, qty, fees, t);
    } else if Reduces(b, o) {
      ReduceSpares(b, s, qty, price, fees, t);
    } else {
      FlipSpares(b, o, price, fees, t);
    }
  }

  lemma OrderKeeps(b: Book, o: Order, feeRate: real, t: string, a: Account)
    requires Agrees(b) && ValidFills(o.fills) && Keeps(b, a, t) && OnOrderFilled(b, o, feeRate).1
    requires b.db.Some? || !Reduces(b, o)
    ensures
      var traded, fee := Signed(Adds(o.side), TotalQty(o.fills)), Times(TotalValue(o.fills), feeRate);
      Keeps(OnOrderFilled(b, o, feeRate).0, if o.symbol == t then AccountStep(a, Net(b, t), traded, fee) else a, t)
  {
    TotalQtyPositive(o.fills);
    FeesOfFills(o.fills, feeRate);
    var price, fees := TotalValue(o.fills) / TotalQty(o.fills), TotalFees(o.fills, feeRate);
    if o.symbol == t {
      assert fees == Times(TotalValue(o.fills), feeRate);
      assert OnOrderFilled(b, o, feeRate) == Apply(b, o, price, fees);
      ApplyKeeps(b, o, price, fees, a);
    } else {
      ApplySpares(b, o, price, fees, t);
    }
  }

  // ----- runs -----

  // After any run that is booked, a position holds the fees of the orders that opened it, added
  // to it and reduced it; its row those that added to it alone; and realised profit has been
  // charged with the fees of every order that closed or reduced one.
  lemma {:induction false} FeesAreAccounted(db: Option<seq<bool>>, orders: seq<Order>, feeRate: real, t: string)
    requires Booked(db, orders, feeRate)
    ensures Keeps(Run(db, orders, feeRate).0, AccountOf(orders, feeRate, t), t)
  {
    var n := |orders| - 1;
    if n >= 0 {
      BookedStep(db, orders, feeRate, t);
      FeesAreAccounted(db, orders[..n], feeRate, t);
      OrderKeeps(Run(db, orders[..n], feeRate).0, orders[n], feeRate, t, AccountOf(orders[..n], feeRate, t));
    }
  }

  lemma BookedStep(db: Option<seq<bool>>, orders: seq<Order>, feeRate: real, t: string)
    requires Booked(db, orders, feeRate) && orders != []
    ensures
      var n := |orders| - 1;
      var b := Run(db, orders[..n], feeRate).0;
      && Booked(db, orders[..n], feeRate) && Agrees(b) && Net(b, t) == TapeNet(Tape(orders[..n], t))
      && (db.Some? || !Reduces(b, orders[n])) && OnOrderFilled(b, orders[n], feeRate).1
  {
    var n := |orders| - 1;
    if db.None? {
      PrefixNeverReduces(orders, n);
    }
    RunBooks(db, orders[..n], feeRate, t);
    RunBooks(db, orders[..n], feeRate, orders[n].symbol);
    ReducesIsNet(Run(db, orders[..n], feeRate).0, orders[n]);
    assert db.None? ==> !ReducesAt(orders, n);
  }
}
