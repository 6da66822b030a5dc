/** The ledger's theorems: what holds after any run of filled orders. */
module LedgerRuns {
  import opened Options
  import opened Ledger
  import opened LedgerLaws

  // One fill of one symbol: what a run trades, however it was grouped into orders.
  datatype Trade = Trade(side: Side, qty: real, price: real)

  function TradesOf(side: OrderSide, fills: seq<Fill>): seq<Trade> {
    seq(|fills|, i requires 0 <= i < |fills| => Trade(Adds(side), fills[i].quantity, fills[i].price))
  }

  function Tape(orders: seq<Order>, symbol: string): seq<Trade> {
    if orders == [] then []
    else
      var last := orders[|orders| - 1];
      Tape(orders[..|orders| - 1], symbol) + if last.symbol == symbol then TradesOf(last.side, last.fills) else []
  }

  // Total bought minus total sold.
  function TapeNet(tape: seq<Trade>): real {
    if tape == [] then 0.0
    else TapeNet(tape[..|tape| - 1]) + Signed(tape[|tape| - 1].side, tape[|tape| - 1].qty)
  }

  // The cash that changes hands, with what is bought counted against it.
  function TapeCash(tape: seq<Trade>): real {
    if tape == [] then 0.0
    else TapeCash(tape[..|tape| - 1]) - Paid(tape[|tape| - 1].side, tape[|tape| - 1].qty, tape[|tape| - 1].price)
  }

  // The sum over all trades of sign * quantity * (p - trade price).
  function TapeWorth(tape: seq<Trade>, p: real): real {
    if tape == [] then 0.0
    else
      var last := tape[|tape| - 1];
      TapeWorth(tape[..|tape| - 1], p) + Signed(last.side, last.qty) * (p - last.price)
  }

  lemma {:induction false} TapeWorthIsLinear(tape: seq<Trade>, p: real)
    ensures TapeWorth(tape, p) == Valued(TapeCash(tape), TapeNet(tape), p)
  {
    if tape != [] {
      var n := |tape| - 1;
      TapeWorthIsLinear(tape[..n], p);
      var signed, price := Signed(tape[n].side, tape[n].qty), tape[n].price;
      assert (TapeNet(tape[..n]) + signed) * p == TapeNet(tape[..n]) * p + signed * p;
    }
  }

  lemma {:induction false} TapeSums(a: seq<Trade>, b: seq<Trade>)
    ensures TapeNet(a + b) == TapeNet(a) + TapeNet(b)
    ensures TapeCash(a + b) == TapeCash(a) + TapeCash(b)
  {
    if b == [] {
      assert a + b == a;
    } else {
      var n := |b| - 1;
      assert (a + b)[..|a + b| - 1] == a + b[..n];
      TapeSums(a, b[..n]);
    }
  }

  lemma FillPays(side: OrderSide, f: Fill)
    ensures Paid(Adds(side), f.quantity, f.price) == Signed(Adds(side), Value(f))
  {}

  lemma {:induction false} OrderSums(side: OrderSide, fills: seq<Fill>)
    ensures TapeNet(TradesOf(side, fills)) == Signed(Adds(side), TotalQty(fills))
    ensures TapeCash(TradesOf(side, fills)) == -Signed(Adds(side), TotalValue(fills))
  {
    var n := |fills| - 1;
    if n >= 0 {
      assert TradesOf(side, fills)[..n] == TradesOf(side, fills[..n]);
      OrderSums(side, fills[..n]);
      FillPays(side, fills[n]);
    }
  }

  lemma AveragePays(qty: real, value: real, price: real, side: Side)
    requires qty != 0.0 && price == value / qty
    ensures Paid(side, qty, price) == Signed(side, value)
  {
    assert price * qty == value;
  }

  // At its average price an order pays what its fills pay.
  lemma OrderPays(o: Order, price: real, t: string)
    requires TotalQty(o.fills) != 0.0 && price == TotalValue(o.fills) / TotalQty(o.fills)
    ensures TapeNet(Tape([o], t)) == if o.symbol == t then Signed(Adds(o.side), TotalQty(o.fills)) else 0.0
    ensures TapeCash(Tape([o], t)) == -if o.symbol == t then Paid(Adds(o.side), TotalQty(o.fills), price) else 0.0
  {
    AveragePays(TotalQty(o.fills), TotalValue(o.fills), price, Adds(o.side));
    OrderSums(o.side, o.fills);
    assert Tape([o], t) == if o.symbol == t then TradesOf(o.side, o.fills) else [];
  }

  // ----- one order -----

  predicate Shrinks(net: real, traded: real) {
    (net > 0.0 && -net < traded < 0.0) || (net < 0.0 && 0.0 < traded < -net)
  }

  lemma ReducesIsNet(b: Book, o: Order)
    requires PositiveHoldings(b) && ValidFills(o.fills)
    ensures Reduces(b, o) <==> Shrinks(Net(b, o.symbol), Signed(Adds(o.side), TotalQty(o.fills)))
  {
    TotalQtyPositive(o.fills);
  }

  // The next two statements work: closing reads the row and updates it.
  predicate TwoWork(b: Book) {
    b.db.Some? ==> forall k :: 0 <= k < |b.db.value.outcomes| && k < 2 ==> b.db.value.outcomes[k]
  }

  lemma CloseWorks(b: Book, s: string, price: real, fees: real)
    requires Agrees(b) && s in b.open
    ensures CloseAt(b, s, price, fees).1 <==> TwoWork(b)
  {
    assert RowAgrees(b, s);
    if b.db.Some? && TwoWork(b) {
      var outcomes := b.db.value.outcomes;
      assert |outcomes| > 1 ==> outcomes[1..][0] == outcomes[1];
    }
  }

  // A flip that closes the position and then fails leaves the new one without its row.
  lemma FlipAgrees(b: Book, o: Order, price: real, fees: real)
    requires Agrees(b) && o.symbol in b.open
    ensures var (b1, ok) := Flip(b, o, price, fees);
      && (ok ==> Agrees(b1))
      && (Agrees(b1) <==> ok || !TwoWork(b))
  {
    CloseWorks(b, o.symbol, price, fees);
    CloseAgrees(b, o.symbol, price, fees);
    var (b1, ok1) := CloseAt(b, o.symbol, price, fees);
    var surplus := TotalQty(o.fills) - b.open[o.symbol].qty;
    if ok1 && surplus > 0.0 {
      OpenAgrees(b1, o.symbol, Adds(o.side), price, surplus, fees);
    }
  }

  // A flip trades what closes the position, then the surplus, once the closing has worked.
  lemma FlipTrades(b: Book, o: Order, price: real, fees: real, t: string)
    requires o.symbol in b.open && b.open[o.symbol].side == Opposite(Adds(o.side))
    requires TotalQty(o.fills) >= b.open[o.symbol].qty && CloseAt(b, o.symbol, price, fees).1
    ensures Traded(b, Flip(b, o, price, fees).0, o.symbol, Adds(o.side), TotalQty(o.fills), price, t)
  {
    var s, side, held := o.symbol, Adds(o.side), b.open[o.symbol].qty;
    var surplus := TotalQty(o.fills) - held;
    var b1 := CloseAt(b, s, price, fees).0;
    var b2 := if surplus > 0.0 then OpenAt(b1, s, side, price, surplus, fees).0 else b1;
    assert Flip(b, o, price, fees).0 == b2 && s !in b1.open;
    assert Traded(b, b1, s, side, held, price, t) by {
      CloseTrades(b, s, price, fees, t);
    }
    if surplus > 0.0 {
      assert Traded(b1, b2, s, side, surplus, price, t) by {
        OpenTrades(b1, s, side, price, surplus, fees, t);
      }
      TradedTwice(b, b1, b2, s, side, held, surplus, price, t);
    }
  }

  lemma ApplyLaw(b: Book, o: Order, price: real, fees: real, t: string)
    requires Agrees(b) && ValidFills(o.fills)
    requires b.db.Some? || !Reduces(b, o)
    ensures var (b1, ok) := Apply(b, o, price, fees);
      ok ==> Agrees(b1) && Traded(b, b1, o.symbol, Adds(o.side), TotalQty(o.fills), price, t)
  {
    var s, side, qty := o.symbol, Adds(o.side), TotalQty(o.fills);
    TotalQtyPositive(o.fills);
    if s !in b.open {
      OpenAgrees(b, s, side, price, qty, fees);
      OpenTrades(b, s, side, price, qty, fees, t);
    } else if Averages(b, o) {
      AverageAgrees(b, s, price, qty, fees);
      AverageTrades(b, s, price, qty, fees, t);
    } else if Reduces(b, o) {
      ReduceAgrees(b, s, qty, price, fees);
      AgreeingFits(b);
      ReduceTrades(b, s, qty, price, fees, t);
    } else {
      FlipAgrees(b, o, price, fees);
      if CloseAt(b, s, price, fees).1 {
        FlipTrades(b, o, price, fees, t);
      }
    }
  }

  // Every order filled without error is booked as what it trades, and memory still agrees with
  // the rows.
  lemma FillLaw(b: Book, o: Order, feeRate: real, t: string)
    requires Agrees(b) && ValidFills(o.fills)
    requires b.db.Some? || !Reduces(b, o)
    ensures var (b1, ok) := OnOrderFilled(b, o, feeRate);
      ok ==>
        && Agrees(b1)
        && Net(b1, t) == Net(b, t) + TapeNet(Tape([o], t))
        && Cash(b1, t) == Cash(b, t) + TapeCash(Tape([o], t))
  {
    TotalQtyPositive(o.fills);
    var price := TotalValue(o.fills) / TotalQty(o.fills);
    OrderPays(o, price, t);
    ApplyLaw(b, o, price, TotalFees(o.fills, feeRate), t);
  }

  // A call that fails leaves the positions alone exactly when it was adding to one or reducing
  // one; opening, closing and flipping have already changed them by then. Memory and rows then
  // still agree exactly in these two cases and when it was the closing that failed; otherwise a
  // position has been opened without a row.
  lemma FailureLaw(b: Book, o: Order, feeRate: real)
    requires Agrees(b) && ValidFills(o.fills) && b.db.Some?
    ensures var (b1, ok) := OnOrderFilled(b, o, feeRate);
      !ok ==>
        && (b1.open == b.open <==> Averages(b, o) || Reduces(b, o))
        && (Agrees(b1) <==> Averages(b, o) || Reduces(b, o) || (o.symbol in b.open && !TwoWork(b)))
  {
    var s, side, qty := o.symbol, Adds(o.side), TotalQty(o.fills);
    TotalQtyPositive(o.fills);
    var price, fees := TotalValue(o.fills) / qty, TotalFees(o.fills, feeRate);
    if s !in b.open {
      OpenAgrees(b, s, side, price, qty, fees);
    } else if Averages(b, o) {
      AverageAgrees(b, s, price, qty, fees);
    } else if Reduces(b, o) {
      ReduceAgrees(b, s, qty, price, fees);
    } else {
      FlipAgrees(b, o, price, fees);
    }
  }

  // A first order whose INSERT fails leaves a position without a row.
  lemma FailedInsertLeavesNoRow(o: Order, rest: seq<bool>, feeRate: real)
    requires ValidFills(o.fills)
    ensures var (b, ok) := OnOrderFilled(Empty(Some([false] + rest)), o, feeRate);
      !ok && o.symbol in b.open && b.db.Some? && b.db.value.rows == map[] && !Agrees(b)
  {
    TotalQtyPositive(o.fills);
    var b := Empty(Some([false] + rest));
    var price, fees := TotalValue(o.fills) / TotalQty(o.fills), TotalFees(o.fills, feeRate);
    assert b.db.value.outcomes[0] == false;
    assert OnOrderFilled(b, o, feeRate) == OpenAt(b, o.symbol, Adds(o.side), price, TotalQty(o.fills), fees);
    OpenAgrees(b, o.symbol, Adds(o.side), price, TotalQty(o.fills), fees);
  }

  // No statement to come fails.
  predicate Healthy(b: Book) {
    b.db.Some? ==> AllUp(b.db.value.outcomes)
  }

  lemma OpenHealthy(b: Book, s: string, side: Side, price: real, qty: real, fees: real)
    requires Agrees(b) && Healthy(b)
    ensures var (b1, ok) := OpenAt(b, s, side, price, qty, fees); ok && Healthy(b1)
  {}

  lemma CloseHealthy(b: Book, s: string, price: real, fees: real)
    requires Agrees(b) && Healthy(b) && s in b.open
    ensures var (b1, ok) := CloseAt(b, s, price, fees); ok && Healthy(b1)
  {
    assert RowAgrees(b, s);
  }

  lemma ReduceHealthy(b: Book, s: string, qty: real, price: real, fees: real)
    requires Agrees(b) && Healthy(b) && s in b.open && qty < b.open[s].qty
    ensures var (b1, ok) := ReduceAt(b, s, qty, price, fees); ok && Healthy(b1)
  {
    assert RowAgrees(b, s);
  }

  lemma AverageHealthy(b: Book, s: string, price: real, qty: real, fees: real)
    requires Agrees(b) && Healthy(b) && s in b.open && qty > 0.0
    ensures var (b1, ok) := AverageAt(b, s, price, qty, fees); ok && Healthy(b1)
  {
    assert RowAgrees(b, s);
  }

  lemma FlipHealthy(b: Book, o: Order, price: real, fees: real)
    requires Agrees(b) && Healthy(b) && o.symbol in b.open
    ensures var (b1, ok) := Flip(b, o, price, fees); ok && Healthy(b1)
  {
    CloseHealthy(b, o.symbol, price, fees);
    CloseAgrees(b, o.symbol, price, fees);
    var b1 := CloseAt(b, o.symbol, price, fees).0;
    var surplus := TotalQty(o.fills) - b.open[o.symbol].qty;
    if surplus > 0.0 {
      OpenHealthy(b1, o.symbol, Adds(o.side), price, surplus, fees);
    }
  }

  lemma ApplyHealthy(b: Book, o: Order, price: real, fees: real)
    requires Agrees(b) && ValidFills(o.fills) && Healthy(b)
    ensures var (b1, ok) := Apply(b, o, price, fees); ok && Healthy(b1)
  {
    var s, side, qty := o.symbol, Adds(o.side), TotalQty(o.fills);
    TotalQtyPositive(o.fills);
    if s !in b.open {
      OpenHealthy(b, s, side, price, qty, fees);
    } else if Averages(b, o) {
      AverageHealthy(b, s, price, qty, fees);
    } else if Reduces(b, o) {
      ReduceHealthy(b, s, qty, price, fees);
    } else {
      FlipHealthy(b, o, price, fees);
    }
  }

  // When every statement works, every fill is booked.
  lemma HealthyLaw(b: Book, o: Order, feeRate: real)
    requires Agrees(b) && ValidFills(o.fills) && Healthy(b)
    ensures var (b1, ok) := OnOrderFilled(b, o, feeRate); ok && Healthy(b1)
  {
    TotalQtyPositive(o.fills);
    ApplyHealthy(b, o, TotalValue(o.fills) / TotalQty(o.fills), TotalFees(o.fills, feeRate));
  }

  // Without a database a reducing order is dropped, and only that one.
  lemma WithoutDatabase(b: Book, o: Order, feeRate: real)
    requires Agrees(b) && ValidFills(o.fills) && b.db.None?
    ensures var (b1, ok) := OnOrderFilled(b, o, feeRate);
      && ok && (Reduces(b, o) ==> b1 == b)
      && (Net(b1, o.symbol) == Net(b, o.symbol) + TapeNet(Tape([o], o.symbol)) <==> !Reduces(b, o))
  {
    TotalQtyPositive(o.fills);
    if Reduces(b, o) {
      OrderPays(o, TotalValue(o.fills) / TotalQty(o.fills), o.symbol);
    } else {
      HealthyLaw(b, o, feeRate);
      FillLaw(b, o, feeRate, o.symbol);
    }
  }

  lemma HoldingsStayPositive(b: Book, o: Order, feeRate: real)
    requires PositiveHoldings(b) && ValidFills(o.fills)
    ensures var b1 := OnOrderFilled(b, o, feeRate).0;
      PositiveHoldings(b1) && (b1.db.Some? <==> b.db.Some?)
  {
    TotalQtyPositive(o.fills);
  }

  // ----- runs -----

  predicate ValidOrders(orders: seq<Order>) {
    forall i :: 0 <= i < |orders| ==> ValidFills(orders[i].fills)
  }

  // The session a run takes place in.
  const SESSION: Option<nat> := Some(0)

  function Empty(db: Option<seq<bool>>): Book {
    Book(map[], if db.None? then None else Some(Db(map[], db.value)), SESSION, 0, [])
  }

  // The book after `orders`, from an empty one, and whether every call succeeded.
  function Run(db: Option<seq<bool>>, orders: seq<Order>, feeRate: real): (r: (Book, bool))
    requires ValidOrders(orders)
    ensures PositiveHoldings(r.0) && (r.0.db.Some? <==> db.Some?)
  {
    if orders == [] then (Empty(db), true)
    else
      var n := |orders| - 1;
      var (b, ok) := Run(db, orders[..n], feeRate);
      HoldingsStayPositive(b, orders[n], feeRate);
      var (b1, ok1) := OnOrderFilled(b, orders[n], feeRate);
      (b1, ok && ok1)
  }

  // Position `k` of the run reduces a position; decided by what was traded before it alone.
  predicate ReducesAt(orders: seq<Order>, k: nat)
    requires k < |orders|
  {
    Shrinks(TapeNet(Tape(orders[..k], orders[k].symbol)), Signed(Adds(orders[k].side), TotalQty(orders[k].fills)))
  }

  ghost predicate NeverReduces(orders: seq<Order>) {
    forall k :: 0 <= k < |orders| ==> !ReducesAt(orders, k)
  }

  lemma PrefixNeverReduces(orders: seq<Order>, n: nat)
    requires NeverReduces(orders) && n <= |orders|
    ensures NeverReduces(orders[..n])
  {
    forall k | 0 <= k < n
      ensures !ReducesAt(orders[..n], k)
    {
      assert orders[..n][..k] == orders[..k] && !ReducesAt(orders, k);
    }
  }

  // No call of the run fails, and without a database no order is dropped.
  ghost predicate Booked(db: Option<seq<bool>>, orders: seq<Order>, feeRate: real) {
    ValidOrders(orders) && Run(db, orders, feeRate).1 && (db.Some? || NeverReduces(orders))
  }

  lemma {:induction false} RunBooks(db: Option<seq<bool>>, orders: seq<Order>, feeRate: real, t: string)
    requires Booked(db, orders, feeRate)
    ensures var b := Run(db, orders, feeRate).0;
      Agrees(b) && Net(b, t) == TapeNet(Tape(orders, t)) && Cash(b, t) == TapeCash(Tape(orders, t))
  {
    var n := |orders| - 1;
    if n >= 0 {
      var init, o := orders[..n], orders[n];
      if db.None? {
        PrefixNeverReduces(orders, n);
      }
      RunBooks(db, init, feeRate, t);
      RunBooks(db, init, feeRate, o.symbol);
      var b := Run(db, init, feeRate).0;
      ReducesIsNet(b, o);
      assert db.None? ==> !ReducesAt(orders, n);
      FillLaw(b, o, feeRate, t);
      assert Tape([o], t) == if o.symbol == t then TradesOf(o.side, o.fills) else [];
      TapeSums(Tape(init, t), Tape([o], t));
    }
  }

  // Mark-to-market conservation. After any run of orders filled without error, a symbol's
  // realised profit (exit fees added back) plus the unrealised profit of its open position at
  // any price is what its trades earn at that price, and its signed position is what was
  // bought less what was sold.
  lemma Conservation(db: Option<seq<bool>>, orders: seq<Order>, feeRate: real, t: string, p: real)
    requires Booked(db, orders, feeRate)
    ensures var b := Run(db, orders, feeRate).0;
      && Worth(b, t, p) == TapeWorth(Tape(orders, t), p)
      && Net(b, t) == TapeNet(Tape(orders, t))
  {
    RunBooks(db, orders, feeRate, t);
    WorthIsLinear(Run(db, orders, feeRate).0, t, p);
    TapeWorthIsLinear(Tape(orders, t), p);
  }

  // After every part of the run the net positions are what has been bought less what has been sold.
  ghost predicate NetsAreTraded(orders: seq<Order>, feeRate: real)
    requires ValidOrders(orders)
  {
    forall k, t :: 0 <= k <= |orders| ==> NetIsTraded(orders[..k], feeRate, t)
  }

  predicate NetIsTraded(orders: seq<Order>, feeRate: real, t: string)
    requires ValidOrders(orders)
  {
    Net(Run(None, orders, feeRate).0, t) == TapeNet(Tape(orders, t))
  }

  lemma {:induction false} NoCallFails(orders: seq<Order>, feeRate: real)
    requires ValidOrders(orders)
    ensures Run(None, orders, feeRate).1
  {
    var n := |orders| - 1;
    if n >= 0 {
      NoCallFails(orders[..n], feeRate);
      TotalQtyPositive(orders[n].fills);
    }
  }

  lemma {:induction false} FirstReduces(orders: seq<Order>) returns (k: nat)
    requires !NeverReduces(orders)
    ensures k < |orders| && NeverReduces(orders[..k]) && ReducesAt(orders, k)
  {
    var n := |orders| - 1;
    NeverReducesSteps(orders);
    if NeverReduces(orders[..n]) {
      k := n;
    } else {
      k := FirstReduces(orders[..n]);
      assert orders[..n][..k] == orders[..k];
    }
  }

  lemma NeverReducesSteps(orders: seq<Order>)
    requires orders != []
    ensures var n := |orders| - 1;
      NeverReduces(orders) <==> NeverReduces(orders[..n]) && !ReducesAt(orders, n)
  {
    var n := |orders| - 1;
    forall k | 0 <= k < n
      ensures ReducesAt(orders[..n], k) <==> ReducesAt(orders, k)
    {
      assert orders[..n][..k] == orders[..k];
    }
    if NeverReduces(orders) {
      PrefixNeverReduces(orders, n);
    }
  }

  // The first order that is dropped shows in the net position of its symbol.
  lemma DroppedOrderShows(orders: seq<Order>, feeRate: real, k: nat)
    requires ValidOrders(orders) && k < |orders| && NeverReduces(orders[..k]) && ReducesAt(orders, k)
    ensures !NetIsTraded(orders[..k + 1], feeRate, orders[k].symbol)
  {
    var before, o := orders[..k], orders[k];
    var b := Run(None, before, feeRate).0;
    assert orders[..k + 1][..k] == before;
    NoCallFails(before, feeRate);
    RunBooks(None, before, feeRate, o.symbol);
    ReducesIsNet(b, o);
    WithoutDatabase(b, o, feeRate);
    TapeConcat(before, [o], o.symbol);
    assert orders[..k + 1] == before + [o];
    TapeSums(Tape(before, o.symbol), Tape([o], o.symbol));
  }

  // Without a database the net positions are right all the time exactly when no order of the run
  // ever reduces a position.
  lemma RunsWithoutDatabase(orders: seq<Order>, feeRate: real)
    requires ValidOrders(orders)
    ensures NetsAreTraded(orders, feeRate) <==> NeverReduces(orders)
  {
    if NeverReduces(orders) {
      forall k, t | 0 <= k <= |orders|
        ensures NetIsTraded(orders[..k], feeRate, t)
      {
        PrefixNeverReduces(orders, k);
        NoCallFails(orders[..k], feeRate);
        RunBooks(None, orders[..k], feeRate, t);
      }
    } else {
      var k := FirstReduces(orders);
      DroppedOrderShows(orders, feeRate, k);
    }
  }

  // Every position open after such a run holds a positive quantity, and the row of its id is
  // open and agrees with it; no two positions share an id.
  lemma RowsMirrorPositions(db: Option<seq<bool>>, orders: seq<Order>, feeRate: real)
    requires ValidOrders(orders) && Run(db, orders, feeRate).1 && db.Some?
    ensures Agrees(Run(db, orders, feeRate).0)
  {
    RunBooks(db, orders, feeRate, "");
  }

  // When no statement fails, no run does.
  lemma {:induction false} HealthyRun(outcomes: seq<bool>, orders: seq<Order>, feeRate: real)
    requires ValidOrders(orders) && AllUp(outcomes)
    ensures var (b, ok) := Run(Some(outcomes), orders, feeRate); ok && Healthy(b)
  {
    var n := |orders| - 1;
    if n >= 0 {
      HealthyRun(outcomes, orders[..n], feeRate);
      RunBooks(Some(outcomes), orders[..n], feeRate, "");
      HealthyLaw(Run(Some(outcomes), orders[..n], feeRate).0, orders[n], feeRate);
    }
  }

  lemma {:induction false} TapeConcat(xs: seq<Order>, ys: seq<Order>, t: string)
    ensures Tape(xs + ys, t) == Tape(xs, t) + Tape(ys, t)
  {
    if ys == [] {
      assert xs + ys == xs;
    } else {
      var n := |ys| - 1;
      assert (xs + ys)[..|xs + ys| - 1] == xs + ys[..n];
      TapeConcat(xs, ys[..n], t);
    }
  }

  function KeepFirst(o: Order, k: nat): Order
    requires k <= |o.fills|
  {
    o.(fills := o.fills[..k])
  }

  function KeepLast(o: Order, k: nat): Order
    requires k <= |o.fills|
  {
    o.(fills := o.fills[k..])
  }

  lemma SplitTape(before: seq<Order>, o: Order, k: nat, after: seq<Order>, t: string)
    requires k <= |o.fills|
    ensures Tape(before + [o] + after, t) == Tape(before + [KeepFirst(o, k), KeepLast(o, k)] + after, t)
  {
    var first, second := KeepFirst(o, k), KeepLast(o, k);
    assert TradesOf(o.side, o.fills) == TradesOf(o.side, first.fills) + TradesOf(o.side, second.fills);
    assert [first, second] == [first] + [second];
    TapeConcat([first], [second], t);
    assert Tape([o], t) == Tape([first, second], t);
    TapeConcat(before, [o], t);
    TapeConcat(before + [o], after, t);
    TapeConcat(before, [first, second], t);
    TapeConcat(before + [first, second], after, t);
  }

  // Reporting an order's fills over two calls instead of one changes neither what its symbol
  // (or any other) is worth at any price nor the net position.
  lemma SplittingFills(db: Option<seq<bool>>, db': Option<seq<bool>>, before: seq<Order>, o: Order, k: nat,
                       after: seq<Order>, feeRate: real, t: string, p: real)
    requires 0 < k < |o.fills|
    requires Booked(db, before + [o] + after, feeRate)
    requires Booked(db', before + [KeepFirst(o, k), KeepLast(o, k)] + after, feeRate)
    ensures
      var whole := Run(db, before + [o] + after, feeRate).0;
      var split := Run(db', before + [KeepFirst(o, k), KeepLast(o, k)] + after, feeRate).0;
      Worth(whole, t, p) == Worth(split, t, p) && Net(whole, t) == Net(split, t)
  {
    var whole, split := before + [o] + after, before + [KeepFirst(o, k), KeepLast(o, k)] + after;
    SplitTape(before, o, k, after, t);
    Conservation(db, whole, feeRate, t, p);
    Conservation(db', split, feeRate, t, p);
  }
}
