/**
  What the paper-trading ledger does, as functions over values: the `positions` table with its
  statements, and the fill handling of the position manager on top of it. The classes in
  PositionStore.dfy and PositionManager.dfy are proved against these functions; LedgerLaws.dfy
  proves what the functions promise over whole runs.
*/
module Ledger {
  import opened Options

  datatype Side = Long | Short
  datatype OrderSide = Buy | Sell | UnknownSide
  datatype Fill = Fill(price: real, quantity: real, timestamp: int)
  datatype Order = Order(symbol: string, side: OrderSide, fills: seq<Fill>)

  // An open position as the position manager holds it in memory.
  datatype Holding = Holding(id: nat, side: Side, entry: real, qty: real, fees: real, unrealized: Option<real>)

  datatype Exit = Exit(price: real, realized: real)

  // What a row keeps of the opening: the session, and the entry time. (Only the order of entry
  // times matters, so openings are numbered.)
  datatype Origin = Origin(session: Option<nat>, entered: nat)

  // A row of the table; `exit == None` says that exit_time IS NULL.
  datatype Row = Row(origin: Origin, symbol: string, side: Side, entry: real, qty: real, fees: real,
                     exit: Option<Exit>, unrealized: Option<real>)

  // The database: its rows by id, and what will become of the statements still to come
  // (`outcomes[k]` says whether the k-th of them succeeds; those past the end do).
  datatype Db = Db(rows: map<nat, Row>, outcomes: seq<bool>)

  // What the manager logs when it realises profit: net of the exit fees, and those fees.
  datatype Realisation = Realisation(symbol: string, pnl: real, fees: real)

  // The manager's whole state. `db == None` is the mode without a database, `nextId` the
  // source of fresh UUIDs and entry times, `realised` the log of realised profit and loss.
  datatype Book = Book(open: map<string, Holding>, db: Option<Db>, session: Option<nat>, nextId: nat,
                       realised: seq<Realisation>)

  function Gross(side: Side, entry: real, exitPrice: real, qty: real): real {
    if side == Long then (exitPrice - entry) * qty else (entry - exitPrice) * qty
  }

  function Unrealised(h: Holding, price: real): real {
    Gross(h.side, h.entry, price, h.qty)
  }

  // ----- statements on the table -----

  // One round trip to the database: whether it works, and what is left.
  function Exec(d: Db): (bool, Db) {
    if d.outcomes == [] then (true, d) else (d.outcomes[0], d.(outcomes := d.outcomes[1..]))
  }

  predicate AllUp(outcomes: seq<bool>) {
    forall k :: 0 <= k < |outcomes| ==> outcomes[k]
  }

  // INSERT; the primary key refuses an id that is taken. Exit columns and fees are not listed
  // in the statement, so they start as NULL and 0 whatever the position says.
  function Create(d: Db, id: nat, origin: Origin, symbol: string, side: Side, entry: real, qty: real): (bool, Db) {
    var (up, d1) := Exec(d);
    if !up || id in d1.rows then (false, d1)
    else (true, d1.(rows := d1.rows[id := Row(origin, symbol, side, entry, qty, 0.0, None, None)]))
  }

  predicate IsOpenRow(d: Db, id: nat) {
    id in d.rows && d.rows[id].exit.None?
  }

  function Close(d: Db, id: nat, exitPrice: real, fees: real): (bool, Db) {
    var (found, d1) := Exec(d);
    if !found || !IsOpenRow(d1, id) then (false, d1)
    else
      var row := d1.rows[id];
      var pnl := Gross(row.side, row.entry, exitPrice, row.qty) - fees;
      var (up, d2) := Exec(d1);
      if !up then (false, d2)
      else (true, d2.(rows := d2.rows[id := row.(exit := Some(Exit(exitPrice, pnl)),
                                                 unrealized := Some(0.0), fees := row.fees + fees)]))
  }

  function SetQuantity(d: Db, id: nat, qty: real, fees: real): (bool, Db) {
    var (up, d1) := Exec(d);
    if !up || !IsOpenRow(d1, id) then (false, d1)
    else (true, d1.(rows := d1.rows[id := d1.rows[id].(qty := qty, fees := d1.rows[id].fees + fees)]))
  }

  function SetAverage(d: Db, id: nat, entry: real, qty: real, fees: real): (bool, Db) {
    var (up, d1) := Exec(d);
    if !up || !IsOpenRow(d1, id) then (false, d1)
    else (true, d1.(rows := d1.rows[id := d1.rows[id].(entry := entry, qty := qty, fees := d1.rows[id].fees + fees)]))
  }

  // Splits `qty` off an open row: read it, insert the closed part under `newId`, shrink it.
  // Yields the profit realised on the closed part.
  function PartialClose(d: Db, id: nat, newId: nat, qty: real, exitPrice: real, fees: real): (Option<real>, Db) {
    var (found, d1) := Exec(d);
    if !found || !IsOpenRow(d1, id) || qty >= d1.rows[id].qty then (None, d1)
    else
      var row := d1.rows[id];
      var (created, d2) := Create(d1, newId, row.origin, row.symbol, row.side, row.entry, qty);
      if !created then (None, d2)
      else
        var (updated, d3) := SetQuantity(d2, id, row.qty - qty, 0.0);
        if !updated then (None, d3)
        else (Some(Gross(row.side, row.entry, exitPrice, qty) - fees), d3)
  }

  function Mark(d: Db, id: nat, price: real): (bool, Db) {
    var (found, d1) := Exec(d);
    if !found || !IsOpenRow(d1, id) then (false, d1)
    else
      var row := d1.rows[id];
      var (up, d2) := Exec(d1);
      if !up then (false, d2)
      else (true, d2.(rows := d2.rows[id := row.(unrealized := Some(Gross(row.side, row.entry, price, row.qty)))]))
  }

  // A position as it is loaded from its row.
  datatype Listed = Listed(symbol: string, entered: nat, holding: Holding)

  function ListedRow(id: nat, row: Row): Listed {
    Listed(row.symbol, row.origin.entered, Holding(id, row.side, row.entry, row.qty, row.fees, row.unrealized))
  }

  predicate OpenIn(d: Db, session: Option<nat>, id: nat) {
    IsOpenRow(d, id) && d.rows[id].origin.session == session
  }

  predicate LoadedFrom(d: Db, session: Option<nat>, p: Listed) {
    OpenIn(d, session, p.holding.id) && p == ListedRow(p.holding.id, d.rows[p.holding.id])
  }

  // Of the open rows of its session and symbol, none is older.
  ghost predicate Oldest(d: Db, session: Option<nat>, p: Listed) {
    forall id :: OpenIn(d, session, id) && d.rows[id].symbol == p.symbol ==> p.entered <= d.rows[id].origin.entered
  }

  ghost predicate LoadedAs(d: Db, session: Option<nat>, symbol: string, h: Holding) {
    exists entered :: var p := Listed(symbol, entered, h); LoadedFrom(d, session, p) && Oldest(d, session, p)
  }

  // What loading a session can give: for every symbol the oldest of its open rows. (The rows are
  // listed with the latest first, and those that come later replace those before.)
  ghost predicate Loads(d: Db, session: Option<nat>, open: map<string, Holding>) {
    && (forall s :: s in open ==> LoadedAs(d, session, s, open[s]))
    && (forall id :: OpenIn(d, session, id) ==> d.rows[id].symbol in open)
  }

  // What starting or ending a session can give.
  ghost predicate Loadable(b: Book, session: Option<nat>, open: map<string, Holding>) {
    session.Some? && b.db.Some? && Exec(b.db.value).0 ==> Loads(Exec(b.db.value).1, session, open)
  }

  // With a database a session that starts loads its open rows; when the query fails the
  // positions held so far stay. Otherwise there are none.
  function Switched(b: Book, session: Option<nat>, loaded: map<string, Holding>): Book {
    if session.None? || b.db.None? then b.(session := session, open := map[])
    else
      var (up, d) := Exec(b.db.value);
      b.(session := session, db := Some(d), open := if up then loaded else b.open)
  }

  // ----- fill handling -----

  function TotalQty(fills: seq<Fill>): real {
    if fills == [] then 0.0 else TotalQty(fills[..|fills| - 1]) + fills[|fills| - 1].quantity
  }

  function Value(f: Fill): real {
    f.price * f.quantity
  }

  function TotalValue(fills: seq<Fill>): real {
    if fills == [] then 0.0 else TotalValue(fills[..|fills| - 1]) + Value(fills[|fills| - 1])
  }

  function Fee(f: Fill, feeRate: real): real {
    Value(f) * feeRate
  }

  function TotalFees(fills: seq<Fill>, feeRate: real): real {
    if fills == [] then 0.0 else TotalFees(fills[..|fills| - 1], feeRate) + Fee(fills[|fills| - 1], feeRate)
  }

  // What an exchange reports: at least one fill, each of a positive quantity.
  predicate ValidFills(fills: seq<Fill>) {
    |fills| > 0 && forall i :: 0 <= i < |fills| ==> fills[i].quantity > 0.0
  }

  lemma {:induction false} TotalQtyPositive(fills: seq<Fill>)
    requires ValidFills(fills)
    ensures TotalQty(fills) > 0.0
  {
    if |fills| == 1 {
      assert TotalQty(fills[..0]) == 0.0;
    } else {
      TotalQtyPositive(fills[..|fills| - 1]);
    }
  }

  function OpenAt(b: Book, symbol: string, side: Side, price: real, qty: real, fees: real): (Book, bool) {
    var b1 := b.(open := b.open[symbol := Holding(b.nextId, side, price, qty, fees, None)], nextId := b.nextId + 1);
    if b.db.None? then (b1, true)
    else
      var (ok, d) := Create(b.db.value, b.nextId, Origin(b.session, b.nextId), symbol, side, price, qty);
      (b1.(db := Some(d)), ok)
  }

  function CloseAt(b: Book, symbol: string, price: real, fees: real): (Book, bool)
    requires symbol in b.open
  {
    var h := b.open[symbol];
    var b1 := b.(open := b.open - {symbol});
    var done := b1.(realised := b.realised + [Realisation(symbol, Unrealised(h, price) - fees, fees)]);
    if b.db.None? then (done, true)
    else
      var (ok, d) := Close(b.db.value, h.id, price, fees);
      if ok then (done.(db := Some(d)), true) else (b1.(db := Some(d)), false)
  }

  // Without a database this does nothing at all.
  function ReduceAt(b: Book, symbol: string, qty: real, price: real, fees: real): (Book, bool)
    requires symbol in b.open
  {
    if b.db.None? then (b, true)
    else
      var h := b.open[symbol];
      var (pnl, d) := PartialClose(b.db.value, h.id, b.nextId, qty, price, fees);
      var b1 := b.(db := Some(d), nextId := b.nextId + 1);
      if pnl.None? then (b1, false)
      else (b1.(open := b.open[symbol := h.(qty := h.qty - qty, fees := h.fees + fees)],
                realised := b.realised + [Realisation(symbol, pnl.value, fees)]), true)
  }

  function AveragePrice(entry: real, held: real, price: real, qty: real): real
    requires held + qty != 0.0
  {
    (entry * held + price * qty) / (held + qty)
  }

  function AverageAt(b: Book, symbol: string, price: real, qty: real, fees: real): (Book, bool)
    requires symbol in b.open && b.open[symbol].qty + qty != 0.0
  {
    var h := b.open[symbol];
    var total := h.qty + qty;
    var entry := AveragePrice(h.entry, h.qty, price, qty);
    var b1 := b.(open := b.open[symbol := h.(entry := entry, qty := total, fees := h.fees + fees)]);
    if b.db.None? then (b1, true)
    else
      var (ok, d) := SetAverage(b.db.value, h.id, entry, total, fees);
      if ok then (b1.(db := Some(d)), true) else (b.(db := Some(d)), false)
  }

  function Marked(h: Holding, price: real): Holding {
    h.(unrealized := Some(Unrealised(h, price)))
  }

  // Marks one position to its price: its row, and it too if that works.
  function MarkAt(b: Book, symbol: string, price: real): (Book, bool)
    requires symbol in b.open
  {
    var h := b.open[symbol];
    var b1 := b.(open := b.open[symbol := Marked(h, price)]);
    if b.db.None? then (b1, true)
    else
      var (ok, d) := Mark(b.db.value, h.id, price);
      if ok then (b1.(db := Some(d)), true) else (b.(db := Some(d)), false)
  }

  // The side an order adds to, and the one it reduces. Whatever is not a buy sells.
  function Adds(side: OrderSide): Side {
    if side == Buy then Long else Short
  }

  predicate PositiveHoldings(b: Book) {
    forall s :: s in b.open ==> b.open[s].qty > 0.0
  }

  predicate Averages(b: Book, o: Order) {
    o.symbol in b.open && b.open[o.symbol].side == Adds(o.side)
  }

  predicate Reduces(b: Book, o: Order) {
    o.symbol in b.open && b.open[o.symbol].side != Adds(o.side) && TotalQty(o.fills) < b.open[o.symbol].qty
  }

  function Flip(b: Book, o: Order, price: real, fees: real): (Book, bool)
    requires o.symbol in b.open
  {
    var surplus := TotalQty(o.fills) - b.open[o.symbol].qty;
    var (b1, ok) := CloseAt(b, o.symbol, price, fees);
    if !ok || surplus <= 0.0 then (b1, ok)
    else OpenAt(b1, o.symbol, Adds(o.side), price, surplus, fees)
  }

  // Books the quantity of `o` at the average price `price`.
  function Apply(b: Book, o: Order, price: real, fees: real): (Book, bool)
    requires ValidFills(o.fills) && PositiveHoldings(b)
  {
    TotalQtyPositive(o.fills);
    var qty := TotalQty(o.fills);
    if o.symbol !in b.open then OpenAt(b, o.symbol, Adds(o.side), price, qty, fees)
    else if Averages(b, o) then AverageAt(b, o.symbol, price, qty, fees)
    else if Reduces(b, o) then ReduceAt(b, o.symbol, qty, price, fees)
    else Flip(b, o, price, fees)
  }

  // The handling of one filled order with an active session.
  function OnOrderFilled(b: Book, o: Order, feeRate: real): (Book, bool)
    requires ValidFills(o.fills) && PositiveHoldings(b)
  {
    TotalQtyPositive(o.fills);
    Apply(b, o, TotalValue(o.fills) / TotalQty(o.fills), TotalFees(o.fills, feeRate))
  }
}
