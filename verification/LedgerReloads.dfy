/** Loading the open rows of a session: what it gives back after a run, and what it repairs. */
module LedgerReloads {
  import opened Options
  import opened Ledger
  import opened LedgerLaws
  import opened LedgerRuns
  import opened LedgerRows

  // ----- how old the rows are -----

  // All rows are of the session. The row of a position was entered when the position got its
  // number, and of the rows of its symbol none is younger.
  ghost predicate Aged(b: Book) {
    b.db.Some? ==>
      && (forall id :: id in b.db.value.rows ==>
            b.db.value.rows[id].origin.session == b.session && b.db.value.rows[id].origin.entered <= id)
      && (forall id :: id in b.db.value.rows ==> NoYounger(b, id))
      && (forall s :: s in b.open && b.open[s].id in b.db.value.rows ==>
            b.db.value.rows[b.open[s].id].origin.entered == b.open[s].id)
  }

  predicate NoYounger(b: Book, id: nat)
    requires b.db.Some? && id in b.db.value.rows
  {
    var rows := b.db.value.rows;
    var s := rows[id].symbol;
    s in b.open && b.open[s].id in rows ==> rows[id].origin.entered <= rows[b.open[s].id].origin.entered
  }

  // Nothing has changed that has to do with the age of rows.
  ghost predicate SameAges(b: Book, b1: Book) {
    && b.db.Some? && b1.db.Some? && b1.session == b.session
    && b1.db.value.rows.Keys == b.db.value.rows.Keys
    && (forall id :: id in b.db.value.rows ==>
          var row, row1 := b.db.value.rows[id], b1.db.value.rows[id];
          row1.origin == row.origin && row1.symbol == row.symbol)
    && (forall s :: s in b1.open ==> s in b.open && b1.open[s].id == b.open[s].id)
  }

  lemma SameAgesAged(b: Book, b1: Book)
    requires Aged(b) && SameAges(b, b1)
    ensures Aged(b1)
  {
    forall id | id in b1.db.value.rows
      ensures NoYounger(b1, id)
    {
      assert NoYounger(b, id);
    }
  }

  lemma OpenAges(b: Book, s: string, side: Side, price: real, qty: real, fees: real)
    requires Agrees(b) && Aged(b) && b.db.Some? && s !in b.open
    ensures Aged(OpenAt(b, s, side, price, qty, fees).0)
  {
    var b1 := OpenAt(b, s, side, price, qty, fees).0;
    forall id | id in b1.db.value.rows
      ensures NoYounger(b1, id)
    {
      assert id in b.db.value.rows ==> NoYounger(b, id);
    }
  }

  lemma ReduceAges(b: Book, s: string, qty: real, price: real, fees: real)
    requires Agrees(b) && Aged(b) && b.db.Some? && s in b.open
    ensures Aged(ReduceAt(b, s, qty, price, fees).0)
  {
    var b1, p := ReduceAt(b, s, qty, price, fees).0, b.open[s].id;
    var rows, rows1 := b.db.value.rows, b1.db.value.rows;
    assert RowAgrees(b, s);
    PartialCloseRows(b.db.value, p, b.nextId, qty, price, fees);
    forall id | id in rows1
      ensures rows1[id].origin.session == b.session && rows1[id].origin.entered <= id && NoYounger(b1, id)
    {
      assert if id == b.nextId then rows1[id].origin == rows[p].origin && rows1[id].symbol == s
        else rows1[id].origin == rows[id].origin && rows1[id].symbol == rows[id].symbol;
      assert NoYounger(b, if id == b.nextId then p else id);
    }
  }

  lemma FlipAges(b: Book, o: Order, price: real, fees: real)
    requires Agrees(b) && Aged(b) && b.db.Some? && o.symbol in b.open
    ensures Aged(Flip(b, o, price, fees).0)
  {
    var (b1, ok) := CloseAt(b, o.symbol, price, fees);
    var surplus := TotalQty(o.fills) - b.open[o.symbol].qty;
    assert SameAges(b, b1);
    SameAgesAged(b, b1);
    CloseAgrees(b, o.symbol, price, fees);
    if ok && surplus > 0.0 {
      OpenAges(b1, o.symbol, Adds(o.side), price, surplus, fees);
    }
  }

  lemma OrderAges(b: Book, o: Order, feeRate: real)
    requires Agrees(b) && Aged(b) && b.db.Some? && ValidFills(o.fills)
    ensures Aged(OnOrderFilled(b, o, feeRate).0)
  {
    TotalQtyPositive(o.fills);
    var s, qty := o.symbol, TotalQty(o.fills);
    var price, fees := TotalValue(o.fills) / qty, TotalFees(o.fills, feeRate);
    if s !in b.open {
      OpenAges(b, s, Adds(o.side), price, qty, fees);
    } else if Averages(b, o) {
      SameAgesAged(b, AverageAt(b, s, price, qty, fees).0);
    } else if Reduces(b, o) {
      ReduceAges(b, s, qty, price, fees);
    } else {
      FlipAges(b, o, price, fees);
    }
  }

  lemma {:induction false} RunAges(db: seq<bool>, orders: seq<Order>, feeRate: real)
    requires ValidOrders(orders) && Run(Some(db), orders, feeRate).1
    ensures Aged(Run(Some(db), orders, feeRate).0)
  {
    var n := |orders| - 1;
    if n >= 0 {
      RunAges(db, orders[..n], feeRate);
      RunBooks(Some(db), orders[..n], feeRate, "");
      OrderAges(Run(Some(db), orders[..n], feeRate).0, orders[n], feeRate);
    }
  }

  // ----- what can be loaded -----

  ghost predicate IsOldest(d: Db, session: Option<nat>, s: string, id: nat) {
    OpenIn(d, session, id) && d.rows[id].symbol == s && Oldest(d, session, ListedRow(id, d.rows[id]))
  }

  // Leaving out one row, there is one than which none is older.
  lemma {:induction false} OldestBut(d: Db, session: Option<nat>, id: nat, but: Option<nat>) returns (k: nat)
    requires OpenIn(d, session, id) && but != Some(id)
    ensures OpenIn(d, session, k) && but != Some(k) && d.rows[k].symbol == d.rows[id].symbol
    ensures d.rows[k].origin.entered <= d.rows[id].origin.entered
    ensures forall j :: OpenIn(d, session, j) && but != Some(j) && d.rows[j].symbol == d.rows[id].symbol ==>
      d.rows[k].origin.entered <= d.rows[j].origin.entered
    decreases if id in d.rows then d.rows[id].origin.entered else 0
  {
    if j :| OpenIn(d, session, j) && but != Some(j) && d.rows[j].symbol == d.rows[id].symbol
            && d.rows[j].origin.entered < d.rows[id].origin.entered {
      k := OldestBut(d, session, j, but);
    } else {
      k := id;
    }
  }

  ghost function OldestOf(d: Db, session: Option<nat>, s: string): nat
    requires exists id :: IsOldest(d, session, s, id)
  {
    var id :| IsOldest(d, session, s, id);
    id
  }

  function HoldingOf(d: Db, id: nat): Holding
    requires id in d.rows
  {
    ListedRow(id, d.rows[id]).holding
  }

  // Any oldest row of a symbol may be the one that is loaded.
  lemma OldestMayBeLoaded(d: Db, session: Option<nat>, s: string, id: nat) returns (open: map<string, Holding>)
    requires IsOldest(d, session, s, id)
    ensures Loads(d, session, open) && s in open && open[s].id == id
  {
    var symbols := set k | k in d.rows && OpenIn(d, session, k) :: d.rows[k].symbol;
    forall u | u in symbols
      ensures exists k :: IsOldest(d, session, u, k)
    {
      var k :| OpenIn(d, session, k) && d.rows[k].symbol == u;
      var oldest := OldestBut(d, session, k, None);
      assert IsOldest(d, session, u, oldest);
    }
    open := map u | u in symbols :: HoldingOf(d, if u == s then id else OldestOf(d, session, u));
    forall u | u in open
      ensures LoadedAs(d, session, u, open[u])
    {
      var k := open[u].id;
      assert IsOldest(d, session, u, k) && Listed(u, d.rows[k].origin.entered, open[u]) == ListedRow(k, d.rows[k]);
    }
  }

  // ----- loading after a run -----

  // The positions loaded are those of the run, with the fees and marks of their rows.
  predicate Restores(b: Book, open: map<string, Holding>) {
    && open.Keys == b.open.Keys
    && forall s :: s in open ==>
      var loaded, h := open[s], b.open[s];
      && loaded.id == h.id && loaded.side == h.side && loaded.entry == h.entry && loaded.qty == h.qty
      && b.db.Some? && h.id in b.db.value.rows
      && loaded.fees == b.db.value.rows[h.id].fees && loaded.unrealized == b.db.value.rows[h.id].unrealized
  }

  lemma MirroredRowsRestore(b: Book, open: map<string, Holding>)
    requires Agrees(b) && Aged(b) && b.db.Some? && Mirrors(b) && Loads(b.db.value, b.session, open)
    ensures Restores(b, open)
  {
    forall s | s in open
      ensures s in b.open && open[s].id == b.open[s].id && RowAgrees(b, s)
    {
      assert LoadedAs(b.db.value, b.session, s, open[s]);
      assert !Orphan(b, open[s].id);
      var u :| u in b.open && b.open[u].id == open[s].id;
      assert RowAgrees(b, u);
    }
    forall s | s in b.open
      ensures s in open
    {
      assert RowAgrees(b, s) && OpenIn(b.db.value, b.session, b.open[s].id);
    }
  }

  // An orphan, or an older row of its symbol, may be loaded in the place of a position.
  lemma OrphanMayBeLoaded(b: Book, id: nat) returns (open: map<string, Holding>)
    requires Agrees(b) && Aged(b) && b.db.Some? && Orphan(b, id)
    ensures Loads(b.db.value, b.session, open) && !Restores(b, open)
  {
    var d := b.db.value;
    var s := d.rows[id].symbol;
    var position := if s in b.open then Some(b.open[s].id) else None;
    var k := OldestBut(d, b.session, id, position);
    assert NoYounger(b, id);
    assert s in b.open ==> RowAgrees(b, s);
    assert IsOldest(d, b.session, s, k);
    open := OldestMayBeLoaded(d, b.session, s, k);
  }

  // Loading the open rows after a run filled without error is sure to give back its positions
  // exactly when no order of the run reduced a position.
  lemma ReloadRestores(db: seq<bool>, orders: seq<Order>, feeRate: real)
    requires ValidOrders(orders) && Run(Some(db), orders, feeRate).1
    ensures var b := Run(Some(db), orders, feeRate).0;
      (forall open :: Loads(b.db.value, b.session, open) ==> Restores(b, open)) <==> NeverReduces(orders)
  {
    var b := Run(Some(db), orders, feeRate).0;
    RunBooks(Some(db), orders, feeRate, "");
    RunAges(db, orders, feeRate);
    TableMirrorsUnlessReduced(db, orders, feeRate);
    forall open | Mirrors(b) && Loads(b.db.value, b.session, open)
      ensures Restores(b, open)
    {
      MirroredRowsRestore(b, open);
    }
    if !Mirrors(b) {
      var id :| Orphan(b, id);
      var open := OrphanMayBeLoaded(b, id);
      assert !Restores(b, open);
    }
  }

  // ----- runs with restarts -----

  // Besides orders that are filled a run may start and end sessions.
  datatype Act = Deal(order: Order) | Switch(session: Option<nat>, loaded: map<string, Holding>)

  ghost predicate PositiveRows(b: Book) {
    b.db.Some? ==> forall id :: IsOpenRow(b.db.value, id) ==> b.db.value.rows[id].qty > 0.0
  }

  ghost predicate Sound(b: Book) {
    Fits(b) && PositiveRows(b)
  }

  lemma OpenSound(b: Book, s: string, side: Side, price: real, qty: real, fees: real)
    requires Sound(b) && s !in b.open && qty > 0.0
    ensures Sound(OpenAt(b, s, side, price, qty, fees).0)
  {
    OpenFits(b, s, side, price, qty, fees);
  }

  lemma AverageSound(b: Book, s: string, price: real, qty: real, fees: real)
    requires Sound(b) && s in b.open && qty > 0.0
    ensures Sound(AverageAt(b, s, price, qty, fees).0)
  {
    AverageFits(b, s, price, qty, fees);
  }

  lemma ReduceSound(b: Book, s: string, qty: real, price: real, fees: real)
    requires Sound(b) && s in b.open && 0.0 < qty < b.open[s].qty
    ensures Sound(ReduceAt(b, s, qty, price, fees).0)
  {
    ReduceFits(b, s, qty, price, fees);
    if b.db.Some? {
      PartialCloseRows(b.db.value, b.open[s].id, b.nextId, qty, price, fees);
    }
  }

  lemma FlipSound(b: Book, o: Order, price: real, fees: real)
    requires Sound(b) && o.symbol in b.open
    ensures Sound(Flip(b, o, price, fees).0)
  {
    CloseFits(b, o.symbol, price, fees);
    var (b1, ok) := CloseAt(b, o.symbol, price, fees);
    var surplus := TotalQty(o.fills) - b.open[o.symbol].qty;
    assert PositiveRows(b1);
    if ok && surplus > 0.0 {
      OpenSound(b1, o.symbol, Adds(o.side), price, surplus, fees);
    }
  }

  // An order keeps rows and positions positive, and in agreement as far as rows are there,
  // whether or not its call fails.
  lemma OrderSound(b: Book, o: Order, feeRate: real)
    requires Sound(b) && ValidFills(o.fills)
    ensures Sound(OnOrderFilled(b, o, feeRate).0)
  {
    TotalQtyPositive(o.fills);
    var s, qty := o.symbol, TotalQty(o.fills);
    var price, fees := TotalValue(o.fills) / qty, TotalFees(o.fills, feeRate);
    if s !in b.open {
      OpenSound(b, s, Adds(o.side), price, qty, fees);
    } else if Averages(b, o) {
      AverageSound(b, s, price, qty, fees);
    } else if Reduces(b, o) {
      ReduceSound(b, s, qty, price, fees);
    } else {
      FlipSound(b, o, price, fees);
    }
  }

  // Whatever is loaded agrees with its rows.
  lemma LoadedAgrees(b: Book, session: Option<nat>, loaded: map<string, Holding>)
    requires Sound(b) && (b.db.Some? ==> Loads(b.db.value, session, loaded)) && (b.db.None? ==> loaded == map[])
    ensures Agrees(b.(session := session, open := loaded))
  {
    var b1 := b.(session := session, open := loaded);
    forall s | s in loaded
      ensures loaded[s].qty > 0.0 && loaded[s].id < b.nextId && RowAgrees(b1, s)
      ensures b.db.Some? && loaded[s].id in b.db.value.rows && b.db.value.rows[loaded[s].id].symbol == s
    {
      assert LoadedAs(b.db.value, session, s, loaded[s]);
    }
  }

  lemma SwitchSound(b: Book, session: Option<nat>, loaded: map<string, Holding>)
    requires Sound(b) && Loadable(b, session, loaded)
    ensures var b1 := Switched(b, session, loaded);
      && Sound(b1)
      && (session.None? || b.db.None? || Exec(b.db.value).0 ==> Agrees(b1))
      && (Agrees(b) ==> Agrees(b1))
  {
    var b1 := Switched(b, session, loaded);
    if session.Some? && b.db.Some? {
      var (up, d) := Exec(b.db.value);
      var executed := b.(db := Some(d));
      assert Sound(executed);
      if up {
        LoadedAgrees(executed, session, loaded);
      } else {
        assert forall s :: s in b1.open ==> RowFits(b, s) && (Agrees(b) ==> RowAgrees(b, s));
      }
    }
  }

  // What can be loaded is loaded.
  ghost predicate Possible(db: Option<seq<bool>>, acts: seq<Act>, feeRate: real)
    decreases |acts|, 0
  {
    if acts == [] then true
    else
      var n := |acts| - 1;
      && Possible(db, acts[..n], feeRate)
      && match acts[n]
         case Deal(o) => ValidFills(o.fills)
         case Switch(session, loaded) => Loadable(After(db, acts[..n], feeRate).0, session, loaded)
  }

  // The book after a run that starts without a session, and whether no call has failed since
  // positions were last loaded. An order without a session is refused and changes nothing.
  ghost function After(db: Option<seq<bool>>, acts: seq<Act>, feeRate: real): (r: (Book, bool))
    requires Possible(db, acts, feeRate)
    ensures Sound(r.0) && (r.1 ==> Agrees(r.0))
    decreases |acts|, 1
  {
    if acts == [] then (Empty(db).(session := None), true)
    else
      var n := |acts| - 1;
      var (b, agrees) := After(db, acts[..n], feeRate);
      match acts[n]
      case Deal(o) =>
        if b.session.None? then (b, agrees)
        else
          OrderSound(b, o, feeRate);
          DealAgrees(b, o, feeRate, agrees);
          var (b1, ok) := OnOrderFilled(b, o, feeRate);
          (b1, agrees && ok)
      case Switch(session, loaded) =>
        SwitchSound(b, session, loaded);
        var loads := session.None? || b.db.None? || Exec(b.db.value).0;
        (Switched(b, session, loaded), loads || agrees)
  }

  lemma DealAgrees(b: Book, o: Order, feeRate: real, agrees: bool)
    requires Sound(b) && ValidFills(o.fills) && (agrees ==> Agrees(b))
    ensures var (b1, ok) := OnOrderFilled(b, o, feeRate);
      agrees && ok ==> Agrees(b1)
  {
    if agrees && b.db.None? && Reduces(b, o) {
      WithoutDatabase(b, o, feeRate);
    } else if agrees {
      FillLaw(b, o, feeRate, "");
    }
  }
}
