/** Marking the open positions to their prices, one after the other. */
module LedgerMarks {
  import opened Options
  import opened Ledger

  // The positions in `order` are marked, as far as their prices are known.
  function MarkAll(b: Book, order: seq<string>, prices: map<string, real>): Book {
    if order == [] then b
    else
      var s, b1 := order[|order| - 1], MarkAll(b, order[..|order| - 1], prices);
      if s in b1.open && s in prices then MarkAt(b1, s, prices[s]).0 else b1
  }

  predicate Distinct(order: seq<string>) {
    forall i, j :: 0 <= i < j < |order| ==> order[i] != order[j]
  }

  // Every row can be read and written, and each open position has one of its own.
  ghost predicate RowsReachable(b: Book) {
    b.db.Some? ==>
      && AllUp(b.db.value.outcomes)
      && (forall s :: s in b.open ==> IsOpenRow(b.db.value, b.open[s].id))
      && (forall s, t :: s in b.open && t in b.open && s != t ==> b.open[s].id != b.open[t].id)
  }

  // The mark says what the quantity has gained since it was entered, up to `price`.
  predicate IsAt(side: Side, entry: real, qty: real, mark: Option<real>, price: real) {
    match side
    case Long => mark == Some((price - entry) * qty)
    case Short => mark == Some((entry - price) * qty)
  }

  // A position is marked at its price; it keeps its mark if it has no price, or its row failed.
  predicate Settled(before: Holding, after: Holding, symbol: string, prices: map<string, real>, reachable: bool) {
    || (symbol in prices && IsAt(before.side, before.entry, before.qty, after.unrealized, prices[symbol])
        && after == before.(unrealized := after.unrealized))
    || (!(symbol in prices && reachable) && after == before)
  }

  predicate IsMarked(rows: map<nat, Row>, id: nat, price: real) {
    id in rows && IsAt(rows[id].side, rows[id].entry, rows[id].qty, rows[id].unrealized, price)
  }

  // Only marks have changed, and of the rows only that of `id` if there is one.
  ghost predicate OnlyMarks(b: Book, b1: Book) {
    && b1.open.Keys == b.open.Keys && b1.(open := b.open, db := b.db) == b && (b1.db.Some? <==> b.db.Some?)
    && (forall s :: s in b.open ==> b1.open[s].(unrealized := b.open[s].unrealized) == b.open[s])
    && (b.db.Some? ==> SameButMarks(b.db.value.rows, b1.db.value.rows))
  }

  ghost predicate SameButMarks(before: map<nat, Row>, after: map<nat, Row>) {
    && after.Keys == before.Keys
    && forall id :: id in before ==> after[id].(unrealized := before[id].unrealized) == before[id]
  }

  // Marking one row.
  lemma MarkRows(d: Db, id: nat, price: real)
    ensures var (ok, d1) := Mark(d, id, price);
      && SameButMarks(d.rows, d1.rows)
      && (forall k :: k in d.rows && k != id ==> d1.rows[k] == d.rows[k])
      && (ok ==> IsMarked(d1.rows, id, price))
      && (AllUp(d.outcomes) ==> AllUp(d1.outcomes) && (IsOpenRow(d, id) ==> ok))
  {
    if id in d.rows {
      GrossIsAt(d.rows[id].side, d.rows[id].entry, d.rows[id].qty, price);
    }
  }

  lemma GrossIsAt(side: Side, entry: real, qty: real, price: real)
    ensures IsAt(side, entry, qty, Some(Gross(side, entry, price, qty)), price)
  {}

  lemma MarkSettles(b: Book, s: string, prices: map<string, real>)
    requires s in b.open && s in prices
    ensures var b1 := MarkAt(b, s, prices[s]).0;
      && OnlyMarks(b, b1)
      && Settled(b.open[s], b1.open[s], s, prices, RowsReachable(b))
      && (forall t :: t in b.open && t != s ==> b1.open[t] == b.open[t])
      && (b.db.Some? ==> forall id :: id in b.db.value.rows && id != b.open[s].id ==>
            b1.db.value.rows[id] == b.db.value.rows[id])
      && (b.db.Some? && RowsReachable(b) ==> IsMarked(b1.db.value.rows, b.open[s].id, prices[s]))
      && (b.db.Some? && RowsReachable(b) ==> AllUp(b1.db.value.outcomes))
  {
    GrossIsAt(b.open[s].side, b.open[s].entry, b.open[s].qty, prices[s]);
    if b.db.Some? {
      MarkRows(b.db.value, b.open[s].id, prices[s]);
      assert RowsReachable(b) ==> IsOpenRow(b.db.value, b.open[s].id);
    }
  }

  lemma OnlyMarksTwice(b: Book, b1: Book, b2: Book)
    requires OnlyMarks(b, b1) && OnlyMarks(b1, b2)
    ensures OnlyMarks(b, b2)
  {
    forall s | s in b.open
      ensures b2.open[s].(unrealized := b.open[s].unrealized) == b.open[s]
    {
      assert b1.open[s].(unrealized := b.open[s].unrealized) == b.open[s];
    }
    forall id | b.db.Some? && id in b.db.value.rows
      ensures b2.db.value.rows[id].(unrealized := b.db.value.rows[id].unrealized) == b.db.value.rows[id]
    {
      assert b1.db.value.rows[id].(unrealized := b.db.value.rows[id].unrealized) == b.db.value.rows[id];
    }
  }

  lemma StillReachable(b: Book, b1: Book)
    requires RowsReachable(b) && OnlyMarks(b, b1) && (b.db.Some? ==> AllUp(b1.db.value.outcomes))
    ensures RowsReachable(b1)
  {
    if b.db.Some? {
      forall s | s in b1.open
        ensures b1.open[s].id == b.open[s].id && IsOpenRow(b1.db.value, b1.open[s].id)
      {
        assert IsOpenRow(b.db.value, b.open[s].id);
      }
    }
  }

  // How far marking has come when the positions in `done` have had their turn.
  ghost predicate SettledSoFar(b: Book, b1: Book, done: seq<string>, prices: map<string, real>) {
    && OnlyMarks(b, b1)
    && (forall s :: s in b.open ==>
          if s in done then Settled(b.open[s], b1.open[s], s, prices, RowsReachable(b)) else b1.open[s] == b.open[s])
  }

  ghost predicate RowsMarked(b: Book, b1: Book, done: seq<string>, prices: map<string, real>) {
    b.db.Some? && b1.db.Some? && RowsReachable(b) ==>
      forall s :: s in b.open && s in done && s in prices ==>
        IsMarked(b1.db.value.rows, b.open[s].id, prices[s])
  }

  lemma OneMoreSettles(b: Book, b1: Book, done: seq<string>, s: string, prices: map<string, real>)
    requires SettledSoFar(b, b1, done, prices) && s in b.open && s in prices && s !in done
    requires RowsReachable(b) ==> RowsReachable(b1)
    ensures SettledSoFar(b, MarkAt(b1, s, prices[s]).0, done + [s], prices)
    ensures RowsReachable(b) ==> RowsReachable(MarkAt(b1, s, prices[s]).0)
  {
    var b2 := MarkAt(b1, s, prices[s]).0;
    MarkSettles(b1, s, prices);
    OnlyMarksTwice(b, b1, b2);
    if RowsReachable(b) {
      StillReachable(b1, b2);
    }
    assert b1.open[s] == b.open[s];
  }

  lemma OneMoreRowMarked(b: Book, b1: Book, done: seq<string>, s: string, prices: map<string, real>)
    requires SettledSoFar(b, b1, done, prices) && RowsMarked(b, b1, done, prices)
    requires s in b.open && s in prices && s !in done && (RowsReachable(b) ==> RowsReachable(b1))
    ensures RowsMarked(b, MarkAt(b1, s, prices[s]).0, done + [s], prices)
  {
    MarkSettles(b1, s, prices);
    assert b1.open[s] == b.open[s];
    if b.db.Some? && RowsReachable(b) {
      var b2 := MarkAt(b1, s, prices[s]).0;
      forall t | t in b.open && t in done + [s] && t in prices
        ensures IsMarked(b2.db.value.rows, b.open[t].id, prices[t])
      {
        assert t != s ==> t in done && b.open[t].id != b.open[s].id;
      }
    }
  }

  // However the positions are ordered, each is marked at its price if its row can be reached, and
  // then its row is as well; nothing but marks changes.
  lemma {:induction false} AllSettle(b: Book, order: seq<string>, prices: map<string, real>)
    requires Distinct(order)
    ensures SettledSoFar(b, MarkAll(b, order, prices), order, prices)
    ensures RowsMarked(b, MarkAll(b, order, prices), order, prices)
    ensures RowsReachable(b) ==> RowsReachable(MarkAll(b, order, prices))
  {
    if order != [] {
      var n := |order| - 1;
      var done, s, b1 := order[..n], order[n], MarkAll(b, order[..n], prices);
      AllSettle(b, done, prices);
      assert order == done + [s] && s !in done;
      if s in b.open && s in prices {
        OneMoreSettles(b, b1, done, s, prices);
        OneMoreRowMarked(b, b1, done, s, prices);
      }
    }
  }

  // ----- marks and fills -----

  // What a position shows for `t` in memory: its mark, if it is the same position as before, and
  // none if it is new.
  predicate MarkKept(b: Book, b1: Book, t: string) {
    t in b1.open ==>
      b1.open[t].unrealized == if t in b.open && b.open[t].id == b1.open[t].id then b.open[t].unrealized else None
  }

  // The same of the open rows.
  predicate RowMarkKept(b: Book, b1: Book, id: nat)
    requires b.db.Some? && b1.db.Some?
  {
    IsOpenRow(b1.db.value, id) ==>
      b1.db.value.rows[id].unrealized == if id in b.db.value.rows then b.db.value.rows[id].unrealized else None
  }

  lemma FlipKeepsMarks(b: Book, o: Order, price: real, fees: real, t: string)
    requires o.symbol in b.open && forall s :: s in b.open ==> b.open[s].id < b.nextId
    ensures MarkKept(b, Flip(b, o, price, fees).0, t)
  {}

  // Filling an order leaves the marks alone; a new position has none.
  lemma FillsKeepMarks(b: Book, o: Order, feeRate: real, t: string)
    requires PositiveHoldings(b) && ValidFills(o.fills) && forall s :: s in b.open ==> b.open[s].id < b.nextId
    ensures MarkKept(b, OnOrderFilled(b, o, feeRate).0, t)
  {
    TotalQtyPositive(o.fills);
    if o.symbol in b.open && !Averages(b, o) && !Reduces(b, o) {
      FlipKeepsMarks(b, o, TotalValue(o.fills) / TotalQty(o.fills), TotalFees(o.fills, feeRate), t);
    }
  }

  lemma FlipKeepsRowMarks(b: Book, o: Order, price: real, fees: real, id: nat)
    requires b.db.Some? && o.symbol in b.open
    ensures var b1 := Flip(b, o, price, fees).0; b1.db.Some? && RowMarkKept(b, b1, id)
  {
    var b1 := CloseAt(b, o.symbol, price, fees).0;
    assert RowMarkKept(b, b1, id);
  }

  lemma FillsKeepRowMarks(b: Book, o: Order, feeRate: real, id: nat)
    requires PositiveHoldings(b) && ValidFills(o.fills) && b.db.Some?
    ensures var b1 := OnOrderFilled(b, o, feeRate).0; b1.db.Some? && RowMarkKept(b, b1, id)
  {
    TotalQtyPositive(o.fills);
    if o.symbol in b.open && !Averages(b, o) && !Reduces(b, o) {
      FlipKeepsRowMarks(b, o, TotalValue(o.fills) / TotalQty(o.fills), TotalFees(o.fills, feeRate), id);
    }
  }
}
