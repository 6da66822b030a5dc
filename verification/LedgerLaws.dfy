/** What the ledger keeps over whole runs of filled orders. */
module LedgerLaws {
  import opened Arithmetic
  import opened Options
  import opened Ledger

  // ----- invariant: memory and rows agree -----

  predicate Matches(row: Row, symbol: string, h: Holding) {
    row.symbol == symbol && row.side == h.side && row.entry == h.entry && row.qty == h.qty
  }

  predicate RowAgrees(b: Book, s: string)
    requires s in b.open
  {
    var h := b.open[s];
    b.db.Some? ==> (IsOpenRow(b.db.value, h.id) && Matches(b.db.value.rows[h.id], s, h))
  }

  ghost predicate Agrees(b: Book) {
    && PositiveHoldings(b)
    && (forall s :: s in b.open ==> b.open[s].id < b.nextId && RowAgrees(b, s))
    && (forall s, t :: s in b.open && t in b.open && s != t ==> b.open[s].id != b.open[t].id)
    && (b.db.Some? ==> forall id :: id in b.db.value.rows ==> id < b.nextId)
  }

  // The row of a position may be missing, but if it is there it agrees.
  predicate RowFits(b: Book, s: string)
    requires s in b.open
  {
    b.db.Some? && b.open[s].id in b.db.value.rows ==> RowAgrees(b, s)
  }

  // What is left of this when statements fail.
  ghost predicate Fits(b: Book) {
    && PositiveHoldings(b)
    && (forall s :: s in b.open ==> b.open[s].id < b.nextId && RowFits(b, s))
    && (forall s, t :: s in b.open && t in b.open && s != t ==> b.open[s].id != b.open[t].id)
    && (b.db.Some? ==> forall id :: id in b.db.value.rows ==> id < b.nextId)
  }

  // ----- what a book is worth -----

  function GrossRealised(rs: seq<Realisation>, symbol: string): real {
    if rs == [] then 0.0
    else
      var last := rs[|rs| - 1];
      GrossRealised(rs[..|rs| - 1], symbol) + if last.symbol == symbol then last.pnl + last.fees else 0.0
  }

  // Realised profit with the exit fees added back, plus the open position at `price`.
  function Worth(b: Book, symbol: string, price: real): real {
    GrossRealised(b.realised, symbol) + if symbol in b.open then Unrealised(b.open[symbol], price) else 0.0
  }

  function Signed(side: Side, qty: real): real {
    if side == Long then qty else -qty
  }

  function Net(b: Book, symbol: string): real {
    if symbol in b.open then Signed(b.open[symbol].side, b.open[symbol].qty) else 0.0
  }

  // What `symbol` has earned in cash so far, had every unit been paid for at its price.
  function Cash(b: Book, symbol: string): real {
    GrossRealised(b.realised, symbol)
    - if symbol in b.open then Paid(b.open[symbol].side, b.open[symbol].qty, b.open[symbol].entry) else 0.0
  }

  function Valued(cash: real, net: real, price: real): real {
    cash + net * price
  }

  // Marking to market is linear in the price.
  lemma WorthIsLinear(b: Book, symbol: string, price: real)
    ensures Worth(b, symbol, price) == Valued(Cash(b, symbol), Net(b, symbol), price)
  {}

  // As far as `t` can tell, `b1` is `b` after trading `qty` of `symbol` at `price` on `side`.
  predicate Traded(b: Book, b1: Book, symbol: string, side: Side, qty: real, price: real, t: string) {
    && Net(b1, t) == Net(b, t) + (if t == symbol then Signed(side, qty) else 0.0)
    && Cash(b1, t) == Cash(b, t) - if t == symbol then Paid(side, qty, price) else 0.0
  }

  function Paid(side: Side, qty: real, price: real): real {
    Signed(side, qty) * price
  }

  lemma PaidTwice(side: Side, q1: real, q2: real, price: real)
    ensures Paid(side, q1 + q2, price) == Paid(side, q1, price) + Paid(side, q2, price)
  {}

  lemma GrossIsPaid(side: Side, entry: real, price: real, qty: real)
    ensures Gross(side, entry, price, qty) == Paid(side, qty, price) - Paid(side, qty, entry)
  {}

  lemma GrossRealisedAppend(rs: seq<Realisation>, r: Realisation, symbol: string)
    ensures GrossRealised(rs + [r], symbol) ==
      GrossRealised(rs, symbol) + if r.symbol == symbol then r.pnl + r.fees else 0.0
  {
    assert (rs + [r])[..|rs|] == rs;
  }

  // ----- one operation -----

  // Partial closing either shrinks the row and inserts one below it, or leaves the row alone.
  lemma PartialCloseRows(d: Db, id: nat, newId: nat, qty: real, exitPrice: real, fees: real)
    requires id != newId
    ensures var (pnl, d1) := PartialClose(d, id, newId, qty, exitPrice, fees);
      && d1.rows.Keys <= d.rows.Keys + {newId}
      && (forall k :: k in d.rows && k != id ==> d1.rows[k] == d.rows[k])
      && (id in d.rows ==> d1.rows[id].(qty := d.rows[id].qty) == d.rows[id])
      && (id in d.rows && pnl.None? ==> d1.rows[id] == d.rows[id])
      && (pnl.Some? ==> id in d.rows && d1.rows[id].qty == d.rows[id].qty - qty)
      && (pnl.Some? ==> pnl.value == Gross(d.rows[id].side, d.rows[id].entry, exitPrice, qty) - fees)
      && (newId in d1.rows && newId !in d.rows ==>
            id in d.rows && d1.rows[newId] == d.rows[id].(qty := qty, fees := 0.0, unrealized := None))
  {}

  lemma AgreeingFits(b: Book)
    requires Agrees(b)
    ensures Fits(b)
  {
    assert forall s :: s in b.open ==> RowAgrees(b, s);
  }

  lemma OpenAgrees(b: Book, s: string, side: Side, price: real, qty: real, fees: real)
    requires Agrees(b) && s !in b.open && qty > 0.0
    ensures var (b1, ok) := OpenAt(b, s, side, price, qty, fees); Agrees(b1) <==> ok
  {
    var (b1, ok) := OpenAt(b, s, side, price, qty, fees);
    if !ok {
      assert !RowAgrees(b1, s);
    }
  }

  lemma CloseAgrees(b: Book, s: string, price: real, fees: real)
    requires Agrees(b) && s in b.open
    ensures Agrees(CloseAt(b, s, price, fees).0)
  {
    var b1 := CloseAt(b, s, price, fees).0;
    forall u | u in b1.open
      ensures RowAgrees(b1, u)
    {
      assert RowAgrees(b, u) && b.open[u].id != b.open[s].id;
    }
  }

  lemma ReduceAgrees(b: Book, s: string, qty: real, price: real, fees: real)
    requires Agrees(b) && b.db.Some? && s in b.open && qty < b.open[s].qty
    ensures Agrees(ReduceAt(b, s, qty, price, fees).0)
  {
    var b1 := ReduceAt(b, s, qty, price, fees).0;
    PartialCloseRows(b.db.value, b.open[s].id, b.nextId, qty, price, fees);
    forall u | u in b1.open
      ensures RowAgrees(b1, u)
    {
      assert RowAgrees(b, u) && (u != s ==> b.open[u].id != b.open[s].id);
    }
  }

  lemma AverageAgrees(b: Book, s: string, price: real, qty: real, fees: real)
    requires Agrees(b) && s in b.open && 0.0 < qty
    ensures Agrees(AverageAt(b, s, price, qty, fees).0)
  {
    var b1 := AverageAt(b, s, price, qty, fees).0;
    forall u | u in b1.open
      ensures RowAgrees(b1, u)
    {
      assert RowAgrees(b, u) && (u != s ==> b.open[u].id != b.open[s].id);
    }
  }

  lemma OpenFits(b: Book, s: string, side: Side, price: real, qty: real, fees: real)
    requires Fits(b) && s !in b.open && qty > 0.0
    ensures Fits(OpenAt(b, s, side, price, qty, fees).0)
  {
    var b1 := OpenAt(b, s, side, price, qty, fees).0;
    forall u | u in b1.open
      ensures RowFits(b1, u)
    {
      assert u != s ==> RowFits(b, u) && b.open[u].id < b.nextId;
    }
  }

  lemma CloseFits(b: Book, s: string, price: real, fees: real)
    requires Fits(b) && s in b.open
    ensures Fits(CloseAt(b, s, price, fees).0)
  {
    var b1 := CloseAt(b, s, price, fees).0;
    forall u | u in b1.open
      ensures RowFits(b1, u)
    {
      assert RowFits(b, u) && b.open[u].id != b.open[s].id;
    }
  }

  lemma ReduceFits(b: Book, s: string, qty: real, price: real, fees: real)
    requires Fits(b) && s in b.open && qty < b.open[s].qty
    ensures Fits(ReduceAt(b, s, qty, price, fees).0)
  {
    if b.db.Some? {
      var b1 := ReduceAt(b, s, qty, price, fees).0;
      PartialCloseRows(b.db.value, b.open[s].id, b.nextId, qty, price, fees);
      forall u | u in b1.open
        ensures RowFits(b1, u)
      {
        assert RowFits(b, u) && (u != s ==> b.open[u].id != b.open[s].id);
      }
    }
  }

  lemma AverageFits(b: Book, s: string, price: real, qty: real, fees: real)
    requires Fits(b) && s in b.open && qty > 0.0
    ensures Fits(AverageAt(b, s, price, qty, fees).0)
  {
    var b1 := AverageAt(b, s, price, qty, fees).0;
    forall u | u in b1.open
      ensures RowFits(b1, u)
    {
      assert RowFits(b, u) && (u != s ==> b.open[u].id != b.open[s].id);
    }
  }

  function Opposite(side: Side): Side {
    if side == Long then Short else Long
  }

  lemma CloseTrades(b: Book, s: string, price: real, fees: real, t: string)
    requires s in b.open
    ensures var (b1, ok) := CloseAt(b, s, price, fees);
      ok ==> Traded(b, b1, s, Opposite(b.open[s].side), b.open[s].qty, price, t)
  {
    var h := b.open[s];
    var (b1, ok) := CloseAt(b, s, price, fees);
    if ok {
      var r := Realisation(s, Unrealised(h, price) - fees, fees);
      assert b1.realised == b.realised + [r];
      GrossRealisedAppend(b.realised, r, t);
      GrossIsPaid(h.side, h.entry, price, h.qty);
    }
  }

  // What a partial close that works does to the position and the log.
  lemma ReduceDone(b: Book, s: string, qty: real, price: real, fees: real)
    requires Fits(b) && b.db.Some? && s in b.open && ReduceAt(b, s, qty, price, fees).1
    ensures var h, b1 := b.open[s], ReduceAt(b, s, qty, price, fees).0;
      && b1.open == b.open[s := h.(qty := h.qty - qty, fees := h.fees + fees)]
      && b1.realised == b.realised + [Realisation(s, Gross(h.side, h.entry, price, qty) - fees, fees)]
  {
    PartialCloseRows(b.db.value, b.open[s].id, b.nextId, qty, price, fees);
    assert RowFits(b, s);
  }

  lemma ReduceTrades(b: Book, s: string, qty: real, price: real, fees: real, t: string)
    requires Fits(b) && b.db.Some? && s in b.open
    ensures var (b1, ok) := ReduceAt(b, s, qty, price, fees);
      ok ==> Traded(b, b1, s, Opposite(b.open[s].side), qty, price, t)
  {
    if ReduceAt(b, s, qty, price, fees).1 {
      ReduceDone(b, s, qty, price, fees);
      ShrunkTrades(b, ReduceAt(b, s, qty, price, fees).0, s, qty, price, fees, t);
    }
  }

  // A position that has shrunk, with the profit on the rest logged, has traded the rest.
  lemma ShrunkTrades(b: Book, b1: Book, s: string, qty: real, price: real, fees: real, t: string)
    requires s in b.open
    requires var h := b.open[s];
      && b1.open == b.open[s := h.(qty := h.qty - qty, fees := h.fees + fees)]
      && b1.realised == b.realised + [Realisation(s, Gross(h.side, h.entry, price, qty) - fees, fees)]
    ensures Traded(b, b1, s, Opposite(b.open[s].side), qty, price, t)
  {
    var h := b.open[s];
    GrossRealisedAppend(b.realised, Realisation(s, Gross(h.side, h.entry, price, qty) - fees, fees), t);
    GrossIsPaid(h.side, h.entry, price, qty);
    PaidTwice(h.side, h.qty - qty, qty, h.entry);
    OppositePays(h.side, qty, price);
  }

  lemma OppositePays(side: Side, qty: real, price: real)
    ensures Paid(Opposite(side), qty, price) == -Paid(side, qty, price)
  {}

  lemma OpenTrades(b: Book, s: string, side: Side, price: real, qty: real, fees: real, t: string)
    requires s !in b.open
    ensures Traded(b, OpenAt(b, s, side, price, qty, fees).0, s, side, qty, price, t)
  {}

  lemma TradedTwice(b: Book, b1: Book, b2: Book, s: string, side: Side, q1: real, q2: real, price: real, t: string)
    requires Traded(b, b1, s, side, q1, price, t) && Traded(b1, b2, s, side, q2, price, t)
    ensures Traded(b, b2, s, side, q1 + q2, price, t)
  {
    PaidTwice(side, q1, q2, price);
  }

  lemma AveragePriceTimes(entry: real, held: real, price: real, qty: real)
    requires held + qty != 0.0
    ensures AveragePrice(entry, held, price, qty) * (held + qty) == entry * held + price * qty
  {}

  lemma AverageTrades(b: Book, s: string, price: real, qty: real, fees: real, t: string)
    requires s in b.open && b.open[s].qty + qty != 0.0
    ensures var (b1, ok) := AverageAt(b, s, price, qty, fees);
      ok ==> Traded(b, b1, s, b.open[s].side, qty, price, t)
  {
    var h := b.open[s];
    AveragePriceTimes(h.entry, h.qty, price, qty);
  }

  // ----- the prices of fills -----

  predicate Within(prices: seq<real>, lo: real, hi: real) {
    forall i :: 0 <= i < |prices| ==> lo <= prices[i] <= hi
  }

  function PricesOf(fills: seq<Fill>): seq<real> {
    seq(|fills|, i requires 0 <= i < |fills| => fills[i].price)
  }

  lemma {:induction false} ValueWithin(fills: seq<Fill>, lo: real, hi: real)
    requires Within(PricesOf(fills), lo, hi) && (forall i :: 0 <= i < |fills| ==> fills[i].quantity > 0.0)
    ensures Times(lo, TotalQty(fills)) <= TotalValue(fills) <= Times(hi, TotalQty(fills))
  {
    var n := |fills| - 1;
    if n >= 0 {
      var init, q, v := fills[..n], fills[n].quantity, fills[n].price;
      assert PricesOf(init) == PricesOf(fills)[..n] && PricesOf(fills)[n] == v;
      ValueWithin(init, lo, hi);
      TimesSum(lo, TotalQty(init), q);
      TimesSum(hi, TotalQty(init), q);
      TimesMonotone(lo, v, q);
      TimesMonotone(v, hi, q);
    }
  }
}
