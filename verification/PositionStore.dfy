/** The `positions` table and the functions that run statements against it. */
module PositionStore {
  import opened Options
  import opened Ledger

  class DB {
    var rows: map<nat, Row>
    var outcomes: seq<bool>  // what will become of the statements still to come

    ghost function State(): Db
      reads this
    {
      Db(rows, outcomes)
    }

    constructor (outcomes: seq<bool>)
      ensures State() == Db(map[], outcomes)
    {
      this.rows := map[];
      this.outcomes := outcomes;
    }

    method RunStatement() returns (up: bool)
      modifies this
      ensures (up, State()) == Exec(old(State()))
    {
      up := true;
      if outcomes != [] {
        up := outcomes[0];
        outcomes := outcomes[1..];
      }
    }

    // The open rows of a session, the latest first.
    method GetOpenPositions(session: Option<nat>) returns (up: bool, positions: seq<Listed>)
      modifies this
      ensures (up, State()) == Exec(old(State()))
      ensures forall p :: p in positions ==> LoadedFrom(State(), session, p)
      ensures LatestFirst(positions)
      ensures up ==> forall id :: OpenIn(State(), session, id) ==> ListedRow(id, rows[id]) in positions
    {
      positions := [];
      up := RunStatement();
      if !up {
        return;
      }
      ghost var d := State();
      var todo := rows.Keys;
      while todo != {}
        invariant State() == d && todo <= rows.Keys && LatestFirst(positions)
        invariant forall p :: p in positions ==> LoadedFrom(State(), session, p)
        invariant forall id :: OpenIn(State(), session, id) && id !in todo ==> ListedRow(id, rows[id]) in positions
      {
        var id :| id in todo;
        todo := todo - {id};
        if rows[id].exit.None? && rows[id].origin.session == session {
          positions := InsertByAge(positions, ListedRow(id, rows[id]));
        }
      }
    }

    method CreatePosition(id: nat, origin: Origin, symbol: string, side: Side, entry: real, qty: real)
      returns (ok: bool)
      modifies this
      ensures (ok, State()) == Create(old(State()), id, origin, symbol, side, entry, qty)
    {
      var up := RunStatement();
      ok := up && id !in rows;
      if ok {
        rows := rows[id := Row(origin, symbol, side, entry, qty, 0.0, None, None)];
      }
    }

    method ClosePosition(id: nat, exitPrice: real, fees: real) returns (ok: bool)
      modifies this
      ensures (ok, State()) == Close(old(State()), id, exitPrice, fees)
    {
      var found := RunStatement();
      if !found || id !in rows || rows[id].exit.Some? {
        return false;
      }
      var row := rows[id];
      var realizedPnL;
      if row.side == Long {
        realizedPnL := (exitPrice - row.entry) * row.qty;
      } else {
        realizedPnL := (row.entry - exitPrice) * row.qty;
      }
      assert realizedPnL == Gross(row.side, row.entry, exitPrice, row.qty);
      realizedPnL := realizedPnL - fees;
      ok := RunStatement();
      if ok {
        var exit := Some(Exit(exitPrice, realizedPnL));
        rows := rows[id := row.(exit := exit, unrealized := Some(0.0), fees := row.fees + fees)];
      }
    }

    method UpdatePositionQuantity(id: nat, newQuantity: real, additionalFees: real) returns (ok: bool)
      modifies this
      ensures (ok, State()) == SetQuantity(old(State()), id, newQuantity, additionalFees)
    {
      var up := RunStatement();
      ok := up && id in rows && rows[id].exit.None?;
      if ok {
        rows := rows[id := rows[id].(qty := newQuantity, fees := rows[id].fees + additionalFees)];
      }
    }

    method UpdatePositionAveraging(id: nat, newEntryPrice: real, newQuantity: real, additionalFees: real)
      returns (ok: bool)
      modifies this
      ensures (ok, State()) == SetAverage(old(State()), id, newEntryPrice, newQuantity, additionalFees)
    {
      var up := RunStatement();
      ok := up && id in rows && rows[id].exit.None?;
      if ok {
        var fees := rows[id].fees + additionalFees;
        rows := rows[id := rows[id].(entry := newEntryPrice, qty := newQuantity, fees := fees)];
      }
    }

    method PartialClosePosition(id: nat, newId: nat, closeQuantity: real, exitPrice: real, fees: real)
      returns (realizedPnL: Option<real>)
      modifies this
      ensures (realizedPnL, State()) == PartialClose(old(State()), id, newId, closeQuantity, exitPrice, fees)
    {
      var found := RunStatement();
      if !found || id !in rows || rows[id].exit.Some? || closeQuantity >= rows[id].qty {
        return None;
      }
      var row := rows[id];
      var pnl;
      if row.side == Long {
        pnl := (exitPrice - row.entry) * closeQuantity;
      } else {
        pnl := (row.entry - exitPrice) * closeQuantity;
      }
      assert pnl == Gross(row.side, row.entry, exitPrice, closeQuantity);
      pnl := pnl - fees;
      var created := CreatePosition(newId, row.origin, row.symbol, row.side, row.entry, closeQuantity);
      if !created {
        return None;
      }
      var updated := UpdatePositionQuantity(id, row.qty - closeQuantity, 0.0);
      realizedPnL := if updated then Some(pnl) else None;
    }

    method UpdateUnrealizedPnL(id: nat, currentPrice: real) returns (ok: bool)
      modifies this
      ensures (ok, State()) == Mark(old(State()), id, currentPrice)
    {
      var found := RunStatement();
      if !found || id !in rows || rows[id].exit.Some? {
        return false;
      }
      var row := rows[id];
      var unrealizedPnL;
      if row.side == Long {
        unrealizedPnL := (currentPrice - row.entry) * row.qty;
      } else {
        unrealizedPnL := (row.entry - currentPrice) * row.qty;
      }
      assert unrealizedPnL == Gross(row.side, row.entry, currentPrice, row.qty);
      ok := RunStatement();
      if ok {
        rows := rows[id := row.(unrealized := Some(unrealizedPnL))];
      }
    }
  }

  predicate LatestFirst(positions: seq<Listed>) {
    forall i, j :: 0 <= i < j < |positions| ==> positions[i].entered >= positions[j].entered
  }

  method InsertByAge(positions: seq<Listed>, p: Listed) returns (longer: seq<Listed>)
    requires LatestFirst(positions)
    ensures LatestFirst(longer)
    ensures forall x :: x in longer <==> x in positions || x == p
  {
    var k := 0;
    while k < |positions| && positions[k].entered > p.entered
      invariant 0 <= k <= |positions|
      invariant forall i :: 0 <= i < k ==> positions[i].entered > p.entered
    {
      k := k + 1;
    }
    longer := positions[..k] + [p] + positions[k..];
  }

  // The positions by symbol, later ones replacing those before.
  function Filed(positions: seq<Listed>): map<string, Holding> {
    if positions == [] then map[]
    else
      var n := |positions| - 1;
      Filed(positions[..n])[positions[n].symbol := positions[n].holding]
  }

  // Some position of the list has this symbol and value, and none of its symbol is older.
  ghost predicate HasOldest(positions: seq<Listed>, s: string, h: Holding) {
    exists k :: 0 <= k < |positions| && IsOldestAt(positions, k, s, h)
  }

  predicate IsOldestAt(positions: seq<Listed>, k: nat, s: string, h: Holding)
    requires k < |positions|
  {
    && positions[k].symbol == s && positions[k].holding == h
    && forall p :: p in positions && p.symbol == s ==> positions[k].entered <= p.entered
  }

  lemma OldestStays(init: seq<Listed>, last: Listed, s: string, h: Holding)
    requires HasOldest(init, s, h) && last.symbol != s
    ensures HasOldest(init + [last], s, h)
  {
    var k :| 0 <= k < |init| && IsOldestAt(init, k, s, h);
    assert IsOldestAt(init + [last], k, s, h);
  }

  lemma LastIsOldest(init: seq<Listed>, last: Listed)
    requires LatestFirst(init + [last])
    ensures HasOldest(init + [last], last.symbol, last.holding)
  {
    var all := init + [last];
    forall p | p in all
      ensures last.entered <= p.entered
    {
      var j :| 0 <= j < |all| && all[j] == p;
      assert all[|init|] == last;
    }
    assert IsOldestAt(all, |init|, last.symbol, last.holding);
  }

  // In a list with the latest first, what is filed in the end is the oldest of its symbol.
  lemma {:induction false} OldestIsFiled(positions: seq<Listed>)
    requires LatestFirst(positions)
    ensures forall p :: p in positions ==> p.symbol in Filed(positions)
    ensures forall s :: s in Filed(positions) ==> HasOldest(positions, s, Filed(positions)[s])
  {
    if positions != [] {
      var n := |positions| - 1;
      var init, last := positions[..n], positions[n];
      assert positions == init + [last];
      OldestIsFiled(init);
      forall s | s in Filed(positions)
        ensures HasOldest(positions, s, Filed(positions)[s])
      {
        if s == last.symbol {
          LastIsOldest(init, last);
        } else {
          OldestStays(init, last, s, Filed(init)[s]);
        }
      }
    }
  }

  // Filing a complete list of the open rows of a session is loading it.
  lemma FilingLoads(d: Db, session: Option<nat>, positions: seq<Listed>)
    requires LatestFirst(positions) && forall p :: p in positions ==> LoadedFrom(d, session, p)
    requires forall id :: OpenIn(d, session, id) ==> ListedRow(id, d.rows[id]) in positions
    ensures Loads(d, session, Filed(positions))
  {
    OldestIsFiled(positions);
    forall s | s in Filed(positions)
      ensures LoadedAs(d, session, s, Filed(positions)[s])
    {
      var h := Filed(positions)[s];
      assert HasOldest(positions, s, h);
      var k :| 0 <= k < |positions| && IsOldestAt(positions, k, s, h);
      OldestListed(d, session, positions, k, s, h);
      assert LoadedFrom(d, session, positions[k]) && positions[k] == Listed(s, positions[k].entered, h);
    }
  }

  lemma OldestListed(d: Db, session: Option<nat>, positions: seq<Listed>, k: nat, s: string, h: Holding)
    requires k < |positions| && IsOldestAt(positions, k, s, h)
    requires forall id :: OpenIn(d, session, id) ==> ListedRow(id, d.rows[id]) in positions
    ensures Oldest(d, session, positions[k])
  {
    forall id | OpenIn(d, session, id) && d.rows[id].symbol == s
      ensures positions[k].entered <= d.rows[id].origin.entered
    {
      assert ListedRow(id, d.rows[id]) in positions;
    }
  }
}
