/** The WebSocket hub: registration, broadcasts over bounded queues, eviction of slow clients. */
module Hub {
  import opened Options

  const CAPACITY := 256

  type ClientId = nat
  type Payload = seq<bv8>

  // What travels through a client's send channel: a broadcast, or the reply to a ping.
  datatype Item = News(payload: Payload) | Pong

  // A connection: how often its channel has been closed, what is queued in it, what the write
  // pump has taken out of it and how much of that it has written to frames, and whether the pump still runs.
  datatype Conn = Conn(closes: nat, queue: seq<Item>, taken: seq<Item>, written: nat, pumping: bool)

  const NEW_CONN := Conn(0, [], [], 0, true)

  function Push(c: Conn, item: Item): Conn {
    if |c.queue| < CAPACITY then c.(queue := c.queue + [item]) else c
  }

  // A broadcast reaches an open connection, or finds its queue full and closes it.
  function Deliver(c: Conn, payload: Payload): Conn {
    if |c.queue| < CAPACITY then Push(c, News(payload)) else c.(closes := c.closes + 1)
  }

  // A client stays registered if there is room for the broadcast in its queue.
  predicate Delivered(before: Conn, after: Conn, payload: Payload, registered: bool) {
    after == Deliver(before, payload) && (registered <==> |before.queue| < CAPACITY)
  }

  // How a turn of the write pump goes: it writes the item it takes, or fails to and stops, or
  // stops before it takes anything (a ping or the line feed between two items fails).
  datatype WriteResult = Written | Lost | Stopped

  // When there is nothing to take the pump waits, or stops if the channel is closed.
  function Receive(c: Conn, result: WriteResult): Conn {
    if !c.pumping then c
    else if result.Stopped? || (c.queue == [] && c.closes > 0) then c.(pumping := false)
    else if c.queue == [] then c
    else
      var next := c.(queue := c.queue[1..], taken := c.taken + [c.queue[0]]);
      if result.Written? then next.(written := c.written + 1) else next.(pumping := false)
  }

  // ----- the steps of a run -----

  datatype Op =
    | Register(id: ClientId)
    | Unregister(id: ClientId)
    | Broadcast(payload: Payload)
    | SendPong(id: ClientId)
    | Pump(id: ClientId, result: WriteResult)

  datatype State = State(clients: set<ClientId>, conns: map<ClientId, Conn>)

  function ConnOf(s: State, id: ClientId): Conn {
    if id in s.conns then s.conns[id] else NEW_CONN
  }

  function With(s: State, id: ClientId, c: Conn): State {
    s.(conns := s.conns[id := c])
  }

  // Closing a closed channel, or sending on one, panics.
  predicate Panics(s: State, op: Op) {
    match op
    case Unregister(id) => id in s.clients && ConnOf(s, id).closes > 0
    case Broadcast(_) => exists id :: id in s.clients && ConnOf(s, id).closes > 0
    case SendPong(id) => ConnOf(s, id).closes > 0
    case _ => false
  }

  function BroadcastTo(s: State, payload: Payload): State {
    State(set id | id in s.clients && |ConnOf(s, id).queue| < CAPACITY,
          map id | id in s.conns.Keys + s.clients ::
            if id in s.clients then Deliver(ConnOf(s, id), payload) else ConnOf(s, id))
  }

  function Step(s: State, op: Op): State {
    match op
    case Register(id) => With(s, id, ConnOf(s, id)).(clients := s.clients + {id})
    case Unregister(id) =>
      if id in s.clients
      then With(s, id, ConnOf(s, id).(closes := ConnOf(s, id).closes + 1)).(clients := s.clients - {id})
      else s
    case Broadcast(payload) => BroadcastTo(s, payload)
    case SendPong(id) => With(s, id, Push(ConnOf(s, id), Pong))
    case Pump(id, result) => With(s, id, Receive(ConnOf(s, id), result))
  }

  function Run(ops: seq<Op>): State {
    if ops == [] then State({}, map[]) else Step(Run(ops[..|ops| - 1]), ops[|ops| - 1])
  }

  // Some step of the run panics.
  predicate Panicked(ops: seq<Op>) {
    ops != []
    && var n := |ops| - 1;
       Panicked(ops[..n]) || Panics(Run(ops[..n]), ops[n])
  }

  predicate Registered(ops: seq<Op>, id: ClientId) {
    exists k :: 0 <= k < |ops| && ops[k] == Register(id)
  }

  ghost predicate RegistersOnce(ops: seq<Op>) {
    forall j, k :: 0 <= j < k < |ops| && ops[j].Register? && ops[k].Register? ==> ops[j].id != ops[k].id
  }

  // The broadcasts since `id` registered.
  function Since(ops: seq<Op>, id: ClientId): seq<Payload> {
    if ops == [] then []
    else
      var n := |ops| - 1;
      match ops[n]
      case Register(other) => if other == id then [] else Since(ops[..n], id)
      case Broadcast(payload) => if Registered(ops[..n], id) then Since(ops[..n], id) + [payload] else []
      case _ => Since(ops[..n], id)
  }

  // The broadcasts among the items, pongs left out.
  function NewsOf(items: seq<Item>): seq<Payload> {
    if items == [] then []
    else
      var n := |items| - 1;
      if items[n].News? then NewsOf(items[..n]) + [items[n].payload] else NewsOf(items[..n])
  }

  lemma {:induction false} NewsOfConcat(a: seq<Item>, b: seq<Item>)
    ensures NewsOf(a + b) == NewsOf(a) + NewsOf(b)
  {
    if b == [] {
      assert a + b == a;
    } else {
      assert (a + b)[..|a + b| - 1] == a + b[..|b| - 1];
      NewsOfConcat(a, b[..|b| - 1]);
    }
  }

  // Everything that has gone into the channel, in order.
  function Stream(c: Conn): seq<Item> {
    c.taken + c.queue
  }

  // ----- invariant -----

  // Where one client stands: never registered, registered, or removed.
  predicate Stands(c: Conn, active: bool, registered: bool, since: seq<Payload>) {
    && c.written <= |c.taken| && (c.pumping ==> c.written == |c.taken|) && |c.queue| <= CAPACITY
    && (active ==> registered && c.closes == 0 && NewsOf(Stream(c)) == since)
    && (registered && !active ==> c.closes == 1 && NewsOf(Stream(c)) <= since)
    && (!registered ==> c.closes == 0 && NewsOf(Stream(c)) == [])
  }

  lemma ReceiveKeepsStream(c: Conn, result: WriteResult)
    ensures Stream(Receive(c, result)) == Stream(c)
  {}

  lemma PushStream(c: Conn, item: Item)
    requires |c.queue| < CAPACITY
    ensures Stream(Push(c, item)) == Stream(c) + [item]
    ensures NewsOf(Stream(Push(c, item))) ==
      if item.News? then NewsOf(Stream(c)) + [item.payload] else NewsOf(Stream(c))
  {
    assert Stream(Push(c, item)) == Stream(c) + [item];
    assert (Stream(c) + [item])[..|Stream(c)|] == Stream(c);
  }

  lemma RegisteredStep(ops: seq<Op>, id: ClientId)
    requires ops != []
    ensures var n := |ops| - 1;
      Registered(ops, id) <==> Registered(ops[..n], id) || ops[n] == Register(id)
  {
    var n := |ops| - 1;
    if Registered(ops[..n], id) {
      var k :| 0 <= k < n && ops[..n][k] == Register(id);
      assert ops[k] == Register(id);
    }
  }

  lemma OnceStep(ops: seq<Op>, id: ClientId)
    requires RegistersOnce(ops) && ops != [] && ops[|ops| - 1] == Register(id)
    ensures !Registered(ops[..|ops| - 1], id)
  {
    var n := |ops| - 1;
    forall k | 0 <= k < n
      ensures ops[..n][k] != Register(id)
    {
      assert ops[k] == ops[..n][k] && (ops[k].Register? ==> ops[k].id != ops[n].id);
    }
  }

  lemma StandsAfterDelivery(c: Conn, payload: Payload, active: bool, registered: bool, since: seq<Payload>)
    requires Stands(c, active, registered, since) && active
    ensures Stands(Deliver(c, payload), |c.queue| < CAPACITY, registered, since + [payload])
  {
    if |c.queue| < CAPACITY {
      PushStream(c, News(payload));
    }
  }

  lemma StandsAfterPump(c: Conn, result: WriteResult, active: bool, registered: bool, since: seq<Payload>)
    requires Stands(c, active, registered, since)
    ensures Stands(Receive(c, result), active, registered, since)
  {
    ReceiveKeepsStream(c, result);
  }

  lemma StandsAfterPong(c: Conn, active: bool, registered: bool, since: seq<Payload>)
    requires Stands(c, active, registered, since)
    ensures Stands(Push(c, Pong), active, registered, since)
  {
    if |c.queue| < CAPACITY {
      PushStream(c, Pong);
    }
  }

  lemma StandsAfter(s: State, op: Op, id: ClientId, registered: bool, since: seq<Payload>, since': seq<Payload>)
    requires !Panics(s, op) && Stands(ConnOf(s, id), id in s.clients, registered, since)
    requires op == Register(id) ==> !registered && since' == []
    requires op.Broadcast? && registered ==> since' == since + [op.payload]
    requires op != Register(id) && !(op.Broadcast? && registered) ==> since' == since
    ensures var s' := Step(s, op);
      Stands(ConnOf(s', id), id in s'.clients, registered || op == Register(id), since')
  {
    var c, active := ConnOf(s, id), id in s.clients;
    match op {
      case Pump(other, result) => StandsAfterPump(c, result, active, registered, since);
      case SendPong(other) => StandsAfterPong(c, active, registered, since);
      case Broadcast(payload) =>
        if active {
          StandsAfterDelivery(c, payload, active, registered, since);
        }
      case _ =>
    }
  }

  lemma {:induction false} EveryClientStands(ops: seq<Op>, id: ClientId)
    requires RegistersOnce(ops) && !Panicked(ops)
    ensures Stands(ConnOf(Run(ops), id), id in Run(ops).clients, Registered(ops, id), Since(ops, id))
    ensures !Registered(ops, id) ==> Since(ops, id) == []
  {
    if ops != [] {
      var n := |ops| - 1;
      var init, op := ops[..n], ops[n];
      EveryClientStands(init, id);
      RegisteredStep(ops, id);
      if op == Register(id) {
        OnceStep(ops, id);
      }
      StandsAfter(Run(init), op, id, Registered(init, id), Since(init, id), Since(ops, id));
    }
  }

  // No gaps. In every run in which clients register once and nothing panics, what a registered
  // client has been sent is exactly the broadcasts since its registration, in order and each
  // once, and its channel is open. A removed client was sent a prefix of them, and its channel
  // has been closed exactly once. What was written to frames is a prefix of what was sent, and
  // all that was taken from the queue unless the pump has stopped.
  lemma NoGapDelivery(ops: seq<Op>, id: ClientId)
    requires RegistersOnce(ops) && !Panicked(ops) && Registered(ops, id)
    ensures
      var s, since := Run(ops), Since(ops, id);
      var c := ConnOf(s, id);
      && (id in s.clients ==> c.closes == 0 && NewsOf(c.taken) + NewsOf(c.queue) == since)
      && (id !in s.clients ==> c.closes == 1 && NewsOf(c.taken) + NewsOf(c.queue) <= since)
      && c.written <= |c.taken| && NewsOf(c.taken[..c.written]) <= since
      && (c.pumping ==> c.written == |c.taken|)
  {
    EveryClientStands(ops, id);
    SentIsPrefix(ConnOf(Run(ops), id), Since(ops, id), id in Run(ops).clients);
  }

  lemma SentIsPrefix(c: Conn, since: seq<Payload>, active: bool)
    requires Stands(c, active, true, since)
    ensures NewsOf(Stream(c)) == NewsOf(c.taken) + NewsOf(c.queue)
    ensures NewsOf(c.taken[..c.written]) <= since
  {
    NewsOfConcat(c.taken, c.queue);
    NewsOfConcat(c.taken[..c.written], c.taken[c.written..]);
    assert c.taken[..c.written] + c.taken[c.written..] == c.taken;
  }

  // A pong goes to the end of the queue of the client that pinged, if fewer than 256 items are
  // queued; otherwise it is dropped. Other clients are not concerned.
  lemma PongIsQueued(s: State, id: ClientId, other: ClientId)
    ensures
      var s' := Step(s, SendPong(id));
      && (|ConnOf(s, id).queue| < 256 ==>
            ConnOf(s', id) == ConnOf(s, id).(queue := ConnOf(s, id).queue + [Pong]))
      && (|ConnOf(s, id).queue| >= 256 ==> ConnOf(s', id) == ConnOf(s, id))
      && (other != id ==> ConnOf(s', other) == ConnOf(s, other)) && s'.clients == s.clients
  {}

  // A broadcast goes to the end of the queue of every registered client with fewer than 256 items
  // queued, evicts the others, and does not concern who is not registered.
  lemma BroadcastIsQueued(s: State, id: ClientId, payload: Payload)
    ensures
      var s' := Step(s, Broadcast(payload));
      && (id in s.clients && |ConnOf(s, id).queue| < 256 ==>
            id in s'.clients && ConnOf(s', id) == ConnOf(s, id).(queue := ConnOf(s, id).queue + [News(payload)]))
      && (id in s.clients && |ConnOf(s, id).queue| >= 256 ==>
            id !in s'.clients && ConnOf(s', id) == ConnOf(s, id).(closes := ConnOf(s, id).closes + 1))
      && (id !in s.clients ==> id !in s'.clients && ConnOf(s', id) == ConnOf(s, id))
  {}

  // As long as clients register once, the only step that can panic is the reply to a ping of a
  // client that has been removed, and that always does.
  lemma OnlyLatePongsPanic(ops: seq<Op>, op: Op)
    requires RegistersOnce(ops + [op]) && !Panicked(ops)
    ensures Panics(Run(ops), op) <==> op.SendPong? && Registered(ops, op.id) && op.id !in Run(ops).clients
  {
    assert forall k :: 0 <= k < |ops| ==> (ops + [op])[k] == ops[k];
    assert RegistersOnce(ops);
    forall id
      ensures Stands(ConnOf(Run(ops), id), id in Run(ops).clients, Registered(ops, id), Since(ops, id))
    {
      EveryClientStands(ops, id);
    }
  }

  // Registering again after having been removed brings the hub down with the next broadcast.
  lemma SecondRegistrationPanics(ops: seq<Op>, id: ClientId, payload: Payload)
    requires RegistersOnce(ops) && !Panicked(ops) && Registered(ops, id) && id !in Run(ops).clients
    ensures Panics(Run(ops + [Register(id)]), Broadcast(payload))
  {
    EveryClientStands(ops, id);
    assert (ops + [Register(id)])[..|ops|] == ops;
    assert id in Run(ops + [Register(id)]).clients;
  }

  // ----- a client that is too slow -----

  // A client registers, its pump does not get to run, and broadcasts follow.
  function Flood(id: ClientId, payloads: seq<Payload>): seq<Op> {
    if payloads == [] then [Register(id)]
    else
      var n := |payloads| - 1;
      Flood(id, payloads[..n]) + [Broadcast(payloads[n])]
  }

  lemma OneMoreStep(ops: seq<Op>, op: Op)
    ensures Run(ops + [op]) == Step(Run(ops), op)
    ensures Panicked(ops + [op]) <==> Panicked(ops) || Panics(Run(ops), op)
  {
    assert (ops + [op])[..|ops|] == ops;
  }

  lemma BroadcastToOne(s: State, id: ClientId, payload: Payload)
    requires s.clients == {id}
    ensures var c, s' := ConnOf(s, id), BroadcastTo(s, payload);
      && ConnOf(s', id) == Deliver(c, payload)
      && (|c.queue| < CAPACITY ==> s'.clients == {id})
  {}

  lemma {:induction false} FloodFillsQueue(id: ClientId, payloads: seq<Payload>)
    requires |payloads| <= CAPACITY
    ensures var ops := Flood(id, payloads);
      && !Panicked(ops) && Run(ops).clients == {id}
      && ConnOf(Run(ops), id).closes == 0 && |ConnOf(Run(ops), id).queue| == |payloads|
  {
    if payloads == [] {
      OneMoreStep([], Register(id));
      assert [] + [Register(id)] == [Register(id)];
    } else {
      var n := |payloads| - 1;
      var before := Flood(id, payloads[..n]);
      FloodFillsQueue(id, payloads[..n]);
      OneMoreStep(before, Broadcast(payloads[n]));
      BroadcastToOne(Run(before), id, payloads[n]);
      assert Flood(id, payloads) == before + [Broadcast(payloads[n])];
    }
  }

  // What the code can come to: a client pings while one broadcast more than its queue holds goes
  // out. Nothing has panicked so far, but that broadcast evicts the client and closes its
  // channel, and the reply to its ping panics.
  lemma LatePongHappens(id: ClientId, payloads: seq<Payload>)
    requires |payloads| == 257
    ensures !Panicked(Flood(id, payloads)) && Panics(Run(Flood(id, payloads)), SendPong(id))
  {
    var before := Flood(id, payloads[..CAPACITY]);
    FloodFillsQueue(id, payloads[..CAPACITY]);
    OneMoreStep(before, Broadcast(payloads[CAPACITY]));
    BroadcastToOne(Run(before), id, payloads[CAPACITY]);
  }

  // ----- the objects -----

  class Client {
    const hub: Hub
    const id: ClientId
    var conn: Conn

    constructor (hub: Hub, id: ClientId)
      ensures this.hub == hub && this.id == id && conn == NEW_CONN
    {
      this.hub, this.id, conn := hub, id, NEW_CONN;
    }

    // A client whose queue is full loses its channel.
    method SendOrClose(payload: Payload) returns (sent: bool)
      requires conn.closes == 0
      modifies this
      ensures Delivered(old(conn), conn, payload, sent)
    {
      sent := |conn.queue| < CAPACITY;
      if sent {
        conn := conn.(queue := conn.queue + [News(payload)]);
      } else {
        conn := conn.(closes := conn.closes + 1);
      }
    }

    // The pong is dropped when the queue is full.
    method SendPong()
      requires hub.Valid() && hub.Knows(this) && !Panics(hub.View(), Op.SendPong(id))
      modifies this
      ensures hub.Valid() && hub.View() == Step(old(hub.View()), Op.SendPong(id))
    {
      ghost var s := hub.View();
      assert ConnOf(s, id) == conn;
      if |conn.queue| < CAPACITY {
        conn := conn.(queue := conn.queue + [Pong]);
      }
      assert hub.View().conns == s.conns[id := conn];
    }

    method WriteNext(result: WriteResult) returns (item: Option<Item>)
      requires conn.queue != [] && conn.pumping
      modifies this
      ensures conn == Receive(old(conn), result)
      ensures item == if result.Written? then Some(old(conn).queue[0]) else None
    {
      if result.Stopped? {
        conn := conn.(pumping := false);
        return None;
      }
      var next := conn.queue[0];
      conn := conn.(queue := conn.queue[1..], taken := conn.taken + [next]);
      if result.Lost? {
        conn := conn.(pumping := false);
        return None;
      }
      conn := conn.(written := conn.written + 1);
      item := Some(next);
    }

    // One turn of the write pump: the next item, then as many more as were queued behind it, all
    // in one frame, until a write fails. `results` says how the writes go and `sent` whether the
    // frame can be closed, which sends it. The frame is lost if anything fails; then the pump stops.
    method WriteQueued(results: seq<WriteResult>, sent: bool) returns (frame: Option<seq<Item>>)
      requires hub.Valid() && hub.Knows(this) && conn.pumping
      modifies this
      ensures hub.Valid()
      ensures hub.View() ==
        var written := PumpAll(old(hub.View()), id, results, Turns(old(conn)));
        if sent || old(conn).queue == [] then written else Step(written, Pump(id, Stopped))
      ensures frame.Some? <==> old(conn).queue != [] && conn.pumping
      ensures frame.Some? ==> frame.value == old(conn).queue
    {
      ghost var s := hub.View();
      var before := conn;
      assert ConnOf(s, id) == conn;
      frame := WriteFrame(results);
      PumpAllIsReceiveAll(s, id, results, Turns(before));
      assert hub.View().conns == s.conns[id := conn];
      if before.queue != [] && !sent {
        ghost var written := conn;
        conn := conn.(pumping := false);
        frame := None;
        assert hub.View().conns == s.conns[id := Receive(written, Stopped)];
      }
    }

    method WriteFrame(results: seq<WriteResult>) returns (frame: Option<seq<Item>>)
      requires conn.pumping
      modifies this
      ensures conn == ReceiveAll(old(conn), results, Turns(old(conn)))
      ensures frame.Some? <==> old(conn).queue != [] && conn.pumping
      ensures frame.Some? ==> frame.value == old(conn).queue
    {
      ghost var before := conn;
      if conn.queue == [] {
        if conn.closes > 0 || ResultAt(results, 0).Stopped? {
          conn := conn.(pumping := false);
        }
        assert ReceiveAll(before, results, 1) == Receive(ReceiveAll(before, results, 0), ResultAt(results, 0));
        return None;
      }
      var items: seq<Item> := [];
      var n := |conn.queue|;
      for i := 0 to n
        invariant conn == ReceiveAll(before, results, i) && conn.pumping
        invariant items == before.queue[..i] && conn.queue == before.queue[i..]
      {
        var item := WriteNext(ResultAt(results, i));
        if item.None? {
          ReceiveAllStops(before, results, i + 1, n);
          return None;
        }
        items := items + [item.value];
      }
      frame := Some(items);
    }
  }

  function ResultAt(results: seq<WriteResult>, k: nat): WriteResult {
    if k < |results| then results[k] else Written
  }

  // A turn takes what is queued, or waits once.
  function Turns(c: Conn): nat {
    if c.queue == [] then 1 else |c.queue|
  }

  // `n` receptions in a row.
  function ReceiveAll(c: Conn, results: seq<WriteResult>, n: nat): Conn {
    if n == 0 then c else Receive(ReceiveAll(c, results, n - 1), ResultAt(results, n - 1))
  }

  function PumpAll(s: State, id: ClientId, results: seq<WriteResult>, n: nat): State {
    if n == 0 then s else Step(PumpAll(s, id, results, n - 1), Pump(id, ResultAt(results, n - 1)))
  }

  lemma {:induction false} ReceiveAllStops(c: Conn, results: seq<WriteResult>, k: nat, n: nat)
    requires k <= n && !ReceiveAll(c, results, k).pumping
    ensures ReceiveAll(c, results, n) == ReceiveAll(c, results, k)
  {
    if k < n {
      ReceiveAllStops(c, results, k, n - 1);
    }
  }

  // As long as every write works, the items are taken and written in order.
  lemma {:induction false} ReceiveAllTakes(c: Conn, results: seq<WriteResult>, n: nat)
    requires c.pumping && n <= |c.queue| && forall k :: 0 <= k < n ==> ResultAt(results, k).Written?
    ensures ReceiveAll(c, results, n) ==
      c.(queue := c.queue[n..], taken := c.taken + c.queue[..n], written := c.written + n)
  {
    if n == 0 {
      assert c.queue[0..] == c.queue && c.taken + c.queue[..0] == c.taken;
    } else {
      ReceiveAllTakes(c, results, n - 1);
      assert c.queue[n - 1..][1..] == c.queue[n..];
      assert c.taken + c.queue[..n - 1] + [c.queue[n - 1]] == c.taken + c.queue[..n];
    }
  }

  lemma {:induction false} PumpAllIsReceiveAll(s: State, id: ClientId, results: seq<WriteResult>, n: nat)
    requires n > 0
    ensures PumpAll(s, id, results, n) == With(s, id, ReceiveAll(ConnOf(s, id), results, n))
  {
    if n > 1 {
      PumpAllIsReceiveAll(s, id, results, n - 1);
    } else {
      assert PumpAll(s, id, results, 0) == s;
    }
  }

  lemma BroadcastDone(s: State, after: State, payload: Payload)
    requires after.conns.Keys == s.conns.Keys && after.clients <= s.clients <= s.conns.Keys
    requires forall id :: id in s.clients ==>
      Delivered(ConnOf(s, id), ConnOf(after, id), payload, id in after.clients)
    requires forall id :: id in s.conns && id !in s.clients ==> ConnOf(after, id) == ConnOf(s, id)
    ensures after == Step(s, Broadcast(payload))
  {
    var done := BroadcastTo(s, payload);
    forall id
      ensures id in after.clients <==> id in done.clients
    {
      assert id in s.clients ==> Delivered(ConnOf(s, id), ConnOf(after, id), payload, id in after.clients);
    }
    assert after.conns == done.conns by {
      assert forall id :: id in after.conns ==> ConnOf(after, id) == after.conns[id];
    }
  }

  class Hub {
    var clients: map<ClientId, Client>
    ghost var known: map<ClientId, Client>  // every client that has ever been registered

    ghost predicate Valid()
      reads this
    {
      && (forall id :: id in clients ==> id in known && clients[id] == known[id])
      && (forall id :: id in known ==> known[id].id == id && known[id].hub == this)
    }

    ghost predicate Knows(client: Client)
      reads this
    {
      client.id in known && known[client.id] == client
    }

    ghost function View(): State
      reads this, known.Values
    {
      State(clients.Keys, map id | id in known :: known[id].conn)
    }

    constructor ()
      ensures Valid() && View() == Run([])
    {
      clients, known := map[], map[];
    }

    method RegisterClient(client: Client)
      requires Valid() && client.hub == this
      requires if client.id in known then Knows(client) else client.conn == NEW_CONN
      modifies this
      ensures Valid() && Knows(client) && View() == Step(old(View()), Register(client.id))
    {
      clients := clients[client.id := client];
      known := known[client.id := client];
    }

    // Only a client that is registered has its channel closed.
    method UnregisterClient(client: Client)
      requires Valid() && Knows(client) && !Panics(View(), Unregister(client.id))
      modifies this, client
      ensures Valid() && Knows(client) && View() == Step(old(View()), Unregister(client.id))
    {
      ghost var s := View();
      assert ConnOf(s, client.id) == client.conn;
      if client.id in clients {
        clients := clients - {client.id};
        client.conn := client.conn.(closes := client.conn.closes + 1);
        assert View().conns == s.conns[client.id := client.conn];
      }
    }

    method BroadcastMessage(payload: Payload)
      requires Valid() && !Panics(View(), Broadcast(payload))
      modifies this, clients.Values
      ensures Valid() && known == old(known) && View() == Step(old(View()), Broadcast(payload))
    {
      ghost var before, s := clients, View();
      assert forall id :: id in known ==> ConnOf(s, id) == known[id].conn;
      assert forall id :: id in known && id !in before ==> known[id] !in before.Values;
      SendToAll(payload);
      assert forall id :: id in known ==> ConnOf(View(), id) == known[id].conn;
      BroadcastDone(s, View(), payload);
    }

    // Sends to the clients in any order; each is delivered to once, or evicted.
    method SendToAll(payload: Payload)
      requires forall id :: id in clients ==> clients[id].id == id && clients[id].conn.closes == 0
      modifies this`clients, clients.Values
      ensures forall id :: id in clients ==> id in old(clients) && clients[id] == old(clients)[id]
      ensures forall id :: id in old(clients) ==>
        Delivered(old(clients[id].conn), old(clients)[id].conn, payload, id in clients)
    {
      ghost var before := clients;
      var todo := clients.Keys;
      while todo != {}
        invariant todo <= clients.Keys <= before.Keys
        invariant forall id :: id in clients ==> clients[id] == before[id]
        invariant forall id :: id in todo ==> before[id].conn == old(before[id].conn)
        invariant forall id :: id in before && id !in todo ==>
          Delivered(old(before[id].conn), before[id].conn, payload, id in clients)
      {
        var id :| id in todo;
        todo := todo - {id};
        SendTo(id, payload);
      }
    }

    method SendTo(id: ClientId, payload: Payload)
      requires id in clients && clients[id].conn.closes == 0
      modifies this`clients, clients[id]
      ensures clients == if |old(clients[id].conn.queue)| < CAPACITY then old(clients) else old(clients) - {id}
      ensures Delivered(old(clients[id].conn), old(clients)[id].conn, payload, id in clients)
    {
      var sent := clients[id].SendOrClose(payload);
      if !sent {
        clients := clients - {id};
      }
    }
  }
}
