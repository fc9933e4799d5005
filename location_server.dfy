/**
 * The location-sharing WebSocket server of websocketServer.js.
 *
 * `clients` is the server's own table of connected clients and
 * `userLocations` the latest message of each user. The `ws` library keeps a
 * second collection, the sockets it tracks until their `close` event; the
 * heartbeat walks that one. Sockets are identified by id and carry their
 * `readyState`, the `isAlive` flag and the frames written to them. Writes and
 * pings that throw are inputs naming the sockets they fail on, and each timer
 * firing or socket event is a method call.
 */
module LocationSharing {
  import opened Wrappers

  type SocketId = nat

  /**
   * `data.userId` as `JSON.parse` gives it: absent (`undefined`), `null`, a
   * boolean, a number, a string, or an object or array (`Composite`).
   */
  datatype UserId = Undefined | Null | Boolean(b: bool) | Number(n: int) | Text(s: string) | Composite

  /**
   * A key of `userLocations`. A `Map` compares primitives by value, so `5`
   * and `"5"` are two keys and `null` is not `undefined`; it compares an
   * object by identity, and every parse makes a new object, named here by
   * the number of objects parsed before it.
   */
  datatype UserKey = Primitive(id: UserId) | ObjectRef(ref: nat)

  /** The key a parsed `userId` takes, `next` naming the identity a new object would get. */
  function KeyOf(u: UserId, next: nat): (k: UserKey)
    ensures k.ObjectRef? <==> u.Composite?
    ensures k.Primitive? ==> k.id == u
    ensures k.ObjectRef? ==> k.ref == next
  {
    if u.Composite? then ObjectRef(next) else Primitive(u)
  }

  /** Two parsed ids meet at one key iff they are the same primitive, or objects given the same identity. */
  lemma SameKey(u: UserId, v: UserId, r: nat, s: nat)
    ensures KeyOf(u, r) == KeyOf(v, s) <==> (!u.Composite? && u == v) || (u.Composite? && v.Composite? && r == s)
  {
  }

  // `readyState` values of a `ws` socket
  const CONNECTING: nat := 0
  const OPEN: nat := 1
  const CLOSING: nat := 2
  const CLOSED: nat := 3

  /** A parsed non-disconnect message, stored and rebroadcast whole, its `userId` as stored; `body` stands for its other fields. */
  datatype Report = Report(userId: UserKey, body: string)

  /** An inbound frame after `JSON.parse`. */
  datatype Inbound =
    | Unparsable                          // JSON.parse threw
    | NullMessage                         // `null`: reading `data.type` throws
    | DisconnectRequest(userId: UserId)   // `type === 'disconnect'`
    | Update(userId: UserId, body: string) // anything else

  /** An outbound frame. */
  datatype Outbound = Location(report: Report) | Departed(userId: UserKey)

  datatype Socket = Socket(
    readyState: nat,
    isAlive: bool,
    outbox: seq<Outbound>,  // frames written by `send`, oldest first
    pings: nat)             // ping frames written

  /** Every stored message sits under its own `userId`. */
  predicate KeyedByUser(locations: map<UserKey, Report>)
  {
    forall u :: u in locations ==> locations[u].userId == u
  }

  /** `out` holds exactly one catch-up frame for each user of `sent`. */
  predicate ReplayedExactly(locations: map<UserKey, Report>, sent: set<UserKey>, out: seq<Outbound>)
    requires sent <= locations.Keys
  {
    && |out| == |sent|
    && (forall u :: u in sent ==> Location(locations[u]) in out)
    && (forall i :: 0 <= i < |out| ==>
          out[i].Location? && out[i].report.userId in sent && out[i].report == locations[out[i].report.userId])
  }

  /** Writing one more user's frame extends what has been replayed by that user. */
  lemma ReplayStep(locations: map<UserKey, Report>, sent: set<UserKey>, out: seq<Outbound>, u: UserKey)
    requires KeyedByUser(locations)
    requires sent <= locations.Keys && u in locations && u !in sent
    requires ReplayedExactly(locations, sent, out)
    ensures ReplayedExactly(locations, sent + {u}, out + [Location(locations[u])])
  {
    var out' := out + [Location(locations[u])];
    forall i | 0 <= i < |out'|
      ensures out'[i].Location? && out'[i].report.userId in sent + {u} && out'[i].report == locations[out'[i].report.userId]
    {
      if i < |out| {
        assert out'[i] == out[i];
      }
    }
  }

  /** Visiting one more key keeps `sent` equal to the visited keys that did not fail. */
  lemma VisitStep<K>(keys: set<K>, rest: set<K>, failing: set<K>, sent: set<K>, u: K)
    requires u in rest && rest <= keys && sent == (keys - rest) - failing
    ensures (if u in failing then sent else sent + {u}) == (keys - (rest - {u})) - failing
    ensures u !in sent
  {
  }

  /**
   * The catch-up frames for a new connection: one frame per stored location,
   * except those whose `send` throws (`failing`), each caught on its own.
   */
  method Replay(locations: map<UserKey, Report>, failing: set<UserKey>) returns (out: seq<Outbound>)
    requires KeyedByUser(locations)
    ensures ReplayedExactly(locations, locations.Keys - failing, out)
  {
    out := [];
    var rest := locations.Keys;
    ghost var sent: set<UserKey> := {};
    while rest != {}
      invariant rest <= locations.Keys
      invariant sent == (locations.Keys - rest) - failing
      invariant ReplayedExactly(locations, sent, out)
      decreases rest
    {
      var u :| u in rest;
      VisitStep(locations.Keys, rest, failing, sent, u);
      if u !in failing {
        ReplayStep(locations, sent, out, u);
        out := out + [Location(locations[u])];
        sent := sent + {u};
      }
      rest := rest - {u};
    }
    assert sent == locations.Keys - failing;
  }

  /** `broadcastToAll` keeps a client that is connecting, or open with a write that does not throw. */
  predicate KeptByBroadcast(s: Socket, sendThrows: bool)
  {
    s.readyState == CONNECTING || (s.readyState == OPEN && !sendThrows)
  }

  /** The socket after `broadcastToAll` visited its client entry: only an open socket is written to. */
  function Broadcasted(s: Socket, m: Outbound, sendThrows: bool): (t: Socket)
    ensures t.readyState == s.readyState && t.isAlive == s.isAlive && t.pings == s.pings
    ensures s.readyState == OPEN && !sendThrows ==> t.outbox == s.outbox + [m]
    ensures !(s.readyState == OPEN && !sendThrows) ==> t.outbox == s.outbox
  {
    if s.readyState == OPEN && !sendThrows then s.(outbox := s.outbox + [m]) else s
  }

  /** The sockets after a broadcast to `clients`. */
  function BroadcastSockets(sockets: map<SocketId, Socket>, clients: set<SocketId>, m: Outbound, failing: set<SocketId>): (r: map<SocketId, Socket>)
    ensures r.Keys == sockets.Keys
    ensures forall id :: id in sockets && id !in clients ==> r[id] == sockets[id]
    ensures forall id :: id in sockets && id in clients ==> r[id] == Broadcasted(sockets[id], m, id in failing)
  {
    map id | id in sockets :: if id in clients then Broadcasted(sockets[id], m, id in failing) else sockets[id]
  }

  /** The client table after a broadcast: the entries pruned are those not kept. */
  function BroadcastClients(sockets: map<SocketId, Socket>, clients: set<SocketId>, failing: set<SocketId>): (r: set<SocketId>)
    requires clients <= sockets.Keys
    ensures r <= clients
    ensures forall id :: id in clients ==> (id in r <==> KeptByBroadcast(sockets[id], id in failing))
  {
    set id | id in clients && KeptByBroadcast(sockets[id], id in failing)
  }

  /** Visiting one more client entry updates only that entry's socket. */
  lemma BroadcastSocketsStep(sockets: map<SocketId, Socket>, done: set<SocketId>, m: Outbound, failing: set<SocketId>, id: SocketId)
    requires id in sockets && id !in done
    ensures BroadcastSockets(sockets, done, m, failing)[id] == sockets[id]
    ensures BroadcastSockets(sockets, done + {id}, m, failing)
            == BroadcastSockets(sockets, done, m, failing)[id := Broadcasted(sockets[id], m, id in failing)]
  {
    var r := BroadcastSockets(sockets, done + {id}, m, failing);
    var r' := BroadcastSockets(sockets, done, m, failing)[id := Broadcasted(sockets[id], m, id in failing)];
    assert r.Keys == r'.Keys;
  }

  /** Visiting one more client entry keeps it or prunes it, and decides nothing else. */
  lemma BroadcastClientsStep(sockets: map<SocketId, Socket>, done: set<SocketId>, failing: set<SocketId>, id: SocketId)
    requires done <= sockets.Keys && id in sockets && id !in done
    ensures id !in BroadcastClients(sockets, done, failing)
    ensures BroadcastClients(sockets, done + {id}, failing)
            == BroadcastClients(sockets, done, failing) + (if KeptByBroadcast(sockets[id], id in failing) then {id} else {})
  {
  }

  /**
   * A broadcast writes the frame exactly once to every open client whose
   * write does not throw, and to nothing else.
   */
  lemma BroadcastReachesOpenClients(sockets: map<SocketId, Socket>, clients: set<SocketId>, m: Outbound, failing: set<SocketId>, id: SocketId)
    requires id in sockets
    ensures var r := BroadcastSockets(sockets, clients, m, failing);
            r[id].outbox == (if id in clients && sockets[id].readyState == OPEN && id !in failing
                             then sockets[id].outbox + [m] else sockets[id].outbox)
  {
  }

  /** `ws.terminate()`: the socket moves to CLOSING unless it is already closed. */
  function Terminated(readyState: nat): (s: nat)
    ensures s == CLOSING || s == CLOSED
    ensures readyState == CLOSED <==> s == CLOSED
  {
    if readyState == CLOSED then CLOSED else CLOSING
  }

  /** One heartbeat visit of a tracked socket; `pingThrows` says whether `ws.ping()` throws. */
  function HeartbeatVisit(s: Socket, pingThrows: bool): (t: Socket)
    ensures t.outbox == s.outbox && !t.isAlive
    ensures !s.isAlive ==> t.readyState == Terminated(s.readyState) && t.pings == s.pings
    ensures s.isAlive && !pingThrows ==> t.readyState == s.readyState && t.pings == s.pings + 1
    ensures s.isAlive && pingThrows ==> t.readyState == Terminated(s.readyState) && t.pings == s.pings
  {
    if !s.isAlive then s.(readyState := Terminated(s.readyState))
    else if pingThrows then s.(isAlive := false, readyState := Terminated(s.readyState))
    else s.(isAlive := false, pings := s.pings + 1)
  }

  /** A socket that answers no ping between two heartbeat ticks is terminated by the second. */
  lemma TwoTicksWithoutPongTerminate(s: Socket, firstThrows: bool, secondThrows: bool)
    requires s.readyState != CLOSED
    ensures HeartbeatVisit(HeartbeatVisit(s, firstThrows), secondThrows).readyState == CLOSING
  {
    assert !HeartbeatVisit(s, firstThrows).isAlive;
  }

  /** The sockets after one heartbeat tick over the tracked ones (those not yet CLOSED). */
  function HeartbeatSockets(sockets: map<SocketId, Socket>, failing: set<SocketId>): (r: map<SocketId, Socket>)
    ensures r.Keys == sockets.Keys
    ensures forall id :: id in sockets && sockets[id].readyState == CLOSED ==> r[id] == sockets[id]
    ensures forall id :: id in sockets && sockets[id].readyState != CLOSED ==> r[id] == HeartbeatVisit(sockets[id], id in failing)
  {
    map id | id in sockets :: if sockets[id].readyState != CLOSED then HeartbeatVisit(sockets[id], id in failing) else sockets[id]
  }

  /** The figures `getStatus` reports. */
  datatype Status = Status(connections: nat, activeSharingUsers: nat)

  class LocationServer {
    var sockets: map<SocketId, Socket>
    var clients: set<SocketId>
    var userLocations: map<UserKey, Report>
    var nextSocket: SocketId
    /** The number of object or array `userId`s parsed so far. */
    var parsedObjects: nat

    ghost predicate Valid()
      reads this
    {
      && (forall id :: id in sockets ==> id < nextSocket)
      && clients <= sockets.Keys
      && KeyedByUser(userLocations)
      && (forall k :: k in userLocations && k.ObjectRef? ==> k.ref < parsedObjects)
    }

    constructor ()
      ensures Valid()
      ensures sockets == map[] && clients == {} && userLocations == map[]
    {
      sockets := map[];
      clients := {};
      userLocations := map[];
      nextSocket := 0;
      parsedObjects := 0;
    }

    /**
     * The `connection` handler: a fresh client entry, `isAlive` set, and one
     * catch-up frame per stored location. `failing` names the stored users
     * whose catch-up write throws.
     */
    method OnConnection(failing: set<UserKey>) returns (id: SocketId)
      requires Valid()
      modifies this
      ensures Valid()
      ensures id !in old(sockets) && id !in old(clients)
      ensures clients == old(clients) + {id}
      ensures id in sockets && sockets == old(sockets)[id := sockets[id]]
      ensures sockets[id].readyState == OPEN && sockets[id].isAlive && sockets[id].pings == 0
      ensures ReplayedExactly(userLocations, userLocations.Keys - failing, sockets[id].outbox)
      ensures userLocations == old(userLocations) && parsedObjects == old(parsedObjects)
    {
      id := nextSocket;
      nextSocket := nextSocket + 1;
      var catchUp := Replay(userLocations, failing);
      sockets := sockets[id := Socket(OPEN, true, catchUp, 0)];
      clients := clients + {id};
    }

    /** `broadcastToAll(message)`; `failing` names the clients whose write throws. */
    method BroadcastToAll(m: Outbound, failing: set<SocketId>)
      requires Valid()
      modifies this
      ensures Valid()
      ensures sockets == BroadcastSockets(old(sockets), old(clients), m, failing)
      ensures clients == BroadcastClients(old(sockets), old(clients), failing)
      ensures userLocations == old(userLocations) && nextSocket == old(nextSocket) && parsedObjects == old(parsedObjects)
    {
      ghost var s0, c0 := sockets, clients;
      var rest := clients;
      while rest != {}
        invariant rest <= c0
        invariant sockets == BroadcastSockets(s0, c0 - rest, m, failing)
        invariant clients == BroadcastClients(s0, c0 - rest, failing) + rest
        invariant userLocations == old(userLocations) && nextSocket == old(nextSocket) && parsedObjects == old(parsedObjects)
        decreases rest
      {
        var id :| id in rest;
        ghost var done := c0 - rest;
        var s := sockets[id];
        BroadcastSocketsStep(s0, done, m, failing, id);
        BroadcastClientsStep(s0, done, failing, id);
        if s.readyState == OPEN {
          if id in failing {
            clients := clients - {id};
          } else {
            sockets := sockets[id := s.(outbox := s.outbox + [m])];
          }
        } else if s.readyState != CONNECTING {
          clients := clients - {id};
        }
        rest := rest - {id};
        assert c0 - rest == done + {id};
      }
      assert c0 - rest == c0;
    }

    /**
     * The `message` handler. A disconnect request deletes the location
     * stored under the message's `userId` (no connection is bound to a user,
     * so any client may name any user) and announces the departure to every
     * client; any other message replaces the
     * location stored under its `userId` and is broadcast as it is. A frame
     * that does not parse changes nothing.
     */
    method OnMessage(m: Inbound, failing: set<SocketId>)
      requires Valid()
      modifies this
      ensures Valid()
      ensures nextSocket == old(nextSocket)
      ensures parsedObjects == old(parsedObjects) + (if !m.Unparsable? && !m.NullMessage? && m.userId.Composite? then 1 else 0)
      ensures m.Unparsable? || m.NullMessage? ==>
                sockets == old(sockets) && clients == old(clients) && userLocations == old(userLocations)
      ensures m.DisconnectRequest? ==>
                var k := KeyOf(m.userId, old(parsedObjects));
                && userLocations == old(userLocations) - {k}
                && sockets == BroadcastSockets(old(sockets), old(clients), Departed(k), failing)
                && clients == BroadcastClients(old(sockets), old(clients), failing)
      ensures m.Update? ==>
                var k := KeyOf(m.userId, old(parsedObjects));
                && userLocations == old(userLocations)[k := Report(k, m.body)]
                && sockets == BroadcastSockets(old(sockets), old(clients), Location(Report(k, m.body)), failing)
                && clients == BroadcastClients(old(sockets), old(clients), failing)
      ensures forall k :: k in old(userLocations) && k !in userLocations ==>
                m.DisconnectRequest? && k == Primitive(m.userId)
      ensures m.DisconnectRequest? && m.userId.Composite? ==> userLocations == old(userLocations)
      ensures m.Update? && m.userId.Composite? ==> |userLocations| == |old(userLocations)| + 1
    {
      match m {
        case Unparsable =>
        case NullMessage =>
        case DisconnectRequest(u) => Disconnect(u, failing);
        case Update(u, body) => Record(u, body, failing);
      }
    }

    /** `userLocations.delete(data.userId)`, then the departure announced to every client. */
    method Disconnect(u: UserId, failing: set<SocketId>)
      requires Valid()
      modifies this
      ensures Valid()
      ensures nextSocket == old(nextSocket)
      ensures parsedObjects == old(parsedObjects) + (if u.Composite? then 1 else 0)
      ensures var k := KeyOf(u, old(parsedObjects));
              && userLocations == old(userLocations) - {k}
              && sockets == BroadcastSockets(old(sockets), old(clients), Departed(k), failing)
              && clients == BroadcastClients(old(sockets), old(clients), failing)
      ensures forall k :: k in old(userLocations) && k !in userLocations ==> k == Primitive(u)
      ensures u.Composite? ==> userLocations == old(userLocations)
    {
      var k := KeyOf(u, parsedObjects);
      if u.Composite? {
        assert k !in userLocations;
        parsedObjects := parsedObjects + 1;
      }
      userLocations := userLocations - {k};
      BroadcastToAll(Departed(k), failing);
    }

    /** `userLocations.set(data.userId, data)`, then the message broadcast as it is. */
    method Record(u: UserId, body: string, failing: set<SocketId>)
      requires Valid()
      modifies this
      ensures Valid()
      ensures nextSocket == old(nextSocket)
      ensures parsedObjects == old(parsedObjects) + (if u.Composite? then 1 else 0)
      ensures var k := KeyOf(u, old(parsedObjects));
              && userLocations == old(userLocations)[k := Report(k, body)]
              && sockets == BroadcastSockets(old(sockets), old(clients), Location(Report(k, body)), failing)
              && clients == BroadcastClients(old(sockets), old(clients), failing)
      ensures old(userLocations).Keys <= userLocations.Keys
      ensures u.Composite? ==> |userLocations| == |old(userLocations)| + 1
    {
      var k := KeyOf(u, parsedObjects);
      if u.Composite? {
        assert k !in userLocations;
        parsedObjects := parsedObjects + 1;
      }
      userLocations := userLocations[k := Report(k, body)];
      BroadcastToAll(Location(Report(k, body)), failing);
    }

    /** The socket's `close` event: its client entry goes; stored locations stay. */
    method OnClose(id: SocketId)
      requires Valid() && id in sockets
      modifies this
      ensures Valid()
      ensures clients == old(clients) - {id}
      ensures sockets == old(sockets)[id := old(sockets)[id].(readyState := CLOSED)]
      ensures userLocations == old(userLocations) && nextSocket == old(nextSocket) && parsedObjects == old(parsedObjects)
    {
      clients := clients - {id};
      sockets := sockets[id := sockets[id].(readyState := CLOSED)];
    }

    /** The socket's `error` event: its client entry goes; stored locations stay. */
    method OnError(id: SocketId)
      requires Valid()
      modifies this
      ensures Valid()
      ensures clients == old(clients) - {id}
      ensures sockets == old(sockets) && userLocations == old(userLocations) && nextSocket == old(nextSocket) && parsedObjects == old(parsedObjects)
    {
      clients := clients - {id};
    }

    /** A pong from socket `id`. */
    method OnPong(id: SocketId)
      requires Valid() && id in sockets
      modifies this
      ensures Valid()
      ensures sockets == old(sockets)[id := old(sockets)[id].(isAlive := true)]
      ensures clients == old(clients) && userLocations == old(userLocations) && nextSocket == old(nextSocket) && parsedObjects == old(parsedObjects)
    {
      sockets := sockets[id := sockets[id].(isAlive := true)];
    }

    /**
     * One firing of the heartbeat interval over the sockets the library still
     * tracks; `failing` names those whose ping throws.
     */
    method HeartbeatTick(failing: set<SocketId>)
      requires Valid()
      modifies this
      ensures Valid()
      ensures sockets == HeartbeatSockets(old(sockets), failing)
      ensures clients == old(clients) && userLocations == old(userLocations) && nextSocket == old(nextSocket) && parsedObjects == old(parsedObjects)
    {
      ghost var s0 := sockets;
      var rest := set id | id in sockets && sockets[id].readyState != CLOSED;
      ghost var tracked := rest;
      while rest != {}
        invariant rest <= tracked
        invariant sockets.Keys == s0.Keys
        invariant forall id :: id in s0 && id !in tracked - rest ==> sockets[id] == s0[id]
        invariant forall id :: id in tracked - rest ==> sockets[id] == HeartbeatVisit(s0[id], id in failing)
        invariant clients == old(clients) && userLocations == old(userLocations) && nextSocket == old(nextSocket) && parsedObjects == old(parsedObjects)
        decreases rest
      {
        var id :| id in rest;
        var s := sockets[id];
        if !s.isAlive {
          sockets := sockets[id := s.(readyState := Terminated(s.readyState))];
        } else {
          s := s.(isAlive := false);
          if id in failing {
            sockets := sockets[id := s.(readyState := Terminated(s.readyState))];
          } else {
            sockets := sockets[id := s.(pings := s.pings + 1)];
          }
        }
        rest := rest - {id};
      }
    }

    /** `getStatus()`: the number of client entries and of users with a stored location. */
    function GetStatus(): (st: Status)
      reads this
      ensures st.connections == |clients| && st.activeSharingUsers == |userLocations.Keys|
    {
      Status(|clients|, |userLocations|)
    }
  }
}
