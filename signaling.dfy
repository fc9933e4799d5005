/**
 * The topic publish/subscribe signalling server of backend/src/signalingServer.js.
 *
 * The server keeps `topics`, a table from topic name to the set of connections
 * subscribed to it. Every connection carries its own `subscribedTopics`, a
 * `closed` flag and a `pongReceived` liveness flag; in the model these live in
 * a `Conn` record per connection id. Socket writes that throw, the JWT verifier
 * and the timer are inputs: the caller says which write fails, the verifier is
 * a function parameter and each firing of the ping interval is a method call.
 */
module Signaling {
  import opened Wrappers

  type ConnId = nat
  type TopicName = string

  // `readyState` values of a `ws` connection
  const CONNECTING: nat := 0
  const OPEN: nat := 1
  const CLOSING: nat := 2
  const CLOSED: nat := 3

  /* ---------------------------------------------------------------------- */
  /* Upgrade handshake                                                      */
  /* ---------------------------------------------------------------------- */

  /** What the handshake reads of an HTTP upgrade request. */
  datatype UpgradeRequest = UpgradeRequest(
    urlParses: bool,                // `new URL(request.url, ...)` does not throw
    queryToken: Option<string>,     // the `token` query parameter
    protocolHeader: Option<string>) // the `sec-websocket-protocol` header

  /** A present, non-empty string: what `||` and `!token` treat as truthy. */
  predicate Truthy(s: Option<string>) { s.Some? && s.value != "" }

  /** `options.jwtSecret || null`: an empty secret counts as no secret. */
  predicate SecretSet(secret: Option<string>) { Truthy(secret) }

  /** The token: the `token` query parameter, falling back to the subprotocol header. */
  function TokenOf(req: UpgradeRequest): (t: Option<string>)
    ensures t.Some? ==> t.value != ""
    ensures Truthy(req.queryToken) ==> t == req.queryToken
    ensures !Truthy(req.queryToken) ==> (t.Some? <==> Truthy(req.protocolHeader))
    ensures !Truthy(req.queryToken) && t.Some? ==> t == req.protocolHeader
  {
    if Truthy(req.queryToken) then req.queryToken
    else if Truthy(req.protocolHeader) then req.protocolHeader
    else None
  }

  /**
   * Whether `handleUpgrade` lets the request through. `verify(token, secret)`
   * stands for `jwt.verify`, false when it throws.
   */
  function Admits(secret: Option<string>, req: UpgradeRequest, verify: (string, string) -> bool): (ok: bool)
    ensures !SecretSet(secret) ==> ok
    ensures SecretSet(secret) && !req.urlParses ==> !ok
    ensures SecretSet(secret) && TokenOf(req).None? ==> !ok
    ensures SecretSet(secret) && ok ==> TokenOf(req).Some? && verify(TokenOf(req).value, secret.value)
    ensures SecretSet(secret) && req.urlParses && TokenOf(req).Some? && verify(TokenOf(req).value, secret.value) ==> ok
  {
    !SecretSet(secret) ||
    (req.urlParses && TokenOf(req).Some? && verify(TokenOf(req).value, secret.value))
  }

  /* ---------------------------------------------------------------------- */
  /* Connections and messages                                               */
  /* ---------------------------------------------------------------------- */

  /** An entry of a message's `topics` list. */
  datatype TopicArg = Name(name: TopicName) | NotAString

  /** An inbound frame, after `JSON.parse`. */
  datatype Message =
    | Unparsable                                         // JSON.parse threw
    | Untyped                                            // null, or a missing or empty `type`
    | Subscribe(topics: seq<TopicArg>)                   // a missing `topics` is the empty list
    | Unsubscribe(topics: seq<TopicArg>)
    | TopicsNotAList                                     // 'subscribe' or 'unsubscribe' with a truthy non-array `topics`
    | Publish(topic: Option<TopicArg>, payload: string)  // payload: the rest of the message
    | Ping
    | OtherType(kind: string)

  /** An outbound frame. */
  datatype Outgoing =
    | Published(topic: TopicName, payload: string, clients: nat)  // the published message, `clients` set
    | Pong

  /** The per-connection state that `onConnection` keeps. */
  datatype Conn = Conn(
    readyState: nat,
    subscribed: set<TopicName>,  // subscribedTopics
    closed: bool,
    pongReceived: bool,
    timerRunning: bool,          // the ping interval has not been cleared
    outbox: seq<Outgoing>,       // frames written by `conn.send`, oldest first
    pings: nat)                  // ping frames written by `conn.ping`

  /** A freshly accepted connection. */
  const FreshConn: Conn := Conn(OPEN, {}, false, true, true, [], 0)

  /** `send` writes only on a connecting or open connection. */
  predicate Writable(readyState: nat) { readyState == CONNECTING || readyState == OPEN }

  /** `conn.close()`: a connecting or open connection starts closing; others stay as they are. */
  function CloseRequested(readyState: nat): (s: nat)
    ensures !Writable(s)
    ensures !Writable(readyState) ==> s == readyState
  {
    if Writable(readyState) then CLOSING else readyState
  }

  /** The effect of `send(conn, message)` on the connection. */
  function AfterSend(c: Conn, m: Outgoing, writeThrows: bool): (d: Conn)
    ensures d.subscribed == c.subscribed && d.closed == c.closed && d.pongReceived == c.pongReceived
    ensures d.timerRunning == c.timerRunning && d.pings == c.pings
    ensures Writable(c.readyState) && !writeThrows ==> d.outbox == c.outbox + [m] && d.readyState == c.readyState
    ensures !(Writable(c.readyState) && !writeThrows) ==> d.outbox == c.outbox && !Writable(d.readyState)
  {
    if Writable(c.readyState) && !writeThrows then c.(outbox := c.outbox + [m])
    else c.(readyState := CloseRequested(c.readyState))
  }

  /** One firing of the connection's ping interval. */
  function AfterPingTick(c: Conn, pingThrows: bool): (d: Conn)
    ensures d.subscribed == c.subscribed && d.closed == c.closed && d.outbox == c.outbox
    ensures !c.pongReceived ==> !d.timerRunning && !Writable(d.readyState) && d.pings == c.pings && !d.pongReceived
    ensures c.pongReceived ==> !d.pongReceived && d.timerRunning == c.timerRunning
    ensures c.pongReceived && !pingThrows ==> d.pings == c.pings + 1 && d.readyState == c.readyState
    ensures c.pongReceived && pingThrows ==> d.pings == c.pings && !Writable(d.readyState)
  {
    if !c.pongReceived then c.(readyState := CloseRequested(c.readyState), timerRunning := false)
    else if pingThrows then c.(pongReceived := false, readyState := CloseRequested(c.readyState))
    else c.(pongReceived := false, pings := c.pings + 1)
  }

  /** Two ticks with no pong in between close the connection and stop its timer. */
  lemma TwoTicksWithoutPongClose(c: Conn, firstThrows: bool, secondThrows: bool)
    ensures var d := AfterPingTick(AfterPingTick(c, firstThrows), secondThrows);
            !d.timerRunning && !Writable(d.readyState)
  {
    var d1 := AfterPingTick(c, firstThrows);
    assert !d1.pongReceived;
  }

  /* ---------------------------------------------------------------------- */
  /* The topic table                                                        */
  /* ---------------------------------------------------------------------- */

  type Topics = map<TopicName, set<ConnId>>
  type Conns = map<ConnId, Conn>

  /** The string names in a `topics` list; other entries are skipped. */
  function Names(args: seq<TopicArg>): (n: set<TopicName>)
    ensures forall t :: t in n <==> Name(t) in args
  {
    set a | a in args && a.Name? :: a.name
  }

  /** `topics` after adding connection `c` to each topic in `n`, creating missing sets. */
  function WithSubscriber(topics: Topics, c: ConnId, n: set<TopicName>): (r: Topics)
    ensures r.Keys == topics.Keys + n
    ensures forall t :: t in n ==> c in r[t]
    ensures forall t, d :: t in r && d != c ==> (d in r[t] <==> t in topics && d in topics[t])
    ensures forall t :: t in topics && t !in n ==> r[t] == topics[t]
  {
    map t | t in topics.Keys + n :: (if t in topics then topics[t] else {}) + (if t in n then {c} else {})
  }

  /** `topics` after removing connection `c` from each existing topic in `n`; nothing is deleted. */
  function WithoutSubscriber(topics: Topics, c: ConnId, n: set<TopicName>): (r: Topics)
    ensures r.Keys == topics.Keys
    ensures forall t :: t in n && t in r ==> c !in r[t]
    ensures forall t, d :: t in r && d != c ==> (d in r[t] <==> d in topics[t])
    ensures forall t :: t in topics && t !in n ==> r[t] == topics[t]
  {
    map t | t in topics :: if t in n then topics[t] - {c} else topics[t]
  }

  /**
   * `topics` after the close handler has walked `done`, the closed
   * connection's subscribed topics: `c` leaves each of them and a topic left
   * empty is deleted.
   */
  function AfterClose(topics: Topics, c: ConnId, done: set<TopicName>): (r: Topics)
    ensures forall t :: t in r ==> t in topics
    ensures forall t :: t in topics && t !in done ==> t in r && r[t] == topics[t]
    ensures forall t :: t in done && t in r ==> r[t] == topics[t] - {c} && r[t] != {}
    ensures forall t :: t in done && t in topics && topics[t] - {c} != {} ==> t in r
  {
    map t | t in topics && !(t in done && topics[t] - {c} == {}) :: if t in done then topics[t] - {c} else topics[t]
  }

  /** Subscribing to the same names twice leaves the table as one subscribe does. */
  lemma {:induction false} SubscribeIdempotent(topics: Topics, c: ConnId, n: set<TopicName>)
    ensures WithSubscriber(WithSubscriber(topics, c, n), c, n) == WithSubscriber(topics, c, n)
  {
    var once := WithSubscriber(topics, c, n);
    var twice := WithSubscriber(once, c, n);
    assert twice.Keys == once.Keys;
    forall t | t in once ensures twice[t] == once[t] {
      if t in n {
        assert c in once[t];
        assert twice[t] == once[t] + {c};
      }
    }
  }

  /**
   * The subscription invariant: a connection in a topic's set is a live
   * connection that lists the topic among its `subscribedTopics`; a closed
   * connection lists none.
   */
  predicate Consistent(topics: Topics, conns: Conns)
  {
    && (forall t, d :: t in topics && d in topics[t] ==> d in conns && t in conns[d].subscribed && !conns[d].closed)
    && (forall d :: d in conns && conns[d].closed ==> conns[d].subscribed == {})
  }

  /** `send` to every connection of `receivers` (all known), each once. */
  function Delivered(conns: Conns, receivers: set<ConnId>, m: Outgoing, failing: set<ConnId>): (r: Conns)
    ensures r.Keys == conns.Keys
    ensures forall d :: d in conns && d !in receivers ==> r[d] == conns[d]
    ensures forall d :: d in conns && d in receivers ==> r[d] == AfterSend(conns[d], m, d in failing)
  {
    map d | d in conns :: if d in receivers then AfterSend(conns[d], m, d in failing) else conns[d]
  }

  /** Writes never touch subscriptions, so delivery keeps the invariant. */
  lemma DeliveredConsistent(topics: Topics, conns: Conns, receivers: set<ConnId>, m: Outgoing, failing: set<ConnId>)
    requires Consistent(topics, conns)
    ensures Consistent(topics, Delivered(conns, receivers, m, failing))
  {
  }

  /** The topic a `publish` reaches: a present, non-empty string name that has a set. */
  function PublishTopic(topics: Topics, topic: Option<TopicArg>): (r: Option<TopicName>)
    ensures r.Some? <==> topic.Some? && topic.value.Name? && topic.value.name != "" && topic.value.name in topics
    ensures r.Some? ==> r.value == topic.value.name
  {
    if topic.Some? && topic.value.Name? && topic.value.name != "" && topic.value.name in topics
    then Some(topic.value.name) else None
  }

  /** Adding one more name to a subscribe is one more table update. */
  lemma SubscribeStep(topics: Topics, c: ConnId, n: set<TopicName>, t: TopicName)
    ensures var r := WithSubscriber(topics, c, n);
            WithSubscriber(topics, c, n + {t}) == r[t := (if t in r then r[t] else {}) + {c}]
  {
    var r := WithSubscriber(topics, c, n);
    var r' := WithSubscriber(topics, c, n + {t});
    assert r'.Keys == r[t := {}].Keys;
  }

  /** One more argument adds its name, if it is one. */
  lemma NamesStep(args: seq<TopicArg>, i: nat)
    requires i < |args|
    ensures Names(args[..i + 1]) == Names(args[..i]) + (if args[i].Name? then {args[i].name} else {})
  {
    assert args[..i + 1] == args[..i] + [args[i]];
  }

  /** Adding one more name to an unsubscribe is one more table update, or none when the topic is unknown. */
  lemma UnsubscribeStep(topics: Topics, c: ConnId, n: set<TopicName>, t: TopicName)
    ensures var r := WithoutSubscriber(topics, c, n);
            WithoutSubscriber(topics, c, n + {t}) == if t in r then r[t := r[t] - {c}] else r
  {
    var r := WithoutSubscriber(topics, c, n);
    var r' := WithoutSubscriber(topics, c, n + {t});
    var expected := if t in r then r[t := r[t] - {c}] else r;
    assert r'.Keys == expected.Keys;
    forall u | u in r' ensures r'[u] == expected[u] {
      if u == t {
        assert r'[u] == topics[u] - {c};
      }
    }
  }

  /** Subscribing a live connection keeps the subscription invariant. */
  lemma SubscribeConsistent(topics: Topics, conns: Conns, c: ConnId, n: set<TopicName>)
    requires Consistent(topics, conns) && c in conns && !conns[c].closed
    ensures Consistent(WithSubscriber(topics, c, n), conns[c := conns[c].(subscribed := conns[c].subscribed + n)])
  {
  }

  /**
   * Unsubscribing keeps the subscription invariant even though
   * `subscribedTopics` keeps the names: the invariant only asks that topic
   * membership imply a recorded name, not the converse.
   */
  lemma UnsubscribeConsistent(topics: Topics, conns: Conns, c: ConnId, n: set<TopicName>)
    requires Consistent(topics, conns)
    ensures Consistent(WithoutSubscriber(topics, c, n), conns)
  {
  }

  /** After the close handler, the closed connection is in no topic and the invariant holds. */
  lemma CloseConsistent(topics: Topics, conns: Conns, c: ConnId)
    requires Consistent(topics, conns) && c in conns
    ensures var r := AfterClose(topics, c, conns[c].subscribed);
            && (forall t :: t in r ==> c !in r[t])
            && Consistent(r, conns[c := conns[c].(subscribed := {}, closed := true, readyState := CLOSED)])
  {
    var r := AfterClose(topics, c, conns[c].subscribed);
    forall t | t in r ensures c !in r[t] {
      if t !in conns[c].subscribed {
        assert r[t] == topics[t];
      }
    }
  }

  /* ---------------------------------------------------------------------- */
  /* The server                                                             */
  /* ---------------------------------------------------------------------- */

  class SignalingServer {
    const secret: Option<string>
    const pingInterval: nat
    var topics: Topics
    var conns: Conns
    var nextConn: ConnId

    ghost predicate Valid()
      reads this
    {
      && (forall d :: d in conns ==> d < nextConn)
      && Consistent(topics, conns)
    }

    /** `options.jwtSecret` and `options.pingInterval` (0 stands for unset: 30000 ms). */
    constructor (jwtSecret: Option<string>, interval: nat)
      ensures Valid()
      ensures secret == jwtSecret && pingInterval == (if interval == 0 then 30000 else interval)
      ensures topics == map[] && conns == map[]
    {
      secret := jwtSecret;
      pingInterval := if interval == 0 then 30000 else interval;
      topics := map[];
      conns := map[];
      nextConn := 0;
    }

    /**
     * `handleUpgrade`: with a secret configured, a request without a token or
     * whose token fails verification is answered 401 and no connection is
     * created; otherwise a fresh open connection is registered.
     */
    method HandleUpgrade(req: UpgradeRequest, verify: (string, string) -> bool) returns (accepted: Option<ConnId>)
      requires Valid()
      modifies this
      ensures Valid()
      ensures accepted.Some? <==> Admits(secret, req, verify)
      ensures accepted.None? ==> conns == old(conns) && nextConn == old(nextConn)
      ensures accepted.Some? ==> accepted.value !in old(conns) && conns == old(conns)[accepted.value := FreshConn]
      ensures topics == old(topics)
    {
      if !Admits(secret, req, verify) {
        return None;
      }
      var id := nextConn;
      conns := conns[id := FreshConn];
      nextConn := nextConn + 1;
      accepted := Some(id);
    }

    /** `send(conn, message)`. */
    method Send(c: ConnId, m: Outgoing, writeThrows: bool)
      requires c in conns
      modifies this
      ensures conns == old(conns)[c := AfterSend(old(conns)[c], m, writeThrows)]
      ensures topics == old(topics) && nextConn == old(nextConn)
    {
      conns := conns[c := AfterSend(conns[c], m, writeThrows)];
    }

    /** `send` to each receiver in turn; `failing` names the receivers whose write throws. */
    method Deliver(receivers: set<ConnId>, m: Outgoing, failing: set<ConnId>)
      requires receivers <= conns.Keys
      modifies this
      ensures conns == Delivered(old(conns), receivers, m, failing)
      ensures topics == old(topics) && nextConn == old(nextConn)
    {
      var rest := receivers;
      while rest != {}
        invariant rest <= receivers
        invariant conns == Delivered(old(conns), receivers - rest, m, failing)
        invariant topics == old(topics) && nextConn == old(nextConn)
        decreases rest
      {
        var r :| r in rest;
        Send(r, m, r in failing);
        rest := rest - {r};
      }
      assert receivers - rest == receivers;
    }

    /** The `subscribe` arm. */
    method SubscribeTo(c: ConnId, args: seq<TopicArg>)
      requires Valid() && c in conns && !conns[c].closed
      modifies this
      ensures Valid()
      ensures topics == WithSubscriber(old(topics), c, Names(args))
      ensures conns == old(conns)[c := old(conns)[c].(subscribed := old(conns)[c].subscribed + Names(args))]
      ensures nextConn == old(nextConn)
    {
      ghost var t0 := topics;
      ghost var names: set<TopicName> := {};
      assert args[..0] == [];
      assert WithSubscriber(t0, c, {}) == t0;
      var subscribed := conns[c].subscribed;
      var i := 0;
      while i < |args|
        invariant 0 <= i <= |args|
        invariant names == Names(args[..i])
        invariant topics == WithSubscriber(t0, c, names)
        invariant subscribed == old(conns)[c].subscribed + names
        invariant conns == old(conns) && nextConn == old(nextConn)
      {
        NamesStep(args, i);
        if args[i].Name? {
          var t := args[i].name;
          var subs := if t in topics then topics[t] else {};
          SubscribeStep(t0, c, names, t);
          topics := topics[t := subs + {c}];
          subscribed := subscribed + {t};
          names := names + {t};
        }
        i := i + 1;
      }
      assert args[..i] == args;
      conns := conns[c := conns[c].(subscribed := subscribed)];
      SubscribeConsistent(t0, old(conns), c, Names(args));
    }

    /** The `unsubscribe` arm: `subscribedTopics` is left as it is. */
    method UnsubscribeFrom(c: ConnId, args: seq<TopicArg>)
      requires Valid() && c in conns
      modifies this
      ensures Valid()
      ensures topics == WithoutSubscriber(old(topics), c, Names(args))
      ensures conns == old(conns) && nextConn == old(nextConn)
    {
      ghost var t0 := topics;
      ghost var names: set<TopicName> := {};
      assert args[..0] == [];
      assert WithoutSubscriber(t0, c, {}) == t0;
      var i := 0;
      while i < |args|
        invariant 0 <= i <= |args|
        invariant names == Names(args[..i])
        invariant topics == WithoutSubscriber(t0, c, names)
        invariant conns == old(conns) && nextConn == old(nextConn)
      {
        NamesStep(args, i);
        if args[i].Name? {
          var t := args[i].name;
          UnsubscribeStep(t0, c, names, t);
          if t in topics {
            topics := topics[t := topics[t] - {c}];
          }
          names := names + {t};
        }
        i := i + 1;
      }
      assert args[..i] == args;
      UnsubscribeConsistent(t0, conns, c, Names(args));
    }

    /**
     * The `message` handler. Nothing happens for an unparsable frame, a
     * frame without `type`, an unknown type or a closed connection. A
     * subscribe or unsubscribe whose `topics` is truthy but not an array has
     * no `forEach`: the handler throws before touching anything, and
     * `threw` reports it. `failing` names the connections whose write throws.
     */
    method OnMessage(c: ConnId, m: Message, failing: set<ConnId>) returns (threw: bool)
      requires Valid() && c in conns
      modifies this
      ensures Valid()
      ensures nextConn == old(nextConn)
      ensures threw <==> !old(conns[c].closed) && m.TopicsNotAList?
      ensures old(conns[c].closed) || m.Unparsable? || m.Untyped? || m.OtherType? || m.TopicsNotAList? ==>
                topics == old(topics) && conns == old(conns)
      ensures !old(conns[c].closed) && m.Subscribe? ==>
                topics == WithSubscriber(old(topics), c, Names(m.topics)) &&
                conns == old(conns)[c := old(conns)[c].(subscribed := old(conns)[c].subscribed + Names(m.topics))]
      ensures !old(conns[c].closed) && m.Unsubscribe? ==>
                topics == WithoutSubscriber(old(topics), c, Names(m.topics)) && conns == old(conns)
      ensures !old(conns[c].closed) && m.Publish? ==>
                topics == old(topics) &&
                conns == match PublishTopic(old(topics), m.topic)
                         case None => old(conns)
                         case Some(t) => Delivered(old(conns), old(topics)[t], Published(t, m.payload, |old(topics)[t]|), failing)
      ensures !old(conns[c].closed) && m.Ping? ==>
                topics == old(topics) && conns == old(conns)[c := AfterSend(old(conns)[c], Pong, c in failing)]
    {
      threw := false;
      if conns[c].closed {
        return;
      }
      match m {
        case Unparsable =>
        case Untyped =>
        case OtherType(_) =>
        case TopicsNotAList =>
          threw := true;
        case Subscribe(args) =>
          SubscribeTo(c, args);
        case Unsubscribe(args) =>
          UnsubscribeFrom(c, args);
        case Publish(topic, payload) =>
          var t := PublishTopic(topics, topic);
          if t.Some? {
            var receivers := topics[t.value];
            Deliver(receivers, Published(t.value, payload, |receivers|), failing);
            DeliveredConsistent(old(topics), old(conns), receivers, Published(t.value, payload, |receivers|), failing);
          }
        case Ping =>
          Send(c, Pong, c in failing);
          DeliveredConsistent(topics, old(conns), {c}, Pong, failing);
          assert conns == Delivered(old(conns), {c}, Pong, failing);
      }
    }

    /**
     * The `close` handler: the connection leaves every topic it subscribed
     * to, topics left empty are deleted, `subscribedTopics` is cleared and
     * the connection is marked closed.
     */
    method OnClose(c: ConnId)
      requires Valid() && c in conns
      modifies this
      ensures Valid()
      ensures topics == AfterClose(old(topics), c, old(conns)[c].subscribed)
      ensures conns == old(conns)[c := old(conns)[c].(subscribed := {}, closed := true, readyState := CLOSED)]
      ensures forall t :: t in topics ==> c !in topics[t]
      ensures nextConn == old(nextConn)
    {
      var all := conns[c].subscribed;
      var rest := all;
      assert AfterClose(old(topics), c, {}) == topics;
      while rest != {}
        invariant rest <= all
        invariant topics == AfterClose(old(topics), c, all - rest)
        invariant conns == old(conns) && nextConn == old(nextConn)
        decreases rest
      {
        var t :| t in rest;
        var subs := if t in topics then topics[t] else {};
        subs := subs - {c};
        if subs == {} {
          topics := topics - {t};
        } else {
          topics := topics[t := subs];
        }
        rest := rest - {t};
        assert topics == AfterClose(old(topics), c, all - rest);
      }
      assert all - rest == all;
      CloseConsistent(old(topics), old(conns), c);
      conns := conns[c := conns[c].(subscribed := {}, closed := true, readyState := CLOSED)];
    }

    /** One firing of connection `c`'s ping interval; `pingThrows` says whether `conn.ping()` throws. */
    method OnPingTick(c: ConnId, pingThrows: bool)
      requires Valid() && c in conns && conns[c].timerRunning
      modifies this
      ensures Valid()
      ensures conns == old(conns)[c := AfterPingTick(old(conns)[c], pingThrows)]
      ensures topics == old(topics) && nextConn == old(nextConn)
    {
      conns := conns[c := AfterPingTick(conns[c], pingThrows)];
    }

    /** A pong frame from connection `c`. */
    method OnPong(c: ConnId)
      requires Valid() && c in conns
      modifies this
      ensures Valid()
      ensures conns == old(conns)[c := old(conns)[c].(pongReceived := true)]
      ensures topics == old(topics) && nextConn == old(nextConn)
    {
      conns := conns[c := conns[c].(pongReceived := true)];
    }
  }
}
