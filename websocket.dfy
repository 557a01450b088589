/**
 * The connection registry of the event bus (src/EventBus/WebSocket.js): live
 * client connections by socket id, broadcast and unicast of JSON frames, the
 * per-connection handlers `wsHandler` installs, and the bridges between the
 * local bus, the Transport and the clients.
 *
 * The closures `wsHandler` installs on a connection are modelled by
 * `OnSocketMessage` and `OnSocketClose`, which take what the closures captured
 * (a `Binding`). Successful `socket.send` calls are recorded in `sent`; a
 * connection whose send throws is one in the `failing` parameter.
 */
module WebSocket {
  import opened Values
  import opened Numerals
  import opened Registry
  import Transport

  /** The local channel the default messages handler emits on. */
  const WEBSOCKET_HANDLER: string := "websocketHandler"

  /** What `messagesHandler` holds: nothing, the default handler, or a handler the application set. */
  datatype MessagesHandler = NoHandler | DefaultHandler | CustomHandler(tag: nat)

  /** The arguments of one messages-handler call: `(message, {...session, socket_id}, connection)`. */
  datatype HandlerCall = HandlerCall(message: Value, session: Value, conn: ConnId)

  /** What the closures of one `wsHandler` call captured. */
  datatype Binding = Binding(socketId: string, session: map<string, Value>, conn: ConnId)

  /**
   * `_id.toString()` for the kinds of `_id` the model covers; `None` where it
   * throws (`undefined`, `null`) and for arrays and objects, whose string form
   * is not modelled.
   */
  function IdText(id: Value): (t: Option<string>)
    ensures id.Str? ==> t == Some(id.s)
    ensures id.Undefined? || id.Null? ==> t.None?
  {
    match id
    case Str(s) => Some(s)
    case Num(n) => Some(Decimal(n))
    case Bool(b) => Some(if b then "true" else "false")
    case _ => None
  }

  /** `req.userdata || {_id: getRandomUID()}` */
  function SessionOf(userdata: Value, uid: string): (session: Value)
    ensures Truthy(userdata) ==> session == userdata
    ensures !Truthy(userdata) ==> Field(session, "_id") == Some(Str(uid))
  {
    if Truthy(userdata) then userdata else Obj(map["_id" := Str(uid)])
  }

  /** `session._id.toString() + getRandomUID()`, or `None` where that throws. */
  function SocketId(session: Value, suffix: string): (sid: Option<string>)
    ensures sid.Some? ==> session.Obj? && "_id" in session.fields
    ensures sid.Some? ==> IdText(session.fields["_id"]).Some?
    ensures sid.Some? ==> sid.value == IdText(session.fields["_id"]).value + suffix
  {
    var id := Field(session, "_id");
    if id.None? then None
    else
      var t := IdText(id.value);
      if t.None? then None else Some(t.value + suffix)
  }

  /** Two connections of the same session get different socket ids whenever their random suffixes differ. */
  lemma SocketIdsDiffer(session: Value, suffix1: string, suffix2: string)
    requires SocketId(session, suffix1).Some? && suffix1 != suffix2
    ensures SocketId(session, suffix2).Some? && SocketId(session, suffix1) != SocketId(session, suffix2)
  {
    var t := IdText(session.fields["_id"]).value;
    assert (t + suffix1)[|t|..] == suffix1;
    assert (t + suffix2)[|t|..] == suffix2;
  }

  /** An anonymous connection's socket id is its generated session id followed by the suffix. */
  lemma DefaultSessionHasId(uid: string, suffix: string)
    ensures SocketId(SessionOf(Null, uid), suffix) == Some(uid + suffix)
  {
  }

  class WebSocket {
    /** The bus's Transport (`EventBus.transport`). */
    const transport: Transport.Transport
    var connections: Table<string>
    var messagesHandler: MessagesHandler
    /** Every successful `socket.send`, in order. */
    ghost var sent: seq<Delivery<string>>
    /** Events the default handler emitted on the local channel `websocketHandler`. */
    ghost var localEvents: seq<HandlerCall>
    /** Calls of an application-set handler. */
    ghost var customCalls: seq<(nat, HandlerCall)>
    /** The channel of each local-bus listener `on` registered. */
    ghost var bridged: seq<string>

    ghost predicate Valid()
      reads this
    {
      WellFormed(connections)
    }

    constructor (transport: Transport.Transport)
      ensures Valid() && this.transport == transport
      ensures connections == Empty() && messagesHandler == DefaultHandler
      ensures sent == [] && localEvents == [] && customCalls == [] && bridged == []
    {
      this.transport := transport;
      connections := Empty();
      messagesHandler := DefaultHandler;
      sent := [];
      localEvents := [];
      customCalls := [];
      bridged := [];
    }

    /** The `messagesHandler` setter. */
    method SetMessagesHandler(h: MessagesHandler)
      requires Valid()
      modifies this`messagesHandler
      ensures Valid() && messagesHandler == h
    {
      messagesHandler := h;
    }

    /** `addConnection(id, connection)`: `map.set`; a second add under `id` replaces the first. */
    method AddConnection(id: string, conn: ConnId)
      requires Valid()
      modifies this`connections
      ensures Valid()
      ensures connections == Set(old(connections), id, conn)
      ensures connections.entries == old(connections.entries)[id := conn]
    {
      connections := Set(connections, id, conn);
    }

    /** `removeConnection(id)`: `map.delete`, reporting whether `id` was present. */
    method RemoveConnection(id: string) returns (existed: bool)
      requires Valid()
      modifies this`connections
      ensures Valid()
      ensures existed <==> id in old(connections.entries)
      ensures connections.entries == old(connections.entries) - {id}
      ensures connections.order == Without(old(connections.order), id)
    {
      var r := Delete(connections, id);
      connections := r.0;
      existed := r.1;
    }

    /**
     * `send(message)`: nothing for a falsy message; otherwise the JSON of the
     * message goes to every registered connection in insertion order, a
     * throwing socket being skipped without stopping the others.
     */
    method Send(message: Value, failing: set<ConnId>)
      requires Valid()
      modifies this`sent
      ensures Valid()
      ensures sent == old(sent) +
        (if Truthy(message) then Broadcast(connections.order, connections.entries, failing, Json(message)) else [])
    {
      if Truthy(message) {
        var frame := Json(message);
        var keys := connections.order;
        var i := 0;
        while i < |keys|
          invariant 0 <= i <= |keys|
          invariant sent == old(sent) + Broadcast(keys[..i], connections.entries, failing, frame)
        {
          var conn := connections.entries[keys[i]];
          assert keys[..i + 1][..i] == keys[..i];
          if conn !in failing {
            sent := sent + [Delivery(keys[i], conn, frame)];
          }
          i := i + 1;
        }
        assert keys[..i] == keys;
      }
    }

    /** `sendTo(id, message)`: only the connection under `id`, and nothing for an absent id or a falsy message. */
    method SendTo(id: string, message: Value, failing: set<ConnId>)
      requires Valid()
      modifies this`sent
      ensures Valid()
      ensures sent == old(sent) +
        (if Truthy(message) && id in connections.entries && connections.entries[id] !in failing
         then [Delivery(id, connections.entries[id], Json(message))] else [])
    {
      if Truthy(message) && id in connections.entries {
        var conn := connections.entries[id];
        if conn !in failing {
          sent := sent + [Delivery(id, conn, Json(message))];
        }
      }
    }

    /**
     * `wsHandler(connection, req)`: derives the session and the socket id
     * (session id plus a random suffix) and registers the connection under it,
     * last in iteration order. `None` when reading the session id throws.
     */
    method WsHandler(conn: ConnId, userdata: Value, uid: string, suffix: string) returns (b: Option<Binding>)
      requires Valid()
      modifies this`connections
      ensures Valid()
      ensures b.None? <==> SocketId(SessionOf(userdata, uid), suffix).None?
      ensures b.None? ==> connections == old(connections)
      ensures b.Some? ==>
        && b.value.socketId == SocketId(SessionOf(userdata, uid), suffix).value
        && Obj(b.value.session) == SessionOf(userdata, uid)
        && b.value.conn == conn
        && connections.entries == old(connections.entries)[b.value.socketId := conn]
        && connections.order == Without(old(connections.order), b.value.socketId) + [b.value.socketId]
    {
      var session := SessionOf(userdata, uid);
      var sid := SocketId(session, suffix);
      if sid.None? {
        return None;
      }
      var _ := RemoveConnection(sid.value);
      AddConnection(sid.value, conn);
      return Some(Binding(sid.value, session.fields, conn));
    }

    /**
     * The message closure of a connection: an undecodable frame (`None`) or one
     * whose `type` cannot be read is dropped; `ping` is answered with a pong on
     * that connection only; anything else goes to the messages handler with the
     * session extended by `socket_id`.
     */
    method OnSocketMessage(b: Binding, frame: Option<Value>, failing: set<ConnId>)
      requires Valid()
      modifies this`sent, this`localEvents, this`customCalls
      ensures Valid()
      ensures frame.None? || Field(frame.value, "type").None? ==>
        sent == old(sent) && localEvents == old(localEvents) && customCalls == old(customCalls)
      ensures frame.Some? && HasType(frame.value, "ping") ==>
        && sent == old(sent) + (if b.conn in failing then [] else [Delivery(b.socketId, b.conn, PongFrame())])
        && localEvents == old(localEvents) && customCalls == old(customCalls)
      ensures frame.Some? && Field(frame.value, "type").Some? && !HasType(frame.value, "ping") ==>
        var call := HandlerCall(frame.value, Obj(b.session["socket_id" := Str(b.socketId)]), b.conn);
        && sent == old(sent)
        && localEvents == old(localEvents) + (if messagesHandler == DefaultHandler then [call] else [])
        && customCalls == old(customCalls) +
          (if messagesHandler.CustomHandler? then [(messagesHandler.tag, call)] else [])
    {
      if frame.None? {
        return;
      }
      var message := frame.value;
      var t := Field(message, "type");
      if t.None? {
        return;
      }
      if t.value == Str("ping") {
        if b.conn !in failing {
          sent := sent + [Delivery(b.socketId, b.conn, PongFrame())];
        }
      } else {
        var call := HandlerCall(message, Obj(b.session["socket_id" := Str(b.socketId)]), b.conn);
        match messagesHandler
        case NoHandler =>
        case DefaultHandler =>
          localEvents := localEvents + [call];
        case CustomHandler(tag) =>
          customCalls := customCalls + [(tag, call)];
      }
    }

    /** The close closure of a connection: removes exactly its socket id. */
    method OnSocketClose(b: Binding)
      requires Valid()
      modifies this`connections
      ensures Valid()
      ensures connections.entries == old(connections.entries) - {b.socketId}
      ensures connections.order == Without(old(connections.order), b.socketId)
    {
      var _ := RemoveConnection(b.socketId);
    }

    /** `on(channel)`: registers a local-bus listener on `channel`. */
    method On(channel: string)
      requires Valid()
      modifies this`bridged
      ensures Valid() && bridged == old(bridged) + [channel]
    {
      bridged := bridged + [channel];
    }

    /**
     * The local-bus listener `on` registered: broadcasts the event to the
     * clients, then hands it to `transport.send` for the other processes.
     */
    method OnLocalEvent(channel: string, message: Value, failing: set<ConnId>)
      requires Valid() && transport.Valid()
      requires transport.initialized ==> transport.ready
      modifies this`sent, transport`requestId, transport`published
      ensures Valid() && transport.Valid()
      ensures sent == old(sent) +
        (if Truthy(message) then Broadcast(connections.order, connections.entries, failing, Json(message)) else [])
      ensures transport.published == old(transport.published) +
        (if transport.initialized
         then [Transport.MakeEnvelope(channel, old(transport.requestId) + 1, message, transport.Info())]
         else [])
    {
      Send(message, failing);
      var _ := transport.Send(channel, message);
    }

    /**
     * `registerDuplexEvents(channel)`: the local bridge of `on`, plus a
     * Transport listener on `channel`; the Transport throws (after the local
     * bridge is in place) when it has no subscriber.
     */
    method RegisterDuplexEvents(channel: string) returns (r: Transport.Outcome)
      requires Valid() && transport.Valid()
      modifies this`bridged, transport`listeners, transport`subscribed
      ensures Valid() && transport.Valid()
      ensures bridged == old(bridged) + [channel]
      ensures r == Transport.NotInitialized <==> !transport.initialized
      ensures r == Transport.Done ==>
        transport.listeners == old(transport.listeners) + [channel] &&
        transport.subscribed == old(transport.subscribed) + {channel}
      ensures r == Transport.NotInitialized ==>
        transport.listeners == old(transport.listeners) &&
        transport.subscribed == old(transport.subscribed)
    {
      On(channel);
      r := transport.On(channel);
    }

    /** The Transport listener of `registerDuplexEvents`: a message from another process only goes to the clients. */
    method OnTransportMessage(message: Value, failing: set<ConnId>)
      requires Valid()
      modifies this`sent
      ensures Valid()
      ensures sent == old(sent) +
        (if Truthy(message) then Broadcast(connections.order, connections.entries, failing, Json(message)) else [])
    {
      Send(message, failing);
    }
  }
}
