/**
 * The PM2 cluster bridge of Pm2Events.js: client connections keyed by the
 * authenticated user's `_id`, broadcast and unicast of stringified payloads,
 * the per-connection `ping` handler, and the bridge between the local bus and
 * Redis (one RedisEvents instance whose id is `[mac, address, name]`).
 *
 * Differences from the code as written are listed under Findings in the
 * README: the connection's close handler here only removes its own entry, and
 * `removeEventListener` also removes the local bridge.
 */
module Pm2Events {
  import opened Values
  import opened Numerals
  import opened Registry
  import Process
  import RedisEvents

  /** The tag of the callback the constructor passes to `onMessage`. */
  const PM2_CALLBACK: nat := 0

  /**
   * `stringify(payload)`: a plain object or an array is JSON-encoded, any other
   * value passed through; reading `constructor` of `null` or `undefined` throws.
   */
  function Stringify(v: Value): (f: Option<Frame>)
    ensures f.None? <==> v.Null? || v.Undefined?
    ensures f.Some? ==> f.value.value == v
    ensures f.Some? ==> (f.value.Json? <==> IsStructured(v))
  {
    if v.Null? || v.Undefined? then None
    else if IsStructured(v) then Some(Json(v))
    else Some(Raw(v))
  }

  /** Every payload `sendSocketMessage` accepts can be stringified. */
  lemma TruthyStringifies(v: Value)
    requires Truthy(v)
    ensures Stringify(v).Some?
  {
  }

  /** `process.env.name || 'unrealName' + pm2_process_id`, with `pm2_process_id = Number(process.env.pm_id || unrealId)`. */
  function ProcessName(envName: string, envPmId: Option<int>, unrealId: int): (name: string)
    ensures envName != "" ==> name == envName
    ensures envName == "" ==> name == "unrealName" + Decimal(envPmId.GetOr(unrealId))
  {
    if envName != "" then envName else "unrealName" + Decimal(envPmId.GetOr(unrealId))
  }

  /** `[interface.mac, interface.address, pm2_process_name].toString()`; `{}` contributes empty fields. */
  function OriginatorId(iface: Option<Process.Interface>, processName: string): (id: string)
  {
    var mac := if iface.Some? then Some(iface.value.mac) else None;
    var address := if iface.Some? then Some(iface.value.address) else None;
    Process.CommaJoin([Process.OrEmpty(mac), Process.OrEmpty(address), processName])
  }

  /** The originator id is the three parts separated by commas. */
  lemma OriginatorIdParts(iface: Option<Process.Interface>, processName: string)
    ensures iface.Some? ==> OriginatorId(iface, processName) == iface.value.mac + "," + iface.value.address + "," + processName
    ensures iface.None? ==> OriginatorId(iface, processName) == ",," + processName
  {
    var parts := [Process.OrEmpty(if iface.Some? then Some(iface.value.mac) else None),
                  Process.OrEmpty(if iface.Some? then Some(iface.value.address) else None), processName];
    assert parts[..2][..1] == [parts[0]];
    assert Process.CommaJoin(parts[..2]) == parts[0] + "," + parts[1];
  }

  /**
   * The PM2 instance id is not part of the originator id: two instances of one
   * application on one host, which share the interface and the process name,
   * drop each other's publications as their own.
   */
  lemma SameNameInstancesShareOriginator(iface: Option<Process.Interface>, envName: string,
                                         pmId1: int, pmId2: int, unrealId: int, fields: map<string, Value>)
    requires envName != ""
    ensures var id1 := OriginatorId(iface, ProcessName(envName, Some(pmId1), unrealId));
            var id2 := OriginatorId(iface, ProcessName(envName, Some(pmId2), unrealId));
            id1 == id2 && RedisEvents.FromOther(RedisEvents.Stamp(fields, id1), id2) == Some(false)
  {
  }

  /**
   * The originator id with the pm2 instance number as a fourth part,
   * `[mac, address, name, pm2_process_id]`: the corrected id this model's
   * `Pm2Events` uses.
   */
  function InstanceOriginatorId(iface: Option<Process.Interface>, processName: string, pmId: int): (id: string)
    ensures id == OriginatorId(iface, processName) + "," + Decimal(pmId)
  {
    var mac := if iface.Some? then Some(iface.value.mac) else None;
    var address := if iface.Some? then Some(iface.value.address) else None;
    var parts := [Process.OrEmpty(mac), Process.OrEmpty(address), processName, Decimal(pmId)];
    assert parts[..3] == [Process.OrEmpty(mac), Process.OrEmpty(address), processName];
    Process.CommaJoin(parts)
  }

  /** With the instance number in the id, two instances of one application on one host hear each other. */
  lemma InstancesHaveDistinctOriginators(iface: Option<Process.Interface>, processName: string,
                                         pmId1: int, pmId2: int, fields: map<string, Value>)
    requires pmId1 != pmId2
    ensures var id1 := InstanceOriginatorId(iface, processName, pmId1);
            var id2 := InstanceOriginatorId(iface, processName, pmId2);
            id1 != id2 && RedisEvents.FromOther(RedisEvents.Stamp(fields, id1), id2) == Some(true)
  {
    var p := OriginatorId(iface, processName) + ",";
    var id1 := InstanceOriginatorId(iface, processName, pmId1);
    var id2 := InstanceOriginatorId(iface, processName, pmId2);
    DecimalInjective(pmId1, pmId2);
    assert id1 == p + Decimal(pmId1) && id2 == p + Decimal(pmId2);
    assert id1[|p|..] == Decimal(pmId1) && id2[|p|..] == Decimal(pmId2);
  }

  /** What a connection's closures captured: the `_id` it was registered under and the connection. */
  datatype Binding = Binding(key: Value, conn: ConnId)

  /** `removeConnection(_id); addConnection(_id, connection)` of `wsHandler`. */
  function Reconnect(t: Table<Value>, key: Value, conn: ConnId): (r: Table<Value>)
    requires WellFormed(t)
    ensures WellFormed(r)
    ensures r.entries == t.entries[key := conn]
    ensures r.order == Without(t.order, key) + [key]
  {
    var d := Delete(t, key).0;
    assert key !in d.entries;
    Set(d, key, conn)
  }

  /** The close handler as written: `removeConnection(authData._id)`, whichever connection holds the `_id` now. */
  function CloseAsWritten(t: Table<Value>, b: Binding): (r: Table<Value>)
    requires WellFormed(t)
    ensures WellFormed(r) && r.entries == t.entries - {b.key}
  {
    Delete(t, b.key).0
  }

  /** A stale close: after a reconnect under the same `_id`, the old connection's close drops the live one. */
  lemma StaleCloseDropsLiveConnection()
    ensures var key := Str("user");
            var t := Reconnect(Reconnect(Empty(), key, 1), key, 2);
            t.entries[key] == 2 && key !in CloseAsWritten(t, Binding(key, 1)).entries
  {
  }

  /** The close handler this model uses: the entry goes only if it still holds the closing connection. */
  function CloseGuarded(t: Table<Value>, b: Binding): (r: Table<Value>)
    requires WellFormed(t)
    ensures WellFormed(r)
    ensures forall k :: k in r.entries <==> k in t.entries && !(k == b.key && t.entries[k] == b.conn)
    ensures forall k :: k in r.entries ==> r.entries[k] == t.entries[k]
  {
    if b.key in t.entries && t.entries[b.key] == b.conn then Delete(t, b.key).0 else t
  }

  /**
   * With the guard, a close removes its own connection and nothing else: after
   * a reconnect under the same `_id`, the old connection's close keeps the new
   * entry, and the new connection's close removes it.
   */
  lemma {:induction false} GuardedCloseAfterReconnect(t: Table<Value>, key: Value, c1: ConnId, c2: ConnId)
    requires WellFormed(t) && c1 != c2
    ensures var t2 := Reconnect(Reconnect(t, key, c1), key, c2);
            && CloseGuarded(t2, Binding(key, c1)) == t2
            && key !in CloseGuarded(t2, Binding(key, c2)).entries
  {
    var t2 := Reconnect(Reconnect(t, key, c1), key, c2);
    assert t2.entries[key] == c2;
  }

  /** Subscribed channels and local-bus bridges agree: one bridge per subscribed channel. */
  ghost predicate BridgesMatch(channels: set<string>, bridges: seq<string>) {
    Distinct(bridges) && forall c :: c in bridges <==> c in channels
  }

  /** `addEventListener(channel)`: a bridge is installed exactly when `subscribe` reports the channel new. */
  function AddListener(channels: set<string>, bridges: seq<string>, channel: string): (r: (set<string>, seq<string>))
    ensures r.0 == channels + {channel}
    ensures channel in channels ==> r == (channels, bridges)
    ensures channel !in channels ==> r.1 == bridges + [channel]
  {
    if channel in channels then (channels, bridges) else (channels + {channel}, bridges + [channel])
  }

  /** A second `addEventListener` on the same channel changes nothing. */
  lemma AddListenerIdempotent(channels: set<string>, bridges: seq<string>, channel: string)
    ensures var r := AddListener(channels, bridges, channel);
      AddListener(r.0, r.1, channel) == r
  {
  }

  /** `removeEventListener(channel)` as written: only the Redis subscription goes; the bridge stays. */
  function RemoveListenerAsWritten(channels: set<string>, bridges: seq<string>, channel: string): (r: (set<string>, seq<string>))
    ensures r.0 == channels - {channel} && r.1 == bridges
  {
    (channels - {channel}, bridges)
  }

  /** Add, remove and add again leaves two bridges on the channel: each local event is sent and published twice. */
  lemma ReAddDuplicatesBridge()
    ensures var s1 := AddListener({}, [], "news");
            var s2 := RemoveListenerAsWritten(s1.0, s1.1, "news");
            AddListener(s2.0, s2.1, "news").1 == ["news", "news"]
  {
  }

  /** The `removeEventListener` this model uses: the subscription and the bridge go together. */
  function RemoveListener(channels: set<string>, bridges: seq<string>, channel: string): (r: (set<string>, seq<string>))
    ensures r.0 == channels - {channel}
    ensures forall c :: c in r.1 <==> c in bridges && c != channel
  {
    (channels - {channel}, Without(bridges, channel))
  }

  /** Adding keeps one bridge per subscribed channel, so repeated adds never duplicate a bridge. */
  lemma AddListenerKeepsBridges(channels: set<string>, bridges: seq<string>, channel: string)
    requires BridgesMatch(channels, bridges)
    ensures var r := AddListener(channels, bridges, channel); BridgesMatch(r.0, r.1)
  {
  }

  /** Removing with the bridge keeps one bridge per subscribed channel. */
  lemma RemoveListenerKeepsBridges(channels: set<string>, bridges: seq<string>, channel: string)
    requires BridgesMatch(channels, bridges)
    ensures var r := RemoveListener(channels, bridges, channel); BridgesMatch(r.0, r.1)
  {
    WithoutDistinct(bridges, channel);
  }

  class Pm2Events {
    const redis: RedisEvents.RedisEvents
    /** The interface `#_interface` selected; `None` stands for `{}`. */
    const iface: Option<Process.Interface>
    const processName: string
    /** `pm2_process_id`, the pm2 instance number. */
    const pmId: int
    var connections: Table<Value>
    /** Every successful `socket.send`, in order. */
    ghost var sent: seq<Delivery<Value>>
    /** The channel of each local-bus listener `addEventListener` installed. */
    ghost var bridged: seq<string>

    ghost predicate Valid()
      reads this, redis
    {
      && WellFormed(connections)
      && BridgesMatch(redis.channels, bridged)
      && redis.callback == Some(PM2_CALLBACK)
      && redis.originatorId == InstanceOriginatorId(iface, processName, pmId)
    }

    /**
     * `new Pm2Events(options)`: selects the interface from the host's table,
     * derives the process name and the originator id, and installs the Redis
     * callback.
     */
    constructor (table: Process.InterfaceTable, envName: string, envPmId: Option<int>, unrealId: int)
      ensures Valid() && fresh(redis)
      ensures iface == Process.FirstUsable(Process.Entries(table))
      ensures processName == ProcessName(envName, envPmId, unrealId) && pmId == envPmId.GetOr(unrealId)
      ensures connections == Empty() && sent == [] && bridged == []
      ensures redis.channels == {} && !redis.publisherReady
    {
      var selected := Process.SelectInterface(table);
      var name := ProcessName(envName, envPmId, unrealId);
      iface := selected;
      processName := name;
      pmId := envPmId.GetOr(unrealId);
      redis := new RedisEvents.RedisEvents(InstanceOriginatorId(selected, name, envPmId.GetOr(unrealId)));
      connections := Empty();
      sent := [];
      bridged := [];
      new;
      redis.OnMessage(PM2_CALLBACK);
    }

    /** `addConnection(id, connection)`: a second add under `id` replaces the first. */
    method AddConnection(id: Value, conn: ConnId)
      requires Valid()
      modifies this`connections
      ensures Valid()
      ensures connections == Set(old(connections), id, conn)
      ensures connections.entries == old(connections.entries)[id := conn]
    {
      connections := Set(connections, id, conn);
    }

    /** `removeConnection(id)`: reports whether `id` was present. */
    method RemoveConnection(id: Value) returns (existed: bool)
      requires Valid()
      modifies this`connections
      ensures Valid()
      ensures existed <==> id in old(connections.entries)
      ensures connections.entries == old(connections.entries) - {id}
      ensures connections.order == Without(old(connections.order), id)
    {
      var r := Delete(connections, id);
      connections := r.0;
      existed := r.1;
    }

    /**
     * `sendSocketMessage(payload)`: nothing for a falsy payload; otherwise the
     * stringified payload goes to every connection in insertion order, a
     * throwing socket being skipped.
     */
    method SendSocketMessage(payload: Value, failing: set<ConnId>)
      requires Valid()
      modifies this`sent
      ensures Valid()
      ensures !Truthy(payload) ==> sent == old(sent)
      ensures Truthy(payload) ==>
        sent == old(sent) + Broadcast(connections.order, connections.entries, failing, Stringify(payload).value)
    {
      if Truthy(payload) {
        var frame := Stringify(payload).value;
        var keys := connections.order;
        var i := 0;
        while i < |keys|
          invariant 0 <= i <= |keys|
          invariant sent == old(sent) + Broadcast(keys[..i], connections.entries, failing, frame)
        {
          var conn := connections.entries[keys[i]];
          assert keys[..i + 1][..i] == keys[..i];
          if conn !in failing {
            sent := sent + [Delivery(keys[i], conn, frame)];
          }
          i := i + 1;
        }
        assert keys[..i] == keys;
      }
    }

    /** `sendMessage(id, payload)`: only the connection under `id`; nothing for an absent id or a falsy payload. */
    method SendMessage(id: Value, payload: Value, failing: set<ConnId>)
      requires Valid()
      modifies this`sent
      ensures Valid()
      ensures !(Truthy(payload) && id in connections.entries && connections.entries[id] !in failing) ==>
        sent == old(sent)
      ensures Truthy(payload) && id in connections.entries && connections.entries[id] !in failing ==>
        sent == old(sent) + [Delivery(id, connections.entries[id], Stringify(payload).value)]
    {
      if Truthy(payload) && id in connections.entries {
        var conn := connections.entries[id];
        if conn !in failing {
          sent := sent + [Delivery(id, conn, Stringify(payload).value)];
        }
      }
    }

    /**
     * `wsHandler(connection, req)` with `req.userdata` as `authData`: replaces
     * any entry under `authData._id` by this connection. `None`, with nothing
     * changed, when reading `_id` throws.
     */
    method WsHandler(conn: ConnId, authData: Value) returns (b: Option<Binding>)
      requires Valid()
      modifies this`connections
      ensures Valid()
      ensures b.None? <==> Field(authData, "_id").None?
      ensures b.None? ==> connections == old(connections)
      ensures b.Some? ==>
        && b.value == Binding(Field(authData, "_id").value, conn)
        && connections == Reconnect(old(connections), b.value.key, conn)
    {
      var id := Field(authData, "_id");
      if id.None? {
        return None;
      }
      var _ := RemoveConnection(id.value);
      AddConnection(id.value, conn);
      return Some(Binding(id.value, conn));
    }

    /** The message closure: a `ping` is answered on that connection; anything else, or an undecodable frame, is dropped. */
    method OnSocketMessage(b: Binding, frame: Option<Value>, failing: set<ConnId>)
      requires Valid()
      modifies this`sent
      ensures Valid()
      ensures frame.Some? && HasType(frame.value, "ping") && b.conn !in failing ==>
        sent == old(sent) + [Delivery(b.key, b.conn, PongFrame())]
      ensures !(frame.Some? && HasType(frame.value, "ping") && b.conn !in failing) ==> sent == old(sent)
    {
      if frame.Some? && HasType(frame.value, "ping") && b.conn !in failing {
        sent := sent + [Delivery(b.key, b.conn, PongFrame())];
      }
    }

    /** The close closure: removes the entry under the connection's `_id` if it still holds this connection. */
    method OnSocketClose(b: Binding)
      requires Valid()
      modifies this`connections
      ensures Valid()
      ensures connections == CloseGuarded(old(connections), b)
    {
      connections := CloseGuarded(connections, b);
    }

    /** `addEventListener(channel)`: subscribes, and installs the local bridge only for a new channel. */
    method AddEventListener(channel: string)
      requires Valid()
      modifies this`bridged, redis`channels, redis`commands
      ensures Valid()
      ensures (redis.channels, bridged) == AddListener(old(redis.channels), old(bridged), channel)
    {
      AddListenerKeepsBridges(redis.channels, bridged, channel);
      var added := redis.Subscribe(channel);
      if added {
        bridged := bridged + [channel];
      }
    }

    /** `removeEventListener(channel)`, with the local bridge removed along with the subscription. */
    method RemoveEventListener(channel: string)
      requires Valid()
      modifies this`bridged, redis`channels, redis`commands
      ensures Valid()
      ensures (redis.channels, bridged) == RemoveListener(old(redis.channels), old(bridged), channel)
    {
      RemoveListenerKeepsBridges(redis.channels, bridged, channel);
      redis.Unsubscribe(channel);
      bridged := Without(bridged, channel);
    }

    /**
     * The local-bus bridge of `addEventListener`: the event goes to the
     * clients, then to Redis for the other instances (`publish` throwing, if
     * it does, after the clients have it).
     */
    method OnLocalEvent(channel: string, message: Value, failing: set<ConnId>) returns (r: RedisEvents.PublishOutcome)
      requires Valid()
      modifies this`sent, redis`published
      ensures Valid()
      ensures !Truthy(message) ==> sent == old(sent)
      ensures Truthy(message) ==>
        sent == old(sent) + Broadcast(connections.order, connections.entries, failing, Stringify(message).value)
      ensures r == RedisEvents.NotAnObject <==> !message.Obj?
      ensures r == RedisEvents.Published ==>
        redis.published == old(redis.published) + [RedisEvents.Publication(channel, RedisEvents.Stamp(message.fields, redis.originatorId))]
      ensures r != RedisEvents.Published ==> redis.published == old(redis.published)
    {
      SendSocketMessage(message, failing);
      r := redis.Publish(channel, message);
    }

    /** The Redis callback of the constructor: a message from another instance goes to this instance's clients only. */
    method OnRedisMessage(channel: string, payload: Option<Value>, failing: set<ConnId>)
      requires Valid()
      modifies this`sent
      ensures Valid()
      ensures var d := redis.Deliver(channel, payload);
        && (d.None? || !Truthy(d.value.1) ==> sent == old(sent))
        && (d.Some? && Truthy(d.value.1) ==>
              sent == old(sent) + Broadcast(connections.order, connections.entries, failing, Stringify(d.value.1).value))
    {
      var d := redis.Deliver(channel, payload);
      if d.Some? {
        SendSocketMessage(d.value.1, failing);
      }
    }
  }
}
