# node-pm2-events in Dafny

A model of the core of `node-pm2-events`, a cross-process event bus for Node.js.
Processes exchange named events over a Redis-like pub/sub provider. Each process
filters out its own traffic and elects an advisory primary through a small
handshake. Connection registries bridge the local bus, the provider and the
connected WebSocket clients.

The model is written per source file.

- `transport.dfy` (module `Transport`) covers src/EventBus/Transport.js.
  - A `Transport` class holds the clients' existence, publisher readiness, the
    exclusion policy, the request counter, the primary flag and a ghost outbox
    of published envelopes.
  - The receive-side filter is a predicate (`Accepts`). The handshake reaction is
    a function (`React`); folding it over a message sequence gives `PrimaryAfter`.
  - `net.isIPv4` is written out as the dotted-quad rule (`IsIPv4`).
  - `IsReady`, `IsSameId` and `IsSameProcessName` are the getters and predicates
    of the same names.
- `numerals.dfy` (module `Numerals`) holds `Number(n).toString(16)` with its
  decoding, and the decimal rendering of integers.
- `registry.dfy` (module `Registry`) is the insertion-ordered key → connection
  `Map` that both registries keep. It has JavaScript `Map` semantics for `set`,
  `delete` and iteration. It also holds `Broadcast`, the deliveries of one
  broadcast loop, and the pong reply.
- `websocket.dfy` (module `WebSocket`) covers src/EventBus/WebSocket.js.
  Successful socket writes go to a ghost `sent` log. A socket whose write throws
  is one listed in the `failing` parameter. The closures installed by
  `wsHandler` are methods that take what they captured (a `Binding`).
- `redis_events.dfy` (module `RedisEvents`) covers RedisEvents.js: the channel
  set, the publish guard, originator stamping and self-filtering.
- `pm2_events.dfy` (module `Pm2Events`) covers Pm2Events.js: the `_id`-keyed
  registry, `stringify`, and the local-bus ⇄ Redis bridge. Three defects are
  recorded under Findings, and the class follows their corrections.
- `event_emitter.dfy` (module `EventEmitter`) covers src/EventBus/EventEmitter.js:
  per-event listener lists, once-handlers, limits and one-shot warnings. `Emit`
  is a loop proved against the function `Dispatch`.
- `process.dfy` (module `Process`) covers the pure pieces of src/EventBus/Process.js:
  - interface selection, a nested loop with early return proved against
    `FirstUsable`;
  - the hex-only id;
  - post-processing of the `pm2 id` output;
  - `masterProcessId` as an optional minimum (`Math.min()` of nothing is
    `Infinity`, here `None`);
  - `isPm2Primary`;
  - the order in which the class's static fields are initialised, which
    holds the fourth defect under Findings.
- `values.dfy` (module `Values`) holds the JSON-like payload type, JavaScript
  truthiness, and property reads that throw on `null`/`undefined`.

Where the source reads external state (interfaces, environment, `pm2 id` output,
random suffixes, clocks), the model takes that state as a parameter.

## Model

| member | source | states |
|---|---|---|
| Numerals.Hex | src/EventBus/Transport.js:301 | `Number(n).toString(16)`: the base-16 digits of `n`, most significant first. Its properties are the three lemmas below. |
| Numerals.HexWellFormed | src/EventBus/Transport.js:301 | `toString(16)` of a counter is non-empty and all lowercase hex digits. It has no leading zero unless it is `0`. |
| Numerals.HexRoundTrip | src/EventBus/Transport.js:301 | Reading the hex id back gives the counter value. |
| Numerals.HexInjective | src/EventBus/Transport.js:301 | Two counter values have equal hex ids iff they are equal. |
| Numerals.Decimal | src/EventBus/Process.js:28-29 | `String(n)` is non-empty decimal digits, with a leading `-` exactly for negative `n`. |
| Numerals.DecimalRoundTrip | src/EventBus/Process.js:28-29 | Reading the digits back gives `n`, after the `-` when `n` is negative. |
| Numerals.DecimalInjective | src/EventBus/Process.js:28-29 | Two integers have equal decimal text iff they are equal. |
| Values.Truthy | src/EventBus/WebSocket.js:74 | A value is falsy iff it is `undefined`, `null`, `false`, `0` or `""`. |
| Values.TypeMessage | src/EventBus/Transport.js:183 | `{type: v}` is an object whose `type` reads back as `v`. |
| Transport.MakeEnvelope | src/EventBus/Transport.js:299-304 | The envelope carries the given channel, the message unchanged as `data`, and the sender snapshot. Its id decodes to the pre-incremented counter. |
| Transport.Accepts | src/EventBus/Transport.js:276-281 | The `on` filter: a delivered message came on the listened channel and not from this process. `AcceptsExactly` gives all four conditions. |
| Transport.AcceptsExactly | src/EventBus/Transport.js:276-283 | The callback fires iff all four hold: same channel, a different sender id, an equal process name unless filtering is off, and an address not excluded. |
| Transport.OwnEnvelopeNeverAccepted | src/EventBus/Transport.js:278 | An envelope built with this process's own info is never delivered to it, whatever the policy. |
| Transport.PeerEnvelopeAccepted | src/EventBus/Transport.js:276-283 | Another process's envelope passing the policy is delivered, with the original data. |
| Transport.NameFilterMonotone | src/EventBus/Transport.js:279 | With name filtering on, exactly the messages accepted with it off and from the same process name get through. |
| Transport.ExcludeAddressEffect | src/EventBus/Transport.js:280 | Excluding one more address drops exactly the messages from that address. |
| Transport.IsIPv4 | src/EventBus/Transport.js:251 | `net.isIPv4` as the dotted-quad rule: four dot-separated decimal octets 0–255 without leading zeros. `NoDotNotIPv4` is proved about it. |
| Transport.NoDotNotIPv4 | src/EventBus/Transport.js:251 | A string without dots is never a valid IPv4 address, so `addIgnoredIPAddress` ignores it. |
| Transport.React | src/EventBus/Transport.js:195-198 | `im` sets the flag to whether the announcer is this process and always notifies. A `bye` from another id re-announces only when ready. Nothing else changes the flag. |
| Transport.ReadyIrrelevantToFlag | src/EventBus/Transport.js:197-198 | Readiness affects only re-announcing, never the primary flag. |
| Transport.PrimaryAfter | src/EventBus/Transport.js:193-198 | The flag after the handshake handler has reacted, by `React`, to each envelope of a sequence in turn. `LastAnnouncerWins` states what it equals. |
| Transport.LastAnnouncerWins | src/EventBus/Transport.js:197 | After any message sequence, the flag says whether the last `im` came from this process. With no `im`, the flag keeps its initial value. |
| Transport.ExactlyOnePrimary | src/EventBus/Transport.js:118-119 | Processes with distinct ids that saw the same stream agree that exactly the last announcer is primary. |
| Transport.PublishedIdsDistinct | src/EventBus/Transport.js:37 | Successive ids are the hex encodings of 2, 3, 4, … and pairwise distinct. |
| Transport.Transport.Info | src/EventBus/Transport.js:69-76 | `processInfo` carries the local id, name and pid, and the selected interface's address and mac (neither when none was selected). |
| Transport.Transport.constructor | src/EventBus/Transport.js:34-37 | Defaults: not initialized, counter 1, primary, name filtering on, nothing excluded or published. |
| Transport.Transport.Initialize | src/EventBus/Transport.js:149-157 | Creates the clients only when none exist. A second call changes nothing. |
| Transport.Transport.IsReady | src/EventBus/Transport.js:45-47 | `isReady`: the publisher exists and reports `ready`. |
| Transport.Transport.IsSameId | src/EventBus/Transport.js:163 | `isSameId`: the id is this process's own. |
| Transport.Transport.IsSameProcessName | src/EventBus/Transport.js:169 | `isSameProcessName`: the name is this process's own. |
| Transport.Transport.PublisherStatus | src/EventBus/Transport.js:45-47 | The publisher's readiness now equals the reported status. |
| Transport.Transport.FilterByProcessName | src/EventBus/Transport.js:239-242 | Stores the truthiness of `v` and leaves the exclusions alone. |
| Transport.Transport.AddIgnoredIPAddress | src/EventBus/Transport.js:250-254 | Adds `ip` iff it is a valid IPv4 string. The set never shrinks. |
| Transport.Transport.Off | src/EventBus/Transport.js:260-264 | Unsubscribes when initialized; otherwise it is a silent no-op. |
| Transport.Transport.On | src/EventBus/Transport.js:271-289 | Throws (`NotInitialized`) iff there is no subscriber, changing nothing. Otherwise it appends the listener and subscribes the channel. |
| Transport.Transport.OnMessage | src/EventBus/Transport.js:273-287 | The listener's callback receives `(ch, data)` iff the body decodes and `Accepts` holds; otherwise nothing happens. |
| Transport.Transport.Send | src/EventBus/Transport.js:296-307 | Throws iff there is no publisher. Otherwise it pre-increments the counter and publishes exactly the envelope with that id. |
| Transport.Transport.SendHandshake | src/EventBus/Transport.js:183 | Publishes `{type}` on the handshake channel only when ready. |
| Transport.Transport.Handshakes | src/EventBus/Transport.js:191-206 | Registers the handshake handler, subscribes to the handshake channel and announces `im`. Without clients it throws. |
| Transport.Transport.OnHandshakeMessage | src/EventBus/Transport.js:193-202 | Other channels and undecodable bodies change nothing. Otherwise the new flag, the notification and the re-announce are those of `React`. |
| Transport.Transport.SetIsPrimary | src/EventBus/Transport.js:118-122 | The flag becomes "the id is ours", and `onPrimaryChange` is logged on every call. |
| Transport.Transport.OnSigint | src/EventBus/Transport.js:184-187 | Unsubscribes from the handshake channel, then publishes `bye` only when ready. |
| Registry.PongFrame | src/EventBus/WebSocket.js:126 | The pong reply is JSON whose `type` is `pong`. |
| Registry.Empty | src/EventBus/WebSocket.js:10 | A new registry is well formed and empty. |
| Registry.Set | src/EventBus/WebSocket.js:54 | `map.set` maps the key to the connection. An existing key keeps its position; a new key goes last. |
| Registry.Delete | src/EventBus/WebSocket.js:59 | `map.delete` removes the key, reports whether it was present, and keeps the order of the rest. |
| Registry.LastAddWins | src/EventBus/WebSocket.js:54 | Two adds under one key leave one entry, the second connection, in the position of the first. |
| Registry.DeleteOnlyThatKey | src/EventBus/WebSocket.js:59 | Deleting a key leaves every other entry as it was. Deleting it again finds nothing. |
| Registry.Broadcast | src/EventBus/WebSocket.js:73-83 | The deliveries of one broadcast, key by key in registry order, skipping failing connections. `BroadcastOnce` states what it delivers. |
| Registry.BroadcastOnce | src/EventBus/WebSocket.js:73-83 | One broadcast gives each non-failing registered key exactly one delivery and a failing one none. Every delivery carries the same frame to the key's own connection. |
| Registry.Without | src/EventBus/EventEmitter.js:63 | The result holds exactly the elements other than `k`. |
| Registry.WithoutConcat | src/EventBus/EventEmitter.js:63 | Filtering distributes over concatenation, so the remaining listeners keep their order. |
| Registry.WithoutCounts | src/EventBus/EventEmitter.js:63 | Every occurrence of the listener goes; every other listener keeps its multiplicity. |
| WebSocket.IdText | src/EventBus/WebSocket.js:122 | `_id.toString()` of a string is the string itself. On `null`/`undefined` it throws. |
| WebSocket.SessionOf | src/EventBus/WebSocket.js:121 | A truthy `userdata` is the session. Otherwise the session is a fresh one whose `_id` is the random uid. |
| WebSocket.SocketId | src/EventBus/WebSocket.js:122 | The socket id is the session id's text followed by the suffix. It is absent when reading `_id` throws. |
| WebSocket.SocketIdsDiffer | src/EventBus/WebSocket.js:122 | Connections of one session with different suffixes never share a socket id. |
| WebSocket.DefaultSessionHasId | src/EventBus/WebSocket.js:121-122 | An anonymous connection's id is the generated uid followed by the suffix. |
| WebSocket.WebSocket.constructor | src/EventBus/WebSocket.js:10 | Empty registry, and the default messages handler installed (lines 34-35). |
| WebSocket.WebSocket.SetMessagesHandler | src/EventBus/WebSocket.js:23-26 | Replaces the messages handler. |
| WebSocket.WebSocket.AddConnection | src/EventBus/WebSocket.js:54 | The table becomes `Set(table, id, conn)`. |
| WebSocket.WebSocket.RemoveConnection | src/EventBus/WebSocket.js:59 | Removes `id` and reports iff it was present. |
| WebSocket.WebSocket.Send | src/EventBus/WebSocket.js:73-83 | A falsy message sends nothing. Otherwise the log grows by exactly `Broadcast` over the registry in insertion order, skipping failing sockets. |
| WebSocket.WebSocket.SendTo | src/EventBus/WebSocket.js:90-101 | Delivers to exactly the connection under `id`. Nothing happens for an absent id, a falsy message or a failing socket. |
| WebSocket.WebSocket.WsHandler | src/EventBus/WebSocket.js:119-124 | Registers the connection under `SocketId(SessionOf(…))`, last in order. It changes nothing when reading the id throws. |
| WebSocket.WebSocket.OnSocketMessage | src/EventBus/WebSocket.js:127-134 | `ping` gets a pong and never reaches the handler. Other decoded frames go to the handler with `socket_id` added. Undecodable frames change nothing. |
| WebSocket.WebSocket.OnSocketClose | src/EventBus/WebSocket.js:135 | Removes exactly that socket id, keeping the insertion order of the rest. |
| WebSocket.WebSocket.On | src/EventBus/WebSocket.js:41-47 | Registers one local-bus listener on the channel. |
| WebSocket.WebSocket.OnLocalEvent | src/EventBus/WebSocket.js:42-45 | A local event is broadcast to the clients and then published by the Transport as one envelope. |
| WebSocket.WebSocket.RegisterDuplexEvents | src/EventBus/WebSocket.js:108-111 | Installs the local bridge. It adds a Transport listener and subscription iff the Transport is initialized; otherwise it throws and the Transport's listeners and subscriptions are unchanged. |
| WebSocket.WebSocket.OnTransportMessage | src/EventBus/WebSocket.js:110 | A Transport message only goes to the clients. |
| RedisEvents.Stamp | RedisEvents.js:70 | The payload has every field of the message, plus `originatorId` set to the own id. |
| RedisEvents.StampOverrides | RedisEvents.js:70 | A forged `originatorId` in the message is overwritten. |
| RedisEvents.FromOther | RedisEvents.js:49 | The self test throws exactly on a `null` message. It is false exactly for a message carrying the own id. |
| RedisEvents.RedisEvents.constructor | RedisEvents.js:16-20 | Carries the given id, with no channels, no callback and nothing published. |
| RedisEvents.RedisEvents.SetPublisherReady | RedisEvents.js:69 | The publisher's readiness is the reported status. |
| RedisEvents.RedisEvents.OnMessage | RedisEvents.js:46-55 | Installs the callback. |
| RedisEvents.RedisEvents.Subscribe | RedisEvents.js:80-88 | Returns true iff the channel was new. The set gains the channel, and the client is called only for a new one. |
| RedisEvents.RedisEvents.Unsubscribe | RedisEvents.js:94-100 | Removes the channel and calls the client only if it was present. |
| RedisEvents.RedisEvents.Publish | RedisEvents.js:65-73 | Throws iff the message is not a plain object. Returns silently iff the publisher is not ready. Otherwise it publishes exactly the stamped message. |
| RedisEvents.RedisEvents.Deliver | RedisEvents.js:22-29 | A payload reaches the callback iff four things hold: the channel is subscribed, it decodes, `onMessage` was called (lines 46-58), and it is not from this id. |
| RedisEvents.OwnPublicationDropped | RedisEvents.js:49-52 | An instance never hears its own stamped publication. |
| RedisEvents.PeerPublicationDelivered | RedisEvents.js:49-52 | A publication stamped with another id reaches a subscribed listener unchanged. |
| Pm2Events.Stringify | Pm2Events.js:108-110 | Plain objects and arrays become JSON. Other values pass unchanged. `null`/`undefined` throw. |
| Pm2Events.TruthyStringifies | Pm2Events.js:117-118 | Every payload `sendSocketMessage` sends can be stringified. |
| Pm2Events.ProcessName | Pm2Events.js:21-23 | The name is `process.env.name`, or `unrealName` followed by the pm id. |
| Pm2Events.OriginatorId | Pm2Events.js:24 | `[mac, address, name].toString()`, an absent interface giving empty fields. `OriginatorIdParts` spells out the text. |
| Pm2Events.OriginatorIdParts | Pm2Events.js:24 | The originator id is `mac,address,name`, or `,,name` when no interface was found. |
| Pm2Events.SameNameInstancesShareOriginator | Pm2Events.js:22-24 | Two instances of one app on one host get the same originator id and drop each other's publications. |
| Pm2Events.InstanceOriginatorId | Pm2Events.js:22-24 | The corrected originator id: the as-written id followed by `,` and the pm2 instance number. |
| Pm2Events.InstancesHaveDistinctOriginators | Pm2Events.js:22-24 | With the instance number in the id, two instances of one application on one host get different ids and hear each other's publications. |
| Pm2Events.Reconnect | Pm2Events.js:180-181 | Remove-then-add maps the key to the new connection, last in order. |
| Pm2Events.CloseAsWritten | Pm2Events.js:192-193 | The close handler as written removes whatever is under `_id`. |
| Pm2Events.StaleCloseDropsLiveConnection | Pm2Events.js:192-193 | After a reconnect under the same `_id`, the old socket's close removes the live entry. |
| Pm2Events.CloseGuarded | Pm2Events.js:192-193 | A close removes only an entry that still holds the closing connection, and leaves every other entry unchanged. |
| Pm2Events.GuardedCloseAfterReconnect | Pm2Events.js:180-181 | With the guard, a stale close keeps the new entry and the live connection's close removes it. |
| Pm2Events.AddListener | Pm2Events.js:67-78 | The channel is subscribed afterwards. A new channel gets one bridge appended; an already subscribed one changes nothing. |
| Pm2Events.AddListenerIdempotent | Pm2Events.js:67-78 | A second `addEventListener` on the same channel changes nothing. |
| Pm2Events.RemoveListenerAsWritten | Pm2Events.js:85-88 | As written, only the subscription is removed and the bridge stays. |
| Pm2Events.ReAddDuplicatesBridge | Pm2Events.js:68-76 | Add, remove, add leaves two bridges on the channel. |
| Pm2Events.RemoveListener | Pm2Events.js:85-88 | Corrected: the subscription and the channel's bridge go together. |
| Pm2Events.AddListenerKeepsBridges | Pm2Events.js:68-76 | Adding keeps exactly one bridge per subscribed channel, so repeated adds never duplicate one. |
| Pm2Events.RemoveListenerKeepsBridges | Pm2Events.js:85-88 | The corrected removal keeps exactly one bridge per subscribed channel. |
| Pm2Events.Pm2Events.constructor | Pm2Events.js:20-32 | The interface is the first usable one (lines 46-56), with the derived name and originator id. The Redis callback is installed. |
| Pm2Events.Pm2Events.AddConnection | Pm2Events.js:96 | The table becomes `Set(table, id, conn)`. |
| Pm2Events.Pm2Events.RemoveConnection | Pm2Events.js:102 | Removes `id` and reports iff it was present. |
| Pm2Events.Pm2Events.SendSocketMessage | Pm2Events.js:116-127 | A falsy payload sends nothing. Otherwise each connection gets the same stringified frame once, skipping failing sockets. |
| Pm2Events.Pm2Events.SendMessage | Pm2Events.js:134-144 | Only the socket under `id` is written. Nothing happens for an absent id or a falsy payload. |
| Pm2Events.Pm2Events.WsHandler | Pm2Events.js:178-182 | Replaces any entry under `authData._id` by this connection. It changes nothing when `_id` cannot be read. |
| Pm2Events.Pm2Events.OnSocketMessage | Pm2Events.js:184-191 | `ping` gets a pong on that connection. Anything else, or a parse failure, sends nothing. |
| Pm2Events.Pm2Events.OnSocketClose | Pm2Events.js:192-195 | Applies `CloseGuarded`, the corrected close of the first finding below. |
| Pm2Events.Pm2Events.AddEventListener | Pm2Events.js:67-78 | Subscribes, and installs a bridge exactly when the channel was new. |
| Pm2Events.Pm2Events.RemoveEventListener | Pm2Events.js:85-88 | Unsubscribes and removes the channel's bridge, the corrected removal of the second finding below. |
| Pm2Events.Pm2Events.OnLocalEvent | Pm2Events.js:71-75 | The event goes to all clients and then through `publish`: thrown for a non-object, stamped when ready. |
| Pm2Events.Pm2Events.OnRedisMessage | Pm2Events.js:28-31 | A message `Deliver` passes goes to this instance's clients only. |
| Process.FirstUsableAppend | src/EventBus/Process.js:86-90 | First match over a concatenation is the first part's match if any, else the second's. |
| Process.FirstUsableIsFirst | src/EventBus/Process.js:86-92 | The selection is usable, and no earlier entry is. `{}` results iff no entry is usable. |
| Process.FirstUsable | src/EventBus/Process.js:84-93 | The interface found, if any, is in the list and usable. `FirstUsableIsFirst` adds that none before it is. |
| Process.SelectInterface | src/EventBus/Process.js:84-93 | The nested loop returns `FirstUsable` of the flattened table, and the result is usable. |
| Process.KeepHex | src/EventBus/Process.js:29 | Only hex digits remain, and the result is no longer than the input. |
| Process.KeepHexConcat | src/EventBus/Process.js:29 | Sanitising distributes over concatenation. |
| Process.KeepHexOfHex | src/EventBus/Process.js:29 | Hex strings are left unchanged. |
| Process.KeepHexCounts | src/EventBus/Process.js:29 | Every hex digit keeps its number of occurrences. |
| Process.ProcessId | src/EventBus/Process.js:28-29 | The id contains only lowercase hex digits. |
| Process.KeepHexCommaJoin | src/EventBus/Process.js:28-29 | Sanitising the comma join equals joining the sanitised parts. |
| Process.ProcessIdParts | src/EventBus/Process.js:28-29 | The id is the hex digits of mac, address, name and pid, followed by the random suffix. |
| Process.FirstBadRead | src/EventBus/Process.js:16-116 | Running the static initialisers in order: the field returned is the first whose initialiser reads a field not yet set; `None` means every initialiser reads only fields set before it. |
| Process.DeclaredOrderThrows | src/EventBus/Process.js:27-28 | In declaration order, the initialiser of `#id` is the first to read an unset field (`#interface`), so loading the class throws. |
| Process.ReorderedInitialises | src/EventBus/Process.js:58 | With `#_interface` and `#interface` moved before `#id`, the same fields initialise without a bad read. |
| Process.Distinct | src/EventBus/Process.js:105 | `new Set` keeps exactly the same elements, pairwise distinct. |
| Process.DistinctOrder | src/EventBus/Process.js:105 | Set order is first-occurrence order. |
| Process.Reverse | src/EventBus/Process.js:105 | Element `i` of the result is element `n-1-i` of the input. |
| Process.KeepNonNegative | src/EventBus/Process.js:105 | Exactly the elements ≥ 0 remain, each as often as in the input. |
| Process.KeepNonNegativeOrder | src/EventBus/Process.js:105 | The filter keeps the input's order: any two kept elements occur in the input in the same order. |
| Process.KeepNonNegativeDistinct | src/EventBus/Process.js:105 | Filtering keeps distinctness. |
| Process.GetInstancesIds | src/EventBus/Process.js:98-111 | `[-1]` outside pm2 or when the command fails. `[]` for empty output. Otherwise the distinct ids, reversed, keeping those ≥ 0. |
| Process.InstanceIdsShape | src/EventBus/Process.js:105 | The result is the listed ids ≥ 0, pairwise distinct. |
| Process.ReversePreserves | src/EventBus/Process.js:105 | Reversal preserves membership and distinctness. |
| Process.ReverseDistinctOrder | src/EventBus/Process.js:105 | After dedupe and reversal, ids come in reverse order of first occurrence. |
| Process.ReversedFirstOccurrence | src/EventBus/Process.js:105 | The instance ids, after the `>= 0` filter, come in reverse order of first occurrence in the listing. |
| Process.MinOf | src/EventBus/Process.js:116 | `None` iff the list is empty (`Infinity`). Otherwise the result is a member no larger than any. |
| Process.IsPm2Primary | src/EventBus/Process.js:131-133 | `isPm2Primary`: the master id is ours, or the process is not under pm2. Its consequences are the three lemmas below. |
| Process.OutsidePm2IsPrimary | src/EventBus/Process.js:131-133 | Outside pm2 the process is primary. |
| Process.Pm2PrimaryIsLowest | src/EventBus/Process.js:131-133 | Under pm2, a listed process is primary iff its id is the lowest listed id ≥ 0. |
| Process.EmptyOutputNeverPrimary | src/EventBus/Process.js:103-105 | Empty output leaves no ids, so `Math.min()` is `Infinity` and no pm2 process is primary. |
| EventEmitter.LimitOf | src/EventBus/EventEmitter.js:20-28 | `n \|\| Infinity`: unlimited iff `n` is 0, otherwise exactly `n`. |
| EventEmitter.FirstThrow | src/EventBus/EventEmitter.js:99 | The index of the first listener that throws: none before it throws, and the one at it does. |
| EventEmitter.FirstThrowIs | src/EventBus/EventEmitter.js:99 | That index is unique. |
| EventEmitter.Dispatch | src/EventBus/EventEmitter.js:98-102 | It throws iff some listener throws. A throw calls exactly the listeners up to and including the first thrower (`FirstThrow`), nothing after it, and keeps the once-table. Otherwise all listeners run in order, then the once-handler's listener if there is one. The once entry goes exactly when its listener ran and returned. |
| EventEmitter.EmitNothingRegistered | src/EventBus/EventEmitter.js:99-100 | An event with nothing registered calls nothing and changes nothing. |
| EventEmitter.OnceFiresAtMostOnce | src/EventBus/EventEmitter.js:76-85 | After the once listener returns, it is gone and the next emit calls only the `on` listeners. |
| EventEmitter.ThrowingOnceListenerStays | src/EventBus/EventEmitter.js:77-84 | A once listener that throws is not removed. |
| EventEmitter.EventEmitter.WarningsAtMostOnce | src/EventBus/EventEmitter.js:42-54 | Each kind of warning is issued at most once per emitter (also lines 72-75). |
| EventEmitter.EventEmitter.constructor | src/EventBus/EventEmitter.js:9-13 | Empty tables, no limits, no warnings. |
| EventEmitter.EventEmitter.SetMaxListeners | src/EventBus/EventEmitter.js:20-23 | The limit becomes `LimitOf(n)`. |
| EventEmitter.EventEmitter.SetMaxEvents | src/EventBus/EventEmitter.js:25-28 | The limit becomes `LimitOf(n)`. |
| EventEmitter.EventEmitter.On | src/EventBus/EventEmitter.js:39-56 | Appends the listener to this event only. It warns the first time the listener or event limit is reached. |
| EventEmitter.EventEmitter.WarnListeners | src/EventBus/EventEmitter.js:42-47 | The listener-limit warning is issued only while its flag is unset, and the flag is set. |
| EventEmitter.EventEmitter.WarnEvents | src/EventBus/EventEmitter.js:48-54 | The event-limit warning is issued only while its flag is unset, and the flag is set. |
| EventEmitter.EventEmitter.Off | src/EventBus/EventEmitter.js:62-65 | Removes every occurrence of the listener from this event. An unknown event gets an empty list. |
| EventEmitter.EventEmitter.Once | src/EventBus/EventEmitter.js:71-87 | Replaces the event's single once-handler. It warns the first time one is overridden. |
| EventEmitter.EventEmitter.RemoveOnceListener | src/EventBus/EventEmitter.js:89-92 | Deletes only that event's once entry. |
| EventEmitter.EventEmitter.Emit | src/EventBus/EventEmitter.js:98-102 | The loop's calls, its throw and the new once-table are exactly those of `Dispatch`. |

## Left out

- Provider and socket I/O (Redis clients, `publish`/`subscribe` on the wire, `socket.send`): the model keeps readiness flags, ghost logs of what was published or sent, and a `failing` parameter for sockets whose write throws.
- JSON encoding and decoding: frames are `Json(v)` or `Raw(v)`, and a frame that fails to decode is `None`. `JSON.stringify` throwing on cycles or BigInt values is not modelled.
- Transport.Transport.Send: requires `initialized ==> ready` instead of modelling the `waitingConnection` poll loop. The model is the call after the wait has returned.
- Transport.Transport.Handshakes: requires `initialized ==> ready` for the same reason, and its SIGINT listener is modelled separately by `OnSigint`.
- Transport.Transport.OnSigint: stops before the one-second sleep and `process.exit`.
- Cross-process timing of the handshake: the model is one process reacting to a sequence of messages, and `ExactlyOnePrimary` assumes every process saw the same stream.
- `onStateChange`, `#registerReadyState`, `setSendbox`, `toString`, `isMain`/`isPrimary` getters, and debug and console output are not modelled. The user's `onPrimaryChange` callback is the log `primaryChanges`.
- Randomness and clocks (`getRandomUID`, `Date.getTime`) and `process.env`: parameters.
- `os.networkInterfaces()` and `execSync('pm2 id …')`: parameters (`InterfaceTable`, `Pm2Output`). The ids are integers; `NaN` and non-numeric entries are not modelled.
- Static initialisation of the `Process` class is modelled only as which fields each initialiser reads (`FirstBadRead`). `ProcessId` receives the selected interface as a parameter, as in the corrected order of the fourth finding.
- WebSocket.IdText: an `_id` that is an array or an object (whose `toString` is not modelled) is treated like one whose read throws.
- Pm2Events.Pm2Events.OnSocketClose: applies `CloseGuarded`, the correction of the first finding, in place of the unconditional `removeConnection(authData._id)` of Pm2Events.js:193. The as-written close is `CloseAsWritten`.
- Pm2Events.Pm2Events.RemoveEventListener: also removes the channel's local-bus bridge, the correction of the second finding; Pm2Events.js:86 only unsubscribes. The as-written removal is `RemoveListenerAsWritten`. `Valid`'s one-bridge-per-channel invariant holds only under this correction.
- Pm2Events.Pm2Events.constructor: the originator id includes the pm2 instance number (`InstanceOriginatorId`), the correction of the third finding; Pm2Events.js:24 leaves it out.
- Pm2Events connection keys are compared structurally; JavaScript's `Map` compares object keys by reference.
- `Pm2Events.dispatch` and `connection.setEncoding` are not modelled. `dispatch` is a one-line call into the local bus, which is Node's `events` module and is not part of this model.
- The local bus itself, including listener order across `on` calls of different components. Local-bus listeners installed by the registries are logged (`bridged`), and the default messages handler's emits are logged (`localEvents`).
- EventEmitter: listeners that re-enter the emitter during `emit` are not modelled, nor are listeners passed to `on` that are not functions, nor limits given as non-integers. Event names that are inherited `Object.prototype` members (`constructor`, `toString`) are not modelled either. `addListener`/`removeListener` are aliases of `On`/`Off`.
- Transport.IsIPv4: `net.isIPv4` is modelled as the dotted-quad rule (four decimal octets 0–255 without leading zeros). Only the rejection of dot-free strings is proved about it.
- Async scheduling: each handler invocation is one atomic step.

## Findings

| source | as written | input that shows it | evidently intended | confidence | as-written member | corrected member |
|---|---|---|---|---|---|---|
| Pm2Events.js:192-193 | The close handler removes whatever entry is under `authData._id`. | Connect socket 1 as `_id` `user`, reconnect as socket 2 under the same `_id`, then socket 1 closes: the live socket 2 disappears from the registry. | Reconnect replaces the old entry, and a close removes only its own connection. | medium, not executed | Pm2Events.StaleCloseDropsLiveConnection | Pm2Events.GuardedCloseAfterReconnect |
| Pm2Events.js:85-88 | `removeEventListener` unsubscribes from Redis but leaves the local-bus bridge installed. | `addEventListener("news")`, `removeEventListener("news")`, `addEventListener("news")`: two bridges, so each local event is sent to clients and published twice. | The listener and its bridge are removed together, so there is one bridge per subscribed channel. | medium, not executed | Pm2Events.ReAddDuplicatesBridge | Pm2Events.RemoveListenerKeepsBridges |
| Pm2Events.js:24 | The originator id is `[mac, address, name]`, without the pm2 instance number. | Two instances of one application under pm2 on one host share interface and `process.env.name`, so each drops the other's publications as its own, though line 74 publishes "to other pm2 instances". | The id also holds `pm2_process_id`, so every instance hears every other one. | medium, not executed | Pm2Events.SameNameInstancesShareOriginator | Pm2Events.InstancesHaveDistinctOriginators |
| src/EventBus/Process.js:27-28 | The static initialiser of `#id` reads `Process.interface`, whose field `#interface` is only initialised at line 58 (from `#_interface`, line 84). | Loading the class: reading a private static field before its initialiser has run throws a `TypeError`. | `#_interface` and `#interface` are initialised before `#id`. | medium, not executed | Process.DeclaredOrderThrows | Process.ReorderedInitialises |
