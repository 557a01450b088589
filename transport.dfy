/**
 * The pub/sub Transport (src/EventBus/Transport.js): envelope framing with a
 * per-process request counter, receive-side filtering by origin, process name
 * and sender address, and the handshake that elects an advisory primary.
 *
 * The two provider connections (publisher and subscriber) are represented by
 * whether they exist and whether the publisher reports `ready`; what is
 * published is recorded in a ghost outbox. A listener closure registered by
 * `on` is modelled by `OnMessage`, which gives the arguments its callback
 * receives, and the handshake closure by `OnHandshakeMessage`.
 */
module Transport {
  import opened Values
  import opened Numerals
  import Process

  /** The reserved channel and the two handshake message types. */
  const HANDSHAKE: string := "handshake"
  const IAMHERE: string := "im"
  const BYE: string := "bye"

  /**
   * `processInfo`: the local identity plus the fields of the selected network
   * interface; `address` and `mac` are absent when the interface is `{}`.
   */
  datatype ProcessInfo = ProcessInfo(
    id: string,
    processName: string,
    processId: int,
    address: Option<string>,
    mac: Option<string>)

  /** The wire envelope `{channel, id, data, sender}`. */
  datatype Envelope = Envelope(channel: string, id: string, data: Value, sender: ProcessInfo)

  /** `#filterByProcessName` and `#excludeAddress`. */
  datatype ExclusionPolicy = ExclusionPolicy(filterByProcessName: bool, excludedAddresses: set<string>)

  /** The errors `send` and `on` throw before `initialize` has run. */
  datatype Outcome = Done | NotInitialized

  /** The envelope `send` builds for the `n`-th request id. */
  function MakeEnvelope(channel: string, n: nat, data: Value, sender: ProcessInfo): (e: Envelope)
    ensures e.channel == channel && e.data == data && e.sender == sender
    ensures AllHex(e.id) && HexValue(e.id) == n
  {
    HexRoundTrip(n);
    Envelope(channel, Hex(n), data, sender)
  }

  // ---------------------------------------------------------------------------
  // Receive-side filter
  // ---------------------------------------------------------------------------

  /** The exclusion test of `on`: own id, another process name (when filtering), or an excluded address. */
  predicate Dropped(localId: string, localName: string, policy: ExclusionPolicy, sender: ProcessInfo) {
    || sender.id == localId
    || (policy.filterByProcessName && sender.processName != localName)
    || (sender.address.Some? && sender.address.value in policy.excludedAddresses)
  }

  /** A listener registered on `listenChannel` invokes its callback for a message that arrived on `ch`. */
  predicate Accepts(localId: string, localName: string, policy: ExclusionPolicy,
                    listenChannel: string, ch: string, env: Envelope)
    ensures Accepts(localId, localName, policy, listenChannel, ch, env) ==> ch == listenChannel && env.sender.id != localId
  {
    listenChannel == ch && !Dropped(localId, localName, policy, env.sender)
  }

  /** The four conditions the callback needs, all of them, and nothing else. */
  lemma AcceptsExactly(localId: string, localName: string, policy: ExclusionPolicy,
                       listenChannel: string, ch: string, env: Envelope)
    ensures Accepts(localId, localName, policy, listenChannel, ch, env) <==>
      && ch == listenChannel
      && env.sender.id != localId
      && (!policy.filterByProcessName || env.sender.processName == localName)
      && (env.sender.address.None? || env.sender.address.value !in policy.excludedAddresses)
  {
  }

  /** Self-filtering: an envelope carrying our own id is never delivered, whatever its payload or policy. */
  lemma OwnEnvelopeNeverAccepted(info: ProcessInfo, policy: ExclusionPolicy, ch: string, n: nat, data: Value)
    ensures !Accepts(info.id, info.processName, policy, ch, ch, MakeEnvelope(ch, n, data, info))
  {
  }

  /**
   * Round trip between two processes: an envelope another process built on
   * channel `ch` is delivered to a listener on `ch` when the ids differ, the
   * names agree (or name filtering is off) and its address is not excluded,
   * and the callback then receives the original data.
   */
  lemma PeerEnvelopeAccepted(local: ProcessInfo, peer: ProcessInfo, policy: ExclusionPolicy,
                             ch: string, n: nat, data: Value)
    requires peer.id != local.id
    requires !policy.filterByProcessName || peer.processName == local.processName
    requires peer.address.None? || peer.address.value !in policy.excludedAddresses
    ensures Accepts(local.id, local.processName, policy, ch, ch, MakeEnvelope(ch, n, data, peer))
    ensures MakeEnvelope(ch, n, data, peer).data == data
  {
  }

  /** Turning name filtering off never loses a message; turning it on drops exactly the other names. */
  lemma NameFilterMonotone(localId: string, localName: string, excluded: set<string>,
                           listenChannel: string, ch: string, env: Envelope)
    ensures Accepts(localId, localName, ExclusionPolicy(true, excluded), listenChannel, ch, env) <==>
      Accepts(localId, localName, ExclusionPolicy(false, excluded), listenChannel, ch, env)
        && env.sender.processName == localName
  {
  }

  /** Excluding one more address drops exactly the messages from that address. */
  lemma ExcludeAddressEffect(localId: string, localName: string, policy: ExclusionPolicy, ip: string,
                             listenChannel: string, ch: string, env: Envelope)
    ensures Accepts(localId, localName, policy.(excludedAddresses := policy.excludedAddresses + {ip}),
                    listenChannel, ch, env) <==>
      Accepts(localId, localName, policy, listenChannel, ch, env) && env.sender.address != Some(ip)
  {
  }

  // ---------------------------------------------------------------------------
  // net.isIPv4
  // ---------------------------------------------------------------------------

  /** The segments of `s` between dots (`s.split('.')`). */
  function SplitDots(s: string): (parts: seq<string>)
    ensures |parts| >= 1
  {
    if s == [] then [""]
    else
      var rest := SplitDots(s[1..]);
      if s[0] == '.' then [""] + rest else [[s[0]] + rest[0]] + rest[1..]
  }

  predicate IsDigit(c: char) { '0' <= c <= '9' }

  /** A decimal octet as Node's `isIPv4` accepts it: 0 to 255 with no leading zero. */
  predicate IsOctet(seg: string) {
    && 1 <= |seg| <= 3
    && (forall i :: 0 <= i < |seg| ==> IsDigit(seg[i]))
    && (|seg| > 1 ==> seg[0] != '0')
    && (|seg| == 3 ==> seg[0] == '1' || (seg[0] == '2' && (seg[1] < '5' || (seg[1] == '5' && seg[2] <= '5'))))
  }

  /** `net.isIPv4(s)`: four octets separated by dots. */
  predicate IsIPv4(s: string) {
    var parts := SplitDots(s);
    |parts| == 4 && forall i :: 0 <= i < 4 ==> IsOctet(parts[i])
  }

  lemma {:induction false} SplitDotsNoDot(s: string)
    requires forall i :: 0 <= i < |s| ==> s[i] != '.'
    ensures SplitDots(s) == [s]
  {
    if s != [] {
      var tail := s[1..];
      assert forall i :: 0 <= i < |tail| ==> tail[i] == s[i + 1];
      SplitDotsNoDot(tail);
      assert [s[0]] + tail == s;
    }
  }

  /** A string without dots (a host name such as "localhost") is never an IPv4 address. */
  lemma NoDotNotIPv4(s: string)
    requires forall i :: 0 <= i < |s| ==> s[i] != '.'
    ensures !IsIPv4(s)
  {
    SplitDotsNoDot(s);
  }

  // ---------------------------------------------------------------------------
  // Handshake reaction
  // ---------------------------------------------------------------------------

  /** What one handshake message does: the new flag, the `onPrimaryChange` argument if called, and a re-announce. */
  datatype Reaction = Reaction(isPrimary: bool, notified: Option<bool>, reannounce: bool)

  /**
   * The handshake handler on one decoded envelope, for a process whose
   * publisher readiness is `ready`: an `im` sets the flag to "the announcer is
   * us" and always notifies; a `bye` from another id re-announces when ready;
   * anything else (or a `data` whose `type` cannot be read) changes nothing.
   */
  function React(localId: string, ready: bool, isPrimary: bool, env: Envelope): (r: Reaction)
    ensures HasType(env.data, IAMHERE) ==>
      r.isPrimary == (env.sender.id == localId) && r.notified == Some(r.isPrimary) && !r.reannounce
    ensures !HasType(env.data, IAMHERE) ==> r.isPrimary == isPrimary && r.notified.None?
    ensures r.reannounce <==> HasType(env.data, BYE) && env.sender.id != localId && ready
  {
    var t := Field(env.data, "type");
    if t.None? then Reaction(isPrimary, None, false)
    else if t.value == Str(IAMHERE) then
      var p := env.sender.id == localId;
      Reaction(p, Some(p), false)
    else Reaction(isPrimary, None, t.value == Str(BYE) && env.sender.id != localId && ready)
  }

  /** The flag after a process has reacted to a sequence of handshake envelopes, in order. */
  function PrimaryAfter(localId: string, isPrimary: bool, envs: seq<Envelope>): bool
    decreases |envs|
  {
    if envs == [] then isPrimary
    else PrimaryAfter(localId, React(localId, false, isPrimary, envs[0]).isPrimary, envs[1..])
  }

  /** The sender id of the last `im` in the sequence. */
  function LastAnnouncer(envs: seq<Envelope>): Option<string> {
    if envs == [] then None
    else if HasType(envs[|envs| - 1].data, IAMHERE) then Some(envs[|envs| - 1].sender.id)
    else LastAnnouncer(envs[..|envs| - 1])
  }

  /** Readiness only affects re-announcing, never the flag. */
  lemma ReadyIrrelevantToFlag(localId: string, isPrimary: bool, env: Envelope)
    ensures React(localId, true, isPrimary, env).isPrimary == React(localId, false, isPrimary, env).isPrimary
  {
  }

  lemma {:induction false} PrimaryAfterAppend(localId: string, isPrimary: bool, envs: seq<Envelope>, e: Envelope)
    ensures PrimaryAfter(localId, isPrimary, envs + [e]) ==
      React(localId, false, PrimaryAfter(localId, isPrimary, envs), e).isPrimary
    decreases |envs|
  {
    if envs == [] {
      assert [e][1..] == [];
    } else {
      assert (envs + [e])[1..] == envs[1..] + [e];
      PrimaryAfterAppend(localId, React(localId, false, isPrimary, envs[0]).isPrimary, envs[1..], e);
    }
  }

  /**
   * Last writer wins: after any sequence of handshake messages the flag says
   * whether the last announcer is this process, or is the initial flag when
   * nobody announced.
   */
  lemma {:induction false} LastAnnouncerWins(localId: string, isPrimary: bool, envs: seq<Envelope>)
    ensures PrimaryAfter(localId, isPrimary, envs) ==
      if LastAnnouncer(envs).Some? then LastAnnouncer(envs).value == localId else isPrimary
    decreases |envs|
  {
    if envs != [] {
      var init, e := envs[..|envs| - 1], envs[|envs| - 1];
      assert envs == init + [e];
      LastAnnouncerWins(localId, isPrimary, init);
      PrimaryAfterAppend(localId, isPrimary, init, e);
    }
  }

  /**
   * Convergence after quiescence: processes with distinct ids that all saw the
   * same handshake stream, whose last `im` came from process `k`, agree that
   * exactly `k` is primary.
   */
  lemma ExactlyOnePrimary(ids: seq<string>, initial: seq<bool>, envs: seq<Envelope>, k: nat)
    requires |initial| == |ids| && k < |ids|
    requires forall i, j :: 0 <= i < j < |ids| ==> ids[i] != ids[j]
    requires LastAnnouncer(envs) == Some(ids[k])
    ensures forall i :: 0 <= i < |ids| ==> (PrimaryAfter(ids[i], initial[i], envs) <==> i == k)
  {
    forall i | 0 <= i < |ids| ensures PrimaryAfter(ids[i], initial[i], envs) <==> i == k {
      LastAnnouncerWins(ids[i], initial[i], envs);
    }
  }

  /** Envelope ids of successive sends: the hex encodings of 2, 3, 4, ..., hence pairwise distinct. */
  lemma PublishedIdsDistinct(published: seq<Envelope>)
    requires forall i :: 0 <= i < |published| ==> published[i].id == Hex(i + 2)
    ensures forall i :: 0 <= i < |published| ==> AllHex(published[i].id) && HexValue(published[i].id) == i + 2
    ensures forall i, j :: 0 <= i < j < |published| ==> published[i].id != published[j].id
  {
    forall i | 0 <= i < |published|
      ensures AllHex(published[i].id) && HexValue(published[i].id) == i + 2
    {
      HexRoundTrip(i + 2);
    }
  }

  // ---------------------------------------------------------------------------
  // The Transport object
  // ---------------------------------------------------------------------------

  class Transport {
    /** The process identity the transport was built with (`eventBus.process`). */
    const localId: string
    const processName: string
    const processId: int
    const iface: Option<Process.Interface>

    /** Both provider clients exist (`#publisher` and `#subscriber` are not null). */
    var initialized: bool
    /** The publisher reports status `ready`. */
    var ready: bool
    var policy: ExclusionPolicy
    var requestId: nat
    var isPrimary: bool
    /** Channels the subscriber connection is subscribed to. */
    var subscribed: set<string>
    /** The channel of each listener `on` registered, in registration order. */
    var listeners: seq<string>
    /** `handshakes()` has registered its message handler. */
    var handshaking: bool
    /** Every envelope published, in order. */
    ghost var published: seq<Envelope>
    /** The argument of every `onPrimaryChange` call, in order. */
    ghost var primaryChanges: seq<bool>

    /** `processInfo`: the sender snapshot every envelope carries. */
    function Info(): (p: ProcessInfo)
      ensures p.id == localId && p.processName == processName && p.processId == processId
      ensures p.address == (if iface.Some? then Some(iface.value.address) else None)
      ensures p.mac == (if iface.Some? then Some(iface.value.mac) else None)
    {
      ProcessInfo(localId, processName, processId,
        if iface.Some? then Some(iface.value.address) else None,
        if iface.Some? then Some(iface.value.mac) else None)
    }

    ghost predicate Valid()
      reads this
    {
      && requestId == |published| + 1
      && (forall i :: 0 <= i < |published| ==> published[i].id == Hex(i + 2) && published[i].sender == Info())
      && (ready ==> initialized)
      && (!initialized ==> published == [] && subscribed == {} && listeners == [] && !handshaking)
    }

    /** The fields' initial values: no clients, name filtering on, primary, counter at 1. */
    constructor (localId: string, processName: string, processId: int, iface: Option<Process.Interface>)
      ensures Valid()
      ensures this.localId == localId && this.processName == processName
      ensures this.processId == processId && this.iface == iface
      ensures !initialized && !ready && requestId == 1 && isPrimary
      ensures policy == ExclusionPolicy(true, {})
      ensures subscribed == {} && listeners == [] && !handshaking
      ensures published == [] && primaryChanges == []
    {
      this.localId := localId;
      this.processName := processName;
      this.processId := processId;
      this.iface := iface;
      initialized := false;
      ready := false;
      policy := ExclusionPolicy(true, {});
      requestId := 1;
      isPrimary := true;
      subscribed := {};
      listeners := [];
      handshaking := false;
      published := [];
      primaryChanges := [];
    }

    /** `isReady`: the publisher exists and reports `ready`. */
    predicate IsReady()
      reads this
    {
      initialized && ready
    }

    /** `isSameId` */
    predicate IsSameId(id: string) {
      id == localId
    }

    /** `isSameProcessName` */
    predicate IsSameProcessName(name: string) {
      name == processName
    }

    /** `initialize`: creates both clients only when neither exists; a second call changes nothing. */
    method Initialize()
      requires Valid()
      modifies this
      ensures Valid() && initialized
      ensures old(initialized) ==> unchanged(this)
      ensures ready == old(ready) && policy == old(policy) && requestId == old(requestId)
      ensures isPrimary == old(isPrimary) && subscribed == old(subscribed) && listeners == old(listeners)
      ensures handshaking == old(handshaking) && published == old(published) && primaryChanges == old(primaryChanges)
    {
      if !initialized {
        initialized := true;
      }
    }

    /** A provider status event on the publisher: it reports `ready`, or stops doing so. */
    method PublisherStatus(isReadyNow: bool)
      requires Valid() && initialized
      modifies this`ready
      ensures Valid() && ready == isReadyNow
    {
      ready := isReadyNow;
    }

    /** `filterByProcessName(v)`: stores the truthiness of `v` and nothing else. */
    method FilterByProcessName(v: Value)
      requires Valid()
      modifies this`policy
      ensures Valid()
      ensures policy == old(policy).(filterByProcessName := Truthy(v))
    {
      policy := policy.(filterByProcessName := Truthy(v));
    }

    /** `addIgnoredIPAddress(ip)`: adds `ip` when it is an IPv4 address; the set never shrinks. */
    method AddIgnoredIPAddress(ip: string)
      requires Valid()
      modifies this`policy
      ensures Valid()
      ensures policy.filterByProcessName == old(policy.filterByProcessName)
      ensures policy.excludedAddresses ==
        if IsIPv4(ip) then old(policy.excludedAddresses) + {ip} else old(policy.excludedAddresses)
      ensures old(policy.excludedAddresses) <= policy.excludedAddresses
    {
      if !IsIPv4(ip) {
        return;
      }
      policy := policy.(excludedAddresses := policy.excludedAddresses + {ip});
    }

    /** `off(channel)`: unsubscribes; without a subscriber it is a silent no-op. */
    method Off(channel: string)
      requires Valid()
      modifies this`subscribed
      ensures Valid()
      ensures subscribed == if old(initialized) then old(subscribed) - {channel} else old(subscribed)
    {
      if !initialized {
        return;
      }
      subscribed := subscribed - {channel};
    }

    /** `on(channel, callback)`: throws without a subscriber; otherwise registers a listener and subscribes. */
    method On(channel: string) returns (r: Outcome)
      requires Valid()
      modifies this`listeners, this`subscribed
      ensures Valid()
      ensures r == NotInitialized <==> !initialized
      ensures r == NotInitialized ==> unchanged(this)
      ensures r == Done ==> listeners == old(listeners) + [channel] && subscribed == old(subscribed) + {channel}
    {
      if !initialized {
        return NotInitialized;
      }
      listeners := listeners + [channel];
      subscribed := subscribed + {channel};
      return Done;
    }

    /**
     * The listener closure `on(listenChannel, callback)` registered, applied to
     * a provider message on `ch` whose payload decoded to `body` (`None` when
     * the parse or a field read threw): the `(channel, data)` its callback
     * receives, or `None` when it returns without calling it.
     */
    function OnMessage(listenChannel: string, ch: string, body: Option<Envelope>): (r: Option<(string, Value)>)
      reads this
      ensures r.Some? <==> body.Some? && Accepts(localId, processName, policy, listenChannel, ch, body.value)
      ensures r.Some? ==> r.value == (ch, body.value.data)
    {
      if listenChannel != ch then None
      else if body.None? then None
      else if IsSameId(body.value.sender.id)
           || (policy.filterByProcessName && !IsSameProcessName(body.value.sender.processName))
           || (body.value.sender.address.Some? && body.value.sender.address.value in policy.excludedAddresses)
      then None
      else Some((ch, body.value.data))
    }

    /**
     * `send(channel, message)`: throws without a publisher; otherwise (once the
     * readiness wait has returned) pre-increments the counter and publishes
     * the envelope `{channel, id: hex(counter), data: message, sender: processInfo}`.
     */
    method Send(channel: string, data: Value) returns (r: Outcome)
      requires Valid()
      requires initialized ==> ready
      modifies this`requestId, this`published
      ensures Valid()
      ensures r == NotInitialized <==> !initialized
      ensures r == NotInitialized ==> unchanged(this)
      ensures r == Done ==>
        && requestId == old(requestId) + 1
        && published == old(published) + [MakeEnvelope(channel, requestId, data, Info())]
    {
      if !initialized {
        return NotInitialized;
      }
      requestId := requestId + 1;
      published := published + [MakeEnvelope(channel, requestId, data, Info())];
      return Done;
    }

    /** `_send(type)` of `handshakes`: sends `{type}` on the handshake channel only when ready. */
    method SendHandshake(t: string)
      requires Valid()
      modifies this`requestId, this`published
      ensures Valid()
      ensures published == old(published) +
        (if old(IsReady()) then [MakeEnvelope(HANDSHAKE, old(requestId) + 1, TypeMessage(t), Info())] else [])
    {
      if IsReady() {
        var _ := Send(HANDSHAKE, TypeMessage(t));
      }
    }

    /**
     * `handshakes()`, from the point where the readiness wait has returned:
     * registers the handshake handler, subscribes to the handshake channel and
     * announces `im`. Without clients the wait itself throws.
     */
    method Handshakes() returns (r: Outcome)
      requires Valid()
      requires initialized ==> ready
      modifies this
      ensures Valid()
      ensures r == NotInitialized <==> !old(initialized)
      ensures r == NotInitialized ==> unchanged(this)
      ensures r == Done ==>
        && handshaking
        && subscribed == old(subscribed) + {HANDSHAKE}
        && published == old(published) + [MakeEnvelope(HANDSHAKE, old(requestId) + 1, TypeMessage(IAMHERE), Info())]
      ensures initialized == old(initialized) && ready == old(ready) && policy == old(policy)
      ensures isPrimary == old(isPrimary) && listeners == old(listeners) && primaryChanges == old(primaryChanges)
    {
      if !initialized {
        return NotInitialized;
      }
      handshaking := true;
      subscribed := subscribed + {HANDSHAKE};
      SendHandshake(IAMHERE);
      return Done;
    }

    /**
     * The handshake handler on a provider message: other channels and
     * undecodable messages are ignored; otherwise the reaction is `React`'s.
     */
    method OnHandshakeMessage(ch: string, body: Option<Envelope>)
      requires Valid() && handshaking
      modifies this`isPrimary, this`primaryChanges, this`requestId, this`published
      ensures Valid()
      ensures ch != HANDSHAKE || body.None? ==> unchanged(this)
      ensures ch == HANDSHAKE && body.Some? ==>
        var reaction := React(localId, old(IsReady()), old(isPrimary), body.value);
        && isPrimary == reaction.isPrimary
        && primaryChanges == old(primaryChanges) + (if reaction.notified.Some? then [reaction.notified.value] else [])
        && published == old(published) +
          (if reaction.reannounce then [MakeEnvelope(HANDSHAKE, old(requestId) + 1, TypeMessage(IAMHERE), Info())] else [])
    {
      if ch != HANDSHAKE {
        return;
      }
      if body.None? {
        return;
      }
      var env := body.value;
      var t := Field(env.data, "type");
      if t.None? {
        return;
      }
      if t.value == Str(IAMHERE) {
        SetIsPrimary(env.sender.id);
      }
      if t.value == Str(BYE) && !IsSameId(env.sender.id) {
        SendHandshake(IAMHERE);
      }
    }

    /** `#setIsPrimary(id)`: primary exactly when the announcer is us; `onPrimaryChange` is called every time. */
    method SetIsPrimary(id: string)
      requires Valid()
      modifies this`isPrimary, this`primaryChanges
      ensures Valid()
      ensures isPrimary == (id == localId)
      ensures primaryChanges == old(primaryChanges) + [isPrimary]
    {
      isPrimary := localId == id;
      primaryChanges := primaryChanges + [isPrimary];
    }

    /** The SIGINT handler up to its grace delay: unsubscribe from the handshake channel, then say `bye` when ready. */
    method OnSigint()
      requires Valid()
      modifies this`subscribed, this`requestId, this`published
      ensures Valid()
      ensures subscribed == if old(initialized) then old(subscribed) - {HANDSHAKE} else old(subscribed)
      ensures published == old(published) +
        (if old(IsReady()) then [MakeEnvelope(HANDSHAKE, old(requestId) + 1, TypeMessage(BYE), Info())] else [])
    {
      Off(HANDSHAKE);
      SendHandshake(BYE);
    }
  }

  /**
   * The two-transport scenario: A and B, name filtering off and no exclusions
   * in A, each send `data` on `ch`, with a listener on `ch` registered only in A.
   * A's callback fires once, for B's envelope, with `data`, and never for A's own.
   */
  method TwoTransportsScenario(data: Value, ch: string)
  {
    var a := new Transport("a", "svc", 1, None);
    var b := new Transport("b", "svc", 2, None);
    a.Initialize();
    b.Initialize();
    a.PublisherStatus(true);
    b.PublisherStatus(true);
    var _ := a.On(ch);
    var _ := a.Send(ch, data);
    var _ := b.Send(ch, data);
    var fromA := a.published[0];
    var fromB := b.published[0];
    assert a.OnMessage(ch, ch, Some(fromA)).None?;
    assert a.OnMessage(ch, ch, Some(fromB)) == Some((ch, data));
  }
}
