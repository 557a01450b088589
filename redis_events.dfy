/**
 * The Redis pub/sub wrapper of RedisEvents.js: a set of subscribed channels,
 * a publish that accepts only plain objects and stamps them with this
 * instance's originator id, and inbound delivery that drops unsubscribed
 * channels and the instance's own publications.
 *
 * The Redis clients are not modelled: the publisher's `ready` status is a
 * field, what is published is the ghost `published`, and the subscribe and
 * unsubscribe calls made on the subscriber client are the ghost `commands`.
 * The callback given to `onMessage` is identified by a tag.
 */
module RedisEvents {
  import opened Values

  /** The field the stamp writes. */
  const ORIGINATOR_ID: string := "originatorId"

  /** One `publisher.publish(channel, JSON.stringify(payload))`. */
  datatype Publication = Publication(channel: string, payload: Value)

  /** How `publish` ends: published, a silent return, or the thrown `Error`. */
  datatype PublishOutcome = Published | NotReady | NotAnObject

  /** A call made on the subscriber client. */
  datatype Command = SubscribeCmd(channel: string) | UnsubscribeCmd(channel: string)

  /**
   * `{...message, originatorId}`: every field of the message, with
   * `originatorId` set to this instance's id whatever the message held there.
   */
  function Stamp(fields: map<string, Value>, originatorId: string): (v: Value)
    ensures v.Obj? && v.fields.Keys == fields.Keys + {ORIGINATOR_ID}
    ensures Field(v, ORIGINATOR_ID) == Some(Str(originatorId))
    ensures forall k :: k in fields && k != ORIGINATOR_ID ==> v.fields[k] == fields[k]
  {
    Obj(fields[ORIGINATOR_ID := Str(originatorId)])
  }

  /** A message cannot forge its origin: whatever `originatorId` it carries is overwritten. */
  lemma StampOverrides(fields: map<string, Value>, forged: Value, originatorId: string)
    ensures Stamp(fields[ORIGINATOR_ID := forged], originatorId) == Stamp(fields, originatorId)
  {
  }

  /**
   * The test of the `onMessage` wrapper, `message.originatorId !== originatorId`:
   * `None` where reading the field throws (a `null` message).
   */
  function FromOther(message: Value, originatorId: string): (r: Option<bool>)
    ensures r.None? <==> message.Null? || message.Undefined?
    ensures r == Some(false) <==> Field(message, ORIGINATOR_ID) == Some(Str(originatorId))
  {
    match Field(message, ORIGINATOR_ID)
    case None => None
    case Some(v) => Some(v != Str(originatorId))
  }

  class RedisEvents {
    const originatorId: string
    var channels: set<string>
    /** Whether the publisher client's status is `ready`. */
    var publisherReady: bool
    /** The callback `onMessage` installed, if any. */
    var callback: Option<nat>
    ghost var published: seq<Publication>
    ghost var commands: seq<Command>

    constructor (originatorId: string)
      ensures this.originatorId == originatorId
      ensures channels == {} && !publisherReady && callback.None?
      ensures published == [] && commands == []
    {
      this.originatorId := originatorId;
      channels := {};
      publisherReady := false;
      callback := None;
      published := [];
      commands := [];
    }

    /** The publisher client's status changing. */
    method SetPublisherReady(ready: bool)
      modifies this`publisherReady
      ensures publisherReady == ready
    {
      publisherReady := ready;
    }

    /** `onMessage(callback)`: replaces the delivery target. */
    method OnMessage(cb: nat)
      modifies this`callback
      ensures callback == Some(cb)
    {
      callback := Some(cb);
    }

    /** `subscribe(channel)`: true, and one subscribe call on the client, exactly when the channel is new. */
    method Subscribe(channel: string) returns (added: bool)
      modifies this`channels, this`commands
      ensures added <==> channel !in old(channels)
      ensures channels == old(channels) + {channel}
      ensures commands == old(commands) + (if added then [SubscribeCmd(channel)] else [])
    {
      if channel !in channels {
        channels := channels + {channel};
        commands := commands + [SubscribeCmd(channel)];
        return true;
      }
      return false;
    }

    /** `unsubscribe(channel)`: removes the channel, and calls the client, only when it is present. */
    method Unsubscribe(channel: string)
      modifies this`channels, this`commands
      ensures channels == old(channels) - {channel}
      ensures commands == old(commands) + (if channel in old(channels) then [UnsubscribeCmd(channel)] else [])
    {
      if channel in channels {
        channels := channels - {channel};
        commands := commands + [UnsubscribeCmd(channel)];
      }
    }

    /**
     * `publish(channel, message)`: throws unless the message is a plain
     * object, returns silently while the publisher is not ready, and otherwise
     * publishes the stamped message.
     */
    method Publish(channel: string, message: Value) returns (r: PublishOutcome)
      modifies this`published
      ensures r == NotAnObject <==> !message.Obj?
      ensures r == NotReady <==> message.Obj? && !publisherReady
      ensures r == Published ==> published == old(published) + [Publication(channel, Stamp(message.fields, originatorId))]
      ensures r != Published ==> published == old(published)
    {
      if !message.Obj? {
        return NotAnObject;
      }
      if !publisherReady {
        return NotReady;
      }
      published := published + [Publication(channel, Stamp(message.fields, originatorId))];
      return Published;
    }

    /**
     * The subscriber's `message` handler installed by the constructor: the
     * decoded payload (`None` when it is not valid JSON) reaches the callback,
     * as `(callback, message)`, only on a subscribed channel, once `onMessage`
     * was called, and when the message does not carry this instance's id.
     */
    function Deliver(channel: string, payload: Option<Value>): (r: Option<(nat, Value)>)
      reads this
      ensures r.Some? <==>
        channel in channels && payload.Some? && callback.Some? && FromOther(payload.value, originatorId) == Some(true)
      ensures r.Some? ==> r.value == (callback.value, payload.value)
    {
      if channel !in channels || payload.None? || callback.None? then None
      else if FromOther(payload.value, originatorId) == Some(true) then Some((callback.value, payload.value))
      else None
    }
  }

  /** An instance never hears its own publication, whatever the message held. */
  lemma OwnPublicationDropped(r: RedisEvents, channel: string, fields: map<string, Value>)
    ensures r.Deliver(channel, Some(Stamp(fields, r.originatorId))).None?
  {
  }

  /** A publication of an instance with another id reaches a subscribed listener unchanged. */
  lemma PeerPublicationDelivered(r: RedisEvents, channel: string, fields: map<string, Value>, peer: string)
    requires peer != r.originatorId && channel in r.channels && r.callback.Some?
    ensures r.Deliver(channel, Some(Stamp(fields, peer))) == Some((r.callback.value, Stamp(fields, peer)))
  {
  }
}
