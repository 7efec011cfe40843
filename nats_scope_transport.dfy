/**
 * The NATS transports of pub/sub scopes. A publisher publishes frames on
 * the NATS subject of a topic; a subscriber subscribes to that subject
 * with its queue and hands each message, without its frame-size prefix, to
 * the scope's callback.
 *
 * FPublisherTransport's `_check_publish_size` is not part of this model:
 * its answer for the published data is an input. The frames the
 * subscriber's callback receives are recorded in order.
 */
module NatsScopeTransport {
  import opened Frugal
  import opened Nats

  const TOPIC_PREFIX: string := "frugal."

  /** The NATS subject of a topic, `'frugal.{0}'.format(topic)`. */
  function TopicSubject(topic: string): (subject: string)
    ensures |subject| == |TOPIC_PREFIX| + |topic|
    ensures subject[..|TOPIC_PREFIX|] == TOPIC_PREFIX
  {
    TOPIC_PREFIX + topic
  }

  /** The topic can be read back from its subject, so distinct topics have distinct subjects. */
  lemma TopicSubjectInverse(topic: string, other: string)
    ensures TopicSubject(topic)[|TOPIC_PREFIX|..] == topic
    ensures TopicSubject(topic) == TopicSubject(other) ==> topic == other
  {
    assert TopicSubject(topic)[|TOPIC_PREFIX|..] == topic;
    assert TopicSubject(other)[|TOPIC_PREFIX|..] == other;
  }

  class FNatsPublisherTransport {
    const client: Client

    constructor (client: Client)
      ensures this.client == client
    {
      this.client := client;
    }

    /** is_open: the client is connected. */
    predicate IsOpen()
      reads client
    {
      client.isConnected
    }

    /** open: NOT_OPEN when the client is disconnected; nothing else happens. */
    method Open() returns (raised: Option<TransportError>)
      ensures raised == if !client.isConnected then Some(TransportError(NotOpen, "NATS is not connected")) else None
    {
      if !client.isConnected {
        return Some(TransportError(NotOpen, "NATS is not connected"));
      }
      raised := None;
    }

    /** close: the client is flushed once if the transport is open, and not at all otherwise. */
    method Close()
      modifies client`calls
      ensures client.calls == old(client.calls) + (if old(IsOpen()) then [FlushCall] else [])
    {
      if !IsOpen() {
        return;
      }
      client.Flush();
    }

    /**
     * publish. NOT_OPEN is checked before REQUEST_TOO_LARGE, which is
     * raised when `_check_publish_size(data)` holds (`tooLarge`);
     * otherwise the data is published unchanged on the topic's subject.
     */
    method Publish(topic: string, data: seq<Byte>, tooLarge: bool) returns (raised: Option<TransportError>)
      modifies client`calls
      ensures !IsOpen() ==> raised == Some(TransportError(NotOpen, "Transport is not connected"))
      ensures IsOpen() && tooLarge ==> raised == Some(TransportError(RequestTooLarge, "Message exceeds max message size"))
      ensures raised.Some? <==> !IsOpen() || tooLarge
      ensures client.calls == old(client.calls) + (if raised.None? then [PublishCall(TopicSubject(topic), data)] else [])
    {
      if !IsOpen() {
        return Some(TransportError(NotOpen, "Transport is not connected"));
      }
      if tooLarge {
        return Some(TransportError(RequestTooLarge, "Message exceeds max message size"));
      }
      client.Publish(TopicSubject(topic), data);
      raised := None;
    }
  }

  class FNatsPublisherTransportFactory {
    const client: Client

    constructor (client: Client)
      ensures this.client == client
    {
      this.client := client;
    }

    /** get_transport: a new publisher on the factory's client. */
    method GetTransport() returns (t: FNatsPublisherTransport)
      ensures fresh(t) && t.client == client
    {
      t := new FNatsPublisherTransport(client);
    }
  }

  class FNatsSubscriberTransport {
    const client: Client
    const queue: string
    var isSubscribedFlag: bool
    var subId: Option<Sid>
    /** The frames handed to the subscription callback, oldest first. */
    var delivered: seq<seq<Byte>>

    ghost predicate Valid()
      reads this, client
    {
      client.Valid() && (isSubscribedFlag <==> subId.Some?)
    }

    constructor (client: Client, queue: string)
      requires client.Valid()
      ensures Valid()
      ensures this.client == client && this.queue == queue
      ensures !isSubscribedFlag && subId.None? && delivered == []
    {
      this.client := client;
      this.queue := queue;
      isSubscribedFlag := false;
      subId := None;
      delivered := [];
    }

    /** is_subscribed: the transport's own flag, whatever the connection. */
    predicate IsSubscribed()
      reads this
    {
      isSubscribedFlag
    }

    /**
     * subscribe. NOT_OPEN when disconnected is checked before
     * ALREADY_OPEN when already subscribed; otherwise the topic's subject
     * is subscribed once with the queue and its id kept.
     */
    method Subscribe(topic: string) returns (raised: Option<TransportError>)
      requires Valid()
      modifies this, client
      ensures Valid() && delivered == old(delivered) && client.isConnected == old(client.isConnected)
      ensures !old(client.isConnected) ==>
        raised == Some(TransportError(NotOpen, "Nats is not connected"))
      ensures old(client.isConnected) && old(isSubscribedFlag) ==>
        raised == Some(TransportError(AlreadyOpen, "Already subscribed to nats topic"))
      ensures raised.Some? ==>
        isSubscribedFlag == old(isSubscribedFlag) && subId == old(subId)
        && client.calls == old(client.calls) && client.nextSid == old(client.nextSid)
      ensures old(client.isConnected) && !old(isSubscribedFlag) ==>
        && raised.None? && IsSubscribed()
        && subId == Some(old(client.nextSid)) && client.nextSid == old(client.nextSid) + 1
        && client.calls == old(client.calls) + [SubscribeCall(TopicSubject(topic), queue, old(client.nextSid))]
    {
      if !client.isConnected {
        return Some(TransportError(NotOpen, "Nats is not connected"));
      }
      if IsSubscribed() {
        return Some(TransportError(AlreadyOpen, "Already subscribed to nats topic"));
      }
      var sid := client.SubscribeAsync(TopicSubject(topic), queue);
      subId := Some(sid);
      isSubscribedFlag := true;
      raised := None;
    }

    /** The subscription's callback: the scope's callback receives the data after the frame-size prefix. */
    method OnMessage(m: Message)
      modifies this`delivered
      ensures delivered == old(delivered) + [StripFrameHeader(m.data)]
    {
      delivered := delivered + [StripFrameHeader(m.data)];
    }

    /** unsubscribe: the stored id (None if there is none) is unsubscribed, then forgotten. */
    method Unsubscribe()
      requires Valid()
      modifies this, client`calls
      ensures Valid() && delivered == old(delivered)
      ensures client.calls == old(client.calls) + [UnsubscribeCall(old(subId))]
      ensures subId.None? && !IsSubscribed()
    {
      client.Unsubscribe(subId);
      subId := None;
      isSubscribedFlag := false;
    }
  }

  class FNatsSubscriberTransportFactory {
    const client: Client
    const queue: string

    constructor (client: Client, queue: string)
      ensures this.client == client && this.queue == queue
    {
      this.client := client;
      this.queue := queue;
    }

    /** get_transport: a new, unsubscribed subscriber on the factory's client and queue. */
    method GetTransport() returns (t: FNatsSubscriberTransport)
      requires client.Valid()
      ensures fresh(t) && t.Valid()
      ensures t.client == client && t.queue == queue
      ensures !t.IsSubscribed() && t.subId.None? && t.delivered == []
    {
      t := new FNatsSubscriberTransport(client, queue);
    }
  }
}
