/**
 * The NATS client the Python transports and server talk to. The client
 * library itself is not part of this model: it is reduced to its
 * connection flag, the subscription ids it hands out, and a log of the
 * calls made on it, in order.
 */
module Nats {
  import opened Frugal

  /** A subscription id as returned by `subscribe_async`. */
  type Sid = nat

  /** One call made on the client. */
  datatype Call =
    | SubscribeCall(subject: string, queue: string, sid: Sid)
    | UnsubscribeCall(unsubscribed: Option<Sid>)
    | PublishCall(subject: string, data: seq<Byte>)
    | PublishRequestCall(subject: string, reply: string, data: seq<Byte>)
    | FlushCall

  /** A message delivered by the client to a subscription callback. */
  datatype Message = Message(subject: string, reply: string, data: seq<Byte>)

  class Client {
    var isConnected: bool
    /** The calls made on this client, oldest first. */
    var calls: seq<Call>
    /** The id the next subscription receives; ids start at 1. */
    var nextSid: Sid

    ghost predicate Valid()
      reads this
    {
      nextSid >= 1
    }

    constructor (connected: bool)
      ensures Valid() && isConnected == connected && calls == [] && nextSid == 1
    {
      isConnected := connected;
      calls := [];
      nextSid := 1;
    }

    method SubscribeAsync(subject: string, queue: string) returns (sid: Sid)
      requires Valid()
      modifies this
      ensures Valid() && isConnected == old(isConnected)
      ensures sid == old(nextSid) && sid >= 1 && nextSid == sid + 1
      ensures calls == old(calls) + [SubscribeCall(subject, queue, sid)]
    {
      sid := nextSid;
      nextSid := nextSid + 1;
      calls := calls + [SubscribeCall(subject, queue, sid)];
    }

    method Unsubscribe(sid: Option<Sid>)
      modifies this`calls
      ensures calls == old(calls) + [UnsubscribeCall(sid)]
    {
      calls := calls + [UnsubscribeCall(sid)];
    }

    method Publish(subject: string, data: seq<Byte>)
      modifies this`calls
      ensures calls == old(calls) + [PublishCall(subject, data)]
    {
      calls := calls + [PublishCall(subject, data)];
    }

    method PublishRequest(subject: string, reply: string, data: seq<Byte>)
      modifies this`calls
      ensures calls == old(calls) + [PublishRequestCall(subject, reply, data)]
    {
      calls := calls + [PublishRequestCall(subject, reply, data)];
    }

    method Flush()
      modifies this`calls
      ensures calls == old(calls) + [FlushCall]
    {
      calls := calls + [FlushCall];
    }
  }
}
