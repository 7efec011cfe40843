/**
 * FNatsTransport: an FAsyncTransport that publishes each request frame on
 * a subject with its own inbox as the reply subject, and hands every
 * message arriving on the inbox to `handle_response`.
 *
 * FAsyncTransport, in particular `handle_response` and its registry of
 * pending calls, is not part of this model: the frames given to
 * `handle_response` are recorded in order. The inbox `new_inbox()` makes
 * is an input.
 */
module NatsTransport {
  import opened Frugal
  import opened Nats

  /** The inbox the transport uses: the one given, or a fresh one when the given one is empty. */
  function ChooseInbox(inbox: string, freshInbox: string): (r: string)
    ensures inbox != "" ==> r == inbox
    ensures inbox == "" ==> r == freshInbox
  {
    if inbox != "" then inbox else freshInbox
  }

  /** Python's truth value of `_sub_id`: None and the id 0 are false. */
  predicate Truthy(sid: Option<Sid>)
  {
    sid.Some? && sid.value != 0
  }

  class FNatsTransport {
    const client: Client
    const subject: string
    const inbox: string
    var isOpenFlag: bool
    var subId: Option<Sid>
    /** The frames given to `handle_response`, oldest first. */
    var handled: seq<seq<Byte>>

    /** The transport holds a subscription exactly while its own flag says it is open. */
    ghost predicate Valid()
      reads this, client
    {
      && client.Valid()
      && (isOpenFlag <==> subId.Some?)
      && (subId.Some? ==> subId.value >= 1)
    }

    constructor (client: Client, subject: string, inbox: string, freshInbox: string)
      requires client.Valid()
      ensures Valid()
      ensures this.client == client && this.subject == subject
      ensures this.inbox == ChooseInbox(inbox, freshInbox)
      ensures !isOpenFlag && subId.None? && handled == []
    {
      this.client := client;
      this.subject := subject;
      this.inbox := ChooseInbox(inbox, freshInbox);
      isOpenFlag := false;
      subId := None;
      handled := [];
    }

    /** is_open: the transport's own flag and the client's connection. */
    predicate IsOpen()
      reads this, client
    {
      isOpenFlag && client.isConnected
    }

    /**
     * open. A disconnected client is reported as NOT_OPEN before an open
     * transport is reported as ALREADY_OPEN; otherwise the inbox is
     * subscribed once and the transport is open.
     */
    method Open() returns (raised: Option<TransportError>)
      requires Valid()
      modifies this, client
      ensures Valid() && handled == old(handled) && client.isConnected == old(client.isConnected)
      ensures !old(client.isConnected) ==>
        raised == Some(TransportError(NotOpen, "Nats not connected"))
      ensures old(client.isConnected) && old(IsOpen()) ==>
        raised == Some(TransportError(AlreadyOpen, "Transport is already open"))
      ensures raised.Some? ==>
        isOpenFlag == old(isOpenFlag) && subId == old(subId)
        && client.calls == old(client.calls) && client.nextSid == old(client.nextSid)
      ensures old(client.isConnected) && !old(IsOpen()) ==>
        && raised.None? && IsOpen()
        && subId == Some(old(client.nextSid)) && client.nextSid == old(client.nextSid) + 1
        && client.calls == old(client.calls) + [SubscribeCall(inbox, "", old(client.nextSid))]
    {
      if !client.isConnected {
        return Some(TransportError(NotOpen, "Nats not connected"));
      }
      if IsOpen() {
        return Some(TransportError(AlreadyOpen, "Transport is already open"));
      }
      var sid := client.SubscribeAsync(inbox, "");
      subId := Some(sid);
      isOpenFlag := true;
      raised := None;
    }

    /** _on_message_callback: the message data after its frame-size prefix goes to `handle_response`. */
    method OnMessageCallback(m: Message)
      modifies this`handled
      ensures handled == old(handled) + [StripFrameHeader(m.data)]
    {
      handled := handled + [StripFrameHeader(m.data)];
    }

    /**
     * close. Without a subscription it does nothing; otherwise that
     * subscription is cancelled once and the transport is closed.
     */
    method Close()
      requires Valid()
      modifies this, client`calls
      ensures Valid() && handled == old(handled)
      ensures !Truthy(old(subId)) ==>
        isOpenFlag == old(isOpenFlag) && subId == old(subId) && client.calls == old(client.calls)
      ensures Truthy(old(subId)) ==>
        !isOpenFlag && subId.None? && client.calls == old(client.calls) + [UnsubscribeCall(old(subId))]
      ensures !IsOpen()
    {
      if !Truthy(subId) {
        return;
      }
      client.Unsubscribe(subId);
      isOpenFlag := false;
      subId := None;
    }

    /** flush: the frame is published unchanged on the subject, with the inbox as reply subject. */
    method Flush(data: seq<Byte>)
      modifies client`calls
      ensures client.calls == old(client.calls) + [PublishRequestCall(subject, inbox, data)]
    {
      client.PublishRequest(subject, inbox, data);
    }
  }
}
