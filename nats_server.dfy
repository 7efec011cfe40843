/**
 * FNatsServer: an FServer that subscribes to its subjects on a NATS
 * client and answers each request message by running the processor over
 * the frame and publishing the output frame to the message's reply
 * subject.
 *
 * The processor and the protocol factory are not part of this model: the
 * processor is a function from the frame's payload to how `process` ends
 * and what it left in the output buffer; the output buffer's length is
 * the length of that value. The maximum NATS message size is a parameter.
 */
module NatsServer {
  import opened Frugal
  import opened Nats

  /** The `subjects` argument: one subject string, or a list of them. */
  datatype Subjects = One(subject: string) | Many(subjects: seq<string>)

  /** The subject list the server keeps: a single string as a one-element list, a list as it is. */
  function NormalizeSubjects(s: Subjects): (r: seq<string>)
    ensures s.One? ==> r == [s.subject]
    ensures s.Many? ==> r == s.subjects
  {
    match s
    case One(subject) => [subject]
    case Many(subjects) => subjects
  }

  /**
   * How `processor.process(iprot, oprot)` ends: normally, with a
   * TApplicationException, or with any other exception; `output` is what
   * the output buffer then holds (its 4-byte frame-size prefix included).
   */
  datatype ProcessOutcome =
    | Completed(output: seq<Byte>)
    | ApplicationError(output: seq<Byte>)
    | OtherError

  /** What `_on_message_callback` does with one message. */
  datatype Decision =
    | NoReply                                   // discarded: nobody to answer
    | DataTooShort                              // struct.unpack raises on fewer than four bytes
    | FrameTooLarge                             // dropped before processing
    | ProcessorFailed                           // process raised something other than TApplicationException
    | EmptyResponse                             // only the frame-size prefix was written
    | Publish(subject: string, data: seq<Byte>) // the output frame goes to the reply subject

  /** Whether the message reaches the processor. */
  predicate Processes(m: Message, maxMessageSize: int)
  {
    m.reply != "" && |m.data| >= FRAME_HEADER_SIZE && FrameSize(m.data) <= maxMessageSize - 4
  }

  /** The decision chain of `_on_message_callback`, given what the processor does with each payload. */
  function Decide(m: Message, maxMessageSize: int, processor: seq<Byte> -> ProcessOutcome): Decision
  {
    if m.reply == "" then NoReply
    else if |m.data| < FRAME_HEADER_SIZE then DataTooShort
    else if FrameSize(m.data) > maxMessageSize - 4 then FrameTooLarge
    else match processor(StripFrameHeader(m.data))
      case OtherError => ProcessorFailed
      case Completed(output) =>
        if |output| == 4 then EmptyResponse else Publish(m.reply, output)
      case ApplicationError(output) =>
        if |output| == 4 then EmptyResponse else Publish(m.reply, output)
  }

  /** The processor's view of the message: an input protocol over everything after the frame-size prefix. */
  lemma ProcessorInput(size: seq<Byte>, payload: seq<Byte>, reply: string, subject: string, maxMessageSize: int)
    requires |size| == FRAME_HEADER_SIZE && reply != ""
    requires BigEndian32(size[0], size[1], size[2], size[3]) <= maxMessageSize - 4
    ensures Processes(Message(subject, reply, size + payload), maxMessageSize)
    ensures StripFrameHeader((size + payload)) == payload
  {
    var data := size + payload;
    assert data[..4] == size;
    StripFrameHeaderOfFrame(size, payload);
  }

  /**
   * Only the three guards stand between a message and the processor: it
   * runs exactly when the message reaches it, and every other decision is a
   * drop that happens before it.
   */
  lemma ProcessedIff(m: Message, maxMessageSize: int, processor: seq<Byte> -> ProcessOutcome)
    ensures Processes(m, maxMessageSize) <==>
      Decide(m, maxMessageSize, processor) !in {NoReply, DataTooShort, FrameTooLarge}
  {
  }

  /**
   * A reply is published exactly when the processor runs, ends normally or
   * with a TApplicationException, and wrote more than the prefix; it goes
   * to the message's reply subject and carries the output unchanged.
   */
  lemma PublishIff(m: Message, maxMessageSize: int, processor: seq<Byte> -> ProcessOutcome)
    ensures var d := Decide(m, maxMessageSize, processor);
      d.Publish? <==>
        && Processes(m, maxMessageSize)
        && !processor(StripFrameHeader(m.data)).OtherError?
        && |processor(StripFrameHeader(m.data)).output| != 4
    ensures var d := Decide(m, maxMessageSize, processor);
      d.Publish? ==> d.subject == m.reply && d.data == processor(StripFrameHeader(m.data)).output
  {
  }

  /** A TApplicationException is answered just like a normal return: its output goes out all the same. */
  lemma ApplicationErrorAnswered(m: Message, maxMessageSize: int, processor: seq<Byte> -> ProcessOutcome, output: seq<Byte>)
    requires Processes(m, maxMessageSize)
    requires processor(StripFrameHeader(m.data)) == ApplicationError(output)
    ensures Decide(m, maxMessageSize, processor)
      == Decide(m, maxMessageSize, (p: seq<Byte>) => if p == StripFrameHeader(m.data) then Completed(output) else processor(p))
  {
  }

  /** The calls `serve` makes: one subscription per subject, in order, on the given queue. */
  function SubscribeCalls(subjects: seq<string>, queue: string, sids: seq<Sid>): (cs: seq<Call>)
    requires |sids| == |subjects|
    ensures |cs| == |subjects|
  {
    seq(|subjects|, i requires 0 <= i < |subjects| => SubscribeCall(subjects[i], queue, sids[i]))
  }

  /** The calls `stop` makes: one unsubscription per stored id, in order. */
  function UnsubscribeCalls(sids: seq<Sid>): (cs: seq<Call>)
    ensures |cs| == |sids|
  {
    seq(|sids|, i requires 0 <= i < |sids| => UnsubscribeCall(Some(sids[i])))
  }

  /** The ids `n` consecutive subscriptions receive from a client whose next id is `first`. */
  function ConsecutiveIds(first: Sid, n: nat): (ids: seq<Sid>)
    ensures |ids| == n
  {
    seq(n, i requires 0 <= i < n => first + i)
  }

  predicate Distinct(ids: seq<Sid>)
  {
    forall i, j :: 0 <= i < j < |ids| ==> ids[i] != ids[j]
  }

  lemma ConsecutiveIdsDistinct(first: Sid, n: nat)
    ensures Distinct(ConsecutiveIds(first, n))
  {
  }

  lemma UnsubscribeCallsCons(sids: seq<Sid>)
    requires sids != []
    ensures UnsubscribeCalls(sids) == [UnsubscribeCall(Some(sids[0]))] + UnsubscribeCalls(sids[1..])
  {
  }

  /** `stop` unsubscribes each id as often as it is stored. */
  lemma {:induction false} UnsubscribeCount(sids: seq<Sid>, sid: Sid)
    ensures multiset(UnsubscribeCalls(sids))[UnsubscribeCall(Some(sid))] == multiset(sids)[sid]
  {
    if sids != [] {
      var rest := sids[1..];
      UnsubscribeCount(rest, sid);
      UnsubscribeCallsCons(sids);
      assert sids == [sids[0]] + rest;
    } else {
      assert UnsubscribeCalls(sids) == [];
    }
  }

  /** In a list without repetitions every id occurs once. */
  lemma {:induction false} DistinctOccursOnce(sids: seq<Sid>, sid: Sid)
    requires Distinct(sids)
    ensures multiset(sids)[sid] == if sid in sids then 1 else 0
  {
    if sids != [] {
      var rest := sids[1..];
      assert Distinct(rest) by {
        forall i, j | 0 <= i < j < |rest| ensures rest[i] != rest[j] {
          assert rest[i] == sids[i + 1] && rest[j] == sids[j + 1];
        }
      }
      DistinctOccursOnce(rest, sid);
      assert sids == [sids[0]] + rest;
      if sids[0] == sid {
        assert sid !in rest by {
          forall k | 0 <= k < |rest| ensures rest[k] != sid {
            assert rest[k] == sids[k + 1];
          }
        }
      }
    }
  }

  /** With distinct ids, as `serve` stores them, `stop` unsubscribes every stored id exactly once and nothing else. */
  lemma UnsubscribeEachOnce(sids: seq<Sid>, sid: Sid)
    requires Distinct(sids)
    ensures multiset(UnsubscribeCalls(sids))[UnsubscribeCall(Some(sid))] == if sid in sids then 1 else 0
    ensures forall c :: c in UnsubscribeCalls(sids) ==> c.UnsubscribeCall? && c.unsubscribed.Some? && c.unsubscribed.value in sids
  {
    UnsubscribeCount(sids, sid);
    DistinctOccursOnce(sids, sid);
  }

  class FNatsServer {
    const client: Client
    const subjects: seq<string>
    const queue: string
    const processor: seq<Byte> -> ProcessOutcome
    /** _NATS_MAX_MESSAGE_SIZE. */
    const maxMessageSize: int
    var subIds: seq<Sid>
    /** The payloads handed to the processor, oldest first. */
    var processed: seq<seq<Byte>>

    ghost predicate Valid()
      reads this, client
    {
      client.Valid()
    }

    constructor (client: Client, subjects: Subjects, processor: seq<Byte> -> ProcessOutcome,
                 maxMessageSize: int, queue: string)
      requires client.Valid()
      ensures Valid()
      ensures this.client == client && this.subjects == NormalizeSubjects(subjects)
      ensures this.processor == processor && this.maxMessageSize == maxMessageSize && this.queue == queue
      ensures subIds == [] && processed == []
    {
      this.client := client;
      this.subjects := NormalizeSubjects(subjects);
      this.processor := processor;
      this.maxMessageSize := maxMessageSize;
      this.queue := queue;
      subIds := [];
      processed := [];
    }

    /** serve: a fresh id list holding one subscription per subject, in subject order. */
    method Serve()
      requires Valid()
      modifies this, client
      ensures Valid() && processed == old(processed)
      ensures subIds == ConsecutiveIds(old(client.nextSid), |subjects|)
      ensures client.nextSid == old(client.nextSid) + |subjects|
      ensures client.calls == old(client.calls) + SubscribeCalls(subjects, queue, subIds)
      ensures client.isConnected == old(client.isConnected)
    {
      subIds := [];
      var i := 0;
      while i < |subjects|
        invariant 0 <= i <= |subjects|
        invariant Valid() && processed == old(processed)
        invariant client.isConnected == old(client.isConnected)
        invariant client.nextSid == old(client.nextSid) + i
        invariant subIds == ConsecutiveIds(old(client.nextSid), i)
        invariant client.calls == old(client.calls) + SubscribeCalls(subjects[..i], queue, subIds)
      {
        var sid := client.SubscribeAsync(subjects[i], queue);
        assert SubscribeCalls(subjects[..i + 1], queue, subIds + [sid])
          == SubscribeCalls(subjects[..i], queue, subIds) + [SubscribeCall(subjects[i], queue, sid)];
        subIds := subIds + [sid];
        i := i + 1;
      }
      assert subjects[..i] == subjects;
    }

    /** stop: every stored id is unsubscribed, in order; the list itself is kept. */
    method Stop()
      modifies client`calls
      ensures client.calls == old(client.calls) + UnsubscribeCalls(subIds)
    {
      var i := 0;
      while i < |subIds|
        invariant 0 <= i <= |subIds|
        invariant client.calls == old(client.calls) + UnsubscribeCalls(subIds[..i])
      {
        client.Unsubscribe(Some(subIds[i]));
        assert UnsubscribeCalls(subIds[..i + 1]) == UnsubscribeCalls(subIds[..i]) + [UnsubscribeCall(Some(subIds[i]))];
        i := i + 1;
      }
      assert subIds[..i] == subIds;
    }

    /**
     * _on_message_callback. The processor is called at most once, with the
     * payload after the prefix, and the only call on the client is the
     * publication of the reply.
     */
    method OnMessageCallback(m: Message) returns (d: Decision)
      modifies this`processed, client`calls
      ensures d == Decide(m, maxMessageSize, processor)
      ensures processed == old(processed) + (if Processes(m, maxMessageSize) then [StripFrameHeader(m.data)] else [])
      ensures client.calls == old(client.calls) + (if d.Publish? then [PublishCall(d.subject, d.data)] else [])
    {
      if m.reply == "" {
        return NoReply;
      }
      if |m.data| < FRAME_HEADER_SIZE {
        return DataTooShort;
      }
      var frameSize := FrameSize(m.data);
      if frameSize > maxMessageSize - 4 {
        return FrameTooLarge;
      }
      var payload := StripFrameHeader(m.data);
      processed := processed + [payload];
      var outcome := processor(payload);
      if outcome.OtherError? {
        return ProcessorFailed;
      }
      // a TApplicationException is answered like a normal return
      if |outcome.output| == 4 {
        return EmptyResponse;
      }
      client.Publish(m.reply, outcome.output);
      d := Publish(m.reply, outcome.output);
    }
  }
}
