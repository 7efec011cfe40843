/**
 * FAdapterTransport: an FAsyncTransport over a blocking TTransport. Opening
 * it opens the framed transport (an already-open one is fine), creates a
 * single-thread executor and submits one reader to it; the reader hands
 * every frame it reads to `handleResponse` and closes the transport when a
 * read or the handling of a frame fails.
 *
 * The parent FAsyncTransport and the TFramedTransport are not part of this
 * model: the parent is its open flag plus a record of `close(cause)`, the
 * framed transport is the open flag of the wrapped transport, and the
 * outcome of each blocking read is an input. Everything observable is
 * appended to an event log.
 */
module AdapterTransport {
  import opened Frugal

  /** The exception given to `close`: a transport exception of some kind, or any other exception. */
  datatype Cause = TransportCause(kind: TransportErrorKind) | OtherCause(description: string)

  /** One observable step of the transport, in the order it happens. */
  datatype Event =
    | FramedOpened
    | ExecutorCreated(executor: nat)
    | ReaderSubmitted(executor: nat)
    | ParentOpened
    | ParentClosed(cause: Option<Cause>)
    | ExecutorShutdown(executor: nat)
    | FramedClosed
    | Wrote(bytes: seq<Byte>)
    | TransportFlushed
    | ResponseHandled(frame: seq<Byte>)

  /**
   * The outcome of one `readFrame` call, and for a frame whether
   * `handleResponse` raised a TException on it.
   */
  datatype ReadResult =
    | Frame(payload: seq<Byte>, handleError: Option<Cause>)
    | ReadError(kind: TransportErrorKind)

  /**
   * How `close(cause)` ends: without doing anything, after closing
   * everything, or with a NullPointerException from `readExecutor` when
   * the transport was never opened (the parent was already closed then).
   */
  datatype CloseOutcome = NothingToClose | Closed | NullExecutor

  /** isCleanClose: no cause (closed by the user), or the remote peer's END_OF_FILE. */
  predicate IsCleanClose(cause: Option<Cause>)
  {
    match cause
    case None => true
    case Some(TransportCause(kind)) => kind == EndOfFile
    case Some(OtherCause(_)) => false
  }

  /** The events of `close(cause)` on a transport with the given state. */
  function CloseEffect(isOpen: bool, executor: Option<nat>, cause: Option<Cause>): (effect: seq<Event>)
    ensures effect == [] <==> IsCleanClose(cause) && !isOpen
    ensures effect != [] ==> effect[0] == ParentClosed(cause)
    ensures effect != [] && executor.Some? ==>
      effect == [ParentClosed(cause), ExecutorShutdown(executor.value), FramedClosed]
  {
    if IsCleanClose(cause) && !isOpen then []
    else [ParentClosed(cause)] + (if executor.None? then [] else [ExecutorShutdown(executor.value), FramedClosed])
  }

  /** The cause the reader closes with after a failed read. */
  function ReadCloseCause(kind: TransportErrorKind): (cause: Option<Cause>)
    ensures IsCleanClose(cause) <==> kind == EndOfFile
  {
    if kind == EndOfFile then None else Some(TransportCause(kind))
  }

  /** A read result on which the reader stops. */
  predicate Stops(r: ReadResult)
  {
    r.ReadError? || r.handleError.Some?
  }

  /**
   * The cause the reader closes the transport with, from the `i`-th read
   * on; None when the results run out while it is still reading.
   */
  function ReaderClose(results: seq<ReadResult>, i: nat): Option<Option<Cause>>
    requires i <= |results|
    decreases |results| - i
  {
    if i == |results| then None
    else match results[i]
      case ReadError(kind) => Some(ReadCloseCause(kind))
      case Frame(_, handleError) =>
        if handleError.Some? then Some(handleError) else ReaderClose(results, i + 1)
  }

  /**
   * The events of the reader from the `i`-th read on, on a transport in
   * the given state: each frame is handed to `handleResponse`, and the
   * first failure is followed by the effect of `close(cause)`.
   */
  function ReaderLog(results: seq<ReadResult>, i: nat, isOpen: bool, executor: Option<nat>): seq<Event>
    requires i <= |results|
    decreases |results| - i
  {
    if i == |results| then []
    else match results[i]
      case ReadError(kind) => CloseEffect(isOpen, executor, ReadCloseCause(kind))
      case Frame(payload, handleError) =>
        [ResponseHandled(payload)]
        + if handleError.Some? then CloseEffect(isOpen, executor, handleError)
          else ReaderLog(results, i + 1, isOpen, executor)
  }

  /** The index of the first read the reader stops on, or |results| when there is none. */
  function FirstStop(results: seq<ReadResult>, i: nat): (s: nat)
    requires i <= |results|
    ensures i <= s <= |results|
    ensures s < |results| ==> Stops(results[s])
    ensures forall j :: i <= j < s ==> !Stops(results[j])
    decreases |results| - i
  {
    if i == |results| || Stops(results[i]) then i else FirstStop(results, i + 1)
  }

  /** The payloads of results[i..j]; the results are frames there. */
  function Payloads(results: seq<ReadResult>, i: nat, j: nat): (ps: seq<seq<Byte>>)
    requires i <= j <= |results|
    requires forall k :: i <= k < j ==> results[k].Frame?
    ensures |ps| == j - i
  {
    seq(j - i, k requires 0 <= k < j - i => results[i + k].payload)
  }

  /** The events of handing each payload to `handleResponse`. */
  function HandledEvents(frames: seq<seq<Byte>>): (es: seq<Event>)
    ensures |es| == |frames|
  {
    seq(|frames|, k requires 0 <= k < |frames| => ResponseHandled(frames[k]))
  }

  /** The cause a stopping read closes the transport with. */
  function StopCause(r: ReadResult): Option<Cause>
    requires Stops(r)
  {
    match r
    case ReadError(kind) => ReadCloseCause(kind)
    case Frame(_, handleError) => handleError
  }

  /** At a read that stops it, the reader hands over the frame if there is one, then closes. */
  lemma ReaderStopStep(results: seq<ReadResult>, i: nat, isOpen: bool, executor: Option<nat>)
    requires i < |results| && Stops(results[i])
    ensures ReaderClose(results, i) == Some(StopCause(results[i]))
    ensures ReaderLog(results, i, isOpen, executor)
      == (if results[i].Frame? then [ResponseHandled(results[i].payload)] else [])
         + CloseEffect(isOpen, executor, StopCause(results[i]))
  {
  }

  /** An index before which nothing stops the reader, and at which it stops or the results end, is the first stop. */
  lemma {:induction false} FirstStopAt(results: seq<ReadResult>, j: nat, i: nat)
    requires j <= i <= |results|
    requires forall k :: j <= k < i ==> !Stops(results[k])
    requires i < |results| ==> Stops(results[i])
    ensures FirstStop(results, j) == i
    decreases i - j
  {
    if j < i {
      FirstStopAt(results, j + 1, i);
    }
  }

  lemma AppendAssociative(a: seq<Event>, b: seq<Event>, c: seq<Event>)
    ensures a + (b + c) == (a + b) + c
  {
  }

  /** A frame handled without error: its event, then the rest of the reader's run. */
  lemma ReaderHandleStep(results: seq<ReadResult>, i: nat, isOpen: bool, executor: Option<nat>)
    requires i < |results| && !Stops(results[i])
    ensures ReaderClose(results, i) == ReaderClose(results, i + 1)
    ensures ReaderLog(results, i, isOpen, executor)
      == [ResponseHandled(results[i].payload)] + ReaderLog(results, i + 1, isOpen, executor)
  {
  }

  lemma HandledPayloadsCons(results: seq<ReadResult>, i: nat, j: nat)
    requires i < j <= |results|
    requires forall k :: i <= k < j ==> results[k].Frame?
    ensures HandledEvents(Payloads(results, i, j))
      == [ResponseHandled(results[i].payload)] + HandledEvents(Payloads(results, i + 1, j))
  {
  }

  /** Frames handled without error contribute their `handleResponse` events and nothing else. */
  lemma {:induction false} ReaderLogSplit(results: seq<ReadResult>, i: nat, j: nat, isOpen: bool, executor: Option<nat>)
    requires i <= j <= |results|
    requires forall k :: i <= k < j ==> !Stops(results[k]) && results[k].Frame?
    ensures ReaderLog(results, i, isOpen, executor)
      == HandledEvents(Payloads(results, i, j)) + ReaderLog(results, j, isOpen, executor)
    ensures ReaderClose(results, i) == ReaderClose(results, j)
    decreases j - i
  {
    if i < j {
      ReaderLogSplit(results, i + 1, j, isOpen, executor);
      ReaderHandleStep(results, i, isOpen, executor);
      HandledPayloadsCons(results, i, j);
      AppendAssociative([ResponseHandled(results[i].payload)], HandledEvents(Payloads(results, i + 1, j)),
                        ReaderLog(results, j, isOpen, executor));
    } else {
      assert HandledEvents(Payloads(results, i, j)) == [];
    }
  }

  /**
   * The reader closes with the first failure: with the failed handling's
   * cause, with no cause after END_OF_FILE, or with the read error itself.
   * Without any failure it does not close.
   */
  lemma ReaderCloseSpec(results: seq<ReadResult>)
    ensures var s := FirstStop(results, 0);
      && (s == |results| ==> ReaderClose(results, 0).None?)
      && (s < |results| ==> ReaderClose(results, 0) == Some(StopCause(results[s])))
  {
    var s := FirstStop(results, 0);
    ReaderLogSplit(results, 0, s, false, None);
    if s < |results| {
      ReaderStopStep(results, s, false, None);
    }
  }

  /**
   * The reader hands every frame up to its first failure to
   * `handleResponse` in read order (a frame whose handling fails included)
   * and then closes exactly once; without any failure it hands over every
   * frame and closes nothing.
   */
  lemma ReaderLogSpec(results: seq<ReadResult>, isOpen: bool, executor: Option<nat>)
    ensures var s := FirstStop(results, 0); var log := ReaderLog(results, 0, isOpen, executor);
      && (s == |results| ==> log == HandledEvents(Payloads(results, 0, s)))
      && (s < |results| && results[s].ReadError? ==>
            log == HandledEvents(Payloads(results, 0, s)) + CloseEffect(isOpen, executor, ReadCloseCause(results[s].kind)))
      && (s < |results| && results[s].Frame? ==>
            log == HandledEvents(Payloads(results, 0, s)) + [ResponseHandled(results[s].payload)]
                   + CloseEffect(isOpen, executor, results[s].handleError))
  {
    var s := FirstStop(results, 0);
    ReaderLogSplit(results, 0, s, isOpen, executor);
    if s < |results| {
      ReaderStopStep(results, s, isOpen, executor);
    }
  }

  /** The reader closes at all exactly when some read makes it stop. */
  lemma ReaderClosesIffStop(results: seq<ReadResult>)
    ensures ReaderClose(results, 0).Some? <==> exists j :: 0 <= j < |results| && Stops(results[j])
  {
    ReaderCloseSpec(results);
    var s := FirstStop(results, 0);
    if s == |results| {
      assert forall j :: 0 <= j < |results| ==> !Stops(results[j]);
    }
  }

  /** When a read fails first, the reader's close is clean exactly when that read hit END_OF_FILE. */
  lemma ReaderCleanCloseIffEndOfFile(results: seq<ReadResult>)
    requires FirstStop(results, 0) < |results| && results[FirstStop(results, 0)].ReadError?
    ensures ReaderClose(results, 0).Some?
    ensures IsCleanClose(ReaderClose(results, 0).value) <==> results[FirstStop(results, 0)].kind == EndOfFile
  {
    ReaderCloseSpec(results);
  }

  class FAdapterTransport {
    /** The parent FAsyncTransport's own open state. */
    var parentOpen: bool
    /** Whether the framed transport (hence the wrapped transport) is open. */
    var framedOpen: bool
    /** The id of the executor in `readExecutor`, None while it is null. */
    var readExecutor: Option<nat>
    var executorsCreated: nat
    var events: seq<Event>
    /** Every call of `close(cause)`, oldest first. */
    ghost var closeCalls: seq<Option<Cause>>

    ghost predicate Valid()
      reads this
    {
      (readExecutor.Some? ==> readExecutor.value < executorsCreated)
    }

    constructor (wrappedOpen: bool)
      ensures Valid()
      ensures !parentOpen && framedOpen == wrappedOpen && readExecutor.None?
      ensures executorsCreated == 0 && events == [] && closeCalls == []
    {
      parentOpen := false;
      framedOpen := wrappedOpen;
      readExecutor := None;
      executorsCreated := 0;
      events := [];
      closeCalls := [];
    }

    predicate IsOpen()
      reads this
    {
      parentOpen && framedOpen
    }

    /**
     * open. `framedOpenError` is what opening the framed transport raises,
     * None when it succeeds.
     */
    method Open(framedOpenError: Option<TransportError>) returns (raised: Option<TransportError>)
      requires Valid()
      modifies this
      ensures Valid() && closeCalls == old(closeCalls)
      ensures old(IsOpen()) ==>
        raised == Some(TransportError(AlreadyOpen, "Transport already open"))
        && events == old(events) && readExecutor == old(readExecutor)
        && parentOpen == old(parentOpen) && framedOpen == old(framedOpen)
        && executorsCreated == old(executorsCreated)
      ensures !old(IsOpen()) && framedOpenError.Some? && framedOpenError.value.kind != AlreadyOpen ==>
        raised == framedOpenError
        && events == old(events) && readExecutor == old(readExecutor)
        && parentOpen == old(parentOpen) && framedOpen == old(framedOpen)
        && executorsCreated == old(executorsCreated)
      ensures !old(IsOpen()) && (framedOpenError.None? || framedOpenError.value.kind == AlreadyOpen) ==>
        var id := old(executorsCreated);
        && raised.None? && IsOpen()
        && readExecutor == Some(id) && executorsCreated == id + 1
        && events == old(events) + (if framedOpenError.None? then [FramedOpened] else [])
                    + [ExecutorCreated(id), ReaderSubmitted(id), ParentOpened]
    {
      if IsOpen() {
        return Some(TransportError(AlreadyOpen, "Transport already open"));
      }
      match framedOpenError {
        case None =>
          framedOpen := true;
          events := events + [FramedOpened];
        case Some(e) =>
          // It is fine if the wrapped transport is already open.
          if e.kind != AlreadyOpen {
            return Some(e);
          }
          framedOpen := true;
      }
      var id := executorsCreated;
      executorsCreated := executorsCreated + 1;
      readExecutor := Some(id);
      events := events + [ExecutorCreated(id)];
      events := events + [ReaderSubmitted(id)];
      parentOpen := true;
      events := events + [ParentOpened];
      raised := None;
    }

    /** close(cause); `close()` is `Close(None)`. */
    method Close(cause: Option<Cause>) returns (outcome: CloseOutcome)
      requires Valid()
      modifies this
      ensures Valid()
      ensures closeCalls == old(closeCalls) + [cause]
      ensures events == old(events) + CloseEffect(old(IsOpen()), old(readExecutor), cause)
      ensures readExecutor == old(readExecutor) && executorsCreated == old(executorsCreated)
      ensures outcome == NothingToClose <==> IsCleanClose(cause) && !old(IsOpen())
      ensures outcome == NothingToClose ==> parentOpen == old(parentOpen) && framedOpen == old(framedOpen)
      ensures outcome == NullExecutor <==> outcome != NothingToClose && old(readExecutor).None?
      ensures outcome == NullExecutor ==> !parentOpen && framedOpen == old(framedOpen)
      ensures outcome == Closed ==> !parentOpen && !framedOpen
    {
      closeCalls := closeCalls + [cause];
      if IsCleanClose(cause) && !IsOpen() {
        return NothingToClose;
      }
      parentOpen := false;
      events := events + [ParentClosed(cause)];
      if readExecutor.None? {
        return NullExecutor;
      }
      events := events + [ExecutorShutdown(readExecutor.value)];
      framedOpen := false;
      events := events + [FramedClosed];
      outcome := Closed;
    }

    /** flush: the already-framed payload goes to the wrapped transport unchanged, then it is flushed. */
    method Flush(payload: seq<Byte>)
      modifies this`events
      ensures events == old(events) + [Wrote(payload), TransportFlushed]
    {
      events := events + [Wrote(payload)];
      events := events + [TransportFlushed];
    }

    method HandleResponse(frame: seq<Byte>)
      modifies this`events
      ensures events == old(events) + [ResponseHandled(frame)]
    {
      events := events + [ResponseHandled(frame)];
    }

    /**
     * The reader's loop up to the read it stops on: each frame read and
     * handled without error goes to `handleResponse`.
     */
    method HandleFrames(results: seq<ReadResult>) returns (i: nat)
      modifies this`events
      ensures i == FirstStop(results, 0)
      ensures ReaderClose(results, 0) == ReaderClose(results, i)
      ensures old(events) + ReaderLog(results, 0, IsOpen(), readExecutor)
        == events + ReaderLog(results, i, IsOpen(), readExecutor)
    {
      ghost var isOpen, executor := IsOpen(), readExecutor;
      i := 0;
      while i < |results| && !Stops(results[i])
        invariant 0 <= i <= |results|
        invariant forall k :: 0 <= k < i ==> !Stops(results[k])
        invariant ReaderClose(results, 0) == ReaderClose(results, i)
        invariant old(events) + ReaderLog(results, 0, isOpen, executor)
          == events + ReaderLog(results, i, isOpen, executor)
        decreases |results| - i
      {
        ReaderHandleStep(results, i, isOpen, executor);
        ghost var before := events;
        HandleResponse(results[i].payload);
        AppendAssociative(before, [ResponseHandled(results[i].payload)], ReaderLog(results, i + 1, isOpen, executor));
        i := i + 1;
      }
      FirstStopAt(results, 0, i);
    }

    /**
     * TransportReader.run over the given read outcomes. It returns the
     * cause it closed with, or None when the results ran out while it was
     * still reading.
     */
    method RunReader(results: seq<ReadResult>) returns (closedWith: Option<Option<Cause>>)
      requires Valid()
      modifies this
      ensures Valid()
      ensures closedWith == ReaderClose(results, 0)
      ensures closeCalls == old(closeCalls) + (if closedWith.Some? then [closedWith.value] else [])
      ensures events == old(events) + ReaderLog(results, 0, old(IsOpen()), old(readExecutor))
      ensures readExecutor == old(readExecutor) && executorsCreated == old(executorsCreated)
      // without a close, or with a clean close of a transport that is not open, the flags stay
      ensures closedWith.None? || (IsCleanClose(closedWith.value) && !old(IsOpen())) ==>
        parentOpen == old(parentOpen) && framedOpen == old(framedOpen)
      // any other close leaves the transport closed
      ensures closedWith.Some? && !(IsCleanClose(closedWith.value) && !old(IsOpen())) ==>
        !parentOpen && !IsOpen() && (old(readExecutor).Some? ==> !framedOpen)
    {
      var i := HandleFrames(results);
      if i == |results| {
        // the reader is still blocked in readFrame
        return None;
      }
      ReaderStopStep(results, i, IsOpen(), readExecutor);
      var r := results[i];
      if r.Frame? {
        HandleResponse(r.payload);
      }
      // END_OF_FILE means the remote peer disconnected: a clean close
      var cause := StopCause(r);
      var _ := Close(cause);
      closedWith := Some(cause);
    }
  }
}
