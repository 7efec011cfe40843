/**
 * FBaseProcessor, the server-side dispatcher that generated processors
 * extend. It builds its method table lazily, reads the request header and
 * message header, and either runs the handler registered for the method or
 * answers with an UNKNOWN_METHOD application exception. A handler that
 * fails with a runtime error gets an INTERNAL_ERROR exception written for
 * it, and the error is raised again to the caller of `Process`.
 *
 * The protocols are modelled as logs: the input protocol records what was
 * read from it, the output protocol records every write, in order.
 */
module BaseProcessor {
  import opened Frugal

  /** The request context read from the request header; the correlation id is all the base uses. */
  datatype Context = Context(correlationId: string)

  datatype MessageType = Call | Reply | Exception | Oneway

  /** A Thrift application exception: its type code and message. */
  datatype AppException = AppException(kind: int, message: string)

  /** One write made on an output protocol. */
  datatype WriteEvent =
    | Reset
    | ResponseHeader(ctx: Context)
    | MessageBegin(name: string, msgType: MessageType, seqid: int)
    | ExceptionBody(exn: AppException)
    | MessageEnd
    | TransportFlush
    /** Bytes a generated handler writes, opaque to the base. */
    | HandlerBytes(bytes: seq<Byte>)

  /** One read made on an input protocol by the base. */
  datatype ReadEvent = HeaderRead | MessageBeginRead | StructSkipped | MessageEndRead

  /**
   * How a generated handler ends. `ProtocolError` is a TException: the
   * generated code has already written its error response before raising
   * it. `RuntimeError` is an unchecked exception from user code.
   */
  datatype HandlerOutcome = Completed | ProtocolError | RuntimeError(message: string)

  /** A generated handler: what it writes to the output protocol and how it ends. */
  datatype Handler = Handler(output: seq<WriteEvent>, outcome: HandlerOutcome)

  /** How `process` ends: normally, or by re-raising a handler's runtime error. */
  datatype ProcessResult = Returned | Raised(error: HandlerOutcome)

  /** The events `writeApplicationException` produces, in order. */
  function ExceptionFrame(ctx: Context, methodName: string, x: AppException): (frame: seq<WriteEvent>)
    ensures |frame| == 6 && frame[0] == Reset && frame[|frame| - 1] == TransportFlush
  {
    [Reset, ResponseHeader(ctx), MessageBegin(methodName, Exception, 0), ExceptionBody(x), MessageEnd, TransportFlush]
  }

  /** The number of application exceptions in a write log. */
  function CountExceptionBodies(log: seq<WriteEvent>): nat
  {
    if log == [] then 0
    else (if log[0].ExceptionBody? then 1 else 0) + CountExceptionBodies(log[1..])
  }

  lemma {:induction false} CountExceptionBodiesAppend(a: seq<WriteEvent>, b: seq<WriteEvent>)
    ensures CountExceptionBodies(a + b) == CountExceptionBodies(a) + CountExceptionBodies(b)
  {
    if a == [] {
      assert a + b == b;
    } else {
      assert (a + b)[1..] == a[1..] + b;
      CountExceptionBodiesAppend(a[1..], b);
    }
  }

  /** An exception frame carries exactly one exception, the one it was built for. */
  lemma ExceptionFrameHasOneException(ctx: Context, methodName: string, x: AppException)
    ensures CountExceptionBodies(ExceptionFrame(ctx, methodName, x)) == 1
    ensures forall i :: 0 <= i < 6 && ExceptionFrame(ctx, methodName, x)[i].ExceptionBody? ==>
      i == 3 && ExceptionFrame(ctx, methodName, x)[i].exn == x
  {
    var f := ExceptionFrame(ctx, methodName, x);
    assert f[5..][1..] == [];
    assert CountExceptionBodies(f[5..]) == 0;
    assert f[4..][1..] == f[5..];
    assert CountExceptionBodies(f[4..]) == 0;
    assert f[3..][1..] == f[4..];
    assert CountExceptionBodies(f[3..]) == 1;
    assert f[2..][1..] == f[3..];
    assert CountExceptionBodies(f[2..]) == 1;
    assert f[1..][1..] == f[2..];
    assert CountExceptionBodies(f[1..]) == 1;
  }

  /** The exception the base writes for a method missing from the table. */
  function UnknownMethodException(name: string): AppException
  {
    AppException(UNKNOWN_METHOD, "Unknown function " + name)
  }

  /** The exception the base writes for a handler's runtime error. */
  function InternalErrorException(name: string): AppException
  {
    AppException(INTERNAL_ERROR, "Internal error processing " + name)
  }

  /**
   * What the base itself writes for a request (the handler's own output
   * excluded): nothing after a handler that completes or raises a
   * TException, one INTERNAL_ERROR frame after a runtime error, one
   * UNKNOWN_METHOD frame when no handler is registered.
   */
  function BaseWrites(table: map<string, Handler>, ctx: Context, name: string): seq<WriteEvent>
  {
    if name !in table then ExceptionFrame(ctx, name, UnknownMethodException(name))
    else if table[name].outcome.RuntimeError? then ExceptionFrame(ctx, name, InternalErrorException(name))
    else []
  }

  /** The base writes an exception frame exactly when the handler is missing or fails at runtime. */
  lemma BaseWritesOneExceptionIffFailure(table: map<string, Handler>, ctx: Context, name: string)
    ensures var failed := name !in table || table[name].outcome.RuntimeError?;
      CountExceptionBodies(BaseWrites(table, ctx, name)) == (if failed then 1 else 0)
    ensures var w := BaseWrites(table, ctx, name);
      name !in table ==> w[2] == MessageBegin(name, Exception, 0) && w[3].exn.kind == UNKNOWN_METHOD
    ensures var w := BaseWrites(table, ctx, name);
      name in table && table[name].outcome.RuntimeError? ==>
        w[2] == MessageBegin(name, Exception, 0) && w[3].exn.kind == INTERNAL_ERROR
  {
    if name !in table {
      ExceptionFrameHasOneException(ctx, name, UnknownMethodException(name));
    } else if table[name].outcome.RuntimeError? {
      ExceptionFrameHasOneException(ctx, name, InternalErrorException(name));
    }
  }

  /**
   * Across a handler run, the number of exceptions in the whole log grows
   * by those the handler wrote plus exactly one when the base wrote a frame.
   */
  lemma {:induction false} ProcessLogExceptionCount(before: seq<WriteEvent>, table: map<string, Handler>, ctx: Context, name: string)
    ensures var handlerOut := if name in table then table[name].output else [];
      var failed := name !in table || table[name].outcome.RuntimeError?;
      CountExceptionBodies(before + handlerOut + BaseWrites(table, ctx, name))
        == CountExceptionBodies(before) + CountExceptionBodies(handlerOut) + (if failed then 1 else 0)
  {
    var handlerOut := if name in table then table[name].output else [];
    CountExceptionBodiesAppend(before + handlerOut, BaseWrites(table, ctx, name));
    CountExceptionBodiesAppend(before, handlerOut);
    BaseWritesOneExceptionIffFailure(table, ctx, name);
  }

  /** An input protocol positioned at a request for method `name` with context `ctx`. */
  class InputProtocol {
    const ctx: Context
    const name: string
    var readLog: seq<ReadEvent>

    constructor (ctx: Context, name: string)
      ensures this.ctx == ctx && this.name == name && readLog == []
    {
      this.ctx := ctx;
      this.name := name;
      readLog := [];
    }

    method ReadRequestHeader() returns (c: Context)
      modifies this`readLog
      ensures c == ctx && readLog == old(readLog) + [HeaderRead]
    {
      c := ctx;
      readLog := readLog + [HeaderRead];
    }

    method ReadMessageBegin() returns (n: string)
      modifies this`readLog
      ensures n == name && readLog == old(readLog) + [MessageBeginRead]
    {
      n := name;
      readLog := readLog + [MessageBeginRead];
    }

    method SkipStruct()
      modifies this`readLog
      ensures readLog == old(readLog) + [StructSkipped]
    {
      readLog := readLog + [StructSkipped];
    }

    method ReadMessageEnd()
      modifies this`readLog
      ensures readLog == old(readLog) + [MessageEndRead]
    {
      readLog := readLog + [MessageEndRead];
    }
  }

  /** An output protocol: every write is appended to its log. */
  class OutputProtocol {
    var log: seq<WriteEvent>

    constructor ()
      ensures log == []
    {
      log := [];
    }

    method Write(e: WriteEvent)
      modifies this
      ensures log == old(log) + [e]
    {
      log := log + [e];
    }

    method WriteAll(es: seq<WriteEvent>)
      modifies this
      ensures log == old(log) + es
    {
      log := log + es;
    }
  }

  /**
   * writeApplicationException: reset, response header, exception message
   * header (sequence id 0), exception body, message end, flush. Returns
   * the exception it wrote.
   */
  method WriteApplicationException(ctx: Context, oprot: OutputProtocol, kind: int, methodName: string, message: string)
    returns (x: AppException)
    modifies oprot
    ensures x == AppException(kind, message)
    ensures oprot.log == old(oprot.log) + ExceptionFrame(ctx, methodName, x)
  {
    x := AppException(kind, message);
    oprot.Write(Reset);
    oprot.Write(ResponseHeader(ctx));
    oprot.Write(MessageBegin(methodName, Exception, 0));
    oprot.Write(ExceptionBody(x));
    oprot.Write(MessageEnd);
    oprot.Write(TransportFlush);
  }

  class FBaseProcessor {
    /** What the generated subclass's getProcessMap() returns. */
    const declaredProcessMap: map<string, Handler>
    /** What the generated subclass's getAnnotationsMap() returns. */
    const declaredAnnotations: map<string, map<string, string>>

    var processMap: Option<map<string, Handler>>
    var annotationsMap: Option<map<string, map<string, string>>>

    /** How often getProcessMap() and getAnnotationsMap() have been called. */
    ghost var processMapBuilds: nat
    ghost var annotationsMapBuilds: nat
    /** The methods whose handlers have been run, oldest first. */
    ghost var invoked: seq<string>

    /** Each map is fetched at most once, and once fetched is the declared one. */
    ghost predicate Valid()
      reads this
    {
      && processMapBuilds <= 1
      && (processMap.None? <==> processMapBuilds == 0)
      && (processMap.Some? ==> processMap.value == declaredProcessMap)
      && annotationsMapBuilds <= 1
      && (annotationsMap.None? <==> annotationsMapBuilds == 0)
      && (annotationsMap.Some? ==> annotationsMap.value == declaredAnnotations)
    }

    constructor (handlers: map<string, Handler>, annotations: map<string, map<string, string>>)
      ensures Valid()
      ensures declaredProcessMap == handlers && declaredAnnotations == annotations
      ensures processMap.None? && annotationsMap.None? && invoked == []
    {
      declaredProcessMap := handlers;
      declaredAnnotations := annotations;
      processMap := None;
      annotationsMap := None;
      processMapBuilds := 0;
      annotationsMapBuilds := 0;
      invoked := [];
    }

    method GetProcessMap() returns (m: map<string, Handler>)
      modifies this`processMapBuilds
      ensures m == declaredProcessMap && processMapBuilds == old(processMapBuilds) + 1
    {
      m := declaredProcessMap;
      processMapBuilds := processMapBuilds + 1;
    }

    method GetAnnotationsMap() returns (m: map<string, map<string, string>>)
      modifies this`annotationsMapBuilds
      ensures m == declaredAnnotations && annotationsMapBuilds == old(annotationsMapBuilds) + 1
    {
      m := declaredAnnotations;
      annotationsMapBuilds := annotationsMapBuilds + 1;
    }

    /** Runs a generated handler: its output goes to `oprot`. */
    method RunHandler(h: Handler, name: string, oprot: OutputProtocol) returns (outcome: HandlerOutcome)
      modifies this`invoked, oprot
      ensures outcome == h.outcome
      ensures oprot.log == old(oprot.log) + h.output && invoked == old(invoked) + [name]
    {
      oprot.WriteAll(h.output);
      invoked := invoked + [name];
      outcome := h.outcome;
    }

    method Process(iprot: InputProtocol, oprot: OutputProtocol) returns (r: ProcessResult)
      requires Valid()
      modifies this, iprot, oprot
      ensures Valid()
      ensures processMap == Some(declaredProcessMap)
      ensures processMapBuilds == if old(processMap).None? then 1 else old(processMapBuilds)
      ensures annotationsMap == old(annotationsMap) && annotationsMapBuilds == old(annotationsMapBuilds)
      ensures var name := iprot.name;
        oprot.log == old(oprot.log)
                     + (if name in declaredProcessMap then declaredProcessMap[name].output else [])
                     + BaseWrites(declaredProcessMap, iprot.ctx, name)
      // the handler runs exactly when one is registered for the method
      ensures invoked == old(invoked) + (if iprot.name in declaredProcessMap then [iprot.name] else [])
      // the remaining body is skipped only for an unknown method
      ensures iprot.readLog == old(iprot.readLog) + [HeaderRead, MessageBeginRead]
        + (if iprot.name in declaredProcessMap then [] else [StructSkipped, MessageEndRead])
      // a runtime error is raised again; everything else returns normally
      ensures r == if iprot.name in declaredProcessMap && declaredProcessMap[iprot.name].outcome.RuntimeError?
        then Raised(declaredProcessMap[iprot.name].outcome) else Returned
    {
      if processMap.None? {
        var m := GetProcessMap();
        processMap := Some(m);
      }
      var table := processMap.value;
      var ctx := iprot.ReadRequestHeader();
      var name := iprot.ReadMessageBegin();
      if name in table {
        var outcome := RunHandler(table[name], name, oprot);
        match outcome {
          case Completed =>
          case ProtocolError =>
            // the generated handler already wrote its error response
          case RuntimeError(_) =>
            var _ := WriteApplicationException(ctx, oprot, INTERNAL_ERROR, name,
              "Internal error processing " + name);
            return Raised(outcome);
        }
        return Returned;
      }
      iprot.SkipStruct();
      iprot.ReadMessageEnd();
      var _ := WriteApplicationException(ctx, oprot, UNKNOWN_METHOD, name, "Unknown function " + name);
      r := Returned;
    }

    /** getAnnotations: fetches the annotations map on first use and returns it by value. */
    method GetAnnotations() returns (m: map<string, map<string, string>>)
      requires Valid()
      modifies this`annotationsMap, this`annotationsMapBuilds
      ensures Valid()
      ensures m == declaredAnnotations && annotationsMap == Some(declaredAnnotations)
      ensures annotationsMapBuilds == if old(annotationsMap).None? then 1 else old(annotationsMapBuilds)
    {
      if annotationsMap.None? {
        var a := GetAnnotationsMap();
        annotationsMap := Some(a);
      }
      m := annotationsMap.value;
    }
  }
}
