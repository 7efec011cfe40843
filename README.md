# frugal core in Dafny

A model of the core of frugal, Workiva's Thrift extension with request
contexts, pub/sub scopes and pluggable transports. It covers seven pieces:

- **Server dispatch.** `FBaseProcessor` is the Java server dispatcher. It builds its method table lazily. It then runs the handler registered for the incoming method, or answers with an UNKNOWN_METHOD application exception. A handler's runtime error is answered with an INTERNAL_ERROR exception and raised again.
- **Adapter transport.** `FAdapterTransport` is the Java transport that adapts a blocking Thrift transport. The model covers its open/close lifecycle and its reader loop: every frame read goes to `handleResponse`, and the loop closes the transport once, on the first failure.
- **NATS server.** `FNatsServer` is the Python asyncio server. The model covers subject normalisation, `serve`, `stop`, and the drop/process/publish decision chain for each request message.
- **HTTP transport.** `FHttpTransport` is the Python asyncio transport over HTTP. The model covers its default headers and the header merge. It also covers how a response is classified: an error kind, an empty one-way answer, or a response frame with its 4-byte size prefix removed.
- **NATS request transport.** `FNatsTransport` is the Python request transport over NATS. It subscribes its inbox on `open`, unsubscribes on `close`, strips the frame prefix from incoming messages and publishes request frames.
- **Pub/sub transports.** `FNatsPublisherTransport` and `FNatsSubscriberTransport` are the pub/sub scope transports, with their factories. Topics map to the NATS subject `"frugal." + topic`.
- **`make_hashable`.** This utility converts lists, sets and dicts into tuples and frozensets.

Things that change state in the source change state in the model:
- the processors, transports, server and NATS client are classes with `modifies` clauses;
- the protocols and the NATS client record every read, write or call in order, in a log field;
- each method's postcondition states the new log.

The pure decision logic is functions proved against its own lemmas. Examples are the reader's event log, the HTTP response classification, the message decision chain and `make_hashable`.

Files:
- `frugal.dfy` (module `Frugal`): bytes, the transport exception kinds, `Option`/`Result`, the big-endian 32-bit frame size and the `data[4:]` prefix strip.
- `nats.dfy` (module `Nats`): the NATS client the Python code talks to. It keeps a connection flag and a call log, and hands out consecutive subscription ids starting at 1.
- `base_processor.dfy`, `adapter_transport.dfy`, `nats_server.dfy`, `http_transport.dfy`, `nats_transport.dfy`, `nats_scope_transport.dfy`, `util.dfy`: one module per source file.

Predicates whose body is the property itself carry no row of their own; each is used in the contracts below:
- `AdapterTransport.IsCleanClose` (FAdapterTransport.java:120-128);
- `AdapterTransport.FAdapterTransport.IsOpen` (FAdapterTransport.java:65-67);
- `NatsTransport.FNatsTransport.IsOpen` (nats_transport.py:42-44);
- `NatsScopeTransport.FNatsPublisherTransport.IsOpen` (nats_scope_transport.py:71-75);
- `NatsScopeTransport.FNatsSubscriberTransport.IsSubscribed` (nats_scope_transport.py:163-170).

## Model

| member | source | states |
|---|---|---|
| Frugal.FrameSize | lib/python/frugal/aio/server/nats_server.py:68 | the frame size is the unsigned big-endian value of the first four bytes, below 2^32 |
| Frugal.DecodeEncodeBigEndian32 | lib/python/frugal/aio/server/nats_server.py:68 | reading back the four big-endian bytes of a 32-bit value gives that value |
| Frugal.StripFrameHeader | lib/python/frugal/aio/server/nats_server.py:75 | `data[4:]`: everything after the prefix, empty when there is nothing after it |
| Frugal.StripFrameHeaderOfFrame | lib/python/frugal/aio/transport/nats_transport.py:63 | stripping the prefix of a 4-byte size followed by a payload gives the payload back |
| BaseProcessor.ExceptionFrame | lib/java/src/main/java/com/workiva/frugal/processor/FBaseProcessor.java:119-124 | an exception frame is six writes, starting with the reset and ending with the flush |
| BaseProcessor.WriteApplicationException | lib/java/src/main/java/com/workiva/frugal/processor/FBaseProcessor.java:113-126 | the output receives, in order: reset, response header for the context, message begin (method, EXCEPTION, seqid 0), the exception, message end, flush; the returned exception has the given type and message |
| BaseProcessor.ExceptionFrameHasOneException | lib/java/src/main/java/com/workiva/frugal/processor/FBaseProcessor.java:119-124 | an exception frame holds exactly one exception, at the fourth write, and it is the one it was written for |
| BaseProcessor.BaseWritesOneExceptionIffFailure | lib/java/src/main/java/com/workiva/frugal/processor/FBaseProcessor.java:58-77 | the base writes exactly one exception when the method is unknown (UNKNOWN_METHOD) or its handler fails at runtime (INTERNAL_ERROR), and none otherwise |
| BaseProcessor.ProcessLogExceptionCount | lib/java/src/main/java/com/workiva/frugal/processor/FBaseProcessor.java:50-77 | across one request, the exception count of the whole output log grows by the handler's own plus exactly one for a failure |
| BaseProcessor.FBaseProcessor.Process | lib/java/src/main/java/com/workiva/frugal/processor/FBaseProcessor.java:43-78 | the method table is fetched only when it is null, so once at most; the handler runs exactly when it is registered; the body is skipped and the message end read only for an unknown method; the output is the handler's writes followed by the base's; only a runtime error is raised again |
| BaseProcessor.FBaseProcessor.GetAnnotations | lib/java/src/main/java/com/workiva/frugal/processor/FBaseProcessor.java:95-100 | the annotations map is fetched on first use only and returned by value |
| AdapterTransport.CloseEffect | lib/java/src/main/java/com/workiva/frugal/transport/FAdapterTransport.java:99-111 | close does nothing exactly for a clean cause on a transport that is not open; otherwise the parent is closed first, and, when there is an executor, it is then shut down and the framed transport closed |
| AdapterTransport.ReadCloseCause | lib/java/src/main/java/com/workiva/frugal/transport/FAdapterTransport.java:150-160 | after a failed read the close is clean exactly when the read hit END_OF_FILE |
| AdapterTransport.FAdapterTransport.Open | lib/java/src/main/java/com/workiva/frugal/transport/FAdapterTransport.java:70-87 | an open transport raises ALREADY_OPEN and starts nothing; a framed-open error other than ALREADY_OPEN is raised before any reader exists; otherwise one executor is created, one reader submitted, then the parent opened |
| AdapterTransport.FAdapterTransport.Close | lib/java/src/main/java/com/workiva/frugal/transport/FAdapterTransport.java:94-111 | the events are exactly the close effect for the state before the call; it is a no-op exactly for a clean cause on a closed transport; past that guard with no executor (never opened) the outcome is `NullExecutor`, the parent closed but the framed transport untouched, where Java throws a NullPointerException |
| AdapterTransport.FAdapterTransport.Flush | lib/java/src/main/java/com/workiva/frugal/transport/FAdapterTransport.java:131-137 | the already-framed payload is written unchanged to the wrapped transport, then flushed |
| AdapterTransport.FAdapterTransport.HandleFrames | lib/java/src/main/java/com/workiva/frugal/transport/FAdapterTransport.java:147-170 | the loop hands each frame read and handled without error to handleResponse and stops exactly at the first read that fails or frame whose handling fails |
| AdapterTransport.FAdapterTransport.RunReader | lib/java/src/main/java/com/workiva/frugal/transport/FAdapterTransport.java:146-171 | the reader's events are exactly the reader log of the read outcomes, and it calls close at most once, with the reader's close cause; the executor is kept; after a close that is not the no-op the transport is closed (parent closed, framed transport closed when there was an executor), otherwise its flags are unchanged |
| AdapterTransport.ReaderLogSplit | lib/java/src/main/java/com/workiva/frugal/transport/FAdapterTransport.java:147-170 | frames handled without error contribute their handleResponse events in read order and do not change how the reader closes |
| AdapterTransport.ReaderLogSpec | lib/java/src/main/java/com/workiva/frugal/transport/FAdapterTransport.java:146-171 | every frame up to the first failure is handed over in read order (the one whose handling fails included), then one close effect follows; without a failure nothing is closed |
| AdapterTransport.ReaderCloseSpec | lib/java/src/main/java/com/workiva/frugal/transport/FAdapterTransport.java:146-171 | the reader closes with the cause of the first failing read or handling, and does not close without one |
| AdapterTransport.ReaderClosesIffStop | lib/java/src/main/java/com/workiva/frugal/transport/FAdapterTransport.java:146-171 | the reader closes exactly when some read or handling fails |
| AdapterTransport.ReaderCleanCloseIffEndOfFile | lib/java/src/main/java/com/workiva/frugal/transport/FAdapterTransport.java:150-160 | when a read fails first, the close is the clean `close()` exactly for END_OF_FILE |
| NatsServer.NormalizeSubjects | lib/python/frugal/aio/server/nats_server.py:40 | a single subject becomes a one-element list; a list is kept as it is |
| NatsServer.FNatsServer.constructor | lib/python/frugal/aio/server/nats_server.py:31-44 | the server keeps the normalised subjects, the processor and the queue, with no subscription ids |
| NatsServer.FNatsServer.Serve | lib/python/frugal/aio/server/nats_server.py:46-55 | the id list is reset and then holds one id per subject, in subject order, each from one subscription with the server's queue; the client's next id moves past all of them |
| NatsServer.FNatsServer.Stop | lib/python/frugal/aio/server/nats_server.py:57-60 | every stored id is unsubscribed, in order |
| NatsServer.UnsubscribeEachOnce | lib/python/frugal/aio/server/nats_server.py:59-60 | with distinct ids, such as serve stores, every stored id is unsubscribed exactly once and no other id at all |
| NatsServer.UnsubscribeCount | lib/python/frugal/aio/server/nats_server.py:59-60 | stop unsubscribes each id as often as it is stored |
| NatsServer.FNatsServer.OnMessageCallback | lib/python/frugal/aio/server/nats_server.py:62-91 | the callback follows the decision chain; the processor is called once, on the payload after the prefix, only when the message gets past the three guards; the only client call is the reply's publication |
| NatsServer.ProcessedIff | lib/python/frugal/aio/server/nats_server.py:64-81 | the processor runs exactly for a message with a reply subject, at least four bytes and a frame size at most the maximum minus 4 |
| NatsServer.ProcessorInput | lib/python/frugal/aio/server/nats_server.py:68-76 | a frame made of a size within the limit and a payload reaches the processor as exactly that payload |
| NatsServer.PublishIff | lib/python/frugal/aio/server/nats_server.py:64-91 | a reply is published exactly when the processor runs, does not raise a non-application exception, and leaves more than four bytes; it goes to the reply subject with the output unchanged |
| NatsServer.ApplicationErrorAnswered | lib/python/frugal/aio/server/nats_server.py:80-86 | a TApplicationException from the processor is answered exactly as a normal return with the same output |
| NatsServer.ConsecutiveIdsDistinct | lib/python/frugal/aio/server/nats_server.py:48-54 | the ids serve stores are pairwise distinct |
| HttpTransport.Decimal | lib/python/frugal/aio/transport/http_transport.py:56 | `str` of a whole number: decimal digits only, with no leading zero |
| HttpTransport.DecimalRoundTrip | lib/python/frugal/aio/transport/http_transport.py:56 | reading back the decimal string of a number gives the number |
| HttpTransport.DefaultHeaders | lib/python/frugal/aio/transport/http_transport.py:50-56 | the three fixed headers are always present; x-frugal-payload-limit is present exactly when the response capacity is positive, with its decimal value; no other header |
| HttpTransport.PayloadLimitReadsBack | lib/python/frugal/aio/transport/http_transport.py:55-56 | the payload-limit header reads back as the response capacity |
| HttpTransport.MergeHeadersSpec | lib/python/frugal/aio/transport/http_transport.py:127-131 | the request carries every default with its own value and every other caller header unchanged, and nothing else; without a callback it carries the defaults only |
| HttpTransport.ClassifyStatus | lib/python/frugal/aio/transport/http_transport.py:87-99 | 413 gives RESPONSE_TOO_LARGE although it is at least 300; every other status from 300 on gives UNKNOWN; below 300 the status plays no further part |
| HttpTransport.ClassifyResponseIff | lib/python/frugal/aio/transport/http_transport.py:101-113 | a response frame is returned exactly for a successful status and a decoded body longer than four bytes, and it is the body without its first four bytes |
| HttpTransport.ClassifyOnewayIff | lib/python/frugal/aio/transport/http_transport.py:102-111 | the empty one-way answer comes exactly from a successful status and a decoded body of four zero bytes; after a successful status, four bytes with a nonzero one are "missing data", fewer are "invalid frame size" |
| HttpTransport.ClassifyFrame | lib/python/frugal/aio/transport/http_transport.py:113 | a decoded frame of a size prefix and a non-empty payload yields that payload |
| HttpTransport.FHttpTransport.constructor | lib/python/frugal/aio/transport/http_transport.py:31-56 | the headers built step by step are the default headers for the response capacity |
| HttpTransport.FHttpTransport.IsOpen | lib/python/frugal/aio/transport/http_transport.py:58-60 | always open |
| HttpTransport.FHttpTransport.Open | lib/python/frugal/aio/transport/http_transport.py:62-64 | raises nothing and changes nothing |
| HttpTransport.FHttpTransport.Close | lib/python/frugal/aio/transport/http_transport.py:66-68 | raises nothing and changes nothing |
| HttpTransport.FHttpTransport.Request | lib/python/frugal/aio/transport/http_transport.py:78-113 | a preflight error is raised before anything is sent; otherwise one POST goes out with the encoded frame and the merged headers, a timeout raises TIMED_OUT, and the answer is the classification of the response |
| HttpTransport.FHttpTransport.MakeRequest | lib/python/frugal/aio/transport/http_transport.py:115-145 | one POST to the URL with the payload and the caller headers updated by the defaults; a timeout is reported as such |
| HttpTransport.FHttpTransport.Oneway | lib/python/frugal/aio/transport/http_transport.py:70-76 | the same POST as request, and only request's error is seen |
| NatsTransport.ChooseInbox | lib/python/frugal/aio/transport/nats_transport.py:38 | an empty inbox is replaced by a fresh one; a non-empty one is kept |
| NatsTransport.FNatsTransport.constructor | lib/python/frugal/aio/transport/nats_transport.py:29-40 | a new transport is closed, without a subscription, on the chosen inbox |
| NatsTransport.FNatsTransport.Open | lib/python/frugal/aio/transport/nats_transport.py:46-60 | NOT_OPEN for a disconnected client takes precedence over ALREADY_OPEN for an open transport, and neither changes anything; otherwise the inbox is subscribed once, its id kept (the client's next id moves past it) and the transport open |
| NatsTransport.FNatsTransport.OnMessageCallback | lib/python/frugal/aio/transport/nats_transport.py:62-63 | handle_response receives the message data after its first four bytes |
| NatsTransport.FNatsTransport.Close | lib/python/frugal/aio/transport/nats_transport.py:65-72 | without a (truthy) subscription id nothing happens; otherwise that id is unsubscribed once, the flag cleared and the id forgotten; either way the transport ends closed |
| NatsTransport.FNatsTransport.Flush | lib/python/frugal/aio/transport/nats_transport.py:74-79 | the frame is published unchanged on the subject with the inbox as reply subject |
| NatsScopeTransport.TopicSubject | lib/python/frugal/aio/transport/nats_scope_transport.py:93 | a topic's subject is "frugal." followed by the topic |
| NatsScopeTransport.TopicSubjectInverse | lib/python/frugal/aio/transport/nats_scope_transport.py:93 | the topic is recovered from its subject, so distinct topics never share a subject |
| NatsScopeTransport.FNatsPublisherTransport.Open | lib/python/frugal/aio/transport/nats_scope_transport.py:54-60 | NOT_OPEN exactly when the client is disconnected; nothing else happens |
| NatsScopeTransport.FNatsPublisherTransport.Close | lib/python/frugal/aio/transport/nats_scope_transport.py:62-69 | the client is flushed once if the transport is open and not at all otherwise |
| NatsScopeTransport.FNatsPublisherTransport.Publish | lib/python/frugal/aio/transport/nats_scope_transport.py:77-93 | NOT_OPEN is checked before REQUEST_TOO_LARGE; it raises exactly when one of them holds; otherwise the data is published unchanged on the topic's subject |
| NatsScopeTransport.FNatsPublisherTransportFactory.GetTransport | lib/python/frugal/aio/transport/nats_scope_transport.py:35-39 | a new publisher on the factory's client |
| NatsScopeTransport.FNatsSubscriberTransport.constructor | lib/python/frugal/aio/transport/nats_scope_transport.py:120-124 | a new subscriber is not subscribed and has no id |
| NatsScopeTransport.FNatsSubscriberTransport.Subscribe | lib/python/frugal/aio/transport/nats_scope_transport.py:126-153 | NOT_OPEN for a disconnected client takes precedence over ALREADY_OPEN when subscribed, and neither changes anything; otherwise the topic's subject is subscribed once with the queue, its id kept (the client's next id moves past it) and the flag set |
| NatsScopeTransport.FNatsSubscriberTransport.OnMessage | lib/python/frugal/aio/transport/nats_scope_transport.py:142-146 | the scope's callback receives the message data after its first four bytes |
| NatsScopeTransport.FNatsSubscriberTransport.Unsubscribe | lib/python/frugal/aio/transport/nats_scope_transport.py:155-161 | the stored id is unsubscribed, then forgotten, and the flag cleared |
| NatsScopeTransport.FNatsSubscriberTransportFactory.GetTransport | lib/python/frugal/aio/transport/nats_scope_transport.py:106-110 | a new, unsubscribed subscriber on the factory's client and queue |
| Util.MakeHashable | lib/python/frugal/util/__init__.py:15-30 | the result is never a list, set or dict; anything else comes back unchanged; a list becomes a tuple of the same length with each element converted; a set becomes the frozenset of its converted elements, and a dict the frozenset of its converted (key, value) pairs, in both directions |
| Util.MakeHashableIsHashable | lib/python/frugal/util/__init__.py:22-30 | the result is hashable whenever the tuples and frozensets in the input already are |
| Util.MakeHashableIdempotent | lib/python/frugal/util/__init__.py:22-30 | converting twice is converting once |
| Util.HashableUnchanged | lib/python/frugal/util/__init__.py:29-30 | a hashable value is returned as it is |
| Util.MakeHashableDictSize | lib/python/frugal/util/__init__.py:26-28 | a dict with hashable keys becomes a frozenset with exactly one pair per entry |
| Util.MakeHashableKeepsListInTuple | lib/python/frugal/util/__init__.py:29-30 | a tuple holding a list is returned unchanged and is not hashable |
| Util.MakeHashableDeep | lib/python/frugal/util/__init__.py:15-30 | the corrected conversion never returns a list, set or dict |
| Util.MakeHashableDeepIsHashable | lib/python/frugal/util/__init__.py:15-30 | the corrected conversion is hashable for every input |
| Util.MakeHashableDeepFixesHashable | lib/python/frugal/util/__init__.py:29-30 | the corrected conversion leaves hashable values unchanged |
| Util.MakeHashableDeepIdempotent | lib/python/frugal/util/__init__.py:22-30 | the corrected conversion is idempotent |
| Util.MakeHashableDeepAgrees | lib/python/frugal/util/__init__.py:22-30 | on inputs whose tuples and frozensets are already hashable, the corrected conversion equals the original |

## Left out

- Concurrency is not modelled: the reader thread, `shutdownNow`, the `synchronized` methods, `WRITE_LOCK` and asyncio scheduling. Everything runs sequentially, one call after another.
- Logging everywhere is left out; it has no effect on the state.
- Every protocol read and write, and every write and flush of a transport, is assumed to succeed. In Java, `process` also passes on a TException raised by `readRequestHeader`, `readMessageBegin`, `skip` or `readMessageEnd`, and `writeApplicationException` can raise one while writing; in the runtime-error branch such a failure escapes in place of the re-raised error. `FAdapterTransport.flush` can raise a TTransportException from the wrapped transport. None of these failures is modelled.
- BaseProcessor.FBaseProcessor.GetAnnotations: Java returns `new HashMap<>(annotationsMap)`, a shallow copy whose inner maps are still shared with the stored map; the model returns an immutable value, so changes made through those shared inner maps are not captured.
- NatsTransport.FNatsTransport and NatsScopeTransport.FNatsSubscriberTransport keep the invariant that the open (subscribed) flag is set exactly when an id is stored. Public methods cannot reach a state with the flag set and no id, so the model leaves it out, although the Python tests set the fields directly to create it.
- Thrift protocol encoding is not modelled: `readRequestHeader`, `readMessageBegin`, `TProtocolUtil.skip`, `readMessageEnd`, `TApplicationException.write` and the writes. Reads and writes are events in a log, and a generated handler is its writes plus how it ends.
- FAsyncTransport is not part of this model: its pending-call registry, `request`, and what `handleResponse` does. The parent is its open flag plus the close it receives. The frames given to `handleResponse` are recorded in order.
- TFramedTransport is not part of this model. The result of its `open` and of each `readFrame` is an input. Its `close` clears the open flag.
- AdapterTransport.FAdapterTransport.RunReader: a runtime exception from `handleResponse` and a non-transport exception from `readFrame` escape the Java loop without a close; the model has no such outcome. When the given read outcomes run out, the reader is still blocked and has not closed.
- The processor, the protocol factory and TMemoryOutputBuffer of the NATS server are not part of this model. The processor is a function from the payload to how `process` ends and to the output buffer's value. `len(otrans)` is taken to be the length of that value.
- `_NATS_MAX_MESSAGE_SIZE` is defined outside the core; it is a parameter of the server.
- NatsServer.Decide: a missing reply subject (None) and an empty one are both the empty string; Python treats both as false.
- NatsServer.Decide: data shorter than four bytes makes `struct.unpack` raise `struct.error` out of the callback; the model ends the callback with the decision `DataTooShort` instead, with nothing processed or published.
- HttpTransport.FHttpTransport.MakeRequest: `request_headers.update` changes, in place, the dict the `get_request_headers` callback returned; the model builds a new map, so a caller holding that dict does not see the defaults added to it.
- The NATS client library is not modelled beyond its connection flag, the ids it hands out and the calls made on it. The callback passed to `subscribe_async` is not recorded; the `OnMessage` methods model what it does.
- The NATS server's `cb`, the HTTP transport's `get_request_headers` callback, and the subscriber's scope callback are inputs to the model. Their result is given: the callback's headers, or None when there is none. The model does not await a coroutine result from the scope callback.
- aiohttp, `async_timeout` and the float timeout `context.timeout / 1000` are not modelled. The exchange is an input: a status and body, or a timeout. `str(text)` of the body is part of that input.
- Base64 (section 4 of RFC 4648) is a pair of functions given to the HTTP transport. A body that fails to decode ends the request with `InvalidBase64`, standing for the library's decoding error.
- `_preflight_request_check` and `_check_publish_size` belong to unseen base classes. What the first raises and what the second answers are inputs.
- AdapterTransport.FAdapterTransport.Close: the NullPointerException Java throws at `readExecutor.shutdownNow()` on a transport never opened is the outcome `NullExecutor`, not an exception that propagates.
- `new_inbox()` is an input to the NATS transport's constructor.

## Findings

| source | as written | input that shows it | evidently intended | confidence | as-written member | corrected member |
|---|---|---|---|---|---|---|
| lib/python/frugal/util/__init__.py:29-30 | tuples and frozensets fall into the unchanged branch, so their elements are not converted | `make_hashable(([1],))` returns `([1],)`, which `hash` rejects | every collection at any depth converted, so that the result is hashable as the docstring says | not executed | Util.MakeHashableKeepsListInTuple | Util.MakeHashableDeep |

`Util.MakeHashable` models the code as written. Its known-good range is stated by `Util.MakeHashableIsHashable` and `Util.MakeHashableDeepAgrees`: on inputs whose tuples and frozensets are already hashable, the two conversions agree.
