/**
 * FHttpTransport: an FTransport that posts each base64-encoded request
 * frame to a URL and turns the HTTP response into a response frame, an
 * error, or nothing at all for a one-way call.
 *
 * The network exchange (aiohttp, the timeout) is an input: the status and
 * body the server answered with, or a timeout. Base64 (section 4 of
 * RFC 4648) is a pair of functions given to the transport; decoding can
 * fail. The preflight size check of FTransportBase is not part of this
 * model: what it raises is an input.
 */
module HttpTransport {
  import opened Frugal

  type Headers = map<string, string>

  /** The decimal digits of `n`, without leading zeros, as Python's `str` writes them. */
  function Decimal(n: nat): (s: string)
    ensures |s| > 0 && (s[0] == '0' ==> n == 0)
    ensures forall i :: 0 <= i < |s| ==> '0' <= s[i] <= '9'
    decreases n
  {
    if n < 10 then [DigitChar(n)] else Decimal(n / 10) + [DigitChar(n % 10)]
  }

  function DigitChar(d: nat): (c: char)
    requires d < 10
    ensures '0' <= c <= '9'
  {
    ['0', '1', '2', '3', '4', '5', '6', '7', '8', '9'][d]
  }

  /** The value of a string of decimal digits. */
  function DecimalValue(s: string): nat
    requires forall i :: 0 <= i < |s| ==> '0' <= s[i] <= '9'
    decreases |s|
  {
    if s == [] then 0 else DecimalValue(s[..|s| - 1]) * 10 + (s[|s| - 1] as int - '0' as int)
  }

  lemma DigitCharValue(d: nat)
    requires d < 10
    ensures DigitChar(d) as int - '0' as int == d
  {
  }

  /** Reading back the decimal string of `n` gives `n`. */
  lemma {:induction false} DecimalRoundTrip(n: nat)
    ensures DecimalValue(Decimal(n)) == n
    decreases n
  {
    var s := Decimal(n);
    if n < 10 {
      DigitCharValue(n);
      assert s[..|s| - 1] == [];
    } else {
      DecimalRoundTrip(n / 10);
      DigitCharValue(n % 10);
      assert s[..|s| - 1] == Decimal(n / 10);
    }
  }

  /** The header names the transport sets itself. */
  const CONTENT_TYPE: string := "content-type"
  const CONTENT_TRANSFER_ENCODING: string := "content-transfer-encoding"
  const ACCEPT: string := "accept"
  const PAYLOAD_LIMIT: string := "x-frugal-payload-limit"
  const FRUGAL_CONTENT_TYPE: string := "application/x-frugal"

  /**
   * The headers `__init__` builds: the three fixed ones, and the payload
   * limit exactly when a positive response capacity is given.
   */
  function DefaultHeaders(responseCapacity: int): (h: Headers)
    ensures CONTENT_TYPE in h && h[CONTENT_TYPE] == FRUGAL_CONTENT_TYPE
    ensures CONTENT_TRANSFER_ENCODING in h && h[CONTENT_TRANSFER_ENCODING] == "base64"
    ensures ACCEPT in h && h[ACCEPT] == FRUGAL_CONTENT_TYPE
    ensures PAYLOAD_LIMIT in h <==> responseCapacity > 0
    ensures PAYLOAD_LIMIT in h ==> h[PAYLOAD_LIMIT] == Decimal(responseCapacity)
    ensures forall k :: k in h ==> k in {CONTENT_TYPE, CONTENT_TRANSFER_ENCODING, ACCEPT, PAYLOAD_LIMIT}
  {
    var fixed := map[CONTENT_TYPE := FRUGAL_CONTENT_TYPE, CONTENT_TRANSFER_ENCODING := "base64", ACCEPT := FRUGAL_CONTENT_TYPE];
    if responseCapacity > 0 then fixed[PAYLOAD_LIMIT := Decimal(responseCapacity)] else fixed
  }

  /** The payload-limit header, when present, reads back as the response capacity. */
  lemma PayloadLimitReadsBack(responseCapacity: int)
    requires responseCapacity > 0
    ensures DecimalValue(DefaultHeaders(responseCapacity)[PAYLOAD_LIMIT]) == responseCapacity
  {
    DecimalRoundTrip(responseCapacity);
  }

  /**
   * The request headers of `_make_request`: the caller's headers (none
   * without a `get_request_headers` callback) updated with the defaults.
   */
  function MergeHeaders(caller: Option<Headers>, defaults: Headers): Headers
  {
    (if caller.Some? then caller.value else map[]) + defaults
  }

  /**
   * The defaults cannot be overridden: every default is sent with its own
   * value, every other caller header is sent as the caller gave it, and
   * nothing else is sent.
   */
  lemma MergeHeadersSpec(caller: Headers, defaults: Headers)
    ensures forall k :: k in MergeHeaders(Some(caller), defaults) <==> k in caller || k in defaults
    ensures forall k :: k in defaults ==> MergeHeaders(Some(caller), defaults)[k] == defaults[k]
    ensures forall k :: k in caller && k !in defaults ==> MergeHeaders(Some(caller), defaults)[k] == caller[k]
    ensures MergeHeaders(None, defaults) == defaults
  {
  }

  /** Why a request fails: a transport exception, or a body that is not valid base64. */
  datatype RequestError = Transport(error: TransportError) | InvalidBase64

  /** How the HTTP exchange ends: with a response, or by timing out. */
  datatype Exchange =
    | Responded(status: int, body: seq<Byte>, bodyText: string)  // bodyText: Python's str(body)
    | ExchangeTimedOut

  /**
   * The classification in `request` of a response with the given status,
   * body text and decoded body (None when the body is not valid base64).
   * Ok(None) is a one-way call's empty answer; Ok(Some(p)) a response frame.
   */
  function Classify(status: int, bodyText: string, decoded: Option<seq<Byte>>): Result<Option<seq<Byte>>, RequestError>
  {
    if status == 413 then
      Err(Transport(TransportError(ResponseTooLarge, "response was too large for the transport")))
    else if status >= 300 then
      Err(Transport(TransportError(Unknown, "request errored with code " + Decimal(status) + " and message " + bodyText)))
    else if decoded.None? then Err(InvalidBase64)
    else if |decoded.value| < 4 then Err(Transport(TransportError(Unknown, "invalid frame size")))
    else if |decoded.value| == 4 then
      if exists i :: 0 <= i < 4 && decoded.value[i] != 0 then Err(Transport(TransportError(Unknown, "missing data")))
      else Ok(None)
    else Ok(Some(decoded.value[4..]))
  }

  /** 413 is RESPONSE_TOO_LARGE although it is also at least 300; every other status from 300 on is UNKNOWN. */
  lemma ClassifyStatus(status: int, bodyText: string, decoded: Option<seq<Byte>>)
    ensures status == 413 ==>
      Classify(status, bodyText, decoded)
        == Err(Transport(TransportError(ResponseTooLarge, "response was too large for the transport")))
    ensures status >= 300 && status != 413 ==>
      (Classify(status, bodyText, decoded).Err?
       && Classify(status, bodyText, decoded).error.Transport?
       && Classify(status, bodyText, decoded).error.error.kind == Unknown)
    ensures status < 300 ==> Classify(status, bodyText, decoded) == Classify(200, bodyText, decoded)
  {
  }

  /** A successful response is answered exactly when the frame holds more than its prefix, and it is the frame without the prefix. */
  lemma ClassifyResponseIff(status: int, bodyText: string, decoded: Option<seq<Byte>>)
    ensures Classify(status, bodyText, decoded).Ok? && Classify(status, bodyText, decoded).value.Some?
      <==> status < 300 && decoded.Some? && |decoded.value| > 4
    ensures Classify(status, bodyText, decoded).Ok? && Classify(status, bodyText, decoded).value.Some?
      ==> Classify(status, bodyText, decoded).value.value == StripFrameHeader(decoded.value)
  {
  }

  /** A one-way call's answer is exactly a successful response of four zero bytes: an empty frame. */
  lemma ClassifyOnewayIff(status: int, bodyText: string, decoded: Option<seq<Byte>>)
    ensures Classify(status, bodyText, decoded) == Ok(None) <==> status < 300 && decoded == Some([0, 0, 0, 0])
    ensures status < 300 && decoded.Some? && |decoded.value| == 4 && decoded.value != [0, 0, 0, 0] ==>
      Classify(status, bodyText, decoded) == Err(Transport(TransportError(Unknown, "missing data")))
    ensures status < 300 && decoded.Some? && |decoded.value| < 4 ==>
      Classify(status, bodyText, decoded) == Err(Transport(TransportError(Unknown, "invalid frame size")))
  {
    if status < 300 && decoded.Some? && |decoded.value| == 4 {
      var d := decoded.value;
      if forall i :: 0 <= i < 4 ==> d[i] == 0 {
        assert d == [0, 0, 0, 0];
      }
    }
  }

  /** A decoded frame whose size prefix is followed by a payload yields that payload. */
  lemma ClassifyFrame(size: seq<Byte>, payload: seq<Byte>, bodyText: string)
    requires |size| == FRAME_HEADER_SIZE && |payload| > 0
    ensures Classify(200, bodyText, Some(size + payload)) == Ok(Some(payload))
  {
    assert (size + payload)[4..] == payload;
  }

  /** Everything `request` can return, given what the preflight check raises and how the exchange ends. */
  function RequestResult(preflightError: Option<TransportError>, exchange: Exchange,
                         decode: seq<Byte> -> Option<seq<Byte>>): Result<Option<seq<Byte>>, RequestError>
  {
    if preflightError.Some? then Err(Transport(preflightError.value))
    else if exchange.ExchangeTimedOut? then Err(Transport(TransportError(TimedOut, "request timed out")))
    else Classify(exchange.status, exchange.bodyText, decode(exchange.body))
  }

  /** One POST sent: the URL, the base64-encoded frame and the request headers. */
  datatype Post = Post(url: string, data: seq<Byte>, headers: Headers)

  class FHttpTransport {
    const url: string
    const requestCapacity: int
    const encode: seq<Byte> -> seq<Byte>
    const decode: seq<Byte> -> Option<seq<Byte>>
    var headers: Headers
    /** The POST requests made, oldest first. */
    var posts: seq<Post>

    constructor (url: string, requestCapacity: int, responseCapacity: int,
                 encode: seq<Byte> -> seq<Byte>, decode: seq<Byte> -> Option<seq<Byte>>)
      ensures this.url == url && this.requestCapacity == requestCapacity
      ensures this.encode == encode && this.decode == decode
      ensures headers == DefaultHeaders(responseCapacity) && posts == []
    {
      this.url := url;
      this.requestCapacity := requestCapacity;
      this.encode := encode;
      this.decode := decode;
      var h := map[CONTENT_TYPE := FRUGAL_CONTENT_TYPE, CONTENT_TRANSFER_ENCODING := "base64", ACCEPT := FRUGAL_CONTENT_TYPE];
      if responseCapacity > 0 {
        h := h[PAYLOAD_LIMIT := Decimal(responseCapacity)];
      }
      headers := h;
      posts := [];
    }

    /** is_open: an HTTP transport is always open. */
    function IsOpen(): (open: bool)
      ensures open
    {
      true
    }

    /** open is a no-op: it raises nothing and changes nothing. */
    method Open() returns (raised: Option<TransportError>)
      ensures raised.None?
    {
      raised := None;
    }

    /** close is a no-op: it raises nothing and changes nothing. */
    method Close() returns (raised: Option<TransportError>)
      ensures raised.None?
    {
      raised := None;
    }

    /**
     * request. The frame is posted, base64-encoded, with the merged
     * headers unless the preflight check raises; `callerHeaders` is what
     * `get_request_headers(context)` returns, None without a callback.
     */
    method Request(payload: seq<Byte>, preflightError: Option<TransportError>,
                   callerHeaders: Option<Headers>, exchange: Exchange)
      returns (r: Result<Option<seq<Byte>>, RequestError>)
      modifies this`posts
      ensures r == RequestResult(preflightError, exchange, decode)
      ensures posts == old(posts)
        + (if preflightError.Some? then [] else [Post(url, encode(payload), MergeHeaders(callerHeaders, headers))])
    {
      if preflightError.Some? {
        return Err(Transport(preflightError.value));
      }
      var encoded := encode(payload);
      var status, text, bodyText, timedOut := MakeRequest(encoded, callerHeaders, exchange);
      if timedOut {
        return Err(Transport(TransportError(TimedOut, "request timed out")));
      }
      if status == 413 {
        return Err(Transport(TransportError(ResponseTooLarge, "response was too large for the transport")));
      }
      if status >= 300 {
        return Err(Transport(TransportError(Unknown, "request errored with code " + Decimal(status) + " and message " + bodyText)));
      }
      var decoded := decode(text);
      if decoded.None? {
        return Err(InvalidBase64);
      }
      if |decoded.value| < 4 {
        return Err(Transport(TransportError(Unknown, "invalid frame size")));
      }
      if |decoded.value| == 4 {
        if decoded.value[0] != 0 || decoded.value[1] != 0 || decoded.value[2] != 0 || decoded.value[3] != 0 {
          return Err(Transport(TransportError(Unknown, "missing data")));
        }
        // one-way method: the response is dropped
        return Ok(None);
      }
      r := Ok(Some(decoded.value[4..]));
    }

    /** _make_request: sends the POST and reports the exchange's status and body, or that it timed out. */
    method MakeRequest(encoded: seq<Byte>, callerHeaders: Option<Headers>, exchange: Exchange)
      returns (status: int, text: seq<Byte>, bodyText: string, timedOut: bool)
      modifies this`posts
      ensures posts == old(posts) + [Post(url, encoded, MergeHeaders(callerHeaders, headers))]
      ensures timedOut <==> exchange.ExchangeTimedOut?
      ensures !timedOut ==> status == exchange.status && text == exchange.body && bodyText == exchange.bodyText
    {
      var requestHeaders: Headers := map[];
      if callerHeaders.Some? {
        requestHeaders := callerHeaders.value;
      }
      // the defaults are applied last so that their values cannot be changed
      requestHeaders := requestHeaders + headers;
      posts := posts + [Post(url, encoded, requestHeaders)];
      match exchange {
        case ExchangeTimedOut =>
          status, text, bodyText, timedOut := 0, [], "", true;
        case Responded(s, body, shown) =>
          status, text, bodyText, timedOut := s, body, shown, false;
      }
    }

    /** oneway: `request` with its answer discarded; only a raised error is seen. */
    method Oneway(payload: seq<Byte>, preflightError: Option<TransportError>,
                  callerHeaders: Option<Headers>, exchange: Exchange)
      returns (raised: Option<RequestError>)
      modifies this`posts
      ensures var r := RequestResult(preflightError, exchange, decode);
        raised == if r.Err? then Some(r.error) else None
      ensures posts == old(posts)
        + (if preflightError.Some? then [] else [Post(url, encode(payload), MergeHeaders(callerHeaders, headers))])
    {
      var r := Request(payload, preflightError, callerHeaders, exchange);
      raised := if r.Err? then Some(r.error) else None;
    }
  }
}
