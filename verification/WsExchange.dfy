/**
 * What one WsDriver connection does, as a function of the messages it receives and of the
 * answers of the world: one frame in, one exchange, one frame out, with nothing carried over.
 */
module WsExchange {
  import opened Wrappers
  import opened WsFrames

  const COMPRESSION_THRESHOLD := 1024
  const STATUS_NOT_FOUND: bv16 := 404
  const STATUS_INTERNAL_SERVER_ERROR: bv16 := 500
  const CLOSE_UNSUPPORTED_DATA := 1003 // section 7.4.1 of RFC 6455
  const CLOSE_INVALID_PAYLOAD := 1007  // section 7.4.1 of RFC 6455

  datatype HttpRequest = HttpRequest(verb: string, url: seq<byte>, jsonHeader: bool, body: seq<byte>)

  /** body is what could be read before readError, if there is one. */
  datatype HttpResponse = HttpResponse(status: bv64, contentType: string, body: seq<byte>,
                                       readError: Option<string>, closeError: Option<string>)

  datatype Answer = Answered(response: HttpResponse) | NotSent(error: string)

  datatype Inflated = Inflated(bytes: seq<byte>) | BadStart(error: string) | BadStream(partial: seq<byte>, error: string)
  datatype Deflated = Deflated(bytes: seq<byte>) | BrokenOff(partial: seq<byte>, error: string)

  /**
   * The codecs, the error of building an HTTP request, if there is one, and the JSON text of
   * an error object with the given name and message.
   */
  datatype Libraries = Libraries(
    gunzip: seq<byte> -> Inflated, unzstd: seq<byte> -> Inflated,
    gzip: seq<byte> -> Deflated, zstd: seq<byte> -> Deflated,
    newRequest: HttpRequest -> Option<string>,
    errorBody: (string, string) -> seq<byte>)

  /** SupportedEncoding: what the client advertised in its handshake. */
  datatype Encodings = Encodings(gzip: bool, zstd: bool)

  predicate Contains(s: string, sub: string) {
    exists i | 0 <= i <= |s| :: sub <= s[i..]
  }

  function Advertised(acceptEncoding: string): Encodings {
    Encodings(Contains(acceptEncoding, "gzip"), Contains(acceptEncoding, "zstd"))
  }

  /** RequestMethod.String; the codes follow section 4 of RFC 7231 and section 2 of RFC 5789. */
  function VerbName(verb: bv16): string {
    if verb == 0 then "GET" else if verb == 1 then "HEAD" else if verb == 2 then "POST"
    else if verb == 3 then "PUT" else if verb == 4 then "DELETE" else if verb == 5 then "CONNECT"
    else if verb == 6 then "OPTIONS" else if verb == 7 then "TRACE" else if verb == 8 then "PATCH" else "UNKNOWN"
  }

  // The request.

  function Inflate(lib: Libraries, compression: byte, buffer: seq<byte>): Result<seq<byte>, string> {
    if compression != GZIP && compression != ZSTD then Ok(buffer)
    else match if compression == GZIP then lib.gunzip(buffer) else lib.unzstd(buffer)
      case Inflated(bytes) => Ok(bytes)
      case BadStart(error) => Err(error)
      case BadStream(_, error) => Err(error)
  }

  /** What MakeRequest hands to the HTTP library for a parsed frame. */
  function ToHttp(lib: Libraries, sessionUrl: seq<byte>, r: Request): Result<HttpRequest, string> {
    match Inflate(lib, r.compression, r.body)
    case Err(error) => Err(error)
    case Ok(body) =>
      var q := HttpRequest(VerbName(r.verb), sessionUrl + [SLASH] + r.path, r.isJSON, body);
      if lib.newRequest(q).Some? then Err(lib.newRequest(q).value) else Ok(q)
  }

  // The reply.

  function Choose(enc: Encodings, size: nat): (c: byte) {
    if size <= COMPRESSION_THRESHOLD then NONE else if enc.zstd then ZSTD else if enc.gzip then GZIP else NONE
  }

  function Deflate(lib: Libraries, compression: byte, body: seq<byte>): Result<seq<byte>, string> {
    if compression != GZIP && compression != ZSTD then Ok(body)
    else match if compression == GZIP then lib.gzip(body) else lib.zstd(body)
      case Deflated(bytes) => Ok(bytes)
      case BrokenOff(_, error) => Err(error)
  }

  predicate IsJSON(contentType: string) { "application/json" <= contentType }

  /** uint16 of a status code. */
  function Status16(status: bv64): bv16 { (status & 0xffff) as bv16 }

  /** The frame WriteResponse makes of an upstream response. */
  function Respond(lib: Libraries, enc: Encodings, id: bv32, h: HttpResponse): Result<seq<byte>, string> {
    if h.readError.Some? then Err(h.readError.value)
    else if h.closeError.Some? then Err(h.closeError.value)
    else var c := Choose(enc, |h.body|);
      match Deflate(lib, c, h.body)
      case Err(error) => Err(error)
      case Ok(payload) => Ok(Response(c, IsJSON(h.contentType), false, id, Status16(h.status), payload))
  }

  function ErrorFrame(lib: Libraries, id: bv32, isProtocolError: bool, status: bv16, name: string, message: string): seq<byte> {
    Response(NONE, true, isProtocolError, id, status, lib.errorBody(name, message))
  }

  function TimedOutFrame(lib: Libraries, id: bv32): seq<byte> {
    ErrorFrame(lib, id, false, STATUS_NOT_FOUND, "invalid session id", "session timed out or not found")
  }

  function ProtocolErrorFrame(lib: Libraries, id: bv32, message: string, cause: string): seq<byte> {
    ErrorFrame(lib, id, true, STATUS_INTERNAL_SERVER_ERROR, "wsdriver protocol error", message + " Cause: " + cause)
  }

  /** The two synthesized frames of wsdriver/README.md, sections B.4 and B.5, byte for byte up to the JSON text. */
  lemma CanonicalErrors(lib: Libraries, message: string, cause: string)
    ensures TimedOutFrame(lib, 42) == [0x01, 0x12, 0, 0, 0, 0x2a, 0x01, 0x94, 0]
              + lib.errorBody("invalid session id", "session timed out or not found")
    ensures ProtocolErrorFrame(lib, 42, message, cause) == [0x01, 0x13, 0, 0, 0, 0x2a, 0x01, 0xf4, 0]
              + lib.errorBody("wsdriver protocol error", message + " Cause: " + cause)
  {
    assert [VERSION, Pack(Header(RESPONSE, NONE, true, false))] + PutUint32(42) + PutUint16(404) + [0]
        == [0x01, 0x12, 0, 0, 0, 0x2a, 0x01, 0x94, 0];
    assert [VERSION, Pack(Header(RESPONSE, NONE, true, true))] + PutUint32(42) + PutUint16(500) + [0]
        == [0x01, 0x13, 0, 0, 0, 0x2a, 0x01, 0xf4, 0];
  }

  const COULD_NOT_SEND := "couldn't send request to webdriver."
  const COULD_NOT_CONSTRUCT := "couldn't construct wsdriver response."

  // One message.

  datatype Message =
    | Text
    | Binary(data: seq<byte>)
    | Truncated(data: seq<byte>) // the connection failed while the message was read

  /** A message, and how the world behaves while it is served. */
  datatype Turn = Turn(message: Message, alive: bool, upstream: HttpRequest -> Answer, sendOk: bool)

  /** The reply to an accepted request, and the request that went to the HTTP library, if any. */
  datatype Exchanged = Exchanged(frame: seq<byte>, call: Option<HttpRequest>)

  function Exchange(lib: Libraries, sessionUrl: seq<byte>, enc: Encodings, t: Turn, r: Request): Exchanged {
    if !t.alive then Exchanged(TimedOutFrame(lib, r.id), None) else Forward(lib, sessionUrl, enc, t.upstream, r)
  }

  function Forward(lib: Libraries, sessionUrl: seq<byte>, enc: Encodings, upstream: HttpRequest -> Answer, r: Request): Exchanged {
    match ToHttp(lib, sessionUrl, r)
    case Err(error) => Exchanged(ProtocolErrorFrame(lib, r.id, COULD_NOT_SEND, error), None)
    case Ok(call) =>
      match upstream(call)
      case NotSent(error) => Exchanged(ProtocolErrorFrame(lib, r.id, COULD_NOT_SEND, error), Some(call))
      case Answered(h) =>
        match Respond(lib, enc, r.id, h)
        case Err(error) => Exchanged(ProtocolErrorFrame(lib, r.id, COULD_NOT_CONSTRUCT, error), Some(call))
        case Ok(frame) => Exchanged(frame, Some(call))
  }

  // A connection.

  datatype Out = Frame(bytes: seq<byte>) | Close(code: nat, reason: Option<ParseError>)

  datatype Trace = Trace(sent: seq<Out>, calls: seq<HttpRequest>)

  function OptionSeq<T>(o: Option<T>): seq<T> { if o.Some? then [o.value] else [] }

  /** What one message makes a connection send and ask upstream, and whether it stays open. */
  datatype Served = Served(sent: seq<Out>, calls: seq<HttpRequest>, open: bool)

  function ServeOne(lib: Libraries, sessionUrl: seq<byte>, enc: Encodings, t: Turn): Served {
    match t.message
    case Text => Served([Close(CLOSE_UNSUPPORTED_DATA, None)], [], false)
    case Truncated(_) => Served([], [], false)
    case Binary(data) =>
      match Parse(data)
      case Err(e) => Served([Close(CLOSE_INVALID_PAYLOAD, Some(e))], [], false)
      case Ok(r) =>
        var x := Exchange(lib, sessionUrl, enc, t, r);
        Served(if t.sendOk then [Frame(x.frame)] else [], OptionSeq(x.call), t.sendOk)
  }

  function Chain(a: Trace, b: Trace): Trace { Trace(a.sent + b.sent, a.calls + b.calls) }

  /** All that a connection sends and asks upstream; after the last turn the client is gone. */
  function Serve(lib: Libraries, sessionUrl: seq<byte>, enc: Encodings, turns: seq<Turn>): Trace {
    if turns == [] then Trace([], [])
    else
      var one := ServeOne(lib, sessionUrl, enc, turns[0]);
      Chain(Trace(one.sent, one.calls), if one.open then Serve(lib, sessionUrl, enc, turns[1..]) else Trace([], []))
  }

  lemma JoinAssociates(a: Trace, b: Trace, c: Trace)
    ensures Chain(a, Chain(b, c)) == Chain(Chain(a, b), c)
  {
    assert a.sent + (b.sent + c.sent) == (a.sent + b.sent) + c.sent;
    assert a.calls + (b.calls + c.calls) == (a.calls + b.calls) + c.calls;
  }

  /** A connection that has done so much, and now serves turn i. */
  lemma ServeNext(lib: Libraries, sessionUrl: seq<byte>, enc: Encodings, turns: seq<Turn>, i: nat, done: Trace, one: Served)
    requires i < |turns| && one == ServeOne(lib, sessionUrl, enc, turns[i])
    ensures Chain(done, Serve(lib, sessionUrl, enc, turns[i..]))
         == Chain(Chain(done, Trace(one.sent, one.calls)),
                 if one.open then Serve(lib, sessionUrl, enc, turns[i + 1..]) else Trace([], []))
  {
    assert turns[i..][0] == turns[i] && turns[i..][1..] == turns[i + 1..];
    JoinAssociates(done, Trace(one.sent, one.calls),
                   if one.open then Serve(lib, sessionUrl, enc, turns[i + 1..]) else Trace([], []));
  }

  // When an exchange succeeds, and why it fails, without the functions above.

  /** Bytes that came under this compression code inflate to body. */
  predicate Inflates(lib: Libraries, compression: byte, bytes: seq<byte>, body: seq<byte>) {
    if compression == 1 then lib.gunzip(bytes) == Inflated(body)
    else if compression == 2 then lib.unzstd(bytes) == Inflated(body)
    else body == bytes
  }

  /** A client deflates body to bytes, under this code. */
  predicate Deflates(lib: Libraries, compression: byte, body: seq<byte>, bytes: seq<byte>) {
    if compression == 1 then lib.gzip(body) == Deflated(bytes)
    else if compression == 2 then lib.zstd(body) == Deflated(bytes)
    else bytes == body
  }

  predicate FailsWith(i: Inflated, error: string) { !i.Inflated? && i.error == error }

  predicate InflateFails(lib: Libraries, compression: byte, bytes: seq<byte>, error: string) {
    (compression == 1 && FailsWith(lib.gunzip(bytes), error)) || (compression == 2 && FailsWith(lib.unzstd(bytes), error))
  }

  /** q is the request that the client meant by r. */
  predicate MeantBy(lib: Libraries, sessionUrl: seq<byte>, r: Request, q: HttpRequest) {
    && q.verb == VerbName(r.verb) && q.url == sessionUrl + [47] + r.path && q.jsonHeader == r.isJSON
    && Inflates(lib, r.compression, r.body, q.body)
  }

  lemma VerbNames()
    ensures VerbName(0) == "GET" && VerbName(1) == "HEAD" && VerbName(2) == "POST" && VerbName(3) == "PUT"
    ensures VerbName(4) == "DELETE" && VerbName(5) == "CONNECT" && VerbName(6) == "OPTIONS" && VerbName(7) == "TRACE"
    ensures VerbName(8) == "PATCH" && forall verb | verb > 8 :: VerbName(verb) == "UNKNOWN"
  {
  }

  /** A client advertises a codec by its name anywhere in the header. */
  lemma AdvertisedExactly(acceptEncoding: string)
    ensures Advertised(acceptEncoding).gzip <==> exists a, b :: acceptEncoding == a + "gzip" + b
    ensures Advertised(acceptEncoding).zstd <==> exists a, b :: acceptEncoding == a + "zstd" + b
  {
    ContainsExactly(acceptEncoding, "gzip");
    ContainsExactly(acceptEncoding, "zstd");
  }

  lemma ContainsExactly(s: string, sub: string)
    ensures Contains(s, sub) <==> exists a, b :: s == a + sub + b
  {
    if Contains(s, sub) {
      var i :| 0 <= i <= |s| && sub <= s[i..];
      assert s == s[..i] + sub + s[i..][|sub|..];
    }
    if a, b :| s == a + sub + b {
      assert sub <= s[|a|..];
    }
  }

  /** A request goes to the HTTP library exactly if it is the one meant and can be built. */
  lemma AsksExactly(lib: Libraries, sessionUrl: seq<byte>, r: Request, q: HttpRequest)
    ensures ToHttp(lib, sessionUrl, r) == Ok(q) <==> MeantBy(lib, sessionUrl, r, q) && lib.newRequest(q) == None
  {
  }

  ghost predicate AskFails(lib: Libraries, sessionUrl: seq<byte>, r: Request, error: string) {
    || InflateFails(lib, r.compression, r.body, error)
    || exists q :: MeantBy(lib, sessionUrl, r, q) && lib.newRequest(q) == Some(error)
  }

  /** None is made exactly if the body does not inflate or the request cannot be built. */
  lemma AskFailsExactly(lib: Libraries, sessionUrl: seq<byte>, r: Request, error: string)
    ensures ToHttp(lib, sessionUrl, r) == Err(error) <==> AskFails(lib, sessionUrl, r, error)
  {
    var body := Inflate(lib, r.compression, r.body);
    if body.Ok? {
      var q := HttpRequest(VerbName(r.verb), sessionUrl + [SLASH] + r.path, r.isJSON, body.value);
      assert MeantBy(lib, sessionUrl, r, q);
      assert forall x | MeantBy(lib, sessionUrl, r, x) :: x == q;
    }
  }

  /** The codec that the reply is to be deflated with breaks off. */
  predicate BreaksOff(lib: Libraries, enc: Encodings, body: seq<byte>, error: string) {
    |body| > 1024
    && if enc.zstd then lib.zstd(body).BrokenOff? && lib.zstd(body).error == error
       else enc.gzip && lib.gzip(body).BrokenOff? && lib.gzip(body).error == error
  }

  /** The upstream's answer cannot be read, closed or deflated; the first of these counts. */
  predicate AnswerFails(lib: Libraries, enc: Encodings, h: HttpResponse, error: string) {
    if h.readError.Some? then h.readError.value == error
    else if h.closeError.Some? then h.closeError.value == error
    else BreaksOff(lib, enc, h.body, error)
  }

  ghost predicate Answerable(lib: Libraries, enc: Encodings, h: HttpResponse) {
    forall error :: !AnswerFails(lib, enc, h, error)
  }

  /** A good reply is made exactly of an answer that is read, closed and deflated without an error. */
  lemma RespondsExactly(lib: Libraries, enc: Encodings, id: bv32, h: HttpResponse)
    ensures Respond(lib, enc, id, h).Ok? <==> Answerable(lib, enc, h)
    ensures forall error :: Respond(lib, enc, id, h) == Err(error) <==> AnswerFails(lib, enc, h, error)
  {
    var r := Respond(lib, enc, id, h);
    if r.Err? {
      assert AnswerFails(lib, enc, h, r.error);
    }
  }

  // Laws of one exchange.

  /** Decompression undoes compression, where compression succeeds. */
  ghost predicate Inverse(lib: Libraries) {
    && (forall x :: lib.gzip(x).Deflated? ==> lib.gunzip(lib.gzip(x).bytes) == Inflated(x))
    && (forall x :: lib.zstd(x).Deflated? ==> lib.unzstd(lib.zstd(x).bytes) == Inflated(x))
  }

  lemma StatusRoundTrip(status: bv64)
    ensures status < 65536 ==> Status16(status) as bv64 == status
  {
  }

  lemma InflateDeflate(lib: Libraries, compression: byte, body: seq<byte>)
    requires Inverse(lib) && Deflate(lib, compression, body).Ok?
    ensures Inflate(lib, compression, Deflate(lib, compression, body).value) == Ok(body)
  {
  }

  lemma ChooseLaw(enc: Encodings, size: nat)
    ensures Choose(enc, size) != NONE <==> size > 1024 && (enc.gzip || enc.zstd)
    ensures Choose(enc, size) == ZSTD <==> size > 1024 && enc.zstd
  {
  }

  lemma RespondDecodes(lib: Libraries, enc: Encodings, id: bv32, h: HttpResponse)
    requires Respond(lib, enc, id, h).Ok?
    ensures var c := Choose(enc, |h.body|);
            && Deflate(lib, c, h.body).Ok?
            && Decode(Respond(lib, enc, id, h).value)
               == Some(Decoded(c, IsJSON(h.contentType), false, id, Status16(h.status), Deflate(lib, c, h.body).value))
  {
    var c := Choose(enc, |h.body|);
    DecodeResponse(c, IsJSON(h.contentType), false, id, Status16(h.status), Deflate(lib, c, h.body).value);
  }

  /** What a client reads of an upstream response: d is the decoded frame. */
  ghost predicate Delivers(lib: Libraries, enc: Encodings, id: bv32, h: HttpResponse, d: Decoded) {
    && d.id == id && !d.isError
    && (h.status < 65536 ==> d.status as bv64 == h.status)
    && (d.isJSON <==> "application/json" <= h.contentType)
    && Inflates(lib, d.compression, d.payload, h.body)
    && (d.compression != 0 <==> |h.body| > 1024 && (enc.gzip || enc.zstd))
    && (d.compression == 2 <==> |h.body| > 1024 && enc.zstd)
  }

  lemma DeliversWhole(lib: Libraries, enc: Encodings, id: bv32, h: HttpResponse, payload: seq<byte>)
    requires Inverse(lib) && Deflate(lib, Choose(enc, |h.body|), h.body) == Ok(payload)
    ensures Delivers(lib, enc, id, h,
                     Decoded(Choose(enc, |h.body|), IsJSON(h.contentType), false, id, Status16(h.status), payload))
  {
    ChooseLaw(enc, |h.body|);
    StatusRoundTrip(h.status);
    InflateDeflate(lib, Choose(enc, |h.body|), h.body);
  }

  /**
   * A client that decodes a response frame and inflates its payload gets the request id,
   * the status, the JSON flag and the exact body back; the frame is compressed exactly if
   * the body is above the threshold and the client advertised a codec, by zstd if it can.
   */
  lemma ResponseRoundTrip(lib: Libraries, enc: Encodings, id: bv32, h: HttpResponse)
    requires Inverse(lib) && Answerable(lib, enc, h)
    ensures Respond(lib, enc, id, h).Ok?
    ensures var d := Decode(Respond(lib, enc, id, h).value);
            d.Some? && Delivers(lib, enc, id, h, d.value)
  {
    RespondsExactly(lib, enc, id, h);
    RespondDecodes(lib, enc, id, h);
    DeliversWhole(lib, enc, id, h, Deflate(lib, Choose(enc, |h.body|), h.body).value);
  }

  /** The body a client deflated, or sent as it is, is the body that goes upstream, under the path it named. */
  lemma RequestGoesUpstream(lib: Libraries, sessionUrl: seq<byte>, r: Request, body: seq<byte>)
    requires Inverse(lib) && ValidRequest(r) && Deflates(lib, r.compression, body, r.body)
    ensures Parse(Encode(r)).Ok?
    ensures var q := HttpRequest(VerbName(r.verb), sessionUrl + [SLASH] + r.path, r.isJSON, body);
            ToHttp(lib, sessionUrl, Parse(Encode(r)).value) == if lib.newRequest(q).Some? then Err(lib.newRequest(q).value) else Ok(q)
    ensures VerbName(r.verb) != "UNKNOWN"
  {
    ParseEncode(r);
    InflateDeflate(lib, r.compression, body);
    assert |VerbName(r.verb)| < 8;
  }

  /**
   * A WebDriver call through the connection is the call itself: the upstream gets the verb,
   * path and body the client meant, and the client decodes the upstream's own reply.
   */
  lemma CallIsTransparent(lib: Libraries, sessionUrl: seq<byte>, enc: Encodings, t: Turn, r: Request, body: seq<byte>, h: HttpResponse)
    requires Inverse(lib) && ValidRequest(r) && Deflates(lib, r.compression, body, r.body)
    requires t.message == Binary(Encode(r)) && t.alive && t.sendOk
    requires var q := HttpRequest(VerbName(r.verb), sessionUrl + [SLASH] + r.path, r.isJSON, body);
             lib.newRequest(q) == None && t.upstream(q) == Answered(h) && Answerable(lib, enc, h)
    ensures var one := ServeOne(lib, sessionUrl, enc, t);
            && one.open && |one.sent| == 1 && one.sent[0].Frame?
            && one.calls == [HttpRequest(VerbName(r.verb), sessionUrl + [SLASH] + r.path, r.isJSON, body)]
            && Decode(one.sent[0].bytes).Some?
            && Delivers(lib, enc, r.id, h, Decode(one.sent[0].bytes).value)
  {
    ParseEncode(r);
    RequestGoesUpstream(lib, sessionUrl, r, body);
    ResponseRoundTrip(lib, enc, r.id, h);
  }

  /** The protocol, not the session or its browser, failed: no request could be made, sent or answered. */
  ghost predicate ProtocolFailed(lib: Libraries, sessionUrl: seq<byte>, enc: Encodings, t: Turn, r: Request) {
    t.alive &&
    forall q | MeantBy(lib, sessionUrl, r, q) ::
      lib.newRequest(q).Some? || t.upstream(q).NotSent? || !Answerable(lib, enc, t.upstream(q).response)
  }

  lemma FailsExactly(lib: Libraries, sessionUrl: seq<byte>, enc: Encodings, t: Turn, r: Request)
    requires t.alive
    ensures ProtocolFailed(lib, sessionUrl, enc, t, r) <==>
              var call := ToHttp(lib, sessionUrl, r);
              call.Err? || t.upstream(call.value).NotSent? || Respond(lib, enc, r.id, t.upstream(call.value).response).Err?
  {
    var call := ToHttp(lib, sessionUrl, r);
    if call.Ok? {
      AsksExactly(lib, sessionUrl, r, call.value);
      assert forall q | MeantBy(lib, sessionUrl, r, q) :: q == call.value;
      if t.upstream(call.value).Answered? {
        RespondsExactly(lib, enc, r.id, t.upstream(call.value).response);
      }
    } else {
      forall q | MeantBy(lib, sessionUrl, r, q) ensures lib.newRequest(q).Some? {
        AsksExactly(lib, sessionUrl, r, q);
      }
    }
  }

  /**
   * Every reply decodes to the request's id; its error bit tells the protocol's failures
   * from the upstream's own replies; a dead session gives 404 and a failure 500.
   */
  lemma ReplyLaw(lib: Libraries, sessionUrl: seq<byte>, enc: Encodings, t: Turn, r: Request)
    ensures var d := Decode(Exchange(lib, sessionUrl, enc, t, r).frame);
            && d.Some? && d.value.id == r.id
            && (d.value.isError <==> ProtocolFailed(lib, sessionUrl, enc, t, r))
            && (!t.alive ==> d.value.status == 404 && Exchange(lib, sessionUrl, enc, t, r).call == None)
            && (d.value.isError ==> d.value.status == 500)
  {
    if !t.alive {
      DecodeResponse(NONE, true, false, r.id, 404, lib.errorBody("invalid session id", "session timed out or not found"));
    } else {
      FailsExactly(lib, sessionUrl, enc, t, r);
      match ToHttp(lib, sessionUrl, r)
      case Err(error) => DecodeError(lib, r.id, COULD_NOT_SEND, error);
      case Ok(call) =>
        match t.upstream(call)
        case NotSent(error) => DecodeError(lib, r.id, COULD_NOT_SEND, error);
        case Answered(h) =>
          match Respond(lib, enc, r.id, h)
          case Err(error) => DecodeError(lib, r.id, COULD_NOT_CONSTRUCT, error);
          case Ok(frame) => RespondDecodes(lib, enc, r.id, h);
    }
  }

  lemma DecodeError(lib: Libraries, id: bv32, message: string, cause: string)
    ensures var d := Decode(ProtocolErrorFrame(lib, id, message, cause));
            d.Some? && d.value.id == id && d.value.isError && d.value.status == 500
  {
    DecodeResponse(NONE, true, true, id, 500, lib.errorBody("wsdriver protocol error", message + " Cause: " + cause));
  }

  /** A frame that reports a failure of the protocol, byte for byte up to the JSON text. */
  function FailureFrame(lib: Libraries, id: bv32, message: string): seq<byte> {
    [0x01, 0x13] + PutUint32(id) + [0x01, 0xf4, 0] + lib.errorBody("wsdriver protocol error", message)
  }

  lemma FailureBytes(lib: Libraries, id: bv32, message: string)
    ensures ErrorFrame(lib, id, true, 500, "wsdriver protocol error", message) == FailureFrame(lib, id, message)
  {
    assert PutUint16(500) == [0x01, 0xf4];
    assert [VERSION, Pack(Header(RESPONSE, NONE, true, true))] == [0x01, 0x13];
  }

  /** What is replied, and whether the upstream was asked, by what went wrong. */
  lemma FailureReplies(lib: Libraries, sessionUrl: seq<byte>, enc: Encodings, t: Turn, r: Request, q: HttpRequest, error: string)
    requires t.alive
    ensures var x := Exchange(lib, sessionUrl, enc, t, r);
            var sendFailed := FailureFrame(lib, r.id, "couldn't send request to webdriver." + " Cause: " + error);
            var answerLost := FailureFrame(lib, r.id, "couldn't construct wsdriver response." + " Cause: " + error);
            && (AskFails(lib, sessionUrl, r, error) ==> x == Exchanged(sendFailed, None))
            && (MeantBy(lib, sessionUrl, r, q) && lib.newRequest(q) == None ==>
                  && (t.upstream(q) == NotSent(error) ==> x == Exchanged(sendFailed, Some(q)))
                  && (t.upstream(q).Answered? && AnswerFails(lib, enc, t.upstream(q).response, error)
                      ==> x == Exchanged(answerLost, Some(q))))
  {
    AskFailsExactly(lib, sessionUrl, r, error);
    AsksExactly(lib, sessionUrl, r, q);
    FailureBytes(lib, r.id, COULD_NOT_SEND + " Cause: " + error);
    FailureBytes(lib, r.id, COULD_NOT_CONSTRUCT + " Cause: " + error);
    if t.upstream(q).Answered? {
      RespondsExactly(lib, enc, r.id, t.upstream(q).response);
    }
  }

  /** A dead session is reported as such, and the upstream is not asked. */
  lemma DeadReplies(lib: Libraries, sessionUrl: seq<byte>, enc: Encodings, t: Turn, r: Request)
    requires !t.alive
    ensures Exchange(lib, sessionUrl, enc, t, r)
         == Exchanged([0x01, 0x12] + PutUint32(r.id) + [0x01, 0x94, 0]
                        + lib.errorBody("invalid session id", "session timed out or not found"), None)
  {
    assert PutUint16(404) == [0x01, 0x94];
    assert [VERSION, Pack(Header(RESPONSE, NONE, true, false))] == [0x01, 0x12];
  }

  // The law of the whole trace.

  predicate Accepts(t: Turn) { t.message.Binary? && Parse(t.message.data).Ok? }

  /** How many messages are answered: up to the first that is not accepted or whose reply is not sent. */
  function Answers(turns: seq<Turn>): (n: nat)
    ensures n <= |turns|
  {
    if turns == [] || !Accepts(turns[0]) || !turns[0].sendOk then 0 else 1 + Answers(turns[1..])
  }

  /** The stream after the answered messages: at most one close, whose code tells why. */
  predicate EndsRight(rest: seq<Turn>, tail: seq<Out>) {
    if rest == [] || rest[0].message.Truncated? || Accepts(rest[0]) then tail == []
    else if rest[0].message.Text? then tail == [Close(1003, None)]
    else tail == [Close(1007, Some(Parse(rest[0].message.data).error))]
  }

  /** out is the one frame that answers turn t, and it decodes to the request's id. */
  predicate AnsweredRight(lib: Libraries, sessionUrl: seq<byte>, enc: Encodings, t: Turn, out: Out) {
    && Accepts(t) && t.sendOk
    && var r := Parse(t.message.data).value;
    && out == Frame(Exchange(lib, sessionUrl, enc, t, r).frame)
    && Decode(out.bytes).Some? && Decode(out.bytes).value.id == r.id
  }

  lemma AnsweredHead(lib: Libraries, sessionUrl: seq<byte>, enc: Encodings, turns: seq<Turn>)
    requires Answers(turns) > 0
    ensures var sent := Serve(lib, sessionUrl, enc, turns).sent;
            && sent != [] && AnsweredRight(lib, sessionUrl, enc, turns[0], sent[0])
            && sent[1..] == Serve(lib, sessionUrl, enc, turns[1..]).sent
  {
    ReplyLaw(lib, sessionUrl, enc, turns[0], Parse(turns[0].message.data).value);
  }

  lemma TraceEnds(lib: Libraries, sessionUrl: seq<byte>, enc: Encodings, turns: seq<Turn>)
    requires Answers(turns) == 0
    ensures EndsRight(turns, Serve(lib, sessionUrl, enc, turns).sent)
    ensures turns != [] && Accepts(turns[0]) ==> !turns[0].sendOk
  {
  }

  /** The first n turns are answered by the first n outs, in order. */
  ghost predicate AllAnswered(lib: Libraries, sessionUrl: seq<byte>, enc: Encodings, turns: seq<Turn>, sent: seq<Out>, n: nat) {
    n <= |turns| && n <= |sent| && forall k | 0 <= k < n :: AnsweredRight(lib, sessionUrl, enc, turns[k], sent[k])
  }

  lemma AllAnsweredCons(lib: Libraries, sessionUrl: seq<byte>, enc: Encodings, turns: seq<Turn>, sent: seq<Out>, n: nat)
    requires turns != [] && sent != [] && n > 0 && AnsweredRight(lib, sessionUrl, enc, turns[0], sent[0])
    requires AllAnswered(lib, sessionUrl, enc, turns[1..], sent[1..], n - 1)
    ensures AllAnswered(lib, sessionUrl, enc, turns, sent, n)
    ensures turns[n..] == turns[1..][n - 1..] && sent[n..] == sent[1..][n - 1..]
  {
    forall k | 1 <= k < n ensures AnsweredRight(lib, sessionUrl, enc, turns[k], sent[k]) {
      assert turns[k] == turns[1..][k - 1] && sent[k] == sent[1..][k - 1];
    }
  }

  /** The law of a trace: n turns answered, then at most one close that fits the next turn, and nothing after it. */
  ghost predicate Lawful(lib: Libraries, sessionUrl: seq<byte>, enc: Encodings, turns: seq<Turn>, sent: seq<Out>, n: nat) {
    && AllAnswered(lib, sessionUrl, enc, turns, sent, n)
    && EndsRight(turns[n..], sent[n..])
    && (n < |turns| && Accepts(turns[n]) ==> !turns[n].sendOk)
  }

  lemma LawfulCons(lib: Libraries, sessionUrl: seq<byte>, enc: Encodings, turns: seq<Turn>, sent: seq<Out>, n: nat)
    requires turns != [] && sent != [] && n > 0 && AnsweredRight(lib, sessionUrl, enc, turns[0], sent[0])
    requires Lawful(lib, sessionUrl, enc, turns[1..], sent[1..], n - 1)
    ensures Lawful(lib, sessionUrl, enc, turns, sent, n)
  {
    AllAnsweredCons(lib, sessionUrl, enc, turns, sent, n);
  }

  /**
   * For every sequence of messages: the answered ones get exactly one frame each, in order,
   * which decodes to the request's id; then the stream ends, with one close if the next
   * message is text (1003) or not a valid frame (1007), and nothing after it.
   */
  lemma {:induction false} TraceLaw(lib: Libraries, sessionUrl: seq<byte>, enc: Encodings, turns: seq<Turn>)
    ensures Lawful(lib, sessionUrl, enc, turns, Serve(lib, sessionUrl, enc, turns).sent, Answers(turns))
  {
    var sent := Serve(lib, sessionUrl, enc, turns).sent;
    if Answers(turns) == 0 {
      TraceEnds(lib, sessionUrl, enc, turns);
      assert turns[0..] == turns && sent[0..] == sent;
    } else {
      AnsweredHead(lib, sessionUrl, enc, turns);
      TraceLaw(lib, sessionUrl, enc, turns[1..]);
      LawfulCons(lib, sessionUrl, enc, turns, sent, Answers(turns));
    }
  }

  // What the upstream is asked.

  /** What an accepted request asks the upstream: the request that is meant, if it can be built and the session is alive. */
  lemma CallOf(lib: Libraries, sessionUrl: seq<byte>, enc: Encodings, t: Turn, r: Request, q: HttpRequest)
    ensures Exchange(lib, sessionUrl, enc, t, r).call == Some(q) <==>
              t.alive && MeantBy(lib, sessionUrl, r, q) && lib.newRequest(q) == None
  {
    AsksExactly(lib, sessionUrl, r, q);
  }

  /** The turns that are exchanged: those answered, and one more whose reply could not be sent. */
  function Handled(turns: seq<Turn>): (n: nat)
    ensures n <= |turns|
  {
    if turns == [] || !Accepts(turns[0]) then 0
    else if !turns[0].sendOk then 1
    else 1 + Handled(turns[1..])
  }

  /** What a turn asks the upstream, if its message is accepted. */
  function CallBy(lib: Libraries, sessionUrl: seq<byte>, enc: Encodings, t: Turn): seq<HttpRequest> {
    if Accepts(t) then OptionSeq(Exchange(lib, sessionUrl, enc, t, Parse(t.message.data).value).call) else []
  }

  /** The calls of the turns, one after the other. */
  function Asked(lib: Libraries, sessionUrl: seq<byte>, enc: Encodings, turns: seq<Turn>): (calls: seq<HttpRequest>)
    ensures |calls| <= |turns|
  {
    if turns == [] then [] else CallBy(lib, sessionUrl, enc, turns[0]) + Asked(lib, sessionUrl, enc, turns[1..])
  }

  /** They are accepted. */
  lemma {:induction false} HandledAccepted(turns: seq<Turn>)
    ensures forall k | 0 <= k < Handled(turns) :: Accepts(turns[k])
  {
    if turns != [] && Accepts(turns[0]) && turns[0].sendOk {
      HandledAccepted(turns[1..]);
      forall k | 1 <= k < Handled(turns) ensures Accepts(turns[k]) {
        assert turns[k] == turns[1..][k - 1];
      }
    }
  }

  /** They are those that are answered, and the next one if it is accepted: its answer is lost. */
  lemma {:induction false} HandledCount(turns: seq<Turn>)
    ensures var n := Answers(turns); Handled(turns) == n + if n < |turns| && Accepts(turns[n]) then 1 else 0
  {
    if turns != [] && Accepts(turns[0]) && turns[0].sendOk {
      HandledCount(turns[1..]);
      var n := Answers(turns[1..]);
      assert n < |turns[1..]| ==> turns[1..][n] == turns[n + 1];
    }
  }

  /** One turn that is exchanged. */
  lemma AskedHead(lib: Libraries, sessionUrl: seq<byte>, enc: Encodings, turns: seq<Turn>)
    requires turns != [] && Accepts(turns[0])
    ensures Serve(lib, sessionUrl, enc, turns).calls
         == CallBy(lib, sessionUrl, enc, turns[0])
            + if turns[0].sendOk then Serve(lib, sessionUrl, enc, turns[1..]).calls else []
  {
  }

  lemma AskedCons(lib: Libraries, sessionUrl: seq<byte>, enc: Encodings, t: Turn, rest: seq<Turn>)
    ensures Asked(lib, sessionUrl, enc, [t] + rest) == CallBy(lib, sessionUrl, enc, t) + Asked(lib, sessionUrl, enc, rest)
  {
    assert ([t] + rest)[1..] == rest;
  }

  lemma HandledCons(turns: seq<Turn>)
    requires turns != [] && Accepts(turns[0])
    ensures turns[..Handled(turns)] == [turns[0]] + if turns[0].sendOk then turns[1..][..Handled(turns[1..])] else []
  {
  }

  /**
   * For every sequence of messages: the upstream is asked at most once for each message that
   * is answered, or whose answer is lost, in order; never for a dead session or a rejected
   * frame, and for nothing after the stream ended.
   */
  lemma {:induction false} CallLaw(lib: Libraries, sessionUrl: seq<byte>, enc: Encodings, turns: seq<Turn>)
    ensures Serve(lib, sessionUrl, enc, turns).calls == Asked(lib, sessionUrl, enc, turns[..Handled(turns)])
  {
    if turns != [] && Accepts(turns[0]) {
      AskedHead(lib, sessionUrl, enc, turns);
      HandledCons(turns);
      if turns[0].sendOk {
        CallLaw(lib, sessionUrl, enc, turns[1..]);
      }
      AskedCons(lib, sessionUrl, enc, turns[0], if turns[0].sendOk then turns[1..][..Handled(turns[1..])] else []);
    } else {
      assert turns[..0] == [];
    }
  }
}
