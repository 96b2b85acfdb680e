/**
 * The connection as it runs: one request struct and two byte buffers, reused for every
 * message, the struct's Buffer being a view into the first of them. The loop is proved to
 * send and ask exactly what Serve says.
 */
module WsDriver {
  import opened Wrappers
  import opened WsFrames
  import opened WsExchange

  /** A Go slice of bytes: a view into an array that others may still write. */
  datatype Slice = Slice(arr: array<byte>, lo: nat, hi: nat) {
    ghost predicate Valid() { lo <= hi <= arr.Length }

    function View(): seq<byte>
      requires lo <= hi <= arr.Length
      reads arr
    {
      arr[lo..hi]
    }
  }

  /** bytes.Buffer, as far as the connection uses it. */
  class ByteBuffer {
    var data: array<byte>
    var len: nat

    ghost predicate Valid()
      reads this
    {
      len <= data.Length
    }

    ghost function Contents(): seq<byte>
      requires Valid()
      reads this, data
    {
      data[..len]
    }

    constructor (capacity: nat)
      ensures Valid() && fresh(data) && Contents() == []
    {
      data, len := new byte[capacity], 0;
    }

    method Reset()
      modifies this
      ensures Valid() && data == old(data) && Contents() == []
    {
      len := 0;
    }

    /** Appends in place while there is room, else in a new array; the old one is left as it was. */
    method Write(bs: seq<byte>)
      requires Valid()
      modifies this, data
      ensures Valid() && (data == old(data) || fresh(data))
      ensures Contents() == old(Contents()) + bs
      ensures data == old(data) <==> old(len) + |bs| <= old(data.Length)
      ensures data == old(data) ==> forall i | len <= i < data.Length :: data[i] == old(data[i])
      ensures data != old(data) ==> old(data)[..] == old(data[..])
    {
      if len + |bs| > data.Length {
        var grown := new byte[2 * data.Length + |bs|];
        forall i | 0 <= i < len {
          grown[i] := data[i];
        }
        data := grown;
      }
      forall i | 0 <= i < |bs| {
        data[len + i] := bs[i];
      }
      len := len + |bs|;
    }

    /** The buffer's bytes, not copied. */
    method Bytes() returns (s: Slice)
      requires Valid()
      ensures s == Slice(data, 0, len) && s.View() == Contents()
    {
      s := Slice(data, 0, len);
    }
  }

  /** The struct that every message is parsed into. */
  class RequestMessage {
    var version: byte
    var header: Header
    var id: bv32
    var verb: bv16
    var path: seq<byte>
    var buffer: Slice

    constructor ()
      ensures fresh(buffer.arr) && buffer.Valid()
    {
      version, header, id, verb, path := 0, Header(0, 0, false, false), 0, 0, [];
      var none := new byte[0];
      buffer := Slice(none, 0, 0);
    }

    /** The fields hold r, its body being what the view shows now. */
    ghost predicate Holds(r: Request)
      reads this, buffer.arr
    {
      && buffer.Valid()
      && version == VERSION && header == Header(REQUEST, r.compression, r.isJSON, r.isError)
      && id == r.id && verb == r.verb && path == r.path && buffer.View() == r.body
    }
  }

  method ParseRequestV1(data: Slice, req: RequestMessage) returns (err: Option<ParseError>)
    requires data.Valid()
    modifies req
    ensures match Parse(data.View())
            case Err(e) => err == Some(e)
            case Ok(r) => err == None && req.Holds(r) && req.buffer.arr == data.arr
  {
    var d := data.View();
    err := ParseHead(d, req);
    if err.Some? {
      return;
    }
    var n := IndexByte(d[8..], 0);
    if n < 0 {
      return Some(NoTerminator);
    }
    if n == 0 {
      return Some(EmptyPath);
    }
    req.path := d[8..8 + n];
    if req.path[0] == DOT || req.path[0] == SLASH {
      return Some(BadPathStart);
    }
    req.buffer := Slice(data.arr, data.lo + 9 + n, data.hi);
  }

  /** The fixed header; on an error the fields before the offending one are already overwritten. */
  method ParseHead(d: seq<byte>, req: RequestMessage) returns (err: Option<ParseError>)
    modifies req
    ensures err == HeadError(d)
    ensures err == None ==>
              req.version == d[0] && req.header == Unpack(d[1]) && req.id == Uint32(d[2..6]) && req.verb == Uint16(d[6..8])
  {
    if |d| < MIN_MESSAGE_SIZE {
      return Some(TooShort);
    }
    req.version := d[0];
    if req.version != VERSION {
      return Some(BadVersion);
    }
    var h := d[1];
    req.header := Header((h >> 4) & 0x0f, (h >> 2) & 0x03, (h >> 1) & 0x01 != 0, h & 0x01 != 0);
    if req.header.messageType != REQUEST {
      return Some(BadType);
    }
    if req.header.compression > 2 {
      return Some(BadCompression);
    }
    req.id := Uint32(d[2..6]);
    req.verb := Uint16(d[6..8]);
    if req.verb > 8 {
      return Some(BadMethod);
    }
    err := None;
  }

  /** Stops at the first error; httpBuffer receives the inflated body when there is one to inflate. */
  method MakeRequest(lib: Libraries, sessionUrl: seq<byte>, m: RequestMessage, httpBuffer: ByteBuffer,
                     upstream: HttpRequest -> Answer, ghost r: Request)
    returns (call: Option<HttpRequest>, result: Result<HttpResponse, string>)
    requires m.Holds(r) && httpBuffer.Valid() && m.buffer.arr != httpBuffer.data
    modifies httpBuffer, httpBuffer.data
    ensures httpBuffer.Valid() && (httpBuffer.data == old(httpBuffer.data) || fresh(httpBuffer.data))
    ensures match ToHttp(lib, sessionUrl, r)
            case Err(error) => call == None && result == Err(error)
            case Ok(q) => call == Some(q) && match upstream(q)
                                             case NotSent(error) => result == Err(error)
                                             case Answered(h) => result == Ok(h)
  {
    var body;
    if m.header.compression == GZIP || m.header.compression == ZSTD {
      var inflated := if m.header.compression == GZIP then lib.gunzip(m.buffer.View()) else lib.unzstd(m.buffer.View());
      if inflated.BadStart? {
        return None, Err(inflated.error);
      }
      httpBuffer.Reset();
      if inflated.BadStream? {
        httpBuffer.Write(inflated.partial);
        return None, Err(inflated.error);
      }
      httpBuffer.Write(inflated.bytes);
      var s := httpBuffer.Bytes();
      body := s.View();
    } else {
      body := m.buffer.View();
    }
    var q := HttpRequest(VerbName(m.verb), sessionUrl + [SLASH] + m.path, m.header.isJSON, body);
    var unbuilt := lib.newRequest(q);
    if unbuilt.Some? {
      return None, Err(unbuilt.value);
    }
    call := Some(q);
    match upstream(q)
    case NotSent(error) => result := Err(error);
    case Answered(h) => result := Ok(h);
  }

  /** What comes before the payload in every frame that is sent; the path is empty. */
  method WritePrologue(data: ByteBuffer, header: byte, id: bv32, status: bv16)
    requires data.Valid() && data.Contents() == []
    modifies data, data.data
    ensures data.Valid() && (data.data == old(data.data) || fresh(data.data))
    ensures data.Contents() == [VERSION, header] + PutUint32(id) + PutUint16(status) + [0]
  {
    data.Write([VERSION]);
    data.Write([header]);
    assert data.Contents() == [VERSION, header];
    data.Write(PutUint32(id));
    data.Write(PutUint16(status));
    data.Write([0]);
  }

  /** On an error wsBuffer may hold part of a frame. */
  method WriteResponse(lib: Libraries, wsBuffer: ByteBuffer, httpBuffer: ByteBuffer, h: HttpResponse, id: bv32, enc: Encodings)
    returns (err: Option<string>)
    requires wsBuffer.Valid() && httpBuffer.Valid() && wsBuffer != httpBuffer && wsBuffer.data != httpBuffer.data
    modifies wsBuffer, wsBuffer.data, httpBuffer, httpBuffer.data
    ensures wsBuffer.Valid() && httpBuffer.Valid() && wsBuffer.data != httpBuffer.data
    ensures wsBuffer.data == old(wsBuffer.data) || fresh(wsBuffer.data)
    ensures httpBuffer.data == old(httpBuffer.data) || fresh(httpBuffer.data)
    ensures match Respond(lib, enc, id, h)
            case Err(error) => err == Some(error)
            case Ok(frame) => err == None && wsBuffer.Contents() == frame
  {
    wsBuffer.Reset();
    httpBuffer.Reset();
    httpBuffer.Write(h.body);
    if h.readError.Some? {
      return h.readError;
    }
    if h.closeError.Some? {
      return h.closeError;
    }
    var compression, header := ResponseHeader(enc, httpBuffer.len, IsJSON(h.contentType));
    WritePrologue(wsBuffer, header, id, Status16(h.status));
    var s := httpBuffer.Bytes();
    err := WritePayload(lib, compression, s, wsBuffer);
  }

  method ResponseHeader(enc: Encodings, size: nat, isJSON: bool) returns (compression: byte, header: byte)
    ensures compression == Choose(enc, size) && header == Pack(Header(RESPONSE, compression, isJSON, false))
  {
    compression := NONE;
    header := RESPONSE << 4;
    if size > COMPRESSION_THRESHOLD {
      if enc.zstd {
        header := header | (ZSTD << 2);
        compression := ZSTD;
      } else if enc.gzip {
        header := header | (GZIP << 2);
        compression := GZIP;
      }
    }
    if isJSON {
      header := header | (1 << 1);
    }
    HeaderBits(header, compression, isJSON, false);
  }

  /** Appends the body, deflated if so chosen; a failing codec leaves what it had written. */
  method WritePayload(lib: Libraries, compression: byte, body: Slice, wsBuffer: ByteBuffer) returns (err: Option<string>)
    requires body.Valid() && wsBuffer.Valid() && body.arr != wsBuffer.data
    modifies wsBuffer, wsBuffer.data
    ensures wsBuffer.Valid() && (wsBuffer.data == old(wsBuffer.data) || fresh(wsBuffer.data))
    ensures match Deflate(lib, compression, body.View())
            case Err(error) => err == Some(error)
            case Ok(payload) => err == None && wsBuffer.Contents() == old(wsBuffer.Contents()) + payload
  {
    err := None;
    if compression == GZIP || compression == ZSTD {
      var deflated := if compression == GZIP then lib.gzip(body.View()) else lib.zstd(body.View());
      if deflated.BrokenOff? {
        wsBuffer.Write(deflated.partial);
        return Some(deflated.error);
      }
      wsBuffer.Write(deflated.bytes);
    } else {
      wsBuffer.Write(body.View());
    }
  }

  /** The bits set one after another are the packed header. */
  lemma HeaderBits(header: byte, compression: byte, isJSON: bool, isError: bool)
    requires compression <= 2
    requires header == 0x10 | (compression << 2) | (if isJSON then 2 else 0) | (if isError then 1 else 0)
    ensures header == Pack(Header(RESPONSE, compression, isJSON, isError))
  {
  }

  method WriteErrorMessage(lib: Libraries, data: ByteBuffer, id: bv32, isProtocolError: bool, status: bv16,
                           name: string, message: string)
    requires data.Valid()
    modifies data, data.data
    ensures data.Valid() && (data.data == old(data.data) || fresh(data.data))
    ensures data.Contents() == ErrorFrame(lib, id, isProtocolError, status, name, message)
  {
    data.Reset();
    var header: byte := (RESPONSE << 4) | (1 << 1);
    if isProtocolError {
      header := header | 1;
    }
    HeaderBits(header, NONE, true, isProtocolError);
    WritePrologue(data, header, id, status);
    data.Write(lib.errorBody(name, message));
  }

  /** The exchange x is this call, and this frame or, after a failure, the frame that reports it. */
  ghost predicate Comes(x: Exchanged, lib: Libraries, id: bv32, call: Option<HttpRequest>, failure: Option<string>, frame: seq<byte>) {
    && x.call == call
    && x.frame == if failure.None? then frame else
         ErrorFrame(lib, id, true, STATUS_INTERNAL_SERVER_ERROR, "wsdriver protocol error", failure.value)
  }

  /** The request sent and its answer put into wsBuffer, or what went wrong. */
  method AskUpstream(lib: Libraries, sessionUrl: seq<byte>, enc: Encodings, upstream: HttpRequest -> Answer,
                wsBuffer: ByteBuffer, httpBuffer: ByteBuffer, reqMsg: RequestMessage, ghost r: Request)
    returns (call: Option<HttpRequest>, failure: Option<string>)
    requires Apart(wsBuffer, httpBuffer) && reqMsg.Holds(r) && reqMsg.buffer.arr == wsBuffer.data
    modifies wsBuffer, wsBuffer.data, httpBuffer, httpBuffer.data
    ensures Apart(wsBuffer, httpBuffer)
    ensures wsBuffer.data == old(wsBuffer.data) || fresh(wsBuffer.data)
    ensures httpBuffer.data == old(httpBuffer.data) || fresh(httpBuffer.data)
    ensures Comes(Forward(lib, sessionUrl, enc, upstream, r), lib, r.id, call, failure, wsBuffer.Contents())
  {
    var response;
    call, response := MakeRequest(lib, sessionUrl, reqMsg, httpBuffer, upstream, r);
    match response {
      case Err(error) =>
        failure := Some(COULD_NOT_SEND + " Cause: " + error);
      case Ok(h) =>
        var cause := WriteResponse(lib, wsBuffer, httpBuffer, h, reqMsg.id, enc);
        failure := if cause.Some? then Some(COULD_NOT_CONSTRUCT + " Cause: " + cause.value) else None;
    }
  }

  /** The reply to the request in reqMsg, built in wsBuffer over the bytes reqMsg.buffer still shows. */
  method AnswerLive(lib: Libraries, sessionUrl: seq<byte>, enc: Encodings, upstream: HttpRequest -> Answer,
                wsBuffer: ByteBuffer, httpBuffer: ByteBuffer, reqMsg: RequestMessage, ghost r: Request)
    returns (call: Option<HttpRequest>)
    requires Apart(wsBuffer, httpBuffer) && reqMsg.Holds(r) && reqMsg.buffer.arr == wsBuffer.data
    modifies wsBuffer, wsBuffer.data, httpBuffer, httpBuffer.data
    ensures Apart(wsBuffer, httpBuffer)
    ensures wsBuffer.data == old(wsBuffer.data) || fresh(wsBuffer.data)
    ensures httpBuffer.data == old(httpBuffer.data) || fresh(httpBuffer.data)
    ensures Exchanged(wsBuffer.Contents(), call) == Forward(lib, sessionUrl, enc, upstream, r)
  {
    var failure;
    call, failure := AskUpstream(lib, sessionUrl, enc, upstream, wsBuffer, httpBuffer, reqMsg, r);
    if failure.Some? {
      WriteErrorMessage(lib, wsBuffer, reqMsg.id, true, STATUS_INTERNAL_SERVER_ERROR, "wsdriver protocol error", failure.value);
    }
  }

  /** The frame that answers an accepted request is left in wsBuffer. */
  method Reply(lib: Libraries, sessionUrl: seq<byte>, enc: Encodings, t: Turn,
               wsBuffer: ByteBuffer, httpBuffer: ByteBuffer, reqMsg: RequestMessage, ghost r: Request)
    returns (call: Option<HttpRequest>)
    requires Apart(wsBuffer, httpBuffer) && reqMsg.Holds(r) && reqMsg.buffer.arr == wsBuffer.data
    modifies wsBuffer, wsBuffer.data, httpBuffer, httpBuffer.data
    ensures Apart(wsBuffer, httpBuffer)
    ensures wsBuffer.data == old(wsBuffer.data) || fresh(wsBuffer.data)
    ensures httpBuffer.data == old(httpBuffer.data) || fresh(httpBuffer.data)
    ensures Exchanged(wsBuffer.Contents(), call) == Exchange(lib, sessionUrl, enc, t, r)
  {
    if !t.alive {
      WriteErrorMessage(lib, wsBuffer, reqMsg.id, false, STATUS_NOT_FOUND,
                        "invalid session id", "session timed out or not found");
      return None;
    }
    call := AnswerLive(lib, sessionUrl, enc, t.upstream, wsBuffer, httpBuffer, reqMsg, r);
  }

  ghost predicate Apart(wsBuffer: ByteBuffer, httpBuffer: ByteBuffer)
    reads wsBuffer, httpBuffer
  {
    wsBuffer.Valid() && httpBuffer.Valid() && wsBuffer != httpBuffer && wsBuffer.data != httpBuffer.data
  }

  /** One iteration of the read loop: open means that it goes on. */
  method ServeMessage(lib: Libraries, sessionUrl: seq<byte>, enc: Encodings, t: Turn,
                      wsBuffer: ByteBuffer, httpBuffer: ByteBuffer, reqMsg: RequestMessage)
    returns (sent: seq<Out>, calls: seq<HttpRequest>, open: bool)
    requires Apart(wsBuffer, httpBuffer)
    modifies wsBuffer, wsBuffer.data, httpBuffer, httpBuffer.data, reqMsg
    ensures Apart(wsBuffer, httpBuffer)
    ensures wsBuffer.data == old(wsBuffer.data) || fresh(wsBuffer.data)
    ensures httpBuffer.data == old(httpBuffer.data) || fresh(httpBuffer.data)
    ensures Served(sent, calls, open) == ServeOne(lib, sessionUrl, enc, t)
  {
    sent, calls, open := [], [], false;
    if t.message.Text? {
      return [Close(CLOSE_UNSUPPORTED_DATA, None)], [], false;
    }
    wsBuffer.Reset();
    wsBuffer.Write(t.message.data);
    if t.message.Truncated? {
      return;
    }
    var bytes := wsBuffer.Bytes();
    var err := ParseRequestV1(bytes, reqMsg);
    if err.Some? {
      return [Close(CLOSE_INVALID_PAYLOAD, err)], [], false;
    }
    var call := Reply(lib, sessionUrl, enc, t, wsBuffer, httpBuffer, reqMsg, Parse(t.message.data).value);
    calls := OptionSeq(call);
    open := t.sendOk;
    if open {
      var frame := wsBuffer.Bytes();
      sent := [Frame(frame.View())];
    }
  }

  /** The read loop. Whatever the buffers still hold of earlier messages, it does what Serve says. */
  method HandleConnection(lib: Libraries, sessionUrl: seq<byte>, acceptEncoding: string, turns: seq<Turn>)
    returns (sent: seq<Out>, calls: seq<HttpRequest>)
    ensures Trace(sent, calls) == Serve(lib, sessionUrl, Advertised(acceptEncoding), turns)
  {
    var enc := Advertised(acceptEncoding);
    var reqMsg := new RequestMessage();
    var wsBuffer := new ByteBuffer(256 * 1024);
    var httpBuffer := new ByteBuffer(256 * 1024);
    var i, open := 0, true;
    sent, calls := [], [];
    while i < |turns| && open
      invariant i <= |turns|
      invariant Apart(wsBuffer, httpBuffer) && fresh(wsBuffer.data) && fresh(httpBuffer.data)
      invariant Serve(lib, sessionUrl, enc, turns)
             == Chain(Trace(sent, calls), if open then Serve(lib, sessionUrl, enc, turns[i..]) else Trace([], []))
    {
      var out, asked;
      out, asked, open := ServeMessage(lib, sessionUrl, enc, turns[i], wsBuffer, httpBuffer, reqMsg);
      ServeNext(lib, sessionUrl, enc, turns, i, Trace(sent, calls), Served(out, asked, open));
      sent, calls, i := sent + out, calls + asked, i + 1;
    }
  }
}
