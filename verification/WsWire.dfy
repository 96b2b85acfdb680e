/** The protocol as a client sees it, in bytes: what a frame asks for, and what a reply says. */
module WsWire {
  import opened Wrappers
  import opened WsFrames
  import opened WsExchange

  /** z is the place of the zero that ends the path of frame d. */
  ghost predicate PathEnds(d: seq<byte>, z: int) {
    8 < z < |d| && d[z] == 0 && forall i | 8 <= i < z :: d[i] != 0
  }

  lemma PathEndsAt(d: seq<byte>)
    requires Parse(d).Ok?
    ensures PathEnds(d, 8 + |Parse(d).value.path|)
  {
    ParsedIsValid(d);
    var n := |Parse(d).value.path|;
    assert forall i | 8 <= i < 8 + n :: d[i] == d[8..8 + n][i - 8];
  }

  lemma OnePathEnd(d: seq<byte>, y: int, z: int)
    requires PathEnds(d, y) && PathEnds(d, z)
    ensures y == z
  {
  }

  lemma HeaderBits(b: byte)
    ensures Unpack(b).compression == 0 <==> b & 0x0c == 0
    ensures Unpack(b).compression == 1 <==> b & 0x0c == 0x04
    ensures Unpack(b).compression == 2 <==> b & 0x0c == 0x08
    ensures Unpack(b).isJSON <==> b & 0x02 != 0
    ensures Unpack(b).isError <==> b & 0x01 != 0
  {
  }

  // Big-endian integers.

  predicate Says32(b: seq<byte>, x: bv32) {
    |b| == 4 && x == 0x100_0000 * (b[0] as bv32) + 0x1_0000 * (b[1] as bv32) + 0x100 * (b[2] as bv32) + (b[3] as bv32)
  }

  predicate Says16(b: seq<byte>, x: bv16) {
    |b| == 2 && x == 0x100 * (b[0] as bv16) + (b[1] as bv16)
  }

  lemma BigEndian32(b: seq<byte>)
    requires |b| == 4
    ensures Says32(b, Uint32(b))
  {
  }

  lemma BigEndian16(b: seq<byte>)
    requires |b| == 2
    ensures Says16(b, Uint16(b))
  {
  }

  // Requests.

  /** What an accepted frame says: its header bits, big-endian numbers, and the path up to the first zero. */
  lemma FrameSays(d: seq<byte>, z: int)
    requires Parse(d).Ok? && PathEnds(d, z)
    ensures var r := Parse(d).value;
            && r.path == d[8..z] && r.body == d[z + 1..]
            && (r.compression == 0 <==> d[1] & 0x0c == 0) && (r.compression == 1 <==> d[1] & 0x0c == 0x04)
            && (r.compression == 2 <==> d[1] & 0x0c == 0x08)
            && (r.isJSON <==> d[1] & 0x02 != 0) && (r.isError <==> d[1] & 0x01 != 0)
            && Says32(d[2..6], r.id) && Says16(d[6..8], r.verb)
  {
    PathEndsAt(d);
    OnePathEnd(d, 8 + |Parse(d).value.path|, z);
    HeaderBits(d[1]);
    BigEndian32(d[2..6]);
    BigEndian16(d[6..8]);
  }

  /** The bytes after the path, inflated as the header says: 4 is gzip, 8 is zstd, 0 is not compressed. */
  ghost predicate BodyOf(lib: Libraries, d: seq<byte>, z: int, body: seq<byte>)
    requires PathEnds(d, z)
  {
    var rest := d[z + 1..];
    if d[1] & 0x0c == 0x04 then lib.gunzip(rest) == Inflated(body)
    else if d[1] & 0x0c == 0x08 then lib.unzstd(rest) == Inflated(body)
    else body == rest
  }

  /** q is the HTTP request that frame d asks for. */
  ghost predicate AskedBy(lib: Libraries, sessionUrl: seq<byte>, d: seq<byte>, z: int, q: HttpRequest)
    requires PathEnds(d, z)
  {
    && (exists verb :: Says16(d[6..8], verb) && q.verb == VerbName(verb)) && q.url == sessionUrl + [47] + d[8..z]
    && (q.jsonHeader <==> d[1] & 0x02 != 0) && BodyOf(lib, d, z, q.body)
  }

  /** An accepted frame of a live session makes the upstream be asked for exactly what its bytes say, if that can be built. */
  lemma FrameAsks(lib: Libraries, sessionUrl: seq<byte>, enc: Encodings, t: Turn, d: seq<byte>, z: int, q: HttpRequest)
    requires Parse(d).Ok? && PathEnds(d, z)
    ensures Exchange(lib, sessionUrl, enc, t, Parse(d).value).call == Some(q) <==>
              t.alive && AskedBy(lib, sessionUrl, d, z, q) && lib.newRequest(q) == None
  {
    var r := Parse(d).value;
    FrameSays(d, z);
    CallOf(lib, sessionUrl, enc, t, r, q);
    assert r.compression <= 2;
    assert Inflates(lib, r.compression, r.body, q.body) <==> BodyOf(lib, d, z, q.body);
  }

  // Replies.

  lemma ResponseBytes(compression: byte, isJSON: bool, id: bv32, status: bv16, payload: seq<byte>)
    requires compression <= 2
    ensures var f := Response(compression, isJSON, false, id, status, payload);
            && |f| >= 9 && f[0] == VERSION && f[1] == Pack(Header(RESPONSE, compression, isJSON, false))
            && f[2..6] == PutUint32(id) && f[6..8] == PutUint16(status) && f[8] == 0 && f[9..] == payload
  {
  }

  /** The header byte of a reply. */
  predicate HeaderIs(b: byte, compression: byte, isJSON: bool) {
    && b & 0xf0 == 0x10 && b & 0x01 == 0 && (b & 0x02 != 0 <==> isJSON)
    && (b & 0x0c == 0x04 <==> compression == 1) && (b & 0x0c == 0x08 <==> compression == 2)
    && (b & 0x0c == 0 <==> compression == 0)
  }

  /** The fixed part of a reply. */
  predicate HeadIs(f: seq<byte>, compression: byte, isJSON: bool, id: bv32, status: bv16) {
    && |f| >= 9 && f[0] == 1 && HeaderIs(f[1], compression, isJSON) && f[8] == 0
    && Says32(f[2..6], id) && Says16(f[6..8], status)
  }

  lemma PackedBits(compression: byte, isJSON: bool)
    requires compression <= 2
    ensures HeaderIs(Pack(Header(RESPONSE, compression, isJSON, false)), compression, isJSON)
  {
  }

  lemma SaysPut(id: bv32, status: bv16)
    ensures Says32(PutUint32(id), id) && Says16(PutUint16(status), status)
  {
    Uint32RoundTrip(id);
    Uint16RoundTrip(status);
    BigEndian32(PutUint32(id));
    BigEndian16(PutUint16(status));
  }

  lemma ResponseSays(compression: byte, isJSON: bool, id: bv32, status: bv16, payload: seq<byte>)
    requires compression <= 2
    ensures var f := Response(compression, isJSON, false, id, status, payload);
            HeadIs(f, compression, isJSON, id, status) && f[9..] == payload
  {
    ResponseBytes(compression, isJSON, id, status, payload);
    PackedBits(compression, isJSON);
    SaysPut(id, status);
  }

  /** The codec of a reply to a body of this size: 2 is zstd, 1 gzip. */
  function Code(enc: Encodings, size: nat): byte {
    if size > 1024 && enc.zstd then 2 else if size > 1024 && enc.gzip then 1 else 0
  }

  /** The payload is the body as that codec deflates it. */
  predicate PayloadIs(lib: Libraries, enc: Encodings, body: seq<byte>, payload: seq<byte>) {
    if |body| > 1024 && enc.zstd then lib.zstd(body) == Deflated(payload)
    else if |body| > 1024 && enc.gzip then lib.gzip(body) == Deflated(payload)
    else payload == body
  }

  lemma PayloadSays(lib: Libraries, enc: Encodings, body: seq<byte>, payload: seq<byte>)
    requires Deflate(lib, Choose(enc, |body|), body) == Ok(payload)
    ensures Choose(enc, |body|) == Code(enc, |body|) && PayloadIs(lib, enc, body, payload)
  {
  }

  lemma RespondedWith(lib: Libraries, enc: Encodings, id: bv32, h: HttpResponse)
    requires Answerable(lib, enc, h)
    ensures var c := Choose(enc, |h.body|);
            && c <= 2 && Deflate(lib, c, h.body).Ok?
            && Respond(lib, enc, id, h)
               == Ok(Response(c, IsJSON(h.contentType), false, id, Status16(h.status), Deflate(lib, c, h.body).value))
  {
    RespondsExactly(lib, enc, id, h);
  }

  /** A good reply to request id with answer h, byte for byte. */
  ghost predicate ReplyIs(lib: Libraries, enc: Encodings, id: bv32, h: HttpResponse, f: seq<byte>) {
    && HeadIs(f, Code(enc, |h.body|), "application/json" <= h.contentType, id, Status16(h.status))
    && PayloadIs(lib, enc, h.body, f[9..])
  }

  lemma FrameIs(lib: Libraries, enc: Encodings, id: bv32, h: HttpResponse, payload: seq<byte>)
    requires Deflate(lib, Choose(enc, |h.body|), h.body) == Ok(payload)
    ensures Choose(enc, |h.body|) <= 2
    ensures ReplyIs(lib, enc, id, h, Response(Choose(enc, |h.body|), IsJSON(h.contentType), false, id, Status16(h.status), payload))
  {
    PayloadSays(lib, enc, h.body, payload);
    ResponseSays(Choose(enc, |h.body|), IsJSON(h.contentType), id, Status16(h.status), payload);
  }

  lemma ReplySays(lib: Libraries, enc: Encodings, id: bv32, h: HttpResponse)
    requires Answerable(lib, enc, h)
    ensures Respond(lib, enc, id, h).Ok? && ReplyIs(lib, enc, id, h, Respond(lib, enc, id, h).value)
  {
    RespondedWith(lib, enc, id, h);
    FrameIs(lib, enc, id, h, Deflate(lib, Choose(enc, |h.body|), h.body).value);
  }

  /** The reply to a request that the upstream answered. */
  lemma FrameAnswered(lib: Libraries, sessionUrl: seq<byte>, enc: Encodings, t: Turn, d: seq<byte>, z: int, q: HttpRequest)
    requires Parse(d).Ok? && PathEnds(d, z) && t.alive && AskedBy(lib, sessionUrl, d, z, q) && lib.newRequest(q) == None
    requires t.upstream(q).Answered? && Answerable(lib, enc, t.upstream(q).response)
    ensures ReplyIs(lib, enc, Parse(d).value.id, t.upstream(q).response, Exchange(lib, sessionUrl, enc, t, Parse(d).value).frame)
  {
    var r := Parse(d).value;
    FrameAsks(lib, sessionUrl, enc, t, d, z, q);
    ReplySays(lib, enc, r.id, t.upstream(q).response);
  }
}
