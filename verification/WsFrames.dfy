/** The frames of the WsDriver protocol, version 1, as byte strings: wsdriver/README.md sections 4 and 5. */
module WsFrames {
  import opened Wrappers

  type byte = bv8

  const VERSION: byte := 1
  const REQUEST: byte := 0
  const RESPONSE: byte := 1
  const NONE: byte := 0
  const GZIP: byte := 1
  const ZSTD: byte := 2
  const DOT: byte := 46
  const SLASH: byte := 47
  const MIN_MESSAGE_SIZE := 9

  // Big-endian integers.

  function PutUint32(x: bv32): (b: seq<byte>)
    ensures |b| == 4
  {
    [(x >> 24) as bv8, ((x >> 16) & 0xff) as bv8, ((x >> 8) & 0xff) as bv8, (x & 0xff) as bv8]
  }

  function Uint32(b: seq<byte>): bv32
    requires |b| == 4
  {
    (b[0] as bv32 << 24) | (b[1] as bv32 << 16) | (b[2] as bv32 << 8) | (b[3] as bv32)
  }

  function PutUint16(x: bv16): (b: seq<byte>)
    ensures |b| == 2
  {
    [(x >> 8) as bv8, (x & 0xff) as bv8]
  }

  function Uint16(b: seq<byte>): bv16
    requires |b| == 2
  {
    (b[0] as bv16 << 8) | (b[1] as bv16)
  }

  lemma Uint32RoundTrip(x: bv32)
    ensures Uint32(PutUint32(x)) == x
  {
  }

  lemma FourBytes(a: byte, b: byte, c: byte, d: byte)
    ensures var x := (a as bv32 << 24) | (b as bv32 << 16) | (c as bv32 << 8) | (d as bv32);
            && (x >> 24) as bv8 == a && ((x >> 16) & 0xff) as bv8 == b
            && ((x >> 8) & 0xff) as bv8 == c && (x & 0xff) as bv8 == d
  {
  }

  lemma PutUint32RoundTrip(b: seq<byte>)
    requires |b| == 4
    ensures PutUint32(Uint32(b)) == b
  {
    FourBytes(b[0], b[1], b[2], b[3]);
  }

  lemma Uint16RoundTrip(x: bv16)
    ensures Uint16(PutUint16(x)) == x
  {
  }

  lemma TwoBytes(a: byte, b: byte)
    ensures var x := (a as bv16 << 8) | (b as bv16);
            (x >> 8) as bv8 == a && (x & 0xff) as bv8 == b
  {
  }

  lemma PutUint16RoundTrip(b: seq<byte>)
    requires |b| == 2
    ensures PutUint16(Uint16(b)) == b
  {
    TwoBytes(b[0], b[1]);
  }

  // The header byte.

  datatype Header = Header(messageType: byte, compression: byte, isJSON: bool, isError: bool) {
    predicate Fits() { messageType <= 15 && compression <= 3 }
  }

  function Pack(h: Header): byte
    requires h.Fits()
  {
    (h.messageType << 4) | (h.compression << 2) | (if h.isJSON then 2 else 0) | (if h.isError then 1 else 0)
  }

  function Unpack(b: byte): Header {
    Header((b >> 4) & 0x0f, (b >> 2) & 0x03, (b >> 1) & 0x01 != 0, b & 0x01 != 0)
  }

  lemma UnpackPack(h: Header)
    requires h.Fits()
    ensures Unpack(Pack(h)) == h
  {
    var m, c := h.messageType, h.compression;
    var j: byte, e: byte := if h.isJSON then 2 else 0, if h.isError then 1 else 0;
    var b: byte := (m << 4) | (c << 2) | j | e;
    assert (b >> 4) & 0x0f == m;
    assert (b >> 2) & 0x03 == c;
  }

  lemma PackUnpack(b: byte)
    ensures Unpack(b).Fits() && Pack(Unpack(b)) == b
  {
  }

  // Requests.

  /** A request; its version is VERSION and its message type is REQUEST. */
  datatype Request = Request(compression: byte, isJSON: bool, isError: bool, id: bv32, verb: bv16,
                             path: seq<byte>, body: seq<byte>)

  predicate ValidRequest(r: Request) {
    && r.compression <= 2 && r.verb <= 8
    && r.path != [] && 0 !in r.path && r.path[0] != DOT && r.path[0] != SLASH
  }

  function Encode(r: Request): seq<byte>
    requires ValidRequest(r)
  {
    [VERSION, Pack(Header(REQUEST, r.compression, r.isJSON, r.isError))]
    + PutUint32(r.id) + PutUint16(r.verb) + r.path + [0] + r.body
  }

  datatype ParseError =
    | TooShort | BadVersion | BadType | BadCompression | BadMethod | NoTerminator | EmptyPath | BadPathStart

  /** Where b first occurs in s, or -1. */
  function IndexByte(s: seq<byte>, b: byte): (i: int)
    ensures -1 <= i < |s|
    ensures i >= 0 ==> s[i] == b
    ensures forall j | 0 <= j < |s| && s[j] == b :: 0 <= i <= j
  {
    if s == [] then -1
    else if s[0] == b then 0
    else var i := IndexByte(s[1..], b);
      assert forall j | 1 <= j < |s| :: s[1..][j - 1] == s[j];
      if i < 0 then -1 else i + 1
  }

  /** The first of the rules on the fixed header that data breaks. */
  function HeadError(data: seq<byte>): Option<ParseError> {
    if |data| < MIN_MESSAGE_SIZE then Some(TooShort)
    else if data[0] != VERSION then Some(BadVersion)
    else if Unpack(data[1]).messageType != REQUEST then Some(BadType)
    else if Unpack(data[1]).compression > 2 then Some(BadCompression)
    else if Uint16(data[6..8]) > 8 then Some(BadMethod)
    else None
  }

  function Parse(data: seq<byte>): Result<Request, ParseError> {
    if HeadError(data).Some? then Err(HeadError(data).value)
    else var n := IndexByte(data[8..], 0);
      if n < 0 then Err(NoTerminator)
      else if n == 0 then Err(EmptyPath)
      else if data[8] == DOT || data[8] == SLASH then Err(BadPathStart)
      else var h := Unpack(data[1]);
        Ok(Request(h.compression, h.isJSON, h.isError, Uint32(data[2..6]), Uint16(data[6..8]),
                   data[8..8 + n], data[9 + n..]))
  }

  // The frame bijection.

  lemma FirstZero(path: seq<byte>, rest: seq<byte>)
    requires 0 !in path
    ensures IndexByte(path + [0] + rest, 0) == |path|
  {
    var s := path + [0] + rest;
    assert s[|path|] == 0 && forall j | 0 <= j < |path| :: s[j] == path[j];
  }

  /** Parsing the encoding of a valid request gives the request back. */
  lemma ParseEncode(r: Request)
    requires ValidRequest(r)
    ensures Parse(Encode(r)) == Ok(r)
  {
    var d := Encode(r);
    var n := |r.path|;
    UnpackPack(Header(REQUEST, r.compression, r.isJSON, r.isError));
    Uint32RoundTrip(r.id);
    Uint16RoundTrip(r.verb);
    assert d[2..6] == PutUint32(r.id);
    assert d[6..8] == PutUint16(r.verb);
    assert d[8..] == r.path + [0] + r.body;
    FirstZero(r.path, r.body);
    assert d[8..8 + n] == r.path;
    assert d[9 + n..] == r.body;
  }

  lemma Slices(d: seq<byte>, n: nat)
    requires 9 + n <= |d|
    ensures d == [d[0], d[1]] + d[2..6] + d[6..8] + d[8..8 + n] + [d[8 + n]] + d[9 + n..]
    ensures d[8..][..n] == d[8..8 + n] && d[8..][n] == d[8 + n]
  {
  }

  /** The path of an accepted frame obeys the rules. */
  lemma ParsedIsValid(d: seq<byte>)
    requires Parse(d).Ok?
    ensures ValidRequest(Parse(d).value)
    ensures var n := |Parse(d).value.path|; 9 + n <= |d| && Parse(d).value.path == d[8..8 + n] && d[8 + n] == 0
  {
    var n := IndexByte(d[8..], 0);
    Slices(d, n);
    assert forall i | 0 <= i < n :: d[8..8 + n][i] == d[8..][i];
  }

  /** An accepted frame is the encoding of the valid request it was parsed to. */
  lemma EncodeParse(d: seq<byte>)
    requires Parse(d).Ok?
    ensures ValidRequest(Parse(d).value) && Encode(Parse(d).value) == d
  {
    ParsedIsValid(d);
    PackUnpack(d[1]);
    PutUint32RoundTrip(d[2..6]);
    PutUint16RoundTrip(d[6..8]);
    Slices(d, |Parse(d).value.path|);
  }

  /** A byte string is accepted exactly if some valid request encodes to it, and then by that request only. */
  lemma FrameBijection(d: seq<byte>)
    ensures Parse(d).Ok? <==> exists r :: ValidRequest(r) && Encode(r) == d
    ensures forall r | ValidRequest(r) && Encode(r) == d :: Parse(d) == Ok(r)
  {
    if Parse(d).Ok? {
      EncodeParse(d);
    }
    forall r | ValidRequest(r) && Encode(r) == d ensures Parse(d) == Ok(r) {
      ParseEncode(r);
    }
  }

  /** The example of wsdriver/README.md section 1.3: the command GET status with request id 1. */
  lemma CanonicalExample()
    ensures var status := [0x73, 0x74, 0x61, 0x74, 0x75, 0x73];
            Parse([0x01, 0x02, 0, 0, 0, 1, 0, 0] + status + [0]) == Ok(Request(NONE, true, false, 1, 0, status, []))
  {
    var r := Request(NONE, true, false, 1, 0, [0x73, 0x74, 0x61, 0x74, 0x75, 0x73], []);
    assert Encode(r) == [0x01, 0x02, 0, 0, 0, 1, 0, 0] + r.path + [0];
    ParseEncode(r);
  }

  // Which rule a rejected frame is blamed on.

  /** The frame breaks rule e; each rule reads only the bytes it is about. */
  ghost predicate Breaks(d: seq<byte>, e: ParseError) {
    match e
    case TooShort => |d| < 9
    case BadVersion => |d| > 0 && d[0] != 1
    case BadType => |d| > 1 && d[1] >= 16
    case BadCompression => |d| > 1 && d[1] & 0x0c == 0x0c
    case BadMethod => |d| > 7 && (d[6] != 0 || d[7] > 8)
    case NoTerminator => |d| > 8 && forall i | 8 <= i < |d| :: d[i] != 0
    case EmptyPath => |d| > 8 && d[8] == 0
    case BadPathStart => |d| > 8 && d[8] in {46, 47}
  }

  /** The order in which the rules are checked. */
  function Rank(e: ParseError): nat {
    match e
    case TooShort => 0
    case BadVersion => 1
    case BadType => 2
    case BadCompression => 3
    case BadMethod => 4
    case NoTerminator => 5
    case EmptyPath => 6
    case BadPathStart => 7
  }

  lemma HeaderRules(b: byte)
    ensures Unpack(b).messageType != REQUEST <==> b >= 16
    ensures Unpack(b).compression > 2 <==> b & 0x0c == 0x0c
  {
  }

  lemma MethodRule(b: seq<byte>)
    requires |b| == 2
    ensures Uint16(b) > 8 <==> b[0] != 0 || b[1] > 8
  {
  }

  lemma HeadRules(d: seq<byte>)
    requires |d| >= 9
    ensures Breaks(d, BadVersion) <==> d[0] != VERSION
    ensures Breaks(d, BadType) <==> Unpack(d[1]).messageType != REQUEST
    ensures Breaks(d, BadCompression) <==> Unpack(d[1]).compression > 2
    ensures Breaks(d, BadMethod) <==> Uint16(d[6..8]) > 8
  {
    HeaderRules(d[1]);
    MethodRule(d[6..8]);
  }

  lemma PathRules(d: seq<byte>)
    requires |d| >= 9
    ensures var n := IndexByte(d[8..], 0);
            && (Breaks(d, NoTerminator) <==> n < 0)
            && (Breaks(d, EmptyPath) <==> n == 0)
            && (Breaks(d, BadPathStart) <==> d[8] == DOT || d[8] == SLASH)
  {
    assert forall i | 8 <= i < |d| :: d[i] == d[8..][i - 8];
  }

  /** A frame is rejected for the first rule it breaks, and accepted if it breaks none. */
  lemma BlamesFirst(d: seq<byte>, e: ParseError)
    ensures Parse(d) == Err(e) <==> Breaks(d, e) && forall f | Rank(f) < Rank(e) :: !Breaks(d, f)
    ensures Parse(d).Ok? <==> forall f :: !Breaks(d, f)
  {
    assert Breaks(d, TooShort) <==> |d| < 9;
    if |d| >= 9 {
      HeadRules(d);
      PathRules(d);
    }
  }

  // Responses.

  /** A response frame: an empty path, then the payload. */
  function Response(compression: byte, isJSON: bool, isError: bool, id: bv32, status: bv16, payload: seq<byte>): seq<byte>
    requires compression <= 2
  {
    [VERSION, Pack(Header(RESPONSE, compression, isJSON, isError))] + PutUint32(id) + PutUint16(status) + [0] + payload
  }

  datatype Decoded = Decoded(compression: byte, isJSON: bool, isError: bool, id: bv32, status: bv16, payload: seq<byte>)

  /** A client's reading of a response frame; the path slot is skipped up to its terminator. */
  function Decode(d: seq<byte>): Option<Decoded> {
    if |d| < MIN_MESSAGE_SIZE || d[0] != VERSION then None
    else var h, n := Unpack(d[1]), IndexByte(d[8..], 0);
      if h.messageType != RESPONSE || h.compression > 2 || n < 0 then None
      else Some(Decoded(h.compression, h.isJSON, h.isError, Uint32(d[2..6]), Uint16(d[6..8]), d[9 + n..]))
  }

  lemma DecodeResponse(compression: byte, isJSON: bool, isError: bool, id: bv32, status: bv16, payload: seq<byte>)
    requires compression <= 2
    ensures Decode(Response(compression, isJSON, isError, id, status, payload))
         == Some(Decoded(compression, isJSON, isError, id, status, payload))
  {
    var d := Response(compression, isJSON, isError, id, status, payload);
    UnpackPack(Header(RESPONSE, compression, isJSON, isError));
    Uint32RoundTrip(id);
    Uint16RoundTrip(status);
    assert d[2..6] == PutUint32(id);
    assert d[6..8] == PutUint16(status);
    assert d[8..] == [0] + payload;
    assert d[9..] == payload;
  }
}
