/**
 HTTP/1.1 responses as pure functions of the whole byte string a connection delivers: lines, the status
 line and headers, the choice of body framing (RFC 9112 section 6.3), and the three framings, among them
 the chunked coding (RFC 9112 section 7.1). `HttpConnection` is proved to agree with these functions
 however the bytes are cut up.
 */
module HttpFraming {
  import opened Bytes

  type HeaderList = seq<(bytes, bytes)>

  // ----- lines -----

  datatype LineSplit = NoLine | Line(text: bytes, rest: bytes)

  function StripCr(line: bytes): bytes {
    if line != [] && line[|line| - 1] == CR then line[..|line| - 1] else line
  }

  /** The first line of `w`, without its LF or CRLF. */
  function SplitLine(w: bytes): (r: LineSplit)
    ensures r.Line? ==> |r.rest| < |w|
  {
    var i := IndexOf(w, LF);
    if i == |w| then NoLine else Line(StripCr(w[..i]), w[i + 1..])
  }

  // ----- status line and headers -----

  const HTTP_PREFIX: bytes := [0x48, 0x54, 0x54, 0x50, 0x2F] // "HTTP/"
  const CONTENT_LENGTH: bytes :=
    [0x63, 0x6F, 0x6E, 0x74, 0x65, 0x6E, 0x74, 0x2D, 0x6C, 0x65, 0x6E, 0x67, 0x74, 0x68] // "content-length"
  const TRANSFER_ENCODING: bytes :=
    [0x74, 0x72, 0x61, 0x6E, 0x73, 0x66, 0x65, 0x72, 0x2D,
     0x65, 0x6E, 0x63, 0x6F, 0x64, 0x69, 0x6E, 0x67] // "transfer-encoding"
  const CONNECTION: bytes := [0x63, 0x6F, 0x6E, 0x6E, 0x65, 0x63, 0x74, 0x69, 0x6F, 0x6E] // "connection"
  const CHUNKED: bytes := [0x63, 0x68, 0x75, 0x6E, 0x6B, 0x65, 0x64] // "chunked"
  const CLOSE: bytes := [0x63, 0x6C, 0x6F, 0x73, 0x65] // "close"

  predicate IsStatusLine(line: bytes) {
    HTTP_PREFIX <= line && SP in line
  }

  function StatusCode(line: bytes): int
    requires IsStatusLine(line)
  {
    Strtoll(line[IndexOf(line, SP)..][1..], 10)
  }

  function TrimLeft(s: bytes): bytes {
    if s != [] && (s[0] == SP || s[0] == TAB) then TrimLeft(s[1..]) else s
  }

  function TrimRight(s: bytes): bytes {
    if s != [] && (s[|s| - 1] == CR || s[|s| - 1] == SP) then TrimRight(s[..|s| - 1]) else s
  }

  function LowerByte(b: byte): byte {
    if 0x41 <= b <= 0x5A then b - 0x41 + 0x61 else b
  }

  function Lower(s: bytes): bytes {
    seq(|s|, i requires 0 <= i < |s| => LowerByte(s[i]))
  }

  /** One header line with a colon in it. */
  function HeaderOf(line: bytes): (bytes, bytes)
    requires COLON in line
  {
    var colon := IndexOf(line, COLON);
    (Lower(line[..colon]), TrimRight(TrimLeft(line[colon..][1..])))
  }

  datatype HeaderBlock = HeadersCut | Headers(headers: HeaderList, rest: bytes)

  /** Header lines up to the first empty one; a line without a colon is passed over. */
  function ParseHeaders(w: bytes): (r: HeaderBlock)
    ensures r.Headers? ==> |r.rest| < |w|
    decreases |w|
  {
    match SplitLine(w)
    case NoLine => HeadersCut
    case Line(text, rest) =>
      if text == [] then Headers([], rest)
      else
        match ParseHeaders(rest)
        case HeadersCut => HeadersCut
        case Headers(hs, after) => Headers((if COLON in text then [HeaderOf(text)] else []) + hs, after)
  }

  /** The value of the first header called `name`, or nothing. */
  function FirstValue(headers: HeaderList, name: bytes): bytes {
    if headers == [] then []
    else if headers[0].0 == name then headers[0].1
    else FirstValue(headers[1..], name)
  }

  /** The value of the last header called `name`, or nothing. */
  function LastValue(headers: HeaderList, name: bytes): bytes {
    if headers == [] then []
    else if headers[|headers| - 1].0 == name then headers[|headers| - 1].1
    else LastValue(headers[..|headers| - 1], name)
  }

  datatype Head = HeadCut | HeadBad | Head(status: int, headers: HeaderList, rest: bytes)

  function ParseHead(w: bytes): (r: Head)
    ensures r.Head? ==> |r.rest| < |w|
  {
    match SplitLine(w)
    case NoLine => HeadCut
    case Line(text, rest) =>
      if !IsStatusLine(text) then HeadBad
      else
        HeadWith(StatusCode(text), ParseHeaders(rest))
  }

  function HeadWith(status: int, block: HeaderBlock): Head {
    match block
    case HeadersCut => HeadCut
    case Headers(hs, after) => Head(status, hs, after)
  }

  // ----- bodies -----

  /** Where in a response body the reader stands. */
  datatype Phase =
    | Finished
    | ByLength(remaining: nat)
    | ChunkSize
    | ChunkData(remaining: nat)
    | UntilClose

  function BodyPhase(status: int, headers: HeaderList): Phase {
    var contentLength := LastValue(headers, CONTENT_LENGTH);
    if Contains(LastValue(headers, TRANSFER_ENCODING), CHUNKED) then ChunkSize
    else if contentLength != [] then
      var n := Strtoll(contentLength, 10);
      if n <= 0 then Finished else ByLength(n)
    else if status == 204 || status == 304 then Finished
    else UntilClose
  }

  /** The number on a chunk-size line, whatever extension follows it. */
  function ChunkLength(line: bytes): int {
    Strtoll(line[..IndexOf(line, SEMICOLON)], 16)
  }

  /** How a body ends: the framing says it is over with `rest` still unread, or the connection was cut first. */
  datatype Ending = Complete(rest: bytes) | Cut

  datatype Decoded = Decoded(body: bytes, ending: Ending)

  function Prepend(x: bytes, d: Decoded): Decoded {
    Decoded(x + d.body, d.ending)
  }

  /** The body that `w`, everything a connection still delivers, holds from phase `p` on. */
  function Decode(p: Phase, w: bytes): (d: Decoded)
    ensures |d.body| <= |w|
    decreases |w|, if p.ChunkData? then 1 else 0
  {
    match p
    case Finished => Decoded([], Complete(w))
    case ByLength(n) => if |w| < n then Decoded(w, Cut) else Decoded(w[..n], Complete(w[n..]))
    case UntilClose => Decoded(w, Complete([]))
    case ChunkSize =>
      (match SplitLine(w)
       case NoLine => Decoded([], Cut)
       case Line(text, rest) =>
         if text == [] then Decode(ChunkSize, rest)
         else
           var n := ChunkLength(text);
           if n <= 0 then Decoded([], Complete(rest)) else Decode(ChunkData(n), rest))
    case ChunkData(n) =>
      if |w| < n then Decoded(w, Cut)
      else Prepend(w[..n], Decode(ChunkSize, w[n..]))
  }

  /** A whole response. */
  datatype Answer = NoAnswer | Answer(status: int, headers: HeaderList, body: bytes, rest: bytes)

  function ParseResponse(w: bytes): Answer {
    match ParseHead(w)
    case HeadCut => NoAnswer
    case HeadBad => NoAnswer
    case Head(status, headers, rest) => AnswerWith(status, headers, Decode(BodyPhase(status, headers), rest))
  }

  function AnswerWith(status: int, headers: HeaderList, d: Decoded): Answer {
    match d
    case Decoded(body, Cut) => NoAnswer
    case Decoded(body, Complete(rest)) => Answer(status, headers, body, rest)
  }

  /** Whether a body in phase `p` is over within the bytes that have arrived, when `waits` timeouts are still to come:
      framed, when the framing says so; else when the connection has closed. */
  predicate Whole(p: Phase, arrived: bytes, waits: nat) {
    if p == UntilClose then waits == 0 else Decode(p, arrived).ending.Complete?
  }

  /** Whether a whole response is. */
  predicate InTime(arrived: bytes, waits: nat) {
    var head := ParseHead(arrived);
    head.Head? && Whole(BodyPhase(head.status, head.headers), head.rest, waits)
  }
}
