/**
 The text of a request: its head, which announces the length of the body, and the body.
 */
module HttpRequests {
  import opened Bytes
  import opened HttpFraming
  import opened HttpExtension
  import opened HttpHeads
  import opened Urls

  /** `headers` come after the ones every request has. */
  datatype Request = Request(path: bytes, headers: HeaderList, body: bytes)

  const POST: bytes := Ascii("POST ")
  const VERSION: bytes := Ascii(" HTTP/1.1")
  const HOST_LINE: bytes := Ascii("Host: ")
  const USER_AGENT_LINE: bytes := Ascii("User-Agent: goradio-samp/1.0")
  const CONNECTION_LINE: bytes := Ascii("Connection: keep-alive")

  function RequestLine(url: Url, request: Request): bytes {
    POST + url.basePath + request.path + VERSION
  }

  /** The port is left out when it is the scheme's own. */
  function HostLine(url: Url): bytes {
    HOST_LINE + url.host + if url.port == (if Secure(url) then 443 else 80) then [] else [COLON] + DecimalText(url.port)
  }

  function LinesOf(headers: HeaderList): seq<bytes> {
    seq(|headers|, i requires 0 <= i < |headers| => LineOf(headers[i]))
  }

  function HeadLines(url: Url, request: Request): seq<bytes> {
    [HostLine(url), USER_AGENT_LINE, CONNECTION_LINE, ContentLengthLine(|request.body|)]
    + LinesOf(request.headers)
  }

  function RequestText(url: Url, request: Request): bytes {
    RequestLine(url, request) + CRLF + HeadText(HeadLines(url, request)) + request.body
  }

  /** Lines, each with its CRLF. */
  function Terminated(lines: seq<bytes>): bytes {
    if lines == [] then [] else Terminated(lines[..|lines| - 1]) + lines[|lines| - 1] + CRLF
  }

  lemma {:induction false} TerminatedFirst(lines: seq<bytes>)
    requires lines != []
    ensures Terminated(lines) == lines[0] + CRLF + Terminated(lines[1..])
    decreases |lines|
  {
    var front, last := lines[..|lines| - 1], lines[|lines| - 1];
    if |lines| == 1 {
      assert Terminated(front) == [] && Terminated(lines[1..]) == [];
      assert [] + last + CRLF == last + CRLF + [];
    } else {
      TerminatedFirst(front);
      assert lines[1..][..|lines| - 2] == front[1..];
      Regroup(lines[0] + CRLF, Terminated(front[1..]), last);
      Regroup(lines[0] + CRLF, Terminated(front[1..]) + last, CRLF);
    }
  }

  lemma {:induction false} HeadIsTerminated(lines: seq<bytes>)
    ensures HeadText(lines) == Terminated(lines) + CRLF
    decreases |lines|
  {
    if lines != [] {
      TerminatedFirst(lines);
      HeadIsTerminated(lines[1..]);
      Regroup(lines[0] + CRLF, Terminated(lines[1..]), CRLF);
    }
  }

  lemma TerminatedSnoc(lines: seq<bytes>, line: bytes)
    ensures Terminated(lines + [line]) == Terminated(lines) + line + CRLF
  {
    assert (lines + [line])[..|lines|] == lines;
  }

  lemma RequestSpelled(url: Url, request: Request, req: bytes)
    requires req == RequestLine(url, request) + CRLF + Terminated(HeadLines(url, request))
    ensures req + CRLF + request.body == RequestText(url, request)
  {
    hide RequestLine, HeadLines, Terminated, HeadText;
    HeadIsTerminated(HeadLines(url, request));
    Regroup(RequestLine(url, request) + CRLF, Terminated(HeadLines(url, request)), CRLF);
  }

  /** Writes a request, line by line. */
  method Compose(url: Url, request: Request) returns (req: bytes)
    ensures req == RequestText(url, request)
  {
    hide DecimalText, HeadText, Ascii, Terminated, ContentLengthLine;
    var hostHeader := url.host;
    if !((Secure(url) && url.port == 443) || (!Secure(url) && url.port == 80)) {
      hostHeader := hostHeader + ([COLON] + DecimalText(url.port));
    }
    req := POST + url.basePath + request.path + VERSION + CRLF;
    ghost var front, lines := req, [];
    NoLines(front);
    req, lines := AddLine(req, HOST_LINE + hostHeader, front, lines);
    req, lines := AddLine(req, USER_AGENT_LINE, front, lines);
    req, lines := AddLine(req, CONNECTION_LINE, front, lines);
    req, lines := AddLine(req, ContentLengthLine(|request.body|), front, lines);
    assert HOST_LINE + hostHeader == HostLine(url);
    ghost var fixed, more := HeadLines(url, request)[..4], LinesOf(request.headers);
    assert lines == fixed + more[..0];
    for i := 0 to |request.headers|
      invariant req == front + Terminated(lines) && lines == fixed + more[..i]
    {
      var header := request.headers[i];
      assert more[..i + 1] == more[..i] + [LineOf(header)];
      req, lines := AddLine(req, header.0 + [COLON, SP] + header.1, front, lines);
    }
    assert lines == HeadLines(url, request);
    RequestSpelled(url, request, req);
    req := req + CRLF + request.body;
  }

  lemma NoLines(front: bytes)
    ensures front == front + Terminated([])
  {
  }

  method AddLine(req: bytes, line: bytes, ghost front: bytes, ghost lines: seq<bytes>)
    returns (req': bytes, ghost lines': seq<bytes>)
    requires req == front + Terminated(lines)
    ensures lines' == lines + [line] && req' == front + Terminated(lines')
  {
    hide Terminated;
    TerminatedSnoc(lines, line);
    Regroup(front, Terminated(lines), line);
    Regroup(front, Terminated(lines) + line, CRLF);
    req', lines' := req + line + CRLF, lines + [line];
  }

  // ----- what a server reads -----

  /** A header that is read as it was meant: a name that ends at its colon, a value with no blank at its ends, and
      neither with a line end in it. */
  predicate Plain(header: (bytes, bytes)) {
    && header.0 != [] && COLON !in header.0 && LF !in header.0
    && header.1 != [] && LF !in header.1
    && header.1[0] != SP && header.1[0] != TAB && header.1[|header.1| - 1] != SP && header.1[|header.1| - 1] != CR
  }

  /** The headers, their names in lower case. */
  function Received(headers: HeaderList): HeaderList {
    seq(|headers|, i requires 0 <= i < |headers| => (Lower(headers[i].0), headers[i].1))
  }

  lemma {:induction false} HeadersRead(headers: HeaderList)
    requires forall h | h in headers :: Plain(h)
    ensures HeadersOf(LinesOf(headers)) == Received(headers) && PlainLines(LinesOf(headers))
    decreases |headers|
  {
    hide HeaderOf, Lower;
    if headers != [] {
      var h := headers[0];
      assert h in headers;
      assert forall other | other in headers[1..] :: other in headers;
      LineReads(h.0, h.1);
      HeadersRead(headers[1..]);
      var lines := LinesOf(headers);
      assert lines[1..] == LinesOf(headers[1..]) && lines[0] == LineOf(h);
      assert HeadersOf(lines) == [HeaderOf(lines[0])] + HeadersOf(lines[1..]);
      assert Received(headers) == [(Lower(h.0), h.1)] + Received(headers[1..]);
      assert forall k | 0 < k < |lines| :: lines[k] == lines[1..][k - 1];
    }
  }

  /** The host, and the port unless it is the one its scheme has anyway. */
  function Authority(url: Url): bytes {
    if url.port == (if url.scheme == Ascii("https") then 443 else 80) then url.host
    else url.host + Ascii(":") + DecimalText(url.port)
  }

  function FixedHeaders(url: Url, length: nat): HeaderList {
    [(Ascii("Host"), Authority(url)), (Ascii("User-Agent"), Ascii("goradio-samp/1.0")),
     (Ascii("Connection"), Ascii("keep-alive")), (Ascii("Content-Length"), DecimalText(length))]
  }

  /** Its parts break no line, and its headers are read as they are meant. */
  predicate Writable(url: Url, request: Request) {
    && Plain((Ascii("Host"), url.host)) && LF !in url.basePath && LF !in request.path
    && |request.body| <= LLONG_MAX
    && forall h | h in request.headers :: Plain(h)
  }

  /** `text` is a POST to `target`, with the headers that every request has before the others, and `body` behind
      them. */
  ghost predicate ReadsAs(text: bytes, url: Url, target: bytes, headers: HeaderList, body: bytes) {
    var first := SplitLine(text);
    && first.Line? && first.text == Ascii("POST ") + target + Ascii(" HTTP/1.1")
    && ParseHeaders(first.rest) ==
       Headers([(Ascii("host"), Authority(url)), (Ascii("user-agent"), Ascii("goradio-samp/1.0")),
                (Ascii("connection"), Ascii("keep-alive")), (Ascii("content-length"), DecimalText(|body|))]
               + headers, body)
  }

  lemma HttpsIs()
    ensures HTTPS == Ascii("https")
  {
  }

  /** The head's lines are those of headers. */
  lemma LinesAre(url: Url, request: Request)
    ensures HeadLines(url, request) == LinesOf(FixedHeaders(url, |request.body|) + request.headers)
  {
    hide DecimalText, HostLine, Authority, Ascii;
    HostLineIs(url);
    AgentLineIs();
    ConnectionLineIs();
    LengthLineIs(|request.body|);
  }

  lemma HostLineIs(url: Url)
    ensures HostLine(url) == LineOf((Ascii("Host"), Authority(url)))
  {
    hide DecimalText;
    HttpsIs();
    assert HOST_LINE == Ascii("Host") + [COLON, SP] && Ascii(":") == [COLON];
  }

  lemma AgentLineIs()
    ensures USER_AGENT_LINE == LineOf((Ascii("User-Agent"), Ascii("goradio-samp/1.0")))
  {
  }

  lemma ConnectionLineIs()
    ensures CONNECTION_LINE == LineOf((Ascii("Connection"), Ascii("keep-alive")))
  {
  }

  lemma LengthLineIs(length: nat)
    ensures ContentLengthLine(length) == LineOf((Ascii("Content-Length"), DecimalText(length)))
  {
    hide DecimalText;
    assert CONTENT_LENGTH_LINE == Ascii("Content-Length") + [COLON, SP];
  }

  lemma FixedArePlain(url: Url, length: nat)
    requires Plain((Ascii("Host"), url.host))
    ensures forall h | h in FixedHeaders(url, length) :: Plain(h)
  {
    hide DecimalText, Plain, Ascii;
    DigitsStayPlain(url.host, url.port);
    TextsArePlain(length);
  }

  lemma TextsArePlain(length: nat)
    ensures Plain((Ascii("User-Agent"), Ascii("goradio-samp/1.0")))
    ensures Plain((Ascii("Connection"), Ascii("keep-alive"))) && Plain((Ascii("Content-Length"), DecimalText(length)))
  {
    hide DecimalText;
    PlainDigits(length);
  }

  lemma DigitsStayPlain(host: bytes, port: int)
    requires Plain((Ascii("Host"), host))
    ensures Plain((Ascii("Host"), host + Ascii(":") + DecimalText(port)))
  {
    var digits := DecimalText(port);
    assert digits[|digits| - 1] in Numeral(if port < 0 then -port else port, 10);
    assert forall b | b in digits :: b == MINUS || DIGIT_0 <= b <= DIGIT_9;
  }

  lemma FixedAreLowered(url: Url, length: nat)
    ensures Received(FixedHeaders(url, length)) ==
            [(Ascii("host"), Authority(url)), (Ascii("user-agent"), Ascii("goradio-samp/1.0")),
             (Ascii("connection"), Ascii("keep-alive")), (Ascii("content-length"), DecimalText(length))]
  {
    hide DecimalText, Authority;
    LowerNames();
  }

  lemma LowerNames()
    ensures Lower(Ascii("Host")) == Ascii("host") && Lower(Ascii("User-Agent")) == Ascii("user-agent")
    ensures Lower(Ascii("Connection")) == Ascii("connection")
    ensures Lower(Ascii("Content-Length")) == Ascii("content-length")
  {
  }

  /** A writable request is read as what it says. */
  lemma RequestReads(url: Url, request: Request)
    requires Writable(url, request)
    ensures ReadsAs(RequestText(url, request), url, url.basePath + request.path, Received(request.headers),
                    request.body)
  {
    hide HeadText, HeadersOf, HeadLines, PlainLines, ParseHeaders, LinesOf, DecimalText, Lower, Plain, FixedHeaders,
         Authority, SplitLine;
    var fixed, body := FixedHeaders(url, |request.body|), request.body;
    var all, lines := fixed + request.headers, HeadLines(url, request);
    LinesAre(url, request);
    FixedArePlain(url, |body|);
    HeadersRead(all);
    FixedAreLowered(url, |body|);
    assert Received(all) == Received(fixed) + Received(request.headers);
    TargetLine(url, request);
    LineThenRest(RequestLine(url, request), HeadText(lines) + body);
    Regroup(RequestLine(url, request) + CRLF, HeadText(lines), body);
    HeaderLinesReadBack(lines, body);
  }

  lemma TargetLine(url: Url, request: Request)
    requires LF !in url.basePath && LF !in request.path
    ensures RequestLine(url, request) == Ascii("POST ") + (url.basePath + request.path) + Ascii(" HTTP/1.1")
    ensures LF !in RequestLine(url, request)
  {
    assert LF !in POST && LF !in VERSION;
    Regroup(POST, url.basePath, request.path);
  }

  /** What a server makes of a request, whatever comes after it: its first line, its headers, and a body of exactly
      the length announced. The parts written into the head must not break its lines, and the caller's own headers
      must not announce another length. */
  lemma RequestReadsBack(url: Url, request: Request, next: bytes)
    requires LF !in RequestLine(url, request) && PlainLines(HeadLines(url, request))
    requires !Named(HeadersOf(LinesOf(request.headers)), CONTENT_LENGTH) && |request.body| <= LLONG_MAX
    ensures var first := SplitLine(RequestText(url, request) + next);
            && first.Line? && first.text == Ascii("POST ") + url.basePath + request.path + Ascii(" HTTP/1.1")
            && ParseHeaders(first.rest) == Headers(HeadersOf(HeadLines(url, request)), request.body + next)
    ensures Strtoll(LastValue(HeadersOf(HeadLines(url, request)), CONTENT_LENGTH), 10) == |request.body|
  {
    hide HeadText, HeadersOf, HeadLines, PlainLines, SplitLine, ParseHeaders, Strtoll, LastValue, LinesOf, DecimalText;
    var lines := HeadLines(url, request);
    var after := HeadText(lines) + (request.body + next);
    assert RequestText(url, request) + next == RequestLine(url, request) + CRLF + after;
    LineThenRest(RequestLine(url, request), after);
    HeaderLinesReadBack(lines, request.body + next);
    LengthAmongLines(url, request);
    StrtollDecimal(|request.body|);
  }

  lemma LengthAmongLines(url: Url, request: Request)
    requires !Named(HeadersOf(LinesOf(request.headers)), CONTENT_LENGTH)
    ensures LastValue(HeadersOf(HeadLines(url, request)), CONTENT_LENGTH) == DecimalText(|request.body|)
  {
    hide HeadersOf, HostLine, LinesOf, ContentLengthLine, LastValue, DecimalText;
    var front := [HostLine(url), USER_AGENT_LINE, CONNECTION_LINE];
    LengthAnnounced(front, |request.body|, LinesOf(request.headers));
    assert front + [ContentLengthLine(|request.body|)] + LinesOf(request.headers) == HeadLines(url, request);
  }
}
