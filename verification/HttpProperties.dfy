/**
 What the framing functions guarantee: decoding depends only on the bytes it consumes, so a response cut
 anywhere is never complete and responses laid end to end are told apart; and chunked encodings and header
 blocks are read back exactly.
 */
module HttpProperties {
  import opened Bytes
  import opened HttpFraming
  import opened HttpExtension
  import opened HttpHeads

  /** A framed body cut by a close is complete if and only if everything it consumes has arrived; this is
      the exact point before which `ReadFullBody` reports failure. */
  lemma TruncationIsSeen(p: Phase, w: bytes, k: nat)
    requires p != UntilClose && Decode(p, w).ending.Complete? && k <= |w|
    ensures Decode(p, w[..k]).ending.Complete? <==> k >= |w| - |Decode(p, w).ending.rest|
  {
    hide Decode;
    assert w[..k] + w[k..] == w;
    if Decode(p, w[..k]).ending.Complete? {
      DecodeExtends(p, w[..k], w[k..]);
    }
    var used := DecodeConsumed(p, w);
    if k >= |used| {
      DecodeExtends(p, used, w[|used|..k]);
      assert used + w[|used|..k] == w[..k];
    }
  }

  // ----- whole responses -----

  /** A response whose own framing says where it ends, with nothing after it. */
  ghost predicate SelfContained(r: bytes) {
    && ParseHead(r).Head?
    && BodyPhase(ParseHead(r).status, ParseHead(r).headers) != UntilClose
    && ParseResponse(r).Answer?
    && ParseResponse(r).rest == []
  }

  /** A self-contained response is read the same whatever follows it, and leaves exactly that unread. */
  lemma ResponseExtends(r: bytes, t: bytes)
    requires SelfContained(r)
    ensures ParseResponse(r + t) ==
            Answer(ParseResponse(r).status, ParseResponse(r).headers, ParseResponse(r).body, t)
  {
    HeadExtends(r, t);
    var Head(status, headers, rest) := ParseHead(r);
    DecodeExtends(BodyPhase(status, headers), rest, t);
    assert [] + t == t;
  }

  /** No proper prefix of a self-contained response passes for a response. */
  lemma TruncatedResponse(r: bytes, k: nat)
    requires SelfContained(r) && k < |r|
    ensures ParseResponse(r[..k]) == NoAnswer
  {
    hide ParseHead, BodyPhase, Decode;
    assert r[..k] + r[k..] == r;
    if ParseHead(r[..k]).Head? {
      HeadExtends(r[..k], r[k..]);
      var Head(status, headers, rest) := ParseHead(r[..k]);
      if Decode(BodyPhase(status, headers), rest).ending.Complete? {
        DecodeExtends(BodyPhase(status, headers), rest, r[k..]);
      }
    }
  }

  /** A head that announces `n` bytes, followed by `n` bytes, is self-contained: the keep-alive case. */
  lemma LengthFramedIsSelfContained(head: bytes, body: bytes)
    requires ParseHead(head).Head? && ParseHead(head).rest == []
    requires BodyPhase(ParseHead(head).status, ParseHead(head).headers) ==
             if body == [] then Finished else ByLength(|body|)
    ensures SelfContained(head + body) && ParseResponse(head + body).body == body
  {
    HeadExtends(head, body);
    assert [] + body == body;
    assert body[..|body|] == body;
  }

  // ----- chunked coding -----

  /** A chunk as a server may write it: data, and an extension that is empty or begins with a semicolon. */
  datatype Chunk = Chunk(data: bytes, extension: bytes)

  ghost predicate ValidExtension(extension: bytes) {
    (extension != [] ==> extension[0] == SEMICOLON) && LF !in extension
  }

  ghost predicate ValidChunk(c: Chunk) {
    0 < |c.data| <= LLONG_MAX && ValidExtension(c.extension)
  }

  function SizeLine(n: nat, extension: bytes): bytes {
    Numeral(n, 16) + extension
  }

  function EncodeChunks(chunks: seq<Chunk>): bytes {
    if chunks == [] then []
    else SizeLine(|chunks[0].data|, chunks[0].extension) + CRLF + chunks[0].data + CRLF + EncodeChunks(chunks[1..])
  }

  function LastChunk(extension: bytes): bytes {
    SizeLine(0, extension) + CRLF
  }

  function Payload(chunks: seq<Chunk>): bytes {
    if chunks == [] then [] else chunks[0].data + Payload(chunks[1..])
  }

  lemma SizeLineReadsBack(n: nat, extension: bytes)
    requires n <= LLONG_MAX && ValidExtension(extension)
    ensures LF !in SizeLine(n, extension) && SizeLine(n, extension) != []
    ensures ChunkLength(SizeLine(n, extension)) == n
  {
    var digits := Numeral(n, 16);
    var line := SizeLine(n, extension);
    assert line[..|digits|] == digits;
    assert forall b | b in digits :: b != SEMICOLON && b != LF;
    IndexOfUnique(line, SEMICOLON, |digits|);
    StrtollHex(n);
  }

  lemma BlankLineSkipped(rest: bytes)
    ensures Decode(ChunkSize, [] + CRLF + rest) == Decode(ChunkSize, rest)
  {
    LineThenRest([], rest);
  }

  lemma DataReadsBack(data: bytes, rest: bytes)
    requires data != []
    ensures Decode(ChunkData(|data|), data + CRLF + rest) == Prepend(data, Decode(ChunkSize, rest))
  {
    var after := data + CRLF + rest;
    assert after[..|data|] == data && after[|data|..] == [] + CRLF + rest;
    BlankLineSkipped(rest);
  }

  /** One chunk in front of the rest of a chunked body. */
  lemma ChunkReadsBack(c: Chunk, rest: bytes)
    requires ValidChunk(c)
    ensures Decode(ChunkSize, SizeLine(|c.data|, c.extension) + CRLF + c.data + CRLF + rest) ==
            Prepend(c.data, Decode(ChunkSize, rest))
  {
    hide SizeLine, ChunkLength, SplitLine;
    var line := SizeLine(|c.data|, c.extension);
    SizeLineReadsBack(|c.data|, c.extension);
    var after := c.data + CRLF + rest;
    assert line + CRLF + c.data + CRLF + rest == line + CRLF + after;
    LineThenRest(line, after);
    SizeThenData(line + CRLF + after, |c.data|);
    DataReadsBack(c.data, rest);
  }

  lemma SizeThenData(w: bytes, n: nat)
    requires SplitLine(w).Line? && SplitLine(w).text != [] && ChunkLength(SplitLine(w).text) == n > 0
    ensures Decode(ChunkSize, w) == Decode(ChunkData(n), SplitLine(w).rest)
  {
  }

  /** Chunks decode to their data, in order, however they are sized and whatever their extensions. */
  lemma {:induction false} ChunksReadBack(chunks: seq<Chunk>, rest: bytes)
    requires forall c | c in chunks :: ValidChunk(c)
    ensures Decode(ChunkSize, EncodeChunks(chunks) + rest) == Prepend(Payload(chunks), Decode(ChunkSize, rest))
    decreases |chunks|
  {
    if chunks == [] {
      assert EncodeChunks(chunks) + rest == rest;
      assert [] + Decode(ChunkSize, rest).body == Decode(ChunkSize, rest).body;
    } else {
      var c := chunks[0];
      var line := SizeLine(|c.data|, c.extension);
      var tail := EncodeChunks(chunks[1..]) + rest;
      assert EncodeChunks(chunks) + rest == line + CRLF + c.data + CRLF + tail;
      ChunkReadsBack(c, tail);
      ChunksReadBack(chunks[1..], rest);
      Regroup(c.data, Payload(chunks[1..]), Decode(ChunkSize, rest).body);
    }
  }

  /** A whole chunked body. What follows the zero-size line is left unread. */
  lemma ChunkedBody(chunks: seq<Chunk>, extension: bytes, trailer: bytes)
    requires forall c | c in chunks :: ValidChunk(c)
    requires ValidExtension(extension)
    ensures Decode(ChunkSize, EncodeChunks(chunks) + LastChunk(extension) + trailer) ==
            Decoded(Payload(chunks), Complete(trailer))
  {
    var line := SizeLine(0, extension);
    SizeLineReadsBack(0, extension);
    LineThenRest(line, trailer);
    assert EncodeChunks(chunks) + LastChunk(extension) + trailer == EncodeChunks(chunks) + (line + CRLF + trailer);
    ChunksReadBack(chunks, line + CRLF + trailer);
    assert Payload(chunks) + [] == Payload(chunks);
  }

  /** A chunk-size line ends the body exactly when the number at its front is not positive. */
  lemma SizeEndsBody(line: bytes, rest: bytes)
    requires line != [] && LF !in line
    ensures Decode(ChunkSize, line + CRLF + rest) == Decoded([], Complete(rest)) <==> ChunkLength(line) <= 0
  {
    hide ChunkLength;
    LineThenRest(line, rest);
    if ChunkLength(line) > 0 {
      SizeThenData(line + CRLF + rest, ChunkLength(line));
    }
  }

  /** A line with no number at its front counts as a zero. */
  lemma NoNumberIsZero(line: bytes)
    requires line != [] && DigitValue(line[0]) == 16 && !IsSpace(line[0]) && line[0] != MINUS && line[0] != PLUS
    ensures ChunkLength(line) == 0
  {
    var size := line[..IndexOf(line, SEMICOLON)];
    assert size != [] ==> size[0] == line[0];
  }

  /** So it makes the chunks before it pass for a whole body. */
  lemma NoNumberEndsBody(chunks: seq<Chunk>, line: bytes, rest: bytes)
    requires (forall c | c in chunks :: ValidChunk(c)) && LF !in line
    requires line != [] && DigitValue(line[0]) == 16 && !IsSpace(line[0]) && line[0] != MINUS && line[0] != PLUS
    ensures Decode(ChunkSize, EncodeChunks(chunks) + (line + CRLF + rest)) == Decoded(Payload(chunks), Complete(rest))
  {
    hide ChunkLength, Decode, EncodeChunks, Payload;
    ChunksReadBack(chunks, line + CRLF + rest);
    NoNumberIsZero(line);
    SizeEndsBody(line, rest);
    assert Payload(chunks) + [] == Payload(chunks);
  }

  // ----- where the next response begins -----

  /** The content of a message as section 6 of RFC 9112 has a server write it: nothing, a counted body, or chunks
      with a trailer section, a line a field, and the CRLF that ends the body. */
  datatype Content = Nothing | Counted(body: bytes) | Chunks(chunks: seq<Chunk>, extension: bytes, trailers: seq<bytes>)

  function ContentText(c: Content): bytes {
    match c
    case Nothing => []
    case Counted(body) => body
    case Chunks(chunks, extension, trailers) => EncodeChunks(chunks) + LastChunk(extension) + HeadText(trailers)
  }

  function ContentBody(c: Content): bytes {
    match c
    case Nothing => []
    case Counted(body) => body
    case Chunks(chunks, _, _) => Payload(chunks)
  }

  /** The content a head announces. */
  ghost predicate Announced(c: Content, p: Phase) {
    match c
    case Nothing => p == Finished
    case Counted(body) => body != [] && p == ByLength(|body|)
    case Chunks(chunks, extension, trailers) =>
      p == ChunkSize && (forall chunk | chunk in chunks :: ValidChunk(chunk)) && ValidExtension(extension)
      && PlainLines(trailers)
  }

  /** What is left unread of content and what follows it. */
  function Unread(c: Content, next: bytes): bytes {
    if c.Chunks? then HeadText(c.trailers) + next else next
  }

  /** A response is read with its body, whatever its framing; but the reader is at the next response exactly when the
      body was not chunked. After chunks the trailer section and the CRLF are taken for the next head, and that is a
      malformed one unless the first trailer line could pass for a status line. */
  lemma AlignedUnlessChunked(head: bytes, c: Content, next: bytes)
    requires ParseHead(head).Head? && ParseHead(head).rest == []
    requires Announced(c, BodyPhase(ParseHead(head).status, ParseHead(head).headers))
    ensures ParseResponse(head + (ContentText(c) + next)) ==
            Answer(ParseHead(head).status, ParseHead(head).headers, ContentBody(c), Unread(c, next))
    ensures Unread(c, next) == next <==> !c.Chunks?
    ensures c.Chunks? && (c.trailers == [] || !IsStatusLine(c.trailers[0])) ==> ParseHead(Unread(c, next)) == HeadBad
  {
    hide ParseHead, BodyPhase, HeadText, EncodeChunks, LastChunk, Payload, IsStatusLine;
    HeadExtends(head, ContentText(c) + next);
    assert [] + (ContentText(c) + next) == ContentText(c) + next;
    match c
    case Nothing => assert [] + next == next;
    case Counted(body) => DropPrefix(body, next, |body|);
    case Chunks(chunks, extension, trailers) =>
      Regroup(EncodeChunks(chunks) + LastChunk(extension), HeadText(trailers), next);
      ChunkedBody(chunks, extension, HeadText(trailers) + next);
      TrailerIsNoHead(trailers, next);
  }

  lemma TrailerIsNoHead(trailers: seq<bytes>, next: bytes)
    requires PlainLines(trailers)
    ensures |HeadText(trailers)| > 0
    ensures trailers == [] || !IsStatusLine(trailers[0]) ==> ParseHead(HeadText(trailers) + next) == HeadBad
  {
    hide IsStatusLine;
    if trailers == [] {
      NotAStatusLine();
      assert [] + CRLF + next == CRLF + next;
      LineThenRest([], next);
    } else {
      var after := HeadText(trailers[1..]) + next;
      assert HeadText(trailers) + next == trailers[0] + CRLF + after;
      LineThenRest(trailers[0], after);
    }
  }

  /** The trailer section and the CRLF that RFC 9112 section 7.1 puts after the zero-size line are not consumed, so the
      next response on the connection is misread: keep-alive alignment fails after a well-formed chunked body. */
  lemma ChunkedBodyMisaligns(chunks: seq<Chunk>, extension: bytes, trailers: seq<bytes>, next: bytes)
    requires forall c | c in chunks :: ValidChunk(c)
    requires ValidExtension(extension) && PlainLines(trailers) && (trailers == [] || !IsStatusLine(trailers[0]))
    ensures var d := Decode(ChunkSize, EncodeChunks(chunks) + LastChunk(extension) + (HeadText(trailers) + next));
            && d.body == Payload(chunks)
            && d.ending == Complete(HeadText(trailers) + next)
            && ParseHead(d.ending.rest) == HeadBad
  {
    ChunkedBody(chunks, extension, HeadText(trailers) + next);
    TrailerIsNoHead(trailers, next);
  }

  lemma NotAStatusLine()
    ensures !IsStatusLine([])
  {
  }

  /** A response whose head has a Content-Length line for its body, and no other one behind it and no chunked coding,
      is self-contained, whatever its other lines, and is read as its number, headers and body. */
  lemma ContentLengthResponse(version: bytes, n: nat, reason: bytes, before: seq<bytes>, after: seq<bytes>,
                              body: bytes)
    requires SP !in version && LF !in version && n <= LLONG_MAX && IsReason(reason)
    requires PlainLines(before) && PlainLines(after)
    requires !Named(HeadersOf(after), CONTENT_LENGTH) && |body| <= LLONG_MAX
    requires var lines := before + [ContentLengthLine(|body|)] + after;
             !Contains(LastValue(HeadersOf(lines), TRANSFER_ENCODING), CHUNKED)
    ensures var lines := before + [ContentLengthLine(|body|)] + after;
            var r := StatusLine(version, n, reason) + CRLF + HeadText(lines) + body;
            SelfContained(r) && ParseResponse(r) == Answer(n, HeadersOf(lines), body, [])
  {
    hide HeadText, HeadersOf, ContentLengthLine, LastValue, ParseHead, StatusLine, DecimalText, Strtoll, Contains;
    var lines := before + [ContentLengthLine(|body|)] + after;
    var head := StatusLine(version, n, reason) + CRLF + HeadText(lines);
    ContentLengthOf(|body|);
    assert PlainLines(lines);
    StatusReads(version, n, reason, lines, []);
    assert head + [] == head;
    LengthAnnounced(before, |body|, after);
    PlainDigits(|body|);
    StrtollDecimal(|body|);
    LengthFramedIsSelfContained(head, body);
    StatusReads(version, n, reason, lines, body);
  }

  /** A response without a body: statuses 204 and 304 end with their head, when it announces no framing; any other
      then ends with the connection. */
  lemma NoContentResponse(version: bytes, n: nat, reason: bytes, lines: seq<bytes>, rest: bytes)
    requires SP !in version && LF !in version && n <= LLONG_MAX && IsReason(reason) && PlainLines(lines)
    requires !Named(HeadersOf(lines), Ascii("content-length")) && !Named(HeadersOf(lines), Ascii("transfer-encoding"))
    ensures ParseResponse(StatusLine(version, n, reason) + CRLF + HeadText(lines) + rest) ==
            if n == 204 || n == 304 then Answer(n, HeadersOf(lines), [], rest)
            else Answer(n, HeadersOf(lines), rest, [])
  {
    hide HeadText, HeadersOf, ParseHead, StatusLine, BodyPhase, Named;
    StatusReads(version, n, reason, lines, rest);
    NothingAnnounced(n, HeadersOf(lines));
  }
}
