/**
 Heads written out, and read back.
 */
module HttpHeads {
  import opened Bytes
  import opened HttpFraming
  import opened HttpExtension

  const CRLF: bytes := [CR, LF]

  /** A line and its terminator in front of anything. */
  lemma LineThenRest(line: bytes, rest: bytes)
    requires LF !in line
    ensures SplitLine(line + CRLF + rest) == Line(line, rest)
  {
    var w := line + CRLF + rest;
    var i := |line| + 1;
    assert w[..i] == line + [CR];
    SplitLineAt(w, i);
    assert StripCr(line + [CR]) == line;
    assert w[i + 1..] == rest;
  }

  /** The head of a response: a status line, header lines, and the empty line that ends them. */
  function HeadText(lines: seq<bytes>): bytes {
    if lines == [] then CRLF else lines[0] + CRLF + HeadText(lines[1..])
  }

  function HeadersOf(lines: seq<bytes>): HeaderList {
    if lines == [] then []
    else (if COLON in lines[0] then [HeaderOf(lines[0])] else []) + HeadersOf(lines[1..])
  }

  ghost predicate PlainLines(lines: seq<bytes>) {
    forall i | 0 <= i < |lines| :: lines[i] != [] && LF !in lines[i]
  }

  lemma {:induction false} HeaderLinesReadBack(lines: seq<bytes>, rest: bytes)
    requires PlainLines(lines)
    ensures ParseHeaders(HeadText(lines) + rest) == Headers(HeadersOf(lines), rest)
    decreases |lines|
  {
    if lines == [] {
      LineThenRest([], rest);
      assert [] + CRLF + rest == CRLF + rest;
    } else {
      var after := HeadText(lines[1..]) + rest;
      assert HeadText(lines) + rest == lines[0] + CRLF + after;
      LineThenRest(lines[0], after);
      HeaderLinesReadBack(lines[1..], rest);
    }
  }

  lemma HeadReadsBack(statusLine: bytes, lines: seq<bytes>, rest: bytes)
    requires IsStatusLine(statusLine) && LF !in statusLine && PlainLines(lines)
    ensures ParseHead(statusLine + CRLF + HeadText(lines) + rest)
         == Head(StatusCode(statusLine), HeadersOf(lines), rest)
  {
    hide ParseHeaders, HeadText, HeadersOf, StatusCode, SplitLine, PlainLines, IsStatusLine;
    assert statusLine + CRLF + HeadText(lines) + rest == statusLine + CRLF + (HeadText(lines) + rest);
    LineThenRest(statusLine, HeadText(lines) + rest);
    HeaderLinesReadBack(lines, rest);
  }

  // ----- the status line -----

  /** A status line with whatever follows the number: nothing, or a reason. */
  function StatusLine(version: bytes, n: nat, reason: bytes): bytes {
    Ascii("HTTP/") + version + [SP] + DecimalText(n) + reason
  }

  /** Nothing, or a space and any text. */
  predicate IsReason(reason: bytes) {
    (reason != [] ==> reason[0] == SP) && LF !in reason
  }

  lemma StatusLineReads(version: bytes, n: nat, reason: bytes)
    requires SP !in version && LF !in version && n <= LLONG_MAX && IsReason(reason)
    ensures var line := StatusLine(version, n, reason);
            IsStatusLine(line) && LF !in line && StatusCode(line) == n
  {
    hide DecimalText, Strtoll;
    var line, front := StatusLine(version, n, reason), Ascii("HTTP/") + version;
    PrefixIs();
    assert line[..|front|] == front && line[|front|] == SP && SP !in front;
    assert LF !in DecimalText(n) by { PlainDigits(n); }
    IndexOfUnique(line, SP, |front|);
    assert line[|front|..][1..] == DecimalText(n) + reason;
    StrtollReads([], [], n, reason);
    assert [] + ([] + (DecimalText(n) + reason)) == DecimalText(n) + reason;
  }

  /** The head of a response, written out, is read as its number and its headers. */
  lemma StatusReads(version: bytes, n: nat, reason: bytes, lines: seq<bytes>, rest: bytes)
    requires SP !in version && LF !in version && n <= LLONG_MAX && IsReason(reason) && PlainLines(lines)
    ensures ParseHead(StatusLine(version, n, reason) + CRLF + HeadText(lines) + rest)
         == Head(n, HeadersOf(lines), rest)
  {
    hide StatusLine, StatusCode, IsStatusLine, ParseHead, HeadText, HeadersOf;
    StatusLineReads(version, n, reason);
    HeadReadsBack(StatusLine(version, n, reason), lines, rest);
  }

  /** Anything else where a status line should be is malformed. */
  lemma BadStatusLine(line: bytes, rest: bytes)
    requires LF !in line && (!(Ascii("HTTP/") <= line) || SP !in line)
    ensures ParseHead(line + CRLF + rest) == HeadBad
  {
    hide Ascii, SplitLine, ParseHeaders, StatusCode, Strtoll;
    PrefixIs();
    LineThenRest(line, rest);
  }

  lemma PrefixIs()
    ensures HTTP_PREFIX == Ascii("HTTP/")
  {
  }

  // ----- header lines -----

  /** A line may end with a LF alone. */
  lemma BareLine(line: bytes, rest: bytes)
    requires LF !in line && (line != [] ==> line[|line| - 1] != CR)
    ensures SplitLine(line + [LF] + rest) == Line(line, rest)
  {
    var w := line + [LF] + rest;
    assert w[..|line|] == line && w[|line| + 1..] == rest;
    SplitLineAt(w, |line|);
  }

  /** Names are put in lower case, letter by letter. */
  lemma LowerIs(s: bytes, i: nat)
    requires i < |s|
    ensures |Lower(s)| == |s|
    ensures Lower(s)[i] == if 'A' as int <= s[i] <= 'Z' as int then s[i] + 32 else s[i]
  {
  }

  /** A header line is its name in lower case and its value without the blanks around it. */
  lemma HeaderReads(name: bytes, before: bytes, value: bytes, after: bytes)
    requires COLON !in name
    requires (forall b | b in before :: b == SP || b == TAB) && (forall b | b in after :: b == SP || b == CR)
    requires value != [] ==> value[0] != SP && value[0] != TAB && value[|value| - 1] != SP && value[|value| - 1] != CR
    requires value == [] ==> after == []
    ensures var line := name + [COLON] + (before + value + after);
            COLON in line && HeaderOf(line) == (Lower(name), value)
  {
    hide TrimLeft, TrimRight, Lower;
    var text := before + value + after;
    var line := name + [COLON] + text;
    assert line[..|name|] == name && line[|name|..][1..] == text;
    IndexOfUnique(line, COLON, |name|);
    assert text == before + (value + after);
    LeftTrimmed(before, value + after);
    RightTrimmed(value, after);
  }

  /** A header as a sender writes it. */
  function LineOf(header: (bytes, bytes)): bytes {
    header.0 + [COLON, SP] + header.1
  }

  lemma LineReads(name: bytes, value: bytes)
    requires COLON !in name && value != [] && value[0] != SP && value[0] != TAB
    requires value[|value| - 1] != SP && value[|value| - 1] != CR
    ensures COLON in LineOf((name, value)) && HeaderOf(LineOf((name, value))) == (Lower(name), value)
  {
    hide Lower, HeaderOf;
    HeaderReads(name, [SP], value, []);
    assert LineOf((name, value)) == name + [COLON] + ([SP] + value + []);
  }

  lemma {:induction false} LeftTrimmed(before: bytes, rest: bytes)
    requires forall b | b in before :: b == SP || b == TAB
    requires rest != [] ==> rest[0] != SP && rest[0] != TAB
    ensures TrimLeft(before + rest) == rest
  {
    if before == [] {
      assert before + rest == rest;
    } else {
      assert before[0] in before && (before + rest)[1..] == before[1..] + rest;
      assert forall b | b in before[1..] :: b in before;
      LeftTrimmed(before[1..], rest);
    }
  }

  lemma {:induction false} RightTrimmed(value: bytes, after: bytes)
    requires forall b | b in after :: b == SP || b == CR
    requires value != [] ==> value[|value| - 1] != SP && value[|value| - 1] != CR
    ensures TrimRight(value + after) == value
    decreases |after|
  {
    if after == [] {
      assert value + after == value;
    } else {
      var last := |after| - 1;
      assert after[last] in after && (value + after)[..|value + after| - 1] == value + after[..last];
      assert forall b | b in after[..last] :: b in after;
      RightTrimmed(value, after[..last]);
    }
  }

  lemma FirstNamed(front: HeaderList, h: (bytes, bytes), back: HeaderList)
    requires !Named(front, h.0)
    ensures FirstValue(front + [h] + back, h.0) == h.1
  {
    var all := front + [h] + back;
    if front == [] {
      assert all[0] == h;
    } else {
      assert front[0] in front && all[0] == front[0] && all[1..] == front[1..] + [h] + back;
      assert forall other | other in front[1..] :: other in front;
      FirstNamed(front[1..], h, back);
    }
  }

  // ----- a length announced -----

  const CONTENT_LENGTH_LINE: bytes := Ascii("Content-Length: ")

  function ContentLengthLine(n: nat): bytes {
    CONTENT_LENGTH_LINE + DecimalText(n)
  }

  predicate Named(headers: HeaderList, name: bytes) {
    exists h | h in headers :: h.0 == name
  }

  lemma ContentLengthOf(n: nat)
    ensures var line := ContentLengthLine(n);
            line != [] && LF !in line && COLON in line && HeaderOf(line) == (CONTENT_LENGTH, DecimalText(n))
  {
    hide Lower, TrimLeft, TrimRight, DecimalText;
    var digits, line := DecimalText(n), ContentLengthLine(n);
    PlainDigits(n);
    LengthName();
    assert line[14] == COLON && line[..14] == CONTENT_LENGTH_LINE[..14];
    assert COLON !in line[..14];
    IndexOfUnique(line, COLON, 14);
    assert line[14..][1..] == [SP] + digits;
    TrimmedDigits(digits);
  }

  lemma LengthName()
    ensures |CONTENT_LENGTH_LINE| == 16 && CONTENT_LENGTH_LINE[14] == COLON && CONTENT_LENGTH_LINE[15] == SP
    ensures COLON !in CONTENT_LENGTH_LINE[..14] && LF !in CONTENT_LENGTH_LINE
    ensures Lower(CONTENT_LENGTH_LINE[..14]) == CONTENT_LENGTH
  {
  }

  lemma PlainDigits(n: nat)
    ensures var digits := DecimalText(n);
            digits != [] && LF !in digits && digits[0] != SP && digits[0] != TAB
            && digits[|digits| - 1] != SP && digits[|digits| - 1] != CR
  {
    var digits := DecimalText(n);
    assert digits[0] in digits && digits[|digits| - 1] in digits;
  }

  lemma TrimmedDigits(digits: bytes)
    requires digits != [] && digits[0] != SP && digits[0] != TAB
    requires digits[|digits| - 1] != SP && digits[|digits| - 1] != CR
    ensures TrimRight(TrimLeft([SP] + digits)) == digits
  {
    assert ([SP] + digits)[1..] == digits;
  }

  lemma {:induction false} HeadersJoin(a: seq<bytes>, b: seq<bytes>)
    ensures HeadersOf(a + b) == HeadersOf(a) + HeadersOf(b)
    decreases |a|
  {
    hide HeaderOf;
    if a == [] {
      assert a + b == b;
    } else {
      var first := if COLON in a[0] then [HeaderOf(a[0])] else [];
      assert (a + b)[0] == a[0] && (a + b)[1..] == a[1..] + b;
      HeadersJoin(a[1..], b);
      assert HeadersOf(a + b) == first + HeadersOf(a[1..] + b);
      assert first + (HeadersOf(a[1..]) + HeadersOf(b)) == first + HeadersOf(a[1..]) + HeadersOf(b);
    }
  }

  lemma {:induction false} LastNamed(front: HeaderList, h: (bytes, bytes), back: HeaderList)
    requires !Named(back, h.0)
    ensures LastValue(front + [h] + back, h.0) == h.1
    decreases |back|
  {
    var all := front + [h] + back;
    if back == [] {
      assert all == front + [h];
    } else {
      var last := back[|back| - 1];
      assert last in back && all[..|all| - 1] == front + [h] + back[..|back| - 1];
      assert forall other | other in back[..|back| - 1] :: other in back;
      LastNamed(front, h, back[..|back| - 1]);
    }
  }

  /** A Content-Length line announces its length, unless another one stands behind it. */
  lemma LengthAnnounced(before: seq<bytes>, n: nat, after: seq<bytes>)
    requires !Named(HeadersOf(after), CONTENT_LENGTH)
    ensures LastValue(HeadersOf(before + [ContentLengthLine(n)] + after), CONTENT_LENGTH) == DecimalText(n)
  {
    hide HeaderOf, ContentLengthLine, LastValue, HeadersOf;
    ContentLengthOf(n);
    ValueAmong(before, ContentLengthLine(n), after);
  }

  // ----- framings announced -----

  const CHUNKED_LINE: bytes := LineOf((Ascii("Transfer-Encoding"), Ascii("chunked")))

  /** A "Transfer-Encoding: chunked" line makes the body chunked, whatever length is announced, unless another such
      line stands behind it. */
  lemma ChunkedAnnounced(before: seq<bytes>, after: seq<bytes>, status: int)
    requires !Named(HeadersOf(after), Ascii("transfer-encoding"))
    ensures BodyPhase(status, HeadersOf(before + [CHUNKED_LINE] + after)) == ChunkSize
  {
    hide HeaderOf, LastValue, HeadersOf, Contains, Ascii, Lower, LineOf;
    ChunkedLineReads();
    ValueAmong(before, CHUNKED_LINE, after);
    ContainsItself(CHUNKED);
  }

  lemma ChunkedLineReads()
    ensures COLON in CHUNKED_LINE && HeaderOf(CHUNKED_LINE) == (TRANSFER_ENCODING, CHUNKED)
    ensures TRANSFER_ENCODING == Ascii("transfer-encoding") && CHUNKED == Ascii("chunked")
  {
    hide HeaderOf;
    LowerName();
    assert CHUNKED == Ascii("chunked") && TRANSFER_ENCODING == Ascii("transfer-encoding");
    LineReads(Ascii("Transfer-Encoding"), Ascii("chunked"));
  }

  lemma LowerName()
    ensures Lower(Ascii("Transfer-Encoding")) == TRANSFER_ENCODING
  {
  }

  lemma ContainsItself(s: bytes)
    ensures Contains(s, s)
  {
    assert s[0..] == s;
  }

  lemma ValueAmong(before: seq<bytes>, line: bytes, after: seq<bytes>)
    requires COLON in line && !Named(HeadersOf(after), HeaderOf(line).0)
    ensures LastValue(HeadersOf(before + [line] + after), HeaderOf(line).0) == HeaderOf(line).1
  {
    hide HeaderOf, LastValue;
    HeadersJoin(before + [line], after);
    HeadersJoin(before, [line]);
    assert HeadersOf([line]) == [HeaderOf(line)] + HeadersOf([]);
    assert HeadersOf([line]) == [HeaderOf(line)];
    LastNamed(HeadersOf(before), HeaderOf(line), HeadersOf(after));
  }

  /** Occurring anywhere will do, and nothing else. */
  lemma ContainsAmong(before: bytes, needle: bytes, after: bytes)
    ensures Contains(before + needle + after, needle)
  {
    var whole := before + needle + after;
    assert whole[|before|..] == needle + after;
  }

  lemma ContainedThere(s: bytes, needle: bytes) returns (before: bytes, after: bytes)
    requires Contains(s, needle)
    ensures s == before + needle + after
  {
    var i :| 0 <= i <= |s| && needle <= s[i..];
    before, after := s[..i], s[i..][|needle|..];
  }

  /** So the coding may stand among others. */
  lemma ChunkedAmongOthers(status: int, headers: HeaderList, before: bytes, after: bytes)
    requires LastValue(headers, Ascii("transfer-encoding")) == before + Ascii("chunked") + after
    ensures BodyPhase(status, headers) == ChunkSize
  {
    hide LastValue, Contains;
    assert CHUNKED == Ascii("chunked") && TRANSFER_ENCODING == Ascii("transfer-encoding");
    ContainsAmong(before, CHUNKED, after);
  }

  /** The first Connection line is the one that tells whether the server will hang up. */
  lemma ConnectionAnnounced(before: seq<bytes>, value: bytes, after: seq<bytes>)
    requires value != [] && value[0] != SP && value[0] != TAB
    requires value[|value| - 1] != SP && value[|value| - 1] != CR
    requires !Named(HeadersOf(before), Ascii("connection"))
    ensures FirstValue(HeadersOf(before + [LineOf((Ascii("Connection"), value))] + after), Ascii("connection")) == value
    ensures CONNECTION == Ascii("connection") && CLOSE == Ascii("close")
  {
    hide HeaderOf, FirstValue, LineOf;
    var line := LineOf((Ascii("Connection"), value));
    assert CONNECTION == Ascii("connection") && CLOSE == Ascii("close") && Lower(Ascii("Connection")) == CONNECTION;
    LineReads(Ascii("Connection"), value);
    HeadersJoin(before + [line], after);
    HeadersJoin(before, [line]);
    assert HeadersOf([line]) == [HeaderOf(line)] + HeadersOf([]) == [HeaderOf(line)];
    FirstNamed(HeadersOf(before), HeaderOf(line), HeadersOf(after));
  }

  /** Where neither is announced a body ends at once for the statuses 204 and 304, and else with the connection. */
  lemma NothingAnnounced(status: int, headers: HeaderList)
    requires !Named(headers, Ascii("content-length")) && !Named(headers, Ascii("transfer-encoding"))
    ensures BodyPhase(status, headers) == if status == 204 || status == 304 then Finished else UntilClose
  {
    assert CONTENT_LENGTH == Ascii("content-length") && TRANSFER_ENCODING == Ascii("transfer-encoding");
    Unnamed(headers, CONTENT_LENGTH);
    Unnamed(headers, TRANSFER_ENCODING);
  }

  lemma {:induction false} Unnamed(headers: HeaderList, name: bytes)
    requires !Named(headers, name)
    ensures LastValue(headers, name) == [] && FirstValue(headers, name) == []
    decreases |headers|
  {
    if headers != [] {
      var last := |headers| - 1;
      assert headers[last] in headers && headers[0] in headers;
      assert forall h | h in headers[..last] :: h in headers;
      assert forall h | h in headers[1..] :: h in headers;
      Unnamed(headers[..last], name);
      Unnamed(headers[1..], name);
    }
  }
}
