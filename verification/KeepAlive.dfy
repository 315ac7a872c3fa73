/**
 Calls made one after another over one keep-alive connection.
 */
module KeepAlive {
  import opened Bytes
  import opened Transports
  import opened HttpFraming
  import opened HttpExtension
  import opened HttpHeads
  import opened HttpRequests
  import opened Http
  import opened HttpProperties
  import opened Urls

  function Concat(parts: seq<bytes>): bytes {
    if parts == [] then [] else parts[0] + Concat(parts[1..])
  }

  /** A response that says where it ends and does not ask for the connection to be closed. */
  ghost predicate KeepsAlive(r: bytes) {
    SelfContained(r) && !Contains(FirstValue(ParseResponse(r).headers, CONNECTION), CLOSE)
  }

  function BodyOf(r: bytes): bytes {
    match ParseResponse(r)
    case NoAnswer => []
    case Answer(_, _, body, _) => body
  }

  lemma NextResponse(responses: seq<bytes>, after: bytes)
    requires responses != [] && SelfContained(responses[0])
    ensures var first := ParseResponse(responses[0]);
            ParseResponse(Concat(responses) + after) ==
            Answer(first.status, first.headers, first.body, Concat(responses[1..]) + after)
  {
    hide ParseResponse, ParseHead, BodyPhase;
    assert Concat(responses) + after == responses[0] + (Concat(responses[1..]) + after);
    ResponseExtends(responses[0], Concat(responses[1..]) + after);
  }

  /** A self-contained response at the front of what a connection delivers is in time exactly when all of it comes
      before the next timeout. */
  lemma InTimeWhenArrived(r: bytes, more: bytes, arrived: bytes, later: bytes, waits: nat)
    requires SelfContained(r) && arrived + later == r + more
    ensures InTime(arrived, waits) <==> r <= arrived
  {
    hide ParseHead, Decode, BodyPhase;
    var Head(status, headers, rest) := ParseHead(r);
    var phase := BodyPhase(status, headers);
    HeadExtends(r, more);
    if r <= arrived {
      var x := arrived[|r|..];
      assert arrived == r + x;
      HeadExtends(r, x);
      DecodeExtends(phase, rest, x);
    }
    if InTime(arrived, waits) {
      HeadExtends(arrived, later);
      var left := ParseHead(arrived).rest;
      assert left + later == rest + more;
      DecodeExtends(phase, left, later);
      DecodeExtends(phase, rest, more);
      PrefixBy(r, more, arrived, later, Decode(phase, left).ending.rest);
    }
  }

  lemma PrefixBy(r: bytes, more: bytes, arrived: bytes, later: bytes, extra: bytes)
    requires arrived + later == r + more && [] + more == extra + later
    ensures r <= arrived
  {
    assert |r| <= |arrived|;
    assert r == (r + more)[..|r|] == (arrived + later)[..|r|] == arrived[..|r|];
  }

  lemma {:induction false} ConcatFrom(parts: seq<bytes>, n: nat, m: nat)
    requires n <= m <= |parts|
    ensures Concat(parts[..m]) == Concat(parts[..n]) + Concat(parts[n..m])
    decreases n
  {
    if n == 0 {
      assert parts[..0] == [] && parts[0..m] == parts[..m];
    } else {
      assert parts[..m][1..] == parts[1..][..m - 1] && parts[..n][1..] == parts[1..][..n - 1];
      assert parts[1..][n - 1..m - 1] == parts[n..m];
      ConcatFrom(parts[1..], n - 1, m - 1);
      Regroup(parts[0], Concat(parts[1..][..n - 1]), Concat(parts[n..m]));
    }
  }

  /** The state before call `n` of a connection on which all calls so far went well: what was still to come before the
      next timeout is what was, less the responses read. */
  lemma StillToCome(responses: seq<bytes>, n: nat, arrived: bytes, now: bytes, rest: bytes)
    requires n < |responses| && arrived == Concat(responses[..n]) + now && now == responses[n] + rest
    ensures arrived == Concat(responses[..n + 1]) + rest
  {
    ConcatFrom(responses, n, n + 1);
    assert responses[n..n + 1] == [responses[n]];
    assert Concat([responses[n]]) == responses[n] + Concat([]);
    assert Concat([responses[n]]) == responses[n];
    Regroup(Concat(responses[..n]), responses[n], rest);
  }

  /** How many responses come before the next timeout. */
  lemma FirstMissing(responses: seq<bytes>, n: nat, m: nat, arrived: bytes, now: bytes)
    requires n < m <= |responses| && arrived == Concat(responses[..n]) + now
    requires Concat(responses[..m]) <= arrived
    ensures responses[n] <= now
  {
    ConcatFrom(responses, n, m);
    assert responses[n..m][0] == responses[n];
    var all := Concat(responses[..n]);
    assert Concat(responses[..m]) == all + Concat(responses[n..m]);
    assert now == arrived[|all|..];
    assert Concat(responses[n..m]) <= now;
  }

  // ----- the connection the next request goes out on -----

  /** What is ahead on a connection: requests it takes, the bytes before and after its next timeout, its timeouts. */
  datatype Prospect = Prospect(sends: nat, arrived: bytes, later: bytes, waits: nat)

  /** Of the open connection, or else of the one that will be dialled. */
  ghost function Ahead(conn: HttpConnection): Prospect
    requires conn.Valid()
    reads conn, conn.transport
  {
    if conn.transport.open then Prospect(conn.transport.sends, conn.Arrived(), conn.Later(), conn.Waits())
    else
      match NextDial(conn.transport.dials)
      case Refused => Prospect(0, [], [], 0)
      case Accepted(c) => Prospect(c.sends, Prompt(c.incoming), Late(c.incoming), Timeouts(c.incoming))
  }

  ghost function WireAhead(conn: HttpConnection): bytes
    requires conn.Valid()
    reads conn, conn.transport
  {
    if conn.transport.open then conn.Wire() else NextWire(conn.transport.dials)
  }

  lemma AheadIsSplit(conn: HttpConnection)
    requires conn.Valid()
    ensures WireAhead(conn) == Ahead(conn).arrived + Ahead(conn).later
  {
    conn.Split();
    if NextDial(conn.transport.dials).Accepted? {
      PromptThenLate(NextDial(conn.transport.dials).connection.incoming);
    }
  }

  /** A connection takes `m` requests and delivers the first `m` responses before its next timeout. */
  ghost predicate Delivers(ahead: Prospect, responses: seq<bytes>, m: nat)
    requires m <= |responses|
  {
    m <= ahead.sends && Concat(responses[..m]) <= ahead.arrived
  }

  /** A worker's calls in turn, on a connection that is open or that the first of them dials and that holds the
      responses back to back, cut into reads in any way, with timeouts anywhere and any number of sends. The first `n`
      calls return exactly the first `n` bodies, where `n` is how many requests the connection takes and how many
      responses it delivers before its first timeout; when that is all of them the buffer ends up at the byte after
      the last. */
  method CallsInTurn(conn: HttpConnection, requests: seq<Request>, ghost responses: seq<bytes>, ghost after: bytes)
    returns (bodies: seq<bytes>, ghost n: nat)
    requires conn.Valid()
    requires |requests| == |responses| && forall r | r in responses :: KeepsAlive(r)
    requires WireAhead(conn) == Concat(responses) + after
    modifies conn, conn.transport
    ensures conn.Valid() && |bodies| == |requests| && n <= |requests|
    ensures forall m | 0 <= m <= |requests| :: (Delivers(old(Ahead(conn)), responses, m) <==> m <= n)
    ensures forall k | 0 <= k < n :: bodies[k] == BodyOf(responses[k])
    ensures n == |requests| ==> WireAhead(conn) == after && (n > 0 ==> conn.transport.open)
  {
    hide KeepsAlive, BodyOf, Ahead, WireAhead, Concat;
    bodies, n := [], 0;
    ghost var ahead := Ahead(conn);
    ConcatNothing(responses, ahead.arrived);
    for i := 0 to |requests|
      invariant |bodies| == i && conn.Valid() && n <= i
      invariant n == i ==>
                  && (i > 0 ==> conn.transport.open) && Ahead(conn).sends == ahead.sends - i
                  && WireAhead(conn) == Concat(responses[i..]) + after
                  && ahead.arrived == Concat(responses[..i]) + Ahead(conn).arrived
      invariant forall m | 0 <= m <= n :: Delivers(ahead, responses, m)
      invariant n < i ==> forall m | n < m <= |requests| :: !Delivers(ahead, responses, m)
      invariant forall k | 0 <= k < n :: bodies[k] == BodyOf(responses[k])
    {
      ghost var now, more := Ahead(conn).arrived, Concat(responses[i + 1..]) + after;
      assert responses[i..][0] == responses[i] && responses[i..][1..] == responses[i + 1..];
      ConcatFirst(responses[i..], after);
      var body, got := NextCall(conn, requests[i], responses[i], more);
      bodies := bodies + [body];
      if n == i {
        if got {
          StillToCome(responses, i, ahead.arrived, now, Ahead(conn).arrived);
          n := n + 1;
        } else {
          NoneFurther(responses, i, ahead, now);
        }
      }
    }
    ConcatNothing(responses[|requests|..], after);
  }

  /** One call of them. It gets its response exactly when the connection takes a request and all of the response comes
      before the next timeout. */
  method NextCall(conn: HttpConnection, request: Request, ghost response: bytes, ghost more: bytes)
    returns (body: bytes, ghost got: bool)
    requires conn.Valid()
    modifies conn, conn.transport
    ensures conn.Valid()
    ensures KeepsAlive(response) && old(WireAhead(conn)) == response + more ==>
              && (got <==> old(Ahead(conn)).sends > 0 && response <= old(Ahead(conn)).arrived)
              && (got ==>
                    && conn.transport.open && Ahead(conn).sends == old(Ahead(conn)).sends - 1
                    && WireAhead(conn) == more && old(Ahead(conn)).arrived == response + Ahead(conn).arrived
                    && body == BodyOf(response))
  {
    hide ParseResponse, ParseHead, BodyPhase, Flat, Timeouts, Prompt, Late, InTime, SelfContained, Contains;
    ghost var ahead := Ahead(conn);
    ghost var due := KeepsAlive(response) && WireAhead(conn) == response + more;
    got := due && ahead.sends > 0 && response <= ahead.arrived;
    AheadIsSplit(conn);
    if due {
      InTimeWhenArrived(response, more, ahead.arrived, ahead.later, ahead.waits);
      InTimeHasHead(ahead.arrived, ahead.waits);
      ResponseExtends(response, more);
      SelfContainedAnswers(response);
    }
    var resp, err, ops := conn.Post(request);
    body := resp.body;
    AheadIsSplit(conn);
    if got {
      TakenFrom(response, more, ahead.arrived, ahead.later, Ahead(conn).arrived);
    }
  }

  lemma NoneFurther(responses: seq<bytes>, n: nat, ahead: Prospect, now: bytes)
    requires n < |responses| && ahead.arrived == Concat(responses[..n]) + now && n <= ahead.sends
    requires !(ahead.sends > n && responses[n] <= now)
    ensures forall m | n < m <= |responses| :: !Delivers(ahead, responses, m)
  {
    hide Concat;
    forall m | n < m <= |responses| ensures !Delivers(ahead, responses, m) {
      if Delivers(ahead, responses, m) {
        FirstMissing(responses, n, m, ahead.arrived, now);
      }
    }
  }

  lemma SelfContainedAnswers(r: bytes)
    requires SelfContained(r)
    ensures ParseResponse(r).Answer? && BodyOf(r) == ParseResponse(r).body
  {
  }

  lemma ConcatNothing(responses: seq<bytes>, after: bytes)
    ensures responses[..0] == [] && Concat(responses[..0]) + after == after && responses[0..] == responses
    ensures Concat([]) == [] && [] <= after && Concat([]) + after == after
  {
  }

  lemma ConcatFirst(parts: seq<bytes>, after: bytes)
    requires parts != []
    ensures Concat(parts) + after == parts[0] + (Concat(parts[1..]) + after)
  {
    Regroup(parts[0], Concat(parts[1..]), after);
  }

  lemma InTimeHasHead(arrived: bytes, waits: nat)
    ensures InTime(arrived, waits) ==> ParseHead(arrived).Head?
  {
  }

  lemma TakenFrom(r: bytes, more: bytes, now: bytes, later: bytes, rest: bytes)
    requires r <= now && now + later == r + more && rest + later == more
    ensures now == r + rest
  {
    assert now == r + now[|r|..];
    assert r + (now[|r|..] + later) == r + (rest + later);
    assert now[|r|..] + later == (now + later)[|r|..] == (r + more)[|r|..] == more;
    SameTail(now[|r|..], rest, later);
  }

  /** When nothing is late and no send fails, all of them succeed. */
  method CallInTurn(conn: HttpConnection, requests: seq<Request>, ghost responses: seq<bytes>, ghost after: bytes)
    returns (bodies: seq<bytes>)
    requires conn.Valid() && Ahead(conn).waits == 0 && Ahead(conn).sends >= |requests|
    requires |requests| == |responses| && forall r | r in responses :: KeepsAlive(r)
    requires WireAhead(conn) == Concat(responses) + after
    modifies conn, conn.transport
    ensures conn.Valid() && (requests != [] ==> conn.transport.open)
    ensures |bodies| == |responses|
    ensures forall k | 0 <= k < |responses| :: bodies[k] == BodyOf(responses[k])
    ensures WireAhead(conn) == after
  {
    hide KeepsAlive, BodyOf, Concat;
    NothingLate(conn);
    assert responses[..|responses|] == responses;
    assert Delivers(Ahead(conn), responses, |responses|);
    ghost var n;
    bodies, n := CallsInTurn(conn, requests, responses, after);
  }

  lemma NothingLate(conn: HttpConnection)
    requires conn.Valid() && Ahead(conn).waits == 0
    ensures Ahead(conn).arrived == WireAhead(conn)
  {
    hide Flat, Timeouts, Prompt, Late;
    AheadIsSplit(conn);
    PromptThenLate(conn.transport.incoming);
    if NextDial(conn.transport.dials).Accepted? {
      PromptThenLate(NextDial(conn.transport.dials).connection.incoming);
    }
    assert Ahead(conn).arrived + [] == Ahead(conn).arrived;
  }

  // ----- a request that goes out twice -----

  /** Any chunked response that keeps the connection alive makes the next call on it send its request twice: the first
      one does go out, is answered by whatever the server has to say, and is given up for the bytes left over. */
  method CallAfterChunks(conn: HttpConnection, first: Request, second: Request, ghost head: bytes, ghost c: Content,
                         ghost next: bytes)
    returns (resp: HttpResponse, err: Error, ghost ops: seq<Op>)
    requires conn.Valid() && conn.transport.open && conn.transport.sends >= 2
    requires ParseHead(head).Head? && ParseHead(head).rest == []
    requires c.Chunks? && Announced(c, BodyPhase(ParseHead(head).status, ParseHead(head).headers))
    requires !Contains(FirstValue(ParseHead(head).headers, CONNECTION), CLOSE)
    requires c.trailers == [] || !IsStatusLine(c.trailers[0])
    requires conn.Waits() == 0 && conn.Wire() == head + (ContentText(c) + next)
    modifies conn, conn.transport
    ensures conn.Valid() && resp.body == ContentBody(c)
    ensures Retried(ops) && ops[0] == Sent(RequestText(conn.url, second), true)
    ensures PostTrace(true, ops) && SendsOnly(RequestText(conn.url, second), ops)
    ensures ops[2] == Dialed(NextDial(old(conn.transport.dials)))
    ensures err == NoError <==> NextServes(old(conn.transport.dials))
  {
    hide ParseResponse, ParseHead, BodyPhase, Flat, Timeouts, Prompt, Late, InTime, ContentText, Unread, Announced,
         NextServes, RequestText, FirstValue, Contains;
    AlignedUnlessChunked(head, c, next);
    AllInTime(conn);
    TimelyAnswer(conn.Wire());
    InTimeHasHead(conn.Wire(), 0);
    ghost var ops1;
    resp, err, ops1 := conn.Post(first);
    AllInTime(conn);
    var again;
    again, err, ops := conn.Post(second);
  }

  lemma AllInTime(conn: HttpConnection)
    requires conn.Valid()
    ensures conn.Waits() == 0 ==> conn.Arrived() == conn.Wire()
  {
    conn.Split();
    PromptThenLate(conn.transport.incoming);
    assert conn.Arrived() + [] == conn.Arrived();
  }

  const CHUNKED_STATUS: bytes := Ascii("HTTP/1.1 200 OK")

  lemma ChunkedHead(c: Content)
    requires c == Chunks([], [], [])
    ensures var head := CHUNKED_STATUS + CRLF + HeadText([CHUNKED_LINE]);
            && ParseHead(head).Head? && ParseHead(head).rest == []
            && Announced(c, BodyPhase(ParseHead(head).status, ParseHead(head).headers))
            && !Contains(FirstValue(ParseHead(head).headers, CONNECTION), CLOSE)
            && |head| + |ContentText(c)| <= RECV_SIZE
  {
    hide StatusCode, ParseHead, Contains, HeaderOf, Ascii;
    var head := CHUNKED_STATUS + CRLF + HeadText([CHUNKED_LINE]);
    ChunkedStatus();
    ChunkedLine();
    assert HeadText([CHUNKED_LINE]) == CHUNKED_LINE + CRLF + HeadText([]);
    HeadReadsBack(CHUNKED_STATUS, [CHUNKED_LINE], []);
    assert head + [] == head;
    assert HeadersOf([CHUNKED_LINE]) == [HeaderOf(CHUNKED_LINE)] + HeadersOf([]) == [HeaderOf(CHUNKED_LINE)];
    assert [HeaderOf(CHUNKED_LINE)][..0] == [];
    ValuesContain();
  }

  lemma ChunkedStatus()
    ensures IsStatusLine(CHUNKED_STATUS) && LF !in CHUNKED_STATUS && |CHUNKED_STATUS| == 15
  {
    assert CHUNKED_STATUS[8] == SP;
  }

  lemma ChunkedLine()
    ensures CHUNKED_LINE != [] && LF !in CHUNKED_LINE && |CHUNKED_LINE| == 26 && COLON in CHUNKED_LINE
    ensures HeaderOf(CHUNKED_LINE) == (TRANSFER_ENCODING, CHUNKED)
  {
    hide HeaderOf;
    ChunkedLineReads();
  }

  lemma ValuesContain()
    ensures Contains(CHUNKED, CHUNKED) && !Contains([], CLOSE) && TRANSFER_ENCODING != CONNECTION
  {
    assert CHUNKED[0..] == CHUNKED;
    assert |TRANSFER_ENCODING| == 17 && |CONNECTION| == 10;
  }

  /** A connection that delivers `data`, takes two requests, and can be dialled once more. */
  method OpenOn(url: Url, data: bytes) returns (conn: HttpConnection)
    requires 0 < |data| <= RECV_SIZE
    ensures fresh(conn) && fresh(conn.transport) && conn.Valid() && conn.url == url
    ensures conn.transport.open && conn.transport.sends == 2 && conn.Waits() == 0 && conn.Wire() == data
    ensures NextDial(conn.transport.dials).Accepted?
  {
    hide Flat, Timeouts, Prompt, Late;
    var dial := Dial.Accepted(Connection([Data(data)], 2));
    var dials := [dial, Dial.Accepted(Connection([], 1))];
    var transport := new Transport(dials);
    conn := new HttpConnection(url, transport);
    NextEvent([Data(data)]);
    NoEvent();
    var ok := transport.Connect();
    assert conn.Window() == [] && [Data(data)][1..] == [];
    assert [] + (data + []) == data;
  }

  /** For one: a server that answers with an empty chunked body is sent the next request twice. */
  method SentTwice(url: Url, request: Request) returns (ghost ops: seq<Op>)
    ensures Sends(ops) == 2 && Retried(ops) && ops[0] == Sent(RequestText(url, request), true)
    ensures SendsOnly(RequestText(url, request), ops)
  {
    hide ParseHead, BodyPhase, HeadText, ContentText, Announced, RequestText, Contains, FirstValue, NextServes, Sends,
         Ascii, Flat, Timeouts, Prompt, Late, PostTrace;
    var c := Chunks([], [], []);
    ChunkedHead(c);
    var head, content := CHUNKED_STATUS + CRLF + HeadText([CHUNKED_LINE]), ContentText(c);
    var conn := OpenOn(url, head + content);
    assert head + content == head + (content + []);
    var resp, err;
    resp, err, ops := CallAfterChunks(conn, request, request, head, c, []);
    ResendSends(ops);
  }
}
