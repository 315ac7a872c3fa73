/**
 A keep-alive HTTP/1.1 connection. The reader works on a sliding buffer that is filled fragment by
 fragment; every method is proved against the whole-string functions of `HttpFraming`, applied to the
 bytes in the buffer followed by everything the transport still delivers.
 */
module Http {
  import opened Bytes
  import opened Transports
  import opened HttpFraming
  import opened HttpExtension
  import opened HttpRequests
  import opened Urls

  datatype BodyMode = BodyNone | BodyLength | BodyChunked | BodyUntilClose

  datatype Error = NoError | ConnectFailed | SendFailed | TimedOut | ConnectionLost | MalformedStatus

  datatype HttpResponse = HttpResponse(status: int, headers: HeaderList, body: bytes)

  const EMPTY_RESPONSE := HttpResponse(0, [], [])

  /** A consumed prefix longer than this is dropped before the next read. */
  const RECLAIM: nat := 8192

  // ----- the order of operations in a Post -----

  /** One request on an open connection: hung up unless the response headers arrive after its send. */
  ghost predicate AttemptTrace(ops: seq<Op>) {
    && 2 <= |ops| <= 3
    && ops[0].Sent?
    && (ops[1] == HeadRead ==> ops[0].ok)
    && (ops[1] != HeadRead ==> ops[1] == HungUp && |ops| == 2)
    && (|ops| == 3 ==> ops[2] == HungUp)
  }

  ghost predicate FreshTrace(ops: seq<Op>) {
    && |ops| > 0
    && ops[0].Dialed?
    && (if ops[0].outcome.Accepted? then AttemptTrace(ops[1..]) else |ops| == 1)
  }

  /** The first attempt was given up and a second one begun. */
  ghost predicate Retried(ops: seq<Op>) {
    |ops| > 2 && ops[0].Sent? && ops[1] == HungUp
  }

  ghost predicate PostTrace(reused: bool, ops: seq<Op>) {
    if !reused then FreshTrace(ops)
    else if Retried(ops) then FreshTrace(ops[2..])
    else AttemptTrace(ops) && ops[1] == HeadRead
  }

  ghost function Sends(ops: seq<Op>): nat {
    if ops == [] then 0 else (if ops[0].Sent? then 1 else 0) + Sends(ops[1..])
  }

  /** Whatever is sent is this request. */
  ghost predicate SendsOnly(request: bytes, ops: seq<Op>) {
    forall op | op in ops && op.Sent? :: op.request == request
  }

  // ----- whether a call can succeed -----

  /** A connection that takes a request and delivers a head before its first timeout. */
  ghost predicate Heads(c: Connection) {
    c.sends > 0 && ParseHead(Prompt(c.incoming)).Head?
  }

  /** A connection that takes a request and delivers a whole response before its first timeout. */
  ghost predicate Serves(c: Connection) {
    c.sends > 0 && InTime(Prompt(c.incoming), Timeouts(c.incoming))
  }

  ghost predicate NextHeads(dials: seq<Dial>) {
    NextDial(dials).Accepted? && Heads(NextDial(dials).connection)
  }

  ghost predicate NextServes(dials: seq<Dial>) {
    NextDial(dials).Accepted? && Serves(NextDial(dials).connection)
  }

  /** On a connection without timeouts a response is in time exactly when it is there. */
  lemma TimelyAnswer(w: bytes)
    ensures InTime(w, 0) <==> ParseResponse(w).Answer?
  {
  }

  /** At most two requests; a second one only after the first went out on a reused connection that was then
      hung up and dialled afresh; and never one after response headers have been read. */
  lemma RetryDiscipline(reused: bool, ops: seq<Op>)
    requires PostTrace(reused, ops)
    ensures Sends(ops) <= 2
    ensures Sends(ops) == 2 ==>
              reused && |ops| > 3 && ops[0].Sent? && ops[1] == HungUp && ops[2].Dialed? && ops[3].Sent?
    ensures forall i, j | 0 <= i < j < |ops| && ops[i] == HeadRead :: !ops[j].Sent?
  {
    AttemptSends(ops);
    if |ops| > 0 {
      AttemptSends(ops[1..]);
    }
    if reused && Retried(ops) {
      var second := ops[2..];
      AttemptSends(second[1..]);
      assert ops[1..][1..] == second;
      assert Sends(second) == Sends(second[1..]);
      assert Sends(ops[1..]) == Sends(second);
      assert forall k | 2 <= k < |ops| :: ops[k] == second[k - 2];
      assert forall k | 1 <= k < |second| :: second[k] == second[1..][k - 1];
    } else if !reused {
      assert forall k | 1 <= k < |ops| :: ops[k] == ops[1..][k - 1];
    }
  }

  /** A resend is a second request when its dial is accepted. */
  lemma ResendSends(ops: seq<Op>)
    requires PostTrace(true, ops) && Retried(ops)
    ensures ops[2].Dialed? && Sends(ops) == if ops[2].outcome.Accepted? then 2 else 1
  {
    var second := ops[2..];
    assert ops[1..][1..] == second && ops[2] == second[0];
    assert Sends(ops) == 1 + Sends(ops[1..]) && Sends(ops[1..]) == Sends(second) == Sends(second[1..]);
    AttemptSends(second[1..]);
  }

  lemma AttemptSends(ops: seq<Op>)
    ensures AttemptTrace(ops) ==> Sends(ops) == 1 && ops[0].Sent? && forall i | 0 < i < |ops| :: !ops[i].Sent?
  {
    if AttemptTrace(ops) {
      assert Sends(ops) == 1 + Sends(ops[1..]);
      if |ops| == 3 {
        assert ops[1..][1..] == [HungUp];
        assert Sends([HungUp]) == 0;
      }
    }
  }

  lemma TwoOps(log: seq<Op>, first: Op, second: Op)
    ensures log + [first] + [second] == log + [first, second]
  {
  }

  lemma AttemptOps(text: bytes, ok: bool, tail: seq<Op>)
    requires tail == [] || tail == [HungUp]
    ensures var good, bad := [Sent(text, true), HeadRead] + tail, [Sent(text, ok), HungUp];
            && AttemptTrace(good) && SendsOnly(text, good) && good[0] == Sent(text, true) && good[1] == HeadRead
            && AttemptTrace(bad) && SendsOnly(text, bad)
  {
  }

  lemma FreshOps(dial: Dial, attempted: seq<Op>)
    requires dial.Accepted? && AttemptTrace(attempted)
    ensures FreshTrace([Dialed(dial)] + attempted)
  {
    assert ([Dialed(dial)] + attempted)[1..] == attempted;
  }

  lemma SingleOps(reused: bool, ops: seq<Op>)
    requires if reused then AttemptTrace(ops) else FreshTrace(ops)
    ensures |ops| > 0
    ensures !reused ==> PostTrace(reused, ops) && !Retried(ops)
    ensures reused ==> |ops| > 1
    ensures reused && ops[1] == HeadRead ==> PostTrace(reused, ops) && !Retried(ops)
    ensures Retried(ops) ==> reused ==> ops[1] == HungUp
  {
  }

  lemma AnswerOfHead(w: bytes)
    ensures match ParseHead(w)
            case Head(status, headers, rest) =>
              ParseResponse(w) == AnswerWith(status, headers, Decode(BodyPhase(status, headers), rest))
            case _ => ParseResponse(w) == NoAnswer
  {
  }

  lemma AnswerHasHead(w: bytes)
    ensures ParseResponse(w).Answer? ==> ParseHead(w).Head? && ParseResponse(w) != NoAnswer
  {
  }

  lemma RetryOps(first: seq<Op>, second: seq<Op>)
    requires |first| == 2 && first[0].Sent? && first[1] == HungUp && FreshTrace(second)
    ensures PostTrace(true, first + second) && Retried(first + second) && (first + second)[0] == first[0]
    ensures (first + second)[2] == second[0]
  {
    assert (first + second)[2..] == second;
  }

  lemma LogGrows(log: seq<Op>, first: seq<Op>, second: seq<Op>)
    ensures log + first + second == log + (first + second)
  {
  }

  /** What is done on a connection to have a request answered: it is sent, and the head is read or the connection
      hung up. */
  ghost function BegunOps(text: bytes, sends: nat, arrived: bytes): seq<Op> {
    [Sent(text, sends > 0), if sends > 0 && ParseHead(arrived).Head? then HeadRead else HungUp]
  }

  ghost function DialedOps(dial: Dial, text: bytes): seq<Op> {
    [Dialed(dial)]
    + if dial.Accepted? then BegunOps(text, dial.connection.sends, Prompt(dial.connection.incoming)) else []
  }

  class HttpConnection {
    /** Stands also for a missing transport: one whose every dial is refused. */
    const transport: Transport
    const url: Url
    var buf: bytes
    var bufPos: nat
    var bodyMode: BodyMode
    var bodyRemaining: int
    var chunkNeedSize: bool
    var bodyDone: bool
    /** What was unread at the latest `Fill`, an unfinished line or nothing, and where it stands in the buffer. */
    ghost var partial: bytes
    ghost var filledAt: nat
    /** The bytes this connection was still to deliver when its latest request went out. */
    ghost var asked: bytes

    /** What reading lines keeps, whatever body was left unfinished before. */
    ghost predicate Readable()
      reads this`buf, this`bufPos, this`partial, this`filledAt, transport
    {
      transport.Valid() && Bounded()
    }

    ghost predicate Valid()
      reads this, transport
    {
      && Readable()
      && (!bodyDone && bodyMode == BodyLength ==> bodyRemaining > 0)
      && (!bodyDone && bodyMode == BodyChunked && !chunkNeedSize ==> bodyRemaining > 0)
      && (!bodyDone && !(bodyMode == BodyChunked && chunkNeedSize) ==> Near())
    }

    /** The buffer is at most a prefix still to be dropped, the line that was unfinished at the latest read, which
        is there, and that read. */
    ghost predicate Bounded()
      reads this`buf, this`bufPos, this`partial, this`filledAt
    {
      && filledAt <= bufPos <= |buf|
      && filledAt <= RECLAIM
      && filledAt + |partial| <= |buf| <= filledAt + |partial| + RECV_SIZE
      && partial == buf[filledAt..filledAt + |partial|]
      && LF !in partial
      && (bufPos == filledAt || Settled())
    }

    /** The line that was unfinished at the latest read has been read to its end. */
    ghost predicate Settled()
      reads this`buf, this`bufPos, this`partial, this`filledAt
    {
      && filledAt + |partial| <= bufPos <= |buf|
      && (partial == [] || LF in buf[filledAt + |partial|..bufPos])
    }

    /** And what is unread came with that read. */
    ghost predicate Near()
      reads this`buf, this`bufPos, this`partial, this`filledAt
    {
      Settled() && |buf| - bufPos <= RECV_SIZE
    }

    /** Bytes received and not yet consumed. */
    ghost function Window(): bytes
      requires bufPos <= |buf|
      reads this`buf, this`bufPos
    {
      buf[bufPos..]
    }

    /** Everything this connection still delivers. */
    ghost function Wire(): bytes
      requires bufPos <= |buf|
      reads this`buf, this`bufPos, transport
    {
      Window() + Flat(transport.incoming)
    }

    /** What has been received unread and what comes before the next timeout. */
    ghost function Arrived(): bytes
      requires bufPos <= |buf|
      reads this`buf, this`bufPos, transport
    {
      Window() + Prompt(transport.incoming)
    }

    /** What comes after the next timeout. */
    ghost function Later(): bytes
      reads transport
    {
      Late(transport.incoming)
    }

    ghost function Waits(): nat
      reads transport
    {
      Timeouts(transport.incoming)
    }

    ghost function Phase(): Phase
      requires Valid()
      reads this, transport
    {
      if bodyDone then Finished
      else match bodyMode
           case BodyNone => Finished
           case BodyLength => ByLength(bodyRemaining)
           case BodyChunked => if chunkNeedSize then ChunkSize else ChunkData(bodyRemaining)
           case BodyUntilClose => UntilClose
    }

    /** What the rest of the current response body decodes to. */
    ghost function Remaining(): Decoded
      requires Valid()
      reads this, transport
    {
      Decode(Phase(), Wire())
    }

    constructor (url: Url, transport: Transport)
      requires transport.Valid() && !transport.open
      ensures Valid() && this.transport == transport && this.url == url
      ensures Wire() == [] && Phase() == Finished
    {
      this.url, this.transport := url, transport;
      buf, bufPos := [], 0;
      bodyMode, bodyRemaining, chunkNeedSize, bodyDone := BodyNone, 0, true, true;
      partial, filledAt, asked := [], 0, [];
    }

    method Close()
      requires transport.Valid()
      modifies this`buf, this`bufPos, this`partial, this`filledAt, this`bodyMode, this`bodyDone, transport
      ensures Valid() && !transport.open && Wire() == [] && Phase() == Finished
      ensures transport.log == old(transport.log) + [HungUp] && transport.dials == old(transport.dials)
    {
      transport.Close();
      buf, bufPos := [], 0;
      partial, filledAt := [], 0;
      bodyMode, bodyDone := BodyNone, true;
    }

    method EnsureConnected() returns (ok: bool)
      requires Valid()
      modifies this`buf, this`bufPos, this`partial, this`filledAt, transport
      ensures Valid() && ok == transport.open
      ensures old(transport.open) ==>
                ok && unchanged(transport) && unchanged(this)
      ensures !old(transport.open) ==>
                && transport.log == old(transport.log) + [Dialed(NextDial(old(transport.dials)))]
                && ok == NextDial(old(transport.dials)).Accepted?
                && Wire() == NextWire(old(transport.dials))
                && (!ok ==> Wire() == [])
                && (ok ==> var c := NextDial(old(transport.dials)).connection;
                           Arrived() == Prompt(c.incoming) && Later() == Late(c.incoming)
                           && Waits() == Timeouts(c.incoming) && transport.sends == c.sends)
    {
      if transport.open {
        return true;
      }
      buf, bufPos := [], 0;
      partial, filledAt := [], 0;
      ok := transport.Connect();
    }

    method SendRequest(request: Request) returns (ok: bool)
      requires Valid()
      modifies this`asked, transport`sends, transport`log
      ensures Valid() && asked == old(Wire()) == Wire() && Phase() == old(Phase())
      ensures Waits() == old(Waits()) && Arrived() == old(Arrived()) && Later() == old(Later())
      ensures ok == (old(transport.sends) > 0) && (ok ==> transport.sends == old(transport.sends) - 1)
      ensures transport.log == old(transport.log) + [Sent(RequestText(url, request), ok)]
    {
      asked := Wire();
      var req := Compose(url, request);
      ok := transport.SendAll(req);
    }

    /** One transport read into the buffer, which is compacted first when its consumed prefix is long. */
    method Fill() returns (n: int)
      requires Readable() && LF !in Window()
      modifies this`buf, this`bufPos, this`partial, this`filledAt, transport`incoming
      ensures Readable() && Wire() == old(Wire())
      ensures partial == old(Window()) && filledAt == bufPos && |buf| <= RECLAIM + |old(Window())| + RECV_SIZE
      ensures old(Window()) == [] ==> Near()
      ensures n <= 0 ==> Window() == old(Window())
      ensures n < 0 ==> transport.incoming == [] && Waits() == old(Waits())
      ensures n == 0 ==> Waits() + 1 == old(Waits()) && Flat(transport.incoming) == old(Later())
      ensures n > 0 ==> Window() != [] && Waits() == old(Waits())
      ensures n != 0 ==> Arrived() == old(Arrived()) && Later() == old(Later())
      ensures n >= 0 ==> |transport.incoming| < |old(transport.incoming)|
    {
      hide Flat, Timeouts, Prompt, Late;
      ghost var window, script := Window(), transport.incoming;
      if bufPos > RECLAIM {
        buf, bufPos := buf[bufPos..], 0;
      }
      partial, filledAt := window, bufPos;
      assert Window() == window;
      NoEvent();
      if script != [] {
        NextEvent(script);
      }
      var chunk;
      n, chunk := transport.Recv();
      if n > 0 {
        ghost var before := buf;
        buf := buf + chunk;
        AppendToWindow(before, bufPos, chunk);
        Regroup(window, chunk, Flat(transport.incoming));
        Regroup(window, chunk, Prompt(transport.incoming));
      }
    }

    /** 1: a line was consumed; 0: timed out with the line incomplete, nothing consumed; -1: the connection is gone. */
    method ReadLine() returns (r: int, line: bytes)
      requires Readable()
      modifies this`buf, this`bufPos, this`partial, this`filledAt, transport`incoming
      ensures Readable() && Waits() <= old(Waits()) && -1 <= r <= 1
      ensures r == 1 ==> SplitLine(old(Wire())) == Line(line, Wire())
      ensures r == 1 ==> SplitLine(old(Arrived())) == Line(line, Arrived()) && Near()
      ensures r != 0 ==> Waits() == old(Waits()) && Later() == old(Later())
      ensures r == 0 ==> Wire() == old(Wire()) && Waits() < old(Waits())
      ensures r == 0 ==> Window() == old(Arrived()) && LF !in Window() && Flat(transport.incoming) == old(Later())
      ensures r == -1 ==> Wire() == old(Wire()) && SplitLine(old(Wire())) == NoLine && transport.incoming == []
      ensures |buf| <= |old(buf)| || |buf| <= RECLAIM + RECV_SIZE + if r == 1 then |line| + 1 else |Window()|
    {
      hide SplitLine, Flat, Timeouts, Prompt, Late, Settled;
      line := [];
      Split();
      while true
        invariant Readable() && Wire() == old(Wire()) && Waits() == old(Waits())
        invariant Arrived() == old(Arrived()) && Later() == old(Later())
        invariant |buf| <= |old(buf)| || (bufPos == filledAt && |buf| <= RECLAIM + |partial| + RECV_SIZE)
        decreases |transport.incoming|
      {
        var nl := IndexOf(buf[bufPos..], LF);
        if bufPos + nl < |buf| {
          line := TakeLine(nl);
          return 1, line;
        }
        assert Window()[..nl] == Window();
        var n := Fill();
        if n < 0 {
          NoLineInWindow(Window());
          NoEvent();
          assert Wire() == Window();
          return -1, line;
        }
        if n == 0 {
          SameTail(Window(), old(Arrived()), old(Later()));
          return 0, line;
        }
      }
    }

    /** Consumes a line that ends in the buffer. */
    method TakeLine(nl: nat) returns (line: bytes)
      requires Readable() && bufPos + nl < |buf| && buf[bufPos + nl] == LF && LF !in Window()[..nl]
      modifies this`bufPos
      ensures Readable() && Near() && |line| + 1 >= nl && filledAt + |partial| <= old(bufPos) + nl
      ensures SplitLine(old(Wire())) == Line(line, Wire()) && SplitLine(old(Arrived())) == Line(line, Arrived())
    {
      hide SplitLine, Flat, Prompt;
      ghost var window := Window();
      LineInWindow(window, Flat(transport.incoming), nl);
      LineInWindow(window, Prompt(transport.incoming), nl);
      LineBeyondPartial(nl);
      line := StripCr(buf[bufPos..][..nl]);
      bufPos := bufPos + nl + 1;
      assert Window() == window[nl + 1..];
    }

    /** A line that ends in the buffer ends in what the latest read brought. */
    lemma LineBeyondPartial(nl: nat)
      requires Bounded() && bufPos + nl < |buf| && buf[bufPos + nl] == LF
      ensures |buf| - (bufPos + nl + 1) <= RECV_SIZE && filledAt + |partial| <= bufPos + nl
      ensures LF in buf[filledAt + |partial|..bufPos + nl + 1]
    {
      assert forall k | 0 <= k < |partial| :: buf[filledAt + k] == partial[k] != LF;
      assert buf[filledAt + |partial|..bufPos + nl + 1][bufPos + nl - filledAt - |partial|] == LF;
    }

    /** The header lines, with the two values that decide the framing. */
    method ReadHeaders() returns (r: int, headers: HeaderList, contentLength: bytes, transferEncoding: bytes)
      requires Readable()
      modifies this`buf, this`bufPos, this`partial, this`filledAt, transport`incoming
      ensures Readable() && Waits() <= old(Waits()) && -1 <= r <= 1
      ensures r == 1 ==> ParseHeaders(old(Wire())) == Headers(headers, Wire())
      ensures r == 1 ==> ParseHeaders(old(Arrived())) == Headers(headers, Arrived()) && Near()
      ensures r == 1 ==> Waits() == old(Waits()) && Later() == old(Later())
      ensures r == 1 ==> contentLength == LastValue(headers, CONTENT_LENGTH)
                         && transferEncoding == LastValue(headers, TRANSFER_ENCODING)
      ensures r == 0 ==> Waits() < old(Waits()) && ParseHeaders(old(Arrived())) == HeadersCut
      ensures r == -1 ==> ParseHeaders(old(Wire())) == HeadersCut
    {
      hide ParseHeaders, SplitLine, Flat, Timeouts, HeaderOf, LastValue;
      headers, contentLength, transferEncoding := [], [], [];
      ghost var block, soon, late := Wire(), Arrived(), Later();
      NothingNamed(CONTENT_LENGTH);
      NothingNamed(TRANSFER_ENCODING);
      NoneBefore(ParseHeaders(block));
      NoneBefore(ParseHeaders(soon));
      while true
        invariant Readable() && Waits() == old(Waits()) && Later() == late
        invariant ParseHeaders(block) == Prefixed(headers, ParseHeaders(Wire()))
        invariant ParseHeaders(soon) == Prefixed(headers, ParseHeaders(Arrived()))
        invariant contentLength == LastValue(headers, CONTENT_LENGTH)
        invariant transferEncoding == LastValue(headers, TRANSFER_ENCODING)
        decreases |Wire()|
      {
        ghost var before, sooner := Wire(), Arrived();
        var line;
        r, line := ReadLine();
        if r <= 0 {
          NoHeadersWithoutALine(before);
          if r == 0 {
            NoHeaders(Window());
          }
          return;
        }
        LineShortens(before);
        if line == [] {
          HeadersEnd(before);
          HeadersEnd(sooner);
          assert headers + [] == headers;
          return;
        }
        HeadersStep(before);
        HeadersStep(sooner);
        if COLON !in line {
          continue;
        }
        var header := HeaderOf(line);
        PrefixedStep(headers, header, ParseHeaders(Wire()));
        PrefixedStep(headers, header, ParseHeaders(Arrived()));
        HeaderNamesDiffer();
        headers := headers + [header];
        if header.0 == CONTENT_LENGTH {
          contentLength := header.1;
        } else if header.0 == TRANSFER_ENCODING {
          transferEncoding := header.1;
        }
      }
    }

    method ChooseFraming(status: int, ghost headers: HeaderList, contentLength: bytes, transferEncoding: bytes)
      requires Readable() && Near()
      requires contentLength == LastValue(headers, CONTENT_LENGTH)
      requires transferEncoding == LastValue(headers, TRANSFER_ENCODING)
      modifies this`bodyMode, this`bodyRemaining, this`chunkNeedSize, this`bodyDone, transport`log
      ensures Valid() && Wire() == old(Wire()) && Waits() == old(Waits())
      ensures Arrived() == old(Arrived()) && Later() == old(Later())
      ensures Phase() == BodyPhase(status, headers)
      ensures transport.log == old(transport.log) + [HeadRead]
    {
      hide Contains, Strtoll, LastValue, Flat, Prompt, Late, Timeouts, Bounded;
      transport.log := transport.log + [HeadRead];
      bodyDone, chunkNeedSize, bodyRemaining := false, true, 0;
      if Contains(transferEncoding, CHUNKED) {
        bodyMode := BodyChunked;
      } else if contentLength != [] {
        bodyMode := BodyLength;
        bodyRemaining := Strtoll(contentLength, 10);
        if bodyRemaining <= 0 {
          bodyMode, bodyDone := BodyNone, true;
        }
      } else if status == 204 || status == 304 {
        bodyMode, bodyDone := BodyNone, true;
      } else {
        bodyMode := BodyUntilClose;
      }
    }

    /** Reads a response up to its body and works out how the body is framed. It succeeds exactly when a head is
        there before the next timeout. */
    method ReadStatusAndHeaders() returns (ok: bool, status: int, headers: HeaderList, err: Error)
      requires Readable()
      modifies this`buf, this`bufPos, this`partial, this`filledAt, this`bodyMode, this`bodyRemaining,
               this`chunkNeedSize, this`bodyDone, transport`incoming, transport`log
      ensures Readable() && ok == (err == NoError)
      ensures ok <==> ParseHead(old(Arrived())).Head?
      ensures ok ==> Valid() && ParseHead(old(Wire())) == Head(status, headers, Wire())
      ensures ok ==> ParseHead(old(Arrived())) == Head(status, headers, Arrived())
      ensures ok ==> Phase() == BodyPhase(status, headers) && Waits() == old(Waits()) && Later() == old(Later())
      ensures transport.log == old(transport.log) + if ok then [HeadRead] else []
      ensures err == TimedOut ==> Waits() < old(Waits())
      ensures err == MalformedStatus ==> ParseHead(old(Wire())) == HeadBad
      ensures err == ConnectionLost ==> ParseHead(old(Wire())) == HeadCut
      ensures err != ConnectFailed && err != SendFailed
    {
      hide ParseHead, ParseHeaders, BodyPhase, Flat, Timeouts;
      headers := [];
      ghost var arrived := Arrived();
      Split();
      NoHeadYet(arrived, Later());
      err, status := ReadStatusLine();
      if err != NoError {
        return false, status, headers, err;
      }
      var r, contentLength, transferEncoding;
      r, headers, contentLength, transferEncoding := ReadHeaders();
      if r <= 0 {
        return false, status, headers, if r == 0 then TimedOut else ConnectionLost;
      }
      ChooseFraming(status, headers, contentLength, transferEncoding);
      return true, status, headers, NoError;
    }

    /** Bytes that hold no head hold none before the next timeout. */
    lemma NoHeadYet(arrived: bytes, later: bytes)
      ensures !ParseHead(arrived + later).Head? ==> !ParseHead(arrived).Head?
    {
      if ParseHead(arrived).Head? {
        HeadExtends(arrived, later);
      }
    }

    method ReadStatusLine() returns (err: Error, status: int)
      requires Readable()
      modifies this`buf, this`bufPos, this`partial, this`filledAt, transport`incoming
      ensures Readable() && err != ConnectFailed && err != SendFailed
      ensures err == NoError ==> ParseHead(old(Wire())) == HeadWith(status, ParseHeaders(Wire()))
      ensures err == NoError ==> ParseHead(old(Arrived())) == HeadWith(status, ParseHeaders(Arrived()))
      ensures err == NoError ==> Waits() == old(Waits()) && Later() == old(Later())
      ensures err == TimedOut ==> Waits() < old(Waits()) && ParseHead(old(Arrived())) == HeadCut
      ensures err == MalformedStatus ==> ParseHead(old(Wire())) == ParseHead(old(Arrived())) == HeadBad
      ensures err == ConnectionLost ==> ParseHead(old(Wire())) == HeadCut
    {
      hide ParseHeaders, Flat, Timeouts, IsStatusLine, StatusCode;
      status := 0;
      ghost var arrived := Arrived();
      var r, line := ReadLine();
      if r <= 0 {
        if r == 0 {
          NoLineInWindow(arrived);
        }
        return if r == 0 then TimedOut else ConnectionLost, status;
      }
      if !IsStatusLine(line) {
        return MalformedStatus, status;
      }
      return NoError, StatusCode(line);
    }

    lemma SettledStays(later: nat)
      requires Settled() && bufPos <= later <= |buf|
      ensures partial != [] ==> LF in buf[filledAt + |partial|..later]
    {
      if partial != [] {
        var k :| filledAt + |partial| <= k < bufPos && buf[k] == LF;
        assert buf[filledAt + |partial|..later][k - filledAt - |partial|] == LF;
      }
    }

    /** Moves up to `bodyRemaining` buffered bytes, after one transport read if there are none, to `out`. */
    method TakeCounted(out: bytes) returns (r: int, out': bytes)
      requires Valid() && bodyRemaining > 0 && Near()
      modifies this`buf, this`bufPos, this`partial, this`filledAt, this`bodyRemaining, transport`incoming
      ensures Readable() && Near()
      ensures Waits() <= old(Waits()) && -1 <= r <= 1 && out <= out' && (r == 1 <==> out < out')
      ensures r == 1 ==> |out'| - |out| == old(bodyRemaining) - bodyRemaining <= old(bodyRemaining)
      ensures r == 1 ==> |out'| - |out| <= RECV_SIZE && old(Wire()) == out'[|out|..] + Wire()
      ensures r != 1 ==> out' == out && bodyRemaining == old(bodyRemaining) && Wire() == old(Wire())
      ensures r != 0 ==> Waits() == old(Waits()) && Later() == old(Later())
      ensures r == 0 ==> Waits() < old(Waits()) && Window() == [] && Flat(transport.incoming) == old(Later())
      ensures r == -1 ==> Wire() == [] && transport.incoming == []
      ensures |buf| <= |old(buf)| || |buf| <= RECLAIM + RECV_SIZE
    {
      hide Timeouts, Prompt, Late, Flat, Settled;
      NoEvent();
      out' := out;
      if |buf| == bufPos {
        var n := Fill();
        if n < 0 {
          return -1, out;
        }
        if n == 0 {
          return 0, out;
        }
      }
      out' := TakeBuffered(out);
      return 1, out';
    }

    method TakeBuffered(out: bytes) returns (out': bytes)
      requires Readable() && Near() && bodyRemaining > 0 && bufPos < |buf|
      modifies this`bufPos, this`bodyRemaining
      ensures Readable() && Near() && out < out' && Waits() == old(Waits())
      ensures |out'| - |out| == old(bodyRemaining) - bodyRemaining <= old(bodyRemaining) && |out'| - |out| <= RECV_SIZE
      ensures old(Window()) == out'[|out|..] + Window()
    {
      hide Flat, Timeouts, Prompt, Late;
      var available := |buf| - bufPos;
      var take := if available > bodyRemaining then bodyRemaining else available;
      ghost var window := Window();
      out' := out + buf[bufPos..][..take];
      SettledStays(bufPos + take);
      bufPos := bufPos + take;
      bodyRemaining := bodyRemaining - take;
      assert window == window[..take] + Window();
      assert out'[|out|..] == window[..take];
    }

    /** Reads chunk-size lines, passing over the empty line that ends the previous chunk's data. */
    method ReadChunkSize() returns (r: int, size: int)
      requires Readable()
      modifies this`buf, this`bufPos, this`partial, this`filledAt, transport`incoming
      ensures Readable() && Waits() <= old(Waits()) && -1 <= r <= 1
      ensures r == 1 ==> Decode(ChunkSize, old(Wire())) ==
                         if size <= 0 then Decoded([], Complete(Wire())) else Decode(ChunkData(size), Wire())
      ensures r == 1 ==> Near()
      ensures r != 0 ==> Waits() == old(Waits()) && Later() == old(Later())
      ensures r == 0 ==> Decode(ChunkSize, old(Wire())) == Decode(ChunkSize, Wire()) && Waits() < old(Waits())
      ensures r == 0 ==> Decode(ChunkSize, Window()) == Decoded([], Cut) && Flat(transport.incoming) == old(Later())
      ensures r == -1 ==> Decode(ChunkSize, old(Wire())) == Decode(ChunkSize, Wire()) == Decoded([], Cut)
    {
      size := 0;
      while true
        invariant Readable() && Waits() == old(Waits()) && Later() == old(Later())
        invariant Decode(ChunkSize, old(Wire())) == Decode(ChunkSize, Wire())
        decreases |Wire()|
      {
        var line;
        r, line := ReadLine();
        if r <= 0 {
          if r == 0 {
            NoLineInWindow(Window());
          }
          return;
        }
        if line != [] {
          size := ChunkLength(line);
          return;
        }
      }
    }

    /** Appends up to one transport read's worth of decoded body. 1: bytes were appended; 0: timed out with
        nothing to read, and what has been received holds no further piece; -1: the body is over or the connection
        is gone. */
    method ReadBody(out: bytes) returns (r: int, out': bytes)
      requires Valid()
      modifies this`buf, this`bufPos, this`partial, this`filledAt, this`bodyRemaining, this`chunkNeedSize,
               this`bodyDone, transport`incoming
      ensures Valid() && Waits() <= old(Waits()) && -1 <= r <= 1 && out <= out' && (r == 1 <==> out < out')
      ensures r == 1 ==> old(Remaining()) == Prepend(out'[|out|..], Remaining()) && |out'| - |out| <= RECV_SIZE
      ensures r == 0 ==> old(Remaining()) == Remaining() && Waits() < old(Waits()) && Phase() != Finished
      ensures r == -1 && bodyDone ==> old(Remaining()) == Decoded([], Complete(Wire())) && Phase() == Finished
      ensures r == -1 && !bodyDone ==> old(Remaining()) == Remaining() == Decoded([], Cut)
      ensures r != 0 ==> Waits() == old(Waits()) && Later() == old(Later())
      ensures r == 0 ==> Flat(transport.incoming) == old(Later())
      ensures r == 0 && Phase() != UntilClose ==> Decode(Phase(), Window()) == Decoded([], Cut)
      ensures r >= 0 ==> (Phase() == UntilClose <==> old(Phase()) == UntilClose)
      ensures r == -1 && old(Phase()) == UntilClose ==> Waits() == 0
      ensures old(Phase()) != ChunkSize ==> |buf| <= |old(buf)| || |buf| <= RECLAIM + RECV_SIZE
    {
      hide Decode, Flat, Timeouts;
      if bodyDone {
        FinishedIsComplete(Wire());
        return -1, out;
      }
      match bodyMode {
        case BodyNone =>
          FinishedIsComplete(Wire());
          bodyDone := true;
          return -1, out;
        case BodyLength =>
          r, out' := ReadLengthBody(out);
        case BodyChunked =>
          r, out' := ReadChunkedBody(out);
        case BodyUntilClose =>
          r, out' := ReadBodyUntilClose(out);
      }
    }

    method ReadLengthBody(out: bytes) returns (r: int, out': bytes)
      requires Valid() && !bodyDone && bodyMode == BodyLength
      modifies this`buf, this`bufPos, this`partial, this`filledAt, this`bodyRemaining, this`bodyDone, transport`incoming
      ensures Valid() && Waits() <= old(Waits()) && -1 <= r <= 1 && out <= out' && (r == 1 <==> out < out')
      ensures r == 1 ==> old(Remaining()) == Prepend(out'[|out|..], Remaining()) && |out'| - |out| <= RECV_SIZE
      ensures r == 0 ==> old(Remaining()) == Remaining() && Waits() < old(Waits())
      ensures r == -1 ==> old(Remaining()) == Remaining() == Decoded([], Cut)
      ensures r != 1 ==> !bodyDone
      ensures r != 0 ==> Waits() == old(Waits()) && Later() == old(Later())
      ensures r == 0 ==> Flat(transport.incoming) == old(Later()) && Decode(Phase(), Window()) == Decoded([], Cut)
      ensures |buf| <= |old(buf)| || |buf| <= RECLAIM + RECV_SIZE
    {
      hide Decode, Flat, Timeouts;
      ghost var n, w := bodyRemaining, Wire();
      NothingLeft(Phase());
      r, out' := TakeCounted(out);
      if r == 1 {
        LengthStep(n, w, out'[|out|..], Wire());
        if bodyRemaining <= 0 {
          bodyDone := true;
        }
      }
    }

    method ReadChunkedBody(out: bytes) returns (r: int, out': bytes)
      requires Valid() && !bodyDone && bodyMode == BodyChunked
      modifies this`buf, this`bufPos, this`partial, this`filledAt, this`bodyRemaining, this`chunkNeedSize,
               this`bodyDone, transport`incoming
      ensures Valid() && Waits() <= old(Waits()) && -1 <= r <= 1 && out <= out' && (r == 1 <==> out < out')
      ensures r == 1 ==> old(Remaining()) == Prepend(out'[|out|..], Remaining()) && |out'| - |out| <= RECV_SIZE
      ensures r == 0 ==> old(Remaining()) == Remaining() && Waits() < old(Waits()) && !bodyDone
      ensures r == -1 && bodyDone ==> old(Remaining()) == Decoded([], Complete(Wire()))
      ensures r == -1 && !bodyDone ==> old(Remaining()) == Remaining() == Decoded([], Cut)
      ensures r != 0 ==> Waits() == old(Waits()) && Later() == old(Later())
      ensures r == 0 ==> Flat(transport.incoming) == old(Later()) && Decode(Phase(), Window()) == Decoded([], Cut)
      ensures !old(chunkNeedSize) ==> |buf| <= |old(buf)| || |buf| <= RECLAIM + RECV_SIZE
    {
      hide Decode, Flat, Timeouts;
      if chunkNeedSize {
        r := BeginChunk();
        if r <= 0 {
          return r, out;
        }
      }
      r, out' := ReadChunkData(out);
    }

    /** Moves on to the data of the next chunk, or to the end of the body. */
    method BeginChunk() returns (r: int)
      requires Valid() && Phase() == ChunkSize
      modifies this`buf, this`bufPos, this`partial, this`filledAt, this`bodyRemaining, this`chunkNeedSize,
               this`bodyDone, transport`incoming
      ensures Valid() && Waits() <= old(Waits()) && -1 <= r <= 1
      ensures r == 1 ==> !bodyDone && !chunkNeedSize && old(Remaining()) == Remaining()
      ensures r == 0 ==> old(Remaining()) == Remaining() && Waits() < old(Waits()) && !bodyDone
      ensures r == -1 && bodyDone ==> old(Remaining()) == Decoded([], Complete(Wire()))
      ensures r == -1 && !bodyDone ==> old(Remaining()) == Remaining() == Decoded([], Cut)
      ensures r != 0 ==> Waits() == old(Waits()) && Later() == old(Later())
      ensures r == 0 ==> Flat(transport.incoming) == old(Later()) && Decode(Phase(), Window()) == Decoded([], Cut)
    {
      hide Decode, Flat, Timeouts;
      var size;
      r, size := ReadChunkSize();
      if r == 1 {
        if size <= 0 {
          bodyDone := true;
          return -1;
        }
        ghost var w := Wire();
        bodyRemaining := size;
        chunkNeedSize := false;
        assert Wire() == w && Phase() == ChunkData(size);
      }
    }

    method ReadChunkData(out: bytes) returns (r: int, out': bytes)
      requires Valid() && !bodyDone && bodyMode == BodyChunked && !chunkNeedSize
      modifies this`buf, this`bufPos, this`partial, this`filledAt, this`bodyRemaining, this`chunkNeedSize,
               transport`incoming
      ensures Valid() && Waits() <= old(Waits()) && -1 <= r <= 1 && out <= out' && (r == 1 <==> out < out')
      ensures r == 1 ==> old(Remaining()) == Prepend(out'[|out|..], Remaining()) && |out'| - |out| <= RECV_SIZE
      ensures r == 0 ==> old(Remaining()) == Remaining() && Waits() < old(Waits())
      ensures r == -1 ==> old(Remaining()) == Remaining() == Decoded([], Cut)
      ensures r != 0 ==> Waits() == old(Waits()) && Later() == old(Later())
      ensures r == 0 ==> Flat(transport.incoming) == old(Later()) && Decode(Phase(), Window()) == Decoded([], Cut)
      ensures |buf| <= |old(buf)| || |buf| <= RECLAIM + RECV_SIZE
    {
      hide Decode, Flat, Timeouts;
      ghost var n, w := bodyRemaining, Wire();
      NothingLeft(Phase());
      r, out' := TakeCounted(out);
      if r == 1 {
        ChunkStep(n, w, out'[|out|..], Wire());
        if bodyRemaining <= 0 {
          chunkNeedSize := true;
        }
      }
    }

    method ReadBodyUntilClose(out: bytes) returns (r: int, out': bytes)
      requires Valid() && !bodyDone && bodyMode == BodyUntilClose
      modifies this`buf, this`bufPos, this`partial, this`filledAt, this`bodyDone, transport`incoming
      ensures Valid() && Waits() <= old(Waits()) && -1 <= r <= 1 && out <= out' && (r == 1 <==> out < out')
      ensures r == 1 ==> old(Remaining()) == Prepend(out'[|out|..], Remaining()) && |out'| - |out| <= RECV_SIZE
      ensures r == 0 ==> old(Remaining()) == Remaining() && Waits() < old(Waits())
      ensures r >= 0 ==> !bodyDone
      ensures r == -1 ==> old(Remaining()) == Decoded([], Complete(Wire())) && bodyDone && Waits() == 0
      ensures r != 0 ==> Waits() == old(Waits()) && Later() == old(Later())
      ensures r == 0 ==> Flat(transport.incoming) == old(Later())
      ensures |buf| <= |old(buf)| || |buf| <= RECLAIM + RECV_SIZE
    {
      hide Prompt, Late, Flat, Timeouts, Decode;
      NoEvent();
      UntilCloseStep(Window(), Flat(transport.incoming));
      if |buf| == bufPos {
        var n := Fill();
        UntilCloseStep(Window(), Flat(transport.incoming));
        if n < 0 {
          bodyDone := true;
          return -1, out;
        }
        if n == 0 {
          return 0, out;
        }
      }
      out' := out + buf[bufPos..];
      ghost var window := Window();
      assert out'[|out|..] == window;
      SettledStays(|buf|);
      bufPos := |buf|;
      assert Wire() == Flat(transport.incoming);
      return 1, out';
    }

    /** Reads the rest of the body; false when it timed out or was cut, and exactly then. */
    method ReadFullBody(out: bytes) returns (ok: bool, out': bytes, err: Error)
      requires Valid()
      modifies this`buf, this`bufPos, this`partial, this`filledAt, this`bodyRemaining, this`chunkNeedSize,
               this`bodyDone, transport`incoming
      ensures Valid() && Waits() <= old(Waits()) && ok == (err == NoError) && out <= out'
      ensures ok <==> Whole(old(Phase()), old(Arrived()), old(Waits()))
      ensures ok ==> old(Remaining()) == Decoded(out'[|out|..], Complete(Wire())) && Phase() == Finished
      ensures ok ==> Waits() == old(Waits()) && Later() == old(Later())
      ensures err == TimedOut ==> Waits() < old(Waits())
      ensures err == ConnectionLost ==> old(Remaining()) == Decoded(out'[|out|..], Cut)
      ensures err == NoError || err == TimedOut || err == ConnectionLost
    {
      hide Decode, Flat, Timeouts, Whole;
      out' := out;
      ghost var phase, arrived, later := Phase(), Arrived(), Later();
      assert Wire() == arrived + later by { Split(); }
      PrependNothing(Remaining());
      while true
        invariant Valid() && out <= out' && Waits() == old(Waits()) && Later() == later
        invariant old(Remaining()) == Prepend(out'[|out|..], Remaining())
        invariant Phase() == UntilClose <==> phase == UntilClose
        decreases |Remaining().body|
      {
        ghost var before := out';
        var r;
        r, out' := ReadBody(out');
        PrependGrows(out, before, out', Remaining());
        if r == 1 {
          continue;
        }
        if r == 0 {
          NotWholeYet(phase, arrived, later, out'[|out|..], Phase(), Window(), old(Waits()));
          return false, out', TimedOut;
        }
        Split();
        if bodyDone {
          WholeInTime(phase, arrived, later, out'[|out|..], Arrived(), old(Waits()));
          return true, out', NoError;
        }
        CutIsNotWhole(phase, arrived, later, out'[|out|..], old(Waits()));
        return false, out', ConnectionLost;
      }
    }

    /** What is still to come, before and after the next timeout. */
    lemma Split()
      requires bufPos <= |buf|
      ensures Wire() == Arrived() + Later()
    {
      PromptThenLate(transport.incoming);
      Regroup(Window(), Prompt(transport.incoming), Later());
    }

    /** Sends a request on the open connection and reads the response up to its body; hangs up on failure. It
        succeeds exactly when the send does and a head is there before the next timeout. */
    method Exchange(request: Request) returns (err: Error, status: int, headers: HeaderList)
      requires Valid() && transport.open
      modifies this, transport
      ensures Valid() && asked == old(Wire()) && transport.dials == old(transport.dials)
      ensures err == NoError <==> old(transport.sends) > 0 && ParseHead(old(Arrived())).Head?
      ensures err == NoError ==>
                ParseHead(asked) == Head(status, headers, Wire()) && Phase() == BodyPhase(status, headers)
      ensures err == NoError ==> ParseHead(old(Arrived())) == Head(status, headers, Arrived())
      ensures err == NoError ==>
                && transport.open
                && transport.log == old(transport.log) + [Sent(RequestText(url, request), true), HeadRead]
      ensures err == NoError ==>
                Waits() == old(Waits()) && Later() == old(Later()) && transport.sends == old(transport.sends) - 1
      ensures err != NoError ==> !transport.open && Wire() == [] && err != ConnectFailed
      ensures err != NoError ==>
                transport.log == old(transport.log) + [Sent(RequestText(url, request), err != SendFailed), HungUp]
      ensures err == SendFailed <==> old(transport.sends) == 0
      ensures err == TimedOut ==> old(Waits()) > 0
      ensures err == MalformedStatus || err == ConnectionLost ==> !ParseHead(asked).Head?
    {
      hide Decode, ParseHead, Flat, Timeouts, BodyPhase, RequestText;
      status, headers := 0, [];
      ghost var text := RequestText(url, request);
      TwoOps(transport.log, Sent(text, false), HungUp);
      TwoOps(transport.log, Sent(text, true), HungUp);
      TwoOps(transport.log, Sent(text, true), HeadRead);
      var ok := SendRequest(request);
      if !ok {
        Close();
        return SendFailed, status, headers;
      }
      ok, status, headers, err := ReadStatusAndHeaders();
      if !ok {
        Close();
      }
    }

    /** Sends a POST and stops after the response headers. It succeeds exactly when the connection, the open one or
        else the one dialled for this, takes the request and delivers a head before its next timeout. */
    method BeginPost(request: Request) returns (err: Error, status: int, headers: HeaderList)
      requires Valid()
      modifies this, transport
      ensures Valid()
      ensures old(transport.open) ==>
                transport.log ==
                old(transport.log) + BegunOps(RequestText(url, request), old(transport.sends), old(Arrived()))
      ensures !old(transport.open) ==>
                transport.log ==
                old(transport.log) + DialedOps(NextDial(old(transport.dials)), RequestText(url, request))
      ensures old(transport.open) ==>
                (err == NoError <==> old(transport.sends) > 0 && ParseHead(old(Arrived())).Head?)
      ensures !old(transport.open) ==> (err == NoError <==> NextHeads(old(transport.dials)))
      ensures err == NoError ==> transport.open && Phase() == BodyPhase(status, headers)
      ensures err == NoError && old(transport.open) ==>
                && ParseHead(old(Wire())) == Head(status, headers, Wire())
                && ParseHead(old(Arrived())) == Head(status, headers, Arrived()) && Waits() == old(Waits())
      ensures err == NoError && !old(transport.open) ==>
                var c := NextDial(old(transport.dials)).connection;
                && ParseHead(NextWire(old(transport.dials))) == Head(status, headers, Wire())
                && ParseHead(Prompt(c.incoming)) == Head(status, headers, Arrived()) && Waits() == Timeouts(c.incoming)
      ensures err != NoError ==> !transport.open
    {
      hide ParseHead, Flat, Timeouts, BodyPhase, Prompt, Late, RequestText, Near, Settled;
      status, headers := 0, [];
      ghost var log, dialed := transport.log, [Dialed(NextDial(transport.dials))];
      var ok := EnsureConnected();
      if !ok {
        return ConnectFailed, status, headers;
      }
      ghost var begun := BegunOps(RequestText(url, request), transport.sends, Arrived());
      LogGrows(log, dialed, begun);
      err, status, headers := Exchange(request);
    }

    ghost predicate IsAnswer(resp: HttpResponse)
      requires Valid()
      reads this, transport
    {
      var answer := ParseResponse(asked);
      && answer.Answer?
      && resp == HttpResponse(answer.status, answer.headers, answer.body)
      && transport.open == !Contains(FirstValue(resp.headers, CONNECTION), CLOSE)
      && (transport.open ==> Wire() == answer.rest && Phase() == Finished)
    }

    /** After one request and no timeout on a connection that was dialled. */
    ghost predicate OnDialed(dial: Dial)
      reads transport
    {
      && dial.Accepted?
      && Waits() == Timeouts(dial.connection.incoming) && Later() == Late(dial.connection.incoming)
      && transport.sends == dial.connection.sends - 1
    }

    /** The part of a Post after the response headers. */
    method FinishPost(status: int, headers: HeaderList) returns (resp: HttpResponse, err: Error)
      requires Valid() && transport.open
      requires ParseResponse(asked) == AnswerWith(status, headers, Remaining())
      modifies this`buf, this`bufPos, this`partial, this`filledAt, this`bodyMode, this`bodyRemaining,
               this`chunkNeedSize, this`bodyDone, transport
      ensures Valid() && transport.dials == old(transport.dials)
      ensures transport.log == old(transport.log) + if transport.open then [] else [HungUp]
      ensures err == NoError || err == TimedOut || err == ConnectionLost
      ensures err == NoError <==> Whole(old(Phase()), old(Arrived()), old(Waits()))
      ensures err == NoError ==> IsAnswer(resp)
      ensures transport.open ==> err == NoError && Waits() == old(Waits()) && Later() == old(Later())
      ensures transport.open ==> transport.sends == old(transport.sends)
      ensures err != NoError ==> !transport.open && Wire() == []
      ensures err == TimedOut ==> old(Waits()) > 0
      ensures err == ConnectionLost ==> ParseResponse(asked) == NoAnswer
    {
      hide Whole, Decode, ParseResponse, Flat, Timeouts;
      resp := EMPTY_RESPONSE;
      var ok, body;
      ok, body, err := ReadFullBody([]);
      assert body[0..] == body;
      if !ok {
        Close();
        return;
      }
      resp := HttpResponse(status, headers, body);
      if Contains(FirstValue(headers, CONNECTION), CLOSE) {
        Close();
      }
    }

    /** One attempt of a Post, on an open connection. `headRead` tells whether response headers were read. */
    method Attempt(request: Request) returns (resp: HttpResponse, err: Error, headRead: bool, ghost ops: seq<Op>)
      requires Valid() && transport.open
      modifies this, transport
      ensures Valid() && transport.log == old(transport.log) + ops && AttemptTrace(ops)
      ensures SendsOnly(RequestText(url, request), ops)
      ensures transport.dials == old(transport.dials) && asked == old(Wire()) && err != ConnectFailed
      ensures headRead == (ops[1] == HeadRead) && (err == NoError ==> headRead)
      ensures ops[0] == Sent(RequestText(url, request), old(transport.sends) > 0)
      ensures headRead <==> old(transport.sends) > 0 && ParseHead(old(Arrived())).Head?
      ensures err == NoError <==> old(transport.sends) > 0 && InTime(old(Arrived()), old(Waits()))
      ensures err == NoError ==> IsAnswer(resp)
      ensures transport.open ==>
                Waits() == old(Waits()) && Later() == old(Later()) && transport.sends == old(transport.sends) - 1
      ensures !headRead ==> ops == [Sent(RequestText(url, request), old(transport.sends) > 0), HungUp]
      ensures err != NoError ==> !transport.open && Wire() == []
      ensures err == SendFailed ==> old(transport.sends) == 0
      ensures err == TimedOut ==> old(Waits()) > 0
      ensures err == ConnectionLost || err == MalformedStatus ==> ParseResponse(asked) == NoAnswer
    {
      hide Decode, ParseResponse, ParseHead, AnswerWith, Flat, Timeouts, Contains, BodyPhase, IsAnswer, RequestText,
           Whole, AttemptTrace, SendsOnly, Prompt, Late;
      resp, headRead := EMPTY_RESPONSE, false;
      AnswerOfHead(Wire());
      ghost var log, text := transport.log, RequestText(url, request);
      var status, headers;
      err, status, headers := Exchange(request);
      if err != NoError {
        AttemptOps(text, err != SendFailed, []);
        ops := [Sent(text, err != SendFailed), HungUp];
        return;
      }
      headRead := true;
      resp, err := FinishPost(status, headers);
      ghost var tail := if transport.open then [] else [HungUp];
      LogGrows(log, [Sent(text, true), HeadRead], tail);
      AttemptOps(text, true, tail);
      ops := [Sent(text, true), HeadRead] + tail;
    }

    /** An attempt that dials first when the connection is not open. */
    method TryPost(request: Request) returns (resp: HttpResponse, err: Error, headRead: bool, ghost ops: seq<Op>)
      requires Valid()
      modifies this, transport
      ensures Valid() && transport.log == old(transport.log) + ops
      ensures SendsOnly(RequestText(url, request), ops)
      ensures if old(transport.open) then AttemptTrace(ops) else FreshTrace(ops)
      ensures old(transport.open) ==> transport.dials == old(transport.dials)
      ensures err != ConnectFailed ==>
                asked == if old(transport.open) then old(Wire()) else NextWire(old(transport.dials))
      ensures err == ConnectFailed ==> !old(transport.open)
      ensures err == NoError ==> headRead && IsAnswer(resp)
      ensures err != NoError ==> !transport.open && Wire() == []
      ensures err == ConnectionLost || err == MalformedStatus ==> ParseResponse(asked) == NoAnswer
      ensures headRead ==> HeadRead in ops
      ensures old(transport.open) ==>
                && (err == NoError <==> old(transport.sends) > 0 && InTime(old(Arrived()), old(Waits())))
                && (headRead <==> old(transport.sends) > 0 && ParseHead(old(Arrived())).Head?)
                && headRead == (ops[1] == HeadRead)
                && ops[0] == Sent(RequestText(url, request), old(transport.sends) > 0)
                && (!headRead ==> ops == [Sent(RequestText(url, request), old(transport.sends) > 0), HungUp])
      ensures !old(transport.open) ==> (err == NoError <==> NextServes(old(transport.dials)))
      ensures !old(transport.open) ==> ops[0] == Dialed(NextDial(old(transport.dials)))
      ensures old(transport.open) && transport.open ==>
                Waits() == old(Waits()) && Later() == old(Later()) && transport.sends == old(transport.sends) - 1
      ensures !old(transport.open) && transport.open ==> OnDialed(NextDial(old(transport.dials)))
      ensures old(transport.open) && err == SendFailed ==> old(transport.sends) == 0
      ensures old(transport.open) && err == TimedOut ==> old(Waits()) > 0
    {
      hide ParseResponse, ParseHead, Flat, Timeouts, NextWire, IsAnswer, Phase, InTime, RequestText, Prompt, Late,
           Near, Settled;
      resp, err, headRead, ops := EMPTY_RESPONSE, ConnectFailed, false, [];
      ghost var reused, dial, log := transport.open, NextDial(transport.dials), transport.log;
      var ok := EnsureConnected();
      if !ok {
        ops := [Dialed(dial)];
        return;
      }
      ghost var attempted;
      resp, err, headRead, attempted := Attempt(request);
      ops := attempted;
      if !reused {
        FreshOps(dial, attempted);
        ops := [Dialed(dial)] + attempted;
        assert log + [Dialed(dial)] + attempted == log + ops;
      }
    }

    /** Sends a POST and reads the whole response, retrying once when the first attempt was on a reused
        connection and failed before its response headers were read. */
    method Post(request: Request) returns (resp: HttpResponse, err: Error, ghost ops: seq<Op>)
      requires Valid()
      modifies this, transport
      ensures Valid() && transport.log == old(transport.log) + ops
      ensures PostTrace(old(transport.open), ops) && SendsOnly(RequestText(url, request), ops)
      ensures err == NoError ==> IsAnswer(resp)
      ensures err != NoError ==> !transport.open && Wire() == []
      ensures err == ConnectionLost || err == MalformedStatus ==> ParseResponse(asked) == NoAnswer
      // which bytes the answer came from: the open connection's own, or those of the one dialled for this request
      ensures err != ConnectFailed ==>
                asked == if old(transport.open) && !Retried(ops) then old(Wire()) else NextWire(old(transport.dials))
      ensures old(transport.open) ==> ops[0] == Sent(RequestText(url, request), old(transport.sends) > 0)
      ensures old(transport.open) && !Retried(ops) ==> transport.dials == old(transport.dials)
      ensures !old(transport.open) ==> ops[0] == Dialed(NextDial(old(transport.dials)))
      ensures Retried(ops) ==> ops[2] == Dialed(NextDial(old(transport.dials)))
      // a second request goes out exactly when the open connection fails to take the first or to deliver a head in time
      ensures Retried(ops) <==>
                old(transport.open) && !(old(transport.sends) > 0 && ParseHead(old(Arrived())).Head?)
      // it succeeds exactly when the connection that counts delivers a whole answer in time
      ensures old(transport.open) && !Retried(ops) ==> (err == NoError <==> InTime(old(Arrived()), old(Waits())))
      ensures !old(transport.open) || Retried(ops) ==> (err == NoError <==> NextServes(old(transport.dials)))
      ensures old(transport.open) && !Retried(ops) && transport.open ==>
                Waits() == old(Waits()) && Later() == old(Later()) && transport.sends == old(transport.sends) - 1
      ensures (!old(transport.open) || Retried(ops)) && transport.open ==> OnDialed(NextDial(old(transport.dials)))
    {
      hide ParseResponse, ParseHead, Flat, Timeouts, NextWire, IsAnswer, Phase, InTime, RequestText, NextServes,
           PostTrace, FreshTrace, AttemptTrace, Prompt, Late, Near, Settled;
      resp, err, ops := EMPTY_RESPONSE, NoError, [];
      ghost var log, own, text := transport.log, Wire(), RequestText(url, request);
      ghost var reused, sendable := transport.open, transport.sends > 0;
      ghost var missed := !(sendable && ParseHead(Arrived()).Head?);
      var attempt := 0;
      while attempt < 2
        invariant 0 <= attempt <= 1 && Valid() && transport.dials == old(transport.dials)
        invariant transport.log == log + ops
        invariant attempt == 0 ==>
                    && ops == [] && transport.open == reused && Wire() == own && Arrived() == old(Arrived())
                    && Waits() == old(Waits()) && Later() == old(Later()) && transport.sends == old(transport.sends)
        invariant attempt == 1 ==> reused && missed && !transport.open && ops == [Sent(text, sendable), HungUp]
      {
        var wasConnected := transport.open;
        var headRead;
        ghost var first, tried := ops, [];
        resp, err, headRead, tried := TryPost(request);
        ops := first + tried;
        LogGrows(log, first, tried);
        if attempt == 0 {
          assert ops == tried;
          SingleOps(reused, tried);
        } else {
          RetryOps(first, tried);
        }
        if err != NoError && !headRead && wasConnected && attempt == 0 {
          attempt := attempt + 1;
          continue;
        }
        return;
      }
    }
  }

  /** A consumed prefix of at most 8192 bytes, a stretch of one line, and at most 4096 bytes. The line is what is to be
      read next, or has been read to its end; or there is none. */
  ghost predicate WithinOneLine(buf: bytes, pos: nat, start: nat, end: nat) {
    && start <= 8192 && start <= end <= |buf| <= end + 4096
    && LF !in buf[start..end]
    && (start == end || start == pos || (end <= pos <= |buf| && LF in buf[end..pos]))
  }

  /** However long a connection runs, that is all its buffer holds. While it reads the data of a body, 4096 bytes at
      most are unread. */
  lemma BufferIsBounded(c: HttpConnection) returns (start: nat, end: nat)
    requires c.Valid()
    ensures WithinOneLine(c.buf, c.bufPos, start, end)
    ensures c.Phase() != Finished && c.Phase() != ChunkSize ==>
              |c.Window()| <= 4096 && (start == end || (end <= c.bufPos && LF in c.buf[end..c.bufPos]))
  {
    start, end := c.filledAt, c.filledAt + |c.partial|;
  }

  // ----- bodies in time -----

  lemma NotWholeYet(p: Phase, arrived: bytes, later: bytes, body: bytes, now: Phase, window: bytes, waits: nat)
    requires Decode(p, arrived + later) == Prepend(body, Decode(now, window + later)) && waits > 0
    requires now == UntilClose <==> p == UntilClose
    requires now != UntilClose ==> Decode(now, window) == Decoded([], Cut)
    ensures !Whole(p, arrived, waits)
  {
    hide Decode;
    if p != UntilClose && Decode(p, arrived).ending.Complete? {
      DecodeExtends(p, arrived, later);
      DecodeUncut(now, window, Decode(p, arrived).ending.rest, later);
    }
  }

  lemma WholeInTime(p: Phase, arrived: bytes, later: bytes, body: bytes, rest: bytes, waits: nat)
    requires Decode(p, arrived + later) == Decoded(body, Complete(rest + later))
    requires p == UntilClose ==> waits == 0
    ensures Whole(p, arrived, waits)
  {
    hide Decode;
    if p != UntilClose {
      DecodeUncut(p, arrived, rest, later);
    }
  }

  lemma CutIsNotWhole(p: Phase, arrived: bytes, later: bytes, body: bytes, waits: nat)
    requires Decode(p, arrived + later) == Decoded(body, Cut)
    ensures !Whole(p, arrived, waits)
  {
    if p != UntilClose && Decode(p, arrived).ending.Complete? {
      DecodeExtends(p, arrived, later);
    }
  }
}
