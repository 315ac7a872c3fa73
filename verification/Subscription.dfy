/**
 A station's subscription from the dial to the end of its event stream: the read loop of the stream thread,
 over the envelopes, over the chunked coding, over reads of any size with timeouts anywhere between them.
 */
module Subscription {
  import opened Bytes
  import opened Transports
  import opened HttpFraming
  import opened Http
  import opened HttpExtension
  import opened HttpHeads
  import opened HttpProperties
  import opened Json
  import opened Connect

  /** Reads events until the stream ends, or until the thread is told to stop while it waits. */
  method ReadEvents(stream: EventStream) returns (events: seq<Value>, finished: bool)
    requires stream.Valid()
    modifies stream, stream.conn, stream.conn.transport
    ensures stream.Valid()
    ensures events <= Events(old(stream.Future())).events
    ensures finished ==> events == Events(old(stream.Future())).events && stream.ended
    ensures !finished ==> stream.conn.Waits() < old(stream.conn.Waits())
    ensures stream.conn.transport.log == old(stream.conn.transport.log)
  {
    hide Events, EventStream.Bounded, HttpConnection.Bounded;
    events := [];
    ghost var all := Events(stream.Future());
    while true
      invariant stream.Valid()
      invariant all.events == events + Events(stream.Future()).events
      invariant stream.conn.Waits() <= old(stream.conn.Waits())
      invariant stream.conn.transport.log == old(stream.conn.transport.log)
      decreases stream.conn.Waits(), |Events(stream.Future()).events|
    {
      ghost var left := Events(stream.Future()).events;
      var r, event, code := stream.Read();
      if r == 0 {
        var stop: bool := *;
        if stop {
          return events, false;
        }
        continue;
      }
      if r < 0 {
        return events, true;
      }
      assert events + left == events + [event] + left[1..];
      events := events + [event];
    }
  }

  /** What a server sends on a connection that carries one subscription: a head with status 200 that announces a
      chunked body, and a chunked body that carries envelopes cut into chunks in any way. */
  ghost predicate CarriesStream(wire: bytes, version: bytes, reason: bytes, lines: seq<bytes>, chunks: seq<Chunk>,
                                extension: bytes, trailer: bytes)
  {
    && SP !in version && LF !in version && IsReason(reason) && PlainLines(lines)
    && Contains(LastValue(HeadersOf(lines), TRANSFER_ENCODING), CHUNKED)
    && (forall c | c in chunks :: ValidChunk(c)) && ValidExtension(extension)
    && wire == StatusLine(version, 200, reason) + CRLF + HeadText(lines)
               + (EncodeChunks(chunks) + LastChunk(extension) + trailer)
  }

  lemma StreamDecodes(wire: bytes, version: bytes, reason: bytes, lines: seq<bytes>, chunks: seq<Chunk>,
                      extension: bytes, trailer: bytes)
    requires CarriesStream(wire, version, reason, lines, chunks, extension, trailer)
    ensures ParseHead(wire) == Head(200, HeadersOf(lines), EncodeChunks(chunks) + LastChunk(extension) + trailer)
    ensures Decode(BodyPhase(200, HeadersOf(lines)), EncodeChunks(chunks) + LastChunk(extension) + trailer) ==
            Decoded(Payload(chunks), Complete(trailer))
  {
    hide ParseHead, Decode, HeadersOf, HeadText, EncodeChunks, LastChunk, Contains, StatusLine;
    StatusReads(version, 200, reason, lines, EncodeChunks(chunks) + LastChunk(extension) + trailer);
    ChunkedBody(chunks, extension, trailer);
  }

  /** The status is that of the bytes in time, as of all of them. */
  lemma StatusInTime(dials: seq<Dial>)
    requires ParseHead(NextWire(dials)).Head?
    ensures NextAccepts(dials) <==> NextHeads(dials) && ParseHead(NextWire(dials)).status == 200
  {
    hide ParseHead, Flat, Prompt, Late;
    if NextHeads(dials) {
      var script := NextDial(dials).connection.incoming;
      PromptThenLate(script);
      HeadExtends(Prompt(script), Late(script));
    }
  }

  /** End to end. If the connection a stream dials carries the envelopes of `payloads`, then however they are
      cut into chunks, however the wire is cut into reads, and wherever reads time out, the events read to the
      end of the stream are exactly the parsed payloads in order, with nothing left from an earlier stream. The
      stream opens exactly when the connection is made, takes the request and delivers its head in time; it is read
      to its end unless the thread is told to stop while a read times out. */
  method Subscribe(stream: EventStream, slug: bytes, ghost version: bytes, ghost reason: bytes,
                   ghost lines: seq<bytes>, ghost chunks: seq<Chunk>, ghost extension: bytes, ghost trailer: bytes,
                   ghost payloads: seq<bytes>, ghost sent: seq<Value>, ghost farewell: bytes, ghost after: bytes)
    returns (live: bool, events: seq<Value>, finished: bool, ghost text: bytes)
    requires stream.Valid() && !stream.conn.transport.open
    requires CarriesStream(NextWire(stream.conn.transport.dials), version, reason, lines, chunks, extension, trailer)
    requires |payloads| == |sent| && |farewell| < LENGTH_LIMIT
    requires forall i | 0 <= i < |payloads| ::
               |payloads[i]| < LENGTH_LIMIT && ParseDocument(payloads[i]) == Document(sent[i])
    requires Payload(chunks) == Envelopes(payloads)
             || Payload(chunks) == Envelopes(payloads) + (EnvelopeOf(2, farewell) + after)
    modifies stream, stream.conn, stream.conn.transport
    ensures stream.conn.transport.log ==
            old(stream.conn.transport.log) + DialedOps(NextDial(old(stream.conn.transport.dials)), text)
    ensures Presentable(stream.conn.url, stream.token) && 6 * |slug| + 11 < LENGTH_LIMIT ==>
              Subscribes(text, stream.conn.url, stream.token, slug)
    ensures live <==> NextHeads(old(stream.conn.transport.dials))
    ensures events <= sent
    ensures live && finished ==> events == sent
    ensures live && Timeouts(NextDial(old(stream.conn.transport.dials)).connection.incoming) == 0 ==> finished
  {
    hide Events, ParseHead, Decode, CarriesStream, NextWire, ParseDocument, Envelopes, EnvelopeOf, Payload, NextHeads,
         NextAccepts, Timeouts, Flat, BodyPhase, Presentable, Subscribes, DialedOps;
    events, finished := [], false;
    StreamDecodes(NextWire(stream.conn.transport.dials), version, reason, lines, chunks, extension, trailer);
    StatusInTime(stream.conn.transport.dials);
    EndedStream(payloads, sent, farewell, after);
    var code;
    live, code, text := stream.Open(slug);
    if live {
      events, finished := ReadEvents(stream);
    }
  }
}
