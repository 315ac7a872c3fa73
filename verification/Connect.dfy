/**
 The Connect protocol's event stream: envelopes of one flags byte, a big-endian length and a payload, laid
 end to end in a response body that arrives in pieces of any size. The reader keeps a second sliding buffer
 on top of the connection's; it is proved to hand out exactly the events of the whole body.
 */
module Connect {
  import opened Bytes
  import opened Transports
  import opened HttpFraming
  import opened HttpExtension
  import opened HttpRequests
  import opened Http
  import opened Urls
  import opened Json
  import opened JsonReaders
  import opened JsonWriter

  // ----- envelopes -----

  const LENGTH_LIMIT: nat := 0x1_0000_0000

  function BigEndian(n: nat): bytes {
    [n / 0x100_0000 % 0x100, n / 0x1_0000 % 0x100, n / 0x100 % 0x100, n % 0x100]
  }

  function EnvelopeOf(flags: byte, payload: bytes): bytes {
    [flags] + BigEndian(|payload|) + payload
  }

  method Envelope(payload: bytes) returns (out: bytes)
    ensures out == EnvelopeOf(0, payload)
  {
    out := [0];
    var n := |payload|;
    out := out + [n / 0x100_0000 % 0x100];
    out := out + [n / 0x1_0000 % 0x100];
    out := out + [n / 0x100 % 0x100];
    out := out + [n % 0x100];
    out := out + payload;
  }

  function Shift8(high: nat, low: byte): nat {
    high * 0x100 + low
  }

  function PayloadLength(b: bytes): (n: nat)
    requires |b| >= 5
    ensures n < LENGTH_LIMIT
  {
    Shift8(Shift8(Shift8(b[1], b[2]), b[3]), b[4])
  }

  datatype Frame = Partial | Frame(flags: byte, payload: bytes, rest: bytes)

  /** The envelope at the front of `b`, if all of it is there. */
  function NextFrame(b: bytes): (f: Frame)
    ensures f.Frame? ==> |f.rest| < |b|
  {
    if |b| < 5 || |b| < 5 + PayloadLength(b) then Partial
    else Frame(b[0], b[5..5 + PayloadLength(b)], b[5 + PayloadLength(b)..])
  }

  predicate IsEnd(flags: byte) {
    flags / 2 % 2 == 1
  }

  /** How a stream of envelopes stops: the server's end-of-stream envelope, a payload that is not JSON, or
      no further whole envelope. */
  datatype StreamEnd = EndOfStream(payload: bytes) | Unreadable(payload: bytes) | RanDry(rest: bytes)

  datatype Stream = Stream(events: seq<Value>, end: StreamEnd)

  /** The events in a body, up to the first thing that stops the stream. */
  function Events(b: bytes): (s: Stream)
    ensures |s.events| <= |b|
    decreases |b|
  {
    match NextFrame(b)
    case Partial => Stream([], RanDry(b))
    case Frame(flags, payload, rest) =>
      if IsEnd(flags) then Stream([], EndOfStream(payload))
      else
        match ParseDocument(payload)
        case Malformed => Stream([], Unreadable(payload))
        case Document(event) =>
          var more := Events(rest);
          Stream([event] + more.events, more.end)
  }

  // ----- the event stream -----

  const ERROR_KEY: bytes := [0x65, 0x72, 0x72, 0x6F, 0x72] // "error"
  const CODE_KEY: bytes := [0x63, 0x6F, 0x64, 0x65] // "code"
  const SLUG_KEY: bytes := [0x73, 0x6C, 0x75, 0x67] // "slug"
  const INTERNAL: bytes := [0x69, 0x6E, 0x74, 0x65, 0x72, 0x6E, 0x61, 0x6C] // "internal"
  const UNAVAILABLE: bytes := [0x75, 0x6E, 0x61, 0x76, 0x61, 0x69, 0x6C, 0x61, 0x62, 0x6C, 0x65] // "unavailable"

  /** The error code an end-of-stream payload is reported with. */
  function EndCode(payload: bytes): bytes {
    match ParseDocument(payload)
    case Malformed => UNAVAILABLE
    case Document(eos) =>
      if Has(eos, ERROR_KEY) then Str(Get(eos, ERROR_KEY), CODE_KEY, INTERNAL) else UNAVAILABLE
  }

  // ----- refusals -----

  /** The code a refused call is reported with: the one in its body, if the body is an object that has one. */
  function ErrorCode(body: bytes): bytes {
    match ParseDocument(body)
    case Malformed => INTERNAL
    case Document(v) => if v.Object? && Has(v, CODE_KEY) then Str(v, CODE_KEY, []) else INTERNAL
  }

  /** What a unary call comes to. */
  datatype Outcome = Returned(resp: Value) | Failed(code: bytes)

  function OutcomeOf(status: int, body: bytes): Outcome {
    if status != 200 then Failed(ErrorCode(body))
    else
      match ParseDocument(body)
      case Malformed => Failed(UNAVAILABLE)
      case Document(resp) => Returned(resp)
  }

  lemma CodesAre()
    ensures ERROR_KEY == Ascii("error") && CODE_KEY == Ascii("code")
    ensures INTERNAL == Ascii("internal") && UNAVAILABLE == Ascii("unavailable")
  {
  }

  /** Only status 200 returns anything, and only a document; else the answer is not to be had. */
  lemma OnlyOkReturns(status: int, body: bytes)
    ensures OutcomeOf(status, body).Returned? <==> status == 200 && ParseDocument(body).Document?
    ensures OutcomeOf(status, body).Returned? ==> ParseDocument(body) == Document(OutcomeOf(status, body).resp)
    ensures status == 200 && ParseDocument(body) == Malformed ==>
              OutcomeOf(status, body) == Failed(Ascii("unavailable"))
  {
    hide ParseDocument;
    CodesAre();
  }

  /** A refusal is known by the "code" of the object in its body, and is internal when there is none. */
  lemma RefusalCode(status: int, body: bytes, code: bytes, before: seq<(bytes, Value)>, after: seq<(bytes, Value)>)
    requires status != 200 && forall m | m in before :: m.0 != Ascii("code")
    ensures ParseDocument(body) == Document(Object(before + [(Ascii("code"), String(code))] + after)) ==>
              OutcomeOf(status, body) == Failed(code)
    ensures ParseDocument(body) == Malformed || (ParseDocument(body).Document? && !ParseDocument(body).value.Object?)
            || ParseDocument(body) == Document(Object(before)) ==>
              OutcomeOf(status, body) == Failed(Ascii("internal"))
  {
    hide ParseDocument;
    CodesAre();
    FindBehind(before, (CODE_KEY, String(code)), after);
  }

  lemma FindBehind(before: seq<(bytes, Value)>, member: (bytes, Value), after: seq<(bytes, Value)>)
    requires forall m | m in before :: m.0 != member.0
    ensures var members := before + [member] + after;
            Has(Object(members), member.0) && FindMember(members, member.0) == member.1
  {
    var members := before + [member] + after;
    assert members[|before|] == member;
    if before != [] {
      assert before[0] in before && members[0] == before[0] && members[1..] == before[1..] + [member] + after;
      assert forall m | m in before[1..] :: m in before;
      FindBehind(before[1..], member, after);
    }
  }

  /** The end of a stream is known by the "code" of its "error"; one without a code is internal, and without an error
      the stream is merely not to be had. */
  lemma FarewellCode(payload: bytes, code: bytes)
    ensures ParseDocument(payload) == Document(Object([(Ascii("error"), Object([(Ascii("code"), String(code))]))])) ==>
              EndCode(payload) == code
    ensures ParseDocument(payload) == Document(Object([(Ascii("error"), Object([]))])) ==>
              EndCode(payload) == Ascii("internal")
    ensures ParseDocument(payload) == Malformed || ParseDocument(payload) == Document(Object([])) ==>
              EndCode(payload) == Ascii("unavailable")
  {
    hide ParseDocument;
    CodesAre();
    FindOnly((ERROR_KEY, Object([(CODE_KEY, String(code))])));
    FindOnly((ERROR_KEY, Object([])));
    FindOnly((CODE_KEY, String(code)));
  }

  lemma FindOnly(member: (bytes, Value))
    ensures Has(Object([member]), member.0) && FindMember([member], member.0) == member.1
  {
    FindBehind([], member, []);
    assert [] + [member] + [] == [member];
  }

  method CodeOf(body: bytes) returns (code: bytes)
    ensures code == ErrorCode(body)
  {
    var reader := new JsonReader(body);
    assert reader.Rest() == body;
    var ok, v := reader.Document();
    return if ok && v.Object? && Has(v, CODE_KEY) then Str(v, CODE_KEY, []) else INTERNAL;
  }

  const SERVICE_PATH: bytes := Ascii("/audioserver.v1.AudioServerService/")

  function ConnectHeaders(contentType: bytes, token: bytes): HeaderList {
    [(Ascii("Content-Type"), contentType), (Ascii("Connect-Protocol-Version"), Ascii("1")),
     (Ascii("Authorization"), Ascii("Bearer ") + token)]
  }

  function CallRequest(token: bytes, rpc: bytes, json: bytes): Request {
    Request(SERVICE_PATH + rpc, ConnectHeaders(Ascii("application/json"), token), json)
  }

  // ----- requests as a server reads them -----

  /** The headers of every call: what the body is, the version of the protocol, and who calls. */
  function CallHeaders(contentType: bytes, token: bytes): HeaderList {
    [(Ascii("content-type"), contentType), (Ascii("connect-protocol-version"), Ascii("1")),
     (Ascii("authorization"), Ascii("Bearer ") + token)]
  }

  /** An address and a token that can be written into a head. */
  predicate Presentable(url: Url, token: bytes) {
    && Plain((Ascii("Host"), url.host)) && LF !in url.basePath
    && token != [] && LF !in token && token[|token| - 1] != SP && token[|token| - 1] != CR
  }

  /** `text` calls the RPC `rpc` with `json`. */
  ghost predicate Calls(text: bytes, url: Url, token: bytes, rpc: bytes, json: bytes) {
    ReadsAs(text, url, url.basePath + (Ascii("/audioserver.v1.AudioServerService/") + rpc),
            CallHeaders(Ascii("application/json"), token), json)
  }

  /** `text` subscribes to the station `slug`: one envelope around an object that names it. */
  ghost predicate Subscribes(text: bytes, url: Url, token: bytes, slug: bytes) {
    exists payload, envelope :: IsEnvelope(envelope, payload, slug)
      && ReadsAs(text, url, url.basePath + Ascii("/audioserver.v1.AudioServerService/SubscribeEvents"),
                 CallHeaders(Ascii("application/connect+json"), token), envelope)
  }

  ghost predicate IsEnvelope(envelope: bytes, payload: bytes, slug: bytes) {
    && NextFrame(envelope) == Frame(0, payload, [])
    && ParseDocument(payload) == Document(Object([(Ascii("slug"), String(slug))]))
  }

  lemma HeadersReceived(contentType: bytes, token: bytes)
    requires Plain((Ascii("Content-Type"), contentType)) && LF !in token
    requires token != [] && token[|token| - 1] != SP && token[|token| - 1] != CR
    ensures Received(ConnectHeaders(contentType, token)) == CallHeaders(contentType, token)
    ensures forall h | h in ConnectHeaders(contentType, token) :: Plain(h)
  {
    hide Lower;
    NamesReceived();
    assert |Ascii("Bearer ")| == 7 && Ascii("Bearer ")[0] == 0x42 && LF !in Ascii("Bearer ");
    assert |Ascii("1")| == 1 && Ascii("1")[0] == 0x31;
  }

  lemma NamesReceived()
    ensures Lower(Ascii("Content-Type")) == Ascii("content-type")
    ensures Lower(Ascii("Authorization")) == Ascii("authorization")
    ensures Lower(Ascii("Connect-Protocol-Version")) == Ascii("connect-protocol-version")
    ensures Plain((Ascii("Connect-Protocol-Version"), Ascii("1")))
  {
    hide Plain;
    VersionName();
  }

  lemma VersionName()
    ensures Lower(Ascii("Connect-Protocol-Version")) == Ascii("connect-protocol-version")
    ensures Plain((Ascii("Connect-Protocol-Version"), Ascii("1")))
  {
    VersionIsPlain();
  }

  lemma VersionIsPlain()
    ensures Plain((Ascii("Connect-Protocol-Version"), Ascii("1")))
  {
  }

  /** What a call sends is that call. */
  lemma CallIsRead(url: Url, token: bytes, rpc: bytes, json: bytes)
    requires Presentable(url, token) && LF !in rpc && |json| <= LLONG_MAX
    ensures Calls(RequestText(url, CallRequest(token, rpc, json)), url, token, rpc, json)
  {
    hide ReadsAs, RequestText, ConnectHeaders, CallHeaders, Plain;
    TypesArePlain();
    PathsAre();
    HeadersReceived(Ascii("application/json"), token);
    RequestReads(url, CallRequest(token, rpc, json));
  }

  lemma TypesArePlain()
    ensures Plain((Ascii("Content-Type"), Ascii("application/json")))
    ensures Plain((Ascii("Content-Type"), Ascii("application/connect+json")))
  {
  }

  lemma PathsAre()
    ensures LF !in SERVICE_PATH && LF !in Ascii("SubscribeEvents")
    ensures SERVICE_PATH + Ascii("SubscribeEvents") == Ascii("/audioserver.v1.AudioServerService/SubscribeEvents")
  {
    hide Ascii;
    PlainPaths();
    SubscribePath();
  }

  lemma PlainPaths()
    ensures LF !in Ascii("/audioserver.v1.AudioServerService/") && LF !in Ascii("SubscribeEvents")
  {
  }

  lemma SubscribePath()
    ensures Ascii("/audioserver.v1.AudioServerService/") + Ascii("SubscribeEvents") ==
            Ascii("/audioserver.v1.AudioServerService/SubscribeEvents")
  {
  }

  /** What a subscription sends is that subscription. */
  lemma SubscribeIsRead(url: Url, token: bytes, slug: bytes)
    requires Presentable(url, token) && 6 * |slug| + 11 < LENGTH_LIMIT
    ensures Subscribes(RequestText(url, SubscribeRequest(token, slug)), url, token, slug)
  {
    hide ReadsAs, RequestText, ConnectHeaders, CallHeaders, Plain, EnvelopeOf, Built, NextFrame, ParseDocument;
    var payload := Built([PutStr(SLUG_KEY, slug)]);
    var envelope := EnvelopeOf(0, payload);
    TypesArePlain();
    PathsAre();
    SlugObject(slug);
    EnvelopeReadsBack(0, payload, []);
    assert envelope + [] == envelope;
    EnvelopeLayout(0, payload, [0, 0, 0, 0, 0]);
    HeadersReceived(Ascii("application/connect+json"), token);
    RequestReads(url, SubscribeRequest(token, slug));
    assert IsEnvelope(envelope, payload, slug);
  }

  lemma SlugObject(slug: bytes)
    ensures var text := Built([PutStr(SLUG_KEY, slug)]);
            && ParseDocument(text) == Document(Object([(Ascii("slug"), String(slug))]))
            && |text| <= 6 * |slug| + 11
  {
    hide ParseAt, KeyReads, KeyOf, Escaped;
    var calls := [PutStr(SLUG_KEY, slug)];
    assert SLUG_KEY == Ascii("slug");
    PlainKeyReads(SLUG_KEY);
    BuilderReadsBack(calls, 0);
    assert calls[..0] == [];
    assert MembersPut(calls, 0) == MembersPut([], 0) + [(SLUG_KEY, String(slug))];
    assert MembersPut(calls, 0) == [(Ascii("slug"), String(slug))];
    assert Body(calls) == BodyAfter(Body([]), calls[0]);
    EscapedLength(slug);
  }

  /** What the whole answer at the front of `w` makes of a call. */
  ghost predicate OutcomeFrom(outcome: Outcome, w: bytes) {
    var answer := ParseResponse(w);
    answer.Answer? && outcome == OutcomeOf(answer.status, answer.body)
  }

  /** Calls a unary RPC. Of the two connections it may use, the open one and the one it dials when that cannot be used
      or gets no head, the outcome is what the answer of the one that counts says, if that is in time; else the call is
      unavailable. So nothing is returned but a document that a whole answer with status 200 carried. */
  method Call(conn: HttpConnection, token: bytes, rpc: bytes, json: bytes)
    returns (outcome: Outcome, ghost ops: seq<Op>)
    requires conn.Valid()
    modifies conn, conn.transport
    ensures conn.Valid() && conn.transport.log == old(conn.transport.log) + ops
    ensures PostTrace(old(conn.transport.open), ops)
    ensures SendsOnly(RequestText(conn.url, CallRequest(token, rpc, json)), ops)
    ensures Presentable(conn.url, token) && LF !in rpc && |json| <= LLONG_MAX ==>
              forall op | op in ops && op.Sent? :: Calls(op.request, conn.url, token, rpc, json)
    ensures Retried(ops) <==>
              old(conn.transport.open) && !(old(conn.transport.sends) > 0 && ParseHead(old(conn.Arrived())).Head?)
    ensures old(conn.transport.open) && !Retried(ops) ==>
              if InTime(old(conn.Arrived()), old(conn.Waits())) then OutcomeFrom(outcome, old(conn.Wire()))
              else outcome == Failed(UNAVAILABLE)
    ensures !old(conn.transport.open) || Retried(ops) ==>
              if NextServes(old(conn.transport.dials)) then OutcomeFrom(outcome, NextWire(old(conn.transport.dials)))
              else outcome == Failed(UNAVAILABLE)
  {
    hide ParseHead, ParseResponse, ParseDocument, Flat, Timeouts, InTime, NextServes, RequestText, CallRequest,
         NextWire, Prompt, Late, PostTrace, Calls, Presentable;
    var resp, err;
    if Presentable(conn.url, token) && LF !in rpc && |json| <= LLONG_MAX {
      CallIsRead(conn.url, token, rpc, json);
    }
    resp, err, ops := conn.Post(CallRequest(token, rpc, json));
    if err != NoError {
      return Failed(UNAVAILABLE), ops;
    }
    outcome := Judge(resp);
  }

  method Judge(resp: HttpResponse) returns (outcome: Outcome)
    ensures outcome == OutcomeOf(resp.status, resp.body)
  {
    if resp.status != 200 {
      var code := CodeOf(resp.body);
      return Failed(code);
    }
    var reader := new JsonReader(resp.body);
    assert reader.Rest() == resp.body;
    var ok, v := reader.Document();
    return if ok then Returned(v) else Failed(UNAVAILABLE);
  }

  // ----- the event stream -----

  /** Consumed envelopes are dropped from the buffer once they take up more than this. */
  const RECLAIM_FRAMES: nat := 65536

  function SubscribeRequest(token: bytes, slug: bytes): Request {
    Request(SERVICE_PATH + Ascii("SubscribeEvents"), ConnectHeaders(Ascii("application/connect+json"), token),
            EnvelopeOf(0, Built([PutStr(SLUG_KEY, slug)])))
  }

  /** A connection that takes a request and answers it with status 200 before its next timeout. */
  ghost predicate Accepts(sends: nat, arrived: bytes) {
    sends > 0 && ParseHead(arrived).Head? && ParseHead(arrived).status == 200
  }

  ghost predicate NextAccepts(dials: seq<Dial>) {
    NextDial(dials).Accepted? && Accepts(NextDial(dials).connection.sends, Prompt(NextDial(dials).connection.incoming))
  }

  class EventStream {
    const conn: HttpConnection
    const token: bytes
    var pending: bytes
    var pendingPos: nat
    var ended: bool
    /** What was unread at the latest body read, less than an envelope, and where it stands in the buffer. */
    ghost var held: bytes
    ghost var heldAt: nat

    ghost predicate Valid()
      reads this, conn, conn.transport
    {
      && conn.Valid()
      && Bounded()
    }

    /** The buffer is at most a prefix still to be dropped, the envelope that was unfinished at the latest body read,
        which is there, and that read. */
    ghost predicate Bounded()
      reads this`pending, this`pendingPos, this`held, this`heldAt
    {
      && heldAt <= pendingPos <= |pending| && pendingPos <= RECLAIM_FRAMES
      && heldAt + |held| <= |pending| <= heldAt + |held| + RECV_SIZE
      && held == pending[heldAt..heldAt + |held|]
      && NextFrame(held) == Partial
      && (pendingPos == heldAt || pendingPos > heldAt + |held|)
    }

    ghost function Window(): bytes
      requires pendingPos <= |pending|
      reads this`pending, this`pendingPos
    {
      pending[pendingPos..]
    }

    /** The rest of the response body: what is buffered and what the connection still decodes to. */
    ghost function Future(): bytes
      requires Valid()
      reads this, conn, conn.transport
    {
      Window() + if ended then [] else conn.Remaining().body
    }

    constructor (conn: HttpConnection, token: bytes)
      requires conn.Valid()
      ensures Valid() && this.conn == conn && this.token == token && ended
    {
      this.conn, this.token := conn, token;
      pending, pendingPos, ended := [], 0, true;
      held, heldAt := [], 0;
    }

    method Empty()
      modifies this`pending, this`pendingPos, this`ended, this`held, this`heldAt
      ensures Bounded() && Window() == [] && !ended
    {
      pending, pendingPos, ended := [], 0, false;
      held, heldAt := [], 0;
      NothingIsPartial();
    }

    /** Takes the next whole envelope out of the buffer, dropping the consumed part when it has grown long. */
    method TakeFrame() returns (found: bool, flags: byte, payload: bytes)
      requires Valid()
      modifies this`pending, this`pendingPos, this`held, this`heldAt
      ensures Valid() && conn.Remaining() == old(conn.Remaining())
      ensures found ==> NextFrame(old(Window())) == Frame(flags, payload, Window())
      ensures !found ==> NextFrame(old(Window())) == Partial && Window() == old(Window())
    {
      hide NextFrame, Decode, Flat, Timeouts, HttpConnection.Bounded;
      found, flags, payload := false, 0, [];
      ghost var window := Window();
      FrameParts(window);
      var available := |pending| - pendingPos;
      if available >= 5 {
        var p := pending[pendingPos..];
        var length := PayloadLength(p);
        if available >= 5 + length {
          found, flags, payload := true, p[0], p[5..5 + length];
          if pendingPos == heldAt {
            HeldIsShort(held, window);
          }
          pendingPos := pendingPos + 5 + length;
          assert pending[pendingPos..] == window[5 + length..];
          if pendingPos > RECLAIM_FRAMES {
            pending, pendingPos := pending[pendingPos..], 0;
            held, heldAt := [], 0;
            NothingIsPartial();
          }
          assert Window() == window[5 + length..];
        }
      }
    }

    /** Composes the subscription, as one envelope. */
    method ComposeSubscribe(slug: bytes) returns (request: Request)
      ensures request == SubscribeRequest(token, slug)
    {
      hide Built, EnvelopeOf, Ascii;
      var json := new JsonObject();
      json.Str(SLUG_KEY, slug);
      var text := json.Build();
      var body := Envelope(text);
      request := Request(SERVICE_PATH + Ascii("SubscribeEvents"),
                         ConnectHeaders(Ascii("application/connect+json"), token),
                         body);
    }

    /** Subscribes: sends the request and reads the response headers. It succeeds exactly when the connection, the open
        one or else the one dialled for this, takes the request and answers it with status 200 in time. Any other
        answer is read to its end, for as long as it comes, and the connection closed. */
    method Open(slug: bytes) returns (ok: bool, code: bytes, ghost text: bytes)
      requires Valid()
      modifies this`pending, this`pendingPos, this`ended, this`held, this`heldAt, conn, conn.transport
      ensures Valid() && ended == !ok
      ensures ok <==> if old(conn.transport.open) then Accepts(old(conn.transport.sends), old(conn.Arrived()))
                      else NextAccepts(old(conn.transport.dials))
      ensures ok && !old(conn.transport.open) ==>
                var head := ParseHead(NextWire(old(conn.transport.dials)));
                && head.Head? && head.status == 200
                && Future() == Decode(BodyPhase(200, head.headers), head.rest).body
                && conn.Waits() == Timeouts(NextDial(old(conn.transport.dials)).connection.incoming)
      ensures !ok ==> !conn.transport.open && Future() == []
      ensures !ok && !old(conn.transport.open) ==>
                var dial := NextDial(old(conn.transport.dials));
                if NextHeads(old(conn.transport.dials)) then
                  var head := ParseHead(NextWire(old(conn.transport.dials)));
                  && head.Head? && head.status != 200
                  && var body := Decode(BodyPhase(head.status, head.headers), head.rest).body;
                     exists read :: read <= body && code == ErrorCode(read)
                                 && (Timeouts(dial.connection.incoming) == 0 ==> read == body)
                else code == UNAVAILABLE
      // what is done on the connection: one request goes out, and it subscribes to this station
      ensures Presentable(conn.url, token) && 6 * |slug| + 11 < LENGTH_LIMIT ==>
                Subscribes(text, conn.url, token, slug)
      ensures old(conn.transport.open) ==>
                conn.transport.log ==
                old(conn.transport.log) + BegunOps(text, old(conn.transport.sends), old(conn.Arrived()))
                + if !ok && old(conn.transport.sends) > 0 && ParseHead(old(conn.Arrived())).Head? then [HungUp] else []
      ensures !old(conn.transport.open) ==>
                conn.transport.log ==
                old(conn.transport.log) + DialedOps(NextDial(old(conn.transport.dials)), text)
                + if !ok && NextHeads(old(conn.transport.dials)) then [HungUp] else []
    {
      hide ErrorCode, ParseHead, BodyPhase, Decode, Flat, Timeouts, NextWire, NextFrame, Prompt, Late, SubscribeRequest,
           Bounded, HttpConnection.Bounded, Presentable, Subscribes, RequestText, BegunOps, DialedOps,
           HttpConnection.Near, HttpConnection.Settled;
      Empty();
      var request := ComposeSubscribe(slug);
      text := RequestText(conn.url, request);
      if Presentable(conn.url, token) && 6 * |slug| + 11 < LENGTH_LIMIT {
        SubscribeIsRead(conn.url, token, slug);
      }
      var err, status, headers := conn.BeginPost(request);
      ok, code := err == NoError && status == 200, [];
      if err != NoError {
        ended, code := true, UNAVAILABLE;
      } else if status != 200 {
        code := Refuse();
      }
    }

    /** The code of a refusal, from as much of its body as comes. */
    method Refuse() returns (code: bytes)
      requires Valid()
      modifies this`ended, conn, conn.transport
      ensures Valid() && ended && !conn.transport.open && conn.transport.log == old(conn.transport.log) + [HungUp]
      ensures exists read :: read <= old(conn.Remaining().body) && code == ErrorCode(read)
                          && (old(conn.Waits()) == 0 ==> read == old(conn.Remaining().body))
    {
      hide ErrorCode, Decode, Flat, Timeouts, HttpConnection.Near, HttpConnection.Settled;
      ended := true;
      var rest := Drain();
      code := CodeOf(rest);
    }

    /** Reads the body of a refusal for as long as there is any, and closes the connection. */
    method Drain() returns (rest: bytes)
      requires Valid()
      modifies conn, conn.transport
      ensures Valid() && !conn.transport.open && conn.transport.log == old(conn.transport.log) + [HungUp]
      ensures rest <= old(conn.Remaining().body)
      ensures old(conn.Waits()) == 0 ==> rest == old(conn.Remaining().body)
    {
      hide Flat, Timeouts, Decode;
      rest := [];
      ghost var total := conn.Remaining().body;
      var r := 1;
      while r == 1
        invariant Valid() && rest <= total && conn.Waits() <= old(conn.Waits())
        invariant r == 1 ==> rest + conn.Remaining().body == total && conn.Waits() == old(conn.Waits())
        invariant r == -1 ==> rest == total
        invariant r == 0 ==> conn.Waits() < old(conn.Waits())
        invariant -1 <= r <= 1 && conn.transport.log == old(conn.transport.log)
        decreases |total| - |rest|, r
      {
        ghost var before, left := rest, conn.Remaining().body;
        r, rest := conn.ReadBody(rest);
        if r == 1 {
          PieceRead(before, rest, left, conn.Remaining().body);
        } else {
          assert rest == before && before + [] == before;
        }
      }
      conn.Close();
    }

    /** One body read onto the end of the buffer; the stream has ended when the body has. */
    method Extend() returns (r: int)
      requires Valid() && !ended && NextFrame(Window()) == Partial
      modifies this`pending, this`ended, this`held, this`heldAt, conn, conn.transport
      ensures Valid() && -1 <= r <= 1 && conn.Waits() <= old(conn.Waits()) && Future() == old(Future())
      ensures r == 1 ==> held == old(Window()) && heldAt == pendingPos && |pending| - |old(pending)| <= RECV_SIZE
      ensures r == 1 ==> !ended && |conn.Remaining().body| < |old(conn.Remaining()).body|
      ensures r == 0 ==> !ended && conn.Waits() < old(conn.Waits())
      ensures conn.transport.log == old(conn.transport.log)
      ensures r == -1 ==> ended && Window() == old(Window()) && Future() == Window()
    {
      hide Decode, NextFrame, Flat, Timeouts, HttpConnection.Bounded, HttpConnection.Near, HttpConnection.Settled,
           HttpConnection.Readable, HttpConnection.Phase;
      ghost var window, before, body := Window(), pending, conn.Remaining();
      r, pending := conn.ReadBody(pending);
      ghost var added := pending[|before|..];
      assert pending == before + added;
      AppendToWindow(before, pendingPos, added);
      if r == 1 {
        held, heldAt := window, pendingPos;
        Regroup(window, added, conn.Remaining().body);
      } else if r < 0 {
        ended := true;
      }
    }

    method EndOfStreamCode(payload: bytes) returns (code: bytes)
      ensures code == EndCode(payload)
    {
      var reader := new JsonReader(payload);
      assert reader.Rest() == payload;
      var ok, eos := reader.Document();
      return if ok && Has(eos, ERROR_KEY) then Str(Get(eos, ERROR_KEY), CODE_KEY, INTERNAL) else UNAVAILABLE;
    }

    /** The next event. 1: an event; 0: timed out without one; -1: the stream has ended, with an error code. */
    method Read() returns (r: int, event: Value, code: bytes)
      requires Valid()
      modifies this`pending, this`pendingPos, this`ended, this`held, this`heldAt, conn, conn.transport
      ensures Valid() && -1 <= r <= 1 && conn.Waits() <= old(conn.Waits())
      ensures r == 1 ==> var s := Events(old(Future()));
                         s.events != [] && event == s.events[0] && Events(Future()) == Stream(s.events[1..], s.end)
      ensures conn.transport.log == old(conn.transport.log)
      ensures r == 0 ==> Events(Future()) == Events(old(Future())) && conn.Waits() < old(conn.Waits())
      ensures r == -1 ==> Events(old(Future())).events == [] && ended
      ensures r == -1 && Events(old(Future())).end.EndOfStream? ==> code == EndCode(Events(old(Future())).end.payload)
      ensures r == -1 && !Events(old(Future())).end.EndOfStream? ==> code == UNAVAILABLE
    {
      hide ParseDocument, ParseAt, Decode, Events, NextFrame, Flat, Timeouts, EndCode, HttpConnection.Bounded;
      event, code := Null, [];
      while true
        invariant Valid() && conn.Waits() <= old(conn.Waits()) && conn.transport.log == old(conn.transport.log)
        invariant Future() == old(Future())
        decreases |conn.Remaining().body|
      {
        ghost var future := Future();
        ghost var tail := if ended then [] else conn.Remaining().body;
        ghost var window := Window();
        var found, flags, payload := TakeFrame();
        if found {
          FrameFirst(window, tail);
          EventsStep(flags, payload, Future(), future);
          if IsEnd(flags) {
            ended := true;
            code := EndOfStreamCode(payload);
            return -1, event, code;
          }
          var reader := new JsonReader(payload);
          assert reader.Rest() == payload;
          var ok;
          ok, event := reader.Document();
          if !ok {
            ended := true;
            return -1, event, UNAVAILABLE;
          }
          return 1, event, code;
        }
        if ended {
          assert future == window;
          NoFrame(window);
          return -1, event, UNAVAILABLE;
        }
        r := Extend();
        if r == 0 {
          return 0, event, code;
        }
        if r < 0 {
          NoFrame(window);
          return -1, event, UNAVAILABLE;
        }
      }
    }
  }

  lemma PieceRead(before: bytes, after: bytes, left: bytes, more: bytes)
    requires before <= after && left == after[|before|..] + more
    ensures after + more == before + left
  {
    assert after == before + after[|before|..];
  }

  lemma NothingIsPartial()
    ensures NextFrame([]) == Partial
  {
  }

  lemma NoFrame(b: bytes)
    requires NextFrame(b) == Partial
    ensures Events(b) == Stream([], RanDry(b))
  {
  }

  lemma FrameParts(b: bytes)
    ensures NextFrame(b) == if |b| < 5 || |b| < 5 + PayloadLength(b) then Partial
                            else Frame(b[0], b[5..5 + PayloadLength(b)], b[5 + PayloadLength(b)..])
  {
  }

  /** The start of an envelope that was not whole is shorter than the envelope. */
  lemma HeldIsShort(held: bytes, window: bytes)
    requires held <= window && NextFrame(held) == Partial && NextFrame(window).Frame?
    ensures |window| >= 5 && |held| < 5 + PayloadLength(window)
  {
    if |held| >= 5 {
      assert forall i | 0 <= i < 5 :: held[i] == window[i];
    }
  }

  /** How long the envelope at the front of `b` is, as far as can be told: no more than a header until its length is
      there. */
  function FrameSize(b: bytes): nat {
    if |b| < 5 then 5 else 5 + PayloadLength(b)
  }

  /** However long the stream runs, it buffers at most 65536 consumed bytes, the one envelope it is at, and one body
      read of 4096. */
  lemma PendingIsBounded(stream: EventStream)
    requires stream.Valid()
    ensures |stream.pending| <= 65536 + FrameSize(stream.Window()) + 4096
  {
    var held, window := stream.held, stream.Window();
    if stream.pendingPos == stream.heldAt {
      assert held == window[..|held|];
      FrameParts(held);
      if |held| >= 5 {
        assert forall i | 0 <= i < 5 :: held[i] == window[i];
      }
    }
  }

  /** An envelope that is whole in the buffer is the first envelope of the whole body. */
  lemma FrameFirst(window: bytes, tail: bytes)
    requires NextFrame(window).Frame?
    ensures NextFrame(window + tail) ==
            Frame(NextFrame(window).flags, NextFrame(window).payload, NextFrame(window).rest + tail)
  {
    var n := PayloadLength(window);
    var whole := window + tail;
    assert whole[0] == window[0] && whole[1] == window[1] && whole[2] == window[2] && whole[3] == window[3]
           && whole[4] == window[4];
    assert PayloadLength(whole) == n;
    assert whole[5..5 + n] == window[5..5 + n];
    assert whole[5 + n..] == window[5 + n..] + tail;
  }

  /** The stream that a body with a whole envelope in front of it makes. */
  lemma EventsStep(flags: byte, payload: bytes, rest: bytes, b: bytes)
    requires NextFrame(b) == Frame(flags, payload, rest)
    ensures IsEnd(flags) ==> Events(b) == Stream([], EndOfStream(payload))
    ensures !IsEnd(flags) && ParseDocument(payload) == Malformed ==> Events(b) == Stream([], Unreadable(payload))
    ensures !IsEnd(flags) && ParseDocument(payload).Document? ==>
              && Events(b) == Stream([ParseDocument(payload).value] + Events(rest).events, Events(rest).end)
              && Events(b).events[0] == ParseDocument(payload).value
              && Events(b).events[1..] == Events(rest).events
  {
    hide ParseDocument;
  }

  // ----- whole streams -----

  function Envelopes(payloads: seq<bytes>): bytes {
    if payloads == [] then [] else EnvelopeOf(0, payloads[0]) + Envelopes(payloads[1..])
  }

  lemma EnvelopeReadsBack(flags: byte, payload: bytes, rest: bytes)
    requires |payload| < LENGTH_LIMIT
    ensures NextFrame(EnvelopeOf(flags, payload) + rest) == Frame(flags, payload, rest)
  {
    var b := EnvelopeOf(flags, payload) + rest;
    var n := |payload|;
    BigEndianReadsBack(n);
    assert forall i | 0 <= i < 4 :: b[i + 1] == BigEndian(n)[i];
    assert b == [flags] + BigEndian(n) + payload + rest;
    assert b[5..5 + n] == payload && b[5 + n..] == rest;
  }

  function Word(a: int, b: int, c: int, d: int): int {
    0x100_0000 * a + 0x1_0000 * b + 0x100 * c + d
  }

  /** Four bytes, the most significant first. */
  lemma BigEndianReadsBack(n: nat)
    requires n < LENGTH_LIMIT
    ensures var d := BigEndian(n);
            |d| == 4 && Word(d[0], d[1], d[2], d[3]) == n
            && Shift8(Shift8(Shift8(d[0], d[1]), d[2]), d[3]) == n
  {
    var a := n / 0x100;
    var b := a / 0x100;
    var c := b / 0x100;
    assert b == n / 0x1_0000 && c == n / 0x100_0000;
    assert c < 0x100 && c % 0x100 == c;
  }

  /** An envelope is a flags byte, four for the length, and the payload; a length is read from the same four. */
  lemma EnvelopeLayout(flags: byte, payload: bytes, b: bytes)
    requires |payload| < LENGTH_LIMIT && |b| >= 5
    ensures var e := EnvelopeOf(flags, payload);
            && |e| == 5 + |payload| && e[0] == flags && e[5..] == payload
            && Word(e[1], e[2], e[3], e[4]) == |payload|
    ensures PayloadLength(b) == Word(b[1], b[2], b[3], b[4])
  {
    hide BigEndian;
    BigEndianReadsBack(|payload|);
    assert forall i | 0 <= i < 4 :: EnvelopeOf(flags, payload)[i + 1] == BigEndian(|payload|)[i];
  }

  /** The second bit of the flags marks the end. */
  lemma EndFlag(flags: byte)
    ensures IsEnd(flags) <==> flags % 4 >= 2
  {
  }

  /** Payloads that parse, enveloped one after another, are exactly the events, in order. */
  lemma {:induction false} EnvelopesReadBack(payloads: seq<bytes>, events: seq<Value>, rest: bytes)
    requires |payloads| == |events|
    requires forall i | 0 <= i < |payloads| ::
               |payloads[i]| < LENGTH_LIMIT && ParseDocument(payloads[i]) == Document(events[i])
    ensures Events(Envelopes(payloads) + rest) == Stream(events + Events(rest).events, Events(rest).end)
    decreases |payloads|
  {
    hide ParseDocument, NextFrame, EnvelopeOf;
    if payloads == [] {
      assert Envelopes(payloads) + rest == rest;
      assert events + Events(rest).events == Events(rest).events;
    } else {
      var tail := Envelopes(payloads[1..]) + rest;
      Regroup(EnvelopeOf(0, payloads[0]), Envelopes(payloads[1..]), rest);
      EnvelopeReadsBack(0, payloads[0], tail);
      EventsStep(0, payloads[0], tail, EnvelopeOf(0, payloads[0]) + tail);
      EnvelopesReadBack(payloads[1..], events[1..], rest);
      assert [events[0]] + (events[1..] + Events(rest).events) == events + Events(rest).events;
    }
  }

  /** After the payloads the server may say that the stream is over; nothing behind that is an event. */
  lemma EndedStream(payloads: seq<bytes>, events: seq<Value>, farewell: bytes, rest: bytes)
    requires |payloads| == |events| && |farewell| < LENGTH_LIMIT
    requires forall i | 0 <= i < |payloads| ::
               |payloads[i]| < LENGTH_LIMIT && ParseDocument(payloads[i]) == Document(events[i])
    ensures Events(Envelopes(payloads) + (EnvelopeOf(2, farewell) + rest)) == Stream(events, EndOfStream(farewell))
    ensures Events(Envelopes(payloads)) == Stream(events, RanDry([]))
  {
    hide ParseDocument, NextFrame, EnvelopeOf, Envelopes;
    EnvelopeReadsBack(2, farewell, rest);
    EventsStep(2, farewell, rest, EnvelopeOf(2, farewell) + rest);
    EnvelopesReadBack(payloads, events, EnvelopeOf(2, farewell) + rest);
    EnvelopesReadBack(payloads, events, []);
    NothingIsPartial();
    NoFrame([]);
    assert Envelopes(payloads) + [] == Envelopes(payloads) && events + [] == events;
  }

  /** A payload that is no JSON stops the stream where it stands, whatever comes behind it. */
  lemma BrokenStream(payloads: seq<bytes>, events: seq<Value>, flags: byte, broken: bytes, rest: bytes)
    requires |payloads| == |events| && |broken| < LENGTH_LIMIT
    requires forall i | 0 <= i < |payloads| ::
               |payloads[i]| < LENGTH_LIMIT && ParseDocument(payloads[i]) == Document(events[i])
    requires flags % 4 < 2 && ParseDocument(broken) == Malformed
    ensures Events(Envelopes(payloads) + (EnvelopeOf(flags, broken) + rest)) == Stream(events, Unreadable(broken))
  {
    hide ParseDocument, NextFrame, EnvelopeOf, Envelopes;
    EnvelopeReadsBack(flags, broken, rest);
    EndFlag(flags);
    EventsStep(flags, broken, rest, EnvelopeOf(flags, broken) + rest);
    EnvelopesReadBack(payloads, events, EnvelopeOf(flags, broken) + rest);
    assert events + [] == events;
  }

  /** An envelope of which a part is missing at the end is no event. */
  lemma CutStream(payloads: seq<bytes>, events: seq<Value>, flags: byte, last: bytes, k: nat)
    requires |payloads| == |events| && |last| < LENGTH_LIMIT && k < 5 + |last|
    requires forall i | 0 <= i < |payloads| ::
               |payloads[i]| < LENGTH_LIMIT && ParseDocument(payloads[i]) == Document(events[i])
    ensures |EnvelopeOf(flags, last)| == 5 + |last|
    ensures var part := EnvelopeOf(flags, last)[..k]; Events(Envelopes(payloads) + part) == Stream(events, RanDry(part))
  {
    hide ParseDocument, NextFrame, EnvelopeOf, Envelopes;
    CutFrame(flags, last, k);
    var part := EnvelopeOf(flags, last)[..k];
    NoFrame(part);
    EnvelopesReadBack(payloads, events, part);
    assert events + [] == events;
  }

  lemma CutFrame(flags: byte, last: bytes, k: nat)
    requires |last| < LENGTH_LIMIT && k < 5 + |last|
    ensures |EnvelopeOf(flags, last)| == 5 + |last| && NextFrame(EnvelopeOf(flags, last)[..k]) == Partial
  {
    hide EnvelopeOf, PayloadLength;
    EnvelopeLayout(flags, last, [0, 0, 0, 0, 0]);
    var whole := EnvelopeOf(flags, last);
    EnvelopeLayout(flags, last, whole);
    if k >= 5 {
      SameLength(whole, whole[..k]);
    }
  }

  lemma SameLength(a: bytes, b: bytes)
    requires |a| >= 5 && |b| >= 5 && forall i | 1 <= i < 5 :: a[i] == b[i]
    ensures PayloadLength(a) == PayloadLength(b)
  {
  }
}
