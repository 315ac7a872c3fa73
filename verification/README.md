# The GoRadio plugin, in Dafny

The plugin lets a SA-MP game server run radio stations on an audio server. It carries its own HTTP/1.1 client,
Connect framing, JSON reader and writer, a manager with a worker pool and one stream thread a station, and the
marshalling of callbacks into PAWN scripts. This project models those parts and proves what they promise.

| file | what it is |
|---|---|
| `Bytes.dfy`, `Counting.dfy` | byte strings, `strtoll` and numerals; counting in sequences |
| `Transport.dfy` | a connection as a script of reads and timeouts, and a log of what is done on it |
| `HttpRequest.dfy`, `HttpHeads.dfy` | the bytes of a request; status and header lines written out and read back |
| `HttpFraming.dfy` | lines, heads and bodies as functions of all the bytes to come (RFC 9112 sections 6.3 and 7.1) |
| `Http.dfy` | `HttpConnection`, the same fields and loops as the C++ class, proved against `HttpFraming.dfy` |
| `HttpExtension.dfy` | reading looks no further than it consumes |
| `HttpProperties.dfy`, `KeepAlive.dfy` | truncation, chunks, alignment; calls in turn on one connection, and a request that goes out twice |
| `Connect.dfy`, `Subscription.dfy` | envelopes, unary calls, `EventStream`; a subscription end to end |
| `Json.dfy`, `JsonGrammar.dfy` | the reader as functions; the grammar it accepts as concrete syntax trees (RFC 8259) |
| `JsonReading.dfy`, `JsonTrees.dfy` | the functions accept exactly the grammar and build its tree |
| `JsonAccess.dfy` | what letters, escapes and accessors stand for, in the codes and texts of the format |
| `JsonReader.dfy` | `JsonReader`, the cursor-moving class, proved against the functions |
| `JsonWriter.dfy`, `Station.dfy`, `Commands.dfy` | escaping, `JsonObject`, the requests that register a station and queue a track; all read back |
| `Urls.dfy` | the audio server's address |
| `StatusCache.dfy` | callbacks, the cached status and its extrapolation |
| `ManagerState.dfy` | the manager as a step system over all its threads |
| `ManagerPool.dfy`, `ManagerRequests.dfy`, `ManagerReplies.dfy`, `ManagerStreams.dfy`, `ManagerRegistry.dfy`, `ManagerRuns.dfy` | invariants of every step, and what follows for every run |
| `Monitors.dfy` | a condition-variable wait for a flag: the backoff and the poller's interval |
| `Manager.dfy` | the manager's methods as one thread runs them, as a class |
| `ManagerOperations.dfy`, `ManagerSteps.dfy` | the main thread's operations with all the steps they wait for; the methods of the class are those operations |
| `Amx.dfy` | calling a PAWN public |

`dafny verify dfyconfig.toml` checks all of it.

## How the parts hang together

A connection's future is a ghost sequence of `Data(bytes)` and `Timeout` that ends with a close, and the dials still
to come are a ghost sequence of such scripts. `HttpConnection.Wire` is everything the connection will still yield:
what is buffered and unread, then the script's bytes. Every method is specified by what it does to `Wire`, so its
contract speaks of whole byte strings while its body works a read at a time; how the bytes are cut into reads and
where reads time out never shows in what is read. Where they time out does decide whether a call succeeds: `Arrived`
is the part of `Wire` before the next timeout, and `ReadFullBody`, `BeginPost`, `Post` and `Call` say, with an if and
only if over `Arrived` or over the script of the connection they dial, when they succeed and when the request goes
out again. What goes out is in the transport's log: `Call` and `Open` say of it what a server reads there.
`EventStream` does the same one level up, over decoded bodies.

The manager is a transition system (`Managers.State`, `Step`, `Do`). A section under a mutex is one step; so is each
access to an atomic flag outside one. A worker's section is the exception: it may hold `jobs_mutex_` over several
steps, from the evaluation of its predicate until it is parked. Remote calls are steps with arbitrary outcomes. `Run`
is any interleaving of any length from the start. `created` keeps every station there ever was with a trace of what
its thread did, and `returned` what every call of a worker came back with; these, and the other history fields, are
there to state properties with. The class in `Manager.dfy` runs the same sections as ordinary code; both use the same
definitions of what a job is answered with, what an event folds into the cache, and what settings are acceptable.
`ManagerSteps.dfy` ties the two together: while an object of the class mirrors the last state of a run, any of its
main thread's methods leaves it mirroring the last state of a longer run that goes on with that very operation, the
worker, poller and stream thread steps it waits for included; and it follows every step of every other thread.
Workers may be inside calls and streams open meanwhile. An operation that queues a job asks for the jobs mutex to be
free, since the main thread waits for it. One that joins threads asks that those have nothing left to push or hand in
(`ThreadAtRest`, `PoolAtRest`): a worker inside any call but an unregistration stays outside these operations until
it has pushed its answer, a step the object follows.

## Where the code and its comments part

- `Post` resends not only when the write fails but also when the response's head cannot be read
  (src/http.cpp:939-945), unlike the comment at src/http.cpp:922-925 says. `Http.HttpConnection.Post` says exactly when:
  on an open connection that cannot take the request, or that does not deliver a head before its next timeout.
  `KeepAlive.SentTwice` is a connection on which a request goes out twice; `Http.RetryDiscipline` states what is kept.
- The zero-size chunk ends a body without its final CRLF being consumed (src/http.cpp:831-835), so the next response
  on the connection is misread as a bad head and the request is sent again: `HttpProperties.AlignedUnlessChunked` says
  that the reader is at the next response exactly when the body was not chunked, `KeepAlive.CallAfterChunks` what
  becomes of the call after one that was.
- `ended_` is looked at only when no whole envelope is buffered (src/connect_client.cpp:148-200); claims about a
  stream hold up to the first -1.
- `poller_cv_` is notified without `poller_mutex_` (src/manager.cpp:218), so that wake-up can be lost:
  `Monitors.WakeUpsAreSafeWithTheMutex` proves a wake-up safe exactly when the mutex is held.
- The elapsed time is clamped to the duration only from the first whole second on (src/manager.cpp:470):
  `StatusCache.ElapsedNeverGoesBack` gives the exact condition under which it never jumps back,
  `StatusCache.ElapsedGoesBack` the responses after which it does.
- A chunk-size line that does not begin with a number is read as a zero (src/http.cpp:831), so that a body broken off
  there passes for a complete one: `HttpProperties.NoNumberEndsBody`.
- The errors of the pushes in `Invoke` are not looked at (src/amxutil.cpp:166-168): with room for the strings but not
  for all arguments the public is called with the last of them only. `Amx.AmxCallback.InvokeOn` says how many, and
  `Amx.CalledShort` is such a call.
- `JsonObject` does not escape keys (src/json.cpp:429-439); the reader takes numbers and control characters that
  RFC 8259 does not allow, and a lone surrogate comes out as bytes RFC 3629 does not allow
  (`JsonWriter.Utf8IsWellFormed`).
- A host in brackets with a port behind it is taken whole for a host (src/http.cpp:539): `Urls.BracketedHost`.
- The `continue` for a worker that woke without a job (src/manager.cpp:690) is never taken:
  `ManagerPool.LeavingWorkersLeave`.

## Model

| member | source | states |
|---|---|---|
| Http.HttpConnection.Fill | src/http.cpp:661-674 | One transport read into the buffer loses nothing: buffered plus future bytes are the same before and after, also when the consumed prefix is dropped, and so are those before the next timeout; afterwards the buffer is at most 8192 bytes, what was unread, and 4096 bytes |
| Http.BufferIsBounded | src/http.cpp:661-696 | However long a connection runs its buffer is a consumed prefix of at most 8192 bytes, one line that is to be read or was read to its end, and at most 4096 bytes; in the data of a body at most 4096 bytes are unread |
| Http.HttpConnection.ReadLine | src/http.cpp:676-696 | The line returned is the first line of everything still to come, consumed exactly; a timeout or a close consumes nothing, and a close means there is no further line; the buffer grows to no more than 8192 + 4096 bytes plus that line |
| Http.HttpConnection.ReadStatusAndHeaders | src/http.cpp:698-773 | Succeeds exactly when a head comes before the next timeout, with that head, leaving exactly the bytes after it and the framing that section 6.3 of RFC 9112 derives as the code does; says which failure means what |
| Http.HttpConnection.ReadBody | src/http.cpp:775-885 | Each call appends a non-empty piece of the whole-string decoding, or times out with nothing lost, or ends exactly where the decoding is complete or cut; reading data it grows the buffer to no more than 8192 + 4096 bytes |
| Http.HttpConnection.ReadLengthBody | src/http.cpp:784-807 | Content-Length framing as one piece of the decoding |
| Http.HttpConnection.ReadChunkedBody | src/http.cpp:809-861 | Chunked framing as one piece of the decoding, across blank lines, sizes and data, resumable at any byte |
| Http.HttpConnection.ReadBodyUntilClose | src/http.cpp:863-883 | Without framing the close is the end, not a cut |
| Http.HttpConnection.ReadFullBody | src/http.cpp:887-902 | True exactly when the whole body comes before the next timeout (for an unframed body: and no timeout before the close), then with the decoded body consumed to its end; a cut body is reported as lost and never as success |
| Http.HttpConnection.Close | src/http.cpp:602-610 | Nothing of the connection is left to read |
| Http.HttpConnection.EnsureConnected | src/http.cpp:618-629 | An open connection is left alone; a new one starts with an empty buffer and only the new connection's bytes |
| Http.HttpConnection.SendRequest | src/http.cpp:631-659 | Sends the composed request once, or fails, and reads nothing |
| HttpRequests.Compose | src/http.cpp:631-659 | The loop over the headers writes the request's text: request line, host without a default port, the fixed lines, the length, the caller's headers, an empty line, the body |
| HttpRequests.RequestReadsBack | src/http.cpp:631-659 | Read by the rules of a message head, the text gives back the line "POST path HTTP/1.1", its headers in order, and a body of exactly the length announced, whatever follows |
| HttpRequests.RequestReads | src/http.cpp:631-659 | Whatever can be written into a head is read as: POST and the base path with the path; host (with its port unless the scheme's own), user-agent, connection and content-length; the caller's headers under lower-case names; the body |
| HttpHeads.LengthAnnounced | src/http.cpp:643-649 | A Content-Length line announces its length unless another one stands behind it |
| Http.HttpConnection.BeginPost | src/http.cpp:904-918 | Exactly one send of exactly this request, after a dial if none was open, and then a head read or a hang-up. Succeeds exactly when the open connection, or else the one dialled for this, takes the request and delivers a head before its next timeout; then with that head, at the byte after it; on failure the connection is closed |
| Http.HttpConnection.Attempt | src/http.cpp:931-953 | One attempt on an open connection: its operations, that it succeeds exactly when the request is taken and a whole answer is in time, the answer it returns, what each failure implies about the bytes |
| Http.HttpConnection.Post | src/http.cpp:920-956 | Which bytes the answer was read from; a second request exactly when the open connection does not take the first or delivers no head before its next timeout; success exactly when the connection that counts, reused or freshly dialled, delivers a whole answer in time; what that connection has left when it stays open |
| Http.RetryDiscipline | src/http.cpp:920-956 | Every trace `Post` can make sends at most twice, the second time only after the reused connection was hung up and a new one dialled, and never after a head was read |
| Http.ResendSends | src/http.cpp:939-945 | A resend does put a second request on the wire exactly when the new dial is accepted |
| HttpExtension.DecodeExtends | src/http.cpp:784-861 | Bytes after the end of a framed body do not change it and are left over |
| HttpExtension.DecodeConsumed | src/http.cpp:784-861 | A complete framed body is already complete in the bytes it consumes |
| HttpProperties.TruncationIsSeen | src/http.cpp:784-902 | A framed body cut by a close at any point is taken for complete if and only if all the bytes it consumes arrived |
| HttpProperties.ResponseExtends | src/http.cpp:698-807 | A response that says where it ends is read the same whatever follows, and leaves exactly that |
| HttpProperties.TruncatedResponse | src/http.cpp:887-956 | No proper prefix of such a response passes for a response |
| HttpProperties.LengthFramedIsSelfContained | src/http.cpp:759-765 | A head framing n bytes, zero included, followed by n bytes is such a response |
| HttpProperties.ContentLengthResponse | src/http.cpp:738-765 | A response written with a status line for n and a Content-Length line for its body, whatever other lines around it but no other length behind it and no chunked coding, is such a response and is read back as n, its headers and body |
| HttpProperties.NoContentResponse | src/http.cpp:766-771 | A response that announces no framing has no body when its status is 204 or 304, and else everything up to the close |
| HttpHeads.HeadReadsBack | src/http.cpp:698-752 | A status line and header lines written out are read back as the status line's status and the normalised headers |
| HttpHeads.StatusReads | src/http.cpp:698-752 | "HTTP/", any version, a space, the digits of n, nothing or a space and any reason, and header lines: read as the status n and those headers |
| HttpHeads.BadStatusLine | src/http.cpp:707-712 | Any first line that does not begin with "HTTP/" or has no space is no head |
| HttpHeads.HeaderReads | src/http.cpp:724-752 | A header line is its name in lower case and its value without the blanks around it |
| HttpHeads.ChunkedAnnounced | src/http.cpp:746-758 | A "Transfer-Encoding: chunked" line makes the body chunked whatever length is announced |
| HttpHeads.ChunkedAmongOthers | src/http.cpp:757-758 | Also when the coding stands among others |
| HttpHeads.NothingAnnounced | src/http.cpp:766-771 | Where neither a length nor chunks are announced a body ends at once for 204 and 304 and else with the connection |
| HttpHeads.ConnectionAnnounced | src/http.cpp:950 | The first Connection line has the value that tells whether the server will hang up |
| HttpProperties.ChunksReadBack | src/http.cpp:809-861 | Chunks of any size with any extensions decode to their data in order |
| HttpProperties.ChunkedBody | src/http.cpp:827-835 | A chunked body up to its zero-size line decodes to its payload; what follows that line is left unread |
| HttpProperties.SizeEndsBody | src/http.cpp:827-835 | A chunk-size line ends the body if and only if the number at its front is not positive |
| HttpProperties.NoNumberEndsBody | src/http.cpp:827-835 | A line with no number at its front makes the chunks before it pass for a whole body |
| HttpProperties.ChunkedBodyMisaligns | src/http.cpp:827-835 | After a well-formed chunked body with any trailer section that does not begin like a status line the next head on the connection is misread |
| HttpProperties.AlignedUnlessChunked | src/http.cpp:754-861 | A response with no content, a counted body, or chunks with any extensions and trailer lines is read with its body, and the reader is then at the next response if and only if the body was not chunked |
| KeepAlive.NextResponse | src/http.cpp:698-807 | Of responses back to back the first is read as itself and the others are left |
| KeepAlive.CallInTurn | src/http.cpp:920-956 | When nothing is late and no send fails, on an open connection or on the one the first call dials, the k-th call returns exactly the k-th body and the buffer ends at the byte after the last response |
| KeepAlive.CallsInTurn | src/http.cpp:920-956 | On an open connection or on the one the first call dials, with timeouts anywhere and any number of sends: the first n calls return exactly the first n bodies, n being as many as the connection takes requests and delivers responses before its first timeout; if that is all, the buffer is at the byte after the last |
| KeepAlive.InTimeWhenArrived | src/http.cpp:887-902 | A self-delimited response is in time if and only if all of it comes before the next timeout |
| KeepAlive.CallAfterChunks | src/http.cpp:827-945 | On any connection on which a chunked response was read, the next request goes out, gets no head, and goes out again on a new connection |
| KeepAlive.SentTwice | src/http.cpp:922-945 | One such connection, and the two sends of the same request on it |
| Connect.Envelope | src/connect_client.cpp:56-67 | Flags 0, the length in four bytes big-endian, the payload |
| Connect.EnvelopeReadsBack | src/connect_client.cpp:56-67 | Taking the first envelope off enveloped bytes gives the flags and the payload back and leaves the rest |
| Connect.BigEndianReadsBack | src/connect_client.cpp:154-157 | The four length bytes are worth 2^24, 2^16, 2^8 and 1, and give the length back |
| Connect.EnvelopeLayout | src/connect_client.cpp:56-67 | An envelope is its flags, the length in big-endian and the payload; a received length is read from the same four bytes |
| Connect.Call | src/connect_client.cpp:74-101 | What is sent, at most twice, is that call: POST to the RPC's path under the service's, the three headers with the token, the JSON. The outcome is what the whole answer at the front of the wire says, of the open connection or of the one dialled, when that answer is in time, and unavailable otherwise; so nothing is returned but a document that a whole answer with status 200 carried |
| Connect.CallIsRead | src/connect_client.cpp:69-83 | The text of a call, read as a request: path, content-type application/json, connect-protocol-version 1, authorization "Bearer " and the token, and the JSON |
| Connect.Judge | src/connect_client.cpp:85-101 | The outcome of a whole answer: its document when the status is 200, else the code in its body |
| Connect.CodeOf | src/connect_client.cpp:19-46 | The code of a refusal, internal when the body has none |
| Connect.OnlyOkReturns | src/connect_client.cpp:85-101 | A document is returned if and only if the status is 200 and the body is one; a 200 without one is unavailable |
| Connect.RefusalCode | src/connect_client.cpp:19-46 | Any other status has the code in the body's first "code" member, and internal when there is no object or no such member |
| Connect.FarewellCode | src/connect_client.cpp:169-181 | An end of stream has the code in its error, internal when that has none, unavailable when there is no error |
| Connect.EventStream.TakeFrame | src/connect_client.cpp:148-164 | A whole buffered envelope is taken and nothing else, also when the consumed prefix is dropped; the unread position stays within 65536 |
| Connect.EventStream.Open | src/connect_client.cpp:106-144 | Exactly one request goes out, after a dial if none was open, and for an address and a token that can be written into a head and a slug whose object fits an envelope it is the subscription to this slug. Succeeds exactly when the open connection, or else the one dialled, takes the request and answers 200 before its next timeout; the stream's future is then the decoded body of that response and nothing earlier; any other answer is drained, for as long as it comes, and its code reported |
| Connect.SubscribeIsRead | src/connect_client.cpp:111-124 | The text of a subscription, read as a request: POST to .../SubscribeEvents, the three headers with the token, and one envelope around the object {"slug": slug} |
| Connect.EventStream.ComposeSubscribe | src/connect_client.cpp:113-124 | The subscription as a request: its path, headers with the token, and one envelope around the slug's object |
| Connect.EventStream.Extend | src/connect_client.cpp:203-211 | One body read of at most 4096 bytes onto the buffer keeps the stream's future; what was unread, not a whole envelope, is what `Valid` bounds the buffer by |
| Connect.PendingIsBounded | src/connect_client.cpp:146-211 | However long a stream runs its buffer is at most 65536 bytes, the one envelope at its read position, and one body read of 4096 bytes |
| Connect.EventStream.EndOfStreamCode | src/connect_client.cpp:169-181 | The error code an end-of-stream payload is reported with |
| Connect.EventStream.Read | src/connect_client.cpp:146-213 | Each call yields the next event of the whole-string decoding, or times out without losing any, or ends exactly where the decoding does, with the code of the end-of-stream envelope if that is what ends it and unavailable if not |
| Connect.EnvelopesReadBack | src/connect_client.cpp:146-213 | Enveloped payloads that parse decode to exactly their values in order |
| Connect.EndedStream | src/connect_client.cpp:169-181 | With or without an end-of-stream envelope behind them the payloads are all the events; nothing behind it is one |
| Connect.BrokenStream | src/connect_client.cpp:184-193 | A payload that is no JSON stops the stream where it stands, whatever comes behind it |
| Connect.CutStream | src/connect_client.cpp:146-211 | An envelope that is cut off at any byte is no event; those before it are |
| Subscription.StreamDecodes | src/http.cpp:698-861 | A chunked response with a status line for 200 is read as its head and the payload of its chunks |
| Subscription.ReadEvents | src/manager.cpp:970-988 | The read loop collects a prefix of the stream's events, and all of them when it runs to the end |
| Subscription.StatusInTime | src/connect_client.cpp:126-135 | The status in the bytes before the first timeout is the status of the whole head |
| Subscription.Subscribe | src/connect_client.cpp:106-213 | End to end: one subscription to this station goes out; the stream opens exactly when the connection is made, takes the request and delivers its head in time; then, however envelopes are cut into chunks, the wire into reads, and timeouts inserted, the events read are the parsed payloads in order, nothing from an earlier stream among them, and all of them at the end |
| JsonReaders.JsonReader.Document | src/json.cpp:36-48 | The class accepts exactly what `Json.ParseDocument` accepts, with its value |
| JsonReaders.JsonReader.ParseValue | src/json.cpp:80-112 | Reads what the value function reads from the rest of the input, to the same position, within the depth limit |
| JsonReaders.JsonReader.ParseObject | src/json.cpp:114-155 | Likewise for an object, member by member |
| JsonReaders.JsonReader.ParseArray | src/json.cpp:157-185 | Likewise for an array, element by element |
| JsonReaders.JsonReader.ParseHex4 | src/json.cpp:187-208 | Four hexadecimal digits or nothing consumed |
| JsonReaders.JsonReader.ParseUnicodeEscape | src/json.cpp:235-256 | One code unit, or a surrogate pair as one character; a high surrogate with no low one leaves what follows unread |
| JsonReaders.JsonReader.ParseString | src/json.cpp:210-262 | Reads what the string function reads, up to just after the closing quote |
| JsonReaders.JsonReader.ParseNumber | src/json.cpp:264-287 | The longest run of number bytes, kept as text |
| JsonReading.NumberReads | src/json.cpp:264-287 | A run of number bytes is read whole when what follows cannot belong to it |
| JsonReading.UnitThenUnit | src/json.cpp:243-254 | Two escaped code units are one character exactly when they are a high and a low surrogate; otherwise the second is read on its own |
| JsonReading.UnitAlone | src/json.cpp:235-256 | A code unit with no escape behind it stands for itself |
| JsonReading.CharsRead | src/json.cpp:210-262 | Any string of the grammar is read as its meaning, up to its closing quote |
| JsonReading.CharsSound | src/json.cpp:210-262 | Any string that is read is one of the grammar and means what was read |
| JsonTrees.ValueReads | src/json.cpp:80-185 | The text of any tree is read as its meaning if it fits under the depth limit, and refused if not |
| JsonTrees.ValueSound | src/json.cpp:80-185 | Whatever is read is the text of some tree within the limit, with that meaning |
| JsonTrees.DocumentReads | src/json.cpp:36-48 | A document of the grammar is accepted as its meaning exactly when its values sit within depth 64 |
| JsonTrees.DocumentSound | src/json.cpp:36-48 | Whatever is accepted is a document of the grammar within that depth |
| JsonTrees.AcceptsExactlyTheGrammar | src/json.cpp:36-287 | A text is accepted with a value if and only if a document of the grammar within the limit has that text and that meaning |
| JsonTrees.Unambiguous | src/json.cpp:36-287 | No text has two meanings |
| JsonTrees.ShallowerToo | src/json.cpp:80-84 | What is accepted at a depth is accepted above it with the same value |
| JsonAccess.BlanksAre | src/json.cpp:60-69 | White space is exactly tab, line feed, carriage return and blank |
| JsonAccess.BlanksAround | src/json.cpp:36-48 | Any of these before a document make no difference |
| JsonAccess.NumberBytesAre | src/json.cpp:264-280 | Numbers are made of exactly 0123456789.eE+- |
| JsonAccess.EscapesRead | src/json.cpp:222-234 | The eight one-letter escapes, each with the byte it stands for |
| JsonAccess.NoOtherEscapes | src/json.cpp:222-260 | A backslash before any letter but these and u is refused |
| JsonAccess.UnitsAre | src/json.cpp:187-254 | The weight of each digit of a code unit, and the character of a surrogate pair |
| JsonAccess.FirstMemberFound | src/json.cpp:357-364 | A lookup finds the first member of a name, and null when there is none |
| JsonAccess.FlagReads | src/json.cpp:314-388 | An object with true or false in it is read so by the accessors for flags, texts and numbers |
| JsonAccess.TextsAndNumbers | src/json.cpp:314-383 | Texts and numbers as each accessor gives them, every 64-bit number included; a text is true exactly when it says so |
| JsonAccess.NumbersTrue | src/json.cpp:344-350 | A number is true if and only if one of its digits, up to anything but its first point, is not zero |
| JsonWriter.JsonEscape | src/json.cpp:399-427 | Writes the escaped form, byte by byte |
| JsonWriter.EscapedReadsBack | src/json.cpp:399-427 | Every byte string survives being escaped, quoted and read, and reading stops just after the closing quote |
| JsonWriter.UnicodeEscapeReadsBack | src/json.cpp:235-256 | The escape of every Unicode scalar value, a pair above U+FFFF, is read as its UTF-8 encoding |
| JsonWriter.Utf8IsWellFormed | src/json.cpp:12-28 | The bytes appended decode back, by section 3 of RFC 3629, to the code point, and for surrogates to nothing |
| JsonWriter.JsonObject.Str | src/json.cpp:429-439 | Appends one member to the calls made so far and their text |
| JsonWriter.JsonObject.Int | src/json.cpp:448-459 | Likewise an integer member |
| JsonWriter.JsonObject.Raw | src/json.cpp:472-481 | Likewise a member that is already JSON |
| JsonWriter.JsonObject.Build | src/json.cpp:483-485 | The object of the calls made, in order |
| JsonWriter.PlainKeyReads | src/json.cpp:429-481 | A key without quotes or backslashes needs no escaping |
| JsonWriter.EscapedKeyReads | src/station.cpp:48-52 | An escaped key stands for what was escaped |
| JsonWriter.BuilderReadsBack | src/json.cpp:429-485 | What is built from any well-used calls, nested objects included, is read back as exactly those members in call order |
| JsonWriter.IntReadsBack | src/json.cpp:322-332 | Every 64-bit integer written is read back by the integer accessor, bare or quoted |
| Bytes.StrtollDecimal | src/http.cpp:761 | Every 64-bit integer in decimal is read back by strtoll |
| Bytes.StrtollHex | src/http.cpp:831 | Every non-negative one in hexadecimal too |
| Bytes.StrtollReads | src/http.cpp:716-761 | Blanks, a sign, decimal digits, anything that is no digit: the number, kept within 64 bits |
| Bytes.StrtollReadsHex | src/http.cpp:831 | Blanks, a sign, perhaps 0x, hexadecimal digits of either case, anything else: the number, kept within 64 bits |
| Stations.Station.SetMetadata | src/manager.cpp:388-392 | An empty value removes the key, another one replaces it |
| Stations.Station.MetadataJson | src/station.cpp:41-56 | One string member an entry, keys and values escaped, in iteration order |
| Stations.Station.RegisterRequestJson | src/station.cpp:58-71 | The request as builder calls, optional fields left out when unset |
| Stations.MetadataReadsBack | src/station.cpp:41-56 | Metadata of any keys and values is read back as the same map |
| Stations.RequestReadsBack | src/station.cpp:58-71 | The request is read back, under the literal keys, as the slug, name, optional fields and metadata map, whatever bytes they hold; each optional field is there if and only if it is set |
| Commands.QueueTrackJson | src/manager.cpp:522-538 | The request as builder calls, the source object inside it |
| Commands.KeyFinds | src/json.cpp:357-364 | Under plain distinct keys each lookup in a built object finds what was put there, or nothing where the call left it out |
| Commands.QueueTrackReadsBack | src/manager.cpp:522-538 | The request is read back, under the literal keys, as the slug, the mode, and a source with its inferred type and each text, whatever bytes they hold; an empty title, artist or cover art is not sent |
| Commands.SourceTypesAre | src/manager.cpp:23-32 | A location that begins with http:// or https:// is an HTTP source, any other a local file |
| Commands.QueueModesAre | src/station.cpp:7-17 | 1 plays next, 2 interrupts, anything else appends |
| Urls.Parse | src/http.cpp:505-566 | The step-by-step reader of addresses computes `ParseUrl` |
| Urls.AcceptedIsNormal | src/http.cpp:505-566 | What is accepted has scheme http or https, a host, a port in 1..65535 and a path that is empty or starts with a slash and does not end with one |
| Urls.FullUrlReads | src/http.cpp:505-566 | scheme://host:port/path, for the schemes http and https, is read as exactly its parts for hosts without colon, slash or closing bracket, and refused if the port is not in 1..65535 |
| Urls.DefaultPorts | src/http.cpp:505-566 | Without a port it is 80 for http and 443 for https |
| Urls.NoScheme | src/http.cpp:513-522 | Without a scheme it is read as http |
| Urls.OtherSchemes | src/http.cpp:517-521 | Any other scheme is refused |
| Urls.EndIgnored | src/http.cpp:505-511 | Blanks and slashes at the end make no difference |
| Urls.NotAPort | src/http.cpp:535-550 | What stands behind the last colon but is not a number belongs to the host |
| Urls.BracketedHost | src/http.cpp:539-555 | A bracketed host loses its brackets, unless a port stands behind it: then the whole is a host on the default port |
| StatusCache.OneCallbackEach | src/manager.cpp:1012-1116 | Exactly one callback, of the kind that goes with it, for each known event type and none for any other |
| StatusCache.StartedSays | src/manager.cpp:1018-1045 | A track that starts is announced with its fields as the event has them, and the cache plays it from its beginning |
| StatusCache.EndedSays | src/manager.cpp:1046-1061 | One that ends with its id and the reason; the cache holds no track then |
| StatusCache.CountsSay | src/manager.cpp:1062-1093 | Queue and listener counts and both numbers of QUEUE_LOW, bare or quoted, in the callback and in the cache |
| StatusCache.OthersSay | src/manager.cpp:1094-1116 | The silence events set the flag they name; an error carries its code and message |
| StatusCache.SnapshotSays | src/manager.cpp:819-836 | Each scalar field of a response, and its default |
| StatusCache.SnapshotTracks | src/manager.cpp:834-855 | The current track, queue and history of a response, track by track, with the reasons |
| StatusCache.TrackSays | src/station.cpp:19-29 | A track's own members and those of its source |
| StatusCache.QueueLengthIsTheLatest | src/manager.cpp:1062-1072 | Over any run of updates the queue length is that of the last snapshot or QUEUE_UPDATED event, whichever came later |
| StatusCache.QueueIsTheLastSnapshots | src/manager.cpp:839-855 | The queue and the history are those of the last snapshot |
| StatusCache.ElapsedNeverGoesBack | src/manager.cpp:463-477 | Between updates the elapsed time never goes back if and only if the cache was not set past a known duration |
| StatusCache.ElapsedGoesBack | src/manager.cpp:463-477 | The responses after which it does: for any duration and any greater elapsed time, readers see the latter and a second later the former |
| StatusCache.ElapsedAdvances | src/manager.cpp:456-479 | While a track plays the k-th whole second after the update adds k to the elapsed time, held at a known duration; nothing else of the status changes, and nothing at all when paused or idle |
| StatusCache.ElapsedStaysWithin | src/manager.cpp:470-476 | While playing, a known duration is never passed if and only if the cache was not set past it |
| StatusCache.OverrunComesFromASnapshot | src/manager.cpp:1018-1060 | Events never set the cache past the end; only a snapshot can |
| StatusCache.ReadingsAdvance | src/manager.cpp:456-479 | Between track events and snapshots readings never go back and never pass the duration, whatever other events arrive |
| ManagerClass.Manager.Configure | src/manager.cpp:61-118 | Accepted exactly when no station exists, the token is not empty, the address is one, and https only with TLS; then the pool has max(1, workers) connections with that address, token and timeout and the queue only the version check; rejected, nothing changes |
| ManagerClass.Manager.Reload | src/manager.cpp:120-163 | Which of the three results when, the settings compared in everything but the poll interval; a rejected or partial reload changes at most the poll interval, and that only while running |
| ManagerClass.Manager.StopWorkers | src/manager.cpp:207-239 | The queue and the pool are emptied, the rest untouched, and nothing happens when not running |
| ManagerClass.Manager.Shutdown | src/manager.cpp:165-201 | Every station is told to stop and leaves the registry, the pool stops, no id is given back |
| ManagerClass.Manager.CreateStation | src/manager.cpp:303-342 | A fresh id and a station with these fields and a connection with the settings' address, token and timeout, exactly when the slug is not empty, a server is configured and the slug is not taken; else nothing changes |
| ManagerClass.Manager.DestroyStation | src/manager.cpp:344-380 | The station leaves the registry, is told to stop, and exactly one UnregisterStation is enqueued; an unknown id changes nothing |
| ManagerClass.Manager.FindStationBySlug | src/manager.cpp:282-291 | The station with the slug if and only if there is one |
| ManagerClass.Manager.SetMetadata | src/manager.cpp:382-394 | Only the station's metadata changes, and only at the key; an unknown id changes nothing |
| ManagerClass.Manager.ClearMetadata | src/manager.cpp:396-404 | Only the station's metadata changes |
| ManagerClass.Manager.UpdateStation | src/manager.cpp:406-425 | The fields are replaced and one registration job handed in; an unknown id changes nothing |
| ManagerClass.Manager.EnqueueCommand | src/manager.cpp:486-508 | The next id and one job that carries it; 0 and nothing for an unknown station |
| ManagerClass.Manager.RefreshStatus | src/manager.cpp:637-662 | Likewise for a status job |
| ManagerClass.Manager.RequestStationList | src/manager.cpp:664-678 | Likewise for a listing, when configured |
| ManagerClass.Manager.TakeJob | src/manager.cpp:692-693 | The job at the front of the queue, and the rest of it |
| ManagerClass.Manager.IssueRequest | src/manager.cpp:502-505 | The next number |
| ManagerClass.Manager.Tick | src/manager.cpp:263-269 | Everything waiting is handed over in order and the queue is empty |
| ManagerClass.Manager.ApplyStatus | src/manager.cpp:819-858 | The loops over queue and history build the snapshot of the response |
| ManagerClass.Manager.Finish | src/manager.cpp:705-816 | A command or queued track: one event that reports the outcome of the call (`ManagerRequests.Reports`), and after a failure exactly one error event with the code and message; any other job that failed, but for an unregistration: that error alone. The cache, version and list change for their kinds of job only, the list to what the response's members say |
| ManagerClass.Manager.DispatchStationEvent | src/manager.cpp:1012-1116 | The cache is adjusted, the one callback pushed, and a status job enqueued exactly when the track changed and the station is still registered |
| ManagerClass.Manager.GetStatus | src/manager.cpp:456-479 | The cache carried forward to now, a second for each whole second while a track plays; the station's own copy is not changed |
| ManagerOperations.Configures | src/manager.cpp:61-118 | From any reachable state a run goes on by configuring: a pool that runs is stopped and joined, which its workers and the poller must be able to leave silently, a new one comes up, the version check is queued; or, refused, nothing changes |
| ManagerOperations.Destroys | src/manager.cpp:344-380 | From any reachable state a run goes on by destroying: the station's thread, wherever it stands with nothing left to push, ends and is joined, the station is out, its unregistration queued |
| ManagerOperations.Halts | src/manager.cpp:165-201 | Likewise by shutting down: every station's thread and the pool are told to stop and joined, and nothing is left but the ids used |
| ManagerOperations.OthersShow | src/manager.cpp:680-1116 | Every step of every other thread, from any reachable state, changes what is seen of the manager in one of four ways or not at all |
| ManagerOperations.WorkerAnswers | src/manager.cpp:696-816 | A call that returns is followed by pushing exactly what answers its job |
| ManagerOperations.StreamHears | src/manager.cpp:970-1116 | An event read is followed by its callback and, when the track changed and the station is registered, by one status job with the next id |
| ManagerSteps.Begin | src/manager.cpp:41-42 | A new manager mirrors the start of a run |
| ManagerSteps.Configure | src/manager.cpp:61-118 | An object that mirrors a run's last state mirrors, after this call, the last state of a longer run that goes on with this operation; so it is for a pool that is stopped, joined and started anew |
| ManagerSteps.Reload | src/manager.cpp:120-163 | Likewise, whichever of its results it comes to |
| ManagerSteps.Shutdown | src/manager.cpp:165-201 | Likewise, with the threads of all stations, reading or not, and the pool joined |
| ManagerSteps.Tick | src/manager.cpp:263-269 | Likewise, and what is handed over is what the run delivers by it |
| ManagerSteps.CreateStation | src/manager.cpp:303-342 | Likewise, taken or refused |
| ManagerSteps.DestroyStation | src/manager.cpp:344-380 | Likewise, with the stream thread, reading or not, joined and the unregistration handed in |
| ManagerSteps.UpdateStation | src/manager.cpp:406-425 | Likewise, with the registration handed in |
| ManagerSteps.EnqueueCommand | src/manager.cpp:486-508 | Likewise, and the id returned is the one the run issues for exactly this job |
| ManagerSteps.RefreshStatus | src/manager.cpp:637-662 | Likewise |
| ManagerSteps.RequestStationList | src/manager.cpp:664-678 | Likewise |
| ManagerSteps.Follow | src/manager.cpp:680-1116 | An object that mirrors a run's last state follows any single step of any other thread, by the section that step runs |
| ManagerSteps.Finish | src/manager.cpp:705-816 | It follows a worker from the return of a call to the last answer pushed |
| ManagerSteps.DispatchStationEvent | src/manager.cpp:1012-1116 | It follows a stream thread from an event read to the status job handed in |
| ManagerPool.StepKeepsShape | src/manager.cpp:680-694 | Every step keeps: one holder of the jobs mutex at most, no worker parked or parking after the notification of a stop, no worker or poller while stopped |
| ManagerPool.StepKeepsCovered | src/manager.cpp:241-247 | Every step keeps: while any worker is parked each queued job has a notification to come or a worker on its way |
| ManagerPool.NoneSleepsThroughAStop | src/manager.cpp:207-229 | On every run, once StopWorkers has notified, no worker is parked or about to be until all are joined |
| ManagerPool.NoJobIsSleptOn | src/manager.cpp:241-247 | On every run, while a worker is parked, queued jobs are at most the notifications to come plus the workers on their way |
| ManagerPool.AllParkedMeansNothingQueued | src/manager.cpp:680-694 | Hence when all workers are parked and no Enqueue is between push and notify the queue is empty |
| ManagerPool.LeavingWorkersLeave | src/manager.cpp:686-691 | A worker that woke for the stop with an empty queue exits; the loop's `continue` is never taken |
| ManagerRequests.StepKeepsTruth | src/manager.cpp:486-547 | Every step keeps: whatever carries an id carries that of the job it was issued for, and an answer reports what some call with that id returned |
| ManagerRequests.StepKeepsPlaced | src/manager.cpp:680-760 | Every step keeps each id in one place at most, and a command's in exactly one |
| ManagerRequests.ExactlyOnePlace | src/manager.cpp:486-547 | On every run each issued command or queued track is in exactly one of: its caller's hand, the queue, a worker, one answering event waiting or delivered, the jobs StopWorkers dropped |
| ManagerRequests.AnsweredAtMostOnce | src/manager.cpp:706-760 | No two events ever answer the same id |
| ManagerRequests.AnswersReportOnTheirJob | src/manager.cpp:715-760 | An answer is about the job its id was given out for and about what a call for it returned: same station, the command's name; a failure as false and 0; a command's flag and number by the response's members; a track's id, status and position |
| ManagerRequests.AnswersReport | src/manager.cpp:714-760 | What a worker pushes for a command or track: one such report, and after a failure the error event with its code and message |
| ManagerRequests.OthersReport | src/manager.cpp:708-816 | And for every other kind of job, event by event |
| ManagerRequests.ReregisteringTells | src/manager.cpp:696-703 | A worker that registers a station again announces it with the number 0, or pushes the error it gave up for |
| ManagerReplies.CalledAtMostOnce | src/manager.cpp:680-733 | On every run no command and no queued track is called twice |
| ManagerReplies.AnswersTellWhatReturned | src/manager.cpp:706-760 | Hence what an answer reports is what the one call for its id returned |
| ManagerRequests.IdsAreNeverReused | src/manager.cpp:502-505 | Ids are 1, 2, 3, ... in the order they are given out and keep their job for ever |
| ManagerStreams.MoveKeepsOrder | src/manager.cpp:860-1010 | Every step of a stream thread keeps registrations and subscriptions alternating, and its position tells how far it is |
| ManagerStreams.MoveKeepsClosing | src/manager.cpp:905-958 | Every step keeps: nothing is sent after a permanent failure |
| ManagerStreams.MoveKeepsPushing | src/manager.cpp:891-988 | Every step keeps: what was pushed and is still to be pushed is what the thread's past calls for, in order |
| ManagerStreams.MoveKeepsBackoff | src/manager.cpp:862-917 | Every step keeps each wait that of the number of failures before it |
| ManagerStreams.BackoffIs | src/manager.cpp:18-21 | The k-th backoff, counted from 0, is min(1000 * 2^k, 30000) |
| ManagerStreams.MoveKeepsPauses | src/manager.cpp:941-1008 | Every step keeps: each wait in front of a subscription is that of the refusals before it, a reconnect counted as one |
| ManagerStreams.MoveKeepsAsking | src/manager.cpp:939-1116 | Every step keeps: the status is asked for once for each registration and track change, before anything else but the push |
| ManagerStreams.MoveKeepsLink | src/manager.cpp:921-1009 | Every step keeps: events are heard on a stream only, calls made without one, and a stream once lost is followed by a reconnect |
| ManagerStreams.CalledForSays | src/manager.cpp:879-886 | What a registration, a refusal and an event read call for, in the events' own fields |
| ManagerStreams.CodesThatEnd | src/connect_client.h:30-33 | A failed registration or subscription ends the thread if and only if its code is unauthenticated, permission_denied or invalid_argument; else the thread waits and goes on |
| ManagerStreams.CodesThatStopAWorker | src/manager.cpp:696-703 | A worker that registers a station again stops trying for these three codes only |
| ManagerRegistry.StepKeepsRegistry | src/manager.cpp:303-380 | Every step keeps: distinct slugs, a thread not ended belongs to a station registered or being taken down, a registered station is not unregistered |
| ManagerRegistry.StepKeepsSettings | src/manager.cpp:61-163 | Every step keeps: the pool and all stations connected as the settings say, except a pool being replaced while there are no stations |
| ManagerRegistry.ReloadKeepsSettings | src/manager.cpp:120-163 | Reload touches connection settings only by configuring anew with no station |
| ManagerRegistry.LiveIdsAreAll | src/manager.cpp:172-180 | Shutdown takes every registered station |
| ManagerRuns.RegistersBeforeEachSubscribe | src/manager.cpp:921-1010 | On every run a station's thread has one successful registration before its first subscription and one between any two; only the first is not a reconnect |
| ManagerRuns.NothingSentAfterARefusal | src/manager.cpp:905-958 | After a permanent failure only the error event and the main thread's unregister follow; the thread has ended |
| ManagerRuns.NothingAfterUnregister | src/manager.cpp:356-376 | Once a station's UnregisterStation is made, its thread has ended and does nothing more; the station is out of the registry |
| ManagerRuns.UnregisteredAtMostOnce | src/manager.cpp:344-376 | At most one UnregisterStation is ever enqueued for an id |
| ManagerRuns.WaitsDouble | src/manager.cpp:862-917 | Every wait of every registration is min(1000 * 2^k, 30000) ms for the k failures before it |
| ManagerRuns.PausesDouble | src/manager.cpp:941-1008 | Every wait after a refused subscription is min(1000 * 2^k, 30000) ms for the k refusals since the last registration, a reconnect counted as one; that after a reconnect is 1000 |
| ManagerRuns.RegistersAfterEachLoss | src/manager.cpp:970-1005 | On every run events are heard only while subscribed and calls made only while not, and the first thing a thread does after it lost a stream, unless it ends, is to register again, as a reconnect |
| ManagerRuns.StatusIsAskedFor | src/manager.cpp:939-1007 | On every run the status is asked for exactly once after each registration and each start or end of a track, before the thread waits, calls or reads again |
| ManagerRuns.EventsAreConserved | src/manager.cpp:249-269 | What the main thread was given followed by what is waiting is everything ever pushed, in order |
| ManagerRuns.StreamEventsInOrder | src/manager.cpp:970-988 | What a stream thread pushed and has yet to push is exactly what its registrations, refusals and received events call for, in order |
| ManagerRuns.RegistrationsAreToldApart | src/manager.cpp:879-886 | Of the registered callbacks a stream thread pushes the first has the number 0 and every later one 1 |
| ManagerRuns.DeliveredInWireOrder | src/manager.cpp:263-269 | What Tick has handed over from one stream is a prefix of that |
| ManagerRuns.ConnectedAsConfigured | src/manager.h:76-80 | On every run, while a station exists, the manager runs with max(1, workers) connections, all of them and the station's own with the settings' address, token (not empty) and timeout; the settings are, but for the poll interval, those it was created under |
| ManagerRuns.SlugsAreDistinct | src/manager.cpp:315-318 | No two registered stations share a slug, in any reachable state |
| ManagerRuns.StationIdsAreNeverReused | src/manager.cpp:326 | An id stands for one station for ever and does not come back to the registry once it left |
| ManagerRuns.TheManagerStarts | src/manager.cpp:61-118 | There is a run on which usable settings bring the pool up and queue the version check |
| ManagerRuns.AStationIsHeard | src/manager.cpp:921-988 | And one on which a station registers, subscribes and hears an event, and the main thread is given what it pushed |
| Monitors.StaysAwake | src/station.cpp:31-39 | With the mutex held for the notification no waiter is parked or goes on to park after it, on every run |
| Monitors.WakeUpsAreSafeWithTheMutex | src/station.cpp:36-39 | No wake-up is lost on any run if and only if the notifying thread holds the mutex |
| Monitors.SleepsThrough | src/manager.cpp:1128-1132 | The run on which the poller is parked after the notification that was to wake it |
| Amx.AmxCallback.Int64 | src/amxutil.cpp:100-109 | The value if it fits a cell, else the nearest that does |
| Amx.AmxCallback.AllocateStrings | src/amxutil.cpp:131-162 | Succeeds exactly when all strings fit; each is then to be seen in its own cells above the old heap, byte by byte up to its first NUL and a 0 behind it; on failure at any point the heap is as it was |
| Amx.AmxCallback.PushArguments | src/amxutil.cpp:164-168 | The last arguments are on the stack, the last first, as many as fit |
| Amx.AmxCallback.InvokeOn | src/amxutil.cpp:119-179 | The heap and stack end as high as before; without the public or room the script is untouched; else it is called once and sees the arguments in declared order, as many of the last as could be pushed |
| Amx.AmxCallback.Invoke | src/amxutil.cpp:119-179 | That holds for every loaded script |
| Amx.RegionsAreDisjoint | src/amxutil.cpp:135-154 | Two string arguments of one call share no cell |
| Amx.ArrivesWhole | src/amxutil.cpp:153 | A string without a NUL arrives whole: the cells at its address are its bytes and a 0 |
| Amx.CellsTaken | src/amxutil.cpp:140 | A string takes a cell for each byte and one more, a number none |
| Amx.AllArgumentsArrive | src/amxutil.cpp:164-168 | All arguments arrive if and only if there are none or the stack has room for them beside the strings |
| Amx.CalledShort | src/amxutil.cpp:164-174 | A script that is called with the second of two arguments as its only one |
| Amx.Scripts.Track | src/amxutil.cpp:43-47 | A script is kept once |
| Amx.Scripts.Forget | src/amxutil.cpp:49-54 | Only that script is dropped, and the others keep their order |

## Left out

- Sockets, DNS, TLS, keepalive options and SIGPIPE (src/http.cpp:55-503): the transport is a script of reads; an
  https address without TLS support is a connection all of whose dials are refused.
- A send that goes out in part (src/http.cpp:259-281): sending succeeds with all bytes out or fails.
- Message texts, log lines and JSON error positions: wording only.
- Doubles: a number keeps its text, and `AsDouble` is not modelled; a number's truth looks at its digits, so that a
  value so small that `strtod` makes it 0 counts as true here.
- Overflow in `atoi` for a status or a port, and in `int` for ids: integers are unbounded.
- The 32-bit wrap of `5 + length` where `unsigned long` has 32 bits (src/connect_client.cpp:158): a length is below
  2^32 and the sum is exact.
- Responses with status 1xx and unsolicited bytes between responses are read as responses.
- Http.HttpConnection.Post: delivery at most once is not claimed, since the code resends in more cases than its
  comment says; the clause about `Retried` says which.
- Connect.EventStream.Open: what the request is read as is stated, as by Connect.Call, for a host, path and token
  without line feeds, the token not empty and without a blank or CR at its end (`Presentable`), and for a slug that with
  every byte escaped is below 2^32 bytes; what goes out otherwise is the same text, but a head may be broken by it.
- The iteration order of `std::map` when metadata is written: any order is allowed, which covers the actual one.
- ManagerRuns.NothingAfterUnregister: speaks of the station's own thread; a worker that re-registers a station after
  UpdateStation can overlap its destruction (src/manager.cpp:696-703), and the code does not prevent that.
- ManagerPool.NoJobIsSleptOn: safety, not progress; that a thread eventually runs, that a call returns, or that a
  stream whose server forgot the station is ever resubscribed (src/manager.cpp:950-965) is not claimed.
- The manager as a whole is a step relation on values, since a class cannot be stepped by several threads at once;
  `ManagerClass` has the sequential side. The body of a request is not part of a job.
- ManagerSteps.Shutdown: it, Configure, Reload and DestroyStation are one step of the object, so events pushed while
  they join threads are to be pushed before. Metadata, names and the cached status are not part of a state, so the
  methods that only touch those have no operation there.
- `stopping || !running_` is read in one step; both flags only ever go one way while a station's thread lives.
- Waits in the backoff and in the poller can end at any step of the manager's model; that they do end when asked to
  is the subject of `Monitors`.
- The AMX itself is reduced to what its interface promises: one block of cells, a margin of 16 cells, addresses in
  cells, characters as unsigned; a public may write anything into the heap but does not load or unload scripts.
- Natives, getters, `natives.cpp`, `plugin.cpp`, `serverconfig.cpp` and `log.cpp`: one-branch wrappers, entry points
  and file reading.
