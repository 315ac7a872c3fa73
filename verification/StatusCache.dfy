/**
 The status a station's getters answer from: replaced by every GetStatus snapshot, adjusted by the events
 that arrive in between, and carried forward to the moment it is read. The same events are what the PAWN
 callbacks are made of.
 */
module StatusCache {
  import opened Bytes
  import opened Json

  // ----- callbacks -----

  datatype EventKind =
    | EvStationRegistered
    | EvTrackStarted
    | EvTrackEnded
    | EvQueueLow
    | EvQueueUpdated
    | EvListenerCount
    | EvSilenceStarted
    | EvSilenceEnded
    | EvStatusUpdate
    | EvTrackQueued
    | EvCommandResult
    | EvStationList
    | EvServerInfo
    | EvError

  const INVALID_STATION: int := -1

  /** A callback waiting for the main thread. */
  datatype PawnEvent = PawnEvent(
    kind: EventKind, station: int, request: nat, flag: bool,
    queueId: bytes, location: bytes, title: bytes, artist: bytes, coverArt: bytes, text: bytes, text2: bytes,
    num1: int, num2: int)

  const BLANK := PawnEvent(EvError, INVALID_STATION, 0, false, [], [], [], [], [], [], [], 0, 0)

  function ErrorEvent(station: int, code: bytes, message: bytes): PawnEvent {
    BLANK.(kind := EvError, station := station, text := code, text2 := message)
  }

  // ----- the cached status -----

  datatype TrackInfo = TrackInfo(
    queueId: bytes, location: bytes, title: bytes, artist: bytes, coverArt: bytes, duration: int, reason: bytes)

  const NO_TRACK := TrackInfo([], [], [], [], [], 0, [])

  function TrackOf(item: Value): TrackInfo {
    var source := Get(item, Ascii("source"));
    TrackInfo(Str(item, Ascii("queueId"), []), Str(source, Ascii("location"), []),
              Str(source, Ascii("displayTitle"), []), Str(source, Ascii("displayArtist"), []),
              Str(source, Ascii("coverArtUrl"), []), Int(item, Ascii("durationSeconds"), 0), [])
  }

  /** `updatedAt` is in milliseconds of a clock that never goes back. */
  datatype StationStatus = StationStatus(
    valid: bool, name: bytes, isRegistered: bool, isSilence: bool, isPaused: bool,
    listeners: int, uptime: int, elapsed: int, hasCurrent: bool, current: TrackInfo,
    queue: seq<TrackInfo>, queueLength: int, history: seq<TrackInfo>, logoUrl: bytes, updatedAt: nat)

  const NO_STATUS := StationStatus(false, [], false, true, false, 0, 0, 0, false, NO_TRACK, [], 0, [], [], 0)

  function Tracks(items: seq<Value>): seq<TrackInfo> {
    seq(|items|, i requires 0 <= i < |items| => TrackOf(items[i]))
  }

  function Finished(items: seq<Value>): seq<TrackInfo> {
    seq(|items|, i requires 0 <= i < |items| => TrackOf(items[i]).(reason := Str(items[i], Ascii("reason"), [])))
  }

  /** What a GetStatus response leaves in the cache. */
  function Snapshot(resp: Value, now: nat): StationStatus {
    var current := Get(resp, Ascii("currentTrack"));
    var queue := Tracks(ElemsOf(Get(resp, Ascii("queue"))));
    StationStatus(true, Str(resp, Ascii("name"), []), Truth(resp, Ascii("isRegistered"), false),
                  Truth(resp, Ascii("isSilence"), false), Truth(resp, Ascii("isPaused"), false),
                  Int(resp, Ascii("listenerCount"), 0), Int(resp, Ascii("uptimeSeconds"), 0),
                  Int(resp, Ascii("currentTrackElapsedSeconds"), 0),
                  current != Null, if current != Null then TrackOf(current) else NO_TRACK,
                  queue, |queue|, Finished(ElemsOf(Get(resp, Ascii("history")))), Str(resp, Ascii("logoUrl"), []), now)
  }

  // ----- events from a station's stream -----

  const TRACK_STARTED: bytes := Ascii("EVENT_TYPE_TRACK_STARTED")
  const TRACK_ENDED: bytes := Ascii("EVENT_TYPE_TRACK_ENDED")
  const QUEUE_UPDATED: bytes := Ascii("EVENT_TYPE_QUEUE_UPDATED")
  const LISTENER_COUNT_CHANGED: bytes := Ascii("EVENT_TYPE_LISTENER_COUNT_CHANGED")
  const QUEUE_LOW: bytes := Ascii("EVENT_TYPE_QUEUE_LOW")
  const SILENCE_STARTED: bytes := Ascii("EVENT_TYPE_SILENCE_STARTED")
  const SILENCE_ENDED: bytes := Ascii("EVENT_TYPE_SILENCE_ENDED")
  const ERROR: bytes := Ascii("EVENT_TYPE_ERROR")

  /** The types the plugin knows, and the callback each is announced by. */
  const CALLBACKS: map<bytes, EventKind> :=
    map[TRACK_STARTED := EvTrackStarted, TRACK_ENDED := EvTrackEnded, QUEUE_UPDATED := EvQueueUpdated,
        LISTENER_COUNT_CHANGED := EvListenerCount, QUEUE_LOW := EvQueueLow, SILENCE_STARTED := EvSilenceStarted,
        SILENCE_ENDED := EvSilenceEnded, ERROR := EvError]

  datatype StreamType =
    | TrackStarted | TrackEnded | QueueUpdated | ListenerCountChanged | QueueLow | SilenceStarted | SilenceEnded
    | ErrorReported | Unhandled

  /** The comparisons of the type's name, in the order they are made. */
  function TypeOf(event: Value): StreamType {
    var t := Str(event, Ascii("type"), []);
    if t == TRACK_STARTED then TrackStarted
    else if t == TRACK_ENDED then TrackEnded
    else if t == QUEUE_UPDATED then QueueUpdated
    else if t == LISTENER_COUNT_CHANGED then ListenerCountChanged
    else if t == QUEUE_LOW then QueueLow
    else if t == SILENCE_STARTED then SilenceStarted
    else if t == SILENCE_ENDED then SilenceEnded
    else if t == ERROR then ErrorReported
    else Unhandled
  }

  /** Whether an event says that the current track is another one, or none. */
  predicate ChangesTrack(event: Value) {
    TypeOf(event) == TrackStarted || TypeOf(event) == TrackEnded
  }

  function QueueLengthIn(event: Value): int {
    Int(Get(event, Ascii("queueUpdated")), Ascii("queueLength"), 0)
  }

  function ListenersIn(event: Value): int {
    Int(Get(event, Ascii("listenerCountChanged")), Ascii("listenerCount"), 0)
  }

  function StartedTrack(event: Value): TrackInfo {
    TrackOf(Get(event, Ascii("trackStarted")))
  }

  /** The callback an event of the stream turns into; none for a type the plugin does not know. */
  function CallbackFor(station: int, event: Value): seq<PawnEvent> {
    var blank := BLANK.(station := station);
    match TypeOf(event)
    case TrackStarted =>
      var track := StartedTrack(event);
      [blank.(kind := EvTrackStarted, queueId := track.queueId, location := track.location, title := track.title,
              artist := track.artist, coverArt := track.coverArt, num1 := track.duration)]
    case TrackEnded =>
      var p := Get(event, Ascii("trackEnded"));
      [blank.(kind := EvTrackEnded, queueId := Str(p, Ascii("queueId"), []), text := Str(p, Ascii("reason"), []))]
    case QueueUpdated => [blank.(kind := EvQueueUpdated, num1 := QueueLengthIn(event))]
    case ListenerCountChanged => [blank.(kind := EvListenerCount, num1 := ListenersIn(event))]
    case QueueLow =>
      var p := Get(event, Ascii("queueLow"));
      [blank.(kind := EvQueueLow, num1 := Int(p, Ascii("queueLength"), 0), num2 := Int(p, Ascii("threshold"), 0))]
    case SilenceStarted => [blank.(kind := EvSilenceStarted)]
    case SilenceEnded => [blank.(kind := EvSilenceEnded)]
    case ErrorReported =>
      var p := Get(event, Ascii("error"));
      [blank.(kind := EvError, text := Str(p, Ascii("code"), []), text2 := Str(p, Ascii("message"), []))]
    case Unhandled => []
  }

  /** What an event of the stream leaves in the cache. */
  function Folded(st: StationStatus, event: Value, now: nat): StationStatus {
    match TypeOf(event)
    case TrackStarted =>
      st.(valid := true, hasCurrent := true, current := StartedTrack(event), isSilence := false, isPaused := false,
          elapsed := 0, updatedAt := now)
    case TrackEnded => st.(hasCurrent := false, current := NO_TRACK, elapsed := 0)
    case QueueUpdated => st.(queueLength := QueueLengthIn(event))
    case ListenerCountChanged => st.(listeners := ListenersIn(event))
    case SilenceStarted => st.(isSilence := true)
    case SilenceEnded => st.(isSilence := false)
    case _ => st
  }

  /** Exactly one callback for every type the plugin knows, of the kind that goes with it; none for another type. */
  lemma OneCallbackEach(station: int, event: Value)
    ensures var name := Str(event, Ascii("type"), []);
            if name in CALLBACKS then
              exists ev :: CallbackFor(station, event) == [ev]
                && ev.station == station && ev.request == 0 && ev.kind == CALLBACKS[name]
            else CallbackFor(station, event) == []
  {
    hide Ascii, TypeOf, Get, Int, TrackOf, QueueLengthIn, ListenersIn, StartedTrack, Str;
    NamesTell(event);
    KindTells(station, event);
    if TypeOf(event) != Unhandled {
      assert CallbackFor(station, event) == [CallbackFor(station, event)[0]];
    }
  }

  function KindOf(t: StreamType): EventKind
    requires t != Unhandled
  {
    match t
    case TrackStarted => EvTrackStarted
    case TrackEnded => EvTrackEnded
    case QueueUpdated => EvQueueUpdated
    case ListenerCountChanged => EvListenerCount
    case QueueLow => EvQueueLow
    case SilenceStarted => EvSilenceStarted
    case SilenceEnded => EvSilenceEnded
    case ErrorReported => EvError
  }

  lemma NamesTell(event: Value)
    ensures var name := Str(event, Ascii("type"), []);
            && (name in CALLBACKS <==> TypeOf(event) != Unhandled)
            && (name in CALLBACKS ==> CALLBACKS[name] == KindOf(TypeOf(event)))
  {
    hide Ascii, Get, Str;
    TypesDiffer();
  }

  lemma KindTells(station: int, event: Value)
    ensures |CallbackFor(station, event)| == if TypeOf(event) == Unhandled then 0 else 1
    ensures TypeOf(event) != Unhandled ==>
              var ev := CallbackFor(station, event)[0];
              ev.station == station && ev.request == 0 && ev.kind == KindOf(TypeOf(event))
  {
    hide Ascii, TypeOf, Get, Int, TrackOf, QueueLengthIn, ListenersIn, StartedTrack, Str;
  }

  lemma LengthsDiffer()
    ensures |TRACK_STARTED| == |QUEUE_UPDATED| == |SILENCE_ENDED| == 24 && |SILENCE_STARTED| == 26
    ensures |TRACK_ENDED| == 22 && |LISTENER_COUNT_CHANGED| == 33 && |QUEUE_LOW| == 20 && |ERROR| == 16
    ensures TRACK_STARTED[11] == 'T' as int && QUEUE_UPDATED[11] == 'Q' as int && SILENCE_ENDED[11] == 'S' as int
  {
  }

  lemma TypesDiffer()
    ensures forall t | t in CALLBACKS :: t == TRACK_STARTED || t == TRACK_ENDED || t == QUEUE_UPDATED
              || t == LISTENER_COUNT_CHANGED || t == QUEUE_LOW || t == SILENCE_STARTED || t == SILENCE_ENDED
              || t == ERROR
    ensures CALLBACKS[TRACK_STARTED] == EvTrackStarted && CALLBACKS[TRACK_ENDED] == EvTrackEnded
    ensures CALLBACKS[QUEUE_UPDATED] == EvQueueUpdated && CALLBACKS[LISTENER_COUNT_CHANGED] == EvListenerCount
    ensures CALLBACKS[QUEUE_LOW] == EvQueueLow && CALLBACKS[SILENCE_STARTED] == EvSilenceStarted
    ensures CALLBACKS[SILENCE_ENDED] == EvSilenceEnded && CALLBACKS[ERROR] == EvError
  {
    hide Ascii;
    LengthsDiffer();
  }

  // ----- what responses and events say -----

  /** A number, bare or quoted. */
  predicate SaysNumber(v: Value, n: int) {
    v == Number(DecimalText(n)) || v == String(DecimalText(n))
  }

  /** A track in a response or an event: the fields of its own, and those of its source. */
  lemma TrackSays(item: Value, n: int, text: bytes)
    requires LLONG_MIN <= n <= LLONG_MAX
    ensures var track := TrackOf(item); var source := Get(item, Ascii("source"));
            && (Get(item, Ascii("queueId")) == String(text) ==> track.queueId == text)
            && (Get(source, Ascii("location")) == String(text) ==> track.location == text)
            && (Get(source, Ascii("displayTitle")) == String(text) ==> track.title == text)
            && (Get(source, Ascii("displayArtist")) == String(text) ==> track.artist == text)
            && (Get(source, Ascii("coverArtUrl")) == String(text) ==> track.coverArt == text)
            && (SaysNumber(Get(item, Ascii("durationSeconds")), n) ==> track.duration == n)
  {
    hide Strtoll, DecimalText, Ascii, Get;
    StrtollDecimal(n);
  }

  /** A snapshot says what the members of the response say; what is left out is empty, false or 0. */
  lemma SnapshotSays(resp: Value, now: nat, n: int, text: bytes, b: bool)
    requires LLONG_MIN <= n <= LLONG_MAX
    ensures var st := Snapshot(resp, now);
            && st.valid && st.updatedAt == now
            && (Get(resp, Ascii("name")) == String(text) ==> st.name == text)
            && (Get(resp, Ascii("logoUrl")) == String(text) ==> st.logoUrl == text)
            && (Get(resp, Ascii("isRegistered")) == Json.Bool(b) ==> st.isRegistered == b)
            && (Get(resp, Ascii("isSilence")) == Json.Bool(b) ==> st.isSilence == b)
            && (Get(resp, Ascii("isPaused")) == Json.Bool(b) ==> st.isPaused == b)
            && (SaysNumber(Get(resp, Ascii("listenerCount")), n) ==> st.listeners == n)
            && (SaysNumber(Get(resp, Ascii("uptimeSeconds")), n) ==> st.uptime == n)
            && (SaysNumber(Get(resp, Ascii("currentTrackElapsedSeconds")), n) ==> st.elapsed == n)
            && (Get(resp, Ascii("isRegistered")) == Null ==> !st.isRegistered)
            && (Get(resp, Ascii("isSilence")) == Null ==> !st.isSilence)
            && (Get(resp, Ascii("isPaused")) == Null ==> !st.isPaused)
            && (Get(resp, Ascii("listenerCount")) == Null ==> st.listeners == 0)
            && (Get(resp, Ascii("currentTrackElapsedSeconds")) == Null ==> st.elapsed == 0)
  {
    hide Strtoll, DecimalText, Ascii, Get, Tracks, Finished;
    StrtollDecimal(n);
  }

  /** And its tracks are those of the response: the one that plays, those queued, and those played, each of these with
      the reason it ended for. */
  lemma SnapshotTracks(resp: Value, now: nat, i: nat, reason: bytes)
    ensures var st, current := Snapshot(resp, now), Get(resp, Ascii("currentTrack"));
            && (st.hasCurrent <==> current != Null) && (current != Null ==> st.current == TrackOf(current))
            && (current == Null ==> st.current == TrackInfo([], [], [], [], [], 0, []))
    ensures var st, queue := Snapshot(resp, now), Get(resp, Ascii("queue"));
            && st.queueLength == |st.queue|
            && (queue.Array? ==>
                  |st.queue| == |queue.elems| && (i < |st.queue| ==> st.queue[i] == TrackOf(queue.elems[i])))
            && (!queue.Array? ==> st.queue == [])
    ensures var st, history := Snapshot(resp, now), Get(resp, Ascii("history"));
            && (history.Array? ==>
                  && |st.history| == |history.elems|
                  && (i < |st.history| && Get(history.elems[i], Ascii("reason")) == String(reason) ==>
                        st.history[i] == TrackOf(history.elems[i]).(reason := reason)))
            && (!history.Array? ==> st.history == [])
  {
    hide Strtoll, Ascii, TrackOf, Int, Truth;
  }

  predicate TypeIs(event: Value, name: string) {
    Get(event, Ascii("type")) == String(Ascii(name))
  }

  /** A track that starts is announced by its fields, and plays from its beginning. */
  lemma StartedSays(station: int, event: Value, st: StationStatus, at: nat)
    requires TypeIs(event, "EVENT_TYPE_TRACK_STARTED")
    ensures var track := TrackOf(Get(event, Ascii("trackStarted")));
            && CallbackFor(station, event) ==
               [PawnEvent(EvTrackStarted, station, 0, false, track.queueId, track.location, track.title, track.artist,
                          track.coverArt, [], [], track.duration, 0)]
            && Folded(st, event, at) ==
               st.(valid := true, hasCurrent := true, current := track, isSilence := false, isPaused := false,
                   elapsed := 0, updatedAt := at)
  {
    hide Ascii, Get;
    LengthsDiffer();
  }

  lemma EndedSays(station: int, event: Value, st: StationStatus, at: nat, id: bytes, reason: bytes)
    requires TypeIs(event, "EVENT_TYPE_TRACK_ENDED")
    requires var p := Get(event, Ascii("trackEnded"));
             Get(p, Ascii("queueId")) == String(id) && Get(p, Ascii("reason")) == String(reason)
    ensures CallbackFor(station, event) ==
            [PawnEvent(EvTrackEnded, station, 0, false, id, [], [], [], [], reason, [], 0, 0)]
    ensures var later := Folded(st, event, at);
            later == st.(hasCurrent := false, current := TrackInfo([], [], [], [], [], 0, []), elapsed := 0)
  {
    hide Ascii, Get;
    LengthsDiffer();
  }

  lemma CountsSay(station: int, event: Value, st: StationStatus, at: nat, n: int, m: int)
    requires LLONG_MIN <= n <= LLONG_MAX && LLONG_MIN <= m <= LLONG_MAX
    ensures var blank := PawnEvent(EvError, station, 0, false, [], [], [], [], [], [], [], n, 0);
            && (TypeIs(event, "EVENT_TYPE_QUEUE_UPDATED")
                && SaysNumber(Get(Get(event, Ascii("queueUpdated")), Ascii("queueLength")), n) ==>
                  && CallbackFor(station, event) == [blank.(kind := EvQueueUpdated)]
                  && Folded(st, event, at) == st.(queueLength := n))
            && (TypeIs(event, "EVENT_TYPE_LISTENER_COUNT_CHANGED")
                && SaysNumber(Get(Get(event, Ascii("listenerCountChanged")), Ascii("listenerCount")), n) ==>
                  && CallbackFor(station, event) == [blank.(kind := EvListenerCount)]
                  && Folded(st, event, at) == st.(listeners := n))
            && (TypeIs(event, "EVENT_TYPE_QUEUE_LOW")
                && SaysNumber(Get(Get(event, Ascii("queueLow")), Ascii("queueLength")), n)
                && SaysNumber(Get(Get(event, Ascii("queueLow")), Ascii("threshold")), m) ==>
                  && CallbackFor(station, event) == [blank.(kind := EvQueueLow, num2 := m)]
                  && Folded(st, event, at) == st)
  {
    hide Ascii, Get, Strtoll, DecimalText;
    StrtollDecimal(n);
    StrtollDecimal(m);
    LengthsDiffer();
  }

  lemma OthersSay(station: int, event: Value, st: StationStatus, at: nat, code: bytes, message: bytes)
    ensures var blank := PawnEvent(EvError, station, 0, false, [], [], [], [], [], [], [], 0, 0);
            && (TypeIs(event, "EVENT_TYPE_SILENCE_STARTED") ==>
                  && CallbackFor(station, event) == [blank.(kind := EvSilenceStarted)]
                  && Folded(st, event, at) == st.(isSilence := true))
            && (TypeIs(event, "EVENT_TYPE_SILENCE_ENDED") ==>
                  && CallbackFor(station, event) == [blank.(kind := EvSilenceEnded)]
                  && Folded(st, event, at) == st.(isSilence := false))
            && (TypeIs(event, "EVENT_TYPE_ERROR")
                && Get(Get(event, Ascii("error")), Ascii("code")) == String(code)
                && Get(Get(event, Ascii("error")), Ascii("message")) == String(message) ==>
                  && CallbackFor(station, event) == [blank.(text := code, text2 := message)]
                  && Folded(st, event, at) == st)
  {
    hide Ascii, Get;
    LengthsDiffer();
  }

  // ----- runs of updates -----

  datatype Update = Polled(resp: Value, at: nat) | Streamed(event: Value, at: nat)

  function Applied(st: StationStatus, u: Update): StationStatus {
    match u
    case Polled(resp, at) => Snapshot(resp, at)
    case Streamed(event, at) => Folded(st, event, at)
  }

  /** The cache of a new station after these updates, in the order they took the lock. */
  function After(updates: seq<Update>): StationStatus {
    if updates == [] then NO_STATUS else Applied(After(updates[..|updates| - 1]), updates[|updates| - 1])
  }

  predicate CarriesLength(u: Update) {
    u.Polled? || TypeOf(u.event) == QueueUpdated
  }

  function LengthCarried(u: Update): int
    requires CarriesLength(u)
  {
    match u
    case Polled(resp, _) => |ElemsOf(Get(resp, Ascii("queue")))|
    case Streamed(event, _) => QueueLengthIn(event)
  }

  lemma EventsKeepTheQueue(st: StationStatus, event: Value, at: nat)
    ensures var later := Folded(st, event, at);
            later.queue == st.queue && later.history == st.history && later.uptime == st.uptime
  {
    hide TypeOf, QueueLengthIn, ListenersIn, StartedTrack;
    match TypeOf(event)
    case TrackStarted =>
    case TrackEnded =>
    case _ =>
  }

  predicate SameTrack(st: StationStatus, later: StationStatus) {
    && later.valid == st.valid && later.hasCurrent == st.hasCurrent && later.isPaused == st.isPaused
    && later.elapsed == st.elapsed && later.current == st.current && later.updatedAt == st.updatedAt
  }

  lemma OtherEventsKeepTheTrack(st: StationStatus, event: Value, at: nat)
    requires !ChangesTrack(event)
    ensures SameTrack(st, Folded(st, event, at))
  {
    hide TypeOf, QueueLengthIn, ListenersIn, StartedTrack;
  }

  /** The length shown is the one that came last, from a snapshot or from an event. */
  lemma {:induction false} QueueLengthIsTheLatest(updates: seq<Update>, k: nat)
    requires k < |updates| && CarriesLength(updates[k])
    requires forall j | k < j < |updates| :: !CarriesLength(updates[j])
    ensures After(updates).queueLength == LengthCarried(updates[k])
    decreases |updates|
  {
    hide TypeOf, ListenersIn, StartedTrack, QueueLengthIn;
    if k < |updates| - 1 {
      QueueLengthIsTheLatest(updates[..|updates| - 1], k);
    }
  }

  /** The items and the history shown are those of the last snapshot. */
  lemma {:induction false} QueueIsTheLastSnapshots(updates: seq<Update>, k: nat)
    requires k < |updates| && updates[k].Polled?
    requires forall j | k < j < |updates| :: updates[j].Streamed?
    ensures var snapshot := Snapshot(updates[k].resp, updates[k].at);
            && After(updates).queue == snapshot.queue
            && After(updates).history == snapshot.history
            && After(updates).uptime == snapshot.uptime
    decreases |updates|
  {
    hide Snapshot, Folded;
    if k < |updates| - 1 {
      var front, last := updates[..|updates| - 1], updates[|updates| - 1];
      QueueIsTheLastSnapshots(front, k);
      EventsKeepTheQueue(After(front), last.event, last.at);
    }
  }

  // ----- reading it -----

  /** What the getters see at `now`: the elapsed time carried forward by the whole seconds since the cache was
      last set, and held at the duration if that is known. */
  function Extrapolated(st: StationStatus, now: nat): StationStatus
    requires st.updatedAt <= now
  {
    var secs := (now - st.updatedAt) / 1000;
    if st.valid && st.hasCurrent && !st.isPaused && secs > 0 then
      st.(elapsed := if 0 < st.current.duration < st.elapsed + secs then st.current.duration else st.elapsed + secs)
    else
      st
  }

  predicate WholeSeconds(ms: nat, k: nat) {
    1000 * k <= ms < 1000 * (k + 1)
  }

  /** What is to be seen of `st` when `k` whole seconds have gone by since it was set: while a track plays the time has
      gone on by as much, or as far as a known duration; nothing else has changed. */
  predicate SeenAfter(st: StationStatus, k: nat, out: StationStatus) {
    && out == st.(elapsed := out.elapsed)
    && if st.valid && st.hasCurrent && !st.isPaused then
         out.elapsed == if k == 0 || st.current.duration <= 0 || st.elapsed + k <= st.current.duration
                        then st.elapsed + k else st.current.duration
       else out.elapsed == st.elapsed
  }

  lemma ElapsedAdvances(st: StationStatus, now: nat, k: nat)
    requires st.updatedAt <= now && WholeSeconds(now - st.updatedAt, k)
    ensures SeenAfter(st, k, Extrapolated(st, now))
  {
    assert (now - st.updatedAt) / 1000 == k;
  }

  function ElapsedAt(st: StationStatus, now: nat): int
    requires st.updatedAt <= now
  {
    Extrapolated(st, now).elapsed
  }

  predicate Playing(st: StationStatus) {
    st.valid && st.hasCurrent && !st.isPaused
  }

  /** Set past the end of a track whose length is known, and running. */
  predicate Overrun(st: StationStatus) {
    Playing(st) && 0 < st.current.duration < st.elapsed
  }

  lemma ElapsedMoves(st: StationStatus, a: nat, b: nat)
    requires st.updatedAt <= a <= b && !Overrun(st)
    ensures ElapsedAt(st, a) <= ElapsedAt(st, b)
    ensures Playing(st) && st.current.duration > 0 ==> ElapsedAt(st, b) <= st.current.duration
  {
    var x, y := a - st.updatedAt, b - st.updatedAt;
    assert x / 1000 <= y / 1000;
  }

  /** The elapsed time only ever grows between updates exactly when the cache was not set past the end. The
      clamp is skipped in the first second, so a cache set past the end runs ahead and then jumps back. */
  lemma ElapsedNeverGoesBack(st: StationStatus)
    ensures (forall a, b | st.updatedAt <= a <= b :: ElapsedAt(st, a) <= ElapsedAt(st, b)) <==> !Overrun(st)
  {
    if Overrun(st) {
      var a, b := st.updatedAt, st.updatedAt + 1000;
      assert (b - st.updatedAt) / 1000 == 1;
      assert ElapsedAt(st, a) > ElapsedAt(st, b);
    } else {
      forall a: nat, b: nat | st.updatedAt <= a <= b ensures ElapsedAt(st, a) <= ElapsedAt(st, b) {
        ElapsedMoves(st, a, b);
      }
    }
  }

  const CURRENT_TRACK: bytes := Ascii("currentTrack")
  const ELAPSED_SECONDS: bytes := Ascii("currentTrackElapsedSeconds")
  const DURATION_SECONDS: bytes := Ascii("durationSeconds")

  /** A response that tells how long the track is that plays, and how much of it has gone by. */
  function PlayingResponse(duration: int, elapsed: int): Value {
    Object([(CURRENT_TRACK, Object([(DURATION_SECONDS, Number(DecimalText(duration)))])),
            (ELAPSED_SECONDS, Number(DecimalText(elapsed)))])
  }

  lemma PlayingFields(duration: int, elapsed: int)
    requires LLONG_MIN <= duration <= LLONG_MAX && LLONG_MIN <= elapsed <= LLONG_MAX
    ensures var resp := PlayingResponse(duration, elapsed);
            && Get(resp, CURRENT_TRACK) == Object([(DURATION_SECONDS, Number(DecimalText(duration)))])
            && Int(Get(resp, CURRENT_TRACK), DURATION_SECONDS, 0) == duration
            && Int(resp, ELAPSED_SECONDS, 0) == elapsed && Get(resp, Ascii("isPaused")) == Null
  {
    hide Strtoll, DecimalText;
    StrtollDecimal(duration);
    StrtollDecimal(elapsed);
    assert |CURRENT_TRACK| == 12 && |ELAPSED_SECONDS| == 26 && |Ascii("isPaused")| == 8;
    var track := (CURRENT_TRACK, Object([(DURATION_SECONDS, Number(DecimalText(duration)))]));
    var time := (ELAPSED_SECONDS, Number(DecimalText(elapsed)));
    FindOfTwo(track, time, ELAPSED_SECONDS);
    FindOfTwo(track, time, Ascii("isPaused"));
  }

  lemma FindOfTwo(a: (bytes, Value), b: (bytes, Value), key: bytes)
    ensures FindMember([a, b], key) == if a.0 == key then a.1 else if b.0 == key then b.1 else Null
  {
    assert [a, b][1..] == [b];
    assert FindMember([b], key) == if b.0 == key then b.1 else Null;
  }

  /** When a response puts a track past its end, readers see the time it says, and a second later the duration. */
  lemma ElapsedGoesBack(duration: int, elapsed: int, now: nat)
    requires 0 < duration < elapsed <= LLONG_MAX
    ensures var st := Snapshot(PlayingResponse(duration, elapsed), now);
            Overrun(st) && ElapsedAt(st, now) == elapsed && ElapsedAt(st, now + 1000) == duration
  {
    hide Get, Ascii, DecimalText, Strtoll, Tracks, Finished;
    PlayingFields(duration, elapsed);
  }

  /** Likewise, a known length is never passed exactly when the cache was not set past it. */
  lemma ElapsedStaysWithin(st: StationStatus)
    requires Playing(st) && st.current.duration > 0
    ensures (forall now | st.updatedAt <= now :: ElapsedAt(st, now) <= st.current.duration) <==> !Overrun(st)
  {
    if Overrun(st) {
      assert ElapsedAt(st, st.updatedAt) == st.elapsed;
    } else {
      forall now: nat | st.updatedAt <= now ensures ElapsedAt(st, now) <= st.current.duration {
        ElapsedMoves(st, now, now);
      }
    }
  }

  predicate SetsTrack(u: Update) {
    u.Polled? || ChangesTrack(u.event)
  }

  /** Only a snapshot can set the cache past the end. */
  lemma {:induction false} OverrunComesFromASnapshot(updates: seq<Update>)
    requires forall u | u in updates && u.Polled? :: !Overrun(Snapshot(u.resp, u.at))
    ensures !Overrun(After(updates))
    decreases |updates|
  {
    hide TypeOf, ListenersIn, StartedTrack, QueueLengthIn, Snapshot;
    if updates != [] {
      OverrunComesFromASnapshot(updates[..|updates| - 1]);
      assert updates[|updates| - 1] in updates;
    }
  }

  lemma {:induction false} OthersLeaveTheTrack(before: seq<Update>, more: seq<Update>)
    requires forall u | u in more :: !SetsTrack(u)
    ensures SameTrack(After(before), After(before + more))
    decreases |more|
  {
    hide Snapshot, Folded, ChangesTrack;
    if more == [] {
      assert before + more == before;
    } else {
      var front, last := more[..|more| - 1], more[|more| - 1];
      assert (before + more)[..|before + more| - 1] == before + front;
      assert last in more;
      OthersLeaveTheTrack(before, front);
      OtherEventsKeepTheTrack(After(before + front), last.event, last.at);
    }
  }

  /** Between track events and snapshots the time a reader sees never goes back and never passes a known length,
      whatever other events arrive meanwhile, provided no snapshot was itself past the end. */
  lemma ReadingsAdvance(before: seq<Update>, more: seq<Update>, a: nat, b: nat)
    requires forall u | u in before && u.Polled? :: !Overrun(Snapshot(u.resp, u.at))
    requires forall u | u in more :: !SetsTrack(u)
    requires After(before).updatedAt <= a <= b
    ensures After(before + more).updatedAt <= b
    ensures ElapsedAt(After(before), a) <= ElapsedAt(After(before + more), b)
    ensures Playing(After(before)) && After(before).current.duration > 0
            ==> ElapsedAt(After(before + more), b) <= After(before).current.duration
  {
    hide After, Overrun;
    OverrunComesFromASnapshot(before);
    OthersLeaveTheTrack(before, more);
    ElapsedMoves(After(before), a, b);
  }
}
