/**
 The request that queues a track: an object with another one inside it.
 */
module Commands {
  import opened Bytes
  import opened Json
  import opened JsonWriter
  import opened Stations

  const SOURCE: bytes := Ascii("source")
  const MODE: bytes := Ascii("mode")
  const TYPE: bytes := Ascii("type")
  const LOCATION: bytes := Ascii("location")
  const DISPLAY_TITLE: bytes := Ascii("displayTitle")
  const DISPLAY_ARTIST: bytes := Ascii("displayArtist")
  const COVER_ART_URL: bytes := Ascii("coverArtUrl")

  /** Anything that looks like a URL is one; everything else is a path on the audio server. */
  function SourceTypeFor(location: bytes): bytes {
    if Ascii("http://") <= location || Ascii("https://") <= location then Ascii("TRACK_SOURCE_TYPE_HTTP_URL")
    else Ascii("TRACK_SOURCE_TYPE_LOCAL_FILE")
  }

  function QueueModeToProto(mode: int): bytes {
    match mode
    case 1 => Ascii("QUEUE_MODE_PLAY_NEXT")
    case 2 => Ascii("QUEUE_MODE_PLAY_NOW_INTERRUPT")
    case _ => Ascii("QUEUE_MODE_APPEND")
  }

  /** Only a location that starts so is fetched over the network. */
  lemma SourceTypesAre(rest: bytes, location: bytes)
    ensures SourceTypeFor(Ascii("http://") + rest) == Ascii("TRACK_SOURCE_TYPE_HTTP_URL")
    ensures SourceTypeFor(Ascii("https://") + rest) == Ascii("TRACK_SOURCE_TYPE_HTTP_URL")
    ensures SourceTypeFor(location) != Ascii("TRACK_SOURCE_TYPE_HTTP_URL") ==>
              SourceTypeFor(location) == Ascii("TRACK_SOURCE_TYPE_LOCAL_FILE")
    ensures !(Ascii("http://") <= location) && !(Ascii("https://") <= location) ==>
              SourceTypeFor(location) == Ascii("TRACK_SOURCE_TYPE_LOCAL_FILE")
  {
    hide Ascii;
  }

  /** A track is appended unless it is to be the next one, or to interrupt. */
  lemma QueueModesAre(mode: int)
    ensures QueueModeToProto(1) == Ascii("QUEUE_MODE_PLAY_NEXT")
    ensures QueueModeToProto(2) == Ascii("QUEUE_MODE_PLAY_NOW_INTERRUPT")
    ensures mode != 1 && mode != 2 ==> QueueModeToProto(mode) == Ascii("QUEUE_MODE_APPEND")
  {
  }

  datatype Track = Track(location: bytes, title: bytes, artist: bytes, coverArt: bytes)

  function SourceCalls(t: Track): seq<Call> {
    [PutStr(TYPE, SourceTypeFor(t.location)), PutStr(LOCATION, t.location), PutStrIfSet(DISPLAY_TITLE, t.title),
     PutStrIfSet(DISPLAY_ARTIST, t.artist), PutStrIfSet(COVER_ART_URL, t.coverArt)]
  }

  function QueueTrackCalls(slug: bytes, t: Track, mode: int): seq<Call> {
    [PutStr(SLUG, slug), PutRaw(SOURCE, Built(SourceCalls(t))), PutStr(MODE, QueueModeToProto(mode))]
  }

  method SourceJson(t: Track) returns (text: bytes)
    ensures text == Built(SourceCalls(t))
  {
    hide Built, Body, Ascii, SourceTypeFor;
    var source := new JsonObject();
    source.Str(TYPE, SourceTypeFor(t.location));
    source.Str(LOCATION, t.location);
    source.StrIfSet(DISPLAY_TITLE, t.title);
    source.StrIfSet(DISPLAY_ARTIST, t.artist);
    source.StrIfSet(COVER_ART_URL, t.coverArt);
    assert source.calls == SourceCalls(t);
    text := source.Build();
  }

  method QueueTrackJson(slug: bytes, t: Track, mode: int) returns (text: bytes)
    ensures text == Built(QueueTrackCalls(slug, t, mode))
  {
    hide Built, Body, Ascii, SourceCalls, QueueModeToProto;
    var source := SourceJson(t);
    var req := new JsonObject();
    req.Str(SLUG, slug);
    req.Raw(SOURCE, source);
    req.Str(MODE, QueueModeToProto(mode));
    assert req.calls == QueueTrackCalls(slug, t, mode);
    text := req.Build();
  }

  /** Keys that need no escaping, each used once. */
  predicate Keyed(calls: seq<Call>) {
    && (forall c | c in calls :: PlainKey(c.key))
    && forall i, j | 0 <= i < j < |calls| :: calls[i].key != calls[j].key
  }

  /** Looking a key up finds what was put under it, or nothing where the call left its member out. */
  lemma KeyFinds(calls: seq<Call>, depth: nat, i: nat)
    requires Keyed(calls) && i < |calls|
    ensures FindMember(MembersPut(calls, depth), calls[i].key) ==
            if Skipped(calls[i]) then Null else ValueOf(calls[i], depth)
  {
    hide KeyReads, KeyOf, ValueOf, MembersPut, Flatten, FindMember, PlainKey;
    var keys := seq(|calls|, k requires 0 <= k < |calls| => calls[k].key);
    var fields := FieldsOf(calls, depth);
    forall k | 0 <= k < |calls| ensures KeyOf(calls[k].key) == keys[k] {
      assert calls[k] in calls;
      PlainKeyReads(calls[k].key);
    }
    assert Fields(keys, fields);
    FindField(keys, fields, i);
    PutIsFlat(calls, depth);
  }

  lemma SourceKeyed(t: Track)
    ensures Keyed(SourceCalls(t))
  {
    assert |TYPE| == 4 && |LOCATION| == 8 && |DISPLAY_TITLE| == 12 && |DISPLAY_ARTIST| == 13 && |COVER_ART_URL| == 11;
    SourceKeysArePlain();
  }

  lemma SourceKeysArePlain()
    ensures PlainKey(TYPE) && PlainKey(LOCATION) && PlainKey(DISPLAY_TITLE) && PlainKey(DISPLAY_ARTIST)
            && PlainKey(COVER_ART_URL)
  {
  }

  lemma QueueTrackKeyed(slug: bytes, t: Track, mode: int)
    ensures Keyed(QueueTrackCalls(slug, t, mode))
  {
    assert |SLUG| == |MODE| == 4 && SLUG[0] != MODE[0] && |SOURCE| == 6;
    assert PlainKey(SLUG) && PlainKey(SOURCE) && PlainKey(MODE);
  }

  lemma KeyedWellUsed(calls: seq<Call>, depth: nat)
    requires Keyed(calls) && forall c | c in calls && c.PutRaw? :: ParseAt(c.raw, depth + 1).Document?
    ensures WellUsed(calls, depth)
  {
    hide KeyReads, ParseAt, PlainKey;
    forall c | c in calls ensures KeyReads(c.key) { PlainKeyReads(c.key); }
  }

  /** The inner object at any depth: the type its location has, and each text or nothing. */
  lemma SourceReadsBack(t: Track, depth: nat)
    requires depth < MAX_DEPTH
    ensures ParseAt(Built(SourceCalls(t)), depth).Document?
    ensures var v := ParseAt(Built(SourceCalls(t)), depth).value;
            && v.Object?
            && Str(v, TYPE, []) == SourceTypeFor(t.location) && Str(v, LOCATION, []) == t.location
            && Str(v, DISPLAY_TITLE, []) == t.title && Str(v, DISPLAY_ARTIST, []) == t.artist
            && Str(v, COVER_ART_URL, []) == t.coverArt
            && (Get(v, DISPLAY_TITLE) == Null <==> t.title == [])
            && (Get(v, DISPLAY_ARTIST) == Null <==> t.artist == [])
            && (Get(v, COVER_ART_URL) == Null <==> t.coverArt == [])
  {
    hide ParseAt, Built, MembersPut, FindMember, Keyed, WellUsed, SourceTypeFor;
    var calls := SourceCalls(t);
    SourceKeyed(t);
    KeyedWellUsed(calls, depth);
    BuilderReadsBack(calls, depth);
    KeyFinds(calls, depth, 0);
    KeyFinds(calls, depth, 1);
    KeyFinds(calls, depth, 2);
    KeyFinds(calls, depth, 3);
    KeyFinds(calls, depth, 4);
  }

  lemma KeysAre()
    ensures SLUG == Ascii("slug") && SOURCE == Ascii("source") && MODE == Ascii("mode") && TYPE == Ascii("type")
    ensures LOCATION == Ascii("location") && DISPLAY_TITLE == Ascii("displayTitle")
    ensures DISPLAY_ARTIST == Ascii("displayArtist") && COVER_ART_URL == Ascii("coverArtUrl")
  {
  }

  /** The request is read back as the slug, the source with its inferred type, and the mode, whatever bytes the
      texts hold. */
  lemma QueueTrackReadsBack(slug: bytes, t: Track, mode: int)
    ensures ParseDocument(Built(QueueTrackCalls(slug, t, mode))).Document?
    ensures var v := ParseDocument(Built(QueueTrackCalls(slug, t, mode))).value;
            var source := Get(v, Ascii("source"));
            && Str(v, Ascii("slug"), []) == slug && Str(v, Ascii("mode"), []) == QueueModeToProto(mode)
            && Str(source, Ascii("type"), []) == SourceTypeFor(t.location)
            && Str(source, Ascii("location"), []) == t.location
            && Str(source, Ascii("displayTitle"), []) == t.title && Str(source, Ascii("displayArtist"), []) == t.artist
            && Str(source, Ascii("coverArtUrl"), []) == t.coverArt
            && (Get(source, Ascii("displayTitle")) == Null <==> t.title == [])
            && (Get(source, Ascii("displayArtist")) == Null <==> t.artist == [])
            && (Get(source, Ascii("coverArtUrl")) == Null <==> t.coverArt == [])
  {
    hide ParseAt, Built, MembersPut, FindMember, Keyed, WellUsed, SourceTypeFor, QueueModeToProto, SourceCalls;
    var calls := QueueTrackCalls(slug, t, mode);
    KeysAre();
    hide Ascii;
    SourceReadsBack(t, 1);
    QueueTrackKeyed(slug, t, mode);
    KeyedWellUsed(calls, 0);
    BuilderReadsBack(calls, 0);
    KeyFinds(calls, 0, 0);
    KeyFinds(calls, 0, 1);
    KeyFinds(calls, 0, 2);
  }
}
