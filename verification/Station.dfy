/**
 A station's registration parameters and the request they are sent in.
 */
module Stations {
  import opened Bytes
  import opened Json
  import opened JsonWriter
  import opened StatusCache

  const SLUG: bytes := [0x73, 0x6C, 0x75, 0x67] // "slug"
  const NAME: bytes := [0x6E, 0x61, 0x6D, 0x65] // "name"
  const DESCRIPTION: bytes := [0x64, 0x65, 0x73, 0x63, 0x72, 0x69, 0x70, 0x74, 0x69, 0x6F, 0x6E] // "description"
  const LOGO_URL: bytes := [0x6C, 0x6F, 0x67, 0x6F, 0x55, 0x72, 0x6C] // "logoUrl"
  const LOW_QUEUE_THRESHOLD: bytes :=
    // "lowQueueThreshold"
    [0x6C, 0x6F, 0x77, 0x51, 0x75, 0x65, 0x75, 0x65, 0x54, 0x68, 0x72, 0x65, 0x73, 0x68, 0x6F, 0x6C, 0x64]
  const METADATA: bytes := [0x6D, 0x65, 0x74, 0x61, 0x64, 0x61, 0x74, 0x61] // "metadata"

  type Metadata = map<bytes, bytes>

  /** `order` lists the keys of `m`, each once: an order in which a map may be iterated. */
  ghost predicate Enumerates(order: seq<bytes>, m: Metadata) {
    && (forall key :: key in order <==> key in m)
    && (forall i, j | 0 <= i < j < |order| :: order[i] != order[j])
  }

  /** One string member an entry, keys and values escaped. */
  function EntryCalls(order: seq<bytes>, m: Metadata): seq<Call>
    requires forall key | key in order :: key in m
  {
    seq(|order|, i requires 0 <= i < |order| => PutStr(Escaped(order[i]), m[order[i]]))
  }

  class Station {
    var slug: bytes
    var name: bytes
    var description: bytes
    var logoUrl: bytes
    var lowQueueThreshold: int
    var metadata: Metadata
    var streamUrl: bytes
    var registered: bool
    var stopping: bool
    var status: StationStatus

    constructor (slug: bytes, name: bytes, description: bytes, lowQueueThreshold: int, logoUrl: bytes)
      ensures this.slug == slug && this.name == (if name == [] then slug else name)
      ensures this.description == description && this.lowQueueThreshold == lowQueueThreshold && this.logoUrl == logoUrl
      ensures metadata == map[] && streamUrl == [] && !registered && !stopping && status == NO_STATUS
    {
      this.slug := slug;
      this.name := if name == [] then slug else name;
      this.description, this.lowQueueThreshold, this.logoUrl := description, lowQueueThreshold, logoUrl;
      metadata, streamUrl, registered, stopping, status := map[], [], false, false, NO_STATUS;
    }

    /** An empty name stands for the slug. */
    method Update(name: bytes, description: bytes, lowQueueThreshold: int, logoUrl: bytes)
      modifies this`name, this`description, this`lowQueueThreshold, this`logoUrl
      ensures this.name == (if name == [] then slug else name)
      ensures this.description == description && this.lowQueueThreshold == lowQueueThreshold && this.logoUrl == logoUrl
    {
      this.name := if name == [] then slug else name;
      this.description, this.lowQueueThreshold, this.logoUrl := description, lowQueueThreshold, logoUrl;
    }

    /** An empty value removes the key. */
    method SetMetadata(key: bytes, value: bytes)
      modifies this`metadata
      ensures metadata == if value == [] then old(metadata) - {key} else old(metadata)[key := value]
    {
      if value == [] {
        metadata := metadata - {key};
      } else {
        metadata := metadata[key := value];
      }
    }

    /** The metadata as a JSON object, its entries in the order the map is iterated. */
    method MetadataJson(order: seq<bytes>) returns (out: bytes)
      requires Enumerates(order, metadata)
      ensures out == Built(EntryCalls(order, metadata))
    {
      hide BodyAfter, EscapeByte;
      out := [LBRACE];
      ghost var calls := EntryCalls(order, metadata);
      for i := 0 to |order|
        invariant out == [LBRACE] + Body(calls[..i])
      {
        assert calls[..i + 1][..i] == calls[..i];
        if |out| > 1 {
          out := out + [COMMA];
        }
        out := AppendEntry(out, order[i], metadata[order[i]], Body(calls[..i]));
      }
      assert calls[..|order|] == calls;
      out := out + [RBRACE];
    }

    static method AppendEntry(out: bytes, key: bytes, value: bytes, ghost body: bytes) returns (out': bytes)
      requires out == [LBRACE] + body + if body == [] then [] else [COMMA]
      ensures out' == [LBRACE] + BodyAfter(body, PutStr(Escaped(key), value))
    {
      hide Escaped;
      out' := out + [QUOTE];
      var escapedKey := JsonEscape(key);
      out' := out' + escapedKey;
      out' := out' + [QUOTE, COLON, QUOTE];
      var escapedValue := JsonEscape(value);
      out' := out' + escapedValue;
      out' := out' + [QUOTE];
      EntrySpelled(body, escapedKey, value, escapedValue);
    }

    /** The calls that make up a registration request. */
    ghost function RequestCalls(order: seq<bytes>): seq<Call>
      requires forall key | key in order :: key in metadata
      reads this
    {
      [PutStr(SLUG, slug), PutStr(NAME, if name == [] then slug else name),
       PutStrIfSet(DESCRIPTION, description), PutStrIfSet(LOGO_URL, logoUrl)]
      + (if lowQueueThreshold > 0 then [PutInt(LOW_QUEUE_THRESHOLD, lowQueueThreshold)] else [])
      + (if metadata != map[] then [PutRaw(METADATA, Built(EntryCalls(order, metadata)))] else [])
    }

    method RegisterRequestJson(order: seq<bytes>) returns (text: bytes)
      requires Enumerates(order, metadata)
      ensures text == Built(RequestCalls(order))
    {
      hide Body, Built, EntryCalls;
      var req := new JsonObject();
      req.Str(SLUG, slug);
      req.Str(NAME, if name == [] then slug else name);
      req.StrIfSet(DESCRIPTION, description);
      req.StrIfSet(LOGO_URL, logoUrl);
      ghost var base := RequestCalls(order)[..4];
      assert req.calls == base;
      if lowQueueThreshold > 0 {
        req.Int(LOW_QUEUE_THRESHOLD, lowQueueThreshold);
      }
      if metadata != map[] {
        var json := MetadataJson(order);
        req.Raw(METADATA, json);
      }
      assert RequestCalls(order) == req.calls;
      text := req.Build();
    }
  }

  lemma EntrySpelled(body: bytes, key: bytes, value: bytes, escaped: bytes)
    requires escaped == Escaped(value)
    ensures [LBRACE] + body + (if body == [] then [] else [COMMA])
            + [QUOTE] + key + [QUOTE, COLON, QUOTE] + escaped + [QUOTE]
         == [LBRACE] + BodyAfter(body, PutStr(key, value))
  {
    hide Escaped;
    Regrouped([LBRACE], body, if body == [] then [] else [COMMA], key, escaped);
  }

  lemma Regrouped(brace: bytes, body: bytes, comma: bytes, key: bytes, escaped: bytes)
    ensures brace + body + comma + [QUOTE] + key + [QUOTE, COLON, QUOTE] + escaped + [QUOTE]
         == brace + ((body + comma) + [QUOTE] + key + [QUOTE, COLON] + ([QUOTE] + escaped + [QUOTE]))
  {
    var tail := [QUOTE] + escaped + [QUOTE];
    assert [QUOTE, COLON] + tail == [QUOTE, COLON, QUOTE] + escaped + [QUOTE];
    assert brace + (body + comma) == brace + body + comma;
  }

  // ----- what the server reads -----

  /** An object whose members are all strings, as a map; an absent one is empty. */
  ghost predicate ReadsAsMap(v: Value, m: Metadata) {
    if v == Null then m == map[]
    else
      && v.Object?
      && (forall i | 0 <= i < |v.members| :: v.members[i].0 in m && v.members[i].1 == String(m[v.members[i].0]))
      && (forall i, j | 0 <= i < j < |v.members| :: v.members[i].0 != v.members[j].0)
      && (forall key | key in m :: exists i :: 0 <= i < |v.members| && v.members[i].0 == key)
  }

  lemma {:induction false} EntriesPut(order: seq<bytes>, m: Metadata, n: nat, depth: nat)
    requires (forall key | key in order :: key in m) && n <= |order|
    ensures WellUsed(EntryCalls(order, m)[..n], depth)
    ensures var members := MembersPut(EntryCalls(order, m)[..n], depth);
            |members| == n && forall i | 0 <= i < n :: members[i] == (order[i], String(m[order[i]]))
    decreases n
  {
    hide KeyReads, KeyOf, Escaped, ParseAt;
    if n > 0 {
      var calls := EntryCalls(order, m)[..n];
      assert calls[..n - 1] == EntryCalls(order, m)[..n - 1];
      EntriesPut(order, m, n - 1, depth);
      EscapedKeyReads(order[n - 1]);
      assert calls[n - 1] == PutStr(Escaped(order[n - 1]), m[order[n - 1]]);
      assert forall c | c in calls :: c in calls[..n - 1] || c == calls[n - 1];
    }
  }

  /** Metadata of any keys and values is read back as the same map, at any depth within the limit. */
  lemma MetadataReadsBack(order: seq<bytes>, m: Metadata, depth: nat)
    requires Enumerates(order, m) && depth < MAX_DEPTH
    ensures ParseAt(Built(EntryCalls(order, m)), depth).Document?
    ensures var v := ParseAt(Built(EntryCalls(order, m)), depth).value; v != Null && ReadsAsMap(v, m)
  {
    hide ParseAt, Built, WellUsed, MembersPut;
    var calls := EntryCalls(order, m);
    EntriesPut(order, m, |order|, depth);
    assert calls[..|order|] == calls;
    BuilderReadsBack(calls, depth);
  }

  // Looking fields up in an object written field by field, some of them left out.

  function Flatten(fields: seq<seq<(bytes, Value)>>): seq<(bytes, Value)> {
    if fields == [] then [] else fields[0] + Flatten(fields[1..])
  }

  /** Each field is left out or is one member under its own key. */
  ghost predicate Fields(keys: seq<bytes>, fields: seq<seq<(bytes, Value)>>) {
    && |keys| == |fields|
    && (forall i | 0 <= i < |keys| :: fields[i] == [] || (|fields[i]| == 1 && fields[i][0].0 == keys[i]))
    && (forall i, j | 0 <= i < j < |keys| :: keys[i] != keys[j])
  }

  lemma {:induction false} FindField(keys: seq<bytes>, fields: seq<seq<(bytes, Value)>>, i: nat)
    requires Fields(keys, fields) && i < |keys|
    ensures FindMember(Flatten(fields), keys[i]) == if fields[i] == [] then Null else fields[i][0].1
    decreases |keys|
  {
    if i == 0 {
      NotAmong(keys[0], keys[1..], fields[1..]);
    } else {
      FindField(keys[1..], fields[1..], i - 1);
    }
    if fields[0] != [] {
      assert Flatten(fields)[1..] == Flatten(fields[1..]);
    } else {
      assert Flatten(fields) == Flatten(fields[1..]);
    }
  }

  lemma {:induction false} NotAmong(key: bytes, keys: seq<bytes>, fields: seq<seq<(bytes, Value)>>)
    requires Fields(keys, fields) && key !in keys
    ensures FindMember(Flatten(fields), key) == Null
    decreases |keys|
  {
    if keys != [] {
      NotAmong(key, keys[1..], fields[1..]);
      if fields[0] != [] {
        assert Flatten(fields)[1..] == Flatten(fields[1..]);
      } else {
        assert Flatten(fields) == Flatten(fields[1..]);
      }
    }
  }

  const KEYS: seq<bytes> := [SLUG, NAME, DESCRIPTION, LOGO_URL, LOW_QUEUE_THRESHOLD, METADATA]

  lemma KeysDistinct()
    ensures |KEYS| == 6 && forall i, j | 0 <= i < j < |KEYS| :: KEYS[i] != KEYS[j]
    ensures forall key | key in KEYS :: PlainKey(key)
  {
    assert |SLUG| == 4 && |NAME| == 4 && SLUG[0] != NAME[0];
    assert |DESCRIPTION| == 11 && |LOGO_URL| == 7 && |LOW_QUEUE_THRESHOLD| == 17 && |METADATA| == 8;
  }

  /** What one call puts in. */
  function Field(c: Call, depth: nat): seq<(bytes, Value)> {
    if Skipped(c) then [] else [(KeyOf(c.key), ValueOf(c, depth))]
  }

  function FieldsOf(calls: seq<Call>, depth: nat): seq<seq<(bytes, Value)>> {
    seq(|calls|, i requires 0 <= i < |calls| => Field(calls[i], depth))
  }

  lemma {:induction false} PutIsFlat(calls: seq<Call>, depth: nat)
    ensures MembersPut(calls, depth) == Flatten(FieldsOf(calls, depth))
    decreases |calls|
  {
    hide KeyOf, ValueOf;
    if calls != [] {
      var front, last := calls[..|calls| - 1], calls[|calls| - 1];
      PutIsFlat(front, depth);
      assert FieldsOf(calls, depth) == FieldsOf(front, depth) + [Field(last, depth)];
      FlattenSnoc(FieldsOf(front, depth), Field(last, depth));
    }
  }

  lemma {:induction false} FlattenSnoc(fields: seq<seq<(bytes, Value)>>, field: seq<(bytes, Value)>)
    ensures Flatten(fields + [field]) == Flatten(fields) + field
    decreases |fields|
  {
    if fields == [] {
      assert fields + [field] == [field];
      assert Flatten([field]) == field + Flatten([]);
    } else {
      assert (fields + [field])[1..] == fields[1..] + [field];
      FlattenSnoc(fields[1..], field);
    }
  }

  /** The six fields of a request, those that are not sent left out. */
  ghost function RequestFields(s: Station, order: seq<bytes>): seq<seq<(bytes, Value)>>
    requires forall key | key in order :: key in s.metadata
    reads s
  {
    [ [(SLUG, String(s.slug))],
      [(NAME, String(if s.name == [] then s.slug else s.name))],
      if s.description == [] then [] else [(DESCRIPTION, String(s.description))],
      if s.logoUrl == [] then [] else [(LOGO_URL, String(s.logoUrl))],
      if s.lowQueueThreshold > 0 then [(LOW_QUEUE_THRESHOLD, Number(DecimalText(s.lowQueueThreshold)))] else [],
      if s.metadata == map[] then []
      else [(METADATA, ValueOf(PutRaw(METADATA, Built(EntryCalls(order, s.metadata))), 0))] ]
  }

  lemma RequestKeysRead()
    ensures KeyReads(SLUG) && KeyReads(NAME) && KeyReads(DESCRIPTION) && KeyReads(LOGO_URL)
    ensures KeyReads(LOW_QUEUE_THRESHOLD) && KeyReads(METADATA)
    ensures KeyOf(SLUG) == SLUG && KeyOf(NAME) == NAME && KeyOf(DESCRIPTION) == DESCRIPTION
    ensures KeyOf(LOGO_URL) == LOGO_URL && KeyOf(LOW_QUEUE_THRESHOLD) == LOW_QUEUE_THRESHOLD
            && KeyOf(METADATA) == METADATA
  {
    hide KeyReads, KeyOf, PlainKey;
    KeysDistinct();
    forall key | key in KEYS ensures KeyReads(key) && KeyOf(key) == key { PlainKeyReads(key); }
    assert KEYS[0] in KEYS && KEYS[1] in KEYS && KEYS[2] in KEYS && KEYS[3] in KEYS && KEYS[4] in KEYS
           && KEYS[5] in KEYS;
  }

  lemma RequestWellUsed(s: Station, order: seq<bytes>)
    requires Enumerates(order, s.metadata)
    ensures WellUsed(s.RequestCalls(order), 0)
  {
    hide KeyReads, KeyOf, ParseAt, Built, Escaped, DecimalText, PlainKey, EntryCalls;
    RequestKeysRead();
    MetadataReadsBack(order, s.metadata, 1);
  }

  lemma RequestPuts(s: Station, order: seq<bytes>)
    requires Enumerates(order, s.metadata)
    ensures MembersPut(s.RequestCalls(order), 0) == Flatten(RequestFields(s, order))
  {
    hide KeyReads, KeyOf, ParseAt, Built, Escaped, DecimalText, PlainKey, EntryCalls, Flatten, MembersPut, WellUsed;
    var calls := s.RequestCalls(order);
    RequestKeysRead();
    PutIsFlat(calls, 0);
    var fields := RequestFields(s, order);
    var base := [fields[0], fields[1], fields[2], fields[3]];
    var threshold := if s.lowQueueThreshold > 0 then [fields[4]] else [];
    var metadata := if s.metadata != map[] then [fields[5]] else [];
    assert FieldsOf(calls, 0) == base + threshold + metadata;
    DropEmpty(base, threshold, metadata, fields);
  }

  lemma DropEmpty(base: seq<seq<(bytes, Value)>>, fifth: seq<seq<(bytes, Value)>>, sixth: seq<seq<(bytes, Value)>>,
                  fields: seq<seq<(bytes, Value)>>)
    requires |base| == 4 && |fields| == 6 && fields[..4] == base
    requires fifth == [fields[4]] || (fifth == [] && fields[4] == [])
    requires sixth == [fields[5]] || (sixth == [] && fields[5] == [])
    ensures Flatten(base + fifth + sixth) == Flatten(fields)
  {
    assert fields == base + [fields[4]] + [fields[5]];
    FlattenSnoc(base, fields[4]);
    FlattenSnoc(base + [fields[4]], fields[5]);
    if fifth != [] {
      assert base + fifth == base + [fields[4]];
    } else {
      assert base + fifth == base;
    }
    if sixth != [] {
      FlattenSnoc(base + fifth, fields[5]);
    } else {
      assert base + fifth + sixth == base + fifth;
    }
  }

  /** A registration request is read back as the station's parameters, whatever its strings and metadata hold. */
  lemma RequestReadsBack(s: Station, order: seq<bytes>)
    requires Enumerates(order, s.metadata) && s.lowQueueThreshold <= LLONG_MAX
    ensures ParseDocument(Built(s.RequestCalls(order))).Document?
    ensures var v := ParseDocument(Built(s.RequestCalls(order))).value;
            && Str(v, Ascii("slug"), []) == s.slug
            && Str(v, Ascii("name"), []) == (if s.name == [] then s.slug else s.name)
            && Str(v, Ascii("description"), []) == s.description
            && Str(v, Ascii("logoUrl"), []) == s.logoUrl
            && Int(v, Ascii("lowQueueThreshold"), 0) == (if s.lowQueueThreshold > 0 then s.lowQueueThreshold else 0)
            && ReadsAsMap(Get(v, Ascii("metadata")), s.metadata)
            && (Get(v, Ascii("description")) == Null <==> s.description == [])
            && (Get(v, Ascii("logoUrl")) == Null <==> s.logoUrl == [])
            && (Get(v, Ascii("lowQueueThreshold")) == Null <==> s.lowQueueThreshold <= 0)
            && (Get(v, Ascii("metadata")) == Null <==> s.metadata == map[])
  {
    KeysAre();
    ThresholdKeyIs();
    hide KeyReads, KeyOf, ParseAt, Built, Escaped, DecimalText, PlainKey, WellUsed, MembersPut, Flatten, FindMember,
         Strtoll, EntryCalls, ReadsAsMap, Ascii;
    RequestWellUsed(s, order);
    RequestPuts(s, order);
    BuilderReadsBack(s.RequestCalls(order), 0);
    KeysDistinct();
    var fields := RequestFields(s, order);
    assert Fields(KEYS, fields);
    FindField(KEYS, fields, 0);
    FindField(KEYS, fields, 1);
    FindField(KEYS, fields, 2);
    FindField(KEYS, fields, 3);
    FindField(KEYS, fields, 4);
    FindField(KEYS, fields, 5);
    if s.lowQueueThreshold > 0 {
      IntReadsBack(s.lowQueueThreshold);
    }
    MetadataReadsBack(order, s.metadata, 1);
    EmptyMapReads();
  }

  lemma KeysAre()
    ensures SLUG == Ascii("slug") && NAME == Ascii("name") && DESCRIPTION == Ascii("description")
    ensures LOGO_URL == Ascii("logoUrl") && METADATA == Ascii("metadata")
  {
  }

  lemma ThresholdKeyIs()
    ensures LOW_QUEUE_THRESHOLD == Ascii("lowQueueThreshold")
  {
  }

  lemma EmptyMapReads()
    ensures ReadsAsMap(Null, map[])
  {
  }
}
