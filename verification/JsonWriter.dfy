/**
 Writing JSON: string escaping, and the builder of request bodies. Everything written is read back by the
 reader as what was put in.
 */
module JsonWriter {
  import opened Bytes
  import opened Json
  import opened JsonGrammar
  import opened JsonReading
  import opened JsonTrees

  // ----- escaping -----

  /** Four lower-case hexadecimal digits. */
  function Hex4(n: nat): bytes
    requires n < 0x1_0000
  {
    [DigitByte(n / 0x1000), DigitByte(n / 0x100 % 0x10), DigitByte(n / 0x10 % 0x10), DigitByte(n % 0x10)]
  }

  /** The letter of the short escape for `b`, or 0 if it has none. */
  function ShortEscape(b: byte): byte {
    if b == QUOTE || b == BACKSLASH then b
    else if b == 0x08 then 0x62
    else if b == 0x0C then 0x66
    else if b == LF then 0x6E
    else if b == CR then 0x72
    else if b == TAB then 0x74
    else 0
  }

  function EscapeByte(b: byte): bytes {
    if ShortEscape(b) != 0 then [BACKSLASH, ShortEscape(b)]
    else if b < 0x20 then [BACKSLASH, LETTER_U] + Hex4(b)
    else [b]
  }

  function Escaped(s: bytes): bytes {
    if s == [] then [] else Escaped(s[..|s| - 1]) + EscapeByte(s[|s| - 1])
  }

  lemma {:induction false} EscapedLength(s: bytes)
    ensures |Escaped(s)| <= 6 * |s|
    decreases |s|
  {
    if s != [] {
      EscapedLength(s[..|s| - 1]);
    }
  }

  method JsonEscape(s: bytes) returns (out: bytes)
    ensures out == Escaped(s)
  {
    out := [];
    for i := 0 to |s|
      invariant out == Escaped(s[..i])
    {
      assert s[..i + 1][..i] == s[..i];
      out := out + EscapeByte(s[i]);
    }
    assert s[..|s|] == s;
  }

  lemma DigitReads(d: nat)
    requires d < 16
    ensures DigitValue(DigitByte(d)) == d
  {
  }

  lemma Hex4IsUnit(n: nat)
    requires n < 0x1_0000
    ensures IsHex4(Hex4(n)) && UnitValue(Hex4(n)) == n
  {
    hide DigitByte, DigitValue;
    DigitReads(n / 0x1000);
    DigitReads(n / 0x100 % 0x10);
    DigitReads(n / 0x10 % 0x10);
    DigitReads(n % 0x10);
    HexSplit(n);
  }

  lemma HexSplit(n: nat)
    requires n < 0x1_0000
    ensures n / 0x1000 < 0x10
    ensures n == ((n / 0x1000 * 16 + n / 0x100 % 0x10) * 16 + n / 0x10 % 0x10) * 16 + n % 0x10
  {
    assert n / 0x100 == n / 0x1000 * 16 + n / 0x100 % 0x10;
    assert n / 0x10 == n / 0x100 * 16 + n / 0x10 % 0x10;
  }

  function PieceOf(b: byte): Piece {
    if ShortEscape(b) != 0 then Simple(ShortEscape(b)) else if b < 0x20 then Unit(Hex4(b)) else Plain(b)
  }

  lemma PieceOfByte(b: byte)
    ensures ValidPiece(PieceOf(b)) && PieceText(PieceOf(b)) == EscapeByte(b) && PieceValue(PieceOf(b)) == [b]
    ensures PieceOf(b).Unit? ==> !IsHigh(UnitValue(PieceOf(b).digits))
  {
    Hex4IsUnit(b);
  }

  /** The syntax of an escaped string: one piece a byte. */
  lemma {:induction false} EscapedPieces(s: bytes) returns (ps: seq<Piece>)
    ensures ValidPieces(ps) && PiecesText(ps) == Escaped(s) && StringMeaning(ps) == s
    ensures ps != [] ==> !IsPair(ps)
  {
    hide PieceText, PieceValue, UnitValue;
    if s == [] {
      ps := [];
    } else {
      EscapedFront(s);
      var more := EscapedPieces(s[1..]);
      ps := [PieceOf(s[0])] + more;
      PieceOfByte(s[0]);
      assert ps[1..] == more;
    }
  }

  /** Escaping goes byte by byte from either end. */
  lemma {:induction false} EscapedFront(s: bytes)
    requires s != []
    ensures Escaped(s) == EscapeByte(s[0]) + Escaped(s[1..])
    decreases |s|
  {
    hide EscapeByte;
    if |s| > 1 {
      var front := s[..|s| - 1];
      EscapedFront(front);
      assert front[1..] == s[1..][..|s[1..]| - 1];
      assert EscapeByte(s[0]) + Escaped(front[1..]) + EscapeByte(s[|s| - 1])
          == EscapeByte(s[0]) + (Escaped(front[1..]) + EscapeByte(s[|s| - 1]));
    } else {
      assert s[..0] == [] && s[1..] == [];
    }
  }

  /** Every byte string survives being escaped, quoted and read, and reading stops at the closing quote. */
  lemma EscapedReadsBack(s: bytes, rest: bytes)
    ensures ReadChars(Escaped(s) + [QUOTE] + rest) == Ok(s, rest)
  {
    hide ReadChars, PiecesText, StringMeaning, Escaped;
    var ps := EscapedPieces(s);
    CharsRead(ps, rest);
  }

  // ----- \u escapes of whole characters -----

  predicate IsScalar(cp: nat) {
    cp < 0x11_0000 && !(0xD800 <= cp < 0xE000)
  }

  /** A character as \u escapes, RFC 8259 section 7: one code unit, or a surrogate pair above U+FFFF. */
  function UnicodeEscape(cp: nat): bytes
    requires cp < 0x11_0000
  {
    if cp < 0x1_0000 then [BACKSLASH, LETTER_U] + Hex4(cp)
    else
      [BACKSLASH, LETTER_U] + Hex4(0xD800 + (cp - 0x1_0000) / 0x400)
      + [BACKSLASH, LETTER_U] + Hex4(0xDC00 + (cp - 0x1_0000) % 0x400)
  }

  /** Every character's escape is read as the character's UTF-8 bytes. */
  lemma UnicodeEscapeReadsBack(cp: nat, rest: bytes)
    requires IsScalar(cp)
    ensures ReadChars(UnicodeEscape(cp) + [QUOTE] + rest) == Ok(Utf8(cp), rest)
  {
    hide Utf8, UnitValue, Hex4, ReadChars, PiecesText, StringMeaning;
    if cp < 0x1_0000 {
      Hex4IsUnit(cp);
      OnePiece(Unit(Hex4(cp)));
      CharsRead([Unit(Hex4(cp))], rest);
    } else {
      var high, low := 0xD800 + (cp - 0x1_0000) / 0x400, 0xDC00 + (cp - 0x1_0000) % 0x400;
      Hex4IsUnit(high);
      Hex4IsUnit(low);
      assert Combine(high, low) == cp;
      TwoPieces(Unit(Hex4(high)), Unit(Hex4(low)));
      assert PieceText(Unit(Hex4(high))) + PieceText(Unit(Hex4(low))) == UnicodeEscape(cp);
      CharsRead([Unit(Hex4(high)), Unit(Hex4(low))], rest);
    }
  }

  predicate IsTail(b: byte) {
    0x80 <= b < 0xC0
  }

  /** The bits of `b` below its marker. */
  function Bits(b: byte, marker: int): int {
    b - marker
  }

  /** The character that a UTF-8 sequence encodes by the syntax of section 4 of RFC 3629, or -1. */
  function DecodeUtf8(s: bytes): int {
    if |s| == 1 && s[0] < 0x80 then Bits(s[0], 0)
    else if |s| == 2 && 0xC2 <= s[0] < 0xE0 && IsTail(s[1]) then Bits(s[0], 0xC0) * 0x40 + Bits(s[1], 0x80)
    else if |s| == 3 && 0xE0 <= s[0] < 0xF0 && IsTail(s[1]) && IsTail(s[2])
            && (s[0] == 0xE0 ==> s[1] >= 0xA0) && (s[0] == 0xED ==> s[1] < 0xA0)
    then Bits(s[0], 0xE0) * 0x1000 + Bits(s[1], 0x80) * 0x40 + Bits(s[2], 0x80)
    else if |s| == 4 && 0xF0 <= s[0] < 0xF5 && IsTail(s[1]) && IsTail(s[2]) && IsTail(s[3])
            && (s[0] == 0xF0 ==> s[1] >= 0x90) && (s[0] == 0xF4 ==> s[1] < 0x90)
    then Bits(s[0], 0xF0) * 0x4_0000 + Bits(s[1], 0x80) * 0x1000 + Bits(s[2], 0x80) * 0x40 + Bits(s[3], 0x80)
    else -1
  }

  /** What the reader appends for a code point is well-formed UTF-8 for it, and for nothing but characters:
      a lone surrogate comes out as bytes that RFC 3629 does not allow. */
  lemma Utf8IsWellFormed(cp: nat)
    requires cp < 0x11_0000
    ensures DecodeUtf8(Utf8(cp)) == if IsScalar(cp) then cp else -1
  {
    hide Utf8, DecodeUtf8;
    if cp < 0x800 {
      OneOrTwoBytes(cp);
    } else if cp < 0x1_0000 {
      ThreeBytes(cp);
    } else {
      FourBytes(cp);
    }
  }

  lemma OneOrTwoBytes(cp: nat)
    requires cp < 0x800
    ensures DecodeUtf8(Utf8(cp)) == cp && IsScalar(cp)
  {
  }

  lemma ThreeBytes(cp: nat)
    requires 0x800 <= cp < 0x1_0000
    ensures DecodeUtf8(Utf8(cp)) == if IsScalar(cp) then cp else -1
  {
    assert cp == cp / 0x1000 * 0x1000 + cp / 0x40 % 0x40 * 0x40 + cp % 0x40;
  }

  lemma FourBytes(cp: nat)
    requires 0x1_0000 <= cp < 0x11_0000
    ensures DecodeUtf8(Utf8(cp)) == cp && IsScalar(cp)
  {
    var a, b, c, d := cp / 0x4_0000, cp / 0x1000 % 0x40, cp / 0x40 % 0x40, cp % 0x40;
    assert Utf8(cp) == [0xF0 + a, 0x80 + b, 0x80 + c, 0x80 + d];
    Sextets(cp);
  }

  lemma Sextets(cp: nat)
    requires 0x1_0000 <= cp < 0x11_0000
    ensures var a, b := cp / 0x4_0000, cp / 0x1000 % 0x40;
            && cp == a * 0x4_0000 + b * 0x1000 + cp / 0x40 % 0x40 * 0x40 + cp % 0x40
            && a <= 4 && (a == 0 ==> b >= 0x10) && (a == 4 ==> b < 0x10)
  {
    var m := cp / 0x40;
    var n := m / 0x40;
    assert n == cp / 0x1000 && n / 0x40 == cp / 0x4_0000;
    assert cp == m * 0x40 + cp % 0x40 && m == n * 0x40 + m % 0x40 && n == n / 0x40 * 0x40 + n % 0x40;
  }

  // ----- the builder -----

  /** One call on a builder. */
  datatype Call =
    | PutStr(key: bytes, str: bytes)
    | PutStrIfSet(key: bytes, str: bytes)
    | PutInt(key: bytes, n: int)
    | PutBool(key: bytes, b: bool)
    | PutRaw(key: bytes, raw: bytes)

  function ValueText(c: Call): bytes {
    match c
    case PutStr(_, str) => [QUOTE] + Escaped(str) + [QUOTE]
    case PutStrIfSet(_, str) => [QUOTE] + Escaped(str) + [QUOTE]
    case PutInt(_, n) => DecimalText(n)
    case PutBool(_, b) => if b then TRUE_TEXT else FALSE_TEXT
    case PutRaw(_, raw) => raw
  }

  predicate Skipped(c: Call) {
    c.PutStrIfSet? && c.str == []
  }

  /** The body a builder holds after one more call. */
  function BodyAfter(body: bytes, c: Call): bytes {
    if Skipped(c) then body
    else (if body == [] then [] else body + [COMMA]) + [QUOTE] + c.key + [QUOTE, COLON] + ValueText(c)
  }

  function Body(calls: seq<Call>): bytes {
    if calls == [] then [] else BodyAfter(Body(calls[..|calls| - 1]), calls[|calls| - 1])
  }

  function Built(calls: seq<Call>): bytes {
    [LBRACE] + Body(calls) + [RBRACE]
  }

  class JsonObject {
    var body: bytes
    ghost var calls: seq<Call>

    ghost predicate Valid()
      reads this
    {
      body == Body(calls)
    }

    constructor ()
      ensures Valid() && calls == []
    {
      body, calls := [], [];
    }

    method Key(key: bytes, ghost c: Call)
      requires Valid() && c.key == key && !Skipped(c)
      modifies this
      ensures calls == old(calls) + [c] && body + ValueText(c) == Body(calls)
    {
      calls := calls + [c];
      assert calls[..|calls| - 1] == old(calls);
      if body != [] {
        body := body + [COMMA];
      }
      body := body + [QUOTE];
      body := body + key;
      body := body + [QUOTE, COLON];
    }

    method Str(key: bytes, value: bytes)
      requires Valid()
      modifies this
      ensures Valid() && calls == old(calls) + [PutStr(key, value)]
    {
      Key(key, PutStr(key, value));
      var escaped := JsonEscape(value);
      body := body + ([QUOTE] + escaped + [QUOTE]);
    }

    method StrIfSet(key: bytes, value: bytes)
      requires Valid()
      modifies this
      ensures Valid() && calls == old(calls) + [PutStrIfSet(key, value)]
    {
      if value == [] {
        calls := calls + [PutStrIfSet(key, value)];
        assert calls[..|calls| - 1] == old(calls);
        return;
      }
      Key(key, PutStrIfSet(key, value));
      var escaped := JsonEscape(value);
      body := body + ([QUOTE] + escaped + [QUOTE]);
    }

    method Int(key: bytes, value: int)
      requires Valid()
      modifies this
      ensures Valid() && calls == old(calls) + [PutInt(key, value)]
    {
      Key(key, PutInt(key, value));
      body := body + DecimalText(value);
    }

    method Bool(key: bytes, value: bool)
      requires Valid()
      modifies this
      ensures Valid() && calls == old(calls) + [PutBool(key, value)]
    {
      Key(key, PutBool(key, value));
      body := body + if value then TRUE_TEXT else FALSE_TEXT;
    }

    method Raw(key: bytes, raw: bytes)
      requires Valid()
      modifies this
      ensures Valid() && calls == old(calls) + [PutRaw(key, raw)]
    {
      Key(key, PutRaw(key, raw));
      body := body + raw;
    }

    method Build() returns (text: bytes)
      requires Valid()
      ensures text == Built(calls)
    {
      text := [LBRACE] + body + [RBRACE];
    }
  }

  // ----- the builder is undone by the reader -----

  /** A key the builder can be given: it is written as it is, so it must be the inside of a JSON string. */
  predicate KeyReads(key: bytes) {
    ReadChars(key + [QUOTE]).Ok? && ReadChars(key + [QUOTE]).rest == []
  }

  /** The key that such a text stands for. */
  function KeyOf(key: bytes): bytes {
    match ReadChars(key + [QUOTE])
    case Fail => []
    case Ok(chars, _) => chars
  }

  /** Keys are the inside of strings, and raw text is JSON that may sit one level below `depth`. */
  predicate WellUsed(calls: seq<Call>, depth: nat) {
    forall c | c in calls :: KeyReads(c.key) && (c.PutRaw? ==> ParseAt(c.raw, depth + 1).Document?)
  }

  /** The value a call puts in. */
  function ValueOf(c: Call, depth: nat): Value {
    match c
    case PutStr(_, str) => String(str)
    case PutStrIfSet(_, str) => String(str)
    case PutInt(_, n) => Number(DecimalText(n))
    case PutBool(_, b) => Json.Bool(b)
    case PutRaw(_, raw) => if ParseAt(raw, depth + 1).Document? then ParseAt(raw, depth + 1).value else Null
  }

  /** The members that a sequence of calls puts in, in call order. */
  function MembersPut(calls: seq<Call>, depth: nat): seq<(bytes, Value)> {
    if calls == [] then []
    else
      var last := calls[|calls| - 1];
      MembersPut(calls[..|calls| - 1], depth) + if Skipped(last) then [] else [(KeyOf(last.key), ValueOf(last, depth))]
  }

  /** A key with nothing to escape in it stands for itself. */
  predicate PlainKey(key: bytes) {
    QUOTE !in key && BACKSLASH !in key
  }

  lemma {:induction false} PlainKeyReads(key: bytes)
    requires PlainKey(key)
    ensures ReadChars(key + [QUOTE]) == Ok(key, [])
    ensures KeyReads(key) && KeyOf(key) == key
  {
    if key == [] {
      assert key + [QUOTE] == [QUOTE];
    } else {
      assert key[0] in key;
      assert (key + [QUOTE])[1..] == key[1..] + [QUOTE];
      PlainKeyReads(key[1..]);
      assert [key[0]] + key[1..] == key;
    }
  }

  /** An escaped key stands for what was escaped. */
  lemma EscapedKeyReads(key: bytes)
    ensures KeyReads(Escaped(key)) && KeyOf(Escaped(key)) == key
  {
    hide ReadChars, Escaped;
    EscapedReadsBack(key, []);
    assert Escaped(key) + [QUOTE] + [] == Escaped(key) + [QUOTE];
  }

  lemma KeyPieces(key: bytes) returns (ps: seq<Piece>)
    requires KeyReads(key)
    ensures ValidPieces(ps) && PiecesText(ps) == key && StringMeaning(ps) == KeyOf(key)
  {
    hide ReadChars, PiecesText, StringMeaning;
    ps := CharsSound(key + [QUOTE]);
    assert PiecesText(ps) + [QUOTE] + [] == PiecesText(ps) + [QUOTE];
    assert (key + [QUOTE])[..|key|] == key;
    assert (PiecesText(ps) + [QUOTE])[..|key|] == PiecesText(ps);
  }

  lemma DecimalIsNumber(n: int)
    ensures IsNumberText(DecimalText(n))
  {
    var s := DecimalText(n);
    assert n < 0 ==> s[1..] == Numeral(-n, 10);
    assert n < 0 ==> forall b | b in s :: b == MINUS || b in s[1..];
    assert n >= 0 ==> s[0] in s;
  }

  /** The syntax of one call: a member with its value and whatever blanks a raw text brings. */
  lemma MemberOf(c: Call, depth: nat) returns (m: JsonGrammar.Member)
    requires KeyReads(c.key) && (c.PutRaw? ==> ParseAt(c.raw, depth + 1).Document?) && depth < MAX_DEPTH
    ensures ValidMember(m) && MemberText(m) == [QUOTE] + c.key + [QUOTE, COLON] + ValueText(c)
    ensures StringMeaning(m.key) == KeyOf(c.key) && Meaning(m.value) == ValueOf(c, depth)
    ensures depth + 1 + Height(m.value) <= MAX_DEPTH
  {
    hide PiecesText, StringMeaning, Escaped, ParseAt, DecimalText, IsNumberText, KeyReads, KeyOf;
    var key := KeyPieces(c.key);
    var doc: Doc;
    match c {
      case PutStr(_, str) =>
        var ps := EscapedPieces(str);
        doc := Doc([], StringTree(ps), []);
      case PutStrIfSet(_, str) =>
        var ps := EscapedPieces(str);
        doc := Doc([], StringTree(ps), []);
      case PutInt(_, n) =>
        DecimalIsNumber(n);
        doc := Doc([], NumberTree(DecimalText(n)), []);
      case PutBool(_, b) =>
        doc := Doc([], BoolTree(b), []);
      case PutRaw(_, raw) =>
        doc := DocumentSound(raw, depth + 1);
    }
    m := JsonGrammar.Member([], key, [], doc.before, doc.tree, doc.after);
    MemberSpelled(m, doc);
    assert DocText(doc) == ValueText(c);
  }

  lemma MemberSpelled(m: JsonGrammar.Member, d: Doc)
    requires m.before == [] && m.beforeColon == []
    requires m.afterColon == d.before && m.value == d.tree && m.after == d.after
    ensures MemberText(m) == [QUOTE] + PiecesText(m.key) + [QUOTE, COLON] + DocText(d)
  {
    assert [QUOTE, COLON] == [QUOTE] + [COLON];
  }

  function MembersBody(ms: seq<JsonGrammar.Member>): bytes {
    if ms == [] then []
    else if |ms| == 1 then MemberText(ms[0])
    else MemberText(ms[0]) + [COMMA] + MembersBody(ms[1..])
  }

  function MembersTree(ms: seq<JsonGrammar.Member>): Members
    requires ms != []
  {
    if |ms| == 1 then LastMember(ms[0]) else MoreMembers(ms[0], MembersTree(ms[1..]))
  }

  ghost predicate ValidAt(ms: seq<JsonGrammar.Member>, depth: nat) {
    forall m | m in ms :: ValidMember(m) && depth + 1 + Height(m.value) <= MAX_DEPTH
  }

  function MemberMeanings(ms: seq<JsonGrammar.Member>): seq<(bytes, Value)>
    requires forall m | m in ms :: ValidMember(m)
  {
    seq(|ms|, i requires 0 <= i < |ms| =>
      assert ms[i] in ms; assert ValidMember(ms[i]); (StringMeaning(ms[i].key), Meaning(ms[i].value)))
  }

  lemma {:induction false} MembersBodyGrows(ms: seq<JsonGrammar.Member>, m: JsonGrammar.Member)
    ensures MembersBody(ms + [m]) == (if ms == [] then [] else MembersBody(ms) + [COMMA]) + MemberText(m)
    decreases |ms|
  {
    hide MemberText;
    if ms == [] {
      assert ms + [m] == [m];
    } else {
      assert (ms + [m])[1..] == ms[1..] + [m];
      MembersBodyGrows(ms[1..], m);
    }
  }

  lemma MembersTreeIs(ms: seq<JsonGrammar.Member>, depth: nat)
    requires ms != [] && ValidAt(ms, depth)
    ensures var tree := MembersTree(ms);
            && ValidMembers(tree) && MembersText(tree) == MembersBody(ms) + [RBRACE]
            && MembersMeaning(tree) == MemberMeanings(ms) && depth + 1 + MembersHeight(tree) <= MAX_DEPTH
  {
    MembersTreeText(ms, depth);
    MembersTreeMeaning(ms, depth);
  }

  lemma {:induction false} MembersTreeText(ms: seq<JsonGrammar.Member>, depth: nat)
    requires ms != [] && ValidAt(ms, depth)
    ensures ValidMembers(MembersTree(ms)) && MembersText(MembersTree(ms)) == MembersBody(ms) + [RBRACE]
    decreases |ms|
  {
    hide MemberText, StringMeaning, Meaning, Height, ValidMember;
    assert ms[0] in ms;
    ValidParts(ms[0]);
    if |ms| > 1 {
      assert forall m | m in ms[1..] :: m in ms;
      MembersTreeText(ms[1..], depth);
    }
  }

  lemma {:induction false} MembersTreeMeaning(ms: seq<JsonGrammar.Member>, depth: nat)
    requires ms != [] && ValidAt(ms, depth) && ValidMembers(MembersTree(ms))
    ensures var tree := MembersTree(ms);
            MembersMeaning(tree) == MemberMeanings(ms) && depth + 1 + MembersHeight(tree) <= MAX_DEPTH
    decreases |ms|
  {
    hide MemberText, StringMeaning, Meaning, Height, ValidMember;
    assert ms[0] in ms;
    ValidParts(ms[0]);
    if |ms| > 1 {
      assert forall m | m in ms[1..] :: m in ms;
      MembersTreeMeaning(ms[1..], depth);
      assert MemberMeanings(ms) == [MemberMeanings(ms)[0]] + MemberMeanings(ms[1..]);
    } else {
      assert MemberMeanings(ms) == [MemberMeanings(ms)[0]];
    }
  }

  /** The syntax of a whole builder. */
  lemma {:induction false} MembersOfCalls(calls: seq<Call>, depth: nat) returns (ms: seq<JsonGrammar.Member>)
    requires WellUsed(calls, depth) && depth < MAX_DEPTH
    ensures ValidAt(ms, depth) && MembersBody(ms) == Body(calls) && MemberMeanings(ms) == MembersPut(calls, depth)
    ensures ms == [] <==> Body(calls) == []
    decreases |calls|
  {
    hide MemberText, StringMeaning, Meaning, Height, ValidMember, ParseAt, MembersBody, ValueText, KeyReads, KeyOf;
    if calls == [] {
      ms := [];
      NoMembers();
      return;
    }
    var front, last := calls[..|calls| - 1], calls[|calls| - 1];
    assert forall c | c in front :: c in calls;
    ms := MembersOfCalls(front, depth);
    if !Skipped(last) {
      assert last in calls;
      var m := MemberOf(last, depth);
      CallGrows(ms, m, last, Body(front));
      MeaningsGrow(ms, m);
      ms := ms + [m];
    }
  }

  lemma CallGrows(ms: seq<JsonGrammar.Member>, m: JsonGrammar.Member, c: Call, body: bytes)
    requires !Skipped(c) && MembersBody(ms) == body && (ms == [] <==> body == [])
    requires MemberText(m) == [QUOTE] + c.key + [QUOTE, COLON] + ValueText(c)
    ensures MembersBody(ms + [m]) == BodyAfter(body, c) != []
  {
    hide MemberText, ValueText, MembersBody;
    MembersBodyGrows(ms, m);
    var comma := if body == [] then [] else body + [COMMA];
    assert comma + ([QUOTE] + c.key + [QUOTE, COLON] + ValueText(c))
           == comma + [QUOTE] + c.key + [QUOTE, COLON] + ValueText(c);
  }

  lemma MeaningsGrow(ms: seq<JsonGrammar.Member>, m: JsonGrammar.Member)
    requires (forall k | k in ms :: ValidMember(k)) && ValidMember(m)
    ensures ValidPieces(m.key) && JsonGrammar.Valid(m.value)
    ensures MemberMeanings(ms + [m]) == MemberMeanings(ms) + [(StringMeaning(m.key), Meaning(m.value))]
  {
    hide StringMeaning, Meaning, ValidMember;
    ValidParts(m);
  }

  lemma NoMembers()
    ensures MembersBody([]) == []
  {
  }

  /** What is built is read back as an object with exactly the members put in, in call order, at any depth
      the limit leaves room for; so built objects may be nested as raw members of others. */
  lemma BuilderReadsBack(calls: seq<Call>, depth: nat)
    requires WellUsed(calls, depth) && depth < MAX_DEPTH
    ensures ParseAt(Built(calls), depth) == Document(Object(MembersPut(calls, depth)))
  {
    hide ParseAt, MembersText, MembersMeaning, MembersHeight, ValidMembers, MembersTree, MembersBody, MembersPut, Body,
         WellUsed;
    var ms := MembersOfCalls(calls, depth);
    var tree := EmptyObject([]);
    if ms != [] {
      MembersTreeIs(ms, depth);
      tree := ObjectTree(MembersTree(ms));
      assert [LBRACE] + (Body(calls) + [RBRACE]) == Built(calls);
    } else {
      assert MemberMeanings(ms) == [];
    }
    var doc := Doc([], tree, []);
    assert DocText(doc) == Text(tree) == Built(calls);
    DocumentReads(doc, depth);
  }

  /** An integer put in is read back by the integer accessor. */
  lemma IntReadsBack(n: int)
    requires LLONG_MIN <= n <= LLONG_MAX
    ensures AsInt(Number(DecimalText(n))) == n
    ensures AsInt(String(DecimalText(n))) == n
  {
    StrtollDecimal(n);
  }
}
