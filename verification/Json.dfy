/**
 JSON values and text. `ParseDocument` and the functions below it say what the recursive-descent reader
 does, as functions of the input still to be read; `JsonReader` is the class that reads with a cursor, and
 `JsonGrammar` relates both to the grammar of RFC 8259 as this reader understands it.
 */
module Json {
  import opened Bytes

  datatype Value =
    | Null
    | Bool(b: bool)
    | Number(text: bytes)
    | String(str: bytes)
    | Array(elems: seq<Value>)
    | Object(members: seq<(bytes, Value)>)

  /** The result of reading something at the front of an input: the thing read and the input after it. */
  datatype Read<+T> = Fail | Ok(value: T, rest: bytes)

  const MAX_DEPTH: nat := 64

  const QUOTE: byte := 0x22
  const COMMA: byte := 0x2C
  const DOT: byte := 0x2E
  const SLASH: byte := 0x2F
  const BACKSLASH: byte := 0x5C
  const LBRACKET: byte := 0x5B
  const RBRACKET: byte := 0x5D
  const LBRACE: byte := 0x7B
  const RBRACE: byte := 0x7D
  const LETTER_U: byte := 0x75

  const TRUE_TEXT: bytes := [0x74, 0x72, 0x75, 0x65]
  const FALSE_TEXT: bytes := [0x66, 0x61, 0x6C, 0x73, 0x65]
  const NULL_TEXT: bytes := [0x6E, 0x75, 0x6C, 0x6C]

  // ----- white space and numbers -----

  predicate IsBlank(b: byte) {
    b == SP || b == TAB || b == LF || b == CR
  }

  function SkipBlanks(s: bytes): (r: bytes)
    ensures |r| <= |s|
    ensures r != [] ==> !IsBlank(r[0])
  {
    if s != [] && IsBlank(s[0]) then SkipBlanks(s[1..]) else s
  }

  predicate IsNumberByte(b: byte) {
    DIGIT_0 <= b <= DIGIT_9 || b == DOT || b == 0x65 || b == 0x45 || b == PLUS || b == MINUS
  }

  /** The longest run of number bytes at the front of `s`. */
  function NumberRun(s: bytes): (n: nat)
    ensures n <= |s|
    ensures forall i | 0 <= i < n :: IsNumberByte(s[i])
    ensures n < |s| ==> !IsNumberByte(s[n])
  {
    if s == [] || !IsNumberByte(s[0]) then 0 else 1 + NumberRun(s[1..])
  }

  /** A run of number bytes that is not a lone sign. */
  predicate IsNumberText(text: bytes) {
    && text != []
    && (forall b | b in text :: IsNumberByte(b))
    && text != [PLUS] && text != [MINUS]
  }

  function ReadNumber(s: bytes): (r: Read<Value>)
    ensures r.Ok? ==> |r.rest| < |s|
  {
    var n := NumberRun(s);
    if n == 0 || s[..n] == [PLUS] || s[..n] == [MINUS] then Fail else Ok(Number(s[..n]), s[n..])
  }

  function ReadLiteral(s: bytes, literal: bytes, value: Value): (r: Read<Value>)
    requires literal != []
    ensures r.Ok? ==> |r.rest| < |s|
  {
    if literal <= s then Ok(value, s[|literal|..]) else Fail
  }

  // ----- strings -----

  /** UTF-8 as section 3 of RFC 3629 lays it out; a lone surrogate gets the three bytes of its number. */
  function Utf8(cp: nat): bytes
    requires cp < 0x11_0000
  {
    if cp < 0x80 then [cp]
    else if cp < 0x800 then [0xC0 + cp / 0x40, 0x80 + cp % 0x40]
    else if cp < 0x1_0000 then [0xE0 + cp / 0x1000, 0x80 + cp / 0x40 % 0x40, 0x80 + cp % 0x40]
    else [0xF0 + cp / 0x4_0000, 0x80 + cp / 0x1000 % 0x40, 0x80 + cp / 0x40 % 0x40, 0x80 + cp % 0x40]
  }

  /** The four hexadecimal digits at the front of `s`. */
  function ReadHex4(s: bytes): (r: Read<nat>)
    ensures r.Ok? ==> r.value < 0x1_0000 && |s| >= 4 && r.rest == s[4..]
  {
    if |s| >= 4 && (forall i | 0 <= i < 4 :: DigitValue(s[i]) < 16)
    then Ok(((DigitValue(s[0]) * 16 + DigitValue(s[1])) * 16 + DigitValue(s[2])) * 16 + DigitValue(s[3]), s[4..])
    else Fail
  }

  predicate IsHigh(unit: nat) {
    0xD800 <= unit <= 0xDBFF
  }

  predicate IsLow(unit: nat) {
    0xDC00 <= unit <= 0xDFFF
  }

  function Combine(high: nat, low: nat): (cp: nat)
    requires IsHigh(high) && IsLow(low)
    ensures 0x1_0000 <= cp < 0x11_0000
  {
    0x1_0000 + (high - 0xD800) * 0x400 + (low - 0xDC00)
  }

  /** What follows `\u`: one code unit, or two that form a pair. */
  function ReadUnicodeEscape(s: bytes): (r: Read<bytes>)
    ensures r.Ok? ==> |r.rest| < |s|
  {
    match ReadHex4(s)
    case Fail => Fail
    case Ok(unit, rest) =>
      if IsHigh(unit) && |rest| > 1 && rest[0] == BACKSLASH && rest[1] == LETTER_U then
        match ReadHex4(rest[2..])
        case Ok(low, after) => if IsLow(low) then Ok(Utf8(Combine(unit, low)), after) else Ok(Utf8(unit), rest)
        case Fail => Ok(Utf8(unit), rest)
      else Ok(Utf8(unit), rest)
  }

  /** The byte a one-letter escape stands for, or 256 if there is no such escape. */
  function SimpleEscape(letter: byte): (b: nat)
    ensures b <= 256
  {
    if letter == QUOTE || letter == BACKSLASH || letter == SLASH then letter
    else if letter == 0x62 then 0x08
    else if letter == 0x66 then 0x0C
    else if letter == 0x6E then LF
    else if letter == 0x72 then CR
    else if letter == 0x74 then TAB
    else 256
  }

  /** The next piece of a string whose end has not been reached: a plain byte or an escape. */
  function ReadPiece(s: bytes): (r: Read<bytes>)
    requires s != [] && s[0] != QUOTE
    ensures r.Ok? ==> |r.rest| < |s|
  {
    if s[0] != BACKSLASH then Ok([s[0]], s[1..])
    else if |s| == 1 then Fail
    else if s[1] == LETTER_U then ReadUnicodeEscape(s[2..])
    else if SimpleEscape(s[1]) < 256 then Ok([SimpleEscape(s[1])], s[2..])
    else Fail
  }

  /** A string from just after its opening quote. */
  function ReadChars(s: bytes): (r: Read<bytes>)
    ensures r.Ok? ==> |r.rest| < |s|
    decreases |s|
  {
    if s == [] then Fail
    else if s[0] == QUOTE then Ok([], s[1..])
    else
      match ReadPiece(s)
      case Fail => Fail
      case Ok(piece, rest) =>
        match ReadChars(rest)
        case Fail => Fail
        case Ok(chars, after) => Ok(piece + chars, after)
  }

  // ----- values -----

  function ReadValue(s: bytes, depth: nat): (r: Read<Value>)
    ensures r.Ok? ==> |r.rest| < |s|
    decreases |s|, 1
  {
    if depth > MAX_DEPTH || s == [] then Fail
    else if s[0] == LBRACE then ReadObject(SkipBlanks(s[1..]), depth)
    else if s[0] == LBRACKET then ReadArray(SkipBlanks(s[1..]), depth)
    else if s[0] == QUOTE then
      match ReadChars(s[1..])
      case Fail => Fail
      case Ok(chars, rest) => Ok(String(chars), rest)
    else if s[0] == 0x74 then ReadLiteral(s, TRUE_TEXT, Bool(true))
    else if s[0] == 0x66 then ReadLiteral(s, FALSE_TEXT, Bool(false))
    else if s[0] == 0x6E then ReadLiteral(s, NULL_TEXT, Null)
    else ReadNumber(s)
  }

  /** An object from after its brace and the blanks that follow it. */
  function ReadObject(s: bytes, depth: nat): (r: Read<Value>)
    ensures r.Ok? ==> |r.rest| < |s|
    decreases |s|, 3
  {
    if s != [] && s[0] == RBRACE then Ok(Object([]), s[1..])
    else
      match ReadMembers(s, depth)
      case Fail => Fail
      case Ok(members, rest) => Ok(Object(members), rest)
  }

  /** The members still to come, and the closing brace. */
  function ReadMembers(s: bytes, depth: nat): (r: Read<seq<(bytes, Value)>>)
    ensures r.Ok? ==> |r.rest| < |s|
    decreases |s|, 2
  {
    match ReadMember(s, depth)
    case Fail => Fail
    case Ok(member, rest) =>
      if rest == [] then Fail
      else if rest[0] == RBRACE then Ok([member], rest[1..])
      else if rest[0] == COMMA then
        match ReadMembers(rest[1..], depth)
        case Fail => Fail
        case Ok(more, after) => Ok([member] + more, after)
      else Fail
  }

  /** One member, with the blanks around it. */
  function ReadMember(s: bytes, depth: nat): (r: Read<(bytes, Value)>)
    ensures r.Ok? ==> |r.rest| < |s|
    decreases |s|, 1
  {
    var t := SkipBlanks(s);
    if t == [] || t[0] != QUOTE then Fail
    else
      match ReadChars(t[1..])
      case Fail => Fail
      case Ok(key, afterKey) =>
        var u := SkipBlanks(afterKey);
        if u == [] || u[0] != COLON then Fail
        else
          match ReadValue(SkipBlanks(u[1..]), depth + 1)
          case Fail => Fail
          case Ok(value, rest) => Ok((key, value), SkipBlanks(rest))
  }

  /** An array from after its bracket and the blanks that follow it. */
  function ReadArray(s: bytes, depth: nat): (r: Read<Value>)
    ensures r.Ok? ==> |r.rest| < |s|
    decreases |s|, 3
  {
    if s != [] && s[0] == RBRACKET then Ok(Array([]), s[1..])
    else
      match ReadElems(s, depth)
      case Fail => Fail
      case Ok(elems, rest) => Ok(Array(elems), rest)
  }

  /** The elements still to come, and the closing bracket. */
  function ReadElems(s: bytes, depth: nat): (r: Read<seq<Value>>)
    ensures r.Ok? ==> |r.rest| < |s|
    decreases |s|, 2
  {
    match ReadValue(SkipBlanks(s), depth + 1)
    case Fail => Fail
    case Ok(value, afterValue) =>
      var rest := SkipBlanks(afterValue);
      if rest == [] then Fail
      else if rest[0] == RBRACKET then Ok([value], rest[1..])
      else if rest[0] == COMMA then
        match ReadElems(rest[1..], depth)
        case Fail => Fail
        case Ok(more, after) => Ok([value] + more, after)
      else Fail
  }

  datatype Document = Malformed | Document(value: Value)

  /** A whole text, one value with blanks around it and nothing else, that is to sit at `depth`. */
  function ParseAt(s: bytes, depth: nat): Document {
    match ReadValue(SkipBlanks(s), depth)
    case Fail => Malformed
    case Ok(value, rest) => if SkipBlanks(rest) == [] then Document(value) else Malformed
  }

  function ParseDocument(s: bytes): Document {
    ParseAt(s, 0)
  }

  // ----- typed access -----

  /** The value of the first member called `key`; Null when there is none or `v` is not an object. */
  function Get(v: Value, key: bytes): Value {
    if v.Object? then FindMember(v.members, key) else Null
  }

  function FindMember(members: seq<(bytes, Value)>, key: bytes): Value {
    if members == [] then Null
    else if members[0].0 == key then members[0].1
    else FindMember(members[1..], key)
  }

  predicate Has(v: Value, key: bytes) {
    v.Object? && exists i | 0 <= i < |v.members| :: v.members[i].0 == key
  }

  function AsString(v: Value): bytes {
    match v
    case String(str) => str
    case Number(text) => text
    case Bool(b) => if b then TRUE_TEXT else FALSE_TEXT
    case _ => []
  }

  /** 64-bit integers arrive quoted and 32-bit ones bare; both are read. */
  function AsInt(v: Value): int {
    match v
    case String(str) => Strtoll(str, 10)
    case Number(text) => Strtoll(text, 10)
    case Bool(b) => if b then 1 else 0
    case _ => 0
  }

  function Str(v: Value, key: bytes, default: bytes): bytes {
    var member := Get(v, key);
    if member == Null then default else AsString(member)
  }

  function Int(v: Value, key: bytes, default: int): int {
    var member := Get(v, key);
    if member == Null then default else AsInt(member)
  }

  /** Whether the decimal that strtod reads at the front of `s` has a digit other than zero. */
  predicate NonZero(s: bytes, dotSeen: bool) {
    if s == [] then false
    else if DIGIT_0 <= s[0] <= DIGIT_9 then s[0] > DIGIT_0 || NonZero(s[1..], dotSeen)
    else s[0] == DOT && !dotSeen && NonZero(s[1..], true)
  }

  predicate AsBool(v: Value) {
    match v
    case Bool(b) => b
    case Number(text) => NonZero(if text != [] && (text[0] == PLUS || text[0] == MINUS) then text[1..] else text, false)
    case String(str) => str == TRUE_TEXT
    case _ => false
  }

  predicate Truth(v: Value, key: bytes, default: bool) {
    var member := Get(v, key);
    if member == Null then default else AsBool(member)
  }

  function ElemsOf(v: Value): seq<Value> {
    if v.Array? then v.elems else []
  }
}
