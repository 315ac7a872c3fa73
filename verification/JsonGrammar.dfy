/**
 The grammar the reader accepts: RFC 8259 in its layout and white space, but with numbers that are any run
 of number characters and strings that may hold raw control characters. Syntax trees keep every byte, so
 that `Text` is what a tree was read from and `Meaning` the value it stands for.
 */
module JsonGrammar {
  import opened Bytes
  import opened Json

  // ----- syntax trees -----

  datatype Piece = Plain(b: byte) | Simple(letter: byte) | Unit(digits: bytes)

  datatype Tree =
    | NullTree
    | BoolTree(b: bool)
    | NumberTree(text: bytes)
    | StringTree(pieces: seq<Piece>)
    | EmptyArray(gap: bytes)
    | ArrayTree(elems: Elems)
    | EmptyObject(gap: bytes)
    | ObjectTree(members: Members)

  datatype Elems =
    | LastElem(before: bytes, elem: Tree, after: bytes)
    | MoreElems(before: bytes, elem: Tree, after: bytes, tail: Elems)

  datatype Members =
    | LastMember(member: Member)
    | MoreMembers(member: Member, tail: Members)

  datatype Member =
    Member(before: bytes, key: seq<Piece>, beforeColon: bytes, afterColon: bytes, value: Tree, after: bytes)

  /** A whole text. */
  datatype Doc = Doc(before: bytes, tree: Tree, after: bytes)

  // ----- text -----

  function PieceText(p: Piece): bytes {
    match p
    case Plain(b) => [b]
    case Simple(letter) => [BACKSLASH, letter]
    case Unit(digits) => [BACKSLASH, LETTER_U] + digits
  }

  function PiecesText(ps: seq<Piece>): bytes {
    if ps == [] then [] else PieceText(ps[0]) + PiecesText(ps[1..])
  }

  function StringText(ps: seq<Piece>): bytes {
    [QUOTE] + PiecesText(ps) + [QUOTE]
  }

  function Text(t: Tree): bytes {
    match t
    case NullTree => NULL_TEXT
    case BoolTree(b) => if b then TRUE_TEXT else FALSE_TEXT
    case NumberTree(text) => text
    case StringTree(pieces) => StringText(pieces)
    case EmptyArray(gap) => [LBRACKET] + gap + [RBRACKET]
    case ArrayTree(elems) => [LBRACKET] + ElemsText(elems)
    case EmptyObject(gap) => [LBRACE] + gap + [RBRACE]
    case ObjectTree(members) => [LBRACE] + MembersText(members)
  }

  function ElemsText(es: Elems): bytes {
    match es
    case LastElem(before, elem, after) => before + Text(elem) + after + [RBRACKET]
    case MoreElems(before, elem, after, tail) => before + Text(elem) + after + [COMMA] + ElemsText(tail)
  }

  function MemberText(m: Member): bytes {
    m.before + StringText(m.key) + m.beforeColon + [COLON] + m.afterColon + Text(m.value) + m.after
  }

  function MembersText(ms: Members): bytes {
    match ms
    case LastMember(member) => MemberText(member) + [RBRACE]
    case MoreMembers(member, tail) => MemberText(member) + [COMMA] + MembersText(tail)
  }

  function DocText(d: Doc): bytes {
    d.before + Text(d.tree) + d.after
  }

  // ----- well-formedness -----

  predicate IsBlanks(s: bytes) {
    forall b | b in s :: IsBlank(b)
  }

  predicate IsHex4(digits: bytes) {
    |digits| == 4 && forall i | 0 <= i < 4 :: DigitValue(digits[i]) < 16
  }

  predicate ValidPiece(p: Piece) {
    match p
    case Plain(b) => b != QUOTE && b != BACKSLASH
    case Simple(letter) => SimpleEscape(letter) < 256
    case Unit(digits) => IsHex4(digits)
  }

  predicate ValidPieces(ps: seq<Piece>) {
    forall p | p in ps :: ValidPiece(p)
  }

  predicate Valid(t: Tree) {
    match t
    case NumberTree(text) => IsNumberText(text)
    case StringTree(pieces) => ValidPieces(pieces)
    case EmptyArray(gap) => IsBlanks(gap)
    case ArrayTree(elems) => ValidElems(elems)
    case EmptyObject(gap) => IsBlanks(gap)
    case ObjectTree(members) => ValidMembers(members)
    case _ => true
  }

  predicate ValidElems(es: Elems) {
    && IsBlanks(es.before) && Valid(es.elem) && IsBlanks(es.after)
    && (es.MoreElems? ==> ValidElems(es.tail))
  }

  predicate ValidMember(m: Member) {
    && IsBlanks(m.before) && ValidPieces(m.key) && IsBlanks(m.beforeColon)
    && IsBlanks(m.afterColon) && Valid(m.value) && IsBlanks(m.after)
  }

  predicate ValidMembers(ms: Members) {
    ValidMember(ms.member) && (ms.MoreMembers? ==> ValidMembers(ms.tail))
  }

  predicate ValidDoc(d: Doc) {
    IsBlanks(d.before) && Valid(d.tree) && IsBlanks(d.after)
  }

  // ----- meaning -----

  function UnitValue(digits: bytes): nat
    requires IsHex4(digits)
  {
    ReadHex4(digits).value
  }

  predicate IsPair(ps: seq<Piece>)
    requires ValidPieces(ps)
  {
    && |ps| > 1 && ps[0].Unit? && ps[1].Unit?
    && assert ps[0] in ps && ps[1] in ps; IsHigh(UnitValue(ps[0].digits)) && IsLow(UnitValue(ps[1].digits))
  }

  function PieceValue(p: Piece): bytes
    requires ValidPiece(p)
  {
    match p
    case Plain(b) => [b]
    case Simple(letter) => [SimpleEscape(letter)]
    case Unit(digits) => Utf8(UnitValue(digits))
  }

  /** The bytes a string stands for: a high and a low surrogate side by side are one character. */
  function StringMeaning(ps: seq<Piece>): bytes
    requires ValidPieces(ps)
  {
    if ps == [] then []
    else if IsPair(ps) then
      assert ps[0] in ps && ps[1] in ps;
      Utf8(Combine(UnitValue(ps[0].digits), UnitValue(ps[1].digits))) + StringMeaning(ps[2..])
    else
      assert ps[0] in ps;
      PieceValue(ps[0]) + StringMeaning(ps[1..])
  }

  function Meaning(t: Tree): Value
    requires Valid(t)
  {
    match t
    case NullTree => Null
    case BoolTree(b) => Bool(b)
    case NumberTree(text) => Number(text)
    case StringTree(pieces) => String(StringMeaning(pieces))
    case EmptyArray(_) => Array([])
    case ArrayTree(elems) => Array(ElemsMeaning(elems))
    case EmptyObject(_) => Object([])
    case ObjectTree(members) => Object(MembersMeaning(members))
  }

  function ElemsMeaning(es: Elems): seq<Value>
    requires ValidElems(es)
  {
    [Meaning(es.elem)] + if es.MoreElems? then ElemsMeaning(es.tail) else []
  }

  function MembersMeaning(ms: Members): seq<(bytes, Value)>
    requires ValidMembers(ms)
  {
    assert ValidMember(ms.member);
    [(StringMeaning(ms.member.key), Meaning(ms.member.value))] + if ms.MoreMembers? then MembersMeaning(ms.tail) else []
  }

  function Max(a: nat, b: nat): nat {
    if a < b then b else a
  }

  /** How many containers deep the innermost value of a tree sits. */
  function Height(t: Tree): nat {
    match t
    case ArrayTree(elems) => 1 + ElemsHeight(elems)
    case ObjectTree(members) => 1 + MembersHeight(members)
    case _ => 0
  }

  function ElemsHeight(es: Elems): nat {
    match es
    case LastElem(_, elem, _) => Height(elem)
    case MoreElems(_, elem, _, tail) => Max(Height(elem), ElemsHeight(tail))
  }

  function MembersHeight(ms: Members): nat {
    match ms
    case LastMember(member) => Height(member.value)
    case MoreMembers(member, tail) => Max(Height(member.value), MembersHeight(tail))
  }
}
