/**
 The reader and the grammar agree on values and whole texts. Completeness: the text of every tree is read
 to its meaning when its values sit at depth `MAX_DEPTH` or less, and refused otherwise. Soundness: whatever
 is read is the text of such a tree.
 */
module JsonTrees {
  import opened Bytes
  import opened Json
  import opened JsonGrammar
  import opened JsonReading

  /** What reading something whose innermost value sits at depth `h` gives. */
  function Within<T>(h: nat, value: T, rest: bytes): Read<T> {
    if h <= MAX_DEPTH then Ok(value, rest) else Fail
  }

  // ----- completeness -----

  lemma TextStart(t: Tree)
    requires Valid(t)
    ensures Text(t) != []
    ensures var c := Text(t)[0];
            && !IsBlank(c) && c != RBRACKET && c != RBRACE
            && (t.NumberTree? ==> IsNumberByte(c))
  {
    if t.NumberTree? {
      assert t.text[0] in t.text;
    }
  }

  lemma BlanksThen(blanks: bytes, rest: bytes)
    requires IsBlanks(blanks) && rest != [] && !IsBlank(rest[0]) && !IsNumberByte(rest[0])
    ensures SkipBlanks(blanks + rest) == rest && EndsNumber(blanks + rest)
  {
    SkipsBlanks(blanks, rest);
    if blanks != [] {
      assert blanks[0] in blanks;
    }
  }

  lemma SkipTwice(s: bytes)
    ensures SkipBlanks(SkipBlanks(s)) == SkipBlanks(s)
  {
  }

  predicate IsScalar(t: Tree) {
    t.NullTree? || t.BoolTree? || t.NumberTree? || t.StringTree?
  }

  lemma ScalarReads(t: Tree, rest: bytes, depth: nat)
    requires Valid(t) && IsScalar(t) && (t.NumberTree? ==> EndsNumber(rest)) && depth <= MAX_DEPTH
    ensures ReadValue(Text(t) + rest, depth) == Ok(Meaning(t), rest)
  {
    hide ReadObject, ReadArray, ReadChars, PiecesText, StringMeaning, NumberRun, ReadNumber;
    var s := Text(t) + rest;
    TextStart(t);
    assert s[0] == Text(t)[0];
    match t
    case NullTree => assert s[4..] == rest;
    case BoolTree(b) => assert s[if b then 4 else 5..] == rest;
    case NumberTree(text) => NumberReads(text, rest);
    case StringTree(pieces) =>
      assert s[1..] == PiecesText(pieces) + [QUOTE] + rest;
      CharsRead(pieces, rest);
  }

  lemma EmptyReads(gap: bytes, rest: bytes, depth: nat)
    requires IsBlanks(gap) && depth <= MAX_DEPTH
    ensures ReadValue([LBRACKET] + gap + [RBRACKET] + rest, depth) == Ok(Array([]), rest)
    ensures ReadValue([LBRACE] + gap + [RBRACE] + rest, depth) == Ok(Object([]), rest)
  {
    hide ReadMembers, ReadElems, SkipBlanks;
    assert ([LBRACKET] + gap + [RBRACKET] + rest)[1..] == gap + ([RBRACKET] + rest);
    BlanksThen(gap, [RBRACKET] + rest);
    assert ([RBRACKET] + rest)[1..] == rest;
    assert ([LBRACE] + gap + [RBRACE] + rest)[1..] == gap + ([RBRACE] + rest);
    BlanksThen(gap, [RBRACE] + rest);
    assert ([RBRACE] + rest)[1..] == rest;
  }

  lemma {:induction false} ValueReads(t: Tree, rest: bytes, depth: nat)
    requires Valid(t) && (t.NumberTree? ==> EndsNumber(rest))
    ensures ReadValue(Text(t) + rest, depth) == Within(depth + Height(t), Meaning(t), rest)
    decreases t, 1
  {
    hide ReadObject, ReadArray, ReadChars, ReadNumber, ReadLiteral, SkipBlanks, ElemsText, MembersText, PiecesText,
         ElemsHeight, MembersHeight, ElemsMeaning, MembersMeaning, StringMeaning;
    if depth > MAX_DEPTH {
      return;
    }
    var s := Text(t) + rest;
    match t
    case ArrayTree(elems) =>
      assert s[0] == LBRACKET && s[1..] == ElemsText(elems) + rest;
      ElemsRead(elems, rest, depth);
    case ObjectTree(members) =>
      assert s[0] == LBRACE && s[1..] == MembersText(members) + rest;
      MembersRead(members, rest, depth);
    case EmptyArray(gap) => EmptyReads(gap, rest, depth);
    case EmptyObject(gap) => EmptyReads(gap, rest, depth);
    case _ => ScalarReads(t, rest, depth);
  }

  lemma {:induction false} ElemsRead(es: Elems, rest: bytes, depth: nat)
    requires ValidElems(es)
    ensures var s := ElemsText(es) + rest;
            && ReadElems(s, depth) == Within(depth + 1 + ElemsHeight(es), ElemsMeaning(es), rest)
            && ReadArray(SkipBlanks(s), depth) ==
               Within(depth + 1 + ElemsHeight(es), Array(ElemsMeaning(es)), rest)
    decreases es, 1
  {
    hide ReadValue, Text, SkipBlanks, Meaning, Height;
    assert [Meaning(es.elem)] + [] == [Meaning(es.elem)];
    var s := ElemsText(es) + rest;
    var last := es.LastElem?;
    var end := if last then [RBRACKET] + rest else [COMMA] + (ElemsText(es.tail) + rest);
    var fromElem := Text(es.elem) + (es.after + end);
    assert s == es.before + fromElem;
    TextStart(es.elem);
    assert fromElem[0] == Text(es.elem)[0];
    SkipsBlanks(es.before, fromElem);
    BlanksThen(es.after, end);
    ValueReads(es.elem, es.after + end, depth + 1);
    assert end[1..] == if last then rest else ElemsText(es.tail) + rest;
    if !last {
      ElemsRead(es.tail, rest, depth);
    }
    SkipTwice(s);
    assert ReadElems(SkipBlanks(s), depth) == ReadElems(s, depth);
  }

  lemma {:induction false} MembersRead(ms: Members, rest: bytes, depth: nat)
    requires ValidMembers(ms)
    ensures var s := MembersText(ms) + rest;
            && ReadMembers(s, depth) == Within(depth + 1 + MembersHeight(ms), MembersMeaning(ms), rest)
            && ReadObject(SkipBlanks(s), depth) ==
               Within(depth + 1 + MembersHeight(ms), Object(MembersMeaning(ms)), rest)
    decreases ms, 1
  {
    hide ReadMember, MemberText, SkipBlanks, Meaning, Height, StringMeaning;
    var meaning := (StringMeaning(ms.member.key), Meaning(ms.member.value));
    assert [meaning] + [] == [meaning];
    var s := MembersText(ms) + rest;
    var last := ms.LastMember?;
    var end := if last then [RBRACE] + rest else [COMMA] + (MembersText(ms.tail) + rest);
    assert s == MemberText(ms.member) + end;
    MemberReads(ms.member, end, depth);
    assert end[1..] == if last then rest else MembersText(ms.tail) + rest;
    if !last {
      MembersRead(ms.tail, rest, depth);
    }
  }

  /** One member, followed by a comma or a closing brace. */
  lemma {:induction false} MemberReads(m: Member, end: bytes, depth: nat)
    requires ValidMember(m) && end != [] && (end[0] == COMMA || end[0] == RBRACE)
    ensures var s := MemberText(m) + end;
            && ReadMember(s, depth) ==
               Within(depth + 1 + Height(m.value), (StringMeaning(m.key), Meaning(m.value)), end)
            && ReadMember(SkipBlanks(s), depth) == ReadMember(s, depth)
            && SkipBlanks(s) != [] && SkipBlanks(s)[0] == QUOTE
    decreases m, 1
  {
    hide ReadValue, Text, SkipBlanks, Meaning, Height, StringMeaning, ReadChars, PiecesText;
    var s := MemberText(m) + end;
    var fromAfter := m.after + end;
    var fromValue := Text(m.value) + fromAfter;
    var fromColon := [COLON] + (m.afterColon + fromValue);
    var afterKey := m.beforeColon + fromColon;
    var fromKey := [QUOTE] + (PiecesText(m.key) + [QUOTE] + afterKey);
    MemberLayout(m, end);
    SkipsBlanks(m.before, fromKey);
    SkipTwice(s);
    assert fromKey[1..] == PiecesText(m.key) + [QUOTE] + afterKey;
    CharsRead(m.key, afterKey);
    SkipsBlanks(m.beforeColon, fromColon);
    assert fromColon[1..] == m.afterColon + fromValue;
    TextStart(m.value);
    assert fromValue[0] == Text(m.value)[0];
    SkipsBlanks(m.afterColon, fromValue);
    BlanksThen(m.after, end);
    ValueReads(m.value, fromAfter, depth + 1);
  }

  lemma MemberLayout(m: Member, end: bytes)
    ensures MemberText(m) + end ==
            m.before + ([QUOTE] + (PiecesText(m.key) + [QUOTE]
            + (m.beforeColon + ([COLON] + (m.afterColon + (Text(m.value) + (m.after + end)))))))
  {
  }

  // ----- soundness -----

  lemma {:induction false} ValueSound(s: bytes, depth: nat) returns (t: Tree)
    requires ReadValue(s, depth).Ok?
    ensures Valid(t) && s == Text(t) + ReadValue(s, depth).rest
    ensures Meaning(t) == ReadValue(s, depth).value && depth + Height(t) <= MAX_DEPTH
    ensures t.NumberTree? ==> EndsNumber(ReadValue(s, depth).rest)
    decreases |s|, 1
  {
    hide ReadElems, ReadMembers, ReadChars, ReadNumber, SkipBlanks, ElemsText, MembersText, PiecesText,
         ElemsHeight, MembersHeight, ElemsMeaning, MembersMeaning, StringMeaning;
    if s[0] == LBRACE {
      t := ObjectSound(s, depth);
    } else if s[0] == LBRACKET {
      t := ArraySound(s, depth);
    } else if s[0] == QUOTE {
      var pieces := CharsSound(s[1..]);
      t := StringTree(pieces);
    } else if s[0] == 0x74 {
      t := BoolTree(true);
    } else if s[0] == 0x66 {
      t := BoolTree(false);
    } else if s[0] == 0x6E {
      t := NullTree;
    } else {
      NumberRead(s);
      t := NumberTree(s[..NumberRun(s)]);
    }
  }

  lemma {:induction false} ArraySound(s: bytes, depth: nat) returns (t: Tree)
    requires s != [] && s[0] == LBRACKET && ReadValue(s, depth).Ok?
    ensures Valid(t) && !t.NumberTree? && s == Text(t) + ReadValue(s, depth).rest
    ensures Meaning(t) == ReadValue(s, depth).value && depth + Height(t) <= MAX_DEPTH
    decreases |s|, 0
  {
    hide ReadElems, SkipBlanks, ElemsText, ElemsHeight, ElemsMeaning;
    var gap := BlanksSkipped(s[1..]);
    var u := SkipBlanks(s[1..]);
    if u != [] && u[0] == RBRACKET {
      t := EmptyArray(gap);
    } else {
      SkipTwice(s[1..]);
      ElemsSkip(s[1..], depth);
      var elems := ElemsSound(s[1..], depth);
      t := ArrayTree(elems);
    }
  }

  lemma ElemsSkip(s: bytes, depth: nat)
    ensures ReadElems(SkipBlanks(s), depth) == ReadElems(s, depth)
  {
    SkipTwice(s);
  }

  lemma MembersSkip(s: bytes, depth: nat)
    ensures ReadMembers(SkipBlanks(s), depth) == ReadMembers(s, depth)
  {
    hide ReadValue, ReadChars;
    SkipTwice(s);
    assert ReadMember(SkipBlanks(s), depth) == ReadMember(s, depth);
  }

  lemma {:induction false} ObjectSound(s: bytes, depth: nat) returns (t: Tree)
    requires s != [] && s[0] == LBRACE && ReadValue(s, depth).Ok?
    ensures Valid(t) && !t.NumberTree? && s == Text(t) + ReadValue(s, depth).rest
    ensures Meaning(t) == ReadValue(s, depth).value && depth + Height(t) <= MAX_DEPTH
    decreases |s|, 0
  {
    hide ReadMembers, SkipBlanks, MembersText, MembersHeight, MembersMeaning;
    var gap := BlanksSkipped(s[1..]);
    var u := SkipBlanks(s[1..]);
    if u != [] && u[0] == RBRACE {
      t := EmptyObject(gap);
    } else {
      MembersSkip(s[1..], depth);
      var members := MembersSound(s[1..], depth);
      t := ObjectTree(members);
    }
  }

  lemma {:induction false} ElemsSound(s: bytes, depth: nat) returns (es: Elems)
    requires ReadElems(s, depth).Ok?
    ensures ValidElems(es) && s == ElemsText(es) + ReadElems(s, depth).rest
    ensures ElemsMeaning(es) == ReadElems(s, depth).value && depth + 1 + ElemsHeight(es) <= MAX_DEPTH
    decreases |s|, 4
  {
    hide ReadValue, SkipBlanks, Text, Meaning, Height;
    var before := BlanksSkipped(s);
    var fromElem := SkipBlanks(s);
    var elem := ValueSound(fromElem, depth + 1);
    var afterElem := ReadValue(fromElem, depth + 1).rest;
    var after := BlanksSkipped(afterElem);
    var end := SkipBlanks(afterElem);
    assert s == before + (Text(elem) + (after + end));
    assert [Meaning(elem)] + [] == [Meaning(elem)];
    if end[0] == RBRACKET {
      es := LastElem(before, elem, after);
      assert end == [RBRACKET] + end[1..];
    } else {
      var tail := ElemsSound(end[1..], depth);
      es := MoreElems(before, elem, after, tail);
      assert end == [COMMA] + (ElemsText(tail) + ReadElems(end[1..], depth).rest);
    }
  }

  lemma {:induction false} MembersSound(s: bytes, depth: nat) returns (ms: Members)
    requires ReadMembers(s, depth).Ok?
    ensures ValidMembers(ms) && s == MembersText(ms) + ReadMembers(s, depth).rest
    ensures MembersMeaning(ms) == ReadMembers(s, depth).value && depth + 1 + MembersHeight(ms) <= MAX_DEPTH
    decreases |s|, 4
  {
    hide ReadMember, MemberText, ValidMember, Meaning, Height, StringMeaning;
    var member := MemberSound(s, depth);
    var end := ReadMember(s, depth).rest;
    ValidParts(member);
    var meaning := (StringMeaning(member.key), Meaning(member.value));
    assert [meaning] + [] == [meaning];
    if end[0] == RBRACE {
      ms := LastMember(member);
      assert end == [RBRACE] + end[1..];
    } else {
      var tail := MembersSound(end[1..], depth);
      ms := MoreMembers(member, tail);
      assert end == [COMMA] + (MembersText(tail) + ReadMembers(end[1..], depth).rest);
    }
  }

  lemma ValidParts(m: Member)
    requires ValidMember(m)
    ensures ValidPieces(m.key) && Valid(m.value)
  {
  }

  lemma {:induction false} MemberSound(s: bytes, depth: nat) returns (m: Member)
    requires ReadMember(s, depth).Ok?
    ensures ValidMember(m) && s == MemberText(m) + ReadMember(s, depth).rest
    ensures (StringMeaning(m.key), Meaning(m.value)) == ReadMember(s, depth).value
    ensures depth + 1 + Height(m.value) <= MAX_DEPTH
    decreases |s|, 3
  {
    hide ReadValue, ReadChars, SkipBlanks, Text, Meaning, Height, StringMeaning, PiecesText, MemberText;
    var before := BlanksSkipped(s);
    var fromKey := SkipBlanks(s);
    var key := CharsSound(fromKey[1..]);
    var afterKey := ReadChars(fromKey[1..]).rest;
    var beforeColon := BlanksSkipped(afterKey);
    var fromColon := SkipBlanks(afterKey);
    var afterColon := BlanksSkipped(fromColon[1..]);
    var fromValue := SkipBlanks(fromColon[1..]);
    var value := ValueSound(fromValue, depth + 1);
    var fromAfter := ReadValue(fromValue, depth + 1).rest;
    var after := BlanksSkipped(fromAfter);
    m := Member(before, key, beforeColon, afterColon, value, after);
    assert fromKey == [QUOTE] + fromKey[1..] && fromColon == [COLON] + fromColon[1..];
    MemberLayout(m, SkipBlanks(fromAfter));
  }

  // ----- whole texts -----

  /** The text of a document is accepted, as what it means, exactly when its values sit within the limit. */
  lemma DocumentReads(d: Doc, depth: nat)
    requires ValidDoc(d)
    ensures ParseAt(DocText(d), depth) ==
            if depth + Height(d.tree) <= 64 then Document(Meaning(d.tree)) else Malformed
  {
    hide ReadValue, SkipBlanks, Text, Meaning;
    TextStart(d.tree);
    var fromTree := Text(d.tree) + d.after;
    assert DocText(d) == d.before + fromTree;
    assert fromTree[0] == Text(d.tree)[0];
    SkipsBlanks(d.before, fromTree);
    if d.after != [] {
      assert d.after[0] in d.after;
    }
    ValueReads(d.tree, d.after, depth);
    SkipsBlanks(d.after, []);
    assert d.after + [] == d.after;
  }

  /** Whatever is accepted is the text of a document within the limit, and is read as what it means. */
  lemma DocumentSound(s: bytes, depth: nat) returns (d: Doc)
    requires ParseAt(s, depth).Document?
    ensures ValidDoc(d) && DocText(d) == s && depth + Height(d.tree) <= 64
    ensures ParseAt(s, depth) == Document(Meaning(d.tree))
  {
    hide ReadValue, Text, Meaning, Valid;
    var before := BlanksSkipped(s);
    var tree := ValueSound(SkipBlanks(s), depth);
    var rest := ReadValue(SkipBlanks(s), depth).rest;
    var after := BlanksSkipped(rest);
    d := Doc(before, tree, after);
    assert after + [] == after;
    assert before + (Text(tree) + after) == before + Text(tree) + after;
  }

  /** A text that may sit at some depth may sit anywhere above it, with the same meaning. */
  lemma ShallowerToo(s: bytes, depth: nat, higher: nat)
    requires higher <= depth && ParseAt(s, depth).Document?
    ensures ParseAt(s, higher) == ParseAt(s, depth)
  {
    hide ParseAt, Height, Meaning, Text;
    var d := DocumentSound(s, depth);
    DocumentReads(d, higher);
  }

  /** The language of the reader: a text is accepted with value `v` if and only if some document within the
      depth limit has that text and means `v`. */
  lemma AcceptsExactlyTheGrammar(s: bytes, v: Value)
    ensures ParseDocument(s) == Document(v) <==>
            exists d: Doc :: ValidDoc(d) && DocText(d) == s && Height(d.tree) <= 64 && Meaning(d.tree) == v
  {
    hide ParseAt, Text, Meaning, Height;
    if ParseDocument(s) == Document(v) {
      var d := DocumentSound(s, 0);
    }
    forall d: Doc | ValidDoc(d) && DocText(d) == s && Height(d.tree) <= 64 && Meaning(d.tree) == v
      ensures ParseDocument(s) == Document(v)
    {
      DocumentReads(d, 0);
    }
  }

  /** No text has two meanings. */
  lemma Unambiguous(d: Doc, e: Doc)
    requires ValidDoc(d) && ValidDoc(e) && DocText(d) == DocText(e)
    ensures Height(d.tree) <= 64 <==> Height(e.tree) <= 64
    ensures Height(d.tree) <= 64 ==> Meaning(d.tree) == Meaning(e.tree)
  {
    hide ParseAt, Text, Meaning, Height;
    DocumentReads(d, 0);
    DocumentReads(e, 0);
  }
}
