/**
 The recursive-descent JSON reader: a cursor over the text, moved by one method per syntactic category.
 Each method is proved to read what the function of the same category in `Json` reads from the cursor on.
 */
module JsonReaders {
  import opened Bytes
  import opened Json

  class JsonReader {
    const text: bytes
    var pos: nat

    constructor (text: bytes)
      ensures this.text == text && pos == 0
    {
      this.text := text;
      pos := 0;
    }

    /** The input still to be read. */
    ghost function Rest(): bytes
      requires pos <= |text|
      reads this
    {
      text[pos..]
    }

    /** The whole text: one value and nothing else. */
    method Document() returns (ok: bool, value: Value)
      requires pos <= |text|
      modifies this
      ensures pos <= |text|
      ensures ParseDocument(old(Rest())) == if ok then Json.Document(value) else Malformed
    {
      SkipWhitespace();
      ok, value := ParseValue(0);
      if !ok {
        return;
      }
      SkipWhitespace();
      if pos != |text| {
        return false, value;
      }
    }

    method SkipWhitespace()
      requires pos <= |text|
      modifies this
      ensures old(pos) <= pos <= |text| && Rest() == SkipBlanks(old(Rest()))
    {
      while pos < |text|
        invariant old(pos) <= pos <= |text|
        invariant SkipBlanks(Rest()) == SkipBlanks(old(Rest()))
      {
        if !IsBlank(text[pos]) {
          break;
        }
        assert Rest()[1..] == text[pos + 1..];
        pos := pos + 1;
      }
    }

    method Literal(literal: bytes) returns (ok: bool)
      requires pos <= |text|
      modifies this
      ensures old(pos) <= pos <= |text| && ok == (literal <= old(Rest()))
      ensures Rest() == if ok then old(Rest())[|literal|..] else old(Rest())
    {
      ok := |literal| <= |text| - pos && text[pos..pos + |literal|] == literal;
      assert |literal| <= |text| - pos ==> text[pos..pos + |literal|] == Rest()[..|literal|];
      if ok {
        assert Rest()[|literal|..] == text[pos + |literal|..];
        pos := pos + |literal|;
      }
    }

    method ParseValue(depth: nat) returns (ok: bool, value: Value)
      requires pos <= |text|
      modifies this
      ensures old(pos) <= pos <= |text|
      ensures ReadValue(old(Rest()), depth) == if ok then Ok(value, Rest()) else Fail
      decreases |text| - pos, 2
    {
      value := Null;
      if depth > MAX_DEPTH {
        return false, value;
      }
      if pos >= |text| {
        return false, value;
      }
      var c := text[pos];
      if c == LBRACE {
        ok, value := ParseObject(depth);
      } else if c == LBRACKET {
        ok, value := ParseArray(depth);
      } else if c == QUOTE {
        var str;
        ok, str := ParseString();
        value := String(str);
      } else if c == 0x74 {
        ok := Literal(TRUE_TEXT);
        value := Bool(true);
      } else if c == 0x66 {
        ok := Literal(FALSE_TEXT);
        value := Bool(false);
      } else if c == 0x6E {
        ok := Literal(NULL_TEXT);
      } else {
        ok, value := ParseNumber();
      }
    }

    method ParseObject(depth: nat) returns (ok: bool, value: Value)
      requires pos < |text| && text[pos] == LBRACE
      modifies this
      ensures old(pos) <= pos <= |text|
      ensures ReadObject(SkipBlanks(old(Rest())[1..]), depth) == if ok then Ok(value, Rest()) else Fail
      decreases |text| - pos, 1
    {
      hide ReadMember, SkipBlanks;
      value := Object([]);
      assert Rest()[1..] == text[pos + 1..];
      pos := pos + 1;
      SkipWhitespace();
      ghost var body := Rest();
      if pos < |text| && text[pos] == RBRACE {
        assert Rest()[1..] == text[pos + 1..];
        pos := pos + 1;
        return true, value;
      }
      var members: seq<(bytes, Value)> := [];
      AfterNothing(ReadMembers(body, depth));
      while true
        invariant old(pos) < pos <= |text|
        invariant ReadMembers(body, depth) == After(members, ReadMembers(Rest(), depth))
        decreases |text| - pos
      {
        ghost var before := Rest();
        var member;
        ok, member := ParseMember(depth);
        if !ok || pos >= |text| {
          return false, value;
        }
        AfterStep(members, member, before, depth);
        members := members + [member];
        assert Rest()[1..] == text[pos + 1..];
        if text[pos] == COMMA {
          pos := pos + 1;
          continue;
        }
        if text[pos] == RBRACE {
          pos := pos + 1;
          return true, Object(members);
        }
        return false, value;
      }
    }

    /** A key, a colon, a value, and the blanks around them. */
    method ParseMember(depth: nat) returns (ok: bool, member: (bytes, Value))
      requires pos <= |text|
      modifies this
      ensures old(pos) <= pos <= |text|
      ensures ReadMember(old(Rest()), depth) == if ok then Ok(member, Rest()) else Fail
      decreases |text| - pos, 3
    {
      hide ReadValue, ReadChars, SkipBlanks;
      member := ([], Null);
      SkipWhitespace();
      if pos >= |text| || text[pos] != QUOTE {
        return false, member;
      }
      var key;
      ok, key := ParseString();
      if !ok {
        return false, member;
      }
      SkipWhitespace();
      if pos >= |text| || text[pos] != COLON {
        return false, member;
      }
      assert Rest()[1..] == text[pos + 1..];
      pos := pos + 1;
      SkipWhitespace();
      var value;
      ok, value := ParseValue(depth + 1);
      if !ok {
        return false, member;
      }
      SkipWhitespace();
      return true, (key, value);
    }

    method ParseArray(depth: nat) returns (ok: bool, value: Value)
      requires pos < |text| && text[pos] == LBRACKET
      modifies this
      ensures old(pos) <= pos <= |text|
      ensures ReadArray(SkipBlanks(old(Rest())[1..]), depth) == if ok then Ok(value, Rest()) else Fail
      decreases |text| - pos, 1
    {
      hide ReadValue, SkipBlanks;
      value := Array([]);
      assert Rest()[1..] == text[pos + 1..];
      pos := pos + 1;
      SkipWhitespace();
      ghost var body := Rest();
      if pos < |text| && text[pos] == RBRACKET {
        assert Rest()[1..] == text[pos + 1..];
        pos := pos + 1;
        return true, value;
      }
      var elems: seq<Value> := [];
      AfterNothing(ReadElems(body, depth));
      while true
        invariant old(pos) < pos <= |text|
        invariant ReadElems(body, depth) == After(elems, ReadElems(Rest(), depth))
        decreases |text| - pos
      {
        ghost var before := Rest();
        var elem;
        ok, elem := ParseElem(depth);
        if !ok || pos >= |text| {
          return false, value;
        }
        AfterElem(elems, elem, before, Rest(), depth);
        elems := elems + [elem];
        assert Rest()[1..] == text[pos + 1..];
        if text[pos] == COMMA {
          pos := pos + 1;
          continue;
        }
        if text[pos] == RBRACKET {
          pos := pos + 1;
          return true, Array(elems);
        }
        return false, value;
      }
    }

    /** A value and the blanks around it. */
    method ParseElem(depth: nat) returns (ok: bool, elem: Value)
      requires pos <= |text|
      modifies this
      ensures old(pos) <= pos <= |text|
      ensures ok == ReadValue(SkipBlanks(old(Rest())), depth + 1).Ok?
      ensures ok ==>
                var read := ReadValue(SkipBlanks(old(Rest())), depth + 1);
                elem == read.value && Rest() == SkipBlanks(read.rest) && old(pos) < pos
      decreases |text| - pos, 3
    {
      hide ReadValue, SkipBlanks;
      SkipWhitespace();
      ok, elem := ParseValue(depth + 1);
      if !ok {
        return false, elem;
      }
      SkipWhitespace();
    }

    method ParseHex4() returns (ok: bool, unit: nat)
      requires pos <= |text|
      modifies this
      ensures old(pos) <= pos <= |text|
      ensures ReadHex4(old(Rest())) == if ok then Ok(unit, Rest()) else Fail
      ensures !ok ==> pos == old(pos)
    {
      unit := 0;
      if pos + 4 > |text| {
        return false, unit;
      }
      var v := 0;
      ghost var s := Rest();
      for i := 0 to 4
        invariant pos == old(pos)
        invariant forall k | 0 <= k < i :: DigitValue(s[k]) < 16
        invariant v == HexPrefix(s, i)
      {
        var d := DigitValue(text[pos + i]);
        assert s[i] == text[pos + i];
        if d == 16 {
          return false, unit;
        }
        v := v * 16 + d;
      }
      assert HexPrefix(s, 2) == DigitValue(s[0]) * 16 + DigitValue(s[1]);
      assert HexPrefix(s, 4) == (HexPrefix(s, 2) * 16 + DigitValue(s[2])) * 16 + DigitValue(s[3]);
      assert s[4..] == text[pos + 4..];
      pos := pos + 4;
      return true, v;
    }

    /** What follows `\u`. A high surrogate looks ahead for its other half and backs up if it is not there. */
    method ParseUnicodeEscape() returns (ok: bool, encoded: bytes)
      requires pos <= |text|
      modifies this
      ensures old(pos) <= pos <= |text|
      ensures ReadUnicodeEscape(old(Rest())) == if ok then Ok(encoded, Rest()) else Fail
    {
      hide ReadHex4, Utf8;
      encoded := [];
      var cp;
      ok, cp := ParseHex4();
      if !ok {
        return;
      }
      if IsHigh(cp) && pos + 1 < |text| && text[pos] == BACKSLASH && text[pos + 1] == LETTER_U {
        var save := pos;
        assert Rest()[2..] == text[pos + 2..];
        pos := pos + 2;
        var pair, low := ParseHex4();
        if pair && IsLow(low) {
          cp := Combine(cp, low);
        } else {
          pos := save;
        }
      }
      encoded := Utf8(cp);
    }

    /** One escape, from just after its backslash. */
    method ParseEscape() returns (ok: bool, piece: bytes)
      requires 0 < pos <= |text| && text[pos - 1] == BACKSLASH
      modifies this
      ensures old(pos) <= pos <= |text|
      ensures ReadPiece(text[old(pos) - 1..]) == if ok then Ok(piece, Rest()) else Fail
    {
      hide ReadUnicodeEscape;
      piece := [];
      if pos >= |text| {
        return false, piece;
      }
      ghost var s := text[pos - 1..];
      assert s[2..] == text[pos + 1..];
      var letter := text[pos];
      pos := pos + 1;
      if letter == LETTER_U {
        ok, piece := ParseUnicodeEscape();
      } else if SimpleEscape(letter) < 256 {
        return true, [SimpleEscape(letter)];
      } else {
        return false, piece;
      }
    }

    method ParseString() returns (ok: bool, out: bytes)
      requires pos < |text| && text[pos] == QUOTE
      modifies this
      ensures old(pos) <= pos <= |text|
      ensures ReadChars(old(Rest())[1..]) == if ok then Ok(out, Rest()) else Fail
    {
      hide ReadPiece;
      out := [];
      assert Rest()[1..] == text[pos + 1..];
      pos := pos + 1;
      ghost var chars := Rest();
      AfterNothing(ReadChars(chars));
      while pos < |text|
        invariant old(pos) < pos <= |text|
        invariant ReadChars(chars) == After(out, ReadChars(Rest()))
        decreases |text| - pos
      {
        ghost var rest := Rest();
        assert rest[1..] == text[pos + 1..];
        var c := text[pos];
        pos := pos + 1;
        if c == QUOTE {
          assert out + [] == out;
          return true, out;
        }
        if c != BACKSLASH {
          PlainPiece(rest);
          AfterPiece(out, [c], rest);
          out := out + [c];
          continue;
        }
        var piece;
        ok, piece := ParseEscape();
        if !ok {
          return false, out;
        }
        AfterPiece(out, piece, rest);
        out := out + piece;
      }
      return false, out;
    }

    method ParseNumber() returns (ok: bool, value: Value)
      requires pos <= |text|
      modifies this
      ensures old(pos) <= pos <= |text|
      ensures ReadNumber(old(Rest())) == if ok then Ok(value, Rest()) else Fail
    {
      hide ReadNumber, NumberRun;
      value := Null;
      var start := pos;
      if pos < |text| && (text[pos] == MINUS || text[pos] == PLUS) {
        pos := pos + 1;
      }
      var any := false;
      while pos < |text|
        invariant start <= pos <= |text|
        invariant forall i | start <= i < pos :: IsNumberByte(text[i])
        invariant any <==> pos > start + if Signed(text, start) then 1 else 0
        invariant pos >= start + if Signed(text, start) then 1 else 0
      {
        if !IsNumberByte(text[pos]) {
          break;
        }
        any := true;
        pos := pos + 1;
      }
      NumberAt(text, start, pos);
      if !any {
        return false, value;
      }
      return true, Number(text[start..pos]);
    }
  }

  // ----- loops that append, against functions that prepend -----

  ghost function After<T>(done: seq<T>, more: Read<seq<T>>): Read<seq<T>> {
    match more
    case Fail => Fail
    case Ok(items, rest) => Ok(done + items, rest)
  }

  lemma AfterNothing<T>(more: Read<seq<T>>)
    ensures After([], more) == more
  {
    if more.Ok? {
      assert [] + more.value == more.value;
    }
  }

  /** The number the first `n` hexadecimal digits of `s` spell. */
  ghost function HexPrefix(s: bytes, n: nat): nat
    requires n <= |s|
  {
    if n == 0 then 0 else HexPrefix(s, n - 1) * 16 + DigitValue(s[n - 1])
  }

  lemma AfterStep(members: seq<(bytes, Value)>, member: (bytes, Value), s: bytes, depth: nat)
    requires ReadMember(s, depth).Ok? && ReadMember(s, depth).value == member && ReadMember(s, depth).rest != []
    ensures var rest := ReadMember(s, depth).rest;
            After(members, ReadMembers(s, depth)) ==
            if rest[0] == RBRACE then Ok(members + [member], rest[1..])
            else if rest[0] == COMMA then After(members + [member], ReadMembers(rest[1..], depth))
            else Fail
  {
    hide ReadMember;
    var more := ReadMembers(ReadMember(s, depth).rest[1..], depth);
    if more.Ok? {
      assert members + ([member] + more.value) == members + [member] + more.value;
    }
  }

  lemma AfterElem(elems: seq<Value>, elem: Value, s: bytes, rest: bytes, depth: nat)
    requires ReadValue(SkipBlanks(s), depth + 1).Ok? && ReadValue(SkipBlanks(s), depth + 1).value == elem
    requires rest == SkipBlanks(ReadValue(SkipBlanks(s), depth + 1).rest) && rest != []
    ensures After(elems, ReadElems(s, depth)) ==
            if rest[0] == RBRACKET then Ok(elems + [elem], rest[1..])
            else if rest[0] == COMMA then After(elems + [elem], ReadElems(rest[1..], depth))
            else Fail
  {
    hide ReadValue, SkipBlanks;
    var more := ReadElems(rest[1..], depth);
    if more.Ok? {
      assert elems + ([elem] + more.value) == elems + [elem] + more.value;
    }
  }

  lemma PlainPiece(s: bytes)
    requires s != [] && s[0] != QUOTE && s[0] != BACKSLASH
    ensures ReadPiece(s) == Ok([s[0]], s[1..])
  {
  }

  lemma AfterPiece(out: bytes, piece: bytes, s: bytes)
    requires s != [] && s[0] != QUOTE && ReadPiece(s).Ok? && ReadPiece(s).value == piece
    ensures After(out, ReadChars(s)) == After(out + piece, ReadChars(ReadPiece(s).rest))
  {
    hide ReadPiece;
    var more := ReadChars(ReadPiece(s).rest);
    if more.Ok? {
      assert out + (piece + more.value) == out + piece + more.value;
    }
  }

  predicate Signed(text: bytes, start: nat) {
    start < |text| && (text[start] == PLUS || text[start] == MINUS)
  }

  /** A run of number bytes is a number unless it is a lone sign, or nothing. */
  lemma NumberAt(text: bytes, start: nat, end: nat)
    requires start <= end <= |text| && forall i | start <= i < end :: IsNumberByte(text[i])
    requires end < |text| ==> !IsNumberByte(text[end])
    ensures ReadNumber(text[start..]) ==
            if end > start + (if Signed(text, start) then 1 else 0) then
              Ok(Number(text[start..end]), text[end..])
            else Fail
  {
    hide NumberRun;
    var s := text[start..];
    RunLength(s, end - start);
    assert text[start..end] == s[..end - start];
    assert text[end..] == s[end - start..];
  }

  lemma RunLength(s: bytes, n: nat)
    requires n <= |s| && forall i | 0 <= i < n :: IsNumberByte(s[i])
    requires n < |s| ==> !IsNumberByte(s[n])
    ensures NumberRun(s) == n
  {
  }
}
