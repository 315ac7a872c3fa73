/**
 The reader accepts exactly the texts of well-formed trees whose values sit no deeper than `MAX_DEPTH`, and
 returns exactly what they mean.
 */
module JsonReading {
  import opened Bytes
  import opened Json
  import opened JsonGrammar

  // ----- small steps -----

  /** What may follow a number without being taken for more of it. */
  predicate EndsNumber(rest: bytes) {
    rest != [] ==> !IsNumberByte(rest[0])
  }

  lemma {:induction false} SkipsBlanks(blanks: bytes, rest: bytes)
    requires IsBlanks(blanks) && (rest != [] ==> !IsBlank(rest[0]))
    ensures SkipBlanks(blanks + rest) == rest
  {
    if blanks == [] {
      assert blanks + rest == rest;
    } else {
      assert blanks[0] in blanks;
      assert (blanks + rest)[1..] == blanks[1..] + rest;
      SkipsBlanks(blanks[1..], rest);
    }
  }

  lemma {:induction false} BlanksSkipped(s: bytes) returns (blanks: bytes)
    ensures IsBlanks(blanks) && s == blanks + SkipBlanks(s)
  {
    if s != [] && IsBlank(s[0]) {
      var more := BlanksSkipped(s[1..]);
      blanks := [s[0]] + more;
    } else {
      blanks := [];
    }
  }

  lemma {:induction false} NumberRunIs(text: bytes, rest: bytes)
    requires (forall b | b in text :: IsNumberByte(b)) && EndsNumber(rest)
    ensures NumberRun(text + rest) == |text|
  {
    if text == [] {
      assert text + rest == rest;
    } else {
      assert text[0] in text;
      assert (text + rest)[1..] == text[1..] + rest;
      NumberRunIs(text[1..], rest);
    }
  }

  lemma NumberReads(text: bytes, rest: bytes)
    requires IsNumberText(text) && EndsNumber(rest)
    ensures ReadNumber(text + rest) == Ok(Number(text), rest)
  {
    NumberRunIs(text, rest);
    assert (text + rest)[..|text|] == text;
  }

  lemma NumberRead(s: bytes)
    requires ReadNumber(s).Ok?
    ensures var text := s[..NumberRun(s)];
            && IsNumberText(text) && ReadNumber(s) == Ok(Number(text), s[NumberRun(s)..])
            && s == text + s[NumberRun(s)..] && EndsNumber(s[NumberRun(s)..])
  {
  }

  // ----- strings -----

  lemma Hex4Reads(digits: bytes, rest: bytes)
    requires IsHex4(digits)
    ensures ReadHex4(digits + rest) == Ok(UnitValue(digits), rest)
  {
    assert (digits + rest)[4..] == rest;
  }

  lemma NoPieces()
    ensures PiecesText([]) == []
  {
  }

  /** The text of pieces up to the closing quote, seen from its first piece. */
  lemma PiecesStart(ps: seq<Piece>, rest: bytes)
    requires ps != []
    ensures PiecesText(ps) + [QUOTE] + rest == PieceText(ps[0]) + (PiecesText(ps[1..]) + [QUOTE] + rest)
  {
  }

  lemma UnitAlone(digits: bytes, after: bytes)
    requires IsHex4(digits)
    requires |after| > 1 ==> after[0] != BACKSLASH || after[1] != LETTER_U
    ensures ReadUnicodeEscape(digits + after) == Ok(Utf8(UnitValue(digits)), after)
  {
    hide ReadHex4, UnitValue, Utf8;
    Hex4Reads(digits, after);
  }

  /** Two code units side by side are one character exactly when they are a high and a low surrogate. */
  lemma UnitThenUnit(digits: bytes, next: bytes, tail: bytes)
    requires IsHex4(digits) && IsHex4(next)
    ensures var unit, low := UnitValue(digits), UnitValue(next);
            ReadUnicodeEscape(digits + ([BACKSLASH, LETTER_U] + next + tail)) ==
            if IsHigh(unit) && IsLow(low) then Ok(Utf8(Combine(unit, low)), tail)
            else Ok(Utf8(unit), [BACKSLASH, LETTER_U] + next + tail)
  {
    hide ReadHex4, UnitValue, Utf8;
    var after := [BACKSLASH, LETTER_U] + next + tail;
    Hex4Reads(digits, after);
    assert after[2..] == next + tail;
    Hex4Reads(next, tail);
  }

  lemma UnitReads(digits: bytes, ps: seq<Piece>, rest: bytes)
    requires IsHex4(digits) && ValidPieces(ps)
    ensures var after := PiecesText(ps) + [QUOTE] + rest;
            var unit := UnitValue(digits);
            ReadUnicodeEscape(digits + after) ==
            if IsHigh(unit) && ps != [] && ps[0].Unit? && IsHex4(ps[0].digits) && IsLow(UnitValue(ps[0].digits))
            then Ok(Utf8(Combine(unit, UnitValue(ps[0].digits))), PiecesText(ps[1..]) + [QUOTE] + rest)
            else Ok(Utf8(unit), after)
  {
    hide UnitValue, Utf8, PiecesText, ReadUnicodeEscape;
    var after := PiecesText(ps) + [QUOTE] + rest;
    if ps == [] {
      NoPieces();
      assert after[0] == QUOTE;
      UnitAlone(digits, after);
    } else {
      assert ps[0] in ps;
      PiecesStart(ps, rest);
      var tail := PiecesText(ps[1..]) + [QUOTE] + rest;
      if ps[0].Unit? {
        UnitThenUnit(digits, ps[0].digits, tail);
      } else {
        assert after[0] == PieceText(ps[0])[0];
        assert ps[0].Simple? ==> after[1] == ps[0].letter;
        UnitAlone(digits, after);
      }
    }
  }

  lemma {:induction false} CharsRead(ps: seq<Piece>, rest: bytes)
    requires ValidPieces(ps)
    ensures ReadChars(PiecesText(ps) + [QUOTE] + rest) == Ok(StringMeaning(ps), rest)
    decreases |ps|
  {
    hide ReadUnicodeEscape, UnitValue, Utf8, PiecesText;
    var s := PiecesText(ps) + [QUOTE] + rest;
    if ps == [] {
      NoPieces();
      assert s == [QUOTE] + rest;
      assert s[1..] == rest;
    } else {
      PiecesStart(ps, rest);
      var p, tail := ps[0], PiecesText(ps[1..]) + [QUOTE] + rest;
      assert p in ps;
      assert s == PieceText(p) + tail;
      CharsRead(ps[1..], rest);
      match p
      case Plain(b) =>
        assert s[1..] == tail;
      case Simple(letter) =>
        assert s[2..] == tail;
      case Unit(digits) =>
        assert s[2..] == digits + tail;
        UnitReads(digits, ps[1..], rest);
        if IsPair(ps) {
          assert ps[1..][0] == ps[1] && ps[1] in ps;
          assert ps[1..][1..] == ps[2..];
          CharsRead(ps[2..], rest);
        } else {
          assert ps[1..] != [] ==> ps[1..][0] == ps[1] && ps[1] in ps;
        }
  }
  }

  lemma Utf8Units(s: bytes) returns (ps: seq<Piece>)
    requires ReadUnicodeEscape(s).Ok?
    ensures ValidPieces(ps) && 1 <= |ps| <= 2
    ensures [BACKSLASH, LETTER_U] + s == PiecesText(ps) + ReadUnicodeEscape(s).rest
    ensures StringMeaning(ps) == ReadUnicodeEscape(s).value
    ensures |ps| == 2 ==> IsPair(ps)
    ensures |s| >= 4 && (|ps| == 1 ==> ps == [Unit(s[..4])])
  {
    hide Utf8, PiecesText, StringMeaning, ReadHex4, UnitValue;
    Hex4IsUnit(s);
    var first, rest := Unit(s[..4]), s[4..];
    ps := [first];
    OnePiece(first);
    if IsHigh(UnitValue(s[..4])) && |rest| > 1 && rest[0] == BACKSLASH && rest[1] == LETTER_U {
      var low := ReadHex4(rest[2..]);
      if low.Ok? && IsLow(low.value) {
        ps := PairUnits(s);
      }
    }
  }

  lemma PairUnits(s: bytes) returns (ps: seq<Piece>)
    requires ReadHex4(s).Ok? && |s| > 5 && s[4] == BACKSLASH && s[5] == LETTER_U
    requires ReadHex4(s[6..]).Ok? && IsHigh(ReadHex4(s).value) && IsLow(ReadHex4(s[6..]).value)
    ensures ps == [Unit(s[..4]), Unit(s[6..][..4])] && ValidPieces(ps) && IsPair(ps)
    ensures [BACKSLASH, LETTER_U] + s == PiecesText(ps) + ReadUnicodeEscape(s).rest
    ensures StringMeaning(ps) == ReadUnicodeEscape(s).value
  {
    hide Utf8, PiecesText, StringMeaning, ReadHex4, UnitValue;
    var first, second, low := Unit(s[..4]), Unit(s[6..][..4]), ReadHex4(s[6..]);
    Hex4IsUnit(s);
    Hex4IsUnit(s[6..]);
    ps := [first, second];
    assert s[4..] == PieceText(second) + low.rest;
    TwoPieces(first, second);
  }

  lemma Hex4IsUnit(s: bytes)
    requires ReadHex4(s).Ok?
    ensures |s| >= 4 && ValidPiece(Unit(s[..4])) && ReadHex4(s) == Ok(UnitValue(s[..4]), s[4..])
  {
  }

  lemma TwoPieces(p: Piece, q: Piece)
    ensures PiecesText([p, q]) == PieceText(p) + PieceText(q)
    ensures ValidPiece(p) && ValidPiece(q) && p.Unit? && q.Unit?
            && IsHigh(UnitValue(p.digits)) && IsLow(UnitValue(q.digits)) ==>
              && ValidPieces([p, q]) && IsPair([p, q])
              && StringMeaning([p, q]) == Utf8(Combine(UnitValue(p.digits), UnitValue(q.digits)))
  {
    hide Utf8, UnitValue;
    assert [p, q][1..] == [q] && [p, q][2..] == [];
    OnePiece(q);
    assert PiecesText([p, q]) == PieceText(p) + PiecesText([q]);
  }

  lemma OnePiece(p: Piece)
    ensures PiecesText([p]) == PieceText(p)
    ensures ValidPiece(p) ==> ValidPieces([p]) && StringMeaning([p]) == PieceValue(p)
  {
    hide Utf8, UnitValue;
    assert [p][1..] == [];
    assert PiecesText([p]) == PieceText(p) + PiecesText([]);
    if ValidPiece(p) {
      assert StringMeaning([p]) == PieceValue(p) + StringMeaning([]);
    }
  }

  lemma PiecesAppend(a: seq<Piece>, b: seq<Piece>)
    ensures PiecesText(a + b) == PiecesText(a) + PiecesText(b)
  {
    if a == [] {
      assert a + b == b;
    } else {
      assert (a + b)[1..] == a[1..] + b;
      PiecesAppend(a[1..], b);
    }
  }

  /** Pieces read one after the other mean what they mean apart, unless a pair straddles them. */
  lemma MeaningAppends(front: seq<Piece>, ps: seq<Piece>)
    requires ValidPieces(front) && ValidPieces(ps)
    requires (|front| == 1 && !IsPair(front + ps)) || (|front| == 2 && IsPair(front))
    ensures StringMeaning(front + ps) == StringMeaning(front) + StringMeaning(ps)
  {
    assert (front + ps)[0] == front[0];
    if |front| == 1 {
      assert (front + ps)[1..] == ps;
      assert front[1..] == [];
    } else {
      assert (front + ps)[1] == front[1] && (front + ps)[2..] == ps;
      assert front[2..] == [];
    }
  }

  /** The reader's next piece, as one tree piece or a surrogate pair of them. */
  lemma PieceRead(s: bytes) returns (front: seq<Piece>)
    requires s != [] && s[0] != QUOTE && ReadPiece(s).Ok?
    ensures ValidPieces(front) && s == PiecesText(front) + ReadPiece(s).rest
    ensures StringMeaning(front) == ReadPiece(s).value
    ensures |front| == 1 || (|front| == 2 && IsPair(front))
    ensures |front| == 1 && front[0].Unit? ==> ReadPiece(s) == ReadUnicodeEscape(front[0].digits + ReadPiece(s).rest)
  {
    hide ReadUnicodeEscape, StringMeaning, PiecesText;
    if s[0] != BACKSLASH {
      front := [Plain(s[0])];
      OnePiece(front[0]);
    } else if s[1] == LETTER_U {
      front := Utf8Units(s[2..]);
      assert s == [BACKSLASH, LETTER_U] + s[2..];
      if |front| == 1 {
        OnePiece(front[0]);
        var rest := ReadPiece(s).rest;
        assert [BACKSLASH, LETTER_U] + s[2..] == [BACKSLASH, LETTER_U] + front[0].digits + rest;
        assert s[2..] == ([BACKSLASH, LETTER_U] + front[0].digits + rest)[2..] == front[0].digits + rest;
      }
    } else {
      front := [Simple(s[1])];
      OnePiece(front[0]);
    }
  }

  lemma {:induction false} CharsSound(s: bytes) returns (ps: seq<Piece>)
    requires ReadChars(s).Ok?
    ensures ValidPieces(ps) && s == PiecesText(ps) + [QUOTE] + ReadChars(s).rest
    ensures StringMeaning(ps) == ReadChars(s).value
    decreases |s|
  {
    hide StringMeaning, ReadPiece, PiecesText, ReadUnicodeEscape;
    if s[0] == QUOTE {
      ps := [];
      NoPieces();
      NoMeaning();
      return;
    }
    var front := PieceRead(s);
    var rest := ReadPiece(s).rest;
    var tail := CharsSound(rest);
    ps := front + tail;
    PiecesAppend(front, tail);
    if |front| == 1 {
      NoStraddle(front[0], tail, rest, ReadChars(rest).rest, ReadPiece(s).value);
      assert front == [front[0]];
    }
    MeaningAppends(front, tail);
    assert PiecesText(front) + PiecesText(tail) + [QUOTE] + ReadChars(rest).rest
        == PiecesText(front) + (PiecesText(tail) + [QUOTE] + ReadChars(rest).rest);
  }

  /** A code unit the reader left alone is not half of a pair with what it read next. */
  lemma NoStraddle(p: Piece, tail: seq<Piece>, rest: bytes, after: bytes, value: bytes)
    requires ValidPiece(p) && ValidPieces(tail) && rest == PiecesText(tail) + [QUOTE] + after
    requires p.Unit? ==> ReadUnicodeEscape(p.digits + rest) == Ok(value, rest)
    ensures !IsPair([p] + tail)
  {
    hide ReadUnicodeEscape, PiecesText, UnitValue;
    if IsPair([p] + tail) {
      assert ([p] + tail)[0] == p && ([p] + tail)[1] == tail[0] && tail[0] in tail;
      UnitReads(p.digits, tail, after);
      PiecesStart(tail, after);
    }
  }

  lemma NoMeaning()
    ensures StringMeaning([]) == []
  {
  }
}
