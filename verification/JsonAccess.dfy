/**
 What the letters, the escapes and the accessors of the reader stand for, in the codes and texts of the format
 itself: the reader and the grammar share their definitions, and these are what pin them down.
 */
module JsonAccess {
  import opened Bytes
  import opened Json
  import opened JsonGrammar
  import opened JsonReading
  import opened JsonTrees
  import opened JsonWriter

  // ----- letters -----

  /** An ASCII text is its codes. */
  lemma AsciiCodes(s: string, i: nat)
    requires i < |s| && s[i] as int < 128
    ensures |Ascii(s)| == |s| && Ascii(s)[i] == s[i] as int
  {
  }

  /** White space is a tab, a line feed, a carriage return or a blank. */
  lemma BlanksAre(b: byte)
    ensures IsBlank(b) <==> b == 9 || b == 10 || b == 13 || b == 32
  {
  }

  /** It makes no difference before a value, nor behind one. */
  lemma BlanksAround(before: bytes, s: bytes)
    requires forall b | b in before :: b in {9, 10, 13, 32}
    ensures ParseDocument(before + s) == ParseDocument(s)
  {
    hide ReadValue;
    var blanks := BlanksSkipped(s);
    assert before + s == before + blanks + SkipBlanks(s);
    SkipsBlanks(before + blanks, SkipBlanks(s));
  }

  /** Digits, a point, an exponent's letter and signs make up a number. */
  lemma NumberBytesAre(b: byte)
    ensures IsNumberByte(b) <==> b in Ascii("0123456789.eE+-")
  {
    var all := Ascii("0123456789.eE+-");
    assert |all| == 15;
    if IsNumberByte(b) {
      var i := if b == 46 then 10 else if b == 101 then 11 else if b == 69 then 12 else if b == 43 then 13
               else if b == 45 then 14 else b - 48;
      assert all[i] == b;
    }
  }

  /** The structural characters and the three names. */
  lemma TokensAre()
    ensures TRUE_TEXT == Ascii("true") && FALSE_TEXT == Ascii("false") && NULL_TEXT == Ascii("null")
    ensures [LBRACE, RBRACE, LBRACKET, RBRACKET, COMMA, COLON, QUOTE, BACKSLASH, LETTER_U] == Ascii("{}[],:\"\\u")
  {
  }

  // ----- escapes -----

  /** A backslash and one letter. */
  lemma EscapesRead(letter: char, rest: bytes)
    requires letter in "\"\\/bfnrt"
    ensures ReadPiece([92, letter as int] + rest) ==
            Ok([match letter case '\"' => 34 case '\\' => 92 case '/' => 47 case 'b' => 8 case 'f' => 12 case 'n' => 10
                case 'r' => 13 case _ => 9], rest)
  {
    hide ReadUnicodeEscape;
    var s: bytes := [92, letter as int] + rest;
    assert s[2..] == rest;
  }

  /** Any other letter but u is refused. */
  lemma NoOtherEscapes(letter: byte, rest: bytes)
    requires letter !in Ascii("\"\\/bfnrtu")
    ensures ReadPiece([92, letter] + rest) == Fail
  {
    var all := Ascii("\"\\/bfnrtu");
    assert |all| == 9 && all[0] == 34 && all[1] == 92 && all[2] == 47 && all[3] == 98 && all[4] == 102 && all[5] == 110
        && all[6] == 114 && all[7] == 116 && all[8] == 117;
  }

  /** Four digits, the first worth most; and a pair of surrogates, RFC 3629 section 3 and RFC 8259 section 7. */
  lemma UnitsAre(digits: bytes, h: nat, l: nat)
    requires h < 0x400 && l < 0x400
    ensures IsHex4(digits) ==>
              UnitValue(digits) == 4096 * DigitValue(digits[0]) + 256 * DigitValue(digits[1])
                                   + 16 * DigitValue(digits[2]) + DigitValue(digits[3])
    ensures IsHigh(0xD800 + h) && IsLow(0xDC00 + l)
    ensures Combine(0xD800 + h, 0xDC00 + l) == 0x10000 + 1024 * h + l
  {
    hide DigitValue;
  }

  // ----- members -----

  /** The first member of a name is the one that counts. */
  lemma {:induction false} FirstMemberFound(before: seq<(bytes, Value)>, key: bytes, v: Value,
                                            after: seq<(bytes, Value)>)
    requires forall m | m in before :: m.0 != key
    ensures Get(Object(before + [(key, v)] + after), key) == v
    ensures Get(Object(before), key) == Null
  {
    var all := before + [(key, v)] + after;
    if before != [] {
      assert before[0] in before && all[1..] == before[1..] + [(key, v)] + after;
      FirstMemberFound(before[1..], key, v, after);
    }
  }

  /** A member that is not there, or null, has the default. */
  lemma Absent(v: Value, key: bytes, text: bytes, n: int, b: bool)
    requires Get(v, key) == Null
    ensures Str(v, key, text) == text && Int(v, key, n) == n && Truth(v, key, b) == b
  {
  }

  /** true and false, from the text of an object that has them. */
  lemma FlagReads(key: bytes, b: bool, default: bool)
    requires PlainKey(key)
    ensures var doc := ParseDocument([123, 34] + key + Ascii(if b then "\":true}" else "\":false}"));
            && doc.Document? && Truth(doc.value, key, default) == b
            && Str(doc.value, key, []) == Ascii(if b then "true" else "false")
            && Int(doc.value, key, 7) == if b then 1 else 0
  {
    hide ParseAt, ReadChars, MembersPut, Built, Ascii;
    PlainKeyReads(key);
    FlagBuilt(key, b);
    BuilderReadsBack([PutBool(key, b)], 0);
    TokensAre();
  }

  lemma FlagBuilt(key: bytes, b: bool)
    requires KeyOf(key) == key
    ensures Built([PutBool(key, b)]) == [123, 34] + key + Ascii(if b then "\":true}" else "\":false}")
    ensures MembersPut([PutBool(key, b)], 0) == [(key, Json.Bool(b))]
  {
    hide KeyOf;
    var calls := [PutBool(key, b)];
    assert calls[..0] == [];
    assert Body([]) == [] && MembersPut([], 0) == [];
    assert Ascii("\":true}") == [34, 58] + TRUE_TEXT + [125];
    assert Ascii("\":false}") == [34, 58] + FALSE_TEXT + [125];
  }

  /** A text is itself as text, true only when it says so, and the number it starts with as a number; a number is its
      digits as text. */
  lemma TextsAndNumbers(key: bytes, s: bytes, text: bytes, n: int, tail: bytes)
    requires LLONG_MIN <= n <= LLONG_MAX
    ensures var v := Object([(key, String(s))]); Str(v, key, []) == s && (Truth(v, key, false) <==> s == Ascii("true"))
    ensures Str(Object([(key, Number(text))]), key, []) == text
    ensures Int(Object([(key, String(DecimalText(n)))]), key, 0) == n
    ensures Int(Object([(key, Number(DecimalText(n)))]), key, 0) == n
  {
    hide DecimalText, Strtoll;
    StrtollDecimal(n);
    TokensAre();
  }

  predicate IsDigits(s: bytes) {
    forall b | b in s :: '0' as int <= b <= '9' as int
  }

  predicate SomeNotZero(s: bytes) {
    exists i | 0 <= i < |s| :: s[i] != '0' as int
  }

  /** A number is true exactly when it has a digit other than zero in front of anything but digits and one point. */
  lemma NumbersTrue(sign: bytes, whole: bytes, part: bytes, tail: bytes)
    requires sign in [[], Ascii("+"), Ascii("-")] && IsDigits(whole) && IsDigits(part)
    requires tail != [] ==> !('0' as int <= tail[0] <= '9' as int)
    ensures sign + whole != [] && (tail != [] ==> tail[0] != '.' as int) ==>
              (AsBool(Number(sign + (whole + tail))) <==> SomeNotZero(whole))
    ensures AsBool(Number(sign + (whole + ([46] + (part + tail))))) <==> SomeNotZero(whole) || SomeNotZero(part)
  {
    hide NonZero, SomeNotZero;
    var point := [46] + (part + tail);
    assert point[1..] == part + tail;
    assert whole != [] ==> whole[0] in whole && (whole + tail)[0] == whole[0] == (whole + point)[0];
    assert whole == [] ==> whole + tail == tail && whole + point == point;
    if sign + whole != [] && (tail != [] ==> tail[0] != 46) {
      SignPassed(sign, whole + tail);
      DigitsNotZero(whole, tail, false);
    }
    SignPassed(sign, whole + point);
    DigitsNotZero(whole, point, false);
    DigitsNotZero(part, tail, true);
    PointPassed(point);
  }

  lemma SignPassed(sign: bytes, s: bytes)
    requires sign in [[], Ascii("+"), Ascii("-")]
    requires sign == [] ==> s != [] && s[0] != PLUS && s[0] != MINUS
    ensures AsBool(Number(sign + s)) == NonZero(s, false)
  {
    hide NonZero;
    assert sign != [] ==> (sign + s)[0] == sign[0] && (sign + s)[1..] == s;
    assert sign == [] ==> sign + s == s;
  }

  lemma PointPassed(s: bytes)
    requires s != [] && s[0] == DOT
    ensures NonZero(s, false) == NonZero(s[1..], true)
  {
  }

  lemma {:induction false} DigitsNotZero(s: bytes, tail: bytes, dotSeen: bool)
    requires IsDigits(s) && (tail != [] ==> !(DIGIT_0 <= tail[0] <= DIGIT_9))
    ensures tail != [] && tail[0] == DOT && !dotSeen ==>
              NonZero(s + tail, dotSeen) == (SomeNotZero(s) || NonZero(tail, dotSeen))
    ensures !(tail != [] && tail[0] == DOT && !dotSeen) ==> NonZero(s + tail, dotSeen) == SomeNotZero(s)
  {
    if s == [] {
      assert s + tail == tail;
    } else {
      assert s[0] in s && (s + tail)[1..] == s[1..] + tail;
      assert forall b | b in s[1..] :: b in s;
      DigitsNotZero(s[1..], tail, dotSeen);
      assert SomeNotZero(s) <==> s[0] != DIGIT_0 || SomeNotZero(s[1..]) by {
        assert forall i | 0 < i < |s| :: s[i] == s[1..][i - 1];
        if SomeNotZero(s) && s[0] == DIGIT_0 {
          var i :| 0 <= i < |s| && s[i] != DIGIT_0;
          assert s[1..][i - 1] != DIGIT_0;
        }
        if SomeNotZero(s[1..]) {
          var i :| 0 <= i < |s[1..]| && s[1..][i] != DIGIT_0;
          assert s[i + 1] != DIGIT_0;
        }
      }
    }
  }
}
