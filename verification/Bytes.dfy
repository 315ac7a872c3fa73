/**
 Byte strings, and the parts of the C library the plugin leans on when it reads numbers out of them.
 */
module Bytes {
  type byte = b: int | 0 <= b < 256

  type bytes = seq<byte>

  // The characters the wire formats give a meaning to.
  const TAB: byte := 0x09
  const LF: byte := 0x0A
  const CR: byte := 0x0D
  const SP: byte := 0x20
  const PLUS: byte := 0x2B
  const MINUS: byte := 0x2D
  const DIGIT_0: byte := 0x30
  const DIGIT_9: byte := 0x39
  const COLON: byte := 0x3A
  const SEMICOLON: byte := 0x3B

  /** The bytes of an ASCII text. */
  function Ascii(s: string): bytes {
    seq(|s|, i requires 0 <= i < |s| => (s[i] as int) % 256)
  }

  /** The position of the first `b` in `s`, or the length of `s` when there is none. */
  function IndexOf(s: bytes, b: byte): (i: nat)
    ensures i <= |s|
    ensures b !in s[..i]
    ensures i < |s| ==> s[i] == b
  {
    if s == [] || s[0] == b then 0
    else
      var i := 1 + IndexOf(s[1..], b);
      assert s[..i] == [s[0]] + s[1..][..i - 1];
      i
  }

  lemma IndexOfUnique(s: bytes, b: byte, i: nat)
    requires i <= |s| && b !in s[..i] && (i < |s| ==> s[i] == b)
    ensures IndexOf(s, b) == i
  {
    var k := IndexOf(s, b);
    assert forall j | 0 <= j < i :: s[j] == s[..i][j] && s[j] in s[..i];
    assert forall j | 0 <= j < k :: s[j] == s[..k][j] && s[j] in s[..k];
  }

  /** True when `needle` occurs somewhere in `s`, as `std::string::find` decides it. */
  predicate Contains(s: bytes, needle: bytes) {
    exists i | 0 <= i <= |s| :: needle <= s[i..]
  }

  // ----- strtoll -----

  const LLONG_MAX: int := 0x7FFF_FFFF_FFFF_FFFF
  const LLONG_MIN: int := -0x8000_0000_0000_0000

  predicate IsSpace(b: byte) {
    b == SP || 0x09 <= b <= 0x0D
  }

  function SkipSpace(s: bytes): bytes {
    if s != [] && IsSpace(s[0]) then SkipSpace(s[1..]) else s
  }

  /** The value of a hexadecimal digit, or 16 for any other byte. */
  function DigitValue(b: byte): (d: nat)
    ensures d <= 16
  {
    if DIGIT_0 <= b <= DIGIT_9 then b - DIGIT_0
    else if 0x61 <= b <= 0x66 then b - 0x61 + 10
    else if 0x41 <= b <= 0x46 then b - 0x41 + 10
    else 16
  }

  newtype Base = b: int | b == 10 || b == 16 witness 10

  function Shift(acc: nat, base: Base, d: nat): nat {
    if base == 10 then acc * 10 + d else acc * 16 + d
  }

  /** Reads digits for as long as there are any. */
  function Digits(s: bytes, base: Base, acc: nat): nat {
    if s != [] && DigitValue(s[0]) < base as int
    then Digits(s[1..], base, Shift(acc, base, DigitValue(s[0])))
    else acc
  }

  /** `strtoll(s, 0, base)`: blanks, a sign, an optional 0x, digits up to the first other byte, clamped. */
  function Strtoll(s: bytes, base: Base): int {
    var t := SkipSpace(s);
    var negative := t != [] && t[0] == MINUS;
    var u := if t != [] && (t[0] == MINUS || t[0] == PLUS) then t[1..] else t;
    var hasPrefix := base == 16 && |u| >= 3 && u[0] == DIGIT_0 && (u[1] == 0x78 || u[1] == 0x58)
      && DigitValue(u[2]) < 16;
    var magnitude: int := Digits(if hasPrefix then u[2..] else u, base, 0);
    if negative then (if -magnitude < LLONG_MIN then LLONG_MIN else -magnitude)
    else if magnitude > LLONG_MAX then LLONG_MAX
    else magnitude
  }

  // ----- numerals: what snprintf writes and strtoll reads back -----

  function DigitByte(d: nat): byte
    requires d < 16
  {
    if d < 10 then DIGIT_0 + d else 0x61 + d - 10
  }

  /** The shortest numeral for `n`, most significant digit first. */
  function Numeral(n: nat, base: Base): (s: bytes)
    ensures |s| > 0
    ensures forall b | b in s :: DigitValue(b) < base as int && (DIGIT_0 <= b <= DIGIT_9 || 0x61 <= b <= 0x66)
    ensures |s| > 1 ==> s[0] != DIGIT_0
    decreases n
  {
    if n < base as int then [DigitByte(n)]
    else if base == 10 then Numeral(n / 10, base) + [DigitByte(n % 10)]
    else Numeral(n / 16, base) + [DigitByte(n % 16)]
  }

  lemma {:induction false} DigitsSnoc(s: bytes, b: byte, tail: bytes, base: Base, acc: nat)
    requires forall c | c in s :: DigitValue(c) < base as int
    requires DigitValue(b) < base as int
    requires tail != [] ==> DigitValue(tail[0]) >= base as int
    ensures Digits(s + [b] + tail, base, acc) == Shift(Digits(s, base, acc), base, DigitValue(b))
  {
    if s == [] {
      assert (s + [b] + tail)[1..] == tail;
    } else {
      assert (s + [b] + tail)[1..] == s[1..] + [b] + tail;
      DigitsSnoc(s[1..], b, tail, base, Shift(acc, base, DigitValue(s[0])));
    }
  }

  /** Reading a numeral gives the number back and stops at the first byte that is not a digit. */
  lemma {:induction false} NumeralReadsBack(n: nat, base: Base, tail: bytes)
    requires tail != [] ==> DigitValue(tail[0]) >= base as int
    ensures Digits(Numeral(n, base) + tail, base, 0) == n
    decreases n
  {
    if n < base as int {
      assert (Numeral(n, base) + tail)[1..] == tail;
    } else {
      var q, r := if base == 10 then n / 10 else n / 16, if base == 10 then n % 10 else n % 16;
      NumeralReadsBack(q, base, []);
      assert Numeral(q, base) + [] == Numeral(q, base);
      DigitsSnoc(Numeral(q, base), DigitByte(r), tail, base, 0);
    }
  }

  /** Every number a `long long` holds survives being written in hexadecimal and read back. */
  lemma StrtollHex(n: nat)
    requires n <= LLONG_MAX
    ensures Strtoll(Numeral(n, 16), 16) == n
  {
    var s := Numeral(n, 16);
    assert s[0] in s;
    NumeralReadsBack(n, 16, []);
    assert s + [] == s;
    if |s| >= 3 {
      assert s[1] in s;
    }
  }

  /** `snprintf("%lld")`. */
  function DecimalText(n: int): bytes {
    if n < 0 then [MINUS] + Numeral(-n, 10) else Numeral(n, 10)
  }

  /** Every `long long` survives being written in decimal and read back. */
  lemma StrtollDecimal(n: int)
    requires LLONG_MIN <= n <= LLONG_MAX
    ensures Strtoll(DecimalText(n), 10) == n
  {
    var m := if n < 0 then -n else n;
    var s := Numeral(m, 10);
    assert s[0] in s;
    NumeralReadsBack(m, 10, []);
    assert s + [] == s;
    assert n < 0 ==> DecimalText(n)[1..] == s;
  }

  /** The digits, of either case, and nothing else. */
  lemma DigitsAre(b: byte)
    ensures '0' as int <= b <= '9' as int ==> DigitValue(b) == b - '0' as int
    ensures 'a' as int <= b <= 'f' as int ==> DigitValue(b) == 10 + (b - 'a' as int)
    ensures 'A' as int <= b <= 'F' as int ==> DigitValue(b) == 10 + (b - 'A' as int)
    ensures DigitValue(b) < 16 ==>
              '0' as int <= b <= '9' as int || 'a' as int <= b <= 'f' as int || 'A' as int <= b <= 'F' as int
  {
  }

  /** A numeral is its digits, the units last. */
  lemma DecimalDigits(n: int, d: int)
    requires n >= 0 && 0 <= d < 10
    ensures DecimalText(d) == [0x30 + d]
    ensures n > 0 ==> DecimalText(10 * n + d) == DecimalText(n) + [0x30 + d]
    ensures n > 0 ==> DecimalText(-n) == [MINUS] + DecimalText(n)
  {
    assert (10 * n + d) / 10 == n && (10 * n + d) % 10 == d;
  }

  /** `strtoll` passes over blanks, takes a sign, reads the digits up to anything else, and is held within 64 bits. */
  lemma StrtollReads(blanks: bytes, sign: bytes, n: int, tail: bytes)
    requires n >= 0
    requires forall b | b in blanks :: b in {0x09, 0x0A, 0x0B, 0x0C, 0x0D, 0x20}
    requires sign == [] || sign == [PLUS] || sign == [MINUS]
    requires tail != [] ==> !(DIGIT_0 <= tail[0] <= DIGIT_9)
    ensures Strtoll(blanks + (sign + (DecimalText(n) + tail)), 10) ==
            if sign == [MINUS] then (if n > 0x8000_0000_0000_0000 then -0x8000_0000_0000_0000 else -n)
            else if n > 0x7FFF_FFFF_FFFF_FFFF then 0x7FFF_FFFF_FFFF_FFFF else n
  {
    var text := DecimalText(n) + tail;
    assert text[0] == DecimalText(n)[0] && DecimalText(n)[0] in DecimalText(n);
    SpacesSkipped(blanks, sign + text);
    NumeralReadsBack(n, 10, tail);
    assert sign != [] ==> (sign + text)[1..] == text;
    assert sign == [] ==> sign + text == text;
  }

  predicate IsHex(s: bytes) {
    forall b | b in s :: DigitValue(b) < 16
  }

  /** A further hexadecimal digit is worth what it is, and every one before it sixteen times as much as it was. */
  lemma OneMoreHexDigit(s: bytes, b: byte)
    requires IsHex(s) && DigitValue(b) < 16
    ensures Digits([], 16, 0) == 0 && Digits(s + [b], 16, 0) == 16 * Digits(s, 16, 0) + DigitValue(b)
  {
    DigitsSnoc(s, b, [], 16, 0);
    assert s + [b] + [] == s + [b];
  }

  /** With base 16 it also takes a 0x in front of a digit, and digits of either case. */
  lemma StrtollReadsHex(blanks: bytes, sign: bytes, prefix: bytes, digits: bytes, tail: bytes)
    requires forall b | b in blanks :: b in {0x09, 0x0A, 0x0B, 0x0C, 0x0D, 0x20}
    requires sign == [] || sign == [PLUS] || sign == [MINUS]
    requires digits != [] && IsHex(digits) && (tail != [] ==> DigitValue(tail[0]) == 16)
    requires prefix in [Ascii("0x"), Ascii("0X")] || prefix == []
    requires prefix == [] && tail != [] ==> tail[0] != 'x' as int && tail[0] != 'X' as int
    ensures var n: int := Digits(digits, 16, 0);
            Strtoll(blanks + (sign + (prefix + (digits + tail))), 16) ==
            if sign == [MINUS] then (if n > 0x8000_0000_0000_0000 then -0x8000_0000_0000_0000 else -n)
            else if n > 0x7FFF_FFFF_FFFF_FFFF then 0x7FFF_FFFF_FFFF_FFFF else n
  {
    hide Digits, Ascii;
    var number := digits + tail;
    assert number[0] == digits[0] && digits[0] in digits;
    assert |number| > 1 ==> number[1] == if |digits| > 1 then digits[1] else tail[0];
    assert |digits| > 1 ==> digits[1] in digits;
    DigitsStop(digits, tail, 0);
    PrefixTaken(prefix, number);
    assert prefix == [] && |number| > 1 ==> number[1] != 0x78 && number[1] != 0x58;
    var u := prefix + number;
    assert u[0] == if prefix == [] then number[0] else DIGIT_0;
    SpacesSkipped(blanks, sign + u);
    assert sign != [] ==> (sign + u)[1..] == u;
    assert sign == [] ==> sign + u == u;
  }

  lemma PrefixTaken(prefix: bytes, number: bytes)
    requires prefix in [Ascii("0x"), Ascii("0X")] || prefix == []
    ensures prefix == [] ==> prefix + number == number
    ensures prefix != [] ==>
              |prefix| == 2 && prefix[0] == DIGIT_0 && (prefix[1] == 0x78 || prefix[1] == 0x58)
              && (prefix + number)[2..] == number
  {
  }

  lemma {:induction false} DigitsStop(digits: bytes, tail: bytes, acc: nat)
    requires IsHex(digits) && (tail != [] ==> DigitValue(tail[0]) == 16)
    ensures Digits(digits + tail, 16, acc) == Digits(digits, 16, acc)
  {
    if digits == [] {
      assert digits + tail == tail;
    } else {
      assert digits[0] in digits && (digits + tail)[1..] == digits[1..] + tail;
      assert forall b | b in digits[1..] :: b in digits;
      DigitsStop(digits[1..], tail, acc * 16 + DigitValue(digits[0]));
    }
  }

  lemma {:induction false} SpacesSkipped(blanks: bytes, rest: bytes)
    requires forall b | b in blanks :: IsSpace(b)
    requires rest != [] ==> !IsSpace(rest[0])
    ensures SkipSpace(blanks + rest) == rest
  {
    if blanks == [] {
      assert blanks + rest == rest;
    } else {
      assert blanks[0] in blanks && (blanks + rest)[1..] == blanks[1..] + rest;
      SpacesSkipped(blanks[1..], rest);
    }
  }
}
