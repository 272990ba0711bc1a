/**
 The standard Base64 alphabet without padding (sections 3.2 and 4 of RFC 4648), with the reader's
 tolerance: line breaks are skipped and the unused bits of the last digit may be anything.
 */
module Base64 {
  import opened Wrappers

  type Byte = b: int | 0 <= b < 256

  type Sextet = d: int | 0 <= d < 64

  function DigitChar(d: Sextet): char {
    if d < 26 then ('A' as int + d) as char
    else if d < 52 then ('a' as int + d - 26) as char
    else if d < 62 then ('0' as int + d - 52) as char
    else if d == 62 then '+' else '/'
  }

  function CharDigit(c: char): Option<Sextet> {
    if 'A' <= c <= 'Z' then Some(c as int - 'A' as int)
    else if 'a' <= c <= 'z' then Some(c as int - 'a' as int + 26)
    else if '0' <= c <= '9' then Some(c as int - '0' as int + 52)
    else if c == '+' then Some(62)
    else if c == '/' then Some(63) else None
  }

  function Digit1(a: Byte): Sextet { a / 4 }

  function Digit2(a: Byte, b: Byte): Sextet { a % 4 * 16 + b / 16 }

  function Digit3(b: Byte, c: Byte): Sextet { b % 16 * 4 + c / 64 }

  function Digit4(c: Byte): Sextet { c % 64 }

  function Byte1(d: int, e: int): int { d * 4 + e / 16 }

  function Byte2(e: int, f: int): int { e % 16 * 16 + f / 4 }

  function Byte3(f: int, g: int): int { f % 4 * 64 + g }

  /** Bytes cut into groups of six bits, the last group filled up with zero bits. */
  function ToDigits(bytes: seq<Byte>): seq<Sextet> {
    if bytes == [] then []
    else if |bytes| == 1 then [Digit1(bytes[0]), Digit2(bytes[0], 0)]
    else if |bytes| == 2 then [Digit1(bytes[0]), Digit2(bytes[0], bytes[1]), Digit3(bytes[1], 0)]
    else
      [Digit1(bytes[0]), Digit2(bytes[0], bytes[1]), Digit3(bytes[1], bytes[2]), Digit4(bytes[2])]
      + ToDigits(bytes[3..])
  }

  /** The whole bytes in groups of six bits; a single last group is an error. */
  function FromDigits(digits: seq<Sextet>): Option<seq<Byte>> {
    if digits == [] then Some([])
    else if |digits| == 1 then None
    else if |digits| == 2 then Some([Byte1(digits[0], digits[1])])
    else if |digits| == 3 then Some([Byte1(digits[0], digits[1]), Byte2(digits[1], digits[2])])
    else
      var rest := FromDigits(digits[4..]);
      if rest.None? then None
      else Some([Byte1(digits[0], digits[1]), Byte2(digits[1], digits[2]), Byte3(digits[2], digits[3])] + rest.value)
  }

  function ToChars(digits: seq<Sextet>): string {
    seq(|digits|, i requires 0 <= i < |digits| => DigitChar(digits[i]))
  }

  function FromChars(s: string): Option<seq<Sextet>> {
    if s == [] then Some([])
    else
      var rest := FromChars(s[1..]);
      if s[0] == '\n' || s[0] == '\r' then rest
      else if rest.None? || CharDigit(s[0]).None? then None
      else Some([CharDigit(s[0]).value] + rest.value)
  }

  function Encode(bytes: seq<Byte>): string { ToChars(ToDigits(bytes)) }

  function Decode(s: string): Option<seq<Byte>> {
    var digits := FromChars(s);
    if digits.None? then None else FromDigits(digits.value)
  }

  lemma BitsRoundTrip(a: Byte, b: Byte, c: Byte)
    ensures Byte1(Digit1(a), Digit2(a, b)) == a
    ensures Byte2(Digit2(a, b), Digit3(b, c)) == b
    ensures Byte3(Digit3(b, c), Digit4(c)) == c
  {
  }

  lemma {:induction false} DigitsRoundTrip(bytes: seq<Byte>)
    ensures FromDigits(ToDigits(bytes)) == Some(bytes)
  {
    hide Digit1, Digit2, Digit3, Digit4, Byte1, Byte2, Byte3;
    if |bytes| >= 3 {
      DigitsRoundTrip(bytes[3..]);
      assert ToDigits(bytes)[4..] == ToDigits(bytes[3..]);
      BitsRoundTrip(bytes[0], bytes[1], bytes[2]);
      assert bytes == [bytes[0], bytes[1], bytes[2]] + bytes[3..];
    } else if |bytes| == 2 {
      BitsRoundTrip(bytes[0], bytes[1], 0);
      assert bytes == [bytes[0], bytes[1]];
    } else if |bytes| == 1 {
      BitsRoundTrip(bytes[0], 0, 0);
      assert bytes == [bytes[0]];
    }
  }

  lemma {:induction false} CharsRoundTrip(digits: seq<Sextet>)
    ensures FromChars(ToChars(digits)) == Some(digits)
  {
    if digits == [] {
    } else {
      CharsRoundTrip(digits[1..]);
      assert ToChars(digits)[1..] == ToChars(digits[1..]);
      assert digits == [digits[0]] + digits[1..];
    }
  }

  /** Reading what was written gives the bytes back. */
  lemma Base64RoundTrip(bytes: seq<Byte>)
    ensures Decode(Encode(bytes)) == Some(bytes)
  {
    DigitsRoundTrip(bytes);
    CharsRoundTrip(ToDigits(bytes));
  }

  lemma EncodeAlphabet(bytes: seq<Byte>, c: char)
    requires CharDigit(c).None?
    ensures c !in Encode(bytes)
  {
    var digits := ToDigits(bytes);
    forall i | 0 <= i < |digits| ensures ToChars(digits)[i] != c {
      assert CharDigit(DigitChar(digits[i])) == Some(digits[i]);
    }
  }

  /** The number of digits is the least that holds all bits. */
  lemma {:induction false} EncodeLength(bytes: seq<Byte>)
    ensures 6 * (|Encode(bytes)| - 1) < 8 * |bytes| <= 6 * |Encode(bytes)|
  {
    if |bytes| < 3 {
    } else {
      EncodeLength(bytes[3..]);
    }
  }

  // ---------- What the digits are ----------

  const UPPER := "ABCDEFGHIJKLMNOPQRSTUVWXYZ"
  const LOWER := "abcdefghijklmnopqrstuvwxyz"
  const REST := "0123456789+/"
  const ALPHABET := UPPER + LOWER + REST

  lemma UpperIs(d: int)
    requires 0 <= d < 26
    ensures UPPER[d] == DigitChar(d)
  {
  }

  lemma LowerIs(d: int)
    requires 0 <= d < 26
    ensures LOWER[d] == DigitChar(26 + d)
  {
  }

  lemma RestIs(d: int)
    requires 0 <= d < 12
    ensures REST[d] == DigitChar(52 + d)
  {
  }

  /** The digits are the characters of Table 1 of RFC 4648 in their order. */
  lemma DigitsAreAlphabet(d: Sextet)
    ensures |ALPHABET| == 64 && DigitChar(d) == ALPHABET[d] && CharDigit(ALPHABET[d]) == Some(d)
  {
    if d < 26 { UpperIs(d); } else if d < 52 { LowerIs(d - 26); } else { RestIs(d - 52); }
  }

  /**
   Three bytes are the same number in base 256 as their four digits in base 64; fewer are filled up with zero bits.
   */
  lemma DigitsAreNumber(a: Byte, b: Byte, c: Byte)
    ensures Digit1(a) * 262144 + Digit2(a, b) * 4096 + Digit3(b, c) * 64 + Digit4(c) == a * 65536 + b * 256 + c
    ensures Digit1(a) * 4096 + Digit2(a, b) * 64 + Digit3(b, 0) == (a * 256 + b) * 4
    ensures Digit1(a) * 64 + Digit2(a, 0) == a * 16
  {
  }

  // ---------- What the reader accepts ----------

  /** The text without its line breaks. */
  function Unbroken(s: string): string {
    if s == [] then [] else if s[0] == '\n' || s[0] == '\r' then Unbroken(s[1..]) else [s[0]] + Unbroken(s[1..])
  }

  predicate InAlphabet(s: string) { forall i :: 0 <= i < |s| ==> CharDigit(s[i]).Some? }

  lemma InAlphabetMore(c: char, s: string)
    ensures InAlphabet([c] + s) <==> CharDigit(c).Some? && InAlphabet(s)
  {
    var t := [c] + s;
    assert t[0] == c;
    if InAlphabet(t) {
      forall i | 0 <= i < |s| ensures CharDigit(s[i]).Some? { assert CharDigit(t[i + 1]).Some?; }
    }
  }

  /** Line breaks do not matter, and every other character must be a digit. */
  lemma {:induction false} CharsIff(s: string)
    ensures FromChars(s).Some? <==> InAlphabet(Unbroken(s))
    ensures FromChars(s).Some? ==>
      |FromChars(s).value| == |Unbroken(s)|
      && forall i :: 0 <= i < |Unbroken(s)| ==> CharDigit(Unbroken(s)[i]) == Some(FromChars(s).value[i])
  {
    if s == [] {
    } else {
      CharsIff(s[1..]);
      var u := Unbroken(s[1..]);
      if s[0] != '\n' && s[0] != '\r' {
        InAlphabetMore(s[0], u);
        if FromChars(s).Some? {
          forall i | 0 <= i < |Unbroken(s)| ensures CharDigit(Unbroken(s)[i]) == Some(FromChars(s).value[i]) {
            if i > 0 { assert Unbroken(s)[i] == u[i - 1] && FromChars(s).value[i] == FromChars(s[1..]).value[i - 1]; }
          }
        }
      }
    }
  }

  /** Digits make whole bytes unless one digit is left over; the last bits of an incomplete group do not matter. */
  lemma {:induction false} BytesIff(digits: seq<Sextet>)
    ensures FromDigits(digits).Some? <==> |digits| % 4 != 1
    ensures FromDigits(digits).Some? ==> |FromDigits(digits).value| == |digits| * 6 / 8
  {
    hide Byte1, Byte2, Byte3;
    if |digits| < 4 {
    } else {
      BytesIff(digits[4..]);
    }
  }

  /** What is read is Base64 of some bytes up to line breaks and those last bits. */
  lemma DecodeIff(s: string)
    ensures Decode(s).Some? <==> InAlphabet(Unbroken(s)) && |Unbroken(s)| % 4 != 1
    ensures Decode(s).Some? ==> |Decode(s).value| == |Unbroken(s)| * 6 / 8
  {
    hide FromChars, FromDigits;
    CharsIff(s);
    if FromChars(s).Some? { BytesIff(FromChars(s).value); }
  }
}
