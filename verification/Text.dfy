/** Splitting strings, and integers in decimal. */
module Text {
  import opened Wrappers

  // ---------- strings.Split ----------

  function Split(s: string, separator: char): (parts: seq<string>)
    ensures |parts| >= 1
  {
    if s == [] then [[]]
    else
      var rest := Split(s[1..], separator);
      if s[0] == separator then [[]] + rest else [[s[0]] + rest[0]] + rest[1..]
  }

  lemma {:induction false} SplitNone(s: string, separator: char)
    requires separator !in s
    ensures Split(s, separator) == [s]
  {
    if s == [] {
    } else {
      SplitNone(s[1..], separator);
      assert s == [s[0]] + s[1..];
    }
  }

  lemma {:induction false} SplitFirst(s: string, separator: char, rest: string)
    requires separator !in s
    ensures Split(s + [separator] + rest, separator) == [s] + Split(rest, separator)
  {
    var t := s + [separator] + rest;
    if s == [] {
      assert t[1..] == rest;
    } else {
      assert t[1..] == s[1..] + [separator] + rest;
      SplitFirst(s[1..], separator, rest);
      assert s == [s[0]] + s[1..];
    }
  }

  /** The parts with a separator between any two. */
  function Join(parts: seq<string>, separator: char): string {
    if |parts| == 0 then "" else if |parts| == 1 then parts[0] else parts[0] + [separator] + Join(parts[1..], separator)
  }

  /** Splitting undoes joining when no part holds the separator. */
  lemma {:induction false} SplitJoin(parts: seq<string>, separator: char)
    requires parts != [] && forall i :: 0 <= i < |parts| ==> separator !in parts[i]
    ensures Split(Join(parts, separator), separator) == parts
  {
    if |parts| == 1 {
      SplitNone(parts[0], separator);
    } else {
      SplitFirst(parts[0], separator, Join(parts[1..], separator));
      SplitJoin(parts[1..], separator);
    }
  }

  /** The parts hold no separator, and joining them gives the text back: so `SplitJoin` says what they are. */
  lemma {:induction false} SplitParts(s: string, separator: char)
    ensures forall i :: 0 <= i < |Split(s, separator)| ==> separator !in Split(s, separator)[i]
    ensures Join(Split(s, separator), separator) == s
  {
    if s == [] {
    } else {
      var rest := Split(s[1..], separator);
      SplitParts(s[1..], separator);
      assert s == [s[0]] + s[1..];
      if s[0] == separator {
        assert ([[]] + rest)[1..] == rest;
      } else {
        var parts := [[s[0]] + rest[0]] + rest[1..];
        assert parts[1..] == rest[1..];
        assert Join(parts, separator) == [s[0]] + Join(rest, separator);
      }
    }
  }

  lemma SplitTwo(s: string, separator: char)
    requires |Split(s, separator)| == 2
    ensures var parts := Split(s, separator);
      s == parts[0] + [separator] + parts[1] && separator !in parts[0] && separator !in parts[1]
  {
    SplitParts(s, separator);
    var parts := Split(s, separator);
    assert parts[1..] == [parts[1]];
  }

  lemma SplitPair(a: string, b: string, separator: char)
    requires separator !in a && separator !in b
    ensures Split(a + [separator] + b, separator) == [a, b]
  {
    SplitFirst(a, separator, b);
    SplitNone(b, separator);
  }

  /** strings.SplitN(s, separator, 2): the parts around the first separator, if there is one. */
  function Cut(s: string, separator: char): Option<(string, string)> {
    if s == [] then None
    else if s[0] == separator then Some(([], s[1..]))
    else
      var rest := Cut(s[1..], separator);
      if rest.None? then None else Some(([s[0]] + rest.value.0, rest.value.1))
  }

  lemma {:induction false} CutFirst(s: string, separator: char, rest: string)
    requires separator !in s
    ensures Cut(s + [separator] + rest, separator) == Some((s, rest))
  {
    var t := s + [separator] + rest;
    if s == [] {
      assert t[1..] == rest;
    } else {
      assert t[1..] == s[1..] + [separator] + rest;
      CutFirst(s[1..], separator, rest);
      assert s == [s[0]] + s[1..];
    }
  }

  /** There is one way to cut a text at its first separator, if it has one. */
  lemma {:induction false} CutIff(s: string, separator: char)
    ensures Cut(s, separator).None? <==> separator !in s
    ensures Cut(s, separator).Some? ==>
      var parts := Cut(s, separator).value; s == parts.0 + [separator] + parts.1 && separator !in parts.0
  {
    if s == [] {
    } else {
      assert s == [s[0]] + s[1..];
      CutIff(s[1..], separator);
    }
  }

  // ---------- Decimal numbers ----------

  predicate IsDigit(c: char) { '0' <= c <= '9' }

  function DigitOf(n: nat): char
    requires n < 10
  {
    ('0' as int + n) as char
  }

  function Print(n: nat): string {
    if n < 10 then [DigitOf(n)] else Print(n / 10) + [DigitOf(n % 10)]
  }

  /** strconv.Itoa */
  function Itoa(n: int): string { if n < 0 then ['-'] + Print(-n) else Print(n) }

  predicate AllDigits(s: string) { s != [] && forall i :: 0 <= i < |s| ==> IsDigit(s[i]) }

  function DigitValue(c: char): nat
    requires IsDigit(c)
  {
    c as int - '0' as int
  }

  function ValueOf(s: string): nat
    requires forall i :: 0 <= i < |s| ==> IsDigit(s[i])
  {
    if s == [] then 0 else 10 * ValueOf(s[..|s| - 1]) + DigitValue(s[|s| - 1])
  }

  /** strconv.ParseUint(s, 10, 32) */
  function ParseUint32(s: string): Option<nat> {
    if AllDigits(s) && ValueOf(s) < 0x1_0000_0000 then Some(ValueOf(s)) else None
  }

  /** strconv.Atoi: an optional sign, digits, and a value that fits 64 bits. */
  function Atoi(s: string): Option<int> {
    var signed := s != [] && (s[0] == '-' || s[0] == '+');
    var digits := if signed then s[1..] else s;
    if !AllDigits(digits) then None
    else
      var v: int := ValueOf(digits);
      var n := if signed && s[0] == '-' then -v else v;
      if -0x8000_0000_0000_0000 <= n < 0x8000_0000_0000_0000 then Some(n) else None
  }

  lemma {:induction false} PrintParses(n: nat)
    ensures AllDigits(Print(n)) && ValueOf(Print(n)) == n
  {
    if n >= 10 {
      PrintParses(n / 10);
      var s := Print(n);
      assert s[..|s| - 1] == Print(n / 10);
    } else {
      assert Print(n)[..0] == [];
    }
  }

  lemma ItoaSign(n: int)
    ensures Itoa(n) != [] && (Itoa(n)[0] == '-' <==> n < 0)
    ensures n < 0 ==> Itoa(n)[1..] == Print(-n)
  {
    PrintParses(if n < 0 then -n else n);
    if n >= 0 { assert IsDigit(Print(n)[0]); }
  }

  /** Parsing undoes printing. */
  lemma AtoiItoa(n: int)
    requires -0x8000_0000_0000_0000 <= n < 0x8000_0000_0000_0000
    ensures Atoi(Itoa(n)) == Some(n)
  {
    hide Print;
    ItoaSign(n);
    PrintParses(if n < 0 then -n else n);
  }

  /** Leading zeros and a plus sign change nothing, a minus sign negates. */
  lemma {:induction false} LeadingZero(s: string)
    requires AllDigits(s)
    ensures AllDigits(['0'] + s) && ValueOf(['0'] + s) == ValueOf(s)
    decreases |s|
  {
    var t := ['0'] + s;
    assert forall i :: 0 < i < |t| ==> t[i] == s[i - 1];
    assert t[..|t| - 1] == ['0'] + s[..|s| - 1];
    if |s| == 1 {
      assert t[..1] == ['0'] && ['0'][..0] == [] && s[..0] == [];
      assert ValueOf(['0']) == 0;
    } else {
      LeadingZero(s[..|s| - 1]);
    }
  }

  lemma Signs(s: string)
    requires AllDigits(s) && ValueOf(s) < 0x8000_0000_0000_0000
    ensures Atoi(s) == Some(ValueOf(s)) && Atoi(['+'] + s) == Some(ValueOf(s))
      && Atoi(['-'] + s) == Some(-(ValueOf(s) as int))
  {
    assert IsDigit(s[0]);
    assert (['+'] + s)[1..] == s && (['-'] + s)[1..] == s;
  }

  /** Anything else is refused. */
  lemma NotANumber(s: string)
    requires !AllDigits(s) && (s == [] || (s[0] != '+' && s[0] != '-') || !AllDigits(s[1..]))
    ensures Atoi(s) == None
  {
  }

  lemma ItoaCharacters(n: int)
    ensures forall i :: 0 <= i < |Itoa(n)| ==> IsDigit(Itoa(n)[i]) || Itoa(n)[i] == '-'
    ensures ':' !in Itoa(n)
  {
    PrintParses(if n < 0 then -n else n);
  }

  lemma ItoaInjective(a: int, b: int)
    requires Itoa(a) == Itoa(b)
    ensures a == b
  {
    ItoaSign(a);
    ItoaSign(b);
    PrintParses(if a < 0 then -a else a);
    PrintParses(if b < 0 then -b else b);
  }

  /** The text `type:id` that the search compares. */
  function ItemKey(saveType: int, saveId: int): string { Itoa(saveType) + ":" + Itoa(saveId) }

  /** Two such texts are equal exactly when both numbers are. */
  lemma ItemKeyEqualIff(a: int, b: int, c: int, d: int)
    ensures ItemKey(a, b) == ItemKey(c, d) <==> a == c && b == d
  {
    if ItemKey(a, b) == ItemKey(c, d) {
      ItoaCharacters(a);
      ItoaCharacters(c);
      CutFirst(Itoa(a), ':', Itoa(b));
      CutFirst(Itoa(c), ':', Itoa(d));
      assert ItemKey(a, b) == Itoa(a) + [':'] + Itoa(b) && ItemKey(c, d) == Itoa(c) + [':'] + Itoa(d);
      ItoaInjective(a, c);
      ItoaInjective(b, d);
    }
  }
}
