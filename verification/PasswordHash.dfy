/** The password policy, and encoded Argon2id hashes: printing one and checking a password against one. */
module PasswordHash {
  import opened Wrappers
  import opened Text
  import opened Base64

  // ---------- The policy ----------

  const LOWER := "abcdefghijklmnopqrstuvwxyz"
  const UPPER := "ABCDEFGHIJKLMNOPQRSTUVWXYZ"
  const LETTERS := LOWER + UPPER
  const DIGITS := "0123456789"
  const SPECIALS := "!@#$%^&*_-+="

  predicate Supported(c: char) { c in LETTERS || c in DIGITS || c in SPECIALS }

  predicate Contains(password: string, group: string) { exists c :: c in password && c in group }

  /** 8 to 16 supported characters with a letter, a digit and a special character among them. */
  predicate Policy(password: string) {
    && 8 <= |password| <= 16
    && (forall c :: c in password ==> Supported(c))
    && Contains(password, LETTERS) && Contains(password, DIGITS) && Contains(password, SPECIALS)
  }

  /** The bytes of the character in UTF-8. */
  function Width(c: char): nat {
    if c < '\U{80}' then 1 else if c < '\U{800}' then 2 else if c < '\U{10000}' then 3 else 4
  }

  function ByteLength(s: string): nat {
    if s == [] then 0 else ByteLength(s[..|s| - 1]) + Width(s[|s| - 1])
  }

  lemma LowerRange(c: char)
    requires c in LOWER
    ensures 'a' <= c <= 'z'
  {
    var i :| 0 <= i < |LOWER| && LOWER[i] == c;
  }

  lemma UpperRange(c: char)
    requires c in UPPER
    ensures 'A' <= c <= 'Z'
  {
    var i :| 0 <= i < |UPPER| && UPPER[i] == c;
  }

  lemma LettersRange(c: char)
    requires c in LETTERS
    ensures 'A' <= c <= 'Z' || 'a' <= c <= 'z'
  {
    if c in LOWER { LowerRange(c); } else { UpperRange(c); }
  }

  /** The three groups are ASCII characters and have none in common. */
  lemma Groups(c: char)
    ensures c in LETTERS ==> 'A' <= c <= 'Z' || 'a' <= c <= 'z'
    ensures c in DIGITS ==> '0' <= c <= '9'
    ensures c in SPECIALS ==> ' ' < c < '0' || '9' < c < 'A' || 'Z' < c < 'a'
  {
    if c in LETTERS { LettersRange(c); }
  }

  lemma {:induction false} AsciiLength(s: string)
    requires forall c :: c in s ==> Supported(c)
    ensures ByteLength(s) == |s|
  {
    if s == [] {
    } else {
      assert s[|s| - 1] in s;
      Groups(s[|s| - 1]);
      AsciiLength(s[..|s| - 1]);
    }
  }

  lemma NothingContained()
    ensures !Contains("", LETTERS) && !Contains("", DIGITS) && !Contains("", SPECIALS)
  {
  }

  lemma ContainsMore(s: string, c: char, group: string)
    ensures Contains(s + [c], group) <==> Contains(s, group) || c in group
  {
    if Contains(s, group) {
      var d :| d in s && d in group;
      assert d in s + [c];
    }
    if c in group { assert c in s + [c]; }
  }

  method ValidPassword(password: string) returns (valid: bool)
    ensures valid <==> Policy(password)
  {
    hide Contains;
    if ByteLength(password) < 8 || ByteLength(password) > 16 {
      if Policy(password) { AsciiLength(password); }
      return false;
    }
    var hasLetter, hasDigit, hasSpecial := false, false, false;
    NothingContained();
    for i := 0 to |password|
      invariant forall c :: c in password[..i] ==> Supported(c)
      invariant hasLetter <==> Contains(password[..i], LETTERS)
      invariant hasDigit <==> Contains(password[..i], DIGITS)
      invariant hasSpecial <==> Contains(password[..i], SPECIALS)
    {
      var c := password[i];
      assert password[..i + 1] == password[..i] + [c];
      ContainsMore(password[..i], c, LETTERS);
      ContainsMore(password[..i], c, DIGITS);
      ContainsMore(password[..i], c, SPECIALS);
      Groups(c);
      if c in LETTERS {
        hasLetter := true;
      } else if c in DIGITS {
        hasDigit := true;
      } else if c in SPECIALS {
        hasSpecial := true;
      } else {
        assert c in password;
        return false;
      }
    }
    assert password[..|password|] == password;
    AsciiLength(password);
    return hasLetter && hasDigit && hasSpecial;
  }

  // ---------- Encoded hashes ----------

  /** Password, salt, passes, memory in KiB, lanes and the length of the result. */
  type KeyDerivation = (string, seq<Byte>, nat, nat, nat, nat) -> seq<Byte>

  /** The derived key has the length asked for. */
  ghost predicate KeepsLength(kdf: KeyDerivation) {
    forall password, salt, t, m, p, n :: |kdf(password, salt, t, m, p, n)| == n
  }

  const MEMORY := 19 * 1024
  const PASSES := 2
  const LANES := 1
  const KEY_LENGTH := 32

  datatype Encoded = Encoded(memory: nat, passes: nat, lanes: nat, salt: seq<Byte>, hash: seq<Byte>)

  function ParametersText(e: Encoded): string {
    "m=" + Print(e.memory) + ",t=" + Print(e.passes) + ",p=" + Print(e.lanes)
  }

  function PrintEncoded(e: Encoded): string {
    "$argon2id$v=19$" + ParametersText(e) + "$" + Encode(e.salt) + "$" + Encode(e.hash)
  }

  predicate WithinLimits(m: nat, t: nat, p: nat) { 0 < m <= 256 * 1024 && 0 < t <= 10 && 0 < p <= 8 }

  /** One parameter: a name, an equals sign and a 32-bit number. */
  function ParseParameter(value: string): Option<(string, nat)> {
    var pair := Cut(value, '=');
    if pair.None? || ParseUint32(pair.value.1).None? then None
    else Some((pair.value.0, ParseUint32(pair.value.1).value))
  }

  /** The value of the last parameter of that name, or 0. */
  function LastOf(values: seq<string>, name: string): nat
    requires forall v :: v in values ==> ParseParameter(v).Some?
  {
    if values == [] then 0
    else
      var parameter := ParseParameter(values[|values| - 1]).value;
      if parameter.0 == name then parameter.1 else LastOf(values[..|values| - 1], name)
  }

  /** A later parameter of the same name replaces an earlier one; a name that is missing counts as 0. */
  lemma {:induction false} LastOfIs(values: seq<string>, name: string)
    requires forall v :: v in values ==> ParseParameter(v).Some?
    ensures || (LastOf(values, name) == 0 && forall i :: 0 <= i < |values| ==>
      ParseParameter(values[i]).value.0 != name)
            || exists i :: 0 <= i < |values| && ParseParameter(values[i]).value == (name, LastOf(values, name))
                           && forall j :: i < j < |values| ==> ParseParameter(values[j]).value.0 != name
  {
    hide ParseParameter;
    if values == [] {
    } else {
      var n := |values| - 1;
      var front := values[..n];
      assert values == front + [values[n]];
      if ParseParameter(values[n]).value.0 != name {
        LastOfIs(front, name);
        if i :| 0 <= i < |front| && ParseParameter(front[i]).value == (name, LastOf(front, name))
                && forall j :: i < j < |front| ==> ParseParameter(front[j]).value.0 != name {
          assert ParseParameter(values[i]).value == (name, LastOf(values, name));
        }
      }
    }
  }

  function ParseEncoded(encoded: string): Option<Encoded> {
    var parts := Split(encoded, '$');
    if |parts| != 6 || parts[1] != "argon2id" || parts[2] != "v=19" then None
    else
      var values := Split(parts[3], ',');
      if exists v :: v in values && ParseParameter(v).None? then None
      else
        var m, t, p := LastOf(values, "m"), LastOf(values, "t"), LastOf(values, "p");
        var salt, hash := Decode(parts[4]), Decode(parts[5]);
        if !WithinLimits(m, t, p) || salt.None? || hash.None? || hash.value == [] then None
        else Some(Encoded(m, t, p, salt.value, hash.value))
  }

  /** The text is the parameter's name, an equals sign and its value, a number of 32 bits. */
  predicate IsParameter(value: string, name: string, digits: string) {
    value == name + "=" + digits && '=' !in name && AllDigits(digits) && ValueOf(digits) < 0x1_0000_0000
  }

  lemma ParseParameterIff(value: string)
    ensures ParseParameter(value).None? <==> !exists name, digits :: IsParameter(value, name, digits)
    ensures forall name, digits :: IsParameter(value, name, digits) ==>
      ParseParameter(value) == Some((name, ValueOf(digits)))
  {
    hide Cut, ValueOf;
    CutIff(value, '=');
    if ParseParameter(value).Some? {
      var pair := Cut(value, '=').value;
      assert value == pair.0 + "=" + pair.1;
      assert IsParameter(value, pair.0, pair.1);
    }
    forall name, digits | IsParameter(value, name, digits) ensures Cut(value, '=') == Some((name, digits)) {
      assert value == name + ['='] + digits;
      CutFirst(name, '=', digits);
    }
  }

  /** The text is six parts between dollar signs; all parameters in the fourth are in order and within the limits. */
  ghost predicate IsEncoded(encoded: string, parts: seq<string>, values: seq<string>, e: Encoded) {
    && |parts| == 6 && encoded == Join(parts, '$') && (forall i :: 0 <= i < 6 ==> '$' !in parts[i])
    && parts[1] == "argon2id" && parts[2] == "v=19"
    && values != [] && parts[3] == Join(values, ',') && (forall i :: 0 <= i < |values| ==> ',' !in values[i])
    && (forall v :: v in values ==> ParseParameter(v).Some?)
    && e.memory == LastOf(values, "m") && e.passes == LastOf(values, "t") && e.lanes == LastOf(values, "p")
    && 0 < e.memory <= 262144 && 0 < e.passes <= 10 && 0 < e.lanes <= 8
    && Decode(parts[4]) == Some(e.salt) && Decode(parts[5]) == Some(e.hash) && e.hash != []
  }

  lemma ParseEncodedIff(encoded: string)
    ensures ParseEncoded(encoded).Some? ==>
      exists parts, values :: IsEncoded(encoded, parts, values, ParseEncoded(encoded).value)
    ensures forall parts, values, e :: IsEncoded(encoded, parts, values, e) ==> ParseEncoded(encoded) == Some(e)
  {
    hide Split, Join, ParseParameter, LastOf, Decode;
    if ParseEncoded(encoded).Some? {
      var parts := Split(encoded, '$');
      SplitParts(encoded, '$');
      SplitParts(parts[3], ',');
      assert IsEncoded(encoded, parts, Split(parts[3], ','), ParseEncoded(encoded).value);
    }
    forall parts, values, e | IsEncoded(encoded, parts, values, e) ensures ParseEncoded(encoded) == Some(e) {
      SplitJoin(parts, '$');
      SplitJoin(values, ',');
    }
  }

  /** The stored hash can be read and is the one derived from the password with its own parameters. */
  predicate Verifies(kdf: KeyDerivation, encoded: string, password: string) {
    var e := ParseEncoded(encoded);
    e.Some? && kdf(password, e.value.salt, e.value.passes, e.value.memory, e.value.lanes, |e.value.hash|)
      == e.value.hash
  }

  method VerifyPassword(kdf: KeyDerivation, encoded: string, password: string) returns (ok: bool)
    ensures ok <==>
      var e := ParseEncoded(encoded);
      e.Some? && kdf(password, e.value.salt, e.value.passes, e.value.memory, e.value.lanes, |e.value.hash|)
        == e.value.hash
    ensures ok ==>
      var e := ParseEncoded(encoded).value;
      0 < e.memory <= 262144 && 0 < e.passes <= 10 && 0 < e.lanes <= 8 && e.hash != []
  {
    hide Split, Cut, ParseUint32, Decode;
    var parts := Split(encoded, '$');
    if |parts| != 6 || parts[1] != "argon2id" || parts[2] != "v=19" {
      return false;
    }
    var memory, iterations, threads: nat := 0, 0, 0;
    var values := Split(parts[3], ',');
    for i := 0 to |values|
      invariant forall v :: v in values[..i] ==> ParseParameter(v).Some?
      invariant memory == LastOf(values[..i], "m")
      invariant iterations == LastOf(values[..i], "t")
      invariant threads == LastOf(values[..i], "p")
    {
      assert values[..i + 1] == values[..i] + [values[i]];
      var pair := Cut(values[i], '=');
      if pair.None? {
        assert values[i] in values;
        return false;
      }
      var parsed := ParseUint32(pair.value.1);
      if parsed.None? {
        assert values[i] in values;
        return false;
      }
      match pair.value.0 {
        case "m" => memory := parsed.value;
        case "t" => iterations := parsed.value;
        case "p" => threads := parsed.value;
        case _ =>
      }
    }
    assert values[..|values|] == values;
    if memory == 0 || iterations == 0 || threads == 0 || memory > 256 * 1024 || iterations > 10 || threads > 8 {
      return false;
    }
    var salt := Decode(parts[4]);
    if salt.None? {
      return false;
    }
    var expected := Decode(parts[5]);
    if expected.None? || |expected.value| == 0 {
      return false;
    }
    var actual := kdf(password, salt.value, iterations, memory, threads, |expected.value|);
    return actual == expected.value;
  }

  // ---------- Printing and reading back ----------

  lemma ParameterRoundTrip(name: string, n: nat)
    requires '=' !in name && n < 0x1_0000_0000
    ensures ParseParameter(name + "=" + Print(n)) == Some((name, n))
  {
    CutFirst(name, '=', Print(n));
    PrintParses(n);
    assert name + "=" + Print(n) == name + ['='] + Print(n);
  }

  /** A parameter's text holds none of the separators. */
  lemma ParameterCharacters(name: string, n: nat, separator: char)
    requires separator !in name && separator != '=' && !IsDigit(separator)
    ensures separator !in name + "=" + Print(n)
  {
    PrintParses(n);
  }

  lemma JoinMore(first: string, rest: seq<string>, separator: char)
    requires rest != []
    ensures Join([first] + rest, separator) == first + ([separator] + Join(rest, separator))
  {
    assert ([first] + rest)[1..] == rest;
  }

  lemma JoinThree(m: string, t: string, p: string)
    ensures Join([m, t, p], ',') == m + ([','] + (t + ([','] + p)))
  {
    JoinMore(m, [t, p], ',');
    JoinMore(t, [p], ',');
    assert [m] + [t, p] == [m, t, p] && [t] + [p] == [t, p];
  }

  lemma JoinSix(a: string, b: string, c: string, d: string, h: string)
    ensures Join(["", a, b, c, d, h], '$') == ['$'] + (a + (['$'] + (b + (['$'] + (c + (['$'] + (d + (['$'] + h))))))))
  {
    JoinMore("", [a, b, c, d, h], '$');
    JoinMore(a, [b, c, d, h], '$');
    JoinMore(b, [c, d, h], '$');
    JoinMore(c, [d, h], '$');
    JoinMore(d, [h], '$');
    assert [""] + [a, b, c, d, h] == ["", a, b, c, d, h] && [a] + [b, c, d, h] == [a, b, c, d, h];
    assert [b] + [c, d, h] == [b, c, d, h] && [c] + [d, h] == [c, d, h] && [d] + [h] == [d, h];
  }

  lemma LastOfThree(m: string, t: string, p: string, e: Encoded)
    requires ParseParameter(m) == Some(("m", e.memory)) && ParseParameter(t) == Some(("t", e.passes))
      && ParseParameter(p) == Some(("p", e.lanes))
    ensures var values := [m, t, p];
      && (forall v :: v in values ==> ParseParameter(v).Some?)
      && LastOf(values, "m") == e.memory && LastOf(values, "t") == e.passes && LastOf(values, "p") == e.lanes
  {
    hide ParseParameter;
    assert [m, t, p][..2] == [m, t] && [m, t][..1] == [m];
    forall name ensures LastOf([m], name) == if name == "m" then e.memory else 0 { assert [m][..0] == []; }
    forall name ensures LastOf([m, t], name) == if name == "t" then e.passes else LastOf([m], name) {}
  }

  lemma ParametersRoundTrip(e: Encoded)
    requires WithinLimits(e.memory, e.passes, e.lanes)
    ensures var values := Split(ParametersText(e), ',');
      && (forall v :: v in values ==> ParseParameter(v).Some?)
      && LastOf(values, "m") == e.memory && LastOf(values, "t") == e.passes && LastOf(values, "p") == e.lanes
    ensures '$' !in ParametersText(e)
  {
    hide ParseParameter;
    var m, t, p := "m" + "=" + Print(e.memory), "t" + "=" + Print(e.passes), "p" + "=" + Print(e.lanes);
    JoinThree(m, t, p);
    assert ParametersText(e) == m + ([','] + (t + ([','] + p)));
    ParameterCharacters("m", e.memory, ',');
    ParameterCharacters("t", e.passes, ',');
    ParameterCharacters("p", e.lanes, ',');
    SplitJoin([m, t, p], ',');
    ParameterCharacters("m", e.memory, '$');
    ParameterCharacters("t", e.passes, '$');
    ParameterCharacters("p", e.lanes, '$');
    ParameterRoundTrip("m", e.memory);
    ParameterRoundTrip("t", e.passes);
    ParameterRoundTrip("p", e.lanes);
    LastOfThree(m, t, p, e);
  }

  /**
   Reading a printed hash gives every part back, for any parameters within the limits, any salt
   and any hash that is not empty.
   */
  lemma EncodedRoundTrip(e: Encoded)
    requires WithinLimits(e.memory, e.passes, e.lanes) && e.hash != []
    ensures ParseEncoded(PrintEncoded(e)) == Some(e)
  {
    hide ParametersText, Encode, Decode, Split, LastOf, ParseParameter;
    var c, d, h := ParametersText(e), Encode(e.salt), Encode(e.hash);
    ParametersRoundTrip(e);
    Base64RoundTrip(e.salt);
    Base64RoundTrip(e.hash);
    EncodeAlphabet(e.salt, '$');
    EncodeAlphabet(e.hash, '$');
    JoinSix("argon2id", "v=19", c, d, h);
    SplitJoin(["", "argon2id", "v=19", c, d, h], '$');
    assert PrintEncoded(e) == ['$'] + ("argon2id" + (['$'] + ("v=19" + (['$'] + (c + (['$'] + (d + (['$'] + h))))))));
  }

  // ---------- New hashes ----------

  function Derived(kdf: KeyDerivation, password: string, salt: seq<Byte>): Encoded {
    Encoded(MEMORY, PASSES, LANES, salt, kdf(password, salt, PASSES, MEMORY, LANES, KEY_LENGTH))
  }

  lemma ParametersAre()
    ensures Print(19456) == "19456" && Print(2) == "2" && Print(1) == "1"
  {
    assert Print(1) == "1" && Print(2) == "2";
    assert Print(19) == "19";
    assert Print(194) == Print(19) + "4";
    assert Print(1945) == Print(194) + "5";
    assert Print(19456) == Print(1945) + "6";
  }

  /** The text of a new hash, with the parameters spelled out. */
  lemma PrintedText(e: Encoded)
    requires e.memory == 19456 && e.passes == 2 && e.lanes == 1
    ensures PrintEncoded(e) == "$argon2id$v=19$m=19456,t=2,p=1$" + Encode(e.salt) + "$" + Encode(e.hash)
  {
    hide Print, Encode;
    ParametersAre();
    assert ParametersText(e) == "m=19456,t=2,p=1";
  }

  datatype HashError = AgainstPolicy | NoRandomness

  /** `salt` is what the random source returned, if it did. */
  method HashPassword(kdf: KeyDerivation, password: string, salt: Option<seq<Byte>>)
      returns (r: Result<string, HashError>)
    requires KeepsLength(kdf)
    ensures r == Failure(AgainstPolicy) <==> !Policy(password)
    ensures r == Failure(NoRandomness) <==> Policy(password) && salt.None?
    ensures r.Success? ==>
      r.value == "$argon2id$v=19$m=19456,t=2,p=1$" + Encode(salt.value) + "$"
        + Encode(kdf(password, salt.value, 2, 19456, 1, 32))
    ensures r.Success? ==>
      && ParseEncoded(r.value) == Some(Encoded(19456, 2, 1, salt.value, kdf(password, salt.value, 2, 19456, 1, 32)))
      && Verifies(kdf, r.value, password)
  {
    hide ParseEncoded, PrintEncoded, Policy;
    var valid := ValidPassword(password);
    if !valid {
      return Failure(AgainstPolicy);
    }
    if salt.None? {
      return Failure(NoRandomness);
    }
    var hash := kdf(password, salt.value, PASSES, MEMORY, LANES, KEY_LENGTH);
    EncodedRoundTrip(Derived(kdf, password, salt.value));
    PrintedText(Derived(kdf, password, salt.value));
    return Success(PrintEncoded(Encoded(MEMORY, PASSES, LANES, salt.value, hash)));
  }

  /** Another password is accepted for a new hash exactly when both derive the same key. */
  lemma OnlySameKeyVerifies(kdf: KeyDerivation, password: string, salt: seq<Byte>, guess: string)
    requires KeepsLength(kdf)
    ensures Verifies(kdf, PrintEncoded(Derived(kdf, password, salt)), guess) <==>
      kdf(guess, salt, PASSES, MEMORY, LANES, KEY_LENGTH) == kdf(password, salt, PASSES, MEMORY, LANES, KEY_LENGTH)
  {
    hide ParseEncoded, PrintEncoded;
    EncodedRoundTrip(Derived(kdf, password, salt));
  }
}
