/** Loadout names: white space at both ends is cut off, and 1 to 40 characters must remain. */
module Names {

  /** The characters that `unicode.IsSpace` accepts. */
  predicate IsSpace(c: char) {
    || c == '\t' || c == '\n' || c == '\U{0B}' || c == '\U{0C}' || c == '\r' || c == ' '
    || c == '\U{85}' || c == '\U{A0}' || c == '\U{1680}' || '\U{2000}' <= c <= '\U{200A}'
    || c == '\U{2028}' || c == '\U{2029}' || c == '\U{202F}' || c == '\U{205F}' || c == '\U{3000}'
  }

  function TrimLeft(s: string): string {
    if s == [] || !IsSpace(s[0]) then s else TrimLeft(s[1..])
  }

  function TrimRight(s: string): string {
    if s == [] || !IsSpace(s[|s| - 1]) then s else TrimRight(s[..|s| - 1])
  }

  function TrimSpace(s: string): string { TrimRight(TrimLeft(s)) }

  predicate Acceptable(name: string) { 1 <= |TrimSpace(name)| <= 40 }

  lemma {:induction false} TrimLeftEnds(s: string)
    ensures TrimLeft(s) == [] || !IsSpace(TrimLeft(s)[0])
  {
    if s == [] || !IsSpace(s[0]) {
    } else {
      TrimLeftEnds(s[1..]);
    }
  }

  lemma {:induction false} TrimRightEnds(s: string)
    ensures TrimRight(s) <= s
    ensures TrimRight(s) == [] || !IsSpace(TrimRight(s)[|TrimRight(s)| - 1])
  {
    if s == [] || !IsSpace(s[|s| - 1]) {
    } else {
      TrimRightEnds(s[..|s| - 1]);
    }
  }

  /** Trimming twice is trimming once. */
  lemma TrimIdempotent(s: string)
    ensures TrimSpace(TrimSpace(s)) == TrimSpace(s)
  {
    TrimLeftEnds(s);
    TrimRightEnds(TrimLeft(s));
    var t := TrimSpace(s);
    if t != [] {
      assert t[0] == TrimLeft(s)[0];
    }
  }

  predicate AllSpace(s: string) { forall i :: 0 <= i < |s| ==> IsSpace(s[i]) }

  lemma {:induction false} TrimLeftIs(s: string)
    ensures exists a :: AllSpace(a) && s == a + TrimLeft(s)
  {
    if s == [] || !IsSpace(s[0]) {
      assert AllSpace([]) && s == [] + s;
    } else {
      TrimLeftIs(s[1..]);
      var a :| AllSpace(a) && s[1..] == a + TrimLeft(s[1..]);
      assert AllSpace([s[0]] + a) && s == [s[0]] + a + TrimLeft(s);
    }
  }

  lemma {:induction false} TrimRightIs(s: string)
    ensures exists b :: AllSpace(b) && s == TrimRight(s) + b
  {
    if s == [] || !IsSpace(s[|s| - 1]) {
      assert AllSpace([]) && s == s + [];
    } else {
      var n := |s| - 1;
      TrimRightIs(s[..n]);
      var b :| AllSpace(b) && s[..n] == TrimRight(s[..n]) + b;
      assert AllSpace(b + [s[n]]) && s == TrimRight(s) + (b + [s[n]]);
    }
  }

  /** Trimming takes away white space at both ends and leaves none there. */
  lemma TrimIs(s: string)
    ensures exists a, b :: AllSpace(a) && AllSpace(b) && s == a + TrimSpace(s) + b
    ensures TrimSpace(s) != [] ==> !IsSpace(TrimSpace(s)[0]) && !IsSpace(TrimSpace(s)[|TrimSpace(s)| - 1])
  {
    var t := TrimLeft(s);
    TrimLeftIs(s);
    TrimRightIs(t);
    var a :| AllSpace(a) && s == a + t;
    var b :| AllSpace(b) && t == TrimRight(t) + b;
    assert s == a + TrimSpace(s) + b;
    TrimLeftEnds(s);
    TrimRightEnds(t);
    if TrimSpace(s) != [] { assert TrimSpace(s)[0] == t[0]; }
  }
}
