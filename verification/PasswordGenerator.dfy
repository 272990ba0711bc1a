/** Random passwords: one character of each group, the rest from all groups, then a shuffle in place. */
module PasswordGenerator {
  import opened Wrappers
  import opened PasswordHash
  import Sorting

  // ---------- The shuffle ----------

  function Swap<T>(s: seq<T>, i: nat, j: nat): (r: seq<T>)
    requires i < |s| && j < |s|
    ensures |r| == |s|
  {
    s[i := s[j]][j := s[i]]
  }

  /** The choices for n elements: one of n positions, then one of n - 1, and so on down to two. */
  predicate IsChoice(n: nat, choices: seq<nat>) {
    && |choices| == (if n == 0 then 0 else n - 1)
    && forall k :: 0 <= k < |choices| ==> choices[k] < n - k
  }

  /** Swap the last element with the chosen one, then shuffle the others. */
  function Shuffle<T>(s: seq<T>, choices: seq<nat>): (r: seq<T>)
    requires IsChoice(|s|, choices)
    ensures |r| == |s|
    decreases |s|
  {
    if |s| <= 1 then s
    else
      var t := Swap(s, |s| - 1, choices[0]);
      Shuffle(t[..|s| - 1], choices[1..]) + [t[|s| - 1]]
  }

  lemma SwapKeeps<T>(s: seq<T>, i: nat, j: nat)
    requires i < |s| && j < |s|
    ensures multiset(Swap(s, i, j)) == multiset(s)
  {
    if i != j {
      var a := s[i := s[j]];
      var less := multiset(s)[s[i] := multiset(s)[s[i]] - 1];
      assert multiset(a) == less[s[j] := less[s[j]] + 1];
    }
  }

  lemma {:induction false} ShuffleKeeps<T>(s: seq<T>, choices: seq<nat>)
    requires IsChoice(|s|, choices)
    ensures multiset(Shuffle(s, choices)) == multiset(s)
    decreases |s|
  {
    hide Swap;
    if |s| <= 1 {
    } else {
      var t := Swap(s, |s| - 1, choices[0]);
      SwapKeeps(s, |s| - 1, choices[0]);
      assert t == t[..|s| - 1] + [t[|s| - 1]];
      ShuffleKeeps(t[..|s| - 1], choices[1..]);
    }
  }

  predicate AllDistinct<T(==)>(s: seq<T>) { forall i, j :: 0 <= i < j < |s| ==> s[i] != s[j] }

  /** Different choices give different arrangements of distinct elements. */
  lemma {:induction false} ShuffleInjective<T>(s: seq<T>, a: seq<nat>, b: seq<nat>)
    requires IsChoice(|s|, a) && IsChoice(|s|, b) && AllDistinct(s)
    requires Shuffle(s, a) == Shuffle(s, b)
    ensures a == b
    decreases |s|
  {
    if |s| <= 1 {
    } else {
      var n := |s| - 1;
      var t, u := Swap(s, n, a[0]), Swap(s, n, b[0]);
      assert t[n] == s[a[0]] == Shuffle(s, a)[n];
      assert u[n] == s[b[0]] == Shuffle(s, b)[n];
      assert a[0] == b[0];
      assert Shuffle(t[..n], a[1..]) == Shuffle(s, a)[..n] == Shuffle(s, b)[..n] == Shuffle(t[..n], b[1..]);
      ShuffleInjective(t[..n], a[1..], b[1..]);
      assert a == [a[0]] + a[1..] && b == [b[0]] + b[1..];
    }
  }

  lemma FrontsAgree<T>(a: seq<T>, b: seq<T>)
    requires a != [] && |a| == |b| && multiset(a) == multiset(b) && a[|a| - 1] == b[|a| - 1]
    ensures multiset(a[..|a| - 1]) == multiset(b[..|a| - 1])
  {
    Sorting.TakeLast(a);
    Sorting.TakeLast(b);
  }

  lemma SmallShuffle<T>(s: seq<T>)
    requires |s| <= 1
    ensures IsChoice(|s|, []) && Shuffle(s, []) == s
  {
  }

  lemma SwapAt<T>(s: seq<T>, i: nat, j: nat)
    requires i < |s| && j < |s|
    ensures Swap(s, i, j)[i] == s[j]
  {
  }

  lemma FirstChoice<T>(s: seq<T>, first: nat, rest: seq<nat>)
    requires |s| > 1 && first < |s| && IsChoice(|s| - 1, rest)
    ensures IsChoice(|s|, [first] + rest)
    ensures var t := Swap(s, |s| - 1, first); Shuffle(s, [first] + rest) == Shuffle(t[..|s| - 1], rest) + [t[|s| - 1]]
  {
    assert ([first] + rest)[1..] == rest;
  }

  /** Every arrangement is reached by some choices. */
  lemma {:induction false} ShuffleSurjective<T>(s: seq<T>, target: seq<T>) returns (choices: seq<nat>)
    requires multiset(target) == multiset(s)
    ensures IsChoice(|s|, choices) && Shuffle(s, choices) == target
    decreases |s|
  {
    hide Shuffle, IsChoice, Swap;
    assert |s| == |multiset(s)| == |multiset(target)| == |target|;
    if |s| <= 1 {
      SmallShuffle(s);
      choices := [];
      if |s| == 1 { assert s[0] in multiset(target); }
    } else {
      var n := |s| - 1;
      assert target[n] in multiset(s);
      var first: nat :| first < |s| && s[first] == target[n];
      var t := Swap(s, n, first);
      SwapKeeps(s, n, first);
      assert t[n] == s[first] by { SwapAt(s, n, first); }
      FrontsAgree(t, target);
      var rest := ShuffleSurjective(t[..n], target[..n]);
      choices := [first] + rest;
      FirstChoice(s, first, rest);
      assert target == target[..n] + [target[n]];
    }
  }

  // ---------- Arrangements of positions ----------

  function Positions(n: nat): seq<nat> { seq(n, i requires 0 <= i < n => i) }

  /** The elements at the given positions. */
  function Pick<T>(s: seq<T>, positions: seq<nat>): seq<T>
    requires forall i :: 0 <= i < |positions| ==> positions[i] < |s|
  {
    seq(|positions|, i requires 0 <= i < |positions| => s[positions[i]])
  }

  /** The order in which the choices put the positions. */
  function Order(n: nat, choices: seq<nat>): seq<nat>
    requires IsChoice(n, choices)
  {
    Shuffle<nat>(Positions(n), choices)
  }

  /** An arrangement of the positions 0 to n - 1. */
  ghost predicate IsPermutation(p: seq<nat>, n: nat) { multiset(p) == multiset(Positions(n)) }

  /** The choices for n elements and the permutations of n positions correspond one to one. */
  lemma ChoicesArePermutations(n: nat)
    ensures forall c :: IsChoice(n, c) ==> IsPermutation(Order(n, c), n)
    ensures forall c, d :: IsChoice(n, c) && IsChoice(n, d) && Order(n, c) == Order(n, d) ==> c == d
    ensures forall p :: IsPermutation(p, n) ==> exists c :: IsChoice(n, c) && Order(n, c) == p
  {
    forall c | IsChoice(n, c) ensures IsPermutation(Order(n, c), n) {
      ShuffleKeeps(Positions(n), c);
    }
    forall c, d | IsChoice(n, c) && IsChoice(n, d) && Order(n, c) == Order(n, d) ensures c == d {
      ShuffleInjective(Positions(n), c, d);
    }
    forall p | IsPermutation(p, n) ensures exists c :: IsChoice(n, c) && Order(n, c) == p {
      var c := ShuffleSurjective(Positions(n), p);
    }
  }

  lemma SwapPicks<T>(s: seq<T>, positions: seq<nat>, i: nat, j: nat)
    requires forall k :: 0 <= k < |positions| ==> positions[k] < |s|
    requires i < |positions| && j < |positions|
    ensures forall k :: 0 <= k < |positions| ==> Swap<nat>(positions, i, j)[k] < |s|
    ensures Swap(Pick(s, positions), i, j) == Pick(s, Swap<nat>(positions, i, j))
  {
  }

  lemma {:induction false} ShufflePicks<T>(s: seq<T>, positions: seq<nat>, choices: seq<nat>)
    requires forall i :: 0 <= i < |positions| ==> positions[i] < |s|
    requires IsChoice(|positions|, choices)
    ensures forall i :: 0 <= i < |Shuffle<nat>(positions, choices)| ==> Shuffle<nat>(positions, choices)[i] < |s|
    ensures Shuffle(Pick(s, positions), choices) == Pick(s, Shuffle<nat>(positions, choices))
    decreases |positions|
  {
    hide Swap;
    if |positions| <= 1 {
    } else {
      var n := |positions| - 1;
      var t := Swap<nat>(positions, n, choices[0]);
      SwapPicks(s, positions, n, choices[0]);
      assert Pick(s, t)[..n] == Pick(s, t[..n]);
      ShufflePicks(s, t[..n], choices[1..]);
    }
  }

  /** What the choices do to any elements is to put them in the order of the permutation. */
  lemma ShuffleIsPermutation<T>(s: seq<T>, choices: seq<nat>)
    requires IsChoice(|s|, choices)
    ensures forall i :: 0 <= i < |s| ==>
      Order(|s|, choices)[i] < |s| && Shuffle(s, choices)[i] == s[Order(|s|, choices)[i]]
  {
    assert Pick(s, Positions(|s|)) == s;
    ShufflePicks(s, Positions(|s|), choices);
    var order := Order(|s|, choices);
    assert Shuffle(s, choices) == Pick(s, order);
  }

  // ---------- Randomness ----------

  /** What the source makes of a raw number: every number below the bound is possible. */
  function Reduce(raw: nat, bound: nat): (r: nat)
    requires bound > 0
    ensures r < bound && (raw < bound ==> r == raw)
  {
    raw % bound
  }

  /** A source of random numbers that may run dry; `tape` stands for whatever it will deliver. */
  class RandomSource {
    const tape: seq<nat>
    var position: nat

    constructor (tape: seq<nat>)
      ensures this.tape == tape && position == 0
    {
      this.tape := tape;
      position := 0;
    }

    /** A number below `bound`, if the source delivers one. */
    method Below(bound: nat) returns (r: Option<nat>)
      requires bound > 0
      modifies this
      ensures r == if old(position) < |tape| then Some(Reduce(tape[old(position)], bound)) else None
      ensures position == if r.Some? then old(position) + 1 else old(position)
    {
      if position >= |tape| {
        return None;
      }
      r := Some(Reduce(tape[position], bound));
      position := position + 1;
    }
  }

  // ---------- Passwords ----------

  function AllCharacters(): string { LETTERS + DIGITS + SPECIALS }

  /** The group from which the character at a position is drawn. */
  function GroupAt(index: nat): string {
    if index == 0 then LETTERS else if index == 1 then DIGITS else if index == 2 then SPECIALS else AllCharacters()
  }

  lemma GroupSizes(index: nat)
    ensures |GroupAt(index)| > 0
  {
  }

  function CharacterAt(index: nat, draw: nat): char {
    GroupSizes(index);
    GroupAt(index)[Reduce(draw, |GroupAt(index)|)]
  }

  /** The password before the shuffle. */
  function Filled(length: nat, tape: seq<nat>): string
    requires length <= |tape|
  {
    GroupSizes(0);
    seq(length, i requires 0 <= i < length => CharacterAt(i, tape[i]))
  }

  /** The choices of the shuffle: the draw for position `index` is taken below `index + 1`. */
  function ChoicesFrom(n: nat, tape: seq<nat>): (choices: seq<nat>)
    requires n > 0 && n - 1 <= |tape|
    ensures IsChoice(n, choices)
  {
    seq(n - 1, k requires 0 <= k < n - 1 => Reduce(tape[k], n - k))
  }

  lemma ChoicesLength(n: nat, tape: seq<nat>)
    requires n > 0 && n - 1 <= |tape|
    ensures |ChoicesFrom(n, tape)| == n - 1
    ensures forall k :: 0 <= k < n - 1 ==> ChoicesFrom(n, tape)[k] == Reduce(tape[k], n - k)
  {
  }

  lemma ChoicesPrefix(n: nat, tape: seq<nat>, more: seq<nat>)
    requires n > 0 && n - 1 <= |tape|
    ensures ChoicesFrom(n, tape + more) == ChoicesFrom(n, tape)
  {
    hide Reduce;
  }

  lemma FirstGroups()
    ensures GroupAt(0) == LETTERS && GroupAt(1) == DIGITS && GroupAt(2) == SPECIALS
  {
  }

  lemma GroupIsSupported(index: nat, c: char)
    requires c in GroupAt(index)
    ensures Supported(c)
  {
  }

  lemma FilledMeetsPolicy(length: nat, tape: seq<nat>, shuffled: string)
    requires 8 <= length <= 16 && length <= |tape| && multiset(shuffled) == multiset(Filled(length, tape))
    ensures Policy(shuffled)
  {
    hide GroupAt;
    var filled := Filled(length, tape);
    assert |shuffled| == |multiset(shuffled)| == |multiset(filled)| == |filled|;
    forall i | 0 <= i < length ensures filled[i] in GroupAt(i) && filled[i] in shuffled {
      GroupSizes(i);
      assert filled[i] in multiset(shuffled);
    }
    forall c | c in shuffled ensures Supported(c) {
      assert c in multiset(filled);
      var i :| 0 <= i < length && filled[i] == c;
      GroupIsSupported(i, c);
    }
    FirstGroups();
  }

  lemma OtherGroups(index: nat)
    ensures index > 2 ==> GroupAt(index) == LETTERS + DIGITS + SPECIALS
  {
  }

  datatype GenerateError = BadLength | NoRandomNumber

  method RandomCharacter(source: RandomSource, characters: string) returns (r: Option<char>)
    requires |characters| > 0
    modifies source
    ensures r == if old(source.position) < |source.tape|
                 then Some(characters[Reduce(source.tape[old(source.position)], |characters|)])
                 else None
    ensures source.position == if r.Some? then old(source.position) + 1 else old(source.position)
  {
    var index := source.Below(|characters|);
    if index.None? {
      return None;
    }
    return Some(characters[index.value]);
  }

  lemma ShuffleStep<T>(s: seq<T>, choices: seq<nat>, done: seq<T>)
    requires |s| > 1 && IsChoice(|s|, choices)
    ensures IsChoice(|s| - 1, choices[1..])
    ensures var n := |s| - 1; var t := Swap(s, n, choices[0]);
      Shuffle(s, choices) + done == Shuffle(t[..n], choices[1..]) + ([t[n]] + done)
  {
  }

  lemma SwapIs<T>(s: seq<T>, i: nat, j: nat)
    requires i < |s| && j < |s|
    ensures Swap(s, i, j)[i] == s[j] && Swap(s, i, j)[j] == s[i]
    ensures forall k :: 0 <= k < |s| && k != i && k != j ==> Swap(s, i, j)[k] == s[k]
  {
  }

  lemma SwapParts<T>(s: seq<T>, i: nat, j: nat)
    requires j <= i < |s|
    ensures Swap(s, i, j)[..i] == Swap(s[..i + 1], i, j)[..i]
    ensures Swap(s, i, j)[i..] == [Swap(s[..i + 1], i, j)[i]] + s[i + 1..]
  {
  }

  /** One swap in place leaves what remains to be done. */
  lemma SwapStep<T>(s: seq<T>, index: nat, choices: seq<nat>)
    requires 0 < index < |s| && IsChoice(index + 1, choices)
    ensures choices[0] < |s| && IsChoice(index, choices[1..])
    ensures var t := Swap(s, index, choices[0]);
      Shuffle(s[..index + 1], choices) + s[index + 1..] == Shuffle(t[..index], choices[1..]) + t[index..]
  {
    hide Shuffle, Swap;
    ShuffleStep(s[..index + 1], choices, s[index + 1..]);
    SwapParts(s, index, choices[0]);
  }

  /** The swaps from the last position down to the second. */
  method ShuffleInPlace(value: array<char>, source: RandomSource) returns (ok: bool)
    requires value.Length > 0 && source.position <= |source.tape|
    modifies value, source
    ensures ok <==> old(source.position) + value.Length - 1 <= |source.tape|
    ensures ok ==> value[..] == Shuffle(old(value[..]), ChoicesFrom(value.Length, source.tape[old(source.position)..]))
  {
    hide Shuffle, IsChoice, Reduce, ChoicesFrom, Swap;
    var n := value.Length;
    ghost var start := source.position;
    ghost var padded := source.tape[start..] + seq(n, _ => 0);
    ghost var choices := ChoicesFrom(n, padded);
    ChoicesLength(n, padded);
    var index := n - 1;
    ghost var current, left := value[..], choices;
    assert current[..n] == current && choices[0..] == choices;
    while index > 0
      invariant 0 <= index < n && source.position == start + n - 1 - index
      invariant source.position <= |source.tape|
      invariant value[..] == current && |current| == n
      invariant left == choices[n - 1 - index..] && IsChoice(index + 1, left)
      invariant Shuffle(old(value[..]), choices) == Shuffle(current[..index + 1], left) + current[index + 1..]
    {
      var selected := source.Below(index + 1);
      if selected.None? {
        return false;
      }
      var other := selected.value;
      assert other == left[0];
      SwapStep(current, index, left);
      SwapIs(current, index, other);
      value[index], value[other] := value[other], value[index];
      current, left := Swap(current, index, other), left[1..];
      index := index - 1;
    }
    SmallShuffle(current[..1]);
    assert current[..1] + current[1..] == current && left == [];
    ChoicesPrefix(n, source.tape[start..], seq(n, _ => 0));
    return true;
  }

  method RandomPassword(length: int, source: RandomSource) returns (r: Result<string, GenerateError>)
    modifies source
    ensures r == Failure(BadLength) <==> length < 8 || length > 16
    ensures r == Failure(NoRandomNumber) <==> 8 <= length <= 16 && |source.tape| < old(source.position) + 2 * length - 1
    ensures r.Success? ==>
      var tape := source.tape[old(source.position)..];
      r.value == Shuffle(Filled(length, tape), ChoicesFrom(length, tape[length..]))
    ensures r.Success? ==> |r.value| == length && Policy(r.value)
  {
    hide Policy, Shuffle, GroupAt, Reduce, ChoicesFrom, IsChoice;
    if length < 8 || length > 16 {
      return Failure(BadLength);
    }
    var value := new char[length];
    ghost var start := source.position;
    var groups := [LETTERS, DIGITS, SPECIALS];
    for index := 0 to 3
      invariant source.position == start + index && (index > 0 ==> source.position <= |source.tape|)
      invariant forall i :: 0 <= i < index ==> value[i] == CharacterAt(i, source.tape[start + i])
    {
      FirstGroups();
      GroupSizes(index);
      var character := RandomCharacter(source, groups[index]);
      if character.None? {
        return Failure(NoRandomNumber);
      }
      value[index] := character.value;
    }
    var all := LETTERS + DIGITS + SPECIALS;
    for index := 3 to length
      invariant source.position == start + index <= |source.tape|
      invariant forall i :: 0 <= i < index ==> value[i] == CharacterAt(i, source.tape[start + i])
    {
      OtherGroups(index);
      GroupSizes(index);
      var character := RandomCharacter(source, all);
      if character.None? {
        return Failure(NoRandomNumber);
      }
      value[index] := character.value;
    }
    ghost var tape := source.tape[start..];
    assert value[..] == Filled(length, tape);
    assert source.tape[start + length..] == tape[length..];
    var ok := ShuffleInPlace(value, source);
    if !ok {
      return Failure(NoRandomNumber);
    }
    ShuffleKeeps(Filled(length, tape), ChoicesFrom(length, tape[length..]));
    FilledMeetsPolicy(length, tape, value[..]);
    return Success(value[..]);
  }

  // ---------- Every acceptable password is possible ----------

  function IndexOf(s: string, c: char): (i: nat)
    requires c in s
    ensures i < |s| && s[i] == c
  {
    if s[0] == c then 0 else 1 + IndexOf(s[1..], c)
  }

  lemma SwapHas(s: string, i: nat, j: nat, group: string)
    requires i < |s| && j < |s|
    ensures Contains(Swap(s, i, j), group) <==> Contains(s, group)
    ensures forall c :: c in Swap(s, i, j) <==> c in s
  {
    SwapKeeps(s, i, j);
    forall c ensures c in Swap(s, i, j) <==> c in s {
      assert c in Swap(s, i, j) <==> c in multiset(Swap(s, i, j));
      assert c in s <==> c in multiset(s);
    }
  }

  lemma PositionIn(s: string, group: string) returns (i: nat)
    requires Contains(s, group)
    ensures i < |s| && s[i] in group
  {
    var c :| c in s && c in group;
    i := IndexOf(s, c);
  }

  /** The characters of an acceptable password with one of each group in front. */
  lemma GroupsInFront(password: string) returns (r: string)
    requires Policy(password)
    ensures multiset(r) == multiset(password) && |r| == |password|
    ensures r[0] in LETTERS && r[1] in DIGITS && r[2] in SPECIALS
    ensures forall i :: 0 <= i < |r| ==> Supported(r[i])
  {
    hide Supported, Swap;
    var i := PositionIn(password, LETTERS);
    var a := Swap(password, 0, i);
    SwapIs(password, 0, i);
    SwapHas(password, 0, i, DIGITS);
    SwapHas(password, 0, i, SPECIALS);
    var j := PositionIn(a, DIGITS);
    Groups(a[0]);
    Groups(a[j]);
    var b := Swap(a, 1, j);
    SwapIs(a, 1, j);
    SwapHas(a, 1, j, SPECIALS);
    var k := PositionIn(b, SPECIALS);
    Groups(b[0]);
    Groups(b[1]);
    Groups(b[k]);
    r := Swap(b, 2, k);
    SwapIs(b, 2, k);
    SwapHas(b, 2, k, SPECIALS);
    SwapKeeps(password, 0, i);
    SwapKeeps(a, 1, j);
    SwapKeeps(b, 2, k);
    forall q | 0 <= q < |r| ensures Supported(r[q]) { assert r[q] in password; }
  }

  lemma SupportedIsInGroup(index: nat, c: char)
    requires Supported(c)
    requires (index == 0 ==> c in LETTERS) && (index == 1 ==> c in DIGITS) && (index == 2 ==> c in SPECIALS)
    ensures c in GroupAt(index)
  {
  }

  lemma ChoicesAsTape(n: nat, choices: seq<nat>)
    requires n > 0 && IsChoice(n, choices)
    ensures ChoicesFrom(n, choices) == choices
  {
  }

  lemma LengthOf(password: string)
    requires Policy(password)
    ensures 8 <= |password| <= 16
  {
  }

  /** Every acceptable password is what some random numbers lead to. */
  lemma EveryPasswordPossible(password: string) returns (tape: seq<nat>)
    requires Policy(password)
    ensures |tape| == 2 * |password| - 1
    ensures Shuffle(Filled(|password|, tape), ChoicesFrom(|password|, tape[|password|..])) == password
  {
    hide Policy, Supported, GroupAt, Reduce, Shuffle, ChoicesFrom;
    var n := |password|;
    assert n >= 8 by { LengthOf(password); }
    var front := GroupsInFront(password);
    forall i | 0 <= i < n ensures front[i] in GroupAt(i) { SupportedIsInGroup(i, front[i]); }
    var draws: seq<nat> := seq(n, i requires 0 <= i < n => IndexOf(GroupAt(i), front[i]));
    var choices := ShuffleSurjective(front, password);
    tape := draws + choices;
    assert Filled(n, tape) == front;
    assert tape[n..] == choices;
    ChoicesAsTape(n, choices);
  }
}
