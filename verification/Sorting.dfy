/** Sorted sequences of integers. */
module Sorting {

  predicate Sorted(s: seq<int>) { forall i, j :: 0 <= i < j < |s| ==> s[i] <= s[j] }

  predicate Increasing(s: seq<int>) { forall i, j :: 0 <= i < j < |s| ==> s[i] < s[j] }

  function Insert(s: seq<int>, x: int): seq<int> {
    if s == [] || s[|s| - 1] <= x then s + [x] else Insert(s[..|s| - 1], x) + [s[|s| - 1]]
  }

  /** What `sort.Ints` makes of a slice. */
  function Sort(s: seq<int>): seq<int> {
    if s == [] then [] else Insert(Sort(s[..|s| - 1]), s[|s| - 1])
  }

  lemma TakeLast<T>(s: seq<T>)
    requires s != []
    ensures multiset(s[..|s| - 1]) == multiset(s) - multiset{s[|s| - 1]}
    ensures multiset(s) == multiset(s[..|s| - 1]) + multiset{s[|s| - 1]}
  {
    assert s == s[..|s| - 1] + [s[|s| - 1]];
  }

  lemma AddLast(s: seq<int>, x: int)
    requires Sorted(s) && forall y :: y in multiset(s) ==> y <= x
    ensures Sorted(s + [x]) && multiset(s + [x]) == multiset(s) + multiset{x}
  {
    forall i | 0 <= i < |s| ensures s[i] <= x {
      assert s[i] in multiset(s);
    }
  }

  lemma {:induction false} InsertSorted(s: seq<int>, x: int)
    requires Sorted(s)
    ensures Sorted(Insert(s, x)) && multiset(Insert(s, x)) == multiset(s) + multiset{x}
  {
    if s == [] || s[|s| - 1] <= x {
      AddLast(s, x);
    } else {
      var front, last := s[..|s| - 1], s[|s| - 1];
      InsertSorted(front, x);
      TakeLast(s);
      forall y | y in multiset(Insert(front, x)) ensures y <= last {
        if y in multiset(front) { assert y in front; }
      }
      AddLast(Insert(front, x), last);
    }
  }

  lemma {:induction false} SortSorts(s: seq<int>)
    ensures Sorted(Sort(s)) && multiset(Sort(s)) == multiset(s)
  {
    if s == [] {
    } else {
      TakeLast(s);
      SortSorts(s[..|s| - 1]);
      InsertSorted(Sort(s[..|s| - 1]), s[|s| - 1]);
    }
  }

  lemma LastGreatest(s: seq<int>, x: int)
    requires Sorted(s) && x in multiset(s)
    ensures s != [] && x <= s[|s| - 1]
  {
    assert x in s;
  }

  lemma SameLast(a: seq<int>, b: seq<int>)
    requires Sorted(a) && Sorted(b) && multiset(a) == multiset(b) && a != []
    ensures b != [] && a[|a| - 1] == b[|b| - 1]
    ensures multiset(a[..|a| - 1]) == multiset(b[..|b| - 1])
  {
    var x := a[|a| - 1];
    assert x in multiset(a);
    LastGreatest(b, x);
    var y := b[|b| - 1];
    assert y in multiset(b);
    LastGreatest(a, y);
    TakeLast(a);
    TakeLast(b);
  }

  lemma {:induction false} SortedUnique(a: seq<int>, b: seq<int>)
    requires Sorted(a) && Sorted(b) && multiset(a) == multiset(b)
    ensures a == b
    decreases |a|
  {
    if a == [] {
      assert |multiset(b)| == 0;
    } else {
      SameLast(a, b);
      var front, tail := a[..|a| - 1], b[..|b| - 1];
      SortedUnique(front, tail);
      assert a == front + [a[|a| - 1]];
      assert b == tail + [b[|b| - 1]];
    }
  }

  /** Two sequences sort to the same one exactly when they are permutations of each other. */
  lemma SortEqualIff(a: seq<int>, b: seq<int>)
    ensures Sort(a) == Sort(b) <==> multiset(a) == multiset(b)
  {
    SortSorts(a);
    SortSorts(b);
    if multiset(a) == multiset(b) { SortedUnique(Sort(a), Sort(b)); }
  }

  // ---------- The keys of a map in order ----------

  lemma Inhabited(s: set<int>)
    requires s != {}
    ensures exists x :: x in s
  {
    if forall x :: x !in s { }
  }

  lemma {:induction false} GreatestOf(s: set<int>) returns (r: int)
    requires s != {}
    ensures r in s && forall q :: q in s ==> q <= r
    decreases |s|
  {
    Inhabited(s);
    r :| r in s;
    var others := s - {r};
    assert s == {r} + others;
    if others != {} {
      var m := GreatestOf(others);
      r := if m > r then m else r;
    }
  }

  function Greatest(s: set<int>): (r: int)
    requires s != {}
    ensures r in s && forall q :: q in s ==> q <= r
  {
    assert exists r :: r in s && forall q :: q in s ==> q <= r by { var m := GreatestOf(s); }
    var r :| r in s && forall q :: q in s ==> q <= r;
    r
  }

  function Ascending(s: set<int>): (r: seq<int>)
    ensures Increasing(r) && forall x :: x in r <==> x in s
    decreases |s|
  {
    if s == {} then []
    else
      var m := Greatest(s);
      assert s == (s - {m}) + {m};
      Ascending(s - {m}) + [m]
  }

  /** There is only one way to write a set in increasing order. */
  lemma {:induction false} AscendingUnique(r: seq<int>, s: set<int>)
    requires Increasing(r) && forall x :: x in r <==> x in s
    ensures r == Ascending(s)
    decreases |r|
  {
    if r == [] {
      if s != {} { Inhabited(s); }
    } else {
      var last := r[|r| - 1];
      assert last in r;
      assert s != {};
      var m := Greatest(s);
      assert m in r;
      assert last == m;
      var front := r[..|r| - 1];
      assert r == front + [last];
      AscendingUnique(front, s - {m});
    }
  }

  lemma {:induction false} Distinct(a: seq<int>, x: int)
    requires forall i, j :: 0 <= i < j < |a| ==> a[i] != a[j]
    ensures multiset(a)[x] <= 1
    decreases |a|
  {
    if a == [] {
    } else {
      var front, last := a[..|a| - 1], a[|a| - 1];
      assert a == front + [last];
      Distinct(front, x);
      if last == x { assert x !in front; assert x !in multiset(front); }
    }
  }

  lemma Repeated(r: seq<int>, i: nat, j: nat)
    requires i < j < |r| && r[i] == r[j]
    ensures multiset(r)[r[i]] >= 2
  {
    assert r == r[..i] + [r[i]] + r[i + 1..j] + [r[j]] + r[j + 1..];
  }

  /** Sorting a list of distinct integers puts its elements in increasing order. */
  lemma SortDistinct(a: seq<int>, s: set<int>)
    requires forall x :: x in a <==> x in s
    requires forall i, j :: 0 <= i < j < |a| ==> a[i] != a[j]
    ensures Sort(a) == Ascending(s)
  {
    SortSorts(a);
    var r := Sort(a);
    forall x ensures x in r <==> x in s {
      assert x in r <==> x in multiset(r);
      assert x in a <==> x in multiset(a);
    }
    forall i, j | 0 <= i < j < |r| ensures r[i] < r[j] {
      if r[i] == r[j] {
        Distinct(a, r[i]);
        Repeated(r, i, j);
      }
    }
    AscendingUnique(r, s);
  }
}
