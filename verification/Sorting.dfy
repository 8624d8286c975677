/** sort.Slice with a key: the in-place sort used when a certificate is built. */
module Sorting {
  /** Places x behind the elements whose key is not above its own. */
  function InsertBy<T>(x: T, s: seq<T>, key: T -> int): (r: seq<T>)
    ensures |r| == |s| + 1
  {
    if s == [] || key(s[|s| - 1]) <= key(x) then s + [x]
    else InsertBy(x, s[..|s| - 1], key) + [s[|s| - 1]]
  }

  function SortBy<T>(s: seq<T>, key: T -> int): (r: seq<T>)
    ensures |r| == |s|
  {
    if s == [] then [] else InsertBy(s[|s| - 1], SortBy(s[..|s| - 1], key), key)
  }

  ghost predicate Ascending<T>(s: seq<T>, key: T -> int) {
    forall i, j :: 0 <= i < j < |s| ==> key(s[i]) <= key(s[j])
  }

  ghost predicate StrictlyAscending<T>(s: seq<T>, key: T -> int) {
    forall i, j :: 0 <= i < j < |s| ==> key(s[i]) < key(s[j])
  }

  lemma Members<T>(r: seq<T>, front: seq<T>, x: T)
    requires multiset(r) == multiset(front) + multiset{x}
    ensures forall y :: y in r ==> y == x || y in front
  {
    forall y | y in r ensures y == x || y in front { assert y in multiset(r); }
  }

  lemma AscendingAppend<T>(s: seq<T>, x: T, key: T -> int)
    requires Ascending(s, key) && forall y :: y in s ==> key(y) <= key(x)
    ensures Ascending(s + [x], key)
  {}

  lemma BelowLast<T>(front: seq<T>, last: T, key: T -> int)
    requires Ascending(front + [last], key)
    ensures Ascending(front, key) && forall y :: y in front ==> key(y) <= key(last)
  {
    var s := front + [last];
    forall i | 0 <= i < |front| ensures key(front[i]) <= key(last) { assert s[i] == front[i] && s[|front|] == last; }
    forall i, j | 0 <= i < j < |front|
      ensures key(front[i]) <= key(front[j])
    {
      assert s[i] == front[i] && s[j] == front[j];
    }
  }

  lemma {:induction false} InsertByFacts<T>(x: T, s: seq<T>, key: T -> int)
    requires Ascending(s, key)
    ensures Ascending(InsertBy(x, s, key), key)
    ensures multiset(InsertBy(x, s, key)) == multiset(s) + multiset{x}
  {
    hide Ascending;
    if s == [] {
      AscendingSingle(x, key);
      assert s + [x] == [x];
    } else {
      var front, last := s[..|s| - 1], s[|s| - 1];
      assert s == front + [last];
      BelowLast(front, last, key);
      if key(last) > key(x) {
        InsertByFacts(x, front, key);
        Members(InsertBy(x, front, key), front, x);
        AscendingAppend(InsertBy(x, front, key), last, key);
      } else {
        forall y | y in s ensures key(y) <= key(x) { assert y in front || y == last; }
        AscendingAppend(s, x, key);
      }
    }
  }

  lemma AscendingSingle<T>(x: T, key: T -> int)
    ensures Ascending([x], key)
  {}

  lemma {:induction false} SortByFacts<T>(s: seq<T>, key: T -> int)
    ensures Ascending(SortBy(s, key), key)
    ensures multiset(SortBy(s, key)) == multiset(s)
  {
    if s != [] {
      assert s == s[..|s| - 1] + [s[|s| - 1]];
      SortByFacts(s[..|s| - 1], key);
      InsertByFacts(s[|s| - 1], SortBy(s[..|s| - 1], key), key);
    }
  }

  lemma Twice<T>(s: seq<T>, i: nat, j: nat)
    requires i < j < |s| && s[i] == s[j]
    ensures multiset(s)[s[i]] >= 2
  {
    assert s == s[..j] + s[j..];
    assert s[..j][i] in multiset(s[..j]) && s[j..][0] in multiset(s[j..]);
  }

  lemma SameMembers<T>(s: seq<T>, t: seq<T>)
    requires multiset(s) == multiset(t)
    ensures forall x :: x in s <==> x in t
  {
    forall x ensures x in s <==> x in t { assert x in multiset(s) <==> x in multiset(t); }
  }

  /** Ascending without repetition is strictly ascending. */
  lemma StrictWhenSingle<T>(s: seq<T>, key: T -> int)
    requires Ascending(s, key) && forall x :: x in s ==> multiset(s)[x] <= 1
    requires forall x, y :: x in s && y in s && key(x) == key(y) ==> x == y
    ensures StrictlyAscending(s, key)
  {
    forall i, j | 0 <= i < j < |s| ensures key(s[i]) < key(s[j]) {
      if s[i] == s[j] { Twice(s, i, j); }
    }
  }

  /** Strictly ascending sequences with the same elements are the same sequence. */
  lemma {:induction false} AscendingUnique<T>(s: seq<T>, t: seq<T>, key: T -> int)
    requires StrictlyAscending(s, key) && StrictlyAscending(t, key)
    requires forall x :: x in s <==> x in t
    ensures s == t
    decreases |s|
  {
    hide StrictlyAscending;
    assert |s| > 0 ==> s[0] in t;
    assert |t| > 0 ==> t[0] in s;
    if s != [] {
      var m, x := LastIsGreatest(s, key);
      var n, y := LastIsGreatest(t, key);
      assert x in t && y in s;
      forall z ensures z in m <==> z in n { assert z in s <==> z in t; }
      AscendingUnique(m, n, key);
    }
  }

  lemma LastIsGreatest<T>(s: seq<T>, key: T -> int) returns (front: seq<T>, last: T)
    requires StrictlyAscending(s, key) && s != []
    ensures s == front + [last] && last in s && StrictlyAscending(front, key)
    ensures forall x :: x in s ==> key(x) < key(last) || x == last
    ensures forall x :: x in front <==> x in s && x != last
  {
    front, last := s[..|s| - 1], s[|s| - 1];
    forall x | x in front ensures x in s && key(x) < key(last) {
      var i :| 0 <= i < |front| && s[i] == x;
      assert key(s[i]) < key(last);
    }
  }

  /** The in-place sort: grows a sorted prefix, sifting each element down to its place. */
  method SortSlice<T>(a: array<T>, key: T -> int)
    modifies a
    ensures a[..] == SortBy(old(a[..]), key)
  {
    var i := 0;
    while i < a.Length
      invariant 0 <= i <= a.Length
      invariant a[..i] == SortBy(old(a[..i]), key)
      invariant a[i..] == old(a[i..])
    {
      Sift(a, i, key);
      assert old(a[..i + 1])[..i] == old(a[..i]);
      i := i + 1;
    }
    assert a[..i] == a[..] && old(a[..i]) == old(a[..]);
  }

  lemma PassesOver<T>(x: T, s: seq<T>, y: T, key: T -> int)
    requires key(y) > key(x)
    ensures InsertBy(x, s + [y], key) == InsertBy(x, s, key) + [y]
  {
    assert (s + [y])[..|s|] == s;
  }

  lemma StopsAt<T>(x: T, s: seq<T>, key: T -> int)
    requires s == [] || key(s[|s| - 1]) <= key(x)
    ensures InsertBy(x, s, key) == s + [x]
  {}

  method Sift<T>(a: array<T>, i: nat, key: T -> int)
    requires i < a.Length
    modifies a
    ensures a[..i + 1] == InsertBy(old(a[i]), old(a[..i]), key)
    ensures a[i + 1..] == old(a[i + 1..])
  {
    hide InsertBy;
    var x, j := a[i], i;
    while j > 0 && key(a[j - 1]) > key(x)
      invariant 0 <= j <= i
      invariant a[..j] == old(a[..j]) && a[i + 1..] == old(a[i + 1..])
      invariant InsertBy(x, a[..j], key) + a[j + 1..i + 1] == InsertBy(x, old(a[..i]), key)
    {
      assert a[..j] == a[..j - 1] + [a[j - 1]];
      PassesOver(x, a[..j - 1], a[j - 1], key);
      ghost var tail := a[j + 1..i + 1];
      ghost var moved := a[j - 1];
      a[j] := a[j - 1];
      assert a[j..i + 1] == [moved] + tail;
      j := j - 1;
    }
    StopsAt(x, a[..j], key);
    a[j] := x;
    assert a[..i + 1] == a[..j] + [x] + a[j + 1..i + 1];
  }
}
