/** Sorting by a tuple-of-strings key. The source sorts with `sort.Slice`/`sort.Strings`;
    here that is a stable insertion sort (one of the orders an unstable sort may produce),
    and the collect-then-sort of a map's values is one insertion per picked value. */
module Sorting {
  import opened Ordering

  predicate Sorted<T(!new)>(s: seq<T>, key: T -> seq<string>)
  {
    forall i, j :: 0 <= i < j < |s| ==> KeyLe(key(s[i]), key(s[j]))
  }

  predicate StrictlySorted<T(!new)>(s: seq<T>, key: T -> seq<string>)
  {
    forall i, j :: 0 <= i < j < |s| ==> KeyLess(key(s[i]), key(s[j]))
  }

  /** Inserts `x` before the first element that is not before it. */
  function Insert<T(!new)>(x: T, s: seq<T>, key: T -> seq<string>): (r: seq<T>)
    ensures |r| == |s| + 1
    ensures multiset(r) == multiset(s) + multiset{x}
    ensures forall y :: y in r <==> y == x || y in s
  {
    if s == [] then [x]
    else if KeyLess(key(s[0]), key(x)) then
      assert s == [s[0]] + s[1..];
      [s[0]] + Insert(x, s[1..], key)
    else [x] + s
  }

  lemma {:induction false} InsertSorted<T(!new)>(x: T, s: seq<T>, key: T -> seq<string>)
    requires Sorted(s, key)
    ensures Sorted(Insert(x, s, key), key)
  {
    if s == [] {
    } else if KeyLess(key(s[0]), key(x)) {
      InsertSorted(x, s[1..], key);
      var r := Insert(x, s, key);
      KeyLessAsymmetric(key(s[0]), key(x));
      forall j | 0 < j < |r| ensures KeyLe(key(r[0]), key(r[j])) {
        assert r[j] in Insert(x, s[1..], key);
      }
    } else {
      var r := Insert(x, s, key);
      forall j | 0 < j < |r| ensures KeyLe(key(r[0]), key(r[j])) {
        if j > 1 {
          KeyLeTransitive(key(x), key(s[0]), key(s[j - 1]));
        }
      }
    }
  }

  lemma {:induction false} InsertStrictlySorted<T(!new)>(x: T, s: seq<T>, key: T -> seq<string>)
    requires StrictlySorted(s, key)
    requires forall y :: y in s ==> key(y) != key(x)
    ensures StrictlySorted(Insert(x, s, key), key)
  {
    if s == [] {
    } else if KeyLess(key(s[0]), key(x)) {
      InsertStrictlySorted(x, s[1..], key);
      var r := Insert(x, s, key);
      forall j | 0 < j < |r| ensures KeyLess(key(r[0]), key(r[j])) {
        assert r[j] in Insert(x, s[1..], key);
      }
    } else {
      KeyLessTotal(key(x), key(s[0]));
      var r := Insert(x, s, key);
      forall j | 0 < j < |r| ensures KeyLess(key(r[0]), key(r[j])) {
        if j > 1 {
          KeyLessTransitive(key(x), key(s[0]), key(s[j - 1]));
        }
      }
    }
  }

  /** Sorting keeps exactly the elements it was given. */
  lemma SortByMembers<T(!new)>(s: seq<T>, key: T -> seq<string>)
    ensures forall x :: x in SortBy(s, key) <==> x in s
  {
    var r := SortBy(s, key);
    forall x ensures x in r <==> x in s {
      assert x in r <==> x in multiset(r);
      assert x in s <==> x in multiset(s);
    }
  }

  /** `sort.Slice(s, less)` with the comparator that `key` spells out. */
  function SortBy<T(!new)>(s: seq<T>, key: T -> seq<string>): (r: seq<T>)
    ensures |r| == |s|
    ensures multiset(r) == multiset(s)
    ensures Sorted(r, key)
  {
    if s == [] then []
    else
      var t := SortBy(s[1..], key);
      InsertSorted(s[0], t, key);
      assert s == [s[0]] + s[1..];
      Insert(s[0], t, key)
  }

  lemma {:induction false} StrictlySortedUnique<T(!new)>(a: seq<T>, b: seq<T>, key: T -> seq<string>)
    requires StrictlySorted(a, key) && StrictlySorted(b, key)
    requires |a| == |b| && forall x :: x in a <==> x in b
    ensures a == b
    decreases |a|
  {
    if a != [] {
      assert a[0] in b && b[0] in a;
      var i :| 0 <= i < |a| && a[i] == b[0];
      var j :| 0 <= j < |b| && b[j] == a[0];
      if i > 0 && j > 0 {
        KeyLessAsymmetric(key(a[0]), key(a[i]));
      } else if i > 0 {
        KeyLessIrreflexive(key(a[0]));
      } else if j > 0 {
        KeyLessIrreflexive(key(b[0]));
      }
      assert a[0] == b[0];
      forall x ensures x in a[1..] <==> x in b[1..] {
        if x in a[1..] {
          var k :| 0 <= k < |a| - 1 && a[1..][k] == x;
          if x == b[0] {
            KeyLessIrreflexive(key(a[0]));
          }
          assert a[k + 1] == x && x in a && x in b;
          var m :| 0 <= m < |b| && b[m] == x;
          assert b[1..][m - 1] == x;
        }
        if x in b[1..] {
          var k :| 0 <= k < |b| - 1 && b[1..][k] == x;
          if x == a[0] {
            KeyLessIrreflexive(key(b[0]));
          }
          assert b[k + 1] == x && x in b && x in a;
          var m :| 0 <= m < |a| && a[m] == x;
          assert a[1..][m - 1] == x;
        }
      }
      StrictlySortedUnique(a[1..], b[1..], key);
      assert a == [a[0]] + a[1..] && b == [b[0]] + b[1..];
    }
  }

  /** No two distinct members of `s` share a key. */
  ghost predicate KeyInjective<T(!new)>(s: set<T>, key: T -> seq<string>)
  {
    forall x, y :: x in s && y in s && key(x) == key(y) ==> x == y
  }

  /** The members of a set in key order: the sequence that collecting them in any order
      and sorting yields. */
  ghost function SortedSet<T(!new)>(s: set<T>, key: T -> seq<string>): (r: seq<T>)
    requires KeyInjective(s, key)
    ensures StrictlySorted(r, key)
    ensures |r| == |s|
    ensures forall x :: x in r <==> x in s
    decreases |s|
  {
    if s == {} then []
    else
      var x :| x in s;
      var t := SortedSet(s - {x}, key);
      InsertStrictlySorted(x, t, key);
      Insert(x, t, key)
  }

  /** Collects the members of `s` in an arbitrary order (Go's map iteration) into a sorted
      slice. */
  method SortSet<T(==,!new)>(s: set<T>, key: T -> seq<string>) returns (r: seq<T>)
    requires KeyInjective(s, key)
    ensures r == SortedSet(s, key)
  {
    r := [];
    var rest := s;
    while rest != {}
      invariant rest <= s
      invariant StrictlySorted(r, key)
      invariant forall x :: x in r <==> x in s - rest
      invariant |r| == |s - rest|
      decreases |rest|
    {
      var x :| x in rest;
      InsertStrictlySorted(x, r, key);
      r := Insert(x, r, key);
      rest := rest - {x};
    }
    StrictlySortedUnique(r, SortedSet(s, key), key);
  }
}
