/** Applying a function to every element of a sequence, filtering and searching a
    sequence, and walking a set. */
module Seqs {
  import opened Wrappers

  function Map<A, B>(f: A -> B, s: seq<A>): (r: seq<B>)
    ensures |r| == |s|
    ensures forall i :: 0 <= i < |s| ==> r[i] == f(s[i])
    decreases |s|
  {
    if s == [] then [] else Map(f, s[..|s| - 1]) + [f(s[|s| - 1])]
  }

  lemma MapSnoc<A, B>(f: A -> B, s: seq<A>, x: A)
    ensures Map(f, s + [x]) == Map(f, s) + [f(x)]
  {
    assert (s + [x])[..|s|] == s;
  }

  lemma MapAppend<A, B>(f: A -> B, s: seq<A>, t: seq<A>)
    ensures Map(f, s + t) == Map(f, s) + Map(f, t)
  {
    var l, r := Map(f, s + t), Map(f, s) + Map(f, t);
    forall i | 0 <= i < |l| ensures l[i] == r[i] {
      if i >= |s| {
        assert (s + t)[i] == t[i - |s|];
      }
    }
  }

  /** When `keys` lists exactly the values satisfying `q`, the image of `keys` under `f`
      is exactly the image of those values. */
  lemma MapImage<A(!new), B>(f: A -> B, q: A -> bool, keys: seq<A>)
    requires forall k :: k in keys <==> q(k)
    ensures forall k :: q(k) ==> f(k) in Map(f, keys)
    ensures forall b :: b in Map(f, keys) ==> exists k :: q(k) && b == f(k)
  {
    var image := Map(f, keys);
    forall k | q(k) ensures f(k) in image {
      var i :| 0 <= i < |keys| && keys[i] == k;
      assert image[i] == f(k);
    }
    forall b | b in image ensures exists k :: q(k) && b == f(k) {
      var i :| 0 <= i < |image| && image[i] == b;
      assert keys[i] in keys;
    }
  }

  /** Moving `x` from `remaining` to the done part of `all`. */
  lemma DoneStep<T>(all: set<T>, remaining: set<T>, x: T)
    requires x in remaining && remaining <= all
    ensures all - (remaining - {x}) == (all - remaining) + {x}
  {
  }

  /** The elements of `s` that satisfy `p`, in order. */
  function Filter<T(!new)>(p: T -> bool, s: seq<T>): (r: seq<T>)
    ensures |r| <= |s|
    ensures forall x :: x in r <==> x in s && p(x)
    decreases |s|
  {
    if s == [] then []
    else
      var init := Filter(p, s[..|s| - 1]);
      var last := s[|s| - 1];
      assert s == s[..|s| - 1] + [last];
      if p(last) then init + [last] else init
  }

  lemma FilterSnoc<T(!new)>(p: T -> bool, s: seq<T>, x: T)
    ensures Filter(p, s + [x]) == if p(x) then Filter(p, s) + [x] else Filter(p, s)
  {
    assert (s + [x])[..|s|] == s;
  }

  /** One more element of `s` considered by a filtering loop. */
  lemma FilterPrefixStep<T(!new)>(p: T -> bool, s: seq<T>, i: nat)
    requires i < |s|
    ensures Filter(p, s[..i + 1]) == if p(s[i]) then Filter(p, s[..i]) + [s[i]] else Filter(p, s[..i])
  {
    assert s[..i + 1] == s[..i] + [s[i]];
    FilterSnoc(p, s[..i], s[i]);
  }

  /** Nothing satisfies `p`: the filter is empty. */
  lemma {:induction false} FilterNone<T(!new)>(p: T -> bool, s: seq<T>)
    requires forall j :: 0 <= j < |s| ==> !p(s[j])
    ensures Filter(p, s) == []
    decreases |s|
  {
    if s != [] {
      FilterNone(p, s[..|s| - 1]);
    }
  }

  /** Everything satisfies `p`: the filter keeps the whole sequence. */
  lemma {:induction false} FilterAll<T(!new)>(p: T -> bool, s: seq<T>)
    requires forall j :: 0 <= j < |s| ==> p(s[j])
    ensures Filter(p, s) == s
    decreases |s|
  {
    if s != [] {
      FilterAll(p, s[..|s| - 1]);
      assert s == s[..|s| - 1] + [s[|s| - 1]];
    }
  }

  /** Filtering twice is filtering once. */
  lemma FilterIdempotent<T(!new)>(p: T -> bool, s: seq<T>)
    ensures Filter(p, Filter(p, s)) == Filter(p, s)
  {
    var r := Filter(p, s);
    forall j | 0 <= j < |r| ensures p(r[j]) {
      assert r[j] in r;
    }
    FilterAll(p, r);
  }

  /** Only the element at `i` satisfies `p`: the filter is that element alone. */
  lemma {:induction false} FilterSingle<T(!new)>(p: T -> bool, s: seq<T>, i: nat)
    requires i < |s| && p(s[i])
    requires forall j :: 0 <= j < |s| && j != i ==> !p(s[j])
    ensures Filter(p, s) == [s[i]]
    decreases |s|
  {
    var init := s[..|s| - 1];
    if i < |s| - 1 {
      FilterSingle(p, init, i);
    } else {
      FilterNone(p, init);
    }
  }

  /** Two positions satisfy `p`: the filter keeps at least two elements. */
  lemma {:induction false} FilterTwo<T(!new)>(p: T -> bool, s: seq<T>, i: nat, j: nat)
    requires i < j < |s| && p(s[i]) && p(s[j])
    ensures |Filter(p, s)| >= 2
    decreases |s|
  {
    var init := s[..|s| - 1];
    if j < |s| - 1 {
      FilterTwo(p, init, i, j);
    } else {
      assert init[i] in Filter(p, init);
    }
  }

  /** The first index at or after `from` whose element satisfies `p`. */
  function FirstWith<T>(p: T -> bool, s: seq<T>, from: nat): (r: Option<nat>)
    requires from <= |s|
    ensures r.Some? ==> from <= r.value < |s| && p(s[r.value])
    ensures r.Some? ==> forall j :: from <= j < r.value ==> !p(s[j])
    ensures r.None? ==> forall j :: from <= j < |s| ==> !p(s[j])
    decreases |s| - from
  {
    if from == |s| then None
    else if p(s[from]) then Some(from)
    else FirstWith(p, s, from + 1)
  }

  /** `FirstWith` on `s` from `from` is `FirstWith` on `s[1..]` from `from - 1`, shifted. */
  lemma {:induction false} FirstWithShift<T>(p: T -> bool, s: seq<T>, from: nat)
    requires 1 <= from <= |s|
    ensures FirstWith(p, s, from) == Shift(FirstWith(p, s[1..], from - 1))
    decreases |s| - from
  {
    if from < |s| {
      assert s[1..][from - 1] == s[from];
      if !p(s[from]) {
        FirstWithShift(p, s, from + 1);
      }
    }
  }

  function Shift(k: Option<nat>): Option<nat>
  {
    if k.None? then None else Some(k.value + 1)
  }
}
