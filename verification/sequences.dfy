/**
 * Filter, map and first-occurrence deduplication over sequences: the array
 * operations (`filter`, `map`, `[...new Set(...)]`) the viewer derives its
 * hierarchy with.
 */
module Sequences {

  /** No element of `s` occurs twice. */
  predicate NoDuplicates<T(==)>(s: seq<T>) {
    forall i, j :: 0 <= i < j < |s| ==> s[i] != s[j]
  }

  /** The position of the first occurrence of `x` in `s`. */
  function FirstIndex<T(==)>(s: seq<T>, x: T): (k: nat)
    requires x in s
    ensures k < |s| && s[k] == x
    ensures forall j :: 0 <= j < k ==> s[j] != x
  {
    if s[0] == x then 0 else 1 + FirstIndex(s[1..], x)
  }

  /** Extending a sequence does not move the first occurrence of anything already in it. */
  lemma {:induction false} FirstIndexOfPrefix<T>(s: seq<T>, n: nat, x: T)
    requires n <= |s| && x in s[..n]
    ensures x in s && FirstIndex(s, x) == FirstIndex(s[..n], x)
  {
    var k := FirstIndex(s[..n], x);
    assert s[k] == s[..n][k] == x;
    var m := FirstIndex(s, x);
    assert m <= k;
    assert forall j :: 0 <= j < m ==> s[..n][j] == s[j];
  }

  /** `x` and `y` both occur in `s`, and `x` occurs first. */
  predicate FirstBefore<T(==)>(s: seq<T>, x: T, y: T) {
    x in s && y in s && FirstIndex(s, x) < FirstIndex(s, y)
  }

  /**
   * The distinct elements of `s` in first-occurrence order, which is the
   * iteration order of a JavaScript `Set` filled from `s`: each element is
   * inserted when it is first met and later copies are ignored.
   */
  function Distinct<T(==,!new)>(s: seq<T>): (r: seq<T>)
    ensures forall x :: x in r <==> x in s
    ensures NoDuplicates(r)
    ensures forall i, j :: 0 <= i < j < |r| ==> FirstBefore(s, r[i], r[j])
  {
    if s == [] then []
    else
      var n := |s| - 1;
      var init := Distinct(s[..n]);
      var last := s[n];
      assert s == s[..n] + [last];
      DistinctOrderStep(s, init);
      if last in init then init else init + [last]
  }

  /** The ordering step of `Distinct`: first occurrences in the prefix are first occurrences in `s`. */
  lemma {:induction false} DistinctOrderStep<T>(s: seq<T>, init: seq<T>)
    requires |s| > 0
    requires forall x :: x in init <==> x in s[..|s| - 1]
    requires forall i, j :: 0 <= i < j < |init| ==> FirstBefore(s[..|s| - 1], init[i], init[j])
    ensures forall i, j :: 0 <= i < j < |init| ==> FirstBefore(s, init[i], init[j])
    ensures s[|s| - 1] !in init ==> forall i :: 0 <= i < |init| ==> FirstBefore(s, init[i], s[|s| - 1])
  {
    var n := |s| - 1;
    forall i | 0 <= i < |init|
      ensures init[i] in s[..n] && init[i] in s && FirstIndex(s, init[i]) == FirstIndex(s[..n], init[i]) < n
    {
      assert init[i] in init;
      FirstIndexOfPrefix(s, n, init[i]);
    }
  }

  /** The elements of `s` that satisfy `p`, in their order in `s` (`Array.prototype.filter`). */
  function Filter<T(!new)>(s: seq<T>, p: T -> bool): (r: seq<T>)
    ensures |r| <= |s|
    ensures forall x :: x in r <==> x in s && p(x)
  {
    if s == [] then []
    else (if p(s[0]) then [s[0]] else []) + Filter(s[1..], p)
  }

  /** Filtering commutes with concatenation, so the kept elements keep their relative order. */
  lemma {:induction false} FilterAppend<T(!new)>(a: seq<T>, b: seq<T>, p: T -> bool)
    ensures Filter(a + b, p) == Filter(a, p) + Filter(b, p)
  {
    if a == [] {
      assert a + b == b;
    } else {
      assert (a + b)[0] == a[0];
      assert (a + b)[1..] == a[1..] + b;
      FilterAppend(a[1..], b, p);
    }
  }

  /** A filter keeps nothing exactly when no element satisfies the predicate. */
  lemma FilterEmpty<T(!new)>(s: seq<T>, p: T -> bool)
    ensures Filter(s, p) == [] <==> forall i :: 0 <= i < |s| ==> !p(s[i])
  {
    if Filter(s, p) != [] {
      assert Filter(s, p)[0] in Filter(s, p);
    }
  }

  /** `f` applied to every element of `s`, position by position (`Array.prototype.map`). */
  function Map<T, U>(s: seq<T>, f: T -> U): (r: seq<U>)
    ensures |r| == |s|
    ensures forall i :: 0 <= i < |s| ==> r[i] == f(s[i])
  {
    seq(|s|, i requires 0 <= i < |s| => f(s[i]))
  }

  /** What a filter followed by a map holds: the images of the elements that pass the filter. */
  lemma FilterMapMembers<T(!new), U(!new)>(s: seq<T>, p: T -> bool, f: T -> U)
    ensures forall x :: x in Map(Filter(s, p), f) <==> exists k :: 0 <= k < |s| && p(s[k]) && x == f(s[k])
  {
    var kept := Filter(s, p);
    var r := Map(kept, f);
    forall x
      ensures x in r <==> exists k :: 0 <= k < |s| && p(s[k]) && x == f(s[k])
    {
      if x in r {
        var i :| 0 <= i < |r| && r[i] == x;
        assert kept[i] in kept;
        var k :| 0 <= k < |s| && s[k] == kept[i];
        assert p(s[k]) && x == f(s[k]);
      }
      if exists k :: 0 <= k < |s| && p(s[k]) && x == f(s[k]) {
        var k :| 0 <= k < |s| && p(s[k]) && x == f(s[k]);
        assert s[k] in kept;
        var i :| 0 <= i < |kept| && kept[i] == s[k];
        assert r[i] == x;
      }
    }
  }

  /** Mapping commutes with concatenation. */
  lemma MapAppend<T, U>(a: seq<T>, b: seq<T>, f: T -> U)
    ensures Map(a + b, f) == Map(a, f) + Map(b, f)
  {
  }
}
