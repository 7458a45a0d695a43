/**
 * Ordering helpers shared by the ORDER BY clauses of the store's readers:
 * an insertion sort over any total preorder, and SQLite's BINARY collation
 * on text (code point by code point, a proper prefix first).
 */
module Sorting {

  ghost predicate TotalPreorder<T(!new)>(leq: (T, T) -> bool) {
    && (forall a, b :: leq(a, b) || leq(b, a))
    && (forall a, b, c :: leq(a, b) && leq(b, c) ==> leq(a, c))
  }

  ghost predicate SortedBy<T>(s: seq<T>, leq: (T, T) -> bool) {
    forall i, j :: 0 <= i < j < |s| ==> leq(s[i], s[j])
  }

  /** Every element of `s` is at or above `y`. */
  lemma AllAbove<T>(y: T, s: seq<T>, leq: (T, T) -> bool)
    requires forall z :: z in multiset(s) ==> leq(y, z)
    ensures forall k :: 0 <= k < |s| ==> leq(y, s[k])
  {
    forall k | 0 <= k < |s| ensures leq(y, s[k]) {
      assert s[k] in multiset(s);
    }
  }

  /** Putting the head of a sorted `s` in front of a sorted rearrangement of its tail and a larger `x` keeps it sorted. */
  lemma ConsSorted<T(!new)>(x: T, s: seq<T>, rest: seq<T>, leq: (T, T) -> bool)
    requires TotalPreorder(leq) && SortedBy(s, leq) && s != [] && !leq(x, s[0])
    requires multiset(rest) == multiset(s[1..]) + multiset{x} && SortedBy(rest, leq)
    ensures SortedBy([s[0]] + rest, leq)
  {
    forall z | z in multiset(rest) ensures leq(s[0], z) {
      if z != x {
        assert z in multiset(s[1..]);
        var j :| 0 <= j < |s[1..]| && s[1..][j] == z;
        assert s[j + 1] == z;
      }
    }
    AllAbove(s[0], rest, leq);
    var r := [s[0]] + rest;
    forall i, j | 0 <= i < j < |r| ensures leq(r[i], r[j]) {
      if i == 0 { assert r[j] == rest[j - 1]; } else { assert r[i] == rest[i - 1] && r[j] == rest[j - 1]; }
    }
  }

  /** Puts `x` into the sorted sequence `s` in front of the first element it does not exceed. */
  function Insert<T(!new)>(x: T, s: seq<T>, leq: (T, T) -> bool): (r: seq<T>)
    requires TotalPreorder(leq) && SortedBy(s, leq)
    ensures multiset(r) == multiset(s) + multiset{x}
    ensures SortedBy(r, leq)
    decreases |s|
  {
    if s == [] || leq(x, s[0]) then
      [x] + s
    else
      var rest := Insert(x, s[1..], leq);
      assert s == [s[0]] + s[1..];
      ConsSorted(x, s, rest, leq);
      [s[0]] + rest
  }

  /** A sorted permutation of `s`; the order among equal elements is not part of the contract. */
  function SortBy<T(!new)>(s: seq<T>, leq: (T, T) -> bool): (r: seq<T>)
    requires TotalPreorder(leq)
    ensures multiset(r) == multiset(s)
    ensures SortedBy(r, leq)
    decreases |s|
  {
    if s == [] then []
    else
      assert s == [s[0]] + s[1..];
      Insert(s[0], SortBy(s[1..], leq), leq)
  }

  /** SQLite's BINARY collation: `a` sorts at or before `b`. */
  predicate LexLeq(a: string, b: string)
    decreases |a|
  {
    |a| == 0 || (|b| > 0 && (a[0] < b[0] || (a[0] == b[0] && LexLeq(a[1..], b[1..]))))
  }

  lemma {:induction false} LexLeqTotal(a: string, b: string)
    ensures LexLeq(a, b) || LexLeq(b, a)
    decreases |a|
  {
    if |a| > 0 && |b| > 0 && a[0] == b[0] {
      LexLeqTotal(a[1..], b[1..]);
    }
  }

  lemma {:induction false} LexLeqTransitive(a: string, b: string, c: string)
    requires LexLeq(a, b) && LexLeq(b, c)
    ensures LexLeq(a, c)
    decreases |a|
  {
    if |a| > 0 && a[0] == b[0] && b[0] == c[0] {
      LexLeqTransitive(a[1..], b[1..], c[1..]);
    }
  }

  lemma {:induction false} LexLeqAntisymmetric(a: string, b: string)
    requires LexLeq(a, b) && LexLeq(b, a)
    ensures a == b
    decreases |a|
  {
    if |a| > 0 {
      LexLeqAntisymmetric(a[1..], b[1..]);
      assert a == [a[0]] + a[1..] && b == [b[0]] + b[1..];
    }
  }
}
