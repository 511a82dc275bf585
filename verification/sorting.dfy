/**
 * The ordering the database applies for `.sort({ field: 1 | -1 })` and
 * `orderBy: { field: 'asc' | 'desc' }`, modelled as a stable insertion sort
 * on a per-record key. A record without the field sorts before every record
 * that has it, as the database orders missing values.
 */
module Sorting {

  datatype Direction = Asc | Desc

  datatype SortKey = Absent | Present(value: real)

  predicate KeyLe(a: SortKey, b: SortKey) {
    match a
    case Absent => true
    case Present(x) => b.Present? && x <= b.value
  }

  predicate InOrder(a: SortKey, b: SortKey, dir: Direction) {
    if dir == Asc then KeyLe(a, b) else KeyLe(b, a)
  }

  predicate SortedBy<T>(xs: seq<T>, key: T -> SortKey, dir: Direction) {
    forall i, j :: 0 <= i < j < |xs| ==> InOrder(key(xs[i]), key(xs[j]), dir)
  }

  /** Places `x` before the first element it may precede. */
  function Insert<T>(x: T, xs: seq<T>, key: T -> SortKey, dir: Direction): (r: seq<T>)
    requires SortedBy(xs, key, dir)
    ensures multiset(r) == multiset(xs) + multiset{x}
    ensures SortedBy(r, key, dir)
  {
    if |xs| == 0 then [x]
    else if InOrder(key(x), key(xs[0]), dir) then [x] + xs
    else
      var rest := Insert(x, xs[1..], key, dir);
      HeadPrecedes(x, xs, rest, key, dir);
      ConsSorted(xs[0], rest, key, dir);
      assert xs == [xs[0]] + xs[1..];
      [xs[0]] + rest
  }

  /** The keys are totally ordered in either direction. */
  lemma InOrderTotal(a: SortKey, b: SortKey, dir: Direction)
    ensures InOrder(a, b, dir) || InOrder(b, a, dir)
  {
  }

  /** The head of a sorted list that `x` may not precede may precede every element of the rest with `x` inserted. */
  lemma HeadPrecedes<T>(x: T, xs: seq<T>, rest: seq<T>, key: T -> SortKey, dir: Direction)
    requires |xs| > 0 && SortedBy(xs, key, dir) && !InOrder(key(x), key(xs[0]), dir)
    requires multiset(rest) == multiset(xs[1..]) + multiset{x}
    ensures forall k :: 0 <= k < |rest| ==> InOrder(key(xs[0]), key(rest[k]), dir)
  {
    InOrderTotal(key(x), key(xs[0]), dir);
    forall k | 0 <= k < |rest|
      ensures InOrder(key(xs[0]), key(rest[k]), dir)
    {
      assert rest[k] in multiset(rest);
      if rest[k] != x {
        assert rest[k] in multiset(xs[1..]);
        var m :| 0 <= m < |xs[1..]| && xs[1..][m] == rest[k];
        assert xs[1 + m] == rest[k];
      }
    }
  }

  /** A sorted list behind a head that may precede all of it is sorted. */
  lemma ConsSorted<T>(h: T, rest: seq<T>, key: T -> SortKey, dir: Direction)
    requires SortedBy(rest, key, dir)
    requires forall k :: 0 <= k < |rest| ==> InOrder(key(h), key(rest[k]), dir)
    ensures SortedBy([h] + rest, key, dir)
  {
    var r := [h] + rest;
    forall i, j | 0 <= i < j < |r|
      ensures InOrder(key(r[i]), key(r[j]), dir)
    {
      assert r[j] == rest[j - 1];
      if i > 0 {
        assert r[i] == rest[i - 1];
      }
    }
  }

  /** The records of `xs`, ordered by `key` in direction `dir`. */
  function SortBy<T>(xs: seq<T>, key: T -> SortKey, dir: Direction): (r: seq<T>)
    ensures multiset(r) == multiset(xs)
    ensures |r| == |xs|
    ensures SortedBy(r, key, dir)
  {
    if |xs| == 0 then []
    else
      assert xs == [xs[0]] + xs[1..];
      Insert(xs[0], SortBy(xs[1..], key, dir), key, dir)
  }

  /** A permutation keeps exactly the same records, with the same multiplicities. */
  lemma PermutationKeepsMembers<T>(xs: seq<T>, ys: seq<T>, x: T)
    requires multiset(xs) == multiset(ys)
    ensures x in xs <==> x in ys
  {
    assert x in xs <==> x in multiset(xs);
    assert x in ys <==> x in multiset(ys);
  }
}
