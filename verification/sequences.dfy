/** Element-wise mapping of a list, and why it respects permutations. */
module Sequences {

  function Map<T, U>(xs: seq<T>, f: T --> U): (r: seq<U>)
    requires forall i :: 0 <= i < |xs| ==> f.requires(xs[i])
    ensures |r| == |xs|
    ensures forall i :: 0 <= i < |xs| ==> r[i] == f(xs[i])
  {
    if |xs| == 0 then [] else [f(xs[0])] + Map(xs[1..], f)
  }

  /** `xs` without its element at `j`. */
  function Without<T>(xs: seq<T>, j: nat): (r: seq<T>)
    requires j < |xs|
    ensures multiset(r) == multiset(xs) - multiset{xs[j]}
  {
    assert xs == xs[..j] + [xs[j]] + xs[j + 1..];
    xs[..j] + xs[j + 1..]
  }

  /** Mapping commutes with removing an element. */
  lemma MapWithout<T, U>(xs: seq<T>, j: nat, f: T --> U)
    requires forall i :: 0 <= i < |xs| ==> f.requires(xs[i])
    requires j < |xs|
    ensures forall i :: 0 <= i < |Without(xs, j)| ==> f.requires(Without(xs, j)[i])
    ensures Map(Without(xs, j), f) == Without(Map(xs, f), j)
  {
    var w := Without(xs, j);
    assert forall i :: 0 <= i < j ==> w[i] == xs[i];
    assert forall i :: j <= i < |w| ==> w[i] == xs[i + 1];
  }

  lemma MultisetOfCons<T>(xs: seq<T>)
    requires |xs| > 0
    ensures multiset(xs) == multiset{xs[0]} + multiset(xs[1..])
  {
    assert xs == [xs[0]] + xs[1..];
  }

  /** The inductive step: matching the head of `xs` with `ys[j]`. */
  lemma MapPermutationStep<T, U>(xs: seq<T>, ys: seq<T>, j: nat, f: T --> U)
    requires |xs| > 0 && j < |ys| && ys[j] == xs[0]
    requires forall i :: 0 <= i < |xs| ==> f.requires(xs[i])
    requires forall i :: 0 <= i < |ys| ==> f.requires(ys[i])
    requires forall i :: 0 <= i < |Without(ys, j)| ==> f.requires(Without(ys, j)[i])
    requires Map(Without(ys, j), f) == Without(Map(ys, f), j)
    requires multiset(Map(xs[1..], f)) == multiset(Map(Without(ys, j), f))
    ensures multiset(Map(xs, f)) == multiset(Map(ys, f))
  {
    var my, mx := Map(ys, f), Map(xs, f);
    MultisetOfCons(mx);
    assert mx[1..] == Map(xs[1..], f);
    assert mx[0] == my[j];
    MultisetSplit(my, j);
  }

  /** A list is the element at `j` together with the rest. */
  lemma MultisetSplit<T>(xs: seq<T>, j: nat)
    requires j < |xs|
    ensures multiset(xs) == multiset{xs[j]} + multiset(Without(xs, j))
  {
    assert xs == xs[..j] + [xs[j]] + xs[j + 1..];
  }

  /** A permutation of a list `f` is defined on is a list `f` is defined on. */
  lemma PermutationDefined<T, U>(xs: seq<T>, ys: seq<T>, f: T --> U)
    requires forall i :: 0 <= i < |ys| ==> f.requires(ys[i])
    requires multiset(xs) == multiset(ys)
    ensures forall i :: 0 <= i < |xs| ==> f.requires(xs[i])
  {
    forall i | 0 <= i < |xs|
      ensures f.requires(xs[i])
    {
      assert xs[i] in multiset(ys);
    }
  }

  /** Mapping two permutations of each other gives two permutations of each other. */
  lemma {:induction false} MapPermutation<T, U>(xs: seq<T>, ys: seq<T>, f: T --> U)
    requires forall i :: 0 <= i < |ys| ==> f.requires(ys[i])
    requires multiset(xs) == multiset(ys)
    ensures forall i :: 0 <= i < |xs| ==> f.requires(xs[i])
    ensures multiset(Map(xs, f)) == multiset(Map(ys, f))
    decreases |xs|
  {
    PermutationDefined(xs, ys, f);
    if |xs| == 0 {
      assert |ys| == |multiset(ys)| == 0;
    } else {
      var x := xs[0];
      MultisetOfCons(xs);
      assert x in multiset(ys);
      var j :| 0 <= j < |ys| && ys[j] == x;
      MapWithout(ys, j, f);
      MapPermutation(xs[1..], Without(ys, j), f);
      MapPermutationStep(xs, ys, j, f);
    }
  }

  /** The elements of `xs` satisfying `p`, in their order in `xs`. */
  function Filter<T(!new)>(xs: seq<T>, p: T -> bool): (r: seq<T>)
    ensures |r| <= |xs|
    ensures forall i :: 0 <= i < |r| ==> p(r[i])
    ensures forall x :: x in r <==> x in xs && p(x)
    ensures forall x :: multiset(r)[x] == if p(x) then multiset(xs)[x] else 0
  {
    if |xs| == 0 then []
    else
      assert xs == [xs[0]] + xs[1..];
      (if p(xs[0]) then [xs[0]] else []) + Filter(xs[1..], p)
  }

  /** Filtering a concatenation filters each part. */
  lemma {:induction false} FilterAppend<T(!new)>(xs: seq<T>, ys: seq<T>, p: T -> bool)
    ensures Filter(xs + ys, p) == Filter(xs, p) + Filter(ys, p)
    decreases |xs|
  {
    if |xs| == 0 {
      assert xs + ys == ys;
    } else {
      var zs := xs + ys;
      assert zs[0] == xs[0] && zs[1..] == xs[1..] + ys;
      FilterAppend(xs[1..], ys, p);
      FilterCons(zs, p);
      FilterCons(xs, p);
      ConcatAssociative(if p(xs[0]) then [xs[0]] else [], Filter(xs[1..], p), Filter(ys, p));
    }
  }

  /** One step of `Filter`: the head is kept exactly when it satisfies `p`. */
  lemma FilterCons<T(!new)>(xs: seq<T>, p: T -> bool)
    requires |xs| > 0
    ensures Filter(xs, p) == (if p(xs[0]) then [xs[0]] else []) + Filter(xs[1..], p)
  {
  }

  lemma ConcatAssociative<T>(a: seq<T>, b: seq<T>, c: seq<T>)
    ensures a + (b + c) == (a + b) + c
  {
  }

  /** A sequence whose every element satisfies `p` is its own filter. */
  lemma {:induction false} FilterKeepsAll<T(!new)>(xs: seq<T>, p: T -> bool)
    requires forall i :: 0 <= i < |xs| ==> p(xs[i])
    ensures Filter(xs, p) == xs
    decreases |xs|
  {
    if |xs| > 0 {
      FilterKeepsAll(xs[1..], p);
      FilterCons(xs, p);
      assert xs == [xs[0]] + xs[1..];
    }
  }
}
