/**
 * The abstract keyed store every service reads: a sequence of records, each
 * found by the printed form of its identifier (`Model.findById(id)`).
 */
module Stores {
  import opened Options
  import opened ObjectIds

  /** The position of the first record whose key is `k`, if any. */
  function IndexOf<T>(xs: seq<T>, key: T -> string, k: string): (r: Option<nat>)
    ensures r.Some? ==> r.value < |xs| && key(xs[r.value]) == k
    ensures r.Some? ==> forall j :: 0 <= j < r.value ==> key(xs[j]) != k
    ensures r.None? <==> forall j :: 0 <= j < |xs| ==> key(xs[j]) != k
  {
    if |xs| == 0 then None
    else if key(xs[0]) == k then Some(0)
    else
      match IndexOf(xs[1..], key, k)
      case None => None
      case Some(i) => Some(i + 1)
  }

  /** Two sequences whose elements agree on their keys agree on where a key first occurs. */
  lemma IndexOfSameKeys<T>(xs: seq<T>, ys: seq<T>, key: T -> string, k: string)
    requires |xs| == |ys|
    requires forall j :: 0 <= j < |xs| ==> key(xs[j]) == key(ys[j])
    ensures IndexOf(xs, key, k) == IndexOf(ys, key, k)
  {
  }

  /** A key held by no record of `xs` is first found at the record appended after them. */
  lemma IndexOfAppended<T>(xs: seq<T>, x: T, key: T -> string, k: string)
    requires key(x) == k
    requires forall j :: 0 <= j < |xs| ==> key(xs[j]) != k
    ensures IndexOf(xs + [x], key, k) == Some(|xs|)
  {
    var r := xs + [x];
    assert r[|xs|] == x;
    assert forall j :: 0 <= j < |xs| ==> r[j] == xs[j];
  }

  /** The first record whose key is `k`, if any. */
  function Lookup<T>(xs: seq<T>, key: T -> string, k: string): (r: Option<T>)
    ensures r.Some? <==> exists j :: 0 <= j < |xs| && key(xs[j]) == k
    ensures r.Some? ==> r.value in xs && key(r.value) == k
  {
    match IndexOf(xs, key, k)
    case None => None
    case Some(i) => Some(xs[i])
  }

  /** `xs` with the record at `i` replaced by `x`. */
  function Replace<T>(xs: seq<T>, i: nat, x: T): (r: seq<T>)
    requires i < |xs|
    ensures |r| == |xs| && r[i] == x
    ensures forall j :: 0 <= j < |xs| && j != i ==> r[j] == xs[j]
  {
    xs[i := x]
  }

  /** Replacing a record by one with the same key leaves every key in place. */
  lemma ReplaceKeepsKeys<T>(xs: seq<T>, i: nat, x: T, key: T -> string)
    requires i < |xs| && key(x) == key(xs[i])
    ensures forall j :: 0 <= j < |xs| ==> key(Replace(xs, i, x)[j]) == key(xs[j])
  {
  }

  /** `xs` without the record at `i`, the others keeping their order. */
  function RemoveAt<T>(xs: seq<T>, i: nat): (r: seq<T>)
    requires i < |xs|
    ensures |r| == |xs| - 1
    ensures forall j :: 0 <= j < i ==> r[j] == xs[j]
    ensures forall j :: i <= j < |r| ==> r[j] == xs[j + 1]
    ensures multiset(r) + multiset{xs[i]} == multiset(xs)
  {
    assert xs == xs[..i] + [xs[i]] + xs[i + 1..];
    xs[..i] + xs[i + 1..]
  }

  /**
   * `Model.findById(id)` on a string: the identifier is cast first, and the
   * record with the cast identifier is looked up. `None` both when the cast
   * fails and when no record has the identifier; the callers tell the two
   * apart by `IsHexId`, since a failed cast throws.
   */
  function LookupById<T>(xs: seq<T>, key: T -> string, id: string): (r: Option<T>)
    ensures !IsHexId(id) ==> r.None?
    ensures IsHexId(id) ==> r == Lookup(xs, key, CastId(id).value)
  {
    if IsHexId(id) then Lookup(xs, key, CastId(id).value) else None
  }
}
