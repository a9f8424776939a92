/**
 * The in-place `std::sort` calls of the graph builders: an array is reordered
 * so that a key is non-decreasing, and nothing is added or lost.
 * `std::sort` is not stable; the model promises only what it promises.
 */
module Sorting {

  /** The keys of `s` are non-decreasing. */
  ghost predicate SortedBy<T>(s: seq<T>, key: T -> real)
  {
    forall i, j :: 0 <= i < j < |s| ==> key(s[i]) <= key(s[j])
  }

  /** The keys of `a[lo..hi]` are non-decreasing. */
  ghost predicate SortedRange<T>(a: array<T>, lo: int, hi: int, key: T -> real)
    reads a
  {
    forall p, q :: lo <= p < q < hi && 0 <= p && q < a.Length ==> key(a[p]) <= key(a[q])
  }

  /** Exchanges two cells of `a`. */
  method Swap<T>(a: array<T>, i: int, j: int)
    requires 0 <= i < a.Length && 0 <= j < a.Length
    modifies a
    ensures a[i] == old(a[j]) && a[j] == old(a[i])
    ensures forall k :: 0 <= k < a.Length && k != i && k != j ==> a[k] == old(a[k])
    ensures multiset(a[..]) == old(multiset(a[..]))
  {
    a[i], a[j] := a[j], a[i];
  }

  /** Sinks `a[i]` into the sorted prefix `a[..i]`, giving a sorted prefix `a[..i+1]`. */
  method Insert<T>(a: array<T>, i: int, key: T -> real)
    requires 0 <= i < a.Length
    requires SortedRange(a, 0, i, key)
    modifies a
    ensures SortedRange(a, 0, i + 1, key)
    ensures multiset(a[..]) == old(multiset(a[..]))
  {
    var j := i;
    while j > 0 && key(a[j - 1]) > key(a[j])
      invariant 0 <= j <= i
      invariant multiset(a[..]) == old(multiset(a[..]))
      invariant forall p, q :: 0 <= p < q <= i && q != j ==> key(a[p]) <= key(a[q])
      invariant 0 < j < i ==> key(a[j - 1]) <= key(a[j + 1])
    {
      Swap(a, j - 1, j);
      j := j - 1;
    }
  }

  /** Sorts `a` in place by `key` (insertion sort). */
  method SortByKey<T>(a: array<T>, key: T -> real)
    modifies a
    ensures SortedBy(a[..], key)
    ensures multiset(a[..]) == old(multiset(a[..]))
  {
    var i := 0;
    while i < a.Length
      invariant 0 <= i <= a.Length
      invariant SortedRange(a, 0, i, key)
      invariant multiset(a[..]) == old(multiset(a[..]))
    {
      Insert(a, i, key);
      i := i + 1;
    }
  }
}
