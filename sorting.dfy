/**
 * Python's `sorted` as a stable insertion sort under a caller's `<`:
 * the result is a permutation of the input in which no element sorts
 * before its predecessor.
 */
module Sorting {

  /** `less` never holds both ways, as any `<` that Python's sort relies on. */
  ghost predicate Asymmetric<T(!new)>(less: (T, T) -> bool)
  {
    forall a, b :: less(a, b) ==> !less(b, a)
  }

  predicate SortedBy<T>(s: seq<T>, less: (T, T) -> bool)
  {
    forall i :: 0 < i < |s| ==> !less(s[i], s[i - 1])
  }

  /** Put `x` after the elements that sort strictly before it and before the rest. */
  function InsertBy<T(==,!new)>(x: T, s: seq<T>, less: (T, T) -> bool): (r: seq<T>)
    requires Asymmetric(less)
    ensures multiset(r) == multiset(s) + multiset{x}
    ensures |r| > 0 && (r[0] == x || (|s| > 0 && r[0] == s[0]))
    ensures SortedBy(s, less) ==> SortedBy(r, less)
  {
    if s == [] then [x]
    else if less(s[0], x) then
      assert s == [s[0]] + s[1..];
      [s[0]] + InsertBy(x, s[1..], less)
    else
      [x] + s
  }

  /** `sorted(s)`: stable, because each element goes before the later ones it does not follow. */
  function SortBy<T(==,!new)>(s: seq<T>, less: (T, T) -> bool): (r: seq<T>)
    requires Asymmetric(less)
    ensures multiset(r) == multiset(s)
    ensures |r| == |s|
    ensures SortedBy(r, less)
  {
    if s == [] then []
    else
      assert s == [s[0]] + s[1..];
      InsertBy(s[0], SortBy(s[1..], less), less)
  }
}
