/** Python's `list.sort(reverse=True)` on tuples, as an insertion sort in
    descending order by a caller-supplied "at least" comparison. When that
    comparison is a total order, as Python's tuple comparison is, the sorted
    permutation is unique, so this gives the order Python produces. */
module Sorting {

  /** `geq` is total and transitive. */
  ghost predicate IsTotalPreorder<T(!new)>(geq: (T, T) -> bool) {
    (forall a, b :: geq(a, b) || geq(b, a)) &&
    (forall a, b, c :: geq(a, b) && geq(b, c) ==> geq(a, c))
  }

  /** Every element is "at least" every later one. */
  ghost predicate SortedDescending<T>(s: seq<T>, geq: (T, T) -> bool) {
    forall i, j :: 0 <= i < j < |s| ==> geq(s[i], s[j])
  }

  /** Puts `x` in front of the first element it is at least. */
  function Insert<T>(x: T, s: seq<T>, geq: (T, T) -> bool): (r: seq<T>)
    ensures multiset(r) == multiset(s) + multiset{x}
    ensures |r| == |s| + 1
  {
    if s == [] || geq(x, s[0]) then [x] + s
    else
      assert s == [s[0]] + s[1..];
      [s[0]] + Insert(x, s[1..], geq)
  }

  function SortDescending<T>(s: seq<T>, geq: (T, T) -> bool): (r: seq<T>)
    ensures multiset(r) == multiset(s)
    ensures |r| == |s|
  {
    if s == [] then []
    else
      assert s == [s[0]] + s[1..];
      Insert(s[0], SortDescending(s[1..], geq), geq)
  }

  lemma {:induction false} InsertSorted<T(!new)>(x: T, s: seq<T>, geq: (T, T) -> bool)
    requires IsTotalPreorder(geq)
    requires SortedDescending(s, geq)
    ensures SortedDescending(Insert(x, s, geq), geq)
  {
    if s != [] && !geq(x, s[0]) {
      InsertSorted(x, s[1..], geq);
      var r := Insert(x, s, geq);
      var tail := Insert(x, s[1..], geq);
      assert r == [s[0]] + tail;
      forall j | 1 <= j < |r|
        ensures geq(r[0], r[j])
      {
        assert r[j] in multiset(tail);
        assert r[j] in multiset(s[1..]) + multiset{x};
        if r[j] != x {
          assert r[j] in s[1..];
        }
      }
    }
  }

  /** The result is in descending order. */
  lemma {:induction false} SortDescendingSorted<T(!new)>(s: seq<T>, geq: (T, T) -> bool)
    requires IsTotalPreorder(geq)
    ensures SortedDescending(SortDescending(s, geq), geq)
  {
    if s != [] {
      SortDescendingSorted(s[1..], geq);
      InsertSorted(s[0], SortDescending(s[1..], geq), geq);
    }
  }
}
