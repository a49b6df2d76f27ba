/** Sorted lists, kept by binary search. */
module Lists {
  import opened Basics

  /** Insert `x` keeping ascending order, by binary search. */
  method InsertSorted(sorted: seq<int>, x: int) returns (r: seq<int>)
    requires Ascending(sorted) && x !in sorted
    ensures Ascending(r) && Elems(r) == Elems(sorted) + {x} && |r| == |sorted| + 1
  {
    var lo, hi := 0, |sorted|;
    while lo < hi
      invariant 0 <= lo <= hi <= |sorted|
      invariant forall i :: 0 <= i < lo ==> sorted[i] < x
      invariant forall i :: hi <= i < |sorted| ==> x < sorted[i]
    {
      var mid := (lo + hi) / 2;
      if sorted[mid] < x {
        lo := mid + 1;
      } else {
        hi := mid;
      }
    }
    r := sorted[..lo] + [x] + sorted[lo..];
    assert sorted == sorted[..lo] + sorted[lo..];
    ElemsConcat(sorted[..lo], sorted[lo..]);
    ElemsConcat(sorted[..lo] + [x], sorted[lo..]);
    ElemsAppend(sorted[..lo], x);
  }

  /** The keys of a map in ascending order. */
  method SortedKeys<T>(m: map<int, T>) returns (r: seq<int>)
    ensures Ascending(r) && Elems(r) == m.Keys
  {
    r := [];
    var todo := m.Keys;
    while todo != {}
      invariant Ascending(r) && todo !! Elems(r) && todo + Elems(r) == m.Keys
      decreases todo
    {
      var x := Take(todo);
      assert x !in Elems(r);
      r := InsertSorted(r, x);
      todo := todo - {x};
    }
  }
}
