/** `lessons.sort((a, b) => a.order_index - b.order_index)`, which both the
    course viewer and the course editor run in place on the fetched lesson
    array. The library algorithm is not part of the source; it is modelled
    as an in-place insertion sort by adjacent swaps. */
module LessonOrder {
  import opened Schema

  /** Ascending by `order_index`. */
  ghost predicate SortedByOrder(s: seq<LessonRow>) {
    forall i, j :: 0 <= i < j < |s| ==> s[i].order_index <= s[j].order_index
  }

  /** Exchanges two neighbouring lessons. */
  method SwapAdjacent(a: array<LessonRow>, j: nat)
    requires 0 < j < a.Length
    modifies a
    ensures a[j - 1] == old(a[j]) && a[j] == old(a[j - 1])
    ensures forall k :: 0 <= k < a.Length && k != j - 1 && k != j ==> a[k] == old(a[k])
    ensures multiset(a[..]) == multiset(old(a[..]))
  {
    a[j - 1], a[j] := a[j], a[j - 1];
  }

  /** Sorts the fetched lessons in place: afterwards they are in ascending
      `order_index` and are the same lessons as before. */
  method SortByOrderIndex(a: array<LessonRow>)
    modifies a
    ensures SortedByOrder(a[..])
    ensures multiset(a[..]) == multiset(old(a[..]))
  {
    var i := 0;
    while i < a.Length
      invariant 0 <= i <= a.Length
      invariant SortedByOrder(a[..i])
      invariant multiset(a[..]) == multiset(old(a[..]))
    {
      var j := i;
      while j > 0 && a[j - 1].order_index > a[j].order_index
        invariant 0 <= j <= i
        invariant multiset(a[..]) == multiset(old(a[..]))
        invariant forall p, q :: 0 <= p < q <= i && q != j ==> a[p].order_index <= a[q].order_index
        invariant 0 < j < i ==> a[j - 1].order_index <= a[j + 1].order_index
      {
        SwapAdjacent(a, j);
        j := j - 1;
      }
      i := i + 1;
    }
  }

  /** Copies the fetched lessons into an array, as the response body is, and
      sorts them there. */
  method SortedLessons(s: seq<LessonRow>) returns (r: seq<LessonRow>)
    ensures SortedByOrder(r)
    ensures multiset(r) == multiset(s)
    ensures |r| == |s|
  {
    var a := new LessonRow[|s|](i requires 0 <= i < |s| => s[i]);
    assert a[..] == s;
    SortByOrderIndex(a);
    r := a[..];
    assert |multiset(r)| == |multiset(s)|;
  }
}
