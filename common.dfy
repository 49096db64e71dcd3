/** Small sequence vocabulary shared by the page models: an optional value
    (a JavaScript value that may be `null` or `undefined`), the
    `Array.prototype.filter`, `some` and index-`filter` idioms the components
    use, order-preserving subsequences and duplicate-free sequences. */
module Common {

  datatype Option<+T> = None | Some(value: T) {
    /** `x || default` / `x ?? default` for a value that may be missing. */
    function GetOr(default: T): T {
      match this
      case Some(v) => v
      case None => default
    }
  }

  /** A toast shown to the user: title, description and whether it uses the
      destructive (error) styling. */
  datatype Notice = Notice(title: string, description: string, destructive: bool)

  /** `s.filter(p)`: the elements satisfying `p`, in order, with their multiplicity. */
  function Filter<T(!new)>(s: seq<T>, p: T -> bool): (r: seq<T>)
    ensures |r| <= |s|
    ensures forall x {:trigger x in r} :: x in r <==> x in s && p(x)
    decreases |s|
  {
    if s == [] then []
    else
      var rest := Filter(s[1..], p);
      assert s == [s[0]] + s[1..];
      if p(s[0]) then [s[0]] + rest else rest
  }

  /** Filtering keeps each passing value as often as it occurs, and drops
      every other value. */
  lemma {:induction false} FilterMultiset<T(!new)>(s: seq<T>, p: T -> bool)
    ensures forall x :: multiset(Filter(s, p))[x] == if p(x) then multiset(s)[x] else 0
    decreases |s|
  {
    if s != [] {
      FilterMultiset(s[1..], p);
      assert s == [s[0]] + s[1..];
    }
  }

  /** Filtering a sequence with a given first element. */
  lemma FilterCons<T(!new)>(x: T, s: seq<T>, p: T -> bool)
    ensures Filter([x] + s, p) == (if p(x) then [x] else []) + Filter(s, p)
  {
    assert ([x] + s)[1..] == s;
  }

  /** Filtering distributes over concatenation. */
  lemma {:induction false} FilterAppend<T(!new)>(a: seq<T>, b: seq<T>, p: T -> bool)
    ensures Filter(a + b, p) == Filter(a, p) + Filter(b, p)
    decreases |a|
  {
    if a == [] {
      assert a + b == b;
    } else {
      FilterAppend(a[1..], b, p);
      assert a + b == [a[0]] + (a[1..] + b);
      assert a == [a[0]] + a[1..];
      FilterCons(a[0], a[1..] + b, p);
      FilterCons(a[0], a[1..], p);
    }
  }

  /** Filtering keeps everything when every element passes. */
  lemma {:induction false} FilterAll<T(!new)>(s: seq<T>, p: T -> bool)
    requires forall i :: 0 <= i < |s| ==> p(s[i])
    ensures Filter(s, p) == s
    decreases |s|
  {
    if s != [] {
      FilterAll(s[1..], p);
      assert s == [s[0]] + s[1..];
    }
  }

  /** Filtering keeps nothing when no element passes. */
  lemma {:induction false} FilterNone<T(!new)>(s: seq<T>, p: T -> bool)
    requires forall i :: 0 <= i < |s| ==> !p(s[i])
    ensures Filter(s, p) == []
    decreases |s|
  {
    if s != [] {
      assert !p(s[0]);
      FilterNone(s[1..], p);
    }
  }

  /** Filtering by `p` and then by a stronger `q` is filtering by `q`. */
  lemma {:induction false} FilterFilter<T(!new)>(s: seq<T>, p: T -> bool, q: T -> bool)
    requires forall x :: q(x) ==> p(x)
    ensures Filter(Filter(s, p), q) == Filter(s, q)
    decreases |s|
  {
    if s != [] {
      FilterFilter(s[1..], p, q);
      if p(s[0]) {
        assert Filter(s, p) == [s[0]] + Filter(s[1..], p);
        assert ([s[0]] + Filter(s[1..], p))[1..] == Filter(s[1..], p);
      }
    }
  }

  /** `s.filter(p).length`. */
  function Count<T(!new)>(s: seq<T>, p: T -> bool): nat {
    |Filter(s, p)|
  }

  /** `s.some(p)`. */
  function Any<T>(s: seq<T>, p: T -> bool): (r: bool)
    ensures r <==> exists i :: 0 <= i < |s| && p(s[i])
    decreases |s|
  {
    if s == [] then false
    else if p(s[0]) then true
    else
      var rest := Any(s[1..], p);
      assert forall i :: 1 <= i < |s| ==> s[i] == s[1..][i - 1];
      rest
  }

  /** `s.filter((_, i) => i !== index)`: drops the element at `index` when
      there is one, and keeps the others in order. */
  function RemoveAt<T>(s: seq<T>, index: int): (r: seq<T>)
    ensures |r| == if 0 <= index < |s| then |s| - 1 else |s|
    ensures forall i :: 0 <= i < |r| ==>
      r[i] == if 0 <= index <= i then s[i + 1] else s[i]
  {
    if 0 <= index < |s| then s[..index] + s[index + 1..] else s
  }

  /** `a` is obtained from `b` by deleting some elements (the order of the
      kept elements is the order in `b`). */
  ghost predicate IsSubsequence<T>(a: seq<T>, b: seq<T>)
    decreases |b|
  {
    if b == [] then a == []
    else (a != [] && a[0] == b[0] && IsSubsequence(a[1..], b[1..]))
         || IsSubsequence(a, b[1..])
  }

  /** Filtering only deletes elements: the result is a subsequence of the input. */
  lemma {:induction false} FilterIsSubsequence<T(!new)>(s: seq<T>, p: T -> bool)
    ensures IsSubsequence(Filter(s, p), s)
    decreases |s|
  {
    if s != [] {
      FilterIsSubsequence(s[1..], p);
      if p(s[0]) {
        assert Filter(s, p)[1..] == Filter(s[1..], p);
      }
    }
  }

  /** Two sequences whose elements pass the test at the same positions keep
      equally many elements. */
  lemma {:induction false} CountPointwise<T(!new)>(a: seq<T>, b: seq<T>, p: T -> bool)
    requires |a| == |b|
    requires forall i :: 0 <= i < |a| ==> p(a[i]) == p(b[i])
    ensures |Filter(a, p)| == |Filter(b, p)|
    decreases |a|
  {
    if a != [] {
      assert forall i :: 0 <= i < |a| - 1 ==> a[1..][i] == a[i + 1] && b[1..][i] == b[i + 1];
      CountPointwise(a[1..], b[1..], p);
    }
  }

  /** A subsequence stays one when the longer sequence grows at the end. */
  lemma {:induction false} SubsequenceExtend<T>(a: seq<T>, b: seq<T>, x: T)
    requires IsSubsequence(a, b)
    ensures IsSubsequence(a, b + [x])
    decreases |b|
  {
    if b == [] {
      assert IsSubsequence(a, (b + [x])[1..]);
    } else {
      assert (b + [x])[1..] == b[1..] + [x];
      if a != [] && a[0] == b[0] && IsSubsequence(a[1..], b[1..]) {
        SubsequenceExtend(a[1..], b[1..], x);
      } else {
        SubsequenceExtend(a, b[1..], x);
      }
    }
  }

  /** Both sequences growing by the same last element keep the relation. */
  lemma {:induction false} SubsequenceAppend<T>(a: seq<T>, b: seq<T>, x: T)
    requires IsSubsequence(a, b)
    ensures IsSubsequence(a + [x], b + [x])
    decreases |b|
  {
    if b == [] {
      assert a == [];
      assert (a + [x])[1..] == [] && (b + [x])[1..] == [];
    } else {
      assert (b + [x])[1..] == b[1..] + [x];
      if a != [] && a[0] == b[0] && IsSubsequence(a[1..], b[1..]) {
        SubsequenceAppend(a[1..], b[1..], x);
        assert (a + [x])[1..] == a[1..] + [x];
      } else {
        SubsequenceAppend(a, b[1..], x);
      }
    }
  }

  /** No value occurs twice. */
  predicate Distinct<T(==)>(s: seq<T>) {
    forall i, j :: 0 <= i < j < |s| ==> s[i] != s[j]
  }

  function Elements<T>(s: seq<T>): set<T> {
    set x | x in s
  }

  /** A duplicate-free sequence has as many distinct elements as positions. */
  lemma {:induction false} DistinctCardinality<T>(s: seq<T>)
    requires Distinct(s)
    ensures |Elements(s)| == |s|
    decreases |s|
  {
    if s != [] {
      var last := s[|s| - 1];
      var init := s[..|s| - 1];
      assert Distinct(init);
      DistinctCardinality(init);
      assert Elements(s) == Elements(init) + {last} by {
        assert s == init + [last];
      }
      assert last !in Elements(init);
    }
  }

  /** Pigeonhole for finite sets: a subset as large as the superset is all of it. */
  lemma SubsetOfEqualSize<T>(a: set<T>, b: set<T>)
    requires a <= b && |a| == |b|
    ensures a == b
  {
    assert |b - a| == |b| - |a|;
  }

  /** If the duplicate-free `done` only mentions elements of the
      duplicate-free `all` and is as long, it mentions every element of `all`. */
  lemma CoversAll<T>(done: seq<T>, all: seq<T>)
    requires Distinct(done) && Distinct(all)
    requires forall x :: x in done ==> x in all
    requires |done| == |all|
    ensures forall x :: x in all ==> x in done
  {
    DistinctCardinality(done);
    DistinctCardinality(all);
    SubsetOfEqualSize(Elements(done), Elements(all));
    forall x | x in all ensures x in done {
      assert x in Elements(all);
    }
  }
}
