/** The lesson list editor of the course form (LessonManager.tsx): adding,
    editing, removing and moving lessons in an ordered list whose
    `order_index` is meant to run 1..N by position. Each operation returns
    the list it hands to `onLessonsChange`. */
module LessonManager {
  import opened Common

  /** A lesson as the form holds it; `duration` is in minutes here. */
  datatype Lesson = Lesson(
    id: Option<string>,
    title: string,
    video_url: string,
    duration: int,
    order_index: int)

  /** `updateLesson(index, field, value)`: the field named and its new value. */
  datatype Edit =
    | SetId(id: string)
    | SetTitle(title: string)
    | SetVideoUrl(url: string)
    | SetDuration(minutes: int)
    | SetOrderIndex(position: int)

  /** The lesson without its position: what a reorder must not change. */
  function Content(l: Lesson): Lesson {
    l.(order_index := 0)
  }

  function Contents(s: seq<Lesson>): (r: seq<Lesson>)
    ensures |r| == |s|
    ensures forall i :: 0 <= i < |s| ==> r[i] == Content(s[i])
  {
    seq(|s|, i requires 0 <= i < |s| => Content(s[i]))
  }

  /** `order_index` is exactly 1..N by position. */
  predicate Contiguous(s: seq<Lesson>) {
    forall i :: 0 <= i < |s| ==> s[i].order_index == i + 1
  }

  /** `{ ...lesson, [field]: value }`: the named field takes the value and
      every other field is kept. */
  function Apply(l: Lesson, e: Edit): (r: Lesson)
    ensures e.SetId? ==> r.id == Some(e.id) && r.(id := l.id) == l
    ensures e.SetTitle? ==> r.title == e.title && r.(title := l.title) == l
    ensures e.SetVideoUrl? ==> r.video_url == e.url && r.(video_url := l.video_url) == l
    ensures e.SetDuration? ==> r.duration == e.minutes && r.(duration := l.duration) == l
    ensures e.SetOrderIndex? ==> r.order_index == e.position && r.(order_index := l.order_index) == l
  {
    match e
    case SetId(v) => l.(id := Some(v))
    case SetTitle(v) => l.(title := v)
    case SetVideoUrl(v) => l.(video_url := v)
    case SetDuration(v) => l.(duration := v)
    case SetOrderIndex(v) => l.(order_index := v)
  }

  /** `lessons.map((lesson, i) => ({ ...lesson, order_index: i + 1 }))`:
      positions become 1..N and nothing else changes. */
  function Renumbered(s: seq<Lesson>): (r: seq<Lesson>)
    ensures |r| == |s|
    ensures Contiguous(r)
    ensures Contents(r) == Contents(s)
  {
    seq(|s|, i requires 0 <= i < |s| => s[i].(order_index := i + 1))
  }

  /** `addLesson`: a blank lesson placed after the existing ones. */
  function AddLesson(lessons: seq<Lesson>): (r: seq<Lesson>)
    ensures |r| == |lessons| + 1
    ensures r[..|lessons|] == lessons
    ensures r[|lessons|] == Lesson(None, "", "", 0, |lessons| + 1)
  {
    lessons + [Lesson(None, "", "", 0, |lessons| + 1)]
  }

  /** Adding to a list numbered 1..N yields a list numbered 1..N+1. */
  lemma AddLessonKeepsContiguous(lessons: seq<Lesson>)
    requires Contiguous(lessons)
    ensures Contiguous(AddLesson(lessons))
  {
    var r := AddLesson(lessons);
    forall i | 0 <= i < |r| ensures r[i].order_index == i + 1 {
      if i < |lessons| {
        assert r[i] == lessons[i];
      }
    }
  }

  /** `updateLesson(index, field, value)`: only the lesson at `index` can
      change, and in it only the named field; an index outside the list
      changes nothing. */
  function UpdateLesson(lessons: seq<Lesson>, index: int, e: Edit): (r: seq<Lesson>)
    ensures |r| == |lessons|
    ensures forall i :: 0 <= i < |r| && i != index ==> r[i] == lessons[i]
    ensures 0 <= index < |r| ==> r[index] == Apply(lessons[index], e)
  {
    seq(|lessons|, i requires 0 <= i < |lessons| =>
      if i == index then Apply(lessons[i], e) else lessons[i])
  }

  /** Editing any field but `order_index` keeps the numbering 1..N. */
  lemma UpdateLessonKeepsContiguous(lessons: seq<Lesson>, index: int, e: Edit)
    requires Contiguous(lessons) && !e.SetOrderIndex?
    ensures Contiguous(UpdateLesson(lessons, index, e))
  {
    var r := UpdateLesson(lessons, index, e);
    forall i | 0 <= i < |r| ensures r[i].order_index == i + 1 {
      if i == index {
        assert r[i] == Apply(lessons[i], e);
      }
    }
  }

  /** `removeLesson(index)`: drops the lesson at `index` (if any), keeps the
      others in their relative order, and renumbers them 1..N. */
  function RemoveLesson(lessons: seq<Lesson>, index: int): (r: seq<Lesson>)
    ensures |r| == if 0 <= index < |lessons| then |lessons| - 1 else |lessons|
    ensures Contiguous(r)
    ensures forall i :: 0 <= i < |r| ==>
      Content(r[i]) == Content(if 0 <= index <= i then lessons[i + 1] else lessons[i])
  {
    var kept := RemoveAt(lessons, index);
    var r := Renumbered(kept);
    assert forall i :: 0 <= i < |r| ==> Content(r[i]) == Contents(r)[i];
    r
  }

  /** The list after the two `splice` calls of `moveLesson`: the lesson at
      `from` is taken out and put back at `to`, where a position past the
      end of the shortened list means its end. */
  function Moved(s: seq<Lesson>, from: nat, to: nat): (r: seq<Lesson>)
    requires from < |s|
  {
    var rest := s[..from] + s[from + 1..];
    var k := if to <= |rest| then to else |rest|;
    rest[..k] + [s[from]] + rest[k..]
  }

  /** Where `Moved` puts the moved lesson. */
  function Target(n: nat, to: nat): nat
    requires n > 0
  {
    if to < n then to else n - 1
  }

  /** Position by position, `Moved` shifts the lessons between `from` and the
      target by one place and leaves the rest where they were. */
  lemma MovedAt(s: seq<Lesson>, from: nat, to: nat, k: nat)
    requires from < |s| && k < |s|
    ensures |Moved(s, from, to)| == |s|
    ensures Moved(s, from, to)[k] ==
      var c := Target(|s|, to);
      if k == c then s[from]
      else if from < c && from <= k < c then s[k + 1]
      else if c < from && c < k <= from then s[k - 1]
      else s[k]
  {
  }

  /** Moving a lesson puts it at `to` (or at the end when `to` is past it). */
  lemma MovedPlacesLesson(s: seq<Lesson>, from: nat, to: nat)
    requires from < |s|
    ensures Moved(s, from, to)[Target(|s|, to)] == s[from]
  {
    MovedAt(s, from, to, Target(|s|, to));
  }

  /** Taking the moved lesson out again gives the list without it: the other
      lessons keep their relative order. */
  lemma MovedKeepsOthersInOrder(s: seq<Lesson>, from: nat, to: nat)
    requires from < |s|
    ensures RemoveAt(Moved(s, from, to), Target(|s|, to)) == RemoveAt(s, from)
  {
    var rest := s[..from] + s[from + 1..];
    var k := if to <= |rest| then to else |rest|;
    assert Moved(s, from, to) == rest[..k] + [s[from]] + rest[k..];
    assert k == Target(|s|, to);
    assert (rest[..k] + [s[from]] + rest[k..])[..k] == rest[..k];
    assert (rest[..k] + [s[from]] + rest[k..])[k + 1..] == rest[k..];
    assert rest[..k] + rest[k..] == rest;
  }

  /** Moving is a permutation. */
  lemma MovedIsPermutation(s: seq<Lesson>, from: nat, to: nat)
    requires from < |s|
    ensures multiset(Moved(s, from, to)) == multiset(s)
  {
    var rest := s[..from] + s[from + 1..];
    var k := if to <= |rest| then to else |rest|;
    assert s == s[..from] + [s[from]] + s[from + 1..];
    assert rest == rest[..k] + rest[k..];
    calc {
      multiset(Moved(s, from, to));
      multiset(rest[..k]) + multiset([s[from]]) + multiset(rest[k..]);
      multiset(rest) + multiset([s[from]]);
      multiset(s[..from]) + multiset(s[from + 1..]) + multiset([s[from]]);
      multiset(s);
    }
  }

  /** Taking content commutes with moving. */
  lemma ContentsOfMoved(s: seq<Lesson>, from: nat, to: nat)
    requires from < |s|
    ensures Contents(Moved(s, from, to)) == Moved(Contents(s), from, to)
  {
    var a := Contents(Moved(s, from, to));
    var b := Moved(Contents(s), from, to);
    MovedAt(s, from, to, 0);
    MovedAt(Contents(s), from, to, 0);
    forall k | 0 <= k < |s| ensures a[k] == b[k] {
      MovedAt(s, from, to, k);
      MovedAt(Contents(s), from, to, k);
    }
  }

  /** The two `splice` calls of `moveLesson`, on the copied array: the
      lessons between `from` and the target slide over by one place and the
      moved lesson is written at the target. */
  method SpliceMove(a: array<Lesson>, fromIndex: nat, toIndex: nat)
    requires fromIndex < a.Length
    modifies a
    ensures a[..] == Moved(old(a[..]), fromIndex, toIndex)
  {
    ghost var s := a[..];
    var moved := a[fromIndex];
    var to := Target(a.Length, toIndex);
    if fromIndex < to {
      var i := fromIndex;
      while i < to
        invariant fromIndex <= i <= to
        invariant forall k :: 0 <= k < fromIndex ==> a[k] == s[k]
        invariant forall k :: fromIndex <= k < i ==> a[k] == s[k + 1]
        invariant forall k :: i <= k < a.Length ==> a[k] == s[k]
      {
        a[i] := a[i + 1];
        i := i + 1;
      }
    } else {
      var i := fromIndex;
      while i > to
        invariant to <= i <= fromIndex
        invariant forall k :: 0 <= k <= i ==> a[k] == s[k]
        invariant forall k :: i < k <= fromIndex ==> a[k] == s[k - 1]
        invariant forall k :: fromIndex < k < a.Length ==> a[k] == s[k]
      {
        a[i] := a[i - 1];
        i := i - 1;
      }
    }
    a[to] := moved;
    forall k | 0 <= k < a.Length ensures a[k] == Moved(s, fromIndex, toIndex)[k] {
      MovedAt(s, fromIndex, toIndex, k);
    }
    MovedAt(s, fromIndex, toIndex, 0);
  }

  /** The renumbering `map` of `moveLesson`, done slot by slot. */
  method RenumberInPlace(a: array<Lesson>)
    modifies a
    ensures a[..] == Renumbered(old(a[..]))
  {
    ghost var s := a[..];
    var j := 0;
    while j < a.Length
      invariant 0 <= j <= a.Length
      invariant forall k :: 0 <= k < j ==> a[k] == s[k].(order_index := k + 1)
      invariant forall k :: j <= k < a.Length ==> a[k] == s[k]
    {
      a[j] := a[j].(order_index := j + 1);
      j := j + 1;
    }
  }

  /** `moveLesson(from, to)`: copies the list, moves the lesson in the copy,
      then renumbers. */
  method MoveLesson(lessons: seq<Lesson>, fromIndex: nat, toIndex: nat) returns (r: seq<Lesson>)
    requires fromIndex < |lessons|
    ensures r == Renumbered(Moved(lessons, fromIndex, toIndex))
  {
    var a := new Lesson[|lessons|](i requires 0 <= i < |lessons| => lessons[i]);
    assert a[..] == lessons;
    SpliceMove(a, fromIndex, toIndex);
    RenumberInPlace(a);
    r := a[..];
  }

  /** After a move the positions are 1..N, the moved lesson is at its target
      and the lessons are those of the input, ignoring `order_index`. */
  lemma MoveLessonProperties(lessons: seq<Lesson>, fromIndex: nat, toIndex: nat)
    requires fromIndex < |lessons|
    ensures var r := Renumbered(Moved(lessons, fromIndex, toIndex));
      && |r| == |lessons|
      && Contiguous(r)
      && Content(r[Target(|lessons|, toIndex)]) == Content(lessons[fromIndex])
      && multiset(Contents(r)) == multiset(Contents(lessons))
  {
    var m := Moved(lessons, fromIndex, toIndex);
    var r := Renumbered(m);
    MovedAt(lessons, fromIndex, toIndex, 0);
    MovedPlacesLesson(lessons, fromIndex, toIndex);
    assert Content(r[Target(|lessons|, toIndex)]) == Contents(r)[Target(|lessons|, toIndex)];
    ContentsOfMoved(lessons, fromIndex, toIndex);
    MovedIsPermutation(Contents(lessons), fromIndex, toIndex);
  }
}
