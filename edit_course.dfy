/** The course editor page (EditCourse.tsx): loading a course and its
    lessons into the form, and saving it back as three ordered writes —
    update the course row, delete the course's lessons, insert the edited
    lessons — each of which may fail and stop the rest. */
module EditCourse {
  import opened Common
  import opened Schema
  import opened CourseForm
  import LessonOrder
  import Text
  import LM = LessonManager

  /** `Math.floor(seconds / 60)`: stored seconds shown as whole minutes.
      Dafny's `/` by a positive divisor rounds down, as `Math.floor` does. */
  function ToMinutes(seconds: int): (r: int)
    ensures r * 60 <= seconds < r * 60 + 60
  {
    seconds / 60
  }

  /** `minutes * 60`: minutes in the form written back as seconds. */
  function ToSeconds(minutes: int): int {
    minutes * 60
  }

  /** Minutes survive a save and a reload. */
  lemma MinutesRoundTrip(minutes: int)
    ensures ToMinutes(ToSeconds(minutes)) == minutes
  {
    var r := ToMinutes(minutes * 60);
    assert (r - minutes) * 60 <= 0 < (r - minutes) * 60 + 60;
  }

  /** Seconds loaded and saved again lose the partial minute only. */
  lemma SecondsRoundTrip(seconds: int)
    ensures ToSeconds(ToMinutes(seconds)) <= seconds < ToSeconds(ToMinutes(seconds)) + 60
    ensures ToSeconds(ToMinutes(seconds)) == seconds <==> seconds % 60 == 0
  {
  }

  /** A fetched lesson as the form holds it: `{ ...lesson, duration: minutes }`. */
  function FormLesson(row: LessonRow): (r: LM.Lesson)
    ensures r.id == Some(row.id) && r.title == row.title && r.video_url == row.video_url
    ensures r.duration * 60 <= row.duration < r.duration * 60 + 60
    ensures r.order_index == row.order_index
  {
    LM.Lesson(Some(row.id), row.title, row.video_url, ToMinutes(row.duration), row.order_index)
  }

  function FormLessons(rows: seq<LessonRow>): (r: seq<LM.Lesson>)
    ensures |r| == |rows|
    ensures forall i :: 0 <= i < |rows| ==> r[i] == FormLesson(rows[i])
  {
    seq(|rows|, i requires 0 <= i < |rows| => FormLesson(rows[i]))
  }

  /** `{ course_id: id, title, video_url, duration: minutes * 60, order_index }`. */
  function SavedRow(id: string, l: LM.Lesson): LessonRecord {
    LessonRecord(id, l.title, l.video_url, ToSeconds(l.duration), l.order_index)
  }

  function SavedRows(id: string, lessons: seq<LM.Lesson>): (r: seq<LessonRecord>)
    ensures |r| == |lessons|
    ensures forall i :: 0 <= i < |r| ==>
      && r[i].course_id == id && r[i].title == lessons[i].title
      && r[i].video_url == lessons[i].video_url
      && r[i].duration == lessons[i].duration * 60
      && r[i].order_index == lessons[i].order_index
  {
    seq(|lessons|, i requires 0 <= i < |lessons| => SavedRow(id, lessons[i]))
  }

  /** The columns of a fetched lesson that the editor writes. */
  function Record(row: LessonRow): LessonRecord {
    LessonRecord(row.course_id, row.title, row.video_url, row.duration, row.order_index)
  }

  /** Loading a course's lessons and saving them unedited writes the same
      rows back, provided every duration is a whole number of minutes. */
  lemma LoadedLessonsSaveBack(id: string, rows: seq<LessonRow>)
    requires forall i :: 0 <= i < |rows| ==> rows[i].course_id == id && rows[i].duration % 60 == 0
    ensures SavedRows(id, FormLessons(rows)) == seq(|rows|, i requires 0 <= i < |rows| => Record(rows[i]))
  {
    forall i | 0 <= i < |rows|
      ensures SavedRows(id, FormLessons(rows))[i] == Record(rows[i])
    {
      SecondsRoundTrip(rows[i].duration);
    }
  }

  /** `setFormData({...})` from a fetched course: nullable text columns
      load as '', a missing price as '0', a missing list as `['']` (an
      empty list is kept: `[]` is not falsy). */
  function LoadedForm(c: CourseRow): (r: Form)
    ensures r.title == c.title && r.level == c.level
    ensures r.description == c.description.GetOr("") && r.category == c.category.GetOr("")
    ensures r.thumbnail_url == c.thumbnail_url.GetOr("")
    ensures c.price.None? ==> r.price == "0"
    ensures c.price.Some? ==> r.price != "" && (r.price[0] == '-' <==> c.price.value < 0)
    ensures c.price.Some? ==> r.price == Text.IntToString(c.price.value)
    ensures c.what_you_will_learn.None? ==> r.what_you_will_learn == [""]
    ensures c.what_you_will_learn.Some? ==> r.what_you_will_learn == c.what_you_will_learn.value
    ensures c.requirements.None? ==> r.requirements == [""]
    ensures c.requirements.Some? ==> r.requirements == c.requirements.value
  {
    Form(
      c.title,
      c.description.GetOr(""),
      c.category.GetOr(""),
      if c.price.Some? then Text.IntToString(c.price.value) else "0",
      c.level,
      c.what_you_will_learn.GetOr([""]),
      c.requirements.GetOr([""]),
      c.thumbnail_url.GetOr(""))
  }

  /** The course row after `update(courseData)`: the form's fields, the
      blank list entries dropped, the given price and time stamp. The id,
      the owner and the publication status are not written. */
  function UpdatedCourse(c: CourseRow, form: Form, price: int, now: string): CourseRow {
    c.(title := form.title,
       description := Some(form.description),
       category := Some(form.category),
       price := Some(price),
       level := form.level,
       what_you_will_learn := Some(NonBlank(form.what_you_will_learn)),
       requirements := Some(NonBlank(form.requirements)),
       thumbnail_url := Some(form.thumbnail_url),
       updated_at := Some(now))
  }

  /** `.from('courses').update(courseData).eq('id', id)`. */
  function UpdateCourses(db: Tables, id: string, form: Form, price: int, now: string): (r: Tables)
    ensures r.lessons == db.lessons && r.enrollments == db.enrollments
    ensures |r.courses| == |db.courses|
    ensures forall i :: 0 <= i < |db.courses| && db.courses[i].id != id ==> r.courses[i] == db.courses[i]
    ensures forall i :: 0 <= i < |db.courses| && db.courses[i].id == id ==>
      r.courses[i] == UpdatedCourse(db.courses[i], form, price, now)
  {
    db.(courses := seq(|db.courses|, i requires 0 <= i < |db.courses| =>
      if db.courses[i].id == id then UpdatedCourse(db.courses[i], form, price, now) else db.courses[i]))
  }

  /** A saved course keeps its id, its owner and whether it is published;
      its text fields, level and thumbnail are the form's, its price the
      parsed one and its `updated_at` the save time; its lists hold exactly
      the non-blank entries of the form, each as often as entered and in
      the order entered. */
  lemma UpdateKeepsOwnerAndStatus(c: CourseRow, form: Form, price: int, now: string)
    ensures var u := UpdatedCourse(c, form, price, now);
      && u.id == c.id && u.instructor_id == c.instructor_id && u.is_published == c.is_published
      && u.title == form.title && u.description == Some(form.description)
      && u.category == Some(form.category) && u.level == form.level
      && u.price == Some(price) && u.thumbnail_url == Some(form.thumbnail_url) && u.updated_at == Some(now)
      && u.what_you_will_learn == Some(NonBlank(form.what_you_will_learn))
      && u.requirements == Some(NonBlank(form.requirements))
      && (forall x :: x in u.what_you_will_learn.value <==> x in form.what_you_will_learn && !Text.IsBlank(x))
      && (forall x :: x in u.requirements.value <==> x in form.requirements && !Text.IsBlank(x))
      && (forall x :: multiset(u.what_you_will_learn.value)[x]
            == if Text.IsBlank(x) then 0 else multiset(form.what_you_will_learn)[x])
      && (forall x :: multiset(u.requirements.value)[x]
            == if Text.IsBlank(x) then 0 else multiset(form.requirements)[x])
      && IsSubsequence(u.what_you_will_learn.value, form.what_you_will_learn)
      && IsSubsequence(u.requirements.value, form.requirements)
  {
    NonBlankKeepsFilledEntries(form.what_you_will_learn);
    NonBlankKeepsFilledEntries(form.requirements);
  }

  /** `.from('lessons').delete().eq('course_id', id)`. */
  function DeleteLessons(db: Tables, id: string): (r: Tables)
    ensures r.courses == db.courses && r.enrollments == db.enrollments
    ensures forall l :: l in r.lessons <==> l in db.lessons && l.course_id != id
  {
    db.(lessons := Filter(db.lessons, (l: LessonRecord) => l.course_id != id))
  }

  /** `.from('lessons').insert(lessonsData)`. */
  function InsertLessons(db: Tables, rows: seq<LessonRecord>): (r: Tables)
    ensures r.courses == db.courses && r.enrollments == db.enrollments
    ensures |r.lessons| == |db.lessons| + |rows| && r.lessons[..|db.lessons|] == db.lessons
    ensures r.lessons[|db.lessons|..] == rows
  {
    db.(lessons := db.lessons + rows)
  }

  /** After the delete and the insert the course has exactly the edited
      lessons, in the editor's order. */
  lemma SaveReplacesLessons(db: Tables, id: string, lessons: seq<LM.Lesson>)
    ensures LessonsOf(InsertLessons(DeleteLessons(db, id), SavedRows(id, lessons)), id) == SavedRows(id, lessons)
  {
    var p := (l: LessonRecord) => l.course_id == id;
    var q := (l: LessonRecord) => l.course_id != id;
    var kept := Filter(db.lessons, q);
    var rows := SavedRows(id, lessons);
    FilterAppend(kept, rows, p);
    assert forall x :: x in kept ==> !p(x);
    FilterNone(kept, p);
    FilterAll(rows, p);
  }

  /** The save leaves the lessons of every other course as they were. */
  lemma SaveKeepsOtherLessons(db: Tables, id: string, lessons: seq<LM.Lesson>, other: string)
    requires other != id
    ensures LessonsOf(InsertLessons(DeleteLessons(db, id), SavedRows(id, lessons)), other) == LessonsOf(db, other)
  {
    var p := (l: LessonRecord) => l.course_id == other;
    var q := (l: LessonRecord) => l.course_id != id;
    var kept := Filter(db.lessons, q);
    var rows := SavedRows(id, lessons);
    FilterAppend(kept, rows, p);
    FilterFilter(db.lessons, q, p);
    FilterNone(rows, p);
  }

  /** With no lessons the insert step is skipped; the course is then left
      without lessons. */
  lemma DeleteLeavesNoLessons(db: Tables, id: string)
    ensures LessonsOf(DeleteLessons(db, id), id) == []
  {
    var p := (l: LessonRecord) => l.course_id == id;
    var kept := Filter(db.lessons, (l: LessonRecord) => l.course_id != id);
    assert forall x :: x in kept ==> !p(x);
    FilterNone(kept, p);
  }

  /** The write that stopped the save. */
  datatype Step = UpdateCourse | DeleteLessonsStep | InsertLessonsStep
  datatype SaveOutcome = NotSubmitted | Saved | Failed(step: Step)

  /** A course and the lessons embedded in the reply (`lessons(*)`). */
  datatype CourseWithLessons = CourseWithLessons(course: CourseRow, lessons: Option<seq<LessonRow>>)

  const FetchFailed := Notice("Error", "Failed to fetch course details", true)
  const UpdateSucceeded := Notice("Success", "Course updated successfully!", false)
  const UpdateFailed := Notice("Error", "Failed to update course", true)

  class EditCourse {
    /** The route parameter `id`. */
    const id: Option<string>

    var form: Form
    var lessons: seq<LM.Lesson>
    var loading: bool
    var navigatedTo: Option<string>
    var notices: seq<Notice>

    constructor (id: Option<string>)
      ensures this.id == id && form == InitialForm && lessons == []
      ensures !loading && navigatedTo == None && notices == []
    {
      this.id := id;
      form := InitialForm;
      lessons := [];
      loading := false;
      navigatedTo := None;
      notices := [];
    }

    /** The mount effect: `fetchCourse()` when the route has an id. The
        form is loaded from the course; the lessons, when the reply has
        them, are sorted by `order_index` and their durations shown in
        minutes. A failed fetch only adds an error notice. */
    method FetchCourse(reply: Option<CourseWithLessons>)
      modifies this
      ensures loading == old(loading) && navigatedTo == old(navigatedTo)
      ensures id.None? ==> form == old(form) && lessons == old(lessons) && notices == old(notices)
      ensures id.Some? && reply.None? ==>
        form == old(form) && lessons == old(lessons) && notices == old(notices) + [FetchFailed]
      ensures id.Some? && reply.Some? ==> form == LoadedForm(reply.value.course) && notices == old(notices)
      ensures id.Some? && reply.Some? && reply.value.lessons.None? ==> lessons == old(lessons)
      ensures id.Some? && reply.Some? && reply.value.lessons.Some? ==>
        exists sorted ::
          && LessonOrder.SortedByOrder(sorted)
          && multiset(sorted) == multiset(reply.value.lessons.value)
          && lessons == FormLessons(sorted)
    {
      if id.None? {
        return;
      }
      if reply.None? {
        notices := notices + [FetchFailed];
        return;
      }
      form := LoadedForm(reply.value.course);
      if reply.value.lessons.Some? {
        var sorted := LessonOrder.SortedLessons(reply.value.lessons.value);
        lessons := FormLessons(sorted);
      }
    }

    /** `handleSubmit()` with the backend tables `db`. Without a user or an
        id nothing happens. Otherwise the course row is updated, then the
        course's lessons are deleted, then — when there are any — the
        edited lessons are inserted; a failing write stops the later ones
        and only an error notice is added. The saved price is the parsed
        form price. */
    method HandleSubmit(
      user: Option<string>, db: Tables, price: int, now: string,
      updateOk: bool, deleteOk: bool, insertOk: bool)
      returns (db': Tables, outcome: SaveOutcome)
      modifies this`loading, this`navigatedTo, this`notices
      ensures !loading || (user.None? || id.None?)
      ensures user.None? || id.None? ==>
        && outcome == NotSubmitted && db' == db
        && loading == old(loading) && navigatedTo == old(navigatedTo) && notices == old(notices)
      ensures user.Some? && id.Some? && !updateOk ==>
        outcome == Failed(UpdateCourse) && db' == db
      ensures user.Some? && id.Some? && updateOk && !deleteOk ==>
        outcome == Failed(DeleteLessonsStep) && db' == UpdateCourses(db, id.value, form, price, now)
      ensures user.Some? && id.Some? && updateOk && deleteOk && lessons != [] && !insertOk ==>
        && outcome == Failed(InsertLessonsStep)
        && db' == DeleteLessons(UpdateCourses(db, id.value, form, price, now), id.value)
      ensures user.Some? && id.Some? && updateOk && deleteOk && (lessons == [] || insertOk) ==>
        && outcome == Saved
        && db' == InsertLessons(DeleteLessons(UpdateCourses(db, id.value, form, price, now), id.value),
                                SavedRows(id.value, lessons))
      ensures outcome.Saved? ==>
        && LessonsOf(db', id.value) == SavedRows(id.value, lessons)
        && (forall other :: other != id.value ==> LessonsOf(db', other) == LessonsOf(db, other))
        && navigatedTo == Some("/teacher/dashboard") && notices == old(notices) + [UpdateSucceeded]
      ensures outcome == Failed(InsertLessonsStep) ==> LessonsOf(db', id.value) == []
      ensures outcome.Failed? ==> navigatedTo == old(navigatedTo) && notices == old(notices) + [UpdateFailed]
    {
      db' := db;
      outcome := NotSubmitted;
      if user.None? || id.None? {
        return;
      }
      var courseId := id.value;
      loading := true;
      if !updateOk {
        outcome := Failed(UpdateCourse);
      } else {
        db' := UpdateCourses(db', courseId, form, price, now);
        if !deleteOk {
          outcome := Failed(DeleteLessonsStep);
        } else {
          db' := DeleteLessons(db', courseId);
          if lessons != [] && !insertOk {
            DeleteLeavesNoLessons(UpdateCourses(db, courseId, form, price, now), courseId);
            outcome := Failed(InsertLessonsStep);
          } else {
            if lessons != [] {
              db' := InsertLessons(db', SavedRows(courseId, lessons));
            } else {
              assert db' == InsertLessons(db', SavedRows(courseId, lessons));
            }
            outcome := Saved;
          }
        }
      }
      if outcome.Saved? {
        var updated := UpdateCourses(db, courseId, form, price, now);
        SaveReplacesLessons(updated, courseId, lessons);
        forall other | other != courseId
          ensures LessonsOf(db', other) == LessonsOf(db, other)
        {
          SaveKeepsOtherLessons(updated, courseId, lessons, other);
        }
        notices := notices + [UpdateSucceeded];
        navigatedTo := Some("/teacher/dashboard");
      } else {
        notices := notices + [UpdateFailed];
      }
      loading := false;
    }

    /** `handleArrayChange(index, value, field)`. */
    method HandleArrayChange(index: nat, value: string, field: ListField)
      requires index < |Items(form, field)|
      modifies this`form
      ensures form == ArrayChanged(old(form), index, value, field)
    {
      var items := AssignInCopy(Items(form, field), index, value);
      form := WithItems(form, field, items);
    }

    /** `addArrayItem(field)`. */
    method AddArrayItem(field: ListField)
      modifies this`form
      ensures form == ArrayItemAdded(old(form), field)
    {
      form := WithItems(form, field, AddItem(Items(form, field)));
    }

    /** `removeArrayItem(index, field)`. */
    method RemoveArrayItem(index: int, field: ListField)
      modifies this`form
      ensures form == ArrayItemRemoved(old(form), index, field)
    {
      form := WithItems(form, field, RemoveAt(Items(form, field), index));
    }
  }
}
