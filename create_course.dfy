/** The course creation page (CreateCourse.tsx): the form starts from the
    shared initial state and a submit inserts one unpublished course owned
    by the signed-in user. */
module CreateCourse {
  import opened Common
  import opened Schema
  import opened CourseForm
  import Text

  /** The inserted row. The create form has no thumbnail and sends no time
      stamp; `newId` is the id the backend assigns. */
  function NewCourse(newId: string, userId: string, form: Form, price: int): (r: CourseRow)
    ensures r.id == newId && r.instructor_id == userId && !r.is_published
    ensures r.title == form.title && r.level == form.level && r.price == Some(price)
    ensures r.description == Some(form.description) && r.category == Some(form.category)
    ensures r.thumbnail_url == None && r.updated_at == None
    ensures r.what_you_will_learn == Some(NonBlank(form.what_you_will_learn))
    ensures r.requirements == Some(NonBlank(form.requirements))
    ensures forall x :: x in r.what_you_will_learn.value <==> x in form.what_you_will_learn && !Text.IsBlank(x)
    ensures forall x :: x in r.requirements.value <==> x in form.requirements && !Text.IsBlank(x)
    ensures forall x :: multiset(r.what_you_will_learn.value)[x] == if Text.IsBlank(x) then 0 else multiset(form.what_you_will_learn)[x]
    ensures forall x :: multiset(r.requirements.value)[x] == if Text.IsBlank(x) then 0 else multiset(form.requirements)[x]
    ensures IsSubsequence(r.what_you_will_learn.value, form.what_you_will_learn)
    ensures IsSubsequence(r.requirements.value, form.requirements)
  {
    NonBlankKeepsFilledEntries(form.what_you_will_learn);
    NonBlankKeepsFilledEntries(form.requirements);
    CourseRow(
      newId, userId, form.title,
      Some(form.description), Some(form.category), Some(price), form.level,
      false, None,
      Some(NonBlank(form.what_you_will_learn)), Some(NonBlank(form.requirements)),
      None)
  }

  /** `.from('courses').insert([courseData])`. */
  function InsertCourse(db: Tables, row: CourseRow): (r: Tables)
    ensures r.courses == db.courses + [row] && r.lessons == db.lessons && r.enrollments == db.enrollments
  {
    db.(courses := db.courses + [row])
  }

  /** A created course is added to its owner's courses as a draft: the
      owner has one more course and the same number of published ones, and
      no other instructor's courses change. */
  lemma CreatedCourseIsDraft(db: Tables, newId: string, userId: string, form: Form, price: int, other: string)
    requires other != userId
    ensures var after := InsertCourse(db, NewCourse(newId, userId, form, price));
      && CoursesOf(after, userId) == CoursesOf(db, userId) + [NewCourse(newId, userId, form, price)]
      && Count(CoursesOf(after, userId), (c: CourseRow) => c.is_published)
         == Count(CoursesOf(db, userId), (c: CourseRow) => c.is_published)
      && CoursesOf(after, other) == CoursesOf(db, other)
  {
    var row := NewCourse(newId, userId, form, price);
    var mine := (c: CourseRow) => c.instructor_id == userId;
    var theirs := (c: CourseRow) => c.instructor_id == other;
    var published := (c: CourseRow) => c.is_published;
    FilterAppend(db.courses, [row], mine);
    FilterAppend(db.courses, [row], theirs);
    FilterAppend(CoursesOf(db, userId), [row], published);
  }

  datatype SubmitOutcome = NotSubmitted | Created(row: CourseRow) | Failed

  const CreateSucceeded := Notice("Success", "Course created successfully!", false)
  const CreateFailed := Notice("Error", "Failed to create course", true)

  class CreateCourse {
    var form: Form
    var loading: bool
    var navigatedTo: Option<string>
    var notices: seq<Notice>

    /** The initial state: level 'beginner', one empty entry in each list. */
    constructor ()
      ensures form == InitialForm && form.level == "beginner"
      ensures form.what_you_will_learn == [""] && form.requirements == [""]
      ensures !loading && navigatedTo == None && notices == []
    {
      form := InitialForm;
      loading := false;
      navigatedTo := None;
      notices := [];
    }

    /** `handleSubmit()` with the backend tables `db`. Without a user it
        returns before anything is inserted; otherwise one draft course of
        that user is inserted, or, when the insert fails, the tables stay as
        they were and an error notice is added. */
    method HandleSubmit(user: Option<string>, db: Tables, price: int, newId: string, insertOk: bool)
      returns (db': Tables, outcome: SubmitOutcome)
      modifies this`loading, this`navigatedTo, this`notices
      ensures user.None? ==>
        && outcome == NotSubmitted && db' == db
        && loading == old(loading) && navigatedTo == old(navigatedTo) && notices == old(notices)
      ensures user.Some? ==> !loading
      ensures user.Some? && insertOk ==>
        && outcome == Created(NewCourse(newId, user.value, form, price))
        && db' == InsertCourse(db, outcome.row)
        && navigatedTo == Some("/teacher/dashboard") && notices == old(notices) + [CreateSucceeded]
      ensures user.Some? && !insertOk ==>
        && outcome == Failed && db' == db
        && navigatedTo == old(navigatedTo) && notices == old(notices) + [CreateFailed]
    {
      db' := db;
      outcome := NotSubmitted;
      if user.None? {
        return;
      }
      loading := true;
      var row := NewCourse(newId, user.value, form, price);
      if insertOk {
        db' := InsertCourse(db, row);
        outcome := Created(row);
        notices := notices + [CreateSucceeded];
        navigatedTo := Some("/teacher/dashboard");
      } else {
        outcome := Failed;
        notices := notices + [CreateFailed];
      }
      loading := false;
    }

    /** `handleArrayChange(index, value, field)`. */
    method HandleArrayChange(index: nat, value: string, field: ListField)
      requires index < |Items(form, field)|
      modifies this`form
      ensures form == ArrayChanged(old(form), index, value, field)
    {
      var items := AssignInCopy(Items(form, field), index, value);
      form := WithItems(form, field, items);
    }

    /** `addArrayItem(field)`. */
    method AddArrayItem(field: ListField)
      modifies this`form
      ensures form == ArrayItemAdded(old(form), field)
    {
      form := WithItems(form, field, AddItem(Items(form, field)));
    }

    /** `removeArrayItem(index, field)`. */
    method RemoveArrayItem(index: int, field: ListField)
      modifies this`form
      ensures form == ArrayItemRemoved(old(form), index, field)
    {
      form := WithItems(form, field, RemoveAt(Items(form, field), index));
    }
  }
}
