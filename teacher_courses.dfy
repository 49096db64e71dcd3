/** The instructor dashboard's data hook (useTeacherCourses.ts): the
    instructor's courses, the three summary counts, and the publish toggle
    and delete actions, each of which refetches both on success. */
module TeacherCourses {
  import opened Common
  import opened Schema

  datatype Stats = Stats(totalCourses: nat, publishedCourses: nat, totalEnrollments: nat)

  function Published(c: CourseRow): bool {
    c.is_published
  }

  function CourseIds(courses: seq<CourseRow>): (r: seq<string>)
    ensures |r| == |courses|
    ensures forall i :: 0 <= i < |courses| ==> r[i] == courses[i].id
  {
    seq(|courses|, i requires 0 <= i < |courses| => courses[i].id)
  }

  /** The stats from the two replies (`None`: no data came back). Without
      course data the id list is empty; without enrollment data the count
      is 0. */
  function ComputeStats(coursesData: Option<seq<CourseRow>>, enrollmentsData: Option<seq<EnrollmentRow>>): (r: Stats)
    ensures r.publishedCourses <= r.totalCourses
    ensures coursesData.None? ==> r.totalCourses == 0 && r.publishedCourses == 0
    ensures coursesData.Some? ==> r.totalCourses == |coursesData.value|
    ensures coursesData.Some? ==> r.publishedCourses == Count(coursesData.value, Published)
    ensures enrollmentsData.None? ==> r.totalEnrollments == 0
    ensures enrollmentsData.Some? ==> r.totalEnrollments == |enrollmentsData.value|
  {
    if coursesData.None? then Stats(0, 0, |enrollmentsData.GetOr([])|)
    else Stats(|coursesData.value|, Count(coursesData.value, Published), |enrollmentsData.GetOr([])|)
  }

  /** The enrollments whose course is one of `ids`
      (`.from('enrollments').in('course_id', ids)`). */
  function EnrollmentsIn(db: Tables, ids: seq<string>): (r: seq<EnrollmentRow>)
    ensures forall e :: e in r <==> e in db.enrollments && e.course_id in ids
  {
    Filter(db.enrollments, (e: EnrollmentRow) => e.course_id in ids)
  }

  /** An empty id list selects no enrollment. */
  lemma NoIdsNoEnrollments(db: Tables)
    ensures EnrollmentsIn(db, []) == []
  {
    FilterNone(db.enrollments, (e: EnrollmentRow) => e.course_id in []);
  }

  /** What `fetchStats` computes for `instructorId` from the tables when
      the first read does (`coursesOk`) or does not return data, and the
      second read likewise. */
  function StatsOf(db: Tables, instructorId: string, coursesOk: bool, enrollmentsOk: bool): (r: Stats)
    ensures r.publishedCourses <= r.totalCourses
    ensures !coursesOk ==> r == Stats(0, 0, 0)
    ensures coursesOk ==> r.totalCourses == |CoursesOf(db, instructorId)|
    ensures coursesOk ==> r.publishedCourses == Count(CoursesOf(db, instructorId), Published)
    ensures !enrollmentsOk ==> r.totalEnrollments == 0
    ensures coursesOk && enrollmentsOk ==>
      r.totalEnrollments == |EnrollmentsIn(db, CourseIds(CoursesOf(db, instructorId)))|
  {
    var coursesData := if coursesOk then Some(CoursesOf(db, instructorId)) else None;
    var courseIds := if coursesData.Some? then CourseIds(coursesData.value) else [];
    var enrollmentsData := if enrollmentsOk then Some(EnrollmentsIn(db, courseIds)) else None;
    NoIdsNoEnrollments(db);
    ComputeStats(coursesData, enrollmentsData)
  }

  /** A new enrollment in one of the instructor's courses raises the
      enrollment count by one; one in another instructor's course leaves
      it as it was. */
  lemma EnrollmentCounted(db: Tables, instructorId: string, e: EnrollmentRow)
    ensures var ids := CourseIds(CoursesOf(db, instructorId));
      var db' := db.(enrollments := db.enrollments + [e]);
      StatsOf(db', instructorId, true, true).totalEnrollments
        == StatsOf(db, instructorId, true, true).totalEnrollments + (if e.course_id in ids then 1 else 0)
  {
    var ids := CourseIds(CoursesOf(db, instructorId));
    var db' := db.(enrollments := db.enrollments + [e]);
    assert CoursesOf(db', instructorId) == CoursesOf(db, instructorId);
    FilterAppend(db.enrollments, [e], (x: EnrollmentRow) => x.course_id in ids);
  }

  /** `.update({ is_published: status }).eq('id', courseId)`: only the
      course's publication flag changes. */
  function SetPublished(db: Tables, courseId: string, status: bool): (r: Tables)
    ensures r.lessons == db.lessons && r.enrollments == db.enrollments
    ensures |r.courses| == |db.courses|
    ensures forall i :: 0 <= i < |db.courses| ==>
      r.courses[i] == if db.courses[i].id == courseId then db.courses[i].(is_published := status) else db.courses[i]
  {
    db.(courses := seq(|db.courses|, i requires 0 <= i < |db.courses| =>
      if db.courses[i].id == courseId then db.courses[i].(is_published := status) else db.courses[i]))
  }

  /** Toggling a course and toggling it back restores the tables. */
  lemma ToggleTwiceRestores(db: Tables, courseId: string, currentStatus: bool)
    requires forall c :: c in db.courses && c.id == courseId ==> c.is_published == currentStatus
    ensures SetPublished(SetPublished(db, courseId, !currentStatus), courseId, !!currentStatus) == db
  {
    var r := SetPublished(SetPublished(db, courseId, !currentStatus), courseId, currentStatus);
    forall i | 0 <= i < |db.courses| ensures r.courses[i] == db.courses[i] {
      assert db.courses[i] in db.courses;
    }
  }

  /** A toggle keeps every instructor's number of courses. */
  lemma ToggleKeepsCourseCount(db: Tables, courseId: string, status: bool, instructorId: string)
    ensures |CoursesOf(SetPublished(db, courseId, status), instructorId)| == |CoursesOf(db, instructorId)|
  {
    CountPointwise(SetPublished(db, courseId, status).courses, db.courses,
      (c: CourseRow) => c.instructor_id == instructorId);
  }

  /** `.delete().eq('id', courseId)` on the courses table. */
  function DeleteCourse(db: Tables, courseId: string): (r: Tables)
    ensures r.lessons == db.lessons && r.enrollments == db.enrollments
    ensures forall c :: c in r.courses <==> c in db.courses && c.id != courseId
  {
    db.(courses := Filter(db.courses, (c: CourseRow) => c.id != courseId))
  }

  /** The success message of the toggle, naming the new status. */
  function ToggleMessage(newStatus: bool): (r: string)
    ensures r == "Course published successfully" <==> newStatus
    ensures r == "Course unpublished successfully" <==> !newStatus
  {
    "Course " + (if newStatus then "published" else "unpublished") + " successfully"
  }

  const FetchCoursesFailed := Notice("Error", "Failed to fetch courses", true)
  const DeleteSucceeded := Notice("Success", "Course deleted successfully", false)
  const DeleteFailed := Notice("Error", "Failed to delete course", true)
  const ToggleFailed := Notice("Error", "Failed to update course status", true)

  class TeacherCourses {
    /** The signed-in instructor, if any. */
    const user: Option<string>

    var courses: seq<CourseRow>
    var stats: Stats
    var loading: bool
    var notices: seq<Notice>

    constructor (user: Option<string>)
      ensures this.user == user && courses == [] && stats == Stats(0, 0, 0)
      ensures loading && notices == []
    {
      this.user := user;
      courses := [];
      stats := Stats(0, 0, 0);
      loading := true;
      notices := [];
    }

    /** `fetchCourses()`: the instructor's courses, or an error notice. */
    method FetchCourses(db: Tables, ok: bool)
      modifies this`courses, this`loading, this`notices
      ensures user.None? ==> courses == old(courses) && loading == old(loading) && notices == old(notices)
      ensures user.Some? ==> !loading
      ensures user.Some? && ok ==> courses == CoursesOf(db, user.value) && notices == old(notices)
      ensures user.Some? && !ok ==> courses == old(courses) && notices == old(notices) + [FetchCoursesFailed]
    {
      if user.None? {
        return;
      }
      if ok {
        courses := CoursesOf(db, user.value);
      } else {
        notices := notices + [FetchCoursesFailed];
      }
      loading := false;
    }

    /** `fetchStats()`; its errors are only logged. */
    method FetchStats(db: Tables, coursesOk: bool, enrollmentsOk: bool)
      modifies this`stats
      ensures user.None? ==> stats == old(stats)
      ensures user.Some? ==> stats == StatsOf(db, user.value, coursesOk, enrollmentsOk)
      ensures stats.publishedCourses <= stats.totalCourses || stats == old(stats)
    {
      if user.None? {
        return;
      }
      stats := StatsOf(db, user.value, coursesOk, enrollmentsOk);
    }

    /** `handleTogglePublish(courseId, currentStatus)`: writes the negated
        status to that course; on success reports the new status and
        refetches, on failure only reports the error. */
    method HandleTogglePublish(db: Tables, courseId: string, currentStatus: bool, updateOk: bool)
      returns (db': Tables)
      modifies this`courses, this`stats, this`loading, this`notices
      ensures !updateOk ==>
        && db' == db && courses == old(courses) && stats == old(stats) && loading == old(loading)
        && notices == old(notices) + [ToggleFailed]
      ensures updateOk ==> db' == SetPublished(db, courseId, !currentStatus)
      ensures updateOk ==> notices == old(notices) + [Notice("Success", ToggleMessage(!currentStatus), false)]
      ensures updateOk && user.None? ==>
        courses == old(courses) && stats == old(stats) && loading == old(loading)
      ensures updateOk && user.Some? ==>
        && courses == CoursesOf(db', user.value) && stats == StatsOf(db', user.value, true, true)
        && !loading
    {
      if !updateOk {
        db' := db;
        notices := notices + [ToggleFailed];
        return;
      }
      db' := SetPublished(db, courseId, !currentStatus);
      notices := notices + [Notice("Success", ToggleMessage(!currentStatus), false)];
      FetchCourses(db', true);
      FetchStats(db', true, true);
    }

    /** `handleDeleteCourse(courseId)`: nothing without the user's
        confirmation; otherwise the course row is deleted and, on success,
        both lists are refetched. */
    method HandleDeleteCourse(db: Tables, courseId: string, confirmed: bool, deleteOk: bool)
      returns (db': Tables)
      modifies this`courses, this`stats, this`loading, this`notices
      ensures !confirmed ==>
        db' == db && courses == old(courses) && stats == old(stats) && loading == old(loading) && notices == old(notices)
      ensures confirmed && !deleteOk ==>
        && db' == db && courses == old(courses) && stats == old(stats) && loading == old(loading)
        && notices == old(notices) + [DeleteFailed]
      ensures confirmed && deleteOk ==>
        && db' == DeleteCourse(db, courseId)
        && notices == old(notices) + [DeleteSucceeded]
      ensures confirmed && deleteOk && user.None? ==>
        courses == old(courses) && stats == old(stats) && loading == old(loading)
      ensures confirmed && deleteOk && user.Some? ==>
        && courses == CoursesOf(db', user.value) && stats == StatsOf(db', user.value, true, true)
        && !loading && (forall c :: c in courses ==> c.id != courseId)
    {
      db' := db;
      if !confirmed {
        return;
      }
      if !deleteOk {
        notices := notices + [DeleteFailed];
        return;
      }
      db' := DeleteCourse(db, courseId);
      notices := notices + [DeleteSucceeded];
      FetchCourses(db', true);
      FetchStats(db', true, true);
    }
  }
}
