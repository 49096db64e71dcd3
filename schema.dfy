/** Rows of the hosted backend's tables, with the column names the pages
    actually read and write (`user_id` on enrollments and certificates,
    `course_id` on lessons), and the in-memory table store that the write
    paths of the editor and of the instructor dashboard act on. Generated
    identifiers and timestamps the backend fills in are not modelled. */
module Schema {
  import opened Common

  /** A `courses` row. Nullable columns are `Option`s. */
  datatype CourseRow = CourseRow(
    id: string,
    instructor_id: string,
    title: string,
    description: Option<string>,
    category: Option<string>,
    price: Option<int>,
    level: string,
    is_published: bool,
    thumbnail_url: Option<string>,
    what_you_will_learn: Option<seq<string>>,
    requirements: Option<seq<string>>,
    updated_at: Option<string>)

  /** A `lessons` row as it is read back (with its generated id).
      `duration` is in seconds. */
  datatype LessonRow = LessonRow(
    id: string,
    course_id: string,
    title: string,
    video_url: string,
    duration: int,
    order_index: int)

  /** The columns the course editor writes for a lesson. */
  datatype LessonRecord = LessonRecord(
    course_id: string,
    title: string,
    video_url: string,
    duration: int,
    order_index: int)

  datatype EnrollmentRow = EnrollmentRow(id: string, user_id: string, course_id: string)

  /** The only column of `lesson_progress` the course viewer selects. */
  datatype ProgressEntry = ProgressEntry(lesson_id: string)

  datatype CertificateRow = CertificateRow(
    id: string,
    user_id: string,
    course_id: string,
    certificate_url: string)

  /** The tables the write paths touch. */
  datatype Tables = Tables(
    courses: seq<CourseRow>,
    lessons: seq<LessonRecord>,
    enrollments: seq<EnrollmentRow>)

  /** `.from('lessons').select().eq('course_id', courseId)`. */
  function LessonsOf(db: Tables, courseId: string): seq<LessonRecord> {
    Filter(db.lessons, (l: LessonRecord) => l.course_id == courseId)
  }

  /** `.from('courses').select().eq('instructor_id', instructorId)`. */
  function CoursesOf(db: Tables, instructorId: string): seq<CourseRow> {
    Filter(db.courses, (c: CourseRow) => c.instructor_id == instructorId)
  }
}
