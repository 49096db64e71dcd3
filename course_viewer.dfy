/** The course viewer page (CourseViewer.tsx) as a state machine over the
    component state: the fetched course, its lessons in display order, the
    current lesson, the learner's progress entries and the certificate.
    Each remote call is replaced by its reply, given as a parameter: `None`
    where the backend answered with an error (or no data). */
module CourseViewer {
  import opened Common
  import opened Schema
  import LessonOrder
  import Text

  /** The reply to `select('*, lessons(*), enrollments(*)').eq('id', id).single()`. */
  datatype CourseDetails = CourseDetails(
    course: CourseRow,
    lessons: seq<LessonRow>,
    enrollments: seq<EnrollmentRow>)

  /** The `certificates` row the page asks the backend to insert. */
  datatype CertificateInsert = CertificateInsert(
    user_id: string,
    course_id: string,
    certificate_url: string)

  /** The enrollment gate: `enrollments.some(e => e.user_id === user.id)`. */
  function IsEnrolled(enrollments: seq<EnrollmentRow>, userId: string): (r: bool)
    ensures r <==> exists i :: 0 <= i < |enrollments| && enrollments[i].user_id == userId
  {
    Any(enrollments, (e: EnrollmentRow) => e.user_id == userId)
  }

  /** `isLessonComplete(lessonId)`: some progress entry names the lesson. */
  function IsLessonComplete(progress: seq<ProgressEntry>, lessonId: string): (r: bool)
    ensures r <==> exists i :: 0 <= i < |progress| && progress[i].lesson_id == lessonId
  {
    Any(progress, (p: ProgressEntry) => p.lesson_id == lessonId)
  }

  /** `getProgressPercentage()` in exact arithmetic: 0 with no lessons,
      otherwise the completed share of the lessons, in percent. */
  function ProgressPercentage(lessonCount: nat, progressCount: nat): (r: real)
    ensures lessonCount == 0 ==> r == 0.0
    ensures lessonCount > 0 ==> r * lessonCount as real == 100.0 * progressCount as real
    ensures lessonCount > 0 && progressCount == lessonCount ==> r == 100.0
    ensures progressCount <= lessonCount ==> 0.0 <= r <= 100.0
  {
    if lessonCount > 0 then (progressCount as real / lessonCount as real) * 100.0 else 0.0
  }

  /** One more completed lesson never lowers the percentage. */
  lemma PercentageMonotone(lessonCount: nat, progressCount: nat)
    ensures ProgressPercentage(lessonCount, progressCount) <= ProgressPercentage(lessonCount, progressCount + 1)
  {
    if lessonCount > 0 {
      var n := lessonCount as real;
      assert ProgressPercentage(lessonCount, progressCount) * n
          <= ProgressPercentage(lessonCount, progressCount + 1) * n;
    }
  }

  /** The URL stored in a certificate: `${origin}/certificate/${id}/${user.id}`. */
  function CertificateUrl(origin: string, courseId: string, userId: string): string {
    origin + "/certificate/" + courseId + "/" + userId
  }

  /** For ids without '/', the certificate URL determines the course and the
      user: two different (course, user) pairs never share a URL. */
  lemma CertificateUrlDeterminesIds(origin: string, c1: string, u1: string, c2: string, u2: string)
    requires '/' !in c1 && '/' !in c2
    requires CertificateUrl(origin, c1, u1) == CertificateUrl(origin, c2, u2)
    ensures c1 == c2 && u1 == u2
  {
    var prefix := origin + "/certificate/";
    assert CertificateUrl(origin, c1, u1) == prefix + (c1 + ['/'] + u1);
    assert CertificateUrl(origin, c2, u2) == prefix + (c2 + ['/'] + u2);
    assert c1 + ['/'] + u1 == (prefix + (c1 + ['/'] + u1))[|prefix|..];
    assert c2 + ['/'] + u2 == (prefix + (c2 + ['/'] + u2))[|prefix|..];
    Text.SplitAtSeparator(c1, u1, c2, u2, '/');
  }

  /** `completedCount === lessons.length && !certificate`, where the count is
      the progress length before the append plus one. */
  predicate ShouldIssueCertificate(progressBefore: nat, lessonCount: nat, holdsCertificate: bool) {
    progressBefore + 1 == lessonCount && !holdsCertificate
  }

  /** A course without lessons never triggers a certificate: the issuance
      test counts the lesson being completed, so it needs at least one. */
  lemma NoCertificateWithoutLessons(progressBefore: nat, holdsCertificate: bool)
    ensures !ShouldIssueCertificate(progressBefore, 0, holdsCertificate)
  {
  }

  function LessonIds(lessons: seq<LessonRow>): (r: seq<string>)
    ensures |r| == |lessons|
    ensures forall i :: 0 <= i < |lessons| ==> r[i] == lessons[i].id
  {
    seq(|lessons|, i requires 0 <= i < |lessons| => lessons[i].id)
  }

  function ProgressIds(progress: seq<ProgressEntry>): (r: seq<string>)
    ensures |r| == |progress|
    ensures forall i :: 0 <= i < |progress| ==> r[i] == progress[i].lesson_id
  {
    seq(|progress|, i requires 0 <= i < |progress| => progress[i].lesson_id)
  }

  /** When the progress entries name distinct lessons of the course, and the
      count test fires on marking a lesson of the course that was not yet
      complete, then after the append every lesson of the course is complete:
      the certificate is requested only for a fully completed course. */
  lemma CertificateOnlyWhenAllComplete(lessons: seq<LessonRow>, progress: seq<ProgressEntry>, lessonId: string)
    requires Distinct(LessonIds(lessons))
    requires Distinct(ProgressIds(progress))
    requires forall i :: 0 <= i < |progress| ==> progress[i].lesson_id in LessonIds(lessons)
    requires lessonId in LessonIds(lessons) && !IsLessonComplete(progress, lessonId)
    requires ShouldIssueCertificate(|progress|, |lessons|, false)
    ensures forall l :: l in lessons ==> IsLessonComplete(progress + [ProgressEntry(lessonId)], l.id)
  {
    var after := progress + [ProgressEntry(lessonId)];
    var done := ProgressIds(after);
    assert ProgressIds(progress) + [lessonId] == done;
    forall i, j | 0 <= i < j < |done| ensures done[i] != done[j] {
      if j == |done| - 1 {
        assert after[i] == progress[i];
      }
    }
    forall x | x in done ensures x in LessonIds(lessons) {
      var i :| 0 <= i < |done| && done[i] == x;
      if i < |progress| {
        assert after[i] == progress[i];
      }
    }
    CoversAll(done, LessonIds(lessons));
    forall l | l in lessons ensures IsLessonComplete(after, l.id) {
      var k :| 0 <= k < |lessons| && lessons[k] == l;
      assert LessonIds(lessons)[k] == l.id;
      assert l.id in LessonIds(lessons);
      assert l.id in done;
      var i :| 0 <= i < |done| && done[i] == l.id;
      assert after[i].lesson_id == l.id;
    }
  }

  /** The stages of a learner's progress through a course: not started,
      some lessons complete, every lesson complete without a certificate,
      certified. The page keeps no such value; `StageOf` reads the stage
      off its state (the progress count, the lesson count, a certificate
      held). */
  datatype Stage = NotStarted | InProgress | CompleteUncertified | Certified

  function StageOf(completed: nat, lessonCount: nat, certified: bool): Stage {
    if certified then Certified
    else if completed == 0 then NotStarted
    else if completed >= lessonCount then CompleteUncertified
    else InProgress
  }

  function Rank(s: Stage): nat {
    match s
    case NotStarted => 0
    case InProgress => 1
    case CompleteUncertified => 2
    case Certified => 3
  }

  /** Completing one more lesson, or gaining a certificate, never moves the
      learner back to an earlier stage. */
  lemma StageNeverRegresses(completed: nat, lessonCount: nat, certified: bool, completed': nat, certified': bool)
    requires completed <= completed' && (certified ==> certified')
    ensures Rank(StageOf(completed, lessonCount, certified)) <= Rank(StageOf(completed', lessonCount, certified'))
  {
  }

  const FetchFailed := Notice("Error", "Failed to fetch course data", true)
  const LessonCompleted := Notice("Success", "Lesson marked as complete!", false)
  const MarkFailed := Notice("Error", "Failed to mark lesson as complete", true)
  const CertificateEarned := Notice("Congratulations!", "You've completed the course and earned a certificate!", false)

  class CourseViewer {
    /** The route parameter `id`, the signed-in user and `window.location.origin`. */
    const courseId: string
    const userId: string
    const origin: string

    var course: Option<CourseRow>
    var lessons: seq<LessonRow>
    var currentLesson: Option<LessonRow>
    var progress: seq<ProgressEntry>
    var certificate: Option<CertificateRow>
    var loading: bool
    /** The route `navigate` was last called with. */
    var navigatedTo: Option<string>
    var notices: seq<Notice>

    constructor (courseId: string, userId: string, origin: string)
      ensures this.courseId == courseId && this.userId == userId && this.origin == origin
      ensures course == None && lessons == [] && currentLesson == None
      ensures progress == [] && certificate == None && loading
      ensures navigatedTo == None && notices == []
    {
      this.courseId := courseId;
      this.userId := userId;
      this.origin := origin;
      course := None;
      lessons := [];
      currentLesson := None;
      progress := [];
      certificate := None;
      loading := true;
      navigatedTo := None;
      notices := [];
    }

    /** Whether the "Mark Complete" button is shown: the current lesson is
        not complete (with no current lesson its id is `undefined`, which no
        entry names). */
    predicate MarkCompleteOffered()
      reads this
      ensures MarkCompleteOffered() <==>
        currentLesson.None? || forall i :: 0 <= i < |progress| ==> progress[i].lesson_id != currentLesson.value.id
    {
      !(currentLesson.Some? && IsLessonComplete(progress, currentLesson.value.id))
    }

    /** `fetchCourseData()`, run when both the route id and the user are set.
        Only an enrolled user gets course, lessons, progress and certificate;
        anyone else is sent to the dashboard with nothing loaded. */
    method FetchCourseData(
      reply: Option<CourseDetails>,
      progressReply: Option<seq<ProgressEntry>>,
      certificateReply: Option<CertificateRow>)
      modifies this
      ensures !loading
      ensures reply.None? ==>
        && course == old(course) && lessons == old(lessons) && currentLesson == old(currentLesson)
        && progress == old(progress) && certificate == old(certificate)
        && navigatedTo == old(navigatedTo) && notices == old(notices) + [FetchFailed]
      ensures reply.Some? && !IsEnrolled(reply.value.enrollments, userId) ==>
        && course == old(course) && lessons == old(lessons) && currentLesson == old(currentLesson)
        && progress == old(progress) && certificate == old(certificate)
        && navigatedTo == Some("/dashboard") && notices == old(notices)
      ensures reply.Some? && IsEnrolled(reply.value.enrollments, userId) ==>
        && course == Some(reply.value.course)
        && LessonOrder.SortedByOrder(lessons)
        && multiset(lessons) == multiset(reply.value.lessons)
        && currentLesson == (if lessons == [] then None else Some(lessons[0]))
        && progress == progressReply.GetOr([])
        && certificate == certificateReply
        && navigatedTo == old(navigatedTo) && notices == old(notices)
    {
      if reply.None? {
        notices := notices + [FetchFailed];
        loading := false;
        return;
      }
      var details := reply.value;
      if !IsEnrolled(details.enrollments, userId) {
        navigatedTo := Some("/dashboard");
        loading := false;
        return;
      }
      course := Some(details.course);
      var sorted := LessonOrder.SortedLessons(details.lessons);
      lessons := sorted;
      currentLesson := if sorted == [] then None else Some(sorted[0]);
      progress := progressReply.GetOr([]);
      certificate := certificateReply;
      loading := false;
    }

    /** `markLessonComplete(lessonId)`: the progress entry is appended only
        after the upsert succeeded; a certificate is requested exactly when
        that completion makes the count reach the lesson count and none is
        held. A failed certificate insert is swallowed: no certificate, and
        the lesson is still reported complete. */
    method MarkLessonComplete(
      lessonId: string,
      upsertOk: bool,
      certificateReply: Option<CertificateRow>)
      returns (requested: Option<CertificateInsert>)
      modifies this
      ensures course == old(course) && lessons == old(lessons) && currentLesson == old(currentLesson)
      ensures loading == old(loading) && navigatedTo == old(navigatedTo)
      ensures !upsertOk ==>
        && requested == None && progress == old(progress) && certificate == old(certificate)
        && notices == old(notices) + [MarkFailed]
      ensures upsertOk ==> progress == old(progress) + [ProgressEntry(lessonId)]
      ensures requested.Some?
        <==> upsertOk && ShouldIssueCertificate(|old(progress)|, |lessons|, old(certificate).Some?)
      ensures requested.Some? ==>
        requested.value == CertificateInsert(userId, courseId, CertificateUrl(origin, courseId, userId))
      ensures upsertOk && requested.None? ==>
        certificate == old(certificate) && notices == old(notices) + [LessonCompleted]
      ensures requested.Some? && certificateReply.Some? ==>
        certificate == certificateReply && notices == old(notices) + [CertificateEarned, LessonCompleted]
      ensures requested.Some? && certificateReply.None? ==>
        certificate == None && notices == old(notices) + [LessonCompleted]
      ensures old(certificate).Some? ==> certificate == old(certificate)
      ensures Rank(StageOf(|old(progress)|, |lessons|, old(certificate).Some?))
        <= Rank(StageOf(|progress|, |lessons|, certificate.Some?))
      ensures Distinct(ProgressIds(old(progress))) && !IsLessonComplete(old(progress), lessonId) ==>
        Distinct(ProgressIds(progress))
    {
      requested := None;
      if !upsertOk {
        notices := notices + [MarkFailed];
        return;
      }
      var before := progress;
      progress := progress + [ProgressEntry(lessonId)];
      assert ProgressIds(progress) == ProgressIds(before) + [lessonId];
      var completedCount := |before| + 1;
      if completedCount == |lessons| && certificate.None? {
        requested := Some(CertificateInsert(userId, courseId, CertificateUrl(origin, courseId, userId)));
        if certificateReply.Some? {
          certificate := certificateReply;
          notices := notices + [CertificateEarned];
        }
      }
      notices := notices + [LessonCompleted];
    }

    /** Clicking a lesson in the list makes it the current one. */
    method SelectLesson(lesson: LessonRow)
      modifies this`currentLesson
      ensures currentLesson == Some(lesson)
    {
      currentLesson := Some(lesson);
    }
  }
}
