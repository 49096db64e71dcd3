# learn-now-platform course logic in Dafny

This project models the logic inside the React pages and hooks of the
learn-now-platform course marketplace. It covers:

- the lesson list editor;
- the course viewer's enrollment gate, progress and certificate rules;
- the course create and edit forms and the editor's three-step save;
- the sign-up validator;
- the student catalogue filter;
- the instructor dashboard's statistics, publish toggle and delete;
- the image and video upload widgets.

The hosted backend is an in-memory `Tables` value: courses, lessons and
enrollments with the column names the code uses. Every remote call is
represented in one of two ways. A read is a reply parameter, where `None`
means the backend returned an error or no data. A write is a function on
`Tables`, plus a flag saying whether it succeeded. The signed-in user, the
route id, `window.location.origin`, `Date.now()` and the user's
confirmation are all parameters.

Toasts and `navigate` are recorded as observable state: a `notices` log
and a `navigatedTo` field. Callbacks to the parent such as
`onImageUploaded` are recorded as a `reported` log.

Where a component updates its state step by step, it is a `class` whose
methods state the whole new state. `moveLesson`'s two `splice` calls run
in place on an array, and the lesson sort is an in-place array algorithm.
Pure expressions are functions, with lemmas about them.

Modules, one per source file plus shared vocabulary:

- `Common`: `Option`, `filter`, `some`, subsequences, distinct sequences.
- `Text`: ASCII lower case, `includes`, `startsWith`, `trim() === ''`, `split(sep).pop()`, decimal rendering.
- `Schema`: the table rows.
- `LessonOrder`: the `order_index` sort.
- `LessonManager`, `CourseViewer`, `CourseForm` (shared by the two course pages), `EditCourse`, `CreateCourse`, `SignUp`, `Dashboard`, `TeacherCourses`.
- `Storage` (shared by the upload widgets), `ImageUpload`, `VideoUpload`.

## Model

| member | source | states |
|---|---|---|
| `Common.Filter` | src/pages/Dashboard.tsx:88-98 | `Array.prototype.filter`: the result keeps exactly the elements passing the test and is no longer than the input |
| `Common.FilterMultiset` | src/pages/EditCourse.tsx:108-109 | a filter keeps each passing element as often as it occurs, and drops every other element |
| `Common.FilterIsSubsequence` | src/pages/Dashboard.tsx:88 | a filter result is an order-preserving subsequence of its input |
| `Common.Any` | src/pages/CourseViewer.tsx:46 | `some(p)` holds iff some position satisfies `p` |
| `Common.RemoveAt` | src/pages/EditCourse.tsx:188 | `filter((_, i) => i !== index)`: for a valid index, one element fewer, with the elements before and after the index kept in order; otherwise the list unchanged |
| `Text.ToLower` | src/pages/Dashboard.tsx:89-90 | lower-casing keeps the length, maps each character, and leaves no ASCII capital |
| `Text.IncludesChar` | src/pages/SignUp.tsx:26 | `includes('@')` holds iff the character occurs in the string |
| `Text.LastSegment` | src/components/ImageUpload.tsx:37 | `split(sep).pop()` is the suffix after the last separator, holds no separator, and is the whole string when there is none |
| `Text.LastSegmentOfJoin` | src/components/ImageUpload.tsx:38 | the segment after the last separator of `prefix + sep + seg` is `seg` when `seg` has no separator |
| `Text.NatToStringRoundTrip` | src/components/ImageUpload.tsx:38 | the decimal rendering of the time stamp reads back as the same number |
| `Text.IntToString` | src/pages/EditCourse.tsx:69 | `price.toString()` is non-empty, starts with '-' iff the number is negative, and the remaining characters are decimal digits without a leading zero (except "0" itself) whose value is the number's magnitude |
| `LessonOrder.SortByOrderIndex` | src/pages/CourseViewer.tsx:54 | the in-place sort leaves the lessons in ascending `order_index` and is a permutation of the fetched lessons |
| `LessonOrder.SortedLessons` | src/pages/EditCourse.tsx:77-78 | the sorted copy is in ascending `order_index`, has the same multiset of lessons, and the same length |
| `LessonManager.Renumbered` | src/components/LessonManager.tsx:45-48 | renumbering gives position i the `order_index` i + 1, keeps the length, and changes nothing but `order_index` |
| `LessonManager.AddLesson` | src/components/LessonManager.tsx:25-33 | adding keeps the old lessons as a prefix and appends one lesson with no id, empty title and url, duration 0 and `order_index` old length + 1 |
| `LessonManager.AddLessonKeepsContiguous` | src/components/LessonManager.tsx:30 | if the `order_index` values were 1..N they are 1..N+1 after adding |
| `LessonManager.Apply` | src/components/LessonManager.tsx:37 | `{ ...lesson, [field]: value }` sets the named field and leaves every other field unchanged |
| `LessonManager.UpdateLesson` | src/components/LessonManager.tsx:35-40 | updating keeps the length, replaces only the lesson at `index` by the edited one, and leaves every other lesson unchanged |
| `LessonManager.UpdateLessonKeepsContiguous` | src/components/LessonManager.tsx:36-38 | an edit that does not touch `order_index` keeps a 1..N numbering |
| `LessonManager.RemoveLesson` | src/components/LessonManager.tsx:42-50 | removing a valid index shortens the list by one, keeps the other lessons in order with their content, and numbers them 1..N−1 |
| `LessonManager.MovedAt` | src/components/LessonManager.tsx:53-55 | where each lesson lands after the two `splice` calls, position by position, with `toIndex` clamped to the shortened list |
| `LessonManager.MovedPlacesLesson` | src/components/LessonManager.tsx:55 | the moved lesson ends at `toIndex`, or at the end when `toIndex` is past it |
| `LessonManager.MovedKeepsOthersInOrder` | src/components/LessonManager.tsx:54-55 | apart from the moved lesson, the lessons keep their relative order |
| `LessonManager.MovedIsPermutation` | src/components/LessonManager.tsx:53-55 | moving rearranges the lessons without adding or losing any |
| `LessonManager.ContentsOfMoved` | src/components/LessonManager.tsx:53-55 | moving commutes with forgetting `order_index` |
| `LessonManager.SpliceMove` | src/components/LessonManager.tsx:54-55 | the in-place shifts on the copied array produce exactly the two-`splice` result |
| `LessonManager.RenumberInPlace` | src/components/LessonManager.tsx:58-61 | the in-place pass over the array yields the renumbered list |
| `LessonManager.MoveLesson` | src/components/LessonManager.tsx:52-63 | the handler's result is the moved list renumbered |
| `LessonManager.MoveLessonProperties` | src/components/LessonManager.tsx:55-61 | after a move the numbering is 1..N, the moved lesson's content is at its target, and the contents are a permutation of the input's |
| `CourseViewer.IsEnrolled` | src/pages/CourseViewer.tsx:46 | true iff some enrollment's `user_id` is the current user |
| `CourseViewer.IsLessonComplete` | src/pages/CourseViewer.tsx:145-147 | true iff some progress entry has that `lesson_id` |
| `CourseViewer.ProgressPercentage` | src/pages/CourseViewer.tsx:149-151 | 0 without lessons; otherwise progress/lessons × 100, hence 100 when the counts agree and within 0..100 when progress does not exceed the lesson count |
| `CourseViewer.PercentageMonotone` | src/pages/CourseViewer.tsx:149-151 | one more completed lesson never lowers the percentage |
| `CourseViewer.CertificateUrlDeterminesIds` | src/pages/CourseViewer.tsx:128 | for course ids without '/', the URL `origin/certificate/course/user` determines the course and the user |
| `CourseViewer.NoCertificateWithoutLessons` | src/pages/CourseViewer.tsx:102-103 | a course without lessons never triggers a certificate |
| `CourseViewer.CertificateOnlyWhenAllComplete` | src/pages/CourseViewer.tsx:99-104 | with distinct ids and progress entries naming the course's lessons, a certificate request means every lesson is complete |
| `CourseViewer.StageNeverRegresses` | src/pages/CourseViewer.tsx:99-104 | more progress and keeping a certificate never move the learner back a stage |
| `CourseViewer.CourseViewer.constructor` | src/pages/CourseViewer.tsx:18-23 | no course, no lessons, no current lesson, no progress, no certificate, `loading` true, nothing navigated or notified |
| `CourseViewer.CourseViewer.MarkCompleteOffered` | src/pages/CourseViewer.tsx:188 | the Mark Complete button shows iff no progress entry names the current lesson |
| `CourseViewer.CourseViewer.FetchCourseData` | src/pages/CourseViewer.tsx:31-86 | a fetch error only adds the error notice; a user who is not enrolled is sent to /dashboard with nothing loaded; an enrolled user gets the course, the lessons sorted by `order_index`, the first of them as current, the progress with missing data as [], and the certificate |
| `CourseViewer.CourseViewer.MarkLessonComplete` | src/pages/CourseViewer.tsx:88-143 | progress gains the entry only after a successful upsert and is otherwise unchanged; a certificate is requested iff the old count + 1 equals the lesson count and none is held; a failed certificate insert is swallowed; the stage never regresses; progress ids stay distinct |
| `CourseViewer.CourseViewer.SelectLesson` | src/pages/CourseViewer.tsx:249 | clicking a lesson makes it the current one |
| `CourseForm.WithItems` | src/pages/EditCourse.tsx:174-177 | `{ ...formData, [field]: items }` replaces the named list; the other list and every other field stay as they were |
| `CourseForm.ChangeItem` | src/pages/EditCourse.tsx:171-178 | the list keeps its length, holds the new value at `index`, and is unchanged elsewhere |
| `CourseForm.AssignInCopy` | src/pages/EditCourse.tsx:172-173 | assigning into a fresh copy of the list gives the changed list |
| `CourseForm.ChangeItemUndo` | src/pages/EditCourse.tsx:171-178 | writing back the old value undoes a change |
| `CourseForm.AddItem` | src/pages/EditCourse.tsx:180-185 | adding appends exactly one '' and keeps the list as a prefix |
| `CourseForm.RemoveAddedItem` | src/pages/CreateCourse.tsx:103-116 | removing the entry just added restores the list |
| `CourseForm.NonBlankKeepsFilledEntries` | src/pages/EditCourse.tsx:108-109 | the saved list contains exactly the entries whose trim is non-empty, each as often as entered, in the entered order |
| `CourseForm.AddedItemIsDroppedOnSave` | src/pages/CreateCourse.tsx:56-57 | an entry added and left empty is dropped when the course is saved |
| `CourseForm.FilledListSavedUnchanged` | src/pages/CreateCourse.tsx:56-57 | a list without blank entries is saved as entered |
| `CourseForm.ArrayChanged` | src/pages/CreateCourse.tsx:94-101 | `handleArrayChange` applies `ChangeItem` to the named list and leaves the other list and every other field as they were |
| `CourseForm.ArrayItemAdded` | src/pages/CreateCourse.tsx:103-108 | `addArrayItem` applies `AddItem` to the named list and leaves the other list and every other field as they were |
| `CourseForm.ArrayItemRemoved` | src/pages/CreateCourse.tsx:110-116 | `removeArrayItem` applies `RemoveAt` to the named list and leaves the other list and every other field as they were |
| `EditCourse.ToMinutes` | src/pages/EditCourse.tsx:81 | `Math.floor(seconds / 60)` is the whole number of minutes r with r·60 ≤ seconds < r·60 + 60 |
| `EditCourse.MinutesRoundTrip` | src/pages/EditCourse.tsx:135 | minutes → seconds → minutes is the identity |
| `EditCourse.SecondsRoundTrip` | src/pages/EditCourse.tsx:81 | seconds → minutes → seconds loses less than 60, and nothing exactly when the seconds are a multiple of 60 |
| `EditCourse.FormLesson` | src/pages/EditCourse.tsx:79-82 | a loaded lesson keeps id, title, url and `order_index`, with its duration in whole minutes |
| `EditCourse.FormLessons` | src/pages/EditCourse.tsx:77-82 | the loaded list converts every lesson, in order |
| `EditCourse.SavedRows` | src/pages/EditCourse.tsx:131-137 | every inserted row carries `course_id = id` and the lesson's title, url and `order_index`, with its minutes × 60 as duration |
| `EditCourse.LoadedLessonsSaveBack` | src/pages/EditCourse.tsx:77-137 | loading a course's lessons and saving them unedited writes the same rows back when durations are whole minutes |
| `EditCourse.LoadedForm` | src/pages/EditCourse.tsx:65-74 | nullable text loads as '', a present price as its decimal text `IntToString(price)`, a missing price as '0', missing outcome or requirement lists as [''], an empty list as itself |
| `EditCourse.UpdateCourses` | src/pages/EditCourse.tsx:102-117 | only the course with that id is rewritten, with the form's fields; lessons and enrollments are untouched |
| `EditCourse.UpdateKeepsOwnerAndStatus` | src/pages/EditCourse.tsx:102-112 | an edited course keeps its id, owner and publication status; title, description, category, level and thumbnail are the form's, the price is the parsed one and `updated_at` the save time; each list is the form's list without its blank entries, each kept entry as often as entered and in order |
| `EditCourse.DeleteLessons` | src/pages/EditCourse.tsx:122-125 | the delete removes exactly the lessons of that course |
| `EditCourse.InsertLessons` | src/pages/EditCourse.tsx:139-141 | the insert appends exactly the given rows |
| `EditCourse.SaveReplacesLessons` | src/pages/EditCourse.tsx:121-144 | after delete and insert, the course's lessons are exactly the edited lessons' rows, in order |
| `EditCourse.SaveKeepsOtherLessons` | src/pages/EditCourse.tsx:122-125 | the save leaves every other course's lessons as they were |
| `EditCourse.DeleteLeavesNoLessons` | src/pages/EditCourse.tsx:127-130 | after the delete the course has no lessons, so skipping the insert of an empty list leaves it empty |
| `EditCourse.EditCourse.constructor` | src/pages/EditCourse.tsx:20-31 | the form starts as the shared initial form (level 'beginner', one empty entry per list), no lessons, `loading` false |
| `EditCourse.EditCourse.FetchCourse` | src/pages/EditCourse.tsx:46-93 | with a route id, the form is loaded from the course and the lessons are sorted by `order_index` with durations in minutes; a fetch error only adds a notice |
| `EditCourse.EditCourse.HandleSubmit` | src/pages/EditCourse.tsx:95-162 | without a user or id nothing happens; the update, delete and insert run in that order, and the first failing one stops the rest; the insert runs only for a non-empty lesson list; success replaces exactly this course's lessons and navigates to the teacher dashboard; a failed insert leaves the course with no lessons |
| `EditCourse.EditCourse.HandleArrayChange` | src/pages/EditCourse.tsx:171-178 | the form becomes `ArrayChanged` of the old form |
| `EditCourse.EditCourse.AddArrayItem` | src/pages/EditCourse.tsx:180-185 | the form becomes `ArrayItemAdded` of the old form |
| `EditCourse.EditCourse.RemoveArrayItem` | src/pages/EditCourse.tsx:187-193 | the form becomes `ArrayItemRemoved` of the old form |
| `CreateCourse.NewCourse` | src/pages/CreateCourse.tsx:49-59 | a created course has `is_published = false`, `instructor_id` = the user, the form's fields, no thumbnail or time stamp, and each list the form's list without its blank entries, each kept entry as often as entered and in order |
| `CreateCourse.InsertCourse` | src/pages/CreateCourse.tsx:61-65 | the insert appends the one row |
| `CreateCourse.CreatedCourseIsDraft` | src/pages/CreateCourse.tsx:55-63 | the owner gains one course and no published course; other instructors' courses are unchanged |
| `CreateCourse.CreateCourse.constructor` | src/pages/CreateCourse.tsx:19-27 | the initial form has level 'beginner' and [''] as both lists |
| `CreateCourse.CreateCourse.HandleSubmit` | src/pages/CreateCourse.tsx:42-85 | without a user it returns before any insert; otherwise one draft course of the user is inserted and the page goes to the teacher dashboard, or on failure nothing is inserted and an error notice is added |
| `CreateCourse.CreateCourse.HandleArrayChange` | src/pages/CreateCourse.tsx:94-101 | the form becomes `ArrayChanged` of the old form |
| `CreateCourse.CreateCourse.AddArrayItem` | src/pages/CreateCourse.tsx:103-108 | the form becomes `ArrayItemAdded` of the old form |
| `CreateCourse.CreateCourse.RemoveArrayItem` | src/pages/CreateCourse.tsx:110-116 | the form becomes `ArrayItemRemoved` of the old form |
| `SignUp.WithValue` | src/pages/SignUp.tsx:51-54 | `{ ...formData, [name]: value }` sets the named field and keeps the others |
| `SignUp.FailingFields` | src/pages/SignUp.tsx:20-36 | name fails iff shorter than 2, email iff it has no '@', password iff shorter than 6, confirmation iff it differs from the password; no other field is listed |
| `SignUp.ValidIffNoFailingField` | src/pages/SignUp.tsx:38-39 | the form is valid iff no field fails |
| `SignUp.SignUpForm.constructor` | src/pages/SignUp.tsx:10-17 | all four fields empty and no error messages |
| `SignUp.SignUpForm.ValidateForm` | src/pages/SignUp.tsx:19-40 | the new error map's keys are exactly the failing fields, each with its rule's message, and the result is true iff the map is empty iff the form is valid |
| `SignUp.SignUpForm.HandleSubmit` | src/pages/SignUp.tsx:42-48 | the sign-up attempt happens only when validation succeeds |
| `SignUp.SignUpForm.HandleChange` | src/pages/SignUp.tsx:50-63 | only the named field changes; that field's message is blanked if it was set; the keys and every other message are unchanged |
| `Dashboard.Dedup` | src/pages/Dashboard.tsx:86 | `[...new Set(xs)]` holds each value of `xs` exactly once and nothing else, as an order-preserving subsequence of `xs` |
| `Dashboard.DedupOfDistinct` | src/pages/Dashboard.tsx:86 | a list without repeats is its own deduplication |
| `Dashboard.CategoryListIsExact` | src/pages/Dashboard.tsx:86 | the category list holds every course category exactly once and no other value |
| `Dashboard.FilteredCourses` | src/pages/Dashboard.tsx:88-98 | a course is shown iff it matches the search, the category and the price bucket |
| `Dashboard.FilteredIsSubsequence` | src/pages/Dashboard.tsx:88 | the filtered list is an order-preserving subsequence of the catalogue |
| `Dashboard.SearchFindsSubstring` | src/pages/Dashboard.tsx:89-90 | a term that occurs in the title matches, case aside |
| `Dashboard.BucketsPartitionPrices` | src/pages/Dashboard.tsx:93-95 | the three price buckets are pairwise disjoint and cover every price |
| `Dashboard.UnknownPriceKeyMatchesNothing` | src/pages/Dashboard.tsx:92-95 | a non-empty price key other than the three bucket keys matches no course |
| `Dashboard.EmptyFiltersMatchAll` | src/pages/Dashboard.tsx:89-92 | with all three filters empty every course is shown |
| `Dashboard.Dashboard.constructor` | src/pages/Dashboard.tsx:82-84 | the search term, the category and the price filter all start empty |
| `Dashboard.Dashboard.ClearFilters` | src/pages/Dashboard.tsx:114-118 | all three filters become '', after which the whole catalogue is shown |
| `TeacherCourses.ComputeStats` | src/hooks/useTeacherCourses.ts:60-64 | total is the number of course rows, published counts those with `is_published` and never exceeds total, enrollments is the number of enrollment rows; missing data gives 0 |
| `TeacherCourses.EnrollmentsIn` | src/hooks/useTeacherCourses.ts:55-58 | the enrollments read are exactly those whose `course_id` is in the id list |
| `TeacherCourses.NoIdsNoEnrollments` | src/hooks/useTeacherCourses.ts:53-58 | without course data the id list is empty, and no enrollment is selected |
| `TeacherCourses.StatsOf` | src/hooks/useTeacherCourses.ts:44-68 | the stats count the instructor's courses and published courses, with published ≤ total; with both reads answered the enrollment count is the number of enrollments whose course is one of the instructor's; a failed course read gives all zeros, a failed enrollment read a zero count |
| `TeacherCourses.EnrollmentCounted` | src/hooks/useTeacherCourses.ts:53-63 | an enrollment counts iff its course is one of the instructor's |
| `TeacherCourses.SetPublished` | src/hooks/useTeacherCourses.ts:100-103 | only the `is_published` flag of that course changes |
| `TeacherCourses.ToggleTwiceRestores` | src/hooks/useTeacherCourses.ts:98-103 | toggling a course and toggling it back restores the tables |
| `TeacherCourses.ToggleKeepsCourseCount` | src/hooks/useTeacherCourses.ts:100-103 | a toggle keeps every instructor's number of courses |
| `TeacherCourses.DeleteCourse` | src/hooks/useTeacherCourses.ts:74-77 | exactly the rows with that id are deleted |
| `TeacherCourses.ToggleMessage` | src/hooks/useTeacherCourses.ts:109 | the message says 'published' iff the new status is true |
| `TeacherCourses.TeacherCourses.constructor` | src/hooks/useTeacherCourses.ts:9-15 | no courses, all three counts zero, `loading` true |
| `TeacherCourses.TeacherCourses.FetchCourses` | src/hooks/useTeacherCourses.ts:17-42 | without a user nothing happens; otherwise the instructor's courses are loaded, or an error notice is added, and loading ends |
| `TeacherCourses.TeacherCourses.FetchStats` | src/hooks/useTeacherCourses.ts:44-68 | without a user nothing happens; otherwise the stats become `StatsOf` the tables |
| `TeacherCourses.TeacherCourses.HandleTogglePublish` | src/hooks/useTeacherCourses.ts:98-122 | writes `!currentStatus` to that course and reports it, then refetches courses and stats and clears `loading` when a user is signed in, and leaves them as they were when not; on a write error nothing is refetched |
| `TeacherCourses.TeacherCourses.HandleDeleteCourse` | src/hooks/useTeacherCourses.ts:70-96 | nothing happens without confirmation; on success the course is gone from the tables and from the refetched list, the stats are refetched and `loading` is cleared when a user is signed in, and courses, stats and `loading` stay as they were when not; on a write error nothing is refetched |
| `Storage.FileExtension` | src/components/ImageUpload.tsx:37 | the extension holds no '.', is the whole name when there is no '.', and otherwise is strictly shorter than the name and is exactly what follows its last '.' |
| `Storage.PathKeepsExtension` | src/components/ImageUpload.tsx:37-38 | the object path `folder/timestamp.ext` ends with the file's extension |
| `Storage.PathDeterminesStampAndExtension` | src/components/VideoUpload.tsx:37-38 | within one folder the path determines the time stamp and the extension |
| `ImageUpload.ImageUpload.constructor` | src/components/ImageUpload.tsx:18-19 | not uploading, preview `currentImage` or '' |
| `ImageUpload.ImageUpload.BeginUpload` | src/components/ImageUpload.tsx:21-42 | no file means no change; a non-image type is refused with an error notice, no upload and `uploading` unchanged; otherwise `uploading` is set and the upload target is the widget's `bucket` with the path `folder/timestamp.ext`, which ends in the file's extension |
| `ImageUpload.ImageUpload.FinishUpload` | src/components/ImageUpload.tsx:44-67 | called only while an upload `BeginUpload` started is in flight; `uploading` ends false; on success the preview is the public URL and the same URL is reported; on failure the preview is unchanged |
| `ImageUpload.ImageUpload.RemoveImage` | src/components/ImageUpload.tsx:70-73 | the preview becomes '' and '' is reported |
| `VideoUpload.VideoUpload.constructor` | src/components/VideoUpload.tsx:18-19 | not uploading, preview `currentVideo` or '' |
| `VideoUpload.VideoUpload.BeginUpload` | src/components/VideoUpload.tsx:21-42 | no file means no change; a non-video type is refused with an error notice, no upload and `uploading` unchanged; otherwise `uploading` is set and the upload target is the widget's `bucket` with the path `folder/timestamp.ext`, which ends in the file's extension |
| `VideoUpload.VideoUpload.FinishUpload` | src/components/VideoUpload.tsx:44-67 | called only while an upload `BeginUpload` started is in flight; `uploading` ends false; on success the preview is the public URL and it is reported; on failure the preview is unchanged |
| `VideoUpload.VideoUpload.RemoveVideo` | src/components/VideoUpload.tsx:70-73 | the preview becomes '' and '' is reported |

## Left out

- **Backend calls.** The hosted backend client is not modelled: queries, `upsert`, `insert`, `delete`, `.single()`, storage upload and public URL. Reads are reply parameters, writes are functions on `Tables` with success flags, and the public URL is part of the upload result.
- **Cascades.** Deleting a course is modelled on the courses table only. Whether the backend cascades to lessons or enrollments is not visible in the code.
- **Generated types.** `src/integrations/supabase/types.ts` is a declarations-only file and is not part of this model. Its column names (`student_id`, `section_id`) differ from the ones the pages query. The model uses the pages' names: the enrollments' `user_id` and the lessons' `course_id`.
- **Browser and framework effects.** The auth context, `console` output, `setTimeout`, `window.open`, `confirm` and React re-rendering are left out. Toasts and navigation are only logged as notices and routes.
- **Concurrency.** Requests that overlap are not modelled. Each handler runs to completion before the next, so races between two completions or two enrollments are not captured.
- **Refetch failures.** After a toggle or a delete, `fetchCourses` and `fetchStats` are not awaited. They are modelled as reads of the updated tables that succeed; their own failure paths are the ones in `FetchCourses` and `FetchStats`.
- **Price parsing.** `parseFloat(formData.price) || 0` is not modelled. The saved price is an integer parameter of the two submit handlers. Prices are integers throughout.
- **Floating point.** The completion percentage is exact `real` arithmetic, not IEEE doubles.
- **Text semantics.** `toLowerCase` is modelled on ASCII letters only, and `length` counts characters, not UTF-16 code units. `String(n)` is modelled for integers.
- **Time.** `Date.now()` is the parameter `now`, and `new Date().toISOString()` is an opaque string parameter.
- **Sort algorithm.** The engine's `Array.prototype.sort` is replaced by an in-place insertion sort. Ascending `order_index` and being a permutation are stated. Stability is not, so lessons with equal `order_index` may come out in either order.
- **Sort order of the instructor's courses.** `order('created_at', { ascending: false })` is not modelled, because rows carry no `created_at`. The courses keep table order.
- `LessonManager.MoveLesson`: requires `fromIndex` to be a valid index. The handler has no caller in the rendered component (LessonManager.tsx renders remove, title, video and duration controls but no move control), so no call site backs this requirement; it is stated because with an out-of-range `fromIndex`, `splice` would insert `undefined` into the list. Negative indices are not modelled.
- `CourseForm.ChangeItem`: requires an existing index. Assigning past the end in JavaScript would create holes; the rendered inputs only pass existing indices.
- `CourseViewer.CourseViewer.MarkLessonComplete`: the lesson id is a string. The source passes `currentLesson?.id`, which is `undefined` when no lesson is selected, and the model does not capture that.
- `EditCourse.FormLesson`: the spread `...lesson` also keeps other columns (`course_id`, `created_at`) in the page state. The model keeps only the fields the lesson editor uses, since the save writes only those.
- `Dashboard.Dedup`: states that the result is a subsequence of `xs`, not that each value sits at its first occurrence as a `Set` keeps it. The definition appends a value at its first occurrence.
- `Dashboard.SearchFindsSubstring`: states only one direction, a literal occurrence in the title. Matching is defined on the lower-cased strings, so case-different occurrences also match.
- **Catalogue data.** The fixed `mockCourses` data and the enrollment toast of the catalogue are not modelled, and the catalogue is a parameter. The markup-only pages and components are not part of this model.
