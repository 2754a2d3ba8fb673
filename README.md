# School notification backend: academic-term domain logic

This project models the domain logic of the school notification backend.
The Go handlers mix this logic with HTTP request parsing and MongoDB calls.
The model covers:

- **Records.** Term records, subject categories, subjects, classes,
  teacher and student profiles, locations, courses, course summaries,
  score items and per-date roll calls.
- **Slot grid.** Each class, teacher and location carries a weekly grid:
  five weekday buckets, fourteen half hours each. A cell is either free
  or held by exactly one course.
- **Handlers.** Each handler that changes these records becomes a method
  of the `Store` class. The class holds one map or sequence per
  repository, and a write replaces the whole record, as the repositories do.
  In the four places listed under "## Findings", the handlers use the
  corrected definition rather than the source's computation. The members
  this affects are listed by name under "## Left out".

Every handler returns a `Result`. Each method's contract states three things, except where "## Left out" names a gap:

- when the handler succeeds, for every validation guard;
- which error it gives;
- exactly which records it writes.

Failed validation leaves the store unchanged. The model also keeps the
few writes the handlers make before a later failure (see `CreateCourse`
and `FinishCourse`).

The pure parts are functions with lemmas:

- `CheckStringData` and `CheckIntegerData`;
- the slot grid;
- the lifecycle of a course;
- grading;
- the transcript fold;
- rollover;
- roll calls;
- score items;
- the registration rules.

A handler's loops become methods proved equal to those functions.

Modules, in dependency order:

- `Common`: `Result`, `Option`, error codes and `IndexOf`.
- `Validate`: trimming and the two field checks.
- `SlotGrid`: the grid and `createTimeSlot`.
- `Booking`: marking and releasing cells, on the whole grid.
- `GridPasses`: the handlers' grid loops.
- `Lifecycle`: course status events.
- `Records`: the stored entities.
- `Grading`: per-student course summary.
- `Transcript`: folding a course result into a profile.
- `Rollover`: next term, class-year ladder and term entries.
- `Attendance`: roll calls.
- `Scores`: score items.
- `Registry`: terms, categories, profiles, subjects, classes and locations.
- `Courses`: course creation guards and the profile updates of courses.
- `Store`: the handlers.

## Model

| member | source | states |
|---|---|---|
| Validate.TrimSpaceInfix | util/api.go:25 | trimming keeps an infix of the input that neither starts nor ends with white space; everything dropped on either side is white space |
| Validate.TrimSpaceUnique | util/api.go:25 | trimming is determined: any split of the input into white space, a part with non-space ends and white space keeps exactly that part |
| Validate.TrimSpaceEmpty | util/api.go:25-28 | the trimmed value is empty exactly when the input is all white space |
| Validate.TrimSpaceIdempotent | util/api.go:25 | trimming twice gives the same as trimming once |
| Validate.CheckVisible | util/api.go:24-30 | a non-empty value of visible ASCII characters is accepted unchanged |
| Validate.CheckStringData | util/api.go:24-31 | accepts exactly the inputs that are not all white space and returns the trimmed, non-empty value with non-space ends; otherwise fails with "require parameter" naming the field |
| Validate.CheckStringDataIdempotent | util/api.go:25-30 | an accepted value passes the check again and comes back unchanged |
| Validate.CheckIntegerData | util/api.go:33-44 | an absent field is a missing parameter; a present value of at most 0 is an invalid value; otherwise the value is returned |
| SlotGrid.Locate | controller/course.go:269-276 | the cell found for (day, time) lies in the first bucket with that day and is the first cell of that bucket with that time label |
| SlotGrid.LocateSameShape | controller/course.go:269-276 | which cell a (day, time) request finds depends only on the day names and time labels, not on what the cells hold |
| SlotGrid.SetCell | controller/course.go:243-244 | writing one cell changes that cell and no other; keeping the time label keeps the grid's shape |
| SlotGrid.FreshGridShape | controller/location.go:266-285 | a new grid has the buckets monday to friday in order, each with the fourteen half hours in order; every cell is free and unowned |
| SlotGrid.NoLunchSlot | controller/location.go:269 | no request for 11:30 or 12:00 finds a cell in a new grid |
| SlotGrid.CreateTimeSlot | controller/location.go:266-285 | the nested loops build exactly the fresh grid |
| Booking.Pairs | controller/course.go:269-276 | one (day, time) request per requested time of a meeting, in order |
| Booking.MarkShape | controller/course.go:269-276 | marking keeps the grid's buckets and labels; a failed mark reports the pass's own conflict error |
| Booking.MarkOkIff | controller/course.go:269-276 | marking requests succeeds exactly when every requested cell that exists is free and no cell is requested twice |
| Booking.MarkEffect | controller/course.go:275-276 | after a successful mark, each requested cell is taken by the course and every other cell is as before |
| Booking.MarkWellFormed | controller/course.go:275-276 | marking keeps "a cell is taken exactly when it has an owner" |
| Booking.Held | controller/course.go:855-856 | the cell a release looks up holds the requested time and is owned by the course |
| Booking.ReleaseOnlyOwn | controller/course.go:851-866 | release keeps the grid's shape, leaves every cell not owned by the course as it was, and keeps the grid well formed |
| Booking.ReleaseRestores | controller/course.go:851-866 | releasing the cells a course holds returns the grid it was marked on |
| Booking.ReleaseUndoesMark | controller/course.go:851-866 | on a well-formed grid where the course held nothing, release after a successful mark gives back the original grid |
| GridPasses.MarkTimesLift | controller/course.go:269-276 | marking one bucket's row equals marking the (day, time) requests on the whole grid |
| GridPasses.MarkMissingDay | controller/course.go:266-267 | the teacher and location passes silently skip a day their grid lacks |
| GridPasses.MarkDatesFlat | controller/course.go:264-334 | the per-meeting pass over a grid equals marking all of its requests in order |
| GridPasses.MarkRow | controller/course.go:268-282 | the inner loop over one bucket marks the times as the row function does |
| GridPasses.MarkLoop | controller/course.go:264-284 | the teacher and location pass loops compute the per-meeting mark |
| GridPasses.ReleaseTimesLift | controller/course.go:853-860 | releasing one bucket's row equals releasing the requests on the whole grid |
| GridPasses.ReleaseMissingDay | controller/course.go:851-866 | release skips a day the location's grid lacks |
| GridPasses.ReleaseDatesFlat | controller/course.go:851-866 | the per-meeting release equals releasing all of the course's requests |
| GridPasses.ReleaseRow | controller/course.go:853-860 | the inner release loop frees the first cell with the time owned by the course, for each time |
| GridPasses.ReleaseLoop | controller/course.go:851-866 | the release loops compute the per-meeting release |
| GridPasses.ClassTimesMarks | controller/course.go:224-255 | the class pass over one bucket marks the trimmed times as a plain mark would; it keeps every time; the first time names a cell of the bucket |
| GridPasses.ClassPassMarks | controller/course.go:212-262 | the class pass marks the class grid exactly as marking the trimmed meetings would, one meeting per requested meeting |
| GridPasses.ClassPassDay | controller/course.go:212-262 | after a successful class pass every meeting has a trimmed day that names a bucket of the class grid, and at least one time, as many as requested |
| GridPasses.ClassPassFree | controller/course.go:229-244 | a successful class pass found every requested cell free and none requested twice, and holds them all for the course |
| GridPasses.ClassCell | controller/course.go:230-240 | the scan of one bucket for one time yields the trimmed time and the first cell with that label |
| GridPasses.ClassRow | controller/course.go:224-255 | the class loop over one bucket computes the class pass of its times |
| GridPasses.ClassEntry | controller/course.go:213-261 | the class loop for one meeting computes that meeting's class pass |
| GridPasses.ClassLoop | controller/course.go:212-262 | the class pass loop computes the class pass of all meetings |
| Lifecycle.ParseEvent | controller/course.go:440-542 | each of the three event names, and only it, selects its event |
| Lifecycle.ChangeStatus | controller/course.go:440-542 | "ChangeToProgress" succeeds only from create; "ChangeToFinish" only from summary; "ChangeReverseSummary" only from summary with all four links present, and moves to progress; any other event is "event invalid" |
| Lifecycle.ChangeStatusIsStep | controller/course.go:440-542 | every accepted status change is an edge of the lifecycle: create to progress to summary to finish, or summary back to progress |
| Lifecycle.NeverBackToCreate | controller/course.go:440-542 | no sequence of lifecycle steps returns to create |
| Lifecycle.FinishIsFinal | controller/course.go:829-831 | no lifecycle step leaves finish |
| Lifecycle.FinishThroughSummary | controller/course.go:746-749 | a course that went from create to finish passed through progress, and was in summary just before it finished |
| Lifecycle.SummaryAfterProgress | controller/course_summary.go:251-254 | a course reaches summary only after it was in progress |
| Grading.FirstScore | controller/course_summary.go:318-320 | the entry found for a student is the student's, and none is found only when the item has no entry for the student |
| Grading.SumFromValue | controller/course_summary.go:308-341 | summing succeeds exactly when every item has a known type, and then gives the per-type sums of full and scored marks; otherwise "type is invalid" |
| Grading.GetWithinFull | controller/course_summary.go:308-341 | when every score lies within its item's full mark, a student's sum for a type lies between 0 and that type's full total |
| Grading.EntryGetLoop | controller/course_summary.go:318-339 | the entry scan computes the student's mark on one item, an ungraded entry counting as 0 |
| Grading.SumLoop | controller/course_summary.go:308-341 | the item loop computes the per-type sums |
| Grading.WorkAsWritten | controller/course_summary.go:345-347 | the written normalisation has no value when there are no work marks; otherwise it lies within the work share when the raw mark lies within its full mark |
| Grading.WorkScore | controller/course_summary.go:345-347 | the guarded normalisation agrees with the written one whenever work marks exist, lies within the work share, and is 0 with no work items |
| Grading.GradePointClimb | controller/course_summary.go:349-367 | the grade ladder equals climbing the seven rungs from 80 down to 50 |
| Grading.GradeMonotone | controller/course_summary.go:349-367 | a higher total never gets a lower grade point |
| Grading.GradeAtBound | controller/course_summary.go:349-367 | every rung's lower bound is inclusive, and a total below a rung's bound gets less than that rung's grade |
| Grading.FirstCheck | controller/course_summary.go:373-375 | the roll-call entry found is the student's, and none is found only when the record has no entry for the student |
| Grading.CountFromValue | controller/course_summary.go:369-392 | counting succeeds exactly when each record's entry for the student has a known status; it then counts every record, with attend + absent + late at most that count; otherwise "type is invalid" |
| Grading.FirstCheckLoop | controller/course_summary.go:373-389 | the entry scan finds the first entry for the student |
| Grading.CountLoop | controller/course_summary.go:369-392 | the roll-call loop computes the attendance counts |
| Grading.StudentRowValue | controller/course_summary.go:300-407 | a student's row has the per-type sums, the work share 100 − midterm − final, the normalised work mark (the corrected `WorkScore`, equal to the source's whenever the course has work marks), the grade of the total and the attendance counts; it fails with "type is invalid" exactly on an unknown type or status |
| Grading.TotalAtMostHundred | controller/course_summary.go:345-349 | when marks lie within their full marks and midterm plus final is at most 100, the total graded is at most 100 |
| Grading.GradeAsWritten | controller/course_summary.go:397 | the written grade is 0 when the work mark has no value, and otherwise the ladder grade of the total |
| Grading.NoWorkItemsCounterexample | controller/course_summary.go:345-347 | a course with a midterm and a final but no work item: as written the student gets grade 0; the guarded model gives grade 4 |
| Grading.StudentRowLoop | controller/course_summary.go:300-407 | the per-student loops compute the student's row, with the corrected work mark |
| Grading.SummarizeRows | controller/course_summary.go:299-410 | the summary has one row per enrolled student, in enrolment order, and fails exactly when some student's row fails; the rows use the corrected work mark |
| Grading.EmptyClassSummarizes | controller/course_summary.go:299-410 | a course without students summarises to no rows |
| Grading.SummarizeLoop | controller/course_summary.go:299-410 | the student loop computes the summary rows, with the corrected work mark |
| Transcript.FoldAsWritten | controller/course.go:776-826 | the written fold writes a profile exactly when it has any term entry |
| Transcript.Fold | controller/course.go:776-826 | the intended fold writes a profile exactly when it has an entry for the course's term |
| Transcript.FoldAsWrittenOnFirstTerm | controller/course.go:776-826 | when the course's term is the first entry, the written and the intended fold agree |
| Transcript.SecondTermCounterexample | controller/course.go:776-826 | a student whose course is in the second term entry: as written the course result is never recorded; the intended fold records it and adds the credit |
| Transcript.FoldEffect | controller/course.go:776-811 | the fold changes only the matching term entry; in it only the course's entry takes the marks and the credit; other entries and the identity fields are kept |
| Transcript.FoldKeepsCredits | controller/course.go:781-800 | when each term credit is the sum of its course credits and the profile credit the sum of the term credits, the fold that subtracts a previous credit keeps both sums |
| Transcript.FoldFreshAgree | controller/school_data.go:373-419 | for a course whose entry still has credit 0, the term-end fold (which adds without subtracting) equals the fold that subtracts |
| Transcript.FoldTermIdempotent | controller/course.go:776-811 | folding the same result into a term entry twice changes nothing the second time and adds no credit |
| Transcript.FoldIdempotent | controller/course.go:776-826 | finishing the same course twice with the same marks gives the same profile as once |
| Transcript.GradeCreditBounded | controller/course.go:805-807 | with grades between 0 and 4 and non-negative credits, the weighted grade total lies between 0 and 4 × the credit total |
| Transcript.TermGpaInScale | controller/course.go:805-809 | with grades in the 0–4 scale, the term GPA lies in the scale |
| Transcript.GpaCreditBounded | controller/course.go:812-815 | with term GPAs in scale, the weighted term total lies between 0 and 4 × the term credit total |
| Transcript.ProfileGpaInScale | controller/course.go:812-817 | with term GPAs in scale, the profile GPA lies in the 0–4 scale |
| Transcript.GradeCreditLoop | controller/course.go:805-807 | the loop computes the weighted grade total |
| Transcript.GpaCreditLoop | controller/course.go:812-815 | the loop computes the weighted term total |
| Transcript.FoldTermLoop | controller/course.go:776-809 | the loop over a term's course list computes the term fold |
| Transcript.FoldLoop | controller/course.go:775-817 | the loops over a profile compute the corrected fold, which searches every term entry for the course's term |
| Rollover.NatDigits | controller/school_data.go:473-474 | the decimal form of a number consists of digits |
| Rollover.AtoiItoa | controller/school_data.go:473-474 | parsing the decimal form of a year gives the year back |
| Rollover.NextTerm | controller/school_data.go:470-500 | the next term is defined exactly for terms "1" and "2"; any other term is "school data invalid" |
| Rollover.NextTermSteps | controller/school_data.go:470-500 | the next term is one term later: term 1 of a year is followed by its term 2, and term 2 by term 1 of the next year |
| Rollover.NextTermDiffers | controller/school_data.go:470-500 | the next term is never the current one |
| Rollover.PromoteLadder | controller/school_data.go:519-535 | class years 1 to 5 move one step up; class year 6 graduates |
| Rollover.PromoteOffLadder | controller/school_data.go:519-535 | a class year off the ladder is left as it is |
| Rollover.RollClass | controller/school_data.go:513-537 | a class already in the new term is skipped; otherwise it moves to the new term with a fresh grid and the same members, advisor and room, and is promoted only when the new term is "1" |
| Rollover.RollClassOnce | controller/school_data.go:513-515 | a class rolled and still open is skipped by a second roll to the same term |
| Rollover.AddTermEntryOnce | controller/school_data.go:562-580 | a term entry is added only when missing, after the existing ones; afterwards the profile has exactly one entry for the term, and adding again does nothing |
| Rollover.RollTeacher | controller/school_data.go:602-627 | a teacher without an entry for the new term gets a fresh grid and exactly one new empty entry, and nothing else changes; a teacher that has one is left as it is |
| Rollover.RollTeacherOnce | controller/school_data.go:602-627 | rolling a teacher twice to the same term changes nothing the second time |
| Attendance.BlankEntries | controller/check_name.go:560-571 | one entry per student, in the same order, with empty status and no time |
| Attendance.CreateCheckNameData | controller/check_name.go:560-571 | the append loop builds the blank entries |
| Attendance.NewRollCall | controller/check_name.go:74-132 | a roll call is created exactly for a course in progress, with a date, a positive lateness limit, a date on a meeting day and no record yet for that date; it is open, its cutoff is the limit in minutes after now, and every student has a blank entry; each guard gives its own error |
| Attendance.NewRollCallOnce | controller/check_name.go:112-116 | a second roll call for the same course and date is rejected |
| Attendance.CheckInGate | controller/check_name.go:287-315 | a mark is accepted exactly for an enrolled student with a marker of "teacher" or "server" |
| Attendance.MarkedStatus | controller/check_name.go:318-336 | a mark is "attend" exactly when it is not after the cutoff, and "late" otherwise |
| Attendance.MarkStudent | controller/check_name.go:318-336 | every entry of the student is marked; every other entry is unchanged |
| Attendance.MarkAfterClose | controller/check_name.go:276-315 | the mark guards do not look at the record's status, so a closed roll call still accepts marks |
| Attendance.CloseGate | controller/check_name.go:515-518 | only an open roll call can be closed; otherwise "this date not in progress" |
| Attendance.FillAbsent | controller/check_name.go:520-533 | every unmarked entry becomes absent; marked entries are unchanged; afterwards no entry is unmarked |
| Attendance.Closed | controller/check_name.go:546 | a closed roll call keeps its identity and cutoff and cannot be closed again |
| Scores.NotGradedEntries | controller/score.go:546-558 | one entry per student, in order, with status "not" and no score |
| Scores.CreateScoreInformation | controller/score.go:546-558 | the append loop builds the ungraded entries |
| Scores.NewScore | controller/score.go:66-115 | a score item is created exactly for a course in progress, with a name new to the course and a type of work, midterm or final, where midterm and final may exist only once per course; it has an ungraded entry per student |
| Scores.NewScoreKeepsUnique | controller/score.go:85-112 | adding an item keeps names unique within a course, and keeps at most one midterm and one final per course |
| Scores.NewScoreKeepsRange | controller/score.go:115-130 | adding an item keeps every score within its item's full mark |
| Scores.GradeGate | controller/score.go:196-242 | a score update is accepted exactly for an enrolled student, status "normal" or "late", a score at most the full mark and one entry per enrolled student |
| Scores.Graded | controller/score.go:244-251 | only the first entry of the student takes the score and status; all other entries are unchanged |
| Scores.GradeEntry | controller/score.go:244-251 | the update loop writes the first matching entry only |
| Scores.FirstScoreAt | controller/score.go:244-251 | the summary's entry lookup finds the same entry as the update loop |
| Scores.GradedIsSeen | controller/score.go:244-251 | after an update the summary sees the new score for the student |
| Scores.GradedKeepsRange | controller/score.go:236-251 | a non-negative score at most the full mark keeps every score within its item's full mark |
| Registry.NewTermRecord | controller/school_data.go:42-103 | a term is added exactly when year and term are given and the last term record is closed (or none exists); the new record is open; an open last record gives "term not finished" |
| Registry.NewTermBlocks | controller/school_data.go:76-81 | right after a term is added, adding another is refused |
| Registry.NewCategory | controller/school_data.go:105-157 | a category is added exactly when it is given and not yet registered |
| Registry.NewCategoryKeepsNoDup | controller/school_data.go:132-139 | adding a category keeps the category list free of duplicates |
| Registry.NewTeacher | controller/profile.go:275-368 | a teacher profile is created exactly for a new profile id with a name, a registered category, and an open oldest term record; it gets a fresh grid and one teaching entry for that term |
| Registry.StudentGate | controller/profile.go:370-402 | a student profile is created exactly for a new profile id with a name and an existing class |
| Registry.EnrolledIsInsert | controller/profile.go:404-419 | enrolment is a set insert: the list gains the student if absent and keeps no duplicates; a newly added student makes the count equal the list length; enrolling twice adds nothing; nothing else changes |
| Registry.AddToClass | controller/profile.go:404-419 | the scan and append compute the enrolment, and write only when the student was absent |
| Registry.NewStudentOneTerm | controller/profile.go:421-435 | a new student profile has exactly one term entry, for the class's term |
| Registry.NewSubject | controller/subject.go:49-143 | a subject is created exactly with a new id, name, class year, positive credit and a registered category, and lists no instructor |
| Registry.EditSubject | controller/subject.go:187-230 | an update overwrites name, category, class year and credit and keeps the id and instructors |
| Registry.InstructorGate | controller/subject.go:328-364 | an instructor is added exactly when not yet listed, with an existing teacher profile in the subject's category; each refusal has its own error |
| Registry.InstructorOnce | controller/subject.go:335-340 | after an instructor is added, the list has no duplicates and the same instructor is refused |
| Registry.NewClass | controller/class.go:49-83 | a class is created exactly when the newest term record is open; it is class year 1, room = number of year-1 classes + 1, open, with no advisor or students, a fresh grid and the newest term |
| Registry.NewRoomUnused | controller/class.go:49-83 | when year-1 rooms are numbered 1 to their count, the new class's room differs from every existing year-1 room |
| Registry.AdvisorGate | controller/class.go:266-300 | an advisor is set exactly when the class has none and the teacher exists and counsels no class; each refusal has its own error |
| Registry.SetAdvisorKeepsLinks | controller/class.go:302-311 | setting an advisor keeps the class-advisor link one-to-one in both directions |
| Registry.NewLocation | controller/location.go:53-99 | a location is created exactly when building, floor and room are given and no location has them; its id is building-floor-room, it is open and has a fresh grid |
| Registry.UpdateLocationAsWritten | controller/location.go:169-186 | as written, the new id is built from the stored fields, so the id stays that of the old address |
| Registry.UpdateLocationSticks | controller/location.go:169-186 | after moving a location to a new address its id still names the old one, and moving again is refused |
| Registry.UpdateLocation | controller/location.go:148-192 | the intended update keys the location by its new address, refuses an address another location has, and keeps its grid |
| Registry.UpdateLocationAgrees | controller/location.go:169-186 | on a location keyed by its own address, a request that keeps the address gets the same result from the written and the corrected rule, and is accepted |
| Registry.UpdateLocationRepeatable | controller/location.go:169-186 | repeating an accepted update is accepted and changes nothing |
| Courses.CourseTerm | controller/course.go:57-69 | a course can be created only when the oldest term record is open; its term is the newest record's |
| Courses.CourseGate | controller/course.go:39-184 | creation passes exactly when: a term exists; the subject exists and lists the instructor; the class exists and is open; the location exists; no course pairs the subject with the class (the corrected duplicate check of the third Findings row); meetings are given; the teacher exists. The draft course is in create, named subject-year-term, with the subject's credit and the class's students |
| Courses.CourseGateOnce | controller/course.go:152-156 | with the corrected duplicate check, once a course pairs the subject and class, a second one is refused |
| Courses.CourseGateAsWritten | controller/course.go:39-184 | the gate as the handler runs it, whose duplicate lookup matches no stored course: it passes exactly on the other checks of `CourseGate` and never reports an existing course |
| Courses.CourseGateAgrees | controller/course.go:152-160 | where no stored course pairs the subject with the class, the gate as written and the corrected gate give the same result |
| Courses.RepeatCourseAccepted | controller/course.go:152-160 | after a course for the subject and class is stored, the gate as written still accepts a second one, while the corrected gate refuses it |
| Courses.TeachCourse | controller/course.go:205-210 | the course id is appended to the teacher's entry for the term, and nothing else changes |
| Courses.JoinCourse | controller/course.go:357-388 | each student's entry for the term gets an empty result for the course; credits and GPA are unchanged |
| Courses.JoinKeepsCredits | controller/course.go:357-388 | joining a course keeps the credit sums of a profile |
| Courses.JoinThenFoldAgree | controller/school_data.go:373-419 | for a course joined at creation, the term-end fold and the finishing fold give the same profile |
| Courses.JoinAll | controller/course.go:357-388 | joining succeeds exactly when every enrolled student has a profile, and otherwise reports a missing student |
| Courses.JoinAllSnoc | controller/course.go:357-388 | joining a list one student longer is joining the list and then that student, or a missing student when that student has no profile |
| Courses.JoinAllKeepsCredits | controller/course.go:357-388 | joining every student keeps every profile's credit sums |
| Courses.FoldAll | controller/course.go:760-827 | folding a summary with the corrected fold succeeds exactly when every summarised student has a profile, keeps the set of profiles, and otherwise reports a missing student |
| Courses.FoldAllSnoc | controller/course.go:760-827 | folding one more summary line is folding the lines before it, then that line, or a missing student when its profile is absent |
| Courses.FoldAllAdvance | controller/course.go:760-827 | one turn of the profile loop: folding the next line moves the pass over the remaining lines and the pass over the lines done one line on |
| Courses.FoldAllOthers | controller/course.go:760-827 | a profile without a row in the summary is left unchanged |
| Courses.FoldAllKeepsCredits | controller/course.go:760-827 | folding a whole summary with the corrected fold keeps every profile's credit sums |
| Courses.FoldOneTwice | controller/course.go:776-826 | with the corrected fold, finishing a course twice for one student gives the same profile as once |
| Store.RollCallIndex | controller/check_name.go:276-283 | the roll call found has the course and date, and none is found only when no roll call has them |
| Store.ScoreIndex | controller/score.go:192-199 | the score item found has the course and name, and none is found only when no item has them |
| Store.ScoresOf | controller/course_summary.go:257-264 | exactly the score items of the course |
| Store.RollCallsOf | controller/course_summary.go:267-274 | exactly the roll calls of the course |
| Store.Book | controller/course.go:212-334 | the three passes run the class pass, then the teacher and location marks, each stopping at its own conflict |
| Store.Store.AddYearAndTerm | controller/school_data.go:42-103 | appends the new open term record exactly when it is accepted; otherwise nothing changes |
| Store.Store.AddSubjectCategory | controller/school_data.go:105-157 | appends the category exactly when it is accepted, keeping the list free of duplicates |
| Store.Store.CreateNewProfile | controller/profile.go:192-273 | a teacher profile is written, or a student profile is written with the student inserted into the class; the role must be teacher or student; every failure writes nothing |
| Store.Store.CreateSubject | controller/subject.go:35-152 | inserts the new subject under its new id exactly when it is accepted |
| Store.Store.UpdateSubject | controller/subject.go:154-242 | an existing subject is replaced by its update; an unknown subject is "not found"; a failure writes nothing |
| Store.Store.AddInstructor | controller/subject.go:295-386 | the instructor is appended to the subject once and the teacher's subject is set; the list stays free of duplicates; a failure writes nothing |
| Store.Store.CreateClass | controller/class.go:41-113 | inserts the new class exactly when it is accepted |
| Store.Store.SetAdvisor | controller/class.go:228-321 | links class and teacher both ways, keeps every link one-to-one, and writes nothing on failure |
| Store.Store.CreateLocation | controller/location.go:34-108 | inserts the new location exactly when it is accepted |
| Store.Store.UpdateLocationData | controller/location.go:110-202 | replaces the location by its corrected update, keyed by its new address; a failure writes nothing |
| Store.Store.CourseOf | controller/course.go:727-735 | the course id is the trimmed request and names a stored course |
| Store.Store.JoinStudents | controller/course.go:357-388 | the student loop writes each profile as joining every student does. On a missing profile it fails with "student not found", leaving exactly the earlier members joined |
| Store.Store.CreateCourse | controller/course.go:39-399 | a failed guard or a slot conflict writes nothing. Otherwise the course is stored with its meetings and the class and teacher grids are marked. Then every student joins and the location grid is marked; a missing profile fails before the location is written, with the earlier members already joined. Credit sums are kept |
| Store.Store.Place | controller/course.go:337-395 | the writes happen in order: the course, class and teacher first; then the students; the location last, only when every student was found. A missing profile fails with "student not found", leaving exactly the earlier members joined |
| Store.Store.ChangeCourseStatus | controller/course.go:401-555 | succeeds exactly when the trimmed id names a course and the lifecycle accepts the trimmed event from the course's status with its links; the course then moves one lifecycle step; a refused event writes nothing |
| Store.Store.SummaryCourse | controller/course_summary.go:213-437 | a course in progress gets one row per student (with the corrected work mark), replacing any earlier rows; the summary id is kept if one exists; the course moves to summary; a failure writes nothing |
| Store.Store.FoldStudents | controller/course.go:760-827 | the profile loop computes the summary fold, with the corrected per-profile fold. On a missing profile it fails with "student not found", leaving exactly the earlier lines folded |
| Store.Store.FoldStudent | controller/course.go:773-820 | one profile is replaced by its corrected fold |
| Store.Store.FinishOne | controller/course.go:752-870 | a missing summary writes nothing. Otherwise the profiles are folded with the corrected fold and the course finished; then the location releases the course's cells. A missing profile fails with the earlier lines folded and the course and locations untouched. A missing location fails with every profile folded, the course finished and the locations untouched |
| Store.Store.FinishCourse | controller/course.go:714-878 | succeeds exactly for a stored course in summary whose summary, profiles and location are all found; only a course in summary is finished; its profiles take the corrected fold; it releases its location's cells and keeps credit sums; a malformed or unknown id, or a course not in summary ("status invalid"), writes nothing; a missing summary writes nothing; a missing profile leaves the earlier lines folded; a missing location leaves the profiles folded and the course finished |
| Store.Store.FinishTerm | controller/school_data.go:346-466 | every course of the term in summary is finished (profiles take the corrected fold), and no other course changes |
| Store.Store.AddTermEntries | controller/school_data.go:547-587 | every listed profile, and no other, gets an empty entry for the new term appended when it has none, the rest of the profile kept; a missing profile fails with exactly the earlier members written |
| Store.Store.RollClasses | controller/school_data.go:504-587 | with no open class it fails with "not found" and writes nothing; with one, it succeeds exactly when every member of each class left open has a profile, and then every open class is rolled to the new term and every such member has an entry for it; a failure is "not found" and leaves each class and profile either as it was or as rolled |
| Store.Store.RollOne | controller/school_data.go:513-587 | one open class is rolled; when it stays open each member gets the new term entry; it succeeds exactly when those members all have profiles, and changes no profile beyond adding that entry |
| Store.WithTermOnce | controller/school_data.go:562-580 | adding the new term entry a second time changes nothing |
| Store.Store.RollTeachers | controller/school_data.go:593-627 | fails with "not found" exactly when there is no teacher, writing nothing; otherwise every teacher is rolled to the new term |
| Store.Store.EndTerm | controller/school_data.go:292-638 | succeeds only for an open newest term whose every course is in summary or finish, and term 1 or 2. Its summary courses are finished with the corrected fold; classes and teachers roll to the next term; students of open classes get entries for it; the next term is appended, open. The newest record itself is left as stored. Failed guards write nothing. With no open class or no teacher it fails and appends no record |
| Store.Store.AddDateForCheck | controller/check_name.go:36-143 | appends the new roll call exactly when it is accepted |
| Store.Store.CheckNameStudent | controller/check_name.go:226-348 | the roll call of the course and date has every entry of the student marked by the cutoff, and nothing else changes; a failure writes nothing |
| Store.Store.EndDateCheckName | controller/check_name.go:456-558 | the open roll call is closed with every unmarked entry absent, and then holds no unmarked entry; a failure writes nothing |
| Store.Store.CreateScore | controller/score.go:33-138 | appends the new item exactly when it is accepted, keeping names unique and scores within their full marks |
| Store.Store.UpdateStudentScore | controller/score.go:140-270 | the student's first entry in the named item takes the score and status, which the summary then reads; other entries are unchanged; a failure writes nothing |

## Left out

- HTTP request parsing, JSON responses, authentication, the user-account insert of `CreateNewProfile`, and the parent role are not part of this model. A role other than teacher or student fails.
- Persistence is in-memory: every repository is a map or sequence of the `Store`. Repository errors other than "not found" cannot happen.
- Fresh ObjectIDs are parameters (`id`, `newId`), required to be unused.
- The clock (`time.Now`) and calendar parsing are parameters:
  - instants are integers;
  - a roll call's cutoff is `now + 60 × minutes`;
  - the weekday of a date is an input, and `None` means the date did not parse, which is reported as an invalid date.
- The creation and update timestamps are not modelled. Term records are kept in creation order, so the newest record is the last one.
- A roll-call entry's mark time is an integer instant, not the source's formatted clock string. The `UpdatedAt` timestamps of entries and roll calls are dropped. The marker (`check_by`) and status are kept.
- Floating point: scores, grades and GPAs are exact reals, so NaN and infinity cannot arise. A GPA with a zero credit total is 0; the source divides by zero there.
- `util.CheckFloatData` is not part of this model. Full marks and scores arrive as already-checked reals.
- Year parsing for the next term uses `Rollover.Atoi`, which reads an optional minus sign and decimal digits. Non-numeric text gives 0, which is what `strconv.Atoi` returns with its error ignored. Overflow is not modelled.
- `AddInstructor` receives a single instructor id. In the source the request field is a list passed to the string check.
- The course-id lookup (`GetCourseById`, and the `course_id` filter of scores and roll calls) is exact key lookup. A malformed ObjectID gives "not found".
- A course's location is chosen by the caller. `CreateCourse` and `UpdateLocationData` take the key of the stored location whose id matches the request as a parameter (`loc`, tied by `LocationFound`).
- When `FinishCourse` or `EndTerm` finds no summary, the model fails with "not found" before any write; the source dereferences a nil summary there.
- A term record with a missing status, year or term: `Registry.NewTermRecord`, `Registry.NewTeacher`, `Registry.NewClass` and `Courses.CourseTerm` fail with "school data invalid", while the source dereferences the nil field and panics (controller/school_data.go:77, controller/profile.go:342-348, controller/class.go:65-70, controller/course.go:64-69). No modelled handler writes such a record.
- `Store.Store.FinishTerm`: the courses of the term are finished in an unspecified order, and only the course states are stated. The profile and location writes are those of `FinishOne` for each course, but are not collected into one formula.
- `Store.Store.EndTerm`: the students and locations after a successful rollover are stated only through the new-term entries of open classes' members and the course states. A failure after the courses were finished (an unknown next term, no open class, no teacher, a missing profile) is stated only as "no term record appended".
- `Store.Store.RollClasses`: the classes are rolled in an unspecified order, where the source follows the repository's list order. So after a member without a profile stops the pass, the contract says only that each class and profile is either unchanged or rolled, not which ones. On success, students are stated only to gain the new term entry, not as an equation.
- Grading.StudentRowValue: models the corrected work mark of the second Findings row (`Grading.WorkScore`), not the unguarded division at controller/course_summary.go:345-347. It agrees with the source whenever the course has work marks (the contract of `Grading.WorkScore`). With no work item the source gives grade 0 (`Grading.NoWorkItemsCounterexample`).
- Grading.StudentRowLoop: computes the row with the corrected work mark of the second Findings row, as `Grading.StudentRowValue` does.
- Grading.SummarizeRows: the rows use the corrected work mark of the second Findings row.
- Grading.SummarizeLoop: computes rows with the corrected work mark of the second Findings row.
- Store.Store.SummaryCourse: stores rows with the corrected work mark of the second Findings row. The source stores grade 0 for every student of a course without work items.
- Transcript.FoldLoop: computes the corrected fold of the first Findings row (`Transcript.Fold`), not the loop at controller/course.go:775-826, which examines only the first term entry (`Transcript.FoldAsWritten`). The two agree when the course's term is the first entry (`Transcript.FoldAsWrittenOnFirstTerm`).
- Courses.FoldAll: folds every profile with the corrected fold of the first Findings row.
- Courses.FoldAllKeepsCredits: is proved of the corrected fold of the first Findings row only.
- Courses.FoldOneTwice: is proved of the corrected fold of the first Findings row only.
- Store.Store.FoldStudents: applies the corrected fold of the first Findings row to each summarised profile.
- Store.Store.FoldStudent: replaces the profile by its corrected fold (first Findings row).
- Store.Store.FinishOne: folds profiles with the corrected fold of the first Findings row. The source records nothing for a student whose first term entry is another term.
- Store.Store.FinishCourse: folds profiles with the corrected fold of the first Findings row. Its credit-sum guarantee is therefore one about the corrected fold.
- Store.Store.FinishTerm: finishes courses with the corrected fold of the first Findings row, in place of controller/school_data.go:373-419.
- Store.Store.EndTerm: finishes the term's summary courses with the corrected fold of the first Findings row, in place of controller/school_data.go:373-419.
- Courses.CourseGate: refuses a second course for the same subject and class, the corrected duplicate check of the third Findings row (controller/course.go:152-160). The source never finds the earlier course and creates the duplicate (`Courses.CourseGateAsWritten`, `Courses.RepeatCourseAccepted`). The two gates agree whenever no stored course pairs the subject with the class (`Courses.CourseGateAgrees`).
- Courses.CourseGateOnce: is proved of the corrected duplicate check only. As written, the repeat is accepted (`Courses.RepeatCourseAccepted`).
- Store.Store.CreateCourse: runs the corrected gate of the third Findings row (controller/course.go:152-160). Where the source would store a second course for the same subject and class, the model refuses it with "already exists" and writes nothing.
- Store.Store.UpdateLocationData: applies the corrected rule of the fourth Findings row (controller/location.go:169-186) (`Registry.UpdateLocation`). The source keeps the id of the old address and refuses any later update of a moved location (`Registry.UpdateLocationSticks`). The two agree on a request that keeps the address (`Registry.UpdateLocationAgrees`).
- Class and teacher grids are not released when a course finishes, as in the source. Only `EndTerm` resets them.
- Read-only query handlers (`GetCourseByYearAndTerm`, `GetSummaryCourse`, `GetScoreByCourseId`, `GetDateByCourseId` and the like), face detection, file storage, chat and `UpdateSchoolData` are not part of this model.

## Findings

| source | as written | input that shows it | evidently intended | confidence | as-written member | corrected member |
|---|---|---|---|---|---|---|
| controller/course.go:776-826 | the loop over term entries ends with an unconditional `break`, so only the first term entry is examined (also controller/school_data.go:373-419) | a student whose entries are term 1 and term 2 of 2023, finishing a course of term 2 | the course result is written into the matching term entry, whichever position it has | not executed | Transcript.SecondTermCounterexample | Transcript.Fold |
| controller/course_summary.go:345-347 | the work mark is normalised by dividing by the work items' full total, unguarded | a course with a midterm (50) and a final (50) but no work item: 0/0 is NaN and the grade ladder gives 0 | with no work items the work mark is 0, so 45 + 45 earns grade 4 | not executed | Grading.NoWorkItemsCounterexample | Grading.WorkScore |
| controller/course.go:152-160 | the duplicate lookup filters courses by `class_id` equal to the trimmed request string, but a stored course holds `class_id` as an object id (controller/course.go:176, models/course.go:22), so under MongoDB's type-strict equality the lookup never matches. `GetCourseByFilter` is also not declared in the course repository interface (repository/course.go:16-21) | creating a course for subject S and class C, then sending S and C again with meeting times that do not clash: a second course is inserted | a second course for the same subject and class is refused with "already exists" | not executed; rests on MongoDB comparing a string with an object id as unequal | Courses.RepeatCourseAccepted | Courses.CourseGate |
| controller/location.go:169-186 | the "new" location id is built from the stored building, floor and room before they are overwritten | moving location A-1-101 to building B: the id stays A-1-101 and a second move is refused | the id is rebuilt from the new address, and a repeated update is accepted | not executed | Registry.UpdateLocationSticks | Registry.UpdateLocation |
