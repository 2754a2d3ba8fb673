/**
 * The course lifecycle: create, progress, summary, finish, with the
 * repair edge from summary back to progress.
 */
module Lifecycle {
  import opened Common

  /** The four values the handlers ever write into a course's status. */
  datatype CourseStatus = Create | Progress | Summary | Finish

  /** The events `ChangeCourseStatus` understands. */
  datatype Event = ChangeToProgress | ChangeReverseSummary | ChangeToFinish

  /** The event named by a (trimmed) request string, if it names one. */
  function ParseEvent(s: string): (r: Option<Event>)
    ensures r == Some(ChangeToProgress) <==> s == "ChangeToProgress"
    ensures r == Some(ChangeReverseSummary) <==> s == "ChangeReverseSummary"
    ensures r == Some(ChangeToFinish) <==> s == "ChangeToFinish"
  {
    if s == "ChangeToProgress" then Some(ChangeToProgress)
    else if s == "ChangeReverseSummary" then Some(ChangeReverseSummary)
    else if s == "ChangeToFinish" then Some(ChangeToFinish)
    else None
  }

  /**
   * The links the repair edge requires to be present before a course may
   * go back to progress.
   */
  datatype Links = Links(subjectId: string, instructorId: string, locationId: Option<Id>, classId: Option<Id>)

  /** The transition `ChangeCourseStatus` performs for a recognised event string. */
  function ChangeStatus(event: string, st: CourseStatus, links: Links): (r: Result<CourseStatus>)
    ensures ParseEvent(event).None? ==> r == Err(EventInvalid)
    ensures r.Ok? ==> (st == Create && r.value == Progress) || (st == Summary && r.value in {Progress, Finish})
    ensures event == "ChangeToProgress" ==> (r.Ok? <==> st == Create)
    ensures event == "ChangeToFinish" ==> (r.Ok? <==> st == Summary)
    ensures event == "ChangeReverseSummary" ==>
      (r.Ok? <==> st == Summary && links.subjectId != "" && links.instructorId != "" && links.locationId.Some? && links.classId.Some?)
    ensures r.Ok? && event == "ChangeToFinish" ==> r.value == Finish
    ensures r.Ok? && event != "ChangeToFinish" ==> r.value == Progress
  {
    match ParseEvent(event)
    case None => Err(EventInvalid)
    case Some(ChangeToProgress) =>
      if st != Create then Err(StatusInvalid("create")) else Ok(Progress)
    case Some(ChangeReverseSummary) =>
      if st != Summary then Err(StatusInvalid("summary"))
      else if links.subjectId == "" then Err(FieldNil("subject id"))
      else if links.instructorId == "" then Err(FieldNil("instructor id"))
      else if links.locationId.None? then Err(FieldNil("location id"))
      else if links.classId.None? then Err(FieldNil("class id"))
      else Ok(Progress)
    case Some(ChangeToFinish) =>
      if st != Summary then Err(StatusInvalid("final")) else Ok(Finish)
  }

  /**
   * Every status change any handler makes: the three edges of
   * `ChangeCourseStatus`, `SummaryCourse` (progress to summary) and
   * `FinishCourse`/`EndTerm` (summary to finish).
   */
  predicate Step(a: CourseStatus, b: CourseStatus)
  {
    (a == Create && b == Progress)
    || (a == Progress && b == Summary)
    || (a == Summary && (b == Progress || b == Finish))
  }

  /** A successful `ChangeCourseStatus` is one of the lifecycle steps. */
  lemma ChangeStatusIsStep(event: string, st: CourseStatus, links: Links)
    requires ChangeStatus(event, st, links).Ok?
    ensures Step(st, ChangeStatus(event, st, links).value)
  {
  }

  /** A history of statuses, each one a lifecycle step from the one before. */
  predicate Run(h: seq<CourseStatus>)
  {
    forall k :: 0 < k < |h| ==> Step(h[k - 1], h[k])
  }

  /** Once a course leaves create it never returns to it. */
  lemma {:induction false} NeverBackToCreate(h: seq<CourseStatus>, k: nat)
    requires Run(h) && 0 < k < |h|
    ensures h[k] != Create
  {
    assert Step(h[k - 1], h[k]);
  }

  /** Finish is final: no step leaves it. */
  lemma FinishIsFinal(b: CourseStatus)
    ensures !Step(Finish, b)
  {
  }

  /**
   * A course created in `create` that is now in `finish` went through
   * `summary` right before, and through `progress` at some point.
   */
  lemma {:induction false} FinishThroughSummary(h: seq<CourseStatus>)
    requires Run(h) && |h| > 0 && h[0] == Create && h[|h| - 1] == Finish
    ensures |h| >= 3 && h[|h| - 2] == Summary
    ensures Progress in h
  {
    var n := |h|;
    assert n > 1;
    assert Step(h[n - 2], h[n - 1]);
    assert h[n - 2] == Summary;
    assert n > 2;
    SummaryAfterProgress(h, n - 2);
  }

  /** Any `summary` in a run that began in `create` was preceded by a `progress`. */
  lemma SummaryAfterProgress(h: seq<CourseStatus>, k: nat)
    requires Run(h) && |h| > 0 && h[0] == Create && k < |h| && h[k] == Summary
    ensures exists j :: 0 < j < k && h[j] == Progress
  {
    assert k > 0;
    assert Step(h[k - 1], h[k]);
    // the only edge into summary comes from progress
    assert h[k - 1] == Progress;
    assert 0 < k - 1 < k;
  }
}
