/**
 * Course creation and completion as seen from the other records: the
 * checks `CreateCourse` makes before it books any slot, the course list
 * entries it appends to the teacher and to every student of the class,
 * and the profile folds of `FinishCourse` and `EndTerm` over a whole
 * course summary.
 */
module Courses {
  import opened Common
  import opened Validate
  import opened SlotGrid
  import opened Booking
  import opened Lifecycle
  import opened Records
  import opened Transcript
  import opened Rollover

  // ------------------------------------------------------------ the checks

  /**
   * The term a new course is created in. The OLDEST term record must be
   * open, while the year and the term are read from the NEWEST one. With
   * no record, or a record missing a field, the handler cannot proceed.
   */
  function CourseTerm(terms: seq<TermRecord>): (r: Result<(string, string)>)
    ensures r.Ok? <==>
      (terms != [] && terms[0].status == Some(false)
       && terms[|terms| - 1].year.Some? && terms[|terms| - 1].term.Some?)
    ensures r.Ok? ==> r.value == (terms[|terms| - 1].year.value, terms[|terms| - 1].term.value)
  {
    if terms == [] then Err(NotFound("school data"))
    else if terms[0].status != Some(false) then Err(SchoolDataInvalid)
    else if terms[|terms| - 1].year.None? || terms[|terms| - 1].term.None? then Err(SchoolDataInvalid)
    else Ok((terms[|terms| - 1].year.value, terms[|terms| - 1].term.value))
  }

  /**
   * `loc` is what a lookup of the locations by their `location_id` field
   * returns: the key of one location with that id, or nothing when there
   * is none. Which of several equal ids it returns is not fixed.
   */
  predicate LocationFound(locations: map<Id, Location>, name: string, loc: Option<Id>)
  {
    (loc.Some? ==> loc.value in locations && locations[loc.value].locationId == name)
    && (loc.None? ==> forall k :: k in locations ==> locations[k].locationId != name)
  }

  /** Some course already teaches this subject to this class. */
  predicate Paired(courses: map<Id, Course>, subjectId: string, classId: Id)
  {
    exists k :: k in courses && courses[k].subjectId == subjectId && courses[k].classId == Some(classId)
  }

  /** A course that passed the checks, with the class and the location it books. */
  datatype Draft = Draft(course: Course, classId: Id, locKey: Id)

  /**
   * The checks of `CreateCourse` before any slot is booked, in the
   * handler's order: the term, subject and instructor ids, the subject,
   * the instructor being one of the subject's, the class id, the class,
   * the class being open, the location id and the location (looked up by
   * the id as sent), no course for the same subject and class yet (the
   * intended check; `CourseGateAsWritten` is the handler's), a
   * non-empty meeting list, and the teacher's profile. The draft course
   * is in status create and copies the class's members.
   */
  function CourseGate(terms: seq<TermRecord>, subjectIdIn: string, instructorIdIn: string, classIdIn: string,
                      locationIdIn: string, loc: Option<Id>, dtsIn: seq<DateTime>,
                      subjects: map<string, Subject>, classes: map<Id, ClassData>, locations: map<Id, Location>,
                      courses: map<Id, Course>, teachers: map<string, Teacher>): (r: Result<Draft>)
    requires LocationFound(locations, locationIdIn, loc)
    ensures r.Ok? <==>
      (CourseTerm(terms).Ok? && CheckStringData(subjectIdIn, "subject_id").Ok?
       && CheckStringData(instructorIdIn, "instructor_id").Ok?
       && CheckStringData(subjectIdIn, "subject_id").value in subjects
       && CheckStringData(instructorIdIn, "instructor_id").value in subjects[CheckStringData(subjectIdIn, "subject_id").value].instructorId
       && CheckStringData(classIdIn, "class_id").Ok? && CheckStringData(classIdIn, "class_id").value in classes
       && !classes[CheckStringData(classIdIn, "class_id").value].status
       && CheckStringData(locationIdIn, "location_id").Ok? && loc.Some?
       && !Paired(courses, CheckStringData(subjectIdIn, "subject_id").value, CheckStringData(classIdIn, "class_id").value)
       && dtsIn != [] && CheckStringData(instructorIdIn, "instructor_id").value in teachers)
    ensures r.Ok? ==>
      (var (year, term) := CourseTerm(terms).value;
       var subject := subjects[CheckStringData(subjectIdIn, "subject_id").value];
       var cls := classes[CheckStringData(classIdIn, "class_id").value];
       r.value.classId == CheckStringData(classIdIn, "class_id").value
       && Some(r.value.locKey) == loc
       && r.value.course == Course(Create, CheckStringData(subjectIdIn, "subject_id").value,
                                   CheckStringData(instructorIdIn, "instructor_id").value,
                                   subject.name + "-" + year + "-" + term, subject.credit, year, term,
                                   cls.numberOfStudent, cls.studentIdList, loc, [], Some(r.value.classId),
                                   cls.year, cls.classRoom))
    ensures (CourseTerm(terms).Ok? && CheckStringData(subjectIdIn, "subject_id").Ok?
             && CheckStringData(instructorIdIn, "instructor_id").Ok?
             && CheckStringData(subjectIdIn, "subject_id").value in subjects
             && CheckStringData(instructorIdIn, "instructor_id").value !in
                  subjects[CheckStringData(subjectIdIn, "subject_id").value].instructorId) ==> r == Err(InstructorNotInSubject)
  {
    var (year, term) :- CourseTerm(terms);
    var subjectId :- CheckStringData(subjectIdIn, "subject_id");
    var instructorId :- CheckStringData(instructorIdIn, "instructor_id");
    if subjectId !in subjects then Err(NotFound("subject_id"))
    else
      var subject := subjects[subjectId];
      if instructorId !in subject.instructorId then Err(InstructorNotInSubject)
      else
        var classId :- CheckStringData(classIdIn, "class_id");
        if classId !in classes then Err(NotFound("class"))
        else
          var cls := classes[classId];
          if cls.status then Err(ClassFinished)
          else
            var _ :- CheckStringData(locationIdIn, "location_id");
            if loc.None? then Err(NotFound("location"))
            else if Paired(courses, subjectId, classId) then Err(AlreadyExists("course data subject and class"))
            else if dtsIn == [] then Err(RequireParameter("date_time"))
            else if instructorId !in teachers then Err(NotFound("teacher"))
            else
              Ok(Draft(Course(Create, subjectId, instructorId, subject.name + "-" + year + "-" + term, subject.credit,
                              year, term, cls.numberOfStudent, cls.studentIdList, loc, [], Some(classId),
                              cls.year, cls.classRoom),
                       classId, loc.value))
  }

  /** A second course for the same subject and class is refused once the first is stored. */
  lemma CourseGateOnce(terms: seq<TermRecord>, subjectIdIn: string, instructorIdIn: string, classIdIn: string,
                       locationIdIn: string, loc: Option<Id>, dtsIn: seq<DateTime>,
                       subjects: map<string, Subject>, classes: map<Id, ClassData>, locations: map<Id, Location>,
                       courses: map<Id, Course>, teachers: map<string, Teacher>, id: Id, c: Course)
    requires LocationFound(locations, locationIdIn, loc)
    requires CourseGate(terms, subjectIdIn, instructorIdIn, classIdIn, locationIdIn, loc, dtsIn,
                        subjects, classes, locations, courses, teachers).Ok?
    requires var d := CourseGate(terms, subjectIdIn, instructorIdIn, classIdIn, locationIdIn, loc, dtsIn,
                                 subjects, classes, locations, courses, teachers).value;
      c.subjectId == d.course.subjectId && c.classId == d.course.classId
    ensures CourseGate(terms, subjectIdIn, instructorIdIn, classIdIn, locationIdIn, loc, dtsIn,
                       subjects, classes, locations, courses[id := c], teachers) == Err(AlreadyExists("course data subject and class"))
  {
    var d := CourseGate(terms, subjectIdIn, instructorIdIn, classIdIn, locationIdIn, loc, dtsIn,
                        subjects, classes, locations, courses, teachers).value;
    assert courses[id := c][id] == c;
    assert Paired(courses[id := c], d.course.subjectId, d.classId);
  }

  /**
   * The gate as the handler runs it. Its duplicate lookup filters the
   * courses by `class_id` equal to the request's string, while a stored
   * course holds the class as an object id, so the lookup never finds a
   * course: the gate behaves as if no course were stored.
   */
  function CourseGateAsWritten(terms: seq<TermRecord>, subjectIdIn: string, instructorIdIn: string, classIdIn: string,
                               locationIdIn: string, loc: Option<Id>, dtsIn: seq<DateTime>,
                               subjects: map<string, Subject>, classes: map<Id, ClassData>, locations: map<Id, Location>,
                               teachers: map<string, Teacher>): (r: Result<Draft>)
    requires LocationFound(locations, locationIdIn, loc)
    ensures r.Ok? <==>
      (CourseTerm(terms).Ok? && CheckStringData(subjectIdIn, "subject_id").Ok?
       && CheckStringData(instructorIdIn, "instructor_id").Ok?
       && CheckStringData(subjectIdIn, "subject_id").value in subjects
       && CheckStringData(instructorIdIn, "instructor_id").value in subjects[CheckStringData(subjectIdIn, "subject_id").value].instructorId
       && CheckStringData(classIdIn, "class_id").Ok? && CheckStringData(classIdIn, "class_id").value in classes
       && !classes[CheckStringData(classIdIn, "class_id").value].status
       && CheckStringData(locationIdIn, "location_id").Ok? && loc.Some?
       && dtsIn != [] && CheckStringData(instructorIdIn, "instructor_id").value in teachers)
    ensures r != Err(AlreadyExists("course data subject and class"))
  {
    CourseGate(terms, subjectIdIn, instructorIdIn, classIdIn, locationIdIn, loc, dtsIn, subjects, classes, locations,
               map[], teachers)
  }

  /** Where no stored course pairs the subject with the class, the gate as written and the intended gate agree. */
  lemma CourseGateAgrees(terms: seq<TermRecord>, subjectIdIn: string, instructorIdIn: string, classIdIn: string,
                         locationIdIn: string, loc: Option<Id>, dtsIn: seq<DateTime>,
                         subjects: map<string, Subject>, classes: map<Id, ClassData>, locations: map<Id, Location>,
                         courses: map<Id, Course>, teachers: map<string, Teacher>)
    requires LocationFound(locations, locationIdIn, loc)
    requires CheckStringData(subjectIdIn, "subject_id").Ok? && CheckStringData(classIdIn, "class_id").Ok? ==>
      !Paired(courses, CheckStringData(subjectIdIn, "subject_id").value, CheckStringData(classIdIn, "class_id").value)
    ensures CourseGateAsWritten(terms, subjectIdIn, instructorIdIn, classIdIn, locationIdIn, loc, dtsIn,
                                subjects, classes, locations, teachers)
         == CourseGate(terms, subjectIdIn, instructorIdIn, classIdIn, locationIdIn, loc, dtsIn,
                       subjects, classes, locations, courses, teachers)
  {
  }

  /**
   * As written, a second course for the same subject and class is
   * accepted, where the intended gate refuses it.
   */
  lemma RepeatCourseAccepted(terms: seq<TermRecord>, subjectIdIn: string, instructorIdIn: string, classIdIn: string,
                             locationIdIn: string, loc: Option<Id>, dtsIn: seq<DateTime>,
                             subjects: map<string, Subject>, classes: map<Id, ClassData>, locations: map<Id, Location>,
                             courses: map<Id, Course>, teachers: map<string, Teacher>, id: Id, c: Course)
    requires LocationFound(locations, locationIdIn, loc)
    requires CourseGate(terms, subjectIdIn, instructorIdIn, classIdIn, locationIdIn, loc, dtsIn,
                        subjects, classes, locations, courses, teachers).Ok?
    requires var d := CourseGate(terms, subjectIdIn, instructorIdIn, classIdIn, locationIdIn, loc, dtsIn,
                                 subjects, classes, locations, courses, teachers).value;
      c.subjectId == d.course.subjectId && c.classId == d.course.classId
    ensures CourseGateAsWritten(terms, subjectIdIn, instructorIdIn, classIdIn, locationIdIn, loc, dtsIn,
                                subjects, classes, locations, teachers).Ok?
    ensures CourseGate(terms, subjectIdIn, instructorIdIn, classIdIn, locationIdIn, loc, dtsIn,
                       subjects, classes, locations, courses[id := c], teachers).Err?
  {
    CourseGateOnce(terms, subjectIdIn, instructorIdIn, classIdIn, locationIdIn, loc, dtsIn,
                   subjects, classes, locations, courses, teachers, id, c);
  }

  // ------------------------------------------------------------ course lists

  /**
   * The teacher's first course list entry for (`year`, `term`) gets the
   * course id appended; a teacher without such an entry is unchanged.
   */
  function TeachCourse(t: Teacher, year: string, term: string, cid: Id): (r: Teacher)
    ensures r.slot == t.slot && |r.courseTeachesList| == |t.courseTeachesList|
    ensures TeachKeys(r.courseTeachesList) == TeachKeys(t.courseTeachesList)
    ensures (year, term) in TeachKeys(t.courseTeachesList) ==>
      var i := IndexOf(TeachKeys(t.courseTeachesList), (year, term)).value;
      r.courseTeachesList == t.courseTeachesList[i := t.courseTeachesList[i].(courseIdList := t.courseTeachesList[i].courseIdList + [cid])]
    ensures (year, term) !in TeachKeys(t.courseTeachesList) ==> r == t
  {
    match IndexOf(TeachKeys(t.courseTeachesList), (year, term))
    case None => t
    case Some(i) =>
      var e := t.courseTeachesList[i];
      t.(courseTeachesList := t.courseTeachesList[i := e.(courseIdList := e.courseIdList + [cid])])
  }

  /** The empty course entry `CreateCourse` appends to a student's term. */
  function Joined(cid: Id): CourseResult
  {
    CourseResult(cid, NoMarks, 0)
  }

  /**
   * The student's first term entry for (`year`, `term`) gets an empty
   * entry for the course appended; a student without such an entry is
   * written back unchanged.
   */
  function JoinCourse(p: Student, year: string, term: string, cid: Id): (r: Student)
    ensures TermKeys(r.termScore) == TermKeys(p.termScore)
    ensures r.allCredit == p.allCredit && r.gpa == p.gpa
    ensures (year, term) in TermKeys(p.termScore) ==>
      var i := IndexOf(TermKeys(p.termScore), (year, term)).value;
      r.termScore == p.termScore[i := p.termScore[i].(courseList := p.termScore[i].courseList + [Joined(cid)])]
    ensures (year, term) !in TermKeys(p.termScore) ==> r == p
  {
    match IndexOf(TermKeys(p.termScore), (year, term))
    case None => p
    case Some(i) =>
      var t := p.termScore[i];
      var u := p.termScore[i := t.(courseList := t.courseList + [Joined(cid)])];
      assert TermKeys(u) == TermKeys(p.termScore);
      p.(termScore := u)
  }

  /**
   * The entry appended carries no credit, so a student whose credit
   * totals add up still has totals that add up after joining a course.
   */
  lemma JoinKeepsCredits(p: Student, year: string, term: string, cid: Id)
    requires CreditsAdd(p)
    ensures CreditsAdd(JoinCourse(p, year, term, cid))
  {
    match IndexOf(TermKeys(p.termScore), (year, term))
    case None =>
    case Some(i) =>
      var t := p.termScore[i];
      var t' := t.(courseList := t.courseList + [Joined(cid)]);
      assert (t.courseList + [Joined(cid)])[..|t.courseList|] == t.courseList;
      assert CreditSum(t'.courseList) == CreditSum(t.courseList);
      TermCreditSumUpdate(p.termScore, i, t');
  }

  /**
   * For a course joined once, the fold of `EndTerm` (which does not give
   * up the old credit) agrees with the fold of `FinishCourse`: the joined
   * entry still has credit 0.
   */
  lemma JoinThenFoldAgree(p: Student, year: string, term: string, cid: Id, credit: int, marks: Marks)
    requires (year, term) in TermKeys(p.termScore)
    requires cid !in EntryIds(p.termScore[IndexOf(TermKeys(p.termScore), (year, term)).value].courseList)
    ensures var q := JoinCourse(p, year, term, cid);
      Fold(q, year, term, cid, credit, marks, false) == Fold(q, year, term, cid, credit, marks, true)
      && Fold(q, year, term, cid, credit, marks, true).Some?
  {
    var q := JoinCourse(p, year, term, cid);
    var i := IndexOf(TermKeys(p.termScore), (year, term)).value;
    var list := p.termScore[i].courseList;
    var ids := EntryIds(list + [Joined(cid)]);
    assert ids[|list|] == cid;
    IndexOfFirst(ids, cid, |list|);
    assert q.termScore[i].courseList == list + [Joined(cid)];
    FoldFreshAgree(q, year, term, cid, credit, marks);
  }

  /**
   * Every member of the class, in order, joins the course; a member
   * without a profile stops the pass.
   */
  function JoinAll(ps: map<string, Student>, ids: seq<string>, year: string, term: string, cid: Id): (r: Result<map<string, Student>>)
    ensures r.Ok? <==> forall k :: 0 <= k < |ids| ==> ids[k] in ps
    ensures r.Ok? ==> r.value.Keys == ps.Keys
    ensures r.Err? ==> r.error == NotFound("student")
    decreases |ids|
  {
    if ids == [] then Ok(ps)
    else if ids[0] !in ps then Err(NotFound("student"))
    else
      var r := JoinAll(ps[ids[0] := JoinCourse(ps[ids[0]], year, term, cid)], ids[1..], year, term, cid);
      assert forall k :: 1 <= k < |ids| ==> ids[k] == ids[1..][k - 1];
      r
  }

  /** One step of the pass: the first member, then the rest on the profiles it leaves. */
  lemma JoinAllStep(ps: map<string, Student>, ids: seq<string>, year: string, term: string, cid: Id)
    requires ids != []
    ensures ids[0] !in ps ==> JoinAll(ps, ids, year, term, cid) == Err(NotFound("student"))
    ensures ids[0] in ps ==>
      JoinAll(ps, ids, year, term, cid) == JoinAll(ps[ids[0] := JoinCourse(ps[ids[0]], year, term, cid)], ids[1..], year, term, cid)
  {
  }

  /** The pass over a list one member longer: the pass over the list, then that member. */
  lemma {:induction false} JoinAllSnoc(ps: map<string, Student>, ids: seq<string>, x: string, year: string, term: string, cid: Id)
    requires JoinAll(ps, ids, year, term, cid).Ok?
    ensures var qs := JoinAll(ps, ids, year, term, cid).value;
      JoinAll(ps, ids + [x], year, term, cid)
        == if x in qs then Ok(qs[x := JoinCourse(qs[x], year, term, cid)]) else Err(NotFound("student"))
    decreases |ids|
  {
    if ids == [] {
      assert ids + [x] == [x] && [x][1..] == [];
      JoinAllStep(ps, [x], year, term, cid);
    } else {
      assert (ids + [x])[0] == ids[0] && (ids + [x])[1..] == ids[1..] + [x];
      JoinAllStep(ps, ids, year, term, cid);
      JoinAllStep(ps, ids + [x], year, term, cid);
      JoinAllSnoc(ps[ids[0] := JoinCourse(ps[ids[0]], year, term, cid)], ids[1..], x, year, term, cid);
    }
  }

  /** Joining every member keeps every profile's credit totals adding up. */
  lemma {:induction false} JoinAllKeepsCredits(ps: map<string, Student>, ids: seq<string>, year: string, term: string, cid: Id)
    requires forall s :: s in ps ==> CreditsAdd(ps[s])
    requires JoinAll(ps, ids, year, term, cid).Ok?
    ensures var qs := JoinAll(ps, ids, year, term, cid).value; forall s :: s in qs ==> CreditsAdd(qs[s])
    decreases |ids|
  {
    if ids != [] {
      var ps' := ps[ids[0] := JoinCourse(ps[ids[0]], year, term, cid)];
      JoinKeepsCredits(ps[ids[0]], year, term, cid);
      JoinAllKeepsCredits(ps', ids[1..], year, term, cid);
    }
  }

  // ------------------------------------------------------------ folding a course

  /** A profile after one summary line: the line folded in when its term is there, else as it was. */
  function FoldOne(p: Student, year: string, term: string, cid: Id, credit: int, marks: Marks, subtract: bool): Student
  {
    match Fold(p, year, term, cid, credit, marks, subtract)
    case None => p
    case Some(q) => q
  }

  /**
   * Every line of a course summary, in order, folded into its student's
   * profile; a line whose student has no profile stops the pass.
   */
  function FoldAll(ps: map<string, Student>, rows: seq<StudentData>, year: string, term: string, cid: Id,
                   credit: int, subtract: bool): (r: Result<map<string, Student>>)
    ensures r.Ok? <==> forall k :: 0 <= k < |rows| ==> rows[k].studentId in ps
    ensures r.Ok? ==> r.value.Keys == ps.Keys
    ensures r.Err? ==> r.error == NotFound("student")
    decreases |rows|
  {
    if rows == [] then Ok(ps)
    else
      var sid := rows[0].studentId;
      if sid !in ps then Err(NotFound("student"))
      else
        var r := FoldAll(ps[sid := FoldOne(ps[sid], year, term, cid, credit, rows[0].marks, subtract)], rows[1..],
                         year, term, cid, credit, subtract);
        assert forall k :: 1 <= k < |rows| ==> rows[k] == rows[1..][k - 1];
        r
  }

  /** One step of the pass: the first line, then the rest on the profiles it leaves. */
  lemma FoldAllStep(ps: map<string, Student>, rows: seq<StudentData>, year: string, term: string, cid: Id,
                    credit: int, subtract: bool)
    requires rows != []
    ensures rows[0].studentId !in ps ==> FoldAll(ps, rows, year, term, cid, credit, subtract) == Err(NotFound("student"))
    ensures rows[0].studentId in ps ==>
      var sid := rows[0].studentId;
      FoldAll(ps, rows, year, term, cid, credit, subtract)
        == FoldAll(ps[sid := FoldOne(ps[sid], year, term, cid, credit, rows[0].marks, subtract)], rows[1..],
                   year, term, cid, credit, subtract)
  {
  }

  /**
   * One turn of the profile loop: with the lines before `k` folded into
   * `ps` and line `k`'s student known, folding that line moves both views
   * of the pass, the remaining lines and the lines done, one line on.
   */
  lemma FoldAllAdvance(ps0: map<string, Student>, ps: map<string, Student>, rows: seq<StudentData>, k: nat,
                       year: string, term: string, cid: Id, credit: int, subtract: bool)
    requires k < |rows| && rows[k].studentId in ps
    requires FoldAll(ps0, rows, year, term, cid, credit, subtract) == FoldAll(ps, rows[k..], year, term, cid, credit, subtract)
    requires FoldAll(ps0, rows[..k], year, term, cid, credit, subtract) == Ok(ps)
    ensures var sid := rows[k].studentId;
      var next := ps[sid := FoldOne(ps[sid], year, term, cid, credit, rows[k].marks, subtract)];
      FoldAll(ps0, rows, year, term, cid, credit, subtract) == FoldAll(next, rows[k + 1..], year, term, cid, credit, subtract)
      && FoldAll(ps0, rows[..k + 1], year, term, cid, credit, subtract) == Ok(next)
  {
    assert rows[k..][0] == rows[k] && rows[k..][1..] == rows[k + 1..];
    FoldAllStep(ps, rows[k..], year, term, cid, credit, subtract);
    FoldAllSnoc(ps0, rows[..k], rows[k], year, term, cid, credit, subtract);
    assert rows[..k + 1] == rows[..k] + [rows[k]];
  }

  /** The pass over one more line: the pass over the lines before it, then that line. */
  lemma {:induction false} FoldAllSnoc(ps: map<string, Student>, rows: seq<StudentData>, row: StudentData, year: string,
                                       term: string, cid: Id, credit: int, subtract: bool)
    requires FoldAll(ps, rows, year, term, cid, credit, subtract).Ok?
    ensures var qs := FoldAll(ps, rows, year, term, cid, credit, subtract).value;
      FoldAll(ps, rows + [row], year, term, cid, credit, subtract)
        == if row.studentId in qs
           then Ok(qs[row.studentId := FoldOne(qs[row.studentId], year, term, cid, credit, row.marks, subtract)])
           else Err(NotFound("student"))
    decreases |rows|
  {
    if rows == [] {
      assert rows + [row] == [row] && [row][1..] == [];
      FoldAllStep(ps, [row], year, term, cid, credit, subtract);
    } else {
      var sid := rows[0].studentId;
      assert (rows + [row])[0] == rows[0] && (rows + [row])[1..] == rows[1..] + [row];
      FoldAllStep(ps, rows, year, term, cid, credit, subtract);
      FoldAllStep(ps, rows + [row], year, term, cid, credit, subtract);
      FoldAllSnoc(ps[sid := FoldOne(ps[sid], year, term, cid, credit, rows[0].marks, subtract)], rows[1..], row,
                  year, term, cid, credit, subtract);
    }
  }

  /** A profile with no line in the summary is left as it was. */
  lemma {:induction false} FoldAllOthers(ps: map<string, Student>, rows: seq<StudentData>, year: string, term: string,
                                         cid: Id, credit: int, subtract: bool, s: string)
    requires FoldAll(ps, rows, year, term, cid, credit, subtract).Ok?
    requires s in ps && forall k :: 0 <= k < |rows| ==> rows[k].studentId != s
    ensures FoldAll(ps, rows, year, term, cid, credit, subtract).value[s] == ps[s]
    decreases |rows|
  {
    if rows != [] {
      var sid := rows[0].studentId;
      var ps' := ps[sid := FoldOne(ps[sid], year, term, cid, credit, rows[0].marks, subtract)];
      assert forall k :: 0 <= k < |rows[1..]| ==> rows[1..][k] == rows[k + 1];
      FoldAllOthers(ps', rows[1..], year, term, cid, credit, subtract, s);
    }
  }

  /**
   * The fold of `FinishCourse`, line by line, keeps every profile's credit
   * totals equal to the sums of its course credits.
   */
  lemma {:induction false} FoldAllKeepsCredits(ps: map<string, Student>, rows: seq<StudentData>, year: string, term: string,
                                               cid: Id, credit: int)
    requires forall s :: s in ps ==> CreditsAdd(ps[s])
    requires FoldAll(ps, rows, year, term, cid, credit, true).Ok?
    ensures var qs := FoldAll(ps, rows, year, term, cid, credit, true).value; forall s :: s in qs ==> CreditsAdd(qs[s])
    decreases |rows|
  {
    if rows != [] {
      var sid := rows[0].studentId;
      var p := ps[sid];
      if Fold(p, year, term, cid, credit, rows[0].marks, true).Some? {
        FoldKeepsCredits(p, year, term, cid, credit, rows[0].marks);
      }
      var ps' := ps[sid := FoldOne(p, year, term, cid, credit, rows[0].marks, true)];
      FoldAllKeepsCredits(ps', rows[1..], year, term, cid, credit);
    }
  }

  /**
   * Folding the same summary a second time changes no profile: the
   * `FinishCourse` fold gives the old credit up before adding the new.
   */
  lemma {:induction false} FoldOneTwice(p: Student, year: string, term: string, cid: Id, credit: int, marks: Marks)
    ensures var q := FoldOne(p, year, term, cid, credit, marks, true); FoldOne(q, year, term, cid, credit, marks, true) == q
  {
    if Fold(p, year, term, cid, credit, marks, true).Some? {
      FoldIdempotent(p, year, term, cid, credit, marks);
    }
  }
}
