/**
 * The back end's stored collections and its request handlers. Each
 * collection is a field; each handler is a method that validates the
 * request against the collections, then writes what the controller
 * writes, except in four places where the controller's computation is
 * replaced by its corrected definition: the profile fold (`Transcript.Fold`
 * in place of `Transcript.FoldAsWritten`), the work mark of a summary
 * (`Grading.WorkScore` in place of `Grading.WorkAsWritten`), the id of
 * an updated location (`Registry.UpdateLocation` in place of
 * `Registry.UpdateLocationAsWritten`) and the duplicate-course check
 * (`Courses.CourseGate` in place of `Courses.CourseGateAsWritten`). A handler that fails during
 * validation changes nothing; one
 * that fails after its first write leaves the writes made so far, as
 * the controllers do. Fresh object ids, the clock and the weekday of a
 * date are inputs of the handlers.
 */
module Store {
  import opened Common
  import opened Validate
  import opened SlotGrid
  import opened Booking
  import opened GridPasses
  import opened Lifecycle
  import opened Records
  import opened Grading
  import opened Transcript
  import opened Rollover
  import opened Attendance
  import opened Scores
  import opened Registry
  import opened Courses

  // ------------------------------------------------------------ lookups

  /** The first roll call of the course on `date`, as a lookup by both fields finds it. */
  function RollCallIndex(records: seq<CheckName>, courseId: Id, date: string): (r: Option<nat>)
    ensures r.Some? ==> r.value < |records| && records[r.value].courseId == courseId && records[r.value].date == date
    ensures r.None? <==> !Dated(records, courseId, date)
    decreases |records|
  {
    if records == [] then None
    else if records[0].courseId == courseId && records[0].date == date then Some(0)
    else
      var r := RollCallIndex(records[1..], courseId, date);
      assert Dated(records[1..], courseId, date) ==> Dated(records, courseId, date);
      assert Dated(records, courseId, date) ==> Dated(records[1..], courseId, date) by {
        if Dated(records, courseId, date) {
          var k :| 0 <= k < |records| && records[k].courseId == courseId && records[k].date == date;
          assert records[1..][k - 1] == records[k];
        }
      }
      match r
      case None => None
      case Some(k) => Some(k + 1)
  }

  /** The first item of the course with this name, as a lookup by both fields finds it. */
  function ScoreIndex(scores: seq<Score>, courseId: Id, name: string): (r: Option<nat>)
    ensures r.Some? ==> r.value < |scores| && scores[r.value].courseId == courseId && scores[r.value].name == name
    ensures r.None? <==> !Named(scores, courseId, name)
    decreases |scores|
  {
    if scores == [] then None
    else if scores[0].courseId == courseId && scores[0].name == name then Some(0)
    else
      var r := ScoreIndex(scores[1..], courseId, name);
      assert Named(scores[1..], courseId, name) ==> Named(scores, courseId, name);
      assert Named(scores, courseId, name) ==> Named(scores[1..], courseId, name) by {
        if Named(scores, courseId, name) {
          var k :| 0 <= k < |scores| && scores[k].courseId == courseId && scores[k].name == name;
          assert scores[1..][k - 1] == scores[k];
        }
      }
      match r
      case None => None
      case Some(k) => Some(k + 1)
  }

  /** The items of one course, in stored order. */
  function ScoresOf(scores: seq<Score>, courseId: Id): (r: seq<Score>)
    ensures forall s :: s in r <==> s in scores && s.courseId == courseId
    decreases |scores|
  {
    if scores == [] then []
    else
      var rest := ScoresOf(scores[1..], courseId);
      assert forall s :: s in scores <==> s == scores[0] || s in scores[1..];
      if scores[0].courseId == courseId then [scores[0]] + rest else rest
  }

  /** The roll calls of one course, in stored order. */
  function RollCallsOf(records: seq<CheckName>, courseId: Id): (r: seq<CheckName>)
    ensures forall c :: c in r <==> c in records && c.courseId == courseId
    decreases |records|
  {
    if records == [] then []
    else
      var rest := RollCallsOf(records[1..], courseId);
      assert forall c :: c in records <==> c == records[0] || c in records[1..];
      if records[0].courseId == courseId then [records[0]] + rest else rest
  }

  /** Every course of the term has reached summary or finish. */
  predicate Settled(courses: map<Id, Course>, year: string, term: string)
  {
    forall k :: k in courses && courses[k].year == year && courses[k].term == term ==>
      courses[k].status == Summary || courses[k].status == Finish
  }

  /** The course after the term is closed: a course of the term still in summary is finished. */
  function Closing(c: Course, year: string, term: string): Course
  {
    if c.year == year && c.term == term && c.status == Summary then c.(status := Finish) else c
  }

  /** A class after the rollover: an open class is rolled, a closed one left as it is. */
  function ClassAfter(c: ClassData, year: string, term: string): ClassData
  {
    if c.status then c
    else match RollClass(c, year, term)
      case None => c
      case Some(d) => d
  }

  /** A teacher after the rollover. */
  function TeacherAfter(t: Teacher, year: string, term: string): Teacher
  {
    match RollTeacher(t, year, term)
    case None => t
    case Some(u) => u
  }

  /** The student has a profile with an entry for (`year`, `term`). */
  ghost predicate HasTerm(ps: map<string, Student>, s: string, year: string, term: string)
  {
    s in ps && (year, term) in TermKeys(ps[s].termScore)
  }

  /** A profile with an entry for (`year`, `term`) added when it has none. */
  function WithTerm(p: Student, year: string, term: string): Student
  {
    match AddTermEntry(p, year, term)
    case None => p
    case Some(q) => q
  }

  /** Every member of a class the rollover leaves open has a profile. */
  predicate MembersKnown(cs: map<string, ClassData>, ps: map<string, Student>, year: string, term: string)
  {
    forall k, s :: (k in cs && RolledOpen(cs[k], year, term) && s in cs[k].studentIdList) ==> s in ps
  }

  /** The rollover pass midway: the classes in `todo` are still open and untouched, the rest are rolled. */
  ghost predicate ClassesRolled(start: map<string, ClassData>, todo: set<string>, cs: map<string, ClassData>,
                                year: string, term: string)
  {
    todo <= start.Keys && cs.Keys == start.Keys
    && (forall k :: k in todo ==> cs[k] == start[k] && !start[k].status)
    && forall k :: k in cs && k !in todo ==> cs[k] == ClassAfter(start[k], year, term)
  }

  /** The members of every class rolled so far and left open have an entry for the new term. */
  ghost predicate Entered(start: map<string, ClassData>, todo: set<string>, ps: map<string, Student>,
                          year: string, term: string)
  {
    forall k, s :: (k in start && k !in todo && RolledOpen(start[k], year, term) && s in start[k].studentIdList)
                   ==> HasTerm(ps, s, year, term)
  }

  /** Rolling one more class of `todo` keeps the pass midway. */
  lemma ClassesRolledStep(start: map<string, ClassData>, todo: set<string>, cs: map<string, ClassData>, k: string,
                          year: string, term: string)
    requires ClassesRolled(start, todo, cs, year, term) && k in todo
    ensures ClassesRolled(start, todo - {k}, cs[k := ClassAfter(cs[k], year, term)], year, term)
  {
  }

  /** Entering the members of one more class keeps every earlier class's members entered. */
  lemma EnteredStep(start: map<string, ClassData>, todo: set<string>, ps: map<string, Student>,
                    qs: map<string, Student>, k: string, year: string, term: string)
    requires Entered(start, todo, ps, year, term) && k in todo && k in start
    requires forall s :: HasTerm(ps, s, year, term) ==> HasTerm(qs, s, year, term)
    requires RolledOpen(start[k], year, term) ==>
      forall s :: s in start[k].studentIdList ==> HasTerm(qs, s, year, term)
    ensures Entered(start, todo - {k}, qs, year, term)
  {
  }

  /** Each profile of `ps` is the one in `start` or that one with the entry for (`year`, `term`) added. */
  predicate RolledFrom(start: map<string, Student>, ps: map<string, Student>, year: string, term: string)
  {
    ps.Keys == start.Keys
    && forall s :: s in ps ==> ps[s] == start[s] || ps[s] == WithTerm(start[s], year, term)
  }

  /** Two rounds of adding the entry for a term are one round. */
  lemma RolledFromTrans(a: map<string, Student>, b: map<string, Student>, c: map<string, Student>, year: string, term: string)
    requires RolledFrom(a, b, year, term) && RolledFrom(b, c, year, term)
    ensures RolledFrom(a, c, year, term)
  {
    forall s | s in c
      ensures c[s] == a[s] || c[s] == WithTerm(a[s], year, term)
    {
      if c[s] != b[s] {
        WithTermOnce(a[s], year, term);
      }
    }
  }

  /** Adding the entry for a term a second time changes nothing. */
  lemma WithTermOnce(p: Student, year: string, term: string)
    ensures WithTerm(WithTerm(p, year, term), year, term) == WithTerm(p, year, term)
  {
    AddTermEntryOnce(p, year, term);
  }

  /** A class the rollover moved to the new term and left open: its members get the new term. */
  predicate RolledOpen(c: ClassData, year: string, term: string)
  {
    !c.status && RollClass(c, year, term).Some? && !RollClass(c, year, term).value.status
  }

  /** What the slot passes of `CreateCourse` give: the three grids written and the meetings kept. */
  datatype Booked = Booked(classSlot: Grid, dateTime: seq<DateTime>, teacherSlot: Grid, locationSlot: Grid)

  /**
   * The slot passes of `CreateCourse`, in order: the class pass (which
   * trims each meeting and refuses a time requested twice as a conflict),
   * then the teacher's and the location's grids marked for the meetings it
   * kept.
   */
  function BookAll(classSlot: Grid, teacherSlot: Grid, locationSlot: Grid, dtsIn: seq<DateTime>, c: Id): Result<Booked>
  {
    var (cs, dts) :- ClassPass(classSlot, dtsIn, c);
    var ts :- MarkDates(teacherSlot, dts, c, TeacherSlotUsed);
    var ls :- MarkDates(locationSlot, dts, c, LocationSlotUsed);
    Ok(Booked(cs, dts, ts, ls))
  }

  /** The slot passes run as the handler runs them. */
  method Book(classSlot: Grid, teacherSlot: Grid, locationSlot: Grid, dtsIn: seq<DateTime>, c: Id) returns (r: Result<Booked>)
    ensures r == BookAll(classSlot, teacherSlot, locationSlot, dtsIn, c)
  {
    var cp := ClassLoop(classSlot, dtsIn, c);
    if cp.Err? {
      return Err(cp.error);
    }
    var tp := MarkLoop(teacherSlot, cp.value.1, c, TeacherSlotUsed);
    if tp.Err? {
      return Err(tp.error);
    }
    var lp := MarkLoop(locationSlot, cp.value.1, c, LocationSlotUsed);
    if lp.Err? {
      return Err(lp.error);
    }
    return Ok(Booked(cp.value.0, cp.value.1, tp.value, lp.value));
  }

  // ------------------------------------------------------------ the store

  class Store {
    /** `YearAndTerm` school data, oldest first. */
    var terms: seq<TermRecord>
    /** `SubjectCategory` school data, in insertion order. */
    var categories: seq<string>
    var courses: map<Id, Course>
    var classes: map<Id, ClassData>
    /** Teacher profiles by profile id. */
    var teachers: map<string, Teacher>
    /** Student profiles by profile id. */
    var students: map<string, Student>
    /** Subjects by subject id. */
    var subjects: map<string, Subject>
    var locations: map<Id, Location>
    /** Course summaries by course id. */
    var summaries: map<Id, CourseSummary>
    var scores: seq<Score>
    var checkNames: seq<CheckName>

    constructor ()
      ensures terms == [] && categories == [] && scores == [] && checkNames == []
      ensures courses == map[] && classes == map[] && teachers == map[] && students == map[]
      ensures subjects == map[] && locations == map[] && summaries == map[]
    {
      terms := [];
      categories := [];
      courses := map[];
      classes := map[];
      teachers := map[];
      students := map[];
      subjects := map[];
      locations := map[];
      summaries := map[];
      scores := [];
      checkNames := [];
    }

    // ---------------------------------------------------------- school data

    /** `AddYearAndTerm`: opens a new term when the last one is closed. */
    method AddYearAndTerm(id: Id, yearIn: string, termIn: string) returns (r: Result<TermRecord>)
      modifies this`terms
      ensures r == NewTermRecord(id, yearIn, termIn, old(terms))
      ensures terms == if r.Ok? then old(terms) + [r.value] else old(terms)
    {
      r := NewTermRecord(id, yearIn, termIn, terms);
      if r.Ok? {
        terms := terms + [r.value];
      }
    }

    /** `AddSubjectCategory`: registers a category once. */
    method AddSubjectCategory(categoryIn: string) returns (r: Result<string>)
      modifies this`categories
      ensures r == NewCategory(categoryIn, old(categories))
      ensures categories == if r.Ok? then old(categories) + [r.value] else old(categories)
      ensures NoDup(old(categories)) ==> NoDup(categories)
    {
      r := NewCategory(categoryIn, categories);
      if r.Ok? {
        if NoDup(categories) {
          NewCategoryKeepsNoDup(categoryIn, categories);
        }
        categories := categories + [r.value];
      }
    }

    // ---------------------------------------------------------- profiles

    /**
     * `CreateNewProfile`: role and profile id are required; a teacher
     * profile or a student profile is created, and a new student joins
     * the class it names. Any other role is refused.
     */
    method CreateNewProfile(roleIn: string, profileIdIn: string, nameIn: string, categoryIn: string, classIdIn: string)
      returns (r: Result<string>)
      modifies this`teachers, this`students, this`classes
      ensures r.Ok? <==>
        (CheckStringData(roleIn, "role").Ok? && CheckStringData(profileIdIn, "profile_id").Ok?
         && var role := CheckStringData(roleIn, "role").value;
            var pid := CheckStringData(profileIdIn, "profile_id").value;
            (role == "teacher" && NewTeacher(pid, nameIn, categoryIn, categories, terms, old(teachers)).Ok?)
            || (role == "student" && StudentGate(pid, nameIn, classIdIn, old(classes), old(students)).Ok?))
      ensures r.Ok? ==> r.value == CheckStringData(profileIdIn, "profile_id").value
      ensures r.Ok? && CheckStringData(roleIn, "role").value == "teacher" ==>
        (teachers == old(teachers)[r.value := NewTeacher(r.value, nameIn, categoryIn, categories, terms, old(teachers)).value]
         && students == old(students) && classes == old(classes))
      ensures r.Ok? && CheckStringData(roleIn, "role").value == "student" ==>
        (classIdIn in old(classes)
         && students == old(students)[r.value := NewStudent(r.value, nameIn, classIdIn, old(classes)[classIdIn])]
         && classes == old(classes)[classIdIn := Enrolled(old(classes)[classIdIn], r.value)]
         && teachers == old(teachers))
      ensures r.Err? ==> teachers == old(teachers) && students == old(students) && classes == old(classes)
    {
      var role :- CheckStringData(roleIn, "role");
      var pid :- CheckStringData(profileIdIn, "profile_id");
      if role == "teacher" {
        var t :- NewTeacher(pid, nameIn, categoryIn, categories, terms, teachers);
        teachers := teachers[pid := t];
        return Ok(pid);
      } else if role == "student" {
        var c :- StudentGate(pid, nameIn, classIdIn, classes, students);
        var joined, changed := AddToClass(c, pid);
        if changed {
          classes := classes[classIdIn := joined];
        }
        students := students[pid := NewStudent(pid, nameIn, classIdIn, c)];
        return Ok(pid);
      } else {
        return Err(ValueInvalid("role"));
      }
    }

    // ---------------------------------------------------------- subjects

    /** `CreateSubject`. */
    method CreateSubject(subjectIdIn: string, nameIn: string, categoryIn: string, classYearIn: string, credit: Option<int>)
      returns (r: Result<Subject>)
      modifies this`subjects
      ensures r == NewSubject(subjectIdIn, nameIn, categoryIn, classYearIn, credit, categories, old(subjects))
      ensures subjects == if r.Ok? then old(subjects)[r.value.subjectId := r.value] else old(subjects)
      ensures r.Ok? ==> r.value.subjectId !in old(subjects)
    {
      r := NewSubject(subjectIdIn, nameIn, categoryIn, classYearIn, credit, categories, subjects);
      if r.Ok? {
        subjects := subjects[r.value.subjectId := r.value];
      }
    }

    /** `UpdateSubject`: the subject is looked up by its trimmed id and edited in place. */
    method UpdateSubject(subjectIdIn: string, nameIn: string, categoryIn: string, classYearIn: string, credit: Option<int>)
      returns (r: Result<Subject>)
      modifies this`subjects
      ensures CheckStringData(subjectIdIn, "subject_id").Err? ==> r.Err?
      ensures CheckStringData(subjectIdIn, "subject_id").Ok? && CheckStringData(subjectIdIn, "subject_id").value !in old(subjects)
        ==> r == Err(NotFound("subject"))
      ensures CheckStringData(subjectIdIn, "subject_id").Ok? && CheckStringData(subjectIdIn, "subject_id").value in old(subjects)
        ==> r == EditSubject(old(subjects)[CheckStringData(subjectIdIn, "subject_id").value], nameIn, categoryIn, classYearIn, credit)
      ensures subjects == if r.Ok? then old(subjects)[CheckStringData(subjectIdIn, "subject_id").value := r.value] else old(subjects)
    {
      var sid :- CheckStringData(subjectIdIn, "subject_id");
      if sid !in subjects {
        return Err(NotFound("subject"));
      }
      var s := subjects[sid];
      r := EditSubject(s, nameIn, categoryIn, classYearIn, credit);
      if r.Ok? {
        subjects := subjects[sid := r.value];
      }
    }

    /**
     * `AddInstructor`: the teacher is recorded as teaching the subject and
     * appended to the subject's instructors.
     */
    method AddInstructor(subjectIdIn: string, iidIn: string) returns (r: Result<string>)
      modifies this`subjects, this`teachers
      ensures r.Ok? <==>
        (CheckStringData(subjectIdIn, "subject_id").Ok? && CheckStringData(subjectIdIn, "subject_id").value in old(subjects)
         && InstructorGate(old(subjects)[CheckStringData(subjectIdIn, "subject_id").value], iidIn, old(teachers)).Ok?)
      ensures r.Ok? ==>
        (var sid := CheckStringData(subjectIdIn, "subject_id").value;
         r.value == InstructorGate(old(subjects)[sid], iidIn, old(teachers)).value
         && subjects == old(subjects)[sid := old(subjects)[sid].(instructorId := old(subjects)[sid].instructorId + [r.value])]
         && teachers == old(teachers)[r.value := old(teachers)[r.value].(subjectId := sid)])
      ensures r.Ok? && NoDup(old(subjects)[CheckStringData(subjectIdIn, "subject_id").value].instructorId) ==>
        NoDup(subjects[CheckStringData(subjectIdIn, "subject_id").value].instructorId)
      ensures r.Err? ==> subjects == old(subjects) && teachers == old(teachers)
    {
      var sid :- CheckStringData(subjectIdIn, "subject_id");
      if sid !in subjects {
        return Err(NotFound("subject"));
      }
      var s := subjects[sid];
      var iid :- InstructorGate(s, iidIn, teachers);
      if NoDup(s.instructorId) {
        InstructorOnce(s, iidIn, teachers);
      }
      teachers := teachers[iid := teachers[iid].(subjectId := sid)];
      subjects := subjects[sid := s.(instructorId := s.instructorId + [iid])];
      return Ok(iid);
    }

    // ---------------------------------------------------------- classes

    /** `CreateClass`: a new first-year class in the newest term. */
    method CreateClass(id: Id) returns (r: Result<ClassData>)
      requires id !in classes
      modifies this`classes
      ensures r == NewClass(old(classes), terms)
      ensures classes == if r.Ok? then old(classes)[id := r.value] else old(classes)
    {
      r := NewClass(classes, terms);
      if r.Ok? {
        classes := classes[id := r.value];
      }
    }

    /** `SetAdvisor`: links a class and a teacher both ways. */
    method SetAdvisor(classIdIn: string, aidIn: string) returns (r: Result<string>)
      modifies this`classes, this`teachers
      ensures r.Ok? <==>
        (CheckStringData(classIdIn, "class_id").Ok? && CheckStringData(classIdIn, "class_id").value in old(classes)
         && AdvisorGate(old(classes)[CheckStringData(classIdIn, "class_id").value], aidIn, old(teachers)).Ok?)
      ensures r.Ok? ==>
        (var cid := CheckStringData(classIdIn, "class_id").value;
         r.value == AdvisorGate(old(classes)[cid], aidIn, old(teachers)).value
         && classes == old(classes)[cid := old(classes)[cid].(advisorId := r.value)]
         && teachers == old(teachers)[r.value := old(teachers)[r.value].(classInCounseling := cid)])
      ensures AdvisorLinks(old(classes), old(teachers)) ==> AdvisorLinks(classes, teachers)
      ensures r.Err? ==> classes == old(classes) && teachers == old(teachers)
    {
      var cid :- CheckStringData(classIdIn, "class_id");
      if cid !in classes {
        return Err(NotFound("class"));
      }
      var aid :- AdvisorGate(classes[cid], aidIn, teachers);
      if AdvisorLinks(classes, teachers) {
        SetAdvisorKeepsLinks(classes, teachers, cid, aidIn);
      }
      teachers := teachers[aid := teachers[aid].(classInCounseling := cid)];
      classes := classes[cid := classes[cid].(advisorId := aid)];
      return Ok(aid);
    }

    // ---------------------------------------------------------- locations

    /** `CreateLocation`. */
    method CreateLocation(id: Id, bIn: string, fIn: string, rIn: string) returns (r: Result<Location>)
      requires id !in locations
      modifies this`locations
      ensures r == NewLocation(bIn, fIn, rIn, old(locations))
      ensures locations == if r.Ok? then old(locations)[id := r.value] else old(locations)
    {
      r := NewLocation(bIn, fIn, rIn, locations);
      if r.Ok? {
        locations := locations[id := r.value];
      }
    }

    /**
     * `UpdateLocationData`, with the corrected rule for the new id. `loc`
     * is what the lookup by the location id as sent returns.
     */
    method UpdateLocationData(idIn: string, loc: Option<Id>, bIn: string, fIn: string, rIn: string, status: Option<bool>)
      returns (r: Result<Location>)
      requires LocationFound(locations, idIn, loc)
      modifies this`locations
      ensures r.Ok? <==>
        (CheckStringData(idIn, "location_id").Ok? && loc.Some?
         && UpdateLocation(old(locations)[loc.value], loc.value, bIn, fIn, rIn, status, old(locations)).Ok?)
      ensures r.Ok? ==>
        (r == UpdateLocation(old(locations)[loc.value], loc.value, bIn, fIn, rIn, status, old(locations))
         && locations == old(locations)[loc.value := r.value] && Keyed(r.value))
      ensures r.Err? ==> locations == old(locations)
    {
      var _ :- CheckStringData(idIn, "location_id");
      if loc.None? {
        return Err(NotFound("location"));
      }
      r := UpdateLocation(locations[loc.value], loc.value, bIn, fIn, rIn, status, locations);
      if r.Ok? {
        locations := locations[loc.value := r.value];
      }
    }

    // ---------------------------------------------------------- courses

    /** The trimmed course id and the course it names. */
    function CourseOf(courseIdIn: string): (r: Result<Id>)
      reads this
      ensures r.Ok? <==> CheckStringData(courseIdIn, "course_id").Ok? && CheckStringData(courseIdIn, "course_id").value in courses
      ensures r.Ok? ==> r.value == CheckStringData(courseIdIn, "course_id").value && r.value in courses
    {
      var cid :- CheckStringData(courseIdIn, "course_id");
      if cid !in courses then Err(NotFound("course")) else Ok(cid)
    }

    /** Every member of the class joins the course, in order (the per-student loop of `CreateCourse`). */
    method JoinStudents(ids: seq<string>, year: string, term: string, cid: Id) returns (r: Result<()>)
      modifies this`students
      ensures r.Ok? <==> JoinAll(old(students), ids, year, term, cid).Ok?
      ensures r.Ok? ==> students == JoinAll(old(students), ids, year, term, cid).value
      ensures r.Err? ==>
        r == Err(NotFound("student"))
        && exists k :: 0 <= k < |ids| && ids[k] !in students && JoinAll(old(students), ids[..k], year, term, cid) == Ok(students)
    {
      var k := 0;
      assert ids[..0] == [];
      while k < |ids|
        invariant 0 <= k <= |ids|
        invariant JoinAll(old(students), ids, year, term, cid) == JoinAll(students, ids[k..], year, term, cid)
        invariant JoinAll(old(students), ids[..k], year, term, cid) == Ok(students)
      {
        assert ids[k..][0] == ids[k] && ids[k..][1..] == ids[k + 1..];
        JoinAllStep(students, ids[k..], year, term, cid);
        if ids[k] !in students {
          return Err(NotFound("student"));
        }
        JoinAllSnoc(old(students), ids[..k], ids[k], year, term, cid);
        assert ids[..k + 1] == ids[..k] + [ids[k]];
        students := students[ids[k] := JoinCourse(students[ids[k]], year, term, cid)];
        k := k + 1;
      }
      assert ids[k..] == [];
      return Ok(());
    }

    /**
     * `CreateCourse`: the checks of `CourseGate`, then the three slot
     * passes; then the course is stored with the meetings the class pass
     * kept, the class and teacher grids are written, the teacher's term
     * entry and every member's term entry get the course, and the
     * location's grid is written last. `loc` is what the lookup of the
     * location id as sent returns.
     */
    method CreateCourse(id: Id, subjectIdIn: string, instructorIdIn: string, classIdIn: string,
                        locationIdIn: string, loc: Option<Id>, dtsIn: seq<DateTime>) returns (r: Result<Id>)
      requires id !in courses
      requires LocationFound(locations, locationIdIn, loc)
      modifies this`courses, this`classes, this`teachers, this`students, this`locations
      ensures CourseGate(terms, subjectIdIn, instructorIdIn, classIdIn, locationIdIn, loc, dtsIn,
                         subjects, old(classes), old(locations), old(courses), old(teachers)).Err? ==>
        (r.Err? && courses == old(courses) && classes == old(classes) && teachers == old(teachers)
         && students == old(students) && locations == old(locations))
      ensures CourseGate(terms, subjectIdIn, instructorIdIn, classIdIn, locationIdIn, loc, dtsIn,
                         subjects, old(classes), old(locations), old(courses), old(teachers)).Ok? ==>
        (var d := CourseGate(terms, subjectIdIn, instructorIdIn, classIdIn, locationIdIn, loc, dtsIn,
                             subjects, old(classes), old(locations), old(courses), old(teachers)).value;
         var cls := old(classes)[d.classId];
         var t := TeachCourse(old(teachers)[d.course.instructorId], d.course.year, d.course.term, id);
         var b := BookAll(cls.slot, t.slot, old(locations)[d.locKey].slot, dtsIn, id);
         var j := JoinAll(old(students), cls.studentIdList, d.course.year, d.course.term, id);
         (b.Err? ==>
            r == Err(b.error) && courses == old(courses) && classes == old(classes) && teachers == old(teachers)
            && students == old(students) && locations == old(locations))
         && (b.Ok? ==>
            courses == old(courses)[id := d.course.(dateTime := b.value.dateTime)]
            && classes == old(classes)[d.classId := cls.(slot := b.value.classSlot)]
            && teachers == old(teachers)[d.course.instructorId := t.(slot := b.value.teacherSlot)]
            && (r.Ok? <==> j.Ok?)
            && (r.Ok? ==>
                  r.value == id && students == j.value
                  && locations == old(locations)[d.locKey := old(locations)[d.locKey].(slot := b.value.locationSlot)])
            && (r.Err? ==>
                  locations == old(locations) && r == Err(NotFound("student"))
                  && exists k :: 0 <= k < |cls.studentIdList| && cls.studentIdList[k] !in students
                                 && JoinAll(old(students), cls.studentIdList[..k], d.course.year, d.course.term, id) == Ok(students))))
      ensures r.Ok? && (forall s :: s in old(students) ==> CreditsAdd(old(students)[s])) ==>
        forall s :: s in students ==> CreditsAdd(students[s])
    {
      var d :- CourseGate(terms, subjectIdIn, instructorIdIn, classIdIn, locationIdIn, loc, dtsIn,
                          subjects, classes, locations, courses, teachers);
      var cls := classes[d.classId];
      var t := TeachCourse(teachers[d.course.instructorId], d.course.year, d.course.term, id);
      var b :- Book(cls.slot, t.slot, locations[d.locKey].slot, dtsIn, id);
      r := Place(id, d, t, b);
    }

    /** The writes of `CreateCourse` once every check and slot pass has succeeded. */
    method Place(id: Id, d: Draft, t: Teacher, b: Booked) returns (r: Result<Id>)
      requires d.classId in classes && d.locKey in locations
      modifies this`courses, this`classes, this`teachers, this`students, this`locations
      ensures r.Ok? <==> JoinAll(old(students), old(classes)[d.classId].studentIdList, d.course.year, d.course.term, id).Ok?
      ensures r.Ok? ==> r.value == id
      ensures courses == old(courses)[id := d.course.(dateTime := b.dateTime)]
      ensures classes == old(classes)[d.classId := old(classes)[d.classId].(slot := b.classSlot)]
      ensures teachers == old(teachers)[d.course.instructorId := t.(slot := b.teacherSlot)]
      ensures r.Ok? ==>
        students == JoinAll(old(students), old(classes)[d.classId].studentIdList, d.course.year, d.course.term, id).value
        && locations == old(locations)[d.locKey := old(locations)[d.locKey].(slot := b.locationSlot)]
      ensures r.Err? ==> locations == old(locations)
      ensures r.Err? ==>
        (var ids := old(classes)[d.classId].studentIdList;
         r == Err(NotFound("student"))
         && exists k :: 0 <= k < |ids| && ids[k] !in students
                        && JoinAll(old(students), ids[..k], d.course.year, d.course.term, id) == Ok(students))
      ensures r.Ok? && (forall s :: s in old(students) ==> CreditsAdd(old(students)[s])) ==>
        forall s :: s in students ==> CreditsAdd(students[s])
    {
      var cls := classes[d.classId];
      ghost var before := students;
      courses := courses[id := d.course.(dateTime := b.dateTime)];
      classes := classes[d.classId := cls.(slot := b.classSlot)];
      teachers := teachers[d.course.instructorId := t.(slot := b.teacherSlot)];
      var joined := JoinStudents(cls.studentIdList, d.course.year, d.course.term, id);
      if joined.Err? {
        return Err(joined.error);
      }
      if forall s :: s in before ==> CreditsAdd(before[s]) {
        JoinAllKeepsCredits(before, cls.studentIdList, d.course.year, d.course.term, id);
      }
      locations := locations[d.locKey := locations[d.locKey].(slot := b.locationSlot)];
      return Ok(id);
    }

    /** `ChangeCourseStatus`: one edge of the course lifecycle. */
    method ChangeCourseStatus(idIn: string, eventIn: string) returns (r: Result<CourseStatus>)
      modifies this`courses
      ensures r.Ok? ==>
        (CheckStringData(idIn, "id").Ok? && CheckStringData(idIn, "id").value in old(courses)
         && CheckStringData(eventIn, "event").Ok?
         && var id := CheckStringData(idIn, "id").value;
            var c := old(courses)[id];
            Ok(r.value) == ChangeStatus(CheckStringData(eventIn, "event").value, c.status,
                                        Links(c.subjectId, c.instructorId, c.locationId, c.classId))
            && Step(c.status, r.value)
            && courses == old(courses)[id := c.(status := r.value)])
      ensures (CheckStringData(idIn, "id").Ok? && CheckStringData(idIn, "id").value in old(courses)
               && CheckStringData(eventIn, "event").Ok?
               && var c := old(courses)[CheckStringData(idIn, "id").value];
                  ChangeStatus(CheckStringData(eventIn, "event").value, c.status,
                               Links(c.subjectId, c.instructorId, c.locationId, c.classId)).Ok?) ==> r.Ok?
      ensures r.Err? ==> courses == old(courses)
    {
      var id :- CheckStringData(idIn, "id");
      if id !in courses {
        return Err(NotFound("course"));
      }
      var event :- CheckStringData(eventIn, "event");
      var c := courses[id];
      var links := Links(c.subjectId, c.instructorId, c.locationId, c.classId);
      var st :- ChangeStatus(event, c.status, links);
      ChangeStatusIsStep(event, c.status, links);
      courses := courses[id := c.(status := st)];
      return Ok(st);
    }

    /**
     * `SummaryCourse`: every member's line is computed from the course's
     * score items and roll calls; the summary is created, or replaced
     * keeping its id, and the course moves to summary.
     */
    method SummaryCourse(newId: Id, courseIdIn: string) returns (r: Result<CourseSummary>)
      modifies this`summaries, this`courses
      ensures r.Ok? <==>
        (old(CourseOf(courseIdIn)).Ok? && old(courses)[old(CourseOf(courseIdIn)).value].status == Progress
         && var cid := old(CourseOf(courseIdIn)).value;
            Summarize(old(courses)[cid].studentIdList, ScoresOf(scores, cid), RollCallsOf(checkNames, cid)).Ok?)
      ensures r.Ok? ==>
        (var cid := old(CourseOf(courseIdIn)).value;
         var c := old(courses)[cid];
         r.value == CourseSummary(if cid in old(summaries) then old(summaries)[cid].id else newId, cid,
                                  Summarize(c.studentIdList, ScoresOf(scores, cid), RollCallsOf(checkNames, cid)).value)
         && summaries == old(summaries)[cid := r.value]
         && courses == old(courses)[cid := c.(status := Summary)])
      ensures r.Err? ==> summaries == old(summaries) && courses == old(courses)
    {
      var cid :- CourseOf(courseIdIn);
      var c := courses[cid];
      if c.status != Progress {
        return Err(StatusInvalid("progress"));
      }
      var rows :- SummarizeLoop(c.studentIdList, ScoresOf(scores, cid), RollCallsOf(checkNames, cid));
      var sumId := if cid in summaries then summaries[cid].id else newId;
      var s := CourseSummary(sumId, cid, rows);
      summaries := summaries[cid := s];
      courses := courses[cid := c.(status := Summary)];
      return Ok(s);
    }

    /** The profile fold over every line of a summary (the per-line loop of `FinishCourse` and `EndTerm`). */
    method FoldStudents(rows: seq<StudentData>, year: string, term: string, cid: Id, credit: int, subtract: bool)
      returns (r: Result<()>)
      modifies this`students
      ensures r.Ok? <==> FoldAll(old(students), rows, year, term, cid, credit, subtract).Ok?
      ensures r.Ok? ==> students == FoldAll(old(students), rows, year, term, cid, credit, subtract).value
      ensures r.Err? ==>
        r == Err(NotFound("student"))
        && exists k :: 0 <= k < |rows| && rows[k].studentId !in students
                       && FoldAll(old(students), rows[..k], year, term, cid, credit, subtract) == Ok(students)
    {
      var k := 0;
      assert rows[..0] == [];
      while k < |rows|
        invariant 0 <= k <= |rows|
        invariant FoldAll(old(students), rows, year, term, cid, credit, subtract)
               == FoldAll(students, rows[k..], year, term, cid, credit, subtract)
        invariant FoldAll(old(students), rows[..k], year, term, cid, credit, subtract) == Ok(students)
      {
        var row := rows[k];
        if row.studentId !in students {
          assert rows[k..][0] == row;
          FoldAllStep(students, rows[k..], year, term, cid, credit, subtract);
          return Err(NotFound("student"));
        }
        ghost var next := students[row.studentId := FoldOne(students[row.studentId], year, term, cid, credit, row.marks, subtract)];
        FoldAllAdvance(old(students), students, rows, k, year, term, cid, credit, subtract);
        FoldStudent(row.studentId, year, term, cid, credit, row.marks, subtract);
        assert students == next;
        k := k + 1;
      }
      assert rows[k..] == [];
      return Ok(());
    }

    /** One summary line folded into its student's profile. */
    method FoldStudent(sid: string, year: string, term: string, cid: Id, credit: int, marks: Marks, subtract: bool)
      requires sid in students
      modifies this`students
      ensures students == old(students)[sid := FoldOne(old(students)[sid], year, term, cid, credit, marks, subtract)]
    {
      var folded := FoldLoop(students[sid], year, term, cid, credit, marks, subtract);
      if folded.Some? {
        students := students[sid := folded.value];
      } else {
        assert students[sid := students[sid]] == students;
      }
    }

    /**
     * Completing one course in summary: its summary is folded into the
     * profiles, the course is finished, and the location's cells held by
     * the course are released. A missing summary stops before any write;
     * a missing location stops after the course was finished.
     */
    method FinishOne(cid: Id, subtract: bool) returns (r: Result<()>)
      requires cid in courses
      modifies this`courses, this`students, this`locations
      ensures cid !in summaries ==>
        r == Err(NotFound("summary")) && courses == old(courses) && students == old(students) && locations == old(locations)
      ensures r.Ok? <==>
        (var c := old(courses)[cid];
         cid in summaries && FoldAll(old(students), summaries[cid].studentData, c.year, c.term, cid, c.credit, subtract).Ok?
         && c.locationId.Some? && c.locationId.value in old(locations))
      ensures r.Ok? ==>
        (var c := old(courses)[cid];
         var lk := c.locationId.value;
         students == FoldAll(old(students), summaries[cid].studentData, c.year, c.term, cid, c.credit, subtract).value
         && courses == old(courses)[cid := c.(status := Finish)]
         && locations == old(locations)[lk := old(locations)[lk].(slot := ReleaseDates(old(locations)[lk].slot, c.dateTime, cid))])
      ensures cid in summaries ==>
        (var c := old(courses)[cid];
         var rows := summaries[cid].studentData;
         var folded := FoldAll(old(students), rows, c.year, c.term, cid, c.credit, subtract);
         (folded.Err? ==>
            r == Err(NotFound("student")) && courses == old(courses) && locations == old(locations)
            && exists k :: 0 <= k < |rows| && rows[k].studentId !in students
                           && FoldAll(old(students), rows[..k], c.year, c.term, cid, c.credit, subtract) == Ok(students))
         && (folded.Ok? && (c.locationId.None? || c.locationId.value !in old(locations)) ==>
            r == Err(NotFound("location")) && students == folded.value
            && courses == old(courses)[cid := c.(status := Finish)] && locations == old(locations)))
      ensures courses.Keys == old(courses).Keys
      ensures forall k :: k in courses && k != cid ==> courses[k] == old(courses)[k]
      ensures courses[cid] == old(courses)[cid] || courses[cid] == old(courses)[cid].(status := Finish)
    {
      var c := courses[cid];
      if cid !in summaries {
        return Err(NotFound("summary"));
      }
      var folded := FoldStudents(summaries[cid].studentData, c.year, c.term, cid, c.credit, subtract);
      if folded.Err? {
        return Err(NotFound("student"));
      }
      courses := courses[cid := c.(status := Finish)];
      if c.locationId.None? || c.locationId.value !in locations {
        return Err(NotFound("location"));
      }
      var lk := c.locationId.value;
      var g := ReleaseLoop(locations[lk].slot, c.dateTime, cid);
      locations := locations[lk := locations[lk].(slot := g)];
      return Ok(());
    }

    /**
     * `FinishCourse`: a course in summary is completed, giving up any
     * credit an earlier fold of the same course added. Profiles whose
     * credit totals added up still add up.
     */
    method FinishCourse(idIn: string) returns (r: Result<Id>)
      modifies this`courses, this`students, this`locations
      ensures r.Ok? ==>
        (CheckStringData(idIn, "id").Ok? && r.value == CheckStringData(idIn, "id").value
         && r.value in old(courses) && old(courses)[r.value].status == Summary
         && var c := old(courses)[r.value];
            r.value in summaries && c.locationId.Some? && c.locationId.value in old(locations)
            && FoldAll(old(students), summaries[r.value].studentData, c.year, c.term, r.value, c.credit, true).Ok?
            && students == FoldAll(old(students), summaries[r.value].studentData, c.year, c.term, r.value, c.credit, true).value
            && courses == old(courses)[r.value := c.(status := Finish)]
            && locations == old(locations)[c.locationId.value := old(locations)[c.locationId.value].(
                 slot := ReleaseDates(old(locations)[c.locationId.value].slot, c.dateTime, r.value))])
      ensures (CheckStringData(idIn, "id").Err? || CheckStringData(idIn, "id").value !in old(courses)) ==>
        r.Err? && courses == old(courses) && students == old(students) && locations == old(locations)
      ensures (CheckStringData(idIn, "id").Ok? && CheckStringData(idIn, "id").value in old(courses)
               && old(courses)[CheckStringData(idIn, "id").value].status != Summary) ==>
        r == Err(StatusInvalid("summary")) && courses == old(courses) && students == old(students) && locations == old(locations)
      ensures (CheckStringData(idIn, "id").Ok? && CheckStringData(idIn, "id").value in old(courses)
               && old(courses)[CheckStringData(idIn, "id").value].status == Summary) ==>
        (var id := CheckStringData(idIn, "id").value;
         var c := old(courses)[id];
         (id !in summaries ==>
            r == Err(NotFound("summary")) && courses == old(courses) && students == old(students) && locations == old(locations))
         && (id in summaries ==>
              var rows := summaries[id].studentData;
              var folded := FoldAll(old(students), rows, c.year, c.term, id, c.credit, true);
              (folded.Err? ==>
                 r == Err(NotFound("student")) && courses == old(courses) && locations == old(locations)
                 && exists k :: 0 <= k < |rows| && rows[k].studentId !in students
                                && FoldAll(old(students), rows[..k], c.year, c.term, id, c.credit, true) == Ok(students))
              && (folded.Ok? && (c.locationId.None? || c.locationId.value !in old(locations)) ==>
                 r == Err(NotFound("location")) && students == folded.value
                 && courses == old(courses)[id := c.(status := Finish)] && locations == old(locations))
              && (folded.Ok? && c.locationId.Some? && c.locationId.value in old(locations) ==> r == Ok(id))))
      ensures r.Ok? && (forall s :: s in old(students) ==> CreditsAdd(old(students)[s])) ==>
        forall s :: s in students ==> CreditsAdd(students[s])
    {
      var id :- CheckStringData(idIn, "id");
      if id !in courses {
        return Err(NotFound("course"));
      }
      var c := courses[id];
      if c.status != Summary {
        return Err(StatusInvalid("summary"));
      }
      ghost var before := students;
      var done := FinishOne(id, true);
      if done.Err? {
        return Err(done.error);
      }
      if forall s :: s in before ==> CreditsAdd(before[s]) {
        FoldAllKeepsCredits(before, summaries[id].studentData, c.year, c.term, id, c.credit);
      }
      return Ok(id);
    }

    // ---------------------------------------------------------- closing a term

    /** The courses of the term still in summary are completed, one at a time. */
    method FinishTerm(year: string, term: string) returns (r: Result<()>)
      modifies this`courses, this`students, this`locations
      ensures r.Ok? ==>
        courses.Keys == old(courses).Keys && forall k :: k in courses ==> courses[k] == Closing(old(courses)[k], year, term)
    {
      var todo := set k | k in courses && courses[k].year == year && courses[k].term == term && courses[k].status == Summary;
      ghost var start := courses;
      while todo != {}
        invariant todo <= start.Keys && courses.Keys == start.Keys
        invariant forall k :: k in todo ==>
          courses[k] == start[k] && start[k].year == year && start[k].term == term && start[k].status == Summary
        invariant forall k :: k in courses && k !in todo ==> courses[k] == Closing(start[k], year, term)
        decreases |todo|
      {
        var k :| k in todo;
        var done := FinishOne(k, false);
        if done.Err? {
          return done;
        }
        todo := todo - {k};
      }
      return Ok(());
    }

    /**
     * The members of a class the rollover left open each get an entry for
     * the new term; a missing profile stops the loop, the members before it
     * already written.
     */
    method AddTermEntries(ids: seq<string>, year: string, term: string) returns (r: Result<()>)
      modifies this`students
      ensures students.Keys == old(students).Keys
      ensures r.Ok? ==> forall s :: s in students ==>
        students[s] == if s in ids then WithTerm(old(students)[s], year, term) else old(students)[s]
      ensures r.Err? ==>
        r == Err(NotFound("student"))
        && exists k :: 0 <= k < |ids| && ids[k] !in students
                       && forall s :: s in students ==>
                            students[s] == if s in ids[..k] then WithTerm(old(students)[s], year, term) else old(students)[s]
      ensures forall s :: HasTerm(old(students), s, year, term) ==> HasTerm(students, s, year, term)
      ensures r.Ok? ==> forall k :: 0 <= k < |ids| ==> HasTerm(students, ids[k], year, term)
    {
      var k := 0;
      while k < |ids|
        invariant 0 <= k <= |ids| && students.Keys == old(students).Keys
        invariant forall s :: HasTerm(old(students), s, year, term) ==> HasTerm(students, s, year, term)
        invariant forall j :: 0 <= j < k ==> HasTerm(students, ids[j], year, term)
        invariant forall s :: s in students ==>
          students[s] == if s in ids[..k] then WithTerm(old(students)[s], year, term) else old(students)[s]
      {
        var sid := ids[k];
        if sid !in students {
          return Err(NotFound("student"));
        }
        var added := AddTermEntry(students[sid], year, term);
        assert ids[..k + 1] == ids[..k] + [sid];
        if sid in ids[..k] {
          AddTermEntryOnce(old(students)[sid], year, term);
        }
        if added.Some? {
          assert TermKeys(added.value.termScore)[|students[sid].termScore|] == (year, term);
          assert forall s :: s in students && s != sid ==> students[sid := added.value][s] == students[s];
          students := students[sid := added.value];
        }
        k := k + 1;
      }
      return Ok(());
    }

    /**
     * The open classes move to the new term; members of the ones still open
     * get the new term. The list of open classes is refused as not found
     * when it is empty.
     */
    method RollClasses(year: string, term: string) returns (r: Result<()>)
      modifies this`classes, this`students
      ensures (forall k :: k in old(classes) ==> old(classes)[k].status) ==>
        r == Err(NotFound("class")) && classes == old(classes) && students == old(students)
      ensures r.Ok? ==>
        (classes.Keys == old(classes).Keys
         && (forall k :: k in classes ==> classes[k] == ClassAfter(old(classes)[k], year, term))
         && forall k, s :: (k in old(classes) && RolledOpen(old(classes)[k], year, term)
                            && s in old(classes)[k].studentIdList) ==> HasTerm(students, s, year, term))
      ensures ((exists k :: k in old(classes) && !old(classes)[k].status)
               && MembersKnown(old(classes), old(students), year, term)) ==> r.Ok?
      ensures r.Err? ==> r == Err(NotFound("class")) || r == Err(NotFound("student"))
      ensures classes.Keys == old(classes).Keys && RolledFrom(old(students), students, year, term)
      ensures r.Err? ==>
        forall k :: k in classes ==> classes[k] == old(classes)[k] || classes[k] == ClassAfter(old(classes)[k], year, term)
    {
      var todo := set k | k in classes && !classes[k].status;
      if todo == {} {
        assert forall k :: k in classes ==> k !in todo;
        return Err(NotFound("class"));
      }
      ghost var start := classes;
      ghost var startStudents := students;
      while todo != {}
        invariant ClassesRolled(start, todo, classes, year, term)
        invariant RolledFrom(startStudents, students, year, term)
        invariant Entered(start, todo, students, year, term)
        decreases |todo|
      {
        var k :| k in todo;
        ghost var before := students;
        ghost var beforeClasses := classes;
        var done := RollOne(k, year, term);
        RolledFromTrans(startStudents, before, students, year, term);
        ClassesRolledStep(start, todo, beforeClasses, k, year, term);
        if done.Err? {
          assert !MembersKnown(start, startStudents, year, term) by {
            var s :| s in start[k].studentIdList && s !in before;
            assert s !in startStudents;
          }
          return done;
        }
        EnteredStep(start, todo, before, students, k, year, term);
        todo := todo - {k};
      }
      return Ok(());
    }

    /**
     * One open class of the rollover: it is rolled, and when it stays open
     * each member gets an entry for the new term; a member without a
     * profile stops the pass.
     */
    method RollOne(k: string, year: string, term: string) returns (r: Result<()>)
      requires k in classes && !classes[k].status
      modifies this`classes, this`students
      ensures classes == old(classes)[k := ClassAfter(old(classes)[k], year, term)]
      ensures RolledFrom(old(students), students, year, term)
      ensures forall s :: HasTerm(old(students), s, year, term) ==> HasTerm(students, s, year, term)
      ensures r.Ok? <==>
        (RolledOpen(old(classes)[k], year, term) ==> forall s :: s in old(classes)[k].studentIdList ==> s in old(students))
      ensures r.Err? ==> r == Err(NotFound("student"))
      ensures r.Ok? && RolledOpen(old(classes)[k], year, term) ==>
        forall s :: s in old(classes)[k].studentIdList ==> HasTerm(students, s, year, term)
    {
      var c := classes[k];
      var rolled := RollClass(c, year, term);
      if rolled.None? {
        assert classes[k := c] == classes;
        return Ok(());
      }
      classes := classes[k := rolled.value];
      if rolled.value.status {
        return Ok(());
      }
      var added := AddTermEntries(rolled.value.studentIdList, year, term);
      if added.Err? {
        return added;
      }
      forall s | s in c.studentIdList
        ensures HasTerm(students, s, year, term)
      {
        var j :| 0 <= j < |c.studentIdList| && c.studentIdList[j] == s;
      }
      return Ok(());
    }

    /**
     * Every teacher without an entry for the new term gets one and a fresh
     * grid. The list of teachers is refused as not found when it is empty.
     */
    method RollTeachers(year: string, term: string) returns (r: Result<()>)
      modifies this`teachers
      ensures r.Ok? <==> old(teachers) != map[]
      ensures r.Err? ==> r == Err(NotFound("teacher")) && teachers == old(teachers)
      ensures teachers.Keys == old(teachers).Keys
      ensures forall t :: t in teachers ==> teachers[t] == TeacherAfter(old(teachers)[t], year, term)
    {
      if teachers == map[] {
        return Err(NotFound("teacher"));
      }
      var todo := teachers.Keys;
      ghost var start := teachers;
      while todo != {}
        invariant todo <= start.Keys && teachers.Keys == start.Keys
        invariant forall t :: t in todo ==> teachers[t] == start[t]
        invariant forall t :: t in teachers && t !in todo ==> teachers[t] == TeacherAfter(start[t], year, term)
        decreases |todo|
      {
        var t :| t in todo;
        var rolled := RollTeacher(teachers[t], year, term);
        if rolled.Some? {
          teachers := teachers[t := rolled.value];
        }
        todo := todo - {t};
      }
      return Ok(());
    }

    /**
     * `EndTerm`: the newest term must be open and every course of it in
     * summary or finish. Courses in summary are completed (without giving
     * up earlier credit), open classes and the teachers move to the next
     * term, and the next term's record is added, open. With no open class
     * or no teacher the rollover is refused as not found, after the courses
     * were completed, and no record is added. The closed term's own record
     * is never written back.
     */
    method EndTerm(newId: Id) returns (r: Result<TermRecord>)
      modifies this`courses, this`students, this`locations, this`classes, this`teachers, this`terms
      ensures (old(terms) == [] || old(terms)[|old(terms)| - 1].status != Some(false)
               || old(terms)[|old(terms)| - 1].year.None? || old(terms)[|old(terms)| - 1].term.None?
               || !Settled(old(courses), old(terms)[|old(terms)| - 1].year.value, old(terms)[|old(terms)| - 1].term.value)) ==>
        (r.Err? && courses == old(courses) && students == old(students) && locations == old(locations)
         && classes == old(classes) && teachers == old(teachers) && terms == old(terms))
      ensures r.Err? ==> terms == old(terms)
      ensures ((forall k :: k in old(classes) ==> old(classes)[k].status) || old(teachers) == map[]) ==>
        r.Err? && terms == old(terms)
      ensures r.Ok? ==>
        (var cur := old(terms)[|old(terms)| - 1];
         var (year, term) := (cur.year.value, cur.term.value);
         NextTerm(year, term).Ok? && Settled(old(courses), year, term)
         && var (ny, nt) := NextTerm(year, term).value;
         r.value == TermRecord(newId, Some(ny), Some(nt), Some(false))
         && terms == old(terms) + [r.value]
         && courses.Keys == old(courses).Keys
         && (forall k :: k in courses ==> courses[k] == Closing(old(courses)[k], year, term))
         && classes.Keys == old(classes).Keys
         && (forall k :: k in classes ==> classes[k] == ClassAfter(old(classes)[k], ny, nt))
         && (forall k, s :: (k in old(classes) && RolledOpen(old(classes)[k], ny, nt)
                             && s in old(classes)[k].studentIdList) ==> HasTerm(students, s, ny, nt))
         && teachers.Keys == old(teachers).Keys
         && (forall t :: t in teachers ==> teachers[t] == TeacherAfter(old(teachers)[t], ny, nt)))
    {
      if terms == [] {
        return Err(NotFound("school data"));
      }
      var cur := terms[|terms| - 1];
      if cur.status != Some(false) {
        return Err(SchoolDataInvalid);
      }
      if cur.year.None? || cur.term.None? {
        return Err(SchoolDataInvalid);
      }
      var year, term := cur.year.value, cur.term.value;
      if !Settled(courses, year, term) {
        return Err(CoursesNotFinished);
      }
      var finished := FinishTerm(year, term);
      if finished.Err? {
        return Err(finished.error);
      }
      var next := NextTerm(year, term);
      if next.Err? {
        return Err(next.error);
      }
      var (ny, nt) := next.value;
      var rolled := RollClasses(ny, nt);
      if rolled.Err? {
        return Err(rolled.error);
      }
      var rolledTeachers := RollTeachers(ny, nt);
      if rolledTeachers.Err? {
        return Err(rolledTeachers.error);
      }
      var record := TermRecord(newId, Some(ny), Some(nt), Some(false));
      terms := terms + [record];
      return Ok(record);
    }

    // ---------------------------------------------------------- roll calls

    /** `AddDateForCheck`: opens the roll call of a course on a date. */
    method AddDateForCheck(id: Id, courseIdIn: string, dateIn: string, timeLate: Option<int>,
                           weekday: Option<string>, now: int) returns (r: Result<CheckName>)
      modifies this`checkNames
      ensures r.Ok? <==>
        (CourseOf(courseIdIn).Ok?
         && NewRollCall(id, CourseOf(courseIdIn).value, courses[CourseOf(courseIdIn).value], dateIn, timeLate, weekday, now,
                        old(checkNames)).Ok?)
      ensures r.Ok? ==>
        (r == NewRollCall(id, CourseOf(courseIdIn).value, courses[CourseOf(courseIdIn).value], dateIn, timeLate, weekday, now,
                          old(checkNames))
         && checkNames == old(checkNames) + [r.value])
      ensures r.Err? ==> checkNames == old(checkNames)
    {
      var cid :- CourseOf(courseIdIn);
      var c := courses[cid];
      var rc :- NewRollCall(id, cid, c, dateIn, timeLate, weekday, now, checkNames);
      var data := CreateCheckNameData(c.studentIdList);
      rc := rc.(data := data);
      checkNames := checkNames + [rc];
      return Ok(rc);
    }

    /**
     * `CheckNameStudent`: the student's entries of the roll call of the
     * course on the date are marked attend or late at `now`.
     */
    method CheckNameStudent(courseIdIn: string, dateIn: string, sidIn: string, markerIn: string, now: int)
      returns (r: Result<string>)
      modifies this`checkNames
      ensures r.Ok? <==>
        (CourseOf(courseIdIn).Ok? && courses[CourseOf(courseIdIn).value].status == Progress
         && CheckStringData(dateIn, "date").Ok?
         && RollCallIndex(old(checkNames), CourseOf(courseIdIn).value, CheckStringData(dateIn, "date").value).Some?
         && CheckInGate(courses[CourseOf(courseIdIn).value], sidIn, markerIn).Ok?)
      ensures r.Ok? ==>
        (var i := RollCallIndex(old(checkNames), CourseOf(courseIdIn).value, CheckStringData(dateIn, "date").value).value;
         var (sid, marker) := CheckInGate(courses[CourseOf(courseIdIn).value], sidIn, markerIn).value;
         var rc := old(checkNames)[i];
         r.value == sid && |checkNames| == |old(checkNames)|
         && (forall j :: 0 <= j < |checkNames| && j != i ==> checkNames[j] == old(checkNames)[j])
         && checkNames[i] == rc.(data := checkNames[i].data) && |checkNames[i].data| == |rc.data|
         && forall k :: 0 <= k < |rc.data| ==>
              checkNames[i].data[k] == (if rc.data[k].studentId == sid then Marked(rc.data[k], now, rc.timeLate, marker) else rc.data[k]))
      ensures r.Err? ==> checkNames == old(checkNames)
    {
      var cid :- CourseOf(courseIdIn);
      var c := courses[cid];
      if c.status != Progress {
        return Err(StatusInvalid("progress"));
      }
      var date :- CheckStringData(dateIn, "date");
      var i := RollCallIndex(checkNames, cid, date);
      if i.None? {
        return Err(NotFound("date"));
      }
      var gate :- CheckInGate(c, sidIn, markerIn);
      var (sid, marker) := gate;
      var rc := checkNames[i.value];
      var data := MarkStudent(rc.data, sid, now, rc.timeLate, marker);
      checkNames := checkNames[i.value := rc.(data := data)];
      return Ok(sid);
    }

    /**
     * `EndDateCheckName`: the open roll call of the course on the date is
     * closed, every unmarked student absent.
     */
    method EndDateCheckName(courseIdIn: string, dateIn: string, now: int) returns (r: Result<CheckName>)
      modifies this`checkNames
      ensures r.Ok? <==>
        (CourseOf(courseIdIn).Ok? && courses[CourseOf(courseIdIn).value].status == Progress
         && CheckStringData(dateIn, "date").Ok?
         && RollCallIndex(old(checkNames), CourseOf(courseIdIn).value, CheckStringData(dateIn, "date").value).Some?
         && CloseGate(old(checkNames)[RollCallIndex(old(checkNames), CourseOf(courseIdIn).value,
                                                     CheckStringData(dateIn, "date").value).value]).Ok?)
      ensures r.Ok? ==>
        (var i := RollCallIndex(old(checkNames), CourseOf(courseIdIn).value, CheckStringData(dateIn, "date").value).value;
         var rc := old(checkNames)[i];
         checkNames == old(checkNames)[i := r.value]
         && r.value == Closed(rc, r.value.data) && |r.value.data| == |rc.data|
         && (forall k :: 0 <= k < |rc.data| ==>
               r.value.data[k] == (if rc.data[k].status == "" then Absent(rc.data[k], now) else rc.data[k]))
         && forall k :: 0 <= k < |r.value.data| ==> r.value.data[k].status != "")
      ensures r.Err? ==> checkNames == old(checkNames)
    {
      var cid :- CourseOf(courseIdIn);
      var c := courses[cid];
      if c.status != Progress {
        return Err(StatusInvalid("progress"));
      }
      var date :- CheckStringData(dateIn, "date");
      var i := RollCallIndex(checkNames, cid, date);
      if i.None? {
        return Err(NotFound("date"));
      }
      var rc :- CloseGate(checkNames[i.value]);
      var data := FillAbsent(rc.data, now);
      var closed := Closed(rc, data);
      checkNames := checkNames[i.value := closed];
      return Ok(closed);
    }

    // ---------------------------------------------------------- scores

    /** `CreateScore`: a new graded item of a course in progress. */
    method CreateScore(id: Id, courseIdIn: string, nameIn: string, scoreFull: real, kindIn: string) returns (r: Result<Score>)
      modifies this`scores
      ensures r.Ok? <==>
        (CourseOf(courseIdIn).Ok?
         && NewScore(id, CourseOf(courseIdIn).value, courses[CourseOf(courseIdIn).value], nameIn, scoreFull, kindIn, old(scores)).Ok?)
      ensures r.Ok? ==>
        (r == NewScore(id, CourseOf(courseIdIn).value, courses[CourseOf(courseIdIn).value], nameIn, scoreFull, kindIn, old(scores))
         && scores == old(scores) + [r.value])
      ensures r.Err? ==> scores == old(scores)
      ensures ScoresUnique(old(scores)) ==> ScoresUnique(scores)
      ensures GetsInRange(old(scores)) ==> GetsInRange(scores)
    {
      var cid :- CourseOf(courseIdIn);
      var c := courses[cid];
      var s :- NewScore(id, cid, c, nameIn, scoreFull, kindIn, scores);
      if ScoresUnique(scores) {
        NewScoreKeepsUnique(id, cid, c, nameIn, scoreFull, kindIn, scores);
      }
      if GetsInRange(scores) {
        NewScoreKeepsRange(id, cid, c, nameIn, scoreFull, kindIn, scores);
      }
      var info := CreateScoreInformation(c.studentIdList);
      s := s.(info := info);
      scores := scores + [s];
      return Ok(s);
    }

    /**
     * `UpdateStudentScore`: the student's entry of the named item of a
     * course in progress takes the grade and the status.
     */
    method UpdateStudentScore(courseIdIn: string, nameIn: string, scoreGet: real, sidIn: string, statusIn: string)
      returns (r: Result<string>)
      modifies this`scores
      ensures r.Ok? <==>
        (CourseOf(courseIdIn).Ok? && courses[CourseOf(courseIdIn).value].status == Progress
         && CheckStringData(nameIn, "name").Ok?
         && ScoreIndex(old(scores), CourseOf(courseIdIn).value, CheckStringData(nameIn, "name").value).Some?
         && GradeGate(courses[CourseOf(courseIdIn).value],
                      old(scores)[ScoreIndex(old(scores), CourseOf(courseIdIn).value, CheckStringData(nameIn, "name").value).value],
                      sidIn, statusIn, scoreGet).Ok?)
      ensures r.Ok? ==>
        (var i := ScoreIndex(old(scores), CourseOf(courseIdIn).value, CheckStringData(nameIn, "name").value).value;
         var (sid, status) := GradeGate(courses[CourseOf(courseIdIn).value], old(scores)[i], sidIn, statusIn, scoreGet).value;
         r.value == sid
         && scores == old(scores)[i := old(scores)[i].(info := Graded(old(scores)[i].info, sid, scoreGet, status))]
         && (sid in ScoreIds(old(scores)[i].info) ==> EntryGet(scores[i].info, sid) == scoreGet))
      ensures r.Err? ==> scores == old(scores)
      ensures GetsInRange(old(scores)) && 0.0 <= scoreGet ==> GetsInRange(scores)
    {
      var cid :- CourseOf(courseIdIn);
      var c := courses[cid];
      if c.status != Progress {
        return Err(StatusInvalid("progress"));
      }
      var name :- CheckStringData(nameIn, "name");
      var i := ScoreIndex(scores, cid, name);
      if i.None? {
        return Err(NotFound("score"));
      }
      var sc := scores[i.value];
      var gate :- GradeGate(c, sc, sidIn, statusIn, scoreGet);
      var (sid, status) := gate;
      var info := GradeEntry(sc.info, sid, scoreGet, status);
      if GetsInRange(scores) && 0.0 <= scoreGet {
        GradedKeepsRange(scores, i.value, sid, scoreGet, status);
      }
      if sid in ScoreIds(sc.info) {
        GradedIsSeen(sc.info, sid, scoreGet, status);
      }
      scores := scores[i.value := sc.(info := info)];
      return Ok(sid);
    }
  }
}
