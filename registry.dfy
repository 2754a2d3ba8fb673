/**
 * Registration rules: term records and subject categories, teacher and
 * student profiles, subjects and their instructors, classes and their
 * advisors, and locations. Each rule is a check on the current records
 * followed by the new or updated record.
 */
module Registry {
  import opened Common
  import opened Validate
  import opened SlotGrid
  import opened Records
  import opened Transcript
  import opened Rollover

  /** No value occurs twice. */
  predicate NoDup<T(==)>(s: seq<T>)
  {
    forall i, j :: 0 <= i < j < |s| ==> s[i] != s[j]
  }

  // ------------------------------------------------------------ school data

  /**
   * `AddYearAndTerm`: year and term are required, and a new term may be
   * opened only when the last term record is closed. The new record is open.
   * A last record without a status is refused as invalid school data.
   */
  function NewTermRecord(id: Id, yearIn: string, termIn: string, terms: seq<TermRecord>): (r: Result<TermRecord>)
    ensures r.Ok? <==>
      (CheckStringData(yearIn, "year").Ok? && CheckStringData(termIn, "term").Ok?
       && (terms == [] || terms[|terms| - 1].status == Some(true)))
    ensures r.Ok? ==>
      r.value == TermRecord(id, Some(CheckStringData(yearIn, "year").value), Some(CheckStringData(termIn, "term").value), Some(false))
    ensures (CheckStringData(yearIn, "year").Ok? && CheckStringData(termIn, "term").Ok?
             && terms != [] && terms[|terms| - 1].status == Some(false)) ==> r == Err(TermNotFinished)
  {
    var year :- CheckStringData(yearIn, "year");
    var term :- CheckStringData(termIn, "term");
    if terms != [] && terms[|terms| - 1].status == Some(false) then Err(TermNotFinished)
    else if terms != [] && terms[|terms| - 1].status != Some(true) then Err(SchoolDataInvalid)
    else Ok(TermRecord(id, Some(year), Some(term), Some(false)))
  }

  /** A term just opened blocks the next one until it is closed. */
  lemma NewTermBlocks(id: Id, yearIn: string, termIn: string, terms: seq<TermRecord>, id2: Id, yearIn2: string, termIn2: string)
    requires NewTermRecord(id, yearIn, termIn, terms).Ok?
    requires CheckStringData(yearIn2, "year").Ok? && CheckStringData(termIn2, "term").Ok?
    ensures NewTermRecord(id2, yearIn2, termIn2, terms + [NewTermRecord(id, yearIn, termIn, terms).value]) == Err(TermNotFinished)
  {
  }

  /** `AddSubjectCategory`: the category is required and must not be listed yet. */
  function NewCategory(categoryIn: string, categories: seq<string>): (r: Result<string>)
    ensures r.Ok? <==> CheckStringData(categoryIn, "category").Ok? && CheckStringData(categoryIn, "category").value !in categories
    ensures r.Ok? ==> r.value == CheckStringData(categoryIn, "category").value
    ensures (CheckStringData(categoryIn, "category").Ok? && CheckStringData(categoryIn, "category").value in categories)
      ==> r == Err(CategoryAdded)
  {
    var category :- CheckStringData(categoryIn, "category");
    if category in categories then Err(CategoryAdded) else Ok(category)
  }

  /** Adding what `NewCategory` accepted keeps the category list free of duplicates. */
  lemma NewCategoryKeepsNoDup(categoryIn: string, categories: seq<string>)
    requires NoDup(categories) && NewCategory(categoryIn, categories).Ok?
    ensures NoDup(categories + [NewCategory(categoryIn, categories).value])
  {
    var c := NewCategory(categoryIn, categories).value;
    var s := categories + [c];
    forall i, j | 0 <= i < j < |s|
      ensures s[i] != s[j]
    {
      if j == |categories| {
        assert s[i] == categories[i];
      }
    }
  }

  // ------------------------------------------------------------ profiles

  /**
   * `newTeacherProfile`: the profile id is not taken by another teacher,
   * name and category are required, the category is registered, and a
   * term record exists. The term taken is the OLDEST record (the last one
   * after the descending sort), which must still be open. The teacher
   * starts with a fresh grid and one empty entry for that term.
   */
  function NewTeacher(profileId: string, nameIn: string, categoryIn: string, categories: seq<string>,
                      terms: seq<TermRecord>, teachers: map<string, Teacher>): (r: Result<Teacher>)
    ensures profileId in teachers ==> r == Err(ProfileIdAlreadyExists)
    ensures r.Ok? <==>
      (profileId !in teachers && CheckStringData(nameIn, "name").Ok? && CheckStringData(categoryIn, "category").Ok?
       && CheckStringData(categoryIn, "category").value in categories
       && terms != [] && terms[0].status == Some(false) && terms[0].year.Some? && terms[0].term.Some?)
    ensures r.Ok? ==>
      (r.value.profileId == profileId && r.value.name == CheckStringData(nameIn, "name").value
       && r.value.category == CheckStringData(categoryIn, "category").value
       && r.value.subjectId == "" && r.value.classInCounseling == ""
       && r.value.slot == FreshGrid()
       && r.value.courseTeachesList == [TeachesEntry([], terms[0].year.value, terms[0].term.value)])
  {
    if profileId in teachers then Err(ProfileIdAlreadyExists)
    else
      var name :- CheckStringData(nameIn, "name");
      var category :- CheckStringData(categoryIn, "category");
      if categories == [] then Err(NotFound("category"))
      else if category !in categories then Err(NotRegistered("category"))
      else if terms == [] then Err(NotFound("school data"))
      else if terms[0].status != Some(false) || terms[0].year.None? || terms[0].term.None? then Err(SchoolDataInvalid)
      else Ok(Teacher(profileId, name, category, "", "", [TeachesEntry([], terms[0].year.value, terms[0].term.value)], FreshGrid()))
  }

  /**
   * `newStudentProfile` up to the class lookup: the profile id is not taken
   * by another student, name and class id are required, and the class is
   * looked up by the id exactly as sent (untrimmed).
   */
  function StudentGate(profileId: string, nameIn: string, classIdIn: string,
                       classes: map<Id, ClassData>, students: map<string, Student>): (r: Result<ClassData>)
    ensures r.Ok? <==>
      (profileId !in students && CheckStringData(nameIn, "name").Ok? && CheckStringData(classIdIn, "class_id").Ok?
       && classIdIn in classes)
    ensures r.Ok? ==> r.value == classes[classIdIn]
    ensures profileId in students ==> r == Err(ProfileIdAlreadyExists)
  {
    if profileId in students then Err(ProfileIdAlreadyExists)
    else
      var _ :- CheckStringData(nameIn, "name");
      var _ :- CheckStringData(classIdIn, "class_id");
      if classIdIn !in classes then Err(NotFound("class"))
      else Ok(classes[classIdIn])
  }

  /** The class after `sid` joins it: appended and recounted only when not yet a member. */
  function Enrolled(c: ClassData, sid: string): ClassData
  {
    if sid in c.studentIdList then c
    else c.(studentIdList := c.studentIdList + [sid], numberOfStudent := |c.studentIdList| + 1)
  }

  /**
   * Joining a class is a set insert: the members afterwards are the members
   * before plus `sid`, none is duplicated, the count matches the list when
   * the list changed, and joining again changes nothing.
   */
  lemma EnrolledIsInsert(c: ClassData, sid: string)
    ensures forall x :: x in Enrolled(c, sid).studentIdList <==> x in c.studentIdList || x == sid
    ensures NoDup(c.studentIdList) ==> NoDup(Enrolled(c, sid).studentIdList)
    ensures sid !in c.studentIdList ==> Enrolled(c, sid).numberOfStudent == |Enrolled(c, sid).studentIdList|
    ensures Enrolled(Enrolled(c, sid), sid) == Enrolled(c, sid)
    ensures Enrolled(c, sid).(studentIdList := c.studentIdList, numberOfStudent := c.numberOfStudent) == c
  {
  }

  /** The membership scan of `newStudentProfile`, then the append and the recount. */
  method AddToClass(c: ClassData, sid: string) returns (r: ClassData, changed: bool)
    ensures r == Enrolled(c, sid)
    ensures changed <==> sid !in c.studentIdList
  {
    var k := 0;
    while k < |c.studentIdList|
      invariant 0 <= k <= |c.studentIdList|
      invariant forall j :: 0 <= j < k ==> c.studentIdList[j] != sid
    {
      if c.studentIdList[k] == sid {
        return c, false;
      }
      k := k + 1;
    }
    var list := c.studentIdList + [sid];
    r := c.(studentIdList := list, numberOfStudent := |list|);
    changed := true;
  }

  /**
   * The new student profile: name and class id as sent (untrimmed), and one
   * empty term entry for the class's (year, term).
   */
  function NewStudent(profileId: string, nameIn: string, classIdIn: string, c: ClassData): Student
  {
    Student(profileId, nameIn, classIdIn, "", 0.0, 0, [TermScore(c.year, c.term, 0.0, 0, [])])
  }

  /**
   * A new student has exactly one term entry, for the class's term, so the
   * rollover into that same term adds nothing to it.
   */
  lemma NewStudentOneTerm(profileId: string, nameIn: string, classIdIn: string, c: ClassData)
    ensures TermKeys(NewStudent(profileId, nameIn, classIdIn, c).termScore) == [(c.year, c.term)]
    ensures AddTermEntry(NewStudent(profileId, nameIn, classIdIn, c), c.year, c.term).None?
  {
  }

  // ------------------------------------------------------------ subjects

  /**
   * `CreateSubject`: the subject id is required and unused, name, category
   * and class year are required, the credit is positive, and the category
   * is registered. The subject starts with no instructor.
   */
  function NewSubject(subjectIdIn: string, nameIn: string, categoryIn: string, classYearIn: string, credit: Option<int>,
                      categories: seq<string>, subjects: map<string, Subject>): (r: Result<Subject>)
    ensures r.Ok? <==>
      (CheckStringData(subjectIdIn, "subject_id").Ok? && CheckStringData(subjectIdIn, "subject_id").value !in subjects
       && CheckStringData(nameIn, "name").Ok? && CheckStringData(categoryIn, "category").Ok?
       && CheckStringData(classYearIn, "class_year").Ok? && credit.Some? && credit.value > 0
       && CheckStringData(categoryIn, "category").value in categories)
    ensures r.Ok? ==>
      r.value == Subject(CheckStringData(subjectIdIn, "subject_id").value, CheckStringData(nameIn, "name").value,
                         CheckStringData(categoryIn, "category").value, credit.value,
                         CheckStringData(classYearIn, "class_year").value, [])
    ensures (CheckStringData(subjectIdIn, "subject_id").Ok? && CheckStringData(subjectIdIn, "subject_id").value in subjects)
      ==> r == Err(AlreadyExists("subject id"))
  {
    var subjectId :- CheckStringData(subjectIdIn, "subject_id");
    if subjectId in subjects then Err(AlreadyExists("subject id"))
    else
      var name :- CheckStringData(nameIn, "name");
      var category :- CheckStringData(categoryIn, "category");
      var classYear :- CheckStringData(classYearIn, "class_year");
      var cr :- CheckIntegerData(credit, "credit");
      if categories == [] then Err(NotFound("category"))
      else if category !in categories then Err(NotRegistered("category"))
      else Ok(Subject(subjectId, name, category, cr, classYear, []))
  }

  /**
   * `UpdateSubject` once the subject is found: name, category and class
   * year are required and the credit is positive; those four fields are
   * overwritten, the id and the instructor list are kept. The category is
   * not checked against the registered ones here.
   */
  function EditSubject(s: Subject, nameIn: string, categoryIn: string, classYearIn: string, credit: Option<int>): (r: Result<Subject>)
    ensures r.Ok? <==>
      (CheckStringData(nameIn, "name").Ok? && CheckStringData(categoryIn, "category").Ok?
       && CheckStringData(classYearIn, "class_year").Ok? && credit.Some? && credit.value > 0)
    ensures r.Ok? ==> r.value.subjectId == s.subjectId && r.value.instructorId == s.instructorId
    ensures r.Ok? ==>
      (r.value.name == CheckStringData(nameIn, "name").value && r.value.category == CheckStringData(categoryIn, "category").value
       && r.value.classYear == CheckStringData(classYearIn, "class_year").value && r.value.credit == credit.value)
  {
    var name :- CheckStringData(nameIn, "name");
    var category :- CheckStringData(categoryIn, "category");
    var classYear :- CheckStringData(classYearIn, "class_year");
    var cr :- CheckIntegerData(credit, "credit");
    Ok(s.(name := name, category := category, credit := cr, classYear := classYear))
  }

  /**
   * `AddInstructor` once the subject is found: the instructor id is
   * required and not listed yet, the teacher exists, and the teacher's
   * category is the subject's. Gives the trimmed instructor id.
   */
  function InstructorGate(s: Subject, iidIn: string, teachers: map<string, Teacher>): (r: Result<string>)
    ensures r.Ok? <==>
      (CheckStringData(iidIn, "instructor_id").Ok? && CheckStringData(iidIn, "instructor_id").value !in s.instructorId
       && CheckStringData(iidIn, "instructor_id").value in teachers
       && teachers[CheckStringData(iidIn, "instructor_id").value].category == s.category)
    ensures r.Ok? ==> r.value == CheckStringData(iidIn, "instructor_id").value
    ensures (CheckStringData(iidIn, "instructor_id").Ok? && CheckStringData(iidIn, "instructor_id").value in s.instructorId)
      ==> r == Err(AlreadyExists("instructor"))
    ensures (CheckStringData(iidIn, "instructor_id").Ok? && CheckStringData(iidIn, "instructor_id").value !in s.instructorId
             && CheckStringData(iidIn, "instructor_id").value in teachers
             && teachers[CheckStringData(iidIn, "instructor_id").value].category != s.category) ==> r == Err(CategoryNotMatch)
  {
    var iid :- CheckStringData(iidIn, "instructor_id");
    if iid in s.instructorId then Err(AlreadyExists("instructor"))
    else if iid !in teachers then Err(NotFound("teacher"))
    else if teachers[iid].category != s.category then Err(CategoryNotMatch)
    else Ok(iid)
  }

  /**
   * Registering an accepted instructor appends exactly one id, keeps the
   * list free of duplicates, and a second registration is refused.
   */
  lemma InstructorOnce(s: Subject, iidIn: string, teachers: map<string, Teacher>)
    requires NoDup(s.instructorId) && InstructorGate(s, iidIn, teachers).Ok?
    ensures var iid := InstructorGate(s, iidIn, teachers).value;
      NoDup(s.instructorId + [iid])
      && InstructorGate(s.(instructorId := s.instructorId + [iid]), iidIn, teachers) == Err(AlreadyExists("instructor"))
  {
    var iid := InstructorGate(s, iidIn, teachers).value;
    var l := s.instructorId + [iid];
    forall i, j | 0 <= i < j < |l|
      ensures l[i] != l[j]
    {
      if j == |s.instructorId| {
        assert l[i] == s.instructorId[i];
      }
    }
    assert l[|s.instructorId|] == iid;
  }

  // ------------------------------------------------------------ classes

  /** How many classes are in class year "1" (any status, any term). */
  function YearOneCount(classes: map<Id, ClassData>): nat
  {
    |set k | k in classes && classes[k].classYear == "1"|
  }

  /**
   * `CreateClass`: a new first-year class, numbered one past the count of
   * first-year classes, open, with no members and a fresh grid, in the
   * (year, term) of the NEWEST term record, which must be open. With no
   * term record at all the handler cannot proceed.
   */
  function NewClass(classes: map<Id, ClassData>, terms: seq<TermRecord>): (r: Result<ClassData>)
    ensures r.Ok? <==>
      (terms != [] && terms[|terms| - 1].status == Some(false) && terms[|terms| - 1].year.Some? && terms[|terms| - 1].term.Some?)
    ensures r.Ok? ==>
      (r.value.classYear == "1" && r.value.classRoom == Itoa(YearOneCount(classes) + 1)
       && !r.value.status && r.value.advisorId == "" && r.value.studentIdList == [] && r.value.numberOfStudent == 0
       && r.value.slot == FreshGrid()
       && Some(r.value.year) == terms[|terms| - 1].year && Some(r.value.term) == terms[|terms| - 1].term)
  {
    if terms == [] then Err(NotFound("school data"))
    else
      var newest := terms[|terms| - 1];
      if newest.status != Some(false) || newest.year.None? || newest.term.None? then Err(SchoolDataInvalid)
      else Ok(ClassData("1", Itoa(YearOneCount(classes) + 1), "", false, newest.year.value, newest.term.value, 0, [], FreshGrid()))
  }

  /**
   * When the first-year rooms are numbered 1..n (n = their count), the new
   * class's room number is not one of them.
   */
  lemma NewRoomUnused(classes: map<Id, ClassData>, terms: seq<TermRecord>, k: Id)
    requires NewClass(classes, terms).Ok?
    requires forall j :: j in classes && classes[j].classYear == "1" ==>
      exists n :: 1 <= n <= YearOneCount(classes) && classes[j].classRoom == Itoa(n)
    requires k in classes && classes[k].classYear == "1"
    ensures classes[k].classRoom != NewClass(classes, terms).value.classRoom
  {
    var n :| 1 <= n <= YearOneCount(classes) && classes[k].classRoom == Itoa(n);
    AtoiItoa(n);
    AtoiItoa(YearOneCount(classes) + 1);
  }

  /**
   * `SetAdvisor` once the class is found: the class has no advisor yet,
   * the advisor id is required, the teacher exists and counsels no class.
   * Gives the trimmed advisor id.
   */
  function AdvisorGate(c: ClassData, aidIn: string, teachers: map<string, Teacher>): (r: Result<string>)
    ensures r.Ok? <==>
      (c.advisorId == "" && CheckStringData(aidIn, "advisor_id").Ok?
       && CheckStringData(aidIn, "advisor_id").value in teachers
       && teachers[CheckStringData(aidIn, "advisor_id").value].classInCounseling == "")
    ensures r.Ok? ==> r.value == CheckStringData(aidIn, "advisor_id").value
    ensures c.advisorId != "" ==> r == Err(ClassHasAdvisor)
    ensures (c.advisorId == "" && CheckStringData(aidIn, "advisor_id").Ok?
             && CheckStringData(aidIn, "advisor_id").value in teachers
             && teachers[CheckStringData(aidIn, "advisor_id").value].classInCounseling != "") ==> r == Err(TeacherHasClass)
  {
    if c.advisorId != "" then Err(ClassHasAdvisor)
    else
      var aid :- CheckStringData(aidIn, "advisor_id");
      if aid !in teachers then Err(NotFound("teacher"))
      else if teachers[aid].classInCounseling != "" then Err(TeacherHasClass)
      else Ok(aid)
  }

  /**
   * The class/advisor link is one-to-one: a class's advisor counsels that
   * class, and a teacher's counselled class has that teacher as advisor
   * (ids on both sides of a link are non-empty).
   */
  ghost predicate AdvisorLinks(classes: map<Id, ClassData>, teachers: map<string, Teacher>)
  {
    (forall c :: c in classes && classes[c].advisorId != "" ==>
       c != "" && classes[c].advisorId in teachers && teachers[classes[c].advisorId].classInCounseling == c)
    && (forall t :: t in teachers && teachers[t].classInCounseling != "" ==>
       t != "" && teachers[t].classInCounseling in classes && classes[teachers[t].classInCounseling].advisorId == t)
  }

  /** Setting an advisor the gate accepts keeps the link one-to-one. */
  lemma SetAdvisorKeepsLinks(classes: map<Id, ClassData>, teachers: map<string, Teacher>, cid: Id, aidIn: string)
    requires AdvisorLinks(classes, teachers)
    requires cid in classes && cid != "" && AdvisorGate(classes[cid], aidIn, teachers).Ok?
    ensures var aid := AdvisorGate(classes[cid], aidIn, teachers).value;
      AdvisorLinks(classes[cid := classes[cid].(advisorId := aid)], teachers[aid := teachers[aid].(classInCounseling := cid)])
  {
    var aid := AdvisorGate(classes[cid], aidIn, teachers).value;
    var cs := classes[cid := classes[cid].(advisorId := aid)];
    var ts := teachers[aid := teachers[aid].(classInCounseling := cid)];
    forall c | c in cs && cs[c].advisorId != ""
      ensures cs[c].advisorId in ts && ts[cs[c].advisorId].classInCounseling == c
    {
      if c != cid {
        assert cs[c].advisorId != aid;
      }
    }
    forall t | t in ts && ts[t].classInCounseling != ""
      ensures ts[t].classInCounseling in cs && cs[ts[t].classInCounseling].advisorId == t
    {
      if t != aid {
        assert teachers[t].classInCounseling != cid;
      }
    }
  }

  // ------------------------------------------------------------ locations

  /** The id of a location: building, floor and room joined by dashes. */
  function LocationKey(building: string, floor: string, room: string): string
  {
    building + "-" + floor + "-" + room
  }

  /** A location whose id is the one its fields give. */
  predicate Keyed(l: Location)
  {
    l.locationId == LocationKey(l.buildingName, l.floor, l.room)
  }

  /** Some stored location already stands at (building, floor, room). */
  predicate Occupied(locations: map<Id, Location>, building: string, floor: string, room: string)
  {
    exists k :: k in locations && locations[k].buildingName == building && locations[k].floor == floor && locations[k].room == room
  }

  /**
   * `CreateLocation`: building, floor and room are required, no location
   * stands at the same place yet, and the new location is keyed by its
   * fields, usable (status true) and has a fresh grid.
   */
  function NewLocation(bIn: string, fIn: string, rIn: string, locations: map<Id, Location>): (r: Result<Location>)
    ensures r.Ok? <==>
      (CheckStringData(bIn, "building_name").Ok? && CheckStringData(fIn, "floor").Ok? && CheckStringData(rIn, "room").Ok?
       && !Occupied(locations, CheckStringData(bIn, "building_name").value, CheckStringData(fIn, "floor").value,
                    CheckStringData(rIn, "room").value))
    ensures r.Ok? ==>
      (Keyed(r.value) && r.value.status && r.value.slot == FreshGrid()
       && r.value.buildingName == CheckStringData(bIn, "building_name").value
       && r.value.floor == CheckStringData(fIn, "floor").value && r.value.room == CheckStringData(rIn, "room").value)
  {
    var b :- CheckStringData(bIn, "building_name");
    var f :- CheckStringData(fIn, "floor");
    var rm :- CheckStringData(rIn, "room");
    if Occupied(locations, b, f, rm) then Err(AlreadyExists("location"))
    else Ok(Location(LocationKey(b, f, rm), b, f, rm, true, FreshGrid()))
  }

  /**
   * `UpdateLocationData` as written, once the location `l` is found under
   * the requested id: the "new" id is built from the STORED fields, and
   * when it differs from the trimmed request id the handler looks up the
   * location's own id, which always finds `l` itself and so refuses. On
   * success the id keeps the old fields' key while the fields change.
   */
  function UpdateLocationAsWritten(l: Location, idIn: string, bIn: string, fIn: string, rIn: string, status: Option<bool>): (r: Result<Location>)
    ensures r.Ok? ==> r.value.locationId == LocationKey(l.buildingName, l.floor, l.room)
    ensures (CheckStringData(idIn, "location_id").Ok? && CheckStringData(bIn, "building_name").Ok?
             && CheckStringData(fIn, "floor").Ok? && CheckStringData(rIn, "room").Ok?)
      ==> (r.Ok? <==> CheckStringData(idIn, "location_id").value == LocationKey(l.buildingName, l.floor, l.room))
  {
    var id :- CheckStringData(idIn, "location_id");
    var b :- CheckStringData(bIn, "building_name");
    var f :- CheckStringData(fIn, "floor");
    var rm :- CheckStringData(rIn, "room");
    var idNew := LocationKey(l.buildingName, l.floor, l.room);
    if id != idNew then Err(AlreadyExists("location"))
    else Ok(l.(locationId := idNew, buildingName := b, floor := f, room := rm, status := if status.Some? then status.value else l.status))
  }

  /**
   * As written, moving "A-1-101" to building "B" keeps the id "A-1-101",
   * and every later update of that location is refused.
   */
  lemma UpdateLocationSticks()
    ensures var l := Location("A-1-101", "A", "1", "101", true, FreshGrid());
      var r := UpdateLocationAsWritten(l, "A-1-101", "B", "1", "101", None);
      r.Ok? && r.value.locationId == "A-1-101" && !Keyed(r.value)
      && UpdateLocationAsWritten(r.value, "A-1-101", "B", "1", "101", None).Err?
  {
    var l := Location("A-1-101", "A", "1", "101", true, FreshGrid());
    assert LocationKey("A", "1", "101") == "A-1-101";
    assert LocationKey("B", "1", "101") == "B-1-101";
    assert "B-1-101"[0] != "A-1-101"[0];
    CheckVisible("A-1-101", "location_id");
    CheckVisible("B", "building_name");
    CheckVisible("1", "floor");
    CheckVisible("101", "room");
  }

  /**
   * `UpdateLocationData` as intended: the id follows the new fields, and a
   * changed id must not be held by another location (`self` is the key the
   * location is stored under).
   */
  function UpdateLocation(l: Location, self: Id, bIn: string, fIn: string, rIn: string, status: Option<bool>,
                          locations: map<Id, Location>): (r: Result<Location>)
    ensures r.Ok? ==> Keyed(r.value) && r.value.slot == l.slot
    ensures r.Ok? <==>
      (CheckStringData(bIn, "building_name").Ok? && CheckStringData(fIn, "floor").Ok? && CheckStringData(rIn, "room").Ok?
       && var idNew := LocationKey(CheckStringData(bIn, "building_name").value, CheckStringData(fIn, "floor").value,
                                   CheckStringData(rIn, "room").value);
          (idNew == l.locationId || forall k :: k in locations && k != self ==> locations[k].locationId != idNew))
  {
    var b :- CheckStringData(bIn, "building_name");
    var f :- CheckStringData(fIn, "floor");
    var rm :- CheckStringData(rIn, "room");
    var idNew := LocationKey(b, f, rm);
    if idNew != l.locationId && exists k :: k in locations && k != self && locations[k].locationId == idNew then
      Err(AlreadyExists("location"))
    else Ok(l.(locationId := idNew, buildingName := b, floor := f, room := rm, status := if status.Some? then status.value else l.status))
  }

  /**
   * The two rules agree on a location whose id is its own address when the
   * request keeps that address and only the status may change.
   */
  lemma UpdateLocationAgrees(l: Location, self: Id, idIn: string, status: Option<bool>, locations: map<Id, Location>)
    requires Keyed(l) && CheckStringData(idIn, "location_id") == Ok(l.locationId)
    requires CheckStringData(l.buildingName, "building_name") == Ok(l.buildingName)
    requires CheckStringData(l.floor, "floor") == Ok(l.floor) && CheckStringData(l.room, "room") == Ok(l.room)
    ensures UpdateLocationAsWritten(l, idIn, l.buildingName, l.floor, l.room, status)
         == UpdateLocation(l, self, l.buildingName, l.floor, l.room, status, locations)
    ensures UpdateLocation(l, self, l.buildingName, l.floor, l.room, status, locations).Ok?
  {
  }

  /**
   * With the intended update, a location can be updated again: repeating
   * the same request on the result succeeds and gives the same record.
   */
  lemma UpdateLocationRepeatable(l: Location, self: Id, bIn: string, fIn: string, rIn: string, status: Option<bool>,
                                 locations: map<Id, Location>)
    requires UpdateLocation(l, self, bIn, fIn, rIn, status, locations).Ok?
    ensures var u := UpdateLocation(l, self, bIn, fIn, rIn, status, locations).value;
      UpdateLocation(u, self, bIn, fIn, rIn, status, locations[self := u]) == Ok(u)
  {
  }
}
