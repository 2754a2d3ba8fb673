/**
 * The stored records of the school back end, one datatype per document
 * kind. Creation and update timestamps are not kept; object ids are
 * strings.
 */
module Records {
  import opened Common
  import opened SlotGrid
  import opened Booking
  import opened Lifecycle

  /** A course offering: one subject taught to one class in one term. */
  datatype Course = Course(
    status: CourseStatus,
    subjectId: string,
    instructorId: string,
    name: string,
    credit: int,
    year: string,
    term: string,
    numberOfStudent: int,
    studentIdList: seq<string>,
    locationId: Option<Id>,
    dateTime: seq<DateTime>,
    classId: Option<Id>,
    classYear: string,
    classRoom: string)

  /** A homeroom class: its grade level, room, members and weekly grid. */
  datatype ClassData = ClassData(
    classYear: string,
    classRoom: string,
    advisorId: string,
    status: bool,
    year: string,
    term: string,
    numberOfStudent: int,
    studentIdList: seq<string>,
    slot: Grid)

  /** The courses a teacher teaches in one (year, term). */
  datatype TeachesEntry = TeachesEntry(courseIdList: seq<Id>, year: string, term: string)

  datatype Teacher = Teacher(
    profileId: string,
    name: string,
    category: string,
    subjectId: string,
    classInCounseling: string,
    courseTeachesList: seq<TeachesEntry>,
    slot: Grid)

  /** The scores, counts and credit of one course in a student's transcript. */
  datatype Marks = Marks(
    grade: real,
    workGet: real, workFull: real,
    midGet: real, midFull: real,
    finalGet: real, finalFull: real,
    allDateCount: int, attendCount: int, absentCount: int, lateCount: int)

  /** All zero: what a course entry holds before its course is folded in. */
  const NoMarks := Marks(0.0, 0.0, 0.0, 0.0, 0.0, 0.0, 0.0, 0, 0, 0, 0)

  /** One course of a term entry (`CourseList`). */
  datatype CourseResult = CourseResult(id: Id, marks: Marks, credit: int)

  /** One term of a student's transcript. */
  datatype TermScore = TermScore(year: string, term: string, gpa: real, termCredit: int, courseList: seq<CourseResult>)

  datatype Student = Student(
    profileId: string,
    name: string,
    classId: string,
    parentId: string,
    gpa: real,
    allCredit: int,
    termScore: seq<TermScore>)

  /** One student's line of a course summary. */
  datatype StudentData = StudentData(studentId: string, marks: Marks)

  datatype CourseSummary = CourseSummary(id: Id, courseId: Id, studentData: seq<StudentData>)

  /** One student's entry of a graded component. */
  datatype ScoreEntry = ScoreEntry(studentId: string, scoreGet: Option<real>, status: string)

  /** A graded component of a course: work, midterm or final. */
  datatype Score = Score(id: Id, courseId: Id, kind: string, name: string, scoreFull: real, info: seq<ScoreEntry>)

  /** One student's entry of a roll call; instants are seconds. */
  datatype CheckEntry = CheckEntry(studentId: string, time: Option<int>, status: string, checkBy: string)

  /** The roll call of one course on one date. */
  datatype CheckName = CheckName(id: Id, courseId: Id, date: string, status: string, timeLate: int, data: seq<CheckEntry>)

  datatype Subject = Subject(subjectId: string, name: string, category: string, credit: int, classYear: string, instructorId: seq<string>)

  datatype Location = Location(locationId: string, buildingName: string, floor: string, room: string, status: bool, slot: Grid)

  /** A `YearAndTerm` school-data record; its fields are optional in storage. */
  datatype TermRecord = TermRecord(id: Id, year: Option<string>, term: Option<string>, status: Option<bool>)
}
