/**
 * Per-date roll calls of a course: opening a roll call, marking a student
 * attend or late against the cutoff, and closing the day with every
 * unmarked student absent. Instants are whole seconds; the weekday of a
 * date comes from the calendar and is an input.
 */
module Attendance {
  import opened Common
  import opened Validate
  import opened Booking
  import opened Records
  import opened Lifecycle

  // ------------------------------------------------------------ new roll call

  /** The entry of a student nobody has marked yet. */
  function Blank(sid: string): CheckEntry
  {
    CheckEntry(sid, None, "", "")
  }

  /** The entries of a new roll call: one blank entry per enrolled student. */
  function BlankEntries(ids: seq<string>): (r: seq<CheckEntry>)
    ensures |r| == |ids|
    ensures forall k :: 0 <= k < |ids| ==> r[k].studentId == ids[k] && r[k].status == "" && r[k].time.None?
  {
    if ids == [] then [] else [Blank(ids[0])] + BlankEntries(ids[1..])
  }

  /** `createCheckNameData`: the append loop over the student list. */
  method CreateCheckNameData(ids: seq<string>) returns (r: seq<CheckEntry>)
    ensures r == BlankEntries(ids)
  {
    r := [];
    var k := 0;
    while k < |ids|
      invariant 0 <= k <= |ids|
      invariant BlankEntries(ids) == r + BlankEntries(ids[k..])
    {
      assert ids[k..][0] == ids[k] && ids[k..][1..] == ids[k + 1..];
      r := r + [Blank(ids[k])];
      k := k + 1;
    }
    assert ids[k..] == [];
  }

  /** The course meets on `day`. */
  predicate MeetsOn(dts: seq<DateTime>, day: string)
  {
    exists k :: 0 <= k < |dts| && dts[k].day == day
  }

  /** Some roll call of the course is already dated `date`. */
  predicate Dated(records: seq<CheckName>, courseId: Id, date: string)
  {
    exists k :: 0 <= k < |records| && records[k].courseId == courseId && records[k].date == date
  }

  /**
   * `AddDateForCheck` once the course is found: it must be in progress,
   * the date and a positive lateness allowance (minutes) are required, the
   * date must parse (`weekday` is its weekday, `None` when it does not) and
   * fall on a meeting day, and the course may have only one roll call per
   * date. The new roll call is open ("progress"), its cutoff is `now` plus
   * the allowance, and it holds one blank entry per enrolled student.
   */
  function NewRollCall(id: Id, courseId: Id, c: Course, dateIn: string, timeLate: Option<int>,
                       weekday: Option<string>, now: int, records: seq<CheckName>): (r: Result<CheckName>)
    ensures c.status != Progress ==> r == Err(StatusInvalid("progress"))
    ensures r.Ok? <==>
      (c.status == Progress && CheckStringData(dateIn, "date").Ok? && timeLate.Some? && timeLate.value > 0
       && weekday.Some? && MeetsOn(c.dateTime, weekday.value)
       && !Dated(records, courseId, CheckStringData(dateIn, "date").value))
    ensures r.Ok? ==>
      (r.value.id == id && r.value.courseId == courseId && r.value.status == "progress"
       && r.value.date == CheckStringData(dateIn, "date").value
       && r.value.timeLate == now + 60 * timeLate.value
       && r.value.data == BlankEntries(c.studentIdList))
    ensures (c.status == Progress && CheckStringData(dateIn, "date").Ok? && timeLate.Some? && timeLate.value > 0
             && weekday.Some? && !MeetsOn(c.dateTime, weekday.value)) ==> r == Err(DayNotInCourse)
    ensures (r.Err? && c.status == Progress && CheckStringData(dateIn, "date").Ok? && timeLate.Some? && timeLate.value > 0
             && weekday.Some? && MeetsOn(c.dateTime, weekday.value)) ==> r == Err(AlreadyExists("check name date"))
  {
    if c.status != Progress then Err(StatusInvalid("progress"))
    else
      var date :- CheckStringData(dateIn, "date");
      var minutes :- CheckIntegerData(timeLate, "time_late");
      if weekday.None? then Err(ValueInvalid("date"))
      else if !MeetsOn(c.dateTime, weekday.value) then Err(DayNotInCourse)
      else if Dated(records, courseId, date) then Err(AlreadyExists("check name date"))
      else Ok(CheckName(id, courseId, date, "progress", now + 60 * minutes, BlankEntries(c.studentIdList)))
  }

  /** A successful `NewRollCall` makes the (course, date) pair taken, so a repeat is refused. */
  lemma NewRollCallOnce(id: Id, courseId: Id, c: Course, dateIn: string, timeLate: Option<int>,
                        weekday: Option<string>, now: int, records: seq<CheckName>, id2: Id, now2: int)
    requires NewRollCall(id, courseId, c, dateIn, timeLate, weekday, now, records).Ok?
    ensures var rc := NewRollCall(id, courseId, c, dateIn, timeLate, weekday, now, records).value;
      NewRollCall(id2, courseId, c, dateIn, timeLate, weekday, now2, records + [rc]) == Err(AlreadyExists("check name date"))
  {
    var rc := NewRollCall(id, courseId, c, dateIn, timeLate, weekday, now, records).value;
    assert (records + [rc])[|records|] == rc;
  }

  // ------------------------------------------------------------ marking

  /**
   * `CheckNameStudent` once the roll call is found: the student id and the
   * marker are required, the marker is the teacher or the server, and the
   * student is enrolled in the course. The roll call's own status is not
   * consulted. Gives the trimmed (student id, marker).
   */
  function CheckInGate(c: Course, sidIn: string, markerIn: string): (r: Result<(string, string)>)
    ensures r.Ok? <==>
      (CheckStringData(sidIn, "student_id").Ok? && CheckStringData(markerIn, "check_by").Ok?
       && CheckStringData(markerIn, "check_by").value in {"teacher", "server"}
       && CheckStringData(sidIn, "student_id").value in c.studentIdList)
    ensures r.Ok? ==> r.value == (CheckStringData(sidIn, "student_id").value, CheckStringData(markerIn, "check_by").value)
    ensures (CheckStringData(sidIn, "student_id").Ok? && CheckStringData(markerIn, "check_by").Ok?
             && CheckStringData(markerIn, "check_by").value !in {"teacher", "server"}) ==> r == Err(ValueInvalid("check by"))
    ensures (CheckStringData(sidIn, "student_id").Ok? && CheckStringData(markerIn, "check_by").Ok?
             && CheckStringData(markerIn, "check_by").value in {"teacher", "server"}
             && CheckStringData(sidIn, "student_id").value !in c.studentIdList) ==> r == Err(StudentNotInCourse)
  {
    var sid :- CheckStringData(sidIn, "student_id");
    var marker :- CheckStringData(markerIn, "check_by");
    if marker != "teacher" && marker != "server" then Err(ValueInvalid("check by"))
    else if sid !in c.studentIdList then Err(StudentNotInCourse)
    else Ok((sid, marker))
  }

  /** One entry marked at `now` against the cutoff `timeLate`. */
  function Marked(e: CheckEntry, now: int, timeLate: int, marker: string): CheckEntry
  {
    e.(time := Some(now), checkBy := marker, status := if now <= timeLate then "attend" else "late")
  }

  /** A mark at or before the cutoff is "attend", after it "late". */
  lemma MarkedStatus(e: CheckEntry, now: int, timeLate: int, marker: string)
    ensures Marked(e, now, timeLate, marker).status == "attend" <==> now <= timeLate
    ensures Marked(e, now, timeLate, marker).status == "late" <==> now > timeLate
    ensures Marked(e, now, timeLate, marker).studentId == e.studentId
  {
  }

  /**
   * The marking loop of `CheckNameStudent`: every entry of `sid` (not only
   * the first) is marked; every other entry is left as it was.
   */
  method MarkStudent(data: seq<CheckEntry>, sid: string, now: int, timeLate: int, marker: string) returns (r: seq<CheckEntry>)
    ensures |r| == |data|
    ensures forall k :: 0 <= k < |data| ==>
      r[k] == (if data[k].studentId == sid then Marked(data[k], now, timeLate, marker) else data[k])
  {
    r := data;
    var k := 0;
    while k < |data|
      invariant 0 <= k <= |data| && |r| == |data|
      invariant forall j :: 0 <= j < k ==>
        r[j] == (if data[j].studentId == sid then Marked(data[j], now, timeLate, marker) else data[j])
      invariant r[k..] == data[k..]
    {
      if r[k].studentId == sid {
        r := r[k := Marked(r[k], now, timeLate, marker)];
      }
      k := k + 1;
    }
  }

  /** Marking after the day was closed is still accepted: the gate never reads the roll call. */
  lemma MarkAfterClose(c: Course, sid: string, marker: string)
    requires sid in c.studentIdList && marker in {"teacher", "server"}
    requires CheckStringData(sid, "student_id") == Ok(sid) && CheckStringData(marker, "check_by") == Ok(marker)
    ensures CheckInGate(c, sid, marker) == Ok((sid, marker))
  {
  }

  // ------------------------------------------------------------ closing

  /** `EndDateCheckName` accepts only a roll call that is still open. */
  function CloseGate(rc: CheckName): (r: Result<CheckName>)
    ensures r.Ok? <==> rc.status == "progress"
    ensures r.Err? ==> r.error == DateNotInProgress
  {
    if rc.status != "progress" then Err(DateNotInProgress) else Ok(rc)
  }

  /** An unmarked entry at closing time: absent, marked marker the server. */
  function Absent(e: CheckEntry, now: int): CheckEntry
  {
    e.(time := Some(now), status := "absent", checkBy := "server")
  }

  /**
   * The closing loop of `EndDateCheckName`: every entry without a status
   * becomes absent; marked entries are left as they were, so afterwards no
   * entry is unmarked.
   */
  method FillAbsent(data: seq<CheckEntry>, now: int) returns (r: seq<CheckEntry>)
    ensures |r| == |data|
    ensures forall k :: 0 <= k < |data| ==> r[k] == (if data[k].status == "" then Absent(data[k], now) else data[k])
    ensures forall k :: 0 <= k < |r| ==> r[k].status != "" && r[k].studentId == data[k].studentId
  {
    r := data;
    var k := 0;
    while k < |data|
      invariant 0 <= k <= |data| && |r| == |data|
      invariant forall j :: 0 <= j < k ==> r[j] == (if data[j].status == "" then Absent(data[j], now) else data[j])
      invariant r[k..] == data[k..]
    {
      if r[k].status == "" {
        r := r[k := Absent(r[k], now)];
      }
      k := k + 1;
    }
  }

  /** The closed roll call: its entries filled in and its status "end". */
  function Closed(rc: CheckName, data: seq<CheckEntry>): (r: CheckName)
    ensures CloseGate(r) == Err(DateNotInProgress)
    ensures r.id == rc.id && r.courseId == rc.courseId && r.date == rc.date && r.timeLate == rc.timeLate
  {
    rc.(status := "end", data := data)
  }
}
