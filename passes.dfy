/**
 * The grid passes of the course handlers, written the way the handlers
 * run them: for each meeting pattern find the weekday bucket once, then
 * walk its half hours.
 *
 * The nested functions (`MarkDates`, `ReleaseDates`, `ClassPass`) are the
 * specifications of the loops below them; lemmas tie them to the
 * request-by-request meaning in `Booking`.
 */
module GridPasses {
  import opened Common
  import opened Validate
  import opened SlotGrid
  import opened Booking

  function WithRow(g: Grid, i: nat, row: seq<TimeSlot>): (h: Grid)
    requires i < |g|
    ensures |h| == |g| && DayNames(h) == DayNames(g)
  {
    var h := g[i := g[i].(timeSlot := row)];
    assert DayNames(h) == DayNames(g);
    h
  }

  // ---------------------------------------------------------------------
  // Teacher and location pass of course creation

  /** Books the half hours `times` in one bucket. */
  function MarkTimes(row: seq<TimeSlot>, times: seq<string>, c: Id, e: Error): Result<seq<TimeSlot>>
    decreases |times|
  {
    if times == [] then Ok(row)
    else match IndexOf(TimeNames(row), times[0])
      case None => MarkTimes(row, times[1..], c, e)
      case Some(j) =>
        if row[j].status then Err(e)
        else MarkTimes(row[j := Taken(row[j].time, c)], times[1..], c, e)
  }

  /** One meeting pattern: a weekday the grid lacks is skipped. */
  function MarkDay(g: Grid, dt: DateTime, c: Id, e: Error): Result<Grid>
  {
    match IndexOf(DayNames(g), dt.day)
    case None => Ok(g)
    case Some(i) =>
      match MarkTimes(g[i].timeSlot, dt.time, c, e)
      case Err(x) => Err(x)
      case Ok(row) => Ok(WithRow(g, i, row))
  }

  function MarkDates(g: Grid, dts: seq<DateTime>, c: Id, e: Error): Result<Grid>
    decreases |dts|
  {
    if dts == [] then Ok(g)
    else match MarkDay(g, dts[0], c, e)
      case Err(x) => Err(x)
      case Ok(h) => MarkDates(h, dts[1..], c, e)
  }

  lemma {:induction false} MarkTimesLift(g: Grid, i: nat, day: string, times: seq<string>, c: Id, e: Error)
    requires IndexOf(DayNames(g), day) == Some(i)
    ensures Mark(g, Pairs(day, times), c, e) ==
      match MarkTimes(g[i].timeSlot, times, c, e)
      case Err(x) => Err(x)
      case Ok(row) => Ok(WithRow(g, i, row))
    decreases |times|
  {
    if times == [] {
      assert WithRow(g, i, g[i].timeSlot) == g;
    } else {
      var reqs := Pairs(day, times);
      assert reqs[0] == Cell(day, times[0]);
      assert reqs[1..] == Pairs(day, times[1..]);
      var row := g[i].timeSlot;
      match IndexOf(TimeNames(row), times[0])
      case None =>
        assert Target(g, reqs[0]) == None;
        MarkTimesLift(g, i, day, times[1..], c, e);
      case Some(j) =>
        assert Target(g, reqs[0]) == Some(Pos(i, j));
        if !row[j].status {
          var row1 := row[j := Taken(row[j].time, c)];
          var g1 := WithRow(g, i, row1);
          assert g1 == SetCell(g, Pos(i, j), Taken(row[j].time, c));
          MarkTimesLift(g1, i, day, times[1..], c, e);
          assert forall r :: WithRow(g1, i, r) == WithRow(g, i, r);
        }
    }
  }

  lemma {:induction false} MarkMissingDay(g: Grid, day: string, times: seq<string>, c: Id, e: Error)
    requires IndexOf(DayNames(g), day) == None
    ensures Mark(g, Pairs(day, times), c, e) == Ok(g)
    decreases |times|
  {
    if times != [] {
      assert Pairs(day, times)[1..] == Pairs(day, times[1..]);
      MarkMissingDay(g, day, times[1..], c, e);
    }
  }

  lemma {:induction false} MarkAppend(g: Grid, a: seq<Cell>, b: seq<Cell>, c: Id, e: Error)
    ensures Mark(g, a + b, c, e) ==
      match Mark(g, a, c, e)
      case Err(x) => Err(x)
      case Ok(h) => Mark(h, b, c, e)
    decreases |a|
  {
    if a == [] {
      assert a + b == b;
    } else {
      assert (a + b)[0] == a[0] && (a + b)[1..] == a[1..] + b;
      match Target(g, a[0])
      case None => MarkAppend(g, a[1..], b, c, e);
      case Some(p) =>
        if !At(g, p).status {
          MarkAppend(SetCell(g, p, Taken(At(g, p).time, c)), a[1..], b, c, e);
        }
    }
  }

  /** The nested pass books exactly what request-by-request booking books. */
  lemma {:induction false} MarkDatesFlat(g: Grid, dts: seq<DateTime>, c: Id, e: Error)
    ensures MarkDates(g, dts, c, e) == Mark(g, Requests(dts), c, e)
    decreases |dts|
  {
    if dts != [] {
      var dt := dts[0];
      MarkAppend(g, Pairs(dt.day, dt.time), Requests(dts[1..]), c, e);
      match IndexOf(DayNames(g), dt.day)
      case None =>
        MarkMissingDay(g, dt.day, dt.time, c, e);
        MarkDatesFlat(g, dts[1..], c, e);
      case Some(i) =>
        MarkTimesLift(g, i, dt.day, dt.time, c, e);
        if MarkDay(g, dt, c, e).Ok? {
          MarkDatesFlat(MarkDay(g, dt, c, e).value, dts[1..], c, e);
        }
    }
  }

  /** The inner loop of the teacher and location passes: one bucket. */
  method MarkRow(row: seq<TimeSlot>, times: seq<string>, c: Id, e: Error) returns (r: Result<seq<TimeSlot>>)
    ensures r == MarkTimes(row, times, c, e)
  {
    var cur := row;
    var m := 0;
    while m < |times|
      invariant 0 <= m <= |times|
      invariant MarkTimes(row, times, c, e) == MarkTimes(cur, times[m..], c, e)
    {
      assert times[m..][0] == times[m] && times[m..][1..] == times[m + 1..];
      var j := Find(TimeNames(cur), times[m]);
      if j.Some? {
        if cur[j.value].status {
          return Err(e);
        }
        cur := cur[j.value := Taken(cur[j.value].time, c)];
      }
      m := m + 1;
    }
    return Ok(cur);
  }

  /** The outer loop of the teacher and location passes: one meeting pattern at a time. */
  method MarkLoop(g: Grid, dts: seq<DateTime>, c: Id, e: Error) returns (r: Result<Grid>)
    ensures r == MarkDates(g, dts, c, e)
  {
    var cur := g;
    var k := 0;
    while k < |dts|
      invariant 0 <= k <= |dts|
      invariant MarkDates(g, dts, c, e) == MarkDates(cur, dts[k..], c, e)
    {
      assert dts[k..][0] == dts[k] && dts[k..][1..] == dts[k + 1..];
      var found := Find(DayNames(cur), dts[k].day);
      if found.Some? {
        var row := MarkRow(cur[found.value].timeSlot, dts[k].time, c, e);
        if row.Err? {
          return Err(row.error);
        }
        cur := WithRow(cur, found.value, row.value);
      }
      k := k + 1;
    }
    return Ok(cur);
  }

  // ---------------------------------------------------------------------
  // Location release of course completion and term closing

  function ReleaseTimes(row: seq<TimeSlot>, times: seq<string>, c: Id): seq<TimeSlot>
    decreases |times|
  {
    if times == [] then row
    else match IndexOf(Keys(row), (times[0], Some(c)))
      case None => ReleaseTimes(row, times[1..], c)
      case Some(j) => ReleaseTimes(row[j := Free(row[j].time)], times[1..], c)
  }

  function ReleaseDay(g: Grid, dt: DateTime, c: Id): Grid
  {
    match IndexOf(DayNames(g), dt.day)
    case None => g
    case Some(i) => WithRow(g, i, ReleaseTimes(g[i].timeSlot, dt.time, c))
  }

  function ReleaseDates(g: Grid, dts: seq<DateTime>, c: Id): Grid
    decreases |dts|
  {
    if dts == [] then g else ReleaseDates(ReleaseDay(g, dts[0], c), dts[1..], c)
  }

  lemma {:induction false} ReleaseTimesLift(g: Grid, i: nat, day: string, times: seq<string>, c: Id)
    requires IndexOf(DayNames(g), day) == Some(i)
    ensures Release(g, Pairs(day, times), c) == WithRow(g, i, ReleaseTimes(g[i].timeSlot, times, c))
    decreases |times|
  {
    if times == [] {
      assert WithRow(g, i, g[i].timeSlot) == g;
    } else {
      assert Pairs(day, times)[1..] == Pairs(day, times[1..]);
      var row := g[i].timeSlot;
      match IndexOf(Keys(row), (times[0], Some(c)))
      case None =>
        ReleaseTimesLift(g, i, day, times[1..], c);
      case Some(j) =>
        var g1 := SetCell(g, Pos(i, j), Free(row[j].time));
        assert g1 == WithRow(g, i, row[j := Free(row[j].time)]);
        ReleaseTimesLift(g1, i, day, times[1..], c);
        assert forall r :: WithRow(g1, i, r) == WithRow(g, i, r);
    }
  }

  lemma {:induction false} ReleaseMissingDay(g: Grid, day: string, times: seq<string>, c: Id)
    requires IndexOf(DayNames(g), day) == None
    ensures Release(g, Pairs(day, times), c) == g
    decreases |times|
  {
    if times != [] {
      assert Pairs(day, times)[1..] == Pairs(day, times[1..]);
      ReleaseMissingDay(g, day, times[1..], c);
    }
  }

  lemma {:induction false} ReleaseAppend(g: Grid, a: seq<Cell>, b: seq<Cell>, c: Id)
    ensures Release(g, a + b, c) == Release(Release(g, a, c), b, c)
    decreases |a|
  {
    if a == [] {
      assert a + b == b;
    } else {
      assert (a + b)[0] == a[0] && (a + b)[1..] == a[1..] + b;
      match Held(g, a[0], c)
      case None => ReleaseAppend(g, a[1..], b, c);
      case Some(p) => ReleaseAppend(SetCell(g, p, Free(At(g, p).time)), a[1..], b, c);
    }
  }

  /** The nested release frees exactly what request-by-request release frees. */
  lemma {:induction false} ReleaseDatesFlat(g: Grid, dts: seq<DateTime>, c: Id)
    ensures ReleaseDates(g, dts, c) == Release(g, Requests(dts), c)
    decreases |dts|
  {
    if dts != [] {
      var dt := dts[0];
      ReleaseAppend(g, Pairs(dt.day, dt.time), Requests(dts[1..]), c);
      ReleaseDatesFlat(ReleaseDay(g, dt, c), dts[1..], c);
      match IndexOf(DayNames(g), dt.day)
      case None =>
        ReleaseMissingDay(g, dt.day, dt.time, c);
      case Some(i) =>
        ReleaseTimesLift(g, i, dt.day, dt.time, c);
    }
  }

  /** The inner loop of the release: one bucket. */
  method ReleaseRow(row: seq<TimeSlot>, times: seq<string>, c: Id) returns (r: seq<TimeSlot>)
    ensures r == ReleaseTimes(row, times, c)
  {
    r := row;
    var m := 0;
    while m < |times|
      invariant 0 <= m <= |times|
      invariant ReleaseTimes(row, times, c) == ReleaseTimes(r, times[m..], c)
    {
      assert times[m..][0] == times[m] && times[m..][1..] == times[m + 1..];
      var j := Find(Keys(r), (times[m], Some(c)));
      if j.Some? {
        r := r[j.value := Free(r[j.value].time)];
      }
      m := m + 1;
    }
  }

  /** The outer loop of the release: one meeting pattern at a time. */
  method ReleaseLoop(g: Grid, dts: seq<DateTime>, c: Id) returns (h: Grid)
    ensures h == ReleaseDates(g, dts, c)
  {
    h := g;
    var k := 0;
    while k < |dts|
      invariant 0 <= k <= |dts|
      invariant ReleaseDates(g, dts, c) == ReleaseDates(h, dts[k..], c)
    {
      assert dts[k..][0] == dts[k] && dts[k..][1..] == dts[k + 1..];
      var found := Find(DayNames(h), dts[k].day);
      if found.Some? {
        var row := ReleaseRow(h[found.value].timeSlot, dts[k].time, c);
        h := WithRow(h, found.value, row);
      }
      k := k + 1;
    }
  }

  // ---------------------------------------------------------------------
  // Class pass of course creation: validates the request while booking

  /** What the class pass yields for one bucket: the bucket and the trimmed times. */
  datatype RowOut = RowOut(row: seq<TimeSlot>, times: seq<string>)

  /**
   * A requested time as the class pass reads it: it is trimmed (and must
   * not be blank) inside the scan of the bucket, so over an empty bucket
   * it stays as sent.
   */
  function TimeField(row: seq<TimeSlot>, t: string): Result<string>
  {
    if row == [] then Ok(t) else CheckStringData(t, "time")
  }

  function PrependTimes(acc: seq<string>, r: Result<RowOut>): Result<RowOut>
  {
    match r
    case Err(x) => Err(x)
    case Ok(o) => Ok(RowOut(o.row, acc + o.times))
  }

  lemma PrependTimesAppend(acc: seq<string>, t: seq<string>, r: Result<RowOut>)
    ensures PrependTimes(acc, PrependTimes(t, r)) == PrependTimes(acc + t, r)
    ensures PrependTimes([], r) == r
  {
    if r.Ok? {
      assert acc + (t + r.value.times) == (acc + t) + r.value.times;
      assert [] + r.value.times == r.value.times;
    }
  }

  /**
   * The times of one meeting pattern against its class bucket. `check`
   * stays true until some time is found; a time that is not in the bucket
   * is an error only while it is true, and is skipped after.
   */
  function ClassTimes(row: seq<TimeSlot>, times: seq<string>, check: bool, c: Id): Result<RowOut>
    decreases |times|
  {
    if times == [] then Ok(RowOut(row, []))
    else
      var t :- TimeField(row, times[0]);
      match IndexOf(TimeNames(row), t)
      case None =>
        if check then Err(TimeInvalid(t))
        else PrependTimes([t], ClassTimes(row, times[1..], check, c))
      case Some(j) =>
        if row[j].status then Err(ClassSlotUsed)
        else PrependTimes([t], ClassTimes(row[j := Taken(row[j].time, c)], times[1..], false, c))
  }

  /** One meeting pattern against the class grid: the trimmed day must name a bucket. */
  function ClassDay(g: Grid, dt: DateTime, c: Id): Result<(Grid, DateTime)>
  {
    var day :- CheckStringData(dt.day, "day");
    match IndexOf(DayNames(g), day)
    case None => Err(DayInvalid(day))
    case Some(i) =>
      if dt.time == [] then Err(RequireParameter("time"))
      else
        var out :- ClassTimes(g[i].timeSlot, dt.time, true, c);
        Ok((WithRow(g, i, out.row), DateTime(day, out.times)))
  }

  function PrependDates(acc: seq<DateTime>, r: Result<(Grid, seq<DateTime>)>): Result<(Grid, seq<DateTime>)>
  {
    match r
    case Err(x) => Err(x)
    case Ok(o) => Ok((o.0, acc + o.1))
  }

  lemma PrependDatesAppend(acc: seq<DateTime>, d: seq<DateTime>, r: Result<(Grid, seq<DateTime>)>)
    ensures PrependDates(acc, PrependDates(d, r)) == PrependDates(acc + d, r)
    ensures PrependDates([], r) == r
  {
    if r.Ok? {
      assert acc + (d + r.value.1) == (acc + d) + r.value.1;
      assert [] + r.value.1 == r.value.1;
    }
  }

  /**
   * The class pass: yields the booked class grid and the request with its
   * days and times trimmed, which the teacher and location passes then use.
   */
  function ClassPass(g: Grid, dts: seq<DateTime>, c: Id): Result<(Grid, seq<DateTime>)>
    decreases |dts|
  {
    if dts == [] then Ok((g, []))
    else
      var first :- ClassDay(g, dts[0], c);
      PrependDates([first.1], ClassPass(first.0, dts[1..], c))
  }

  /**
   * What the class pass books in a bucket is what booking its trimmed
   * times books; every time is kept, trimmed when the bucket is not empty;
   * while `check` holds the first time names a cell of the bucket.
   */
  lemma {:induction false} ClassTimesMarks(row: seq<TimeSlot>, times: seq<string>, check: bool, c: Id)
    requires ClassTimes(row, times, check, c).Ok?
    ensures var out := ClassTimes(row, times, check, c).value;
      MarkTimes(row, out.times, c, ClassSlotUsed) == Ok(out.row) && |out.times| == |times|
    ensures var out := ClassTimes(row, times, check, c).value;
      forall k :: 0 <= k < |times| ==> TimeField(row, times[k]) == Ok(out.times[k])
    ensures var out := ClassTimes(row, times, check, c).value;
      check && times != [] ==> out.times[0] in TimeNames(row)
    decreases |times|
  {
    if times != [] {
      var t := TimeField(row, times[0]).value;
      var row1 := row;
      var check1 := check;
      if IndexOf(TimeNames(row), t).Some? {
        var j := IndexOf(TimeNames(row), t).value;
        row1 := row[j := Taken(row[j].time, c)];
        check1 := false;
      }
      ClassTimesMarks(row1, times[1..], check1, c);
      var rest := ClassTimes(row1, times[1..], check1, c).value;
      var out := ClassTimes(row, times, check, c).value;
      assert out.times == [t] + rest.times;
      assert out.times[1..] == rest.times;
      forall k | 0 <= k < |times| ensures TimeField(row, times[k]) == Ok(out.times[k]) {
        if k > 0 {
          assert times[k] == times[1..][k - 1];
        }
      }
    }
  }

  lemma {:induction false} ClassPassMarks(g: Grid, dts: seq<DateTime>, c: Id)
    requires ClassPass(g, dts, c).Ok?
    ensures var out := ClassPass(g, dts, c).value;
      MarkDates(g, out.1, c, ClassSlotUsed) == Ok(out.0) && |out.1| == |dts|
    decreases |dts|
  {
    if dts != [] {
      var first := ClassDay(g, dts[0], c).value;
      ClassPassMarks(first.0, dts[1..], c);
      var day := CheckStringData(dts[0].day, "day").value;
      var i := IndexOf(DayNames(g), day).value;
      ClassTimesMarks(g[i].timeSlot, dts[0].time, true, c);
      var out := ClassPass(g, dts, c).value;
      assert out.1[0] == first.1 && out.1[1..] == ClassPass(first.0, dts[1..], c).value.1;
    }
  }

  /**
   * After a successful class pass the `k`-th meeting pattern has a trimmed
   * day that names a bucket of the class grid, and as many times as were
   * requested, at least one.
   */
  lemma {:induction false} ClassPassDay(g: Grid, dts: seq<DateTime>, c: Id, k: nat)
    requires ClassPass(g, dts, c).Ok? && k < |dts|
    ensures var out := ClassPass(g, dts, c).value;
      k < |out.1| && CheckStringData(dts[k].day, "day") == Ok(out.1[k].day) &&
      out.1[k].day in DayNames(g) && 0 < |out.1[k].time| == |dts[k].time|
    decreases k
  {
    var first := ClassDay(g, dts[0], c).value;
    var rest := ClassPass(first.0, dts[1..], c).value;
    var out := ClassPass(g, dts, c).value;
    assert out.1 == [first.1] + rest.1;
    var day := CheckStringData(dts[0].day, "day").value;
    var i := IndexOf(DayNames(g), day).value;
    var row := ClassTimes(g[i].timeSlot, dts[0].time, true, c).value.row;
    assert first == (WithRow(g, i, row), out.1[0]);
    if k == 0 {
      ClassTimesMarks(g[i].timeSlot, dts[0].time, true, c);
    } else {
      ClassPassDay(first.0, dts[1..], c, k - 1);
      assert dts[k] == dts[1..][k - 1] && out.1[k] == rest.1[k - 1];
    }
  }

  /**
   * A successful class pass found every requested cell free and no cell
   * requested twice, and holds them all for the course.
   */
  lemma ClassPassFree(g: Grid, dts: seq<DateTime>, c: Id)
    requires ClassPass(g, dts, c).Ok?
    ensures var out := ClassPass(g, dts, c).value;
      AllFree(g, Requests(out.1)) && NoRepeat(g, Requests(out.1)) &&
      Mark(g, Requests(out.1), c, ClassSlotUsed) == Ok(out.0)
  {
    var out := ClassPass(g, dts, c).value;
    ClassPassMarks(g, dts, c);
    MarkDatesFlat(g, out.1, c, ClassSlotUsed);
    MarkOkIff(g, Requests(out.1), c, ClassSlotUsed);
  }

  /**
   * The scan of one class bucket for one requested time. The handler
   * trims the time again at every cell it visits; since a trimmed value
   * trims to itself (`CheckStringDataIdempotent`), trimming once before
   * the scan is the same.
   */
  method ClassCell(row: seq<TimeSlot>, t0: string) returns (r: Result<(string, Option<nat>)>)
    ensures r == (match TimeField(row, t0)
      case Err(x) => Err(x)
      case Ok(t) => Ok((t, IndexOf(TimeNames(row), t))))
  {
    var t := TimeField(row, t0);
    if t.Err? {
      return Err(t.error);
    }
    var j := Find(TimeNames(row), t.value);
    return Ok((t.value, j));
  }

  /** The loop over the times of one meeting pattern, with the `check` flag. */
  method ClassRow(row: seq<TimeSlot>, times: seq<string>, c: Id) returns (r: Result<RowOut>)
    ensures r == ClassTimes(row, times, true, c)
  {
    var cur := row;
    var check := true;
    var acc: seq<string> := [];
    var m := 0;
    PrependTimesAppend([], [], ClassTimes(row, times, true, c));
    while m < |times|
      invariant 0 <= m <= |times| && |cur| == |row|
      invariant ClassTimes(row, times, true, c) == PrependTimes(acc, ClassTimes(cur, times[m..], check, c))
    {
      assert times[m..][0] == times[m] && times[m..][1..] == times[m + 1..];
      var hit := ClassCell(cur, times[m]);
      if hit.Err? {
        return Err(hit.error);
      }
      var t := hit.value.0;
      if hit.value.1.Some? {
        var j := hit.value.1.value;
        if cur[j].status {
          return Err(ClassSlotUsed);
        }
        cur := cur[j := Taken(cur[j].time, c)];
        check := false;
      } else if check {
        return Err(TimeInvalid(t));
      }
      PrependTimesAppend(acc, [t], ClassTimes(cur, times[m + 1..], check, c));
      acc := acc + [t];
      m := m + 1;
    }
    assert acc + [] == acc;
    return Ok(RowOut(cur, acc));
  }

  /** One meeting pattern of the class pass: trims the day and finds its bucket. */
  method ClassEntry(g: Grid, dt: DateTime, c: Id) returns (r: Result<(Grid, DateTime)>)
    ensures r == ClassDay(g, dt, c)
  {
    var day := CheckStringData(dt.day, "day");
    if day.Err? {
      return Err(day.error);
    }
    var found := Find(DayNames(g), day.value);
    if found.None? {
      return Err(DayInvalid(day.value));
    }
    if dt.time == [] {
      return Err(RequireParameter("time"));
    }
    var out := ClassRow(g[found.value].timeSlot, dt.time, c);
    if out.Err? {
      return Err(out.error);
    }
    return Ok((WithRow(g, found.value, out.value.row), DateTime(day.value, out.value.times)));
  }

  /** One step of the class pass: the first pattern, then the rest on the grid it leaves. */
  lemma ClassPassStep(g: Grid, dts: seq<DateTime>, c: Id)
    requires dts != []
    ensures ClassDay(g, dts[0], c).Err? ==> ClassPass(g, dts, c) == Err(ClassDay(g, dts[0], c).error)
    ensures ClassDay(g, dts[0], c).Ok? ==>
      var first := ClassDay(g, dts[0], c).value;
      ClassPass(g, dts, c) == PrependDates([first.1], ClassPass(first.0, dts[1..], c))
  {
  }

  /** The class pass loop: one meeting pattern at a time, trimming as it goes. */
  method ClassLoop(g: Grid, dts: seq<DateTime>, c: Id) returns (r: Result<(Grid, seq<DateTime>)>)
    ensures r == ClassPass(g, dts, c)
  {
    var cur := g;
    var acc: seq<DateTime> := [];
    var k := 0;
    PrependDatesAppend([], [], ClassPass(g, dts, c));
    while k < |dts|
      invariant 0 <= k <= |dts|
      invariant ClassPass(g, dts, c) == PrependDates(acc, ClassPass(cur, dts[k..], c))
    {
      assert dts[k..][0] == dts[k] && dts[k..][1..] == dts[k + 1..];
      ClassPassStep(cur, dts[k..], c);
      var first := ClassEntry(cur, dts[k], c);
      if first.Err? {
        return Err(first.error);
      }
      PrependDatesAppend(acc, [first.value.1], ClassPass(first.value.0, dts[k + 1..], c));
      cur := first.value.0;
      acc := acc + [first.value.1];
      k := k + 1;
    }
    assert acc + [] == acc;
    return Ok((cur, acc));
  }
}
