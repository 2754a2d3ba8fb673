/**
 * The weekly slot grid that classes, teachers and locations each carry:
 * one bucket per weekday, one cell per bookable half hour, a cell either
 * free or held by exactly one course.
 */
module SlotGrid {
  import opened Common

  /** One half-hour cell: its time label, whether it is taken, and by which course. */
  datatype TimeSlot = TimeSlot(time: string, status: bool, courseId: Option<Id>)

  /** One weekday bucket. */
  datatype Slot = Slot(day: string, timeSlot: seq<TimeSlot>)

  type Grid = seq<Slot>

  /** A cell position: bucket index and cell index. */
  datatype Pos = Pos(i: nat, j: nat)

  const WeekDays: seq<string> := ["monday", "tuesday", "wednesday", "thursday", "friday"]

  /** The bookable half hours; 11:30 and 12:00 (the lunch break) are not among them. */
  const DayTimes: seq<string> :=
    ["08:30", "09:00", "09:30", "10:00", "10:30", "11:00",
     "12:30", "13:00", "13:30", "14:00", "14:30", "15:00", "15:30", "16:00"]

  function Free(time: string): TimeSlot
  {
    TimeSlot(time, false, None)
  }

  function Taken(time: string, c: Id): TimeSlot
  {
    TimeSlot(time, true, Some(c))
  }

  /** A cell is taken exactly when it names the course that holds it. */
  predicate CellOk(ts: TimeSlot)
  {
    ts.status <==> ts.courseId.Some?
  }

  predicate ValidPos(g: Grid, p: Pos)
  {
    p.i < |g| && p.j < |g[p.i].timeSlot|
  }

  function At(g: Grid, p: Pos): TimeSlot
    requires ValidPos(g, p)
  {
    g[p.i].timeSlot[p.j]
  }

  ghost predicate WellFormed(g: Grid)
  {
    forall p :: ValidPos(g, p) ==> CellOk(At(g, p))
  }

  /** `c` holds no cell of `g`. */
  ghost predicate NotHolding(g: Grid, c: Id)
  {
    forall p :: ValidPos(g, p) ==> At(g, p).courseId != Some(c)
  }

  function DayNames(g: Grid): (r: seq<string>)
    ensures |r| == |g| && forall i :: 0 <= i < |g| ==> r[i] == g[i].day
  {
    seq(|g|, i requires 0 <= i < |g| => g[i].day)
  }

  function TimeNames(row: seq<TimeSlot>): (r: seq<string>)
    ensures |r| == |row| && forall j :: 0 <= j < |row| ==> r[j] == row[j].time
  {
    seq(|row|, j requires 0 <= j < |row| => row[j].time)
  }

  /** Same buckets with the same time labels, whatever the cells hold. */
  predicate SameShape(g: Grid, h: Grid)
  {
    |g| == |h| && forall i :: 0 <= i < |g| ==> g[i].day == h[i].day && TimeNames(g[i].timeSlot) == TimeNames(h[i].timeSlot)
  }

  /**
   * The cell a handler finds for (`day`, `time`): the first bucket named
   * `day`, then the first cell of that bucket labelled `time`.
   */
  function Locate(g: Grid, day: string, time: string): (r: Option<Pos>)
    ensures r.Some? ==> ValidPos(g, r.value) && g[r.value.i].day == day && At(g, r.value).time == time
    ensures r.Some? ==> forall k :: 0 <= k < r.value.i ==> g[k].day != day
    ensures r.Some? ==> forall k :: 0 <= k < r.value.j ==> g[r.value.i].timeSlot[k].time != time
  {
    match IndexOf(DayNames(g), day)
    case None => None
    case Some(i) =>
      match IndexOf(TimeNames(g[i].timeSlot), time)
      case None => None
      case Some(j) => Some(Pos(i, j))
  }

  /** Locating depends only on the shape of the grid. */
  lemma LocateSameShape(g: Grid, h: Grid, day: string, time: string)
    requires SameShape(g, h)
    ensures Locate(g, day, time) == Locate(h, day, time)
  {
    assert DayNames(g) == DayNames(h);
    match IndexOf(DayNames(g), day)
    case None =>
    case Some(i) =>
      assert TimeNames(g[i].timeSlot) == TimeNames(h[i].timeSlot);
  }

  /** `g` with the cell at `p` replaced by `ts`. */
  function SetCell(g: Grid, p: Pos, ts: TimeSlot): (h: Grid)
    requires ValidPos(g, p)
    ensures |h| == |g| && ValidPos(h, p) && At(h, p) == ts
    ensures forall q :: ValidPos(g, q) ==> ValidPos(h, q) && At(h, q) == if q == p then ts else At(g, q)
    ensures forall q :: ValidPos(h, q) ==> ValidPos(g, q)
    ensures ts.time == At(g, p).time ==> SameShape(g, h)
  {
    var h := g[p.i := g[p.i].(timeSlot := g[p.i].timeSlot[p.j := ts])];
    assert ts.time == At(g, p).time ==> TimeNames(h[p.i].timeSlot) == TimeNames(g[p.i].timeSlot);
    h
  }

  lemma SameShapeTrans(f: Grid, g: Grid, h: Grid)
    requires SameShape(f, g) && SameShape(g, h)
    ensures SameShape(f, h)
  {
  }

  lemma SameShapePos(g: Grid, h: Grid, p: Pos)
    requires SameShape(g, h)
    ensures ValidPos(g, p) <==> ValidPos(h, p)
    ensures ValidPos(g, p) ==> At(g, p).time == At(h, p).time
  {
    if p.i < |g| {
      assert |TimeNames(g[p.i].timeSlot)| == |TimeNames(h[p.i].timeSlot)|;
      if p.j < |g[p.i].timeSlot| {
        assert TimeNames(g[p.i].timeSlot)[p.j] == TimeNames(h[p.i].timeSlot)[p.j];
      }
    }
  }

  /** The row of fourteen free cells that every new bucket starts with. */
  function FreeRow(): seq<TimeSlot>
  {
    seq(|DayTimes|, j requires 0 <= j < |DayTimes| => Free(DayTimes[j]))
  }

  /** The grid every class, teacher and location starts with. */
  function FreshGrid(): Grid
  {
    seq(|WeekDays|, i requires 0 <= i < |WeekDays| => Slot(WeekDays[i], FreeRow()))
  }

  /**
   * A fresh grid has the five weekday buckets in order, each with the
   * fourteen half hours in order, every cell free and unowned.
   */
  lemma FreshGridShape()
    ensures |FreshGrid()| == 5 && DayNames(FreshGrid()) == WeekDays
    ensures forall i :: 0 <= i < 5 ==> TimeNames(FreshGrid()[i].timeSlot) == DayTimes
    ensures forall p :: ValidPos(FreshGrid(), p) ==> p.j < |DayTimes| && At(FreshGrid(), p) == Free(DayTimes[p.j])
    ensures WellFormed(FreshGrid())
  {
    var g := FreshGrid();
    forall i | 0 <= i < 5 ensures TimeNames(g[i].timeSlot) == DayTimes {
      assert TimeNames(FreeRow()) == DayTimes;
    }
    forall p | ValidPos(g, p) ensures p.j < |DayTimes| && At(g, p) == Free(DayTimes[p.j]) {
      assert g[p.i].timeSlot == FreeRow();
    }
  }

  /** No course can be booked at 11:30 or 12:00: a fresh grid has no such cell. */
  lemma NoLunchSlot(day: string)
    ensures Locate(FreshGrid(), day, "11:30") == None
    ensures Locate(FreshGrid(), day, "12:00") == None
  {
    FreshGridShape();
    assert "11:30" !in DayTimes && "12:00" !in DayTimes;
    match IndexOf(DayNames(FreshGrid()), day)
    case None =>
    case Some(i) =>
      assert TimeNames(FreshGrid()[i].timeSlot) == DayTimes;
  }

  /** `createTimeSlot`: builds the fresh grid bucket by bucket, cell by cell. */
  method CreateTimeSlot() returns (g: Grid)
    ensures g == FreshGrid()
  {
    g := [];
    var d := 0;
    while d < |WeekDays|
      invariant 0 <= d <= |WeekDays|
      invariant g == FreshGrid()[..d]
    {
      var row: seq<TimeSlot> := [];
      var t := 0;
      while t < |DayTimes|
        invariant 0 <= t <= |DayTimes|
        invariant row == FreeRow()[..t]
      {
        row := row + [Free(DayTimes[t])];
        t := t + 1;
      }
      assert row == FreeRow();
      assert FreshGrid()[..d + 1] == FreshGrid()[..d] + [Slot(WeekDays[d], row)];
      g := g + [Slot(WeekDays[d], row)];
      d := d + 1;
    }
    assert FreshGrid()[..d] == FreshGrid();
  }
}
