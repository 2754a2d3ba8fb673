/**
 * Booking and releasing grid cells for a course.
 *
 * `Mark` is the meaning of the teacher and location passes of course
 * creation: requested cells are visited in order, a cell that does not
 * exist is skipped, a taken cell aborts the pass, a free one becomes held
 * by the course. `Release` is the location clean-up of course completion
 * and term closing: a requested cell is freed when this course holds it.
 */
module Booking {
  import opened Common
  import opened SlotGrid

  /** A requested meeting pattern: a weekday and the half hours on it. */
  datatype DateTime = DateTime(day: string, time: seq<string>)

  /** One requested cell. */
  datatype Cell = Cell(day: string, time: string)

  function Pairs(day: string, times: seq<string>): (r: seq<Cell>)
    ensures |r| == |times| && forall k :: 0 <= k < |times| ==> r[k] == Cell(day, times[k])
  {
    seq(|times|, k requires 0 <= k < |times| => Cell(day, times[k]))
  }

  /** All requested cells of a list of meeting patterns, in request order. */
  function Requests(dts: seq<DateTime>): seq<Cell>
  {
    if dts == [] then [] else Pairs(dts[0].day, dts[0].time) + Requests(dts[1..])
  }

  function Target(g: Grid, r: Cell): Option<Pos>
  {
    Locate(g, r.day, r.time)
  }

  // ---------------------------------------------------------------------
  // Booking, request by request

  /** Books `reqs` for course `c`; a taken cell aborts with `conflict`. */
  function Mark(g: Grid, reqs: seq<Cell>, c: Id, conflict: Error): Result<Grid>
    decreases |reqs|
  {
    if reqs == [] then Ok(g)
    else match Target(g, reqs[0])
      case None => Mark(g, reqs[1..], c, conflict)
      case Some(p) =>
        if At(g, p).status then Err(conflict)
        else Mark(SetCell(g, p, Taken(At(g, p).time, c)), reqs[1..], c, conflict)
  }

  /** Some request of `reqs` lands on cell `p`. */
  ghost predicate Targeted(g: Grid, reqs: seq<Cell>, p: Pos)
  {
    exists k :: 0 <= k < |reqs| && Target(g, reqs[k]) == Some(p)
  }

  /** Every cell the requests land on is free in `g`. */
  ghost predicate AllFree(g: Grid, reqs: seq<Cell>)
  {
    forall k :: 0 <= k < |reqs| && Target(g, reqs[k]).Some? ==> !At(g, Target(g, reqs[k]).value).status
  }

  /** No two requests land on the same cell. */
  ghost predicate NoRepeat(g: Grid, reqs: seq<Cell>)
  {
    forall k1, k2 :: 0 <= k1 < k2 < |reqs| && Target(g, reqs[k1]).Some? ==> Target(g, reqs[k1]) != Target(g, reqs[k2])
  }

  lemma TargetSameShape(g: Grid, h: Grid, r: Cell)
    requires SameShape(g, h)
    ensures Target(g, r) == Target(h, r)
  {
    LocateSameShape(g, h, r.day, r.time);
  }

  lemma TargetedCons(g: Grid, reqs: seq<Cell>, p: Pos)
    requires reqs != []
    ensures Targeted(g, reqs, p) <==> Target(g, reqs[0]) == Some(p) || Targeted(g, reqs[1..], p)
  {
    if Targeted(g, reqs[1..], p) {
      var k :| 0 <= k < |reqs[1..]| && Target(g, reqs[1..][k]) == Some(p);
      assert Target(g, reqs[k + 1]) == Some(p);
    }
    if Targeted(g, reqs, p) && Target(g, reqs[0]) != Some(p) {
      var k :| 0 <= k < |reqs| && Target(g, reqs[k]) == Some(p);
      assert Target(g, reqs[1..][k - 1]) == Some(p);
    }
  }

  lemma TargetedSameShape(g: Grid, h: Grid, reqs: seq<Cell>, p: Pos)
    requires SameShape(g, h)
    ensures Targeted(g, reqs, p) <==> Targeted(h, reqs, p)
  {
    forall k | 0 <= k < |reqs| ensures Target(g, reqs[k]) == Target(h, reqs[k]) {
      TargetSameShape(g, h, reqs[k]);
    }
  }

  lemma NoRepeatCons(g: Grid, reqs: seq<Cell>)
    requires reqs != []
    ensures NoRepeat(g, reqs) <==>
      NoRepeat(g, reqs[1..]) && (Target(g, reqs[0]).Some? ==> !Targeted(g, reqs[1..], Target(g, reqs[0]).value))
  {
    var rest := reqs[1..];
    if NoRepeat(g, reqs) {
      forall k1, k2 | 0 <= k1 < k2 < |rest| && Target(g, rest[k1]).Some?
        ensures Target(g, rest[k1]) != Target(g, rest[k2])
      {
        assert rest[k1] == reqs[k1 + 1] && rest[k2] == reqs[k2 + 1];
      }
      forall k | 0 <= k < |rest| && Target(g, reqs[0]).Some? ensures Target(g, rest[k]) != Target(g, reqs[0]) {
        assert rest[k] == reqs[k + 1];
      }
    }
    if NoRepeat(g, rest) && (Target(g, reqs[0]).Some? ==> !Targeted(g, rest, Target(g, reqs[0]).value)) {
      forall k1, k2 | 0 <= k1 < k2 < |reqs| && Target(g, reqs[k1]).Some?
        ensures Target(g, reqs[k1]) != Target(g, reqs[k2])
      {
        assert reqs[k2] == rest[k2 - 1];
        if k1 > 0 {
          assert reqs[k1] == rest[k1 - 1];
        }
      }
    }
  }

  lemma NoRepeatSameShape(g: Grid, h: Grid, reqs: seq<Cell>)
    requires SameShape(g, h)
    ensures NoRepeat(g, reqs) <==> NoRepeat(h, reqs)
  {
    forall k | 0 <= k < |reqs| ensures Target(g, reqs[k]) == Target(h, reqs[k]) {
      TargetSameShape(g, h, reqs[k]);
    }
  }

  lemma AllFreeCons(g: Grid, reqs: seq<Cell>)
    requires reqs != []
    ensures AllFree(g, reqs) <==>
      AllFree(g, reqs[1..]) && (Target(g, reqs[0]).Some? ==> !At(g, Target(g, reqs[0]).value).status)
  {
    var rest := reqs[1..];
    if AllFree(g, reqs) {
      forall k | 0 <= k < |rest| && Target(g, rest[k]).Some? ensures !At(g, Target(g, rest[k]).value).status {
        assert rest[k] == reqs[k + 1];
      }
    }
    if AllFree(g, rest) {
      forall k | 0 < k < |reqs| && Target(g, reqs[k]).Some? ensures !At(g, Target(g, reqs[k]).value).status {
        assert reqs[k] == rest[k - 1];
      }
    }
  }

  /** After taking cell `p`, the remaining requests find free cells exactly when they avoid `p`. */
  lemma AllFreeAfterTake(g: Grid, p: Pos, c: Id, rest: seq<Cell>)
    requires ValidPos(g, p)
    ensures var g1 := SetCell(g, p, Taken(At(g, p).time, c));
      AllFree(g1, rest) <==> AllFree(g, rest) && !Targeted(g, rest, p)
  {
    var g1 := SetCell(g, p, Taken(At(g, p).time, c));
    forall k | 0 <= k < |rest| ensures Target(g1, rest[k]) == Target(g, rest[k]) {
      TargetSameShape(g, g1, rest[k]);
    }
    forall k | 0 <= k < |rest| && Target(g, rest[k]) == Some(p) ensures !AllFree(g1, rest) {
      assert Target(g1, rest[k]) == Some(p);
    }
  }

  /** The shape of a grid does not change when cells are booked. */
  lemma {:induction false} MarkShape(g: Grid, reqs: seq<Cell>, c: Id, e: Error)
    ensures Mark(g, reqs, c, e).Ok? ==> SameShape(g, Mark(g, reqs, c, e).value)
    ensures Mark(g, reqs, c, e).Err? ==> Mark(g, reqs, c, e).error == e
    decreases |reqs|
  {
    if reqs != [] {
      match Target(g, reqs[0])
      case None => MarkShape(g, reqs[1..], c, e);
      case Some(p) =>
        if !At(g, p).status {
          var g1 := SetCell(g, p, Taken(At(g, p).time, c));
          MarkShape(g1, reqs[1..], c, e);
          if Mark(g, reqs, c, e).Ok? {
            SameShapeTrans(g, g1, Mark(g, reqs, c, e).value);
          }
        }
    }
  }

  /**
   * Booking succeeds exactly when every requested cell that exists is
   * free and no two requests land on the same cell.
   */
  lemma {:induction false} MarkOkIff(g: Grid, reqs: seq<Cell>, c: Id, e: Error)
    ensures Mark(g, reqs, c, e).Ok? <==> AllFree(g, reqs) && NoRepeat(g, reqs)
    decreases |reqs|
  {
    if reqs != [] {
      var rest := reqs[1..];
      AllFreeCons(g, reqs);
      NoRepeatCons(g, reqs);
      match Target(g, reqs[0])
      case None => MarkOkIff(g, rest, c, e);
      case Some(p) =>
        if !At(g, p).status {
          var g1 := SetCell(g, p, Taken(At(g, p).time, c));
          MarkOkIff(g1, rest, c, e);
          AllFreeAfterTake(g, p, c, rest);
          NoRepeatSameShape(g, g1, rest);
        }
    }
  }

  /**
   * A successful booking holds every requested cell for `c` and leaves
   * every other cell as it was.
   */
  lemma {:induction false} MarkEffect(g: Grid, reqs: seq<Cell>, c: Id, e: Error, p: Pos)
    requires Mark(g, reqs, c, e).Ok? && ValidPos(g, p)
    ensures ValidPos(Mark(g, reqs, c, e).value, p)
    ensures At(Mark(g, reqs, c, e).value, p) ==
      if Targeted(g, reqs, p) then Taken(At(g, p).time, c) else At(g, p)
    decreases |reqs|
  {
    var h := Mark(g, reqs, c, e).value;
    MarkShape(g, reqs, c, e);
    SameShapePos(g, h, p);
    if reqs != [] {
      var rest := reqs[1..];
      TargetedCons(g, reqs, p);
      match Target(g, reqs[0])
      case None => MarkEffect(g, rest, c, e, p);
      case Some(p0) =>
        var g1 := SetCell(g, p0, Taken(At(g, p0).time, c));
        MarkEffect(g1, rest, c, e, p);
        TargetedSameShape(g, g1, rest, p);
    }
  }

  /** Booking keeps every cell consistent: taken exactly when owned. */
  lemma MarkWellFormed(g: Grid, reqs: seq<Cell>, c: Id, e: Error)
    requires WellFormed(g) && Mark(g, reqs, c, e).Ok?
    ensures WellFormed(Mark(g, reqs, c, e).value)
  {
    var h := Mark(g, reqs, c, e).value;
    MarkShape(g, reqs, c, e);
    forall p | ValidPos(h, p) ensures CellOk(At(h, p)) {
      SameShapePos(g, h, p);
      MarkEffect(g, reqs, c, e, p);
    }
  }

  // ---------------------------------------------------------------------
  // Releasing

  function Keys(row: seq<TimeSlot>): (r: seq<(string, Option<Id>)>)
    ensures |r| == |row| && forall j :: 0 <= j < |row| ==> r[j] == (row[j].time, row[j].courseId)
  {
    seq(|row|, j requires 0 <= j < |row| => (row[j].time, row[j].courseId))
  }

  /**
   * The cell a release frees for request `r`: in the first bucket named
   * `r.day`, the first cell labelled `r.time` that course `c` holds.
   */
  function Held(g: Grid, r: Cell, c: Id): (p: Option<Pos>)
    ensures p.Some? ==> ValidPos(g, p.value) && At(g, p.value).time == r.time && At(g, p.value).courseId == Some(c)
  {
    match IndexOf(DayNames(g), r.day)
    case None => None
    case Some(i) =>
      match IndexOf(Keys(g[i].timeSlot), (r.time, Some(c)))
      case None => None
      case Some(j) => Some(Pos(i, j))
  }

  /** Frees, request by request, the cells course `c` holds. */
  function Release(g: Grid, reqs: seq<Cell>, c: Id): Grid
    decreases |reqs|
  {
    if reqs == [] then g
    else match Held(g, reqs[0], c)
      case None => Release(g, reqs[1..], c)
      case Some(p) => Release(SetCell(g, p, Free(At(g, p).time)), reqs[1..], c)
  }

  /**
   * Releasing never touches a cell another course holds or a free cell,
   * never changes the shape, and keeps cells consistent.
   */
  lemma {:induction false} ReleaseOnlyOwn(g: Grid, reqs: seq<Cell>, c: Id)
    ensures SameShape(g, Release(g, reqs, c))
    ensures forall p :: ValidPos(g, p) && At(g, p).courseId != Some(c) ==>
      ValidPos(Release(g, reqs, c), p) && At(Release(g, reqs, c), p) == At(g, p)
    ensures WellFormed(g) ==> WellFormed(Release(g, reqs, c))
    decreases |reqs|
  {
    if reqs != [] {
      match Held(g, reqs[0], c)
      case None => ReleaseOnlyOwn(g, reqs[1..], c);
      case Some(p) =>
        var g1 := SetCell(g, p, Free(At(g, p).time));
        ReleaseOnlyOwn(g1, reqs[1..], c);
        SameShapeTrans(g, g1, Release(g1, reqs[1..], c));
    }
  }

  /** Two grids of the same shape with the same cells are equal. */
  lemma GridExt(g: Grid, h: Grid)
    requires SameShape(g, h)
    requires forall p :: ValidPos(g, p) ==> At(g, p) == At(h, p)
    ensures g == h
  {
    forall i | 0 <= i < |g| ensures g[i] == h[i] {
      assert |TimeNames(g[i].timeSlot)| == |TimeNames(h[i].timeSlot)|;
      forall j | 0 <= j < |g[i].timeSlot| ensures g[i].timeSlot[j] == h[i].timeSlot[j] {
        assert At(g, Pos(i, j)) == At(h, Pos(i, j));
      }
    }
  }

  /** For a requested cell that `c` holds, the release finds exactly that cell. */
  lemma HeldFindsTarget(g: Grid, cur: Grid, r: Cell, c: Id, p: Pos)
    requires SameShape(g, cur) && Target(g, r) == Some(p)
    requires ValidPos(cur, p) && At(cur, p).courseId == Some(c)
    ensures Held(cur, r, c) == Some(p)
  {
    TargetSameShape(g, cur, r);
    assert DayNames(cur)[p.i] == r.day;
    var row := cur[p.i].timeSlot;
    assert Keys(row)[p.j] == (r.time, Some(c));
    var j := IndexOf(Keys(row), (r.time, Some(c))).value;
    assert Keys(row)[j] == (r.time, Some(c));
    assert row[j].time == r.time;
    assert TimeNames(row) == TimeNames(g[p.i].timeSlot);
  }

  /** Where the requests land nowhere, the release finds nothing either. */
  lemma HeldNoTarget(g: Grid, cur: Grid, r: Cell, c: Id)
    requires SameShape(g, cur) && Target(g, r) == None
    ensures Held(cur, r, c) == None
  {
    TargetSameShape(g, cur, r);
    match IndexOf(DayNames(cur), r.day)
    case None =>
    case Some(i) =>
      var row := cur[i].timeSlot;
      assert IndexOf(TimeNames(row), r.time) == None;
      forall j | 0 <= j < |row| ensures Keys(row)[j] != (r.time, Some(c)) {
        assert TimeNames(row)[j] == row[j].time;
      }
  }

  lemma {:induction false} ReleaseRestores(g: Grid, cur: Grid, reqs: seq<Cell>, c: Id)
    requires WellFormed(g) && NotHolding(g, c) && SameShape(g, cur)
    requires AllFree(g, reqs) && NoRepeat(g, reqs)
    requires forall p :: ValidPos(g, p) ==>
      At(cur, p) == if Targeted(g, reqs, p) then Taken(At(g, p).time, c) else At(g, p)
    ensures Release(cur, reqs, c) == g
    decreases |reqs|
  {
    if reqs == [] {
      GridExt(g, cur);
    } else {
      var rest := reqs[1..];
      AllFreeCons(g, reqs);
      NoRepeatCons(g, reqs);
      forall p | ValidPos(g, p) ensures Targeted(g, reqs, p) <==> Target(g, reqs[0]) == Some(p) || Targeted(g, rest, p) {
        TargetedCons(g, reqs, p);
      }
      match Target(g, reqs[0])
      case None =>
        HeldNoTarget(g, cur, reqs[0], c);
        ReleaseRestores(g, cur, rest, c);
      case Some(p0) =>
        SameShapePos(g, cur, p0);
        assert Targeted(g, reqs, p0);
        HeldFindsTarget(g, cur, reqs[0], c, p0);
        var cur1 := SetCell(cur, p0, Free(At(cur, p0).time));
        assert At(g, p0) == Free(At(cur, p0).time);
        forall p | ValidPos(g, p) ensures
          At(cur1, p) == if Targeted(g, rest, p) then Taken(At(g, p).time, c) else At(g, p)
        {
          SameShapePos(g, cur, p);
        }
        SameShapeTrans(g, cur, cur1);
        ReleaseRestores(g, cur1, rest, c);
    }
  }

  /**
   * Round trip: on a consistent grid where `c` holds nothing, releasing
   * the cells a successful booking took gives back the original grid.
   */
  lemma ReleaseUndoesMark(g: Grid, reqs: seq<Cell>, c: Id, e: Error)
    requires WellFormed(g) && NotHolding(g, c) && Mark(g, reqs, c, e).Ok?
    ensures Release(Mark(g, reqs, c, e).value, reqs, c) == g
  {
    var h := Mark(g, reqs, c, e).value;
    MarkShape(g, reqs, c, e);
    MarkOkIff(g, reqs, c, e);
    forall p | ValidPos(g, p) ensures At(h, p) == if Targeted(g, reqs, p) then Taken(At(g, p).time, c) else At(g, p) {
      MarkEffect(g, reqs, c, e, p);
    }
    ReleaseRestores(g, h, reqs, c);
  }
}
