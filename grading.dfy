/**
 * Course summary arithmetic: per-type score sums, work normalisation,
 * the grade ladder and the attendance tally, one student at a time.
 * Scores are exact reals; Go's float64 rounding is not modelled.
 */
module Grading {
  import opened Common
  import opened Records

  // ---------------------------------------------------------------- scores

  /** The three component types a score item may have. */
  predicate ValidKind(kind: string)
  {
    kind == "work" || kind == "midterm" || kind == "final"
  }

  predicate KindsValid(scores: seq<Score>)
  {
    forall i :: 0 <= i < |scores| ==> ValidKind(scores[i].kind)
  }

  /** The first entry of `info` that belongs to `sid`. */
  function FirstScore(info: seq<ScoreEntry>, sid: string): (r: Option<ScoreEntry>)
    ensures r.Some? ==> r.value in info && r.value.studentId == sid
    ensures r.None? <==> forall i :: 0 <= i < |info| ==> info[i].studentId != sid
  {
    if info == [] then None
    else if info[0].studentId == sid then Some(info[0])
    else FirstScore(info[1..], sid)
  }

  /** What `sid` got on one item: the first entry's score, an ungraded or missing entry counting 0. */
  function EntryGet(info: seq<ScoreEntry>, sid: string): real
  {
    match FirstScore(info, sid)
    case Some(ScoreEntry(_, Some(v), _)) => v
    case _ => 0.0
  }

  /** Full marks of all items of `kind` (reference sum). */
  function FullOf(scores: seq<Score>, kind: string): real
  {
    if scores == [] then 0.0
    else (if scores[0].kind == kind then scores[0].scoreFull else 0.0) + FullOf(scores[1..], kind)
  }

  /** What `sid` got on all items of `kind` (reference sum). */
  function GetOf(scores: seq<Score>, kind: string, sid: string): real
  {
    if scores == [] then 0.0
    else (if scores[0].kind == kind then EntryGet(scores[0].info, sid) else 0.0) + GetOf(scores[1..], kind, sid)
  }

  /** The six running sums of the summary loop. */
  datatype Sums = Sums(workGet: real, workFull: real, midGet: real, midFull: real, finalGet: real, finalFull: real)

  const NoSums := Sums(0.0, 0.0, 0.0, 0.0, 0.0, 0.0)

  /** One step of the loop over score items; an item of unknown type aborts. */
  function AddScore(acc: Sums, s: Score, sid: string): Result<Sums>
  {
    if s.kind == "work" then Ok(acc.(workFull := acc.workFull + s.scoreFull, workGet := acc.workGet + EntryGet(s.info, sid)))
    else if s.kind == "midterm" then Ok(acc.(midFull := acc.midFull + s.scoreFull, midGet := acc.midGet + EntryGet(s.info, sid)))
    else if s.kind == "final" then Ok(acc.(finalFull := acc.finalFull + s.scoreFull, finalGet := acc.finalGet + EntryGet(s.info, sid)))
    else Err(TypeInvalid)
  }

  /** The loop over score items, continuing from `acc`. */
  function SumFrom(acc: Sums, scores: seq<Score>, sid: string): Result<Sums>
    decreases |scores|
  {
    if scores == [] then Ok(acc)
    else
      var a :- AddScore(acc, scores[0], sid);
      SumFrom(a, scores[1..], sid)
  }

  /** `acc` plus the reference sums of `scores`. */
  function Plus(acc: Sums, scores: seq<Score>, sid: string): Sums
  {
    Sums(acc.workGet + GetOf(scores, "work", sid), acc.workFull + FullOf(scores, "work"),
         acc.midGet + GetOf(scores, "midterm", sid), acc.midFull + FullOf(scores, "midterm"),
         acc.finalGet + GetOf(scores, "final", sid), acc.finalFull + FullOf(scores, "final"))
  }

  /**
   * The summary loop fails exactly when some item has an unknown type, and
   * otherwise yields the per-type sums of full marks and of the student's
   * gets.
   */
  lemma {:induction false} SumFromValue(acc: Sums, scores: seq<Score>, sid: string)
    ensures SumFrom(acc, scores, sid).Ok? <==> KindsValid(scores)
    ensures SumFrom(acc, scores, sid).Ok? ==> SumFrom(acc, scores, sid).value == Plus(acc, scores, sid)
    ensures SumFrom(acc, scores, sid).Err? ==> SumFrom(acc, scores, sid).error == TypeInvalid
    decreases |scores|
  {
    if scores != [] {
      var s := scores[0];
      assert forall i :: 1 <= i < |scores| ==> scores[1..][i - 1] == scores[i];
      if ValidKind(s.kind) {
        var a := AddScore(acc, s, sid).value;
        SumFromValue(a, scores[1..], sid);
        assert KindsValid(scores) <==> KindsValid(scores[1..]);
      } else {
        assert !KindsValid(scores);
      }
    }
  }

  /** Every graded entry lies between 0 and its item's full marks. */
  predicate GetsInRange(scores: seq<Score>)
  {
    forall i, j :: 0 <= i < |scores| && 0 <= j < |scores[i].info| && scores[i].info[j].scoreGet.Some? ==>
      0.0 <= scores[i].info[j].scoreGet.value <= scores[i].scoreFull
  }

  /** With entries in range, a student never gets more than the full marks of a type. */
  lemma {:induction false} GetWithinFull(scores: seq<Score>, kind: string, sid: string)
    requires GetsInRange(scores)
    requires forall i :: 0 <= i < |scores| ==> 0.0 <= scores[i].scoreFull
    ensures 0.0 <= GetOf(scores, kind, sid) <= FullOf(scores, kind)
    decreases |scores|
  {
    if scores != [] {
      var s := scores[0];
      assert GetsInRange(scores[1..]) by {
        forall i, j | 0 <= i < |scores[1..]| && 0 <= j < |scores[1..][i].info| && scores[1..][i].info[j].scoreGet.Some?
          ensures 0.0 <= scores[1..][i].info[j].scoreGet.value <= scores[1..][i].scoreFull
        {
          assert scores[1..][i] == scores[i + 1];
        }
      }
      GetWithinFull(scores[1..], kind, sid);
      match FirstScore(s.info, sid)
      case None =>
      case Some(e) =>
        var j :| 0 <= j < |s.info| && s.info[j] == e;
        assert e.scoreGet.Some? ==> 0.0 <= e.scoreGet.value <= s.scoreFull;
    }
  }

  /** The inner loop over a score item's entries. */
  method EntryGetLoop(info: seq<ScoreEntry>, sid: string) returns (r: real)
    ensures r == EntryGet(info, sid)
  {
    var k := 0;
    while k < |info|
      invariant 0 <= k <= |info|
      invariant FirstScore(info, sid) == FirstScore(info[k..], sid)
    {
      assert info[k..][0] == info[k] && info[k..][1..] == info[k + 1..];
      if info[k].studentId == sid {
        return if info[k].scoreGet.Some? then info[k].scoreGet.value else 0.0;
      }
      k := k + 1;
    }
    return 0.0;
  }

  /** The loop over a course's score items for one student. */
  method SumLoop(scores: seq<Score>, sid: string) returns (r: Result<Sums>)
    ensures r == SumFrom(NoSums, scores, sid)
  {
    var acc := NoSums;
    var k := 0;
    while k < |scores|
      invariant 0 <= k <= |scores|
      invariant SumFrom(NoSums, scores, sid) == SumFrom(acc, scores[k..], sid)
    {
      assert scores[k..][0] == scores[k] && scores[k..][1..] == scores[k + 1..];
      var s := scores[k];
      var got := EntryGetLoop(s.info, sid);
      if s.kind == "work" {
        acc := acc.(workFull := acc.workFull + s.scoreFull, workGet := acc.workGet + got);
      } else if s.kind == "midterm" {
        acc := acc.(midFull := acc.midFull + s.scoreFull, midGet := acc.midGet + got);
      } else if s.kind == "final" {
        acc := acc.(finalFull := acc.finalFull + s.scoreFull, finalGet := acc.finalGet + got);
      } else {
        return Err(TypeInvalid);
      }
      k := k + 1;
    }
    return Ok(acc);
  }

  // ------------------------------------------------------ work normalisation

  /**
   * The work score as the summary computes it: the raw work gets scaled
   * to `workFull` (what the midterm and final leave of 100). With no work
   * marks to scale the division is 0/0, a NaN, shown here as `None`.
   */
  function WorkAsWritten(rawGet: real, rawFull: real, workFull: real): (r: Option<real>)
    ensures r.None? <==> rawFull == 0.0
    ensures r.Some? && 0.0 <= rawGet <= rawFull && 0.0 <= workFull ==> 0.0 <= r.value <= workFull
  {
    if rawFull == 0.0 then None
    else
      ScaleBounded(rawGet, rawFull, workFull);
      Some(workFull * rawGet / rawFull)
  }

  /** The work score with the empty case made explicit: no work marks, no work score. */
  function WorkScore(rawGet: real, rawFull: real, workFull: real): (r: real)
    ensures 0.0 <= rawGet <= rawFull && 0.0 <= workFull ==> 0.0 <= r <= workFull
    ensures rawFull != 0.0 ==> WorkAsWritten(rawGet, rawFull, workFull) == Some(r)
    ensures rawFull == 0.0 ==> r == 0.0
  {
    if rawFull == 0.0 then 0.0
    else
      ScaleBounded(rawGet, rawFull, workFull);
      workFull * rawGet / rawFull
  }

  lemma ScaleBounded(rawGet: real, rawFull: real, workFull: real)
    requires rawFull != 0.0
    ensures 0.0 <= rawGet <= rawFull && 0.0 <= workFull ==> 0.0 <= workFull * rawGet / rawFull <= workFull
  {
    if 0.0 <= rawGet <= rawFull && 0.0 <= workFull {
      assert rawGet / rawFull <= 1.0;
      assert workFull * rawGet / rawFull == workFull * (rawGet / rawFull);
      assert workFull * (rawGet / rawFull) <= workFull * 1.0;
    }
  }

  // ------------------------------------------------------------ grade ladder

  /** The grade point of a total score, lower bounds inclusive. */
  function GradePoint(total: real): real
  {
    if total >= 80.0 then 4.0
    else if total >= 75.0 then 3.5
    else if total >= 70.0 then 3.0
    else if total >= 65.0 then 2.5
    else if total >= 60.0 then 2.0
    else if total >= 55.0 then 1.5
    else if total >= 50.0 then 1.0
    else 0.0
  }

  /** The ladder as data: (lowest total, grade point), best rung first. */
  const Ladder: seq<(real, real)> :=
    [(80.0, 4.0), (75.0, 3.5), (70.0, 3.0), (65.0, 2.5), (60.0, 2.0), (55.0, 1.5), (50.0, 1.0)]

  /** Reference reading of a ladder: the grade of the first rung the total reaches, else 0. */
  function Climb(total: real, rungs: seq<(real, real)>): real
  {
    if rungs == [] then 0.0
    else if total >= rungs[0].0 then rungs[0].1
    else Climb(total, rungs[1..])
  }

  /**
   * The ladder is a descending staircase: bounds and grades both strictly
   * decrease, and every grade is above 0.
   */
  predicate Staircase(rungs: seq<(real, real)>)
  {
    (forall i :: 0 <= i < |rungs| ==> 0.0 < rungs[i].1)
    && forall i, j :: 0 <= i < j < |rungs| ==> rungs[j].0 < rungs[i].0 && rungs[j].1 < rungs[i].1
  }

  lemma StaircaseTail(rungs: seq<(real, real)>)
    requires Staircase(rungs) && rungs != []
    ensures Staircase(rungs[1..])
  {
    forall i, j | 0 <= i < j < |rungs[1..]| ensures rungs[1..][j].0 < rungs[1..][i].0 && rungs[1..][j].1 < rungs[1..][i].1 {
      assert rungs[1..][i] == rungs[i + 1] && rungs[1..][j] == rungs[j + 1];
    }
  }

  /** The if-chain of the summary is the ladder read top down. */
  lemma GradePointClimb(total: real)
    ensures GradePoint(total) == Climb(total, Ladder)
  {
    var L := Ladder;
    assert L[7..] == [];
    assert L[6..][1..] == L[7..] && L[6..][0] == (50.0, 1.0);
    assert L[5..][1..] == L[6..] && L[5..][0] == (55.0, 1.5);
    assert L[4..][1..] == L[5..] && L[4..][0] == (60.0, 2.0);
    assert L[3..][1..] == L[4..] && L[3..][0] == (65.0, 2.5);
    assert L[2..][1..] == L[3..] && L[2..][0] == (70.0, 3.0);
    assert L[1..][1..] == L[2..] && L[1..][0] == (75.0, 3.5);
    assert Climb(total, L[6..]) == if total >= 50.0 then 1.0 else 0.0;
    assert Climb(total, L[5..]) == if total >= 55.0 then 1.5 else Climb(total, L[6..]);
    assert Climb(total, L[4..]) == if total >= 60.0 then 2.0 else Climb(total, L[5..]);
    assert Climb(total, L[3..]) == if total >= 65.0 then 2.5 else Climb(total, L[4..]);
    assert Climb(total, L[2..]) == if total >= 70.0 then 3.0 else Climb(total, L[3..]);
    assert Climb(total, L[1..]) == if total >= 75.0 then 3.5 else Climb(total, L[2..]);
  }

  /** On a staircase, whatever the rest of the ladder gives stays below the top grade. */
  lemma {:induction false} ClimbTailBelow(total: real, rungs: seq<(real, real)>)
    requires Staircase(rungs) && rungs != []
    ensures Climb(total, rungs[1..]) < rungs[0].1
    decreases |rungs|
  {
    var tail := rungs[1..];
    if tail != [] {
      StaircaseTail(rungs);
      ClimbTailBelow(total, tail);
      assert tail[0] == rungs[1] && tail[1..] == rungs[2..];
    }
  }

  /** On a staircase, reaching a rung's bound earns at least its grade, and missing it earns less. */
  lemma {:induction false} ClimbRung(total: real, rungs: seq<(real, real)>, k: nat)
    requires Staircase(rungs) && k < |rungs|
    ensures total >= rungs[k].0 ==> Climb(total, rungs) >= rungs[k].1
    ensures total < rungs[k].0 ==> Climb(total, rungs) < rungs[k].1
    decreases k
  {
    if k == 0 {
      ClimbTailBelow(total, rungs);
    } else {
      StaircaseTail(rungs);
      assert rungs[1..][k - 1] == rungs[k];
      ClimbRung(total, rungs[1..], k - 1);
      assert rungs[k].0 < rungs[0].0 && rungs[k].1 < rungs[0].1;
    }
  }

  /** A staircase ladder is monotone in the total. */
  lemma {:induction false} ClimbMonotone(a: real, b: real, rungs: seq<(real, real)>)
    requires Staircase(rungs) && a <= b
    ensures Climb(a, rungs) <= Climb(b, rungs)
    decreases |rungs|
  {
    if rungs != [] {
      if a >= rungs[0].0 {
      } else if b >= rungs[0].0 {
        ClimbTailBelow(a, rungs);
      } else {
        StaircaseTail(rungs);
        ClimbMonotone(a, b, rungs[1..]);
      }
    }
  }

  /** The summary's ladder is a staircase. */
  lemma LadderIsStaircase()
    ensures Staircase(Ladder)
  {
    var L := Ladder;
    forall k | 0 <= k < |L|
      ensures L[k].0 == 80.0 - 5.0 * k as real && L[k].1 == 4.0 - 0.5 * k as real
    {
    }
  }

  /** More points never mean a lower grade. */
  lemma GradeMonotone(a: real, b: real)
    requires a <= b
    ensures GradePoint(a) <= GradePoint(b)
  {
    LadderIsStaircase();
    GradePointClimb(a);
    GradePointClimb(b);
    ClimbMonotone(a, b, Ladder);
  }

  /** Each rung's bound is inclusive: exactly that total earns exactly that grade, a total below it less. */
  lemma GradeAtBound(k: nat, t: real)
    requires k < |Ladder|
    ensures GradePoint(Ladder[k].0) == Ladder[k].1
    ensures t < Ladder[k].0 ==> GradePoint(t) < Ladder[k].1
  {
    LadderIsStaircase();
    GradePointClimb(Ladder[k].0);
    GradePointClimb(t);
    ClimbRung(t, Ladder, k);
  }

  // -------------------------------------------------------------- attendance

  /** Attendance counts of one student: records seen, attended, absent, late. */
  datatype Counts = Counts(all: int, attend: int, absent: int, late: int)

  const NoCounts := Counts(0, 0, 0, 0)

  /**
   * The first entry of a roll call that belongs to `sid`: the roll-call
   * twin of `FirstScore`. The two scans run over different record types
   * (score entries and roll-call entries), as the two loops of the summary
   * do, and each is proved equal to its own loop; a shared version would
   * take the id as a function argument that every lemma about it must carry.
   */
  function FirstCheck(data: seq<CheckEntry>, sid: string): (r: Option<CheckEntry>)
    ensures r.Some? ==> r.value in data && r.value.studentId == sid
    ensures r.None? <==> forall i :: 0 <= i < |data| ==> data[i].studentId != sid
  {
    if data == [] then None
    else if data[0].studentId == sid then Some(data[0])
    else FirstCheck(data[1..], sid)
  }

  /** The statuses a summary accepts; an unmarked entry ("") is counted late. */
  predicate StatusKnown(e: Option<CheckEntry>)
  {
    e.None? || e.value.status in {"attend", "absent", "late", ""}
  }

  /** Count one roll call: the record itself, then the student's first entry if any. */
  function Tick(acc: Counts, e: Option<CheckEntry>): Result<Counts>
  {
    var a := acc.(all := acc.all + 1);
    match e
    case None => Ok(a)
    case Some(d) =>
      if d.status == "attend" then Ok(a.(attend := a.attend + 1))
      else if d.status == "absent" then Ok(a.(absent := a.absent + 1))
      else if d.status == "late" || d.status == "" then Ok(a.(late := a.late + 1))
      else Err(TypeInvalid)
  }

  /** The loop over a course's roll calls for one student, continuing from `acc`. */
  function CountFrom(acc: Counts, records: seq<CheckName>, sid: string): Result<Counts>
    decreases |records|
  {
    if records == [] then Ok(acc)
    else
      var a :- Tick(acc, FirstCheck(records[0].data, sid));
      CountFrom(a, records[1..], sid)
  }

  /** Every roll call is counted once, and at most one of attend/absent/late per roll call. */
  predicate Tallied(c: Counts)
  {
    0 <= c.attend && 0 <= c.absent && 0 <= c.late && c.attend + c.absent + c.late <= c.all
  }

  /**
   * The tally fails exactly when some roll call's entry for the student
   * has an unknown status; otherwise it counts every roll call and keeps
   * attend + absent + late within the count.
   */
  lemma {:induction false} CountFromValue(acc: Counts, records: seq<CheckName>, sid: string)
    requires Tallied(acc)
    ensures CountFrom(acc, records, sid).Ok? <==> forall i :: 0 <= i < |records| ==> StatusKnown(FirstCheck(records[i].data, sid))
    ensures CountFrom(acc, records, sid).Ok? ==>
      Tallied(CountFrom(acc, records, sid).value) && CountFrom(acc, records, sid).value.all == acc.all + |records|
    ensures CountFrom(acc, records, sid).Err? ==> CountFrom(acc, records, sid).error == TypeInvalid
    decreases |records|
  {
    if records != [] {
      assert forall i :: 1 <= i < |records| ==> records[1..][i - 1] == records[i];
      var t := Tick(acc, FirstCheck(records[0].data, sid));
      if t.Ok? {
        CountFromValue(t.value, records[1..], sid);
      }
    }
  }

  /** The inner loop over a roll call's entries. */
  method FirstCheckLoop(data: seq<CheckEntry>, sid: string) returns (r: Option<CheckEntry>)
    ensures r == FirstCheck(data, sid)
  {
    var k := 0;
    while k < |data|
      invariant 0 <= k <= |data|
      invariant FirstCheck(data, sid) == FirstCheck(data[k..], sid)
    {
      assert data[k..][0] == data[k] && data[k..][1..] == data[k + 1..];
      if data[k].studentId == sid {
        return Some(data[k]);
      }
      k := k + 1;
    }
    return None;
  }

  /** The loop over a course's roll calls for one student. */
  method CountLoop(records: seq<CheckName>, sid: string) returns (r: Result<Counts>)
    ensures r == CountFrom(NoCounts, records, sid)
  {
    var acc := NoCounts;
    var k := 0;
    while k < |records|
      invariant 0 <= k <= |records|
      invariant CountFrom(NoCounts, records, sid) == CountFrom(acc, records[k..], sid)
    {
      assert records[k..][0] == records[k] && records[k..][1..] == records[k + 1..];
      var e := FirstCheckLoop(records[k].data, sid);
      var t := Tick(acc, e);
      if t.Err? {
        return Err(TypeInvalid);
      }
      acc := t.value;
      k := k + 1;
    }
    return Ok(acc);
  }

  // ------------------------------------------------------------ one student

  /** The summary line of one student, from the course's score items and roll calls. */
  function StudentRow(sid: string, scores: seq<Score>, records: seq<CheckName>): Result<StudentData>
  {
    var s :- SumFrom(NoSums, scores, sid);
    var c :- CountFrom(NoCounts, records, sid);
    var workFull := 100.0 - s.midFull - s.finalFull;
    var workGet := WorkScore(s.workGet, s.workFull, workFull);
    Ok(StudentData(sid, Marks(GradePoint(workGet + s.midGet + s.finalGet), workGet, workFull,
      s.midGet, s.midFull, s.finalGet, s.finalFull, c.all, c.attend, c.absent, c.late)))
  }

  /**
   * What a summary line holds: the student's sums per type, the work
   * share of 100, the grade of the total, and an attendance tally that
   * counts every roll call.
   */
  lemma StudentRowValue(sid: string, scores: seq<Score>, records: seq<CheckName>)
    ensures StudentRow(sid, scores, records).Ok? <==>
      KindsValid(scores) && forall i :: 0 <= i < |records| ==> StatusKnown(FirstCheck(records[i].data, sid))
    ensures StudentRow(sid, scores, records).Err? ==> StudentRow(sid, scores, records).error == TypeInvalid
    ensures StudentRow(sid, scores, records).Ok? ==>
      var d := StudentRow(sid, scores, records).value; var m := d.marks;
      d.studentId == sid
      && m.midGet == GetOf(scores, "midterm", sid) && m.midFull == FullOf(scores, "midterm")
      && m.finalGet == GetOf(scores, "final", sid) && m.finalFull == FullOf(scores, "final")
      && m.workFull == 100.0 - m.midFull - m.finalFull
      && m.workGet == WorkScore(GetOf(scores, "work", sid), FullOf(scores, "work"), m.workFull)
      && m.grade == GradePoint(m.workGet + m.midGet + m.finalGet)
      && m.allDateCount == |records| && 0 <= m.attendCount && 0 <= m.absentCount && 0 <= m.lateCount
      && m.attendCount + m.absentCount + m.lateCount <= m.allDateCount
  {
    SumFromValue(NoSums, scores, sid);
    CountFromValue(NoCounts, records, sid);
  }

  /**
   * With every entry within its item's full marks and the midterm and
   * final leaving a non-negative share for work, the total is at most 100.
   */
  lemma TotalAtMostHundred(sid: string, scores: seq<Score>, records: seq<CheckName>)
    requires StudentRow(sid, scores, records).Ok?
    requires GetsInRange(scores) && forall i :: 0 <= i < |scores| ==> 0.0 <= scores[i].scoreFull
    requires FullOf(scores, "midterm") + FullOf(scores, "final") <= 100.0
    ensures var m := StudentRow(sid, scores, records).value.marks; m.workGet + m.midGet + m.finalGet <= 100.0
  {
    StudentRowValue(sid, scores, records);
    GetWithinFull(scores, "work", sid);
    GetWithinFull(scores, "midterm", sid);
    GetWithinFull(scores, "final", sid);
  }

  /**
   * The grade the summary records from the work score as written: with
   * the work score undefined (NaN) every comparison of the ladder is false
   * and the grade falls through to 0.
   */
  function GradeAsWritten(work: Option<real>, midGet: real, finalGet: real): (g: real)
    ensures work.None? ==> g == 0.0
    ensures work.Some? ==> g == GradePoint(work.value + midGet + finalGet)
  {
    match work
    case None => 0.0
    case Some(w) => GradePoint(w + midGet + finalGet)
  }

  /**
   * A course graded only by a midterm and a final, 50 marks each: a student
   * with 45 on both gets grade 0 as written, but 4 once an empty work part
   * counts 0.
   */
  lemma NoWorkItemsCounterexample()
    ensures var scores := [Score("m", "c", "midterm", "mid", 50.0, [ScoreEntry("s", Some(45.0), "normal")]),
                           Score("f", "c", "final", "fin", 50.0, [ScoreEntry("s", Some(45.0), "normal")])];
      FullOf(scores, "work") == 0.0
      && GradeAsWritten(WorkAsWritten(GetOf(scores, "work", "s"), FullOf(scores, "work"), 0.0), 45.0, 45.0) == 0.0
      && StudentRow("s", scores, []) == Ok(StudentData("s", Marks(4.0, 0.0, 0.0, 45.0, 50.0, 45.0, 50.0, 0, 0, 0, 0)))
  {
    var scores := [Score("m", "c", "midterm", "mid", 50.0, [ScoreEntry("s", Some(45.0), "normal")]),
                   Score("f", "c", "final", "fin", 50.0, [ScoreEntry("s", Some(45.0), "normal")])];
    assert scores[1..][1..] == [];
    SumFromValue(NoSums, scores, "s");
    assert GetOf(scores, "midterm", "s") == 45.0;
    assert GetOf(scores, "final", "s") == 45.0;
  }

  method StudentRowLoop(sid: string, scores: seq<Score>, records: seq<CheckName>) returns (r: Result<StudentData>)
    ensures r == StudentRow(sid, scores, records)
  {
    var s := SumLoop(scores, sid);
    if s.Err? {
      return Err(s.error);
    }
    var c := CountLoop(records, sid);
    if c.Err? {
      return Err(c.error);
    }
    var sums, counts := s.value, c.value;
    var workFull := 100.0 - sums.midFull - sums.finalFull;
    var workGet := WorkScore(sums.workGet, sums.workFull, workFull);
    var total := workGet + sums.midGet + sums.finalGet;
    return Ok(StudentData(sid, Marks(GradePoint(total), workGet, workFull,
      sums.midGet, sums.midFull, sums.finalGet, sums.finalFull, counts.all, counts.attend, counts.absent, counts.late)));
  }

  // ------------------------------------------------------------- the course

  function PrependRows(acc: seq<StudentData>, r: Result<seq<StudentData>>): Result<seq<StudentData>>
  {
    match r
    case Ok(rows) => Ok(acc + rows)
    case Err(e) => Err(e)
  }

  /** One summary line per enrolled student, in enrolment order. */
  function Summarize(ids: seq<string>, scores: seq<Score>, records: seq<CheckName>): Result<seq<StudentData>>
  {
    if ids == [] then Ok([])
    else
      var d :- StudentRow(ids[0], scores, records);
      PrependRows([d], Summarize(ids[1..], scores, records))
  }

  /**
   * A summary has exactly one line per enrolled student, in the same
   * order, each that student's line; it fails when any line fails.
   */
  lemma {:induction false} SummarizeRows(ids: seq<string>, scores: seq<Score>, records: seq<CheckName>)
    ensures Summarize(ids, scores, records).Ok? <==> forall k :: 0 <= k < |ids| ==> StudentRow(ids[k], scores, records).Ok?
    ensures Summarize(ids, scores, records).Ok? ==>
      var rows := Summarize(ids, scores, records).value;
      |rows| == |ids| && forall k :: 0 <= k < |ids| ==> Ok(rows[k]) == StudentRow(ids[k], scores, records)
    decreases |ids|
  {
    if ids != [] {
      assert forall k :: 1 <= k < |ids| ==> ids[1..][k - 1] == ids[k];
      SummarizeRows(ids[1..], scores, records);
    }
  }

  /** With no enrolled student nothing is checked: even an item of unknown type passes. */
  lemma EmptyClassSummarizes(scores: seq<Score>, records: seq<CheckName>)
    ensures Summarize([], scores, records) == Ok([])
  {
  }

  lemma PrependRowsAppend(a: seq<StudentData>, b: seq<StudentData>, r: Result<seq<StudentData>>)
    ensures PrependRows(a, PrependRows(b, r)) == PrependRows(a + b, r)
  {
    if r.Ok? {
      assert a + (b + r.value) == (a + b) + r.value;
    }
  }

  /** The summary loop over the enrolled students. */
  method SummarizeLoop(ids: seq<string>, scores: seq<Score>, records: seq<CheckName>) returns (r: Result<seq<StudentData>>)
    ensures r == Summarize(ids, scores, records)
  {
    var rows: seq<StudentData> := [];
    var k := 0;
    assert ids[0..] == ids;
    var whole := Summarize(ids, scores, records);
    if whole.Ok? {
      assert [] + whole.value == whole.value;
    }
    while k < |ids|
      invariant 0 <= k <= |ids|
      invariant Summarize(ids, scores, records) == PrependRows(rows, Summarize(ids[k..], scores, records))
    {
      assert ids[k..][0] == ids[k] && ids[k..][1..] == ids[k + 1..];
      var d := StudentRowLoop(ids[k], scores, records);
      if d.Err? {
        return Err(d.error);
      }
      PrependRowsAppend(rows, [d.value], Summarize(ids[k + 1..], scores, records));
      rows := rows + [d.value];
      k := k + 1;
    }
    assert ids[k..] == [];
    assert rows + [] == rows;
    return Ok(rows);
  }
}
