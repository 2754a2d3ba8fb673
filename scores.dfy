/**
 * Graded components of a course (work items, one midterm, one final) and
 * the per-student entries a teacher fills in. Score values arrive already
 * parsed as reals.
 */
module Scores {
  import opened Common
  import opened Validate
  import opened Records
  import opened Lifecycle
  import opened Grading

  // ------------------------------------------------------------ new item

  /** The entry of a student not graded yet. */
  function NotGraded(sid: string): ScoreEntry
  {
    ScoreEntry(sid, None, "not")
  }

  /** The entries of a new score item: one ungraded entry per enrolled student, in order. */
  function NotGradedEntries(ids: seq<string>): (r: seq<ScoreEntry>)
    ensures |r| == |ids|
    ensures forall k :: 0 <= k < |ids| ==> r[k].studentId == ids[k] && r[k].scoreGet.None? && r[k].status == "not"
  {
    if ids == [] then [] else [NotGraded(ids[0])] + NotGradedEntries(ids[1..])
  }

  /** `createScoreinformation`: the append loop over the student list. */
  method CreateScoreInformation(ids: seq<string>) returns (r: seq<ScoreEntry>)
    ensures r == NotGradedEntries(ids)
  {
    r := [];
    var k := 0;
    while k < |ids|
      invariant 0 <= k <= |ids|
      invariant NotGradedEntries(ids) == r + NotGradedEntries(ids[k..])
    {
      assert ids[k..][0] == ids[k] && ids[k..][1..] == ids[k + 1..];
      r := r + [NotGraded(ids[k])];
      k := k + 1;
    }
    assert ids[k..] == [];
  }

  /** Some item of the course already has this name. */
  predicate Named(scores: seq<Score>, courseId: Id, name: string)
  {
    exists k :: 0 <= k < |scores| && scores[k].courseId == courseId && scores[k].name == name
  }

  /** Some item of the course already has this type. */
  predicate HasKind(scores: seq<Score>, courseId: Id, kind: string)
  {
    exists k :: 0 <= k < |scores| && scores[k].courseId == courseId && scores[k].kind == kind
  }

  /**
   * `CreateScore` once the course is found: the course is in progress, the
   * name is required and unused within the course, the type is required
   * and one of work, midterm, final, and a course has at most one midterm
   * and one final. The new item has one ungraded entry per enrolled student.
   */
  function NewScore(id: Id, courseId: Id, c: Course, nameIn: string, scoreFull: real, kindIn: string,
                    scores: seq<Score>): (r: Result<Score>)
    ensures c.status != Progress ==> r == Err(StatusInvalid("progress"))
    ensures r.Ok? <==>
      (c.status == Progress && CheckStringData(nameIn, "name").Ok? && CheckStringData(kindIn, "type").Ok?
       && !Named(scores, courseId, CheckStringData(nameIn, "name").value)
       && ValidKind(CheckStringData(kindIn, "type").value)
       && (CheckStringData(kindIn, "type").value != "work" ==> !HasKind(scores, courseId, CheckStringData(kindIn, "type").value)))
    ensures r.Ok? ==>
      (r.value == Score(id, courseId, CheckStringData(kindIn, "type").value, CheckStringData(nameIn, "name").value,
                        scoreFull, NotGradedEntries(c.studentIdList)))
    ensures (c.status == Progress && CheckStringData(nameIn, "name").Ok?
             && Named(scores, courseId, CheckStringData(nameIn, "name").value)) ==> r == Err(AlreadyExists("score name"))
  {
    if c.status != Progress then Err(StatusInvalid("progress"))
    else
      var name :- CheckStringData(nameIn, "name");
      if Named(scores, courseId, name) then Err(AlreadyExists("score name"))
      else
        var kind :- CheckStringData(kindIn, "type");
        if !ValidKind(kind) then Err(TypeInvalid)
        else if (kind == "midterm" || kind == "final") && HasKind(scores, courseId, kind) then Err(AlreadyExists("score type"))
        else Ok(Score(id, courseId, kind, name, scoreFull, NotGradedEntries(c.studentIdList)))
  }

  /**
   * What `CreateScore` keeps true of the stored items: within a course,
   * names are distinct, types are valid, and two items of the same type are
   * both work items.
   */
  predicate ScoresUnique(scores: seq<Score>)
  {
    (forall k :: 0 <= k < |scores| ==> ValidKind(scores[k].kind))
    && forall i, j :: 0 <= i < j < |scores| && scores[i].courseId == scores[j].courseId ==>
      scores[i].name != scores[j].name && (scores[i].kind == scores[j].kind ==> scores[i].kind == "work")
  }

  /** Appending what `NewScore` accepted keeps names unique and exams single. */
  lemma NewScoreKeepsUnique(id: Id, courseId: Id, c: Course, nameIn: string, scoreFull: real, kindIn: string, scores: seq<Score>)
    requires ScoresUnique(scores)
    requires NewScore(id, courseId, c, nameIn, scoreFull, kindIn, scores).Ok?
    ensures ScoresUnique(scores + [NewScore(id, courseId, c, nameIn, scoreFull, kindIn, scores).value])
  {
    var s := NewScore(id, courseId, c, nameIn, scoreFull, kindIn, scores).value;
    var t := scores + [s];
    forall i, j | 0 <= i < j < |t| && t[i].courseId == t[j].courseId
      ensures t[i].name != t[j].name && (t[i].kind == t[j].kind ==> t[i].kind == "work")
    {
      if j == |scores| {
        assert t[i] == scores[i];
        assert t[i].name == s.name ==> Named(scores, courseId, s.name);
        assert t[i].kind == s.kind ==> HasKind(scores, courseId, s.kind);
      }
    }
  }

  /** A new item holds no grade, so grade ranges still hold after it is added. */
  lemma NewScoreKeepsRange(id: Id, courseId: Id, c: Course, nameIn: string, scoreFull: real, kindIn: string, scores: seq<Score>)
    requires GetsInRange(scores)
    requires NewScore(id, courseId, c, nameIn, scoreFull, kindIn, scores).Ok?
    ensures GetsInRange(scores + [NewScore(id, courseId, c, nameIn, scoreFull, kindIn, scores).value])
  {
    var t := scores + [NewScore(id, courseId, c, nameIn, scoreFull, kindIn, scores).value];
    forall i, j | 0 <= i < |t| && 0 <= j < |t[i].info| && t[i].info[j].scoreGet.Some?
      ensures 0.0 <= t[i].info[j].scoreGet.value <= t[i].scoreFull
    {
      assert i < |scores|;
      assert t[i] == scores[i];
    }
  }

  // ------------------------------------------------------------ grading one student

  /**
   * `UpdateStudentScore` once the item is found: the student id and the
   * status are required, the student is enrolled, the status is normal or
   * late, the grade does not exceed the item's full marks, and the item has
   * exactly one entry per enrolled student. Gives the trimmed (student id,
   * status).
   */
  function GradeGate(c: Course, sc: Score, sidIn: string, statusIn: string, scoreGet: real): (r: Result<(string, string)>)
    ensures r.Ok? <==>
      (CheckStringData(sidIn, "student_id").Ok? && CheckStringData(statusIn, "status").Ok?
       && CheckStringData(sidIn, "student_id").value in c.studentIdList
       && CheckStringData(statusIn, "status").value in {"normal", "late"}
       && scoreGet <= sc.scoreFull && |sc.info| == |c.studentIdList|)
    ensures r.Ok? ==> r.value == (CheckStringData(sidIn, "student_id").value, CheckStringData(statusIn, "status").value)
    ensures (CheckStringData(sidIn, "student_id").Ok? && CheckStringData(statusIn, "status").Ok?
             && CheckStringData(sidIn, "student_id").value !in c.studentIdList) ==> r == Err(StudentNotInCourse)
  {
    var sid :- CheckStringData(sidIn, "student_id");
    var status :- CheckStringData(statusIn, "status");
    if sid !in c.studentIdList then Err(StudentNotInCourse)
    else if status != "normal" && status != "late" then Err(ValueInvalid("status"))
    else if scoreGet > sc.scoreFull then Err(ValueInvalid("score get"))
    else if |sc.info| != |c.studentIdList| then Err(ValueInvalid("score info"))
    else Ok((sid, status))
  }

  function ScoreIds(info: seq<ScoreEntry>): (r: seq<string>)
    ensures |r| == |info| && forall k :: 0 <= k < |info| ==> r[k] == info[k].studentId
  {
    seq(|info|, k requires 0 <= k < |info| => info[k].studentId)
  }

  /**
   * The entries after grading `sid`: the first entry of the student takes
   * the grade and the status, every other entry (a later duplicate
   * included) is unchanged.
   */
  function Graded(info: seq<ScoreEntry>, sid: string, g: real, status: string): (r: seq<ScoreEntry>)
    ensures |r| == |info|
    ensures forall k :: 0 <= k < |info| && (IndexOf(ScoreIds(info), sid) != Some(k)) ==> r[k] == info[k]
    ensures IndexOf(ScoreIds(info), sid).Some? ==>
      var j := IndexOf(ScoreIds(info), sid).value;
      r[j] == ScoreEntry(sid, Some(g), status)
  {
    match IndexOf(ScoreIds(info), sid)
    case None => info
    case Some(j) => info[j := info[j].(scoreGet := Some(g), status := status)]
  }

  /** The grading loop of `UpdateStudentScore`, which stops at the first entry of the student. */
  method GradeEntry(info: seq<ScoreEntry>, sid: string, g: real, status: string) returns (r: seq<ScoreEntry>)
    ensures r == Graded(info, sid, g, status)
  {
    var k := 0;
    while k < |info|
      invariant 0 <= k <= |info|
      invariant forall j :: 0 <= j < k ==> ScoreIds(info)[j] != sid
    {
      if info[k].studentId == sid {
        IndexOfFirst(ScoreIds(info), sid, k);
        return info[k := info[k].(scoreGet := Some(g), status := status)];
      }
      k := k + 1;
    }
    return info;
  }

  /** `FirstScore`, the summary's lookup, finds the entry `IndexOf` points at. */
  lemma {:induction false} FirstScoreAt(info: seq<ScoreEntry>, sid: string)
    ensures FirstScore(info, sid) ==
      (match IndexOf(ScoreIds(info), sid) case None => None case Some(j) => Some(info[j]))
    decreases |info|
  {
    if info != [] && info[0].studentId != sid {
      FirstScoreAt(info[1..], sid);
      assert ScoreIds(info)[1..] == ScoreIds(info[1..]);
    }
  }

  /**
   * After grading an enrolled student who has an entry, the course summary
   * reads exactly that grade for the student.
   */
  lemma GradedIsSeen(info: seq<ScoreEntry>, sid: string, g: real, status: string)
    requires sid in ScoreIds(info)
    ensures EntryGet(Graded(info, sid, g, status), sid) == g
  {
    var r := Graded(info, sid, g, status);
    var j := IndexOf(ScoreIds(info), sid).value;
    assert ScoreIds(r) == ScoreIds(info);
    FirstScoreAt(r, sid);
    assert r[j] == ScoreEntry(sid, Some(g), status);
  }

  /** Grading within [0, full marks] keeps every grade of the store in range. */
  lemma GradedKeepsRange(scores: seq<Score>, i: nat, sid: string, g: real, status: string)
    requires GetsInRange(scores) && i < |scores|
    requires 0.0 <= g <= scores[i].scoreFull
    ensures GetsInRange(scores[i := scores[i].(info := Graded(scores[i].info, sid, g, status))])
  {
    var t := scores[i := scores[i].(info := Graded(scores[i].info, sid, g, status))];
    forall a, b | 0 <= a < |t| && 0 <= b < |t[a].info| && t[a].info[b].scoreGet.Some?
      ensures 0.0 <= t[a].info[b].scoreGet.value <= t[a].scoreFull
    {
      if a == i && IndexOf(ScoreIds(scores[i].info), sid) != Some(b) {
        assert t[a].info[b] == scores[i].info[b];
      }
    }
  }
}
