/**
 * The profile fold of `FinishCourse` and `EndTerm`: a course summary line
 * is written into the student's term entry, and the credit totals, the
 * term GPA and the overall GPA are recomputed.
 */
module Transcript {
  import opened Common
  import opened Records

  // ------------------------------------------------------------------- sums

  /** Σ credit over a term's courses. */
  function CreditSum(courses: seq<CourseResult>): int
  {
    if courses == [] then 0 else CreditSum(courses[..|courses| - 1]) + courses[|courses| - 1].credit
  }

  /** Σ grade·credit over a term's courses. */
  function GradeCreditSum(courses: seq<CourseResult>): real
  {
    if courses == [] then 0.0
    else GradeCreditSum(courses[..|courses| - 1]) + courses[|courses| - 1].marks.grade * courses[|courses| - 1].credit as real
  }

  /** Σ term credit over a transcript. */
  function TermCreditSum(terms: seq<TermScore>): int
  {
    if terms == [] then 0 else TermCreditSum(terms[..|terms| - 1]) + terms[|terms| - 1].termCredit
  }

  /** Σ term GPA·term credit over a transcript. */
  function GpaCreditSum(terms: seq<TermScore>): real
  {
    if terms == [] then 0.0
    else GpaCreditSum(terms[..|terms| - 1]) + terms[|terms| - 1].gpa * terms[|terms| - 1].termCredit as real
  }

  /** The credit-weighted mean of the grades; a term without credit has GPA 0. */
  function TermGpa(courses: seq<CourseResult>, termCredit: int): real
  {
    if termCredit == 0 then 0.0 else GradeCreditSum(courses) / termCredit as real
  }

  /** The credit-weighted mean of the term GPAs; a transcript without credit has GPA 0. */
  function ProfileGpa(terms: seq<TermScore>, allCredit: int): real
  {
    if allCredit == 0 then 0.0 else GpaCreditSum(terms) / allCredit as real
  }

  // ------------------------------------------------------------------- fold

  function EntryIds(courses: seq<CourseResult>): (r: seq<Id>)
    ensures |r| == |courses| && forall j :: 0 <= j < |courses| ==> r[j] == courses[j].id
  {
    seq(|courses|, j requires 0 <= j < |courses| => courses[j].id)
  }

  function TermKeys(terms: seq<TermScore>): (r: seq<(string, string)>)
    ensures |r| == |terms| && forall i :: 0 <= i < |terms| ==> r[i] == (terms[i].year, terms[i].term)
  {
    seq(|terms|, i requires 0 <= i < |terms| => (terms[i].year, terms[i].term))
  }

  /**
   * Fold one course into one term entry: the first entry of the course gets
   * the summary marks and the course credit, the term credit gives up the
   * entry's old credit (when `subtract`) and takes the new one, and the term
   * GPA is recomputed. The second component is the change of the overall
   * credit.
   */
  function FoldTerm(t: TermScore, cid: Id, credit: int, marks: Marks, subtract: bool): (TermScore, int)
  {
    match IndexOf(EntryIds(t.courseList), cid)
    case None => (t.(gpa := TermGpa(t.courseList, t.termCredit)), 0)
    case Some(j) =>
      var prev := t.courseList[j].credit;
      var sub := if subtract && prev != 0 then prev else 0;
      var courses := t.courseList[j := CourseResult(cid, marks, credit)];
      var tc := t.termCredit - sub + credit;
      (TermScore(t.year, t.term, TermGpa(courses, tc), tc, courses), credit - sub)
  }

  /** Recompute the overall GPA after the term list and credit changed. */
  function WithTerms(p: Student, terms: seq<TermScore>, all: int): Student
  {
    p.(termScore := terms, allCredit := all, gpa := ProfileGpa(terms, all))
  }

  /**
   * The fold as the handlers write it: because the loop over the terms
   * ends with an unconditional `break`, only the first term entry is ever
   * examined; the overall GPA is recomputed and the profile written
   * whenever there is a first entry, matching or not.
   */
  function FoldAsWritten(p: Student, year: string, term: string, cid: Id, credit: int, marks: Marks, subtract: bool): (r: Option<Student>)
    ensures r.None? <==> p.termScore == []
  {
    if p.termScore == [] then None
    else
      var t0 := p.termScore[0];
      if t0.year == year && t0.term == term then
        var (t, d) := FoldTerm(t0, cid, credit, marks, subtract);
        Some(WithTerms(p, p.termScore[0 := t], p.allCredit + d))
      else
        Some(WithTerms(p, p.termScore, p.allCredit))
  }

  /**
   * The fold as intended: the first term entry for (`year`, `term`) takes
   * the course, and the profile is written only when there is one.
   */
  function Fold(p: Student, year: string, term: string, cid: Id, credit: int, marks: Marks, subtract: bool): (r: Option<Student>)
    ensures r.None? <==> (year, term) !in TermKeys(p.termScore)
  {
    match IndexOf(TermKeys(p.termScore), (year, term))
    case None => None
    case Some(i) =>
      var (t, d) := FoldTerm(p.termScore[i], cid, credit, marks, subtract);
      Some(WithTerms(p, p.termScore[i := t], p.allCredit + d))
  }

  /** When the matching term is the first one, the two folds agree. */
  lemma FoldAsWrittenOnFirstTerm(p: Student, year: string, term: string, cid: Id, credit: int, marks: Marks, subtract: bool)
    requires p.termScore != [] && p.termScore[0].year == year && p.termScore[0].term == term
    ensures FoldAsWritten(p, year, term, cid, credit, marks, subtract) == Fold(p, year, term, cid, credit, marks, subtract)
  {
    IndexOfFirst(TermKeys(p.termScore), (year, term), 0);
  }

  /**
   * A student in the second term of a year: the course of that term is
   * never written into the transcript as written, but is once the
   * matching term entry is looked up.
   */
  lemma SecondTermCounterexample()
    ensures var e := CourseResult("c", NoMarks, 0);
      var p := Student("s", "n", "k", "", 0.0, 0, [TermScore("2023", "1", 0.0, 0, []), TermScore("2023", "2", 0.0, 0, [e])]);
      var m := NoMarks.(grade := 4.0);
      FoldAsWritten(p, "2023", "2", "c", 3, m, true).value.termScore[1].courseList[0] == e
      && Fold(p, "2023", "2", "c", 3, m, true).value.termScore[1].courseList[0] == CourseResult("c", m, 3)
      && Fold(p, "2023", "2", "c", 3, m, true).value.allCredit == 3
  {
    var e := CourseResult("c", NoMarks, 0);
    var p := Student("s", "n", "k", "", 0.0, 0, [TermScore("2023", "1", 0.0, 0, []), TermScore("2023", "2", 0.0, 0, [e])]);
    assert TermKeys(p.termScore)[0] != ("2023", "2");
    IndexOfFirst(TermKeys(p.termScore), ("2023", "2"), 1);
    IndexOfFirst(EntryIds(p.termScore[1].courseList), "c", 0);
  }

  // ----------------------------------------------------------- what it does

  /**
   * A fold that finds the term writes the course's entry, and only it:
   * the other terms and the other courses keep their records.
   */
  lemma FoldEffect(p: Student, year: string, term: string, cid: Id, credit: int, marks: Marks, subtract: bool)
    requires Fold(p, year, term, cid, credit, marks, subtract).Some?
    ensures var q := Fold(p, year, term, cid, credit, marks, subtract).value;
      var i := IndexOf(TermKeys(p.termScore), (year, term)).value;
      |q.termScore| == |p.termScore| && TermKeys(q.termScore) == TermKeys(p.termScore)
      && (forall k :: 0 <= k < |p.termScore| && k != i ==> q.termScore[k] == p.termScore[k])
      && EntryIds(q.termScore[i].courseList) == EntryIds(p.termScore[i].courseList)
      && (forall j :: 0 <= j < |p.termScore[i].courseList| ==>
            q.termScore[i].courseList[j] == if Some(j) == IndexOf(EntryIds(p.termScore[i].courseList), cid)
              then CourseResult(cid, marks, credit) else p.termScore[i].courseList[j])
      && q.profileId == p.profileId && q.name == p.name && q.classId == p.classId && q.parentId == p.parentId
  {
    var i := IndexOf(TermKeys(p.termScore), (year, term)).value;
    var t := p.termScore[i];
    var q := Fold(p, year, term, cid, credit, marks, subtract).value;
    assert TermKeys(q.termScore) == TermKeys(p.termScore);
    match IndexOf(EntryIds(t.courseList), cid)
    case None =>
    case Some(j) =>
      assert EntryIds(q.termScore[i].courseList) == EntryIds(t.courseList);
  }

  // ---------------------------------------------------------------- credits

  /** Each term's credit is the sum of its course credits, and the overall credit the sum of the terms'. */
  ghost predicate CreditsAdd(p: Student)
  {
    (forall i :: 0 <= i < |p.termScore| ==> p.termScore[i].termCredit == CreditSum(p.termScore[i].courseList))
    && p.allCredit == TermCreditSum(p.termScore)
  }

  lemma {:induction false} CreditSumUpdate(courses: seq<CourseResult>, j: nat, e: CourseResult)
    requires j < |courses|
    ensures CreditSum(courses[j := e]) == CreditSum(courses) - courses[j].credit + e.credit
    decreases |courses|
  {
    var n := |courses|;
    var u := courses[j := e];
    if j < n - 1 {
      assert u[..n - 1] == courses[..n - 1][j := e];
      CreditSumUpdate(courses[..n - 1], j, e);
    } else {
      assert u[..n - 1] == courses[..n - 1];
    }
  }

  lemma {:induction false} TermCreditSumUpdate(terms: seq<TermScore>, i: nat, t: TermScore)
    requires i < |terms|
    ensures TermCreditSum(terms[i := t]) == TermCreditSum(terms) - terms[i].termCredit + t.termCredit
    decreases |terms|
  {
    var n := |terms|;
    var u := terms[i := t];
    if i < n - 1 {
      assert u[..n - 1] == terms[..n - 1][i := t];
      TermCreditSumUpdate(terms[..n - 1], i, t);
    } else {
      assert u[..n - 1] == terms[..n - 1];
    }
  }

  /**
   * The fold of `FinishCourse`, which gives up the entry's old credit
   * first, keeps the credit totals equal to the sums of the course credits.
   */
  lemma FoldKeepsCredits(p: Student, year: string, term: string, cid: Id, credit: int, marks: Marks)
    requires CreditsAdd(p) && Fold(p, year, term, cid, credit, marks, true).Some?
    ensures CreditsAdd(Fold(p, year, term, cid, credit, marks, true).value)
  {
    var i := IndexOf(TermKeys(p.termScore), (year, term)).value;
    var t := p.termScore[i];
    var (t', d) := FoldTerm(t, cid, credit, marks, true);
    match IndexOf(EntryIds(t.courseList), cid)
    case None =>
      TermCreditSumUpdate(p.termScore, i, t');
    case Some(j) =>
      CreditSumUpdate(t.courseList, j, CourseResult(cid, marks, credit));
      TermCreditSumUpdate(p.termScore, i, t');
  }

  /**
   * The fold of `EndTerm` does not give up the prev credit; it agrees with
   * the fold of `FinishCourse` as long as the course's entry still has
   * credit 0, as every entry `CreateCourse` appends does.
   */
  lemma FoldFreshAgree(p: Student, year: string, term: string, cid: Id, credit: int, marks: Marks)
    requires match IndexOf(TermKeys(p.termScore), (year, term))
      case None => true
      case Some(i) => match IndexOf(EntryIds(p.termScore[i].courseList), cid)
        case None => true
        case Some(j) => p.termScore[i].courseList[j].credit == 0
    ensures Fold(p, year, term, cid, credit, marks, false) == Fold(p, year, term, cid, credit, marks, true)
  {
  }

  /** Folding a term entry a second time with the same summary leaves it as it is and adds no credit. */
  lemma FoldTermIdempotent(t: TermScore, cid: Id, credit: int, marks: Marks)
    ensures var t' := FoldTerm(t, cid, credit, marks, true).0; FoldTerm(t', cid, credit, marks, true) == (t', 0)
  {
    var t' := FoldTerm(t, cid, credit, marks, true).0;
    match IndexOf(EntryIds(t.courseList), cid)
    case None =>
    case Some(j) =>
      assert EntryIds(t'.courseList) == EntryIds(t.courseList);
      assert t'.courseList[j := CourseResult(cid, marks, credit)] == t'.courseList;
  }

  /**
   * Folding the same course again with the same summary changes nothing:
   * the old credit is given up before the new one is added, so nothing is
   * counted twice.
   */
  lemma FoldIdempotent(p: Student, year: string, term: string, cid: Id, credit: int, marks: Marks)
    requires Fold(p, year, term, cid, credit, marks, true).Some?
    ensures var q := Fold(p, year, term, cid, credit, marks, true).value;
      Fold(q, year, term, cid, credit, marks, true) == Some(q)
  {
    var q := Fold(p, year, term, cid, credit, marks, true).value;
    var i := IndexOf(TermKeys(p.termScore), (year, term)).value;
    var t' := FoldTerm(p.termScore[i], cid, credit, marks, true).0;
    assert q.termScore == p.termScore[i := t'];
    assert TermKeys(q.termScore) == TermKeys(p.termScore);
    FoldTermIdempotent(p.termScore[i], cid, credit, marks);
    assert q.termScore[i := t'] == q.termScore;
  }

  // -------------------------------------------------------------------- GPA

  /** Grades lie on the 0..4 scale and credits are not negative. */
  predicate GradesInScale(courses: seq<CourseResult>)
  {
    forall j :: 0 <= j < |courses| ==> 0.0 <= courses[j].marks.grade <= 4.0 && 0 <= courses[j].credit
  }

  /** A grade on the 0..4 scale weighted by a non-negative credit. */
  lemma WeightBounded(g: real, c: real)
    requires 0.0 <= g <= 4.0 && 0.0 <= c
    ensures 0.0 <= g * c <= 4.0 * c
  {
    assert (4.0 - g) * c >= 0.0;
  }

  lemma StepBounded(a: real, b: real, w: real, x: real)
    requires 0.0 <= a <= 4.0 * b && 0.0 <= w <= 4.0 * x
    ensures 0.0 <= a + w <= 4.0 * (b + x)
  {
  }

  lemma {:induction false} GradeCreditBounded(courses: seq<CourseResult>)
    requires GradesInScale(courses)
    ensures 0.0 <= GradeCreditSum(courses) <= 4.0 * CreditSum(courses) as real
    ensures 0 <= CreditSum(courses)
    decreases |courses|
  {
    if courses != [] {
      var n := |courses|;
      assert GradesInScale(courses[..n - 1]) by {
        forall j | 0 <= j < n - 1 ensures courses[..n - 1][j] == courses[j] { }
      }
      GradeCreditBounded(courses[..n - 1]);
      var c := courses[n - 1];
      var g, x := c.marks.grade, c.credit as real;
      assert 0.0 <= g <= 4.0 && 0.0 <= x;
      WeightBounded(g, x);
      StepBounded(GradeCreditSum(courses[..n - 1]), CreditSum(courses[..n - 1]) as real, g * x, x);
    }
  }

  /** A term GPA whose credit is the sum of its courses' lies on the 0..4 scale. */
  lemma TermGpaInScale(courses: seq<CourseResult>)
    requires GradesInScale(courses)
    ensures 0.0 <= TermGpa(courses, CreditSum(courses)) <= 4.0
  {
    GradeCreditBounded(courses);
    var s, c := GradeCreditSum(courses), CreditSum(courses);
    if c != 0 {
      assert s / c as real <= 4.0 * c as real / c as real;
    }
  }

  predicate GpasInScale(terms: seq<TermScore>)
  {
    forall i :: 0 <= i < |terms| ==> 0.0 <= terms[i].gpa <= 4.0 && 0 <= terms[i].termCredit
  }

  lemma {:induction false} GpaCreditBounded(terms: seq<TermScore>)
    requires GpasInScale(terms)
    ensures 0.0 <= GpaCreditSum(terms) <= 4.0 * TermCreditSum(terms) as real
    ensures 0 <= TermCreditSum(terms)
    decreases |terms|
  {
    if terms != [] {
      var n := |terms|;
      assert GpasInScale(terms[..n - 1]) by {
        forall i | 0 <= i < n - 1 ensures terms[..n - 1][i] == terms[i] { }
      }
      GpaCreditBounded(terms[..n - 1]);
      var t := terms[n - 1];
      var w, x := t.gpa * t.termCredit as real, t.termCredit as real;
      assert 0.0 <= t.gpa <= 4.0 && 0.0 <= x;
      WeightBounded(t.gpa, x);
      assert 0.0 <= w <= 4.0 * x;
      StepBounded(GpaCreditSum(terms[..n - 1]), TermCreditSum(terms[..n - 1]) as real, w, x);
    }
  }

  /** The overall GPA of a transcript whose credits add up lies on the 0..4 scale. */
  lemma ProfileGpaInScale(terms: seq<TermScore>)
    requires GpasInScale(terms)
    ensures 0.0 <= ProfileGpa(terms, TermCreditSum(terms)) <= 4.0
  {
    GpaCreditBounded(terms);
    var s, c := GpaCreditSum(terms), TermCreditSum(terms);
    if c != 0 {
      assert s / c as real <= 4.0 * c as real / c as real;
    }
  }

  // ------------------------------------------------------------------ loops

  method GradeCreditLoop(courses: seq<CourseResult>) returns (r: real)
    ensures r == GradeCreditSum(courses)
  {
    r := 0.0;
    var k := 0;
    while k < |courses|
      invariant 0 <= k <= |courses|
      invariant r == GradeCreditSum(courses[..k])
    {
      assert courses[..k + 1][..k] == courses[..k];
      r := r + courses[k].marks.grade * courses[k].credit as real;
      k := k + 1;
    }
    assert courses[..k] == courses;
  }

  method GpaCreditLoop(terms: seq<TermScore>) returns (r: real)
    ensures r == GpaCreditSum(terms)
  {
    r := 0.0;
    var k := 0;
    while k < |terms|
      invariant 0 <= k <= |terms|
      invariant r == GpaCreditSum(terms[..k])
    {
      assert terms[..k + 1][..k] == terms[..k];
      r := r + terms[k].gpa * terms[k].termCredit as real;
      k := k + 1;
    }
    assert terms[..k] == terms;
  }

  /** The handler's work on one term entry. */
  method FoldTermLoop(t: TermScore, cid: Id, credit: int, marks: Marks, subtract: bool) returns (r: TermScore, delta: int)
    ensures (r, delta) == FoldTerm(t, cid, credit, marks, subtract)
  {
    var courses, tc := t.courseList, t.termCredit;
    delta := 0;
    var j := Find(EntryIds(courses), cid);
    if j.Some? {
      var prev := courses[j.value].credit;
      if subtract && prev != 0 {
        tc := tc - prev;
        delta := delta - prev;
      }
      courses := courses[j.value := CourseResult(cid, marks, credit)];
      tc := tc + credit;
      delta := delta + credit;
    }
    var total := GradeCreditLoop(courses);
    var gpa := if tc == 0 then 0.0 else total / tc as real;
    r := TermScore(t.year, t.term, gpa, tc, courses);
  }

  /** `Fold` once the matching term entry is known to sit at `i`. */
  lemma FoldAt(p: Student, year: string, term: string, cid: Id, credit: int, marks: Marks, subtract: bool, i: nat)
    requires IndexOf(TermKeys(p.termScore), (year, term)) == Some(i)
    ensures i < |p.termScore|
    ensures var (t, d) := FoldTerm(p.termScore[i], cid, credit, marks, subtract);
      Fold(p, year, term, cid, credit, marks, subtract) == Some(WithTerms(p, p.termScore[i := t], p.allCredit + d))
  {
  }

  /** The handler's work on one student profile; `None` means the profile is not written. */
  method FoldLoop(p: Student, year: string, term: string, cid: Id, credit: int, marks: Marks, subtract: bool) returns (r: Option<Student>)
    ensures r == Fold(p, year, term, cid, credit, marks, subtract)
  {
    var i := Find(TermKeys(p.termScore), (year, term));
    if i.None? {
      return None;
    }
    var t, d := FoldTermLoop(p.termScore[i.value], cid, credit, marks, subtract);
    var terms := p.termScore[i.value := t];
    var all := p.allCredit + d;
    var total := GpaCreditLoop(terms);
    var gpa := if all == 0 then 0.0 else total / all as real;
    FoldAt(p, year, term, cid, credit, marks, subtract, i.value);
    r := Some(p.(termScore := terms, allCredit := all, gpa := gpa));
  }
}
