/**
 * The pure parts of the end-of-term rollover: the next (year, term), the
 * class-year ladder, and the per-class, per-student and per-teacher
 * updates for the new term.
 */
module Rollover {
  import opened Common
  import opened SlotGrid
  import opened Records
  import opened Transcript

  // ------------------------------------------------------- decimal strings

  predicate IsDigit(c: char)
  {
    '0' <= c <= '9'
  }

  predicate AllDigits(s: string)
  {
    |s| > 0 && forall i :: 0 <= i < |s| ==> IsDigit(s[i])
  }

  /** The value of a string of decimal digits, read left to right. */
  function DigitsValue(s: string): nat
    requires forall i :: 0 <= i < |s| ==> IsDigit(s[i])
  {
    if s == [] then 0
    else
      assert IsDigit(s[|s| - 1]);
      DigitsValue(s[..|s| - 1]) * 10 + (s[|s| - 1] as int - '0' as int)
  }

  /**
   * `strconv.Atoi` with its error ignored: an optional sign and at least
   * one decimal digit give their value, anything else gives 0.
   */
  function Atoi(s: string): int
  {
    if |s| > 0 && (s[0] == '+' || s[0] == '-') then
      if AllDigits(s[1..]) then
        var v: int := DigitsValue(s[1..]);
        if s[0] == '-' then -v else v
      else 0
    else if AllDigits(s) then DigitsValue(s)
    else 0
  }

  function Digit(d: nat): char
    requires d < 10
  {
    ('0' as int + d) as char
  }

  /** The decimal digits of `n`, no leading zero. */
  function NatDigits(n: nat): (s: string)
    ensures AllDigits(s)
  {
    if n < 10 then [Digit(n)] else NatDigits(n / 10) + [Digit(n % 10)]
  }

  /** `strconv.Itoa`: a minus sign for negative numbers, then the digits. */
  function Itoa(n: int): string
  {
    if n < 0 then "-" + NatDigits(-n) else NatDigits(n)
  }

  lemma {:induction false} NatDigitsValue(n: nat)
    ensures DigitsValue(NatDigits(n)) == n
    decreases n
  {
    if n >= 10 {
      var s := NatDigits(n);
      assert s[..|s| - 1] == NatDigits(n / 10);
      NatDigitsValue(n / 10);
    }
  }

  /** Reading back what `Itoa` wrote gives the number. */
  lemma AtoiItoa(n: int)
    ensures Atoi(Itoa(n)) == n
  {
    if n < 0 {
      var s := Itoa(n);
      assert s[1..] == NatDigits(-n);
      NatDigitsValue(-n);
    } else {
      var s := NatDigits(n);
      assert IsDigit(s[0]);
      NatDigitsValue(n);
    }
  }

  // --------------------------------------------------------------- next term

  /**
   * The term after (`year`, `term`): the second term is followed by the
   * first term of the next year, the first by the second of the same year;
   * any other term is invalid. The year is read with `Atoi`, so a
   * non-numeric year counts as 0.
   */
  function NextTerm(year: string, term: string): (r: Result<(string, string)>)
    ensures r.Err? <==> term != "1" && term != "2"
    ensures r.Err? ==> r.error == SchoolDataInvalid
  {
    if term == "2" then Ok((Itoa(Atoi(year) + 1), "1"))
    else if term == "1" then Ok((year, "2"))
    else Err(SchoolDataInvalid)
  }

  /** The position of a term on the calendar: two terms a year. */
  function TermIndex(year: int, term: string): int
  {
    2 * year + (if term == "2" then 1 else 0)
  }

  /**
   * On a year written by `Itoa`, the next term is exactly one step later
   * on the calendar, and it is again written by `Itoa`: rollovers count
   * terms one by one.
   */
  lemma NextTermSteps(n: int, term: string)
    requires term == "1" || term == "2"
    ensures var r := NextTerm(Itoa(n), term);
      r.Ok? && r.value.0 == Itoa(Atoi(r.value.0))
      && TermIndex(Atoi(r.value.0), r.value.1) == TermIndex(n, term) + 1
  {
    AtoiItoa(n);
    AtoiItoa(n + 1);
  }

  /** The next term is never the current one. */
  lemma NextTermDiffers(year: string, term: string)
    requires NextTerm(year, term).Ok?
    ensures NextTerm(year, term).value != (year, term)
  {
  }

  // ------------------------------------------------------------- class ladder

  const ClassYears: seq<string> := ["1", "2", "3", "4", "5", "6"]

  /**
   * A class moves up one grade level at the start of a new year; a
   * sixth-year class is closed instead. Any other level is left as it is.
   */
  function Promote(classYear: string, status: bool): (r: (string, bool))
  {
    if classYear == "1" then ("2", status)
    else if classYear == "2" then ("3", status)
    else if classYear == "3" then ("4", status)
    else if classYear == "4" then ("5", status)
    else if classYear == "5" then ("6", status)
    else if classYear == "6" then (classYear, true)
    else (classYear, status)
  }

  /**
   * The ladder stays on its six rungs and climbs one rung at a time;
   * only the sixth year closes the class, and nothing else changes it.
   */
  lemma PromoteLadder(k: nat, status: bool)
    requires k < |ClassYears|
    ensures k < 5 ==> Promote(ClassYears[k], status) == (ClassYears[k + 1], status)
    ensures k == 5 ==> Promote(ClassYears[k], status) == ("6", true)
  {
  }

  lemma PromoteOffLadder(classYear: string, status: bool)
    requires classYear !in ClassYears
    ensures Promote(classYear, status) == (classYear, status)
  {
  }

  /**
   * One open class at rollover to (`year`, `term`): a class already in the
   * new term is skipped (`None`); otherwise it moves to the new term, goes
   * up the ladder when the new term starts a year, and gets a fresh grid.
   * The rollover only fetches open classes, so the handler's test that the
   * class is not closed always holds.
   */
  function RollClass(c: ClassData, year: string, term: string): (r: Option<ClassData>)
    requires !c.status
    ensures r.None? <==> c.year == year && c.term == term
    ensures r.Some? ==> (r.value.year == year && r.value.term == term && r.value.slot == FreshGrid()
      && r.value.studentIdList == c.studentIdList && r.value.advisorId == c.advisorId && r.value.classRoom == c.classRoom)
    ensures r.Some? && term != "1" ==> r.value.classYear == c.classYear && r.value.status == c.status
    ensures r.Some? && term == "1" ==> (r.value.classYear, r.value.status) == Promote(c.classYear, c.status)
  {
    if c.year == year && c.term == term then None
    else
      var c1 := c.(year := year, term := term);
      var c2 := if c1.term == "1" then
                  var (cy, st) := Promote(c1.classYear, c1.status); c1.(classYear := cy, status := st)
                else c1;
      Some(c2.(slot := FreshGrid()))
  }

  /** Rolling a class twice into the same term does the work once. */
  lemma RollClassOnce(c: ClassData, year: string, term: string)
    requires !c.status && RollClass(c, year, term).Some?
    ensures var d := RollClass(c, year, term).value; !d.status ==> RollClass(d, year, term).None?
  {
  }

  // ---------------------------------------------------------- term entries

  /**
   * A student of a still-open class gets an empty term entry for the new
   * term unless one already exists (`None`: nothing to write).
   */
  function AddTermEntry(p: Student, year: string, term: string): (r: Option<Student>)
  {
    if (year, term) in TermKeys(p.termScore) then None
    else Some(p.(termScore := p.termScore + [TermScore(year, term, 0.0, 0, [])]))
  }

  /** How many entries of `keys` equal `k`. */
  function Occurrences(keys: seq<(string, string)>, k: (string, string)): nat
  {
    if keys == [] then 0 else Occurrences(keys[..|keys| - 1], k) + (if keys[|keys| - 1] == k then 1 else 0)
  }

  lemma {:induction false} OccurrencesZero(keys: seq<(string, string)>, k: (string, string))
    requires k !in keys
    ensures Occurrences(keys, k) == 0
    decreases |keys|
  {
    if keys != [] {
      assert k !in keys[..|keys| - 1];
      OccurrencesZero(keys[..|keys| - 1], k);
    }
  }

  /**
   * After the rollover a student has an entry for the new term, exactly
   * one if there was none, and the older entries are untouched.
   */
  lemma AddTermEntryOnce(p: Student, year: string, term: string)
    ensures var r := AddTermEntry(p, year, term);
      r.None? <==> (year, term) in TermKeys(p.termScore)
    ensures var r := AddTermEntry(p, year, term);
      r.Some? ==> (r.value.termScore[..|p.termScore|] == p.termScore
        && Occurrences(TermKeys(r.value.termScore), (year, term)) == 1
        && AddTermEntry(r.value, year, term).None?)
  {
    var r := AddTermEntry(p, year, term);
    if r.Some? {
      var keys := TermKeys(r.value.termScore);
      assert keys[..|keys| - 1] == TermKeys(p.termScore);
      OccurrencesZero(TermKeys(p.termScore), (year, term));
      assert keys[|keys| - 1] == (year, term);
    }
  }

  function TeachKeys(list: seq<TeachesEntry>): (r: seq<(string, string)>)
    ensures |r| == |list| && forall i :: 0 <= i < |list| ==> r[i] == (list[i].year, list[i].term)
  {
    seq(|list|, i requires 0 <= i < |list| => (list[i].year, list[i].term))
  }

  /**
   * A teacher without an entry for the new term gets a fresh grid and one
   * empty entry; a teacher who has one is skipped (`None`).
   */
  function RollTeacher(t: Teacher, year: string, term: string): (r: Option<Teacher>)
    ensures r.None? <==> (year, term) in TeachKeys(t.courseTeachesList)
    ensures r.Some? ==> (r.value.slot == FreshGrid()
      && r.value.courseTeachesList == t.courseTeachesList + [TeachesEntry([], year, term)]
      && r.value.(slot := t.slot, courseTeachesList := t.courseTeachesList) == t)
  {
    if (year, term) in TeachKeys(t.courseTeachesList) then None
    else Some(t.(slot := FreshGrid(), courseTeachesList := t.courseTeachesList + [TeachesEntry([], year, term)]))
  }

  /** Rolling a teacher twice into the same term adds one entry, not two. */
  lemma RollTeacherOnce(t: Teacher, year: string, term: string)
    requires RollTeacher(t, year, term).Some?
    ensures RollTeacher(RollTeacher(t, year, term).value, year, term).None?
  {
    var u := RollTeacher(t, year, term).value;
    assert TeachKeys(u.courseTeachesList)[|t.courseTeachesList|] == (year, term);
  }
}
