/**
 * The occupancy check (src/implementations.rs, `Occupation` for `Student`
 * and `Group`): read-only searches over one day's courses.
 */
module Occupation {
  import opened Types

  /** Whether `s` is in `ps`; the derived equality compares numbers only. */
  function Lists(ps: seq<Student>, s: Student): (r: bool)
    ensures r <==> exists k :: 0 <= k < |ps| && ps[k].number == s.number
  {
    if |ps| == 0 then false
    else if ps[0] == s then true
    else Lists(ps[1..], s)
  }

  /** The scan over the day's courses that start at `beginning`, stopping at the first hit. */
  function BookedAt(s: Student, beginning: u8, courses: seq<Course>): (r: bool)
    ensures r <==> exists i :: 0 <= i < |courses| && courses[i].beginning == beginning
                                && Lists(courses[i].participants, s)
  {
    if |courses| == 0 then false
    else if courses[0].beginning == beginning && Lists(courses[0].participants, s) then true
    else BookedAt(s, beginning, courses[1..])
  }

  /**
   * `Student::is_occupied`: some course of `day` starting at the hour of
   * `course` lists a student with the same number. Only `course.beginning`
   * is consulted, never its type.
   */
  function StudentIsOccupied(s: Student, course: Course, day: Day): (r: bool)
    ensures r <==> exists i, k :: 0 <= i < |day.courses| && day.courses[i].beginning == course.beginning
                                   && 0 <= k < |day.courses[i].participants|
                                   && day.courses[i].participants[k].number == s.number
  {
    BookedAt(s, course.beginning, day.courses)
  }

  /** The scan over a group's members, stopping at the first occupied one. */
  function AnyOccupied(ps: seq<Student>, course: Course, day: Day): (r: bool)
    ensures r <==> exists k :: 0 <= k < |ps| && StudentIsOccupied(ps[k], course, day)
  {
    if |ps| == 0 then false
    else if StudentIsOccupied(ps[0], course, day) then true
    else AnyOccupied(ps[1..], course, day)
  }

  /** `Group::is_occupied`: at least one member is occupied; an empty group never is. */
  function GroupIsOccupied(g: Group, course: Course, day: Day): (r: bool)
    ensures r <==> exists k :: 0 <= k < |g.participants| && StudentIsOccupied(g.participants[k], course, day)
    ensures g.participants == [] ==> !r
  {
    AnyOccupied(g.participants, course, day)
  }

  /** The course being filled is itself part of the scan when it belongs to the day. */
  lemma OwnCourseCounts(s: Student, course: Course, day: Day)
    requires course in day.courses && s in course.participants
    ensures StudentIsOccupied(s, course, day)
  {
    var i :| 0 <= i < |day.courses| && day.courses[i] == course;
    var k :| 0 <= k < |course.participants| && course.participants[k] == s;
    assert day.courses[i].participants[k].number == s.number;
  }

  /** A course with another start hour, wherever it is inserted into the day, never changes the answer. */
  lemma OtherHoursIgnored(s: Student, course: Course, day: Day, at: nat, extra: Course)
    requires at <= |day.courses| && extra.beginning != course.beginning
    ensures StudentIsOccupied(s, course, Day(day.courses[..at] + [extra] + day.courses[at..]))
            == StudentIsOccupied(s, course, day)
  {
    if StudentIsOccupied(s, course, day) {
      HitSurvivesInsert(s, course, day.courses, at, extra);
    }
    if StudentIsOccupied(s, course, Day(day.courses[..at] + [extra] + day.courses[at..])) {
      HitBesideInsert(s, course, day.courses, at, extra);
    }
  }

  lemma HitSurvivesInsert(s: Student, course: Course, cs: seq<Course>, at: nat, extra: Course)
    requires at <= |cs| && StudentIsOccupied(s, course, Day(cs))
    ensures StudentIsOccupied(s, course, Day(cs[..at] + [extra] + cs[at..]))
  {
    var cs' := cs[..at] + [extra] + cs[at..];
    var i, k :| 0 <= i < |cs| && cs[i].beginning == course.beginning
                && 0 <= k < |cs[i].participants| && cs[i].participants[k].number == s.number;
    var i' := if i < at then i else i + 1;
    assert cs'[i'] == cs[i];
    assert cs'[i'].participants[k].number == s.number;
  }

  lemma HitBesideInsert(s: Student, course: Course, cs: seq<Course>, at: nat, extra: Course)
    requires at <= |cs| && extra.beginning != course.beginning
    requires StudentIsOccupied(s, course, Day(cs[..at] + [extra] + cs[at..]))
    ensures StudentIsOccupied(s, course, Day(cs))
  {
    var cs' := cs[..at] + [extra] + cs[at..];
    var i, k :| 0 <= i < |cs'| && cs'[i].beginning == course.beginning
                && 0 <= k < |cs'[i].participants| && cs'[i].participants[k].number == s.number;
    assert i != at;
    var j := if i < at then i else i - 1;
    assert cs[j] == cs'[i];
    assert cs[j].participants[k].number == s.number;
  }

  /** A one-member group is occupied exactly when its member is. */
  lemma SingletonGroup(t: CourseType, s: Student, course: Course, day: Day)
    ensures GroupIsOccupied(Group(t, [s]), course, day) == StudentIsOccupied(s, course, day)
  {
    assert [s][0] == s;
  }
}

/**
 * The fixed-width text cells (src/implementations.rs, the `Display` impls).
 * Formatter errors are not modelled: every write succeeds and the output is
 * the string written.
 */
module Display {
  import opened Wrappers
  import opened Types

  /** The label of a course type, padded to ten characters. */
  function CourseTypeLabel(t: CourseType): (s: string)
    ensures |s| == 10
  {
    match t
    case Curriculum => "Curriculum"
    case Exkurs => "Exkurs    "
    case Zahnerhalt => "Zahnerhalt"
    case Zahnersatz => "Zahnersatz"
  }

  /** Different course types have different labels. */
  lemma LabelsDistinct(t: CourseType, u: CourseType)
    requires t != u
    ensures CourseTypeLabel(t) != CourseTypeLabel(u)
  {
    assert CourseTypeLabel(t)[0] != CourseTypeLabel(u)[0] || CourseTypeLabel(t)[6] != CourseTypeLabel(u)[6];
  }

  predicate IsDigits(s: string) {
    forall i :: 0 <= i < |s| ==> '0' <= s[i] <= '9'
  }

  function DigitChar(d: nat): (c: char)
    requires d < 10
  {
    (d + '0' as int) as char
  }

  /** The decimal text of `n`, as `{}` writes it. */
  function Decimal(n: nat): (s: string)
    ensures |s| >= 1 && IsDigits(s)
    ensures s[0] == '0' ==> n == 0
    decreases n
  {
    if n < 10 then [DigitChar(n)] else Decimal(n / 10) + [DigitChar(n % 10)]
  }

  /** The number a string of decimal digits denotes. */
  function DecimalValue(s: string): nat
    requires IsDigits(s)
  {
    if |s| == 0 then 0 else 10 * DecimalValue(s[..|s| - 1]) + (s[|s| - 1] as int - '0' as int)
  }

  lemma {:induction false} DecimalRoundTrip(n: nat)
    ensures DecimalValue(Decimal(n)) == n
    decreases n
  {
    if n >= 10 {
      var s := Decimal(n);
      assert s[..|s| - 1] == Decimal(n / 10);
      DecimalRoundTrip(n / 10);
    }
  }

  /** One digit below ten, two digits from ten to ninety-nine. */
  lemma DecimalWidth(n: nat)
    ensures n < 10 <==> |Decimal(n)| == 1
    ensures 10 <= n < 100 ==> |Decimal(n)| == 2
  {
  }

  /** `Display for Student`: a leading space below ten, the number, then a comma. */
  function StudentText(s: Student): (r: string)
    ensures |r| >= 3 && r[|r| - 1] == ','
    ensures (s.number < 10) == (r[0] == ' ')
  {
    DecimalWidth(s.number);
    (if s.number < 10 then " " else "") + Decimal(s.number) + ","
  }

  /** Reads a cell back: drops a leading space and the trailing comma, then reads the digits. */
  function ReadStudent(r: string): Option<Student>
  {
    if |r| == 0 || r[|r| - 1] != ',' then None
    else
      var digits := if |r| > 1 && r[0] == ' ' then r[1..|r| - 1] else r[..|r| - 1];
      if |digits| == 0 || !IsDigits(digits) || (|digits| > 1 && digits[0] == '0') || DecimalValue(digits) >= U64_LIMIT then None
      else Some(Student(DecimalValue(digits)))
  }

  lemma StudentTextRoundTrip(s: Student)
    ensures ReadStudent(StudentText(s)) == Some(s)
  {
    var r := StudentText(s);
    var d := Decimal(s.number);
    DecimalRoundTrip(s.number);
    if s.number < 10 {
      assert r[1..|r| - 1] == d;
    } else {
      assert r[..|r| - 1] == d;
    }
  }

  /** Every student numbered below 100 takes exactly three characters. */
  lemma StudentTextWidth(s: Student)
    requires s.number < 100
    ensures |StudentText(s)| == 3
  {
    DecimalWidth(s.number);
  }

  const CellCount: nat := 14
  const EmptyCell: string := "   "

  /** Cell `i` of a participant row: member `i`, or three spaces past the end. */
  function Cell(ps: seq<Student>, i: nat): (c: string)
  {
    if i < |ps| then StudentText(ps[i]) else EmptyCell
  }

  /** The first `n` cells, left to right. */
  function Row(ps: seq<Student>, n: nat): (row: string)
    ensures |row| >= 3 * n
  {
    if n == 0 then "" else Row(ps, n - 1) + Cell(ps, n - 1)
  }

  /** Cell `i` of `ps` sits at characters `3 * i` to `3 * i + 3` of `row`, for every `i < n`. */
  ghost predicate CellsInPlace(row: string, ps: seq<Student>, n: nat)
  {
    |row| == 3 * n && forall i :: 0 <= i < n ==> row[3 * i..3 * i + 3] == Cell(ps, i)
  }

  /** With members numbered below 100, the first `n` cells are three characters each, in place. */
  lemma RowLayout(ps: seq<Student>, n: nat)
    requires forall k :: 0 <= k < |ps| && k < n ==> ps[k].number < 100
    ensures CellsInPlace(Row(ps, n), ps, n)
  {
    for i := 0 to n
      invariant CellsInPlace(Row(ps, i), ps, i)
    {
      CellWidth(ps, i);
      ExtendInPlace(Row(ps, i), ps, i);
    }
  }

  lemma CellWidth(ps: seq<Student>, k: nat)
    requires k < |ps| ==> ps[k].number < 100
    ensures |Cell(ps, k)| == 3
  {
    if k < |ps| { StudentTextWidth(ps[k]); }
  }

  lemma ExtendInPlace(prev: string, ps: seq<Student>, m: nat)
    requires CellsInPlace(prev, ps, m) && |Cell(ps, m)| == 3
    ensures CellsInPlace(prev + Cell(ps, m), ps, m + 1)
  {
    var row := prev + Cell(ps, m);
    forall i | 0 <= i < m + 1
      ensures row[3 * i..3 * i + 3] == Cell(ps, i)
    {
      if i < m {
        assert row[3 * i..3 * i + 3] == prev[3 * i..3 * i + 3];
      } else {
        assert row[3 * i..3 * i + 3] == row[|prev|..];
      }
    }
  }

  /** The first `n` cells depend only on the first `n` members. */
  lemma RowDependsOnPrefix(ps: seq<Student>, qs: seq<Student>, n: nat)
    requires n <= |ps| && n <= |qs| && ps[..n] == qs[..n]
    ensures Row(ps, n) == Row(qs, n)
  {
    for i := 0 to n
      invariant Row(ps, i) == Row(qs, i)
    {
      assert ps[i] == ps[..n][i] && qs[i] == qs[..n][i];
      RowStep(ps, qs, i);
    }
  }

  /** Rows that agree on their first `i` cells and on member `i` agree on `i + 1` cells. */
  lemma RowStep(ps: seq<Student>, qs: seq<Student>, i: nat)
    requires i < |ps| && i < |qs| && ps[i] == qs[i]
    requires Row(ps, i) == Row(qs, i)
    ensures Row(ps, i + 1) == Row(qs, i + 1)
  {
    assert Cell(ps, i) == Cell(qs, i);
  }

  /** Members past the first `n` are never printed. */
  lemma RowIgnoresLaterMembers(ps: seq<Student>, n: nat)
    requires n <= |ps|
    ensures Row(ps, n) == Row(ps[..n], n)
  {
    RowDependsOnPrefix(ps, ps[..n], n);
  }

  /**
   * `Display for StudentPrinter`: fourteen cells written in turn while the
   * participant iterator is advanced one member per cell.
   */
  method FormatStudents(ps: seq<Student>) returns (out: string)
    ensures out == Row(ps, CellCount)
  {
    out := "";
    var next := 0;
    for i := 0 to CellCount
      invariant out == Row(ps, i)
      invariant next == if i < |ps| then i else |ps|
    {
      if next < |ps| {
        assert Cell(ps, i) == StudentText(ps[next]);
        out := out + StudentText(ps[next]);
        next := next + 1;
      } else {
        assert Cell(ps, i) == EmptyCell;
        out := out + EmptyCell;
      }
    }
  }

  /** `Display for Group`: the same fourteen cells over the group's members. */
  method FormatGroup(g: Group) returns (out: string)
    ensures out == Row(g.participants, CellCount)
  {
    out := FormatStudents(g.participants);
  }
}
