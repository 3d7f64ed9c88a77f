/**
 * The calendar and roster builders (src/parser.rs) over an already-parsed
 * `JsonData` record.
 */
module Parser {
  import opened Wrappers
  import opened Types

  // ---------------------------------------------------------------- calendar

  /** The first holiday entry for `week`, as the iterator's `find` returns it. */
  function FindHoliday(feiertage: seq<JsonHoliday>, week: u64): (r: Option<JsonHoliday>)
    ensures r.None? <==> forall i :: 0 <= i < |feiertage| ==> feiertage[i].woche != week
    ensures r.Some? ==> exists i :: 0 <= i < |feiertage| && feiertage[i] == r.value
                                   && r.value.woche == week
                                   && forall k :: 0 <= k < i ==> feiertage[k].woche != week
  {
    if |feiertage| == 0 then None
    else if feiertage[0].woche == week then Some(feiertage[0])
    else
      var r := FindHoliday(feiertage[1..], week);
      assert r.Some? ==> exists i :: 1 <= i < |feiertage| && feiertage[i] == r.value
                                     && forall k :: 0 <= k < i ==> feiertage[k].woche != week by {
        if r.Some? {
          var i :| 0 <= i < |feiertage[1..]| && feiertage[1..][i] == r.value
                   && forall k :: 0 <= k < i ==> feiertage[1..][k].woche != week;
          assert feiertage[i + 1] == r.value;
          assert forall k :: 1 <= k < i + 1 ==> feiertage[k] == feiertage[1..][k - 1];
        }
      }
      r
  }

  /**
   * Whether weekday index `j` is listed in `tage`, whose entries count days
   * from 1. The source's `day - 1` underflows on a listed 0; `GetWeeks`
   * requires that away.
   */
  function ListsDay(tage: seq<u64>, j: nat): (r: bool)
    ensures r <==> exists k :: 0 <= k < |tage| && tage[k] == j + 1
  {
    if |tage| == 0 then false
    else if tage[0] as int - 1 == j then true
    else ListsDay(tage[1..], j)
  }

  /** Every listed holiday day is at least 1, so that `day - 1` does not underflow. */
  predicate HolidayDaysNumbered(feiertage: seq<JsonHoliday>)
  {
    forall i, k :: 0 <= i < |feiertage| && 0 <= k < |feiertage[i].tage| ==> feiertage[i].tage[k] >= 1
  }

  /** The courses of an ordinary day, in the order they are created. */
  const StandardDay: seq<Course> := [
    Course(7, Curriculum, []),
    Course(7, Exkurs, []),
    Course(7, Zahnerhalt, []),
    Course(7, Zahnersatz, []),
    Course(16, Zahnerhalt, []),
    Course(16, Zahnersatz, [])
  ]

  /** `cs` without its courses of type `t`, order kept. */
  function Without(cs: seq<Course>, t: CourseType): (r: seq<Course>)
    ensures |r| <= |cs|
    ensures forall c :: c in r <==> c in cs && c.courseType != t
  {
    if |cs| == 0 then []
    else if cs[0].courseType == t then Without(cs[1..], t)
    else [cs[0]] + Without(cs[1..], t)
  }

  /** Removing a type that does not occur changes nothing. */
  lemma {:induction false} WithoutAbsent(cs: seq<Course>, t: CourseType)
    requires forall i :: 0 <= i < |cs| ==> cs[i].courseType != t
    ensures Without(cs, t) == cs
  {
    if |cs| > 0 {
      WithoutAbsent(cs[1..], t);
    }
  }

  /** The ordinary day without Curriculum is its last five courses. */
  lemma WithoutCurriculum()
    ensures Without(StandardDay, Curriculum) == StandardDay[1..]
  {
    WithoutAbsent(StandardDay[1..], Curriculum);
  }

  /**
   * The courses of weekday `j` of `week`: all six on an ordinary week; on a
   * week with a holiday entry, none on a listed day and otherwise the
   * ordinary day without its Curriculum course.
   */
  function PlannedCourses(feiertage: seq<JsonHoliday>, week: u64, j: nat): (cs: seq<Course>)
    ensures |cs| <= |StandardDay|
  {
    match FindHoliday(feiertage, week)
    case None => StandardDay
    case Some(entry) => if ListsDay(entry.tage, j) then [] else Without(StandardDay, Curriculum)
  }

  /** Builds one day the way the inner loop of `get_weeks` pushes its courses. */
  method BuildDay(feiertage: seq<JsonHoliday>, week: u64, j: nat) returns (day: Day)
    ensures day.courses == PlannedCourses(feiertage, week, j)
  {
    var courses: seq<Course> := [];
    var entry := FindHoliday(feiertage, week);
    if entry.Some? {
      if !ListsDay(entry.value.tage, j) {
        courses := courses + [Course(7, Exkurs, [])];
        courses := courses + [Course(7, Zahnerhalt, [])];
        courses := courses + [Course(7, Zahnersatz, [])];
        courses := courses + [Course(16, Zahnerhalt, [])];
        courses := courses + [Course(16, Zahnersatz, [])];
        assert courses == StandardDay[1..];
        WithoutCurriculum();
      }
      assert PlannedCourses(feiertage, week, j)
             == if ListsDay(entry.value.tage, j) then [] else Without(StandardDay, Curriculum);
    } else {
      courses := courses + [Course(7, Curriculum, [])];
      courses := courses + [Course(7, Exkurs, [])];
      courses := courses + [Course(7, Zahnerhalt, [])];
      courses := courses + [Course(7, Zahnersatz, [])];
      courses := courses + [Course(16, Zahnerhalt, [])];
      courses := courses + [Course(16, Zahnersatz, [])];
      assert courses == StandardDay;
    }
    day := Day(courses);
  }

  /**
   * `get_weeks`: one week per number from `kwAnfang` to `kwEnde`, ascending,
   * each with the planned courses on its five days. The range check is done
   * on `kwEnde + 1`, so only `kwAnfang > kwEnde + 1` aborts.
   */
  method GetWeeks(data: JsonData) returns (r: Result<seq<Week>, Panic>)
    requires data.wochen.kwEnde + 1 < U64_LIMIT
    requires HolidayDaysNumbered(data.feiertage)
    ensures r.Failure? <==> data.wochen.kwAnfang > data.wochen.kwEnde + 1
    ensures r.Failure? ==> r.error == WeekRangeReversed
    ensures r.Success? ==> |r.value| == data.wochen.kwEnde + 1 - data.wochen.kwAnfang
    ensures r.Success? ==> forall i :: 0 <= i < |r.value| ==> r.value[i].number == data.wochen.kwAnfang + i
    ensures r.Success? ==> forall i, j :: 0 <= i < |r.value| && 0 <= j < 5 ==>
              r.value[i].days[j].courses == PlannedCourses(data.feiertage, r.value[i].number, j)
  {
    var start := data.wochen.kwAnfang;
    var end := data.wochen.kwEnde + 1;
    if start > end {
      return Failure(WeekRangeReversed);
    }
    var weeks: seq<Week> := [];
    for i := start to end
      invariant |weeks| == i - start
      invariant forall w :: 0 <= w < |weeks| ==> weeks[w].number == start + w
      invariant forall w, j :: 0 <= w < |weeks| && 0 <= j < 5 ==>
                  weeks[w].days[j].courses == PlannedCourses(data.feiertage, weeks[w].number, j)
    {
      var days := new Day[5](_ => Day([]));
      for j := 0 to 5
        invariant forall k :: 0 <= k < j ==> days[k].courses == PlannedCourses(data.feiertage, i, k)
      {
        var day := BuildDay(data.feiertage, i, j);
        days[j] := day;
      }
      weeks := weeks + [Week(i, days[..])];
    }
    r := Success(weeks);
  }

  /** An ordinary week: every day holds the six courses, Curriculum first. */
  lemma OrdinaryWeekDay(feiertage: seq<JsonHoliday>, week: u64, j: nat)
    requires forall i :: 0 <= i < |feiertage| ==> feiertage[i].woche != week
    ensures PlannedCourses(feiertage, week, j) == StandardDay
    ensures |PlannedCourses(feiertage, week, j)| == 6
  {
  }

  /**
   * A week with a holiday entry has no Curriculum course on any day, even
   * when the entry lists no day; a listed day has no course at all, any
   * other day has the five remaining courses in their usual order.
   */
  lemma HolidayWeekDay(feiertage: seq<JsonHoliday>, week: u64, j: nat)
    requires exists i :: 0 <= i < |feiertage| && feiertage[i].woche == week
    ensures forall c :: c in PlannedCourses(feiertage, week, j) ==> c.courseType != Curriculum
    ensures ListsDay(FindHoliday(feiertage, week).value.tage, j) ==> PlannedCourses(feiertage, week, j) == []
    ensures !ListsDay(FindHoliday(feiertage, week).value.tage, j) ==>
              PlannedCourses(feiertage, week, j) == StandardDay[1..]
  {
    WithoutCurriculum();
  }

  /** Only the first entry for a week counts; later entries for it are ignored. */
  lemma FirstEntryWins(feiertage: seq<JsonHoliday>, entry: JsonHoliday, later: seq<JsonHoliday>, j: nat)
    ensures PlannedCourses(feiertage + [entry] + later, entry.woche, j)
            == PlannedCourses(feiertage + [entry], entry.woche, j)
  {
    var all := feiertage + [entry] + later;
    assert all == (feiertage + [entry]) + later;
    assert (feiertage + [entry])[|feiertage|] == entry;
    FindHolidayPrefix(feiertage + [entry], later, entry.woche);
  }

  /** A match inside a prefix is what `find` returns on the whole list. */
  lemma {:induction false} FindHolidayPrefix(front: seq<JsonHoliday>, back: seq<JsonHoliday>, week: u64)
    requires FindHoliday(front, week).Some?
    ensures FindHoliday(front + back, week) == FindHoliday(front, week)
  {
    if front[0].woche != week {
      assert (front + back)[1..] == front[1..] + back;
      FindHolidayPrefix(front[1..], back, week);
    }
  }

  /** Every course of every built day starts with an empty participant list. */
  lemma NoOneBooked(feiertage: seq<JsonHoliday>, week: u64, j: nat)
    ensures forall c :: c in PlannedCourses(feiertage, week, j) ==> c.participants == []
  {
  }

  // ----------------------------------------------------------------- rosters

  /** `get_students`: students numbered 1 to `studentenAnzahl`, ascending. */
  method GetStudents(data: JsonData) returns (students: seq<Student>)
    requires data.studentenAnzahl + 1 < U64_LIMIT
    ensures |students| == data.studentenAnzahl
    ensures forall i :: 0 <= i < |students| ==> students[i].number == i + 1
  {
    var count := data.studentenAnzahl + 1;
    students := [];
    for i := 1 to count
      invariant |students| == i - 1
      invariant forall k :: 0 <= k < |students| ==> students[k].number == k + 1
    {
      students := students + [Student(i)];
    }
  }

  /** Whether some student of the roster has `number`. */
  predicate Enrolled(students: seq<Student>, number: u64)
  {
    exists k :: 0 <= k < |students| && students[k].number == number
  }

  /** On the roster that `get_students` builds, exactly the numbers 1 to n are enrolled. */
  lemma EnrolledIffInRange(students: seq<Student>, number: u64)
    requires forall i :: 0 <= i < |students| ==> students[i].number == i + 1
    ensures Enrolled(students, number) <==> 1 <= number <= |students|
  {
    if 1 <= number <= |students| {
      assert students[number - 1].number == number;
    }
  }

  /** The inner search of the group builders: the first roster entry with `number`. */
  method FindStudent(students: seq<Student>, number: u64) returns (found: Option<Student>)
    ensures found.Some? <==> Enrolled(students, number)
    ensures found.Some? ==> found.value == Student(number)
  {
    found := None;
    for k := 0 to |students|
      invariant forall m :: 0 <= m < k ==> students[m].number != number
    {
      if students[k].number == number {
        found := Some(students[k]);
        break;
      }
    }
  }

  /** The members a parsed id list yields: ids not on the roster are dropped, order kept. */
  function Known(ids: seq<u64>, students: seq<Student>): (members: seq<Student>)
    ensures |members| <= |ids|
    ensures forall i :: 0 <= i < |members| ==> Enrolled(students, members[i].number)
  {
    if |ids| == 0 then []
    else Known(ids[..|ids| - 1], students)
         + (if Enrolled(students, ids[|ids| - 1]) then [Student(ids[|ids| - 1])] else [])
  }

  /** No more members than ids, and a student is a member exactly when listed and enrolled. */
  lemma {:induction false} KnownMembers(ids: seq<u64>, students: seq<Student>, s: Student)
    ensures |Known(ids, students)| <= |ids|
    ensures s in Known(ids, students) <==> s.number in ids && Enrolled(students, s.number)
  {
    if |ids| > 0 {
      var init := ids[..|ids| - 1];
      KnownMembers(init, students, s);
      assert ids == init + [ids[|ids| - 1]];
    }
  }

  /** When every id is on the roster, nothing is dropped: member `i` is id `i`. */
  lemma {:induction false} KnownWhenAllEnrolled(ids: seq<u64>, students: seq<Student>)
    requires forall i :: 0 <= i < |ids| ==> Enrolled(students, ids[i])
    ensures |Known(ids, students)| == |ids|
    ensures forall i :: 0 <= i < |ids| ==> Known(ids, students)[i] == Student(ids[i])
  {
    if |ids| > 0 {
      KnownWhenAllEnrolled(ids[..|ids| - 1], students);
    }
  }

  /** The members of one parsed group, looked up id by id. */
  method LookupMembers(ids: seq<u64>, students: seq<Student>) returns (participants: seq<Student>)
    ensures participants == Known(ids, students)
  {
    participants := [];
    for n := 0 to |ids|
      invariant participants == Known(ids[..n], students)
    {
      var found := FindStudent(students, ids[n]);
      assert ids[..n + 1][..n] == ids[..n];
      if found.Some? {
        participants := participants + [found.value];
      }
    }
    assert ids[..|ids|] == ids;
  }

  /** One group per parsed group, in input order, tagged `tag`. */
  method BuildGroups(tag: CourseType, parsed: seq<seq<u64>>, students: seq<Student>) returns (groups: seq<Group>)
    ensures |groups| == |parsed|
    ensures forall i :: 0 <= i < |parsed| ==> groups[i] == Group(tag, Known(parsed[i], students))
  {
    groups := [];
    for i := 0 to |parsed|
      invariant |groups| == i
      invariant forall k :: 0 <= k < i ==> groups[k] == Group(tag, Known(parsed[k], students))
    {
      var participants := LookupMembers(parsed[i], students);
      groups := groups + [Group(tag, participants)];
    }
  }

  /** `get_curriculum_groups`: the parsed Curriculum groups over the roster. */
  method GetCurriculumGroups(data: JsonData, students: seq<Student>) returns (groups: seq<Group>)
    ensures |groups| == |data.curriculumGruppen|
    ensures forall i :: 0 <= i < |groups| ==>
              groups[i] == Group(Curriculum, Known(data.curriculumGruppen[i], students))
  {
    groups := BuildGroups(Curriculum, data.curriculumGruppen, students);
  }

  /** `get_exkurs_groups`: the parsed Exkurs groups over the roster. */
  method GetExkursGroups(data: JsonData, students: seq<Student>) returns (groups: seq<Group>)
    ensures |groups| == |data.exkursGruppen|
    ensures forall i :: 0 <= i < |groups| ==>
              groups[i] == Group(Exkurs, Known(data.exkursGruppen[i], students))
  {
    groups := BuildGroups(Exkurs, data.exkursGruppen, students);
  }

  /** One one-member group per student, in roster order, tagged `tag`. */
  function Singletons(tag: CourseType, students: seq<Student>): (r: seq<Group>)
    ensures |r| == |students|
  {
    seq(|students|, i requires 0 <= i < |students| => Group(tag, [students[i]]))
  }

  lemma SingletonsSnoc(tag: CourseType, students: seq<Student>, s: Student)
    ensures Singletons(tag, students + [s]) == Singletons(tag, students) + [Group(tag, [s])]
  {
  }

  /** All members of `groups`, group after group. */
  function Members(groups: seq<Group>): seq<Student>
  {
    if |groups| == 0 then [] else groups[0].participants + Members(groups[1..])
  }

  /** Flattening the one-member groups gives back the roster. */
  lemma {:induction false} SingletonsMembers(tag: CourseType, students: seq<Student>)
    ensures Members(Singletons(tag, students)) == students
  {
    if |students| > 0 {
      var gs := Singletons(tag, students);
      assert gs[1..] == Singletons(tag, students[1..]);
      SingletonsMembers(tag, students[1..]);
      assert students == [students[0]] + students[1..];
    }
  }

  /**
   * `get_zahnersatz_groups`: one-member groups tagged Zahnerhalt; the first
   * `len / 2` (rounded down) form the first half and the rest the second.
   */
  method GetZahnersatzGroups(students: seq<Student>) returns (firstHalf: seq<Group>, secondHalf: seq<Group>)
    ensures |firstHalf| == |students| / 2
    ensures firstHalf + secondHalf == Singletons(Zahnerhalt, students)
  {
    firstHalf, secondHalf := [], [];
    var position := 0;
    for k := 0 to |students|
      invariant position == k
      invariant firstHalf + secondHalf == Singletons(Zahnerhalt, students[..k])
      invariant |firstHalf| == if k < |students| / 2 then k else |students| / 2
    {
      var group := Group(Zahnerhalt, [students[k]]);
      assert students[..k + 1] == students[..k] + [students[k]];
      SingletonsSnoc(Zahnerhalt, students[..k], students[k]);
      if position < |students| / 2 {
        firstHalf := firstHalf + [group];
      } else {
        secondHalf := secondHalf + [group];
      }
      position := position + 1;
    }
    assert students[..|students|] == students;
  }

  /** `get_zahnerhalt_groups`: one-member groups tagged Zahnersatz, in roster order. */
  method GetZahnerhaltGroups(students: seq<Student>) returns (groups: seq<Group>)
    ensures groups == Singletons(Zahnersatz, students)
  {
    groups := [];
    for k := 0 to |students|
      invariant groups == Singletons(Zahnersatz, students[..k])
    {
      assert students[..k + 1] == students[..k] + [students[k]];
      SingletonsSnoc(Zahnersatz, students[..k], students[k]);
      groups := groups + [Group(Zahnersatz, [students[k]])];
    }
    assert students[..|students|] == students;
  }

  /** The work stations available to the two clinic courses. */
  function ZahnerhaltSeatCount(): (seats: u8)
    ensures seats == 11
  {
    11
  }

  function ZahnersatzSeatCount(): (seats: u8)
    ensures seats == 10
  {
    10
  }
}
