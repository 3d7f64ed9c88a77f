/**
 * The hard-coded setup and the driver of src/main.rs: thirteen weeks whose
 * days hold no course, a roster of 26 students, nine Curriculum pairs, and
 * one Curriculum rotation per day, weeks in order and days in order.
 */
module Program {
  import opened Wrappers
  import opened Types
  import Occupation
  import Rotation

  /** The calendar of `main.rs`: weeks 1 to 13, every day without courses. */
  method GetWeeks() returns (r: Option<seq<Week>>)
    ensures r.Some?
    ensures |r.value| == 13
    ensures forall i :: 0 <= i < 13 ==> r.value[i].number == i + 1
    ensures forall i, j :: 0 <= i < 13 && 0 <= j < 5 ==> r.value[i].days[j] == Day([])
  {
    var weeks: seq<Week> := [];
    for i := 1 to 14
      invariant |weeks| == i - 1
      invariant forall w :: 0 <= w < |weeks| ==> weeks[w].number == w + 1
      invariant forall w, j :: 0 <= w < |weeks| && 0 <= j < 5 ==> weeks[w].days[j] == Day([])
    {
      var days := new Day[5](_ => Day([]));
      // Only the first four days are assigned; the fifth keeps its default.
      for j := 0 to 4
        invariant forall k :: 0 <= k < 5 ==> days[k] == Day([])
      {
        days[j] := Day([]);
      }
      weeks := weeks + [Week(i, days[..])];
    }
    r := Some(weeks);
  }

  /** The roster of `main.rs`: students 1 to 26. */
  method GetStudents() returns (students: seq<Student>)
    ensures |students| == 26
    ensures forall i :: 0 <= i < 26 ==> students[i].number == i + 1
  {
    students := [];
    for i := 1 to 27
      invariant |students| == i - 1
      invariant forall k :: 0 <= k < |students| ==> students[k].number == k + 1
    {
      students := students + [Student(i)];
    }
  }

  /** Nine Curriculum groups of consecutive pairs, (1, 2) to (17, 18), drawn from the roster in order. */
  method GetCurriculumGroups() returns (groups: seq<Group>)
    ensures |groups| == 9
    ensures forall g :: 0 <= g < 9 ==> groups[g] == Group(Curriculum, [Student(2 * g + 1), Student(2 * g + 2)])
  {
    groups := [];
    var students := GetStudents();
    var next := 0;  // the roster iterator's position
    for i := 0 to 3
      invariant |groups| == 3 * i && next == 2 * |groups|
      invariant forall g :: 0 <= g < |groups| ==> groups[g] == Group(Curriculum, [Student(2 * g + 1), Student(2 * g + 2)])
    {
      for j := 0 to 3
        invariant |groups| == 3 * i + j && next == 2 * |groups|
        invariant forall g :: 0 <= g < |groups| ==> groups[g] == Group(Curriculum, [Student(2 * g + 1), Student(2 * g + 2)])
      {
        var first := students[next];
        var second := students[next + 1];
        next := next + 2;
        groups := groups + [Group(Curriculum, [first, second])];
      }
    }
  }

  /** The Exkurs groups of `main.rs`: none. */
  function GetExkursGroups(): (groups: seq<Group>)
    ensures |groups| == 0
  {
    []
  }

  /** The start of the Curriculum course, against which a group's occupancy is checked. */
  const CurriculumSlot: Course := Course(7, Curriculum, [])

  /** Whether a Curriculum group is occupied on `day` at the Curriculum start hour. */
  function CurriculumOccupied(g: Group, day: Day): (occupied: bool)
    ensures occupied ==> |g.participants| > 0 && |day.courses| > 0
  {
    Occupation.GroupIsOccupied(g, CurriculumSlot, day)
  }

  /** One call of the rotation: a week and a weekday index. */
  datatype Visit = Visit(week: Week, dayIndex: Weekday)

  /** Where the walk aborted and why. */
  datatype Halt = Halt(week: u64, dayIndex: Weekday, panic: Panic)

  /** The five visits of a week, Monday to Friday. */
  function WeekVisits(w: Week): (vs: seq<Visit>)
    ensures |vs| == 5
  {
    [Visit(w, 0), Visit(w, 1), Visit(w, 2), Visit(w, 3), Visit(w, 4)]
  }

  /** The visits of a calendar: the weeks in order, the days in order within each. */
  function Visits(weeks: seq<Week>): (vs: seq<Visit>)
    ensures |vs| == 5 * |weeks|
  {
    if |weeks| == 0 then [] else WeekVisits(weeks[0]) + Visits(weeks[1..])
  }

  /** Visit 5w + d is weekday d of week w: weeks in order, Monday to Friday within each. */
  lemma {:induction false} VisitsOrder(weeks: seq<Week>, w: nat, d: Weekday)
    requires w < |weeks|
    ensures Visits(weeks)[5 * w + d] == Visit(weeks[w], d)
  {
    if w > 0 {
      VisitsOrder(weeks[1..], w - 1, d);
      assert Visits(weeks)[5 * w + d] == Visits(weeks[1..])[5 * (w - 1) + d];
    }
  }

  /** The Curriculum queue after the visits, or where the first abort happens. */
  function Replay(q: seq<Group>, vs: seq<Visit>): (r: Result<seq<Group>, Halt>)
    ensures r.Success? ==> |r.value| == |q|
    ensures r.Failure? ==> r.error.panic == UnwrapOnNone
    decreases |vs|
  {
    if |vs| == 0 then Success(q)
    else
      var v := vs[0];
      var step := Rotation.Step(Curriculum, v.week, v.week.days[v.dayIndex], q, CurriculumOccupied);
      if step.Failure? then Failure(Halt(v.week.number, v.dayIndex, step.error))
      else Replay(step.value, vs[1..])
  }

  /** The walk never loses or duplicates a group. */
  lemma {:induction false} ReplayKeepsUnits(q: seq<Group>, vs: seq<Visit>)
    requires Replay(q, vs).Success?
    ensures multiset(Replay(q, vs).value) == multiset(q)
    decreases |vs|
  {
    if |vs| > 0 {
      var v := vs[0];
      Rotation.StepKeepsUnits(Curriculum, v.week, v.week.days[v.dayIndex], q, CurriculumOccupied);
      ReplayKeepsUnits(Rotation.Step(Curriculum, v.week, v.week.days[v.dayIndex], q, CurriculumOccupied).value, vs[1..]);
    }
  }

  /** Replaying a visit followed by more visits. */
  lemma ReplayFirst(q: seq<Group>, v: Visit, rest: seq<Visit>)
    ensures var step := Rotation.Step(Curriculum, v.week, v.week.days[v.dayIndex], q, CurriculumOccupied);
            Replay(q, [v] + rest)
            == if step.Failure? then Failure(Halt(v.week.number, v.dayIndex, step.error)) else Replay(step.value, rest)
  {
    assert ([v] + rest)[0] == v && ([v] + rest)[1..] == rest;
  }

  lemma VisitsUnfold(weeks: seq<Week>, w: nat)
    requires w < |weeks|
    ensures Visits(weeks[w..]) == WeekVisits(weeks[w])[0..] + Visits(weeks[w + 1..])
  {
    assert weeks[w..][1..] == weeks[w + 1..];
    assert WeekVisits(weeks[w])[0..] == WeekVisits(weeks[w]);
  }

  lemma VisitsAt(week: Week, d: Weekday, later: seq<Visit>)
    ensures WeekVisits(week)[d..] + later == [Visit(week, d)] + (WeekVisits(week)[d + 1..] + later)
  {
    assert WeekVisits(week)[d..] == [Visit(week, d)] + WeekVisits(week)[d + 1..];
  }

  /** The nested loops of `main` over a calendar, rotating the Curriculum queue once per day. */
  method Walk(weeks: seq<Week>, queue: Rotation.LinkedList<Group>) returns (outcome: Result<seq<Group>, Halt>)
    modifies queue
    ensures outcome == Replay(old(queue.units), Visits(weeks))
    ensures outcome.Success? ==> queue.units == outcome.value
  {
    ghost var target := Replay(queue.units, Visits(weeks));
    assert weeks[0..] == weeks;
    for w := 0 to |weeks|
      invariant target == Replay(queue.units, Visits(weeks[w..]))
    {
      var week := weeks[w];
      VisitsUnfold(weeks, w);
      for d := 0 to 5
        invariant target == Replay(queue.units, WeekVisits(week)[d..] + Visits(weeks[w + 1..]))
      {
        var day := week.days[d];
        ghost var before := queue.units;
        ghost var rest := WeekVisits(week)[d + 1..] + Visits(weeks[w + 1..]);
        VisitsAt(week, d, Visits(weeks[w + 1..]));
        ReplayFirst(before, Visit(week, d), rest);
        var result := Rotation.DistributeCourse(Curriculum, week, day, queue, CurriculumOccupied);
        if result.Fail? {
          return Failure(Halt(week.number, d, result.error));
        }
      }
      assert WeekVisits(week)[5..] + Visits(weeks[w + 1..]) == Visits(weeks[w + 1..]);
    }
    assert Visits(weeks[|weeks|..]) == [];
    outcome := Success(queue.units);
  }

  /**
   * A calendar whose first day holds no course aborts on that day: every
   * group is free there, the occupied prefix is empty and `pop_back` on it
   * yields nothing to unwrap.
   */
  lemma FreeFirstDayAborts(q: seq<Group>, weeks: seq<Week>)
    requires |weeks| >= 1 && weeks[0].days[0] == Day([])
    ensures Replay(q, Visits(weeks)) == Failure(Halt(weeks[0].number, 0, UnwrapOnNone))
  {
    var vs := Visits(weeks);
    assert vs[0] == Visit(weeks[0], 0);
    Rotation.StepAbortsIffFrontFree(weeks[0], Day([]), q, CurriculumOccupied);
  }

  /**
   * `main`: builds the calendar, the groups and the roster, then walks the
   * calendar. With no course on any day, the first rotation aborts.
   */
  method Run() returns (outcome: Result<seq<Group>, Halt>)
    ensures outcome == Failure(Halt(1, 0, UnwrapOnNone))
  {
    var weeks := GetWeeks();
    var groups := GetCurriculumGroups();
    var exkursGroups := GetExkursGroups();
    var students := GetStudents();
    var curriculum := new Rotation.LinkedList(groups);
    outcome := Walk(weeks.value, curriculum);
    FreeFirstDayAborts(groups, weeks.value);
  }
}
