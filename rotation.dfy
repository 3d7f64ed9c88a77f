/**
 * The rotation step `distribute_course` (src/main.rs): count the prefix of
 * the queue whose units are all occupied, then rearrange the queue in place
 * with `split_off`, `pop_back` and `append`. The unit type is generic and
 * occupancy is a predicate on a unit and the day.
 */
module Rotation {
  import opened Wrappers
  import opened Types

  /** A linked list of units with the standard operations the step uses, over a sequence. */
  class LinkedList<T> {
    var units: seq<T>

    constructor (init: seq<T>)
      ensures units == init
    {
      units := init;
    }

    /** Keeps the first `at` units and returns the rest as a new list. */
    method SplitOff(at: nat) returns (rest: LinkedList<T>)
      requires at <= |units|
      modifies this
      ensures fresh(rest)
      ensures units == old(units[..at]) && rest.units == old(units[at..])
    {
      rest := new LinkedList(units[at..]);
      units := units[..at];
    }

    /** Removes and returns the last unit, or `None` when the list is empty. */
    method PopBack() returns (last: Option<T>)
      modifies this
      ensures old(units) == [] ==> last == None && units == []
      ensures old(units) != [] ==> last == Some(old(units)[|old(units)| - 1])
                                   && units == old(units)[..|old(units)| - 1]
    {
      if units == [] {
        last := None;
      } else {
        last := Some(units[|units| - 1]);
        units := units[..|units| - 1];
      }
    }

    method PushBack(x: T)
      modifies this
      ensures units == old(units) + [x]
    {
      units := units + [x];
    }

    /** Moves every unit of `other` to the back of this list, leaving `other` empty. */
    method Append(other: LinkedList<T>)
      requires other != this
      modifies this, other
      ensures units == old(units) + old(other.units) && other.units == []
    {
      units := units + other.units;
      other.units := [];
    }
  }

  /** The length of the longest prefix of `q` whose units are all occupied on `day`. */
  function OccupiedPrefix<T>(q: seq<T>, occupied: (T, Day) -> bool, day: Day): (k: nat)
    ensures k <= |q|
    ensures forall i :: 0 <= i < k ==> occupied(q[i], day)
    ensures k < |q| ==> !occupied(q[k], day)
  {
    if |q| == 0 || !occupied(q[0], day) then 0 else 1 + OccupiedPrefix(q[1..], occupied, day)
  }

  /** The counting loop of `distribute_course`: it stops at the first free unit. */
  method CountOccupiedPrefix<T>(q: seq<T>, occupied: (T, Day) -> bool, day: Day) returns (splitter: nat)
    ensures splitter == OccupiedPrefix(q, occupied, day)
  {
    splitter := 0;
    for i := 0 to |q|
      invariant splitter == i
      invariant forall m :: 0 <= m < i ==> occupied(q[m], day)
    {
      if occupied(q[i], day) {
        splitter := splitter + 1;
      } else {
        break;
      }
    }
    PrefixUnique(q, occupied, day, splitter);
  }

  /** The three properties of `OccupiedPrefix` determine it. */
  lemma PrefixUnique<T>(q: seq<T>, occupied: (T, Day) -> bool, day: Day, k: nat)
    requires k <= |q|
    requires forall i :: 0 <= i < k ==> occupied(q[i], day)
    requires k < |q| ==> !occupied(q[k], day)
    ensures k == OccupiedPrefix(q, occupied, day)
  {
  }

  /** The queue after the rearrangement, for an occupied prefix of length `k`. */
  function Rearranged<T>(q: seq<T>, k: nat): (r: seq<T>)
    requires 1 <= k <= |q|
    ensures |r| == |q|
    ensures r[|q| - k] == q[k - 1]
  {
    q[k..] + [q[k - 1]] + q[..k - 1]
  }

  /** The rearrangement only reorders: same length, same multiset of units. */
  lemma RearrangedIsPermutation<T>(q: seq<T>, k: nat)
    requires 1 <= k <= |q|
    ensures |Rearranged(q, k)| == |q|
    ensures multiset(Rearranged(q, k)) == multiset(q)
  {
    assert q == q[..k - 1] + [q[k - 1]] + q[k..];
    calc {
      multiset(q);
      multiset(q[..k - 1]) + multiset([q[k - 1]]) + multiset(q[k..]);
      multiset(q[k..]) + multiset([q[k - 1]]) + multiset(q[..k - 1]);
      multiset(Rearranged(q, k));
    }
  }

  /**
   * Where every unit ends up: first the units from the first free one on,
   * then the last occupied unit, then the occupied units before it.
   */
  lemma RearrangedPositions<T>(q: seq<T>, k: nat)
    requires 1 <= k <= |q|
    ensures forall i :: 0 <= i < |q| - k ==> Rearranged(q, k)[i] == q[k + i]
    ensures Rearranged(q, k)[|q| - k] == q[k - 1]
    ensures forall i :: 0 <= i < k - 1 ==> Rearranged(q, k)[|q| - k + 1 + i] == q[i]
  {
  }

  /**
   * With a free unit behind the prefix, that unit becomes the new front; it
   * is not moved to the back.
   */
  lemma FirstFreeUnitLeads<T>(q: seq<T>, occupied: (T, Day) -> bool, day: Day)
    requires 1 <= OccupiedPrefix(q, occupied, day) < |q|
    ensures var r := Rearranged(q, OccupiedPrefix(q, occupied, day));
            r[0] == q[OccupiedPrefix(q, occupied, day)] && !occupied(r[0], day)
  {
  }

  /** With every unit occupied, the queue is rotated right by one: the last unit leads. */
  lemma AllOccupiedRotatesRight<T>(q: seq<T>)
    requires 1 <= |q|
    ensures Rearranged(q, |q|) == [q[|q| - 1]] + q[..|q| - 1]
  {
  }

  /** Whether the course type runs in `week`; always so. */
  function CourseIsToday(courseType: CourseType, week: Week): (today: bool)
    ensures today
  {
    true
  }

  /**
   * The effect of `distribute_course` on the queue, as a value: the
   * Curriculum arm rearranges around the occupied prefix and aborts when
   * that prefix is empty; the other arms are not implemented.
   */
  function Step<T>(courseType: CourseType, week: Week, day: Day, q: seq<T>, occupied: (T, Day) -> bool): (r: Result<seq<T>, Panic>)
    ensures courseType != Curriculum ==> r == Failure(Unimplemented)
    ensures courseType == Curriculum && r.Failure? ==> r.error == UnwrapOnNone
    ensures r.Success? ==> |r.value| == |q|
  {
    if !CourseIsToday(courseType, week) then Success(q)
    else match courseType
      case Curriculum =>
        var k := OccupiedPrefix(q, occupied, day);
        if k == 0 then Failure(UnwrapOnNone) else Success(Rearranged(q, k))
      case _ => Failure(Unimplemented)
  }

  /** The Curriculum step aborts exactly when the queue is empty or its front unit is free. */
  lemma StepAbortsIffFrontFree<T>(week: Week, day: Day, q: seq<T>, occupied: (T, Day) -> bool)
    ensures Step(Curriculum, week, day, q, occupied).Failure?
            <==> |q| == 0 || !occupied(q[0], day)
  {
  }

  /** A step that completes never loses or duplicates a unit. */
  lemma StepKeepsUnits<T>(courseType: CourseType, week: Week, day: Day, q: seq<T>, occupied: (T, Day) -> bool)
    requires Step(courseType, week, day, q, occupied).Success?
    ensures multiset(Step(courseType, week, day, q, occupied).value) == multiset(q)
  {
    RearrangedIsPermutation(q, OccupiedPrefix(q, occupied, day));
  }

  /**
   * `distribute_course`: no one is assigned to any course; only the queue
   * is rearranged, in place.
   */
  method DistributeCourse<T>(courseType: CourseType, week: Week, day: Day,
                             participants: LinkedList<T>, occupied: (T, Day) -> bool)
    returns (outcome: Outcome<Panic>)
    modifies participants
    ensures outcome.Pass? <==> Step(courseType, week, day, old(participants.units), occupied).Success?
    ensures outcome.Pass? ==> participants.units == Step(courseType, week, day, old(participants.units), occupied).value
    ensures outcome.Fail? ==> outcome.error == Step(courseType, week, day, old(participants.units), occupied).error
  {
    outcome := Pass;
    if CourseIsToday(courseType, week) {
      match courseType
      case Curriculum =>
        var splitter := CountOccupiedPrefix(participants.units, occupied, day);
        var rest := participants.SplitOff(splitter);
        var last := participants.PopBack();
        if last.None? {
          return Fail(UnwrapOnNone);
        }
        rest.PushBack(last.value);
        rest.Append(participants);
        participants.Append(rest);
      case Exkurs =>
        outcome := Fail(Unimplemented);
      case Zahnersatz =>
        outcome := Fail(Unimplemented);
      case Zahnerhalt =>
        outcome := Fail(Unimplemented);
    }
  }
}
