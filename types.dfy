/** Option, Result and Outcome datatypes used across the model. */
module Wrappers {

  datatype Option<+T> = None | Some(value: T)

  datatype Result<+R, +E> = Success(value: R) | Failure(error: E)

  /** The outcome of an operation that returns nothing but may abort. */
  datatype Outcome<+E> = Pass | Fail(error: E)
}

/**
 * The entities of the allocator (src/types.rs). Shared, interior-mutable
 * student handles become plain values: a student is its number, and every
 * list is an ordered sequence.
 */
module Types {

  /** Rust's `u8` and `u64`. */
  type u8 = x: int | 0 <= x < 0x100
  type u64 = x: int | 0 <= x < 0x1_0000_0000_0000_0000

  const U64_LIMIT: int := 0x1_0000_0000_0000_0000

  /** The four course categories; a closed enumeration. */
  datatype CourseType = Curriculum | Exkurs | Zahnerhalt | Zahnersatz

  /**
   * A student. Equality is derived and the number is the only field, so two
   * students are equal exactly when their numbers are.
   */
  datatype Student = Student(number: u64)

  /** One course occurrence on a day: start hour, category and participants. */
  datatype Course = Course(beginning: u8, courseType: CourseType, participants: seq<Student>)

  datatype Day = Day(courses: seq<Course>)

  /** The weekday index of a `Week`: 0 is Monday, 4 is Friday. */
  type Weekday = j: nat | j < 5

  /** Monday to Friday; the fixed-size array `[Day; 5]`. */
  type Weekdays = s: seq<Day> | |s| == 5
    witness [Day([]), Day([]), Day([]), Day([]), Day([])]

  datatype Week = Week(number: u64, days: Weekdays)

  /** A group carries its category tag and an ordered participant list (duplicates allowed). */
  datatype Group = Group(groupType: CourseType, participants: seq<Student>)

  /** The already-parsed input record and its parts. */
  datatype JsonWeeks = JsonWeeks(kwAnfang: u64, kwEnde: u64)

  /** A holiday entry: a week number and the 1-based numbers of its holiday days. */
  datatype JsonHoliday = JsonHoliday(woche: u64, tage: seq<u64>)

  datatype JsonData = JsonData(
    studentenAnzahl: u64,
    wochen: JsonWeeks,
    feiertage: seq<JsonHoliday>,
    exkursGruppen: seq<seq<u64>>,
    curriculumGruppen: seq<seq<u64>>)

  /** The ways the program aborts, returned as values. */
  datatype Panic =
    | WeekRangeReversed   // "first week is after the last week"
    | UnwrapOnNone        // `unwrap()` of the empty `pop_back()`
    | Unimplemented       // `unimplemented!()`
}
