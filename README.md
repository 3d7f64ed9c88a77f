# Alban course allocator — a Dafny model of its scheduling core

Alban distributes dentistry students to recurring courses over a range of
calendar weeks. Four course types exist (Curriculum, Exkurs, Zahnerhalt,
Zahnersatz). The core modelled here is:

- the **calendar builder** `get_weeks` (src/parser.rs): one week per week
  number, five days each, six courses per ordinary day, with the holiday
  rule that removes a listed day's courses and the whole week's Curriculum;
- the **roster and queue builders** (src/parser.rs and the hard-coded
  variants in src/main.rs): students numbered consecutively, Curriculum and
  Exkurs groups looked up from parsed id lists, one-member groups for the two
  clinic courses, one of them split at the roster's midpoint;
- the **occupancy check** `is_occupied` for students and groups
  (src/implementations.rs);
- the **rotation step** `distribute_course` and the week/day driver in
  `main` (src/main.rs);
- the **fixed-width text cells** of the `Display` impls
  (src/implementations.rs).

Students are plain values `Student(number)`; a `Student` has no other field,
so Dafny's equality on it is the derived equality of the source, which
compares numbers. Lists are sequences. Rust's `u8` and `u64` are subset types.
The program's panics are returned as values of `Types.Panic`.

Files and modules:

| file | modules | source |
|---|---|---|
| types.dfy | `Wrappers`, `Types` | src/types.rs |
| implementations.dfy | `Occupation`, `Display` | src/implementations.rs |
| parser.dfy | `Parser` | src/parser.rs |
| rotation.dfy | `Rotation` | src/main.rs (`distribute_course`, `course_is_today`) |
| program.dfy | `Program` | src/main.rs (builders and `main`) |

The builders and the rotation are imperative in the source and are methods
with loops here: `Parser.GetWeeks` fills a five-element `array` of days by
index, the roster and group builders append in loops, and
`Rotation.DistributeCourse` rearranges a `Rotation.LinkedList` object in
place with `SplitOff`, `PopBack`, `PushBack` and `Append`, exactly as the
source does. Each method is proved against a specification function
(`PlannedCourses`, `Known`, `Singletons`, `OccupiedPrefix`, `Rearranged`,
`Step`, `Replay`, `Row`), and the properties are lemmas about those functions.

What the rotation does, as written: with `k` the length of the prefix of
the queue whose units are all occupied, the new queue is
`q[k..] + [q[k-1]] + q[..k-1]`. The first free unit becomes the new front.
When every unit is occupied, the queue is rotated right by one. When `k` is
0 (the front unit is free, or the queue is empty), `pop_back` on the empty
prefix yields `None` and the `unwrap` aborts. In `main` every day is built
without courses, so no group is ever occupied, and `Program.Run` proves that
the walk aborts on the first call, in week 1 on day 0.

Behaviour of the code that the model keeps and a reader might not expect:

- Unknown participant ids in a parsed group are silently dropped
  (`Parser.Known`). They are not rejected.
- The rotation does not move the served unit to the back. It does not leave
  the queue unchanged when every unit is occupied, and it aborts when the
  front unit is free. No participant is ever assigned to a course, and seat
  counts are not consulted.
- The holiday rule removes Curriculum from every day of a week that has a
  holiday entry, even a day that is not listed and even when no day is
  listed. Only the first entry for a week counts.
- `get_zahnersatz_groups` tags its groups `Zahnerhalt`, and
  `get_zahnerhalt_groups` tags its groups `Zahnersatz`. The model keeps
  these tags.

## Model

| member | source | states |
|---|---|---|
| `Occupation.Lists` | src/implementations.rs:42-46 | true iff some entry of the list has the student's number |
| `Occupation.BookedAt` | src/implementations.rs:36-47 | true iff some course with the given start hour lists the student |
| `Occupation.StudentIsOccupied` | src/implementations.rs:34-50 | true iff some course of the day with the same start hour as the given course lists a student with the same number; only the start hour of the given course is consulted, never its type |
| `Occupation.AnyOccupied` | src/implementations.rs:25-30 | true iff some student of the list is occupied |
| `Occupation.GroupIsOccupied` | src/implementations.rs:23-32 | true iff at least one member is occupied; an empty group is never occupied |
| `Occupation.OwnCourseCounts` | src/implementations.rs:36-46 | the course being filled is part of the scan: a student it lists is occupied |
| `Occupation.OtherHoursIgnored` | src/implementations.rs:39 | inserting a course with another start hour anywhere into the day never changes the answer |
| `Occupation.SingletonGroup` | src/implementations.rs:23-31 | a one-member group is occupied exactly when its member is |
| `Display.CourseTypeLabel` | src/implementations.rs:52-61 | every course type label is exactly ten characters |
| `Display.LabelsDistinct` | src/implementations.rs:54-59 | different course types get different labels |
| `Display.Decimal` | src/implementations.rs:70 | the decimal text is non-empty, all digits, and starts with 0 only for zero |
| `Display.DecimalRoundTrip` | src/implementations.rs:70 | reading the decimal text back gives the number |
| `Display.DecimalWidth` | src/implementations.rs:66-70 | one digit exactly below ten, two digits from ten to ninety-nine |
| `Display.StudentText` | src/implementations.rs:63-74 | the cell of a student ends with a comma, has at least three characters, and starts with a space exactly when the number is below ten |
| `Display.StudentTextRoundTrip` | src/implementations.rs:63-74 | dropping the optional leading space and the comma and reading the digits gives back the student |
| `Display.StudentTextWidth` | src/implementations.rs:66-72 | a student numbered below 100 takes exactly three characters |
| `Display.FormatStudents` | src/implementations.rs:95-111 | the output is the fourteen cells in order: member i for i below the member count, three spaces otherwise |
| `Display.FormatGroup` | src/implementations.rs:76-93 | the output is the fourteen cells over the group's members |
| `Display.RowLayout` | src/implementations.rs:81-91 | with members numbered below 100, n cells take 3n characters and cell i sits at characters 3i to 3i+3 |
| `Display.Row` | src/implementations.rs:81-91 | the first n cells of a participant list, each at least three characters, so the row is at least 3n characters |
| `Display.RowIgnoresLaterMembers` | src/implementations.rs:100-110 | members past the fourteenth are never printed |
| `Display.RowDependsOnPrefix` | src/implementations.rs:100-110 | two participant lists that agree on their first n members print the same first n cells |
| `Parser.FindHoliday` | src/parser.rs:74-77 | returns the first holiday entry for the week, and none iff no entry names the week |
| `Parser.ListsDay` | src/parser.rs:78-79 | weekday index j is listed iff the entry's day list contains j + 1 |
| `Parser.PlannedCourses` | src/parser.rs:73-139 | the courses of one weekday of one week: never more than the six of an ordinary day |
| `Parser.Without` | src/parser.rs:81-105 | the result holds exactly the courses of the other types, and is no longer than the input |
| `Parser.WithoutAbsent` | src/parser.rs:81-105 | removing a type that does not occur changes nothing |
| `Parser.BuildDay` | src/parser.rs:70-141 | the day holds the planned courses of that week and weekday |
| `Parser.GetWeeks` | src/parser.rs:56-150 | aborts iff kwAnfang > kwEnde + 1; otherwise one week per number from kwAnfang to kwEnde, ascending, each day holding its planned courses |
| `Parser.OrdinaryWeekDay` | src/parser.rs:107-137 | in a week without a holiday entry every day holds six courses: Curriculum, Exkurs, Zahnerhalt, Zahnersatz at 7, then Zahnerhalt and Zahnersatz at 16 |
| `Parser.HolidayWeekDay` | src/parser.rs:74-106 | in a week with a holiday entry no day holds Curriculum; a listed day holds nothing; any other day holds the other five courses in order |
| `Parser.FirstEntryWins` | src/parser.rs:74-77 | entries after the first one for a week do not change its days |
| `Parser.NoOneBooked` | src/parser.rs:81-137 | every planned course starts with an empty participant list |
| `Parser.GetStudents` | src/parser.rs:154-162 | studentenAnzahl students, student i numbered i + 1 |
| `Parser.EnrolledIffInRange` | src/parser.rs:155-160 | on that roster exactly the numbers 1 to studentenAnzahl are enrolled |
| `Parser.FindStudent` | src/parser.rs:177-182 | finds a student iff the number is on the roster, and then the student with that number |
| `Parser.LookupMembers` | src/parser.rs:174-184 | the members are the parsed ids that are on the roster, in parsed order |
| `Parser.Known` | src/parser.rs:175-183 | the known members: no more than the parsed ids, and every one of them is on the roster |
| `Parser.KnownMembers` | src/parser.rs:176-183 | no more members than ids; a student is a member iff listed and on the roster |
| `Parser.KnownWhenAllEnrolled` | src/parser.rs:176-183 | when every id is on the roster, member i is the student with id i |
| `Parser.BuildGroups` | src/parser.rs:169-189 | one group per parsed group, in input order, with the given tag and the known members |
| `Parser.GetCurriculumGroups` | src/parser.rs:165-190 | the parsed Curriculum groups, tagged Curriculum, in input order |
| `Parser.GetExkursGroups` | src/parser.rs:193-218 | the parsed Exkurs groups, tagged Exkurs, in input order |
| `Parser.Singletons` | src/parser.rs:249-259 | one group per student |
| `Parser.SingletonsMembers` | src/parser.rs:249-259 | flattening the one-member groups gives back the roster |
| `Parser.GetZahnersatzGroups` | src/parser.rs:221-244 | the first half has len/2 groups (rounded down), and the halves concatenated are the roster's one-member Zahnerhalt groups in order |
| `Parser.ZahnerhaltSeatCount` | src/parser.rs:263-266 | 11 work stations |
| `Parser.ZahnersatzSeatCount` | src/parser.rs:268-271 | 10 work stations |
| `Parser.GetZahnerhaltGroups` | src/parser.rs:247-261 | the roster's one-member Zahnersatz groups in order |
| `Rotation.OccupiedPrefix` | src/main.rs:89-96 | the count is the length of the longest all-occupied prefix: every unit before it is occupied, the unit at it (if any) is free |
| `Rotation.Rearranged` | src/main.rs:97-100 | the queue after the split, pop and re-append: same length, and the last occupied unit lands just behind the units from the first free one on |
| `Rotation.CountOccupiedPrefix` | src/main.rs:89-96 | the counting loop returns that prefix length |
| `Rotation.PrefixUnique` | src/main.rs:89-96 | the three properties of the prefix length determine it |
| `Rotation.RearrangedIsPermutation` | src/main.rs:97-100 | the rearranged queue has the same length and the same multiset of units |
| `Rotation.RearrangedPositions` | src/main.rs:97-100 | the units from the first free one come first, then the last occupied unit, then the occupied units before it |
| `Rotation.FirstFreeUnitLeads` | src/main.rs:89-100 | with a free unit behind the prefix, that free unit becomes the front of the queue |
| `Rotation.AllOccupiedRotatesRight` | src/main.rs:97-100 | when every unit is occupied the last unit moves to the front |
| `Rotation.CourseIsToday` | src/main.rs:76-78 | every course type runs in every week: always true |
| `Rotation.Step` | src/main.rs:86-106 | one call of the rotation on a queue: non-Curriculum types abort as unimplemented, a Curriculum step can only abort on the failed unwrap, and a step that completes keeps the queue's length |
| `Rotation.StepAbortsIffFrontFree` | src/main.rs:89-98 | the Curriculum step aborts iff the queue is empty or its front unit is free |
| `Rotation.StepKeepsUnits` | src/main.rs:97-100 | a step that completes never loses or duplicates a unit |
| `Rotation.DistributeCourse` | src/main.rs:80-107 | the queue becomes the step's rearrangement, or the step's abort is returned; non-Curriculum types abort as unimplemented |
| `Program.GetWeeks` | src/main.rs:23-41 | weeks 1 to 13, every day without courses |
| `Program.GetStudents` | src/main.rs:43-49 | students 1 to 26 |
| `Program.GetCurriculumGroups` | src/main.rs:51-69 | nine Curriculum groups of consecutive pairs (1, 2) to (17, 18) |
| `Program.GetExkursGroups` | src/main.rs:71-74 | no Exkurs groups |
| `Program.CurriculumOccupied` | src/main.rs:91 | a Curriculum group is occupied only if it has members and the day has courses |
| `Program.WeekVisits` | src/main.rs:118-119 | five visits per week |
| `Program.Visits` | src/main.rs:117-119 | five visits per week of the calendar |
| `Program.VisitsOrder` | src/main.rs:117-119 | visit 5w + d is weekday d of week w: weeks in calendar order, days 0 to 4 within each |
| `Program.ReplayKeepsUnits` | src/main.rs:117-125 | a walk that completes never loses or duplicates a group |
| `Program.Replay` | src/main.rs:117-125 | the Curriculum rotation applied once per visit: a walk that completes keeps the number of groups, and a walk that aborts does so on the failed unwrap |
| `Program.Walk` | src/main.rs:117-145 | the walk's result is the replay of one Curriculum rotation per week and day, in order, stopping at the first abort |
| `Program.FreeFirstDayAborts` | src/main.rs:117-125 | a calendar whose first day has no course aborts on that day with the failed unwrap |
| `Program.Run` | src/main.rs:111-148 | `main` aborts in week 1 on day 0 |

## Left out

- The graphical interface under src/gui/ is not part of this model.
- `parse` (reading and deserialising input.json) is not modelled; `JsonData` is an already-parsed value.
- The serde derives, `println!` and the empty `generate_output` are not modelled.
- Formatter errors are not modelled: every write is taken to succeed and the output is a string.
- Shared `Rc`/`RefCell` ownership is not modelled: students are values and lists are sequences, so aliasing and borrow panics do not arise.
- `Rotation.LinkedList` keeps its units in a sequence; node-level structure is not modelled.
- Parser.GetWeeks: requires `kwEnde + 1` to fit in `u64` and every listed holiday day to be at least 1, whereas the source fails on a listed 0 only when its search reaches that entry.
- Parser.GetStudents: requires `studentenAnzahl + 1` to fit in `u64`.
- The seat counts (11 and 10) are modelled as constants only: nothing in the source consults them, so no seat limit is modelled.
- The Exkurs, Zahnersatz and Zahnerhalt arms of `distribute_course` are `unimplemented!()` in the source and are modelled as an abort; their calls in `main` are commented out and are not modelled.
- src/main.rs does not type-check as written (`groupType`, `CourseType::Corriculum`, a plain list for `Day.courses`, Group participants built at src/main.rs:58-62 as a plain `LinkedList<Student>` where src/types.rs:59 declares `RefCell<LinkedList<Rc<Student>>>`, and `is_occupied(course_type, day)`). The model reads `Corriculum` as `Curriculum`, treats a day's courses as a sequence, and checks a Curriculum group against the Curriculum start hour 7 (`Program.CurriculumOccupied`).
