# A verified model of a backtracking school-timetabling solver

The repository solves school timetables with a small hand-written
constraint-satisfaction engine. Three scripts carry their own copy of it.

- **CSVEngine.py** has one variable per (grade, day, section, time slot)
  cell. A cell's domain lists, for each subject on the day's calendar, one
  (subject, teacher) pair per teacher of the cell's grade who teaches it. The
  three constraints are:
  - no subject twice in one section and day;
  - no teacher in two sections at the same slot;
  - no teacher in two neighbouring slots.

  The engine `CSPEngine` searches chronologically. The solution is then
  nested by grade, day, section and slot.
- **main.py** is the same design over (day, section, time) cells, with one
  teacher table for the whole school. Its third constraint bounds the
  neighbouring time by the literal range 1..4.
- **CSPEngine.py** plans a week. Each day starts with nobody booked. Each
  class gets its time blocks' subjects round-robin. A different engine then
  picks a teacher per block; it keeps the partial assignment in a field and
  inserts each candidate before checking it. The check combines three rules:
  - the teacher is qualified for the block's subject;
  - the teacher is not booked in that block today;
  - every teacher's block count differs from every other's by at most one.

  A solved class books its teachers for the rest of the day.

The Dafny project has one module per concern.

| module | file | models |
|---|---|---|
| `Wrappers` | wrappers.dfy | `Option` and `Result` |
| `Backtracking` | backtracking.dfy | the engine of CSVEngine.py and main.py: the functional search `Search`/`TryValues`, the class `Engine` whose methods are proved to compute it, and soundness and completeness of the search |
| `RotationEngine` | rotation_engine.dfy | the engine of CSPEngine.py (class `Solver` with its `assignments` field), proved to perform the same search with the check read as a constraint on the assignment before insertion |
| `Roster` | roster.dfy | inverting the teacher-to-subject table and building one cell's domain, shared by CSVEngine.py and main.py |
| `GradeTimetable` | grade_timetable.dfy | the encoding, constraints, materializer and run of CSVEngine.py |
| `DayTimetable` | day_timetable.dfy | the encoding, constraints, materializer and run of main.py |
| `WeeklyRotation` | weekly_rotation.dfy | the round robin, domains, check, booking and day-by-day orchestration of CSPEngine.py |

Each engine method is tied to `Search` by its `ensures` clause. `Search`
itself is proved sound and complete:
- every result solves the problem;
- a result exists exactly when some solution exists.

For each timetable script there is an engine-free definition `IsTimetable`:
every cell gets a candidate that fits it, and no two cells clash. The
model proves that the incremental constraint checks accept a candidate
exactly when it clashes with no placed cell. From this it proves, in both
directions, that the engine's solutions are exactly the timetables. For the
weekly planner, `DaySound` states what a day's plan promises:
- every class covers every block with its round-robin subject;
- every lesson has a qualified teacher;
- every class's workload is balanced;
- nobody is double-booked.

`DayPlanSound` proves that every day's plan has these properties.

Python conventions that matter are modelled literally:
- `if result:` and `if solution:` treat an empty dictionary as false. With no
  variables at all, a run therefore reports "no solution" even though the
  search succeeded.
- Dictionary iteration follows insertion order, so an order-sensitive
  dictionary is modelled as its list of items.
- A lookup that raises `KeyError` is an error result where the data can
  cause it; otherwise it is a precondition.

A calendar subject that no teacher teaches makes
`subject_teacher_map[g][subject]` raise `KeyError` (CSVEngine.py:109,
main.py:82). The model returns it as a `Failure` (`Raised` in each
script's `Solve`).

## Model

| member | source | states |
|---|---|---|
| Backtracking.Unassigned | CSVEngine.py:193 | the list holds exactly the variables the assignment lacks, and is no longer than the variable list |
| Backtracking.UnassignedIgnores | CSVEngine.py:193 | assigning a key that is not a variable leaves the unassigned list unchanged |
| Backtracking.UnassignedAfterFirst | CSVEngine.py:208-211 | committing the selected variable removes exactly that variable from the front of the unassigned list |
| Backtracking.UnassignedOfEmpty | CSVEngine.py:200-202 | from the empty assignment every variable is unassigned, in order |
| Backtracking.LengthMeansComplete | CSVEngine.py:205-206 | with distinct variables and keys among them, `len(assignment) == len(variables)` holds exactly when nothing is unassigned |
| Backtracking.TryValuesNext | CSVEngine.py:209-215 | one pass of the value loop: if the value passes every constraint and the recursive search succeeds, that result is returned; otherwise the loop goes on with the next value, on a strictly smaller problem |
| Backtracking.SearchSound | CSVEngine.py:204-216 | whatever the search returns extends the assignment to every variable, stays in the domains, and places each value after all constraints accepted it |
| Backtracking.TryValuesSound | CSVEngine.py:209-215 | whatever the value loop returns is such a solution |
| Backtracking.SolvesFirst | CSVEngine.py:208-211 | a solution reachable from the assignment gives the selected variable a domain value that passes the constraints, and is still reachable after committing that value |
| Backtracking.SearchComplete | CSVEngine.py:204-216 | if any solution is reachable from the assignment, the search returns one |
| Backtracking.TryValuesComplete | CSVEngine.py:209-215 | the value loop succeeds when some value in it passes the constraints and leads to a successful search |
| Backtracking.SearchSucceedsIff | CSVEngine.py:204-216 | the search succeeds exactly when a solution exists |
| Backtracking.SolutionEmptyIff | CSVEngine.py:213 | a solution is the falsy empty dictionary exactly when there are no variables |
| Backtracking.PlacedEach | CSVEngine.py:210-211 | any property that every accepted placement has holds of every value of a solution |
| Backtracking.PlacedLast | CSVEngine.py:210-211 | the value placed last was accepted against all the other values of the solution |
| Backtracking.Assignment.constructor | CSVEngine.py:201 | the assignment starts as an empty dictionary |
| Backtracking.Engine.constructor | CSVEngine.py:180-183 | the engine stores the variables, domains and constraints it is given |
| Backtracking.Engine.IsConsistent | CSVEngine.py:185-189 | true exactly when every constraint accepts the value |
| Backtracking.Engine.SelectUnassignedVariable | main.py:16-20 | None exactly when every variable is assigned; otherwise the first unassigned variable in visiting order |
| Backtracking.Engine.Backtrack | CSVEngine.py:204-216 | returns the very assignment object it was given, holding the search result, or null with the object unchanged; the result is the functional search from the old contents |
| Backtracking.Engine.TryValue | CSVEngine.py:209-215 | one pass of the value loop: the committed value stays only when the search below succeeds with a truthy result, otherwise it is deleted again |
| Backtracking.Engine.BacktrackingSearch | CSVEngine.py:200-202 | null exactly when no solution exists; otherwise a solution, namely the functional search from the empty assignment |
| RotationEngine.InsertThenCheck | CSPEngine.py:8-14 | the insert-then-check test accepts a candidate exactly when the adapted constraint accepts it against the assignment before insertion |
| RotationEngine.Solver.constructor | CSPEngine.py:2-6 | stores the problem and starts with empty `assignments` |
| RotationEngine.Solver.IsConsistent | CSPEngine.py:8-14 | the result is the check on the assignment with the candidate inserted; the candidate stays when the check accepts and is deleted when it refuses |
| RotationEngine.Solver.BacktrackAndSolve | CSPEngine.py:16-39 | returns the functional search from the field's old contents; on success the field holds the solution, on failure it is restored |
| RotationEngine.Solver.TryValue | CSPEngine.py:25-36 | one pass of the value loop, with the re-insertion and the deletion on failure; on failure the field is restored |
| RotationEngine.SolverFindsIff | CSPEngine.py:16-39 | a run from the empty assignment succeeds exactly when a solution exists, and what it returns is one |
| RotationEngine.SolverPlacedEach | CSPEngine.py:26-28 | whatever the check implies about one placement holds of every block of the solution |
| RotationEngine.SearchPlacedLast | CSPEngine.py:25-33 | the last variable was placed against all other values of the solution |
| RotationEngine.SolverLastSeesAll | CSPEngine.py:8-11 | the check of the last placement saw the complete solution |
| RotationEngine.SolverKeys | CSPEngine.py:18-19 | a solution assigns exactly the problem's variables |
| Roster.TeachersOfUntaught | CSVEngine.py:91-94 | a subject nobody teaches gets no teachers |
| Roster.InvertSnoc | CSVEngine.py:91-94 | one more table item appends its teacher to its subject's list, creating the list if absent, and changes nothing else |
| Roster.TeachersOfExact | CSVEngine.py:91-94 | a teacher is listed under a subject exactly when the table pairs them |
| Roster.GetExact | CSVEngine.py:91 | dictionary lookup finds a value exactly when the items hold that pair |
| Roster.InvertExact | CSVEngine.py:88-94 | a subject has a list exactly when someone teaches it, and a teacher is listed under it exactly when the dictionary maps the teacher to it |
| Roster.InvertQualifications | CSVEngine.py:91-94 | the loop builds the inverse of the teacher-to-subject table |
| Roster.PairsExact | CSVEngine.py:109-110 | a subject's candidates are exactly its subject paired with each listed teacher |
| Roster.DayDomainExact | CSVEngine.py:108-110 | a candidate is in the domain exactly when its subject is on the calendar and its teacher is listed for it |
| Roster.DomainOfDictionary | CSVEngine.py:88-110 | a candidate is in the domain exactly when its subject is on the calendar and the dictionary maps its teacher to that subject |
| Roster.BuildDomain | CSVEngine.py:107-110 | succeeds exactly when every calendar subject has a list, then returns the domain in calendar and teacher order; otherwise it names the first calendar subject, in order, without teachers, where the lookup raises |
| GradeTimetable.SlotCellsIn | CSVEngine.py:103-105 | the slot loop produces exactly the cells of that grade, day and section |
| GradeTimetable.SectionCellsIn | CSVEngine.py:102-105 | the section loop produces exactly the cells of that grade and day |
| GradeTimetable.DayCellsIn | CSVEngine.py:100-105 | the day loop produces exactly the cells of that grade |
| GradeTimetable.GridCellsIn | CSVEngine.py:99-105 | the grade loop produces exactly the cells of the grid |
| GradeTimetable.CellsExact | CSVEngine.py:96-105 | there is one variable per grid cell and no other |
| GradeTimetable.SlotCellsDistinct | CSVEngine.py:103-105 | distinct slots give distinct cells |
| GradeTimetable.SectionCellsDistinct | CSVEngine.py:102-105 | distinct sections and slots give distinct cells |
| GradeTimetable.DayCellsDistinct | CSVEngine.py:100-105 | distinct days, sections and slots give distinct cells |
| GradeTimetable.GridCellsDistinct | CSVEngine.py:99-105 | distinct grades, days, sections and slots give distinct cells |
| GradeTimetable.CellsDistinct | CSVEngine.py:96-105 | the variable list has no repeats |
| GradeTimetable.CellDomainExact | CSVEngine.py:106-110 | a candidate is in a cell's domain exactly when its subject is on the day's calendar and the grade's dictionary maps its teacher to it |
| GradeTimetable.EncodedStep | CSVEngine.py:104-110 | adding a cell with its domain keeps variables and domains in step |
| GradeTimetable.EncodeSection | CSVEngine.py:103-110 | appends the section's cells with their domains, or reports the grade and the first subject of the day's calendar that the grade cannot staff |
| GradeTimetable.EncodeDay | CSVEngine.py:101-110 | appends the day's cells with their domains, or reports the grade and the first subject of the day's calendar that the grade cannot staff |
| GradeTimetable.EncodeGrade | CSVEngine.py:100-110 | appends the grade's cells with their domains, or reports some unstaffed subject of the grade |
| GradeTimetable.BuildEncoding | CSVEngine.py:88-110 | succeeds exactly when every calendar subject of every grade is staffed, with exactly the grid's variables and domains; a failure names some unstaffed grade and subject |
| GradeTimetable.TeacherMaps | CSVEngine.py:88-94 | every grade gets the inverse of its teacher table |
| GradeTimetable.EncodedComplete | CSVEngine.py:96-110 | encoding every cell means every cell was staffed and the domains are the specified ones |
| GradeTimetable.UnstaffedMeansNotStaffed | CSVEngine.py:108-109 | a reported unstaffed subject means the grid is not staffed |
| GradeTimetable.PassedMeansNoClashWith | CSVEngine.py:114-174 | a candidate that passes the three constraints clashes with no placed cell |
| GradeTimetable.CheckMeansNoClash | CSVEngine.py:114-176 | the constraint list accepts a candidate exactly when it clashes with no placed cell |
| GradeTimetable.PlacedMeansPairwise | CSVEngine.py:209-214 | values placed one by one under the checks form a clash-free assignment |
| GradeTimetable.PairwiseMeansPlaced | CSVEngine.py:209-214 | a clash-free assignment passes the checks in any placement order |
| GradeTimetable.EncodingFacts | CSVEngine.py:96-110 | the script's variables are the grid cells and each domain holds exactly the fitting candidates |
| GradeTimetable.SolutionIsTimetable | CSVEngine.py:114-176 | an engine solution of such an encoding is a timetable |
| GradeTimetable.TimetableIsSolution | CSVEngine.py:114-176 | a timetable is an engine solution of such an encoding |
| GradeTimetable.SolutionsAreTimetables | CSVEngine.py:96-176 | the engine's solutions of the script's encoding are exactly the timetables |
| GradeTimetable.Materialize | CSVEngine.py:221-236 | every cell's value is found under its grade, day, section and slot, nothing else is found, and no grade, day or section map is left empty |
| GradeTimetable.Store | CSVEngine.py:226-236 | one loop step stores the value under its cell, changes no other lookup, and leaves no level empty when none was before |
| GradeTimetable.Solve | CSVEngine.py:218-236 | the run raises exactly when some subject is unstaffed; it reports no solution exactly when there are no cells or no timetable exists; otherwise it nests the first timetable in search order |
| DayTimetable.TimeCellsIn | main.py:77-79 | the time loop produces exactly the cells of that day and section |
| DayTimetable.SectionCellsIn | main.py:76-79 | the section loop produces exactly the cells of that day |
| DayTimetable.DayCellsIn | main.py:75-79 | the day loop produces exactly the cells of the grid |
| DayTimetable.CellsExact | main.py:72-79 | there is one variable per grid cell and no other |
| DayTimetable.TimeCellsDistinct | main.py:77-79 | distinct times give distinct cells |
| DayTimetable.SectionCellsDistinct | main.py:76-79 | distinct sections and times give distinct cells |
| DayTimetable.DayCellsDistinct | main.py:75-79 | distinct days, sections and times give distinct cells |
| DayTimetable.CellsDistinct | main.py:72-79 | the variable list has no repeats |
| DayTimetable.CellDomainExact | main.py:80-83 | a candidate is in a cell's domain exactly when its subject is on the day's calendar and the dictionary maps its teacher to it |
| DayTimetable.EncodedStep | main.py:78-83 | adding a cell with its domain keeps variables and domains in step |
| DayTimetable.EncodeSection | main.py:77-83 | appends the section's cells with their domains, or reports the first subject of the day's calendar that nobody teaches |
| DayTimetable.EncodeDay | main.py:76-83 | appends the day's cells with their domains, or reports the first subject of the day's calendar that nobody teaches |
| DayTimetable.BuildEncoding | main.py:68-83 | succeeds exactly when every calendar subject is staffed, with exactly the grid's variables and domains; a failure names some unstaffed subject |
| DayTimetable.EncodedComplete | main.py:72-83 | encoding every cell means every cell was staffed and the domains are the specified ones |
| DayTimetable.UnstaffedMeansNotStaffed | main.py:81-82 | a reported unstaffed subject means the grid is not staffed |
| DayTimetable.PassedMeansNoClashWith | main.py:85-124 | a candidate that passes c1, c2 and c3 clashes with no placed cell |
| DayTimetable.CheckMeansNoClash | main.py:85-126 | the constraint list accepts a candidate exactly when it clashes with no placed cell |
| DayTimetable.BoundSkipsNeighbour | main.py:114-117 | c3 ignores a neighbour at time 5 even when that neighbour is booked with the same teacher |
| DayTimetable.PlacedMeansPairwise | main.py:31-34 | values placed one by one under the checks form a clash-free assignment |
| DayTimetable.PairwiseMeansPlaced | main.py:31-34 | a clash-free assignment passes the checks in any placement order |
| DayTimetable.EncodingFacts | main.py:72-83 | the script's variables are the grid cells and each domain holds exactly the fitting candidates |
| DayTimetable.SolutionIsTimetable | main.py:85-126 | with times inside 1..4, an engine solution of such an encoding is a timetable |
| DayTimetable.NoClashMeansCheck | main.py:85-124 | for any times, a candidate that clashes with no placed cell passes the three constraints |
| DayTimetable.TimetableIsSolution | main.py:85-126 | for any times, a timetable is an engine solution of such an encoding |
| DayTimetable.TimetableMeansFound | main.py:126-129 | for any times, the script's search finds a solution whenever a timetable exists |
| DayTimetable.SolutionsAreTimetables | main.py:72-126 | with times inside 1..4, the engine's solutions of the script's encoding are exactly the timetables |
| DayTimetable.Materialize | main.py:129-135 | every cell's value is found under its day, section and time, nothing else is found, and no day or section map is left empty |
| DayTimetable.Solve | main.py:126-138 | the run raises exactly when a subject is unstaffed and names it; it reports no solution exactly when there are no cells or the search fails, and then, if there are cells, no timetable exists; otherwise it nests the first timetable in search order |
| DayTimetable.FoundIsTimetable | main.py:126-127 | with times inside 1..4, the search on such an encoding succeeds exactly when a timetable exists, and returns one |
| DayTimetable.FirstTimetableMeaning | main.py:126-129 | with times inside 1..4, the script's search finds a timetable exactly when one exists, and what it finds is one |
| WeeklyRotation.RoundRobinOf | CSPEngine.py:111-113 | the subject table has exactly the blocks as keys |
| WeeklyRotation.RoundRobinExact | CSPEngine.py:111-113 | block i gets subject `i % len(subjects)` |
| WeeklyRotation.RoundRobin | CSPEngine.py:111-113 | the loop builds the round-robin table |
| WeeklyRotation.QualifiedTeachersExact | CSPEngine.py:119 | a teacher is in the comprehension exactly when the dictionary lists the subject among theirs |
| WeeklyRotation.GetSnoc | CSPEngine.py:79 | a key found in the first items is found with the same value once an item is appended; otherwise only the appended key is found |
| WeeklyRotation.BlockDomainsExact | CSPEngine.py:116-120 | a block's domain holds exactly the teachers whose subject list in the dictionary contains the block's subject |
| WeeklyRotation.BlockDomains | CSPEngine.py:116-120 | the loop builds each block's list of qualified teachers |
| WeeklyRotation.TallyStep | CSPEngine.py:88-90 | counting one more block adds one to its own teacher's count and leaves every other count unchanged |
| WeeklyRotation.TallyOne | CSPEngine.py:88-90 | the same for one teacher |
| WeeklyRotation.TalliesNone | CSPEngine.py:87 | before any block is counted every count is zero |
| WeeklyRotation.CountsStep | CSPEngine.py:88-90 | the loop's `+= 1` turns the counts of the blocks done into the counts with one more block |
| WeeklyRotation.CountTeachers | CSPEngine.py:87-90 | the loop yields every teacher's number of blocks in the assignment |
| WeeklyRotation.Spread | CSPEngine.py:92-93 | `max` and `min` bound every count and are attained by some teacher |
| WeeklyRotation.SpreadMeansBalanced | CSPEngine.py:92-94 | `max - min <= 1` holds exactly when every two teachers' counts differ by at most one |
| WeeklyRotation.CheckAssignment | CSPEngine.py:74-95 | the check accepts exactly when the teacher is qualified for the block's subject, not booked in the block, and the workload is balanced |
| WeeklyRotation.Booked | CSPEngine.py:133 | the bookings keep exactly the same blocks |
| WeeklyRotation.LessonsOfExact | CSPEngine.py:128-132 | a block is stored exactly when it is a time block, with its subject and its solution teacher |
| WeeklyRotation.BookedExact | CSPEngine.py:129-133 | a teacher is booked in a block exactly when they were before or the solution puts them there |
| WeeklyRotation.LessonsOfAll | CSPEngine.py:128-132 | the same, for every block |
| WeeklyRotation.BookedAll | CSPEngine.py:129-133 | the same, for every block and teacher |
| WeeklyRotation.ClassRun | CSPEngine.py:116-124 | a class's solution covers exactly the time blocks |
| WeeklyRotation.DayPlan | CSPEngine.py:105-137 | the day's bookings keep exactly the time blocks |
| WeeklyRotation.DayPlanNext | CSPEngine.py:107-137 | a class with a truthy solution stores its lessons and books its teachers; any other class changes nothing |
| WeeklyRotation.ClassRunPlaced | CSPEngine.py:78-84 | every block of a solution has a teacher qualified for its subject who was not booked in it |
| WeeklyRotation.ClassRunBalanced | CSPEngine.py:86-94 | a solution's workload is balanced |
| WeeklyRotation.CoversStore | CSPEngine.py:135 | storing a class that covers every block keeps every class covering |
| WeeklyRotation.QualifiedStore | CSPEngine.py:128-135 | storing qualified lessons keeps every lesson qualified |
| WeeklyRotation.BookedStore | CSPEngine.py:133-135 | bookings that grow and record the new lessons keep every lesson booked |
| WeeklyRotation.NoDoubleBookingStore | CSPEngine.py:83-84 | a class whose teachers were free in their blocks adds no double booking |
| WeeklyRotation.TeachersOfStored | CSPEngine.py:128-132 | the teachers of the stored lessons are the solution itself |
| WeeklyRotation.StoreSound | CSPEngine.py:126-135 | storing a qualified, available and balanced solution keeps the day's plan sound |
| WeeklyRotation.DaySoundStep | CSPEngine.py:123-135 | storing a class's truthy solution keeps the day's plan sound |
| WeeklyRotation.DayPlanSound | CSPEngine.py:100-137 | every day's plan stores only the day's classes, and is sound: covering, qualified, booked, balanced and free of double booking |
| WeeklyRotation.BookClass | CSPEngine.py:128-133 | builds the class's lessons and the updated bookings |
| WeeklyRotation.SolveClass | CSPEngine.py:110-124 | computes the round-robin subjects and the solver's result for the class |
| WeeklyRotation.PlanClass | CSPEngine.py:107-137 | one pass of the class loop advances the day's plan by one class |
| WeeklyRotation.PlanDay | CSPEngine.py:102-137 | the class loop yields the day's plan |
| WeeklyRotation.PlanWeek | CSPEngine.py:98-137 | every week day, and nothing else, gets the day's plan |
| WeeklyRotation.WeekSound | CSPEngine.py:100-105 | every day gets the same plan, since the bookings reset daily, and that plan is sound |

## Left out

- The tkinter interface of main.py (main.py:140-186) is not modelled. It only displays the schedule.
- Console printing, the text and CSV export, and the formatting of the final weekly print (CSVEngine.py:238-273, CSPEngine.py:101, 108, 134, 137, 139-146, main.py:137) are not modelled. They are I/O.
- `exit()` after "No solution found." (main.py:138) is the `NoSolution` outcome of `DayTimetable.Solve`.
- The unfinished helpers `substituteTeacher` and `priortyList` (CSVEngine.py:275-284) are left out. They compute nothing that is used.
- The flags `_export` and `_one_grade` (CSVEngine.py:8-16) are not modelled. The static tables (grades, sections, slots, calendars, teacher tables, blocks, classes, week days) are parameters of each `Config`.
- Variable names are records rather than strings such as `G1_Monday_SA_T2` or `D1_SA_T2`, and the model does not parse them. CSVEngine.py reads grade, section and slot as the single character `tokens[i][1]` (CSVEngine.py:119-122, 226-229). main.py reads the time as the single character `int(time_slot[1])` (main.py:112, 134). Both are only correct for single-digit grades, days and times and one-letter sections, which the code's own tables have. So the results about the two scripts hold for the model of any configuration, but for the scripts themselves only for such tables; this includes `DayTimetable.Solve`.
- Time-slot labels (`time_slots` values) are not modelled. They are only printed.
- `order_domain_values` (CSVEngine.py:196-198) returns the domain unchanged. The engine reads the domain directly.
- `weekly_schedule` and the per-class dictionaries are values, not shared mutable objects. The script creates them fresh and never aliases them.
- The stored text `f"{subject} - {teacher}"` (CSPEngine.py:132) is the record `Lesson`.
- The checking lambda of CSPEngine.py reads `subject_assignments` and `teacher_availability` when it is called. The model passes the values current during the class's solve. Neither changes while that solver runs.
- `KeyError`s on the static tables, which the code's own tables never trigger, are preconditions (`TablesComplete`, the lookups in `WeeklyRotation.CheckAssignment`). The missing-teacher lookup is an error result instead.
- `WeeklyRotation.ClassRun` uses the check through `Admissible`. `WeeklyRotation.CheckAssignment` is the loop-by-loop version of `constraints` and is proved equal to it.
- DayTimetable.SolutionIsTimetable: holds only when every time lies in 1..4 (`TimesWithinBounds`). c3's literal bound then matches the time list. Outside it, `DayTimetable.BoundSkipsNeighbour` exhibits a back-to-back pair that c3 lets through.
- DayTimetable.SolutionsAreTimetables: requires the same 1..4 bound, for its solution-to-timetable half. The other half holds for any times (`DayTimetable.TimetableIsSolution`).
- DayTimetable.FoundIsTimetable: requires the same 1..4 bound, because what the search returns must be a timetable. That a timetable makes the search succeed holds for any times (`DayTimetable.TimetableMeansFound`).
- DayTimetable.FirstTimetableMeaning: requires the same 1..4 bound, for the same reason. The contract of `DayTimetable.Solve` needs no bound.
- Backtracking.Engine.Ready, RotationEngine.Solver.Ready: require the variable list to have no repeats. With a repeated variable the assignment never reaches `len(variables)` entries. The CSVEngine.py and main.py engines then look up `self.domains[None]` and raise `KeyError` (CSVEngine.py:194, 198; main.py:20, 31). The CSPEngine.py engine takes `unassigned_vars[0]` of an empty list and raises `IndexError` (CSPEngine.py:23). These crashes are not modelled.
- GradeTimetable.WellFormedConfig, DayTimetable.WellFormedConfig: require the grades, days, sections and slots (times) to have no repeats. A repeat produces a repeated variable and so the crash above.
- WeeklyRotation.WellFormedConfig: requires the time blocks to have no repeats, for the same reason. It also requires `subjects` to be non-empty whenever there is a block, because `i % len(subjects)` raises `ZeroDivisionError` (CSPEngine.py:113). The code's own tables meet every one of these conditions.
- GradeTimetable.EncodeGrade, GradeTimetable.BuildEncoding, DayTimetable.BuildEncoding: a failure names an unstaffed subject of the first day where the lookup raises, but the contracts do not state that no earlier grade or day in loop order raised.
- Running time and memory of the search are not modelled.
