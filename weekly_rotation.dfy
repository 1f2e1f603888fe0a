/** The planning script of CSPEngine.py. Every day starts with no teacher
    booked in any time block. Every class of the day then gets its blocks'
    subjects round-robin. The class's teachers are found with the
    insert-then-check solver under three rules: qualification,
    availability in the block, and a balanced workload. Each solved
    class then books its teachers in their blocks for the rest of the day.

    The stored text `f"{subject} - {teacher}"` is the record `Lesson`. */
module WeeklyRotation {
  import opened Wrappers
  import opened Roster
  import opened Backtracking
  import opened RotationEngine

  type Block = string
  type ClassName = string
  type Day = string

  /** The static tables: `time_blocks`, `subjects`, the items of the
      `teachers` dictionary (each teacher with the subjects they can
      teach), `classes` and `week_days`. */
  datatype Config = Config(
    blocks: seq<Block>,
    subjects: seq<Subject>,
    teachers: seq<(Teacher, seq<Subject>)>,
    classes: seq<ClassName>,
    weekDays: seq<Day>)

  /** The blocks are distinct, the teachers form a dictionary, and the
      round robin has a subject to cycle through whenever there is a block. */
  ghost predicate WellFormedConfig(cfg: Config)
  {
    Distinct(cfg.blocks) && DistinctKeys(cfg.teachers) && (cfg.blocks == [] || cfg.subjects != [])
  }

  /** Which teachers are booked in each block so far today. */
  type Availability = map<Block, seq<Teacher>>

  /** `reset_teacher_availability`: every block, and nobody booked. */
  function ResetAvailability(blocks: seq<Block>): (r: Availability)
    ensures forall b :: b in r ==> b in blocks && r[b] == []
    ensures forall b :: b in blocks ==> b in r
  {
    map b | b in blocks :: []
  }

  // ---------------------------------------------------------------------
  // Subjects and domains (CSPEngine.py:111-120)
  // ---------------------------------------------------------------------

  /** The subject map the round-robin loop builds over `blocks`. */
  function RoundRobinOf(blocks: seq<Block>, subjects: seq<Subject>): (r: map<Block, Subject>)
    requires blocks == [] || subjects != []
    ensures forall b :: b in r <==> b in blocks
  {
    if blocks == [] then map[]
    else RoundRobinOf(blocks[..|blocks| - 1], subjects)[blocks[|blocks| - 1] := subjects[(|blocks| - 1) % |subjects|]]
  }

  /** Block `i` gets subject `i mod |subjects|`. */
  lemma {:induction false} RoundRobinExact(blocks: seq<Block>, subjects: seq<Subject>, i: int)
    requires Distinct(blocks) && subjects != []
    requires 0 <= i < |blocks|
    ensures RoundRobinOf(blocks, subjects)[blocks[i]] == subjects[i % |subjects|]
  {
    var n := |blocks| - 1;
    if i < n {
      var init := blocks[..n];
      assert Distinct(init) && init[i] == blocks[i];
      assert blocks[i] != blocks[n];
      RoundRobinExact(init, subjects, i);
    }
  }

  /** The loop `for i, time_block in enumerate(time_blocks)`. */
  method RoundRobin(blocks: seq<Block>, subjects: seq<Subject>) returns (subjectOf: map<Block, Subject>)
    requires blocks == [] || subjects != []
    ensures subjectOf == RoundRobinOf(blocks, subjects)
  {
    subjectOf := map[];
    var i := 0;
    while i < |blocks|
      invariant 0 <= i <= |blocks|
      invariant subjectOf == RoundRobinOf(blocks[..i], subjects)
    {
      assert blocks[..i + 1][..i] == blocks[..i];
      subjectOf := subjectOf[blocks[i] := subjects[i % |subjects|]];
      i := i + 1;
    }
    assert blocks[..i] == blocks;
  }

  /** `subject in teachers[teacher]`; a name that is not a key of the
      dictionary qualifies for nothing. */
  predicate Qualified(teachers: seq<(Teacher, seq<Subject>)>, t: Teacher, subject: Subject)
  {
    match Get(teachers, t)
    case Some(quals) => subject in quals
    case None => false
  }

  /** The list comprehension of CSPEngine.py:119: the teachers qualified
      for `subject`, in dictionary order. */
  function QualifiedTeachers(teachers: seq<(Teacher, seq<Subject>)>, subject: Subject): seq<Teacher>
  {
    if teachers == [] then []
    else
      var last := teachers[|teachers| - 1];
      QualifiedTeachers(teachers[..|teachers| - 1], subject) + (if subject in last.1 then [last.0] else [])
  }

  lemma {:induction false} QualifiedTeachersExact(teachers: seq<(Teacher, seq<Subject>)>, subject: Subject, t: Teacher)
    requires DistinctKeys(teachers)
    ensures t in QualifiedTeachers(teachers, subject) <==> Qualified(teachers, t, subject)
  {
    if teachers != [] {
      var init := teachers[..|teachers| - 1];
      var last := teachers[|teachers| - 1];
      assert teachers == init + [(last.0, last.1)];
      assert DistinctKeys(init) by {
        forall i, j | 0 <= i < j < |init| ensures init[i].0 != init[j].0 {
          assert init[i] == teachers[i] && init[j] == teachers[j];
        }
      }
      QualifiedTeachersExact(init, subject, t);
      GetSnoc(init, last.0, last.1, t);
    }
  }

  /** Looking up a key in a dictionary with one more item at the end. */
  lemma {:induction false} GetSnoc<K, W>(items: seq<(K, W)>, k: K, w: W, key: K)
    requires DistinctKeys(items + [(k, w)])
    ensures Get(items + [(k, w)], key) == if Get(items, key).Some? then Get(items, key) else if k == key then Some(w) else None
    ensures Get(items, key).Some? ==> key != k
  {
    if items != [] {
      var rest := items[1..];
      assert (items + [(k, w)])[1..] == rest + [(k, w)];
      assert DistinctKeys(rest + [(k, w)]) by {
        forall i, j | 0 <= i < j < |rest + [(k, w)]| ensures (rest + [(k, w)])[i].0 != (rest + [(k, w)])[j].0 {
          assert (rest + [(k, w)])[i] == (items + [(k, w)])[i + 1];
          assert (rest + [(k, w)])[j] == (items + [(k, w)])[j + 1];
        }
      }
      assert items[0].0 != k by {
        assert (items + [(k, w)])[0] == items[0] && (items + [(k, w)])[|items|] == (k, w);
      }
      GetSnoc(rest, k, w, key);
    }
  }

  /** The `domains` dictionary of one class. */
  function BlockDomainsOf(blocks: seq<Block>, teachers: seq<(Teacher, seq<Subject>)>,
                          subjectOf: map<Block, Subject>): (r: map<Block, seq<Teacher>>)
    requires forall b :: b in blocks ==> b in subjectOf
    ensures forall b :: b in r <==> b in blocks
  {
    map b | b in blocks :: QualifiedTeachers(teachers, subjectOf[b])
  }

  /** The domain loop of CSPEngine.py:116-120: each block's domain holds
      exactly the teachers qualified for its subject. */
  method BlockDomains(blocks: seq<Block>, teachers: seq<(Teacher, seq<Subject>)>, subjectOf: map<Block, Subject>)
    returns (domains: map<Block, seq<Teacher>>)
    requires forall b :: b in blocks ==> b in subjectOf
    ensures domains == BlockDomainsOf(blocks, teachers, subjectOf)
  {
    domains := map[];
    var i := 0;
    while i < |blocks|
      invariant 0 <= i <= |blocks|
      invariant forall b :: b in domains <==> b in blocks[..i]
      invariant forall b :: b in domains ==> domains[b] == QualifiedTeachers(teachers, subjectOf[b])
    {
      var subject := subjectOf[blocks[i]];
      domains := domains[blocks[i] := QualifiedTeachers(teachers, subject)];
      i := i + 1;
    }
    assert blocks[..i] == blocks;
  }

  /** A block's domain holds exactly the teachers the dictionary qualifies
      for the block's subject. */
  lemma BlockDomainsExact(blocks: seq<Block>, teachers: seq<(Teacher, seq<Subject>)>,
                          subjectOf: map<Block, Subject>, b: Block, t: Teacher)
    requires forall b :: b in blocks ==> b in subjectOf
    requires DistinctKeys(teachers)
    requires b in blocks
    ensures t in BlockDomainsOf(blocks, teachers, subjectOf)[b] <==> Qualified(teachers, t, subjectOf[b])
  {
    QualifiedTeachersExact(teachers, subjectOf[b], t);
  }

  // ---------------------------------------------------------------------
  // The check (CSPEngine.py:74-95)
  // ---------------------------------------------------------------------

  /** How many of the blocks `keys` the assignment gives to `t`. */
  function Tally(a: map<Block, Teacher>, keys: set<Block>, t: Teacher): nat
  {
    |set b | b in a && a[b] == t && b in keys|
  }

  /** The workload rule: over all teachers of the dictionary, the block
      counts differ by at most one. */
  predicate Balanced(teachers: seq<(Teacher, seq<Subject>)>, a: map<Block, Teacher>)
  {
    forall i, j :: 0 <= i < |teachers| && 0 <= j < |teachers| ==>
      Tally(a, a.Keys, teachers[i].0) - Tally(a, a.Keys, teachers[j].0) <= 1
  }

  /** `constraints(assignments, var, value, teacher_availability)`: the
      teacher is qualified for the block's subject, not booked in the block
      today, and the assignment (the candidate included) is balanced. */
  predicate Admissible(teachers: seq<(Teacher, seq<Subject>)>, subjectOf: map<Block, Subject>,
                       availability: Availability, a: map<Block, Teacher>, b: Block, t: Teacher)
  {
    && b in subjectOf && Qualified(teachers, t, subjectOf[b])
    && b in availability && t !in availability[b]
    && Balanced(teachers, a)
  }

  function Names(teachers: seq<(Teacher, seq<Subject>)>): set<Teacher>
  {
    set i | 0 <= i < |teachers| :: teachers[i].0
  }

  lemma TallyStep(a: map<Block, Teacher>, done: set<Block>, blk: Block)
    requires blk in a && blk !in done
    ensures forall t :: Tally(a, done + {blk}, t) == Tally(a, done, t) + (if a[blk] == t then 1 else 0)
  {
    forall t ensures Tally(a, done + {blk}, t) == Tally(a, done, t) + (if a[blk] == t then 1 else 0) {
      TallyOne(a, done, blk, t);
    }
  }

  lemma TallyOne(a: map<Block, Teacher>, done: set<Block>, blk: Block, t: Teacher)
    requires blk in a && blk !in done
    ensures Tally(a, done + {blk}, t) == Tally(a, done, t) + (if a[blk] == t then 1 else 0)
  {
    var before := set b | b in a && a[b] == t && b in done;
    var after := set b | b in a && a[b] == t && b in done + {blk};
    if a[blk] == t {
      assert after == before + {blk};
    } else {
      assert after == before;
    }
  }

  /** The `teacher_counts` loop: how many blocks of `a` each teacher of
      the dictionary has. */
  method CountTeachers(teachers: seq<(Teacher, seq<Subject>)>, a: map<Block, Teacher>)
    returns (counts: map<Teacher, int>)
    requires forall k :: k in a ==> a[k] in Names(teachers)
    ensures counts == Tallies(a, a.Keys, Names(teachers))
  {
    var names := Names(teachers);
    counts := map k | k in names :: 0;
    var rest := a.Keys;
    TalliesNone(a, names);
    assert a.Keys - rest == {};
    while rest != {}
      invariant rest <= a.Keys
      invariant counts == Tallies(a, a.Keys - rest, names)
      decreases rest
    {
      var blk :| blk in rest;
      var teacher := a[blk];
      CountsStep(a, rest, blk, names);
      counts := counts[teacher := counts[teacher] + 1];
      rest := rest - {blk};
    }
    assert a.Keys - rest == a.Keys;
  }

  /** The count of every teacher in `names` over the blocks `keys`. */
  function Tallies(a: map<Block, Teacher>, keys: set<Block>, names: set<Teacher>): (m: map<Teacher, int>)
    ensures forall k :: k in m <==> k in names
    ensures forall k :: k in m ==> m[k] == Tally(a, keys, k)
  {
    map k | k in names :: Tally(a, keys, k)
  }

  /** Before any block is counted, every teacher's count is zero. */
  lemma TalliesNone(a: map<Block, Teacher>, names: set<Teacher>)
    ensures Tallies(a, {}, names) == map k | k in names :: 0
  {
    var none: set<Block> := {};
    forall k | k in names ensures Tally(a, none, k) == 0 {
      assert (set b | b in a && a[b] == k && b in none) == {};
    }
  }

  /** Counting one more block adds one to its teacher's count only. */
  lemma CountsStep(a: map<Block, Teacher>, rest: set<Block>, blk: Block, names: set<Teacher>)
    requires rest <= a.Keys && blk in rest && a[blk] in names
    ensures var counts := Tallies(a, a.Keys - rest, names);
            counts[a[blk] := counts[a[blk]] + 1] == Tallies(a, a.Keys - (rest - {blk}), names)
  {
    assert a.Keys - (rest - {blk}) == (a.Keys - rest) + {blk};
    TallyStep(a, a.Keys - rest, blk);
  }

  /** `max(counts)` and `min(counts)` over the counts in dictionary order. */
  method Spread(teachers: seq<(Teacher, seq<Subject>)>, counts: map<Teacher, int>) returns (hi: int, lo: int)
    requires teachers != []
    requires forall i :: 0 <= i < |teachers| ==> teachers[i].0 in counts
    ensures forall j :: 0 <= j < |teachers| ==> lo <= counts[teachers[j].0] <= hi
    ensures exists j :: 0 <= j < |teachers| && counts[teachers[j].0] == hi
    ensures exists j :: 0 <= j < |teachers| && counts[teachers[j].0] == lo
  {
    hi := counts[teachers[0].0];
    lo := hi;
    var i := 1;
    while i < |teachers|
      invariant 1 <= i <= |teachers|
      invariant forall j :: 0 <= j < i ==> lo <= counts[teachers[j].0] <= hi
      invariant exists j :: 0 <= j < i && counts[teachers[j].0] == hi
      invariant exists j :: 0 <= j < i && counts[teachers[j].0] == lo
    {
      var c := counts[teachers[i].0];
      if c > hi {
        hi := c;
      }
      if c < lo {
        lo := c;
      }
      i := i + 1;
    }
  }

  /** The body of `constraints`, early returns included. The lookups it
      makes all find their key. */
  method CheckAssignment(teachers: seq<(Teacher, seq<Subject>)>, subjectOf: map<Block, Subject>,
                         availability: Availability, a: map<Block, Teacher>, b: Block, t: Teacher)
    returns (ok: bool)
    requires b in subjectOf && b in availability
    requires Get(teachers, t).Some?
    requires forall k :: k in a ==> a[k] in Names(teachers)
    ensures ok == Admissible(teachers, subjectOf, availability, a, b, t)
  {
    var quals := Get(teachers, t).value;
    if subjectOf[b] !in quals {
      return false;
    }
    if t in availability[b] {
      return false;
    }
    var counts := CountTeachers(teachers, a);
    assert teachers != [];
    assert forall i :: 0 <= i < |teachers| ==> teachers[i].0 in Names(teachers);
    var hi, lo := Spread(teachers, counts);
    ok := !(hi - lo > 1);
    SpreadMeansBalanced(teachers, a, counts, hi, lo);
  }

  lemma SpreadMeansBalanced(teachers: seq<(Teacher, seq<Subject>)>, a: map<Block, Teacher>,
                            counts: map<Teacher, int>, hi: int, lo: int)
    requires forall i :: 0 <= i < |teachers| ==> teachers[i].0 in counts && counts[teachers[i].0] == Tally(a, a.Keys, teachers[i].0)
    requires forall j :: 0 <= j < |teachers| ==> lo <= counts[teachers[j].0] <= hi
    requires exists j :: 0 <= j < |teachers| && counts[teachers[j].0] == hi
    requires exists j :: 0 <= j < |teachers| && counts[teachers[j].0] == lo
    ensures Balanced(teachers, a) <==> hi - lo <= 1
  {
    var jh :| 0 <= jh < |teachers| && counts[teachers[jh].0] == hi;
    var jl :| 0 <= jl < |teachers| && counts[teachers[jl].0] == lo;
    if Balanced(teachers, a) {
      assert Tally(a, a.Keys, teachers[jh].0) - Tally(a, a.Keys, teachers[jl].0) <= 1;
    }
  }

  /** The lambda handed to the solver, closing over today's bookings. */
  function CheckFor(teachers: seq<(Teacher, seq<Subject>)>, subjectOf: map<Block, Subject>,
                    availability: Availability): Check<Block, Teacher>
  {
    (a, b, t) => Admissible(teachers, subjectOf, availability, a, b, t)
  }

  // ---------------------------------------------------------------------
  // One class and one day (CSPEngine.py:100-137)
  // ---------------------------------------------------------------------

  /** A stored lesson, `f"{subject} - {teacher}"`. */
  datatype Lesson = Lesson(subject: Subject, teacher: Teacher)

  type ClassSchedule = map<Block, Lesson>

  /** The `day_schedule` built over the blocks `bs`. */
  function LessonsOf(subjectOf: map<Block, Subject>, r: map<Block, Teacher>, bs: seq<Block>): ClassSchedule
    requires forall b :: b in bs ==> b in subjectOf && b in r
  {
    if bs == [] then map[]
    else
      var b := bs[|bs| - 1];
      LessonsOf(subjectOf, r, bs[..|bs| - 1])[b := Lesson(subjectOf[b], r[b])]
  }

  /** The bookings after appending the class's teacher of every block of `bs`. */
  function Booked(availability: Availability, r: map<Block, Teacher>, bs: seq<Block>): (booked: Availability)
    requires forall b :: b in bs ==> b in availability && b in r
    ensures forall b :: b in booked <==> b in availability
  {
    if bs == [] then availability
    else
      var b := bs[|bs| - 1];
      var before := Booked(availability, r, bs[..|bs| - 1]);
      before[b := before[b] + [r[b]]]
  }

  lemma {:induction false} LessonsOfExact(subjectOf: map<Block, Subject>, r: map<Block, Teacher>, bs: seq<Block>, b: Block)
    requires forall b :: b in bs ==> b in subjectOf && b in r
    ensures b in LessonsOf(subjectOf, r, bs) <==> b in bs
    ensures b in bs ==> LessonsOf(subjectOf, r, bs)[b] == Lesson(subjectOf[b], r[b])
  {
    if bs != [] {
      var init := bs[..|bs| - 1];
      assert bs == init + [bs[|bs| - 1]];
      LessonsOfExact(subjectOf, r, init, b);
    }
  }

  lemma {:induction false} BookedExact(availability: Availability, r: map<Block, Teacher>, bs: seq<Block>,
                                       b: Block, t: Teacher)
    requires forall b :: b in bs ==> b in availability && b in r
    requires b in availability
    ensures t in Booked(availability, r, bs)[b] <==> t in availability[b] || (b in bs && t == r[b])
  {
    if bs != [] {
      var init := bs[..|bs| - 1];
      assert bs == init + [bs[|bs| - 1]];
      BookedExact(availability, r, init, b, t);
    }
  }

  /** The class schedule over all the blocks: one lesson per block, with
      the block's subject and its teacher in the solution. */
  lemma LessonsOfAll(subjectOf: map<Block, Subject>, r: map<Block, Teacher>, bs: seq<Block>)
    requires forall b :: b in bs ==> b in subjectOf && b in r
    ensures forall b :: b in LessonsOf(subjectOf, r, bs) <==> b in bs
    ensures forall b :: b in bs ==> LessonsOf(subjectOf, r, bs)[b] == Lesson(subjectOf[b], r[b])
  {
    forall b ensures (b in LessonsOf(subjectOf, r, bs) <==> b in bs) &&
                     (b in bs ==> LessonsOf(subjectOf, r, bs)[b] == Lesson(subjectOf[b], r[b])) {
      LessonsOfExact(subjectOf, r, bs, b);
    }
  }

  /** Booking a class adds its teacher to each of its blocks and nothing else. */
  lemma BookedAll(availability: Availability, r: map<Block, Teacher>, bs: seq<Block>)
    requires forall b :: b in bs ==> b in availability && b in r
    ensures forall b, t :: b in availability ==>
              (t in Booked(availability, r, bs)[b] <==> t in availability[b] || (b in bs && t == r[b]))
  {
    forall b, t | b in availability
      ensures t in Booked(availability, r, bs)[b] <==> t in availability[b] || (b in bs && t == r[b])
    {
      BookedExact(availability, r, bs, b, t);
    }
  }

  /** What the solver returns for one class against today's bookings. */
  function ClassRun(cfg: Config, availability: Availability): (run: Option<map<Block, Teacher>>)
    requires WellFormedConfig(cfg)
    ensures run.Some? ==> forall b :: b in run.value <==> b in cfg.blocks
  {
    var subjectOf := RoundRobinOf(cfg.blocks, cfg.subjects);
    var domains := BlockDomainsOf(cfg.blocks, cfg.teachers, subjectOf);
    var check := CheckFor(cfg.teachers, subjectOf, availability);
    SolverKeys(cfg.blocks, domains, check);
    Search(cfg.blocks, domains, AsConstraints(check), map[])
  }

  /** The schedules stored and the bookings made by the classes `cs` of
      one day, in order. A class without solution, or with the empty
      solution that `if solution:` reads as false, is skipped. */
  function DayPlan(cfg: Config, cs: seq<ClassName>): (plan: (map<ClassName, ClassSchedule>, Availability))
    requires WellFormedConfig(cfg)
    ensures forall b :: b in plan.1 <==> b in cfg.blocks
  {
    if cs == [] then (map[], ResetAvailability(cfg.blocks))
    else
      var before := DayPlan(cfg, cs[..|cs| - 1]);
      var run := ClassRun(cfg, before.1);
      if run.Some? && run.value != map[] then
        var subjectOf := RoundRobinOf(cfg.blocks, cfg.subjects);
        (before.0[cs[|cs| - 1] := LessonsOf(subjectOf, run.value, cfg.blocks)],
         Booked(before.1, run.value, cfg.blocks))
      else before
  }

  /** One more class of the day: it is stored and booked exactly when its
      solver run returns a non-empty solution. */
  lemma DayPlanNext(cfg: Config, cs: seq<ClassName>, i: int)
    requires WellFormedConfig(cfg)
    requires 0 <= i < |cs|
    ensures var before := DayPlan(cfg, cs[..i]);
            var run := ClassRun(cfg, before.1);
            DayPlan(cfg, cs[..i + 1]) ==
              if run.Some? && run.value != map[] then
                (before.0[cs[i] := LessonsOf(RoundRobinOf(cfg.blocks, cfg.subjects), run.value, cfg.blocks)],
                 Booked(before.1, run.value, cfg.blocks))
              else before
  {
    assert cs[..i + 1][..i] == cs[..i];
  }

  /** The teacher of every block of a class schedule. */
  function TeacherMap(s: ClassSchedule): map<Block, Teacher>
  {
    map b | b in s :: s[b].teacher
  }

  /** What a solver run promises block by block: a teacher qualified for
      the block's round-robin subject and not booked in that block yet. */
  lemma ClassRunPlaced(cfg: Config, availability: Availability)
    requires WellFormedConfig(cfg)
    requires ClassRun(cfg, availability).Some?
    ensures var r := ClassRun(cfg, availability).value;
            var subjectOf := RoundRobinOf(cfg.blocks, cfg.subjects);
            forall b :: b in r ==> Qualified(cfg.teachers, r[b], subjectOf[b]) &&
                                   b in availability && r[b] !in availability[b]
  {
    var subjectOf := RoundRobinOf(cfg.blocks, cfg.subjects);
    var domains := BlockDomainsOf(cfg.blocks, cfg.teachers, subjectOf);
    var P := (b: Block, t: Teacher) => b in subjectOf && Qualified(cfg.teachers, t, subjectOf[b]) &&
                                       b in availability && t !in availability[b];
    SolverPlacedEach(cfg.blocks, domains, CheckFor(cfg.teachers, subjectOf, availability), P);
  }

  /** A solver run's whole answer is balanced: the check of the block
      placed last saw the complete assignment. */
  lemma ClassRunBalanced(cfg: Config, availability: Availability)
    requires WellFormedConfig(cfg)
    requires ClassRun(cfg, availability).Some? && cfg.blocks != []
    ensures Balanced(cfg.teachers, ClassRun(cfg, availability).value)
  {
    var subjectOf := RoundRobinOf(cfg.blocks, cfg.subjects);
    var domains := BlockDomainsOf(cfg.blocks, cfg.teachers, subjectOf);
    SolverLastSeesAll(cfg.blocks, domains, CheckFor(cfg.teachers, subjectOf, availability));
  }

  /** Every stored class covers exactly the blocks. */
  ghost predicate Covers(cfg: Config, plan: map<ClassName, ClassSchedule>)
  {
    forall c :: c in plan ==> (forall b :: b in plan[c] ==> b in cfg.blocks) &&
                              (forall b :: b in cfg.blocks ==> b in plan[c])
  }

  /** Every stored lesson has its block's subject and a teacher qualified
      for it. */
  ghost predicate LessonsQualified(teachers: seq<(Teacher, seq<Subject>)>, subjectOf: map<Block, Subject>,
                                   plan: map<ClassName, ClassSchedule>)
  {
    forall c, b :: c in plan && b in plan[c] ==>
      b in subjectOf && plan[c][b].subject == subjectOf[b] && Qualified(teachers, plan[c][b].teacher, subjectOf[b])
  }

  /** Every stored lesson's teacher is booked in its block. */
  ghost predicate LessonsBooked(plan: map<ClassName, ClassSchedule>, availability: Availability)
  {
    forall c, b :: c in plan && b in plan[c] ==> b in availability && plan[c][b].teacher in availability[b]
  }

  /** No teacher is in two stored classes in the same block. */
  ghost predicate NoDoubleBooking(plan: map<ClassName, ClassSchedule>)
  {
    forall c1, c2, b :: c1 in plan && c2 in plan && c1 != c2 && b in plan[c1] && b in plan[c2] ==>
      plan[c1][b].teacher != plan[c2][b].teacher
  }

  /** What a day's plan promises. Every stored class covers every block
      with its round-robin subject, taught by a qualified teacher, with a
      balanced workload. No teacher is in two stored classes in the same
      block. The bookings record the stored lessons. */
  ghost predicate DaySound(cfg: Config, plan: map<ClassName, ClassSchedule>, availability: Availability)
    requires WellFormedConfig(cfg)
  {
    && Covers(cfg, plan)
    && LessonsQualified(cfg.teachers, RoundRobinOf(cfg.blocks, cfg.subjects), plan)
    && LessonsBooked(plan, availability)
    && (forall c :: c in plan ==> Balanced(cfg.teachers, TeacherMap(plan[c])))
    && NoDoubleBooking(plan)
  }

  /** Storing a class whose lessons cover every block keeps the plan
      covering. */
  lemma CoversStore(cfg: Config, plan: map<ClassName, ClassSchedule>, c: ClassName, lessons: ClassSchedule)
    requires Covers(cfg, plan)
    requires forall b :: b in lessons <==> b in cfg.blocks
    ensures Covers(cfg, plan[c := lessons])
  {
  }

  /** Storing qualified lessons keeps every lesson qualified. */
  lemma QualifiedStore(teachers: seq<(Teacher, seq<Subject>)>, subjectOf: map<Block, Subject>,
                       plan: map<ClassName, ClassSchedule>, c: ClassName, lessons: ClassSchedule)
    requires LessonsQualified(teachers, subjectOf, plan)
    requires forall b :: b in lessons ==> b in subjectOf && lessons[b].subject == subjectOf[b] &&
                                          Qualified(teachers, lessons[b].teacher, subjectOf[b])
    ensures LessonsQualified(teachers, subjectOf, plan[c := lessons])
  {
  }

  /** Bookings that keep the old ones and record the new class keep every
      stored lesson booked. */
  lemma BookedStore(plan: map<ClassName, ClassSchedule>, availability: Availability,
                    c: ClassName, lessons: ClassSchedule, booked: Availability)
    requires LessonsBooked(plan, availability)
    requires forall b :: b in lessons ==> b in booked && lessons[b].teacher in booked[b]
    requires forall b, t :: b in availability && t in availability[b] ==> b in booked && t in booked[b]
    ensures LessonsBooked(plan[c := lessons], booked)
  {
  }

  /** Storing a class whose teachers were all free in their blocks keeps
      every block free of double bookings. */
  lemma NoDoubleBookingStore(plan: map<ClassName, ClassSchedule>, availability: Availability,
                             c: ClassName, lessons: ClassSchedule)
    requires LessonsBooked(plan, availability)
    requires NoDoubleBooking(plan)
    requires forall b :: b in lessons ==> b in availability && lessons[b].teacher !in availability[b]
    ensures NoDoubleBooking(plan[c := lessons])
  {
    var plan': map<ClassName, ClassSchedule> := plan[c := lessons];
    forall c1, c2, b | c1 in plan' && c2 in plan' && c1 != c2 && b in plan'[c1] && b in plan'[c2]
      ensures plan'[c1][b].teacher != plan'[c2][b].teacher
    {
      if c1 == c {
        assert plan'[c2][b].teacher in availability[b];
      } else if c2 == c {
        assert plan'[c1][b].teacher in availability[b];
      }
    }
  }

  /** The lessons and bookings of one solved class, stated pointwise. */
  ghost predicate Stored(blocks: seq<Block>, subjectOf: map<Block, Subject>, r: map<Block, Teacher>,
                         availability: Availability, lessons: ClassSchedule, booked: Availability)
  {
    && (forall b :: b in lessons <==> b in blocks)
    && (forall b :: b in blocks ==> b in subjectOf && b in r && lessons[b] == Lesson(subjectOf[b], r[b]))
    && (forall b :: b in booked <==> b in availability)
    && (forall b, t :: b in blocks && b in availability ==>
          (t in booked[b] <==> t in availability[b] || t == r[b]))
  }

  /** The teachers of the new class's lessons are the solution itself. */
  lemma TeachersOfStored(blocks: seq<Block>, subjectOf: map<Block, Subject>, r: map<Block, Teacher>,
                         availability: Availability, lessons: ClassSchedule, booked: Availability)
    requires Stored(blocks, subjectOf, r, availability, lessons, booked)
    requires forall b :: b in r <==> b in blocks
    ensures TeacherMap(lessons) == r
  {
  }

  /** Storing a class whose teachers cover every block, are qualified
      for its subject, are free in it and are balanced keeps a day sound. */
  lemma StoreSound(cfg: Config, plan: map<ClassName, ClassSchedule>, availability: Availability,
                   c: ClassName, r: map<Block, Teacher>, lessons: ClassSchedule, booked: Availability)
    requires WellFormedConfig(cfg)
    requires DaySound(cfg, plan, availability)
    requires forall b :: b in availability <==> b in cfg.blocks
    requires forall b :: b in r <==> b in cfg.blocks
    requires forall b :: b in r ==> Qualified(cfg.teachers, r[b], RoundRobinOf(cfg.blocks, cfg.subjects)[b]) &&
                                    r[b] !in availability[b]
    requires Balanced(cfg.teachers, r)
    requires Stored(cfg.blocks, RoundRobinOf(cfg.blocks, cfg.subjects), r, availability, lessons, booked)
    ensures DaySound(cfg, plan[c := lessons], booked)
  {
    var subjectOf := RoundRobinOf(cfg.blocks, cfg.subjects);
    CoversStore(cfg, plan, c, lessons);
    QualifiedStore(cfg.teachers, subjectOf, plan, c, lessons);
    BookedStore(plan, availability, c, lessons, booked);
    NoDoubleBookingStore(plan, availability, c, lessons);
    TeachersOfStored(cfg.blocks, subjectOf, r, availability, lessons, booked);
  }

  /** Storing one more solved class keeps a day sound. */
  lemma DaySoundStep(cfg: Config, plan: map<ClassName, ClassSchedule>, availability: Availability, c: ClassName)
    requires WellFormedConfig(cfg)
    requires DaySound(cfg, plan, availability)
    requires forall b :: b in availability <==> b in cfg.blocks
    requires ClassRun(cfg, availability).Some? && ClassRun(cfg, availability).value != map[]
    ensures var r := ClassRun(cfg, availability).value;
            var subjectOf := RoundRobinOf(cfg.blocks, cfg.subjects);
            DaySound(cfg, plan[c := LessonsOf(subjectOf, r, cfg.blocks)], Booked(availability, r, cfg.blocks))
  {
    var r := ClassRun(cfg, availability).value;
    var subjectOf := RoundRobinOf(cfg.blocks, cfg.subjects);
    assert cfg.blocks != [];
    ClassRunPlaced(cfg, availability);
    ClassRunBalanced(cfg, availability);
    LessonsOfAll(subjectOf, r, cfg.blocks);
    BookedAll(availability, r, cfg.blocks);
    StoreSound(cfg, plan, availability, c, r, LessonsOf(subjectOf, r, cfg.blocks), Booked(availability, r, cfg.blocks));
  }

  /** Every day plan is sound, and stores only classes it was given. */
  lemma {:induction false} DayPlanSound(cfg: Config, cs: seq<ClassName>)
    requires WellFormedConfig(cfg)
    ensures forall c :: c in DayPlan(cfg, cs).0 ==> c in cs
    ensures DaySound(cfg, DayPlan(cfg, cs).0, DayPlan(cfg, cs).1)
  {
    if cs != [] {
      var init := cs[..|cs| - 1];
      DayPlanSound(cfg, init);
      var before := DayPlan(cfg, init);
      var run := ClassRun(cfg, before.1);
      if run.Some? && run.value != map[] {
        DaySoundStep(cfg, before.0, before.1, cs[|cs| - 1]);
      }
    }
  }

  // ---------------------------------------------------------------------
  // The week (CSPEngine.py:98-137)
  // ---------------------------------------------------------------------

  type Week = map<Day, map<ClassName, ClassSchedule>>

  /** The block loop after a solved class: record its lessons and book
      its teacher in every block. */
  method BookClass(blocks: seq<Block>, subjectOf: map<Block, Subject>, solution: map<Block, Teacher>,
                   availability: Availability)
    returns (daySchedule: ClassSchedule, booked: Availability)
    requires forall b :: b in blocks ==> b in subjectOf && b in solution && b in availability
    ensures daySchedule == LessonsOf(subjectOf, solution, blocks)
    ensures booked == Booked(availability, solution, blocks)
  {
    daySchedule := map[];
    booked := availability;
    var i := 0;
    while i < |blocks|
      invariant 0 <= i <= |blocks|
      invariant daySchedule == LessonsOf(subjectOf, solution, blocks[..i])
      invariant booked == Booked(availability, solution, blocks[..i])
    {
      var b := blocks[i];
      assert blocks[..i + 1][..i] == blocks[..i];
      var teacher := solution[b];
      var subject := subjectOf[b];
      daySchedule := daySchedule[b := Lesson(subject, teacher)];
      booked := booked[b := booked[b] + [teacher]];
      i := i + 1;
    }
    assert blocks[..i] == blocks;
  }

  /** One class: its round-robin subjects, its domains, and a fresh
      solver run against today's bookings. */
  method SolveClass(cfg: Config, availability: Availability)
    returns (subjectOf: map<Block, Subject>, solution: Option<map<Block, Teacher>>)
    requires WellFormedConfig(cfg)
    ensures subjectOf == RoundRobinOf(cfg.blocks, cfg.subjects)
    ensures solution == ClassRun(cfg, availability)
  {
    subjectOf := RoundRobin(cfg.blocks, cfg.subjects);
    var domains := BlockDomains(cfg.blocks, cfg.teachers, subjectOf);
    var solver := new Solver(cfg.blocks, domains, CheckFor(cfg.teachers, subjectOf, availability));
    solution := solver.BacktrackAndSolve();
  }

  /** The body of the class loop for class `cfg.classes[i]`: solve it
      against the bookings so far and, when `if solution:` holds, store its
      lessons and book its teachers. */
  method PlanClass(cfg: Config, i: int, schedules: map<ClassName, ClassSchedule>, availability: Availability)
    returns (schedules': map<ClassName, ClassSchedule>, availability': Availability)
    requires WellFormedConfig(cfg)
    requires 0 <= i < |cfg.classes|
    requires schedules == DayPlan(cfg, cfg.classes[..i]).0
    requires availability == DayPlan(cfg, cfg.classes[..i]).1
    ensures schedules' == DayPlan(cfg, cfg.classes[..i + 1]).0
    ensures availability' == DayPlan(cfg, cfg.classes[..i + 1]).1
  {
    var className := cfg.classes[i];
    DayPlanNext(cfg, cfg.classes, i);
    var subjectOf, solution := SolveClass(cfg, availability);
    schedules', availability' := schedules, availability;
    if solution.Some? && solution.value != map[] {
      var daySchedule;
      daySchedule, availability' := BookClass(cfg.blocks, subjectOf, solution.value, availability);
      schedules' := schedules[className := daySchedule];
    }
  }

  /** One day: reset the bookings, then plan each class in turn against
      the bookings of the classes before it. */
  method PlanDay(cfg: Config) returns (schedules: map<ClassName, ClassSchedule>, availability: Availability)
    requires WellFormedConfig(cfg)
    ensures schedules == DayPlan(cfg, cfg.classes).0
    ensures availability == DayPlan(cfg, cfg.classes).1
  {
    schedules := map[];
    availability := ResetAvailability(cfg.blocks);
    var i := 0;
    while i < |cfg.classes|
      invariant 0 <= i <= |cfg.classes|
      invariant schedules == DayPlan(cfg, cfg.classes[..i]).0
      invariant availability == DayPlan(cfg, cfg.classes[..i]).1
    {
      schedules, availability := PlanClass(cfg, i, schedules, availability);
      i := i + 1;
    }
    assert cfg.classes[..i] == cfg.classes;
  }

  /** The loop over the week's days: every day gets its own plan. */
  method PlanWeek(cfg: Config) returns (weekly: Week)
    requires WellFormedConfig(cfg)
    ensures forall d :: d in weekly <==> d in cfg.weekDays
    ensures forall d :: d in weekly ==> weekly[d] == DayPlan(cfg, cfg.classes).0
  {
    weekly := map[];
    var i := 0;
    while i < |cfg.weekDays|
      invariant 0 <= i <= |cfg.weekDays|
      invariant forall d :: d in weekly <==> d in cfg.weekDays[..i]
      invariant forall d :: d in weekly ==> weekly[d] == DayPlan(cfg, cfg.classes).0
    {
      var day := cfg.weekDays[i];
      assert cfg.weekDays[..i + 1] == cfg.weekDays[..i] + [day];
      var schedules, availability := PlanDay(cfg);
      weekly := weekly[day := schedules];
      i := i + 1;
    }
    assert cfg.weekDays[..i] == cfg.weekDays;
  }

  /** Every day of the week gets the same plan, and that plan is sound. */
  lemma WeekSound(cfg: Config, weekly: Week)
    requires WellFormedConfig(cfg)
    requires forall d :: d in weekly ==> weekly[d] == DayPlan(cfg, cfg.classes).0
    ensures forall d1, d2 :: d1 in weekly && d2 in weekly ==> weekly[d1] == weekly[d2]
    ensures forall d :: d in weekly ==> DaySound(cfg, weekly[d], DayPlan(cfg, cfg.classes).1)
  {
    DayPlanSound(cfg, cfg.classes);
  }
}
