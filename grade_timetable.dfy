/** The school-timetabling encoding of CSVEngine.py: one variable per
    (grade, day, section, time slot) cell, a domain of (subject, teacher)
    candidates per cell, the three constraints, the materializer that
    nests a solution by grade, day, section and slot, and the script that
    runs them in that order.

    Variables are a record `Cell` rather than strings such as
    "G1_Monday_SA_T2"; the constraints read the record's fields where the
    Python code splits the name. */
module GradeTimetable {
  import opened Wrappers
  import opened Roster
  import opened Backtracking

  type Day = string
  type Section = string

  /** One schedulable cell. */
  datatype Cell = Cell(grade: int, day: Day, section: Section, slot: int)

  /** The static tables of the script. `slots` lists the keys of
      `time_slots` in order (the labels are not used by the solver);
      each qualification table is the item list of a teacher-to-subject
      dictionary. */
  datatype Config = Config(
    grades: seq<int>,
    days: seq<Day>,
    calendarOf: map<Day, int>,
    sections: seq<Section>,
    slots: seq<int>,
    subjectsOf: map<int, seq<Subject>>,
    qualifications: map<int, seq<(Teacher, Subject)>>)

  /** The lookups the script makes in its static tables all find a key. */
  ghost predicate TablesComplete(cfg: Config)
  {
    && (forall g :: g in cfg.grades ==> g in cfg.qualifications)
    && (forall day :: day in cfg.days ==> day in cfg.calendarOf && cfg.calendarOf[day] in cfg.subjectsOf)
  }

  /** What the solver run of the script relies on besides complete tables:
      no list repeats an entry and every qualification table is a dictionary. */
  ghost predicate WellFormedConfig(cfg: Config)
  {
    && TablesComplete(cfg)
    && Distinct(cfg.grades) && Distinct(cfg.days) && Distinct(cfg.sections) && Distinct(cfg.slots)
    && (forall g :: g in cfg.qualifications ==> DistinctKeys(cfg.qualifications[g]))
  }

  ghost predicate InGrid(cfg: Config, c: Cell)
  {
    c.grade in cfg.grades && c.day in cfg.days && c.section in cfg.sections && c.slot in cfg.slots
  }

  /** The subjects of the calendar that `day` follows. */
  function Calendar(cfg: Config, day: Day): seq<Subject>
    requires TablesComplete(cfg)
    requires day in cfg.days
  {
    cfg.subjectsOf[cfg.calendarOf[day]]
  }

  /** Every subject of the cell's day has a teacher in the cell's grade. */
  ghost predicate CellStaffed(cfg: Config, c: Cell)
    requires TablesComplete(cfg)
    requires InGrid(cfg, c)
  {
    forall s :: s in Calendar(cfg, c.day) ==> s in Invert(cfg.qualifications[c.grade])
  }

  /** Building the domains reaches no subject without a teacher. */
  ghost predicate Staffed(cfg: Config)
    requires TablesComplete(cfg)
  {
    forall c :: InGrid(cfg, c) ==> CellStaffed(cfg, c)
  }

  // ---------------------------------------------------------------------
  // Variables, in the nesting order of the loops at CSVEngine.py:99-105
  // ---------------------------------------------------------------------

  function SlotCells(g: int, day: Day, s: Section, slots: seq<int>): seq<Cell>
  {
    if slots == [] then []
    else SlotCells(g, day, s, slots[..|slots| - 1]) + [Cell(g, day, s, slots[|slots| - 1])]
  }

  function SectionCells(g: int, day: Day, sections: seq<Section>, slots: seq<int>): seq<Cell>
  {
    if sections == [] then []
    else SectionCells(g, day, sections[..|sections| - 1], slots) + SlotCells(g, day, sections[|sections| - 1], slots)
  }

  function DayCells(g: int, days: seq<Day>, sections: seq<Section>, slots: seq<int>): seq<Cell>
  {
    if days == [] then []
    else DayCells(g, days[..|days| - 1], sections, slots) + SectionCells(g, days[|days| - 1], sections, slots)
  }

  function GridCells(grades: seq<int>, days: seq<Day>, sections: seq<Section>, slots: seq<int>): seq<Cell>
  {
    if grades == [] then []
    else GridCells(grades[..|grades| - 1], days, sections, slots) + DayCells(grades[|grades| - 1], days, sections, slots)
  }

  /** The script's `variables` list. */
  function Cells(cfg: Config): seq<Cell>
  {
    GridCells(cfg.grades, cfg.days, cfg.sections, cfg.slots)
  }

  lemma {:induction false} SlotCellsIn(g: int, day: Day, s: Section, slots: seq<int>, c: Cell)
    ensures c in SlotCells(g, day, s, slots) <==> c.grade == g && c.day == day && c.section == s && c.slot in slots
  {
    if slots != [] {
      var init := slots[..|slots| - 1];
      assert slots == init + [slots[|slots| - 1]];
      SlotCellsIn(g, day, s, init, c);
    }
  }

  lemma {:induction false} SectionCellsIn(g: int, day: Day, sections: seq<Section>, slots: seq<int>, c: Cell)
    ensures c in SectionCells(g, day, sections, slots) <==>
            c.grade == g && c.day == day && c.section in sections && c.slot in slots
  {
    if sections != [] {
      var init := sections[..|sections| - 1];
      assert sections == init + [sections[|sections| - 1]];
      SectionCellsIn(g, day, init, slots, c);
      SlotCellsIn(g, day, sections[|sections| - 1], slots, c);
    }
  }

  lemma {:induction false} DayCellsIn(g: int, days: seq<Day>, sections: seq<Section>, slots: seq<int>, c: Cell)
    ensures c in DayCells(g, days, sections, slots) <==>
            c.grade == g && c.day in days && c.section in sections && c.slot in slots
  {
    if days != [] {
      var init := days[..|days| - 1];
      assert days == init + [days[|days| - 1]];
      DayCellsIn(g, init, sections, slots, c);
      SectionCellsIn(g, days[|days| - 1], sections, slots, c);
    }
  }

  lemma {:induction false} GridCellsIn(grades: seq<int>, days: seq<Day>, sections: seq<Section>, slots: seq<int>, c: Cell)
    ensures c in GridCells(grades, days, sections, slots) <==>
            c.grade in grades && c.day in days && c.section in sections && c.slot in slots
  {
    if grades != [] {
      var init := grades[..|grades| - 1];
      assert grades == init + [grades[|grades| - 1]];
      GridCellsIn(init, days, sections, slots, c);
      DayCellsIn(grades[|grades| - 1], days, sections, slots, c);
    }
  }

  /** There is one variable per cell of the grid, and no other. */
  lemma CellsExact(cfg: Config, c: Cell)
    ensures c in Cells(cfg) <==> InGrid(cfg, c)
  {
    GridCellsIn(cfg.grades, cfg.days, cfg.sections, cfg.slots, c);
  }

  lemma {:induction false} SlotCellsDistinct(g: int, day: Day, s: Section, slots: seq<int>)
    requires Distinct(slots)
    ensures Distinct(SlotCells(g, day, s, slots))
  {
    if slots != [] {
      var init := slots[..|slots| - 1];
      DistinctInit(slots);
      SlotCellsDistinct(g, day, s, init);
      forall c | c in SlotCells(g, day, s, init) ensures c !in [Cell(g, day, s, slots[|slots| - 1])] {
        SlotCellsIn(g, day, s, init, c);
      }
      DistinctAppend(SlotCells(g, day, s, init), [Cell(g, day, s, slots[|slots| - 1])]);
    }
  }

  lemma {:induction false} SectionCellsDistinct(g: int, day: Day, sections: seq<Section>, slots: seq<int>)
    requires Distinct(sections) && Distinct(slots)
    ensures Distinct(SectionCells(g, day, sections, slots))
  {
    if sections != [] {
      var init := sections[..|sections| - 1];
      var last := sections[|sections| - 1];
      DistinctInit(sections);
      SectionCellsDistinct(g, day, init, slots);
      SlotCellsDistinct(g, day, last, slots);
      forall c | c in SectionCells(g, day, init, slots) ensures c !in SlotCells(g, day, last, slots) {
        SectionCellsIn(g, day, init, slots, c);
        SlotCellsIn(g, day, last, slots, c);
      }
      DistinctAppend(SectionCells(g, day, init, slots), SlotCells(g, day, last, slots));
    }
  }

  lemma {:induction false} DayCellsDistinct(g: int, days: seq<Day>, sections: seq<Section>, slots: seq<int>)
    requires Distinct(days) && Distinct(sections) && Distinct(slots)
    ensures Distinct(DayCells(g, days, sections, slots))
  {
    if days != [] {
      var init := days[..|days| - 1];
      var last := days[|days| - 1];
      DistinctInit(days);
      DayCellsDistinct(g, init, sections, slots);
      SectionCellsDistinct(g, last, sections, slots);
      forall c | c in DayCells(g, init, sections, slots) ensures c !in SectionCells(g, last, sections, slots) {
        DayCellsIn(g, init, sections, slots, c);
        SectionCellsIn(g, last, sections, slots, c);
      }
      DistinctAppend(DayCells(g, init, sections, slots), SectionCells(g, last, sections, slots));
    }
  }

  lemma {:induction false} GridCellsDistinct(grades: seq<int>, days: seq<Day>, sections: seq<Section>, slots: seq<int>)
    requires Distinct(grades) && Distinct(days) && Distinct(sections) && Distinct(slots)
    ensures Distinct(GridCells(grades, days, sections, slots))
  {
    if grades != [] {
      var init := grades[..|grades| - 1];
      var last := grades[|grades| - 1];
      DistinctInit(grades);
      GridCellsDistinct(init, days, sections, slots);
      DayCellsDistinct(last, days, sections, slots);
      forall c | c in GridCells(init, days, sections, slots) ensures c !in DayCells(last, days, sections, slots) {
        GridCellsIn(init, days, sections, slots, c);
        DayCellsIn(last, days, sections, slots, c);
      }
      DistinctAppend(GridCells(init, days, sections, slots), DayCells(last, days, sections, slots));
    }
  }

  /** Distinct grades, days, sections and slots give distinct variables. */
  lemma CellsDistinct(cfg: Config)
    requires Distinct(cfg.grades) && Distinct(cfg.days) && Distinct(cfg.sections) && Distinct(cfg.slots)
    ensures Distinct(Cells(cfg))
  {
    GridCellsDistinct(cfg.grades, cfg.days, cfg.sections, cfg.slots);
  }

  // ---------------------------------------------------------------------
  // Domains (CSVEngine.py:88-110)
  // ---------------------------------------------------------------------

  /** The domain of a cell: the day's calendar subjects in order, each
      with its qualified teachers of the cell's grade in order. */
  function CellDomain(cfg: Config, c: Cell): seq<Candidate>
    requires TablesComplete(cfg)
    requires InGrid(cfg, c) && CellStaffed(cfg, c)
  {
    DayDomain(Calendar(cfg, c.day), Invert(cfg.qualifications[c.grade]))
  }

  /** The script's `domains` dictionary. */
  ghost function Domains(cfg: Config): map<Cell, seq<Candidate>>
    requires TablesComplete(cfg) && Staffed(cfg)
  {
    map c | c in Cells(cfg) :: (CellsExact(cfg, c); CellDomain(cfg, c))
  }

  /** A candidate is in a cell's domain exactly when its subject is on the
      day's calendar and the grade's dictionary maps its teacher to it. */
  lemma CellDomainExact(cfg: Config, c: Cell, x: Candidate)
    requires WellFormedConfig(cfg)
    requires InGrid(cfg, c) && CellStaffed(cfg, c)
    ensures x in CellDomain(cfg, c) <==>
            x.subject in Calendar(cfg, c.day) && Get(cfg.qualifications[c.grade], x.teacher) == Some(x.subject)
  {
    DomainOfDictionary(Calendar(cfg, c.day), cfg.qualifications[c.grade], x);
  }

  datatype Encoding = Encoding(variables: seq<Cell>, domains: map<Cell, seq<Candidate>>)

  /** `subject_teacher_map[g][subject]` raised for this grade and subject. */
  datatype Missing = NoTeacher(grade: int, subject: Subject)

  /** The variables built so far all have their domain, and nothing else does. */
  ghost predicate Encoded(cfg: Config, variables: seq<Cell>, domains: map<Cell, seq<Candidate>>)
    requires TablesComplete(cfg)
  {
    && (forall c :: c in domains ==> c in variables)
    && (forall c :: c in variables ==> c in domains)
    && (forall c :: c in domains ==> InGrid(cfg, c) && CellStaffed(cfg, c) && domains[c] == CellDomain(cfg, c))
  }

  lemma EncodedStep(cfg: Config, variables: seq<Cell>, domains: map<Cell, seq<Candidate>>, cell: Cell,
                    domain: seq<Candidate>)
    requires TablesComplete(cfg) && Encoded(cfg, variables, domains)
    requires InGrid(cfg, cell) && CellStaffed(cfg, cell) && domain == CellDomain(cfg, cell)
    ensures Encoded(cfg, variables + [cell], domains[cell := domain])
  {
  }

  /** The lookup `subject_teacher_map[g][subject]` raises: the subject is
      on the calendar of some cell of grade `g` and no teacher of that
      grade teaches it. */
  ghost predicate Unstaffed(cfg: Config, m: Missing)
    requires TablesComplete(cfg)
  {
    && m.grade in cfg.grades
    && m.subject !in Invert(cfg.qualifications[m.grade])
    && exists c :: InGrid(cfg, c) && c.grade == m.grade && m.subject in Calendar(cfg, c.day)
  }

  /** The innermost loop of CSVEngine.py:102-110: one variable per time
      slot of a grade, day and section, each with the day's domain. */
  method EncodeSection(cfg: Config, g: int, day: Day, s: Section, bySubject: map<Subject, seq<Teacher>>,
                       variables: seq<Cell>, domains: map<Cell, seq<Candidate>>)
    returns (r: Result<(seq<Cell>, map<Cell, seq<Candidate>>), Missing>)
    requires TablesComplete(cfg) && Encoded(cfg, variables, domains)
    requires g in cfg.grades && day in cfg.days && s in cfg.sections
    requires bySubject == Invert(cfg.qualifications[g])
    ensures r.Success? ==> r.value.0 == variables + SlotCells(g, day, s, cfg.slots) && Encoded(cfg, r.value.0, r.value.1)
    ensures r.Failure? ==> Unstaffed(cfg, r.error)
    ensures r.Failure? ==> r.error.grade == g && FirstUnlisted(Calendar(cfg, day), bySubject, r.error.subject)
  {
    var vs, ds := variables, domains;
    var ti := 0;
    while ti < |cfg.slots|
      invariant 0 <= ti <= |cfg.slots|
      invariant vs == variables + SlotCells(g, day, s, cfg.slots[..ti])
      invariant Encoded(cfg, vs, ds)
    {
      var t := cfg.slots[ti];
      var cell := Cell(g, day, s, t);
      assert InGrid(cfg, cell);
      assert cfg.slots[..ti + 1][..ti] == cfg.slots[..ti];
      var domain := BuildDomain(cfg.subjectsOf[cfg.calendarOf[day]], bySubject);
      if domain.Failure? {
        return Failure(NoTeacher(g, domain.error));
      }
      EncodedStep(cfg, vs, ds, cell, domain.value);
      vs, ds := vs + [cell], ds[cell := domain.value];
      ti := ti + 1;
    }
    assert cfg.slots[..ti] == cfg.slots;
    return Success((vs, ds));
  }

  /** The section loop of CSVEngine.py:101-110 for one grade and day. */
  method EncodeDay(cfg: Config, g: int, day: Day, bySubject: map<Subject, seq<Teacher>>,
                   variables: seq<Cell>, domains: map<Cell, seq<Candidate>>)
    returns (r: Result<(seq<Cell>, map<Cell, seq<Candidate>>), Missing>)
    requires TablesComplete(cfg) && Encoded(cfg, variables, domains)
    requires g in cfg.grades && day in cfg.days
    requires bySubject == Invert(cfg.qualifications[g])
    ensures r.Success? ==> r.value.0 == variables + SectionCells(g, day, cfg.sections, cfg.slots) &&
                           Encoded(cfg, r.value.0, r.value.1)
    ensures r.Failure? ==> Unstaffed(cfg, r.error)
    ensures r.Failure? ==> r.error.grade == g && FirstUnlisted(Calendar(cfg, day), bySubject, r.error.subject)
  {
    var vs, ds := variables, domains;
    var si := 0;
    while si < |cfg.sections|
      invariant 0 <= si <= |cfg.sections|
      invariant vs == variables + SectionCells(g, day, cfg.sections[..si], cfg.slots)
      invariant Encoded(cfg, vs, ds)
    {
      var s := cfg.sections[si];
      assert cfg.sections[..si + 1][..si] == cfg.sections[..si];
      var added := EncodeSection(cfg, g, day, s, bySubject, vs, ds);
      if added.Failure? {
        return Failure(added.error);
      }
      SeqAssoc(variables, SectionCells(g, day, cfg.sections[..si], cfg.slots), SlotCells(g, day, s, cfg.slots));
      vs, ds := added.value.0, added.value.1;
      si := si + 1;
    }
    assert cfg.sections[..si] == cfg.sections;
    return Success((vs, ds));
  }

  /** The day loop of CSVEngine.py:100-110 for one grade. */
  method EncodeGrade(cfg: Config, g: int, bySubject: map<Subject, seq<Teacher>>,
                     variables: seq<Cell>, domains: map<Cell, seq<Candidate>>)
    returns (r: Result<(seq<Cell>, map<Cell, seq<Candidate>>), Missing>)
    requires TablesComplete(cfg) && Encoded(cfg, variables, domains)
    requires g in cfg.grades
    requires bySubject == Invert(cfg.qualifications[g])
    ensures r.Success? ==> r.value.0 == variables + DayCells(g, cfg.days, cfg.sections, cfg.slots) &&
                           Encoded(cfg, r.value.0, r.value.1)
    ensures r.Failure? ==> Unstaffed(cfg, r.error)
  {
    var vs, ds := variables, domains;
    var di := 0;
    while di < |cfg.days|
      invariant 0 <= di <= |cfg.days|
      invariant vs == variables + DayCells(g, cfg.days[..di], cfg.sections, cfg.slots)
      invariant Encoded(cfg, vs, ds)
    {
      var day := cfg.days[di];
      assert cfg.days[..di + 1][..di] == cfg.days[..di];
      var added := EncodeDay(cfg, g, day, bySubject, vs, ds);
      if added.Failure? {
        return Failure(added.error);
      }
      SeqAssoc(variables, DayCells(g, cfg.days[..di], cfg.sections, cfg.slots), SectionCells(g, day, cfg.sections, cfg.slots));
      vs, ds := added.value.0, added.value.1;
      di := di + 1;
    }
    assert cfg.days[..di] == cfg.days;
    return Success((vs, ds));
  }

  /** The encoding of CSVEngine.py:88-110: `subject_teacher_map` per grade,
      then the variables and domains grade by grade. It stops with the
      dictionary lookup that raises when a calendar subject has no teacher
      in the grade. */
  method BuildEncoding(cfg: Config) returns (r: Result<Encoding, Missing>)
    requires TablesComplete(cfg)
    ensures r.Success? <==> Staffed(cfg)
    ensures r.Success? ==> r.value.variables == Cells(cfg) && r.value.domains == Domains(cfg)
    ensures r.Failure? ==> Unstaffed(cfg, r.error)
  {
    var stm := TeacherMaps(cfg);
    var variables: seq<Cell> := [];
    var domains: map<Cell, seq<Candidate>> := map[];
    var gi := 0;
    while gi < |cfg.grades|
      invariant 0 <= gi <= |cfg.grades|
      invariant variables == GridCells(cfg.grades[..gi], cfg.days, cfg.sections, cfg.slots)
      invariant Encoded(cfg, variables, domains)
    {
      var g := cfg.grades[gi];
      assert cfg.grades[..gi + 1][..gi] == cfg.grades[..gi];
      var added := EncodeGrade(cfg, g, stm[g], variables, domains);
      if added.Failure? {
        UnstaffedMeansNotStaffed(cfg, added.error);
        return Failure(added.error);
      }
      variables, domains := added.value.0, added.value.1;
      gi := gi + 1;
    }
    assert cfg.grades[..gi] == cfg.grades;
    EncodedComplete(cfg, variables, domains);
    return Success(Encoding(variables, domains));
  }

  /** The loop of CSVEngine.py:88-94: one inverted table per grade. */
  method TeacherMaps(cfg: Config) returns (stm: map<int, map<Subject, seq<Teacher>>>)
    requires TablesComplete(cfg)
    ensures forall g :: g in cfg.grades ==> g in stm && stm[g] == Invert(cfg.qualifications[g])
  {
    stm := map[];
    var gi := 0;
    while gi < |cfg.grades|
      invariant 0 <= gi <= |cfg.grades|
      invariant forall g :: g in cfg.grades[..gi] ==> g in stm
      invariant forall g :: g in stm ==> g in cfg.qualifications && stm[g] == Invert(cfg.qualifications[g])
    {
      var g := cfg.grades[gi];
      var teachersBySubject := InvertQualifications(cfg.qualifications[g]);
      stm := stm[g := teachersBySubject];
      gi := gi + 1;
    }
    assert cfg.grades[..gi] == cfg.grades;
  }

  /** Once every cell of the grid is encoded, every cell was staffed and
      the domains are the specified ones. */
  lemma EncodedComplete(cfg: Config, variables: seq<Cell>, domains: map<Cell, seq<Candidate>>)
    requires TablesComplete(cfg)
    requires variables == Cells(cfg) && Encoded(cfg, variables, domains)
    ensures Staffed(cfg) && domains == Domains(cfg)
  {
    forall c | InGrid(cfg, c) ensures CellStaffed(cfg, c) {
      CellsExact(cfg, c);
    }
    assert domains == Domains(cfg) by {
      forall c ensures c in domains <==> c in Cells(cfg) {
      }
    }
  }

  lemma UnstaffedMeansNotStaffed(cfg: Config, m: Missing)
    requires TablesComplete(cfg) && Unstaffed(cfg, m)
    ensures !Staffed(cfg)
  {
    var c :| InGrid(cfg, c) && c.grade == m.grade && m.subject in Calendar(cfg, c.day);
    assert !CellStaffed(cfg, c);
  }

  // ---------------------------------------------------------------------
  // Constraints (CSVEngine.py:114-176)
  // ---------------------------------------------------------------------

  /** `constraint1`: no other slot of the same grade, day and section
      already holds the candidate's subject. */
  predicate Constraint1(slots: seq<int>, v: Cell, x: Candidate, a: map<Cell, Candidate>)
  {
    forall i :: 0 <= i < |slots| ==>
      var other := Cell(v.grade, v.day, v.section, slots[i]);
      !(other in a && other != v && a[other].subject == x.subject)
  }

  /** `constraint2`: no other section of the same grade, day and slot
      already holds the candidate's teacher. */
  predicate Constraint2(sections: seq<Section>, v: Cell, x: Candidate, a: map<Cell, Candidate>)
  {
    forall i :: 0 <= i < |sections| ==>
      var other := Cell(v.grade, v.day, sections[i], v.slot);
      !(other in a && other != v && a[other].teacher == x.teacher)
  }

  /** One round of the `for dt in [-1, 1]` loop of `constraint3`: a
      neighbouring time that is not a slot is skipped, otherwise no section
      may hold the candidate's teacher then. */
  predicate FreeAt(slots: seq<int>, sections: seq<Section>, v: Cell, x: Candidate, a: map<Cell, Candidate>, time: int)
  {
    time !in slots ||
    forall i :: 0 <= i < |sections| ==>
      var adjacent := Cell(v.grade, v.day, sections[i], time);
      !(adjacent in a && a[adjacent].teacher == x.teacher)
  }

  /** `constraint3`: the teacher holds neither the slot before nor the
      slot after, in any section of the same grade and day. */
  predicate Constraint3(slots: seq<int>, sections: seq<Section>, v: Cell, x: Candidate, a: map<Cell, Candidate>)
  {
    FreeAt(slots, sections, v, x, a, v.slot - 1) && FreeAt(slots, sections, v, x, a, v.slot + 1)
  }

  /** The script's `constraints` list, in its order. */
  function Checks(cfg: Config): seq<Constraint<Cell, Candidate>>
  {
    [ (v, x, a) => Constraint1(cfg.slots, v, x, a),
      (v, x, a) => Constraint2(cfg.sections, v, x, a),
      (v, x, a) => Constraint3(cfg.slots, cfg.sections, v, x, a) ]
  }

  /** Two placed cells conflict: same grade and day, and either the same
      section with the same subject, or the same or a neighbouring slot
      with the same teacher. The relation is symmetric. */
  predicate Clash(c: Cell, x: Candidate, d: Cell, y: Candidate)
  {
    c != d && c.grade == d.grade && c.day == d.day &&
    ((c.section == d.section && x.subject == y.subject) ||
     (c.slot == d.slot && x.teacher == y.teacher) ||
     ((c.slot == d.slot + 1 || d.slot == c.slot + 1) && x.teacher == y.teacher))
  }

  /** No two cells of `a` conflict. */
  ghost predicate Pairwise(a: map<Cell, Candidate>)
  {
    forall c, d :: c in a && d in a ==> !Clash(c, a[c], d, a[d])
  }

  ghost predicate OnGrid(cfg: Config, a: map<Cell, Candidate>)
  {
    forall c :: c in a ==> c.section in cfg.sections && c.slot in cfg.slots
  }

  /** A candidate that passes the three constraints conflicts with no
      single placed cell. */
  lemma PassedMeansNoClashWith(cfg: Config, v: Cell, x: Candidate, a: map<Cell, Candidate>, c: Cell)
    requires OnGrid(cfg, a) && c in a
    requires Constraint1(cfg.slots, v, x, a) && Constraint2(cfg.sections, v, x, a) && Constraint3(cfg.slots, cfg.sections, v, x, a)
    ensures !Clash(v, x, c, a[c])
  {
    var i :| 0 <= i < |cfg.slots| && cfg.slots[i] == c.slot;
    var k :| 0 <= k < |cfg.sections| && cfg.sections[k] == c.section;
    assert Cell(v.grade, v.day, v.section, cfg.slots[i]) == Cell(v.grade, v.day, v.section, c.slot);
    assert Cell(v.grade, v.day, cfg.sections[k], v.slot) == Cell(v.grade, v.day, c.section, v.slot);
    assert FreeAt(cfg.slots, cfg.sections, v, x, a, v.slot - 1);
    assert FreeAt(cfg.slots, cfg.sections, v, x, a, v.slot + 1);
    assert Cell(v.grade, v.day, cfg.sections[k], c.slot) == Cell(v.grade, v.day, c.section, c.slot);
  }

  /** The incremental check is exact: the three constraints accept a
      candidate exactly when it conflicts with no cell already placed. */
  lemma CheckMeansNoClash(cfg: Config, v: Cell, x: Candidate, a: map<Cell, Candidate>)
    requires OnGrid(cfg, a)
    ensures AllHold(Checks(cfg), v, x, a) <==> forall c :: c in a ==> !Clash(v, x, c, a[c])
  {
    var cs := Checks(cfg);
    assert AllHold(cs, v, x, a) <==>
           Constraint1(cfg.slots, v, x, a) && Constraint2(cfg.sections, v, x, a) &&
           Constraint3(cfg.slots, cfg.sections, v, x, a) by {
      assert cs[0](v, x, a) == Constraint1(cfg.slots, v, x, a);
      assert cs[1](v, x, a) == Constraint2(cfg.sections, v, x, a);
      assert cs[2](v, x, a) == Constraint3(cfg.slots, cfg.sections, v, x, a);
    }
    if Constraint1(cfg.slots, v, x, a) && Constraint2(cfg.sections, v, x, a) &&
       Constraint3(cfg.slots, cfg.sections, v, x, a) {
      forall c | c in a ensures !Clash(v, x, c, a[c]) {
        PassedMeansNoClashWith(cfg, v, x, a, c);
      }
    }
  }

  /** Values placed one by one under the three checks form a conflict-free
      assignment: the incremental checks give global validity. */
  lemma {:induction false} PlacedMeansPairwise(cfg: Config, a: map<Cell, Candidate>, r: map<Cell, Candidate>, u: seq<Cell>)
    requires Pairwise(a)
    requires OnGrid(cfg, r)
    requires forall c :: c in a ==> c in r && r[c] == a[c]
    requires forall c :: c in r ==> c in a || c in u
    requires PlacedConsistently(Checks(cfg), a, r, u)
    ensures Pairwise(r)
    decreases |u|
  {
    if u == [] {
      assert a == r by {
        assert a.Keys == r.Keys;
      }
    } else {
      var v := u[0];
      var a' := a[v := r[v]];
      CheckMeansNoClash(cfg, v, r[v], a);
      assert Pairwise(a') by {
        forall c, d | c in a' && d in a' ensures !Clash(c, a'[c], d, a'[d]) {
          if c != v && d != v {
            assert !Clash(c, a[c], d, a[d]);
          }
        }
      }
      PlacedMeansPairwise(cfg, a', r, u[1..]);
    }
  }

  /** Conversely, a conflict-free assignment passes the checks in any
      placement order. */
  lemma {:induction false} PairwiseMeansPlaced(cfg: Config, a: map<Cell, Candidate>, r: map<Cell, Candidate>, u: seq<Cell>)
    requires Pairwise(r)
    requires OnGrid(cfg, r)
    requires forall c :: c in a ==> c in r && r[c] == a[c]
    requires forall c :: c in u ==> c in r
    ensures PlacedConsistently(Checks(cfg), a, r, u)
    decreases |u|
  {
    if u != [] {
      var v := u[0];
      CheckMeansNoClash(cfg, v, r[v], a);
      forall c | c in a ensures !Clash(v, r[v], c, a[c]) {
        assert !Clash(v, r[v], c, r[c]);
      }
      PairwiseMeansPlaced(cfg, a[v := r[v]], r, u[1..]);
    }
  }

  /** The candidate suits the cell: its subject is on the day's calendar
      and the grade's dictionary maps its teacher to that subject. */
  ghost predicate Fits(cfg: Config, c: Cell, x: Candidate)
    requires TablesComplete(cfg) && InGrid(cfg, c)
  {
    x.subject in Calendar(cfg, c.day) && Get(cfg.qualifications[c.grade], x.teacher) == Some(x.subject)
  }

  /** A timetable for the configuration, stated without the engine: every
      cell of the grid gets a candidate that fits it, and no two cells
      conflict. */
  ghost predicate IsTimetable(cfg: Config, r: map<Cell, Candidate>)
    requires TablesComplete(cfg)
  {
    && (forall c :: c in r ==> InGrid(cfg, c))
    && (forall c :: InGrid(cfg, c) ==> c in r)
    && (forall c :: c in r ==> Fits(cfg, c, r[c]))
    && Pairwise(r)
  }

  /** A problem whose variables are the grid cells and whose domains hold
      exactly the candidates that fit. */
  ghost predicate EncodesGrid(cfg: Config, vars: seq<Cell>, doms: map<Cell, seq<Candidate>>)
    requires TablesComplete(cfg)
  {
    && WellFormed(vars, doms, map[])
    && (forall c :: c in vars <==> InGrid(cfg, c))
    && (forall c, x :: c in vars && c in doms ==> (x in doms[c] <==> Fits(cfg, c, x)))
  }

  /** The script's encoding is such a problem. */
  lemma EncodingFacts(cfg: Config)
    requires WellFormedConfig(cfg) && Staffed(cfg)
    ensures EncodesGrid(cfg, Cells(cfg), Domains(cfg))
  {
    CellsDistinct(cfg);
    forall c ensures c in Cells(cfg) <==> InGrid(cfg, c) {
      CellsExact(cfg, c);
    }
    forall c, x | c in Cells(cfg) && c in Domains(cfg)
      ensures x in Domains(cfg)[c] <==> Fits(cfg, c, x)
    {
      CellDomainExact(cfg, c, x);
    }
  }

  /** A solution of such a problem under the three checks is a timetable. */
  lemma SolutionIsTimetable(cfg: Config, vars: seq<Cell>, doms: map<Cell, seq<Candidate>>, r: map<Cell, Candidate>)
    requires TablesComplete(cfg) && EncodesGrid(cfg, vars, doms)
    requires Solves(vars, doms, Checks(cfg), map[], r)
    ensures IsTimetable(cfg, r)
  {
    var none: map<Cell, Candidate> := map[];
    UnassignedOfEmpty(vars, none);
    PlacedMeansPairwise(cfg, none, r, vars);
  }

  /** A timetable is a solution of such a problem under the three checks. */
  lemma TimetableIsSolution(cfg: Config, vars: seq<Cell>, doms: map<Cell, seq<Candidate>>, r: map<Cell, Candidate>)
    requires TablesComplete(cfg) && EncodesGrid(cfg, vars, doms)
    requires IsTimetable(cfg, r)
    ensures Solves(vars, doms, Checks(cfg), map[], r)
  {
    var none: map<Cell, Candidate> := map[];
    UnassignedOfEmpty(vars, none);
    PairwiseMeansPlaced(cfg, none, r, vars);
  }

  /** The timetable the engine returns for the encoding, if any: the
      first one in the search order. */
  ghost function FirstTimetable(cfg: Config): Option<map<Cell, Candidate>>
    requires WellFormedConfig(cfg) && Staffed(cfg)
  {
    EncodingFacts(cfg);
    Search(Cells(cfg), Domains(cfg), Checks(cfg), map[])
  }

  /** What the engine accepts as a solution of the encoding is exactly a
      timetable. */
  lemma SolutionsAreTimetables(cfg: Config, r: map<Cell, Candidate>)
    requires WellFormedConfig(cfg) && Staffed(cfg)
    ensures WellFormed(Cells(cfg), Domains(cfg), map[])
    ensures Solves(Cells(cfg), Domains(cfg), Checks(cfg), map[], r) <==> IsTimetable(cfg, r)
  {
    EncodingFacts(cfg);
    if Solves(Cells(cfg), Domains(cfg), Checks(cfg), map[], r) {
      SolutionIsTimetable(cfg, Cells(cfg), Domains(cfg), r);
    }
    if IsTimetable(cfg, r) {
      TimetableIsSolution(cfg, Cells(cfg), Domains(cfg), r);
    }
  }

  // ---------------------------------------------------------------------
  // Materializer (CSVEngine.py:221-236)
  // ---------------------------------------------------------------------

  /** `schedule[g][day][s][t]`. */
  type Schedule = map<int, map<Day, map<Section, map<int, Candidate>>>>

  function Lookup(schedule: Schedule, c: Cell): Option<Candidate>
  {
    if c.grade in schedule && c.day in schedule[c.grade] && c.section in schedule[c.grade][c.day] &&
       c.slot in schedule[c.grade][c.day][c.section]
    then Some(schedule[c.grade][c.day][c.section][c.slot])
    else None
  }

  function Find(m: map<Cell, Candidate>, c: Cell): Option<Candidate>
  {
    if c in m then Some(m[c]) else None
  }

  /** A grade, day or section is only opened on the way to storing a
      value, so no level of the nesting is left empty. */
  predicate NoEmptyLevel(schedule: Schedule)
  {
    forall g :: g in schedule ==> schedule[g] != map[] && NoEmptyDay(schedule[g])
  }

  predicate NoEmptyDay(days: map<Day, map<Section, map<int, Candidate>>>)
  {
    forall d :: d in days ==> days[d] != map[] && NoEmptySection(days[d])
  }

  predicate NoEmptySection(sections: map<Section, map<int, Candidate>>)
  {
    forall s :: s in sections ==> sections[s] != map[]
  }

  /** Nest the flat solution: every cell's value is found under its
      grade, day, section and slot, nothing else is found, and no grade,
      day or section is opened without a cell under it. */
  method Materialize(solution: map<Cell, Candidate>) returns (schedule: Schedule)
    ensures forall c :: Lookup(schedule, c) == Find(solution, c)
    ensures NoEmptyLevel(schedule)
  {
    schedule := map[];
    var todo := solution.Keys;
    while todo != {}
      invariant todo <= solution.Keys
      invariant forall c :: Lookup(schedule, c) == if c in todo then None else Find(solution, c)
      invariant NoEmptyLevel(schedule)
      decreases todo
    {
      var cell :| cell in todo;
      schedule := Store(schedule, cell, solution[cell]);
      todo := todo - {cell};
    }
  }

  /** One step of the loop: open the grade, day and section if missing,
      then store the value under its slot. */
  method Store(before: Schedule, cell: Cell, value: Candidate) returns (schedule: Schedule)
    ensures forall c :: Lookup(schedule, c) == if c == cell then Some(value) else Lookup(before, c)
    ensures NoEmptyLevel(before) ==> NoEmptyLevel(schedule)
  {
    var g, day, s, t := cell.grade, cell.day, cell.section, cell.slot;
    var grade := if g in before then before[g] else map[];
    var sections := if day in grade then grade[day] else map[];
    var slots := if s in sections then sections[s] else map[];
    var slots' := slots[t := value];
    var sections' := sections[s := slots'];
    var grade' := grade[day := sections'];
    schedule := before[g := grade'];
    forall c ensures Lookup(schedule, c) == if c == cell then Some(value) else Lookup(before, c) {
      if c.grade != g {
        if c.grade in before { assert schedule[c.grade] == before[c.grade]; }
      } else if c.day != day {
        assert c.day in grade' <==> c.day in grade;
      } else if c.section != s {
        assert c.section in sections' <==> c.section in sections;
      }
    }
    assert t in slots';
    if !NoEmptyLevel(before) {
      return;
    }
    assert NoEmptySection(sections') by {
      if sections != map[] { assert NoEmptySection(sections); }
    }
    assert NoEmptyDay(grade') by {
      if grade != map[] { assert NoEmptyDay(grade); }
    }
  }

  // ---------------------------------------------------------------------
  // The script (CSVEngine.py:218-236)
  // ---------------------------------------------------------------------

  /** How a run of the script ends: the encoding raised, "No solution
      found.", or a nested schedule. */
  datatype Run = Raised(missing: Missing) | NoSolution | Solved(schedule: Schedule)

  /** Encode, search, and materialize when `if solution:` holds. With no
      cells at all the engine's empty solution is falsy, so that run also
      reports no solution. */
  method Solve(cfg: Config) returns (run: Run)
    requires WellFormedConfig(cfg)
    ensures run.Raised? <==> !Staffed(cfg)
    ensures run.NoSolution? <==> Staffed(cfg) && (Cells(cfg) == [] || !exists r :: IsTimetable(cfg, r))
    ensures run.Solved? ==> exists r :: IsTimetable(cfg, r) && forall c :: Lookup(run.schedule, c) == Find(r, c)
    ensures run.Solved? ==> Staffed(cfg) && FirstTimetable(cfg).Some? &&
                            forall c :: Lookup(run.schedule, c) == Find(FirstTimetable(cfg).value, c)
  {
    var encoding := BuildEncoding(cfg);
    if encoding.Failure? {
      return Raised(encoding.error);
    }
    CellsDistinct(cfg);
    var engine := new Engine(encoding.value.variables, encoding.value.domains, Checks(cfg));
    var solution := engine.BacktrackingSearch();
    forall r ensures Solves(Cells(cfg), Domains(cfg), Checks(cfg), map[], r) <==> IsTimetable(cfg, r) {
      SolutionsAreTimetables(cfg, r);
    }
    if solution != null && solution.entries != map[] {
      var schedule := Materialize(solution.entries);
      assert IsTimetable(cfg, solution.entries);
      return Solved(schedule);
    }
    if solution != null {
      SolutionEmptyIff(Cells(cfg), Domains(cfg), Checks(cfg), map[], solution.entries);
    }
    return NoSolution;
  }
}
