/** The timetabling script of main.py: one variable per (day, section,
    time) cell, a domain of (subject, teacher) candidates per cell drawn
    from a single teacher-to-subject table, the three constraints, and the
    materializer that nests the solution by day, section and time.

    Variables are a record `Cell` rather than strings such as "D1_SA_T2".
    The constraint on back-to-back lessons in main.py bounds the times
    it looks at by the constants 1 and 4 rather than by `time_slots`;
    the model keeps those constants. */
module DayTimetable {
  import opened Wrappers
  import opened Roster
  import opened Backtracking

  type Section = string

  /** One schedulable cell; `day` is also the key of its calendar. */
  datatype Cell = Cell(day: int, section: Section, time: int)

  /** The static tables of the script: `days`, `sections`, `time_slots`,
      `subjects_day`, and the items of `teacher_subject_map`. */
  datatype Config = Config(
    days: seq<int>,
    sections: seq<Section>,
    times: seq<int>,
    subjectsOf: map<int, seq<Subject>>,
    qualifications: seq<(Teacher, Subject)>)

  /** The bounds that `c3` writes out for the times it checks. */
  const FirstTime := 1
  const LastTime := 4

  ghost predicate TablesComplete(cfg: Config)
  {
    forall day :: day in cfg.days ==> day in cfg.subjectsOf
  }

  ghost predicate WellFormedConfig(cfg: Config)
  {
    && TablesComplete(cfg)
    && Distinct(cfg.days) && Distinct(cfg.sections) && Distinct(cfg.times)
    && DistinctKeys(cfg.qualifications)
  }

  /** Every time slot lies within the bounds that `c3` writes out, as it
      does for the script's own `time_slots`. */
  ghost predicate TimesWithinBounds(cfg: Config)
  {
    forall t :: t in cfg.times ==> FirstTime <= t <= LastTime
  }

  ghost predicate InGrid(cfg: Config, c: Cell)
  {
    c.day in cfg.days && c.section in cfg.sections && c.time in cfg.times
  }

  ghost predicate CellStaffed(cfg: Config, c: Cell)
    requires TablesComplete(cfg) && InGrid(cfg, c)
  {
    forall s :: s in cfg.subjectsOf[c.day] ==> s in Invert(cfg.qualifications)
  }

  ghost predicate Staffed(cfg: Config)
    requires TablesComplete(cfg)
  {
    forall c :: InGrid(cfg, c) ==> CellStaffed(cfg, c)
  }

  // ---------------------------------------------------------------------
  // Variables, in the nesting order of the loops at main.py:75-79
  // ---------------------------------------------------------------------

  function TimeCells(day: int, s: Section, times: seq<int>): seq<Cell>
  {
    if times == [] then []
    else TimeCells(day, s, times[..|times| - 1]) + [Cell(day, s, times[|times| - 1])]
  }

  function SectionCells(day: int, sections: seq<Section>, times: seq<int>): seq<Cell>
  {
    if sections == [] then []
    else SectionCells(day, sections[..|sections| - 1], times) + TimeCells(day, sections[|sections| - 1], times)
  }

  function DayCells(days: seq<int>, sections: seq<Section>, times: seq<int>): seq<Cell>
  {
    if days == [] then []
    else DayCells(days[..|days| - 1], sections, times) + SectionCells(days[|days| - 1], sections, times)
  }

  /** The script's `variables` list. */
  function Cells(cfg: Config): seq<Cell>
  {
    DayCells(cfg.days, cfg.sections, cfg.times)
  }

  lemma {:induction false} TimeCellsIn(day: int, s: Section, times: seq<int>, c: Cell)
    ensures c in TimeCells(day, s, times) <==> c.day == day && c.section == s && c.time in times
  {
    if times != [] {
      var init := times[..|times| - 1];
      assert times == init + [times[|times| - 1]];
      TimeCellsIn(day, s, init, c);
    }
  }

  lemma {:induction false} SectionCellsIn(day: int, sections: seq<Section>, times: seq<int>, c: Cell)
    ensures c in SectionCells(day, sections, times) <==> c.day == day && c.section in sections && c.time in times
  {
    if sections != [] {
      var init := sections[..|sections| - 1];
      assert sections == init + [sections[|sections| - 1]];
      SectionCellsIn(day, init, times, c);
      TimeCellsIn(day, sections[|sections| - 1], times, c);
    }
  }

  lemma {:induction false} DayCellsIn(days: seq<int>, sections: seq<Section>, times: seq<int>, c: Cell)
    ensures c in DayCells(days, sections, times) <==> c.day in days && c.section in sections && c.time in times
  {
    if days != [] {
      var init := days[..|days| - 1];
      assert days == init + [days[|days| - 1]];
      DayCellsIn(init, sections, times, c);
      SectionCellsIn(days[|days| - 1], sections, times, c);
    }
  }

  /** There is one variable per cell of the grid, and no other. */
  lemma CellsExact(cfg: Config, c: Cell)
    ensures c in Cells(cfg) <==> InGrid(cfg, c)
  {
    DayCellsIn(cfg.days, cfg.sections, cfg.times, c);
  }

  lemma {:induction false} TimeCellsDistinct(day: int, s: Section, times: seq<int>)
    requires Distinct(times)
    ensures Distinct(TimeCells(day, s, times))
  {
    if times != [] {
      var init := times[..|times| - 1];
      DistinctInit(times);
      TimeCellsDistinct(day, s, init);
      forall c | c in TimeCells(day, s, init) ensures c !in [Cell(day, s, times[|times| - 1])] {
        TimeCellsIn(day, s, init, c);
      }
      DistinctAppend(TimeCells(day, s, init), [Cell(day, s, times[|times| - 1])]);
    }
  }

  lemma {:induction false} SectionCellsDistinct(day: int, sections: seq<Section>, times: seq<int>)
    requires Distinct(sections) && Distinct(times)
    ensures Distinct(SectionCells(day, sections, times))
  {
    if sections != [] {
      var init := sections[..|sections| - 1];
      var last := sections[|sections| - 1];
      DistinctInit(sections);
      SectionCellsDistinct(day, init, times);
      TimeCellsDistinct(day, last, times);
      forall c | c in SectionCells(day, init, times) ensures c !in TimeCells(day, last, times) {
        SectionCellsIn(day, init, times, c);
        TimeCellsIn(day, last, times, c);
      }
      DistinctAppend(SectionCells(day, init, times), TimeCells(day, last, times));
    }
  }

  lemma {:induction false} DayCellsDistinct(days: seq<int>, sections: seq<Section>, times: seq<int>)
    requires Distinct(days) && Distinct(sections) && Distinct(times)
    ensures Distinct(DayCells(days, sections, times))
  {
    if days != [] {
      var init := days[..|days| - 1];
      var last := days[|days| - 1];
      DistinctInit(days);
      DayCellsDistinct(init, sections, times);
      SectionCellsDistinct(last, sections, times);
      forall c | c in DayCells(init, sections, times) ensures c !in SectionCells(last, sections, times) {
        DayCellsIn(init, sections, times, c);
        SectionCellsIn(last, sections, times, c);
      }
      DistinctAppend(DayCells(init, sections, times), SectionCells(last, sections, times));
    }
  }

  /** Distinct days, sections and times give distinct variables. */
  lemma CellsDistinct(cfg: Config)
    requires Distinct(cfg.days) && Distinct(cfg.sections) && Distinct(cfg.times)
    ensures Distinct(Cells(cfg))
  {
    DayCellsDistinct(cfg.days, cfg.sections, cfg.times);
  }

  // ---------------------------------------------------------------------
  // Domains (main.py:68-83)
  // ---------------------------------------------------------------------

  function CellDomain(cfg: Config, c: Cell): seq<Candidate>
    requires TablesComplete(cfg) && InGrid(cfg, c) && CellStaffed(cfg, c)
  {
    DayDomain(cfg.subjectsOf[c.day], Invert(cfg.qualifications))
  }

  /** The script's `domains` dictionary. */
  ghost function Domains(cfg: Config): map<Cell, seq<Candidate>>
    requires TablesComplete(cfg) && Staffed(cfg)
  {
    map c | c in Cells(cfg) :: (CellsExact(cfg, c); CellDomain(cfg, c))
  }

  /** A candidate is in a cell's domain exactly when its subject is on the
      day's calendar and the table maps its teacher to that subject. */
  lemma CellDomainExact(cfg: Config, c: Cell, x: Candidate)
    requires WellFormedConfig(cfg) && InGrid(cfg, c) && CellStaffed(cfg, c)
    ensures x in CellDomain(cfg, c) <==> x.subject in cfg.subjectsOf[c.day] && Get(cfg.qualifications, x.teacher) == Some(x.subject)
  {
    DomainOfDictionary(cfg.subjectsOf[c.day], cfg.qualifications, x);
  }

  datatype Encoding = Encoding(variables: seq<Cell>, domains: map<Cell, seq<Candidate>>)

  ghost predicate Encoded(cfg: Config, variables: seq<Cell>, domains: map<Cell, seq<Candidate>>)
    requires TablesComplete(cfg)
  {
    && (forall c :: c in domains ==> c in variables)
    && (forall c :: c in variables ==> c in domains)
    && (forall c :: c in domains ==> InGrid(cfg, c) && CellStaffed(cfg, c) && domains[c] == CellDomain(cfg, c))
  }

  lemma EncodedStep(cfg: Config, variables: seq<Cell>, domains: map<Cell, seq<Candidate>>, cell: Cell,
                    domain: seq<Candidate>)
    requires TablesComplete(cfg) && Encoded(cfg, variables, domains)
    requires InGrid(cfg, cell) && CellStaffed(cfg, cell) && domain == CellDomain(cfg, cell)
    ensures Encoded(cfg, variables + [cell], domains[cell := domain])
  {
  }

  /** `subject_teacher_map[subject]` raises: the subject is on the calendar
      of some cell and no teacher teaches it. */
  ghost predicate Unstaffed(cfg: Config, subject: Subject)
    requires TablesComplete(cfg)
  {
    subject !in Invert(cfg.qualifications) &&
    exists c :: InGrid(cfg, c) && subject in cfg.subjectsOf[c.day]
  }

  /** The time loop of main.py:77-83 for one day and section. */
  method EncodeSection(cfg: Config, day: int, s: Section, bySubject: map<Subject, seq<Teacher>>,
                       variables: seq<Cell>, domains: map<Cell, seq<Candidate>>)
    returns (r: Result<(seq<Cell>, map<Cell, seq<Candidate>>), Subject>)
    requires TablesComplete(cfg) && Encoded(cfg, variables, domains)
    requires day in cfg.days && s in cfg.sections
    requires bySubject == Invert(cfg.qualifications)
    ensures r.Success? ==> r.value.0 == variables + TimeCells(day, s, cfg.times) && Encoded(cfg, r.value.0, r.value.1)
    ensures r.Failure? ==> Unstaffed(cfg, r.error)
    ensures r.Failure? ==> FirstUnlisted(cfg.subjectsOf[day], bySubject, r.error)
  {
    var vs, ds := variables, domains;
    var ti := 0;
    while ti < |cfg.times|
      invariant 0 <= ti <= |cfg.times|
      invariant vs == variables + TimeCells(day, s, cfg.times[..ti])
      invariant Encoded(cfg, vs, ds)
    {
      var t := cfg.times[ti];
      var cell := Cell(day, s, t);
      assert InGrid(cfg, cell);
      assert cfg.times[..ti + 1][..ti] == cfg.times[..ti];
      var domain := BuildDomain(cfg.subjectsOf[day], bySubject);
      if domain.Failure? {
        return Failure(domain.error);
      }
      EncodedStep(cfg, vs, ds, cell, domain.value);
      vs, ds := vs + [cell], ds[cell := domain.value];
      ti := ti + 1;
    }
    assert cfg.times[..ti] == cfg.times;
    return Success((vs, ds));
  }

  /** The section loop of main.py:76-83 for one day. */
  method EncodeDay(cfg: Config, day: int, bySubject: map<Subject, seq<Teacher>>,
                   variables: seq<Cell>, domains: map<Cell, seq<Candidate>>)
    returns (r: Result<(seq<Cell>, map<Cell, seq<Candidate>>), Subject>)
    requires TablesComplete(cfg) && Encoded(cfg, variables, domains)
    requires day in cfg.days
    requires bySubject == Invert(cfg.qualifications)
    ensures r.Success? ==> r.value.0 == variables + SectionCells(day, cfg.sections, cfg.times) &&
                           Encoded(cfg, r.value.0, r.value.1)
    ensures r.Failure? ==> Unstaffed(cfg, r.error)
    ensures r.Failure? ==> FirstUnlisted(cfg.subjectsOf[day], bySubject, r.error)
  {
    var vs, ds := variables, domains;
    var si := 0;
    while si < |cfg.sections|
      invariant 0 <= si <= |cfg.sections|
      invariant vs == variables + SectionCells(day, cfg.sections[..si], cfg.times)
      invariant Encoded(cfg, vs, ds)
    {
      var s := cfg.sections[si];
      assert cfg.sections[..si + 1][..si] == cfg.sections[..si];
      var added := EncodeSection(cfg, day, s, bySubject, vs, ds);
      if added.Failure? {
        return Failure(added.error);
      }
      SeqAssoc(variables, SectionCells(day, cfg.sections[..si], cfg.times), TimeCells(day, s, cfg.times));
      vs, ds := added.value.0, added.value.1;
      si := si + 1;
    }
    assert cfg.sections[..si] == cfg.sections;
    return Success((vs, ds));
  }

  /** The encoding of main.py:68-83: `subject_teacher_map`, then the
      variables and domains day by day. It stops with the dictionary lookup
      that raises when a calendar subject has no teacher. */
  method BuildEncoding(cfg: Config) returns (r: Result<Encoding, Subject>)
    requires TablesComplete(cfg)
    ensures r.Success? <==> Staffed(cfg)
    ensures r.Success? ==> r.value.variables == Cells(cfg) && r.value.domains == Domains(cfg)
    ensures r.Failure? ==> Unstaffed(cfg, r.error)
  {
    var bySubject := InvertQualifications(cfg.qualifications);
    var variables: seq<Cell> := [];
    var domains: map<Cell, seq<Candidate>> := map[];
    var di := 0;
    while di < |cfg.days|
      invariant 0 <= di <= |cfg.days|
      invariant variables == DayCells(cfg.days[..di], cfg.sections, cfg.times)
      invariant Encoded(cfg, variables, domains)
    {
      var day := cfg.days[di];
      assert cfg.days[..di + 1][..di] == cfg.days[..di];
      assert DayCells(cfg.days[..di + 1], cfg.sections, cfg.times) ==
             variables + SectionCells(day, cfg.sections, cfg.times);
      var added := EncodeDay(cfg, day, bySubject, variables, domains);
      if added.Failure? {
        UnstaffedMeansNotStaffed(cfg, added.error);
        return Failure(added.error);
      }
      variables, domains := added.value.0, added.value.1;
      di := di + 1;
    }
    assert cfg.days[..di] == cfg.days;
    EncodedComplete(cfg, variables, domains);
    return Success(Encoding(variables, domains));
  }

  /** Once every cell of the grid is encoded, every cell was staffed and
      the domains are the specified ones. */
  lemma EncodedComplete(cfg: Config, variables: seq<Cell>, domains: map<Cell, seq<Candidate>>)
    requires TablesComplete(cfg)
    requires variables == Cells(cfg) && Encoded(cfg, variables, domains)
    ensures Staffed(cfg) && domains == Domains(cfg)
  {
    forall c | InGrid(cfg, c) ensures CellStaffed(cfg, c) {
      CellsExact(cfg, c);
    }
    assert domains == Domains(cfg) by {
      forall c ensures c in domains <==> c in Cells(cfg) {
      }
    }
  }

  lemma UnstaffedMeansNotStaffed(cfg: Config, subject: Subject)
    requires TablesComplete(cfg) && Unstaffed(cfg, subject)
    ensures !Staffed(cfg)
  {
    var c :| InGrid(cfg, c) && subject in cfg.subjectsOf[c.day];
    assert !CellStaffed(cfg, c);
  }

  // ---------------------------------------------------------------------
  // Constraints (main.py:85-126)
  // ---------------------------------------------------------------------

  /** `c1`: no other time of the same day and section already holds the
      candidate's subject. */
  predicate Constraint1(times: seq<int>, v: Cell, x: Candidate, a: map<Cell, Candidate>)
  {
    forall i :: 0 <= i < |times| ==>
      var other := Cell(v.day, v.section, times[i]);
      !(other in a && other != v && a[other].subject == x.subject)
  }

  /** `c2`: no other section of the same day and time already holds the
      candidate's teacher. */
  predicate Constraint2(sections: seq<Section>, v: Cell, x: Candidate, a: map<Cell, Candidate>)
  {
    forall i :: 0 <= i < |sections| ==>
      var other := Cell(v.day, sections[i], v.time);
      !(other in a && other != v && a[other].teacher == x.teacher)
  }

  /** One round of the `for dt in [-1, 1]` loop of `c3`: a time outside
      1..4 is skipped, otherwise no section may hold the candidate's
      teacher then. */
  predicate FreeAt(sections: seq<Section>, v: Cell, x: Candidate, a: map<Cell, Candidate>, time: int)
  {
    time < FirstTime || time > LastTime ||
    forall i :: 0 <= i < |sections| ==>
      var adjacent := Cell(v.day, sections[i], time);
      !(adjacent in a && a[adjacent].teacher == x.teacher)
  }

  /** `c3`: the teacher holds neither the time before nor the time after,
      in any section of the same day. */
  predicate Constraint3(sections: seq<Section>, v: Cell, x: Candidate, a: map<Cell, Candidate>)
  {
    FreeAt(sections, v, x, a, v.time - 1) && FreeAt(sections, v, x, a, v.time + 1)
  }

  /** The list `[c1, c2, c3]` handed to the engine. */
  function Checks(cfg: Config): seq<Constraint<Cell, Candidate>>
  {
    [ (v, x, a) => Constraint1(cfg.times, v, x, a),
      (v, x, a) => Constraint2(cfg.sections, v, x, a),
      (v, x, a) => Constraint3(cfg.sections, v, x, a) ]
  }

  /** Two placed cells conflict: same day, and either the same section
      with the same subject, or the same or a neighbouring time with the
      same teacher. The relation is symmetric. */
  predicate Clash(c: Cell, x: Candidate, d: Cell, y: Candidate)
  {
    c != d && c.day == d.day &&
    ((c.section == d.section && x.subject == y.subject) ||
     (c.time == d.time && x.teacher == y.teacher) ||
     ((c.time == d.time + 1 || d.time == c.time + 1) && x.teacher == y.teacher))
  }

  ghost predicate Pairwise(a: map<Cell, Candidate>)
  {
    forall c, d :: c in a && d in a ==> !Clash(c, a[c], d, a[d])
  }

  /** The placed cells lie on the grid, at times that `c3` looks at. */
  ghost predicate OnGrid(cfg: Config, a: map<Cell, Candidate>)
  {
    forall c :: c in a ==> c.section in cfg.sections && c.time in cfg.times && FirstTime <= c.time <= LastTime
  }

  /** A candidate that passes the three constraints conflicts with no
      single placed cell. */
  lemma PassedMeansNoClashWith(cfg: Config, v: Cell, x: Candidate, a: map<Cell, Candidate>, c: Cell)
    requires OnGrid(cfg, a) && c in a
    requires Constraint1(cfg.times, v, x, a) && Constraint2(cfg.sections, v, x, a) && Constraint3(cfg.sections, v, x, a)
    ensures !Clash(v, x, c, a[c])
  {
    var i :| 0 <= i < |cfg.times| && cfg.times[i] == c.time;
    var k :| 0 <= k < |cfg.sections| && cfg.sections[k] == c.section;
    assert Cell(v.day, v.section, cfg.times[i]) == Cell(v.day, v.section, c.time);
    assert Cell(v.day, cfg.sections[k], v.time) == Cell(v.day, c.section, v.time);
    assert FreeAt(cfg.sections, v, x, a, v.time - 1);
    assert FreeAt(cfg.sections, v, x, a, v.time + 1);
    assert Cell(v.day, cfg.sections[k], c.time) == Cell(v.day, c.section, c.time);
  }

  /** The three constraints accept a candidate exactly when it conflicts
      with no cell already placed, as long as the placed cells lie at
      times within 1..4. */
  lemma CheckMeansNoClash(cfg: Config, v: Cell, x: Candidate, a: map<Cell, Candidate>)
    requires OnGrid(cfg, a)
    ensures AllHold(Checks(cfg), v, x, a) <==> forall c :: c in a ==> !Clash(v, x, c, a[c])
  {
    var cs := Checks(cfg);
    assert AllHold(cs, v, x, a) <==>
           Constraint1(cfg.times, v, x, a) && Constraint2(cfg.sections, v, x, a) &&
           Constraint3(cfg.sections, v, x, a) by {
      assert cs[0](v, x, a) == Constraint1(cfg.times, v, x, a);
      assert cs[1](v, x, a) == Constraint2(cfg.sections, v, x, a);
      assert cs[2](v, x, a) == Constraint3(cfg.sections, v, x, a);
    }
    if Constraint1(cfg.times, v, x, a) && Constraint2(cfg.sections, v, x, a) &&
       Constraint3(cfg.sections, v, x, a) {
      forall c | c in a ensures !Clash(v, x, c, a[c]) {
        PassedMeansNoClashWith(cfg, v, x, a, c);
      }
    }
  }

  /** Whatever the times, a candidate that clashes with no placed cell
      passes the three constraints: they look at fewer pairs than `Clash`
      forbids. */
  lemma NoClashMeansCheck(cfg: Config, v: Cell, x: Candidate, a: map<Cell, Candidate>)
    requires forall c :: c in a ==> !Clash(v, x, c, a[c])
    ensures AllHold(Checks(cfg), v, x, a)
  {
    var cs := Checks(cfg);
    assert Constraint1(cfg.times, v, x, a) by {
      forall i | 0 <= i < |cfg.times|
        ensures var other := Cell(v.day, v.section, cfg.times[i]);
                !(other in a && other != v && a[other].subject == x.subject)
      {
        var other := Cell(v.day, v.section, cfg.times[i]);
        if other in a { assert !Clash(v, x, other, a[other]); }
      }
    }
    assert Constraint2(cfg.sections, v, x, a) by {
      forall i | 0 <= i < |cfg.sections|
        ensures var other := Cell(v.day, cfg.sections[i], v.time);
                !(other in a && other != v && a[other].teacher == x.teacher)
      {
        var other := Cell(v.day, cfg.sections[i], v.time);
        if other in a { assert !Clash(v, x, other, a[other]); }
      }
    }
    forall t | t == v.time - 1 || t == v.time + 1 ensures FreeAt(cfg.sections, v, x, a, t) {
      forall i | 0 <= i < |cfg.sections|
        ensures var adjacent := Cell(v.day, cfg.sections[i], t);
                !(adjacent in a && a[adjacent].teacher == x.teacher)
      {
        var adjacent := Cell(v.day, cfg.sections[i], t);
        if adjacent in a { assert !Clash(v, x, adjacent, a[adjacent]); }
      }
    }
    assert cs[0](v, x, a) && cs[1](v, x, a) && cs[2](v, x, a);
  }

  /** A value opposite a neighbour outside 1..4 is never checked against
      it: `c3` accepts a teacher at time 4 next to the same teacher at
      time 5. */
  lemma BoundSkipsNeighbour(sections: seq<Section>, x: Candidate)
    requires sections != []
    ensures var a := map[Cell(1, sections[0], LastTime + 1) := x];
            Constraint3(sections, Cell(1, sections[0], LastTime), x, a) &&
            Clash(Cell(1, sections[0], LastTime), x, Cell(1, sections[0], LastTime + 1), x)
  {
  }

  lemma {:induction false} PlacedMeansPairwise(cfg: Config, a: map<Cell, Candidate>, r: map<Cell, Candidate>, u: seq<Cell>)
    requires Pairwise(a)
    requires OnGrid(cfg, r)
    requires forall c :: c in a ==> c in r && r[c] == a[c]
    requires forall c :: c in r ==> c in a || c in u
    requires PlacedConsistently(Checks(cfg), a, r, u)
    ensures Pairwise(r)
    decreases |u|
  {
    if u == [] {
      assert a == r by {
        assert a.Keys == r.Keys;
      }
    } else {
      var v := u[0];
      var a' := a[v := r[v]];
      CheckMeansNoClash(cfg, v, r[v], a);
      assert Pairwise(a') by {
        forall c, d | c in a' && d in a' ensures !Clash(c, a'[c], d, a'[d]) {
          if c != v && d != v {
            assert !Clash(c, a[c], d, a[d]);
          }
        }
      }
      PlacedMeansPairwise(cfg, a', r, u[1..]);
    }
  }

  lemma {:induction false} PairwiseMeansPlaced(cfg: Config, a: map<Cell, Candidate>, r: map<Cell, Candidate>, u: seq<Cell>)
    requires Pairwise(r)
    requires forall c :: c in a ==> c in r && r[c] == a[c]
    requires forall c :: c in u ==> c in r
    ensures PlacedConsistently(Checks(cfg), a, r, u)
    decreases |u|
  {
    if u != [] {
      var v := u[0];
      forall c | c in a ensures !Clash(v, r[v], c, a[c]) {
        assert !Clash(v, r[v], c, r[c]);
      }
      NoClashMeansCheck(cfg, v, r[v], a);
      PairwiseMeansPlaced(cfg, a[v := r[v]], r, u[1..]);
    }
  }

  /** The candidate suits the cell: its subject is on the day's calendar
      and the table maps its teacher to that subject. */
  ghost predicate Fits(cfg: Config, c: Cell, x: Candidate)
    requires TablesComplete(cfg) && InGrid(cfg, c)
  {
    x.subject in cfg.subjectsOf[c.day] && Get(cfg.qualifications, x.teacher) == Some(x.subject)
  }

  /** A timetable for the configuration, stated without the engine: every
      cell of the grid gets a candidate that fits it, and no two cells
      conflict. */
  ghost predicate IsTimetable(cfg: Config, r: map<Cell, Candidate>)
    requires TablesComplete(cfg)
  {
    && (forall c :: c in r ==> InGrid(cfg, c))
    && (forall c :: InGrid(cfg, c) ==> c in r)
    && (forall c :: c in r ==> Fits(cfg, c, r[c]))
    && Pairwise(r)
  }

  /** A problem whose variables are the grid cells and whose domains hold
      exactly the candidates that fit. */
  ghost predicate EncodesGrid(cfg: Config, vars: seq<Cell>, doms: map<Cell, seq<Candidate>>)
    requires TablesComplete(cfg)
  {
    && WellFormed(vars, doms, map[])
    && (forall c :: c in vars <==> InGrid(cfg, c))
    && (forall c, x :: c in vars && c in doms ==> (x in doms[c] <==> Fits(cfg, c, x)))
  }

  /** The script's encoding is such a problem. */
  lemma EncodingFacts(cfg: Config)
    requires WellFormedConfig(cfg) && Staffed(cfg)
    ensures EncodesGrid(cfg, Cells(cfg), Domains(cfg))
  {
    CellsDistinct(cfg);
    forall c ensures c in Cells(cfg) <==> InGrid(cfg, c) {
      CellsExact(cfg, c);
    }
    forall c, x | c in Cells(cfg) && c in Domains(cfg)
      ensures x in Domains(cfg)[c] <==> Fits(cfg, c, x)
    {
      CellDomainExact(cfg, c, x);
    }
  }

  /** The timetable the engine returns for the encoding, if any. */
  ghost function FirstTimetable(cfg: Config): Option<map<Cell, Candidate>>
    requires WellFormedConfig(cfg) && Staffed(cfg)
  {
    EncodingFacts(cfg);
    Search(Cells(cfg), Domains(cfg), Checks(cfg), map[])
  }

  /** With the times inside the bounds of `c3`, a solution of such a
      problem under the three checks is a timetable. */
  lemma SolutionIsTimetable(cfg: Config, vars: seq<Cell>, doms: map<Cell, seq<Candidate>>, r: map<Cell, Candidate>)
    requires TablesComplete(cfg) && TimesWithinBounds(cfg) && EncodesGrid(cfg, vars, doms)
    requires Solves(vars, doms, Checks(cfg), map[], r)
    ensures IsTimetable(cfg, r)
  {
    var none: map<Cell, Candidate> := map[];
    UnassignedOfEmpty(vars, none);
    PlacedMeansPairwise(cfg, none, r, vars);
  }

  /** A timetable is a solution of such a problem under the three checks,
      whatever the times. */
  lemma TimetableIsSolution(cfg: Config, vars: seq<Cell>, doms: map<Cell, seq<Candidate>>, r: map<Cell, Candidate>)
    requires TablesComplete(cfg) && EncodesGrid(cfg, vars, doms)
    requires IsTimetable(cfg, r)
    ensures Solves(vars, doms, Checks(cfg), map[], r)
  {
    var none: map<Cell, Candidate> := map[];
    UnassignedOfEmpty(vars, none);
    PairwiseMeansPlaced(cfg, none, r, vars);
  }

  /** With the time slots inside the bounds of `c3`, what the engine
      accepts as a solution of the encoding is exactly a timetable. */
  lemma SolutionsAreTimetables(cfg: Config, r: map<Cell, Candidate>)
    requires WellFormedConfig(cfg) && Staffed(cfg) && TimesWithinBounds(cfg)
    ensures WellFormed(Cells(cfg), Domains(cfg), map[])
    ensures Solves(Cells(cfg), Domains(cfg), Checks(cfg), map[], r) <==> IsTimetable(cfg, r)
  {
    EncodingFacts(cfg);
    if Solves(Cells(cfg), Domains(cfg), Checks(cfg), map[], r) {
      SolutionIsTimetable(cfg, Cells(cfg), Domains(cfg), r);
    }
    if IsTimetable(cfg, r) {
      TimetableIsSolution(cfg, Cells(cfg), Domains(cfg), r);
    }
  }

  // ---------------------------------------------------------------------
  // Materializer (main.py:129-135)
  // ---------------------------------------------------------------------

  /** `schedule[day][section][time]`. */
  type Schedule = map<int, map<Section, map<int, Candidate>>>

  function Lookup(schedule: Schedule, c: Cell): Option<Candidate>
  {
    if c.day in schedule && c.section in schedule[c.day] && c.time in schedule[c.day][c.section]
    then Some(schedule[c.day][c.section][c.time])
    else None
  }

  function Find(m: map<Cell, Candidate>, c: Cell): Option<Candidate>
  {
    if c in m then Some(m[c]) else None
  }

  /** `setdefault` only opens a day or section on the way to storing a
      value, so no level of the nesting is left empty. */
  predicate NoEmptyLevel(schedule: Schedule)
  {
    forall d :: d in schedule ==>
      schedule[d] != map[] && forall s :: s in schedule[d] ==> schedule[d][s] != map[]
  }

  /** The `setdefault` chain: every cell's value is found under its day,
      section and time, nothing else is found, and no day or section is
      opened without a cell under it. */
  method Materialize(solution: map<Cell, Candidate>) returns (schedule: Schedule)
    ensures forall c :: Lookup(schedule, c) == Find(solution, c)
    ensures NoEmptyLevel(schedule)
  {
    schedule := map[];
    var todo := solution.Keys;
    while todo != {}
      invariant todo <= solution.Keys
      invariant forall c :: Lookup(schedule, c) == if c in todo then None else Find(solution, c)
      invariant NoEmptyLevel(schedule)
      decreases todo
    {
      var cell :| cell in todo;
      var value := solution[cell];
      var day, s, t := cell.day, cell.section, cell.time;
      ghost var before := schedule;
      if day !in schedule {
        schedule := schedule[day := map[]];
      }
      if s !in schedule[day] {
        schedule := schedule[day := schedule[day][s := map[]]];
      }
      schedule := schedule[day := schedule[day][s := schedule[day][s][t := value]]];
      forall c ensures Lookup(schedule, c) == if c == cell then Some(value) else Lookup(before, c) {
      }
      todo := todo - {cell};
    }
  }

  // ---------------------------------------------------------------------
  // The script (main.py:126-138)
  // ---------------------------------------------------------------------

  /** How the script ends before its window opens: the encoding raised,
      "No solution found." and exit, or a nested schedule. */
  datatype Run = Raised(subject: Subject) | NoSolution | Solved(schedule: Schedule)

  method Solve(cfg: Config) returns (run: Run)
    requires WellFormedConfig(cfg)
    ensures run.Raised? <==> !Staffed(cfg)
    ensures run.Raised? ==> Unstaffed(cfg, run.subject)
    ensures run.NoSolution? <==> Staffed(cfg) && (Cells(cfg) == [] || FirstTimetable(cfg).None?)
    ensures run.Solved? ==> Staffed(cfg) && FirstTimetable(cfg).Some? &&
                            forall c :: Lookup(run.schedule, c) == Find(FirstTimetable(cfg).value, c)
    ensures run.NoSolution? && Cells(cfg) != [] ==> forall r :: !IsTimetable(cfg, r)
  {
    var encoding := BuildEncoding(cfg);
    if encoding.Failure? {
      return Raised(encoding.error);
    }
    CellsDistinct(cfg);
    TimetableMeansFound(cfg);
    var engine := new Engine(encoding.value.variables, encoding.value.domains, Checks(cfg));
    var solution := engine.BacktrackingSearch();
    if solution != null {
      SolutionEmptyIff(Cells(cfg), Domains(cfg), Checks(cfg), map[], solution.entries);
    }
    if solution != null && solution.entries != map[] {
      var schedule := Materialize(solution.entries);
      return Solved(schedule);
    }
    return NoSolution;
  }

  /** With the times inside the bounds of `c3`, the search on such a
      problem succeeds exactly when a timetable exists, and what it finds
      is one. */
  lemma FoundIsTimetable(cfg: Config, vars: seq<Cell>, doms: map<Cell, seq<Candidate>>)
    requires TablesComplete(cfg) && TimesWithinBounds(cfg) && EncodesGrid(cfg, vars, doms)
    ensures Search(vars, doms, Checks(cfg), map[]).Some? <==> exists r :: IsTimetable(cfg, r)
    ensures Search(vars, doms, Checks(cfg), map[]).Some? ==> IsTimetable(cfg, Search(vars, doms, Checks(cfg), map[]).value)
  {
    var run := Search(vars, doms, Checks(cfg), map[]);
    SearchSucceedsIff(vars, doms, Checks(cfg), map[]);
    SearchSound(vars, doms, Checks(cfg), map[]);
    if run.Some? {
      SolutionIsTimetable(cfg, vars, doms, run.value);
    }
    if exists r :: IsTimetable(cfg, r) {
      var r :| IsTimetable(cfg, r);
      TimetableIsSolution(cfg, vars, doms, r);
    }
  }

  /** With the times inside the bounds of `c3`, the engine finds a
      timetable whenever one exists, and what it finds is one. */
  lemma FirstTimetableMeaning(cfg: Config)
    requires WellFormedConfig(cfg) && Staffed(cfg) && TimesWithinBounds(cfg)
    ensures FirstTimetable(cfg).Some? <==> exists r :: IsTimetable(cfg, r)
    ensures FirstTimetable(cfg).Some? ==> IsTimetable(cfg, FirstTimetable(cfg).value)
  {
    EncodingFacts(cfg);
    FoundIsTimetable(cfg, Cells(cfg), Domains(cfg));
  }

  /** Whatever the times, the engine finds a solution of the script's
      encoding whenever a timetable exists. */
  lemma TimetableMeansFound(cfg: Config)
    requires WellFormedConfig(cfg) && Staffed(cfg)
    ensures (exists r :: IsTimetable(cfg, r)) ==> FirstTimetable(cfg).Some?
  {
    EncodingFacts(cfg);
    if exists r :: IsTimetable(cfg, r) {
      var r :| IsTimetable(cfg, r);
      TimetableIsSolution(cfg, Cells(cfg), Domains(cfg), r);
      SearchComplete(Cells(cfg), Domains(cfg), Checks(cfg), map[], r);
    }
  }
}
