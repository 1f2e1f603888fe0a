/** The part of the timetabling encoding that CSVEngine.py and main.py
    share: inverting the teacher-to-subject table into qualified-teacher
    lists (`subject_teacher_map`) and listing one day's candidate
    (subject, teacher) pairs. A Python dictionary whose iteration order
    matters is modelled as its list of items. */
module Roster {
  import opened Wrappers

  type Subject = string
  type Teacher = string

  /** One candidate value of a timetable cell. */
  datatype Candidate = Candidate(subject: Subject, teacher: Teacher)

  /** The items of a dictionary have distinct keys. */
  predicate DistinctKeys<K(==), W>(items: seq<(K, W)>)
  {
    forall i, j :: 0 <= i < j < |items| ==> items[i].0 != items[j].0
  }

  /** Dictionary lookup `d[k]` on the items of `d`. */
  function Get<K(==), W>(items: seq<(K, W)>, k: K): Option<W>
  {
    if items == [] then None
    else if items[0].0 == k then Some(items[0].1)
    else Get(items[1..], k)
  }

  /** The teachers of `quals` whose subject is `subject`, in insertion order. */
  function TeachersOf(quals: seq<(Teacher, Subject)>, subject: Subject): seq<Teacher>
  {
    if quals == [] then []
    else
      var last := quals[|quals| - 1];
      TeachersOf(quals[..|quals| - 1], subject) + (if last.1 == subject then [last.0] else [])
  }

  /** The subjects that some teacher of `quals` teaches. */
  function Taught(quals: seq<(Teacher, Subject)>): set<Subject>
  {
    set i | 0 <= i < |quals| :: quals[i].1
  }

  /** What `subject_teacher_map` holds once built from `quals`. */
  function Invert(quals: seq<(Teacher, Subject)>): map<Subject, seq<Teacher>>
  {
    map s | s in Taught(quals) :: TeachersOf(quals, s)
  }

  lemma {:induction false} TeachersOfUntaught(quals: seq<(Teacher, Subject)>, subject: Subject)
    requires subject !in Taught(quals)
    ensures TeachersOf(quals, subject) == []
  {
    if quals != [] {
      var init := quals[..|quals| - 1];
      assert Taught(init) <= Taught(quals) by {
        forall s | s in Taught(init) ensures s in Taught(quals) {
          var i :| 0 <= i < |init| && init[i].1 == s;
          assert quals[i].1 == s;
        }
      }
      assert quals[|quals| - 1].1 in Taught(quals);
      TeachersOfUntaught(init, subject);
    }
  }

  /** Appending one item to the table appends its teacher to its subject's list. */
  lemma InvertSnoc(quals: seq<(Teacher, Subject)>, teacher: Teacher, subject: Subject)
    ensures Invert(quals + [(teacher, subject)]) ==
            Invert(quals)[subject := (if subject in Invert(quals) then Invert(quals)[subject] else []) + [teacher]]
  {
    var q := quals + [(teacher, subject)];
    assert q[..|q| - 1] == quals;
    assert Taught(q) == Taught(quals) + {subject} by {
      forall s | s in Taught(q) ensures s in Taught(quals) + {subject} {
        var i :| 0 <= i < |q| && q[i].1 == s;
        if i < |quals| { assert quals[i].1 == s; }
      }
      forall s | s in Taught(quals) ensures s in Taught(q) {
        var i :| 0 <= i < |quals| && quals[i].1 == s;
        assert q[i].1 == s;
      }
      assert q[|quals|].1 == subject;
    }
    if subject !in Taught(quals) {
      TeachersOfUntaught(quals, subject);
    }
    forall s | s in Taught(q)
      ensures TeachersOf(q, s) == TeachersOf(quals, s) + (if s == subject then [teacher] else [])
    {
    }
    var lhs := Invert(q);
    var rhs := Invert(quals)[subject := (if subject in Invert(quals) then Invert(quals)[subject] else []) + [teacher]];
    assert lhs.Keys == rhs.Keys;
    assert forall s | s in lhs.Keys :: lhs[s] == rhs[s];
  }

  /** A teacher is listed under a subject exactly when the table pairs
      them, and the subjects listed are exactly the ones taught. */
  lemma {:induction false} TeachersOfExact(quals: seq<(Teacher, Subject)>, subject: Subject, t: Teacher)
    ensures t in TeachersOf(quals, subject) <==> (t, subject) in quals
  {
    if quals != [] {
      var init := quals[..|quals| - 1];
      TeachersOfExact(init, subject, t);
      assert quals == init + [quals[|quals| - 1]];
    }
  }

  lemma {:induction false} GetExact<K, W>(items: seq<(K, W)>, k: K, w: W)
    requires DistinctKeys(items)
    ensures Get(items, k) == Some(w) <==> (k, w) in items
  {
    if items != [] {
      assert DistinctKeys(items[1..]) by {
        forall i, j | 0 <= i < j < |items[1..]| ensures items[1..][i].0 != items[1..][j].0 {
          assert items[1..][i] == items[i + 1] && items[1..][j] == items[j + 1];
        }
      }
      GetExact(items[1..], k, w);
      if items[0].0 == k {
        assert forall i :: 0 < i < |items| ==> items[i].0 != k;
        assert (k, w) in items ==> (k, w) == items[0];
      }
    }
  }

  /** The inverse of a teacher-to-subject dictionary: `t` is listed under
      `s` exactly when the dictionary maps `t` to `s`. */
  lemma InvertExact(quals: seq<(Teacher, Subject)>, s: Subject, t: Teacher)
    requires DistinctKeys(quals)
    ensures s in Invert(quals) <==> exists i :: 0 <= i < |quals| && quals[i].1 == s
    ensures (s in Invert(quals) && t in Invert(quals)[s]) <==> Get(quals, t) == Some(s)
  {
    TeachersOfExact(quals, s, t);
    GetExact(quals, t, s);
  }

  /** The subject_teacher_map loop (CSVEngine.py per grade, main.py with
      `setdefault`): group teachers by subject in insertion order. */
  method InvertQualifications(quals: seq<(Teacher, Subject)>) returns (m: map<Subject, seq<Teacher>>)
    ensures m == Invert(quals)
  {
    m := map[];
    var i := 0;
    while i < |quals|
      invariant 0 <= i <= |quals|
      invariant m == Invert(quals[..i])
    {
      var teacher, subject := quals[i].0, quals[i].1;
      InvertSnoc(quals[..i], teacher, subject);
      assert quals[..i + 1] == quals[..i] + [(teacher, subject)];
      if subject !in m {
        m := m[subject := []];
      }
      m := m[subject := m[subject] + [teacher]];
      i := i + 1;
    }
    assert quals[..i] == quals;
  }

  /** The candidates of one subject, one per listed teacher, in order. */
  function Pairs(subject: Subject, teachers: seq<Teacher>): seq<Candidate>
  {
    if teachers == [] then []
    else Pairs(subject, teachers[..|teachers| - 1]) + [Candidate(subject, teachers[|teachers| - 1])]
  }

  /** A domain: for each subject of the day's calendar in order, the
      (subject, teacher) pairs of its teachers in order. */
  function DayDomain(calendar: seq<Subject>, bySubject: map<Subject, seq<Teacher>>): seq<Candidate>
    requires forall s :: s in calendar ==> s in bySubject
  {
    if calendar == [] then []
    else
      var last := calendar[|calendar| - 1];
      DayDomain(calendar[..|calendar| - 1], bySubject) + Pairs(last, bySubject[last])
  }

  lemma {:induction false} PairsExact(subject: Subject, teachers: seq<Teacher>, x: Candidate)
    ensures x in Pairs(subject, teachers) <==> x.subject == subject && x.teacher in teachers
  {
    if teachers != [] {
      var init := teachers[..|teachers| - 1];
      PairsExact(subject, init, x);
      assert teachers == init + [teachers[|teachers| - 1]];
    }
  }

  /** A candidate is in the day's domain exactly when its subject is on
      the calendar and its teacher is listed for that subject. */
  lemma {:induction false} DayDomainExact(calendar: seq<Subject>, bySubject: map<Subject, seq<Teacher>>,
                                          x: Candidate)
    requires forall s :: s in calendar ==> s in bySubject
    ensures x in DayDomain(calendar, bySubject) <==> x.subject in calendar && x.teacher in bySubject[x.subject]
  {
    if calendar != [] {
      var init := calendar[..|calendar| - 1];
      var last := calendar[|calendar| - 1];
      assert calendar == init + [last];
      DayDomainExact(init, bySubject, x);
      PairsExact(last, bySubject[last], x);
    }
  }

  /** The domain built from a teacher-to-subject dictionary holds exactly
      the pairs whose subject is on the calendar and whose teacher the
      dictionary maps to that subject. */
  lemma DomainOfDictionary(calendar: seq<Subject>, quals: seq<(Teacher, Subject)>, x: Candidate)
    requires DistinctKeys(quals)
    requires forall s :: s in calendar ==> s in Invert(quals)
    ensures x in DayDomain(calendar, Invert(quals)) <==> x.subject in calendar && Get(quals, x.teacher) == Some(x.subject)
  {
    DayDomainExact(calendar, Invert(quals), x);
    InvertExact(quals, x.subject, x.teacher);
  }

  /** `s` is the first subject of `calendar`, in order, that `bySubject` lacks. */
  predicate FirstUnlisted(calendar: seq<Subject>, bySubject: map<Subject, seq<Teacher>>, s: Subject)
  {
    exists i :: 0 <= i < |calendar| && calendar[i] == s && s !in bySubject &&
                forall j :: 0 <= j < i ==> calendar[j] in bySubject
  }

  /** The two inner loops that fill `domains[var]`. A calendar subject that
      no teacher teaches is missing from `subject_teacher_map`, and the
      lookup raises: that is the Failure. */
  method BuildDomain(calendar: seq<Subject>, bySubject: map<Subject, seq<Teacher>>)
    returns (r: Result<seq<Candidate>, Subject>)
    ensures r.Success? <==> forall s :: s in calendar ==> s in bySubject
    ensures r.Success? ==> r.value == DayDomain(calendar, bySubject)
    ensures r.Failure? ==> r.error in calendar && r.error !in bySubject
    ensures r.Failure? ==> FirstUnlisted(calendar, bySubject, r.error)
  {
    var domain := [];
    var i := 0;
    while i < |calendar|
      invariant 0 <= i <= |calendar|
      invariant forall s :: s in calendar[..i] ==> s in bySubject
      invariant domain == DayDomain(calendar[..i], bySubject)
    {
      var subject := calendar[i];
      if subject !in bySubject {
        assert forall j :: 0 <= j < i ==> calendar[j] in bySubject by {
          forall j | 0 <= j < i ensures calendar[j] in bySubject {
            assert calendar[j] == calendar[..i][j];
          }
        }
        return Failure(subject);
      }
      var teachers := bySubject[subject];
      var j := 0;
      while j < |teachers|
        invariant 0 <= j <= |teachers|
        invariant domain == DayDomain(calendar[..i], bySubject) + Pairs(subject, teachers[..j])
      {
        assert teachers[..j + 1][..j] == teachers[..j];
        domain := domain + [Candidate(subject, teachers[j])];
        j := j + 1;
      }
      assert calendar[..i + 1][..i] == calendar[..i];
      assert teachers[..j] == teachers;
      i := i + 1;
    }
    assert calendar[..i] == calendar;
    return Success(domain);
  }
}
