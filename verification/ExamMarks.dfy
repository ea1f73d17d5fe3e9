/**
 Entering, locking and unlocking marks (apps/exam/services.py save_marks, lock, unlock): what is
 stored fits the paper, and a locked section's marks stay put until it is unlocked.
 */
module ExamMarks {
  import opened Wrappers
  import opened ExamModel

  /** A row sent in; a missing status means present. */
  datatype Entry = Entry(student: nat, theory: Option<int>, practical: Option<int>, status: Option<Status>)

  /** Papers and enrolments hold still during a run; `students` gives a section's students for an exam. */
  datatype Config = Config(paper: nat -> Paper, program: nat -> nat, sectionProgram: nat -> nat, students: (nat, nat) -> set<nat>)

  /** Marks by (paper, student), locks by (exam, section). */
  datatype State = State(marks: map<(nat, nat), Mark>, locks: set<(nat, nat)>)

  predicate InRange(v: Option<int>, max: int) {
    v.Some? ==> 0 <= v.value <= max
  }

  function StatusOf(e: Entry): Status {
    if e.status.Some? then e.status.value else Present
  }

  predicate Accepted(p: Paper, allowed: set<nat>, e: Entry) {
    e.student in allowed
    && (StatusOf(e).Present? ==> InRange(e.theory, p.maxTheory) && InRange(e.practical, p.maxPractical))
  }

  function Stored(p: Paper, e: Entry): Mark {
    if !StatusOf(e).Present? then Mark(None, None, StatusOf(e))
    else Mark(e.theory, if p.maxPractical == 0 then None else e.practical, Present)
  }

  /** Every row written in turn. */
  function Written(p: Paper, rows: seq<Entry>, marks: map<(nat, nat), Mark>): map<(nat, nat), Mark> {
    if rows == [] then marks
    else
      var e := rows[|rows| - 1];
      Written(p, rows[..|rows| - 1], marks)[(p.id, e.student) := Stored(p, e)]
  }

  predicate MaySave(cfg: Config, s: State, paper: nat, section: nat) {
    var exam := cfg.paper(paper).exam;
    cfg.sectionProgram(section) == cfg.program(exam) && (exam, section) !in s.locks
  }

  function SaveMarks(cfg: Config, s: State, paper: nat, section: nat, rows: seq<Entry>): Result<State> {
    var p := cfg.paper(paper);
    if MaySave(cfg, s, paper, section) && forall e :: e in rows ==> Accepted(p, cfg.students(p.exam, section), e)
    then Ok(s.(marks := Written(p, rows, s.marks)))
    else Conflict
  }

  predicate Mentions(rows: seq<Entry>, student: nat) {
    exists k :: 0 <= k < |rows| && rows[k].student == student
  }

  function LastRow(rows: seq<Entry>, student: nat): (k: nat)
    requires Mentions(rows, student)
    ensures k < |rows| && rows[k].student == student && forall j :: k < j < |rows| ==> rows[j].student != student
  {
    if rows[|rows| - 1].student == student then |rows| - 1 else LastRow(rows[..|rows| - 1], student)
  }

  /** A student's last row is what is kept; nobody else's marks and no other paper's are touched. */
  lemma {:induction false} LastRowIsKept(p: Paper, rows: seq<Entry>, marks: map<(nat, nat), Mark>, key: (nat, nat))
    ensures var w := Written(p, rows, marks);
            if key.0 == p.id && Mentions(rows, key.1)
            then key in w && w[key] == Stored(p, rows[LastRow(rows, key.1)])
            else (key in w <==> key in marks) && (key in w ==> w[key] == marks[key])
  {
    if rows != [] {
      var front, e := rows[..|rows| - 1], rows[|rows| - 1];
      assert rows == front + [e];
      LastRowIsKept(p, front, marks, key);
      if e.student != key.1 && Mentions(front, key.1) {
        assert rows[LastRow(front, key.1)].student == key.1;
      }
    }
  }

  // ------------------------------------------------------------------ runs

  datatype Op =
    | OpSave(paper: nat, section: nat, rows: seq<Entry>)
    | OpLock(exam: nat, section: nat)
    | OpUnlock(exam: nat, section: nat)

  function Lock(s: State, exam: nat, section: nat): Result<State> {
    if (exam, section) in s.locks then Conflict else Ok(s.(locks := s.locks + {(exam, section)}))
  }

  function Unlock(s: State, exam: nat, section: nat): Result<State> {
    if (exam, section) !in s.locks then Conflict else Ok(s.(locks := s.locks - {(exam, section)}))
  }

  function Attempt(cfg: Config, s: State, op: Op): Result<State> {
    match op
    case OpSave(paper, section, rows) => SaveMarks(cfg, s, paper, section, rows)
    case OpLock(exam, section) => Lock(s, exam, section)
    case OpUnlock(exam, section) => Unlock(s, exam, section)
  }

  function Step(cfg: Config, s: State, op: Op): State {
    var r := Attempt(cfg, s, op);
    if r.Ok? then r.value else s
  }

  function Run(cfg: Config, s: State, ops: seq<Op>): State {
    if ops == [] then s else Step(cfg, Run(cfg, s, ops[..|ops| - 1]), ops[|ops| - 1])
  }

  const EMPTY := State(map[], {})

  /** A mark fits its paper: within the maxima, and none at all unless the student was present. */
  predicate Fits(p: Paper, m: Mark) {
    if m.status.Present?
    then InRange(m.theory, p.maxTheory) && InRange(m.practical, p.maxPractical) && (p.maxPractical == 0 ==> m.practical.None?)
    else m.theory.None? && m.practical.None?
  }

  predicate AllFit(cfg: Config, marks: map<(nat, nat), Mark>) {
    forall key :: key in marks ==> Fits(cfg.paper(key.0), marks[key])
  }

  ghost predicate PapersNamed(cfg: Config) {
    forall k: nat :: cfg.paper(k).id == k
  }

  lemma {:induction false} WrittenFits(cfg: Config, paper: nat, allowed: set<nat>, rows: seq<Entry>, marks: map<(nat, nat), Mark>)
    requires PapersNamed(cfg) && AllFit(cfg, marks) && forall e :: e in rows ==> Accepted(cfg.paper(paper), allowed, e)
    ensures AllFit(cfg, Written(cfg.paper(paper), rows, marks))
  {
    if rows != [] {
      WrittenFits(cfg, paper, allowed, rows[..|rows| - 1], marks);
      assert rows[|rows| - 1] in rows;
    }
  }

  /** Over every run, every stored mark fits its paper. */
  lemma {:induction false} MarksAlwaysFit(cfg: Config, ops: seq<Op>)
    requires PapersNamed(cfg)
    ensures AllFit(cfg, Run(cfg, EMPTY, ops).marks)
  {
    if ops != [] {
      var s, op := Run(cfg, EMPTY, ops[..|ops| - 1]), ops[|ops| - 1];
      MarksAlwaysFit(cfg, ops[..|ops| - 1]);
      if op.OpSave? && SaveMarks(cfg, s, op.paper, op.section, op.rows).Ok? {
        WrittenFits(cfg, op.paper, cfg.students(cfg.paper(op.paper).exam, op.section), op.rows, s.marks);
      }
    }
  }

  lemma MentionedIsAllowed(p: Paper, allowed: set<nat>, rows: seq<Entry>, student: nat)
    requires Mentions(rows, student) && forall e :: e in rows ==> Accepted(p, allowed, e)
    ensures student in allowed
  {
    assert rows[LastRow(rows, student)] in rows;
  }

  /** Another section of the exam's class lists the student too, as when an exam has no term. */
  ghost predicate ElsewhereToo(cfg: Config, exam: nat, section: nat, student: nat) {
    exists b: nat :: b != section && student in cfg.students(exam, b) && cfg.sectionProgram(b) == cfg.program(exam)
  }

  predicate SameMark(s: State, t: State, key: (nat, nat)) {
    (key in s.marks <==> key in t.marks) && (key in s.marks ==> s.marks[key] == t.marks[key])
  }

  /** While a section stays locked for an exam, no run changes the marks of a student who is in no other section. */
  lemma {:induction false} LockedMarksStayPut(cfg: Config, s: State, ops: seq<Op>, exam: nat, section: nat, key: (nat, nat))
    requires PapersNamed(cfg) && (exam, section) in s.locks && OpUnlock(exam, section) !in ops
    requires cfg.paper(key.0).exam == exam && !ElsewhereToo(cfg, exam, section, key.1)
    ensures (exam, section) in Run(cfg, s, ops).locks && SameMark(s, Run(cfg, s, ops), key)
  {
    if ops != [] {
      var front, op := ops[..|ops| - 1], ops[|ops| - 1];
      assert ops == front + [op];
      LockedMarksStayPut(cfg, s, front, exam, section, key);
      var t := Run(cfg, s, front);
      if op.OpSave? && SaveMarks(cfg, t, op.paper, op.section, op.rows).Ok? {
        var p := cfg.paper(op.paper);
        LastRowIsKept(p, op.rows, t.marks, key);
        if Mentions(op.rows, key.1) {
          MentionedIsAllowed(p, cfg.students(p.exam, op.section), op.rows, key.1);
        }
      }
    }
  }

  ghost predicate CanMove(cfg: Config, s: State, exam: nat, section: nat, key: (nat, nat)) {
    exists ops :: OpUnlock(exam, section) !in ops && !SameMark(s, Run(cfg, s, ops), key)
  }

  /** Some run changes a mark behind a section's lock exactly when the student is in another section too. */
  lemma LockHoldsIff(cfg: Config, s: State, exam: nat, section: nat, key: (nat, nat))
    requires PapersNamed(cfg) && (exam, section) in s.locks && cfg.paper(key.0).exam == exam
    ensures CanMove(cfg, s, exam, section, key) <==> ElsewhereToo(cfg, exam, section, key.1)
  {
    if ElsewhereToo(cfg, exam, section, key.1) {
      var b: nat :| b != section && key.1 in cfg.students(exam, b) && cfg.sectionProgram(b) == cfg.program(exam);
      MovesThrough(cfg, s, exam, section, key, b);
    } else if CanMove(cfg, s, exam, section, key) {
      var ops :| OpUnlock(exam, section) !in ops && !SameMark(s, Run(cfg, s, ops), key);
      LockedMarksStayPut(cfg, s, ops, exam, section, key);
    }
  }

  /** Unlocking the other section, if it is locked, and saving the student there as absent, or exempt if absent already. */
  lemma MovesThrough(cfg: Config, s: State, exam: nat, section: nat, key: (nat, nat), b: nat)
    requires PapersNamed(cfg) && cfg.paper(key.0).exam == exam && b != section
    requires key.1 in cfg.students(exam, b) && cfg.sectionProgram(b) == cfg.program(exam)
    ensures CanMove(cfg, s, exam, section, key)
  {
    var status := if key in s.marks && s.marks[key].status == Absent then Exempt else Absent;
    var e := Entry(key.1, None, None, Some(status));
    var ops := [OpUnlock(exam, b), OpSave(key.0, b, [e])];
    var first := [OpUnlock(exam, b)];
    assert first[..|first| - 1] == [] && ops[..|ops| - 1] == first;
    assert Run(cfg, s, []) == s;
    var t := Run(cfg, s, first);
    assert t == Step(cfg, s, OpUnlock(exam, b)) && (exam, b) !in t.locks && t.marks == s.marks;
    assert [e][..0] == [];
    assert Written(cfg.paper(key.0), [e], t.marks) == t.marks[key := Stored(cfg.paper(key.0), e)];
    assert Run(cfg, s, ops).marks[key].status == status;
    assert OpUnlock(exam, section) !in ops && !SameMark(s, Run(cfg, s, ops), key);
  }
}

/** The marks register as the service updates it, row by row inside one transaction. */
module MarksService {
  import opened Wrappers
  import opened ExamModel
  import opened ExamMarks

  class Register {
    var marks: map<(nat, nat), Mark>
    var locks: set<(nat, nat)>

    ghost function Model(): State
      reads this
    {
      State(marks, locks)
    }

    constructor ()
      ensures Model() == EMPTY
    {
      marks, locks := map[], {};
    }

    /** save_marks: the rows are written one by one; a bad row raises Conflict and undoes them all. */
    method SaveMarks(cfg: Config, paper: nat, section: nat, rows: seq<Entry>) returns (r: Result<nat>)
      requires PapersNamed(cfg)
      modifies this
      ensures r.Ok? <==> ExamMarks.SaveMarks(cfg, old(Model()), paper, section, rows).Ok?
      ensures r.Ok? ==> r.value == |rows| && Model() == ExamMarks.SaveMarks(cfg, old(Model()), paper, section, rows).value
      ensures r.Conflict? ==> Model() == old(Model())
    {
      var p := cfg.paper(paper);
      if cfg.sectionProgram(section) != cfg.program(p.exam) || (p.exam, section) in locks {
        return Conflict;
      }
      var before := marks;
      var allowed := cfg.students(p.exam, section);
      for k := 0 to |rows|
        invariant locks == old(locks) && marks == Written(p, rows[..k], before)
        invariant forall i :: 0 <= i < k ==> Accepted(p, allowed, rows[i])
      {
        var e := rows[k];
        assert rows[..k + 1][..k] == rows[..k];
        var status := if e.status.Some? then e.status.value else Present;
        var theory, practical := e.theory, e.practical;
        var bad := e.student !in allowed;
        if status != Present {
          theory, practical := None, None;
        } else {
          if theory.Some? && !(0 <= theory.value <= p.maxTheory) {
            bad := true;
          }
          if practical.Some? && !(0 <= practical.value <= p.maxPractical) {
            bad := true;
          }
          if p.maxPractical == 0 {
            practical := None;
          }
        }
        if bad {
          assert rows[k] in rows && !Accepted(p, allowed, rows[k]);
          marks := before;
          return Conflict;
        }
        marks := marks[(paper, e.student) := Mark(theory, practical, status)];
      }
      assert rows[..|rows|] == rows;
      r := Ok(|rows|);
    }

    method Lock(exam: nat, section: nat) returns (ok: bool)
      modifies this`locks
      ensures var r := ExamMarks.Lock(old(Model()), exam, section);
              ok == r.Ok? && Model() == (if r.Ok? then r.value else old(Model()))
    {
      ok := (exam, section) !in locks;
      locks := locks + {(exam, section)};
    }

    method Unlock(exam: nat, section: nat) returns (ok: bool)
      modifies this`locks
      ensures var r := ExamMarks.Unlock(old(Model()), exam, section);
              ok == r.Ok? && Model() == (if r.Ok? then r.value else old(Model()))
    {
      ok := (exam, section) in locks;
      locks := locks - {(exam, section)};
    }
  }
}
