/**
 The timetable as a value: placing and moving periods, and confirming substitutes
 (apps/timetable/services.py). Times are minutes of a day, dates are ordinals.
 */
module TimetableModel {
  import opened Wrappers

  datatype Slot = Slot(schedule: nat, start: int, end: int, isBreak: bool, weekdays: set<int>)

  /** `periodsPerWeek` 0 means no limit. */
  datatype Assignment = Assignment(section: nat, staff: nat, subject: string, periodsPerWeek: nat)

  datatype Entry = Entry(section: nat, day: int, slot: nat, assignment: nat, room: Option<nat>)

  /** `branches` holds the branch each period was created in; moving a period does not change it. */
  datatype State = State(entries: map<nat, Entry>, nextEntry: nat, subs: map<(nat, int), nat>, branches: map<nat, nat>)

  /**
   Bell slots, teacher loads and allotments do not change during a run. `branchOf` is a section's
   branch and `home` a teacher's; an allotment may join the two across branches.
   */
  datatype Config = Config(slot: nat -> Slot, assignment: nat -> Assignment, scheduleFor: nat -> Option<nat>, maxPeriods: nat -> nat,
                           branchOf: nat -> nat, home: nat -> nat)

  const EMPTY := State(map[], 0, map[], map[])

  predicate Overlaps(aStart: int, aEnd: int, bStart: int, bEnd: int) {
    aStart < bEnd && bStart < aEnd
  }

  predicate SlotsOverlap(cfg: Config, a: nat, b: nat) {
    Overlaps(cfg.slot(a).start, cfg.slot(a).end, cfg.slot(b).start, cfg.slot(b).end)
  }

  function StaffOf(cfg: Config, e: Entry): nat {
    cfg.assignment(e.assignment).staff
  }

  /** Some entry that clashes in time among those selected, leaving one entry out of account. */
  predicate Busy(cfg: Config, entries: map<nat, Entry>, pick: set<nat>, slot: nat, exclude: Option<nat>) {
    exists k :: k in pick && k in entries && exclude != Some(k) && SlotsOverlap(cfg, entries[k].slot, slot)
  }

  function TeacherDay(cfg: Config, entries: map<nat, Entry>, staff: nat, day: int): set<nat> {
    set k | k in entries && StaffOf(cfg, entries[k]) == staff && entries[k].day == day
  }

  function RoomDay(entries: map<nat, Entry>, room: nat, day: int): set<nat> {
    set k | k in entries && entries[k].room == Some(room) && entries[k].day == day
  }

  function TeacherWeek(cfg: Config, entries: map<nat, Entry>, staff: nat): set<nat> {
    set k | k in entries && StaffOf(cfg, entries[k]) == staff
  }

  function AssignmentWeek(entries: map<nat, Entry>, assignment: nat): set<nat> {
    set k | k in entries && entries[k].assignment == assignment
  }

  function Without(ks: set<nat>, exclude: Option<nat>): set<nat> {
    if exclude.Some? then ks - {exclude.value} else ks
  }

  predicate Taken(entries: map<nat, Entry>, section: nat, day: int, slot: nat, exclude: Option<nat>) {
    exists k :: k in entries && exclude != Some(k) && entries[k].section == section && entries[k].day == day && entries[k].slot == slot
  }

  /** The period is on its section's schedule, runs that day, and is taught by its own allotment. */
  predicate OnSchedule(cfg: Config, e: Entry) {
    cfg.assignment(e.assignment).section == e.section && cfg.scheduleFor(e.section) == Some(cfg.slot(e.slot).schedule)
    && !cfg.slot(e.slot).isBreak && e.day in cfg.slot(e.slot).weekdays
  }

  predicate TeacherFree(cfg: Config, entries: map<nat, Entry>, e: Entry, exclude: Option<nat>) {
    !Busy(cfg, entries, TeacherDay(cfg, entries, StaffOf(cfg, e), e.day), e.slot, exclude)
  }

  predicate RoomFree(cfg: Config, entries: map<nat, Entry>, e: Entry, exclude: Option<nat>) {
    e.room.Some? ==> !Busy(cfg, entries, RoomDay(entries, e.room.value, e.day), e.slot, exclude)
  }

  predicate WeekLeft(cfg: Config, entries: map<nat, Entry>, e: Entry, exclude: Option<nat>) {
    |Without(TeacherWeek(cfg, entries, StaffOf(cfg, e)), exclude)| < cfg.maxPeriods(StaffOf(cfg, e))
  }

  predicate PeriodsLeft(cfg: Config, entries: map<nat, Entry>, e: Entry, exclude: Option<nat>) {
    cfg.assignment(e.assignment).periodsPerWeek != 0
    ==> |Without(AssignmentWeek(entries, e.assignment), exclude)| < cfg.assignment(e.assignment).periodsPerWeek
  }

  /** The checks of place(), before anything is written. */
  predicate Fits(cfg: Config, entries: map<nat, Entry>, e: Entry, exclude: Option<nat>) {
    OnSchedule(cfg, e) && !Taken(entries, e.section, e.day, e.slot, exclude)
    && TeacherFree(cfg, entries, e, exclude) && RoomFree(cfg, entries, e, exclude)
    && WeekLeft(cfg, entries, e, exclude) && PeriodsLeft(cfg, entries, e, exclude)
  }

  /** The timetable with a new period written, or `entry` moved or changed. */
  function Put(cfg: Config, s: State, e: Entry, entry: Option<nat>): State {
    if entry.None?
    then s.(entries := s.entries[s.nextEntry := e], nextEntry := s.nextEntry + 1,
            branches := s.branches[s.nextEntry := cfg.branchOf(e.section)])
    else s.(entries := s.entries[entry.value := e])
  }

  /** place: the checks, then the write. */
  function Place(cfg: Config, s: State, e: Entry, entry: Option<nat>): Result<State> {
    if Fits(cfg, s.entries, e, entry) then Ok(Put(cfg, s, e, entry)) else Conflict
  }

  function Delete(s: State, entry: nat): State {
    s.(entries := s.entries - {entry}, subs := map k | k in s.subs && k.0 != entry :: s.subs[k], branches := s.branches - {entry})
  }

  // ------------------------------------------------------------------ substitution

  /** date.weekday(), Monday = 0 */
  function Weekday(on: int): int {
    (on + 6) % 7
  }

  predicate Known(s: State, entry: nat) {
    entry in s.entries && entry in s.branches
  }

  predicate InBranch(s: State, entry: nat, branch: nat) {
    entry in s.branches && s.branches[entry] == branch
  }

  /** A teacher's own periods of a weekday in one branch. */
  function OwnIn(cfg: Config, s: State, branch: nat, staff: nat, day: int): set<nat> {
    set k | k in TeacherDay(cfg, s.entries, staff, day) && InBranch(s, k, branch)
  }

  /** The periods of one branch that a teacher covers on a date. */
  function CoveringIn(s: State, branch: nat, staff: nat, on: int): set<nat> {
    set k | k in s.subs && k.1 == on && s.subs[k] == staff && InBranch(s, k.0, branch) :: k.0
  }

  /** A teacher suggest() offers for a period on a date: it looks at the period's branch only. */
  predicate Free(cfg: Config, s: State, entry: nat, on: int, absent: set<nat>, staff: nat)
    requires Known(s, entry)
  {
    var e, branch := s.entries[entry], s.branches[entry];
    cfg.home(staff) == branch && staff !in absent && staff != StaffOf(cfg, e)
    && !Busy(cfg, s.entries, OwnIn(cfg, s, branch, staff, e.day), e.slot, None)
    && !Busy(cfg, s.entries, CoveringIn(s, branch, staff, on), e.slot, None)
  }

  /** confirm: the period's substitute on that date, replacing any earlier one. */
  function Confirm(cfg: Config, s: State, entry: nat, on: int, teachers: set<nat>, absent: set<nat>, staff: nat): Result<State>
    requires Known(s, entry)
  {
    if s.entries[entry].day != Weekday(on) || staff !in teachers || !Free(cfg, s, entry, on, absent, staff) then Conflict
    else Ok(s.(subs := s.subs[(entry, on) := staff]))
  }

  // ------------------------------------------------------------------ runs

  datatype Op = OpPlace(e: Entry, entry: Option<nat>) | OpDelete(gone: nat)

  function Step(cfg: Config, s: State, op: Op): State {
    match op
    case OpPlace(e, entry) =>
      if entry.Some? && entry.value !in s.entries then s
      else (match Place(cfg, s, e, entry) case Ok(t) => t case Conflict => s)
    case OpDelete(k) => Delete(s, k)
  }

  function Run(cfg: Config, ops: seq<Op>): State {
    if ops == [] then EMPTY else Step(cfg, Run(cfg, ops[..|ops| - 1]), ops[|ops| - 1])
  }

  /** A confirmation asked for: period, date, who teaches, who is away, and who should cover. */
  datatype Ask = Ask(entry: nat, on: int, teachers: set<nat>, absent: set<nat>, staff: nat)

  function Answer(cfg: Config, s: State, a: Ask): State {
    if !Known(s, a.entry) then s
    else (match Confirm(cfg, s, a.entry, a.on, a.teachers, a.absent, a.staff) case Ok(t) => t case Conflict => s)
  }

  function ConfirmAll(cfg: Config, s: State, asks: seq<Ask>): State {
    if asks == [] then s else Answer(cfg, ConfirmAll(cfg, s, asks[..|asks| - 1]), asks[|asks| - 1])
  }
}
