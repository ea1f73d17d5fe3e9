/** Periods placed from several offices at once (apps/timetable/services.py). */
module ConcurrentPeriods {
  /*
   Transactions take steps in any order; each check is its own read of the committed rows. Only the
   teacher's row is locked. A row written but not committed makes others wait for its primary key and
   for its place in the unique index on section, day and slot.
   */
  import opened Wrappers
  import opened TimetableModel
  import opened TimetableSafety

  datatype Stage = Begun | Locked | SlotSeen | TeacherSeen | RoomSeen | WeekSeen | AllSeen | Written

  /** `key` is the row being changed; a new row gets its key when it is written. */
  datatype Txn = Txn(e: Entry, key: Option<nat>, isNew: bool, stage: Stage)

  /** Committed rows, the key sequence, and the transactions under way. */
  datatype Desk = Desk(entries: map<nat, Entry>, nextKey: nat, txns: map<nat, Txn>)

  datatype Event =
    | Begin(t: nat, e: Entry, entry: Option<nat>)
    | LockTeacher(t: nat)
    | CheckSlot(t: nat)
    | CheckTeacher(t: nat)
    | CheckRoom(t: nat)
    | CheckWeek(t: nat)
    | CheckAllotment(t: nat)
    | Write(t: nat)
    | Commit(t: nat)
    | Abort(t: nat)
    | Remove(t: nat, gone: nat)

  predicate SameSlot(e: Entry, f: Entry) {
    e.section == f.section && e.day == f.day && e.slot == f.slot
  }

  predicate HoldsTeacher(cfg: Config, x: Txn, staff: nat) {
    x.stage != Begun && StaffOf(cfg, x.e) == staff
  }

  function With(s: Desk, t: nat, x: Txn): Desk {
    s.(txns := s.txns[t := x])
  }

  function Ended(s: Desk, t: nat): Desk {
    s.(txns := s.txns - {t})
  }

  /** Go on when the check passes, else raise Conflict and end. */
  function Checked(s: Desk, t: nat, ok: bool, stage: Stage): Desk
    requires t in s.txns
  {
    if ok then With(s, t, s.txns[t].(stage := stage)) else Ended(s, t)
  }

  predicate WriteWaits(s: Desk, t: nat)
    requires t in s.txns
  {
    exists u :: u in s.txns && u != t && s.txns[u].stage == Written
                && (s.txns[u].key == s.txns[t].key || SameSlot(s.txns[u].e, s.txns[t].e))
  }

  function WriteStep(s: Desk, t: nat): Desk
    requires t in s.txns
  {
    var x := s.txns[t];
    if WriteWaits(s, t) then s
    else if Taken(s.entries, x.e.section, x.e.day, x.e.slot, x.key) then Ended(s, t)
    else if x.isNew then With(s, t, x.(key := Some(s.nextKey), stage := Written)).(nextKey := s.nextKey + 1)
    else With(s, t, x.(stage := Written))
  }

  function CommitStep(s: Desk, t: nat): Desk
    requires t in s.txns
  {
    var x := s.txns[t];
    if x.stage == Written && x.key.Some? then Ended(s.(entries := s.entries[x.key.value := x.e]), t) else s
  }

  /** A step that cannot be taken now, because it would wait, changes nothing. */
  function Next(cfg: Config, s: Desk, ev: Event): Desk {
    if ev.Begin? then
      if ev.t in s.txns || !OnSchedule(cfg, ev.e) || (ev.entry.Some? && ev.entry.value !in s.entries) then s
      else With(s, ev.t, Txn(ev.e, ev.entry, ev.entry.None?, Begun))
    else if ev.Remove? then s.(entries := s.entries - {ev.gone})
    else if ev.t !in s.txns then s
    else if ev.Abort? then Ended(s, ev.t)
    else if ev.Commit? then CommitStep(s, ev.t)
    else PlaceStep(cfg, s, ev)
  }

  function PlaceStep(cfg: Config, s: Desk, ev: Event): Desk
    requires ev.t in s.txns
  {
    var x, t := s.txns[ev.t], ev.t;
    if ev.LockTeacher? && x.stage == Begun then
      if exists u :: u in s.txns && HoldsTeacher(cfg, s.txns[u], StaffOf(cfg, x.e)) then s else With(s, t, x.(stage := Locked))
    else if ev.CheckSlot? && x.stage == Locked then
      Checked(s, t, !Taken(s.entries, x.e.section, x.e.day, x.e.slot, x.key), SlotSeen)
    else if ev.CheckTeacher? && x.stage == SlotSeen then Checked(s, t, TeacherFree(cfg, s.entries, x.e, x.key), TeacherSeen)
    else if ev.CheckRoom? && x.stage == TeacherSeen then Checked(s, t, RoomFree(cfg, s.entries, x.e, x.key), RoomSeen)
    else if ev.CheckWeek? && x.stage == RoomSeen then Checked(s, t, WeekLeft(cfg, s.entries, x.e, x.key), WeekSeen)
    else if ev.CheckAllotment? && x.stage == WeekSeen then Checked(s, t, PeriodsLeft(cfg, s.entries, x.e, x.key), AllSeen)
    else if ev.Write? && x.stage == AllSeen then WriteStep(s, t)
    else s
  }

  function RunDesk(cfg: Config, s: Desk, events: seq<Event>): Desk {
    if events == [] then s else Next(cfg, RunDesk(cfg, s, events[..|events| - 1]), events[|events| - 1])
  }

  // ------------------------------------------------------------------ what every step keeps

  /** What a transaction has checked of its teacher still holds, and its key is its own. */
  predicate StillTrue(cfg: Config, s: Desk, x: Txn) {
    (x.stage in {TeacherSeen, RoomSeen, WeekSeen, AllSeen, Written} ==> TeacherFree(cfg, s.entries, x.e, x.key))
    && (x.stage in {WeekSeen, AllSeen, Written} ==> WeekLeft(cfg, s.entries, x.e, x.key))
    && (x.stage in {AllSeen, Written} ==> PeriodsLeft(cfg, s.entries, x.e, x.key))
    && (x.stage == Written ==> x.key.Some? && !Taken(s.entries, x.e.section, x.e.day, x.e.slot, x.key))
    && (x.key.Some? ==> x.key.value < s.nextKey)
    && (if !x.isNew then x.key.Some? else if x.stage == Written then x.key.Some? && x.key.value !in s.entries else x.key.None?)
  }

  /** Two transactions never hold the same teacher, nor write the same row or slot. */
  predicate Apart(cfg: Config, x: Txn, y: Txn) {
    (StaffOf(cfg, x.e) == StaffOf(cfg, y.e) ==> x.stage == Begun || y.stage == Begun)
    && (x.stage == Written && y.stage == Written ==> !SameSlot(x.e, y.e) && x.key != y.key)
    && (x.isNew && x.stage == Written ==> x.key != y.key)
    && (y.isNew && y.stage == Written ==> x.key != y.key)
  }

  predicate AllStillTrue(cfg: Config, s: Desk) {
    forall t :: t in s.txns ==> StillTrue(cfg, s, s.txns[t])
  }

  predicate AllApart(cfg: Config, s: Desk) {
    forall t, u :: t in s.txns && u in s.txns && t != u ==> Apart(cfg, s.txns[t], s.txns[u])
  }

  ghost predicate TeachersSafe(cfg: Config, entries: map<nat, Entry>) {
    TeachersApart(cfg, entries) && WithinLoads(cfg, entries) && WithinAllotments(cfg, entries) && SlotOnce(entries)
  }

  ghost predicate Inv(cfg: Config, s: Desk) {
    TeachersSafe(cfg, s.entries) && AllStillTrue(cfg, s) && AllApart(cfg, s) && forall k :: k in s.entries ==> k < s.nextKey
  }

  /** Rows that vanish, or leave for another teacher, never undo a check. */
  predicate Shrinks(cfg: Config, before: map<nat, Entry>, after: map<nat, Entry>, staff: nat) {
    forall k :: k in after && StaffOf(cfg, after[k]) == staff ==> k in before && before[k] == after[k]
  }

  lemma ChecksSurvive(cfg: Config, before: map<nat, Entry>, after: map<nat, Entry>, e: Entry, exclude: Option<nat>)
    requires Shrinks(cfg, before, after, StaffOf(cfg, e))
    ensures TeacherFree(cfg, before, e, exclude) ==> TeacherFree(cfg, after, e, exclude)
    ensures WeekLeft(cfg, before, e, exclude) ==> WeekLeft(cfg, after, e, exclude)
    ensures PeriodsLeft(cfg, before, e, exclude) ==> PeriodsLeft(cfg, after, e, exclude)
  {
    if TeacherFree(cfg, before, e, exclude) {
      FreeSurvives(cfg, before, after, e, exclude);
    }
    var staff := StaffOf(cfg, e);
    SubsetSize(Without(TeacherWeek(cfg, after, staff), exclude), Without(TeacherWeek(cfg, before, staff), exclude));
    forall k | k in AssignmentWeek(after, e.assignment) ensures k in AssignmentWeek(before, e.assignment) {
      assert StaffOf(cfg, after[k]) == StaffOf(cfg, e);
    }
    SubsetSize(Without(AssignmentWeek(after, e.assignment), exclude), Without(AssignmentWeek(before, e.assignment), exclude));
  }

  lemma FreeSurvives(cfg: Config, before: map<nat, Entry>, after: map<nat, Entry>, e: Entry, exclude: Option<nat>)
    requires Shrinks(cfg, before, after, StaffOf(cfg, e)) && TeacherFree(cfg, before, e, exclude)
    ensures TeacherFree(cfg, after, e, exclude)
  {
    hide SlotsOverlap;
    forall k | k in TeacherDay(cfg, after, StaffOf(cfg, e), e.day) && exclude != Some(k)
      ensures !SlotsOverlap(cfg, after[k].slot, e.slot)
    {
      assert k in TeacherDay(cfg, before, StaffOf(cfg, e), e.day);
    }
  }

  lemma SubsetSize(a: set<nat>, b: set<nat>)
    requires a <= b
    ensures |a| <= |b|
  {
    assert b == a + (b - a);
  }

  lemma SurvivesFor(cfg: Config, s: Desk, after: Desk, x: Txn)
    requires StillTrue(cfg, s, x) && after.nextKey == s.nextKey
    requires x.stage == Begun || Shrinks(cfg, s.entries, after.entries, StaffOf(cfg, x.e))
    requires x.stage == Written ==> !Taken(after.entries, x.e.section, x.e.day, x.e.slot, x.key)
    requires x.isNew && x.stage == Written ==> x.key.value !in after.entries
    ensures StillTrue(cfg, after, x)
  {
    hide TeacherFree, WeekLeft, PeriodsLeft, Taken, Shrinks;
    if x.stage != Begun {
      ChecksSurvive(cfg, s.entries, after.entries, x.e, x.key);
    }
  }

  lemma CommitSafe(cfg: Config, s: Desk, t: nat)
    requires Inv(cfg, s) && t in s.txns && s.txns[t].stage == Written
    ensures TeachersSafe(cfg, CommitStep(s, t).entries)
  {
    hide TeacherFree, WeekLeft, PeriodsLeft, Taken, TeachersApart, WithinLoads, WithinAllotments, SlotOnce;
    var x := s.txns[t];
    assert StillTrue(cfg, s, x);
    TeachersApartAfter(cfg, s.entries, x.e, x.key.value);
    WithinLoadsAfter(cfg, s.entries, x.e, x.key.value);
    WithinAllotmentsAfter(cfg, s.entries, x.e, x.key.value);
    SlotOnceAfter(cfg, s.entries, x.e, x.key.value);
  }

  /** A row put in for one teacher leaves other teachers' checks, keys and slots alone. */
  lemma OtherSurvives(cfg: Config, s: Desk, x: Txn, y: Txn)
    requires StillTrue(cfg, s, y) && x.key.Some? && x.stage == Written && Apart(cfg, y, x)
    ensures StillTrue(cfg, s.(entries := s.entries[x.key.value := x.e]), y)
  {
    hide TeacherFree, WeekLeft, PeriodsLeft, StaffOf;
    var after := s.(entries := s.entries[x.key.value := x.e]);
    SurvivesFor(cfg, s, after, y);
  }

  lemma CommitKeeps(cfg: Config, s: Desk, t: nat)
    requires Inv(cfg, s) && t in s.txns && s.txns[t].stage == Written
    ensures Inv(cfg, CommitStep(s, t))
  {
    CommitSafe(cfg, s, t);
    hide TeachersSafe, StillTrue, Apart, StaffOf;
    var x, after := s.txns[t], CommitStep(s, t);
    WrittenHasKey(cfg, s, x);
    forall u | u in after.txns ensures StillTrue(cfg, after, after.txns[u]) {
      assert Apart(cfg, s.txns[u], x);
      OtherSurvives(cfg, s, x, s.txns[u]);
      SameRows(cfg, s.(entries := after.entries), after, s.txns[u]);
    }
  }

  lemma WrittenHasKey(cfg: Config, s: Desk, x: Txn)
    requires StillTrue(cfg, s, x) && x.stage == Written
    ensures x.key.Some? && x.key.value < s.nextKey
  {
  }

  lemma SameRows(cfg: Config, s: Desk, after: Desk, x: Txn)
    requires StillTrue(cfg, s, x) && after.entries == s.entries && after.nextKey >= s.nextKey
    ensures StillTrue(cfg, after, x)
  {
  }

  lemma RemoveKeeps(cfg: Config, s: Desk, k: nat)
    requires Inv(cfg, s)
    ensures Inv(cfg, s.(entries := s.entries - {k}))
  {
    var after := s.(entries := s.entries - {k});
    RemoveSafe(cfg, s.entries, k);
    hide TeachersSafe, TeacherFree, WeekLeft, PeriodsLeft;
    forall u | u in s.txns ensures StillTrue(cfg, after, s.txns[u]) {
      SurvivesFor(cfg, s, after, s.txns[u]);
    }
  }

  lemma RemoveSafe(cfg: Config, entries: map<nat, Entry>, k: nat)
    requires TeachersSafe(cfg, entries)
    ensures TeachersSafe(cfg, entries - {k})
  {
    forall t: nat ensures |TeacherWeek(cfg, entries - {k}, t)| <= cfg.maxPeriods(t) {
      assert |TeacherWeek(cfg, entries, t)| <= cfg.maxPeriods(t);
      SubsetSize(TeacherWeek(cfg, entries - {k}, t), TeacherWeek(cfg, entries, t));
    }
    forall a: nat | cfg.assignment(a).periodsPerWeek != 0
      ensures |AssignmentWeek(entries - {k}, a)| <= cfg.assignment(a).periodsPerWeek
    {
      assert |AssignmentWeek(entries, a)| <= cfg.assignment(a).periodsPerWeek;
      SubsetSize(AssignmentWeek(entries - {k}, a), AssignmentWeek(entries, a));
    }
  }

  lemma WithKeeps(cfg: Config, s: Desk, t: nat, x: Txn)
    requires Inv(cfg, s) && StillTrue(cfg, s, x)
    requires forall u :: u in s.txns && u != t ==> Apart(cfg, s.txns[u], x) && Apart(cfg, x, s.txns[u])
    ensures Inv(cfg, With(s, t, x))
  {
    hide TeachersSafe, StillTrue, Apart;
    SameRows(cfg, s, With(s, t, x), x);
    forall u | u in s.txns ensures StillTrue(cfg, With(s, t, x), s.txns[u]) {
      SameRows(cfg, s, With(s, t, x), s.txns[u]);
    }
  }

  lemma EndedKeeps(cfg: Config, s: Desk, t: nat)
    requires Inv(cfg, s)
    ensures Inv(cfg, Ended(s, t))
  {
    hide TeachersSafe, StillTrue, Apart;
    forall u | u in s.txns ensures StillTrue(cfg, Ended(s, t), s.txns[u]) {
      SameRows(cfg, s, Ended(s, t), s.txns[u]);
    }
  }

  /** Drawing a key from the sequence disturbs no one. */
  lemma DrawKeeps(cfg: Config, s: Desk)
    requires Inv(cfg, s)
    ensures Inv(cfg, s.(nextKey := s.nextKey + 1))
  {
    hide TeachersSafe, StillTrue, Apart;
    forall u | u in s.txns ensures StillTrue(cfg, s.(nextKey := s.nextKey + 1), s.txns[u]) {
      SameRows(cfg, s, s.(nextKey := s.nextKey + 1), s.txns[u]);
    }
  }

  lemma WriteKeeps(cfg: Config, s: Desk, t: nat)
    requires Inv(cfg, s) && t in s.txns && s.txns[t].stage == AllSeen
    ensures Inv(cfg, WriteStep(s, t))
  {
    hide TeachersSafe, TeacherFree, WeekLeft, PeriodsLeft, Taken;
    var x, after := s.txns[t], WriteStep(s, t);
    assert StillTrue(cfg, s, x);
    EndedKeeps(cfg, s, t);
    if !WriteWaits(s, t) && !Taken(s.entries, x.e.section, x.e.day, x.e.slot, x.key) {
      var drawn := if x.isNew then s.(nextKey := s.nextKey + 1) else s;
      if x.isNew {
        NewKeyLoads(cfg, s.entries, x.e, s.nextKey);
        NewKeyFree(cfg, s.entries, x.e, s.nextKey);
        DrawKeeps(cfg, s);
      }
      assert after == With(drawn, t, after.txns[t]);
      assert StillTrue(cfg, drawn, after.txns[t]);
      forall u | u in s.txns && u != t ensures Apart(cfg, s.txns[u], after.txns[t]) && Apart(cfg, after.txns[t], s.txns[u]) {
        assert Apart(cfg, s.txns[u], x) && StillTrue(cfg, s, s.txns[u]);
      }
      WithKeeps(cfg, drawn, t, after.txns[t]);
    }
  }

  /** Moving on to a stage whose facts hold; a teacher is taken only when no one holds it. */
  lemma AdvanceKeeps(cfg: Config, s: Desk, t: nat, stage: Stage)
    requires Inv(cfg, s) && t in s.txns && s.txns[t].stage != Written && stage != Written
    requires StillTrue(cfg, s, s.txns[t].(stage := stage))
    requires s.txns[t].stage == Begun ==> forall u :: u in s.txns ==> !HoldsTeacher(cfg, s.txns[u], StaffOf(cfg, s.txns[t].e))
    ensures Inv(cfg, With(s, t, s.txns[t].(stage := stage)))
  {
    hide TeachersSafe, StillTrue, StaffOf;
    forall u | u in s.txns && u != t
      ensures Apart(cfg, s.txns[u], s.txns[t].(stage := stage)) && Apart(cfg, s.txns[t].(stage := stage), s.txns[u])
    {
      assert Apart(cfg, s.txns[u], s.txns[t]);
    }
    WithKeeps(cfg, s, t, s.txns[t].(stage := stage));
  }

  lemma PlaceStepKeeps(cfg: Config, s: Desk, ev: Event)
    requires Inv(cfg, s) && ev.t in s.txns
    ensures Inv(cfg, PlaceStep(cfg, s, ev))
  {
    hide TeachersSafe, AllApart, TeacherFree, RoomFree, WeekLeft, PeriodsLeft, Taken, WriteStep, With, Ended, OnSchedule, SlotsOverlap;
    var x := s.txns[ev.t];
    assert StillTrue(cfg, s, x);
    EndedKeeps(cfg, s, ev.t);
    if ev.Write? && x.stage == AllSeen {
      WriteKeeps(cfg, s, ev.t);
    } else if ev.LockTeacher? && x.stage == Begun {
      if forall u :: u in s.txns ==> !HoldsTeacher(cfg, s.txns[u], StaffOf(cfg, x.e)) {
        AdvanceKeeps(cfg, s, ev.t, Locked);
      }
    } else if x.stage in {Locked, SlotSeen, TeacherSeen, RoomSeen, WeekSeen}
              && ev == CheckEvent(ev.t, x.stage) && Passes(cfg, s.entries, x) {
      AdvanceKeeps(cfg, s, ev.t, After(x.stage));
    }
  }

  /** The five checks in order: which step makes it, what it asks, and where it leads. */
  function CheckEvent(t: nat, stage: Stage): Event {
    match stage
    case Locked => CheckSlot(t)
    case SlotSeen => CheckTeacher(t)
    case TeacherSeen => CheckRoom(t)
    case RoomSeen => CheckWeek(t)
    case _ => CheckAllotment(t)
  }

  function After(stage: Stage): Stage {
    match stage
    case Locked => SlotSeen
    case SlotSeen => TeacherSeen
    case TeacherSeen => RoomSeen
    case RoomSeen => WeekSeen
    case _ => AllSeen
  }

  predicate Passes(cfg: Config, entries: map<nat, Entry>, x: Txn) {
    match x.stage
    case Locked => !Taken(entries, x.e.section, x.e.day, x.e.slot, x.key)
    case SlotSeen => TeacherFree(cfg, entries, x.e, x.key)
    case TeacherSeen => RoomFree(cfg, entries, x.e, x.key)
    case RoomSeen => WeekLeft(cfg, entries, x.e, x.key)
    case _ => PeriodsLeft(cfg, entries, x.e, x.key)
  }

  lemma BeginKeeps(cfg: Config, s: Desk, ev: Event)
    requires Inv(cfg, s) && ev.Begin?
    ensures Inv(cfg, Next(cfg, s, ev))
  {
    hide TeachersSafe, TeacherFree, RoomFree, WeekLeft, PeriodsLeft, Taken, OnSchedule;
    if Next(cfg, s, ev) != s {
      forall u | u in s.txns ensures StillTrue(cfg, s, s.txns[u]) {
      }
      WithKeeps(cfg, s, ev.t, Txn(ev.e, ev.entry, ev.entry.None?, Begun));
    }
  }

  lemma NextKeeps(cfg: Config, s: Desk, ev: Event)
    requires Inv(cfg, s)
    ensures Inv(cfg, Next(cfg, s, ev))
  {
    hide Inv, PlaceStep, OnSchedule;
    if ev.Begin? {
      BeginKeeps(cfg, s, ev);
    } else if ev.Remove? {
      RemoveKeeps(cfg, s, ev.gone);
    } else if ev.t in s.txns {
      EndedKeeps(cfg, s, ev.t);
      if ev.Commit? && s.txns[ev.t].stage == Written {
        CommitKeeps(cfg, s, ev.t);
      } else if !ev.Commit? && !ev.Abort? {
        PlaceStepKeeps(cfg, s, ev);
      }
    }
  }

  /** A timetable that is safe for teachers, with no one at work on it. */
  ghost predicate AtRest(cfg: Config, s: Desk) {
    s.txns == map[] && TeachersSafe(cfg, s.entries) && forall k :: k in s.entries ==> k < s.nextKey
  }

  /**
   Under every interleaving of placing, moving and deleting: no teacher is double-booked or over
   the weekly cap, no allotment is exceeded, and no section uses a slot twice on a day.
   */
  lemma {:induction false} TeachersAreNeverDoubleBooked(cfg: Config, s: Desk, events: seq<Event>)
    requires AtRest(cfg, s)
    ensures Inv(cfg, RunDesk(cfg, s, events))
  {
    if events != [] {
      TeachersAreNeverDoubleBooked(cfg, s, events[..|events| - 1]);
      NextKeeps(cfg, RunDesk(cfg, s, events[..|events| - 1]), events[|events| - 1]);
    }
  }

  // ------------------------------------------------------------------ a transaction alone

  /** All steps of a transaction before it writes, taken without interruption. */
  function Checks(cfg: Config, s: Desk, t: nat, e: Entry, entry: Option<nat>): Desk {
    var locked := Next(cfg, Next(cfg, s, Begin(t, e, entry)), LockTeacher(t));
    var teacherSeen := Next(cfg, Next(cfg, locked, CheckSlot(t)), CheckTeacher(t));
    Next(cfg, Next(cfg, Next(cfg, teacherSeen, CheckRoom(t)), CheckWeek(t)), CheckAllotment(t))
  }

  predicate MayBegin(cfg: Config, s: Desk, t: nat, e: Entry, entry: Option<nat>) {
    t !in s.txns && (entry.Some? ==> entry.value in s.entries)
    && forall u :: u in s.txns ==> !HoldsTeacher(cfg, s.txns[u], StaffOf(cfg, e))
  }

  lemma OneCheck(cfg: Config, s: Desk, t: nat, x: Txn)
    requires t !in s.txns && x.stage in {Locked, SlotSeen, TeacherSeen, RoomSeen, WeekSeen}
    ensures Next(cfg, s, CheckEvent(t, x.stage)) == s
    ensures Next(cfg, With(s, t, x), CheckEvent(t, x.stage))
            == if Passes(cfg, s.entries, x) then With(s, t, x.(stage := After(x.stage))) else s
  {
    hide Taken, TeacherFree, RoomFree, WeekLeft, PeriodsLeft;
    assert Ended(With(s, t, x), t) == s;
    assert With(With(s, t, x), t, x.(stage := After(x.stage))) == With(s, t, x.(stage := After(x.stage)));
  }

  lemma BeginAndLock(cfg: Config, s: Desk, t: nat, e: Entry, entry: Option<nat>)
    requires MayBegin(cfg, s, t, e, entry)
    ensures t !in s.txns
    ensures Next(cfg, Next(cfg, s, Begin(t, e, entry)), LockTeacher(t))
            == if OnSchedule(cfg, e) then With(s, t, Txn(e, entry, entry.None?, Locked)) else s
  {
    hide OnSchedule, StaffOf;
    var x := Txn(e, entry, entry.None?, Begun);
    assert With(With(s, t, x), t, x.(stage := Locked)) == With(s, t, x.(stage := Locked));
  }

  /** Uninterrupted, the checks come to those of place(). */
  lemma ChecksAreFits(cfg: Config, s: Desk, t: nat, e: Entry, entry: Option<nat>)
    requires MayBegin(cfg, s, t, e, entry)
    ensures Checks(cfg, s, t, e, entry)
            == if Fits(cfg, s.entries, e, entry) then With(s, t, Txn(e, entry, entry.None?, AllSeen)) else s
  {
    hide Next, MayBegin, With, OnSchedule, TeacherFree, RoomFree, WeekLeft, PeriodsLeft, Taken;
    BeginAndLock(cfg, s, t, e, entry);
    OneCheck(cfg, s, t, Txn(e, entry, entry.None?, Locked));
    OneCheck(cfg, s, t, Txn(e, entry, entry.None?, SlotSeen));
    OneCheck(cfg, s, t, Txn(e, entry, entry.None?, TeacherSeen));
    OneCheck(cfg, s, t, Txn(e, entry, entry.None?, RoomSeen));
    OneCheck(cfg, s, t, Txn(e, entry, entry.None?, WeekSeen));
  }

  function Finish(cfg: Config, s: Desk, t: nat): Desk {
    Next(cfg, Next(cfg, s, Write(t)), Commit(t))
  }

  /** The slot is still free for the row, and no one else is writing the row or the slot. */
  predicate MayWrite(s: Desk, t: nat) {
    t in s.txns && s.txns[t].stage == AllSeen && !WriteWaits(s, t)
    && (s.txns[t].isNew || s.txns[t].key.Some?)
    && !Taken(s.entries, s.txns[t].e.section, s.txns[t].e.day, s.txns[t].e.slot, s.txns[t].key)
  }

  lemma FinishPuts(cfg: Config, s: Desk, t: nat)
    requires MayWrite(s, t)
    ensures Finish(cfg, s, t).txns == s.txns - {t}
    ensures Finish(cfg, s, t).entries == s.entries[if s.txns[t].isNew then s.nextKey else s.txns[t].key.value := s.txns[t].e]
    ensures Finish(cfg, s, t).nextKey >= s.nextKey && (s.txns[t].isNew ==> Finish(cfg, s, t).nextKey > s.nextKey)
  {
    hide Taken, WriteWaits;
  }

  lemma NotBegun(cfg: Config, s: Desk, t: nat)
    requires t !in s.txns
    ensures Finish(cfg, s, t) == s
  {
  }

  /** A placing that meets no other transaction does what place() does. */
  lemma AloneItPlaces(cfg: Config, s: Desk, t: nat, e: Entry, entry: Option<nat>)
    requires s.txns == map[] && (entry.Some? ==> entry.value in s.entries)
    ensures var model := State(s.entries, s.nextKey, map[], map[]);
            var after := Finish(cfg, Checks(cfg, s, t, e, entry), t);
            after.txns == map[]
            && after.entries == match Place(cfg, model, e, entry) case Ok(m) => m.entries case Conflict => s.entries
  {
    hide Checks, Finish, OnSchedule, TeacherFree, RoomFree, WeekLeft, PeriodsLeft, Taken;
    ChecksAreFits(cfg, s, t, e, entry);
    if Fits(cfg, s.entries, e, entry) {
      FinishPuts(cfg, Checks(cfg, s, t, e, entry), t);
    } else {
      NotBegun(cfg, s, t);
    }
  }

  // ------------------------------------------------------------------ rooms

  /**
   Two periods that nothing but the room keeps apart: different teachers, different places in the
   section index, and times that overlap in one room on one weekday.
   */
  predicate Rivals(cfg: Config, e: Entry, f: Entry) {
    StaffOf(cfg, e) != StaffOf(cfg, f) && !SameSlot(e, f)
    && e.day == f.day && e.room.Some? && e.room == f.room && SlotsOverlap(cfg, e.slot, f.slot)
  }

  /** A transaction begins only if no rival is under way. */
  predicate Unrivalled(cfg: Config, s: Desk, ev: Event) {
    ev.Begin? ==> forall u :: u in s.txns ==> !Rivals(cfg, ev.e, s.txns[u].e)
  }

  predicate AllUnrivalled(cfg: Config, s: Desk, events: seq<Event>) {
    events == []
    || (AllUnrivalled(cfg, s, events[..|events| - 1])
        && Unrivalled(cfg, RunDesk(cfg, s, events[..|events| - 1]), events[|events| - 1]))
  }

  /** After its room check, all that overlaps a period in its room is in its own slot, which the index refuses. */
  predicate RoomStill(cfg: Config, entries: map<nat, Entry>, x: Txn) {
    x.stage in {RoomSeen, WeekSeen, AllSeen, Written} && x.e.room.Some? ==>
      forall k :: k in RoomDay(entries, x.e.room.value, x.e.day) && x.key != Some(k) && SlotsOverlap(cfg, entries[k].slot, x.e.slot)
        ==> SameSlot(entries[k], x.e)
  }

  predicate NoRivals(cfg: Config, s: Desk) {
    forall t, u :: t in s.txns && u in s.txns && t != u ==> !Rivals(cfg, s.txns[t].e, s.txns[u].e)
  }

  predicate AllRoomStill(cfg: Config, s: Desk) {
    forall t :: t in s.txns ==> RoomStill(cfg, s.entries, s.txns[t])
  }

  ghost predicate RoomInv(cfg: Config, s: Desk) {
    RoomsApart(cfg, s.entries) && NoRivals(cfg, s) && AllRoomStill(cfg, s)
  }

  /** A written row is alone in its slot, so its room is free. */
  lemma WrittenRoomFree(cfg: Config, s: Desk, x: Txn)
    requires StillTrue(cfg, s, x) && RoomStill(cfg, s.entries, x) && x.stage == Written
    ensures RoomFree(cfg, s.entries, x.e, x.key)
  {
    hide TeacherFree, WeekLeft, PeriodsLeft, SlotsOverlap;
  }

  /** A row written for one transaction is no rival of another. */
  lemma RoomStillAfter(cfg: Config, s: Desk, x: Txn, y: Txn)
    requires RoomStill(cfg, s.entries, y) && Apart(cfg, y, x) && !Rivals(cfg, y.e, x.e) && x.stage == Written && x.key.Some?
    ensures RoomStill(cfg, s.entries[x.key.value := x.e], y)
  {
    hide SlotsOverlap;
    assert SlotsOverlap(cfg, x.e.slot, y.e.slot) <==> SlotsOverlap(cfg, y.e.slot, x.e.slot) by {
      OverlapsBothWays(cfg, x.e.slot, y.e.slot);
    }
    if y.stage in {RoomSeen, WeekSeen, AllSeen, Written} && y.e.room.Some? {
      var after := s.entries[x.key.value := x.e];
      forall k | k in RoomDay(after, y.e.room.value, y.e.day) && y.key != Some(k) && SlotsOverlap(cfg, after[k].slot, y.e.slot)
        ensures SameSlot(after[k], y.e)
      {
        if k != x.key.value {
          assert k in RoomDay(s.entries, y.e.room.value, y.e.day);
        }
      }
    }
  }

  lemma RoomCommitKeeps(cfg: Config, s: Desk, t: nat)
    requires Inv(cfg, s) && RoomInv(cfg, s) && t in s.txns && s.txns[t].stage == Written
    ensures RoomInv(cfg, CommitStep(s, t))
  {
    var x := s.txns[t];
    assert StillTrue(cfg, s, x);
    WrittenHasKey(cfg, s, x);
    WrittenRoomFree(cfg, s, x);
    RoomsApartAfter(cfg, s.entries, x.e, x.key.value);
    hide TeachersSafe, StillTrue, Apart, RoomStill, Rivals, RoomsApart, RoomFree;
    forall u | u in s.txns && u != t ensures RoomStill(cfg, CommitStep(s, t).entries, s.txns[u]) {
      assert Apart(cfg, s.txns[u], x);
      RoomStillAfter(cfg, s, x, s.txns[u]);
    }
  }

  lemma RoomRemoveKeeps(cfg: Config, s: Desk, gone: nat)
    requires RoomInv(cfg, s)
    ensures RoomInv(cfg, s.(entries := s.entries - {gone}))
  {
    hide SlotsOverlap, Rivals;
    forall u | u in s.txns ensures RoomStill(cfg, s.entries - {gone}, s.txns[u]) {
      assert RoomStill(cfg, s.entries, s.txns[u]);
    }
  }

  /** Steps that leave the rows alone: a transaction begins, moves on, or ends. */
  lemma RoomMoveKeeps(cfg: Config, s: Desk, after: Desk, t: nat)
    requires RoomInv(cfg, s) && after.entries == s.entries && after.txns.Keys <= s.txns.Keys + {t}
    requires forall u :: u in after.txns && u != t ==> after.txns[u] == s.txns[u]
    requires t in after.txns ==> RoomStill(cfg, s.entries, after.txns[t])
    requires t in after.txns ==> forall u :: u in s.txns && u != t ==>
               !Rivals(cfg, after.txns[t].e, s.txns[u].e) && !Rivals(cfg, s.txns[u].e, after.txns[t].e)
    ensures RoomInv(cfg, after)
  {
    hide RoomStill, Rivals, RoomsApart;
  }

  lemma RivalsBothWays(cfg: Config, e: Entry, f: Entry)
    ensures Rivals(cfg, e, f) <==> Rivals(cfg, f, e)
  {
  }

  /** What one check, or the write, makes of the transaction that takes it. */
  lemma PlaceMovesOne(cfg: Config, s: Desk, ev: Event)
    requires ev.t in s.txns
    ensures PlaceStep(cfg, s, ev).entries == s.entries && PlaceStep(cfg, s, ev).txns.Keys <= s.txns.Keys
    ensures forall u :: u in PlaceStep(cfg, s, ev).txns && u != ev.t ==> PlaceStep(cfg, s, ev).txns[u] == s.txns[u]
    ensures ev.t in PlaceStep(cfg, s, ev).txns ==> PlaceStep(cfg, s, ev).txns[ev.t].e == s.txns[ev.t].e
  {
    hide TeacherFree, RoomFree, WeekLeft, PeriodsLeft, Taken, WriteWaits, HoldsTeacher;
  }

  lemma RoomStillNext(cfg: Config, s: Desk, ev: Event)
    requires ev.t in s.txns && RoomStill(cfg, s.entries, s.txns[ev.t]) && Inv(cfg, s)
    ensures ev.t in PlaceStep(cfg, s, ev).txns ==> RoomStill(cfg, s.entries, PlaceStep(cfg, s, ev).txns[ev.t])
  {
    hide TeachersSafe, AllApart, TeacherFree, WeekLeft, PeriodsLeft, Taken, SlotsOverlap, WriteWaits, HoldsTeacher;
    assert StillTrue(cfg, s, s.txns[ev.t]);
  }

  lemma RoomNextKeeps(cfg: Config, s: Desk, ev: Event)
    requires Inv(cfg, s) && RoomInv(cfg, s) && Unrivalled(cfg, s, ev)
    ensures RoomInv(cfg, Next(cfg, s, ev))
  {
    hide Inv, PlaceStep, OnSchedule, RoomStill, Rivals, RoomsApart;
    var after := Next(cfg, s, ev);
    if ev.Remove? {
      RoomRemoveKeeps(cfg, s, ev.gone);
    } else if ev.Begin? {
      if after != s {
        BegunRoomStill(cfg, s, after.txns[ev.t]);
        forall u | u in s.txns ensures !Rivals(cfg, s.txns[u].e, ev.e) {
          RivalsBothWays(cfg, s.txns[u].e, ev.e);
        }
        RoomMoveKeeps(cfg, s, after, ev.t);
      }
    } else if ev.t in s.txns {
      if ev.Commit? {
        if s.txns[ev.t].stage == Written {
          RoomCommitKeeps(cfg, s, ev.t);
        }
      } else if ev.Abort? {
        RoomMoveKeeps(cfg, s, after, ev.t);
      } else {
        PlaceMovesOne(cfg, s, ev);
        RoomStillNext(cfg, s, ev);
        RoomMoveKeeps(cfg, s, after, ev.t);
      }
    }
  }

  lemma BegunRoomStill(cfg: Config, s: Desk, x: Txn)
    requires x.stage == Begun
    ensures RoomStill(cfg, s.entries, x)
  {
  }

  /** Rooms stay apart in every interleaving in which no period begins while a rival is under way. */
  lemma {:induction false} RoomsStayApart(cfg: Config, s: Desk, events: seq<Event>)
    requires AtRest(cfg, s) && RoomsApart(cfg, s.entries) && AllUnrivalled(cfg, s, events)
    ensures RoomInv(cfg, RunDesk(cfg, s, events))
  {
    if events != [] {
      var front := events[..|events| - 1];
      RoomsStayApart(cfg, s, front);
      TeachersAreNeverDoubleBooked(cfg, s, front);
      RoomNextKeeps(cfg, RunDesk(cfg, s, front), events[|events| - 1]);
    }
  }

  // ------------------------------------------------------------------ two placings at once

  /** Runs in which transaction 1 places e and transaction 2 places f, steps in any order. */
  predicate TwoPlacings(events: seq<Event>, e: Entry, f: Entry) {
    forall i :: 0 <= i < |events| ==>
      events[i].t in {1, 2} && !events[i].Remove?
      && (events[i].Begin? ==> events[i] == Begin(events[i].t, if events[i].t == 1 then e else f, None))
  }

  ghost predicate RoomsCanClash(cfg: Config, s: Desk, e: Entry, f: Entry) {
    exists events :: TwoPlacings(events, e, f) && !RoomsApart(cfg, RunDesk(cfg, s, events).entries)
  }

  predicate OnlyTwo(s: Desk, e: Entry, f: Entry) {
    forall t :: t in s.txns ==> t in {1, 2} && s.txns[t].e == if t == 1 then e else f
  }

  lemma {:induction false} TwoUnrivalled(cfg: Config, s: Desk, events: seq<Event>, e: Entry, f: Entry)
    requires s.txns == map[] && TwoPlacings(events, e, f) && !Rivals(cfg, e, f)
    ensures OnlyTwo(RunDesk(cfg, s, events), e, f) && AllUnrivalled(cfg, s, events)
  {
    if events != [] {
      hide Rivals;
      var front, ev := events[..|events| - 1], events[|events| - 1];
      assert forall i :: 0 <= i < |front| ==> front[i] == events[i];
      TwoUnrivalled(cfg, s, front, e, f);
      var t := RunDesk(cfg, s, front);
      RivalsBothWays(cfg, e, f);
      NoneRivalsItself(cfg, e);
      NoneRivalsItself(cfg, f);
      NextOnlyTwo(cfg, t, ev, e, f);
    }
  }

  lemma NoneRivalsItself(cfg: Config, e: Entry)
    ensures !Rivals(cfg, e, e)
  {
  }

  lemma WithOnlyTwo(s: Desk, t: nat, x: Txn, e: Entry, f: Entry)
    requires OnlyTwo(s, e, f) && t in s.txns && x.e == s.txns[t].e
    ensures OnlyTwo(With(s, t, x), e, f) && OnlyTwo(With(s, t, x).(nextKey := s.nextKey + 1), e, f)
  {
  }

  lemma EndedOnlyTwo(s: Desk, t: nat, e: Entry, f: Entry)
    requires OnlyTwo(s, e, f)
    ensures OnlyTwo(Ended(s, t), e, f)
  {
  }

  lemma PlaceOnlyTwo(cfg: Config, s: Desk, ev: Event, e: Entry, f: Entry)
    requires OnlyTwo(s, e, f) && ev.t in s.txns
    ensures OnlyTwo(PlaceStep(cfg, s, ev), e, f)
  {
    hide OnlyTwo, With, Ended, TeacherFree, RoomFree, WeekLeft, PeriodsLeft, Taken, HoldsTeacher, WriteWaits;
    EndedOnlyTwo(s, ev.t, e, f);
    forall x: Txn | x.e == s.txns[ev.t].e
      ensures OnlyTwo(With(s, ev.t, x), e, f) && OnlyTwo(With(s, ev.t, x).(nextKey := s.nextKey + 1), e, f)
    {
      WithOnlyTwo(s, ev.t, x, e, f);
    }
  }

  lemma NextOnlyTwo(cfg: Config, s: Desk, ev: Event, e: Entry, f: Entry)
    requires OnlyTwo(s, e, f) && ev.t in {1, 2} && !ev.Remove?
    requires ev.Begin? ==> ev == Begin(ev.t, if ev.t == 1 then e else f, None)
    ensures OnlyTwo(Next(cfg, s, ev), e, f)
  {
    if ev.t in s.txns {
      PlaceOnlyTwo(cfg, s, ev, e, f);
    }
    hide OnSchedule, PlaceStep;
  }

  lemma {:induction false} RunJoins(cfg: Config, s: Desk, a: seq<Event>, b: seq<Event>)
    ensures RunDesk(cfg, s, a + b) == RunDesk(cfg, RunDesk(cfg, s, a), b)
  {
    if b == [] {
      assert a + b == a;
    } else {
      assert (a + b)[..|a + b| - 1] == a + b[..|b| - 1];
      RunJoins(cfg, s, a, b[..|b| - 1]);
    }
  }

  function CheckEvents(t: nat, e: Entry): seq<Event> {
    [Begin(t, e, None), LockTeacher(t), CheckSlot(t), CheckTeacher(t), CheckRoom(t), CheckWeek(t), CheckAllotment(t)]
  }

  lemma OneEvent(cfg: Config, s: Desk, ev: Event)
    ensures RunDesk(cfg, s, [ev]) == Next(cfg, s, ev)
  {
    assert [ev][..0] == [] && RunDesk(cfg, s, []) == s;
  }

  lemma TwoEvents(cfg: Config, s: Desk, a: Event, b: Event)
    ensures RunDesk(cfg, s, [a, b]) == Next(cfg, Next(cfg, s, a), b)
  {
    hide Next;
    OneEvent(cfg, s, a);
    OneEvent(cfg, Next(cfg, s, a), b);
    assert [a, b] == [a] + [b];
    RunJoins(cfg, s, [a], [b]);
  }

  lemma ChecksRun(cfg: Config, s: Desk, t: nat, e: Entry)
    ensures RunDesk(cfg, s, CheckEvents(t, e)) == Checks(cfg, s, t, e, None)
  {
    hide Next;
    var s2 := Next(cfg, Next(cfg, s, Begin(t, e, None)), LockTeacher(t));
    var s4 := Next(cfg, Next(cfg, s2, CheckSlot(t)), CheckTeacher(t));
    var s6 := Next(cfg, Next(cfg, s4, CheckRoom(t)), CheckWeek(t));
    TwoEvents(cfg, s, Begin(t, e, None), LockTeacher(t));
    TwoEvents(cfg, s2, CheckSlot(t), CheckTeacher(t));
    TwoEvents(cfg, s4, CheckRoom(t), CheckWeek(t));
    OneEvent(cfg, s6, CheckAllotment(t));
    var a, b, c, d := [Begin(t, e, None), LockTeacher(t)], [CheckSlot(t), CheckTeacher(t)], [CheckRoom(t), CheckWeek(t)], [CheckAllotment(t)];
    RunJoins(cfg, s, a, b);
    RunJoins(cfg, s, a + b, c);
    RunJoins(cfg, s, a + b + c, d);
    assert CheckEvents(t, e) == a + b + c + d;
  }

  /** Rivals that fit on their own, checked by two offices before either commits, end up in one room together. */
  lemma RoomsAreNotSafe(cfg: Config, s: Desk, e: Entry, f: Entry)
    requires AtRest(cfg, s) && Fits(cfg, s.entries, e, None) && Fits(cfg, s.entries, f, None) && Rivals(cfg, e, f)
    ensures var both := Checks(cfg, Checks(cfg, s, 1, e, None), 2, f, None);
            !RoomsApart(cfg, Finish(cfg, Finish(cfg, both, 1), 2).entries)
  {
    hide OnSchedule, TeacherFree, RoomFree, WeekLeft, PeriodsLeft, SlotsOverlap, Finish, Checks, TeachersSafe;
    ChecksAreFits(cfg, s, 1, e, None);
    var one := Checks(cfg, s, 1, e, None);
    ChecksAreFits(cfg, one, 2, f, None);
    var both := Checks(cfg, one, 2, f, None);
    FinishPuts(cfg, both, 1);
    var first := Finish(cfg, both, 1);
    FinishPuts(cfg, first, 2);
    var last := Finish(cfg, first, 2);
    assert last.entries[s.nextKey] == e && last.entries[first.nextKey] == f;
  }

  lemma RivalsRun(cfg: Config, s: Desk, e: Entry, f: Entry)
    requires AtRest(cfg, s) && Fits(cfg, s.entries, e, None) && Fits(cfg, s.entries, f, None) && Rivals(cfg, e, f)
    ensures RoomsCanClash(cfg, s, e, f)
  {
    RoomsAreNotSafe(cfg, s, e, f);
    hide Rivals, Fits, AtRest, Checks, RoomsApart, Next, RunDesk, CheckEvents, TwoPlacings;
    var a, b, c, d := CheckEvents(1, e), CheckEvents(2, f), [Write(1), Commit(1)], [Write(2), Commit(2)];
    var one := Checks(cfg, s, 1, e, None);
    var both := Checks(cfg, one, 2, f, None);
    ChecksRun(cfg, s, 1, e);
    ChecksRun(cfg, one, 2, f);
    TwoEvents(cfg, both, Write(1), Commit(1));
    TwoEvents(cfg, Finish(cfg, both, 1), Write(2), Commit(2));
    RunJoins(cfg, s, a, b);
    RunJoins(cfg, s, a + b, c);
    RunJoins(cfg, s, a + b + c, d);
    assert RunDesk(cfg, s, a + b + c + d) == Finish(cfg, Finish(cfg, both, 1), 2);
    TwoAreTwo(e, f);
  }

  lemma TwoAreTwo(e: Entry, f: Entry)
    ensures TwoPlacings(CheckEvents(1, e) + CheckEvents(2, f) + [Write(1), Commit(1)] + [Write(2), Commit(2)], e, f)
  {
  }

  /** Two periods that each fit can put two classes in one room at once if and only if they are rivals. */
  lemma RoomsClashIff(cfg: Config, s: Desk, e: Entry, f: Entry)
    requires AtRest(cfg, s) && RoomsApart(cfg, s.entries) && Fits(cfg, s.entries, e, None) && Fits(cfg, s.entries, f, None)
    ensures RoomsCanClash(cfg, s, e, f) <==> Rivals(cfg, e, f)
  {
    hide Fits, RoomsApart;
    if Rivals(cfg, e, f) {
      RivalsRun(cfg, s, e, f);
    } else if RoomsCanClash(cfg, s, e, f) {
      var events :| TwoPlacings(events, e, f) && !RoomsApart(cfg, RunDesk(cfg, s, events).entries);
      TwoUnrivalled(cfg, s, events, e, f);
      RoomsStayApart(cfg, s, events);
    }
  }
}
