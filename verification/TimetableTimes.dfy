/** The timetable's rules in minutes (apps/timetable/services.py). */
module TimetableTimes {
  import opened Wrappers
  import opened TimetableModel
  import opened TimetableSafety
  import Dates

  /** A minute lies in a period from its start up to, but not including, its end. */
  predicate During(cfg: Config, slot: nat, t: int) {
    cfg.slot(slot).start <= t < cfg.slot(slot).end
  }

  ghost predicate ShareMinute(cfg: Config, a: nat, b: nat) {
    exists t :: During(cfg, a, t) && During(cfg, b, t)
  }

  /** Bell slots end after they start, as the database demands. */
  ghost predicate ProperSlots(cfg: Config) {
    forall k: nat :: cfg.slot(k).start < cfg.slot(k).end
  }

  /** Periods overlap exactly when they have a minute in common; back to back they do not. */
  lemma OverlapIffShared(cfg: Config, a: nat, b: nat)
    requires ProperSlots(cfg)
    ensures SlotsOverlap(cfg, a, b) <==> ShareMinute(cfg, a, b)
    ensures cfg.slot(a).end == cfg.slot(b).start ==> !SlotsOverlap(cfg, a, b)
  {
    assert cfg.slot(a).start < cfg.slot(a).end && cfg.slot(b).start < cfg.slot(b).end;
    if SlotsOverlap(cfg, a, b) {
      var t := if cfg.slot(a).start >= cfg.slot(b).start then cfg.slot(a).start else cfg.slot(b).start;
      assert During(cfg, a, t) && During(cfg, b, t);
    }
  }

  // ------------------------------------------------------------------ the rules

  function TeacherOf(cfg: Config, e: Entry): nat {
    cfg.assignment(e.assignment).staff
  }

  /** One of the other rows: there, and not the one being changed. */
  predicate Other(entries: map<nat, Entry>, k: nat, entry: Option<nat>) {
    k in entries && entry != Some(k)
  }

  predicate SlotUsed(entries: map<nat, Entry>, e: Entry, entry: Option<nat>) {
    exists k :: k in entries && Other(entries, k, entry)
                && entries[k].section == e.section && entries[k].day == e.day && entries[k].slot == e.slot
  }

  ghost predicate TeacherBusy(cfg: Config, entries: map<nat, Entry>, e: Entry, entry: Option<nat>) {
    exists k :: k in entries && Other(entries, k, entry) && TeacherOf(cfg, entries[k]) == TeacherOf(cfg, e)
                && entries[k].day == e.day && ShareMinute(cfg, entries[k].slot, e.slot)
  }

  ghost predicate RoomBusy(cfg: Config, entries: map<nat, Entry>, e: Entry, entry: Option<nat>) {
    e.room.Some?
    && exists k :: k in entries && Other(entries, k, entry) && entries[k].room == e.room
                   && entries[k].day == e.day && ShareMinute(cfg, entries[k].slot, e.slot)
  }

  function WeekOf(cfg: Config, entries: map<nat, Entry>, e: Entry, entry: Option<nat>): set<nat> {
    set k | k in entries && Other(entries, k, entry) && TeacherOf(cfg, entries[k]) == TeacherOf(cfg, e)
  }

  function AllottedTo(entries: map<nat, Entry>, e: Entry, entry: Option<nat>): set<nat> {
    set k | k in entries && Other(entries, k, entry) && entries[k].assignment == e.assignment
  }

  /** The allotment is the section's, and the slot a period of its schedule that runs on the day. */
  predicate RunsThen(cfg: Config, e: Entry) {
    var slot := cfg.slot(e.slot);
    cfg.assignment(e.assignment).section == e.section && cfg.scheduleFor(e.section) == Some(slot.schedule)
    && !slot.isBreak && e.day in slot.weekdays
  }

  lemma TeacherBusyIff(cfg: Config, entries: map<nat, Entry>, e: Entry, entry: Option<nat>)
    requires ProperSlots(cfg)
    ensures TeacherFree(cfg, entries, e, entry) <==> !TeacherBusy(cfg, entries, e, entry)
  {
    forall k | k in entries ensures SlotsOverlap(cfg, entries[k].slot, e.slot) <==> ShareMinute(cfg, entries[k].slot, e.slot) {
      OverlapIffShared(cfg, entries[k].slot, e.slot);
    }
    hide ShareMinute, SlotsOverlap, ProperSlots;
  }

  lemma RoomBusyIff(cfg: Config, entries: map<nat, Entry>, e: Entry, entry: Option<nat>)
    requires ProperSlots(cfg)
    ensures RoomFree(cfg, entries, e, entry) <==> !RoomBusy(cfg, entries, e, entry)
  {
    forall k | k in entries ensures SlotsOverlap(cfg, entries[k].slot, e.slot) <==> ShareMinute(cfg, entries[k].slot, e.slot) {
      OverlapIffShared(cfg, entries[k].slot, e.slot);
    }
    hide ShareMinute, SlotsOverlap, ProperSlots;
  }

  lemma WeekLeftIff(cfg: Config, entries: map<nat, Entry>, e: Entry, entry: Option<nat>)
    ensures WeekLeft(cfg, entries, e, entry) <==> |WeekOf(cfg, entries, e, entry)| < cfg.maxPeriods(TeacherOf(cfg, e))
  {
    assert Without(TeacherWeek(cfg, entries, StaffOf(cfg, e)), entry) == WeekOf(cfg, entries, e, entry);
  }

  lemma PeriodsLeftIff(cfg: Config, entries: map<nat, Entry>, e: Entry, entry: Option<nat>)
    ensures var allotted := cfg.assignment(e.assignment).periodsPerWeek;
            (PeriodsLeft(cfg, entries, e, entry) <==> (allotted != 0 ==> |AllottedTo(entries, e, entry)| < allotted))
  {
    assert Without(AssignmentWeek(entries, e.assignment), entry) == AllottedTo(entries, e, entry);
  }

  lemma TakenIff(entries: map<nat, Entry>, e: Entry, entry: Option<nat>)
    ensures Taken(entries, e.section, e.day, e.slot, entry) <==> SlotUsed(entries, e, entry)
  {
    if Taken(entries, e.section, e.day, e.slot, entry) {
      var k :| k in entries && entry != Some(k) && entries[k].section == e.section && entries[k].day == e.day && entries[k].slot == e.slot;
      assert Other(entries, k, entry);
    }
  }

  /**
   A period is refused exactly when it does not run then, its section has that slot taken, another
   period of the teacher or in the room shares a minute with it, or the teacher's week or the
   allotment's periods are full already. A row being changed does not stand in its own way.
   */
  lemma PlaceRefusedExactly(cfg: Config, s: State, e: Entry, entry: Option<nat>)
    requires ProperSlots(cfg)
    ensures var allotted := cfg.assignment(e.assignment).periodsPerWeek;
            (Place(cfg, s, e, entry).Conflict?
             <==> !RunsThen(cfg, e) || SlotUsed(s.entries, e, entry)
                  || TeacherBusy(cfg, s.entries, e, entry) || RoomBusy(cfg, s.entries, e, entry)
                  || |WeekOf(cfg, s.entries, e, entry)| >= cfg.maxPeriods(TeacherOf(cfg, e))
                  || (allotted != 0 && |AllottedTo(s.entries, e, entry)| >= allotted))
  {
    hide Taken, SlotUsed, TeacherFree, TeacherBusy, RoomFree, RoomBusy, WeekLeft, WeekOf, PeriodsLeft, AllottedTo, Put, ProperSlots;
    TakenIff(s.entries, e, entry);
    TeacherBusyIff(cfg, s.entries, e, entry);
    RoomBusyIff(cfg, s.entries, e, entry);
    WeekLeftIff(cfg, s.entries, e, entry);
    PeriodsLeftIff(cfg, s.entries, e, entry);
  }

  /** What is placed goes in as asked: a new row in its section's branch, or the changed one in its own. */
  lemma PlacedAsAsked(cfg: Config, s: State, e: Entry, entry: Option<nat>)
    requires Place(cfg, s, e, entry).Ok?
    ensures Place(cfg, s, e, entry).value
            == if entry.Some? then s.(entries := s.entries[entry.value := e])
               else State(s.entries[s.nextEntry := e], s.nextEntry + 1, s.subs, s.branches[s.nextEntry := cfg.branchOf(e.section)])
  {
  }

  /** No cover stands without its period. */
  predicate AllCoverHeld(s: State) {
    forall k :: k in s.subs ==> k.0 in s.entries
  }

  /** Deleting a period takes its covers on all dates with it, and nothing else. */
  lemma DeletedWithItsCover(s: State, entry: nat)
    ensures var t := Delete(s, entry);
            entry !in t.entries && (forall k :: k in s.entries && k != entry ==> k in t.entries && t.entries[k] == s.entries[k])
            && (forall k :: k in t.entries ==> k in s.entries)
            && (forall k :: k in t.subs <==> k in s.subs && k.0 != entry) && (forall k :: k in t.subs ==> t.subs[k] == s.subs[k])
            && t.nextEntry == s.nextEntry
    ensures AllCoverHeld(s) ==> AllCoverHeld(Delete(s, entry))
  {
  }

  /** After any run, no two periods of a teacher or in a room have a minute of a weekday in common. */
  lemma RunsShareNoMinute(cfg: Config, ops: seq<Op>, j: nat, k: nat)
    requires ProperSlots(cfg) && j != k
    ensures var entries := Run(cfg, ops).entries;
            j in entries && k in entries && entries[j].day == entries[k].day
            && (TeacherOf(cfg, entries[j]) == TeacherOf(cfg, entries[k]) || (entries[j].room.Some? && entries[j].room == entries[k].room))
            ==> !ShareMinute(cfg, entries[j].slot, entries[k].slot)
  {
    TimetableStaysClashFree(cfg, ops);
    var entries := Run(cfg, ops).entries;
    if j in entries && k in entries {
      OverlapIffShared(cfg, entries[j].slot, entries[k].slot);
    }
    hide Run, WithinLoads, WithinAllotments, SlotOnce, SlotsOverlap, ShareMinute, ProperSlots;
  }

  // ------------------------------------------------------------------ substitutes

  ghost predicate OwnMinute(cfg: Config, s: State, entry: nat, staff: nat)
    requires Known(s, entry)
  {
    exists k :: k in s.entries && k in s.branches && s.branches[k] == s.branches[entry] && TeacherOf(cfg, s.entries[k]) == staff
                && s.entries[k].day == s.entries[entry].day && ShareMinute(cfg, s.entries[k].slot, s.entries[entry].slot)
  }

  ghost predicate CoverMinute(cfg: Config, s: State, entry: nat, on: int, staff: nat)
    requires Known(s, entry)
  {
    exists k :: k in s.entries && k in s.branches && s.branches[k] == s.branches[entry]
                && (k, on) in s.subs && s.subs[(k, on)] == staff && ShareMinute(cfg, s.entries[k].slot, s.entries[entry].slot)
  }

  lemma OwnMinuteIff(cfg: Config, s: State, entry: nat, staff: nat)
    requires ProperSlots(cfg) && Known(s, entry)
    ensures var e := s.entries[entry];
            (Busy(cfg, s.entries, OwnIn(cfg, s, s.branches[entry], staff, e.day), e.slot, None) <==> OwnMinute(cfg, s, entry, staff))
  {
    var e := s.entries[entry];
    forall k | k in s.entries ensures SlotsOverlap(cfg, s.entries[k].slot, e.slot) <==> ShareMinute(cfg, s.entries[k].slot, e.slot) {
      OverlapIffShared(cfg, s.entries[k].slot, e.slot);
    }
    hide ShareMinute, SlotsOverlap, ProperSlots;
  }

  lemma CoverMinuteIff(cfg: Config, s: State, entry: nat, on: int, staff: nat)
    requires ProperSlots(cfg) && Known(s, entry)
    ensures var e := s.entries[entry];
            (Busy(cfg, s.entries, CoveringIn(s, s.branches[entry], staff, on), e.slot, None) <==> CoverMinute(cfg, s, entry, on, staff))
  {
    var e, covering := s.entries[entry], CoveringIn(s, s.branches[entry], staff, on);
    forall k | k in s.entries ensures SlotsOverlap(cfg, s.entries[k].slot, e.slot) <==> ShareMinute(cfg, s.entries[k].slot, e.slot) {
      OverlapIffShared(cfg, s.entries[k].slot, e.slot);
    }
    forall k ensures k in covering <==> (k, on) in s.subs && s.subs[(k, on)] == staff && InBranch(s, k, s.branches[entry]) {
    }
    hide ShareMinute, SlotsOverlap, ProperSlots, CoveringIn;
  }

  /**
   A substitute is accepted exactly for a date on the period's weekday, from the period's own branch,
   not absent, not the teacher of the period, and with no minute of it taken there by a period of
   their own or one they cover on that date.
   */
  lemma SubstituteAcceptedExactly(cfg: Config, s: State, entry: nat, on: int, teachers: set<nat>, absent: set<nat>, staff: nat)
    requires ProperSlots(cfg) && Known(s, entry)
    ensures Confirm(cfg, s, entry, on, teachers, absent, staff).Ok?
       <==> s.entries[entry].day == Weekday(on) && staff in teachers && cfg.home(staff) == s.branches[entry] && staff !in absent
            && staff != TeacherOf(cfg, s.entries[entry]) && !OwnMinute(cfg, s, entry, staff) && !CoverMinute(cfg, s, entry, on, staff)
    ensures Confirm(cfg, s, entry, on, teachers, absent, staff).Ok? ==>
              Confirm(cfg, s, entry, on, teachers, absent, staff).value == s.(subs := s.subs[(entry, on) := staff])
  {
    OwnMinuteIff(cfg, s, entry, staff);
    CoverMinuteIff(cfg, s, entry, on, staff);
    hide Busy, OwnIn, CoveringIn, OwnMinute, CoverMinute, ProperSlots;
  }

  /** Days of the week follow one another, Monday first: 1 January 2024 was one. */
  lemma WeekdaysFollow(on: int)
    ensures 0 <= Weekday(on) < 7 && Weekday(on + 1) == (if Weekday(on) == 6 then 0 else Weekday(on) + 1)
    ensures Weekday(Dates.Ord(Dates.Date(2024, 1, 1))) == 0
  {
    Dates.KnownDays();
    hide Dates.Ord;
  }
}
