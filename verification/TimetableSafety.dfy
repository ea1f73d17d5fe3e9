/**
 Clash freedom: over every run of placing, moving and deleting periods no teacher and no room
 is double-booked and every cap holds; confirmed substitutes never clash either.
 */
module TimetableSafety {
  import opened Wrappers
  import opened TimetableModel

  predicate TeachersApart(cfg: Config, entries: map<nat, Entry>) {
    forall j, k ::
      (j in entries && k in entries && j != k && entries[j].day == entries[k].day
       && StaffOf(cfg, entries[j]) == StaffOf(cfg, entries[k]))
      ==> !SlotsOverlap(cfg, entries[j].slot, entries[k].slot)
  }

  predicate RoomsApart(cfg: Config, entries: map<nat, Entry>) {
    forall j, k ::
      (j in entries && k in entries && j != k && entries[j].day == entries[k].day
       && entries[j].room.Some? && entries[j].room == entries[k].room)
      ==> !SlotsOverlap(cfg, entries[j].slot, entries[k].slot)
  }

  predicate SlotOnce(entries: map<nat, Entry>) {
    forall j, k ::
      (j in entries && k in entries && j != k && entries[j].day == entries[k].day
       && entries[j].section == entries[k].section)
      ==> entries[j].slot != entries[k].slot
  }

  ghost predicate WithinLoads(cfg: Config, entries: map<nat, Entry>) {
    forall t: nat :: |TeacherWeek(cfg, entries, t)| <= cfg.maxPeriods(t)
  }

  ghost predicate WithinAllotments(cfg: Config, entries: map<nat, Entry>) {
    forall a: nat :: cfg.assignment(a).periodsPerWeek != 0 ==> |AssignmentWeek(entries, a)| <= cfg.assignment(a).periodsPerWeek
  }

  ghost predicate ClashFree(cfg: Config, s: State) {
    TeachersApart(cfg, s.entries) && RoomsApart(cfg, s.entries) && SlotOnce(s.entries)
    && WithinLoads(cfg, s.entries) && WithinAllotments(cfg, s.entries)
    && (forall k :: k in s.entries ==> OnSchedule(cfg, s.entries[k]))
    && (forall k :: k in s.entries ==> k < s.nextEntry)
    && s.branches.Keys == s.entries.Keys
  }

  // ------------------------------------------------------------------ placing

  lemma TeachersApartAfter(cfg: Config, entries: map<nat, Entry>, e: Entry, k: nat)
    requires TeachersApart(cfg, entries) && TeacherFree(cfg, entries, e, Some(k))
    ensures TeachersApart(cfg, entries[k := e])
  {
    forall j | j in entries && j != k && entries[j].day == e.day && StaffOf(cfg, entries[j]) == StaffOf(cfg, e)
      ensures !SlotsOverlap(cfg, entries[j].slot, e.slot)
    {
      assert j in TeacherDay(cfg, entries, StaffOf(cfg, e), e.day);
    }
  }

  lemma RoomsApartAfter(cfg: Config, entries: map<nat, Entry>, e: Entry, k: nat)
    requires RoomsApart(cfg, entries) && RoomFree(cfg, entries, e, Some(k))
    ensures RoomsApart(cfg, entries[k := e])
  {
    forall j | j in entries && j != k && entries[j].day == e.day && e.room.Some? && entries[j].room == e.room
      ensures !SlotsOverlap(cfg, entries[j].slot, e.slot)
    {
      assert j in RoomDay(entries, e.room.value, e.day);
    }
  }

  lemma SlotOnceAfter(cfg: Config, entries: map<nat, Entry>, e: Entry, k: nat)
    requires SlotOnce(entries) && !Taken(entries, e.section, e.day, e.slot, Some(k))
    ensures SlotOnce(entries[k := e])
  {
  }

  lemma Fewer(ks: set<nat>, k: nat)
    ensures |ks - {k}| <= |ks| && |(ks - {k}) + {k}| == |ks - {k}| + 1
  {
    if k in ks {
      assert ks == (ks - {k}) + {k};
    } else {
      assert ks - {k} == ks;
    }
  }

  lemma TeacherWeekAfter(cfg: Config, entries: map<nat, Entry>, e: Entry, k: nat, t: nat)
    ensures TeacherWeek(cfg, entries[k := e], t)
            == (TeacherWeek(cfg, entries, t) - {k}) + (if t == StaffOf(cfg, e) then {k} else {})
  {
    hide StaffOf;
  }

  lemma AssignmentWeekAfter(entries: map<nat, Entry>, e: Entry, k: nat, a: nat)
    ensures AssignmentWeek(entries[k := e], a) == (AssignmentWeek(entries, a) - {k}) + (if a == e.assignment then {k} else {})
  {
  }

  /** Putting e at k counts k once for its teacher and no longer for any other. */
  lemma WithinLoadsAfter(cfg: Config, entries: map<nat, Entry>, e: Entry, k: nat)
    requires WithinLoads(cfg, entries) && WeekLeft(cfg, entries, e, Some(k))
    ensures WithinLoads(cfg, entries[k := e])
  {
    hide TeacherWeek, StaffOf;
    forall t: nat ensures |TeacherWeek(cfg, entries[k := e], t)| <= cfg.maxPeriods(t) {
      assert |TeacherWeek(cfg, entries, t)| <= cfg.maxPeriods(t);
      TeacherWeekAfter(cfg, entries, e, k, t);
      Fewer(TeacherWeek(cfg, entries, t), k);
      assert TeacherWeek(cfg, entries, t) - {k} + {} == TeacherWeek(cfg, entries, t) - {k};
    }
  }

  lemma WithinAllotmentsAfter(cfg: Config, entries: map<nat, Entry>, e: Entry, k: nat)
    requires WithinAllotments(cfg, entries) && PeriodsLeft(cfg, entries, e, Some(k))
    ensures WithinAllotments(cfg, entries[k := e])
  {
    hide AssignmentWeek;
    forall a: nat | cfg.assignment(a).periodsPerWeek != 0
      ensures |AssignmentWeek(entries[k := e], a)| <= cfg.assignment(a).periodsPerWeek
    {
      assert |AssignmentWeek(entries, a)| <= cfg.assignment(a).periodsPerWeek;
      AssignmentWeekAfter(entries, e, k, a);
      Fewer(AssignmentWeek(entries, a), k);
      assert AssignmentWeek(entries, a) - {k} + {} == AssignmentWeek(entries, a) - {k};
    }
  }

  /** Leaving out a row that is not there leaves out nothing. */
  lemma NewKeyLoads(cfg: Config, entries: map<nat, Entry>, e: Entry, k: nat)
    requires k !in entries
    ensures WeekLeft(cfg, entries, e, None) <==> WeekLeft(cfg, entries, e, Some(k))
    ensures PeriodsLeft(cfg, entries, e, None) <==> PeriodsLeft(cfg, entries, e, Some(k))
  {
    hide StaffOf;
    assert TeacherWeek(cfg, entries, StaffOf(cfg, e)) - {k} == TeacherWeek(cfg, entries, StaffOf(cfg, e));
    assert AssignmentWeek(entries, e.assignment) - {k} == AssignmentWeek(entries, e.assignment);
  }

  lemma NewKeyFree(cfg: Config, entries: map<nat, Entry>, e: Entry, k: nat)
    requires k !in entries
    ensures Taken(entries, e.section, e.day, e.slot, None) <==> Taken(entries, e.section, e.day, e.slot, Some(k))
    ensures TeacherFree(cfg, entries, e, None) <==> TeacherFree(cfg, entries, e, Some(k))
    ensures RoomFree(cfg, entries, e, None) <==> RoomFree(cfg, entries, e, Some(k))
  {
    hide SlotsOverlap, StaffOf, TeacherDay, RoomDay;
  }

  lemma NewKeyFits(cfg: Config, entries: map<nat, Entry>, e: Entry, k: nat)
    requires k !in entries
    ensures Fits(cfg, entries, e, None) <==> Fits(cfg, entries, e, Some(k))
  {
    NewKeyLoads(cfg, entries, e, k);
    NewKeyFree(cfg, entries, e, k);
    hide WeekLeft, PeriodsLeft, OnSchedule, Taken, TeacherFree, RoomFree;
  }

  /** Putting e in keeps the timetable clash-free only if e fitted. */
  lemma OnlyFittingKeeps(cfg: Config, entries: map<nat, Entry>, e: Entry, k: nat)
    requires TeachersApart(cfg, entries[k := e]) && RoomsApart(cfg, entries[k := e]) && SlotOnce(entries[k := e])
    requires WithinLoads(cfg, entries[k := e]) && WithinAllotments(cfg, entries[k := e]) && OnSchedule(cfg, e)
    ensures Fits(cfg, entries, e, Some(k))
  {
    var after := entries[k := e];
    assert after[k] == e && forall j :: j in entries && j != k ==> j in after && after[j] == entries[j];
    OnlyLoadsLeft(cfg, entries, e, k);
    hide WithinLoads, WithinAllotments, WeekLeft, PeriodsLeft, OnSchedule;
    assert !Taken(entries, e.section, e.day, e.slot, Some(k));
    assert TeacherFree(cfg, entries, e, Some(k));
    assert RoomFree(cfg, entries, e, Some(k));
  }

  lemma OnlyLoadsLeft(cfg: Config, entries: map<nat, Entry>, e: Entry, k: nat)
    requires WithinLoads(cfg, entries[k := e]) && WithinAllotments(cfg, entries[k := e])
    ensures WeekLeft(cfg, entries, e, Some(k)) && PeriodsLeft(cfg, entries, e, Some(k))
  {
    var t := StaffOf(cfg, e);
    TeacherWeekAfter(cfg, entries, e, k, t);
    AssignmentWeekAfter(entries, e, k, e.assignment);
    Fewer(TeacherWeek(cfg, entries, t), k);
    Fewer(AssignmentWeek(entries, e.assignment), k);
    hide TeacherWeek, AssignmentWeek, StaffOf;
    assert |TeacherWeek(cfg, entries[k := e], t)| <= cfg.maxPeriods(t);
  }

  lemma PlaceKeepsClashFree(cfg: Config, s: State, e: Entry, entry: Option<nat>)
    requires ClashFree(cfg, s) && (entry.Some? ==> entry.value in s.entries)
    ensures Place(cfg, s, e, entry).Ok? ==> ClashFree(cfg, Place(cfg, s, e, entry).value)
  {
    hide TeachersApart, RoomsApart, SlotOnce, WithinLoads, WithinAllotments, Taken, TeacherFree, RoomFree, WeekLeft, PeriodsLeft;
    if Place(cfg, s, e, entry).Ok? {
      var k := if entry.Some? then entry.value else s.nextEntry;
      if entry.None? {
        NewKeyFits(cfg, s.entries, e, k);
      }
      TeachersApartAfter(cfg, s.entries, e, k);
      RoomsApartAfter(cfg, s.entries, e, k);
      SlotOnceAfter(cfg, s.entries, e, k);
      WithinLoadsAfter(cfg, s.entries, e, k);
      WithinAllotmentsAfter(cfg, s.entries, e, k);
    }
  }

  lemma DeleteKeepsClashFree(cfg: Config, s: State, k: nat)
    requires ClashFree(cfg, s)
    ensures ClashFree(cfg, Delete(s, k))
  {
    var after := s.entries - {k};
    forall t: nat ensures |TeacherWeek(cfg, after, t)| <= cfg.maxPeriods(t) {
      assert |TeacherWeek(cfg, s.entries, t)| <= cfg.maxPeriods(t);
      assert TeacherWeek(cfg, after, t) == TeacherWeek(cfg, s.entries, t) - {k};
      Fewer(TeacherWeek(cfg, s.entries, t), k);
    }
    forall a: nat | cfg.assignment(a).periodsPerWeek != 0
      ensures |AssignmentWeek(after, a)| <= cfg.assignment(a).periodsPerWeek
    {
      assert |AssignmentWeek(s.entries, a)| <= cfg.assignment(a).periodsPerWeek;
      assert AssignmentWeek(after, a) == AssignmentWeek(s.entries, a) - {k};
      Fewer(AssignmentWeek(s.entries, a), k);
    }
  }

  /**
   Over every run, moves included: no teacher and no room has two overlapping periods on a
   weekday, a section uses a slot once a day, and the weekly and per-subject caps hold.
   */
  lemma {:induction false} TimetableStaysClashFree(cfg: Config, ops: seq<Op>)
    ensures ClashFree(cfg, Run(cfg, ops))
  {
    if ops == [] {
      NothingPlaced(cfg);
    } else {
      hide ClashFree, Place, Delete;
      var s, op := Run(cfg, ops[..|ops| - 1]), ops[|ops| - 1];
      TimetableStaysClashFree(cfg, ops[..|ops| - 1]);
      match op
      case OpPlace(e, entry) => if entry.Some? ==> entry.value in s.entries { PlaceKeepsClashFree(cfg, s, e, entry); }
      case OpDelete(k) => DeleteKeepsClashFree(cfg, s, k);
    }
  }

  lemma NothingPlaced(cfg: Config)
    ensures ClashFree(cfg, EMPTY)
  {
    forall t: nat ensures |TeacherWeek(cfg, EMPTY.entries, t)| <= cfg.maxPeriods(t) {
      assert TeacherWeek(cfg, EMPTY.entries, t) == {};
    }
    forall a: nat | cfg.assignment(a).periodsPerWeek != 0 ensures |AssignmentWeek(EMPTY.entries, a)| <= cfg.assignment(a).periodsPerWeek {
      assert AssignmentWeek(EMPTY.entries, a) == {};
    }
  }

  /**
   On a clash-free timetable a period is refused exactly when writing it would break one of the
   rules; when it goes in, only its own row changes.
   */
  lemma PlaceRefusesExactlyClashes(cfg: Config, s: State, e: Entry, entry: Option<nat>)
    requires ClashFree(cfg, s) && (entry.Some? ==> entry.value in s.entries)
    ensures Place(cfg, s, e, entry).Ok? <==> ClashFree(cfg, Put(cfg, s, e, entry))
    ensures var r := Place(cfg, s, e, entry);
            var k := if entry.Some? then entry.value else s.nextEntry;
            r.Ok? ==> k in r.value.entries && r.value.entries[k] == e && r.value.subs == s.subs
                      && (forall j :: j != k ==> (j in r.value.entries <==> j in s.entries))
                      && forall j :: j != k && j in s.entries ==> r.value.entries[j] == s.entries[j]
  {
    hide ClashFree, Fits;
    PlaceKeepsClashFree(cfg, s, e, entry);
    if ClashFree(cfg, Put(cfg, s, e, entry)) {
      ClashFreeOnlyIfFits(cfg, s, e, entry);
    }
  }

  lemma ClashFreeOnlyIfFits(cfg: Config, s: State, e: Entry, entry: Option<nat>)
    requires ClashFree(cfg, s) && ClashFree(cfg, Put(cfg, s, e, entry))
    ensures Fits(cfg, s.entries, e, entry)
  {
    hide TeachersApart, RoomsApart, SlotOnce, WithinLoads, WithinAllotments, OnSchedule, Fits;
    var k := if entry.Some? then entry.value else s.nextEntry;
    var t := Put(cfg, s, e, entry);
    assert t.entries == s.entries[k := e] && t.entries[k] == e;
    OnlyFittingKeeps(cfg, s.entries, e, k);
    if entry.None? {
      NewKeyFits(cfg, s.entries, e, k);
    }
  }

  // ------------------------------------------------------------------ substitutes

  /**
   Covered periods of one teacher on one date are apart, all in the teacher's branch, and apart
   from the teacher's own periods there.
   */
  ghost predicate SubsApart(cfg: Config, s: State) {
    AllSound(cfg, s) && CoversApart(cfg, s) && HomeApart(cfg, s)
  }

  predicate AllSound(cfg: Config, s: State) {
    forall k :: k in s.subs ==> SubSound(cfg, s, k.0, k.1, s.subs[k])
  }

  predicate CoversApart(cfg: Config, s: State) {
    forall j, k ::
      (j in s.subs && k in s.subs && j.1 == k.1 && j.0 != k.0 && s.subs[j] == s.subs[k] && j.0 in s.entries && k.0 in s.entries)
      ==> !SlotsOverlap(cfg, s.entries[j.0].slot, s.entries[k.0].slot)
  }

  ghost predicate HomeApart(cfg: Config, s: State) {
    forall k, own ::
      (k in s.subs && k.0 in s.entries && own in OwnIn(cfg, s, cfg.home(s.subs[k]), s.subs[k], Weekday(k.1)))
      ==> !SlotsOverlap(cfg, s.entries[own].slot, s.entries[k.0].slot)
  }

  predicate SubSound(cfg: Config, s: State, entry: nat, on: int, staff: nat) {
    Known(s, entry) && s.entries[entry].day == Weekday(on) && staff != StaffOf(cfg, s.entries[entry])
    && cfg.home(staff) == s.branches[entry]
  }

  predicate Accepted(cfg: Config, s: State, a: Ask) {
    Known(s, a.entry) && Confirm(cfg, s, a.entry, a.on, a.teachers, a.absent, a.staff).Ok?
  }

  lemma SameOwn(cfg: Config, s: State, t: State)
    requires t.entries == s.entries && t.branches == s.branches
    ensures forall branch, staff, day :: OwnIn(cfg, t, branch, staff, day) == OwnIn(cfg, s, branch, staff, day)
    ensures forall entry, on, staff :: SubSound(cfg, s, entry, on, staff) ==> SubSound(cfg, t, entry, on, staff)
  {}

  lemma CoveredApart(cfg: Config, s: State, a: Ask, j: (nat, int))
    requires SubsApart(cfg, s) && Accepted(cfg, s, a) && j in s.subs && j.1 == a.on && j.0 != a.entry && s.subs[j] == a.staff
    ensures j.0 in s.entries
    ensures !SlotsOverlap(cfg, s.entries[j.0].slot, s.entries[a.entry].slot)
    ensures !SlotsOverlap(cfg, s.entries[a.entry].slot, s.entries[j.0].slot)
  {
    hide StaffOf, TeacherDay, OwnIn;
    assert SubSound(cfg, s, j.0, j.1, a.staff);
    assert j.0 in CoveringIn(s, s.branches[a.entry], a.staff, a.on);
    OverlapsBothWays(cfg, s.entries[j.0].slot, s.entries[a.entry].slot);
  }

  lemma CoversStayApart(cfg: Config, s: State, a: Ask)
    requires SubsApart(cfg, s) && Accepted(cfg, s, a)
    ensures CoversApart(cfg, Answer(cfg, s, a))
  {
    var t := Answer(cfg, s, a);
    assert t.subs == s.subs[(a.entry, a.on) := a.staff] && t.entries == s.entries;
    forall j | j in s.subs && j.1 == a.on && j.0 != a.entry && s.subs[j] == a.staff
      ensures j.0 in s.entries && !SlotsOverlap(cfg, s.entries[j.0].slot, s.entries[a.entry].slot)
              && !SlotsOverlap(cfg, s.entries[a.entry].slot, s.entries[j.0].slot)
    {
      CoveredApart(cfg, s, a, j);
    }
    hide SlotsOverlap, Answer, AllSound, HomeApart, Accepted;
  }

  lemma HomeStaysApart(cfg: Config, s: State, a: Ask)
    requires HomeApart(cfg, s) && Accepted(cfg, s, a)
    ensures HomeApart(cfg, Answer(cfg, s, a))
  {
    var t := Answer(cfg, s, a);
    SameOwn(cfg, s, t);
    hide SlotsOverlap, TeacherDay, CoveringIn;
  }

  lemma AnswerKeepsApart(cfg: Config, s: State, a: Ask)
    requires SubsApart(cfg, s)
    ensures var t := Answer(cfg, s, a);
            SubsApart(cfg, t) && t.entries == s.entries && t.branches == s.branches
  {
    if Accepted(cfg, s, a) {
      CoversStayApart(cfg, s, a);
      HomeStaysApart(cfg, s, a);
      var t := Answer(cfg, s, a);
      SameOwn(cfg, s, t);
      assert SubSound(cfg, t, a.entry, a.on, a.staff);
      hide CoversApart, HomeApart, Busy;
    }
  }

  lemma OverlapsBothWays(cfg: Config, a: nat, b: nat)
    ensures SlotsOverlap(cfg, a, b) <==> SlotsOverlap(cfg, b, a)
  {}

  /**
   With the timetable fixed, any sequence of confirmations leaves every substitute's covered
   periods on a date apart from each other, whatever their branch, and apart from the
   substitute's own periods in the branch covered.
   */
  lemma {:induction false} SubstitutesNeverClash(cfg: Config, s: State, asks: seq<Ask>)
    requires SubsApart(cfg, s)
    ensures var t := ConfirmAll(cfg, s, asks);
            SubsApart(cfg, t) && t.entries == s.entries && t.branches == s.branches
  {
    if asks != [] {
      hide SubsApart, Answer;
      SubstitutesNeverClash(cfg, s, asks[..|asks| - 1]);
      AnswerKeepsApart(cfg, ConfirmAll(cfg, s, asks[..|asks| - 1]), asks[|asks| - 1]);
    }
  }

  // ------------------------------------------------------------------ own periods in another branch

  /** No substitute has a period of their own, in any branch, while covering. */
  ghost predicate OwnApart(cfg: Config, s: State) {
    forall k, own :: k in s.subs && own in TeacherDay(cfg, s.entries, s.subs[k], Weekday(k.1)) && k.0 in s.entries
      ==> !SlotsOverlap(cfg, s.entries[own].slot, s.entries[k.0].slot)
  }

  /** The teacher has a period of their own at that time in a branch other than the period's. */
  predicate TeachesElsewhere(cfg: Config, s: State, entry: nat, staff: nat)
    requires Known(s, entry)
  {
    exists own :: own in TeacherDay(cfg, s.entries, staff, s.entries[entry].day) && !InBranch(s, own, s.branches[entry])
                  && SlotsOverlap(cfg, s.entries[own].slot, s.entries[entry].slot)
  }

  ghost predicate AlwaysOwnApart(cfg: Config, s: State, asks: seq<Ask>) {
    OwnApart(cfg, ConfirmAll(cfg, s, asks)) && (asks != [] ==> AlwaysOwnApart(cfg, s, asks[..|asks| - 1]))
  }

  predicate NoneElsewhere(cfg: Config, s: State, asks: seq<Ask>) {
    asks != [] ==>
      NoneElsewhere(cfg, s, asks[..|asks| - 1])
      && var t, a := ConfirmAll(cfg, s, asks[..|asks| - 1]), asks[|asks| - 1];
         Accepted(cfg, t, a) ==> !TeachesElsewhere(cfg, t, a.entry, a.staff)
  }

  /** suggest() sees one branch: a confirmed substitute is free in deed unless teaching in another. */
  lemma ConfirmApartIff(cfg: Config, s: State, a: Ask)
    requires OwnApart(cfg, s) && Accepted(cfg, s, a)
    ensures OwnApart(cfg, Answer(cfg, s, a)) <==> !TeachesElsewhere(cfg, s, a.entry, a.staff)
  {
    hide SlotsOverlap, StaffOf;
    var t := Answer(cfg, s, a);
    assert (a.entry, a.on) in t.subs && t.subs[(a.entry, a.on)] == a.staff && s.entries[a.entry].day == Weekday(a.on);
    forall own | own in s.entries && own in TeacherDay(cfg, s.entries, a.staff, Weekday(a.on)) && InBranch(s, own, s.branches[a.entry])
      ensures !SlotsOverlap(cfg, s.entries[own].slot, s.entries[a.entry].slot)
    {
      assert own in OwnIn(cfg, s, s.branches[a.entry], a.staff, Weekday(a.on));
    }
  }

  /**
   Over any sequence of confirmations, no substitute ever covers a period during one of their own
   if and only if none was accepted who teaches in another branch at the time.
   */
  lemma {:induction false} SubstitutesFreeIff(cfg: Config, s: State, asks: seq<Ask>)
    requires OwnApart(cfg, s)
    ensures AlwaysOwnApart(cfg, s, asks) <==> NoneElsewhere(cfg, s, asks)
    ensures AlwaysOwnApart(cfg, s, asks) ==> OwnApart(cfg, ConfirmAll(cfg, s, asks))
  {
    if asks != [] {
      hide OwnApart, TeachesElsewhere;
      SubstitutesFreeIff(cfg, s, asks[..|asks| - 1]);
      var t, a := ConfirmAll(cfg, s, asks[..|asks| - 1]), asks[|asks| - 1];
      if Accepted(cfg, t, a) && AlwaysOwnApart(cfg, s, asks[..|asks| - 1]) {
        ConfirmApartIff(cfg, t, a);
      }
    }
  }

  /** Every period is held in its teacher's own branch. */
  predicate AllAtHome(cfg: Config, s: State) {
    forall k :: k in s.entries ==> InBranch(s, k, cfg.home(StaffOf(cfg, s.entries[k])))
  }

  lemma {:induction false} ConfirmingKeepsPeriods(cfg: Config, s: State, asks: seq<Ask>)
    ensures ConfirmAll(cfg, s, asks).entries == s.entries && ConfirmAll(cfg, s, asks).branches == s.branches
  {
    if asks != [] {
      ConfirmingKeepsPeriods(cfg, s, asks[..|asks| - 1]);
    }
  }

  /** So where teachers teach in their own branch only, substitutes are always free in deed. */
  lemma {:induction false} SubstitutesFreeAtHome(cfg: Config, s: State, asks: seq<Ask>)
    requires OwnApart(cfg, s) && AllAtHome(cfg, s)
    ensures NoneElsewhere(cfg, s, asks) && AlwaysOwnApart(cfg, s, asks)
  {
    SubstitutesFreeIff(cfg, s, asks);
    if asks != [] {
      hide OwnApart;
      var before := asks[..|asks| - 1];
      SubstitutesFreeAtHome(cfg, s, before);
      ConfirmingKeepsPeriods(cfg, s, before);
      var t, a := ConfirmAll(cfg, s, before), asks[|asks| - 1];
      if Accepted(cfg, t, a) {
        assert !TeachesElsewhere(cfg, t, a.entry, a.staff);
      }
    }
  }

  /** Two sections of different branches with one bell; teacher 1 of branch 0 also teaches in branch 1. */
  const TWO_BRANCHES := Config((s: nat) => Slot(0, 540, 600, false, {0}), (a: nat) => Assignment(a, a, "Physics", 0),
                               (s: nat) => Some(0), (t: nat) => 36, (s: nat) => s, (t: nat) => 0)

  const HERE := Entry(0, 0, 0, 0, None)
  const THERE := Entry(1, 0, 0, 1, None)
  const BOTH := State(map[0 := HERE, 1 := THERE], 2, map[], map[0 := 0, 1 := 1])

  lemma BothPlaced()
    ensures Run(TWO_BRANCHES, [OpPlace(HERE, None), OpPlace(THERE, None)]) == BOTH
  {
    var cfg, ops := TWO_BRANCHES, [OpPlace(HERE, None), OpPlace(THERE, None)];
    var one := State(map[0 := HERE], 1, map[], map[0 := 0]);
    assert ops[..1] == [OpPlace(HERE, None)] && ops[..1][..0] == [];
    assert TeacherWeek(cfg, EMPTY.entries, 0) == {};
    assert Run(cfg, ops[..1]) == one;
    assert TeacherWeek(cfg, one.entries, 1) == {};
  }

  /** The teacher of section 1's only period is confirmed for section 0's period at the same time. */
  lemma SubstituteTeachingElsewhere()
    ensures var s := Run(TWO_BRANCHES, [OpPlace(HERE, None), OpPlace(THERE, None)]);
            var ask := Ask(0, 1, {1}, {}, 1);
            OwnApart(TWO_BRANCHES, s) && Accepted(TWO_BRANCHES, s, ask)
            && !OwnApart(TWO_BRANCHES, Answer(TWO_BRANCHES, s, ask))
  {
    BothPlaced();
    hide Run;
    assert 1 in TeacherDay(TWO_BRANCHES, BOTH.entries, 1, 0) && SlotsOverlap(TWO_BRANCHES, 0, 0);
    assert TeachesElsewhere(TWO_BRANCHES, BOTH, 0, 1);
    ConfirmApartIff(TWO_BRANCHES, BOTH, Ask(0, 1, {1}, {}, 1));
  }
}
