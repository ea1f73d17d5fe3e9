/** Beds given and vacated at several desks at once (apps/hostel/services.py). */
module ConcurrentBeds {
  /*
   Transactions take steps in any order; each check is its own read of the committed rows. Allocating
   locks the room's row, vacating only the allocation's. The remaining refusals of allocate (branch,
   status, repair ticket, gender) can only abort, and a transaction may abort at any point.
   */
  /** An allocation that has not been vacated. */
  datatype Bed = Bed(student: nat, room: nat)

  datatype Stage = Begun | Locked | Counted | Unhoused | Inserted

  datatype Txn =
    | Allocating(student: nat, room: nat, stage: Stage)
    | Vacating(alloc: nat) // holds the allocation's row, already updated

  /** Committed active allocations by primary key, and the transactions under way. */
  datatype State = State(beds: map<nat, Bed>, nextAlloc: nat, txns: map<nat, Txn>)

  datatype Event =
    | Begin(t: nat, student: nat, room: nat)
    | LockRoom(t: nat)
    | Count(t: nat)
    | CheckStudent(t: nat)
    | Insert(t: nat)
    | BeginVacate(t: nat, alloc: nat)
    | Commit(t: nat)
    | Abort(t: nat)

  const EMPTY := State(map[], 0, map[])

  function BedsIn(beds: map<nat, Bed>, room: nat): set<nat> {
    set a | a in beds && beds[a].room == room
  }

  predicate Housed(beds: map<nat, Bed>, student: nat) {
    exists a :: a in beds && beds[a].student == student
  }

  predicate HoldsRoom(x: Txn, room: nat) {
    x.Allocating? && x.room == room && x.stage != Begun
  }

  /** An uncommitted active row for the student: the unique index makes others wait for it. */
  predicate HoldsStudent(s: State, x: Txn, student: nat) {
    (x.Allocating? && x.student == student && x.stage == Inserted)
    || (x.Vacating? && x.alloc in s.beds && s.beds[x.alloc].student == student)
  }

  function With(s: State, t: nat, x: Txn): State {
    s.(txns := s.txns[t := x])
  }

  function Ended(s: State, t: nat): State {
    s.(txns := s.txns - {t})
  }

  /** A step that cannot be taken now, because it would wait, changes nothing. */
  function Next(capacity: nat -> nat, s: State, ev: Event): State {
    if ev.Begin? then
      if ev.t in s.txns then s else With(s, ev.t, Allocating(ev.student, ev.room, Begun))
    else if ev.BeginVacate? then
      if ev.t in s.txns || ev.alloc !in s.beds || (exists u :: u in s.txns && s.txns[u] == Vacating(ev.alloc)) then s
      else With(s, ev.t, Vacating(ev.alloc))
    else if ev.t !in s.txns then s
    else if ev.Abort? then Ended(s, ev.t)
    else if ev.Commit? then Committed(s, ev.t)
    else if s.txns[ev.t].Vacating? then s
    else AllocateStep(capacity, s, ev)
  }

  function Committed(s: State, t: nat): State
    requires t in s.txns
  {
    match s.txns[t]
    case Vacating(a) => Ended(s.(beds := s.beds - {a}), t)
    case Allocating(student, room, stage) =>
      if stage != Inserted then s
      else Ended(s.(beds := s.beds[s.nextAlloc := Bed(student, room)], nextAlloc := s.nextAlloc + 1), t)
  }

  function AllocateStep(capacity: nat -> nat, s: State, ev: Event): State
    requires ev.t in s.txns && s.txns[ev.t].Allocating?
  {
    var x, t := s.txns[ev.t], ev.t;
    if ev.LockRoom? && x.stage == Begun then
      if exists u :: u in s.txns && HoldsRoom(s.txns[u], x.room) then s else With(s, t, x.(stage := Locked))
    else if ev.Count? && x.stage == Locked then
      if |BedsIn(s.beds, x.room)| >= capacity(x.room) then Ended(s, t) else With(s, t, x.(stage := Counted))
    else if ev.CheckStudent? && x.stage == Counted then
      if Housed(s.beds, x.student) then Ended(s, t) else With(s, t, x.(stage := Unhoused))
    else if ev.Insert? && x.stage == Unhoused then
      if exists u :: u in s.txns && HoldsStudent(s, s.txns[u], x.student) then s
      else if Housed(s.beds, x.student) then Ended(s, t)
      else With(s, t, x.(stage := Inserted))
    else s
  }

  function Run(capacity: nat -> nat, events: seq<Event>): State {
    if events == [] then EMPTY else Next(capacity, Run(capacity, events[..|events| - 1]), events[|events| - 1])
  }

  // ------------------------------------------------------------------ safety

  ghost predicate WithinCapacity(capacity: nat -> nat, beds: map<nat, Bed>) {
    forall room: nat :: |BedsIn(beds, room)| <= capacity(room)
  }

  predicate OneBedEach(beds: map<nat, Bed>) {
    forall a, b :: a in beds && b in beds && beds[a].student == beds[b].student ==> a == b
  }

  predicate About(x: Txn, stage: Stage) {
    x.Allocating? && x.stage == stage
  }

  /** What a transaction has checked still holds: its room has a free bed, its student has none. */
  predicate StillTrue(capacity: nat -> nat, beds: map<nat, Bed>, x: Txn) {
    (About(x, Counted) || About(x, Unhoused) || About(x, Inserted) ==> |BedsIn(beds, x.room)| < capacity(x.room))
    && (About(x, Inserted) ==> !Housed(beds, x.student))
  }

  /** Two transactions never hold the same room, nor both give the same student a bed. */
  predicate Apart(x: Txn, y: Txn) {
    x.Allocating? && y.Allocating? ==>
      !(x.room == y.room && x.stage != Begun && y.stage != Begun)
      && !(x.student == y.student && x.stage == Inserted && y.stage == Inserted)
  }

  predicate AllStillTrue(capacity: nat -> nat, s: State) {
    forall t :: t in s.txns ==> StillTrue(capacity, s.beds, s.txns[t])
  }

  predicate AllApart(s: State) {
    forall t, u :: t in s.txns && u in s.txns && t != u ==> Apart(s.txns[t], s.txns[u])
  }

  ghost predicate Inv(capacity: nat -> nat, s: State) {
    WithinCapacity(capacity, s.beds) && OneBedEach(s.beds) && AllStillTrue(capacity, s) && AllApart(s)
    && forall a :: a in s.beds ==> a < s.nextAlloc
  }

  lemma Added(beds: map<nat, Bed>, a: nat, bed: Bed, room: nat)
    requires a !in beds
    ensures |BedsIn(beds[a := bed], room)| == |BedsIn(beds, room)| + (if bed.room == room then 1 else 0)
  {
    assert BedsIn(beds[a := bed], room) == BedsIn(beds, room) + (if bed.room == room then {a} else {});
  }

  lemma Removed(beds: map<nat, Bed>, a: nat, room: nat)
    ensures |BedsIn(beds - {a}, room)| <= |BedsIn(beds, room)|
  {
    var before, after := BedsIn(beds, room), BedsIn(beds - {a}, room);
    assert before == after + (before - after);
  }

  /** Vacating only ever empties beds, which no one's checks mind. */
  lemma VacateKeeps(capacity: nat -> nat, s: State, t: nat)
    requires Inv(capacity, s) && t in s.txns && s.txns[t].Vacating?
    ensures Inv(capacity, Committed(s, t))
  {
    hide BedsIn;
    forall room: nat ensures |BedsIn(s.beds - {s.txns[t].alloc}, room)| <= |BedsIn(s.beds, room)| {
      Removed(s.beds, s.txns[t].alloc, room);
    }
  }

  lemma AllocateKeeps(capacity: nat -> nat, s: State, t: nat)
    requires Inv(capacity, s) && t in s.txns && s.txns[t].Allocating? && s.txns[t].stage == Inserted
    ensures Inv(capacity, Committed(s, t))
  {
    hide BedsIn;
    var x := s.txns[t];
    forall room: nat
      ensures |BedsIn(s.beds[s.nextAlloc := Bed(x.student, x.room)], room)|
              == |BedsIn(s.beds, room)| + (if x.room == room then 1 else 0)
    {
      Added(s.beds, s.nextAlloc, Bed(x.student, x.room), room);
    }
  }

  lemma WithKeeps(capacity: nat -> nat, s: State, t: nat, x: Txn)
    requires Inv(capacity, s) && StillTrue(capacity, s.beds, x)
    requires forall u :: u in s.txns && u != t ==> Apart(s.txns[u], x) && Apart(x, s.txns[u])
    ensures Inv(capacity, With(s, t, x))
  {
    hide BedsIn, WithinCapacity, StillTrue, Apart;
  }

  lemma EndedKeeps(capacity: nat -> nat, s: State, t: nat)
    requires Inv(capacity, s)
    ensures Inv(capacity, Ended(s, t))
  {
    hide BedsIn, WithinCapacity, StillTrue, Apart;
  }

  lemma AllocateStepKeeps(capacity: nat -> nat, s: State, ev: Event)
    requires Inv(capacity, s) && ev.t in s.txns && s.txns[ev.t].Allocating?
    ensures Inv(capacity, AllocateStep(capacity, s, ev))
  {
    hide BedsIn, WithinCapacity;
    var after := AllocateStep(capacity, s, ev);
    if ev.t !in after.txns {
      EndedKeeps(capacity, s, ev.t);
    } else if after != s {
      assert after == With(s, ev.t, after.txns[ev.t]);
      forall u | u in s.txns && u != ev.t ensures Apart(s.txns[u], after.txns[ev.t]) && Apart(after.txns[ev.t], s.txns[u]) {
        assert Apart(s.txns[u], s.txns[ev.t]);
      }
      assert StillTrue(capacity, s.beds, s.txns[ev.t]);
      WithKeeps(capacity, s, ev.t, after.txns[ev.t]);
    }
  }

  lemma NextKeeps(capacity: nat -> nat, s: State, ev: Event)
    requires Inv(capacity, s)
    ensures Inv(capacity, Next(capacity, s, ev))
  {
    hide BedsIn, Inv, AllocateStep, HoldsStudent, Housed;
    if ev.Begin? {
      if ev.t !in s.txns {
        WithKeeps(capacity, s, ev.t, Allocating(ev.student, ev.room, Begun));
      }
    } else if ev.BeginVacate? {
      if ev.t !in s.txns {
        WithKeeps(capacity, s, ev.t, Vacating(ev.alloc));
      }
    } else if ev.t in s.txns {
      EndedKeeps(capacity, s, ev.t);
      if ev.Commit? && s.txns[ev.t].Vacating? {
        VacateKeeps(capacity, s, ev.t);
      } else if ev.Commit? && s.txns[ev.t].stage == Inserted {
        AllocateKeeps(capacity, s, ev.t);
      } else if !ev.Commit? && s.txns[ev.t].Allocating? {
        AllocateStepKeeps(capacity, s, ev);
      }
    }
  }

  lemma NoBeds(capacity: nat -> nat)
    ensures Inv(capacity, EMPTY)
  {
    forall room: nat ensures |BedsIn(EMPTY.beds, room)| <= capacity(room) {
      assert BedsIn(EMPTY.beds, room) == {};
    }
  }

  /** Under every interleaving no room is over capacity and no student has two beds. */
  lemma {:induction false} BedsAreNeverOversold(capacity: nat -> nat, events: seq<Event>)
    ensures Inv(capacity, Run(capacity, events))
  {
    if events == [] {
      NoBeds(capacity);
    } else {
      BedsAreNeverOversold(capacity, events[..|events| - 1]);
      NextKeeps(capacity, Run(capacity, events[..|events| - 1]), events[|events| - 1]);
    }
  }

  /** An allocation that meets no other transaction does what allocate does: a bed if there is one, else nothing. */
  lemma AloneItAllocates(capacity: nat -> nat, s: State, t: nat, student: nat, room: nat)
    requires s.txns == map[]
    ensures var begun := Next(capacity, s, Begin(t, student, room));
            var counted := Next(capacity, Next(capacity, begun, LockRoom(t)), Count(t));
            var inserted := Next(capacity, Next(capacity, counted, CheckStudent(t)), Insert(t));
            Next(capacity, inserted, Commit(t))
            == if |BedsIn(s.beds, room)| < capacity(room) && !Housed(s.beds, student)
               then s.(beds := s.beds[s.nextAlloc := Bed(student, room)], nextAlloc := s.nextAlloc + 1)
               else s
  {
    hide BedsIn, Housed;
    var begun := Next(capacity, s, Begin(t, student, room));
    var locked := Next(capacity, begun, LockRoom(t));
    assert locked == s.(txns := map[t := Allocating(student, room, Locked)]);
    var counted := Next(capacity, locked, Count(t));
    if |BedsIn(s.beds, room)| >= capacity(room) {
      assert counted == s;
    } else {
      assert counted == s.(txns := map[t := Allocating(student, room, Counted)]);
      AloneStudentChecked(capacity, s, t, student, room, counted);
    }
  }

  lemma AloneStudentChecked(capacity: nat -> nat, s: State, t: nat, student: nat, room: nat, counted: State)
    requires s.txns == map[] && counted == s.(txns := map[t := Allocating(student, room, Counted)])
    ensures Next(capacity, Next(capacity, Next(capacity, counted, CheckStudent(t)), Insert(t)), Commit(t))
            == if !Housed(s.beds, student)
               then s.(beds := s.beds[s.nextAlloc := Bed(student, room)], nextAlloc := s.nextAlloc + 1)
               else s
  {
    hide BedsIn, Housed;
    var checked := Next(capacity, counted, CheckStudent(t));
    if Housed(s.beds, student) {
      assert checked == s;
    } else {
      assert checked == s.(txns := map[t := Allocating(student, room, Unhoused)]);
      assert Next(capacity, checked, Insert(t)) == s.(txns := map[t := Allocating(student, room, Inserted)]);
    }
  }
}
