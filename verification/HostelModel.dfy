/**
 Beds and hostel fees (apps/hostel/services.py) as values, on top of the fees ledger and the
 mess book. Primary keys are positions; months are month indices.
 */
module HostelModel {
  import opened Wrappers
  import opened Text
  import opened Dates
  import opened MessModel
  import L = LedgerModel
  import G = GateModel

  datatype Gender = Male | Female | Any
  datatype RoomStatus = Usable | Repair | Closed
  datatype Room = Room(branch: nat, block: nat, kind: nat, capacity: nat, gender: Gender, blockGender: Gender,
                       status: RoomStatus, openTicket: bool)

  /** A rule for one block or all, and for one room type or all. */
  datatype FeeRule = FeeRule(block: Option<nat>, kind: Option<nat>, amount: int)

  datatype Allocation = Allocation(student: nat, room: nat, checkIn: int, checkOut: Option<int>)
  datatype WaitStatus = Waiting | Offered | Fulfilled | Withdrawn
  datatype Wait = Wait(student: nat, room: nat, status: WaitStatus)

  datatype State = State(ledger: L.State, book: Book, allocs: seq<Allocation>, waits: seq<Wait>)

  /** Fixed during a run. `yearOf` gives the academic year of a day and its last day. */
  datatype Config = Config(setup: Setup, room: nat -> Room, rules: nat -> seq<FeeRule>, gender: nat -> Option<Gender>,
                           yearOf: int -> Option<(nat, int)>, hostelHead: nat -> nat, messOf: nat -> Option<nat>,
                           messBranch: nat -> nat)

  // ------------------------------------------------------------------ fee rules

  predicate Applies(r: FeeRule, room: Room) {
    (r.block.None? || r.block == Some(room.block)) && (r.kind.None? || r.kind == Some(room.kind))
  }

  /** Block before room type: how unspecific a rule is. */
  function Vagueness(r: FeeRule): nat {
    (if r.block.None? then 2 else 0) + (if r.kind.None? then 1 else 0)
  }

  /** fee_rule_for: the first of the most specific rules that apply. */
  function BestRule(rules: seq<FeeRule>, room: Room): Option<FeeRule> {
    if rules == [] then None
    else
      var best, last := BestRule(rules[..|rules| - 1], room), rules[|rules| - 1];
      if Applies(last, room) && (best.None? || Vagueness(last) < Vagueness(best.value)) then Some(last) else best
  }

  // ------------------------------------------------------------------ hostel fees

  function AllocPrefix(a: nat): string {
    "alloc:" + Decimal(a) + ":"
  }

  function AllocKey(a: nat, k: int): string {
    AllocPrefix(a) + MonthText(k)
  }

  /** The last month fees are posted for: that of the academic year's end, else the first. */
  function LastMonth(cfg: Config, checkIn: int): int {
    match cfg.yearOf(checkIn)
    case None => MonthOf(checkIn)
    case Some(y) => MonthOf(y.1)
  }

  function FeePosting(cfg: Config, alloc: Allocation, a: nat, amount: int, k: int): L.Posting {
    L.Posting(alloc.student, cfg.hostelHead(cfg.setup.fees.branchOf(alloc.student)), amount as real / 100.0,
              L.Max(DueDay(k), alloc.checkIn), L.Hostel, AllocKey(a, k),
              match cfg.yearOf(alloc.checkIn) case None => None case Some(y) => Some(y.0), None)
  }

  /** The postings for n months from the check-in month. */
  function FeePostings(cfg: Config, alloc: Allocation, a: nat, amount: int, n: nat): seq<L.Posting> {
    seq(n, i requires 0 <= i => FeePosting(cfg, alloc, a, amount, MonthOf(alloc.checkIn) + i))
  }

  function MonthCount(first: int, last: int): nat {
    if first <= last then last - first + 1 else 0
  }

  function PostFees(cfg: Config, ledger: L.State, alloc: Allocation, a: nat): Result<L.State> {
    var rule := BestRule(cfg.rules(cfg.room(alloc.room).branch), cfg.room(alloc.room));
    if !cfg.setup.licensed || rule.None? then Ok(ledger)
    else
      L.PostAll(cfg.setup.fees, ledger,
                FeePostings(cfg, alloc, a, rule.value.amount, MonthCount(MonthOf(alloc.checkIn), LastMonth(cfg, alloc.checkIn))))
  }

  // ------------------------------------------------------------------ allocate

  predicate ActiveIn(alloc: Allocation, room: nat) {
    alloc.room == room && alloc.checkOut.None?
  }

  function Occupied(allocs: seq<Allocation>, room: nat): nat {
    if allocs == [] then 0
    else Occupied(allocs[..|allocs| - 1], room) + (if ActiveIn(allocs[|allocs| - 1], room) then 1 else 0)
  }

  predicate HasBed(allocs: seq<Allocation>, student: nat) {
    exists i :: 0 <= i < |allocs| && allocs[i].student == student && allocs[i].checkOut.None?
  }

  function RoomGender(r: Room): Gender {
    if r.gender != Any then r.gender else r.blockGender
  }

  predicate MayTake(cfg: Config, s: State, student: nat, room: nat) {
    var r := cfg.room(room);
    cfg.setup.fees.branchOf(student) == r.branch && r.status == Usable && !r.openTicket
    && Occupied(s.allocs, room) < r.capacity
    && (RoomGender(r) != Any && cfg.gender(student).Some? ==> cfg.gender(student).value == RoomGender(r))
    && !HasBed(s.allocs, student)
  }

  function Fulfil(waits: seq<Wait>, student: nat, room: nat): seq<Wait> {
    seq(|waits|, i requires 0 <= i < |waits| =>
      if waits[i].student == student && waits[i].room == room && waits[i].status in [Waiting, Offered]
      then waits[i].(status := Fulfilled) else waits[i])
  }

  /** Joining the block's mess: the membership, and for a monthly plan its first bill. */
  function Join(cfg: Config, s: State, student: nat, room: nat, plan: PlanKind, start: int, alloc: nat): Result<State> {
    var mess := cfg.messOf(cfg.room(room).block);
    if mess.None? || G.FindOpen(s.book.members, student).Some? then Ok(s)
    else if cfg.messBranch(mess.value) != cfg.setup.fees.branchOf(student) then Conflict
    else
      var b := s.book.(members := s.book.members + [Member(mess.value, Some(student), plan, start, None, Some(alloc))]);
      if plan == PerDay then Ok(s.(book := b))
      else
        match BillMonth(cfg.setup, s.ledger, b, |s.book.members|, MonthOf(start))
        case Conflict => Conflict
        case Ok(r) => Ok(s.(ledger := r.0, book := r.1))
  }

  function Allocate(cfg: Config, s: State, student: nat, room: nat, on: int, plan: PlanKind): Result<State> {
    if !MayTake(cfg, s, student, room) then Conflict
    else
      var alloc, a := Allocation(student, room, on, None), |s.allocs|;
      match PostFees(cfg, s.ledger, alloc, a)
      case Conflict => Conflict
      case Ok(ledger) =>
        Join(cfg, State(ledger, s.book, s.allocs + [alloc], Fulfil(s.waits, student, room)), student, room, plan, on, a)
  }

  // ------------------------------------------------------------------ vacate

  function EndOne(cfg: Config, s: State, m: nat, on: int): Result<State>
    requires m < |s.book.members|
  {
    match G.EndMembership(s.book, m, on)
    case Conflict => Conflict
    case Ok(b) =>
      var student := s.book.members[m].student;
      Ok(s.(book := b,
            ledger := if student.Some? && cfg.setup.licensed
                      then L.CancelFuture(s.ledger, student.value, L.Mess, MessPrefix(m), FirstDay(MonthOf(on) + 1))
                      else s.ledger))
  }

  function MessPrefix(m: nat): string {
    "mess:" + Decimal(m) + ":"
  }

  /** Ending the open memberships below n that came with an allocation. */
  function EndAll(cfg: Config, s: State, a: nat, on: int, n: nat): (r: Result<State>)
    requires n <= |s.book.members|
    ensures r.Ok? ==> |r.value.book.members| == |s.book.members|
  {
    if n == 0 then Ok(s)
    else
      match EndAll(cfg, s, a, on, n - 1)
      case Conflict => Conflict
      case Ok(t) =>
        var m := t.book.members[n - 1];
        if m.allocation == Some(a) && m.end.None? then EndOne(cfg, t, n - 1, on) else Ok(t)
  }

  /** The longest waiting entry of a room is offered the bed. */
  function FirstWaiting(waits: seq<Wait>, room: nat): (r: Option<nat>)
    ensures r.Some? ==> r.value < |waits| && waits[r.value].room == room && waits[r.value].status == Waiting
    ensures forall i :: 0 <= i < (if r.Some? then r.value else |waits|) ==> !(waits[i].room == room && waits[i].status == Waiting)
  {
    if waits == [] then None
    else
      var rest := FirstWaiting(waits[..|waits| - 1], room);
      if rest.Some? then rest
      else if waits[|waits| - 1].room == room && waits[|waits| - 1].status == Waiting then Some(|waits| - 1)
      else None
  }

  function Offer(waits: seq<Wait>, room: nat): seq<Wait> {
    var i := FirstWaiting(waits, room);
    if i.Some? then waits[i.value := waits[i.value].(status := Offered)] else waits
  }

  function CancelFees(cfg: Config, ledger: L.State, student: nat, a: nat, on: int): L.State {
    if cfg.setup.licensed
    then L.CancelFuture(ledger, student, L.Hostel, AllocPrefix(a), FirstDay(MonthOf(on) + 1))
    else ledger
  }

  function Vacate(cfg: Config, s: State, a: nat, on: int): Result<State>
    requires a < |s.allocs|
  {
    var alloc := s.allocs[a];
    if alloc.checkOut.Some? || on < alloc.checkIn then Conflict
    else
      var t := s.(allocs := s.allocs[a := alloc.(checkOut := Some(on))],
                  ledger := CancelFees(cfg, s.ledger, alloc.student, a, on));
      match EndAll(cfg, t, a, on, |t.book.members|)
      case Conflict => Conflict
      case Ok(u) => Ok(u.(waits := Offer(u.waits, alloc.room)))
  }

  // ------------------------------------------------------------------ runs

  datatype Op =
    | OpAllocate(student: nat, room: nat, on: int, plan: PlanKind)
    | OpVacate(alloc: nat, on: int)
    | OpWait(student: nat, room: nat)
    | OpBillMember(member: nat, month: int)
    | OpFees(op: L.Op)

  function AddToWaitlist(cfg: Config, s: State, student: nat, room: nat): Result<State> {
    var r := cfg.room(room);
    if (Occupied(s.allocs, room) < r.capacity && r.status == Usable && !r.openTicket)
       || exists i :: 0 <= i < |s.waits| && s.waits[i].student == student && s.waits[i].room == room
                      && s.waits[i].status in [Waiting, Offered]
    then Conflict
    else Ok(s.(waits := s.waits + [Wait(student, room, Waiting)]))
  }

  function Attempt(cfg: Config, s: State, op: Op): Result<State> {
    match op
    case OpAllocate(student, room, on, plan) => Allocate(cfg, s, student, room, on, plan)
    case OpVacate(a, on) => if a < |s.allocs| then Vacate(cfg, s, a, on) else Conflict
    case OpWait(student, room) => AddToWaitlist(cfg, s, student, room)
    case OpBillMember(m, k) =>
      if m >= |s.book.members| then Conflict
      else (match BillMonth(cfg.setup, s.ledger, s.book, m, k)
            case Conflict => Conflict
            case Ok(r) => Ok(s.(ledger := r.0, book := r.1)))
    case OpFees(op) => Ok(s.(ledger := L.Step(cfg.setup.fees, s.ledger, op)))
  }

  function Step(cfg: Config, s: State, op: Op): State {
    match Attempt(cfg, s, op) case Ok(t) => t case Conflict => s
  }

  const EMPTY := State(L.EMPTY, Book([], [], [], 0), [], [])

  function Run(cfg: Config, ops: seq<Op>): State {
    if ops == [] then EMPTY else Step(cfg, Run(cfg, ops[..|ops| - 1]), ops[|ops| - 1])
  }
}
