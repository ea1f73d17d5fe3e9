/**
 Outpasses and the mess leave tied to them (apps/hostel/gate.py, with record_leave of
 apps/hostel/mess.py) as one state machine. An outpass's primary key is its position.
 */
module GateModel {
  import opened Wrappers
  import opened Dates
  import opened MessModel
  import L = LedgerModel

  datatype PassStatus = Requested | Approved | Rejected | Out | Returned | Cancelled
  datatype Outpass = Outpass(student: nat, from: int, to: int, returnBy: int, status: PassStatus, late: bool)
  datatype State = State(passes: seq<Outpass>, book: Book)

  predicate Active(p: Outpass) {
    p.status in [Requested, Approved, Out]
  }

  predicate DatesMeet(a: int, b: int, from: int, to: int) {
    a <= to && b >= from
  }

  // ------------------------------------------------------------------ the mess side

  /** The student's open mess membership. */
  function FindOpen(members: seq<Member>, student: nat): (r: Option<nat>)
    ensures r.Some? ==> r.value < |members| && members[r.value].student == Some(student) && members[r.value].end.None?
    ensures r.None? ==> forall i :: 0 <= i < |members| ==> !(members[i].student == Some(student) && members[i].end.None?)
  {
    if members == [] then None
    else
      var rest := FindOpen(members[..|members| - 1], student);
      var last := members[|members| - 1];
      if rest.Some? then rest
      else if last.student == Some(student) && last.end.None? then Some(|members| - 1)
      else None
  }

  function Enrol(b: Book, student: nat, mess: nat, plan: PlanKind, start: int): Result<Book> {
    if FindOpen(b.members, student).Some? then Conflict
    else Ok(b.(members := b.members + [Member(mess, Some(student), plan, start, None, None)]))
  }

  function EndMembership(b: Book, m: nat, on: int): Result<Book>
    requires m < |b.members|
  {
    if b.members[m].end.Some? || on < b.members[m].start then Conflict
    else Ok(b.(members := b.members[m := b.members[m].(end := Some(on))]))
  }

  /** The leaves that do not come from pass o. */
  function WithoutTied(leaves: seq<Leave>, o: nat): (r: seq<Leave>)
    ensures forall l :: l in r <==> l in leaves && l.outpass != Some(o)
  {
    if leaves == [] then []
    else
      var last := leaves[|leaves| - 1];
      assert leaves == leaves[..|leaves| - 1] + [last];
      WithoutTied(leaves[..|leaves| - 1], o) + (if last.outpass != Some(o) then [last] else [])
  }

  predicate OfTied(leaves: seq<Leave>, o: nat, r: Rebate) {
    exists i :: 0 <= i < |leaves| && leaves[i].id == r.leave && leaves[i].outpass == Some(o)
  }

  /** The rebates that are not for a leave of pass o. */
  function WithoutRebates(rebates: seq<Rebate>, leaves: seq<Leave>, o: nat): seq<Rebate> {
    if rebates == [] then []
    else
      var last := rebates[|rebates| - 1];
      WithoutRebates(rebates[..|rebates| - 1], leaves, o) + (if OfTied(leaves, o, last) then [] else [last])
  }

  /** Removing a leave by hand: not when an outpass or a rebate stands behind it. */
  function RemoveLeave(b: Book, i: nat): Result<Book>
    requires i < |b.leaves|
  {
    var l := b.leaves[i];
    if l.outpass.Some? || exists k :: 0 <= k < |b.rebates| && b.rebates[k].leave == l.id then Conflict
    else Ok(b.(leaves := b.leaves[..i] + b.leaves[i + 1..]))
  }

  /** Deleting an outpass's leave, and with it the leave's rebates. */
  function DropTied(b: Book, o: nat): Book {
    b.(leaves := WithoutTied(b.leaves, o), rebates := WithoutRebates(b.rebates, b.leaves, o))
  }

  // ------------------------------------------------------------------ outpasses

  function Request(s: State, student: nat, from: int, to: int, returnBy: int): Result<State> {
    if to < from then Conflict
    else if exists i :: 0 <= i < |s.passes| && s.passes[i].student == student && Active(s.passes[i])
                        && DatesMeet(s.passes[i].from, s.passes[i].to, from, to)
    then Conflict
    else Ok(s.(passes := s.passes + [Outpass(student, from, to, returnBy, Requested, false)]))
  }

  predicate LeaveMeets(b: Book, m: nat, from: int, to: int) {
    exists i :: 0 <= i < |b.leaves| && b.leaves[i].member == m && Meets(b.leaves[i], from, to)
  }

  function SetStatus(s: State, o: nat, status: PassStatus): State
    requires o < |s.passes|
  {
    s.(passes := s.passes[o := s.passes[o].(status := status)])
  }

  /** Approving records mess leave for the pass when the student eats in a mess and has none yet. */
  function Decide(s: State, o: nat, approve: bool): Result<State>
    requires o < |s.passes|
  {
    var p := s.passes[o];
    if p.status != Requested then Conflict
    else if !approve then Ok(SetStatus(s, o, Rejected))
    else
      var t := SetStatus(s, o, Approved);
      var m := FindOpen(s.book.members, p.student);
      if m.None? || LeaveMeets(s.book, m.value, p.from, p.to) then Ok(t)
      else
        match RecordLeave(s.book, m.value, L.Max(p.from, s.book.members[m.value].start), p.to, Some(o))
        case Conflict => Conflict
        case Ok(b) => Ok(t.(book := b))
  }

  function GateOut(s: State, o: nat): Result<State>
    requires o < |s.passes|
  {
    if s.passes[o].status != Approved then Conflict else Ok(SetStatus(s, o, Out))
  }

  function FindTied(leaves: seq<Leave>, o: nat): (r: Option<nat>)
    ensures r.Some? ==> r.value < |leaves| && leaves[r.value].outpass == Some(o)
    ensures r.None? ==> forall i :: 0 <= i < |leaves| ==> leaves[i].outpass != Some(o)
  {
    if leaves == [] then None
    else
      var rest := FindTied(leaves[..|leaves| - 1], o);
      if rest.Some? then rest
      else if leaves[|leaves| - 1].outpass == Some(o) then Some(|leaves| - 1)
      else None
  }

  /** Back before the planned date, the leave ends on the return day. */
  function Shorten(b: Book, o: nat, day: int): Book {
    var i := FindTied(b.leaves, o);
    if i.Some? && day < b.leaves[i.value].to
    then b.(leaves := b.leaves[i.value := b.leaves[i.value].(to := L.Max(day, b.leaves[i.value].from))])
    else b
  }

  /** Returning on `day` at `time`; late once past the expected time of the last day. */
  function GateIn(s: State, o: nat, day: int, time: int): Result<State>
    requires o < |s.passes|
  {
    var p := s.passes[o];
    if p.status != Out then Conflict
    else
      var late := day > p.to || (day == p.to && time > p.returnBy);
      Ok(State(s.passes[o := p.(status := Returned, late := late)], Shorten(s.book, o, day)))
  }

  function Cancel(s: State, o: nat): Result<State>
    requires o < |s.passes|
  {
    if s.passes[o].status != Requested && s.passes[o].status != Approved then Conflict
    else Ok(SetStatus(s, o, Cancelled).(book := DropTied(s.book, o)))
  }

  // ------------------------------------------------------------------ runs

  datatype Op =
    | OpRequest(student: nat, from: int, to: int, returnBy: int)
    | OpDecide(pass: nat, approve: bool)
    | OpGateOut(pass: nat)
    | OpGateIn(pass: nat, day: int, time: int)
    | OpCancel(pass: nat)
    | OpRecordLeave(member: nat, from: int, to: int)
    | OpRemoveLeave(index: nat)
    | OpEnrol(student: nat, mess: nat, plan: PlanKind, start: int)
    | OpEndMembership(member: nat, on: int)
    | OpBilled(rebates: seq<Rebate>)  // any billing: it changes rebates only

  function OnBook(s: State, r: Result<Book>): Result<State> {
    match r case Conflict => Conflict case Ok(b) => Ok(s.(book := b))
  }

  function Attempt(s: State, op: Op): Result<State> {
    match op
    case OpRequest(student, from, to, returnBy) => Request(s, student, from, to, returnBy)
    case OpDecide(o, approve) => if o < |s.passes| then Decide(s, o, approve) else Conflict
    case OpGateOut(o) => if o < |s.passes| then GateOut(s, o) else Conflict
    case OpGateIn(o, day, time) => if o < |s.passes| then GateIn(s, o, day, time) else Conflict
    case OpCancel(o) => if o < |s.passes| then Cancel(s, o) else Conflict
    case OpRecordLeave(m, from, to) => if m < |s.book.members| then OnBook(s, RecordLeave(s.book, m, from, to, None)) else Conflict
    case OpRemoveLeave(i) => if i < |s.book.leaves| then OnBook(s, RemoveLeave(s.book, i)) else Conflict
    case OpEnrol(student, mess, plan, start) => OnBook(s, Enrol(s.book, student, mess, plan, start))
    case OpEndMembership(m, on) => if m < |s.book.members| then OnBook(s, EndMembership(s.book, m, on)) else Conflict
    case OpBilled(rebates) => Ok(s.(book := s.book.(rebates := rebates)))
  }

  function Step(s: State, op: Op): State {
    match Attempt(s, op) case Ok(t) => t case Conflict => s
  }

  function Run(ops: seq<Op>): State {
    if ops == [] then State([], Book([], [], [], 0)) else Step(Run(ops[..|ops| - 1]), ops[|ops| - 1])
  }
}
