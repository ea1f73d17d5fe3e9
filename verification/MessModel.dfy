/** Mess members, leave and billing on values (apps/hostel/mess.py). */
module MessModel {
  /*
   A member's primary key is its position; leaves carry their own id because a cancelled outpass
   deletes its leave. Dates are ordinals, months are month indices, amounts are paise.
   */
  import opened Wrappers
  import opened Rounding
  import opened Text
  import opened Dates
  import L = LedgerModel

  datatype PlanKind = Monthly | PerDay
  datatype Member = Member(mess: nat, student: Option<nat>, plan: PlanKind, start: int, end: Option<int>, allocation: Option<nat>)
  datatype Leave = Leave(id: nat, member: nat, from: int, to: int, outpass: Option<nat>)
  datatype Rebate = Rebate(leave: nat, member: nat, month: int, days: int, amount: int, charge: Option<nat>)
  datatype MessInfo = MessInfo(monthlyCharge: int, perDayRate: int, rebateMinDays: nat, rebatePerDay: int)

  datatype Book = Book(members: seq<Member>, leaves: seq<Leave>, rebates: seq<Rebate>, nextLeave: nat)

  /** Fixed during a run: the messes, and the fee head mess charges are posted to. */
  datatype Setup = Setup(fees: L.Config, mess: nat -> MessInfo, messHead: nat -> nat, licensed: bool)

  const DUE_DAY := 10

  // ------------------------------------------------------------------ leave

  predicate Meets(l: Leave, from: int, to: int) {
    l.from <= to && l.to >= from
  }

  function RecordLeave(b: Book, m: nat, from: int, to: int, outpass: Option<nat>): Result<Book>
    requires m < |b.members|
  {
    if to < from then Conflict
    else if Overlap(b.members[m].start, b.members[m].end, from, to).None? then Conflict
    else if exists i :: 0 <= i < |b.leaves| && b.leaves[i].member == m && Meets(b.leaves[i], from, to) then Conflict
    else Ok(b.(leaves := b.leaves + [Leave(b.nextLeave, m, from, to, outpass)], nextLeave := b.nextLeave + 1))
  }

  /** The part of a leave inside the membership and [start, end]: one entry of _leave_dates. */
  function LeavePart(m: Member, l: Leave, start: int, end: int): Option<(int, int)> {
    var span := Overlap(m.start, m.end, start, end);
    if span.None? || !Meets(l, span.value.0, span.value.1) then None
    else Overlap(l.from, Some(l.to), span.value.0, span.value.1)
  }

  function PartDays(m: Member, l: Leave, start: int, end: int): int {
    match LeavePart(m, l, start, end)
    case None => 0
    case Some(p) => p.1 - p.0 + 1
  }

  predicate Qualifies(info: MessInfo, l: Leave) {
    info.rebateMinDays != 0 && l.to - l.from + 1 >= info.rebateMinDays
  }

  /** The union of the sets of _leave_dates. */
  function LeaveDays(b: Book, m: nat, start: int, end: int): set<int>
    requires m < |b.members|
  {
    set d | start <= d <= end && InSomePart(b, m, start, end, d)
  }

  predicate InSomePart(b: Book, m: nat, start: int, end: int, d: int)
    requires m < |b.members|
  {
    exists i :: 0 <= i < |b.leaves| && b.leaves[i].member == m && InPart(b.members[m], b.leaves[i], start, end, d)
  }

  predicate InPart(m: Member, l: Leave, start: int, end: int, d: int) {
    var p := LeavePart(m, l, start, end);
    p.Some? && p.value.0 <= d <= p.value.1
  }

  // ------------------------------------------------------------------ billing

  function TwoDigits(n: nat): string
    requires n < 100
  {
    [Digit(n / 10), Digit(n % 10)]
  }

  /** f"{month:%Y-%m}" */
  function MonthText(k: int): string {
    (if k >= 0 then Decimal(k / 12) else "-" + Decimal(-(k / 12))) + "-" + TwoDigits(k % 12 + 1)
  }

  function MessKey(m: nat, k: int): string {
    "mess:" + Decimal(m) + ":" + MonthText(k)
  }

  /** The tenth of month k. */
  function DueDay(k: int): int {
    FirstDay(k) + DUE_DAY - 1
  }

  predicate OfMonth(r: Rebate, m: nat, month: int) {
    r.member == m && r.month == month
  }

  predicate Done(rebates: seq<Rebate>, m: nat, month: int, leave: nat) {
    exists i :: 0 <= i < |rebates| && OfMonth(rebates[i], m, month) && rebates[i].leave == leave
  }

  function RebateTotal(rebates: seq<Rebate>, m: nat, month: int): int {
    if rebates == [] then 0
    else
      var r := rebates[|rebates| - 1];
      RebateTotal(rebates[..|rebates| - 1], m, month) + (if OfMonth(r, m, month) then r.amount else 0)
  }

  predicate Rebated(s: Setup, b: Book, m: nat, month: int, l: Leave)
    requires m < |b.members|
  {
    l.member == m && Qualifies(s.mess(b.members[m].mess), l)
    && LeavePart(b.members[m], l, FirstDay(month), LastDay(month)).Some?
    && !Done(b.rebates, m, month, l.id)
  }

  /** Rebates for the leaves of a month that have none yet. */
  function NewRebates(s: Setup, b: Book, m: nat, month: int, leaves: seq<Leave>): seq<Rebate>
    requires m < |b.members|
  {
    if leaves == [] then []
    else
      var l := leaves[|leaves| - 1];
      NewRebates(s, b, m, month, leaves[..|leaves| - 1])
      + (if Rebated(s, b, m, month, l)
         then
           var days := PartDays(b.members[m], l, FirstDay(month), LastDay(month));
           [Rebate(l.id, m, month, days, s.mess(b.members[m].mess).rebatePerDay * days, None)]
         else [])
  }

  /** Every rebate of the month now points at the bill. */
  function Attach(rebates: seq<Rebate>, m: nat, month: int, charge: Option<nat>): seq<Rebate> {
    seq(|rebates|, i requires 0 <= i < |rebates| =>
      if OfMonth(rebates[i], m, month) then rebates[i].(charge := charge) else rebates[i])
  }

  function MonthlyBase(info: MessInfo, enrolled: int, k: int): int {
    RoundHalfUp((info.monthlyCharge * enrolled) as real / LengthOf(k) as real)
  }

  function Posting(s: Setup, student: nat, amount: int, due: int, key: string): L.Posting {
    L.Posting(student, s.messHead(s.fees.branchOf(student)), amount as real / 100.0, due, L.Mess, key, None, None)
  }

  /** Posts a bill that is worth something. */
  function PostBill(s: Setup, ledger: L.State, student: nat, amount: int, due: int, key: string): Result<(L.State, Option<nat>)> {
    if amount <= 0 then Ok((ledger, None))
    else
      match L.PostCharge(s.fees, ledger, Posting(s, student, amount, due, key))
      case Conflict => Conflict
      case Ok(r) => Ok((r.0, Some(r.1)))
  }

  predicate Billable(s: Setup, b: Book, ledger: L.State, m: nat, k: int)
    requires m < |b.members|
  {
    b.members[m].student.Some? && s.licensed
    && Overlap(b.members[m].start, b.members[m].end, FirstDay(k), LastDay(k)).Some?
    && L.FindKey(ledger.charges, Some(b.members[m].student.value), L.Mess, MessKey(m, k)).None?
  }

  function Enrolled(m: Member, start: int, end: int): int {
    match Overlap(m.start, m.end, start, end)
    case None => 0
    case Some(p) => p.1 - p.0 + 1
  }

  function Eaten(b: Book, m: nat, start: int, end: int): int
    requires m < |b.members|
  {
    Enrolled(b.members[m], start, end) - |LeaveDays(b, m, start, end)|
  }

  /** A monthly bill before it is floored at zero: the pro-rated charge less last month's rebates. */
  function MonthlyBalance(s: Setup, b: Book, m: nat, k: int): int
    requires m < |b.members|
  {
    var info, member := s.mess(b.members[m].mess), b.members[m];
    MonthlyBase(info, Enrolled(member, FirstDay(k), LastDay(k)), k)
    - RebateTotal(b.rebates + NewRebates(s, b, m, k - 1, b.leaves), m, k - 1)
  }

  /** bill_member_month: ledger and book afterwards, and the charge if one was posted. */
  function BillMonth(s: Setup, ledger: L.State, b: Book, m: nat, k: int): Result<(L.State, Book, Option<nat>)>
    requires m < |b.members|
  {
    if !Billable(s, b, ledger, m, k) then Ok((ledger, b, None))
    else
      var member := b.members[m];
      var info, student := s.mess(member.mess), member.student.value;
      if member.plan == Monthly then
        var due := L.Max(DueDay(k), member.start);
        match PostBill(s, ledger, student, MonthlyBalance(s, b, m, k), due, MessKey(m, k))
        case Conflict => Conflict
        case Ok(r) =>
          Ok((r.0, b.(rebates := Attach(b.rebates + NewRebates(s, b, m, k - 1, b.leaves), m, k - 1, r.1)), r.1))
      else
        match PostBill(s, ledger, student, info.perDayRate * Eaten(b, m, FirstDay(k), LastDay(k)), DueDay(k + 1), MessKey(m, k))
        case Conflict => Conflict
        case Ok(r) => Ok((r.0, b, r.1))
  }

  /** The members the monthly job bills, and the month it bills them for. */
  predicate DueForJob(m: Member, thisMonth: int) {
    m.student.Some? && (m.end.None? || m.end.value >= FirstDay(if m.plan == Monthly then thisMonth else thisMonth - 1))
  }

  function JobMonth(m: Member, thisMonth: int): int {
    if m.plan == Monthly then thisMonth else thisMonth - 1
  }

  /** The job's turn at one member. */
  function BillTurn(s: Setup, ledger: L.State, b: Book, plan: PlanKind, thisMonth: int, m: nat): Result<(L.State, Book)>
    requires m < |b.members|
  {
    if b.members[m].plan != plan || !DueForJob(b.members[m], thisMonth) then Ok((ledger, b))
    else
      match BillMonth(s, ledger, b, m, JobMonth(b.members[m], thisMonth))
      case Conflict => Conflict
      case Ok(r) => Ok((r.0, r.1))
  }

  /** How far the job got. It is no transaction of its own: bills before a refusal stay. */
  datatype Progress = Progress(ledger: L.State, book: Book, done: bool)

  /** One pass of bill_mess_month over the members of one plan below n; a refusal ends it. */
  function BillPlan(s: Setup, ledger: L.State, b: Book, plan: PlanKind, thisMonth: int, n: nat): (r: Progress)
    requires n <= |b.members|
    ensures r.book.members == b.members
  {
    if n == 0 then Progress(ledger, b, true)
    else
      var t := BillPlan(s, ledger, b, plan, thisMonth, n - 1);
      if !t.done then t
      else
        match BillTurn(s, t.ledger, t.book, plan, thisMonth, n - 1)
        case Conflict => t.(done := false)
        case Ok(u) => Progress(u.0, u.1, true)
  }

  function BillMess(s: Setup, ledger: L.State, b: Book, thisMonth: int): Progress {
    var t := BillPlan(s, ledger, b, Monthly, thisMonth, |b.members|);
    if t.done then BillPlan(s, t.ledger, t.book, PerDay, thisMonth, |b.members|) else t
  }
}
