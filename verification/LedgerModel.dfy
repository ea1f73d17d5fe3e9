/** The fees ledger and its services on values (apps/fees/services.py). */
module LedgerModel {
  /*
   The state holds the ledger's rows; balances are derived from them, and every service is one step
   from state to state. A row's primary key is its position. Amounts are paise, dates are ordinals; a
   Conflict stands for any refusal, after which the transaction is rolled back.
   */
  import opened Wrappers
  import opened Rounding
  import opened Text
  import Dates

  datatype Source = Plan | Hostel | Mess | GuestMeal | Transport | Library | LateFine | Manual
  datatype FineMode = NoFine | PerDay | Flat
  datatype ConcessionKind = Percent | Fixed
  datatype Status = Pending | Approved | Rejected

  datatype Head = Head(branch: nat, fineMode: FineMode, fineAmount: int, graceDays: nat, ledger: string)

  /** `value` is in hundredths: of a per cent, or of a rupee. */
  datatype Concession = Concession(student: nat, head: nat, year: nat, kind: ConcessionKind, value: int, status: Status)

  datatype Charge = Charge(student: nat, head: nat, year: Option<nat>, due: int, amount: int, discount: int,
                           source: Source, sourceId: string, parent: Option<nat>, cancelled: bool)

  datatype Line = Line(charge: nat, amount: int)

  datatype Receipt = Receipt(branch: nat, financialYear: int, number: nat, student: nat, date: int, cash: bool,
                             amount: int, lines: seq<Line>, cancelled: bool)

  datatype Refund = Refund(student: nat, date: int, cash: bool, amount: int, lines: seq<Line>)

  datatype State = State(charges: seq<Charge>, concessions: seq<Concession>, receipts: seq<Receipt>,
                         refunds: seq<Refund>, counters: map<(nat, int), nat>)

  /** What stays fixed during a run: branches of students, fee heads and academic years. */
  datatype Config = Config(branchOf: nat -> nat, head: nat -> Head, lateHead: nat -> nat, yearOf: int -> Option<nat>)

  const EMPTY := State([], [], [], [], map[])

  // ------------------------------------------------------------------ selectors

  /** The part of a list of lines that names one charge. */
  function LineSum(lines: seq<Line>, c: nat): int {
    if lines == [] then 0
    else LineSum(lines[..|lines| - 1], c)
         + (if lines[|lines| - 1].charge == c then lines[|lines| - 1].amount else 0)
  }

  function LineTotal(lines: seq<Line>): int {
    if lines == [] then 0
    else LineTotal(lines[..|lines| - 1]) + lines[|lines| - 1].amount
  }

  /** Lines of live receipts. */
  function Received(receipts: seq<Receipt>, c: nat): int {
    if receipts == [] then 0
    else
      var last := receipts[|receipts| - 1];
      Received(receipts[..|receipts| - 1], c) + (if last.cancelled then 0 else LineSum(last.lines, c))
  }

  function Refunded(refunds: seq<Refund>, c: nat): int {
    if refunds == [] then 0
    else Refunded(refunds[..|refunds| - 1], c) + LineSum(refunds[|refunds| - 1].lines, c)
  }

  predicate Live(s: State, c: nat) {
    c < |s.charges| && !s.charges[c].cancelled
  }

  predicate LiveOf(s: State, student: nat, c: nat) {
    Live(s, c) && s.charges[c].student == student
  }

  function Outstanding(s: State, c: nat): int
    requires c < |s.charges|
  {
    s.charges[c].amount - s.charges[c].discount - Received(s.receipts, c)
  }

  function Paid(s: State, c: nat): int {
    Received(s.receipts, c) - Refunded(s.refunds, c)
  }

  function Min(a: int, b: int): int {
    if a <= b then a else b
  }

  function Max(a: int, b: int): int {
    if a >= b then a else b
  }

  // ------------------------------------------------------------------ concessions

  /** What the approved concessions of one account head take off a charge of this amount. */
  function ConcessionTotal(cs: seq<Concession>, student: nat, head: nat, year: Option<nat>, amount: int): int {
    if cs == [] then 0
    else
      var c := cs[|cs| - 1];
      ConcessionTotal(cs[..|cs| - 1], student, head, year, amount)
      + (if c.student == student && c.head == head && Some(c.year) == year && c.status == Approved
         then ConcessionOn(c, amount) else 0)
  }

  /** A percentage in hundredths of an amount in paise, in rupees. */
  function PercentOf(amount: int, value: int): real {
    (amount as real * value as real / 10000.0) / 100.0
  }

  function ConcessionOn(c: Concession, amount: int): int {
    if c.kind == Percent then Hundredths(PercentOf(amount, c.value)) else c.value
  }

  /** Never below what is already received. */
  function Discount(s: State, c: nat): int
    requires c < |s.charges|
  {
    var ch := s.charges[c];
    Min(ConcessionTotal(s.concessions, ch.student, ch.head, ch.year, ch.amount),
        Max(0, ch.amount - Received(s.receipts, c)))
  }

  predicate Recomputed(ch: Charge, student: nat, head: nat, year: Option<nat>) {
    !ch.cancelled && ch.student == student && ch.head == head && ch.year == year && ch.amount > 0
  }

  function Recompute(s: State, student: nat, head: nat, year: Option<nat>): State {
    s.(charges := seq(|s.charges|, i requires 0 <= i < |s.charges| =>
      if Recomputed(s.charges[i], student, head, year)
      then s.charges[i].(discount := Discount(s, i)) else s.charges[i]))
  }

  function RequestConcession(s: State, c: Concession): Result<State> {
    if c.value <= 0 || (c.kind == Percent && c.value > 10000) then Conflict
    else Ok(s.(concessions := s.concessions + [c.(status := Pending)]))
  }

  function DecideConcession(s: State, i: nat, approve: bool): Result<State>
    requires i < |s.concessions|
  {
    var c := s.concessions[i];
    if c.status != Pending then Conflict
    else
      var t := s.(concessions := s.concessions[i := c.(status := if approve then Approved else Rejected)]);
      Ok(if approve then Recompute(t, c.student, c.head, Some(c.year)) else t)
  }

  // ------------------------------------------------------------------ charges

  predicate HasKey(ch: Charge, source: Source, sourceId: string) {
    !ch.cancelled && ch.source == source && ch.sourceId == sourceId
  }

  /** The first live charge under a key; of one student, or of any. */
  function FindKey(charges: seq<Charge>, student: Option<nat>, source: Source, sourceId: string): (r: Option<nat>)
    ensures r.Some? ==> r.value < |charges| && HasKey(charges[r.value], source, sourceId)
                        && (student.Some? ==> charges[r.value].student == student.value)
    ensures r.None? ==> forall i :: 0 <= i < |charges| && HasKey(charges[i], source, sourceId)
                                    ==> student.Some? && charges[i].student != student.value
  {
    if charges == [] then None
    else
      var rest := FindKey(charges[..|charges| - 1], student, source, sourceId);
      var last := charges[|charges| - 1];
      if rest.Some? then rest
      else if HasKey(last, source, sourceId) && (student.None? || last.student == student.value) then Some(|charges| - 1)
      else None
  }

  datatype Posting = Posting(student: nat, head: nat, amount: real, due: int, source: Source, sourceId: string,
                             year: Option<nat>, parent: Option<nat>)

  function NewCharge(cfg: Config, p: Posting): Charge {
    Charge(p.student, p.head, if p.year.None? then cfg.yearOf(p.due) else p.year, p.due, Hundredths(p.amount), 0,
           p.source, p.sourceId, p.parent, false)
  }

  /** post_charge: the state and the charge that is live under the key afterwards. */
  function PostCharge(cfg: Config, s: State, p: Posting): Result<(State, nat)> {
    if cfg.head(p.head).branch != cfg.branchOf(p.student) then Conflict
    else if Hundredths(p.amount) < 0 && p.source != Manual then Conflict
    else
      var existing := if p.sourceId != "" then FindKey(s.charges, Some(p.student), p.source, p.sourceId) else None;
      if existing.Some? then Ok((s, existing.value))
      else
        var c := NewCharge(cfg, p);
        Ok((Recompute(s.(charges := s.charges + [c]), c.student, c.head, c.year), |s.charges|))
  }

  predicate CancelledAhead(s: State, c: nat, student: nat, source: Source, prefix: string, from: int) {
    LiveOf(s, student, c) && s.charges[c].source == source && prefix <= s.charges[c].sourceId
    && s.charges[c].due >= from && Received(s.receipts, c) <= 0
  }

  function CancelFuture(s: State, student: nat, source: Source, prefix: string, from: int): State {
    s.(charges := seq(|s.charges|, i requires 0 <= i < |s.charges| =>
      if CancelledAhead(s, i, student, source, prefix, from)
      then s.charges[i].(cancelled := true) else s.charges[i]))
  }

  function CancelCharge(s: State, c: nat): Result<State>
    requires c < |s.charges|
  {
    if !Live(s, c) then Ok(s)
    else if Received(s.receipts, c) > 0 then Conflict
    else
      var ch := s.charges[c];
      Ok(Recompute(s.(charges := s.charges[c := ch.(cancelled := true)]), ch.student, ch.head, ch.year))
  }

  // ------------------------------------------------------------------ plans

  datatype Instalment = Instalment(pk: nat, amount: real, due: int)
  datatype FeePlan = FeePlan(branch: nat, year: nat, program: nat, term: Option<nat>, head: nat, instalments: seq<Instalment>)
  datatype Enrollment = Enrollment(student: nat, branch: nat, year: nat, program: nat, term: Option<nat>, active: bool)

  predicate PlanApplies(plan: FeePlan, e: Enrollment) {
    e.year == plan.year && e.program == plan.program && (plan.term.None? || plan.term == e.term)
  }

  function InstalmentKey(pk: nat): string {
    "inst:" + Decimal(pk)
  }

  function InstalmentPosting(plan: FeePlan, e: Enrollment, inst: Instalment): Posting {
    Posting(e.student, plan.head, inst.amount, inst.due, Plan, InstalmentKey(inst.pk), Some(plan.year), None)
  }

  function PostAll(cfg: Config, s: State, ps: seq<Posting>): Result<State> {
    if ps == [] then Ok(s)
    else
      match PostAll(cfg, s, ps[..|ps| - 1])
      case Conflict => Conflict
      case Ok(t) =>
        match PostCharge(cfg, t, ps[|ps| - 1])
        case Conflict => Conflict
        case Ok(r) => Ok(r.0)
  }

  /** What apply_plan_to_enrollment posts. */
  function EnrollmentPostings(plan: FeePlan, e: Enrollment): seq<Posting> {
    if PlanApplies(plan, e)
    then seq(|plan.instalments|, i requires 0 <= i < |plan.instalments| => InstalmentPosting(plan, e, plan.instalments[i]))
    else []
  }

  predicate Billed(plan: FeePlan, e: Enrollment) {
    e.active && e.branch == plan.branch && PlanApplies(plan, e)
  }

  /** What apply_plan posts, enrolment by enrolment. */
  function PlanPostings(plan: FeePlan, es: seq<Enrollment>): seq<Posting> {
    if es == [] then []
    else
      PlanPostings(plan, es[..|es| - 1])
      + (if Billed(plan, es[|es| - 1]) then EnrollmentPostings(plan, es[|es| - 1]) else [])
  }

  /** What apply_plans_for_enrollment posts, plan by plan; a plan at a time where one may be refused. */
  function EnrolPostings(plans: seq<FeePlan>, e: Enrollment): seq<Posting> {
    if plans == [] then []
    else
      var p := plans[|plans| - 1];
      EnrolPostings(plans[..|plans| - 1], e)
      + (if p.branch == e.branch && p.year == e.year && p.program == e.program then EnrollmentPostings(p, e) else [])
  }

  // ------------------------------------------------------------------ receipts

  datatype LineIn = LineIn(charge: nat, amount: real)
  datatype Payment = Lines(lines: seq<LineIn>) | Amount(amount: real) | Neither

  /** "2026-27" is named by its first year. */
  function FinancialYear(on: int): int {
    var d := Dates.OfOrd(on);
    if d.month >= 4 then d.year else d.year - 1
  }

  predicate DueBefore(s: State, a: nat, b: nat)
    requires a < |s.charges| && b < |s.charges|
  {
    s.charges[a].due < s.charges[b].due || (s.charges[a].due == s.charges[b].due && a <= b)
  }

  predicate Ids(s: State, ids: seq<nat>) {
    forall i :: 0 <= i < |ids| ==> ids[i] < |s.charges|
  }

  function InsertDue(s: State, ids: seq<nat>, c: nat): (r: seq<nat>)
    requires Ids(s, ids) && c < |s.charges|
    ensures Ids(s, r)
  {
    if ids == [] || DueBefore(s, c, ids[0]) then [c] + ids
    else [ids[0]] + InsertDue(s, ids[1..], c)
  }

  /** The charges below n that `pick` selects, sorted by (due_date, id). */
  function SortedByDue(s: State, pick: nat -> bool, n: nat): (r: seq<nat>)
    requires n <= |s.charges|
    ensures Ids(s, r)
  {
    if n == 0 then []
    else if pick(n - 1) then InsertDue(s, SortedByDue(s, pick, n - 1), n - 1)
    else SortedByDue(s, pick, n - 1)
  }

  function DueOrder(s: State, student: nat): (r: seq<nat>)
    ensures Ids(s, r)
  {
    SortedByDue(s, (c: nat) => LiveOf(s, student, c), |s.charges|)
  }

  /** Oldest dues first: the lines, and what is left over. */
  function Allocate(s: State, ids: seq<nat>, remaining: int): (seq<Line>, int)
    requires Ids(s, ids)
  {
    if ids == [] || remaining <= 0 then ([], remaining)
    else if Outstanding(s, ids[0]) <= 0 then Allocate(s, ids[1..], remaining)
    else
      var take := Min(Outstanding(s, ids[0]), remaining);
      var rest := Allocate(s, ids[1..], remaining - take);
      ([Line(ids[0], take)] + rest.0, rest.1)
  }

  function RoundLines(lines: seq<LineIn>): seq<Line> {
    seq(|lines|, i requires 0 <= i < |lines| => Line(lines[i].charge, Hundredths(lines[i].amount)))
  }

  function PaymentLines(s: State, student: nat, payment: Payment): Result<seq<Line>> {
    match payment
    case Neither => Conflict
    case Lines(lines) => Ok(RoundLines(lines))
    case Amount(v) =>
      if Hundredths(v) <= 0 then Conflict
      else
        var a := Allocate(s, DueOrder(s, student), Hundredths(v));
        if a.1 > 0 then Conflict else Ok(a.0)
  }

  /** The checks each line has to pass on its own. */
  predicate Payable(s: State, student: nat, lines: seq<Line>) {
    forall i :: 0 <= i < |lines| ==>
      LiveOf(s, student, lines[i].charge) && 0 < lines[i].amount <= Outstanding(s, lines[i].charge)
  }

  function LastNumber(counters: map<(nat, int), nat>, key: (nat, int)): nat {
    if key in counters then counters[key] else 0
  }

  function Issue(cfg: Config, s: State, student: nat, cash: bool, lines: seq<Line>, on: int): State {
    var key := (cfg.branchOf(student), FinancialYear(on));
    var n := LastNumber(s.counters, key) + 1;
    s.(counters := s.counters[key := n],
       receipts := s.receipts + [Receipt(key.0, key.1, n, student, on, cash, LineTotal(lines), lines, false)])
  }

  function Collect(cfg: Config, s: State, student: nat, cash: bool, reference: string, payment: Payment, on: int)
    : Result<State>
  {
    if !cash && reference == "" then Conflict
    else
      match PaymentLines(s, student, payment)
      case Conflict => Conflict
      case Ok(lines) =>
        if lines == [] || !Payable(s, student, lines) then Conflict
        else Ok(Issue(cfg, s, student, cash, lines, on))
  }

  function CancelReceipt(s: State, r: nat, reasonGiven: bool): Result<State>
    requires r < |s.receipts|
  {
    if s.receipts[r].cancelled || !reasonGiven then Conflict
    else Ok(s.(receipts := s.receipts[r := s.receipts[r].(cancelled := true)]))
  }

  predicate Refundable(s: State, student: nat, lines: seq<Line>) {
    forall i :: 0 <= i < |lines| ==>
      LiveOf(s, student, lines[i].charge) && 0 < lines[i].amount <= Paid(s, lines[i].charge)
  }

  function PayBack(s: State, student: nat, cash: bool, lines: seq<LineIn>, on: int): Result<State> {
    var ls := RoundLines(lines);
    if !Refundable(s, student, ls) || LineTotal(ls) <= 0 then Conflict
    else Ok(s.(refunds := s.refunds + [Refund(student, on, cash, LineTotal(ls), ls)]))
  }

  // ------------------------------------------------------------------ late fines

  function FineKey(c: nat): string {
    "charge:" + Decimal(c)
  }

  /** The fine a head's rule asks for on a date; nothing within the grace days. */
  function FineRule(head: Head, due: int, asOf: int): int {
    var daysLate := asOf - due - head.graceDays;
    if daysLate <= 0 || head.fineMode == NoFine then 0
    else if head.fineMode == PerDay then head.fineAmount * daysLate
    else head.fineAmount
  }

  predicate Overdue(cfg: Config, s: State, branch: nat, c: nat) {
    Live(s, c) && cfg.branchOf(s.charges[c].student) == branch && s.charges[c].parent.None?
    && cfg.head(s.charges[c].head).fineMode != NoFine && s.charges[c].source != LateFine
    && Outstanding(s, c) > 0
  }

  function FinePosting(cfg: Config, s: State, branch: nat, c: nat, asOf: int): Posting
    requires c < |s.charges|
  {
    var ch := s.charges[c];
    Posting(ch.student, cfg.lateHead(branch), FineRule(cfg.head(ch.head), ch.due, asOf) as real / 100.0, asOf,
            LateFine, FineKey(c), ch.year, Some(c))
  }

  function FineOne(cfg: Config, s: State, branch: nat, c: nat, asOf: int): Result<State>
    requires c < |s.charges|
  {
    var amount := FineRule(cfg.head(s.charges[c].head), s.charges[c].due, asOf);
    if amount <= 0 then Ok(s)
    else
      var existing := FindKey(s.charges, None, LateFine, FineKey(c));
      if existing.None? then
        match PostCharge(cfg, s, FinePosting(cfg, s, branch, c, asOf))
        case Conflict => Conflict
        case Ok(r) => Ok(r.0)
      else if amount > s.charges[existing.value].amount then
        Ok(s.(charges := s.charges[existing.value := s.charges[existing.value].(amount := amount)]))
      else Ok(s)
  }

  function FineAll(cfg: Config, s: State, branch: nat, ids: seq<nat>, asOf: int): Result<State>
    requires Ids(s, ids)
    ensures FineAll(cfg, s, branch, ids, asOf).Ok? ==> |FineAll(cfg, s, branch, ids, asOf).value.charges| >= |s.charges|
  {
    if ids == [] then Ok(s)
    else
      match FineAll(cfg, s, branch, ids[..|ids| - 1], asOf)
      case Conflict => Conflict
      case Ok(t) => FineOne(cfg, t, branch, ids[|ids| - 1], asOf)
  }

  function OverdueCharges(cfg: Config, s: State, branch: nat): (r: seq<nat>)
    ensures Ids(s, r)
  {
    SortedByDue(s, (c: nat) => Overdue(cfg, s, branch, c), |s.charges|)
  }

  /** apply_late_fines: the overdue charges are read once, before the first fine. */
  function LateFines(cfg: Config, s: State, branch: nat, asOf: int): Result<State> {
    FineAll(cfg, s, branch, OverdueCharges(cfg, s, branch), asOf)
  }

  // ------------------------------------------------------------------ runs

  datatype Op =
    | OpPost(p: Posting)
    | OpBillPlan(plan: FeePlan, enrollments: seq<Enrollment>)
    | OpBillEnrollment(plans: seq<FeePlan>, enrollment: Enrollment)
    | OpCancelFuture(student: nat, source: Source, prefix: string, from: int)
    | OpCancelCharge(charge: nat)
    | OpRequestConcession(concession: Concession)
    | OpDecideConcession(index: nat, approve: bool)
    | OpCollect(student: nat, cash: bool, reference: string, payment: Payment, on: int)
    | OpCancelReceipt(receipt: nat, reasonGiven: bool)
    | OpRefund(student: nat, cash: bool, lines: seq<LineIn>, on: int)
    | OpLateFines(branch: nat, asOf: int)

  function Attempt(cfg: Config, s: State, op: Op): Result<State> {
    match op
    case OpPost(p) => (match PostCharge(cfg, s, p) case Conflict => Conflict case Ok(r) => Ok(r.0))
    case OpBillPlan(plan, es) => PostAll(cfg, s, PlanPostings(plan, es))
    case OpBillEnrollment(plans, e) => PostAll(cfg, s, EnrolPostings(plans, e))
    case OpCancelFuture(student, source, prefix, from) => Ok(CancelFuture(s, student, source, prefix, from))
    case OpCancelCharge(c) => if c < |s.charges| then CancelCharge(s, c) else Conflict
    case OpRequestConcession(c) => RequestConcession(s, c)
    case OpDecideConcession(i, approve) => if i < |s.concessions| then DecideConcession(s, i, approve) else Conflict
    case OpCollect(student, cash, reference, payment, on) => Collect(cfg, s, student, cash, reference, payment, on)
    case OpCancelReceipt(r, reasonGiven) => if r < |s.receipts| then CancelReceipt(s, r, reasonGiven) else Conflict
    case OpRefund(student, cash, lines, on) => PayBack(s, student, cash, lines, on)
    case OpLateFines(branch, asOf) => LateFines(cfg, s, branch, asOf)
  }

  /** A refused request leaves the ledger as it was. */
  function Step(cfg: Config, s: State, op: Op): State {
    match Attempt(cfg, s, op) case Ok(t) => t case Conflict => s
  }

  function Run(cfg: Config, s: State, ops: seq<Op>): State {
    if ops == [] then s else Step(cfg, Run(cfg, s, ops[..|ops| - 1]), ops[|ops| - 1])
  }
}
