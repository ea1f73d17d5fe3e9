/**
 Payments: an amount is allocated to the oldest dues first, and a run never collects more
 than is due exactly when explicit lines on one charge fit together.
 */
module LedgerPayments {
  import opened Wrappers
  import opened Rounding
  import opened LedgerModel
  import opened LedgerInvariants
  import opened LedgerBalances

  // ------------------------------------------------------------------ the order of dues

  lemma {:induction false} InsertMembers(s: State, ids: seq<nat>, c: nat)
    requires Ids(s, ids) && c < |s.charges|
    ensures forall x :: x in InsertDue(s, ids, c) <==> x in ids || x == c
  {
    if !(ids == [] || DueBefore(s, c, ids[0])) {
      InsertMembers(s, ids[1..], c);
      assert ids == [ids[0]] + ids[1..];
    }
  }

  predicate AllAfter(s: State, c: nat, ids: seq<nat>)
    requires c < |s.charges| && Ids(s, ids)
  {
    forall x :: x in ids ==> x != c && DueBefore(s, c, x)
  }

  /** In order, front to back. */
  predicate InDueOrder(s: State, ids: seq<nat>)
    requires Ids(s, ids)
  {
    ids == [] || (AllAfter(s, ids[0], ids[1..]) && InDueOrder(s, ids[1..]))
  }

  lemma {:induction false} InsertKeepsOrder(s: State, ids: seq<nat>, c: nat)
    requires Ids(s, ids) && c < |s.charges| && c !in ids && InDueOrder(s, ids)
    ensures InDueOrder(s, InsertDue(s, ids, c))
  {
    if ids == [] {
    } else if DueBefore(s, c, ids[0]) {
      assert ids == [ids[0]] + ids[1..];
      assert ([c] + ids)[1..] == ids;
    } else {
      InsertKeepsOrder(s, ids[1..], c);
      InsertMembers(s, ids[1..], c);
      assert InsertDue(s, ids, c)[1..] == InsertDue(s, ids[1..], c);
    }
  }

  /** SortedByDue lists exactly the picked charges, once each, by (due_date, id). */
  lemma {:induction false} SortedByDueCorrect(s: State, pick: nat -> bool, n: nat)
    requires n <= |s.charges|
    ensures InDueOrder(s, SortedByDue(s, pick, n))
    ensures forall c: nat :: c in SortedByDue(s, pick, n) <==> c < n && pick(c)
  {
    if n > 0 {
      SortedByDueCorrect(s, pick, n - 1);
      var ids := SortedByDue(s, pick, n - 1);
      if pick(n - 1) {
        InsertKeepsOrder(s, ids, n - 1);
        InsertMembers(s, ids, n - 1);
      }
    }
  }

  // ------------------------------------------------------------------ what is due

  function PositiveDue(s: State, c: nat): nat
    requires c < |s.charges|
  {
    Max(0, Outstanding(s, c))
  }

  function SumPositive(s: State, ids: seq<nat>): nat
    requires Ids(s, ids)
  {
    if ids == [] then 0 else PositiveDue(s, ids[0]) + SumPositive(s, ids[1..])
  }

  /** Everything due on the student's live charges; credit notes are not set against it. */
  function TotalDue(s: State, student: nat, n: nat): nat
    requires n <= |s.charges|
  {
    if n == 0 then 0
    else TotalDue(s, student, n - 1) + (if LiveOf(s, student, n - 1) then PositiveDue(s, n - 1) else 0)
  }

  lemma {:induction false} InsertSum(s: State, ids: seq<nat>, c: nat)
    requires Ids(s, ids) && c < |s.charges|
    ensures SumPositive(s, InsertDue(s, ids, c)) == SumPositive(s, ids) + PositiveDue(s, c)
  {
    if !(ids == [] || DueBefore(s, c, ids[0])) {
      InsertSum(s, ids[1..], c);
    }
  }

  lemma {:induction false} SortedSum(s: State, student: nat, pick: nat -> bool, n: nat)
    requires n <= |s.charges| && forall c :: pick(c) == LiveOf(s, student, c)
    ensures SumPositive(s, SortedByDue(s, pick, n)) == TotalDue(s, student, n)
  {
    if n > 0 {
      SortedSum(s, student, pick, n - 1);
      InsertSum(s, SortedByDue(s, pick, n - 1), n - 1);
    }
  }

  // ------------------------------------------------------------------ allocation

  lemma {:induction false} PrependLine(line: Line, lines: seq<Line>)
    ensures LineTotal([line] + lines) == line.amount + LineTotal(lines)
    ensures forall c :: LineSum([line] + lines, c) == (if line.charge == c then line.amount else 0) + LineSum(lines, c)
  {
    var all := [line] + lines;
    if lines == [] {
      assert all[..0] == [];
    } else {
      PrependLine(line, lines[..|lines| - 1]);
      assert all[..|all| - 1] == [line] + lines[..|lines| - 1];
    }
  }

  /** The amount is taken in full, or everything there is to take. */
  lemma {:induction false} AllocateTotal(s: State, ids: seq<nat>, remaining: nat)
    requires Ids(s, ids)
    ensures var (lines, left) := Allocate(s, ids, remaining);
            LineTotal(lines) == Min(remaining, SumPositive(s, ids)) && left == remaining - LineTotal(lines)
  {
    if ids != [] && remaining > 0 {
      if Outstanding(s, ids[0]) <= 0 {
        AllocateTotal(s, ids[1..], remaining);
      } else {
        var take := Min(Outstanding(s, ids[0]), remaining);
        AllocateTotal(s, ids[1..], remaining - take);
        PrependLine(Line(ids[0], take), Allocate(s, ids[1..], remaining - take).0);
      }
    }
  }

  /** Each due is named at most once, within what is outstanding on it. */
  lemma {:induction false} AllocateWithin(s: State, ids: seq<nat>, remaining: nat)
    requires Ids(s, ids) && InDueOrder(s, ids)
    ensures var lines := Allocate(s, ids, remaining).0;
            Distinct(lines)
            && forall i :: 0 <= i < |lines| ==> lines[i].charge in ids && 0 < lines[i].amount <= Outstanding(s, lines[i].charge)
  {
    if ids != [] && remaining > 0 {
      assert ids == [ids[0]] + ids[1..];
      if Outstanding(s, ids[0]) <= 0 {
        AllocateWithin(s, ids[1..], remaining);
      } else {
        AllocateWithin(s, ids[1..], remaining - Min(Outstanding(s, ids[0]), remaining));
      }
    }
  }

  /** A due is paid only once every earlier one has been paid in full. */
  lemma {:induction false} AllocateClears(s: State, ids: seq<nat>, remaining: nat, a: nat, b: nat)
    requires Ids(s, ids) && InDueOrder(s, ids) && a in ids && b < |s.charges| && a != b && DueBefore(s, a, b)
    requires Names(Allocate(s, ids, remaining).0, b)
    ensures LineSum(Allocate(s, ids, remaining).0, a) == PositiveDue(s, a)
  {
    var rest := ids[1..];
    assert ids == [ids[0]] + rest;
    AllocateHead(s, ids, remaining, b);
    var take := if Outstanding(s, ids[0]) <= 0 then 0 else Min(Outstanding(s, ids[0]), remaining);
    if a != ids[0] {
      assert b != ids[0];
      AllocateClears(s, rest, remaining - take, a, b);
    }
  }

  /** The head takes its due or what remains, and nothing after it is paid unless it is cleared. */
  lemma AllocateHead(s: State, ids: seq<nat>, remaining: nat, b: nat)
    requires Ids(s, ids) && InDueOrder(s, ids) && ids != [] && remaining > 0
    ensures var take := if Outstanding(s, ids[0]) <= 0 then 0 else Min(Outstanding(s, ids[0]), remaining);
            var lines, tail := Allocate(s, ids, remaining).0, Allocate(s, ids[1..], remaining - take).0;
            LineSum(lines, ids[0]) == take
            && (forall c :: c != ids[0] ==> LineSum(lines, c) == LineSum(tail, c))
            && (Names(lines, b) && b != ids[0] ==> Names(tail, b) && take == PositiveDue(s, ids[0]))
  {
    var take := if Outstanding(s, ids[0]) <= 0 then 0 else Min(Outstanding(s, ids[0]), remaining);
    var tail := Allocate(s, ids[1..], remaining - take).0;
    AllocateWithin(s, ids[1..], remaining - take);
    assert !Names(tail, ids[0]);
    Unnamed(tail, ids[0]);
    if take > 0 {
      PrependLine(Line(ids[0], take), tail);
      if Names(Allocate(s, ids, remaining).0, b) && b != ids[0] {
        NamesPrepended(Line(ids[0], take), tail, b);
      }
    }
  }

  lemma NamesPrepended(line: Line, lines: seq<Line>, c: nat)
    requires Names([line] + lines, c) && line.charge != c
    ensures Names(lines, c)
  {
    var i :| 0 <= i < |lines| + 1 && ([line] + lines)[i].charge == c;
    assert lines[i - 1].charge == c;
  }

  /**
   Oldest first: an amount is refused exactly when it is not positive or exceeds everything
   due; otherwise the receipt is for that amount, no line exceeds its due, and once a charge
   is paid every earlier due is cleared.
   */
  lemma OldestDuesFirst(cfg: Config, s: State, student: nat, cash: bool, reference: string, v: real, on: int)
    requires cash || reference != ""
    ensures var r := Collect(cfg, s, student, cash, reference, Amount(v), on);
            (r.Ok? <==> 0 < Hundredths(v) <= TotalDue(s, student, |s.charges|))
            && (r.Ok? ==>
                  |r.value.receipts| == |s.receipts| + 1 && r.value.charges == s.charges
                  && var receipt := r.value.receipts[|s.receipts|];
                     receipt.amount == LineTotal(receipt.lines) == Hundredths(v) && receipt.student == student
                     && Payable(s, student, receipt.lines) && Distinct(receipt.lines)
                     && forall a: nat, b: nat :: LiveOf(s, student, a) && Outstanding(s, a) > 0
                          && Names(receipt.lines, b) && b < |s.charges| && a != b && DueBefore(s, a, b)
                          ==> Outstanding(r.value, a) == 0)
  {
    var r := Collect(cfg, s, student, cash, reference, Amount(v), on);
    var paise := Hundredths(v);
    if paise > 0 {
      AmountAllocated(s, student, paise);
      var lines := Allocate(s, DueOrder(s, student), paise).0;
      if r.Ok? {
        forall a: nat, b: nat | LiveOf(s, student, a) && Outstanding(s, a) > 0
                                && Names(lines, b) && b < |s.charges| && a != b && DueBefore(s, a, b)
          ensures Outstanding(r.value, a) == 0
        {
          SortedByDueCorrect(s, (c: nat) => LiveOf(s, student, c), |s.charges|);
          AllocateClears(s, DueOrder(s, student), paise, a, b);
          ReceivedAppend(s.receipts, r.value.receipts[|s.receipts|], a);
        }
      }
    }
  }

  lemma AmountAllocated(s: State, student: nat, paise: nat)
    requires paise > 0
    ensures var (lines, left) := Allocate(s, DueOrder(s, student), paise);
            (left <= 0 <==> paise <= TotalDue(s, student, |s.charges|))
            && (left <= 0 ==> LineTotal(lines) == paise && lines != [])
            && Payable(s, student, lines) && Distinct(lines)
  {
    var pick := (c: nat) => LiveOf(s, student, c);
    SortedByDueCorrect(s, pick, |s.charges|);
    SortedSum(s, student, pick, |s.charges|);
    AllocateTotal(s, DueOrder(s, student), paise);
    AllocateWithin(s, DueOrder(s, student), paise);
  }

  // ------------------------------------------------------------------ no over-collection, step by step

  lemma AmountFits(s: State, student: nat, v: real)
    ensures var r := PaymentLines(s, student, Amount(v));
            r.Ok? && Payable(s, student, r.value) ==> Fits(s, r.value)
  {
    var r := PaymentLines(s, student, Amount(v));
    if r.Ok? && Payable(s, student, r.value) {
      AmountAllocated(s, student, Hundredths(v));
      DistinctFits(s, student, r.value);
    }
  }

  lemma CollectCovers(cfg: Config, s: State, op: Op)
    requires Inv(s) && NoOverCollection(s) && op.OpCollect?
    ensures NoOverCollection(Step(cfg, s, op)) <==> Fitting(s, op)
  {
    var r := PaymentLines(s, op.student, op.payment);
    if op.payment.Amount? {
      AmountFits(s, op.student, op.payment.amount);
    }
    if Collect(cfg, s, op.student, op.cash, op.reference, op.payment, op.on).Ok? {
      CollectCoversIffFits(cfg, s, op.student, op.cash, r.value, op.on);
    } else if op.payment.Lines? {
      assert RoundLines(op.payment.lines) == [] <==> op.payment.lines == [];
    }
  }

  lemma CoveredAfterCancelCharge(s: State, c: nat)
    requires Inv(s) && NoOverCollection(s) && c < |s.charges| && CancelCharge(s, c).Ok?
    ensures NoOverCollection(CancelCharge(s, c).value)
  {
    if Live(s, c) {
      var ch := s.charges[c];
      var t := s.(charges := s.charges[c := ch.(cancelled := true)]);
      assert forall i :: 0 <= i < |t.charges| ==> ChargeOk(s.charges[i]) && t.charges[i].discount == s.charges[i].discount;
      CoveredAfterCancels(s, t);
      CoveredAfterRecompute(t, ch.student, ch.head, ch.year);
    }
  }

  lemma CoveredAfterDecision(s: State, i: nat, approve: bool)
    requires Inv(s) && NoOverCollection(s) && i < |s.concessions| && DecideConcession(s, i, approve).Ok?
    ensures NoOverCollection(DecideConcession(s, i, approve).value)
  {
    hide NoOverCollection;
    var c := s.concessions[i];
    var t := s.(concessions := s.concessions[i := c.(status := if approve then Approved else Rejected)]);
    CoveredAfterConcession(s, t);
    CoveredAfterRecompute(t, c.student, c.head, Some(c.year));
  }

  lemma CoveredAfterFutureCancels(s: State, student: nat, source: Source, prefix: string, from: int)
    requires Inv(s) && NoOverCollection(s)
    ensures NoOverCollection(CancelFuture(s, student, source, prefix, from))
  {
    hide NoOverCollection;
    CancelFutureKeeps(s, student, source, prefix, from);
    CoveredAfterCancels(s, CancelFuture(s, student, source, prefix, from));
  }

  lemma ChargeStepCovers(cfg: Config, s: State, op: Op)
    requires Inv(s) && NoOverCollection(s) && !op.OpCollect?
    ensures NoOverCollection(Step(cfg, s, op))
  {
    hide NoOverCollection, CancelCharge, DecideConcession, CancelFuture, PostAll, PostCharge, CancelReceipt, FineAll;
    match op
    case OpPost(p) => CoveredAfterPost(cfg, s, p);
    case OpBillPlan(plan, es) => CoveredAfterPostAll(cfg, s, PlanPostings(plan, es));
    case OpBillEnrollment(plans, e) => CoveredAfterPostAll(cfg, s, EnrolPostings(plans, e));
    case OpCancelFuture(student, source, prefix, from) =>
      CoveredAfterFutureCancels(s, student, source, prefix, from);
    case OpCancelCharge(c) => if c < |s.charges| && CancelCharge(s, c).Ok? { CoveredAfterCancelCharge(s, c); }
    case OpRequestConcession(c) => CoveredAfterConcession(s, Step(cfg, s, op));
    case OpDecideConcession(i, approve) =>
      if i < |s.concessions| && DecideConcession(s, i, approve).Ok? { CoveredAfterDecision(s, i, approve); }
    case OpCancelReceipt(r, reasonGiven) => if r < |s.receipts| { CoveredAfterCancelReceipt(s, r, reasonGiven); }
    case OpRefund(student, cash, lines, on) => CoveredAfterConcession(s, Step(cfg, s, op));
    case OpLateFines(branch, asOf) => CoveredAfterFines(cfg, s, branch, OverdueCharges(cfg, s, branch), asOf);
    case _ =>
  }

  lemma CoveredAfterConcession(s: State, t: State)
    requires NoOverCollection(s) && t.charges == s.charges && t.receipts == s.receipts
    ensures NoOverCollection(t)
  {
    forall c | 0 <= c < |t.charges| ensures Covered(t, c) {
      assert Covered(s, c);
    }
  }

  /** One step keeps every live charge covered exactly when it is no over-fitting explicit payment. */
  lemma StepCoversIffFitting(cfg: Config, s: State, op: Op)
    requires Inv(s) && NoOverCollection(s)
    ensures NoOverCollection(Step(cfg, s, op)) <==> Fitting(s, op)
  {
    if op.OpCollect? {
      CollectCovers(cfg, s, op);
    } else {
      ChargeStepCovers(cfg, s, op);
    }
  }

  /** Every state of the run, the last one included. */
  predicate AlwaysCovered(cfg: Config, ops: seq<Op>) {
    NoOverCollection(Run(cfg, EMPTY, ops)) && (ops != [] ==> AlwaysCovered(cfg, ops[..|ops| - 1]))
  }

  predicate AlwaysFitting(cfg: Config, ops: seq<Op>) {
    ops != [] ==> AlwaysFitting(cfg, ops[..|ops| - 1]) && Fitting(Run(cfg, EMPTY, ops[..|ops| - 1]), ops[|ops| - 1])
  }

  /**
   No over-collection: every live charge stays covered all through a run exactly when each
   accepted payment by explicit lines fits the dues of its charges taken together.
   */
  lemma {:induction false} RunCoversIffFitting(cfg: Config, ops: seq<Op>)
    ensures AlwaysCovered(cfg, ops) <==> AlwaysFitting(cfg, ops)
  {
    if ops != [] {
      var init := ops[..|ops| - 1];
      RunCoversIffFitting(cfg, init);
      RunKeepsInv(cfg, init);
      hide NoOverCollection, Fitting, Step, Inv;
      if AlwaysCovered(cfg, init) {
        StepCoversIffFitting(cfg, Run(cfg, EMPTY, init), ops[|ops| - 1]);
      }
    }
  }

  lemma OneLine(c: nat, amount: int, k: nat)
    ensures LineTotal([Line(c, amount)]) == amount
    ensures LineSum([Line(c, amount)], k) == if k == c then amount else 0
  {
    assert [Line(c, amount)][..0] == [];
  }

  /** An explicit line for a whole number of paise. */
  function LineFor(c: nat, paise: int): (l: LineIn)
    ensures Hundredths(l.amount) == paise
  {
    Whole(paise);
    LineIn(c, paise as real / 100.0)
  }

  /** The failing family is inhabited: two lines of the full due on one charge both pass. */
  lemma TwoLinesOverCollect(cfg: Config, s: State, c: nat, on: int)
    requires Inv(s) && Live(s, c) && Outstanding(s, c) > 0
    ensures var due := Outstanding(s, c);
            var lines := [LineFor(c, due), LineFor(c, due)];
            var r := Collect(cfg, s, s.charges[c].student, true, "", Lines(lines), on);
            r.Ok? && Outstanding(r.value, c) == -due && !Fits(s, RoundLines(lines))
  {
    var due := Outstanding(s, c);
    var lines := [LineFor(c, due), LineFor(c, due)];
    var ls := RoundLines(lines);
    OneLine(c, due, c);
    assert ls == [Line(c, due), Line(c, due)] && ls[..1] == [Line(c, due)];
    assert LineSum(ls, c) == 2 * due && ls[0].charge == c;
    hide Inv, LineSum;
    var r := Collect(cfg, s, s.charges[c].student, true, "", Lines(lines), on);
    ReceivedAppend(s.receipts, r.value.receipts[|s.receipts|], c);
  }

  // ------------------------------------------------------------------ cash kept on a charge

  predicate PaidNonneg(s: State) {
    forall c :: 0 <= c < |s.charges| ==> Paid(s, c) >= 0
  }

  lemma RefundedAppend(fs: seq<Refund>, f: Refund, c: nat)
    ensures Refunded(fs + [f], c) == Refunded(fs, c) + LineSum(f.lines, c)
  {
    assert (fs + [f])[..|fs|] == fs;
  }

  /** A cancelled receipt leaves cash non-negative exactly when no later refund needs its lines. */
  lemma CancelKeepsPaidIff(s: State, r: nat)
    requires Inv(s) && PaidNonneg(s) && r < |s.receipts| && !s.receipts[r].cancelled
    ensures PaidNonneg(CancelReceipt(s, r, true).value)
       <==> forall i :: 0 <= i < |s.receipts[r].lines| ==>
              LineSum(s.receipts[r].lines, s.receipts[r].lines[i].charge) <= Paid(s, s.receipts[r].lines[i].charge)
  {
    var t, lines := CancelReceipt(s, r, true).value, s.receipts[r].lines;
    assert ReceiptOk(s, s.receipts[r]);
    forall c: nat | c < |s.charges| ensures Paid(t, c) == Paid(s, c) - LineSum(lines, c) && (!Names(lines, c) ==> LineSum(lines, c) == 0) {
      ReceivedCancel(s.receipts, r, c);
      LineSumSign(lines, c);
    }
    if forall i :: 0 <= i < |lines| ==> LineSum(lines, lines[i].charge) <= Paid(s, lines[i].charge) {
      forall c | 0 <= c < |t.charges| ensures Paid(t, c) >= 0 {
        if Names(lines, c) {
          var i :| 0 <= i < |lines| && lines[i].charge == c;
        }
      }
    }
  }

  /** A refund leaves cash non-negative exactly when its lines on each charge fit what was paid. */
  lemma RefundKeepsPaidIff(s: State, student: nat, cash: bool, lines: seq<LineIn>, on: int)
    requires Inv(s) && PaidNonneg(s) && PayBack(s, student, cash, lines, on).Ok?
    ensures PaidNonneg(PayBack(s, student, cash, lines, on).value)
       <==> forall i :: 0 <= i < |lines| ==>
              LineSum(RoundLines(lines), lines[i].charge) <= Paid(s, lines[i].charge)
  {
    var t, ls := PayBack(s, student, cash, lines, on).value, RoundLines(lines);
    forall c: nat | c < |s.charges| ensures Paid(t, c) == Paid(s, c) - LineSum(ls, c) && (!Names(ls, c) ==> LineSum(ls, c) == 0) {
      RefundedAppend(s.refunds, t.refunds[|s.refunds|], c);
      LineSumSign(ls, c);
    }
    assert forall i :: 0 <= i < |lines| ==> ls[i].charge == lines[i].charge < |s.charges|;
    if forall i :: 0 <= i < |lines| ==> LineSum(ls, lines[i].charge) <= Paid(s, lines[i].charge) {
      forall c | 0 <= c < |t.charges| ensures Paid(t, c) >= 0 {
        if Names(ls, c) {
          var i :| 0 <= i < |ls| && ls[i].charge == c;
          assert lines[i].charge == c;
        }
      }
    }
  }

  /** The charge of every line ever written exists; nothing is paid on a charge still to come. */
  lemma {:induction false} NothingReceivedYet(s: State, receipts: seq<Receipt>, c: nat)
    requires c >= |s.charges| && forall i :: 0 <= i < |receipts| ==> ReceiptOk(s, receipts[i])
    ensures Received(receipts, c) == 0
  {
    if receipts != [] {
      NothingReceivedYet(s, receipts[..|receipts| - 1], c);
      Unnamed(receipts[|receipts| - 1].lines, c);
    }
  }

  lemma {:induction false} NothingRefundedYet(s: State, refunds: seq<Refund>, c: nat)
    requires c >= |s.charges| && forall i :: 0 <= i < |refunds| ==> RefundOk(s, refunds[i])
    ensures Refunded(refunds, c) == 0
  {
    if refunds != [] {
      NothingRefundedYet(s, refunds[..|refunds| - 1], c);
      Unnamed(refunds[|refunds| - 1].lines, c);
    }
  }

  lemma ChargesKeepPaid(cfg: Config, s: State, op: Op)
    requires Inv(s) && PaidNonneg(s) && OnCharges(op)
    ensures PaidNonneg(Step(cfg, s, op))
  {
    ChargeStepEvolves(cfg, s, op);
    hide Step, Paid;
    var t := Step(cfg, s, op);
    forall c: nat | c < |t.charges| ensures Paid(t, c) >= 0 {
      SamePaid(s, t, c);
      if c >= |s.charges| {
        NothingReceivedYet(s, s.receipts, c);
        NothingRefundedYet(s, s.refunds, c);
        PaidNothing(s, c);
      }
    }
  }

  lemma SamePaid(s: State, t: State, c: nat)
    requires t.receipts == s.receipts && t.refunds == s.refunds
    ensures Paid(t, c) == Paid(s, c)
  {
  }

  lemma PaidNothing(s: State, c: nat)
    requires Received(s.receipts, c) == 0 && Refunded(s.refunds, c) == 0
    ensures Paid(s, c) == 0
  {
  }

  lemma CollectKeepsPaid(cfg: Config, s: State, op: Op)
    requires Inv(s) && PaidNonneg(s) && op.OpCollect?
    ensures PaidNonneg(Step(cfg, s, op))
  {
    StepKeepsInv(cfg, s, op);
    var t := Step(cfg, s, op);
    if t != s {
      var r := t.receipts[|s.receipts|];
      assert ReceiptOk(t, r);
      hide Collect, Inv;
      forall c: nat | c < |t.charges| ensures Paid(t, c) >= 0 {
        ReceivedAppend(s.receipts, r, c);
        LineSumSign(r.lines, c);
        assert Paid(s, c) >= 0;
      }
    }
  }

  /** An accepted cancellation meets the condition of CancelKeepsPaidIff, an accepted refund that of RefundKeepsPaidIff. */
  predicate PaidFitting(s: State, op: Op) {
    match op
    case OpCancelReceipt(r, reasonGiven) =>
      r < |s.receipts| && !s.receipts[r].cancelled && reasonGiven ==>
        forall i :: 0 <= i < |s.receipts[r].lines| ==>
          LineSum(s.receipts[r].lines, s.receipts[r].lines[i].charge) <= Paid(s, s.receipts[r].lines[i].charge)
    case OpRefund(student, cash, lines, on) =>
      PayBack(s, student, cash, lines, on).Ok? ==>
        forall i :: 0 <= i < |lines| ==> LineSum(RoundLines(lines), lines[i].charge) <= Paid(s, lines[i].charge)
    case _ => true
  }

  lemma StepKeepsPaidIff(cfg: Config, s: State, op: Op)
    requires Inv(s) && PaidNonneg(s)
    ensures PaidNonneg(Step(cfg, s, op)) <==> PaidFitting(s, op)
  {
    if op.OpCancelReceipt? {
      if op.receipt < |s.receipts| && !s.receipts[op.receipt].cancelled && op.reasonGiven {
        CancelKeepsPaidIff(s, op.receipt);
      }
    } else if op.OpRefund? {
      if PayBack(s, op.student, op.cash, op.lines, op.on).Ok? {
        RefundKeepsPaidIff(s, op.student, op.cash, op.lines, op.on);
      }
    } else if op.OpCollect? {
      CollectKeepsPaid(cfg, s, op);
    } else {
      ChargesKeepPaid(cfg, s, op);
    }
  }

  predicate AlwaysPaidNonneg(cfg: Config, ops: seq<Op>) {
    PaidNonneg(Run(cfg, EMPTY, ops)) && (ops != [] ==> AlwaysPaidNonneg(cfg, ops[..|ops| - 1]))
  }

  predicate AlwaysPaidFitting(cfg: Config, ops: seq<Op>) {
    ops != [] ==>
      AlwaysPaidFitting(cfg, ops[..|ops| - 1]) && PaidFitting(Run(cfg, EMPTY, ops[..|ops| - 1]), ops[|ops| - 1])
  }

  /** All through a run nothing is paid back beyond what was paid, exactly when every cancellation and refund fits. */
  lemma {:induction false} RunKeepsPaidIff(cfg: Config, ops: seq<Op>)
    ensures AlwaysPaidNonneg(cfg, ops) <==> AlwaysPaidFitting(cfg, ops)
  {
    if ops != [] {
      var init := ops[..|ops| - 1];
      RunKeepsPaidIff(cfg, init);
      RunKeepsInv(cfg, init);
      hide PaidNonneg, PaidFitting, Step, Inv;
      if AlwaysPaidNonneg(cfg, init) {
        StepKeepsPaidIff(cfg, Run(cfg, EMPTY, init), ops[|ops| - 1]);
      }
    }
  }

  lemma CollectInFull(cfg: Config, s: State, c: nat, on: int)
    requires Live(s, c) && Outstanding(s, c) > 0
    ensures var due, student := Outstanding(s, c), s.charges[c].student;
            var t := Step(cfg, s, OpCollect(student, true, "", Lines([LineFor(c, due)]), on));
            t.charges == s.charges && t.refunds == s.refunds && |t.receipts| == |s.receipts| + 1
            && t.receipts[|s.receipts|].lines == [Line(c, due)] && !t.receipts[|s.receipts|].cancelled
            && Received(t.receipts, c) == Received(s.receipts, c) + due
  {
    var due, student := Outstanding(s, c), s.charges[c].student;
    assert RoundLines([LineFor(c, due)]) == [Line(c, due)];
    OneLine(c, due, c);
    var t := Step(cfg, s, OpCollect(student, true, "", Lines([LineFor(c, due)]), on));
    ReceivedAppend(s.receipts, t.receipts[|s.receipts|], c);
  }

  lemma RefundInFull(cfg: Config, s: State, c: nat, on: int)
    requires Live(s, c) && Paid(s, c) > 0
    ensures var t := Step(cfg, s, OpRefund(s.charges[c].student, true, [LineFor(c, Paid(s, c))], on));
            t.charges == s.charges && t.receipts == s.receipts && Paid(t, c) == 0
  {
    var paid := Paid(s, c);
    assert RoundLines([LineFor(c, paid)]) == [Line(c, paid)];
    OneLine(c, paid, c);
    var t := Step(cfg, s, OpRefund(s.charges[c].student, true, [LineFor(c, paid)], on));
    RefundedAppend(s.refunds, t.refunds[|s.refunds|], c);
  }

  lemma CancelInFull(cfg: Config, s: State, r: nat, c: nat, amount: int)
    requires r < |s.receipts| && !s.receipts[r].cancelled && s.receipts[r].lines == [Line(c, amount)]
    ensures var t := Step(cfg, s, OpCancelReceipt(r, true));
            t.charges == s.charges && Paid(t, c) == Paid(s, c) - amount
  {
    OneLine(c, amount, c);
    ReceivedCancel(s.receipts, r, c);
  }

  /** Paying a charge, refunding it and then cancelling the receipt leaves less than nothing paid. */
  lemma CancelAfterRefundGoesNegative(cfg: Config, s: State, c: nat, on: int)
    requires Live(s, c) && Outstanding(s, c) > 0 && Paid(s, c) == 0
    ensures var due, student := Outstanding(s, c), s.charges[c].student;
            var s1 := Step(cfg, s, OpCollect(student, true, "", Lines([LineFor(c, due)]), on));
            var s2 := Step(cfg, s1, OpRefund(student, true, [LineFor(c, due)], on));
            var s3 := Step(cfg, s2, OpCancelReceipt(|s.receipts|, true));
            Live(s3, c) && Paid(s3, c) == -due
  {
    hide Step, Received, Refunded;
    var due, student := Outstanding(s, c), s.charges[c].student;
    var s1 := Step(cfg, s, OpCollect(student, true, "", Lines([LineFor(c, due)]), on));
    CollectInFull(cfg, s, c, on);
    var s2 := Step(cfg, s1, OpRefund(student, true, [LineFor(c, due)], on));
    assert Paid(s1, c) == due;
    RefundInFull(cfg, s1, c, on);
    CancelInFull(cfg, s2, |s.receipts|, c, due);
  }
}
