/** Which payments, refunds and cancellations the counter accepts, and the rows they write (apps/fees/services.py). */
module LedgerAcceptance {
  import opened Wrappers
  import opened Rounding
  import opened Sums
  import opened LedgerModel
  import opened LedgerInvariants
  import opened LedgerBalances
  import opened LedgerSums
  import P = LedgerPayments
  import Dates

  // ------------------------------------------------------------------ lines given in rupees

  /** amounts[i] is line i in paise. */
  predicate InPaise(lines: seq<LineIn>, amounts: seq<int>) {
    |amounts| == |lines| && forall i :: 0 <= i < |lines| ==> IsPaise(lines[i].amount, amounts[i])
  }

  function LinesFor(lines: seq<LineIn>, amounts: seq<int>): seq<Line>
    requires |amounts| == |lines|
  {
    seq(|lines|, i requires 0 <= i < |lines| => Line(lines[i].charge, amounts[i]))
  }

  lemma RoundedLines(lines: seq<LineIn>, amounts: seq<int>)
    requires InPaise(lines, amounts)
    ensures RoundLines(lines) == LinesFor(lines, amounts)
  {
    forall i | 0 <= i < |lines| ensures Hundredths(lines[i].amount) == amounts[i] {
      NearestPaise(lines[i].amount, amounts[i]);
    }
    hide Hundredths, IsPaise;
  }

  lemma TotalOfLines(lines: seq<LineIn>, amounts: seq<int>)
    requires |amounts| == |lines|
    ensures LineTotal(LinesFor(lines, amounts)) == Sum(amounts)
  {
    var ls := LinesFor(lines, amounts);
    LinesAddUp(ls, 0);
    assert seq(|ls|, i requires 0 <= i < |ls| => ls[i].amount) == amounts;
  }

  predicate OwnLive(s: State, student: nat, c: nat) {
    c < |s.charges| && !s.charges[c].cancelled && s.charges[c].student == student
  }

  /** A line of a payment: within what is charged, less the discount and the lines of live receipts. */
  predicate MayPay(s: State, student: nat, c: nat, amount: int) {
    OwnLive(s, student, c) && 0 < amount <= s.charges[c].amount - s.charges[c].discount - TakenOn(s.receipts, c)
  }

  lemma PayableLine(s: State, student: nat, c: nat, amount: int)
    ensures MayPay(s, student, c, amount) <==> LiveOf(s, student, c) && 0 < amount <= Outstanding(s, c)
  {
    ReceiptsAddUp(s.receipts, c);
    hide TakenOn, Received;
  }

  lemma SameLength(lines: seq<LineIn>, amounts: seq<int>)
    requires |amounts| == |lines|
    ensures |LinesFor(lines, amounts)| == |lines|
  {
  }

  lemma PayableLines(s: State, student: nat, lines: seq<LineIn>, amounts: seq<int>)
    requires |amounts| == |lines|
    ensures Payable(s, student, LinesFor(lines, amounts))
       <==> forall i :: 0 <= i < |lines| ==> MayPay(s, student, lines[i].charge, amounts[i])
  {
    hide MayPay, Outstanding;
    var ls := LinesFor(lines, amounts);
    forall i | 0 <= i < |ls|
      ensures MayPay(s, student, lines[i].charge, amounts[i])
         <==> LiveOf(s, student, ls[i].charge) && 0 < ls[i].amount <= Outstanding(s, ls[i].charge)
    {
      PayableLine(s, student, lines[i].charge, amounts[i]);
    }
  }

  /** A line of a refund: within the lines of live receipts, less what was given back before. */
  predicate MayGiveBack(s: State, student: nat, c: nat, amount: int) {
    OwnLive(s, student, c) && 0 < amount <= TakenOn(s.receipts, c) - GivenBack(s.refunds, c)
  }

  lemma RefundableLine(s: State, student: nat, c: nat, amount: int)
    ensures MayGiveBack(s, student, c, amount) <==> LiveOf(s, student, c) && 0 < amount <= Paid(s, c)
  {
    ReceiptsAddUp(s.receipts, c);
    RefundsAddUp(s.refunds, c);
    hide TakenOn, Received, GivenBack, Refunded;
  }

  lemma RefundableLines(s: State, student: nat, lines: seq<LineIn>, amounts: seq<int>)
    requires |amounts| == |lines|
    ensures Refundable(s, student, LinesFor(lines, amounts))
       <==> forall i :: 0 <= i < |lines| ==> MayGiveBack(s, student, lines[i].charge, amounts[i])
  {
    hide MayGiveBack, LiveOf, Paid;
    var ls := LinesFor(lines, amounts);
    forall i | 0 <= i < |ls|
      ensures MayGiveBack(s, student, lines[i].charge, amounts[i])
         <==> LiveOf(s, student, ls[i].charge) && 0 < ls[i].amount <= Paid(s, ls[i].charge)
    {
      RefundableLine(s, student, lines[i].charge, amounts[i]);
    }
  }

  // ------------------------------------------------------------------ payments

  /** The row of a payment: the next number of the branch in the year, the money and its lines. */
  predicate ReceiptWritten(cfg: Config, s: State, t: State, student: nat, cash: bool, lines: seq<Line>, total: int, on: int) {
    var key := (cfg.branchOf(student), FinancialYear(on));
    var number := (if key in s.counters then s.counters[key] else 0) + 1;
    t == s.(counters := s.counters[key := number],
            receipts := s.receipts + [Receipt(key.0, key.1, number, student, on, cash, total, lines, false)])
  }

  lemma IssueWrites(cfg: Config, s: State, student: nat, cash: bool, lines: seq<Line>, on: int)
    ensures ReceiptWritten(cfg, s, Issue(cfg, s, student, cash, lines, on), student, cash, lines, LineTotal(lines), on)
  {
    hide FinancialYear, LineTotal;
  }

  lemma LinesTaken(cfg: Config, s: State, student: nat, cash: bool, reference: string, lines: seq<LineIn>, on: int)
    ensures var r, ls := Collect(cfg, s, student, cash, reference, Lines(lines), on), RoundLines(lines);
            (r.Ok? <==> (cash || reference != "") && ls != [] && Payable(s, student, ls))
            && (r.Ok? ==> r.value == Issue(cfg, s, student, cash, ls, on))
  {
    hide RoundLines, Payable, Issue;
  }

  /**
   A payment of given lines is accepted exactly in cash or with a reference, with some line, and with
   each line positive, on a live charge of the student and at most what is charged there, less the
   discount and the lines of live receipts. It writes one receipt of its lines, and nothing else.
   */
  lemma LinesAcceptedExactly(cfg: Config, s: State, student: nat, cash: bool, reference: string, lines: seq<LineIn>,
                             amounts: seq<int>, on: int)
    requires InPaise(lines, amounts)
    ensures var r := Collect(cfg, s, student, cash, reference, Lines(lines), on);
            (r.Ok? <==> (cash || reference != "") && lines != []
                        && forall i :: 0 <= i < |lines| ==> MayPay(s, student, lines[i].charge, amounts[i]))
            && (r.Ok? ==> ReceiptWritten(cfg, s, r.value, student, cash, LinesFor(lines, amounts), Sum(amounts), on))
  {
    assert |amounts| == |lines|;
    hide *;
    LinesTaken(cfg, s, student, cash, reference, lines, on);
    IssueWrites(cfg, s, student, cash, LinesFor(lines, amounts), on);
    RoundedLines(lines, amounts);
    TotalOfLines(lines, amounts);
    PayableLines(s, student, lines, amounts);
    SameLength(lines, amounts);
  }

  /** What a charge still asks for. */
  function DueOn(s: State, c: nat): int
    requires c < |s.charges|
  {
    s.charges[c].amount - s.charges[c].discount - TakenOn(s.receipts, c)
  }

  /** The positive dues of a student's live charges. */
  function DuesOf(s: State, student: nat, n: nat): seq<int>
    requires n <= |s.charges|
  {
    seq(n, c requires 0 <= c < n => if OwnLive(s, student, c) && DueOn(s, c) > 0 then DueOn(s, c) else 0)
  }

  lemma {:induction false} DuesAddUp(s: State, student: nat, n: nat)
    requires n <= |s.charges|
    ensures P.TotalDue(s, student, n) == Sum(DuesOf(s, student, n))
  {
    hide TakenOn, Received;
    if n > 0 {
      DuesAddUp(s, student, n - 1);
      ReceiptsAddUp(s.receipts, n - 1);
      assert DuesOf(s, student, n)[..n - 1] == DuesOf(s, student, n - 1);
    }
  }

  /** The one falls due first: by date and, on one date, by the order of posting. */
  predicate DueFirst(s: State, a: nat, b: nat) {
    a < |s.charges| && b < |s.charges|
    && (s.charges[a].due < s.charges[b].due || (s.charges[a].due == s.charges[b].due && a < b))
  }

  predicate TakesFrom(lines: seq<Line>, c: nat) {
    exists i :: 0 <= i < |lines| && lines[i].charge == c
  }

  /** Each charge once, each within its due, and none before every due that falls due first is paid in full. */
  ghost predicate OldestFirst(s: State, student: nat, lines: seq<Line>) {
    (forall i, j :: 0 <= i < j < |lines| ==> lines[i].charge != lines[j].charge)
    && (forall i :: 0 <= i < |lines| ==> MayPay(s, student, lines[i].charge, lines[i].amount))
    && forall a: nat, b: nat :: a < |s.charges| && OwnLive(s, student, a) && DueOn(s, a) > 0 && TakesFrom(lines, b) && DueFirst(s, a, b)
         ==> OnCharge(lines, a) == DueOn(s, a)
  }

  lemma PaidOnCharge(s: State, t: State, lines: seq<Line>, a: nat)
    requires a < |s.charges| && t.charges == s.charges && |t.receipts| == |s.receipts| + 1
    requires t.receipts[..|s.receipts|] == s.receipts && t.receipts[|s.receipts|].lines == lines && !t.receipts[|s.receipts|].cancelled
    ensures Outstanding(t, a) == DueOn(s, a) - OnCharge(lines, a)
  {
    ReceiptsAddUp(s.receipts, a);
    LinesAddUp(lines, a);
    hide TakenOn, OnCharge, LineSum;
  }

  /**
   A payment by amount is accepted exactly in cash or with a reference, for a positive amount of at
   most the student's dues. It writes one receipt for that amount, oldest dues first.
   */
  lemma AmountAcceptedExactly(cfg: Config, s: State, student: nat, cash: bool, reference: string, v: real, paise: int, on: int)
    requires IsPaise(v, paise)
    ensures var r := Collect(cfg, s, student, cash, reference, Amount(v), on);
            (r.Ok? <==> (cash || reference != "") && 0 < paise <= Sum(DuesOf(s, student, |s.charges|)))
            && (r.Ok? ==>
                  |r.value.receipts| == |s.receipts| + 1
                  && var lines := r.value.receipts[|s.receipts|].lines;
                     ReceiptWritten(cfg, s, r.value, student, cash, lines, paise, on) && AllOf(lines) == paise && OldestFirst(s, student, lines))
  {
    NearestPaise(v, paise);
    DuesAddUp(s, student, |s.charges|);
    var r := Collect(cfg, s, student, cash, reference, Amount(v), on);
    if cash || reference != "" {
      P.OldestDuesFirst(cfg, s, student, cash, reference, v, on);
      if r.Ok? {
        AmountWritten(cfg, s, student, cash, reference, v, on);
        var t := r.value;
        var lines := t.receipts[|s.receipts|].lines;
        LinesAddUp(lines, 0);
        hide Collect, DuesOf, Sum, OnCharge, DueOn, AllOf, LineTotal, P.TotalDue, FinancialYear, Payable, MayPay, Outstanding, DueBefore;
        forall i | 0 <= i < |lines| ensures MayPay(s, student, lines[i].charge, lines[i].amount) {
          PayableIsMayPay(s, student, lines, i);
        }
        forall a: nat, b: nat | a < |s.charges| && OwnLive(s, student, a) && DueOn(s, a) > 0 && TakesFrom(lines, b) && DueFirst(s, a, b)
          ensures OnCharge(lines, a) == DueOn(s, a)
        {
          EarlierDue(s, a, b);
          DueIsOutstanding(s, a);
          PaidOnCharge(s, t, lines, a);
        }
      }
    }
  }

  lemma AmountWritten(cfg: Config, s: State, student: nat, cash: bool, reference: string, v: real, on: int)
    requires Collect(cfg, s, student, cash, reference, Amount(v), on).Ok?
    ensures var t := Collect(cfg, s, student, cash, reference, Amount(v), on).value;
            |t.receipts| == |s.receipts| + 1 && t.receipts[..|s.receipts|] == s.receipts && !t.receipts[|s.receipts|].cancelled
            && var row := t.receipts[|s.receipts|]; ReceiptWritten(cfg, s, t, student, cash, row.lines, row.amount, on)
  {
    hide DueOrder, Payable, FinancialYear, LineTotal, Hundredths;
  }

  lemma PayableIsMayPay(s: State, student: nat, lines: seq<Line>, i: nat)
    requires Payable(s, student, lines) && i < |lines|
    ensures MayPay(s, student, lines[i].charge, lines[i].amount)
  {
    PayableLine(s, student, lines[i].charge, lines[i].amount);
  }

  lemma DueIsOutstanding(s: State, a: nat)
    requires a < |s.charges|
    ensures Outstanding(s, a) == DueOn(s, a)
  {
    ReceiptsAddUp(s.receipts, a);
    hide TakenOn, Received;
  }

  lemma EarlierDue(s: State, a: nat, b: nat)
    requires DueFirst(s, a, b)
    ensures DueBefore(s, a, b) && a != b
  {
  }

  // ------------------------------------------------------------------ cancelling

  /** A receipt is cancelled exactly when it is not yet and a reason is given; the row only gets its mark. */
  lemma CancelledExactly(s: State, r: nat, reasonGiven: bool)
    requires r < |s.receipts|
    ensures CancelReceipt(s, r, reasonGiven).Ok? <==> !s.receipts[r].cancelled && reasonGiven
    ensures CancelReceipt(s, r, reasonGiven).Ok? ==>
              CancelReceipt(s, r, reasonGiven).value == s.(receipts := s.receipts[r := s.receipts[r].(cancelled := true)])
  {
  }

  // ------------------------------------------------------------------ refunds

  /**
   A refund is accepted exactly when it gives something back and each line is positive, on a live
   charge of the student and at most what live receipts put on it less what was given back before.
   It adds one row, and nothing else.
   */
  lemma RefundAcceptedExactly(s: State, student: nat, cash: bool, lines: seq<LineIn>, amounts: seq<int>, on: int)
    requires InPaise(lines, amounts)
    ensures var r := PayBack(s, student, cash, lines, on);
            (r.Ok? <==> Sum(amounts) > 0
                        && forall i :: 0 <= i < |lines| ==> MayGiveBack(s, student, lines[i].charge, amounts[i]))
            && (r.Ok? ==>
                  r.value == s.(refunds := s.refunds + [Refund(student, on, cash, Sum(amounts), LinesFor(lines, amounts))]))
  {
    RoundedLines(lines, amounts);
    TotalOfLines(lines, amounts);
    var ls := LinesFor(lines, amounts);
    RefundableLines(s, student, lines, amounts);
    hide MayGiveBack, Refundable, RoundLines, LinesFor, Sum, LineTotal, InPaise;
  }

  /** With a line for each charge at most, no refund gives back more than was paid. */
  lemma DistinctRefundKeepsPaid(s: State, student: nat, cash: bool, lines: seq<LineIn>, on: int)
    requires Inv(s) && P.PaidNonneg(s) && PayBack(s, student, cash, lines, on).Ok?
    requires forall i, j :: 0 <= i < j < |lines| ==> lines[i].charge != lines[j].charge
    ensures P.PaidNonneg(PayBack(s, student, cash, lines, on).value)
  {
    var ls := RoundLines(lines);
    forall i | 0 <= i < |lines| ensures LineSum(ls, lines[i].charge) <= Paid(s, lines[i].charge) {
      DistinctSum(ls, i);
    }
    P.RefundKeepsPaidIff(s, student, cash, lines, on);
  }

  /** What is left to give back after a refund is less by exactly its line, so it is never given back twice. */
  lemma RefundUsesUp(s: State, student: nat, cash: bool, lines: seq<LineIn>, amounts: seq<int>, on: int, i: nat)
    requires InPaise(lines, amounts) && PayBack(s, student, cash, lines, on).Ok? && i < |lines|
    requires forall i, j :: 0 <= i < j < |lines| ==> lines[i].charge != lines[j].charge
    ensures var t, c := PayBack(s, student, cash, lines, on).value, lines[i].charge;
            TakenOn(t.receipts, c) - GivenBack(t.refunds, c) == TakenOn(s.receipts, c) - GivenBack(s.refunds, c) - amounts[i]
  {
    var t, c, ls := PayBack(s, student, cash, lines, on).value, lines[i].charge, RoundLines(lines);
    RoundedLines(lines, amounts);
    DistinctSum(ls, i);
    RefundsAddUp(s.refunds, c);
    RefundsAddUp(t.refunds, c);
    P.RefundedAppend(s.refunds, t.refunds[|s.refunds|], c);
    hide LineSum, GivenBack, TakenOn, Refunded;
  }

  // ------------------------------------------------------------------ the financial year

  /** A day belongs to the financial year that runs from its 1 April to the 31 March after. */
  lemma FinancialYearIs(on: int, y: int)
    ensures FinancialYear(on) == y <==> Dates.Ord(Dates.Date(y, 4, 1)) <= on <= Dates.Ord(Dates.Date(y + 1, 3, 31))
  {
    var d, first, last := Dates.OfOrd(on), Dates.Date(y, 4, 1), Dates.Date(y + 1, 3, 31);
    Dates.OrdinalRoundTrip(d, on);
    Dates.OrdinalOrder(first, d);
    Dates.OrdinalOrder(d, last);
    hide Dates.Ord, Dates.OfOrd;
  }
}
