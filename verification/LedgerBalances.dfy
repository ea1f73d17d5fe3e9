/**
 What the balances say in every reachable state: money is conserved, nothing is collected
 twice, refunds reopen no due, and exactly when cash kept on a charge can go below zero.
 */
module LedgerBalances {
  import opened Wrappers
  import opened LedgerModel
  import opened LedgerInvariants

  // ------------------------------------------------------------------ conservation

  /** The total of a student's live receipts. */
  function StudentReceipts(rs: seq<Receipt>, student: nat): int {
    if rs == [] then 0
    else
      var r := rs[|rs| - 1];
      StudentReceipts(rs[..|rs| - 1], student) + (if !r.cancelled && r.student == student then r.amount else 0)
  }

  /** `received` summed over the student's live charges below n. */
  function StudentReceived(s: State, rs: seq<Receipt>, student: nat, n: nat): int {
    if n == 0 then 0
    else StudentReceived(s, rs, student, n - 1) + (if LiveOf(s, student, n - 1) then Received(rs, n - 1) else 0)
  }

  function LinesReceived(s: State, lines: seq<Line>, student: nat, n: nat): int {
    if n == 0 then 0
    else LinesReceived(s, lines, student, n - 1) + (if LiveOf(s, student, n - 1) then LineSum(lines, n - 1) else 0)
  }

  /** A line counts at exactly one charge. */
  lemma {:induction false} LastLineCounts(s: State, lines: seq<Line>, student: nat, n: nat)
    requires lines != []
    ensures var last := lines[|lines| - 1];
            LinesReceived(s, lines, student, n)
            == LinesReceived(s, lines[..|lines| - 1], student, n)
               + (if last.charge < n && LiveOf(s, student, last.charge) then last.amount else 0)
  {
    if n > 0 {
      LastLineCounts(s, lines, student, n - 1);
    }
  }

  lemma {:induction false} LinesSpread(s: State, lines: seq<Line>, owner: nat, student: nat)
    requires LinesOf(s, owner, lines) && LinesLive(s, lines)
    ensures LinesReceived(s, lines, student, |s.charges|) == if owner == student then LineTotal(lines) else 0
  {
    if lines == [] {
      NothingReceived(s, student, |s.charges|);
    } else {
      LinesSpread(s, lines[..|lines| - 1], owner, student);
      LastLineCounts(s, lines, student, |s.charges|);
    }
  }

  lemma {:induction false} NothingReceived(s: State, student: nat, n: nat)
    ensures LinesReceived(s, [], student, n) == 0 && StudentReceived(s, [], student, n) == 0
  {
    if n > 0 {
      NothingReceived(s, student, n - 1);
    }
  }

  lemma {:induction false} LastReceiptCounts(s: State, rs: seq<Receipt>, student: nat, n: nat)
    requires rs != []
    ensures var r := rs[|rs| - 1];
            StudentReceived(s, rs, student, n)
            == StudentReceived(s, rs[..|rs| - 1], student, n)
               + (if r.cancelled then 0 else LinesReceived(s, r.lines, student, n))
  {
    if n > 0 {
      LastReceiptCounts(s, rs, student, n - 1);
    }
  }

  lemma {:induction false} ReceiptsSpread(s: State, rs: seq<Receipt>, student: nat)
    requires forall i :: 0 <= i < |rs| ==> ReceiptOk(s, rs[i])
    ensures StudentReceipts(rs, student) == StudentReceived(s, rs, student, |s.charges|)
  {
    if rs == [] {
      NothingReceived(s, student, |s.charges|);
    } else {
      var r := rs[|rs| - 1];
      ReceiptsSpread(s, rs[..|rs| - 1], student);
      LastReceiptCounts(s, rs, student, |s.charges|);
      if !r.cancelled {
        LinesSpread(s, r.lines, r.student, student);
      }
    }
  }

  /**
   Conservation: after any run, the total of a student's live receipts is what their live
   charges have received.
   */
  lemma MoneyIsConserved(cfg: Config, ops: seq<Op>, student: nat)
    ensures var s := Run(cfg, EMPTY, ops);
            StudentReceipts(s.receipts, student) == StudentReceived(s, s.receipts, student, |s.charges|)
  {
    RunKeepsInv(cfg, ops);
    var s := Run(cfg, EMPTY, ops);
    ReceiptsSpread(s, s.receipts, student);
  }

  /** total_charged and outstanding of students_with_dues, over the live charges below n. */
  function TotalCharged(s: State, student: nat, n: nat): int
    requires n <= |s.charges|
  {
    if n == 0 then 0
    else TotalCharged(s, student, n - 1)
         + (if LiveOf(s, student, n - 1) then s.charges[n - 1].amount - s.charges[n - 1].discount else 0)
  }

  function TotalOutstanding(s: State, student: nat, n: nat): int
    requires n <= |s.charges|
  {
    if n == 0 then 0
    else TotalOutstanding(s, student, n - 1) + (if LiveOf(s, student, n - 1) then Outstanding(s, n - 1) else 0)
  }

  lemma {:induction false} DuesSplit(s: State, student: nat, n: nat)
    requires n <= |s.charges|
    ensures TotalOutstanding(s, student, n) == TotalCharged(s, student, n) - StudentReceived(s, s.receipts, student, n)
  {
    if n > 0 {
      DuesSplit(s, student, n - 1);
    }
  }

  /** What a student owes is what was charged, net of concessions, less the live receipts. */
  lemma DuesAreChargedLessReceipts(cfg: Config, ops: seq<Op>, student: nat)
    ensures var s := Run(cfg, EMPTY, ops);
            TotalOutstanding(s, student, |s.charges|)
            == TotalCharged(s, student, |s.charges|) - StudentReceipts(s.receipts, student)
  {
    MoneyIsConserved(cfg, ops, student);
    var s := Run(cfg, EMPTY, ops);
    DuesSplit(s, student, |s.charges|);
  }

  /** A refund changes no outstanding amount, whatever it pays back. */
  lemma RefundReopensNothing(cfg: Config, s: State, student: nat, cash: bool, lines: seq<LineIn>, on: int, c: nat)
    requires c < |s.charges|
    ensures var t := Step(cfg, s, OpRefund(student, cash, lines, on));
            t.charges == s.charges && Outstanding(t, c) == Outstanding(s, c)
  {
  }

  /** Cancelling a receipt gives every charge back exactly what the receipt had put on it. */
  lemma CancelReopens(s: State, r: nat, c: nat)
    requires r < |s.receipts| && !s.receipts[r].cancelled && c < |s.charges|
    ensures var t := CancelReceipt(s, r, true);
            t.Ok? && Outstanding(t.value, c) == Outstanding(s, c) + LineSum(s.receipts[r].lines, c)
  {
    ReceivedCancel(s.receipts, r, c);
  }

  // ------------------------------------------------------------------ no over-collection

  predicate Covered(s: State, c: nat)
    requires c < |s.charges|
  {
    !s.charges[c].cancelled && s.charges[c].amount >= 0 ==>
      0 <= s.charges[c].discount && 0 <= Received(s.receipts, c)
      && Received(s.receipts, c) + s.charges[c].discount <= s.charges[c].amount
  }

  predicate NoOverCollection(s: State) {
    forall c :: 0 <= c < |s.charges| ==> Covered(s, c)
  }

  /** The lines on each charge together stay within what is due on it. */
  predicate Fits(s: State, lines: seq<Line>) {
    forall i :: 0 <= i < |lines| ==>
      lines[i].charge < |s.charges| && LineSum(lines, lines[i].charge) <= Outstanding(s, lines[i].charge)
  }

  predicate Distinct(lines: seq<Line>) {
    forall i, j :: 0 <= i < j < |lines| ==> lines[i].charge != lines[j].charge
  }

  lemma {:induction false} DistinctSum(lines: seq<Line>, i: nat)
    requires Distinct(lines) && i < |lines|
    ensures LineSum(lines, lines[i].charge) == lines[i].amount
  {
    var n := |lines| - 1;
    if i < n {
      DistinctSum(lines[..n], i);
    } else {
      Unnamed(lines[..n], lines[n].charge);
    }
  }

  lemma {:induction false} Unnamed(lines: seq<Line>, c: nat)
    requires !Names(lines, c)
    ensures LineSum(lines, c) == 0
  {
    if lines != [] {
      var init := lines[..|lines| - 1];
      assert lines[|lines| - 1].charge != c;
      assert Names(init, c) ==> Names(lines, c);
      Unnamed(init, c);
    }
  }

  /** Lines that name distinct charges fit once each of them passes its own check. */
  lemma DistinctFits(s: State, student: nat, lines: seq<Line>)
    requires Payable(s, student, lines) && Distinct(lines)
    ensures Fits(s, lines)
  {
    forall i | 0 <= i < |lines| ensures LineSum(lines, lines[i].charge) <= Outstanding(s, lines[i].charge) {
      DistinctSum(lines, i);
    }
  }

  /** Collecting keeps every charge covered exactly when the lines on each charge fit together. */
  lemma CollectCoversIffFits(cfg: Config, s: State, student: nat, cash: bool, lines: seq<Line>, on: int)
    requires Inv(s) && NoOverCollection(s) && Payable(s, student, lines)
    ensures NoOverCollection(Issue(cfg, s, student, cash, lines, on)) <==> Fits(s, lines)
  {
    var t := Issue(cfg, s, student, cash, lines, on);
    var r := t.receipts[|s.receipts|];
    forall c: nat | c < |s.charges|
      ensures Received(t.receipts, c) == Received(s.receipts, c) + LineSum(lines, c) && LineSum(lines, c) >= 0
      ensures !Names(lines, c) ==> LineSum(lines, c) == 0
    {
      ReceivedAppend(s.receipts, r, c);
      LineSumSign(lines, c);
    }
    if Fits(s, lines) {
      forall c | 0 <= c < |t.charges| ensures Covered(t, c) {
        assert Covered(s, c);
        ReceivedSign(s, s.receipts, c);
        if Names(lines, c) {
          var i :| 0 <= i < |lines| && lines[i].charge == c;
        }
      }
    }
    if NoOverCollection(t) {
      forall i | 0 <= i < |lines| ensures LineSum(lines, lines[i].charge) <= Outstanding(s, lines[i].charge) {
        var c := lines[i].charge;
        assert Covered(t, c) && ChargeOk(s.charges[c]);
        ReceivedSign(s, s.receipts, c);
      }
    }
  }

  /** The step that can break it: a payment by explicit lines. */
  predicate Fitting(s: State, op: Op) {
    op.OpCollect? && op.payment.Lines? && Payable(s, op.student, RoundLines(op.payment.lines))
    && op.payment.lines != [] && (op.cash || op.reference != "")
    ==> Fits(s, RoundLines(op.payment.lines))
  }

  lemma CoveredAfterRecompute(s: State, student: nat, head: nat, year: Option<nat>)
    requires ChargesOk(s) && NoOverCollection(s)
    ensures NoOverCollection(Recompute(s, student, head, year))
  {
    var t := Recompute(s, student, head, year);
    forall c | 0 <= c < |t.charges| ensures Covered(t, c) {
      assert Covered(s, c);
      if Recomputed(s.charges[c], student, head, year) {
        DiscountBounds(s, c);
      }
    }
  }

  lemma CoveredAfterPost(cfg: Config, s: State, p: Posting)
    requires ReceiptsOk(s) && ChargesOk(s) && NoOverCollection(s)
    ensures var r := PostCharge(cfg, s, p);
            r.Ok? ==> NoOverCollection(r.value.0)
  {
    var r := PostCharge(cfg, s, p);
    if r.Ok? && r.value.0 != s {
      var ch := NewCharge(cfg, p);
      var t := s.(charges := s.charges + [ch]);
      ReceivedSign(s, s.receipts, |s.charges|);
      forall c | 0 <= c < |t.charges| ensures Covered(t, c) {
        if c < |s.charges| {
          assert Covered(s, c);
        }
      }
      forall c | 0 <= c < |t.charges| ensures ChargeOk(t.charges[c]) {
        if c < |s.charges| {
          assert ChargeOk(s.charges[c]);
        }
      }
      CoveredAfterRecompute(t, ch.student, ch.head, ch.year);
    }
  }

  lemma {:induction false} CoveredAfterPostAll(cfg: Config, s: State, ps: seq<Posting>)
    requires Inv(s) && NoOverCollection(s)
    ensures PostAll(cfg, s, ps).Ok? ==> NoOverCollection(PostAll(cfg, s, ps).value) && Inv(PostAll(cfg, s, ps).value)
  {
    if ps != [] {
      CoveredAfterPostAll(cfg, s, ps[..|ps| - 1]);
      var m := PostAll(cfg, s, ps[..|ps| - 1]);
      if m.Ok? {
        CoveredAfterPost(cfg, m.value, ps[|ps| - 1]);
        StepKeepsInv(cfg, m.value, OpPost(ps[|ps| - 1]));
      }
    }
  }

  lemma CoveredAfterFine(cfg: Config, s: State, branch: nat, c: nat, asOf: int)
    requires Inv(s) && NoOverCollection(s) && c < |s.charges|
    ensures FineOne(cfg, s, branch, c, asOf).Ok? ==>
              NoOverCollection(FineOne(cfg, s, branch, c, asOf).value) && Inv(FineOne(cfg, s, branch, c, asOf).value)
  {
    CoveredAfterPost(cfg, s, FinePosting(cfg, s, branch, c, asOf));
    FineOneKeeps(cfg, s, branch, c, asOf);
    var r := FineOne(cfg, s, branch, c, asOf);
    if r.Ok? {
      EvolvesKeepsInv(s, r.value);
      var existing := FindKey(s.charges, None, LateFine, FineKey(c));
      if existing.Some? {
        forall i | 0 <= i < |r.value.charges| ensures Covered(r.value, i) {
          assert Covered(s, i) && ChargeOk(s.charges[i]);
        }
      }
    }
  }

  lemma {:induction false} CoveredAfterFines(cfg: Config, s: State, branch: nat, ids: seq<nat>, asOf: int)
    requires Inv(s) && NoOverCollection(s) && Ids(s, ids)
    ensures FineAll(cfg, s, branch, ids, asOf).Ok? ==>
              NoOverCollection(FineAll(cfg, s, branch, ids, asOf).value) && Inv(FineAll(cfg, s, branch, ids, asOf).value)
  {
    if ids != [] {
      CoveredAfterFines(cfg, s, branch, ids[..|ids| - 1], asOf);
      var m := FineAll(cfg, s, branch, ids[..|ids| - 1], asOf);
      if m.Ok? {
        CoveredAfterFine(cfg, m.value, branch, ids[|ids| - 1], asOf);
      }
    }
  }

  lemma CoveredAfterCancels(s: State, t: State)
    requires NoOverCollection(s) && Evolves(s, t) && |t.charges| == |s.charges|
    requires forall c :: 0 <= c < |s.charges| ==>
               t.charges[c].amount == s.charges[c].amount && t.charges[c].discount == s.charges[c].discount
    ensures NoOverCollection(t)
  {
    forall c | 0 <= c < |t.charges| ensures Covered(t, c) {
      assert Covered(s, c);
    }
  }

  lemma CoveredAfterCancelReceipt(s: State, r: nat, reasonGiven: bool)
    requires Inv(s) && NoOverCollection(s) && r < |s.receipts|
    ensures CancelReceipt(s, r, reasonGiven).Ok? ==> NoOverCollection(CancelReceipt(s, r, reasonGiven).value)
  {
    if CancelReceipt(s, r, reasonGiven).Ok? {
      CancelReceiptKeeps(s, r, reasonGiven);
      var t := CancelReceipt(s, r, reasonGiven).value;
      forall c | 0 <= c < |t.charges| ensures Covered(t, c) {
        assert Covered(s, c) && ReceiptOk(s, s.receipts[r]);
        ReceivedCancel(s.receipts, r, c);
        ReceivedSign(t, t.receipts, c);
        LineSumSign(s.receipts[r].lines, c);
      }
    }
  }
}
