/** What receipts and refunds come to, written out line by line (apps/fees/selectors.py). */
module LedgerSums {
  import opened LedgerModel
  import opened Sums

  function OnCharge(lines: seq<Line>, c: nat): int {
    Sum(seq(|lines|, i requires 0 <= i < |lines| => if lines[i].charge == c then lines[i].amount else 0))
  }

  /** The money of all lines on a charge, but for those of cancelled receipts. */
  function TakenOn(receipts: seq<Receipt>, c: nat): int {
    Sum(seq(|receipts|, r requires 0 <= r < |receipts| => if receipts[r].cancelled then 0 else OnCharge(receipts[r].lines, c)))
  }

  function GivenBack(refunds: seq<Refund>, c: nat): int {
    Sum(seq(|refunds|, f requires 0 <= f < |refunds| => OnCharge(refunds[f].lines, c)))
  }

  function AllOf(lines: seq<Line>): int {
    Sum(seq(|lines|, i requires 0 <= i < |lines| => lines[i].amount))
  }

  lemma {:induction false} LinesAddUp(lines: seq<Line>, c: nat)
    ensures LineSum(lines, c) == OnCharge(lines, c)
    ensures LineTotal(lines) == AllOf(lines)
  {
    var xs := seq(|lines|, i requires 0 <= i < |lines| => if lines[i].charge == c then lines[i].amount else 0);
    var ys := seq(|lines|, i requires 0 <= i < |lines| => lines[i].amount);
    if lines != [] {
      var n := |lines| - 1;
      var front := lines[..n];
      LinesAddUp(front, c);
      assert xs[..n] == seq(|front|, i requires 0 <= i < |front| => if front[i].charge == c then front[i].amount else 0);
      assert ys[..n] == seq(|front|, i requires 0 <= i < |front| => front[i].amount);
    }
  }

  lemma {:induction false} ReceiptsAddUp(receipts: seq<Receipt>, c: nat)
    ensures Received(receipts, c) == TakenOn(receipts, c)
  {
    hide LineSum, OnCharge;
    var xs := seq(|receipts|, r requires 0 <= r < |receipts| => if receipts[r].cancelled then 0 else OnCharge(receipts[r].lines, c));
    if receipts != [] {
      var n := |receipts| - 1;
      var front := receipts[..n];
      ReceiptsAddUp(front, c);
      LinesAddUp(receipts[n].lines, c);
      assert xs[..n] == seq(|front|, r requires 0 <= r < |front| => if front[r].cancelled then 0 else OnCharge(front[r].lines, c));
    }
  }

  lemma {:induction false} RefundsAddUp(refunds: seq<Refund>, c: nat)
    ensures Refunded(refunds, c) == GivenBack(refunds, c)
  {
    hide LineSum, OnCharge;
    var xs := seq(|refunds|, f requires 0 <= f < |refunds| => OnCharge(refunds[f].lines, c));
    if refunds != [] {
      var n := |refunds| - 1;
      var front := refunds[..n];
      RefundsAddUp(front, c);
      LinesAddUp(refunds[n].lines, c);
      assert xs[..n] == seq(|front|, f requires 0 <= f < |front| => OnCharge(front[f].lines, c));
    }
  }

  /** Outstanding and paid, written out: refunds count for the second only. */
  lemma BalancesAddUp(s: State, c: nat)
    requires c < |s.charges|
    ensures Outstanding(s, c) == s.charges[c].amount - s.charges[c].discount - TakenOn(s.receipts, c)
    ensures Paid(s, c) == TakenOn(s.receipts, c) - GivenBack(s.refunds, c)
  {
    ReceiptsAddUp(s.receipts, c);
    RefundsAddUp(s.refunds, c);
  }
}
