/**
 The fees services as they run: rows are fields that each service updates step by step
 (apps/fees/services.py), proved against the steps of LedgerModel.
 */
module FeesService {
  import opened Wrappers
  import opened Rounding
  import opened LedgerModel

  /** How many of the first n charges are cancelled ahead. */
  function CountAhead(s: State, n: nat, student: nat, source: Source, prefix: string, from: int): nat {
    if n == 0 then 0
    else CountAhead(s, n - 1, student, source, prefix, from)
         + (if CancelledAhead(s, n - 1, student, source, prefix, from) then 1 else 0)
  }

  class Ledger {
    const cfg: Config
    var charges: seq<Charge>
    var concessions: seq<Concession>
    var receipts: seq<Receipt>
    var refunds: seq<Refund>
    var counters: map<(nat, int), nat>

    constructor (cfg: Config)
      ensures this.cfg == cfg && Model() == EMPTY
    {
      this.cfg := cfg;
      charges, concessions, receipts, refunds, counters := [], [], [], [], map[];
    }

    function Model(): State
      reads this
    {
      State(charges, concessions, receipts, refunds, counters)
    }

    /** Rolling a transaction back. */
    method Restore(s: State)
      modifies this
      ensures Model() == s
    {
      charges, concessions, receipts, refunds, counters := s.charges, s.concessions, s.receipts, s.refunds, s.counters;
    }

    // ---------------------------------------------------------------- concessions

    method SumConcessions(student: nat, head: nat, year: Option<nat>, amount: int) returns (discount: int)
      ensures discount == ConcessionTotal(concessions, student, head, year, amount)
    {
      discount := 0;
      for k := 0 to |concessions|
        invariant discount == ConcessionTotal(concessions[..k], student, head, year, amount)
      {
        var c := concessions[k];
        assert concessions[..k + 1][..k] == concessions[..k];
        if c.student == student && c.head == head && Some(c.year) == year && c.status == Approved {
          discount := discount + ConcessionOn(c, amount);
        }
      }
      assert concessions[..|concessions|] == concessions;
    }

    method RecomputeDiscounts(student: nat, head: nat, year: Option<nat>)
      modifies this`charges
      ensures Model() == Recompute(old(Model()), student, head, year)
    {
      RecomputeRows(Model(), student, head, year);
      hide Received, ConcessionTotal, Recompute;
      ghost var s := Model();
      for i := 0 to |charges|
        invariant |charges| == |s.charges| && Model() == s.(charges := charges)
        invariant forall k :: 0 <= k < i ==> charges[k] == Recompute(s, student, head, year).charges[k]
        invariant forall k :: i <= k < |charges| ==> charges[k] == s.charges[k]
      {
        var ch := charges[i];
        assert ch == s.charges[i];
        if Recomputed(ch, student, head, year) {
          var discount := SumConcessions(ch.student, ch.head, ch.year, ch.amount);
          var ceiling := if ch.amount - Received(receipts, i) > 0 then ch.amount - Received(receipts, i) else 0;
          if ceiling < discount {
            discount := ceiling;
          }
          if discount != ch.discount {
            charges := charges[i := ch.(discount := discount)];
          }
        }
      }
    }

    method Decide(i: nat, approve: bool) returns (r: Result<()>)
      requires i < |concessions|
      modifies this
      ensures r.Ok? <==> DecideConcession(old(Model()), i, approve).Ok?
      ensures Model() == if r.Ok? then DecideConcession(old(Model()), i, approve).value else old(Model())
    {
      var c := concessions[i];
      if c.status != Pending {
        return Conflict;
      }
      concessions := concessions[i := c.(status := if approve then Approved else Rejected)];
      if approve {
        RecomputeDiscounts(c.student, c.head, Some(c.year));
      }
      r := Ok(());
    }

    // ---------------------------------------------------------------- charges

    method Post(p: Posting) returns (r: Result<nat>)
      modifies this
      ensures r.Ok? <==> PostCharge(cfg, old(Model()), p).Ok?
      ensures r.Ok? ==> PostCharge(cfg, old(Model()), p) == Ok((Model(), r.value))
      ensures r.Conflict? ==> Model() == old(Model())
    {
      var amount := Hundredths(p.amount);
      if cfg.head(p.head).branch != cfg.branchOf(p.student) || (amount < 0 && p.source != Manual) {
        return Conflict;
      }
      if p.sourceId != "" {
        var existing := FindKey(charges, Some(p.student), p.source, p.sourceId);
        if existing.Some? {
          return Ok(existing.value);
        }
      }
      var year := if p.year.None? then cfg.yearOf(p.due) else p.year;
      var pk := |charges|;
      charges := charges + [Charge(p.student, p.head, year, p.due, amount, 0, p.source, p.sourceId, p.parent, false)];
      RecomputeDiscounts(p.student, p.head, year);
      r := Ok(pk);
    }

    method PostBatch(ps: seq<Posting>) returns (r: Result<()>)
      modifies this
      ensures r.Ok? <==> PostAll(cfg, old(Model()), ps).Ok?
      ensures Model() == if r.Ok? then PostAll(cfg, old(Model()), ps).value else old(Model())
    {
      var saved := Model();
      for k := 0 to |ps|
        invariant PostAll(cfg, saved, ps[..k]) == Ok(Model())
      {
        assert ps[..k + 1][..k] == ps[..k];
        var posted := Post(ps[k]);
        if posted.Conflict? {
          RefusedBatch(cfg, saved, ps, k + 1);
          Restore(saved);
          return Conflict;
        }
      }
      assert ps[..|ps|] == ps;
      r := Ok(());
    }

    method CancelFutureCharges(student: nat, source: Source, prefix: string, from: int) returns (n: nat)
      modifies this`charges
      ensures Model() == CancelFuture(old(Model()), student, source, prefix, from)
      ensures n == CountAhead(old(Model()), |old(charges)|, student, source, prefix, from)
    {
      ghost var s := Model();
      CancelFutureRows(s, student, source, prefix, from);
      hide Received, CancelFuture, CancelledAhead;
      ghost var gone := CancelFuture(s, student, source, prefix, from).charges;
      n := 0;
      for i := 0 to |charges|
        invariant |charges| == |s.charges| && Model() == s.(charges := charges)
        invariant forall k :: 0 <= k < i ==> charges[k] == gone[k]
        invariant forall k :: i <= k < |charges| ==> charges[k] == s.charges[k]
        invariant n == CountAhead(s, i, student, source, prefix, from)
      {
        var ch := charges[i];
        AheadExactly(s, i, student, source, prefix, from);
        if !ch.cancelled && ch.student == student && ch.source == source && prefix <= ch.sourceId && ch.due >= from {
          if Received(receipts, i) <= 0 {
            charges := charges[i := ch.(cancelled := true)];
            n := n + 1;
          }
        }
      }
    }

    method Cancel(c: nat) returns (r: Result<()>)
      requires c < |charges|
      modifies this`charges
      ensures r.Ok? <==> CancelCharge(old(Model()), c).Ok?
      ensures Model() == if r.Ok? then CancelCharge(old(Model()), c).value else old(Model())
    {
      var ch := charges[c];
      if ch.cancelled {
        return Ok(());
      }
      if Received(receipts, c) > 0 {
        return Conflict;
      }
      charges := charges[c := ch.(cancelled := true)];
      RecomputeDiscounts(ch.student, ch.head, ch.year);
      r := Ok(());
    }

    // ---------------------------------------------------------------- receipts

    /** The loop of `collect` that spreads an amount over the oldest dues. */
    method AllocateOldest(student: nat, amount: int) returns (lines: seq<Line>, remaining: int)
      ensures (lines, remaining) == Allocate(Model(), DueOrder(Model(), student), amount)
    {
      var s := Model();
      var ids := DueOrder(s, student);
      lines, remaining := [], amount;
      var k := 0;
      ghost var all := Allocate(s, ids, amount);
      assert ids[0..] == ids && [] + all.0 == all.0;
      while k < |ids|
        invariant 0 <= k <= |ids|
        invariant all.0 == lines + Allocate(s, ids[k..], remaining).0 && all.1 == Allocate(s, ids[k..], remaining).1
      {
        if remaining <= 0 {
          break;
        }
        var c := ids[k];
        assert ids[k..][1..] == ids[k + 1..];
        k := k + 1;
        if Outstanding(s, c) <= 0 {
          continue;
        }
        var take := Min(Outstanding(s, c), remaining);
        assert forall rest: seq<Line> :: lines + ([Line(c, take)] + rest) == lines + [Line(c, take)] + rest;
        lines, remaining := lines + [Line(c, take)], remaining - take;
      }
      assert lines + [] == lines;
    }

    /** The loop of `collect` and `refund` that checks each line and adds them up. */
    method CheckLines(student: nat, lines: seq<Line>, limit: nat -> int) returns (ok: bool, total: int)
      ensures ok <==> forall i :: 0 <= i < |lines| ==>
                        LiveOf(Model(), student, lines[i].charge) && 0 < lines[i].amount <= limit(lines[i].charge)
      ensures ok ==> total == LineTotal(lines)
    {
      total := 0;
      for k := 0 to |lines|
        invariant total == LineTotal(lines[..k])
        invariant forall i :: 0 <= i < k ==>
                    LiveOf(Model(), student, lines[i].charge) && 0 < lines[i].amount <= limit(lines[i].charge)
      {
        var line := lines[k];
        if !LiveOf(Model(), student, line.charge) || line.amount <= 0 || line.amount > limit(line.charge) {
          return false, total;
        }
        assert lines[..k + 1][..k] == lines[..k];
        total := total + line.amount;
      }
      assert lines[..|lines|] == lines;
      ok := true;
    }

    /** The lines of a payment: those given, or an amount spread over the oldest dues. */
    method LinesOf(student: nat, payment: Payment) returns (r: Result<seq<Line>>)
      ensures r == PaymentLines(Model(), student, payment)
    {
      if payment.Neither? {
        return Conflict;
      } else if payment.Lines? {
        return Ok(RoundLines(payment.lines));
      }
      var remaining := Hundredths(payment.amount);
      if remaining <= 0 {
        return Conflict;
      }
      var lines, left := AllocateOldest(student, remaining);
      r := if left > 0 then Conflict else Ok(lines);
    }

    /** The next number of the branch and year, and the receipt under it. */
    method IssueReceipt(student: nat, cash: bool, lines: seq<Line>, total: int, on: int) returns (id: nat)
      requires total == LineTotal(lines)
      modifies this`counters, this`receipts
      ensures Model() == Issue(cfg, old(Model()), student, cash, lines, on)
      ensures id == |old(receipts)|
    {
      var key := (cfg.branchOf(student), FinancialYear(on));
      var number := (if key in counters then counters[key] else 0) + 1;
      counters := counters[key := number];
      id := |receipts|;
      receipts := receipts + [Receipt(key.0, key.1, number, student, on, cash, total, lines, false)];
    }

    method CollectPayment(student: nat, cash: bool, reference: string, payment: Payment, on: int) returns (r: Result<nat>)
      modifies this
      ensures r.Ok? <==> Collect(cfg, old(Model()), student, cash, reference, payment, on).Ok?
      ensures Model() == if r.Ok? then Collect(cfg, old(Model()), student, cash, reference, payment, on).value else old(Model())
      ensures r.Ok? ==> r.value == |old(receipts)|
    {
      hide Issue, PaymentLines, LineTotal, Received;
      if !cash && reference == "" {
        return Conflict;
      }
      var asked := LinesOf(student, payment);
      if asked.Conflict? {
        return Conflict;
      }
      var s, lines := Model(), asked.value;
      var ok, total := CheckLines(student, lines, (c: nat) => if c < |s.charges| then Outstanding(s, c) else 0);
      assert ok <==> Payable(s, student, lines);
      if lines == [] || !ok {
        return Conflict;
      }
      var id := IssueReceipt(student, cash, lines, total, on);
      r := Ok(id);
    }

    method VoidReceipt(i: nat, reasonGiven: bool) returns (r: Result<()>)
      requires i < |receipts|
      modifies this`receipts
      ensures r.Ok? <==> CancelReceipt(old(Model()), i, reasonGiven).Ok?
      ensures Model() == if r.Ok? then CancelReceipt(old(Model()), i, reasonGiven).value else old(Model())
    {
      if receipts[i].cancelled || !reasonGiven {
        return Conflict;
      }
      receipts := receipts[i := receipts[i].(cancelled := true)];
      r := Ok(());
    }

    method RefundPayment(student: nat, cash: bool, lines: seq<LineIn>, on: int) returns (r: Result<()>)
      modifies this`refunds
      ensures r.Ok? <==> PayBack(old(Model()), student, cash, lines, on).Ok?
      ensures Model() == if r.Ok? then PayBack(old(Model()), student, cash, lines, on).value else old(Model())
    {
      var s, ls := Model(), RoundLines(lines);
      var ok, total := CheckLines(student, ls, (c: nat) => Paid(s, c));
      assert ok <==> Refundable(s, student, ls);
      if !ok || total <= 0 {
        return Conflict;
      }
      refunds := refunds + [Refund(student, on, cash, total, ls)];
      r := Ok(());
    }

    // ---------------------------------------------------------------- late fines

    method FineCharge(branch: nat, c: nat, asOf: int) returns (r: Result<()>)
      requires c < |charges|
      modifies this
      ensures r.Ok? <==> FineOne(cfg, old(Model()), branch, c, asOf).Ok?
      ensures Model() == if r.Ok? then FineOne(cfg, old(Model()), branch, c, asOf).value else old(Model())
    {
      var amount := FineRule(cfg.head(charges[c].head), charges[c].due, asOf);
      r := Ok(());
      if amount > 0 {
        var existing := FindKey(charges, None, LateFine, FineKey(c));
        if existing.None? {
          var posted := Post(FinePosting(cfg, Model(), branch, c, asOf));
          if posted.Conflict? {
            return Conflict;
          }
        } else if amount > charges[existing.value].amount {
          charges := charges[existing.value := charges[existing.value].(amount := amount)];
        }
      }
    }

    method ApplyLateFines(branch: nat, asOf: int) returns (r: Result<()>)
      modifies this
      ensures r.Ok? <==> LateFines(cfg, old(Model()), branch, asOf).Ok?
      ensures Model() == if r.Ok? then LateFines(cfg, old(Model()), branch, asOf).value else old(Model())
    {
      hide FineOne, OverdueCharges;
      var saved := Model();
      var overdue := OverdueCharges(cfg, saved, branch);
      for k := 0 to |overdue|
        invariant FineAll(cfg, saved, branch, overdue[..k], asOf) == Ok(Model())
      {
        assert overdue[..k + 1][..k] == overdue[..k];
        var fined := FineCharge(branch, overdue[k], asOf);
        if fined.Conflict? {
          RefusedFines(cfg, saved, branch, overdue, asOf, k + 1);
          Restore(saved);
          return Conflict;
        }
      }
      assert overdue[..|overdue|] == overdue;
      r := Ok(());
    }
  }

  lemma RecomputeRows(s: State, student: nat, head: nat, year: Option<nat>)
    ensures var t := Recompute(s, student, head, year);
            |t.charges| == |s.charges| && t == s.(charges := t.charges)
            && forall k :: 0 <= k < |s.charges| ==>
                 t.charges[k] == if Recomputed(s.charges[k], student, head, year) then s.charges[k].(discount := Discount(s, k)) else s.charges[k]
  {
    hide Discount, Recomputed;
  }

  lemma CancelFutureRows(s: State, student: nat, source: Source, prefix: string, from: int)
    ensures var t := CancelFuture(s, student, source, prefix, from);
            |t.charges| == |s.charges| && t == s.(charges := t.charges)
            && forall k :: 0 <= k < |s.charges| ==>
                 t.charges[k] == if CancelledAhead(s, k, student, source, prefix, from) then s.charges[k].(cancelled := true) else s.charges[k]
  {
    hide CancelledAhead;
  }

  lemma AheadExactly(s: State, c: nat, student: nat, source: Source, prefix: string, from: int)
    requires c < |s.charges|
    ensures var ch := s.charges[c];
            (CancelledAhead(s, c, student, source, prefix, from)
             <==> !ch.cancelled && ch.student == student && ch.source == source && prefix <= ch.sourceId && ch.due >= from
                  && Received(s.receipts, c) <= 0)
  {
    hide Received;
  }

  /** A batch that fails part way fails as a whole. */
  lemma {:induction false} RefusedBatch(cfg: Config, s: State, ps: seq<Posting>, k: nat)
    requires k <= |ps| && PostAll(cfg, s, ps[..k]).Conflict?
    ensures PostAll(cfg, s, ps).Conflict?
    decreases |ps| - k
  {
    if k < |ps| {
      assert ps[..k + 1][..k] == ps[..k];
      RefusedBatch(cfg, s, ps, k + 1);
    } else {
      assert ps[..k] == ps;
    }
  }

  lemma {:induction false} RefusedFines(cfg: Config, s: State, branch: nat, ids: seq<nat>, asOf: int, k: nat)
    requires Ids(s, ids) && k <= |ids| && FineAll(cfg, s, branch, ids[..k], asOf).Conflict?
    ensures FineAll(cfg, s, branch, ids, asOf).Conflict?
    decreases |ids| - k
  {
    if k < |ids| {
      assert ids[..k + 1][..k] == ids[..k];
      RefusedFines(cfg, s, branch, ids, asOf, k + 1);
    } else {
      assert ids[..k] == ids;
    }
  }
}
