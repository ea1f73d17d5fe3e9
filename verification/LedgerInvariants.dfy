/**
 What every step of the fees ledger keeps: receipts that are the sums of their lines, no live
 receipt line on a cancelled charge, one live charge per source key, and gap-free numbering.
 */
module LedgerInvariants {
  import opened Wrappers
  import opened Rounding
  import opened LedgerModel

  // ------------------------------------------------------------------ the invariant

  predicate LinesOf(s: State, student: nat, lines: seq<Line>) {
    forall i :: 0 <= i < |lines| ==>
      lines[i].amount > 0 && lines[i].charge < |s.charges| && s.charges[lines[i].charge].student == student
  }

  predicate LinesLive(s: State, lines: seq<Line>) {
    forall i :: 0 <= i < |lines| ==> Live(s, lines[i].charge)
  }

  predicate ReceiptOk(s: State, r: Receipt) {
    r.amount == LineTotal(r.lines) && LinesOf(s, r.student, r.lines) && (!r.cancelled ==> LinesLive(s, r.lines))
  }

  predicate ReceiptsOk(s: State) {
    forall i :: 0 <= i < |s.receipts| ==> ReceiptOk(s, s.receipts[i])
  }

  predicate RefundOk(s: State, f: Refund) {
    f.amount == LineTotal(f.lines) && f.amount > 0 && LinesOf(s, f.student, f.lines)
  }

  predicate RefundsOk(s: State) {
    forall i :: 0 <= i < |s.refunds| ==> RefundOk(s, s.refunds[i])
  }

  predicate ChargeOk(ch: Charge) {
    ch.discount >= 0 && (ch.amount < 0 ==> ch.source == Manual)
  }

  predicate ChargesOk(s: State) {
    (forall c :: 0 <= c < |s.charges| ==> ChargeOk(s.charges[c]))
    && forall i :: 0 <= i < |s.concessions| ==> s.concessions[i].value > 0
  }

  predicate SameKey(a: Charge, b: Charge) {
    a.student == b.student && a.source == b.source && a.sourceId == b.sourceId
  }

  predicate OneLivePerKey(s: State) {
    forall i, j :: 0 <= i < j < |s.charges| && SameKey(s.charges[i], s.charges[j]) && s.charges[i].sourceId != ""
      ==> s.charges[i].cancelled || s.charges[j].cancelled
  }

  /** The numbers of the receipts of a branch and financial year, in the order of issue. */
  function NumbersOf(rs: seq<Receipt>, branch: nat, year: int): seq<nat> {
    if rs == [] then []
    else
      var r := rs[|rs| - 1];
      NumbersOf(rs[..|rs| - 1], branch, year)
      + (if r.branch == branch && r.financialYear == year then [r.number] else [])
  }

  function UpTo(n: nat): seq<nat> {
    seq(n, i requires 0 <= i => i + 1)
  }

  ghost predicate Numbered(s: State) {
    forall b: nat, y: int :: NumbersOf(s.receipts, b, y) == UpTo(LastNumber(s.counters, (b, y)))
  }

  ghost predicate Inv(s: State) {
    ReceiptsOk(s) && RefundsOk(s) && ChargesOk(s) && OneLivePerKey(s) && Numbered(s)
  }

  // ------------------------------------------------------------------ sums of lines

  lemma ReceivedAppend(rs: seq<Receipt>, r: Receipt, c: nat)
    ensures Received(rs + [r], c) == Received(rs, c) + (if r.cancelled then 0 else LineSum(r.lines, c))
  {
    assert (rs + [r])[..|rs|] == rs;
  }

  lemma {:induction false} ReceivedCancel(rs: seq<Receipt>, i: nat, c: nat)
    requires i < |rs| && !rs[i].cancelled
    ensures Received(rs[i := rs[i].(cancelled := true)], c) == Received(rs, c) - LineSum(rs[i].lines, c)
  {
    var n := |rs| - 1;
    var ts := rs[i := rs[i].(cancelled := true)];
    if i == n {
      assert ts[..n] == rs[..n];
    } else {
      ReceivedCancel(rs[..n], i, c);
      assert ts[..n] == rs[..n][i := rs[i].(cancelled := true)];
    }
  }

  predicate Positive(lines: seq<Line>) {
    forall i :: 0 <= i < |lines| ==> lines[i].amount > 0
  }

  predicate Names(lines: seq<Line>, c: nat) {
    exists i :: 0 <= i < |lines| && lines[i].charge == c
  }

  /** Positive lines on a charge sum to something positive exactly when there are any. */
  lemma {:induction false} LineSumSign(lines: seq<Line>, c: nat)
    requires Positive(lines)
    ensures LineSum(lines, c) >= 0
    ensures LineSum(lines, c) > 0 <==> Names(lines, c)
    ensures forall i :: 0 <= i < |lines| && lines[i].charge == c ==> lines[i].amount <= LineSum(lines, c)
  {
    if lines != [] {
      var init := lines[..|lines| - 1];
      LineSumSign(init, c);
      assert lines == init + [lines[|lines| - 1]];
      assert Names(init, c) ==> Names(lines, c);
      assert Names(lines, c) && lines[|lines| - 1].charge != c ==> Names(init, c);
    }
  }

  lemma {:induction false} ReceivedSign(s: State, rs: seq<Receipt>, c: nat)
    requires forall i :: 0 <= i < |rs| ==> ReceiptOk(s, rs[i])
    ensures Received(rs, c) >= 0
    ensures Received(rs, c) == 0 ==> forall i :: 0 <= i < |rs| && !rs[i].cancelled ==> !Names(rs[i].lines, c)
    ensures c >= |s.charges| ==> Received(rs, c) == 0
  {
    if rs != [] {
      ReceivedSign(s, rs[..|rs| - 1], c);
      LineSumSign(rs[|rs| - 1].lines, c);
    }
  }

  // ------------------------------------------------------------------ charges that only evolve

  predicate SameCharge(a: Charge, b: Charge) {
    SameKey(a, b) && a.head == b.head && a.year == b.year && a.due == b.due && a.parent == b.parent
    && (a.cancelled ==> b.cancelled)
  }

  /** No receipt moves, no charge loses its identity, and none with money on it is cancelled. */
  predicate Evolves(s: State, t: State) {
    t.receipts == s.receipts && t.refunds == s.refunds && t.counters == s.counters
    && |t.charges| >= |s.charges|
    && forall i :: 0 <= i < |s.charges| ==>
         SameCharge(s.charges[i], t.charges[i])
         && (t.charges[i].cancelled && !s.charges[i].cancelled ==> Received(s.receipts, i) <= 0)
  }

  lemma EvolvesTransitive(s: State, t: State, u: State)
    requires Evolves(s, t) && Evolves(t, u)
    ensures Evolves(s, u)
  {
  }

  lemma EvolvesKeepsReceipts(s: State, t: State)
    requires Evolves(s, t) && ReceiptsOk(s) && RefundsOk(s)
    ensures ReceiptsOk(t) && RefundsOk(t)
  {
    forall i | 0 <= i < |t.receipts| ensures ReceiptOk(t, t.receipts[i]) {
      var r := s.receipts[i];
      assert ReceiptOk(s, r);
      if !r.cancelled {
        forall k | 0 <= k < |r.lines| ensures Live(t, r.lines[k].charge) {
          var c := r.lines[k].charge;
          ReceivedSign(s, s.receipts, c);
          assert Names(r.lines, c);
        }
      }
    }
    forall i | 0 <= i < |t.refunds| ensures RefundOk(t, t.refunds[i]) {
      assert RefundOk(s, s.refunds[i]);
    }
  }

  lemma EvolvesKeepsNumbers(s: State, t: State)
    requires Evolves(s, t) && Numbered(s)
    ensures Numbered(t)
  {
    forall b: nat, y: int ensures NumbersOf(t.receipts, b, y) == UpTo(LastNumber(t.counters, (b, y))) {
      assert NumbersOf(s.receipts, b, y) == UpTo(LastNumber(s.counters, (b, y)));
    }
  }

  /** A step that evolves the charges keeps the invariant once charges and keys are in order. */
  lemma EvolvesKeepsInv(s: State, t: State)
    requires Inv(s) && Evolves(s, t) && ChargesOk(t) && OneLivePerKey(t)
    ensures Inv(t)
  {
    EvolvesKeepsReceipts(s, t);
    EvolvesKeepsNumbers(s, t);
  }

  // ------------------------------------------------------------------ recomputing discounts

  lemma ConcessionOnNonneg(c: Concession, amount: int)
    requires amount >= 0 && c.value > 0
    ensures ConcessionOn(c, amount) >= 0
  {
    assert amount as real * c.value as real >= 0.0;
  }

  lemma {:induction false} ConcessionTotalNonneg(cs: seq<Concession>, student: nat, head: nat, year: Option<nat>, amount: int)
    requires amount >= 0 && forall i :: 0 <= i < |cs| ==> cs[i].value > 0
    ensures ConcessionTotal(cs, student, head, year, amount) >= 0
  {
    if cs != [] {
      ConcessionTotalNonneg(cs[..|cs| - 1], student, head, year, amount);
      ConcessionOnNonneg(cs[|cs| - 1], amount);
    }
  }

  /** A recomputed discount is never negative and never reaches into money already received. */
  lemma DiscountBounds(s: State, c: nat)
    requires ChargesOk(s) && c < |s.charges| && s.charges[c].amount > 0
    ensures 0 <= Discount(s, c) <= Max(0, s.charges[c].amount - Received(s.receipts, c))
  {
    var ch := s.charges[c];
    ConcessionTotalNonneg(s.concessions, ch.student, ch.head, ch.year, ch.amount);
  }

  /** Same charges up to discounts and amounts. */
  predicate SameKeys(s: State, t: State) {
    |t.charges| == |s.charges|
    && forall i :: 0 <= i < |s.charges| ==>
         SameKey(s.charges[i], t.charges[i]) && (s.charges[i].cancelled ==> t.charges[i].cancelled)
  }

  lemma SameKeysKeepOneLive(s: State, t: State)
    requires SameKeys(s, t) && OneLivePerKey(s)
    ensures OneLivePerKey(t)
  {
    forall i, j | 0 <= i < j < |t.charges| && SameKey(t.charges[i], t.charges[j]) && t.charges[i].sourceId != ""
      ensures t.charges[i].cancelled || t.charges[j].cancelled
    {
      assert SameKey(s.charges[i], s.charges[j]);
    }
  }

  lemma RecomputeKeeps(s: State, student: nat, head: nat, year: Option<nat>)
    requires ChargesOk(s)
    ensures var t := Recompute(s, student, head, year);
            Evolves(s, t) && SameKeys(s, t) && ChargesOk(t) && t.concessions == s.concessions
  {
    var t := Recompute(s, student, head, year);
    forall i | 0 <= i < |s.charges| ensures ChargeOk(t.charges[i]) {
      assert ChargeOk(s.charges[i]);
      if s.charges[i].amount > 0 {
        DiscountBounds(s, i);
      }
    }
  }

  // ------------------------------------------------------------------ posting and cancelling charges

  lemma AppendKeeps(s: State, c: Charge)
    requires ChargesOk(s) && OneLivePerKey(s) && ChargeOk(c) && !c.cancelled
    requires c.sourceId == "" || FindKey(s.charges, Some(c.student), c.source, c.sourceId).None?
    ensures var t := s.(charges := s.charges + [c]);
            Evolves(s, t) && ChargesOk(t) && OneLivePerKey(t)
  {
    var t := s.(charges := s.charges + [c]);
    forall i, j | 0 <= i < j < |t.charges| && SameKey(t.charges[i], t.charges[j]) && t.charges[i].sourceId != ""
      ensures t.charges[i].cancelled || t.charges[j].cancelled
    {
      if j < |s.charges| {
        assert SameKey(s.charges[i], s.charges[j]);
      }
    }
  }

  lemma PostKeeps(cfg: Config, s: State, p: Posting)
    requires ChargesOk(s) && OneLivePerKey(s)
    ensures var r := PostCharge(cfg, s, p);
            r.Ok? ==> Evolves(s, r.value.0) && ChargesOk(r.value.0) && OneLivePerKey(r.value.0)
  {
    var r := PostCharge(cfg, s, p);
    if r.Ok? && r.value.0 != s {
      var c := NewCharge(cfg, p);
      var t := s.(charges := s.charges + [c]);
      AppendKeeps(s, c);
      RecomputeKeeps(t, c.student, c.head, c.year);
      SameKeysKeepOneLive(t, r.value.0);
      EvolvesTransitive(s, t, r.value.0);
    }
  }

  lemma {:induction false} PostAllKeeps(cfg: Config, s: State, ps: seq<Posting>)
    requires ChargesOk(s) && OneLivePerKey(s)
    ensures var r := PostAll(cfg, s, ps);
            r.Ok? ==> Evolves(s, r.value) && ChargesOk(r.value) && OneLivePerKey(r.value)
  {
    if ps != [] {
      PostAllKeeps(cfg, s, ps[..|ps| - 1]);
      var m := PostAll(cfg, s, ps[..|ps| - 1]);
      if m.Ok? {
        PostKeeps(cfg, m.value, ps[|ps| - 1]);
        var r := PostCharge(cfg, m.value, ps[|ps| - 1]);
        if r.Ok? {
          EvolvesTransitive(s, m.value, r.value.0);
        }
      }
    }
  }

  lemma CancelFutureKeeps(s: State, student: nat, source: Source, prefix: string, from: int)
    requires ChargesOk(s) && OneLivePerKey(s)
    ensures var t := CancelFuture(s, student, source, prefix, from);
            Evolves(s, t) && ChargesOk(t) && OneLivePerKey(t)
  {
    var t := CancelFuture(s, student, source, prefix, from);
    assert forall i :: 0 <= i < |s.charges| ==> ChargeOk(s.charges[i]) && t.charges[i].discount == s.charges[i].discount;
    SameKeysKeepOneLive(s, t);
  }

  lemma CancelChargeKeeps(s: State, c: nat)
    requires ChargesOk(s) && OneLivePerKey(s) && c < |s.charges|
    ensures var r := CancelCharge(s, c);
            r.Ok? ==> Evolves(s, r.value) && ChargesOk(r.value) && OneLivePerKey(r.value)
  {
    var r := CancelCharge(s, c);
    if r.Ok? && Live(s, c) {
      var ch := s.charges[c];
      var t := s.(charges := s.charges[c := ch.(cancelled := true)]);
      assert ChargeOk(ch);
      SameKeysKeepOneLive(s, t);
      RecomputeKeeps(t, ch.student, ch.head, ch.year);
      SameKeysKeepOneLive(t, r.value);
      EvolvesTransitive(s, t, r.value);
    }
  }

  lemma DecideKeeps(s: State, i: nat, approve: bool)
    requires ChargesOk(s) && OneLivePerKey(s) && i < |s.concessions|
    ensures var r := DecideConcession(s, i, approve);
            r.Ok? ==> Evolves(s, r.value) && ChargesOk(r.value) && OneLivePerKey(r.value)
  {
    var r := DecideConcession(s, i, approve);
    if r.Ok? {
      var c := s.concessions[i];
      var t := s.(concessions := s.concessions[i := c.(status := if approve then Approved else Rejected)]);
      RecomputeKeeps(t, c.student, c.head, Some(c.year));
      SameKeysKeepOneLive(t, Recompute(t, c.student, c.head, Some(c.year)));
    }
  }

  // ------------------------------------------------------------------ late fines

  lemma FineOneKeeps(cfg: Config, s: State, branch: nat, c: nat, asOf: int)
    requires ChargesOk(s) && OneLivePerKey(s) && c < |s.charges|
    ensures var r := FineOne(cfg, s, branch, c, asOf);
            r.Ok? ==> Evolves(s, r.value) && ChargesOk(r.value) && OneLivePerKey(r.value)
  {
    var amount := FineRule(cfg.head(s.charges[c].head), s.charges[c].due, asOf);
    var existing := FindKey(s.charges, None, LateFine, FineKey(c));
    if amount > 0 {
      if existing.None? {
        PostKeeps(cfg, s, FinePosting(cfg, s, branch, c, asOf));
      } else if amount > s.charges[existing.value].amount {
        var t := s.(charges := s.charges[existing.value := s.charges[existing.value].(amount := amount)]);
        assert ChargeOk(s.charges[existing.value]);
        SameKeysKeepOneLive(s, t);
      }
    }
  }

  lemma {:induction false} FineAllKeeps(cfg: Config, s: State, branch: nat, ids: seq<nat>, asOf: int)
    requires ChargesOk(s) && OneLivePerKey(s) && Ids(s, ids)
    ensures var r := FineAll(cfg, s, branch, ids, asOf);
            r.Ok? ==> Evolves(s, r.value) && ChargesOk(r.value) && OneLivePerKey(r.value)
  {
    if ids != [] {
      FineAllKeeps(cfg, s, branch, ids[..|ids| - 1], asOf);
      var m := FineAll(cfg, s, branch, ids[..|ids| - 1], asOf);
      if m.Ok? {
        FineOneKeeps(cfg, m.value, branch, ids[|ids| - 1], asOf);
        var r := FineOne(cfg, m.value, branch, ids[|ids| - 1], asOf);
        if r.Ok? {
          EvolvesTransitive(s, m.value, r.value);
        }
      }
    }
  }

  // ------------------------------------------------------------------ receipts and refunds

  lemma IssueKeeps(cfg: Config, s: State, student: nat, cash: bool, lines: seq<Line>, on: int)
    requires Inv(s) && Payable(s, student, lines)
    ensures Inv(Issue(cfg, s, student, cash, lines, on))
  {
    var t := Issue(cfg, s, student, cash, lines, on);
    forall i | 0 <= i < |t.receipts| ensures ReceiptOk(t, t.receipts[i]) {
      if i < |s.receipts| {
        assert ReceiptOk(s, s.receipts[i]);
      }
    }
    forall i | 0 <= i < |t.refunds| ensures RefundOk(t, t.refunds[i]) {
      assert RefundOk(s, s.refunds[i]);
    }
    forall b: nat, y: int ensures NumbersOf(t.receipts, b, y) == UpTo(LastNumber(t.counters, (b, y))) {
      assert NumbersOf(s.receipts, b, y) == UpTo(LastNumber(s.counters, (b, y)));
      assert t.receipts[..|s.receipts|] == s.receipts;
    }
  }

  lemma {:induction false} CancelKeepsNumbers(rs: seq<Receipt>, i: nat, b: nat, y: int)
    requires i < |rs|
    ensures NumbersOf(rs[i := rs[i].(cancelled := true)], b, y) == NumbersOf(rs, b, y)
  {
    var ts := rs[i := rs[i].(cancelled := true)];
    var n := |rs| - 1;
    if i < n {
      CancelKeepsNumbers(rs[..n], i, b, y);
      assert ts[..n] == rs[..n][i := rs[i].(cancelled := true)];
    } else {
      assert ts[..n] == rs[..n];
    }
  }

  lemma CancelReceiptKeeps(s: State, r: nat, reasonGiven: bool)
    requires Inv(s) && r < |s.receipts|
    ensures CancelReceipt(s, r, reasonGiven).Ok? ==> Inv(CancelReceipt(s, r, reasonGiven).value)
  {
    if CancelReceipt(s, r, reasonGiven).Ok? {
      var t := CancelReceipt(s, r, reasonGiven).value;
      forall i | 0 <= i < |t.receipts| ensures ReceiptOk(t, t.receipts[i]) {
        assert ReceiptOk(s, s.receipts[i]);
      }
      forall i | 0 <= i < |t.refunds| ensures RefundOk(t, t.refunds[i]) {
        assert RefundOk(s, s.refunds[i]);
      }
      forall b: nat, y: int ensures NumbersOf(t.receipts, b, y) == UpTo(LastNumber(t.counters, (b, y))) {
        assert NumbersOf(s.receipts, b, y) == UpTo(LastNumber(s.counters, (b, y)));
        CancelKeepsNumbers(s.receipts, r, b, y);
      }
    }
  }

  lemma PayBackKeeps(s: State, student: nat, cash: bool, lines: seq<LineIn>, on: int)
    requires Inv(s)
    ensures PayBack(s, student, cash, lines, on).Ok? ==> Inv(PayBack(s, student, cash, lines, on).value)
  {
    if PayBack(s, student, cash, lines, on).Ok? {
      var t := PayBack(s, student, cash, lines, on).value;
      forall i | 0 <= i < |t.refunds| ensures RefundOk(t, t.refunds[i]) {
        if i < |s.refunds| {
          assert RefundOk(s, s.refunds[i]);
        }
      }
      forall i | 0 <= i < |t.receipts| ensures ReceiptOk(t, t.receipts[i]) {
        assert ReceiptOk(s, s.receipts[i]);
      }
      forall b: nat, y: int ensures NumbersOf(t.receipts, b, y) == UpTo(LastNumber(t.counters, (b, y))) {
        assert NumbersOf(s.receipts, b, y) == UpTo(LastNumber(s.counters, (b, y)));
      }
    }
  }

  // ------------------------------------------------------------------ every step, every run

  /** Steps that touch charges and concessions only. */
  predicate OnCharges(op: Op) {
    !op.OpCollect? && !op.OpCancelReceipt? && !op.OpRefund?
  }

  lemma ChargeStepEvolves(cfg: Config, s: State, op: Op)
    requires ChargesOk(s) && OneLivePerKey(s) && OnCharges(op)
    ensures Evolves(s, Step(cfg, s, op)) && ChargesOk(Step(cfg, s, op)) && OneLivePerKey(Step(cfg, s, op))
  {
    match op
    case OpPost(p) => PostKeeps(cfg, s, p);
    case OpBillPlan(plan, es) => PostAllKeeps(cfg, s, PlanPostings(plan, es));
    case OpBillEnrollment(plans, e) => PostAllKeeps(cfg, s, EnrolPostings(plans, e));
    case OpCancelFuture(student, source, prefix, from) => CancelFutureKeeps(s, student, source, prefix, from);
    case OpCancelCharge(c) => if c < |s.charges| { CancelChargeKeeps(s, c); }
    case OpRequestConcession(c) =>
    case OpDecideConcession(i, approve) => if i < |s.concessions| { DecideKeeps(s, i, approve); }
    case OpLateFines(branch, asOf) => FineAllKeeps(cfg, s, branch, OverdueCharges(cfg, s, branch), asOf);
    case _ =>
  }

  lemma StepKeepsInv(cfg: Config, s: State, op: Op)
    requires Inv(s)
    ensures Inv(Step(cfg, s, op))
  {
    hide ReceiptsOk, RefundsOk, ChargesOk, OneLivePerKey, Numbered, Evolves, Payable, Issue, CancelReceipt, PayBack, PaymentLines;
    match op
    case OpCollect(student, cash, reference, payment, on) =>
      var r := PaymentLines(s, student, payment);
      if r.Ok? && Payable(s, student, r.value) {
        IssueKeeps(cfg, s, student, cash, r.value, on);
      }
    case OpCancelReceipt(r, reasonGiven) => if r < |s.receipts| { CancelReceiptKeeps(s, r, reasonGiven); }
    case OpRefund(student, cash, lines, on) => PayBackKeeps(s, student, cash, lines, on);
    case _ =>
      ChargeStepEvolves(cfg, s, op);
      EvolvesKeepsInv(s, Step(cfg, s, op));
  }

  /** Every state any run of the services reaches satisfies the invariant. */
  lemma {:induction false} RunKeepsInv(cfg: Config, ops: seq<Op>)
    ensures Inv(Run(cfg, EMPTY, ops))
  {
    if ops != [] {
      RunKeepsInv(cfg, ops[..|ops| - 1]);
      StepKeepsInv(cfg, Run(cfg, EMPTY, ops[..|ops| - 1]), ops[|ops| - 1]);
    }
  }
}
