/**
 Late fines over whole runs: no fine is ever fined, no discount exceeds the approved
 concessions, and so running the fines a second time on the same date changes nothing.
 */
module LedgerFineRuns {
  import opened Wrappers
  import opened Rounding
  import opened LedgerModel
  import opened LedgerInvariants
  import opened LedgerPayments
  import opened LedgerFines

  // ------------------------------------------------------------------ fines are never fined

  predicate FineOk(s: State, f: nat)
    requires f < |s.charges|
  {
    s.charges[f].source == LateFine ==>
      s.charges[f].parent.Some?
      && var c := s.charges[f].parent.value;
         c < |s.charges| && s.charges[f].sourceId == FineKey(c)
         && s.charges[c].source != LateFine && s.charges[c].parent.None?
  }

  predicate FinesOk(s: State) {
    forall f :: 0 <= f < |s.charges| ==> FineOk(s, f)
  }

  /** Only the new charges of a step can be fines that are out of order. */
  lemma EvolvesKeepsFines(s: State, t: State)
    requires FinesOk(s) && Evolves(s, t)
    requires forall f :: |s.charges| <= f < |t.charges| ==> FineOk(t, f)
    ensures FinesOk(t)
  {
    forall f | 0 <= f < |t.charges| ensures FineOk(t, f) {
      if f < |s.charges| {
        assert FineOk(s, f) && SameCharge(s.charges[f], t.charges[f]);
        if s.charges[f].source == LateFine {
          assert SameCharge(s.charges[s.charges[f].parent.value], t.charges[s.charges[f].parent.value]);
        }
      }
    }
  }

  lemma PostKeepsFinesOk(cfg: Config, s: State, p: Posting)
    requires FinesOk(s) && ChargesOk(s) && OneLivePerKey(s)
    requires p.source == LateFine ==>
               p.parent.Some? && p.parent.value < |s.charges| && p.sourceId == FineKey(p.parent.value)
               && s.charges[p.parent.value].source != LateFine && s.charges[p.parent.value].parent.None?
    ensures PostCharge(cfg, s, p).Ok? ==> FinesOk(PostCharge(cfg, s, p).value.0)
  {
    if PostCharge(cfg, s, p).Ok? {
      PostKeeps(cfg, s, p);
      EvolvesKeepsFines(s, PostCharge(cfg, s, p).value.0);
    }
  }

  lemma {:induction false} PostAllKeepsFinesOk(cfg: Config, s: State, ps: seq<Posting>)
    requires FinesOk(s) && ChargesOk(s) && OneLivePerKey(s) && forall i :: 0 <= i < |ps| ==> ps[i].source != LateFine
    ensures PostAll(cfg, s, ps).Ok? ==> FinesOk(PostAll(cfg, s, ps).value)
  {
    if ps != [] {
      PostAllKeepsFinesOk(cfg, s, ps[..|ps| - 1]);
      PostAllKeeps(cfg, s, ps[..|ps| - 1]);
      if PostAll(cfg, s, ps[..|ps| - 1]).Ok? {
        PostKeepsFinesOk(cfg, PostAll(cfg, s, ps[..|ps| - 1]).value, ps[|ps| - 1]);
      }
    }
  }

  lemma FineOneKeepsFinesOk(cfg: Config, s: State, branch: nat, c: nat, asOf: int)
    requires FinesOk(s) && ChargesOk(s) && OneLivePerKey(s) && c < |s.charges|
    requires s.charges[c].source != LateFine && s.charges[c].parent.None?
    ensures FineOne(cfg, s, branch, c, asOf).Ok? ==> FinesOk(FineOne(cfg, s, branch, c, asOf).value)
  {
    if FineOne(cfg, s, branch, c, asOf).Ok? {
      PostKeepsFinesOk(cfg, s, FinePosting(cfg, s, branch, c, asOf));
      FineOneKeeps(cfg, s, branch, c, asOf);
      var t := FineOne(cfg, s, branch, c, asOf).value;
      if |t.charges| == |s.charges| {
        EvolvesKeepsFines(s, t);
      }
    }
  }

  lemma {:induction false} FineAllKeepsFinesOk(cfg: Config, s: State, branch: nat, ids: seq<nat>, asOf: int)
    requires FinesOk(s) && ChargesOk(s) && OneLivePerKey(s) && Ids(s, ids)
    requires forall i :: 0 <= i < |ids| ==> s.charges[ids[i]].source != LateFine && s.charges[ids[i]].parent.None?
    ensures FineAll(cfg, s, branch, ids, asOf).Ok? ==> FinesOk(FineAll(cfg, s, branch, ids, asOf).value)
  {
    hide FinesOk, ChargesOk, OneLivePerKey, FineOne;
    if ids != [] {
      var init, last := ids[..|ids| - 1], ids[|ids| - 1];
      FineAllKeepsFinesOk(cfg, s, branch, init, asOf);
      FineAllKeeps(cfg, s, branch, init, asOf);
      if FineAll(cfg, s, branch, init, asOf).Ok? {
        var m := FineAll(cfg, s, branch, init, asOf).value;
        assert SameCharge(s.charges[last], m.charges[last]);
        FineOneKeepsFinesOk(cfg, m, branch, last, asOf);
      }
    }
  }

  /** Only apply_late_fines posts with its own source. */
  predicate OwnSource(op: Op) {
    op.OpPost? ==> op.p.source != LateFine
  }

  lemma StepKeepsFinesOk(cfg: Config, s: State, op: Op)
    requires FinesOk(s) && ChargesOk(s) && OneLivePerKey(s) && OwnSource(op)
    ensures FinesOk(Step(cfg, s, op))
  {
    match op
    case OpPost(p) => PostKeepsFinesOk(cfg, s, p);
    case OpBillPlan(plan, es) =>
      PlanSource(plan, es);
      PostAllKeepsFinesOk(cfg, s, PlanPostings(plan, es));
    case OpBillEnrollment(plans, e) =>
      EnrolSource(plans, e);
      PostAllKeepsFinesOk(cfg, s, EnrolPostings(plans, e));
    case OpLateFines(branch, asOf) =>
      SortedByDueCorrect(s, (x: nat) => Overdue(cfg, s, branch, x), |s.charges|);
      var ids := OverdueCharges(cfg, s, branch);
      assert forall i :: 0 <= i < |ids| ==> ids[i] in ids;
      FineAllKeepsFinesOk(cfg, s, branch, ids, asOf);
    case OpCollect(_, _, _, _, _) => SameChargesFinesOk(s, Step(cfg, s, op));
    case OpCancelReceipt(_, _) => SameChargesFinesOk(s, Step(cfg, s, op));
    case OpRefund(_, _, _, _) => SameChargesFinesOk(s, Step(cfg, s, op));
    case _ =>
      ChargeStepEvolves(cfg, s, op);
      EvolvesKeepsFines(s, Step(cfg, s, op));
  }

  lemma SameChargesFinesOk(s: State, t: State)
    requires FinesOk(s) && t.charges == s.charges
    ensures FinesOk(t)
  {
    forall f | 0 <= f < |t.charges| ensures FineOk(t, f) {
      assert FineOk(s, f);
    }
  }

  /** Every late fine penalises a charge that is no fine itself. */
  lemma {:induction false} FinesAreNeverFined(cfg: Config, ops: seq<Op>)
    requires forall i :: 0 <= i < |ops| ==> OwnSource(ops[i])
    ensures FinesOk(Run(cfg, EMPTY, ops))
  {
    if ops != [] {
      FinesAreNeverFined(cfg, ops[..|ops| - 1]);
      RunKeepsInv(cfg, ops[..|ops| - 1]);
      StepKeepsFinesOk(cfg, Run(cfg, EMPTY, ops[..|ops| - 1]), ops[|ops| - 1]);
    }
  }

  // ------------------------------------------------------------------ discounts are backed by concessions

  function Conceded(s: State, ch: Charge): int {
    ConcessionTotal(s.concessions, ch.student, ch.head, ch.year, ch.amount)
  }

  predicate BackedCharge(s: State, ch: Charge) {
    !ch.cancelled && ch.amount >= 0 ==> ch.discount <= Conceded(s, ch)
  }

  predicate Backed(s: State) {
    forall c :: 0 <= c < |s.charges| ==> BackedCharge(s, s.charges[c])
  }

  lemma ProductMonotone(a: real, b: real, v: real)
    requires a <= b && v > 0.0
    ensures a * v <= b * v
  {
  }

  lemma HundredthsMonotone(x: real, y: real)
    requires x <= y
    ensures Hundredths(x) <= Hundredths(y)
  {
    Monotone(x * 100.0, y * 100.0);
    hide RoundHalfUp;
  }

  lemma PercentMonotone(a: int, b: int, value: int)
    requires a <= b && value > 0
    ensures PercentOf(a, value) <= PercentOf(b, value)
  {
    ProductMonotone(a as real, b as real, value as real);
  }

  lemma ConcessionOnMonotone(c: Concession, a: int, b: int)
    requires 0 <= a <= b && c.value > 0
    ensures ConcessionOn(c, a) <= ConcessionOn(c, b)
  {
    hide Hundredths, PercentOf;
    PercentMonotone(a, b, c.value);
    HundredthsMonotone(PercentOf(a, c.value), PercentOf(b, c.value));
  }

  lemma {:induction false} TotalMonotone(cs: seq<Concession>, student: nat, head: nat, year: Option<nat>, a: int, b: int)
    requires 0 <= a <= b && forall i :: 0 <= i < |cs| ==> cs[i].value > 0
    ensures ConcessionTotal(cs, student, head, year, a) <= ConcessionTotal(cs, student, head, year, b)
  {
    if cs != [] {
      TotalMonotone(cs[..|cs| - 1], student, head, year, a, b);
      ConcessionOnMonotone(cs[|cs| - 1], a, b);
    }
  }

  /** Deciding a pending concession never takes anything away. */
  lemma {:induction false} DecidingAdds(cs: seq<Concession>, i: nat, status: Status, student: nat, head: nat, year: Option<nat>, amount: int)
    requires i < |cs| && cs[i].status == Pending && cs[i].value > 0 && amount >= 0
    ensures ConcessionTotal(cs, student, head, year, amount)
            <= ConcessionTotal(cs[i := cs[i].(status := status)], student, head, year, amount)
  {
    var n := |cs| - 1;
    var ds := cs[i := cs[i].(status := status)];
    if i < n {
      DecidingAdds(cs[..n], i, status, student, head, year, amount);
      assert ds[..n] == cs[..n][i := cs[i].(status := status)];
    } else {
      assert ds[..n] == cs[..n];
      ConcessionOnNonneg(ds[n], amount);
    }
  }

  lemma RecomputeBacked(s: State, student: nat, head: nat, year: Option<nat>)
    requires Backed(s)
    ensures Backed(Recompute(s, student, head, year))
  {
    var t := Recompute(s, student, head, year);
    forall c | 0 <= c < |t.charges| ensures BackedCharge(t, t.charges[c]) {
      assert BackedCharge(s, s.charges[c]);
    }
  }

  lemma PostBacked(cfg: Config, s: State, p: Posting)
    requires Backed(s) && ChargesOk(s)
    ensures PostCharge(cfg, s, p).Ok? ==> Backed(PostCharge(cfg, s, p).value.0)
  {
    var r := PostCharge(cfg, s, p);
    if r.Ok? && r.value.0 != s {
      var ch := NewCharge(cfg, p);
      var t := s.(charges := s.charges + [ch]);
      forall c | 0 <= c < |t.charges| ensures BackedCharge(t, t.charges[c]) {
        if c < |s.charges| {
          assert BackedCharge(s, s.charges[c]);
        } else if ch.amount >= 0 {
          ConcessionTotalNonneg(s.concessions, ch.student, ch.head, ch.year, ch.amount);
        }
      }
      RecomputeBacked(t, ch.student, ch.head, ch.year);
    }
  }

  lemma {:induction false} PostAllBacked(cfg: Config, s: State, ps: seq<Posting>)
    requires Backed(s) && ChargesOk(s) && OneLivePerKey(s)
    ensures PostAll(cfg, s, ps).Ok? ==> Backed(PostAll(cfg, s, ps).value)
  {
    if ps != [] {
      PostAllBacked(cfg, s, ps[..|ps| - 1]);
      PostAllKeeps(cfg, s, ps[..|ps| - 1]);
      if PostAll(cfg, s, ps[..|ps| - 1]).Ok? {
        PostBacked(cfg, PostAll(cfg, s, ps[..|ps| - 1]).value, ps[|ps| - 1]);
      }
    }
  }

  lemma FineOneBacked(cfg: Config, s: State, branch: nat, o: nat, asOf: int)
    requires Backed(s) && ChargesOk(s) && o < |s.charges|
    ensures FineOne(cfg, s, branch, o, asOf).Ok? ==> Backed(FineOne(cfg, s, branch, o, asOf).value)
  {
    PostBacked(cfg, s, FinePosting(cfg, s, branch, o, asOf));
    var existing := FindKey(s.charges, None, LateFine, FineKey(o));
    var r := FineOne(cfg, s, branch, o, asOf);
    if r.Ok? && existing.Some? {
      forall c | 0 <= c < |r.value.charges| ensures BackedCharge(r.value, r.value.charges[c]) {
        var ch, now := s.charges[c], r.value.charges[c];
        assert BackedCharge(s, ch) && ChargeOk(ch);
        if now.amount > 0 && ch.amount != now.amount {
          TotalMonotone(s.concessions, ch.student, ch.head, ch.year, ch.amount, now.amount);
        }
      }
    }
  }

  lemma {:induction false} FineAllBacked(cfg: Config, s: State, branch: nat, ids: seq<nat>, asOf: int)
    requires Backed(s) && ChargesOk(s) && OneLivePerKey(s) && Ids(s, ids)
    ensures FineAll(cfg, s, branch, ids, asOf).Ok? ==> Backed(FineAll(cfg, s, branch, ids, asOf).value)
  {
    if ids != [] {
      FineAllBacked(cfg, s, branch, ids[..|ids| - 1], asOf);
      FineAllKeeps(cfg, s, branch, ids[..|ids| - 1], asOf);
      if FineAll(cfg, s, branch, ids[..|ids| - 1], asOf).Ok? {
        FineOneBacked(cfg, FineAll(cfg, s, branch, ids[..|ids| - 1], asOf).value, branch, ids[|ids| - 1], asOf);
      }
    }
  }

  lemma DecideBacked(s: State, i: nat, approve: bool)
    requires Backed(s) && ChargesOk(s) && i < |s.concessions| && s.concessions[i].status == Pending
    ensures Backed(DecideConcession(s, i, approve).value)
  {
    var c := s.concessions[i];
    var status := if approve then Approved else Rejected;
    var t := s.(concessions := s.concessions[i := c.(status := status)]);
    forall k | 0 <= k < |t.charges| ensures BackedCharge(t, t.charges[k]) {
      var ch := s.charges[k];
      assert BackedCharge(s, ch);
      if ch.amount >= 0 {
        DecidingAdds(s.concessions, i, status, ch.student, ch.head, ch.year, ch.amount);
      }
    }
    RecomputeBacked(t, c.student, c.head, Some(c.year));
  }

  lemma {:induction false} RequestBacked(s: State, c: Concession)
    requires Backed(s)
    ensures Backed(s.(concessions := s.concessions + [c.(status := Pending)]))
  {
    var t := s.(concessions := s.concessions + [c.(status := Pending)]);
    forall k | 0 <= k < |t.charges| ensures BackedCharge(t, t.charges[k]) {
      assert BackedCharge(s, s.charges[k]);
      assert t.concessions[..|s.concessions|] == s.concessions;
    }
  }

  /** Cancelling charges leaves the rest as they were. */
  lemma FewerBacked(s: State, t: State)
    requires Backed(s) && t.concessions == s.concessions && |t.charges| == |s.charges|
    requires forall i :: 0 <= i < |s.charges| ==>
               t.charges[i] == s.charges[i] || t.charges[i].cancelled
    ensures Backed(t)
  {
    forall k | 0 <= k < |t.charges| ensures BackedCharge(t, t.charges[k]) {
      assert BackedCharge(s, s.charges[k]);
    }
  }

  lemma StepBacked(cfg: Config, s: State, op: Op)
    requires Backed(s) && ChargesOk(s) && OneLivePerKey(s)
    ensures Backed(Step(cfg, s, op))
  {
    match op
    case OpPost(p) => PostBacked(cfg, s, p);
    case OpBillPlan(plan, es) => PostAllBacked(cfg, s, PlanPostings(plan, es));
    case OpBillEnrollment(plans, e) => PostAllBacked(cfg, s, EnrolPostings(plans, e));
    case OpCancelFuture(student, source, prefix, from) => FewerBacked(s, CancelFuture(s, student, source, prefix, from));
    case OpCancelCharge(c) =>
      if Live(s, c) {
        var ch := s.charges[c];
        var t := s.(charges := s.charges[c := ch.(cancelled := true)]);
        FewerBacked(s, t);
        RecomputeBacked(t, ch.student, ch.head, ch.year);
      }
    case OpRequestConcession(c) => RequestBacked(s, c);
    case OpDecideConcession(i, approve) =>
      if i < |s.concessions| && s.concessions[i].status == Pending {
        DecideBacked(s, i, approve);
      }
    case OpLateFines(branch, asOf) => FineAllBacked(cfg, s, branch, OverdueCharges(cfg, s, branch), asOf);
    case _ => FewerBacked(s, Step(cfg, s, op));
  }

  /** No discount ever exceeds what the approved concessions allow on that charge. */
  lemma {:induction false} DiscountsAreBacked(cfg: Config, ops: seq<Op>)
    ensures Backed(Run(cfg, EMPTY, ops))
  {
    if ops != [] {
      DiscountsAreBacked(cfg, ops[..|ops| - 1]);
      RunKeepsInv(cfg, ops[..|ops| - 1]);
      StepBacked(cfg, Run(cfg, EMPTY, ops[..|ops| - 1]), ops[|ops| - 1]);
    }
  }

  // ------------------------------------------------------------------ a second run on the same date

  /** Nothing but a fine becomes due: what was settled stays settled. */
  predicate NothingReopened(s: State, t: State) {
    |s.charges| <= |t.charges| && t.receipts == s.receipts
    && (forall i :: |s.charges| <= i < |t.charges| ==> t.charges[i].source == LateFine)
    && forall i :: 0 <= i < |s.charges| ==>
         SameCharge(s.charges[i], t.charges[i])
         && (s.charges[i].source != LateFine && Live(t, i) && Outstanding(t, i) > 0 ==> Live(s, i) && Outstanding(s, i) > 0)
  }

  lemma RecomputeReopensNothing(s: State, student: nat, head: nat, year: Option<nat>)
    requires Backed(s) && ChargesOk(s)
    ensures NothingReopened(s, Recompute(s, student, head, year))
  {
    var t := Recompute(s, student, head, year);
    forall i | 0 <= i < |s.charges| && Live(t, i) && Outstanding(t, i) > 0 ensures Outstanding(s, i) > 0 {
      assert BackedCharge(s, s.charges[i]);
    }
  }

  lemma AppendReopensNothing(s: State, ch: Charge)
    requires Backed(s.(charges := s.charges + [ch])) && ChargesOk(s.(charges := s.charges + [ch])) && ch.source == LateFine
    ensures NothingReopened(s, Recompute(s.(charges := s.charges + [ch]), ch.student, ch.head, ch.year))
  {
    var m := s.(charges := s.charges + [ch]);
    RecomputeReopensNothing(m, ch.student, ch.head, ch.year);
    var t := Recompute(m, ch.student, ch.head, ch.year);
    hide Recompute, Received;
    assert forall i :: 0 <= i < |s.charges| ==> m.charges[i] == s.charges[i] && Outstanding(m, i) == Outstanding(s, i);
  }

  lemma FineOneReopensNothing(cfg: Config, s: State, branch: nat, o: nat, asOf: int)
    requires Backed(s) && ChargesOk(s) && OneLivePerKey(s) && o < |s.charges| && FineOne(cfg, s, branch, o, asOf).Ok?
    ensures NothingReopened(s, FineOne(cfg, s, branch, o, asOf).value)
  {
    FineOneKeeps(cfg, s, branch, o, asOf);
    if FineRule(cfg.head(s.charges[o].head), s.charges[o].due, asOf) > 0 {
      AppendedFine(cfg, s, branch, o, asOf);
      AppendReopensNothing(s, NewCharge(cfg, FinePosting(cfg, s, branch, o, asOf)));
    }
    hide Recompute, Received, ChargesOk, OneLivePerKey, Backed;
  }

  lemma AppendedFine(cfg: Config, s: State, branch: nat, o: nat, asOf: int)
    requires Backed(s) && ChargesOk(s) && OneLivePerKey(s) && o < |s.charges|
    requires FineRule(cfg.head(s.charges[o].head), s.charges[o].due, asOf) > 0
    ensures var m := s.(charges := s.charges + [NewCharge(cfg, FinePosting(cfg, s, branch, o, asOf))]);
            Backed(m) && ChargesOk(m)
  {
    var amount := FineRule(cfg.head(s.charges[o].head), s.charges[o].due, asOf);
    Whole(amount);
    var ch := NewCharge(cfg, FinePosting(cfg, s, branch, o, asOf));
    var m := s.(charges := s.charges + [ch]);
    ConcessionTotalNonneg(s.concessions, ch.student, ch.head, ch.year, ch.amount);
    forall i | 0 <= i < |m.charges| ensures BackedCharge(m, m.charges[i]) && ChargeOk(m.charges[i]) {
      if i < |s.charges| {
        assert BackedCharge(s, s.charges[i]) && ChargeOk(s.charges[i]);
      }
    }
  }

  lemma {:induction false} FineAllReopensNothing(cfg: Config, s: State, branch: nat, ids: seq<nat>, asOf: int)
    requires Backed(s) && ChargesOk(s) && OneLivePerKey(s) && Ids(s, ids) && FineAll(cfg, s, branch, ids, asOf).Ok?
    ensures NothingReopened(s, FineAll(cfg, s, branch, ids, asOf).value)
  {
    if ids != [] {
      var init := ids[..|ids| - 1];
      FineAllReopensNothing(cfg, s, branch, init, asOf);
      FineAllKeeps(cfg, s, branch, init, asOf);
      FineAllBacked(cfg, s, branch, init, asOf);
      FineOneReopensNothing(cfg, FineAll(cfg, s, branch, init, asOf).value, branch, ids[|ids| - 1], asOf);
    }
  }

  /** A fine that already meets the rule is left alone. */
  lemma {:induction false} MetFinesAreNoOp(cfg: Config, s: State, branch: nat, ids: seq<nat>, asOf: int)
    requires Ids(s, ids)
    requires forall i :: 0 <= i < |ids| ==>
               FineAmount(s, ids[i]) >= FineRule(cfg.head(s.charges[ids[i]].head), s.charges[ids[i]].due, asOf)
    ensures FineAll(cfg, s, branch, ids, asOf) == Ok(s)
  {
    if ids != [] {
      MetFinesAreNoOp(cfg, s, branch, ids[..|ids| - 1], asOf);
    }
  }

  /** In every reachable state a second run on the same date changes nothing. */
  lemma SecondFineRunIsNoOp(cfg: Config, ops: seq<Op>, branch: nat, asOf: int)
    requires LateHeadsOk(cfg)
    ensures var once := Step(cfg, Run(cfg, EMPTY, ops), OpLateFines(branch, asOf));
            Step(cfg, once, OpLateFines(branch, asOf)) == once
  {
    var s := Run(cfg, EMPTY, ops);
    RunKeepsInv(cfg, ops);
    DiscountsAreBacked(cfg, ops);
    hide Run, Backed, ChargesOk, OneLivePerKey, LateFines;
    SecondRunFrom(cfg, s, branch, asOf);
  }

  /** What is overdue after a fine run was overdue before it. */
  lemma OverdueAgain(cfg: Config, s: State, branch: nat, asOf: int)
    requires LateHeadsOk(cfg) && Backed(s) && ChargesOk(s) && OneLivePerKey(s)
    ensures var r := LateFines(cfg, s, branch, asOf);
            r.Ok?
            && forall c :: c in OverdueCharges(cfg, r.value, branch) ==>
                 c < |s.charges| && c < |r.value.charges| && SameCharge(s.charges[c], r.value.charges[c]) && Overdue(cfg, s, branch, c)
  {
    SortedByDueCorrect(s, (x: nat) => Overdue(cfg, s, branch, x), |s.charges|);
    var ids := OverdueCharges(cfg, s, branch);
    assert forall i :: 0 <= i < |ids| ==> ids[i] in ids;
    FinesAccepted(cfg, s, branch, ids, asOf);
    var t := LateFines(cfg, s, branch, asOf).value;
    FineAllReopensNothing(cfg, s, branch, ids, asOf);
    SortedByDueCorrect(t, (x: nat) => Overdue(cfg, t, branch, x), |t.charges|);
  }

  lemma SecondRunFrom(cfg: Config, s: State, branch: nat, asOf: int)
    requires LateHeadsOk(cfg) && Backed(s) && ChargesOk(s) && OneLivePerKey(s)
    ensures var t := LateFines(cfg, s, branch, asOf);
            t.Ok? && LateFines(cfg, t.value, branch, asOf) == t
  {
    OverdueAgain(cfg, s, branch, asOf);
    var t := LateFines(cfg, s, branch, asOf).value;
    var again := OverdueCharges(cfg, t, branch);
    hide Overdue, OverdueCharges, Backed, ChargesOk, OneLivePerKey;
    forall i | 0 <= i < |again|
      ensures FineAmount(t, again[i]) >= FineRule(cfg.head(t.charges[again[i]].head), t.charges[again[i]].due, asOf)
    {
      var c := again[i];
      assert c in again;
      RunEffect(cfg, s, branch, asOf, c);
    }
    MetFinesAreNoOp(cfg, t, branch, again, asOf);
  }
}
