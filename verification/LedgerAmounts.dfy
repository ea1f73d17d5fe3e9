/** The amounts, dates and refusals of charges posted and cancelled, and of late fines (apps/fees/services.py). */
module LedgerAmounts {
  import opened Wrappers
  import opened Rounding
  import opened LedgerModel
  import opened LedgerInvariants
  import opened LedgerBilling
  import opened LedgerSums
  import opened LedgerConcessions

  // ------------------------------------------------------------------ posting

  /** The charge asked for, in paise, without a discount yet; without a year, that of its due date. */
  predicate AsAsked(cfg: Config, p: Posting, ch: Charge) {
    ch.student == p.student && ch.head == p.head && ch.due == p.due && ch.source == p.source && ch.sourceId == p.sourceId
    && ch.parent == p.parent && ch.year == (if p.year.Some? then p.year else cfg.yearOf(p.due))
    && IsPaise(p.amount, ch.amount) && !ch.cancelled
  }

  predicate IsLiveUnder(ch: Charge, student: nat, source: Source, key: string) {
    !ch.cancelled && ch.student == student && ch.source == source && ch.sourceId == key
  }

  /**
   A posting is refused exactly for a head of another branch, or a negative amount that is no manual
   adjustment.
   */
  lemma PostRefusedExactly(cfg: Config, s: State, p: Posting, amount: int)
    requires IsPaise(p.amount, amount)
    ensures PostCharge(cfg, s, p).Conflict? <==> cfg.head(p.head).branch != cfg.branchOf(p.student) || (amount < 0 && p.source != Manual)
  {
    NearestPaise(p.amount, amount);
    hide IsPaise, Hundredths, FindKey, Recompute;
  }

  /**
   A key that is live already is answered with its charge and changes nothing. Otherwise the charge
   asked for is added, and its account gets the discounts its concessions give, the new charge included.
   */
  lemma PostAddsWhatIsAsked(cfg: Config, s: State, p: Posting)
    requires PostCharge(cfg, s, p).Ok?
    ensures var t, c := PostCharge(cfg, s, p).value.0, PostCharge(cfg, s, p).value.1;
            if p.sourceId != "" && exists i :: 0 <= i < |s.charges| && IsLiveUnder(s.charges[i], p.student, p.source, p.sourceId)
            then t == s && c < |s.charges| && IsLiveUnder(s.charges[c], p.student, p.source, p.sourceId)
            else
              c == |s.charges| && |t.charges| == c + 1 && AsAsked(cfg, p, t.charges[c])
              && var added := s.(charges := s.charges + [t.charges[c].(discount := 0)]);
                 AccountDiscounted(added, t, t.charges[c].student, t.charges[c].head, t.charges[c].year)
  {
    var t, c := PostCharge(cfg, s, p).value.0, PostCharge(cfg, s, p).value.1;
    NearestPaise(p.amount, Hundredths(p.amount));
    var ch := NewCharge(cfg, p);
    RecomputeDiscounts(s.(charges := s.charges + [ch]), ch.student, ch.head, ch.year);
    var found := FindKey(s.charges, Some(p.student), p.source, p.sourceId);
    assert found.None? ==> forall i :: 0 <= i < |s.charges| ==> !IsLiveUnder(s.charges[i], p.student, p.source, p.sourceId);
    hide IsPaise, Hundredths, FindKey, Recompute, DiscountIs;
  }

  // ------------------------------------------------------------------ cancelling a charge

  /**
   Cancelling is refused exactly on a live charge that live receipts have lines on. Otherwise the charge
   ends up cancelled, and the rest of its account gets the discounts its concessions give.
   */
  lemma CancelledChargeExactly(s: State, c: nat)
    requires c < |s.charges|
    ensures CancelCharge(s, c).Conflict? <==> !s.charges[c].cancelled && TakenOn(s.receipts, c) > 0
    ensures CancelCharge(s, c).Ok? ==>
              var t, ch := CancelCharge(s, c).value, s.charges[c];
              c < |t.charges| && t.charges[c].cancelled
              && if ch.cancelled then t == s
                 else AccountDiscounted(s.(charges := s.charges[c := ch.(cancelled := true)]), t, ch.student, ch.head, ch.year)
  {
    ReceiptsAddUp(s.receipts, c);
    var ch := s.charges[c];
    RecomputeDiscounts(s.(charges := s.charges[c := ch.(cancelled := true)]), ch.student, ch.head, ch.year);
    hide TakenOn, Received, DiscountIs;
  }

  /**
   Future charges of a source are cancelled exactly where they are live, the student's, under a key with
   the prefix, due on the day or later, and without lines of live receipts; nothing else moves.
   */
  lemma FutureCancelledExactly(s: State, student: nat, source: Source, prefix: string, from: int)
    ensures var t := CancelFuture(s, student, source, prefix, from);
            t == s.(charges := t.charges) && |t.charges| == |s.charges|
            && forall c :: 0 <= c < |s.charges| ==>
                 var ch := s.charges[c];
                 t.charges[c] == if !ch.cancelled && ch.student == student && ch.source == source && prefix <= ch.sourceId
                                    && ch.due >= from && TakenOn(s.receipts, c) <= 0
                                 then ch.(cancelled := true) else ch
  {
    forall c | 0 <= c < |s.charges| ensures Received(s.receipts, c) == TakenOn(s.receipts, c) {
      ReceiptsAddUp(s.receipts, c);
    }
    hide Received, TakenOn;
  }

  // ------------------------------------------------------------------ plans

  /** One instalment of a plan for one enrolment: due on its date, for its amount, on the plan's head and year. */
  predicate IsInstalment(plan: FeePlan, e: Enrollment, inst: Instalment, p: Posting) {
    p.student == e.student && p.head == plan.head && p.amount == inst.amount && p.due == inst.due
    && p.source == Plan && p.sourceId == InstalmentKey(inst.pk) && p.year == Some(plan.year) && p.parent.None?
  }

  /** An enrolment in the plan's year and program and, if the plan is for one term, in that term. */
  predicate Matches(plan: FeePlan, e: Enrollment) {
    e.branch == plan.branch && e.year == plan.year && e.program == plan.program && (plan.term.Some? ==> e.term == plan.term)
  }

  lemma EnrollmentPosts(plan: FeePlan, e: Enrollment, p: Posting)
    ensures p in EnrollmentPostings(plan, e)
       <==> PlanApplies(plan, e) && exists k :: 0 <= k < |plan.instalments| && IsInstalment(plan, e, plan.instalments[k], p)
  {
    hide InstalmentKey;
    if PlanApplies(plan, e) {
      var ps := EnrollmentPostings(plan, e);
      forall k | 0 <= k < |plan.instalments| ensures IsInstalment(plan, e, plan.instalments[k], p) <==> ps[k] == p {
      }
    }
  }

  predicate BilledBy(plan: FeePlan, es: seq<Enrollment>, p: Posting) {
    exists i, k :: 0 <= i < |es| && 0 <= k < |plan.instalments| && es[i].active && Matches(plan, es[i])
                   && IsInstalment(plan, es[i], plan.instalments[k], p)
  }

  /** A plan run posts every instalment for every active enrolment that matches, and nothing else. */
  lemma {:induction false} PlanPostsExactly(plan: FeePlan, es: seq<Enrollment>, p: Posting)
    ensures p in PlanPostings(plan, es) <==> BilledBy(plan, es, p)
  {
    hide EnrollmentPostings, IsInstalment;
    if es != [] {
      var n := |es| - 1;
      PlanPostsExactly(plan, es[..n], p);
      EnrollmentPosts(plan, es[n], p);
      assert forall i :: 0 <= i < n ==> es[..n][i] == es[i];
    }
  }

  predicate BilledFor(plans: seq<FeePlan>, e: Enrollment, p: Posting) {
    exists i, k :: 0 <= i < |plans| && 0 <= k < |plans[i].instalments| && Matches(plans[i], e)
                   && IsInstalment(plans[i], e, plans[i].instalments[k], p)
  }

  /** Billing an enrolment posts every instalment of every plan that it matches, and nothing else. */
  lemma {:induction false} EnrolPostsExactly(plans: seq<FeePlan>, e: Enrollment, p: Posting)
    ensures p in EnrolPostings(plans, e) <==> BilledFor(plans, e, p)
  {
    hide EnrollmentPostings, IsInstalment;
    if plans != [] {
      var n := |plans| - 1;
      EnrolPostsExactly(plans[..n], e, p);
      EnrollmentPosts(plans[n], e, p);
      assert forall i :: 0 <= i < n ==> plans[..n][i] == plans[i];
    }
  }

  // ------------------------------------------------------------------ a billing charges what is planned

  predicate SameKeySamePosting(ps: seq<Posting>) {
    forall i, j ::
      (0 <= i < |ps| && 0 <= j < |ps| && ps[i].student == ps[j].student && ps[i].source == ps[j].source && ps[i].sourceId == ps[j].sourceId)
      ==> ps[i] == ps[j]
  }

  /** Under the key of p there is no live charge, or the one asked for. */
  ghost predicate AskedOrNone(cfg: Config, s: State, p: Posting) {
    forall i :: 0 <= i < |s.charges| && IsLiveUnder(s.charges[i], p.student, p.source, p.sourceId) ==> AsAsked(cfg, p, s.charges[i])
  }

  lemma PostKeepsAsked(cfg: Config, s: State, q: Posting, p: Posting)
    requires PostCharge(cfg, s, q).Ok? && AskedOrNone(cfg, s, p)
    requires q.student == p.student && q.source == p.source && q.sourceId == p.sourceId ==> q == p
    ensures AskedOrNone(cfg, PostCharge(cfg, s, q).value.0, p)
  {
    PostAddsWhatIsAsked(cfg, s, q);
    hide PostCharge, DiscountIs, IsPaise;
  }

  lemma {:induction false} BatchKeepsAsked(cfg: Config, s: State, ps: seq<Posting>, p: Posting)
    requires PostAll(cfg, s, ps).Ok? && AskedOrNone(cfg, s, p)
    requires forall i :: 0 <= i < |ps| && ps[i].student == p.student && ps[i].source == p.source && ps[i].sourceId == p.sourceId ==> ps[i] == p
    ensures AskedOrNone(cfg, PostAll(cfg, s, ps).value, p)
  {
    hide AskedOrNone, PostCharge;
    if ps != [] {
      var n := |ps| - 1;
      BatchKeepsAsked(cfg, s, ps[..n], p);
      PostKeepsAsked(cfg, PostAll(cfg, s, ps[..n]).value, ps[n], p);
    }
  }

  /**
   After a plan run or an enrolment billing, every instalment it posts under a key that was free has
   its charge: the instalment's amount to the paise, on its date, head and year.
   */
  lemma BillingChargesAsPlanned(cfg: Config, s: State, op: Op, p: Posting)
    requires Billing(op) && p in PostingsOf(op) && SameKeySamePosting(PostingsOf(op)) && Attempt(cfg, s, op).Ok?
    requires forall i :: 0 <= i < |s.charges| ==> !IsLiveUnder(s.charges[i], p.student, p.source, p.sourceId)
    ensures var t := Attempt(cfg, s, op).value;
            exists c :: 0 <= c < |t.charges| && IsLiveUnder(t.charges[c], p.student, p.source, p.sourceId) && AsAsked(cfg, p, t.charges[c])
  {
    var t := Attempt(cfg, s, op).value;
    BatchKeepsAsked(cfg, s, PostingsOf(op), p);
    AllKeyed(op);
    BatchPosted(cfg, s, PostingsOf(op));
    var c := FindKey(t.charges, Some(p.student), p.source, p.sourceId).value;
    assert IsLiveUnder(t.charges[c], p.student, p.source, p.sourceId);
  }

  lemma AllKeyed(op: Op)
    requires Billing(op)
    ensures forall i :: 0 <= i < |PostingsOf(op)| ==> PostingsOf(op)[i].sourceId != ""
  {
    match op
    case OpBillPlan(plan, es) => PlanKeyed(plan, es);
    case OpBillEnrollment(plans, e) => EnrolKeyed(plans, e);
    case _ =>
  }

  // ------------------------------------------------------------------ late fines

  /**
   No fine up to the last grace day or without a rule; a flat fine is the same on every later day; a
   daily fine is one day's on the first, and grows by one day's on each.
   */
  lemma FineByDay(head: Head, due: int, asOf: int)
    ensures head.fineMode == NoFine || asOf <= due + head.graceDays ==> FineRule(head, due, asOf) == 0
    ensures head.fineMode != NoFine ==> FineRule(head, due, due + head.graceDays + 1) == head.fineAmount
    ensures asOf > due + head.graceDays ==>
              FineRule(head, due, asOf + 1) - FineRule(head, due, asOf) == if head.fineMode == PerDay then head.fineAmount else 0
  {
  }

  /** A fine run looks at the branch's live charges that are no fines, have a rule and are not settled. */
  lemma OverdueExactly(cfg: Config, s: State, branch: nat, c: nat)
    ensures Overdue(cfg, s, branch, c)
       <==> c < |s.charges|
            && var ch := s.charges[c];
               !ch.cancelled && cfg.branchOf(ch.student) == branch && ch.parent.None? && ch.source != LateFine
               && cfg.head(ch.head).fineMode != NoFine && ch.amount - ch.discount - TakenOn(s.receipts, c) > 0
  {
    ReceiptsAddUp(s.receipts, c);
    hide TakenOn, Received;
  }

  /** A first fine is charged for the rule's amount, to the charge's student and year, due on the day of the run. */
  lemma FirstFineAsRuled(cfg: Config, s: State, branch: nat, c: nat, asOf: int)
    requires c < |s.charges| && FineRule(cfg.head(s.charges[c].head), s.charges[c].due, asOf) > 0
    requires FindKey(s.charges, None, LateFine, FineKey(c)).None? && FineOne(cfg, s, branch, c, asOf).Ok?
    ensures var t, ch, n := FineOne(cfg, s, branch, c, asOf).value, s.charges[c], |s.charges|;
            |t.charges| == n + 1
            && var fine := t.charges[n];
               fine.student == ch.student && fine.head == cfg.lateHead(branch) && fine.due == asOf && fine.parent == Some(c)
               && fine.source == LateFine && fine.sourceId == FineKey(c) && !fine.cancelled
               && fine.amount == FineRule(cfg.head(ch.head), ch.due, asOf) && (ch.year.Some? ==> fine.year == ch.year)
  {
    var amount, p := FineRule(cfg.head(s.charges[c].head), s.charges[c].due, asOf), FinePosting(cfg, s, branch, c, asOf);
    PostAddsWhatIsAsked(cfg, s, p);
    assert p.amount == amount as real / 100.0;
    WholePaise(amount);
    NearestPaise(p.amount, PostCharge(cfg, s, p).value.0.charges[|s.charges|].amount);
    hide DiscountIs, FineRule, IsPaise, Hundredths, FineKey, AccountDiscounted;
  }
}
