/**
 Billing again is a no-op: source keys make posting idempotent, so plans and enrolments can
 be billed any number of times and each instalment has exactly one live charge.
 */
module LedgerBilling {
  import opened Wrappers
  import opened Text
  import opened LedgerModel
  import opened LedgerInvariants

  function CountLive(charges: seq<Charge>, student: nat, source: Source, sourceId: string): nat {
    if charges == [] then 0
    else
      var last := charges[|charges| - 1];
      CountLive(charges[..|charges| - 1], student, source, sourceId)
      + (if HasKey(last, source, sourceId) && last.student == student then 1 else 0)
  }

  lemma {:induction false} NoneCounted(charges: seq<Charge>, student: nat, source: Source, sourceId: string)
    requires forall i :: 0 <= i < |charges| && HasKey(charges[i], source, sourceId) ==> charges[i].student != student
    ensures CountLive(charges, student, source, sourceId) == 0
  {
    if charges != [] {
      NoneCounted(charges[..|charges| - 1], student, source, sourceId);
    }
  }

  /** At most one live charge per student and non-empty source key. */
  lemma {:induction false} AtMostOneLive(s: State, n: nat, student: nat, source: Source, sourceId: string)
    requires OneLivePerKey(s) && sourceId != "" && n <= |s.charges|
    ensures CountLive(s.charges[..n], student, source, sourceId) <= 1
    ensures CountLive(s.charges[..n], student, source, sourceId) == 1
       <==> FindKey(s.charges[..n], Some(student), source, sourceId).Some?
  {
    if n > 0 {
      var cs, last := s.charges[..n], s.charges[n - 1];
      assert cs[..n - 1] == s.charges[..n - 1];
      AtMostOneLive(s, n - 1, student, source, sourceId);
      if HasKey(last, source, sourceId) && last.student == student {
        forall i | 0 <= i < n - 1 && HasKey(s.charges[i], source, sourceId) ensures s.charges[i].student != student {
          assert s.charges[i].student == student ==> SameKey(s.charges[i], s.charges[n - 1]);
        }
        NoneCounted(s.charges[..n - 1], student, source, sourceId);
      }
    }
  }

  predicate Posted(s: State, p: Posting) {
    FindKey(s.charges, Some(p.student), p.source, p.sourceId).Some?
  }

  /** Posting under a key leaves a live charge there, and posting it again changes nothing. */
  lemma PostIsIdempotent(cfg: Config, s: State, p: Posting)
    requires p.sourceId != ""
    ensures var r := PostCharge(cfg, s, p);
            r.Ok? ==>
              var t := r.value.0;
              Posted(t, p) && PostCharge(cfg, t, p) == Ok((t, FindKey(t.charges, Some(p.student), p.source, p.sourceId).value))
  {
    var r := PostCharge(cfg, s, p);
    if r.Ok? && r.value.0 != s {
      assert HasKey(r.value.0.charges[|s.charges|], p.source, p.sourceId);
    }
  }

  lemma PostKeepsPosted(cfg: Config, s: State, p: Posting, q: Posting)
    requires Posted(s, q) && PostCharge(cfg, s, p).Ok?
    ensures Posted(PostCharge(cfg, s, p).value.0, q)
  {
    var i := FindKey(s.charges, Some(q.student), q.source, q.sourceId).value;
    assert HasKey(PostCharge(cfg, s, p).value.0.charges[i], q.source, q.sourceId);
  }

  /** After a batch every one of its keys is live. */
  lemma {:induction false} BatchPosted(cfg: Config, s: State, ps: seq<Posting>)
    requires forall i :: 0 <= i < |ps| ==> ps[i].sourceId != ""
    requires PostAll(cfg, s, ps).Ok?
    ensures forall i :: 0 <= i < |ps| ==> Posted(PostAll(cfg, s, ps).value, ps[i])
  {
    if ps != [] {
      var n := |ps| - 1;
      BatchPosted(cfg, s, ps[..n]);
      var m := PostAll(cfg, s, ps[..n]).value;
      PostIsIdempotent(cfg, m, ps[n]);
      forall i | 0 <= i < n ensures Posted(PostAll(cfg, s, ps).value, ps[i]) {
        assert ps[..n][i] == ps[i];
        PostKeepsPosted(cfg, m, ps[n], ps[i]);
      }
    }
  }

  lemma {:induction false} PostedBatchIsNoOp(cfg: Config, s: State, ps: seq<Posting>)
    requires forall i :: 0 <= i < |ps| ==> ps[i].sourceId != "" && Posted(s, ps[i]) && PostCharge(cfg, s, ps[i]).Ok?
    ensures PostAll(cfg, s, ps) == Ok(s)
  {
    if ps != [] {
      PostedBatchIsNoOp(cfg, s, ps[..|ps| - 1]);
    }
  }

  /** Whether a posting is refused depends on the posting alone. */
  lemma {:induction false} BatchAccepted(cfg: Config, s: State, ps: seq<Posting>, t: State)
    requires PostAll(cfg, s, ps).Ok?
    ensures forall i :: 0 <= i < |ps| ==> PostCharge(cfg, t, ps[i]).Ok?
  {
    if ps != [] {
      BatchAccepted(cfg, s, ps[..|ps| - 1], t);
      assert forall i :: 0 <= i < |ps| - 1 ==> ps[..|ps| - 1][i] == ps[i];
    }
  }

  lemma BatchTwice(cfg: Config, s: State, ps: seq<Posting>)
    requires forall i :: 0 <= i < |ps| ==> ps[i].sourceId != ""
    ensures PostAll(cfg, s, ps).Ok? ==> PostAll(cfg, PostAll(cfg, s, ps).value, ps) == PostAll(cfg, s, ps)
  {
    if PostAll(cfg, s, ps).Ok? {
      BatchPosted(cfg, s, ps);
      BatchAccepted(cfg, s, ps, PostAll(cfg, s, ps).value);
      PostedBatchIsNoOp(cfg, PostAll(cfg, s, ps).value, ps);
    }
  }

  // ------------------------------------------------------------------ plans and enrolments

  lemma EnrollmentKeyed(plan: FeePlan, e: Enrollment)
    ensures forall i :: 0 <= i < |EnrollmentPostings(plan, e)| ==> EnrollmentPostings(plan, e)[i].sourceId != ""
  {
  }

  lemma {:induction false} PlanKeyed(plan: FeePlan, es: seq<Enrollment>)
    ensures forall i :: 0 <= i < |PlanPostings(plan, es)| ==> PlanPostings(plan, es)[i].sourceId != ""
    ensures forall e, k :: e in es && Billed(plan, e) && 0 <= k < |plan.instalments|
              ==> InstalmentPosting(plan, e, plan.instalments[k]) in PlanPostings(plan, es)
  {
    if es != [] {
      var last := es[|es| - 1];
      PlanKeyed(plan, es[..|es| - 1]);
      EnrollmentKeyed(plan, last);
      assert es == es[..|es| - 1] + [last];
      forall k | Billed(plan, last) && 0 <= k < |plan.instalments|
        ensures InstalmentPosting(plan, last, plan.instalments[k]) in PlanPostings(plan, es)
      {
        assert EnrollmentPostings(plan, last)[k] == InstalmentPosting(plan, last, plan.instalments[k]);
      }
    }
  }

  /** A plan that billing an enrolment posts: its branch, year, program and, if it has one, term. */
  predicate Enrolled(plan: FeePlan, e: Enrollment) {
    plan.branch == e.branch && PlanApplies(plan, e)
  }

  lemma {:induction false} EnrolKeyed(plans: seq<FeePlan>, e: Enrollment)
    ensures forall i :: 0 <= i < |EnrolPostings(plans, e)| ==> EnrolPostings(plans, e)[i].sourceId != ""
    ensures forall plan, k :: plan in plans && Enrolled(plan, e) && 0 <= k < |plan.instalments|
              ==> InstalmentPosting(plan, e, plan.instalments[k]) in EnrolPostings(plans, e)
  {
    if plans != [] {
      var last := plans[|plans| - 1];
      EnrolKeyed(plans[..|plans| - 1], e);
      EnrollmentKeyed(last, e);
      assert plans == plans[..|plans| - 1] + [last];
      forall k | Enrolled(last, e) && 0 <= k < |last.instalments|
        ensures InstalmentPosting(last, e, last.instalments[k]) in EnrolPostings(plans, e)
      {
        assert EnrollmentPostings(last, e)[k] == InstalmentPosting(last, e, last.instalments[k]);
      }
    }
  }

  /** Running a plan, or billing an enrolment, a second time leaves the ledger exactly as it was. */
  lemma BillingAgainIsNoOp(cfg: Config, s: State, op: Op)
    requires op.OpBillPlan? || op.OpBillEnrollment?
    ensures Step(cfg, Step(cfg, s, op), op) == Step(cfg, s, op)
  {
    match op
    case OpBillPlan(plan, es) =>
      PlanKeyed(plan, es);
      BatchTwice(cfg, s, PlanPostings(plan, es));
    case OpBillEnrollment(plans, e) =>
      EnrolKeyed(plans, e);
      BatchTwice(cfg, s, EnrolPostings(plans, e));
  }

  predicate Billing(op: Op) {
    op.OpBillPlan? || op.OpBillEnrollment?
  }

  /** The plan run or enrolment billing covers this instalment of this student. */
  predicate CoversInstalment(op: Op, plan: FeePlan, e: Enrollment, k: nat) {
    k < |plan.instalments|
    && match op
       case OpBillPlan(p, es) => p == plan && e in es && Billed(plan, e)
       case OpBillEnrollment(plans, f) => f == e && plan in plans && Enrolled(plan, e)
       case _ => false
  }

  function PostingsOf(op: Op): seq<Posting>
    requires Billing(op)
  {
    match op
    case OpBillPlan(plan, es) => PlanPostings(plan, es)
    case OpBillEnrollment(plans, e) => EnrolPostings(plans, e)
  }

  function LiveInstalments(s: State, plan: FeePlan, e: Enrollment, k: nat): nat
    requires k < |plan.instalments|
  {
    CountLive(s.charges, e.student, Plan, InstalmentKey(plan.instalments[k].pk))
  }

  lemma CoveredPosting(op: Op, plan: FeePlan, e: Enrollment, k: nat)
    requires CoversInstalment(op, plan, e, k)
    ensures Billing(op) && InstalmentPosting(plan, e, plan.instalments[k]) in PostingsOf(op)
    ensures forall i :: 0 <= i < |PostingsOf(op)| ==> PostingsOf(op)[i].sourceId != ""
  {
    match op
    case OpBillPlan(p, es) => PlanKeyed(p, es);
    case OpBillEnrollment(plans, f) => EnrolKeyed(plans, f);
  }

  lemma PostedIsOne(s: State, p: Posting)
    requires OneLivePerKey(s) && p.sourceId != "" && Posted(s, p)
    ensures CountLive(s.charges, p.student, p.source, p.sourceId) == 1
  {
    assert s.charges[..|s.charges|] == s.charges;
    AtMostOneLive(s, |s.charges|, p.student, p.source, p.sourceId);
  }

  /**
   Whatever happened before, once a plan has been run or an enrolment billed, every covered student
   has exactly one live charge for each instalment of each plan that covers the enrolment.
   */
  lemma ExactlyOneChargePerInstalment(cfg: Config, ops: seq<Op>, op: Op, plan: FeePlan, e: Enrollment, k: nat)
    requires CoversInstalment(op, plan, e, k)
    ensures var r := Attempt(cfg, Run(cfg, EMPTY, ops), op);
            r.Ok? ==> LiveInstalments(r.value, plan, e, k) == 1
  {
    var s := Run(cfg, EMPTY, ops);
    var r := Attempt(cfg, s, op);
    if r.Ok? {
      RunKeepsInv(cfg, ops);
      StepKeepsInv(cfg, s, op);
      CoveredPosting(op, plan, e, k);
      BatchPosted(cfg, s, PostingsOf(op));
      var p := InstalmentPosting(plan, e, plan.instalments[k]);
      assert p in PostingsOf(op) && Posted(r.value, p);
      PostedIsOne(r.value, p);
    }
  }

  lemma {:induction false} BatchKeepsPosted(cfg: Config, s: State, ps: seq<Posting>, q: Posting)
    requires Posted(s, q)
    ensures PostAll(cfg, s, ps).Ok? ==> Posted(PostAll(cfg, s, ps).value, q)
  {
    if ps != [] && PostAll(cfg, s, ps).Ok? {
      BatchKeepsPosted(cfg, s, ps[..|ps| - 1], q);
      PostKeepsPosted(cfg, PostAll(cfg, s, ps[..|ps| - 1]).value, ps[|ps| - 1], q);
    }
  }

  /** A live charge under a key outlives any number of plan runs and enrolment billings. */
  lemma {:induction false} BillingsKeepPosted(cfg: Config, s: State, ops: seq<Op>, p: Posting)
    requires Inv(s) && Posted(s, p) && forall op :: op in ops ==> Billing(op)
    ensures Inv(Run(cfg, s, ops)) && Posted(Run(cfg, s, ops), p)
  {
    if ops != [] {
      var front, op := ops[..|ops| - 1], ops[|ops| - 1];
      assert ops == front + [op];
      BillingsKeepPosted(cfg, s, front, p);
      StepKeepsInv(cfg, Run(cfg, s, front), op);
      BatchKeepsPosted(cfg, Run(cfg, s, front), PostingsOf(op), p);
    }
  }

  /** After the first billing that covers it and any number of plan runs and billings since, there is still exactly one. */
  lemma BillingsKeepExactlyOne(cfg: Config, ops: seq<Op>, op: Op, more: seq<Op>, plan: FeePlan, e: Enrollment, k: nat)
    requires CoversInstalment(op, plan, e, k) && forall o :: o in more ==> Billing(o)
    ensures var r := Attempt(cfg, Run(cfg, EMPTY, ops), op);
            r.Ok? ==> LiveInstalments(Run(cfg, r.value, more), plan, e, k) == 1
  {
    var s := Run(cfg, EMPTY, ops);
    var r := Attempt(cfg, s, op);
    if r.Ok? {
      RunKeepsInv(cfg, ops);
      StepKeepsInv(cfg, s, op);
      CoveredPosting(op, plan, e, k);
      BatchPosted(cfg, s, PostingsOf(op));
      var p := InstalmentPosting(plan, e, plan.instalments[k]);
      assert p in PostingsOf(op) && Posted(r.value, p);
      BillingsKeepPosted(cfg, r.value, more, p);
      PostedIsOne(Run(cfg, r.value, more), p);
    }
  }

  /** Distinct instalments have distinct keys, so no instalment hides behind another's charge. */
  lemma InstalmentKeysDistinct(a: nat, b: nat)
    requires InstalmentKey(a) == InstalmentKey(b)
    ensures a == b
  {
    assert InstalmentKey(a)[5..] == Decimal(a) && InstalmentKey(b)[5..] == Decimal(b);
    DecimalInjective(a, b);
  }
}
