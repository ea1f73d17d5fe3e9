/**
 Late fines: the fine on a charge that stays unpaid depends on the latest run date alone,
 fines are never fined, and a second run on the same date changes nothing.
 */
module LedgerFines {
  import opened Wrappers
  import opened Rounding
  import opened Text
  import opened LedgerModel
  import opened LedgerInvariants
  import opened LedgerPayments

  /** The live fine on a charge, 0 when there is none. */
  function FineAmount(s: State, c: nat): int {
    var f := FindKey(s.charges, None, LateFine, FineKey(c));
    if f.Some? then s.charges[f.value].amount else 0
  }

  lemma FineKeysDistinct(a: nat, b: nat)
    requires FineKey(a) == FineKey(b)
    ensures a == b
  {
    assert FineKey(a)[7..] == Decimal(a) && FineKey(b)[7..] == Decimal(b);
    DecimalInjective(a, b);
  }

  // ------------------------------------------------------------------ the rule over dates

  /** What the rule asks for, read as no fine when it is not positive. */
  function Due(head: Head, due: int, asOf: int): nat {
    Max(0, FineRule(head, due, asOf))
  }

  /** A later run never asks for less. */
  lemma RuleGrows(head: Head, due: int, d: int, e: int)
    requires d <= e
    ensures Due(head, due, d) <= Due(head, due, e)
  {
    var a, b := d - due - head.graceDays, e - due - head.graceDays;
    if a > 0 && head.fineMode == PerDay && head.fineAmount > 0 {
      assert head.fineAmount * b >= head.fineAmount * a;
    } else if b > 0 && head.fineMode == PerDay && head.fineAmount <= 0 && a > 0 {
      assert head.fineAmount * a <= 0;
    }
  }

  // ------------------------------------------------------------------ one run

  /** Two lists of charges that agree on which of them are live fines of c, and their amounts. */
  predicate SameFines(a: seq<Charge>, b: seq<Charge>, c: nat) {
    |a| == |b|
    && forall i :: 0 <= i < |a| ==>
         (HasKey(a[i], LateFine, FineKey(c)) <==> HasKey(b[i], LateFine, FineKey(c)))
         && (HasKey(a[i], LateFine, FineKey(c)) ==> a[i].amount == b[i].amount)
  }

  lemma {:induction false} SameFinesFind(a: seq<Charge>, b: seq<Charge>, c: nat)
    requires SameFines(a, b, c)
    ensures FindKey(a, None, LateFine, FineKey(c)) == FindKey(b, None, LateFine, FineKey(c))
  {
    if a != [] {
      SameFinesFind(a[..|a| - 1], b[..|b| - 1], c);
    }
  }

  lemma FindAppend(cs: seq<Charge>, ch: Charge, c: nat)
    ensures var f := FindKey(cs, None, LateFine, FineKey(c));
            FindKey(cs + [ch], None, LateFine, FineKey(c))
            == if f.Some? then f else if HasKey(ch, LateFine, FineKey(c)) then Some(|cs|) else None
  {
    assert (cs + [ch])[..|cs|] == cs;
  }

  /** Posting under any other key leaves the fine of c alone. */
  lemma PostKeepsFine(cfg: Config, s: State, p: Posting, c: nat)
    requires p.source != LateFine || p.sourceId != FineKey(c)
    ensures PostCharge(cfg, s, p).Ok? ==> FineAmount(PostCharge(cfg, s, p).value.0, c) == FineAmount(s, c)
  {
    var r := PostCharge(cfg, s, p);
    if r.Ok? && r.value.0 != s {
      var ch := NewCharge(cfg, p);
      FindAppend(s.charges, ch, c);
      SameFinesFind(s.charges + [ch], r.value.0.charges, c);
    }
  }

  /** A fine run raises the fine on an overdue charge to what the rule asks for and touches no other. */
  lemma FineOneEffect(cfg: Config, s: State, branch: nat, o: nat, asOf: int, c: nat)
    requires ChargesOk(s) && o < |s.charges| && FineOne(cfg, s, branch, o, asOf).Ok?
    ensures var asked := Due(cfg.head(s.charges[o].head), s.charges[o].due, asOf);
            FineAmount(FineOne(cfg, s, branch, o, asOf).value, c)
            == if o == c then Max(FineAmount(s, c), asked) else FineAmount(s, c)
  {
    var amount := FineRule(cfg.head(s.charges[o].head), s.charges[o].due, asOf);
    var existing := FindKey(s.charges, None, LateFine, FineKey(o));
    var t := FineOne(cfg, s, branch, o, asOf).value;
    if FineKey(o) == FineKey(c) {
      FineKeysDistinct(o, c);
    }
    assert existing.Some? ==> ChargeOk(s.charges[existing.value]);
    if amount > 0 {
      if existing.None? {
        if o == c {
          FirstFine(cfg, s, branch, o, asOf);
        } else {
          PostKeepsFine(cfg, s, FinePosting(cfg, s, branch, o, asOf), c);
        }
      } else if amount > s.charges[existing.value].amount {
        if o == c {
          FoundStays(s.charges, t.charges, c);
        } else {
          SameFinesFind(s.charges, t.charges, c);
        }
      }
    }
  }

  lemma FirstFine(cfg: Config, s: State, branch: nat, c: nat, asOf: int)
    requires c < |s.charges| && FindKey(s.charges, None, LateFine, FineKey(c)).None?
    ensures var p := FinePosting(cfg, s, branch, c, asOf);
            PostCharge(cfg, s, p).Ok?
            ==> FineAmount(PostCharge(cfg, s, p).value.0, c) == FineRule(cfg.head(s.charges[c].head), s.charges[c].due, asOf)
  {
    var p := FinePosting(cfg, s, branch, c, asOf);
    Whole(FineRule(cfg.head(s.charges[c].head), s.charges[c].due, asOf));
    if PostCharge(cfg, s, p).Ok? {
      var ch := NewCharge(cfg, p);
      FindAppend(s.charges, ch, c);
      SameFinesFind(s.charges + [ch], PostCharge(cfg, s, p).value.0.charges, c);
    }
  }

  lemma {:induction false} FoundStays(a: seq<Charge>, b: seq<Charge>, c: nat)
    requires |a| == |b| && forall i :: 0 <= i < |a| ==> b[i] == a[i].(amount := b[i].amount)
    ensures FindKey(a, None, LateFine, FineKey(c)) == FindKey(b, None, LateFine, FineKey(c))
  {
    if a != [] {
      FoundStays(a[..|a| - 1], b[..|b| - 1], c);
    }
  }

  lemma {:induction false} FineAllEffect(cfg: Config, s: State, branch: nat, ids: seq<nat>, asOf: int, c: nat)
    requires ChargesOk(s) && OneLivePerKey(s) && Ids(s, ids) && c < |s.charges|
    requires FineAll(cfg, s, branch, ids, asOf).Ok?
    ensures var asked := Due(cfg.head(s.charges[c].head), s.charges[c].due, asOf);
            FineAmount(FineAll(cfg, s, branch, ids, asOf).value, c)
            == if c in ids then Max(FineAmount(s, c), asked) else FineAmount(s, c)
  {
    if ids != [] {
      var init, last := ids[..|ids| - 1], ids[|ids| - 1];
      assert ids == init + [last];
      FineAllEffect(cfg, s, branch, init, asOf, c);
      FineAllKeeps(cfg, s, branch, init, asOf);
      FineOneEffect(cfg, FineAll(cfg, s, branch, init, asOf).value, branch, last, asOf, c);
    }
  }

  // ------------------------------------------------------------------ any run

  function BranchOf(cfg: Config, s: State, c: nat): nat
    requires c < |s.charges|
  {
    cfg.branchOf(s.charges[c].student)
  }

  /** The charge is still unpaid at every fine run of its branch, and its fine is not withdrawn. */
  predicate Undisturbed(cfg: Config, s: State, op: Op, c: nat)
    requires c < |s.charges|
  {
    match op
    case OpLateFines(branch, asOf) => branch == BranchOf(cfg, s, c) ==> Overdue(cfg, s, branch, c)
    case OpPost(p) => p.source != LateFine
    case OpCancelFuture(student, source, prefix, from) => source != LateFine
    case OpCancelCharge(f) => f < |s.charges| ==> !HasKey(s.charges[f], LateFine, FineKey(c))
    case _ => true
  }

  /** The fee heads late fines are posted to belong to the branch (head_for_kind). */
  ghost predicate LateHeadsOk(cfg: Config) {
    forall b: nat :: cfg.head(cfg.lateHead(b)).branch == b
  }

  lemma {:induction false} FinesAccepted(cfg: Config, s: State, branch: nat, ids: seq<nat>, asOf: int)
    requires LateHeadsOk(cfg) && ChargesOk(s) && OneLivePerKey(s)
    requires Ids(s, ids) && forall i :: 0 <= i < |ids| ==> BranchOf(cfg, s, ids[i]) == branch
    ensures FineAll(cfg, s, branch, ids, asOf).Ok?
  {
    if ids != [] {
      var init, last := ids[..|ids| - 1], ids[|ids| - 1];
      FinesAccepted(cfg, s, branch, init, asOf);
      FineAllKeeps(cfg, s, branch, init, asOf);
      var m := FineAll(cfg, s, branch, init, asOf).value;
      assert SameCharge(s.charges[last], m.charges[last]);
      var amount := FineRule(cfg.head(m.charges[last].head), m.charges[last].due, asOf);
      if amount > 0 {
        Whole(amount);
      }
    }
  }

  lemma {:induction false} PostAllKeepsFine(cfg: Config, s: State, ps: seq<Posting>, c: nat)
    requires forall i :: 0 <= i < |ps| ==> ps[i].source != LateFine
    ensures PostAll(cfg, s, ps).Ok? ==> FineAmount(PostAll(cfg, s, ps).value, c) == FineAmount(s, c)
  {
    if ps != [] {
      PostAllKeepsFine(cfg, s, ps[..|ps| - 1], c);
      if PostAll(cfg, s, ps[..|ps| - 1]).Ok? {
        PostKeepsFine(cfg, PostAll(cfg, s, ps[..|ps| - 1]).value, ps[|ps| - 1], c);
      }
    }
  }

  lemma {:induction false} PlanSource(plan: FeePlan, es: seq<Enrollment>)
    ensures forall i :: 0 <= i < |PlanPostings(plan, es)| ==> PlanPostings(plan, es)[i].source == Plan
  {
    if es != [] {
      PlanSource(plan, es[..|es| - 1]);
    }
  }

  lemma {:induction false} EnrolSource(plans: seq<FeePlan>, e: Enrollment)
    ensures forall i :: 0 <= i < |EnrolPostings(plans, e)| ==> EnrolPostings(plans, e)[i].source == Plan
  {
    if plans != [] {
      EnrolSource(plans[..|plans| - 1], e);
    }
  }

  /** apply_late_fines goes through, and raises exactly the fines of the overdue charges. */
  lemma RunEffect(cfg: Config, s: State, branch: nat, asOf: int, c: nat)
    requires LateHeadsOk(cfg) && ChargesOk(s) && OneLivePerKey(s) && c < |s.charges|
    ensures LateFines(cfg, s, branch, asOf).Ok?
    ensures FineAmount(LateFines(cfg, s, branch, asOf).value, c)
            == if Overdue(cfg, s, branch, c)
               then Max(FineAmount(s, c), Due(cfg.head(s.charges[c].head), s.charges[c].due, asOf)) else FineAmount(s, c)
  {
    SortedByDueCorrect(s, (x: nat) => Overdue(cfg, s, branch, x), |s.charges|);
    var ids := OverdueCharges(cfg, s, branch);
    assert forall i :: 0 <= i < |ids| ==> ids[i] in ids;
    FinesAccepted(cfg, s, branch, ids, asOf);
    FineAllEffect(cfg, s, branch, ids, asOf, c);
  }

  /** One step of an undisturbed run moves the fine to the maximum of itself and the rule. */
  lemma StepFine(cfg: Config, s: State, op: Op, c: nat)
    requires LateHeadsOk(cfg) && ChargesOk(s) && OneLivePerKey(s) && c < |s.charges| && Undisturbed(cfg, s, op, c)
    ensures FineAmount(Step(cfg, s, op), c)
            == if op.OpLateFines? && op.branch == BranchOf(cfg, s, c)
               then Max(FineAmount(s, c), Due(cfg.head(s.charges[c].head), s.charges[c].due, op.asOf))
               else FineAmount(s, c)
  {
    match op
    case OpLateFines(branch, asOf) => RunEffect(cfg, s, branch, asOf, c);
    case OpPost(p) => PostKeepsFine(cfg, s, p, c);
    case OpBillPlan(plan, es) =>
      PlanSource(plan, es);
      PostAllKeepsFine(cfg, s, PlanPostings(plan, es), c);
    case OpBillEnrollment(plans, e) =>
      EnrolSource(plans, e);
      PostAllKeepsFine(cfg, s, EnrolPostings(plans, e), c);
    case _ => OtherStepFine(cfg, s, op, c);
  }

  lemma OtherStepFine(cfg: Config, s: State, op: Op, c: nat)
    requires c < |s.charges| && Undisturbed(cfg, s, op, c)
    requires !op.OpPost? && !op.OpBillPlan? && !op.OpBillEnrollment? && !op.OpLateFines?
    ensures FineAmount(Step(cfg, s, op), c) == FineAmount(s, c)
  {
    hide Payable, PaymentLines, FineAmount, FindKey, Discount;
    SameFinesKeep(s, Step(cfg, s, op), c);
  }

  lemma SameFinesKeep(s: State, t: State, c: nat)
    requires SameFines(s.charges, t.charges, c)
    ensures FineAmount(t, c) == FineAmount(s, c)
  {
    SameFinesFind(s.charges, t.charges, c);
  }

  predicate UndisturbedRun(cfg: Config, s: State, ops: seq<Op>, c: nat) {
    ops == []
    || (UndisturbedRun(cfg, s, ops[..|ops| - 1], c)
        && c < |Run(cfg, s, ops[..|ops| - 1]).charges|
        && Undisturbed(cfg, Run(cfg, s, ops[..|ops| - 1]), ops[|ops| - 1], c))
  }

  /** The latest date a branch's fines were run, if they were. */
  function LatestRun(ops: seq<Op>, branch: nat): Option<int> {
    if ops == [] then None
    else
      var before, op := LatestRun(ops[..|ops| - 1], branch), ops[|ops| - 1];
      if op.OpLateFines? && op.branch == branch
      then Some(if before.Some? then Max(before.value, op.asOf) else op.asOf)
      else before
  }

  lemma {:induction false} RunEvolvesCharge(cfg: Config, s: State, ops: seq<Op>, c: nat)
    requires Inv(s) && c < |s.charges|
    ensures var t := Run(cfg, s, ops);
            Inv(t) && c < |t.charges| && SameCharge(s.charges[c], t.charges[c])
  {
    if ops != [] {
      RunEvolvesCharge(cfg, s, ops[..|ops| - 1], c);
      var m := Run(cfg, s, ops[..|ops| - 1]);
      StepKeepsInv(cfg, m, ops[|ops| - 1]);
      if OnCharges(ops[|ops| - 1]) {
        ChargeStepEvolves(cfg, m, ops[|ops| - 1]);
      }
    }
  }

  /**
   Path independence: whatever else happens, while a charge stays unpaid and its fine is not
   withdrawn, the fine is what the rule asks for at the latest run date, or what it was if that is more.
   */
  lemma {:induction false} FineDependsOnLatestDate(cfg: Config, s: State, ops: seq<Op>, c: nat)
    requires LateHeadsOk(cfg) && Inv(s) && c < |s.charges|
    requires UndisturbedRun(cfg, s, ops, c)
    ensures var latest := LatestRun(ops, BranchOf(cfg, s, c));
            FineAmount(Run(cfg, s, ops), c)
            == if latest.None? then FineAmount(s, c)
               else Max(FineAmount(s, c), Due(cfg.head(s.charges[c].head), s.charges[c].due, latest.value))
  {
    if ops != [] {
      var init, op := ops[..|ops| - 1], ops[|ops| - 1];
      FineDependsOnLatestDate(cfg, s, init, c);
      RunEvolvesCharge(cfg, s, init, c);
      var m := Run(cfg, s, init);
      StepFine(cfg, m, op, c);
      var before := LatestRun(init, BranchOf(cfg, s, c));
      if op.OpLateFines? && before.Some? {
        var head, due := cfg.head(s.charges[c].head), s.charges[c].due;
        RuleGrows(head, due, Min(before.value, op.asOf), Max(before.value, op.asOf));
      }
    }
  }
}
