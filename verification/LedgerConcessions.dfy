/** What an approved concession takes off a charge (apps/fees/services.py). */
module LedgerConcessions {
  import opened Wrappers
  import opened Rounding
  import opened Sums
  import opened LedgerModel
  import opened LedgerSums

  /** d is what one concession comes to on an amount: the nearest paise of its percentage, or its fixed value. */
  predicate TakesOff(c: Concession, amount: int, d: int) {
    match c.kind
    case Percent => IsNearest(amount * c.value, 10000, d)
    case Fixed => d == c.value
  }

  lemma ExactPercent(amount: int, value: int)
    ensures PercentOf(amount, value) * 100.0 == (amount * value) as real / 10000 as real
  {
    assert amount as real * value as real == (amount * value) as real;
  }

  lemma ConcessionTakesOff(c: Concession, amount: int, d: int)
    ensures d == ConcessionOn(c, amount) <==> TakesOff(c, amount, d)
  {
    if c.kind == Percent {
      ExactPercent(amount, c.value);
      NearestQuotient(amount * c.value, 10000, d);
      hide PercentOf, RoundHalfUp, IsNearest;
    }
  }

  /** An approved concession of the charge's own student, head and academic year. */
  predicate Concerns(c: Concession, ch: Charge) {
    c.status == Approved && c.student == ch.student && c.head == ch.head && ch.year == Some(c.year)
  }

  /** ds[i] is what concession i takes off the charge: nothing unless it concerns it. */
  predicate TakenOff(cs: seq<Concession>, ch: Charge, ds: seq<int>) {
    |ds| == |cs| && forall i :: 0 <= i < |cs| ==> if Concerns(cs[i], ch) then TakesOff(cs[i], ch.amount, ds[i]) else ds[i] == 0
  }

  lemma {:induction false} ConcessionsAddUp(cs: seq<Concession>, ch: Charge, ds: seq<int>)
    requires TakenOff(cs, ch, ds)
    ensures ConcessionTotal(cs, ch.student, ch.head, ch.year, ch.amount) == Sum(ds)
  {
    hide ConcessionOn, TakesOff;
    if cs != [] {
      var n := |cs| - 1;
      ConcessionsAddUp(cs[..n], ch, ds[..n]);
      ConcessionTakesOff(cs[n], ch.amount, ds[n]);
    }
  }

  /** The smaller of a sum and of what is left, or of nothing. */
  function AtMost(sum: int, room: int): int {
    var left := if room > 0 then room else 0;
    if sum < left then sum else left
  }

  /** What the concessions that concern a charge come to together, but never more than is not received yet. */
  ghost predicate DiscountIs(s: State, ch: Charge, c: nat, discount: int) {
    exists ds :: TakenOff(s.concessions, ch, ds) && discount == AtMost(Sum(ds), ch.amount - TakenOn(s.receipts, c))
  }

  lemma RecomputedDiscount(s: State, c: nat)
    requires c < |s.charges|
    ensures DiscountIs(s, s.charges[c], c, Discount(s, c))
  {
    hide ConcessionOn, TakesOff, ConcessionTotal, TakenOn, Received;
    var cs, ch := s.concessions, s.charges[c];
    var ds := seq(|cs|, i requires 0 <= i < |cs| => if Concerns(cs[i], ch) then ConcessionOn(cs[i], ch.amount) else 0);
    forall i | 0 <= i < |cs| && Concerns(cs[i], ch) ensures TakesOff(cs[i], ch.amount, ds[i]) {
      ConcessionTakesOff(cs[i], ch.amount, ds[i]);
    }
    assert TakenOff(cs, ch, ds);
    ConcessionsAddUp(cs, ch, ds);
    ReceiptsAddUp(s.receipts, c);
  }

  /** A live, positive charge of one account: a student's charges under a head in an academic year. */
  predicate OfAccount(ch: Charge, student: nat, head: nat, year: Option<nat>) {
    !ch.cancelled && ch.student == student && ch.head == head && ch.year == year && ch.amount > 0
  }

  /** The account's charges have the discounts their concessions give, and nothing else has moved. */
  ghost predicate AccountDiscounted(s: State, t: State, student: nat, head: nat, year: Option<nat>) {
    t == s.(charges := t.charges) && |t.charges| == |s.charges|
    && forall c :: 0 <= c < |s.charges| ==>
         var ch, now := s.charges[c], t.charges[c];
         if OfAccount(ch, student, head, year) then now == ch.(discount := now.discount) && DiscountIs(s, ch, c, now.discount)
         else now == ch
  }

  lemma RecomputeDiscounts(s: State, student: nat, head: nat, year: Option<nat>)
    ensures AccountDiscounted(s, Recompute(s, student, head, year), student, head, year)
  {
    hide Discount, DiscountIs;
    forall c | 0 <= c < |s.charges| ensures DiscountIs(s, s.charges[c], c, Discount(s, c)) {
      RecomputedDiscount(s, c);
    }
  }

  /**
   A pending concession is decided once. Approval gives every charge of its account the discount that
   all approved concessions of the account come to; a rejection moves no charge.
   */
  lemma DecisionTakesOff(s: State, i: nat, approve: bool)
    requires i < |s.concessions|
    ensures DecideConcession(s, i, approve).Ok? <==> s.concessions[i].status == Pending
    ensures var r, c := DecideConcession(s, i, approve), s.concessions[i];
            r.Ok? ==>
              var decided := s.(concessions := s.concessions[i := c.(status := if approve then Approved else Rejected)]);
              if approve then AccountDiscounted(decided, r.value, c.student, c.head, Some(c.year)) else r.value == decided
  {
    var c := s.concessions[i];
    RecomputeDiscounts(s.(concessions := s.concessions[i := c.(status := Approved)]), c.student, c.head, Some(c.year));
    hide Recompute, AccountDiscounted;
  }

  lemma {:induction false} OneOf(ds: seq<int>, i: nat)
    requires i < |ds| && forall j :: 0 <= j < |ds| && j != i ==> ds[j] == 0
    ensures Sum(ds) == ds[i]
  {
    var n := |ds| - 1;
    if i == n {
      NoneOf(ds[..n]);
    } else {
      OneOf(ds[..n], i);
    }
  }

  lemma {:induction false} NoneOf(ds: seq<int>)
    requires forall j :: 0 <= j < |ds| ==> ds[j] == 0
    ensures Sum(ds) == 0
  {
    if ds != [] {
      NoneOf(ds[..|ds| - 1]);
    }
  }

  /**
   When it is the only one approved for its account, each charge gets what it comes to there: its
   percentage to the nearest paise or its fixed value, but never more than is not received yet.
   */
  lemma OnlyConcessionTakesOff(s: State, i: nat, k: nat, d: int)
    requires i < |s.concessions| && s.concessions[i].status == Pending && k < |s.charges|
    requires var c := s.concessions[i];
             OfAccount(s.charges[k], c.student, c.head, Some(c.year)) && TakesOff(c, s.charges[k].amount, d)
             && forall j :: 0 <= j < |s.concessions| && j != i ==> !Concerns(s.concessions[j], s.charges[k])
    ensures DecideConcession(s, i, true).value.charges[k].discount == AtMost(d, s.charges[k].amount - TakenOn(s.receipts, k))
  {
    DecisionTakesOff(s, i, true);
    var c, ch := s.concessions[i].(status := Approved), s.charges[k];
    var decided := s.(concessions := s.concessions[i := c]);
    var discount := DecideConcession(s, i, true).value.charges[k].discount;
    assert DiscountIs(decided, ch, k, discount);
    hide Sum, DecideConcession, TakenOn;
    var ds :| TakenOff(decided.concessions, ch, ds) && discount == AtMost(Sum(ds), ch.amount - TakenOn(s.receipts, k));
    assert forall j :: 0 <= j < |ds| && j != i ==> decided.concessions[j] == s.concessions[j] && ds[j] == 0;
    assert TakesOff(c, ch.amount, ds[i]);
    OneOf(ds, i);
    ConcessionTakesOff(c, ch.amount, d);
    ConcessionTakesOff(c, ch.amount, ds[i]);
  }

  // ------------------------------------------------------------------ what may be requested

  /** A value above nothing, and no percentage above a hundred. */
  predicate InBounds(c: Concession) {
    0 < c.value && (c.kind.Percent? ==> c.value <= 10000)
  }

  lemma PartOf(amount: int, value: int)
    requires amount >= 0 && 0 < value <= 10000
    ensures 0 <= amount * value <= amount * 10000
  {
    assert amount * (10000 - value) >= 0;
  }

  lemma NearestWithin(num: int, n: int, bound: int)
    requires IsNearest(num, 10000, n) && 0 <= num <= bound * 10000
    ensures 0 <= n <= bound
  {
  }

  lemma PercentWithinCharge(c: Concession, amount: int, d: int)
    requires InBounds(c) && c.kind.Percent? && amount >= 0 && TakesOff(c, amount, d)
    ensures 0 <= d <= amount
  {
    PartOf(amount, c.value);
    NearestWithin(amount * c.value, d, amount);
    hide IsNearest;
  }

  predicate AllInBounds(s: State) {
    forall i :: 0 <= i < |s.concessions| ==> InBounds(s.concessions[i])
  }

  /** A request is refused exactly out of bounds; otherwise it waits, and moves nothing else. */
  lemma RequestRefusedExactly(s: State, c: Concession)
    ensures RequestConcession(s, c).Ok? <==> InBounds(c)
    ensures RequestConcession(s, c).Ok? ==>
              RequestConcession(s, c).value == s.(concessions := s.concessions + [c.(status := Pending)])
  {
  }

  lemma {:induction false} PostAllSameConcessions(cfg: Config, s: State, ps: seq<Posting>)
    ensures PostAll(cfg, s, ps).Ok? ==> PostAll(cfg, s, ps).value.concessions == s.concessions
  {
    if ps != [] {
      PostAllSameConcessions(cfg, s, ps[..|ps| - 1]);
    }
  }

  lemma {:induction false} FinesSameConcessions(cfg: Config, s: State, branch: nat, ids: seq<nat>, asOf: int)
    requires Ids(s, ids)
    ensures FineAll(cfg, s, branch, ids, asOf).Ok? ==> FineAll(cfg, s, branch, ids, asOf).value.concessions == s.concessions
  {
    if ids != [] {
      FinesSameConcessions(cfg, s, branch, ids[..|ids| - 1], asOf);
    }
  }

  lemma StepInBounds(cfg: Config, s: State, op: Op)
    requires AllInBounds(s)
    ensures AllInBounds(Step(cfg, s, op))
  {
    hide FindKey, Recompute, PostAll, FineAll;
    match op
    case OpBillPlan(plan, es) => PostAllSameConcessions(cfg, s, PlanPostings(plan, es));
    case OpBillEnrollment(plans, e) => PostAllSameConcessions(cfg, s, EnrolPostings(plans, e));
    case OpLateFines(branch, asOf) => FinesSameConcessions(cfg, s, branch, OverdueCharges(cfg, s, branch), asOf);
    case _ => SameConcessions(cfg, s, op);
  }

  lemma SameConcessions(cfg: Config, s: State, op: Op)
    requires AllInBounds(s) && !op.OpBillPlan? && !op.OpBillEnrollment? && !op.OpLateFines?
    ensures AllInBounds(Step(cfg, s, op))
  {
    hide FindKey, Discount, Payable, PaymentLines, Refundable;
  }

  /** Over every run concessions stay in bounds. */
  lemma {:induction false} ConcessionsStayInBounds(cfg: Config, ops: seq<Op>)
    ensures AllInBounds(Run(cfg, EMPTY, ops))
  {
    if ops != [] {
      hide AllInBounds, Step;
      ConcessionsStayInBounds(cfg, ops[..|ops| - 1]);
      StepInBounds(cfg, Run(cfg, EMPTY, ops[..|ops| - 1]), ops[|ops| - 1]);
    } else {
      assert AllInBounds(EMPTY);
    }
  }
}
