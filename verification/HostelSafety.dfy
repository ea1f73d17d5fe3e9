/**
 Beds over every run: no room holds more than its capacity, no student has two beds, and
 vacating cancels exactly the allocation's unpaid charges for later months.
 */
module HostelSafety {
  import opened Wrappers
  import opened Text
  import opened Dates
  import opened MessModel
  import MessBilling
  import opened HostelModel
  import L = LedgerModel
  import I = LedgerInvariants
  import G = GateModel
  import B = LedgerBilling
  import F = LedgerFines

  // ------------------------------------------------------------------ the most specific rule

  /** The rule that is charged applies, and no rule that applies is more specific. */
  lemma {:induction false} BestRuleIsMostSpecific(rules: seq<FeeRule>, room: Room)
    ensures var best := BestRule(rules, room);
            (best.None? <==> forall i :: 0 <= i < |rules| ==> !Applies(rules[i], room))
            && (best.Some? ==> best.value in rules && Applies(best.value, room)
                               && forall i :: 0 <= i < |rules| && Applies(rules[i], room) ==> Vagueness(best.value) <= Vagueness(rules[i]))
  {
    if rules != [] {
      var n := |rules| - 1;
      BestRuleIsMostSpecific(rules[..n], room);
      assert forall i :: 0 <= i < n ==> rules[..n][i] == rules[i];
      assert rules[n] in rules && forall r :: r in rules[..n] ==> r in rules;
    }
  }

  // ------------------------------------------------------------------ keys and months

  lemma PrefixSelects(a: nat, b: nat, k: int)
    ensures AllocPrefix(a) <= AllocKey(b, k) <==> a == b
  {
    var x, y := Decimal(a) + ":", Decimal(b) + ":" + MonthText(k);
    NumberPrefix(a, b, MonthText(k));
    assert AllocPrefix(a) == "alloc:" + x && AllocKey(b, k) == "alloc:" + y;
    if AllocPrefix(a) <= AllocKey(b, k) {
      assert x == AllocPrefix(a)[6..] && y == AllocKey(b, k)[6..];
      assert forall i :: 0 <= i < |x| ==> x[i] == AllocPrefix(a)[i + 6] == AllocKey(b, k)[i + 6] == y[i];
      assert x <= y;
    }
  }

  lemma KeySelects(a: nat, j: int, b: nat, k: int)
    requires AllocKey(a, j) == AllocKey(b, k)
    ensures a == b && j == k
  {
    PrefixSelects(a, b, k);
    assert AllocPrefix(a) <= AllocKey(a, j);
    assert MonthText(j) == AllocKey(a, j)[|AllocPrefix(a)|..] && MonthText(k) == AllocKey(b, k)[|AllocPrefix(b)|..];
    MessBilling.MonthTextInjective(j, k);
  }

  lemma DueDayInMonth(k: int)
    ensures MonthOf(DueDay(k)) == k
  {
    hide MonthOf, FirstDay, LengthOf;
    NextMonthFollows(k);
    InItsMonth(DueDay(k));
    OneMonth(MonthOf(DueDay(k)), k, DueDay(k));
  }

  /** A fee posted for a month falls due in that month. */
  lemma DueInItsMonth(checkIn: int, k: int)
    requires MonthOf(checkIn) <= k
    ensures MonthOf(L.Max(DueDay(k), checkIn)) == k
  {
    DueDayInMonth(k);
    hide MonthOf, DueDay;
    if checkIn > DueDay(k) {
      MonthOrder(DueDay(k), checkIn);
    }
  }

  // ------------------------------------------------------------------ every hostel charge belongs to an allocation

  predicate FeeOf(allocs: seq<Allocation>, ch: L.Charge, a: nat, k: int) {
    a < |allocs| && ch.sourceId == AllocKey(a, k) && ch.student == allocs[a].student && MonthOf(ch.due) == k
  }

  ghost predicate HostelCharge(allocs: seq<Allocation>, ch: L.Charge) {
    ch.source == L.Hostel ==> exists a: nat, k: int :: FeeOf(allocs, ch, a, k)
  }

  ghost predicate HostelCharges(ledger: L.State, allocs: seq<Allocation>) {
    forall c :: 0 <= c < |ledger.charges| ==> HostelCharge(allocs, ledger.charges[c])
  }

  predicate AllocsGrow(s: seq<Allocation>, t: seq<Allocation>) {
    |s| <= |t| && forall i :: 0 <= i < |s| ==> t[i].student == s[i].student && t[i].room == s[i].room && t[i].checkIn == s[i].checkIn
  }

  lemma ChargesCarryOver(s: L.State, t: L.State, allocs: seq<Allocation>, more: seq<Allocation>)
    requires HostelCharges(s, allocs) && I.Evolves(s, t) && AllocsGrow(allocs, more)
    requires forall c :: |s.charges| <= c < |t.charges| ==> HostelCharge(more, t.charges[c])
    ensures HostelCharges(t, more)
  {
    forall c | 0 <= c < |t.charges| ensures HostelCharge(more, t.charges[c]) {
      if c < |s.charges| && t.charges[c].source == L.Hostel {
        assert I.SameCharge(s.charges[c], t.charges[c]) && HostelCharge(allocs, s.charges[c]);
        var a: nat, k: int :| FeeOf(allocs, s.charges[c], a, k);
        assert FeeOf(more, t.charges[c], a, k);
      }
    }
  }

  /** Posting adds at most one charge, the one asked for but for its discount. */
  lemma PostAdds(fees: L.Config, s: L.State, p: L.Posting)
    requires L.PostCharge(fees, s, p).Ok?
    ensures var t, ch := L.PostCharge(fees, s, p).value.0, L.NewCharge(fees, p);
            t == s
            || (|t.charges| == |s.charges| + 1
                && var n := t.charges[|s.charges|];
                   n.student == ch.student && n.source == ch.source && n.sourceId == ch.sourceId && n.due == ch.due)
  {
    hide L.Discount;
  }

  lemma PostCarriesOver(fees: L.Config, s: L.State, p: L.Posting, allocs: seq<Allocation>)
    requires HostelCharges(s, allocs) && I.ChargesOk(s) && I.OneLivePerKey(s)
    requires HostelCharge(allocs, L.NewCharge(fees, p))
    ensures L.PostCharge(fees, s, p).Ok? ==> HostelCharges(L.PostCharge(fees, s, p).value.0, allocs)
  {
    if L.PostCharge(fees, s, p).Ok? {
      I.PostKeeps(fees, s, p);
      PostAdds(fees, s, p);
      hide L.PostCharge, L.NewCharge, HostelCharges, I.ChargesOk, I.OneLivePerKey, MonthOf, AllocKey;
      var t, ch := L.PostCharge(fees, s, p).value.0, L.NewCharge(fees, p);
      if t != s && ch.source == L.Hostel {
        var a: nat, k: int :| FeeOf(allocs, ch, a, k);
        assert FeeOf(allocs, t.charges[|s.charges|], a, k);
      }
      ChargesCarryOver(s, t, allocs, allocs);
    }
  }

  lemma {:induction false} PostAllCarriesOver(fees: L.Config, s: L.State, ps: seq<L.Posting>, allocs: seq<Allocation>)
    requires HostelCharges(s, allocs) && I.ChargesOk(s) && I.OneLivePerKey(s)
    requires forall i :: 0 <= i < |ps| ==> HostelCharge(allocs, L.NewCharge(fees, ps[i]))
    ensures L.PostAll(fees, s, ps).Ok? ==> HostelCharges(L.PostAll(fees, s, ps).value, allocs)
  {
    if ps != [] {
      PostAllCarriesOver(fees, s, ps[..|ps| - 1], allocs);
      I.PostAllKeeps(fees, s, ps[..|ps| - 1]);
      if L.PostAll(fees, s, ps[..|ps| - 1]).Ok? {
        PostCarriesOver(fees, L.PostAll(fees, s, ps[..|ps| - 1]).value, ps[|ps| - 1], allocs);
      }
    }
  }

  // ------------------------------------------------------------------ fees services between hostel steps

  predicate NoNewHostel(s: L.State, t: L.State) {
    forall c :: |s.charges| <= c < |t.charges| ==> t.charges[c].source != L.Hostel
  }

  lemma {:induction false} PostAllNoHostel(fees: L.Config, s: L.State, ps: seq<L.Posting>)
    requires forall i :: 0 <= i < |ps| ==> ps[i].source != L.Hostel
    ensures L.PostAll(fees, s, ps).Ok? ==> |s.charges| <= |L.PostAll(fees, s, ps).value.charges| && NoNewHostel(s, L.PostAll(fees, s, ps).value)
  {
    if ps != [] {
      PostAllNoHostel(fees, s, ps[..|ps| - 1]);
    }
  }

  lemma {:induction false} FinesNoHostel(fees: L.Config, s: L.State, branch: nat, ids: seq<nat>, asOf: int)
    requires L.Ids(s, ids)
    ensures L.FineAll(fees, s, branch, ids, asOf).Ok? ==> NoNewHostel(s, L.FineAll(fees, s, branch, ids, asOf).value)
  {
    if ids != [] {
      FinesNoHostel(fees, s, branch, ids[..|ids| - 1], asOf);
    }
  }

  /** Hostel charges are posted by allocations only. */
  predicate OwnSource(op: L.Op) {
    op.OpPost? ==> op.p.source != L.Hostel
  }

  lemma FeesStepNoHostel(fees: L.Config, s: L.State, op: L.Op)
    requires OwnSource(op)
    ensures NoNewHostel(s, L.Step(fees, s, op))
  {
    match op
    case OpPost(p) =>
    case OpBillPlan(plan, es) =>
      F.PlanSource(plan, es);
      PostAllNoHostel(fees, s, L.PlanPostings(plan, es));
    case OpBillEnrollment(plans, e) =>
      F.EnrolSource(plans, e);
      PostAllNoHostel(fees, s, L.EnrolPostings(plans, e));
    case OpLateFines(branch, asOf) => FinesNoHostel(fees, s, branch, L.OverdueCharges(fees, s, branch), asOf);
    case _ =>
  }

  lemma FeesStepCarriesOver(fees: L.Config, s: L.State, op: L.Op, allocs: seq<Allocation>)
    requires I.Inv(s) && HostelCharges(s, allocs) && OwnSource(op)
    ensures I.Inv(L.Step(fees, s, op)) && HostelCharges(L.Step(fees, s, op), allocs)
  {
    I.StepKeepsInv(fees, s, op);
    FeesStepNoHostel(fees, s, op);
    var t := L.Step(fees, s, op);
    if I.OnCharges(op) {
      I.ChargeStepEvolves(fees, s, op);
      ChargesCarryOver(s, t, allocs, allocs);
    } else {
      assert t.charges == s.charges;
    }
  }

  lemma CancelCarriesOver(s: L.State, student: nat, source: L.Source, prefix: string, from: int, allocs: seq<Allocation>)
    requires I.Inv(s) && HostelCharges(s, allocs)
    ensures var t := L.CancelFuture(s, student, source, prefix, from);
            I.Inv(t) && HostelCharges(t, allocs)
  {
    I.CancelFutureKeeps(s, student, source, prefix, from);
    var t := L.CancelFuture(s, student, source, prefix, from);
    I.EvolvesKeepsInv(s, t);
    ChargesCarryOver(s, t, allocs, allocs);
  }

  lemma PostKeepsAll(fees: L.Config, s: L.State, p: L.Posting, allocs: seq<Allocation>)
    requires I.Inv(s) && HostelCharges(s, allocs) && p.source != L.Hostel
    ensures L.PostCharge(fees, s, p).Ok? ==> I.Inv(L.PostCharge(fees, s, p).value.0) && HostelCharges(L.PostCharge(fees, s, p).value.0, allocs)
  {
    if L.PostCharge(fees, s, p).Ok? {
      I.PostKeeps(fees, s, p);
      I.EvolvesKeepsInv(s, L.PostCharge(fees, s, p).value.0);
      PostCarriesOver(fees, s, p, allocs);
    }
  }

  lemma BillCarriesOver(setup: Setup, ledger: L.State, b: Book, m: nat, k: int, allocs: seq<Allocation>)
    requires m < |b.members| && I.Inv(ledger) && HostelCharges(ledger, allocs)
    ensures var r := BillMonth(setup, ledger, b, m, k);
            r.Ok? ==> I.Inv(r.value.0) && HostelCharges(r.value.0, allocs) && |r.value.1.members| == |b.members|
  {
    hide L.PostCharge;
    if Billable(setup, b, ledger, m, k) {
      var member := b.members[m];
      var student, key := member.student.value, MessKey(m, k);
      if member.plan == Monthly {
        PostKeepsAll(setup.fees, ledger, Posting(setup, student, MonthlyBalance(setup, b, m, k), L.Max(DueDay(k), member.start), key), allocs);
      } else {
        var amount := setup.mess(member.mess).perDayRate * Eaten(b, m, FirstDay(k), LastDay(k));
        PostKeepsAll(setup.fees, ledger, Posting(setup, student, amount, DueDay(k + 1), key), allocs);
      }
    }
  }

  // ------------------------------------------------------------------ beds

  ghost predicate WithinCapacity(cfg: Config, allocs: seq<Allocation>) {
    forall r: nat :: Occupied(allocs, r) <= cfg.room(r).capacity
  }

  predicate OneBedEach(allocs: seq<Allocation>) {
    forall i, j :: 0 <= i < j < |allocs| && allocs[i].student == allocs[j].student
      ==> allocs[i].checkOut.Some? || allocs[j].checkOut.Some?
  }

  ghost predicate Inv(cfg: Config, s: State) {
    I.Inv(s.ledger) && HostelCharges(s.ledger, s.allocs) && WithinCapacity(cfg, s.allocs) && OneBedEach(s.allocs)
  }

  lemma {:induction false} VacatingFrees(allocs: seq<Allocation>, a: nat, on: int, room: nat)
    requires a < |allocs| && allocs[a].checkOut.None?
    ensures Occupied(allocs[a := allocs[a].(checkOut := Some(on))], room)
            == Occupied(allocs, room) - (if allocs[a].room == room then 1 else 0)
  {
    var n := |allocs| - 1;
    var after := allocs[a := allocs[a].(checkOut := Some(on))];
    if a < n {
      VacatingFrees(allocs[..n], a, on, room);
      assert after[..n] == allocs[..n][a := allocs[a].(checkOut := Some(on))];
    } else {
      assert after[..n] == allocs[..n];
    }
  }

  lemma AllocatingFills(cfg: Config, s: State, student: nat, room: nat, on: int)
    requires WithinCapacity(cfg, s.allocs) && OneBedEach(s.allocs) && MayTake(cfg, s, student, room)
    ensures WithinCapacity(cfg, s.allocs + [Allocation(student, room, on, None)])
    ensures OneBedEach(s.allocs + [Allocation(student, room, on, None)])
  {
    var more := s.allocs + [Allocation(student, room, on, None)];
    assert more[..|s.allocs|] == s.allocs;
    forall r: nat ensures Occupied(more, r) <= cfg.room(r).capacity {
      assert Occupied(s.allocs, r) <= cfg.room(r).capacity;
    }
  }

  /** Each fee is posted under its allocation and falls due in its own month. */
  lemma FeeTraceable(cfg: Config, allocs: seq<Allocation>, a: nat, amount: int, k: int)
    requires a < |allocs| && MonthOf(allocs[a].checkIn) <= k
    ensures HostelCharge(allocs, L.NewCharge(cfg.setup.fees, FeePosting(cfg, allocs[a], a, amount, k)))
  {
    hide MonthOf, DueDay, AllocKey;
    DueInItsMonth(allocs[a].checkIn, k);
    var ch := L.NewCharge(cfg.setup.fees, FeePosting(cfg, allocs[a], a, amount, k));
    assert ch.due == L.Max(DueDay(k), allocs[a].checkIn);
    assert FeeOf(allocs, ch, a, k);
  }

  lemma FeesTraceable(cfg: Config, allocs: seq<Allocation>, a: nat, amount: int, n: nat)
    requires a < |allocs|
    ensures var ps := FeePostings(cfg, allocs[a], a, amount, n);
            forall i :: 0 <= i < n ==> HostelCharge(allocs, L.NewCharge(cfg.setup.fees, ps[i]))
  {
    hide MonthOf, HostelCharge, FeePosting;
    var ps := FeePostings(cfg, allocs[a], a, amount, n);
    forall i | 0 <= i < n ensures HostelCharge(allocs, L.NewCharge(cfg.setup.fees, ps[i])) {
      FeeTraceable(cfg, allocs, a, amount, MonthOf(allocs[a].checkIn) + i);
    }
  }

  lemma PostFeesCarriesOver(cfg: Config, s: State, alloc: Allocation)
    requires I.Inv(s.ledger) && HostelCharges(s.ledger, s.allocs)
    ensures var r := PostFees(cfg, s.ledger, alloc, |s.allocs|);
            r.Ok? ==> I.Inv(r.value) && HostelCharges(r.value, s.allocs + [alloc])
  {
    var more := s.allocs + [alloc];
    I.EvolvesTransitive(s.ledger, s.ledger, s.ledger);
    ChargesCarryOver(s.ledger, s.ledger, s.allocs, more);
    var rule := BestRule(cfg.rules(cfg.room(alloc.room).branch), cfg.room(alloc.room));
    if cfg.setup.licensed && rule.Some? {
      var n := MonthCount(MonthOf(alloc.checkIn), LastMonth(cfg, alloc.checkIn));
      var ps := FeePostings(cfg, alloc, |s.allocs|, rule.value.amount, n);
      FeesTraceable(cfg, more, |s.allocs|, rule.value.amount, n);
      hide HostelCharge, HostelCharges, MonthOf, L.PostAll, BestRule, FeePostings, MonthCount;
      assert more[|s.allocs|] == alloc && |ps| == n;
      PostAllInOrder(cfg.setup.fees, s.ledger, ps, more);
    }
  }

  lemma PostAllInOrder(fees: L.Config, s: L.State, ps: seq<L.Posting>, allocs: seq<Allocation>)
    requires I.Inv(s) && HostelCharges(s, allocs)
    requires forall i :: 0 <= i < |ps| ==> HostelCharge(allocs, L.NewCharge(fees, ps[i]))
    ensures L.PostAll(fees, s, ps).Ok? ==> I.Inv(L.PostAll(fees, s, ps).value) && HostelCharges(L.PostAll(fees, s, ps).value, allocs)
  {
    PostAllCarriesOver(fees, s, ps, allocs);
    I.PostAllKeeps(fees, s, ps);
    if L.PostAll(fees, s, ps).Ok? {
      I.EvolvesKeepsInv(s, L.PostAll(fees, s, ps).value);
    }
  }

  lemma AllocateKeeps(cfg: Config, s: State, student: nat, room: nat, on: int, plan: PlanKind)
    requires Inv(cfg, s)
    ensures Allocate(cfg, s, student, room, on, plan).Ok? ==> Inv(cfg, Allocate(cfg, s, student, room, on, plan).value)
  {
    hide BillMonth, PostFees, MayTake;
    if Allocate(cfg, s, student, room, on, plan).Ok? {
      var alloc := Allocation(student, room, on, None);
      AllocatingFills(cfg, s, student, room, on);
      PostFeesCarriesOver(cfg, s, alloc);
      var ledger := PostFees(cfg, s.ledger, alloc, |s.allocs|).value;
      var mess := cfg.messOf(cfg.room(room).block);
      if mess.Some? {
        var b := s.book.(members := s.book.members + [Member(mess.value, Some(student), plan, on, None, Some(|s.allocs|))]);
        BillCarriesOver(cfg.setup, ledger, b, |s.book.members|, MonthOf(on), s.allocs + [alloc]);
      }
    }
  }

  // ------------------------------------------------------------------ vacating

  /** Nothing of the hostel moves. */
  predicate HostelKept(s: State, t: State) {
    t.allocs == s.allocs && t.waits == s.waits
    && t.ledger.receipts == s.ledger.receipts && |t.ledger.charges| == |s.ledger.charges|
    && forall c :: 0 <= c < |s.ledger.charges| && s.ledger.charges[c].source == L.Hostel
         ==> t.ledger.charges[c] == s.ledger.charges[c]
  }

  lemma EndOneKeepsHostel(cfg: Config, s: State, m: nat, on: int)
    requires m < |s.book.members| && I.Inv(s.ledger) && HostelCharges(s.ledger, s.allocs)
    ensures var r := EndOne(cfg, s, m, on);
            r.Ok? ==> I.Inv(r.value.ledger) && HostelCharges(r.value.ledger, s.allocs) && HostelKept(s, r.value)
  {
    hide MonthOf, FirstDay, HostelCharges, I.Inv;
    var r := EndOne(cfg, s, m, on);
    if r.Ok? && s.book.members[m].student.Some? && cfg.setup.licensed {
      CancelCarriesOver(s.ledger, s.book.members[m].student.value, L.Mess, MessPrefix(m), FirstDay(MonthOf(on) + 1), s.allocs);
    }
  }

  /** Ending mess memberships touches no hostel charge and no receipt. */
  lemma {:induction false} EndAllKeepsHostel(cfg: Config, s: State, a: nat, on: int, n: nat)
    requires n <= |s.book.members| && I.Inv(s.ledger) && HostelCharges(s.ledger, s.allocs)
    ensures var r := EndAll(cfg, s, a, on, n);
            r.Ok? ==> I.Inv(r.value.ledger) && HostelCharges(r.value.ledger, s.allocs) && HostelKept(s, r.value)
  {
    hide EndOne, HostelCharges, I.Inv;
    if n > 0 {
      EndAllKeepsHostel(cfg, s, a, on, n - 1);
      var t := EndAll(cfg, s, a, on, n - 1);
      if t.Ok? {
        EndOneKeepsHostel(cfg, t.value, n - 1, on);
      }
    }
  }

  /** A live fee of the allocation for a month after the one it is vacated in, with no money on it. */
  ghost predicate Withdrawn(s: State, a: nat, on: int, c: nat)
    requires c < |s.ledger.charges|
  {
    !s.ledger.charges[c].cancelled && L.Received(s.ledger.receipts, c) == 0
    && exists k: int :: k > MonthOf(on) && s.ledger.charges[c].sourceId == AllocKey(a, k)
  }

  /** An open membership that came with the allocation: vacating ends it. */
  predicate CameWith(member: Member, a: nat) {
    member.allocation == Some(a) && member.end.None?
  }

  predicate BilledTo(members: seq<Member>, a: nat, m: nat, student: nat, key: string) {
    m < |members| && CameWith(members[m], a) && members[m].student == Some(student) && MessPrefix(m) <= key
  }

  /**
   A live bill for a membership that is ended with the allocation, due in a month after the one
   it is vacated in, with no money on it.
   */
  ghost predicate MessWithdrawn(s: State, a: nat, on: int, c: nat)
    requires c < |s.ledger.charges|
  {
    var ch := s.ledger.charges[c];
    !ch.cancelled && L.Received(s.ledger.receipts, c) == 0 && MonthOf(ch.due) > MonthOf(on)
    && exists m: nat :: BilledTo(s.book.members, a, m, ch.student, ch.sourceId)
  }

  lemma DueAfter(due: int, month: int)
    ensures due >= FirstDay(month + 1) <==> MonthOf(due) > month
  {
    var k := MonthOf(due);
    hide MonthOf, LengthOf, FirstDay;
    InItsMonth(due);
    NextMonthFollows(month);
    NextMonthFollows(k);
    if k > month {
      FirstDayMonotone(month + 1, k);
    } else {
      FirstDayMonotone(k + 1, month + 1);
    }
  }

  /** The prefix and the date together pick out the allocation's later months. */
  lemma LaterMonths(allocs: seq<Allocation>, ch: L.Charge, a: nat, month: int)
    requires HostelCharge(allocs, ch) && ch.source == L.Hostel && a < |allocs|
    ensures AllocPrefix(a) <= ch.sourceId && ch.due >= FirstDay(month + 1)
       <==> exists k: int :: k > month && ch.sourceId == AllocKey(a, k)
    ensures AllocPrefix(a) <= ch.sourceId ==> ch.student == allocs[a].student
  {
    hide FirstDay, AllocKey, AllocPrefix, MonthOf;
    var b: nat, k: int :| FeeOf(allocs, ch, b, k);
    PrefixSelects(a, b, k);
    DueAfter(ch.due, month);
    forall j: int | ch.sourceId == AllocKey(a, j) ensures a == b && j == k {
      KeySelects(a, j, b, k);
    }
  }

  lemma CancelFeesExact(cfg: Config, s: State, a: nat, on: int, c: nat)
    requires I.Inv(s.ledger) && HostelCharges(s.ledger, s.allocs) && cfg.setup.licensed && a < |s.allocs|
    requires c < |s.ledger.charges| && s.ledger.charges[c].source == L.Hostel
    ensures var ch := s.ledger.charges[c];
            CancelFees(cfg, s.ledger, s.allocs[a].student, a, on).charges[c]
            == if Withdrawn(s, a, on, c) then ch.(cancelled := true) else ch
  {
    hide HostelCharge, MonthOf, FirstDay, AllocKey, AllocPrefix, L.Received;
    var ch := s.ledger.charges[c];
    assert HostelCharge(s.allocs, ch);
    LaterMonths(s.allocs, ch, a, MonthOf(on));
    I.ReceivedSign(s.ledger, s.ledger.receipts, c);
    var ahead := L.CancelledAhead(s.ledger, c, s.allocs[a].student, L.Hostel, AllocPrefix(a), FirstDay(MonthOf(on) + 1));
    assert ahead <==> Withdrawn(s, a, on, c);
  }

  predicate MessAhead(s: State, a: nat, m: nat, from: int, c: nat) {
    m < |s.book.members| && CameWith(s.book.members[m], a) && s.book.members[m].student.Some?
    && L.CancelledAhead(s.ledger, c, s.book.members[m].student.value, L.Mess, MessPrefix(m), from)
  }

  ghost predicate AnyAhead(s: State, a: nat, n: nat, from: int, c: nat) {
    exists m: nat :: m < n && MessAhead(s, a, m, from, c)
  }

  /** Ending the memberships below n: refused exactly when one of them starts later. */
  lemma {:induction false} EndAllMembers(cfg: Config, s: State, a: nat, on: int, n: nat)
    requires n <= |s.book.members|
    ensures var r := EndAll(cfg, s, a, on, n);
            (r.Ok? <==> forall m :: 0 <= m < n && CameWith(s.book.members[m], a) ==> s.book.members[m].start <= on)
            && (r.Ok? ==> forall m :: 0 <= m < |s.book.members| ==>
                  r.value.book.members[m]
                  == if m < n && CameWith(s.book.members[m], a) then s.book.members[m].(end := Some(on)) else s.book.members[m])
  {
    hide L.CancelFuture, MonthOf, FirstDay;
    if n > 0 {
      EndAllMembers(cfg, s, a, on, n - 1);
    }
  }

  lemma {:induction false} EndAllCancels(cfg: Config, s: State, a: nat, on: int, n: nat)
    requires n <= |s.book.members| && cfg.setup.licensed && EndAll(cfg, s, a, on, n).Ok?
    ensures var t, from := EndAll(cfg, s, a, on, n).value, FirstDay(MonthOf(on) + 1);
            t.ledger.receipts == s.ledger.receipts && |t.ledger.charges| == |s.ledger.charges|
            && forall c :: 0 <= c < |s.ledger.charges| ==>
                 t.ledger.charges[c]
                 == if AnyAhead(s, a, n, from, c) then s.ledger.charges[c].(cancelled := true) else s.ledger.charges[c]
  {
    hide MonthOf, FirstDay, MessPrefix, L.Received;
    if n > 0 {
      EndAllCancels(cfg, s, a, on, n - 1);
      EndAllMembers(cfg, s, a, on, n - 1);
      var before, t, from := EndAll(cfg, s, a, on, n - 1).value, EndAll(cfg, s, a, on, n).value, FirstDay(MonthOf(on) + 1);
      forall c | 0 <= c < |s.ledger.charges|
        ensures t.ledger.charges[c]
                == if AnyAhead(s, a, n, from, c) then s.ledger.charges[c].(cancelled := true) else s.ledger.charges[c]
      {
        assert AnyAhead(s, a, n, from, c) <==> AnyAhead(s, a, n - 1, from, c) || MessAhead(s, a, n - 1, from, c);
        assert before.book.members[n - 1] == s.book.members[n - 1];
      }
    }
  }

  lemma MessAheadIff(s: State, a: nat, m: nat, from: int, c: nat)
    requires I.Inv(s.ledger) && c < |s.ledger.charges| && s.ledger.charges[c].source == L.Mess
    ensures var ch := s.ledger.charges[c];
            (MessAhead(s, a, m, from, c)
             <==> !ch.cancelled && L.Received(s.ledger.receipts, c) == 0 && ch.due >= from
                  && BilledTo(s.book.members, a, m, ch.student, ch.sourceId))
  {
    I.ReceivedSign(s.ledger, s.ledger.receipts, c);
    hide MessPrefix, L.Received, I.Inv, CameWith;
  }

  lemma MessWithdrawnIff(s: State, a: nat, on: int, c: nat)
    requires I.Inv(s.ledger) && c < |s.ledger.charges| && s.ledger.charges[c].source == L.Mess
    ensures AnyAhead(s, a, |s.book.members|, FirstDay(MonthOf(on) + 1), c) <==> MessWithdrawn(s, a, on, c)
  {
    var ch, from := s.ledger.charges[c], FirstDay(MonthOf(on) + 1);
    DueAfter(ch.due, MonthOf(on));
    hide MonthOf, FirstDay, MessAhead, BilledTo, L.Received, I.Inv;
    if AnyAhead(s, a, |s.book.members|, from, c) {
      var m: nat :| m < |s.book.members| && MessAhead(s, a, m, from, c);
      MessAheadIff(s, a, m, from, c);
    }
    if MessWithdrawn(s, a, on, c) {
      var m: nat :| BilledTo(s.book.members, a, m, ch.student, ch.sourceId);
      BilledMember(s.book.members, a, m, ch.student, ch.sourceId);
      MessAheadIff(s, a, m, from, c);
    }
  }

  lemma BilledMember(members: seq<Member>, a: nat, m: nat, student: nat, key: string)
    requires BilledTo(members, a, m, student, key)
    ensures m < |members|
  {
  }

  /** What vacating does to a charge of any source. */
  ghost predicate CancelledOnVacate(cfg: Config, s: State, a: nat, on: int, c: nat)
    requires c < |s.ledger.charges|
  {
    cfg.setup.licensed
    && (match s.ledger.charges[c].source
        case Hostel => Withdrawn(s, a, on, c)
        case Mess => MessWithdrawn(s, a, on, c)
        case _ => false)
  }

  /**
   Vacating is refused exactly when the bed is given up already, or on a day before the check-in
   or before a membership it would end begins.
   */
  lemma VacateRefusedExactly(cfg: Config, s: State, a: nat, on: int)
    requires a < |s.allocs|
    ensures Vacate(cfg, s, a, on).Ok?
       <==> s.allocs[a].checkOut.None? && s.allocs[a].checkIn <= on
            && forall m :: 0 <= m < |s.book.members| && CameWith(s.book.members[m], a) ==> s.book.members[m].start <= on
  {
    var t := s.(allocs := s.allocs[a := s.allocs[a].(checkOut := Some(on))],
                ledger := CancelFees(cfg, s.ledger, s.allocs[a].student, a, on));
    EndAllMembers(cfg, t, a, on, |t.book.members|);
  }

  lemma {:induction false} EndAllUnlicensed(cfg: Config, s: State, a: nat, on: int, n: nat)
    requires n <= |s.book.members| && !cfg.setup.licensed
    ensures EndAll(cfg, s, a, on, n).Ok? ==> EndAll(cfg, s, a, on, n).value.ledger == s.ledger
  {
    if n > 0 {
      EndAllUnlicensed(cfg, s, a, on, n - 1);
    }
  }

  lemma CancelFeesElsewhere(cfg: Config, s: State, a: nat, on: int)
    requires a < |s.allocs|
    ensures var mid := CancelFees(cfg, s.ledger, s.allocs[a].student, a, on);
            |mid.charges| == |s.ledger.charges| && mid.receipts == s.ledger.receipts
            && forall c :: 0 <= c < |s.ledger.charges| && s.ledger.charges[c].source != L.Hostel ==> mid.charges[c] == s.ledger.charges[c]
  {}

  lemma VacateElsewhere(cfg: Config, s: State, a: nat, on: int, c: nat)
    requires I.Inv(s.ledger) && cfg.setup.licensed && a < |s.allocs| && Vacate(cfg, s, a, on).Ok?
    requires c < |s.ledger.charges| && s.ledger.charges[c].source != L.Hostel
    ensures var ch, t := s.ledger.charges[c], Vacate(cfg, s, a, on).value;
            |t.ledger.charges| == |s.ledger.charges|
            && t.ledger.charges[c] == if ch.source == L.Mess && MessWithdrawn(s, a, on, c) then ch.(cancelled := true) else ch
  {
    var mid := s.(allocs := s.allocs[a := s.allocs[a].(checkOut := Some(on))],
                  ledger := CancelFees(cfg, s.ledger, s.allocs[a].student, a, on));
    var n, from := |s.book.members|, FirstDay(MonthOf(on) + 1);
    CancelFeesElsewhere(cfg, s, a, on);
    EndAllCancels(cfg, mid, a, on, n);
    if s.ledger.charges[c].source == L.Mess {
      MessWithdrawnIff(s, a, on, c);
    }
    hide MonthOf, FirstDay, CancelFees, L.CancelFuture, EndAll, MessWithdrawn, L.Received;
    assert forall m: nat :: MessAhead(mid, a, m, from, c) <==> MessAhead(s, a, m, from, c);
    assert AnyAhead(mid, a, n, from, c) <==> AnyAhead(s, a, n, from, c);
  }

  /**
   Vacating cancels exactly the allocation's live fees, and the live bills of the memberships it
   ends, that belong to later months and have received nothing. Every other charge, of whatever
   source, is left as it was, and so is every receipt.
   */
  lemma VacateCancelsExactly(cfg: Config, s: State, a: nat, on: int, c: nat)
    requires Inv(cfg, s) && a < |s.allocs| && Vacate(cfg, s, a, on).Ok?
    requires c < |s.ledger.charges|
    ensures var ch := s.ledger.charges[c];
            var t := Vacate(cfg, s, a, on).value;
            |t.ledger.charges| == |s.ledger.charges| && t.ledger.receipts == s.ledger.receipts
            && t.ledger.charges[c] == if CancelledOnVacate(cfg, s, a, on, c) then ch.(cancelled := true) else ch
  {
    hide Withdrawn, MessWithdrawn, HostelCharges, I.Inv, WithinCapacity;
    VacateLedger(cfg, s, a, on);
    if !cfg.setup.licensed {
      var mid := s.(allocs := s.allocs[a := s.allocs[a].(checkOut := Some(on))]);
      EndAllUnlicensed(cfg, mid, a, on, |s.book.members|);
    } else if s.ledger.charges[c].source == L.Hostel {
      CancelFeesExact(cfg, s, a, on, c);
    } else {
      VacateElsewhere(cfg, s, a, on, c);
    }
  }

  lemma VacateLedger(cfg: Config, s: State, a: nat, on: int)
    requires Inv(cfg, s) && a < |s.allocs| && Vacate(cfg, s, a, on).Ok?
    ensures var mid, t := CancelFees(cfg, s.ledger, s.allocs[a].student, a, on), Vacate(cfg, s, a, on).value;
            I.Inv(t.ledger) && HostelCharges(t.ledger, t.allocs) && t.ledger.receipts == s.ledger.receipts
            && t.allocs == s.allocs[a := s.allocs[a].(checkOut := Some(on))]
            && |t.ledger.charges| == |s.ledger.charges| == |mid.charges|
            && forall c :: 0 <= c < |s.ledger.charges| && s.ledger.charges[c].source == L.Hostel
                 ==> t.ledger.charges[c] == mid.charges[c]
  {
    var after := s.allocs[a := s.allocs[a].(checkOut := Some(on))];
    I.EvolvesTransitive(s.ledger, s.ledger, s.ledger);
    ChargesCarryOver(s.ledger, s.ledger, s.allocs, after);
    var mid := s.(allocs := after, ledger := CancelFees(cfg, s.ledger, s.allocs[a].student, a, on));
    CancelCarriesOver(s.ledger, s.allocs[a].student, L.Hostel, AllocPrefix(a), FirstDay(MonthOf(on) + 1), after);
    EndAllKeepsHostel(cfg, mid, a, on, |mid.book.members|);
  }

  lemma VacateKeeps(cfg: Config, s: State, a: nat, on: int)
    requires Inv(cfg, s) && a < |s.allocs|
    ensures Vacate(cfg, s, a, on).Ok? ==> Inv(cfg, Vacate(cfg, s, a, on).value)
  {
    if Vacate(cfg, s, a, on).Ok? {
      VacateLedger(cfg, s, a, on);
      var t := Vacate(cfg, s, a, on).value;
      forall r: nat ensures Occupied(t.allocs, r) <= cfg.room(r).capacity {
        VacatingFrees(s.allocs, a, on, r);
        assert Occupied(s.allocs, r) <= cfg.room(r).capacity;
      }
    }
  }

  // ------------------------------------------------------------------ every run

  predicate Proper(op: Op) {
    op.OpFees? ==> OwnSource(op.op)
  }

  lemma StepKeepsInv(cfg: Config, s: State, op: Op)
    requires Inv(cfg, s) && Proper(op)
    ensures Inv(cfg, Step(cfg, s, op))
  {
    hide Allocate, Vacate, BillMonth, L.Step;
    match op
    case OpAllocate(student, room, on, plan) => AllocateKeeps(cfg, s, student, room, on, plan);
    case OpVacate(a, on) => if a < |s.allocs| { VacateKeeps(cfg, s, a, on); }
    case OpWait(student, room) =>
    case OpBillMember(m, k) => if m < |s.book.members| { BillCarriesOver(cfg.setup, s.ledger, s.book, m, k, s.allocs); }
    case OpFees(op) => FeesStepCarriesOver(cfg.setup.fees, s.ledger, op, s.allocs);
  }

  /** Rooms never overflow, students never hold two beds, and hostel charges stay traceable. */
  lemma {:induction false} BedsStayWithinCapacity(cfg: Config, ops: seq<Op>)
    requires forall i :: 0 <= i < |ops| ==> Proper(ops[i])
    ensures Inv(cfg, Run(cfg, ops))
  {
    if ops != [] {
      BedsStayWithinCapacity(cfg, ops[..|ops| - 1]);
      StepKeepsInv(cfg, Run(cfg, ops[..|ops| - 1]), ops[|ops| - 1]);
    }
  }

  // ------------------------------------------------------------------ a fee for every month

  lemma BillKeepsPosted(setup: Setup, ledger: L.State, b: Book, m: nat, k: int, p: L.Posting)
    requires m < |b.members| && B.Posted(ledger, p)
    ensures BillMonth(setup, ledger, b, m, k).Ok? ==> B.Posted(BillMonth(setup, ledger, b, m, k).value.0, p)
  {
    hide L.PostCharge, B.Posted;
    if BillMonth(setup, ledger, b, m, k).Ok? && Billable(setup, b, ledger, m, k) {
      var member := b.members[m];
      var student, key := member.student.value, MessKey(m, k);
      var amount := if member.plan == Monthly then MonthlyBalance(setup, b, m, k)
                    else setup.mess(member.mess).perDayRate * Eaten(b, m, FirstDay(k), LastDay(k));
      var due := if member.plan == Monthly then L.Max(DueDay(k), member.start) else DueDay(k + 1);
      var q := Posting(setup, student, amount, due, key);
      if amount > 0 && L.PostCharge(setup.fees, ledger, q).Ok? {
        B.PostKeepsPosted(setup.fees, ledger, q, p);
      }
    }
  }

  lemma FeesArePostings(cfg: Config, ledger: L.State, alloc: Allocation, a: nat)
    requires cfg.setup.licensed && BestRule(cfg.rules(cfg.room(alloc.room).branch), cfg.room(alloc.room)).Some?
    ensures var amount := BestRule(cfg.rules(cfg.room(alloc.room).branch), cfg.room(alloc.room)).value.amount;
            var n := MonthCount(MonthOf(alloc.checkIn), LastMonth(cfg, alloc.checkIn));
            PostFees(cfg, ledger, alloc, a) == L.PostAll(cfg.setup.fees, ledger, FeePostings(cfg, alloc, a, amount, n))
  {
    hide MonthOf, LastMonth, BestRule, FeePostings, L.PostAll;
  }

  lemma FeeAt(cfg: Config, alloc: Allocation, a: nat, amount: int, n: nat, i: nat)
    requires i < n
    ensures |FeePostings(cfg, alloc, a, amount, n)| == n
    ensures FeePostings(cfg, alloc, a, amount, n)[i] == FeePosting(cfg, alloc, a, amount, MonthOf(alloc.checkIn) + i)
  {
    hide MonthOf, FeePosting;
  }

  lemma AllPosted(cfg: Config, ledger: L.State, alloc: Allocation, a: nat, amount: int, n: nat, i: nat)
    requires i < n && L.PostAll(cfg.setup.fees, ledger, FeePostings(cfg, alloc, a, amount, n)).Ok?
    ensures B.Posted(L.PostAll(cfg.setup.fees, ledger, FeePostings(cfg, alloc, a, amount, n)).value,
                     FeePosting(cfg, alloc, a, amount, MonthOf(alloc.checkIn) + i))
  {
    hide MonthOf, FeePosting, FeePostings, B.Posted, L.PostAll;
    KeysNotEmpty(cfg, alloc, a, amount, n);
    FeeAt(cfg, alloc, a, amount, n, i);
    B.BatchPosted(cfg.setup.fees, ledger, FeePostings(cfg, alloc, a, amount, n));
  }

  lemma FeesPosted(cfg: Config, ledger: L.State, alloc: Allocation, a: nat, k: int)
    requires cfg.setup.licensed && BestRule(cfg.rules(cfg.room(alloc.room).branch), cfg.room(alloc.room)).Some?
    requires PostFees(cfg, ledger, alloc, a).Ok? && MonthOf(alloc.checkIn) <= k <= LastMonth(cfg, alloc.checkIn)
    ensures var amount := BestRule(cfg.rules(cfg.room(alloc.room).branch), cfg.room(alloc.room)).value.amount;
            B.Posted(PostFees(cfg, ledger, alloc, a).value, FeePosting(cfg, alloc, a, amount, k))
  {
    hide MonthOf, LastMonth, BestRule, FeePosting, FeePostings, B.Posted, PostFees, L.PostAll;
    var amount := BestRule(cfg.rules(cfg.room(alloc.room).branch), cfg.room(alloc.room)).value.amount;
    var first := MonthOf(alloc.checkIn);
    FeesArePostings(cfg, ledger, alloc, a);
    AllPosted(cfg, ledger, alloc, a, amount, MonthCount(first, LastMonth(cfg, alloc.checkIn)), k - first);
  }

  lemma KeysNotEmpty(cfg: Config, alloc: Allocation, a: nat, amount: int, n: nat)
    ensures forall i :: 0 <= i < n ==> FeePostings(cfg, alloc, a, amount, n)[i].sourceId != ""
  {
    hide MonthOf, FeePosting;
    forall i | 0 <= i < n ensures FeePostings(cfg, alloc, a, amount, n)[i].sourceId != "" {
      KeyNotEmpty(cfg, alloc, a, amount, MonthOf(alloc.checkIn) + i);
    }
  }

  lemma KeyNotEmpty(cfg: Config, alloc: Allocation, a: nat, amount: int, k: int)
    ensures FeePosting(cfg, alloc, a, amount, k).sourceId != ""
  {
    hide MonthOf, MonthText, Decimal;
    assert |AllocKey(a, k)| > 0;
  }

  /** A new allocation is charged once for every month from check-in to the end of the academic year. */
  lemma EveryMonthChargedOnce(cfg: Config, s: State, student: nat, room: nat, on: int, plan: PlanKind, k: int)
    requires Inv(cfg, s) && cfg.setup.licensed && BestRule(cfg.rules(cfg.room(room).branch), cfg.room(room)).Some?
    requires Allocate(cfg, s, student, room, on, plan).Ok? && MonthOf(on) <= k <= LastMonth(cfg, on)
    ensures var t := Allocate(cfg, s, student, room, on, plan).value;
            B.CountLive(t.ledger.charges, student, L.Hostel, AllocKey(|s.allocs|, k)) == 1
  {
    hide MonthOf, LastMonth, BillMonth, PostFees, MayTake, HostelCharges;
    AllocateKeeps(cfg, s, student, room, on, plan);
    var t := Allocate(cfg, s, student, room, on, plan).value;
    var alloc, a := Allocation(student, room, on, None), |s.allocs|;
    FeesPosted(cfg, s.ledger, alloc, a, k);
    var p := FeePosting(cfg, alloc, a, BestRule(cfg.rules(cfg.room(room).branch), cfg.room(room)).value.amount, k);
    var ledger := PostFees(cfg, s.ledger, alloc, a).value;
    if t.ledger != ledger {
      var mess := cfg.messOf(cfg.room(room).block);
      var b := s.book.(members := s.book.members + [Member(mess.value, Some(student), plan, on, None, Some(a))]);
      BillKeepsPosted(cfg.setup, ledger, b, |s.book.members|, MonthOf(on), p);
    }
    assert t.ledger.charges[..|t.ledger.charges|] == t.ledger.charges;
    B.AtMostOneLive(t.ledger, |t.ledger.charges|, student, L.Hostel, AllocKey(a, k));
  }
}
