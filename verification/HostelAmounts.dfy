/** Who gets a bed, what it costs month by month, and what comes with it (apps/hostel/services.py). */
module HostelAmounts {
  import opened Wrappers
  import opened Rounding
  import opened Dates
  import opened MessModel
  import opened HostelModel
  import S = HostelSafety
  import L = LedgerModel
  import I = LedgerInvariants
  import A = LedgerAmounts
  import B = LedgerBilling
  import M = MessAmounts
  import G = GateModel
  import Sums

  // ------------------------------------------------------------------ the rule charged

  predicate ForRoom(r: FeeRule, room: Room) {
    (r.block == None || r.block == Some(room.block)) && (r.kind == None || r.kind == Some(room.kind))
  }

  /** A rule for the block before one for all blocks; among those, one for the room type before one for all. */
  predicate NoLessSpecific(a: FeeRule, b: FeeRule) {
    (b.block.Some? ==> a.block.Some?) && (a.block.Some? == b.block.Some? && b.kind.Some? ==> a.kind.Some?)
  }

  lemma RuleByBlockThenType(rules: seq<FeeRule>, room: Room)
    ensures var best := BestRule(rules, room);
            (best.None? <==> forall i :: 0 <= i < |rules| ==> !ForRoom(rules[i], room))
            && (best.Some? ==> best.value in rules && ForRoom(best.value, room)
                               && forall i :: 0 <= i < |rules| && ForRoom(rules[i], room) ==> NoLessSpecific(best.value, rules[i]))
  {
    S.BestRuleIsMostSpecific(rules, room);
    forall i | 0 <= i < |rules| ensures Applies(rules[i], room) <==> ForRoom(rules[i], room) {
    }
    hide BestRule;
  }

  // ------------------------------------------------------------------ who may take a bed

  function BedsTaken(allocs: seq<Allocation>, room: nat): set<nat> {
    set i: nat | i < |allocs| && allocs[i].room == room && allocs[i].checkOut == None
  }

  lemma {:induction false} BedsCounted(allocs: seq<Allocation>, room: nat)
    ensures Occupied(allocs, room) == |BedsTaken(allocs, room)|
  {
    if allocs == [] {
      assert BedsTaken(allocs, room) == {};
    } else {
      var n := |allocs| - 1;
      BedsCounted(allocs[..n], room);
      if ActiveIn(allocs[n], room) {
        assert BedsTaken(allocs, room) == BedsTaken(allocs[..n], room) + {n};
      } else {
        assert BedsTaken(allocs, room) == BedsTaken(allocs[..n], room);
      }
    }
  }

  /** The room's own rule, else the block's; a student without one recorded may go anywhere. */
  predicate GenderFits(room: Room, gender: Option<Gender>) {
    var wanted := if room.gender == Any then room.blockGender else room.gender;
    wanted == Any || gender == None || gender == Some(wanted)
  }

  /** A usable room of the student's branch without an open ticket, with a bed left, and no bed held already. */
  lemma MayTakeExactly(cfg: Config, s: State, student: nat, room: nat)
    ensures var r := cfg.room(room);
            (MayTake(cfg, s, student, room)
             <==> cfg.setup.fees.branchOf(student) == r.branch && r.status == Usable && !r.openTicket
                  && |BedsTaken(s.allocs, room)| < r.capacity && GenderFits(r, cfg.gender(student))
                  && forall i :: 0 <= i < |s.allocs| && s.allocs[i].student == student ==> s.allocs[i].checkOut.Some?)
  {
    BedsCounted(s.allocs, room);
    hide BedsTaken, Occupied;
  }

  /** Heads belong to the branch they are for, and rules ask for something, as the database demands. */
  ghost predicate SetUpRight(cfg: Config) {
    (forall b: nat :: cfg.setup.fees.head(cfg.hostelHead(b)).branch == b && cfg.setup.fees.head(cfg.setup.messHead(b)).branch == b)
    && forall b: nat, r :: r in cfg.rules(b) ==> r.amount > 0
  }

  lemma {:induction false} AllAccepted(fees: L.Config, s: L.State, ps: seq<L.Posting>)
    requires forall i :: 0 <= i < |ps| ==>
               fees.head(ps[i].head).branch == fees.branchOf(ps[i].student) && Hundredths(ps[i].amount) >= 0
    ensures L.PostAll(fees, s, ps).Ok?
  {
    if ps != [] {
      AllAccepted(fees, s, ps[..|ps| - 1]);
      hide L.FindKey, L.Recompute, Hundredths;
    }
  }

  lemma FeeFits(cfg: Config, alloc: Allocation, a: nat, amount: int, k: int)
    requires SetUpRight(cfg) && amount > 0
    ensures var p := FeePosting(cfg, alloc, a, amount, k);
            cfg.setup.fees.head(p.head).branch == cfg.setup.fees.branchOf(p.student) && Hundredths(p.amount) >= 0
  {
    WholePaise(amount);
    hide Hundredths, AllocKey, FirstDay, MonthText;
  }

  lemma FeesAccepted(cfg: Config, ledger: L.State, alloc: Allocation, a: nat)
    requires SetUpRight(cfg)
    ensures PostFees(cfg, ledger, alloc, a).Ok?
  {
    var rules := cfg.rules(cfg.room(alloc.room).branch);
    var rule := BestRule(rules, cfg.room(alloc.room));
    if cfg.setup.licensed && rule.Some? {
      S.BestRuleIsMostSpecific(rules, cfg.room(alloc.room));
      hide BestRule, MonthOf, L.PostAll, AllocKey, DueDay, LastMonth, MonthCount;
      var n := MonthCount(MonthOf(alloc.checkIn), LastMonth(cfg, alloc.checkIn));
      var ps := FeePostings(cfg, alloc, a, rule.value.amount, n);
      hide FeePosting, FeePostings;
      forall i | 0 <= i < |ps|
        ensures cfg.setup.fees.head(ps[i].head).branch == cfg.setup.fees.branchOf(ps[i].student) && Hundredths(ps[i].amount) >= 0
      {
        S.FeeAt(cfg, alloc, a, rule.value.amount, n, i);
        FeeFits(cfg, alloc, a, rule.value.amount, MonthOf(alloc.checkIn) + i);
      }
      AllAccepted(cfg.setup.fees, ledger, ps);
    }
  }

  lemma BillAccepted(cfg: Config, ledger: L.State, b: Book, m: nat, k: int)
    requires SetUpRight(cfg) && m < |b.members|
    ensures BillMonth(cfg.setup, ledger, b, m, k).Ok?
  {
    hide L.FindKey, L.Recompute, MonthlyBalance, Eaten, NewRebates, Attach, FirstDay, LengthOf, MessKey, Billable;
    var member := b.members[m];
    forall student: nat, amount: int, due: int, key: string ensures PostBill(cfg.setup, ledger, student, amount, due, key).Ok? {
      WholePaise(amount);
    }
    hide PostBill, Hundredths;
  }

  /** The mess of the block is open to the student's branch, where the student would join it. */
  predicate MessFits(cfg: Config, s: State, student: nat, room: nat) {
    var mess := cfg.messOf(cfg.room(room).block);
    mess == None || cfg.messBranch(mess.value) == cfg.setup.fees.branchOf(student)
    || exists i :: 0 <= i < |s.book.members| && s.book.members[i].student == Some(student) && s.book.members[i].end == None
  }

  /** A bed is refused exactly when the student may not take it, or may not join the mess that goes with it. */
  lemma AllocatedExactly(cfg: Config, s: State, student: nat, room: nat, on: int, plan: PlanKind)
    requires SetUpRight(cfg)
    ensures Allocate(cfg, s, student, room, on, plan).Ok? <==> MayTake(cfg, s, student, room) && MessFits(cfg, s, student, room)
  {
    var alloc, a := Allocation(student, room, on, None), |s.allocs|;
    FeesAccepted(cfg, s.ledger, alloc, a);
    var mess := cfg.messOf(cfg.room(room).block);
    if mess.Some? {
      var b := s.book.(members := s.book.members + [Member(mess.value, Some(student), plan, on, None, Some(a))]);
      BillAccepted(cfg, PostFees(cfg, s.ledger, alloc, a).value, b, |s.book.members|, MonthOf(on));
    }
    OpenMembership(s.book.members, student);
    hide MayTake, PostFees, BillMonth, MonthOf, Fulfil, G.FindOpen;
  }

  lemma OpenMembership(members: seq<Member>, student: nat)
    ensures G.FindOpen(members, student).Some?
       <==> exists i :: 0 <= i < |members| && members[i].student == Some(student) && members[i].end == None
  {
    hide G.FindOpen;
  }

  /**
   With the bed go: the row of the allocation, the student's own waits for the room fulfilled, and,
   without an open membership, one in the block's mess from the same day.
   */
  lemma AllocatedAsAsked(cfg: Config, s: State, student: nat, room: nat, on: int, plan: PlanKind)
    requires Allocate(cfg, s, student, room, on, plan).Ok?
    ensures var t, mess := Allocate(cfg, s, student, room, on, plan).value, cfg.messOf(cfg.room(room).block);
            t.allocs == s.allocs + [Allocation(student, room, on, None)] && |t.waits| == |s.waits|
            && (forall i :: 0 <= i < |s.waits| ==>
                  var w := s.waits[i];
                  t.waits[i] == if w.student == student && w.room == room && (w.status == Waiting || w.status == Offered)
                                then w.(status := Fulfilled) else w)
            && t.book.members == if mess == None || G.FindOpen(s.book.members, student).Some? then s.book.members
                                 else s.book.members + [Member(mess.value, Some(student), plan, on, None, Some(|s.allocs|))]
  {
    hide MayTake, PostFees, MonthOf, G.FindOpen, PostBill, MonthlyBalance, Eaten, Billable;
  }

  // ------------------------------------------------------------------ the fees

  lemma KeyFree(cfg: Config, s: State, k: int, student: nat)
    requires S.HostelCharges(s.ledger, s.allocs)
    ensures forall i :: 0 <= i < |s.ledger.charges| ==>
              !A.IsLiveUnder(s.ledger.charges[i], student, L.Hostel, AllocKey(|s.allocs|, k))
  {
    hide AllocKey, MonthOf;
    forall i | 0 <= i < |s.ledger.charges| && A.IsLiveUnder(s.ledger.charges[i], student, L.Hostel, AllocKey(|s.allocs|, k))
      ensures false
    {
      assert S.HostelCharge(s.allocs, s.ledger.charges[i]);
      var a: nat, j: int :| S.FeeOf(s.allocs, s.ledger.charges[i], a, j);
      S.KeySelects(a, j, |s.allocs|, k);
    }
  }

  lemma BillKeepsAsked(cfg: Config, ledger: L.State, b: Book, m: nat, k: int, p: L.Posting)
    requires m < |b.members| && A.AskedOrNone(cfg.setup.fees, ledger, p) && p.source == L.Hostel
    requires BillMonth(cfg.setup, ledger, b, m, k).Ok?
    ensures A.AskedOrNone(cfg.setup.fees, BillMonth(cfg.setup, ledger, b, m, k).value.0, p)
  {
    hide A.AskedOrNone, L.PostCharge, MonthlyBalance, Eaten, Billable, NewRebates, Attach, FirstDay, LengthOf, MessKey;
    var student := b.members[m].student;
    if student.Some? {
      forall amount: int, due: int
        ensures var r := PostBill(cfg.setup, ledger, student.value, amount, due, MessKey(m, k));
                r.Ok? ==> A.AskedOrNone(cfg.setup.fees, r.value.0, p)
      {
        var q := Posting(cfg.setup, student.value, amount, due, MessKey(m, k));
        if amount > 0 && L.PostCharge(cfg.setup.fees, ledger, q).Ok? {
          A.PostKeepsAsked(cfg.setup.fees, ledger, q, p);
        }
      }
      hide PostBill;
      assert !Billable(cfg.setup, b, ledger, m, k) || student.Some?;
    } else {
      M.BilledExactly(cfg.setup, ledger, b, m, k);
    }
  }

  lemma FeeAsked(cfg: Config, s: State, alloc: Allocation, k: int)
    requires S.HostelCharges(s.ledger, s.allocs) && cfg.setup.licensed
    requires BestRule(cfg.rules(cfg.room(alloc.room).branch), cfg.room(alloc.room)).Some?
    requires PostFees(cfg, s.ledger, alloc, |s.allocs|).Ok? && MonthOf(alloc.checkIn) <= k <= LastMonth(cfg, alloc.checkIn)
    ensures var amount := BestRule(cfg.rules(cfg.room(alloc.room).branch), cfg.room(alloc.room)).value.amount;
            A.AskedOrNone(cfg.setup.fees, PostFees(cfg, s.ledger, alloc, |s.allocs|).value, FeePosting(cfg, alloc, |s.allocs|, amount, k))
  {
    var a, amount := |s.allocs|, BestRule(cfg.rules(cfg.room(alloc.room).branch), cfg.room(alloc.room)).value.amount;
    var first := MonthOf(alloc.checkIn);
    var n := MonthCount(first, LastMonth(cfg, alloc.checkIn));
    hide MonthOf, LastMonth, BestRule, PostFees, L.PostAll, S.HostelCharges, AllocKey, MonthCount, FeePosting, FeePostings, A.AskedOrNone;
    S.FeesArePostings(cfg, s.ledger, alloc, a);
    NoneUnderKey(cfg, s, alloc, amount, k);
    OneFeeAKey(cfg, alloc, a, amount, n, k);
    A.BatchKeepsAsked(cfg.setup.fees, s.ledger, FeePostings(cfg, alloc, a, amount, n), FeePosting(cfg, alloc, a, amount, k));
  }

  lemma NoneUnderKey(cfg: Config, s: State, alloc: Allocation, amount: int, k: int)
    requires S.HostelCharges(s.ledger, s.allocs)
    ensures A.AskedOrNone(cfg.setup.fees, s.ledger, FeePosting(cfg, alloc, |s.allocs|, amount, k))
  {
    KeyFree(cfg, s, k, alloc.student);
    PostingIs(cfg, alloc, |s.allocs|, amount, k);
    hide S.HostelCharges, AllocKey, FeePosting, A.AsAsked, FirstDay;
  }

  lemma OneFeeAKey(cfg: Config, alloc: Allocation, a: nat, amount: int, n: nat, k: int)
    ensures var ps, p := FeePostings(cfg, alloc, a, amount, n), FeePosting(cfg, alloc, a, amount, k);
            forall i :: 0 <= i < |ps| && ps[i].student == p.student && ps[i].source == p.source && ps[i].sourceId == p.sourceId ==> ps[i] == p
  {
    hide MonthOf, AllocKey, FeePosting, FeePostings, FirstDay;
    var ps, p := FeePostings(cfg, alloc, a, amount, n), FeePosting(cfg, alloc, a, amount, k);
    PostingIs(cfg, alloc, a, amount, k);
    PostingCount(cfg, alloc, a, amount, n);
    forall i | 0 <= i < |ps| && ps[i].sourceId == p.sourceId ensures ps[i] == p {
      S.FeeAt(cfg, alloc, a, amount, n, i);
      PostingIs(cfg, alloc, a, amount, MonthOf(alloc.checkIn) + i);
      S.KeySelects(a, MonthOf(alloc.checkIn) + i, a, k);
    }
  }

  lemma PostingCount(cfg: Config, alloc: Allocation, a: nat, amount: int, n: nat)
    ensures |FeePostings(cfg, alloc, a, amount, n)| == n
  {
    hide MonthOf, FeePosting;
  }

  /**
   Every month from check-in to the end of the academic year is charged at the amount of the room's
   rule, due on the tenth or, in the first month, on the check-in day if that is later, under the
   academic year of the check-in.
   */
  lemma EveryMonthAtTheRulesAmount(cfg: Config, s: State, student: nat, room: nat, on: int, plan: PlanKind, k: int)
    requires S.Inv(cfg, s) && cfg.setup.licensed && Allocate(cfg, s, student, room, on, plan).Ok?
    requires BestRule(cfg.rules(cfg.room(room).branch), cfg.room(room)).Some?
    requires MonthOf(on) <= k <= MonthOf(match cfg.yearOf(on) case None => on case Some(y) => y.1)
    ensures var t := Allocate(cfg, s, student, room, on, plan).value;
            exists c :: 0 <= c < |t.ledger.charges| && A.IsLiveUnder(t.ledger.charges[c], student, L.Hostel, AllocKey(|s.allocs|, k))
                        && t.ledger.charges[c].amount == BestRule(cfg.rules(cfg.room(room).branch), cfg.room(room)).value.amount
                        && t.ledger.charges[c].due == (if on > FirstDay(k) + 9 then on else FirstDay(k) + 9)
                        && t.ledger.charges[c].head == cfg.hostelHead(cfg.setup.fees.branchOf(student))
                        && t.ledger.charges[c].year == if cfg.yearOf(on).Some? then Some(cfg.yearOf(on).value.0)
                                                       else cfg.setup.fees.yearOf(t.ledger.charges[c].due)
  {
    var amount, alloc, a := BestRule(cfg.rules(cfg.room(room).branch), cfg.room(room)).value.amount, Allocation(student, room, on, None), |s.allocs|;
    assert k <= LastMonth(cfg, on);
    hide MonthOf, LastMonth, BestRule, BillMonth, MayTake, FirstDay, AllocKey, B.Posted, PostFees, FeePosting;
    FeeAsked(cfg, s, alloc, k);
    S.FeesPosted(cfg, s.ledger, alloc, a, k);
    var p, ledger := FeePosting(cfg, alloc, a, amount, k), PostFees(cfg, s.ledger, alloc, a).value;
    PostingIs(cfg, alloc, a, amount, k);
    var t := Allocate(cfg, s, student, room, on, plan).value;
    if t.ledger != ledger {
      var mess := cfg.messOf(cfg.room(room).block);
      var b := s.book.(members := s.book.members + [Member(mess.value, Some(student), plan, on, None, Some(a))]);
      BillKeepsAsked(cfg, ledger, b, |s.book.members|, MonthOf(on), p);
      S.BillKeepsPosted(cfg.setup, ledger, b, |s.book.members|, MonthOf(on), p);
    }
    AskedIsCharged(cfg, t.ledger, p, amount);
  }

  lemma PostingIs(cfg: Config, alloc: Allocation, a: nat, amount: int, k: int)
    ensures var p := FeePosting(cfg, alloc, a, amount, k);
            p.student == alloc.student && p.source == L.Hostel && p.sourceId == AllocKey(a, k) && p.amount == amount as real / 100.0
            && p.due == (if alloc.checkIn > FirstDay(k) + 9 then alloc.checkIn else FirstDay(k) + 9)
            && p.head == cfg.hostelHead(cfg.setup.fees.branchOf(alloc.student))
            && p.year == (if cfg.yearOf(alloc.checkIn).Some? then Some(cfg.yearOf(alloc.checkIn).value.0) else None)
  {
    hide FirstDay, AllocKey;
  }

  lemma AskedIsCharged(cfg: Config, ledger: L.State, p: L.Posting, amount: int)
    requires A.AskedOrNone(cfg.setup.fees, ledger, p) && B.Posted(ledger, p) && p.amount == amount as real / 100.0
    ensures exists c :: 0 <= c < |ledger.charges| && A.IsLiveUnder(ledger.charges[c], p.student, p.source, p.sourceId)
                        && ledger.charges[c].amount == amount && ledger.charges[c].due == p.due && ledger.charges[c].head == p.head
                        && ledger.charges[c].year == if p.year.Some? then p.year else cfg.setup.fees.yearOf(p.due)
  {
    var c := L.FindKey(ledger.charges, Some(p.student), p.source, p.sourceId).value;
    assert A.IsLiveUnder(ledger.charges[c], p.student, p.source, p.sourceId);
    WholePaise(amount);
    NearestPaise(p.amount, ledger.charges[c].amount);
    hide IsPaise, Hundredths, L.FindKey;
  }

  lemma OtherKeys(cfg: Config, alloc: Allocation, a: nat, amount: int, n: nat, k: int)
    requires k < MonthOf(alloc.checkIn) || k >= MonthOf(alloc.checkIn) + n
    ensures var ps := FeePostings(cfg, alloc, a, amount, n);
            forall i :: 0 <= i < |ps| ==> ps[i].sourceId != AllocKey(a, k)
  {
    hide MonthOf, AllocKey, FeePosting, FeePostings, FirstDay;
    var ps, first := FeePostings(cfg, alloc, a, amount, n), MonthOf(alloc.checkIn);
    PostingCount(cfg, alloc, a, amount, n);
    forall i | 0 <= i < |ps| ensures ps[i].sourceId != AllocKey(a, k) {
      S.FeeAt(cfg, alloc, a, amount, n, i);
      PostingIs(cfg, alloc, a, amount, first + i);
      if AllocKey(a, first + i) == AllocKey(a, k) {
        S.KeySelects(a, first + i, a, k);
      }
    }
  }

  lemma OtherMonthsKept(cfg: Config, s: State, alloc: Allocation, k: int, p: L.Posting)
    requires S.HostelCharges(s.ledger, s.allocs) && PostFees(cfg, s.ledger, alloc, |s.allocs|).Ok?
    requires k < MonthOf(alloc.checkIn) || k > LastMonth(cfg, alloc.checkIn)
    requires p.student == alloc.student && p.source == L.Hostel && p.sourceId == AllocKey(|s.allocs|, k)
    ensures A.AskedOrNone(cfg.setup.fees, PostFees(cfg, s.ledger, alloc, |s.allocs|).value, p)
  {
    hide MonthOf, LastMonth, BestRule, L.PostAll, S.HostelCharges, AllocKey, FeePosting, FeePostings, PostFees, A.AsAsked;
    var a, first := |s.allocs|, MonthOf(alloc.checkIn);
    var rule := BestRule(cfg.rules(cfg.room(alloc.room).branch), cfg.room(alloc.room));
    KeyFree(cfg, s, k, alloc.student);
    if cfg.setup.licensed && rule.Some? {
      S.FeesArePostings(cfg, s.ledger, alloc, a);
      var n := MonthCount(first, LastMonth(cfg, alloc.checkIn));
      OtherKeys(cfg, alloc, a, rule.value.amount, n, k);
      A.BatchKeepsAsked(cfg.setup.fees, s.ledger, FeePostings(cfg, alloc, a, rule.value.amount, n), p);
    } else {
      NoFees(cfg, s.ledger, alloc, a);
    }
  }

  lemma NoFees(cfg: Config, ledger: L.State, alloc: Allocation, a: nat)
    requires !cfg.setup.licensed || BestRule(cfg.rules(cfg.room(alloc.room).branch), cfg.room(alloc.room)).None?
    ensures PostFees(cfg, ledger, alloc, a) == Ok(ledger)
  {
    hide BestRule, MonthOf, L.PostAll, FeePostings, LastMonth;
  }

  /** No month before check-in or after the academic year's end is charged. */
  lemma NoFeeOutsideTheStay(cfg: Config, s: State, student: nat, room: nat, on: int, plan: PlanKind, k: int)
    requires S.Inv(cfg, s) && Allocate(cfg, s, student, room, on, plan).Ok?
    requires k < MonthOf(on) || k > MonthOf(match cfg.yearOf(on) case None => on case Some(y) => y.1)
    ensures var t := Allocate(cfg, s, student, room, on, plan).value;
            forall c :: 0 <= c < |t.ledger.charges| ==> !A.IsLiveUnder(t.ledger.charges[c], student, L.Hostel, AllocKey(|s.allocs|, k))
  {
    var alloc, a := Allocation(student, room, on, None), |s.allocs|;
    assert k < MonthOf(on) || k > LastMonth(cfg, on);
    hide MonthOf, LastMonth, BillMonth, MayTake, AllocKey, PostFees;
    var p := L.Posting(student, 0, 0.0, 0, L.Hostel, AllocKey(a, k), None, None);
    var q := p.(amount := 1.0);
    OtherMonthsKept(cfg, s, alloc, k, p);
    OtherMonthsKept(cfg, s, alloc, k, q);
    var t, ledger := Allocate(cfg, s, student, room, on, plan).value, PostFees(cfg, s.ledger, alloc, a).value;
    if t.ledger != ledger {
      var mess := cfg.messOf(cfg.room(room).block);
      var b := s.book.(members := s.book.members + [Member(mess.value, Some(student), plan, on, None, Some(a))]);
      BillKeepsAsked(cfg, ledger, b, |s.book.members|, MonthOf(on), p);
      BillKeepsAsked(cfg, ledger, b, |s.book.members|, MonthOf(on), q);
    }
    NeitherAsked(cfg, t.ledger, p, q);
  }

  /** A charge cannot be for two amounts at once. */
  lemma NeitherAsked(cfg: Config, ledger: L.State, p: L.Posting, q: L.Posting)
    requires A.AskedOrNone(cfg.setup.fees, ledger, p) && A.AskedOrNone(cfg.setup.fees, ledger, q)
    requires p.amount == 0.0 && q == p.(amount := 1.0)
    ensures forall c :: 0 <= c < |ledger.charges| ==> !A.IsLiveUnder(ledger.charges[c], p.student, p.source, p.sourceId)
  {
  }

  // ------------------------------------------------------------------ the first mess bill

  lemma FeesLeaveMess(cfg: Config, ledger: L.State, alloc: Allocation, a: nat, student: nat, key: string)
    requires PostFees(cfg, ledger, alloc, a).Ok?
    requires forall c :: 0 <= c < |ledger.charges| ==> !A.IsLiveUnder(ledger.charges[c], student, L.Mess, key)
    ensures var fees := PostFees(cfg, ledger, alloc, a).value;
            forall c :: 0 <= c < |fees.charges| ==> !A.IsLiveUnder(fees.charges[c], student, L.Mess, key)
  {
    hide MonthOf, LastMonth, BestRule, L.PostAll, AllocKey, FeePosting, FeePostings, PostFees, MonthCount, A.AsAsked;
    var rule := BestRule(cfg.rules(cfg.room(alloc.room).branch), cfg.room(alloc.room));
    if cfg.setup.licensed && rule.Some? {
      var p := L.Posting(student, 0, 0.0, 0, L.Mess, key, None, None);
      var n := MonthCount(MonthOf(alloc.checkIn), LastMonth(cfg, alloc.checkIn));
      var ps := FeePostings(cfg, alloc, a, rule.value.amount, n);
      S.FeesArePostings(cfg, ledger, alloc, a);
      OnlyHostelFees(cfg, alloc, a, rule.value.amount, n);
      A.BatchKeepsAsked(cfg.setup.fees, ledger, ps, p);
      A.BatchKeepsAsked(cfg.setup.fees, ledger, ps, p.(amount := 1.0));
      NeitherAsked(cfg, PostFees(cfg, ledger, alloc, a).value, p, p.(amount := 1.0));
    } else {
      NoFees(cfg, ledger, alloc, a);
    }
  }

  lemma OnlyHostelFees(cfg: Config, alloc: Allocation, a: nat, amount: int, n: nat)
    ensures var ps := FeePostings(cfg, alloc, a, amount, n);
            forall i :: 0 <= i < |ps| ==> ps[i].source == L.Hostel
  {
    hide MonthOf, AllocKey, FeePosting, FeePostings, FirstDay;
    var ps := FeePostings(cfg, alloc, a, amount, n);
    PostingCount(cfg, alloc, a, amount, n);
    forall i | 0 <= i < |ps| ensures ps[i].source == L.Hostel {
      S.FeeAt(cfg, alloc, a, amount, n, i);
      PostingIs(cfg, alloc, a, amount, MonthOf(alloc.checkIn) + i);
    }
  }

  lemma DaysLeft(m: Member)
    requires m.end.None?
    ensures var k := MonthOf(m.start);
            M.MemberDays(m, FirstDay(k), LastDay(k)) == Sums.Span(m.start, LastDay(k)) && m.start <= LastDay(k)
            && M.MemberDays(m, FirstDay(k - 1), LastDay(k - 1)) == {}
  {
    InItsMonth(m.start);
    NextMonthFollows(MonthOf(m.start) - 1);
    hide MonthOf, FirstDay, LengthOf;
  }

  /** A membership that starts in a month has no rebates for the month before it. */
  lemma NothingToRebate(setup: Setup, ledger: L.State, b: Book, m: nat, k: int)
    requires m < |b.members| && b.members[m].plan == Monthly && b.members[m].end.None? && k == MonthOf(b.members[m].start)
    requires forall i :: 0 <= i < |b.rebates| ==> b.rebates[i].member != m
    requires BillMonth(setup, ledger, b, m, k).Ok? && Billable(setup, b, ledger, m, k)
    ensures BillMonth(setup, ledger, b, m, k).value.1.rebates == b.rebates && M.RebateSum(b.rebates, m, k - 1) == 0
  {
    hide *;
    DaysLeft(b.members[m]);
    NoDayNoRebate(setup, b, m, k - 1);
    M.NoneEarned(setup, b, m, k - 1, b.leaves);
    M.NoneAddUp(b.rebates, m, k - 1);
    M.BookAfter(setup, ledger, b, m, k);
    assert b.rebates + [] == b.rebates;
    NoneToAttach(b.rebates, m, k - 1, BillMonth(setup, ledger, b, m, k).value.2);
  }

  lemma NoDayNoRebate(setup: Setup, b: Book, m: nat, month: int)
    requires m < |b.members| && M.MemberDays(b.members[m], FirstDay(month), LastDay(month)) == {}
    ensures forall i :: 0 <= i < |b.leaves| ==> !M.Earns(setup, b, m, month, b.leaves[i])
  {
    hide FirstDay, LengthOf, M.MemberDays;
  }

  lemma NoneToAttach(rebates: seq<Rebate>, m: nat, month: int, charge: Option<nat>)
    requires forall i :: 0 <= i < |rebates| ==> rebates[i].member != m
    ensures Attach(rebates, m, month, charge) == rebates
  {
  }

  /**
   Who joins the mess by the month is billed at once for the days left of it, on the tenth or on a
   later check-in day; who joins by the day is billed nothing yet.
   */
  lemma FirstMessBill(cfg: Config, s: State, student: nat, room: nat, on: int, plan: PlanKind, base: int)
    requires Allocate(cfg, s, student, room, on, plan).Ok?
    requires cfg.messOf(cfg.room(room).block).Some? && G.FindOpen(s.book.members, student).None?
    requires forall i :: 0 <= i < |s.book.rebates| ==> s.book.rebates[i].member < |s.book.members|
    requires forall c :: 0 <= c < |s.ledger.charges| ==>
               !A.IsLiveUnder(s.ledger.charges[c], student, L.Mess, MessKey(|s.book.members|, MonthOf(on)))
    requires var k := MonthOf(on);
             IsNearest(cfg.setup.mess(cfg.messOf(cfg.room(room).block).value).monthlyCharge * (LastDay(k) - on + 1), |M.DaysOf(k)|, base)
    ensures var k, m := MonthOf(on), |s.book.members|;
            var t, fees := Allocate(cfg, s, student, room, on, plan).value, PostFees(cfg, s.ledger, Allocation(student, room, on, None), |s.allocs|);
            fees.Ok? && t.book.rebates == s.book.rebates
            && if plan == PerDay || !cfg.setup.licensed || base <= 0 then t.ledger == fees.value
               else |t.ledger.charges| == |fees.value.charges| + 1
                    && M.IsBill(cfg.setup, t.ledger.charges[|fees.value.charges|], student, m, k, base,
                                if on > FirstDay(k) + 9 then on else FirstDay(k) + 9)
  {
    var k, m, mess, alloc := MonthOf(on), |s.book.members|, cfg.messOf(cfg.room(room).block).value, Allocation(student, room, on, None);
    var member := Member(mess, Some(student), plan, on, None, Some(|s.allocs|));
    var b := s.book.(members := s.book.members + [member]);
    hide MonthOf, FirstDay, LengthOf, MayTake, PostFees, BillMonth, Billable, MessKey, M.MemberDays, M.DaysOf, M.IsBill, M.RebateSum, G.FindOpen, IsNearest;
    var fees := PostFees(cfg, s.ledger, alloc, |s.allocs|).value;
    if plan == Monthly {
      FeesLeaveMess(cfg, s.ledger, alloc, |s.allocs|, student, MessKey(m, k));
      MemberBilled(cfg.setup, fees, b, m, k, base);
    }
  }

  /** The first month of a monthly membership. */
  lemma MemberBilled(setup: Setup, ledger: L.State, b: Book, m: nat, k: int, base: int)
    requires m < |b.members| && b.members[m].plan == Monthly && b.members[m].student.Some? && b.members[m].end.None?
    requires k == MonthOf(b.members[m].start) && BillMonth(setup, ledger, b, m, k).Ok?
    requires forall i :: 0 <= i < |b.rebates| ==> b.rebates[i].member != m
    requires forall c :: 0 <= c < |ledger.charges| ==>
               !A.IsLiveUnder(ledger.charges[c], b.members[m].student.value, L.Mess, MessKey(m, k))
    requires IsNearest(setup.mess(b.members[m].mess).monthlyCharge * (LastDay(k) - b.members[m].start + 1), |M.DaysOf(k)|, base)
    ensures var r, start := BillMonth(setup, ledger, b, m, k).value, b.members[m].start;
            r.1.rebates == b.rebates
            && if !setup.licensed || base <= 0 then r.0 == ledger
               else |r.0.charges| == |ledger.charges| + 1
                    && M.IsBill(setup, r.0.charges[|ledger.charges|], b.members[m].student.value, m, k, base,
                                if start > FirstDay(k) + 9 then start else FirstDay(k) + 9)
  {
    hide MonthOf, FirstDay, LengthOf, BillMonth, Billable, MessKey, M.MemberDays, M.DaysOf, M.IsBill, M.RebateSum, IsNearest;
    var member := b.members[m];
    DaysLeft(member);
    Sums.SpanSize(member.start, LastDay(k));
    assert |M.MemberDays(member, FirstDay(k), LastDay(k))| == LastDay(k) - member.start + 1 > 0;
    M.BilledExactly(setup, ledger, b, m, k);
    if setup.licensed {
      M.MonthlyBillAddsUp(setup, ledger, b, m, k, base);
      NothingToRebate(setup, ledger, b, m, k);
    }
  }

  // ------------------------------------------------------------------ the waiting list and vacating

  /** A student waits for a room exactly when no bed is free to take there, and waits once. */
  lemma WaitsExactly(cfg: Config, s: State, student: nat, room: nat)
    ensures var r, t := cfg.room(room), AddToWaitlist(cfg, s, student, room);
            (t.Ok? <==> (|BedsTaken(s.allocs, room)| >= r.capacity || r.status != Usable || r.openTicket)
                        && forall i :: 0 <= i < |s.waits| && s.waits[i].student == student && s.waits[i].room == room
                             ==> s.waits[i].status != Waiting && s.waits[i].status != Offered)
            && (t.Ok? ==> t.value == s.(waits := s.waits + [Wait(student, room, Waiting)]))
  {
    BedsCounted(s.allocs, room);
    hide BedsTaken, Occupied;
  }

  lemma {:induction false} EndAllKeepsBeds(cfg: Config, s: State, a: nat, on: int, n: nat)
    requires n <= |s.book.members|
    ensures var r := EndAll(cfg, s, a, on, n);
            r.Ok? ==> r.value.allocs == s.allocs && r.value.waits == s.waits
  {
    if n > 0 {
      EndAllKeepsBeds(cfg, s, a, on, n - 1);
      hide L.CancelFuture, MonthOf, FirstDay;
    }
  }

  /** Vacating closes the row on its day and offers the bed to the one who has waited longest for the room, if anyone. */
  lemma VacatedAsAsked(cfg: Config, s: State, a: nat, on: int)
    requires a < |s.allocs| && Vacate(cfg, s, a, on).Ok?
    ensures var t, alloc := Vacate(cfg, s, a, on).value, s.allocs[a];
            t.allocs == s.allocs[a := alloc.(checkOut := Some(on))] && |t.waits| == |s.waits|
            && forall i :: 0 <= i < |s.waits| ==>
                 t.waits[i] == if IsFirstWaiting(s.waits, alloc.room, i) then s.waits[i].(status := Offered) else s.waits[i]
  {
    var mid := s.(allocs := s.allocs[a := s.allocs[a].(checkOut := Some(on))],
                  ledger := CancelFees(cfg, s.ledger, s.allocs[a].student, a, on));
    EndAllKeepsBeds(cfg, mid, a, on, |mid.book.members|);
    hide EndAll, CancelFees, FirstWaiting;
  }

  predicate IsFirstWaiting(waits: seq<Wait>, room: nat, i: nat) {
    i < |waits| && waits[i].room == room && waits[i].status == Waiting
    && forall j :: 0 <= j < i ==> !(waits[j].room == room && waits[j].status == Waiting)
  }
}
