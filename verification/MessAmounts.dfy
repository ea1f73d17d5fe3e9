/** What mess bills and rebates come to, counted in days (apps/hostel/mess.py). */
module MessAmounts {
  import opened Wrappers
  import opened Rounding
  import opened Sums
  import opened Text
  import opened Dates
  import opened MessModel
  import opened MessCounting
  import L = LedgerModel
  import A = LedgerAmounts
  import C = LedgerConcessions
  import J = MessJob

  // ------------------------------------------------------------------ days

  function DaysOf(k: int): set<int> {
    Span(FirstDay(k), LastDay(k))
  }

  function MemberDays(m: Member, start: int, end: int): set<int> {
    set d | d in Span(start, end) && Within(d, m.start, m.end)
  }

  /** The days of a leave inside the membership in [start, end]. */
  function AwayDays(m: Member, l: Leave, start: int, end: int): set<int> {
    set d | d in MemberDays(m, start, end) && l.from <= d <= l.to
  }

  function MealDays(b: Book, m: nat, start: int, end: int): set<int>
    requires m < |b.members|
  {
    set d | d in MemberDays(b.members[m], start, end) && !OnLeave(b, m, d)
  }

  lemma MonthSize(k: int)
    ensures |DaysOf(k)| == LengthOf(k) > 0
  {
    SpanSize(FirstDay(k), LastDay(k));
    hide FirstDay;
  }

  lemma EnrolledCounts(m: Member, start: int, end: int)
    ensures Enrolled(m, start, end) == |MemberDays(m, start, end)|
  {
    var o := Overlap(m.start, m.end, start, end);
    forall d ensures d in MemberDays(m, start, end) <==> o.Some? && d in Span(o.value.0, o.value.1) {
      OverlapIsIntersection(m.start, m.end, start, end, d);
    }
    if o.Some? {
      assert MemberDays(m, start, end) == Span(o.value.0, o.value.1);
      SpanSize(o.value.0, o.value.1);
    } else {
      assert MemberDays(m, start, end) == {};
    }
  }

  lemma AwayCounts(m: Member, l: Leave, start: int, end: int)
    ensures PartDays(m, l, start, end) == |AwayDays(m, l, start, end)|
    ensures LeavePart(m, l, start, end).Some? <==> AwayDays(m, l, start, end) != {}
  {
    var p := LeavePart(m, l, start, end);
    forall d ensures d in AwayDays(m, l, start, end) <==> p.Some? && d in Span(p.value.0, p.value.1) {
      PartIsIntersection(m, l, start, end, d);
    }
    if p.Some? {
      assert AwayDays(m, l, start, end) == Span(p.value.0, p.value.1);
      SpanSize(p.value.0, p.value.1);
      assert p.value.0 in AwayDays(m, l, start, end);
    } else {
      assert AwayDays(m, l, start, end) == {};
    }
  }

  lemma EatenCounts(b: Book, m: nat, start: int, end: int)
    requires m < |b.members|
    ensures Eaten(b, m, start, end) == |MealDays(b, m, start, end)|
  {
    var all, away, here := MemberDays(b.members[m], start, end), LeaveDays(b, m, start, end), MealDays(b, m, start, end);
    EnrolledCounts(b.members[m], start, end);
    forall d ensures d in away <==> d in all && d !in here {
      LeaveDaysAre(b, m, start, end, d);
    }
    hide LeaveDays, MealDays, MemberDays;
    assert all == away + here && away !! here by {
      assert forall d :: d in here ==> d in all by { MealsAreEnrolled(b, m, start, end); }
    }
  }

  lemma MealsAreEnrolled(b: Book, m: nat, start: int, end: int)
    requires m < |b.members|
    ensures MealDays(b, m, start, end) <= MemberDays(b.members[m], start, end)
  {
  }

  // ------------------------------------------------------------------ rebates

  function RebateSum(rebates: seq<Rebate>, m: nat, month: int): int {
    Sum(seq(|rebates|, i requires 0 <= i < |rebates| =>
      if rebates[i].member == m && rebates[i].month == month then rebates[i].amount else 0))
  }

  lemma {:induction false} RebatesAddUp(rebates: seq<Rebate>, m: nat, month: int)
    ensures RebateTotal(rebates, m, month) == RebateSum(rebates, m, month)
  {
    var xs := seq(|rebates|, i requires 0 <= i < |rebates| =>
      if rebates[i].member == m && rebates[i].month == month then rebates[i].amount else 0);
    if rebates != [] {
      var n := |rebates| - 1;
      var front := rebates[..n];
      RebatesAddUp(front, m, month);
      assert xs[..n] == seq(|front|, i requires 0 <= i < |front| =>
        if front[i].member == m && front[i].month == month then front[i].amount else 0);
    }
  }

  lemma {:induction false} AttachKeepsSum(rebates: seq<Rebate>, m: nat, month: int, charge: Option<nat>)
    ensures RebateSum(Attach(rebates, m, month, charge), m, month) == RebateSum(rebates, m, month)
  {
    var ts := Attach(rebates, m, month, charge);
    assert seq(|ts|, i requires 0 <= i < |ts| => if ts[i].member == m && ts[i].month == month then ts[i].amount else 0)
        == seq(|rebates|, i requires 0 <= i < |rebates| => if rebates[i].member == m && rebates[i].month == month then rebates[i].amount else 0);
  }

  /** The leave is the member's, long enough for the mess, and has some day in the month. */
  predicate Earns(s: Setup, b: Book, m: nat, month: int, l: Leave)
    requires m < |b.members|
  {
    var info := s.mess(b.members[m].mess);
    l.member == m && 0 < info.rebateMinDays <= |Span(l.from, l.to)|
    && AwayDays(b.members[m], l, FirstDay(month), LastDay(month)) != {}
  }

  predicate RebatedBefore(b: Book, m: nat, month: int, leave: nat) {
    exists i :: 0 <= i < |b.rebates| && b.rebates[i].member == m && b.rebates[i].month == month && b.rebates[i].leave == leave
  }

  /** The rebate of a leave in a month: the mess's rate for each of its days. */
  function RebateOf(s: Setup, b: Book, m: nat, month: int, l: Leave): Rebate
    requires m < |b.members|
  {
    var days := |AwayDays(b.members[m], l, FirstDay(month), LastDay(month))|;
    Rebate(l.id, m, month, days, s.mess(b.members[m].mess).rebatePerDay * days, None)
  }

  lemma EarnsIff(s: Setup, b: Book, m: nat, month: int, l: Leave)
    requires m < |b.members|
    ensures Rebated(s, b, m, month, l) <==> Earns(s, b, m, month, l) && !RebatedBefore(b, m, month, l.id)
  {
    AwayCounts(b.members[m], l, FirstDay(month), LastDay(month));
    SpanSize(l.from, l.to);
    hide LeavePart, AwayDays, FirstDay, LengthOf, Span;
  }

  /** Exactly the leaves that earn a rebate and have none yet for the month get one. */
  lemma {:induction false} NewRebatesExactly(s: Setup, b: Book, m: nat, month: int, leaves: seq<Leave>, r: Rebate)
    requires m < |b.members|
    ensures r in NewRebates(s, b, m, month, leaves)
       <==> exists i :: 0 <= i < |leaves| && Earns(s, b, m, month, leaves[i]) && !RebatedBefore(b, m, month, leaves[i].id)
                        && r == RebateOf(s, b, m, month, leaves[i])
  {
    if leaves != [] {
      var n := |leaves| - 1;
      NewRebatesExactly(s, b, m, month, leaves[..n], r);
      EarnsIff(s, b, m, month, leaves[n]);
      AwayCounts(b.members[m], leaves[n], FirstDay(month), LastDay(month));
      hide Earns, RebatedBefore, Rebated, PartDays, AwayDays, FirstDay, LengthOf;
      assert forall i :: 0 <= i < n ==> leaves[..n][i] == leaves[i];
    }
  }

  // ------------------------------------------------------------------ keys

  lemma TwoDigitsSpelled(n: nat)
    requires n < 100
    ensures TwoDigits(n) == if n < 10 then "0" + Decimal(n) else Decimal(n)
  {
  }

  lemma MonthSpelled(k: int, year: nat, month: nat)
    requires k >= 0 && k / 12 == year && k % 12 + 1 == month
    ensures MonthText(k) == Decimal(year) + "-" + TwoDigits(month)
  {
    hide TwoDigits, Decimal;
  }

  /** "mess:7:2026-04" */
  lemma KeySpelled(m: nat, year: nat, month: nat)
    requires 1 <= month <= 12
    ensures MessKey(m, 12 * year + month - 1)
            == "mess:" + Decimal(m) + ":" + (Decimal(year) + "-" + (if month < 10 then "0" + Decimal(month) else Decimal(month)))
  {
    hide TwoDigits, Decimal, MonthText;
    IndexParts(Date(year, month, 1));
    MonthSpelled(12 * year + month - 1, year, month);
    TwoDigitsSpelled(month);
  }

  // ------------------------------------------------------------------ bills

  /** A live mess charge of the student for the member's month, of this amount. */
  predicate IsBill(s: Setup, ch: L.Charge, student: nat, m: nat, k: int, amount: int, due: int) {
    A.IsLiveUnder(ch, student, L.Mess, MessKey(m, k)) && ch.amount == amount && ch.due == due
    && ch.head == s.messHead(s.fees.branchOf(student)) && ch.parent.None? && ch.year == s.fees.yearOf(due)
  }

  /** A bill that is posted adds its charge. */
  lemma BillPosted(s: Setup, ledger: L.State, student: nat, amount: int, due: int, m: nat, k: int)
    requires PostBill(s, ledger, student, amount, due, MessKey(m, k)).Ok?
    requires L.FindKey(ledger.charges, Some(student), L.Mess, MessKey(m, k)).None?
    ensures var r := PostBill(s, ledger, student, amount, due, MessKey(m, k)).value;
            if amount <= 0 then r == (ledger, None)
            else r.1 == Some(|ledger.charges|) && |r.0.charges| == |ledger.charges| + 1
                 && IsBill(s, r.0.charges[|ledger.charges|], student, m, k, amount, due)
  {
    if amount > 0 {
      var p := Posting(s, student, amount, due, MessKey(m, k));
      A.PostAddsWhatIsAsked(s.fees, ledger, p);
      WholePaise(amount);
      NearestPaise(p.amount, L.PostCharge(s.fees, ledger, p).value.0.charges[|ledger.charges|].amount);
      hide IsPaise, Hundredths, MessKey, C.AccountDiscounted;
    }
  }

  /**
   A month is billed exactly for a student, with the fees module, when the membership has a day in it
   and no live charge stands under its key; otherwise nothing moves.
   */
  lemma BilledExactly(s: Setup, ledger: L.State, b: Book, m: nat, k: int)
    requires m < |b.members|
    ensures Billable(s, b, ledger, m, k)
       <==> b.members[m].student.Some? && s.licensed && MemberDays(b.members[m], FirstDay(k), LastDay(k)) != {}
            && forall i :: 0 <= i < |ledger.charges| ==>
                 !A.IsLiveUnder(ledger.charges[i], b.members[m].student.value, L.Mess, MessKey(m, k))
    ensures !Billable(s, b, ledger, m, k) ==> BillMonth(s, ledger, b, m, k) == Ok((ledger, b, None))
  {
    EnrolledCounts(b.members[m], FirstDay(k), LastDay(k));
    hide FirstDay, LengthOf, MessKey, MemberDays, BillMonth;
    NothingIfNotBillable(s, ledger, b, m, k);
  }

  lemma NothingIfNotBillable(s: Setup, ledger: L.State, b: Book, m: nat, k: int)
    requires m < |b.members|
    ensures !Billable(s, b, ledger, m, k) ==> BillMonth(s, ledger, b, m, k) == Ok((ledger, b, None))
  {
    hide Billable, PostBill;
  }

  lemma BaseIs(info: MessInfo, enrolled: int, k: int, base: int)
    requires IsNearest(info.monthlyCharge * enrolled, |DaysOf(k)|, base)
    ensures MonthlyBase(info, enrolled, k) == base
  {
    MonthSize(k);
    NearestQuotient(info.monthlyCharge * enrolled, LengthOf(k), base);
    hide RoundHalfUp, IsNearest, LengthOf, DaysOf;
  }

  /**
   A monthly bill: what the bill charges and the month before's rebates, which all point at it, add up
   to the monthly charge for the share of days enrolled, to the nearest paise. Nothing is charged
   exactly when the rebates reach that.
   */
  lemma MonthlyBillAddsUp(s: Setup, ledger: L.State, b: Book, m: nat, k: int, base: int)
    requires m < |b.members| && b.members[m].plan == Monthly && Billable(s, b, ledger, m, k)
    requires IsNearest(s.mess(b.members[m].mess).monthlyCharge * |MemberDays(b.members[m], FirstDay(k), LastDay(k))|, |DaysOf(k)|, base)
    requires BillMonth(s, ledger, b, m, k).Ok?
    ensures var r, member := BillMonth(s, ledger, b, m, k).value, b.members[m];
            var rebates := RebateSum(r.1.rebates, m, k - 1);
            r.1 == b.(rebates := r.1.rebates)
            && (forall i :: 0 <= i < |r.1.rebates| && r.1.rebates[i].member == m && r.1.rebates[i].month == k - 1
                  ==> r.1.rebates[i].charge == r.2)
            && if rebates >= base then r.0 == ledger && r.2.None?
               else r.2 == Some(|ledger.charges|) && |r.0.charges| == |ledger.charges| + 1
                    && IsBill(s, r.0.charges[|ledger.charges|], member.student.value, m, k, base - rebates,
                              if member.start > FirstDay(k) + 9 then member.start else FirstDay(k) + 9)
  {
    var member := b.members[m];
    var all := b.rebates + NewRebates(s, b, m, k - 1, b.leaves);
    EnrolledCounts(member, FirstDay(k), LastDay(k));
    BaseIs(s.mess(member.mess), Enrolled(member, FirstDay(k), LastDay(k)), k, base);
    RebatesAddUp(all, m, k - 1);
    var r := BillMonth(s, ledger, b, m, k).value;
    AttachKeepsSum(all, m, k - 1, r.2);
    hide IsNearest, MemberDays, Enrolled, MonthlyBase, FirstDay, LengthOf, RebateSum, RebateTotal, NewRebates, PostBill, MessKey;
    BillPosted(s, ledger, member.student.value, base - RebateSum(all, m, k - 1), L.Max(DueDay(k), member.start), m, k);
  }

  /** A whole month without leave to rebate is billed at the monthly charge. */
  lemma FullMonthAtMonthlyCharge(s: Setup, ledger: L.State, b: Book, m: nat, k: int)
    requires m < |b.members| && b.members[m].plan == Monthly && Billable(s, b, ledger, m, k)
    requires s.mess(b.members[m].mess).monthlyCharge > 0 && BillMonth(s, ledger, b, m, k).Ok?
    requires forall d :: d in DaysOf(k) ==> Within(d, b.members[m].start, b.members[m].end)
    requires forall i :: 0 <= i < |b.leaves| ==> !Earns(s, b, m, k - 1, b.leaves[i])
    requires forall i :: 0 <= i < |b.rebates| ==> b.rebates[i].member != m || b.rebates[i].month != k - 1
    ensures var r := BillMonth(s, ledger, b, m, k).value;
            r.2 == Some(|ledger.charges|) && |r.0.charges| == |ledger.charges| + 1
            && r.0.charges[|ledger.charges|].amount == s.mess(b.members[m].mess).monthlyCharge
  {
    hide BillMonth, Billable, RebateSum, NewRebates, FirstDay, LengthOf, MemberDays, DaysOf, Earns, IsNearest;
    var fee := s.mess(b.members[m].mess).monthlyCharge;
    EveryDay(b.members[m], k);
    MonthSize(k);
    WholeShare(fee, |DaysOf(k)|);
    MonthlyBillAddsUp(s, ledger, b, m, k, fee);
    NoRebates(s, b, m, k - 1, BillMonth(s, ledger, b, m, k).value.2);
    BookAfter(s, ledger, b, m, k);
  }

  lemma EveryDay(m: Member, k: int)
    requires forall d :: d in DaysOf(k) ==> Within(d, m.start, m.end)
    ensures MemberDays(m, FirstDay(k), LastDay(k)) == DaysOf(k)
  {
    hide FirstDay, LengthOf;
  }

  lemma WholeShare(fee: int, n: int)
    requires n > 0
    ensures IsNearest(fee * n, n, fee)
  {
  }

  lemma BookAfter(s: Setup, ledger: L.State, b: Book, m: nat, k: int)
    requires m < |b.members| && b.members[m].plan == Monthly && Billable(s, b, ledger, m, k)
    requires BillMonth(s, ledger, b, m, k).Ok?
    ensures var r := BillMonth(s, ledger, b, m, k).value;
            r.1.rebates == Attach(b.rebates + NewRebates(s, b, m, k - 1, b.leaves), m, k - 1, r.2)
  {
    hide PostBill, NewRebates, MonthlyBalance;
  }

  lemma {:induction false} NoneEarned(s: Setup, b: Book, m: nat, month: int, leaves: seq<Leave>)
    requires m < |b.members| && forall i :: 0 <= i < |leaves| ==> !Earns(s, b, m, month, leaves[i])
    ensures NewRebates(s, b, m, month, leaves) == []
  {
    hide Earns, Rebated;
    if leaves != [] {
      NoneEarned(s, b, m, month, leaves[..|leaves| - 1]);
      EarnsIff(s, b, m, month, leaves[|leaves| - 1]);
    }
  }

  lemma NoRebates(s: Setup, b: Book, m: nat, month: int, charge: Option<nat>)
    requires m < |b.members|
    requires forall i :: 0 <= i < |b.leaves| ==> !Earns(s, b, m, month, b.leaves[i])
    requires forall i :: 0 <= i < |b.rebates| ==> b.rebates[i].member != m || b.rebates[i].month != month
    ensures RebateSum(Attach(b.rebates + NewRebates(s, b, m, month, b.leaves), m, month, charge), m, month) == 0
  {
    NoneEarned(s, b, m, month, b.leaves);
    AttachKeepsSum(b.rebates, m, month, charge);
    assert b.rebates + [] == b.rebates;
    NoneAddUp(b.rebates, m, month);
  }

  lemma {:induction false} NoneAddUp(rebates: seq<Rebate>, m: nat, month: int)
    requires forall i :: 0 <= i < |rebates| ==> rebates[i].member != m || rebates[i].month != month
    ensures RebateSum(rebates, m, month) == 0
  {
    RebatesAddUp(rebates, m, month);
    if rebates != [] {
      NoneAddUp(rebates[..|rebates| - 1], m, month);
      RebatesAddUp(rebates[..|rebates| - 1], m, month);
    }
    hide RebateSum;
  }

  /** A per-day bill: the rate for each day enrolled and not on leave, due on the tenth of the month after. */
  lemma PerDayBillIs(s: Setup, ledger: L.State, b: Book, m: nat, k: int)
    requires m < |b.members| && b.members[m].plan == PerDay && Billable(s, b, ledger, m, k)
    requires BillMonth(s, ledger, b, m, k).Ok?
    ensures var r := BillMonth(s, ledger, b, m, k).value;
            var amount := s.mess(b.members[m].mess).perDayRate * |MealDays(b, m, FirstDay(k), LastDay(k))|;
            r.1 == b
            && if amount <= 0 then r.0 == ledger && r.2.None?
               else r.2 == Some(|ledger.charges|) && |r.0.charges| == |ledger.charges| + 1
                    && IsBill(s, r.0.charges[|ledger.charges|], b.members[m].student.value, m, k, amount, FirstDay(k + 1) + 9)
  {
    EatenCounts(b, m, FirstDay(k), LastDay(k));
    hide FirstDay, LengthOf, Eaten, MealDays, PostBill, MessKey;
    var amount := s.mess(b.members[m].mess).perDayRate * |MealDays(b, m, FirstDay(k), LastDay(k))|;
    BillPosted(s, ledger, b.members[m].student.value, amount, DueDay(k + 1), m, k);
  }

  // ------------------------------------------------------------------ the monthly job

  function MonthBilled(m: Member, thisMonth: int): int {
    if m.plan == Monthly then thisMonth else thisMonth - 1
  }

  /** When the job gets to its end, no member is left with anything to bill: this month by the month, last month by the day. */
  lemma JobLeavesNothingToBill(s: Setup, ledger: L.State, b: Book, thisMonth: int, m: nat)
    requires m < |b.members| && BillMess(s, ledger, b, thisMonth).done
    ensures var r := BillMess(s, ledger, b, thisMonth);
            |r.book.members| == |b.members|
            && BillMonth(s, r.ledger, r.book, m, MonthBilled(b.members[m], thisMonth)) == Ok((r.ledger, r.book, None))
  {
    var n := |b.members|;
    var t, r := BillPlan(s, ledger, b, Monthly, thisMonth, n), BillMess(s, ledger, b, thisMonth);
    J.PassMakesQuiet(s, ledger, b, Monthly, thisMonth, n, n);
    J.PassKeepsOtherPlan(s, t.ledger, t.book, PerDay, Monthly, thisMonth, n);
    J.PassMakesQuiet(s, t.ledger, t.book, PerDay, thisMonth, n, n);
    hide BillPlan, BillMonth;
    if DueForJob(b.members[m], thisMonth) {
      assert J.Quiet(s, r.ledger, r.book, m, JobMonth(r.book.members[m], thisMonth));
    } else {
      NotDueNotBilled(s, r.ledger, r.book, m, thisMonth);
    }
  }

  lemma NotDueNotBilled(s: Setup, ledger: L.State, b: Book, m: nat, thisMonth: int)
    requires m < |b.members| && !DueForJob(b.members[m], thisMonth)
    ensures BillMonth(s, ledger, b, m, MonthBilled(b.members[m], thisMonth)) == Ok((ledger, b, None))
  {
    NothingIfNotBillable(s, ledger, b, m, MonthBilled(b.members[m], thisMonth));
    hide FirstDay, LengthOf, BillMonth, MessKey, L.FindKey;
  }

  // ------------------------------------------------------------------ recording leave

  /**
   Leave is recorded exactly when it does not end before it starts, has a day inside the membership,
   and no day in common with another leave of the member.
   */
  lemma RecordedExactly(b: Book, m: nat, from: int, to: int, outpass: Option<nat>)
    requires m < |b.members| && forall i :: 0 <= i < |b.leaves| ==> b.leaves[i].from <= b.leaves[i].to
    ensures RecordLeave(b, m, from, to, outpass).Ok?
       <==> (exists d :: from <= d <= to && Within(d, b.members[m].start, b.members[m].end))
            && forall i, d :: 0 <= i < |b.leaves| && b.leaves[i].member == m && Covers(b.leaves[i], d) ==> !(from <= d <= to)
    ensures RecordLeave(b, m, from, to, outpass).Ok? ==>
              RecordLeave(b, m, from, to, outpass).value
              == b.(leaves := b.leaves + [Leave(b.nextLeave, m, from, to, outpass)], nextLeave := b.nextLeave + 1)
  {
    var o := Overlap(b.members[m].start, b.members[m].end, from, to);
    if o.Some? {
      assert Within(o.value.0, b.members[m].start, b.members[m].end);
    }
    forall i | 0 <= i < |b.leaves| && from <= to ensures Meets(b.leaves[i], from, to) <==> exists d :: Covers(b.leaves[i], d) && from <= d <= to {
      if Meets(b.leaves[i], from, to) {
        var d := if from > b.leaves[i].from then from else b.leaves[i].from;
        assert Covers(b.leaves[i], d);
      }
    }
  }

  predicate Covers(l: Leave, d: int) {
    l.from <= d <= l.to
  }
}
