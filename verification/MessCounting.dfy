/**
 Leave is counted once: the months of a year partition a leave's days, and the contractor's
 bill agrees day by day with the headcount and in total with the days members are billed for.
 */
module MessCounting {
  import opened Wrappers
  import opened Dates
  import opened MessModel

  // ------------------------------------------------------------------ months partition leave

  function PartDaysOver(m: Member, l: Leave, a: int, n: nat): int {
    if n == 0 then 0 else PartDaysOver(m, l, a, n - 1) + PartDays(m, l, FirstDay(a + n - 1), LastDay(a + n - 1))
  }

  lemma PartIsIntersection(m: Member, l: Leave, start: int, end: int, d: int)
    ensures InPart(m, l, start, end, d) <==> Within(d, m.start, m.end) && l.from <= d <= l.to && start <= d <= end
  {
    OverlapIsIntersection(m.start, m.end, start, end, d);
  }

  lemma PartsJoin(m: Member, l: Leave, start: int, mid: int, end: int)
    requires start <= mid + 1 && mid <= end
    ensures PartDays(m, l, start, end) == PartDays(m, l, start, mid) + PartDays(m, l, mid + 1, end)
  {
  }

  lemma MonthBounds(a: int, k: int)
    requires a <= k
    ensures FirstDay(a) <= LastDay(k) && LastDay(k) + 1 == FirstDay(k + 1) && LastDay(k) <= LastDay(k + 1)
  {
    FirstDayMonotone(a, k);
    NextMonthFollows(k);
  }

  /** Consecutive months count each day of a leave inside the membership once, and none twice. */
  lemma {:induction false} MonthsPartitionLeave(m: Member, l: Leave, a: int, n: nat)
    requires n > 0
    ensures PartDaysOver(m, l, a, n) == PartDays(m, l, FirstDay(a), LastDay(a + n - 1))
  {
    hide FirstDay, LastDay, PartDays;
    if n > 1 {
      var k := a + n - 2;
      MonthsPartitionLeave(m, l, a, n - 1);
      MonthBounds(a, k);
      PartsJoin(m, l, FirstDay(a), LastDay(k), LastDay(k + 1));
      assert PartDaysOver(m, l, a, n - 1) == PartDays(m, l, FirstDay(a), LastDay(k));
    } else {
      assert PartDaysOver(m, l, a, 0) == 0;
    }
  }

  /** The month that counts a day of leave exists and is unique. */
  lemma ExactlyOneMonthCounts(m: Member, l: Leave, d: int, k: int)
    requires Within(d, m.start, m.end) && l.from <= d <= l.to
    ensures InPart(m, l, FirstDay(k), LastDay(k), d) <==> k == MonthOf(d)
  {
    hide FirstDay, LengthOf, MonthOf;
    PartIsIntersection(m, l, FirstDay(k), LastDay(k), d);
    InItsMonth(d);
    if FirstDay(k) <= d <= LastDay(k) {
      OneMonth(k, MonthOf(d), d);
    }
  }

  // ------------------------------------------------------------------ who eats on a day

  predicate OnLeave(b: Book, m: nat, d: int) {
    exists i :: 0 <= i < |b.leaves| && b.leaves[i].member == m && b.leaves[i].from <= d <= b.leaves[i].to
  }

  predicate Eats(b: Book, mess: nat, m: nat, d: int)
    requires m < |b.members|
  {
    b.members[m].mess == mess && Within(d, b.members[m].start, b.members[m].end) && !OnLeave(b, m, d)
  }

  /** contractor_bill's prefilters on members and leaves of the month [m0, m1]. */
  predicate Prefiltered(m: Member, mess: nat, m0: int, m1: int) {
    m.mess == mess && m.start <= m1 && (m.end.None? || m.end.value >= m0)
  }

  predicate PrefilteredLeave(b: Book, m: nat, m0: int, m1: int, d: int) {
    exists i :: 0 <= i < |b.leaves| && b.leaves[i].member == m && Meets(b.leaves[i], m0, m1)
                && b.leaves[i].from <= d <= b.leaves[i].to
  }

  /** expected(d) over the prefiltered members below n. */
  function Expected(b: Book, mess: nat, m0: int, m1: int, d: int, n: nat): nat
    requires n <= |b.members|
  {
    if n == 0 then 0
    else
      var m := b.members[n - 1];
      Expected(b, mess, m0, m1, d, n - 1)
      + (if Prefiltered(m, mess, m0, m1) && Within(d, m.start, m.end) && !PrefilteredLeave(b, n - 1, m0, m1, d) then 1 else 0)
  }

  /** headcount: members on a day, and those of them with a leave covering it. */
  function EnrolledOn(b: Book, mess: nat, d: int): set<int> {
    set m: int | 0 <= m < |b.members| && b.members[m].mess == mess && Within(d, b.members[m].start, b.members[m].end)
  }

  function OnLeaveOn(b: Book, mess: nat, d: int): set<int> {
    set m: int | m in EnrolledOn(b, mess, d) && OnLeave(b, m, d)
  }

  function EatersBelow(b: Book, mess: nat, d: int, n: nat): set<int>
    requires n <= |b.members|
  {
    set m: int | 0 <= m < n && Eats(b, mess, m, d)
  }

  /** The prefilters drop nobody who counts on a day of the month. */
  lemma PrefiltersDropNothing(b: Book, mess: nat, m0: int, m1: int, d: int, m: nat)
    requires m0 <= d <= m1 && m < |b.members|
    ensures Eats(b, mess, m, d)
       <==> Prefiltered(b.members[m], mess, m0, m1) && Within(d, b.members[m].start, b.members[m].end)
            && !PrefilteredLeave(b, m, m0, m1, d)
  {
    if OnLeave(b, m, d) {
      var i :| 0 <= i < |b.leaves| && b.leaves[i].member == m && b.leaves[i].from <= d <= b.leaves[i].to;
      assert Meets(b.leaves[i], m0, m1);
    }
  }

  lemma OneMoreEater(b: Book, mess: nat, d: int, n: nat)
    requires 0 < n <= |b.members|
    ensures |EatersBelow(b, mess, d, n)| == |EatersBelow(b, mess, d, n - 1)| + (if Eats(b, mess, n - 1, d) then 1 else 0)
  {
    hide OnLeave, Eats;
    if Eats(b, mess, n - 1, d) {
      assert EatersBelow(b, mess, d, n) == EatersBelow(b, mess, d, n - 1) + {n - 1};
    } else {
      assert EatersBelow(b, mess, d, n) == EatersBelow(b, mess, d, n - 1);
    }
  }

  lemma {:induction false} ExpectedCountsEaters(b: Book, mess: nat, m0: int, m1: int, d: int, n: nat)
    requires m0 <= d <= m1 && n <= |b.members|
    ensures Expected(b, mess, m0, m1, d, n) == |EatersBelow(b, mess, d, n)|
  {
    if n > 0 {
      ExpectedCountsEaters(b, mess, m0, m1, d, n - 1);
      PrefiltersDropNothing(b, mess, m0, m1, d, n - 1);
      OneMoreEater(b, mess, d, n);
    } else {
      assert EatersBelow(b, mess, d, 0) == {};
    }
  }

  /** On each day the contractor is billed for headcount's enrolled less on_leave. */
  lemma ContractorAgreesWithHeadcount(b: Book, mess: nat, m0: int, m1: int, d: int)
    requires m0 <= d <= m1
    ensures Expected(b, mess, m0, m1, d, |b.members|) == |EnrolledOn(b, mess, d)| - |OnLeaveOn(b, mess, d)|
  {
    ExpectedCountsEaters(b, mess, m0, m1, d, |b.members|);
    assert EatersBelow(b, mess, d, |b.members|) == EnrolledOn(b, mess, d) - OnLeaveOn(b, mess, d);
    assert OnLeaveOn(b, mess, d) <= EnrolledOn(b, mess, d);
  }

  // ------------------------------------------------------------------ counting a month twice

  /** Days of [start, start + n) on which member m eats. */
  function DaysEaten(b: Book, mess: nat, m: nat, start: int, n: nat): nat
    requires m < |b.members|
  {
    if n == 0 then 0 else DaysEaten(b, mess, m, start, n - 1) + (if Eats(b, mess, m, start + n - 1) then 1 else 0)
  }

  function EatersOver(b: Book, mess: nat, start: int, days: nat, n: nat): nat
    requires n <= |b.members|
  {
    if days == 0 then 0 else EatersOver(b, mess, start, days - 1, n) + |EatersBelow(b, mess, start + days - 1, n)|
  }

  function MembersEaten(b: Book, mess: nat, start: int, days: nat, n: nat): nat
    requires n <= |b.members|
  {
    if n == 0 then 0 else MembersEaten(b, mess, start, days, n - 1) + DaysEaten(b, mess, n - 1, start, days)
  }

  lemma {:induction false} OneMoreMember(b: Book, mess: nat, start: int, days: nat, n: nat)
    requires 0 < n <= |b.members|
    ensures EatersOver(b, mess, start, days, n) == EatersOver(b, mess, start, days, n - 1) + DaysEaten(b, mess, n - 1, start, days)
  {
    hide EatersBelow, Eats;
    if days > 0 {
      OneMoreMember(b, mess, start, days - 1, n);
      OneMoreEater(b, mess, start + days - 1, n);
    }
  }

  lemma {:induction false} NobodyEats(b: Book, mess: nat, start: int, days: nat)
    ensures EatersOver(b, mess, start, days, 0) == 0
  {
    if days > 0 {
      NobodyEats(b, mess, start, days - 1);
      assert EatersBelow(b, mess, start + days - 1, 0) == {};
    }
  }

  lemma {:induction false} SumsSwap(b: Book, mess: nat, start: int, days: nat, n: nat)
    requires n <= |b.members|
    ensures EatersOver(b, mess, start, days, n) == MembersEaten(b, mess, start, days, n)
  {
    if n == 0 {
      NobodyEats(b, mess, start, days);
    } else {
      SumsSwap(b, mess, start, days, n - 1);
      OneMoreMember(b, mess, start, days, n);
    }
  }

  lemma LeaveDaysAre(b: Book, m: nat, start: int, end: int, d: int)
    requires m < |b.members|
    ensures d in LeaveDays(b, m, start, end) <==> start <= d <= end && Within(d, b.members[m].start, b.members[m].end) && OnLeave(b, m, d)
  {
    if start <= d <= end && Within(d, b.members[m].start, b.members[m].end) && OnLeave(b, m, d) {
      var i :| 0 <= i < |b.leaves| && b.leaves[i].member == m && b.leaves[i].from <= d <= b.leaves[i].to;
      PartIsIntersection(b.members[m], b.leaves[i], start, end, d);
    }
    if d in LeaveDays(b, m, start, end) {
      var i :| 0 <= i < |b.leaves| && b.leaves[i].member == m && InPart(b.members[m], b.leaves[i], start, end, d);
      PartIsIntersection(b.members[m], b.leaves[i], start, end, d);
    }
  }

  lemma OneMoreDay(b: Book, m: nat, start: int, last: int)
    requires m < |b.members| && start <= last
    ensures |LeaveDays(b, m, start, last)|
            == |LeaveDays(b, m, start, last - 1)|
               + (if Within(last, b.members[m].start, b.members[m].end) && OnLeave(b, m, last) then 1 else 0)
  {
    var days, before := LeaveDays(b, m, start, last), LeaveDays(b, m, start, last - 1);
    forall d ensures d in days <==> d in before || (d == last && Within(d, b.members[m].start, b.members[m].end) && OnLeave(b, m, d)) {
      LeaveDaysAre(b, m, start, last, d);
      LeaveDaysAre(b, m, start, last - 1, d);
    }
    LeaveDaysAre(b, m, start, last - 1, last);
    hide LeaveDays, OnLeave;
    if Within(last, b.members[m].start, b.members[m].end) && OnLeave(b, m, last) {
      assert days == before + {last};
    } else {
      assert days == before;
    }
  }

  lemma OneMoreEnrolled(m: Member, start: int, last: int)
    requires start <= last
    ensures Enrolled(m, start, last) == Enrolled(m, start, last - 1) + (if Within(last, m.start, m.end) then 1 else 0)
  {
  }

  /** The billed figure is the number of days the member eats. */
  lemma {:induction false} EatenCountsDays(b: Book, m: nat, start: int, n: nat)
    requires m < |b.members|
    ensures Eaten(b, m, start, start + n - 1) == DaysEaten(b, b.members[m].mess, m, start, n)
  {
    hide LeaveDays, OnLeave;
    if n == 0 {
      NoDays(b, m, start);
    } else {
      EatenCountsDays(b, m, start, n - 1);
      OneMoreDay(b, m, start, start + n - 1);
      OneMoreEnrolled(b.members[m], start, start + n - 1);
      hide Enrolled;
    }
  }

  lemma NoDays(b: Book, m: nat, start: int)
    requires m < |b.members|
    ensures Eaten(b, m, start, start - 1) == 0
  {
    assert LeaveDays(b, m, start, start - 1) == {};
  }

  /** expected(d) summed over a month. */
  function ExpectedOver(b: Book, mess: nat, m0: int, m1: int, n: nat): nat {
    if n == 0 then 0 else ExpectedOver(b, mess, m0, m1, n - 1) + Expected(b, mess, m0, m1, m0 + n - 1, |b.members|)
  }

  /** `eaten` summed over the members of a mess below n. */
  function EatenBy(b: Book, mess: nat, m0: int, m1: int, n: nat): int
    requires n <= |b.members|
  {
    if n == 0 then 0
    else EatenBy(b, mess, m0, m1, n - 1) + (if b.members[n - 1].mess == mess then Eaten(b, n - 1, m0, m1) else 0)
  }

  lemma {:induction false} ExpectedOverIs(b: Book, mess: nat, m0: int, m1: int, n: nat)
    requires m0 + n - 1 <= m1
    ensures ExpectedOver(b, mess, m0, m1, n) == EatersOver(b, mess, m0, n, |b.members|)
  {
    if n > 0 {
      ExpectedOverIs(b, mess, m0, m1, n - 1);
      ExpectedCountsEaters(b, mess, m0, m1, m0 + n - 1, |b.members|);
    }
  }

  lemma {:induction false} NotOfMess(b: Book, mess: nat, m: nat, start: int, n: nat)
    requires m < |b.members| && b.members[m].mess != mess
    ensures DaysEaten(b, mess, m, start, n) == 0
  {
    if n > 0 {
      NotOfMess(b, mess, m, start, n - 1);
    }
  }

  lemma {:induction false} EatenByIs(b: Book, mess: nat, m0: int, days: nat, n: nat)
    requires n <= |b.members|
    ensures EatenBy(b, mess, m0, m0 + days - 1, n) == MembersEaten(b, mess, m0, days, n)
  {
    if n > 0 {
      EatenByIs(b, mess, m0, days, n - 1);
      if b.members[n - 1].mess == mess {
        EatenCountsDays(b, n - 1, m0, days);
      } else {
        NotOfMess(b, mess, n - 1, m0, days);
      }
    }
  }

  /**
   Double counting: over any month, the plates the contractor is expected to serve are the
   days the members are billed for, added up.
   */
  lemma ContractorServesWhatMembersEat(b: Book, mess: nat, k: int)
    ensures ExpectedOver(b, mess, FirstDay(k), LastDay(k), LengthOf(k)) == EatenBy(b, mess, FirstDay(k), LastDay(k), |b.members|)
  {
    ExpectedOverIs(b, mess, FirstDay(k), LastDay(k), LengthOf(k));
    SumsSwap(b, mess, FirstDay(k), LengthOf(k), |b.members|);
    EatenByIs(b, mess, FirstDay(k), LengthOf(k), |b.members|);
  }
}
