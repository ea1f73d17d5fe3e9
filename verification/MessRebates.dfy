/**
 Over consecutive billed months the rebates of a leave add up to its days in the membership
 (apps/hostel/mess.py).
 */
module MessRebates {
  import opened Wrappers
  import opened Dates
  import opened MessModel
  import opened MessCounting
  import opened MessBilling
  import L = LedgerModel

  predicate OfLeave(r: Rebate, m: nat, leave: nat, month: int) {
    OfMonth(r, m, month) && r.leave == leave
  }

  /** The days rebated for a leave in a month. */
  function DaysRebated(rebates: seq<Rebate>, m: nat, leave: nat, month: int): int {
    if rebates == [] then 0
    else
      var r := rebates[|rebates| - 1];
      DaysRebated(rebates[..|rebates| - 1], m, leave, month) + (if OfLeave(r, m, leave, month) then r.days else 0)
  }

  function DaysRebatedOver(rebates: seq<Rebate>, m: nat, leave: nat, a: int, n: nat): int {
    if n == 0 then 0
    else DaysRebatedOver(rebates, m, leave, a, n - 1) + DaysRebated(rebates, m, leave, a + n - 1)
  }

  /** Each rebate of the leave is for its days in its month. */
  predicate RightDays(b: Book, m: nat, l: Leave)
    requires m < |b.members|
  {
    AllRight(b.rebates, b.members[m], m, l)
  }

  predicate AllRight(rebates: seq<Rebate>, member: Member, m: nat, l: Leave) {
    forall i :: 0 <= i < |rebates| && rebates[i].member == m && rebates[i].leave == l.id ==>
      rebates[i].days == PartDays(member, l, FirstDay(rebates[i].month), LastDay(rebates[i].month))
  }

  lemma {:induction false} NoneRebated(rebates: seq<Rebate>, m: nat, leave: nat, month: int)
    requires forall i :: 0 <= i < |rebates| ==> !OfLeave(rebates[i], m, leave, month)
    ensures DaysRebated(rebates, m, leave, month) == 0
  {
    if rebates != [] {
      NoneRebated(rebates[..|rebates| - 1], m, leave, month);
    }
  }

  lemma {:induction false} OneRebated(rebates: seq<Rebate>, m: nat, leave: nat, month: int, i: nat)
    requires i < |rebates| && OfLeave(rebates[i], m, leave, month)
    requires forall j :: 0 <= j < |rebates| && j != i ==> !OfLeave(rebates[j], m, leave, month)
    ensures DaysRebated(rebates, m, leave, month) == rebates[i].days
  {
    if i < |rebates| - 1 {
      OneRebated(rebates[..|rebates| - 1], m, leave, month, i);
    } else {
      NoneRebated(rebates[..|rebates| - 1], m, leave, month);
    }
  }

  /** A month that needs no more rebates has rebated the leave's days in it. */
  lemma MonthRebated(s: Setup, b: Book, m: nat, l: Leave, month: int)
    requires m < |b.members| && l in b.leaves && l.member == m && Qualifies(s.mess(b.members[m].mess), l)
    requires RebatesOk(b) && RightDays(b, m, l) && NoNew(s, b, m, month)
    ensures DaysRebated(b.rebates, m, l.id, month) == PartDays(b.members[m], l, FirstDay(month), LastDay(month))
  {
    hide FirstDay, LengthOf, PartDays, LeavePart, Qualifies;
    var p :| 0 <= p < |b.leaves| && b.leaves[p] == l;
    if i :| 0 <= i < |b.rebates| && OfLeave(b.rebates[i], m, l.id, month) {
      forall j | 0 <= j < |b.rebates| && j != i ensures !OfLeave(b.rebates[j], m, l.id, month) {
        assert i < j ==> !SameRebate(b.rebates[i], b.rebates[j]);
        assert j < i ==> !SameRebate(b.rebates[j], b.rebates[i]);
      }
      OneRebated(b.rebates, m, l.id, month, i);
    } else {
      NoneRebated(b.rebates, m, l.id, month);
      assert !Rebated(s, b, m, month, b.leaves[p]);
      assert !Done(b.rebates, m, month, l.id);
      NoPartNoDays(b.members[m], l, FirstDay(month), LastDay(month));
    }
  }

  lemma NoPartNoDays(m: Member, l: Leave, start: int, end: int)
    ensures LeavePart(m, l, start, end).None? ==> PartDays(m, l, start, end) == 0
  {
  }

  /** The days rebated over settled months are the leave's days inside the membership in their span. */
  lemma {:induction false} SettledMonthsRebated(s: Setup, b: Book, m: nat, l: Leave, a: int, n: nat)
    requires m < |b.members| && l in b.leaves && l.member == m && Qualifies(s.mess(b.members[m].mess), l)
    requires RebatesOk(b) && RightDays(b, m, l) && forall j :: a <= j < a + n ==> NoNew(s, b, m, j)
    ensures DaysRebatedOver(b.rebates, m, l.id, a, n) == PartDaysOver(b.members[m], l, a, n)
  {
    hide FirstDay, LengthOf, PartDays, Qualifies, NoNew, RightDays, RebatesOk;
    if n > 0 {
      SettledMonthsRebated(s, b, m, l, a, n - 1);
      MonthRebated(s, b, m, l, a + n - 1);
    }
  }

  // ------------------------------------------------------------------ billing month after month

  /** A member billed for n months from k on, in order. */
  function BillMonths(s: Setup, ledger: L.State, b: Book, m: nat, k: int, n: nat): (r: Result<(L.State, Book)>)
    requires m < |b.members|
    ensures r.Ok? ==> r.value.1.members == b.members
  {
    if n == 0 then Ok((ledger, b))
    else
      match BillMonths(s, ledger, b, m, k, n - 1)
      case Conflict => Conflict
      case Ok(t) =>
        match BillMonth(s, t.0, t.1, m, k + n - 1)
        case Conflict => Conflict
        case Ok(u) => Ok((u.0, u.1))
  }

  /** None of the months was billed before, and no bill is refused. */
  predicate AllBilled(s: Setup, ledger: L.State, b: Book, m: nat, k: int, n: nat)
    requires m < |b.members|
  {
    n == 0
    || (AllBilled(s, ledger, b, m, k, n - 1) && BillMonths(s, ledger, b, m, k, n - 1).Ok?
        && Billable(s, BillMonths(s, ledger, b, m, k, n - 1).value.1, BillMonths(s, ledger, b, m, k, n - 1).value.0, m, k + n - 1)
        && BillMonths(s, ledger, b, m, k, n).Ok?)
  }

  lemma NewAreRight(s: Setup, b: Book, m: nat, month: int, l: Leave)
    requires m < |b.members| && LeavesOk(b) && l in b.leaves
    ensures AllRight(NewRebates(s, b, m, month, b.leaves), b.members[m], m, l)
  {
    var news := NewRebates(s, b, m, month, b.leaves);
    NewRebatesAre(s, b, m, month, b.leaves);
    hide NewRebates, PartDays, FirstDay, LengthOf, FromLeave, LeavesOk;
    forall i | 0 <= i < |news| && news[i].leave == l.id
      ensures news[i].days == PartDays(b.members[m], l, FirstDay(news[i].month), LastDay(news[i].month))
    {
      assert news[i] in news && FromLeave(s, b, m, month, b.leaves, news[i]);
      SameLeave(s, b, m, month, l, news[i]);
    }
  }

  lemma AttachedAreRight(rebates: seq<Rebate>, member: Member, m: nat, l: Leave, month: int, charge: Option<nat>)
    requires AllRight(rebates, member, m, l)
    ensures AllRight(Attach(rebates, m, month, charge), member, m, l)
  {
    hide PartDays, FirstDay, LengthOf;
    AttachKeeps(rebates, m, month, charge);
  }

  lemma BillKeepsRightDays(s: Setup, ledger: L.State, b: Book, m: nat, k: int, l: Leave)
    requires m < |b.members| && b.members[m].plan == Monthly && Billable(s, b, ledger, m, k)
    requires LeavesOk(b) && l in b.leaves && l.member == m && RightDays(b, m, l) && BillMonth(s, ledger, b, m, k).Ok?
    ensures RightDays(BillMonth(s, ledger, b, m, k).value.1, m, l)
  {
    hide BillMonth, NewRebates, Attach, PartDays, FirstDay, LengthOf;
    BillSettlesMonth(s, ledger, b, m, k);
    BillKeepsRebates(s, ledger, b, m, k);
    NewAreRight(s, b, m, k - 1, l);
    AttachedAreRight(b.rebates + NewRebates(s, b, m, k - 1, b.leaves), b.members[m], m, l, k - 1, BillMonth(s, ledger, b, m, k).value.2);
  }

  lemma SameLeave(s: Setup, b: Book, m: nat, month: int, l: Leave, r: Rebate)
    requires m < |b.members| && LeavesOk(b) && l in b.leaves && FromLeave(s, b, m, month, b.leaves, r) && r.leave == l.id
    ensures r.month == month && r.days == PartDays(b.members[m], l, FirstDay(month), LastDay(month))
  {
    var x :| x in b.leaves && RebateFor(s, b, m, month, x, r);
    var p :| 0 <= p < |b.leaves| && b.leaves[p] == x;
    var q :| 0 <= q < |b.leaves| && b.leaves[q] == l;
    assert p == q;
  }

  lemma {:induction false} MonthsSettled(s: Setup, ledger: L.State, b: Book, m: nat, l: Leave, k: int, n: nat)
    requires m < |b.members| && b.members[m].plan == Monthly && l in b.leaves && l.member == m
    requires LeavesOk(b) && RebatesOk(b) && RightDays(b, m, l) && AllBilled(s, ledger, b, m, k, n)
    ensures BillMonths(s, ledger, b, m, k, n).Ok?
    ensures var t := BillMonths(s, ledger, b, m, k, n).value.1;
            t.members == b.members && t.leaves == b.leaves && LeavesOk(t) && RebatesOk(t) && RightDays(t, m, l)
            && forall j :: k - 1 <= j < k - 1 + n ==> NoNew(s, t, m, j)
  {
    hide BillMonth, Billable, LeavesOk, RebatesOk, RightDays, NoNew, RebatesKept, FirstDay, LengthOf;
    if n > 0 {
      MonthsSettled(s, ledger, b, m, l, k, n - 1);
      var before := BillMonths(s, ledger, b, m, k, n - 1).value;
      var month := k + n - 1;
      var r := BillMonth(s, before.0, before.1, m, month);
      BillKeepsRebates(s, before.0, before.1, m, month);
      BillKeepsRebatesOk(s, before.0, before.1, m, month);
      BillSettlesMonth(s, before.0, before.1, m, month);
      BillKeepsRightDays(s, before.0, before.1, m, month, l);
      forall j | k - 1 <= j < k - 1 + n ensures NoNew(s, r.value.1, m, j) {
        if j < k - 2 + n {
          NoNewStays(s, before.1, r.value.1, m, j);
        }
      }
    }
  }

  /**
   A monthly member billed for n months running has had every qualifying leave rebated for exactly
   its days inside the membership in the n months before: none twice, none forgotten.
   */
  lemma RebatesTotalTheLeave(s: Setup, ledger: L.State, b: Book, m: nat, l: Leave, k: int, n: nat)
    requires m < |b.members| && b.members[m].plan == Monthly && l in b.leaves && l.member == m
    requires Qualifies(s.mess(b.members[m].mess), l) && n > 0
    requires LeavesOk(b) && RebatesOk(b) && RightDays(b, m, l) && AllBilled(s, ledger, b, m, k, n)
    ensures BillMonths(s, ledger, b, m, k, n).Ok?
    ensures DaysRebatedOver(BillMonths(s, ledger, b, m, k, n).value.1.rebates, m, l.id, k - 1, n)
            == PartDays(b.members[m], l, FirstDay(k - 1), LastDay(k + n - 2))
  {
    hide PartDays, FirstDay, LengthOf, BillMonths, AllBilled, Qualifies, NoNew, RightDays, LeavesOk, RebatesOk, DaysRebatedOver;
    MonthsSettled(s, ledger, b, m, l, k, n);
    var t := BillMonths(s, ledger, b, m, k, n).value.1;
    SettledMonthsRebated(s, t, m, l, k - 1, n);
    MonthsPartitionLeave(b.members[m], l, k - 1, n);
  }
}
