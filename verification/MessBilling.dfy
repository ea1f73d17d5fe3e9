/**
 Mess billing can be run again: a member is billed once a month, rebates already worked out
 never change, and each leave is rebated at most once for each month.
 */
module MessBilling {
  import opened Wrappers
  import opened Text
  import opened Dates
  import opened MessModel
  import L = LedgerModel
  import B = LedgerBilling

  // ------------------------------------------------------------------ keys

  lemma TwoDigitsInjective(a: nat, b: nat)
    requires a < 100 && b < 100 && TwoDigits(a) == TwoDigits(b)
    ensures a == b
  {
    assert TwoDigits(a)[0] == TwoDigits(b)[0] && TwoDigits(a)[1] == TwoDigits(b)[1];
    assert Digit(a / 10) as int == '0' as int + a / 10 && Digit(b / 10) as int == '0' as int + b / 10;
    assert Digit(a % 10) as int == '0' as int + a % 10 && Digit(b % 10) as int == '0' as int + b % 10;
  }

  function YearText(y: int): string {
    if y >= 0 then Decimal(y) else "-" + Decimal(-y)
  }

  lemma YearTextInjective(a: int, b: int)
    requires YearText(a) == YearText(b)
    ensures a == b
  {
    DecimalRoundTrip(if a >= 0 then a else -a);
    DecimalRoundTrip(if b >= 0 then b else -b);
    assert YearText(a)[0] == '-' <==> a < 0;
    assert YearText(b)[0] == '-' <==> b < 0;
    if a < 0 {
      assert YearText(a)[1..] == Decimal(-a) && YearText(b)[1..] == Decimal(-b);
    }
  }

  lemma MonthTextInjective(j: int, k: int)
    requires MonthText(j) == MonthText(k)
    ensures j == k
  {
    var a, b := YearText(j / 12), YearText(k / 12);
    var x, y := TwoDigits(j % 12 + 1), TwoDigits(k % 12 + 1);
    assert MonthText(j) == a + "-" + x && MonthText(k) == b + "-" + y;
    assert |a| == |b|;
    assert a == (a + "-" + x)[..|a|] == b;
    assert x == (a + "-" + x)[|a| + 1..] == y;
    YearTextInjective(j / 12, k / 12);
    TwoDigitsInjective(j % 12 + 1, k % 12 + 1);
  }

  /** A key names one member and one month. */
  lemma KeyInjective(m: nat, j: int, n: nat, k: int)
    requires MessKey(m, j) == MessKey(n, k)
    ensures m == n && j == k
  {
    var a, b := Decimal(m) + ":" + MonthText(j), Decimal(n) + ":" + MonthText(k);
    assert MessKey(m, j) == "mess:" + a && MessKey(n, k) == "mess:" + b;
    assert a == MessKey(m, j)[5..] && b == MessKey(n, k)[5..];
    assert Decimal(m) + ":" <= a;
    NumberPrefix(m, n, MonthText(k));
    assert MonthText(j) == a[|Decimal(m)| + 1..] && MonthText(k) == b[|Decimal(n)| + 1..];
    hide MonthText, Decimal;
    MonthTextInjective(j, k);
  }

  // ------------------------------------------------------------------ rebates of a month

  predicate NoNew(s: Setup, b: Book, m: nat, month: int)
    requires m < |b.members|
  {
    forall i :: 0 <= i < |b.leaves| ==> !Rebated(s, b, m, month, b.leaves[i])
  }

  lemma {:induction false} NothingNew(s: Setup, b: Book, m: nat, month: int, leaves: seq<Leave>)
    requires m < |b.members| && forall i :: 0 <= i < |leaves| ==> !Rebated(s, b, m, month, leaves[i])
    ensures NewRebates(s, b, m, month, leaves) == []
  {
    if leaves != [] {
      NothingNew(s, b, m, month, leaves[..|leaves| - 1]);
    }
  }

  /** What a new rebate is for: its leave's days in the month, at the mess's rate. */
  predicate RebateFor(s: Setup, b: Book, m: nat, month: int, l: Leave, r: Rebate)
    requires m < |b.members|
  {
    Rebated(s, b, m, month, l) && r.leave == l.id && r.member == m && r.month == month && r.charge == None
    && r.days == PartDays(b.members[m], l, FirstDay(month), LastDay(month))
    && r.amount == s.mess(b.members[m].mess).rebatePerDay * r.days
  }

  predicate FromLeave(s: Setup, b: Book, m: nat, month: int, leaves: seq<Leave>, r: Rebate)
    requires m < |b.members|
  {
    exists l :: l in leaves && RebateFor(s, b, m, month, l, r)
  }

  lemma {:induction false} NewRebatesAre(s: Setup, b: Book, m: nat, month: int, leaves: seq<Leave>)
    requires m < |b.members|
    ensures var rs := NewRebates(s, b, m, month, leaves);
            (forall r :: r in rs ==> FromLeave(s, b, m, month, leaves, r))
            && forall i :: 0 <= i < |leaves| && Rebated(s, b, m, month, leaves[i]) ==> Done(rs, m, month, leaves[i].id)
  {
    if leaves != [] {
      var n := |leaves| - 1;
      NewRebatesAre(s, b, m, month, leaves[..n]);
      var before, rs := NewRebates(s, b, m, month, leaves[..n]), NewRebates(s, b, m, month, leaves);
      forall r | r in rs ensures FromLeave(s, b, m, month, leaves, r) {
        if r in before {
          assert FromLeave(s, b, m, month, leaves[..n], r);
          var l :| l in leaves[..n] && RebateFor(s, b, m, month, l, r);
          assert l in leaves;
        } else {
          assert leaves[n] in leaves && RebateFor(s, b, m, month, leaves[n], r);
        }
      }
      forall i | 0 <= i < |leaves| && Rebated(s, b, m, month, leaves[i]) ensures Done(rs, m, month, leaves[i].id) {
        if i < n {
          assert leaves[..n][i] == leaves[i];
          DoneStays(before, rs[|before|..], m, month, leaves[i].id);
          assert rs == before + rs[|before|..];
        } else {
          assert OfMonth(rs[|before|], m, month) && rs[|before|].leave == leaves[i].id;
        }
      }
    }
  }

  lemma DoneStays(a: seq<Rebate>, c: seq<Rebate>, m: nat, month: int, leave: nat)
    ensures Done(a + c, m, month, leave) <==> Done(a, m, month, leave) || Done(c, m, month, leave)
  {
    if Done(a, m, month, leave) {
      var i :| 0 <= i < |a| && OfMonth(a[i], m, month) && a[i].leave == leave;
      assert (a + c)[i] == a[i];
    }
    if Done(c, m, month, leave) {
      var i :| 0 <= i < |c| && OfMonth(c[i], m, month) && c[i].leave == leave;
      assert (a + c)[|a| + i] == c[i];
    }
    if Done(a + c, m, month, leave) {
      var i :| 0 <= i < |a + c| && OfMonth((a + c)[i], m, month) && (a + c)[i].leave == leave;
      assert if i < |a| then a[i] == (a + c)[i] else c[i - |a|] == (a + c)[i];
    }
  }

  lemma AttachKeeps(rs: seq<Rebate>, m: nat, month: int, charge: Option<nat>)
    ensures var ts := Attach(rs, m, month, charge);
            |ts| == |rs|
            && (forall i :: 0 <= i < |rs| ==> ts[i] == rs[i].(charge := ts[i].charge))
            && (forall n: nat, k, leave :: Done(ts, n, k, leave) <==> Done(rs, n, k, leave))
            && Attach(ts, m, month, charge) == ts
  {
    var ts := Attach(rs, m, month, charge);
    forall n: nat, k, leave ensures Done(ts, n, k, leave) <==> Done(rs, n, k, leave) {
      if Done(rs, n, k, leave) {
        var i :| 0 <= i < |rs| && OfMonth(rs[i], n, k) && rs[i].leave == leave;
        assert OfMonth(ts[i], n, k);
      }
      if Done(ts, n, k, leave) {
        var i :| 0 <= i < |ts| && OfMonth(ts[i], n, k) && ts[i].leave == leave;
        assert OfMonth(rs[i], n, k);
      }
    }
  }

  lemma {:induction false} SameTotal(rs: seq<Rebate>, ts: seq<Rebate>, m: nat, month: int)
    requires |rs| == |ts| && forall i :: 0 <= i < |rs| ==> ts[i] == rs[i].(charge := ts[i].charge)
    ensures RebateTotal(ts, m, month) == RebateTotal(rs, m, month)
  {
    if rs != [] {
      SameTotal(rs[..|rs| - 1], ts[..|ts| - 1], m, month);
    }
  }

  /** The book after a monthly bill of month k. */
  function Settled(s: Setup, b: Book, m: nat, k: int, charge: Option<nat>): Book
    requires m < |b.members|
  {
    b.(rebates := Attach(b.rebates + NewRebates(s, b, m, k - 1, b.leaves), m, k - 1, charge))
  }

  /** Once a month's rebates are worked out, none is added and the balance stays. */
  lemma RebatesAreFinal(s: Setup, b: Book, m: nat, k: int, charge: Option<nat>)
    requires m < |b.members|
    ensures var t := Settled(s, b, m, k, charge);
            NoNew(s, t, m, k - 1) && MonthlyBalance(s, t, m, k) == MonthlyBalance(s, b, m, k)
            && forall c :: Settled(s, t, m, k, c) == t.(rebates := Attach(t.rebates, m, k - 1, c))
  {
    var news := NewRebates(s, b, m, k - 1, b.leaves);
    var all, t := b.rebates + news, Settled(s, b, m, k, charge);
    NewRebatesAre(s, b, m, k - 1, b.leaves);
    AttachKeeps(all, m, k - 1, charge);
    forall i | 0 <= i < |t.leaves| ensures !Rebated(s, t, m, k - 1, t.leaves[i]) {
      DoneStays(b.rebates, news, m, k - 1, t.leaves[i].id);
    }
    NothingNew(s, t, m, k - 1, t.leaves);
    SameTotal(all, t.rebates, m, k - 1);
    assert t.rebates + [] == t.rebates;
  }

  // ------------------------------------------------------------------ billing again

  /** Billing a member's month a second time changes neither the ledger nor the book. */
  lemma BillAgainIsNoOp(s: Setup, ledger: L.State, b: Book, m: nat, k: int)
    requires m < |b.members|
    ensures var r := BillMonth(s, ledger, b, m, k);
            r.Ok? ==> r.value.1.members == b.members
                      && BillMonth(s, r.value.0, r.value.1, m, k) == Ok((r.value.0, r.value.1, None))
  {
    var r := BillMonth(s, ledger, b, m, k);
    if r.Ok? && Billable(s, b, ledger, m, k) {
      var member := b.members[m];
      if r.value.2.Some? {
        var due := if member.plan == Monthly then L.Max(DueDay(k), member.start) else DueDay(k + 1);
        var amount := if member.plan == Monthly then MonthlyBalance(s, b, m, k)
                      else s.mess(member.mess).perDayRate * Eaten(b, m, FirstDay(k), LastDay(k));
        B.PostIsIdempotent(s.fees, ledger, Posting(s, member.student.value, amount, due, MessKey(m, k)));
      } else if member.plan == Monthly {
        RebatesAreFinal(s, b, m, k, None);
        AttachKeeps(b.rebates + NewRebates(s, b, m, k - 1, b.leaves), m, k - 1, None);
        hide MonthlyBalance, Attach, NewRebates;
        var t := Settled(s, b, m, k, None);
        assert r.value == (ledger, t, None);
        assert Settled(s, t, m, k, None) == t;
      }
    }
  }

  /** Every rebate of b is still there, with its leave, month, days and amount; only its bill may differ. */
  predicate RebatesKept(b: Book, t: Book) {
    |b.rebates| <= |t.rebates| && forall i :: 0 <= i < |b.rebates| ==> t.rebates[i] == b.rebates[i].(charge := t.rebates[i].charge)
  }

  /** No bill, of any member and month on any ledger, changes a rebate already worked out. */
  lemma BillKeepsRebates(s: Setup, ledger: L.State, b: Book, m: nat, k: int)
    requires m < |b.members|
    ensures var r := BillMonth(s, ledger, b, m, k);
            r.Ok? ==> r.value.1.members == b.members && r.value.1.leaves == b.leaves && RebatesKept(b, r.value.1)
  {
    var r := BillMonth(s, ledger, b, m, k);
    if r.Ok? && Billable(s, b, ledger, m, k) && b.members[m].plan == Monthly {
      hide NewRebates, Attach, MonthlyBalance;
      var all := b.rebates + NewRebates(s, b, m, k - 1, b.leaves);
      AttachKeeps(all, m, k - 1, r.value.2);
      assert r.value.1 == Settled(s, b, m, k, r.value.2);
    }
  }

  lemma SameDone(b: Book, t: Book, m: nat, month: int, leave: nat)
    requires RebatesKept(b, t)
    ensures Done(b.rebates, m, month, leave) ==> Done(t.rebates, m, month, leave)
  {
    if Done(b.rebates, m, month, leave) {
      var i :| 0 <= i < |b.rebates| && OfMonth(b.rebates[i], m, month) && b.rebates[i].leave == leave;
      assert OfMonth(t.rebates[i], m, month);
    }
  }

  /** A month that needs no new rebates needs none later, while membership and leave stay as they are. */
  lemma NoNewStays(s: Setup, b: Book, t: Book, m: nat, month: int)
    requires m < |b.members| && t.members == b.members && t.leaves == b.leaves && RebatesKept(b, t) && NoNew(s, b, m, month)
    ensures NoNew(s, t, m, month)
  {
    forall i | 0 <= i < |t.leaves| ensures !Rebated(s, t, m, month, t.leaves[i]) {
      SameDone(b, t, m, month, t.leaves[i].id);
    }
  }

  lemma NoneNew(s: Setup, b: Book, m: nat, month: int)
    requires m < |b.members| && NoNew(s, b, m, month)
    ensures NewRebates(s, b, m, month, b.leaves) == []
  {
    NothingNew(s, b, m, month, b.leaves);
  }

  /** A monthly bill leaves the month before with nothing more to rebate. */
  lemma BillSettlesMonth(s: Setup, ledger: L.State, b: Book, m: nat, k: int)
    requires m < |b.members| && b.members[m].plan == Monthly && Billable(s, b, ledger, m, k)
    ensures var r := BillMonth(s, ledger, b, m, k);
            r.Ok? ==> r.value.1 == Settled(s, b, m, k, r.value.2) && NoNew(s, r.value.1, m, k - 1)
  {
    var r := BillMonth(s, ledger, b, m, k);
    if r.Ok? {
      RebatesAreFinal(s, b, m, k, r.value.2);
    }
  }

  /**
   Billing again on any later ledger and book, after the bill was cancelled for instance, keeps every
   rebate's leave, month, days and amount, and adds none while membership and leave stay as they are.
   */
  lemma RebillKeepsRebates(s: Setup, ledger: L.State, b: Book, later: L.State, t: Book, m: nat, k: int)
    requires m < |b.members| && b.members[m].plan == Monthly && Billable(s, b, ledger, m, k)
    requires BillMonth(s, ledger, b, m, k).Ok? && RebatesKept(BillMonth(s, ledger, b, m, k).value.1, t)
    requires m < |t.members|
    ensures var r, again := BillMonth(s, ledger, b, m, k), BillMonth(s, later, t, m, k);
            again.Ok? ==> RebatesKept(r.value.1, again.value.1)
                          && (t.members == b.members && t.leaves == b.leaves ==> |again.value.1.rebates| == |t.rebates|)
  {
    hide MonthlyBalance, NewRebates, NoNew, RebateTotal, FirstDay, LengthOf;
    var r, again := BillMonth(s, ledger, b, m, k), BillMonth(s, later, t, m, k);
    if again.Ok? {
      BillKeepsRebates(s, later, t, m, k);
      BillKeepsRebates(s, ledger, b, m, k);
      if t.members == b.members && t.leaves == b.leaves && Billable(s, t, later, m, k) {
        BillSettlesMonth(s, ledger, b, m, k);
        NoNewStays(s, r.value.1, t, m, k - 1);
        NoneNew(s, t, m, k - 1);
        hide RebatesKept, Billable;
        assert t.rebates + [] == t.rebates;
        AttachKeeps(t.rebates, m, k - 1, again.value.2);
        BillSettlesMonth(s, later, t, m, k);
      }
    }
  }

  // ------------------------------------------------------------------ one rebate per leave and month

  predicate LeavesOk(b: Book) {
    (forall i :: 0 <= i < |b.leaves| ==> b.leaves[i].id < b.nextLeave)
    && forall i, j :: 0 <= i < j < |b.leaves| ==> b.leaves[i].id != b.leaves[j].id
  }

  predicate SameRebate(a: Rebate, c: Rebate) {
    a.leave == c.leave && a.month == c.month
  }

  predicate RebatesOk(b: Book) {
    (forall i, l :: 0 <= i < |b.rebates| && 0 <= l < |b.leaves| && b.rebates[i].leave == b.leaves[l].id
       ==> b.rebates[i].member == b.leaves[l].member)
    && (forall i :: 0 <= i < |b.rebates| ==> b.rebates[i].leave < b.nextLeave)
    && forall i, j :: 0 <= i < j < |b.rebates| ==> !SameRebate(b.rebates[i], b.rebates[j])
  }

  predicate DistinctRebates(rs: seq<Rebate>) {
    forall i, j :: 0 <= i < j < |rs| ==> !SameRebate(rs[i], rs[j])
  }

  lemma OneMoreDistinct(rs: seq<Rebate>, r: Rebate)
    requires DistinctRebates(rs) && forall i :: 0 <= i < |rs| ==> rs[i].leave != r.leave
    ensures DistinctRebates(rs + [r])
  {
  }

  /** No rebate worked out from the earlier leaves is for the next one. */
  lemma FromOtherLeaves(s: Setup, b: Book, m: nat, month: int, n: nat)
    requires m < |b.members| && LeavesOk(b) && n < |b.leaves|
    ensures var rs := NewRebates(s, b, m, month, b.leaves[..n]);
            forall i :: 0 <= i < |rs| ==> rs[i].leave != b.leaves[n].id
  {
    var rs := NewRebates(s, b, m, month, b.leaves[..n]);
    NewRebatesAre(s, b, m, month, b.leaves[..n]);
    forall i | 0 <= i < |rs| ensures rs[i].leave != b.leaves[n].id {
      assert rs[i] in rs && FromLeave(s, b, m, month, b.leaves[..n], rs[i]);
      var l :| l in b.leaves[..n] && RebateFor(s, b, m, month, l, rs[i]);
      var x :| 0 <= x < n && b.leaves[x] == l;
    }
  }

  lemma {:induction false} NewRebatesDistinct(s: Setup, b: Book, m: nat, month: int, n: nat)
    requires m < |b.members| && LeavesOk(b) && n <= |b.leaves|
    ensures DistinctRebates(NewRebates(s, b, m, month, b.leaves[..n]))
  {
    if n > 0 {
      hide DistinctRebates, Rebated, LeavesOk;
      NewRebatesDistinct(s, b, m, month, n - 1);
      assert b.leaves[..n][..n - 1] == b.leaves[..n - 1];
      FromOtherLeaves(s, b, m, month, n - 1);
      var before, rs := NewRebates(s, b, m, month, b.leaves[..n - 1]), NewRebates(s, b, m, month, b.leaves[..n]);
      if |rs| > |before| {
        assert rs == before + [rs[|before|]];
        OneMoreDistinct(before, rs[|before|]);
      } else {
        assert rs == before;
      }
    } else {
      assert NewRebates(s, b, m, month, b.leaves[..n]) == [];
    }
  }

  /** Each leave has at most one rebate for each month, whatever is billed. */
  lemma BillKeepsRebatesOk(s: Setup, ledger: L.State, b: Book, m: nat, k: int)
    requires m < |b.members| && LeavesOk(b) && RebatesOk(b)
    ensures var r := BillMonth(s, ledger, b, m, k);
            r.Ok? ==> RebatesOk(r.value.1) && LeavesOk(r.value.1)
  {
    var r := BillMonth(s, ledger, b, m, k);
    if r.Ok? && Billable(s, b, ledger, m, k) && b.members[m].plan == Monthly {
      SettledRebatesOk(s, b, m, k, r.value.2);
      assert r.value.1 == Settled(s, b, m, k, r.value.2);
    }
  }

  lemma NewAndOldApart(s: Setup, b: Book, m: nat, month: int, r: Rebate, i: nat)
    requires m < |b.members| && RebatesOk(b) && i < |b.rebates| && FromLeave(s, b, m, month, b.leaves, r)
    ensures !SameRebate(b.rebates[i], r)
  {
    var l :| l in b.leaves && RebateFor(s, b, m, month, l, r);
    NotDoneBefore(s, b, m, month, l, i);
  }

  lemma OldAndNewOk(s: Setup, b: Book, m: nat, month: int, news: seq<Rebate>)
    requires m < |b.members| && LeavesOk(b) && RebatesOk(b) && DistinctRebates(news)
    requires forall i :: 0 <= i < |news| ==> FromLeave(s, b, m, month, b.leaves, news[i])
    ensures RebatesOk(b.(rebates := b.rebates + news))
  {
    NewRebatesOwned(s, b, m, month, news);
    var n, all := |b.rebates|, b.rebates + news;
    hide LeavesOk, FromLeave;
    forall i, j | 0 <= i < j < |all| ensures !SameRebate(all[i], all[j]) {
      if i < n <= j {
        NewAndOldApart(s, b, m, month, news[j - n], i);
      } else if n <= i {
        assert !SameRebate(news[i - n], news[j - n]);
      }
    }
  }

  lemma AttachedOk(b: Book, m: nat, month: int, charge: Option<nat>)
    requires RebatesOk(b)
    ensures RebatesOk(b.(rebates := Attach(b.rebates, m, month, charge)))
  {
    AttachKeeps(b.rebates, m, month, charge);
    hide Attach, Done;
    var ts := Attach(b.rebates, m, month, charge);
    forall i, j | 0 <= i < j < |ts| ensures !SameRebate(ts[i], ts[j]) {
      assert !SameRebate(b.rebates[i], b.rebates[j]);
    }
  }

  lemma SettledRebatesOk(s: Setup, b: Book, m: nat, k: int, charge: Option<nat>)
    requires m < |b.members| && LeavesOk(b) && RebatesOk(b)
    ensures RebatesOk(Settled(s, b, m, k, charge))
  {
    var news := NewRebates(s, b, m, k - 1, b.leaves);
    NewRebatesAre(s, b, m, k - 1, b.leaves);
    assert b.leaves[..|b.leaves|] == b.leaves;
    NewRebatesDistinct(s, b, m, k - 1, |b.leaves|);
    hide NewRebates, Attach, FromLeave, LeavesOk, RebatesOk, DistinctRebates;
    forall i | 0 <= i < |news| ensures FromLeave(s, b, m, k - 1, b.leaves, news[i]) {
      assert news[i] in news;
    }
    OldAndNewOk(s, b, m, k - 1, news);
    AttachedOk(b.(rebates := b.rebates + news), m, k - 1, charge);
  }

  lemma NewRebatesOwned(s: Setup, b: Book, m: nat, month: int, news: seq<Rebate>)
    requires m < |b.members| && LeavesOk(b) && forall i :: 0 <= i < |news| ==> FromLeave(s, b, m, month, b.leaves, news[i])
    ensures forall i :: 0 <= i < |news| ==> news[i].leave < b.nextLeave
    ensures forall i, l :: 0 <= i < |news| && 0 <= l < |b.leaves| && news[i].leave == b.leaves[l].id
              ==> news[i].member == b.leaves[l].member
  {
    forall i | 0 <= i < |news|
      ensures news[i].leave < b.nextLeave
      ensures forall l :: 0 <= l < |b.leaves| && news[i].leave == b.leaves[l].id ==> news[i].member == b.leaves[l].member
    {
      var leave :| leave in b.leaves && RebateFor(s, b, m, month, leave, news[i]);
      var p :| 0 <= p < |b.leaves| && b.leaves[p] == leave;
    }
  }

  lemma NotDoneBefore(s: Setup, b: Book, m: nat, month: int, l: Leave, i: nat)
    requires m < |b.members| && RebatesOk(b) && l in b.leaves && Rebated(s, b, m, month, l) && i < |b.rebates|
    ensures b.rebates[i].leave == l.id ==> b.rebates[i].month != month
  {
    var p :| 0 <= p < |b.leaves| && b.leaves[p] == l;
  }
}
