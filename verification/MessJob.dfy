/**
 The monthly mess job (bill_mess_month, apps/hostel/mess.py) is safe to re-run: a second run in
 the same month changes nothing.

 A member is quiet for a month when billing it again would change neither the ledger nor the
 book. One pass of the job leaves every member of its plan quiet, later bills of other members
 keep a member quiet, and a pass over quiet members does nothing.
 */
module MessJob {
  import opened Wrappers
  import opened Dates
  import opened MessModel
  import opened MessBilling
  import L = LedgerModel

  /** Billing this member for this month would change nothing. */
  predicate Quiet(s: Setup, ledger: L.State, b: Book, m: nat, k: int)
    requires m < |b.members|
  {
    BillMonth(s, ledger, b, m, k) == Ok((ledger, b, None))
  }

  // ------------------------------------------------------------------ other members' bills

  /** Nothing of member m has moved. */
  predicate SameFor(b: Book, t: Book, m: nat) {
    t.members == b.members && t.leaves == b.leaves && |b.rebates| <= |t.rebates|
    && (forall i :: 0 <= i < |b.rebates| ==> t.rebates[i].member == b.rebates[i].member)
    && (forall i :: 0 <= i < |b.rebates| && b.rebates[i].member == m ==> t.rebates[i] == b.rebates[i])
    && forall i :: |b.rebates| <= i < |t.rebates| ==> t.rebates[i].member != m
  }

  lemma {:induction false} SameTotalFor(rs: seq<Rebate>, ts: seq<Rebate>, m: nat, month: int)
    requires |rs| <= |ts|
    requires forall i :: 0 <= i < |rs| ==> ts[i].member == rs[i].member && (rs[i].member == m ==> ts[i] == rs[i])
    requires forall i :: |rs| <= i < |ts| ==> ts[i].member != m
    ensures RebateTotal(ts, m, month) == RebateTotal(rs, m, month)
    decreases |ts|
  {
    if |ts| > |rs| {
      SameTotalFor(rs, ts[..|ts| - 1], m, month);
    } else if rs != [] {
      SameTotalFor(rs[..|rs| - 1], ts[..|ts| - 1], m, month);
    }
  }

  lemma SameDoneFor(b: Book, t: Book, m: nat, month: int, leave: nat)
    requires SameFor(b, t, m)
    ensures Done(t.rebates, m, month, leave) <==> Done(b.rebates, m, month, leave)
  {
    if Done(b.rebates, m, month, leave) {
      var i :| 0 <= i < |b.rebates| && OfMonth(b.rebates[i], m, month) && b.rebates[i].leave == leave;
      assert OfMonth(t.rebates[i], m, month);
    }
    if Done(t.rebates, m, month, leave) {
      var i :| 0 <= i < |t.rebates| && OfMonth(t.rebates[i], m, month) && t.rebates[i].leave == leave;
      assert OfMonth(b.rebates[i], m, month);
    }
  }

  /** A settled month: no rebate to work out, and those there are point at no bill. */
  predicate Unbilled(s: Setup, b: Book, m: nat, month: int)
    requires m < |b.members|
  {
    NoNew(s, b, m, month)
    && forall i :: 0 <= i < |b.rebates| && OfMonth(b.rebates[i], m, month) ==> b.rebates[i].charge == None
  }

  lemma UnbilledIsSettled(s: Setup, b: Book, m: nat, k: int)
    requires m < |b.members|
    ensures Settled(s, b, m, k, None) == b <==> Unbilled(s, b, m, k - 1)
  {
    var news := NewRebates(s, b, m, k - 1, b.leaves);
    NewRebatesAre(s, b, m, k - 1, b.leaves);
    if NoNew(s, b, m, k - 1) {
      NothingNew(s, b, m, k - 1, b.leaves);
      assert b.rebates + [] == b.rebates;
      if Unbilled(s, b, m, k - 1) {
        assert Attach(b.rebates, m, k - 1, None) == b.rebates;
      } else {
        var i :| 0 <= i < |b.rebates| && OfMonth(b.rebates[i], m, k - 1) && b.rebates[i].charge != None;
        assert Attach(b.rebates, m, k - 1, None)[i].charge == None;
      }
    } else {
      var i :| 0 <= i < |b.leaves| && Rebated(s, b, m, k - 1, b.leaves[i]);
      assert Done(news, m, k - 1, b.leaves[i].id);
      assert |Settled(s, b, m, k, None).rebates| > |b.rebates|;
    }
  }

  lemma UnbilledFor(s: Setup, b: Book, t: Book, m: nat, k: int)
    requires m < |b.members| && SameFor(b, t, m) && Unbilled(s, b, m, k - 1)
    ensures Unbilled(s, t, m, k - 1) && MonthlyBalance(s, t, m, k) == MonthlyBalance(s, b, m, k)
  {
    forall i | 0 <= i < |t.leaves| ensures !Rebated(s, t, m, k - 1, t.leaves[i]) {
      SameDoneFor(b, t, m, k - 1, t.leaves[i].id);
    }
    forall i | 0 <= i < |t.rebates| && OfMonth(t.rebates[i], m, k - 1) ensures t.rebates[i].charge == None {
      assert OfMonth(b.rebates[i], m, k - 1);
    }
    NothingNew(s, b, m, k - 1, b.leaves);
    NothingNew(s, t, m, k - 1, t.leaves);
    assert b.rebates + [] == b.rebates && t.rebates + [] == t.rebates;
    SameTotalFor(b.rebates, t.rebates, m, k - 1);
  }

  // ------------------------------------------------------------------ other keys

  /** Whether a live charge sits under one key does not depend on charges under another. */
  lemma {:induction false} FindOther(cs: seq<L.Charge>, ts: seq<L.Charge>, student: nat, key: string)
    requires |cs| <= |ts|
    requires forall i :: 0 <= i < |cs| ==>
               (L.HasKey(ts[i], L.Mess, key) <==> L.HasKey(cs[i], L.Mess, key)) && ts[i].student == cs[i].student
    requires forall i :: |cs| <= i < |ts| ==> !L.HasKey(ts[i], L.Mess, key)
    ensures L.FindKey(ts, Some(student), L.Mess, key) == L.FindKey(cs, Some(student), L.Mess, key)
    decreases |ts|
  {
    if |ts| > |cs| {
      FindOther(cs, ts[..|ts| - 1], student, key);
    } else if cs != [] {
      FindOther(cs[..|cs| - 1], ts[..|ts| - 1], student, key);
    }
  }

  lemma PostBillKeepsOther(s: Setup, ledger: L.State, student: nat, amount: int, due: int, key: string, other: nat, otherKey: string)
    requires key != otherKey
    ensures var r := PostBill(s, ledger, student, amount, due, key);
            r.Ok? ==> L.FindKey(r.value.0.charges, Some(other), L.Mess, otherKey) == L.FindKey(ledger.charges, Some(other), L.Mess, otherKey)
  {
    var r := PostBill(s, ledger, student, amount, due, key);
    if r.Ok? {
      FindOther(ledger.charges, r.value.0.charges, other, otherKey);
    }
  }

  lemma SettledLeavesOthers(s: Setup, b: Book, j: nat, kj: int, charge: Option<nat>, m: nat)
    requires j < |b.members| && m != j
    ensures SameFor(b, Settled(s, b, j, kj, charge), m)
  {
    var news := NewRebates(s, b, j, kj - 1, b.leaves);
    NewRebatesAre(s, b, j, kj - 1, b.leaves);
    hide NewRebates, Rebated;
    assert forall i :: 0 <= i < |news| ==> news[i] in news && FromLeave(s, b, j, kj - 1, b.leaves, news[i]);
  }

  /** Billing member j leaves the key, the rebates and the leave of every other member alone. */
  lemma BillLeavesOthers(s: Setup, ledger: L.State, b: Book, j: nat, kj: int, m: nat, k: int, student: nat)
    requires j < |b.members| && m < |b.members| && m != j
    ensures var r := BillMonth(s, ledger, b, j, kj);
            r.Ok? ==> SameFor(b, r.value.1, m)
                      && L.FindKey(r.value.0.charges, Some(student), L.Mess, MessKey(m, k))
                         == L.FindKey(ledger.charges, Some(student), L.Mess, MessKey(m, k))
  {
    var r := BillMonth(s, ledger, b, j, kj);
    if r.Ok? && Billable(s, b, ledger, j, kj) {
      if MessKey(j, kj) == MessKey(m, k) {
        KeyInjective(j, kj, m, k);
      }
      var member := b.members[j];
      var info, owner := s.mess(member.mess), member.student.value;
      if member.plan == Monthly {
        SettledLeavesOthers(s, b, j, kj, r.value.2, m);
        hide MonthlyBalance;
        assert r.value.1 == Settled(s, b, j, kj, r.value.2);
        hide Settled, SameFor;
        var due := L.Max(DueDay(kj), member.start);
        PostBillKeepsOther(s, ledger, owner, MonthlyBalance(s, b, j, kj), due, MessKey(j, kj), student, MessKey(m, k));
      } else {
        var amount := info.perDayRate * Eaten(b, j, FirstDay(kj), LastDay(kj));
        PostBillKeepsOther(s, ledger, owner, amount, DueDay(kj + 1), MessKey(j, kj), student, MessKey(m, k));
      }
    }
  }

  lemma EatenFor(b: Book, t: Book, m: nat, start: int, end: int)
    requires m < |b.members| && SameFor(b, t, m)
    ensures Eaten(t, m, start, end) == Eaten(b, m, start, end)
  {
    assert LeaveDays(t, m, start, end) == LeaveDays(b, m, start, end) by {
      assert forall d :: InSomePart(t, m, start, end, d) <==> InSomePart(b, m, start, end, d);
    }
  }

  /** A member whose billing is done stays done while others are billed. */
  lemma QuietStays(s: Setup, ledger: L.State, b: Book, later: L.State, t: Book, m: nat, k: int)
    requires m < |b.members| && SameFor(b, t, m) && Quiet(s, ledger, b, m, k)
    requires b.members[m].student.Some? ==>
               L.FindKey(later.charges, Some(b.members[m].student.value), L.Mess, MessKey(m, k))
               == L.FindKey(ledger.charges, Some(b.members[m].student.value), L.Mess, MessKey(m, k))
    ensures Quiet(s, later, t, m, k)
  {
    if Billable(s, b, ledger, m, k) {
      if b.members[m].plan == Monthly {
        UnbilledIsSettled(s, b, m, k);
        assert BillMonth(s, ledger, b, m, k).value.1 == Settled(s, b, m, k, None);
        UnbilledFor(s, b, t, m, k);
        UnbilledIsSettled(s, t, m, k);
        hide MonthlyBalance, Unbilled, NewRebates, Attach;
        assert Settled(s, t, m, k, None) == t;
      } else {
        EatenFor(b, t, m, FirstDay(k), LastDay(k));
      }
    }
  }

  // ------------------------------------------------------------------ the job

  /** All members below n of a plan that the job covers are done. */
  predicate AllQuiet(s: Setup, ledger: L.State, b: Book, plan: PlanKind, thisMonth: int, n: nat)
    requires n <= |b.members|
  {
    forall m :: 0 <= m < n && b.members[m].plan == plan && DueForJob(b.members[m], thisMonth)
      ==> Quiet(s, ledger, b, m, JobMonth(b.members[m], thisMonth))
  }

  lemma AllQuietAfter(s: Setup, ledger: L.State, b: Book, plan: PlanKind, thisMonth: int, n: nat, j: nat, kj: int)
    requires n <= |b.members| && j < |b.members| && AllQuiet(s, ledger, b, plan, thisMonth, n)
    requires BillMonth(s, ledger, b, j, kj).Ok? && (j >= n || b.members[j].plan != plan)
    ensures var r := BillMonth(s, ledger, b, j, kj).value;
            r.1.members == b.members && AllQuiet(s, r.0, r.1, plan, thisMonth, n)
  {
    var r := BillMonth(s, ledger, b, j, kj).value;
    BillAgainIsNoOp(s, ledger, b, j, kj);
    forall m | 0 <= m < n && b.members[m].plan == plan && DueForJob(b.members[m], thisMonth)
      ensures Quiet(s, r.0, r.1, m, JobMonth(b.members[m], thisMonth))
    {
      var k := JobMonth(b.members[m], thisMonth);
      BillLeavesOthers(s, ledger, b, j, kj, m, k, b.members[m].student.value);
      QuietStays(s, ledger, b, r.0, r.1, m, k);
    }
  }

  predicate GotPast(s: Setup, ledger: L.State, b: Book, plan: PlanKind, thisMonth: int, j: nat)
    requires j <= |b.members|
  {
    BillPlan(s, ledger, b, plan, thisMonth, j).done
  }

  /** What the last turn of a pass does. */
  lemma LastTurn(s: Setup, ledger: L.State, b: Book, plan: PlanKind, thisMonth: int, n: nat)
    requires 0 < n <= |b.members|
    ensures var t, r := BillPlan(s, ledger, b, plan, thisMonth, n - 1), BillPlan(s, ledger, b, plan, thisMonth, n);
            if !t.done then r == t
            else
              var u := BillTurn(s, t.ledger, t.book, plan, thisMonth, n - 1);
              if u.Ok? then r == Progress(u.value.0, u.value.1, true) else r == t.(done := false)
  {
    hide BillTurn;
  }

  lemma QuietAfterTurn(s: Setup, ledger: L.State, b: Book, plan: PlanKind, thisMonth: int, n: nat, j: nat)
    requires 0 < n <= |b.members| && j <= n && BillPlan(s, ledger, b, plan, thisMonth, n - 1).done
    requires var t := BillPlan(s, ledger, b, plan, thisMonth, n - 1);
             AllQuiet(s, t.ledger, t.book, plan, thisMonth, n - 1)
    requires j == n ==> BillPlan(s, ledger, b, plan, thisMonth, n).done
    ensures var r := BillPlan(s, ledger, b, plan, thisMonth, n);
            AllQuiet(s, r.ledger, r.book, plan, thisMonth, j)
  {
    LastTurn(s, ledger, b, plan, thisMonth, n);
    hide BillTurn, BillPlan, AllQuiet;
    var t, r := BillPlan(s, ledger, b, plan, thisMonth, n - 1), BillPlan(s, ledger, b, plan, thisMonth, n);
    TurnMakesQuiet(s, t.ledger, t.book, plan, thisMonth, n);
    if r.done {
      FewerQuiet(s, r.ledger, r.book, plan, thisMonth, n, j);
    } else {
      FewerQuiet(s, t.ledger, t.book, plan, thisMonth, n - 1, j);
    }
  }

  lemma NoneQuiet(s: Setup, ledger: L.State, b: Book, plan: PlanKind, thisMonth: int)
    ensures var r := BillPlan(s, ledger, b, plan, thisMonth, 0);
            AllQuiet(s, r.ledger, r.book, plan, thisMonth, 0)
  {
  }

  /** After a pass, finished or not, every member it got past is quiet. */
  lemma {:induction false} PassMakesQuiet(s: Setup, ledger: L.State, b: Book, plan: PlanKind, thisMonth: int, n: nat, j: nat)
    requires j <= n <= |b.members| && GotPast(s, ledger, b, plan, thisMonth, j)
    ensures var r := BillPlan(s, ledger, b, plan, thisMonth, n);
            AllQuiet(s, r.ledger, r.book, plan, thisMonth, j)
  {
    hide BillTurn, BillPlan, AllQuiet;
    if n == 0 {
      NoneQuiet(s, ledger, b, plan, thisMonth);
    } else {
      LastTurn(s, ledger, b, plan, thisMonth, n);
      if BillPlan(s, ledger, b, plan, thisMonth, n - 1).done {
        PassMakesQuiet(s, ledger, b, plan, thisMonth, n - 1, n - 1);
        QuietAfterTurn(s, ledger, b, plan, thisMonth, n, j);
      } else {
        PassMakesQuiet(s, ledger, b, plan, thisMonth, n - 1, j);
      }
    }
  }

  lemma FewerQuiet(s: Setup, ledger: L.State, b: Book, plan: PlanKind, thisMonth: int, n: nat, j: nat)
    requires j <= n <= |b.members| && AllQuiet(s, ledger, b, plan, thisMonth, n)
    ensures AllQuiet(s, ledger, b, plan, thisMonth, j)
  {
  }

  lemma TurnMakesQuiet(s: Setup, ledger: L.State, b: Book, plan: PlanKind, thisMonth: int, n: nat)
    requires 0 < n <= |b.members| && AllQuiet(s, ledger, b, plan, thisMonth, n - 1)
    ensures var r := BillTurn(s, ledger, b, plan, thisMonth, n - 1);
            r.Ok? ==> r.value.1.members == b.members && AllQuiet(s, r.value.0, r.value.1, plan, thisMonth, n)
  {
    hide BillMonth, AllQuiet, DueForJob, JobMonth;
    if BillTurn(s, ledger, b, plan, thisMonth, n - 1).Ok? {
      if b.members[n - 1].plan == plan && DueForJob(b.members[n - 1], thisMonth) {
        var k := JobMonth(b.members[n - 1], thisMonth);
        var r := BillMonth(s, ledger, b, n - 1, k).value;
        AllQuietAfter(s, ledger, b, plan, thisMonth, n - 1, n - 1, k);
        BillAgainIsNoOp(s, ledger, b, n - 1, k);
        OneMoreQuiet(s, r.0, r.1, plan, thisMonth, n);
      } else {
        OneMoreQuiet(s, ledger, b, plan, thisMonth, n);
      }
    }
  }

  lemma OneMoreQuiet(s: Setup, ledger: L.State, b: Book, plan: PlanKind, thisMonth: int, n: nat)
    requires 0 < n <= |b.members| && AllQuiet(s, ledger, b, plan, thisMonth, n - 1)
    requires b.members[n - 1].plan == plan && DueForJob(b.members[n - 1], thisMonth)
             ==> Quiet(s, ledger, b, n - 1, JobMonth(b.members[n - 1], thisMonth))
    ensures AllQuiet(s, ledger, b, plan, thisMonth, n)
  {
  }

  lemma NothingBilled(s: Setup, ledger: L.State, b: Book, plan: PlanKind, thisMonth: int)
    ensures BillPlan(s, ledger, b, plan, thisMonth, 0) == Progress(ledger, b, true)
  {
  }

  lemma {:induction false} PassKeepsOtherPlan(s: Setup, ledger: L.State, b: Book, plan: PlanKind, other: PlanKind, thisMonth: int, n: nat)
    requires n <= |b.members| && plan != other && AllQuiet(s, ledger, b, other, thisMonth, |b.members|)
    ensures var r := BillPlan(s, ledger, b, plan, thisMonth, n);
            AllQuiet(s, r.ledger, r.book, other, thisMonth, |b.members|)
  {
    NothingBilled(s, ledger, b, plan, thisMonth);
    hide BillPlan, BillMonth, AllQuiet;
    if n > 0 {
      PassKeepsOtherPlan(s, ledger, b, plan, other, thisMonth, n - 1);
      LastTurn(s, ledger, b, plan, thisMonth, n);
      var t := BillPlan(s, ledger, b, plan, thisMonth, n - 1);
      if t.done && BillPlan(s, ledger, b, plan, thisMonth, n).done && b.members[n - 1].plan == plan && DueForJob(b.members[n - 1], thisMonth) {
        AllQuietAfter(s, t.ledger, t.book, other, thisMonth, |b.members|, n - 1, JobMonth(b.members[n - 1], thisMonth));
      }
    }
  }

  lemma {:induction false} QuietPassIsNoOp(s: Setup, ledger: L.State, b: Book, plan: PlanKind, thisMonth: int, n: nat)
    requires n <= |b.members| && AllQuiet(s, ledger, b, plan, thisMonth, n)
    ensures BillPlan(s, ledger, b, plan, thisMonth, n) == Progress(ledger, b, true)
  {
    if n > 0 {
      QuietPassIsNoOp(s, ledger, b, plan, thisMonth, n - 1);
    }
  }

  /** A refusal leaves everything as it was, to the end of the pass. */
  lemma {:induction false} StoppedStays(s: Setup, ledger: L.State, b: Book, plan: PlanKind, thisMonth: int, j: nat, n: nat)
    requires j <= n <= |b.members| && !GotPast(s, ledger, b, plan, thisMonth, j)
    ensures BillPlan(s, ledger, b, plan, thisMonth, n) == BillPlan(s, ledger, b, plan, thisMonth, j)
  {
    if j < n {
      StoppedStays(s, ledger, b, plan, thisMonth, j, n - 1);
    }
  }

  /** A pass over what a pass left goes as far, bills no one, and stops where the first one stopped. */
  lemma {:induction false} SecondPass(s: Setup, ledger: L.State, b: Book, plan: PlanKind, thisMonth: int, j: nat)
    requires j <= |b.members|
    ensures var f := BillPlan(s, ledger, b, plan, thisMonth, |b.members|);
            BillPlan(s, f.ledger, f.book, plan, thisMonth, j) == Progress(f.ledger, f.book, GotPast(s, ledger, b, plan, thisMonth, j))
  {
    var f := BillPlan(s, ledger, b, plan, thisMonth, |b.members|);
    if GotPast(s, ledger, b, plan, thisMonth, j) {
      PassMakesQuiet(s, ledger, b, plan, thisMonth, |b.members|, j);
      QuietPassIsNoOp(s, f.ledger, f.book, plan, thisMonth, j);
    } else {
      hide BillTurn;
      SecondPass(s, ledger, b, plan, thisMonth, j - 1);
      StoppedStays(s, ledger, b, plan, thisMonth, j, |b.members|);
    }
  }

  /** bill_mess_month run twice in a month is bill_mess_month run once, also when it is refused on the way. */
  lemma JobTwiceIsJobOnce(s: Setup, ledger: L.State, b: Book, thisMonth: int)
    ensures var r := BillMess(s, ledger, b, thisMonth);
            BillMess(s, r.ledger, r.book, thisMonth) == r
  {
    hide BillPlan, AllQuiet;
    var n := |b.members|;
    var t := BillPlan(s, ledger, b, Monthly, thisMonth, n);
    SecondPass(s, ledger, b, Monthly, thisMonth, n);
    if t.done {
      PassMakesQuiet(s, ledger, b, Monthly, thisMonth, n, n);
      PassKeepsOtherPlan(s, t.ledger, t.book, PerDay, Monthly, thisMonth, n);
      var r := BillPlan(s, t.ledger, t.book, PerDay, thisMonth, n);
      QuietPassIsNoOp(s, r.ledger, r.book, Monthly, thisMonth, n);
      SecondPass(s, t.ledger, t.book, PerDay, thisMonth, n);
    }
  }
}
