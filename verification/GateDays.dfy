/** Outpasses and their mess leave, day by day (apps/hostel/gate.py). */
module GateDays {
  import opened Wrappers
  import opened Dates
  import opened MessModel
  import opened GateModel
  import S = GateSafety
  import A = MessAmounts
  import L = LedgerModel

  predicate OnPass(p: Outpass, d: int) {
    p.from <= d <= p.to
  }

  /** Asked for, approved, or out at this moment. */
  predicate IsOpen(p: Outpass) {
    p.status == Requested || p.status == Approved || p.status == Out
  }

  /**
   A pass is refused exactly when it ends before it starts or shares a day with an open pass of the
   student; otherwise it waits for a decision, and nothing else moves.
   */
  lemma RequestedExactly(s: State, student: nat, from: int, to: int, returnBy: int)
    requires forall i :: 0 <= i < |s.passes| ==> s.passes[i].from <= s.passes[i].to
    ensures Request(s, student, from, to, returnBy).Ok?
       <==> from <= to
            && forall i, d :: 0 <= i < |s.passes| && s.passes[i].student == student && IsOpen(s.passes[i]) && OnPass(s.passes[i], d)
                 ==> !(from <= d <= to)
    ensures Request(s, student, from, to, returnBy).Ok? ==>
              Request(s, student, from, to, returnBy).value
              == s.(passes := s.passes + [Outpass(student, from, to, returnBy, Requested, false)])
  {
    forall i | 0 <= i < |s.passes| && from <= to
      ensures DatesMeet(s.passes[i].from, s.passes[i].to, from, to) <==> exists d :: OnPass(s.passes[i], d) && from <= d <= to
    {
      if DatesMeet(s.passes[i].from, s.passes[i].to, from, to) {
        assert OnPass(s.passes[i], if from > s.passes[i].from then from else s.passes[i].from);
      }
    }
  }

  /** After any run, no day lies in two open passes of a student, nor in two leaves of a member. */
  lemma NoDayTwice(ops: seq<Op>, i: nat, j: nat, d: int)
    requires i != j
    ensures var passes := Run(ops).passes;
            i < |passes| && j < |passes| && passes[i].student == passes[j].student && IsOpen(passes[i]) && IsOpen(passes[j])
            ==> !(OnPass(passes[i], d) && OnPass(passes[j], d))
    ensures var leaves := Run(ops).book.leaves;
            i < |leaves| && j < |leaves| && leaves[i].member == leaves[j].member
            ==> !(leaves[i].from <= d <= leaves[i].to && leaves[j].from <= d <= leaves[j].to)
  {
    S.PassesAndLeavesStayApart(ops);
    hide Run;
    var t := Run(ops);
    if i < |t.book.leaves| && j < |t.book.leaves| {
      assert if i < j then S.Apart(t.book.leaves[i], t.book.leaves[j]) else S.Apart(t.book.leaves[j], t.book.leaves[i]);
    }
  }

  // ------------------------------------------------------------------ deciding

  /**
   A decision is for a requested pass. A rejection changes its status alone; an approval also records
   leave for the days of the pass from the start of the student's open membership, unless the member
   has leave on some day of it already.
   */
  lemma DecidedAsAsked(s: State, o: nat, approve: bool)
    requires o < |s.passes|
    ensures Decide(s, o, approve).Ok? ==> s.passes[o].status == Requested
    ensures s.passes[o].status == Requested && !approve ==>
              Decide(s, o, approve) == Ok(s.(passes := s.passes[o := s.passes[o].(status := Rejected)]))
    ensures Decide(s, o, true).Ok? ==>
              var t, p, m := Decide(s, o, true).value, s.passes[o], FindOpen(s.book.members, s.passes[o].student);
              t.passes == s.passes[o := p.(status := Approved)]
              && if m.None? || LeaveMeets(s.book, m.value, p.from, p.to) then t.book == s.book
                 else |t.book.leaves| == |s.book.leaves| + 1 && t.book.leaves[..|s.book.leaves|] == s.book.leaves
                      && var l := t.book.leaves[|s.book.leaves|];
                         l.member == m.value && l.outpass == Some(o)
                         && forall d :: l.from <= d <= l.to <==> OnPass(p, d) && s.book.members[m.value].start <= d
  {
    hide FindOpen;
  }

  // ------------------------------------------------------------------ at the gate

  const MINUTES := 1440

  /** Only an approved pass goes out, and only one that is out comes back. */
  lemma GateOpensExactly(s: State, o: nat, day: int, time: int)
    requires o < |s.passes|
    ensures GateOut(s, o) == if s.passes[o].status == Approved then Ok(s.(passes := s.passes[o := s.passes[o].(status := Out)])) else Conflict
    ensures GateIn(s, o, day, time).Ok? <==> s.passes[o].status == Out
  {
  }

  /**
   A return is late exactly after the minute expected back on the last day. Coming back before the
   pass ends, the leave tied to it ends on the day of return, or on its first day if that is later.
   */
  lemma ReturnedAsExpected(s: State, o: nat, day: int, time: int)
    requires o < |s.passes| && s.passes[o].status == Out && S.Inv(s)
    requires 0 <= time < MINUTES && 0 <= s.passes[o].returnBy < MINUTES
    ensures var t, p := GateIn(s, o, day, time).value, s.passes[o];
            t.passes == s.passes[o := p.(status := Returned, late := day * MINUTES + time > p.to * MINUTES + p.returnBy)]
            && t.book == s.book.(leaves := t.book.leaves) && |t.book.leaves| == |s.book.leaves|
            && forall i :: 0 <= i < |s.book.leaves| ==>
                 var l, now := s.book.leaves[i], t.book.leaves[i];
                 now == if l.outpass == Some(o) && day < l.to then l.(to := if day > l.from then day else l.from) else l
  {
    var leaves := s.book.leaves;
    forall i, j | 0 <= i < j < |leaves| && leaves[i].outpass == Some(o) ensures leaves[j].outpass != Some(o) {
      assert S.Apart(leaves[i], leaves[j]);
    }
    hide S.Inv, FindTied;
  }

  // ------------------------------------------------------------------ cancelling

  lemma {:induction false} RebatesWithout(rebates: seq<Rebate>, leaves: seq<Leave>, o: nat, r: Rebate)
    ensures r in WithoutRebates(rebates, leaves, o)
       <==> r in rebates && !exists i :: 0 <= i < |leaves| && leaves[i].id == r.leave && leaves[i].outpass == Some(o)
  {
    if rebates != [] {
      var n := |rebates| - 1;
      RebatesWithout(rebates[..n], leaves, o, r);
      assert rebates == rebates[..n] + [rebates[n]];
    }
  }

  /** A pass is cancelled exactly while requested or approved; its leave and that leave's rebates go, and no others. */
  lemma CancelledWithItsLeave(s: State, o: nat, l: Leave, r: Rebate)
    requires o < |s.passes|
    ensures GateModel.Cancel(s, o).Ok? <==> s.passes[o].status == Requested || s.passes[o].status == Approved
    ensures GateModel.Cancel(s, o).Ok? ==>
              var t := GateModel.Cancel(s, o).value;
              t.passes == s.passes[o := s.passes[o].(status := Cancelled)] && t.book.members == s.book.members
              && (l in t.book.leaves <==> l in s.book.leaves && l.outpass != Some(o))
              && (r in t.book.rebates
                  <==> r in s.book.rebates
                       && !exists i :: 0 <= i < |s.book.leaves| && s.book.leaves[i].id == r.leave && s.book.leaves[i].outpass == Some(o))
  {
    RebatesWithout(s.book.rebates, s.book.leaves, o, r);
    hide WithoutTied, WithoutRebates;
  }

  // ------------------------------------------------------------------ membership and leave by hand

  /** A student joins a mess exactly without an open membership, and leaves it once, on no day before the start. */
  lemma MembershipExactly(b: Book, student: nat, mess: nat, plan: PlanKind, start: int, m: nat, on: int)
    requires m < |b.members|
    ensures Enrol(b, student, mess, plan, start).Ok?
       <==> forall i :: 0 <= i < |b.members| && b.members[i].student == Some(student) ==> b.members[i].end.Some?
    ensures Enrol(b, student, mess, plan, start).Ok? ==>
              Enrol(b, student, mess, plan, start).value == b.(members := b.members + [Member(mess, Some(student), plan, start, None, None)])
    ensures EndMembership(b, m, on)
            == if b.members[m].end == None && b.members[m].start <= on then Ok(b.(members := b.members[m := b.members[m].(end := Some(on))]))
               else Conflict
  {
    hide FindOpen;
  }

  /** Leave is removed by hand exactly when neither a pass nor a rebate stands behind it. */
  lemma RemovedExactly(b: Book, i: nat)
    requires i < |b.leaves|
    ensures RemoveLeave(b, i).Ok?
       <==> b.leaves[i].outpass == None && forall k :: 0 <= k < |b.rebates| ==> b.rebates[k].leave != b.leaves[i].id
    ensures RemoveLeave(b, i).Ok? ==> RemoveLeave(b, i).value == b.(leaves := b.leaves[..i] + b.leaves[i + 1..])
  {
  }
}
