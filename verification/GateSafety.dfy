/**
 Safety of outpasses and leave over every run (apps/hostel/gate.py, apps/hostel/mess.py).

 A student's passes that are requested, approved or out never overlap, and a member's leaves never
 overlap. A leave tied to a pass lies within it and exists only while the pass is approved, out or
 returned; it is only ever shortened, and only by an early return.
 */
module GateSafety {
  import opened Wrappers
  import opened Dates
  import opened MessModel
  import opened GateModel
  import L = LedgerModel

  predicate PassesDisjoint(s: State) {
    (forall i :: 0 <= i < |s.passes| ==> s.passes[i].from <= s.passes[i].to)
    && forall i, j :: 0 <= i < j < |s.passes| && s.passes[i].student == s.passes[j].student
         && Active(s.passes[i]) && Active(s.passes[j])
         ==> !DatesMeet(s.passes[i].from, s.passes[i].to, s.passes[j].from, s.passes[j].to)
  }

  predicate Apart(a: Leave, b: Leave) {
    a.id != b.id && (a.member == b.member ==> !DatesMeet(a.from, a.to, b.from, b.to))
    && (a.outpass.Some? ==> a.outpass != b.outpass)
  }

  predicate LeaveOk(b: Book, l: Leave) {
    l.from <= l.to && l.id < b.nextLeave && l.member < |b.members|
  }

  predicate LeavesDisjoint(b: Book) {
    (forall i :: 0 <= i < |b.leaves| ==> LeaveOk(b, b.leaves[i]))
    && forall i, j :: 0 <= i < j < |b.leaves| ==> Apart(b.leaves[i], b.leaves[j])
  }

  /** A leave that comes from a pass lies within it, and the pass was approved and is not withdrawn. */
  predicate TiedOk(s: State, l: Leave) {
    l.outpass.Some? ==>
      l.outpass.value < |s.passes|
      && var p := s.passes[l.outpass.value];
         p.status in [Approved, Out, Returned] && p.from <= l.from && l.to <= p.to
         && l.member < |s.book.members| && s.book.members[l.member].student == Some(p.student)
  }

  predicate Tied(s: State) {
    forall i :: 0 <= i < |s.book.leaves| ==> TiedOk(s, s.book.leaves[i])
  }

  predicate Inv(s: State) {
    PassesDisjoint(s) && LeavesDisjoint(s.book) && Tied(s)
  }

  // ------------------------------------------------------------------ steps on the mess book

  /** Members only ever gain an end date; leaves stay. */
  predicate MembersGrow(b: Book, c: Book) {
    |b.members| <= |c.members| && c.leaves == b.leaves && c.nextLeave == b.nextLeave
    && forall i :: 0 <= i < |b.members| ==> c.members[i].student == b.members[i].student
  }

  lemma MembersGrowKeeps(s: State, c: Book)
    requires Inv(s) && MembersGrow(s.book, c)
    ensures Inv(s.(book := c))
  {
    var t := s.(book := c);
    forall i | 0 <= i < |c.leaves| ensures LeaveOk(c, c.leaves[i]) && TiedOk(t, c.leaves[i]) {
      assert LeaveOk(s.book, s.book.leaves[i]) && TiedOk(s, s.book.leaves[i]);
    }
  }

  predicate DistinctIds(ls: seq<Leave>) {
    forall i, j :: 0 <= i < j < |ls| ==> ls[i].id != ls[j].id
  }

  lemma FewerLeavesKeep(b: Book, c: Book)
    requires LeavesDisjoint(b) && c.members == b.members && c.nextLeave == b.nextLeave
    requires forall i :: 0 <= i < |c.leaves| ==> c.leaves[i] in b.leaves
    requires DistinctIds(c.leaves)
    ensures LeavesDisjoint(c)
  {
    forall i | 0 <= i < |c.leaves| ensures LeaveOk(c, c.leaves[i]) {
      assert c.leaves[i] in b.leaves;
      var k :| 0 <= k < |b.leaves| && b.leaves[k] == c.leaves[i];
      assert LeaveOk(b, b.leaves[k]);
    }
    forall i, j | 0 <= i < j < |c.leaves| ensures Apart(c.leaves[i], c.leaves[j]) {
      assert c.leaves[i] in b.leaves && c.leaves[j] in b.leaves;
      var k :| 0 <= k < |b.leaves| && b.leaves[k] == c.leaves[i];
      var m :| 0 <= m < |b.leaves| && b.leaves[m] == c.leaves[j];
      assert c.leaves[i].id != c.leaves[j].id;
      assert if k < m then Apart(b.leaves[k], b.leaves[m]) else Apart(b.leaves[m], b.leaves[k]);
    }
  }

  lemma OneLeaveMore(b: Book, n: nat, o: nat)
    requires 0 < n <= |b.leaves|
    ensures var last := b.leaves[n - 1];
            WithoutTied(b.leaves[..n], o) == WithoutTied(b.leaves[..n - 1], o) + (if last.outpass != Some(o) then [last] else [])
  {
    assert b.leaves[..n][..n - 1] == b.leaves[..n - 1];
  }

  lemma IdsApart(b: Book, n: nat, l: Leave)
    requires LeavesDisjoint(b) && 0 < n <= |b.leaves| && l in b.leaves[..n - 1]
    ensures l.id != b.leaves[n - 1].id
  {
    var k :| 0 <= k < n - 1 && b.leaves[..n - 1][k] == l;
    assert Apart(b.leaves[k], b.leaves[n - 1]);
  }

  lemma {:induction false} DistinctLeaves(b: Book, n: nat, o: nat)
    requires LeavesDisjoint(b) && n <= |b.leaves|
    ensures var r := WithoutTied(b.leaves[..n], o);
            DistinctIds(r)
  {
    hide WithoutTied, LeavesDisjoint;
    var r := WithoutTied(b.leaves[..n], o);
    if n == 0 {
      assert forall i :: 0 <= i < |r| ==> r[i] in b.leaves[..0];
    } else {
      DistinctLeaves(b, n - 1, o);
      OneLeaveMore(b, n, o);
      var rest := WithoutTied(b.leaves[..n - 1], o);
      forall i | 0 <= i < |rest| ensures rest[i].id != b.leaves[n - 1].id {
        assert rest[i] in rest && rest[i] in b.leaves[..n - 1];
        IdsApart(b, n, rest[i]);
      }
    }
  }

  lemma RecordKeeps(b: Book, m: nat, from: int, to: int, outpass: Option<nat>)
    requires LeavesDisjoint(b) && m < |b.members|
    requires outpass.Some? ==> forall i :: 0 <= i < |b.leaves| ==> b.leaves[i].outpass != outpass
    ensures var r := RecordLeave(b, m, from, to, outpass);
            r.Ok? ==> LeavesDisjoint(r.value)
  {
    var r := RecordLeave(b, m, from, to, outpass);
    if r.Ok? {
      var c := r.value;
      forall i | 0 <= i < |c.leaves| ensures LeaveOk(c, c.leaves[i]) {
        if i < |b.leaves| {
          assert LeaveOk(b, b.leaves[i]);
        }
      }
      forall i, j | 0 <= i < j < |c.leaves| ensures Apart(c.leaves[i], c.leaves[j]) {
        if j < |b.leaves| {
          assert Apart(b.leaves[i], b.leaves[j]);
        } else {
          assert LeaveOk(b, b.leaves[i]);
          assert !(b.leaves[i].member == m && Meets(b.leaves[i], from, to));
        }
      }
    }
  }

  // ------------------------------------------------------------------ steps on passes

  /** A pass's status changes; its student and dates do not. */
  predicate StatusOnly(s: State, t: State, o: nat) {
    o < |s.passes| && |t.passes| == |s.passes|
    && (forall i :: 0 <= i < |s.passes| && i != o ==> t.passes[i] == s.passes[i])
    && t.passes[o].student == s.passes[o].student && t.passes[o].from == s.passes[o].from && t.passes[o].to == s.passes[o].to
    && (Active(t.passes[o]) ==> Active(s.passes[o]))
  }

  lemma StatusKeepsDisjoint(s: State, t: State, o: nat)
    requires PassesDisjoint(s) && StatusOnly(s, t, o)
    ensures PassesDisjoint(t)
  {
  }

  lemma DecideKeeps(s: State, o: nat, approve: bool)
    requires Inv(s) && o < |s.passes|
    ensures Decide(s, o, approve).Ok? ==> Inv(Decide(s, o, approve).value)
  {
    var r := Decide(s, o, approve);
    if r.Ok? {
      var t, p := r.value, s.passes[o];
      StatusKeepsDisjoint(s, t, o);
      forall i | 0 <= i < |s.book.leaves| ensures s.book.leaves[i].outpass != Some(o) {
        assert TiedOk(s, s.book.leaves[i]);
      }
      var m := FindOpen(s.book.members, p.student);
      if t.book != s.book {
        RecordKeeps(s.book, m.value, L.Max(p.from, s.book.members[m.value].start), p.to, Some(o));
      }
      forall i | 0 <= i < |t.book.leaves| ensures TiedOk(t, t.book.leaves[i]) {
        if i < |s.book.leaves| {
          assert TiedOk(s, s.book.leaves[i]);
        }
      }
    }
  }

  lemma ShortenKeeps(b: Book, o: nat, day: int)
    requires LeavesDisjoint(b)
    ensures LeavesDisjoint(Shorten(b, o, day))
  {
    var c := Shorten(b, o, day);
    if c != b {
      var k := FindTied(b.leaves, o).value;
      forall i | 0 <= i < |c.leaves| ensures LeaveOk(c, c.leaves[i]) {
        assert LeaveOk(b, b.leaves[i]);
      }
      forall i, j | 0 <= i < j < |c.leaves| ensures Apart(c.leaves[i], c.leaves[j]) {
        assert Apart(b.leaves[i], b.leaves[j]);
      }
    }
  }

  lemma GateInKeeps(s: State, o: nat, day: int, time: int)
    requires Inv(s) && o < |s.passes|
    ensures GateIn(s, o, day, time).Ok? ==> Inv(GateIn(s, o, day, time).value)
  {
    var r := GateIn(s, o, day, time);
    if r.Ok? {
      StatusKeepsDisjoint(s, r.value, o);
      ShortenKeeps(s.book, o, day);
      forall i | 0 <= i < |r.value.book.leaves| ensures TiedOk(r.value, r.value.book.leaves[i]) {
        assert TiedOk(s, s.book.leaves[i]);
      }
    }
  }

  lemma CancelKeeps(s: State, o: nat)
    requires Inv(s) && o < |s.passes|
    ensures GateModel.Cancel(s, o).Ok? ==> Inv(GateModel.Cancel(s, o).value)
  {
    var r := GateModel.Cancel(s, o);
    hide WithoutTied;
    if r.Ok? {
      var t := r.value;
      StatusKeepsDisjoint(s, t, o);
      assert s.book.leaves[..|s.book.leaves|] == s.book.leaves;
      DistinctLeaves(s.book, |s.book.leaves|, o);
      assert forall i :: 0 <= i < |t.book.leaves| ==> t.book.leaves[i] in t.book.leaves;
      FewerLeavesKeep(s.book, t.book);
      forall i | 0 <= i < |t.book.leaves| ensures TiedOk(t, t.book.leaves[i]) {
        var l := t.book.leaves[i];
        assert l in s.book.leaves && l.outpass != Some(o);
        var k :| 0 <= k < |s.book.leaves| && s.book.leaves[k] == l;
        assert TiedOk(s, s.book.leaves[k]);
      }
    }
  }

  lemma RemoveKeeps(s: State, i: nat)
    requires Inv(s) && i < |s.book.leaves|
    ensures RemoveLeave(s.book, i).Ok? ==> Inv(s.(book := RemoveLeave(s.book, i).value))
  {
    if RemoveLeave(s.book, i).Ok? {
      var c := RemoveLeave(s.book, i).value;
      forall j, k | 0 <= j < k < |c.leaves| ensures c.leaves[j].id != c.leaves[k].id {
        var a, b := if j < i then j else j + 1, if k < i then k else k + 1;
        assert Apart(s.book.leaves[a], s.book.leaves[b]);
      }
      FewerLeavesKeep(s.book, c);
      forall j | 0 <= j < |c.leaves| ensures TiedOk(s.(book := c), c.leaves[j]) {
        assert TiedOk(s, s.book.leaves[if j < i then j else j + 1]);
      }
    }
  }

  lemma RequestKeeps(s: State, student: nat, from: int, to: int, returnBy: int)
    requires Inv(s)
    ensures Request(s, student, from, to, returnBy).Ok? ==> Inv(Request(s, student, from, to, returnBy).value)
  {
    var r := Request(s, student, from, to, returnBy);
    if r.Ok? {
      forall i | 0 <= i < |s.book.leaves| ensures TiedOk(r.value, s.book.leaves[i]) {
        assert TiedOk(s, s.book.leaves[i]);
      }
    }
  }

  lemma RecordLeaveKeeps(s: State, m: nat, from: int, to: int)
    requires Inv(s) && m < |s.book.members|
    ensures RecordLeave(s.book, m, from, to, None).Ok? ==> Inv(s.(book := RecordLeave(s.book, m, from, to, None).value))
  {
    RecordKeeps(s.book, m, from, to, None);
    var r := RecordLeave(s.book, m, from, to, None);
    if r.Ok? {
      forall i | 0 <= i < |r.value.leaves| ensures TiedOk(s.(book := r.value), r.value.leaves[i]) {
        if i < |s.book.leaves| {
          assert TiedOk(s, s.book.leaves[i]);
        }
      }
    }
  }

  lemma GateOutKeeps(s: State, o: nat)
    requires Inv(s) && o < |s.passes|
    ensures GateOut(s, o).Ok? ==> Inv(GateOut(s, o).value)
  {
    if GateOut(s, o).Ok? {
      var t := GateOut(s, o).value;
      StatusKeepsDisjoint(s, t, o);
      forall i | 0 <= i < |t.book.leaves| ensures TiedOk(t, t.book.leaves[i]) {
        assert TiedOk(s, s.book.leaves[i]);
      }
    }
  }

  lemma StepKeepsInv(s: State, op: Op)
    requires Inv(s)
    ensures Inv(Step(s, op))
  {
    hide Inv;
    match op
    case OpRequest(student, from, to, returnBy) => RequestKeeps(s, student, from, to, returnBy);
    case OpDecide(o, approve) => if o < |s.passes| { DecideKeeps(s, o, approve); }
    case OpGateOut(o) => if o < |s.passes| { GateOutKeeps(s, o); }
    case OpGateIn(o, day, time) => if o < |s.passes| { GateInKeeps(s, o, day, time); }
    case OpCancel(o) => if o < |s.passes| { CancelKeeps(s, o); }
    case OpRecordLeave(m, from, to) => if m < |s.book.members| { RecordLeaveKeeps(s, m, from, to); }
    case OpRemoveLeave(i) => if i < |s.book.leaves| { RemoveKeeps(s, i); }
    case _ => MembersGrowKeeps(s, Step(s, op).book);
  }

  /**
   Over every run: a student's requested, approved and out passes have disjoint dates, so do a
   member's leaves, and a tied leave lies within an approved, out or returned pass.
   */
  lemma {:induction false} PassesAndLeavesStayApart(ops: seq<Op>)
    ensures Inv(Run(ops))
  {
    if ops != [] {
      PassesAndLeavesStayApart(ops[..|ops| - 1]);
      StepKeepsInv(Run(ops[..|ops| - 1]), ops[|ops| - 1]);
    }
  }

  // ------------------------------------------------------------------ leave only shrinks, and when

  predicate EarlyReturn(s: State, op: Op, l: Leave, now: Leave) {
    op.OpGateIn? && l.outpass == Some(op.pass) && op.pass < |s.passes| && s.passes[op.pass].status == Out
    && op.day < l.to && now == l.(to := L.Max(op.day, l.from))
  }

  /** A leave that survives a step is unchanged, or was shortened to the day of an early return. */
  lemma LeaveOnlyShrinks(s: State, op: Op, i: nat, j: nat)
    requires Inv(s) && i < |s.book.leaves| && j < |Step(s, op).book.leaves|
    requires s.book.leaves[i].id == Step(s, op).book.leaves[j].id
    ensures var l, now := s.book.leaves[i], Step(s, op).book.leaves[j];
            now == l || EarlyReturn(s, op, l, now)
  {
    var t := Step(s, op);
    var l, now := s.book.leaves[i], t.book.leaves[j];
    assert LeaveOk(s.book, l);
    assert now in t.book.leaves;
    if now in s.book.leaves {
      var k :| 0 <= k < |s.book.leaves| && s.book.leaves[k] == now;
      SameIdSameLeave(s.book, i, k);
    } else if op.OpGateIn? {
      assert j < |s.book.leaves| && s.book.leaves[j].id == now.id;
      SameIdSameLeave(s.book, i, j);
    }
  }

  lemma SameIdSameLeave(b: Book, i: nat, j: nat)
    requires LeavesDisjoint(b) && i < |b.leaves| && j < |b.leaves| && b.leaves[i].id == b.leaves[j].id
    ensures i == j
  {
    assert i < j ==> Apart(b.leaves[i], b.leaves[j]);
    assert j < i ==> Apart(b.leaves[j], b.leaves[i]);
  }

  /**
   A requested pass cannot be approved exactly when the student joined the mess after the pass
   ends: the leave it would record ends before it starts.
   */
  lemma ApprovalRefusedExactly(s: State, o: nat)
    requires Inv(s) && o < |s.passes| && s.passes[o].status == Requested
    ensures var p := s.passes[o];
            var m := FindOpen(s.book.members, p.student);
            Decide(s, o, true).Conflict?
            <==> m.Some? && s.book.members[m.value].start > p.to && !LeaveMeets(s.book, m.value, p.from, p.to)
  {
    var p := s.passes[o];
    var m := FindOpen(s.book.members, p.student);
    if m.Some? && !LeaveMeets(s.book, m.value, p.from, p.to) {
      var from := L.Max(p.from, s.book.members[m.value].start);
      assert forall i :: 0 <= i < |s.book.leaves| && Meets(s.book.leaves[i], from, p.to) ==> Meets(s.book.leaves[i], p.from, p.to);
    }
  }
}
