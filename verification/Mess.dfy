/**
 The mess services as they run (apps/hostel/mess.py): leave, billing and the contractor's
 bill, with their loops, proved against MessModel.
 */
module MessService {
  import opened Wrappers
  import opened Dates
  import opened MessModel
  import opened MessCounting
  import opened MessJob
  import opened Sums
  import L = LedgerModel
  import opened FeesService

  class MessBook {
    const setup: Setup
    const fees: Ledger
    var members: seq<Member>
    var leaves: seq<Leave>
    var rebates: seq<Rebate>
    var nextLeave: nat

    constructor (setup: Setup, fees: Ledger)
      ensures this.setup == setup && this.fees == fees && Model() == Book([], [], [], 0)
    {
      this.setup, this.fees := setup, fees;
      members, leaves, rebates, nextLeave := [], [], [], 0;
    }

    function Model(): Book
      reads this
    {
      Book(members, leaves, rebates, nextLeave)
    }

    /** Fees are configured the same way for both. */
    ghost predicate Linked() {
      fees.cfg == setup.fees
    }

    method Record(m: nat, from: int, to: int, outpass: Option<nat>) returns (r: Result<()>)
      requires m < |members|
      modifies this`leaves, this`nextLeave
      ensures r.Ok? <==> RecordLeave(old(Model()), m, from, to, outpass).Ok?
      ensures Model() == if r.Ok? then RecordLeave(old(Model()), m, from, to, outpass).value else old(Model())
    {
      if to < from || Overlap(members[m].start, members[m].end, from, to).None? {
        return Conflict;
      }
      if exists i :: 0 <= i < |leaves| && leaves[i].member == m && Meets(leaves[i], from, to) {
        return Conflict;
      }
      leaves := leaves + [Leave(nextLeave, m, from, to, outpass)];
      nextLeave := nextLeave + 1;
      r := Ok(());
    }

    // ---------------------------------------------------------------- billing

    /** The month's rebates: those already worked out, and new ones for qualifying leave. */
    method WorkOutRebates(m: nat, month: int) returns (news: seq<Rebate>, total: int)
      requires m < |members|
      ensures news == NewRebates(setup, Model(), m, month, leaves)
      ensures total == RebateTotal(rebates + news, m, month)
    {
      hide FirstDay, LengthOf, LeavePart, Qualifies, Done;
      var b := Model();
      total := 0;
      for i := 0 to |rebates|
        invariant total == RebateTotal(rebates[..i], m, month)
      {
        assert rebates[..i + 1][..i] == rebates[..i];
        if OfMonth(rebates[i], m, month) {
          total := total + rebates[i].amount;
        }
      }
      assert rebates[..|rebates|] == rebates;
      news := [];
      assert rebates + news == rebates;
      for i := 0 to |leaves|
        invariant news == NewRebates(setup, b, m, month, leaves[..i])
        invariant total == RebateTotal(rebates + news, m, month)
      {
        assert leaves[..i + 1][..i] == leaves[..i];
        var l := leaves[i];
        var part := LeavePart(members[m], l, FirstDay(month), LastDay(month));
        if l.member == m && Qualifies(setup.mess(members[m].mess), l) && part.Some? && !Done(rebates, m, month, l.id) {
          var days := part.value.1 - part.value.0 + 1;
          var r := Rebate(l.id, m, month, days, setup.mess(members[m].mess).rebatePerDay * days, None);
          assert (rebates + (news + [r]))[..|rebates + news|] == rebates + news;
          news, total := news + [r], total + r.amount;
        }
      }
      assert leaves[..|leaves|] == leaves;
    }

    method AttachBill(m: nat, month: int, charge: Option<nat>)
      modifies this`rebates
      ensures rebates == Attach(old(rebates), m, month, charge)
    {
      for i := 0 to |rebates|
        invariant |rebates| == |old(rebates)|
        invariant forall j :: 0 <= j < i ==> rebates[j] == Attach(old(rebates), m, month, charge)[j]
        invariant forall j :: i <= j < |rebates| ==> rebates[j] == old(rebates)[j]
      {
        if OfMonth(rebates[i], m, month) {
          rebates := rebates[i := rebates[i].(charge := charge)];
        }
      }
    }

    /** Posts a bill that is worth something. */
    method PostCharge(student: nat, amount: int, due: int, key: string) returns (r: Result<Option<nat>>)
      requires Linked()
      modifies fees
      ensures match PostBill(setup, old(fees.Model()), student, amount, due, key)
              case Conflict => r.Conflict? && fees.Model() == old(fees.Model())
              case Ok(t) => r == Ok(t.1) && fees.Model() == t.0
    {
      if amount <= 0 {
        return Ok(None);
      }
      var posted := fees.Post(Posting(setup, student, amount, due, key));
      r := if posted.Conflict? then Conflict else Ok(Some(posted.value));
    }

    method BillMonthly(m: nat, k: int, enrolled: int) returns (r: Result<Option<nat>>)
      requires Linked() && m < |members| && members[m].plan == Monthly
      requires Billable(setup, Model(), fees.Model(), m, k) && enrolled == Enrolled(members[m], FirstDay(k), LastDay(k))
      modifies this`rebates, fees
      ensures match BillMonth(setup, old(fees.Model()), old(Model()), m, k)
              case Conflict => r.Conflict? && Model() == old(Model()) && fees.Model() == old(fees.Model())
              case Ok(t) => r == Ok(t.2) && fees.Model() == t.0 && Model() == t.1
    {
      hide L.PostCharge, L.FindKey, Attach, NewRebates, RebateTotal, Enrolled, MonthlyBase;
      var member := members[m];
      var base := MonthlyBase(setup.mess(member.mess), enrolled, k);
      var news, total := WorkOutRebates(m, k - 1);
      r := PostCharge(member.student.value, base - total, L.Max(DueDay(k), member.start), MessKey(m, k));
      if r.Ok? {
        rebates := rebates + news;
        AttachBill(m, k - 1, r.value);
      }
    }

    method BillPerDay(m: nat, k: int, enrolled: int) returns (r: Result<Option<nat>>)
      requires Linked() && m < |members| && members[m].plan == PerDay
      requires Billable(setup, Model(), fees.Model(), m, k) && enrolled == Enrolled(members[m], FirstDay(k), LastDay(k))
      modifies fees
      ensures match BillMonth(setup, old(fees.Model()), Model(), m, k)
              case Conflict => r.Conflict? && fees.Model() == old(fees.Model())
              case Ok(t) => r == Ok(t.2) && fees.Model() == t.0 && Model() == t.1
    {
      var member := members[m];
      var eaten := enrolled - |LeaveDays(Model(), m, FirstDay(k), LastDay(k))|;
      r := PostCharge(member.student.value, setup.mess(member.mess).perDayRate * eaten, DueDay(k + 1), MessKey(m, k));
    }

    method BillMember(m: nat, k: int) returns (r: Result<Option<nat>>)
      requires Linked() && m < |members|
      modifies this`rebates, fees
      ensures match BillMonth(setup, old(fees.Model()), old(Model()), m, k)
              case Conflict => r.Conflict? && Model() == old(Model()) && fees.Model() == old(fees.Model())
              case Ok(t) => r == Ok(t.2) && fees.Model() == t.0 && Model() == t.1
    {
      var member := members[m];
      if member.student.None? || !setup.licensed {
        return Ok(None);
      }
      var span := Overlap(member.start, member.end, FirstDay(k), LastDay(k));
      if span.None? || L.FindKey(fees.charges, Some(member.student.value), L.Mess, MessKey(m, k)).Some? {
        return Ok(None);
      }
      var enrolled := span.value.1 - span.value.0 + 1;
      assert Billable(setup, Model(), fees.Model(), m, k);
      hide Billable, BillMonth;
      if member.plan == Monthly {
        r := BillMonthly(m, k, enrolled);
      } else {
        r := BillPerDay(m, k, enrolled);
      }
    }

    /** No transaction of its own: what was billed before a refusal stays billed. */
    method BillMess(thisMonth: int) returns (ok: bool)
      requires Linked()
      modifies this`rebates, fees
      ensures MessModel.BillMess(setup, old(fees.Model()), old(Model()), thisMonth) == Progress(fees.Model(), Model(), ok)
    {
      ok := BillPass(Monthly, thisMonth);
      if ok {
        ok := BillPass(PerDay, thisMonth);
      }
    }

    /** One of the job's two loops over the members. */
    method BillPass(plan: PlanKind, thisMonth: int) returns (ok: bool)
      requires Linked()
      modifies this`rebates, fees
      ensures BillPlan(setup, old(fees.Model()), old(Model()), plan, thisMonth, |members|) == Progress(fees.Model(), Model(), ok)
    {
      ghost var b, ledger := Model(), fees.Model();
      for m := 0 to |members|
        invariant BillPlan(setup, ledger, b, plan, thisMonth, m) == Progress(fees.Model(), Model(), true)
      {
        var member := members[m];
        if member.plan == plan && DueForJob(member, thisMonth) {
          var billed := BillMember(m, JobMonth(member, thisMonth));
          if billed.Conflict? {
            StoppedStays(setup, ledger, b, plan, thisMonth, m + 1, |members|);
            return false;
          }
        }
      }
      ok := true;
    }
  }

  // ------------------------------------------------------------------ the contractor's bill

  datatype Meal = Breakfast | Lunch | Snacks | Dinner
  datatype Row = Row(meal: Meal, plates: int, rate: int, amount: int, estimatedDays: nat)

  const MEALS: seq<Meal> := [Breakfast, Lunch, Snacks, Dinner]

  type Counts = map<(int, Meal), nat>

  function At(c: Counts, d: int, meal: Meal): nat {
    if (d, meal) in c then c[(d, meal)] else 0
  }

  /** Plates of a meal over the first n days: what was recorded, else who is expected and their guests. */
  function Plates(b: Book, mess: nat, k: int, recorded: Counts, guests: Counts, meal: Meal, n: nat): int {
    if n == 0 then 0
    else
      var d := FirstDay(k) + n - 1;
      Plates(b, mess, k, recorded, guests, meal, n - 1)
      + (if (d, meal) in recorded then recorded[(d, meal)]
         else Expected(b, mess, FirstDay(k), LastDay(k), d, |b.members|) + At(guests, d, meal))
  }

  function Unrecorded(k: int, recorded: Counts, meal: Meal, n: nat): nat {
    if n == 0 then 0
    else Unrecorded(k, recorded, meal, n - 1) + (if (FirstDay(k) + n - 1, meal) in recorded then 0 else 1)
  }

  method ExpectedOn(b: Book, mess: nat, m0: int, m1: int, d: int) returns (n: nat)
    ensures n == Expected(b, mess, m0, m1, d, |b.members|)
  {
    n := 0;
    for i := 0 to |b.members|
      invariant n == Expected(b, mess, m0, m1, d, i)
    {
      var m := b.members[i];
      if Prefiltered(m, mess, m0, m1) && m.start <= d && (m.end.None? || m.end.value >= d) {
        if !PrefilteredLeave(b, i, m0, m1, d) {
          n := n + 1;
        }
      }
    }
  }

  function AmountTotal(rows: seq<Row>): int {
    if rows == [] then 0 else AmountTotal(rows[..|rows| - 1]) + rows[|rows| - 1].amount
  }

  predicate RowFor(b: Book, mess: nat, k: int, rates: map<Meal, int>, recorded: Counts, guests: Counts, row: Row) {
    row.meal in rates && row.rate == rates[row.meal]
    && row.plates == Plates(b, mess, k, recorded, guests, row.meal, LengthOf(k))
    && row.estimatedDays == Unrecorded(k, recorded, row.meal, LengthOf(k))
    && row.amount == row.rate * row.plates
  }

  /** The meals of a list that have a rate. */
  function Rated(meals: seq<Meal>, rates: map<Meal, int>): seq<Meal> {
    if meals == [] then []
    else Rated(meals[..|meals| - 1], rates) + (if meals[|meals| - 1] in rates then [meals[|meals| - 1]] else [])
  }

  /** The month's expected members, day by day. */
  method ExpectedPerDay(b: Book, mess: nat, k: int) returns (perDay: seq<nat>)
    ensures |perDay| == LengthOf(k)
    ensures forall j :: 0 <= j < |perDay| ==> perDay[j] == Expected(b, mess, FirstDay(k), LastDay(k), FirstDay(k) + j, |b.members|)
  {
    hide FirstDay, Expected;
    var m0, m1 := FirstDay(k), LastDay(k);
    perDay := [];
    for i := 0 to LengthOf(k)
      invariant |perDay| == i && forall j :: 0 <= j < i ==> perDay[j] == Expected(b, mess, m0, m1, m0 + j, |b.members|)
    {
      var n := ExpectedOn(b, mess, m0, m1, m0 + i);
      perDay := perDay + [n];
    }
  }

  method ContractorBill(b: Book, mess: nat, k: int, rates: map<Meal, int>, recorded: Counts, guests: Counts)
    returns (rows: seq<Row>, total: int)
    ensures |rows| == |Rated(MEALS, rates)| && forall i :: 0 <= i < |rows| ==> rows[i].meal == Rated(MEALS, rates)[i]
    ensures forall i :: 0 <= i < |rows| ==> RowFor(b, mess, k, rates, recorded, guests, rows[i])
    ensures total == AmountTotal(rows)
  {
    hide FirstDay, LengthOf, Expected;
    var perDay := ExpectedPerDay(b, mess, k);
    rows, total := [], 0;
    for i := 0 to |MEALS|
      invariant |rows| == |Rated(MEALS[..i], rates)| && forall j :: 0 <= j < |rows| ==> rows[j].meal == Rated(MEALS[..i], rates)[j]
      invariant forall j :: 0 <= j < |rows| ==> RowFor(b, mess, k, rates, recorded, guests, rows[j])
      invariant total == AmountTotal(rows)
    {
      assert MEALS[..i + 1][..i] == MEALS[..i];
      var meal := MEALS[i];
      if meal in rates {
        var plates, estimated := ServedPlates(b, mess, k, recorded, guests, meal, perDay);
        ghost var before := rows;
        rows := rows + [Row(meal, plates, rates[meal], rates[meal] * plates, estimated)];
        assert rows[..|rows| - 1] == before;
        total := total + rates[meal] * plates;
      }
    }
    assert MEALS[..|MEALS|] == MEALS;
  }

  method ServedPlates(b: Book, mess: nat, k: int, recorded: Counts, guests: Counts, meal: Meal, perDay: seq<nat>)
    returns (plates: int, estimated: nat)
    requires |perDay| == LengthOf(k)
    requires forall j :: 0 <= j < |perDay| ==> perDay[j] == Expected(b, mess, FirstDay(k), LastDay(k), FirstDay(k) + j, |b.members|)
    ensures plates == Plates(b, mess, k, recorded, guests, meal, LengthOf(k))
    ensures estimated == Unrecorded(k, recorded, meal, LengthOf(k))
  {
    plates, estimated := 0, 0;
    for i := 0 to LengthOf(k)
      invariant plates == Plates(b, mess, k, recorded, guests, meal, i)
      invariant estimated == Unrecorded(k, recorded, meal, i)
    {
      var d := FirstDay(k) + i;
      if (d, meal) in recorded {
        plates := plates + recorded[(d, meal)];
      } else {
        plates, estimated := plates + perDay[i] + At(guests, d, meal), estimated + 1;
      }
    }
  }

  lemma {:induction false} PlatesAreExpected(b: Book, mess: nat, k: int, recorded: Counts, guests: Counts, meal: Meal, n: nat)
    requires forall d :: (d, meal) !in recorded && At(guests, d, meal) == 0
    ensures Plates(b, mess, k, recorded, guests, meal, n) == ExpectedOver(b, mess, FirstDay(k), LastDay(k), n)
  {
    if n > 0 {
      PlatesAreExpected(b, mess, k, recorded, guests, meal, n - 1);
    }
  }

  /**
   With no counts recorded and no guests, the plates billed for a meal are the days the
   members of the mess are billed for.
   */
  lemma BilledPlatesAreEatenDays(b: Book, mess: nat, k: int, recorded: Counts, guests: Counts, meal: Meal)
    requires forall d :: (d, meal) !in recorded && At(guests, d, meal) == 0
    ensures Plates(b, mess, k, recorded, guests, meal, LengthOf(k)) == EatenBy(b, mess, FirstDay(k), LastDay(k), |b.members|)
  {
    PlatesAreExpected(b, mess, k, recorded, guests, meal, LengthOf(k));
    ContractorServesWhatMembersEat(b, mess, k);
  }

  // ------------------------------------------------------------------ plates, written out

  /** A day's plates of a meal: as recorded, else the members who eat that day and the guests. */
  function PlatesOn(b: Book, mess: nat, d: int, recorded: Counts, guests: Counts, meal: Meal): int {
    if (d, meal) in recorded then recorded[(d, meal)]
    else |EatersBelow(b, mess, d, |b.members|)| + (if (d, meal) in guests then guests[(d, meal)] else 0)
  }

  function PlatesByDay(b: Book, mess: nat, first: int, recorded: Counts, guests: Counts, meal: Meal, n: nat): seq<int> {
    seq(n, i requires 0 <= i => PlatesOn(b, mess, first + i, recorded, guests, meal))
  }

  lemma DayPlates(b: Book, mess: nat, k: int, recorded: Counts, guests: Counts, meal: Meal, n: nat)
    requires 0 < n <= LengthOf(k)
    ensures Plates(b, mess, k, recorded, guests, meal, n)
            == Plates(b, mess, k, recorded, guests, meal, n - 1) + PlatesOn(b, mess, FirstDay(k) + n - 1, recorded, guests, meal)
  {
    hide FirstDay, LengthOf, Expected, EatersBelow;
    ExpectedCountsEaters(b, mess, FirstDay(k), LastDay(k), FirstDay(k) + n - 1, |b.members|);
  }

  /** A meal's plates are those of the days of the month, each once. */
  lemma {:induction false} PlatesAddUp(b: Book, mess: nat, k: int, recorded: Counts, guests: Counts, meal: Meal, n: nat)
    requires n <= LengthOf(k)
    ensures Plates(b, mess, k, recorded, guests, meal, n) == Sum(PlatesByDay(b, mess, FirstDay(k), recorded, guests, meal, n))
  {
    hide FirstDay, LengthOf, Expected, PlatesOn;
    var xs := PlatesByDay(b, mess, FirstDay(k), recorded, guests, meal, n);
    if n > 0 {
      PlatesAddUp(b, mess, k, recorded, guests, meal, n - 1);
      assert xs[..n - 1] == PlatesByDay(b, mess, FirstDay(k), recorded, guests, meal, n - 1);
      DayPlates(b, mess, k, recorded, guests, meal, n);
    }
  }

  /** Of n days from the first, those without a record of the meal. */
  function OpenDays(first: int, recorded: Counts, meal: Meal, n: nat): set<int> {
    set d | d in Span(first, first + n - 1) && (d, meal) !in recorded
  }

  /** The days counted as estimated are those without a record. */
  lemma {:induction false} EstimatedCounted(k: int, recorded: Counts, meal: Meal, n: nat)
    ensures Unrecorded(k, recorded, meal, n) == |OpenDays(FirstDay(k), recorded, meal, n)|
  {
    hide FirstDay;
    if n > 0 {
      EstimatedCounted(k, recorded, meal, n - 1);
      OneDayMore(FirstDay(k), recorded, meal, n);
      hide OpenDays;
    }
  }

  lemma OneDayMore(first: int, recorded: Counts, meal: Meal, n: nat)
    requires n > 0
    ensures |OpenDays(first, recorded, meal, n)|
            == |OpenDays(first, recorded, meal, n - 1)| + (if (first + n - 1, meal) in recorded then 0 else 1)
  {
    var days, before := OpenDays(first, recorded, meal, n), OpenDays(first, recorded, meal, n - 1);
    if (first + n - 1, meal) in recorded {
      assert days == before;
    } else {
      assert days == before + {first + n - 1};
    }
    hide Span;
  }

  lemma {:induction false} AmountsAddUp(rows: seq<Row>)
    ensures AmountTotal(rows) == Sum(seq(|rows|, i requires 0 <= i < |rows| => rows[i].amount))
  {
    if rows != [] {
      var n := |rows| - 1;
      var front := rows[..n];
      AmountsAddUp(front);
      assert seq(|rows|, i requires 0 <= i < |rows| => rows[i].amount)[..n] == seq(|front|, i requires 0 <= i < |front| => front[i].amount);
    }
  }
}
