/** Calendar dates and month arithmetic (apps/hostel/dates.py). */
module Dates {
  /*
   The calendar is the proleptic Gregorian one. A day is also counted by its ordinal (date.toordinal),
   a month by its index 12 * year + month - 1.
   */
  import opened Wrappers

  datatype Date = Date(year: int, month: int, day: int)

  predicate Leap(y: int) {
    y % 4 == 0 && (y % 100 != 0 || y % 400 == 0)
  }

  /** calendar.monthrange(y, m)[1] */
  function MonthLength(y: int, m: int): (n: int)
    ensures 28 <= n <= 31
  {
    if m == 2 then (if Leap(y) then 29 else 28)
    else if m in [4, 6, 9, 11] then 30
    else 31
  }

  predicate Valid(d: Date) {
    1 <= d.month <= 12 && 1 <= d.day <= MonthLength(d.year, d.month)
  }

  /** date <= date: by year, then month, then day. */
  predicate AtMost(a: Date, b: Date) {
    a.year < b.year
    || (a.year == b.year && (a.month < b.month || (a.month == b.month && a.day <= b.day)))
  }

  function MonthStart(d: Date): Date {
    d.(day := 1)
  }

  function MonthEnd(d: Date): Date {
    d.(day := MonthLength(d.year, d.month))
  }

  function AddMonths(d: Date, n: int): Date {
    var m := d.month - 1 + n;
    var y, month := d.year + m / 12, m % 12 + 1;
    Date(y, month, if d.day <= MonthLength(y, month) then d.day else MonthLength(y, month))
  }

  /** The days both intervals contain; an open end reaches as far as the other interval. */
  function Overlap(aStart: int, aEnd: Option<int>, bStart: int, bEnd: int): Option<(int, int)> {
    var s := if aStart >= bStart then aStart else bStart;
    var e := if aEnd.Some? && aEnd.value <= bEnd then aEnd.value else bEnd;
    if s <= e then Some((s, e)) else None
  }

  predicate Within(day: int, start: int, end: Option<int>) {
    start <= day && (end.Some? ==> day <= end.value)
  }

  lemma OverlapIsIntersection(aStart: int, aEnd: Option<int>, bStart: int, bEnd: int, day: int)
    ensures var o := Overlap(aStart, aEnd, bStart, bEnd);
            Within(day, aStart, aEnd) && bStart <= day <= bEnd <==> o.Some? && o.value.0 <= day <= o.value.1
  {
  }

  // ------------------------------------------------------------------ ordinals

  function Index(d: Date): int {
    12 * d.year + d.month - 1
  }

  function FirstOf(k: int): Date {
    Date(k / 12, k % 12 + 1, 1)
  }

  function LengthOf(k: int): int {
    MonthLength(k / 12, k % 12 + 1)
  }

  /** Days before 1 January of year y. */
  function DaysBeforeYear(y: int): int {
    365 * (y - 1) + (y - 1) / 4 - (y - 1) / 100 + (y - 1) / 400
  }

  /** Days of year y before its month m. */
  function DaysBeforeMonth(y: int, m: int): int {
    if m <= 1 then 0 else DaysBeforeMonth(y, m - 1) + MonthLength(y, m - 1)
  }

  /** The ordinal of the first day of month k. */
  function FirstDay(k: int): int {
    DaysBeforeYear(k / 12) + DaysBeforeMonth(k / 12, k % 12 + 1) + 1
  }

  function LastDay(k: int): int {
    FirstDay(k) + LengthOf(k) - 1
  }

  function Ord(d: Date): int {
    FirstDay(Index(d)) + d.day - 1
  }

  lemma IndexParts(d: Date)
    requires 1 <= d.month <= 12
    ensures Index(d) / 12 == d.year && Index(d) % 12 + 1 == d.month && FirstOf(Index(d)) == MonthStart(d)
  {
  }

  lemma Steps(y: int)
    ensures y / 4 - (y - 1) / 4 == if y % 4 == 0 then 1 else 0
    ensures y / 100 - (y - 1) / 100 == if y % 100 == 0 then 1 else 0
    ensures y / 400 - (y - 1) / 400 == if y % 400 == 0 then 1 else 0
  {
  }

  lemma YearDays(y: int)
    ensures DaysBeforeYear(y + 1) == DaysBeforeYear(y) + (if Leap(y) then 366 else 365)
  {
    Steps(y);
    LeapSteps(y);
  }

  lemma LeapSteps(y: int)
    ensures (if y % 4 == 0 then 1 else 0) - (if y % 100 == 0 then 1 else 0) + (if y % 400 == 0 then 1 else 0)
            == if Leap(y) then 1 else 0
  {
    if y % 400 == 0 {
      assert y == 100 * (4 * (y / 400));
    }
    if y % 100 == 0 {
      assert y == 4 * (25 * (y / 100));
    }
  }

  lemma ElevenMonths(y: int)
    ensures DaysBeforeMonth(y, 12) == if Leap(y) then 335 else 334
  {
    hide Leap;
    assert DaysBeforeMonth(y, 2) == 31;
    assert DaysBeforeMonth(y, 4) == 31 + MonthLength(y, 2) + 31;
    assert DaysBeforeMonth(y, 6) == DaysBeforeMonth(y, 4) + 61;
    assert DaysBeforeMonth(y, 8) == DaysBeforeMonth(y, 6) + 61;
    assert DaysBeforeMonth(y, 10) == DaysBeforeMonth(y, 8) + 61;
  }

  /** Months follow one another without a gap: the day after month k's last is month k + 1's first. */
  lemma NextMonthFollows(k: int)
    ensures FirstDay(k + 1) == LastDay(k) + 1 && FirstDay(k + 1) >= FirstDay(k) + 28
  {
    if k % 12 == 11 {
      YearDays(k / 12);
      ElevenMonths(k / 12);
      assert (k + 1) / 12 == k / 12 + 1 && (k + 1) % 12 == 0;
    } else {
      assert (k + 1) / 12 == k / 12 && (k + 1) % 12 == k % 12 + 1;
    }
  }

  lemma {:induction false} FirstDayMonotone(a: int, b: int)
    requires a <= b
    ensures FirstDay(b) >= FirstDay(a) + 28 * (b - a)
    decreases b - a
  {
    if a < b {
      FirstDayMonotone(a, b - 1);
      NextMonthFollows(b - 1);
    }
  }

  /** Every day lies in exactly one month. */
  lemma OneMonth(j: int, k: int, n: int)
    requires FirstDay(j) <= n <= LastDay(j) && FirstDay(k) <= n <= LastDay(k)
    ensures j == k
  {
    hide FirstDay, LengthOf;
    NextMonthFollows(j);
    NextMonthFollows(k);
    if j < k {
      FirstDayMonotone(j + 1, k);
    } else if k < j {
      FirstDayMonotone(k + 1, j);
    }
  }

  function SeekMonth(n: int, k: int): int
    decreases if n < FirstDay(k) then 1 else 0, if n < FirstDay(k) then FirstDay(k) - n else n - FirstDay(k)
  {
    NextMonthFollows(k);
    NextMonthFollows(k - 1);
    if n < FirstDay(k) then SeekMonth(n, k - 1)
    else if n > LastDay(k) then SeekMonth(n, k + 1)
    else k
  }

  /** The index of the month a day falls in. */
  function MonthOf(n: int): int {
    SeekMonth(n, n / 31)
  }

  lemma {:induction false} SeekFinds(n: int, k: int)
    ensures FirstDay(SeekMonth(n, k)) <= n <= LastDay(SeekMonth(n, k))
    decreases if n < FirstDay(k) then 1 else 0, if n < FirstDay(k) then FirstDay(k) - n else n - FirstDay(k)
  {
    hide FirstDay, LengthOf;
    NextMonthFollows(k);
    NextMonthFollows(k - 1);
    if n < FirstDay(k) {
      SeekFinds(n, k - 1);
    } else if n > LastDay(k) {
      SeekFinds(n, k + 1);
    }
  }

  lemma InItsMonth(n: int)
    ensures FirstDay(MonthOf(n)) <= n <= LastDay(MonthOf(n))
  {
    SeekFinds(n, n / 31);
  }

  /** date.fromordinal */
  function OfOrd(n: int): Date {
    var k := MonthOf(n);
    Date(k / 12, k % 12 + 1, n - FirstDay(k) + 1)
  }

  lemma DayInMonth(d: Date)
    requires Valid(d)
    ensures FirstDay(Index(d)) <= Ord(d) <= LastDay(Index(d)) && MonthOf(Ord(d)) == Index(d)
  {
    IndexParts(d);
    InItsMonth(Ord(d));
    OneMonth(Index(d), MonthOf(Ord(d)), Ord(d));
  }

  lemma PartsOfMonth(k: int, day: int)
    requires 1 <= day <= LengthOf(k)
    ensures Index(Date(k / 12, k % 12 + 1, day)) == k && Valid(Date(k / 12, k % 12 + 1, day))
  {
    hide MonthLength;
  }

  lemma OrdinalHasDate(n: int)
    ensures Valid(OfOrd(n)) && Ord(OfOrd(n)) == n
  {
    hide FirstDay, MonthOf, LengthOf, Index, Valid;
    InItsMonth(n);
    PartsOfMonth(MonthOf(n), n - FirstDay(MonthOf(n)) + 1);
  }

  lemma DateHasOrdinal(d: Date)
    requires Valid(d)
    ensures OfOrd(Ord(d)) == d
  {
    hide FirstDay, MonthOf, LengthOf;
    DayInMonth(d);
    IndexParts(d);
    hide Index;
  }

  /** Dates and ordinals are two names of one day. */
  lemma OrdinalRoundTrip(d: Date, n: int)
    ensures Valid(OfOrd(n)) && Ord(OfOrd(n)) == n
    ensures Valid(d) ==> OfOrd(Ord(d)) == d
  {
    OrdinalHasDate(n);
    if Valid(d) {
      DateHasOrdinal(d);
    }
    hide OfOrd, Ord, Valid;
  }

  /** Day numbers start on 1 January of year 1; 1 January 1970 is 719163 and 1 January 2024 is 738886. */
  lemma KnownDays()
    ensures Ord(Date(1, 1, 1)) == 1 && Ord(Date(1970, 1, 1)) == 719163 && Ord(Date(2024, 1, 1)) == 738886
  {
    NewYear(1);
    NewYear(1970);
    NewYear(2024);
    hide Ord;
  }

  lemma NewYear(y: int)
    ensures Ord(Date(y, 1, 1)) == DaysBeforeYear(y) + 1
  {
    IndexParts(Date(y, 1, 1));
    assert DaysBeforeMonth(y, 1) == 0;
    hide Index, DaysBeforeMonth, DaysBeforeYear;
  }

  /** The lengths of the months, with 29 February every fourth year but for three centuries in four. */
  lemma LengthsOfMonths(y: int)
    ensures MonthLength(y, 1) == MonthLength(y, 3) == MonthLength(y, 5) == MonthLength(y, 7) == MonthLength(y, 8)
            == MonthLength(y, 10) == MonthLength(y, 12) == 31
    ensures MonthLength(y, 4) == MonthLength(y, 6) == MonthLength(y, 9) == MonthLength(y, 11) == 30
    ensures MonthLength(y, 2)
            == if y % 400 == 0 then 29 else if y % 100 == 0 then 28 else if y % 4 == 0 then 29 else 28
  {
    if y % 400 == 0 {
      assert y == 4 * (100 * (y / 400));
    }
  }

  /** A later month holds only later days. */
  lemma MonthOrder(m: int, n: int)
    ensures m <= n ==> MonthOf(m) <= MonthOf(n)
    ensures MonthOf(m) < MonthOf(n) ==> m < n
  {
    hide FirstDay, LengthOf, MonthOf;
    InItsMonth(m);
    InItsMonth(n);
    if MonthOf(n) < MonthOf(m) {
      NextMonthFollows(MonthOf(n));
      FirstDayMonotone(MonthOf(n) + 1, MonthOf(m));
    } else if MonthOf(m) < MonthOf(n) {
      NextMonthFollows(MonthOf(m));
      FirstDayMonotone(MonthOf(m) + 1, MonthOf(n));
    }
  }

  /** Ordinals keep the order of dates. */
  lemma OrdinalOrder(a: Date, b: Date)
    requires Valid(a) && Valid(b)
    ensures AtMost(a, b) <==> Ord(a) <= Ord(b)
  {
    hide FirstDay, LengthOf, MonthOf;
    DayInMonth(a);
    DayInMonth(b);
    MonthOrder(Ord(a), Ord(b));
    MonthOrder(Ord(b), Ord(a));
  }

  /** add_months moves the month by exactly n, for every year and month, and keeps the day when it fits. */
  lemma AddMonthsMoves(d: Date, n: int)
    requires Valid(d)
    ensures Valid(AddMonths(d, n)) && Index(AddMonths(d, n)) == Index(d) + n
    ensures AddMonths(d, n).day == if d.day <= LengthOf(Index(d) + n) then d.day else LengthOf(Index(d) + n)
  {
    var m := d.month - 1 + n;
    IndexParts(AddMonths(d, n));
  }

  /** add_months(month_start(d), 1) is month_end(d) plus one day. */
  lemma NextMonthStart(d: Date)
    requires Valid(d)
    ensures Ord(AddMonths(MonthStart(d), 1)) == Ord(MonthEnd(d)) + 1
    ensures Ord(MonthStart(d)) == FirstDay(Index(d)) && Ord(MonthEnd(d)) == LastDay(Index(d))
  {
    AddMonthsMoves(MonthStart(d), 1);
    NextMonthFollows(Index(d));
    IndexParts(d);
    hide FirstDay;
  }

  // ------------------------------------------------------------------ the generators

  /** months_between: every month from first's to last's, once each and in order. */
  method MonthsBetween(first: Date, last: Date) returns (months: seq<Date>)
    requires Valid(first) && Valid(last)
    ensures |months| == if Index(first) <= Index(last) then Index(last) - Index(first) + 1 else 0
    ensures forall i :: 0 <= i < |months| ==> months[i] == FirstOf(Index(first) + i)
  {
    var m := MonthStart(first);
    months := [];
    IndexParts(first);
    while AtMost(m, last)
      invariant m == FirstOf(Index(first) + |months|) && Index(m) == Index(first) + |months|
      invariant |months| > 0 ==> Index(m) <= Index(last) + 1
      invariant forall i :: 0 <= i < |months| ==> months[i] == FirstOf(Index(first) + i)
      decreases Index(last) - Index(m) + 1
    {
      months := months + [m];
      AddMonthsMoves(m, 1);
      m := AddMonths(m, 1);
      IndexParts(m);
    }
    assert Index(m) > Index(last);
  }

  /** The days from start to end in order. */
  function DayRange(start: int, end: int): (days: seq<int>)
    ensures |days| == if start <= end then end - start + 1 else 0
    ensures forall i :: 0 <= i < |days| ==> days[i] == start + i
  {
    seq(if start <= end then end - start + 1 else 0, i requires 0 <= i => start + i)
  }

  /** days(start, end) */
  method Days(start: int, end: int) returns (days: seq<int>)
    ensures days == DayRange(start, end)
  {
    var d := start;
    days := [];
    while d <= end
      invariant d == start + |days| && (d <= end + 1 || days == [])
      invariant forall i :: 0 <= i < |days| ==> days[i] == start + i
    {
      days := days + [d];
      d := d + 1;
    }
  }
}
