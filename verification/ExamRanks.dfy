/**
 Competition ranking (apps/exam/services.py _competition_rank and the ranking part of exam_results):
 ties share a rank and the next rank skips, in the class and in each section.
 */
module ExamRanks {
  import opened Wrappers

  datatype Item = Item(student: nat, percent: int)

  /** How many items have a strictly greater percentage. */
  function Above(items: seq<Item>, percent: int): nat {
    if items == [] then 0 else (if items[0].percent > percent then 1 else 0) + Above(items[1..], percent)
  }

  lemma {:induction false} AboveJoin(a: seq<Item>, b: seq<Item>, percent: int)
    ensures Above(a + b, percent) == Above(a, percent) + Above(b, percent)
  {
    if a == [] {
      assert a + b == b;
    } else {
      assert (a + b)[1..] == a[1..] + b;
      AboveJoin(a[1..], b, percent);
    }
  }

  lemma TakeOut(items: seq<Item>, i: nat)
    requires i < |items|
    ensures multiset(items[..i] + items[i + 1..]) == multiset(items) - multiset{items[i]}
  {
    assert items == items[..i] + [items[i]] + items[i + 1..];
  }

  lemma AboveTakeOut(items: seq<Item>, i: nat, percent: int)
    requires i < |items|
    ensures Above(items, percent) == Above(items[..i] + items[i + 1..], percent) + (if items[i].percent > percent then 1 else 0)
  {
    var front, back := items[..i], [items[i]] + items[i + 1..];
    assert items == front + back;
    assert back[1..] == items[i + 1..];
    AboveJoin(front, back, percent);
    AboveJoin(front, items[i + 1..], percent);
  }

  /** The count does not depend on the order the students come in. */
  lemma AboveFirst(items: seq<Item>, percent: int)
    requires items != []
    ensures Above(items, percent) == (if items[0].percent > percent then 1 else 0) + Above(items[1..], percent)
  {
  }

  lemma TakeFirst(items: seq<Item>)
    requires items != []
    ensures multiset(items[1..]) == multiset(items) - multiset{items[0]}
  {
    assert items == [items[0]] + items[1..];
  }

  lemma PositionOf(items: seq<Item>, x: Item) returns (i: nat)
    requires x in multiset(items)
    ensures i < |items| && items[i] == x
  {
    assert x in items;
    i :| 0 <= i < |items| && items[i] == x;
  }

  lemma SameRest(a: seq<Item>, b: seq<Item>) returns (i: nat)
    requires multiset(a) == multiset(b) && a != []
    ensures i < |b| && b[i] == a[0] && multiset(a[1..]) == multiset(b[..i] + b[i + 1..])
  {
    i := PositionOf(b, a[0]);
    TakeFirst(a);
    TakeOut(b, i);
  }

  lemma {:induction false} AboveIgnoresOrder(a: seq<Item>, b: seq<Item>, percent: int)
    requires multiset(a) == multiset(b)
    ensures Above(a, percent) == Above(b, percent)
  {
    if a == [] {
      assert |b| == |multiset(b)|;
    } else {
      hide Above;
      var i := SameRest(a, b);
      AboveFirst(a, percent);
      AboveTakeOut(b, i, percent);
      AboveIgnoresOrder(a[1..], b[..i] + b[i + 1..], percent);
    }
  }

  /** When exactly the first n are above, n is the count. */
  lemma {:induction false} AboveCount(items: seq<Item>, n: nat, percent: int)
    requires n <= |items|
    requires forall k :: 0 <= k < |items| ==> (k < n <==> items[k].percent > percent)
    ensures Above(items, percent) == n
  {
    if items != [] {
      AboveCount(items[1..], if n == 0 then 0 else n - 1, percent);
    }
  }

  /** Fewer students are above a higher percentage. */
  lemma {:induction false} AboveFalls(items: seq<Item>, low: int, high: int)
    requires low <= high
    ensures Above(items, high) <= Above(items, low)
    ensures low < high && (exists x :: x in items && x.percent == high) ==> Above(items, high) < Above(items, low)
  {
    if items != [] {
      AboveFalls(items[1..], low, high);
      assert forall x :: x in items <==> x == items[0] || x in items[1..];
    }
  }

  // ------------------------------------------------------------------ ranking a list

  predicate SortedDown(items: seq<Item>) {
    forall i, j :: 0 <= i < j < |items| ==> items[i].percent >= items[j].percent
  }

  lemma InsertedAll(items: seq<Item>, j: nat, x: Item)
    requires j <= |items|
    ensures multiset(items[..j] + [x] + items[j..]) == multiset(items) + multiset{x}
  {
    assert items == items[..j] + items[j..];
  }

  lemma InsertedSorted(items: seq<Item>, j: nat, x: Item)
    requires SortedDown(items) && j <= |items| && (j < |items| ==> items[j].percent < x.percent)
    requires forall i :: 0 <= i < j ==> items[i].percent >= x.percent
    ensures SortedDown(items[..j] + [x] + items[j..])
  {
    var all := items[..j] + [x] + items[j..];
    forall i | 0 <= i < |all| ensures all[i] == if i < j then items[i] else if i == j then x else items[i - 1] {
    }
  }

  /** sorted(items, key=lambda x: -x[1]): descending, equal percentages in their given order. */
  method SortDown(items: seq<Item>) returns (sorted: seq<Item>)
    ensures SortedDown(sorted) && multiset(sorted) == multiset(items)
  {
    hide SortedDown;
    sorted := [];
    NoneSorted();
    for k := 0 to |items|
      invariant SortedDown(sorted) && multiset(sorted) == multiset(items[..k])
    {
      assert items[..k + 1] == items[..k] + [items[k]];
      sorted := InsertDown(sorted, items[k]);
    }
    assert items[..|items|] == items;
  }

  method InsertDown(items: seq<Item>, x: Item) returns (sorted: seq<Item>)
    requires SortedDown(items)
    ensures SortedDown(sorted) && multiset(sorted) == multiset(items) + multiset{x}
  {
    hide SortedDown;
    var j := 0;
    while j < |items| && items[j].percent >= x.percent
      invariant j <= |items| && forall i :: 0 <= i < j ==> items[i].percent >= x.percent
    {
      j := j + 1;
    }
    InsertedSorted(items, j, x);
    InsertedAll(items, j, x);
    sorted := items[..j] + [x] + items[j..];
  }

  lemma NoneSorted()
    ensures SortedDown([])
  {
  }

  /** In descending order, the first with a percentage has exactly the ones before it above it. */
  lemma FirstOfItsPercent(items: seq<Item>, i: nat)
    requires SortedDown(items) && i < |items| && (i > 0 ==> items[i - 1].percent != items[i].percent)
    ensures Above(items, items[i].percent) == i
  {
    hide Above;
    forall k | 0 <= k < |items| ensures k < i <==> items[k].percent > items[i].percent {
      if k < i {
        assert items[k].percent >= items[i - 1].percent >= items[i].percent;
      }
    }
    AboveCount(items, i, items[i].percent);
  }

  predicate Lowest(items: seq<Item>, x: Item) {
    x in items && forall y :: y in items && y.student == x.student ==> x.percent <= y.percent
  }

  predicate Ranked(items: seq<Item>, ranks: map<nat, nat>, x: Item) {
    x.student in ranks && ranks[x.student] == 1 + Above(items, x.percent)
  }

  /** The loop over the sorted items; a student met again gets the later, lower place. */
  method RankSorted(items: seq<Item>) returns (ranks: map<nat, nat>, ghost low: map<nat, int>)
    requires SortedDown(items)
    ensures ranks.Keys == low.Keys
    ensures forall x :: x in items ==> x.student in low && low[x.student] <= x.percent
    ensures forall s :: s in low ==> Item(s, low[s]) in items && Ranked(items, ranks, Item(s, low[s]))
  {
    hide SortedDown, Above;
    ranks, low := map[], map[];
    var prev: Option<int>, rank := None, 0;
    for i := 0 to |items|
      invariant i > 0 ==> prev == Some(items[i - 1].percent) && rank == 1 + Above(items, items[i - 1].percent)
      invariant i == 0 ==> prev == None
      invariant ranks.Keys == low.Keys
      invariant forall j :: 0 <= j < i ==> items[j].student in low && low[items[j].student] <= items[j].percent
      invariant forall s :: s in low ==> Item(s, low[s]) in items && Ranked(items, ranks, Item(s, low[s]))
    {
      if Some(items[i].percent) != prev {
        FirstOfItsPercent(items, i);
        rank, prev := i + 1, Some(items[i].percent);
      }
      LaterIsLower(items, i);
      assert Item(items[i].student, items[i].percent) == items[i];
      ranks := ranks[items[i].student := rank];
      low := low[items[i].student := items[i].percent];
    }
  }

  lemma LaterIsLower(items: seq<Item>, i: nat)
    requires SortedDown(items) && i < |items|
    ensures forall j :: 0 <= j < i ==> items[i].percent <= items[j].percent
  {
  }

  /** Every student's rank is one more than the number of strictly greater percentages. */
  method CompetitionRank(items: seq<Item>) returns (ranks: map<nat, nat>)
    ensures forall s :: s in ranks ==> exists x :: x in items && x.student == s
    ensures forall x :: x in items ==> x.student in ranks
    ensures forall x :: Lowest(items, x) ==> Ranked(items, ranks, x)
  {
    hide Above, SortedDown;
    var sorted := SortDown(items);
    assert forall x :: x in sorted <==> x in multiset(items);
    ghost var low: map<nat, int>;
    ranks, low := RankSorted(sorted);
    assert forall x :: x in items ==> x in sorted;
    forall s | s in ranks ensures exists x :: x in items && x.student == s {
      assert Item(s, low[s]) in items;
    }
    forall x | Lowest(items, x) ensures Ranked(items, ranks, x) {
      assert Item(x.student, low[x.student]) in items;
      AboveIgnoresOrder(sorted, items, x.percent);
    }
  }

  // ------------------------------------------------------------------ class and section

  datatype Entrant = Entrant(student: nat, section: Option<nat>, percent: int)

  function ItemsOf(es: seq<Entrant>): seq<Item> {
    if es == [] then [] else ItemsOf(es[..|es| - 1]) + [Item(es[|es| - 1].student, es[|es| - 1].percent)]
  }

  function ItemsIn(es: seq<Entrant>, section: Option<nat>): seq<Item> {
    if es == [] then []
    else
      var rest, e := ItemsIn(es[..|es| - 1], section), es[|es| - 1];
      if e.section == section then rest + [Item(e.student, e.percent)] else rest
  }

  lemma {:induction false} ItemsOfMembers(es: seq<Entrant>, x: Item)
    ensures x in ItemsOf(es) <==> exists k :: 0 <= k < |es| && Item(es[k].student, es[k].percent) == x
  {
    if es != [] {
      ItemsOfMembers(es[..|es| - 1], x);
      assert es == es[..|es| - 1] + [es[|es| - 1]];
    }
  }

  lemma {:induction false} ItemsInMembers(es: seq<Entrant>, section: Option<nat>, x: Item)
    ensures x in ItemsIn(es, section)
            <==> exists k :: 0 <= k < |es| && es[k].section == section && Item(es[k].student, es[k].percent) == x
  {
    if es != [] {
      ItemsInMembers(es[..|es| - 1], section, x);
      assert es == es[..|es| - 1] + [es[|es| - 1]];
    }
  }

  /** A student has one percentage, however often enrolled. */
  predicate OnePercentEach(es: seq<Entrant>) {
    forall j, k :: 0 <= j < |es| && 0 <= k < |es| && es[j].student == es[k].student ==> es[j].percent == es[k].percent
  }

  /** A rank within one of the student's own sections. */
  ghost predicate SectionRank(es: seq<Entrant>, student: nat, rank: nat) {
    exists k :: 0 <= k < |es| && es[k].student == student && rank == 1 + Above(ItemsIn(es, es[k].section), es[k].percent)
  }

  lemma OneMoreIn(es: seq<Entrant>, k: nat, section: Option<nat>)
    requires k < |es|
    ensures ItemsIn(es[..k + 1], section)
            == ItemsIn(es[..k], section) + (if es[k].section == section then [Item(es[k].student, es[k].percent)] else [])
  {
    assert es[..k + 1][..k] == es[..k] && es[..k + 1][k] == es[k];
  }

  lemma NoneIn(section: Option<nat>)
    ensures ItemsIn([], section) == []
  {
  }

  /** by_section: the students of each section, in the order the sections are met. */
  method GroupBySection(es: seq<Entrant>) returns (groups: map<Option<nat>, seq<Item>>, order: seq<Option<nat>>)
    ensures forall s :: s in order <==> s in groups
    ensures forall s :: s in groups ==> groups[s] == ItemsIn(es, s)
    ensures forall k :: 0 <= k < |es| ==> es[k].section in order
  {
    hide ItemsIn;
    groups, order := map[], [];
    forall s ensures ItemsIn(es[..0], s) == [] {
      NoneIn(s);
    }
    for k := 0 to |es|
      invariant forall s :: s in order <==> s in groups
      invariant forall j :: 0 <= j < k ==> es[j].section in groups
      invariant forall s :: ItemsIn(es[..k], s) == if s in groups then groups[s] else []
    {
      var s := es[k].section;
      forall t ensures ItemsIn(es[..k + 1], t) == ItemsIn(es[..k], t) + (if s == t then [Item(es[k].student, es[k].percent)] else []) {
        OneMoreIn(es, k, t);
      }
      if s !in groups {
        order := order + [s];
        groups := groups[s := []];
      }
      groups := groups[s := groups[s] + [Item(es[k].student, es[k].percent)]];
    }
    assert es[..|es|] == es;
  }

  method Ranks(es: seq<Entrant>) returns (classRank: map<nat, nat>, sectionRank: map<nat, nat>)
    requires OnePercentEach(es)
    ensures forall k :: 0 <= k < |es| ==> Ranked(ItemsOf(es), classRank, Item(es[k].student, es[k].percent))
    ensures forall k :: 0 <= k < |es| ==> es[k].student in sectionRank && SectionRank(es, es[k].student, sectionRank[es[k].student])
  {
    classRank := CompetitionRank(ItemsOf(es));
    forall k | 0 <= k < |es| ensures Ranked(ItemsOf(es), classRank, Item(es[k].student, es[k].percent)) {
      LowestInClass(es, k);
    }
    sectionRank := SectionRanks(es);
  }

  method SectionRanks(es: seq<Entrant>) returns (sectionRank: map<nat, nat>)
    requires OnePercentEach(es)
    ensures forall k :: 0 <= k < |es| ==> es[k].student in sectionRank
    ensures forall s :: s in sectionRank ==> SectionRank(es, s, sectionRank[s])
  {
    hide OnePercentEach, SectionRank, Above, ItemsIn, Lowest, Ranked;
    var groups, order := GroupBySection(es);
    sectionRank := map[];
    for t := 0 to |order|
      invariant forall k :: 0 <= k < |es| && es[k].section in order[..t] ==> es[k].student in sectionRank
      invariant forall s :: s in sectionRank ==> SectionRank(es, s, sectionRank[s])
    {
      assert order[t] in groups;
      var ranks := CompetitionRank(groups[order[t]]);
      SectionRanked(es, order[t], ranks);
      assert order[..t + 1] == order[..t] + [order[t]];
      sectionRank := sectionRank + ranks;
    }
    assert order[..|order|] == order;
  }

  lemma SectionRanked(es: seq<Entrant>, section: Option<nat>, ranks: map<nat, nat>)
    requires OnePercentEach(es)
    requires forall s :: s in ranks ==> exists x :: x in ItemsIn(es, section) && x.student == s
    requires forall x :: x in ItemsIn(es, section) ==> x.student in ranks
    requires forall x :: Lowest(ItemsIn(es, section), x) ==> Ranked(ItemsIn(es, section), ranks, x)
    ensures forall s :: s in ranks ==> SectionRank(es, s, ranks[s])
    ensures forall k :: 0 <= k < |es| && es[k].section == section ==> es[k].student in ranks
  {
    forall s | s in ranks ensures SectionRank(es, s, ranks[s]) {
      RankedInSection(es, section, s, ranks);
    }
    forall k | 0 <= k < |es| && es[k].section == section ensures es[k].student in ranks {
      ItemsInMembers(es, section, Item(es[k].student, es[k].percent));
    }
  }

  lemma LowestInClass(es: seq<Entrant>, k: nat)
    requires OnePercentEach(es) && k < |es|
    ensures Lowest(ItemsOf(es), Item(es[k].student, es[k].percent))
  {
    var x := Item(es[k].student, es[k].percent);
    ItemsOfMembers(es, x);
    forall y | y in ItemsOf(es) && y.student == x.student ensures x.percent <= y.percent {
      ItemsOfMembers(es, y);
    }
  }

  lemma RankedInSection(es: seq<Entrant>, section: Option<nat>, student: nat, ranks: map<nat, nat>)
    requires OnePercentEach(es) && student in ranks
    requires exists x :: x in ItemsIn(es, section) && x.student == student
    requires forall x :: Lowest(ItemsIn(es, section), x) ==> Ranked(ItemsIn(es, section), ranks, x)
    ensures SectionRank(es, student, ranks[student])
  {
    var x :| x in ItemsIn(es, section) && x.student == student;
    ItemsInMembers(es, section, x);
    forall y | y in ItemsIn(es, section) && y.student == x.student ensures x.percent <= y.percent {
      ItemsInMembers(es, section, y);
    }
    assert Lowest(ItemsIn(es, section), x);
  }

  lemma {:induction false} SectionAboveAtMostClassAbove(es: seq<Entrant>, section: Option<nat>, percent: int)
    ensures Above(ItemsIn(es, section), percent) <= Above(ItemsOf(es), percent)
  {
    if es != [] {
      var rest, e := es[..|es| - 1], es[|es| - 1];
      SectionAboveAtMostClassAbove(rest, section, percent);
      AboveJoin(ItemsIn(rest, section), [Item(e.student, e.percent)], percent);
      AboveJoin(ItemsOf(rest), [Item(e.student, e.percent)], percent);
    }
  }

  /** A rank in one's section never exceeds the rank in the class. */
  lemma SectionRankAtMostClassRank(es: seq<Entrant>, k: nat, rank: nat)
    requires OnePercentEach(es) && k < |es| && SectionRank(es, es[k].student, rank)
    ensures rank <= 1 + Above(ItemsOf(es), es[k].percent)
  {
    var j :| 0 <= j < |es| && es[j].student == es[k].student && rank == 1 + Above(ItemsIn(es, es[j].section), es[j].percent);
    SectionAboveAtMostClassAbove(es, es[j].section, es[j].percent);
  }

  /** Within a section, both rankings put students in the same order, that of their percentages. */
  lemma RankingsAgreeWithinSection(es: seq<Entrant>, j: nat, k: nat)
    requires j < |es| && k < |es| && es[j].section == es[k].section
    ensures es[j].percent > es[k].percent <==> Above(ItemsOf(es), es[j].percent) < Above(ItemsOf(es), es[k].percent)
    ensures es[j].percent > es[k].percent
            <==> Above(ItemsIn(es, es[j].section), es[j].percent) < Above(ItemsIn(es, es[j].section), es[k].percent)
  {
    RankOrder(ItemsOf(es), es[j].percent, es[k].percent) by {
      ItemsOfMembers(es, Item(es[j].student, es[j].percent));
    }
    RankOrder(ItemsIn(es, es[j].section), es[j].percent, es[k].percent) by {
      ItemsInMembers(es, es[j].section, Item(es[j].student, es[j].percent));
    }
  }

  lemma RankOrder(items: seq<Item>, p: int, q: int)
    requires exists x :: x in items && x.percent == p
    ensures p > q <==> Above(items, p) < Above(items, q)
  {
    if p > q {
      AboveFalls(items, q, p);
    } else {
      AboveFalls(items, p, q);
    }
  }
}
