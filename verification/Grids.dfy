/**
 The teacher and room grids (apps/timetable/services.py _by_time, apps/timetable/pdf.py _rows):
 rows are time bands, columns are weekdays, and every period is found in exactly one cell.
 */
module Grids {
  import opened Wrappers
  import opened Text
  import Model = TimetableModel
  import Safety = TimetableSafety

  datatype Period = Period(day: int, start: int, end: int, name: string)
  datatype Band = Band(start: int, end: int, name: string)
  datatype Cell = Cell(day: int, band: nat, period: nat)

  // ------------------------------------------------------------------ bands in order

  /** Tuples compare by start, then end, then label. */
  predicate BandBefore(a: Band, b: Band) {
    a.start < b.start
    || (a.start == b.start && (a.end < b.end || (a.end == b.end && Before(a.name, b.name))))
  }

  lemma BandTotal(a: Band, b: Band)
    ensures a == b || BandBefore(a, b) || BandBefore(b, a)
    ensures !BandBefore(a, a) && !(BandBefore(a, b) && BandBefore(b, a))
  {
    BeforeTotal(a.name, b.name);
    BeforeTotal(a.name, a.name);
  }

  lemma BandTransitive(a: Band, b: Band, c: Band)
    requires BandBefore(a, b) && BandBefore(b, c)
    ensures BandBefore(a, c)
  {
    hide Before;
    if Before(a.name, b.name) && Before(b.name, c.name) {
      BeforeTransitive(a.name, b.name, c.name);
    }
  }

  predicate BandsSorted(bs: seq<Band>) {
    forall i, j :: 0 <= i < j < |bs| ==> BandBefore(bs[i], bs[j])
  }

  function BandPosition(bs: seq<Band>, b: Band): (i: nat)
    ensures i <= |bs| && (forall j :: 0 <= j < i ==> BandBefore(bs[j], b)) && (i < |bs| ==> !BandBefore(bs[i], b))
  {
    if bs == [] || !BandBefore(bs[0], b) then 0 else 1 + BandPosition(bs[1..], b)
  }

  /** Adding a band to a sorted set of bands. */
  function AddBand(bs: seq<Band>, b: Band): seq<Band> {
    var i := BandPosition(bs, b);
    if i < |bs| && bs[i] == b then bs else bs[..i] + [b] + bs[i..]
  }

  lemma AddBandMembers(bs: seq<Band>, b: Band)
    ensures forall x :: x in AddBand(bs, b) <==> x in bs || x == b
  {
    hide BandBefore;
    assert bs == bs[..BandPosition(bs, b)] + bs[BandPosition(bs, b)..];
  }

  lemma AddBandSorted(bs: seq<Band>, b: Band)
    requires BandsSorted(bs)
    ensures BandsSorted(AddBand(bs, b))
  {
    hide BandBefore;
    var i := BandPosition(bs, b);
    if i < |bs| && bs[i] != b {
      BandTotal(bs[i], b);
      forall j | i <= j < |bs| ensures BandBefore(b, bs[j]) {
        if i < j {
          BandTransitive(b, bs[i], bs[j]);
        }
      }
    }
  }

  function BandOf(p: Period): Band {
    Band(p.start, p.end, p.name)
  }

  /** sorted({(start, end, label), ...} | extra) */
  method SortBands(periods: seq<Period>, extra: seq<Band>) returns (bands: seq<Band>)
    ensures BandsSorted(bands)
    ensures forall i, j :: 0 <= i < j < |bands| ==>
              bands[i].start <= bands[j].start && (bands[i].start == bands[j].start ==> bands[i].end <= bands[j].end)
              && (bands[i].start == bands[j].start && bands[i].end == bands[j].end ==> Before(bands[i].name, bands[j].name))
    ensures forall b :: b in bands <==> b in extra || exists k :: 0 <= k < |periods| && BandOf(periods[k]) == b
  {
    hide BandsSorted, AddBand;
    bands := [];
    EmptySorted();
    for k := 0 to |extra|
      invariant BandsSorted(bands) && forall b :: b in bands <==> b in extra[..k]
    {
      assert extra[..k + 1] == extra[..k] + [extra[k]];
      AddBandSorted(bands, extra[k]);
      AddBandMembers(bands, extra[k]);
      bands := AddBand(bands, extra[k]);
    }
    assert extra[..|extra|] == extra;
    for k := 0 to |periods|
      invariant BandsSorted(bands)
      invariant forall b :: b in bands <==> b in extra || exists i :: 0 <= i < k && BandOf(periods[i]) == b
    {
      AddBandSorted(bands, BandOf(periods[k]));
      AddBandMembers(bands, BandOf(periods[k]));
      bands := AddBand(bands, BandOf(periods[k]));
    }
    InTupleOrder(bands);
  }

  lemma InTupleOrder(bands: seq<Band>)
    requires BandsSorted(bands)
    ensures forall i, j :: 0 <= i < j < |bands| ==>
              bands[i].start <= bands[j].start && (bands[i].start == bands[j].start ==> bands[i].end <= bands[j].end)
              && (bands[i].start == bands[j].start && bands[i].end == bands[j].end ==> Before(bands[i].name, bands[j].name))
  {
    hide Before;
  }

  lemma EmptySorted()
    ensures BandsSorted([])
  {
  }

  // ------------------------------------------------------------------ days in order

  predicate DaysSorted(ds: seq<int>) {
    forall i, j :: 0 <= i < j < |ds| ==> ds[i] < ds[j]
  }

  function AddDay(ds: seq<int>, d: int): seq<int> {
    if ds == [] || d < ds[0] then [d] + ds
    else if d == ds[0] then ds
    else [ds[0]] + AddDay(ds[1..], d)
  }

  lemma {:induction false} AddDaySorted(ds: seq<int>, d: int)
    requires DaysSorted(ds)
    ensures DaysSorted(AddDay(ds, d)) && forall x :: x in AddDay(ds, d) <==> x in ds || x == d
  {
    if ds != [] && ds[0] < d {
      assert ds == [ds[0]] + ds[1..];
      AddDaySorted(ds[1..], d);
      var rest := AddDay(ds[1..], d);
      forall i | 0 <= i < |rest| ensures ds[0] < rest[i] {
        assert rest[i] in rest;
      }
    }
  }

  method SortDays(periods: seq<Period>) returns (days: seq<int>)
    ensures DaysSorted(days)
    ensures periods != [] ==> forall d :: d in days <==> exists k :: 0 <= k < |periods| && periods[k].day == d
    ensures periods == [] ==> days == [0, 1, 2, 3, 4, 5]
  {
    days := [];
    for k := 0 to |periods|
      invariant DaysSorted(days) && (k == 0 <==> days == [])
      invariant forall d :: d in days <==> exists i :: 0 <= i < k && periods[i].day == d
    {
      AddDaySorted(days, periods[k].day);
      assert periods[k].day in AddDay(days, periods[k].day);
      days := AddDay(days, periods[k].day);
    }
    if days == [] {
      days := [0, 1, 2, 3, 4, 5];
    }
  }

  // ------------------------------------------------------------------ the grid

  /** The band a pair of times is filed under: the last with those times, as a dict keeps it. */
  predicate LastBand(bands: seq<Band>, start: int, end: int, i: nat) {
    i < |bands| && bands[i].start == start && bands[i].end == end
    && forall j :: i < j < |bands| ==> !(bands[j].start == start && bands[j].end == end)
  }

  method IndexBands(bands: seq<Band>) returns (index: map<(int, int), nat>)
    ensures forall t :: t in index ==> LastBand(bands, t.0, t.1, index[t])
    ensures forall b :: b in bands ==> (b.start, b.end) in index
  {
    index := map[];
    for i := 0 to |bands|
      invariant forall t :: t in index ==> LastBand(bands[..i], t.0, t.1, index[t])
      invariant forall b :: b in bands[..i] ==> (b.start, b.end) in index
    {
      assert bands[..i + 1] == bands[..i] + [bands[i]];
      index := index[(bands[i].start, bands[i].end) := i];
    }
    assert bands[..|bands|] == bands;
  }

  /** Each period's cell: its day, and the band of its times whatever its label. */
  method FileCells(periods: seq<Period>, bands: seq<Band>, index: map<(int, int), nat>) returns (cells: seq<Cell>)
    requires forall t :: t in index ==> LastBand(bands, t.0, t.1, index[t])
    requires forall k :: 0 <= k < |periods| ==> (periods[k].start, periods[k].end) in index
    ensures |cells| == |periods|
    ensures forall k :: 0 <= k < |periods| ==>
              cells[k].day == periods[k].day && cells[k].period == k && LastBand(bands, periods[k].start, periods[k].end, cells[k].band)
  {
    cells := [];
    for k := 0 to |periods|
      invariant |cells| == k
      invariant forall i :: 0 <= i < k ==>
                  cells[i].day == periods[i].day && cells[i].period == i && LastBand(bands, periods[i].start, periods[i].end, cells[i].band)
    {
      cells := cells + [Cell(periods[k].day, index[(periods[k].start, periods[k].end)], k)];
    }
  }

  /** The cells dict of _rows: a later cell for the same band and day would replace an earlier one. */
  method GatherCells(cells: seq<Cell>) returns (at: map<(nat, int), nat>)
    ensures forall key :: key in at <==> exists k :: 0 <= k < |cells| && (cells[k].band, cells[k].day) == key
    ensures forall key :: key in at ==> at[key] < |cells| && (cells[at[key]].band, cells[at[key]].day) == key
  {
    at := map[];
    for k := 0 to |cells|
      invariant forall key :: key in at <==> exists i :: 0 <= i < k && (cells[i].band, cells[i].day) == key
      invariant forall key :: key in at ==> at[key] < k && (cells[at[key]].band, cells[at[key]].day) == key
    {
      at := at[(cells[k].band, cells[k].day) := k];
    }
  }

  type Rows = seq<seq<Option<nat>>>

  function RowsOf(bands: seq<Band>, days: seq<int>, at: map<(nat, int), nat>): Rows {
    seq(|bands|, b requires 0 <= b < |bands| =>
      seq(|days|, d requires 0 <= d < |days| => if (b, days[d]) in at then Some(at[(b, days[d])]) else None))
  }

  /** Periods of one teacher, or in one room: each takes time, and none overlap on a day. */
  predicate ClashFree(periods: seq<Period>) {
    (forall k :: 0 <= k < |periods| ==> periods[k].start < periods[k].end)
    && forall j, k :: 0 <= j < k < |periods| && periods[j].day == periods[k].day
         ==> !(periods[j].start < periods[k].end && periods[k].start < periods[j].end)
  }

  predicate Shape(rows: Rows, bands: seq<Band>, days: seq<int>) {
    |rows| == |bands| && forall b :: 0 <= b < |rows| ==> |rows[b]| == |days|
  }

  /** Cell (b, d) shows period k, under the period's own times and day. */
  predicate ShownAt(rows: Rows, bands: seq<Band>, days: seq<int>, periods: seq<Period>, k: nat, b: nat, d: nat)
    requires Shape(rows, bands, days)
  {
    k < |periods| && b < |bands| && d < |days| && rows[b][d] == Some(k)
    && bands[b].start == periods[k].start && bands[b].end == periods[k].end && days[d] == periods[k].day
  }

  ghost predicate Shown(rows: Rows, bands: seq<Band>, days: seq<int>, periods: seq<Period>, k: nat)
    requires Shape(rows, bands, days)
  {
    exists b: nat, d: nat :: ShownAt(rows, bands, days, periods, k, b, d)
  }

  /** Every period is shown, in one cell only, and no cell shows anything else. */
  ghost predicate LosesNothing(rows: Rows, bands: seq<Band>, days: seq<int>, periods: seq<Period>) {
    Shape(rows, bands, days)
    && (forall k: nat :: k < |periods| ==> Shown(rows, bands, days, periods, k))
    && (forall k: nat, b: nat, d: nat, b': nat, d': nat ::
          ShownAt(rows, bands, days, periods, k, b, d) && ShownAt(rows, bands, days, periods, k, b', d') ==> b == b' && d == d')
    && forall b: nat, d: nat :: b < |bands| && d < |days| && rows[b][d].Some?
         ==> ShownAt(rows, bands, days, periods, rows[b][d].value, b, d)
  }

  /** A teacher or room grid, from its periods to its printed rows, drops and repeats nothing. */
  method PrintGrid(periods: seq<Period>, extra: seq<Band>) returns (bands: seq<Band>, days: seq<int>, rows: Rows)
    requires ClashFree(periods)
    ensures BandsSorted(bands) && DaysSorted(days)
    ensures forall b :: b in bands <==> b in extra || exists k :: 0 <= k < |periods| && BandOf(periods[k]) == b
    ensures LosesNothing(rows, bands, days, periods)
  {
    hide BandsSorted, LosesNothing, ClashFree;
    bands := SortBands(periods, extra);
    var index := IndexBands(bands);
    forall k | 0 <= k < |periods| ensures (periods[k].start, periods[k].end) in index {
      assert BandOf(periods[k]) in bands;
    }
    var cells := FileCells(periods, bands, index);
    days := SortDays(periods);
    var at := GatherCells(cells);
    rows := RowsOf(bands, days, at);
    NothingLost(periods, bands, days, cells, at);
  }

  /** What filing and gathering leave: each period's cell, and under each key some cell with that key. */
  predicate Gathered(periods: seq<Period>, bands: seq<Band>, cells: seq<Cell>, at: map<(nat, int), nat>) {
    |cells| == |periods|
    && (forall k :: 0 <= k < |periods| ==>
          cells[k].day == periods[k].day && cells[k].period == k && LastBand(bands, periods[k].start, periods[k].end, cells[k].band))
    && (forall k :: 0 <= k < |cells| ==> (cells[k].band, cells[k].day) in at)
    && forall key :: key in at ==> at[key] < |cells| && (cells[at[key]].band, cells[at[key]].day) == key
  }

  lemma NothingLost(periods: seq<Period>, bands: seq<Band>, days: seq<int>, cells: seq<Cell>, at: map<(nat, int), nat>)
    requires ClashFree(periods) && DaysSorted(days)
    requires forall k :: 0 <= k < |periods| ==> periods[k].day in days
    requires Gathered(periods, bands, cells, at)
    ensures LosesNothing(RowsOf(bands, days, at), bands, days, periods)
  {
    var rows := RowsOf(bands, days, at);
    forall k: nat | k < |periods| ensures Shown(rows, bands, days, periods, k) {
      PeriodShown(periods, bands, days, cells, at, k);
    }
    forall b: nat, d: nat | b < |bands| && d < |days| && rows[b][d].Some?
      ensures ShownAt(rows, bands, days, periods, rows[b][d].value, b, d)
    {
      CellShows(periods, bands, days, cells, at, b, d);
    }
    forall k: nat, b: nat, d: nat, b': nat, d': nat
      | ShownAt(rows, bands, days, periods, k, b, d) && ShownAt(rows, bands, days, periods, k, b', d')
      ensures b == b' && d == d'
    {
      CellShows(periods, bands, days, cells, at, b, d);
      CellShows(periods, bands, days, cells, at, b', d');
      SameDay(days, d, d');
    }
  }

  lemma SameDay(days: seq<int>, d: nat, d': nat)
    requires DaysSorted(days) && d < |days| && d' < |days| && days[d] == days[d']
    ensures d == d'
  {
  }

  lemma PeriodShown(periods: seq<Period>, bands: seq<Band>, days: seq<int>, cells: seq<Cell>, at: map<(nat, int), nat>, k: nat)
    requires ClashFree(periods) && k < |periods| && periods[k].day in days
    requires Gathered(periods, bands, cells, at)
    ensures Shown(RowsOf(bands, days, at), bands, days, periods, k)
  {
    hide ClashFree;
    var b := cells[k].band;
    var d: nat :| d < |days| && days[d] == periods[k].day;
    assert (b, days[d]) in at;
    OneCellEach(periods, bands, cells, k, at[(b, days[d])]);
    assert ShownAt(RowsOf(bands, days, at), bands, days, periods, k, b, d);
  }

  lemma CellShows(periods: seq<Period>, bands: seq<Band>, days: seq<int>, cells: seq<Cell>, at: map<(nat, int), nat>, b: nat, d: nat)
    requires Gathered(periods, bands, cells, at)
    requires b < |bands| && d < |days| && RowsOf(bands, days, at)[b][d].Some?
    ensures ShownAt(RowsOf(bands, days, at), bands, days, periods, RowsOf(bands, days, at)[b][d].value, b, d)
    ensures cells[RowsOf(bands, days, at)[b][d].value].band == b
  {
    var key: (nat, int) := (b, days[d]);
    assert (cells[at[key]].band, cells[at[key]].day) == key;
  }

  /** Two periods filed in the same cell would overlap. */
  lemma OneCellEach(periods: seq<Period>, bands: seq<Band>, cells: seq<Cell>, j: nat, k: nat)
    requires ClashFree(periods) && |cells| == |periods| && j < |periods| && k < |periods|
    requires cells[j].day == periods[j].day && LastBand(bands, periods[j].start, periods[j].end, cells[j].band)
    requires cells[k].day == periods[k].day && LastBand(bands, periods[k].start, periods[k].end, cells[k].band)
    requires cells[j].band == cells[k].band && cells[j].day == cells[k].day
    ensures j == k
  {
    assert periods[j].start == periods[k].start && periods[j].end == periods[k].end;
  }

  // ------------------------------------------------------------------ the grids of a timetable

  function PeriodOf(cfg: Model.Config, e: Model.Entry, labels: nat -> string): Period {
    Period(e.day, cfg.slot(e.slot).start, cfg.slot(e.slot).end, labels(e.slot))
  }

  function PeriodsOf(cfg: Model.Config, entries: map<nat, Model.Entry>, ks: seq<nat>, labels: nat -> string): seq<Period>
    requires forall k :: k in ks ==> k in entries
  {
    seq(|ks|, i requires 0 <= i < |ks| => assert ks[i] in ks; PeriodOf(cfg, entries[ks[i]], labels))
  }

  predicate Distinct(ks: seq<nat>) {
    forall i, j :: 0 <= i < j < |ks| ==> ks[i] != ks[j]
  }

  /** Every row read is a period of this teacher, or every one is in this room. */
  predicate OfOne(cfg: Model.Config, entries: map<nat, Model.Entry>, ks: seq<nat>) {
    (forall k :: k in ks ==> k in entries)
    && ((forall j, k :: j in ks && k in ks ==> Model.StaffOf(cfg, entries[j]) == Model.StaffOf(cfg, entries[k]))
        || (forall j, k :: j in ks && k in ks ==> entries[j].room.Some? && entries[j].room == entries[k].room))
  }

  lemma PeriodsClashFree(cfg: Model.Config, s: Model.State, ks: seq<nat>, labels: nat -> string)
    requires Safety.ClashFree(cfg, s) && Distinct(ks) && OfOne(cfg, s.entries, ks)
    requires forall k: nat :: cfg.slot(k).start < cfg.slot(k).end
    ensures ClashFree(PeriodsOf(cfg, s.entries, ks, labels))
  {
    var ps := PeriodsOf(cfg, s.entries, ks, labels);
    forall j, k | 0 <= j < k < |ps| && ps[j].day == ps[k].day
      ensures !(ps[j].start < ps[k].end && ps[k].start < ps[j].end)
    {
      assert ks[j] in ks && ks[k] in ks && ks[j] != ks[k];
      assert !Model.SlotsOverlap(cfg, s.entries[ks[j]].slot, s.entries[ks[k]].slot);
    }
  }

  /** After any run of placing, moving and deleting, every teacher's and every room's grid shows all of it. */
  method GridOfRun(cfg: Model.Config, ghost ops: seq<Model.Op>, s: Model.State, ks: seq<nat>, labels: nat -> string, extra: seq<Band>)
    returns (bands: seq<Band>, days: seq<int>, rows: Rows)
    requires s == Model.Run(cfg, ops)
    requires forall k: nat :: cfg.slot(k).start < cfg.slot(k).end
    requires Distinct(ks) && OfOne(cfg, s.entries, ks)
    ensures LosesNothing(rows, bands, days, PeriodsOf(cfg, s.entries, ks, labels))
  {
    Safety.TimetableStaysClashFree(cfg, ops);
    PeriodsClashFree(cfg, s, ks, labels);
    bands, days, rows := PrintGrid(PeriodsOf(cfg, s.entries, ks, labels), extra);
  }
}
