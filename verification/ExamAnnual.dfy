/** Exams of one class combined by weightage (apps/exam/services.py). */
module ExamAnnual {
  /*
   A subject's average skips exams that do not count it; the overall average counts an exam the
   student has no row in as 0.
   */
  import opened Wrappers
  import opened Rounding
  import opened ExamModel
  import opened ExamAverages
  import opened ExamRanks

  /** One exam with its computed rows; `students` is the order the rows come in. */
  datatype Sheet = Sheet(weightage: int, program: nat, year: nat, bands: seq<Band>,
                         subjects: seq<nat>, students: seq<nat>, rows: map<nat, Outcome>)

  datatype SubjectRow = SubjectRow(subject: nat, weighted: Option<int>, band: Option<Band>)

  datatype AnnualRow = AnnualRow(student: nat, subjects: seq<SubjectRow>, percentage: int, band: Option<Band>, passed: bool)

  function FirstLine(lines: seq<Line>, subject: nat): Option<Line> {
    if lines == [] then None
    else if lines[0].subject == subject then Some(lines[0])
    else FirstLine(lines[1..], subject)
  }

  function LineIn(sheet: Sheet, student: nat, subject: nat): Option<Line> {
    if student in sheet.rows then FirstLine(sheet.rows[student].lines, subject) else None
  }

  /** The exam counts towards the student's average in this subject. */
  predicate Counts(sheet: Sheet, student: nat, subject: nat) {
    var ln := LineIn(sheet, student, subject);
    ln.Some? && ln.value.Line? && ln.value.max != 0
  }

  function PercentIn(sheet: Sheet, student: nat, subject: nat): int
    requires Counts(sheet, student, subject)
  {
    var ln := LineIn(sheet, student, subject).value;
    Rate(ln.total * 10000, ln.max)
  }

  function SubjectParts(sheets: seq<Sheet>, student: nat, subject: nat): seq<Part> {
    if sheets == [] then []
    else
      var rest, e := SubjectParts(sheets[..|sheets| - 1], student, subject), sheets[|sheets| - 1];
      if Counts(e, student, subject) then rest + [Part(e.weightage, e.weightage * PercentIn(e, student, subject))] else rest
  }

  /** The percentage an exam contributes overall: 0 when the student has no row. */
  function OverallIn(sheet: Sheet, student: nat): int {
    if student in sheet.rows then sheet.rows[student].percentage else 0
  }

  function OverallParts(sheets: seq<Sheet>, student: nat): seq<Part> {
    if sheets == [] then []
    else
      var e := sheets[|sheets| - 1];
      OverallParts(sheets[..|sheets| - 1], student) + [Part(e.weightage, e.weightage * OverallIn(e, student))]
  }

  method AnnualSubject(sheets: seq<Sheet>, student: nat, subject: nat) returns (weighted: Option<int>)
    ensures var parts := SubjectParts(sheets, student, subject);
            weighted == if Weights(parts) == 0 then None else Some(Average(parts))
  {
    hide Rate;
    var wsum, acc := 0, 0;
    for i := 0 to |sheets|
      invariant wsum == Weights(SubjectParts(sheets[..i], student, subject))
      invariant acc == Points(SubjectParts(sheets[..i], student, subject))
    {
      var e := sheets[i];
      assert sheets[..i + 1][..i] == sheets[..i] && sheets[..i + 1][i] == e;
      var ln := LineIn(e, student, subject);
      if ln.None? || ln.value.ExemptLine? || ln.value.max == 0 {
        continue;
      }
      var pct := Rate(ln.value.total * 10000, ln.value.max);
      SumsAppend(SubjectParts(sheets[..i], student, subject), Part(e.weightage, e.weightage * pct));
      acc := acc + pct * e.weightage;
      wsum := wsum + e.weightage;
    }
    assert sheets[..|sheets|] == sheets;
    weighted := if wsum != 0 then Some(Rate(acc, wsum)) else None;
  }

  method AnnualOverall(sheets: seq<Sheet>, student: nat) returns (overall: int)
    ensures overall == Average(OverallParts(sheets, student))
  {
    hide Rate;
    var wsum, acc := 0, 0;
    for i := 0 to |sheets|
      invariant wsum == Weights(OverallParts(sheets[..i], student)) && acc == Points(OverallParts(sheets[..i], student))
    {
      var e := sheets[i];
      assert sheets[..i + 1][..i] == sheets[..i] && sheets[..i + 1][i] == e;
      SumsAppend(OverallParts(sheets[..i], student), Part(e.weightage, e.weightage * OverallIn(e, student)));
      wsum := wsum + e.weightage;
      if student in e.rows {
        acc := acc + e.rows[student].percentage * e.weightage;
      }
    }
    assert sheets[..|sheets|] == sheets;
    overall := Rate(acc, wsum);
  }

  // ------------------------------------------------------------------ the bounds

  predicate Weighted(sheets: seq<Sheet>) {
    forall e :: e in sheets ==> e.weightage > 0
  }

  lemma {:induction false} SubjectPartsBetween(sheets: seq<Sheet>, student: nat, subject: nat, lo: int, hi: int)
    requires Weighted(sheets)
    requires forall e :: e in sheets && Counts(e, student, subject) ==> lo <= PercentIn(e, student, subject) <= hi
    ensures Sound(SubjectParts(sheets, student, subject)) && AllWithin(SubjectParts(sheets, student, subject), lo, hi)
  {
    hide Rate;
    if sheets != [] {
      var e := sheets[|sheets| - 1];
      SubjectPartsBetween(sheets[..|sheets| - 1], student, subject, lo, hi);
      if Counts(e, student, subject) {
        RateOfMultiple(e.weightage, PercentIn(e, student, subject));
      }
    }
  }

  /** A subject's annual percentage lies between its lowest and highest percentage in the exams that count it. */
  lemma SubjectBetweenExams(sheets: seq<Sheet>, student: nat, subject: nat, lo: int, hi: int)
    requires Weighted(sheets) && Weights(SubjectParts(sheets, student, subject)) != 0
    requires forall e :: e in sheets && Counts(e, student, subject) ==> lo <= PercentIn(e, student, subject) <= hi
    ensures lo <= Average(SubjectParts(sheets, student, subject)) <= hi
  {
    SubjectPartsBetween(sheets, student, subject, lo, hi);
    AverageBetween(SubjectParts(sheets, student, subject), lo, hi);
  }

  lemma {:induction false} OverallPartsBetween(sheets: seq<Sheet>, student: nat, lo: int, hi: int)
    requires Weighted(sheets)
    requires forall e :: e in sheets ==> lo <= OverallIn(e, student) <= hi
    ensures Sound(OverallParts(sheets, student)) && AllWithin(OverallParts(sheets, student), lo, hi)
    ensures Weights(OverallParts(sheets, student)) >= |sheets|
  {
    hide Rate;
    if sheets != [] {
      var e := sheets[|sheets| - 1];
      OverallPartsBetween(sheets[..|sheets| - 1], student, lo, hi);
      RateOfMultiple(e.weightage, OverallIn(e, student));
      SumsAppend(OverallParts(sheets[..|sheets| - 1], student), Part(e.weightage, e.weightage * OverallIn(e, student)));
    }
  }

  /** The annual percentage lies between the exams' percentages, a missing one standing at 0. */
  lemma AnnualBetweenExams(sheets: seq<Sheet>, student: nat, lo: int, hi: int)
    requires Weighted(sheets) && sheets != []
    requires forall e :: e in sheets ==> lo <= OverallIn(e, student) <= hi
    ensures lo <= Average(OverallParts(sheets, student)) <= hi
  {
    OverallPartsBetween(sheets, student, lo, hi);
    AverageBetween(OverallParts(sheets, student), lo, hi);
  }

  // ------------------------------------------------------------------ exams without a row for the student

  /** The exams the student has a row in. */
  function Sat(sheets: seq<Sheet>, student: nat): seq<Sheet> {
    if sheets == [] then []
    else
      var rest, e := Sat(sheets[..|sheets| - 1], student), sheets[|sheets| - 1];
      if student in e.rows then rest + [e] else rest
  }

  predicate Misses(sheets: seq<Sheet>, student: nat) {
    exists e :: e in sheets && student !in e.rows
  }

  /** Some exam the student sat went above zero. */
  predicate Scored(sheets: seq<Sheet>, student: nat) {
    exists e :: e in sheets && student in e.rows && e.rows[student].percentage > 0
  }

  predicate NoNegative(sheets: seq<Sheet>, student: nat) {
    forall e :: e in sheets && student in e.rows ==> e.rows[student].percentage >= 0
  }

  function SheetPart(e: Sheet, student: nat): Part {
    Part(e.weightage, e.weightage * OverallIn(e, student))
  }

  lemma OneSheetMore(sheets: seq<Sheet>, student: nat)
    requires sheets != []
    ensures var front, part := OverallParts(sheets[..|sheets| - 1], student), SheetPart(sheets[|sheets| - 1], student);
            Weights(OverallParts(sheets, student)) == Weights(front) + part.weight
            && Points(OverallParts(sheets, student)) == Points(front) + part.points
  {
    SumsAppend(OverallParts(sheets[..|sheets| - 1], student), SheetPart(sheets[|sheets| - 1], student));
    hide Weights, Points;
  }

  lemma OneSatMore(sheets: seq<Sheet>, student: nat)
    requires sheets != []
    ensures var front, e := OverallParts(Sat(sheets[..|sheets| - 1], student), student), sheets[|sheets| - 1];
            var sat, part := OverallParts(Sat(sheets, student), student), SheetPart(e, student);
            Weights(sat) == Weights(front) + (if student in e.rows then part.weight else 0)
            && Points(sat) == Points(front) + (if student in e.rows then part.points else 0)
  {
    var rest, e := Sat(sheets[..|sheets| - 1], student), sheets[|sheets| - 1];
    if student in e.rows {
      assert (rest + [e])[..|rest|] == rest;
      OneSheetMore(rest + [e], student);
    }
    hide Weights, Points, OverallParts;
  }

  /** What the last exam adds to what was missed and scored. */
  lemma LastSheet(sheets: seq<Sheet>, student: nat)
    requires sheets != [] && Weighted(sheets) && NoNegative(sheets, student)
    ensures var front, e := sheets[..|sheets| - 1], sheets[|sheets| - 1];
            var part, sat := SheetPart(e, student), student in e.rows;
            Weighted(front) && NoNegative(front, student) && part.weight > 0 && part.points >= 0 && (!sat ==> part.points == 0)
            && (Scored(sheets, student) <==> Scored(front, student) || (sat && part.points > 0))
            && (Misses(sheets, student) <==> Misses(front, student) || !sat)
  {
    var front, e := sheets[..|sheets| - 1], sheets[|sheets| - 1];
    assert forall x :: x in sheets <==> x in front || x == e;
    if student in e.rows {
      PositiveProduct(e.weightage, e.rows[student].percentage);
    }
  }

  /** A missing exam adds its weight and no points; the points are there when the student scored. */
  lemma {:induction false} MissingSums(sheets: seq<Sheet>, student: nat)
    requires Weighted(sheets) && NoNegative(sheets, student)
    ensures var all, sat := OverallParts(sheets, student), OverallParts(Sat(sheets, student), student);
            Points(all) == Points(sat) >= 0 && (Points(all) > 0 <==> Scored(sheets, student))
            && Weights(all) >= Weights(sat) >= 0 && (Weights(all) > Weights(sat) <==> Misses(sheets, student))
            && (Weights(sat) > 0 <==> Sat(sheets, student) != [])
  {
    NoSums();
    if sheets != [] {
      LastSheet(sheets, student);
      OneSheetMore(sheets, student);
      OneSatMore(sheets, student);
      hide Weights, Points, OverallParts, SheetPart, Weighted, NoNegative, Scored, Misses;
      MissingSums(sheets[..|sheets| - 1], student);
    } else {
      hide Weights, Points;
    }
  }

  lemma PositiveProduct(a: int, b: int)
    requires a > 0 && b >= 0
    ensures a * b >= 0 && (a * b > 0 <==> b > 0)
  {
  }

  /** A subject's annual figure is that of the exams sat: missing ones make no difference. */
  lemma {:induction false} SubjectSkipsMissing(sheets: seq<Sheet>, student: nat, subject: nat)
    ensures SubjectParts(sheets, student, subject) == SubjectParts(Sat(sheets, student), student, subject)
  {
    if sheets != [] {
      var front, e := sheets[..|sheets| - 1], sheets[|sheets| - 1];
      SubjectSkipsMissing(front, student, subject);
      var rest := Sat(front, student);
      assert (rest + [e])[..|rest|] == rest;
    }
  }

  /**
   The overall figure divides the points of the exams sat by the weights of all exams, so it never
   exceeds their average. Before rounding it is below exactly when an exam is missing and the
   student scored in some other.
   */
  lemma MissingExamCountsZero(sheets: seq<Sheet>, student: nat)
    requires Weighted(sheets) && NoNegative(sheets, student) && Sat(sheets, student) != []
    ensures var all, sat := OverallParts(sheets, student), OverallParts(Sat(sheets, student), student);
            Weights(all) > 0 && Weights(sat) > 0
            && Average(all) == Rate(Points(sat), Weights(all)) <= Average(sat)
            && (Points(sat) as real / Weights(all) as real < Points(sat) as real / Weights(sat) as real
                <==> Misses(sheets, student) && Scored(sheets, student))
  {
    MissingSums(sheets, student);
    var all, sat := OverallParts(sheets, student), OverallParts(Sat(sheets, student), student);
    hide Weights, Points, RoundHalfUp, Misses, Scored, NoNegative;
    Divides(Points(sat), Weights(sat), Weights(all));
    Monotone(Points(sat) as real / Weights(all) as real, Points(sat) as real / Weights(sat) as real);
  }

  /** Dividing by more gives less, unless there is nothing to divide. */
  lemma Divides(points: int, less: int, more: int)
    requires points >= 0 && 0 < less <= more
    ensures points as real / more as real <= points as real / less as real
    ensures points as real / more as real < points as real / less as real <==> less < more && points > 0
  {
    var p, a, b := points as real, less as real, more as real;
    assert p / a - p / b == p * (b - a) / (a * b);
    if points > 0 && less < more {
      assert p * (b - a) > 0.0 && a * b > 0.0;
    }
  }

  // ------------------------------------------------------------------ the whole class

  predicate SameClass(sheets: seq<Sheet>) {
    forall i, j :: 0 <= i < |sheets| && 0 <= j < |sheets| ==> sheets[i].program == sheets[j].program && sheets[i].year == sheets[j].year
  }

  function CountedExams(exams: seq<Sheet>): seq<Sheet> {
    if exams == [] then []
    else
      var rest := CountedExams(exams[..|exams| - 1]);
      if exams[|exams| - 1].weightage > 0 then rest + [exams[|exams| - 1]] else rest
  }

  lemma {:induction false} CountedAreWeighted(exams: seq<Sheet>)
    ensures forall e :: e in CountedExams(exams) <==> e in exams && e.weightage > 0
  {
    if exams != [] {
      CountedAreWeighted(exams[..|exams| - 1]);
      assert exams == exams[..|exams| - 1] + [exams[|exams| - 1]];
    }
  }

  predicate AllSubjects(sheets: seq<Sheet>, names: seq<nat>) {
    (forall k :: 0 <= k < |sheets| ==> forall s :: s in sheets[k].subjects ==> s in names)
    && (forall s :: s in names ==> exists k :: 0 <= k < |sheets| && s in sheets[k].subjects)
    && forall i, j :: 0 <= i < j < |names| ==> names[i] != names[j]
  }

  /** Every subject of any of the exams, once. */
  method SubjectNames(sheets: seq<Sheet>) returns (names: seq<nat>)
    ensures AllSubjects(sheets, names)
  {
    names := [];
    for i := 0 to |sheets|
      invariant forall s :: s in names <==> exists k :: 0 <= k < i && s in sheets[k].subjects
      invariant forall i, j :: 0 <= i < j < |names| ==> names[i] != names[j]
    {
      var subjects := sheets[i].subjects;
      for t := 0 to |subjects|
        invariant forall s :: s in names <==> s in subjects[..t] || exists k :: 0 <= k < i && s in sheets[k].subjects
        invariant forall i, j :: 0 <= i < j < |names| ==> names[i] != names[j]
      {
        assert subjects[..t + 1] == subjects[..t] + [subjects[t]];
        if subjects[t] !in names {
          names := names + [subjects[t]];
        }
      }
      assert subjects[..|subjects|] == subjects;
    }
  }

  predicate PassedEverywhere(sheets: seq<Sheet>, student: nat) {
    forall e :: e in sheets && student in e.rows ==> e.rows[student].passed
  }

  predicate RightSubject(sheets: seq<Sheet>, bands: seq<Band>, student: nat, subject: nat, r: SubjectRow) {
    var parts := SubjectParts(sheets, student, subject);
    r.subject == subject && r.weighted == (if Weights(parts) == 0 then None else Some(Average(parts)))
    && r.band == if r.weighted.Some? then BandFor(bands, r.weighted.value) else None
  }

  /** What a student's annual row must be. */
  predicate RightRow(sheets: seq<Sheet>, names: seq<nat>, bands: seq<Band>, student: nat, r: AnnualRow) {
    r.student == student && |r.subjects| == |names|
    && (forall k :: 0 <= k < |names| ==> RightSubject(sheets, bands, student, names[k], r.subjects[k]))
    && r.percentage == Average(OverallParts(sheets, student)) && r.band == BandFor(bands, r.percentage)
    && (r.passed <==> PassedEverywhere(sheets, student) && !FailBand(r.band))
  }

  method StudentYear(sheets: seq<Sheet>, names: seq<nat>, bands: seq<Band>, student: nat) returns (r: AnnualRow)
    ensures RightRow(sheets, names, bands, student, r)
  {
    hide Weights, Average, BandFor;
    var subjects: seq<SubjectRow> := [];
    for k := 0 to |names|
      invariant |subjects| == k && forall i :: 0 <= i < k ==> RightSubject(sheets, bands, student, names[i], subjects[i])
    {
      var weighted := AnnualSubject(sheets, student, names[k]);
      var band := if weighted.Some? then BandFor(bands, weighted.value) else None;
      subjects := subjects + [SubjectRow(names[k], weighted, band)];
    }
    var overall := AnnualOverall(sheets, student);
    var band := BandFor(bands, overall);
    r := AnnualRow(student, subjects, overall, band, PassedEverywhere(sheets, student) && !FailBand(band));
  }

  /** annual_results: refused without weighted exams or across classes; one row per student of the first exam, ranked. */
  method AnnualResults(exams: seq<Sheet>) returns (r: Result<(seq<AnnualRow>, map<nat, nat>)>)
    ensures var sheets := CountedExams(exams);
            r.Ok? <==> sheets != [] && SameClass(sheets)
    ensures r.Ok? ==>
              var sheets := CountedExams(exams);
              var (rows, ranks) := r.value;
              |rows| == |sheets[0].students|
              && (exists names :: AllSubjects(sheets, names)
                    && forall k :: 0 <= k < |rows| ==> RightRow(sheets, names, sheets[|sheets| - 1].bands, sheets[0].students[k], rows[k]))
              && forall k :: 0 <= k < |rows| ==>
                   Ranked(RowItems(rows), ranks, Item(rows[k].student, rows[k].percentage))
  {
    hide RightRow, OverallParts, Average, AllSubjects;
    var sheets := CountedExams(exams);
    if sheets == [] || !SameClass(sheets) {
      return Conflict;
    }
    var bands := sheets[|sheets| - 1].bands;
    var students := sheets[0].students;
    var names := SubjectNames(sheets);
    var rows: seq<AnnualRow> := [];
    for k := 0 to |students|
      invariant |rows| == k
      invariant forall i :: 0 <= i < k ==> RightRow(sheets, names, bands, students[i], rows[i])
      invariant forall i :: 0 <= i < k ==> rows[i].percentage == Average(OverallParts(sheets, rows[i].student))
    {
      var row := StudentYear(sheets, names, bands, students[k]);
      RightPercentage(sheets, names, bands, students[k], row);
      rows := rows + [row];
    }
    var ranks := CompetitionRank(RowItems(rows));
    forall k | 0 <= k < |rows| ensures Ranked(RowItems(rows), ranks, Item(rows[k].student, rows[k].percentage)) {
      assert RowItems(rows)[k] in RowItems(rows);
      assert Lowest(RowItems(rows), RowItems(rows)[k]);
    }
    r := Ok((rows, ranks));
  }

  function RowItems(rows: seq<AnnualRow>): seq<Item> {
    seq(|rows|, i requires 0 <= i < |rows| => Item(rows[i].student, rows[i].percentage))
  }

  lemma RightPercentage(sheets: seq<Sheet>, names: seq<nat>, bands: seq<Band>, student: nat, r: AnnualRow)
    requires RightRow(sheets, names, bands, student, r)
    ensures r.student == student && r.percentage == Average(OverallParts(sheets, r.student))
  {
  }
}
