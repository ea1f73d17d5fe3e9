/** What the annual figures and the cumulative grade point average add up to (apps/exam/services.py). */
module ExamYears {
  import opened Wrappers
  import opened Rounding
  import opened Sums
  import opened ExamModel
  import opened ExamAverages
  import opened ExamAnnual
  import T = ExamTotals
  import C = ExamCredits

  /** The first line of a subject, if it has one. */
  lemma {:induction false} FirstLineIs(lines: seq<Line>, subject: nat, i: nat)
    requires i < |lines| && lines[i].subject == subject && forall j :: 0 <= j < i ==> lines[j].subject != subject
    ensures FirstLine(lines, subject) == Some(lines[i])
  {
    if i > 0 {
      FirstLineIs(lines[1..], subject, i - 1);
    }
  }

  lemma {:induction false} NoLine(lines: seq<Line>, subject: nat)
    requires forall j :: 0 <= j < |lines| ==> lines[j].subject != subject
    ensures FirstLine(lines, subject).None?
  {
    if lines != [] {
      NoLine(lines[1..], subject);
    }
  }

  /** The student's line of the subject in the exam, where it counts: there, not excused, with a maximum. */
  predicate CountingLine(sheet: Sheet, student: nat, subject: nat, i: nat) {
    student in sheet.rows
    && var lines := sheet.rows[student].lines;
       i < |lines| && lines[i].subject == subject && lines[i].Line? && lines[i].max != 0
       && forall j :: 0 <= j < i ==> lines[j].subject != subject
  }

  lemma CountingLineIs(sheet: Sheet, student: nat, subject: nat, i: nat)
    requires CountingLine(sheet, student, subject, i)
    ensures Counts(sheet, student, subject) && LineIn(sheet, student, subject) == Some(sheet.rows[student].lines[i])
  {
    FirstLineIs(sheet.rows[student].lines, subject, i);
  }

  lemma CountsOnlyIfLine(sheet: Sheet, student: nat, subject: nat)
    requires Counts(sheet, student, subject)
    ensures exists i: nat :: CountingLine(sheet, student, subject, i)
  {
    var lines := sheet.rows[student].lines;
    if forall j :: 0 <= j < |lines| ==> lines[j].subject != subject {
      NoLine(lines, subject);
    } else {
      var k :| 0 <= k < |lines| && lines[k].subject == subject;
      var i := Earliest(lines, subject, k);
      FirstLineIs(lines, subject, i);
      assert CountingLine(sheet, student, subject, i);
    }
  }

  lemma {:induction false} Earliest(lines: seq<Line>, subject: nat, k: nat) returns (i: nat)
    requires k < |lines| && lines[k].subject == subject
    ensures i <= k && lines[i].subject == subject && forall j :: 0 <= j < i ==> lines[j].subject != subject
  {
    if j :| 0 <= j < k && lines[j].subject == subject {
      i := Earliest(lines, subject, j);
    } else {
      i := k;
    }
  }

  /** What an exam adds to a subject: its weight and, for that weight, the subject's nearest percentage in it. */
  predicate SubjectShare(sheet: Sheet, student: nat, subject: nat, weight: int, percent: int) {
    if Counts(sheet, student, subject)
    then weight == sheet.weightage
         && var ln := LineIn(sheet, student, subject).value; (ln.max > 0 ==> IsNearest(10000 * ln.total, ln.max, percent))
    else weight == 0
  }

  predicate PositiveMaxima(sheets: seq<Sheet>, student: nat, subject: nat) {
    forall i :: 0 <= i < |sheets| && Counts(sheets[i], student, subject) ==> LineIn(sheets[i], student, subject).value.max > 0
  }

  function Weighed(ws: seq<int>, ps: seq<int>): seq<int>
    requires |ws| == |ps|
  {
    seq(|ws|, i requires 0 <= i < |ws| => ws[i] * ps[i])
  }

  /** A subject's annual figure averages its nearest percentages over the exams that count it, by weight. */
  lemma {:induction false} SubjectAddsUp(sheets: seq<Sheet>, student: nat, subject: nat, ws: seq<int>, ps: seq<int>)
    requires |ws| == |ps| == |sheets| && PositiveMaxima(sheets, student, subject)
    requires forall i :: 0 <= i < |sheets| ==> SubjectShare(sheets[i], student, subject, ws[i], ps[i])
    ensures Weights(SubjectParts(sheets, student, subject)) == Sum(ws)
    ensures Points(SubjectParts(sheets, student, subject)) == Sum(Weighed(ws, ps))
  {
    hide Weights, Points, LineIn, IsNearest, Rate;
    if sheets == [] {
      NoSums();
    } else {
      var n := |sheets| - 1;
      var e := sheets[n];
      SubjectAddsUp(sheets[..n], student, subject, ws[..n], ps[..n]);
      assert Weighed(ws, ps)[..n] == Weighed(ws[..n], ps[..n]);
      assert SubjectShare(e, student, subject, ws[n], ps[n]);
      if Counts(e, student, subject) {
        var ln := LineIn(e, student, subject).value;
        PercentInIs(e, student, subject, ps[n]);
        SumsAppend(SubjectParts(sheets[..n], student, subject), Part(e.weightage, e.weightage * ps[n]));
      }
    }
  }

  lemma PercentInIs(sheet: Sheet, student: nat, subject: nat, percent: int)
    requires Counts(sheet, student, subject)
    requires var ln := LineIn(sheet, student, subject).value; ln.max > 0 && IsNearest(10000 * ln.total, ln.max, percent)
    ensures PercentIn(sheet, student, subject) == percent
  {
    var ln := LineIn(sheet, student, subject).value;
    NearestQuotient(ln.total * 10000, ln.max, percent);
    hide RoundHalfUp, LineIn, IsNearest;
  }

  /** The student's percentage in an exam, or nothing without a row. */
  function Percentages(sheets: seq<Sheet>, student: nat): seq<int> {
    seq(|sheets|, i requires 0 <= i < |sheets| => if student in sheets[i].rows then sheets[i].rows[student].percentage else 0)
  }

  function ExamWeights(sheets: seq<Sheet>): seq<int> {
    seq(|sheets|, i requires 0 <= i < |sheets| => sheets[i].weightage)
  }

  /** The overall figure averages the percentages over all exams, by weight. */
  lemma {:induction false} OverallAddsUp(sheets: seq<Sheet>, student: nat)
    ensures Weights(OverallParts(sheets, student)) == Sum(ExamWeights(sheets))
    ensures Points(OverallParts(sheets, student)) == Sum(Weighed(ExamWeights(sheets), Percentages(sheets, student)))
  {
    hide Weights, Points;
    if sheets == [] {
      NoSums();
    } else {
      var n := |sheets| - 1;
      var front, e := sheets[..n], sheets[n];
      OverallAddsUp(front, student);
      assert ExamWeights(sheets)[..n] == ExamWeights(front);
      assert Weighed(ExamWeights(sheets), Percentages(sheets, student))[..n] == Weighed(ExamWeights(front), Percentages(front, student));
      SumsAppend(OverallParts(front, student), Part(e.weightage, e.weightage * OverallIn(e, student)));
    }
  }

  /** An annual row's figures are the nearest whole numbers to those averages. */
  lemma YearAddsUp(sheets: seq<Sheet>, names: seq<nat>, bands: seq<Band>, student: nat, r: AnnualRow)
    requires RightRow(sheets, names, bands, student, r)
    ensures var w := Sum(ExamWeights(sheets));
            (w > 0 ==> IsNearest(Sum(Weighed(ExamWeights(sheets), Percentages(sheets, student))), w, r.percentage))
            && r.band == BandFor(bands, r.percentage)
            && (r.passed <==> !(r.band.Some? && r.band.value.fail)
                              && forall i :: 0 <= i < |sheets| && student in sheets[i].rows ==> sheets[i].rows[student].passed)
  {
    OverallAddsUp(sheets, student);
    T.AverageIs(OverallParts(sheets, student));
    hide Weights, Points, Sum, IsNearest, Average, OverallParts, RightSubject, BandFor;
    assert forall i :: 0 <= i < |sheets| ==> sheets[i] in sheets;
  }

  // ------------------------------------------------------------------ the cumulative average

  function TermCredits(terms: seq<Option<C.Term>>): seq<int> {
    seq(|terms|, i requires 0 <= i < |terms| => if terms[i].Some? then terms[i].value.credits else 0)
  }

  function TermPoints(terms: seq<Option<C.Term>>): seq<int> {
    seq(|terms|, i requires 0 <= i < |terms| => if terms[i].Some? then terms[i].value.credits * terms[i].value.sgpa else 0)
  }

  lemma {:induction false} TermsAddUp(terms: seq<Option<C.Term>>)
    ensures Weights(C.TermParts(terms)) == Sum(TermCredits(terms))
    ensures Points(C.TermParts(terms)) == Sum(TermPoints(terms))
  {
    hide Weights, Points;
    if terms == [] {
      NoSums();
    } else {
      var n := |terms| - 1;
      var front, t := terms[..n], terms[n];
      TermsAddUp(front);
      assert TermCredits(terms)[..n] == TermCredits(front) && TermPoints(terms)[..n] == TermPoints(front);
      if t.Some? {
        SumsAppend(C.TermParts(front), Part(t.value.credits, t.value.credits * t.value.sgpa));
      }
    }
  }

  /** The CGPA is the nearest of the terms' credits times points to their credits. */
  lemma CgpaAddsUp(terms: seq<Option<C.Term>>)
    requires Sum(TermCredits(terms)) > 0
    ensures IsNearest(Sum(TermPoints(terms)), Sum(TermCredits(terms)), Average(C.TermParts(terms)))
  {
    TermsAddUp(terms);
    T.AverageIs(C.TermParts(terms));
    hide Weights, Points, Sum, IsNearest, Average, C.TermParts;
  }
}
