/** What marks add up to: totals, percentages, points and averages in whole numbers (apps/exam/services.py). */
module ExamTotals {
  import opened Wrappers
  import opened Rounding
  import opened Sums
  import opened ExamModel
  import opened ExamResults
  import opened ExamAverages
  import M = ExamMarks

  // ------------------------------------------------------------------ one paper

  predicate Sat(m: Option<Mark>) {
    m.Some? && m.value.status == Present
  }

  function TheoryIn(m: Option<Mark>): int {
    if Sat(m) && m.value.theory.Some? then m.value.theory.value else 0
  }

  function PracticalIn(m: Option<Mark>): int {
    if Sat(m) && m.value.practical.Some? then m.value.practical.value else 0
  }

  function MarksIn(m: Option<Mark>): int {
    TheoryIn(m) + PracticalIn(m)
  }

  predicate Excused(m: Option<Mark>) {
    m.Some? && m.value.status == Exempt
  }

  /** A paper's percentage in hundredths: the nearest of its theory and practical marks against both maxima. */
  predicate PercentIs(p: Paper, m: Option<Mark>, percent: int) {
    var max := p.maxTheory + p.maxPractical;
    if max == 0 then percent == 0 else max > 0 ==> IsNearest(10000 * MarksIn(m), max, percent)
  }

  lemma PaperPercentIs(p: Paper, m: Option<Mark>)
    ensures PercentIs(p, m, PaperPercent(p, m))
  {
    var max := p.maxTheory + p.maxPractical;
    if max > 0 {
      NearestQuotient(MarksIn(m) * 10000, max, PaperPercent(p, m));
      hide RoundHalfUp, IsNearest;
    }
  }

  /** A scale's band and point for a paper: a point only with a pass. */
  predicate IsPassed(scale: Scale, p: Paper, m: Option<Mark>) {
    Sat(m) && MarksIn(m) >= p.passMarks
    && var band := BandFor(scale.bands, PaperPercent(p, m)); !(band.Some? && band.value.fail)
  }

  /** The line of a paper: excused, or its marks, maximum, band and pass. */
  lemma LineIs(scale: Scale, papers: seq<Paper>, marks: map<nat, Mark>, i: nat)
    requires i < |papers|
    ensures var p, lines := papers[i], OutcomeOf(scale, papers, marks).lines;
            var m := if p.id in marks then Some(marks[p.id]) else None;
            |lines| == |papers|
            && lines[i] == if Excused(m) then ExemptLine(p.subject)
                           else Line(p.subject, if m.Some? then Some(m.value.status) else None, MarksIn(m),
                                     p.maxTheory + p.maxPractical, BandFor(scale.bands, PaperPercent(p, m)), IsPassed(scale, p, m))
  {
    hide BandFor, PaperPercent, MarksParts, CreditParts, TotalOf, PapersPassed, Pending;
  }

  // ------------------------------------------------------------------ all papers

  function MarkFor(marks: map<nat, Mark>, p: Paper): Option<Mark> {
    if p.id in marks then Some(marks[p.id]) else None
  }

  function AllMarks(papers: seq<Paper>, marks: map<nat, Mark>): seq<int> {
    seq(|papers|, i requires 0 <= i < |papers| => MarksIn(MarkFor(marks, papers[i])))
  }

  function AllMaxima(papers: seq<Paper>, marks: map<nat, Mark>): seq<int> {
    seq(|papers|, i requires 0 <= i < |papers| =>
      if Excused(MarkFor(marks, papers[i])) then 0 else papers[i].maxTheory + papers[i].maxPractical)
  }

  /** In tenths; a missing or zero credit counts as one. */
  function CreditIn(p: Paper): int {
    if p.credits == None || p.credits == Some(0) then 10 else p.credits.value
  }

  function AllCredits(papers: seq<Paper>, marks: map<nat, Mark>): seq<int> {
    seq(|papers|, i requires 0 <= i < |papers| => if Excused(MarkFor(marks, papers[i])) then 0 else CreditIn(papers[i]))
  }

  /** Credits times the band's point, for the papers passed. */
  function AllEarned(scale: Scale, papers: seq<Paper>, marks: map<nat, Mark>): seq<int> {
    seq(|papers|, i requires 0 <= i < |papers| =>
      var p := papers[i];
      var m := MarkFor(marks, p);
      var band := BandFor(scale.bands, PaperPercent(p, m));
      if !Excused(m) && IsPassed(scale, p, m) && band.Some? then CreditIn(p) * band.value.point else 0)
  }

  lemma {:induction false} MarksAddUp(papers: seq<Paper>, marks: map<nat, Mark>)
    ensures TotalOf(papers, marks) == Sum(AllMarks(papers, marks))
    ensures Weights(MarksParts(papers, marks)) == Sum(AllMaxima(papers, marks))
  {
    if papers != [] {
      var n := |papers| - 1;
      var front, p := papers[..n], papers[n];
      MarksAddUp(front, marks);
      assert AllMarks(papers, marks)[..n] == AllMarks(front, marks) && AllMaxima(papers, marks)[..n] == AllMaxima(front, marks);
      SumsAppend(MarksParts(front, marks), Part(MaxTotal(p), Obtained(MarkOf(marks, p)) * 10000));
      hide Weights, Points;
    }
  }

  lemma OnePaper(scale: Scale, p: Paper, m: Option<Mark>)
    ensures CreditsOf(p) == CreditIn(p) && (IsExempt(m) <==> Excused(m))
    ensures var band := BandFor(scale.bands, PaperPercent(p, m));
            PointOf(scale, p, m) == if IsPassed(scale, p, m) && band.Some? then band.value.point else 0
  {
    hide BandFor, PaperPercent;
  }

  lemma {:induction false} CreditsAddUp(scale: Scale, papers: seq<Paper>, marks: map<nat, Mark>)
    ensures Weights(CreditParts(scale, papers, marks)) == Sum(AllCredits(papers, marks))
    ensures Points(CreditParts(scale, papers, marks)) == Sum(AllEarned(scale, papers, marks))
  {
    hide Weights, Points, PaperPercent, BandFor, PointOf, IsPassed, CreditsOf, CreditIn;
    if papers != [] {
      var n := |papers| - 1;
      var front, p := papers[..n], papers[n];
      CreditsAddUp(scale, front, marks);
      assert AllCredits(papers, marks)[..n] == AllCredits(front, marks);
      assert AllEarned(scale, papers, marks)[..n] == AllEarned(scale, front, marks);
      OnePaper(scale, p, MarkFor(marks, p));
      SumsAppend(CreditParts(scale, front, marks), Part(CreditsOf(p), CreditsOf(p) * PointOf(scale, p, MarkOf(marks, p))));
    } else {
      NoSums();
    }
  }

  /** An average over some weight is the nearest whole number to its points over its weights. */
  lemma AverageIs(parts: seq<Part>)
    ensures Weights(parts) > 0 ==> IsNearest(Points(parts), Weights(parts), Average(parts))
    ensures Weights(parts) == 0 ==> Average(parts) == 0
  {
    if Weights(parts) > 0 {
      NearestQuotient(Points(parts), Weights(parts), Average(parts));
      hide RoundHalfUp, IsNearest, Weights, Points;
    }
  }

  /**
   A student's result is the marks of both parts over all papers, the maxima of those not excused, and
   the nearest hundredth of a per cent of the one in the other.
   */
  lemma ResultAddsUp(scale: Scale, papers: seq<Paper>, marks: map<nat, Mark>)
    ensures var o, total, max := OutcomeOf(scale, papers, marks), Sum(AllMarks(papers, marks)), Sum(AllMaxima(papers, marks));
            o.total == total && o.maxTotal == max && (max == 0 ==> o.percentage == 0) && o.band == BandFor(scale.bands, o.percentage)
            && (max > 0 ==> IsNearest(10000 * total, max, o.percentage))
  {
    MarksAddUp(papers, marks);
    PointsAreTotal(papers, marks);
    AverageIs(MarksParts(papers, marks));
    hide IsNearest, Weights, Points, TotalOf, MarksParts, CreditParts, AllMarks, AllMaxima, Sum, Average, LinesOf, PapersPassed, Pending, BandFor;
  }

  /** Where credits count, the grade point average is the nearest of the credits' points to the credits. */
  lemma SgpaAddsUp(scale: Scale, papers: seq<Paper>, marks: map<nat, Mark>)
    requires scale.credit
    ensures var o, credits := OutcomeOf(scale, papers, marks), Sum(AllCredits(papers, marks));
            o.credits == credits && o.sgpa.Some? && (credits == 0 ==> o.sgpa.value == 0)
            && (credits > 0 ==> IsNearest(Sum(AllEarned(scale, papers, marks)), credits, o.sgpa.value))
  {
    CreditsAddUp(scale, papers, marks);
    AverageIs(CreditParts(scale, papers, marks));
    hide IsNearest, Weights, Points, TotalOf, MarksParts, CreditParts, AllCredits, AllEarned, Sum, Average, LinesOf, PapersPassed, Pending, BandFor;
  }

  lemma {:induction false} SameSum(xs: seq<int>, ys: seq<int>)
    requires |xs| == |ys| && forall i :: 0 <= i < |xs| ==> xs[i] == ys[i]
    ensures Sum(xs) == Sum(ys)
  {
    assert xs == ys;
  }

  /** Full marks in both parts of every paper not excused give exactly a hundred per cent. */
  lemma FullMarksAreAHundred(scale: Scale, papers: seq<Paper>, marks: map<nat, Mark>)
    requires Sum(AllMaxima(papers, marks)) > 0
    requires forall i :: 0 <= i < |papers| && !Excused(MarkFor(marks, papers[i])) ==>
               var p, m := papers[i], MarkFor(marks, papers[i]);
               Sat(m) && TheoryIn(m) == p.maxTheory && PracticalIn(m) == p.maxPractical
    ensures OutcomeOf(scale, papers, marks).percentage == 10000
  {
    ResultAddsUp(scale, papers, marks);
    SameSum(AllMarks(papers, marks), AllMaxima(papers, marks));
    hide Sum, AllMarks, AllMaxima, OutcomeOf;
    OnlyWhole(Sum(AllMaxima(papers, marks)), OutcomeOf(scale, papers, marks).percentage);
  }

  lemma OnlyWhole(max: int, percent: int)
    requires max > 0 && IsNearest(10000 * max, max, percent)
    ensures percent == 10000
  {
    NearestQuotient(10000 * max, max, percent);
    NearestQuotient(10000 * max, max, 10000);
    hide RoundHalfUp;
  }

  lemma {:induction false} SumUpdate(xs: seq<int>, i: nat, v: int)
    requires i < |xs|
    ensures Sum(xs[i := v]) == Sum(xs) - xs[i] + v
  {
    var n := |xs| - 1;
    if i < n {
      SumUpdate(xs[..n], i, v);
      assert xs[i := v][..n] == xs[..n][i := v];
    } else {
      assert xs[i := v][..n] == xs[..n];
    }
  }

  /** Changing one paper's mark moves the total by the change in theory and in practical. */
  lemma TotalFollowsMarks(scale: Scale, papers: seq<Paper>, marks: map<nat, Mark>, i: nat, m: Mark)
    requires i < |papers| && forall j :: 0 <= j < |papers| && j != i ==> papers[j].id != papers[i].id
    ensures var before := MarkFor(marks, papers[i]);
            OutcomeOf(scale, papers, marks[papers[i].id := m]).total - OutcomeOf(scale, papers, marks).total
            == TheoryIn(Some(m)) - TheoryIn(before) + PracticalIn(Some(m)) - PracticalIn(before)
  {
    var after := marks[papers[i].id := m];
    ResultAddsUp(scale, papers, marks);
    ResultAddsUp(scale, papers, after);
    SumUpdate(AllMarks(papers, marks), i, MarksIn(Some(m)));
    assert AllMarks(papers, after) == AllMarks(papers, marks)[i := MarksIn(Some(m))];
    hide OutcomeOf, Sum, IsNearest;
  }

  // ------------------------------------------------------------------ entering marks

  /** The mark a row leaves: none unless present, and no practical for a paper without one. */
  function MarkLeft(p: Paper, e: M.Entry): Mark {
    match e.status
    case Some(Absent) => Mark(None, None, Absent)
    case Some(Exempt) => Mark(None, None, Exempt)
    case _ => Mark(e.theory, if p.maxPractical == 0 then None else e.practical, Present)
  }

  /** Each mark given lies between nothing and its maximum. */
  predicate WithinMaxima(p: Paper, e: M.Entry) {
    (e.theory.Some? ==> 0 <= e.theory.value <= p.maxTheory) && (e.practical.Some? ==> 0 <= e.practical.value <= p.maxPractical)
  }

  /**
   Rows are saved exactly for a section of the exam's class that is not locked, when every row is for
   one of its students and, unless absent or excused, within the maxima; each then leaves its mark.
   */
  lemma SavedExactly(cfg: M.Config, s: M.State, paper: nat, section: nat, rows: seq<M.Entry>)
    ensures var p := cfg.paper(paper);
            (M.SaveMarks(cfg, s, paper, section, rows).Ok?
             <==> cfg.sectionProgram(section) == cfg.program(p.exam) && (p.exam, section) !in s.locks
                  && forall e :: e in rows ==>
                       e.student in cfg.students(p.exam, section)
                       && (e.status in [None, Some(Present)] ==> WithinMaxima(p, e)))
    ensures M.SaveMarks(cfg, s, paper, section, rows).Ok? ==>
              M.SaveMarks(cfg, s, paper, section, rows).value == s.(marks := M.Written(cfg.paper(paper), rows, s.marks))
    ensures forall e :: M.Stored(cfg.paper(paper), e) == MarkLeft(cfg.paper(paper), e)
  {
    var p := cfg.paper(paper);
    forall e: M.Entry
      ensures M.Accepted(p, cfg.students(p.exam, section), e)
         <==> e.student in cfg.students(p.exam, section) && (e.status in [None, Some(Present)] ==> WithinMaxima(p, e))
    {
    }
    hide M.Accepted, M.Written, WithinMaxima;
  }
}
