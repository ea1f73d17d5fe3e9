/**
 Results computed from marks (apps/exam/services.py exam_results, annual_results, cgpa): each loop
 is proved to compute the averages of ExamModel, and those averages are bounded.
 */
module ExamResults {
  import opened Wrappers
  import opened Rounding
  import opened ExamModel
  import opened ExamAverages
  import opened ExamRanks
  import M = ExamMarks

  // ------------------------------------------------------------------ one student, one exam

  function LinesOf(scale: Scale, papers: seq<Paper>, marks: map<nat, Mark>): seq<Line> {
    seq(|papers|, i requires 0 <= i < |papers| => LineOf(scale, papers[i], MarkOf(marks, papers[i])))
  }

  predicate Pending(papers: seq<Paper>, marks: map<nat, Mark>) {
    exists i :: 0 <= i < |papers| && MarkOf(marks, papers[i]).None?
  }

  /** Every paper that is not exempt is passed. */
  predicate PapersPassed(scale: Scale, papers: seq<Paper>, marks: map<nat, Mark>) {
    forall i :: 0 <= i < |papers| ==>
      IsExempt(MarkOf(marks, papers[i])) || PaperPassed(scale, papers[i], MarkOf(marks, papers[i]))
  }

  function TotalOf(papers: seq<Paper>, marks: map<nat, Mark>): int {
    if papers == [] then 0
    else TotalOf(papers[..|papers| - 1], marks) + Obtained(MarkOf(marks, papers[|papers| - 1]))
  }

  function OutcomeOf(scale: Scale, papers: seq<Paper>, marks: map<nat, Mark>): Outcome {
    var percentage := Average(MarksParts(papers, marks));
    var band := BandFor(scale.bands, percentage);
    var credits := if scale.credit then CreditParts(scale, papers, marks) else [];
    Outcome(LinesOf(scale, papers, marks), TotalOf(papers, marks), Weights(MarksParts(papers, marks)), percentage, band,
            PapersPassed(scale, papers, marks) && !FailBand(band), Pending(papers, marks),
            if scale.credit then Some(Average(credits)) else None, Weights(credits))
  }

  lemma {:induction false} PointsAreTotal(papers: seq<Paper>, marks: map<nat, Mark>)
    ensures Points(MarksParts(papers, marks)) == TotalOf(papers, marks) * 10000
  {
    if papers != [] {
      var front, p := papers[..|papers| - 1], papers[|papers| - 1];
      PointsAreTotal(front, marks);
      SumsAppend(MarksParts(front, marks), Part(MaxTotal(p), Obtained(MarkOf(marks, p)) * 10000));
    }
  }

  /** The loop over the papers, with the totals it keeps. */
  method StudentResult(scale: Scale, papers: seq<Paper>, marks: map<nat, Mark>) returns (o: Outcome)
    ensures o == OutcomeOf(scale, papers, marks)
  {
    hide Weights, Points, BandFor, Rate, LinesOf, TotalOf, PapersPassed, Pending, MarksParts, CreditParts;
    var lines, total, maxTotal, passed, pending := [], 0, 0, true, false;
    var credits, creditsXPoints := 0, 0;
    Nothing(scale, marks);
    assert papers[..0] == [];
    for i := 0 to |papers|
      invariant lines == LinesOf(scale, papers[..i], marks) && total == TotalOf(papers[..i], marks)
      invariant maxTotal == Weights(MarksParts(papers[..i], marks))
      invariant passed == PapersPassed(scale, papers[..i], marks) && pending == Pending(papers[..i], marks)
      invariant scale.credit ==> credits == Weights(CreditParts(scale, papers[..i], marks))
                                 && creditsXPoints == Points(CreditParts(scale, papers[..i], marks))
      invariant !scale.credit ==> credits == 0
    {
      var p := papers[i];
      var m := MarkOf(marks, p);
      var status, obtained: int := None, 0;
      if m.None? {
        pending := true;
      } else {
        status := Some(m.value.status);
        obtained := if m.value.status == Present then Or0(m.value.theory) + Or0(m.value.practical) else 0;
      }
      OneMore(scale, papers, marks, i);
      if status == Some(Exempt) {
        lines := lines + [ExemptLine(p.subject)];
        continue;
      }
      var subjectPass := status == Some(Present) && obtained >= p.passMarks;
      var pct := Rate(obtained * 10000, MaxTotal(p));
      var band := BandFor(scale.bands, pct);
      if band.Some? && band.value.fail {
        subjectPass := false;
      }
      passed := passed && subjectPass;
      total := total + obtained;
      maxTotal := maxTotal + MaxTotal(p);
      if scale.credit {
        var c := CreditsOf(p);
        credits := credits + c;
        creditsXPoints := creditsXPoints + c * (if band.Some? && subjectPass then band.value.point else 0);
      }
      lines := lines + [Line(p.subject, status, obtained, MaxTotal(p), band, subjectPass)];
    }
    assert papers[..|papers|] == papers;
    PointsAreTotal(papers, marks);
    var percentage := Rate(total * 10000, maxTotal);
    var band := BandFor(scale.bands, percentage);
    if band.Some? && band.value.fail {
      passed := false;
    }
    o := Outcome(lines, total, maxTotal, percentage, band, passed && !pending, pending,
                 if scale.credit then Some(Rate(creditsXPoints, credits)) else None, credits);
    PassedIsNotPending(scale, papers, marks);
  }

  lemma Nothing(scale: Scale, marks: map<nat, Mark>)
    ensures LinesOf(scale, [], marks) == [] && TotalOf([], marks) == 0 && PapersPassed(scale, [], marks) && !Pending([], marks)
    ensures Weights(MarksParts([], marks)) == 0
    ensures Weights(CreditParts(scale, [], marks)) == 0 && Points(CreditParts(scale, [], marks)) == 0
    ensures Weights([]) == 0
  {
  }

  lemma PassedIsNotPending(scale: Scale, papers: seq<Paper>, marks: map<nat, Mark>)
    ensures PapersPassed(scale, papers, marks) ==> !Pending(papers, marks)
  {
  }

  /** What the next paper adds to each running figure. */
  lemma OneMore(scale: Scale, papers: seq<Paper>, marks: map<nat, Mark>, i: nat)
    requires i < |papers|
    ensures LinesOf(scale, papers[..i + 1], marks)
            == LinesOf(scale, papers[..i], marks) + [LineOf(scale, papers[i], MarkOf(marks, papers[i]))]
    ensures PapersPassed(scale, papers[..i + 1], marks)
            <==> PapersPassed(scale, papers[..i], marks)
                 && (IsExempt(MarkOf(marks, papers[i])) || PaperPassed(scale, papers[i], MarkOf(marks, papers[i])))
    ensures Pending(papers[..i + 1], marks) <==> Pending(papers[..i], marks) || MarkOf(marks, papers[i]).None?
    ensures TotalOf(papers[..i + 1], marks) == TotalOf(papers[..i], marks) + Obtained(MarkOf(marks, papers[i]))
    ensures var p := papers[i];
            var m := MarkOf(marks, p);
            var x, y := if IsExempt(m) then 0 else MaxTotal(p), if IsExempt(m) then 0 else CreditsOf(p);
            Weights(MarksParts(papers[..i + 1], marks)) == Weights(MarksParts(papers[..i], marks)) + x
            && Weights(CreditParts(scale, papers[..i + 1], marks)) == Weights(CreditParts(scale, papers[..i], marks)) + y
            && Points(CreditParts(scale, papers[..i + 1], marks))
               == Points(CreditParts(scale, papers[..i], marks)) + (if IsExempt(m) then 0 else y * PointOf(scale, p, m))
  {
    hide PaperPassed, Weights, Points, BandFor, PaperPercent, PointOf;
    var p, front := papers[i], papers[..i];
    var m := MarkOf(marks, p);
    assert papers[..i + 1][..i] == front && papers[..i + 1][i] == p;
    SumsAppend(MarksParts(front, marks), Part(MaxTotal(p), Obtained(m) * 10000));
    SumsAppend(CreditParts(scale, front, marks), Part(CreditsOf(p), CreditsOf(p) * PointOf(scale, p, m)));
    assert forall j :: 0 <= j < i ==> papers[..i + 1][j] == front[j];
  }

  // ------------------------------------------------------------------ pass or fail

  /** The rule as documented: every subject's total reaches its pass marks and the overall band is no fail band. */
  predicate DocumentedPass(scale: Scale, papers: seq<Paper>, marks: map<nat, Mark>) {
    (forall i :: 0 <= i < |papers| ==>
       IsExempt(MarkOf(marks, papers[i]))
       || (MarkOf(marks, papers[i]).Some? && MarkOf(marks, papers[i]).value.status.Present?
           && Obtained(MarkOf(marks, papers[i])) >= papers[i].passMarks))
    && !FailBand(BandFor(scale.bands, Average(MarksParts(papers, marks))))
  }

  /** No paper's own percentage falls in a fail band. */
  predicate NoFailBandPaper(scale: Scale, papers: seq<Paper>, marks: map<nat, Mark>) {
    forall i :: 0 <= i < |papers| && !IsExempt(MarkOf(marks, papers[i])) ==>
      !FailBand(BandFor(scale.bands, PaperPercent(papers[i], MarkOf(marks, papers[i]))))
  }

  /** The code passes a student exactly under the documented rule and when no paper is in a fail band. */
  lemma PassedExactly(scale: Scale, papers: seq<Paper>, marks: map<nat, Mark>)
    ensures OutcomeOf(scale, papers, marks).passed
            <==> DocumentedPass(scale, papers, marks) && NoFailBandPaper(scale, papers, marks)
  {
    hide BandFor, Average, PaperPercent;
    if OutcomeOf(scale, papers, marks).passed {
      forall i | 0 <= i < |papers| && !IsExempt(MarkOf(marks, papers[i]))
        ensures PaperPassed(scale, papers[i], MarkOf(marks, papers[i]))
      {
      }
    }
  }

  /** 40 out of 100 with pass marks 35 is failed when bands below 45 are fail bands, though 67.50 overall is not. */
  lemma DocumentedRuleIsNotEnough()
    ensures var scale := Scale([Band("A", 4500, 0, false), Band("E", 0, 0, true)], false);
            var papers := [Paper(1, 1, 1, 10000, 0, 3500, None), Paper(2, 1, 2, 10000, 0, 3500, None)];
            var marks := map[1 := Mark(Some(4000), None, Present), 2 := Mark(Some(9500), None, Present)];
            DocumentedPass(scale, papers, marks) && !OutcomeOf(scale, papers, marks).passed
  {
    var scale := Scale([Band("A", 4500, 0, false), Band("E", 0, 0, true)], false);
    var p, q := Paper(1, 1, 1, 10000, 0, 3500, None), Paper(2, 1, 2, 10000, 0, 3500, None);
    var marks: map<nat, Mark> := map[1 := Mark(Some(4000), None, Present), 2 := Mark(Some(9500), None, Present)];
    var papers := [p, q];
    assert papers[..1] == [p] && papers[..1][..0] == [];
    var parts := [Part(10000, 40000000), Part(10000, 95000000)];
    assert MarksParts([p], marks) == [parts[0]];
    assert MarksParts(papers, marks) == parts;
    assert parts[1..] == [parts[1]] && parts[1..][1..] == [];
    assert Weights(parts) == 20000 && Points(parts) == 135000000;
    assert Average(parts) == 6750;
    assert PaperPercent(p, MarkOf(marks, p)) == 4000;
    assert scale.bands[1..] == [Band("E", 0, 0, true)];
    assert FailBand(BandFor(scale.bands, 4000)) && !FailBand(BandFor(scale.bands, 6750));
    assert !PaperPassed(scale, papers[0], MarkOf(marks, papers[0]));
  }

  // ------------------------------------------------------------------ percentages in range

  predicate AllFit(papers: seq<Paper>, marks: map<nat, Mark>) {
    forall p :: p in papers ==>
      p.maxTheory >= 0 && p.maxPractical >= 0 && (MarkOf(marks, p).Some? ==> M.Fits(p, MarkOf(marks, p).value))
  }

  predicate Counted(p: Paper, marks: map<nat, Mark>) {
    !IsExempt(MarkOf(marks, p)) && MaxTotal(p) > 0
  }

  lemma RateInRange(points: int, weight: int)
    requires 0 <= points <= weight * 10000 && weight >= 0
    ensures 0 <= Rate(points, weight) <= 10000
  {
    if weight > 0 {
      var q := points as real / weight as real;
      assert q * weight as real == points as real;
      assert (weight * 10000) as real == 10000.0 * weight as real;
      assert 0.0 <= q <= 10000.0;
      Between(0, q, 10000);
    }
  }

  /** Accepted marks give a percentage between 0 and 100 in every paper. */
  lemma PaperPercentInRange(p: Paper, m: Option<Mark>)
    requires p.maxTheory >= 0 && p.maxPractical >= 0 && (m.Some? ==> M.Fits(p, m.value))
    ensures 0 <= Obtained(m) <= MaxTotal(p) && 0 <= PaperPercent(p, m) <= 10000
  {
    RateInRange(Obtained(m) * 10000, MaxTotal(p));
  }

  lemma {:induction false} MarksPartsBetween(papers: seq<Paper>, marks: map<nat, Mark>, lo: int, hi: int)
    requires AllFit(papers, marks)
    requires forall p :: p in papers && Counted(p, marks) ==> lo <= PaperPercent(p, MarkOf(marks, p)) <= hi
    ensures Sound(MarksParts(papers, marks)) && AllWithin(MarksParts(papers, marks), lo, hi)
  {
    hide RoundHalfUp;
    if papers != [] {
      var p := papers[|papers| - 1];
      MarksPartsBetween(papers[..|papers| - 1], marks, lo, hi);
      PaperPercentInRange(p, MarkOf(marks, p));
    }
  }

  /** The overall percentage lies between the lowest and the highest percentage of the papers that count. */
  lemma OverallBetweenPapers(scale: Scale, papers: seq<Paper>, marks: map<nat, Mark>, lo: int, hi: int)
    requires AllFit(papers, marks)
    requires forall p :: p in papers && Counted(p, marks) ==> lo <= PaperPercent(p, MarkOf(marks, p)) <= hi
    ensures var o := OutcomeOf(scale, papers, marks);
            if o.maxTotal == 0 then o.percentage == 0 else lo <= o.percentage <= hi
  {
    MarksPartsBetween(papers, marks, lo, hi);
    if Weights(MarksParts(papers, marks)) != 0 {
      AverageBetween(MarksParts(papers, marks), lo, hi);
    }
  }

  /** The register's marks of one student, by paper. */
  function StudentMarks(marks: map<(nat, nat), Mark>, student: nat): map<nat, Mark> {
    map key | key in marks && key.1 == student :: key.0 := marks[key]
  }

  /** After any run of saving, locking and unlocking, all percentages lie between 0 and 100. */
  lemma PercentagesAlwaysInRange(cfg: M.Config, ops: seq<M.Op>, scale: Scale, papers: seq<Paper>, student: nat)
    requires M.PapersNamed(cfg) && forall p :: p in papers ==> cfg.paper(p.id) == p && p.maxTheory >= 0 && p.maxPractical >= 0
    ensures var marks := StudentMarks(M.Run(cfg, M.EMPTY, ops).marks, student);
            (forall p :: p in papers ==> 0 <= PaperPercent(p, MarkOf(marks, p)) <= 10000)
            && 0 <= OutcomeOf(scale, papers, marks).percentage <= 10000
  {
    M.MarksAlwaysFit(cfg, ops);
    var all := M.Run(cfg, M.EMPTY, ops).marks;
    var marks := StudentMarks(all, student);
    forall p | p in papers && MarkOf(marks, p).Some? ensures M.Fits(p, MarkOf(marks, p).value) {
      assert (p.id, student) in all && marks[p.id] == all[(p.id, student)];
    }
    forall p | p in papers ensures 0 <= PaperPercent(p, MarkOf(marks, p)) <= 10000 {
      PaperPercentInRange(p, MarkOf(marks, p));
    }
    OverallBetweenPapers(scale, papers, marks, 0, 10000);
  }

  // ------------------------------------------------------------------ the whole class

  datatype Row = Row(student: nat, section: Option<nat>, outcome: Outcome, rankClass: nat, rankSection: nat)

  function EntrantsOf(scale: Scale, papers: seq<Paper>, everyone: seq<(nat, Option<nat>)>,
                      marks: map<(nat, nat), Mark>): seq<Entrant>
  {
    seq(|everyone|, i requires 0 <= i < |everyone| =>
      Entrant(everyone[i].0, everyone[i].1, OutcomeOf(scale, papers, StudentMarks(marks, everyone[i].0)).percentage))
  }

  /** exam_results: every student's outcome, ranked in the class and in the section. */
  method ClassResults(scale: Scale, papers: seq<Paper>, everyone: seq<(nat, Option<nat>)>, marks: map<(nat, nat), Mark>)
    returns (rows: seq<Row>)
    ensures |rows| == |everyone|
    ensures var es := EntrantsOf(scale, papers, everyone, marks);
            forall k :: 0 <= k < |rows| ==>
              rows[k].student == everyone[k].0 && rows[k].section == everyone[k].1
              && rows[k].outcome == OutcomeOf(scale, papers, StudentMarks(marks, everyone[k].0))
              && rows[k].rankClass == 1 + Above(ItemsOf(es), rows[k].outcome.percentage)
              && SectionRank(es, rows[k].student, rows[k].rankSection)
              && rows[k].rankSection <= rows[k].rankClass
  {
    hide OutcomeOf, StudentMarks, Above, ItemsOf, SectionRank;
    ghost var all := EntrantsOf(scale, papers, everyone, marks);
    var es: seq<Entrant>, outcomes: seq<Outcome> := [], [];
    for k := 0 to |everyone|
      invariant es == all[..k] && |outcomes| == k
      invariant forall i :: 0 <= i < k ==> outcomes[i] == OutcomeOf(scale, papers, StudentMarks(marks, everyone[i].0))
    {
      var o := StudentResult(scale, papers, StudentMarks(marks, everyone[k].0));
      outcomes := outcomes + [o];
      es := es + [Entrant(everyone[k].0, everyone[k].1, o.percentage)];
    }
    assert es == all;
    var classRank, sectionRank := Ranks(es);
    rows := [];
    for k := 0 to |everyone|
      invariant |rows| == k
      invariant forall i :: 0 <= i < k ==>
                  rows[i] == Row(everyone[i].0, everyone[i].1, outcomes[i], classRank[es[i].student], sectionRank[es[i].student])
    {
      assert Ranked(ItemsOf(es), classRank, Item(es[k].student, es[k].percent));
      SectionRankAtMostClassRank(es, k, sectionRank[es[k].student]);
      rows := rows + [Row(everyone[k].0, everyone[k].1, outcomes[k], classRank[es[k].student], sectionRank[es[k].student])];
    }
    forall k | 0 <= k < |rows|
      ensures rows[k].rankClass == 1 + Above(ItemsOf(es), rows[k].outcome.percentage) && rows[k].rankSection <= rows[k].rankClass
    {
      assert Ranked(ItemsOf(es), classRank, Item(es[k].student, es[k].percent));
      SectionRankAtMostClassRank(es, k, sectionRank[es[k].student]);
    }
  }
}
