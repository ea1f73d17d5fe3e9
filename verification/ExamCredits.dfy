/** Grade point averages (apps/exam/services.py): when SGPA and CGPA stay within the scale. */
module ExamCredits {
  /*
   Nothing checks that credits are positive. The averages here are compared exactly, before q2: points
   against credits times the bound. What lies within whole bounds still does after rounding.
   */
  import opened Wrappers
  import opened Rounding
  import opened Sums
  import opened ExamModel
  import opened ExamAverages
  import opened ExamResults
  import M = ExamMarks

  // ------------------------------------------------------------------ bounds on one average

  /** lo <= points / weight <= hi, multiplied out. */
  predicate ExactWithin(points: int, weight: int, lo: int, hi: int) {
    (weight > 0 ==> lo * weight <= points <= hi * weight) && (weight < 0 ==> hi * weight <= points <= lo * weight)
  }

  lemma Multiplied(points: int, weight: int, x: int)
    requires weight > 0
    ensures x * weight <= points <==> x as real <= points as real / weight as real
    ensures points <= x * weight <==> points as real / weight as real <= x as real
  {
    assert (x * weight) as real == x as real * weight as real;
    Compare(points, weight, x as real);
  }

  lemma PositiveWeight(points: int, weight: int, lo: int, hi: int)
    requires weight > 0
    ensures lo * weight <= points <= hi * weight <==> lo as real <= points as real / weight as real <= hi as real
  {
    Multiplied(points, weight, lo);
    Multiplied(points, weight, hi);
  }

  lemma BothNegated(points: int, weight: int)
    requires weight < 0
    ensures (-points) as real / (-weight) as real == points as real / weight as real
  {
    assert (-points) as real == -(points as real) && (-weight) as real == -(weight as real);
  }

  lemma NegativeWeight(points: int, weight: int, lo: int, hi: int)
    requires weight < 0
    ensures hi * weight <= points <= lo * weight <==> lo as real <= points as real / weight as real <= hi as real
  {
    PositiveWeight(-points, -weight, lo, hi);
    BothNegated(points, weight);
    assert lo * -weight == -(lo * weight) && hi * -weight == -(hi * weight);
  }

  lemma RoundsWithin(points: int, weight: int, lo: int, hi: int)
    requires weight != 0 && lo as real <= points as real / weight as real <= hi as real
    ensures lo <= Rate(points, weight) <= hi
  {
    Between(lo, points as real / weight as real, hi);
  }

  /** The multiplied bounds are those of the exact average, and its rounding keeps them. */
  lemma ExactWithinIsBetween(points: int, weight: int, lo: int, hi: int)
    requires weight != 0
    ensures ExactWithin(points, weight, lo, hi) <==> lo as real <= points as real / weight as real <= hi as real
    ensures ExactWithin(points, weight, lo, hi) ==> lo <= Rate(points, weight) <= hi
  {
    hide Rate;
    if weight > 0 {
      PositiveWeight(points, weight, lo, hi);
    } else {
      NegativeWeight(points, weight, lo, hi);
    }
    if ExactWithin(points, weight, lo, hi) {
      RoundsWithin(points, weight, lo, hi);
    }
  }

  lemma Scaled(c: int, x: int, lo: int, hi: int)
    requires lo <= x <= hi
    ensures c >= 0 ==> lo * c <= c * x <= hi * c
    ensures c <= 0 ==> hi * c <= c * x <= lo * c
  {
    if c >= 0 {
      assert c * (x - lo) >= 0 && c * (hi - x) >= 0;
    } else {
      assert c * (x - lo) <= 0 && c * (hi - x) <= 0;
    }
  }

  lemma OneTermMore(x: int, a: int, c: int)
    ensures x * (a + c) == x * a + c * x
  {
  }

  lemma MoreThanWhole(top: int, e: int, w: int)
    requires top > 0
    ensures e > w ==> top * e > top * w
    ensures e < w ==> top * e < top * w
  {
    assert top * e - top * w == top * (e - w);
  }

  // ------------------------------------------------------------------ SGPA

  predicate WithinScale(scale: Scale, bottom: int, top: int) {
    bottom <= 0 <= top && forall b :: b in scale.bands ==> bottom <= b.point <= top
  }

  lemma {:induction false} FoundInBands(bands: seq<Band>, percent: int)
    ensures BandFor(bands, percent).Some? ==> BandFor(bands, percent).value in bands
  {
    if bands != [] {
      FoundInBands(bands[1..], percent);
    }
  }

  lemma PointInScale(scale: Scale, p: Paper, m: Option<Mark>, bottom: int, top: int)
    requires WithinScale(scale, bottom, top)
    ensures bottom <= PointOf(scale, p, m) <= top
  {
    FoundInBands(scale.bands, PaperPercent(p, m));
  }

  /** The credits of all papers are positive, or all are negative. */
  predicate SameSign(papers: seq<Paper>) {
    (forall p :: p in papers ==> CreditsOf(p) > 0) || (forall p :: p in papers ==> CreditsOf(p) < 0)
  }

  /** Two papers whose credits cancel: together they count for nothing. */
  predicate CancellingPair(papers: seq<Paper>) {
    |papers| == 2 && CreditsOf(papers[0]) + CreditsOf(papers[1]) == 0
  }

  lemma {:induction false} CreditSumsWithin(scale: Scale, papers: seq<Paper>, marks: map<nat, Mark>, bottom: int, top: int)
    requires WithinScale(scale, bottom, top)
    ensures var w, p := Weights(CreditParts(scale, papers, marks)), Points(CreditParts(scale, papers, marks));
            ((forall x :: x in papers ==> CreditsOf(x) > 0) ==> w >= 0 && bottom * w <= p <= top * w)
            && ((forall x :: x in papers ==> CreditsOf(x) < 0) ==> w <= 0 && top * w <= p <= bottom * w)
  {
    hide PointOf, CreditsOf, IsExempt, WithinScale;
    if papers != [] {
      var front, x := papers[..|papers| - 1], papers[|papers| - 1];
      assert papers == front + [x];
      CreditSumsWithin(scale, front, marks, bottom, top);
      var c, g := CreditsOf(x), PointOf(scale, x, MarkOf(marks, x));
      PointInScale(scale, x, MarkOf(marks, x), bottom, top);
      Scaled(c, g, bottom, top);
      SumsAppend(CreditParts(scale, front, marks), Part(c, c * g));
      OneTermMore(bottom, Weights(CreditParts(scale, front, marks)), c);
      OneTermMore(top, Weights(CreditParts(scale, front, marks)), c);
    }
  }

  /** The SGPA stays between the bottom and the top grade point when no two credits have opposite signs. */
  lemma SgpaWithinScale(scale: Scale, papers: seq<Paper>, marks: map<nat, Mark>, bottom: int, top: int)
    requires scale.credit && WithinScale(scale, bottom, top) && SameSign(papers)
    ensures bottom <= OutcomeOf(scale, papers, marks).sgpa.value <= top
  {
    var parts := CreditParts(scale, papers, marks);
    CreditSumsWithin(scale, papers, marks, bottom, top);
    if Weights(parts) != 0 {
      ExactWithinIsBetween(Points(parts), Weights(parts), bottom, top);
    }
  }

  /** Whatever marks fit the papers, the exact average of grade points stays within the scale. */
  ghost predicate AlwaysWithin(scale: Scale, papers: seq<Paper>, bottom: int, top: int) {
    forall marks: map<nat, Mark> :: AllFit(papers, marks) ==> WithinFor(scale, papers, marks, bottom, top)
  }

  predicate WithinFor(scale: Scale, papers: seq<Paper>, marks: map<nat, Mark>, bottom: int, top: int) {
    ExactWithin(Points(CreditParts(scale, papers, marks)), Weights(CreditParts(scale, papers, marks)), bottom, top)
  }

  predicate Earns(scale: Scale, p: Paper, m: Mark, point: int) {
    M.Fits(p, m) && m.status.Present? && PointOf(scale, p, Some(m)) == point
  }

  ghost predicate Reaches(scale: Scale, p: Paper, point: int) {
    exists m :: Earns(scale, p, m, point)
  }

  /** Papers set for an exam: distinct, with sensible maxima, and with the top point within reach in each. */
  ghost predicate WellSet(scale: Scale, papers: seq<Paper>, top: int) {
    (forall i, j :: 0 <= i < j < |papers| ==> papers[i].id != papers[j].id)
    && forall p :: p in papers ==> p.maxTheory >= 0 && p.maxPractical >= 0 && Reaches(scale, p, top)
  }

  const ABSENT := Mark(None, None, Absent)
  const EXEMPT := Mark(None, None, Exempt)

  /** One chosen mark for each paper. */
  function Chosen(papers: seq<Paper>, ms: seq<Mark>): map<nat, Mark>
    requires |ms| == |papers|
  {
    if papers == [] then map[]
    else Chosen(papers[..|papers| - 1], ms[..|ms| - 1])[papers[|papers| - 1].id := ms[|ms| - 1]]
  }

  lemma {:induction false} ChosenAre(papers: seq<Paper>, ms: seq<Mark>, i: nat)
    requires |ms| == |papers| && i < |papers|
    requires forall i, j :: 0 <= i < j < |papers| ==> papers[i].id != papers[j].id
    ensures MarkOf(Chosen(papers, ms), papers[i]) == Some(ms[i])
  {
    if i < |papers| - 1 {
      ChosenAre(papers[..|papers| - 1], ms[..|ms| - 1], i);
    }
  }

  lemma {:induction false} BestMarks(scale: Scale, papers: seq<Paper>, top: int) returns (best: seq<Mark>)
    requires forall p :: p in papers ==> Reaches(scale, p, top)
    ensures |best| == |papers| && forall i :: 0 <= i < |papers| ==> Earns(scale, papers[i], best[i], top)
  {
    best := [];
    if papers != [] {
      var rest := BestMarks(scale, papers[..|papers| - 1], top);
      assert papers[|papers| - 1] in papers;
      var m :| Earns(scale, papers[|papers| - 1], m, top);
      best := rest + [m];
    }
  }

  /** The credits of the papers below n that are in a set. */
  function CreditsIn(papers: seq<Paper>, which: set<nat>, n: nat): int
    requires n <= |papers|
  {
    if n == 0 then 0 else CreditsIn(papers, which, n - 1) + (if n - 1 in which then CreditsOf(papers[n - 1]) else 0)
  }

  lemma {:induction false} CreditsInAdd(papers: seq<Paper>, which: set<nat>, k: nat, n: nat)
    requires n <= |papers| && k !in which
    ensures CreditsIn(papers, which + {k}, n) == CreditsIn(papers, which, n) + (if k < n then CreditsOf(papers[k]) else 0)
  {
    if n > 0 {
      CreditsInAdd(papers, which, k, n - 1);
    }
  }

  lemma {:induction false} CreditsInNone(papers: seq<Paper>, n: nat)
    requires n <= |papers|
    ensures CreditsIn(papers, {}, n) == 0
  {
    if n > 0 {
      CreditsInNone(papers, n - 1);
    }
  }

  /** Top marks for the earners, absent for the other counted papers, exempt from the rest. */
  predicate Assigned(scale: Scale, papers: seq<Paper>, marks: map<nat, Mark>, counted: set<nat>, earn: set<nat>, top: int) {
    forall i :: 0 <= i < |papers| ==>
      var m := MarkOf(marks, papers[i]);
      (IsExempt(m) <==> i !in counted)
      && PointOf(scale, papers[i], m) == if i in earn then top else 0
  }

  lemma {:induction false} AssignedSums(scale: Scale, papers: seq<Paper>, marks: map<nat, Mark>,
                                        counted: set<nat>, earn: set<nat>, top: int, n: nat)
    requires Assigned(scale, papers, marks, counted, earn, top) && earn <= counted && n <= |papers|
    ensures Weights(CreditParts(scale, papers[..n], marks)) == CreditsIn(papers, counted, n)
    ensures Points(CreditParts(scale, papers[..n], marks)) == top * CreditsIn(papers, earn, n)
  {
    hide PointOf, CreditsOf, IsExempt, Weights, Points;
    if n == 0 {
      NoSums();
    } else {
      AssignedSums(scale, papers, marks, counted, earn, top, n - 1);
      OneMore(scale, papers, marks, n - 1);
      OneTermMore(top, CreditsIn(papers, earn, n - 1), CreditsOf(papers[n - 1]));
    }
  }

  /** The mark of a paper that is to be earned, counted or left out. */
  function MarkFor(best: Mark, counted: bool, earn: bool): Mark {
    if earn then best else if counted then ABSENT else EXEMPT
  }

  lemma MarkForEarns(scale: Scale, p: Paper, best: Mark, counted: bool, earn: bool, top: int)
    requires Earns(scale, p, best, top) && (earn ==> counted)
    ensures var m := MarkFor(best, counted, earn);
            M.Fits(p, m) && (IsExempt(Some(m)) <==> !counted) && PointOf(scale, p, Some(m)) == if earn then top else 0
  {
  }

  function MarksFor(best: seq<Mark>, counted: set<nat>, earn: set<nat>): seq<Mark> {
    seq(|best|, i requires 0 <= i < |best| => MarkFor(best[i], i in counted, i in earn))
  }

  ghost predicate DistinctPapers(papers: seq<Paper>) {
    forall i, j :: 0 <= i < j < |papers| ==> papers[i].id != papers[j].id
  }

  lemma ChosenMark(scale: Scale, papers: seq<Paper>, best: seq<Mark>, counted: set<nat>, earn: set<nat>, top: int, i: nat)
    requires DistinctPapers(papers) && |best| == |papers| && i < |papers| && Earns(scale, papers[i], best[i], top) && earn <= counted
    ensures MarkedAt(scale, papers[i], MarkOf(Chosen(papers, MarksFor(best, counted, earn)), papers[i]), i in counted, i in earn, top)
  {
    ChosenAre(papers, MarksFor(best, counted, earn), i);
    MarkForEarns(scale, papers[i], best[i], i in counted, i in earn, top);
    hide Earns, IsExempt, PointOf, Chosen, MarkFor, MarkOf, M.Fits;
  }

  /** Every paper has a mark that fits it, and counts and earns as it should. */
  predicate Marked(scale: Scale, papers: seq<Paper>, marks: map<nat, Mark>, counted: set<nat>, earn: set<nat>, top: int) {
    forall i :: 0 <= i < |papers| ==> MarkedAt(scale, papers[i], MarkOf(marks, papers[i]), i in counted, i in earn, top)
  }

  predicate MarkedAt(scale: Scale, p: Paper, m: Option<Mark>, counted: bool, earn: bool, top: int) {
    m.Some? && M.Fits(p, m.value) && (IsExempt(m) <==> !counted) && PointOf(scale, p, m) == if earn then top else 0
  }

  lemma MarkedFits(scale: Scale, papers: seq<Paper>, marks: map<nat, Mark>, counted: set<nat>, earn: set<nat>, top: int)
    requires WellSet(scale, papers, top) && Marked(scale, papers, marks, counted, earn, top)
    ensures AllFit(papers, marks)
  {
    hide IsExempt, PointOf, MarkOf, M.Fits, Reaches;
    forall p | p in papers ensures MarkOf(marks, p).Some? && M.Fits(p, MarkOf(marks, p).value) {
      var i :| 0 <= i < |papers| && papers[i] == p;
      assert MarkedAt(scale, papers[i], MarkOf(marks, papers[i]), i in counted, i in earn, top);
    }
  }

  lemma MarkedAssigns(scale: Scale, papers: seq<Paper>, marks: map<nat, Mark>, counted: set<nat>, earn: set<nat>, top: int)
    requires Marked(scale, papers, marks, counted, earn, top)
    ensures Assigned(scale, papers, marks, counted, earn, top)
  {
    hide IsExempt, PointOf, MarkOf, M.Fits;
    forall i | 0 <= i < |papers| ensures MarkedAt(scale, papers[i], MarkOf(marks, papers[i]), i in counted, i in earn, top) {
    }
  }

  lemma Assign(scale: Scale, papers: seq<Paper>, counted: set<nat>, earn: set<nat>, top: int) returns (marks: map<nat, Mark>)
    requires WellSet(scale, papers, top) && earn <= counted
    ensures AllFit(papers, marks) && Assigned(scale, papers, marks, counted, earn, top)
  {
    var best := BestMarks(scale, papers, top);
    marks := Chosen(papers, MarksFor(best, counted, earn));
    assert DistinctPapers(papers);
    hide Earns, DistinctPapers, Chosen, MarksFor, MarkOf, MarkedAt, WellSet, AllFit, Assigned;
    forall i | 0 <= i < |papers| ensures MarkedAt(scale, papers[i], MarkOf(marks, papers[i]), i in counted, i in earn, top) {
      ChosenMark(scale, papers, best, counted, earn, top, i);
    }
    MarkedFits(scale, papers, marks, counted, earn, top);
    MarkedAssigns(scale, papers, marks, counted, earn, top);
  }

  /** More earned than counted: those marks take the average over the top. */
  lemma EarnedMoreLeaves(scale: Scale, papers: seq<Paper>, counted: set<nat>, earn: set<nat>, bottom: int, top: int)
    returns (marks: map<nat, Mark>)
    requires WellSet(scale, papers, top) && top > 0 && earn <= counted
    requires var w, e := CreditsIn(papers, counted, |papers|), CreditsIn(papers, earn, |papers|);
             (w > 0 && e > w) || (w < 0 && e < w)
    ensures AllFit(papers, marks) && Assigned(scale, papers, marks, counted, earn, top)
    ensures !WithinFor(scale, papers, marks, bottom, top)
  {
    hide Assigned, AllFit, WellSet, CreditsIn, CreditParts, Weights, Points;
    marks := Assign(scale, papers, counted, earn, top);
    AssignedSums(scale, papers, marks, counted, earn, top, |papers|);
    assert papers[..|papers|] == papers;
    MoreThanWhole(top, CreditsIn(papers, earn, |papers|), CreditsIn(papers, counted, |papers|));
  }

  /** Two papers of opposite signs that do not cancel: the marks that leave the scale, all other papers exempt. */
  lemma OppositeCreditsLeave(scale: Scale, papers: seq<Paper>, i: nat, j: nat, bottom: int, top: int)
    returns (marks: map<nat, Mark>)
    requires WellSet(scale, papers, top) && top > 0 && i < |papers| && j < |papers|
    requires CreditsOf(papers[i]) > 0 > CreditsOf(papers[j]) && CreditsOf(papers[i]) + CreditsOf(papers[j]) != 0
    ensures AllFit(papers, marks) && !WithinFor(scale, papers, marks, bottom, top)
    ensures forall k :: 0 <= k < |papers| ==> (IsExempt(MarkOf(marks, papers[k])) <==> k != i && k != j)
  {
    var e := if CreditsOf(papers[i]) + CreditsOf(papers[j]) > 0 then i else j;
    var o := if e == i then j else i;
    CreditsInNone(papers, |papers|);
    CreditsInAdd(papers, {}, e, |papers|);
    CreditsInAdd(papers, {e}, o, |papers|);
    assert {} + {e} == {e};
    hide CreditsIn, WithinFor;
    marks := EarnedMoreLeaves(scale, papers, {e} + {o}, {e}, bottom, top);
  }

  /** Three papers, two of one sign, that cancel pairwise: with the two at the top the average is twice the top. */
  lemma ThreeCreditsLeave(scale: Scale, papers: seq<Paper>, i: nat, k: nat, j: nat, bottom: int, top: int)
    returns (marks: map<nat, Mark>)
    requires WellSet(scale, papers, top) && top > 0 && i < |papers| && j < |papers| && k < |papers| && i != k
    requires CreditsOf(papers[i]) == CreditsOf(papers[k]) == -CreditsOf(papers[j]) != 0
    ensures AllFit(papers, marks) && !WithinFor(scale, papers, marks, bottom, top)
  {
    CreditsInNone(papers, |papers|);
    CreditsInAdd(papers, {}, i, |papers|);
    CreditsInAdd(papers, {i}, k, |papers|);
    CreditsInAdd(papers, {i, k}, j, |papers|);
    assert {} + {i} == {i} && {i} + {k} == {i, k};
    hide CreditsIn, WithinFor;
    marks := EarnedMoreLeaves(scale, papers, {i, k} + {j}, {i, k}, bottom, top);
  }

  /** Of two cancelling papers, one counts alone or neither does. */
  lemma CancellingPairWithin(scale: Scale, papers: seq<Paper>, marks: map<nat, Mark>, bottom: int, top: int)
    requires WithinScale(scale, bottom, top) && CancellingPair(papers)
    ensures WithinFor(scale, papers, marks, bottom, top)
  {
    hide PointOf, CreditsOf, IsExempt, Weights, Points, WithinScale;
    var p, q := papers[0], papers[1];
    NoSums();
    assert papers[..0] == [] && papers[..2] == papers;
    OneMore(scale, papers, marks, 0);
    OneMore(scale, papers, marks, 1);
    PointInScale(scale, p, MarkOf(marks, p), bottom, top);
    PointInScale(scale, q, MarkOf(marks, q), bottom, top);
    Scaled(CreditsOf(p), PointOf(scale, p, MarkOf(marks, p)), bottom, top);
    Scaled(CreditsOf(q), PointOf(scale, q, MarkOf(marks, q)), bottom, top);
  }

  /**
   The exact SGPA stays within the scale for all marks if and only if no two papers have credits of
   opposite signs, but for a pair that cancels and stands alone.
   */
  lemma SgpaStaysWithinIff(scale: Scale, papers: seq<Paper>, bottom: int, top: int)
    requires WithinScale(scale, bottom, top) && top > 0 && WellSet(scale, papers, top)
    ensures AlwaysWithin(scale, papers, bottom, top) <==> SameSign(papers) || CancellingPair(papers)
  {
    hide WithinFor, WellSet, WithinScale;
    if SameSign(papers) || CancellingPair(papers) {
      forall marks: map<nat, Mark> ensures WithinFor(scale, papers, marks, bottom, top) {
        StaysWithin(scale, papers, marks, bottom, top);
      }
    } else {
      var i, j := OppositeSigns(papers);
      var marks: map<nat, Mark>;
      if CreditsOf(papers[i]) + CreditsOf(papers[j]) != 0 {
        marks := OppositeCreditsLeave(scale, papers, i, j, bottom, top);
      } else {
        var k: nat := if i != 0 && j != 0 then 0 else if i != 1 && j != 1 then 1 else 2;
        if CreditsOf(papers[k]) > 0 && CreditsOf(papers[k]) + CreditsOf(papers[j]) != 0 {
          marks := OppositeCreditsLeave(scale, papers, k, j, bottom, top);
        } else if CreditsOf(papers[k]) < 0 && CreditsOf(papers[k]) + CreditsOf(papers[i]) != 0 {
          marks := OppositeCreditsLeave(scale, papers, i, k, bottom, top);
        } else if CreditsOf(papers[k]) > 0 {
          marks := ThreeCreditsLeave(scale, papers, i, k, j, bottom, top);
        } else {
          marks := ThreeCreditsLeave(scale, papers, j, k, i, bottom, top);
        }
      }
      assert AllFit(papers, marks) && !WithinFor(scale, papers, marks, bottom, top);
    }
  }

  lemma StaysWithin(scale: Scale, papers: seq<Paper>, marks: map<nat, Mark>, bottom: int, top: int)
    requires WithinScale(scale, bottom, top) && (SameSign(papers) || CancellingPair(papers))
    ensures WithinFor(scale, papers, marks, bottom, top)
  {
    if SameSign(papers) {
      CreditSumsWithin(scale, papers, marks, bottom, top);
    } else {
      CancellingPairWithin(scale, papers, marks, bottom, top);
    }
  }

  lemma OppositeSigns(papers: seq<Paper>) returns (i: nat, j: nat)
    requires !SameSign(papers)
    ensures i < |papers| && j < |papers| && CreditsOf(papers[i]) > 0 > CreditsOf(papers[j])
  {
    var p :| p in papers && CreditsOf(p) <= 0;
    var q :| q in papers && CreditsOf(q) >= 0;
    j :| 0 <= j < |papers| && papers[j] == p;
    i :| 0 <= i < |papers| && papers[i] == q;
  }

  // ------------------------------------------------------------------ CGPA

  /** One term-final exam: None when the student has no row in it. */
  datatype Term = Term(sgpa: int, credits: int)

  function TermParts(terms: seq<Option<Term>>): seq<Part> {
    if terms == [] then []
    else
      var rest, t := TermParts(terms[..|terms| - 1]), terms[|terms| - 1];
      if t.None? || t.value.credits == 0 then rest else rest + [Part(t.value.credits, t.value.credits * t.value.sgpa)]
  }

  /** cgpa: nothing when no term carries credits. */
  method Cgpa(terms: seq<Option<Term>>) returns (cgpa: Option<int>, credits: int)
    ensures credits == Weights(TermParts(terms))
    ensures cgpa == if credits == 0 then None else Some(Average(TermParts(terms)))
  {
    hide Rate;
    var cx, cr := 0, 0;
    for i := 0 to |terms|
      invariant cx == Points(TermParts(terms[..i])) && cr == Weights(TermParts(terms[..i]))
    {
      assert terms[..i + 1][..i] == terms[..i] && terms[..i + 1][i] == terms[i];
      if terms[i].None? || terms[i].value.credits == 0 {
        continue;
      }
      var t := terms[i].value;
      SumsAppend(TermParts(terms[..i]), Part(t.credits, t.credits * t.sgpa));
      cx := cx + t.sgpa * t.credits;
      cr := cr + t.credits;
    }
    assert terms[..|terms|] == terms;
    cgpa, credits := if cr == 0 then None else Some(Rate(cx, cr)), cr;
  }

  predicate SameSignTerms(terms: seq<Option<Term>>) {
    (forall t :: t in terms && t.Some? ==> t.value.credits >= 0) || (forall t :: t in terms && t.Some? ==> t.value.credits <= 0)
  }

  predicate TermsWithin(terms: seq<Option<Term>>, lo: int, hi: int) {
    forall t :: t in terms && t.Some? && t.value.credits != 0 ==> lo <= t.value.sgpa <= hi
  }

  lemma TermAdds(w: int, p: int, c: int, x: int, lo: int, hi: int)
    requires lo <= x <= hi
    ensures c >= 0 && lo * w <= p <= hi * w ==> lo * (w + c) <= p + c * x <= hi * (w + c)
    ensures c <= 0 && hi * w <= p <= lo * w ==> hi * (w + c) <= p + c * x <= lo * (w + c)
  {
    Scaled(c, x, lo, hi);
    OneTermMore(lo, w, c);
    OneTermMore(hi, w, c);
  }

  lemma {:induction false} TermSumsWithin(terms: seq<Option<Term>>, lo: int, hi: int)
    requires TermsWithin(terms, lo, hi)
    ensures var w, p := Weights(TermParts(terms)), Points(TermParts(terms));
            ((forall t :: t in terms && t.Some? ==> t.value.credits >= 0) ==> w >= 0 && lo * w <= p <= hi * w)
            && ((forall t :: t in terms && t.Some? ==> t.value.credits <= 0) ==> w <= 0 && hi * w <= p <= lo * w)
  {
    hide Weights, Points;
    NoSums();
    if terms != [] {
      var front, t := terms[..|terms| - 1], terms[|terms| - 1];
      assert t in terms && forall x :: x in front ==> x in terms;
      TermSumsWithin(front, lo, hi);
      if t.Some? && t.value.credits != 0 {
        var c, x, parts := t.value.credits, t.value.sgpa, TermParts(front);
        SumsAppend(parts, Part(c, c * x));
        TermAdds(Weights(parts), Points(parts), c, x, lo, hi);
      }
    }
  }

  /** The CGPA lies between the lowest and the highest SGPA of the terms that carry credits. */
  lemma CgpaBetweenTerms(terms: seq<Option<Term>>, lo: int, hi: int)
    requires SameSignTerms(terms) && TermsWithin(terms, lo, hi) && Weights(TermParts(terms)) != 0
    ensures lo <= Average(TermParts(terms)) <= hi
  {
    TermSumsWithin(terms, lo, hi);
    ExactWithinIsBetween(Points(TermParts(terms)), Weights(TermParts(terms)), lo, hi);
  }

  function TermsOf(credits: seq<int>, sgpas: seq<int>): seq<Option<Term>>
    requires |sgpas| == |credits|
  {
    seq(|credits|, i requires 0 <= i < |credits| => Some(Term(sgpas[i], credits[i])))
  }

  /** Whatever the SGPAs, the exact CGPA stays between their bounds. */
  ghost predicate CgpaAlwaysWithin(credits: seq<int>, lo: int, hi: int) {
    forall sgpas: seq<int> :: SgpasFor(credits, sgpas, lo, hi) ==> CgpaWithin(credits, sgpas, lo, hi)
  }

  predicate SgpasFor(credits: seq<int>, sgpas: seq<int>, lo: int, hi: int) {
    |sgpas| == |credits| && forall i :: 0 <= i < |sgpas| ==> lo <= sgpas[i] <= hi
  }

  predicate CgpaWithin(credits: seq<int>, sgpas: seq<int>, lo: int, hi: int)
    requires |sgpas| == |credits|
  {
    var parts := TermParts(TermsOf(credits, sgpas));
    ExactWithin(Points(parts), Weights(parts), lo, hi)
  }

  predicate SameSignCredits(credits: seq<int>) {
    (forall i :: 0 <= i < |credits| ==> credits[i] >= 0) || (forall i :: 0 <= i < |credits| ==> credits[i] <= 0)
  }

  /** The highest SGPA in the terms whose credits have the given sign, the lowest in the others. */
  function Extreme(credits: seq<int>, positive: bool, lo: int, hi: int): seq<int> {
    seq(|credits|, i requires 0 <= i < |credits| => if (credits[i] > 0) == positive then hi else lo)
  }

  function SumOf(credits: seq<int>, positive: bool): int {
    if credits == [] then 0
    else
      var c := credits[|credits| - 1];
      SumOf(credits[..|credits| - 1], positive) + (if (c > 0) == positive then c else 0)
  }

  lemma {:induction false} SumOfSigns(credits: seq<int>)
    ensures SumOf(credits, true) >= 0 && (SumOf(credits, true) > 0 <==> exists i :: 0 <= i < |credits| && credits[i] > 0)
    ensures SumOf(credits, false) <= 0 && (SumOf(credits, false) < 0 <==> exists i :: 0 <= i < |credits| && credits[i] < 0)
    ensures SumOf(credits, true) + SumOf(credits, false) == Sum(credits)
  {
    if credits != [] {
      var front := credits[..|credits| - 1];
      SumOfSigns(front);
      assert forall i :: 0 <= i < |front| ==> front[i] == credits[i];
    }
  }

  lemma {:induction false} ExtremeSums(credits: seq<int>, positive: bool, lo: int, hi: int)
    ensures var parts := TermParts(TermsOf(credits, Extreme(credits, positive, lo, hi)));
            Weights(parts) == Sum(credits) && Points(parts) == hi * SumOf(credits, positive) + lo * SumOf(credits, !positive)
  {
    if credits != [] {
      var front, c := credits[..|credits| - 1], credits[|credits| - 1];
      ExtremeSums(front, positive, lo, hi);
      var x := if (c > 0) == positive then hi else lo;
      var before, terms := TermsOf(front, Extreme(front, positive, lo, hi)), TermsOf(credits, Extreme(credits, positive, lo, hi));
      assert terms[..|terms| - 1] == before && terms[|terms| - 1] == Some(Term(x, c));
      SumsAppend(TermParts(before), Part(c, c * x));
      OneTermMore(hi, SumOf(front, positive), c);
      OneTermMore(lo, SumOf(front, !positive), c);
    }
  }

  lemma {:induction false} TermWeights(credits: seq<int>, sgpas: seq<int>)
    requires |sgpas| == |credits|
    ensures Weights(TermParts(TermsOf(credits, sgpas))) == Sum(credits)
  {
    if credits != [] {
      var front, c := credits[..|credits| - 1], credits[|credits| - 1];
      TermWeights(front, sgpas[..|front|]);
      var before, terms := TermsOf(front, sgpas[..|front|]), TermsOf(credits, sgpas);
      assert terms[..|terms| - 1] == before;
      SumsAppend(TermParts(before), Part(c, c * sgpas[|front|]));
    }
  }

  /** The exact CGPA stays between the SGPAs' bounds for all SGPAs exactly when no credits have opposite signs, or they cancel. */
  lemma CgpaStaysWithinIff(credits: seq<int>, lo: int, hi: int)
    requires lo < hi
    ensures CgpaAlwaysWithin(credits, lo, hi) <==> Sum(credits) == 0 || SameSignCredits(credits)
  {
    hide SumOf, Sum, TermParts, TermsOf;
    if Sum(credits) == 0 || SameSignCredits(credits) {
      forall sgpas: seq<int> | SgpasFor(credits, sgpas, lo, hi) ensures CgpaWithin(credits, sgpas, lo, hi) {
        CgpaStays(credits, sgpas, lo, hi);
      }
    } else {
      CgpaLeaves(credits, lo, hi);
    }
  }

  lemma CgpaStays(credits: seq<int>, sgpas: seq<int>, lo: int, hi: int)
    requires SgpasFor(credits, sgpas, lo, hi) && (Sum(credits) == 0 || SameSignCredits(credits))
    ensures CgpaWithin(credits, sgpas, lo, hi)
  {
    hide TermParts;
    TermWeights(credits, sgpas);
    if Sum(credits) != 0 {
      TermSumsWithin(TermsOf(credits, sgpas), lo, hi);
    }
  }

  lemma CgpaLeaves(credits: seq<int>, lo: int, hi: int)
    requires lo < hi && Sum(credits) != 0 && !SameSignCredits(credits)
    ensures !CgpaAlwaysWithin(credits, lo, hi)
  {
    hide SumOf, Sum, TermParts, TermsOf;
    var positive := Sum(credits) > 0;
    var sgpas := Extreme(credits, positive, lo, hi);
    SumOfSigns(credits);
    ExtremeSums(credits, positive, lo, hi);
    var a, b := SumOf(credits, positive), SumOf(credits, !positive);
    assert hi * (a + b) - (hi * a + lo * b) == (hi - lo) * b;
    if positive {
      assert (hi - lo) * b < 0;
    } else {
      assert (hi - lo) * b > 0;
    }
    assert SgpasFor(credits, sgpas, lo, hi) && !CgpaWithin(credits, sgpas, lo, hi);
  }
}
