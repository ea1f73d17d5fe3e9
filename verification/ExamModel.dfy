/** Grade scales, papers, marks and what they come to (apps/exam/models.py). */
module ExamModel {
  /*
   Marks, percentages, grade points and weightages are whole hundredths; credits are whole tenths.
   */
  import opened Wrappers
  import opened Rounding

  datatype Band = Band(grade: string, min: int, point: int, fail: bool)

  /** Bands are read in descending order of their minimum. */
  datatype Scale = Scale(bands: seq<Band>, credit: bool)

  datatype Status = Present | Absent | Exempt

  datatype Mark = Mark(theory: Option<int>, practical: Option<int>, status: Status)

  datatype Paper = Paper(id: nat, exam: nat, subject: nat, maxTheory: int, maxPractical: int, passMarks: int, credits: Option<int>)

  function MaxTotal(p: Paper): int {
    p.maxTheory + p.maxPractical
  }

  predicate Descending(bands: seq<Band>) {
    forall i, j :: 0 <= i < j < |bands| ==> bands[i].min >= bands[j].min
  }

  /** band_for: the first band whose minimum is reached. */
  function BandFor(bands: seq<Band>, percent: int): Option<Band> {
    if bands == [] then None
    else if percent >= bands[0].min then Some(bands[0])
    else BandFor(bands[1..], percent)
  }

  /** On a descending scale that is the highest band reached, and some band is found whenever one is reached. */
  lemma {:induction false} BandForIsHighestReached(bands: seq<Band>, percent: int)
    requires Descending(bands)
    ensures BandFor(bands, percent).None? <==> forall b :: b in bands ==> percent < b.min
    ensures BandFor(bands, percent).Some? ==>
              var found := BandFor(bands, percent).value;
              found in bands && found.min <= percent && forall b :: b in bands && b.min <= percent ==> b.min <= found.min
  {
    if bands != [] && percent < bands[0].min {
      BandForIsHighestReached(bands[1..], percent);
    }
  }

  /** A higher percentage never gets a band with a lower minimum. */
  lemma HigherNeverGetsLowerBand(bands: seq<Band>, low: int, high: int)
    requires Descending(bands) && low <= high && BandFor(bands, low).Some?
    ensures BandFor(bands, high).Some? && BandFor(bands, high).value.min >= BandFor(bands, low).value.min
  {
    BandForIsHighestReached(bands, low);
    BandForIsHighestReached(bands, high);
  }

  // ------------------------------------------------------------------ one paper

  function Or0(v: Option<int>): int {
    if v.Some? then v.value else 0
  }

  function Obtained(m: Option<Mark>): int {
    if m.Some? && m.value.status.Present? then Or0(m.value.theory) + Or0(m.value.practical) else 0
  }

  predicate IsExempt(m: Option<Mark>) {
    m.Some? && m.value.status.Exempt?
  }

  /** q2(points / weight), 0 when there is no weight. */
  function Rate(points: int, weight: int): int {
    if weight == 0 then 0 else RoundHalfUp(points as real / weight as real)
  }

  /** The percentage in one paper, in hundredths of a percent. */
  function PaperPercent(p: Paper, m: Option<Mark>): int {
    Rate(Obtained(m) * 10000, MaxTotal(p))
  }

  predicate FailBand(b: Option<Band>) {
    b.Some? && b.value.fail
  }

  predicate PaperPassed(scale: Scale, p: Paper, m: Option<Mark>) {
    m.Some? && m.value.status.Present? && Obtained(m) >= p.passMarks && !FailBand(BandFor(scale.bands, PaperPercent(p, m)))
  }

  /** `subject.credits or 1`, in tenths. */
  function CreditsOf(p: Paper): int {
    if p.credits.Some? && p.credits.value != 0 then p.credits.value else 10
  }

  function PointOf(scale: Scale, p: Paper, m: Option<Mark>): int {
    var b := BandFor(scale.bands, PaperPercent(p, m));
    if b.Some? && PaperPassed(scale, p, m) then b.value.point else 0
  }

  function MarkOf(marks: map<nat, Mark>, p: Paper): Option<Mark> {
    if p.id in marks then Some(marks[p.id]) else None
  }

  // ------------------------------------------------------------------ averages

  /** One contribution to an average: `points` earned against `weight`. */
  datatype Part = Part(weight: int, points: int)

  function Weights(parts: seq<Part>): int {
    if parts == [] then 0 else parts[0].weight + Weights(parts[1..])
  }

  function Points(parts: seq<Part>): int {
    if parts == [] then 0 else parts[0].points + Points(parts[1..])
  }

  function Average(parts: seq<Part>): int {
    Rate(Points(parts), Weights(parts))
  }

  lemma {:induction false} SumsAppend(parts: seq<Part>, p: Part)
    ensures Weights(parts + [p]) == Weights(parts) + p.weight && Points(parts + [p]) == Points(parts) + p.points
  {
    if parts != [] {
      assert (parts + [p])[1..] == parts[1..] + [p];
      SumsAppend(parts[1..], p);
    } else {
      assert [p][1..] == [];
    }
  }

  /** What the papers sat count towards the percentage, and towards the grade point average. */
  function MarksParts(papers: seq<Paper>, marks: map<nat, Mark>): seq<Part> {
    if papers == [] then []
    else
      var rest, p := MarksParts(papers[..|papers| - 1], marks), papers[|papers| - 1];
      if IsExempt(MarkOf(marks, p)) then rest else rest + [Part(MaxTotal(p), Obtained(MarkOf(marks, p)) * 10000)]
  }

  function CreditParts(scale: Scale, papers: seq<Paper>, marks: map<nat, Mark>): seq<Part> {
    if papers == [] then []
    else
      var rest, p := CreditParts(scale, papers[..|papers| - 1], marks), papers[|papers| - 1];
      var m := MarkOf(marks, p);
      if IsExempt(m) then rest else rest + [Part(CreditsOf(p), CreditsOf(p) * PointOf(scale, p, m))]
  }

  /** Pending, exempt, absent or entered: the line shown for one paper. */
  datatype Line =
    | ExemptLine(subject: nat)
    | Line(subject: nat, status: Option<Status>, total: int, max: int, band: Option<Band>, passed: bool)

  function LineOf(scale: Scale, p: Paper, m: Option<Mark>): Line {
    if IsExempt(m) then ExemptLine(p.subject)
    else Line(p.subject, if m.Some? then Some(m.value.status) else None, Obtained(m), MaxTotal(p),
              BandFor(scale.bands, PaperPercent(p, m)), PaperPassed(scale, p, m))
  }

  datatype Outcome = Outcome(
    lines: seq<Line>, total: int, maxTotal: int, percentage: int, band: Option<Band>,
    passed: bool, pending: bool, sgpa: Option<int>, credits: int)
}
