/**
 Averages never leave the range of what is averaged, however the roundings fall: papers and
 the overall percentage, exams and the annual percentage, grade points and SGPA, SGPAs and CGPA.
 */
module ExamAverages {
  import opened Wrappers
  import opened Rounding
  import opened ExamModel

  /** Nothing is earned against no weight. */
  predicate Sound(parts: seq<Part>) {
    forall i :: 0 <= i < |parts| ==> parts[i].weight >= 0 && (parts[i].weight == 0 ==> parts[i].points == 0)
  }

  predicate AllWithin(parts: seq<Part>, lo: int, hi: int) {
    forall i :: 0 <= i < |parts| && parts[i].weight > 0 ==> lo <= Rate(parts[i].points, parts[i].weight) <= hi
  }

  predicate AllAbove(parts: seq<Part>, r: real) {
    forall i :: 0 <= i < |parts| && parts[i].weight > 0 ==> parts[i].points as real > r * parts[i].weight as real
  }

  predicate AllBelow(parts: seq<Part>, r: real) {
    forall i :: 0 <= i < |parts| && parts[i].weight > 0 ==> (parts[i].points as real) < r * parts[i].weight as real
  }

  lemma NoSums()
    ensures Weights([]) == 0 && Points([]) == 0
  {
  }

  lemma Distribute(r: real, a: int, b: int)
    ensures r * (a + b) as real == r * a as real + r * b as real
  {
    assert (a + b) as real == a as real + b as real;
  }

  lemma AsReal(a: int, b: int)
    ensures (a + b) as real == a as real + b as real
  {
  }

  lemma AddAbove(p: int, w: int, points: int, weight: int, r: real)
    requires w >= 0 && weight >= 0 && (w == 0 ==> p == 0) && (w > 0 ==> p as real > r * w as real)
    requires points as real >= r * weight as real && (weight > 0 ==> points as real > r * weight as real)
    ensures (p + points) as real >= r * (w + weight) as real
    ensures w + weight > 0 ==> (p + points) as real > r * (w + weight) as real
  {
    assert w == 0 ==> r * w as real == 0.0;
    Distribute(r, w, weight);
    AsReal(p, points);
  }

  lemma {:induction false} SumsAbove(parts: seq<Part>, r: real)
    requires Sound(parts) && AllAbove(parts, r)
    ensures Weights(parts) >= 0 && Points(parts) as real >= r * Weights(parts) as real
    ensures Weights(parts) > 0 ==> Points(parts) as real > r * Weights(parts) as real
  {
    if parts != [] {
      SumsAbove(parts[1..], r);
      AddAbove(parts[0].points, parts[0].weight, Points(parts[1..]), Weights(parts[1..]), r);
    }
  }

  lemma AddBelow(p: int, w: int, points: int, weight: int, r: real)
    requires w >= 0 && weight >= 0 && (w == 0 ==> p == 0) && (w > 0 ==> (p as real) < r * w as real)
    requires points as real <= r * weight as real && (weight > 0 ==> (points as real) < r * weight as real)
    ensures (p + points) as real <= r * (w + weight) as real
    ensures w + weight > 0 ==> ((p + points) as real) < r * (w + weight) as real
  {
    assert w == 0 ==> r * w as real == 0.0;
    Distribute(r, w, weight);
    AsReal(p, points);
  }

  lemma {:induction false} SumsBelow(parts: seq<Part>, r: real)
    requires Sound(parts) && AllBelow(parts, r)
    ensures Weights(parts) >= 0 && Points(parts) as real <= r * Weights(parts) as real
    ensures Weights(parts) > 0 ==> (Points(parts) as real) < r * Weights(parts) as real
  {
    if parts != [] {
      SumsBelow(parts[1..], r);
      AddBelow(parts[0].points, parts[0].weight, Points(parts[1..]), Weights(parts[1..]), r);
    }
  }

  lemma {:induction false} WeightsCounted(parts: seq<Part>)
    requires Sound(parts)
    ensures Weights(parts) >= 0
  {
    if parts != [] {
      WeightsCounted(parts[1..]);
    }
  }

  lemma Compare(points: int, weight: int, r: real)
    requires weight > 0
    ensures points as real / weight as real > r <==> points as real > r * weight as real
    ensures points as real / weight as real < r <==> (points as real) < r * weight as real
  {
    var q := points as real / weight as real;
    assert q * weight as real == points as real;
    if q > r {
      assert (q - r) * weight as real > 0.0;
    } else if q < r {
      assert (r - q) * weight as real > 0.0;
    }
  }

  /** A rate that rounds above another value is above it. */
  lemma RoundsAbove(points: int, weight: int, r: real)
    requires weight > 0 && RoundHalfUp(r) < Rate(points, weight)
    ensures points as real > r * weight as real
  {
    hide RoundHalfUp;
    Compare(points, weight, r);
    if points as real / weight as real <= r {
      Monotone(points as real / weight as real, r);
    }
  }

  lemma RoundsBelow(points: int, weight: int, r: real)
    requires weight > 0 && Rate(points, weight) < RoundHalfUp(r)
    ensures (points as real) < r * weight as real
  {
    hide RoundHalfUp;
    Compare(points, weight, r);
    if points as real / weight as real >= r {
      Monotone(r, points as real / weight as real);
    }
  }

  /** The rounded average lies between the lowest and the highest rounded rate averaged. */
  lemma AverageBetween(parts: seq<Part>, lo: int, hi: int)
    requires Sound(parts) && AllWithin(parts, lo, hi) && Weights(parts) != 0
    ensures lo <= Average(parts) <= hi
  {
    hide RoundHalfUp, Points, Weights, Sound, AllWithin;
    WeightsCounted(parts);
    var r := Points(parts) as real / Weights(parts) as real;
    Compare(Points(parts), Weights(parts), r);
    NotBelowAll(parts, lo, hi, r);
    NotAboveAll(parts, lo, hi, r);
  }

  lemma NotBelowAll(parts: seq<Part>, lo: int, hi: int, r: real)
    requires Sound(parts) && AllWithin(parts, lo, hi) && Weights(parts) > 0
    requires !(Points(parts) as real > r * Weights(parts) as real)
    ensures lo <= RoundHalfUp(r)
  {
    hide RoundHalfUp, Rate;
    if RoundHalfUp(r) < lo {
      forall i | 0 <= i < |parts| && parts[i].weight > 0 ensures parts[i].points as real > r * parts[i].weight as real {
        RoundsAbove(parts[i].points, parts[i].weight, r);
      }
      SumsAbove(parts, r);
    }
  }

  lemma NotAboveAll(parts: seq<Part>, lo: int, hi: int, r: real)
    requires Sound(parts) && AllWithin(parts, lo, hi) && Weights(parts) > 0
    requires !((Points(parts) as real) < r * Weights(parts) as real)
    ensures RoundHalfUp(r) <= hi
  {
    hide RoundHalfUp, Rate;
    if RoundHalfUp(r) > hi {
      forall i | 0 <= i < |parts| && parts[i].weight > 0 ensures (parts[i].points as real) < r * parts[i].weight as real {
        RoundsBelow(parts[i].points, parts[i].weight, r);
      }
      SumsBelow(parts, r);
    }
  }

  /** A whole rate times its weight gives that rate back. */
  lemma RateOfMultiple(weight: int, x: int)
    requires weight > 0
    ensures Rate(weight * x, weight) == x
  {
    assert (weight * x) as real == weight as real * x as real;
    assert (weight as real * x as real) / weight as real == x as real;
    Whole(x);
  }
}
