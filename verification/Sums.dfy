/** Sums and counts written out, to say what the services add up. */
module Sums {
  function Sum(xs: seq<int>): int {
    if xs == [] then 0 else Sum(xs[..|xs| - 1]) + xs[|xs| - 1]
  }

  lemma SumAppend(xs: seq<int>, x: int)
    ensures Sum(xs + [x]) == Sum(xs) + x
  {
    assert (xs + [x])[..|xs|] == xs;
  }

  /** The days from a to b. */
  function Span(a: int, b: int): (days: set<int>)
    ensures forall d :: d in days <==> a <= d <= b
    decreases b - a
  {
    if a <= b then Span(a, b - 1) + {b} else {}
  }

  lemma {:induction false} SpanSize(a: int, b: int)
    ensures |Span(a, b)| == if a <= b then b - a + 1 else 0
    decreases b - a
  {
    if a <= b {
      SpanSize(a, b - 1);
      assert b !in Span(a, b - 1);
    }
  }
}
