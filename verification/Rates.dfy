/** How many events that keep a minimum distance fit into a window of time. */
module Rates {

  predicate Spaced(times: seq<real>, gap: real) {
    forall i :: 0 < i < |times| ==> times[i] - times[i - 1] >= gap
  }

  lemma {:induction false} SpacedSpan(times: seq<real>, gap: real)
    requires Spaced(times, gap) && times != []
    ensures times[|times| - 1] - times[0] >= (|times| - 1) as real * gap
  {
    if |times| > 1 {
      SpacedSpan(times[..|times| - 1], gap);
      assert (|times| - 1) as real * gap == (|times| - 2) as real * gap + gap;
    }
  }

  lemma Fits(n: real, gap: real, width: real)
    requires gap > 0.0 && n * gap <= width
    ensures n <= width / gap
  {
    var quotient := width / gap;
    assert quotient * gap == width;
    if n > quotient {
      assert (n - quotient) * gap > 0.0;
      assert (n - quotient) * gap == n * gap - quotient * gap;
    }
  }

  /** At most `1 + floor(window / gap)` of them. */
  lemma RateBound(times: seq<real>, gap: real, start: real, end: real)
    requires Spaced(times, gap) && gap > 0.0 && start <= end
    requires forall i :: 0 <= i < |times| ==> start <= times[i] <= end
    ensures |times| <= 1 + ((end - start) / gap).Floor
  {
    if times != [] {
      SpacedSpan(times, gap);
      Fits((|times| - 1) as real, gap, end - start);
    } else {
      assert (end - start) / gap >= 0.0;
    }
  }
}
