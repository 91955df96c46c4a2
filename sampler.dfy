/** The column offsets visited by the sampling `for` loops of both programs: the loop
    variable starts at `start`, grows by `step` and the loop runs while it is below `limit`
    (grating.cpp:70 starts at 1, grating2.cpp:62 starts at step; both stop at 2*radius). */
module Sampler {

  /** The offsets start, start + step, start + 2*step, ... that lie below limit, in the
      order the loop visits them: each one in [start, limit). */
  function Samples(start: int, step: int, limit: int): (xs: seq<int>)
    requires step > 0
    ensures forall i :: 0 <= i < |xs| ==> start <= xs[i] < limit
    ensures |xs| == 0 <==> limit <= start
    decreases limit - start
  {
    if start < limit then [start] + Samples(start + step, step, limit) else []
  }

  /** The visited columns strictly increase. */
  lemma {:induction false} SamplesIncreasing(start: int, step: int, limit: int, i: int, j: int)
    requires step > 0 && 0 <= i < j < |Samples(start, step, limit)|
    ensures Samples(start, step, limit)[i] < Samples(start, step, limit)[j]
    decreases limit - start
  {
    if i > 0 {
      SamplesIncreasing(start + step, step, limit, i - 1, j - 1);
    }
  }

  /** Multiplication by a non-negative factor is monotone. */
  lemma MulMonotone(x: int, y: int, b: int)
    ensures x <= y && 0 <= b ==> x * b <= y * b
  {
    assert y * b - x * b == (y - x) * b;
  }

  /** The i-th sample is start + i*step. */
  lemma {:induction false} SampleAt(start: int, step: int, limit: int, i: int)
    requires step > 0 && 0 <= i < |Samples(start, step, limit)|
    ensures Samples(start, step, limit)[i] == start + i * step
    decreases limit - start
  {
    if i > 0 {
      SampleAt(start + step, step, limit, i - 1);
      assert (i - 1) * step + step == i * step;
    }
  }

  /** The sample after the last one would reach limit: with the lower bound below, this
      fixes the count at ceil((limit - start) / step). */
  lemma {:induction false} SampleEnd(start: int, step: int, limit: int)
    requires step > 0
    ensures start + |Samples(start, step, limit)| * step >= limit
    decreases limit - start
  {
    if start < limit {
      var n := |Samples(start + step, step, limit)|;
      SampleEnd(start + step, step, limit);
      assert (n + 1) * step == n * step + step;
    }
  }

  /** Integer division is characterised by its bracket: q*b <= a < (q+1)*b. */
  lemma DivBracket(a: int, b: int, q: int)
    requires b > 0 && q * b <= a < q * b + b
    ensures a / b == q
  {
    var p, r := a / b, a % b;
    assert a == p * b + r && 0 <= r < b;
    // p < q would put a below q*b, and p > q would put it at or above (q+1)*b
    MulMonotone(p + 1, q, b);
    MulMonotone(q + 1, p, b);
    assert (p + 1) * b == p * b + b && (q + 1) * b == q * b + b;
  }

  /** The number of samples is ceil((limit - start) / step), and zero when start is not
      below limit. */
  lemma SampleCount(start: int, step: int, limit: int)
    requires step > 0
    ensures |Samples(start, step, limit)| ==
            if start < limit then (limit - start + step - 1) / step else 0
  {
    var xs := Samples(start, step, limit);
    var n := |xs|;
    if start < limit {
      SampleEnd(start, step, limit);
      SampleAt(start, step, limit, n - 1);
      assert (n - 1) * step + step == n * step;
      DivBracket(limit - start + step - 1, step, n);
    }
  }

  /** A loop that starts at step itself, below a positive limit, runs ceil(limit / step) - 1
      times. */
  lemma SampleCountFromStep(step: int, limit: int)
    requires step > 0 && limit > 0
    ensures |Samples(step, step, limit)| == (limit + step - 1) / step - 1
  {
    var n := |Samples(step, step, limit)|;
    SampleEnd(step, step, limit);
    if n > 0 {
      SampleAt(step, step, limit, n - 1);
      assert (n - 1) * step + step == n * step;
    }
    assert n * step < limit;
    assert (n + 1) * step == n * step + step;
    DivBracket(limit + step - 1, step, n + 1);
  }

  /** Starting the loop c columns later, with 0 <= c < step, moves every visited column
      right by c and loses at most the last column. */
  lemma {:induction false} SamplesShifted(start: int, c: int, step: int, limit: int)
    requires 0 <= c < step
    ensures var xs, ys := Samples(start, step, limit), Samples(start + c, step, limit);
            && |ys| <= |xs| <= |ys| + 1
            && forall k :: 0 <= k < |ys| ==> ys[k] == xs[k] + c
    decreases limit - start
  {
    if start + c < limit {
      SamplesShifted(start + step, c, step, limit);
      assert start + c + step == start + step + c;
    }
  }
}
