/**
 * The aggregations `simulate` applies to its list of trial results: Python's
 * built-in `sum`, `min` and `max` over integers, the arithmetic mean and the
 * unbiased sample variance. All arithmetic is exact (`real`), not IEEE floats.
 */
module Statistics {

  /** `sum(xs)` over integers. */
  function Sum(xs: seq<int>): int {
    if xs == [] then 0 else xs[0] + Sum(xs[1..])
  }

  /** `sum(xs) / len(xs)`. */
  function Mean(xs: seq<int>): real
    requires |xs| > 0
  {
    (Sum(xs) as real) / (|xs| as real)
  }

  /** `sum((x - m) ** 2 for x in xs)`. */
  function SquaredDeviations(xs: seq<int>, m: real): (r: real)
    ensures 0.0 <= r
  {
    if xs == [] then 0.0
    else
      var d := xs[0] as real - m;
      d * d + SquaredDeviations(xs[1..], m)
  }

  /** The sample variance: divisor `len(xs) - 1`, and 0.0 for a single value. */
  function SampleVariance(xs: seq<int>): real
    requires |xs| > 0
  {
    if |xs| > 1 then SquaredDeviations(xs, Mean(xs)) / ((|xs| - 1) as real) else 0.0
  }

  /** `min(xs)`: an element of xs that no element is below. */
  function Min(xs: seq<int>): (m: int)
    requires |xs| > 0
    ensures m in xs
    ensures forall i :: 0 <= i < |xs| ==> m <= xs[i]
  {
    if |xs| == 1 then xs[0]
    else
      var rest := Min(xs[1..]);
      if xs[0] <= rest then xs[0] else rest
  }

  /** `max(xs)`: an element of xs that no element is above. */
  function Max(xs: seq<int>): (m: int)
    requires |xs| > 0
    ensures m in xs
    ensures forall i :: 0 <= i < |xs| ==> xs[i] <= m
  {
    if |xs| == 1 then xs[0]
    else
      var rest := Max(xs[1..]);
      if xs[0] >= rest then xs[0] else rest
  }

  /** A sum of values in lo..hi lies between |xs| * lo and |xs| * hi. */
  lemma {:induction false} SumBounds(xs: seq<int>, lo: int, hi: int)
    requires forall i :: 0 <= i < |xs| ==> lo <= xs[i] <= hi
    ensures |xs| * lo <= Sum(xs) <= |xs| * hi
  {
    if xs != [] {
      SumBounds(xs[1..], lo, hi);
      assert |xs| * lo == lo + (|xs| - 1) * lo;
      assert |xs| * hi == hi + (|xs| - 1) * hi;
    }
  }

  /** Dividing by a positive count keeps a total's bounds: n * lo <= s <= n * hi. */
  lemma QuotientBounds(s: real, n: real, lo: real, hi: real)
    requires 0.0 < n
    requires n * lo <= s <= n * hi
    ensures lo <= s / n <= hi
  {
    assert (s / n) * n == s;
  }

  /** A mean whose total lies between |xs| * lo and |xs| * hi lies between lo and hi. */
  lemma MeanBounds(xs: seq<int>, lo: int, hi: int)
    requires |xs| > 0
    requires |xs| * lo <= Sum(xs) <= |xs| * hi
    ensures lo as real <= Mean(xs) <= hi as real
  {
    var n := |xs|;
    assert (n * lo) as real == (n as real) * (lo as real);
    assert (n * hi) as real == (n as real) * (hi as real);
    QuotientBounds(Sum(xs) as real, n as real, lo as real, hi as real);
  }

  /** The mean never leaves the range of the data. */
  lemma MeanBetweenMinAndMax(xs: seq<int>)
    requires |xs| > 0
    ensures Min(xs) as real <= Mean(xs) <= Max(xs) as real
  {
    SumBounds(xs, Min(xs), Max(xs));
    MeanBounds(xs, Min(xs), Max(xs));
  }

  /** The mean of a constant sequence is that constant. */
  lemma MeanOfConstant(xs: seq<int>, c: int)
    requires |xs| > 0
    requires forall i :: 0 <= i < |xs| ==> xs[i] == c
    ensures Mean(xs) == c as real
  {
    SumBounds(xs, c, c);
    MeanBounds(xs, c, c);
  }

  /** The squared deviations from m vanish exactly when every value equals m. */
  lemma {:induction false} SquaredDeviationsZero(xs: seq<int>, m: real)
    ensures SquaredDeviations(xs, m) == 0.0 <==> forall i :: 0 <= i < |xs| ==> xs[i] as real == m
  {
    if xs != [] {
      var tail := xs[1..];
      SquaredDeviationsZero(tail, m);
      var d := xs[0] as real - m;
      if d != 0.0 {
        SquarePlusNonNegative(d, SquaredDeviations(tail, m));
        assert xs[0] as real != m;
      } else {
        assert forall i :: 1 <= i < |xs| ==> xs[i] == tail[i - 1];
      }
    }
  }

  /** A product of two positive reals plus a nonnegative one is positive. */
  lemma ProductPlusNonNegative(a: real, b: real, t: real)
    requires 0.0 < a && 0.0 < b && 0.0 <= t
    ensures 0.0 < a * b + t
  {
  }

  /** A nonzero square added to a nonnegative value gives a positive value. */
  lemma SquarePlusNonNegative(d: real, t: real)
    requires d != 0.0 && 0.0 <= t
    ensures 0.0 < d * d + t
  {
    if d > 0.0 {
      ProductPlusNonNegative(d, d, t);
    } else {
      ProductPlusNonNegative(-d, -d, t);
      assert (-d) * (-d) == d * d;
    }
  }

  /** The sample variance is never negative. */
  lemma VarianceNonNegative(xs: seq<int>)
    requires |xs| > 0
    ensures 0.0 <= SampleVariance(xs)
  {
    if |xs| > 1 {
      var q := SquaredDeviations(xs, Mean(xs));
      assert q / ((|xs| - 1) as real) >= 0.0;
    }
  }

  /**
   * With two or more values, the variance is zero exactly when the data do not
   * spread (minimum equals maximum); with one value it is zero by definition.
   */
  lemma VarianceZeroIffNoSpread(xs: seq<int>)
    requires |xs| > 0
    ensures SampleVariance(xs) == 0.0 <==> Min(xs) == Max(xs)
  {
    if Min(xs) == Max(xs) {
      NoSpreadNoVariance(xs);
    } else {
      SpreadHasVariance(xs);
    }
  }

  /** Results whose minimum equals their maximum have variance zero. */
  lemma NoSpreadNoVariance(xs: seq<int>)
    requires |xs| > 0 && Min(xs) == Max(xs)
    ensures SampleVariance(xs) == 0.0
  {
    var c := Min(xs);
    MeanOfConstant(xs, c);
    SquaredDeviationsZero(xs, c as real);
  }

  /** Results whose minimum differs from their maximum have nonzero variance. */
  lemma SpreadHasVariance(xs: seq<int>)
    requires |xs| > 0 && Min(xs) != Max(xs)
    ensures SampleVariance(xs) != 0.0
  {
    var lo, hi := Min(xs), Max(xs);
    var m := Mean(xs);
    var i :| 0 <= i < |xs| && xs[i] == lo;
    var j :| 0 <= j < |xs| && xs[j] == hi;
    SquaredDeviationsZero(xs, m);
    var q := SquaredDeviations(xs, m);
    assert q != 0.0;
    assert |xs| > 1;
    var den := (|xs| - 1) as real;
    assert (q / den) * den == q;
  }
}
