/**
 * Model of Coupon_Problem.py: the harmonic number, the analytic expectation
 * n * H_n, one simulated collection and a batch of simulations with summary
 * statistics.
 *
 * The generator `random.randint(1, n)` is replaced by an explicit stream of
 * draws; `random.seed(seed)` by a function `stream` from seeds to the stream
 * that `randint(1, n)` yields after seeding, for the n of the call (the values
 * depend on n as well as on the seed), and the unseeded global generator state
 * by the stream `current` it would produce next.
 */
module CouponProblem {
  import opened Wrappers
  import opened Collection
  import opened Statistics

  /** The exception `simulate` in Coupon_Problem.py raises on an empty batch. */
  datatype Error = ZeroDivisionError

  // ---------------------------------------------------------------------------
  // harmonic_number and analytic_expected_time
  // ---------------------------------------------------------------------------

  /** `sum(1.0 / k for k in range(lo, hi))`, in exact arithmetic. */
  function ReciprocalSum(lo: int, hi: int): (r: real)
    requires 1 <= lo
    ensures 0.0 <= r
    decreases hi - lo
  {
    if hi <= lo then 0.0 else 1.0 / (lo as real) + ReciprocalSum(lo + 1, hi)
  }

  /** `harmonic_number(n)`: the sum of 1/k for k in 1..n, and 0 when n <= 0. */
  function HarmonicNumber(n: int): real {
    ReciprocalSum(1, n + 1)
  }

  /** `analytic_expected_time(n)`: n * H_n. */
  function AnalyticExpectedTime(n: int): real {
    (n as real) * HarmonicNumber(n)
  }

  /** Peeling the last term off a reciprocal sum. */
  lemma {:induction false} ReciprocalSumLast(lo: int, hi: int)
    requires 1 <= lo < hi
    ensures ReciprocalSum(lo, hi) == ReciprocalSum(lo, hi - 1) + 1.0 / ((hi - 1) as real)
    decreases hi - lo
  {
    if lo < hi - 1 {
      ReciprocalSumLast(lo + 1, hi);
    }
  }

  /** The empty sum and the first term: H_n = 0 for n <= 0, and H_1 = 1. */
  lemma HarmonicBase(n: int)
    ensures n <= 0 ==> HarmonicNumber(n) == 0.0
    ensures HarmonicNumber(1) == 1.0
  {
  }

  /** The recurrence H_n = H_{n-1} + 1/n for n >= 1. */
  lemma HarmonicRecurrence(n: int)
    requires 1 <= n
    ensures HarmonicNumber(n) == HarmonicNumber(n - 1) + 1.0 / (n as real)
  {
    ReciprocalSumLast(1, n + 1);
  }

  /** H is strictly increasing on the naturals. */
  lemma {:induction false} HarmonicStrictlyIncreasing(m: int, n: int)
    requires 0 <= m < n
    ensures HarmonicNumber(m) < HarmonicNumber(n)
    decreases n - m
  {
    HarmonicRecurrence(n);
    if m < n - 1 {
      HarmonicStrictlyIncreasing(m, n - 1);
    }
  }

  /** 1 <= H_n <= n for n >= 1: every term after the first is positive and at most 1. */
  lemma {:induction false} HarmonicBounds(n: int)
    requires 1 <= n
    ensures 1.0 <= HarmonicNumber(n) <= n as real
  {
    if n > 1 {
      HarmonicBounds(n - 1);
      HarmonicRecurrence(n);
      assert 1.0 / (n as real) <= 1.0;
    }
  }

  /** H_5 = 137/60 (1 + 1/2 + 1/3 + 1/4 + 1/5 = 2.28333...). */
  lemma HarmonicFive()
    ensures HarmonicNumber(5) == 137.0 / 60.0
  {
    HarmonicRecurrence(5);
    HarmonicRecurrence(4);
    HarmonicRecurrence(3);
    HarmonicRecurrence(2);
    HarmonicBase(1);
  }

  /** One coupon type takes exactly one draw; two take three on average; none take none. */
  lemma AnalyticSmallCases(n: int)
    ensures AnalyticExpectedTime(1) == 1.0
    ensures AnalyticExpectedTime(2) == 3.0
    ensures n <= 0 ==> AnalyticExpectedTime(n) == 0.0
  {
    HarmonicBase(n);
    HarmonicRecurrence(2);
  }

  /** The expectation obeys E_n = n * H_{n-1} + 1. */
  lemma AnalyticRecurrence(n: int)
    requires 1 <= n
    ensures AnalyticExpectedTime(n) == (n as real) * HarmonicNumber(n - 1) + 1.0
  {
    HarmonicRecurrence(n);
    var h := HarmonicNumber(n - 1);
    assert (n as real) * (h + 1.0 / (n as real)) == (n as real) * h + 1.0;
  }

  /** Multiplying by a nonnegative factor keeps the order of two reals. */
  lemma MulLeMonotone(x: real, a: real, b: real)
    requires 0.0 <= x && a <= b
    ensures x * a <= x * b
  {
    var d := b - a;
    assert x * b == x * a + x * d;
    assert 0.0 <= x * d;
  }

  /** Collecting n >= 1 types takes at least n draws in expectation. */
  lemma AnalyticAtLeastN(n: int)
    requires 1 <= n
    ensures n as real <= AnalyticExpectedTime(n)
  {
    HarmonicBounds(n);
    var x, h := n as real, HarmonicNumber(n);
    calc {
      n as real;
    ==
      x * 1.0;
    <= { MulLeMonotone(x, 1.0, h); }
      x * h;
    ==
      AnalyticExpectedTime(n);
    }
  }

  /** The expectation grows strictly with the number of coupon types. */
  lemma AnalyticStrictlyIncreasing(n: int)
    requires 0 <= n
    ensures AnalyticExpectedTime(n) < AnalyticExpectedTime(n + 1)
  {
    HarmonicStrictlyIncreasing(n, n + 1);
    var x, a, b := n as real, HarmonicNumber(n), HarmonicNumber(n + 1);
    calc {
      AnalyticExpectedTime(n);
    ==
      x * a;
    <= { MulLeMonotone(x, a, b); }
      x * b;
    <
      x * b + b;
    ==
      (x + 1.0) * b;
    ==
      AnalyticExpectedTime(n + 1);
    }
  }

  // ---------------------------------------------------------------------------
  // simulate_one
  // ---------------------------------------------------------------------------

  /**
   * `simulate_one(n)` on the draw stream `source`: draw until the set of seen
   * values holds n elements and return the number of draws. It consumes the
   * first `draws` values of `source`.
   */
  method SimulateOne(n: int, source: seq<int>) returns (draws: nat)
    requires n <= |Distinct(source)|
    ensures draws == DrawsToCollect(n, source)
    ensures n <= draws <= |source|
    ensures n <= 0 ==> draws == 0
  {
    var seen: set<int> := {};
    draws := 0;
    while |seen| < n
      invariant draws <= DrawsToCollect(n, source)
      invariant seen == Distinct(source[..draws])
      invariant |seen| <= draws
      invariant InRange(n, source) ==> seen <= Coupons(n)
      decreases |source| - draws
    {
      DrawStep(n, source, draws, seen);
      draws := draws + 1;
      var coupon := source[draws - 1];
      seen := seen + {coupon};
    }
    DrawsDone(n, source, draws);
  }

  // ---------------------------------------------------------------------------
  // simulate
  // ---------------------------------------------------------------------------

  /** The dictionary `simulate` returns, with the variance in place of its square root `std`. */
  datatype Summary = Summary(
    n: int,
    trials: int,
    mean: real,
    variance: real,
    min: int,
    max: int,
    resultsSample: seq<nat>)

  /** The stream the trials draw from: a freshly seeded one, or the global generator's. */
  function DrawSource(seed: Option<int>, stream: int -> seq<int>, current: seq<int>): seq<int> {
    if seed.Some? then stream(seed.value) else current
  }

  /** The summary of a non-empty, ordered list of trial results. */
  function Summarize(n: int, trials: int, results: seq<nat>): Summary
    requires |results| > 0
  {
    Summary(n, trials, Mean(results), SampleVariance(results), Min(results), Max(results),
            results[..if |results| < 10 then |results| else 10])
  }

  /**
   * What a summary promises: it echoes n and trials, its mean lies between its
   * minimum and maximum, its minimum is at least n, its variance is nonnegative
   * and zero exactly when all results agree, and its sample is the first ten
   * results (or all of them).
   */
  lemma SummaryFacts(n: int, trials: int, results: seq<nat>)
    requires |results| > 0
    requires forall i :: 0 <= i < |results| ==> n <= results[i]
    ensures var s := Summarize(n, trials, results);
      && s.n == n && s.trials == trials
      && s.min as real <= s.mean <= s.max as real
      && n <= s.min
      && 0.0 <= s.variance
      && (s.variance == 0.0 <==> s.min == s.max)
      && (|results| == 1 ==> s.variance == 0.0)
      && |s.resultsSample| == (if |results| < 10 then |results| else 10)
      && s.resultsSample == results[..|s.resultsSample|]
  {
    MeanBetweenMinAndMax(results);
    VarianceNonNegative(results);
    VarianceZeroIffNoSpread(results);
  }

  /**
   * `[simulate_one(n) for _ in range(trials)]`: the draw counts of `trials`
   * consecutive trials on one stream, in trial order.
   */
  method RunTrials(n: int, trials: nat, source: seq<int>) returns (results: seq<nat>)
    requires Run(n, source, trials).Some?
    ensures results == Run(n, source, trials).value.results
    ensures |results| == trials
    ensures forall i :: 0 <= i < trials ==> n <= results[i]
  {
    results := [];
    var used: nat := 0;
    for i := 0 to trials
      invariant Run(n, source, i).Some?
      invariant Run(n, source, i).value.results == results
      invariant Run(n, source, i).value.used == used
    {
      RunPrefix(n, source, i + 1, trials);
      assert Run(n, source, i) == Some(Batch(results, used));
      RunNextFeasible(n, source, i, results, used);
      var draws := SimulateOne(n, source[used..]);
      RunExtend(n, source, i, results, used, draws);
      results := results + [draws];
      used := used + draws;
    }
  }

  /**
   * `simulate(n, trials, seed)`: reseed when a seed is given, run `trials`
   * trials in order on one stream, and summarise their results. With no
   * trials, `sum(results) / len(results)` divides by zero.
   */
  method Simulate(n: int, trials: int, seed: Option<int>, stream: int -> seq<int>, current: seq<int>)
    returns (r: Result<Summary, Error>)
    requires trials > 0 ==> Run(n, DrawSource(seed, stream, current), trials).Some?
    ensures trials <= 0 <==> r.Failure?
    ensures r.Failure? ==> r.error == ZeroDivisionError
    ensures r.Success? ==>
      var results := Run(n, DrawSource(seed, stream, current), trials).value.results;
      |results| == trials && r.value == Summarize(n, trials, results)
    ensures r.Success? ==>
      && r.value.n == n && r.value.trials == trials
      && r.value.min as real <= r.value.mean <= r.value.max as real
      && n <= r.value.min
      && 0.0 <= r.value.variance
      && (trials == 1 ==> r.value.variance == 0.0)
  {
    var source := DrawSource(seed, stream, current);
    if trials <= 0 {
      return Failure(ZeroDivisionError);
    }
    var results := RunTrials(n, trials, source);
    SummaryFacts(n, trials, results);
    r := Success(Summarize(n, trials, results));
  }

  /**
   * A seeded batch is reproducible: whatever state the global generator was
   * in, two calls with the same seed return the same summary.
   */
  method SeededSimulationReproducible(
    n: int, trials: int, seed: int, stream: int -> seq<int>, current1: seq<int>, current2: seq<int>)
    returns (first: Result<Summary, Error>, second: Result<Summary, Error>)
    requires trials > 0 ==> Run(n, stream(seed), trials).Some?
    ensures first == second
  {
    first := Simulate(n, trials, Some(seed), stream, current1);
    second := Simulate(n, trials, Some(seed), stream, current2);
  }

  /**
   * With one coupon type every trial takes exactly one draw: mean 1, variance
   * 0, minimum and maximum 1.
   */
  lemma SingleCouponSummary(trials: int, s: seq<int>)
    requires 0 < trials <= |s|
    ensures Run(1, s, trials).Some?
    ensures var b := Run(1, s, trials).value;
      var sum := Summarize(1, trials, b.results);
      sum.mean == 1.0 && sum.variance == 0.0 && sum.min == 1 && sum.max == 1
  {
    SingleCouponRun(s, trials);
    var results := Run(1, s, trials).value.results;
    MeanOfConstant(results, 1);
    NoSpreadNoVariance(results);
  }
}
