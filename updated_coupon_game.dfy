/**
 * Model of the computational part of Updated_Coupon_Game.py: a harmonic number
 * that switches to the asymptotic form ln(n) + gamma above n = 1000, the
 * analytic expectation built on it, the same single-trial loop, and a batch
 * simulation that always reseeds and returns only the mean.
 *
 * `math.log` is a parameter `log`, the float logarithm of its argument; it is
 * not modelled. The generator is modelled as in CouponProblem.
 */
module UpdatedCouponGame {
  import opened Wrappers
  import opened Collection
  import opened Statistics
  import CouponProblem

  /** The Euler-Mascheroni constant as Updated_Coupon_Game.py writes it. */
  const GAMMA: real := 0.5772156649

  /** Above this n the harmonic number is approximated. */
  const EXACT_LIMIT: int := 1000

  /** `harmonic_number(n)`: ln(n) + gamma when n > 1000, otherwise the exact sum. */
  function HarmonicNumber(n: int, log: real -> real): real {
    if n > EXACT_LIMIT then log(n as real) + GAMMA else CouponProblem.ReciprocalSum(1, n + 1)
  }

  /** `analytic_expected_time(n)`: n * harmonic_number(n). */
  function AnalyticExpectedTime(n: int, log: real -> real): real {
    (n as real) * HarmonicNumber(n, log)
  }

  /**
   * Up to n = 1000 this copy computes the same exact sum as Coupon_Problem.py,
   * whatever the logarithm; above it, the value is ln(n) + gamma.
   */
  lemma HarmonicBranches(n: int, log: real -> real)
    ensures n <= EXACT_LIMIT ==> HarmonicNumber(n, log) == CouponProblem.HarmonicNumber(n)
    ensures n > EXACT_LIMIT ==> HarmonicNumber(n, log) == log(n as real) + GAMMA
  {
  }

  /** The result depends on the logarithm exactly when n > 1000: the exact branch is taken iff n <= 1000. */
  lemma ExactBranchIff(n: int)
    ensures (forall log1: real -> real, log2: real -> real ::
               HarmonicNumber(n, log1) == HarmonicNumber(n, log2)) <==> n <= EXACT_LIMIT
  {
    if n > EXACT_LIMIT {
      var zero := (x: real) => 0.0;
      var one := (x: real) => 1.0;
      assert HarmonicNumber(n, zero) != HarmonicNumber(n, one);
    }
  }

  /** On the exact branch the expectation agrees with Coupon_Problem.py; for n = 1 it is 1. */
  lemma AnalyticOnExactBranch(n: int, log: real -> real)
    ensures n <= EXACT_LIMIT ==> AnalyticExpectedTime(n, log) == CouponProblem.AnalyticExpectedTime(n)
    ensures AnalyticExpectedTime(1, log) == 1.0
    ensures 1 <= n <= EXACT_LIMIT ==> n as real <= AnalyticExpectedTime(n, log)
  {
    CouponProblem.AnalyticSmallCases(1);
    if 1 <= n <= EXACT_LIMIT {
      CouponProblem.AnalyticAtLeastN(n);
    }
  }

  /** `simulate_one(n)`: the same loop as in Coupon_Problem.py. */
  method SimulateOne(n: int, source: seq<int>) returns (draws: nat)
    requires n <= |Distinct(source)|
    ensures draws == DrawsToCollect(n, source)
    ensures n <= draws <= |source|
    ensures n <= 0 ==> draws == 0
  {
    draws := CouponProblem.SimulateOne(n, source);
  }

  /**
   * `simulate(n, trials, seed)`: always reseed with `seed`, run `trials`
   * trials in order on the seeded stream, and return the mean of their draw
   * counts; with no trials the mean divides by zero.
   */
  method Simulate(n: int, trials: int, seed: int, stream: int -> seq<int>)
    returns (r: Result<real, CouponProblem.Error>)
    requires trials > 0 ==> Run(n, stream(seed), trials).Some?
    ensures trials <= 0 <==> r.Failure?
    ensures r.Failure? ==> r.error == CouponProblem.ZeroDivisionError
    ensures r.Success? ==>
      var results := Run(n, stream(seed), trials).value.results;
      |results| == trials && r.value == Mean(results)
      && Min(results) as real <= r.value <= Max(results) as real
      && n as real <= r.value
  {
    var source := stream(seed);
    if trials <= 0 {
      return Failure(CouponProblem.ZeroDivisionError);
    }
    var results := CouponProblem.RunTrials(n, trials, source);
    MeanBetweenMinAndMax(results);
    r := Success(Mean(results));
  }

  /** Because every call reseeds, two calls with the same arguments return the same mean. */
  method RepeatedSimulationAgrees(n: int, trials: int, seed: int, stream: int -> seq<int>)
    returns (first: Result<real, CouponProblem.Error>, second: Result<real, CouponProblem.Error>)
    requires trials > 0 ==> Run(n, stream(seed), trials).Some?
    ensures first == second
  {
    first := Simulate(n, trials, seed, stream);
    second := Simulate(n, trials, seed, stream);
  }
}
