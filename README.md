# Coupon collector engine in Dafny

This project models the computational core of two near-identical Python scripts for the coupon-collector problem:

- `Coupon_Problem.py`:
  - `harmonic_number` computes H_n.
  - `analytic_expected_time` computes n·H_n.
  - `simulate_one` draws coupons until all n types have been seen.
  - `simulate` runs a batch of trials. It returns the echoed inputs, the mean, the sample standard deviation (the model keeps the variance, see Left out), the minimum, the maximum and the first ten results.
- `Updated_Coupon_Game.py`:
  - the same engine, except that the harmonic number switches to ln(n) + γ for n > 1000;
  - `simulate` always reseeds and returns only the mean.

The random generator is made an input:

- The values `random.randint(1, n)` would return become a finite stream `seq<int>`.
- `random.seed(seed)` becomes a function `stream: int -> seq<int>`. It maps a seed to the stream that `randint(1, n)` yields after seeding, for the call's fixed n. The values depend on n as well as on the seed, and no lemma compares two different n.
- The state of the unseeded global generator becomes the stream `current` it would produce next.

The model is laid out as follows:

- **Python functions.** Plain functions model the four Python functions:
  - `CouponProblem.HarmonicNumber` and `UpdatedCouponGame.HarmonicNumber` for `harmonic_number`;
  - `CouponProblem.AnalyticExpectedTime` and `UpdatedCouponGame.AnalyticExpectedTime` for `analytic_expected_time`;
  - `Statistics.Mean`, `Statistics.SampleVariance`, `Statistics.Min` and `Statistics.Max` for the aggregations in `simulate`;
  - `CouponProblem.Summarize` for the dictionary `simulate` returns.

  The table below lists the lemmas that state what these functions promise.
- **Single trial.** `Collection.DrawsToCollect` gives the number of draws one trial takes on a stream. It is the length of the shortest prefix that holds n distinct values (exactly n, for n >= 0). When all draws are in 1..n, that is the shortest prefix covering every coupon type.
- **Batch.** `Collection.Run` is the batch of consecutive trials, each starting where the previous one stopped.
- **Executable loops.** The Python loops (`SimulateOne`, `RunTrials`) are methods proved against these two functions.
- **Arithmetic.** All arithmetic is exact: `int` for draw counts, `real` for harmonic numbers, means and variances.

Modules:

- `Wrappers`: `Option` and `Result`.
- `Collection`: draw streams, coupon sets, one trial and a batch as functions.
- `Statistics`: sum, mean, sample variance, min and max.
- `CouponProblem`: Coupon_Problem.py.
- `UpdatedCouponGame`: Updated_Coupon_Game.py.

Behaviour of the code on edge inputs:

- **Approximation threshold.** The code approximates when `n > 1000`, so H_1000 is still the exact sum.
- **Small n.** The code does not reject n < 1. `harmonic_number(n)` is then the empty sum 0, and `simulate_one(n)` returns 0 without drawing.
- **No trials.** The code has no input validation. With `trials <= 0`, the empty results list makes `sum(results) / len(results)` raise `ZeroDivisionError`. The model returns `Failure(ZeroDivisionError)`.

## Model

A row whose third column starts with "proof step" is an arithmetic or sequence fact. It models no source line itself; it serves the proof about the cited lines.

| member | source | states |
|---|---|---|
| CouponProblem.ReciprocalSum | Coupon_Problem.py:6 | definition of the generator sum of 1/k over lo..hi-1, in exact arithmetic; its contract says the sum is never negative, and its facts are ReciprocalSumLast and, through HarmonicNumber, the Harmonic* lemmas |
| CouponProblem.HarmonicNumber | Coupon_Problem.py:4-6 | definition of `harmonic_number` as ReciprocalSum(1, n + 1); its facts are HarmonicBase, HarmonicRecurrence, HarmonicStrictlyIncreasing, HarmonicBounds and HarmonicFive |
| CouponProblem.AnalyticExpectedTime | Coupon_Problem.py:8-10 | definition of `analytic_expected_time` as n·H_n; its facts are AnalyticSmallCases, AnalyticRecurrence, AnalyticAtLeastN and AnalyticStrictlyIncreasing |
| CouponProblem.HarmonicBase | Coupon_Problem.py:4-6 | H_n is the empty sum 0 for every n <= 0, and H_1 = 1 |
| CouponProblem.HarmonicRecurrence | Coupon_Problem.py:4-6 | H_n = H_{n-1} + 1/n for every n >= 1 |
| CouponProblem.HarmonicStrictlyIncreasing | Coupon_Problem.py:4-6 | H_m < H_n whenever 0 <= m < n |
| CouponProblem.HarmonicBounds | Coupon_Problem.py:4-6 | 1 <= H_n <= n for every n >= 1 |
| CouponProblem.HarmonicFive | Coupon_Problem.py:4-6 | H_5 = 137/60 exactly |
| CouponProblem.ReciprocalSumLast | Coupon_Problem.py:6 | the sum of 1/k over lo..hi-1 equals the sum over lo..hi-2 plus 1/(hi-1) |
| CouponProblem.AnalyticSmallCases | Coupon_Problem.py:8-10 | n·H_n is 1 for one coupon type, 3 for two, and 0 for n <= 0 |
| CouponProblem.AnalyticRecurrence | Coupon_Problem.py:8-10 | n·H_n = n·H_{n-1} + 1 for n >= 1 |
| CouponProblem.MulLeMonotone | Coupon_Problem.py:10 | proof step for the product n·H_n: multiplying by a nonnegative factor keeps the order |
| CouponProblem.AnalyticAtLeastN | Coupon_Problem.py:8-10 | the expected number of draws is at least n for n >= 1 |
| CouponProblem.AnalyticStrictlyIncreasing | Coupon_Problem.py:8-10 | the expectation grows strictly from n to n + 1 |
| CouponProblem.SimulateOne | Coupon_Problem.py:12-20 | the loop's draw count is DrawsToCollect of the stream: at least n, at most the stream length, 0 when n <= 0; loop invariants seen = distinct values of the consumed prefix, the size of seen is at most draws, seen within 1..n for in-range draws |
| Collection.DrawsToCollect | Coupon_Problem.py:16-20 | the draw count is within the stream, its prefix holds at least n distinct values, every shorter prefix holds fewer, and it is at least n |
| Collection.DrawsToCollectSeesExactlyN | Coupon_Problem.py:16-20 | for n >= 0 the loop exits with exactly n distinct values seen, as `len(seen) < n` fails after one value at a time is added |
| Collection.DrawsToCollectUnique | Coupon_Problem.py:16-20 | a count with those three properties is DrawsToCollect, so a stream determines its trial's result |
| Collection.DrawsToCollectIsShortestCover | Coupon_Problem.py:16-20 | for in-range draws that cover 1..n, the consumed prefix covers every type, its seen set is exactly 1..n, and no shorter prefix covers them |
| Collection.CoversIffEnoughDistinct | Coupon_Problem.py:16 | for in-range draws, holding n distinct values is the same as covering 1..n, and the seen set is then exactly 1..n |
| Collection.DrawStep | Coupon_Problem.py:16-19 | one iteration of the loop while fewer than n values are seen: the draw is still within the trial, adding it to seen gives the distinct values of one more draw, seen grows by at most one and stays within 1..n for in-range draws |
| Collection.DrawsDone | Coupon_Problem.py:16-20 | once n values are seen without passing DrawsToCollect, the loop has taken exactly DrawsToCollect draws |
| Collection.InRangePrefix | Coupon_Problem.py:18 | a prefix of in-range draws is in range |
| Collection.ShortPrefixMisses | Coupon_Problem.py:16 | for in-range draws, a prefix with fewer than n distinct values misses some coupon type |
| Collection.Coupons | Coupon_Problem.py:18 | k is a coupon type exactly when 1 <= k <= n |
| Collection.CouponsStep | Coupon_Problem.py:18 | type n is not among the types below it, so adding it grows the set by one |
| Collection.CouponsCardinality | Coupon_Problem.py:18 | there are n coupon types for n >= 1 and none otherwise |
| Collection.DistinctAtMostLength | Coupon_Problem.py:14-19 | a sequence of draws has at most as many distinct values as draws |
| Collection.DistinctPrefixMonotone | Coupon_Problem.py:14-19 | a longer prefix of the stream has seen a superset of what a shorter prefix has seen |
| Collection.SingleCouponOneDraw | Coupon_Problem.py:16-20 | with one coupon type a trial takes exactly one draw |
| Collection.Run | Coupon_Problem.py:26 | a feasible batch of k trials has k results, each at least n, and consumes no more than the stream |
| Collection.Next | Coupon_Problem.py:26 | definition of one `simulate_one` call inside the comprehension: it starts where the previous trial stopped and appends its DrawsToCollect count; its facts are RunNextFeasible and RunExtend |
| Collection.RunNextFeasible | Coupon_Problem.py:26 | a batch that can run one more trial still has n distinct values in the rest of its stream |
| Collection.RunExtend | Coupon_Problem.py:26 | one more trial appends its draw count on the rest of the stream and advances the consumed count by it |
| Collection.RunStep | Coupon_Problem.py:26 | a feasible batch of k > 0 trials starts with the feasible batch of its first k - 1 trials |
| Collection.PrefixOfPrefix | Coupon_Problem.py:26 | proof step for trial order: a prefix of a prefix of a list is a prefix of the list |
| Collection.RunPrefix | Coupon_Problem.py:26 | the results of the first j trials of a feasible batch are the first j results of the batch |
| Collection.SingleCouponRun | Coupon_Problem.py:26 | with one coupon type a batch of k trials is feasible iff the stream has k draws; it consumes k draws and every result is 1 |
| CouponProblem.RunTrials | Coupon_Problem.py:26 | the comprehension's list is exactly the batch's results in trial order, has `trials` entries, and each is at least n |
| Statistics.Sum | Coupon_Problem.py:27 | definition of `sum(results)` over integers; its facts are SumBounds, and through Mean the Mean* lemmas |
| Statistics.Mean | Coupon_Problem.py:27 | definition of `sum(results) / len(results)` for a non-empty list; its facts are MeanBounds, MeanBetweenMinAndMax and MeanOfConstant |
| Statistics.SampleVariance | Coupon_Problem.py:28 | definition of the sample variance, with divisor len - 1 and 0.0 for a single result; its facts are VarianceNonNegative, VarianceZeroIffNoSpread, NoSpreadNoVariance and SpreadHasVariance |
| Statistics.Min | Coupon_Problem.py:35 | the minimum is one of the results and no result is below it |
| Statistics.Max | Coupon_Problem.py:36 | the maximum is one of the results and no result is above it |
| Statistics.SquaredDeviations | Coupon_Problem.py:28 | the sum of squared deviations is never negative |
| Statistics.SumBounds | Coupon_Problem.py:27 | a sum of values in lo..hi lies between len·lo and len·hi |
| Statistics.QuotientBounds | Coupon_Problem.py:27 | proof step for the division at line 27: dividing a bounded total by a positive count keeps its bounds |
| Statistics.MeanBounds | Coupon_Problem.py:27 | a mean whose total lies between len·lo and len·hi lies between lo and hi |
| Statistics.MeanBetweenMinAndMax | Coupon_Problem.py:27-36 | min(results) <= mean <= max(results) |
| Statistics.MeanOfConstant | Coupon_Problem.py:27 | the mean of a constant list is that constant |
| Statistics.SquaredDeviationsZero | Coupon_Problem.py:28 | the squared deviations from m vanish iff every value equals m |
| Statistics.SquarePlusNonNegative | Coupon_Problem.py:28 | proof step for the variance at line 28: a nonzero square plus a nonnegative value is positive |
| Statistics.ProductPlusNonNegative | Coupon_Problem.py:28 | proof step for the variance at line 28: a product of positives plus a nonnegative value is positive |
| Statistics.VarianceNonNegative | Coupon_Problem.py:28 | the sample variance is never negative |
| Statistics.VarianceZeroIffNoSpread | Coupon_Problem.py:28-36 | the sample variance is zero iff min(results) == max(results) |
| Statistics.NoSpreadNoVariance | Coupon_Problem.py:28 | results that do not spread have variance zero |
| Statistics.SpreadHasVariance | Coupon_Problem.py:28 | results that spread have nonzero variance |
| CouponProblem.DrawSource | Coupon_Problem.py:24-25 | definition of the seed branch: a freshly seeded stream when a seed is given, the global generator's stream otherwise; its facts are Simulate and SeededSimulationReproducible |
| CouponProblem.Summarize | Coupon_Problem.py:27-37 | definition of the returned dictionary, with the variance in place of `std`; its facts are SummaryFacts and SingleCouponSummary |
| CouponProblem.SummaryFacts | Coupon_Problem.py:27-37 | the summary echoes n and trials, min <= mean <= max, n <= min, the variance is nonnegative, zero iff min == max, zero for one trial, and the sample is the first min(10, len) results |
| CouponProblem.Simulate | Coupon_Problem.py:22-38 | reseeds only when a seed is given; fails with ZeroDivisionError exactly when trials <= 0; otherwise the summary of the batch's `trials` results on the chosen stream, with min <= mean <= max, n <= min, variance >= 0 and zero for one trial |
| CouponProblem.SeededSimulationReproducible | Coupon_Problem.py:24-26 | two calls with the same seed return the same result, whatever the global generator's state |
| CouponProblem.SingleCouponSummary | Coupon_Problem.py:22-38 | with one coupon type and enough draws, mean 1, variance 0, and min = max = 1 |
| UpdatedCouponGame.HarmonicNumber | Updated_Coupon_Game.py:6-12 | definition of `harmonic_number` with the n > 1000 switch to log(n) + 0.5772156649; its facts are HarmonicBranches and ExactBranchIff |
| UpdatedCouponGame.AnalyticExpectedTime | Updated_Coupon_Game.py:14-15 | definition of `analytic_expected_time` as n times this copy's harmonic number; its facts are AnalyticOnExactBranch |
| UpdatedCouponGame.HarmonicBranches | Updated_Coupon_Game.py:6-12 | for n <= 1000 the value is the exact sum of Coupon_Problem.py; above that it is log(n) + 0.5772156649 |
| UpdatedCouponGame.ExactBranchIff | Updated_Coupon_Game.py:9-12 | the result is independent of the logarithm iff n <= 1000, so the exact branch is taken exactly then |
| UpdatedCouponGame.AnalyticOnExactBranch | Updated_Coupon_Game.py:14-15 | for n <= 1000 the expectation equals n·H_n of Coupon_Problem.py; it is 1 for n = 1 and at least n for 1 <= n <= 1000 |
| UpdatedCouponGame.SimulateOne | Updated_Coupon_Game.py:17-24 | the same loop: DrawsToCollect of the stream, between n and the stream length, 0 when n <= 0 |
| UpdatedCouponGame.Simulate | Updated_Coupon_Game.py:26-30 | always reseeds; fails with ZeroDivisionError exactly when trials <= 0; otherwise the mean of exactly `trials` results in trial order, between their min and max and at least n |
| UpdatedCouponGame.RepeatedSimulationAgrees | Updated_Coupon_Game.py:26-28 | two calls with the same arguments return the same mean |

## Left out

- Console I/O: the `__main__` block in Coupon_Problem.py:40-53 only reads inputs and prints. It is not modelled.
- Web UI: the Streamlit calls in Updated_Coupon_Game.py:1, 32-58 are presentation. They are not modelled.
- The random generator: `random.randint` and `random.seed` are replaced by streams. The model assumes nothing about how a seed maps to a stream, or about the distribution of the draws.
- The generator state left after a batch: Coupon_Problem.py without a seed continues from the global state. The model does not return the unconsumed stream.
- `math.log`: the logarithm in Updated_Coupon_Game.py:10 is the parameter `log`. Its value is not modelled, so nothing is claimed about how close ln(n) + γ is to H_n.
- `math.sqrt`: Coupon_Problem.py:29 becomes the exact variance. The `std` field is the `variance` field of `Summary`, and the square root is not taken.
- Floating point: all sums, products and divisions are exact rationals. IEEE rounding of `1.0 / k`, of the mean and of the variance is not reproduced.
- Probabilistic statements: no claim that the simulated mean approaches n·H_n, since that cannot hold for a fixed stream.
- Non-termination: `simulate_one` loops forever on a generator that never yields n distinct values. `SimulateOne` and `Simulate` require streams long enough to finish, so a diverging run is not modelled.
- Default arguments: `trials = 50` and `seed = 42` in Updated_Coupon_Game.py:26 are not modelled. Callers pass every argument.
- Python's dynamic typing: `n` and `trials` are integers. Non-integer arguments are not modelled.
