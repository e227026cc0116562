/**
 * The single-trial collection process over an explicit stream of draws.
 *
 * The pseudo-random generator is replaced by a finite sequence of the values it
 * would return, in order. This module defines, as functions on that sequence,
 * how many draws one trial consumes and what a batch of consecutive trials
 * returns; the executable loops of the two copies are proved against them.
 */
module Collection {
  import opened Wrappers

  /** The distinct values occurring in a sequence of draws. */
  function Distinct(s: seq<int>): set<int> {
    set x | x in s
  }

  /** The coupon types 1..n (empty when n <= 0). */
  function Coupons(n: int): (c: set<int>)
    ensures forall k :: k in c <==> 1 <= k <= n
  {
    if n <= 0 then {} else Coupons(n - 1) + {n}
  }

  /** Every draw is a value `randint(1, n)` can return. */
  predicate InRange(n: int, s: seq<int>) {
    forall i :: 0 <= i < |s| ==> 1 <= s[i] <= n
  }

  /** The draws contain every coupon type at least once. */
  predicate Covers(n: int, s: seq<int>) {
    Coupons(n) <= Distinct(s)
  }

  /** Appending a draw adds exactly that value to the distinct values. */
  lemma DistinctAppend(s: seq<int>, x: int)
    ensures Distinct(s + [x]) == Distinct(s) + {x}
  {
    assert forall y :: y in s + [x] <==> y in s || y == x;
  }

  /** Extending a prefix by one draw adds that draw to its distinct values. */
  lemma DistinctPrefixStep(s: seq<int>, j: nat)
    requires j < |s|
    ensures Distinct(s[..j + 1]) == Distinct(s[..j]) + {s[j]}
  {
    assert s[..j + 1] == s[..j] + [s[j]];
    DistinctAppend(s[..j], s[j]);
  }

  /** A sequence has at most as many distinct values as elements. */
  lemma {:induction false} DistinctAtMostLength(s: seq<int>)
    ensures |Distinct(s)| <= |s|
  {
    if |s| > 0 {
      var t := s[..|s| - 1];
      assert s == t + [s[|s| - 1]];
      DistinctAppend(t, s[|s| - 1]);
      DistinctAtMostLength(t);
    }
  }

  /** A subset is no larger than its superset, and equally large only when equal. */
  lemma SubsetCardinality(a: set<int>, b: set<int>)
    requires a <= b
    ensures |a| <= |b|
    ensures |a| == |b| ==> a == b
  {
    assert b == a + (b - a);
    assert a * (b - a) == {};
  }

  /** A longer prefix has at least the distinct values of a shorter one. */
  lemma DistinctPrefixMonotone(s: seq<int>, i: nat, j: nat)
    requires i <= j <= |s|
    ensures Distinct(s[..i]) <= Distinct(s[..j])
    ensures |Distinct(s[..i])| <= |Distinct(s[..j])|
  {
    forall x | x in Distinct(s[..i]) ensures x in Distinct(s[..j]) {
      var k :| 0 <= k < i && s[..i][k] == x;
      assert s[..j][k] == x;
    }
    SubsetCardinality(Distinct(s[..i]), Distinct(s[..j]));
  }

  /** Adding type n to the types below it adds one new element. */
  lemma CouponsStep(n: int)
    requires n > 0
    ensures n !in Coupons(n - 1)
    ensures |Coupons(n)| == |Coupons(n - 1)| + 1
  {
    var below := Coupons(n - 1);
    assert n !in below;
    assert Coupons(n) == below + {n};
  }

  /** There are exactly n coupon types for n >= 1, none otherwise. */
  lemma {:induction false} CouponsCardinality(n: int)
    ensures n <= 0 ==> |Coupons(n)| == 0
    ensures 0 < n ==> |Coupons(n)| == n
  {
    if n > 0 {
      CouponsCardinality(n - 1);
      CouponsStep(n);
    } else {
      assert Coupons(n) == {};
    }
  }

  /**
   * For draws that are all in 1..n, holding n distinct values is the same as
   * covering every coupon type; this is why the loop guard `len(seen) < n`
   * stops exactly when the collection is complete.
   */
  lemma CoversIffEnoughDistinct(n: int, s: seq<int>)
    requires InRange(n, s)
    ensures Distinct(s) <= Coupons(n)
    ensures Covers(n, s) <==> n <= |Distinct(s)|
    ensures n <= |Distinct(s)| ==> Distinct(s) == Coupons(n)
  {
    assert Distinct(s) <= Coupons(n);
    CouponsCardinality(n);
    SubsetCardinality(Distinct(s), Coupons(n));
    if Covers(n, s) {
      SubsetCardinality(Coupons(n), Distinct(s));
    }
  }

  /**
   * The number of draws one trial takes on the stream `s`: the length of the
   * shortest prefix of `s` holding n distinct values.
   */
  function DrawsToCollect(n: int, s: seq<int>): (r: nat)
    requires n <= |Distinct(s)|
    ensures r <= |s|
    ensures n <= |Distinct(s[..r])|
    ensures forall j :: 0 <= j < r ==> |Distinct(s[..j])| < n
    ensures n <= r
    decreases |s|
  {
    if |s| == 0 then
      assert s[..0] == s;
      0
    else
      var t := s[..|s| - 1];
      assert s[..|s|] == s;
      if |Distinct(t)| < n then
        assert forall j :: 0 <= j < |s| ==> |Distinct(s[..j])| <= |Distinct(t)| by {
          forall j | 0 <= j < |s| ensures |Distinct(s[..j])| <= |Distinct(t)| {
            DistinctPrefixMonotone(s, j, |s| - 1);
          }
        }
        DistinctAtMostLength(s);
        |s|
      else
        var r := DrawsToCollect(n, t);
        assert forall j :: 0 <= j <= |t| ==> t[..j] == s[..j];
        DistinctAtMostLength(s[..r]);
        r
  }

  /**
   * For n >= 0 a trial stops with exactly n distinct values seen: the draw
   * that ends it adds one value to fewer than n.
   */
  lemma DrawsToCollectSeesExactlyN(n: int, s: seq<int>)
    requires 0 <= n <= |Distinct(s)|
    ensures |Distinct(s[..DrawsToCollect(n, s)])| == n
  {
    var d := DrawsToCollect(n, s);
    if d > 0 {
      DistinctPrefixStep(s, d - 1);
    }
  }

  /** The three defining facts of DrawsToCollect determine it uniquely. */
  lemma DrawsToCollectUnique(n: int, s: seq<int>, r: nat)
    requires n <= |Distinct(s)|
    requires r <= |s| && n <= |Distinct(s[..r])|
    requires forall j :: 0 <= j < r ==> |Distinct(s[..j])| < n
    ensures r == DrawsToCollect(n, s)
  {
  }

  /**
   * One more draw of an unfinished trial whose seen set is the distinct values
   * of the draws so far: the draw is still within the trial, the seen set
   * with the drawn value added is the distinct values of one more draw, it
   * grows by at most one, and it stays within 1..n for in-range draws.
   */
  lemma DrawStep(n: int, s: seq<int>, draws: nat, seen: set<int>)
    requires n <= |Distinct(s)| && draws <= DrawsToCollect(n, s)
    requires seen == Distinct(s[..draws]) && |seen| < n && |seen| <= draws
    requires InRange(n, s) ==> seen <= Coupons(n)
    ensures draws < |s| && draws + 1 <= DrawsToCollect(n, s)
    ensures seen + {s[draws]} == Distinct(s[..draws + 1])
    ensures |seen + {s[draws]}| <= draws + 1
    ensures InRange(n, s) ==> seen + {s[draws]} <= Coupons(n)
  {
    DistinctPrefixStep(s, draws);
  }

  /** A trial that has seen n values without passing DrawsToCollect has reached it. */
  lemma DrawsDone(n: int, s: seq<int>, draws: nat)
    requires n <= |Distinct(s)|
    requires draws <= DrawsToCollect(n, s) && n <= |Distinct(s[..draws])|
    ensures draws == DrawsToCollect(n, s)
  {
  }

  /** A prefix of in-range draws is in range. */
  lemma InRangePrefix(n: int, s: seq<int>, j: nat)
    requires InRange(n, s) && j <= |s|
    ensures InRange(n, s[..j])
  {
  }

  /** For in-range draws, a prefix with fewer than n distinct values misses some coupon type. */
  lemma ShortPrefixMisses(n: int, s: seq<int>, j: nat)
    requires InRange(n, s) && j <= |s| && |Distinct(s[..j])| < n
    ensures !Covers(n, s[..j])
  {
    InRangePrefix(n, s, j);
    CoversIffEnoughDistinct(n, s[..j]);
  }

  /**
   * With every draw in 1..n, one trial ends on the shortest prefix of the
   * stream that covers all coupon types, and what it has seen is exactly 1..n.
   */
  lemma DrawsToCollectIsShortestCover(n: int, s: seq<int>)
    requires InRange(n, s) && Covers(n, s)
    ensures n <= |Distinct(s)|
    ensures Covers(n, s[..DrawsToCollect(n, s)])
    ensures Distinct(s[..DrawsToCollect(n, s)]) == Coupons(n)
    ensures forall j :: 0 <= j < DrawsToCollect(n, s) ==> !Covers(n, s[..j])
  {
    CoversIffEnoughDistinct(n, s);
    var d := DrawsToCollect(n, s);
    InRangePrefix(n, s, d);
    CoversIffEnoughDistinct(n, s[..d]);
    forall j | 0 <= j < d ensures !Covers(n, s[..j]) {
      ShortPrefixMisses(n, s, j);
    }
  }

  /** With a single coupon type every trial ends after its first draw. */
  lemma SingleCouponOneDraw(s: seq<int>)
    requires |s| >= 1
    ensures 1 <= |Distinct(s)|
    ensures DrawsToCollect(1, s) == 1
  {
    assert s[0] in Distinct(s);
    assert s[..1] == [s[0]];
    assert Distinct(s[..1]) == {s[0]};
    assert s[..0] == [];
    assert Distinct(s[..0]) == {};
    DrawsToCollectUnique(1, s, 1);
  }

  /** The outcome of a batch: per-trial draw counts in trial order, and draws consumed. */
  datatype Batch = Batch(results: seq<nat>, used: nat)

  /**
   * One more trial after batch `b`: it starts where `b` stopped and is None
   * when the rest of the stream never yields n distinct values.
   */
  function Next(n: int, s: seq<int>, b: Batch): (r: Option<Batch>)
    requires b.used <= |s|
  {
    var rest := s[b.used..];
    if |Distinct(rest)| < n then None
    else
      var d := DrawsToCollect(n, rest);
      Some(Batch(b.results + [d], b.used + d))
  }

  /**
   * `k` consecutive trials on one stream, each starting where the previous one
   * stopped; None when the stream runs out before the last trial completes.
   */
  function Run(n: int, s: seq<int>, k: nat): (r: Option<Batch>)
    ensures r.Some? ==> |r.value.results| == k && r.value.used <= |s|
    ensures r.Some? ==> forall i :: 0 <= i < k ==> n <= r.value.results[i]
  {
    if k == 0 then Some(Batch([], 0))
    else
      match Run(n, s, k - 1)
      case None => None
      case Some(b) => Next(n, s, b)
  }

  /** A batch that can run one more trial still has n distinct values left in its stream. */
  lemma RunNextFeasible(n: int, s: seq<int>, k: nat, results: seq<nat>, used: nat)
    requires Run(n, s, k) == Some(Batch(results, used)) && Run(n, s, k + 1).Some?
    ensures used <= |s| && n <= |Distinct(s[used..])|
  {
  }

  /** One more trial extends a batch by the draws that trial takes on the rest of the stream. */
  lemma RunExtend(n: int, s: seq<int>, k: nat, results: seq<nat>, used: nat, draws: nat)
    requires Run(n, s, k) == Some(Batch(results, used)) && Run(n, s, k + 1).Some?
    requires used <= |s| && n <= |Distinct(s[used..])| && draws == DrawsToCollect(n, s[used..])
    ensures Run(n, s, k + 1) == Some(Batch(results + [draws], used + draws))
  {
  }

  /** A feasible batch of k > 0 trials extends the feasible batch of its first k - 1 trials. */
  lemma RunStep(n: int, s: seq<int>, k: nat)
    requires 0 < k && Run(n, s, k).Some?
    ensures Run(n, s, k - 1).Some?
    ensures Run(n, s, k - 1).value.results == Run(n, s, k).value.results[..k - 1]
  {
    var b := Run(n, s, k - 1).value;
    var d := DrawsToCollect(n, s[b.used..]);
    assert Run(n, s, k).value.results == b.results + [d];
  }

  /** A prefix of a prefix of r is a prefix of r. */
  lemma PrefixOfPrefix(first: seq<nat>, before: seq<nat>, r: seq<nat>, j: nat, k: nat)
    requires j <= k <= |r| && before == r[..k] && first == before[..j]
    ensures first == r[..j]
  {
  }

  /** A feasible batch of k trials starts with the feasible batch of its first j trials. */
  lemma {:induction false} RunPrefix(n: int, s: seq<int>, j: nat, k: nat)
    requires j <= k && Run(n, s, k).Some?
    ensures Run(n, s, j).Some?
    ensures Run(n, s, j).value.results == Run(n, s, k).value.results[..j]
    decreases k
  {
    if j == k {
      var r := Run(n, s, k).value.results;
      assert r[..k] == r;
    } else {
      RunStep(n, s, k);
      RunPrefix(n, s, j, k - 1);
      PrefixOfPrefix(Run(n, s, j).value.results, Run(n, s, k - 1).value.results,
                     Run(n, s, k).value.results, j, k - 1);
    }
  }

  /** With one coupon type, a batch of k trials needs k draws and every trial takes one. */
  lemma {:induction false} SingleCouponRun(s: seq<int>, k: nat)
    ensures Run(1, s, k).Some? <==> k <= |s|
    ensures Run(1, s, k).Some? ==> Run(1, s, k).value.used == k
    ensures Run(1, s, k).Some? ==> forall i :: 0 <= i < k ==> Run(1, s, k).value.results[i] == 1
  {
    if k > 0 {
      SingleCouponRun(s, k - 1);
      if k - 1 <= |s| {
        var b := Run(1, s, k - 1).value;
        var rest := s[b.used..];
        if |rest| >= 1 {
          SingleCouponOneDraw(rest);
        } else {
          assert Distinct(rest) == {};
        }
      }
    }
  }
}
