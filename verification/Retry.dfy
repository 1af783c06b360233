/**
  When a failed task is retried and how long it waits. The delays form a geometric series; its sum and its
  monotonicity are settled here for every policy, negative and shrinking ones included.
 */
module Retry {
  import opened Wrappers

  /** An exception, by the names of the classes it is an instance of. */
  datatype Failure = Failure(classes: set<string>)

  /** No class filter, or an empty one, lets every exception through. */
  datatype RetryPolicy = RetryPolicy(maxRetries: int, initial: real, factor: real, retryable: Option<set<string>>)

  function Pow(f: real, n: nat): real {
    if n == 0 then 1.0 else f * Pow(f, n - 1)
  }

  function CalculateDelay(p: RetryPolicy, retryCount: int): real {
    if retryCount <= 0 then 0.0 else p.initial * Pow(p.factor, retryCount - 1)
  }

  predicate Retryable(p: RetryPolicy, error: Failure) {
    p.retryable.None? || p.retryable.value == {} || exists c :: c in p.retryable.value && c in error.classes
  }

  predicate ShouldRetry(policy: Option<RetryPolicy>, retryCount: int, error: Failure) {
    policy.Some? && retryCount < policy.value.maxRetries && Retryable(policy.value, error)
  }

  // ---------- the sum of the delays ----------

  /** What a task waits in all over the `n` retries after the first `from`. */
  function TotalDelay(p: RetryPolicy, from: nat, n: nat): real {
    if n == 0 then 0.0 else TotalDelay(p, from, n - 1) + CalculateDelay(p, from + n)
  }

  lemma {:induction false} PowAdd(f: real, a: nat, b: nat)
    ensures Pow(f, a + b) == Pow(f, a) * Pow(f, b)
  {
    if b > 0 {
      PowAdd(f, a, b - 1);
      var x, y := Pow(f, a), Pow(f, b - 1);
      assert f * (x * y) == x * (f * y);
    }
  }

  /** What makes the sum of a geometric series collapse. */
  predicate Telescopes(f: real, total: real, initial: real, first: real, last: real) {
    (f - 1.0) * total == initial * last - initial * first
  }

  lemma SplitProduct(a: real, t: real, u: real)
    ensures a * (t + u) == a * t + a * u
  {
  }

  lemma SwapFactors(f: real, i: real, q: real)
    ensures f * (i * q) == i * (f * q)
  {
  }

  lemma TelescopeStep(f: real, total: real, initial: real, first: real, last: real, more: real, next: real)
    requires Telescopes(f, total, initial, first, last)
    requires more == total + initial * last && next == f * last
    ensures Telescopes(f, more, initial, first, next)
  {
    SplitProduct(f - 1.0, total, initial * last);
    SwapFactors(f, initial, last);
  }

  lemma NothingTelescopes(f: real, initial: real, first: real)
    ensures Telescopes(f, 0.0, initial, first, first)
  {
  }

  lemma OneMoreDelay(p: RetryPolicy, from: nat, n: nat)
    requires n > 0
    ensures TotalDelay(p, from, n) == TotalDelay(p, from, n - 1) + p.initial * Pow(p.factor, from + n - 1)
    ensures Pow(p.factor, from + n) == p.factor * Pow(p.factor, from + n - 1)
  {
  }

  lemma {:induction false} DelaysTelescope(p: RetryPolicy, from: nat, n: nat)
    ensures Telescopes(p.factor, TotalDelay(p, from, n), p.initial, Pow(p.factor, from), Pow(p.factor, from + n))
  {
    assert TotalDelay(p, from, 0) == 0.0;
    hide *;
    if n == 0 {
      NothingTelescopes(p.factor, p.initial, Pow(p.factor, from));
    } else {
      DelaysTelescope(p, from, n - 1);
      OneMoreDelay(p, from, n);
      TelescopeStep(p.factor, TotalDelay(p, from, n - 1), p.initial, Pow(p.factor, from), Pow(p.factor, from + n - 1),
        TotalDelay(p, from, n), Pow(p.factor, from + n));
    }
  }

  /** initial * first * (ratio - 1) / (f - 1) */
  function Geometric(initial: real, first: real, ratio: real, f: real): real
    requires f != 1.0
  {
    initial * first * (ratio - 1.0) / (f - 1.0)
  }

  /** The delays of n retries add up to initial * f^from * (f^n - 1) / (f - 1), and to n * initial when f is 1. */
  lemma TotalDelayIsGeometric(p: RetryPolicy, from: nat, n: nat)
    ensures p.factor != 1.0 ==>
      TotalDelay(p, from, n) == Geometric(p.initial, Pow(p.factor, from), Pow(p.factor, n), p.factor)
    ensures p.factor == 1.0 ==> TotalDelay(p, from, n) == p.initial * n as real
  {
    hide *;
    if p.factor == 1.0 {
      FlatDelays(p, from, n);
    } else {
      DelaysTelescope(p, from, n);
      PowAdd(p.factor, from, n);
      Collapse(p.factor, TotalDelay(p, from, n), p.initial,
        Pow(p.factor, from), Pow(p.factor, n), Pow(p.factor, from + n));
    }
  }

  lemma Regroup(a: real, x: real, y: real)
    ensures a * (x * y) - a * x == a * x * (y - 1.0)
  {
  }

  lemma Quotient(d: real, q: real, n: real)
    requires d != 0.0 && d * q == n
    ensures q == n / d
  {
  }

  lemma Collapse(f: real, total: real, initial: real, first: real, ratio: real, last: real)
    requires f != 1.0 && last == first * ratio && Telescopes(f, total, initial, first, last)
    ensures total == Geometric(initial, first, ratio, f)
  {
    Regroup(initial, first, ratio);
    Quotient(f - 1.0, total, initial * first * (ratio - 1.0));
  }

  lemma {:induction false} PowOne(n: nat)
    ensures Pow(1.0, n) == 1.0
  {
    if n > 0 {
      PowOne(n - 1);
    }
  }

  lemma {:induction false} FlatDelays(p: RetryPolicy, from: nat, n: nat)
    requires p.factor == 1.0
    ensures TotalDelay(p, from, n) == p.initial * n as real
  {
    if n > 0 {
      FlatDelays(p, from, n - 1);
      PowOne(from + n - 1);
      assert p.initial * (n - 1) as real + p.initial == p.initial * n as real;
    }
  }

  // ---------- growing delays ----------

  ghost predicate NeverShrinks(p: RetryPolicy) {
    forall j: nat, k: nat :: j <= k ==> CalculateDelay(p, j) <= CalculateDelay(p, k)
  }

  lemma {:induction false} PowGrows(f: real, j: nat, k: nat)
    requires f >= 1.0 && j <= k
    ensures 1.0 <= Pow(f, j) <= Pow(f, k)
  {
    if k == 0 {
      assert Pow(f, 0) == 1.0;
    } else {
      assert Pow(f, k) == f * Pow(f, k - 1);
      hide *;
      PowGrows(f, if j < k then j else j - 1, k - 1);
      Scale(f, Pow(f, k - 1), Pow(f, k));
    }
  }

  lemma Scale(f: real, x: real, scaled: real)
    requires f >= 1.0 && x >= 0.0 && scaled == f * x
    ensures scaled >= x
  {
    assert (f - 1.0) * x >= 0.0;
  }

  lemma ScaleBoth(a: real, x: real, y: real)
    requires a >= 0.0 && x <= y
    ensures a * x <= a * y
  {
    assert a * (y - x) >= 0.0;
  }

  lemma Grows(p: RetryPolicy, j: nat, k: nat)
    requires p.initial >= 0.0 && p.factor >= 1.0 && j <= k
    ensures CalculateDelay(p, j) <= CalculateDelay(p, k)
  {
    if j > 0 {
      PowGrows(p.factor, j - 1, k - 1);
      ScaleBoth(p.initial, Pow(p.factor, j - 1), Pow(p.factor, k - 1));
    } else if k > 0 {
      PowGrows(p.factor, 0, k - 1);
      ScaleBoth(p.initial, 0.0, Pow(p.factor, k - 1));
    }
  }

  lemma NoDelay(p: RetryPolicy, k: nat)
    requires p.initial == 0.0
    ensures CalculateDelay(p, k) == 0.0
  {
    if k > 0 {
      ZeroScaled(Pow(p.factor, k - 1));
    }
  }

  lemma ZeroScaled(x: real)
    ensures 0.0 * x == 0.0
  {
  }

  /** The delays never shrink exactly when there is no base delay, or a positive one and a factor of at least 1. */
  lemma NeverShrinksIff(p: RetryPolicy)
    ensures NeverShrinks(p) <==> p.initial == 0.0 || (p.initial > 0.0 && p.factor >= 1.0)
  {
    hide CalculateDelay;
    forall j: nat, k: nat | j <= k && p.initial == 0.0 ensures CalculateDelay(p, j) <= CalculateDelay(p, k) {
      NoDelay(p, j);
      NoDelay(p, k);
    }
    forall j: nat, k: nat | j <= k && p.initial > 0.0 && p.factor >= 1.0
      ensures CalculateDelay(p, j) <= CalculateDelay(p, k)
    {
      Grows(p, j, k);
    }
    if NeverShrinks(p) {
      assert CalculateDelay(p, 0) <= CalculateDelay(p, 1) <= CalculateDelay(p, 2);
      FirstDelays(p);
      SecondNotSmaller(p.initial, p.factor, CalculateDelay(p, 2));
    }
  }

  lemma FirstDelays(p: RetryPolicy)
    ensures CalculateDelay(p, 0) == 0.0 && CalculateDelay(p, 1) == p.initial
    ensures CalculateDelay(p, 2) == p.initial * p.factor
  {
    assert Pow(p.factor, 1) == p.factor * Pow(p.factor, 0);
  }

  lemma SecondNotSmaller(a: real, f: real, second: real)
    requires a <= second == a * f
    ensures a > 0.0 ==> f >= 1.0
  {
    assert a > 0.0 && f < 1.0 ==> a * (1.0 - f) > 0.0;
  }
}
