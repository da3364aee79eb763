/** Retry delays of internal/errors/types.go and internal/errors/jitter.go.  Delays are
    nanoseconds; the float64 arithmetic is done over reals.  What a float outside the int64
    range converts to depends on the machine, so the conversion is a parameter. */
module Backoff {
  import opened Helpers

  const SECOND := 1_000_000_000

  datatype RetryConfig = RetryConfig(maxAttempts: int, baseDelay: int, maxDelay: int, multiplier: real)

  const DEFAULT_RETRY := RetryConfig(3, SECOND / 10, 10 * SECOND, 2.0)
  const STARTUP_RETRY := RetryConfig(8, SECOND, 30 * SECOND, 2.0)

  function Power(m: real, k: nat): real {
    if k == 0 then 1.0 else Power(m, k - 1) * m
  }

  /** Conversion of a float to an integer type drops the fraction. */
  function Truncate(x: real): int { if x >= 0.0 then x.Floor else -(-x).Floor }

  predicate InRange(x: real) { Fits(Truncate(x)) }

  type Conversion = real -> int

  /** A machine's conversion to int64: exact within the range, anything beyond it. */
  ghost predicate Converts(conv: Conversion) {
    forall x: real :: Fits(conv(x)) && (InRange(x) ==> conv(x) == Truncate(x))
  }

  /** base * mult^k before conversion. */
  function Exact(rc: RetryConfig, k: nat): real { rc.baseDelay as real * Power(rc.multiplier, k) }

  function Delay(rc: RetryConfig, attempt: int, conv: Conversion): int {
    if attempt <= 0 then rc.baseDelay
    else
      var d := conv(Exact(rc, attempt));
      if d > rc.maxDelay then rc.maxDelay else d
  }

  lemma ExactStep(rc: RetryConfig, k: nat)
    ensures Exact(rc, k + 1) == Exact(rc, k) * rc.multiplier
  {
  }

  method CalculateDelay(rc: RetryConfig, attempt: int, conv: Conversion) returns (d: int)
    ensures d == Delay(rc, attempt, conv)
  {
    if attempt <= 0 { return rc.baseDelay; }
    var delay := rc.baseDelay as real;
    for i := 0 to attempt
      invariant delay == Exact(rc, i)
    {
      ExactStep(rc, i);
      delay := delay * rc.multiplier;
    }
    d := conv(delay);
    if d > rc.maxDelay { d := rc.maxDelay; }
  }

  function CappedPower(rc: RetryConfig, k: nat): int {
    if Exact(rc, k).Floor <= rc.maxDelay then Exact(rc, k).Floor else rc.maxDelay
  }

  lemma DelayOfExact(rc: RetryConfig, k: nat, conv: Conversion)
    requires 0 <= rc.baseDelay <= rc.maxDelay && Exact(rc, k) >= rc.baseDelay as real
    requires Converts(conv) && InRange(Exact(rc, k))
    ensures Delay(rc, k, conv) == CappedPower(rc, k) >= rc.baseDelay
  {
    assert Exact(rc, 0) == rc.baseDelay as real;
  }

  lemma GrowStep(x: real, m: real)
    requires x >= 0.0 && m >= 1.0
    ensures x <= x * m
  {
    assert x * (m - 1.0) >= 0.0;
  }

  lemma {:induction false} ExactGrows(rc: RetryConfig, j: nat, k: nat)
    requires 0 <= rc.baseDelay && rc.multiplier >= 1.0 && j <= k
    ensures rc.baseDelay as real <= Exact(rc, j) <= Exact(rc, k)
    decreases k
  {
    if k > 0 {
      ExactGrows(rc, if j < k then j else k - 1, k - 1);
      ExactStep(rc, k - 1);
      GrowStep(Exact(rc, k - 1), rc.multiplier);
    }
  }

  lemma FloorGrows(a: real, b: real)
    requires a <= b
    ensures a.Floor <= b.Floor
  {
  }

  /** While the product fits an int64 the delay is the floor of base * mult^k, capped, and
      grows with k. */
  lemma DelayIsCappedPower(rc: RetryConfig, j: nat, k: nat, conv: Conversion)
    requires 0 <= rc.baseDelay <= rc.maxDelay && rc.multiplier >= 1.0 && j <= k
    requires Converts(conv) && InRange(Exact(rc, k))
    ensures Delay(rc, k, conv) == CappedPower(rc, k)
    ensures rc.baseDelay <= Delay(rc, j, conv) <= Delay(rc, k, conv) <= rc.maxDelay
  {
    ExactGrows(rc, j, k);
    FloorGrows(Exact(rc, j), Exact(rc, k));
    DelayOfExact(rc, j, conv);
    DelayOfExact(rc, k, conv);
  }

  const SOME_MACHINE: Conversion := (x: real) => if InRange(x) then Truncate(x) else -1

  /** Exactly then: once the product leaves the int64 range there is a conversion that makes
      the delay negative. */
  lemma CappedPowerIffInRange(rc: RetryConfig, k: nat)
    requires 0 <= rc.baseDelay <= rc.maxDelay <= MAX64 && rc.multiplier >= 1.0
    ensures (forall conv: Conversion | Converts(conv) :: Delay(rc, k, conv) == CappedPower(rc, k)) <==> InRange(Exact(rc, k))
  {
    ExactGrows(rc, k, k);
    if InRange(Exact(rc, k)) {
      forall conv: Conversion | Converts(conv) ensures Delay(rc, k, conv) == CappedPower(rc, k) {
        DelayOfExact(rc, k, conv);
      }
    } else {
      assert Exact(rc, 0) == rc.baseDelay as real;
      assert Converts(SOME_MACHINE);
      assert Delay(rc, k, SOME_MACHINE) == -1 < CappedPower(rc, k);
    }
  }

  lemma {:induction false} PowerSum(m: real, a: nat, b: nat)
    ensures Power(m, a + b) == Power(m, a) * Power(m, b)
  {
    if b > 0 { PowerSum(m, a, b - 1); }
  }

  lemma PowersOfTwo()
    ensures Power(2.0, 33) == 8589934592.0 && Power(2.0, 34) == 17179869184.0
    ensures Power(2.0, 36) == 68719476736.0 && Power(2.0, 37) == 137438953472.0
  {
    assert Power(2.0, 4) == 16.0;
    PowerSum(2.0, 4, 4);
    PowerSum(2.0, 8, 8);
    PowerSum(2.0, 16, 16);
    PowerSum(2.0, 32, 4);
    assert Power(2.0, 33) == 2.0 * Power(2.0, 32);
    assert Power(2.0, 34) == 2.0 * Power(2.0, 33);
    assert Power(2.0, 37) == 2.0 * Power(2.0, 36);
  }

  /** How far the two configurations of the program stay in range: past every attempt they
      allow. */
  lemma ShippedRanges(k: nat)
    ensures InRange(Exact(DEFAULT_RETRY, k)) <==> k <= 36
    ensures InRange(Exact(STARTUP_RETRY, k)) <==> k <= 33
    ensures k < DEFAULT_RETRY.maxAttempts ==> k <= 36
    ensures k < STARTUP_RETRY.maxAttempts ==> k <= 33
  {
    PowersOfTwo();
    if k <= 36 { ExactGrows(DEFAULT_RETRY, k, 36); } else { ExactGrows(DEFAULT_RETRY, 37, k); }
    if k <= 33 { ExactGrows(STARTUP_RETRY, k, 33); } else { ExactGrows(STARTUP_RETRY, 34, k); }
  }

  /** The cap holds for every attempt iff the base delay respects it: attempt 0 is uncapped. */
  lemma CappedIffBaseIs(rc: RetryConfig, conv: Conversion)
    ensures (forall k: int :: Delay(rc, k, conv) <= rc.maxDelay) <==> rc.baseDelay <= rc.maxDelay
  {
    assert Delay(rc, 0, conv) == rc.baseDelay;
  }

  // ---- Jitter ----

  /** The random draw of rand.Int64N(2*halfRange+1). */
  predicate Draw(d: int, draw: int) { 0 <= draw <= 2 * (d / 4) }

  /** The sum is an int64 and wraps. */
  function WithJitter(d: int, draw: int): int {
    if d <= 0 then d
    else
      var halfRange := d / 4;
      if halfRange == 0 then d
      else
        var jittered := Wrap(d + (draw - halfRange));
        if jittered < 0 then 0 else jittered
  }

  predicate NearBy(d: int, r: int) { d - d / 4 <= r <= d + d / 4 }

  /** The delays whose jittered sum never wraps. */
  const MAX_JITTERED := 7378697629483820646

  /** Every draw stays within a quarter of the delay, and the clamp at zero never acts, if
      and only if the delay plus a quarter fits an int64. */
  lemma JitterStaysIff(d: int)
    requires 0 < d <= MAX64
    ensures (forall draw | Draw(d, draw) :: NearBy(d, WithJitter(d, draw))) <==> d + d / 4 <= MAX64
    ensures (forall draw | Draw(d, draw) :: WithJitter(d, draw) > 0) <==> d + d / 4 <= MAX64
    ensures d + d / 4 <= MAX64 <==> d <= MAX_JITTERED
  {
    var top := 2 * (d / 4);
    assert Draw(d, top);
    if d + d / 4 > MAX64 {
      assert Wrap(d + d / 4) == d + d / 4 - 0x1_0000_0000_0000_0000;
      assert WithJitter(d, top) == 0 && !NearBy(d, 0);
    }
  }

  /** The longest delay and the highest draw: the sum wraps and the clamp makes it 0. */
  lemma LongestDelayCanVanish()
    ensures Draw(MAX64, 2 * (MAX64 / 4)) && WithJitter(MAX64, 2 * (MAX64 / 4)) == 0
  {
  }

  /** In that range the jittered delays are exactly the numbers within a quarter of d. */
  lemma JitterRange(d: int, r: int)
    requires 0 < d && d + d / 4 <= MAX64
    ensures NearBy(d, r) <==> exists draw :: Draw(d, draw) && WithJitter(d, draw) == r
    ensures d - d / 4 > 0
  {
    if NearBy(d, r) {
      var draw := r - d + d / 4;
      assert Draw(d, draw) && WithJitter(d, draw) == r;
    }
  }

  lemma JitterBounds(d: int, draw: int)
    requires 0 <= d && d + d / 4 <= MAX64 && Draw(d, draw)
    ensures NearBy(d, WithJitter(d, draw))
  {
    if d > 0 { JitterRange(d, WithJitter(d, draw)); }
  }

  // ---- Budgets ----

  /** Total waiting before the first `n` retries, each delay passed through `f`. */
  function Total(rc: RetryConfig, n: nat, conv: Conversion, f: (int, nat) -> int): int {
    if n == 0 then 0 else Total(rc, n - 1, conv, f) + f(Delay(rc, n - 1, conv), n - 1)
  }

  const NOMINAL: (int, nat) -> int := (d: int, k: nat) => d
  const LEAST: (int, nat) -> int := (d: int, k: nat) => d - d / 4
  const MOST: (int, nat) -> int := (d: int, k: nat) => d + d / 4

  function Jittered(draws: nat -> int): (int, nat) -> int { (d: int, k: nat) => WithJitter(d, draws(k)) }

  lemma {:induction false} TotalWithinBudget(rc: RetryConfig, n: nat, conv: Conversion, draws: nat -> int)
    requires 0 <= rc.baseDelay <= rc.maxDelay && rc.multiplier >= 1.0
    requires rc.maxDelay + rc.maxDelay / 4 <= MAX64
    requires Converts(conv) && forall k: nat | k < n :: InRange(Exact(rc, k))
    requires forall k: nat | k < n :: Draw(Delay(rc, k, conv), draws(k))
    ensures Total(rc, n, conv, LEAST) <= Total(rc, n, conv, Jittered(draws)) <= Total(rc, n, conv, MOST)
  {
    if n > 0 {
      TotalWithinBudget(rc, n - 1, conv, draws);
      DelayIsCappedPower(rc, n - 1, n - 1, conv);
      JitterBounds(Delay(rc, n - 1, conv), draws(n - 1));
    }
  }

  /** The two delays of DefaultRetryConfig, in nanoseconds. */
  lemma DefaultDelays(conv: Conversion)
    requires Converts(conv)
    ensures Delay(DEFAULT_RETRY, 0, conv) == 100_000_000 && Delay(DEFAULT_RETRY, 1, conv) == 200_000_000
    ensures DEFAULT_RETRY.maxAttempts == 3
  {
    ShippedRanges(1);
    DelayIsCappedPower(DEFAULT_RETRY, 1, 1, conv);
    assert Power(2.0, 1) == 2.0;
  }

  lemma StartupDelays(conv: Conversion)
    requires Converts(conv)
    ensures Delay(STARTUP_RETRY, 0, conv) == SECOND && Delay(STARTUP_RETRY, 1, conv) == 2 * SECOND
    ensures Delay(STARTUP_RETRY, 2, conv) == 4 * SECOND && Delay(STARTUP_RETRY, 3, conv) == 8 * SECOND
    ensures Delay(STARTUP_RETRY, 4, conv) == 16 * SECOND
    ensures Delay(STARTUP_RETRY, 5, conv) == 30 * SECOND && Delay(STARTUP_RETRY, 6, conv) == 30 * SECOND
  {
    StartupDelay(1, 2.0, conv);
    StartupDelay(2, 4.0, conv);
    StartupDelay(3, 8.0, conv);
    StartupDelay(4, 16.0, conv);
    StartupDelay(5, 32.0, conv);
    StartupDelay(6, 64.0, conv);
  }

  lemma StartupDelay(k: nat, power: real, conv: Conversion)
    requires Converts(conv) && 0 < k <= 6 && Power(2.0, k) == power
    ensures Delay(STARTUP_RETRY, k, conv) ==
      if (SECOND as real * power).Floor <= 30 * SECOND then (SECOND as real * power).Floor else 30 * SECOND
  {
    ShippedRanges(k);
    DelayIsCappedPower(STARTUP_RETRY, k, k, conv);
  }

  function Term(rc: RetryConfig, k: nat, conv: Conversion, f: (int, nat) -> int): int { f(Delay(rc, k, conv), k) }

  lemma SevenTerms(rc: RetryConfig, conv: Conversion, f: (int, nat) -> int)
    ensures Total(rc, 7, conv, f) == Term(rc, 0, conv, f) + Term(rc, 1, conv, f) + Term(rc, 2, conv, f)
      + Term(rc, 3, conv, f) + Term(rc, 4, conv, f) + Term(rc, 5, conv, f) + Term(rc, 6, conv, f)
  {
    assert Total(rc, 0, conv, f) == 0;
    assert Total(rc, 1, conv, f) == Term(rc, 0, conv, f);
    assert Total(rc, 2, conv, f) == Term(rc, 0, conv, f) + Term(rc, 1, conv, f);
    assert Total(rc, 4, conv, f) == Total(rc, 2, conv, f) + Term(rc, 2, conv, f) + Term(rc, 3, conv, f);
    assert Total(rc, 6, conv, f) == Total(rc, 4, conv, f) + Term(rc, 4, conv, f) + Term(rc, 5, conv, f);
  }

  /** The start-up budget: 91s without jitter, and always between 68.25s and 113.75s. */
  lemma StartupBudget(conv: Conversion, draws: nat -> int)
    requires Converts(conv) && forall k: nat | k < 7 :: Draw(Delay(STARTUP_RETRY, k, conv), draws(k))
    ensures Total(STARTUP_RETRY, STARTUP_RETRY.maxAttempts - 1, conv, NOMINAL) == 91 * SECOND
    ensures 68_250_000_000 <= Total(STARTUP_RETRY, STARTUP_RETRY.maxAttempts - 1, conv, Jittered(draws)) <= 113_750_000_000
  {
    StartupDelays(conv);
    SevenTerms(STARTUP_RETRY, conv, NOMINAL);
    SevenTerms(STARTUP_RETRY, conv, LEAST);
    SevenTerms(STARTUP_RETRY, conv, MOST);
    forall k: nat | k < 7 ensures InRange(Exact(STARTUP_RETRY, k)) { ShippedRanges(k); }
    TotalWithinBudget(STARTUP_RETRY, 7, conv, draws);
  }
}
