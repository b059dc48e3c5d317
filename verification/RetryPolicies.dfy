/** internal/core/mailer/retry.go: the capped exponential backoff, on int64 nanoseconds. */
module RetryPolicies {
  import opened Numbers

  const SECOND: int64 := 1_000_000_000

  datatype RetryPolicy = RetryPolicy(maxAttempts: int64, baseDelay: int64, maxDelay: int64) {

    /** What internal/application/config/retry_config.go checks before a policy is used. */
    predicate Configured() { 1 <= maxAttempts && 0 < baseDelay <= maxDelay }

    /** `delay` after at most `times` rounds of the doubling loop, which stops at maxDelay and wraps like int64. */
    function Doubled(delay: int64, times: nat): int64
      decreases times
    {
      if times == 0 || delay >= maxDelay then delay else Doubled(Wrap64(2 * delay), times - 1)
    }

    function Delay(attempt: int): (d: int64)
      ensures d <= maxDelay
    {
      Min(Doubled(baseDelay, Max(attempt - 1, 0)), maxDelay)
    }

    predicate CanRetry(attempt: int) { attempt < maxAttempts }

    /** What the comment in retry.go promises: baseDelay doubled per attempt, capped at maxDelay. */
    function CappedDoubling(attempt: int): int
      requires 1 <= attempt
    {
      Min(baseDelay * Pow2(attempt - 1), maxDelay)
    }

    /** The first value of the sequence d, 2d, 4d, ... that reaches the cap. */
    function FirstReaching(d: int): (r: int)
      requires 0 < d
      ensures d <= r && maxDelay <= r
      decreases maxDelay - d
    {
      if d >= maxDelay then d else FirstReaching(2 * d)
    }

    /** The last doubling of the loop still fits in an int64. */
    predicate Fits()
      requires 0 < baseDelay
    {
      FirstReaching(baseDelay) < TWO_63
    }

    predicate Sound() { Configured() && Fits() }

    /** How many doublings take d to the cap. */
    function Rounds(d: int): (k: nat)
      requires 0 < d
      decreases maxDelay - d
    {
      if d >= maxDelay then 0 else 1 + Rounds(2 * d)
    }

    /** The loop of Delay; `rounds` counts its doublings. */
    method ComputeDelay(attempt: int64) returns (delay: int64, ghost rounds: nat)
      ensures delay == Delay(attempt)
      ensures Sound() ==> rounds <= Rounds(baseDelay)
    {
      delay := baseDelay;
      rounds := 0;
      var i := 1;
      while i < attempt && delay < maxDelay
        invariant 1 <= i <= Max(attempt, 1)
        invariant Doubled(delay, Max(attempt - i, 0)) == Doubled(baseDelay, Max(attempt - 1, 0))
        invariant Sound() ==> 0 < delay && FirstReaching(delay) == FirstReaching(baseDelay)
        invariant Sound() ==> rounds + Rounds(delay) == Rounds(baseDelay)
        decreases attempt - i
      {
        delay := Wrap64(2 * delay);
        rounds := rounds + 1;
        i := i + 1;
      }
      delay := Min(delay, maxDelay);
    }

    /** The loop of Delays, up to but not including attempt n; only the previous delay is compared. */
    function DelaysBefore(n: int): seq<int64>
      decreases n
    {
      if n <= 1 then []
      else
        var shorter := DelaysBefore(n - 1);
        var delay := Delay(n - 1);
        if |shorter| == 0 || shorter[|shorter| - 1] != delay then shorter + [delay] else shorter
    }

    function Delays(): seq<int64> { DelaysBefore(maxAttempts) }

    method ComputeDelays() returns (delays: seq<int64>)
      ensures delays == Delays()
    {
      delays := [];
      var attempt := 1;
      while attempt < maxAttempts
        invariant 1 <= attempt <= Max(maxAttempts, 1)
        invariant delays == DelaysBefore(attempt)
      {
        var delay, _ := ComputeDelay(attempt);
        if |delays| == 0 || delays[|delays| - 1] != delay {
          delays := delays + [delay];
        }
        attempt := attempt + 1;
      }
    }
  }

  // ---------------------------------------------------------------- Delay

  lemma {:induction false} DoubledWithoutWrap(p: RetryPolicy, d: int64, k: nat)
    requires 0 < d && p.FirstReaching(d) < TWO_63
    ensures Min(p.Doubled(d, k), p.maxDelay) == Min(d * Pow2(k), p.maxDelay)
    decreases k
  {
    ScaleByPow2(d, k);
    if k > 0 && d < p.maxDelay {
      DoubledWithoutWrap(p, 2 * d, k - 1);
    }
  }

  /** When the doublings do not fit, some number of rounds leaves a negative delay. */
  lemma {:induction false} DoubledWraps(p: RetryPolicy, d: int64) returns (k: nat)
    requires 0 < d && p.FirstReaching(d) >= TWO_63
    ensures p.Doubled(d, k) < 0
    decreases p.maxDelay - d
  {
    assert d < p.maxDelay;
    if 2 * d >= TWO_63 {
      k := 1;
      assert p.Doubled(d, 1) == p.Doubled(Wrap64(2 * d), 0);
    } else {
      var rest := DoubledWraps(p, 2 * d);
      k := rest + 1;
      assert p.Doubled(d, k) == p.Doubled(2 * d, rest);
    }
  }

  /** Delay is the promised capped doubling for every attempt exactly when the last doubling fits in an int64. */
  lemma {:induction false} DelayIsCappedDoublingIff(p: RetryPolicy)
    requires p.Configured()
    ensures (forall n :: 1 <= n ==> p.Delay(n) == p.CappedDoubling(n)) <==> p.Fits()
  {
    if p.Fits() {
      forall n | 1 <= n ensures p.Delay(n) == p.CappedDoubling(n) {
        DoubledWithoutWrap(p, p.baseDelay, n - 1);
      }
    } else {
      var k := DoubledWraps(p, p.baseDelay);
      assert p.Delay(k + 1) < 0 <= p.CappedDoubling(k + 1);
    }
  }

  lemma {:induction false} FirstReachingUnderTwice(p: RetryPolicy, d: int)
    requires 0 < d <= p.maxDelay
    ensures p.FirstReaching(d) < 2 * p.maxDelay
    decreases p.maxDelay - d
  {
    if d < p.maxDelay && 2 * d < p.maxDelay {
      FirstReachingUnderTwice(p, 2 * d);
    }
  }

  /** A cap of at most 2^62 ns (146 years) is enough; one nanosecond more is not. */
  lemma {:induction false} HalfRangeFits(p: RetryPolicy)
    requires p.Configured()
    ensures 2 * p.maxDelay <= TWO_63 ==> p.Sound()
    ensures var q := RetryPolicy(3, TWO_63 / 2, TWO_63 / 2 + 1);
            q.Configured() && !q.Fits() && q.Delay(2) == -TWO_63 && q.Delay(3) == 0
  {
    FirstReachingUnderTwice(p, p.baseDelay);
    var q := RetryPolicy(3, TWO_63 / 2, TWO_63 / 2 + 1);
    assert q.FirstReaching(q.baseDelay) == q.FirstReaching(2 * q.baseDelay);
    assert q.Doubled(q.baseDelay, 1) == q.Doubled(-TWO_63, 0);
    assert q.Doubled(q.baseDelay, 2) == q.Doubled(-TWO_63, 1) == q.Doubled(0, 0);
  }

  lemma {:induction false} DelayExact(p: RetryPolicy, n: int)
    requires p.Sound() && 1 <= n
    ensures p.Delay(n) == p.CappedDoubling(n)
  {
    DoubledWithoutWrap(p, p.baseDelay, n - 1);
  }

  /** Delays never shrink and stay within [baseDelay, maxDelay]. */
  lemma {:induction false} DelayMonotone(p: RetryPolicy, a: int, b: int)
    requires p.Sound() && 1 <= a <= b
    ensures p.baseDelay <= p.Delay(a) <= p.Delay(b) <= p.maxDelay
    decreases b
  {
    if a < b {
      DelayMonotone(p, a, b - 1);
      NextDelay(p, b - 1);
    } else {
      DelayExact(p, a);
      ScaleByPow2(p.baseDelay, a - 1);
    }
  }

  lemma {:induction false} NextDelay(p: RetryPolicy, a: int)
    requires p.Sound() && 1 <= a
    ensures p.Delay(a) <= p.Delay(a + 1)
  {
    DelayExact(p, a);
    DelayExact(p, a + 1);
    ScaleByPow2(p.baseDelay, a - 1);
    ScaleByPow2(p.baseDelay, a);
  }

  /** Rounds is the ceiling of log2(maxDelay / d). */
  lemma {:induction false} RoundsIsCeilLog(p: RetryPolicy, d: int)
    requires 0 < d < p.maxDelay
    ensures p.Rounds(d) >= 1
    ensures d * Pow2(p.Rounds(d) - 1) < p.maxDelay <= d * Pow2(p.Rounds(d))
    decreases p.maxDelay - d
  {
    var k := p.Rounds(d);
    if 2 * d < p.maxDelay {
      RoundsIsCeilLog(p, 2 * d);
      ScaleByPow2(d, k - 1);
      ScaleByPow2(d, k);
    } else {
      assert k == 1 && Pow2(1) == 2;
    }
  }

  // ---------------------------------------------------------------- Delays

  lemma {:induction false} DelaysBeforeIncrease(p: RetryPolicy, n: int)
    requires p.Sound() && 1 <= n
    ensures n >= 2 ==> |p.DelaysBefore(n)| > 0 && p.DelaysBefore(n)[|p.DelaysBefore(n)| - 1] == p.Delay(n - 1)
    ensures forall i, j :: 0 <= i < j < |p.DelaysBefore(n)| ==> p.DelaysBefore(n)[i] < p.DelaysBefore(n)[j]
    decreases n
  {
    if n >= 2 {
      DelaysBeforeIncrease(p, n - 1);
      if n >= 3 { DelayMonotone(p, n - 2, n - 1); }
    }
  }

  lemma {:induction false} DelaysBeforeElements(p: RetryPolicy, n: int, d: int64)
    requires 1 <= n
    ensures d in p.DelaysBefore(n) <==> exists a :: 1 <= a < n && p.Delay(a) == d
    decreases n
  {
    if n >= 2 {
      DelaysBeforeElements(p, n - 1, d);
      var shorter, longer := p.DelaysBefore(n - 1), p.DelaysBefore(n);
      assert d in longer <==> d in shorter || d == p.Delay(n - 1);
    }
  }

  /** Delays is strictly increasing, although only neighbours are compared, and lists exactly the waits in use. */
  lemma {:induction false} DelaysAreTheDistinctWaits(p: RetryPolicy)
    requires p.Sound()
    ensures forall i, j :: 0 <= i < j < |p.Delays()| ==> p.Delays()[i] < p.Delays()[j]
    ensures forall d: int64 :: d in p.Delays() <==> exists a :: 1 <= a < p.maxAttempts && p.Delay(a) == d
  {
    DelaysBeforeIncrease(p, p.maxAttempts);
    forall d: int64 ensures d in p.Delays() <==> exists a :: 1 <= a < p.maxAttempts && p.Delay(a) == d {
      DelaysBeforeElements(p, p.maxAttempts, d);
    }
  }

  /** The scheduled wait before attempt n, counted from attempt `first`. */
  function TotalWait(p: RetryPolicy, first: int, n: int): int
    decreases n - first
  {
    if n <= first then 0 else TotalWait(p, first, n - 1) + p.Delay(n - 1)
  }

  lemma {:induction false} TotalWaitBounds(p: RetryPolicy, n: int)
    requires p.Sound() && 1 <= n
    ensures TotalWait(p, 1, n) <= p.baseDelay * Pow2(n - 1) - p.baseDelay
    ensures TotalWait(p, 1, n) <= (n - 1) * p.maxDelay
    decreases n
  {
    if n > 1 {
      TotalWaitBounds(p, n - 1);
      DelayExact(p, n - 1);
      ScaleByPow2(p.baseDelay, n - 1);
      OneMore(n - 1, p.maxDelay);
    }
  }

  lemma {:induction false} OneMore(k: int, x: int)
    ensures k * x == (k - 1) * x + x
  {
  }

  // ---------------------------------------------------------------- reconnect backoff

  const INITIAL_BACKOFF: int64 := SECOND
  const MAX_BACKOFF: int64 := 30 * SECOND
  const BACKOFF := RetryPolicy(1, INITIAL_BACKOFF, MAX_BACKOFF)

  datatype ConnectEnd = Connected | Cancelled

  /** One second, two, four and so on, but never more than thirty. */
  predicate WaitsDouble(waits: seq<int64>) {
    forall k :: 0 <= k < |waits| ==> waits[k] == Min(SECOND * Pow2(k), 30 * SECOND)
  }

  /** The connect loop of both transports. `dials` lists whether each dial succeeds; the context ends after the last. */
  method Connect(dials: seq<bool>) returns (end: ConnectEnd, waits: seq<int64>)
    ensures end.Connected? <==> true in dials
    ensures |waits| <= |dials| && forall k :: 0 <= k < |waits| ==> !dials[k] && waits[k] == BACKOFF.Delay(k + 1)
    ensures WaitsDouble(waits)
    ensures end.Connected? ==> |waits| < |dials| && dials[|waits|]
    ensures end.Cancelled? ==> |waits| == |dials|
  {
    assert BACKOFF.Sound() by { HalfRangeFits(BACKOFF); }
    var backoff: int64 := INITIAL_BACKOFF;
    waits := [];
    DelayExact(BACKOFF, 1);
    while |waits| < |dials|
      invariant |waits| <= |dials|
      invariant forall k :: 0 <= k < |waits| ==> !dials[k] && waits[k] == BACKOFF.Delay(k + 1)
      invariant WaitsDouble(waits)
      invariant backoff == BACKOFF.Delay(|waits| + 1)
    {
      if dials[|waits|] {
        return Connected, waits;
      }
      DelayMonotone(BACKOFF, |waits| + 1, |waits| + 1);
      DelayExact(BACKOFF, |waits| + 1);
      DelayExact(BACKOFF, |waits| + 2);
      ScaleByPow2(SECOND, |waits| + 1);
      waits := waits + [backoff];
      backoff := Min(Wrap64(backoff * 2), MAX_BACKOFF);
    }
    end := Cancelled;
  }
}
