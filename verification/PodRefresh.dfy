/** Waiting for a renewed certificate to reach its secret. */
module PodRefresh {

  // durations in nanoseconds
  const SECOND := 1_000_000_000
  const RETRY_DELAY := 5 * SECOND
  const MAX_RETRIES := 12
  const MAX_DELAY := 30 * SECOND
  const TIMEOUT := 60 * SECOND

  /** Go's integer division truncates towards zero. */
  function Quotient(a: int, b: int): int
    requires b > 0
  {
    if a >= 0 then a / b else -(-a / b)
  }

  /** `n` steps of exponential growth by one half from the base delay, in whole nanoseconds. All
      values are far below 2^53, where the code's float multiplication is exact. */
  function Grown(n: nat): (d: int)
    ensures d >= RETRY_DELAY
  {
    if n == 0 then RETRY_DELAY else Grown(n - 1) * 3 / 2
  }

  /** How long to wait when the certificate was renewed `elapsed` ago. */
  function Backoff(elapsed: int): int {
    var retry := Quotient(elapsed, RETRY_DELAY);
    var n := if retry >= MAX_RETRIES then MAX_RETRIES - 1 else retry;
    var d := Grown(if n < 0 then 0 else n);
    if d > MAX_DELAY then MAX_DELAY else d
  }

  method CalculateBackoffDelay(elapsed: int) returns (delay: int)
    ensures delay == Backoff(elapsed)
  {
    var retryNum := Quotient(elapsed, RETRY_DELAY);
    if retryNum >= MAX_RETRIES {
      retryNum := MAX_RETRIES - 1;
    }
    delay := RETRY_DELAY;
    var i := 0;
    while i < retryNum
      invariant 0 <= i && (i <= retryNum || i == 0)
      invariant delay == Grown(i)
    {
      delay := delay * 3 / 2;
      i := i + 1;
    }
    if delay > MAX_DELAY {
      delay := MAX_DELAY;
    }
  }

  lemma {:induction false} GrowthIsMonotone(n: nat, m: nat)
    requires n <= m
    ensures Grown(n) <= Grown(m)
    decreases m - n
  {
    if n < m {
      GrowthIsMonotone(n + 1, m);
    }
  }

  /** The delay is between the base delay and the cap, and never shrinks as time passes. */
  lemma BackoffIsMonotone(e: int, e': int)
    requires e <= e'
    ensures RETRY_DELAY <= Backoff(e) <= Backoff(e') <= MAX_DELAY
  {
    var n, n' := Quotient(e, RETRY_DELAY), Quotient(e', RETRY_DELAY);
    var m := if n < 0 then 0 else if n >= MAX_RETRIES then MAX_RETRIES - 1 else n;
    var m' := if n' < 0 then 0 else if n' >= MAX_RETRIES then MAX_RETRIES - 1 else n';
    GrowthIsMonotone(m, m');
  }

  /** The validity period of a certificate. */
  datatype Certificate = Certificate(notBefore: int, notAfter: int)

  /** What looking at the secret of a certificate finds. */
  datatype SecretState =
    Unreadable | Missing | NoData | NoCertificate | NoKey | NoPemBlock | NoX509 | Holds(cert: Certificate)

  datatype Readiness = Ready | Requeue(delay: int) | Failed

  predicate Stale(secret: Certificate, expected: Certificate) {
    secret.notAfter < expected.notAfter || secret.notBefore < expected.notBefore
  }

  /** What to do about a secret whose certificate was decoded, at time `now`. */
  function SecretReadiness(secret: Certificate, expected: Certificate, now: int): Readiness {
    if Stale(secret, expected) && now - expected.notBefore < TIMEOUT then Requeue(Backoff(now - expected.notBefore))
      else Ready
  }

  /** The same for any state of the secret: one that holds no certificate yet is looked at again after the base
      delay, for as long as it takes. */
  function StateReadiness(state: SecretState, expected: Certificate, now: int): Readiness {
    match state
    case Unreadable => Failed
    case Holds(cert) => SecretReadiness(cert, expected, now)
    case _ => Requeue(RETRY_DELAY)
  }

  method VerifySecretReady(state: SecretState, expected: Certificate, now: int) returns (r: Readiness)
    ensures r == StateReadiness(state, expected, now)
  {
    if state.Unreadable? {
      return Failed;
    }
    if state.Missing? || state.NoData? || state.NoCertificate? || state.NoKey? || state.NoPemBlock? || state.NoX509? {
      return Requeue(RETRY_DELAY);
    }
    var secret := state.cert;
    if secret.notAfter < expected.notAfter || secret.notBefore < expected.notBefore {
      var timeSinceCertUpdate := now - expected.notBefore;
      if timeSinceCertUpdate < TIMEOUT {
        var delay := CalculateBackoffDelay(timeSinceCertUpdate);
        return Requeue(delay);
      }
    }
    return Ready;
  }

  /** The restart goes ahead exactly when the secret holds a certificate that neither begins nor ends before the
      expected one, or any certificate a minute after the renewal; and no look is asked for sooner than the base delay
      or later than the cap. A secret without a certificate is always looked at again after five seconds. */
  lemma ReadyExactly(state: SecretState, expected: Certificate, now: int)
    ensures var r := StateReadiness(state, expected, now);
            && (r.Ready? <==> state.Holds? && (now - expected.notBefore >= TIMEOUT ||
                                               (state.cert.notBefore >= expected.notBefore &&
                                                state.cert.notAfter >= expected.notAfter)))
            && (r.Requeue? ==> RETRY_DELAY <= r.delay <= MAX_DELAY)
            && (r.Failed? <==> state.Unreadable?)
            && (!state.Holds? && !state.Unreadable? ==> r == Requeue(5_000_000_000))
  {
    BackoffIsMonotone(now - expected.notBefore, now - expected.notBefore);
  }

  /** Look number `i` asks for another, which comes no earlier than it was asked for. */
  predicate AsksAgain(secret: Certificate, expected: Certificate, times: seq<int>, i: nat)
    requires i < |times|
  {
    var r := SecretReadiness(secret, expected, times[i]);
    r.Requeue? && (i + 1 < |times| ==> times[i + 1] >= times[i] + r.delay)
  }

  /** Times at which a secret is looked at and requeued. */
  predicate RequeueRun(secret: Certificate, expected: Certificate, times: seq<int>) {
    forall i: nat | i < |times| :: AsksAgain(secret, expected, times, i)
  }

  /** The earliest time after the renewal of look number `n`. */
  function Earliest(n: nat): int {
    if n == 0 then 0 else Earliest(n - 1) + Backoff(Earliest(n - 1))
  }

  lemma EarliestLooks()
    ensures Earliest(1) == 5 * SECOND && Earliest(2) == 12_500_000_000 && Earliest(3) == 23_750_000_000
    ensures Earliest(4) == 49_062_500_000 && Earliest(5) > TIMEOUT && Grown(5) > MAX_DELAY
  {
    assert Grown(1) == 7_500_000_000;
    assert Grown(2) == 11_250_000_000;
    assert Grown(3) == 16_875_000_000;
    assert Grown(4) == 25_312_500_000;
    assert Grown(5) == 37_968_750_000;
    GrowthIsMonotone(5, 9);
    assert Backoff(0) == 5 * SECOND;
    assert Earliest(0) == 0;
    assert Earliest(1) == Earliest(0) + Backoff(Earliest(0));
    assert Backoff(5 * SECOND) == Grown(1);
    assert Backoff(12_500_000_000) == Grown(2);
    assert Backoff(23_750_000_000) == Grown(4);
    assert Quotient(49_062_500_000, RETRY_DELAY) == 9;
    assert Backoff(49_062_500_000) == MAX_DELAY;
  }

  lemma Capped(elapsed: int)
    requires elapsed >= 5 * RETRY_DELAY
    ensures Backoff(elapsed) == MAX_DELAY
  {
    var retry := Quotient(elapsed, RETRY_DELAY);
    assert retry >= 5;
    EarliestLooks();
    GrowthIsMonotone(5, if retry >= MAX_RETRIES then MAX_RETRIES - 1 else retry);
  }

  /** The durations, in nanoseconds: half a minute at the most, a minute in all. */
  lemma Durations(secret: Certificate, expected: Certificate)
    requires Stale(secret, expected)
    ensures SecretReadiness(secret, expected, expected.notBefore) == Requeue(5_000_000_000)
    ensures SecretReadiness(secret, expected, expected.notBefore + 59_999_999_999) == Requeue(30_000_000_000)
    ensures SecretReadiness(secret, expected, expected.notBefore + 60_000_000_000) == Ready
  {
    assert Quotient(0, RETRY_DELAY) == 0;
    Capped(59_999_999_999);
  }

  lemma {:induction false} LooksAreLate(secret: Certificate, expected: Certificate, times: seq<int>, i: nat)
    requires RequeueRun(secret, expected, times) && i < |times| && times[0] >= expected.notBefore
    ensures times[i] - expected.notBefore >= Earliest(i)
  {
    if i > 0 {
      LooksAreLate(secret, expected, times, i - 1);
      assert AsksAgain(secret, expected, times, i - 1);
      BackoffIsMonotone(Earliest(i - 1), times[i - 1] - expected.notBefore);
    }
  }

  /** Once the new certificate is valid, a stale secret is requeued at most five times; the look after
      that proceeds with the restart. */
  lemma RequeueBound(secret: Certificate, expected: Certificate, times: seq<int>)
    requires RequeueRun(secret, expected, times)
    requires times != [] ==> times[0] >= expected.notBefore
    ensures |times| <= 5
  {
    if |times| > 5 {
      assert AsksAgain(secret, expected, times, 5);
      LooksAreLate(secret, expected, times, 5);
      EarliestLooks();
    }
  }

  /** Five requeues do happen: a secret that stays stale and looks that come on time. */
  lemma BoundIsReached(secret: Certificate, expected: Certificate)
    requires Stale(secret, expected)
    ensures RequeueRun(secret, expected, seq(5, i requires 0 <= i < 5 => expected.notBefore + Earliest(i)))
  {
    EarliestLooks();
    var times := seq(5, i requires 0 <= i < 5 => expected.notBefore + Earliest(i));
    forall i: nat | i < |times| ensures AsksAgain(secret, expected, times, i) {
      assert Earliest(i) < TIMEOUT;
      assert i + 1 < 5 ==> Earliest(i + 1) == Earliest(i) + Backoff(Earliest(i));
    }
  }
}
