/**
 * The delivery loop of internal/transport/dispatcher.go: retries with capped, jittered exponential
 * backoff for one event. Posting is an oracle, sleeping is measured in nanoseconds.
 */
module Dispatcher {

  const MILLISECOND := 1_000_000

  datatype Config = Config(maxRetries: int, initialBackoff: int, maxBackoff: int)

  /** NewDispatcher's defaults for out-of-range settings. */
  function Normalized(cfg: Config): (c: Config)
    ensures Usable(c) && (Usable(cfg) ==> c == cfg)
  {
    Config(if cfg.maxRetries < 0 then 3 else cfg.maxRetries,
           if cfg.initialBackoff <= 0 then 50 * MILLISECOND else cfg.initialBackoff,
           if cfg.maxBackoff <= 0 then 2000 * MILLISECOND else cfg.maxBackoff)
  }

  predicate Usable(cfg: Config) {
    cfg.maxRetries >= 0 && cfg.initialBackoff > 0 && cfg.maxBackoff > 0
  }

  function Pow2(k: nat): (p: int)
    ensures p >= 1
  {
    if k == 0 then 1 else 2 * Pow2(k - 1)
  }

  /** `uint64(1) << k`: the bit falls off the end of the word. */
  function Shifted(k: nat): int {
    if k < 64 then Pow2(k) else 0
  }

  /** The pause before a retry, before jitter. */
  function Backoff(cfg: Config, attempt: nat): int
    requires Usable(cfg) && attempt >= 1
  {
    var b := cfg.initialBackoff * Shifted(attempt - 1);
    if b > cfg.maxBackoff then cfg.maxBackoff else b
  }

  lemma ScaledAtLeast(k: int, m: int)
    requires k >= 0 && m >= 1
    ensures k * m >= k
  {
  }

  lemma BackoffPositive(cfg: Config, attempt: nat)
    requires Usable(cfg) && 1 <= attempt
    ensures 0 <= Backoff(cfg, attempt) <= cfg.maxBackoff
    ensures Backoff(cfg, attempt) > 0 <==> attempt <= 64
  {
    if attempt <= 64 {
      ScaledAtLeast(cfg.initialBackoff, Pow2(attempt - 1));
    }
  }

  lemma Twice(k: int, p: int)
    ensures k * (2 * p) == 2 * (k * p)
  {
  }

  function Min(x: int, y: int): int { if x < y then x else y }

  /** The first pause is the configured one. */
  lemma BackoffFirst(cfg: Config)
    requires Usable(cfg)
    ensures Backoff(cfg, 1) == Min(cfg.initialBackoff, cfg.maxBackoff)
  {
    assert Pow2(0) == 1;
  }

  /** And every later one, up to the 64th, is twice the one before it until the cap is reached. */
  lemma {:induction false} BackoffDoubles(cfg: Config, attempt: nat)
    requires Usable(cfg) && 1 <= attempt < 64
    ensures Backoff(cfg, attempt + 1) == Min(2 * Backoff(cfg, attempt), cfg.maxBackoff)
  {
    ScaledAtLeast(cfg.initialBackoff, Pow2(attempt - 1));
    Twice(cfg.initialBackoff, Pow2(attempt - 1));
  }

  lemma BackoffNext(cfg: Config, attempt: nat)
    requires Usable(cfg) && 1 <= attempt < 64
    ensures Backoff(cfg, attempt) <= Backoff(cfg, attempt + 1)
  {
    ScaledAtLeast(cfg.initialBackoff, Pow2(attempt - 1));
    Twice(cfg.initialBackoff, Pow2(attempt - 1));
  }

  lemma {:induction false} BackoffGrows(cfg: Config, a: nat, b: nat)
    requires Usable(cfg) && 1 <= a <= b <= 64
    ensures Backoff(cfg, a) <= Backoff(cfg, b)
    decreases b - a
  {
    if a < b {
      BackoffNext(cfg, a);
      BackoffGrows(cfg, a + 1, b);
    }
  }

  /**
   * Backoff never shrinks between retries exactly when at most 64 retries are configured; from
   * attempt 65 on the shift yields zero and the retries follow each other without a pause.
   */
  lemma BackoffMonotoneIff(cfg: Config)
    requires Usable(cfg)
    ensures (forall a, b :: 1 <= a <= b <= cfg.maxRetries ==> Backoff(cfg, a) <= Backoff(cfg, b))
              <==> cfg.maxRetries <= 64
  {
    if cfg.maxRetries <= 64 {
      forall a, b | 1 <= a <= b <= cfg.maxRetries ensures Backoff(cfg, a) <= Backoff(cfg, b) {
        BackoffGrows(cfg, a, b);
      }
    } else {
      BackoffPositive(cfg, 64);
      BackoffPositive(cfg, 65);
      assert Backoff(cfg, 64) > Backoff(cfg, 65);
    }
  }

  function TotalBackoff(cfg: Config, retries: nat): int
    requires Usable(cfg)
  {
    if retries == 0 then 0 else TotalBackoff(cfg, retries - 1) + Backoff(cfg, retries)
  }

  lemma OneMore(n: int, d: int)
    ensures (n + 1) * d == n * d + d
  {
  }

  /** Both bounds hold for every number of retries, past 64 as well. */
  lemma {:induction false} TotalBackoffCapped(cfg: Config, retries: nat)
    requires Usable(cfg)
    ensures 0 <= TotalBackoff(cfg, retries) <= retries * cfg.maxBackoff
  {
    if retries > 0 {
      TotalBackoffCapped(cfg, retries - 1);
      BackoffPositive(cfg, retries);
      OneMore(retries - 1, cfg.maxBackoff);
    }
  }

  lemma BackoffUncapped(cfg: Config, attempt: nat)
    requires Usable(cfg) && 1 <= attempt
    ensures Backoff(cfg, attempt) <= cfg.initialBackoff * Pow2(attempt - 1)
  {
    ScaledAtLeast(cfg.initialBackoff, Pow2(attempt - 1));
  }

  lemma Doubling(k: int, p: int)
    ensures k * (2 * p - 1) == k * (p - 1) + k * p
  {
  }

  lemma {:induction false} TotalBackoffDoubling(cfg: Config, retries: nat)
    requires Usable(cfg)
    ensures TotalBackoff(cfg, retries) <= cfg.initialBackoff * (Pow2(retries) - 1)
  {
    if retries > 0 {
      TotalBackoffDoubling(cfg, retries - 1);
      BackoffUncapped(cfg, retries);
      Doubling(cfg.initialBackoff, Pow2(retries - 1));
    }
  }

  /** Below the cap the total is exactly that: the pauses form a geometric series. */
  lemma {:induction false} TotalBackoffExact(cfg: Config, retries: nat)
    requires Usable(cfg) && 1 <= retries <= 64 && cfg.initialBackoff * Pow2(retries - 1) <= cfg.maxBackoff
    ensures Backoff(cfg, retries) == cfg.initialBackoff * Pow2(retries - 1)
    ensures TotalBackoff(cfg, retries) == cfg.initialBackoff * (Pow2(retries) - 1)
  {
    Doubling(cfg.initialBackoff, Pow2(retries - 1));
    if retries > 1 {
      Twice(cfg.initialBackoff, Pow2(retries - 2));
      ScaledAtLeast(cfg.initialBackoff, Pow2(retries - 2));
      TotalBackoffExact(cfg, retries - 1);
    }
  }

  /** What the surroundings do to one delivery: the answer to each post, and the sleeps. */
  datatype Surroundings = Surroundings(
    accepts: nat -> bool,     // the post of attempt k succeeds
    cancelled: nat -> bool,   // ctx is done before the timer of attempt k fires
    jitter: nat -> real)      // the random factor of attempt k

  ghost predicate JitterInRange(env: Surroundings) {
    forall k: nat :: -0.25 <= env.jitter(k) <= 0.25
  }

  datatype Verdict = Sent | Interrupted | Exhausted

  /** No post up to (not including) attempt `n` succeeded, and no sleep before it was cut short. */
  ghost predicate StillTrying(env: Surroundings, n: nat) {
    && (forall k: nat :: k < n ==> !env.accepts(k))
    && (forall k: nat :: 1 <= k < n ==> !env.cancelled(k))
  }

  lemma ProductNonnegative(x: real, y: real)
    requires x >= 0.0 && y >= 0.0
    ensures x * y >= 0.0
  {
  }

  lemma PauseBounds(b: real, factor: real, pause: real)
    requires 0.0 <= b && -0.25 <= factor <= 0.25 && pause == b + factor * b
    ensures 0.75 * b <= pause <= 1.25 * b
  {
    ProductNonnegative(factor + 0.25, b);
    ProductNonnegative(0.25 - factor, b);
    PauseSpread(b, factor);
  }

  lemma PauseSpread(b: real, factor: real)
    ensures (factor + 0.25) * b == (b + factor * b) - 0.75 * b
    ensures (0.25 - factor) * b == 1.25 * b - (b + factor * b)
  {
  }

  lemma FloorBounds(backoff: int, pause: real)
    requires 0 <= backoff && 0.75 * backoff as real <= pause <= 1.25 * backoff as real
    ensures 0 <= pause.Floor && 3 * backoff - 4 < 4 * pause.Floor <= 5 * backoff
  {
    var n := pause.Floor;
    assert n as real <= pause < n as real + 1.0;
    assert 4.0 * (n as real) <= 5.0 * (backoff as real);
    assert 3.0 * (backoff as real) - 4.0 < 4.0 * (n as real);
  }

  /** The jittered pause stays within a quarter of the backoff, to the nanosecond. */
  lemma JitteredPause(backoff: int, factor: real, pause: real)
    requires 0 <= backoff && -0.25 <= factor <= 0.25 && pause == backoff as real + factor * backoff as real
    ensures 0 <= pause.Floor && 3 * backoff - 4 < 4 * pause.Floor <= 5 * backoff
  {
    PauseBounds(backoff as real, factor, pause);
    FloorBounds(backoff, pause);
  }

  lemma {:induction false} TotalBackoffMonotone(cfg: Config, a: nat, b: nat)
    requires Usable(cfg) && a <= b
    ensures TotalBackoff(cfg, a) <= TotalBackoff(cfg, b)
    decreases b - a
  {
    if a < b {
      TotalBackoffMonotone(cfg, a, b - 1);
      BackoffPositive(cfg, b);
    }
  }

  /** Within `retries` pauses, the sleep is bounded by both caps at once. */
  ghost predicate SleepBounded(cfg: Config, slept: int)
    requires Usable(cfg)
  {
    && 4 * slept <= 5 * (cfg.maxRetries * cfg.maxBackoff)
    && 4 * slept <= 5 * (cfg.initialBackoff * (Pow2(cfg.maxRetries) - 1))
  }

  lemma SleepStaysBounded(cfg: Config, retries: nat, slept: int)
    requires Usable(cfg) && retries <= cfg.maxRetries
    requires 4 * slept <= 5 * TotalBackoff(cfg, retries)
    ensures SleepBounded(cfg, slept)
  {
    TotalBackoffMonotone(cfg, retries, cfg.maxRetries);
    TotalBackoffCapped(cfg, cfg.maxRetries);
    TotalBackoffDoubling(cfg, cfg.maxRetries);
  }

  /** `pause` is the backoff with this jitter, rounded down to the nanosecond. */
  predicate IsJittered(backoff: int, factor: real, pause: int) {
    pause as real <= backoff as real * (1.0 + factor) < pause as real + 1.0
  }

  lemma OneAndFactor(b: real, factor: real)
    ensures b + factor * b == b * (1.0 + factor)
  {
  }

  lemma FloorIsJittered(backoff: int, factor: real, pause: real)
    requires pause == backoff as real + factor * backoff as real
    ensures IsJittered(backoff, factor, pause.Floor)
  {
    OneAndFactor(backoff as real, factor);
  }

  method Jittered(backoff: int, factor: real) returns (pause: int)
    requires 0 <= backoff && -0.25 <= factor <= 0.25
    ensures 0 <= pause && 3 * backoff - 4 < 4 * pause <= 5 * backoff && IsJittered(backoff, factor, pause)
  {
    var jittered := backoff as real + factor * backoff as real;
    JitteredPause(backoff, factor, jittered);
    FloorIsJittered(backoff, factor, jittered);
    pause := jittered.Floor;
  }

  /** The timer set before a retry. */
  method SleepDuration(cfg: Config, attempt: nat, factor: real) returns (pause: int)
    requires Usable(cfg) && 1 <= attempt && -0.25 <= factor <= 0.25
    ensures 0 <= pause && 3 * Backoff(cfg, attempt) - 4 < 4 * pause <= 5 * Backoff(cfg, attempt)
    ensures IsJittered(Backoff(cfg, attempt), factor, pause)
  {
    hide Pow2, Shifted, IsJittered;
    var backoff := cfg.initialBackoff * Shifted(attempt - 1);
    if backoff > cfg.maxBackoff {
      backoff := cfg.maxBackoff;
    }
    BackoffPositive(cfg, attempt);
    pause := Jittered(backoff, factor);
  }

  /**
   * dispatchWithRetry: posts until one succeeds, sleeping before every retry. `slept` is the sum of
   * the timers set.
   */
  method DispatchWithRetry(cfg: Config, env: Surroundings)
    returns (verdict: Verdict, posts: nat, retries: nat, slept: int)
    requires Usable(cfg) && JitterInRange(env)
    ensures posts <= cfg.maxRetries + 1 && retries <= cfg.maxRetries
    ensures verdict == Sent ==>
              posts >= 1 && StillTrying(env, posts - 1) && env.accepts(posts - 1)
              && (posts > 1 ==> !env.cancelled(posts - 1)) && retries == posts - 1
    ensures verdict == Interrupted ==>
              posts >= 1 && StillTrying(env, posts) && env.cancelled(posts) && retries == posts
    ensures verdict == Exhausted <==> StillTrying(env, cfg.maxRetries + 1)
    ensures verdict == Exhausted ==> posts == cfg.maxRetries + 1 && retries == cfg.maxRetries
    ensures 0 <= 4 * slept <= 5 * TotalBackoff(cfg, retries) && SleepBounded(cfg, slept)
    ensures 4 * slept >= 3 * TotalBackoff(cfg, retries) - 3 * retries
  {
    posts, retries, slept := 0, 0, 0;
    var attempt := 0;
    SleepStaysBounded(cfg, 0, 0);
    while attempt <= cfg.maxRetries
      invariant 0 <= attempt <= cfg.maxRetries + 1
      invariant posts == attempt && retries == (if attempt == 0 then 0 else attempt - 1)
      invariant StillTrying(env, attempt)
      invariant 0 <= 4 * slept <= 5 * TotalBackoff(cfg, retries) && SleepBounded(cfg, slept)
      invariant 4 * slept >= 3 * TotalBackoff(cfg, retries) - 3 * retries
    {
      if attempt > 0 {
        retries := retries + 1;
        var pause := SleepDuration(cfg, attempt, env.jitter(attempt));
        slept := slept + pause;
        SleepStaysBounded(cfg, retries, slept);
        if env.cancelled(attempt) {
          return Interrupted, posts, retries, slept;
        }
      }
      posts := posts + 1;
      if env.accepts(attempt) {
        return Sent, posts, retries, slept;
      }
      attempt := attempt + 1;
    }
    verdict := Exhausted;
  }
}
