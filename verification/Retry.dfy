/** How long the bounded retry loop waits, and how often it may send. */
module Retry {
  import opened Machine
  import opened Wrappers

  datatype RequestPolicy = Standard | SingleAttempt

  datatype RetryConfig = RetryConfig(maxRetryCount: Option<U32>, retryDelaySecs: Option<U64>) {
    function MaxRetries(): U32 {
      if maxRetryCount.Some? then maxRetryCount.value else DEFAULT_MAX_RETRIES
    }

    function DelaySecs(): U64 {
      if retryDelaySecs.Some? then retryDelaySecs.value else DEFAULT_RETRY_DELAY_SECS
    }

    /** The wait before retry `attempt`, in milliseconds; `entropy` is the clock's subsecond part. */
    function DelayForAttempt(attempt: U32, entropy: nat): U64 {
      BackoffDelay(DelaySecs(), attempt, entropy)
    }
  }

  const DEFAULT_MAX_RETRIES: U32 := 3
  const DEFAULT_RETRY_DELAY_SECS: U64 := 10
  const MAX_RETRY_DELAY_SECS: U64 := 60
  const CAP_MS: U64 := MAX_RETRY_DELAY_SECS * 1000

  function Pow2(n: nat): (p: nat)
    ensures p >= 1
  {
    if n == 0 then 1 else 2 * Pow2(n - 1)
  }

  /** A shift of one by `attempt` places: no value when it leaves 64 bits, and then the largest one. */
  function Factor(attempt: U32): U64 {
    if attempt < 64 then Pow2Fits(attempt, 63); Pow2(attempt) else U64_MAX
  }

  /** The exponential part as the machine computes it, on 64-bit milliseconds. */
  function ScaledMs(baseSecs: U64, attempt: U32): U64 {
    Min(SatMul(Clamp64(baseSecs * 1000), Factor(attempt)), CAP_MS)
  }

  function BackoffDelay(baseSecs: U64, attempt: U32, entropy: nat): U64 {
    var scaled := ScaledMs(baseSecs, attempt);
    var maxJitter := scaled / 4;
    var jitter := if maxJitter == 0 then 0 else entropy % (maxJitter + 1);
    SatAdd(scaled, jitter)
  }

  lemma {:induction false} Pow2Fits(n: nat, m: nat)
    requires n <= m
    ensures Pow2(n) <= Pow2(m)
    ensures Pow2(63) == 0x8000_0000_0000_0000
    decreases m - n
  {
    Pow2At63();
    if n < m {
      Pow2Fits(n, m - 1);
    }
  }

  lemma Pow2At63()
    ensures Pow2(63) == 0x8000_0000_0000_0000
  {
    assert Pow2(10) == 1024;
    assert Pow2(20) == 1024 * 1024;
    assert Pow2(30) == 1024 * 1024 * 1024;
    assert Pow2(40) == 1024 * 1024 * 1024 * 1024;
    assert Pow2(50) == 1024 * 1024 * 1024 * 1024 * 1024;
    assert Pow2(60) == 1024 * 1024 * 1024 * 1024 * 1024 * 1024;
  }

  /** The delay the documentation promises: base * 2^attempt seconds, never past the cap. */
  function IdealMs(baseSecs: nat, attempt: nat): nat {
    Min(baseSecs * 1000 * Pow2(attempt), CAP_MS)
  }

  /** No base and no attempt overflows: the machine computes the documented delay exactly. */
  lemma BackoffIsExact(baseSecs: U64, attempt: U32)
    ensures ScaledMs(baseSecs, attempt) == IdealMs(baseSecs, attempt)
  {
    var base := baseSecs * 1000;
    if baseSecs > 0 {
      if attempt >= 64 {
        Pow2Fits(63, attempt);
        MulMono(1, base, Pow2(attempt));
        MulMono(1, Clamp64(base), U64_MAX);
      } else {
        MulMono(1, Factor(attempt), Clamp64(base));
        MulMono(1, Pow2(attempt), base);
      }
    }
  }

  /** The jitter adds at most a quarter, and a later retry never waits on a smaller base. */
  lemma {:induction false} BackoffBounds(baseSecs: U64, attempt: U32, entropy: nat)
    ensures IdealMs(baseSecs, attempt)
         <= BackoffDelay(baseSecs, attempt, entropy)
         <= IdealMs(baseSecs, attempt) + IdealMs(baseSecs, attempt) / 4
         <= 75_000
    ensures IdealMs(baseSecs, attempt) <= IdealMs(baseSecs, attempt + 1)
  {
    BackoffIsExact(baseSecs, attempt);
    MulMono(Pow2(attempt), Pow2(attempt + 1), baseSecs * 1000);
  }

  /** Every delay in the jitter range is reached: the two bounds are exact. */
  lemma BackoffRange(baseSecs: U64, attempt: U32, delay: nat)
    requires IdealMs(baseSecs, attempt) <= delay <= IdealMs(baseSecs, attempt) + IdealMs(baseSecs, attempt) / 4
    ensures exists entropy: nat :: entropy < NANOS && BackoffDelay(baseSecs, attempt, entropy) == delay
  {
    BackoffIsExact(baseSecs, attempt);
    var scaled := ScaledMs(baseSecs, attempt);
    var entropy := delay - scaled;
    SmallMod(entropy, scaled / 4 + 1);
    assert entropy < NANOS && BackoffDelay(baseSecs, attempt, entropy) == delay;
  }

  lemma {:induction false} DelayBound(config: RetryConfig, attempt: U32, entropy: nat)
    ensures config.DelayForAttempt(attempt, entropy) <= 75_000
  {
    BackoffBounds(config.DelaySecs(), attempt, entropy);
  }

  /** All the waits of one retry loop, given the entropy read before each of them. */
  function TotalDelay(config: RetryConfig, entropies: seq<nat>): nat
    requires |entropies| <= config.MaxRetries()
  {
    if entropies == [] then 0 else
      var last := |entropies| - 1;
      TotalDelay(config, entropies[..last]) + config.DelayForAttempt(last, entropies[last])
  }

  /** A loop that retries r times waits at most 75 s times r, whatever the configuration. */
  lemma {:induction false} TotalDelayBound(config: RetryConfig, entropies: seq<nat>)
    requires |entropies| <= config.MaxRetries()
    ensures TotalDelay(config, entropies) <= 75_000 * |entropies| <= 75_000 * config.MaxRetries()
  {
    if entropies != [] {
      var last := |entropies| - 1;
      TotalDelayBound(config, entropies[..last]);
      DelayBound(config, last, entropies[last]);
    }
  }
}
