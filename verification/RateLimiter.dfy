/**
 * Pacing: the interval and burst the program computes from its configuration, the token bucket
 * they drive, and what the two together guarantee over every run of the bucket.
 */
module RateLimiter {
  import opened Machine

  datatype RateLimitClass = Trading | Historical | NonTrading

  datatype RateLimiterConfig = RateLimiterConfig(maxRequests: U32, periodSeconds: U64, burstSize: U32)

  /** What a bucket runs on: one cell every `interval` nanoseconds, at most `burst` saved up. */
  datatype Quota = Quota(interval: nat, burst: nat) {
    predicate Valid() {
      interval > 0 && burst > 0
    }

    /** How far ahead of the even schedule a cell may be taken. */
    function Slack(): nat
      requires Valid()
    {
      (burst - 1) * interval
    }
  }

  const FALLBACK_RATE_LIMIT_MAX_REQUESTS: U32 := 1
  const DEFAULT_RATE_LIMIT_BURST_SIZE: U32 := 10
  const TRADING_RATE_LIMIT_PER_SECOND: U32 := 1
  const HISTORICAL_RATE_LIMIT_PER_SECOND: U32 := 1
  const TRADING_HISTORICAL_BURST_SIZE: U32 := 1
  const ACCOUNT_MAX_REQUESTS_PER_MINUTE: U32 := 30
  const ACCOUNT_PERIOD_SECONDS: U64 := 60

  const ACCOUNT_CONFIG := RateLimiterConfig(ACCOUNT_MAX_REQUESTS_PER_MINUTE, ACCOUNT_PERIOD_SECONDS, 1)

  // ---- intervals ---------------------------------------------------------------------------

  function CeilDiv(a: nat, b: nat): (q: nat)
    requires b > 0
    ensures a <= q * b < a + b
  {
    assert (a + b - 1) / b * b == a + b - 1 - (a + b - 1) % b;
    (a + b - 1) / b
  }

  function EffectiveMaxRequests(config: RateLimiterConfig): (m: nat)
    ensures m > 0
  {
    Max(config.maxRequests, FALLBACK_RATE_LIMIT_MAX_REQUESTS)
  }

  /** The period in nanoseconds, as the 64-bit interval arithmetic sees it. */
  function EffectivePeriod(config: RateLimiterConfig): U64 {
    Clamp64((if config.periodSeconds == 0 then 1 else config.periodSeconds) * NANOS)
  }

  function ReplenishPeriod(config: RateLimiterConfig): nat {
    Max(CeilDiv(EffectivePeriod(config), EffectiveMaxRequests(config)), 1)
  }

  function PerSecondPeriod(requestsPerSecond: U32): nat {
    Max(NANOS / Max(requestsPerSecond, 1), 1)
  }

  function BuildLimiter(periodPerCell: nat, burstSize: U32): (q: Quota)
    ensures q.Valid()
    ensures periodPerCell > 0 ==> q.interval == periodPerCell
    ensures burstSize > 0 ==> q.burst == burstSize
  {
    var burst := if burstSize == 0 then DEFAULT_RATE_LIMIT_BURST_SIZE else burstSize;
    Quota(if periodPerCell == 0 then NANOS else periodPerCell, burst)
  }

  function ConfiguredQuota(config: RateLimiterConfig): Quota {
    BuildLimiter(ReplenishPeriod(config), config.burstSize)
  }

  /**
   * What a configuration means: the interval is the shortest one that `max_requests` times covers the
   * period, an unset maximum or period counting as one, and an unset burst as ten.
   */
  lemma QuotaOfConfig(config: RateLimiterConfig)
    ensures var q := ConfiguredQuota(config);
            var requests := if config.maxRequests == 0 then 1 else config.maxRequests;
            var period := Min((if config.periodSeconds == 0 then 1 else config.periodSeconds) * NANOS, U64_MAX);
            && q.interval * requests >= period && (q.interval - 1) * requests < period
            && q.burst == (if config.burstSize == 0 then 10 else config.burstSize)
  {
    var requests := EffectiveMaxRequests(config);
    var seconds := if config.periodSeconds == 0 then 1 else config.periodSeconds;
    MulMono(1, seconds, NANOS);
    var period := EffectivePeriod(config);
    assert period > 0;
    var q := CeilDiv(period, requests);
    assert q != 0;
    MulSplit(q - 1, 1, requests);
  }

  /** The clamp bites exactly on an unset period and on periods of more than 584 years. */
  lemma EffectivePeriodIsConfigured(config: RateLimiterConfig)
    ensures EffectivePeriod(config) == config.periodSeconds * NANOS
       <==> 1 <= config.periodSeconds <= 18_446_744_073
  {
    if config.periodSeconds > 18_446_744_073 {
      assert config.periodSeconds * NANOS >= 18_446_744_074 * NANOS > U64_MAX;
    } else {
      assert config.periodSeconds * NANOS <= 18_446_744_073 * NANOS <= U64_MAX;
    }
  }

  /** Rounding the interval up: `max_requests` intervals never fall short of the period. */
  lemma IntervalsCoverPeriod(config: RateLimiterConfig)
    ensures ReplenishPeriod(config) * EffectiveMaxRequests(config) >= EffectivePeriod(config)
    ensures ReplenishPeriod(config) * EffectiveMaxRequests(config)
         <  EffectivePeriod(config) + EffectiveMaxRequests(config)
  {
    var seconds := if config.periodSeconds == 0 then 1 else config.periodSeconds;
    MulMono(1, seconds, NANOS);
    assert EffectivePeriod(config) > 0;
    var q := CeilDiv(EffectivePeriod(config), EffectiveMaxRequests(config));
    assert q != 0;
  }

  /**
   * The fixed per-second intervals round down instead, so they cover the second exactly when
   * nothing was rounded away. Both budgets the program fixes are one per second, which is covered.
   */
  lemma PerSecondCoversSecond(rps: U32)
    ensures PerSecondPeriod(rps) * Max(rps, 1) >= NANOS
       <==> rps <= 1 || NANOS % rps == 0 || rps > NANOS
  {
    if rps >= 1 {
      DivBounds(NANOS, rps);
    }
  }

  // ---- the bucket over a whole run ---------------------------------------------------------

  /** When the bucket is full again, after the cells of a run. */
  function FullAgain(q: Quota, cells: seq<nat>): nat {
    if cells == [] then 0
    else Max(FullAgain(q, cells[..|cells| - 1]), cells[|cells| - 1]) + q.interval
  }

  /** The runs a bucket admits: no cell is taken further ahead than the burst allows. */
  predicate Admitted(q: Quota, cells: seq<nat>)
    requires q.Valid()
  {
    cells != [] ==>
      var before := cells[..|cells| - 1];
      var last := cells[|cells| - 1];
      && Admitted(q, before)
      && (before != [] ==> before[|before| - 1] <= last)
      && FullAgain(q, before) <= last + q.Slack()
  }

  /** Cells taken inside the half-open window that starts at `from`. */
  function CellsIn(cells: seq<nat>, from: nat, length: nat): nat {
    if cells == [] then 0
    else (
      var last := cells[|cells| - 1];
      CellsIn(cells[..|cells| - 1], from, length) + (if from <= last < from + length then 1 else 0)
    )
  }

  lemma {:induction false} AdmittedPrefix(q: Quota, cells: seq<nat>, k: nat)
    requires q.Valid() && Admitted(q, cells) && k <= |cells|
    ensures Admitted(q, cells[..k])
    decreases |cells|
  {
    if k == |cells| {
      assert cells[..k] == cells;
    } else {
      AdmittedPrefix(q, cells[..|cells| - 1], k);
      assert cells[..|cells| - 1][..k] == cells[..k];
    }
  }

  /** The bucket fills no faster than one cell per interval from its first cell in a window. */
  lemma {:induction false} WindowPushesFull(q: Quota, cells: seq<nat>, from: nat, length: nat)
    requires q.Valid() && Admitted(q, cells)
    ensures CellsIn(cells, from, length) > 0 ==>
              FullAgain(q, cells) >= from + CellsIn(cells, from, length) * q.interval
  {
    if cells != [] {
      var before := cells[..|cells| - 1];
      var last := cells[|cells| - 1];
      WindowPushesFull(q, before, from, length);
      var c := CellsIn(before, from, length);
      assert (c + 1) * q.interval == c * q.interval + q.interval;
    }
  }

  /** Whatever the run, a window that `requests` intervals cover admits fewer than burst + requests. */
  lemma {:induction false} WindowBound(q: Quota, cells: seq<nat>, from: nat, length: nat, requests: nat)
    requires q.Valid() && Admitted(q, cells)
    requires q.interval * requests >= length && requests > 0
    ensures CellsIn(cells, from, length) <= q.burst + requests - 1
  {
    if cells != [] {
      var before := cells[..|cells| - 1];
      var last := cells[|cells| - 1];
      WindowBound(q, before, from, length, requests);
      var c := CellsIn(before, from, length);
      if from <= last < from + length && c > 0 {
        WindowPushesFull(q, before, from, length);
        assert c * q.interval < length + q.Slack();
        CountBelow(q.interval, c, q.burst, requests, length);
      }
    }
  }

  lemma CountBelow(interval: nat, c: nat, burst: nat, requests: nat, length: nat)
    requires interval > 0 && burst > 0
    requires c * interval < length + (burst - 1) * interval
    requires length <= interval * requests
    ensures c < burst - 1 + requests
  {
    MulSplit(burst - 1, requests, interval);
    if burst - 1 + requests <= c {
      MulMono(burst - 1 + requests, c, interval);
      assert false;
    }
  }

  /** The promise of the configuration, over every run of the bucket built from it. */
  lemma ConfiguredRate(config: RateLimiterConfig, cells: seq<nat>, from: nat)
    requires Admitted(ConfiguredQuota(config), cells)
    ensures CellsIn(cells, from, EffectivePeriod(config))
         <= ConfiguredQuota(config).burst + EffectiveMaxRequests(config) - 1
  {
    IntervalsCoverPeriod(config);
    WindowBound(ConfiguredQuota(config), cells, from, EffectivePeriod(config), EffectiveMaxRequests(config));
  }

  /** The account bucket never passes IG's published ceiling: thirty requests in any sixty seconds. */
  lemma AccountCeiling(cells: seq<nat>, from: nat)
    requires Admitted(ConfiguredQuota(ACCOUNT_CONFIG), cells)
    ensures CellsIn(cells, from, 60 * NANOS) <= 30
  {
    ConfiguredRate(ACCOUNT_CONFIG, cells, from);
    EffectivePeriodIsConfigured(ACCOUNT_CONFIG);
  }

  /** The trading and historical buckets admit one cell in any second. */
  lemma OnePerSecond(cells: seq<nat>, from: nat)
    requires Admitted(BuildLimiter(PerSecondPeriod(TRADING_RATE_LIMIT_PER_SECOND),
                                   TRADING_HISTORICAL_BURST_SIZE), cells)
    ensures CellsIn(cells, from, NANOS) <= 1
  {
    PerSecondCoversSecond(TRADING_RATE_LIMIT_PER_SECOND);
    WindowBound(BuildLimiter(PerSecondPeriod(1), TRADING_HISTORICAL_BURST_SIZE), cells, from, NANOS, 1);
  }

  /** The even schedule a full bucket serves: its burst at once, then one cell per interval. */
  function EvenCell(q: Quota, start: nat, k: nat): nat {
    if k < q.burst then start else start + (k + 1 - q.burst) * q.interval
  }

  function EvenRun(q: Quota, start: nat, n: nat): (cells: seq<nat>)
    ensures |cells| == n && forall k :: 0 <= k < n ==> cells[k] == EvenCell(q, start, k)
  {
    if n == 0 then [] else EvenRun(q, start, n - 1) + [EvenCell(q, start, n - 1)]
  }

  lemma EvenCellGrows(q: Quota, start: nat, k: nat)
    requires q.Valid()
    ensures start <= EvenCell(q, start, k) <= EvenCell(q, start, k + 1)
    ensures EvenCell(q, start, k) <= start + k * q.interval <= EvenCell(q, start, k) + q.Slack()
  {
    if k < q.burst {
      MulMono(k, q.burst - 1, q.interval);
    } else {
      MulSplit(k + 1 - q.burst, q.burst - 1, q.interval);
      MulSplit(k + 1 - q.burst, 1, q.interval);
    }
  }

  lemma {:induction false} EvenRunAdmitted(q: Quota, start: nat, n: nat)
    requires q.Valid()
    ensures Admitted(q, EvenRun(q, start, n))
    ensures n > 0 ==> FullAgain(q, EvenRun(q, start, n)) == start + n * q.interval
  {
    if n > 0 {
      EvenRunAdmitted(q, start, n - 1);
      var run := EvenRun(q, start, n);
      assert run[..n - 1] == EvenRun(q, start, n - 1);
      EvenCellGrows(q, start, n - 1);
      MulSplit(n - 1, 1, q.interval);
      if n > 1 {
        EvenCellGrows(q, start, n - 2);
      }
    }
  }

  lemma {:induction false} EvenRunInWindow(q: Quota, start: nat, n: nat, length: nat)
    requires q.Valid() && length > 0
    requires n > 0 ==> EvenCell(q, start, n - 1) < start + length
    ensures CellsIn(EvenRun(q, start, n), start, length) == n
  {
    hide EvenCell, Quota.Slack;
    if n > 0 {
      EvenCellGrows(q, start, n - 1);
      if n > 1 {
        EvenCellGrows(q, start, n - 2);
      }
      EvenRunInWindow(q, start, n - 1, length);
      assert EvenRun(q, start, n)[..n - 1] == EvenRun(q, start, n - 1);
    }
  }

  /** The bound is the best possible: whenever the period is not over-covered, some run attains it. */
  lemma WindowBoundAttained(q: Quota, start: nat, length: nat, requests: nat)
    requires q.Valid() && requests > 0
    requires (requests - 1) * q.interval < length <= q.interval * requests
    ensures exists cells :: Admitted(q, cells) && CellsIn(cells, start, length) == q.burst + requests - 1
  {
    var n := q.burst + requests - 1;
    var cells := EvenRun(q, start, n);
    assert EvenCell(q, start, n - 1) < start + length by {
      if requests > 1 {
        assert n - 1 + 1 - q.burst == requests - 1;
        assert EvenCell(q, start, n - 1) == start + (requests - 1) * q.interval;
      }
    }
    assert CellsIn(cells, start, length) == n by { EvenRunInWindow(q, start, n, length); }
    assert Admitted(q, cells) by { EvenRunAdmitted(q, start, n); }
  }

  // ---- the limiter object ------------------------------------------------------------------

  /** One `governor` bucket: when it is full again, and the cells it has given out so far. */
  class Bucket {
    const quota: Quota
    var fullAgain: nat
    ghost var cells: seq<nat>

    ghost predicate Valid()
      reads this
    {
      && quota.Valid()
      && Admitted(quota, cells)
      && fullAgain == FullAgain(quota, cells)
    }

    /** Time is monotone: nothing is asked of the bucket before its latest cell. */
    ghost predicate NotBefore(now: nat)
      reads this
    {
      cells != [] ==> cells[|cells| - 1] <= now
    }

    constructor (quota: Quota)
      requires quota.Valid()
      ensures Valid() && this.quota == quota && cells == []
    {
      this.quota := quota;
      fullAgain := 0;
      cells := [];
    }

    /** Takes a cell when the bucket has one at `now`, and nothing otherwise. */
    method TryTake(now: nat) returns (taken: bool)
      requires Valid() && NotBefore(now)
      modifies this
      ensures Valid()
      ensures taken <==> Admitted(quota, old(cells) + [now])
      ensures cells == if taken then old(cells) + [now] else old(cells)
    {
      ghost var next := cells + [now];
      assert next[..|next| - 1] == cells;
      taken := fullAgain <= now + quota.Slack();
      if taken {
        fullAgain := Max(fullAgain, now) + quota.interval;
        cells := next;
      }
    }

    /** Waits from `now` for the first moment the bucket can serve, and takes that cell. */
    method Take(now: nat) returns (at: nat)
      requires Valid() && NotBefore(now)
      modifies this
      ensures Valid()
      ensures cells == old(cells) + [at] && at >= now
      ensures forall t :: now <= t < at ==> !Admitted(quota, old(cells) + [t])
    {
      at := Max(now, fullAgain - quota.Slack());
      ghost var next := cells + [at];
      assert next[..|next| - 1] == cells;
      forall t | now <= t < at
        ensures !Admitted(quota, cells + [t])
      {
        assert (cells + [t])[..|cells|] == cells;
      }
      fullAgain := Max(fullAgain, at) + quota.interval;
      cells := next;
    }
  }

  /** One bucket per class, so that one kind of traffic never queues behind another. */
  class RateLimiter {
    const nonTrading: Bucket
    const trading: Bucket
    const historical: Bucket

    ghost predicate Valid()
      reads this, nonTrading, trading, historical
    {
      && nonTrading.Valid() && trading.Valid() && historical.Valid()
      && nonTrading != trading && nonTrading != historical && trading != historical
    }

    constructor (config: RateLimiterConfig)
      ensures Valid()
      ensures fresh(nonTrading) && fresh(trading) && fresh(historical)
      ensures nonTrading.quota == ConfiguredQuota(config)
      ensures trading.quota == historical.quota == Quota(NANOS, 1)
      ensures nonTrading.cells == trading.cells == historical.cells == []
      ensures LimiterFor(NonTrading) == nonTrading && LimiterFor(Trading) == trading
      ensures LimiterFor(Historical) == historical
    {
      nonTrading := new Bucket(ConfiguredQuota(config));
      trading := new Bucket(BuildLimiter(PerSecondPeriod(TRADING_RATE_LIMIT_PER_SECOND),
                                         TRADING_HISTORICAL_BURST_SIZE));
      historical := new Bucket(BuildLimiter(PerSecondPeriod(HISTORICAL_RATE_LIMIT_PER_SECOND),
                                            TRADING_HISTORICAL_BURST_SIZE));
    }

    function LimiterFor(kind: RateLimitClass): Bucket {
      match kind
      case Trading => trading
      case Historical => historical
      case NonTrading => nonTrading
    }

    /** A reservation spends one cell of its own class, or none, and leaves the other classes alone. */
    method TryReserve(kind: RateLimitClass, now: nat) returns (taken: bool)
      requires Valid() && LimiterFor(kind).NotBefore(now)
      modifies LimiterFor(kind)
      ensures Valid()
      ensures taken <==> Admitted(LimiterFor(kind).quota, old(LimiterFor(kind).cells) + [now])
      ensures LimiterFor(kind).cells ==
              old(LimiterFor(kind).cells) + (if taken then [now] else [])
      ensures forall other :: other != kind ==>
                LimiterFor(other).cells == old(LimiterFor(other).cells)
    {
      taken := LimiterFor(kind).TryTake(now);
    }

    method Reserve(kind: RateLimitClass, now: nat) returns (at: nat)
      requires Valid() && LimiterFor(kind).NotBefore(now)
      modifies LimiterFor(kind)
      ensures Valid()
      ensures at >= now && LimiterFor(kind).cells == old(LimiterFor(kind).cells) + [at]
      ensures forall t :: now <= t < at ==>
                !Admitted(LimiterFor(kind).quota, old(LimiterFor(kind).cells) + [t])
      ensures forall other :: other != kind ==>
                LimiterFor(other).cells == old(LimiterFor(other).cells)
    {
      at := LimiterFor(kind).Take(now);
    }
  }
}
