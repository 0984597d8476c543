/**
 * Sessions and the responses they are built from. Times are nanoseconds since the Unix epoch and
 * may be negative; calendar arithmetic fails outside the range of `chrono`, exactly as it does there.
 */
module SessionModel {
  import opened Machine
  import opened Wrappers

  const V2_SESSION_LIFETIME_SECS: U64 := 21600
  const PROACTIVE_REFRESH_MARGIN_V2_SECS: U64 := 300
  const PROACTIVE_REFRESH_MARGIN_V3_SECS: U64 := 10
  const DEFAULT_ACCOUNT_ID := "default_account_id"

  /** The longest duration and the first and last moments `chrono` represents. */
  const MAX_DELTA_SECS: int := I64_MAX / 1000
  const MIN_TIME: int := -8_334_601_228_800 * NANOS
  const MAX_TIME: int := 8_210_266_876_799 * NANOS + (NANOS - 1)

  type I64 = n: int | -0x8000_0000_0000_0000 <= n <= I64_MAX
  type Time = t: int | MIN_TIME <= t <= MAX_TIME

  predicate IsTime(t: int) {
    MIN_TIME <= t <= MAX_TIME
  }

  /** Whole seconds of a moment, rounded down. */
  function Timestamp(t: int): int {
    t / NANOS
  }

  /** Whole seconds as the 64-bit counters hold them: moments before the epoch read as zero. */
  function EpochSecs(t: Time): U64 {
    if Timestamp(t) < 0 then 0 else Timestamp(t)
  }

  // ---- responses and sessions --------------------------------------------------------------

  datatype OAuthToken = OAuthToken(accessToken: string, expiresIn: Option<I64>, createdAt: Time) {
    /** A lifetime that does not parse counts as zero. */
    function ExpiresInSecs(): I64 {
      if expiresIn.Some? then expiresIn.value else 0
    }

    predicate IsExpired(margin: U64, now: Time) {
      IsPastEffectiveExpiry(createdAt, ExpiresInSecs(), ToI64(margin), now)
    }

    function ExpireAt(margin: I64): U64 {
      match EffectiveExpiry(createdAt, ExpiresInSecs(), margin)
      case Some(e) => EpochSecs(e)
      case None => 0
    }
  }

  datatype SecurityHeaders = SecurityHeaders(cst: string, xSecurityToken: string)

  datatype SessionResponse =
    | V3(accountId: string, oauthToken: OAuthToken)
    | V2(accountId: string, securityHeaders: Option<SecurityHeaders>, expiresIn: Option<U64>, createdAt: Time)
  {
    predicate IsExpired(margin: U64, now: Time) {
      match this
      case V3(_, token) => token.IsExpired(margin, now)
      case V2(_, _, None, _) => true
      case V2(_, _, Some(lifetime), created) =>
        IsPastEffectiveExpiry(created, ToI64(lifetime), ToI64(margin), now)
    }

    function GetSession(): Session {
      match this
      case V3(account, token) => Session(account, None, None, Some(token), 3, token.ExpireAt(1))
      case V2(account, headers, expiresIn, created) =>
        var lifetime := if expiresIn.Some? then expiresIn.value else V2_SESSION_LIFETIME_SECS;
        Session(
          account,
          if headers.Some? then Some(headers.value.cst) else None,
          if headers.Some? then Some(headers.value.xSecurityToken) else None,
          None, 2, SatAdd(EpochSecs(created), lifetime))
    }

    /** The response as the v2 login completes it: its tokens come in headers, its lifetime is fixed. */
    function Completed(headers: SecurityHeaders): SessionResponse {
      match this
      case V3(_, _) => this
      case V2(account, _, _, created) => V2(account, Some(headers), Some(V2_SESSION_LIFETIME_SECS), created)
    }

    function GetSessionV2(headers: SecurityHeaders): Session {
      Completed(headers).GetSession()
    }
  }

  datatype Session = Session(
    accountId: string, cst: Option<string>, xSecurityToken: Option<string>,
    oauthToken: Option<OAuthToken>, apiVersion: nat, expiresAt: U64)
  {
    predicate IsOauth() {
      oauthToken.Some?
    }

    predicate IsExpired(margin: U64, now: Time) {
      EpochSecs(now) >= SatSub(expiresAt, margin)
    }

    function RefreshMargin(): U64 {
      if IsOauth() then PROACTIVE_REFRESH_MARGIN_V3_SECS else PROACTIVE_REFRESH_MARGIN_V2_SECS
    }

    predicate InsideMargin(now: Time) {
      IsExpired(RefreshMargin(), now)
    }
  }

  function ToI64(n: U64): I64 {
    Min(n, I64_MAX)
  }

  /** `created + lifetime - margin`, with no value when any of the steps leaves the calendar. */
  function EffectiveExpiry(created: Time, lifetimeSecs: I64, marginSecs: I64): Option<Time> {
    if !(-MAX_DELTA_SECS <= lifetimeSecs <= MAX_DELTA_SECS) then None
    else
      var expiry := created + lifetimeSecs * NANOS;
      if !IsTime(expiry) || !(-MAX_DELTA_SECS <= marginSecs <= MAX_DELTA_SECS) then None
      else
        var effective := expiry - marginSecs * NANOS;
        if IsTime(effective) then Some(effective) else None
  }

  predicate IsPastEffectiveExpiry(created: Time, lifetimeSecs: I64, marginSecs: I64, now: Time) {
    match EffectiveExpiry(created, lifetimeSecs, marginSecs)
    case Some(e) => e <= now
    case None => true
  }

  // ---- properties --------------------------------------------------------------------------

  /** A session inside its margin stays inside it. */
  lemma ExpiryIsMonotone(s: Session, margin: U64, before: Time, after: Time)
    requires before <= after && s.IsExpired(margin, before)
    ensures s.IsExpired(margin, after)
  {
    FloorMonotone(before, after);
  }

  lemma FloorMonotone(a: int, b: int)
    requires a <= b
    ensures Timestamp(a) <= Timestamp(b)
  {
  }

  lemma FloorShift(a: int, secs: int)
    ensures Timestamp(a + secs * NANOS) == Timestamp(a) + secs
  {
  }

  /**
   * The session made from an OAuth response is expired whenever the token is, for every margin and
   * moment, and after the epoch it is never more than two seconds too careful.
   */
  lemma OAuthExpiryIsConservative(account: string, token: OAuthToken, margin: U64, now: Time)
    ensures token.IsExpired(margin, now) ==> V3(account, token).GetSession().IsExpired(margin, now)
    ensures now >= 0 && margin + 2 < U64_BOUND && V3(account, token).GetSession().IsExpired(margin, now)
        ==> token.IsExpired(margin + 2, now)
  {
    var lifetime := token.ExpiresInSecs();
    if -MAX_DELTA_SECS <= lifetime <= MAX_DELTA_SECS {
      var end := token.createdAt + lifetime * NANOS;
      FloorShift(end, -1);
      FloorShift(end, -ToI64(margin));
      if end - ToI64(margin) * NANOS <= now {
        FloorMonotone(end - ToI64(margin) * NANOS, now);
      }
      if margin + 2 < U64_BOUND {
        var m := ToI64(margin + 2);
        FloorShift(end, -m);
        if now < end - m * NANOS {
          FloorMonotone(now, end - m * NANOS);
        }
      }
    }
  }

  /** What the v2 session check needs to be conservative; the login path meets it by construction. */
  predicate ConservativeV2(r: SessionResponse)
    requires r.V2?
  {
    && r.expiresIn.Some?
    && r.expiresIn.value <= MAX_DELTA_SECS
    && IsTime(r.createdAt + r.expiresIn.value * NANOS)
    && (r.createdAt >= 0 || r.expiresIn.value == 0)
  }

  lemma V2ExpiryWhenConservative(r: SessionResponse, margin: U64, now: Time)
    requires r.V2? && ConservativeV2(r)
    ensures r.IsExpired(margin, now) ==> r.GetSession().IsExpired(margin, now)
  {
    var end := r.createdAt + r.expiresIn.value * NANOS;
    FloorShift(r.createdAt, r.expiresIn.value);
    FloorShift(end, -ToI64(margin));
    if end - ToI64(margin) * NANOS <= now {
      FloorMonotone(end - ToI64(margin) * NANOS, now);
    }
  }

  /** A moment at which the response has expired and the session made from it has not. */
  function Misjudged(r: SessionResponse): (now: Time)
    requires r.V2? && !ConservativeV2(r)
  {
    if r.expiresIn.Some? && r.expiresIn.value <= MAX_DELTA_SECS
       && IsTime(r.createdAt + r.expiresIn.value * NANOS)
    then r.createdAt + r.expiresIn.value * NANOS
    else 0
  }

  /**
   * The v2 check is conservative for every margin and moment exactly when the response carries a
   * lifetime the calendar can add to a creation time after the epoch.
   */
  lemma V2ExpiryIsConservativeIff(r: SessionResponse)
    requires r.V2?
    ensures (forall margin: U64, now: Time ::
               r.IsExpired(margin, now) ==> r.GetSession().IsExpired(margin, now))
       <==> ConservativeV2(r)
  {
    if ConservativeV2(r) {
      forall margin: U64, now: Time
        ensures r.IsExpired(margin, now) ==> r.GetSession().IsExpired(margin, now)
      {
        V2ExpiryWhenConservative(r, margin, now);
      }
    } else {
      var now := Misjudged(r);
      if r.expiresIn.Some? {
        FloorShift(r.createdAt, r.expiresIn.value);
      }
      assert r.IsExpired(0, now) && !r.GetSession().IsExpired(0, now);
    }
  }

  /** The v2 login stamps the creation time itself and fixes the lifetime, so its check is conservative. */
  lemma LoginExpiryIsConservative(account: string, headers: SecurityHeaders, created: Time, margin: U64, now: Time)
    requires 0 <= created && created + V2_SESSION_LIFETIME_SECS * NANOS <= MAX_TIME
    ensures var r := V2(account, None, None, created).Completed(headers);
            r.IsExpired(margin, now) ==> r.GetSession().IsExpired(margin, now)
  {
    V2ExpiryWhenConservative(V2(account, None, None, created).Completed(headers), margin, now);
  }

  // ---- what a login reply turns into -------------------------------------------------------

  /** The body of a session reply; it gets its creation time when it is read. */
  datatype SessionBody =
    | BodyV3(accountId: string, accessToken: string, expiresIn: Option<I64>)
    | BodyV2(accountId: string)
  {
    function ReadAt(now: Time): SessionResponse {
      match this
      case BodyV3(account, access, expiresIn) => V3(account, OAuthToken(access, expiresIn, now))
      case BodyV2(account) => V2(account, None, None, now)
    }
  }

  /** The session of a body read at any moment from `start` is outside its margin until `horizon`. */
  ghost predicate StaysFresh(body: SessionBody, start: Time, horizon: Time) {
    forall t: Time, headers: SecurityHeaders :: start <= t <= horizon ==>
      !body.ReadAt(t).GetSessionV2(headers).InsideMargin(horizon)
  }

  /** A v2 session stays fresh for 21300 s of clock time, to the second. */
  lemma FreshV2(account: string, start: Time, horizon: Time)
    requires 0 <= start <= horizon
    ensures StaysFresh(BodyV2(account), start, horizon)
       <==> EpochSecs(horizon) < EpochSecs(start) + 21_300
  {
    forall t: Time, headers: SecurityHeaders | start <= t <= horizon
      ensures BodyV2(account).ReadAt(t).GetSessionV2(headers).InsideMargin(horizon) <==>
              EpochSecs(horizon) >= EpochSecs(t) + 21300
    {
    }
    forall t: Time | start <= t
      ensures EpochSecs(start) <= EpochSecs(t)
    {
      FloorMonotone(start, t);
    }
    var some := SecurityHeaders("", "");
    assert BodyV2(account).ReadAt(start).GetSessionV2(some).InsideMargin(horizon) <==>
           EpochSecs(horizon) >= EpochSecs(start) + 21300;
  }

  /** A v3 session of a token that lasts `seconds` is outside its margin for eleven seconds less, to the second. */
  lemma FreshV3(account: string, token: string, seconds: nat, read: Time, now: Time)
    requires 0 <= read <= now && 11 <= seconds <= 1_000_000 && read + seconds * NANOS <= MAX_TIME
    ensures !BodyV3(account, token, Some(seconds)).ReadAt(read).GetSession().InsideMargin(now)
       <==> EpochSecs(now) < EpochSecs(read) + seconds - 11
  {
    var t := OAuthToken(token, Some(seconds), read);
    assert EffectiveExpiry(read, seconds, 1) == Some(read + (seconds - 1) * NANOS);
    assert Timestamp(read + (seconds - 1) * NANOS) == Timestamp(read) + seconds - 1;
  }
}
