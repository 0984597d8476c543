/**
 * The session of one API key: login, proactive and forced refresh, account selection and logout,
 * over a cached session, a clock and whatever the server answers.
 */
module Auth {
  import opened Endpoints
  import opened Errors
  import opened Machine
  import opened RateLimiter
  import opened SessionModel
  import opened Transport
  import opened Wrappers

  /** The switch response's tokens replace the session's; a missing one keeps the token in use. */
  function ApplySwitchHeaders(s: Session, cst: Option<string>, xSecurityToken: Option<string>): (t: Session)
    ensures t.accountId == s.accountId && t.apiVersion == s.apiVersion
    ensures forall margin: U64, now: Time :: t.IsExpired(margin, now) == s.IsExpired(margin, now)
    ensures if cst.Some? then t.cst == cst else t.cst == s.cst
    ensures if xSecurityToken.Some? then t.xSecurityToken == xSecurityToken else t.xSecurityToken == s.xSecurityToken
  {
    s.(cst := cst.Or(s.cst), xSecurityToken := xSecurityToken.Or(s.xSecurityToken))
  }

  /** An account worth switching to: one that was really configured. */
  predicate RealAccount(configured: string) {
    configured != "" && configured != DEFAULT_ACCOUNT_ID
  }

  /** Neither an unset account nor the placeholder is one. */
  lemma RealAccountIff(configured: string)
    ensures RealAccount(configured) <==> configured !in {"", "default_account_id"}
  {
  }

  predicate ShouldSwitchAccount(apiVersion: nat, configured: string, current: string) {
    apiVersion != 3 && RealAccount(configured) && configured != current
  }

  // ---- traffic and sessions of the auth paths ----------------------------------------------

  /** Only session calls of one key: each paid one cell of that key and one of its account bucket. */
  ghost predicate SessionOnly(t: seq<Event>, slot: nat, account: Option<nat>) {
    && BusinessSends(t) == 0
    && (forall lane :: Count(t, BusinessSend(lane)) == 0)
    && (forall lane :: Count(t, KeyCell(lane)) == SessionSends(t, lane))
    && (forall lane :: lane != Lane(slot, NonTrading) ==> SessionSends(t, lane) == 0)
    && (forall bucket: nat, lane :: Count(t, AccountCell(bucket, lane)) ==
          if account == Some(bucket) then SessionSends(t, lane) else 0)
  }

  lemma SessionOnlyConcat(a: seq<Event>, b: seq<Event>, slot: nat, account: Option<nat>)
    requires SessionOnly(a, slot, account) && SessionOnly(b, slot, account)
    ensures SessionOnly(a + b, slot, account)
    ensures Count(a + b, LoggedIn) == Count(a, LoggedIn) + Count(b, LoggedIn)
  {
    CountConcat(a, b);
    BusinessConcat(a, b);
  }

  lemma SessionOnlyCosts(t: seq<Event>, c: Call, n: nat)
    requires Costs(t, c, false, n) && c.session.Some? && c.kind == NonTrading
    ensures SessionOnly(t, c.slot, c.account) && Count(t, LoggedIn) == 0
  {
  }

  lemma SessionOnlyLoggedIn(slot: nat, account: Option<nat>)
    ensures SessionOnly([], slot, account) && Count([], LoggedIn) == 0
    ensures SessionOnly([LoggedIn], slot, account) && Count([LoggedIn], LoggedIn) == 1
  {
    CountSingle(LoggedIn);
  }

  /** A session the server issued during the given span, whatever account it was then pinned to. */
  ghost predicate Issued(script: seq<Reply>, s: Session, start: Time, end: Time) {
    exists i: nat, t: Time, headers: SecurityHeaders ::
      && i < |script| && script[i].Reply? && script[i].session.Some?
      && start <= t <= end
      && script[i].session.value.ReadAt(t).GetSessionV2(headers).(accountId := s.accountId) == s
  }

  /**
   * How one OAuth login ends when the next reply is not transient: that reply alone decides. A body
   * becomes a session of the configured account, created when it was read.
   */
  ghost predicate OauthSettled(
    script: seq<Reply>, pos: nat, end: nat, configured: string, now: Time, r: Result<Session, AppError>)
  {
    var reply := ReplyAt(script, pos);
    match Judge(reply)
    case Accept =>
      && end == pos + 1
      && (reply.session.Some? && reply.session.value.BodyV3? ==>
            exists t: Time :: t <= now && r == Ok(OauthSession(reply.session.value, t, configured)))
    case Fail(e) => end == pos + 1 && r == Err(e)
    case Transient(_) => true
  }

  function OauthSession(body: SessionBody, t: Time, configured: string): Session {
    body.ReadAt(t).GetSession().(accountId := configured)
  }

  /** How one v2 login ends when the next reply is not to be sent again: that reply alone decides. */
  ghost predicate V2Settled(
    script: seq<Reply>, pos: nat, end: nat, now: Time, r: Result<Session, AppError>)
  {
    var reply := ReplyAt(script, pos);
    !Resendable(reply) ==>
      && end == pos + 1
      && (if !HasStatus(reply, 200, 299) then r.Err? && Reports(reply, Err(r.error))
          else if reply.cst.None? then r == Err(MissingSessionToken("cst"))
          else if reply.xSecurityToken.None? then r == Err(MissingSessionToken("x-security-token"))
          else if reply.session.None? then r == Err(Deserialization)
          else exists t: Time :: t <= now && r == Ok(V2Session(reply, t)))
  }

  function V2Session(reply: Reply, t: Time): Session
    requires reply.Reply? && reply.cst.Some? && reply.xSecurityToken.Some? && reply.session.Some?
  {
    reply.session.value.ReadAt(t).GetSessionV2(SecurityHeaders(reply.cst.value, reply.xSecurityToken.value))
  }

  /** A v2 session is the server's: on its account, and named by its tokens. */
  predicate Holds(session: Option<Session>, server: map<nat, Standing>, slot: nat, apiVersion: nat) {
    apiVersion != 3 && session.Some? ==>
      && slot in server
      && server[slot] == Standing(session.value.accountId, session.value.cst, session.value.xSecurityToken)
  }

  /** What a v2 login makes of an accepted reply is the session the server opened. */
  lemma OpenedIsHeld(reply: Reply, t: Time)
    requires reply.Reply? && reply.cst.Some? && reply.xSecurityToken.Some? && reply.session.Some?
    requires HasStatus(reply, 200, 299)
    ensures var s := V2Session(reply, t);
            Opened(reply) == Some(Standing(s.accountId, s.cst, s.xSecurityToken))
  {
  }

  /** Why a session could not be had: the error a reply reports, or what an accepted reply lacked. */
  predicate SessionFailure(reply: Reply, e: AppError) {
    || Reports(reply, Err(e))
    || (HasStatus(reply, 200, 299)
        && (e.MissingSessionToken? || e in {Deserialization, Network, Unauthorized, InvalidInput}))
  }

  /** An error has its cause among the replies from `pos` on. */
  ghost predicate FailedBy(script: seq<Reply>, pos: nat, end: nat, e: AppError) {
    exists j :: pos <= j < end && SessionFailure(ReplyAt(script, j), e)
  }

  lemma FailedAt(script: seq<Reply>, pos: nat, end: nat, e: AppError, answer: Result<Reply, AppError>)
    requires pos < end && Reports(ReplyAt(script, end - 1), answer)
    requires if answer.Err? then e == answer.error
             else e.MissingSessionToken? || e in {Deserialization, Network, Unauthorized, InvalidInput}
    ensures FailedBy(script, pos, end, e)
  {
    assert SessionFailure(ReplyAt(script, end - 1), e);
  }

  lemma FailedHere(script: seq<Reply>, from: nat, j: nat, to: nat, e: AppError)
    requires from <= j < to && SessionFailure(ReplyAt(script, j), e)
    ensures FailedBy(script, from, to, e)
  {
  }

  lemma FailedWithin(script: seq<Reply>, from: nat, pos: nat, end: nat, to: nat, e: AppError)
    requires FailedBy(script, pos, end, e) && from <= pos && end <= to
    ensures FailedBy(script, from, to, e)
  {
  }

  lemma SettledBySwitch(
    script: seq<Reply>, pos: nat, answered: nat, end: nat, configured: string, issued: Time, now: Time,
    first: Result<Session, AppError>, r: Result<Session, AppError>)
    requires V2Settled(script, pos, answered, issued, first) && pos < answered
    requires first.Ok? && RealAccount(configured) && first.value.accountId != configured
    requires r.Ok? ==> r.value.accountId == configured && end > answered
    ensures LoginSettled(script, pos, end, configured, now, r)
  {
    var reply := ReplyAt(script, pos);
    if !Resendable(reply) {
      var t: Time :| t <= issued && first == Ok(V2Session(reply, t));
      OpenedIsHeld(reply, t);
    }
  }

  lemma ReportsFacts(reply: Reply, r: Result<Reply, AppError>)
    requires Reports(reply, r)
    ensures (r.Ok? <==> HasStatus(reply, 200, 299)) && (r.Ok? ==> r.value == reply)
    ensures HasStatus(reply, 401, 401) <==> r == Err(Unauthorized) || r == Err(OAuthTokenExpired)
    ensures r.Err? ==> Reports(reply, Err(r.error)) && r == Err(r.error)
  {
  }

  lemma SameElsewhereTwice(a: map<nat, Standing>, b: map<nat, Standing>, c: map<nat, Standing>, slot: nat)
    requires SameElsewhere(a, b, slot) && SameElsewhere(b, c, slot)
    ensures SameElsewhere(a, c, slot)
  {
  }

  /** One switch call, and whether its last reply accepted it. */
  ghost predicate Switches(
    seg: seq<Event>, c: Call, script: seq<Reply>, end: nat, r: Result<Session, AppError>)
  {
    && (exists delays :: seg == RequestTrace(c, false, delays))
    && end > 0
    && (r.Ok? <==> HasStatus(ReplyAt(script, end - 1), 200, 299))
    && (r.Err? ==> Reports(ReplyAt(script, end - 1), Err(r.error)))
  }

  /**
   * How a v2 login with its account selection ends: when the first reply is final, it alone decides,
   * unless its session is on another account than a real configured one.
   */
  ghost predicate LoginSettled(
    script: seq<Reply>, pos: nat, end: nat, configured: string, now: Time, r: Result<Session, AppError>)
  {
    var reply := ReplyAt(script, pos);
    !Resendable(reply) ==>
      if Opened(reply).Some? && RealAccount(configured) && Opened(reply).value.account != configured
      then r.Ok? ==> r.value.accountId == configured && end > pos + 1
      else V2Settled(script, pos, end, now, r)
  }

  lemma SettledFirst(
    script: seq<Reply>, pos: nat, end: nat, configured: string, now: Time, r: Result<Session, AppError>)
    requires V2Settled(script, pos, end, now, r)
    ensures r.Err? ==> LoginSettled(script, pos, end, configured, now, r)
    ensures r.Ok? && !(RealAccount(configured) && r.value.accountId != configured) ==>
              LoginSettled(script, pos, end, configured, now, r)
  {
    var reply := ReplyAt(script, pos);
    if !Resendable(reply) && Opened(reply).Some? {
      var t: Time :| t <= now && r == Ok(V2Session(reply, t));
      OpenedIsHeld(reply, t);
    }
  }

  /** A login whose session is inside its refresh margin from the start. */
  predicate ShortLived(reply: Reply) {
    && Judge(reply).Accept? && reply.session.Some? && reply.session.value.BodyV3?
    && (reply.session.value.expiresIn.Some? ==>
          -MAX_DELTA_SECS <= reply.session.value.expiresIn.value <= PROACTIVE_REFRESH_MARGIN_V3_SECS)
  }

  /** Such a session is never ready, however soon after its login it is asked for. */
  lemma ShortLivedIsStale(
    script: seq<Reply>, pos: nat, end: nat, configured: string, now: Time, r: Result<Session, AppError>)
    requires OauthSettled(script, pos, end, configured, now, r) && ShortLived(ReplyAt(script, pos))
    ensures r.Ok? && end == pos + 1 && r.value.InsideMargin(now)
  {
    var body := ReplyAt(script, pos).session.value;
    var t: Time :| t <= now && r == Ok(OauthSession(body, t, configured));
    FloorMonotone(t, now);
  }

  lemma RefusedLogin(
    script: seq<Reply>, pos: nat, end: nat, configured: string, now: Time, r: Result<Session, AppError>)
    requires OauthSettled(script, pos, end, configured, now, r) && Judge(ReplyAt(script, pos)).Fail?
    ensures end == pos + 1 && r == Err(Judge(ReplyAt(script, pos)).error)
  {
  }

  /** No session the server may issue from `start` on reaches its refresh margin by `h`. */
  ghost predicate FreshUntil(script: seq<Reply>, start: Time, h: Time) {
    forall i :: 0 <= i < |script| && script[i].Reply? && script[i].session.Some? ==>
      StaysFresh(script[i].session.value, start, h)
  }

  lemma IssuedStaysFresh(script: seq<Reply>, s: Session, start: Time, end: Time, h: Time)
    requires Issued(script, s, start, end) && FreshUntil(script, start, h) && end <= h
    ensures !s.InsideMargin(h)
  {
    var i: nat, t: Time, headers: SecurityHeaders :|
      && i < |script| && script[i].Reply? && script[i].session.Some?
      && start <= t <= end
      && script[i].session.value.ReadAt(t).GetSessionV2(headers).(accountId := s.accountId) == s;
    assert StaysFresh(script[i].session.value, start, h);
    var original := script[i].session.value.ReadAt(t).GetSessionV2(headers);
    assert !original.InsideMargin(h);
    assert original.expiresAt == s.expiresAt && original.oauthToken == s.oauthToken;
  }

  lemma FreshLater(script: seq<Reply>, start: Time, later: Time, h: Time)
    requires FreshUntil(script, start, h) && start <= later
    ensures FreshUntil(script, later, h)
  {
  }

  lemma ReadyEarlier(s: Session, now: Time, h: Time)
    requires now <= h && !s.InsideMargin(h)
    ensures !s.InsideMargin(now)
  {
    if s.InsideMargin(now) {
      ExpiryIsMonotone(s, s.RefreshMargin(), now, h);
    }
  }

  lemma AllReadyEarlier(now: Time, h: Time)
    requires now <= h
    ensures forall s: Session :: !s.InsideMargin(h) ==> !s.InsideMargin(now)
  {
    forall s: Session | !s.InsideMargin(h)
      ensures !s.InsideMargin(now)
    {
      ReadyEarlier(s, now, h);
    }
  }

  // ---- the manager -------------------------------------------------------------------------

  class Auth {
    const w: World
    /** The pool slot whose key this manages. */
    const slot: nat
    /** The bucket its session calls share with the other keys of the account, when there is one. */
    const account: Option<nat>
    const apiVersion: nat
    const configured: string
    var session: Option<Session>

    constructor (w: World, slot: nat, account: Option<nat>, apiVersion: Option<nat>, configured: string)
      ensures this.w == w && this.slot == slot && this.account == account && session == None
      ensures this.apiVersion == (if apiVersion.Some? then apiVersion.value else 2)
      ensures this.configured == configured
    {
      this.w := w;
      this.slot := slot;
      this.account := account;
      this.apiVersion := if apiVersion.Some? then apiVersion.value else 2;
      this.configured := configured;
      session := None;
    }

    /** A cached session that is not inside its refresh margin. */
    predicate HasReadySession(now: Time)
      reads this
    {
      session.Some? && !session.value.InsideMargin(now)
    }

    function CallFor(call: SessionCall): Call {
      Call(slot, NonTrading, account, Some(call))
    }

    /** A v2 session is on the account, and has the tokens, that the server has on record for it. */
    ghost predicate Agrees()
      reads this, w
    {
      Holds(session, w.server, slot, apiVersion)
    }

    /** One session call, paced like every other request. */
    method Send(call: SessionCall) returns (r: Result<Reply, AppError>, ghost seg: seq<Event>, ghost delays: seq<nat>)
      requires w.Valid()
      modifies w
      ensures w.Valid() && w.now >= old(w.now)
      ensures w.trace == old(w.trace) + seg && SessionOnly(seg, slot, account) && Count(seg, LoggedIn) == 0
      ensures seg == RequestTrace(CallFor(call), false, delays) && w.pos == old(w.pos) + |delays| + 1
      ensures r.Ok? ==> w.Remaining() < old(w.Remaining())
      ensures r.Ok? ==> r.value in w.script && Judge(r.value).Accept?
      ensures w.Remaining() <= old(w.Remaining())
      ensures Reports(ReplyAt(w.script, w.pos - 1), r)
      ensures w.server == Stood(old(w.server), CallFor(call).SendEvent(), ReplyAt(w.script, w.pos - 1))
      ensures !Resendable(ReplyAt(w.script, old(w.pos))) ==> w.pos == old(w.pos) + 1
      ensures !Judge(ReplyAt(w.script, old(w.pos))).Transient? ==>
                w.pos == old(w.pos) + 1 && r == Answer(ReplyAt(w.script, old(w.pos)))
    {
      hide SessionOnly, Costs, RequestTrace, Backoffs, StopsAfter, Reports, Stood, Resendable;
      ghost var start := w.pos;
      var c := CallFor(call);
      r, delays := MakeHttpRequestPaced(w, c, w.retry, false);
      SettledAtOnce(w.script, start, w.retry.MaxRetries(), |delays| + 1);
      AnswerReports(ReplyAt(w.script, start));
      seg := RequestTrace(c, false, delays);
      RequestCosts(c, false, delays);
      SessionOnlyCosts(seg, c, |delays| + 1);
    }

    method LoginV2() returns (r: Result<Session, AppError>, ghost seg: seq<Event>)
      requires w.Valid()
      modifies w
      ensures w.Valid() && w.now >= old(w.now) && w.pos > old(w.pos)
      ensures w.trace == old(w.trace) + seg && SessionOnly(seg, slot, account) && Count(seg, LoggedIn) == 0
      ensures w.Remaining() <= old(w.Remaining()) && (r.Ok? ==> w.Remaining() < old(w.Remaining()))
      ensures r.Ok? ==> HasStatus(ReplyAt(w.script, w.pos - 1), 200, 299)
      ensures r.Ok? ==> Issued(w.script, r.value, old(w.now), w.now)
      ensures V2Settled(w.script, old(w.pos), w.pos, w.now, r)
      ensures r.Ok? <==> Opened(ReplyAt(w.script, w.pos - 1)).Some?
      // the session is the one the server opened, and a login that fails opened none
      ensures r.Ok? ==> Holds(Some(r.value), w.server, slot, 2)
      ensures r.Err? ==> w.server == old(w.server) && FailedBy(w.script, old(w.pos), w.pos, r.error)
      ensures SameElsewhere(old(w.server), w.server, slot)
    {
      hide SessionOnly, Reports, RequestTrace, Paced, World.Valid, FailedBy, HasStatus;
      var response;
      ghost var delays;
      response, seg, delays := Send(LogIn(2));
      ghost var reply0 := ReplyAt(w.script, w.pos - 1);
      StoodFacts(old(w.server), CallFor(LogIn(2)).SendEvent(), reply0);
      ReportsFacts(ReplyAt(w.script, w.pos - 1), response);
      if response.Err? {
        r := Err(response.error);
        FailedAt(w.script, old(w.pos), w.pos, response.error, response);
        return;
      }
      var reply := response.value;
      if reply.cst.None? {
        r := Err(MissingSessionToken("cst"));
        FailedAt(w.script, old(w.pos), w.pos, r.error, response);
        return;
      }
      if reply.xSecurityToken.None? {
        r := Err(MissingSessionToken("x-security-token"));
        FailedAt(w.script, old(w.pos), w.pos, r.error, response);
        return;
      }
      if reply.session.None? {
        r := Err(Deserialization);
        FailedAt(w.script, old(w.pos), w.pos, r.error, response);
        return;
      }
      var headers := SecurityHeaders(reply.cst.value, reply.xSecurityToken.value);
      var s := reply.session.value.ReadAt(w.now).GetSessionV2(headers);
      OpenedIsHeld(reply, w.now);
      assert s == V2Session(reply, w.now);
      ghost var i :| 0 <= i < |w.script| && w.script[i] == reply;
      assert w.script[i].session.value.ReadAt(w.now).GetSessionV2(headers).(accountId := s.accountId) == s;
      return Ok(s), seg;
    }

    method LoginOauth() returns (r: Result<Session, AppError>, ghost seg: seq<Event>)
      requires w.Valid()
      modifies w
      ensures w.Valid() && w.now >= old(w.now) && w.pos > old(w.pos)
      ensures w.trace == old(w.trace) + seg && SessionOnly(seg, slot, account) && Count(seg, LoggedIn) == 0
      ensures w.Remaining() <= old(w.Remaining()) && (r.Ok? ==> w.Remaining() < old(w.Remaining()))
      ensures r.Ok? ==> HasStatus(ReplyAt(w.script, w.pos - 1), 200, 299)
      ensures r.Ok? ==> Issued(w.script, r.value, old(w.now), w.now)
      ensures r.Ok? ==> r.value.IsOauth() && r.value.accountId == configured
      ensures OauthSettled(w.script, old(w.pos), w.pos, configured, w.now, r)
      ensures w.server == old(w.server)
      ensures r.Err? ==> FailedBy(w.script, old(w.pos), w.pos, r.error)
    {
      hide SessionOnly, Reports, RequestTrace, Paced, World.Valid, FailedBy, HasStatus;
      var response;
      ghost var delays;
      response, seg, delays := Send(LogIn(3));
      ReportsFacts(ReplyAt(w.script, w.pos - 1), response);
      if response.Err? {
        FailedAt(w.script, old(w.pos), w.pos, response.error, response);
        return Err(response.error), seg;
      }
      var reply := response.value;
      if reply.session.None? {
        FailedAt(w.script, old(w.pos), w.pos, Network, response);
        return Err(Network), seg;
      }
      var s := reply.session.value.ReadAt(w.now).GetSession().(accountId := configured);
      if !s.IsOauth() {
        FailedAt(w.script, old(w.pos), w.pos, Unauthorized, response);
        return Err(Unauthorized), seg;
      }
      ghost var i :| 0 <= i < |w.script| && w.script[i] == reply;
      assert s == OauthSession(reply.session.value, w.now, configured);
      ghost var headers := SecurityHeaders("", "");
      assert w.script[i].session.value.ReadAt(w.now).GetSessionV2(headers).(accountId := s.accountId) == s;
      return Ok(s), seg;
    }

    method RequestSession() returns (r: Result<Session, AppError>, ghost seg: seq<Event>)
      requires w.Valid()
      modifies w
      ensures w.Valid() && w.now >= old(w.now) && w.pos > old(w.pos)
      ensures w.trace == old(w.trace) + seg && SessionOnly(seg, slot, account) && Count(seg, LoggedIn) == 0
      ensures w.Remaining() <= old(w.Remaining()) && (r.Ok? ==> w.Remaining() < old(w.Remaining()))
      ensures r.Ok? ==> HasStatus(ReplyAt(w.script, w.pos - 1), 200, 299)
      ensures r.Ok? ==> Issued(w.script, r.value, old(w.now), w.now)
      ensures r.Ok? && apiVersion == 3 ==> r.value.IsOauth() && r.value.accountId == configured
      ensures apiVersion == 3 ==> OauthSettled(w.script, old(w.pos), w.pos, configured, w.now, r)
      ensures apiVersion != 3 ==> V2Settled(w.script, old(w.pos), w.pos, w.now, r)
      ensures r.Ok? ==> Holds(Some(r.value), w.server, slot, apiVersion)
      ensures r.Err? ==> w.server == old(w.server) && FailedBy(w.script, old(w.pos), w.pos, r.error)
      ensures SameElsewhere(old(w.server), w.server, slot)
    {
      hide V2Settled, OauthSettled, FailedBy;
      if apiVersion == 3 {
        r, seg := LoginOauth();
      } else {
        r, seg := LoginV2();
      }
    }

    /** Selects the configured account for a session just opened, or gives the session up. */
    method SelectConfigured(s: Session, ghost h: Time)
      returns (r: Result<Session, AppError>, ghost seg: seq<Event>)
      requires w.Valid() && session == Some(s) && Agrees()
      modifies this, w
      decreases w.Remaining(), 5
      ensures w.Valid() && w.now >= old(w.now) && w.Remaining() <= old(w.Remaining()) && w.pos >= old(w.pos)
      ensures w.trace == old(w.trace) + seg && SessionOnly(seg, slot, account)
      ensures if ShouldSwitchAccount(apiVersion, configured, s.accountId)
              then r.Ok? ==> r.value.accountId == configured && r.value.apiVersion != 3 && w.pos > old(w.pos)
              else r == Ok(s) && seg == [] && w.pos == old(w.pos) && w.now == old(w.now)
      ensures session == (if r.Ok? then Some(r.value) else None) && Agrees()
      ensures r.Err? && r.error != InvalidInput ==> FailedBy(w.script, old(w.pos), w.pos, r.error)
      ensures SameElsewhere(old(w.server), w.server, slot)
      ensures !s.InsideMargin(h) && w.now <= h ==>
                Count(seg, LoggedIn) == 0 && (r.Ok? ==> !r.value.InsideMargin(h))
    {
      hide SessionOnly, Paced, World.Valid, FailedBy, Session.InsideMargin;
      SessionOnlyLoggedIn(slot, account);
      r, seg := Ok(s), [];
      if ShouldSwitchAccount(apiVersion, configured, s.accountId) {
        r, seg := SwitchAccount(configured, h);
        if r.Err? {
          session := None;
        }
      }
    }

    /** Puts a finished login on record. */
    ghost method Enter(t: seq<Event>, before: seq<Event>) returns (seg: seq<Event>)
      requires w.Valid() && w.trace == t + before && SessionOnly(before, slot, account)
      modifies w`trace
      ensures w.Valid() && w.trace == t + seg && SessionOnly(seg, slot, account)
      ensures Count(seg, LoggedIn) == Count(before, LoggedIn) + 1
    {
      hide SessionOnly, Paced, World.Valid;
      SessionOnlyLoggedIn(slot, account);
      SessionOnlyConcat(before, [LoggedIn], slot, account);
      w.Note(LoggedIn);
      seg := before + [LoggedIn];
      Append3(t, before, [LoggedIn]);
    }

    /**
     * Logs in and selects the configured account, all or nothing. `h` is any bound on the clock up
     * to which the sessions the server issues stay fresh: then one login suffices.
     */
    method Login(ghost h: Time) returns (r: Result<Session, AppError>, ghost seg: seq<Event>)
      requires w.Valid()
      modifies this, w
      decreases w.Remaining(), 1
      ensures w.Valid() && w.now >= old(w.now) && w.Remaining() <= old(w.Remaining())
      ensures w.trace == old(w.trace) + seg && SessionOnly(seg, slot, account)
      ensures r.Ok? ==> session == Some(r.value) && Count(seg, LoggedIn) >= 1
      ensures r.Ok? && (apiVersion == 3 || RealAccount(configured)) ==> r.value.accountId == configured
      ensures r.Ok? && apiVersion == 3 ==> r.value.IsOauth()
      ensures apiVersion == 3 ==> OauthSettled(w.script, old(w.pos), w.pos, configured, w.now, r)
      ensures apiVersion != 3 ==> LoginSettled(w.script, old(w.pos), w.pos, configured, w.now, r)
      ensures r.Err? ==> session == old(session) || session == None
      ensures (r.Ok? || old(Agrees()) ==> Agrees()) && w.pos > old(w.pos)
      ensures r.Err? ==> FailedBy(w.script, old(w.pos), w.pos, r.error)
      ensures SameElsewhere(old(w.server), w.server, slot)
      ensures FreshUntil(w.script, old(w.now), h) && w.now <= h ==>
                && Count(seg, LoggedIn) == (if r.Ok? then 1 else 0)
                && (r.Ok? ==> !r.value.InsideMargin(h))
    {
      hide SessionOnly, Issued, FreshUntil, OauthSettled, Paced, World.Valid, V2Settled, LoginSettled, FailedBy;
      hide SameElsewhere, Reports, Holds, HasStatus, Session.InsideMargin;
      ghost var start, from, server, t := w.now, w.pos, w.server, w.trace;
      r, seg := RequestSession();
      ghost var first, answered, issued, standing := r, w.pos, w.now, w.server;
      if apiVersion != 3 {
        SettledFirst(w.script, from, answered, configured, w.now, r);
      }
      if r.Err? {
        return;
      }
      var s := r.value;
      session := Some(s);
      ghost var more;
      r, more := SelectConfigured(s, h);
      SameElsewhereTwice(server, standing, w.server, slot);
      SessionOnlyConcat(seg, more, slot, account);
      Append3(t, seg, more);
      seg := seg + more;
      if ShouldSwitchAccount(apiVersion, configured, s.accountId) {
        SettledBySwitch(w.script, from, answered, w.pos, configured, issued, w.now, first, r);
      }
      if FreshUntil(w.script, start, h) && w.now <= h {
        IssuedStaysFresh(w.script, s, start, issued, h);
      }
      if r.Err? {
        LoginFailed(w.script, from, answered, w.pos, r.error);
        return;
      }
      seg := Enter(t, seg);
    }

    lemma LoginFailed(script: seq<Reply>, from: nat, answered: nat, end: nat, e: AppError)
      requires from < answered <= end && HasStatus(ReplyAt(script, answered - 1), 200, 299)
      requires e != InvalidInput ==> FailedBy(script, answered, end, e)
      ensures FailedBy(script, from, end, e)
    {
      if e == InvalidInput {
        assert SessionFailure(ReplyAt(script, answered - 1), e);
      }
    }

    /** The current session, refreshed first when it is inside its margin. */
    method GetSession(ghost h: Time) returns (r: Result<Session, AppError>, ghost seg: seq<Event>)
      requires w.Valid()
      modifies this, w
      decreases w.Remaining(), 3
      ensures w.Valid() && w.now >= old(w.now) && w.Remaining() <= old(w.Remaining())
      ensures w.trace == old(w.trace) + seg && SessionOnly(seg, slot, account)
      ensures old(HasReadySession(w.now)) ==>
                r == Ok(old(session).value) && seg == [] && session == old(session) && w.now == old(w.now)
      ensures r.Ok? ==> session == Some(r.value)
      ensures r.Err? ==> session == old(session) || session == None
      ensures (old(Agrees()) ==> Agrees()) && (r.Ok? && !old(HasReadySession(w.now)) ==> Agrees())
      ensures if old(HasReadySession(w.now)) then w.pos == old(w.pos) && w.server == old(w.server)
              else w.pos > old(w.pos)
      ensures r.Err? ==> FailedBy(w.script, old(w.pos), w.pos, r.error)
      ensures SameElsewhere(old(w.server), w.server, slot)
      // a session inside its margin on entry is never handed back: a login took its place
      ensures !old(HasReadySession(w.now)) && r.Ok? ==>
                && Count(seg, LoggedIn) >= 1
                && (apiVersion == 3 || RealAccount(configured) ==> r.value.accountId == configured)
                && (apiVersion == 3 ==> r.value.IsOauth())
      ensures apiVersion == 3 && !old(HasReadySession(w.now)) ==>
                OauthSettled(w.script, old(w.pos), w.pos, configured, w.now, r)
      ensures !old(HasReadySession(w.now)) && FreshUntil(w.script, old(w.now), h) && w.now <= h ==>
                && Count(seg, LoggedIn) == (if r.Ok? then 1 else 0)
                && (r.Ok? ==> !r.value.InsideMargin(h))
    {
      hide V2Settled, FailedBy, Paced, World.Valid, OauthSettled;
      SessionOnlyLoggedIn(slot, account);
      ghost var start := w.now;
      if session.Some? {
        if session.value.InsideMargin(w.now) {
          w.Elapse(0);
          ExpiryIsMonotone(session.value, session.value.RefreshMargin(), start, w.now);
          if FreshUntil(w.script, start, h) {
            FreshLater(w.script, start, w.now, h);
          }
          r, seg := RefreshToken(h);
          return;
        }
        return Ok(session.value), [];
      }
      r, seg := Login(h);
    }

    /** Logs in when the session is inside its margin, and hands it back otherwise. */
    method RefreshToken(ghost h: Time) returns (r: Result<Session, AppError>, ghost seg: seq<Event>)
      requires w.Valid()
      modifies this, w
      decreases w.Remaining(), 2
      ensures w.Valid() && w.now >= old(w.now) && w.Remaining() <= old(w.Remaining())
      ensures w.trace == old(w.trace) + seg && SessionOnly(seg, slot, account)
      ensures old(HasReadySession(w.now)) ==>
                r == Ok(old(session).value) && seg == [] && session == old(session) && w.now == old(w.now)
      ensures r.Ok? ==> session == Some(r.value)
      ensures r.Err? ==> session == old(session) || session == None
      ensures (old(Agrees()) ==> Agrees()) && (r.Ok? && !old(HasReadySession(w.now)) ==> Agrees())
      ensures if old(HasReadySession(w.now)) then w.pos == old(w.pos) && w.server == old(w.server)
              else w.pos > old(w.pos)
      ensures r.Err? ==> FailedBy(w.script, old(w.pos), w.pos, r.error)
      ensures SameElsewhere(old(w.server), w.server, slot)
      ensures !old(HasReadySession(w.now)) && r.Ok? ==>
                && Count(seg, LoggedIn) >= 1
                && (apiVersion == 3 || RealAccount(configured) ==> r.value.accountId == configured)
                && (apiVersion == 3 ==> r.value.IsOauth())
      ensures apiVersion == 3 && !old(HasReadySession(w.now)) ==>
                OauthSettled(w.script, old(w.pos), w.pos, configured, w.now, r)
      ensures !old(HasReadySession(w.now)) && FreshUntil(w.script, old(w.now), h) && w.now <= h ==>
                && Count(seg, LoggedIn) == (if r.Ok? then 1 else 0)
                && (r.Ok? ==> !r.value.InsideMargin(h))
    {
      hide V2Settled, FailedBy, Paced, World.Valid, OauthSettled;
      SessionOnlyLoggedIn(slot, account);
      if session.Some? && !session.value.IsExpired(session.value.RefreshMargin(), w.now) {
        return Ok(session.value), [];
      }
      r, seg := Login(h);
    }

    /** Re-authenticates whatever the local clock says of the cached session. */
    method ForceRefresh(ghost h: Time) returns (r: Result<Session, AppError>, ghost seg: seq<Event>)
      requires w.Valid()
      modifies this, w
      ensures w.Valid() && w.now >= old(w.now) && w.Remaining() <= old(w.Remaining())
      ensures w.trace == old(w.trace) + seg && SessionOnly(seg, slot, account)
      ensures r.Ok? ==> session == Some(r.value) && Count(seg, LoggedIn) >= 1
      ensures r.Ok? && (apiVersion == 3 || RealAccount(configured)) ==> r.value.accountId == configured
      ensures r.Ok? && apiVersion == 3 ==> r.value.IsOauth()
      ensures apiVersion == 3 ==> OauthSettled(w.script, old(w.pos), w.pos, configured, w.now, r)
      ensures r.Err? ==> session == old(session) || session == None
      ensures (r.Ok? || old(Agrees()) ==> Agrees()) && w.pos > old(w.pos)
      ensures r.Err? ==> FailedBy(w.script, old(w.pos), w.pos, r.error)
      ensures SameElsewhere(old(w.server), w.server, slot)
      ensures FreshUntil(w.script, old(w.now), h) && w.now <= h ==>
                && Count(seg, LoggedIn) == (if r.Ok? then 1 else 0)
                && (r.Ok? ==> !r.value.InsideMargin(h))
    {
      r, seg := Login(h);
    }

    /** Asks the server to put the session on another account, and follows when it does. */
    method Redirect(current: Session, accountId: string, ghost h: Time)
      returns (r: Result<Session, AppError>, ghost seg: seq<Event>)
      requires w.Valid() && session == Some(current) && current.apiVersion != 3
      modifies this, w
      ensures w.Valid() && w.now >= old(w.now) && w.Remaining() <= old(w.Remaining()) && w.pos > old(w.pos)
      ensures w.trace == old(w.trace) + seg && SessionOnly(seg, slot, account) && Count(seg, LoggedIn) == 0
      ensures Switches(seg, CallFor(SwitchTo(accountId)), w.script, w.pos, r)
      ensures r.Ok? ==> session == Some(r.value) && r.value.accountId == accountId && r.value.apiVersion != 3
      ensures r.Ok? ==> (r.value.InsideMargin(h) <==> current.InsideMargin(h))
      ensures r.Err? ==> session == old(session) && FailedBy(w.script, old(w.pos), w.pos, r.error)
      ensures old(Agrees()) ==> Agrees()
      ensures SameElsewhere(old(w.server), w.server, slot)
    {
      hide SessionOnly, Paced, World.Valid, FailedBy, SameElsewhere, Reports, RequestTrace, Session.InsideMargin;
      var response;
      ghost var delays;
      response, seg, delays := Send(SwitchTo(accountId));
      StoodFacts(old(w.server), CallFor(SwitchTo(accountId)).SendEvent(), ReplyAt(w.script, w.pos - 1));
      ReportsFacts(ReplyAt(w.script, w.pos - 1), response);
      if response.Err? {
        FailedAt(w.script, old(w.pos), w.pos, response.error, response);
        return Err(response.error), seg;
      }
      var switched := ApplySwitchHeaders(current, response.value.cst, response.value.xSecurityToken);
      var s := switched.(accountId := accountId);
      SameMargin(current, s, h);
      session := Some(s);
      return Ok(s), seg;
    }

    lemma SameMargin(s: Session, t: Session, h: Time)
      requires t.expiresAt == s.expiresAt && t.oauthToken == s.oauthToken
      ensures t.InsideMargin(h) <==> s.InsideMargin(h)
    {
    }

    /** Points a v2 session at another account. */
    method SwitchAccount(accountId: string, ghost h: Time)
      returns (r: Result<Session, AppError>, ghost seg: seq<Event>)
      requires w.Valid()
      modifies this, w
      decreases w.Remaining(), 4
      ensures w.Valid() && w.now >= old(w.now) && w.Remaining() <= old(w.Remaining())
      ensures w.trace == old(w.trace) + seg && SessionOnly(seg, slot, account)
      ensures r.Ok? ==> session == Some(r.value) && r.value.accountId == accountId && r.value.apiVersion != 3
      // on failure nothing moved, or the session is gone, or a login in between left its own account
      ensures r.Err? ==>
                || session == old(session)
                || session == None
                || (Count(seg, LoggedIn) >= 1 && (RealAccount(configured) ==> session.value.accountId == configured))
      ensures (old(Agrees()) ==> Agrees()) && w.pos >= old(w.pos)
      ensures r.Ok? && old(session).Some? && old(session).value.accountId != accountId ==> w.pos > old(w.pos)
      ensures r.Err? && r.error != InvalidInput ==> FailedBy(w.script, old(w.pos), w.pos, r.error)
      ensures SameElsewhere(old(w.server), w.server, slot)
      // a ready session is switched by one call, accepted or not, unless it is on the account already
      ensures old(HasReadySession(w.now)) && old(session).value.apiVersion != 3 ==>
                if old(session).value.accountId == accountId then r == Ok(old(session).value) && seg == []
                else Switches(seg, CallFor(SwitchTo(accountId)), w.script, w.pos, r)
      ensures old(session).Some? && !old(session).value.InsideMargin(h) && w.now <= h ==>
                && Count(seg, LoggedIn) == 0
                && (r.Ok? ==> !r.value.InsideMargin(h))
    {
      hide SessionOnly, OauthSettled, Paced, World.Valid, FreshUntil, Issued, FailedBy, SameElsewhere, Holds;
      hide Switches, Session.InsideMargin;
      ghost var cached, from, server := session, w.pos, w.server;
      ghost var start := w.now;
      if cached.Some? && !cached.value.InsideMargin(h) && start <= h {
        ReadyEarlier(cached.value, start, h);
      }
      r, seg := GetSession(h);
      if r.Err? {
        return;
      }
      var current := r.value;
      if current.apiVersion == 3 {
        return Err(InvalidInput), seg;
      }
      if current.accountId == accountId {
        return;
      }
      ghost var more, middle, held := [], w.server, w.pos;
      r, more := Redirect(current, accountId, h);
      SameElsewhereTwice(server, middle, w.server, slot);
      SessionOnlyConcat(seg, more, slot, account);
      assert [] + more == more;
      seg := seg + more;
      if r.Err? {
        FailedWithin(w.script, from, held, w.pos, w.pos, r.error);
      }
    }

    /** Ends the session: the local one always, the server's as far as it still knows it. */
    method Logout() returns (r: Result<(), AppError>, ghost seg: seq<Event>)
      requires w.Valid()
      modifies this, w
      ensures w.Valid() && w.now >= old(w.now) && w.pos >= old(w.pos)
      ensures w.trace == old(w.trace) + seg && SessionOnly(seg, slot, account) && Count(seg, LoggedIn) == 0
      ensures session == None && Agrees() && SameElsewhere(old(w.server), w.server, slot)
      ensures old(session) == None ==> r == Ok(()) && seg == []
      // a session that was held is ended by one call; it need not be known to the server any more
      ensures old(session).Some? ==>
                && (exists delays :: seg == RequestTrace(CallFor(LogOut), false, delays))
                && var reply := ReplyAt(w.script, w.pos - 1);
                   && (r.Ok? <==> HasStatus(reply, 200, 299) || HasStatus(reply, 401, 401))
                   && (r.Err? ==> Reports(reply, Err(r.error)))
    {
      hide SessionOnly, Paced, World.Valid, RequestTrace, Reports;
      SessionOnlyLoggedIn(slot, account);
      seg := [];
      r := Ok(());
      if session.Some? {
        var response;
        ghost var delays;
        response, seg, delays := Send(LogOut);
        StoodFacts(old(w.server), CallFor(LogOut).SendEvent(), ReplyAt(w.script, w.pos - 1));
        ReportsFacts(ReplyAt(w.script, w.pos - 1), response);
        if response.Err? && response.error != Unauthorized && response.error != OAuthTokenExpired {
          r := Err(response.error);
        }
      }
      session := None;
    }
  }
}
