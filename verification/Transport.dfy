/**
 * The one place a request is sent: the bounded retry loop and the two budgets it charges, against
 * a network that answers as it likes. Every run is recorded as a trace of cells, sends and waits.
 */
module Transport {
  import opened Endpoints
  import opened Errors
  import opened Machine
  import opened RateLimiter
  import opened Retry
  import opened SessionModel
  import opened Wrappers

  /** The bucket of one class on one key of the pool. */
  datatype Lane = Lane(slot: nat, kind: RateLimitClass)

  /** What a session request asks the server for. */
  datatype SessionCall = LogIn(version: nat) | SwitchTo(account: string) | LogOut

  datatype Event =
    | KeyCell(lane: Lane)
    | AccountCell(bucket: nat, lane: Lane)
    | BusinessSend(lane: Lane)
    | SessionSend(lane: Lane, call: SessionCall)
    | LoggedIn
    | Slept(ms: nat)

  /** How often an event occurs in a trace. */
  function Count(trace: seq<Event>, e: Event): nat {
    if trace == [] then 0 else (if trace[0] == e then 1 else 0) + Count(trace[1..], e)
  }

  /** Session requests put on the wire on one lane, whatever they ask for. */
  function SessionSends(trace: seq<Event>, lane: Lane): nat {
    if trace == [] then 0
    else (if trace[0].SessionSend? && trace[0].lane == lane then 1 else 0) + SessionSends(trace[1..], lane)
  }

  lemma {:induction false} CountConcat(a: seq<Event>, b: seq<Event>)
    ensures forall e :: Count(a + b, e) == Count(a, e) + Count(b, e)
    ensures forall lane :: SessionSends(a + b, lane) == SessionSends(a, lane) + SessionSends(b, lane)
  {
    if a == [] {
      assert a + b == b;
    } else {
      assert (a + b)[1..] == a[1..] + b;
      CountConcat(a[1..], b);
    }
  }

  lemma CountSingle(x: Event)
    ensures forall e :: Count([x], e) == if x == e then 1 else 0
    ensures forall lane :: SessionSends([x], lane) == if x.SessionSend? && x.lane == lane then 1 else 0
  {
  }

  /** Business requests put on the wire, whatever their key and class. */
  function BusinessSends(trace: seq<Event>): nat {
    if trace == [] then 0 else (if trace[0].BusinessSend? then 1 else 0) + BusinessSends(trace[1..])
  }

  lemma {:induction false} BusinessConcat(a: seq<Event>, b: seq<Event>)
    ensures BusinessSends(a + b) == BusinessSends(a) + BusinessSends(b)
  {
    if a == [] {
      assert a + b == b;
    } else {
      assert (a + b)[1..] == a[1..] + b;
      BusinessConcat(a[1..], b);
    }
  }

  /** Milliseconds a trace spends waiting between retries. */
  function Waited(trace: seq<Event>): nat {
    if trace == [] then 0
    else (if trace[0].Slept? then trace[0].ms else 0) + Waited(trace[1..])
  }

  lemma {:induction false} WaitedConcat(a: seq<Event>, b: seq<Event>)
    ensures Waited(a + b) == Waited(a) + Waited(b)
  {
    if a == [] {
      assert a + b == b;
    } else {
      assert (a + b)[1..] == a[1..] + b;
      WaitedConcat(a[1..], b);
    }
  }

  // ---- one paced request -------------------------------------------------------------------

  /** Who sends, in which class, and against which account bucket, if any. */
  /** A call for a caller's own request has no session call to make. */
  datatype Call = Call(slot: nat, kind: RateLimitClass, account: Option<nat>, session: Option<SessionCall>) {
    function OnLane(): Lane {
      Lane(slot, kind)
    }

    /** The account bucket a send of this call charges: none for trading. */
    function Charged(): Option<nat> {
      if kind == Trading then None else account
    }

    function SendEvent(): Event {
      if session.None? then BusinessSend(OnLane()) else SessionSend(OnLane(), session.value)
    }

    /** One physical send: its key cell unless already held, its account cell, then the wire. */
    function SendOnce(held: bool): seq<Event> {
      var rest := if Charged().Some?
        then [AccountCell(Charged().value, OnLane()), SendEvent()] else [SendEvent()];
      if held then rest else [KeyCell(OnLane())] + rest
    }
  }

  /** The network's answer to the send number `pos`; it answers finitely often. */
  function ReplyAt(script: seq<Reply>, pos: nat): Reply {
    if pos < |script| then script[pos] else Lost
  }

  predicate TransientAt(script: seq<Reply>, pos: nat) {
    Judge(ReplyAt(script, pos)).Transient?
  }

  predicate TransientFrom(script: seq<Reply>, pos: nat, k: nat) {
    forall j :: pos <= j < pos + k ==> TransientAt(script, j)
  }

  lemma TransientGrows(script: seq<Reply>, pos: nat, k: nat)
    requires TransientFrom(script, pos, k) && Judge(ReplyAt(script, pos + k)).Transient?
    ensures TransientFrom(script, pos, k + 1)
  {
  }

  /**
   * When the loop stops: after the first reply that is not transient, or when the retries are spent.
   * Exactly one number of sends does that.
   */
  predicate StopsAfter(script: seq<Reply>, pos: nat, maxRetries: nat, n: nat) {
    && 1 <= n <= maxRetries + 1
    && TransientFrom(script, pos, n - 1)
    && (n == maxRetries + 1 || !TransientAt(script, pos + n - 1))
  }

  lemma StopIsUnique(script: seq<Reply>, pos: nat, maxRetries: nat, m: nat, n: nat)
    requires StopsAfter(script, pos, maxRetries, m) && StopsAfter(script, pos, maxRetries, n)
    ensures m == n
  {
    assert !TransientAt(script, pos + m - 1) || m == maxRetries + 1;
    assert !TransientAt(script, pos + n - 1) || n == maxRetries + 1;
  }

  /** A first reply that is not transient is the last. */
  lemma SettledAtOnce(script: seq<Reply>, pos: nat, maxRetries: nat, n: nat)
    requires StopsAfter(script, pos, maxRetries, n)
    ensures !Judge(ReplyAt(script, pos)).Transient? ==> n == 1
  {
    assert n > 1 ==> TransientAt(script, pos + 0);
  }

  lemma ResentOnly(script: seq<Reply>, pos: nat, maxRetries: nat, n: nat)
    requires StopsAfter(script, pos, maxRetries, n)
    ensures forall j :: pos <= j < pos + n - 1 ==> Resendable(ReplyAt(script, j))
    ensures n <= maxRetries ==> !Resendable(ReplyAt(script, pos + n - 1))
  {
    forall j | pos <= j < pos + n - 1
      ensures Resendable(ReplyAt(script, j))
    {
      assert TransientAt(script, j);
      AnswerReports(ReplyAt(script, j));
    }
    AnswerReports(ReplyAt(script, pos + n - 1));
  }

  lemma TransientChangesNothing(server: map<nat, Standing>, e: Event, reply: Reply)
    ensures Judge(reply).Transient? ==> Stood(server, e, reply) == server
  {
    AnswerReports(reply);
  }

  /** What the caller gets: the judgement of the last reply. */
  function Answer(reply: Reply): Result<Reply, AppError> {
    match Judge(reply)
    case Accept => Ok(reply)
    case Fail(e) => Err(e)
    case Transient(e) => Err(e)
  }

  /** The judgement, in statuses and bodies: what is sent again, and what the caller is told. */
  lemma AnswerReports(reply: Reply)
    ensures Judge(reply).Transient? <==> Resendable(reply)
    ensures Reports(reply, Answer(reply))
  {
  }

  function Entropy(reply: Reply): nat {
    if reply.Lost? then 0 else reply.entropy
  }

  /** One request: its first send, and for each wait of the backoff one more. */
  function RequestTrace(c: Call, reserved: bool, delays: seq<nat>): seq<Event> {
    if delays == [] then c.SendOnce(reserved)
    else
      var last := |delays| - 1;
      RequestTrace(c, reserved, delays[..last]) + ([Slept(delays[last])] + c.SendOnce(false))
  }

  lemma BackoffsGrow(retry: RetryConfig, script: seq<Reply>, pos: nat, delays: seq<nat>)
    requires Backoffs(retry, script, pos, delays) && |delays| < retry.MaxRetries()
    ensures Backoffs(retry, script, pos,
              delays + [retry.DelayForAttempt(|delays|, Entropy(ReplyAt(script, pos + |delays|)))])
  {
  }

  lemma RequestGrows(c: Call, reserved: bool, delays: seq<nat>, delay: nat)
    ensures RequestTrace(c, reserved, delays + [delay])
         == RequestTrace(c, reserved, delays) + ([Slept(delay)] + c.SendOnce(false))
  {
    assert (delays + [delay])[..|delays|] == delays;
  }

  /** The waits are the configured backoff, with the entropy each reply leaves to it. */
  predicate Backoffs(retry: RetryConfig, script: seq<Reply>, pos: nat, delays: seq<nat>) {
    && |delays| <= retry.MaxRetries()
    && forall k :: 0 <= k < |delays| ==>
         delays[k] == retry.DelayForAttempt(k, Entropy(ReplyAt(script, pos + k)))
  }

  /** Wait number k is the configured base doubled k times, capped at a minute, and at most a quarter more. */
  lemma WaitsAreConfigured(retry: RetryConfig, script: seq<Reply>, pos: nat, delays: seq<nat>, k: nat)
    requires Backoffs(retry, script, pos, delays) && k < |delays|
    ensures var base := match retry.retryDelaySecs case Some(secs) => secs case None => 10;
            var ideal := Min(base * 1000 * Pow2(k), 60_000);
            ideal <= delays[k] <= ideal + ideal / 4
    ensures |delays| <= match retry.maxRetryCount case Some(n) => n case None => 3
  {
    BackoffBounds(retry.DelaySecs(), k, Entropy(ReplyAt(script, pos + k)));
  }

  /** The exact cost of n sends: a key cell each unless the first was held, and an account cell each. */
  ghost predicate Costs(t: seq<Event>, c: Call, held: bool, n: nat) {
    && (forall lane :: Count(t, KeyCell(lane)) == if lane != c.OnLane() then 0 else if held then n - 1 else n)
    && (forall lane :: Count(t, BusinessSend(lane)) == if c.session.None? && lane == c.OnLane() then n else 0)
    && (forall lane :: SessionSends(t, lane) == if c.session.Some? && lane == c.OnLane() then n else 0)
    && (forall bucket: nat, lane :: Count(t, AccountCell(bucket, lane)) ==
          if c.Charged() == Some(bucket) && lane == c.OnLane() then n else 0)
    && Count(t, LoggedIn) == 0
    && BusinessSends(t) == if c.session.None? then n else 0
  }

  lemma SendOnceCosts(c: Call, held: bool)
    ensures Costs(c.SendOnce(held), c, held, 1) && Waited(c.SendOnce(held)) == 0
  {
    var key := if held then [] else [KeyCell(c.OnLane())];
    var account := if c.Charged().Some? then [AccountCell(c.Charged().value, c.OnLane())] else [];
    assert c.SendOnce(held) == key + account + [c.SendEvent()];
    WaitedConcat(key, account);
    WaitedConcat(key + account, [c.SendEvent()]);
    BusinessConcat(key, account);
    BusinessConcat(key + account, [c.SendEvent()]);
    CountConcat(key, account);
    CountConcat(key + account, [c.SendEvent()]);
    CountSingle(KeyCell(c.OnLane()));
    CountSingle(c.SendEvent());
    if c.Charged().Some? {
      CountSingle(AccountCell(c.Charged().value, c.OnLane()));
    }
  }

  lemma CostsAdd(before: seq<Event>, ms: nat, c: Call, held: bool, n: nat)
    requires n > 0 && Costs(before, c, held, n)
    ensures Costs(before + ([Slept(ms)] + c.SendOnce(false)), c, held, n + 1)
    ensures Waited(before + ([Slept(ms)] + c.SendOnce(false))) == Waited(before) + ms
  {
    SendOnceCosts(c, false);
    CountSingle(Slept(ms));
    CountConcat([Slept(ms)], c.SendOnce(false));
    CountConcat(before, [Slept(ms)] + c.SendOnce(false));
    BusinessConcat([Slept(ms)], c.SendOnce(false));
    BusinessConcat(before, [Slept(ms)] + c.SendOnce(false));
    WaitedConcat([Slept(ms)], c.SendOnce(false));
    WaitedConcat(before, [Slept(ms)] + c.SendOnce(false));
  }

  /**
   * Token conservation inside the retry loop, for every network and every retry count: each send
   * pays one cell of its own lane, the first one perhaps in advance, and one account cell.
   */
  lemma {:induction false} RequestCosts(c: Call, reserved: bool, delays: seq<nat>)
    ensures Costs(RequestTrace(c, reserved, delays), c, reserved, |delays| + 1)
  {
    if delays == [] {
      SendOnceCosts(c, reserved);
    } else {
      var last := |delays| - 1;
      RequestCosts(c, reserved, delays[..last]);
      CostsAdd(RequestTrace(c, reserved, delays[..last]), delays[last], c, reserved, |delays|);
    }
  }

  /** At no moment has more been sent than was paid for, and the account is charged after the key. */
  ghost predicate PaidFirst(t: seq<Event>, c: Call, extra: nat) {
    forall n :: 0 <= n <= |t| ==> PaidSoFar(t[..n], c, extra)
  }

  ghost predicate PaidSoFar(t: seq<Event>, c: Call, extra: nat) {
    && Count(t, c.SendEvent()) <= Count(t, KeyCell(c.OnLane())) + extra
    && (c.Charged().Some? ==>
          && Count(t, c.SendEvent()) <= Count(t, AccountCell(c.Charged().value, c.OnLane()))
          && Count(t, AccountCell(c.Charged().value, c.OnLane())) <= Count(t, KeyCell(c.OnLane())) + extra)
  }

  /** A finished part of a request: everything paid, and everything paid for sent. */
  ghost predicate Settled(t: seq<Event>, c: Call, extra: nat) {
    && Count(t, c.SendEvent()) == Count(t, KeyCell(c.OnLane())) + extra
    && (c.Charged().Some? ==>
          Count(t, AccountCell(c.Charged().value, c.OnLane())) == Count(t, c.SendEvent()))
  }

  lemma PaidFirstJoins(a: seq<Event>, b: seq<Event>, c: Call, extra: nat)
    requires PaidFirst(a, c, extra) && Settled(a, c, extra) && PaidFirst(b, c, 0) && Settled(b, c, 0)
    ensures PaidFirst(a + b, c, extra) && Settled(a + b, c, extra)
  {
    CountConcat(a, b);
    forall n | 0 <= n <= |a + b|
      ensures PaidSoFar((a + b)[..n], c, extra)
    {
      if n <= |a| {
        assert (a + b)[..n] == a[..n];
      } else {
        assert (a + b)[..n] == a + b[..n - |a|];
        CountConcat(a, b[..n - |a|]);
        assert PaidSoFar(b[..n - |a|], c, 0);
      }
    }
  }

  lemma SendOncePaidFirst(c: Call, held: bool)
    ensures PaidFirst(c.SendOnce(held), c, if held then 1 else 0)
    ensures Settled(c.SendOnce(held), c, if held then 1 else 0)
  {
    var t := c.SendOnce(held);
    var key := if held then [] else [KeyCell(c.OnLane())];
    var account := if c.Charged().Some? then [AccountCell(c.Charged().value, c.OnLane())] else [];
    assert t == key + account + [c.SendEvent()];
    CountConcat(key, account);
    CountConcat(key + account, [c.SendEvent()]);
    CountSingle(KeyCell(c.OnLane()));
    CountSingle(c.SendEvent());
    if c.Charged().Some? {
      CountSingle(AccountCell(c.Charged().value, c.OnLane()));
    }
    forall n | 0 <= n <= |t|
      ensures PaidSoFar(t[..n], c, if held then 1 else 0)
    {
      if n == |t| {
        assert t[..n] == t;
      } else if n == |key| + |account| {
        assert t[..n] == key + account;
      } else if n == |key| {
        assert t[..n] == key;
      } else {
        assert t[..n] == [];
      }
    }
  }

  lemma WaitPaidFirst(ms: nat, c: Call)
    ensures PaidFirst([Slept(ms)], c, 0) && Settled([Slept(ms)], c, 0)
  {
    CountSingle(Slept(ms));
    assert [Slept(ms)][..0] == [] && [Slept(ms)][..1] == [Slept(ms)];
  }

  /** Every send of a request comes after its key cell, and then its account cell, was taken for it. */
  lemma {:induction false} PaidBeforeSent(c: Call, reserved: bool, delays: seq<nat>)
    ensures PaidFirst(RequestTrace(c, reserved, delays), c, if reserved then 1 else 0)
    ensures Settled(RequestTrace(c, reserved, delays), c, if reserved then 1 else 0)
  {
    if delays == [] {
      SendOncePaidFirst(c, reserved);
    } else {
      var last := |delays| - 1;
      PaidBeforeSent(c, reserved, delays[..last]);
      SendOncePaidFirst(c, false);
      WaitPaidFirst(delays[last], c);
      PaidFirstJoins([Slept(delays[last])], c.SendOnce(false), c, 0);
      PaidFirstJoins(
        RequestTrace(c, reserved, delays[..last]), [Slept(delays[last])] + c.SendOnce(false), c,
        if reserved then 1 else 0);
    }
  }

  /** One request waits at most 75 s per retry, whatever its configuration and the network do. */
  lemma {:induction false} RequestWaits(
    c: Call, reserved: bool, retry: RetryConfig, script: seq<Reply>, pos: nat, delays: seq<nat>)
    requires Backoffs(retry, script, pos, delays)
    ensures Waited(RequestTrace(c, reserved, delays)) <= 75_000 * |delays| <= 75_000 * retry.MaxRetries()
  {
    if delays == [] {
      SendOnceCosts(c, reserved);
    } else {
      var last := |delays| - 1;
      RequestWaits(c, reserved, retry, script, pos, delays[..last]);
      DelayBound(retry, last, Entropy(ReplyAt(script, pos + last)));
      RequestCosts(c, reserved, delays[..last]);
      CostsAdd(RequestTrace(c, reserved, delays[..last]), delays[last], c, reserved, |delays|);
    }
  }

  // ---- what the server makes of the session calls ----------------------------------------------

  /** A session as the server keeps it: its account, and the tokens that name it. */
  datatype Standing = Standing(account: string, cst: Option<string>, xSecurityToken: Option<string>)

  /** A complete login opens a session on the account its body names. */
  function Opened(reply: Reply): Option<Standing> {
    if !HasStatus(reply, 200, 299) || reply.cst.None? || reply.xSecurityToken.None? then None else
      match reply.session
      case None => None
      case Some(BodyV2(account)) => Some(Standing(account, reply.cst, reply.xSecurityToken))
      case Some(BodyV3(account, _, _)) => Some(Standing(account, None, None))
  }

  /**
   * The session of every key after one more send and its reply: only an accepted reply changes it. A v3
   * login leaves no session that an account could be set on.
   */
  function Stood(server: map<nat, Standing>, e: Event, reply: Reply): map<nat, Standing> {
    if !e.SessionSend? || !HasStatus(reply, 200, 299) then server else
      var slot := e.lane.slot;
      match e.call
      case LogIn(version) =>
        if version != 3 && Opened(reply).Some? then server[slot := Opened(reply).value] else server
      case SwitchTo(account) =>
        if slot !in server then server else
          var before := server[slot];
          server[slot := Standing(
            account, reply.cst.Or(before.cst), reply.xSecurityToken.Or(before.xSecurityToken))]
      case LogOut => server - {slot}
  }

  predicate IsSend(e: Event) {
    e.BusinessSend? || e.SessionSend?
  }

  /** Every send takes one reply. */
  function Sends(trace: seq<Event>): nat {
    if trace == [] then 0
    else Sends(trace[..|trace| - 1]) + (if IsSend(trace[|trace| - 1]) then 1 else 0)
  }

  /** The sessions that the replies to a trace's sends leave. */
  function Standings(script: seq<Reply>, trace: seq<Event>): map<nat, Standing> {
    if trace == [] then map[] else
      var before, last := trace[..|trace| - 1], trace[|trace| - 1];
      Stood(Standings(script, before), last, ReplyAt(script, Sends(before)))
  }

  /** How far the replies are used up, and what the server stands at: both follow from the trace. */
  ghost predicate Recorded(script: seq<Reply>, trace: seq<Event>, pos: nat, server: map<nat, Standing>) {
    pos == Sends(trace) && server == Standings(script, trace)
  }

  lemma NothingRecorded(script: seq<Reply>)
    ensures Recorded(script, [], 0, map[])
  {
  }

  lemma RecordedNext(script: seq<Reply>, trace: seq<Event>, pos: nat, server: map<nat, Standing>, e: Event)
    requires Recorded(script, trace, pos, server)
    ensures !IsSend(e) ==> Recorded(script, trace + [e], pos, server)
    ensures IsSend(e) ==> Recorded(script, trace + [e], pos + 1, Stood(server, e, ReplyAt(script, pos)))
  {
    assert (trace + [e])[..|trace|] == trace;
  }

  /** Other keys' sessions are as they were. */
  ghost predicate SameElsewhere(before: map<nat, Standing>, after: map<nat, Standing>, slot: nat) {
    forall other :: other != slot ==>
      && (other in before <==> other in after) && (other in before ==> before[other] == after[other])
  }

  lemma StoodFacts(server: map<nat, Standing>, e: Event, reply: Reply)
    ensures !HasStatus(reply, 200, 299) ==> Stood(server, e, reply) == server
    ensures e.BusinessSend? ==> Stood(server, e, reply) == server
    ensures e.SessionSend? ==> SameElsewhere(server, Stood(server, e, reply), e.lane.slot)
  {
  }

  /** Send number k of a trace set the account of a key: an accepted switch, or a complete v2 login. */
  ghost predicate SetsAccount(script: seq<Reply>, trace: seq<Event>, k: nat, slot: nat, account: string) {
    && k < |trace| && trace[k].SessionSend? && trace[k].lane.slot == slot
    && var reply := ReplyAt(script, Sends(trace[..k]));
       && HasStatus(reply, 200, 299)
       && match trace[k].call
          case LogIn(version) => version != 3 && Opened(reply).Some? && Opened(reply).value.account == account
          case SwitchTo(to) => to == account
          case LogOut => false
  }

  /** The account a key is on is the one that was set last: no later login or switch set another. */
  lemma {:induction false} LastSetCounts(script: seq<Reply>, trace: seq<Event>, slot: nat)
    requires slot in Standings(script, trace)
    ensures exists k :: SetsAccount(script, trace, k, slot, Standings(script, trace)[slot].account)
                     && forall j, other :: j > k && SetsAccount(script, trace, j, slot, other) ==>
                          other == Standings(script, trace)[slot].account
  {
    var n := |trace| - 1;
    var before, last := trace[..n], trace[n];
    var account := Standings(script, trace)[slot].account;
    assert trace == before + [last];
    if SetsAccount(script, trace, n, slot, account) {
    } else {
      assert slot in Standings(script, before) && Standings(script, before)[slot].account == account;
      LastSetCounts(script, before, slot);
      var k: nat :| SetsAccount(script, before, k, slot, account)
            && forall j, other :: j > k && SetsAccount(script, before, j, slot, other) ==> other == account;
      assert trace[..k] == before[..k];
      assert SetsAccount(script, trace, k, slot, account);
      forall j: nat, other | j > k && SetsAccount(script, trace, j, slot, other)
        ensures other == account
      {
        if j < n {
          assert trace[..j] == before[..j];
          assert SetsAccount(script, before, j, slot, other);
        }
      }
    }
  }

  // ---- the budgets a trace keeps to --------------------------------------------------------

  /** What a cell is taken from: one class of one key, or an account. */
  datatype Budget = OfKey(lane: Lane) | OfAccount(bucket: nat)

  /** A cell with the moment it was granted. */
  datatype Cell = Cell(budget: Budget, at: nat)

  function BudgetOf(e: Event): Option<Budget> {
    match e
    case KeyCell(lane) => Some(OfKey(lane))
    case AccountCell(bucket, _) => Some(OfAccount(bucket))
    case _ => None
  }

  /** What each budget admits, when the keys are configured with `rate`. */
  function QuotaOf(rate: RateLimiterConfig, b: Budget): (q: Quota)
    ensures q.Valid()
  {
    match b
    case OfKey(Lane(_, NonTrading)) => ConfiguredQuota(rate)
    case OfKey(Lane(_, Trading)) =>
      BuildLimiter(PerSecondPeriod(TRADING_RATE_LIMIT_PER_SECOND), TRADING_HISTORICAL_BURST_SIZE)
    case OfKey(Lane(_, Historical)) =>
      BuildLimiter(PerSecondPeriod(HISTORICAL_RATE_LIMIT_PER_SECOND), TRADING_HISTORICAL_BURST_SIZE)
    case OfAccount(_) => ConfiguredQuota(ACCOUNT_CONFIG)
  }

  /** The budgets the cells of a trace are taken from, in order. */
  function Charges(trace: seq<Event>): seq<Budget> {
    if trace == [] then [] else
      var last := BudgetOf(trace[|trace| - 1]);
      Charges(trace[..|trace| - 1]) + (if last.Some? then [last.value] else [])
  }

  function BudgetsOf(cells: seq<Cell>): (budgets: seq<Budget>)
    ensures |budgets| == |cells| && forall i :: 0 <= i < |cells| ==> budgets[i] == cells[i].budget
  {
    seq(|cells|, i requires 0 <= i < |cells| => cells[i].budget)
  }

  /** When one budget granted its cells. */
  function Moments(cells: seq<Cell>, b: Budget): seq<nat> {
    if cells == [] then [] else
      var last := cells[|cells| - 1];
      Moments(cells[..|cells| - 1], b) + (if last.budget == b then [last.at] else [])
  }

  /** The cells of a trace were granted in time, each when its budget admitted it. */
  ghost predicate Paced(rate: RateLimiterConfig, trace: seq<Event>, cells: seq<Cell>, ticks: nat) {
    && Charges(trace) == BudgetsOf(cells)
    && (forall i :: 0 <= i < |cells| ==> cells[i].at <= ticks)
    && (forall b :: Admitted(QuotaOf(rate, b), Moments(cells, b)))
  }

  lemma NothingPaced(rate: RateLimiterConfig, ticks: nat)
    ensures Paced(rate, [], [], ticks)
  {
  }

  lemma PacedStill(rate: RateLimiterConfig, trace: seq<Event>, e: Event, cells: seq<Cell>, ticks: nat, later: nat)
    requires Paced(rate, trace, cells, ticks) && ticks <= later
    ensures Paced(rate, trace, cells, later)
    ensures BudgetOf(e).None? ==> Paced(rate, trace + [e], cells, later)
  {
    assert (trace + [e])[..|trace|] == trace;
  }

  lemma {:induction false} MomentsNotAfter(cells: seq<Cell>, b: Budget, ticks: nat)
    requires forall i :: 0 <= i < |cells| ==> cells[i].at <= ticks
    ensures forall k :: 0 <= k < |Moments(cells, b)| ==> Moments(cells, b)[k] <= ticks
  {
    if cells != [] {
      MomentsNotAfter(cells[..|cells| - 1], b, ticks);
    }
  }

  /** A moment the bucket admits is one from its earliest on. */
  lemma AdmittedFrom(q: Quota, cells: seq<nat>, at: nat)
    requires q.Valid() && Admitted(q, cells)
    requires cells != [] ==> cells[|cells| - 1] <= at
    ensures Admitted(q, cells + [at]) <==> FullAgain(q, cells) <= at + q.Slack()
  {
    assert (cells + [at])[..|cells|] == cells;
  }

  lemma MomentsNext(cells: seq<Cell>, cell: Cell, b: Budget)
    ensures Moments(cells + [cell], b) == Moments(cells, b) + (if cell.budget == b then [cell.at] else [])
  {
    assert (cells + [cell])[..|cells|] == cells;
  }

  lemma ChargesNext(trace: seq<Event>, e: Event, cells: seq<Cell>, cell: Cell)
    requires BudgetOf(e) == Some(cell.budget) && Charges(trace) == BudgetsOf(cells)
    ensures Charges(trace + [e]) == BudgetsOf(cells + [cell])
  {
    assert (trace + [e])[..|trace|] == trace;
  }

  lemma PacedGrant(
    rate: RateLimiterConfig, trace: seq<Event>, e: Event, cells: seq<Cell>, ticks: nat, at: nat)
    requires Paced(rate, trace, cells, ticks) && ticks <= at && BudgetOf(e).Some?
    requires var q := QuotaOf(rate, BudgetOf(e).value);
             FullAgain(q, Moments(cells, BudgetOf(e).value)) <= at + q.Slack()
    ensures Paced(rate, trace + [e], cells + [Cell(BudgetOf(e).value, at)], at)
  {
    hide Charges, BudgetsOf, BudgetOf, QuotaOf, Moments, Admitted, FullAgain, Quota.Slack;
    var b := BudgetOf(e).value;
    var cell := Cell(b, at);
    ChargesNext(trace, e, cells, cell);
    MomentsNotAfter(cells, b, ticks);
    AdmittedFrom(QuotaOf(rate, b), Moments(cells, b), at);
    forall other
      ensures Admitted(QuotaOf(rate, other), Moments(cells + [cell], other))
    {
      MomentsNext(cells, cell, other);
      assert Moments(cells, other) + [] == Moments(cells, other);
    }
  }

  lemma {:induction false} MomentsCount(trace: seq<Event>, cells: seq<Cell>, lane: Lane)
    requires Charges(trace) == BudgetsOf(cells)
    ensures |Moments(cells, OfKey(lane))| == Count(trace, KeyCell(lane))
    decreases |trace|
  {
    if trace != [] {
      var before, last := trace[..|trace| - 1], trace[|trace| - 1];
      assert trace == before + [last];
      CountConcat(before, [last]);
      assert Count([last], KeyCell(lane)) == if last == KeyCell(lane) then 1 else 0 by {
        assert [last][1..] == [];
      }
      if BudgetOf(last).None? {
        assert Charges(trace) == Charges(before);
        MomentsCount(before, cells, lane);
      } else {
        var k := |cells| - 1;
        assert |Charges(trace)| == |cells|;
        assert Charges(before) == Charges(trace)[..k];
        assert BudgetsOf(cells[..k]) == BudgetsOf(cells)[..k];
        MomentsCount(before, cells[..k], lane);
      }
    }
  }

  // ---- the world a client runs in ----------------------------------------------------------

  /** The calendar's reading of a clock that does not end with it. */
  function Calendar(ticks: nat): Time {
    Min(ticks, MAX_TIME)
  }

  /** Behind the first `n` cells none was granted before `t`. */
  ghost predicate GrantedFrom(cells: seq<Cell>, n: nat, t: nat) {
    n <= |cells| && forall k :: n <= k < |cells| ==> cells[k].at >= t
  }

  lemma GrantedNext(cells: seq<Cell>, n: nat, t: nat, cell: Cell)
    requires GrantedFrom(cells, n, t) && t <= cell.at
    ensures GrantedFrom(cells + [cell], n, t)
  {
  }

  lemma CellsAreNoSends(e: Event)
    ensures BudgetOf(e).Some? ==> !IsSend(e)
  {
  }

  /** A moment put on record: what was granted until then, and the clock. */
  class Stopwatch {
    ghost var count: nat
    ghost var ticks: nat

    constructor ()
      ensures count == ticks == 0
    {
      count, ticks := 0, 0;
    }
  }

  /** A budget that was asked and gave nothing: when, and the number of the try. */
  datatype Miss = Miss(budget: Budget, at: nat, try: nat)

  /** A budget has a cell at a moment. */
  predicate Admits(rate: RateLimiterConfig, cells: seq<Cell>, budget: Budget, at: nat) {
    FullAgain(QuotaOf(rate, budget), Moments(cells, budget)) <= at + QuotaOf(rate, budget).Slack()
  }

  /** Why a try got nothing: another caller was first, or the budget had no cell then. */
  predicate TrueMiss(m: Miss, rate: RateLimiterConfig, cells: seq<Cell>, rivals: nat -> bool) {
    rivals(m.try) || !Admits(rate, cells, m.budget, m.at)
  }

  /** Every try for a cell, and the record of those that got none. */
  class Tries {
    var count: nat
    ghost var missed: seq<Miss>

    constructor ()
      ensures count == 0 && missed == []
    {
      count, missed := 0, [];
    }
  }

  /** The clock, the network and the record of everything sent. */
  class World {
    /** Every answer the network will ever give; afterwards it is silent. */
    const script: seq<Reply>
    /** What the default retry configuration reads from the environment. */
    const retry: RetryConfig
    /** What the budget of every key is configured with. */
    const rate: RateLimiterConfig
    /** Whether another caller is first at a try. */
    const rivals: nat -> bool
    const watch: Stopwatch
    const tries: Tries
    var now: Time
    /** The clock as the buckets read it, which does not end with the calendar. */
    var ticks: nat
    var pos: nat
    ghost var trace: seq<Event>
    /** The cells of the trace, each with its moment. */
    var cells: seq<Cell>
    /** The session the server keeps for each key. */
    ghost var server: map<nat, Standing>

    ghost predicate Valid()
      reads this, watch
    {
      && now >= 0 && now == Calendar(ticks) && Paced(rate, trace, cells, ticks)
      && GrantedFrom(cells, watch.count, watch.ticks) && watch.ticks <= ticks
      && Recorded(script, trace, pos, server)
    }

    /** Answers the network still owes: what bounds the recursion of login and account switch. */
    ghost function Remaining(): nat
      reads this
    {
      if pos < |script| then |script| - pos else 0
    }

    constructor (
      script: seq<Reply>, retry: RetryConfig, rate: RateLimiterConfig, rivals: nat -> bool, now: Time)
      requires now >= 0
      ensures Valid() && fresh(watch) && fresh(tries) && server == map[]
      ensures this.rate == rate && this.rivals == rivals && cells == []
      ensures trace == [] && this.script == script && this.retry == retry && this.now == now && pos == 0
    {
      this.script := script;
      this.retry := retry;
      this.rate := rate;
      this.rivals := rivals;
      watch := new Stopwatch();
      tries := new Tries();
      this.now := now;
      ticks := now;
      pos := 0;
      trace := [];
      cells := [];
      server := map[];
      NothingPaced(rate, now);
      NothingRecorded(script);
    }

    /** Some time passes, as much as it likes but at least `nanos`; the calendar is the only limit. */
    method Elapse(nanos: nat)
      requires Valid()
      modifies this`now, this`ticks
      ensures Valid() && now >= Min(old(now) + nanos, MAX_TIME) && now >= old(now) && ticks >= old(ticks)
    {
      var extra: nat :| true;
      PacedStill(rate, trace, LoggedIn, cells, ticks, ticks + nanos + extra);
      ticks := ticks + nanos + extra;
      now := Calendar(ticks);
    }

    /** Records this moment. */
    ghost method StartWatch()
      requires Valid()
      modifies watch
      ensures Valid() && watch.count == |cells| && watch.ticks == ticks
    {
      watch.count, watch.ticks := |cells|, ticks;
    }

    /** Something other than a cell or a send goes on record. */
    ghost method Note(e: Event)
      requires Valid() && BudgetOf(e).None? && !IsSend(e)
      modifies this`trace
      ensures Valid() && trace == old(trace) + [e]
    {
      PacedStill(rate, trace, e, cells, ticks, ticks);
      RecordedNext(script, trace, pos, server, e);
      trace := trace + [e];
    }

    /** Puts a request on the wire and takes its reply. */
    method Transmit(ghost e: Event) returns (reply: Reply)
      requires Valid() && IsSend(e)
      modifies this`trace, this`pos, this`server
      ensures Valid() && trace == old(trace) + [e] && pos == old(pos) + 1
      ensures reply == ReplyAt(script, old(pos)) && server == Stood(old(server), e, reply)
    {
      hide Paced, Recorded, Stood;
      PacedStill(rate, trace, e, cells, ticks, ticks);
      RecordedNext(script, trace, pos, server, e);
      reply := ReplyAt(script, pos);
      server := Stood(server, e, reply);
      trace := trace + [e];
      pos := pos + 1;
    }

    /** Waits until its budget admits a cell, or longer when others are served first, and takes it. */
    method Grant(budget: Budget, ghost e: Event)
      requires Valid() && BudgetOf(e) == Some(budget)
      modifies this`now, this`ticks, this`trace, this`cells
      ensures Valid() && now >= old(now) && trace == old(trace) + [e]
    {
      hide Paced, QuotaOf, FullAgain, Moments, GrantedFrom, BudgetOf, Recorded;
      CellsAreNoSends(e);
      RecordedNext(script, trace, pos, server, e);
      var q := QuotaOf(rate, budget);
      var extra: nat :| true;
      var at := Max(ticks, FullAgain(q, Moments(cells, budget)) - q.Slack()) + extra;
      PacedGrant(rate, trace, e, cells, ticks, at);
      GrantedNext(cells, watch.count, watch.ticks, Cell(budget, at));
      cells := cells + [Cell(budget, at)];
      trace := trace + [e];
      ticks := at;
      now := Calendar(ticks);
    }

    /** Takes a cell exactly if the budget admits one right now and nobody else is first. */
    method TryGrant(budget: Budget, ghost e: Event) returns (taken: bool)
      requires Valid() && BudgetOf(e) == Some(budget)
      modifies this`trace, this`cells, tries
      ensures Valid() && trace == old(trace) + (if taken then [e] else [])
      ensures taken <==> !rivals(old(tries.count)) && Admits(rate, old(cells), budget, ticks)
      ensures !taken ==> cells == old(cells)
      ensures tries.count == old(tries.count) + 1
      ensures tries.missed == old(tries.missed) + (if taken then [] else [Miss(budget, ticks, old(tries.count))])
    {
      hide Paced, QuotaOf, FullAgain, Moments, GrantedFrom, BudgetOf, Recorded;
      CellsAreNoSends(e);
      RecordedNext(script, trace, pos, server, e);
      var number := tries.count;
      tries.count := number + 1;
      taken := !rivals(number) && Admits(rate, cells, budget, ticks);
      if taken {
        PacedGrant(rate, trace, e, cells, ticks, ticks);
        GrantedNext(cells, watch.count, watch.ticks, Cell(budget, ticks));
        cells := cells + [Cell(budget, ticks)];
        trace := trace + [e];
      } else {
        tries.missed := tries.missed + [Miss(budget, ticks, number)];
        assert trace + [] == trace;
      }
    }

    /** Whatever was sent for an account, it never passed thirty cells in any sixty seconds. */
    lemma AccountKeepsCeiling(bucket: nat, from: nat)
      requires Valid()
      ensures Charges(trace) == BudgetsOf(cells)
      ensures CellsIn(Moments(cells, OfAccount(bucket)), from, 60 * NANOS) <= 30
    {
      assert QuotaOf(rate, OfAccount(bucket)) == ConfiguredQuota(ACCOUNT_CONFIG);
      AccountCeiling(Moments(cells, OfAccount(bucket)), from);
    }

    /** No class of any key ever passed its rate. */
    lemma KeysKeepRate(lane: Lane, from: nat)
      requires Valid()
      ensures |Moments(cells, OfKey(lane))| == Count(trace, KeyCell(lane))
      ensures lane.kind == NonTrading ==>
                CellsIn(Moments(cells, OfKey(lane)), from, EffectivePeriod(rate))
                <= ConfiguredQuota(rate).burst + EffectiveMaxRequests(rate) - 1
      ensures lane.kind != NonTrading ==> CellsIn(Moments(cells, OfKey(lane)), from, NANOS) <= 1
    {
      MomentsCount(trace, cells, lane);
      assert Admitted(QuotaOf(rate, OfKey(lane)), Moments(cells, OfKey(lane)));
      if lane.kind == NonTrading {
        ConfiguredRate(rate, Moments(cells, OfKey(lane)), from);
      } else {
        OnePerSecond(Moments(cells, OfKey(lane)), from);
      }
    }
  }

  /** Waits for both budgets, key first, and puts the request on the wire. */
  method SendOne(w: World, c: Call, held: bool) returns (reply: Reply)
    requires w.Valid()
    modifies w
    ensures w.Valid() && w.now >= old(w.now)
    ensures w.pos == old(w.pos) + 1
    ensures w.trace == old(w.trace) + c.SendOnce(held)
    ensures reply == ReplyAt(w.script, old(w.pos)) && w.server == Stood(old(w.server), c.SendEvent(), reply)
  {
    hide Paced, Recorded, Stood;
    if !held {
      w.Grant(OfKey(c.OnLane()), KeyCell(c.OnLane()));
    }
    if c.Charged().Some? {
      w.Grant(OfAccount(c.Charged().value), AccountCell(c.Charged().value, c.OnLane()));
    }
    reply := w.Transmit(c.SendEvent());
    w.Elapse(0);
  }

  /** Waits out a backoff and sends once more. */
  method SendAgain(w: World, c: Call, delay: U64) returns (reply: Reply)
    requires w.Valid()
    modifies w
    ensures w.Valid() && w.now >= old(w.now)
    ensures w.pos == old(w.pos) + 1
    ensures w.trace == old(w.trace) + ([Slept(delay)] + c.SendOnce(false))
    ensures reply == ReplyAt(w.script, old(w.pos)) && w.server == Stood(old(w.server), c.SendEvent(), reply)
  {
    hide Paced, Recorded, Stood;
    w.Note(Slept(delay));
    w.Elapse(delay * 1_000_000);
    reply := SendOne(w, c, false);
  }

  /** Where the loop stands: every reply so far was transient, and each was followed by its wait. */
  ghost predicate Retrying(
    script: seq<Reply>, pos: nat, c: Call, retry: RetryConfig, reserved: bool, delays: seq<nat>, done: seq<Event>)
  {
    && TransientFrom(script, pos, |delays|) && Backoffs(retry, script, pos, delays)
    && done == RequestTrace(c, reserved, delays)
  }

  lemma NothingRetried(script: seq<Reply>, pos: nat, c: Call, retry: RetryConfig, reserved: bool)
    ensures Retrying(script, pos, c, retry, reserved, [], c.SendOnce(reserved))
  {
  }

  lemma RetryingGrows(
    script: seq<Reply>, pos: nat, c: Call, retry: RetryConfig, reserved: bool, delays: seq<nat>, done: seq<Event>,
    delay: nat)
    requires Retrying(script, pos, c, retry, reserved, delays, done) && |delays| < retry.MaxRetries()
    requires Judge(ReplyAt(script, pos + |delays|)).Transient?
    requires delay == retry.DelayForAttempt(|delays|, Entropy(ReplyAt(script, pos + |delays|)))
    ensures Retrying(script, pos, c, retry, reserved, delays + [delay], done + ([Slept(delay)] + c.SendOnce(false)))
  {
    TransientGrows(script, pos, |delays|);
    BackoffsGrow(retry, script, pos, delays);
    RequestGrows(c, reserved, delays, delay);
  }

  lemma RetryingStops(
    script: seq<Reply>, pos: nat, c: Call, retry: RetryConfig, reserved: bool, delays: seq<nat>, done: seq<Event>)
    requires Retrying(script, pos, c, retry, reserved, delays, done) && |delays| <= retry.MaxRetries()
    requires |delays| == retry.MaxRetries() || !Judge(ReplyAt(script, pos + |delays|)).Transient?
    ensures StopsAfter(script, pos, retry.MaxRetries(), |delays| + 1)
    ensures Backoffs(retry, script, pos, delays) && done == RequestTrace(c, reserved, delays)
  {
  }

  /** Sends one request: paced by both budgets, repeated only after transient failures. */
  method MakeHttpRequestPaced(w: World, c: Call, retry: RetryConfig, reserved: bool)
    returns (r: Result<Reply, AppError>, ghost delays: seq<nat>)
    requires w.Valid()
    modifies w
    ensures w.Valid() && w.now >= old(w.now)
    ensures StopsAfter(w.script, old(w.pos), retry.MaxRetries(), |delays| + 1)
    ensures Backoffs(retry, w.script, old(w.pos), delays)
    ensures w.pos == old(w.pos) + |delays| + 1
    ensures w.trace == old(w.trace) + RequestTrace(c, reserved, delays)
    ensures r == Answer(ReplyAt(w.script, w.pos - 1))
    // every reply that was followed by another send was throttling or a server error, and only such a
    // reply can end the loop before the retries are spent
    ensures forall j :: old(w.pos) <= j < old(w.pos) + |delays| ==> Resendable(ReplyAt(w.script, j))
    ensures |delays| < retry.MaxRetries() ==> !Resendable(ReplyAt(w.script, w.pos - 1))
    ensures Reports(ReplyAt(w.script, w.pos - 1), r)
    // only the last reply can have been accepted
    ensures w.server == Stood(old(w.server), c.SendEvent(), ReplyAt(w.script, w.pos - 1))
  {
    hide Retrying, RequestTrace, Backoffs, StopsAfter, ReplyAt, Call.SendOnce, Resendable, Reports, Stood, HasStatus;
    ghost var server := w.server;
    ghost var start, before := w.pos, w.trace;
    ghost var done := c.SendOnce(reserved);
    delays := [];
    NothingRetried(w.script, start, c, retry, reserved);
    var attempt: U32 := 0;
    var reply := SendOne(w, c, reserved);
    while attempt < retry.MaxRetries() && Judge(reply).Transient?
      invariant attempt == |delays| <= retry.MaxRetries()
      invariant w.Valid() && w.now >= old(w.now) && w.trace == before + done
      invariant w.pos == start + attempt + 1 && reply == ReplyAt(w.script, start + attempt)
      invariant Retrying(w.script, start, c, retry, reserved, delays, done)
      invariant w.server == Stood(server, c.SendEvent(), reply)
    {
      var delay := retry.DelayForAttempt(attempt, Entropy(reply));
      TransientChangesNothing(server, c.SendEvent(), reply);
      reply := SendAgain(w, c, delay);
      RetryingGrows(w.script, start, c, retry, reserved, delays, done, delay);
      ghost var again := [Slept(delay)] + c.SendOnce(false);
      Append3(before, done, again);
      done, delays := done + again, delays + [delay];
      attempt := attempt + 1;
    }
    RetryingStops(w.script, start, c, retry, reserved, delays, done);
    r := Answer(reply);
    ResentOnly(w.script, start, retry.MaxRetries(), |delays| + 1);
    AnswerReports(reply);
  }
}
