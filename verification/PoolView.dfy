/**
 * A pool of keys seen as plain values: when each key may serve again, which session it holds, and
 * what its bucket was asked. What one step of a reservation learns stays true in later steps.
 */
module PoolView {
  import opened Auth
  import opened Endpoints
  import opened Errors
  import opened Ledger
  import opened Machine
  import opened RateLimiter
  import opened RequestProtocol
  import opened Retry
  import opened SessionModel
  import opened Transport
  import opened Wrappers

  /** How long a key is skipped after its allowance was refused. */
  const KEY_COOLDOWN: nat := 60 * NANOS

  // ---- cooldowns -----------------------------------------------------------------------------

  /** A cooldown can only be set or extended. */
  predicate Later(before: Option<nat>, after: Option<nat>) {
    before == after || (after.Some? && (before.None? || before.value <= after.value))
  }

  ghost predicate AllLater(before: seq<Option<nat>>, after: seq<Option<nat>>) {
    |before| == |after| && forall i :: 0 <= i < |before| ==> Later(before[i], after[i])
  }

  lemma LaterSame(a: seq<Option<nat>>)
    ensures AllLater(a, a)
  {
  }

  lemma LaterStill(a: seq<Option<nat>>, b: seq<Option<nat>>, c: seq<Option<nat>>)
    requires AllLater(a, b) && AllLater(b, c)
    ensures AllLater(a, c)
  {
  }

  /** A key that refused its allowance to an attempt is parked for the whole cooldown. */
  ghost predicate Parked(deadlines: seq<Option<nat>>, slot: nat, error: Option<AppError>, at: int) {
    && slot < |deadlines|
    && (error == Some(ApiKeyAllowanceExceeded) ==>
          deadlines[slot].Some? && deadlines[slot].value >= at + KEY_COOLDOWN)
  }

  ghost predicate ParkedBy(deadlines: seq<Option<nat>>, e: Entry) {
    Parked(deadlines, e.attempt.slot, e.attempt.error, e.at)
  }

  ghost predicate FirstParked(deadlines: seq<Option<nat>>, n: nat, since: Time) {
    forall i: nat :: i < n ==> Parked(deadlines, i, Some(ApiKeyAllowanceExceeded), since)
  }

  lemma ParkedStill(d: seq<Option<nat>>, e: seq<Option<nat>>, n: nat, since: Time, t: Time)
    requires AllLater(d, e) && FirstParked(d, n, since) && since <= t
    ensures FirstParked(e, n, since)
    ensures Parked(e, n, Some(ApiKeyAllowanceExceeded), t) ==> FirstParked(e, n + 1, since)
  {
    forall i: nat | i < n
      ensures Parked(e, i, Some(ApiKeyAllowanceExceeded), since)
    {
      assert Parked(d, i, Some(ApiKeyAllowanceExceeded), since);
    }
  }

  ghost predicate Cools(deadlines: seq<Option<nat>>, slot: nat, since: Time) {
    slot < |deadlines| && deadlines[slot].Some? && since < deadlines[slot].value
  }

  // ---- why a key does not serve --------------------------------------------------------------

  /** A log only ever grows. */
  ghost predicate Grew(before: seq<Miss>, after: seq<Miss>) {
    before <= after
  }

  lemma GrewTwice(a: seq<Miss>, b: seq<Miss>, c: seq<Miss>)
    ensures Grew(a, a)
    ensures Grew(a, b) && Grew(b, c) ==> Grew(a, c)
  {
  }

  ghost predicate Stale(session: Option<Session>, now: Time) {
    session.None? || session.value.InsideMargin(now)
  }

  /** The lane's bucket was asked for a cell and gave none. */
  ghost predicate Missed(lane: Lane, lost: seq<Miss>) {
    exists k :: 0 <= k < |lost| && lost[k].budget == OfKey(lane)
  }

  /** All these buckets were asked between two tries and two moments, and had no cell or a rival was first. */
  ghost predicate AllTrue(
    lost: seq<Miss>, rate: RateLimiterConfig, cells: seq<Cell>, rivals: nat -> bool, first: nat, last: nat,
    since: nat, until: nat)
  {
    forall k :: 0 <= k < |lost| ==>
      first <= lost[k].try < last && since <= lost[k].at <= until && TrueMiss(lost[k], rate, cells, rivals)
  }

  lemma AllTrueNext(
    lost: seq<Miss>, more: seq<Miss>, rate: RateLimiterConfig, cells: seq<Cell>, rivals: nat -> bool, first: nat,
    last: nat, next: nat, since: nat, until: nat, later: nat)
    requires AllTrue(lost, rate, cells, rivals, first, last, since, until) && last <= next && until <= later
    requires AllTrue(more, rate, cells, rivals, first, next, since, later)
    ensures AllTrue(lost + more, rate, cells, rivals, first, next, since, later)
  {
  }

  lemma NoneMissed(rate: RateLimiterConfig, cells: seq<Cell>, rivals: nat -> bool, first: nat, since: nat)
    ensures forall last: nat, until: nat :: AllTrue([], rate, cells, rivals, first, last, since, until)
  {
  }

  lemma AllTrueWider(
    lost: seq<Miss>, rate: RateLimiterConfig, cells: seq<Cell>, rivals: nat -> bool, first: nat, last: nat, next: nat,
    since: nat, until: nat)
    requires AllTrue(lost, rate, cells, rivals, first, last, since, until) && last <= next
    ensures AllTrue(lost, rate, cells, rivals, first, next, since, until)
  {
  }

  lemma OneMissed(
    m: Miss, rate: RateLimiterConfig, cells: seq<Cell>, rivals: nat -> bool, first: nat, last: nat, since: nat,
    until: nat)
    requires first <= m.try < last && since <= m.at <= until && TrueMiss(m, rate, cells, rivals)
    ensures AllTrue([m], rate, cells, rivals, first, last, since, until)
  {
  }

  lemma MissedOne(lane: Lane, lost: seq<Miss>, more: seq<Miss>)
    ensures more != [] && more[0].budget == OfKey(lane) ==> Missed(lane, lost + more)
  {
    if more != [] {
      assert (lost + more)[|lost|] == more[0];
    }
  }

  ghost predicate NoRivals(rivals: nat -> bool, first: nat, last: nat) {
    forall n: nat :: first <= n < last ==> !rivals(n)
  }

  /** A key that can serve at once: not cooling, with a session that stays ready, and with a cell in its bucket. */
  ghost predicate Serviceable(
    lane: Lane, sessions: seq<Option<Session>>, deadlines: seq<Option<nat>>, since: Time, now: Time,
    rate: RateLimiterConfig, cells: seq<Cell>, ticks: nat)
  {
    && lane.slot < |sessions| && !Cools(deadlines, lane.slot, since) && !Stale(sessions[lane.slot], now)
    && Admits(rate, cells, OfKey(lane), ticks)
  }

  /** Unless somebody else is first, such a key is not passed over. */
  lemma ServiceableServes(
    lane: Lane, lost: seq<Miss>, sessions: seq<Option<Session>>, deadlines: seq<Option<nat>>, since: Time, now: Time,
    rate: RateLimiterConfig, cells: seq<Cell>, rivals: nat -> bool, first: nat, last: nat, ticks: nat, until: nat)
    requires Serviceable(lane, sessions, deadlines, since, now, rate, cells, ticks)
    requires AllTrue(lost, rate, cells, rivals, first, last, ticks, until) && NoRivals(rivals, first, last)
    ensures !PassedOver(lane, lost, sessions, deadlines, since, now)
  {
    forall k | 0 <= k < |lost|
      ensures lost[k].budget != OfKey(lane)
    {
      assert TrueMiss(lost[k], rate, cells, rivals);
    }
  }

  /** A slot is served in its turn: the ones before it in the order were passed over. */
  ghost predicate InTurn(
    order: seq<nat>, slot: nat, kind: RateLimitClass, lost: seq<Miss>, sessions: seq<Option<Session>>,
    deadlines: seq<Option<nat>>, since: Time, now: Time)
  {
    exists n :: 0 <= n < |order| && order[n] == slot
             && AllPassedOver(order[..n], kind, lost, sessions, deadlines, since, now)
  }

  /** A slot of the walk is served in its turn: the ones before it were tried already or passed over. */
  ghost predicate InWalk(
    order: seq<nat>, tried: seq<nat>, slot: nat, kind: RateLimitClass, lost: seq<Miss>,
    sessions: seq<Option<Session>>, deadlines: seq<Option<nat>>, since: Time, now: Time)
  {
    exists n :: 0 <= n < |order| && order[n] == slot && slot !in tried
             && forall m :: 0 <= m < n ==>
                  order[m] in tried || PassedOver(Lane(order[m], kind), lost, sessions, deadlines, since, now)
  }

  /** Why a key cannot serve at once: its bucket was empty, it was cooling, or it had no ready session. */
  ghost predicate PassedOver(
    lane: Lane, lost: seq<Miss>, sessions: seq<Option<Session>>, deadlines: seq<Option<nat>>, since: Time, now: Time)
  {
    && lane.slot < |sessions| && lane.slot < |deadlines|
    && (|| Missed(lane, lost)
        || Cools(deadlines, lane.slot, since)
        || Stale(sessions[lane.slot], now))
  }

  ghost predicate AllPassedOver(
    slots: seq<nat>, kind: RateLimitClass, lost: seq<Miss>, sessions: seq<Option<Session>>,
    deadlines: seq<Option<nat>>, since: Time, now: Time)
  {
    forall k :: 0 <= k < |slots| ==> PassedOver(Lane(slots[k], kind), lost, sessions, deadlines, since, now)
  }

  lemma NonePassedOver(
    kind: RateLimitClass, sessions: seq<Option<Session>>, deadlines: seq<Option<nat>>, now: Time)
    ensures AllPassedOver([], kind, [], sessions, deadlines, now, now) && AllLater(deadlines, deadlines)
  {
  }

  lemma {:induction false} PassedOverStill(
    slots: seq<nat>, kind: RateLimitClass, lost: seq<Miss>, sessions: seq<Option<Session>>,
    d: seq<Option<nat>>, e: seq<Option<nat>>, since: Time, t: Time, now: Time)
    requires AllPassedOver(slots, kind, lost, sessions, d, since, t) && AllLater(d, e) && t <= now
    ensures AllPassedOver(slots, kind, lost, sessions, e, since, now)
  {
    AllReadyEarlier(t, now);
  }

  lemma PassedOverNext(
    slots: seq<nat>, kind: RateLimitClass, lost: seq<Miss>, more: seq<Miss>, sessions: seq<Option<Session>>,
    d: seq<Option<nat>>, since: Time, t: Time, now: Time, slot: nat)
    requires AllPassedOver(slots, kind, lost, sessions, d, since, t) && t <= now
    requires PassedOver(Lane(slot, kind), lost + more, sessions, d, since, now)
    ensures AllPassedOver(slots + [slot], kind, lost + more, sessions, d, since, now)
  {
    AllReadyEarlier(t, now);
    assert forall k :: 0 <= k < |lost| ==> (lost + more)[k] == lost[k];
    assert forall k :: 0 <= k < |slots| ==> (slots + [slot])[k] == slots[k];
  }

  // ---- why a key is not logged in on ---------------------------------------------------------

  /** Why a key need not be logged in on: it is cooling, or its session was ready. */
  ghost predicate AllSettled(
    slots: seq<nat>, sessions: seq<Option<Session>>, deadlines: seq<Option<nat>>, since: Time)
  {
    forall k :: 0 <= k < |slots| ==>
      slots[k] < |sessions| && (Cools(deadlines, slots[k], since) || !Stale(sessions[slots[k]], since))
  }

  /** A slot is logged in on in its turn: the ones before it in the order were settled. */
  ghost predicate LoginInTurn(
    order: seq<nat>, slot: nat, sessions: seq<Option<Session>>, deadlines: seq<Option<nat>>, since: Time)
  {
    exists n :: 0 <= n < |order| && order[n] == slot && AllSettled(order[..n], sessions, deadlines, since)
  }

  lemma SettledLater(
    slots: seq<nat>, sessions: seq<Option<Session>>, d: seq<Option<nat>>, e: seq<Option<nat>>, since: Time)
    requires AllSettled(slots, sessions, d, since) && AllLater(d, e)
    ensures AllSettled(slots, sessions, e, since)
  {
  }

  /** Only keys that were then parked have another session than before. */
  ghost predicate Unsettled(
    before: seq<Option<Session>>, after: seq<Option<Session>>, deadlines: seq<Option<nat>>, since: Time)
  {
    |before| == |after| == |deadlines|
    && forall i :: 0 <= i < |before| ==> before[i] == after[i] || Cools(deadlines, i, since)
  }

  lemma NothingSettled(sessions: seq<Option<Session>>, deadlines: seq<Option<nat>>, now: Time)
    ensures AllSettled([], sessions, deadlines, now)
    ensures |sessions| == |deadlines| ==> Unsettled(sessions, sessions, deadlines, now)
  {
  }

  lemma SettledNext(
    slots: seq<nat>, slot: nat, before: seq<Option<Session>>, after: seq<Option<Session>>,
    deadlines: seq<Option<nat>>, since: Time, now: Time)
    requires AllSettled(slots, before, deadlines, since) && Unsettled(before, after, deadlines, since)
    requires slot < |before| && since <= now && (Cools(deadlines, slot, now) || !Stale(after[slot], now))
    ensures AllSettled(slots + [slot], before, deadlines, since)
  {
    AllReadyEarlier(since, now);
    assert forall k :: 0 <= k < |slots| ==> (slots + [slot])[k] == slots[k];
  }

  lemma {:induction false} SettledParked(
    slots: seq<nat>, slot: nat, before: seq<Option<Session>>, reached: seq<Option<Session>>,
    after: seq<Option<Session>>, d: seq<Option<nat>>, e: seq<Option<nat>>, since: Time)
    requires AllSettled(slots, before, d, since) && Unsettled(before, reached, d, since) && AllLater(d, e)
    requires slot < |reached| && |after| == |reached| && Cools(e, slot, since)
    requires forall i :: 0 <= i < |reached| && i != slot ==> after[i] == reached[i]
    ensures AllSettled(slots + [slot], before, e, since) && Unsettled(before, after, e, since)
  {
    assert forall i :: Cools(d, i, since) ==> Cools(e, i, since);
    assert forall k :: 0 <= k < |slots| ==> (slots + [slot])[k] == slots[k];
  }

  // ---- logins that do not last ---------------------------------------------------------------

  /** A v3 pool of one key that has not logged in, and whose login will not last. */
  predicate ColdStart(
    apiVersion: nat, sessions: seq<Option<Session>>, deadlines: seq<Option<nat>>, reply: Reply)
  {
    apiVersion == 3 && sessions == [None] && deadlines == [None] && ShortLived(reply)
  }

  /** That login was made, with the reply at `before`, and its session is not ready already. */
  predicate Lapsed(sessions: seq<Option<Session>>, now: Time, before: nat, pos: nat) {
    pos == before + 1 && |sessions| == 1 && sessions[0].Some? && sessions[0].value.InsideMargin(now)
  }

  // ---- whose sessions the keys hold -----------------------------------------------------------

  /** A session a login left: on v3 an OAuth session, and on the configured account if a real one is configured. */
  predicate LoggedInFor(s: Session, apiVersion: nat, configured: string) {
    && (apiVersion == 3 ==> s.IsOauth())
    && (apiVersion == 3 || RealAccount(configured) ==> s.accountId == configured)
  }

  /**
   * Every key holds the session it held before. Only a session that is stale by `now`, or that was
   * thrown away by force, has gone, and then there is none or one a login left.
   */
  ghost predicate Relogged(
    before: seq<Option<Session>>, after: seq<Option<Session>>, now: Time, forced: bool, apiVersion: nat,
    configured: string)
  {
    |before| == |after| && forall i :: 0 <= i < |before| ==>
      || after[i] == before[i]
      || ((forced || Stale(before[i], now))
          && (after[i].None? || LoggedInFor(after[i].value, apiVersion, configured)))
  }

  lemma ReloggedNot(a: seq<Option<Session>>, now: Time, forced: bool, apiVersion: nat, configured: string)
    ensures Relogged(a, a, now, forced, apiVersion, configured)
  {
  }

  lemma ReloggedAnyway(
    a: seq<Option<Session>>, b: seq<Option<Session>>, now: Time, apiVersion: nat, configured: string)
    requires Relogged(a, b, now, false, apiVersion, configured)
    ensures Relogged(a, b, now, true, apiVersion, configured)
  {
  }

  lemma ReloggedTwice(
    a: seq<Option<Session>>, b: seq<Option<Session>>, c: seq<Option<Session>>, t: Time, now: Time,
    f: bool, g: bool, apiVersion: nat, configured: string)
    requires Relogged(a, b, t, f, apiVersion, configured) && Relogged(b, c, now, g, apiVersion, configured)
    requires t <= now
    ensures Relogged(a, c, now, f || g, apiVersion, configured)
  {
    AllReadyEarlier(t, now);
  }

  /**
   * What an attempt was sent with, given the session its key held before: that session, or, when that
   * one was stale or thrown away by force, one a login left; and the selected account in the header
   * exactly on OAuth sessions.
   */
  ghost predicate SentWith(
    e: Entry, before: Option<Session>, forced: bool, apiVersion: nat, configured: string)
  {
    e.attempt.sends > 0 ==>
      && e.session.Some? && IsTime(e.at)
      && (apiVersion != 3 ==> e.standing == Some(StandingOf(e.session.value)))
      && (|| e.session == before
          || ((forced || Stale(before, e.at)) && LoggedInFor(e.session.value, apiVersion, configured)))
      && e.header == (if e.session.value.IsOauth() then Some(e.selected) else None)
      && (apiVersion == 3 ==> e.session.value.IsOauth())
  }

  function StandingOf(s: Session): Standing {
    Standing(s.accountId, s.cst, s.xSecurityToken)
  }

  lemma SentWithFetched(
    e: Entry, before: seq<Option<Session>>, after: seq<Option<Session>>, t: Time, apiVersion: nat,
    configured: string)
    requires Relogged(before, after, t, false, apiVersion, configured) && IsTime(e.at) && t <= e.at
    requires e.attempt.slot < |after| && e.session.Some? && after[e.attempt.slot] == e.session
    requires e.header == (if e.session.value.IsOauth() then Some(e.selected) else None)
    requires apiVersion == 3 ==> e.session.value.IsOauth()
    requires apiVersion != 3 ==> e.standing == Some(StandingOf(e.session.value))
    ensures SentWith(e, before[e.attempt.slot], false, apiVersion, configured)
  {
    AllReadyEarlier(t, e.at);
  }

  lemma NothingSentWith(e: Entry, before: Option<Session>, apiVersion: nat, configured: string)
    requires e.attempt.sends == 0
    ensures SentWith(e, before, false, apiVersion, configured)
  {
  }

  lemma SentWithSame(made: Entry, e: Entry, before: Option<Session>, apiVersion: nat, configured: string)
    requires SentWith(made, before, false, apiVersion, configured)
    requires e == made.(attempt := made.attempt.(refreshed := e.attempt.refreshed), refresh := e.refresh,
                        until := e.until)
    ensures SentWith(e, before, false, apiVersion, configured)
  {
  }

  lemma SentWithEarlier(
    e: Entry, a: seq<Option<Session>>, b: seq<Option<Session>>, t: Time, forced: bool, apiVersion: nat,
    configured: string)
    requires Relogged(a, b, t, forced, apiVersion, configured) && t <= e.at
    requires e.attempt.slot < |b| && SentWith(e, b[e.attempt.slot], false, apiVersion, configured)
    ensures SentWith(e, a[e.attempt.slot], forced, apiVersion, configured)
  {
    if IsTime(e.at) {
      AllReadyEarlier(t, e.at);
    }
  }

  /** On v3 every send is for the selected account, whatever logins and refreshes happened. */
  lemma SentForSelected(e: Entry, before: Option<Session>, forced: bool, configured: string)
    requires SentWith(e, before, forced, 3, configured) && e.attempt.sends > 0
    ensures e.header == Some(e.selected) && e.Account() == e.selected
  {
  }

  /**
   * On v2 the account is the session's. For a client whose session was on the selected account the two
   * agree if and only if no login replaced that session or the selected account is the configured one.
   */
  lemma SentForSelectedIff(e: Entry, before: Option<Session>, forced: bool, apiVersion: nat, configured: string)
    requires SentWith(e, before, forced, apiVersion, configured) && e.attempt.sends > 0
    requires apiVersion != 3 && RealAccount(configured) && e.header.None?
    requires before.Some? ==> before.value.accountId == e.selected
    ensures e.Account() == e.selected <==> e.session == before || e.selected == configured
  {
  }

  /**
   * What a v2 caller can know beforehand: a session that is on the selected account and stays outside
   * its margin up to `h` is what everything is sent with until then, unless an attempt is refreshed.
   */
  lemma FreshSessionKeepsAccount(e: Entry, before: Option<Session>, apiVersion: nat, configured: string, h: Time)
    requires SentWith(e, before, false, apiVersion, configured) && e.attempt.sends > 0 && e.at <= h
    requires before.Some? && !before.value.InsideMargin(h)
    ensures e.session == before
    ensures !before.value.IsOauth() && before.value.accountId == e.selected ==> e.Account() == e.selected
  {
    AllReadyEarlier(e.at, h);
  }

  /**
   * A v2 client configured for A and switched to B whose session has gone, by logout or expiry: the
   * next send is for A, and the bucket of B pays.
   */
  lemma {:induction false} MispairedAfterLogin(e: Entry, forced: bool, buckets: map<string, nat>)
    requires SentWith(e, None, forced, 2, "A") && e.attempt.sends > 0 && e.header.None?
    requires e.selected == "B" && "A" in buckets && "B" in buckets && buckets["B"] == e.bucket != buckets["A"]
    ensures e.Account() == "A" && buckets[e.Account()] != e.bucket
  {
    assert RealAccount("A") by {
      assert |"A"| == 1 && |DEFAULT_ACCOUNT_ID| > 1;
    }
  }

  // ---- what the attempts of a request share --------------------------------------------------

  ghost predicate Extends(before: map<string, nat>, after: map<string, nat>) {
    forall a :: a in before ==> a in after && after[a] == before[a]
  }

  /** The account that is in force at attempt `k` when other callers switch as `switches` says. */
  function InForce(start: string, switches: nat -> Option<string>, k: nat): string {
    if switches(k).Some? then switches(k).value
    else if k == 0 then start
    else InForce(start, switches, k - 1)
  }

  ghost predicate AllSent(entries: seq<Entry>) {
    forall k :: 0 <= k < |entries| ==> entries[k].attempt.sends > 0
  }

  lemma AllSentNext(entries: seq<Entry>, e: Entry)
    ensures AllSent(entries) && e.attempt.sends > 0 ==> AllSent(entries + [e])
  {
  }

  /** An attempt so far led to a forced refresh. */
  ghost predicate Refreshed(entries: seq<Entry>) {
    exists k :: 0 <= k < |entries| && entries[k].attempt.refreshed
  }

  lemma RefreshedNext(entries: seq<Entry>, e: Entry)
    ensures Refreshed(entries + [e]) <==> Refreshed(entries) || e.attempt.refreshed
    ensures !Refreshed([])
  {
    var all := entries + [e];
    assert all[|entries|] == e && forall k :: 0 <= k < |entries| ==> all[k] == entries[k];
  }

  /** What every attempt was sent with, given the sessions when the request began. */
  ghost predicate AllSentWith(
    entries: seq<Entry>, sessions: seq<Option<Session>>, apiVersion: nat, configured: string)
  {
    forall k :: 0 <= k < |entries| ==>
      && entries[k].attempt.slot < |sessions|
      && SentWith(entries[k], sessions[entries[k].attempt.slot], Refreshed(entries[..k]), apiVersion, configured)
  }

  lemma AllSentWithNext(
    entries: seq<Entry>, e: Entry, sessions: seq<Option<Session>>, reached: seq<Option<Session>>, t: Time,
    apiVersion: nat, configured: string)
    requires AllSentWith(entries, sessions, apiVersion, configured)
    requires Relogged(sessions, reached, t, Refreshed(entries), apiVersion, configured)
    requires e.attempt.slot < |reached| && t <= e.at
    requires SentWith(e, reached[e.attempt.slot], false, apiVersion, configured)
    ensures AllSentWith(entries + [e], sessions, apiVersion, configured)
  {
    SentWithEarlier(e, sessions, reached, t, Refreshed(entries), apiVersion, configured);
    hide SentWith, Refreshed;
    var all := entries + [e];
    assert all[..|entries|] == entries;
    assert forall k :: 0 <= k < |entries| ==> all[k] == entries[k] && all[..k] == entries[..k];
  }

  /** The results of all attempts were known by `now`. */
  ghost predicate AllBy(entries: seq<Entry>, now: Time) {
    forall k :: 0 <= k < |entries| ==> entries[k].at <= now
  }

  lemma AllByLater(entries: seq<Entry>, t: Time, now: Time)
    requires AllBy(entries, t) && t <= now
    ensures AllBy(entries, now)
  {
  }

  lemma AllByNext(entries: seq<Entry>, e: Entry, now: Time)
    requires AllBy(entries, now) && e.at <= now
    ensures AllBy(entries + [e], now)
  {
  }

  // ---- why a request goes on, and why it ends --------------------------------------------------

  /** An attempt's result has its cause among the replies: its last one, or that of a login it needed. */
  ghost predicate Explained(script: seq<Reply>, e: Entry) {
    if e.attempt.sends == 0 then e.attempt.error.Some? && FailedBy(script, 0, e.pos, e.attempt.error.value)
    else
      && e.pos > 0
      && if e.attempt.error.None? then HasStatus(ReplyAt(script, e.pos - 1), 200, 299)
         else Reports(ReplyAt(script, e.pos - 1), Err(e.attempt.error.value))
  }

  predicate Rejected(e: Entry) {
    e.attempt.error == Some(Unauthorized) || e.attempt.error == Some(OAuthTokenExpired)
  }

  /** A first rejected session of a standard request was refreshed, or the refresh failed for a reason. */
  ghost predicate Answered401(script: seq<Reply>, policy: RequestPolicy, first: bool, e: Entry) {
    && (Rejected(e) && policy == Standard && first ==> e.attempt.refreshed || e.refresh.Some?)
    && (e.refresh.Some? ==>
          && !e.attempt.refreshed && policy == Standard && first && Rejected(e)
          && FailedBy(script, e.pos, e.until, e.refresh.value))
    && e.pos <= e.until
  }

  /** All attempts of a request have their causes, and each used later replies than the ones before it. */
  ghost predicate AllExplained(script: seq<Reply>, policy: RequestPolicy, entries: seq<Entry>, pos: nat) {
    && (forall k :: 0 <= k < |entries| ==>
          && Explained(script, entries[k]) && entries[k].until <= pos
          && Answered401(script, policy, !Refreshed(entries[..k]), entries[k]))
  }

  lemma AllExplainedNext(
    script: seq<Reply>, policy: RequestPolicy, entries: seq<Entry>, e: Entry, pos: nat, now: nat, first: bool)
    requires AllExplained(script, policy, entries, pos) && pos <= now
    requires Explained(script, e) && Answered401(script, policy, first, e) && e.until <= now
    requires first <==> !Refreshed(entries)
    ensures AllExplained(script, policy, entries + [e], now)
  {
    hide Explained, Answered401, Refreshed;
    var all := entries + [e];
    assert all[..|entries|] == entries;
    assert forall k :: 0 <= k < |entries| ==> all[k] == entries[k] && all[..k] == entries[..k];
  }

  lemma AllExplainedLater(script: seq<Reply>, policy: RequestPolicy, entries: seq<Entry>, pos: nat, now: nat)
    requires AllExplained(script, policy, entries, pos) && pos <= now
    ensures AllExplained(script, policy, entries, now)
  {
    hide Explained, Answered401, Refreshed;
  }

  /** Whether a request has been refreshed is what its state remembers. */
  lemma ReplayedIsRefreshed(p: Plan, home: nat, t: seq<Event>, entries: seq<Entry>, s: State)
    requires Books(p, home, t, entries, s, None) && !s.finished
    ensures s.replayed <==> Refreshed(entries)
    ensures !After(p, RunOf(entries)).finished
  {
    TriedIsUsed(p, RunOf(entries));
  }

  /**
   * What a caller is told when a request fails: the error of its last attempt, or of the refresh that
   * one called for; or, when the request was to go on, why no further attempt could be reserved, with
   * the cause among replies that no attempt used.
   */
  ghost predicate Justified(
    p: Plan, script: seq<Reply>, error: AppError, entries: seq<Entry>, starved: bool, since: nat, pos: nat)
  {
    if entries != [] && !GoesOn(p, RunOf(entries), |entries| - 1)
    then entries[|entries| - 1].Cause() == Some(error)
    else starved
         || ((entries != [] ==> entries[|entries| - 1].until <= since) && FailedBy(script, since, pos, error))
  }

  lemma JustifiedByAttempt(
    p: Plan, script: seq<Reply>, error: AppError, entries: seq<Entry>, e: Entry, starved: bool, since: nat, pos: nat)
    requires Run(p, RunOf(entries + [e])) && After(p, RunOf(entries + [e])).finished && e.Cause() == Some(error)
    ensures Justified(p, script, error, entries + [e], starved, since, pos)
  {
    OnlyTheseGoOn(p, RunOf(entries + [e]));
  }

  lemma JustifiedByReservation(
    p: Plan, script: seq<Reply>, policy: RequestPolicy, error: AppError, entries: seq<Entry>, starved: bool,
    since: nat, pos: nat)
    requires Run(p, RunOf(entries)) && !After(p, RunOf(entries)).finished
    requires starved || FailedBy(script, since, pos, error)
    requires AllExplained(script, policy, entries, since)
    ensures Justified(p, script, error, entries, starved, since, pos)
  {
    OnlyTheseGoOn(p, RunOf(entries));
  }

  /** Every attempt but the last was followed by another for one of the two reasons, with the sends it was due. */
  ghost predicate MovesOnlyFor(p: Plan, run: seq<Attempt>) {
    && (forall k :: 0 <= k < |run| - 1 ==> GoesOn(p, run, k))
    && (forall k :: 0 <= k < |run| && run[k].refreshed ==> Refreshes(p, run, k))
    && (forall k :: 0 <= k < |run| ==>
          && run[k].sends <= SendsDue(p, run, k)
          && (Throttled(run[k].error) && run[k].sends > 0 ==> run[k].sends == SendsDue(p, run, k)))
  }

  lemma EndingIsRun(p: Plan, run: seq<Attempt>, held: bool)
    requires Ending(p, run, held)
    ensures Run(p, run)
  {
  }

  lemma NothingExplained(script: seq<Reply>, policy: RequestPolicy, pos: nat)
    ensures AllExplained(script, policy, [], pos)
  {
  }

  lemma RunsMoveOnlyFor(p: Plan, run: seq<Attempt>)
    requires Run(p, run)
    ensures MovesOnlyFor(p, run)
  {
    OnlyTheseGoOn(p, run);
  }

  /** The last attempt brought an answer. */
  predicate Answered(entries: seq<Entry>) {
    entries != [] && entries[|entries| - 1].attempt.error.None?
  }
}
