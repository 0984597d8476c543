/**
 * A client that loses two cells of one request: the server issues tokens that are inside their
 * refresh margin from the start, and refuses every second login.
 */
module BriefTokens {
  import opened Auth
  import opened Endpoints
  import opened Errors
  import opened HttpClient
  import opened Ledger
  import opened PoolView
  import opened RateLimiter
  import opened RequestProtocol
  import opened Retry
  import opened SessionModel
  import opened Transport
  import opened Wrappers

  /** What the server answers from `pos` on: brief token, refusal, brief token, refusal. */
  predicate BriefThenRefused(script: seq<Reply>, pos: nat) {
    && ShortLived(ReplyAt(script, pos)) && ShortLived(ReplyAt(script, pos + 2))
    && Judge(ReplyAt(script, pos + 1)) == Fail(Unauthorized) && Judge(ReplyAt(script, pos + 3)) == Fail(Unauthorized)
  }

  /** What the first attempt on the only key of a pool leads to. */
  lemma OnlySlotReplays(p: Plan, a: Attempt)
    requires a.slot == 0
    ensures Next(p, START, a).replayOn.Some? ==>
              Next(p, START, a).replayOn == Some(0) && !Next(p, START, a).finished
    ensures p.policy == Standard && a.error == Some(Unauthorized) ==>
              Replays(p, START, a.error) && (a.refreshed ==> Next(p, START, a) == State([0], true, Some(0), false))
  {
  }

  /** The first turn of a request logs in for its cell, loses it to the refused login, and refreshes. */
  method FirstTurn(c: HttpClient, kind: RateLimitClass, ghost h: Time)
    returns (next: State, ghost e: Entry, ghost seg: seq<Event>, ghost waited: bool)
    requires c.Valid() && kind != Trading
    requires ColdStart(c.apiVersion, c.Sessions(), c.Deadlines(), ReplyAt(c.w.script, c.w.pos))
    requires BriefThenRefused(c.w.script, c.w.pos)
    modifies c`primary, c`cursor, c.w, c.w.watch, c.w.tries, c.pacer, c.Parts()
    ensures c.Valid() && c.w.trace == old(c.w.trace) + seg
    ensures !waited ==>
              && e.attempt.sends == 0 && Conserved(seg, kind, c.home, [e], None)
              && Legal(c.PlanFor(kind, Standard), START, e.attempt)
              && next == Next(c.PlanFor(kind, Standard), START, e.attempt) && next == State([0], true, Some(0), false)
              && c.w.pos == old(c.w.pos) + 3 && c.Refused(0)
    ensures next.replayOn.Some? ==> next.replayOn == Some(0) && !next.finished
  {
    hide Conserved, AllLater, Relogged, Judge, ReplyAt, ShortLived, Session.InsideMargin, Legal, Next, Replays;
    hide HttpClient.Valid;
    var slot;
    ghost var before, held, more := c.pacer.waits, None, [];
    slot, seg, held := c.ReserveNext(kind, START, h);
    waited := c.pacer.waits != before;
    next := START;
    if slot.Ok? && slot.value == Some(0) {
      var r;
      r, next, e, more := c.AttemptOn(0, kind, Standard, START, seg, h);
      OnlySlotReplays(c.PlanFor(kind, Standard), e.attempt);
      Append3(old(c.w.trace), seg, more);
      seg := seg + more;
    } else {
      assert waited;
      e := Entry(Attempt(0, 0, None, false), None, None, None, "", 0, 0, 0, None, 0);
    }
  }

  /** The replay pays for another cell, and loses it to the second refused login. */
  method SecondTurn(c: HttpClient, kind: RateLimitClass, s: State, ghost h: Time)
    returns (next: State, ghost e: Entry, ghost seg: seq<Event>)
    requires c.Valid() && s.replayOn == Some(0) && !s.finished
    modifies c`primary, c`cursor, c.w, c.w.watch, c.w.tries, c.pacer, c.Parts()
    ensures c.Valid() && c.w.trace == old(c.w.trace) + seg
    ensures Conserved(seg, kind, c.home, [e], None)
    ensures Legal(c.PlanFor(kind, Standard), s, e.attempt) && next == Next(c.PlanFor(kind, Standard), s, e.attempt)
    ensures old(c.Refused(0)) && Judge(ReplyAt(c.w.script, old(c.w.pos))) == Fail(Unauthorized) && s.replayed ==>
              e.attempt.sends == 0 && next.finished
  {
    hide Conserved, Legal, AllLater, Relogged, Judge, ReplyAt;
    var slot, r;
    ghost var held, more;
    slot, seg, held := c.ReserveNext(kind, s, h);
    AllReadyEarlier(old(c.w.now), c.w.now);
    assert old(c.Refused(0)) ==> c.Refused(0);
    r, next, e, more := c.AttemptOn(0, kind, Standard, s, seg, h);
    Append3(old(c.w.trace), seg, more);
    seg := seg + more;
  }

  /** Two turns of one request, entered in the books: unless its reservation had to wait, it loses two cells. */
  method LosesTwo(c: HttpClient, kind: RateLimitClass, ghost h: Time)
    returns (ghost entries: seq<Entry>, ghost seg: seq<Event>, ghost waited: bool)
    requires c.Valid() && kind != Trading
    requires ColdStart(c.apiVersion, c.Sessions(), c.Deadlines(), ReplyAt(c.w.script, c.w.pos))
    requires BriefThenRefused(c.w.script, c.w.pos)
    modifies c`primary, c`cursor, c.w, c.w.watch, c.w.tries, c.pacer, c.Parts()
    ensures c.Valid() && c.w.trace == old(c.w.trace) + seg
    ensures !waited ==>
              && Ending(c.PlanFor(kind, Standard), RunOf(entries), false)
              && After(c.PlanFor(kind, Standard), RunOf(entries)).finished
              && Conserved(seg, kind, c.home, entries, None)
              && LostCells(RunOf(entries), false) == 2 && BusinessSends(seg) == 0
  {
    hide HttpClient.Valid, HttpClient.Refused, Conserved, Books, Legal, Next, ColdStart, Judge, ReplyAt;
    ghost var p := c.PlanFor(kind, Standard);
    BooksOpen(p, c.home);
    var s;
    ghost var first;
    s, first, seg, waited := FirstTurn(c, kind, h);
    entries := [first];
    if s.replayOn.Some? {
      ghost var second, more;
      s, second, more := SecondTurn(c, kind, s, h);
      if !waited {
        TwoLost(p, c.home, seg, more, first, second);
      }
      Append3(old(c.w.trace), seg, more);
      seg, entries := seg + more, [first, second];
    }
  }

  lemma SendsAreBooked(t: seq<Event>, kind: RateLimitClass, home: nat, entries: seq<Entry>)
    requires Conserved(t, kind, home, entries, None)
    ensures BusinessSends(t) == TotalSends(RunOf(entries))
  {
  }

  lemma TwoLost(p: Plan, home: nat, t: seq<Event>, more: seq<Event>, first: Entry, second: Entry)
    requires Conserved(t, p.kind, home, [first], None) && Conserved(more, p.kind, home, [second], None)
    requires Legal(p, START, first.attempt)
    requires var s := Next(p, START, first.attempt);
             !s.finished && Legal(p, s, second.attempt) && Next(p, s, second.attempt).finished
    requires first.attempt.sends == 0 && second.attempt.sends == 0
    ensures Ending(p, RunOf([first, second]), false) && After(p, RunOf([first, second])).finished
    ensures Conserved(t + more, p.kind, home, [first, second], None)
    ensures LostCells(RunOf([first, second]), false) == 2 && BusinessSends(t + more) == 0
  {
    hide Conserved, Legal, Next, RunOf;
    ConservedNext(t, more, p.kind, home, [first], second);
    assert [first] + [second] == [first, second];
    assert RunOf([first, second]) == [first.attempt] + [second.attempt];
    SendsAreBooked(t + more, p.kind, home, [first, second]);
    RunOfTwo(p, first.attempt, second.attempt);
  }

  lemma RunOfTwo(p: Plan, a: Attempt, b: Attempt)
    requires Legal(p, START, a) && Legal(p, Next(p, START, a), b)
    ensures Run(p, [a] + [b]) && After(p, [a] + [b]) == Next(p, Next(p, START, a), b)
    ensures TotalSends([a] + [b]) == a.sends + b.sends
    ensures Unsent([a] + [b]) == (if a.sends == 0 then 1 else 0) + (if b.sends == 0 then 1 else 0)
  {
    hide Legal, Next;
    assert [] + [a] == [a];
    Snoc(p, [], a);
    Snoc(p, [a], b);
  }

  /** A token that lasts ten seconds is inside its margin of ten seconds when it is issued. */
  function Replies(account: string): seq<Reply> {
    var brief := Reply(200, "", None, None, Some(BodyV3(account, "token", Some(10))), 0);
    var refused := Reply(401, "", None, None, None, 0);
    [brief, refused, brief, refused]
  }

  lemma RepliesAreBrief(account: string)
    ensures BriefThenRefused(Replies(account), 0)
  {
  }

  /** A client fresh from its constructor, against a server that issues such tokens. */
  method FreshClient(account: string, rate: RateLimiterConfig, rivals: nat -> bool, ghost h: Time)
    returns (c: HttpClient, ghost entries: seq<Entry>, ghost seg: seq<Event>, ghost waited: bool, ghost p: Plan)
    ensures c.Valid() && |c.pool| == 1 && c.apiVersion == 3 && c.configured == account
    ensures c.w.script == Replies(account) && c.w.trace == seg && p == c.PlanFor(NonTrading, Standard)
    ensures !waited ==>
              && Ending(p, RunOf(entries), false) && After(p, RunOf(entries)).finished
              && Conserved(seg, NonTrading, c.home, entries, None)
              && LostCells(RunOf(entries), false) == 2 && BusinessSends(seg) == 0
  {
    hide BriefThenRefused, Replies, Conserved;
    RepliesAreBrief(account);
    var w := new World(Replies(account), RetryConfig(None, None), rate, rivals, 0);
    var registry := new AccountRegistry();
    c := new HttpClient.Lazy(w, registry, 1, Some(3), account);
    assert c.Sessions() == [None] && c.Deadlines() == [None];
    FirstIsBrief(w.script);
    entries, seg, waited := LosesTwo(c, NonTrading, h);
    p := c.PlanFor(NonTrading, Standard);
  }

  lemma FirstIsBrief(script: seq<Reply>)
    requires BriefThenRefused(script, 0)
    ensures ShortLived(ReplyAt(script, 0))
  {
  }
}
