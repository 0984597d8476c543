/** The books of one business request: what its attempts cost, cell by cell and send by send. */
module Ledger {
  import opened Auth
  import opened Errors
  import opened RateLimiter
  import opened RequestProtocol
  import opened Retry
  import opened SessionModel
  import opened Transport
  import opened Wrappers

  /**
   * An attempt as it went over the wire: the session and the account header it was sent with, what the
   * server kept for that key, the account that was selected, the account bucket that paid, and when, and
   * at which reply, its result was known. `refresh` is the error of the refresh it called for, and
   * `until` the number of replies used up when it was over.
   */
  datatype Entry = Entry(
    attempt: Attempt, session: Option<Session>, standing: Option<Standing>, header: Option<string>,
    selected: string, bucket: nat, at: nat, pos: nat, refresh: Option<AppError>, until: nat)
  {
    /** The account the server takes the sends to be for: the header's, or else the one it keeps for the key. */
    function Account(): string
      requires header.Some? || standing.Some?
    {
      if header.Some? then header.value else standing.value.account
    }

    /** What the caller is told when the request ends here. */
    function Cause(): Option<AppError> {
      if refresh.Some? then refresh else attempt.error
    }
  }

  function RunOf(entries: seq<Entry>): (run: seq<Attempt>)
    ensures |run| == |entries|
    ensures forall k :: 0 <= k < |run| ==> run[k] == entries[k].attempt
  {
    if entries == [] then [] else RunOf(entries[..|entries| - 1]) + [entries[|entries| - 1].attempt]
  }

  function SendsOn(entries: seq<Entry>, slot: nat): nat {
    if entries == [] then 0 else
      var last := entries[|entries| - 1];
      SendsOn(entries[..|entries| - 1], slot) + (if last.attempt.slot == slot then last.attempt.sends else 0)
  }

  /** Cells reserved on a slot by attempts that then could not fetch its session. */
  function UnsentOn(entries: seq<Entry>, slot: nat): nat {
    if entries == [] then 0 else
      var last := entries[|entries| - 1];
      UnsentOn(entries[..|entries| - 1], slot)
      + (if last.attempt.slot == slot && last.attempt.sends == 0 then 1 else 0)
  }

  /** Sends from a slot that an account bucket has to pay for. */
  function ChargedTo(entries: seq<Entry>, slot: nat, bucket: nat): nat {
    if entries == [] then 0 else
      var last := entries[|entries| - 1];
      ChargedTo(entries[..|entries| - 1], slot, bucket)
      + (if last.attempt.slot == slot && last.bucket == bucket then last.attempt.sends else 0)
  }

  /**
   * Token conservation. On every lane the key's cells are the sends made on it, business and
   * session, plus the reservations that came to nothing; every account cell belongs to one send,
   * and trading sends have none. `held` is a reserved cell whose send is still owed; `home` is the
   * account bucket the session calls charge.
   */
  ghost predicate Conserved(t: seq<Event>, kind: RateLimitClass, home: nat, entries: seq<Entry>, held: Option<nat>) {
    && BusinessSends(t) == TotalSends(RunOf(entries))
    && (forall lane: Lane ::
          Count(t, BusinessSend(lane)) == if lane.kind == kind then SendsOn(entries, lane.slot) else 0)
    && (forall lane: Lane :: Count(t, KeyCell(lane)) ==
          Count(t, BusinessSend(lane)) + SessionSends(t, lane)
          + (if lane.kind == kind then UnsentOn(entries, lane.slot) else 0)
          + (if lane.kind == kind && held == Some(lane.slot) then 1 else 0))
    && (forall bucket: nat, lane: Lane :: Count(t, AccountCell(bucket, lane)) ==
          (if lane.kind == kind && kind != Trading then ChargedTo(entries, lane.slot, bucket) else 0)
          + (if bucket == home then SessionSends(t, lane) else 0))
    && (forall lane: Lane :: lane.kind != NonTrading ==> SessionSends(t, lane) == 0)
  }

  /** The sends of one attempt: the first one has its key cell in advance. */
  ghost predicate Paid(t: seq<Event>, kind: RateLimitClass, slot: nat, bucket: nat, sends: nat) {
    if sends == 0 then t == [] else Costs(t, Call(slot, kind, Some(bucket), None), true, sends)
  }

  lemma NothingConserved(kind: RateLimitClass, home: nat)
    ensures Conserved([], kind, home, [], None)
  {
  }

  lemma ReservationConserved(kind: RateLimitClass, home: nat, slot: nat)
    ensures Conserved([KeyCell(Lane(slot, kind))], kind, home, [], Some(slot))
    ensures Count([KeyCell(Lane(slot, kind))], LoggedIn) == 0
  {
    var t := [KeyCell(Lane(slot, kind))];
    CountSingle(t[0]);
    assert BusinessSends(t) == 0 by { assert t[1..] == []; }
    assert RunOf([]) == [];
  }

  lemma SessionConserved(s: seq<Event>, kind: RateLimitClass, home: nat, slot: nat)
    requires SessionOnly(s, slot, Some(home))
    ensures Conserved(s, kind, home, [], None)
  {
  }

  /** Session traffic and reservations after some attempts leave the books balanced. */
  lemma ConservedThen(
    a: seq<Event>, b: seq<Event>, kind: RateLimitClass, home: nat, entries: seq<Entry>,
    heldA: Option<nat>, heldB: Option<nat>)
    requires Conserved(a, kind, home, entries, heldA) && Conserved(b, kind, home, [], heldB)
    requires heldA.None? || heldB.None?
    ensures Conserved(a + b, kind, home, entries, if heldA.None? then heldB else heldA)
    ensures Count(a + b, LoggedIn) == Count(a, LoggedIn) + Count(b, LoggedIn)
  {
    CountConcat(a, b);
    BusinessConcat(a, b);
  }

  /** An attempt takes over the cell reserved for it: it is spent on the first send, or left unsent. */
  lemma {:induction false} AttemptConserved(
    a: seq<Event>, s: seq<Event>, t: seq<Event>, kind: RateLimitClass, home: nat,
    entries: seq<Entry>, e: Entry)
    requires Conserved(a, kind, home, entries, Some(e.attempt.slot))
    requires SessionOnly(s, e.attempt.slot, Some(home)) && Paid(t, kind, e.attempt.slot, e.bucket, e.attempt.sends)
    ensures Conserved(a + s + t, kind, home, entries + [e], None)
  {
    SessionConserved(s, kind, home, e.attempt.slot);
    ConservedThen(a, s, kind, home, entries, Some(e.attempt.slot), None);
    AttemptSent(a + s, t, kind, home, entries, e);
  }

  lemma AttemptSent(
    a: seq<Event>, t: seq<Event>, kind: RateLimitClass, home: nat, entries: seq<Entry>, e: Entry)
    requires Conserved(a, kind, home, entries, Some(e.attempt.slot))
    requires Paid(t, kind, e.attempt.slot, e.bucket, e.attempt.sends)
    ensures Conserved(a + t, kind, home, entries + [e], None)
  {
    hide RunOf, TotalSends, SendsOn, UnsentOn, ChargedTo, Count, BusinessSends;
    EntriesGrow(entries, e);
    if e.attempt.sends == 0 {
      assert a + t == a;
    } else {
      CountConcat(a, t);
      BusinessConcat(a, t);
    }
  }

  lemma EntryAlone(e: Entry)
    ensures TotalSends(RunOf([e])) == e.attempt.sends
    ensures forall slot :: SendsOn([e], slot) == if e.attempt.slot == slot then e.attempt.sends else 0
    ensures forall slot :: UnsentOn([e], slot) == if e.attempt.slot == slot && e.attempt.sends == 0 then 1 else 0
    ensures forall slot, bucket ::
              ChargedTo([e], slot, bucket) ==
              if e.attempt.slot == slot && e.bucket == bucket then e.attempt.sends else 0
  {
    EntriesGrow([], e);
    assert [] + [e] == [e];
  }

  /** A whole attempt: its cell, the session it needed, its sends, and the refresh its result asked for. */
  lemma {:induction false} AttemptThen(
    reserved: seq<Event>, fetched: seq<Event>, sent: seq<Event>, refresh: seq<Event>, kind: RateLimitClass,
    home: nat, e: Entry)
    requires Conserved(reserved, kind, home, [], Some(e.attempt.slot))
    requires SessionOnly(fetched, e.attempt.slot, Some(home)) && SessionOnly(refresh, e.attempt.slot, Some(home))
    requires Paid(sent, kind, e.attempt.slot, e.bucket, e.attempt.sends)
    ensures Conserved(reserved + (fetched + sent + refresh), kind, home, [e], None)
  {
    hide Conserved, SessionOnly, Paid;
    AttemptConserved(reserved, fetched, sent, kind, home, [], e);
    SessionConserved(refresh, kind, home, e.attempt.slot);
    assert [] + [e] == [e];
    ConservedThen(reserved + fetched + sent, refresh, kind, home, [e], None, None);
    assert reserved + fetched + sent + refresh == reserved + (fetched + sent + refresh);
  }

  /** The books of one more attempt join those of the attempts before it. */
  lemma {:induction false} ConservedNext(
    a: seq<Event>, b: seq<Event>, kind: RateLimitClass, home: nat, entries: seq<Entry>, e: Entry)
    requires Conserved(a, kind, home, entries, None) && Conserved(b, kind, home, [e], None)
    ensures Conserved(a + b, kind, home, entries + [e], None)
  {
    EntriesGrow(entries, e);
    EntryAlone(e);
    CountConcat(a, b);
    BusinessConcat(a, b);
  }

  lemma EntriesGrow(entries: seq<Entry>, e: Entry)
    ensures RunOf(entries + [e]) == RunOf(entries) + [e.attempt]
    ensures TotalSends(RunOf(entries + [e])) == TotalSends(RunOf(entries)) + e.attempt.sends
    ensures forall slot :: SendsOn(entries + [e], slot) ==
                           SendsOn(entries, slot) + (if e.attempt.slot == slot then e.attempt.sends else 0)
    ensures forall slot :: UnsentOn(entries + [e], slot) ==
                           UnsentOn(entries, slot) + (if e.attempt.slot == slot && e.attempt.sends == 0 then 1 else 0)
    ensures forall slot, bucket ::
              ChargedTo(entries + [e], slot, bucket) == ChargedTo(entries, slot, bucket)
                + (if e.attempt.slot == slot && e.bucket == bucket then e.attempt.sends else 0)
  {
    var all := entries + [e];
    assert all[..|all| - 1] == entries;
    assert RunOf(all)[..|entries|] == RunOf(entries);
  }

  /** Where a request stands: its books balance, and until it ends its state is that of its run. */
  ghost predicate Books(p: Plan, home: nat, t: seq<Event>, entries: seq<Entry>, s: State, held: Option<nat>) {
    && Conserved(t, p.kind, home, entries, held) && Ending(p, RunOf(entries), held.Some?)
    && (!s.finished ==> s == After(p, RunOf(entries)) && held == None)
  }

  lemma BooksOpen(p: Plan, home: nat)
    ensures Books(p, home, [], [], START, None)
  {
    NothingConserved(p.kind, home);
  }

  /** A legal attempt extends the run, within its measure. */
  lemma {:induction false} BooksAttempt(
    p: Plan, home: nat, t: seq<Event>, more: seq<Event>, entries: seq<Entry>, s: State, e: Entry)
    requires Books(p, home, t, entries, s, None) && !s.finished
    requires Legal(p, s, e.attempt) && Conserved(more, p.kind, home, [e], None)
    ensures Books(p, home, t + more, entries + [e], Next(p, s, e.attempt), None)
    ensures 0 <= Measure(p, Next(p, s, e.attempt)) < Measure(p, s)
    ensures After(p, RunOf(entries + [e])) == Next(p, s, e.attempt)
  {
    hide Conserved, Legal, Next, Sane, Measure;
    ConservedNext(t, more, p.kind, home, entries, e);
    EntriesGrow(entries, e);
    RunIsSane(p, RunOf(entries));
    Snoc(p, RunOf(entries), e.attempt);
    StepUsesMeasure(p, s, e.attempt);
  }

  lemma BooksAreRun(p: Plan, home: nat, t: seq<Event>, entries: seq<Entry>, s: State)
    requires Books(p, home, t, entries, s, None)
    ensures Run(p, RunOf(entries))
  {
  }

  /** A request that ends without another attempt owes what its last reservation left it holding. */
  lemma BooksEnd(
    p: Plan, home: nat, t: seq<Event>, more: seq<Event>, entries: seq<Entry>, s: State, held: Option<nat>)
    requires Books(p, home, t, entries, s, None) && !s.finished
    requires Conserved(more, p.kind, home, [], held)
    ensures Books(p, home, t + more, entries, s.(finished := true), held)
  {
    hide Conserved;
    ConservedThen(t, more, p.kind, home, entries, None, held);
  }

  lemma PinnedInPool(p: Plan, home: nat, t: seq<Event>, entries: seq<Entry>, s: State)
    requires Books(p, home, t, entries, s, None) && !s.finished
    ensures s.replayOn.Some? ==> s.replayOn.value < p.pool
    ensures 0 <= Measure(p, s)
  {
    RunIsSane(p, RunOf(entries));
  }

  /** Unsent cells of a whole run, slot by slot. */
  lemma {:induction false} UnsentOnIsUnsent(entries: seq<Entry>, slot: nat)
    ensures UnsentOn(entries, slot) <= Unsent(RunOf(entries))
    ensures SendsOn(entries, slot) <= TotalSends(RunOf(entries))
  {
    if entries != [] {
      var k := |entries| - 1;
      UnsentOnIsUnsent(entries[..k], slot);
      assert RunOf(entries)[..k] == RunOf(entries[..k]);
    }
  }

  /** Sends of a slot are charged to one bucket each: to the right one when they all used it. */
  lemma {:induction false} ChargedToOne(entries: seq<Entry>, slot: nat, bucket: nat)
    ensures ChargedTo(entries, slot, bucket) <= SendsOn(entries, slot)
    ensures (forall k :: 0 <= k < |entries| ==> entries[k].bucket == bucket) ==>
              ChargedTo(entries, slot, bucket) == SendsOn(entries, slot)
  {
    if entries != [] {
      ChargedToOne(entries[..|entries| - 1], slot, bucket);
    }
  }

  /**
   * What a request may cost, whatever the network, the sessions and the pool do: a bounded number
   * of physical sends, and on every lane no cell beyond those sends but the unsent reservations.
   */
  lemma {:induction false} RequestAccounting(p: Plan, t: seq<Event>, home: nat, entries: seq<Entry>, held: Option<nat>)
    requires Run(p, RunOf(entries)) && Conserved(t, p.kind, home, entries, held)
    ensures BusinessSends(t) <= SendBound(p) && |entries| <= p.pool + 1
    ensures p.policy == SingleAttempt ==> BusinessSends(t) <= 1 && |entries| <= 1
    ensures p.policy == SingleAttempt ==> forall k :: 0 <= k < |entries| ==> !entries[k].attempt.refreshed
    ensures forall lane: Lane :: lane.kind == p.kind ==>
              Count(t, KeyCell(lane)) - Count(t, BusinessSend(lane)) - SessionSends(t, lane)
              <= Unsent(RunOf(entries)) + (if held == Some(lane.slot) then 1 else 0)
    ensures Disciplined(RunOf(entries))
    // one cell at most is lost by a single attempt, be it its own or its reservation's
    ensures p.policy == SingleAttempt && Ending(p, RunOf(entries), held.Some?) ==>
              LostCells(RunOf(entries), held.Some?) <= 1
  {
    hide RunOf, TotalSends, SendsOn, UnsentOn, Count, BusinessSends, Run, Ending, LostCells, Disciplined;
    if p.policy == SingleAttempt && Ending(p, RunOf(entries), held.Some?) {
      SingleAttemptLosesOne(p, RunOf(entries), held.Some?);
    }
    SendsAreBounded(p, RunOf(entries));
    RunIsShort(p, RunOf(entries));
    ReplayDiscipline(p, RunOf(entries));
    if p.policy == SingleAttempt {
      SingleAttemptSendsOnce(p, RunOf(entries));
    }
    forall lane: Lane | lane.kind == p.kind
      ensures UnsentOn(entries, lane.slot) <= Unsent(RunOf(entries))
    {
      UnsentOnIsUnsent(entries, lane.slot);
    }
  }

  lemma BooksClose(p: Plan, home: nat, t: seq<Event>, entries: seq<Entry>, s: State, held: Option<nat>)
    requires Books(p, home, t, entries, s, held) && p.pool > 0
    ensures Ending(p, RunOf(entries), held.Some?) && Conserved(t, p.kind, home, entries, held)
    ensures BusinessSends(t) <= SendBound(p) && |entries| <= p.pool + 1
    ensures p.policy == SingleAttempt ==> LostCells(RunOf(entries), held.Some?) <= 1
  {
    RequestAccounting(p, t, home, entries, held);
  }

  /** While a request goes on, one more turn is within its bound. */
  lemma BooksFew(p: Plan, home: nat, t: seq<Event>, entries: seq<Entry>, s: State)
    requires Books(p, home, t, entries, s, None) && p.pool > 0
    ensures !s.finished ==> |entries| <= p.pool
  {
    TurnsAreFew(p, RunOf(entries));
  }

  /** When every session fetch succeeds no cell is lost, but for one reservation that ends the request. */
  lemma {:induction false} NothingUnsent(entries: seq<Entry>)
    requires forall k :: 0 <= k < |entries| ==> entries[k].attempt.sends > 0
    ensures Unsent(RunOf(entries)) == 0
  {
    if entries != [] {
      var k := |entries| - 1;
      NothingUnsent(entries[..k]);
      assert RunOf(entries)[..k] == RunOf(entries[..k]);
    }
  }
}
