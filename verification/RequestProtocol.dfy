/**
 * The life of one business request as a state machine: which key slot the next attempt may enter,
 * how often it may send, and what its result leads to. Nothing here depends on the network, the
 * sessions or the pacing, so what is proved here holds for all of them.
 */
module RequestProtocol {
  import opened Errors
  import opened RateLimiter
  import opened Retry
  import opened Wrappers

  /** What is fixed for one request: the pool size, the retry count, its policy and its class. */
  datatype Plan = Plan(pool: nat, retries: nat, policy: RequestPolicy, kind: RateLimitClass) {
    predicate MayRotate() {
      policy == Standard && kind == NonTrading && pool > 1
    }
  }

  /** One attempt on a slot: no send at all when its session could not be fetched. */
  datatype Attempt = Attempt(slot: nat, sends: nat, error: Option<AppError>, refreshed: bool)

  /** Between attempts: the slots entered so far, in order, and the slot a replay is pinned to. */
  datatype State = State(tried: seq<nat>, replayed: bool, replayOn: Option<nat>, finished: bool)

  const START := State([], false, None, false)

  predicate AuthRejected(e: Option<AppError>) {
    e == Some(OAuthTokenExpired) || e == Some(Unauthorized)
  }

  function Entered(s: State, slot: nat): seq<nat> {
    if slot in s.tried then s.tried else s.tried + [slot]
  }

  /** Whether another key is left to try once `slot` has been entered. */
  predicate Rotates(p: Plan, s: State, slot: nat) {
    p.MayRotate() && |Entered(s, slot)| < p.pool
  }

  /** Retries the attempt on `slot` may make: none when another key or a single attempt rules them out. */
  function RetryBudget(p: Plan, s: State, slot: nat): nat {
    if Rotates(p, s, slot) || p.policy == SingleAttempt then 0 else p.retries
  }

  predicate Replays(p: Plan, s: State, e: Option<AppError>) {
    AuthRejected(e) && p.policy == Standard && !s.replayed
  }

  /** An attempt the machine can make from a state. */
  predicate Legal(p: Plan, s: State, a: Attempt) {
    && !s.finished
    && a.slot < p.pool
    && (if s.replayOn.Some? then a.slot == s.replayOn.value else a.slot !in s.tried)
    && a.sends <= RetryBudget(p, s, a.slot) + 1
    && (a.refreshed ==> Replays(p, s, a.error))
    && (a.error == None ==> a.sends > 0)
    && (Throttled(a.error) && a.sends > 0 ==> a.sends == RetryBudget(p, s, a.slot) + 1)
  }

  /** What a caller is told when the last reply was throttling or a server error. */
  predicate Throttled(e: Option<AppError>) {
    e == Some(RateLimitExceeded) || (e.Some? && e.value.Unexpected? && 500 <= e.value.status <= 599)
  }

  function Next(p: Plan, s: State, a: Attempt): State {
    var tried := Entered(s, a.slot);
    if a.error == Some(ApiKeyAllowanceExceeded) && Rotates(p, s, a.slot) then State(tried, s.replayed, None, false)
    else if Replays(p, s, a.error) && a.refreshed then State(tried, true, Some(a.slot), false)
    else State(tried, s.replayed, None, true)
  }

  /** The state after a whole run. */
  function After(p: Plan, run: seq<Attempt>): State {
    if run == [] then START else Next(p, After(p, run[..|run| - 1]), run[|run| - 1])
  }

  /** The runs of the machine. */
  predicate Run(p: Plan, run: seq<Attempt>) {
    run != [] ==>
      && Run(p, run[..|run| - 1])
      && Legal(p, After(p, run[..|run| - 1]), run[|run| - 1])
  }

  function TotalSends(run: seq<Attempt>): nat {
    if run == [] then 0 else TotalSends(run[..|run| - 1]) + run[|run| - 1].sends
  }

  lemma {:induction false} RunPrefix(p: Plan, run: seq<Attempt>, k: nat)
    requires Run(p, run) && k <= |run|
    ensures Run(p, run[..k])
    decreases |run|
  {
    if k == |run| {
      assert run[..k] == run;
    } else {
      RunPrefix(p, run[..|run| - 1], k);
      assert run[..|run| - 1][..k] == run[..k];
    }
  }

  // ---- what every run keeps ----------------------------------------------------------------

  predicate Distinct(s: seq<nat>) {
    forall i, j :: 0 <= i < j < |s| ==> s[i] != s[j]
  }

  predicate Sane(p: Plan, s: State) {
    && Distinct(s.tried)
    && (forall i :: 0 <= i < |s.tried| ==> s.tried[i] < p.pool)
    && |s.tried| <= p.pool
    && (s.replayOn.Some? ==> s.replayed && !s.finished && s.tried != [] && s.replayOn.value == s.tried[|s.tried| - 1])
    && (s.replayed ==> p.policy == Standard)
    && (!s.finished && s.replayOn.None? && s.tried != [] ==> p.MayRotate() && |s.tried| < p.pool)
  }

  function Below(bound: nat): (b: set<nat>)
    ensures |b| == bound && forall n: nat :: n in b <==> n < bound
  {
    if bound == 0 then {} else Below(bound - 1) + {bound - 1}
  }

  function Members(s: seq<nat>): (m: set<nat>)
    ensures forall n :: n in m <==> n in s
    ensures Distinct(s) ==> |m| == |s|
  {
    if s == [] then {} else
      var k := |s| - 1;
      assert s == s[..k] + [s[k]];
      Members(s[..k]) + {s[k]}
  }

  lemma SubsetSize(a: set<nat>, b: set<nat>)
    requires a <= b
    ensures |a| <= |b|
  {
    assert b == a + (b - a);
  }

  lemma DistinctFits(s: seq<nat>, bound: nat)
    requires Distinct(s) && forall i :: 0 <= i < |s| ==> s[i] < bound
    ensures |s| <= bound
  {
    assert Members(s) <= Below(bound);
    SubsetSize(Members(s), Below(bound));
  }

  lemma StepKeepsSane(p: Plan, s: State, a: Attempt)
    requires Sane(p, s) && Legal(p, s, a)
    ensures Sane(p, Next(p, s, a))
    ensures s.replayOn.Some? ==> Entered(s, a.slot) == s.tried
    ensures s.replayOn.None? ==> Entered(s, a.slot) == s.tried + [a.slot]
  {
    DistinctFits(Entered(s, a.slot), p.pool);
  }

  lemma {:induction false} RunIsSane(p: Plan, run: seq<Attempt>)
    requires Run(p, run)
    ensures Sane(p, After(p, run))
  {
    if run != [] {
      RunIsSane(p, run[..|run| - 1]);
      StepKeepsSane(p, After(p, run[..|run| - 1]), run[|run| - 1]);
    }
  }

  /** Untried slots, the replay still allowed, and a replay owed: each attempt uses one of them up. */
  function Measure(p: Plan, s: State): int {
    (p.pool - |s.tried|) + (if s.replayed then 0 else 1) + (if s.replayOn.Some? then 1 else 0)
  }

  lemma StepUsesMeasure(p: Plan, s: State, a: Attempt)
    requires Sane(p, s) && Legal(p, s, a)
    ensures 0 <= Measure(p, Next(p, s, a)) < Measure(p, s)
  {
    StepKeepsSane(p, s, a);
  }

  /** The loop runs at most once per slot, and once more for the replay. */
  lemma {:induction false} RunIsShort(p: Plan, run: seq<Attempt>)
    requires Run(p, run)
    ensures |run| + Measure(p, After(p, run)) <= p.pool + 1
    ensures |run| <= p.pool + 1
  {
    RunIsSane(p, run);
    if run != [] {
      var before := run[..|run| - 1];
      RunIsShort(p, before);
      RunIsSane(p, before);
      StepUsesMeasure(p, After(p, before), run[|run| - 1]);
    }
  }

  /** While a request goes on there is somewhere to go: a pinned slot, or one not yet tried. */
  lemma {:induction false} NeverOutOfSlots(p: Plan, run: seq<Attempt>)
    requires Run(p, run) && !After(p, run).finished && p.pool > 0
    ensures var s := After(p, run); s.replayOn.Some? || exists slot :: 0 <= slot < p.pool && slot !in s.tried
  {
    RunIsSane(p, run);
    var tried := After(p, run).tried;
    if |tried| < p.pool {
      if Below(p.pool) <= Members(tried) {
        SubsetSize(Below(p.pool), Members(tried));
        assert false;
      }
      var slot :| slot in Below(p.pool) && slot !in Members(tried);
    }
  }

  // ---- the send bound ----------------------------------------------------------------------

  function SendBound(p: Plan): nat {
    if p.policy == SingleAttempt then 1
    else if p.MayRotate() then p.pool - 1 + 2 * (p.retries + 1)
    else 2 * (p.retries + 1)
  }

  /** Sends of a run of a standard request, given what it has used up so far. */
  function Allowance(p: Plan, s: State): int {
    var last := p.retries + 1;
    var doubled := if s.replayed && s.replayOn.None? then last else 0;
    if !p.MayRotate() then (if s.tried == [] then 0 else last) + doubled
    else if |s.tried| < p.pool then |s.tried| + (if s.replayed && s.replayOn.None? then 1 else 0)
    else p.pool - 1 + last + doubled
  }

  lemma {:induction false} SendsWithinAllowance(p: Plan, run: seq<Attempt>)
    requires Run(p, run) && p.policy == Standard
    ensures TotalSends(run) <= Allowance(p, After(p, run))
  {
    if run != [] {
      var before := run[..|run| - 1];
      SendsWithinAllowance(p, before);
      RunIsSane(p, before);
      StepKeepsSane(p, After(p, before), run[|run| - 1]);
    }
  }

  /** At most one physical send under a single-attempt policy, and no refresh and no second attempt. */
  lemma {:induction false} SingleAttemptSendsOnce(p: Plan, run: seq<Attempt>)
    requires Run(p, run) && p.policy == SingleAttempt
    ensures |run| <= 1 && TotalSends(run) <= 1
    ensures forall k :: 0 <= k < |run| ==> !run[k].refreshed && After(p, run).finished
  {
    if run != [] {
      SingleAttemptSendsOnce(p, run[..|run| - 1]);
      assert run[..|run| - 1] == [];
    }
  }

  /** The bound on physical sends, for every pool, every retry count and every outcome. */
  lemma {:induction false} SendsAreBounded(p: Plan, run: seq<Attempt>)
    requires Run(p, run)
    ensures TotalSends(run) <= SendBound(p)
  {
    if p.policy == SingleAttempt {
      SingleAttemptSendsOnce(p, run);
    } else {
      SendsWithinAllowance(p, run);
      RunIsSane(p, run);
    }
  }

  // ---- the bound is attained ---------------------------------------------------------------

  /** Every key but the last refuses at once; the last one is tried to exhaustion, refreshed and tried again. */
  function Refusals(n: nat): (run: seq<Attempt>)
    ensures |run| == n && forall k :: 0 <= k < n ==> run[k] == Attempt(k, 1, Some(ApiKeyAllowanceExceeded), false)
  {
    if n == 0 then [] else Refusals(n - 1) + [Attempt(n - 1, 1, Some(ApiKeyAllowanceExceeded), false)]
  }

  function FirstSlots(n: nat): (slots: seq<nat>)
    ensures |slots| == n && forall k :: 0 <= k < n ==> slots[k] == k
  {
    if n == 0 then [] else FirstSlots(n - 1) + [n - 1]
  }

  lemma {:induction false} RefusalsRun(p: Plan, n: nat)
    requires n < p.pool && (n > 0 ==> p.MayRotate())
    ensures Run(p, Refusals(n)) && TotalSends(Refusals(n)) == n
    ensures After(p, Refusals(n)) == State(FirstSlots(n), false, None, false)
  {
    if n > 0 {
      RefusalsRun(p, n - 1);
      RefusedOnce(p, n - 1, After(p, Refusals(n - 1)));
      Snoc(p, Refusals(n - 1), Attempt(n - 1, 1, Some(ApiKeyAllowanceExceeded), false));
    }
  }

  lemma RefusedOnce(p: Plan, n: nat, s: State)
    requires n + 1 < p.pool && p.MayRotate() && s == State(FirstSlots(n), false, None, false)
    ensures var a := Attempt(n, 1, Some(ApiKeyAllowanceExceeded), false);
            Legal(p, s, a) && Next(p, s, a) == State(FirstSlots(n + 1), false, None, false)
  {
    assert n !in s.tried;
  }

  lemma SendBoundAttained(p: Plan)
    requires p.policy == Standard && p.pool > 0
    ensures exists run :: Run(p, run) && TotalSends(run) == SendBound(p)
  {
    hide Run, After, TotalSends;
    var n := if p.MayRotate() then p.pool - 1 else 0;
    var refused := Refusals(n);
    RefusalsRun(p, n);
    var s := After(p, refused);
    assert s == State(FirstSlots(n), false, None, false) && n !in s.tried;
    var first := Attempt(n, p.retries + 1, Some(Unauthorized), true);
    var second := Attempt(n, p.retries + 1, Some(Unauthorized), false);
    var run := refused + [first];
    assert RetryBudget(p, s, n) == p.retries;
    Snoc(p, refused, first);
    assert After(p, run) == State(FirstSlots(n) + [n], true, Some(n), false);
    Snoc(p, run, second);
  }

  lemma Snoc(p: Plan, run: seq<Attempt>, a: Attempt)
    requires Run(p, run) && Legal(p, After(p, run), a)
    ensures Run(p, run + [a]) && After(p, run + [a]) == Next(p, After(p, run), a)
    ensures TotalSends(run + [a]) == TotalSends(run) + a.sends
    ensures Unsent(run + [a]) == Unsent(run) + (if a.sends == 0 then 1 else 0)
  {
    assert (run + [a])[..|run|] == run;
  }

  // ---- attempts that never send ------------------------------------------------------------

  /** Attempts that left the cell reserved for them unsent. */
  function Unsent(run: seq<Attempt>): nat {
    if run == [] then 0 else Unsent(run[..|run| - 1]) + (if run[|run| - 1].sends == 0 then 1 else 0)
  }

  lemma {:induction false} UnsentAtMostAttempts(p: Plan, run: seq<Attempt>)
    requires Run(p, run)
    ensures Unsent(run) <= |run| <= p.pool + 1
  {
    RunIsShort(p, run);
    if run != [] {
      UnsentAtMostAttempts(p, run[..|run| - 1]);
    }
  }

  /** Cells a request loses: one per attempt that never sends, and one of a reservation that ended it. */
  function LostCells(run: seq<Attempt>, held: bool): nat {
    Unsent(run) + (if held then 1 else 0)
  }

  /** A reservation can only be left held while the request goes on: it takes the place of an attempt. */
  predicate Ending(p: Plan, run: seq<Attempt>, held: bool) {
    Run(p, run) && (held ==> !After(p, run).finished)
  }

  /** No request loses more cells than it has turns. */
  lemma LostAtMostTurns(p: Plan, run: seq<Attempt>, held: bool)
    requires Ending(p, run, held) && p.pool > 0
    ensures LostCells(run, held) <= |run| + (if held then 1 else 0) <= p.pool + 1
  {
    UnsentAtMostAttempts(p, run);
    TurnsAreFew(p, run);
  }

  /** While a request goes on one more turn is still within the bound. */
  lemma TurnsAreFew(p: Plan, run: seq<Attempt>)
    requires Run(p, run) && p.pool > 0
    ensures |run| <= p.pool + 1
    ensures !After(p, run).finished ==> |run| <= p.pool
  {
    RunIsShort(p, run);
    RunIsSane(p, run);
  }

  /** A single-attempt request loses one cell at most, be it of its attempt or of its reservation. */
  lemma SingleAttemptLosesOne(p: Plan, run: seq<Attempt>, held: bool)
    requires Ending(p, run, held) && p.policy == SingleAttempt
    ensures LostCells(run, held) <= 1
  {
    SingleAttemptSendsOnce(p, run);
    if run != [] {
      assert run[..|run| - 1] == [];
      assert !run[0].refreshed;
      assert After(p, run).finished;
      assert Unsent(run) <= 1;
    }
  }

  /**
   * All runs of the machine lose at most one cell exactly under a single-attempt policy. Two attempts
   * whose sessions cannot be fetched are enough otherwise.
   */
  lemma LostAtMostOneIff(p: Plan)
    requires p.pool > 0
    ensures (forall run, held :: Ending(p, run, held) ==> LostCells(run, held) <= 1) <==> p.policy == SingleAttempt
  {
    if p.policy == SingleAttempt {
      forall run, held | Ending(p, run, held)
        ensures LostCells(run, held) <= 1
      {
        SingleAttemptLosesOne(p, run, held);
      }
    } else {
      UnsentTwice(p);
      var run :| Run(p, run) && Unsent(run) == 2;
      assert Ending(p, run, false) && LostCells(run, false) == 2;
    }
  }

  lemma UnsentTwice(p: Plan)
    requires p.pool > 0 && p.policy == Standard
    ensures exists run :: Run(p, run) && Unsent(run) == 2
  {
    var first := Attempt(0, 0, Some(Unauthorized), true);
    var second := Attempt(0, 0, Some(Unauthorized), false);
    var one := [] + [first];
    Snoc(p, [], first);
    assert After(p, one) == State([0], true, Some(0), false);
    Snoc(p, one, second);
  }

  // ---- which results lead to another attempt -------------------------------------------------

  /** A slot was entered by one of the attempts up to number `k`. */
  predicate Used(run: seq<Attempt>, k: nat, slot: nat) {
    exists j :: 0 <= j <= k && j < |run| && run[j].slot == slot
  }

  /** A key that none of the attempts up to number `k` has entered. */
  predicate KeyLeft(p: Plan, run: seq<Attempt>, k: nat) {
    exists slot :: 0 <= slot < p.pool && !Used(run, k, slot)
  }

  /** Non-trading standard traffic whose key refused its allowance, with another key left. */
  predicate LeavesKey(p: Plan, run: seq<Attempt>, k: nat) {
    && k < |run| && run[k].error == Some(ApiKeyAllowanceExceeded)
    && p.policy == Standard && p.kind == NonTrading && KeyLeft(p, run, k)
  }

  /** A standard request whose session was rejected, and refreshed, for the first time. */
  predicate Refreshes(p: Plan, run: seq<Attempt>, k: nat) {
    && k < |run| && run[k].refreshed && p.policy == Standard
    && (run[k].error == Some(Unauthorized) || run[k].error == Some(OAuthTokenExpired))
    && forall j :: 0 <= j < k ==> !run[j].refreshed
  }

  /** The request goes on after its attempt number `k`. */
  predicate GoesOn(p: Plan, run: seq<Attempt>, k: nat) {
    LeavesKey(p, run, k) || Refreshes(p, run, k)
  }

  /** The sends an attempt may make: one, and the configured retries where no other key can stand in. */
  function SendsDue(p: Plan, run: seq<Attempt>, k: nat): nat {
    if p.policy == SingleAttempt || (p.kind == NonTrading && KeyLeft(p, run, k)) then 1 else 1 + p.retries
  }

  /** What the slots of a state are: those its run has entered. */
  lemma {:induction false} TriedIsUsed(p: Plan, run: seq<Attempt>)
    requires Run(p, run)
    ensures forall slot :: slot in After(p, run).tried <==> Used(run, |run|, slot)
    ensures After(p, run).replayed <==> exists j :: 0 <= j < |run| && run[j].refreshed
  {
    if run != [] {
      var n := |run| - 1;
      var before := run[..n];
      TriedIsUsed(p, before);
      RunIsSane(p, before);
      assert run == before + [run[n]];
      forall slot
        ensures slot in After(p, run).tried <==> Used(run, |run|, slot)
      {
        if Used(before, n, slot) {
          var j :| 0 <= j < n && before[j].slot == slot;
          assert run[j].slot == slot;
        }
        if Used(run, |run|, slot) {
          var j :| 0 <= j < |run| && run[j].slot == slot;
          assert j < n ==> before[j].slot == slot;
        }
      }
      assert forall j :: 0 <= j < n ==> before[j] == run[j];
    }
  }

  /** A pool has a slot left exactly when fewer are entered than it has. */
  lemma SlotLeftIff(tried: seq<nat>, pool: nat)
    requires Distinct(tried) && forall i :: 0 <= i < |tried| ==> tried[i] < pool
    ensures |tried| < pool <==> exists slot :: 0 <= slot < pool && slot !in tried
  {
    DistinctFits(tried, pool);
    if |tried| < pool {
      if Below(pool) <= Members(tried) {
        SubsetSize(Below(pool), Members(tried));
        assert false;
      }
      var slot :| slot in Below(pool) && slot !in Members(tried);
    } else if exists slot :: 0 <= slot < pool && slot !in tried {
      var slot :| 0 <= slot < pool && slot !in tried;
      DistinctFits(tried + [slot], pool);
    }
  }

  lemma RotatesIff(p: Plan, run: seq<Attempt>, a: Attempt)
    requires Run(p, run) && Legal(p, After(p, run), a)
    ensures Rotates(p, After(p, run), a.slot) <==>
              p.policy == Standard && p.kind == NonTrading && KeyLeft(p, run + [a], |run|)
  {
    var s, all := After(p, run), run + [a];
    RunIsSane(p, run);
    StepKeepsSane(p, s, a);
    TriedIsUsed(p, run);
    var entered := Entered(s, a.slot);
    SlotLeftIff(entered, p.pool);
    forall slot
      ensures slot in entered <==> Used(all, |run|, slot)
    {
      if Used(run, |run|, slot) {
        var j :| 0 <= j < |run| && run[j].slot == slot;
        assert all[j].slot == slot;
      }
      assert all[|run|].slot == a.slot;
      if Used(all, |run|, slot) {
        var j :| 0 <= j < |all| && all[j].slot == slot;
        assert j < |run| ==> run[j].slot == slot;
      }
    }
    if KeyLeft(p, all, |run|) {
      var slot :| 0 <= slot < p.pool && !Used(all, |run|, slot);
      assert slot !in entered && a.slot in entered;
    }
  }

  /**
   * Exactly two results lead to another attempt: a refused allowance of non-trading standard traffic
   * with a key left to enter, and the first rejected session once it was refreshed. Everything else,
   * be it a reply or a lost connection, ends the request.
   */
  lemma {:induction false} OnlyTheseGoOn(p: Plan, run: seq<Attempt>)
    requires Run(p, run)
    ensures forall k :: 0 <= k < |run| - 1 ==> GoesOn(p, run, k)
    ensures run != [] ==> (!After(p, run).finished <==> GoesOn(p, run, |run| - 1))
    ensures forall k :: 0 <= k < |run| && run[k].refreshed ==> Refreshes(p, run, k)
    ensures forall k :: 0 <= k < |run| ==>
              && run[k].sends <= SendsDue(p, run, k)
              && (Throttled(run[k].error) && run[k].sends > 0 ==> run[k].sends == SendsDue(p, run, k))
  {
    if run != [] {
      var n := |run| - 1;
      var before, a := run[..n], run[n];
      assert run == before + [a];
      OnlyTheseGoOn(p, before);
      RunIsSane(p, before);
      RotatesIff(p, before, a);
      TriedIsUsed(p, before);
      forall k | 0 <= k < n
        ensures GoesOn(p, before, k) <==> GoesOn(p, run, k)
        ensures SendsDue(p, before, k) == SendsDue(p, run, k)
      {
        SameUpTo(p, before, a, k);
      }
      LastGoesOn(p, before, a);
    }
  }

  lemma SameUpTo(p: Plan, before: seq<Attempt>, a: Attempt, k: nat)
    requires k < |before|
    ensures KeyLeft(p, before, k) <==> KeyLeft(p, before + [a], k)
    ensures GoesOn(p, before, k) <==> GoesOn(p, before + [a], k)
    ensures Refreshes(p, before, k) <==> Refreshes(p, before + [a], k)
    ensures SendsDue(p, before, k) == SendsDue(p, before + [a], k)
  {
    var run := before + [a];
    assert forall j :: 0 <= j < |before| ==> run[j] == before[j];
    forall slot
      ensures Used(before, k, slot) <==> Used(run, k, slot)
    {
      if Used(before, k, slot) {
        var j :| 0 <= j <= k && before[j].slot == slot;
        assert run[j].slot == slot;
      }
      if Used(run, k, slot) {
        var j :| 0 <= j <= k && run[j].slot == slot;
        assert before[j].slot == slot;
      }
    }
  }

  lemma LastGoesOn(p: Plan, before: seq<Attempt>, a: Attempt)
    requires Run(p, before) && Legal(p, After(p, before), a)
    ensures var s := After(p, before);
            !Next(p, s, a).finished <==> GoesOn(p, before + [a], |before|)
    ensures a.refreshed ==> Refreshes(p, before + [a], |before|)
    ensures RetryBudget(p, After(p, before), a.slot) + 1 == SendsDue(p, before + [a], |before|)
  {
    RotatesIff(p, before, a);
    TriedIsUsed(p, before);
    assert forall j :: 0 <= j < |before| ==> (before + [a])[j] == before[j];
  }

  // ---- rotation and replay discipline ------------------------------------------------------

  /** A slot is entered twice only by the replay, directly after the one forced refresh, made on it. */
  predicate Disciplined(run: seq<Attempt>) {
    && (forall i, j :: 0 <= i < j < |run| && run[i].slot == run[j].slot ==> j == i + 1 && run[i].refreshed)
    && (forall i, j :: 0 <= i < j < |run| && run[i].refreshed ==> !run[j].refreshed)
    && (forall j :: 0 < j < |run| && run[j - 1].refreshed ==> run[j].slot == run[j - 1].slot)
  }

  /** What the state remembers of the run. */
  predicate Remembers(s: State, run: seq<Attempt>) {
    && (forall i :: 0 <= i < |run| ==> run[i].slot in s.tried)
    && (forall i :: 0 <= i < |run| && run[i].refreshed ==> s.replayed)
    && (s.replayOn.Some? <==> run != [] && run[|run| - 1].refreshed)
    && (s.replayOn.Some? ==> s.replayOn.value == run[|run| - 1].slot)
    && (s.replayOn.Some? ==> forall i :: 0 <= i < |run| - 1 ==> run[i].slot != s.replayOn.value)
  }

  lemma {:induction false} ReplayDiscipline(p: Plan, run: seq<Attempt>)
    requires Run(p, run)
    ensures Disciplined(run) && Remembers(After(p, run), run)
  {
    if run != [] {
      var k := |run| - 1;
      ReplayDiscipline(p, run[..k]);
      RunIsSane(p, run[..k]);
      assert run == run[..k] + [run[k]];
      DisciplineStep(p, After(p, run[..k]), run[..k], run[k]);
    }
  }

  lemma {:induction false} DisciplineStep(p: Plan, s: State, before: seq<Attempt>, a: Attempt)
    requires Sane(p, s) && Legal(p, s, a)
    requires Disciplined(before) && Remembers(s, before)
    ensures Disciplined(before + [a]) && Remembers(Next(p, s, a), before + [a])
  {
    var run := before + [a];
    forall i | 0 <= i < |before| && before[i].slot == a.slot
      ensures i == |before| - 1 && before[i].refreshed
    {
      assert s.replayOn.Some?;
    }
    assert forall i :: 0 <= i < |before| ==> run[i] == before[i];
  }
}
