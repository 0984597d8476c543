/**
 * The pool of API keys serving one business request: which key is reserved, how a refused key is
 * left and a rejected session replaced, and which account every send is made for.
 */
module HttpClient {
  import opened Auth
  import opened CandidateOrder
  import opened Endpoints
  import opened Errors
  import opened Ledger
  import opened Machine
  import opened PoolView
  import opened RateLimiter
  import opened RequestProtocol
  import opened Retry
  import opened SessionModel
  import opened Transport
  import opened Wrappers

  /** One API key of the pool. */
  class KeySlot {
    const auth: Auth
    var cooldownUntil: Option<nat>

    predicate InCooldown(now: int)
      reads this
    {
      cooldownUntil.Some? && now < cooldownUntil.value
    }

    constructor (auth: Auth)
      ensures this.auth == auth && cooldownUntil == None
    {
      this.auth := auth;
      cooldownUntil := None;
    }

    method MarkExhausted(now: nat)
      modifies this
      ensures cooldownUntil == Some(now + KEY_COOLDOWN)
    {
      cooldownUntil := Some(now + KEY_COOLDOWN);
    }
  }

  /** The process-wide table of account buckets: one bucket per account, whoever asks for it. */
  class AccountRegistry {
    var buckets: map<string, nat>
    /** What each bucket admits, by its number. */
    var quotas: seq<Quota>

    ghost predicate Valid()
      reads this
    {
      && (forall a :: a in buckets ==> buckets[a] < |quotas|)
      && (forall a, b :: a in buckets && b in buckets && buckets[a] == buckets[b] ==> a == b)
      && (forall i :: 0 <= i < |quotas| ==> quotas[i] == ConfiguredQuota(ACCOUNT_CONFIG))
    }

    constructor ()
      ensures Valid() && buckets == map[]
    {
      buckets := map[];
      quotas := [];
    }

    method BuildAccountLimiter(account: string) returns (bucket: nat)
      requires Valid()
      modifies this
      ensures Valid()
      ensures account in buckets && buckets[account] == bucket
      ensures buckets == if account in old(buckets) then old(buckets) else old(buckets)[account := bucket]
      // an existing bucket is handed out again, and a new one is a new account's own
      ensures if account in old(buckets) then quotas == old(quotas)
              else bucket == |old(quotas)| && quotas == old(quotas) + [ConfiguredQuota(ACCOUNT_CONFIG)]
    {
      if account !in buckets {
        buckets := buckets[account := |quotas|];
        quotas := quotas + [ConfiguredQuota(ACCOUNT_CONFIG)];
      }
      bucket := buckets[account];
    }

    /** Whatever an account's bucket admits keeps to thirty cells in any sixty seconds. */
    lemma AccountsKeepCeiling(account: string, cells: seq<nat>, from: nat)
      requires Valid() && account in buckets && Admitted(quotas[buckets[account]], cells)
      ensures CellsIn(cells, from, 60 * NANOS) <= 30
    {
      AccountCeiling(cells, from);
    }
  }

  /** How often a caller waited for a key's bucket. */
  class Pacer {
    ghost var waits: nat
  }

  /** The account in force, with the bucket its sends are charged to. */
  datatype SelectedAccount = SelectedAccount(id: string, bucket: nat)

  function ErrorOf(r: Result<Reply, AppError>): Option<AppError> {
    if r.Ok? then None else Some(r.error)
  }

  function Untried(order: seq<nat>, tried: seq<nat>): (rest: seq<nat>)
    ensures (forall i :: i in rest <==> i in order && i !in tried) && |rest| <= |order|
  {
    if order == [] then []
    else (if order[0] in tried then [] else [order[0]]) + Untried(order[1..], tried)
  }

  /** The untried slots keep the order of the walk. */
  lemma {:induction false} UntriedAt(order: seq<nat>, tried: seq<nat>, n: nat) returns (m: nat)
    requires n < |Untried(order, tried)|
    ensures m < |order| && order[m] == Untried(order, tried)[n]
    ensures forall l :: 0 <= l < m ==> order[l] in tried || order[l] in Untried(order, tried)[..n]
  {
    var rest, all := Untried(order[1..], tried), Untried(order, tried);
    if order[0] in tried {
      m := UntriedAt(order[1..], tried, n);
      m := m + 1;
      assert all == rest;
    } else if n == 0 {
      m := 0;
    } else {
      m := UntriedAt(order[1..], tried, n - 1);
      m := m + 1;
      assert all[..n] == [order[0]] + rest[..n - 1];
    }
    forall l | 0 <= l < m
      ensures order[l] in tried || order[l] in all[..n]
    {
      if l == 0 && order[0] !in tried {
        assert all[..n][0] == order[0];
      } else if l > 0 {
        assert order[l] == order[1..][l - 1];
        if order[0] !in tried && order[l] in rest[..n - 1] {
          var j :| 0 <= j < n - 1 && rest[..n - 1][j] == order[l];
          assert all[..n][j + 1] == order[l];
        }
      }
    }
  }

  lemma InTurnOfWalk(
    order: seq<nat>, tried: seq<nat>, slot: nat, kind: RateLimitClass, lost: seq<Miss>,
    sessions: seq<Option<Session>>, deadlines: seq<Option<nat>>, since: Time, now: Time)
    requires InTurn(Untried(order, tried), slot, kind, lost, sessions, deadlines, since, now)
    ensures InWalk(order, tried, slot, kind, lost, sessions, deadlines, since, now)
  {
    hide PassedOver;
    var candidates := Untried(order, tried);
    var n :| 0 <= n < |candidates| && candidates[n] == slot
      && AllPassedOver(candidates[..n], kind, lost, sessions, deadlines, since, now);
    assert candidates[n] in candidates;
    var m := UntriedAt(order, tried, n);
    forall l | 0 <= l < m && order[l] !in tried
      ensures PassedOver(Lane(order[l], kind), lost, sessions, deadlines, since, now)
    {
      var j :| 0 <= j < n && candidates[..n][j] == order[l];
    }
  }

  class HttpClient {
    const w: World
    const registry: AccountRegistry
    const pacer: Pacer
    const pool: seq<KeySlot>
    const apiVersion: nat
    const configured: string
    /** The bucket of the configured account, which every session call of the pool charges. */
    ghost const home: nat
    var selected: SelectedAccount
    /** The slot trading is pinned to and whose session the client exposes. */
    var primary: nat
    var cursor: U64

    ghost function Parts(): set<object> {
      (set s: KeySlot | s in pool :: s as object) + (set s: KeySlot | s in pool :: s.auth as object)
    }

    ghost predicate Wired() {
      && 0 < |pool| < U64_BOUND
      && (forall i :: 0 <= i < |pool| ==>
            && pool[i].auth.w == w && pool[i].auth.slot == i && pool[i].auth.account == Some(home)
            && pool[i].auth.apiVersion == apiVersion && pool[i].auth.configured == configured)
      && (forall i, j :: 0 <= i < j < |pool| ==> pool[i] != pool[j] && pool[i].auth != pool[j].auth)
    }

    ghost predicate Valid()
      reads this, w, w.watch, registry, Parts()
    {
      && Wired() && w.Valid() && registry.Valid()
      && primary < |pool|
      && selected.id in registry.buckets && registry.buckets[selected.id] == selected.bucket
      && (forall i :: 0 <= i < |pool| ==>
            pool[i].cooldownUntil.Some? ==> pool[i].cooldownUntil.value <= w.now + KEY_COOLDOWN)
      && (apiVersion == 3 ==> OnlyOauth()) && InSync()
    }

    /** Every v2 session is the one the server keeps for its key. */
    ghost predicate InSync()
      reads w, Parts()
    {
      forall i :: 0 <= i < |pool| ==> Holds(pool[i].auth.session, w.server, i, apiVersion)
    }

    lemma SlotFacts(i: nat)
      requires Valid() && i < |pool|
      ensures Holds(pool[i].auth.session, w.server, i, apiVersion)
      ensures apiVersion == 3 && pool[i].auth.session.Some? ==> pool[i].auth.session.value.IsOauth()
    {
    }

    lemma LeaderInPool()
      requires Valid()
      ensures primary < |pool| && 0 < |pool| && w.Valid() && w.now >= 0
    {
    }

    /** On v3 a session that is not an OAuth session is never kept. */
    ghost predicate OnlyOauth()
      reads Parts()
    {
      forall i :: 0 <= i < |pool| && pool[i].auth.session.Some? ==> pool[i].auth.session.value.IsOauth()
    }

    /** One slot per API key, none with a session. */
    static method ColdPool(w: World, keys: nat, bucket: nat, apiVersion: Option<nat>, configured: string)
      returns (slots: seq<KeySlot>)
      ensures |slots| == keys
      ensures forall i :: 0 <= i < keys ==>
                && fresh(slots[i]) && fresh(slots[i].auth)
                && slots[i].auth.w == w && slots[i].auth.slot == i && slots[i].auth.account == Some(bucket)
                && slots[i].auth.apiVersion == (if apiVersion.Some? then apiVersion.value else 2)
                && slots[i].auth.configured == configured
                && slots[i].auth.session == None && slots[i].cooldownUntil == None
      ensures forall i, j :: 0 <= i < j < keys ==> slots[i] != slots[j] && slots[i].auth != slots[j].auth
    {
      slots := [];
      while |slots| < keys
        invariant |slots| <= keys
        invariant forall i :: 0 <= i < |slots| ==>
                    && fresh(slots[i]) && fresh(slots[i].auth)
                    && slots[i].auth.w == w && slots[i].auth.slot == i && slots[i].auth.account == Some(bucket)
                    && slots[i].auth.apiVersion == (if apiVersion.Some? then apiVersion.value else 2)
                    && slots[i].auth.configured == configured
                    && slots[i].auth.session == None && slots[i].cooldownUntil == None
        invariant forall i, j :: 0 <= i < j < |slots| ==> slots[i] != slots[j] && slots[i].auth != slots[j].auth
      {
        var auth := new Auth(w, |slots|, Some(bucket), apiVersion, configured);
        var slot := new KeySlot(auth);
        slots := slots + [slot];
      }
    }

    /** A client over `keys` API keys that has not logged in yet. */
    constructor Lazy(w: World, registry: AccountRegistry, keys: nat, apiVersion: Option<nat>, configured: string)
      requires 0 < keys < U64_BOUND && w.Valid() && registry.Valid()
      modifies registry
      ensures Valid() && this.w == w && this.registry == registry && |pool| == keys
      ensures primary == 0 && cursor == 0
      ensures fresh(pacer) && this.configured == configured
      ensures this.apiVersion == (if apiVersion.Some? then apiVersion.value else 2)
      ensures configured in registry.buckets && selected == SelectedAccount(configured, registry.buckets[configured])
      ensures home == registry.buckets[configured]
      ensures forall i :: 0 <= i < keys ==> pool[i].auth.session == None && pool[i].cooldownUntil == None
      ensures forall i :: 0 <= i < keys ==> fresh(pool[i]) && fresh(pool[i].auth)
    {
      hide Paced, Recorded, World.Valid;
      var bucket := registry.BuildAccountLimiter(configured);
      var slots := ColdPool(w, keys, bucket, apiVersion, configured);
      this.w := w;
      this.registry := registry;
      this.pacer := new Pacer;
      this.pool := slots;
      this.apiVersion := if apiVersion.Some? then apiVersion.value else 2;
      this.configured := configured;
      this.home := bucket;
      this.selected := SelectedAccount(configured, bucket);
      this.primary := 0;
      this.cursor := 0;
    }

    /** When each key may serve again. */
    ghost function Deadlines(): (d: seq<Option<nat>>)
      reads pool
      ensures |d| == |pool| && forall i :: 0 <= i < |pool| ==> d[i] == pool[i].cooldownUntil
    {
      seq(|pool|, i requires 0 <= i < |pool| reads pool => pool[i].cooldownUntil)
    }

    /** No session that is ready now reaches its refresh margin by `h`. */
    ghost predicate Steady(h: Time)
      reads w, Parts()
    {
      forall i :: 0 <= i < |pool| && pool[i].auth.HasReadySession(w.now) ==> pool[i].auth.HasReadySession(h)
    }

    /** Takes a cell of a slot's bucket exactly if it has one right now and nobody else is first. */
    method TryReserve(i: nat, kind: RateLimitClass, ghost h: Time) returns (taken: bool, ghost seg: seq<Event>)
      requires Valid() && i < |pool|
      modifies w`trace, w`cells, w.tries
      ensures Valid() && (old(Steady(h)) ==> Steady(h))
      ensures Deadlines() == old(Deadlines()) && Sessions() == old(Sessions())
      ensures w.trace == old(w.trace) + seg && (!taken ==> w.cells == old(w.cells))
      ensures seg == if taken then [KeyCell(Lane(i, kind))] else []
      ensures taken <==> !w.rivals(old(w.tries.count)) && Admits(w.rate, old(w.cells), OfKey(Lane(i, kind)), w.ticks)
      ensures w.tries.count == old(w.tries.count) + 1
      ensures w.tries.missed == old(w.tries.missed)
                + (if taken then [] else [Miss(OfKey(Lane(i, kind)), w.ticks, old(w.tries.count))])
    {
      hide Admits;
      taken := w.TryGrant(OfKey(Lane(i, kind)), KeyCell(Lane(i, kind)));
      seg := if taken then [KeyCell(Lane(i, kind))] else [];
    }

    /** Waits for a slot's bucket and takes a cell of it. */
    method Reserve(i: nat, kind: RateLimitClass, ghost h: Time) returns (ghost seg: seq<Event>)
      requires Valid() && i < |pool|
      modifies w, pacer`waits
      ensures pacer.waits == old(pacer.waits) + 1
      ensures Valid() && w.now >= old(w.now) && w.pos == old(w.pos) && (old(Steady(h)) ==> Steady(h))
      ensures Deadlines() == old(Deadlines()) && Sessions() == old(Sessions())
      ensures w.trace == old(w.trace) + seg && seg == [KeyCell(Lane(i, kind))]
    {
      w.Grant(OfKey(Lane(i, kind)), KeyCell(Lane(i, kind)));
      AllReadyEarlier(old(w.now), w.now);
      pacer.waits := pacer.waits + 1;
      seg := [KeyCell(Lane(i, kind))];
    }

    /** Moves the primary onto a slot that just proved usable, when the incumbent is parked. */
    method PromotePrimaryIfNeeded(index: nat, ghost h: Time)
      requires Valid() && index < |pool|
      modifies this`primary
      ensures Valid() && (old(Steady(h)) ==> Steady(h))
      ensures Deadlines() == old(Deadlines()) && Sessions() == old(Sessions())
      ensures primary == if old(primary) != index && pool[old(primary)].InCooldown(w.now) then index else old(primary)
    {
      if primary != index && pool[primary].InCooldown(w.now) {
        primary := index;
      }
    }

    /** Parks a key whose allowance was refused. */
    method Park(i: nat, ghost h: Time)
      requires Valid() && i < |pool|
      modifies pool[i]
      ensures Valid() && (old(Steady(h)) ==> Steady(h))
      ensures pool[i].cooldownUntil == Some(w.now + 60 * 1_000_000_000)
      ensures Sessions() == old(Sessions())
      ensures AllLater(old(Deadlines()), Deadlines())
    {
      pool[i].MarkExhausted(w.now);
    }

    /** The session each key holds. */
    ghost function Sessions(): (sessions: seq<Option<Session>>)
      reads pool, set slot: KeySlot | slot in pool :: slot.auth
      ensures |sessions| == |pool| && forall i :: 0 <= i < |pool| ==> sessions[i] == pool[i].auth.session
    {
      seq(|pool|, i requires 0 <= i < |pool| reads pool, set slot: KeySlot | slot in pool :: slot.auth
                  => pool[i].auth.session)
    }

    /** Records the moment at which no candidate could serve at once. */
    ghost method Decide(h: Time)
      requires Valid()
      modifies w.watch
      ensures Valid() && (old(Steady(h)) ==> Steady(h))
      ensures Deadlines() == old(Deadlines()) && Sessions() == old(Sessions())
      ensures w.watch.count == |w.cells| && w.watch.ticks == w.ticks
    {
      w.StartWatch();
    }

    /**
     * Asks one candidate of the first pass, on top of the ones passed over before it: unless it is
     * cooling or has no ready session its bucket is asked, and if that gives a cell it serves.
     */
    method Ask(
      kind: RateLimitClass, i: nat, ghost since: Time, ghost cells: seq<Cell>, ghost first: nat, ghost start: nat,
      ghost missed: seq<Miss>, ghost passed: seq<nat>, ghost before: seq<Miss>, ghost h: Time)
      returns (taken: bool, ghost seg: seq<Event>, ghost lost: seq<Miss>)
      requires Valid() && i < |pool| && since <= w.now && start <= w.ticks
      requires w.cells == cells && w.tries.missed == missed + before
      requires first <= w.tries.count <= first + |passed|
      requires AllTrue(before, w.rate, cells, w.rivals, first, first + |passed|, start, w.ticks)
      requires AllPassedOver(passed, kind, before, Sessions(), Deadlines(), since, w.now)
      modifies this`primary, w`now, w`ticks, w`trace, w`cells, w.tries
      ensures Valid() && w.now >= old(w.now) && w.ticks >= old(w.ticks)
      ensures w.trace == old(w.trace) + seg && seg == (if taken then [KeyCell(Lane(i, kind))] else [])
      ensures w.tries.missed == missed + lost && first <= w.tries.count <= first + |passed| + 1
      ensures AllTrue(lost, w.rate, cells, w.rivals, first, first + |passed| + 1, start, w.ticks)
      ensures AllPassedOver(
                if taken then passed else passed + [i], kind, lost, Sessions(), Deadlines(), since, w.now)
      ensures taken ==>
                && !pool[i].InCooldown(w.now) && pool[i].auth.HasReadySession(w.now)
                && (primary == i || !pool[primary].InCooldown(w.now))
      ensures primary != old(primary) ==> taken && pool[old(primary)].InCooldown(w.now)
      ensures !taken ==> w.cells == cells
      ensures Deadlines() == old(Deadlines()) && Sessions() == old(Sessions())
      ensures old(Steady(h)) ==> Steady(h) && (taken ==> pool[i].auth.HasReadySession(h))
    {
      hide Valid, Steady, Deadlines, Sessions, AllPassedOver, AllTrue, Paced, World.Valid, Admits;
      LeaderInPool();
      ghost var arrived, ticks, more, last := w.now, w.ticks, [], first + |passed|;
      Pause(0, h);
      taken, seg := false, [];
      NoneMissed(w.rate, cells, w.rivals, first, start);
      if !pool[i].InCooldown(w.now) && pool[i].auth.HasReadySession(w.now) {
        ghost var number := w.tries.count;
        taken, seg := TryReserve(i, kind, h);
        if taken {
          PassedOverStill(passed, kind, before, Sessions(), Deadlines(), Deadlines(), since, arrived, w.now);
          PromotePrimaryIfNeeded(i, h);
        } else {
          more := [Miss(OfKey(Lane(i, kind)), w.ticks, number)];
          OneMissed(more[0], w.rate, cells, w.rivals, first, last + 1, start, w.ticks);
        }
      }
      AllTrueNext(before, more, w.rate, cells, w.rivals, first, last, last + 1, start, ticks, w.ticks);
      Append3(missed, before, more);
      lost := before + more;
      if taken {
        assert lost == before;
      } else {
        MissedOne(Lane(i, kind), before, more);
        PassedOverNext(passed, kind, before, more, Sessions(), Deadlines(), since, arrived, w.now, i);
      }
    }

    /** First pass: the first candidate that is not cooling, holds a ready session and has a cell. */
    method ReserveReady(kind: RateLimitClass, candidates: seq<nat>, ghost h: Time)
      returns (r: Option<nat>, ghost seg: seq<Event>, ghost lost: seq<Miss>, ghost n: nat)
      requires Valid() && forall k :: 0 <= k < |candidates| ==> candidates[k] < |pool|
      modifies this`primary, w, w.watch, w.tries
      ensures Valid() && w.now >= old(w.now) && w.pos == old(w.pos)
      ensures w.trace == old(w.trace) + seg && w.tries.missed == old(w.tries.missed) + lost
      // every bucket that gave nothing was really asked, and had nothing then or lost it to another caller
      ensures AllTrue(lost, w.rate, old(w.cells), w.rivals, old(w.tries.count), old(w.tries.count) + |candidates|,
                old(w.ticks), w.ticks)
      ensures seg == if r.Some? then [KeyCell(Lane(r.value, kind))] else []
      ensures w.ticks >= old(w.ticks) && (r.None? ==> w.cells == old(w.cells))
      ensures r.None? ==> w.watch.count == |w.cells| && w.watch.ticks == w.ticks
      ensures n <= |candidates| && if r.None? then n == |candidates| else n < |candidates| && r.value == candidates[n]
      // the ones before it were passed over for a reason
      ensures AllPassedOver(candidates[..n], kind, lost, Sessions(), Deadlines(), old(w.now), w.now)
      ensures r.Some? ==>
                && !pool[r.value].InCooldown(w.now) && pool[r.value].auth.HasReadySession(w.now)
                && (primary == r.value || !pool[primary].InCooldown(w.now))
      ensures primary != old(primary) ==> r.Some? && pool[old(primary)].InCooldown(w.now)
      ensures Deadlines() == old(Deadlines()) && Sessions() == old(Sessions()) && pacer.waits == old(pacer.waits)
      ensures old(Steady(h)) ==> Steady(h) && (r.Some? ==> pool[r.value].auth.HasReadySession(h))
    {
      hide Valid, Steady, Deadlines, Sessions, AllPassedOver, AllTrue, Paced, World.Valid, Admits;
      LeaderInPool();
      r, seg, lost := None, [], [];
      ghost var cells, first, start, missed := w.cells, w.tries.count, w.ticks, w.tries.missed;
      NonePassedOver(kind, Sessions(), Deadlines(), w.now);
      NoneMissed(w.rate, cells, w.rivals, first, start);
      for k := 0 to |candidates|
        invariant Valid() && w.now >= old(w.now) && w.pos == old(w.pos)
        invariant w.trace == old(w.trace) && primary == old(primary) && pacer.waits == old(pacer.waits)
        invariant Deadlines() == old(Deadlines()) && Sessions() == old(Sessions())
        invariant old(Steady(h)) ==> Steady(h)
        invariant w.ticks >= start && w.cells == cells && first <= w.tries.count <= first + k
        invariant w.tries.missed == missed + lost
        invariant AllTrue(lost, w.rate, cells, w.rivals, first, first + k, start, w.ticks)
        invariant AllPassedOver(candidates[..k], kind, lost, Sessions(), Deadlines(), old(w.now), w.now)
      {
        var i := candidates[k];
        assert candidates[..k] + [i] == candidates[..k + 1];
        var taken;
        taken, seg, lost := Ask(kind, i, old(w.now), cells, first, start, missed, candidates[..k], lost, h);
        if taken {
          AllTrueWider(lost, w.rate, cells, w.rivals, first, first + k + 1, first + |candidates|, start, w.ticks);
          r, n := Some(i), k;
          return;
        }
      }
      seg, n := [], |candidates|;
      Decide(h);
      assert candidates[..|candidates|] == candidates;
    }

    lemma FreshFromHere(start: Time, h: Time)
      requires start <= w.now
      ensures FreshUntil(w.script, start, h) ==> FreshUntil(w.script, w.now, h)
    {
    }

    /** Time passes while the pool waits. */
    method Pause(nanos: nat, ghost h: Time)
      requires Valid()
      modifies w`now, w`ticks
      ensures Valid() && w.now >= old(w.now) && w.ticks >= old(w.ticks) && w.now >= Min(old(w.now) + nanos, MAX_TIME)
      ensures Deadlines() == old(Deadlines()) && Sessions() == old(Sessions())
      ensures old(Steady(h)) ==> Steady(h)
    {
      w.Elapse(nanos);
      AllReadyEarlier(old(w.now), w.now);
    }

    /** Gets the session of one slot, logging in if it must. */
    method FetchSession(i: nat, ghost h: Time) returns (r: Result<Session, AppError>, ghost seg: seq<Event>)
      requires Valid() && i < |pool|
      modifies w, pool[i].auth
      ensures Valid() && w.now >= old(w.now) && w.pos >= old(w.pos)
      ensures r.Err? ==> FailedBy(w.script, old(w.pos), w.pos, r.error)
      ensures w.trace == old(w.trace) + seg && SessionOnly(seg, i, Some(home))
      ensures old(pool[i].auth.HasReadySession(w.now)) ==> r.Ok? && seg == [] && w.now == old(w.now)
      ensures Deadlines() == old(Deadlines()) && Sessions() == old(Sessions())[i := pool[i].auth.session]
      ensures Relogged(old(Sessions()), Sessions(), w.now, false, apiVersion, configured)
      ensures r.Ok? ==> pool[i].auth.session == Some(r.value)
      ensures r.Err? ==> old(pool[i].auth.HasReadySession(w.now)) || !pool[i].auth.HasReadySession(w.now)
      ensures apiVersion == 3 && !old(pool[i].auth.HasReadySession(w.now)) ==>
                OauthSettled(w.script, old(w.pos), w.pos, configured, w.now, r)
      ensures old(Steady(h)) && FreshUntil(w.script, old(w.now), h) && w.now <= h ==>
                && Steady(h)
                && (r.Ok? ==> pool[i].auth.HasReadySession(h))
                && Count(seg, LoggedIn) ==
                   (if r.Ok? && !old(pool[i].auth.HasReadySession(w.now)) then 1 else 0)
    {
      hide SessionOnly, OauthSettled, FailedBy, Recorded, Paced;
      SessionOnlyLoggedIn(i, Some(home));
      r, seg := pool[i].auth.GetSession(h);
      AllReadyEarlier(old(w.now), w.now);
    }

    /** A slot that just logged in takes over from a parked primary, and serves if it has a cell. */
    method LeadAndServe(kind: RateLimitClass, i: nat, ghost h: Time) returns (taken: bool, ghost seg: seq<Event>)
      requires Valid() && i < |pool|
      modifies this`primary, w`trace, w`cells, w.tries
      ensures Valid() && (old(Steady(h)) ==> Steady(h))
      ensures w.trace == old(w.trace) + seg && Count(seg, LoggedIn) == 0
      ensures Deadlines() == old(Deadlines()) && Sessions() == old(Sessions())
      ensures w.pos == old(w.pos) && w.now == old(w.now)
      ensures Grew(old(w.tries.missed), w.tries.missed)
      ensures Conserved(seg, kind, home, [], if taken then Some(i) else None)
      ensures primary == if old(primary) != i && pool[old(primary)].InCooldown(w.now) then i else old(primary)
    {
      hide Valid, Steady, Conserved;
      LeaderInPool();
      PromotePrimaryIfNeeded(i, h);
      taken, seg := TryReserve(i, kind, h);
      NothingConserved(kind, home);
      ReservationConserved(kind, home, i);
    }

    /** Logs in on one key. */
    method LoginSlot(i: nat, ghost h: Time) returns (r: Result<Session, AppError>, ghost seg: seq<Event>)
      requires Valid() && i < |pool|
      modifies w, pool[i].auth
      ensures Valid() && w.now >= old(w.now)
      ensures w.pos >= old(w.pos) && (r.Err? ==> FailedBy(w.script, old(w.pos), w.pos, r.error))
      ensures w.trace == old(w.trace) + seg && SessionOnly(seg, i, Some(home))
      ensures Deadlines() == old(Deadlines()) && (r.Ok? ==> pool[i].auth.session == Some(r.value))
      ensures FreshUntil(w.script, old(w.now), h) && w.now <= h ==>
                Count(seg, LoggedIn) == (if r.Ok? then 1 else 0)
    {
      hide SessionOnly, FreshUntil, FailedBy, OauthSettled, LoginSettled, Recorded, Paced, Session.InsideMargin;
      r, seg := pool[i].auth.Login(h);
    }

    /** Logs in on one key, and parks it when its allowance is refused. */
    method LoginAt(i: nat, ghost h: Time) returns (r: Result<Session, AppError>, ghost seg: seq<Event>)
      requires Valid() && i < |pool|
      modifies w, pool[i], pool[i].auth
      ensures Valid() && w.now >= old(w.now)
      ensures w.pos >= old(w.pos) && (r.Err? ==> FailedBy(w.script, old(w.pos), w.pos, r.error))
      ensures w.trace == old(w.trace) + seg && Conserved(seg, NonTrading, home, [], None)
      ensures AllLater(old(Deadlines()), Deadlines())
      ensures r == Err(ApiKeyAllowanceExceeded) ==> Parked(Deadlines(), i, Some(ApiKeyAllowanceExceeded), old(w.now))
      ensures r.Ok? ==> pool[i].auth.session == Some(r.value)
      ensures FreshUntil(w.script, old(w.now), h) && w.now <= h ==>
                Count(seg, LoggedIn) == (if r.Ok? then 1 else 0)
    {
      hide Valid, SessionOnly, Conserved, FreshUntil, FailedBy, Deadlines;
      LaterSame(Deadlines());
      r, seg := LoginSlot(i, h);
      SessionConserved(seg, NonTrading, home, i);
      if r == Err(ApiKeyAllowanceExceeded) {
        Park(i, h);
      }
    }

    /**
     * Logs in on the first key that can: the keys before it refused their allowance and are parked,
     * and any other refusal ends the search.
     */
    method LoginAny(ghost h: Time) returns (r: Result<nat, AppError>, ghost seg: seq<Event>)
      requires Valid()
      modifies w, Parts()
      ensures Valid() && w.now >= old(w.now)
      ensures w.trace == old(w.trace) + seg && Conserved(seg, NonTrading, home, [], None)
      ensures r.Ok? ==> r.value < |pool| && pool[r.value].auth.session.Some?
      ensures r.Ok? ==> AllParked(r.value, old(w.now))
      ensures r == Err(ApiKeyAllowanceExceeded) ==> AllParked(|pool|, old(w.now))
      ensures FreshUntil(w.script, old(w.now), h) && w.now <= h ==>
                Count(seg, LoggedIn) == (if r.Ok? then 1 else 0)
    {
      hide Valid, Conserved, FreshUntil, Deadlines, AllLater, Parked;
      NothingConserved(NonTrading, home);
      seg := [];
      var last: Option<AppError> := None;
      for index := 0 to |pool|
        invariant Valid() && w.now >= old(w.now)
        invariant w.trace == old(w.trace) + seg && Conserved(seg, NonTrading, home, [], None)
        invariant AllParked(index, old(w.now)) && (last.Some? ==> last.value == ApiKeyAllowanceExceeded)
        invariant FreshUntil(w.script, old(w.now), h) && w.now <= h ==> Count(seg, LoggedIn) == 0
      {
        ghost var before, t := Deadlines(), w.now;
        FreshFromHere(old(w.now), h);
        assert pool[index] in pool;
        ghost var more;
        var session;
        session, more := LoginAt(index, h);
        ConservedThen(seg, more, NonTrading, home, [], None, None);
        Append3(old(w.trace), seg, more);
        seg := seg + more;
        ParkedStill(before, Deadlines(), index, old(w.now), t);
        if session.Ok? {
          r := Ok(index);
          return;
        }
        if session.error != ApiKeyAllowanceExceeded {
          r := Err(session.error);
          return;
        }
        last := Some(session.error);
      }
      r := Err(if last.Some? then last.value else ApiKeyAllowanceExceeded);
    }

    ghost predicate AllParked(n: nat, since: Time)
      reads pool
    {
      FirstParked(Deadlines(), n, since)
    }

    /** Gets the session of a slot without a ready one; a refused allowance parks the key. */
    method FetchOrPark(kind: RateLimitClass, i: nat, ghost h: Time)
      returns (r: Result<Session, AppError>, ghost seg: seq<Event>)
      requires Valid() && i < |pool| && !pool[i].auth.HasReadySession(w.now)
      modifies w, pool[i].auth, pool[i]
      ensures Valid() && w.now >= old(w.now)
      ensures w.pos >= old(w.pos) && (r.Err? ==> FailedBy(w.script, old(w.pos), w.pos, r.error))
      ensures w.trace == old(w.trace) + seg && Conserved(seg, kind, home, [], None)
      ensures AllLater(old(Deadlines()), Deadlines()) && Sessions() == old(Sessions())[i := pool[i].auth.session]
      ensures pool[i].cooldownUntil == if r == Err(ApiKeyAllowanceExceeded) && |pool| > 1
                then Some(w.now + KEY_COOLDOWN) else old(pool[i].cooldownUntil)
      ensures Relogged(old(Sessions()), Sessions(), w.now, false, apiVersion, configured)
      ensures r.Ok? ==> Deadlines() == old(Deadlines())
      ensures ColdStart(apiVersion, old(Sessions()), old(Deadlines()), ReplyAt(w.script, old(w.pos))) ==>
                r.Ok? && Lapsed(Sessions(), w.now, old(w.pos), w.pos)
      ensures old(Steady(h)) && FreshUntil(w.script, old(w.now), h) && w.now <= h ==>
                && Steady(h)
                && (r.Ok? ==> pool[i].auth.HasReadySession(h))
                && Count(seg, LoggedIn) == (if r.Ok? then 1 else 0)
    {
      hide Paced, World.Valid;
      hide Conserved, SessionOnly, FreshUntil, Sessions, Relogged, OauthSettled, ShortLived, FailedBy;
      LaterSame(Deadlines());
      r, seg := FetchSession(i, h);
      if ColdStart(apiVersion, old(Sessions()), old(Deadlines()), ReplyAt(w.script, old(w.pos))) {
        ShortLivedIsStale(w.script, old(w.pos), w.pos, configured, w.now, r);
      }
      SessionConserved(seg, kind, home, i);
      if r == Err(ApiKeyAllowanceExceeded) && |pool| > 1 {
        Park(i, h);
      }
    }

    /** Logs in on a slot without a ready session; on success it may serve, on an allowance refusal it is parked. */
    method LoginOn(kind: RateLimitClass, i: nat, ghost h: Time)
      returns (r: Result<Session, AppError>, taken: bool, ghost seg: seq<Event>)
      requires Valid() && i < |pool| && !pool[i].auth.HasReadySession(w.now)
      modifies this`primary, w, w.tries, pool[i].auth, pool[i]
      ensures Valid() && w.now >= old(w.now)
      ensures w.pos >= old(w.pos) && (r.Err? ==> FailedBy(w.script, old(w.pos), w.pos, r.error))
      ensures w.trace == old(w.trace) + seg
      ensures Grew(old(w.tries.missed), w.tries.missed)
      ensures Conserved(seg, kind, home, [], if taken then Some(i) else None)
      ensures AllLater(old(Deadlines()), Deadlines()) && Sessions() == old(Sessions())[i := pool[i].auth.session]
      ensures pool[i].cooldownUntil == if r == Err(ApiKeyAllowanceExceeded) && |pool| > 1
                then Some(w.now + KEY_COOLDOWN) else old(pool[i].cooldownUntil)
      ensures primary != old(primary) ==> r.Ok? && pool[old(primary)].InCooldown(w.now)
      ensures r.Ok? ==> primary == i || !pool[primary].InCooldown(w.now)
      ensures Relogged(old(Sessions()), Sessions(), w.now, false, apiVersion, configured)
      ensures taken ==> r.Ok?
      ensures ColdStart(apiVersion, old(Sessions()), old(Deadlines()), ReplyAt(w.script, old(w.pos))) ==>
                r.Ok? && Lapsed(Sessions(), w.now, old(w.pos), w.pos)
      ensures old(Steady(h)) && FreshUntil(w.script, old(w.now), h) && w.now <= h ==>
                && Steady(h)
                && (r.Ok? ==> pool[i].auth.HasReadySession(h))
                && Count(seg, LoggedIn) == (if r.Ok? then 1 else 0)
    {
      hide Paced, World.Valid;
      hide Valid, Steady, Conserved, FreshUntil, Deadlines, Sessions, AllLater, Grew, Relogged;
      hide ColdStart, ReplyAt, Lapsed, FailedBy;
      LeaderInPool();
      GrewTwice(w.tries.missed, [], []);
      taken := false;
      r, seg := FetchOrPark(kind, i, h);
      if r.Err? {
        return;
      }
      ghost var cell;
      taken, cell := LeadAndServe(kind, i, h);
      ConservedThen(seg, cell, kind, home, [], None, if taken then Some(i) else None);
      Append3(old(w.trace), seg, cell);
      seg := seg + cell;
    }

    /**
     * One candidate of the second pass, on top of what the ones before it have spent and left
     * behind: nothing when it is settled, and otherwise how the pass ends on it.
     */
    method Consider(
      kind: RateLimitClass, i: nat, ghost from: nat, ghost since: Time, ghost start: seq<Option<nat>>,
      ghost sessions: seq<Option<Session>>, ghost passed: seq<nat>, ghost t: seq<Event>, ghost before: seq<Event>,
      ghost h: Time)
      returns (r: Option<Result<Session, AppError>>, taken: bool, ghost seg: seq<Event>)
      requires Valid() && i < |pool| == |sessions| && since <= w.now && from <= w.pos
      requires w.trace == t + before && Conserved(before, kind, home, [], None)
      requires AllLater(start, Deadlines()) && Unsettled(sessions, Sessions(), Deadlines(), since)
      requires AllSettled(passed, sessions, Deadlines(), since)
      requires Relogged(sessions, Sessions(), w.now, false, apiVersion, configured)
      modifies this`primary, w, w.tries, pool[i].auth, pool[i]
      ensures Valid() && w.now >= old(w.now)
      ensures w.pos >= old(w.pos)
      ensures r.Some? && r.value.Err? ==> FailedBy(w.script, from, w.pos, r.value.error)
      ensures w.trace == t + seg && Conserved(seg, kind, home, [], if taken then Some(i) else None)
      ensures Grew(old(w.tries.missed), w.tries.missed) && (taken ==> r.Some? && r.value.Ok?)
      ensures AllLater(start, Deadlines()) && Relogged(sessions, Sessions(), w.now, false, apiVersion, configured)
      ensures primary != old(primary) ==>
                r.Some? && r.value.Ok? && pool[old(primary)].InCooldown(w.now)
      ensures r.Some? && r.value.Ok? ==>
                !pool[i].InCooldown(w.now) && (primary == i || !pool[primary].InCooldown(w.now))
      ensures r.Some? ==> AllSettled(passed, sessions, Deadlines(), since)
      ensures r.None? ==>
                && AllSettled(passed + [i], sessions, Deadlines(), since)
                && Unsettled(sessions, Sessions(), Deadlines(), since)
      ensures ColdStart(apiVersion, old(Sessions()), old(Deadlines()), ReplyAt(w.script, old(w.pos))) ==>
                r.Some? && r.value.Ok? && Lapsed(Sessions(), w.now, old(w.pos), w.pos)
      ensures old(Steady(h)) && FreshUntil(w.script, since, h) && w.now <= h ==>
                && Steady(h)
                && (r.Some? && r.value.Ok? ==> pool[i].auth.HasReadySession(h))
                && Count(seg, LoggedIn) == Count(before, LoggedIn) + (if r.Some? && r.value.Ok? then 1 else 0)
    {
      hide Valid, Steady, Conserved, SessionOnly, FreshUntil, Deadlines, Sessions, AllLater, Grew;
      hide AllSettled, Unsettled, Relogged, ShortLived, Lapsed, FailedBy, World.Valid, Paced, Recorded;
      GrewTwice(w.tries.missed, [], []);
      Pause(0, h);
      FreshFromHere(since, h);
      r, taken, seg := None, false, before;
      ReloggedNot(Sessions(), w.now, false, apiVersion, configured);
      ReloggedTwice(sessions, Sessions(), Sessions(), old(w.now), w.now, false, false, apiVersion, configured);
      if pool[i].InCooldown(w.now) || pool[i].auth.HasReadySession(w.now) {
        SettledNext(passed, i, sessions, Sessions(), Deadlines(), since, w.now);
      } else {
        ghost var middle, reached, paused := Deadlines(), Sessions(), w.now;
        var session;
        session, taken, seg := LoginOn(kind, i, h);
        LaterStill(start, middle, Deadlines());
        ReloggedTwice(sessions, reached, Sessions(), paused, w.now, false, false, apiVersion, configured);
        SettledLater(passed, sessions, middle, Deadlines(), since);
        ConservedThen(before, seg, kind, home, [], None, if taken then Some(i) else None);
        Append3(t, before, seg);
        seg := before + seg;
        if session == Err(ApiKeyAllowanceExceeded) && |pool| > 1 {
          SettledParked(passed, i, sessions, reached, Sessions(), middle, Deadlines(), since);
        } else {
          r := Some(session);
          if session.Err? {
            FailedWithin(w.script, from, old(w.pos), w.pos, w.pos, session.error);
          }
        }
      }
    }

    /**
     * Second pass: logs in on one candidate that is not cooling and has no ready session. A key
     * that refuses its allowance is parked and the next one asked. `ready` is the slot that logged in.
     */
    method ReserveAfterLogin(kind: RateLimitClass, candidates: seq<nat>, ghost h: Time)
      returns (r: Result<Option<nat>, AppError>, ghost seg: seq<Event>, ghost ready: Option<nat>)
      requires Valid() && forall k :: 0 <= k < |candidates| ==> candidates[k] < |pool|
      modifies this`primary, w, w.tries, Parts()
      ensures Valid() && w.now >= old(w.now)
      ensures w.pos >= old(w.pos) && (r.Err? ==> FailedBy(w.script, old(w.pos), w.pos, r.error))
      ensures w.trace == old(w.trace) + seg
      ensures Grew(old(w.tries.missed), w.tries.missed) && pacer.waits == old(pacer.waits) && unchanged(w.watch)
      ensures Conserved(seg, kind, home, [], if r.Ok? then r.value else None)
      ensures AllLater(old(Deadlines()), Deadlines())
      ensures Relogged(old(Sessions()), Sessions(), w.now, false, apiVersion, configured)
      ensures primary != old(primary) ==> pool[old(primary)].InCooldown(w.now)
      ensures r.Ok? && r.value.Some? ==>
                && r.value == ready && (primary == r.value.value || !pool[primary].InCooldown(w.now))
      ensures ready.Some? ==> r.Ok? && ready.value in candidates && !pool[ready.value].InCooldown(w.now)
      // the first one in the order that was not settled otherwise
      ensures ready.Some? ==> LoginInTurn(candidates, ready.value, old(Sessions()), Deadlines(), old(w.now))
      // every candidate was cooling, or refused and parked, or held a session already
      ensures r == Ok(None) && ready.None? ==> AllSettled(candidates, old(Sessions()), Deadlines(), old(w.now))
      ensures ColdStart(apiVersion, old(Sessions()), old(Deadlines()), ReplyAt(w.script, old(w.pos)))
              && candidates != [] ==>
                r.Ok? && ready.Some? && Lapsed(Sessions(), w.now, old(w.pos), w.pos)
      ensures old(Steady(h)) && FreshUntil(w.script, old(w.now), h) && w.now <= h ==>
                && Steady(h)
                && Count(seg, LoggedIn) == (if ready.Some? then 1 else 0)
                && (ready.Some? ==> pool[ready.value].auth.HasReadySession(h))
    {
      hide Valid, Steady, Conserved, SessionOnly, FreshUntil, Deadlines, Sessions, AllLater, Grew;
      hide AllSettled, Unsettled, Relogged, ColdStart, Lapsed, ReplyAt, FailedBy;
      ghost var start, missed, sessions := Deadlines(), w.tries.missed, Sessions();
      LaterSame(start);
      GrewTwice(missed, [], []);
      NothingSettled(sessions, start, w.now);
      ReloggedNot(sessions, w.now, false, apiVersion, configured);
      seg := [];
      ready := None;
      NothingConserved(kind, home);
      for k := 0 to |candidates|
        invariant Valid() && w.now >= old(w.now) && w.pos >= old(w.pos)
        invariant w.trace == old(w.trace) + seg && Conserved(seg, kind, home, [], None)
        invariant primary == old(primary)
        invariant Grew(missed, w.tries.missed) && pacer.waits == old(pacer.waits) && unchanged(w.watch)
        invariant AllLater(start, Deadlines()) && Unsettled(sessions, Sessions(), Deadlines(), old(w.now))
        invariant Relogged(sessions, Sessions(), w.now, false, apiVersion, configured)
        invariant k == 0 ==> Sessions() == sessions && Deadlines() == start && w.pos == old(w.pos)
        invariant ColdStart(apiVersion, sessions, start, ReplyAt(w.script, old(w.pos))) ==> k == 0
        invariant AllSettled(candidates[..k], sessions, Deadlines(), old(w.now))
        invariant old(Steady(h)) && FreshUntil(w.script, old(w.now), h) && w.now <= h ==>
                    Steady(h) && Count(seg, LoggedIn) == 0
      {
        var i := candidates[k];
        assert candidates[..k + 1] == candidates[..k] + [i];
        assert pool[i] in pool;
        var session, taken;
        ghost var missedSoFar := w.tries.missed;
        session, taken, seg :=
          Consider(kind, i, old(w.pos), old(w.now), start, sessions, candidates[..k], old(w.trace), seg, h);
        GrewTwice(missed, missedSoFar, w.tries.missed);
        if session.Some? {
          if session.value.Err? {
            return Err(session.value.error), seg, None;
          }
          assert candidates[k] == i && LoginInTurn(candidates, i, sessions, Deadlines(), old(w.now));
          return Ok(if taken then Some(i) else None), seg, Some(i);
        }
      }
      assert candidates[..|candidates|] == candidates;
      return Ok(None), seg, None;
    }

    /** The candidates that are not cooling. */
    function Live(candidates: seq<nat>, now: Time): (live: seq<nat>)
      requires forall k :: 0 <= k < |candidates| ==> candidates[k] < |pool|
      reads pool
      ensures forall i :: i in live <==> i in candidates && i < |pool| && !pool[i].InCooldown(now)
    {
      if candidates == [] then [] else
        (if pool[candidates[0]].InCooldown(now) then [] else [candidates[0]]) + Live(candidates[1..], now)
    }

    ghost predicate AllCooling(candidates: seq<nat>, t: int)
      reads pool
    {
      forall i :: i in candidates && i < |pool| ==> pool[i].InCooldown(t)
    }

    /** When the first of the cooling candidates recovers. */
    function FirstDeadline(candidates: seq<nat>, now: Time): (until: nat)
      requires candidates != [] && forall k :: 0 <= k < |candidates| ==> candidates[k] < |pool|
      requires AllCooling(candidates, now)
      reads pool
      ensures until > now && exists i :: i in candidates && i < |pool| && pool[i].cooldownUntil == Some(until)
      ensures forall i :: i in candidates && i < |pool| ==> pool[i].InCooldown(until - 1)
    {
      assert candidates[0] in candidates;
      var first := pool[candidates[0]].cooldownUntil.value;
      if |candidates| == 1 then first
      else
        var rest := FirstDeadline(candidates[1..], now);
        if first <= rest then first else rest
    }

    /** The waiting candidates that hold a ready session, each asked in its turn. */
    method ReadyAmong(waiting: seq<nat>, ghost h: Time) returns (ready: seq<nat>)
      requires Valid() && forall k :: 0 <= k < |waiting| ==> waiting[k] < |pool|
      modifies w`now, w`ticks
      ensures Valid() && w.now >= old(w.now)
      ensures Deadlines() == old(Deadlines()) && Sessions() == old(Sessions())
      ensures old(Steady(h)) ==> Steady(h)
      ensures forall i :: i in ready ==> i in waiting
      ensures old(Steady(h)) ==> forall i :: i in ready ==> pool[i].auth.HasReadySession(h)
      ensures w.now <= h ==> forall i :: i in waiting && pool[i].auth.HasReadySession(h) ==> i in ready
    {
      hide Valid;
      ready := [];
      for k := 0 to |waiting|
        invariant Valid() && w.now >= old(w.now)
        invariant Deadlines() == old(Deadlines()) && Sessions() == old(Sessions())
        invariant old(Steady(h)) ==> Steady(h)
        invariant forall i :: i in ready ==> i in waiting
        invariant old(Steady(h)) ==> forall i :: i in ready ==> pool[i].auth.HasReadySession(h)
        invariant w.now <= h ==>
                    forall j :: 0 <= j < k && pool[waiting[j]].auth.HasReadySession(h) ==> waiting[j] in ready
      {
        Pause(0, h);
        if w.now <= h {
          AllReadyEarlier(w.now, h);
        }
        if pool[waiting[k]].auth.HasReadySession(w.now) {
          ready := ready + [waiting[k]];
        }
      }
    }

    ghost predicate SomeReady(candidates: seq<nat>, now: Time, h: Time)
      reads pool, set slot: KeySlot | slot in pool :: slot.auth
    {
      exists i :: i in candidates && i < |pool| && !pool[i].InCooldown(now) && pool[i].auth.HasReadySession(h)
    }

    /**
     * Whom to wait on: the candidates that are not cooling, or, when all are, all of them once the
     * shortest cooldown has ended; of those, the ones with a ready session when there are any.
     */
    method Waitlist(candidates: seq<nat>, ghost h: Time) returns (waiting: seq<nat>)
      requires Valid() && candidates != [] && forall k :: 0 <= k < |candidates| ==> candidates[k] < |pool|
      modifies w`now, w`ticks
      ensures Valid() && w.now >= old(w.now)
      ensures waiting != [] && forall i :: i in waiting ==> i in candidates
      ensures AllCooling(candidates, old(w.now)) || forall i :: i in waiting ==> !pool[i].InCooldown(w.now)
      ensures w.now < MAX_TIME ==> exists i :: i in candidates && i < |pool| && !pool[i].InCooldown(w.now)
      ensures Deadlines() == old(Deadlines()) && Sessions() == old(Sessions())
      ensures old(Steady(h)) ==> Steady(h)
      ensures old(Steady(h)) && w.now <= h ==>
                old(SomeReady(candidates, w.now, h)) ==> forall i :: i in waiting ==> pool[i].auth.HasReadySession(h)
    {
      hide Valid, Steady, Wired, World.Valid, Paced, Deadlines, Sessions;
      LeaderInPool();
      var live := Live(candidates, w.now);
      waiting := candidates;
      ghost var free: nat;
      if live == [] {
        var until := FirstDeadline(candidates, w.now);
        free :| free in candidates && free < |pool| && pool[free].cooldownUntil == Some(until);
        Pause(until - w.now, h);
      } else {
        free := live[0];
        waiting := live;
      }
      assert forall k :: 0 <= k < |waiting| ==> waiting[k] in waiting;
      var ready := ReadyAmong(waiting, h);
      if ready != [] {
        waiting := ready;
      }
      assert w.now < MAX_TIME ==> !pool[free].InCooldown(w.now);
    }

    /** Waits for one slot's cell, then fetches the session to go with it. */
    method ReserveThenFetch(kind: RateLimitClass, i: nat, ghost h: Time)
      returns (r: Result<nat, AppError>, ghost seg: seq<Event>)
      requires Valid() && i < |pool|
      modifies w, pacer`waits, pool[i].auth
      ensures Valid() && w.now >= old(w.now)
      ensures w.pos >= old(w.pos) && (r.Err? ==> FailedBy(w.script, old(w.pos), w.pos, r.error))
      ensures w.trace == old(w.trace) + seg && Conserved(seg, kind, home, [], Some(i))
      ensures Deadlines() == old(Deadlines())
      ensures Relogged(old(Sessions()), Sessions(), w.now, false, apiVersion, configured)
      ensures r.Ok? ==> r.value == i
      ensures pacer.waits == old(pacer.waits) + 1 && unchanged(w.watch)
      ensures old(Steady(h)) && FreshUntil(w.script, old(w.now), h) && w.now <= h ==>
                && Steady(h)
                && (r.Ok? ==> pool[i].auth.HasReadySession(h))
                && Count(seg, LoggedIn) <= (if old(pool[i].auth.HasReadySession(h)) then 0 else 1)
    {
      hide Valid, Steady, Conserved, SessionOnly, FreshUntil, Deadlines, Sessions, Relogged, FailedBy;
      seg := Reserve(i, kind, h);
      ghost var reserved := w.pos;
      FreshFromHere(old(w.now), h);
      ReservationConserved(kind, home, i);
      if w.now <= h {
        AllReadyEarlier(w.now, h);
      }
      ghost var more;
      var session;
      session, more := FetchSession(i, h);
      SessionConserved(more, kind, home, i);
      ConservedThen(seg, more, kind, home, [], Some(i), None);
      seg := seg + more;
      r := if session.Ok? then Ok(i) else Err(session.error);
      if session.Err? {
        FailedWithin(w.script, old(w.pos), reserved, w.pos, w.pos, session.error);
      }
    }

    /** Nothing could serve at once: waits for whichever candidate's bucket refills first. */
    method ReserveByWaiting(kind: RateLimitClass, candidates: seq<nat>, ghost h: Time)
      returns (r: Result<nat, AppError>, ghost seg: seq<Event>, ghost winner: nat)
      requires Valid() && candidates != [] && forall k :: 0 <= k < |candidates| ==> candidates[k] < |pool|
      modifies this`primary, w, pacer`waits, Parts()
      ensures Valid() && w.now >= old(w.now)
      ensures w.pos >= old(w.pos) && (r.Err? ==> FailedBy(w.script, old(w.pos), w.pos, r.error))
      ensures w.trace == old(w.trace) + seg && Conserved(seg, kind, home, [], Some(winner))
      ensures winner in candidates && (r.Ok? ==> r.value == winner)
      ensures Deadlines() == old(Deadlines()) && w.tries.missed == old(w.tries.missed)
      ensures pacer.waits == old(pacer.waits) + 1 && unchanged(w.watch)
      ensures Relogged(old(Sessions()), Sessions(), w.now, false, apiVersion, configured)
      ensures primary != old(primary) ==> pool[old(primary)].InCooldown(w.now)
      ensures r.Ok? ==> primary == winner || !pool[primary].InCooldown(w.now)
      // a cooling key is used only when all were cooling, and not before one of them had recovered
      ensures pool[winner].InCooldown(w.now) ==> AllCooling(candidates, old(w.now))
      ensures w.now < MAX_TIME ==> exists i :: i in candidates && i < |pool| && !pool[i].InCooldown(w.now)
      ensures old(Steady(h)) && FreshUntil(w.script, old(w.now), h) && w.now <= h ==>
                && Steady(h)
                && (r.Ok? ==> pool[winner].auth.HasReadySession(h))
                && Count(seg, LoggedIn) <=
                   (if old(SomeReady(candidates, w.now, h)) then 0 else 1)
    {
      hide Valid, Steady, Conserved, FreshUntil, Deadlines, Sessions, Relogged, FailedBy;
      var waiting;
      waiting := Waitlist(candidates, h);
      FreshFromHere(old(w.now), h);
      assert waiting[0] in waiting;
      var chosen :| chosen in waiting;
      winner := chosen;
      r, seg := ReserveThenFetch(kind, chosen, h);
      if r.Ok? {
        PromotePrimaryIfNeeded(chosen, h);
      }
    }

    /** Everything a reservation promises about who pays, who serves and who leads afterwards. */
    twostate predicate Reserved(
      kind: RateLimitClass, tried: seq<nat>, new r: Result<Option<nat>, AppError>,
      new seg: seq<Event>, new held: Option<nat>, handed: Time)
      requires old(primary) < |pool| && primary < |pool|
      reads this, w, pool, Parts()
    {
      && w.trace == old(w.trace) + seg && Conserved(seg, kind, home, [], held)
      && (held.Some? ==> held.value < |pool| && held.value !in tried)
      && (r.Ok? ==> held == r.value)
      && w.pos >= old(w.pos) && (r.Err? ==> FailedBy(w.script, old(w.pos), w.pos, r.error))
      && AllLater(old(Deadlines()), Deadlines())
      && Relogged(old(Sessions()), Sessions(), w.now, false, apiVersion, configured)
      // the leader was cooling when it was replaced, at `handed`
      && (primary != old(primary) ==>
            && kind != Trading && old(w.now) <= handed <= w.now && pool[old(primary)].InCooldown(handed))
      && (r.Ok? && r.value.Some? && kind == Trading ==> r.value.value == primary)
      && (r.Ok? && r.value.Some? && kind != Trading ==>
            primary == r.value.value || !pool[primary].InCooldown(w.now))
    }

    /** Trading is pinned to the primary slot, cooling or not. */
    method ReserveTrading(tried: seq<nat>, ghost h: Time)
      returns (r: Result<Option<nat>, AppError>, ghost seg: seq<Event>, ghost held: Option<nat>)
      requires Valid()
      modifies w, pacer`waits, Parts()
      ensures Valid() && w.now >= old(w.now) && Reserved(Trading, tried, r, seg, held, w.now)
      ensures r == Ok(None) <==> primary in tried
      ensures r == Ok(None) ==> seg == []
      ensures old(Steady(h)) && FreshUntil(w.script, old(w.now), h) && w.now <= h ==>
                && Steady(h) && Count(seg, LoggedIn) <= 1
                && (r.Ok? && r.value.Some? ==> pool[r.value.value].auth.HasReadySession(h))
    {
      hide FailedBy;
      NothingConserved(Trading, home);
      if primary in tried {
        ReloggedNot(Sessions(), w.now, false, apiVersion, configured);
        return Ok(None), [], None;
      }
      var reserved;
      reserved, seg := ReserveThenFetch(Trading, primary, h);
      r := if reserved.Ok? then Ok(Some(primary)) else Err(reserved.error);
      held := Some(primary);
    }

    /** Where this walk over the pool starts; the next one starts one further. */
    method AdvanceCursor(ghost h: Time) returns (start: U64)
      requires Valid()
      modifies this`cursor
      ensures Deadlines() == old(Deadlines()) && Sessions() == old(Sessions()) && (old(Steady(h)) ==> Steady(h))
      ensures Valid() && start == old(cursor) && cursor == (old(cursor) + 1) % U64_BOUND
    {
      start := cursor;
      cursor := (cursor + 1) % U64_BOUND;
    }

    /** Nothing else could serve: waits, on top of what the passes before have spent. */
    method ReserveLast(
      kind: RateLimitClass, candidates: seq<nat>, tried: seq<nat>, ghost lead: nat, ghost from: nat,
      ghost since: Time,
      ghost sessions: seq<Option<Session>>, ghost t: seq<Event>, ghost before: seq<Event>, ghost h: Time)
      returns (r: Result<Option<nat>, AppError>, ghost seg: seq<Event>, ghost held: Option<nat>, ghost handed: Time)
      requires Valid() && candidates != [] && since <= w.now && lead < |pool| && from <= w.pos
      requires forall k :: 0 <= k < |candidates| ==> candidates[k] < |pool| && candidates[k] !in tried
      requires w.trace == t + before && Conserved(before, kind, home, [], None)
      requires Relogged(sessions, Sessions(), w.now, false, apiVersion, configured)
      requires primary != lead ==> pool[lead].InCooldown(w.now)
      modifies this`primary, w, pacer`waits, Parts()
      ensures Valid() && w.now >= old(w.now) && w.pos >= old(w.pos)
      ensures r.Err? ==> FailedBy(w.script, from, w.pos, r.error)
      ensures w.trace == t + seg && Conserved(seg, kind, home, [], held)
      ensures held.Some? && held.value in candidates && (r.Ok? ==> held == r.value)
      ensures Deadlines() == old(Deadlines()) && w.tries.missed == old(w.tries.missed)
      ensures pacer.waits == old(pacer.waits) + 1 && unchanged(w.watch)
      ensures Relogged(sessions, Sessions(), w.now, false, apiVersion, configured)
      ensures primary != lead ==> since <= handed <= w.now && pool[lead].InCooldown(handed)
      ensures r.Ok? ==> primary == held.value || !pool[primary].InCooldown(w.now)
      ensures pool[held.value].InCooldown(w.now) ==> AllCooling(candidates, old(w.now))
      ensures old(Steady(h)) && FreshUntil(w.script, since, h) && w.now <= h ==>
                && Steady(h)
                && Count(seg, LoggedIn) <=
                   Count(before, LoggedIn) + (if old(SomeReady(candidates, w.now, h)) then 0 else 1)
                && (r.Ok? ==> pool[held.value].auth.HasReadySession(h))
    {
      hide Valid, Steady, Conserved, FreshUntil, Deadlines, Sessions, Relogged, AllCooling, SomeReady, FailedBy;
      LeaderInPool();
      FreshFromHere(since, h);
      ghost var middle, moved := Sessions(), primary != lead;
      handed := w.now;
      var chosen;
      ghost var more, winner;
      chosen, more, winner := ReserveByWaiting(kind, candidates, h);
      ReloggedTwice(sessions, middle, Sessions(), old(w.now), w.now, false, false, apiVersion, configured);
      handed := if moved then handed else w.now;
      ConservedThen(before, more, kind, home, [], None, Some(winner));
      Append3(t, before, more);
      seg, held := before + more, Some(winner);
      r := if chosen.Ok? then Ok(Some(chosen.value)) else Err(chosen.error);
      if chosen.Err? {
        FailedWithin(w.script, from, old(w.pos), w.pos, w.pos, chosen.error);
      }
    }

    lemma SinceDecided()
      requires Valid()
      ensures GrantedFrom(w.cells, w.watch.count, w.watch.ticks) && w.watch.ticks <= w.ticks
      ensures w.now == Calendar(w.ticks)
    {
    }

    /** No candidate could serve at once: logs in on one, or waits for whichever refills first. */
    method ReserveUnready(kind: RateLimitClass, candidates: seq<nat>, tried: seq<nat>, ghost h: Time)
      returns (r: Result<Option<nat>, AppError>, ghost seg: seq<Event>, ghost held: Option<nat>, ghost handed: Time,
               ghost judged: Time)
      requires Valid() && kind != Trading && candidates != []
      requires forall k :: 0 <= k < |candidates| ==> candidates[k] < |pool| && candidates[k] !in tried
      requires w.watch.count == |w.cells| && w.watch.ticks == w.ticks
      modifies this`primary, w, w.tries, pacer, Parts()
      ensures Valid() && w.now >= old(w.now) && Reserved(kind, tried, r, seg, held, handed)
      ensures r != Ok(None) && Grew(old(w.tries.missed), w.tries.missed)
      ensures old(w.now) <= judged <= w.now
      ensures r.Ok? && pool[r.value.value].InCooldown(w.now) ==> AllCooling(candidates, judged)
      // whatever was paid was paid from now on
      ensures old(w.ticks) <= w.ticks && GrantedFrom(w.cells, |old(w.cells)|, old(w.ticks))
      ensures ColdStart(apiVersion, old(Sessions()), old(Deadlines()), ReplyAt(w.script, old(w.pos)))
              && pacer.waits == old(pacer.waits) ==>
                r.Ok? && Lapsed(Sessions(), w.now, old(w.pos), w.pos)
      ensures old(Steady(h)) && FreshUntil(w.script, old(w.now), h) && w.now <= h ==>
                && Steady(h) && Count(seg, LoggedIn) <= 1
                && (r.Ok? ==> pool[r.value.value].auth.HasReadySession(h))
    {
      hide Valid, Steady, Conserved, FreshUntil, Deadlines, AllLater, Grew, Sessions, AllSettled, Relogged;
      hide ColdStart, Lapsed, ReplyAt, World.Valid, Paced, GrantedFrom, FailedBy;
      LeaderInPool();
      ghost var lead, started, from, sessions, spent := primary, w.pos, w.now, Sessions(), w.trace;
      var second;
      ghost var ready;
      second, seg, ready := ReserveAfterLogin(kind, candidates, h);
      handed, judged := w.now, w.now;
      SinceDecided();
      if second.Err? {
        return Err(second.error), seg, None, handed, judged;
      }
      if second.value.Some? {
        return second, seg, second.value, handed, judged;
      }
      r, seg, held, handed := ReserveLast(kind, candidates, tried, lead, started, from, sessions, spent, seg, h);
      SinceDecided();
    }

    /** Reserves a cell of a usable key for non-trading traffic, waiting only when every key is empty. */
    method ReserveSpread(kind: RateLimitClass, candidates: seq<nat>, tried: seq<nat>, ghost h: Time)
      returns (r: Result<Option<nat>, AppError>, ghost seg: seq<Event>, ghost held: Option<nat>, ghost lost: seq<Miss>,
               ghost handed: Time, ghost decided: nat, ghost judged: Time,
               ghost atOnce: bool)
      requires Valid() && kind != Trading && candidates != []
      requires forall k :: 0 <= k < |candidates| ==> candidates[k] < |pool| && candidates[k] !in tried
      modifies this`primary, w, w.watch, w.tries, pacer, Parts()
      ensures Valid() && w.now >= old(w.now) && Reserved(kind, tried, r, seg, held, handed)
      ensures r != Ok(None) && Grew(old(w.tries.missed) + lost, w.tries.missed)
      ensures AllTrue(lost, w.rate, old(w.cells), w.rivals, old(w.tries.count), old(w.tries.count) + |candidates|,
                old(w.ticks), decided)
      ensures atOnce ==>
                && r.Ok? && seg == [KeyCell(Lane(r.value.value, kind))] && w.pos == old(w.pos)
                && pacer.waits == old(pacer.waits)
                && InTurn(
                     candidates, r.value.value, kind, lost, old(Sessions()), old(Deadlines()), old(w.now),
                     Calendar(decided))
      ensures !atOnce ==>
                && AllPassedOver(
                     candidates, kind, lost, old(Sessions()), old(Deadlines()), old(w.now), Calendar(decided))
                && GrantedFrom(w.cells, |old(w.cells)|, decided)
      ensures old(w.ticks) <= decided <= w.ticks && Calendar(decided) <= judged <= w.now
      ensures r.Ok? && pool[r.value.value].InCooldown(w.now) ==> AllCooling(candidates, judged)
      ensures ColdStart(apiVersion, old(Sessions()), old(Deadlines()), ReplyAt(w.script, old(w.pos)))
              && pacer.waits == old(pacer.waits) ==>
                r.Ok? && Lapsed(Sessions(), w.now, old(w.pos), w.pos)
      ensures old(Steady(h)) && FreshUntil(w.script, old(w.now), h) && w.now <= h ==>
                && Steady(h) && Count(seg, LoggedIn) <= 1
                && (r.Ok? ==> pool[r.value.value].auth.HasReadySession(h))
    {
      hide FailedBy, AllTrue, Paced, World.Valid, GrantedFrom;
      hide Valid, Steady, Conserved, FreshUntil, Deadlines, Sessions, AllLater, Grew, AllPassedOver, Relogged;
      LeaderInPool();
      var first;
      ghost var n;
      first, seg, lost, n := ReserveReady(kind, candidates, h);
      SinceDecided();
      decided := w.ticks;
      GrewTwice(w.tries.missed, [], []);
      LaterSame(Deadlines());
      if first.Some? {
        ReservationConserved(kind, home, first.value);
        assert candidates[n] == first.value;
        ReloggedNot(Sessions(), w.now, false, apiVersion, configured);
        assert InTurn(
            candidates, first.value, kind, lost, old(Sessions()), old(Deadlines()), old(w.now), Calendar(decided));
        return Ok(first), seg, first, lost, w.now, w.ticks, w.now, true;
      }
      atOnce := false;
      FreshFromHere(old(w.now), h);
      assert w.trace == old(w.trace) && candidates[..n] == candidates;
      r, seg, held, handed, judged := ReserveUnready(kind, candidates, tried, h);
    }

    ghost predicate UntriedCooling(tried: seq<nat>, t: int)
      reads pool
    {
      forall i :: 0 <= i < |pool| && i !in tried ==> pool[i].InCooldown(t)
    }

    ghost predicate AllTried(tried: seq<nat>) {
      forall i :: 0 <= i < |pool| ==> i in tried
    }

    /** No candidate is left when every key was tried, and only then if the walk covers the pool. */
    lemma WalkTried(start: U64, tried: seq<nat>)
      requires |pool| > 0
      ensures AllTried(tried) ==> Untried(Walk(start, |pool|), tried) == []
      ensures Untried(Walk(start, |pool|), tried) == [] && Covers(start, |pool|) ==> AllTried(tried)
    {
      var order := Walk(start, |pool|);
      var candidates := Untried(order, tried);
      if candidates != [] {
        assert candidates[0] in candidates && candidates[0] in order;
      }
      assert forall i :: i in order && i !in tried ==> i in candidates;
    }

    /** Reserves for non-trading traffic on a walk that begins at `start`. */
    method ReserveFrom(start: U64, kind: RateLimitClass, tried: seq<nat>, ghost h: Time)
      returns (r: Result<Option<nat>, AppError>, ghost seg: seq<Event>, ghost held: Option<nat>, ghost lost: seq<Miss>,
               ghost handed: Time, ghost decided: nat, ghost judged: Time,
               ghost atOnce: bool)
      requires Valid() && kind != Trading
      modifies this`primary, w, w.watch, w.tries, pacer, Parts()
      ensures Valid() && w.now >= old(w.now) && Reserved(kind, tried, r, seg, held, handed)
      ensures Grew(old(w.tries.missed) + lost, w.tries.missed)
      ensures AllTrue(lost, w.rate, old(w.cells), w.rivals, old(w.tries.count), old(w.tries.count) + |pool|,
                old(w.ticks), decided)
      ensures atOnce ==>
                && r.Ok? && r.value.Some? && seg == [KeyCell(Lane(r.value.value, kind))] && w.pos == old(w.pos)
                && pacer.waits == old(pacer.waits)
                && InWalk(
                     Walk(start, |pool|), tried, r.value.value, kind, lost, old(Sessions()), old(Deadlines()),
                     old(w.now), Calendar(decided))
      ensures !atOnce && r != Ok(None) ==> GrantedFrom(w.cells, |old(w.cells)|, decided)
      ensures !atOnce && Covers(start, |pool|) ==>
                NoneCouldServe(kind, tried, lost, old(Sessions()), old(Deadlines()), old(w.now), Calendar(decided))
      ensures old(w.ticks) <= decided <= w.ticks && Calendar(decided) <= judged <= w.now
      ensures r == Ok(None) ==> seg == [] && (Covers(start, |pool|) ==> AllTried(tried))
      ensures AllTried(tried) ==> r == Ok(None)
      ensures r.Ok? && r.value.Some? && Covers(start, |pool|) && pool[r.value.value].InCooldown(w.now) ==>
                UntriedCooling(tried, judged)
      ensures ColdStart(apiVersion, old(Sessions()), old(Deadlines()), ReplyAt(w.script, old(w.pos)))
              && tried == [] && pacer.waits == old(pacer.waits) ==>
                r.Ok? && r.value.Some? && Lapsed(Sessions(), w.now, old(w.pos), w.pos)
      ensures old(Steady(h)) && FreshUntil(w.script, old(w.now), h) && w.now <= h ==>
                && Steady(h) && Count(seg, LoggedIn) <= 1
                && (r.Ok? && r.value.Some? ==> pool[r.value.value].auth.HasReadySession(h))
    {
      hide FailedBy;
      hide Valid, Steady, Conserved, FreshUntil, Deadlines, Sessions, AllLater, Grew, AllPassedOver, NoneCouldServe;
      hide AllTrue, InTurn, InWalk, PassedOver, ColdStart, Lapsed, ReplyAt, Recorded, Paced, World.Valid;
      hide AllTried, Relogged;
      LeaderInPool();
      var candidates := Untried(Walk(start, |pool|), tried);
      WalkTried(start, tried);
      assert forall k :: 0 <= k < |candidates| ==> candidates[k] in candidates;
      NoneMissed(w.rate, w.cells, w.rivals, w.tries.count, w.ticks);
      if candidates == [] {
        NothingConserved(kind, home);
        GrewTwice(w.tries.missed, [], []);
        LaterSame(Deadlines());
        r, seg, held, lost, handed := Ok(None), [], None, [], w.now;
        SinceDecided();
        decided, judged, atOnce := w.ticks, w.now, false;
        NoneLeft(kind, tried, old(Sessions()), old(Deadlines()), old(w.now), Calendar(decided));
        ReloggedNot(Sessions(), w.now, false, apiVersion, configured);
        assert w.tries.missed + lost == w.tries.missed;
        return;
      }
      r, seg, held, lost, handed, decided, judged, atOnce := ReserveSpread(kind, candidates, tried, h);
      Concluded(
        start, kind, tried, lost, old(Sessions()), old(Deadlines()), old(w.now), Calendar(decided), old(w.cells),
        old(w.tries.count), old(w.ticks), decided, if atOnce then Some(r.value.value) else None);
    }

    /** What the first pass over the candidates says of the pool and the walk. */
    lemma Concluded(
      start: U64, kind: RateLimitClass, tried: seq<nat>, lost: seq<Miss>, sessions: seq<Option<Session>>,
      deadlines: seq<Option<nat>>, since: Time, now: Time, cells: seq<Cell>, first: nat, from: nat, until: nat,
      served: Option<nat>)
      requires |pool| > 0
      requires var candidates := Untried(Walk(start, |pool|), tried);
               && AllTrue(lost, w.rate, cells, w.rivals, first, first + |candidates|, from, until)
               && if served.Some? then InTurn(candidates, served.value, kind, lost, sessions, deadlines, since, now)
                  else AllPassedOver(candidates, kind, lost, sessions, deadlines, since, now)
      ensures AllTrue(lost, w.rate, cells, w.rivals, first, first + |pool|, from, until)
      ensures served.Some? ==>
                InWalk(Walk(start, |pool|), tried, served.value, kind, lost, sessions, deadlines, since, now)
      ensures served.None? && Covers(start, |pool|) ==>
                NoneCouldServe(kind, tried, lost, sessions, deadlines, since, now)
    {
      var order := Walk(start, |pool|);
      var candidates := Untried(order, tried);
      AllTrueWider(lost, w.rate, cells, w.rivals, first, first + |candidates|, first + |pool|, from, until);
      if served.Some? {
        InTurnOfWalk(order, tried, served.value, kind, lost, sessions, deadlines, since, now);
      } else if Covers(start, |pool|) {
        assert forall i :: 0 <= i < |pool| && i !in tried ==> i in order;
        NoneServes(candidates, kind, tried, lost, sessions, deadlines, since, now);
      }
    }

    ghost predicate NoneCouldServe(
      kind: RateLimitClass, tried: seq<nat>, lost: seq<Miss>, sessions: seq<Option<Session>>,
      deadlines: seq<Option<nat>>, since: Time, now: Time)
    {
      forall i :: 0 <= i < |pool| && i !in tried ==> PassedOver(Lane(i, kind), lost, sessions, deadlines, since, now)
    }

    /** Some untried key can serve at once. */
    ghost predicate CanServe(
      kind: RateLimitClass, tried: seq<nat>, sessions: seq<Option<Session>>, deadlines: seq<Option<nat>>, since: Time,
      now: Time, cells: seq<Cell>, ticks: nat)
    {
      exists i :: 0 <= i < |pool| && i !in tried
               && Serviceable(Lane(i, kind), sessions, deadlines, since, now, w.rate, cells, ticks)
    }

    lemma OneServes(
      kind: RateLimitClass, tried: seq<nat>, lost: seq<Miss>, sessions: seq<Option<Session>>,
      deadlines: seq<Option<nat>>, since: Time, now: Time, cells: seq<Cell>, ticks: nat, first: nat, until: nat)
      requires AllTrue(lost, w.rate, cells, w.rivals, first, first + |pool|, ticks, until)
      ensures NoRivals(w.rivals, first, first + |pool|)
              && CanServe(kind, tried, sessions, deadlines, since, now, cells, ticks) ==>
                !NoneCouldServe(kind, tried, lost, sessions, deadlines, since, now)
    {
      if NoRivals(w.rivals, first, first + |pool|)
         && CanServe(kind, tried, sessions, deadlines, since, now, cells, ticks) {
        var i :| 0 <= i < |pool| && i !in tried
          && Serviceable(Lane(i, kind), sessions, deadlines, since, now, w.rate, cells, ticks);
        ServiceableServes(
          Lane(i, kind), lost, sessions, deadlines, since, now, w.rate, cells, w.rivals, first, first + |pool|, ticks,
          until);
      }
    }

    lemma NoneLeft(
      kind: RateLimitClass, tried: seq<nat>, sessions: seq<Option<Session>>, deadlines: seq<Option<nat>>, since: Time,
      now: Time)
      ensures AllTried(tried) ==> NoneCouldServe(kind, tried, [], sessions, deadlines, since, now)
    {
    }

    lemma NoneServes(
      candidates: seq<nat>, kind: RateLimitClass, tried: seq<nat>, lost: seq<Miss>, sessions: seq<Option<Session>>,
      deadlines: seq<Option<nat>>, since: Time, now: Time)
      requires AllPassedOver(candidates, kind, lost, sessions, deadlines, since, now)
      requires forall i :: 0 <= i < |pool| && i !in tried ==> i in candidates
      ensures NoneCouldServe(kind, tried, lost, sessions, deadlines, since, now)
    {
    }

    /**
     * Reserves a cell for one attempt: the primary's for trading, and otherwise the best untried
     * key's. It logs in or waits only when no untried key could serve at once, and a cooling key
     * serves only when every untried key was cooling, provided the walk from the cursor covers the
     * pool; one reservation logs in on at most one key, provided the ready sessions and the ones the
     * server issues stay fresh until `h`.
     */
    method ReserveSlot(kind: RateLimitClass, tried: seq<nat>, ghost h: Time)
      returns (r: Result<Option<nat>, AppError>, ghost seg: seq<Event>, ghost held: Option<nat>, ghost lost: seq<Miss>,
               ghost handed: Time, ghost decided: nat, ghost judged: Time,
               ghost atOnce: bool)
      requires Valid()
      modifies this`primary, this`cursor, w, w.watch, w.tries, pacer, Parts()
      ensures Valid() && w.now >= old(w.now) && Reserved(kind, tried, r, seg, held, handed)
      ensures Grew(old(w.tries.missed) + lost, w.tries.missed)
      // a bucket that gave nothing was really asked, and had nothing then or lost it to another caller
      ensures kind != Trading ==>
                AllTrue(lost, w.rate, old(w.cells), w.rivals, old(w.tries.count), old(w.tries.count) + |pool|,
                  old(w.ticks), decided)
      // served at once: in its turn, without any traffic and without a wait
      ensures atOnce ==>
                && kind != Trading && r.Ok? && r.value.Some?
                && seg == [KeyCell(Lane(r.value.value, kind))] && w.pos == old(w.pos) && pacer.waits == old(pacer.waits)
                && InWalk(
                     Walk(old(cursor), |pool|), tried, r.value.value, kind, lost, old(Sessions()), old(Deadlines()),
                     old(w.now), Calendar(decided))
      // or no untried key could serve at `decided`, before anything of this reservation was paid
      ensures kind != Trading && !atOnce && Covers(old(cursor), |pool|) ==>
                NoneCouldServe(kind, tried, lost, old(Sessions()), old(Deadlines()), old(w.now), Calendar(decided))
      ensures kind != Trading && !atOnce && r != Ok(None) ==> GrantedFrom(w.cells, |old(w.cells)|, decided)
      // so a key that can serve at once is enough, unless another caller is first at one of its tries
      ensures kind != Trading && Covers(old(cursor), |pool|)
              && NoRivals(w.rivals, old(w.tries.count), old(w.tries.count) + |pool|)
              && CanServe(
                   kind, tried, old(Sessions()), old(Deadlines()), old(w.now), Calendar(decided), old(w.cells),
                   old(w.ticks)) ==>
                atOnce
      ensures kind != Trading ==> old(w.ticks) <= decided <= w.ticks && Calendar(decided) <= judged <= w.now
      ensures cursor == if kind == Trading then old(cursor) else (old(cursor) + 1) % U64_BOUND
      ensures r == Ok(None) ==> seg == []
      ensures r == Ok(None) && kind == Trading ==> primary in tried
      ensures r == Ok(None) && kind != Trading && Covers(old(cursor), |pool|) ==> AllTried(tried)
      ensures kind != Trading && AllTried(tried) ==> r == Ok(None)
      ensures kind != Trading && r.Ok? && r.value.Some? && Covers(old(cursor), |pool|)
              && pool[r.value.value].InCooldown(w.now) ==>
                UntriedCooling(tried, judged)
      ensures kind != Trading && ColdStart(apiVersion, old(Sessions()), old(Deadlines()), ReplyAt(w.script, old(w.pos)))
              && tried == [] && pacer.waits == old(pacer.waits) ==>
                r.Ok? && r.value.Some? && Lapsed(Sessions(), w.now, old(w.pos), w.pos)
      ensures old(Steady(h)) && FreshUntil(w.script, old(w.now), h) && w.now <= h ==>
                && Steady(h) && Count(seg, LoggedIn) <= 1
                && (r.Ok? && r.value.Some? ==> pool[r.value.value].auth.HasReadySession(h))
    {
      hide FailedBy;
      hide Valid, Steady, Conserved, FreshUntil, NoneCouldServe, AllTried, Covers, Deadlines, Sessions, Relogged, Wired;
      hide GrantedFrom, World.Valid, Paced, InWalk, AllTrue, CanServe, NoRivals, UntriedCooling, ColdStart, Lapsed;
      hide ReplyAt, AllLater, Recorded;
      LeaderInPool();
      if kind == Trading {
        lost := [];
        r, seg, held := ReserveTrading(tried, h);
        handed, decided, judged, atOnce := w.now, w.ticks, w.now, false;
        return;
      }
      var start := AdvanceCursor(h);
      r, seg, held, lost, handed, decided, judged, atOnce := ReserveFrom(start, kind, tried, h);
      OneServes(
        kind, tried, lost, old(Sessions()), old(Deadlines()), old(w.now), Calendar(decided), old(w.cells), old(w.ticks),
        old(w.tries.count), decided);
    }

    // ---- accounts --------------------------------------------------------------------------

    /** Points the client at an account and at that account's bucket, in one step. */
    method SelectAccount(accountId: string)
      requires Valid()
      modifies this`selected, registry
      ensures Valid()
      ensures selected.id == accountId
      ensures forall a :: a in old(registry.buckets) ==>
                a in registry.buckets && registry.buckets[a] == old(registry.buckets[a])
    {
      hide Wired;
      var bucket := registry.BuildAccountLimiter(accountId);
      selected := SelectedAccount(accountId, bucket);
    }

    /**
     * Switches every later request to an account: on v3 without any traffic and without touching a
     * session, on v2 through the server and only for a pool of one key.
     */
    method SwitchAccount(accountId: string, defaultAccount: Option<bool>, ghost h: Time)
      returns (r: Result<(), AppError>, ghost seg: seq<Event>)
      requires Valid()
      modifies this`selected, registry, w, Parts()
      ensures Valid() && w.now >= old(w.now)
      ensures w.trace == old(w.trace) + seg
      ensures r.Ok? ==> selected.id == accountId
      ensures r.Err? ==> selected == old(selected) && registry.buckets == old(registry.buckets)
      ensures defaultAccount == Some(true) || (apiVersion != 3 && |pool| > 1) ==> r == Err(InvalidInput) && seg == []
      ensures apiVersion == 3 && defaultAccount != Some(true) ==>
                && r.Ok? && seg == []
                && forall i :: 0 <= i < |pool| ==> pool[i].auth.session == old(pool[i].auth.session)
      ensures apiVersion != 3 && r.Ok? ==>
                && pool[primary].auth.session.Some? && pool[primary].auth.session.value.accountId == accountId
                // and the server keeps that session on the account
                && primary in w.server && w.server[primary].account == accountId
    {
      seg := [];
      if defaultAccount == Some(true) {
        return Err(InvalidInput), seg;
      }
      if apiVersion != 3 {
        if |pool| > 1 {
          return Err(InvalidInput), seg;
        }
        var switched;
        switched, seg := pool[primary].auth.SwitchAccount(accountId, h);
        if switched.Err? {
          return Err(switched.error), seg;
        }
      }
      SelectAccount(accountId);
      return Ok(()), seg;
    }

    /** A result handed to the caller is the network's answer to the last thing sent. */
    ghost predicate Delivers(r: Result<Reply, AppError>)
      reads w
    {
      r.Ok? ==> w.pos > 0 && r == Answer(ReplyAt(w.script, w.pos - 1))
    }

    lemma ErrorsDeliver(e: AppError)
      ensures Delivers(Err(e))
    {
    }

    // ---- one attempt -----------------------------------------------------------------------

    /** A slot without a ready session, whose login the server is about to refuse. */
    ghost predicate Refused(i: nat)
      reads w, pool, set slot: KeySlot | slot in pool :: slot.auth
    {
      && i < |pool| && apiVersion == 3 && !pool[i].auth.HasReadySession(w.now)
      && Judge(ReplyAt(w.script, w.pos)).Fail?
    }

    /**
     * One attempt on a slot whose cell is already reserved: its session, the account in force with
     * its own bucket, then the paced sends. Without a session nothing is sent.
     */
    method RequestOnSlot(i: nat, kind: RateLimitClass, retry: RetryConfig, ghost h: Time)
      returns (r: Result<Reply, AppError>, header: Option<string>,
               ghost e: Entry, ghost fetched: seq<Event>, ghost sent: seq<Event>)
      requires Valid() && i < |pool|
      modifies w, pool[i].auth
      ensures Valid() && w.now >= old(w.now)
      ensures w.trace == old(w.trace) + (fetched + sent) && Deadlines() == old(Deadlines())
      ensures SessionOnly(fetched, i, Some(home)) && Paid(sent, kind, i, selected.bucket, e.attempt.sends)
      ensures e.attempt.slot == i && e.attempt.error == ErrorOf(r) && !e.attempt.refreshed && e.at == w.now
      ensures e.header == header && e.selected == selected.id && e.bucket == selected.bucket
      ensures e.attempt.sends <= retry.MaxRetries() + 1 && (e.attempt.sends == 0 ==> r.Err?)
      ensures SentWith(e, old(Sessions())[i], false, apiVersion, configured)
      ensures Relogged(old(Sessions()), Sessions(), w.now, false, apiVersion, configured)
      ensures Delivers(r)
      ensures Explained(w.script, e) && e.pos == e.until == w.pos >= old(w.pos) && e.refresh.None?
      ensures Throttled(e.attempt.error) && e.attempt.sends > 0 ==> e.attempt.sends == retry.MaxRetries() + 1
      ensures old(Refused(i)) ==>
                && e.attempt.sends == 0 && r == Err(Judge(ReplyAt(w.script, old(w.pos))).error)
                && w.pos == old(w.pos) + 1 && !pool[i].auth.HasReadySession(w.now)
      ensures old(Steady(h)) && FreshUntil(w.script, old(w.now), h) && w.now <= h ==>
                && Steady(h)
                && (old(pool[i].auth.HasReadySession(h)) ==>
                      e.attempt.sends > 0 && pool[i].auth.HasReadySession(h))
    {
      hide SessionOnly, Costs, FreshUntil, StopsAfter, Backoffs, RequestTrace, Sessions, Deadlines, Relogged, SentWith;
      hide OauthSettled, Judge, ReplyAt, Delivers, Session.InsideMargin, Steady, FailedBy, Reports, Throttled,
        Explained, Paced, Recorded, World.Valid, Valid;
      LeaderInPool();
      ghost var start, refused := w.pos, Refused(i);
      ghost var sessions := Sessions();
      header, sent := None, [];
      var session;
      if w.now <= h {
        AllReadyEarlier(w.now, h);
      }
      session, fetched := FetchSession(i, h);
      if refused {
        RefusedLogin(w.script, start, w.pos, configured, w.now, session);
      }
      if session.Err? {
        r := Err(session.error);
        LeaderInPool();
        e := Entry(
          Attempt(i, 0, ErrorOf(r), false), None, None, None, selected.id, selected.bucket, w.now, w.pos, None, w.pos);
        NotSentExplained(w.script, start, e, session.error);
        ErrorsDeliver(session.error);
        NothingSentWith(e, sessions[i], apiVersion, configured);
        Append3(old(w.trace), fetched, []);
        return;
      }
      SlotFacts(i);
      ghost var fetchedSessions, fetchedAt := Sessions(), w.now;
      var account := selected;
      header := if session.value.IsOauth() then Some(account.id) else None;
      var c := Call(i, kind, Some(account.bucket), None);
      ghost var delays;
      r, delays := SendPaced(c, retry, h);
      LeaderInPool();
      sent := RequestTrace(c, true, delays);
      e := Entry(
        Attempt(i, |delays| + 1, ErrorOf(r), false), Some(session.value), StandsFor(i), header, account.id,
        account.bucket, w.now, w.pos, None, w.pos);
      SentExplained(w.script, e, r);
      SentWithFetched(e, sessions, fetchedSessions, fetchedAt, apiVersion, configured);
      ReloggedNot(fetchedSessions, w.now, false, apiVersion, configured);
      ReloggedTwice(
        sessions, fetchedSessions, fetchedSessions, fetchedAt, w.now, false, false, apiVersion, configured);
      RequestCosts(c, true, delays);
      Append3(old(w.trace), fetched, sent);
    }

    /** What the server keeps for a slot's key. */
    ghost function StandsFor(i: nat): Option<Standing>
      reads w
    {
      if i in w.server then Some(w.server[i]) else None
    }

    lemma NotSentExplained(script: seq<Reply>, start: nat, e: Entry, error: AppError)
      requires FailedBy(script, start, e.pos, error)
      requires e.attempt.sends == 0 && e.attempt.error == Some(error)
      ensures Explained(script, e)
    {
    }

    lemma SentExplained(script: seq<Reply>, e: Entry, r: Result<Reply, AppError>)
      requires e.attempt.sends > 0 && e.attempt.error == ErrorOf(r) && e.pos > 0
      requires Reports(ReplyAt(script, e.pos - 1), r)
      ensures Explained(script, e)
    {
      ReportsFacts(ReplyAt(script, e.pos - 1), r);
    }

    lemma ThrottledIsResendable(reply: Reply, r: Result<Reply, AppError>)
      requires Reports(reply, r)
      ensures Throttled(ErrorOf(r)) ==> Resendable(reply)
    {
      assert r.Err? ==> r == Err(r.error);
    }

    /** The paced sends of one attempt: no session, cooldown or account changes meanwhile. */
    method SendPaced(c: Call, retry: RetryConfig, ghost h: Time)
      returns (r: Result<Reply, AppError>, ghost delays: seq<nat>)
      requires Valid() && c.session.None?
      modifies w
      ensures Valid() && w.now >= old(w.now)
      ensures w.trace == old(w.trace) + RequestTrace(c, true, delays)
      ensures |delays| <= retry.MaxRetries() && Delivers(r)
      ensures w.pos == old(w.pos) + |delays| + 1 && w.server == old(w.server)
      ensures Reports(ReplyAt(w.script, w.pos - 1), r)
      ensures |delays| < retry.MaxRetries() ==> !Throttled(ErrorOf(r))
      ensures Deadlines() == old(Deadlines()) && Sessions() == old(Sessions())
      ensures old(Steady(h)) ==> Steady(h)
    {
      hide StopsAfter, RequestTrace, Stood, Reports, Resendable;
      r, delays := MakeHttpRequestPaced(w, c, retry, true);
      StoodFacts(old(w.server), c.SendEvent(), ReplyAt(w.script, w.pos - 1));
      ThrottledIsResendable(ReplyAt(w.script, w.pos - 1), r);
      AllReadyEarlier(old(w.now), w.now);
    }

    // ---- the whole request -----------------------------------------------------------------

    function PlanFor(kind: RateLimitClass, policy: RequestPolicy): Plan {
      Plan(|pool|, w.retry.MaxRetries(), policy, kind)
    }

    /** No candidate was left on the walk from `start`. */
    ghost predicate Starved(kind: RateLimitClass, s: State, start: U64)
      reads this`cursor
    {
      && |pool| > 0 && s.replayOn.None?
      && (kind == Trading ==> s.tried != [])
      && (kind != Trading ==>
            cursor == (start + 1) % U64_BOUND && (Covers(start, |pool|) ==> AllTried(s.tried)))
    }

    /** The slot of the next attempt, with its cell: the pinned one of a replay, or a new reservation. */
    method ReserveNext(kind: RateLimitClass, s: State, ghost h: Time)
      returns (r: Result<Option<nat>, AppError>, ghost seg: seq<Event>, ghost held: Option<nat>)
      requires Valid() && (s.replayOn.Some? ==> s.replayOn.value < |pool|)
      modifies this`primary, this`cursor, w, w.watch, w.tries, pacer, Parts()
      ensures Valid() && w.now >= old(w.now)
      ensures w.pos >= old(w.pos) && (r.Err? ==> FailedBy(w.script, old(w.pos), w.pos, r.error))
      ensures w.trace == old(w.trace) + seg && Conserved(seg, kind, home, [], held)
      ensures r.Ok? ==> held == r.value && (held.Some? ==> held.value < |pool|)
      ensures r == Ok(None) ==> seg == []
      ensures s.replayOn.Some? ==> r == Ok(s.replayOn)
      ensures r.Ok? && r.value.Some? && s.replayOn.None? ==> r.value.value !in s.tried
      ensures AllLater(old(Deadlines()), Deadlines())
      ensures Relogged(old(Sessions()), Sessions(), w.now, false, apiVersion, configured)
      ensures cursor == if kind == Trading || s.replayOn.Some? then old(cursor) else (old(cursor) + 1) % U64_BOUND
      ensures r == Ok(None) ==> Starved(kind, s, old(cursor))
      ensures s.replayOn.Some? ==> Sessions() == old(Sessions()) && w.pos == old(w.pos)
      // a login whose session does not last still gets its request a cell
      ensures kind != Trading && ColdStart(apiVersion, old(Sessions()), old(Deadlines()), ReplyAt(w.script, old(w.pos)))
              && s == START && pacer.waits == old(pacer.waits) ==>
                r.Ok? && r.value.Some? && Lapsed(Sessions(), w.now, old(w.pos), w.pos)
      ensures old(Steady(h)) && FreshUntil(w.script, old(w.now), h) && w.now <= h
              && (s.replayOn.Some? ==> old(ReadyAt(s.replayOn.value, h))) ==>
                && Steady(h)
                && (r.Ok? && r.value.Some? ==> pool[r.value.value].auth.HasReadySession(h))
    {
      hide Conserved, FreshUntil, Deadlines, Sessions, AllLater, Relogged, FailedBy;
      LaterSame(Deadlines());
      if s.replayOn.Some? {
        var pinned := s.replayOn.value;
        seg := Reserve(pinned, kind, h);
        ReservationConserved(kind, home, pinned);
        ReloggedNot(Sessions(), w.now, false, apiVersion, configured);
        return Ok(Some(pinned)), seg, Some(pinned);
      }
      ghost var lost, handed, decided, judged, atOnce;
      r, seg, held, lost, handed, decided, judged, atOnce := ReserveSlot(kind, s.tried, h);
    }

    /** No retries while another key is left to try, nor for a single attempt. */
    function RetryFor(kind: RateLimitClass, policy: RequestPolicy, s: State, i: nat): (retry: RetryConfig)
      ensures retry.MaxRetries() == RetryBudget(PlanFor(kind, policy), s, i)
    {
      if Rotates(PlanFor(kind, policy), s, i) || policy == SingleAttempt then RetryConfig(Some(0), None) else w.retry
    }

    /** Replaces the session of one slot, ready or not. */
    method RefreshSession(i: nat, ghost h: Time) returns (r: Result<Session, AppError>, ghost seg: seq<Event>)
      requires Valid() && i < |pool|
      modifies w, pool[i].auth
      ensures Valid() && w.now >= old(w.now)
      ensures w.trace == old(w.trace) + seg && SessionOnly(seg, i, Some(home))
      ensures Deadlines() == old(Deadlines()) && w.pos > old(w.pos)
      ensures if r.Ok? then Count(seg, LoggedIn) >= 1 else FailedBy(w.script, old(w.pos), w.pos, r.error)
      ensures Relogged(old(Sessions()), Sessions(), w.now, true, apiVersion, configured)
      ensures apiVersion == 3 && ShortLived(ReplyAt(w.script, old(w.pos))) ==>
                r.Ok? && w.pos == old(w.pos) + 1 && !pool[i].auth.HasReadySession(w.now)
      ensures old(Steady(h)) && FreshUntil(w.script, old(w.now), h) && w.now <= h ==>
                Steady(h) && (r.Ok? ==> ReadyAt(i, h))
    {
      hide SessionOnly, FreshUntil, OauthSettled, ShortLived, ReplyAt, FailedBy, Recorded, Paced;
      r, seg := pool[i].auth.ForceRefresh(h);
      AllReadyEarlier(old(w.now), w.now);
      if apiVersion == 3 && ShortLived(ReplyAt(w.script, old(w.pos))) {
        ShortLivedIsStale(w.script, old(w.pos), w.pos, configured, w.now, r);
      }
    }

    /**
     * What the loop makes of an attempt's result. A key whose allowance was refused is parked
     * whether or not the request can move on; a rejected session is replaced on the slot it
     * belongs to, once; everything else is the caller's.
     */
    method React(
      i: nat, kind: RateLimitClass, policy: RequestPolicy, s: State, result: Result<Reply, AppError>,
      ghost made: Entry, ghost h: Time)
      returns (r: Result<Reply, AppError>, next: State, ghost e: Entry, ghost seg: seq<Event>)
      requires Valid() && i < |pool|
      requires made.attempt.slot == i && made.attempt.error == ErrorOf(result) && !made.attempt.refreshed
      requires Legal(PlanFor(kind, policy), s, made.attempt) && made.at == w.now
      requires made.pos == w.pos && made.refresh.None? && Explained(w.script, made)
      modifies w, pool[i], pool[i].auth
      ensures Valid() && w.now >= old(w.now)
      ensures w.trace == old(w.trace) + seg && SessionOnly(seg, i, Some(home))
      ensures e == made.(attempt := made.attempt.(refreshed := e.attempt.refreshed), refresh := e.refresh,
                         until := w.pos)
      ensures w.pos >= old(w.pos) && Explained(w.script, e) && Answered401(w.script, policy, !s.replayed, e)
      ensures r.Err? ==> e.Cause() == Some(r.error)
      ensures e.attempt.refreshed ==> Count(seg, LoggedIn) >= 1
      ensures Legal(PlanFor(kind, policy), s, e.attempt) && next == Next(PlanFor(kind, policy), s, e.attempt)
      ensures old(Delivers(result)) ==> Delivers(r)
      ensures (r.Ok? <==> e.attempt.error.None?) && (r.Ok? ==> next.finished)
      ensures AllLater(old(Deadlines()), Deadlines()) && ParkedBy(Deadlines(), e)
      ensures made.attempt.error != Some(ApiKeyAllowanceExceeded) ==> Deadlines() == old(Deadlines())
      ensures apiVersion == 3 && Replays(PlanFor(kind, policy), s, made.attempt.error)
              && ShortLived(ReplyAt(w.script, old(w.pos))) ==>
                e.attempt.refreshed && w.pos == old(w.pos) + 1 && !pool[i].auth.HasReadySession(w.now)
      ensures !Replays(PlanFor(kind, policy), s, made.attempt.error) ==> w.pos == old(w.pos)
      // a session is only thrown away for the refresh, or for good
      ensures Relogged(
                old(Sessions()), Sessions(), w.now, e.attempt.refreshed || next.finished, apiVersion, configured)
      ensures old(Steady(h)) && FreshUntil(w.script, old(w.now), h) && w.now <= h ==>
                Steady(h) && (next.replayOn.Some? ==> ReadyAt(next.replayOn.value, h))
    {
      hide SessionOnly, FreshUntil, ShortLived, ReplyAt, Valid, Steady, Delivers, AllLater, Sessions, Relogged, ReadyAt;
      hide FailedBy, Reports, Recorded, Paced, World.Valid;
      SessionOnlyLoggedIn(i, Some(home));
      LaterSame(Deadlines());
      ReloggedNot(Sessions(), w.now, true, apiVersion, configured);
      ReloggedNot(Sessions(), w.now, false, apiVersion, configured);
      var tried := Entered(s, i);
      var refreshed := false;
      ghost var failed: Option<AppError> := None;
      r, seg := result, [];
      next := State(tried, s.replayed, None, true);
      if result == Err(ApiKeyAllowanceExceeded) {
        Park(i, h);
        if Rotates(PlanFor(kind, policy), s, i) {
          next := State(tried, s.replayed, None, false);
        }
      } else if result.Err? && AuthRejected(Some(result.error)) && policy == Standard && !s.replayed {
        var session;
        session, seg := RefreshSession(i, h);
        if session.Err? {
          r := Err(session.error);
          failed := Some(session.error);
        } else {
          refreshed := true;
          next := State(tried, true, Some(i), false);
        }
      }
      if r.Err? {
        ErrorsDeliver(r.error);
      }
      e := made.(attempt := made.attempt.(refreshed := refreshed), refresh := failed, until := w.pos);
      assert Explained(w.script, made) ==> Explained(w.script, e);
    }

    lemma LegalAttempt(p: Plan, s: State, a: Attempt)
      requires !s.finished && a.slot < p.pool && !a.refreshed
      requires if s.replayOn.Some? then a.slot == s.replayOn.value else a.slot !in s.tried
      requires a.sends <= RetryBudget(p, s, a.slot) + 1
      requires a.error == None ==> a.sends > 0
      requires Throttled(a.error) && a.sends > 0 ==> a.sends == RetryBudget(p, s, a.slot) + 1
      ensures Legal(p, s, a)
    {
    }

    /** One attempt with its cell reserved: the sends, and what their result leads to. */
    method AttemptOn(
      i: nat, kind: RateLimitClass, policy: RequestPolicy, s: State, ghost reserved: seq<Event>, ghost h: Time)
      returns (r: Result<Reply, AppError>, next: State, ghost e: Entry, ghost seg: seq<Event>)
      requires Valid() && i < |pool| && !s.finished
      requires if s.replayOn.Some? then i == s.replayOn.value else i !in s.tried
      requires Conserved(reserved, kind, home, [], Some(i))
      modifies w, pool[i], pool[i].auth
      ensures Valid() && old(w.now) <= e.at <= w.now
      ensures w.trace == old(w.trace) + seg && Conserved(reserved + seg, kind, home, [e], None)
      ensures e.attempt.slot == i && e.selected == selected.id && e.bucket == selected.bucket
      ensures SentWith(e, old(Sessions())[i], false, apiVersion, configured)
      ensures Relogged(
                old(Sessions()), Sessions(), w.now, e.attempt.refreshed || next.finished, apiVersion, configured)
      ensures Legal(PlanFor(kind, policy), s, e.attempt) && next == Next(PlanFor(kind, policy), s, e.attempt)
      ensures AllLater(old(Deadlines()), Deadlines()) && ParkedBy(Deadlines(), e)
      ensures (r.Ok? <==> e.attempt.error.None?) && (r.Ok? ==> next.finished)
      ensures Delivers(r)
      ensures w.pos >= old(w.pos) && e.until == w.pos
      ensures Explained(w.script, e) && Answered401(w.script, policy, !s.replayed, e)
      ensures r.Err? ==> e.Cause() == Some(r.error)
      ensures e.attempt.refreshed ==> Count(seg, LoggedIn) >= 1
      // a refused login loses the cell, and a refresh that does not last leaves the slot as it was
      ensures old(Refused(i)) ==>
                && e.attempt.sends == 0 && e.attempt.error == Some(Judge(ReplyAt(w.script, old(w.pos))).error)
                && (Replays(PlanFor(kind, policy), s, e.attempt.error)
                    && ShortLived(ReplyAt(w.script, old(w.pos) + 1)) ==>
                      e.attempt.refreshed && w.pos == old(w.pos) + 2 && !pool[i].auth.HasReadySession(w.now))
      ensures old(Steady(h)) && FreshUntil(w.script, old(w.now), h) && w.now <= h
              && old(pool[i].auth.HasReadySession(h)) ==>
                && Steady(h) && e.attempt.sends > 0
                && (next.replayOn.Some? ==> ReadyAt(next.replayOn.value, h))
    {
      hide Valid, Steady, Conserved, SessionOnly, FreshUntil, Paid, Deadlines, AllLater, Parked, Delivers;
      hide Sessions, Relogged, SentWith, Legal, Next, Judge, ReplyAt, ShortLived, Replays;
      hide Explained, Answered401, Throttled, Paced, Recorded, World.Valid;
      ghost var sessions := Sessions();
      var header, result;
      ghost var made, fetched, sent;
      result, header, made, fetched, sent := RequestOnSlot(i, kind, RetryFor(kind, policy, s, i), h);
      ghost var middle, sentAt := Sessions(), w.now;
      FreshFromHere(old(w.now), h);
      LegalAttempt(PlanFor(kind, policy), s, made.attempt);
      ghost var more;
      r, next, e, more := React(i, kind, policy, s, result, made, h);
      ReloggedTwice(
        sessions, middle, Sessions(), sentAt, w.now, false, e.attempt.refreshed || next.finished, apiVersion,
        configured);
      SentWithSame(made, e, sessions[i], apiVersion, configured);
      seg := fetched + sent + more;
      Append3(old(w.trace), fetched + sent, more);
      CountConcat(fetched + sent, more);
      AttemptThen(reserved, fetched, sent, more, kind, home, e);
    }

    /** What other callers select before attempt `k`: on v3 the client's account can move at any time. */
    method FollowSwitch(switches: nat -> Option<string>, k: nat, ghost h: Time)
      requires Valid()
      modifies this`selected, registry
      ensures Valid() && (old(Steady(h)) ==> Steady(h))
      ensures selected.id == if apiVersion == 3 && switches(k).Some? then switches(k).value else old(selected.id)
      ensures selected.id in registry.buckets && registry.buckets[selected.id] == selected.bucket
      ensures Extends(old(registry.buckets), registry.buckets)
    {
      if apiVersion == 3 {
        var target := switches(k);
        if target.Some? {
          SelectAccount(target.value);
        }
      }
    }

    /** An attempt with the account in force, on top of the reservation that went before. */
    method AttemptInForce(
      i: nat, kind: RateLimitClass, policy: RequestPolicy, s: State, switches: nat -> Option<string>, k: nat,
      ghost since: Time, ghost start: seq<Option<nat>>, ghost sessions: seq<Option<Session>>, ghost t: seq<Event>,
      ghost reserved: seq<Event>, ghost h: Time)
      returns (r: Result<Reply, AppError>, next: State, ghost e: Entry, ghost seg: seq<Event>)
      requires Valid() && i < |pool| && !s.finished && since <= w.now
      requires if s.replayOn.Some? then i == s.replayOn.value else i !in s.tried
      requires w.trace == t + reserved && Conserved(reserved, kind, home, [], Some(i))
      requires AllLater(start, Deadlines()) && Relogged(sessions, Sessions(), w.now, false, apiVersion, configured)
      modifies this`selected, registry, w, pool[i], pool[i].auth
      ensures Valid() && since <= e.at <= w.now && old(w.now) <= w.now
      ensures w.trace == t + seg && Conserved(seg, kind, home, [e], None)
      ensures Legal(PlanFor(kind, policy), s, e.attempt) && next == Next(PlanFor(kind, policy), s, e.attempt)
      ensures e.attempt.slot == i && ParkedBy(Deadlines(), e)
      ensures AllLater(start, Deadlines()) && Extends(old(registry.buckets), registry.buckets)
      ensures e.selected == selected.id && selected.id in registry.buckets && e.bucket == registry.buckets[selected.id]
      ensures |sessions| == |pool| && SentWith(e, sessions[i], false, apiVersion, configured)
      ensures Relogged(sessions, Sessions(), w.now, next.finished || e.attempt.refreshed, apiVersion, configured)
      ensures selected.id == if apiVersion == 3 && switches(k).Some? then switches(k).value else old(selected.id)
      ensures (r.Ok? <==> e.attempt.error.None?) && (r.Ok? ==> next.finished) && Delivers(r)
      ensures w.pos >= old(w.pos) && e.until == w.pos
      ensures Explained(w.script, e) && Answered401(w.script, policy, !s.replayed, e)
      ensures r.Err? ==> e.Cause() == Some(r.error)
      ensures old(Steady(h)) && FreshUntil(w.script, since, h) && w.now <= h && old(pool[i].auth.HasReadySession(h)) ==>
                && Steady(h) && e.attempt.sends > 0
                && (next.replayOn.Some? ==> ReadyAt(next.replayOn.value, h))
    {
      hide Valid, Steady, Conserved, FreshUntil, Deadlines, AllLater, Parked, Delivers, Sessions, Relogged, SentWith;
      hide Legal, Next, ReadyAt, ShortLived, ReplyAt, Judge, Replays, Refused, Wired, World.Valid, Paced,
        Explained, Answered401, Recorded;
      FreshFromHere(since, h);
      SessionsFit(sessions);
      ghost var second, reached, from := Deadlines(), Sessions(), w.now;
      FollowSwitch(switches, k, h);
      ghost var more;
      r, next, e, more := AttemptOn(i, kind, policy, s, reserved, h);
      LaterStill(start, second, Deadlines());
      ReloggedTwice(
        sessions, reached, Sessions(), from, w.now, false, e.attempt.refreshed || next.finished, apiVersion,
        configured);
      SentWithEarlier(e, sessions, reached, from, false, apiVersion, configured);
      Append3(t, reserved, more);
      seg := reserved + more;
    }

    lemma SessionsFit(sessions: seq<Option<Session>>)
      requires Relogged(sessions, Sessions(), w.now, false, apiVersion, configured)
      ensures |sessions| == |pool|
    {
    }

    /** One turn of the loop: a reserved slot, the account in force, and the attempt on it. */
    method OneAttempt(
      kind: RateLimitClass, policy: RequestPolicy, s: State, switches: nat -> Option<string>, k: nat, ghost h: Time)
      returns (r: Result<Reply, AppError>, next: State, ghost entry: Option<Entry>, ghost seg: seq<Event>,
               ghost held: Option<nat>, ghost starved: bool)
      requires Valid() && !s.finished && (s.replayOn.Some? ==> s.replayOn.value < |pool|)
      modifies this`primary, this`cursor, this`selected, registry, w, w.watch, w.tries, pacer, Parts()
      ensures Valid() && w.now >= old(w.now) && w.trace == old(w.trace) + seg
      ensures entry.None? ==>
                && r.Err? && next == s.(finished := true) && selected == old(selected)
                && Conserved(seg, kind, home, [], held)
      ensures entry.Some? ==>
                && held == None && !starved
                && Conserved(seg, kind, home, [entry.value], None)
                && Legal(PlanFor(kind, policy), s, entry.value.attempt)
                && next == Next(PlanFor(kind, policy), s, entry.value.attempt)
      ensures starved ==>
                held == None && r == Err(ApiKeyAllowanceExceeded) && seg == [] && Starved(kind, s, old(cursor))
      ensures entry.Some? ==> ParkedBy(Deadlines(), entry.value)
      ensures AllLater(old(Deadlines()), Deadlines()) && Extends(old(registry.buckets), registry.buckets)
      ensures entry.Some? ==>
                && entry.value.selected == selected.id && selected.id in registry.buckets
                && entry.value.bucket == registry.buckets[selected.id]
      ensures entry.Some? ==>
                && entry.value.attempt.slot < |pool|
                && old(w.now) <= entry.value.at <= w.now
                && SentWith(entry.value, old(Sessions())[entry.value.attempt.slot], false, apiVersion, configured)
      ensures Relogged(
                old(Sessions()), Sessions(), w.now,
                next.finished || (entry.Some? && entry.value.attempt.refreshed), apiVersion, configured)
      ensures entry.Some? ==>
                selected.id == if apiVersion == 3 && switches(k).Some? then switches(k).value else old(selected.id)
      ensures r.Ok? <==> entry.Some? && entry.value.attempt.error.None?
      ensures r.Ok? ==> next.finished
      ensures Delivers(r)
      // without an attempt the reservation failed, for a reason among the replies it used
      ensures w.pos >= old(w.pos)
      ensures entry.None? && !starved ==> r.Err? && FailedBy(w.script, old(w.pos), w.pos, r.error)
      ensures entry.Some? ==>
                && entry.value.until == w.pos && Explained(w.script, entry.value)
                && Answered401(w.script, policy, !s.replayed, entry.value)
                && (r.Err? ==> entry.value.Cause() == Some(r.error))
      ensures old(Steady(h)) && FreshUntil(w.script, old(w.now), h) && w.now <= h
              && (s.replayOn.Some? ==> old(ReadyAt(s.replayOn.value, h))) ==>
                && Steady(h) && (entry.Some? ==> entry.value.attempt.sends > 0)
                && (entry.Some? && next.replayOn.Some? ==> ReadyAt(next.replayOn.value, h))
    {
      hide Valid, Steady, Conserved, FreshUntil, Deadlines, AllLater, Parked, Delivers, Sessions, Relogged, SentWith;
      hide Starved, Legal, Next, ReadyAt, ShortLived, ReplyAt, Judge, Replays, Lapsed, ColdStart, Refused,
        FailedBy, Explained, Answered401, Recorded, World.Valid, Paced;
      hide Wired, World.Valid, Paced;
      LeaderInPool();
      ghost var first, sessions, from, trace := Deadlines(), Sessions(), w.now, w.trace;
      entry, starved := None, false;
      next := s.(finished := true);
      var slot;
      slot, seg, held := ReserveNext(kind, s, h);
      ReloggedAnyway(sessions, Sessions(), w.now, apiVersion, configured);
      if slot.Err? {
        r := Err(slot.error);
        ErrorsDeliver(slot.error);
        return;
      }
      if slot.value.None? {
        starved := true;
        r := Err(ApiKeyAllowanceExceeded);
        ErrorsDeliver(ApiKeyAllowanceExceeded);
        return;
      }
      var i := slot.value.value;
      assert pool[i] in pool;
      ghost var e;
      r, next, e, seg := AttemptInForce(i, kind, policy, s, switches, k, from, first, sessions, trace, seg, h);
      entry, held := Some(e), None;
    }

    /** The last walk began so near the end of the 64-bit range that it left a key out. */
    ghost predicate CursorBroke()
      reads this`cursor
    {
      |pool| > 0 && exists start: U64 :: cursor == (start + 1) % U64_BOUND && !RoundIsWhole(start, |pool|)
    }

    /** When the walk covers the pool, a request that goes on finds a candidate. */
    lemma NotStarved(p: Plan, t: seq<Event>, entries: seq<Entry>, s: State, start: U64)
      requires Valid() && p.pool == |pool|
      requires Books(p, home, t, entries, s, None) && !s.finished && Starved(p.kind, s, start)
      ensures p.kind != Trading && CursorBroke()
    {
      NeverOutOfSlots(p, RunOf(entries));
      RunIsSane(p, RunOf(entries));
      CoversIffWhole(start, |pool|);
    }

    /** The account that is selected at attempt `k`: on v3 it follows the switches, on v2 it stays. */
    function AccountAt(start: string, switches: nat -> Option<string>, k: nat): string {
      if apiVersion == 3 then InForce(start, switches, k) else start
    }

    /**
     * What every attempt leaves behind: a key that refused its allowance is parked; the selected
     * account was the one in force and its own bucket paid; and the sends went out with the session
     * the key held when the request began or one a login left, the account header on OAuth sessions.
     */
    ghost predicate ServedBy(
      deadlines: seq<Option<nat>>, buckets: map<string, nat>, id: string, sessions: seq<Option<Session>>,
      entries: seq<Entry>, start: string, switches: nat -> Option<string>)
    {
      && (forall k :: 0 <= k < |entries| ==> ParkedBy(deadlines, entries[k]))
      && (forall k :: 0 <= k < |entries| ==>
            && entries[k].selected == AccountAt(start, switches, k)
            && entries[k].selected in buckets && buckets[entries[k].selected] == entries[k].bucket)
      && AllSentWith(entries, sessions, apiVersion, configured)
      && id == if entries == [] then start else entries[|entries| - 1].selected
    }

    /** On v3 every send is for the account in force, and that account's bucket pays. */
    lemma SentForAccountInForce(
      deadlines: seq<Option<nat>>, buckets: map<string, nat>, id: string, sessions: seq<Option<Session>>,
      entries: seq<Entry>, start: string, switches: nat -> Option<string>, k: nat)
      requires apiVersion == 3 && ServedBy(deadlines, buckets, id, sessions, entries, start, switches)
      requires k < |entries| && entries[k].attempt.sends > 0
      ensures entries[k].header == Some(InForce(start, switches, k))
      ensures entries[k].Account() in buckets && buckets[entries[k].Account()] == entries[k].bucket
    {
      SentForSelected(entries[k], sessions[entries[k].attempt.slot], Refreshed(entries[..k]), configured);
    }

    /** Every key holds a v2 session on an account that stays outside its margin up to `h`. */
    ghost predicate AllOn(sessions: seq<Option<Session>>, account: string, h: Time) {
      forall i :: 0 <= i < |sessions| ==>
        && sessions[i].Some? && !sessions[i].value.InsideMargin(h)
        && !sessions[i].value.IsOauth() && sessions[i].value.accountId == account
    }

    /**
     * What a v2 caller can know beforehand: with all sessions on the selected account and fresh up to
     * `h`, every send that is over by then is for it and its own bucket pays, up to a forced refresh.
     * A single attempt is never refreshed.
     */
    lemma SentForKeptAccount(
      deadlines: seq<Option<nat>>, buckets: map<string, nat>, id: string, sessions: seq<Option<Session>>,
      entries: seq<Entry>, start: string, switches: nat -> Option<string>, k: nat, now: Time, h: Time)
      requires apiVersion != 3 && ServedBy(deadlines, buckets, id, sessions, entries, start, switches)
      requires AllOn(sessions, start, h) && AllBy(entries, now) && now <= h
      requires k < |entries| && entries[k].attempt.sends > 0 && !Refreshed(entries[..k])
      ensures entries[k].header == None && entries[k].Account() == start
      ensures start in buckets && buckets[start] == entries[k].bucket
    {
      FreshSessionKeepsAccount(entries[k], sessions[entries[k].attempt.slot], apiVersion, configured, h);
    }

    /** Every send was for the account in force at its attempt. */
    ghost predicate InForceThroughout(entries: seq<Entry>, start: string, switches: nat -> Option<string>) {
      forall k :: 0 <= k < |entries| && entries[k].attempt.sends > 0 ==>
        && entries[k].header == Some(InForce(start, switches, k))
        && entries[k].session.Some? && entries[k].Account() == InForce(start, switches, k)
    }

    lemma AllForAccountInForce(
      deadlines: seq<Option<nat>>, buckets: map<string, nat>, id: string, sessions: seq<Option<Session>>,
      entries: seq<Entry>, start: string, switches: nat -> Option<string>)
      requires ServedBy(deadlines, buckets, id, sessions, entries, start, switches)
      ensures apiVersion == 3 ==> InForceThroughout(entries, start, switches)
    {
      forall k | apiVersion == 3 && 0 <= k < |entries| && entries[k].attempt.sends > 0
        ensures entries[k].header == Some(InForce(start, switches, k)) && entries[k].session.Some?
        ensures entries[k].Account() == InForce(start, switches, k)
      {
        SentForAccountInForce(deadlines, buckets, id, sessions, entries, start, switches, k);
      }
    }

    /** Deadlines that only moved on, and a registry that only grew, take nothing back. */
    lemma ServedStays(
      d: seq<Option<nat>>, e: seq<Option<nat>>, b: map<string, nat>, c: map<string, nat>, id: string,
      sessions: seq<Option<Session>>, entries: seq<Entry>, start: string, switches: nat -> Option<string>)
      requires AllLater(d, e) && Extends(b, c)
      ensures ServedBy(d, b, id, sessions, entries, start, switches) ==>
                ServedBy(e, c, id, sessions, entries, start, switches)
    {
      hide SentWith;
    }

    lemma InForceNext(start: string, switches: nat -> Option<string>, k: nat)
      ensures InForce(start, switches, k) ==
              if switches(k).Some? then switches(k).value
              else if k == 0 then start else InForce(start, switches, k - 1)
    {
    }

    lemma ServedNext(
      d: seq<Option<nat>>, b: map<string, nat>, id: string, next: string, sessions: seq<Option<Session>>,
      reached: seq<Option<Session>>, t: Time, entries: seq<Entry>, e: Entry, start: string,
      switches: nat -> Option<string>)
      requires ServedBy(d, b, id, sessions, entries, start, switches) && ParkedBy(d, e)
      requires next == if apiVersion == 3 && switches(|entries|).Some? then switches(|entries|).value else id
      requires e.selected == next && next in b && b[next] == e.bucket
      requires Relogged(sessions, reached, t, Refreshed(entries), apiVersion, configured)
      requires e.attempt.slot < |reached| && t <= e.at
      requires SentWith(e, reached[e.attempt.slot], false, apiVersion, configured)
      ensures ServedBy(d, b, next, sessions, entries + [e], start, switches)
    {
      hide AllSentWith, SentWith, Refreshed, Parked, InForce, Relogged;
      AllSentWithNext(entries, e, sessions, reached, t, apiVersion, configured);
      InForceNext(start, switches, |entries|);
      var all := entries + [e];
      assert forall k :: 0 <= k < |entries| ==> all[k] == entries[k];
    }

    predicate ReadyAt(i: nat, h: Time)
      reads pool, set s: KeySlot | s in pool :: s.auth
    {
      i < |pool| && pool[i].auth.HasReadySession(h)
    }

    function PlanOf(m: Method, path: string, asked: RequestPolicy): Plan {
      PlanFor(ClassifyEndpoint(m, path), EffectivePolicy(m, path, asked))
    }

    /**
     * A mutation of positions or working orders, a mutation with a percent-escape in its path, and
     * whatever a caller asks to send once: one attempt, at most one send, no refresh and no rotation.
     */
    lemma {:induction false} OrdersAreSentOnce(
      m: Method, path: string, asked: RequestPolicy, t: seq<Event>, entries: seq<Entry>, held: Option<nat>)
      requires || asked == SingleAttempt
               || (m.IsMutation()
                   && ('%' in path || Contains(path, "positions/otc") || Contains(path, "workingorders/otc")))
      requires Ending(PlanOf(m, path, asked), RunOf(entries), held.Some?)
      requires Conserved(t, ClassifyEndpoint(m, path), home, entries, held)
      ensures BusinessSends(t) <= 1 && |entries| <= 1 && LostCells(RunOf(entries), held.Some?) <= 1
      ensures forall k :: 0 <= k < |entries| ==> !entries[k].attempt.refreshed
    {
      RequestAccounting(PlanOf(m, path, asked), t, home, entries, held);
    }

    /** One turn of the loop, entered in the books. */
    method Turn(
      kind: RateLimitClass, policy: RequestPolicy, s: State, switches: nat -> Option<string>, k: nat,
      ghost account: string, ghost sessions: seq<Option<Session>>, ghost before: seq<Entry>, ghost t: seq<Event>,
      ghost h: Time)
      returns (r: Result<Reply, AppError>, next: State, ghost entries: seq<Entry>, ghost more: seq<Event>,
               ghost held: Option<nat>, ghost starved: bool)
      requires Valid() && !s.finished && k == |before| && !Answered(before)
      requires Books(PlanFor(kind, policy), home, t, before, s, None)
      requires ServedBy(Deadlines(), registry.buckets, selected.id, sessions, before, account, switches)
      requires Relogged(sessions, Sessions(), w.now, Refreshed(before), apiVersion, configured)
      requires AllBy(before, w.now) && AllExplained(w.script, policy, before, w.pos)
      modifies this`primary, this`cursor, this`selected, registry, w, w.watch, w.tries, pacer, Parts()
      ensures Valid() && w.now >= old(w.now) && w.trace == old(w.trace) + more
      ensures |entries| <= k + 1 && k <= |pool|
      ensures Books(PlanFor(kind, policy), home, t + more, entries, next, held)
      ensures Measure(PlanFor(kind, policy), s) >= 0
      ensures !next.finished ==>
                && Measure(PlanFor(kind, policy), s) > Measure(PlanFor(kind, policy), next)
                && |entries| == k + 1 && held == None && !starved
      ensures ServedBy(Deadlines(), registry.buckets, selected.id, sessions, entries, account, switches)
      ensures !next.finished ==> Relogged(sessions, Sessions(), w.now, Refreshed(entries), apiVersion, configured)
      ensures AllBy(entries, w.now) && w.pos >= old(w.pos) && AllExplained(w.script, policy, entries, w.pos)
      ensures next.finished && r.Err? ==>
                Justified(PlanFor(kind, policy), w.script, r.error, entries, starved, old(w.pos), w.pos)
      ensures starved ==> CursorBroke()
      ensures held.Some? ==> r.Err?
      ensures r.Ok? <==> Answered(entries)
      ensures (r.Ok? ==> next.finished) && Delivers(r)
      ensures old(Steady(h)) && FreshUntil(w.script, old(w.now), h) && w.now <= h && AllSent(before)
              && (s.replayOn.Some? ==> old(ReadyAt(s.replayOn.value, h))) ==>
                && AllSent(entries)
                && (!next.finished ==> Steady(h) && (next.replayOn.Some? ==> ReadyAt(next.replayOn.value, h)))
    {
      hide Valid, Books, ServedBy, Deadlines, Extends, AllLater, Legal, Next, Conserved, Parked, Steady, FreshUntil,
        Delivers, AllSent, ReadyAt, Measure, CursorBroke, Starved, Sessions, Relogged, SentWith, Refreshed, AllBy,
        Paced, World.Valid, Recorded, Explained, Answered401, FailedBy, AllExplained, Justified, Run, After, GoesOn;
      LeaderInPool();
      ghost var p := PlanFor(kind, policy);
      PinnedInPool(p, home, t, before, s);
      BooksFew(p, home, t, before, s);
      ReplayedIsRefreshed(p, home, t, before, s);
      ghost var used := w.pos;
      ghost var start, reached, entered := cursor, Sessions(), w.now;
      ghost var deadlines, buckets, id := Deadlines(), registry.buckets, selected.id;
      ghost var entry;
      r, next, entry, more, held, starved := OneAttempt(kind, policy, s, switches, k, h);
      ServedStays(deadlines, Deadlines(), buckets, registry.buckets, id, sessions, before, account, switches);
      AllByLater(before, entered, w.now);
      if entry.Some? {
        BooksAttempt(p, home, t, more, before, s, entry.value);
        ServedNext(
          Deadlines(), registry.buckets, id, selected.id, sessions, reached, entered, before, entry.value, account,
          switches);
        RefreshedNext(before, entry.value);
        AllExplainedNext(w.script, policy, before, entry.value, used, w.pos, !s.replayed);
        BooksAreRun(p, home, t + more, before + [entry.value], next);
        if next.finished && r.Err? {
          JustifiedByAttempt(p, w.script, r.error, before, entry.value, starved, used, w.pos);
        }
        AllByNext(before, entry.value, w.now);
        if !next.finished {
          ReloggedTwice(
            sessions, reached, Sessions(), entered, w.now, Refreshed(before), entry.value.attempt.refreshed, apiVersion,
            configured);
        }
        AllSentNext(before, entry.value);
        entries := before + [entry.value];
      } else {
        BooksAreRun(p, home, t, before, s);
        BooksEnd(p, home, t, more, before, s, held);
        JustifiedByReservation(p, w.script, policy, r.error, before, starved, used, w.pos);
        AllExplainedLater(w.script, policy, before, used, w.pos);
        entries := before;
        if starved {
          NotStarved(p, t, before, s, start);
        }
      }
    }

    ghost predicate Served(
      entries: seq<Entry>, sessions: seq<Option<Session>>, start: string, switches: nat -> Option<string>)
      reads pool, registry, this`selected
    {
      ServedBy(Deadlines(), registry.buckets, selected.id, sessions, entries, start, switches)
    }

    lemma NothingServed(switches: nat -> Option<string>)
      ensures Served([], Sessions(), selected.id, switches) && AllSent([])
    {
    }

    /**
     * One business request, whatever the network, the sessions and the other callers do. Its
     * attempts are a run of the request machine and its books balance; only a reservation whose
     * session could not be fetched ends it owing a cell, and then it fails.
     */
    method RequestInternal(
      m: Method, path: string, asked: RequestPolicy, switches: nat -> Option<string>, ghost h: Time)
      returns (r: Result<Reply, AppError>, ghost entries: seq<Entry>, ghost seg: seq<Event>,
               ghost held: Option<nat>, ghost starved: bool, ghost turns: nat, ghost since: nat)
      requires Valid()
      modifies this`primary, this`cursor, this`selected, registry, w, w.watch, w.tries, pacer, Parts()
      ensures Valid() && w.now >= old(w.now) && w.trace == old(w.trace) + seg
      ensures Ending(PlanOf(m, path, asked), RunOf(entries), held.Some?)
      ensures Conserved(seg, ClassifyEndpoint(m, path), home, entries, held)
      ensures BusinessSends(seg) <= SendBound(PlanOf(m, path, asked))
      ensures |entries| <= turns <= |pool| + 1
      // a single-attempt request loses one cell at most
      ensures PlanOf(m, path, asked).policy == SingleAttempt ==> LostCells(RunOf(entries), held.Some?) <= 1
      ensures r.Ok? <==> Answered(entries)
      ensures Delivers(r)
      // every attempt goes on, and every error is told, for a reason; `since` is where the last turn began
      ensures MovesOnlyFor(PlanOf(m, path, asked), RunOf(entries))
      ensures AllExplained(w.script, EffectivePolicy(m, path, asked), entries, w.pos)
      ensures old(w.pos) <= since <= w.pos
      ensures r.Err? ==> Justified(PlanOf(m, path, asked), w.script, r.error, entries, starved, since, w.pos)
      ensures held.Some? ==> r.Err?
      // the pool never runs out of candidates, unless the cursor wraps in the middle of a broken round
      ensures starved ==> CursorBroke()
      ensures AllBy(entries, w.now)
      ensures Served(entries, old(Sessions()), old(selected.id), switches)
      // on v3 the header is that of the account in force, whatever logins and refreshes came between
      ensures apiVersion == 3 ==> InForceThroughout(entries, old(selected.id), switches)
      ensures old(Steady(h)) && FreshUntil(w.script, old(w.now), h) && w.now <= h ==> AllSent(entries)
    {
      hide Valid, Books, ServedBy, Deadlines, Legal, Next, Conserved, Parked, Steady, FreshUntil, Delivers, AllSent,
        ReadyAt, InForceThroughout, Measure, CursorBroke, Sessions, Relogged, Ending, LostCells;
      hide World.Valid, Paced, Recorded, AllExplained, Justified, MovesOnlyFor, Run, After;
      LeaderInPool();
      NothingServed(switches);
      NothingExplained(w.script, EffectivePolicy(m, path, asked), w.pos);
      since := w.pos;
      ErrorsDeliver(ApiKeyAllowanceExceeded);
      var kind, policy := ClassifyEndpoint(m, path), EffectivePolicy(m, path, asked);
      ghost var p := PlanFor(kind, policy);
      var s, k := START, 0;
      ghost var account, sessions := selected.id, Sessions();
      entries, seg, held, starved := [], [], None, false;
      r := Err(ApiKeyAllowanceExceeded);
      BooksOpen(p, home);
      ReloggedNot(sessions, w.now, false, apiVersion, configured);
      while !s.finished
        invariant Valid() && w.now >= old(w.now) && w.trace == old(w.trace) + seg
        invariant Books(p, home, seg, entries, s, held) && Served(entries, sessions, account, switches)
        invariant !s.finished ==> Relogged(sessions, Sessions(), w.now, Refreshed(entries), apiVersion, configured)
        invariant AllBy(entries, w.now) && AllExplained(w.script, policy, entries, w.pos)
        invariant old(w.pos) <= since <= w.pos
        invariant s.finished && r.Err? ==> Justified(p, w.script, r.error, entries, starved, since, w.pos)
        invariant !s.finished ==> k == |entries| && held == None && !Answered(entries)
        invariant |entries| <= k <= |pool| + 1
        invariant r.Ok? <==> Answered(entries)
        invariant Delivers(r)
        invariant held.Some? ==> r.Err?
        invariant starved ==> CursorBroke()
        invariant old(Steady(h)) && FreshUntil(w.script, old(w.now), h) && w.now <= h ==>
                    && AllSent(entries)
                    && (!s.finished ==> Steady(h) && (s.replayOn.Some? ==> ReadyAt(s.replayOn.value, h)))
        decreases if s.finished then 0 else Measure(p, s) + 1
      {
        FreshFromHere(old(w.now), h);
        ghost var more;
        since := w.pos;
        r, s, entries, more, held, starved :=
          Turn(kind, policy, s, switches, k, account, sessions, entries, seg, h);
        Append3(old(w.trace), seg, more);
        seg := seg + more;
        k := k + 1;
      }
      turns := k;
      AllForAccountInForce(Deadlines(), registry.buckets, selected.id, sessions, entries, account, switches);
      BooksClose(p, home, seg, entries, s, held);
      EndingIsRun(p, RunOf(entries), held.Some?);
      RunsMoveOnlyFor(p, RunOf(entries));
    }
  }
}
