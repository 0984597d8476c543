/**
 * Live quotes on demand: at most `capacity` instruments are subscribed at once and the one used
 * least recently makes room. Each call holds the streamer's lock, so calls are atomic; sessions
 * and subscriptions may end at any time in between.
 */
module QuoteStreamer {
  import opened Errors
  import opened Machine
  import opened Wrappers

  // ---- which instruments are held ------------------------------------------------------------

  predicate Distinct(s: seq<string>) {
    forall i, j :: 0 <= i < j < |s| ==> s[i] != s[j]
  }

  function Take(s: seq<string>, n: nat): (t: seq<string>)
    ensures |t| == Min(|s|, n) && forall i :: 0 <= i < |t| ==> t[i] == s[i]
  {
    if n < |s| then s[..n] else s
  }

  function Without(s: seq<string>, epic: string): (t: seq<string>)
    ensures forall e :: e in t <==> e in s && e != epic
    ensures Distinct(s) ==> Distinct(t)
    ensures Distinct(s) ==> |t| == if epic in s then |s| - 1 else |s|
  {
    if s == [] then []
    else
      assert s == [s[0]] + s[1..];
      var rest := Without(s[1..], epic);
      if s[0] == epic then rest else
        assert Distinct(s) ==> Distinct(s[1..]) && s[0] !in s[1..];
        var t := [s[0]] + rest;
        assert Distinct(s) ==> forall j :: 0 < j < |t| ==> t[j] in rest && t[j] != t[0];
        t
  }

  /** What a successful request leaves: its EPIC in front, and as many of the others as there is room for. */
  function Touch(order: seq<string>, epic: string, capacity: nat): seq<string>
    requires capacity > 0
  {
    [epic] + Take(Without(order, epic), capacity - 1)
  }

  /** The EPICs of a sequence of requests, each once, the most recently requested first. */
  function Recent(calls: seq<string>): (r: seq<string>)
    ensures Distinct(r) && forall e :: e in r <==> e in calls
  {
    if calls == [] then [] else
      var k := |calls| - 1;
      assert calls == calls[..k] + [calls[k]];
      [calls[k]] + Without(Recent(calls[..k]), calls[k])
  }

  /** What is held after a sequence of successful requests. */
  function HeldAfter(calls: seq<string>, capacity: nat): seq<string>
    requires capacity > 0
  {
    if calls == [] then [] else Touch(HeldAfter(calls[..|calls| - 1], capacity), calls[|calls| - 1], capacity)
  }

  /** Truncating before an EPIC is moved to the front loses nothing that would be kept afterwards. */
  lemma {:induction false} TakeThenWithout(s: seq<string>, epic: string, n: nat)
    requires Distinct(s) && n > 0
    ensures Take(Without(Take(s, n), epic), n - 1) == Take(Without(s, epic), n - 1)
  {
    if |s| <= n {
      assert Take(s, n) == s;
    } else if s[0] == epic {
      assert Take(s, n) == s[..n] && s[..n][1..] == s[1..n];
      WithoutAbsent(s[1..], epic);
      WithoutAbsent(s[1..n], epic);
    } else if n > 1 {
      assert Take(s, n)[1..] == Take(s[1..], n - 1);
      TakeThenWithout(s[1..], epic, n - 1);
      TakeCons(s[0], Without(Take(s[1..], n - 1), epic), n - 1);
      TakeCons(s[0], Without(s[1..], epic), n - 1);
    }
  }

  lemma TakeCons(x: string, s: seq<string>, n: nat)
    requires n > 0
    ensures Take([x] + s, n) == [x] + Take(s, n - 1)
  {
  }

  lemma {:induction false} WithoutAbsent(s: seq<string>, epic: string)
    requires epic !in s
    ensures Without(s, epic) == s
  {
    if s != [] {
      WithoutAbsent(s[1..], epic);
    }
  }

  /** With no failure, the held EPICs are exactly the most recent distinct ones, as many as fit. */
  lemma {:induction false} HeldAreTheMostRecent(calls: seq<string>, capacity: nat)
    requires capacity > 0
    ensures HeldAfter(calls, capacity) == Take(Recent(calls), capacity)
  {
    if calls != [] {
      var k := |calls| - 1;
      HeldAreTheMostRecent(calls[..k], capacity);
      TakeThenWithout(Recent(calls[..k]), calls[k], capacity);
    }
  }

  /** A larger capacity holds the same EPICs in the same order, and perhaps more after them. */
  lemma {:induction false} LargerHoldsMore(calls: seq<string>, capacity: nat, larger: nat)
    requires 0 < capacity <= larger
    ensures HeldAfter(calls, capacity) <= HeldAfter(calls, larger)
    ensures forall e :: e in HeldAfter(calls, capacity) ==> e in HeldAfter(calls, larger)
  {
    HeldAreTheMostRecent(calls, capacity);
    HeldAreTheMostRecent(calls, larger);
  }

  /** The distinct EPICs requested after the last request for `epic`. */
  function Since(calls: seq<string>, epic: string): set<string> {
    if calls == [] || calls[|calls| - 1] == epic then {}
    else Since(calls[..|calls| - 1], epic) + {calls[|calls| - 1]}
  }

  /** The elements that stand before `epic`. */
  function Front(s: seq<string>, epic: string): (front: set<string>)
    ensures forall e :: e in front ==> e in s && e != epic
  {
    if s == [] || s[0] == epic then {} else {s[0]} + Front(s[1..], epic)
  }

  lemma {:induction false} FrontWithout(s: seq<string>, epic: string, other: string)
    requires epic != other
    ensures Front(Without(s, other), epic) == Front(s, epic) - {other}
  {
    if s != [] && s[0] != epic {
      FrontWithout(s[1..], epic, other);
      if s[0] != other {
        assert Without(s, other)[1..] == Without(s[1..], other);
      }
    }
  }

  lemma {:induction false} FrontSize(s: seq<string>, epic: string)
    requires Distinct(s) && epic in s
    ensures |Front(s, epic)| < |s| && s[|Front(s, epic)|] == epic
  {
    if s[0] != epic {
      FrontSize(s[1..], epic);
      assert |Front(s, epic)| == 1 + |Front(s[1..], epic)|;
    }
  }

  /** An EPIC's rank is the number of distinct EPICs requested since. */
  lemma {:induction false} RankIsSince(calls: seq<string>, epic: string)
    ensures epic in calls ==> Front(Recent(calls), epic) == Since(calls, epic)
  {
    if calls != [] {
      var k := |calls| - 1;
      assert calls == calls[..k] + [calls[k]];
      if calls[k] != epic {
        RankIsSince(calls[..k], epic);
        FrontWithout(Recent(calls[..k]), epic, calls[k]);
        assert Recent(calls)[1..] == Without(Recent(calls[..k]), calls[k]);
      }
    }
  }

  /** An EPIC is held exactly when fewer than `capacity` others were requested since. */
  lemma HeldIff(calls: seq<string>, epic: string, capacity: nat)
    requires capacity > 0
    ensures epic in HeldAfter(calls, capacity) <==> epic in calls && |Since(calls, epic)| < capacity
  {
    HeldAreTheMostRecent(calls, capacity);
    RankIsSince(calls, epic);
    if epic in calls {
      var r := Recent(calls);
      FrontSize(r, epic);
      assert |Since(calls, epic)| < capacity ==> Take(r, capacity)[|Since(calls, epic)|] == epic;
    }
  }

  // ---- runs with failures --------------------------------------------------------------------

  /** How a request ended: no session, an EPIC the server would not take, or a live subscription. */
  datatype Outcome = NoSession | Refused | Served

  /** One request: its EPIC, whether the session had been lost before it, and its outcome. */
  datatype Asked = Asked(epic: string, lost: bool, outcome: Outcome)

  /** The held EPICs after one request, failed or not, the most recently used first. */
  function Track(order: seq<string>, a: Asked, capacity: nat): seq<string>
    requires capacity > 0
  {
    var kept := if a.lost then [] else order;
    match a.outcome
    case NoSession => []
    case Refused => Take(Without(kept, a.epic), capacity - 1)
    case Served => Touch(kept, a.epic, capacity)
  }

  function TrackAll(asked: seq<Asked>, capacity: nat): seq<string>
    requires capacity > 0
  {
    if asked == [] then [] else Track(TrackAll(asked[..|asked| - 1], capacity), asked[|asked| - 1], capacity)
  }

  function EpicsOf(asked: seq<Asked>): (calls: seq<string>)
    ensures |calls| == |asked| && forall k :: 0 <= k < |calls| ==> calls[k] == asked[k].epic
  {
    if asked == [] then [] else EpicsOf(asked[..|asked| - 1]) + [asked[|asked| - 1].epic]
  }

  /** In every run, failures included, the cap holds, and a served EPIC is held, in front. */
  lemma {:induction false} CapHolds(asked: seq<Asked>, capacity: nat)
    requires capacity > 0
    ensures |TrackAll(asked, capacity)| <= capacity && Distinct(TrackAll(asked, capacity))
    ensures asked != [] && asked[|asked| - 1].outcome == Served ==>
              TrackAll(asked, capacity) != [] && TrackAll(asked, capacity)[0] == asked[|asked| - 1].epic
  {
    if asked != [] {
      CapHolds(asked[..|asked| - 1], capacity);
      TrackKeepsDistinct(TrackAll(asked[..|asked| - 1], capacity), asked[|asked| - 1], capacity);
    }
  }

  lemma TrackKeepsDistinct(order: seq<string>, a: Asked, capacity: nat)
    requires capacity > 0 && Distinct(order)
    ensures Distinct(Track(order, a, capacity))
  {
    var kept := if a.lost then [] else order;
    var others := Without(kept, a.epic);
    var taken := Take(others, capacity - 1);
    forall i | 0 <= i < |taken|
      ensures taken[i] != a.epic
    {
      assert taken[i] == others[i] && others[i] in others;
    }
  }

  /** When every request is served and only the first one opens a session, the run is the plain one. */
  lemma {:induction false} FailureFree(asked: seq<Asked>, capacity: nat)
    requires capacity > 0
    requires forall k :: 0 <= k < |asked| ==> asked[k].outcome == Served && (k > 0 ==> !asked[k].lost)
    ensures TrackAll(asked, capacity) == HeldAfter(EpicsOf(asked), capacity) == Take(Recent(EpicsOf(asked)), capacity)
  {
    HeldAreTheMostRecent(EpicsOf(asked), capacity);
    if asked != [] {
      FailureFree(asked[..|asked| - 1], capacity);
      assert EpicsOf(asked)[..|asked| - 1] == EpicsOf(asked[..|asked| - 1]);
    }
  }

  /**
   * An EPIC is only dropped with its session, by its own refusal, or as the least recently used one
   * of a full house when another EPIC needs its place.
   */
  lemma DroppedOnlyFor(order: seq<string>, a: Asked, capacity: nat, epic: string)
    requires Distinct(order) && 0 < capacity && |order| <= capacity && epic in order
    requires epic !in Track(order, a, capacity)
    ensures a.lost || a.outcome == NoSession || (a.outcome == Refused && a.epic == epic)
         || (|order| == capacity && epic == order[capacity - 1] && a.epic !in order)
  {
    if !a.lost && a.outcome != NoSession && epic != a.epic {
      CutOff(Without(order, a.epic), epic, capacity - 1);
      if a.epic !in order {
        WithoutAbsent(order, a.epic);
      }
    }
  }

  /** Room is made before the server is asked: a refused newcomer still costs a full house its last one. */
  lemma RefusedStillMakesRoom(order: seq<string>, epic: string, capacity: nat)
    requires 0 < capacity && |order| == capacity && epic !in order
    ensures Track(order, Asked(epic, false, Refused), capacity) == order[..capacity - 1]
  {
    WithoutAbsent(order, epic);
  }

  lemma CutOff(s: seq<string>, e: string, n: nat)
    requires e in s && e !in Take(s, n)
    ensures |s| > n && (|s| == n + 1 ==> e == s[n])
  {
    var i :| 0 <= i < |s| && s[i] == e;
    assert i < |Take(s, n)| ==> Take(s, n)[i] == e;
  }

  // ---- the streamer --------------------------------------------------------------------------

  /** One subscription: when it was last asked for, and whether its task has ended. */
  datatype Entry = Entry(lastUsed: nat, finished: bool)

  datatype State = Idle | Open(alive: bool) | Closed

  /** What the server lets one request do. */
  datatype Server = Server(opens: bool, takesItem: bool, subscribes: bool)

  /** Each was used strictly later than the ones after it. */
  ghost predicate Falling(entries: map<string, Entry>, order: seq<string>) {
    && (forall i :: 0 <= i < |order| ==> order[i] in entries)
    && (forall i, j :: 0 <= i < j < |order| ==> entries[order[i]].lastUsed > entries[order[j]].lastUsed)
  }

  ghost predicate Later(entries: map<string, Entry>, now: nat) {
    forall e :: e in entries ==> entries[e].lastUsed < now
  }

  /** `order` lists the held EPICs by last use, strictly the most recent first. */
  ghost predicate Ranks(entries: map<string, Entry>, order: seq<string>) {
    && Distinct(order)
    && (forall e :: e in order <==> e in entries)
    && Falling(entries, order)
  }

  lemma {:induction false} RanksSize(entries: map<string, Entry>, order: seq<string>)
    requires Distinct(order) && forall e :: e in order <==> e in entries
    ensures |order| == |entries|
  {
    if order == [] {
      assert entries.Keys == {};
      assert |entries.Keys| == |entries|;
    } else {
      var k := |order| - 1;
      var rest := entries - {order[k]};
      assert order == order[..k] + [order[k]];
      RanksSize(rest, order[..k]);
      assert entries.Keys == rest.Keys + {order[k]};
      assert |entries.Keys| == |entries| && |rest.Keys| == |rest|;
    }
  }

  lemma RanksCount(entries: map<string, Entry>, order: seq<string>)
    requires Ranks(entries, order)
    ensures |order| == |entries|
  {
    RanksSize(entries, order);
  }

  lemma {:induction false} WithoutKeepsOrder(entries: map<string, Entry>, order: seq<string>, epic: string)
    requires Falling(entries, order)
    ensures Falling(entries, Without(order, epic))
  {
    if order != [] {
      var rest := order[1..];
      assert forall i :: 0 <= i < |rest| ==> rest[i] == order[i + 1];
      WithoutKeepsOrder(entries, rest, epic);
      if order[0] != epic {
        FallingCons(entries, order, Without(rest, epic));
      }
    }
  }

  lemma FallingCons(entries: map<string, Entry>, order: seq<string>, rest: seq<string>)
    requires order != [] && Falling(entries, order) && Falling(entries, rest)
    requires forall e :: e in rest ==> e in order[1..]
    ensures Falling(entries, [order[0]] + rest)
  {
    var t := [order[0]] + rest;
    forall j | 0 < j < |t|
      ensures entries[t[0]].lastUsed > entries[t[j]].lastUsed
    {
      assert t[j] == rest[j - 1] && rest[j - 1] in rest;
      var m :| 0 <= m < |order[1..]| && order[1..][m] == t[j];
      assert order[m + 1] == t[j];
    }
    assert forall i :: 0 < i < |t| ==> t[i] == rest[i - 1];
  }

  lemma RanksWithout(entries: map<string, Entry>, order: seq<string>, epic: string)
    requires Ranks(entries, order)
    ensures Ranks(entries - {epic}, Without(order, epic))
  {
    WithoutKeepsOrder(entries, order, epic);
  }

  lemma RanksAbsent(entries: map<string, Entry>, order: seq<string>, epic: string)
    requires Ranks(entries, order) && epic !in entries
    ensures Without(order, epic) == order
  {
    WithoutAbsent(order, epic);
  }

  lemma LaterLess(entries: map<string, Entry>, now: nat, fewer: map<string, Entry>)
    requires Later(entries, now) && forall e :: e in fewer ==> e in entries && fewer[e] == entries[e]
    ensures Later(fewer, now)
  {
  }

  /** The instrument used just now goes to the front. */
  lemma RanksFront(entries: map<string, Entry>, order: seq<string>, epic: string, now: nat)
    requires Ranks(entries, order) && epic !in entries
    requires Later(entries, now)
    ensures Ranks(entries[epic := Entry(now, false)], [epic] + order)
  {
    var t := [epic] + order;
    assert forall i :: 0 < i < |t| ==> t[i] == order[i - 1] && t[i] in order;
  }

  /** The instrument to drop to make room: one that was used no later than any other. */
  method LeastRecentlyUsed(entries: map<string, Entry>) returns (victim: Option<string>)
    ensures victim.None? <==> entries == map[]
    ensures victim.Some? ==>
              && victim.value in entries
              && forall e :: e in entries ==> entries[victim.value].lastUsed <= entries[e].lastUsed
  {
    victim := None;
    var rest := entries.Keys;
    while rest != {}
      invariant rest <= entries.Keys
      invariant victim.None? ==> rest == entries.Keys
      invariant victim.Some? ==>
                  && victim.value in entries
                  && forall e :: e in entries && e !in rest ==> entries[victim.value].lastUsed <= entries[e].lastUsed
      decreases |rest|
    {
      var e :| e in rest;
      if victim.None? || entries[e].lastUsed < entries[victim.value].lastUsed {
        victim := Some(e);
      }
      rest := rest - {e};
    }
  }

  lemma RanksLess(entries: map<string, Entry>, rest: seq<string>, last: string)
    requires Ranks(entries, rest + [last])
    ensures Ranks(entries - {last}, rest)
  {
    var order := rest + [last];
    assert order[|rest|] == last;
    forall i | 0 <= i < |rest|
      ensures rest[i] == order[i] && rest[i] != last
    {
    }
    assert forall e :: e in rest <==> e in order && e != last;
  }

  lemma VictimIsLast(entries: map<string, Entry>, order: seq<string>, victim: string)
    requires Ranks(entries, order) && victim in entries
    requires forall e :: e in entries ==> entries[victim].lastUsed <= entries[e].lastUsed
    ensures order != [] && victim == order[|order| - 1]
  {
    assert victim in order;
    var k := |order| - 1;
    var i :| 0 <= i < |order| && order[i] == victim;
    assert order[k] in entries;
  }

  class QuoteStreamer {
    const capacity: nat
    var state: State
    var entries: map<string, Entry>

    ghost predicate Valid()
      reads this
    {
      0 < capacity && |entries| <= capacity && (!state.Open? ==> entries == map[])
    }

    constructor (capacity: nat)
      requires capacity > 0
      ensures Valid() && this.capacity == capacity && state == Idle && entries == map[]
    {
      this.capacity := capacity;
      state := Idle;
      entries := map[];
    }

    predicate Alive()
      reads this
    {
      state == Open(true)
    }

    /** The session ends on its own. */
    method SessionEnds()
      requires Valid() && state.Open?
      modifies this`state
      ensures Valid() && state == Open(false)
    {
      state := Open(false);
    }

    /** A subscription's task ends: the server refused it, or it was unsubscribed. */
    method SubscriptionEnds(epic: string)
      requires Valid() && epic in entries
      modifies this`entries
      ensures Valid() && entries == old(entries)[epic := old(entries)[epic].(finished := true)]
      ensures forall order :: old(Ranks(entries, order)) ==> Ranks(entries, order)
    {
      entries := entries[epic := entries[epic].(finished := true)];
      assert entries.Keys == old(entries.Keys);
      assert |entries.Keys| == |entries| && |old(entries.Keys)| == |old(entries)|;
    }

    /** Removes one entry. */
    method Drop(epic: string)
      requires Valid()
      modifies this`entries
      ensures Valid() && entries == old(entries) - {epic}
      ensures epic in old(entries) ==> |entries| == |old(entries)| - 1
    {
      entries := entries - {epic};
      ghost var before := old(entries).Keys;
      assert entries.Keys == before - {epic};
      assert |entries.Keys| == |entries| && |before| == |old(entries)|;
    }

    /** Drops the instruments used least recently until one more fits. */
    method MakeRoom(ghost order: seq<string>)
      requires Valid()
      modifies this`entries
      ensures Valid() && |entries| < capacity
      ensures forall e :: e in entries ==> e in old(entries) && entries[e] == old(entries)[e]
      ensures |old(entries)| < capacity ==> entries == old(entries)
      ensures old(Ranks(entries, order)) ==> Ranks(entries, Take(order, capacity - 1))
    {
      hide Ranks, Distinct, Without;
      ghost var left, ranked := order, Ranks(entries, order);
      if ranked {
        RanksCount(entries, order);
      }
      while |entries| >= capacity
        invariant Valid()
        invariant forall e :: e in entries ==> e in old(entries) && entries[e] == old(entries)[e]
        invariant |old(entries)| < capacity ==> entries == old(entries)
        invariant ranked ==>
                    Ranks(entries, left) && |left| == |entries| && left <= order
                    && (|left| < capacity - 1 ==> left == order)
        decreases |entries|
      {
        var victim := LeastRecentlyUsed(entries);
        if victim.None? {
          break;
        }
        if ranked {
          VictimIsLast(entries, left, victim.value);
          assert left == left[..|left| - 1] + [victim.value];
          RanksLess(entries, left[..|left| - 1], victim.value);
          left := left[..|left| - 1];
        }
        Drop(victim.value);
      }
      if ranked {
        assert left == Take(order, capacity - 1);
      }
    }

    /** A subscription whose task ended is forgotten, to be tried afresh. */
    method DropFinished(epic: string, now: nat, ghost order: seq<string>)
      requires Valid()
      modifies this`entries
      ensures Valid()
      ensures entries == if epic in old(entries) && old(entries)[epic].finished
                then old(entries) - {epic} else old(entries)
      ensures old(Ranks(entries, order) && Later(entries, now)) ==>
                && Later(entries, now)
                && Ranks(entries, if epic in entries then order else Without(order, epic))
    {
      hide Ranks, Later, Without;
      ghost var before := entries;
      ghost var ranked := Ranks(entries, order) && Later(entries, now);
      if epic in entries && entries[epic].finished {
        Drop(epic);
        if ranked {
          RanksWithout(before, order, epic);
          LaterLess(before, now, entries);
        }
      } else if epic !in entries && ranked {
        RanksAbsent(entries, order, epic);
      }
    }

    /** A held EPIC is used again. */
    method Hit(epic: string, now: nat, ghost order: seq<string>)
      requires Valid() && state.Open? && epic in entries
      modifies this`entries
      ensures Valid() && entries == old(entries)[epic := old(entries)[epic].(lastUsed := now)]
      ensures old(Ranks(entries, order) && Later(entries, now) && !entries[epic].finished) ==>
                Ranks(entries, Touch(order, epic, capacity))
    {
      hide Ranks, Later;
      ghost var before := entries;
      entries := entries[epic := entries[epic].(lastUsed := now)];
      assert entries.Keys == before.Keys;
      assert |entries.Keys| == |entries| && |before.Keys| == |before|;
      if Ranks(before, order) && Later(before, now) && !before[epic].finished {
        RanksWithout(before, order, epic);
        RanksCount(before, order);
        RanksCount(before - {epic}, Without(order, epic));
        LaterLess(before, now, before - {epic});
        RanksFront(before - {epic}, Without(order, epic), epic, now);
        assert (before - {epic})[epic := Entry(now, false)] == entries;
        assert |(before - {epic}).Keys| < |before.Keys|;
        assert Take(Without(order, epic), capacity - 1) == Without(order, epic);
      }
    }

    /** A new EPIC takes a place, which is made first, whether or not the server then accepts it. */
    method Miss(epic: string, now: nat, server: Server, ghost order: seq<string>) returns (r: Result<(), AppError>)
      requires Valid() && state.Open? && epic !in entries
      modifies this`entries
      ensures Valid()
      ensures r == if !server.takesItem then Err(InvalidInput)
                else if !server.subscribes then Err(WebSocketError) else Ok(())
      ensures r.Ok? ==> epic in entries && entries[epic] == Entry(now, false)
      ensures r.Err? ==> epic !in entries
      ensures forall e :: e in entries && e != epic ==> e in old(entries) && entries[e] == old(entries)[e]
      ensures old(Ranks(entries, order) && Later(entries, now)) ==>
                Ranks(entries, (if r.Ok? then [epic] else []) + Take(order, capacity - 1))
    {
      hide Ranks, Later;
      ghost var before := entries;
      MakeRoom(order);
      assert [] + Take(order, capacity - 1) == Take(order, capacity - 1);
      if !server.takesItem {
        return Err(InvalidInput);
      }
      if !server.subscribes {
        return Err(WebSocketError);
      }
      if Ranks(before, order) && Later(before, now) {
        LaterLess(before, now, entries);
        RanksFront(entries, Take(order, capacity - 1), epic, now);
      }
      ghost var room := entries;
      entries := entries[epic := Entry(now, false)];
      assert entries.Keys == room.Keys + {epic};
      assert |entries.Keys| == |entries| && |room.Keys| == |room|;
      r := Ok(());
    }

    /** Serves a request in an open session. */
    method Serve(epic: string, now: nat, server: Server, ghost order: seq<string>) returns (r: Result<(), AppError>)
      requires Valid() && state == Open(true)
      modifies this`entries
      ensures Valid()
      ensures r.Ok? ==> epic in entries && entries[epic] == Entry(now, false)
      ensures r.Err? ==> epic !in entries && r.error == if !server.takesItem then InvalidInput else WebSocketError
      ensures r.Ok? <==>
                (epic in old(entries) && !old(entries)[epic].finished) || (server.takesItem && server.subscribes)
      ensures forall e :: e in entries && e != epic ==> e in old(entries) && entries[e] == old(entries)[e]
      ensures old(Ranks(entries, order) && Later(entries, now)) ==>
                Ranks(entries, if r.Ok? then Touch(order, epic, capacity) else Take(Without(order, epic), capacity - 1))
    {
      hide Ranks, Later, Without, Take;
      DropFinished(epic, now, order);
      if epic in entries {
        Hit(epic, now, order);
        r := Ok(());
      } else {
        r := Miss(epic, now, server, Without(order, epic));
        assert [] + Take(Without(order, epic), capacity - 1) == Take(Without(order, epic), capacity - 1);
      }
    }

    /**
     * The subscription of an EPIC, made when needed: in a new session when the last one ended, afresh
     * when its task ended, and in place of the least recently used one when there is no room.
     * `order` is any ranking of the held EPICs; with a later `now` it moves exactly as `Track` says.
     */
    method Subscription(epic: string, now: nat, server: Server, ghost order: seq<string>)
      returns (r: Result<(), AppError>, ghost asked: Asked)
      requires Valid()
      modifies this
      ensures Valid()
      ensures old(state) == Closed ==> r == Err(WebSocketError) && state == Closed && entries == map[]
      ensures old(state) != Closed ==> state == if old(Alive()) || server.opens then Open(true) else Idle
      ensures asked.epic == epic && asked.lost == !old(Alive())
      ensures asked.outcome == if r.Ok? then Served else if Alive() then Refused else NoSession
      ensures r.Ok? ==> epic in entries && entries[epic] == Entry(now, false)
      ensures r.Err? ==> epic !in entries
      ensures r.Err? && Alive() ==> r.error == if !server.takesItem then InvalidInput else WebSocketError
      // a live subscription serves without the server; everything else needs its session, item and consent
      ensures old(state) != Closed ==>
                (r.Ok? <==> Alive() && (|| old(Alive() && epic in entries && !entries[epic].finished)
                                        || (server.takesItem && server.subscribes)))
      ensures forall e :: e in entries && e != epic ==>
                old(Alive()) && e in old(entries) && entries[e] == old(entries)[e]
      ensures old(state != Closed && Ranks(entries, order) && Later(entries, now)) ==>
                Ranks(entries, Track(order, asked, capacity))
    {
      asked := Asked(epic, !Alive(), NoSession);
      if state == Closed {
        return Err(WebSocketError), asked;
      }
      ghost var kept := if Alive() then order else [];
      if !Alive() {
        entries := map[];
        state := Idle;
        if !server.opens {
          return Err(WebSocketError), asked;
        }
        state := Open(true);
      }
      hide Ranks, Later, Without, Take, Touch;
      r := Serve(epic, now, server, kept);
      asked := asked.(outcome := if r.Ok? then Served else Refused);
    }

    /** Unsubscribes everything, closes the session and refuses every later request. */
    method Close(disconnects: bool) returns (r: Result<(), AppError>)
      requires Valid()
      modifies this
      ensures Valid() && state == Closed && entries == map[]
      ensures r.Err? <==> old(state).Open? && !disconnects
    {
      var open := state.Open?;
      entries := map[];
      state := Closed;
      r := if open && !disconnects then Err(WebSocketError) else Ok(());
    }
  }

  // ---- whole runs ------------------------------------------------------------------------------

  /** What happens to a streamer: a request at its time, or the end of its session or of a subscription. */
  datatype Event =
    | Requested(epic: string, now: nat, server: Server)
    | SessionDies
    | SubscriptionDies(epic: string)

  /** Requests come at strictly later and later times, the first one not before `since`. */
  predicate Timely(events: seq<Event>, since: nat) {
    events != [] ==>
      && (events[0].Requested? ==> since <= events[0].now)
      && Timely(events[1..], if events[0].Requested? then events[0].now + 1 else since)
  }

  /** The EPICs of the requests among some events. */
  function RequestedEpics(events: seq<Event>): seq<string> {
    if events == [] then [] else
      var last := events[|events| - 1];
      RequestedEpics(events[..|events| - 1]) + (if last.Requested? then [last.epic] else [])
  }

  /**
   * What a streamer amounts to between events: whether its session lives, the held EPICs by last use,
   * and the ones whose subscription has ended.
   */
  datatype Run = Run(alive: bool, order: seq<string>, ended: set<string>)

  /** How a request meets it: lost without a session, and served by a live subscription or a willing server. */
  function AskedIn(s: Run, epic: string, server: Server): Asked {
    Asked(
      epic, !s.alive,
      if !s.alive && !server.opens then NoSession
      else if (s.alive && epic in s.order && epic !in s.ended) || (server.takesItem && server.subscribes) then Served
      else Refused)
  }

  function Next(s: Run, event: Event, capacity: nat): Run
    requires capacity > 0
  {
    match event
    case Requested(epic, _, server) =>
      var a := AskedIn(s, epic, server);
      Run(a.outcome != NoSession, Track(s.order, a, capacity), (if s.alive then s.ended else {}) - {epic})
    case SessionDies => s.(alive := false)
    case SubscriptionDies(epic) => if epic in s.order then s.(ended := s.ended + {epic}) else s
  }

  function RunOf(events: seq<Event>, capacity: nat): Run
    requires capacity > 0
  {
    if events == [] then Run(false, [], {})
    else Next(RunOf(events[..|events| - 1], capacity), events[|events| - 1], capacity)
  }

  /** The requests among some events, each with what it met and how it ended. */
  function AskedAll(events: seq<Event>, capacity: nat): seq<Asked>
    requires capacity > 0
  {
    if events == [] then [] else
      var before, last := events[..|events| - 1], events[|events| - 1];
      AskedAll(before, capacity)
      + (if last.Requested? then [AskedIn(RunOf(before, capacity), last.epic, last.server)] else [])
  }

  lemma AskedNext(asked: seq<Asked>, a: Asked, capacity: nat)
    requires capacity > 0
    ensures TrackAll(asked + [a], capacity) == Track(TrackAll(asked, capacity), a, capacity)
    ensures EpicsOf(asked + [a]) == EpicsOf(asked) + [a.epic]
  {
    assert (asked + [a])[..|asked|] == asked;
  }

  lemma NoAsks(capacity: nat)
    requires capacity > 0
    ensures TrackAll([], capacity) == [] == EpicsOf([])
  {
  }

  /** What is held depends on the requests alone, each taken with what it met. */
  lemma {:induction false} RunTracks(events: seq<Event>, capacity: nat)
    requires capacity > 0
    ensures RunOf(events, capacity).order == TrackAll(AskedAll(events, capacity), capacity)
    ensures EpicsOf(AskedAll(events, capacity)) == RequestedEpics(events)
  {
    hide Track, TrackAll, EpicsOf;
    NoAsks(capacity);
    if events != [] {
      var before, last := events[..|events| - 1], events[|events| - 1];
      RunTracks(before, capacity);
      if last.Requested? {
        AskedNext(AskedAll(before, capacity), AskedIn(RunOf(before, capacity), last.epic, last.server), capacity);
      } else {
        assert AskedAll(events, capacity) == AskedAll(before, capacity);
      }
    }
  }

  // ---- runs with a willing server --------------------------------------------------------------

  /** Every request finds a server that opens a session, takes the item and subscribes. */
  predicate Willing(events: seq<Event>) {
    forall k :: 0 <= k < |events| && events[k].Requested? ==> events[k].server == Server(true, true, true)
  }

  predicate AliveAfter(events: seq<Event>) {
    events != [] &&
    var last := events[|events| - 1];
    last.Requested? || (last.SubscriptionDies? && AliveAfter(events[..|events| - 1]))
  }

  /** The EPICs requested in the last session that was opened. */
  function SessionCalls(events: seq<Event>): seq<string> {
    if events == [] then [] else
      var before, last := events[..|events| - 1], events[|events| - 1];
      if last.Requested? then (if AliveAfter(before) then SessionCalls(before) else []) + [last.epic]
      else SessionCalls(before)
  }

  /**
   * With a willing server the held EPICs are the last min(capacity, distinct) distinct ones requested
   * in the last session, whatever sessions and subscriptions end in between.
   */
  lemma {:induction false} WillingHoldsRecent(events: seq<Event>, capacity: nat)
    requires capacity > 0 && Willing(events)
    ensures RunOf(events, capacity).order == Take(Recent(SessionCalls(events)), capacity)
    ensures RunOf(events, capacity).alive == AliveAfter(events)
  {
    hide Take, Recent, Without;
    NothingRecent(capacity);
    if events != [] {
      var before, last := events[..|events| - 1], events[|events| - 1];
      WillingHoldsRecent(before, capacity);
      if last.Requested? {
        var calls := SessionCalls(events);
        assert calls[..|calls| - 1] == if AliveAfter(before) then SessionCalls(before) else [];
        HeldAreTheMostRecent(calls[..|calls| - 1], capacity);
        HeldAreTheMostRecent(calls, capacity);
      }
    }
  }

  lemma NothingRecent(capacity: nat)
    requires capacity > 0
    ensures Take(Recent([]), capacity) == []
  {
  }

  /** When no session ends these are all the requests. */
  lemma {:induction false} OneSession(events: seq<Event>)
    requires forall k :: 0 <= k < |events| ==> !events[k].SessionDies?
    ensures SessionCalls(events) == RequestedEpics(events)
    ensures AliveAfter(events) <==> RequestedEpics(events) != []
  {
    if events != [] {
      OneSession(events[..|events| - 1]);
    }
  }

  /** Of two streamers that meet the same events, the larger one holds all that the smaller one holds. */
  lemma LargerHoldsMoreOf(
    events: seq<Event>, capacity: nat, larger: nat, small: map<string, Entry>, large: map<string, Entry>)
    requires 0 < capacity <= larger && Willing(events)
    requires Ranks(small, RunOf(events, capacity).order) && Ranks(large, RunOf(events, larger).order)
    ensures RunOf(events, capacity).order <= RunOf(events, larger).order
    ensures forall e :: e in small ==> e in large
  {
    WillingHoldsRecent(events, capacity);
    WillingHoldsRecent(events, larger);
  }

  // ---- the streamer over a whole run -----------------------------------------------------------

  /** A streamer is as the run of its events says. */
  ghost predicate Follows(entries: map<string, Entry>, alive: bool, s: Run) {
    && Ranks(entries, s.order) && alive == s.alive
    && forall e :: e in entries ==> (entries[e].finished <==> e in s.ended)
  }

  lemma FollowsRequest(
    before: map<string, Entry>, alive: bool, s: Run, epic: string, now: nat, server: Server,
    after: map<string, Entry>, aliveAfter: bool, capacity: nat)
    requires capacity > 0 && Follows(before, alive, s)
    requires var a := AskedIn(s, epic, server);
             Ranks(after, Track(s.order, a, capacity)) && (aliveAfter <==> a.outcome != NoSession)
    requires forall e :: e in after && e != epic ==> alive && e in before && after[e] == before[e]
    requires epic in after ==> after[epic] == Entry(now, false)
    ensures Follows(after, aliveAfter, Next(s, Requested(epic, now, server), capacity))
  {
    hide Ranks;
  }

  /** One event, and its answer when it is a request. */
  method Happen(q: QuoteStreamer, event: Event, ghost s: Run, ghost since: nat)
    returns (answer: Option<Result<(), AppError>>)
    requires q.Valid() && q.state != Closed && Follows(q.entries, q.Alive(), s) && Later(q.entries, since)
    requires event.Requested? ==> since <= event.now
    modifies q
    ensures q.Valid() && q.state != Closed
    ensures Follows(q.entries, q.Alive(), Next(s, event, q.capacity))
    ensures Later(q.entries, if event.Requested? then event.now + 1 else since)
    ensures answer.Some? <==> event.Requested?
    ensures answer.Some? ==> (answer.value.Ok? <==> AskedIn(s, event.epic, event.server).outcome == Served)
  {
    hide Ranks, Later, Track;
    ghost var before, alive := q.entries, q.Alive();
    answer := None;
    match event
    case Requested(epic, now, server) =>
      LaterStill(before, since, now);
      RanksHeld(before, s.order);
      var r;
      ghost var a;
      r, a := q.Subscription(epic, now, server, s.order);
      LaterAfter(before, q.entries, epic, now);
      assert a == AskedIn(s, epic, server);
      FollowsRequest(before, alive, s, epic, now, server, q.entries, q.Alive(), q.capacity);
      answer := Some(r);
    case SessionDies =>
      if q.state.Open? {
        q.SessionEnds();
      }
    case SubscriptionDies(epic) =>
      RanksHeld(before, s.order);
      if epic in q.entries {
        q.SubscriptionEnds(epic);
        LaterEnded(before, epic, since);
      }
  }

  lemma RanksHeld(entries: map<string, Entry>, order: seq<string>)
    requires Ranks(entries, order)
    ensures forall e :: e in order <==> e in entries
  {
  }

  lemma LaterStill(entries: map<string, Entry>, since: nat, now: nat)
    requires Later(entries, since) && since <= now
    ensures Later(entries, now)
  {
  }

  lemma LaterAfter(before: map<string, Entry>, after: map<string, Entry>, epic: string, now: nat)
    requires Later(before, now)
    requires forall e :: e in after && e != epic ==> e in before && after[e] == before[e]
    requires epic in after ==> after[epic].lastUsed == now
    ensures Later(after, now + 1)
  {
  }

  lemma LaterEnded(entries: map<string, Entry>, epic: string, since: nat)
    requires Later(entries, since) && epic in entries
    ensures Later(entries[epic := entries[epic].(finished := true)], since)
  {
  }

  /**
   * A streamer over any run of requests, failures and losses answers and holds exactly what the run
   * says. With a willing server that is the last min(capacity, distinct) distinct EPICs requested in
   * the last session, and in all when no session ended.
   */
  method RunAll(capacity: nat, events: seq<Event>)
    returns (q: QuoteStreamer, answers: seq<Result<(), AppError>>)
    requires capacity > 0 && Timely(events, 0)
    ensures fresh(q) && q.Valid() && q.capacity == capacity
    ensures Follows(q.entries, q.Alive(), RunOf(events, capacity))
    ensures Ranks(q.entries, TrackAll(AskedAll(events, capacity), capacity))
    ensures |answers| == |AskedAll(events, capacity)|
    ensures forall k :: 0 <= k < |answers| ==>
              (answers[k].Ok? <==> AskedAll(events, capacity)[k].outcome == Served)
    ensures Willing(events) ==> Ranks(q.entries, Take(Recent(SessionCalls(events)), capacity))
    ensures Willing(events) && (forall k :: 0 <= k < |events| ==> !events[k].SessionDies?) ==>
              Ranks(q.entries, Take(Recent(RequestedEpics(events)), capacity))
  {
    hide Ranks, Later, TrackAll, Take, Recent, AskedIn, Next;
    q := new QuoteStreamer(capacity);
    answers := [];
    ghost var since: nat := 0;
    NothingHeld();
    assert events[0..] == events;
    for k := 0 to |events|
      invariant fresh(q) && q.Valid() && q.state != Closed && q.capacity == capacity
      invariant Timely(events[k..], since) && Later(q.entries, since)
      invariant Follows(q.entries, q.Alive(), RunOf(events[..k], capacity))
      invariant |answers| == |AskedAll(events[..k], capacity)|
      invariant forall i :: 0 <= i < |answers| ==>
                  (answers[i].Ok? <==> AskedAll(events[..k], capacity)[i].outcome == Served)
    {
      assert events[k..][0] == events[k] && events[k..][1..] == events[k + 1..];
      assert events[..k + 1][..k] == events[..k];
      var answer := Happen(q, events[k], RunOf(events[..k], capacity), since);
      if events[k].Requested? {
        since := events[k].now + 1;
        answers := answers + [answer.value];
      }
    }
    assert events[..|events|] == events;
    RunTracks(events, capacity);
    if Willing(events) {
      WillingHoldsRecent(events, capacity);
      if forall k :: 0 <= k < |events| ==> !events[k].SessionDies? {
        OneSession(events);
      }
    }
  }

  lemma NothingHeld()
    ensures Ranks(map[], []) && Later(map[], 0)
  {
  }

  // ---- merging updates -----------------------------------------------------------------------

  /** One update of the stream: the fields it carries, and when this process received it. */
  datatype Update = Update(
    bidPrice1: Option<real>, bid: Option<real>, askPrice1: Option<real>, offer: Option<real>,
    dealingFlag: Option<string>, timestamp: Option<int>, receivedAt: int)

  datatype StreamQuote = StreamQuote(
    epic: string, bid: Option<real>, offer: Option<real>, dealingFlag: Option<string>,
    timestamp: Option<int>, receivedAt: int)

  /** The quote after an update: what the update leaves out keeps its value. */
  function Merged(previous: Option<StreamQuote>, epic: string, u: Update): StreamQuote {
    var p := if previous.Some? then previous.value else StreamQuote(epic, None, None, None, None, 0);
    StreamQuote(epic, u.bidPrice1.Or(u.bid).Or(p.bid), u.askPrice1.Or(u.offer).Or(p.offer),
                u.dealingFlag.Or(p.dealingFlag), u.timestamp.Or(p.timestamp), u.receivedAt)
  }

  function MergedAll(epic: string, updates: seq<Update>): Option<StreamQuote> {
    if updates == [] then None
    else Some(Merged(MergedAll(epic, updates[..|updates| - 1]), epic, updates[|updates| - 1]))
  }

  ghost predicate IsLast<T(!new)>(value: Option<T>, field: Update -> Option<T>, updates: seq<Update>, k: nat) {
    k < |updates| && field(updates[k]) == value && forall j :: k < j < |updates| ==> field(updates[j]).None?
  }

  /** The value a field has after a run of updates that may each leave it out. */
  ghost predicate IsLatest<T(!new)>(value: Option<T>, field: Update -> Option<T>, updates: seq<Update>) {
    if value.None? then forall k :: 0 <= k < |updates| ==> field(updates[k]).None?
    else exists k :: IsLast(value, field, updates, k)
  }

  lemma LatestStep<T(!new)>(value: Option<T>, field: Update -> Option<T>, updates: seq<Update>, u: Update)
    requires IsLatest(value, field, updates)
    ensures IsLatest(field(u).Or(value), field, updates + [u])
  {
    var all := updates + [u];
    assert forall k :: 0 <= k < |updates| ==> all[k] == updates[k];
    assert all[|updates|] == u;
    if field(u).None? && value.Some? {
      var k :| IsLast(value, field, updates, k);
      assert IsLast(value, field, all, k);
    } else if field(u).Some? {
      assert IsLast(field(u), field, all, |updates|);
    }
  }

  /** Every field of the quote is the latest value any update carried for it. */
  lemma {:induction false} FieldsAreLatest(epic: string, updates: seq<Update>)
    requires updates != []
    ensures MergedAll(epic, updates).Some?
    ensures var q := MergedAll(epic, updates).value;
            && q.epic == epic && q.receivedAt == updates[|updates| - 1].receivedAt
            && IsLatest(q.bid, (u: Update) => u.bidPrice1.Or(u.bid), updates)
            && IsLatest(q.offer, (u: Update) => u.askPrice1.Or(u.offer), updates)
            && IsLatest(q.dealingFlag, (u: Update) => u.dealingFlag, updates)
            && IsLatest(q.timestamp, (u: Update) => u.timestamp, updates)
  {
    var k := |updates| - 1;
    var before, u := updates[..k], updates[k];
    assert updates == before + [u];
    var p := if before == [] then StreamQuote(epic, None, None, None, None, 0) else MergedAll(epic, before).value;
    if before != [] {
      FieldsAreLatest(epic, before);
    }
    LatestStep(p.bid, (u: Update) => u.bidPrice1.Or(u.bid), before, u);
    LatestStep(p.offer, (u: Update) => u.askPrice1.Or(u.offer), before, u);
    LatestStep(p.dealingFlag, (u: Update) => u.dealingFlag, before, u);
    LatestStep(p.timestamp, (u: Update) => u.timestamp, before, u);
  }
}
