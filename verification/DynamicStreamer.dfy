/**
 * A market stream whose instruments can change while it runs: every change closes the connection
 * and opens a new one. Each connection is a task of its own with a generation number; tasks end
 * when they are told to or when the connection fails, and run between any two steps of a call.
 */
module DynamicStreamer {
  import opened Errors
  import opened Machine
  import opened Wrappers

  /** A connection runs, ends, checks whether it is still the current one, and reports that it stopped. */
  datatype Phase = Running | Ended | Checked | Stopped

  function Rank(p: Phase): nat {
    match p
    case Running => 0
    case Ended => 1
    case Checked => 2
    case Stopped => 3
  }

  /** `confirmed` is the one notification its stop leaves for whoever waits for it. */
  datatype Task = Task(subscribed: set<string>, phase: Phase, signalled: bool, confirmed: bool) {
    predicate BeforeCheck() {
      phase.Running? || phase.Ended?
    }
  }

  /** What calls and tasks share. `current` is the task whose two signals are kept. */
  datatype Shared = Shared(
    epics: set<string>, connected: bool, generation: nat, current: Option<nat>, tasks: map<nat, Task>)
  {
    ghost predicate Valid() {
      && (forall g :: g in tasks ==> g <= generation)
      && (forall g :: g in tasks && tasks[g].confirmed ==> tasks[g].phase.Stopped?)
      && (current.Some? ==> current.value in tasks)
      && (connected ==> current.Some?)
    }

    /** While the flag is up, the current generation's task has not run its exit check. */
    ghost predicate Live() {
      connected ==> current == Some(generation) && generation in tasks && tasks[generation].BeforeCheck()
    }

    /** And it is subscribed to exactly the current EPICs. */
    ghost predicate Safe() {
      Live() && (connected ==> generation in tasks && tasks[generation].subscribed == epics)
    }

    /** No connection runs on that nobody told to stop, but the one the flag stands for. */
    ghost predicate Tidy() {
      && (generation in tasks ==> current == Some(generation))
      && forall g :: g in tasks && tasks[g].phase.Running? && !tasks[g].signalled ==> connected && current == Some(g)
    }

    /** A task was told to stop, and has stopped if anybody waited for it. */
    ghost predicate Told(g: nat, waited: bool) {
      g in tasks && tasks[g].signalled && (waited ==> tasks[g].phase.Stopped?)
    }
  }

  /**
   * One step of a task. Whether it is still the current generation and the flag it then clears are
   * looked at together, as one step.
   */
  function TaskStep(s: Shared, g: nat): Shared {
    if g !in s.tasks then s else
      var t := s.tasks[g];
      match t.phase
      case Running => s.(tasks := s.tasks[g := t.(phase := Ended)])
      case Ended => s.(tasks := s.tasks[g := t.(phase := Checked)], connected := s.connected && g != s.generation)
      case Checked => s.(tasks := s.tasks[g := t.(phase := Stopped, confirmed := true)])
      case Stopped => s
  }

  function TaskRun(s: Shared, schedule: seq<nat>): Shared {
    if schedule == [] then s
    else TaskStep(TaskRun(s, schedule[..|schedule| - 1]), schedule[|schedule| - 1])
  }

  predicate TaskMoved(a: Task, b: Task) {
    && b.subscribed == a.subscribed && b.signalled == a.signalled && Rank(a.phase) <= Rank(b.phase)
    && (b.confirmed <==> a.confirmed || (!a.phase.Stopped? && b.phase.Stopped?))
  }

  /** What task steps cannot touch, and the one direction the rest moves in. */
  ghost predicate Moved(s: Shared, t: Shared) {
    && t.epics == s.epics && t.generation == s.generation && t.current == s.current
    && t.tasks.Keys == s.tasks.Keys
    && (forall g :: g in s.tasks ==> TaskMoved(s.tasks[g], t.tasks[g]))
    && (t.connected <==>
          s.connected
          && !(s.generation in s.tasks && s.tasks[s.generation].BeforeCheck() && !t.tasks[s.generation].BeforeCheck()))
  }

  lemma StepMoved(s: Shared, g: nat)
    ensures Moved(s, TaskStep(s, g))
  {
    var t := TaskStep(s, g);
    assert t.tasks.Keys == s.tasks.Keys;
    if g in s.tasks {
      match s.tasks[g].phase
      case Running =>
      case Ended =>
      case Checked =>
      case Stopped =>
    }
  }

  lemma MovedTwice(s: Shared, t: Shared, u: Shared)
    requires Moved(s, t) && Moved(t, u)
    ensures Moved(s, u)
  {
  }

  /**
   * Whatever the tasks do between two steps of a call: the flag falls exactly when the current
   * generation's own task runs its exit check. A superseded task never clears it.
   */
  lemma {:induction false} TasksOnlyMove(s: Shared, schedule: seq<nat>)
    ensures Moved(s, TaskRun(s, schedule))
  {
    if schedule != [] {
      TasksOnlyMove(s, schedule[..|schedule| - 1]);
      var t := TaskRun(s, schedule[..|schedule| - 1]);
      StepMoved(t, schedule[|schedule| - 1]);
      MovedTwice(s, t, TaskRun(s, schedule));
    }
  }

  /** So whatever the tasks do, what the flag promises stays true. */
  lemma {:induction false} MovingKeepsSafe(s: Shared, t: Shared)
    requires Moved(s, t)
    ensures s.Valid() ==> t.Valid()
    ensures s.Live() ==> t.Live()
    ensures s.Safe() ==> t.Safe()
  {
  }

  lemma MovingKeepsTidy(s: Shared, t: Shared)
    requires Moved(s, t) && s.Tidy()
    ensures t.Tidy()
  {
    forall g | g in t.tasks && t.tasks[g].phase.Running? && !t.tasks[g].signalled
      ensures t.connected && t.current == Some(g)
    {
      assert TaskMoved(s.tasks[g], t.tasks[g]);
    }
  }

  lemma TidyThrough(s: Shared, t: Shared)
    requires Moved(s, t)
    ensures s.Tidy() ==> t.Tidy()
  {
    if s.Tidy() {
      MovingKeepsTidy(s, t);
    }
  }

  /** The EPICs play no part in it. */
  lemma TidyOfEpics(s: Shared, before: Shared, t: Shared)
    requires Moved(s, t) && before == s.(epics := before.epics)
    ensures before.Tidy() ==> t.Tidy()
  {
    TidyThrough(s, t);
  }

  /** A flag may come down when its connection was told to stop. */
  lemma TidyWhenDown(s: Shared, t: Shared)
    requires t == s.(connected := false)
    requires s.current.Some? ==> s.Told(s.current.value, false)
    ensures s.Tidy() ==> t.Tidy()
    ensures forall g, waited :: s.Told(g, waited) ==> t.Told(g, waited)
  {
  }

  lemma TidyWhenTold(s: Shared, t: Shared)
    requires t == Signalled(s).(connected := false) && s.Valid()
    ensures s.Tidy() ==> t.Tidy()
  {
    assert Signalled(s).tasks.Keys == s.tasks.Keys;
    assert forall g :: g in s.tasks && Some(g) != s.current ==> t.tasks[g] == s.tasks[g];
  }

  lemma MovedForward(s: Shared, t: Shared, g: nat)
    requires Moved(s, t) && g in s.tasks
    ensures g in t.tasks && Rank(s.tasks[g].phase) <= Rank(t.tasks[g].phase)
  {
  }

  lemma MovedFrame(s: Shared, t: Shared)
    requires Moved(s, t)
    ensures t.epics == s.epics && t.generation == s.generation && t.current == s.current && t.tasks.Keys == s.tasks.Keys
    ensures t.connected ==> s.connected
    ensures forall g :: g in s.tasks ==> t.tasks[g].subscribed == s.tasks[g].subscribed
    ensures forall g :: g in s.tasks && !s.tasks[g].phase.Stopped? ==>
              (t.tasks[g].confirmed <==> s.tasks[g].confirmed || t.tasks[g].phase.Stopped?)
  {
  }

  /** The state after a waiter has taken the confirmation of task `g`. */
  function Spent(s: Shared, g: nat): Shared
    requires g in s.tasks
  {
    s.(tasks := s.tasks[g := s.tasks[g].(confirmed := false)])
  }

  lemma SpentKeepsSafe(s: Shared, g: nat)
    requires g in s.tasks
    ensures s.Valid() ==> Spent(s, g).Valid()
    ensures s.Live() ==> Spent(s, g).Live()
    ensures s.Safe() ==> Spent(s, g).Safe()
  {
  }

  // ---- exactly how far a task gets -----------------------------------------------------------

  /** How many steps a schedule gives to one task. */
  function StepsOf(schedule: seq<nat>, g: nat): nat {
    if schedule == [] then 0
    else StepsOf(schedule[..|schedule| - 1], g) + (if schedule[|schedule| - 1] == g then 1 else 0)
  }

  lemma {:induction false} StepsConcat(a: seq<nat>, b: seq<nat>, g: nat)
    ensures StepsOf(a + b, g) == StepsOf(a, g) + StepsOf(b, g)
  {
    if b == [] {
      assert a + b == a;
    } else {
      assert (a + b)[..|a + b| - 1] == a + b[..|b| - 1];
      StepsConcat(a, b[..|b| - 1], g);
    }
  }

  lemma {:induction false} RunsJoin(s: Shared, a: seq<nat>, b: seq<nat>)
    ensures TaskRun(TaskRun(s, a), b) == TaskRun(s, a + b)
  {
    if b == [] {
      assert a + b == a;
    } else {
      assert (a + b)[..|a + b| - 1] == a + b[..|b| - 1];
      RunsJoin(s, a, b[..|b| - 1]);
    }
  }

  lemma StepAdvances(s: Shared, h: nat, g: nat)
    requires g in s.tasks
    ensures var t := TaskStep(s, h);
            && g in t.tasks
            && Rank(t.tasks[g].phase) == if h == g && Rank(s.tasks[g].phase) < 3 then Rank(s.tasks[g].phase) + 1
                                         else Rank(s.tasks[g].phase)
  {
    if h in s.tasks {
      match s.tasks[h].phase
      case Running =>
      case Ended =>
      case Checked =>
      case Stopped =>
    }
  }

  /** A task advances one phase with each of its own steps and with no other. */
  lemma {:induction false} RunAdvances(s: Shared, schedule: seq<nat>, g: nat)
    requires g in s.tasks
    ensures var t := TaskRun(s, schedule);
            g in t.tasks && Rank(t.tasks[g].phase) == Min(3, Rank(s.tasks[g].phase) + StepsOf(schedule, g))
  {
    if schedule != [] {
      var before := schedule[..|schedule| - 1];
      RunAdvances(s, before, g);
      StepAdvances(TaskRun(s, before), schedule[|schedule| - 1], g);
    }
  }

  /** Whether the current generation's task gets past its exit check. */
  predicate ChecksOut(s: Shared, schedule: seq<nat>) {
    s.generation in s.tasks && Rank(s.tasks[s.generation].phase) + StepsOf(schedule, s.generation) >= 2
  }

  /** A flag that is up for its own task comes down exactly when that task checks out. */
  lemma FlagFallsIff(s: Shared, schedule: seq<nat>)
    requires s.Live()
    ensures TaskRun(s, schedule).connected <==> s.connected && !ChecksOut(s, schedule)
  {
    TasksOnlyMove(s, schedule);
    if s.generation in s.tasks {
      RunAdvances(s, schedule, s.generation);
    }
  }

  // ---- the calls as functions of the world ----------------------------------------------------

  /** What the world does with one call: whether it waits until tasks stop, and whether a new client works. */
  datatype Env = Env(patient: bool, clientOpens: bool, subscribes: bool) {
    predicate Works() {
      clientOpens && subscribes
    }
  }

  /** How the connection tasks run before each step of a call. */
  datatype Schedules = Schedules(
    before: seq<nat>, changed: seq<nat>, handshake: seq<nat>, opening: seq<nat>, subscribing: seq<nat>)

  function Opened(s: Shared, env: Env, t: Schedules): Shared {
    if s.epics == {} then s else
      var bumped := TaskRun(s.(generation := s.generation + 1), t.opening);
      if !env.clientOpens then bumped else
        var made := TaskRun(bumped, t.subscribing);
        if !env.subscribes then made
        else made.(current := Some(made.generation), connected := true,
                   tasks := made.tasks[made.generation := Task(made.epics, Running, false, false)])
  }

  function Signalled(s: Shared): Shared {
    if s.current.Some? && s.current.value in s.tasks
    then s.(tasks := s.tasks[s.current.value := s.tasks[s.current.value].(signalled := true)])
    else s
  }

  /** The state when the handshake is over, confirmed or not. */
  function Awaited(s: Shared, t: Schedules): Shared {
    if s.current.None? then Signalled(s) else
      var reached := TaskRun(Signalled(s), t.handshake);
      if s.current.value in reached.tasks then Spent(reached, s.current.value) else reached
  }

  function Reconnected(s: Shared, env: Env, t: Schedules): Shared {
    Opened(Awaited(s, t), env, t)
  }

  function Changed(s: Shared, epics: set<string>, t: Schedules): Shared {
    TaskRun(TaskRun(s, t.before).(epics := epics), t.changed)
  }

  function Added(s: Shared, epic: string, env: Env, t: Schedules): Shared {
    if epic in s.epics then TaskRun(s, t.before) else
      var c := Changed(s, s.epics + {epic}, t);
      if c.connected then Reconnected(c, env, t) else c
  }

  function Removed(s: Shared, epic: string, env: Env, t: Schedules): Shared {
    if epic !in s.epics then TaskRun(s, t.before) else
      var c := Changed(s, s.epics - {epic}, t);
      if c.connected then Reconnected(c, env, t) else c
  }

  /** Without EPICs nothing is opened again, and the flag comes down at once. */
  function Cleared(s: Shared, env: Env, t: Schedules): Shared {
    var c := Changed(s, {}, t);
    if c.connected then Reconnected(c, env, t).(connected := false) else c
  }

  /** The state in which a call of `start` opens its connection. */
  function Beforehand(s: Shared, t: Schedules): Shared {
    var u := TaskRun(s, t.before);
    TaskRun(TaskRun(u.(generation := u.generation + 1), t.opening), t.subscribing)
  }

  function Started(s: Shared, env: Env, t: Schedules): Shared {
    Opened(TaskRun(s, t.before), env, t)
  }

  lemma OpenedSafeIff(s: Shared, env: Env, t: Schedules)
    requires s.Valid()
    ensures Opened(s, env, t).epics == s.epics
    ensures s.epics != {} && env.Works() ==> Opened(s, env, t).Safe() && Opened(s, env, t).connected
    ensures s.epics != {} && !env.Works() ==>
              (Opened(s, env, t).Safe() <==> !s.connected) && (Opened(s, env, t).connected <==> s.connected)
  {
    var up := s.(generation := s.generation + 1);
    TasksOnlyMove(up, t.opening);
    TasksOnlyMove(TaskRun(up, t.opening), t.subscribing);
  }

  /**
   * A call of `start` from a safe state leaves a safe one exactly when nothing was connected, the new
   * connection comes up (or there is nothing to connect for), or the old task checks out before the
   * generation moves on.
   */
  lemma StartedSafeIff(s: Shared, env: Env, t: Schedules)
    requires s.Valid() && s.Safe()
    ensures Started(s, env, t).Safe() <==>
              !s.connected || s.epics == {} || env.Works() || ChecksOut(s, t.before)
  {
    var u := TaskRun(s, t.before);
    TasksOnlyMove(s, t.before);
    MovingKeepsSafe(s, u);
    FlagFallsIff(s, t.before);
    OpenedSafeIff(u, env, t);
  }

  /** The connection the flag stands for runs, and nobody told it to stop. */
  predicate Untold(s: Shared) {
    s.current.Some? && s.current.value in s.tasks
    && s.tasks[s.current.value].phase.Running? && !s.tasks[s.current.value].signalled
  }

  /** A new connection leaves the old one running on exactly when nobody told that to stop and it has not ended. */
  lemma OpenedTidyIff(s: Shared, env: Env, t: Schedules)
    requires s.Valid() && s.Tidy()
    ensures var made := TaskRun(TaskRun(s.(generation := s.generation + 1), t.opening), t.subscribing);
            Opened(s, env, t).Tidy() <==> s.epics == {} || !env.Works() || !Untold(made)
  {
    var up := s.(generation := s.generation + 1);
    var bumped := TaskRun(up, t.opening);
    var made := TaskRun(bumped, t.subscribing);
    assert up.generation !in up.tasks;
    TasksOnlyMove(up, t.opening);
    TasksOnlyMove(bumped, t.subscribing);
    MovingKeepsTidy(up, bumped);
    MovingKeepsTidy(bumped, made);
    if s.epics != {} && env.Works() {
      var o := Opened(s, env, t);
      assert o.tasks.Keys == made.tasks.Keys + {made.generation};
      assert forall g :: g in made.tasks ==> g != made.generation && o.tasks[g] == made.tasks[g];
      if Untold(made) {
        assert made.current.value in o.tasks && o.tasks[made.current.value] == made.tasks[made.current.value];
        assert !o.Tidy();
      }
    }
  }

  lemma OpenedKeepsTold(s: Shared, env: Env, t: Schedules, g: nat, waited: bool)
    requires s.Valid() && s.Told(g, waited)
    ensures Opened(s, env, t).Told(g, waited)
  {
    var up := s.(generation := s.generation + 1);
    var bumped := TaskRun(up, t.opening);
    TasksOnlyMove(up, t.opening);
    TasksOnlyMove(bumped, t.subscribing);
    assert TaskMoved(up.tasks[g], bumped.tasks[g]);
    assert TaskMoved(bumped.tasks[g], TaskRun(bumped, t.subscribing).tasks[g]);
  }

  lemma AwaitedIsTold(s: Shared, t: Schedules, waited: bool)
    requires s.Valid() && s.current.Some?
    requires waited ==> var reached := TaskRun(Signalled(s), t.handshake);
                        s.current.value in reached.tasks && reached.tasks[s.current.value].phase.Stopped?
    ensures Awaited(s, t).Valid() && Awaited(s, t).Told(s.current.value, waited)
    ensures Awaited(s, t).epics == s.epics && Awaited(s, t).current == s.current
    ensures s.Tidy() ==> Awaited(s, t).Tidy()
  {
    var u, g := Signalled(s), s.current.value;
    assert u.tasks.Keys == s.tasks.Keys && u.Valid() && u.tasks[g].signalled;
    assert forall o :: o in s.tasks && o != g ==> u.tasks[o] == s.tasks[o];
    var reached := TaskRun(u, t.handshake);
    TasksOnlyMove(u, t.handshake);
    MovingKeepsSafe(u, reached);
    assert TaskMoved(u.tasks[g], reached.tasks[g]);
    SpentKeepsSafe(reached, g);
    if s.Tidy() {
      MovingKeepsTidy(u, reached);
    }
  }

  /** The connection in force is told to stop before the next one is opened, so none is left behind. */
  lemma ReconnectedIsTidy(s: Shared, env: Env, t: Schedules, waited: bool)
    requires s.Valid()
    requires waited && s.current.Some? ==>
               var reached := TaskRun(Signalled(s), t.handshake);
               s.current.value in reached.tasks && reached.tasks[s.current.value].phase.Stopped?
    ensures s.Tidy() ==> Reconnected(s, env, t).Tidy()
    ensures s.current.Some? ==> Reconnected(s, env, t).Told(s.current.value, waited)
  {
    hide Opened, TaskRun;
    var a := Awaited(s, t);
    if s.current.Some? {
      AwaitedIsTold(s, t, waited);
      OpenedKeepsTold(a, env, t, s.current.value, waited);
      ToldStays(a, t, s.current.value);
    } else {
      NobodyUntold(a, t);
    }
    if s.Tidy() {
      OpenedTidyIff(a, env, t);
    }
  }

  /** With no EPIC left the old connection is told to stop and no other is in force. */
  lemma NothingReopened(s: Shared, env: Env, t: Schedules)
    requires s.Valid() && s.epics == {} && s.current.Some?
    ensures Reconnected(s, env, t) == Awaited(s, t)
    ensures Reconnected(s, env, t).current == s.current && Reconnected(s, env, t).Told(s.current.value, false)
  {
    AwaitedIsTold(s, t, false);
  }

  lemma NobodyUntold(s: Shared, t: Schedules)
    requires s.current.None?
    ensures !Untold(TaskRun(TaskRun(s.(generation := s.generation + 1), t.opening), t.subscribing))
  {
    var up := s.(generation := s.generation + 1);
    TasksOnlyMove(up, t.opening);
    TasksOnlyMove(TaskRun(up, t.opening), t.subscribing);
  }

  lemma ToldStays(s: Shared, t: Schedules, g: nat)
    requires s.Valid() && s.Told(g, false) && s.current == Some(g)
    ensures !Untold(TaskRun(TaskRun(s.(generation := s.generation + 1), t.opening), t.subscribing))
  {
    var up := s.(generation := s.generation + 1);
    var bumped := TaskRun(up, t.opening);
    TasksOnlyMove(up, t.opening);
    TasksOnlyMove(bumped, t.subscribing);
    assert TaskMoved(up.tasks[g], bumped.tasks[g]);
    assert TaskMoved(bumped.tasks[g], TaskRun(bumped, t.subscribing).tasks[g]);
  }

  /** What a caller of `start` can look at beforehand: safe whatever the tasks do, if and only if this holds. */
  lemma StartIsSafeIff(s: Shared, env: Env)
    requires s.Valid() && s.Safe()
    ensures (forall t :: Started(s, env, t).Safe()) <==> !s.connected || s.epics == {} || env.Works()
  {
    forall t
      ensures Started(s, env, t).Safe() <==> !s.connected || s.epics == {} || env.Works() || ChecksOut(s, t.before)
    {
      StartedSafeIff(s, env, t);
    }
    var idle := Schedules([], [], [], [], []);
    assert s.connected ==> !ChecksOut(s, idle.before);
    assert Started(s, env, idle).Safe() <==> !s.connected || s.epics == {} || env.Works() || ChecksOut(s, idle.before);
  }

  /**
   * `start` leaves no connection behind, whatever the tasks do, if and only if no connection runs on
   * that nobody told to stop, there is no EPIC, or the new connection does not come up.
   */
  lemma StartIsTidyIff(s: Shared, env: Env)
    requires s.Valid() && s.Tidy()
    ensures (forall t :: Started(s, env, t).Tidy()) <==> !Untold(s) || s.epics == {} || !env.Works()
  {
    forall t | !Untold(s) || s.epics == {} || !env.Works()
      ensures Started(s, env, t).Tidy()
    {
      var u := TaskRun(s, t.before);
      TasksOnlyMove(s, t.before);
      MovingKeepsSafe(s, u);
      MovingKeepsTidy(s, u);
      OpenedTidyIff(u, env, t);
      UntoldOnlyGoes(u, t);
    }
    if Untold(s) && s.epics != {} && env.Works() {
      OpenedTidyIff(s, env, IDLE);
      var up := s.(generation := s.generation + 1);
      assert TaskRun(TaskRun(up, IDLE.opening), IDLE.subscribing) == up;
      assert !Started(s, env, IDLE).Tidy();
    }
  }

  lemma UntoldOnlyGoes(s: Shared, t: Schedules)
    ensures Untold(TaskRun(TaskRun(s.(generation := s.generation + 1), t.opening), t.subscribing)) ==> Untold(s)
  {
    var up := s.(generation := s.generation + 1);
    var bumped := TaskRun(up, t.opening);
    var made := TaskRun(bumped, t.subscribing);
    TasksOnlyMove(up, t.opening);
    TasksOnlyMove(bumped, t.subscribing);
    if Untold(made) {
      assert TaskMoved(up.tasks[made.current.value], bumped.tasks[made.current.value]);
      assert TaskMoved(bumped.tasks[made.current.value], made.tasks[made.current.value]);
    }
  }

  /** The EPICs change under a live connection: only its own exit check takes the flag down. */
  lemma ChangedFlag(s: Shared, epics: set<string>, t: Schedules)
    requires s.Valid() && s.Live()
    ensures var c := Changed(s, epics, t);
            && c.Valid() && c.Live() && c.epics == epics && c.generation == s.generation && c.current == s.current
            && (c.connected <==> s.connected && !ChecksOut(s, t.before + t.changed))
            && c.tasks.Keys == s.tasks.Keys
            && (s.generation in s.tasks ==> c.tasks[s.generation].subscribed == s.tasks[s.generation].subscribed)
            && (s.generation in s.tasks ==>
                  Rank(c.tasks[s.generation].phase) ==
                  Min(3, Rank(s.tasks[s.generation].phase) + StepsOf(t.before + t.changed, s.generation)))
  {
    hide TaskRun, StepsOf;
    var u := TaskRun(s, t.before);
    var v := u.(epics := epics);
    TasksOnlyMove(s, t.before);
    MovingKeepsSafe(s, u);
    FlagFallsIff(s, t.before);
    TasksOnlyMove(v, t.changed);
    MovingKeepsSafe(v, TaskRun(v, t.changed));
    FlagFallsIff(v, t.changed);
    StepsConcat(t.before, t.changed, s.generation);
    if s.generation in s.tasks {
      RunAdvances(s, t.before, s.generation);
      RunAdvances(v, t.changed, s.generation);
    }
  }

  /** After the handshake the flag is up exactly if the current task has not checked out. */
  lemma AwaitedFlag(s: Shared, t: Schedules)
    requires s.Valid() && s.Live() && s.connected
    ensures var a := Awaited(s, t);
            && a.Valid() && a.Live() && a.epics == s.epics && a.generation == s.generation && a.current == s.current
            && (a.connected <==> !ChecksOut(s, t.handshake))
            && s.generation in s.tasks && s.generation in a.tasks
            && a.tasks[s.generation].subscribed == s.tasks[s.generation].subscribed
  {
    var u := Signalled(s);
    assert u.tasks.Keys == s.tasks.Keys && u.Valid() && u.Live();
    TasksOnlyMove(u, t.handshake);
    MovingKeepsSafe(u, TaskRun(u, t.handshake));
    FlagFallsIff(u, t.handshake);
    SpentKeepsSafe(TaskRun(u, t.handshake), s.generation);
  }

  /** A change of the EPICs that makes a live streamer reconnect. */
  lemma ReconnectedSafeIff(s: Shared, epics: set<string>, env: Env, t: Schedules)
    requires s.Valid() && s.Safe() && epics != s.epics
    ensures var c := Changed(s, epics, t);
            (if c.connected then Reconnected(c, env, t) else c).Safe() <==>
              !s.connected || (epics != {} && env.Works()) || ChecksOut(s, t.before + t.changed + t.handshake)
    ensures !(epics != {} && env.Works()) ==>
              var c := Changed(s, epics, t);
              ((if c.connected then Reconnected(c, env, t) else c).connected <==>
                s.connected && !ChecksOut(s, t.before + t.changed + t.handshake))
  {
    hide Changed, TaskRun, Awaited, Opened, Shared.Valid;
    var c := Changed(s, epics, t);
    ChangedFlag(s, epics, t);
    StepsConcat(t.before + t.changed, t.handshake, s.generation);
    if c.connected {
      AwaitedFlag(c, t);
      OpenedSafeIff(Awaited(c, t), env, t);
      if epics == {} {
        NothingOpened(Awaited(c, t), env, t);
      }
    }
  }

  lemma NothingOpened(s: Shared, env: Env, t: Schedules)
    requires s.epics == {}
    ensures Opened(s, env, t) == s
  {
  }

  lemma AddedSafeIff(s: Shared, epic: string, env: Env, t: Schedules)
    requires s.Valid() && s.Safe()
    ensures Added(s, epic, env, t).Safe() <==>
              epic in s.epics || !s.connected || env.Works() || ChecksOut(s, t.before + t.changed + t.handshake)
  {
    if epic in s.epics {
      TasksOnlyMove(s, t.before);
      MovingKeepsSafe(s, TaskRun(s, t.before));
    } else {
      ReconnectedSafeIff(s, s.epics + {epic}, env, t);
    }
  }

  /**
   * A call of `remove` from a safe state leaves a safe one exactly when it changes nothing, nothing
   * was connected, EPICs are left and their connection comes up, or the old task checks out by the end
   * of the handshake.
   */
  lemma RemovedSafeIff(s: Shared, epic: string, env: Env, t: Schedules)
    requires s.Valid() && s.Safe()
    ensures Removed(s, epic, env, t).Safe() <==>
              || epic !in s.epics || !s.connected || (s.epics != {epic} && env.Works())
              || ChecksOut(s, t.before + t.changed + t.handshake)
    ensures epic in s.epics && (s.epics == {epic} || !env.Works()) ==>
              (Removed(s, epic, env, t).connected <==>
                s.connected && !ChecksOut(s, t.before + t.changed + t.handshake))
  {
    if epic !in s.epics {
      TasksOnlyMove(s, t.before);
      MovingKeepsSafe(s, TaskRun(s, t.before));
    } else {
      ReconnectedSafeIff(s, s.epics - {epic}, env, t);
      assert s.epics - {epic} == {} <==> s.epics == {epic};
    }
  }

  const IDLE := Schedules([], [], [], [], [])

  lemma AddIsSafeIff(s: Shared, epic: string, env: Env)
    requires s.Valid() && s.Safe()
    ensures (forall t :: Added(s, epic, env, t).Safe()) <==> epic in s.epics || !s.connected || env.Works()
  {
    forall t | epic in s.epics || !s.connected || env.Works()
      ensures Added(s, epic, env, t).Safe()
    {
      AddedSafeIff(s, epic, env, t);
    }
    AddedSafeIff(s, epic, env, IDLE);
    assert IDLE.before + IDLE.changed + IDLE.handshake == [];
  }

  /** What a caller of `remove` can look at beforehand. */
  lemma RemoveIsSafeIff(s: Shared, epic: string, env: Env)
    requires s.Valid() && s.Safe()
    ensures (forall t :: Removed(s, epic, env, t).Safe()) <==>
              epic !in s.epics || !s.connected || (s.epics != {epic} && env.Works())
  {
    forall t | epic !in s.epics || !s.connected || (s.epics != {epic} && env.Works())
      ensures Removed(s, epic, env, t).Safe()
    {
      RemovedSafeIff(s, epic, env, t);
    }
    RemovedSafeIff(s, epic, env, IDLE);
    assert IDLE.before + IDLE.changed + IDLE.handshake == [];
  }

  /** The handshake of a change completes when the task it waits for leaves its confirmation. */
  predicate Confirms(s: Shared, epics: set<string>, t: Schedules) {
    var c := Changed(s, epics, t);
    c.connected ==>
      c.current.Some? &&
      var reached := TaskRun(Signalled(c), t.handshake);
      c.current.value in reached.tasks && reached.tasks[c.current.value].confirmed
  }

  /** With every handshake completing, `add` and `remove` always leave a safe state. */
  lemma ConfirmedIsSafe(s: Shared, epic: string, env: Env, t: Schedules)
    requires s.Valid() && s.Safe()
    ensures Confirms(s, s.epics + {epic}, t) ==> Added(s, epic, env, t).Safe()
    ensures Confirms(s, s.epics - {epic}, t) ==> Removed(s, epic, env, t).Safe()
  {
    AddedSafeIff(s, epic, env, t);
    RemovedSafeIff(s, epic, env, t);
    if Confirms(s, s.epics + {epic}, t) {
      ConfirmedChecksOut(s, s.epics + {epic}, t);
    }
    if Confirms(s, s.epics - {epic}, t) {
      ConfirmedChecksOut(s, s.epics - {epic}, t);
    }
  }

  lemma ConfirmedChecksOut(s: Shared, epics: set<string>, t: Schedules)
    requires s.Valid() && s.Safe() && Confirms(s, epics, t)
    ensures !s.connected || ChecksOut(s, t.before + t.changed + t.handshake)
  {
    hide Changed, TaskRun;
    var c := Changed(s, epics, t);
    ChangedFlag(s, epics, t);
    StepsConcat(t.before + t.changed, t.handshake, s.generation);
    if c.connected {
      var u := Signalled(c);
      TasksOnlyMove(u, t.handshake);
      MovingKeepsSafe(u, TaskRun(u, t.handshake));
      RunAdvances(u, t.handshake, s.generation);
    }
  }

  /** One connection, running, for one EPIC. */
  const LIVE := Shared({"A"}, true, 1, Some(1), map[1 := Task({"A"}, Running, false, false)])

  /** A `start` that fails beside a live connection disowns it: the flag is up for a task that is not current. */
  lemma StartDisowns()
    ensures LIVE.Valid() && LIVE.Safe()
    ensures var after := Started(LIVE, Env(true, false, false), IDLE);
            !after.Safe() && after.connected && after.generation == 2 && after.tasks == LIVE.tasks
  {
  }

  /** A task that outlives the grace time keeps the flag up for an EPIC nobody asks for any more. */
  lemma RemoveOutlivesGrace()
    ensures LIVE.Valid() && LIVE.Safe()
    ensures var after := Removed(LIVE, "A", Env(false, true, true), IDLE);
            && !after.Safe() && after.connected && after.epics == {}
            && after.tasks[1].subscribed == {"A"} && after.tasks[1].phase == Running
  {
  }

  lemma OneStep(s: Shared, g: nat)
    ensures TaskRun(s, [g]) == TaskStep(s, g)
  {
    assert [g][..0] == [];
  }

  lemma OpenedGeneration(s: Shared, env: Env, t: Schedules)
    ensures Opened(s, env, t).generation == if s.epics == {} then s.generation else s.generation + 1
  {
    var up := s.(generation := s.generation + 1);
    TasksOnlyMove(up, t.opening);
    TasksOnlyMove(TaskRun(up, t.opening), t.subscribing);
  }

  lemma ReconnectedEpics(s: Shared, env: Env, t: Schedules)
    requires s.Valid()
    ensures Reconnected(s, env, t).epics == s.epics
  {
    var u := Signalled(s);
    assert u.tasks.Keys == s.tasks.Keys && u.Valid();
    TasksOnlyMove(u, t.handshake);
    MovingKeepsSafe(u, TaskRun(u, t.handshake));
    if s.current.Some? {
      SpentKeepsSafe(TaskRun(u, t.handshake), s.current.value);
    }
    OpenedSafeIff(Awaited(s, t), env, t);
    if s.epics == {} {
      NothingOpened(Awaited(s, t), env, t);
    }
  }

  lemma ReachedLive(s: Shared, epics: set<string>, t: Schedules)
    requires s.Valid()
    ensures Changed(s, epics, t).Valid() && Changed(s, epics, t).epics == epics
    ensures s.Live() ==> Changed(s, epics, t).Live()
  {
    var u := TaskRun(s, t.before).(epics := epics);
    TasksOnlyMove(s, t.before);
    MovingKeepsSafe(s, TaskRun(s, t.before));
    TasksOnlyMove(u, t.changed);
    MovingKeepsSafe(u, TaskRun(u, t.changed));
  }

  // ---- the streamer --------------------------------------------------------------------------

  class DynamicStreamer {
    var epics: set<string>
    var connected: bool
    var generation: nat
    var current: Option<nat>
    var tasks: map<nat, Task>

    ghost function View(): Shared
      reads this
    {
      Shared(epics, connected, generation, current, tasks)
    }

    ghost predicate Valid()
      reads this
    {
      View().Valid()
    }

    ghost predicate Live()
      reads this
    {
      View().Live()
    }

    ghost predicate Safe()
      reads this
    {
      View().Safe()
    }

    ghost predicate Tidy()
      reads this
    {
      View().Tidy()
    }

    constructor ()
      ensures Valid() && Safe() && Tidy() && epics == {} && !connected && tasks == map[]
    {
      epics := {};
      connected := false;
      generation := 0;
      current := None;
      tasks := map[];
    }

    /** One task takes one step. */
    method Step(g: nat)
      modifies this`connected, this`tasks
      ensures View() == TaskStep(old(View()), g)
    {
      if g in tasks {
        var t := tasks[g];
        match t.phase
        case Running =>
          tasks := tasks[g := t.(phase := Ended)];
        case Ended =>
          tasks := tasks[g := t.(phase := Checked)];
          if generation == g {
            connected := false;
          }
        case Checked =>
          tasks := tasks[g := t.(phase := Stopped, confirmed := true)];
        case Stopped =>
      }
    }

    /** Tasks run, in any order and as far as they like. */
    method TasksRun() returns (ghost schedule: seq<nat>)
      requires Valid()
      modifies this`connected, this`tasks
      ensures Valid() && View() == TaskRun(old(View()), schedule) && Moved(old(View()), View())
    {
      var steps: seq<nat> :| true;
      for k := 0 to |steps|
        invariant View() == TaskRun(old(View()), steps[..k])
      {
        assert steps[..k + 1][..k] == steps[..k];
        Step(steps[k]);
      }
      assert steps[..|steps|] == steps;
      schedule := steps;
      TasksOnlyMove(old(View()), schedule);
      MovingKeepsSafe(old(View()), View());
    }

    /** Waits for the task whose signals were taken to stop, up to the grace time. */
    method AwaitStopped(g: nat, patient: bool) returns (completed: bool, ghost schedule: seq<nat>)
      requires Valid() && g in tasks
      modifies this`connected, this`tasks
      ensures Valid() && g in TaskRun(old(View()), schedule).tasks
      ensures View() == Spent(TaskRun(old(View()), schedule), g)
      ensures completed <==> TaskRun(old(View()), schedule).tasks[g].confirmed
      ensures patient ==> TaskRun(old(View()), schedule).tasks[g].phase.Stopped?
      ensures patient && !old(tasks)[g].phase.Stopped? ==> completed
    {
      hide Moved, Shared.Valid, TaskRun;
      schedule := TasksRun();
      while patient && !tasks[g].phase.Stopped?
        invariant Valid() && g in tasks && View() == TaskRun(old(View()), schedule) && Moved(old(View()), View())
        decreases 3 - Rank(tasks[g].phase)
      {
        ghost var before := View();
        Step(g);
        OneStep(before, g);
        RunsJoin(old(View()), schedule, [g]);
        StepMoved(before, g);
        MovingKeepsSafe(before, View());
        MovedTwice(old(View()), before, View());
        ghost var middle := View();
        ghost var more := TasksRun();
        RunsJoin(old(View()), schedule + [g], more);
        MovedTwice(old(View()), middle, View());
        MovedForward(middle, View(), g);
        schedule := schedule + [g] + more;
      }
      ghost var reached := View();
      MovedFrame(old(View()), reached);
      completed := tasks[g].confirmed;
      tasks := tasks[g := tasks[g].(confirmed := false)];
      SpentKeepsSafe(reached, g);
    }

    /** Tells the current connection to shut down. */
    method Signal()
      requires Valid()
      modifies this`tasks
      ensures Valid() && View() == Signalled(old(View()))
      ensures current.Some? ==> tasks[current.value].signalled
    {
      if current.Some? {
        var g := current.value;
        tasks := tasks[g := tasks[g].(signalled := true)];
        assert tasks.Keys == old(tasks).Keys;
      }
    }

    /** Opens a connection for the current EPICs, as a task of a new generation. */
    method StartInternal(env: Env, ghost t0: Schedules) returns (r: Result<(), AppError>, ghost t: Schedules)
      requires Valid()
      modifies this
      ensures Valid() && t == t0.(opening := t.opening, subscribing := t.subscribing)
      ensures View() == Opened(old(View()), env, t)
      ensures r.Ok? <==> old(epics) == {} || env.Works()
      ensures r.Ok? && old(epics) != {} ==>
                && Safe() && connected && current == Some(generation) && generation == old(generation) + 1
                && tasks[generation] == Task(epics, Running, false, false)
      ensures r.Err? ==> (connected ==> old(connected)) && (Safe() <==> !connected)
    {
      hide Moved, TaskRun;
      t := t0;
      if epics == {} {
        return Ok(()), t;
      }
      generation := generation + 1;
      ghost var opening, subscribing;
      opening := TasksRun();
      t := t.(opening := opening);
      if !env.clientOpens {
        return Err(WebSocketError), t;
      }
      subscribing := TasksRun();
      t := t.(subscribing := subscribing);
      if !env.subscribes {
        return Err(WebSocketError), t;
      }
      current := Some(generation);
      connected := true;
      tasks := tasks[generation := Task(epics, Running, false, false)];
      return Ok(()), t;
    }

    /** Closes the current connection, waits for it, and opens the next one. */
    method Reconnect(env: Env, ghost t0: Schedules)
      returns (r: Result<(), AppError>, ghost t: Schedules, ghost timedOut: bool)
      requires Valid()
      modifies this
      ensures Valid()
      ensures t == t0.(handshake := t.handshake, opening := t.opening, subscribing := t.subscribing)
      ensures View() == Reconnected(old(View()), env, t)
      ensures r.Ok? <==> old(epics) == {} || env.Works()
      ensures old(current).Some? ==>
                var reached := TaskRun(Signalled(old(View())), t.handshake);
                old(current).value in reached.tasks
                && (timedOut <==> !reached.tasks[old(current).value].confirmed)
      ensures old(Live()) && old(connected) && env.patient ==> !timedOut
      ensures r.Err? ==> (Safe() <==> !connected)
      // the connection that was in force is told to stop, and has stopped if the wait had no limit
      ensures old(current).Some? ==> View().Told(old(current).value, env.patient)
      ensures old(Tidy()) ==> Tidy()
    {
      hide Moved, TaskRun, Opened, Shared.Tidy, Shared.Told;
      t, timedOut := t0, false;
      var stopped := current;
      Signal();
      if stopped.Some? {
        var completed;
        ghost var handshake;
        completed, handshake := AwaitStopped(stopped.value, env.patient);
        TasksOnlyMove(Signalled(old(View())), handshake);
        MovedFrame(Signalled(old(View())), TaskRun(Signalled(old(View())), handshake));
        t := t.(handshake := handshake);
        timedOut := !completed;
      }
      assert View() == Awaited(old(View()), t);
      r, t := StartInternal(env, t);
      ReconnectedIsTidy(old(View()), env, t, env.patient);
    }

    /** Adds an EPIC, and reconnects with it when connected. */
    method Add(epic: string, env: Env) returns (r: Result<(), AppError>, ghost t: Schedules, ghost timedOut: bool)
      requires Valid()
      modifies this
      ensures Valid() && View() == Added(old(View()), epic, env, t)
      ensures epics == old(epics) + {epic}
      ensures old(Safe()) ==> (Safe() <==> epic in old(epics) || !old(connected) || env.Works()
                                           || old(ChecksOut(View(), t.before + t.changed + t.handshake)))
      ensures old(Safe()) && (r.Ok? || !timedOut) ==> Safe()
      ensures old(Safe()) && env.patient ==> !timedOut
      ensures r.Err? ==> (Safe() <==> !connected)
      // a connection that was in force when the EPICs changed is told to stop, and none is left behind
      ensures epic !in old(epics) && Changed(old(View()), old(epics) + {epic}, t).connected ==>
                old(current).Some? && View().Told(old(current).value, env.patient)
      ensures old(Tidy()) ==> Tidy()
      ensures r.Ok? <==> !(epic !in old(epics) && Changed(old(View()), old(epics) + {epic}, t).connected) || env.Works()
    {
      hide TaskRun, Reconnected, Moved, Shared.Tidy, Shared.Told;
      t, timedOut, r := IDLE, false, Ok(());
      ghost var start := View();
      ghost var ran := TasksRun();
      MovedFrame(start, View());
      t := t.(before := ran);
      TidyThrough(start, View());
      if epic !in epics {
        ghost var before := View();
        epics := epics + {epic};
        ghost var middle := View();
        ran := TasksRun();
        MovedFrame(middle, View());
        TidyOfEpics(middle, before, View());
        t := t.(changed := ran);
        ReachedLive(start, start.epics + {epic}, t);
        if connected {
          r, t, timedOut := Reconnect(env, t);
          ReconnectedEpics(Changed(start, start.epics + {epic}, t), env, t);
        }
      }
      if start.Safe() {
        AddedSafeIff(start, epic, env, t);
        if Confirms(start, start.epics + {epic}, t) {
          ConfirmedIsSafe(start, epic, env, t);
        }
      }
    }

    /** Removes an EPIC, and reconnects without it when connected: with none left, only closes. */
    method Remove(epic: string, env: Env) returns (r: Result<(), AppError>, ghost t: Schedules, ghost timedOut: bool)
      requires Valid()
      modifies this
      ensures Valid() && View() == Removed(old(View()), epic, env, t)
      ensures epics == old(epics) - {epic}
      ensures old(Safe()) ==> (Safe() <==> epic !in old(epics) || !old(connected) || (epics != {} && env.Works())
                                           || old(ChecksOut(View(), t.before + t.changed + t.handshake)))
      ensures old(Safe()) && (!timedOut || (r.Ok? && epics != {})) ==> Safe()
      ensures old(Safe()) && env.patient ==> !timedOut
      ensures old(Safe()) && timedOut && (r.Err? || epics == {}) ==> (Safe() <==> !connected)
      // a connection that was in force when the EPICs changed is told to stop, and none is left behind
      ensures epic in old(epics) && Changed(old(View()), old(epics) - {epic}, t).connected ==>
                old(current).Some? && View().Told(old(current).value, env.patient)
      ensures old(Tidy()) ==> Tidy()
      ensures r.Ok? <==>
                || !(epic in old(epics) && Changed(old(View()), old(epics) - {epic}, t).connected)
                || epics == {} || env.Works()
    {
      hide TaskRun, Reconnected, Moved, Shared.Tidy, Shared.Told;
      t, timedOut, r := IDLE, false, Ok(());
      ghost var start := View();
      ghost var ran := TasksRun();
      MovedFrame(start, View());
      t := t.(before := ran);
      TidyThrough(start, View());
      var wasRemoved := epic in epics;
      ghost var before := View();
      epics := epics - {epic};
      if wasRemoved {
        ghost var middle := View();
        ran := TasksRun();
        MovedFrame(middle, View());
        TidyOfEpics(middle, before, View());
        t := t.(changed := ran);
        ReachedLive(start, start.epics - {epic}, t);
        if connected {
          r, t, timedOut := Reconnect(env, t);
          ReconnectedEpics(Changed(start, start.epics - {epic}, t), env, t);
        }
      }
      if start.Safe() {
        RemovedSafeIff(start, epic, env, t);
        if Confirms(start, start.epics - {epic}, t) {
          ConfirmedIsSafe(start, epic, env, t);
        }
      }
    }

    /** Removes every EPIC and closes the connection. */
    method Clear(env: Env) returns (r: Result<(), AppError>, ghost t: Schedules)
      requires Valid()
      modifies this
      ensures Valid() && View() == Cleared(old(View()), env, t)
      ensures r.Ok? && epics == {} && !connected && Safe()
      // a connection that was in force when the EPICs went is told to stop, and none is left behind
      ensures Changed(old(View()), {}, t).connected ==>
                old(current).Some? && View().Told(old(current).value, env.patient)
      ensures old(Tidy()) ==> Tidy()
    {
      hide TaskRun, Reconnected, Awaited, Moved, Shared.Tidy, Shared.Told;
      t, r := IDLE, Ok(());
      ghost var start := View();
      ghost var ran := TasksRun();
      MovedFrame(start, View());
      TidyThrough(start, View());
      t := t.(before := ran);
      ghost var before := View();
      epics := {};
      ghost var middle := View();
      ran := TasksRun();
      MovedFrame(middle, View());
      TidyOfEpics(middle, before, View());
      t := t.(changed := ran);
      ReachedLive(start, {}, t);
      if connected {
        ghost var timedOut, reconnecting := false, View();
        r, t, timedOut := Reconnect(env, t);
        ReconnectedEpics(reconnecting, env, t);
        NothingReopened(reconnecting, env, t);
        ghost var closed := View();
        connected := false;
        TidyWhenDown(closed, View());
      }
    }

    /** Opens the first connection, or one more beside a live one. */
    method Start(env: Env) returns (r: Result<(), AppError>, ghost t: Schedules)
      requires Valid()
      modifies this
      ensures Valid() && View() == Started(old(View()), env, t) && epics == old(epics)
      ensures r.Ok? <==> epics == {} || env.Works()
      ensures r.Ok? && epics != {} ==> connected && generation == old(generation) + 1
      ensures old(Safe()) ==> (Safe() <==> !old(connected) || r.Ok? || old(ChecksOut(View(), t.before)))
      ensures old(Safe()) && (!old(connected) || r.Ok?) ==> Safe()
      ensures r.Err? ==> (Safe() <==> !connected)
      // only a connection that still ran untold when the next one was opened is left behind
      ensures old(Tidy()) ==>
                (Tidy() <==> old(epics) == {} || !env.Works() || !old(Untold(Beforehand(View(), t))))
    {
      hide Moved, TaskRun, Shared.Tidy;
      t := IDLE;
      ghost var start := View();
      ghost var ran := TasksRun();
      MovedFrame(start, View());
      t := t.(before := ran);
      ghost var middle := View();
      r, t := StartInternal(env, t);
      TidyThrough(start, middle);
      if start.Tidy() {
        OpenedTidyIff(middle, env, t);
      }
      OpenedSafeIff(middle, env, t);
      OpenedGeneration(middle, env, t);
      if start.Safe() {
        StartedSafeIff(start, env, t);
      }
    }

    /** Tells the connection to shut down and takes the flag down at once. */
    method Disconnect() returns (r: Result<(), AppError>)
      requires Valid()
      modifies this
      ensures Valid() && r.Ok? && !connected && Safe() && epics == old(epics) && generation == old(generation)
      ensures current == old(current) && (current.Some? ==> tasks[current.value].signalled)
      ensures old(Tidy()) ==> Tidy()
    {
      hide Moved, TaskRun;
      ghost var before := View();
      ghost var ran := TasksRun();
      MovedFrame(before, View());
      TidyThrough(before, View());
      ghost var running := View();
      Signal();
      connected := false;
      TidyWhenTold(running, View());
      r := Ok(());
    }
  }
}
