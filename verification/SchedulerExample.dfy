/** Concrete runs.  They show that what is proved of firings, removals and monitors is not proved of
    nothing, and exhibit inputs for what the scheduler does not do: keep every timer ID, hand out every
    readiness, space the firings of a task with descriptor -1. */
module SchedulerExample {
  import opened Deadlines
  import opened SchedulerModel
  import opened SchedulerCalls
  import opened SchedulerPump
  import opened SchedulerDispatch
  import opened SchedulerTurn
  import opened SchedulerSafety
  import opened MonitorTimer

  const MIDNIGHT: ClockReading := Timespec(0, 0)
  const NEXT_SECOND: ClockReading := Timespec(1, 0)

  // ----- Running step by step ---------------------------------------------------------------

  /** A scheduler for one task object and any number of timers. */
  function New(timers: nat): State {
    State(Store(timers, [BLANK], [0], seq(timers, i => -3 - i), [], {}, {}, map[], {}), false, 0, 0, 0, [], map[])
  }

  /** Which timer the task carries. */
  function HeldBy0(t: Task): map<int, nat> {
    if t.fd < INVALID_FD then map[t.fd := 0] else map[]
  }

  /** The only task object was handed out. */
  function HandedOut(timers: nat, t: Task, polls: nat, log: seq<Event>): State
    requires timers > 0
  {
    var ids := seq(timers, i => -3 - i);
    State(Store(timers, [t], [], if t.fd < INVALID_FD then ids[1..] else ids, [], {0}, {0}, HeldBy0(t), {}),
          false, 0, 0, polls, log, map[])
  }

  /** The only task object of a scheduler for one timer is scheduled. */
  function Listed(t: Task, ticks: nat, calls: nat, polls: nat, log: seq<Event>): State {
    State(Store(1, [t], [], if t.fd < INVALID_FD then [] else [-3], [0], {0}, {}, HeldBy0(t), {}),
          false, ticks, calls, polls, log, map[])
  }

  lemma NewIsInitial(timers: nat)
    requires timers > 0
    ensures Init(New(timers)) && Inv(New(timers).store)
  {
    assert New(timers).store.pool == seq(1, i requires 0 <= i < 1 => 1 - 1 - i);
    InitInv(New(timers));
  }

  lemma RunCons(env: Env, s: State, step: Step, rest: seq<Step>)
    requires Inv(s.store)
    ensures Run(env, s, [step] + rest) == Run(env, Take1(env, s, step), rest)
  {
    hide Inv, Take1;
    assert ([step] + rest)[1..] == rest;
  }

  lemma RunApi(env: Env, s: State, a: Action, rest: seq<Step>)
    requires Inv(s.store)
    ensures Inv(Perform(env, s, a).store)
    ensures Run(env, s, [Call(Api(a))] + rest) == Run(env, Perform(env, s, a), rest)
  {
    hide Inv, Perform;
    PerformKeeps(env, s, a);
    RunCons(env, s, Call(Api(a)), rest);
  }

  lemma ReachedBy(env: Env, s: State, steps: seq<Step>)
    requires Init(s) && Inv(s.store)
    ensures Reachable(env, Run(env, s, steps))
  {
  }

  /** A turn of a scheduler whose only task is not to be swept visits that task. */
  lemma OneTaskTurn(env: Env, s: State, t: Task, ready: FdSets)
    requires s == Listed(t, s.ticks, s.calls, s.polls, s.log) && Inv(s.store)
    requires !t.opts.remove && env.select(s.polls) == SelectReady(ready)
    ensures ReadyFds(env, s) == Restrict(Asked(s.store, 1), ready)
    ensures var s1 := s.(polls := s.polls + 1); var r := Visit(env, s1, 0, Restrict(Asked(s.store, 1), ready)).0;
      |r.store.list| == 1 ==> Pump(env, s) == r
  {
    hide Inv, Visit, Asked, Restrict, Extends;
    assert Sweep(s.store, 1) == s.store;
    assert Sweep(s.store, 0) == s.store;
    var s1 := s.(polls := s.polls + 1);
    assert Swept(s) == s1;
    var f := Restrict(Asked(s1.store, |s1.store.list|), ready);
    ListFits(s1.store);
    var (r, f1) := Visit(env, s1, 0, f);
    if |r.store.list| == 1 {
      assert Dispatch(env, r, 1, f1) == r;
      assert Dispatch(env, s1, 0, f) == Dispatch(env, r, 1, f1);
    }
  }

  // ----- Timers -----------------------------------------------------------------------------

  /** A task without a descriptor whose callback does nothing. */
  predicate Ticking(env: Env, t: Task, ticks: nat, calls: nat) {
    && t.fd <= INVALID_FD && !t.opts.remove && t.cbs.timeout && t.timeOut >= 0
    && Expired(env.clock(ticks), t.expire) && env.callback(calls).calls == []
  }

  function Fires(t: Task, ticks: nat, calls: nat): seq<Event> {
    [Visited(0, t), Fired(0, TimedOut, t.fd, ticks, calls)]
  }

  lemma TimerFires(env: Env, t: Task, ticks: nat, calls: nat, polls: nat, log: seq<Event>)
    requires Ticking(env, t, ticks, calls) && Inv(Listed(t, ticks, calls, polls, log).store)
    ensures Fire(env, Listed(t, ticks + 1, calls, polls, log + [Visited(0, t)]), 0, TimedOut, ticks)
         == (Listed(t, ticks + 1, calls + 1, polls, log + Fires(t, ticks, calls)), env.callback(calls).complete)
  {
    hide Inv, Extends, LossesLogged;
    assert log + [Visited(0, t)] + [Fired(0, TimedOut, t.fd, ticks, calls)] == log + Fires(t, ticks, calls);
  }

  /** A visit to a timer that is due. */
  lemma TimerVisit(env: Env, t: Task, ticks: nat, calls: nat, polls: nat, log: seq<Event>, f: FdSets)
    requires Ticking(env, t, ticks, calls) && Inv(Listed(t, ticks, calls, polls, log).store)
    requires env.callback(calls).complete ==> t.fd == INVALID_FD
    ensures Visit(env, Listed(t, ticks, calls, polls, log), 0, f).0
         == if env.callback(calls).complete then
              Listed(t, ticks + 1, calls + 1, polls, log + Fires(t, ticks, calls))
            else
              Listed(t.(expire := Deadline(env.clock(ticks + 1), t.timeOut)), ticks + 2, calls + 1, polls,
                     log + Fires(t, ticks, calls) + [Armed(0, ticks + 1, t.timeOut, true)])
  {
    hide Inv, Grows, Fire, Deadline, Fires;
    TimerFires(env, t, ticks, calls, polls, log);
    assert TimedOutAt(env, ticks, t);
  }

  lemma TimerTurn(env: Env, t: Task, ticks: nat, calls: nat, polls: nat, log: seq<Event>)
    requires Ticking(env, t, ticks, calls) && Inv(Listed(t, ticks, calls, polls, log).store)
    requires env.callback(calls).complete ==> t.fd == INVALID_FD
    requires env.select(polls) == SelectReady(FdSets({}, {}, {}))
    ensures Take1(env, Listed(t, ticks, calls, polls, log), Turn)
         == if env.callback(calls).complete then
              Listed(t, ticks + 1, calls + 1, polls + 1, log + Fires(t, ticks, calls))
            else
              Listed(t.(expire := Deadline(env.clock(ticks + 1), t.timeOut)), ticks + 2, calls + 1, polls + 1,
                     log + Fires(t, ticks, calls) + [Armed(0, ticks + 1, t.timeOut, true)])
  {
    hide Inv, Visit, Fires, Deadline, Pump, Expired, Asked, Restrict, ReadyFds;
    var s := Listed(t, ticks, calls, polls, log);
    InvIndexed(s.store);
    OneTaskTurn(env, s, t, FdSets({}, {}, {}));
    TimerVisit(env, t, ticks, calls, polls + 1, log, Restrict(Asked(s.store, 1), FdSets({}, {}, {})));
  }

  // ----- A timer fires again ----------------------------------------------------------------

  /** A clock that stands still, callbacks that do nothing and want to go on, nothing ever ready. */
  function Quiet(): Env {
    Env(_ => MIDNIGHT, _ => Script([], false), _ => SelectReady(FdSets({}, {}, {})))
  }

  lemma AtOnce()
    ensures Deadline(MIDNIGHT, 0) == Timespec(0, 0)
  {
  }

  lemma CreateFirstTimer(env: Env, timers: nat, timeOut: nat, user: nat)
    requires timers > 0 && Inv(New(timers).store)
    ensures Perform(env, New(timers), CreateTimer(timeOut, user, true))
         == HandedOut(timers, TimerTask(-3, timeOut, user, true), 0, [Created(0)])
  {
    hide Inv;
    var q := New(timers).store;
    assert q.ids[0] == -3 && q.pool[1..] == [];
    assert Fresh(TimerTask(-3, timeOut, user, true)) == TimerTask(-3, timeOut, user, true);
  }

  lemma ScheduleTimer(env: Env, t: Task, polls: nat, log: seq<Event>)
    requires Inv(HandedOut(1, t, polls, log).store)
    requires t.timeOut >= 0 && t.opts.TimerOnly() && t.cbs.timeout && t.fd <= INVALID_FD
    ensures Perform(env, HandedOut(1, t, polls, log), Schedule(0))
         == Listed(t.(expire := Deadline(env.clock(0), t.timeOut)), 1, 0, polls, log + [Armed(0, 0, t.timeOut, false)])
  {
    hide Inv, Deadline;
    assert Normalized(t) == t.opts;
    assert t.fd < INVALID_FD ==> HandedOut(1, t, polls, log).store.ids == [];
  }

  /** The first timer of a new scheduler, with a time-out of 0, scheduled. */
  lemma TimerScheduled(rest: seq<Step>)
    ensures var t := TimerTask(-3, 0, 7, true);
      var s := Ticker(1, 0, 0, [Created(0), Armed(0, 0, 0, false)]);
      && Inv(New(1).store) && Inv(s.store)
      && Run(Quiet(), New(1), [Call(Api(CreateTimer(0, 7, true)))] + ([Call(Api(Schedule(0)))] + rest))
        == Run(Quiet(), s, rest)
  {
    hide Inv, Run, Deadline, Perform, New, HandedOut, Listed, Init;
    NewIsInitial(1);
    AtOnce();
    CreateFirstTimer(Quiet(), 1, 0, 7);
    RunApi(Quiet(), New(1), CreateTimer(0, 7, true), [Call(Api(Schedule(0)))] + rest);
    var s1 := HandedOut(1, TimerTask(-3, 0, 7, true), 0, [Created(0)]);
    ScheduleTimer(Quiet(), TimerTask(-3, 0, 7, true), 0, [Created(0)]);
    assert [Created(0)] + [Armed(0, 0, 0, false)] == [Created(0), Armed(0, 0, 0, false)];
    assert TimerTask(-3, 0, 7, true).(expire := Deadline(MIDNIGHT, 0)) == TimerTask(-3, 0, 7, true);
    RunApi(Quiet(), s1, Schedule(0), rest);
  }

  function Ticker(ticks: nat, calls: nat, polls: nat, log: seq<Event>): State {
    Listed(TimerTask(-3, 0, 7, true), ticks, calls, polls, log)
  }

  /** What a turn adds to the log. */
  function Turned(log: seq<Event>, ticks: nat, calls: nat): seq<Event> {
    log + Fires(TimerTask(-3, 0, 7, true), ticks, calls) + [Armed(0, ticks + 1, 0, true)]
  }

  lemma QuietTurn(ticks: nat, calls: nat, polls: nat, log: seq<Event>)
    requires Inv(Ticker(ticks, calls, polls, log).store)
    ensures Take1(Quiet(), Ticker(ticks, calls, polls, log), Turn)
         == Ticker(ticks + 2, calls + 1, polls + 1, Turned(log, ticks, calls))
  {
    hide Inv, Take1, Fires, Deadline;
    AtOnce();
    TimerTurn(Quiet(), TimerTask(-3, 0, 7, true), ticks, calls, polls, log);
  }

  lemma TwoQuietTurns(log: seq<Event>)
    requires Inv(Ticker(1, 0, 0, log).store)
    ensures Run(Quiet(), Ticker(1, 0, 0, log), [Turn] + ([Turn] + []))
         == Ticker(5, 2, 2, Turned(Turned(log, 1, 0), 3, 1))
  {
    hide Inv, Take1, Turned;
    QuietTurn(1, 0, 0, log);
    QuietTurn(3, 1, 1, Turned(log, 1, 0));
    RunCons(Quiet(), Ticker(1, 0, 0, log), Turn, [Turn] + []);
    RunCons(Quiet(), Ticker(3, 1, 1, Turned(log, 1, 0)), Turn, []);
    RunNothing(Quiet(), Ticker(5, 2, 2, Turned(Turned(log, 1, 0), 3, 1)));
  }

  /** Two turns of a reachable scheduler in which the same timer fires twice. */
  lemma TimersFireAgain()
    ensures MonotoneClock(Quiet())
    ensures exists s: State :: Reachable(Quiet(), s) && NextFiring(s.log, 3, 6, 0)
  {
    var log, turns := [Created(0), Armed(0, 0, 0, false)], [Turn] + ([Turn] + []);
    TimerScheduled(turns);
    NewIsInitial(1);
    FiresTwice(log);
    hide Inv, Run, Init, Reachable, NextFiring, Scheduled, New, Turned;
    TwoQuietTurns(log);
    ReachedBy(Quiet(), New(1), [Call(Api(CreateTimer(0, 7, true)))] + ([Call(Api(Schedule(0)))] + turns));
  }

  lemma RunNothing(env: Env, s: State)
    requires Inv(s.store)
    ensures Run(env, s, []) == s
  {
  }

  lemma FiresTwice(log: seq<Event>)
    requires log == [Created(0), Armed(0, 0, 0, false)]
    ensures NextFiring(Ticker(5, 2, 2, Turned(Turned(log, 1, 0), 3, 1)).log, 3, 6, 0)
  {
  }

  // ----- Descriptor -1 ----------------------------------------------------------------------

  /** A clock that jumps by a second after its first reading, callbacks that report completion. */
  function Eager(): Env {
    Env(n => if n == 0 then MIDNIGHT else NEXT_SECOND, _ => Script([], true), _ => SelectReady(FdSets({}, {}, {})))
  }

  function Special(expire: Timespec): Task {
    Task(INVALID_FD, NO_OPTS.(timer := true), ONE_SECOND, expire, 0, Callbacks(false, false, false, true))
  }

  lemma InASecond()
    ensures Deadline(MIDNIGHT, ONE_SECOND) == Timespec(0, ONE_SECOND)
  {
  }

  lemma CreateFirst(env: Env, s: State, t: Task, polls: nat, log: seq<Event>)
    requires s == New(1).(polls := polls, log := log) && Inv(s.store)
    requires WellFormed(t) && t.fd >= INVALID_FD && t.expire == Timespec(0, 0) && !t.opts.remove
    ensures Perform(env, s, CreateTask(t.fd, t.opts, t.timeOut, t.user, t.cbs))
      == HandedOut(1, t, polls, log + [Created(0)])
  {
    hide Inv;
    assert s.store.pool[1..] == [];
    assert Fresh(t) == t;
  }

  function CreateSpecial(): Action {
    CreateTask(INVALID_FD, NO_OPTS.(timer := true), ONE_SECOND, 0, Callbacks(false, false, false, true))
  }

  function Waiting(ticks: nat, calls: nat, polls: nat, log: seq<Event>): State {
    Listed(Special(Timespec(0, ONE_SECOND)), ticks, calls, polls, log)
  }

  lemma SpecialScheduled(rest: seq<Step>)
    ensures var s := Waiting(1, 0, 0, [Created(0)] + [Armed(0, 0, ONE_SECOND, false)]);
      && Inv(New(1).store) && Inv(s.store)
      && Run(Eager(), New(1), [Call(Api(CreateSpecial()))] + ([Call(Api(Schedule(0)))] + rest)) == Run(Eager(), s, rest)
  {
    hide Inv, Run, Deadline, Perform, New, HandedOut, Listed, Init;
    NewIsInitial(1);
    NewIsNew();
    InASecond();
    var t := Special(Timespec(0, 0));
    CreateFirst(Eager(), New(1), t, 0, []);
    assert [] + [Created(0)] == [Created(0)];
    RunApi(Eager(), New(1), CreateSpecial(), [Call(Api(Schedule(0)))] + rest);
    ScheduleTimer(Eager(), t, 0, [Created(0)]);
    RunApi(Eager(), HandedOut(1, t, 0, [Created(0)]), Schedule(0), rest);
  }

  lemma EagerTurn(ticks: nat, calls: nat, polls: nat, log: seq<Event>)
    requires ticks > 0 && Inv(Waiting(ticks, calls, polls, log).store)
    ensures Take1(Eager(), Waiting(ticks, calls, polls, log), Turn)
         == Waiting(ticks + 1, calls + 1, polls + 1, log + Fires(Special(Timespec(0, ONE_SECOND)), ticks, calls))
  {
    hide Inv, Take1, Fires, Deadline;
    TimerTurn(Eager(), Special(Timespec(0, ONE_SECOND)), ticks, calls, polls, log);
  }

  function EagerLog(log: seq<Event>, ticks: nat, calls: nat): seq<Event> {
    log + Fires(Special(Timespec(0, ONE_SECOND)), ticks, calls)
  }

  lemma TwoEagerTurns(log: seq<Event>)
    requires Inv(Waiting(1, 0, 0, log).store)
    ensures Run(Eager(), Waiting(1, 0, 0, log), [Turn] + ([Turn] + []))
      == Waiting(3, 2, 2, EagerLog(EagerLog(log, 1, 0), 2, 1))
  {
    hide Inv, Take1, Fires;
    EagerTurn(1, 0, 0, log);
    EagerTurn(2, 1, 1, EagerLog(log, 1, 0));
    RunCons(Eager(), Waiting(1, 0, 0, log), Turn, [Turn] + []);
    RunCons(Eager(), Waiting(2, 1, 1, EagerLog(log, 1, 0)), Turn, []);
    RunNothing(Eager(), Waiting(3, 2, 2, EagerLog(EagerLog(log, 1, 0), 2, 1)));
  }

  /** A task with descriptor -1 whose callback reports completion stays and is not armed again: here it
      fires twice at the same instant, although its time-out is one second. */
  lemma SpecialFiresUnspaced()
    ensures MonotoneClock(Eager())
    ensures exists s: State ::
      && Reachable(Eager(), s) && NextFiring(s.log, 3, 5, 0) && !ArmedBetween(s.log, 3, 5, 0)
      && s.log[1] == Armed(0, 0, ONE_SECOND, false)
      && Nanos(Eager().clock(s.log[5].tick)) < Nanos(Eager().clock(s.log[3].tick)) + ONE_SECOND
  {
    var log, turns := [Created(0)] + [Armed(0, 0, ONE_SECOND, false)], [Turn] + ([Turn] + []);
    hide Inv, Run, Init, Reachable, NextFiring, ArmedBetween, Waiting, New, EagerLog, Nanos, Eager, MonotoneClock,
        CreateSpecial;
    EagerIsMonotone();
    SpecialScheduled(turns);
    NewIsInitial(1);
    EagerFiresTwice(log);
    TwoEagerTurns(log);
    ReachedBy(Eager(), New(1), [Call(Api(CreateSpecial()))] + ([Call(Api(Schedule(0)))] + turns));
  }

  lemma EagerIsMonotone()
    ensures MonotoneClock(Eager())
  {
  }

  lemma EagerFiresTwice(log: seq<Event>)
    requires log == [Created(0)] + [Armed(0, 0, ONE_SECOND, false)]
    ensures var l := Waiting(3, 2, 2, EagerLog(EagerLog(log, 1, 0), 2, 1)).log;
      && NextFiring(l, 3, 5, 0) && !ArmedBetween(l, 3, 5, 0) && l[1] == Armed(0, 0, ONE_SECOND, false)
      && Nanos(Eager().clock(l[5].tick)) < Nanos(Eager().clock(l[3].tick)) + ONE_SECOND
  {
  }

  // ----- A timer ID is lost -----------------------------------------------------------------

  /** One task object, two timer IDs, one timer: the other ID is left, and no task object. */
  function OneLeft(): State {
    HandedOut(2, TimerTask(-3, 0, 7, true), 0, [Created(0)])
  }

  lemma OneLeftIs()
    ensures Inv(New(2).store) && Init(New(2)) && Perform(Quiet(), New(2), CreateTimer(0, 7, true)) == OneLeft()
    ensures OneLeft().store.pool == [] && OneLeft().store.ids == [-4]
  {
    NewIsInitial(2);
    CreateFirstTimer(Quiet(), 2, 0, 7);
  }

  /** A reachable scheduler can have timer IDs left and no task object. */
  lemma IdLeft()
    ensures Reachable(Quiet(), OneLeft()) && OneLeft().store.pool == [] && OneLeft().store.ids == [-4]
  {
    hide Inv, Run, Init, Reachable, New, OneLeft, Perform;
    OneLeftIs();
    RunApi(Quiet(), New(2), CreateTimer(0, 7, true), []);
    RunNothing(Quiet(), OneLeft());
    ReachedBy(Quiet(), New(2), [Call(Api(CreateTimer(0, 7, true)))] + []);
  }

  lemma IdLost(s: State)
    requires Inv(s.store) && s.store.pool == [] && s.store.ids == [-4] && s.store.lost == {}
    ensures var r := Perform(Quiet(), s, CreateTimer(0, 7, true));
      r.store.lost == {-4} && r.log == s.log + [LostId(-4)] && r.store.ids == []
  {
    hide Inv;
    assert [-4][1..] == [];
  }

  /** With more timers than task objects a second timer request loses an ID, for good. */
  lemma TimerIdIsLost()
    ensures exists s: State ::
      && Reachable(Quiet(), s) && s.store.lost == {-4} && s.store.ids == [] && s.store.maxTimers == 2
  {
    hide Inv, Run, Init, Reachable, New, Perform;
    OneLeftIs();
    var a := CreateTimer(0, 7, true);
    RunApi(Quiet(), New(2), a, [Call(Api(a))] + []);
    var r := Perform(Quiet(), OneLeft(), a);
    PerformKeeps(Quiet(), OneLeft(), a);
    IdLost(OneLeft());
    RunApi(Quiet(), OneLeft(), a, []);
    RunNothing(Quiet(), r);
    ReachedBy(Quiet(), New(2), [Call(Api(a))] + ([Call(Api(a))] + []));
  }

  // ----- Readiness to write is dropped ------------------------------------------------------

  /** Descriptor 4 is always ready to be written and never to be read. */
  function HalfReady(): Env {
    Env(_ => MIDNIGHT, _ => Script([], true), _ => SelectReady(FdSets({}, {4}, {})))
  }

  /** A task on descriptor 4. */
  function OnFour(read: bool, write: bool, remove: bool): Task {
    Task(4, Opts(read, write, false, false, remove), NO_TIMEOUT, Timespec(0, 0), 0, Callbacks(true, true, false, false))
  }

  function CreateOnFour(read: bool, write: bool): Action {
    CreateTask(4, Opts(read, write, false, false, false), NO_TIMEOUT, 0, Callbacks(true, true, false, false))
  }

  lemma ScheduleOnFour(env: Env, read: bool, write: bool, polls: nat, log: seq<Event>)
    requires (read || write) && Inv(HandedOut(1, OnFour(read, write, false), polls, log).store)
    ensures Perform(env, HandedOut(1, OnFour(read, write, false), polls, log), Schedule(0))
         == Listed(OnFour(read, write, false), 0, 0, polls, log)
  {
    hide Inv;
    assert Normalized(OnFour(read, write, false)) == OnFour(read, write, false).opts;
    assert HandedOut(1, OnFour(read, write, false), polls, log).store.ids == [-3];
  }

  /** Creating and scheduling a task on descriptor 4. */
  lemma FourScheduled(env: Env, read: bool, write: bool, polls: nat, log: seq<Event>, rest: seq<Step>)
    requires (read || write) && Inv(New(1).store)
    ensures var s := Listed(OnFour(read, write, false), 0, 0, polls, log + [Created(0)]);
      && Inv(s.store)
      && Run(env, New(1).(polls := polls, log := log),
             [Call(Api(CreateOnFour(read, write)))] + ([Call(Api(Schedule(0)))] + rest))
         == Run(env, s, rest)
  {
    var t, s0 := OnFour(read, write, false), New(1).(polls := polls, log := log);
    CreateFirst(env, s0, t, polls, log);
    hide Inv, Run, Perform, New, HandedOut, Listed;
    RunApi(env, s0, CreateOnFour(read, write), [Call(Api(Schedule(0)))] + rest);
    ScheduleOnFour(env, read, write, polls, log + [Created(0)]);
    RunApi(env, HandedOut(1, t, polls, log + [Created(0)]), Schedule(0), rest);
  }

  lemma FourAsks(read: bool, write: bool, remove: bool)
    ensures var q := Listed(OnFour(read, write, remove), 0, 0, 0, []).store;
      Asked(q, 1) == FdSets(if read then {4} else {}, if write then {4} else {}, {})
  {
    var q := Listed(OnFour(read, write, remove), 0, 0, 0, []).store;
    forall kind
      ensures AskedFds(q, 1, kind) == if Asks(q.tasks[0], kind) then {4} else {}
    {
      assert Asks(q.tasks[0], kind) ==> 4 in AskedFds(q, 1, kind) by {
        assert q.tasks[q.list[0]].fd == 4;
      }
    }
  }

  lemma DroppedVisit(s: State, f: FdSets)
    requires s == Listed(OnFour(true, true, false), 0, 0, 1, [Created(0)]) && Inv(s.store) && f == FdSets({}, {4}, {})
    ensures Visit(HalfReady(), s, 0, f).0
         == Listed(OnFour(true, true, false), 1, 0, 1, [Created(0)] + [Visited(0, OnFour(true, true, false))])
  {
    hide Inv, Extends, LossesLogged;
  }

  function Both(): State {
    Listed(OnFour(true, true, false), 0, 0, 0, [Created(0)])
  }

  lemma DroppedTurn()
    requires Inv(Both().store)
    ensures ReadyFds(HalfReady(), Both()) == FdSets({}, {4}, {})
    ensures Pump(HalfReady(), Both()).log == Both().log + [Visited(0, OnFour(true, true, false))]
  {
    hide Inv, Visit, Asked, Pump, ReadyFds;
    FourAsks(true, true, false);
    OneTaskTurn(HalfReady(), Both(), OnFour(true, true, false), FdSets({}, {4}, {}));
    var f := Restrict(Asked(Both().store, 1), FdSets({}, {4}, {}));
    assert f == FdSets({}, {4}, {});
    DroppedVisit(Both().(polls := 1), f);
  }

  /** A reachable turn in which descriptor 4 is ready to be written and a task watches that, but no
      callback runs: the task also watches reads, and no read is ready. */
  lemma WriteIsDropped()
    ensures exists s: State ::
      && Reachable(HalfReady(), s) && Inv(s.store) && ReadyFds(HalfReady(), s) == FdSets({}, {4}, {})
      && s.store.tasks == [OnFour(true, true, false)]
      && Pump(HalfReady(), s).log == s.log + [Visited(0, OnFour(true, true, false))]
  {
    NewIsInitial(1);
    FourScheduled(HalfReady(), true, true, 0, [], []);
    assert [] + [Created(0)] == [Created(0)] && New(1).(polls := 0, log := []) == New(1);
    assert Both().store.tasks == [OnFour(true, true, false)];
    hide Inv, Run, Init, Reachable, New, Pump, ReadyFds, OnFour;
    DroppedTurn();
    RunNothing(HalfReady(), Both());
    ReachedBy(HalfReady(), New(1), [Call(Api(CreateOnFour(true, true)))] + ([Call(Api(Schedule(0)))] + []));
    assert Reachable(HalfReady(), Both());
  }

  // ----- Time-outs of tasks with a descriptor -----------------------------------------------

  const FIVE_SECONDS: int := 5 * ONE_SECOND

  /** A task on descriptor 4 with a time-out and no TIMER bit. */
  function Timed(error: bool, expire: Timespec): Task {
    Task(4, Opts(true, false, error, false, false), FIVE_SECONDS, expire, 0, Callbacks(true, false, true, true))
  }

  function CreateTimed(error: bool): Action {
    CreateTask(4, Opts(true, false, error, false, false), FIVE_SECONDS, 0, Callbacks(true, false, true, true))
  }

  lemma ScheduleTimed(env: Env, error: bool)
    requires Inv(HandedOut(1, Timed(error, Timespec(0, 0)), 0, [Created(0)]).store)
    ensures Perform(env, HandedOut(1, Timed(error, Timespec(0, 0)), 0, [Created(0)]), Schedule(0))
         == Listed(Timed(error, Timespec(0, 0)), 0, 0, 0, [Created(0)])
  {
    hide Inv;
    assert Normalized(Timed(error, Timespec(0, 0))) == Timed(error, Timespec(0, 0)).opts;
    assert HandedOut(1, Timed(error, Timespec(0, 0)), 0, [Created(0)]).store.ids == [-3];
  }

  lemma TimedScheduled(env: Env, error: bool, rest: seq<Step>)
    requires Inv(New(1).store)
    ensures var s := Listed(Timed(error, Timespec(0, 0)), 0, 0, 0, [Created(0)]);
      && Inv(s.store)
      && Run(env, New(1), [Call(Api(CreateTimed(error)))] + ([Call(Api(Schedule(0)))] + rest)) == Run(env, s, rest)
  {
    hide Inv, Run, Perform, New, HandedOut, Listed;
    var t := Timed(error, Timespec(0, 0));
    NewIsNew();
    CreateFirst(env, New(1), t, 0, []);
    assert [] + [Created(0)] == [Created(0)];
    RunApi(env, New(1), CreateTimed(error), [Call(Api(Schedule(0)))] + rest);
    ScheduleTimed(env, error);
    RunApi(env, HandedOut(1, t, 0, [Created(0)]), Schedule(0), rest);
  }

  function Reader(): State {
    Listed(Timed(false, Timespec(0, 0)), 0, 0, 0, [Created(0)])
  }

  /** What the turn logs: a visit, and the time-out callback at the same clock reading. */
  function AtOnceLog(): seq<Event> {
    [Created(0)] + [Visited(0, Timed(false, Timespec(0, 0)))] + [Fired(0, TimedOut, 4, 0, 0)]
  }

  lemma ReaderVisit(s: State, f: FdSets)
    requires s == Reader().(polls := 1) && Inv(s.store) && f == Restrict(Asked(s.store, 1), FdSets({}, {}, {}))
    ensures Visit(Quiet(), s, 0, f).0 == Listed(Timed(false, Timespec(0, 0)), 1, 1, 1, AtOnceLog())
  {
    hide Inv, Extends, LossesLogged, Asked;
    assert TimedOutAt(Quiet(), 0, Timed(false, Timespec(0, 0)));
    var s0 := Entered(s, 0);
    assert Fire(Quiet(), s0, 0, TimedOut, 0) == (Listed(Timed(false, Timespec(0, 0)), 1, 1, 1, AtOnceLog()), false);
  }

  lemma ReaderTurn()
    requires Inv(Reader().store)
    ensures Take1(Quiet(), Reader(), Turn) == Listed(Timed(false, Timespec(0, 0)), 1, 1, 1, AtOnceLog())
  {
    hide Inv, Visit, Asked, Restrict, AtOnceLog;
    OneTaskTurn(Quiet(), Reader(), Timed(false, Timespec(0, 0)), FdSets({}, {}, {}));
    ReaderVisit(Reader().(polls := 1), Restrict(Asked(Reader().store, 1), FdSets({}, {}, {})));
  }

  /** A task that reads, with a time-out of five seconds but no TIMER bit, is never armed: it times out at its
      first visit, at the very first clock reading. */
  lemma ReaderTimesOutAtOnce()
    ensures exists s: State ::
      && Reachable(Quiet(), s) && s.log == AtOnceLog() && s.store.tasks == [Timed(false, Timespec(0, 0))]
  {
    NewIsInitial(1);
    hide Inv, Run, Init, Reachable, New, Take1, AtOnceLog, Timed;
    TimedScheduled(Quiet(), false, [Turn] + []);
    ReaderTurn();
    var r := Listed(Timed(false, Timespec(0, 0)), 1, 1, 1, AtOnceLog());
    RunCons(Quiet(), Reader(), Turn, []);
    RunNothing(Quiet(), r);
    ReachedBy(Quiet(), New(1), [Call(Api(CreateTimed(false)))] + ([Call(Api(Schedule(0)))] + ([Turn] + [])));
    assert Reachable(Quiet(), r);
  }

  /** Descriptor 4 is in error; the first callback reschedules the task. */
  function Meddling(): Env {
    Env(_ => MIDNIGHT, n => Script(if n == 0 then [Api(Reschedule(0))] else [], false),
        _ => SelectReady(FdSets({}, {}, {4})))
  }

  function Guarding(): Task {
    Timed(true, Timespec(0, 0))
  }

  function Rearmed4(): Task {
    Timed(true, Deadline(MIDNIGHT, FIVE_SECONDS))
  }

  function ErrorLog(): seq<Event> {
    [Created(0)] + [Visited(0, Guarding())] + [Fired(0, ErrorReady, 4, 0, 0)]
  }

  function TooLateLog(): seq<Event> {
    ErrorLog() + [Armed(0, 1, FIVE_SECONDS, false)] + [Fired(0, TimedOut, 4, 0, 1)]
  }

  lemma ErrorReschedules(s: State)
    requires s == Listed(Guarding(), 1, 0, 1, [Created(0)] + [Visited(0, Guarding())]) && Inv(s.store)
    ensures Fire(Meddling(), s, 0, ErrorReady, 0)
         == (Listed(Rearmed4(), 2, 1, 1, ErrorLog() + [Armed(0, 1, FIVE_SECONDS, false)]), false)
  {
    hide Inv, Extends, LossesLogged, Deadline;
    var s1 := Listed(Guarding(), 1, 1, 1, ErrorLog());
    assert Began(s, Fired(0, ErrorReady, 4, 0, 0)) == s1;
    var r := Listed(Rearmed4(), 2, 1, 1, ErrorLog() + [Armed(0, 1, FIVE_SECONDS, false)]);
    assert Perform(Meddling(), s1, Reschedule(0)) == r;
    assert Execute(Meddling(), s1, Api(Reschedule(0))) == r;
    assert ExecuteAll(Meddling(), s1, [Api(Reschedule(0))]) == r by {
      assert [Api(Reschedule(0))][1..] == [];
    }
  }

  lemma TimesOutAnyway(s: State)
    requires s == Listed(Rearmed4(), 2, 1, 1, ErrorLog() + [Armed(0, 1, FIVE_SECONDS, false)]) && Inv(s.store)
    ensures Fire(Meddling(), s, 0, TimedOut, 0) == (Listed(Rearmed4(), 2, 2, 1, TooLateLog()), false)
  {
    hide Inv, Extends, LossesLogged, Deadline, ErrorLog;
  }

  lemma MeddlingVisit(s: State, f: FdSets)
    requires s == Listed(Guarding(), 0, 0, 1, [Created(0)]) && Inv(s.store) && f == FdSets({}, {}, {4})
    ensures Visit(Meddling(), s, 0, f).0 == Listed(Rearmed4(), 2, 2, 1, TooLateLog())
  {
    hide Inv, Grows, Fire, ErrorLog, TooLateLog, Deadline;
    var s0 := Listed(Guarding(), 1, 0, 1, [Created(0)] + [Visited(0, Guarding())]);
    assert Entered(s, 0) == s0;
    ErrorReschedules(s0);
    TimesOutAnyway(Listed(Rearmed4(), 2, 1, 1, ErrorLog() + [Armed(0, 1, FIVE_SECONDS, false)]));
    assert TimedOutAt(Meddling(), 0, Guarding());
  }

  lemma GuardingAsks()
    ensures Restrict(Asked(Listed(Guarding(), 0, 0, 0, [Created(0)]).store, 1), FdSets({}, {}, {4}))
      == FdSets({}, {}, {4})
  {
    var q := Listed(Guarding(), 0, 0, 0, [Created(0)]).store;
    assert 4 in AskedFds(q, 1, ErrorReady) by {
      assert Asks(q.tasks[q.list[0]], ErrorReady) && q.tasks[q.list[0]].fd == 4;
    }
  }

  lemma MeddlingTurn()
    requires Inv(Listed(Guarding(), 0, 0, 0, [Created(0)]).store)
    ensures Take1(Meddling(), Listed(Guarding(), 0, 0, 0, [Created(0)]), Turn)
      == Listed(Rearmed4(), 2, 2, 1, TooLateLog())
  {
    hide Inv, Visit, Asked, Restrict, TooLateLog, Deadline;
    var s := Listed(Guarding(), 0, 0, 0, [Created(0)]);
    OneTaskTurn(Meddling(), s, Guarding(), FdSets({}, {}, {4}));
    GuardingAsks();
    MeddlingVisit(s.(polls := 1), FdSets({}, {}, {4}));
  }

  lemma TooLate()
    ensures var log := TooLateLog();
      && |log| == 5 && LatestArming(log, 3, 4, 0) && TimesOut(log[4], 0) && log[4].fd == 4
      && Nanos(Meddling().clock(log[4].tick)) < Nanos(Meddling().clock(log[3].tick)) + log[3].timeOut
  {
  }

  /** A task whose error callback reschedules it times out in the same visit all the same, five seconds
      before its latest arming has passed: expiry was decided when the visit began. */
  lemma RescheduledTooLate()
    ensures exists s: State ::
      && Reachable(Meddling(), s) && |s.log| == 5 && LatestArming(s.log, 3, 4, 0)
      && TimesOut(s.log[4], 0) && s.log[4].fd == 4
      && Nanos(Meddling().clock(s.log[4].tick)) < Nanos(Meddling().clock(s.log[3].tick)) + s.log[3].timeOut
  {
    NewIsInitial(1);
    TooLate();
    hide Inv, Run, Init, Reachable, New, Take1, TooLateLog, Timed, Deadline, LatestArming, TimesOut, Nanos, Meddling;
    TimedScheduled(Meddling(), true, [Turn] + []);
    MeddlingTurn();
    var s, r := Listed(Guarding(), 0, 0, 0, [Created(0)]), Listed(Rearmed4(), 2, 2, 1, TooLateLog());
    RunCons(Meddling(), s, Turn, []);
    RunNothing(Meddling(), r);
    ReachedBy(Meddling(), New(1), [Call(Api(CreateTimed(true)))] + ([Call(Api(Schedule(0)))] + ([Turn] + [])));
    assert Reachable(Meddling(), r);
  }

  // ----- Removal is sticky until the object is created anew ---------------------------------

  lemma UnscheduleFour(s: State)
    requires s == Listed(OnFour(true, false, false), 0, 0, 0, [Created(0)]) && Inv(s.store)
    ensures Perform(Quiet(), s, Unschedule(0))
      == Listed(OnFour(true, false, true), 0, 0, 0, [Created(0)] + [Marked([0])])
  {
    hide Inv;
  }

  lemma DropFour(q: Store)
    requires q == Listed(OnFour(true, false, true), 0, 0, 0, []).store
    ensures Drop(q, 0) == New(1).store && New(1).store.list == []
    ensures forall polls, log ::
      New(1).(polls := polls, log := log) == State(New(1).store, false, 0, 0, polls, log, map[])
  {
  }

  lemma SweepFour(log: seq<Event>)
    requires Inv(Listed(OnFour(true, false, true), 0, 0, 0, log).store)
    ensures Take1(Quiet(), Listed(OnFour(true, false, true), 0, 0, 0, log), Turn) == New(1).(polls := 1, log := log)
  {
    hide Inv, Drop, New;
    var q := Listed(OnFour(true, false, true), 0, 0, 0, log).store;
    DropKeeps(q, 0);
    DropFour(q);
    assert Sweep(Drop(q, 0), 0) == Drop(q, 0);
    assert Sweep(q, 0) == Drop(q, 0);
  }

  lemma VisitFour(s: State)
    requires s == Listed(OnFour(true, false, false), 0, 0, 1, s.log) && Inv(s.store)
    ensures s.log + [Visited(0, OnFour(true, false, false))] <= Take1(Quiet(), s, Turn).log
  {
    hide Inv, Visit, Asked, Restrict, Extends, LossesLogged, Process;
    var s1, f := s.(polls := 2), Restrict(Asked(s.store, 1), FdSets({}, {}, {}));
    OneTaskTurn(Quiet(), s, OnFour(true, false, false), FdSets({}, {}, {}));
    NothingReady(s1, f);
  }

  lemma NothingReady(s: State, f: FdSets)
    requires s == Listed(OnFour(true, false, false), 0, 0, 2, s.log) && Inv(s.store)
    requires f == Restrict(Asked(s.store, 1), FdSets({}, {}, {}))
    ensures Visit(Quiet(), s, 0, f).0
         == Listed(OnFour(true, false, false), 1, 0, 2, s.log + [Visited(0, OnFour(true, false, false))])
  {
    hide Inv, Extends, LossesLogged, Asked;
  }

  function Unscheduled(): State {
    Listed(OnFour(true, false, true), 0, 0, 0, [Created(0)] + [Marked([0])])
  }

  lemma FourUnscheduled()
    ensures Reachable(Quiet(), Unscheduled()) && Inv(Unscheduled().store)
  {
    hide Inv, Run, Init, Reachable, New, Perform, Listed;
    NewIsInitial(1);
    var calls := [Call(Api(Unschedule(0)))] + [];
    var s := Listed(OnFour(true, false, false), 0, 0, 0, [Created(0)]);
    FourScheduled(Quiet(), true, false, 0, [], calls);
    NewIsNew();
    assert [] + [Created(0)] == [Created(0)];
    UnscheduleFour(s);
    RunApi(Quiet(), s, Unschedule(0), []);
    RunNothing(Quiet(), Unscheduled());
    ReachedBy(Quiet(), New(1), [Call(Api(CreateOnFour(true, false)))] + ([Call(Api(Schedule(0)))] + calls));
  }

  lemma NewIsNew()
    ensures New(1).(polls := 0, log := []) == New(1)
  {
  }

  /** An unscheduled task object is swept, created anew, scheduled, and only then visited again. */
  lemma RemovedComesBack()
    ensures exists s: State, steps: seq<Step> ::
      && Reachable(Quiet(), s) && Inv(s.store) && s.store.live == {0} && s.store.tasks == [OnFour(true, false, true)]
      && |s.log| == 2 && |Run(Quiet(), s, steps).log| >= 4
      && Run(Quiet(), s, steps).log[3] == Visited(0, OnFour(true, false, false))
  {
    FourUnscheduled();
    hide Inv, Init, Reachable, New, Perform, OnFour, Take1, Run;
    var s, log, again := Unscheduled(), [Created(0)] + [Marked([0])], [Turn] + [];
    var steps := [Call(Api(CreateOnFour(true, false)))] + ([Call(Api(Schedule(0)))] + again);
    RunCons(Quiet(), s, Turn, steps);
    SweepFour(log);
    NewIsInitial(1);
    FourScheduled(Quiet(), true, false, 1, log, again);
    var r := Listed(OnFour(true, false, false), 0, 0, 1, log + [Created(0)]);
    RunCons(Quiet(), r, Turn, []);
    VisitFour(r);
    RunNothing(Quiet(), Take1(Quiet(), r, Turn));
    assert (log + [Created(0)] + [Visited(0, OnFour(true, false, false))])[3] == Visited(0, OnFour(true, false, false));
    assert Run(Quiet(), s, [Turn] + steps) == Take1(Quiet(), r, Turn);
  }

  // ----- A monitor runs ---------------------------------------------------------------------

  lemma NewOnly(mgr: nat)
    ensures OnlyMonitor(New(1).store, mgr, New(1).monitors)
  {
  }

  lemma NewHasRoom(mgr: nat)
    requires Inv(New(1).store)
    ensures var r := HaltMonitor(Quiet(), New(1), mgr); r == New(1) && r.store.ids != [] && r.store.pool != []
  {
  }

  lemma NothingCalled(w: Watch, turns: nat)
    ensures CallbacksLeaveAlone(Quiet(), w) && StepsLeaveAlone(seq(turns, _ => Turn), w)
  {
  }

  /** What `MonitorRearms` and `AtMostOneMonitor` suppose holds of a manager started on a new scheduler,
      through any number of turns. */
  lemma MonitorStarts(mgr: nat, turns: nat)
    ensures var s, steps := New(1), seq(turns, _ => Turn);
      && Reachable(Quiet(), s) && Init(s) && Inv(s.store) && OnlyMonitor(s.store, mgr, s.monitors)
      && var s1 := LaunchMonitor(Quiet(), s, mgr);
         && mgr in s1.monitors && PointsAlone(s1.monitors, mgr, s1.monitors[mgr])
         && Running(s1.store, mgr, s1.monitors[mgr])
         && CallbacksLeaveAlone(Quiet(), WatchFrom(s1, mgr)) && StepsLeaveAlone(steps, WatchFrom(s1, mgr))
         && RunsMonitor(Quiet(), Run(Quiet(), s1, steps).log, |s1.log|, s1.monitors[mgr])
         && CallbacksLeaveAlone(Quiet(), Anyone(mgr)) && StepsLeaveAlone([Call(StartMonitor(mgr))], Anyone(mgr))
         && Run(Quiet(), s, [Call(StartMonitor(mgr))] + []) == s1
  {
    hide Inv, Run, Init, Reachable, New, OnlyMonitor, Running, LaunchMonitor, CallbacksLeaveAlone, StepsLeaveAlone,
        PointsAlone;
    var s := New(1);
    NewIsInitial(1);
    RunNothing(Quiet(), s);
    ReachedBy(Quiet(), s, []);
    NewOnly(mgr);
    NewHasRoom(mgr);
    LaunchRuns(Quiet(), s, mgr);
    var s1 := LaunchMonitor(Quiet(), s, mgr);
    PointsAloneAtFirst(mgr);
    NothingCalled(WatchFrom(s1, mgr), turns);
    NothingCalled(Anyone(mgr), turns);
    StartLeavesAlone(mgr);
    RunCons(Quiet(), s, Call(StartMonitor(mgr)), []);
    RunNothing(Quiet(), s1);
  }

  lemma StartLeavesAlone(mgr: nat)
    ensures StepsLeaveAlone([Call(StartMonitor(mgr))], Anyone(mgr))
  {
  }

  lemma PointsAloneAtFirst(mgr: nat)
    requires Inv(New(1).store)
    ensures var m := LaunchMonitor(Quiet(), New(1), mgr).monitors; mgr in m ==> PointsAlone(m, mgr, m[mgr])
  {
    NewHasRoom(mgr);
    hide Inv, Perform;
    LaunchParts(Quiet(), New(1), mgr);
  }
}
