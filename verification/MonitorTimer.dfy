/** The timer that drives the child-process manager: what starting and stopping it, from anywhere -- even
    from its own callback -- leaves on the scheduler.

    A manager is known to the scheduler by the `user` value of its task. */
module MonitorTimer {
  import opened Deadlines
  import opened SchedulerModel
  import opened SchedulerCalls
  import opened SchedulerPump
  import opened SchedulerDispatch
  import opened SchedulerTrace
  import opened SchedulerSafety
  import opened SchedulerVisits
  import opened SchedulerTurn

  // ----- What the manager relies on ---------------------------------------------------------

  /** Every live task of the manager is a timer, and only the one it points at has no REMOVE. */
  ghost predicate OnlyMonitor(q: Store, mgr: nat, monitors: map<nat, nat>) {
    forall x :: x in q.live && x < |q.tasks| && q.tasks[x].user == mgr ==>
      q.tasks[x].fd < INVALID_FD && (!q.tasks[x].opts.remove ==> mgr in monitors && monitors[mgr] == x)
  }

  /** A running monitor: scheduled, without REMOVE, with its one-second time-out. */
  ghost predicate Running(q: Store, mgr: nat, x: nat) {
    && x in q.list && x < |q.tasks|
    && q.tasks[x].user == mgr && q.tasks[x].fd < INVALID_FD && q.tasks[x].timeOut == ONE_SECOND
    && q.tasks[x].cbs.timeout && q.tasks[x].opts.timer && !q.tasks[x].opts.remove
  }

  /** The manager points at the task, and no other manager does. */
  ghost predicate PointsAlone(monitors: map<nat, nat>, mgr: nat, x: nat) {
    mgr in monitors && monitors[mgr] == x && forall m :: m in monitors && monitors[m] == x ==> m == mgr
  }

  /** From position `from` of the log on, some callback of the task reported completion. */
  ghost predicate Completed(env: Env, log: seq<Event>, from: nat, x: nat) {
    exists j :: from <= j < |log| && log[j].Fired? && log[j].slot == x && env.callback(log[j].call).complete
  }

  /** A manager; with `calm` also its monitor task and since when it runs, and that nobody else unschedules
      that task, starts or stops the manager, or stops the scheduler. */
  datatype Watch = Watch(mgr: nat, slot: nat, from: nat, calm: bool)

  /** Calls that leave the manager alone: nobody else marks tasks as the manager's. */
  predicate LeavesAlone(w: Watch, a: Action) {
    && (a.CreateTask? || a.CreateTimer? ==> a.user != w.mgr)
    && (w.calm ==> a != Stop && a != Unschedule(w.slot))
  }

  predicate CallLeavesAlone(w: Watch, c: ClientCall) {
    match c
    case Api(a) => LeavesAlone(w, a)
    case StartMonitor(mgr) => w.calm ==> mgr != w.mgr
    case StopMonitor(mgr) => w.calm ==> mgr != w.mgr
  }

  ghost predicate CallbacksLeaveAlone(env: Env, w: Watch) {
    forall n: nat, k: nat :: k < |env.callback(n).calls| ==> CallLeavesAlone(w, env.callback(n).calls[k])
  }

  ghost predicate StepsLeaveAlone(steps: seq<Step>, w: Watch) {
    forall k :: 0 <= k < |steps| && steps[k].Call? ==> CallLeavesAlone(w, steps[k].call)
  }

  ghost predicate Guarded(env: Env, s: State, w: Watch) {
    && OnlyMonitor(s.store, w.mgr, s.monitors) && w.from <= |s.log|
    && (w.calm ==>
          || Completed(env, s.log, w.from, w.slot)
          || (Running(s.store, w.mgr, w.slot) && PointsAlone(s.monitors, w.mgr, w.slot)))
  }

  /** No live task became the manager's, none lost its REMOVE, and under calm the monitor still runs. */
  ghost predicate Tame(q: Store, r: Store, w: Watch) {
    && (forall x :: x in r.live && x < |r.tasks| && r.tasks[x].user == w.mgr ==>
          && x in q.live && x < |q.tasks| && q.tasks[x].user == w.mgr && r.tasks[x].fd == q.tasks[x].fd
          && (q.tasks[x].opts.remove ==> r.tasks[x].opts.remove))
    && (w.calm && Running(q, w.mgr, w.slot) ==> Running(r, w.mgr, w.slot))
  }

  lemma CompletedStays(env: Env, log: seq<Event>, log': seq<Event>, from: nat, x: nat)
    requires Completed(env, log, from, x) && log <= log'
    ensures Completed(env, log', from, x)
  {
    var j :| from <= j < |log| && log[j].Fired? && log[j].slot == x && env.callback(log[j].call).complete;
    assert log'[j] == log[j];
  }

  lemma TameGuards(env: Env, s: State, r: State, w: Watch)
    requires Guarded(env, s, w) && Tame(s.store, r.store, w) && s.log <= r.log && r.monitors == s.monitors
    ensures Guarded(env, r, w)
  {
    hide Running, Completed, PointsAlone;
    if w.calm && Completed(env, s.log, w.from, w.slot) {
      CompletedStays(env, s.log, r.log, w.from, w.slot);
    }
  }

  // ----- Store operations -------------------------------------------------------------------

  lemma PutTame(q: Store, x: nat, t: Task, w: Watch)
    requires x < |q.tasks| && (x in q.live ==> SameTask(q.tasks[x], t))
    requires w.calm && w.slot == x && Running(q, w.mgr, x) ==> x in q.live && t.opts.remove == q.tasks[x].opts.remove
    ensures Tame(q, Put(q, x, t), w)
  {
  }

  lemma TakeTame(q: Store, t: Task, w: Watch)
    requires Indexed(q) && SlotsOk(q) && q.pool != [] && t.user != w.mgr
    ensures Tame(q, Take(q, t), w)
  {
  }

  lemma EnlistTame(q: Store, x: nat, t: Task, w: Watch)
    requires Indexed(q) && SlotsOk(q) && x in q.out && x < |q.tasks| && SameOwner(q.tasks[x], t)
    ensures Tame(q, Enlist(q, x, t), w)
  {
  }

  predicate SameOwner(t: Task, u: Task) {
    u.user == t.user && u.fd == t.fd && (t.opts.remove ==> u.opts.remove)
  }

  lemma DropTame(q: Store, i: nat, w: Watch)
    requires i < |q.list| && q.list[i] < |q.tasks| && Doomed(q.tasks[q.list[i]])
    ensures Tame(q, Drop(q, i), w)
  {
    var r := Drop(q, i);
    if Running(q, w.mgr, w.slot) {
      var k :| 0 <= k < |q.list| && q.list[k] == w.slot;
      assert r.list[if k < i then k else k - 1] == w.slot;
    }
  }

  // ----- Interface calls --------------------------------------------------------------------

  lemma PerformTame(env: Env, s: State, a: Action, w: Watch)
    requires Inv(s.store) && LeavesAlone(w, a)
    ensures Tame(s.store, Perform(env, s, a).store, w)
  {
    var q := s.store;
    hide TasksOk, IdsApart, HeldOk, Tame, Running, WellFormed;
    TameReflexive(q, w);
    if Permitted(q, a) {
      match a
      case CreateTask(fd, opts, timeOut, user, cbs) =>
        if q.pool != [] { TakeTame(q, Fresh(Task(fd, opts, timeOut, Timespec(0, 0), user, cbs)), w); }
      case CreateTimer(timeOut, user, hasCallback) =>
        MakeTimerTame(s, timeOut, user, hasCallback, w);
      case Schedule(x) =>
        ScheduleKeeps(env, s, x);
        EnlistTame(q, x, Scheduled(env, q.tasks[x], s.ticks), w);
      case Unschedule(x) => PutTame(q, x, Mark(q.tasks[x]), w);
      case Reschedule(x) =>
        if !q.tasks[x].opts.remove { PutTame(q, x, Arm(env, s, x, false).store.tasks[x], w); }
      case Stop => StopTame(q, w);
    }
  }

  lemma TameReflexive(q: Store, w: Watch)
    ensures Tame(q, q, w)
  {
  }

  lemma StopTame(q: Store, w: Watch)
    requires Indexed(q) && !w.calm
    ensures Tame(q, q.(tasks := MarkAll(q.tasks, q.list)), w)
  {
  }

  lemma MakeTimerTame(s: State, timeOut: int, user: nat, hasCallback: bool, w: Watch)
    requires Indexed(s.store) && SlotsOk(s.store) && user != w.mgr
    ensures Tame(s.store, MakeTimer(s, timeOut, user, hasCallback).0.store, w)
  {
    var q := s.store;
    if q.ids != [] && q.pool != [] {
      TakeTame(q.(ids := q.ids[1..]), Fresh(TimerTask(q.ids[0], timeOut, user, hasCallback)), w);
    }
  }

  lemma PerformGuarded(env: Env, s: State, a: Action, w: Watch)
    requires Inv(s.store) && Guarded(env, s, w) && LeavesAlone(w, a)
    ensures Guarded(env, Perform(env, s, a), w)
  {
    hide Inv, Guarded, Tame, Extends, LossesLogged, LeavesAlone, Perform;
    PerformKeeps(env, s, a);
    PerformLogs(env, s, a);
    PerformTame(env, s, a, w);
    TameGuards(env, s, Perform(env, s, a), w);
  }

  // ----- Starting and stopping --------------------------------------------------------------

  lemma UnscheduleClears(s: State, mgr: nat, monitors: map<nat, nat>)
    requires OnlyMonitor(s.store, mgr, monitors) && mgr in monitors
    requires forall x :: x in s.store.live ==> x < |s.store.tasks|
    ensures var x := monitors[mgr];
      OnlyMonitor(if x < |s.store.tasks| then UnscheduleTask(s, x).store else s.store, mgr, monitors - {mgr})
  {
  }

  lemma LiveInRange(q: Store)
    requires Inv(q)
    ensures forall x :: x in q.live ==> x < |q.tasks|
  {
  }

  /** A manager that was stopped has no live task without REMOVE. */
  lemma HaltClears(env: Env, s: State, mgr: nat)
    requires Inv(s.store) && OnlyMonitor(s.store, mgr, s.monitors)
    ensures var r := HaltMonitor(env, s, mgr); mgr !in r.monitors && OnlyMonitor(r.store, mgr, r.monitors)
  {
    hide Inv, OnlyMonitor, Grows;
    if mgr in s.monitors {
      LiveInRange(s.store);
      UnscheduleClears(s, mgr, s.monitors);
    }
  }

  /** Stopping a manager sets REMOVE on the task it points at, unless that has descriptor -1, and changes no other
      task, no list and no other pointer. */
  lemma HaltMarksOne(env: Env, s: State, mgr: nat)
    requires Inv(s.store) && mgr in s.monitors && s.monitors[mgr] < |s.store.tasks|
    ensures var r, x := HaltMonitor(env, s, mgr), s.monitors[mgr]; var t := s.store.tasks[x];
      && r.monitors == s.monitors - {mgr}
      && r.store == if t.fd == -1 then s.store
                    else s.store.(tasks := s.store.tasks[x := t.(opts := t.opts.(remove := true))])
  {
    hide Inv, Grows;
    UnschedulingMarks(env, s, s.monitors[mgr]);
  }

  /** Stopping a manager that points at no task changes nothing. */
  lemma HaltIdle(env: Env, s: State, mgr: nat)
    requires Inv(s.store) && mgr !in s.monitors
    ensures HaltMonitor(env, s, mgr) == s
  {
  }

  lemma TakeOnly(q: Store, t: Task, mgr: nat, monitors: map<nat, nat>)
    requires Indexed(q) && SlotsOk(q) && q.pool != [] && OnlyMonitor(q, mgr, monitors) && mgr !in monitors
    requires t.user == mgr && t.fd < INVALID_FD
    ensures OnlyMonitor(Take(q, t), mgr, monitors[mgr := q.pool[0]])
  {
  }

  lemma ScheduledRuns(env: Env, s: State, x: nat, id: int, mgr: nat, monitors: map<nat, nat>)
    requires x in s.store.out && x < |s.store.tasks| && id < INVALID_FD && mgr in monitors && monitors[mgr] == x
    requires s.store.tasks[x] == TimerTask(id, ONE_SECOND, mgr, true) && OnlyMonitor(s.store, mgr, monitors)
    ensures var q := ScheduleTask(env, s, x).store; Running(q, mgr, x) && OnlyMonitor(q, mgr, monitors)
  {
    assert ScheduleTask(env, s, x).store.list[|s.store.list|] == x;
  }

  lemma OnlyIgnoresIds(q: Store, mgr: nat, monitors: map<nat, nat>)
    requires q.ids != [] && OnlyMonitor(q, mgr, monitors)
    ensures OnlyMonitor(q.(ids := q.ids[1..]), mgr, monitors)
    ensures OnlyMonitor(q.(ids := q.ids[1..], lost := q.lost + {q.ids[0]}), mgr, monitors)
  {
  }

  lemma MadeOnly(s: State, mgr: nat)
    requires Inv(s.store) && OnlyMonitor(s.store, mgr, s.monitors) && mgr !in s.monitors
    ensures var (r, ok) := MakeTimer(s, ONE_SECOND, mgr, true); var q := s.store;
      && (ok <==> q.ids != [] && q.pool != []) && r.monitors == s.monitors
      && OnlyMonitor(r.store, mgr, if ok then s.monitors[mgr := q.pool[0]] else s.monitors)
  {
    hide OnlyMonitor, TasksOk, HeldOk;
    var q := s.store;
    if q.ids != [] {
      assert q.ids[0] < INVALID_FD;
      OnlyIgnoresIds(q, mgr, s.monitors);
      if q.pool != [] {
        TakeOnly(q.(ids := q.ids[1..]), Fresh(TimerTask(q.ids[0], ONE_SECOND, mgr, true)), mgr, s.monitors);
      }
    }
  }

  /** Starting a manager leaves at most its new monitor without REMOVE, and that one runs.  There is one
      if and only if, once the old one is stopped, a timer ID and a task object are left. */
  lemma LaunchRuns(env: Env, s: State, mgr: nat)
    requires Inv(s.store) && OnlyMonitor(s.store, mgr, s.monitors)
    ensures var r := LaunchMonitor(env, s, mgr);
      && OnlyMonitor(r.store, mgr, r.monitors)
      && (mgr in r.monitors <==> HaltMonitor(env, s, mgr).store.ids != [] && HaltMonitor(env, s, mgr).store.pool != [])
      && (mgr in r.monitors ==>
            Running(r.store, mgr, r.monitors[mgr]) && r.store.tasks[r.monitors[mgr]].timeOut == 1_000_000_000)
  {
    hide Inv, OnlyMonitor, Running, HaltMonitor, MakeTimer, ScheduleTask, Grows;
    HaltClears(env, s, mgr);
    var s1 := HaltMonitor(env, s, mgr);
    InvIndexed(s1.store);
    MadeOnly(s1, mgr);
    LaunchParts(env, s, mgr);
    if s1.store.ids != [] && s1.store.pool != [] {
      MadeTimer(s1, ONE_SECOND, mgr, true);
      var s2, x := MakeTimer(s1, ONE_SECOND, mgr, true).0, s1.store.pool[0];
      ScheduledRuns(env, s2, x, s1.store.ids[0], mgr, s1.monitors[mgr := x]);
    }
  }

  /** A successful start, once the manager is stopped, puts one new task at the end of the list and changes no other
      task and no other pointer. */
  lemma LaunchAddsOne(env: Env, s: State, mgr: nat, y: nat)
    requires Inv(s.store) && y < |s.store.tasks| && mgr in LaunchMonitor(env, s, mgr).monitors
    ensures var s1, r := HaltMonitor(env, s, mgr), LaunchMonitor(env, s, mgr);
      var x := r.monitors[mgr];
      && s1.store.pool != [] && x == s1.store.pool[0] && r.monitors == s1.monitors[mgr := x]
      && r.store.list == s1.store.list + [x] && |r.store.tasks| == |s1.store.tasks| == |s.store.tasks|
      && (y != x ==> r.store.tasks[y] == s1.store.tasks[y])
  {
    hide Inv, HaltMonitor, Extends, LossesLogged, SetUp;
    var s1 := HaltMonitor(env, s, mgr);
    HaltForgets(env, s, mgr);
    LaunchParts(env, s, mgr);
    CreatingTimer(env, s1, 1_000_000_000, mgr, true);
    if s1.store.ids != [] && s1.store.pool != [] {
      var s2 := Perform(env, s1, CreateTimer(ONE_SECOND, mgr, true));
      PerformKeeps(env, s1, CreateTimer(ONE_SECOND, mgr, true));
      SchedulingSetsUp(env, s2, s1.store.pool[0]);
    }
  }

  /** A start is a stop, a timer request and, if that succeeds, scheduling. */
  lemma LaunchParts(env: Env, s: State, mgr: nat)
    requires Inv(s.store)
    ensures var s1 := HaltMonitor(env, s, mgr); var r := LaunchMonitor(env, s, mgr);
      && Indexed(s1.store)
      && var s2 := MakeTimer(s1, ONE_SECOND, mgr, true).0;
         if s1.store.ids == [] || s1.store.pool == [] then r == s2
         else
           var x := s1.store.pool[0];
           && x < |s2.store.tasks| && s2.store.tasks[x].timeOut >= NO_TIMEOUT && s2.monitors == s1.monitors
           && r.store == ScheduleTask(env, s2, x).store && r.monitors == s1.monitors[mgr := x]
  {
    hide Inv, HaltMonitor, Grows;
    var s1, create := HaltMonitor(env, s, mgr), CreateTimer(ONE_SECOND, mgr, true);
    InvIndexed(s1.store);
    PerformKeeps(env, s1, create);
    PerformLogs(env, s1, create);
    if s1.store.ids != [] && s1.store.pool != [] {
      MadeTimer(s1, ONE_SECOND, mgr, true);
      PerformLogs(env, Perform(env, s1, create), Schedule(s1.store.pool[0]));
    }
  }

  lemma PointersGuarded(env: Env, s: State, w: Watch, monitors: map<nat, nat>)
    requires Guarded(env, s, w)
    requires w.mgr in monitors <==> w.mgr in s.monitors
    requires w.mgr in monitors ==> monitors[w.mgr] == s.monitors[w.mgr]
    requires w.calm && Running(s.store, w.mgr, w.slot) ==>
      forall m :: m in monitors && m !in s.monitors ==> monitors[m] != w.slot
    requires forall m :: m in monitors && m in s.monitors ==> monitors[m] == s.monitors[m]
    ensures Guarded(env, s.(monitors := monitors), w)
  {
    hide Completed, Running;
  }

  /** Under calm, a task that another manager points at is not the monitor, unless that completed. */
  lemma OtherPointer(env: Env, s: State, w: Watch, m: nat)
    requires Guarded(env, s, w) && w.calm && m in s.monitors && m != w.mgr
    ensures s.monitors[m] != w.slot || Completed(env, s.log, w.from, w.slot)
  {
  }

  lemma OtherHaltGuarded(env: Env, s: State, w: Watch, m: nat)
    requires Inv(s.store) && Guarded(env, s, w) && m != w.mgr
    ensures Guarded(env, HaltMonitor(env, s, m), w)
  {
    hide Inv, Perform, Completed, Running, OnlyMonitor, Extends, LossesLogged;
    if m in s.monitors {
      var a := Unschedule(s.monitors[m]);
      PerformLogs(env, s, a);
      PerformKeeps(env, s, a);
      var r := Perform(env, s, a);
      if w.calm && Completed(env, s.log, w.from, w.slot) {
        PerformGuarded(env, s, a, w.(calm := false));
        CompletedStays(env, s.log, r.log, w.from, w.slot);
      } else {
        if w.calm { OtherPointer(env, s, w, m); }
        PerformGuarded(env, s, a, w);
      }
      PointersGuarded(env, r, w, s.monitors - {m});
    }
  }

  lemma OtherLaunchGuarded(env: Env, s: State, w: Watch, m: nat)
    requires Inv(s.store) && Guarded(env, s, w) && m != w.mgr
    ensures Guarded(env, LaunchMonitor(env, s, m), w)
  {
    hide Inv, Perform, Guarded, HaltMonitor, Grows, Running, MakeTimer, ScheduleTask;
    OtherHaltGuarded(env, s, w, m);
    var s1, create := HaltMonitor(env, s, m), CreateTimer(ONE_SECOND, m, true);
    PerformKeeps(env, s1, create);
    PerformGuarded(env, s1, create, w);
    HaltForgets(env, s, m);
    if s1.store.ids != [] && s1.store.pool != [] {
      var s2, x := Perform(env, s1, create), s1.store.pool[0];
      PerformGuarded(env, s2, Schedule(x), w);
      PerformLogs(env, s1, create);
      PerformLogs(env, s2, Schedule(x));
      var s3 := Perform(env, s2, Schedule(x));
      LaunchParts(env, s, m);
      MadeTimer(s1, ONE_SECOND, m, true);
      if Running(s3.store, w.mgr, w.slot) { NewIsOther(env, MakeTimer(s1, ONE_SECOND, m, true).0, x, w); }
      PointersGuarded(env, s3, w, s3.monitors[m := x]);
    }
  }

  lemma HaltForgets(env: Env, s: State, m: nat)
    requires Inv(s.store)
    ensures var r := HaltMonitor(env, s, m); m !in r.monitors && |r.store.tasks| == |s.store.tasks|
  {
  }

  /** The timer made for another manager does not belong to this one. */
  lemma NewIsOther(env: Env, s: State, x: nat, w: Watch)
    requires x < |s.store.tasks| && s.store.tasks[x].timeOut >= NO_TIMEOUT && s.store.tasks[x].user != w.mgr
    requires Running(ScheduleTask(env, s, x).store, w.mgr, w.slot)
    ensures x != w.slot
  {
  }

  lemma ExecuteGuarded(env: Env, s: State, c: ClientCall, w: Watch)
    requires Inv(s.store) && Guarded(env, s, w) && CallLeavesAlone(w, c)
    ensures Guarded(env, Execute(env, s, c), w)
  {
    hide Inv, Perform, LeavesAlone, OnlyMonitor, HaltMonitor, LaunchMonitor, Running, PointsAlone, Completed, Extends,
         LossesLogged;
    match c
    case Api(a) => PerformGuarded(env, s, a, w);
    case StopMonitor(m) => if m == w.mgr { HaltClears(env, s, m); } else { OtherHaltGuarded(env, s, w, m); }
    case StartMonitor(m) => if m == w.mgr { LaunchRuns(env, s, m); } else { OtherLaunchGuarded(env, s, w, m); }
  }

  lemma {:induction false} ExecuteAllGuarded(env: Env, s: State, calls: seq<ClientCall>, w: Watch)
    requires Inv(s.store) && Guarded(env, s, w) && forall k :: 0 <= k < |calls| ==> CallLeavesAlone(w, calls[k])
    ensures Guarded(env, ExecuteAll(env, s, calls), w)
    decreases |calls|
  {
    hide Inv, Guarded, Grows, Execute, CallLeavesAlone;
    if calls != [] {
      ExecuteGuarded(env, s, calls[0], w);
      ExecuteAllGuarded(env, Execute(env, s, calls[0]), calls[1..], w);
    }
  }

  // ----- Dispatching ------------------------------------------------------------------------

  lemma LogGuarded(env: Env, s: State, r: State, w: Watch)
    requires Guarded(env, s, w) && r.store == s.store && s.log <= r.log && r.monitors == s.monitors
    ensures Guarded(env, r, w)
  {
    hide Tame, Guarded;
    TameReflexive(s.store, w);
    TameGuards(env, s, r, w);
  }

  lemma CompletedBy(env: Env, log: seq<Event>, from: nat, e: Event, r: seq<Event>)
    requires e.Fired? && env.callback(e.call).complete && log + [e] <= r && from <= |log|
    ensures Completed(env, r, from, e.slot)
  {
    assert r[|log|] == e;
  }

  lemma FireGuarded(env: Env, s: State, i: nat, kind: Kind, tick: nat, w: Watch)
    requires Inv(s.store) && i < |s.store.list| && HasCallback(s.store.tasks[s.store.list[i]].cbs, kind)
    requires Guarded(env, s, w) && CallbacksLeaveAlone(env, w)
    ensures Guarded(env, Fire(env, s, i, kind, tick).0, w)
    ensures Fire(env, s, i, kind, tick).1 ==> Completed(env, Fire(env, s, i, kind, tick).0.log, w.from, s.store.list[i])
  {
    ListedTask(s, i);
    assert w.from <= |s.log|;
    var e := FiredEvent(s, i, kind, tick);
    var s1 := Began(s, e);
    LogGuarded(env, s, s1, w);
    assert forall k :: 0 <= k < |env.callback(s.calls).calls| ==> CallLeavesAlone(w, env.callback(s.calls).calls[k]);
    hide Inv, Guarded, Completed, Extends, LossesLogged, CallLeavesAlone, CallbacksLeaveAlone;
    ExecuteAllGuarded(env, s1, env.callback(s.calls).calls, w);
    var r := Fire(env, s, i, kind, tick);
    assert r.0 == ExecuteAll(env, s1, env.callback(s.calls).calls);
    assert s.log + [e] <= r.0.log;
    if r.1 { CompletedBy(env, s.log, w.from, e, r.0.log); }
  }

  lemma ErrorGuarded(env: Env, s: State, i: nat, f: FdSets, tick: nat, w: Watch)
    requires Inv(s.store) && i < |s.store.list| && Guarded(env, s, w) && CallbacksLeaveAlone(env, w)
    ensures Guarded(env, ErrorPart(env, s, i, f, tick).0, w)
  {
    hide Inv, Guarded, Grows, CallbacksLeaveAlone;
    ListedTask(s, i);
    var t := s.store.tasks[s.store.list[i]];
    if t.opts.error && t.fd in f.er { FireGuarded(env, s, i, ErrorReady, tick, w); }
  }

  lemma ReadGuarded(env: Env, s: State, i: nat, f: FdSets, tick: nat, expired: bool, w: Watch)
    requires Inv(s.store) && i < |s.store.list| && Guarded(env, s, w) && CallbacksLeaveAlone(env, w)
    requires expired ==> s.store.tasks[s.store.list[i]].timeOut != NO_TIMEOUT
    ensures Guarded(env, ReadPart(env, s, i, f, tick, expired).0, w)
  {
    hide Inv, Guarded, Grows, CallbacksLeaveAlone;
    ListedTask(s, i);
    var t := s.store.tasks[s.store.list[i]];
    if t.opts.read {
      if t.fd in f.rd { FireGuarded(env, s, i, ReadReady, tick, w); }
      else if expired { FireGuarded(env, s, i, TimedOut, tick, w); }
    }
  }

  lemma WriteGuarded(env: Env, s: State, i: nat, f: FdSets, tick: nat, expired: bool, rv: bool, w: Watch)
    requires Inv(s.store) && i < |s.store.list| && Guarded(env, s, w) && CallbacksLeaveAlone(env, w)
    requires expired ==> s.store.tasks[s.store.list[i]].timeOut != NO_TIMEOUT
    ensures Guarded(env, WritePart(env, s, i, f, tick, expired, rv).0, w)
  {
    hide Inv, Guarded, Grows, CallbacksLeaveAlone;
    ListedTask(s, i);
    var t := s.store.tasks[s.store.list[i]];
    if t.opts.write && rv {
      if t.fd in f.wr { FireGuarded(env, s, i, WriteReady, tick, w); }
      else if expired { FireGuarded(env, s, i, TimedOut, tick, w); }
    }
  }

  lemma IoGuarded(env: Env, s: State, i: nat, f: FdSets, tick: nat, expired: bool, w: Watch)
    requires Inv(s.store) && i < |s.store.list| && Guarded(env, s, w) && CallbacksLeaveAlone(env, w)
    requires expired ==> s.store.tasks[s.store.list[i]].timeOut != NO_TIMEOUT
    ensures Guarded(env, IoPart(env, s, i, f, tick, expired).0, w)
  {
    hide Inv, Guarded, CallbacksLeaveAlone, Extends;
    ListedTask(s, i);
    var (s1, f1) := ErrorPart(env, s, i, f, tick);
    ErrorGuarded(env, s, i, f, tick, w);
    PositionStays(s, s1, i);
    var (s2, f2, rv) := ReadPart(env, s1, i, f1, tick, expired);
    ReadGuarded(env, s1, i, f1, tick, expired, w);
    PositionStays(s1, s2, i);
    WriteGuarded(env, s2, i, f2, tick, expired, rv, w);
  }

  lemma ArmGuarded(env: Env, s: State, x: nat, w: Watch)
    requires Inv(s.store) && Guarded(env, s, w)
    requires x in s.store.live && x < |s.store.tasks| && s.store.tasks[x].timeOut >= 0
    ensures Guarded(env, Arm(env, s, x, true), w)
  {
    hide Inv, Guarded, Tame;
    PutTame(s.store, x, Arm(env, s, x, true).store.tasks[x], w);
    TameGuards(env, s, Arm(env, s, x, true), w);
  }

  lemma TimerGuarded(env: Env, s: State, i: nat, tick: nat, expired: bool, w: Watch)
    requires Inv(s.store) && i < |s.store.list| && s.store.tasks[s.store.list[i]].cbs.timeout
    requires expired ==> s.store.tasks[s.store.list[i]].timeOut != NO_TIMEOUT
    requires Guarded(env, s, w) && CallbacksLeaveAlone(env, w)
    ensures var r := TimerPart(env, s, i, tick, expired);
      Guarded(env, r.0, w) && (r.1 ==> Completed(env, r.0.log, w.from, s.store.list[i]))
  {
    hide Inv, Guarded, CallbacksLeaveAlone, Extends, Completed;
    ListedTask(s, i);
    if expired {
      FireGuarded(env, s, i, TimedOut, tick, w);
      var (s1, done) := Fire(env, s, i, TimedOut, tick);
      if !done {
        PositionStays(s, s1, i);
        ListedTask(s1, i);
        ArmGuarded(env, s1, s1.store.list[i], w);
      }
    }
  }

  /** A task that reports completion is no timer, or one of its callbacks did so. */
  lemma ProcessGuarded(env: Env, s: State, i: nat, f: FdSets, w: Watch)
    requires Inv(s.store) && i < |s.store.list| && !s.store.tasks[s.store.list[i]].opts.remove
    requires Guarded(env, s, w) && CallbacksLeaveAlone(env, w)
    ensures var r := Process(env, s, i, f);
      && Guarded(env, r.0, w)
      && (r.2 && s.store.tasks[s.store.list[i]].fd < INVALID_FD ==> Completed(env, r.0.log, w.from, s.store.list[i]))
  {
    hide Inv, Guarded, CallbacksLeaveAlone, Grows, Completed, IoPart, TimerPart;
    ListedTask(s, i);
    var t, s0 := s.store.tasks[s.store.list[i]], Entered(s, i);
    LogGuarded(env, s, s0, w);
    if t.fd > INVALID_FD {
      IoGuarded(env, s0, i, f, s.ticks, TimedOutAt(env, s.ticks, t), w);
    } else {
      TimerGuarded(env, s0, i, s.ticks, TimedOutAt(env, s.ticks, t), w);
    }
  }

  lemma FinishGuarded(env: Env, s: State, x: nat, w: Watch)
    requires Guarded(env, s, w) && x < |s.store.tasks|
    requires s.store.tasks[x].fd < INVALID_FD ==> Completed(env, s.log, w.from, x)
    ensures Guarded(env, UnscheduleTask(s, x), w)
  {
    hide Running, OnlyMonitor, Completed, PointsAlone, Tame;
    var r := UnscheduleTask(s, x);
    if s.store.tasks[x].fd != INVALID_FD {
      PutTame(s.store, x, Mark(s.store.tasks[x]), w.(calm := false));
      TameGuards(env, s, r, w.(calm := false));
      if w.calm && x == w.slot && s.store.tasks[x].fd < INVALID_FD {
        CompletedStays(env, s.log, r.log, w.from, x);
      } else {
        if w.calm && x == w.slot { RunningIsTimer(s.store, w); }
        PutTame(s.store, x, Mark(s.store.tasks[x]), w);
        TameGuards(env, s, r, w);
      }
    }
  }

  lemma RunningIsTimer(q: Store, w: Watch)
    ensures w.slot < |q.tasks| && q.tasks[w.slot].fd >= INVALID_FD ==> !Running(q, w.mgr, w.slot)
  {
  }

  lemma VisitGuarded(env: Env, s: State, i: nat, f: FdSets, w: Watch)
    requires Inv(s.store) && i < |s.store.list| && Guarded(env, s, w) && CallbacksLeaveAlone(env, w)
    ensures Guarded(env, Visit(env, s, i, f).0, w)
  {
    hide Inv, Guarded, CallbacksLeaveAlone, Extends, Completed;
    ListedTask(s, i);
    if !s.store.tasks[s.store.list[i]].opts.remove {
      ProcessGuarded(env, s, i, f, w);
      var (s1, f1, done) := Process(env, s, i, f);
      if done {
        PositionStays(s, s1, i);
        ListedTask(s1, i);
        FinishGuarded(env, s1, s1.store.list[i], w);
      }
    }
  }

  lemma WalkMoves(env: Env, s: State, i: nat, f: FdSets)
    requires Inv(s.store) && i < |s.store.list|
    ensures var r := Visit(env, s, i, f).0; i < |s.store.tasks| == |r.store.tasks| && i < |r.store.list|
  {
    ListFits(s.store);
    hide Inv, Visit;
    ListedTask(s, i);
    PositionStays(s, Visit(env, s, i, f).0, i);
  }

  lemma {:induction false} DispatchGuarded(env: Env, s: State, i: nat, f: FdSets, w: Watch)
    requires Inv(s.store) && i <= |s.store.list| && Guarded(env, s, w) && CallbacksLeaveAlone(env, w)
    ensures Guarded(env, Dispatch(env, s, i, f), w)
    decreases |s.store.tasks| - i
  {
    hide Inv, Guarded, CallbacksLeaveAlone, Grows, Visit;
    if i < |s.store.list| && !s.stopped {
      WalkMoves(env, s, i, f);
      VisitGuarded(env, s, i, f, w);
      var (s1, f1) := Visit(env, s, i, f);
      DispatchGuarded(env, s1, i + 1, f1, w);
    }
  }

  lemma {:induction false} SweepGuarded(env: Env, s: State, i: nat, w: Watch)
    requires Inv(s.store) && i <= |s.store.list| && Guarded(env, s, w)
    ensures Guarded(env, s.(store := Sweep(s.store, i)), w)
    decreases |s.store.list| - i
  {
    hide Inv, Guarded, Tame;
    var q := s.store;
    if i < |q.list| {
      SweepIndex(q, i);
      if Doomed(q.tasks[q.list[i]]) {
        DropKeeps(q, i);
        DropTame(q, i, w);
        TameGuards(env, s, s.(store := Drop(q, i)), w);
        SweepGuarded(env, s.(store := Drop(q, i)), i, w);
      } else {
        SweepGuarded(env, s, i + 1, w);
      }
    }
  }

  lemma PumpGuarded(env: Env, s: State, w: Watch)
    requires Inv(s.store) && Guarded(env, s, w) && CallbacksLeaveAlone(env, w)
    ensures Guarded(env, Pump(env, s), w)
  {
    hide Inv, Guarded, CallbacksLeaveAlone, Dispatch;
    if !s.stopped {
      SweepGuarded(env, s, 0, w);
      LogGuarded(env, s.(store := Sweep(s.store, 0)), Swept(s), w);
      if env.select(s.polls).SelectReady? {
        InvIndexed(Swept(s).store);
        DispatchGuarded(env, Swept(s), 0, ReadyFds(env, s), w);
      }
    }
  }

  lemma StepGuarded(env: Env, s: State, step: Step, w: Watch)
    requires Inv(s.store) && Guarded(env, s, w) && CallbacksLeaveAlone(env, w)
    requires step.Call? ==> CallLeavesAlone(w, step.call)
    ensures Guarded(env, Take1(env, s, step), w)
  {
    hide Inv, Guarded, CallbacksLeaveAlone, CallLeavesAlone;
    match step
    case Call(c) => ExecuteGuarded(env, s, c, w);
    case Turn => PumpGuarded(env, s, w);
  }

  lemma {:induction false} RunGuarded(env: Env, s: State, steps: seq<Step>, w: Watch)
    requires Inv(s.store) && Guarded(env, s, w) && CallbacksLeaveAlone(env, w) && StepsLeaveAlone(steps, w)
    ensures Guarded(env, Run(env, s, steps), w)
    decreases |steps|
  {
    hide Inv, Guarded, CallbacksLeaveAlone, CallLeavesAlone, Take1;
    if steps != [] {
      StepGuarded(env, s, steps[0], w);
      RunGuarded(env, Take1(env, s, steps[0]), steps[1..], w);
    }
  }

  // ----- At most one ------------------------------------------------------------------------

  /** The others only do not pass their tasks off as the manager's. */
  function Anyone(mgr: nat): Watch {
    Watch(mgr, 0, 0, false)
  }

  /** From a new scheduler, through any calls, turns and callbacks -- any of which may start and stop the
      manager -- at most one live task of the manager has no REMOVE, and it is the one pointed at. */
  lemma AtMostOneMonitor(env: Env, s: State, mgr: nat, steps: seq<Step>, x: nat, y: nat)
    requires Init(s) && Inv(s.store) && CallbacksLeaveAlone(env, Anyone(mgr)) && StepsLeaveAlone(steps, Anyone(mgr))
    requires var q := Run(env, s, steps).store;
      && x in q.live && x < |q.tasks| && q.tasks[x].user == mgr
      && y in q.live && y < |q.tasks| && q.tasks[y].user == mgr
      && !q.tasks[x].opts.remove && !q.tasks[y].opts.remove
    ensures var r := Run(env, s, steps); x == y && mgr in r.monitors && r.monitors[mgr] == x
  {
    hide Inv, CallbacksLeaveAlone, StepsLeaveAlone, Run;
    RunGuarded(env, s, steps, Anyone(mgr));
  }

  // ----- Re-arming --------------------------------------------------------------------------

  /** One run of the manager's timer callback: whatever exit callbacks call, it reports incomplete. */
  function MonitorScript(calls: seq<ClientCall>): Script {
    Script(calls, false)
  }

  /** From position `from` of the log on, the task's callbacks are runs of the manager's. */
  ghost predicate RunsMonitor(env: Env, log: seq<Event>, from: nat, x: nat) {
    forall j :: from <= j < |log| && log[j].Fired? && log[j].slot == x ==>
      env.callback(log[j].call) == MonitorScript(env.callback(log[j].call).calls)
  }

  lemma MonitorNeverCompletes(env: Env, log: seq<Event>, from: nat, x: nat)
    requires RunsMonitor(env, log, from, x)
    ensures !Completed(env, log, from, x)
  {
  }

  /** The watch that a successful start opens. */
  function WatchFrom(s: State, mgr: nat): Watch
    requires mgr in s.monitors
  {
    Watch(mgr, s.monitors[mgr], |s.log|, true)
  }

  /** A started monitor is never lost.  Other clients may do anything, in calls and in callbacks, short of
      unscheduling it, starting or stopping its manager or stopping the scheduler; as long as its
      callback is the manager's, it is scheduled, the only one without REMOVE, and due exactly
      one second after the clock reading it was last armed with. */
  lemma MonitorRearms(env: Env, s: State, mgr: nat, steps: seq<Step>)
    requires Reachable(env, s) && Inv(s.store) && OnlyMonitor(s.store, mgr, s.monitors)
    requires var s1 := LaunchMonitor(env, s, mgr);
      && mgr in s1.monitors && PointsAlone(s1.monitors, mgr, s1.monitors[mgr])
      && CallbacksLeaveAlone(env, WatchFrom(s1, mgr)) && StepsLeaveAlone(steps, WatchFrom(s1, mgr))
      && RunsMonitor(env, Run(env, s1, steps).log, |s1.log|, s1.monitors[mgr])
    ensures var s1 := LaunchMonitor(env, s, mgr); var x, r := s1.monitors[mgr], Run(env, s1, steps);
      && Running(r.store, mgr, x) && OnlyMonitor(r.store, mgr, r.monitors)
      && LifeOf(r.log, x).Life? && LifeOf(r.log, x).arming.ArmedAt? && LifeOf(r.log, x).arming.tick < r.ticks
      && Nanos(r.store.tasks[x].expire) == Nanos(env.clock(LifeOf(r.log, x).arming.tick)) + 1_000_000_000
  {
    hide Inv, CallbacksLeaveAlone, StepsLeaveAlone, OnlyMonitor, Running, Reachable, Completed, RunsMonitor,
         PointsAlone, LaunchMonitor, Run;
    LaunchRuns(env, s, mgr);
    var s1 := LaunchMonitor(env, s, mgr);
    var x, r := s1.monitors[mgr], Run(env, s1, steps);
    RunGuarded(env, s1, steps, WatchFrom(s1, mgr));
    MonitorNeverCompletes(env, r.log, |s1.log|, x);
    ReachableInv(env, s);
    LaunchStory(env, s, mgr, -1);
    RunStory(env, s1, steps);
    RunningArmed(env, r, mgr, x);
  }

  lemma RunningArmed(env: Env, s: State, mgr: nat, x: nat)
    requires Inv(s.store) && Running(s.store, mgr, x) && Story(env, s, -1)
    ensures LifeOf(s.log, x).Life? && LifeOf(s.log, x).arming.ArmedAt? && LifeOf(s.log, x).arming.tick < s.ticks
    ensures Nanos(s.store.tasks[x].expire) == Nanos(env.clock(LifeOf(s.log, x).arming.tick)) + ONE_SECOND
  {
    assert x in s.store.live && x !in s.store.out;
    assert Agrees(env, s.store.tasks[x], true, LifeOf(s.log, x), s.ticks, false);
  }

  lemma RunningAt(s: State, mgr: nat, x: nat) returns (p: nat)
    requires Running(s.store, mgr, x) && !s.stopped
    ensures p < |s.store.list| && s.store.list[p] == x && Unmarked(s, p)
  {
    p :| 0 <= p < |s.store.list| && s.store.list[p] == x;
  }

  /** In a turn that dispatches and does not stop the scheduler, a running monitor is visited. */
  lemma MonitorVisited(env: Env, s: State, mgr: nat, x: nat)
    requires Inv(s.store) && Running(Pump(env, s).store, mgr, x)
    requires !s.stopped && !Pump(env, s).stopped && env.select(s.polls).SelectReady?
    ensures x in News(s, Pump(env, s), Visits)
  {
    hide Inv, Pump, News, Running, Subsequence, Unmarked;
    TurnVisitsOnce(env, s);
    var p := RunningAt(Pump(env, s), mgr, x);
  }

  /** A visit runs the monitor's callback exactly when its second has passed, and then arms it again
      unless the callback reports completion. */
  lemma MonitorVisit(env: Env, s: State, i: nat, f: FdSets, mgr: nat)
    requires Inv(s.store) && i < |s.store.list| && Running(s.store, mgr, s.store.list[i])
    requires 0 <= s.store.tasks[s.store.list[i]].expire.nsec <= 1_000_000_000
    ensures var x, r, tick := s.store.list[i], Visit(env, s, i, f).0, s.ticks;
      var ran := Entered(s, i).log + [Fired(x, TimedOut, s.store.tasks[x].fd, tick, s.calls)];
      if Nanos(env.clock(tick)) < Nanos(s.store.tasks[x].expire) then r == Entered(s, i)
      else
        && ran <= r.log
        && (!env.callback(s.calls).complete ==> Rearmed(env, ran, x, tick, 1_000_000_000, r))
  {
    hide Inv, Extends, Visit, Rearmed;
    TimerVisits(env, s, i, f);
  }
}
