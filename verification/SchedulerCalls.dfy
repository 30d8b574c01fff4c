/** Interface calls, and lists of them as a callback makes them, keep the scheduler's invariant and
    only let it grow: during a callback no task leaves the list and none returns to the pool. */
module SchedulerCalls {
  import opened Sequences
  import opened Deadlines
  import opened SchedulerModel

  /** The same incarnation of a task: only its deadline may have moved and REMOVE may have been set. */
  ghost predicate SameTask(t: Task, u: Task) {
    && u.fd == t.fd && u.timeOut == t.timeOut && u.user == t.user && u.cbs == t.cbs
    && u.opts.(remove := false) == t.opts.(remove := false)
    && (t.opts.remove ==> u.opts.remove)
  }

  /** The list is only appended to, its tasks stay what they are, and the pool is only popped. */
  ghost predicate Extends(q: Store, r: Store) {
    && |r.tasks| == |q.tasks| && r.maxTimers == q.maxTimers
    && q.list <= r.list && |r.pool| <= |q.pool| && q.lost <= r.lost
    && r.pool == q.pool[|q.pool| - |r.pool|..]
    && (forall k :: 0 <= k < |q.list| && q.list[k] < |q.tasks| ==> SameTask(q.tasks[q.list[k]], r.tasks[q.list[k]]))
  }

  /** The log knows every timer ID that was lost. */
  ghost predicate LossesLogged(s: State) {
    forall id: int :: id in s.store.lost <==> LostId(id) in s.log
  }

  ghost predicate Grows(s: State, s': State) {
    && Extends(s.store, s'.store)
    && s.log <= s'.log && s.ticks <= s'.ticks && s.calls <= s'.calls && s.polls == s'.polls
    && (s.stopped ==> s'.stopped) && (LossesLogged(s) ==> LossesLogged(s'))
  }

  lemma GrowsTransitive(a: State, b: State, c: State)
    requires Grows(a, b) && Grows(b, c)
    ensures Grows(a, c)
  {
    forall k | 0 <= k < |a.store.list| && a.store.list[k] < |a.store.tasks|
      ensures SameTask(a.store.tasks[a.store.list[k]], c.store.tasks[a.store.list[k]])
    {
      assert b.store.list[k] == a.store.list[k];
    }
  }

  lemma GrowsReflexive(s: State)
    ensures Grows(s, s)
  {
    hide LossesLogged;
  }

  /** A position of the list keeps naming the same incarnation of the same task. */
  lemma PositionStays(s: State, s': State, i: nat)
    requires Grows(s, s') && i < |s.store.list| && s.store.list[i] < |s.store.tasks|
    ensures i < |s'.store.list| && s'.store.list[i] == s.store.list[i] && |s'.store.tasks| == |s.store.tasks|
    ensures SameTask(s.store.tasks[s.store.list[i]], s'.store.tasks[s.store.list[i]])
    ensures s.ticks <= s'.ticks
  {
  }

  lemma InvIndexed(q: Store)
    requires Inv(q)
    ensures Indexed(q)
  {
  }

  // ----- Store operations -------------------------------------------------------------------

  /** Rewriting one task object without moving it or changing what a live task is. */
  lemma PutKeeps(q: Store, x: nat, t: Task)
    requires Inv(q) && x < |q.tasks|
    requires x in q.live ==> SameTask(q.tasks[x], t)
    ensures Inv(Put(q, x, t)) && Extends(q, Put(q, x, t))
  {
  }

  lemma TakeKeepsSlots(q: Store, t: Task)
    requires Indexed(q) && SlotsOk(q) && TasksOk(q) && WellFormed(t) && q.pool != []
    ensures Indexed(Take(q, t)) && SlotsOk(Take(q, t)) && TasksOk(Take(q, t))
  {
    hide TasksOk, WellFormed;
    TakeKeepsTasks(q, t);
    TakeKeepsPool(q, t);
    var x, r := q.pool[0], Take(q, t);
    assert x !in q.live && x !in q.out;
    hide NoDup;
    assert |r.pool| + |r.live| == |r.tasks| && |r.list| + |r.out| == |r.live|;
  }

  lemma TakeKeepsPool(q: Store, t: Task)
    requires Indexed(q) && SlotsOk(q) && q.pool != []
    ensures var r := Take(q, t);
      && NoDup(r.pool) && forall k :: 0 <= k < |r.pool| ==> r.pool[k] !in r.live && r.pool[k] < |r.tasks|
  {
    var r := Take(q, t);
    assert forall k :: 0 <= k < |r.pool| ==> r.pool[k] == q.pool[k + 1] && r.pool[k] != q.pool[0];
  }

  lemma TakeKeepsTasks(q: Store, t: Task)
    requires TasksOk(q) && WellFormed(t) && q.pool != [] && q.pool[0] < |q.tasks|
    ensures TasksOk(Take(q, t))
  {
  }

  lemma TakeExtends(q: Store, t: Task)
    requires Indexed(q) && SlotsOk(q) && q.pool != []
    ensures Extends(q, Take(q, t))
  {
    assert q.pool[0] !in q.live;
  }

  lemma TakeKeepsHeld(q: Store, t: Task)
    requires Indexed(q) && SlotsOk(q) && HeldOk(q) && q.pool != [] && t.fd !in q.held
    ensures HeldOk(Take(q, t))
  {
  }

  lemma TakeKeeps(q: Store, t: Task)
    requires Inv(q) && WellFormed(t) && t.fd >= INVALID_FD && q.pool != []
    ensures Inv(Take(q, t)) && Extends(q, Take(q, t))
  {
    hide SlotsOk, TasksOk, HeldOk, Extends;
    assert t.fd !in q.held && IdsApart(Take(q, t));
    TakeKeepsSlots(q, t);
    TakeExtends(q, t);
    TakeKeepsHeld(q, t);
  }

  /** Popping a timer ID together with the task object that carries it. */
  lemma TakeTimerKeepsIds(q: Store, t: Task)
    requires IdsApart(q) && q.ids != [] && t.fd == q.ids[0] && q.pool != [] && q.pool[0] < |q.tasks|
    ensures t.fd !in q.held && IdsApart(Take(q.(ids := q.ids[1..]), t))
  {
  }

  lemma PopIdKeeps(q: Store)
    requires Indexed(q) && SlotsOk(q) && TasksOk(q) && HeldOk(q) && q.ids != []
    ensures var r := q.(ids := q.ids[1..]); Indexed(r) && SlotsOk(r) && TasksOk(r) && HeldOk(r)
    ensures forall r :: Extends(q.(ids := q.ids[1..]), r) ==> Extends(q, r)
  {
  }

  lemma TakeTimerKeeps(q: Store, t: Task)
    requires Inv(q) && WellFormed(t) && q.pool != [] && q.ids != [] && t.fd == q.ids[0]
    ensures Inv(Take(q.(ids := q.ids[1..]), t)) && Extends(q, Take(q.(ids := q.ids[1..]), t))
  {
    hide IdsApart, SlotsOk, TasksOk, HeldOk, Extends;
    TakeTimerKeepsIds(q, t);
    PopIdKeeps(q);
    var q1 := q.(ids := q.ids[1..]);
    TakeKeepsSlots(q1, t);
    TakeExtends(q1, t);
    TakeKeepsHeld(q1, t);
  }

  /** Losing a timer ID because no task object is left. */
  lemma LoseKeeps(q: Store)
    requires Inv(q) && q.ids != []
    ensures Inv(q.(ids := q.ids[1..], lost := q.lost + {q.ids[0]}))
  {
  }

  lemma EnlistKeepsSlots(q: Store, x: nat, t: Task)
    requires Indexed(q) && SlotsOk(q) && TasksOk(q) && x in q.out && x < |q.tasks| && WellFormed(t) && Dispatchable(t)
    ensures var r := Enlist(q, x, t); Indexed(r) && SlotsOk(r) && TasksOk(r) && Extends(q, r)
  {
  }

  lemma EnlistKeeps(q: Store, x: nat, t: Task)
    requires Inv(q) && x in q.out && x < |q.tasks|
    requires t.fd == q.tasks[x].fd && WellFormed(t) && Dispatchable(t)
    ensures Inv(Enlist(q, x, t)) && Extends(q, Enlist(q, x, t))
  {
    EnlistKeepsSlots(q, x, t);
    assert x in q.live;
    hide SlotsOk, TasksOk;
  }

  lemma DropKeepsSlots(q: Store, i: nat)
    requires Indexed(q) && SlotsOk(q) && TasksOk(q) && i < |q.list|
    ensures Indexed(Drop(q, i)) && SlotsOk(Drop(q, i)) && TasksOk(Drop(q, i))
  {
    var x := q.list[i];
    assert x !in q.pool && x !in Drop(q, i).list;
  }

  lemma DropKeepsApart(q: Store, i: nat)
    requires IdsApart(q) && i < |q.list| && q.list[i] < |q.tasks|
    requires q.tasks[q.list[i]].fd in q.held <==> q.tasks[q.list[i]].fd < INVALID_FD
    ensures IdsApart(Drop(q, i))
  {
    var r, fd := Drop(q, i), q.tasks[q.list[i]].fd;
    assert r.held.Keys == q.held.Keys - {fd};
    assert |r.held.Keys| == |r.held| && |q.held.Keys| == |q.held|;
  }

  lemma DropKeepsHeld(q: Store, i: nat)
    requires HeldOk(q) && i < |q.list| && q.list[i] < |q.tasks| && q.list[i] in q.live
    ensures HeldOk(Drop(q, i))
  {
    var x, r := q.list[i], Drop(q, i);
    forall id | id in r.held ensures HeldBy(r, id, r.held[id]) {
      assert HeldBy(q, id, q.held[id]);
    }
    forall y | y in r.live && y < |r.tasks| ensures HoldsItsId(r, y) {
      assert HoldsItsId(q, y) && HoldsItsId(q, x);
    }
  }

  lemma DropKeepsIds(q: Store, i: nat)
    requires Indexed(q) && SlotsOk(q) && IdsApart(q) && HeldOk(q) && i < |q.list|
    ensures IdsApart(Drop(q, i)) && HeldOk(Drop(q, i))
  {
    assert q.list[i] in q.live && HoldsItsId(q, q.list[i]);
    assert q.tasks[q.list[i]].fd in q.held <==> q.tasks[q.list[i]].fd < INVALID_FD;
    hide IdsApart, HeldOk, SlotsOk;
    DropKeepsApart(q, i);
    DropKeepsHeld(q, i);
  }

  /** Returning a listed task keeps the invariant; the pool has room for it. */
  lemma DropKeeps(q: Store, i: nat)
    requires Inv(q) && i < |q.list|
    ensures Inv(Drop(q, i)) && |q.pool| < |q.tasks|
  {
    DropKeepsSlots(q, i);
    DropKeepsIds(q, i);
    hide TasksOk, HeldOk, IdsApart;
  }

  lemma MarkAllKeepsTasks(q: Store)
    requires Indexed(q) && TasksOk(q) && HeldOk(q)
    ensures var r := q.(tasks := MarkAll(q.tasks, q.list)); TasksOk(r) && HeldOk(r)
  {
    var r := q.(tasks := MarkAll(q.tasks, q.list));
    forall x | x in r.live && x < |r.tasks| ensures HoldsItsId(r, x) {
      assert HoldsItsId(q, x);
    }
    forall id | id in r.held ensures HeldBy(r, id, r.held[id]) {
      assert HeldBy(q, id, q.held[id]);
    }
  }

  lemma MarkAllKeeps(q: Store)
    requires Inv(q)
    ensures Inv(q.(tasks := MarkAll(q.tasks, q.list))) && Extends(q, q.(tasks := MarkAll(q.tasks, q.list)))
  {
    hide TasksOk, HeldOk;
    MarkAllKeepsTasks(q);
  }

  // ----- Interface calls --------------------------------------------------------------------

  /** A step that loses no timer ID and logs at most one event about something else. */
  lemma NoLoss(s: State, r: State)
    requires r.store.lost == s.store.lost
    requires r.log == s.log || exists e: Event :: r.log == s.log + [e] && !e.LostId?
    ensures LossesLogged(s) ==> LossesLogged(r)
  {
  }

  lemma LossLogged(s: State)
    requires s.store.ids != []
    ensures LossesLogged(s) ==> LossesLogged(LoseId(s))
  {
    var r, e := LoseId(s), LostId(s.store.ids[0]);
    assert r.log[|s.log|] == e;
    assert forall id: int :: LostId(id) in r.log <==> LostId(id) in s.log || LostId(id) == e;
  }

  lemma CreateKeeps(s: State, t: Task)
    requires Inv(s.store) && WellFormed(t) && t.fd >= INVALID_FD
    ensures Inv(Create(s, t).0.store) && Grows(s, Create(s, t).0)
  {
    hide SlotsOk, TasksOk, HeldOk, IdsApart, LossesLogged;
    GrowsReflexive(s);
    NoLoss(s, Create(s, t).0);
    if s.store.pool != [] {
      TakeKeeps(s.store, Fresh(t));
    }
  }

  lemma MakeTimerKeeps(s: State, timeOut: int, user: nat, hasCallback: bool)
    requires Inv(s.store) && timeOut >= NO_TIMEOUT
    ensures var r := MakeTimer(s, timeOut, user, hasCallback).0; Inv(r.store) && Grows(s, r)
  {
    hide SlotsOk, TasksOk, HeldOk, IdsApart, LossesLogged;
    var q := s.store;
    if q.ids != [] {
      if q.pool == [] {
        LoseKeeps(q);
        LossLogged(s);
      } else {
        NoLoss(s, MakeTimer(s, timeOut, user, hasCallback).0);
        TakeTimerKeeps(q, Fresh(TimerTask(q.ids[0], timeOut, user, hasCallback)));
      }
    }
  }

  lemma ArmKeeps(env: Env, s: State, x: nat, repeat: bool)
    requires Inv(s.store) && x in s.store.live && x < |s.store.tasks| && s.store.tasks[x].timeOut >= 0
    ensures Inv(Arm(env, s, x, repeat).store) && Grows(s, Arm(env, s, x, repeat))
  {
    hide SlotsOk, TasksOk, HeldOk, IdsApart, LossesLogged, Extends;
    NoLoss(s, Arm(env, s, x, repeat));
    PutKeeps(s.store, x, Arm(env, s, x, repeat).store.tasks[x]);
  }

  lemma HandedOut(q: Store, x: nat)
    requires Inv(q) && x in q.out
    ensures x in q.live && x < |q.tasks| && WellFormed(q.tasks[x])
  {
  }

  lemma ScheduledIsOk(env: Env, t: Task, tick: nat)
    requires WellFormed(t)
    ensures t.timeOut >= NO_TIMEOUT
    ensures var u := Scheduled(env, t, tick); u.fd == t.fd && WellFormed(u) && Dispatchable(u)
  {
  }

  lemma ScheduleKeeps(env: Env, s: State, x: nat)
    requires Inv(s.store) && x in s.store.out
    ensures x < |s.store.tasks| && s.store.tasks[x].timeOut >= NO_TIMEOUT
    ensures Inv(ScheduleTask(env, s, x).store) && Grows(s, ScheduleTask(env, s, x))
  {
    hide Inv, LossesLogged, Extends, WellFormed, Dispatchable, Scheduled;
    HandedOut(s.store, x);
    ScheduledIsOk(env, s.store.tasks[x], s.ticks);
    NoLoss(s, ScheduleTask(env, s, x));
    EnlistKeeps(s.store, x, ScheduleTask(env, s, x).store.tasks[x]);
  }

  lemma UnscheduleKeeps(s: State, x: nat)
    requires Inv(s.store) && x < |s.store.tasks|
    ensures Inv(UnscheduleTask(s, x).store) && Grows(s, UnscheduleTask(s, x))
  {
    hide Inv, LossesLogged, Extends;
    GrowsReflexive(s);
    NoLoss(s, UnscheduleTask(s, x));
    PutKeeps(s.store, x, Mark(s.store.tasks[x]));
  }

  lemma PerformKeeps(env: Env, s: State, a: Action)
    requires Inv(s.store)
    ensures Inv(Perform(env, s, a).store) && Grows(s, Perform(env, s, a))
  {
    hide SlotsOk, TasksOk, HeldOk, IdsApart, LossesLogged, Extends;
    GrowsReflexive(s);
    if Permitted(s.store, a) {
      match a
      case CreateTask(fd, opts, timeOut, user, cbs) =>
        CreateKeeps(s, Task(fd, opts, timeOut, Timespec(0, 0), user, cbs));
      case CreateTimer(timeOut, user, hasCallback) => MakeTimerKeeps(s, timeOut, user, hasCallback);
      case Schedule(x) => ScheduleKeeps(env, s, x);
      case Unschedule(x) => UnscheduleKeeps(s, x);
      case Reschedule(x) => if !s.store.tasks[x].opts.remove { ArmKeeps(env, s, x, false); }
      case Stop =>
        NoLoss(s, StopScheduler(s));
        MarkAllKeeps(s.store);
    }
  }

  /** What a call may log: nothing is visited or fired, and only a pooled task object is created. */
  predicate CallEvent(s: State, e: Event) {
    !e.Visited? && !e.Fired? && (e.Created? ==> s.store.pool != [] && e.slot == s.store.pool[0])
  }

  lemma PerformLogs(env: Env, s: State, a: Action)
    requires Inv(s.store)
    ensures var r := Perform(env, s, a);
      && r.calls == s.calls && r.monitors == s.monitors
      && (r.log == s.log || exists e :: CallEvent(s, e) && r.log == s.log + [e])
  {
    hide Inv, Normalized, WellFormed;
    var r := Perform(env, s, a);
    if r.log != s.log {
      assert CallEvent(s, r.log[|s.log|]);
    }
  }

  /** A timer that was created is handed out, on top of what the pool had. */
  lemma MadeTimer(s: State, timeOut: int, user: nat, hasCallback: bool)
    requires Inv(s.store) && timeOut >= NO_TIMEOUT && s.store.ids != [] && s.store.pool != []
    ensures var q, x := MakeTimer(s, timeOut, user, hasCallback).0.store, s.store.pool[0];
      && x in q.out && x < |q.tasks| && s.store.ids[0] < INVALID_FD
      && q.tasks[x] == TimerTask(s.store.ids[0], timeOut, user, hasCallback)
  {
  }

  // ----- Clients ----------------------------------------------------------------------------

  /** Stops a child-process manager: the task it points at is unscheduled and forgotten. */
  function HaltMonitor(env: Env, s: State, mgr: nat): (r: State)
    requires Inv(s.store)
    ensures Inv(r.store) && Grows(s, r)
  {
    if mgr !in s.monitors then s
    else
      PerformKeeps(env, s, Unschedule(s.monitors[mgr]));
      Perform(env, s, Unschedule(s.monitors[mgr])).(monitors := s.monitors - {mgr})
  }

  /** Starts a child-process manager: stops it if it runs, then creates and schedules a timer of one
      second; without a timer ID or a task object the manager is left without a monitor. */
  function LaunchMonitor(env: Env, s: State, mgr: nat): (r: State)
    requires Inv(s.store)
    ensures Inv(r.store) && Grows(s, r)
  {
    var s1 := HaltMonitor(env, s, mgr);
    var q, create := s1.store, CreateTimer(ONE_SECOND, mgr, true);
    PerformKeeps(env, s1, create);
    var s2 := Perform(env, s1, create);
    GrowsTransitive(s, s1, s2);
    if q.ids == [] || q.pool == [] then s2
    else
      PerformKeeps(env, s2, Schedule(q.pool[0]));
      var s3 := Perform(env, s2, Schedule(q.pool[0]));
      GrowsTransitive(s, s2, s3);
      s3.(monitors := s3.monitors[mgr := q.pool[0]])
  }

  function Execute(env: Env, s: State, c: ClientCall): (r: State)
    requires Inv(s.store)
    ensures Inv(r.store) && Grows(s, r)
  {
    match c
    case Api(a) => PerformKeeps(env, s, a); Perform(env, s, a)
    case StartMonitor(mgr) => LaunchMonitor(env, s, mgr)
    case StopMonitor(mgr) => HaltMonitor(env, s, mgr)
  }

  /** The calls of one callback. */
  function ExecuteAll(env: Env, s: State, calls: seq<ClientCall>): (r: State)
    requires Inv(s.store)
    ensures Inv(r.store) && Grows(s, r)
    decreases |calls|
  {
    if calls == [] then s
    else
      var s1 := Execute(env, s, calls[0]);
      var r := ExecuteAll(env, s1, calls[1..]);
      GrowsTransitive(s, s1, r);
      r
  }

  /** Calls are made one after the other, each exactly once. */
  lemma {:induction false} ExecuteAllInTurn(env: Env, s: State, a: seq<ClientCall>, b: seq<ClientCall>)
    requires Inv(s.store)
    ensures ExecuteAll(env, s, a + b) == ExecuteAll(env, ExecuteAll(env, s, a), b)
    ensures |a| == 1 ==> ExecuteAll(env, s, a) == Execute(env, s, a[0])
    decreases |a|
  {
    hide Inv, Grows, Execute;
    if a == [] {
      assert a + b == b;
    } else {
      assert (a + b)[1..] == a[1..] + b;
      ExecuteAllInTurn(env, Execute(env, s, a[0]), a[1..], b);
    }
  }
}
