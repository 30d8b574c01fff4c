/** What the event log of every run looks like: REMOVE is sticky, and timers are never early. */
module SchedulerTrace {
  import opened Deadlines
  import opened SchedulerModel
  import opened SchedulerCalls
  import opened SchedulerPump

  datatype Arming = Unarmed | ArmedAt(tick: nat, timeOut: int)
  datatype Firing = NotYet | FiredAt(tick: nat, call: nat, fd: int)

  /** How the task was armed when it was last visited. */
  datatype Sight = Unseen | Seen(arming: Arming)

  /** The part of a task object's log that matters for its current incarnation. */
  datatype Life = Unborn | Life(marked: bool, arming: Arming, firing: Firing, sight: Sight)

  function Next(p: Life, e: Event, x: nat): Life {
    match e
    case Created(y) => if y == x then Life(false, Unarmed, NotYet, Unseen) else p
    case LostId(_) => p
    case Armed(y, tick, timeOut, _) => if y == x && p.Life? then p.(arming := ArmedAt(tick, timeOut)) else p
    case Marked(ys) => if x in ys && p.Life? then p.(marked := true) else p
    case Visited(y, _) => if y == x && p.Life? then p.(sight := Seen(p.arming)) else p
    case Fired(y, kind, fd, tick, call) =>
      if y == x && kind.TimedOut? && p.Life? then p.(firing := FiredAt(tick, call, fd)) else p
  }

  function LifeOf(log: seq<Event>, x: nat): Life {
    if log == [] then Unborn else Next(LifeOf(log[..|log| - 1], x), log[|log| - 1], x)
  }

  /** What must hold before a timer that fired fires again.  If the callback reported incomplete it has been
      armed since.  One with a timer ID must have done so; the special descriptor -1 goes on either way. */
  ghost predicate Settled(env: Env, fd: int, p: Life)
    requires p.Life? && p.arming.ArmedAt? && p.firing.FiredAt?
  {
    && (fd < INVALID_FD ==> !env.callback(p.firing.call).complete)
    && (!env.callback(p.firing.call).complete ==> p.firing.tick < p.arming.tick)
  }

  /** The time-out of an arming has passed at a clock reading.  A task that was never armed has the
      deadline 0. */
  predicate Passed(env: Env, tick: nat, a: Arming) {
    match a
    case Unarmed => Nanos(env.clock(tick)) >= 0
    case ArmedAt(armed, timeOut) => Nanos(env.clock(tick)) >= Nanos(env.clock(armed)) + timeOut
  }

  /** What must hold of a task's past for an event to be in order.  A marked task is not visited.  Only a
      task without a descriptor goes on by itself, after its callback reported incomplete.  It times out only
      when its latest arming has passed, and is settled; a task with a descriptor times out only
      when the arming it had at its visit has passed. */
  ghost predicate InOrder(env: Env, p: Life, e: Event) {
    match e
    case Visited(_, _) => p.Life? && !p.marked
    case Armed(_, tick, _, repeat) =>
      && (p.Life? && p.firing.FiredAt? ==> p.firing.tick < tick)
      && (repeat ==> FiredIncomplete(env, p) && p.firing.fd <= INVALID_FD)
    case Fired(_, TimedOut, fd, tick, _) =>
      && p.Life?
      && if fd <= INVALID_FD then
           && p.arming.ArmedAt? && p.arming.tick < tick && Passed(env, tick, p.arming)
           && (p.firing.FiredAt? ==> Settled(env, fd, p))
         else p.sight.Seen? && Passed(env, tick, p.sight.arming)
    case _ => true
  }

  ghost predicate FiredIncomplete(env: Env, p: Life) {
    p.Life? && p.firing.FiredAt? && !env.callback(p.firing.call).complete
  }

  function SlotOf(e: Event): nat {
    match e
    case Visited(x, _) => x
    case Armed(x, _, _, _) => x
    case Fired(x, _, _, _, _) => x
    case _ => 0
  }

  ghost predicate TraceOk(env: Env, log: seq<Event>) {
    forall j :: 0 <= j < |log| ==> InOrder(env, LifeOf(log[..j], SlotOf(log[j])), log[j])
  }

  /** The deadline of a task is what its latest arming made it, and 0 before the first. */
  ghost predicate DeadlineOf(env: Env, t: Task, a: Arming, ticks: nat) {
    match a
    case Unarmed => t.expire == Timespec(0, 0)
    case ArmedAt(tick, timeOut) =>
      && tick < ticks && timeOut == t.timeOut && 0 <= t.expire.nsec <= ONE_SECOND
      && Nanos(t.expire) == Nanos(env.clock(tick)) + timeOut
  }

  /** The log and the task object tell the same story; `firing` is the timer whose callback is
      running or has just returned, which is not armed again yet. */
  ghost predicate Agrees(env: Env, t: Task, listed: bool, p: Life, ticks: nat, firing: bool) {
    && p.Life? && p.marked == t.opts.remove && DeadlineOf(env, t, p.arming, ticks)
    && (p.firing.FiredAt? ==> p.firing.tick < ticks && listed && p.firing.fd == t.fd)
    && (listed && t.fd <= INVALID_FD && !t.opts.remove ==>
          p.arming.ArmedAt? && (p.firing.FiredAt? && !firing ==> Settled(env, t.fd, p)))
  }

  ghost predicate Story(env: Env, s: State, firing: int) {
    && TraceOk(env, s.log)
    && forall x :: x in s.store.live && x < |s.store.tasks| ==>
         Agrees(env, s.store.tasks[x], x !in s.store.out, LifeOf(s.log, x), s.ticks, x == firing)
  }

  lemma LifeSnoc(log: seq<Event>, e: Event, x: nat)
    ensures LifeOf(log + [e], x) == Next(LifeOf(log, x), e, x)
  {
    assert (log + [e])[..|log|] == log;
  }

  lemma TraceSnoc(env: Env, log: seq<Event>, e: Event)
    requires TraceOk(env, log) && InOrder(env, LifeOf(log, SlotOf(e)), e)
    ensures TraceOk(env, log + [e])
  {
    var log' := log + [e];
    forall j | 0 <= j < |log'| ensures InOrder(env, LifeOf(log'[..j], SlotOf(log'[j])), log'[j]) {
      assert log'[..j] == log[..j];
      assert log[..|log|] == log;
    }
  }

  /** One live task changes, with one event about it. */
  lemma ChangeStory(env: Env, s: State, r: State, x: nat, e: Event, firing: int, firing': int)
    requires Story(env, s, firing) && x < |s.store.tasks| == |r.store.tasks|
    requires r.log == s.log + [e] && ((e.Armed? && e.slot == x) || e == Marked([x]))
    requires e.Armed? ==> InOrder(env, LifeOf(s.log, x), e)
    requires r.store.tasks == s.store.tasks[x := r.store.tasks[x]] && r.store.live == s.store.live
    requires r.store.out == s.store.out || r.store.out == s.store.out - {x}
    requires r.ticks >= s.ticks && (firing' == firing || (firing == x && firing' == -1))
    requires x in r.store.live ==>
      Agrees(env, r.store.tasks[x], x !in r.store.out, Next(LifeOf(s.log, x), e, x), r.ticks, x == firing')
    ensures Story(env, r, firing')
  {
    TraceSnoc(env, s.log, e);
    forall y | y in r.store.live && y < |r.store.tasks|
      ensures Agrees(env, r.store.tasks[y], y !in r.store.out, LifeOf(r.log, y), r.ticks, y == firing')
    {
      LifeSnoc(s.log, e, y);
      if y != x {
        assert Agrees(env, s.store.tasks[y], y !in s.store.out, LifeOf(s.log, y), s.ticks, y == firing);
      }
    }
  }

  lemma ArmStory(env: Env, s: State, x: nat, firing: int, repeat: bool)
    requires Story(env, s, firing) && x in s.store.live && x < |s.store.tasks| && s.store.tasks[x].timeOut >= 0
    requires repeat ==> firing == x && FiredIncomplete(env, LifeOf(s.log, x)) && s.store.tasks[x].fd <= INVALID_FD
    ensures Story(env, Arm(env, s, x, repeat), if repeat then -1 else firing)
  {
    var r := Arm(env, s, x, repeat);
    assert Agrees(env, s.store.tasks[x], x !in s.store.out, LifeOf(s.log, x), s.ticks, x == firing);
    hide TraceOk, Story;
    ChangeStory(env, s, r, x, Armed(x, s.ticks, s.store.tasks[x].timeOut, repeat), firing,
        if repeat then -1 else firing);
  }

  lemma CreateStory(env: Env, s: State, t: Task, firing: int)
    requires Indexed(s.store) && SlotsOk(s.store) && Story(env, s, firing)
    ensures Story(env, Create(s, t).0, firing)
  {
    var r := Create(s, t).0;
    if s.store.pool != [] {
      var e := Created(s.store.pool[0]);
      TraceSnoc(env, s.log, e);
      forall y | y in r.store.live && y < |r.store.tasks|
        ensures Agrees(env, r.store.tasks[y], y !in r.store.out, LifeOf(r.log, y), r.ticks, y == firing)
      {
        LifeSnoc(s.log, e, y);
      }
    }
  }

  lemma LoseIdStory(env: Env, s: State, firing: int)
    requires Story(env, s, firing) && s.store.ids != []
    ensures Story(env, LoseId(s), firing)
  {
    var r, e := LoseId(s), LostId(s.store.ids[0]);
    TraceSnoc(env, s.log, e);
    forall y | y in r.store.live && y < |r.store.tasks|
      ensures Agrees(env, r.store.tasks[y], y !in r.store.out, LifeOf(r.log, y), r.ticks, y == firing)
    {
      LifeSnoc(s.log, e, y);
    }
  }

  lemma MakeTimerStory(env: Env, s: State, timeOut: int, user: nat, hasCallback: bool, firing: int)
    requires Inv(s.store) && Story(env, s, firing)
    ensures Story(env, MakeTimer(s, timeOut, user, hasCallback).0, firing)
  {
    var q := s.store;
    if q.ids != [] {
      if q.pool == [] {
        LoseIdStory(env, s, firing);
      } else {
        CreateStory(env, s.(store := q.(ids := q.ids[1..])), TimerTask(q.ids[0], timeOut, user, hasCallback), firing);
      }
    }
  }

  /** Scheduling one task, seen from that task: armed, or marked, or left alone because it does I/O. */
  lemma ScheduleAgrees(env: Env, x: nat, t: Task, p: Life, ticks: nat, firing: bool)
    requires Agrees(env, t, false, p, ticks, firing) && WellFormed(t)
    ensures var t' := t.(opts := Normalized(t));
      if t'.opts.timer then
        Agrees(env, t'.(expire := Deadline(env.clock(ticks), t.timeOut)), true,
               Next(p, Armed(x, ticks, t.timeOut, false), x), ticks + 1, firing)
      else if t'.opts.remove then Agrees(env, t', true, Next(p, Marked([x]), x), ticks, firing)
      else Agrees(env, t', true, p, ticks, firing)
  {
  }

  lemma ScheduleStory(env: Env, s: State, x: nat, firing: int)
    requires Inv(s.store) && Story(env, s, firing) && x in s.store.out && x in s.store.live && x < |s.store.tasks|
    requires s.store.tasks[x].timeOut >= NO_TIMEOUT
    ensures Story(env, ScheduleTask(env, s, x), firing)
  {
    var t, r := s.store.tasks[x], ScheduleTask(env, s, x);
    ScheduleAgrees(env, x, t, LifeOf(s.log, x), s.ticks, x == firing);
    assert LifeOf(s.log, x).Life? && LifeOf(s.log, x).firing.NotYet?;
    hide Inv, TraceOk, Agrees, LifeOf;
    if r.store.tasks[x].opts.timer {
      ChangeStory(env, s, r, x, Armed(x, s.ticks, t.timeOut, false), firing, firing);
    } else if r.store.tasks[x].opts.remove {
      ChangeStory(env, s, r, x, Marked([x]), firing, firing);
    }
  }

  /** Marking a task settles a timer whose callback is running. */
  lemma UnscheduleStory(env: Env, s: State, x: nat, firing: int, firing': int)
    requires Story(env, s, firing) && x < |s.store.tasks|
    requires firing' == firing || (firing == x && firing' == -1 && s.store.tasks[x].fd != INVALID_FD)
    ensures Story(env, UnscheduleTask(s, x), firing')
  {
    var t, r := s.store.tasks[x], UnscheduleTask(s, x);
    assert x in s.store.live ==> Agrees(env, t, x !in s.store.out, LifeOf(s.log, x), s.ticks, x == firing);
    if t.fd != INVALID_FD {
      ChangeStory(env, s, r, x, Marked([x]), firing, firing');
    }
  }

  lemma StopStory(env: Env, s: State, firing: int)
    requires Inv(s.store) && Story(env, s, firing)
    ensures Story(env, StopScheduler(s), firing)
  {
    var r := StopScheduler(s);
    var e := Marked(s.store.list);
    TraceSnoc(env, s.log, e);
    forall y | y in r.store.live && y < |r.store.tasks|
      ensures Agrees(env, r.store.tasks[y], y !in r.store.out, LifeOf(r.log, y), r.ticks, y == firing)
    {
      LifeSnoc(s.log, e, y);
    }
  }

  lemma PerformStory(env: Env, s: State, a: Action, firing: int)
    requires Inv(s.store) && Story(env, s, firing)
    ensures Story(env, Perform(env, s, a), firing)
  {
    var q := s.store;
    if Permitted(q, a) {
      match a
      case CreateTask(fd, opts, timeOut, user, cbs) =>
        CreateStory(env, s, Task(fd, opts, timeOut, Timespec(0, 0), user, cbs), firing);
      case CreateTimer(timeOut, user, hasCallback) => MakeTimerStory(env, s, timeOut, user, hasCallback, firing);
      case Schedule(x) => ScheduleKeeps(env, s, x); ScheduleStory(env, s, x, firing);
      case Unschedule(x) => UnscheduleStory(env, s, x, firing, firing);
      case Reschedule(x) => if !q.tasks[x].opts.remove { ArmStory(env, s, x, firing, false); }
      case Stop => StopStory(env, s, firing);
    }
  }

  /** The managers' pointers are not part of the story. */
  lemma MonitorsStory(env: Env, s: State, monitors: map<nat, nat>, firing: int)
    requires Story(env, s, firing)
    ensures Story(env, s.(monitors := monitors), firing)
  {
  }

  lemma HaltStory(env: Env, s: State, mgr: nat, firing: int)
    requires Inv(s.store) && Story(env, s, firing)
    ensures Story(env, HaltMonitor(env, s, mgr), firing)
  {
    hide Inv, Story, Perform;
    if mgr in s.monitors {
      PerformStory(env, s, Unschedule(s.monitors[mgr]), firing);
      MonitorsStory(env, Perform(env, s, Unschedule(s.monitors[mgr])), s.monitors - {mgr}, firing);
    }
  }

  lemma LaunchStory(env: Env, s: State, mgr: nat, firing: int)
    requires Inv(s.store) && Story(env, s, firing)
    ensures Story(env, LaunchMonitor(env, s, mgr), firing)
  {
    hide Inv, Story, Perform, HaltMonitor, Grows;
    HaltStory(env, s, mgr, firing);
    var s1, create := HaltMonitor(env, s, mgr), CreateTimer(ONE_SECOND, mgr, true);
    PerformStory(env, s1, create, firing);
    PerformKeeps(env, s1, create);
    if s1.store.ids != [] && s1.store.pool != [] {
      var s2, x := Perform(env, s1, create), s1.store.pool[0];
      PerformStory(env, s2, Schedule(x), firing);
      MonitorsStory(env, Perform(env, s2, Schedule(x)), Perform(env, s2, Schedule(x)).monitors[mgr := x], firing);
    }
  }

  lemma ExecuteStory(env: Env, s: State, c: ClientCall, firing: int)
    requires Inv(s.store) && Story(env, s, firing)
    ensures Story(env, Execute(env, s, c), firing)
  {
    match c
    case Api(a) => PerformStory(env, s, a, firing);
    case StartMonitor(mgr) => LaunchStory(env, s, mgr, firing);
    case StopMonitor(mgr) => HaltStory(env, s, mgr, firing);
  }

  // ----- The callback that runs -------------------------------------------------------------

  /** What the log remembers of `x`: its latest time-out callback, and how it was armed at its latest visit. */
  ghost predicate Remembers(s: State, x: nat, firing: Firing, sight: Sight) {
    var p := LifeOf(s.log, x);
    p.Life? && p.firing == firing && p.sight == sight
  }

  ghost predicate ListedAt(q: Store, i: nat, x: nat) {
    i < |q.list| && q.list[i] == x && x < |q.tasks|
  }

  lemma ListedNotPooled(q: Store, i: nat)
    requires Inv(q) && i < |q.list|
    ensures q.pool != [] ==> q.pool[0] != q.list[i]
  {
  }

  lemma PerformRemembers(env: Env, s: State, a: Action, i: nat, x: nat, firing: Firing, sight: Sight)
    requires Inv(s.store) && ListedAt(s.store, i, x) && Remembers(s, x, firing, sight)
    ensures Remembers(Perform(env, s, a), x, firing, sight) && ListedAt(Perform(env, s, a).store, i, x)
  {
    hide Inv, LifeOf, Perform, Extends, LossesLogged;
    var r := Perform(env, s, a);
    PerformKeeps(env, s, a);
    PositionStays(s, r, i);
    ListedNotPooled(s.store, i);
    PerformLogs(env, s, a);
    if r.log != s.log {
      var e :| CallEvent(s, e) && r.log == s.log + [e];
      LifeSnoc(s.log, e, x);
    }
  }

  lemma ExecuteRemembers(env: Env, s: State, c: ClientCall, i: nat, x: nat, firing: Firing, sight: Sight)
    requires Inv(s.store) && ListedAt(s.store, i, x) && Remembers(s, x, firing, sight)
    ensures Remembers(Execute(env, s, c), x, firing, sight) && ListedAt(Execute(env, s, c).store, i, x)
  {
    hide Inv, Perform, Grows, LifeOf;
    match c {
      case Api(a) => PerformRemembers(env, s, a, i, x, firing, sight);
      case StopMonitor(mgr) => HaltRemembers(env, s, mgr, i, x, firing, sight);
      case StartMonitor(mgr) =>
        HaltRemembers(env, s, mgr, i, x, firing, sight);
        var s1, create := HaltMonitor(env, s, mgr), CreateTimer(ONE_SECOND, mgr, true);
        PerformKeeps(env, s1, create);
        PerformRemembers(env, s1, create, i, x, firing, sight);
        if s1.store.pool != [] {
          PerformRemembers(env, Perform(env, s1, create), Schedule(s1.store.pool[0]), i, x, firing, sight);
        }
    }
  }

  lemma HaltRemembers(env: Env, s: State, mgr: nat, i: nat, x: nat, firing: Firing, sight: Sight)
    requires Inv(s.store) && ListedAt(s.store, i, x) && Remembers(s, x, firing, sight)
    ensures Remembers(HaltMonitor(env, s, mgr), x, firing, sight) && ListedAt(HaltMonitor(env, s, mgr).store, i, x)
  {
    hide Inv, Perform, Grows, LifeOf;
    if mgr in s.monitors {
      PerformRemembers(env, s, Unschedule(s.monitors[mgr]), i, x, firing, sight);
    }
  }

  lemma {:induction false} ExecuteAllRemembers(
    env: Env, s: State, calls: seq<ClientCall>, i: nat, x: nat, firing: Firing, sight: Sight)
    requires Inv(s.store) && ListedAt(s.store, i, x) && Remembers(s, x, firing, sight)
    ensures Remembers(ExecuteAll(env, s, calls), x, firing, sight) && ListedAt(ExecuteAll(env, s, calls).store, i, x)
    decreases |calls|
  {
    hide Inv, Remembers, Grows, Execute;
    if calls != [] {
      ExecuteRemembers(env, s, calls[0], i, x, firing, sight);
      ExecuteAllRemembers(env, Execute(env, s, calls[0]), calls[1..], i, x, firing, sight);
    }
  }

  lemma BeganRemembers(s: State, e: Event)
    requires e.Fired? && LifeOf(s.log, e.slot).Life?
    ensures var p := LifeOf(s.log, e.slot);
      Remembers(Began(s, e), e.slot, if e.kind.TimedOut? then FiredAt(e.tick, e.call, e.fd) else p.firing, p.sight)
  {
    LifeSnoc(s.log, e, e.slot);
  }

  /** After a callback, the log remembers it if it was for a time-out, and what it remembered of the visit. */
  lemma FireRemembers(env: Env, s: State, i: nat, kind: Kind, tick: nat)
    requires Inv(s.store) && i < |s.store.list| && HasCallback(s.store.tasks[s.store.list[i]].cbs, kind)
    requires LifeOf(s.log, s.store.list[i]).Life?
    ensures var x, r := s.store.list[i], Fire(env, s, i, kind, tick);
      var p, p' := LifeOf(s.log, x), LifeOf(r.0.log, x);
      && p'.Life? && p'.sight == p.sight
      && (kind.TimedOut? ==>
            p'.firing == FiredAt(tick, s.calls, s.store.tasks[x].fd) && r.1 == env.callback(p'.firing.call).complete)
  {
    hide Inv, Grows, LifeOf, ExecuteAll;
    ListedTask(s, i);
    var e := FiredEvent(s, i, kind, tick);
    var p := LifeOf(s.log, e.slot);
    BeganRemembers(s, e);
    ExecuteAllRemembers(env, Began(s, e), env.callback(s.calls).calls, i, e.slot,
      if kind.TimedOut? then FiredAt(tick, s.calls, e.fd) else p.firing, p.sight);
  }

  // ----- Dispatching ------------------------------------------------------------------------

  lemma {:induction false} ExecuteAllStory(env: Env, s: State, calls: seq<ClientCall>, firing: int)
    requires Inv(s.store) && Story(env, s, firing)
    ensures Story(env, ExecuteAll(env, s, calls), firing)
    decreases |calls|
  {
    hide Inv, Story, Grows, Execute;
    if calls != [] {
      ExecuteStory(env, s, calls[0], firing);
      ExecuteAllStory(env, Execute(env, s, calls[0]), calls[1..], firing);
    }
  }

  /** A timer whose callback runs is in the state between firing and being armed again. */
  function FiringAfter(fd: int, x: nat): int {
    if fd <= INVALID_FD then x else -1
  }

  lemma BeganStory(env: Env, s: State, e: Event)
    requires Story(env, s, -1) && e.Fired? && e.tick < s.ticks
    requires e.slot < |s.store.tasks| && e.slot in s.store.live && e.slot !in s.store.out
    requires s.store.tasks[e.slot].fd == e.fd
    requires InOrder(env, LifeOf(s.log, e.slot), e)
    ensures Story(env, Began(s, e), FiringAfter(e.fd, e.slot))
  {
    var r := Began(s, e);
    TraceSnoc(env, s.log, e);
    forall y | y in r.store.live && y < |r.store.tasks|
      ensures Agrees(env, r.store.tasks[y], y !in r.store.out, LifeOf(r.log, y), r.ticks,
                     y == FiringAfter(e.fd, e.slot))
    {
      LifeSnoc(s.log, e, y);
    }
  }

  lemma FireStory(env: Env, s: State, i: nat, kind: Kind, tick: nat)
    requires Inv(s.store) && i < |s.store.list| && Story(env, s, -1) && tick < s.ticks
    requires HasCallback(s.store.tasks[s.store.list[i]].cbs, kind)
    requires InOrder(env, LifeOf(s.log, s.store.list[i]), FiredEvent(s, i, kind, tick))
    ensures var x := s.store.list[i];
      Story(env, Fire(env, s, i, kind, tick).0, FiringAfter(s.store.tasks[x].fd, x))
  {
    hide Story, InOrder, LifeOf, Inv, Grows, Began;
    ListedTask(s, i);
    var e := FiredEvent(s, i, kind, tick);
    BeganStory(env, s, e);
    ExecuteAllStory(env, Began(s, e), env.callback(s.calls).calls, FiringAfter(e.fd, e.slot));
  }

  /** The visit that is under way: if the task timed out, the arming it had at its visit has passed. */
  ghost predicate SeenDue(env: Env, s: State, x: nat, tick: nat, expired: bool) {
    var p := LifeOf(s.log, x);
    p.Life? && p.sight.Seen? && (expired ==> Passed(env, tick, p.sight.arming))
  }

  lemma IoFireStory(env: Env, s: State, i: nat, kind: Kind, tick: nat, expired: bool)
    requires Inv(s.store) && i < |s.store.list| && Story(env, s, -1) && tick < s.ticks
    requires s.store.tasks[s.store.list[i]].fd >= 0 && HasCallback(s.store.tasks[s.store.list[i]].cbs, kind)
    requires SeenDue(env, s, s.store.list[i], tick, expired) && (kind.TimedOut? ==> expired)
    ensures var r := Fire(env, s, i, kind, tick).0; Story(env, r, -1) && SeenDue(env, r, s.store.list[i], tick, expired)
  {
    hide Story, Inv, LifeOf, Grows, Fire, Passed;
    ListedTask(s, i);
    FireStory(env, s, i, kind, tick);
    FireRemembers(env, s, i, kind, tick);
  }

  lemma ErrorPartStory(env: Env, s: State, i: nat, f: FdSets, tick: nat, expired: bool)
    requires Inv(s.store) && i < |s.store.list| && Story(env, s, -1) && tick < s.ticks
    requires s.store.tasks[s.store.list[i]].fd >= 0 && SeenDue(env, s, s.store.list[i], tick, expired)
    ensures var r := ErrorPart(env, s, i, f, tick).0;
      Story(env, r, -1) && SeenDue(env, r, s.store.list[i], tick, expired)
  {
    hide Story, Inv, SeenDue, Grows, Fire, WellFormed;
    ListedTask(s, i);
    if s.store.tasks[s.store.list[i]].opts.error { IoFireStory(env, s, i, ErrorReady, tick, expired); }
  }

  lemma ReadPartStory(env: Env, s: State, i: nat, f: FdSets, tick: nat, expired: bool)
    requires Inv(s.store) && i < |s.store.list| && Story(env, s, -1) && tick < s.ticks
    requires s.store.tasks[s.store.list[i]].fd >= 0 && SeenDue(env, s, s.store.list[i], tick, expired)
    requires expired ==> s.store.tasks[s.store.list[i]].timeOut != NO_TIMEOUT
    ensures var r := ReadPart(env, s, i, f, tick, expired).0;
      Story(env, r, -1) && SeenDue(env, r, s.store.list[i], tick, expired)
  {
    hide Story, Inv, SeenDue, Grows, Fire, WellFormed;
    ListedTask(s, i);
    if s.store.tasks[s.store.list[i]].opts.read {
      IoFireStory(env, s, i, ReadReady, tick, expired);
      if expired { IoFireStory(env, s, i, TimedOut, tick, expired); }
    }
  }

  lemma WritePartStory(env: Env, s: State, i: nat, f: FdSets, tick: nat, expired: bool, rv: bool)
    requires Inv(s.store) && i < |s.store.list| && Story(env, s, -1) && tick < s.ticks
    requires s.store.tasks[s.store.list[i]].fd >= 0 && SeenDue(env, s, s.store.list[i], tick, expired)
    requires expired ==> s.store.tasks[s.store.list[i]].timeOut != NO_TIMEOUT
    ensures Story(env, WritePart(env, s, i, f, tick, expired, rv).0, -1)
  {
    hide Story, Inv, SeenDue, Grows, Fire, WellFormed;
    ListedTask(s, i);
    if s.store.tasks[s.store.list[i]].opts.write {
      IoFireStory(env, s, i, WriteReady, tick, expired);
      if expired { IoFireStory(env, s, i, TimedOut, tick, expired); }
    }
  }

  /** Whether a task has timed out is whether its latest arming has passed. */
  lemma TimedOutIsPassed(env: Env, t: Task, a: Arming, ticks: nat, tick: nat)
    requires DeadlineOf(env, t, a, ticks)
    ensures TimedOutAt(env, tick, t) <==> t.timeOut != NO_TIMEOUT && Passed(env, tick, a)
  {
    ExpiredIsNumeric(env.clock(tick), t.expire);
  }

  lemma EnteredStory(env: Env, s: State, i: nat)
    requires Inv(s.store) && i < |s.store.list| && Story(env, s, -1)
    requires !s.store.tasks[s.store.list[i]].opts.remove
    ensures Story(env, Entered(s, i), -1)
    ensures var x := s.store.list[i]; var p := LifeOf(Entered(s, i).log, x);
      && (p.Life? && p.arming.ArmedAt? ==> p.arming.tick < s.ticks)
      && SeenDue(env, Entered(s, i), x, s.ticks, TimedOutAt(env, s.ticks, s.store.tasks[x]))
  {
    ListedTask(s, i);
    var x := s.store.list[i];
    var e := Visited(x, s.store.tasks[x]);
    var r := Entered(s, i);
    assert Agrees(env, s.store.tasks[x], true, LifeOf(s.log, x), s.ticks, false);
    TimedOutIsPassed(env, s.store.tasks[x], LifeOf(s.log, x).arming, s.ticks, s.ticks);
    LifeSnoc(s.log, e, x);
    TraceSnoc(env, s.log, e);
    forall y | y in r.store.live && y < |r.store.tasks|
      ensures Agrees(env, r.store.tasks[y], y !in r.store.out, LifeOf(r.log, y), r.ticks, y == -1)
    {
      LifeSnoc(s.log, e, y);
    }
  }

  ghost predicate FiredComplete(env: Env, p: Life) {
    p.Life? && p.firing.FiredAt? && env.callback(p.firing.call).complete
  }

  lemma TimerPartStory(env: Env, s: State, i: nat, tick: nat, expired: bool)
    requires Inv(s.store) && i < |s.store.list| && Story(env, s, -1) && tick < s.ticks
    requires s.store.tasks[s.store.list[i]].cbs.timeout && !s.store.tasks[s.store.list[i]].opts.remove
    requires s.store.tasks[s.store.list[i]].fd <= INVALID_FD
    requires expired ==> s.store.tasks[s.store.list[i]].timeOut != NO_TIMEOUT
    requires expired ==> Expired(env.clock(tick), s.store.tasks[s.store.list[i]].expire)
    requires var p := LifeOf(s.log, s.store.list[i]); p.Life? && p.arming.ArmedAt? ==> p.arming.tick < tick
    ensures var r := TimerPart(env, s, i, tick, expired);
      && Story(env, r.0, if r.1 then s.store.list[i] else -1)
      && (r.1 ==> FiredComplete(env, LifeOf(r.0.log, s.store.list[i])))
  {
    ListedTask(s, i);
    var x := s.store.list[i];
    var t := s.store.tasks[x];
    if expired {
      assert Agrees(env, t, true, LifeOf(s.log, x), s.ticks, false);
      ExpiredIsNumeric(env.clock(tick), t.expire);
      assert InOrder(env, LifeOf(s.log, x), FiredEvent(s, i, TimedOut, tick));
      hide Story, Inv, LifeOf, InOrder, Agrees, Expired;
      FireStory(env, s, i, TimedOut, tick);
      FireRemembers(env, s, i, TimedOut, tick);
      var r := Fire(env, s, i, TimedOut, tick);
      if !r.1 {
        ListedTask(r.0, i);
        ArmStory(env, r.0, x, x, true);
      }
    }
  }

  lemma IoPartStory(env: Env, s: State, i: nat, f: FdSets, tick: nat, expired: bool)
    requires Inv(s.store) && i < |s.store.list| && Story(env, s, -1) && tick < s.ticks
    requires s.store.tasks[s.store.list[i]].fd >= 0 && SeenDue(env, s, s.store.list[i], tick, expired)
    requires expired ==> s.store.tasks[s.store.list[i]].timeOut != NO_TIMEOUT
    ensures Story(env, IoPart(env, s, i, f, tick, expired).0, -1)
  {
    hide Story, Inv, Grows, ErrorPart, ReadPart, WritePart, SeenDue;
    ListedTask(s, i);
    var (s1, f1) := ErrorPart(env, s, i, f, tick);
    ErrorPartStory(env, s, i, f, tick, expired);
    PositionStays(s, s1, i);
    var (s2, f2, rv) := ReadPart(env, s1, i, f1, tick, expired);
    ReadPartStory(env, s1, i, f1, tick, expired);
    PositionStays(s1, s2, i);
    WritePartStory(env, s2, i, f2, tick, expired, rv);
  }

  lemma ProcessStory(env: Env, s: State, i: nat, f: FdSets)
    requires Inv(s.store) && i < |s.store.list| && Story(env, s, -1)
    requires !s.store.tasks[s.store.list[i]].opts.remove
    ensures var r := Process(env, s, i, f);
      var x := s.store.list[i]; var fd := s.store.tasks[x].fd;
      && Story(env, r.0, if r.2 then FiringAfter(fd, x) else -1)
      && (r.2 && fd <= INVALID_FD ==> FiredComplete(env, LifeOf(r.0.log, x)))
  {
    hide Inv, Grows, Story;
    ListedTask(s, i);
    EnteredStory(env, s, i);
    assert TimedOutAt(env, s.ticks, s.store.tasks[s.store.list[i]]) ==>
      Expired(env.clock(s.ticks), s.store.tasks[s.store.list[i]].expire) &&
        s.store.tasks[s.store.list[i]].timeOut != NO_TIMEOUT;
    var t := s.store.tasks[s.store.list[i]];
    var s0, expired := Entered(s, i), TimedOutAt(env, s.ticks, t);
    assert s.ticks < s0.ticks;
    hide Story, Inv, Grows, LifeOf, SeenDue, TimedOutAt, Entered, IoPart, TimerPart, WellFormed, InOrder;
    if t.fd > INVALID_FD {
      IoPartStory(env, s0, i, f, s.ticks, expired);
    } else {
      TimerPartStory(env, s0, i, s.ticks, expired);
    }
  }

  /** The special descriptor -1 is neither marked nor armed again when its callback reports completion. */
  lemma SpecialStory(env: Env, s: State, x: nat)
    requires Story(env, s, x) && x < |s.store.tasks| && s.store.tasks[x].fd == INVALID_FD
    requires FiredComplete(env, LifeOf(s.log, x))
    ensures Story(env, UnscheduleTask(s, x), -1)
  {
    forall y | y in s.store.live && y < |s.store.tasks|
      ensures Agrees(env, s.store.tasks[y], y !in s.store.out, LifeOf(s.log, y), s.ticks, y == -1)
    {
      assert Agrees(env, s.store.tasks[y], y !in s.store.out, LifeOf(s.log, y), s.ticks, y == x);
    }
  }

  lemma VisitStory(env: Env, s: State, i: nat, f: FdSets)
    requires Inv(s.store) && i < |s.store.list| && Story(env, s, -1)
    ensures Story(env, Visit(env, s, i, f).0, -1)
  {
    hide Story, Inv;
    ListedTask(s, i);
    if !s.store.tasks[s.store.list[i]].opts.remove {
      ProcessStory(env, s, i, f);
      var (s1, f1, done) := Process(env, s, i, f);
      ListedTask(s1, i);
      if done {
        var x, fd := s1.store.list[i], s.store.tasks[s.store.list[i]].fd;
        if fd == INVALID_FD {
          SpecialStory(env, s1, x);
        } else {
          UnscheduleStory(env, s1, x, FiringAfter(fd, x), -1);
        }
      }
    }
  }

  lemma DispatchStory(env: Env, s: State, i: nat, f: FdSets)
    requires Inv(s.store) && i <= |s.store.list| && Story(env, s, -1)
    ensures Story(env, Dispatch(env, s, i, f), -1)
    decreases |s.store.tasks| - i
  {
    hide Story;
    if i < |s.store.list| && !s.stopped {
      VisitStory(env, s, i, f);
      var (s1, f1) := Visit(env, s, i, f);
      DispatchStory(env, s1, i + 1, f1);
    }
  }

  // ----- Sweeps and runs --------------------------------------------------------------------

  lemma SweepStory(env: Env, s: State, i: nat)
    requires Inv(s.store) && i <= |s.store.list| && Story(env, s, -1)
    ensures Story(env, s.(store := Sweep(s.store, i)), -1)
    decreases |s.store.list| - i
  {
    var q := s.store;
    if i < |q.list| {
      if Doomed(q.tasks[q.list[i]]) {
        DropKeeps(q, i);
        SweepStory(env, s.(store := Drop(q, i)), i);
      } else {
        SweepStory(env, s, i + 1);
      }
    }
  }

  lemma PumpStory(env: Env, s: State)
    requires Inv(s.store) && Story(env, s, -1)
    ensures Story(env, Pump(env, s), -1)
  {
    if !s.stopped {
      SweepStory(env, s, 0);
      var s1 := Swept(s);
      assert Story(env, s1, -1);
      hide Story, Inv, Swept;
      if env.select(s.polls).SelectReady? {
        DispatchStory(env, s1, 0, Restrict(Asked(s1.store, |s1.store.list|), env.select(s.polls).sets));
      }
    }
  }

  lemma RunStory(env: Env, s: State, steps: seq<Step>)
    requires Inv(s.store) && Story(env, s, -1)
    ensures Story(env, Run(env, s, steps), -1)
    decreases |steps|
  {
    hide Story, Inv;
    if steps != [] {
      match steps[0] {
        case Call(c) => ExecuteStory(env, s, c, -1);
        case Turn => PumpStory(env, s);
      }
      RunStory(env, Take1(env, s, steps[0]), steps[1..]);
    }
  }

  lemma InitStory(env: Env, s: State)
    requires Init(s)
    ensures Story(env, s, -1)
  {
  }
}
