/** What holds in every state and of every log that a new scheduler can reach, whatever its clients
    call, its callbacks do, the clock reads and `select` reports. */
module SchedulerSafety {
  import opened Sequences
  import opened Deadlines
  import opened SchedulerModel
  import opened SchedulerCalls
  import opened SchedulerPump
  import opened SchedulerTrace
  import opened SchedulerDispatch
  import opened SchedulerTurn

  ghost predicate Reachable(env: Env, s: State) {
    exists s0: State, steps: seq<Step> :: Init(s0) && Inv(s0.store) && s == Run(env, s0, steps)
  }

  lemma ReachableInv(env: Env, s: State)
    requires Reachable(env, s)
    ensures Inv(s.store) && Story(env, s, -1)
  {
    var s0: State, steps: seq<Step> :| Init(s0) && Inv(s0.store) && s == Run(env, s0, steps);
    InitStory(env, s0);
    RunStory(env, s0, steps);
  }

  // ----- Conservation -----------------------------------------------------------------------

  /** Scheduled and handed-out tasks are exactly the live ones, and with the pool make up all slots. */
  lemma SlotsPartition(q: Store)
    requires Indexed(q) && SlotsOk(q)
    ensures Elements(q.list) + q.out == q.live && Elements(q.list) !! q.out
    ensures Elements(q.pool) + q.live == Below(|q.tasks|) && Elements(q.pool) !! q.live
  {
    NoDupSize(q.pool);
    NoDupSize(q.list);
    FullSubset(Elements(q.list) + q.out, q.live);
    FullSubset(Elements(q.pool) + q.live, Below(|q.tasks|));
  }

  /** In every reachable state each task object is in exactly one place -- pooled, scheduled or handed
      out -- and exactly once there, so a task that goes back always finds room in the pool. */
  lemma TaskConservation(env: Env, s: State, x: nat)
    requires Reachable(env, s) && x < |s.store.tasks|
    ensures (x in s.store.pool && x !in s.store.list && x !in s.store.out)
         || (x !in s.store.pool && x in s.store.list && x !in s.store.out)
         || (x !in s.store.pool && x !in s.store.list && x in s.store.out)
    ensures NoDup(s.store.pool) && NoDup(s.store.list)
    ensures s.store.list != [] ==> |s.store.pool| < |s.store.tasks|
  {
    hide TasksOk, IdsApart, HeldOk, Story, Reachable;
    ReachableInv(env, s);
    SlotsPartition(s.store);
    assert x in Below(|s.store.tasks|);
  }

  // ----- Timer IDs --------------------------------------------------------------------------

  /** Timer IDs in the pool and IDs carried by issued timer tasks are pairwise distinct, lie in
      [-max-2, -3] -- so none is a descriptor, 0 or -1 -- and together with the lost ones number `maxTimers`. */
  lemma TimerIdsUnique(env: Env, s: State, x: nat, y: nat)
    requires Reachable(env, s)
    requires x in s.store.live && y in s.store.live && x < |s.store.tasks| && y < |s.store.tasks|
    requires s.store.tasks[x].fd < INVALID_FD
    ensures -2 - s.store.maxTimers <= s.store.tasks[x].fd <= -3
    ensures s.store.tasks[y].fd == s.store.tasks[x].fd ==> y == x
    ensures s.store.tasks[x].fd !in s.store.ids && s.store.tasks[x].fd !in s.store.lost
    ensures NoDup(s.store.ids) && |s.store.ids| + |s.store.held| + |s.store.lost| == s.store.maxTimers
  {
    hide Story, Reachable, SlotsOk, TasksOk;
    ReachableInv(env, s);
    assert HoldsItsId(s.store, x) && HoldsItsId(s.store, y);
  }

  /** At most one scheduled task carries a given timer ID, so a search for it finds that task. */
  lemma TimerFoundIsUnique(env: Env, s: State, j: nat, k: nat)
    requires Reachable(env, s) && Indexed(s.store) && j < |s.store.list| && k < |s.store.list|
    requires s.store.tasks[s.store.list[j]].fd == s.store.tasks[s.store.list[k]].fd < INVALID_FD
    ensures j == k
  {
    hide Reachable, TasksOk, IdsApart, HeldOk, Story;
    ReachableInv(env, s);
    TimerIdsUnique(env, s, s.store.list[j], s.store.list[k]);
  }

  /** A timer request that finds an ID takes it out of the pool.  If a task object is left, it carries the
      ID; otherwise the ID is lost, and the log says so. */
  lemma TimerIdLoss(s: State, timeOut: int, user: nat, hasCallback: bool)
    requires Inv(s.store) && s.store.ids != []
    ensures var (r, ok) := MakeTimer(s, timeOut, user, hasCallback); var id := s.store.ids[0];
      && r.store.ids == s.store.ids[1..]
      && (ok <==> s.store.pool != [])
      && r.log == s.log + [if ok then Created(s.store.pool[0]) else LostId(id)]
      && (if ok then id in r.store.held && r.store.lost == s.store.lost
          else id in r.store.lost && r.store.held == s.store.held)
  {
  }

  lemma TurnLosses(env: Env, s: State)
    requires Inv(s.store)
    ensures var r := Pump(env, s); s.store.lost <= r.store.lost && (LossesLogged(s) ==> LossesLogged(r))
  {
    hide Inv, LossesLogged, Removed, Survivors, TimerIdsOf, Dispatch;
    if !s.stopped {
      SweepIsFilter(s.store);
      InvIndexed(s.store);
      SameLosses(s, Swept(s));
    }
  }

  lemma SameLosses(s: State, r: State)
    requires r.store.lost == s.store.lost && r.log == s.log
    ensures LossesLogged(s) ==> LossesLogged(r)
  {
  }

  lemma {:induction false} RunLosses(env: Env, s: State, steps: seq<Step>)
    requires Inv(s.store)
    ensures var r := Run(env, s, steps); s.store.lost <= r.store.lost && (LossesLogged(s) ==> LossesLogged(r))
    decreases |steps|
  {
    hide Inv, LossesLogged, Execute, Pump;
    if steps != [] {
      if steps[0].Turn? { TurnLosses(env, s); }
      RunLosses(env, Take1(env, s, steps[0]), steps[1..]);
    }
  }

  /** A lost timer ID stays lost through any run: it is never pooled nor carried by a task again. */
  lemma LostForGood(env: Env, s: State, steps: seq<Step>, id: int, x: nat)
    requires Inv(s.store) && id in s.store.lost
    ensures var q := Run(env, s, steps).store;
      id in q.lost && id !in q.ids && (x in q.live && x < |q.tasks| ==> q.tasks[x].fd != id)
  {
    hide SlotsOk, TasksOk, LossesLogged;
    RunLosses(env, s, steps);
    var q := Run(env, s, steps).store;
    if x in q.live && x < |q.tasks| { assert HoldsItsId(q, x); }
  }

  lemma NewLosses(s: State)
    requires Init(s)
    ensures LossesLogged(s)
  {
  }

  lemma ReachableLosses(env: Env, s: State)
    requires Reachable(env, s)
    ensures LossesLogged(s)
  {
    hide Inv, LossesLogged, Init, Run;
    var s0: State, steps: seq<Step> :| Init(s0) && Inv(s0.store) && s == Run(env, s0, steps);
    NewLosses(s0);
    RunLosses(env, s0, steps);
  }

  /** In every reachable state pooled and carried timer IDs are `max_num_timers` in number if and only if
      no timer request so far found an ID but no task object. */
  lemma TimerIdTotal(env: Env, s: State)
    requires Reachable(env, s)
    ensures |s.store.ids| + |s.store.held| <= s.store.maxTimers
    ensures |s.store.ids| + |s.store.held| == s.store.maxTimers <==> forall id: int :: LostId(id) !in s.log
  {
    hide Reachable, SlotsOk, TasksOk, HeldOk, Story;
    ReachableInv(env, s);
    ReachableLosses(env, s);
    if s.store.lost == {} {
      forall id: int ensures LostId(id) !in s.log {
        assert id !in s.store.lost;
      }
    } else {
      var id := AnyOf(s.store.lost);
      assert LostId(id) in s.log && |s.store.lost| > 0;
    }
  }

  // ----- Stickiness of REMOVE ---------------------------------------------------------------

  lemma RunLog(env: Env, s: State, steps: seq<Step>)
    requires Inv(s.store)
    ensures s.log <= Run(env, s, steps).log && s.ticks <= Run(env, s, steps).ticks
    decreases |steps|
  {
    if steps != [] {
      hide Inv, Extends;
      RunLog(env, Take1(env, s, steps[0]), steps[1..]);
    }
  }

  lemma {:induction false} MarkedStays(log: seq<Event>, n: nat, j: nat, x: nat)
    requires n <= j <= |log|
    requires LifeOf(log[..n], x).Life? && LifeOf(log[..n], x).marked
    requires forall k :: n <= k < j ==> log[k] != Created(x)
    ensures LifeOf(log[..j], x).Life? && LifeOf(log[..j], x).marked
  {
    if n < j {
      MarkedStays(log, n, j - 1, x);
      assert log[..j] == log[..j - 1] + [log[j - 1]];
      LifeSnoc(log[..j - 1], log[j - 1], x);
    }
  }

  lemma MarkedAgrees(env: Env, s: State, x: nat)
    requires Story(env, s, -1) && x in s.store.live && x < |s.store.tasks| && s.store.tasks[x].opts.remove
    ensures LifeOf(s.log, x).Life? && LifeOf(s.log, x).marked
  {
    assert Agrees(env, s.store.tasks[x], x !in s.store.out, LifeOf(s.log, x), s.ticks, false);
  }

  /** Once REMOVE is set on an issued task, no later pump visits that task object before it has been
      through the pool and was created anew. */
  lemma RemoveIsSticky(env: Env, s: State, steps: seq<Step>, x: nat, j: nat)
    requires Reachable(env, s) && Inv(s.store)
    requires x in s.store.live && x < |s.store.tasks| && s.store.tasks[x].opts.remove
    requires |s.log| <= j < |Run(env, s, steps).log|
    requires Run(env, s, steps).log[j].Visited? && Run(env, s, steps).log[j].slot == x
    ensures exists k :: |s.log| <= k < j && Run(env, s, steps).log[k] == Created(x)
  {
    hide Inv, Reachable, Agrees;
    ReachableInv(env, s);
    RunStory(env, s, steps);
    RunLog(env, s, steps);
    var log := Run(env, s, steps).log;
    assert log[..|s.log|] == s.log;
    MarkedAgrees(env, s, x);
    assert InOrder(env, LifeOf(log[..j], SlotOf(log[j])), log[j]);
    if forall k :: |s.log| <= k < j ==> log[k] != Created(x) {
      MarkedStays(log, |s.log|, j, x);
    }
  }

  // ----- Timers -----------------------------------------------------------------------------

  /** The time-out callback of a task without a descriptor of its own: it carries a timer ID, or -1. */
  ghost predicate TimerFire(e: Event, x: nat) {
    e.Fired? && e.kind.TimedOut? && e.fd <= INVALID_FD && e.slot == x
  }

  /** Index `i` is the latest arming of `x` before position `j`, in the same incarnation. */
  ghost predicate LatestArming(log: seq<Event>, i: nat, j: nat, x: nat) {
    && i < j <= |log| && log[i].Armed? && log[i].slot == x
    && forall k :: i < k < j ==> log[k] != Created(x) && !(log[k].Armed? && log[k].slot == x)
  }

  lemma {:induction false} ArmingFound(log: seq<Event>, j: nat, x: nat) returns (i: nat)
    requires j <= |log| && LifeOf(log[..j], x).Life? && LifeOf(log[..j], x).arming.ArmedAt?
    ensures LatestArming(log, i, j, x)
    ensures LifeOf(log[..j], x).arming == ArmedAt(log[i].tick, log[i].timeOut)
  {
    assert j > 0 && log[..j] == log[..j - 1] + [log[j - 1]];
    LifeSnoc(log[..j - 1], log[j - 1], x);
    if log[j - 1].Armed? && log[j - 1].slot == x {
      i := j - 1;
    } else {
      i := ArmingFound(log, j - 1, x);
    }
  }

  /** A request for a task, for every state: without a task object nothing changes; otherwise the one on top
      of the pool is handed out with exactly the requested fields, but never with REMOVE, and nothing else
      changes. */
  lemma CreatingTask(env: Env, s: State, fd: int, opts: Opts, timeOut: int, user: nat, cbs: Callbacks)
    requires Inv(s.store) && fd >= -1 && timeOut >= -1
    requires opts.read || opts.write || opts.error ==> fd >= 0
    requires (opts.read || opts.write) && timeOut != -1 ==> cbs.timeout
    ensures var q, r := s.store, Perform(env, s, CreateTask(fd, opts, timeOut, user, cbs));
      if q.pool == [] then r == s
      else
        var x := q.pool[0];
        && x < |q.tasks| == |r.store.tasks| && HandsOut(q, r.store, x) && r.store.ids == q.ids
        && r.log == s.log + [Created(x)] && r.ticks == s.ticks && r.stopped == s.stopped
        && var t := r.store.tasks[x];
           && t.fd == fd && t.timeOut == timeOut && t.user == user && t.cbs == cbs
           && t.opts == Opts(opts.read, opts.write, opts.error, opts.timer, false)
  {
    hide Inv;
    PoolInRange(s.store);
  }

  /** A request for a timer: with an ID and a task object left, the object on top of its pool is handed out
      with that ID, the TIMER bit, the requested time-out and callback, and nothing more. */
  lemma CreatingTimer(env: Env, s: State, timeOut: int, user: nat, hasCallback: bool)
    requires Inv(s.store) && timeOut >= -1
    ensures var q, r := s.store, Perform(env, s, CreateTimer(timeOut, user, hasCallback));
      if q.ids == [] then r == s
      else if q.pool == [] then r.store.ids == q.ids[1..] && r.store.lost == q.lost + {q.ids[0]}
      else
        var x := q.pool[0];
        && x < |q.tasks| == |r.store.tasks| && HandsOut(q, r.store, x) && r.store.ids == q.ids[1..]
        && r.log == s.log + [Created(x)] && r.ticks == s.ticks && r.stopped == s.stopped
        && var t := r.store.tasks[x];
           && t.fd == q.ids[0] && t.timeOut == timeOut && t.user == user
           && t.opts == Opts(false, false, false, true, false) && t.cbs == Callbacks(false, false, false, hasCallback)
  {
    hide Inv;
    PoolInRange(s.store);
  }

  /** The object on top of the pool changes hands; no other object, and no list, changes. */
  ghost predicate HandsOut(q: Store, r: Store, x: nat)
    requires q.pool != [] && |r.tasks| == |q.tasks|
  {
    && r.pool == q.pool[1..] && r.out == q.out + {x} && r.live == q.live + {x} && x !in q.live && r.list == q.list
    && forall y :: 0 <= y < |q.tasks| && y != x ==> r.tasks[y] == q.tasks[y]
  }

  lemma PoolInRange(q: Store)
    requires Inv(q)
    ensures Indexed(q) && (q.pool != [] ==> q.pool[0] < |q.tasks| && q.pool[0] !in q.live)
  {
  }

  /** Unscheduling sets REMOVE on exactly that task, and on none with descriptor -1. */
  lemma UnschedulingMarks(env: Env, s: State, x: nat)
    requires Inv(s.store) && x < |s.store.tasks|
    ensures var t, r := s.store.tasks[x], Perform(env, s, Unschedule(x));
      if t.fd == -1 then r == s
      else
        && r.store == s.store.(tasks := s.store.tasks[x := t.(opts := t.opts.(remove := true))])
        && r.log == s.log + [Marked([x])] && r.ticks == s.ticks && r.stopped == s.stopped
  {
    hide Inv;
  }

  /** What scheduling makes of a task at a clock reading: it keeps exactly the requested directions that
      have a callback, and its timer only with a callback and a time-out; REMOVE is set exactly when it was
      or nothing is left; a timer is due its time-out after the reading. */
  ghost predicate SetUp(t: Task, u: Task, now: ClockReading) {
    && u.cbs == t.cbs && u.fd == t.fd && u.timeOut == t.timeOut && u.user == t.user
    && (forall kind: Kind :: !kind.TimedOut? ==> (Watching(u, kind) <==> Watching(t, kind) && HasCallback(t.cbs, kind)))
    && (u.opts.timer <==> t.opts.timer && t.cbs.timeout && t.timeOut >= 0)
    && (u.opts.remove <==> t.opts.remove || !(u.opts.Io() || u.opts.timer))
    && (u.opts.timer ==> Nanos(u.expire) == Nanos(now) + t.timeOut)
  }

  lemma ScheduledIsSetUp(env: Env, t: Task, tick: nat)
    requires t.timeOut >= NO_TIMEOUT
    ensures SetUp(t, Scheduled(env, t, tick), env.clock(tick))
  {
  }

  /** Scheduling a handed-out task sets it up, puts it last on the list and changes no other task. */
  lemma SchedulingSetsUp(env: Env, s: State, x: nat)
    requires Inv(s.store) && x in s.store.out && x < |s.store.tasks|
    ensures var r := Perform(env, s, Schedule(x));
      && r.store.list == s.store.list + [x] && r.store.out == s.store.out - {x}
      && |r.store.tasks| == |s.store.tasks| && SetUp(s.store.tasks[x], r.store.tasks[x], env.clock(s.ticks))
      && forall y :: 0 <= y < |s.store.tasks| && y != x ==> r.store.tasks[y] == s.store.tasks[y]
  {
    hide Inv, Extends, Scheduled, SetUp;
    ScheduleKeeps(env, s, x);
    ScheduledIsSetUp(env, s.store.tasks[x], s.ticks);
  }

  /** Rescheduling moves the deadline of a task without REMOVE to its time-out after the next clock
      reading, and changes nothing otherwise. */
  lemma ReschedulingMovesDeadline(env: Env, s: State, x: nat)
    requires Inv(s.store) && x in s.store.live && x < |s.store.tasks|
    requires s.store.tasks[x].opts.remove || s.store.tasks[x].timeOut >= 0
    ensures var t, r := s.store.tasks[x], Perform(env, s, Reschedule(x));
      if t.opts.remove then r == s
      else
        && |r.store.tasks| == |s.store.tasks| && r.ticks == s.ticks + 1
        && Nanos(r.store.tasks[x].expire) == Nanos(env.clock(s.ticks)) + t.timeOut
        && r.store == s.store.(tasks := s.store.tasks[x := t.(expire := r.store.tasks[x].expire)])
        && LatestArming(r.log, |s.log|, |r.log|, x)
  {
    hide Inv;
  }

  /** No timer is early: when its callback runs, the time-out of its latest arming has passed. */
  lemma TimersNeverEarly(env: Env, s: State, x: nat, j: nat)
    requires Reachable(env, s)
    requires j < |s.log| && TimerFire(s.log[j], x)
    ensures exists i: nat :: LatestArming(s.log, i, j, x) &&
              Nanos(env.clock(s.log[j].tick)) >= Nanos(env.clock(s.log[i].tick)) + s.log[i].timeOut
  {
    hide Inv, Reachable, Agrees;
    ReachableInv(env, s);
    assert InOrder(env, LifeOf(s.log[..j], x), s.log[j]);
    var i := ArmingFound(s.log, j, x);
  }

  ghost predicate MonotoneClock(env: Env) {
    forall a: nat, b: nat :: a <= b ==> Nanos(env.clock(a)) <= Nanos(env.clock(b))
  }

  ghost predicate TimesOut(e: Event, x: nat) {
    e.Fired? && e.kind.TimedOut? && e.slot == x
  }

  lemma {:induction false} FiringKept(log: seq<Event>, n: nat, j: nat, x: nat)
    requires n < j <= |log| && TimesOut(log[n], x) && LifeOf(log[..n], x).Life?
    requires forall k :: n < k < j ==> log[k] != Created(x) && !TimesOut(log[k], x)
    ensures LifeOf(log[..j], x).Life? && LifeOf(log[..j], x).firing == FiredAt(log[n].tick, log[n].call, log[n].fd)
  {
    assert log[..j] == log[..j - 1] + [log[j - 1]];
    LifeSnoc(log[..j - 1], log[j - 1], x);
    if n + 1 < j {
      FiringKept(log, n, j - 1, x);
    }
  }

  /** Two successive firings of one timer. */
  ghost predicate NextFiring(log: seq<Event>, n: nat, j: nat, x: nat) {
    && n < j < |log| && TimerFire(log[n], x) && TimerFire(log[j], x)
    && forall k :: n < k < j ==> log[k] != Created(x) && !TimesOut(log[k], x)
  }

  ghost predicate ArmedBetween(log: seq<Event>, n: nat, j: nat, x: nat)
    requires j <= |log|
  {
    exists i :: n < i < j && log[i].Armed? && log[i].slot == x
  }

  ghost predicate RescheduledBetween(log: seq<Event>, n: nat, j: nat, x: nat)
    requires j <= |log|
  {
    exists i :: n < i < j && log[i].Armed? && log[i].slot == x && !log[i].repeat
  }

  lemma NextFiringLives(env: Env, s: State, x: nat, n: nat, j: nat)
    requires Story(env, s, -1) && NextFiring(s.log, n, j, x)
    ensures InOrder(env, LifeOf(s.log[..n], x), s.log[n]) && InOrder(env, LifeOf(s.log[..j], x), s.log[j])
    ensures LifeOf(s.log[..j], x).Life?
    ensures LifeOf(s.log[..j], x).firing == FiredAt(s.log[n].tick, s.log[n].call, s.log[n].fd)
  {
    hide Agrees, LifeOf;
    assert InOrder(env, LifeOf(s.log[..n], x), s.log[n]);
    assert InOrder(env, LifeOf(s.log[..j], x), s.log[j]);
    FiringKept(s.log, n, j, x);
  }

  /** The latest arming before the second firing comes behind the first, or is the latest before that too. */
  lemma ArmingOf(log: seq<Event>, n: nat, j: nat, x: nat, i: nat)
    requires NextFiring(log, n, j, x) && LatestArming(log, i, j, x)
    ensures n < i <==> ArmedBetween(log, n, j, x)
    ensures !ArmedBetween(log, n, j, x) ==> LatestArming(log, i, n, x)
  {
  }

  /** Between two successive firings a timer is armed again if and only if its callback reported incomplete
      or the task was rescheduled.  One with a timer ID fires again only in the first case. */
  lemma RearmedIff(env: Env, s: State, x: nat, n: nat, j: nat)
    requires Reachable(env, s) && NextFiring(s.log, n, j, x)
    ensures ArmedBetween(s.log, n, j, x)
       <==> !env.callback(s.log[n].call).complete || RescheduledBetween(s.log, n, j, x)
    ensures s.log[j].fd < INVALID_FD ==> !env.callback(s.log[n].call).complete
  {
    hide Inv, Reachable, Agrees;
    ReachableInv(env, s);
    NextFiringLives(env, s, x, n, j);
    var i := ArmingFound(s.log, j, x);
    ArmingOf(s.log, n, j, x, i);
    if !env.callback(s.log[n].call).complete {
      assert s.log[n].tick < s.log[i].tick;
      if i < n {
        LatestTick(env, s, x, n, i);
      }
    } else if k :| n < k < j && s.log[k].Armed? && s.log[k].slot == x && s.log[k].repeat {
      assert InOrder(env, LifeOf(s.log[..k], x), s.log[k]);
      FiringKept(s.log, n, k, x);
    }
  }

  /** What was armed last before a firing was armed at an earlier clock reading. */
  lemma LatestTick(env: Env, s: State, x: nat, n: nat, i: nat)
    requires Story(env, s, -1) && n < |s.log| && TimerFire(s.log[n], x) && LatestArming(s.log, i, n, x)
    ensures s.log[i].tick < s.log[n].tick
  {
    hide Agrees, LifeOf;
    assert InOrder(env, LifeOf(s.log[..n], x), s.log[n]);
    var k := ArmingFound(s.log, n, x);
    assert k == i;
  }

  /** A timer armed after a firing was armed at a later clock reading. */
  lemma ArmedLater(env: Env, s: State, x: nat, n: nat, j: nat, i: nat)
    requires Story(env, s, -1) && NextFiring(s.log, n, j, x) && n < i < j && s.log[i].Armed? && s.log[i].slot == x
    ensures s.log[n].tick < s.log[i].tick
  {
    hide Agrees, LifeOf;
    NextFiringLives(env, s, x, n, j);
    assert InOrder(env, LifeOf(s.log[..i], x), s.log[i]);
    FiringKept(s.log, n, i, x);
  }

  /** Under a clock that does not run backwards, two successive firings of a timer that was armed between
      them are at least its time-out apart.  A timer that was not armed between them fires on the
      deadline that had passed at the first firing already. */
  lemma TimerFiringsSpaced(env: Env, s: State, x: nat, n: nat, j: nat)
    requires Reachable(env, s) && MonotoneClock(env) && NextFiring(s.log, n, j, x)
    ensures exists i: nat ::
      && LatestArming(s.log, i, j, x)
      && Nanos(env.clock(s.log[j].tick)) >= Nanos(env.clock(s.log[i].tick)) + s.log[i].timeOut
      && if ArmedBetween(s.log, n, j, x)
         then Nanos(env.clock(s.log[j].tick)) >= Nanos(env.clock(s.log[n].tick)) + s.log[i].timeOut
         else LatestArming(s.log, i, n, x)
  {
    hide Inv, Reachable, Agrees;
    ReachableInv(env, s);
    NextFiringLives(env, s, x, n, j);
    var i := ArmingFound(s.log, j, x);
    ArmingOf(s.log, n, j, x, i);
    if n < i { ArmedLater(env, s, x, n, j, i); }
  }
}
