/** Time-outs of tasks with a descriptor.  Whether one has timed out is decided when it is visited, by the
    same deadline as for timers; but the dispatcher never arms it again, and one that was never armed
    has the deadline 0. */
module SchedulerTimeOuts {
  import opened Deadlines
  import opened SchedulerModel
  import opened SchedulerCalls
  import opened SchedulerPump
  import opened SchedulerTrace
  import opened SchedulerDispatch
  import opened SchedulerTurn
  import opened SchedulerSafety

  // ----- When a task has timed out ----------------------------------------------------------

  lemma LiveAgrees(env: Env, s: State, x: nat)
    requires Story(env, s, -1) && x in s.store.live && x < |s.store.tasks|
    ensures LifeOf(s.log, x).Life? && DeadlineOf(env, s.store.tasks[x], LifeOf(s.log, x).arming, s.ticks)
  {
    assert Agrees(env, s.store.tasks[x], x !in s.store.out, LifeOf(s.log, x), s.ticks, false);
  }

  /** In every reachable state a live task, with a descriptor or without, has timed out at a clock reading
      if and only if it has a time-out and the time-out of its latest arming has passed; one that was
      not armed since it was created is due at 0. */
  lemma TimedOutIff(env: Env, s: State, x: nat, tick: nat)
    requires Reachable(env, s) && x in s.store.live && x < |s.store.tasks|
    ensures LifeOf(s.log, x).Life?
    ensures var t, a := s.store.tasks[x], LifeOf(s.log, x).arming;
      && TimedOutAt(env, tick, t) <==> t.timeOut != -1 && Passed(env, tick, a)
    ensures LifeOf(s.log, x).arming.ArmedAt? <==> exists i: nat :: LatestArming(s.log, i, |s.log|, x)
  {
    hide Inv, Reachable, Story;
    ReachableInv(env, s);
    LiveAgrees(env, s, x);
    TimedOutIsPassed(env, s.store.tasks[x], LifeOf(s.log, x).arming, s.ticks, tick);
    hide DeadlineOf, Passed;
    assert s.log[..|s.log|] == s.log;
    if LifeOf(s.log, x).arming.ArmedAt? {
      var i := ArmingFound(s.log, |s.log|, x);
    } else if i: nat :| LatestArming(s.log, i, |s.log|, x) {
      ArmingStays(s.log, i, |s.log|, x);
    }
  }

  /** A task that is alive stays armed as an arming left it. */
  lemma {:induction false} ArmingStays(log: seq<Event>, i: nat, j: nat, x: nat)
    requires LatestArming(log, i, j, x) && LifeOf(log[..j], x).Life?
    ensures LifeOf(log[..j], x).arming == ArmedAt(log[i].tick, log[i].timeOut)
  {
    assert log[..j] == log[..j - 1] + [log[j - 1]];
    LifeSnoc(log[..j - 1], log[j - 1], x);
    if i + 1 < j {
      ArmingStays(log, i, j - 1, x);
    }
  }

  // ----- Time-out callbacks -----------------------------------------------------------------

  /** Index `v` is the latest visit of `x` before position `j`, in the same incarnation. */
  ghost predicate LatestVisit(log: seq<Event>, v: nat, j: nat, x: nat) {
    && v < j <= |log| && log[v].Visited? && log[v].slot == x
    && forall k :: v < k < j ==> log[k] != Created(x) && !(log[k].Visited? && log[k].slot == x)
  }

  lemma {:induction false} VisitFound(log: seq<Event>, j: nat, x: nat) returns (v: nat)
    requires j <= |log| && LifeOf(log[..j], x).Life? && LifeOf(log[..j], x).sight.Seen?
    ensures LatestVisit(log, v, j, x) && LifeOf(log[..v], x).Life?
    ensures LifeOf(log[..j], x).sight == Seen(LifeOf(log[..v], x).arming)
  {
    assert j > 0 && log[..j] == log[..j - 1] + [log[j - 1]];
    LifeSnoc(log[..j - 1], log[j - 1], x);
    if log[j - 1].Visited? && log[j - 1].slot == x {
      v := j - 1;
    } else {
      v := VisitFound(log, j - 1, x);
    }
  }

  /** A time-out callback of a task with a descriptor runs only if the time-out of the latest arming before
      its visit has passed, or the clock is at 0 or later when there was none.  An arming during
      the visit, by the task's own error callback, comes too late. */
  lemma IoTimeOutBound(env: Env, s: State, x: nat, j: nat)
    requires Reachable(env, s) && j < |s.log| && TimesOut(s.log[j], x) && s.log[j].fd > INVALID_FD
    ensures exists v: nat :: LatestVisit(s.log, v, j, x) && DueAtVisit(env, s.log, v, x, s.log[j].tick)
  {
    hide Inv, Reachable, Agrees, Passed;
    ReachableInv(env, s);
    assert InOrder(env, LifeOf(s.log[..j], x), s.log[j]);
    var v := VisitFound(s.log, j, x);
    VisitIsDue(env, s.log, v, x, s.log[j].tick);
  }

  ghost predicate DueAtVisit(env: Env, log: seq<Event>, v: nat, x: nat, tick: nat) {
    var now := Nanos(env.clock(tick));
    && (forall i: nat :: LatestArming(log, i, v, x) ==> now >= Nanos(env.clock(log[i].tick)) + log[i].timeOut)
    && ((forall i: nat :: !LatestArming(log, i, v, x)) ==> now >= 0)
  }

  lemma VisitIsDue(env: Env, log: seq<Event>, v: nat, x: nat, tick: nat)
    requires v <= |log| && LifeOf(log[..v], x).Life? && Passed(env, tick, LifeOf(log[..v], x).arming)
    ensures DueAtVisit(env, log, v, x, tick)
  {
    forall i: nat | LatestArming(log, i, v, x)
      ensures Nanos(env.clock(tick)) >= Nanos(env.clock(log[i].tick)) + log[i].timeOut
    {
      ArmingStays(log, i, v, x);
    }
    if LifeOf(log[..v], x).arming.ArmedAt? {
      var i := ArmingFound(log, v, x);
    }
  }

  /** The dispatcher never arms a task with a descriptor again: whatever its time-out callback reported, it
      is armed next only when it is rescheduled. */
  lemma IoNotRepeated(env: Env, s: State, x: nat, n: nat, k: nat)
    requires Reachable(env, s) && n < k < |s.log| && TimesOut(s.log[n], x) && s.log[n].fd > INVALID_FD
    requires forall m :: n < m < k ==> s.log[m] != Created(x) && !TimesOut(s.log[m], x)
    requires s.log[k].Armed? && s.log[k].slot == x
    ensures !s.log[k].repeat
  {
    hide Inv, Reachable, Agrees;
    ReachableInv(env, s);
    assert InOrder(env, LifeOf(s.log[..n], x), s.log[n]);
    assert InOrder(env, LifeOf(s.log[..k], x), s.log[k]);
    FiringKept(s.log, n, k, x);
  }

  // ----- Timing out again -------------------------------------------------------------------

  /** None of the directions that decide about the task's time-out is ready. */
  predicate Unready(t: Task, f: FdSets) {
    (t.opts.read && t.fd !in f.rd) || (t.opts.write && !t.opts.read && t.fd !in f.wr)
  }

  /** From position `from` of the log on, the task is neither armed nor created anew. */
  ghost predicate NotArmed(log: seq<Event>, from: nat, x: nat) {
    forall k :: from <= k < |log| ==> log[k] != Created(x) && !(log[k].Armed? && log[k].slot == x)
  }

  lemma {:induction false} ArmingUnchanged(log: seq<Event>, n: nat, m: nat, x: nat)
    requires n <= m <= |log| && NotArmed(log, n, x) && LifeOf(log[..n], x).Life?
    ensures LifeOf(log[..m], x).Life? && LifeOf(log[..m], x).arming == LifeOf(log[..n], x).arming
  {
    if n < m {
      ArmingUnchanged(log, n, m - 1, x);
      assert log[..m] == log[..m - 1] + [log[m - 1]];
      LifeSnoc(log[..m - 1], log[m - 1], x);
    }
  }

  lemma AddsIf(a: seq<nat>, b: bool, c: bool, x: nat)
    requires b || c
    ensures Adds(a, AddIf(AddIf(a, b, x), c, x), x)
  {
    assert AddIf(AddIf(a, b, x), c, x)[|a|] == x;
  }

  /** A visit to a timed-out task none of whose directions is ready runs its time-out callback. */
  lemma VisitTimesOut(env: Env, s: State, i: nat, f: FdSets)
    requires Inv(s.store) && i < |s.store.list| && s.store.list[i] < |s.store.tasks|
    requires var t := s.store.tasks[s.store.list[i]];
      !t.opts.remove && t.fd > INVALID_FD && Unready(t, f) && TimedOutAt(env, s.ticks, t)
    ensures var x := s.store.list[i]; var q := TimeOuts(s.store.tasks[x].fd);
      Adds(Select(s.log, q), Select(Visit(env, s, i, f).0.log, q), x)
  {
    hide Inv, Select, Visit, TimedOutAt;
    ListedTask(s, i);
    var x := s.store.list[i];
    var t := s.store.tasks[x];
    var q := TimeOuts(t.fd);
    VisitSelect(env, s, i, f, q);
    AddsIf(Select(s.log, q), ReadTimesOut(t, f, true, q), WriteTimesOut(env, t, f, true, s.calls, q), x);
  }

  lemma VisitLeavesUnready(env: Env, s: State, i: nat, f: FdSets, t: Task)
    requires Inv(s.store) && i < |s.store.list| && Unready(t, f)
    ensures Unready(t, Visit(env, s, i, f).1)
  {
    hide Inv, Select, Visit, TimedOutAt;
    ListedTask(s, i);
    VisitSelect(env, s, i, f, Visits);
  }

  lemma PassedStays(env: Env, tick: nat, later: nat, a: Arming)
    requires MonotoneClock(env) && tick <= later && Passed(env, tick, a)
    ensures Passed(env, later, a)
  {
  }

  /** The task is at position `p`, has timed out, and none of its directions is ready. */
  ghost predicate Overdue(env: Env, s: State, f: FdSets, p: nat, x: nat, t: Task) {
    && p < |s.store.list| && s.store.list[p] == x && x < |s.store.tasks| && SameTask(t, s.store.tasks[x])
    && t.fd > INVALID_FD && t.timeOut != NO_TIMEOUT && Unready(t, f)
    && LifeOf(s.log, x).Life? && Passed(env, s.ticks, LifeOf(s.log, x).arming)
  }

  lemma VisitKeepsOverdue(env: Env, s: State, i: nat, f: FdSets, p: nat, x: nat, t: Task, log: seq<Event>)
    requires Inv(s.store) && i < |s.store.list| && MonotoneClock(env) && Overdue(env, s, f, p, x, t)
    requires Visit(env, s, i, f).0.log <= log && NotArmed(log, |s.log|, x)
    ensures Overdue(env, Visit(env, s, i, f).0, Visit(env, s, i, f).1, p, x, t)
  {
    hide Inv, Visit, LifeOf, Extends, LossesLogged, Passed, Unready, NotArmed;
    var (s1, f1) := Visit(env, s, i, f);
    PositionStays(s, s1, p);
    VisitLeavesUnready(env, s, i, f, t);
    assert log[..|s.log|] == s.log && log[..|s1.log|] == s1.log;
    ArmingUnchanged(log, |s.log|, |s1.log|, x);
    PassedStays(env, s.ticks, s1.ticks, LifeOf(s.log, x).arming);
  }

  /** The visit of a walk to an overdue task. */
  lemma OverdueTimesOut(env: Env, s: State, f: FdSets, p: nat, x: nat, t: Task)
    requires Inv(s.store) && Story(env, s, -1) && Overdue(env, s, f, p, x, t) && !s.store.tasks[x].opts.remove
    ensures var q := TimeOuts(t.fd); Adds(Select(s.log, q), Select(Visit(env, s, p, f).0.log, q), x)
  {
    hide Inv, Story, Visit, LifeOf, Passed, Select, TimedOutAt;
    ListedTask(s, p);
    LiveAgrees(env, s, x);
    TimedOutIsPassed(env, s.store.tasks[x], LifeOf(s.log, x).arming, s.ticks, s.ticks);
    VisitTimesOut(env, s, p, f);
  }

  lemma {:induction false} DispatchTimesOut(env: Env, s: State, i: nat, f: FdSets, p: nat, x: nat, t: Task)
    requires Inv(s.store) && Story(env, s, -1) && MonotoneClock(env) && i <= p && Overdue(env, s, f, p, x, t)
    requires var r := Dispatch(env, s, i, f);
      && NotArmed(r.log, |s.log|, x) && !r.stopped && |r.store.tasks| == |s.store.tasks|
      && !r.store.tasks[x].opts.remove
    ensures var q := TimeOuts(t.fd); Adds(Select(s.log, q), Select(Dispatch(env, s, i, f).log, q), x)
    decreases p - i
  {
    hide Inv, Story, Visit, Select, Overdue, NotArmed, LossesLogged, MonotoneClock;
    OverdueIsListed(env, s, f, p, x, t);
    var q, r := TimeOuts(t.fd), Dispatch(env, s, i, f);
    ListFits(s.store);
    var (s1, f1) := Visit(env, s, i, f);
    SelectPrefix(s.log, s1.log, q);
    SelectPrefix(s1.log, r.log, q);
    if i == p {
      PositionStays(s, r, p);
      OverdueTimesOut(env, s, f, p, x, t);
    } else {
      VisitKeepsOverdue(env, s, i, f, p, x, t, r.log);
      VisitStory(env, s, i, f);
      LaterNotArmed(r.log, |s.log|, |s1.log|, x);
      DispatchTimesOut(env, s1, i + 1, f1, p, x, t);
    }
  }

  lemma LaterNotArmed(log: seq<Event>, n: nat, m: nat, x: nat)
    requires NotArmed(log, n, x) && n <= m
    ensures NotArmed(log, m, x)
  {
  }

  lemma OverdueIsListed(env: Env, s: State, f: FdSets, p: nat, x: nat, t: Task)
    requires Overdue(env, s, f, p, x, t)
    ensures p < |s.store.list| && s.store.list[p] == x && x < |s.store.tasks|
  {
  }

  /** A task with a descriptor that has timed out times out again in every turn that dispatches, until it is
      rescheduled, removed, or a direction that decides about its time-out is ready. */
  lemma IoTimesOutEveryTurn(env: Env, s: State, x: nat)
    requires Reachable(env, s) && Inv(s.store) && MonotoneClock(env)
    requires x in s.store.list && x < |s.store.tasks| && !s.stopped && env.select(s.polls).SelectReady?
    requires var t := s.store.tasks[x];
      t.fd > INVALID_FD && !t.opts.remove && TimedOutAt(env, s.ticks, t) && Unready(t, ReadyFds(env, s))
    requires var r := Pump(env, s);
      && !r.stopped && NotArmed(r.log, |s.log|, x)
      && |r.store.tasks| == |s.store.tasks| && !r.store.tasks[x].opts.remove
    ensures x in News(s, Pump(env, s), TimeOuts(s.store.tasks[x].fd))
  {
    hide Inv, Story, Reachable, Select, Dispatch, Overdue, NotArmed, LossesLogged, MonotoneClock;
    var t, s1, f := s.store.tasks[x], Swept(s), ReadyFds(env, s);
    var p := SweptOverdue(env, s, x);
    ReachableInv(env, s);
    SweptStory(env, s);
    SweptFrame(s);
    DispatchTimesOut(env, s1, 0, f, p, x, t);
  }

  lemma SweptStory(env: Env, s: State)
    requires Inv(s.store) && Story(env, s, -1)
    ensures Story(env, Swept(s), -1)
  {
    SweepStory(env, s, 0);
  }

  lemma SweptOverdue(env: Env, s: State, x: nat) returns (p: nat)
    requires Reachable(env, s) && Inv(s.store)
    requires x in s.store.list && x < |s.store.tasks|
    requires var t := s.store.tasks[x];
      t.fd > INVALID_FD && !t.opts.remove && TimedOutAt(env, s.ticks, t) && Unready(t, ReadyFds(env, s))
    ensures Overdue(env, Swept(s), ReadyFds(env, s), p, x, s.store.tasks[x])
  {
    ListedIsLive(s.store, x);
    hide Inv, Reachable, LatestArming, ReadyFds, Unready, Passed, TimedOutAt;
    TimedOutIff(env, s, x, s.ticks);
    SweepSpares(s.store, 0, x);
    p :| 0 <= p < |Swept(s).store.list| && Swept(s).store.list[p] == x;
  }

  lemma ListedIsLive(q: Store, x: nat)
    requires Inv(q) && x in q.list
    ensures x in q.live
  {
  }

  /** A timed-out task that is not armed in between is timed out at any later time. */
  lemma StaysTimedOut(env: Env, s: State, steps: seq<Step>, x: nat)
    requires Reachable(env, s) && Inv(s.store) && MonotoneClock(env)
    requires x in s.store.live && x < |s.store.tasks| && TimedOutAt(env, s.ticks, s.store.tasks[x])
    requires var r := Run(env, s, steps);
      && NotArmed(r.log, |s.log|, x)
      && x in r.store.live && x < |r.store.tasks| && r.store.tasks[x].timeOut != NO_TIMEOUT
    ensures var r := Run(env, s, steps); TimedOutAt(env, r.ticks, r.store.tasks[x])
  {
    hide Inv, Reachable, Story, LatestArming, NotArmed, Passed, TimedOutAt, MonotoneClock;
    var r := Run(env, s, steps);
    TimedOutIff(env, s, x, s.ticks);
    ReachableInv(env, s);
    RunStory(env, s, steps);
    RunLog(env, s, steps);
    assert r.log[..|s.log|] == s.log && r.log[..|r.log|] == r.log;
    ArmingUnchanged(r.log, |s.log|, |r.log|, x);
    LiveAgrees(env, r, x);
    PassedStays(env, s.ticks, r.ticks, LifeOf(s.log, x).arming);
    TimedOutIsPassed(env, r.store.tasks[x], LifeOf(r.log, x).arming, r.ticks, r.ticks);
  }
}
