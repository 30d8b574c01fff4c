/** What one visit of the dispatcher does to a task: for any callbacks, when a task without a descriptor runs
    its callback and is armed again; and for callbacks that make no calls, all that the visit changes. */
module SchedulerVisits {
  import opened Deadlines
  import opened SchedulerModel
  import opened SchedulerCalls
  import opened SchedulerPump
  import opened SchedulerDispatch

  // ----- Tasks without a descriptor ---------------------------------------------------------

  lemma FireLogs(env: Env, s: State, i: nat, kind: Kind, tick: nat)
    requires Inv(s.store) && i < |s.store.list| && HasCallback(s.store.tasks[s.store.list[i]].cbs, kind)
    ensures s.store.list[i] < |s.store.tasks|
    ensures s.log + [FiredEvent(s, i, kind, tick)] <= Fire(env, s, i, kind, tick).0.log
  {
    hide Inv, Extends;
    ListedTask(s, i);
  }

  /** The callback ran from a visit at clock reading `tick`, and then the task was armed again, with this
      time-out, from a later reading. */
  ghost predicate Rearmed(env: Env, before: seq<Event>, x: nat, tick: nat, timeOut: int, r: State) {
    exists c: State ::
      && before <= c.log && c.ticks > tick && x < |c.store.tasks| && c.store.tasks[x].timeOut == timeOut
      && timeOut >= 0 && r == Arm(env, c, x, true)
  }

  /** A visit to any task without a descriptor runs its time-out callback exactly when its deadline has passed.
      If that reports incomplete the task is armed again, by its own time-out; if it reports completion
      the task is marked, unless its descriptor is -1.  The descriptor sets stay as they are. */
  lemma TimerVisits(env: Env, s: State, i: nat, f: FdSets)
    requires Inv(s.store) && i < |s.store.list| && s.store.list[i] < |s.store.tasks|
    requires var t := s.store.tasks[s.store.list[i]];
      t.fd <= -1 && !t.opts.remove && 0 <= t.expire.nsec <= 1_000_000_000
    ensures Visit(env, s, i, f).1 == f
    ensures var x, tick := s.store.list[i], s.ticks; var t, r := s.store.tasks[x], Visit(env, s, i, f).0;
      var seen := s.log + [Visited(x, t)]; var ran := seen + [Fired(x, TimedOut, t.fd, tick, s.calls)];
      if Nanos(env.clock(tick)) < Nanos(t.expire) then
        r == Entered(s, i) && r.store == s.store && r.log == seen && r.calls == s.calls
      else
        && ran <= r.log
        && (!env.callback(s.calls).complete ==> Rearmed(env, ran, x, tick, t.timeOut, r))
        && (env.callback(s.calls).complete && t.fd < -1 ==> x < |r.store.tasks| && r.store.tasks[x].opts.remove)
  {
    hide Inv, Extends, LossesLogged;
    ListedTask(s, i);
    var x, s0, tick := s.store.list[i], Entered(s, i), s.ticks;
    var t := s.store.tasks[x];
    ExpiredIsNumeric(env.clock(tick), t.expire);
    if TimedOutAt(env, tick, t) {
      var e := FiredEvent(s0, i, TimedOut, tick);
      var c := Fire(env, s0, i, TimedOut, tick).0;
      FireLogs(env, s0, i, TimedOut, tick);
      PositionStays(s0, c, i);
      ListedTask(c, i);
      hide Fire;
      assert !env.callback(s.calls).complete ==> Rearmed(env, s0.log + [e], x, tick, t.timeOut, Arm(env, c, x, true));
    }
  }

  // ----- Callbacks that make no calls -------------------------------------------------------

  ghost predicate QuietCallbacks(env: Env) {
    forall n: nat :: env.callback(n).calls == []
  }

  lemma QuietFire(env: Env, s: State, i: nat, kind: Kind, tick: nat)
    requires Inv(s.store) && i < |s.store.list| && HasCallback(s.store.tasks[s.store.list[i]].cbs, kind)
    requires QuietCallbacks(env)
    ensures var r := Fire(env, s, i, kind, tick).0; r.store == s.store && r.ticks == s.ticks && r.stopped == s.stopped
  {
    hide Inv, Extends;
    ListedTask(s, i);
    assert env.callback(s.calls).calls == [];
  }

  ghost predicate SameStore(s: State, r: State) {
    r.store == s.store && r.ticks == s.ticks && r.stopped == s.stopped
  }

  lemma QuietParts(env: Env, s: State, i: nat, f: FdSets, tick: nat, expired: bool, rv: bool)
    requires Inv(s.store) && i < |s.store.list| && QuietCallbacks(env)
    requires expired ==> s.store.tasks[s.store.list[i]].timeOut != NO_TIMEOUT
    ensures SameStore(s, ErrorPart(env, s, i, f, tick).0)
    ensures SameStore(s, ReadPart(env, s, i, f, tick, expired).0)
    ensures SameStore(s, WritePart(env, s, i, f, tick, expired, rv).0)
  {
    hide Inv, Grows, Fire, QuietCallbacks;
    ListedTask(s, i);
    var t := s.store.tasks[s.store.list[i]];
    if t.opts.error { QuietFire(env, s, i, ErrorReady, tick); }
    if t.opts.read { QuietFire(env, s, i, ReadReady, tick); }
    if t.opts.write { QuietFire(env, s, i, WriteReady, tick); }
    if expired && (t.opts.read || t.opts.write) { QuietFire(env, s, i, TimedOut, tick); }
  }

  lemma QuietIo(env: Env, s: State, i: nat, f: FdSets, tick: nat, expired: bool)
    requires Inv(s.store) && i < |s.store.list| && QuietCallbacks(env)
    requires expired ==> s.store.tasks[s.store.list[i]].timeOut != NO_TIMEOUT
    ensures SameStore(s, IoPart(env, s, i, f, tick, expired).0)
  {
    hide Inv, Grows, ErrorPart, ReadPart, WritePart, QuietCallbacks;
    ListedTask(s, i);
    var (s1, f1) := ErrorPart(env, s, i, f, tick);
    QuietParts(env, s, i, f, tick, expired, true);
    PositionStays(s, s1, i);
    var (s2, f2, rv) := ReadPart(env, s1, i, f1, tick, expired);
    QuietParts(env, s1, i, f1, tick, expired, true);
    PositionStays(s1, s2, i);
    QuietParts(env, s2, i, f2, tick, expired, rv);
  }

  /** With callbacks that make no calls, a visit to a task with a descriptor changes one thing in the store: it
      sets REMOVE on that task, exactly when the visit completes it. */
  lemma QuietIoVisit(env: Env, s: State, i: nat, f: FdSets)
    requires Inv(s.store) && i < |s.store.list| && s.store.list[i] < |s.store.tasks| && QuietCallbacks(env)
    requires !s.store.tasks[s.store.list[i]].opts.remove && s.store.tasks[s.store.list[i]].fd > -1
    ensures var x := s.store.list[i]; var t, r := s.store.tasks[x], Visit(env, s, i, f).0;
      && r.ticks == s.ticks + 1 && r.stopped == s.stopped
      && r.store == if Completes(env, t, f, TimedOutAt(env, s.ticks, t), s.calls)
                    then s.store.(tasks := s.store.tasks[x := t.(opts := t.opts.(remove := true))]) else s.store
  {
    hide Inv, Grows, IoPart, TimerPart, Completes, QuietCallbacks, Select, Serves, Consumed;
    ListedTask(s, i);
    var t, s0 := s.store.tasks[s.store.list[i]], Entered(s, i);
    ProcessSelect(env, s, i, f, Visits);
    QuietIo(env, s0, i, f, s.ticks, TimedOutAt(env, s.ticks, t));
  }

  /** Nor does a visit to a task without a descriptor change more than its deadline or its REMOVE bit. */
  lemma QuietTimerVisit(env: Env, s: State, i: nat, f: FdSets)
    requires Inv(s.store) && i < |s.store.list| && s.store.list[i] < |s.store.tasks| && QuietCallbacks(env)
    requires !s.store.tasks[s.store.list[i]].opts.remove && s.store.tasks[s.store.list[i]].fd <= -1
    ensures var x := s.store.list[i]; var t, r := s.store.tasks[x], Visit(env, s, i, f).0;
      && |r.store.tasks| == |s.store.tasks| && r.stopped == s.stopped
      && r.store == s.store.(tasks := s.store.tasks[x := r.store.tasks[x]])
      && var u := r.store.tasks[x];
         if !TimedOutAt(env, s.ticks, t) then u == t
         else if env.callback(s.calls).complete then u == if t.fd == -1 then t else t.(opts := t.opts.(remove := true))
         else u == t.(expire := u.expire) && Nanos(u.expire) == Nanos(env.clock(s.ticks + 1)) + t.timeOut
  {
    hide Inv, Extends, LossesLogged, QuietCallbacks, Fire;
    ListedTask(s, i);
    var t, s0 := s.store.tasks[s.store.list[i]], Entered(s, i);
    if TimedOutAt(env, s.ticks, t) {
      QuietFire(env, s0, i, TimedOut, s.ticks);
      FireAnswers(env, s0, i, TimedOut, s.ticks);
    }
  }

  lemma FireAnswers(env: Env, s: State, i: nat, kind: Kind, tick: nat)
    requires Inv(s.store) && i < |s.store.list| && HasCallback(s.store.tasks[s.store.list[i]].cbs, kind)
    ensures Fire(env, s, i, kind, tick).1 == env.callback(s.calls).complete
  {
    hide Inv, Grows;
  }
}
