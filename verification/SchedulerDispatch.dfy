/** The dispatch walk of one pump turn: who is visited, and which callback a ready descriptor reaches. */
module SchedulerDispatch {
  import opened Sequences
  import opened Deadlines
  import opened SchedulerModel
  import opened SchedulerCalls
  import opened SchedulerPump

  // ----- Reading the log --------------------------------------------------------------------

  /** Which events to look for: visits; visits of tasks that watch a descriptor in some direction;
      callbacks run because a descriptor was ready in some direction, or because time was out for it. */
  datatype Query = Visits | Watches(kind: Kind, fd: int) | Handed(kind: Kind, fd: int) | TimeOuts(fd: int)

  predicate Watching(t: Task, kind: Kind) {
    match kind
    case ErrorReady => t.opts.error
    case ReadReady => t.opts.read
    case WriteReady => t.opts.write
    case TimedOut => false
  }

  predicate Matches(e: Event, q: Query) {
    match e
    case Visited(_, t) => q.Visits? || (q.Watches? && t.fd == q.fd && t.fd > INVALID_FD && Watching(t, q.kind))
    case Fired(_, kind, fd, _, _) =>
      if kind.TimedOut? then fd > INVALID_FD && q == TimeOuts(fd) else q == Handed(kind, fd)
    case _ => false
  }

  function SlotOfHit(e: Event): nat {
    match e
    case Visited(x, _) => x
    case Fired(x, _, _, _, _) => x
    case _ => 0
  }

  function AddIf(a: seq<nat>, b: bool, x: nat): seq<nat> {
    if b then a + [x] else a
  }

  /** The slots of the matching events, in order. */
  function Select(log: seq<Event>, q: Query): seq<nat> {
    if log == [] then []
    else
      var e := log[|log| - 1];
      AddIf(Select(log[..|log| - 1], q), Matches(e, q), SlotOfHit(e))
  }

  lemma SelectSnoc(log: seq<Event>, e: Event, q: Query)
    ensures Select(log + [e], q) == AddIf(Select(log, q), Matches(e, q), SlotOfHit(e))
  {
    assert (log + [e])[..|log|] == log;
  }

  // ----- Calls do not dispatch --------------------------------------------------------------

  lemma PerformSelect(env: Env, s: State, a: Action, q: Query)
    requires Inv(s.store)
    ensures Select(Perform(env, s, a).log, q) == Select(s.log, q) && Perform(env, s, a).calls == s.calls
  {
    hide Inv, Perform, Select;
    PerformLogs(env, s, a);
    var r := Perform(env, s, a);
    if r.log != s.log {
      var e :| CallEvent(s, e) && r.log == s.log + [e];
      SelectSnoc(s.log, e, q);
    }
  }

  lemma HaltSelect(env: Env, s: State, mgr: nat, q: Query)
    requires Inv(s.store)
    ensures Select(HaltMonitor(env, s, mgr).log, q) == Select(s.log, q) && HaltMonitor(env, s, mgr).calls == s.calls
  {
    hide Inv, Perform, Select;
    if mgr in s.monitors {
      PerformSelect(env, s, Unschedule(s.monitors[mgr]), q);
    }
  }

  lemma ExecuteSelect(env: Env, s: State, c: ClientCall, q: Query)
    requires Inv(s.store)
    ensures Select(Execute(env, s, c).log, q) == Select(s.log, q) && Execute(env, s, c).calls == s.calls
  {
    hide Inv, Perform, HaltMonitor, Grows, Select;
    match c {
      case Api(a) => PerformSelect(env, s, a, q);
      case StopMonitor(mgr) => HaltSelect(env, s, mgr, q);
      case StartMonitor(mgr) =>
        HaltSelect(env, s, mgr, q);
        var s1, create := HaltMonitor(env, s, mgr), CreateTimer(ONE_SECOND, mgr, true);
        PerformKeeps(env, s1, create);
        PerformSelect(env, s1, create, q);
        if s1.store.pool != [] {
          PerformSelect(env, Perform(env, s1, create), Schedule(s1.store.pool[0]), q);
        }
    }
  }

  lemma {:induction false} ExecuteAllSelect(env: Env, s: State, calls: seq<ClientCall>, q: Query)
    requires Inv(s.store)
    ensures Select(ExecuteAll(env, s, calls).log, q) == Select(s.log, q) && ExecuteAll(env, s, calls).calls == s.calls
    decreases |calls|
  {
    hide Inv, Select, Grows, Execute;
    if calls != [] {
      ExecuteSelect(env, s, calls[0], q);
      ExecuteAllSelect(env, Execute(env, s, calls[0]), calls[1..], q);
    }
  }

  /** One callback execution adds its own event and nothing else that a query could match. */
  lemma FireSelect(env: Env, s: State, i: nat, kind: Kind, tick: nat, q: Query)
    requires Inv(s.store) && i < |s.store.list|
    requires HasCallback(s.store.tasks[s.store.list[i]].cbs, kind)
    ensures Select(Fire(env, s, i, kind, tick).0.log, q)
         == AddIf(Select(s.log, q), Matches(FiredEvent(s, i, kind, tick), q), s.store.list[i])
    ensures Fire(env, s, i, kind, tick).0.calls == s.calls + 1
    ensures Fire(env, s, i, kind, tick).1 == env.callback(s.calls).complete
  {
    hide Inv, Select, AddIf, Grows, Matches, AddIf;
    ListedTask(s, i);
    var e := FiredEvent(s, i, kind, tick);
    SelectSnoc(s.log, e, q);
    ExecuteAllSelect(env, Began(s, e), env.callback(s.calls).calls, q);
  }

  // ----- One task ---------------------------------------------------------------------------

  lemma ErrorSelect(env: Env, s: State, i: nat, f: FdSets, tick: nat, q: Query)
    requires Inv(s.store) && i < |s.store.list|
    ensures var x := s.store.list[i]; var t := s.store.tasks[x]; var r := ErrorPart(env, s, i, f, tick);
      && Select(r.0.log, q) == AddIf(Select(s.log, q), t.opts.error && t.fd in f.er && q == Handed(ErrorReady, t.fd), x)
      && r.0.calls == s.calls + (if t.opts.error && t.fd in f.er then 1 else 0)
      && r.1 == f.(er := if t.opts.error then f.er - {t.fd} else f.er)
  {
    hide Inv, Select, Grows, Fire;
    ListedTask(s, i);
    if s.store.tasks[s.store.list[i]].opts.error {
      FireSelect(env, s, i, ErrorReady, tick, q);
    }
  }

  /** Whether the read part of a visit runs the time-out callback, and the query asks for that. */
  predicate ReadTimesOut(t: Task, f: FdSets, expired: bool, q: Query) {
    q == TimeOuts(t.fd) && t.opts.read && expired && t.fd !in f.rd
  }

  lemma ReadSelect(env: Env, s: State, i: nat, f: FdSets, tick: nat, expired: bool, q: Query)
    requires Inv(s.store) && i < |s.store.list| && s.store.tasks[s.store.list[i]].fd > INVALID_FD
    requires expired ==> s.store.tasks[s.store.list[i]].timeOut != NO_TIMEOUT
    ensures var x := s.store.list[i]; var t := s.store.tasks[x]; var r := ReadPart(env, s, i, f, tick, expired);
      && Select(r.0.log, q) == AddIf(AddIf(Select(s.log, q),
           t.opts.read && t.fd in f.rd && q == Handed(ReadReady, t.fd), x),
           ReadTimesOut(t, f, expired, q), x)
      && r.1 == f.(rd := if t.opts.read then f.rd - {t.fd} else f.rd)
      && r.2 == (t.opts.read ==> (t.fd in f.rd || expired) && env.callback(s.calls).complete)
      && (r.2 ==> r.0.calls == s.calls + (if t.opts.read then 1 else 0))
  {
    hide Inv, Select, Grows, Fire;
    ListedTask(s, i);
    if s.store.tasks[s.store.list[i]].opts.read {
      FireSelect(env, s, i, ReadReady, tick, q);
      if expired { FireSelect(env, s, i, TimedOut, tick, q); }
    }
  }

  lemma WriteSelect(env: Env, s: State, i: nat, f: FdSets, tick: nat, expired: bool, rv: bool, q: Query)
    requires Inv(s.store) && i < |s.store.list| && s.store.tasks[s.store.list[i]].fd > INVALID_FD
    requires expired ==> s.store.tasks[s.store.list[i]].timeOut != NO_TIMEOUT
    ensures var x := s.store.list[i]; var t := s.store.tasks[x]; var r := WritePart(env, s, i, f, tick, expired, rv);
      && Select(r.0.log, q) == AddIf(AddIf(Select(s.log, q),
           t.opts.write && t.fd in f.wr && rv && q == Handed(WriteReady, t.fd), x),
           q == TimeOuts(t.fd) && t.opts.write && expired && t.fd !in f.wr && rv, x)
      && r.1 == f.(wr := if t.opts.write then f.wr - {t.fd} else f.wr)
      && r.2 == (rv && (t.opts.write ==> (t.fd in f.wr || expired) && env.callback(s.calls).complete))
  {
    hide Inv, Select, Grows, Fire;
    ListedTask(s, i);
    if s.store.tasks[s.store.list[i]].opts.write {
      FireSelect(env, s, i, WriteReady, tick, q);
      if expired { FireSelect(env, s, i, TimedOut, tick, q); }
    }
  }

  /** Whether the write callback of a write-ready task runs: a task that also watches reads must have
      had a read (or time-out) callback that reported completion; otherwise the readiness is dropped. */
  predicate WriteRuns(env: Env, t: Task, f: FdSets, expired: bool, calls: nat) {
    t.opts.read ==>
      && (t.fd in f.rd || expired)
      && env.callback(calls + (if t.opts.error && t.fd in f.er then 1 else 0)).complete
  }

  /** What one I/O task makes of the descriptor sets: every direction it watches is consumed, and a
      ready direction runs its callback -- for writes, only if `WriteRuns`. */
  predicate Serves(env: Env, t: Task, f: FdSets, expired: bool, calls: nat, q: Query) {
    && q.Handed? && q.fd == t.fd
    && match q.kind
       case ErrorReady => t.opts.error && t.fd in f.er
       case ReadReady => t.opts.read && t.fd in f.rd
       case WriteReady => t.opts.write && t.fd in f.wr && WriteRuns(env, t, f, expired, calls)
       case TimedOut => false
  }

  /** When a visit to an I/O task completes it: each direction it watches must have had a callback run --
      because of readiness or the time-out -- that reported completion.  Errors do not matter, so a task
      that watches only errors completes at its first visit. */
  predicate Completes(env: Env, t: Task, f: FdSets, expired: bool, calls: nat) {
    var n := calls + (if t.opts.error && t.fd in f.er then 1 else 0);
    && (t.opts.read ==> (t.fd in f.rd || expired) && env.callback(n).complete)
    && (t.opts.write ==> (t.fd in f.wr || expired) && env.callback(n + (if t.opts.read then 1 else 0)).complete)
  }

  /** Whether the write part does: like a write callback, only if the read part did not stand in the way. */
  predicate WriteTimesOut(env: Env, t: Task, f: FdSets, expired: bool, calls: nat, q: Query) {
    q == TimeOuts(t.fd) && t.opts.write && expired && t.fd !in f.wr && WriteRuns(env, t, f, expired, calls)
  }

  /** The time-out callbacks of one visit: none, one or two. */
  function AddTimeOuts(
    a: seq<nat>, env: Env, t: Task, f: FdSets, expired: bool, calls: nat, q: Query, x: nat): seq<nat>
  {
    AddIf(AddIf(a, ReadTimesOut(t, f, expired, q), x), WriteTimesOut(env, t, f, expired, calls, q), x)
  }

  function Consumed(t: Task, f: FdSets): FdSets {
    FdSets(if t.opts.read then f.rd - {t.fd} else f.rd,
           if t.opts.write then f.wr - {t.fd} else f.wr,
           if t.opts.error then f.er - {t.fd} else f.er)
  }

  lemma IoSelect(env: Env, s: State, i: nat, f: FdSets, tick: nat, expired: bool, q: Query)
    requires Inv(s.store) && i < |s.store.list| && s.store.tasks[s.store.list[i]].fd > INVALID_FD
    requires expired ==> s.store.tasks[s.store.list[i]].timeOut != NO_TIMEOUT
    ensures var x := s.store.list[i]; var t := s.store.tasks[x]; var r := IoPart(env, s, i, f, tick, expired);
      && Select(r.0.log, q) == (
           var handed := AddIf(Select(s.log, q), Serves(env, t, f, expired, s.calls, q), x);
           AddTimeOuts(handed, env, t, f, expired, s.calls, q, x))
      && r.1 == Consumed(t, f) && r.2 == Completes(env, t, f, expired, s.calls)
  {
    hide Inv, Select, Grows, ErrorPart, ReadPart, WritePart;
    ListedTask(s, i);
    var (s1, f1) := ErrorPart(env, s, i, f, tick);
    ErrorSelect(env, s, i, f, tick, q);
    PositionStays(s, s1, i);
    var (s2, f2, rv) := ReadPart(env, s1, i, f1, tick, expired);
    ReadSelect(env, s1, i, f1, tick, expired, q);
    PositionStays(s1, s2, i);
    WriteSelect(env, s2, i, f2, tick, expired, rv, q);
  }

  lemma TimerSelect(env: Env, s: State, i: nat, tick: nat, expired: bool, q: Query)
    requires Inv(s.store) && i < |s.store.list|
    requires s.store.tasks[s.store.list[i]].cbs.timeout && s.store.tasks[s.store.list[i]].fd <= INVALID_FD
    requires expired ==> s.store.tasks[s.store.list[i]].timeOut != NO_TIMEOUT
    ensures Select(TimerPart(env, s, i, tick, expired).0.log, q) == Select(s.log, q)
  {
    if expired {
      ListedTask(s, i);
      FireSelect(env, s, i, TimedOut, tick, q);
      var (s1, done) := Fire(env, s, i, TimedOut, tick);
      ListedTask(s1, i);
      hide Inv, Select, Grows, Fire;
      if !done {
        SelectSnoc(s1.log, Armed(s1.store.list[i], s1.ticks, s1.store.tasks[s1.store.list[i]].timeOut, true), q);
      }
    }
  }

  lemma ProcessSelect(env: Env, s: State, i: nat, f: FdSets, q: Query)
    requires Inv(s.store) && i < |s.store.list|
    requires !s.store.tasks[s.store.list[i]].opts.remove
    ensures var x := s.store.list[i]; var t := s.store.tasks[x]; var r := Process(env, s, i, f);
      && Select(r.0.log, q) == (
           var before, expired := Select(Entered(s, i).log, q), TimedOutAt(env, s.ticks, t);
           var handed := AddIf(before, Serves(env, t, f, expired, s.calls, q), x);
           if t.fd <= INVALID_FD then before else AddTimeOuts(handed, env, t, f, expired, s.calls, q, x))
      && r.1 == (if t.fd > INVALID_FD then Consumed(t, f) else f)
      && (t.fd > INVALID_FD ==> r.2 == Completes(env, t, f, TimedOutAt(env, s.ticks, t), s.calls))
  {
    hide Inv, Select, Grows, IoPart, TimerPart, Serves, Consumed, Completes, AddTimeOuts;
    ListedTask(s, i);
    var t := s.store.tasks[s.store.list[i]];
    var s0, expired := Entered(s, i), TimedOutAt(env, s.ticks, t);
    assert expired ==> t.timeOut != NO_TIMEOUT;
    assert s0.calls == s.calls;
    hide Entered, TimedOutAt;
    if t.fd > INVALID_FD {
      IoSelect(env, s0, i, f, s.ticks, expired, q);
    } else {
      TimerSelect(env, s0, i, s.ticks, expired, q);
    }
  }

  /** One visit of the walk, for any query. */
  lemma VisitSelect(env: Env, s: State, i: nat, f: FdSets, q: Query)
    requires Inv(s.store) && i < |s.store.list|
    ensures var x := s.store.list[i]; var t := s.store.tasks[x]; var r := Visit(env, s, i, f);
      if t.opts.remove then r == (s, f)
      else
        && Select(r.0.log, q) == (
             var seen, expired := AddIf(Select(s.log, q), Matches(Visited(x, t), q), x), TimedOutAt(env, s.ticks, t);
             var handed := AddIf(seen, Serves(env, t, f, expired, s.calls, q), x);
             if t.fd <= INVALID_FD then seen else AddTimeOuts(handed, env, t, f, expired, s.calls, q, x))
        && r.1 == if t.fd > INVALID_FD then Consumed(t, f) else f
  {
    hide Inv, Select, AddIf, Grows, Process, Serves, Consumed, TimedOutAt, AddTimeOuts;
    ListedTask(s, i);
    var x := s.store.list[i];
    var t := s.store.tasks[x];
    if !t.opts.remove {
      SelectSnoc(s.log, Visited(x, t), q);
      ProcessSelect(env, s, i, f, q);
      var (s1, f1, done) := Process(env, s, i, f);
      PositionStays(s, s1, i);
      UnscheduleSelect(s1, s1.store.list[i], q);
    }
  }

  /** A visited task with a descriptor whose visit completes it is marked for removal; a task that
      watches only errors always is. */
  lemma VisitCompletes(env: Env, s: State, i: nat, f: FdSets)
    requires Inv(s.store) && i < |s.store.list| && s.store.list[i] < |s.store.tasks|
    requires !s.store.tasks[s.store.list[i]].opts.remove && s.store.tasks[s.store.list[i]].fd > INVALID_FD
    ensures var x := s.store.list[i]; var t, r := s.store.tasks[x], Visit(env, s, i, f).0;
      && x < |r.store.tasks|
      && (Completes(env, t, f, TimedOutAt(env, s.ticks, t), s.calls) ==> r.store.tasks[x].opts.remove)
      && (!t.opts.read && !t.opts.write ==> r.store.tasks[x].opts.remove)
  {
    hide Inv, Select, Process, Serves, Consumed, TimedOutAt, Extends;
    ProcessSelect(env, s, i, f, Visits);
    var s1 := Process(env, s, i, f).0;
    PositionStays(s, s1, i);
    PositionStays(s, Visit(env, s, i, f).0, i);
  }

  /** Readiness to write that a visited task watches is consumed; it is lost exactly when the task also
      watches reads and no read or time-out callback ran that reported completion. */
  lemma WriteHandedIff(env: Env, s: State, i: nat, f: FdSets)
    requires Inv(s.store) && i < |s.store.list| && s.store.list[i] < |s.store.tasks|
    requires var t := s.store.tasks[s.store.list[i]]; !t.opts.remove && t.opts.write && t.fd in f.wr
    ensures var x := s.store.list[i]; var t := s.store.tasks[x];
      var q, r := Handed(WriteReady, t.fd), Visit(env, s, i, f);
      && t.fd !in r.1.wr
      && Select(r.0.log, q) == AddIf(Select(s.log, q), WriteRuns(env, t, f, TimedOutAt(env, s.ticks, t), s.calls), x)
  {
    hide Inv, Select, Visit, WriteRuns, TimedOutAt;
    ListedTask(s, i);
    VisitSelect(env, s, i, f, Handed(WriteReady, s.store.tasks[s.store.list[i]].fd));
  }

  lemma UnscheduleSelect(s: State, x: nat, q: Query)
    requires x < |s.store.tasks|
    ensures Select(UnscheduleTask(s, x).log, q) == Select(s.log, q)
  {
    SelectSnoc(s.log, Marked([x]), q);
  }

  // ----- The walk ---------------------------------------------------------------------------

  predicate Subsequence(a: seq<nat>, b: seq<nat>) {
    a == [] || (b != [] && ((a[0] == b[0] && Subsequence(a[1..], b[1..])) || Subsequence(a, b[1..])))
  }

  lemma {:induction false} SubsequenceNoDup(a: seq<nat>, b: seq<nat>)
    requires Subsequence(a, b) && NoDup(b)
    ensures NoDup(a) && |a| <= |b| && forall k :: 0 <= k < |a| ==> a[k] in b
  {
    if a != [] {
      if a[0] == b[0] && Subsequence(a[1..], b[1..]) {
        SubsequenceNoDup(a[1..], b[1..]);
      } else {
        SubsequenceNoDup(a, b[1..]);
      }
    }
  }

  /** What a dispatch walk adds to the visits: new visits are a subsequence of the rest of the final
      list, and miss no task that ends up without REMOVE, unless the scheduler was stopped. */
  ghost predicate Walked(s: State, r: State, i: nat, visits: seq<nat>)
    requires i <= |r.store.list|
  {
    && Select(r.log, Visits) == Select(s.log, Visits) + visits
    && Subsequence(visits, r.store.list[i..])
    && forall p :: i <= p < |r.store.list| && Unmarked(r, p) ==> r.store.list[p] in visits
  }

  ghost predicate Unmarked(r: State, p: nat)
    requires p < |r.store.list|
  {
    !r.stopped && r.store.list[p] < |r.store.tasks| && !r.store.tasks[r.store.list[p]].opts.remove
  }

  lemma {:induction false} DispatchWalk(env: Env, s: State, i: nat, f: FdSets) returns (visits: seq<nat>)
    requires Inv(s.store) && i <= |s.store.list|
    ensures i <= |Dispatch(env, s, i, f).store.list| && Walked(s, Dispatch(env, s, i, f), i, visits)
    decreases |s.store.tasks| - i
  {
    hide Inv, Select, Visit, Walked, Grows;
    if i == |s.store.list| || s.stopped {
      visits := WalkEnd(s, i);
    } else {
      ListedTask(s, i);
      ListFits(s.store);
      VisitSelect(env, s, i, f, Visits);
      var (s1, f1) := Visit(env, s, i, f);
      PositionStays(s, s1, i);
      var rest := DispatchWalk(env, s1, i + 1, f1);
      visits := WalkStep(s, s1, Dispatch(env, s, i, f), i, rest);
    }
  }

  lemma WalkEnd(s: State, i: nat) returns (visits: seq<nat>)
    requires i <= |s.store.list| && (i == |s.store.list| || s.stopped)
    ensures Walked(s, s, i, visits)
  {
    visits := [];
  }

  lemma WalkStep(s: State, s1: State, r: State, i: nat, rest: seq<nat>) returns (visits: seq<nat>)
    requires i < |s.store.list| && s.store.list[i] < |s.store.tasks|
    requires Grows(s, r) && i + 1 <= |r.store.list| && Walked(s1, r, i + 1, rest)
    requires var x := s.store.list[i];
      Select(s1.log, Visits)
        == if s.store.tasks[x].opts.remove then Select(s.log, Visits) else Select(s.log, Visits) + [x]
    ensures Walked(s, r, i, visits)
  {
    hide Select;
    var x := s.store.list[i];
    PositionStays(s, r, i);
    assert r.store.list[i..] == [x] + r.store.list[i + 1..];
    if s.store.tasks[x].opts.remove {
      visits := rest;
    } else {
      visits := [x] + rest;
      assert visits[1..] == rest && r.store.list[i..][1..] == r.store.list[i + 1..];
      ConcatAssoc(Select(s.log, Visits), [x], rest);
    }
  }

  // ----- Readiness --------------------------------------------------------------------------

  function FdsOf(f: FdSets, kind: Kind): set<int> {
    match kind
    case ErrorReady => f.er
    case ReadReady => f.rd
    case WriteReady => f.wr
    case TimedOut => {}
  }

  /** Readiness of one (descriptor, direction) over a walk: `watchers` are the visited tasks that watch
      it, `handed` the tasks whose ready-callback ran.  At most one callback runs, and it is that of the
      first watcher; for reads and errors it does run whenever the descriptor is ready and watched, and for
      writes if the first watcher does not watch reads as well. */
  ghost predicate HandedOnce(kind: Kind, ready: bool, watchers: seq<nat>, handed: seq<nat>) {
    && (handed == [] || (ready && watchers != [] && handed == [watchers[0]]))
    && (kind != WriteReady && ready && watchers != [] ==> handed != [])
  }

  ghost predicate Handout(s: State, r: State, kind: Kind, fd: int, ready: bool, watchers: seq<nat>, handed: seq<nat>) {
    && Select(r.log, Watches(kind, fd)) == Select(s.log, Watches(kind, fd)) + watchers
    && Select(r.log, Handed(kind, fd)) == Select(s.log, Handed(kind, fd)) + handed
    && HandedOnce(kind, ready, watchers, handed)
    && (forall j :: 0 <= j < |watchers| ==> WatcherIn(r.store, watchers[j], kind, fd))
    && (ready && watchers != [] && !r.store.tasks[watchers[0]].opts.read ==> handed != [])
  }

  ghost predicate WatcherIn(q: Store, x: nat, kind: Kind, fd: int) {
    x in q.list && x < |q.tasks| && q.tasks[x].fd == fd && Watching(q.tasks[x], kind)
  }

  lemma {:induction false} ReadinessHandedOnce(env: Env, s: State, i: nat, f: FdSets, kind: Kind, fd: int)
    returns (watchers: seq<nat>, handed: seq<nat>)
    requires Inv(s.store) && i <= |s.store.list| && fd >= 0
    ensures Handout(s, Dispatch(env, s, i, f), kind, fd, fd in FdsOf(f, kind), watchers, handed)
    decreases |s.store.tasks| - i
  {
    hide Inv, Select, Visit, Grows;
    if i == |s.store.list| || s.stopped {
      watchers, handed := [], [];
    } else {
      ListedTask(s, i);
      ListFits(s.store);
      VisitSelect(env, s, i, f, Watches(kind, fd));
      VisitSelect(env, s, i, f, Handed(kind, fd));
      var (s1, f1) := Visit(env, s, i, f);
      PositionStays(s, s1, i);
      var w, h := ReadinessHandedOnce(env, s1, i + 1, f1, kind, fd);
      var x := s.store.list[i];
      var t := s.store.tasks[x];
      var serves := !t.opts.remove && t.fd > INVALID_FD &&
        Serves(env, t, f, TimedOutAt(env, s.ticks, t), s.calls, Handed(kind, fd));
      var watches := !t.opts.remove && Matches(Visited(x, t), Watches(kind, fd));
      watchers, handed := if watches then [x] + w else w, if serves then [x] + h else h;
      assert watches <==> !t.opts.remove && t.fd == fd && Watching(t, kind);
      assert serves ==> watches && fd in FdsOf(f, kind);
      assert watches && (kind != WriteReady || !t.opts.read) && fd in FdsOf(f, kind) ==> serves;
      PositionStays(s, Dispatch(env, s, i, f), i);
      assert watches ==> WatcherIn(Dispatch(env, s, i, f).store, x, kind, fd);
      assert fd in FdsOf(f1, kind) <==> fd in FdsOf(f, kind) && !watches;
      ConcatAssoc(Select(s.log, Watches(kind, fd)), [x], w);
      ConcatAssoc(Select(s.log, Handed(kind, fd)), [x], h);
    }
  }

  // ----- Who is seen ------------------------------------------------------------------------

  ghost predicate Adds(before: seq<nat>, after: seq<nat>, x: nat) {
    before <= after && x in after[|before|..]
  }

  lemma {:induction false} SelectPrefix(log: seq<Event>, log': seq<Event>, q: Query)
    requires log <= log'
    ensures Select(log, q) <= Select(log', q)
    decreases |log'|
  {
    if log == log' {
    } else {
      var init, e := log'[..|log'| - 1], log'[|log'| - 1];
      assert log' == init + [e];
      SelectPrefix(log, init, q);
      SelectSnoc(init, e, q);
    }
  }

  /** A walk sees every task that watches a descriptor and keeps clear of REMOVE. */
  lemma {:induction false} DispatchSees(env: Env, s: State, i: nat, f: FdSets, kind: Kind, p: nat)
    requires Inv(s.store) && i <= p < |s.store.list| && s.store.list[p] < |s.store.tasks|
    requires var t := s.store.tasks[s.store.list[p]]; Watching(t, kind) && t.fd > INVALID_FD
    requires var r := Dispatch(env, s, i, f);
      && !r.stopped && |r.store.tasks| == |s.store.tasks| && !r.store.tasks[s.store.list[p]].opts.remove
    ensures var x := s.store.list[p]; var q := Watches(kind, s.store.tasks[x].fd);
      Adds(Select(s.log, q), Select(Dispatch(env, s, i, f).log, q), x)
    decreases p - i
  {
    hide Inv, Select, Visit, LossesLogged, Extends;
    ListedTask(s, i);
    ListFits(s.store);
    var x := s.store.list[p];
    var q, r := Watches(kind, s.store.tasks[x].fd), Dispatch(env, s, i, f);
    var (s1, f1) := Visit(env, s, i, f);
    PositionStays(s, s1, p);
    PositionStays(s, r, p);
    SelectPrefix(s.log, s1.log, q);
    SelectPrefix(s1.log, r.log, q);
    if i == p {
      VisitSelect(env, s, i, f, q);
      assert Select(s1.log, q) == Select(s.log, q) + [x];
      assert Select(s1.log, q)[|Select(s.log, q)|] == x;
    } else {
      DispatchSees(env, s1, i + 1, f1, kind, p);
    }
  }
}
