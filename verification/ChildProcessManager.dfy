/** The child-process manager: a ring of monitored children behind a head node, reaped from a timer. */
module ChildProcessManager {
  import opened Sequences
  import opened CircularList
  import opened Deadlines
  import opened SchedulerModel
  import opened IoScheduler
  import opened SchedulerCalls
  import opened MonitorTimer

  /** A child record; `id` is its address. */
  datatype Child = Child(id: nat, pid: int, hasOnExit: bool)

  /** What a node of the ring stands for. */
  datatype Monitor = Head | Monitored(child: Child, owned: bool)

  /** A registration: of a caller's record, or of a process for which the manager allocates one at `id`. */
  datatype Request = MonitorChild(child: Child) | MonitorPid(pid: int, id: nat, hasOnExit: bool)

  /** One answer of `waitpid`, and the registrations that an exit callback running for it makes. */
  datatype Wait = Wait(pid: int, status: int, requests: seq<Request>)

  /** `Reaped` and `Dropped` are the two ways in which the node of a monitor is given up. */
  datatype Event =
    | Accepted(m: Monitor)
    | Exited(child: Child, status: int)
    | Freed(child: Child)
    | Reaped(m: Monitor)
    | Dropped(m: Monitor)

  // ----- Specification ----------------------------------------------------------------------

  /** All nodes behind the head monitor a child. */
  predicate AllMonitored(s: seq<Monitor>) {
    forall k :: 0 <= k < |s| ==> s[k].Monitored?
  }

  /** The first monitor of a process, or the length when there is none. */
  function Position(s: seq<Monitor>, pid: int): (k: nat)
    requires AllMonitored(s)
    ensures k <= |s| && (k < |s| ==> s[k].child.pid == pid)
    ensures forall j :: 0 <= j < k ==> s[j].child.pid != pid
  {
    if s == [] || s[0].child.pid == pid then 0 else 1 + Position(s[1..], pid)
  }

  datatype Outcome = Outcome(monitors: seq<Monitor>, events: seq<Event>)

  function Register(s: seq<Monitor>, r: Request): (o: (Outcome, bool))
    requires AllMonitored(s)
    ensures AllMonitored(o.0.monitors)
  {
    match r
    case MonitorChild(child) =>
      var k := Position(s, child.pid);
      if k < |s| then (Outcome(s, []), s[k].child == child) else (Accept(s, Monitored(child, false)), true)
    case MonitorPid(pid, id, hasOnExit) =>
      if pid <= 1 || Position(s, pid) < |s| then (Outcome(s, []), false)
      else (Accept(s, Monitored(Child(id, pid, hasOnExit), true)), true)
  }

  function Accept(s: seq<Monitor>, m: Monitor): Outcome {
    Outcome(s + [m], [Accepted(m)])
  }

  function RegisterAll(s: seq<Monitor>, rs: seq<Request>): (o: Outcome)
    requires AllMonitored(s)
    ensures AllMonitored(o.monitors)
    decreases |rs|
  {
    if rs == [] then Outcome(s, [])
    else
      var first := Register(s, rs[0]).0;
      var rest := RegisterAll(first.monitors, rs[1..]);
      Outcome(rest.monitors, first.events + rest.events)
  }

  /** What giving up a monitor frees, besides its node. */
  function Destroyed(m: Monitor, last: Event): seq<Event>
    requires m.Monitored?
  {
    (if m.owned then [Freed(m.child)] else []) + [last]
  }

  function Reap(s: seq<Monitor>, w: Wait): (o: Outcome)
    requires AllMonitored(s)
    ensures AllMonitored(o.monitors)
  {
    var k := Position(s, w.pid);
    if w.pid <= 1 || k == |s| then Outcome(s, [])
    else
      var m, rest := s[k], Without(s, k);
      if !m.child.hasOnExit then Outcome(rest, Destroyed(m, Reaped(m)))
      else
        var during := RegisterAll(rest, w.requests);
        Outcome(during.monitors, [Exited(m.child, w.status)] + during.events + Destroyed(m, Reaped(m)))
  }

  /** One run of the timer's callback: it reaps until `waitpid` has no exited child to report. */
  function ReapAll(s: seq<Monitor>, ws: seq<Wait>): (o: Outcome)
    requires AllMonitored(s)
    ensures AllMonitored(o.monitors)
    decreases |ws|
  {
    if ws == [] || ws[0].pid <= 0 then Outcome(s, [])
    else
      var first := Reap(s, ws[0]);
      var rest := ReapAll(first.monitors, ws[1..]);
      Outcome(rest.monitors, first.events + rest.events)
  }

  function DestroyAll(s: seq<Monitor>): seq<Event>
    requires AllMonitored(s)
  {
    if s == [] then [] else Destroyed(s[0], Dropped(s[0])) + DestroyAll(s[1..])
  }

  datatype Op = Ask(request: Request) | Tick(waits: seq<Wait>)

  function Apply(s: seq<Monitor>, op: Op): (o: Outcome)
    requires AllMonitored(s)
    ensures AllMonitored(o.monitors)
  {
    match op
    case Ask(r) => Register(s, r).0
    case Tick(ws) => ReapAll(s, ws)
  }

  function Run(s: seq<Monitor>, ops: seq<Op>): (o: Outcome)
    requires AllMonitored(s)
    ensures AllMonitored(o.monitors)
    decreases |ops|
  {
    if ops == [] then Outcome(s, [])
    else
      var first := Apply(s, ops[0]);
      var rest := Run(first.monitors, ops[1..]);
      Outcome(rest.monitors, first.events + rest.events)
  }

  // ----- Distinct processes -----------------------------------------------------------------

  ghost predicate PidsApart(s: seq<Monitor>) {
    AllMonitored(s) && forall j, k :: 0 <= j < k < |s| ==> s[j].child.pid != s[k].child.pid
  }

  lemma RegisterApart(s: seq<Monitor>, r: Request)
    requires PidsApart(s)
    ensures PidsApart(Register(s, r).0.monitors)
  {
  }

  lemma {:induction false} RegisterAllApart(s: seq<Monitor>, rs: seq<Request>)
    requires PidsApart(s)
    ensures PidsApart(RegisterAll(s, rs).monitors)
    decreases |rs|
  {
    if rs != [] {
      RegisterApart(s, rs[0]);
      RegisterAllApart(Register(s, rs[0]).0.monitors, rs[1..]);
    }
  }

  lemma ReapApart(s: seq<Monitor>, w: Wait)
    requires PidsApart(s)
    ensures PidsApart(Reap(s, w).monitors)
  {
    var k := Position(s, w.pid);
    if w.pid > 1 && k < |s| {
      assert PidsApart(Without(s, k));
      RegisterAllApart(Without(s, k), w.requests);
    }
  }

  lemma {:induction false} ReapAllApart(s: seq<Monitor>, ws: seq<Wait>)
    requires PidsApart(s)
    ensures PidsApart(ReapAll(s, ws).monitors)
    decreases |ws|
  {
    hide Reap;
    if ws != [] && ws[0].pid > 0 {
      ReapApart(s, ws[0]);
      ReapAllApart(Reap(s, ws[0]).monitors, ws[1..]);
    }
  }

  /** Over any registrations and reaps, including those made by exit callbacks, no process is ever
      monitored twice. */
  lemma {:induction false} RunApart(s: seq<Monitor>, ops: seq<Op>)
    requires PidsApart(s)
    ensures PidsApart(Run(s, ops).monitors)
    decreases |ops|
  {
    if ops != [] {
      match ops[0] {
        case Ask(r) => RegisterApart(s, r);
        case Tick(ws) => ReapAllApart(s, ws);
      }
      RunApart(Apply(s, ops[0]).monitors, ops[1..]);
    }
  }

  lemma PositionIs(s: seq<Monitor>, k: nat)
    requires PidsApart(s) && k < |s|
    ensures Position(s, s[k].child.pid) == k
  {
  }

  /** An exited process that is monitored runs its exit callback exactly once, if it has one, with its
      status and before anything is freed; then its record is freed exactly when the manager owns it.
      Its monitor has left the ring before the callback runs, and every other monitor stays.  A process
      number of 1 or below is never found, whatever is monitored. */
  lemma ReapExactly(s: seq<Monitor>, w: Wait, k: nat)
    requires PidsApart(s) && k < |s| && s[k].child.pid == w.pid
    ensures var m, o := s[k], Reap(s, w);
      var during := if m.child.hasOnExit then RegisterAll(Without(s, k), w.requests) else Outcome(Without(s, k), []);
      if w.pid > 1 then
        && o.monitors == during.monitors
        && o.events == (if m.child.hasOnExit then [Exited(m.child, w.status)] else []) + during.events
                       + (if m.owned then [Freed(m.child)] else []) + [Reaped(m)]
      else o == Outcome(s, [])
  {
    PositionIs(s, k);
  }

  /** An exited process that nobody monitors changes nothing. */
  lemma ReapUnknown(s: seq<Monitor>, w: Wait)
    requires AllMonitored(s) && forall k :: 0 <= k < |s| ==> s[k].child.pid != w.pid
    ensures Reap(s, w) == Outcome(s, [])
  {
  }

  /** Somebody monitors the process. */
  predicate Watched(s: seq<Monitor>, pid: int) {
    exists k :: 0 <= k < |s| && s[k].Monitored? && s[k].child.pid == pid
  }

  lemma WatchedAt(s: seq<Monitor>, pid: int)
    requires AllMonitored(s)
    ensures Watched(s, pid) <==> Position(s, pid) < |s|
  {
    if Watched(s, pid) {
      var k :| 0 <= k < |s| && s[k].Monitored? && s[k].child.pid == pid;
      assert k >= Position(s, pid);
    }
  }

  /** Monitoring a process succeeds exactly for a number above 1 that nobody monitors yet.  The new monitor
      comes behind all others, refers to a record allocated for it, and is owned. */
  lemma MonitorPidAnswers(s: seq<Monitor>, pid: int, id: nat, hasOnExit: bool)
    requires AllMonitored(s)
    ensures var (o, ok) := Register(s, MonitorPid(pid, id, hasOnExit));
      && (ok <==> pid > 1 && !Watched(s, pid))
      && if ok then
           && |o.monitors| == |s| + 1 && (forall k :: 0 <= k < |s| ==> o.monitors[k] == s[k])
           && o.monitors[|s|] == Monitored(Child(id, pid, hasOnExit), true) && o.events == [Accepted(o.monitors[|s|])]
         else o == Outcome(s, [])
  {
    WatchedAt(s, pid);
  }

  /** Monitoring a record succeeds exactly when nobody monitors its process, or that monitor is of this very
      record; only in the first case a monitor is added, behind all others and not owned. */
  lemma MonitorChildAnswers(s: seq<Monitor>, child: Child)
    requires PidsApart(s)
    ensures var (o, ok) := Register(s, MonitorChild(child));
      && (ok <==> forall k :: 0 <= k < |s| && s[k].child.pid == child.pid ==> s[k].child == child)
      && (ok ==> exists k :: 0 <= k < |o.monitors| && o.monitors[k].child == child)
      && if Watched(s, child.pid) then o == Outcome(s, [])
         else
           && |o.monitors| == |s| + 1 && (forall k :: 0 <= k < |s| ==> o.monitors[k] == s[k])
           && o.monitors[|s|] == Monitored(child, false) && o.events == [Accepted(o.monitors[|s|])]
  {
    WatchedAt(s, child.pid);
    var p := Position(s, child.pid);
    if p < |s| {
      assert s[p].child.pid == child.pid;
      assert forall k :: 0 <= k < |s| && s[k].child.pid == child.pid ==> k == p;
    } else {
      assert Register(s, MonitorChild(child)).0.monitors[|s|].child == child;
    }
  }

  /** How many answers of `waitpid` one run of the timer uses: it stops at the first that reports no child. */
  function Reported(ws: seq<Wait>): (n: nat)
    ensures n <= |ws| && (forall i :: 0 <= i < n ==> ws[i].pid > 0) && (n < |ws| ==> ws[n].pid <= 0)
  {
    if ws == [] || ws[0].pid <= 0 then 0 else 1 + Reported(ws[1..])
  }

  /** Among the first `n` answers one is about the process, and the number is one that is looked for. */
  predicate ReportedIn(ws: seq<Wait>, n: nat, pid: int)
    requires n <= |ws|
  {
    pid > 1 && exists i :: 0 <= i < n && ws[i].pid == pid
  }

  lemma ReapQuietly(s: seq<Monitor>, w: Wait, m: Monitor)
    requires PidsApart(s) && w.requests == []
    ensures m in Reap(s, w).monitors <==> m in s && !(w.pid > 1 && m.child.pid == w.pid)
  {
    WatchedAt(s, w.pid);
    var k := Position(s, w.pid);
    if w.pid > 1 && k < |s| {
      var rest := Without(s, k);
      assert Reap(s, w).monitors == rest;
      if m in s && m.child.pid != w.pid {
        var j :| 0 <= j < |s| && s[j] == m;
        assert rest[if j < k then j else j - 1] == m;
      }
    }
  }

  /** When exit callbacks register nothing, one run of the timer takes exactly the monitors of the processes off
      the ring that `waitpid` reported before it had nothing more to report. */
  lemma {:induction false} ReapAllExactly(s: seq<Monitor>, ws: seq<Wait>, m: Monitor)
    requires PidsApart(s) && m.Monitored? && forall i :: 0 <= i < |ws| ==> ws[i].requests == []
    ensures m in ReapAll(s, ws).monitors <==> m in s && !ReportedIn(ws, Reported(ws), m.child.pid)
    decreases |ws|
  {
    if ws != [] && ws[0].pid > 0 {
      ReapApart(s, ws[0]);
      ReapQuietly(s, ws[0], m);
      ReapAllExactly(Reap(s, ws[0]).monitors, ws[1..], m);
      var n := Reported(ws);
      assert ReportedIn(ws, n, m.child.pid)
        <==> (m.child.pid > 1 && ws[0].pid == m.child.pid) || ReportedIn(ws[1..], n - 1, m.child.pid) by {
        if i :| 0 <= i < n && ws[i].pid == m.child.pid { assert i > 0 ==> ws[1..][i - 1].pid == m.child.pid; }
        if i :| 0 <= i < n - 1 && ws[1..][i].pid == m.child.pid { assert ws[i + 1].pid == m.child.pid; }
      }
    }
  }

  /** Answers are handled one after the other, and none behind one that reports no child. */
  lemma {:induction false} ReapAllInTurn(s: seq<Monitor>, a: seq<Wait>, b: seq<Wait>)
    requires AllMonitored(s) && forall i :: 0 <= i < |a| ==> a[i].pid > 0
    ensures var first := ReapAll(s, a); var rest := ReapAll(first.monitors, b);
      ReapAll(s, a + b) == Outcome(rest.monitors, first.events + rest.events)
    ensures b != [] && b[0].pid <= 0 ==> ReapAll(s, a + b) == ReapAll(s, a)
    decreases |a|
  {
    if a == [] {
      assert a + b == b;
    } else {
      assert (a + b)[1..] == a[1..] + b;
      var o := Reap(s, a[0]);
      ReapAllInTurn(o.monitors, a[1..], b);
      var later := ReapAll(o.monitors, a[1..]);
      ConcatAssoc(o.events, later.events, ReapAll(later.monitors, b).events);
    }
  }

  // ----- Conservation -----------------------------------------------------------------------

  function Count(events: seq<Event>, e: Event): nat {
    if events == [] then 0 else (if events[0] == e then 1 else 0) + Count(events[1..], e)
  }

  /** How often the exit callback of a record ran. */
  function Exits(events: seq<Event>, child: Child): nat {
    if events == [] then 0
    else (if events[0].Exited? && events[0].child == child then 1 else 0) + Exits(events[1..], child)
  }

  lemma {:induction false} CountConcat(a: seq<Event>, b: seq<Event>, e: Event)
    ensures Count(a + b, e) == Count(a, e) + Count(b, e)
  {
    if a == [] {
      assert a + b == b;
    } else {
      CountConcat(a[1..], b, e);
      assert (a + b)[1..] == a[1..] + b;
    }
  }

  lemma {:induction false} ExitsConcat(a: seq<Event>, b: seq<Event>, child: Child)
    ensures Exits(a + b, child) == Exits(a, child) + Exits(b, child)
  {
    if a == [] {
      assert a + b == b;
    } else {
      ExitsConcat(a[1..], b, child);
      assert (a + b)[1..] == a[1..] + b;
    }
  }

  /** How much of each kind of event concerns the record `child`, once not owned and once owned. */
  datatype Tally = Tally(
    accepted: nat, acceptedOwned: nat, exits: nat, frees: nat,
    reaped: nat, reapedOwned: nat, dropped: nat, droppedOwned: nat)

  function TallyOf(events: seq<Event>, child: Child): Tally {
    Tally(Count(events, Accepted(Monitored(child, false))), Count(events, Accepted(Monitored(child, true))),
          Exits(events, child), Count(events, Freed(child)),
          Count(events, Reaped(Monitored(child, false))), Count(events, Reaped(Monitored(child, true))),
          Count(events, Dropped(Monitored(child, false))), Count(events, Dropped(Monitored(child, true))))
  }

  function Plus(x: Tally, y: Tally): Tally {
    Tally(x.accepted + y.accepted, x.acceptedOwned + y.acceptedOwned, x.exits + y.exits, x.frees + y.frees,
          x.reaped + y.reaped, x.reapedOwned + y.reapedOwned, x.dropped + y.dropped, x.droppedOwned + y.droppedOwned)
  }

  lemma TallyConcat(a: seq<Event>, b: seq<Event>, child: Child)
    ensures TallyOf(a + b, child) == Plus(TallyOf(a, child), TallyOf(b, child))
  {
    hide Count, Exits;
    forall e { CountConcat(a, b, e); }
    ExitsConcat(a, b, child);
  }

  /** From `s` to `s'`: monitors accepted are still there or were given up, by a reap or by the end of the
      manager; exit callbacks ran once per reap of a record that has one; records were freed once per
      monitor given up that owned its record. */
  ghost predicate Balanced(s: seq<Monitor>, s': seq<Monitor>, t: Tally, child: Child) {
    var lent, own := Monitored(child, false), Monitored(child, true);
    && multiset(s)[lent] + t.accepted == multiset(s')[lent] + t.reaped + t.dropped
    && multiset(s)[own] + t.acceptedOwned == multiset(s')[own] + t.reapedOwned + t.droppedOwned
    && t.exits == (if child.hasOnExit then t.reaped + t.reapedOwned else 0)
    && t.frees == t.reapedOwned + t.droppedOwned
  }

  lemma BalancedConcat(s: seq<Monitor>, m: seq<Monitor>, r: seq<Monitor>, a: seq<Event>, b: seq<Event>, child: Child)
    requires Balanced(s, m, TallyOf(a, child), child) && Balanced(m, r, TallyOf(b, child), child)
    ensures Balanced(s, r, TallyOf(a + b, child), child)
  {
    hide TallyOf;
    TallyConcat(a, b, child);
  }

  /** The tally of a single event. */
  function One(e: Event, child: Child): Tally {
    Tally(if e == Accepted(Monitored(child, false)) then 1 else 0,
          if e == Accepted(Monitored(child, true)) then 1 else 0,
          if e.Exited? && e.child == child then 1 else 0, if e == Freed(child) then 1 else 0,
          if e == Reaped(Monitored(child, false)) then 1 else 0, if e == Reaped(Monitored(child, true)) then 1 else 0,
          if e == Dropped(Monitored(child, false)) then 1 else 0, if e == Dropped(Monitored(child, true)) then 1 else 0)
  }

  lemma CountOne(e: Event, x: Event, child: Child)
    ensures Count([e], x) == (if e == x then 1 else 0)
    ensures Exits([e], child) == (if e.Exited? && e.child == child then 1 else 0)
  {
    assert [e][1..] == [];
  }

  lemma TallyOne(e: Event, child: Child)
    ensures TallyOf([e], child) == One(e, child)
  {
    hide Count, Exits;
    forall x { CountOne(e, x, child); }
  }

  lemma RegisterBalanced(s: seq<Monitor>, r: Request, child: Child)
    requires AllMonitored(s)
    ensures var o := Register(s, r).0; Balanced(s, o.monitors, TallyOf(o.events, child), child)
  {
    var o := Register(s, r).0;
    if o.events != [] { TallyOne(o.events[0], child); }
  }

  /** Giving up a monitor: one record fewer, and freed when the manager owns it. */
  lemma DestroyedTally(m: Monitor, last: Event, child: Child)
    requires m.Monitored? && (last == Reaped(m) || last == Dropped(m))
    ensures var t := TallyOf(Destroyed(m, last), child);
      && t.accepted == t.acceptedOwned == t.exits == 0
      && t.frees == (if m == Monitored(child, true) then 1 else 0)
      && t.reaped == (if last == Reaped(Monitored(child, false)) then 1 else 0)
      && t.reapedOwned == (if last == Reaped(Monitored(child, true)) then 1 else 0)
      && t.dropped == (if last == Dropped(Monitored(child, false)) then 1 else 0)
      && t.droppedOwned == (if last == Dropped(Monitored(child, true)) then 1 else 0)
  {
    hide TallyOf;
    var freed := if m.owned then [Freed(m.child)] else [];
    TallyConcat(freed, [last], child);
    TallyOne(last, child);
    TallyOne(Freed(m.child), child);
    NothingTally(child);
  }

  lemma NothingTally(child: Child)
    ensures TallyOf([], child) == Tally(0, 0, 0, 0, 0, 0, 0, 0)
  {
  }

  lemma {:induction false} RegisterAllBalanced(s: seq<Monitor>, rs: seq<Request>, child: Child)
    requires AllMonitored(s)
    ensures var o := RegisterAll(s, rs); Balanced(s, o.monitors, TallyOf(o.events, child), child)
    decreases |rs|
  {
    hide Balanced, TallyOf, Register;
    if rs == [] {
      NothingBalanced(s, child);
    } else {
      var first := Register(s, rs[0]).0;
      var rest := RegisterAll(first.monitors, rs[1..]);
      RegisterBalanced(s, rs[0], child);
      RegisterAllBalanced(first.monitors, rs[1..], child);
      BalancedConcat(s, first.monitors, rest.monitors, first.events, rest.events, child);
    }
  }

  lemma NothingBalanced(s: seq<Monitor>, child: Child)
    ensures Balanced(s, s, TallyOf([], child), child)
  {
  }

  lemma WithoutCounts(s: seq<Monitor>, k: nat)
    requires k < |s|
    ensures multiset(s) == multiset(Without(s, k)) + multiset{s[k]}
  {
    assert s == s[..k] + [s[k]] + s[k + 1..];
  }

  lemma ReapSums(s: seq<Monitor>, k: nat, s': seq<Monitor>, during: Tally, status: int, child: Child)
    requires k < |s| && s[k].Monitored? && Balanced(Without(s, k), s', during, child)
    ensures var m := s[k]; var gone := TallyOf(Destroyed(m, Reaped(m)), child);
      && (m.child.hasOnExit ==> Balanced(s, s', Plus(Plus(One(Exited(m.child, status), child), during), gone), child))
      && (!m.child.hasOnExit ==> Balanced(s, s', Plus(during, gone), child))
  {
    hide TallyOf, Destroyed, Without;
    DestroyedTally(s[k], Reaped(s[k]), child);
    WithoutCounts(s, k);
  }

  lemma ReapBalanced(s: seq<Monitor>, w: Wait, child: Child)
    requires AllMonitored(s)
    ensures var o := Reap(s, w); Balanced(s, o.monitors, TallyOf(o.events, child), child)
  {
    hide TallyOf, Destroyed, Register, RegisterAll, Plus, One, Balanced;
    NothingBalanced(s, child);
    var k := Position(s, w.pid);
    if w.pid > 1 && k < |s| {
      var m, rest := s[k], Without(s, k);
      var gone := Destroyed(m, Reaped(m));
      if m.child.hasOnExit {
        var during, exited := RegisterAll(rest, w.requests), [Exited(m.child, w.status)];
        RegisterAllBalanced(rest, w.requests, child);
        TallyOne(exited[0], child);
        TallyConcat(exited, during.events, child);
        TallyConcat(exited + during.events, gone, child);
        ReapSums(s, k, during.monitors, TallyOf(during.events, child), w.status, child);
      } else {
        NothingBalanced(rest, child);
        TallyConcat([], gone, child);
        assert [] + gone == gone;
        ReapSums(s, k, rest, TallyOf([], child), w.status, child);
      }
    }
  }

  lemma {:induction false} ReapAllBalanced(s: seq<Monitor>, ws: seq<Wait>, child: Child)
    requires AllMonitored(s)
    ensures var o := ReapAll(s, ws); Balanced(s, o.monitors, TallyOf(o.events, child), child)
    decreases |ws|
  {
    hide Balanced, TallyOf, Reap;
    if ws == [] || ws[0].pid <= 0 {
      NothingBalanced(s, child);
    } else {
      var first := Reap(s, ws[0]);
      var rest := ReapAll(first.monitors, ws[1..]);
      ReapBalanced(s, ws[0], child);
      ReapAllBalanced(first.monitors, ws[1..], child);
      BalancedConcat(s, first.monitors, rest.monitors, first.events, rest.events, child);
    }
  }

  lemma {:induction false} RunBalanced(s: seq<Monitor>, ops: seq<Op>, child: Child)
    requires AllMonitored(s)
    ensures var o := Run(s, ops); Balanced(s, o.monitors, TallyOf(o.events, child), child)
    decreases |ops|
  {
    hide Balanced, TallyOf, Register, ReapAll;
    if ops == [] {
      NothingBalanced(s, child);
    } else {
      match ops[0] {
        case Ask(r) => RegisterBalanced(s, r, child);
        case Tick(ws) => ReapAllBalanced(s, ws, child);
      }
      var first := Apply(s, ops[0]);
      var rest := Run(first.monitors, ops[1..]);
      RunBalanced(first.monitors, ops[1..], child);
      BalancedConcat(s, first.monitors, rest.monitors, first.events, rest.events, child);
    }
  }

  lemma {:induction false} DestroyBalanced(s: seq<Monitor>, child: Child)
    requires AllMonitored(s)
    ensures Balanced(s, [], TallyOf(DestroyAll(s), child), child)
  {
    if s != [] {
      DestroyBalanced(s[1..], child);
      var first := Destroyed(s[0], Dropped(s[0]));
      assert s == [s[0]] + s[1..];
      hide TallyOf, Destroyed;
      DestroyedTally(s[0], Dropped(s[0]), child);
      BalancedConcat(s, s[1..], [], first, DestroyAll(s[1..]), child);
    }
  }

  /** The whole life of a manager, from empty through any operations to its end: every registration
      that was accepted was given up exactly once, the exit callback of a record ran exactly as often as
      it was reaped, and the manager freed a record exactly as often as it accepted it as its own. */
  lemma WholeLife(ops: seq<Op>, child: Child)
    ensures var o := Run([], ops); var t := TallyOf(o.events + DestroyAll(o.monitors), child);
      && t.accepted == t.reaped + t.dropped && t.acceptedOwned == t.reapedOwned + t.droppedOwned
      && t.exits == (if child.hasOnExit then t.reaped + t.reapedOwned else 0)
      && t.frees == t.acceptedOwned
  {
    hide TallyOf;
    var o := Run([], ops);
    RunBalanced([], ops, child);
    DestroyBalanced(o.monitors, child);
    BalancedConcat([], o.monitors, [], o.events, DestroyAll(o.monitors), child);
  }

  // ----- Freed records ----------------------------------------------------------------------

  function RecordOf(r: Request): Child {
    match r
    case MonitorChild(child) => child
    case MonitorPid(pid, id, hasOnExit) => Child(id, pid, hasOnExit)
  }

  /** The first request about a process, or their number when there is none. */
  function FirstFor(rs: seq<Request>, pid: int): (i: nat)
    ensures i <= |rs| && (i < |rs| ==> RecordOf(rs[i]).pid == pid)
  {
    if rs == [] || RecordOf(rs[0]).pid == pid then 0 else 1 + FirstFor(rs[1..], pid)
  }

  lemma {:induction false} RegisterAllAppends(s: seq<Monitor>, rs: seq<Request>)
    requires AllMonitored(s)
    ensures s <= RegisterAll(s, rs).monitors
    decreases |rs|
  {
    if rs != [] {
      RegisterAllAppends(Register(s, rs[0]).0.monitors, rs[1..]);
    }
  }

  /** Of several requests about a process that nobody monitors, the first decides. */
  lemma {:induction false} FirstRequestDecides(s: seq<Monitor>, rs: seq<Request>, pid: int)
    requires PidsApart(s) && pid > 1 && Position(s, pid) == |s|
    ensures var m, i := RegisterAll(s, rs).monitors, FirstFor(rs, pid);
      var p := Position(m, pid);
      if i < |rs| then p < |m| && m[p].child == RecordOf(rs[i]) else p == |m|
    decreases |rs|
  {
    if rs != [] {
      var s1 := Register(s, rs[0]).0.monitors;
      RegisterApart(s, rs[0]);
      if RecordOf(rs[0]).pid == pid {
        RegisterAllAppends(s1, rs[1..]);
        PositionAt(RegisterAll(s1, rs[1..]).monitors, |s|, pid);
      } else {
        assert Position(s1, pid) == |s1| by { NoPosition(s1, pid); }
        FirstRequestDecides(s1, rs[1..], pid);
      }
    }
  }

  lemma NoPosition(s: seq<Monitor>, pid: int)
    requires AllMonitored(s) && forall k :: 0 <= k < |s| ==> s[k].child.pid != pid
    ensures Position(s, pid) == |s|
  {
  }

  /** Reaping a process whose record the manager owns frees the record; a monitor of it is left on the ring
      if and only if the exit callback's first request about that process names that very record. */
  lemma FreedStaysIff(s: seq<Monitor>, w: Wait, k: nat)
    requires PidsApart(s) && k < |s| && s[k].child.pid == w.pid > 1 && s[k].owned
    ensures var c, o, i := s[k].child, Reap(s, w), FirstFor(w.requests, w.pid);
      && Freed(c) in o.events
      && ((exists j :: 0 <= j < |o.monitors| && o.monitors[j].child == c)
          <==> c.hasOnExit && i < |w.requests| && RecordOf(w.requests[i]) == c)
  {
    PositionIs(s, k);
    var c, rest, o := s[k].child, Without(s, k), Reap(s, w);
    assert PidsApart(rest);
    NoPosition(rest, w.pid);
    assert Freed(c) in Destroyed(s[k], Reaped(s[k])) by { assert Destroyed(s[k], Reaped(s[k]))[0] == Freed(c); }
    if c.hasOnExit {
      FirstRequestDecides(rest, w.requests, w.pid);
      RegisterAllApart(rest, w.requests);
    }
    if j :| 0 <= j < |o.monitors| && o.monitors[j].child == c {
      if c.hasOnExit { PositionIs(o.monitors, j); }
    }
  }

  /** A concrete case: the exit callback registers the record it was called for. */
  lemma FreedStays(c: Child, status: int)
    requires c.pid > 1 && c.hasOnExit
    ensures var o := Reap([Monitored(c, true)], Wait(c.pid, status, [MonitorChild(c)]));
      o.monitors == [Monitored(c, false)] && Freed(c) in o.events
  {
    var s, w := [Monitored(c, true)], Wait(c.pid, status, [MonitorChild(c)]);
    assert Without(s, 0) == [] && w.requests[1..] == [];
    assert RegisterAll([], w.requests).monitors == [Monitored(c, false)];
    FreedStaysIff(s, w, 0);
  }

  function FreeNow(e: Event, free: set<nat>): set<nat> {
    match e
    case Freed(c) => free + {c.id}
    case Accepted(m) => if m.Monitored? && m.owned then free - {m.child.id} else free
    case _ => free
  }

  /** The addresses that are free after these events, given those that were free before. */
  function FreeAfter(events: seq<Event>, free: set<nat>): set<nat> {
    if events == [] then free else FreeAfter(events[1..], FreeNow(events[0], free))
  }

  lemma {:induction false} FreeConcat(a: seq<Event>, b: seq<Event>, free: set<nat>)
    ensures FreeAfter(a + b, free) == FreeAfter(b, FreeAfter(a, free))
    decreases |a|
  {
    if a == [] {
      assert a + b == b;
    } else {
      assert (a + b)[1..] == a[1..] + b;
      FreeConcat(a[1..], b, FreeNow(a[0], free));
    }
  }

  /** Every monitor refers to a record of its own that is not freed. */
  ghost predicate Clean(s: seq<Monitor>, free: set<nat>) {
    && PidsApart(s)
    && (forall j, k :: 0 <= j < k < |s| ==> s[j].child.id != s[k].child.id)
    && forall k :: 0 <= k < |s| ==> s[k].child.id !in free
  }

  /** What registering takes for granted: a record that is not freed, and told apart by its address; an
      allocator that does not hand out the address of a monitored record. */
  predicate Proper(s: seq<Monitor>, free: set<nat>, r: Request)
    requires AllMonitored(s)
  {
    match r
    case MonitorChild(c) => c.id !in free && forall k :: 0 <= k < |s| && s[k].child.id == c.id ==> s[k].child == c
    case MonitorPid(_, id, _) => forall k :: 0 <= k < |s| ==> s[k].child.id != id
  }

  predicate ProperAll(s: seq<Monitor>, free: set<nat>, rs: seq<Request>)
    requires AllMonitored(s)
    decreases |rs|
  {
    rs == [] || (
      var o := Register(s, rs[0]).0;
      Proper(s, free, rs[0]) && ProperAll(o.monitors, FreeAfter(o.events, free), rs[1..]))
  }

  /** An exit callback does not register the record it was called for if the manager owns that. */
  predicate ProperWait(s: seq<Monitor>, free: set<nat>, w: Wait)
    requires AllMonitored(s)
  {
    var k := Position(s, w.pid);
    w.pid > 1 && k < |s| && s[k].child.hasOnExit ==>
      && ProperAll(Without(s, k), free, w.requests)
      && (s[k].owned ==> forall j :: 0 <= j < |w.requests| ==> RecordOf(w.requests[j]).id != s[k].child.id)
  }

  predicate ProperWaits(s: seq<Monitor>, free: set<nat>, ws: seq<Wait>)
    requires AllMonitored(s)
    decreases |ws|
  {
    ws == [] || ws[0].pid <= 0 || (
      var o := Reap(s, ws[0]);
      ProperWait(s, free, ws[0]) && ProperWaits(o.monitors, FreeAfter(o.events, free), ws[1..]))
  }

  predicate ProperOps(s: seq<Monitor>, free: set<nat>, ops: seq<Op>)
    requires AllMonitored(s)
    decreases |ops|
  {
    ops == [] || (
      var o := Apply(s, ops[0]);
      && (match ops[0]
          case Ask(r) => Proper(s, free, r)
          case Tick(ws) => ProperWaits(s, free, ws))
      && ProperOps(o.monitors, FreeAfter(o.events, free), ops[1..]))
  }

  lemma RegisterClean(s: seq<Monitor>, free: set<nat>, r: Request)
    requires Clean(s, free) && Proper(s, free, r)
    ensures var o := Register(s, r).0; Clean(o.monitors, FreeAfter(o.events, free))
  {
    var o := Register(s, r).0;
    RegisterApart(s, r);
    if o.events != [] { assert o.events[1..] == []; }
  }

  lemma {:induction false} RegisterAllClean(s: seq<Monitor>, free: set<nat>, rs: seq<Request>)
    requires Clean(s, free) && ProperAll(s, free, rs)
    ensures var o := RegisterAll(s, rs); Clean(o.monitors, FreeAfter(o.events, free))
    decreases |rs|
  {
    if rs != [] {
      RegisterClean(s, free, rs[0]);
      var first := Register(s, rs[0]).0;
      hide Register, Proper;
      RegisterAllClean(first.monitors, FreeAfter(first.events, free), rs[1..]);
      FreeConcat(first.events, RegisterAll(first.monitors, rs[1..]).events, free);
    }
  }

  ghost predicate NamesNot(s: seq<Monitor>, id: nat) {
    AllMonitored(s) && forall k :: 0 <= k < |s| ==> s[k].child.id != id
  }

  lemma {:induction false} RegisterAllNamesNot(s: seq<Monitor>, rs: seq<Request>, id: nat)
    requires NamesNot(s, id) && forall j :: 0 <= j < |rs| ==> RecordOf(rs[j]).id != id
    ensures NamesNot(RegisterAll(s, rs).monitors, id)
    decreases |rs|
  {
    if rs != [] {
      RegisterAllNamesNot(Register(s, rs[0]).0.monitors, rs[1..], id);
    }
  }

  lemma FreeDestroyed(m: Monitor, free: set<nat>)
    requires m.Monitored?
    ensures FreeAfter(Destroyed(m, Reaped(m)), free) == if m.owned then free + {m.child.id} else free
  {
    assert [Reaped(m)][1..] == [];
    assert FreeAfter([Reaped(m)], FreeNow(Freed(m.child), free)) == free + {m.child.id};
    if m.owned {
      assert Destroyed(m, Reaped(m))[0] == Freed(m.child) && Destroyed(m, Reaped(m))[1..] == [Reaped(m)];
    } else {
      assert Destroyed(m, Reaped(m)) == [Reaped(m)];
    }
  }

  lemma ReapClean(s: seq<Monitor>, free: set<nat>, w: Wait)
    requires Clean(s, free) && ProperWait(s, free, w)
    ensures var o := Reap(s, w); Clean(o.monitors, FreeAfter(o.events, free))
  {
    var k := Position(s, w.pid);
    if w.pid > 1 && k < |s| {
      var m, rest := s[k], Without(s, k);
      WithoutClean(s, k, free);
      FreeDestroyed(m, free);
      if m.child.hasOnExit {
        var during, exited := RegisterAll(rest, w.requests), [Exited(m.child, w.status)];
        RegisterAllClean(rest, free, w.requests);
        if m.owned { RegisterAllNamesNot(rest, w.requests, m.child.id); }
        hide RegisterAll, ProperAll, Without, Destroyed;
        FreeDestroyed(m, FreeAfter(during.events, free));
        assert exited[1..] == [];
        FreeConcat(exited, during.events, free);
        FreeConcat(exited + during.events, Destroyed(m, Reaped(m)), free);
      }
    }
  }

  lemma WithoutClean(s: seq<Monitor>, k: nat, free: set<nat>)
    requires Clean(s, free) && k < |s|
    ensures Clean(Without(s, k), free) && NamesNot(Without(s, k), s[k].child.id)
  {
  }

  lemma {:induction false} ReapAllClean(s: seq<Monitor>, free: set<nat>, ws: seq<Wait>)
    requires Clean(s, free) && ProperWaits(s, free, ws)
    ensures var o := ReapAll(s, ws); Clean(o.monitors, FreeAfter(o.events, free))
    decreases |ws|
  {
    if ws != [] && ws[0].pid > 0 {
      ReapClean(s, free, ws[0]);
      var first := Reap(s, ws[0]);
      hide Reap, ProperWait;
      ReapAllClean(first.monitors, FreeAfter(first.events, free), ws[1..]);
      FreeConcat(first.events, ReapAll(first.monitors, ws[1..]).events, free);
    }
  }

  /** Over any run in which no exit callback registers the owned record it was called for, and in which freed
      records are not registered, no monitor on the ring ever refers to a freed record. */
  lemma {:induction false} NoFreedOnRing(s: seq<Monitor>, free: set<nat>, ops: seq<Op>)
    requires Clean(s, free) && ProperOps(s, free, ops)
    ensures var o := Run(s, ops); Clean(o.monitors, FreeAfter(o.events, free))
    decreases |ops|
  {
    if ops != [] {
      match ops[0] {
        case Ask(r) => RegisterClean(s, free, r);
        case Tick(ws) => ReapAllClean(s, free, ws);
      }
      var first := Apply(s, ops[0]);
      hide Apply, Proper, ProperWaits;
      NoFreedOnRing(first.monitors, FreeAfter(first.events, free), ops[1..]);
      FreeConcat(first.events, Run(first.monitors, ops[1..]).events, free);
    }
  }

  // ----- The manager ------------------------------------------------------------------------

  lemma {:induction false} PositionAt(s: seq<Monitor>, k: nat, pid: int)
    requires AllMonitored(s) && k <= |s| && (k < |s| ==> s[k].child.pid == pid)
    requires forall j :: 0 <= j < k ==> s[j].child.pid != pid
    ensures Position(s, pid) == k
  {
    if k > 0 {
      PositionAt(s[1..], k - 1, pid);
    }
  }

  lemma ItemsWithout(r: seq<Node<Monitor>>, k: nat)
    requires k + 1 < |r|
    ensures Without(r, k + 1) != [] && Without(r, k + 1)[0] == r[0]
    ensures Items(Without(r, k + 1)[1..]) == Without(Items(r[1..]), k)
    ensures AllMonitored(Items(r[1..])) ==> AllMonitored(Items(Without(r, k + 1)[1..]))
  {
  }

  /** The forward link of the node at position `j`, which is not the head. */
  ghost predicate NextIs(r: seq<Node<Monitor>>, h: Node<Monitor>, j: nat)
    requires j < |r|
    reads r[j]
  {
    r[j] != h && r[j].next == if j + 1 < |r| then r[j + 1] else h
  }

  lemma RingForward(r: seq<Node<Monitor>>)
    requires Ring(r)
    ensures r != [] && r[0].next == if |r| > 1 then r[1] else r[0]
    ensures forall j :: 0 < j < |r| ==> NextIs(r, r[0], j)
  {
    assert LinkOk(r, 0);
    forall j | 0 < j < |r| ensures NextIs(r, r[0], j) {
      assert LinkOk(r, j);
    }
  }

  lemma ItemAt(r: seq<Node<Monitor>>, j: nat)
    requires j + 1 < |r|
    ensures r[j + 1].item == Items(r[1..])[j]
  {
  }

  lemma ItemsSnoc(r: seq<Node<Monitor>>, node: Node<Monitor>)
    requires r != []
    ensures Items((r + [node])[1..]) == Items(r[1..]) + [node.item]
    ensures AllMonitored(Items(r[1..])) && node.item.Monitored? ==> AllMonitored(Items((r + [node])[1..]))
  {
  }

  /** Links the neighbours of the node at position `k` to each other; the node keeps its own links. */
  method Bypass(ghost r: seq<Node<Monitor>>, ghost k: nat, mp: Node<Monitor>)
    requires Ring(r) && 0 < k < |r| && r[k] == mp
    modifies r
    ensures Ring(Without(r, k))
  {
    assert LinkOk(r, k) && LinkOk(r, k - 1) && LinkOk(r, if k + 1 < |r| then k + 1 else 0);
    mp.prev.next := mp.next;
    mp.next.prev := mp.prev;
    forall j | 0 <= j < |r| - 1 ensures LinkOk(Without(r, k), j) {
      assert old(LinkOk(r, if j < k then j else j + 1));
    }
  }

  /** `done` is what happened before answer `n` was asked for. */
  ghost predicate SoFar(s: seq<Monitor>, ws: seq<Wait>, n: nat, now: seq<Monitor>, done: seq<Event>)
    requires AllMonitored(s) && AllMonitored(now) && n <= |ws|
  {
    var rest := ReapAll(now, ws[n..]);
    ReapAll(s, ws) == Outcome(rest.monitors, done + rest.events)
  }

  lemma StartSoFar(s: seq<Monitor>, ws: seq<Wait>)
    requires AllMonitored(s)
    ensures SoFar(s, ws, 0, s, [])
  {
    assert ws[0..] == ws;
  }

  lemma SoFarStep(s: seq<Monitor>, ws: seq<Wait>, n: nat, now: seq<Monitor>, done: seq<Event>)
    requires AllMonitored(s) && AllMonitored(now) && n <= |ws| && SoFar(s, ws, n, now, done)
    ensures if n == |ws| || ws[n].pid <= 0 then ReapAll(s, ws) == Outcome(now, done)
      else SoFar(s, ws, n + 1, Reap(now, ws[n]).monitors, done + Reap(now, ws[n]).events)
  {
    hide Reap, AllMonitored;
    if n < |ws| && ws[n].pid > 0 {
      var first := Reap(now, ws[n]);
      assert ws[n..][1..] == ws[n + 1..];
      ConcatAssoc(done, first.events, ReapAll(first.monitors, ws[n + 1..]).events);
    }
  }

  class ChildManager {
    /** How the scheduler's tasks refer to this manager; its task pointer is `monitorTasks[mgr]` there. */
    const mgr: nat
    var head: Node<Monitor>
    ghost var ring: seq<Node<Monitor>>

    ghost predicate Valid()
      reads this, ring
    {
      Ring(ring) && ring[0] == head && AllMonitored(Monitors())
    }

    ghost function Monitors(): seq<Monitor>
      reads this
    {
      if ring == [] then [] else Items(ring[1..])
    }

    constructor (mgr: nat)
      ensures Valid() && Monitors() == [] && this.mgr == mgr && fresh(ring[0]) && |ring| == 1
    {
      this.mgr := mgr;
      var node := new Node(Head);
      head, ring := node, [node];
    }

    /** The node that monitors a process, or the head when there is none. */
    method Locate(pid: int) returns (mp: Node<Monitor>, ghost k: nat)
      requires Valid()
      ensures mp == head <==> Position(Monitors(), pid) == |Monitors()|
      ensures mp != head ==> mp.item == Monitors()[Position(Monitors(), pid)]
      ensures k == Position(Monitors(), pid) && (k < |Monitors()| ==> mp == ring[k + 1])
    {
      assert LinkOk(ring, 0);
      var node := head.next;
      k := 0;
      while node != null && node != head && node.item.child.pid != pid
        invariant 0 <= k <= |Monitors()| && node == if k < |Monitors()| then ring[k + 1] else head
        invariant node != null && node != head ==> node.item == Monitors()[k]
        invariant forall j :: 0 <= j < k ==> Monitors()[j].child.pid != pid
        decreases |Monitors()| - k
      {
        assert LinkOk(ring, k + 1);
        node := node.next;
        k := k + 1;
      }
      PositionAt(Monitors(), k, pid);
      mp := node;
    }

    /** Links a new node in front of the head, which is at the end. */
    method Append(m: Monitor)
      requires Valid() && m.Monitored?
      modifies this`ring, ring
      ensures Valid() && Monitors() == old(Monitors()) + [m]
      ensures forall j :: 0 <= j < |ring| ==> ring[j] in old(ring) || fresh(ring[j])
    {
      var node := new Node(m);
      assert LinkOk(ring, 0);
      InsertBefore(ring, 0, head, node);
      assert InsertAt(ring, |ring|, node) == ring + [node];
      ItemsSnoc(ring, node);
      hide Ring, Items;
      ring := ring + [node];
    }

    /** `child_proc_mgr_monitor_child` and `child_proc_mgr_monitor_pid`. */
    method Ask(r: Request) returns (ok: bool, events: seq<Event>)
      requires Valid()
      modifies this`ring, ring
      ensures Valid() && (Outcome(Monitors(), events), ok) == Register(old(Monitors()), r)
      ensures forall j :: 0 <= j < |ring| ==> ring[j] in old(ring) || fresh(ring[j])
    {
      ok, events := true, [];
      match r
      case MonitorChild(child) =>
        var mp, k := Locate(child.pid);
        if mp != head {
          ok := mp.item.child == child;
        } else {
          events := [Accepted(Monitored(child, false))];
          Append(Monitored(child, false));
        }
      case MonitorPid(pid, id, hasOnExit) =>
        if pid <= 1 {
          return false, [];
        }
        var mp, k := Locate(pid);
        if mp != head {
          ok := false;
        } else {
          events := [Accepted(Monitored(Child(id, pid, hasOnExit), true))];
          Append(Monitored(Child(id, pid, hasOnExit), true));
        }
    }

    method AskAll(rs: seq<Request>) returns (events: seq<Event>)
      requires Valid()
      modifies this`ring, ring
      ensures Valid() && Outcome(Monitors(), events) == RegisterAll(old(Monitors()), rs)
      ensures forall j :: 0 <= j < |ring| ==> ring[j] in old(ring) || fresh(ring[j])
      decreases |rs|
    {
      events := [];
      if rs != [] {
        var ok, first := Ask(rs[0]);
        var rest := AskAll(rs[1..]);
        events := first + rest;
      }
    }

    /** Takes the node of the monitor at position `k` out of the ring. */
    method Detach(mp: Node<Monitor>, ghost k: nat)
      requires Valid() && k < |Monitors()| && ring[k + 1] == mp
      modifies this`ring, ring
      ensures Valid() && Monitors() == Without(old(Monitors()), k)
      ensures forall j :: 0 <= j < |ring| ==> ring[j] in old(ring)
    {
      Bypass(ring, k + 1, mp);
      ItemsWithout(ring, k);
      hide Ring, Items;
      ring := Without(ring, k + 1);
    }

    /** Handles one exited process. */
    method ReapOne(w: Wait) returns (events: seq<Event>)
      requires Valid()
      modifies this`ring, ring
      ensures Valid() && Outcome(Monitors(), events) == Reap(old(Monitors()), w)
      ensures forall j :: 0 <= j < |ring| ==> ring[j] in old(ring) || fresh(ring[j])
    {
      events := [];
      if w.pid <= 1 {
        return;
      }
      var mp, k := Locate(w.pid);
      if mp != head {
        Detach(mp, k);
        var m := mp.item;
        if m.child.hasOnExit {
          var during := AskAll(w.requests);
          events := [Exited(m.child, w.status)] + during;
        }
        if m.owned {
          events := events + [Freed(m.child)];
        }
        events := events + [Reaped(m)];
      }
    }

    /** The timer's callback: reaps as long as `waitpid` reports an exited child; it always asks for the
        task to go on.  `waits` are the answers of `waitpid`; once used up there is nothing to report. */
    method OnMonitorTimer(waits: seq<Wait>) returns (complete: bool, events: seq<Event>)
      requires Valid()
      modifies this`ring, ring
      ensures Valid() && Outcome(Monitors(), events) == ReapAll(old(Monitors()), waits)
      ensures !complete
    {
      hide Ring, Reap, Items, SoFar;
      events := [];
      var n := 0;
      var again := true;
      ghost var s := Monitors();
      StartSoFar(s, waits);
      while again
        invariant Valid() && n <= |waits| && forall j :: 0 <= j < |ring| ==> ring[j] in old(ring) || fresh(ring[j])
        invariant if again then SoFar(s, waits, n, Monitors(), events)
                  else ReapAll(s, waits) == Outcome(Monitors(), events)
        decreases |waits| - n, again
      {
        SoFarStep(s, waits, n, Monitors(), events);
        var pid := if n < |waits| then waits[n].pid else 0;
        if pid > 0 {
          var more := ReapOne(waits[n]);
          events := events + more;
          n := n + 1;
        }
        again := pid > 0;
      }
      complete := false;
    }

    /** Stops the timer, then gives up every monitor, in order.  The backward links are not kept meanwhile. */
    method Destroy(sched: Scheduler) returns (events: seq<Event>)
      requires Valid() && sched.Valid()
      modifies head`next, sched`st, sched`monitorTasks, sched.slots
      ensures sched.Valid() && Inv(old(sched.st.store)) && sched.st == HaltMonitor(sched.env, old(sched.st), mgr)
      ensures events == DestroyAll(old(Monitors()))
    {
      hide Ring, Items, AllMonitored, Inv, HaltMonitor, Holds, Scheduler.PoolsValid, Scheduler.Snapshot, DestroyAll;
      Stop(sched);
      events := DropAll();
    }

    method DropAll() returns (events: seq<Event>)
      requires Valid()
      modifies head`next
      ensures events == DestroyAll(Monitors())
    {
      hide Ring, LinkOk, Items;
      RingForward(ring);
      var h := head;
      ghost var r, s := ring, Monitors();
      assert r[0] == h && |s| == |r| - 1;
      events := [];
      var mp := h.next;
      ghost var k := 0;
      while mp != null && mp != h
        invariant 0 <= k <= |s| && mp == if k < |s| then r[k + 1] else h
        invariant forall j :: 0 < j < |r| ==> NextIs(r, h, j)
        invariant events + DestroyAll(s[k..]) == DestroyAll(s)
        decreases |s| - k
      {
        assert k < |s| && mp == r[k + 1] && NextIs(r, h, k + 1);
        ItemAt(r, k);
        assert s[k..][1..] == s[k + 1..];
        h.next := mp.next;
        if mp.item.owned {
          events := events + [Freed(mp.item.child)];
        }
        events := events + [Dropped(mp.item)];
        mp := h.next;
        k := k + 1;
      }
      assert k < |s| ==> NextIs(r, h, k + 1);
    }

    // ----- The timer ------------------------------------------------------------------------

    method Stop(sched: Scheduler)
      requires sched.Valid()
      modifies sched`st, sched`monitorTasks, sched.slots
      ensures sched.Valid() && Inv(old(sched.st.store)) && sched.st == HaltMonitor(sched.env, old(sched.st), mgr)
      ensures mgr !in sched.monitorTasks
    {
      sched.HaltMonitor(mgr);
    }

    /** Whether the timer runs is whether there was a timer ID and a task object for it. */
    method Start(sched: Scheduler) returns (ok: bool)
      requires sched.Valid()
      modifies sched`st, sched`scheduledTasks, sched`stopScheduler, sched`monitorTasks, sched.slots
      modifies sched.taskPool`current, sched.taskPool.base, sched.timerIdPool`current, sched.timerIdPool.base
      ensures sched.Valid() && Inv(old(sched.st.store)) && sched.st == LaunchMonitor(sched.env, old(sched.st), mgr)
      ensures ok <==> mgr in sched.monitorTasks
    {
      ok := sched.LaunchMonitor(mgr);
    }
  }
}
