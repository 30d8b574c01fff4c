/** One turn of the scheduler's pump -- sweep, select, dispatch -- and runs of clients and pumps. */
module SchedulerPump {
  import opened Deadlines
  import opened SchedulerModel
  import opened SchedulerCalls

  // ----- Dispatching one task ---------------------------------------------------------------

  predicate HasCallback(c: Callbacks, kind: Kind) {
    match kind
    case ErrorReady => c.error
    case ReadReady => c.read
    case WriteReady => c.write
    case TimedOut => c.timeout
  }

  /** What holds of the task at position `i` of the list whenever the dispatcher looks at it. */
  lemma ListedTask(s: State, i: nat)
    requires Inv(s.store) && i < |s.store.list|
    ensures var x := s.store.list[i];
      && x < |s.store.tasks| && x in s.store.live && x !in s.store.out
      && WellFormed(s.store.tasks[x]) && Dispatchable(s.store.tasks[x])
  {
  }

  /** A callback starts: it is logged and consumes the next script. */
  function Began(s: State, e: Event): (r: State)
    ensures r.store == s.store && (e.Fired? ==> Grows(s, r))
  {
    s.(calls := s.calls + 1, log := s.log + [e])
  }

  function FiredEvent(s: State, i: nat, kind: Kind, tick: nat): Event
    requires i < |s.store.list| && s.store.list[i] < |s.store.tasks|
  {
    Fired(s.store.list[i], kind, s.store.tasks[s.store.list[i]].fd, tick, s.calls)
  }

  lemma ListFits(q: Store)
    requires Inv(q)
    ensures |q.list| <= |q.tasks|
  {
  }

  /** Invokes a callback of the task at position `i`: it makes its calls and reports completion. */
  function Fire(env: Env, s: State, i: nat, kind: Kind, tick: nat): (r: (State, bool))
    requires Inv(s.store) && i < |s.store.list|
    requires HasCallback(s.store.tasks[s.store.list[i]].cbs, kind)
    ensures Inv(r.0.store) && Grows(s, r.0)
  {
    var s1 := Began(s, FiredEvent(s, i, kind, tick));
    var r := ExecuteAll(env, s1, env.callback(s.calls).calls);
    GrowsTransitive(s, s1, r);
    (r, env.callback(s.calls).complete)
  }

  function ErrorPart(env: Env, s: State, i: nat, f: FdSets, tick: nat): (r: (State, FdSets))
    requires Inv(s.store) && i < |s.store.list|
    ensures Inv(r.0.store) && Grows(s, r.0)
  {
    ListedTask(s, i);
    var t := s.store.tasks[s.store.list[i]];
    if t.opts.error && t.fd in f.er then
      (Fire(env, s, i, ErrorReady, tick).0, f.(er := f.er - {t.fd}))
    else (s, f)
  }

  function ReadPart(env: Env, s: State, i: nat, f: FdSets, tick: nat, expired: bool): (r: (State, FdSets, bool))
    requires Inv(s.store) && i < |s.store.list|
    requires expired ==> s.store.tasks[s.store.list[i]].timeOut != NO_TIMEOUT
    ensures Inv(r.0.store) && Grows(s, r.0)
  {
    ListedTask(s, i);
    var t := s.store.tasks[s.store.list[i]];
    if !t.opts.read then (s, f, true)
    else if t.fd in f.rd then
      var (s1, done) := Fire(env, s, i, ReadReady, tick);
      (s1, f.(rd := f.rd - {t.fd}), done)
    else if expired then
      var (s1, done) := Fire(env, s, i, TimedOut, tick);
      (s1, f, done)
    else (s, f, false)
  }

  /** `rv` is what the read part reported: when false no write callback runs, yet the bit is consumed. */
  function WritePart(env: Env, s: State, i: nat, f: FdSets, tick: nat, expired: bool, rv: bool)
    : (r: (State, FdSets, bool))
    requires Inv(s.store) && i < |s.store.list|
    requires expired ==> s.store.tasks[s.store.list[i]].timeOut != NO_TIMEOUT
    ensures Inv(r.0.store) && Grows(s, r.0)
  {
    ListedTask(s, i);
    var t := s.store.tasks[s.store.list[i]];
    if !t.opts.write then (s, f, rv)
    else if t.fd in f.wr then
      var (s1, done) := if rv then Fire(env, s, i, WriteReady, tick) else (s, false);
      (s1, f.(wr := f.wr - {t.fd}), done)
    else if expired then
      var (s1, done) := if rv then Fire(env, s, i, TimedOut, tick) else (s, false);
      (s1, f, done)
    else (s, f, false)
  }

  function TimerPart(env: Env, s: State, i: nat, tick: nat, expired: bool): (r: (State, bool))
    requires Inv(s.store) && i < |s.store.list|
    requires s.store.tasks[s.store.list[i]].cbs.timeout
    requires expired ==> s.store.tasks[s.store.list[i]].timeOut != NO_TIMEOUT
    ensures Inv(r.0.store) && Grows(s, r.0)
  {
    if !expired then (s, false)
    else
      var (s1, done) := Fire(env, s, i, TimedOut, tick);
      if done then (s1, true)
      else
        ListedTask(s1, i);
        ArmKeeps(env, s1, s1.store.list[i], true);
        var s2 := Arm(env, s1, s1.store.list[i], true);
        GrowsTransitive(s, s1, s2);
        (s2, false)
  }

  /** A task with a descriptor: errors first, then reads, then writes. */
  function IoPart(env: Env, s: State, i: nat, f: FdSets, tick: nat, expired: bool): (r: (State, FdSets, bool))
    requires Inv(s.store) && i < |s.store.list|
    requires expired ==> s.store.tasks[s.store.list[i]].timeOut != NO_TIMEOUT
    ensures Inv(r.0.store) && Grows(s, r.0)
  {
    ListedTask(s, i);
    var (s1, f1) := ErrorPart(env, s, i, f, tick);
    PositionStays(s, s1, i);
    var (s2, f2, rv) := ReadPart(env, s1, i, f1, tick, expired);
    PositionStays(s1, s2, i);
    GrowsTransitive(s, s1, s2);
    var r := WritePart(env, s2, i, f2, tick, expired, rv);
    GrowsTransitive(s, s2, r.0);
    r
  }

  /** The dispatcher turns to the task at position `i` and reads the clock. */
  function Entered(s: State, i: nat): (r: State)
    requires i < |s.store.list| && s.store.list[i] < |s.store.tasks|
    ensures r.store == s.store && Grows(s, r)
  {
    s.(ticks := s.ticks + 1, log := s.log + [Visited(s.store.list[i], s.store.tasks[s.store.list[i]])])
  }

  predicate TimedOutAt(env: Env, tick: nat, t: Task) {
    t.timeOut != NO_TIMEOUT && Expired(env.clock(tick), t.expire)
  }

  function Process(env: Env, s: State, i: nat, f: FdSets): (r: (State, FdSets, bool))
    requires Inv(s.store) && i < |s.store.list|
    requires !s.store.tasks[s.store.list[i]].opts.remove
    ensures Inv(r.0.store) && Grows(s, r.0)
  {
    ListedTask(s, i);
    var t := s.store.tasks[s.store.list[i]];
    var s0 := Entered(s, i);
    if t.fd > INVALID_FD then
      var r := IoPart(env, s0, i, f, s.ticks, TimedOutAt(env, s.ticks, t));
      GrowsTransitive(s, s0, r.0);
      r
    else
      var (s1, done) := TimerPart(env, s0, i, s.ticks, TimedOutAt(env, s.ticks, t));
      GrowsTransitive(s, s0, s1);
      (s1, f, done)
  }

  function Visit(env: Env, s: State, i: nat, f: FdSets): (r: (State, FdSets))
    requires Inv(s.store) && i < |s.store.list|
    ensures Inv(r.0.store) && Grows(s, r.0)
  {
    ListedTask(s, i);
    if s.store.tasks[s.store.list[i]].opts.remove then (s, f)
    else
      var (s1, f1, done) := Process(env, s, i, f);
      if !done then (s1, f1)
      else
        ListedTask(s1, i);
        UnscheduleKeeps(s1, s1.store.list[i]);
        var s2 := UnscheduleTask(s1, s1.store.list[i]);
        GrowsTransitive(s, s1, s2);
        (s2, f1)
  }

  /** The dispatch walk.  Callbacks may append to the list while it is walked; since no task returns
      to the pool meanwhile, at most as many tasks as there are task objects are visited. */
  function Dispatch(env: Env, s: State, i: nat, f: FdSets): (r: State)
    requires Inv(s.store) && i <= |s.store.list|
    ensures Inv(r.store) && Grows(s, r)
    decreases |s.store.tasks| - i
  {
    if i == |s.store.list| || s.stopped then s
    else
      var (s1, f1) := Visit(env, s, i, f);
      var r := Dispatch(env, s1, i + 1, f1);
      GrowsTransitive(s, s1, r);
      r
  }

  // ----- Sweep ------------------------------------------------------------------------------

  /** Requested for removal, and not the special descriptor -1. */
  predicate Doomed(t: Task) {
    t.opts.remove && t.fd != INVALID_FD
  }

  /** The in-place sweep from position `i` on. */
  function Sweep(q: Store, i: nat): (r: Store)
    requires Inv(q) && i <= |q.list|
    ensures Inv(r)
    decreases |q.list| - i
  {
    if i == |q.list| then q
    else if Doomed(q.tasks[q.list[i]]) then DropKeeps(q, i); Sweep(Drop(q, i), i)
    else Sweep(q, i + 1)
  }

  /** The descriptors a listed task asks `select` to watch; tasks with only the TIMER bit are skipped. */
  predicate Asks(t: Task, kind: Kind) {
    !t.opts.TimerOnly() &&
    match kind
    case ErrorReady => t.opts.error
    case ReadReady => t.opts.read
    case WriteReady => t.opts.write
    case TimedOut => false
  }

  function AskedFds(q: Store, upTo: nat, kind: Kind): set<int>
    requires Indexed(q) && upTo <= |q.list|
  {
    set k | 0 <= k < upTo && Asks(q.tasks[q.list[k]], kind) :: q.tasks[q.list[k]].fd
  }

  function Asked(q: Store, upTo: nat): FdSets
    requires Indexed(q) && upTo <= |q.list|
  {
    FdSets(AskedFds(q, upTo, ReadReady), AskedFds(q, upTo, WriteReady), AskedFds(q, upTo, ErrorReady))
  }

  // ----- Pump and runs ----------------------------------------------------------------------

  /** `select` clears bits of the sets it is given; it never sets one. */
  function Restrict(asked: FdSets, ready: FdSets): FdSets {
    FdSets(asked.rd * ready.rd, asked.wr * ready.wr, asked.er * ready.er)
  }

  /** The sweep of a whole pump turn; `select` is asked once after it. */
  function Swept(s: State): (r: State)
    requires Inv(s.store)
    ensures Inv(r.store)
  {
    s.(store := Sweep(s.store, 0), polls := s.polls + 1)
  }

  function Pump(env: Env, s: State): (r: State)
    requires Inv(s.store)
    ensures Inv(r.store)
  {
    if s.stopped then s
    else
      var s1 := Swept(s);
      match env.select(s.polls)
      case SelectFailed => s1
      case SelectReady(ready) => Dispatch(env, s1, 0, Restrict(Asked(s1.store, |s1.store.list|), ready))
  }

  datatype Step = Call(call: ClientCall) | Turn

  function Take1(env: Env, s: State, step: Step): (r: State)
    requires Inv(s.store)
    ensures Inv(r.store)
  {
    match step
    case Call(c) => Execute(env, s, c)
    case Turn => Pump(env, s)
  }

  /** Any interleaving of client calls and pump turns. */
  function Run(env: Env, s: State, steps: seq<Step>): (r: State)
    requires Inv(s.store)
    ensures Inv(r.store)
    decreases |steps|
  {
    if steps == [] then s else Run(env, Take1(env, s, steps[0]), steps[1..])
  }

  /** Steps are taken one after the other, each exactly once. */
  lemma {:induction false} RunInTurn(env: Env, s: State, a: seq<Step>, b: seq<Step>)
    requires Inv(s.store)
    ensures Run(env, s, a + b) == Run(env, Run(env, s, a), b)
    ensures |a| == 1 ==> Run(env, s, a) == Take1(env, s, a[0])
    decreases |a|
  {
    hide Inv, Take1;
    if a == [] {
      assert a + b == b;
    } else {
      assert (a + b)[1..] == a[1..] + b;
      RunInTurn(env, Take1(env, s, a[0]), a[1..], b);
    }
  }
}
