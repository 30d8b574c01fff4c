/** The I/O scheduler as a state machine over values.

    Task objects are named by the slot they were allocated for (0 .. max_concurrent_tasks - 1),
    lists and pools of task objects are sequences of slots.  Everything the program learns from
    outside -- clock readings, what each callback does and returns, what `select` reports -- comes
    from an `Env`, indexed by how many answers of that kind were consumed before. */
module SchedulerModel {
  import opened Sequences
  import opened Deadlines

  // ----- Entities ---------------------------------------------------------------------------

  /** The option word of a task: one flag per bit of `io_task_opts_t`. */
  datatype Opts = Opts(read: bool, write: bool, error: bool, timer: bool, remove: bool) {
    predicate None() { !read && !write && !error && !timer && !remove }
    predicate TimerOnly() { timer && !read && !write && !error && !remove }
    predicate Io() { read || write || error }
  }

  /** Which callback pointers of a task are non-null. */
  datatype Callbacks = Callbacks(read: bool, write: bool, error: bool, timeout: bool)

  datatype Task = Task(fd: int, opts: Opts, timeOut: int, expire: Timespec, user: nat, cbs: Callbacks)

  const INVALID_FD: int := -1
  const NO_OPTS: Opts := Opts(false, false, false, false, false)
  const BLANK: Task := Task(0, NO_OPTS, 0, Timespec(0, 0), 0, Callbacks(false, false, false, false))

  datatype Kind = ErrorReady | ReadReady | WriteReady | TimedOut

  /** What happened, in order.  `tick` is the index of the clock reading that was used, `call` of the
      callback execution.  `Marked` records that REMOVE was set, `LostId` that a timer ID was popped for
      which no task object was left; `repeat` tells a timer that goes on after its callback from one
      that is scheduled or rescheduled. */
  datatype Event =
    | Created(slot: nat)
    | LostId(id: int)
    | Armed(slot: nat, tick: nat, timeOut: int, repeat: bool)
    | Marked(slots: seq<nat>)
    | Visited(slot: nat, task: Task)
    | Fired(slot: nat, kind: Kind, fd: int, tick: nat, call: nat)

  /** The three descriptor sets that `select` fills in and the dispatcher consumes. */
  datatype FdSets = FdSets(rd: set<int>, wr: set<int>, er: set<int>)

  /** A call into the scheduler's interface. */
  datatype Action =
    | CreateTask(fd: int, opts: Opts, timeOut: int, user: nat, cbs: Callbacks)
    | CreateTimer(timeOut: int, user: nat, hasCallback: bool)
    | Schedule(slot: nat)
    | Unschedule(slot: nat)
    | Reschedule(slot: nat)
    | Stop

  /** What a client does: it calls the interface, or starts or stops a child-process manager. */
  datatype ClientCall = Api(action: Action) | StartMonitor(mgr: nat) | StopMonitor(mgr: nat)

  /** One execution of a callback: the calls it makes, and whether it reports its task complete. */
  datatype Script = Script(calls: seq<ClientCall>, complete: bool)

  datatype SelectResult = SelectFailed | SelectReady(sets: FdSets)

  datatype Env = Env(
    clock: nat -> ClockReading,
    callback: nat -> Script,
    select: nat -> SelectResult)

  /** Task objects, the two pools and the scheduled list.  The last line is history: tasks that are
      not in the pool, those among them that were handed out and not yet scheduled, which live task
      holds which timer ID, and timer IDs dropped by a failed creation. */
  datatype Store = Store(
    maxTimers: nat,
    tasks: seq<Task>, pool: seq<nat>, ids: seq<int>, list: seq<nat>,
    live: set<nat>, out: set<nat>, held: map<int, nat>, lost: set<int>)

  /** The scheduler: its store, the stop flag, how many answers of the environment were consumed,
      and the event log.  `monitors` holds the task pointers of the child-process managers; they belong
      to clients, and are part of the state because callbacks change them. */
  datatype State = State(
    store: Store, stopped: bool, ticks: nat, calls: nat, polls: nat, log: seq<Event>, monitors: map<nat, nat>)

  // ----- Store operations -------------------------------------------------------------------

  /** Slots are in range: what the operations below need to be defined. */
  predicate Indexed(q: Store) {
    && (forall k :: 0 <= k < |q.pool| ==> q.pool[k] < |q.tasks|)
    && (forall k :: 0 <= k < |q.list| ==> q.list[k] < |q.tasks|)
  }

  function Put(q: Store, x: nat, t: Task): Store
    requires x < |q.tasks|
  {
    q.(tasks := q.tasks[x := t])
  }

  /** Pops the task object on top of the pool and fills it in. */
  function Take(q: Store, t: Task): Store
    requires q.pool != [] && q.pool[0] < |q.tasks|
  {
    var x := q.pool[0];
    q.(tasks := q.tasks[x := t], pool := q.pool[1..], live := q.live + {x}, out := q.out + {x},
       held := if t.fd < INVALID_FD then q.held[t.fd := x] else q.held)
  }

  /** Appends a handed-out task to the list, with its fields as scheduling leaves them. */
  function Enlist(q: Store, x: nat, t: Task): Store
    requires x < |q.tasks|
  {
    q.(tasks := q.tasks[x := t], list := q.list + [x], out := q.out - {x})
  }

  /** Takes the task at position `i` off the list and returns it, and its timer ID, to the pools. */
  function Drop(q: Store, i: nat): Store
    requires i < |q.list| && q.list[i] < |q.tasks|
  {
    var x := q.list[i];
    var fd := q.tasks[x].fd;
    q.(tasks := q.tasks[x := BLANK], list := q.list[..i] + q.list[i + 1..],
       pool := [x] + q.pool, live := q.live - {x},
       ids := if fd < INVALID_FD then [fd] + q.ids else q.ids, held := q.held - {fd})
  }

  // ----- Interface calls --------------------------------------------------------------------

  /** Fields of a fresh task; REMOVE is never taken over from the caller. */
  function Fresh(t: Task): Task {
    t.(opts := t.opts.(remove := false), expire := Timespec(0, 0))
  }

  function Create(s: State, t: Task): (State, bool)
    requires Indexed(s.store)
  {
    if s.store.pool == [] then (s, false)
    else (s.(store := Take(s.store, Fresh(t)), log := s.log + [Created(s.store.pool[0])]), true)
  }

  function TimerTask(id: int, timeOut: int, user: nat, hasCallback: bool): Task {
    Task(id, NO_OPTS.(timer := true), timeOut, Timespec(0, 0), user, Callbacks(false, false, false, hasCallback))
  }

  /** The timer ID on top of its pool is gone. */
  function LoseId(s: State): State
    requires s.store.ids != []
  {
    var q, id := s.store, s.store.ids[0];
    s.(store := q.(ids := q.ids[1..], lost := q.lost + {id}), log := s.log + [LostId(id)])
  }

  /** Pops a timer ID first; when no task object is left that ID is gone. */
  function MakeTimer(s: State, timeOut: int, user: nat, hasCallback: bool): (State, bool)
    requires Indexed(s.store)
  {
    var q := s.store;
    if q.ids == [] then (s, false)
    else if q.pool == [] then (LoseId(s), false)
    else Create(s.(store := q.(ids := q.ids[1..])), TimerTask(q.ids[0], timeOut, user, hasCallback))
  }

  /** Sets the deadline of a task from the next clock reading. */
  function Arm(env: Env, s: State, x: nat, repeat: bool): State
    requires x < |s.store.tasks| && s.store.tasks[x].timeOut >= 0
  {
    var t := s.store.tasks[x];
    s.(store := Put(s.store, x, t.(expire := Deadline(env.clock(s.ticks), t.timeOut))),
       ticks := s.ticks + 1, log := s.log + [Armed(x, s.ticks, t.timeOut, repeat)])
  }

  /** The option word after scheduling: bits without a callback are dropped, an empty word means REMOVE. */
  function Normalized(t: Task): Opts {
    var o := Opts(t.opts.read && t.cbs.read, t.opts.write && t.cbs.write, t.opts.error && t.cbs.error,
                  t.opts.timer && t.cbs.timeout && t.timeOut != NO_TIMEOUT, t.opts.remove);
    if o.None() then o.(remove := true) else o
  }

  /** The fields of a task as scheduling leaves them: timed tasks are armed. */
  function Scheduled(env: Env, t: Task, tick: nat): Task
    requires t.timeOut >= NO_TIMEOUT
  {
    var t1 := t.(opts := Normalized(t));
    if t1.opts.timer then t1.(expire := Deadline(env.clock(tick), t.timeOut)) else t1
  }

  function ScheduleTask(env: Env, s: State, x: nat): State
    requires x < |s.store.tasks| && s.store.tasks[x].timeOut >= NO_TIMEOUT
  {
    var t := Scheduled(env, s.store.tasks[x], s.ticks);
    var s1 := s.(store := Enlist(s.store, x, t));
    if t.opts.timer then s1.(ticks := s.ticks + 1, log := s.log + [Armed(x, s.ticks, t.timeOut, false)])
    else if t.opts.remove then s1.(log := s.log + [Marked([x])])
    else s1
  }

  function Mark(t: Task): Task {
    t.(opts := t.opts.(remove := true))
  }

  /** Requests removal; the special descriptor -1 cannot be unscheduled. */
  function UnscheduleTask(s: State, x: nat): State
    requires x < |s.store.tasks|
  {
    var t := s.store.tasks[x];
    if t.fd != INVALID_FD then s.(store := Put(s.store, x, Mark(t)), log := s.log + [Marked([x])]) else s
  }

  function RescheduleTask(env: Env, s: State, x: nat): State
    requires x < |s.store.tasks| && (s.store.tasks[x].opts.remove || s.store.tasks[x].timeOut >= 0)
  {
    if s.store.tasks[x].opts.remove then s else Arm(env, s, x, false)
  }

  /** REMOVE set on every task of a list. */
  function MarkAll(tasks: seq<Task>, list: seq<nat>): (r: seq<Task>)
    requires forall k :: 0 <= k < |list| ==> list[k] < |tasks|
    ensures |r| == |tasks|
    ensures forall x :: 0 <= x < |tasks| ==> r[x] == if x in list then Mark(tasks[x]) else tasks[x]
  {
    seq(|tasks|, x requires 0 <= x < |tasks| => if x in list then Mark(tasks[x]) else tasks[x])
  }

  function StopScheduler(s: State): State
    requires Indexed(s.store)
  {
    s.(store := s.store.(tasks := MarkAll(s.store.tasks, s.store.list)), stopped := true,
       log := s.log + [Marked(s.store.list)])
  }

  /** What the interface demands of its callers.  Descriptors below -1 are reserved for timers, I/O
      needs a descriptor and, with a time-out, a time-out callback; a task object is scheduled at
      most once per creation; re-arming needs a live task with a time-out.  Any task object may be
      unscheduled, even one that went back to the pool: creating a task clears the bit. */
  predicate Permitted(q: Store, a: Action) {
    match a
    case CreateTask(fd, opts, timeOut, _, cbs) =>
      fd >= INVALID_FD && WellFormed(Task(fd, opts, timeOut, Timespec(0, 0), 0, cbs))
    case CreateTimer(timeOut, _, _) => timeOut >= NO_TIMEOUT
    case Schedule(x) => x < |q.tasks| && x in q.out
    case Unschedule(x) => x < |q.tasks|
    case Reschedule(x) => x < |q.tasks| && x in q.live && (q.tasks[x].opts.remove || q.tasks[x].timeOut >= 0)
    case Stop => true
  }

  /** One call into the interface.  Calls the interface does not permit are not made, so that lists of
      actions range over exactly the permitted call sequences. */
  function Perform(env: Env, s: State, a: Action): State
    requires Inv(s.store)
  {
    if !Permitted(s.store, a) then s
    else
      match a
      case CreateTask(fd, opts, timeOut, user, cbs) =>
        Create(s, Task(fd, opts, timeOut, Timespec(0, 0), user, cbs)).0
      case CreateTimer(timeOut, user, hasCallback) => MakeTimer(s, timeOut, user, hasCallback).0
      case Schedule(x) => ScheduleTask(env, s, x)
      case Unschedule(x) => UnscheduleTask(s, x)
      case Reschedule(x) => RescheduleTask(env, s, x)
      case Stop => StopScheduler(s)
  }

  // ----- Invariant --------------------------------------------------------------------------

  /** A task that was handed out by the interface. */
  predicate WellFormed(t: Task) {
    && t.timeOut >= NO_TIMEOUT
    && (t.opts.Io() ==> t.fd >= 0)
    && (t.opts.read || t.opts.write ==> t.timeOut == NO_TIMEOUT || t.cbs.timeout)
  }

  /** A task that went through scheduling: every option bit has its callback. */
  predicate Dispatchable(t: Task) {
    && (t.opts.read ==> t.cbs.read)
    && (t.opts.write ==> t.cbs.write)
    && (t.opts.error ==> t.cbs.error)
    && (t.opts.timer ==> t.cbs.timeout && t.timeOut >= 0)
    && !t.opts.None()
  }

  /** Every task object is pooled, scheduled or handed out, and nowhere twice. */
  ghost predicate SlotsOk(q: Store)
    requires Indexed(q)
  {
    && NoDup(q.pool) && NoDup(q.list)
    && (forall x :: x in q.live ==> x < |q.tasks|)
    && (forall k :: 0 <= k < |q.pool| ==> q.pool[k] !in q.live)
    && (forall k :: 0 <= k < |q.list| ==> q.list[k] in q.live && q.list[k] !in q.out)
    && q.out <= q.live
    && |q.pool| + |q.live| == |q.tasks|
    && |q.list| + |q.out| == |q.live|
  }

  ghost predicate TasksOk(q: Store) {
    forall x :: x in q.live && x < |q.tasks| ==>
      WellFormed(q.tasks[x]) && (x !in q.out ==> Dispatchable(q.tasks[x]))
  }

  predicate IsTimerId(maxTimers: nat, id: int) {
    -2 - maxTimers <= id <= -3
  }

  /** Pooled, held and lost timer IDs are distinct, lie in range, and are `maxTimers` in number. */
  ghost predicate IdsApart(q: Store) {
    && NoDup(q.ids)
    && (forall k :: 0 <= k < |q.ids| ==> IsTimerId(q.maxTimers, q.ids[k]) && q.ids[k] !in q.held && q.ids[k] !in q.lost)
    && (forall id :: id in q.held ==> IsTimerId(q.maxTimers, id) && id !in q.lost)
    && (forall id :: id in q.lost ==> IsTimerId(q.maxTimers, id))
    && |q.ids| + |q.held| + |q.lost| == q.maxTimers
  }

  /** `held` records which live task carries which timer ID. */
  ghost predicate HeldOk(q: Store) {
    && (forall id :: id in q.held ==> HeldBy(q, id, q.held[id]))
    && (forall x :: x in q.live && x < |q.tasks| ==> HoldsItsId(q, x))
  }

  ghost predicate HeldBy(q: Store, id: int, x: nat) {
    x in q.live && x < |q.tasks| && q.tasks[x].fd == id
  }

  ghost predicate HoldsItsId(q: Store, x: nat)
    requires x < |q.tasks|
  {
    q.tasks[x].fd < INVALID_FD ==> q.tasks[x].fd in q.held && q.held[q.tasks[x].fd] == x
  }

  ghost predicate Inv(q: Store) {
    Indexed(q) && SlotsOk(q) && TasksOk(q) && IdsApart(q) && HeldOk(q)
  }

  /** A scheduler as the constructor leaves it; task contents are whatever the allocator returned. */
  ghost predicate Init(s: State) {
    var q := s.store;
    && |q.tasks| > 0 && q.maxTimers > 0
    && q.pool == seq(|q.tasks|, i requires 0 <= i < |q.tasks| => |q.tasks| - 1 - i)
    && q.ids == seq(q.maxTimers, i => -3 - i)
    && q.list == [] && q.live == {} && q.out == {} && q.held == map[] && q.lost == {}
    && !s.stopped && s.ticks == 0 && s.calls == 0 && s.polls == 0 && s.log == [] && s.monitors == map[]
  }

  lemma InitInv(s: State)
    requires Init(s)
    ensures Inv(s.store)
  {
  }
}
