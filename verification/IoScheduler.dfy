/** The I/O scheduler as the program builds it: task objects linked through `next`, two array stacks as
    free pools, loops that walk and edit the list in place.  Every method is tied to the state machine
    of `SchedulerModel` through the abstract state `st`. */
module IoScheduler {
  import opened Sequences
  import opened Deadlines
  import opened SchedulerModel
  import opened SchedulerCalls
  import opened SchedulerPump
  import Stacks

  class TaskObject {
    const slot: nat
    var next: TaskObject?
    var fd: int
    var opts: Opts
    var timeOut: int
    var expire: Timespec
    var user: nat
    var cbs: Callbacks

    constructor (slot: nat)
      ensures this.slot == slot && next == null && Fields() == BLANK
    {
      this.slot := slot;
      next := null;
      fd, opts, timeOut, expire, user, cbs := BLANK.fd, BLANK.opts, BLANK.timeOut, BLANK.expire, BLANK.user, BLANK.cbs;
    }

    function Fields(): Task
      reads this
    {
      Task(fd, opts, timeOut, expire, user, cbs)
    }

    /** Overwrites the whole object; `next` becomes null. */
    method Fill(t: Task)
      modifies this
      ensures Fields() == t && next == null
    {
      next := null;
      fd, opts, timeOut, expire, user, cbs := t.fd, t.opts, t.timeOut, t.expire, t.user, t.cbs;
    }
  }

  // ----- Representation ---------------------------------------------------------------------

  /** Everything the scheduler keeps in memory: fields and `next` pointers of the task objects by slot,
      the list head, and what lies on the two pools, top first. */
  datatype Memory = Memory(
    fields: seq<Task>, links: seq<TaskObject?>, head: TaskObject?,
    pool: seq<TaskObject?>, ids: seq<int>)

  /** The object at position `k` of a list of slots, null past its end. */
  function At(slots: seq<TaskObject>, list: seq<nat>, k: nat): TaskObject?
    requires forall j :: 0 <= j < |list| ==> list[j] < |slots|
  {
    if k < |list| then slots[list[k]] else null
  }

  ghost predicate Numbered(slots: seq<TaskObject>) {
    forall k :: 0 <= k < |slots| ==> slots[k].slot == k
  }

  /** Memory `m` holds store `q`: fields agree, the `next` pointers spell the list, a task that is handed
      out ends a list, and the pools hold the pooled objects and IDs. */
  ghost predicate Holds(slots: seq<TaskObject>, m: Memory, q: Store) {
    && Indexed(q) && Numbered(slots)
    && m.fields == q.tasks && |m.links| == |slots| == |q.tasks|
    && m.head == At(slots, q.list, 0)
    && (forall k {:trigger m.links[q.list[k]]} :: 0 <= k < |q.list| ==> m.links[q.list[k]] == At(slots, q.list, k + 1))
    && (forall x :: x in q.out && x < |slots| ==> m.links[x] == null)
    && |m.pool| == |q.pool| && (forall k :: 0 <= k < |q.pool| ==> m.pool[k] == slots[q.pool[k]])
    && m.ids == q.ids
  }

  function InitialState(maxTasks: nat, maxTimers: nat): State {
    var pool := seq(maxTasks, k requires 0 <= k < maxTasks => (maxTasks - 1 - k) as nat);
    State(Store(maxTimers, seq(maxTasks, _ => BLANK), pool, seq(maxTimers, k => -3 - k), [], {}, {}, map[], {}),
          false, 0, 0, 0, [], map[])
  }

  lemma InitialStateIs(maxTasks: nat, maxTimers: nat)
    requires maxTasks > 0 && maxTimers > 0
    ensures var s := InitialState(maxTasks, maxTimers);
      && Init(s) && |s.store.tasks| == maxTasks && s.store.maxTimers == maxTimers && !s.stopped
      && (forall k :: 0 <= k < maxTasks ==> s.store.tasks[k] == BLANK)
      && |s.store.ids| == maxTimers && (forall k :: 0 <= k < maxTimers ==> s.store.ids[k] == -3 - k)
  {
  }

  lemma InitHolds(slots: seq<TaskObject>, m: Memory, s: State)
    requires Init(s) && Numbered(slots) && |slots| == |m.links| == |s.store.tasks| && m.fields == s.store.tasks
    requires m.head == null && m.ids == s.store.ids
    requires |m.pool| == |slots| && forall k :: 0 <= k < |slots| ==> m.pool[k] == slots[|slots| - 1 - k]
    ensures Holds(slots, m, s.store)
  {
  }

  lemma ScheduleStore(env: Env, s: State, x: nat)
    requires x < |s.store.tasks| && s.store.tasks[x].timeOut >= NO_TIMEOUT
    ensures SchedulerModel.ScheduleTask(env, s, x).stopped == s.stopped
    ensures SchedulerModel.ScheduleTask(env, s, x).store
      == Enlist(s.store, x, Scheduled(env, s.store.tasks[x], s.ticks))
    ensures Enlist(s.store, x, Scheduled(env, s.store.tasks[x], s.ticks)).maxTimers == s.store.maxTimers
    ensures SchedulerModel.ScheduleTask(env, s, x).monitors == s.monitors
  {
  }

  lemma PutHolds(slots: seq<TaskObject>, m: Memory, q: Store, x: nat, t: Task)
    requires Holds(slots, m, q) && x < |slots|
    ensures Holds(slots, m.(fields := m.fields[x := t]), Put(q, x, t))
  {
  }

  lemma TakeHolds(slots: seq<TaskObject>, m: Memory, q: Store, t: Task)
    requires Holds(slots, m, q) && SlotsOk(q) && q.pool != []
    ensures m.pool[0] == slots[q.pool[0]]
    ensures var x := q.pool[0];
      Holds(slots, m.(fields := m.fields[x := t], links := m.links[x := null], pool := m.pool[1..]), Take(q, t))
  {
  }

  lemma PopIdHolds(slots: seq<TaskObject>, m: Memory, q: Store)
    requires Holds(slots, m, q) && SlotsOk(q) && q.ids != []
    ensures Holds(slots, m.(ids := m.ids[1..]), q.(ids := q.ids[1..])) && SlotsOk(q.(ids := q.ids[1..]))
  {
  }

  lemma LoseIdHolds(slots: seq<TaskObject>, m: Memory, q: Store)
    requires q.ids != [] && Holds(slots, m, q.(ids := q.ids[1..]))
    ensures Holds(slots, m, q.(ids := q.ids[1..], lost := q.lost + {q.ids[0]}))
  {
  }

  /** Appending to an empty list sets the head; otherwise the last object's `next`. */
  lemma EnlistHolds(slots: seq<TaskObject>, m: Memory, q: Store, x: nat, t: Task)
    requires Holds(slots, m, q) && SlotsOk(q) && x in q.out && x < |slots|
    ensures var m1 := m.(fields := m.fields[x := t]);
      Holds(slots,
            if q.list == [] then m1.(head := slots[x])
            else m1.(links := m.links[q.list[|q.list| - 1] := slots[x]]),
            Enlist(q, x, t))
  {
  }

  /** Links after the object at position `i` is unlinked: from the head, or from its predecessor. */
  function Unlinked(slots: seq<TaskObject>, links: seq<TaskObject?>, list: seq<nat>, i: nat): seq<TaskObject?>
    requires i < |list| && (forall j :: 0 <= j < |list| ==> list[j] < |slots|) && |links| == |slots|
  {
    var cleared := links[list[i] := null];
    if i == 0 then cleared else cleared[list[i - 1] := At(slots, list, i + 1)]
  }

  lemma UnlinkedAt(slots: seq<TaskObject>, links: seq<TaskObject?>, list: seq<nat>, i: nat, k: nat)
    requires i < |list| && NoDup(list) && (forall j :: 0 <= j < |list| ==> list[j] < |slots|) && |links| == |slots|
    requires forall j {:trigger links[list[j]]} :: 0 <= j < |list| ==> links[list[j]] == At(slots, list, j + 1)
    requires k < |list| && k != i
    ensures Unlinked(slots, links, list, i)[list[k]] == At(slots, list, if k + 1 == i then k + 2 else k + 1)
  {
    assert list[k] != list[i];
    assert i > 0 && k != i - 1 ==> list[k] != list[i - 1];
  }

  lemma RestAt(slots: seq<TaskObject>, list: seq<nat>, i: nat, k: nat)
    requires i < |list| && k != i && forall j :: 0 <= j < |list| ==> list[j] < |slots|
    ensures var rest := list[..i] + list[i + 1..];
      && (forall j :: 0 <= j < |rest| ==> rest[j] < |slots|)
      && At(slots, rest, if k < i then k else k - 1) == At(slots, list, k)
  {
  }

  lemma UnlinkedSpells(slots: seq<TaskObject>, links: seq<TaskObject?>, list: seq<nat>, i: nat)
    requires i < |list| && NoDup(list) && (forall j :: 0 <= j < |list| ==> list[j] < |slots|) && |links| == |slots|
    requires forall k {:trigger links[list[k]]} :: 0 <= k < |list| ==> links[list[k]] == At(slots, list, k + 1)
    ensures var rest := list[..i] + list[i + 1..]; var after := Unlinked(slots, links, list, i);
      && (forall k :: 0 <= k < |rest| ==> rest[k] < |slots|)
      && (forall k {:trigger after[rest[k]]} :: 0 <= k < |rest| ==> after[rest[k]] == At(slots, rest, k + 1))
      && At(slots, rest, 0) == if i == 0 then At(slots, list, 1) else At(slots, list, 0)
  {
    var rest, after := list[..i] + list[i + 1..], Unlinked(slots, links, list, i);
    forall k | 0 <= k < |rest| ensures rest[k] < |slots| && after[rest[k]] == At(slots, rest, k + 1) {
      hide Unlinked, At;
      var j := if k < i then k else k + 1;
      UnlinkedAt(slots, links, list, i, j);
      RestAt(slots, list, i, if j + 1 == i then j + 2 else j + 1);
    }
    RestAt(slots, list, i, if i == 0 then 1 else 0);
  }

  /** The memory after the object at position `i` went back to the pools. */
  function Dropped(slots: seq<TaskObject>, m: Memory, q: Store, i: nat): Memory
    requires Indexed(q) && i < |q.list| && |m.links| == |slots| == |q.tasks| == |m.fields|
  {
    var x := q.list[i];
    Memory(m.fields[x := BLANK], Unlinked(slots, m.links, q.list, i),
           if i == 0 then At(slots, q.list, 1) else m.head,
           [slots[x]] + m.pool, if q.tasks[x].fd < INVALID_FD then [q.tasks[x].fd] + m.ids else m.ids)
  }

  lemma DropHolds(slots: seq<TaskObject>, m: Memory, q: Store, i: nat)
    requires Holds(slots, m, q) && SlotsOk(q) && i < |q.list|
    ensures Holds(slots, Dropped(slots, m, q, i), Drop(q, i))
  {
    var m', q' := Dropped(slots, m, q, i), Drop(q, i);
    UnlinkedSpells(slots, m.links, q.list, i);
    assert q'.list == q.list[..i] + q.list[i + 1..];
    hide NoDup;
    assert forall x :: x in q'.out && x < |slots| ==>
      x != q.list[i] && (i > 0 ==> x != q.list[i - 1]) && m'.links[x] == m.links[x];
    assert forall k :: 1 <= k < |q'.pool| ==> q'.pool[k] == q.pool[k - 1] && m'.pool[k] == m.pool[k - 1];
  }

  /** What a walker knows at position `k`: null exactly at the end, and otherwise where it goes next. */
  lemma WalkerAt(slots: seq<TaskObject>, m: Memory, q: Store, k: nat)
    requires Holds(slots, m, q) && k <= |q.list|
    ensures Indexed(q) && |slots| == |m.links| == |m.fields| && m.fields == q.tasks && |q.tasks| == |slots|
    ensures k == |q.list| <==> At(slots, q.list, k) == null
    ensures k < |q.list| ==> At(slots, q.list, k).slot == q.list[k] && slots[q.list[k]] == At(slots, q.list, k)
    ensures k < |q.list| ==> m.links[q.list[k]] == At(slots, q.list, k + 1)
    ensures m.head == At(slots, q.list, 0)
  {
  }

  /** Both pools have room for a listed task. */
  lemma RoomFor(slots: seq<TaskObject>, m: Memory, q: Store, i: nat)
    requires Holds(slots, m, q) && Inv(q) && i < |q.list|
    ensures q.list[i] < |q.tasks| && |m.pool| < |slots|
    ensures q.tasks[q.list[i]].fd < INVALID_FD ==> |m.ids| < q.maxTimers
  {
    assert q.list[i] in q.live && HoldsItsId(q, q.list[i]);
    if q.tasks[q.list[i]].fd < INVALID_FD {
      assert q.held != map[];
    }
  }

  lemma DroppedIs(slots: seq<TaskObject>, m: Memory, q: Store, i: nat)
    requires Holds(slots, m, q) && i < |q.list|
    ensures var x := q.list[i]; var m' := Dropped(slots, m, q, i);
      && m'.fields == m.fields[x := BLANK] && m'.pool == [slots[x]] + m.pool
      && m'.ids == (if q.tasks[x].fd < INVALID_FD then [q.tasks[x].fd] + m.ids else m.ids)
      && (i == 0 ==> m'.head == m.links[x] && m'.links == m.links[x := null])
      && (i > 0 ==> m'.head == m.head && m'.links == m.links[x := null][q.list[i - 1] := m.links[x]])
  {
  }

  /** The highest descriptor in the three sets, -1 when they are empty. */
  ghost predicate IsMaxFd(f: FdSets, m: int) {
    && m >= INVALID_FD && (m != INVALID_FD ==> m in f.rd || m in f.wr || m in f.er)
    && forall fd :: fd in f.rd || fd in f.wr || fd in f.er ==> fd <= m
  }

  lemma NoFds(q: Store, f: FdSets, maxfd: int)
    requires Indexed(q) && f == FdSets({}, {}, {}) && maxfd == INVALID_FD
    ensures Asked(q, 0) == f && IsMaxFd(f, maxfd)
  {
  }

  lemma AskedStep(q: Store, i: nat)
    requires Indexed(q) && i < |q.list|
    ensures var t := q.tasks[q.list[i]]; var f := Asked(q, i); var on := t.opts != NO_OPTS.(timer := true);
      Asked(q, i + 1) == FdSets(if on && t.opts.read then f.rd + {t.fd} else f.rd,
                                if on && t.opts.write then f.wr + {t.fd} else f.wr,
                                if on && t.opts.error then f.er + {t.fd} else f.er)
  {
    AskedKindStep(q, i, ReadReady);
    AskedKindStep(q, i, WriteReady);
    AskedKindStep(q, i, ErrorReady);
  }

  lemma AskedKindStep(q: Store, i: nat, kind: Kind)
    requires Indexed(q) && i < |q.list|
    ensures var t := q.tasks[q.list[i]];
      AskedFds(q, i + 1, kind) == if Asks(t, kind) then AskedFds(q, i, kind) + {t.fd} else AskedFds(q, i, kind)
  {
  }

  lemma AskedDrop(q: Store, i: nat)
    requires Inv(q) && i < |q.list|
    ensures Indexed(q) && Indexed(Drop(q, i)) && Asked(Drop(q, i), i) == Asked(q, i)
  {
    AskedKindDrop(q, i, ReadReady);
    AskedKindDrop(q, i, WriteReady);
    AskedKindDrop(q, i, ErrorReady);
  }

  lemma AskedKindDrop(q: Store, i: nat, kind: Kind)
    requires Inv(q) && i < |q.list|
    ensures Indexed(q) && Indexed(Drop(q, i)) && AskedFds(Drop(q, i), i, kind) == AskedFds(q, i, kind)
  {
    SlotsOf(q);
    DropKeeps(q, i);
    hide Inv, Asks, SlotsOk;
    var r := Drop(q, i);
    assert forall k :: 0 <= k < i ==> r.list[k] == q.list[k] && r.tasks[r.list[k]] == q.tasks[q.list[k]];
  }

  /** Dropping a doomed task is what the sweep does next; positions before it are not touched. */
  lemma SweepDrop(q: Store, i: nat)
    requires Inv(q) && i < |q.list|
    ensures Indexed(q) && Inv(Drop(q, i)) && Indexed(Drop(q, i)) && |Drop(q, i).tasks| == |q.tasks|
    ensures |Drop(q, i).list| == |q.list| - 1 && forall k :: 0 <= k < i ==> Drop(q, i).list[k] == q.list[k]
    ensures Doomed(q.tasks[q.list[i]]) ==> Sweep(q, i) == Sweep(Drop(q, i), i)
  {
    DropKeeps(q, i);
  }

  /** The sweep moves past a kept task, and stops at the end of the list. */
  lemma SweepOn(q: Store, i: nat)
    requires Inv(q) && i <= |q.list|
    ensures Indexed(q)
    ensures i == |q.list| ==> Sweep(q, i) == q
    ensures i < |q.list| && !Doomed(q.tasks[q.list[i]]) ==> Sweep(q, i) == Sweep(q, i + 1)
  {
  }

  lemma MarkHolds(slots: seq<TaskObject>, m: Memory, q: Store)
    requires Holds(slots, m, q)
    ensures Indexed(q) && Holds(slots, m.(fields := MarkAll(q.tasks, q.list)), q.(tasks := MarkAll(q.tasks, q.list)))
  {
  }

  /** Marking a list one element at a time. */
  lemma MarkPrefix(tasks: seq<Task>, list: seq<nat>, k: nat)
    requires NoDup(list) && forall j :: 0 <= j < |list| ==> list[j] < |tasks|
    ensures k == 0 ==> MarkAll(tasks, list[..k]) == tasks
    ensures k < |list| ==> MarkAll(tasks, list[..k])[list[k]] == tasks[list[k]]
    ensures k < |list| ==> MarkAll(tasks, list[..k + 1]) == MarkAll(tasks, list[..k])[list[k] := Mark(tasks[list[k]])]
  {
  }

  lemma IdsNegative(q: Store)
    requires Inv(q)
    ensures SlotsOk(q) && (q.ids != [] ==> q.ids[0] < 0)
  {
  }

  lemma SlotsOf(q: Store)
    requires Inv(q)
    ensures Indexed(q) && SlotsOk(q) && (forall k :: 0 <= k < |q.list| ==> q.list[k] !in q.out) && NoDup(q.list)
  {
  }

  lemma TopOfPool(slots: seq<TaskObject>, m: Memory, q: Store)
    requires Holds(slots, m, q)
    ensures Indexed(q) && |m.fields| == |m.links| == |slots| == |q.tasks|
    ensures |m.pool| == |q.pool| && (q.pool != [] ==> m.pool[0] == slots[q.pool[0]])
    ensures Numbered(slots) && m.ids == q.ids
  {
  }

  /** Starting a manager, after stopping it. */
  lemma LaunchIs(env: Env, s: State, mgr: nat)
    requires Inv(s.store) && mgr !in s.monitors
    ensures var (s2, ok) := MakeTimer(s, ONE_SECOND, mgr, true); var r := SchedulerCalls.LaunchMonitor(env, s, mgr);
      && Inv(s2.store) && s2.monitors == s.monitors && (ok <==> s.store.ids != [] && s.store.pool != [])
      && if !ok then r == s2
         else
           var x := s.store.pool[0];
           && x in s2.store.out && x < |s2.store.tasks| && s2.store.tasks[x].timeOut >= NO_TIMEOUT
           && var s3 := SchedulerModel.ScheduleTask(env, s2, x); r == s3.(monitors := s3.monitors[mgr := x])
  {
    hide Inv, SchedulerModel.ScheduleTask, Extends;
    InvIndexed(s.store);
    MakeTimerKeeps(s, ONE_SECOND, mgr, true);
    InvIndexed(MakeTimer(s, ONE_SECOND, mgr, true).0.store);
    if s.store.ids != [] && s.store.pool != [] {
      MadeTimer(s, ONE_SECOND, mgr, true);
      ScheduleKeeps(env, MakeTimer(s, ONE_SECOND, mgr, true).0, s.store.pool[0]);
    }
  }

  /** The managers' pointers are those of the machine. */
  ghost predicate Points(slots: seq<TaskObject>, pointers: map<nat, TaskObject>, monitors: map<nat, nat>) {
    && pointers.Keys == monitors.Keys
    && forall m :: m in pointers ==>
      pointers[m].slot == monitors[m] && monitors[m] < |slots| && slots[monitors[m]] == pointers[m]
  }

  lemma PointsAt(slots: seq<TaskObject>, pointers: map<nat, TaskObject>, monitors: map<nat, nat>, m: nat)
    requires Points(slots, pointers, monitors)
    ensures m in pointers <==> m in monitors
    ensures m in monitors ==> pointers[m].slot == monitors[m] < |slots| && slots[monitors[m]] == pointers[m]
    ensures Points(slots, pointers - {m}, monitors - {m})
  {
  }

  lemma PointsMore(
    slots: seq<TaskObject>, pointers: map<nat, TaskObject>, monitors: map<nat, nat>, m: nat, t: TaskObject)
    requires Points(slots, pointers, monitors) && t.slot < |slots| && slots[t.slot] == t
    ensures Points(slots, pointers[m := t], monitors[m := t.slot])
  {
  }

  /** A timer request by cases, and what it never changes. */
  lemma MakeTimerCases(s: State, timeOut: int, user: nat, hasCallback: bool)
    requires Inv(s.store)
    ensures Indexed(s.store) && (s.store.pool != [] ==> s.store.pool[0] < |s.store.tasks|)
    ensures var (r, ok) := MakeTimer(s, timeOut, user, hasCallback); var q := s.store;
      && r.stopped == s.stopped && r.monitors == s.monitors
      && r.store.maxTimers == q.maxTimers && |r.store.tasks| == |q.tasks|
      && (ok <==> q.ids != [] && q.pool != []) && (q.ids == [] ==> r == s)
      && r.store ==
           if q.ids == [] then q
           else if q.pool == [] then q.(ids := q.ids[1..], lost := q.lost + {q.ids[0]})
           else Take(q.(ids := q.ids[1..]), Fresh(TimerTask(q.ids[0], timeOut, user, hasCallback)))
  {
    InvIndexed(s.store);
    hide SlotsOk, TasksOk, IdsApart, HeldOk;
  }

  lemma SlotCount(slots: seq<TaskObject>, m: Memory, q: Store)
    requires Holds(slots, m, q)
    ensures |q.tasks| == |slots|
  {
  }

  class Scheduler {
    const env: Env
    const slots: seq<TaskObject>
    const taskPool: Stacks.FixedStack<TaskObject?>
    const timerIdPool: Stacks.FixedStack<int>
    var scheduledTasks: TaskObject?
    var stopScheduler: bool
    /** The `monitor_task` pointers of the child-process managers that have one, by manager. */
    var monitorTasks: map<nat, TaskObject>
    /** The abstract state.  Only the stand-in for client code reads it at run time. */
    var st: State

    ghost predicate PoolsValid()
      reads taskPool, taskPool.base, timerIdPool, timerIdPool.base
    {
      && taskPool.Valid() && taskPool.nil == null
      && timerIdPool.Valid() && timerIdPool.nil == 0
    }

    ghost function Snapshot(): Memory
      requires PoolsValid()
      reads this`scheduledTasks, slots, taskPool, taskPool.base, timerIdPool, timerIdPool.base
    {
      Memory(
        seq(|slots|, k requires 0 <= k < |slots| reads slots => slots[k].Fields()),
        seq(|slots|, k requires 0 <= k < |slots| reads slots => slots[k].next),
        scheduledTasks, taskPool.Contents(), timerIdPool.Contents())
    }

    ghost predicate Valid()
      reads this, slots, taskPool, taskPool.base, timerIdPool, timerIdPool.base
    {
      && PoolsValid()
      && taskPool.base.Length == |slots| && timerIdPool.base.Length == st.store.maxTimers
      && stopScheduler == st.stopped && Points(slots, monitorTasks, st.monitors)
      && Holds(slots, Snapshot(), st.store) && Inv(st.store)
    }

    /** `t` is one of this scheduler's task objects. */
    predicate Mine(t: TaskObject) {
      t.slot < |slots| && slots[t.slot] == t
    }

    lemma Peek(t: TaskObject)
      requires PoolsValid() && Mine(t)
      ensures |Snapshot().fields| == |Snapshot().links| == |slots|
      ensures t.Fields() == Snapshot().fields[t.slot] && t.next == Snapshot().links[t.slot]
      ensures scheduledTasks == Snapshot().head
    {
    }

    lemma Reading(t: TaskObject)
      requires Valid() && Mine(t)
      ensures t.slot < |st.store.tasks| == |slots|
      ensures t.Fields() == st.store.tasks[t.slot] && t.next == Snapshot().links[t.slot]
    {
    }

    // ----- Construction ---------------------------------------------------------------------

    static method MakeTaskPool(maxTasks: nat) returns (pool: Stacks.FixedStack<TaskObject?>, objects: seq<TaskObject>)
      requires maxTasks > 0
      ensures fresh(pool) && fresh(pool.base) && pool.Valid() && pool.nil == null
      ensures pool.base.Length == maxTasks == |objects| && |pool.Contents()| == maxTasks
      ensures forall j :: 0 <= j < maxTasks ==> pool.Contents()[j] == objects[maxTasks - 1 - j]
      ensures forall j :: 0 <= j < maxTasks ==>
        fresh(objects[j]) && objects[j].slot == j && objects[j].Fields() == BLANK
    {
      pool := new Stacks.FixedStack<TaskObject?>(null, maxTasks);
      objects := [];
      for k := 0 to maxTasks
        invariant |objects| == k && pool.Valid() && fresh(pool) && fresh(pool.base)
        invariant pool.base.Length == maxTasks && pool.nil == null && |pool.Contents()| == k
        invariant forall j :: 0 <= j < k ==> fresh(objects[j]) && objects[j].slot == j && objects[j].Fields() == BLANK
        invariant forall j :: 0 <= j < k ==> pool.Contents()[j] == objects[k - 1 - j]
      {
        var task := new TaskObject(k);
        var pushed := pool.Push(task);
        objects := objects + [task];
      }
    }

    static method MakeIdPool(maxTimers: nat) returns (pool: Stacks.FixedStack<int>)
      requires maxTimers > 0
      ensures fresh(pool) && fresh(pool.base) && pool.Valid() && pool.base.Length == maxTimers && pool.nil == 0
      ensures |pool.Contents()| == maxTimers && forall j :: 0 <= j < maxTimers ==> pool.Contents()[j] == -3 - j
    {
      pool := new Stacks.FixedStack<int>(0, maxTimers);
      for id: int := -2 - maxTimers to -2
        invariant pool.Valid() && fresh(pool) && fresh(pool.base) && pool.base.Length == maxTimers && pool.nil == 0
        invariant |pool.Contents()| == id + maxTimers + 2
        invariant forall j :: 0 <= j < |pool.Contents()| ==> pool.Contents()[j] == id - 1 - j
      {
        var pushed := pool.Push(id);
      }
    }

    /** A new scheduler: task objects are pushed in order, timer IDs from -max-2 up to -3. */
    constructor (env: Env, maxTasks: nat, maxTimers: nat)
      requires maxTasks > 0 && maxTimers > 0
      ensures Valid() && Init(st) && this.env == env
      ensures |slots| == maxTasks && st.store.maxTimers == maxTimers
      ensures fresh(this) && fresh(taskPool) && fresh(taskPool.base) && fresh(timerIdPool) && fresh(timerIdPool.base)
      ensures forall k :: 0 <= k < |slots| ==> fresh(slots[k])
    {
      hide Inv, Holds, Init, InitialState, Snapshot, Points, Stacks.FixedStack.Contents, Stacks.FixedStack.Valid;
      var pool, objects := MakeTaskPool(maxTasks);
      var ids := MakeIdPool(maxTimers);
      this.env, slots, taskPool, timerIdPool := env, objects, pool, ids;
      scheduledTasks, stopScheduler, monitorTasks := null, false, map[];
      st := InitialState(maxTasks, maxTimers);
      new;
      InitialStateIs(maxTasks, maxTimers);
      assert timerIdPool.Contents() == st.store.ids;
      Constructed(maxTasks, maxTimers);
    }

    /** Without room for a task or a timer there is no scheduler. */
    static method CreateScheduler(env: Env, maxTasks: nat, maxTimers: nat) returns (s: Scheduler?)
      ensures s == null <==> maxTasks == 0 || maxTimers == 0
      ensures s != null ==> s.Valid() && fresh(s) && Init(s.st)
      ensures s != null ==> |s.st.store.tasks| == maxTasks && s.st.store.maxTimers == maxTimers
    {
      hide Init, Inv, Scheduler.PoolsValid, Scheduler.Snapshot;
      if maxTasks == 0 || maxTimers == 0 {
        return null;
      }
      s := new Scheduler(env, maxTasks, maxTimers);
      SlotCount(s.slots, s.Snapshot(), s.st.store);
    }

    /** What the constructor set up is a valid initial scheduler. */
    lemma Constructed(maxTasks: nat, maxTimers: nat)
      requires maxTasks > 0 && maxTimers > 0 && |slots| == maxTasks && Init(st)
      requires PoolsValid() && taskPool.base.Length == maxTasks && timerIdPool.base.Length == maxTimers
      requires |st.store.tasks| == maxTasks && st.store.maxTimers == maxTimers
      requires scheduledTasks == null && !stopScheduler
      requires monitorTasks == map[]
      requires forall k :: 0 <= k < maxTasks ==> slots[k].slot == k && slots[k].Fields() == st.store.tasks[k]
      requires |taskPool.Contents()| == maxTasks
      requires forall k :: 0 <= k < maxTasks ==> taskPool.Contents()[k] == slots[maxTasks - 1 - k]
      requires timerIdPool.Contents() == st.store.ids
      ensures Valid()
    {
      InitInv(st);
      hide Inv, Holds, Init;
      ghost var m := Snapshot();
      assert m.fields == st.store.tasks;
      InitHolds(slots, m, st);
    }

    // ----- Deadlines ------------------------------------------------------------------------

    /** Arms a task: the next clock reading plus its time-out, by repeated subtraction. */
    method PopulateExpireTime(t: TaskObject)
      requires PoolsValid() && Numbered(slots) && Mine(t) && t.timeOut >= 0
      modifies t`expire
      ensures PoolsValid() && t.expire == Deadline(env.clock(st.ticks), t.timeOut)
      ensures Snapshot() == old(Snapshot()).(
        fields := old(Snapshot().fields)[t.slot := old(t.Fields()).(expire := t.expire)])
    {
      var timeToAdd := t.timeOut;
      t.expire := env.clock(st.ticks);
      ghost var now := env.clock(st.ticks);
      ghost var q := 0;
      while timeToAdd > ONE_SECOND
        invariant 0 <= timeToAdd == t.timeOut - q * ONE_SECOND && q >= 0
        invariant WholeSeconds(t.timeOut) == q + WholeSeconds(timeToAdd)
        invariant t.expire == Timespec(now.sec + q, now.nsec)
      {
        t.expire := t.expire.(sec := t.expire.sec + 1);
        timeToAdd := timeToAdd - ONE_SECOND;
        q := q + 1;
      }
      t.expire := t.expire.(nsec := t.expire.nsec + timeToAdd);
      if t.expire.nsec > ONE_SECOND {
        t.expire := Timespec(t.expire.sec + 1, t.expire.nsec - ONE_SECOND);
      }
    }

    // ----- Creation -------------------------------------------------------------------------

    /** Pops a task object and fills it in; null when the pool is empty. */
    method TakeObject(task: Task, ghost q: Store) returns (t: TaskObject?)
      requires PoolsValid() && Holds(slots, Snapshot(), q) && SlotsOk(q)
      modifies slots, taskPool`current, taskPool.base
      ensures PoolsValid() && (t == null <==> q.pool == []) && (t != null ==> t.Fields() == task)
      ensures t == null ==> Snapshot() == old(Snapshot())
      ensures t != null ==>
        t == slots[q.pool[0]] && Mine(t) && t.slot == q.pool[0] && Holds(slots, Snapshot(), Take(q, task))
    {
      hide Holds, SlotsOk, NoDup, Snapshot;
      ghost var m := Snapshot();
      TopOfPool(slots, m, q);
      t := PopTaskObject();
      if t != null {
        TakeHolds(slots, m, q, task);
        FillSlot(t, task);
        assert Snapshot()
          == m.(fields := m.fields[q.pool[0] := task], links := m.links[q.pool[0] := null], pool := m.pool[1..]);
      }
    }

    /** Hands out a task object, or null when none is left. */
    method CreateTask(fd: int, opts: Opts, timeOut: int, user: nat, cbs: Callbacks) returns (t: TaskObject?)
      requires Valid() && fd >= INVALID_FD && WellFormed(Task(fd, opts, timeOut, Timespec(0, 0), user, cbs))
      modifies this`st, slots, taskPool`current, taskPool.base
      ensures Valid() && (st, t != null) == Create(old(st), Task(fd, opts, timeOut, Timespec(0, 0), user, cbs))
      ensures t != null ==> Mine(t) && t.slot == old(st.store.pool[0])
      ensures t != null ==> t.fd == fd && t.timeOut == timeOut && t.user == user && t.cbs == cbs
      ensures t != null ==> t.opts == Opts(opts.read, opts.write, opts.error, opts.timer, false)
    {
      hide Holds, SlotsOk, Inv, Snapshot, Take, LossesLogged, Points;
      var task := Task(fd, opts, timeOut, Timespec(0, 0), user, cbs);
      IdsNegative(st.store);
      CreateKeeps(st, task);
      TopOfPool(slots, Snapshot(), st.store);
      t := TakeObject(Fresh(task), st.store);
      ghost var m := Snapshot();
      st := Create(st, task).0;
      assert Snapshot() == m;
    }

    /** Creates a timer task; the timer ID popped for it is lost when no task object is left. */
    method CreateTimerTask(timeOut: int, user: nat, hasCallback: bool) returns (t: TaskObject?)
      requires Valid() && timeOut >= NO_TIMEOUT
      modifies this`st, slots, taskPool`current, taskPool.base, timerIdPool`current, timerIdPool.base
      ensures Valid() && (st, t != null) == MakeTimer(old(st), timeOut, user, hasCallback)
      ensures t != null ==> Mine(t) && t.slot == old(st.store.pool[0])
      ensures t != null ==> t.fd == old(st.store.ids[0]) && t.timeOut == timeOut && t.user == user
      ensures t != null ==> t.opts == Opts(false, false, false, true, false)
      ensures t != null ==> t.cbs == Callbacks(false, false, false, hasCallback)
    {
      hide Holds, SlotsOk, Inv, Snapshot, Take, Grows, Points, MakeTimer;
      ghost var q := st.store;
      MakeTimerCases(st, timeOut, user, hasCallback);
      IdsNegative(q);
      MakeTimerKeeps(st, timeOut, user, hasCallback);
      TopOfPool(slots, Snapshot(), q);
      ghost var m0 := Snapshot();
      var id := PopTimerId();
      if id == 0 {
        t := null;
      } else {
        PopIdHolds(slots, m0, q);
        t := TakeObject(Fresh(TimerTask(id, timeOut, user, hasCallback)), q.(ids := q.ids[1..]));
        ghost var m := Snapshot();
        if t == null {
          LoseIdHolds(slots, m, q);
        }
        st := MakeTimer(st, timeOut, user, hasCallback).0;
        assert Snapshot() == m;
      }
    }

    method PopTaskObject() returns (t: TaskObject?)
      requires PoolsValid()
      modifies taskPool`current, taskPool.base
      ensures PoolsValid()
      ensures var pool := old(Snapshot().pool);
        && t == (if pool == [] then null else pool[0])
        && Snapshot() == old(Snapshot()).(pool := if pool == [] then [] else pool[1..])
    {
      t := taskPool.PopAndReturn();
    }

    /** Overwrites one task object, `next` included. */
    method FillSlot(t: TaskObject, task: Task)
      requires PoolsValid() && Numbered(slots) && t.slot < |slots| && slots[t.slot] == t
      modifies t
      ensures t.Fields() == task
      ensures PoolsValid() && Snapshot() == old(Snapshot()).(
        fields := old(Snapshot().fields)[t.slot := task], links := old(Snapshot().links)[t.slot := null])
    {
      t.Fill(task);
    }

    method PopTimerId() returns (id: int)
      requires PoolsValid()
      modifies timerIdPool`current, timerIdPool.base
      ensures PoolsValid()
      ensures var ids := old(Snapshot().ids);
        && id == (if ids == [] then 0 else ids[0])
        && Snapshot() == old(Snapshot()).(ids := if ids == [] then [] else ids[1..])
    {
      id := timerIdPool.PopAndReturn();
    }

    // ----- Scheduling -----------------------------------------------------------------------

    /** Sets REMOVE on one task object. */
    method SetRemove(t: TaskObject)
      requires PoolsValid() && Numbered(slots) && Mine(t)
      modifies t`opts
      ensures PoolsValid() && t.opts.remove
      ensures Snapshot() == old(Snapshot()).(fields := old(Snapshot().fields)[t.slot := Mark(old(t.Fields()))])
    {
      t.opts := t.opts.(remove := true);
    }

    /** Requests removal at the next sweep; a task with descriptor -1 is left alone. */
    method UnscheduleTask(t: TaskObject)
      requires Valid() && Mine(t)
      modifies this`st, t`opts
      ensures Valid() && t.slot < |old(st.store.tasks)| && st == SchedulerModel.UnscheduleTask(old(st), t.slot)
    {
      hide Holds, Inv, Snapshot, Grows;
      ghost var m, q := Snapshot(), st.store;
      Reading(t);
      TopOfPool(slots, m, q);
      UnscheduleKeeps(st, t.slot);
      if t.fd != INVALID_FD {
        PutHolds(slots, m, q, t.slot, Mark(q.tasks[t.slot]));
        SetRemove(t);
        ghost var m1 := Snapshot();
        assert m1 == m.(fields := m.fields[t.slot := Mark(q.tasks[t.slot])]);
        st := SchedulerModel.UnscheduleTask(st, t.slot);
        assert Snapshot() == m1;
      }
    }

    /** Moves a task's deadline; refused for a task that is to be removed. */
    method RescheduleTask(t: TaskObject) returns (ok: bool)
      requires Valid() && Mine(t) && t.slot in st.store.live && (t.opts.remove || t.timeOut >= 0)
      modifies this`st, t`expire
      ensures Valid() && t.slot < |old(st.store.tasks)| && ok == !old(st.store.tasks[t.slot].opts.remove)
      ensures old(st.store.tasks[t.slot].opts.remove) || old(st.store.tasks[t.slot].timeOut) >= 0
      ensures st == SchedulerModel.RescheduleTask(env, old(st), t.slot)
    {
      Reading(t);
      ok := !t.opts.remove;
      if ok {
        Rearm(t, false);
      }
    }

    /** Arms a task and counts the clock reading. */
    method Rearm(t: TaskObject, repeat: bool)
      requires Valid() && Mine(t) && t.slot in st.store.live && t.timeOut >= 0
      modifies this`st, t`expire
      ensures Valid() && t.slot < |old(st.store.tasks)| && old(st.store.tasks[t.slot].timeOut) >= 0
      ensures st == Arm(env, old(st), t.slot, repeat)
    {
      hide Holds, Inv, Snapshot, Grows, Points;
      ghost var m, q := Snapshot(), st.store;
      Reading(t);
      TopOfPool(slots, m, q);
      ArmKeeps(env, st, t.slot, repeat);
      ghost var task := Arm(env, st, t.slot, repeat).store.tasks[t.slot];
      PutHolds(slots, m, q, t.slot, task);
      PopulateExpireTime(t);
      ghost var m1 := Snapshot();
      assert m1 == m.(fields := m.fields[t.slot := task]);
      st := Arm(env, st, t.slot, repeat);
      assert Snapshot() == m1;
    }

    /** Drops option bits without a callback, arms a timed task, and appends the task to the list. */
    method ScheduleTask(t: TaskObject)
      requires Valid() && Mine(t) && t.slot in st.store.out
      modifies this`st, this`scheduledTasks, slots
      ensures Valid() && t.slot < |old(st.store.tasks)| && old(st.store.tasks[t.slot].timeOut) >= NO_TIMEOUT
      ensures st == SchedulerModel.ScheduleTask(env, old(st), t.slot)
    {
      hide Holds, Inv, Snapshot, SchedulerModel.ScheduleTask, Scheduled, Enlist, Grows, SlotsOk;
      ghost var m, q := Snapshot(), st.store;
      Reading(t);
      TopOfPool(slots, m, q);
      ScheduleKeeps(env, st, t.slot);
      ScheduleStore(env, st, t.slot);
      SlotsOf(q);
      ghost var task := Scheduled(env, q.tasks[t.slot], st.ticks);
      PutHolds(slots, m, q, t.slot, task);
      EnlistHolds(slots, m, q, t.slot, task);
      Prepare(t);
      Append(t, Put(q, t.slot, task));
      ghost var m1 := Snapshot();
      st := SchedulerModel.ScheduleTask(env, st, t.slot);
      assert st.store == Enlist(q, t.slot, task);
      assert Snapshot() == m1;
    }

    /** Drops option bits without a callback and arms a timed task. */
    method Prepare(t: TaskObject)
      requires PoolsValid() && Numbered(slots) && Mine(t) && t.timeOut >= NO_TIMEOUT
      modifies t`opts, t`expire
      ensures PoolsValid()
      ensures Snapshot() == old(Snapshot()).(
        fields := old(Snapshot().fields)[t.slot := Scheduled(env, old(t.Fields()), st.ticks)])
    {
      ghost var m, task := Snapshot(), t.Fields();
      hide Snapshot;
      NormalizeOpts(t);
      ghost var m1 := Snapshot();
      assert m1 == m.(fields := m.fields[t.slot := task.(opts := Normalized(task))]);
      if t.opts.timer {
        PopulateExpireTime(t);
        assert Snapshot() == m1.(fields := m1.fields[t.slot := Scheduled(env, task, st.ticks)]);
      }
    }

    method NormalizeOpts(t: TaskObject)
      requires PoolsValid() && Numbered(slots) && Mine(t)
      modifies t`opts
      ensures PoolsValid() && t.Fields() == old(t.Fields()).(opts := Normalized(old(t.Fields())))
      ensures Snapshot() == old(Snapshot()).(fields := old(Snapshot().fields)[t.slot := t.Fields()])
    {
      var opts := t.opts;
      opts := opts.(read := opts.read && t.cbs.read);
      opts := opts.(write := opts.write && t.cbs.write);
      opts := opts.(error := opts.error && t.cbs.error);
      opts := opts.(timer := opts.timer && t.cbs.timeout && t.timeOut != NO_TIMEOUT);
      opts := opts.(remove := opts.remove || opts == NO_OPTS);
      assert opts == Normalized(t.Fields());
      t.opts := opts;
    }

    /** Walks to the end of the list and links the task there. */
    method Append(t: TaskObject, ghost q: Store)
      requires PoolsValid() && Mine(t) && Holds(slots, Snapshot(), q)
      modifies this`scheduledTasks, slots
      ensures PoolsValid() && t.Fields() == old(t.Fields())
      ensures Snapshot() == (if q.list == [] then old(Snapshot()).(head := t)
        else old(Snapshot()).(links := old(Snapshot().links)[q.list[|q.list| - 1] := t]))
    {
      if scheduledTasks == null {
        scheduledTasks := t;
      } else {
        var tail := scheduledTasks;
        ghost var k := 0;
        while tail.next != null
          invariant k < |q.list| && tail == slots[q.list[k]]
          decreases |q.list| - k
        {
          assert Snapshot().links[q.list[k]] == At(slots, q.list, k + 1);
          tail := tail.next;
          k := k + 1;
        }
        assert Snapshot().links[q.list[k]] == At(slots, q.list, k + 1);
        tail.next := t;
      }
    }

    /** The first scheduled task with this descriptor or timer ID, or null. */
    method FindTask(fd: int) returns (t: TaskObject?)
      requires Valid()
      ensures t == null ==> forall k :: 0 <= k < |st.store.list| && st.store.list[k] < |st.store.tasks| ==>
                st.store.tasks[st.store.list[k]].fd != fd
      ensures t != null ==> exists k :: FoundAt(t, fd, k)
    {
      hide Inv;
      t := scheduledTasks;
      ghost var k := 0;
      while t != null && t.fd != fd
        invariant k <= |st.store.list| && t == At(slots, st.store.list, k)
        invariant forall j :: 0 <= j < k ==> st.store.tasks[st.store.list[j]].fd != fd
        decreases |st.store.list| - k
      {
        assert Snapshot().links[st.store.list[k]] == At(slots, st.store.list, k + 1);
        assert Snapshot().fields[st.store.list[k]].fd == t.fd;
        t := t.next;
        k := k + 1;
      }
      if t != null {
        assert Snapshot().fields[st.store.list[k]].fd == t.fd;
        assert FoundAt(t, fd, k);
      }
    }

    /** `t` is the object at position `k`, the first one there with this descriptor. */
    ghost predicate FoundAt(t: TaskObject, fd: int, k: nat)
      reads this`st
    {
      && k < |st.store.list| && st.store.list[k] < |st.store.tasks| && t.slot == st.store.list[k] && Mine(t)
      && st.store.tasks[st.store.list[k]].fd == fd
      && forall j :: 0 <= j < k && st.store.list[j] < |st.store.tasks| ==> st.store.tasks[st.store.list[j]].fd != fd
    }

    /** Marks every scheduled task for removal and raises the stop flag. */
    method StopScheduler()
      requires Valid()
      modifies this`st, this`stopScheduler, slots
      ensures Valid() && Indexed(old(st.store)) && st == SchedulerModel.StopScheduler(old(st))
    {
      hide Inv, Holds, Snapshot;
      ghost var m, q := Snapshot(), st.store;
      TopOfPool(slots, m, q);
      SlotsOf(q);
      MarkAllKeeps(q);
      MarkList(q);
      ghost var m1 := Snapshot();
      MarkHolds(slots, m, q);
      stopScheduler := true;
      st := SchedulerModel.StopScheduler(st);
      assert Snapshot() == m1;
    }

    method First() returns (t: TaskObject?)
      requires PoolsValid()
      ensures t == Snapshot().head
    {
      t := scheduledTasks;
    }

    method MarkList(ghost q: Store)
      requires PoolsValid() && Holds(slots, Snapshot(), q) && NoDup(q.list)
      modifies slots
      ensures PoolsValid() && Indexed(q)
      ensures Snapshot() == old(Snapshot()).(fields := MarkAll(q.tasks, q.list))
    {
      hide Holds, Snapshot, MarkAll, At;
      ghost var m := Snapshot();
      TopOfPool(slots, m, q);
      WalkerAt(slots, m, q, 0);
      MarkPrefix(q.tasks, q.list, 0);
      var t := First();
      ghost var k := 0;
      while t != null
        invariant PoolsValid() && k <= |q.list| && t == At(slots, q.list, k)
        invariant Snapshot() == m.(fields := MarkAll(q.tasks, q.list[..k]))
        decreases |q.list| - k
      {
        WalkerAt(slots, m, q, k);
        MarkPrefix(q.tasks, q.list, k);
        Peek(t);
        SetRemove(t);
        Peek(t);
        t := t.next;
        k := k + 1;
      }
      WalkerAt(slots, m, q, k);
      assert q.list[..k] == q.list;
    }

    // ----- Callbacks ------------------------------------------------------------------------

    /** Client code: one call into the interface, if the interface permits it. */
    method PerformAction(a: Action)
      requires Valid()
      modifies this`st, this`scheduledTasks, this`stopScheduler, this`monitorTasks, slots
      modifies taskPool`current, taskPool.base, timerIdPool`current, timerIdPool.base
      ensures Valid() && Inv(old(st.store)) && st == Perform(env, old(st), a)
    {
      hide Inv, Holds, Snapshot;
      TopOfPool(slots, Snapshot(), st.store);
      if Permitted(st.store, a) {
        match a
        case CreateTask(fd, opts, timeOut, user, cbs) =>
          var t := CreateTask(fd, opts, timeOut, user, cbs);
        case CreateTimer(timeOut, user, hasCallback) =>
          var t := CreateTimerTask(timeOut, user, hasCallback);
        case Schedule(x) => ScheduleTask(slots[x]);
        case Unschedule(x) => UnscheduleTask(slots[x]);
        case Reschedule(x) => Reading(slots[x]); var ok := RescheduleTask(slots[x]);
        case Stop => StopScheduler();
      }
    }

    /** `child_proc_mgr_stop`: unschedules the manager's task and forgets it. */
    method HaltMonitor(mgr: nat)
      requires Valid()
      modifies this`st, this`monitorTasks, slots
      ensures Valid() && Inv(old(st.store)) && st == SchedulerCalls.HaltMonitor(env, old(st), mgr)
      ensures monitorTasks == old(monitorTasks) - {mgr}
    {
      hide Inv, Holds, Snapshot, Points, SchedulerModel.UnscheduleTask;
      PointsAt(slots, monitorTasks, st.monitors, mgr);
      if mgr in monitorTasks {
        PerformLogs(env, st, Unschedule(st.monitors[mgr]));
        Reading(monitorTasks[mgr]);
        UnscheduleTask(monitorTasks[mgr]);
        ghost var m := Snapshot();
        monitorTasks := monitorTasks - {mgr};
        st := st.(monitors := st.monitors - {mgr});
        assert Snapshot() == m;
      }
    }

    /** `child_proc_mgr_start`: whether it succeeds is whether there was a timer ID and a task object. */
    method LaunchMonitor(mgr: nat) returns (ok: bool)
      requires Valid()
      modifies this`st, this`scheduledTasks, this`stopScheduler, this`monitorTasks, slots
      modifies taskPool`current, taskPool.base, timerIdPool`current, timerIdPool.base
      ensures Valid() && Inv(old(st.store)) && st == SchedulerCalls.LaunchMonitor(env, old(st), mgr)
      ensures ok <==> mgr in monitorTasks
    {
      hide Inv, Holds, Snapshot, MakeTimer, SchedulerModel.ScheduleTask, Grows, Points;
      HaltMonitor(mgr);
      ghost var s1 := st;
      PointsAt(slots, monitorTasks, st.monitors, mgr);
      LaunchIs(env, s1, mgr);
      var t := CreateTimerTask(ONE_SECOND, mgr, true);
      ok := t != null;
      if ok {
        ScheduleTask(t);
        ghost var m := Snapshot();
        PointsMore(slots, monitorTasks, st.monitors, mgr, t);
        monitorTasks := monitorTasks[mgr := t];
        st := st.(monitors := st.monitors[mgr := t.slot]);
        assert Snapshot() == m;
      }
    }

    /** Client code: one call. */
    method ExecuteCall(c: ClientCall)
      requires Valid()
      modifies this`st, this`scheduledTasks, this`stopScheduler, this`monitorTasks, slots
      modifies taskPool`current, taskPool.base, timerIdPool`current, timerIdPool.base
      ensures Valid() && Inv(old(st.store)) && st == Execute(env, old(st), c)
    {
      hide Inv, Holds, Snapshot, Perform, SchedulerCalls.HaltMonitor, SchedulerCalls.LaunchMonitor;
      match c
      case Api(a) => PerformAction(a);
      case StartMonitor(mgr) => var ok := LaunchMonitor(mgr);
      case StopMonitor(mgr) => HaltMonitor(mgr);
    }

    method RunScript(calls: seq<ClientCall>)
      requires Valid()
      modifies this`st, this`scheduledTasks, this`stopScheduler, this`monitorTasks, slots
      modifies taskPool`current, taskPool.base, timerIdPool`current, timerIdPool.base
      ensures Valid() && Inv(old(st.store)) && st == ExecuteAll(env, old(st), calls)
    {
      hide Holds, Snapshot, Inv, Execute, Grows;
      ghost var goal := ExecuteAll(env, st, calls);
      var k := 0;
      while k < |calls|
        invariant k <= |calls| && Valid()
        invariant ExecuteAll(env, st, calls[k..]) == goal
      {
        ExecuteCall(calls[k]);
        k := k + 1;
      }
    }

    /** Calls back into client code on behalf of the task at position `i`. */
    method InvokeCallback(t: TaskObject, ghost i: nat, kind: Kind, tick: nat) returns (done: bool)
      requires Valid() && i < |st.store.list| && t.slot == st.store.list[i] && Mine(t)
      requires HasCallback(t.cbs, kind)
      modifies this`st, this`scheduledTasks, this`stopScheduler, this`monitorTasks, slots
      modifies taskPool`current, taskPool.base, timerIdPool`current, timerIdPool.base
      ensures Valid() && Inv(old(st.store)) && HasCallback(old(t.cbs), kind)
      ensures i < |old(st.store.list)| && old(st.store.list[i]) < |old(st.store.tasks)|
      ensures old(st.store.tasks[st.store.list[i]].cbs) == old(t.cbs)
      ensures (st, done) == Fire(env, old(st), i, kind, tick)
    {
      hide Holds, Snapshot, Inv;
      Reading(t);
      ghost var m := Snapshot();
      var script := env.callback(st.calls);
      st := Began(st, Fired(t.slot, kind, t.fd, tick, st.calls));
      assert Snapshot() == m;
      RunScript(script.calls);
      done := script.complete;
    }

    // ----- Dispatching ----------------------------------------------------------------------

    /** `t` is the object at position `i` of the list. */
    ghost predicate Listed(t: TaskObject, i: nat)
      reads this`st
    {
      i < |st.store.list| && t.slot == st.store.list[i] && Mine(t)
    }

    method ErrorStep(t: TaskObject, ghost i: nat, f: FdSets, tick: nat) returns (f': FdSets)
      requires Valid() && Listed(t, i)
      modifies this`st, this`scheduledTasks, this`stopScheduler, this`monitorTasks, slots
      modifies taskPool`current, taskPool.base, timerIdPool`current, timerIdPool.base
      ensures Valid() && Listed(t, i) && Inv(old(st.store)) && Grows(old(st), st)
      ensures (st, f') == ErrorPart(env, old(st), i, f, tick)
    {
      hide Holds, Snapshot, Inv, Fire, Grows;
      Reading(t);
      ListedTask(st, i);
      GrowsReflexive(st);
      f' := f;
      if t.opts.error && t.fd in f.er {
        ghost var s0 := st;
        var done := InvokeCallback(t, i, ErrorReady, tick);
        PositionStays(s0, st, i);
        Reading(t);
        f' := f.(er := f.er - {t.fd});
      }
    }

    method ReadStep(t: TaskObject, ghost i: nat, f: FdSets, tick: nat, expired: bool) returns (f': FdSets, rv: bool)
      requires Valid() && Listed(t, i) && (expired ==> t.timeOut != NO_TIMEOUT)
      modifies this`st, this`scheduledTasks, this`stopScheduler, this`monitorTasks, slots
      modifies taskPool`current, taskPool.base, timerIdPool`current, timerIdPool.base
      ensures Valid() && Listed(t, i) && Inv(old(st.store)) && Grows(old(st), st)
      ensures i < |old(st.store.list)| && old(st.store.list[i]) < |old(st.store.tasks)|
      ensures expired ==> old(st.store.tasks[st.store.list[i]].timeOut) != NO_TIMEOUT
      ensures (st, f', rv) == ReadPart(env, old(st), i, f, tick, expired)
    {
      hide Holds, Snapshot, Inv, Fire, Grows;
      Reading(t);
      ListedTask(st, i);
      GrowsReflexive(st);
      ghost var s0 := st;
      f', rv := f, true;
      if t.opts.read {
        if t.fd in f.rd {
          rv := InvokeCallback(t, i, ReadReady, tick);
          PositionStays(s0, st, i);
          Reading(t);
          f' := f.(rd := f.rd - {t.fd});
        } else if expired {
          rv := InvokeCallback(t, i, TimedOut, tick);
          PositionStays(s0, st, i);
        } else {
          rv := false;
        }
      }
    }

    method WriteStep(t: TaskObject, ghost i: nat, f: FdSets, tick: nat, expired: bool, rv: bool)
      returns (f': FdSets, done: bool)
      requires Valid() && Listed(t, i) && (expired ==> t.timeOut != NO_TIMEOUT)
      modifies this`st, this`scheduledTasks, this`stopScheduler, this`monitorTasks, slots
      modifies taskPool`current, taskPool.base, timerIdPool`current, timerIdPool.base
      ensures Valid() && Listed(t, i) && Inv(old(st.store)) && Grows(old(st), st)
      ensures i < |old(st.store.list)| && old(st.store.list[i]) < |old(st.store.tasks)|
      ensures expired ==> old(st.store.tasks[st.store.list[i]].timeOut) != NO_TIMEOUT
      ensures (st, f', done) == WritePart(env, old(st), i, f, tick, expired, rv)
    {
      hide Holds, Snapshot, Inv, Fire, Grows;
      Reading(t);
      ListedTask(st, i);
      GrowsReflexive(st);
      ghost var s0 := st;
      f', done := f, rv;
      if t.opts.write {
        if t.fd in f.wr {
          if rv {
            done := InvokeCallback(t, i, WriteReady, tick);
            PositionStays(s0, st, i);
            Reading(t);
          }
          f' := f.(wr := f.wr - {t.fd});
        } else if expired {
          if rv {
            done := InvokeCallback(t, i, TimedOut, tick);
            PositionStays(s0, st, i);
          }
        } else {
          done := false;
        }
      }
    }

    method TimerStep(t: TaskObject, ghost i: nat, tick: nat, expired: bool) returns (done: bool)
      requires Valid() && Listed(t, i) && t.cbs.timeout && (expired ==> t.timeOut != NO_TIMEOUT)
      modifies this`st, this`scheduledTasks, this`stopScheduler, this`monitorTasks, slots
      modifies taskPool`current, taskPool.base, timerIdPool`current, timerIdPool.base
      ensures Valid() && Listed(t, i) && Inv(old(st.store)) && Grows(old(st), st)
      ensures i < |old(st.store.list)| && old(st.store.list[i]) < |old(st.store.tasks)|
      ensures old(st.store.tasks[st.store.list[i]].cbs.timeout)
      ensures expired ==> old(st.store.tasks[st.store.list[i]].timeOut) != NO_TIMEOUT
      ensures (st, done) == TimerPart(env, old(st), i, tick, expired)
    {
      hide Holds, Snapshot, Inv, Fire, Grows;
      Reading(t);
      ListedTask(st, i);
      GrowsReflexive(st);
      done := false;
      if expired {
        ghost var s0 := st;
        done := InvokeCallback(t, i, TimedOut, tick);
        PositionStays(s0, st, i);
        if !done {
          Reading(t);
          ListedTask(st, i);
          ghost var s1 := st;
          ArmKeeps(env, st, t.slot, true);
          Rearm(t, true);
          PositionStays(s1, st, i);
          GrowsTransitive(s0, s1, st);
        }
      }
    }

    /** Serves one task: true means complete, to be unscheduled. */
    method ProcessTask(t: TaskObject, ghost i: nat, f: FdSets) returns (f': FdSets, done: bool)
      requires Valid() && Listed(t, i) && !t.opts.remove
      modifies this`st, this`scheduledTasks, this`stopScheduler, this`monitorTasks, slots
      modifies taskPool`current, taskPool.base, timerIdPool`current, timerIdPool.base
      ensures Valid() && Listed(t, i) && Inv(old(st.store))
      ensures i < |old(st.store.list)| && old(st.store.list[i]) < |old(st.store.tasks)|
      ensures !old(st.store.tasks[st.store.list[i]].opts.remove)
      ensures (st, f', done) == Process(env, old(st), i, f)
    {
      hide Holds, Snapshot, Inv, ErrorPart, ReadPart, WritePart, TimerPart, Grows;
      Reading(t);
      ListedTask(st, i);
      ghost var m := Snapshot();
      var tick := st.ticks;
      var expired := t.timeOut != NO_TIMEOUT && Expired(env.clock(tick), t.expire);
      st := Enter(t);
      assert Snapshot() == m;
      ghost var s0 := st;
      f' := f;
      if t.fd > INVALID_FD {
        f' := ErrorStep(t, i, f', tick);
        PositionStays(s0, st, i);
        Reading(t);
        ghost var s1 := st;
        var rv;
        f', rv := ReadStep(t, i, f', tick, expired);
        PositionStays(s1, st, i);
        Reading(t);
        f', done := WriteStep(t, i, f', tick, expired, rv);
      } else {
        done := TimerStep(t, i, tick, expired);
      }
    }

    /** The state in which the task at position `i` has been turned to. */
    function Enter(t: TaskObject): State
      reads this`st, t
    {
      st.(ticks := st.ticks + 1, log := st.log + [Visited(t.slot, t.Fields())])
    }

    method VisitTask(t: TaskObject, ghost i: nat, f: FdSets) returns (f': FdSets)
      requires Valid() && Listed(t, i)
      modifies this`st, this`scheduledTasks, this`stopScheduler, this`monitorTasks, slots
      modifies taskPool`current, taskPool.base, timerIdPool`current, timerIdPool.base
      ensures Valid() && Listed(t, i) && Inv(old(st.store)) && i < |old(st.store.list)|
      ensures (st, f') == Visit(env, old(st), i, f) && Grows(old(st), st)
    {
      hide Holds, Snapshot, Inv, Process, Grows;
      Reading(t);
      ListedTask(st, i);
      GrowsReflexive(st);
      f' := f;
      if !t.opts.remove {
        ghost var s0 := st;
        var done;
        f', done := ProcessTask(t, i, f);
        if done {
          ghost var s1 := st;
          ListedTask(st, i);
          UnscheduleKeeps(st, t.slot);
          UnscheduleTask(t);
          GrowsTransitive(s0, s1, st);
        }
      }
    }

    /** Walks the list as it grows, until its end or until a callback stopped the scheduler. */
    method DispatchAll(f: FdSets)
      requires Valid()
      modifies this`st, this`scheduledTasks, this`stopScheduler, this`monitorTasks, slots
      modifies taskPool`current, taskPool.base, timerIdPool`current, timerIdPool.base
      ensures Valid() && Inv(old(st.store)) && st == Dispatch(env, old(st), 0, f)
    {
      hide Holds, Snapshot, Inv, Visit, Grows, At;
      ghost var goal := Dispatch(env, st, 0, f);
      var sets := f;
      ghost var i := 0;
      WalkerAt(slots, Snapshot(), st.store, 0);
      var t := First();
      while t != null && !stopScheduler
        invariant Valid() && i <= |st.store.list|
        invariant forall k :: 0 <= k < |st.store.list| ==> st.store.list[k] < |slots|
        invariant t == At(slots, st.store.list, i)
        invariant Dispatch(env, st, i, sets) == goal
        decreases |slots| - i
      {
        WalkerAt(slots, Snapshot(), st.store, i);
        ListFits(st.store);
        sets := VisitTask(t, i, sets);
        WalkerAt(slots, Snapshot(), st.store, i);
        ListFits(st.store);
        Peek(t);
        t := t.next;
        i := i + 1;
      }
      WalkerAt(slots, Snapshot(), st.store, i);
    }

    // ----- The sweep ------------------------------------------------------------------------

    method PushTimerId(id: int)
      requires PoolsValid() && |Snapshot().ids| < timerIdPool.base.Length
      modifies timerIdPool`current, timerIdPool.base
      ensures PoolsValid() && Snapshot() == old(Snapshot()).(ids := [id] + old(Snapshot().ids))
    {
      hide Stacks.LimitedStep, Stacks.Step;
      var pushed := timerIdPool.Push(id);
    }

    method PushTaskObject(t: TaskObject)
      requires PoolsValid() && |Snapshot().pool| < taskPool.base.Length
      modifies taskPool`current, taskPool.base
      ensures PoolsValid() && Snapshot() == old(Snapshot()).(pool := [t] + old(Snapshot().pool))
    {
      hide Stacks.LimitedStep, Stacks.Step;
      var pooled := taskPool.Push(t);
      if pooled == Stacks.ERROR_FULL {
        assert false;
      }
    }

    /** Returns a task object, and its timer ID, to the pools and blanks it.  There is always room, so
        the branch that would free the object instead is dead. */
    method DestroyTask(t: TaskObject)
      requires PoolsValid() && Numbered(slots) && Mine(t)
      requires |Snapshot().pool| < taskPool.base.Length
      requires t.fd < INVALID_FD ==> |Snapshot().ids| < timerIdPool.base.Length
      modifies t, taskPool`current, taskPool.base, timerIdPool`current, timerIdPool.base
      ensures PoolsValid()
      ensures var m := old(Snapshot());
        |m.fields| == |m.links| == |slots| &&
        Snapshot() == m.(fields := m.fields[t.slot := BLANK], links := m.links[t.slot := null], pool := [t] + m.pool,
                         ids := if old(t.fd) < INVALID_FD then [old(t.fd)] + m.ids else m.ids)
    {
      hide Snapshot;
      Peek(t);
      if t.fd < INVALID_FD {
        PushTimerId(t.fd);
      }
      PushTaskObject(t);
      FillSlot(t, BLANK);
    }

    /** Unlinks and destroys the task at position `i`; `prev` is the object before it, null at the head. */
    method RemoveAfter(prev: TaskObject?, i: nat)
      requires Valid() && i < |st.store.list| && st.store.list[i] < |slots|
      requires i == 0 <==> prev == null
      requires i > 0 ==> Listed(prev, i - 1)
      modifies this`st, this`scheduledTasks, slots
      modifies taskPool`current, taskPool.base, timerIdPool`current, timerIdPool.base
      ensures Valid() && Inv(old(st.store)) && i < |old(st.store.list)| && old(st.store.list[i]) < |old(st.store.tasks)|
      ensures st == old(st).(store := Drop(old(st.store), i))
    {
      hide Holds, Snapshot, Inv, At, Unlinked;
      ghost var m, q := Snapshot(), st.store;
      TopOfPool(slots, m, q);
      DropKeeps(q, i);
      SlotsOf(q);
      RoomFor(slots, m, q, i);
      DropHolds(slots, m, q, i);
      WalkerAt(slots, m, q, 0);
      WalkerAt(slots, m, q, i);
      var t;
      if prev == null {
        t := First();
      } else {
        WalkerAt(slots, m, q, i - 1);
        Peek(prev);
        t := prev.next;
      }
      Peek(t);
      var next := t.next;
      DestroyTask(t);
      Relink(prev, next);
      ghost var m1 := Snapshot();
      assert m1 == Dropped(slots, m, q, i) by { DroppedIs(slots, m, q, i); }
      st := st.(store := Drop(st.store, i));
      assert Snapshot() == m1;
    }

    method Relink(prev: TaskObject?, next: TaskObject?)
      requires PoolsValid() && Numbered(slots) && (prev != null ==> Mine(prev))
      modifies this`scheduledTasks, slots
      ensures PoolsValid()
      ensures Snapshot() == if prev == null then old(Snapshot()).(head := next)
        else old(Snapshot()).(links := old(Snapshot().links)[prev.slot := next])
    {
      if prev == null {
        scheduledTasks := next;
      } else {
        prev.next := next;
      }
    }

    /** Clears removed tasks from the front of the list. */
    method SweepFront()
      requires Valid()
      modifies this`st, this`scheduledTasks, slots
      modifies taskPool`current, taskPool.base, timerIdPool`current, timerIdPool.base
      ensures Valid() && Inv(old(st.store)) && st == old(st).(store := st.store)
      ensures Sweep(st.store, 0) == Sweep(old(st.store), 0)
      ensures st.store.list != [] ==> st.store.list[0] < |st.store.tasks| && !Doomed(st.store.tasks[st.store.list[0]])
    {
      hide Holds, Snapshot, Inv, Sweep, Drop;
      ghost var s0, goal := st, Sweep(st.store, 0);
      while scheduledTasks != null && Doomed(scheduledTasks.Fields())
        invariant Valid() && st == s0.(store := st.store) && Sweep(st.store, 0) == goal
        decreases |st.store.list|
      {
        AtHead();
        SweepDrop(st.store, 0);
        RemoveAfter(null, 0);
      }
      AtHead();
    }

    /** What the walker at position `i` sees ahead. */
    lemma Ahead(t: TaskObject, i: nat)
      requires Valid() && Listed(t, i)
      ensures Indexed(st.store) && |slots| == |st.store.tasks|
      ensures t.next == null <==> i + 1 == |st.store.list|
      ensures t.next != null ==> Listed(t.next, i + 1) && t.next.Fields() == st.store.tasks[st.store.list[i + 1]]
    {
      hide Inv;
      WalkerAt(slots, Snapshot(), st.store, i);
      WalkerAt(slots, Snapshot(), st.store, i + 1);
      Peek(t);
      if t.next != null { Reading(t.next); }
    }

    /** What the walker sees at the head. */
    lemma AtHead()
      requires Valid()
      ensures Indexed(st.store) && |slots| == |st.store.tasks|
      ensures scheduledTasks == null <==> st.store.list == []
      ensures scheduledTasks != null ==> Listed(scheduledTasks, 0)
      ensures scheduledTasks != null ==> scheduledTasks.Fields() == st.store.tasks[st.store.list[0]]
    {
      hide Inv;
      WalkerAt(slots, Snapshot(), st.store, 0);
      if scheduledTasks != null { Reading(scheduledTasks); }
    }

    /** Scans ahead of the kept task at position `i` for removed tasks. */
    method SweepAhead(t: TaskObject, i: nat)
      requires Valid() && Listed(t, i) && Indexed(st.store)
      modifies this`st, this`scheduledTasks, slots
      modifies taskPool`current, taskPool.base, timerIdPool`current, timerIdPool.base
      ensures Valid() && Inv(old(st.store)) && st == old(st).(store := st.store) && Listed(t, i) && Indexed(st.store)
      ensures i < |old(st.store.list)| && Sweep(st.store, i + 1) == Sweep(old(st.store), i + 1)
      ensures Asked(st.store, i + 1) == Asked(old(st.store), i + 1)
      ensures |st.store.list| <= |old(st.store.list)|
      ensures i + 1 < |st.store.list| ==> !Doomed(st.store.tasks[st.store.list[i + 1]])
    {
      hide Holds, Snapshot, Inv, Asked, Sweep, Drop;
      ghost var s0, goal, asked := st, Sweep(st.store, i + 1), Asked(st.store, i + 1);
      while t.next != null && Doomed(t.next.Fields())
        invariant Valid() && st == s0.(store := st.store) && Listed(t, i)
        invariant Indexed(st.store) && |st.store.list| <= |s0.store.list|
        invariant Sweep(st.store, i + 1) == goal && Asked(st.store, i + 1) == asked
        decreases |st.store.list|
      {
        Ahead(t, i);
        SweepDrop(st.store, i + 1);
        AskedDrop(st.store, i + 1);
        RemoveAfter(t, i + 1);
      }
      Ahead(t, i);
    }

    /** Adds a kept task's descriptor to the sets it watches; a task with only the TIMER bit has none. */
    method Collect(t: TaskObject, f: FdSets, maxfd: int) returns (f': FdSets, maxfd': int)
      requires IsMaxFd(f, maxfd) && (t.opts.Io() ==> t.fd >= 0)
      ensures IsMaxFd(f', maxfd')
      ensures var on := t.opts != NO_OPTS.(timer := true);
        f' == FdSets(if on && t.opts.read then f.rd + {t.fd} else f.rd,
                     if on && t.opts.write then f.wr + {t.fd} else f.wr,
                     if on && t.opts.error then f.er + {t.fd} else f.er)
    {
      f', maxfd' := f, maxfd;
      if t.opts != NO_OPTS.(timer := true) {
        if t.opts.read { maxfd' := if t.fd > maxfd' then t.fd else maxfd'; f' := f'.(rd := f'.rd + {t.fd}); }
        if t.opts.write { maxfd' := if t.fd > maxfd' then t.fd else maxfd'; f' := f'.(wr := f'.wr + {t.fd}); }
        if t.opts.error { maxfd' := if t.fd > maxfd' then t.fd else maxfd'; f' := f'.(er := f'.er + {t.fd}); }
      }
    }

    /** The sweep of the pump: removes every doomed task in place and collects, from the others, the
        descriptor sets and the highest descriptor for `select`. */
    method SweepList() returns (f: FdSets, maxfd: int)
      requires Valid()
      modifies this`st, this`scheduledTasks, slots
      modifies taskPool`current, taskPool.base, timerIdPool`current, timerIdPool.base
      ensures Valid() && Inv(old(st.store)) && st == old(st).(store := Sweep(old(st.store), 0))
      ensures Indexed(st.store) && f == Asked(st.store, |st.store.list|) && IsMaxFd(f, maxfd)
    {
      hide Holds, Snapshot, Inv, Asked, Doomed, IsMaxFd;
      ghost var s0, goal := st, Sweep(st.store, 0);
      SweepFront();
      AtHead();
      f, maxfd := FdSets({}, {}, {}), INVALID_FD;
      NoFds(st.store, f, maxfd);
      var t := scheduledTasks;
      var i := 0;
      while t != null
        invariant Valid() && st == s0.(store := st.store)
        invariant Indexed(st.store) && i <= |st.store.list| && (t == null <==> i == |st.store.list|)
        invariant t != null ==> Listed(t, i) && !Doomed(st.store.tasks[st.store.list[i]])
        invariant Sweep(st.store, i) == goal && f == Asked(st.store, i) && IsMaxFd(f, maxfd)
        decreases |st.store.list| - i
      {
        ListedTask(st, i);
        Reading(t);
        AskedStep(st.store, i);
        SweepOn(st.store, i);
        f, maxfd := Collect(t, f, maxfd);
        SweepAhead(t, i);
        Ahead(t, i);
        t := t.next;
        i := i + 1;
      }
      SweepOn(st.store, i);
    }

    // ----- The pump -------------------------------------------------------------------------

    /** One turn: sweep, select, dispatch. */
    method PumpOnce()
      requires Valid()
      modifies this`st, this`scheduledTasks, this`stopScheduler, this`monitorTasks, slots
      modifies taskPool`current, taskPool.base, timerIdPool`current, timerIdPool.base
      ensures Valid() && Inv(old(st.store)) && st == Pump(env, old(st))
    {
      hide Holds, Snapshot, Inv, Dispatch, Sweep, Asked;
      if !stopScheduler {
        var f, maxfd := SweepList();
        ghost var m := Snapshot();
        var result := env.select(st.polls);
        st := st.(polls := st.polls + 1);
        assert Snapshot() == m;
        match result
        case SelectFailed =>
        case SelectReady(ready) => DispatchAll(Restrict(f, ready));
      }
    }
  }
}
