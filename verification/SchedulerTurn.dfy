/** What one pump turn does: the sweep is a filter, the walk visits each task at most once and in list
    order, and readiness of a descriptor is handed to at most one callback per direction. */
module SchedulerTurn {
  import opened Sequences
  import opened Deadlines
  import opened SchedulerModel
  import opened SchedulerCalls
  import opened SchedulerPump
  import opened SchedulerDispatch

  // ----- The sweep --------------------------------------------------------------------------

  function Survivors(tasks: seq<Task>, list: seq<nat>): seq<nat>
    requires forall k :: 0 <= k < |list| ==> list[k] < |tasks|
  {
    if list == [] then []
    else if Doomed(tasks[list[0]]) then Survivors(tasks, list[1..])
    else [list[0]] + Survivors(tasks, list[1..])
  }

  /** The removed tasks, latest first: the order in which they lie on top of the pool. */
  function Removed(tasks: seq<Task>, list: seq<nat>): seq<nat>
    requires forall k :: 0 <= k < |list| ==> list[k] < |tasks|
  {
    if list == [] then []
    else if Doomed(tasks[list[0]]) then Removed(tasks, list[1..]) + [list[0]]
    else Removed(tasks, list[1..])
  }

  /** The timer IDs among the descriptors of these tasks. */
  function TimerIdsOf(tasks: seq<Task>, slots: seq<nat>): seq<int>
    requires forall k :: 0 <= k < |slots| ==> slots[k] < |tasks|
  {
    if slots == [] then []
    else
      var n := |slots| - 1;
      TimerIdsOf(tasks, slots[..n]) + (if tasks[slots[n]].fd < INVALID_FD then [tasks[slots[n]].fd] else [])
  }

  lemma {:induction false} RemovedInRange(tasks: seq<Task>, list: seq<nat>)
    requires forall k :: 0 <= k < |list| ==> list[k] < |tasks|
    ensures forall k :: 0 <= k < |Removed(tasks, list)| ==> Removed(tasks, list)[k] in list
  {
    if list != [] {
      RemovedInRange(tasks, list[1..]);
    }
  }

  /** Blanking a task that the list does not mention changes nothing about the list. */
  lemma {:induction false} SweepFrame(tasks: seq<Task>, list: seq<nat>, x: nat, t: Task)
    requires forall k :: 0 <= k < |list| ==> list[k] < |tasks| && list[k] != x
    requires x < |tasks|
    ensures Survivors(tasks[x := t], list) == Survivors(tasks, list)
    ensures Removed(tasks[x := t], list) == Removed(tasks, list)
  {
    if list != [] {
      SweepFrame(tasks, list[1..], x, t);
    }
  }

  lemma {:induction false} TimerIdsFrame(tasks: seq<Task>, slots: seq<nat>, x: nat, t: Task)
    requires forall k :: 0 <= k < |slots| ==> slots[k] < |tasks| && slots[k] != x
    requires x < |tasks|
    ensures TimerIdsOf(tasks[x := t], slots) == TimerIdsOf(tasks, slots)
  {
    if slots != [] {
      TimerIdsFrame(tasks, slots[..|slots| - 1], x, t);
    }
  }

  /** What the sweep from position `i` on leaves behind, given the slots it removed. */
  ghost predicate SweptTo(q: Store, i: nat, gone: seq<nat>, r: Store)
    requires Indexed(q) && i <= |q.list|
  {
    && gone == Removed(q.tasks, q.list[i..])
    && (forall k :: 0 <= k < |gone| ==> gone[k] < |q.tasks|)
    && r.list == q.list[..i] + Survivors(q.tasks, q.list[i..])
    && r.pool == gone + q.pool
    && r.ids == TimerIdsOf(q.tasks, gone) + q.ids
    && |r.tasks| == |q.tasks| && r.out == q.out && r.maxTimers == q.maxTimers && r.lost == q.lost
    && (forall x :: 0 <= x < |q.tasks| ==> r.tasks[x] == if x in gone then BLANK else q.tasks[x])
  }

  lemma DropLists(q: Store, i: nat)
    requires Indexed(q) && i < |q.list| && Doomed(q.tasks[q.list[i]]) && q.list[i] !in q.list[i + 1..]
    ensures Indexed(Drop(q, i)) && i <= |Drop(q, i).list| && Drop(q, i).list[..i] == q.list[..i]
    ensures Survivors(Drop(q, i).tasks, Drop(q, i).list[i..]) == Survivors(q.tasks, q.list[i..])
    ensures Removed(Drop(q, i).tasks, Drop(q, i).list[i..]) + [q.list[i]] == Removed(q.tasks, q.list[i..])
    ensures q.list[i] !in Removed(Drop(q, i).tasks, Drop(q, i).list[i..])
  {
    var x, rest := q.list[i], q.list[i + 1..];
    assert Drop(q, i).list[i..] == rest && q.list[i..] == [x] + rest && q.list[i..][1..] == rest;
    SweepFrame(q.tasks, rest, x, BLANK);
    RemovedInRange(q.tasks, rest);
  }

  lemma TimerIdsSnoc(tasks: seq<Task>, slots: seq<nat>, x: nat)
    requires x < |tasks| && forall k :: 0 <= k < |slots| ==> slots[k] < |tasks|
    ensures TimerIdsOf(tasks, slots + [x])
         == TimerIdsOf(tasks, slots) + (if tasks[x].fd < INVALID_FD then [tasks[x].fd] else [])
  {
    assert (slots + [x])[..|slots|] == slots;
  }

  lemma DropIds(q: Store, i: nat, gone: seq<nat>)
    requires i < |q.list| && q.list[i] < |q.tasks|
    requires forall k :: 0 <= k < |gone| ==> gone[k] < |q.tasks| && gone[k] != q.list[i]
    ensures TimerIdsOf(Drop(q, i).tasks, gone) + Drop(q, i).ids == TimerIdsOf(q.tasks, gone + [q.list[i]]) + q.ids
  {
    var x := q.list[i];
    TimerIdsFrame(q.tasks, gone, x, BLANK);
    TimerIdsSnoc(q.tasks, gone, x);
    hide TimerIdsOf;
    var fds := if q.tasks[x].fd < INVALID_FD then [q.tasks[x].fd] else [];
    assert Drop(q, i).ids == fds + q.ids;
    ConcatAssoc(TimerIdsOf(q.tasks, gone), fds, q.ids);
  }

  lemma DropFields(tasks: seq<Task>, gone: seq<nat>, x: nat, after: seq<Task>)
    requires x < |tasks| == |after|
    requires forall y :: 0 <= y < |tasks| ==> after[y] == if y in gone then BLANK else tasks[x := BLANK][y]
    ensures forall y :: 0 <= y < |tasks| ==> after[y] == if y in gone + [x] then BLANK else tasks[y]
  {
    assert forall y :: y in gone + [x] <==> y in gone || y == x;
  }

  /** Dropping the task at position `i` is one step of the filter. */
  lemma DropIsStep(q: Store, i: nat, gone: seq<nat>, r: Store)
    requires Indexed(q) && i < |q.list| && Doomed(q.tasks[q.list[i]]) && q.list[i] !in q.list[i + 1..]
    requires Indexed(Drop(q, i)) && i <= |Drop(q, i).list| && SweptTo(Drop(q, i), i, gone, r)
    ensures SweptTo(q, i, gone + [q.list[i]], r)
  {
    hide Survivors, Removed, TimerIdsOf, Doomed;
    var x := q.list[i];
    DropLists(q, i);
    assert forall k :: 0 <= k < |gone| ==> gone[k] < |q.tasks| && gone[k] != x;
    DropIds(q, i, gone);
    assert Drop(q, i).tasks == q.tasks[x := BLANK];
    DropFields(q.tasks, gone, x, r.tasks);
    ConcatAssoc(gone, [x], q.pool);
  }

  lemma KeepIsStep(q: Store, i: nat, gone: seq<nat>, r: Store)
    requires Indexed(q) && i < |q.list| && !Doomed(q.tasks[q.list[i]]) && SweptTo(q, i + 1, gone, r)
    ensures SweptTo(q, i, gone, r)
  {
    var x, rest := q.list[i], q.list[i + 1..];
    assert q.list[i..] == [x] + rest && q.list[i..][1..] == rest;
    ConcatAssoc(q.list[..i], [x], Survivors(q.tasks, rest));
    assert q.list[..i + 1] == q.list[..i] + [x];
  }

  lemma SweepIndex(q: Store, i: nat)
    requires Inv(q) && i < |q.list|
    ensures Indexed(q) && q.list[i] !in q.list[i + 1..]
  {
  }

  lemma EndIsSwept(q: Store)
    requires Indexed(q)
    ensures SweptTo(q, |q.list|, [], q)
  {
    assert q.list[|q.list|..] == [] && q.list[..|q.list|] == q.list;
  }

  lemma {:induction false} SweepIsFilterFrom(q: Store, i: nat) returns (gone: seq<nat>)
    requires Inv(q) && i <= |q.list|
    ensures SweptTo(q, i, gone, Sweep(q, i))
    decreases |q.list| - i
  {
    hide Inv, SweptTo;
    if i == |q.list| {
      gone := [];
      InvIndexed(q);
      EndIsSwept(q);
    } else {
      SweepIndex(q, i);
      if Doomed(q.tasks[q.list[i]]) {
        DropKeeps(q, i);
        InvIndexed(Drop(q, i));
        gone := SweepIsFilterFrom(Drop(q, i), i);
        DropIsStep(q, i, gone, Sweep(q, i));
        gone := gone + [q.list[i]];
      } else {
        gone := SweepIsFilterFrom(q, i + 1);
        KeepIsStep(q, i, gone, Sweep(q, i));
      }
    }
  }

  /** The in-place sweep refines a filter: the list keeps, in order, exactly the tasks that are not
      doomed; the others, and their timer IDs, lie latest first on the pools; nothing else changes. */
  lemma SweepIsFilter(q: Store)
    requires Inv(q)
    ensures SweptTo(q, 0, Removed(q.tasks, q.list), Sweep(q, 0))
    ensures Sweep(q, 0).list == Survivors(q.tasks, q.list)
  {
    var gone := SweepIsFilterFrom(q, 0);
    assert q.list[0..] == q.list;
  }

  /** A listed task that is not doomed stays listed and as it is. */
  lemma {:induction false} SweepSpares(q: Store, i: nat, x: nat)
    requires Inv(q) && i <= |q.list| && x in q.list && x < |q.tasks| && !Doomed(q.tasks[x])
    ensures var r := Sweep(q, i); x in r.list && |r.tasks| == |q.tasks| && r.tasks[x] == q.tasks[x]
    decreases |q.list| - i
  {
    hide Inv;
    if i < |q.list| {
      SweepIndex(q, i);
      if Doomed(q.tasks[q.list[i]]) {
        DropKeeps(q, i);
        DropSpares(q, i, x);
        SweepSpares(Drop(q, i), i, x);
      } else {
        SweepSpares(q, i + 1, x);
      }
    }
  }

  lemma DropSpares(q: Store, i: nat, x: nat)
    requires i < |q.list| && q.list[i] < |q.tasks| && x in q.list && x < |q.tasks| && x != q.list[i]
    ensures var r := Drop(q, i); x in r.list && |r.tasks| == |q.tasks| && r.tasks[x] == q.tasks[x]
  {
    var k :| 0 <= k < |q.list| && q.list[k] == x;
    assert Drop(q, i).list[if k < i then k else k - 1] == x;
  }

  // ----- The sweep, task by task ------------------------------------------------------------

  lemma {:induction false} SurvivorsAre(tasks: seq<Task>, list: seq<nat>, x: nat)
    requires (forall k :: 0 <= k < |list| ==> list[k] < |tasks|) && x < |tasks|
    ensures x in Survivors(tasks, list) <==> x in list && !(tasks[x].opts.remove && tasks[x].fd != -1)
    ensures x in Removed(tasks, list) <==> x in list && tasks[x].opts.remove && tasks[x].fd != -1
    ensures Subsequence(Survivors(tasks, list), list)
  {
    if list != [] {
      SurvivorsAre(tasks, list[1..], x);
      assert list == [list[0]] + list[1..];
    }
  }

  ghost predicate CarriedBy(tasks: seq<Task>, slots: seq<nat>, id: int)
    requires forall k :: 0 <= k < |slots| ==> slots[k] < |tasks|
  {
    id < -1 && exists k :: 0 <= k < |slots| && tasks[slots[k]].fd == id
  }

  lemma CarriedInit(tasks: seq<Task>, slots: seq<nat>, id: int)
    requires slots != [] && forall k :: 0 <= k < |slots| ==> slots[k] < |tasks|
    ensures var n := |slots| - 1;
      CarriedBy(tasks, slots, id) <==> CarriedBy(tasks, slots[..n], id) || (id < -1 && tasks[slots[n]].fd == id)
  {
    var n := |slots| - 1;
    if CarriedBy(tasks, slots, id) {
      var k :| 0 <= k < |slots| && tasks[slots[k]].fd == id;
      assert k < n ==> slots[..n][k] == slots[k];
    }
    if CarriedBy(tasks, slots[..n], id) {
      var k :| 0 <= k < n && tasks[slots[..n][k]].fd == id;
      assert slots[..n][k] == slots[k];
    }
  }

  lemma {:induction false} TimerIdsAre(tasks: seq<Task>, slots: seq<nat>, id: int)
    requires forall k :: 0 <= k < |slots| ==> slots[k] < |tasks|
    ensures id in TimerIdsOf(tasks, slots) <==> CarriedBy(tasks, slots, id)
  {
    if slots != [] {
      TimerIdsAre(tasks, slots[..|slots| - 1], id);
      CarriedInit(tasks, slots, id);
      hide CarriedBy;
    }
  }

  /** Requested for removal, and not the special descriptor. */
  predicate Goes(q: Store, x: nat)
    requires x < |q.tasks|
  {
    x in q.list && q.tasks[x].opts.remove && q.tasks[x].fd != -1
  }

  /** All bytes are zero. */
  predicate Zeroed(t: Task) {
    && t.fd == 0 && t.timeOut == 0 && t.expire.sec == 0 && t.expire.nsec == 0 && t.user == 0
    && t.opts == Opts(false, false, false, false, false) && t.cbs == Callbacks(false, false, false, false)
  }

  /** What becomes of one task object in a sweep: it is zeroed and goes from the list to the pool, with REMOVE set and a
      descriptor other than -1, or stays where and as it is; what stays on the list stays in order. */
  lemma SweepExactly(q: Store, x: nat)
    requires Inv(q) && x < |q.tasks|
    ensures var r := Sweep(q, 0);
      && (x in r.list <==> x in q.list && !Goes(q, x)) && (x in r.pool <==> x in q.pool || Goes(q, x))
      && |r.tasks| == |q.tasks| && (!Goes(q, x) ==> r.tasks[x] == q.tasks[x]) && (Goes(q, x) ==> Zeroed(r.tasks[x]))
      && Subsequence(r.list, q.list) && NoDup(r.list) && NoDup(r.pool)
  {
    SweepIsFilter(q);
    SurvivorsAre(q.tasks, q.list, x);
    hide Survivors, Removed, TimerIdsOf, Subsequence;
    assert q.list[0..] == q.list;
    PoolNoDup(Sweep(q, 0));
    ListNoDup(Sweep(q, 0));
  }

  lemma PoolNoDup(q: Store)
    requires Inv(q)
    ensures NoDup(q.pool)
  {
  }

  /** The timer IDs in the pool after a sweep are those before it and those of the timers that went. */
  lemma SweepReturnsIds(q: Store, id: int)
    requires Inv(q)
    ensures id in Sweep(q, 0).ids
       <==> id in q.ids || (id < -1 && exists x :: 0 <= x < |q.tasks| && Goes(q, x) && q.tasks[x].fd == id)
  {
    SweepIsFilter(q);
    var gone := Removed(q.tasks, q.list);
    TimerIdsAre(q.tasks, gone, id);
    RemovedGo(q);
    hide Survivors, Removed, TimerIdsOf;
    assert q.list[0..] == q.list;
    if id < -1 && exists x :: 0 <= x < |q.tasks| && Goes(q, x) && q.tasks[x].fd == id {
      var x :| 0 <= x < |q.tasks| && Goes(q, x) && q.tasks[x].fd == id;
      assert x in gone;
      var k :| 0 <= k < |gone| && gone[k] == x;
    }
  }

  lemma RemovedGo(q: Store)
    requires Inv(q)
    ensures Indexed(q)
    ensures forall x :: 0 <= x < |q.tasks| ==> (x in Removed(q.tasks, q.list) <==> Goes(q, x))
  {
    forall x | 0 <= x < |q.tasks| ensures x in Removed(q.tasks, q.list) <==> Goes(q, x) {
      SurvivorsAre(q.tasks, q.list, x);
    }
  }

  /** `AskedFds` is what the code collects: the descriptors of the surviving tasks that have the bit. */
  lemma AskedAreWatched(q: Store, kind: Kind, fd: int)
    requires Inv(q)
    ensures fd in AskedFds(q, |q.list|, kind)
       <==> exists k :: 0 <= k < |q.list| && q.tasks[q.list[k]].fd == fd && Watching(q.tasks[q.list[k]], kind)
  {
    hide IdsApart, HeldOk, TasksOk;
    if k :| 0 <= k < |q.list| && q.tasks[q.list[k]].fd == fd && Watching(q.tasks[q.list[k]], kind) {
      assert Asks(q.tasks[q.list[k]], kind);
    }
  }

  // ----- One turn ---------------------------------------------------------------------------

  /** The slots that matching events of a turn concern, in order. */
  function News(s: State, r: State, q: Query): seq<nat> {
    if |Select(s.log, q)| <= |Select(r.log, q)| then Select(r.log, q)[|Select(s.log, q)|..] else []
  }

  /** The sets `select` left for the dispatcher of this turn; empty when there is no dispatch. */
  function ReadyFds(env: Env, s: State): FdSets
    requires Inv(s.store)
  {
    var q := Swept(s).store;
    if s.stopped || env.select(s.polls).SelectFailed? then FdSets({}, {}, {})
    else Restrict(Asked(q, |q.list|), env.select(s.polls).sets)
  }

  /** A turn visits each task at most once, in list order, so it visits at most `max_concurrent_tasks`
      even when callbacks keep scheduling; and it misses no task that remains without REMOVE. */
  lemma TurnVisitsOnce(env: Env, s: State)
    requires Inv(s.store)
    ensures var r := Pump(env, s); var visits := News(s, r, Visits);
      && NoDup(visits) && |visits| <= |s.store.tasks|
      && Subsequence(visits, r.store.list)
      && (s.stopped || env.select(s.polls).SelectFailed? ==> visits == [])
      && (!s.stopped && env.select(s.polls).SelectReady? ==>
            forall p :: 0 <= p < |r.store.list| && Unmarked(r, p) ==> r.store.list[p] in visits)
  {
    hide Inv, Select, Dispatch;
    var r := Pump(env, s);
    if !s.stopped && env.select(s.polls).SelectReady? {
      var s1 := Swept(s);
      assert s1.log == s.log && |s1.store.tasks| == |s.store.tasks| by { SweptFrame(s); }
      var visits := DispatchWalk(env, s1, 0, ReadyFds(env, s));
      assert r.store.list[0..] == r.store.list;
      assert News(s, r, Visits) == visits;
      ListNoDup(r.store);
      SubsequenceNoDup(visits, r.store.list);
    } else {
      SweptFrame(s);
    }
  }

  lemma SweptFrame(s: State)
    requires Inv(s.store)
    ensures Swept(s).log == s.log && |Swept(s).store.tasks| == |s.store.tasks| && Swept(s).stopped == s.stopped
  {
    hide Removed, Survivors, TimerIdsOf;
    SweepIsFilter(s.store);
  }

  lemma ListNoDup(q: Store)
    requires Inv(q)
    ensures NoDup(q.list) && |q.list| <= |q.tasks|
  {
  }

  /** Within one turn, readiness of a descriptor in one direction reaches at most one callback, that of
      the first visited task watching it; for reads and errors it always does. */
  lemma TurnHandsOutOnce(env: Env, s: State, kind: Kind, fd: int)
    requires Inv(s.store) && fd >= 0
    ensures var r := Pump(env, s);
      HandedOnce(kind, fd in FdsOf(ReadyFds(env, s), kind), News(s, r, Watches(kind, fd)), News(s, r, Handed(kind, fd)))
  {
    hide Inv, Select, Dispatch;
    SweptFrame(s);
    var r := Pump(env, s);
    if !s.stopped && env.select(s.polls).SelectReady? {
      var watchers, handed := ReadinessHandedOnce(env, Swept(s), 0, ReadyFds(env, s), kind, fd);
      assert News(s, r, Watches(kind, fd)) == watchers;
      assert News(s, r, Handed(kind, fd)) == handed;
    }
  }

  /** A turn in which `select` fails sweeps and does nothing else. */
  lemma FailedTurnOnlySweeps(env: Env, s: State)
    requires Inv(s.store) && !s.stopped && env.select(s.polls).SelectFailed?
    ensures var r := Pump(env, s);
      && r.store == Sweep(s.store, 0) && r.log == s.log && r.ticks == s.ticks && r.calls == s.calls
      && r.polls == s.polls + 1 && !r.stopped
  {
    hide Inv, Sweep;
  }

  /** Some scheduled task without REMOVE has the descriptor, and the bit. */
  ghost predicate Wanted(q: Store, fd: int, kind: Kind) {
    exists k :: 0 <= k < |q.list| && q.list[k] < |q.tasks| && WantedBy(q.tasks[q.list[k]], fd, kind)
  }

  predicate WantedBy(t: Task, fd: int, kind: Kind) {
    && t.fd == fd && !t.opts.remove
    && match kind
       case ErrorReady => t.opts.error
       case ReadReady => t.opts.read
       case WriteReady => t.opts.write
       case TimedOut => false
  }

  lemma SweptWanted(q: Store, fd: int, kind: Kind)
    requires Inv(q)
    ensures fd in AskedFds(Sweep(q, 0), |Sweep(q, 0).list|, kind) <==> Wanted(q, fd, kind)
  {
    hide Sweep, Inv, Subsequence, NoDup, AskedFds;
    var r := Sweep(q, 0);
    AskedAreWatched(r, kind, fd);
    InvIndexed(q);
    InvIndexed(r);
    if Wanted(q, fd, kind) {
      var k :| 0 <= k < |q.list| && q.list[k] < |q.tasks| && WantedBy(q.tasks[q.list[k]], fd, kind);
      SweepExactly(q, q.list[k]);
      var j :| 0 <= j < |r.list| && r.list[j] == q.list[k];
      assert Watching(r.tasks[r.list[j]], kind);
    }
    if j :| 0 <= j < |r.list| && r.tasks[r.list[j]].fd == fd && Watching(r.tasks[r.list[j]], kind) {
      SweepSize(q);
      SweepExactly(q, r.list[j]);
      ListedFd(r, j);
      var k :| 0 <= k < |q.list| && q.list[k] == r.list[j];
      assert WantedBy(q.tasks[q.list[k]], fd, kind);
    }
  }

  lemma SweepSize(q: Store)
    requires Inv(q)
    ensures |Sweep(q, 0).tasks| == |q.tasks|
  {
    hide Survivors, Removed, TimerIdsOf;
    SweepIsFilter(q);
    InvIndexed(q);
  }

  /** A listed task that watches something has a descriptor. */
  lemma ListedFd(q: Store, k: nat)
    requires Inv(q) && k < |q.list|
    ensures q.list[k] < |q.tasks| && (q.tasks[q.list[k]].opts.Io() ==> q.tasks[q.list[k]].fd >= 0)
  {
  }

  /** A descriptor is ready in a direction for the tasks of this turn exactly when `select` reports it, and a
      scheduled task without REMOVE asks for it. */
  lemma ReadyMeans(env: Env, s: State, fd: int)
    requires Inv(s.store) && !s.stopped && env.select(s.polls).SelectReady?
    ensures var f, reported := ReadyFds(env, s), env.select(s.polls).sets;
      && (fd in f.rd <==> fd in reported.rd && Wanted(s.store, fd, ReadReady))
      && (fd in f.wr <==> fd in reported.wr && Wanted(s.store, fd, WriteReady))
      && (fd in f.er <==> fd in reported.er && Wanted(s.store, fd, ErrorReady))
  {
    SweptWanted(s.store, fd, ReadReady);
    SweptWanted(s.store, fd, WriteReady);
    SweptWanted(s.store, fd, ErrorReady);
    hide Inv, Wanted, AskedFds, Sweep;
  }

  /** Whether `select` reports the descriptor in that direction. */
  predicate Reports(sets: FdSets, fd: int, kind: Kind) {
    match kind
    case ErrorReady => fd in sets.er
    case ReadReady => fd in sets.rd
    case WriteReady => fd in sets.wr
    case TimedOut => false
  }

  /** A direction that `select` reports for a scheduled task that asks for it, and that keeps clear of REMOVE
      through the turn, runs exactly one ready-callback in that turn -- if it is reading or error, or if
      no task that is scheduled in the end watches that descriptor for both writing and reading. */
  lemma ReadyRuns(env: Env, s: State, kind: Kind, k: nat)
    requires Inv(s.store) && !s.stopped && env.select(s.polls).SelectReady?
    requires k < |s.store.list| && s.store.list[k] < |s.store.tasks|
    requires var t := s.store.tasks[s.store.list[k]];
      t.fd >= 0 && WantedBy(t, t.fd, kind) && Reports(env.select(s.polls).sets, t.fd, kind)
    requires var r := Pump(env, s); var fd := s.store.tasks[s.store.list[k]].fd;
      && !r.stopped && |r.store.tasks| == |s.store.tasks| && !r.store.tasks[s.store.list[k]].opts.remove
      && (kind.WriteReady? ==> OnlyWrites(r.store, fd))
    ensures var x := s.store.list[k]; |News(s, Pump(env, s), Handed(kind, s.store.tasks[x].fd))| == 1
  {
    hide Inv, Select, Dispatch, Wanted, ReadyFds, OnlyWrites, Goes;
    var x := s.store.list[k];
    var t, f, s1, r := s.store.tasks[x], ReadyFds(env, s), Swept(s), Pump(env, s);
    IsWanted(s.store, k, kind);
    ReadyMeans(env, s, t.fd);
    var p := SweptPosition(s.store, k, kind);
    SweptFrame(s);
    assert r == Dispatch(env, s1, 0, f) by { PumpDispatches(env, s); }
    DispatchSees(env, s1, 0, f, kind, p);
    var watchers, handed := ReadinessHandedOnce(env, s1, 0, f, kind, t.fd);
    assert News(s, r, Handed(kind, t.fd)) == handed;
    assert watchers != [];
    if kind.WriteReady? { FirstOnlyWrites(r.store, t.fd, watchers[0]); }
  }

  /** No scheduled task watches the descriptor for both writing and reading. */
  ghost predicate OnlyWrites(q: Store, fd: int) {
    forall x :: x in q.list && x < |q.tasks| && q.tasks[x].fd == fd && q.tasks[x].opts.write ==> !q.tasks[x].opts.read
  }

  lemma FirstOnlyWrites(q: Store, fd: int, x: nat)
    requires OnlyWrites(q, fd) && WatcherIn(q, x, WriteReady, fd)
    ensures !q.tasks[x].opts.read
  {
  }

  lemma IsWanted(q: Store, k: nat, kind: Kind)
    requires k < |q.list| && q.list[k] < |q.tasks| && WantedBy(q.tasks[q.list[k]], q.tasks[q.list[k]].fd, kind)
    ensures Wanted(q, q.tasks[q.list[k]].fd, kind)
  {
  }

  lemma PumpDispatches(env: Env, s: State)
    requires Inv(s.store) && !s.stopped && env.select(s.polls).SelectReady?
    ensures Pump(env, s) == Dispatch(env, Swept(s), 0, ReadyFds(env, s))
  {
    hide Inv, Dispatch;
  }

  /** Where a task that is wanted is after the sweep, unchanged. */
  lemma SweptPosition(q: Store, k: nat, kind: Kind) returns (p: nat)
    requires Inv(q) && k < |q.list| && q.list[k] < |q.tasks|
    requires WantedBy(q.tasks[q.list[k]], q.tasks[q.list[k]].fd, kind)
    ensures var r, x := Sweep(q, 0), q.list[k];
      p < |r.list| && r.list[p] == x && |r.tasks| == |q.tasks| && r.tasks[x] == q.tasks[x]
  {
    hide Inv, Subsequence;
    SweepExactly(q, q.list[k]);
    p :| 0 <= p < |Sweep(q, 0).list| && Sweep(q, 0).list[p] == q.list[k];
  }

  // ----- Stopping, and the special descriptor -----------------------------------------------

  /** A stopped scheduler dispatches nothing in any later turn, and takes no task off the list. */
  lemma {:induction false} StopIsFinal(env: Env, s: State, steps: seq<Step>, q: Query)
    requires Inv(s.store) && s.stopped
    ensures var r := Run(env, s, steps); r.stopped && Select(r.log, q) == Select(s.log, q) && Grows(s, r)
    decreases |steps|
  {
    hide Inv, Select, Extends, LossesLogged;
    if steps == [] {
      GrowsReflexive(s);
    } else {
      var s1 := Take1(env, s, steps[0]);
      match steps[0] {
        case Call(c) => ExecuteSelect(env, s, c, q);
        case Turn => GrowsReflexive(s);
      }
      StopIsFinal(env, s1, steps[1..], q);
      GrowsTransitive(s, s1, Run(env, s1, steps[1..]));
    }
  }

  /** Stopping sets REMOVE on every scheduled task, including those with the special descriptor, and changes no
      other field and no other task. */
  lemma StopMarksAll(s: State, x: nat)
    requires Inv(s.store) && x < |s.store.tasks|
    ensures var t, r := s.store.tasks[x], StopScheduler(s);
      && r.stopped && |r.store.tasks| == |s.store.tasks| && r.ticks == s.ticks
      && r.store == s.store.(tasks := r.store.tasks)
      && r.store.tasks[x] == if x in s.store.list then t.(opts := t.opts.(remove := true)) else t
  {
  }

  /** After `stop_scheduler`, through any calls and turns, nothing is visited or handed out, and every task
      that was scheduled then stays on the list, in its place, with REMOVE set. */
  lemma StopEndsAll(env: Env, s: State, steps: seq<Step>, q: Query, k: nat)
    requires Inv(s.store) && k < |s.store.list|
    ensures var s1 := Perform(env, s, Stop);
      && Inv(s1.store)
      && var r := Run(env, s1, steps); var x := s.store.list[k];
         && r.stopped && Select(r.log, q) == Select(s.log, q)
         && k < |r.store.list| && r.store.list[k] == x && x < |r.store.tasks| && r.store.tasks[x].opts.remove
  {
    hide Inv, Select, Extends, LossesLogged, StopScheduler;
    InvIndexed(s.store);
    StopMarksAll(s, s.store.list[k]);
    PerformKeeps(env, s, Stop);
    PerformSelect(env, s, Stop, q);
    var s1 := Perform(env, s, Stop);
    StopIsFinal(env, s1, steps, q);
    PositionStays(s1, Run(env, s1, steps), k);
  }

  ghost predicate SpecialAt(q: Store, x: nat) {
    x in q.list && x < |q.tasks| && q.tasks[x].fd == INVALID_FD
  }

  lemma SpecialIsSpared(q: Store, x: nat)
    requires Inv(q) && SpecialAt(q, x)
    ensures SpecialAt(Sweep(q, 0), x)
  {
    SweepSpares(q, 0, x);
  }

  lemma GrowsKeepsSpecial(s: State, r: State, x: nat)
    requires Grows(s, r) && SpecialAt(s.store, x)
    ensures SpecialAt(r.store, x)
  {
    var k :| 0 <= k < |s.store.list| && s.store.list[k] == x;
    PositionStays(s, r, k);
  }

  /** A scheduled task with descriptor -1 stays scheduled in every later state. */
  lemma {:induction false} SpecialStays(env: Env, s: State, steps: seq<Step>, x: nat)
    requires Inv(s.store) && SpecialAt(s.store, x)
    ensures SpecialAt(Run(env, s, steps).store, x)
    decreases |steps|
  {
    hide Inv, SpecialAt, Grows;
    if steps != [] {
      match steps[0] {
        case Call(c) => GrowsKeepsSpecial(s, Execute(env, s, c), x);
        case Turn =>
          SpecialIsSpared(s.store, x);
          if !s.stopped && env.select(s.polls).SelectReady? {
            GrowsKeepsSpecial(Swept(s), Pump(env, s), x);
          }
      }
      SpecialStays(env, Take1(env, s, steps[0]), steps[1..], x);
    }
  }
}
