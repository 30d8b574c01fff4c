/** The reference-counted table of bound sockets, one instance each for TCP and UDP. */
module SocketManager {
  import opened Sequences

  const INVALID_SOCKET_FD: int := -1

  // ----- Specification ----------------------------------------------------------------------

  /** One bound socket and how many holders it has. */
  datatype Entry = Entry(port: int, fd: int, connections: int)

  /** What the outside sees: the operating system's close, then one call per registered listener. */
  datatype Effect = OsClose(fd: int) | Notify(listener: int, fd: int)

  function PortIndex(table: seq<Entry>, port: int): (k: nat)
    ensures k <= |table| && (k < |table| ==> table[k].port == port)
    ensures forall j :: 0 <= j < k ==> table[j].port != port
  {
    if table == [] || table[0].port == port then 0 else 1 + PortIndex(table[1..], port)
  }

  function FdIndex(table: seq<Entry>, fd: int): (k: nat)
    ensures k <= |table| && (k < |table| ==> table[k].fd == fd)
    ensures forall j :: 0 <= j < k ==> table[j].fd != fd
  {
    if table == [] || table[0].fd == fd then 0 else 1 + FdIndex(table[1..], fd)
  }

  function Adjust(table: seq<Entry>, k: nat, delta: int): seq<Entry>
    requires k < |table|
  {
    table[k := table[k].(connections := table[k].connections + delta)]
  }

  /** A request for a port; `answer` is what the operating system says if a new socket is needed. */
  function Get(table: seq<Entry>, port: int, answer: int): (seq<Entry>, int) {
    var k := PortIndex(table, port);
    if k < |table| then (Adjust(table, k, 1), table[k].fd)
    else if answer == INVALID_SOCKET_FD then (table, INVALID_SOCKET_FD)
    else (table + [Entry(port, answer, 1)], answer)
  }

  function Notices(listeners: seq<int>, fd: int): (r: seq<Effect>)
    ensures |r| == |listeners| && forall j :: 0 <= j < |r| ==> r[j] == Notify(listeners[j], fd)
  {
    seq(|listeners|, j requires 0 <= j < |listeners| => Notify(listeners[j], fd))
  }

  /** A close: one holder less; the last one closes the socket and tells every listener. */
  function Close(table: seq<Entry>, fd: int, listeners: seq<int>): (seq<Entry>, seq<Effect>) {
    var k := FdIndex(table, fd);
    if k == |table| then (table, [])
    else if table[k].connections > 1 then (Adjust(table, k, -1), [])
    else (Without(table, k), [OsClose(fd)] + Notices(listeners, fd))
  }

  /** Ports and descriptors are unique, descriptors valid, counts positive. */
  ghost predicate TableOk(table: seq<Entry>) {
    && (forall j, k :: 0 <= j < k < |table| ==> table[j].port != table[k].port && table[j].fd != table[k].fd)
    && (forall k :: 0 <= k < |table| ==> table[k].fd != INVALID_SOCKET_FD && table[k].connections >= 1)
  }

  /** How many holders the socket with this descriptor has, 0 when there is none. */
  function Holders(table: seq<Entry>, fd: int): int {
    var k := FdIndex(table, fd);
    if k < |table| then table[k].connections else 0
  }

  // ----- Traces -----------------------------------------------------------------------------

  datatype Op = GetPort(port: int, answer: int) | CloseFd(fd: int)

  /** What happened: a descriptor was handed out, or given back by a matching close. */
  datatype Event = Got(port: int, fd: int) | Returned(fd: int, effects: seq<Effect>) | Nothing

  function Apply(table: seq<Entry>, op: Op, listeners: seq<int>): (seq<Entry>, Event) {
    match op
    case GetPort(port, answer) =>
      var (t, fd) := Get(table, port, answer);
      (t, if fd == INVALID_SOCKET_FD then Nothing else Got(port, fd))
    case CloseFd(fd) =>
      var (t, effects) := Close(table, fd, listeners);
      (t, if FdIndex(table, fd) < |table| then Returned(fd, effects) else Nothing)
  }

  /** The operating system never answers with a descriptor that is open. */
  predicate FreshAnswer(table: seq<Entry>, op: Op) {
    op.GetPort? ==> op.answer == INVALID_SOCKET_FD || FdIndex(table, op.answer) == |table|
  }

  predicate FreshAnswers(table: seq<Entry>, ops: seq<Op>, listeners: seq<int>)
    decreases |ops|
  {
    ops == [] || (FreshAnswer(table, ops[0]) && FreshAnswers(Apply(table, ops[0], listeners).0, ops[1..], listeners))
  }

  function Run(table: seq<Entry>, ops: seq<Op>, listeners: seq<int>): (seq<Entry>, seq<Event>)
    decreases |ops|
  {
    if ops == [] then (table, [])
    else
      var (t, e) := Apply(table, ops[0], listeners);
      var (t', es) := Run(t, ops[1..], listeners);
      (t', [e] + es)
  }

  function Gets(events: seq<Event>, fd: int): nat {
    if events == [] then 0 else (if events[0].Got? && events[0].fd == fd then 1 else 0) + Gets(events[1..], fd)
  }

  function Closes(events: seq<Event>, fd: int): nat {
    if events == [] then 0 else (if events[0].Returned? && events[0].fd == fd then 1 else 0) + Closes(events[1..], fd)
  }

  // ----- Properties -------------------------------------------------------------------------

  lemma FdIndexIs(table: seq<Entry>, k: nat, fd: int)
    requires TableOk(table) && k < |table| && table[k].fd == fd
    ensures FdIndex(table, fd) == k
  {
  }

  lemma FdIndexNone(table: seq<Entry>, fd: int)
    requires forall k :: 0 <= k < |table| ==> table[k].fd != fd
    ensures FdIndex(table, fd) == |table|
  {
  }

  /** One operation: the table stays in order, the holders of exactly the descriptor concerned change by
      one, and the socket is closed -- once, with one notice per listener -- exactly when none is left. */
  lemma ApplyCounts(table: seq<Entry>, op: Op, listeners: seq<int>, fd: int)
    requires TableOk(table) && FreshAnswer(table, op)
    ensures var (t, e) := Apply(table, op, listeners);
      && TableOk(t)
      && Holders(t, fd) == Holders(table, fd) + (if e.Got? && e.fd == fd then 1 else 0)
                           - (if e.Returned? && e.fd == fd then 1 else 0)
      && (e.Returned? ==> e.effects == if Holders(t, e.fd) == 0 then [OsClose(e.fd)] + Notices(listeners, e.fd) else [])
  {
    var (t, e) := Apply(table, op, listeners);
    match op
    case GetPort(port, answer) =>
      var k := PortIndex(table, port);
      if k < |table| {
        AdjustHolders(table, k, 1, fd);
      } else if answer != INVALID_SOCKET_FD {
        AppendHolders(table, Entry(port, answer, 1), fd);
      }
    case CloseFd(f) =>
      var k := FdIndex(table, f);
      if k < |table| {
        if table[k].connections > 1 {
          AdjustHolders(table, k, -1, fd);
          FdIndexIs(t, k, f);
        } else {
          RemoveHolders(table, k, fd);
          RemoveHolders(table, k, f);
        }
      }
  }

  lemma AdjustHolders(table: seq<Entry>, k: nat, delta: int, fd: int)
    requires TableOk(table) && k < |table| && table[k].connections + delta >= 1
    ensures TableOk(Adjust(table, k, delta))
    ensures Holders(Adjust(table, k, delta), fd) == Holders(table, fd) + (if table[k].fd == fd then delta else 0)
  {
    var t := Adjust(table, k, delta);
    var j := FdIndex(table, fd);
    if j < |table| {
      FdIndexIs(t, j, fd);
      if table[k].fd == fd { FdIndexIs(table, k, fd); }
    } else {
      FdIndexNone(t, fd);
    }
  }

  lemma AppendHolders(table: seq<Entry>, e: Entry, fd: int)
    requires TableOk(table) && TableOk(table + [e])
    ensures Holders(table + [e], fd) == if e.fd == fd then e.connections else Holders(table, fd)
  {
    var t := table + [e];
    var j := FdIndex(table, fd);
    if j < |table| {
      assert t[j] == table[j] && t[j].fd != t[|table|].fd;
      FdIndexIs(t, j, fd);
    } else if e.fd == fd {
      FdIndexIs(t, |table|, fd);
    } else {
      FdIndexNone(t, fd);
    }
  }

  lemma RemoveHolders(table: seq<Entry>, k: nat, fd: int)
    requires TableOk(table) && k < |table|
    ensures TableOk(Without(table, k))
    ensures Holders(Without(table, k), fd) == if table[k].fd == fd then 0 else Holders(table, fd)
  {
    var t := Without(table, k);
    var j := FdIndex(table, fd);
    if table[k].fd == fd || j == |table| {
      FdIndexNone(t, fd);
    } else {
      FdIndexIs(t, if j < k then j else j - 1, fd);
    }
  }

  /** Over any trace: ports and descriptors stay unique and counts positive, and every socket has
      exactly as many holders as requests answered with it minus matching closes -- so it is open
      exactly while that difference is positive. */
  lemma {:induction false} HoldersAreGetsMinusCloses(table: seq<Entry>, ops: seq<Op>, listeners: seq<int>, fd: int)
    requires TableOk(table) && FreshAnswers(table, ops, listeners)
    ensures var (t, events) := Run(table, ops, listeners);
      && TableOk(t) && |events| == |ops|
      && Holders(t, fd) == Holders(table, fd) + Gets(events, fd) - Closes(events, fd)
      && (FdIndex(t, fd) < |t| <==> Holders(t, fd) > 0)
    decreases |ops|
  {
    if ops != [] {
      ApplyCounts(table, ops[0], listeners, fd);
      var (t, e) := Apply(table, ops[0], listeners);
      HoldersAreGetsMinusCloses(t, ops[1..], listeners, fd);
      var events := Run(table, ops, listeners).1;
      assert events[0] == e && events[1..] == Run(t, ops[1..], listeners).1;
    }
  }

  /** A request for a port that no entry has opens it: a valid answer is handed out and recorded behind all
      others, with one holder; an invalid one changes nothing. */
  lemma NewPortIsOpened(table: seq<Entry>, port: int, answer: int)
    requires forall k :: 0 <= k < |table| ==> table[k].port != port
    ensures var (t, fd) := Get(table, port, answer);
      && fd == answer
      && (answer == -1 ==> t == table)
      && (answer != -1 ==>
            && |t| == |table| + 1 && (forall k :: 0 <= k < |table| ==> t[k] == table[k])
            && t[|table|].port == port && t[|table|].fd == answer && t[|table|].connections == 1)
  {
  }

  /** A request for a live port gets the descriptor the port already has: one holder more, and nothing else
      about any entry. */
  lemma LivePortIsShared(table: seq<Entry>, port: int, answer: int, k: nat)
    requires TableOk(table) && k < |table| && table[k].port == port
    ensures var (t, fd) := Get(table, port, answer);
      && fd == table[k].fd && |t| == |table|
      && t[k] == Entry(port, table[k].fd, table[k].connections + 1)
      && forall j :: 0 <= j < |t| && j != k ==> t[j] == table[j]
  {
  }

  /** A close gives up one holder of the socket and nothing else; the last one takes the entry away, leaving
      the others in order, closes the socket and then calls every listener, in order. */
  lemma CloseIs(table: seq<Entry>, fd: int, listeners: seq<int>, k: nat)
    requires TableOk(table) && k < |table| && table[k].fd == fd
    ensures var (t, effects) := Close(table, fd, listeners);
      if table[k].connections > 1 then
        && effects == [] && |t| == |table|
        && t[k] == Entry(table[k].port, fd, table[k].connections - 1)
        && forall j :: 0 <= j < |t| && j != k ==> t[j] == table[j]
      else
        && |t| == |table| - 1 && (forall j :: 0 <= j < |t| ==> t[j] == table[if j < k then j else j + 1])
        && |effects| == |listeners| + 1 && effects[0] == OsClose(fd)
        && forall j :: 0 <= j < |listeners| ==> effects[j + 1] == Notify(listeners[j], fd)
  {
    FdIndexIs(table, k, fd);
  }

  /** A descriptor that no entry has is not closed. */
  lemma UnknownIsNotClosed(table: seq<Entry>, fd: int, listeners: seq<int>)
    requires forall k :: 0 <= k < |table| ==> table[k].fd != fd
    ensures Close(table, fd, listeners) == (table, [])
  {
  }

  // ----- The linked table -------------------------------------------------------------------

  class SockInfo {
    var next: SockInfo?
    const port: int
    const sockfd: int
    var connections: int

    constructor (port: int, sockfd: int)
      ensures this.port == port && this.sockfd == sockfd && connections == 1 && next == null
    {
      this.port, this.sockfd := port, sockfd;
      next, connections := null, 1;
    }
  }

  class SocketTable {
    var head: SockInfo?
    ghost var spine: seq<SockInfo>

    ghost predicate NextOk(k: nat)
      requires k < |spine|
      reads this, spine
    {
      spine[k].next == if k + 1 < |spine| then spine[k + 1] else null
    }

    ghost predicate Valid()
      reads this, spine
    {
      && head == (if spine == [] then null else spine[0])
      && NoDup(spine) && forall k :: 0 <= k < |spine| ==> NextOk(k)
    }

    ghost function Table(): (t: seq<Entry>)
      reads this, spine
      ensures |t| == |spine|
    {
      seq(|spine|, k requires 0 <= k < |spine| reads this, spine =>
        Entry(spine[k].port, spine[k].sockfd, spine[k].connections))
    }

    constructor ()
      ensures Valid() && Table() == []
    {
      head, spine := null, [];
    }

    /** Shares the socket of a live port, or registers the one the operating system answers with. */
    method GetOrCreate(port: int, answer: int) returns (fd: int)
      requires Valid() && TableOk(Table())
      modifies this, spine
      ensures Valid() && (Table(), fd) == Get(old(Table()), port, answer)
      ensures spine == old(spine) || fresh(spine[|spine| - 1])
    {
      fd := INVALID_SOCKET_FD;
      var info: SockInfo? := null;
      ghost var was, k := Table(), 0;
      if head != null {
        assert NextOk(0);
        if head.port == port {
          fd := Share(head, 0);
          return;
        }
        info := head;
        while info.next != null
          invariant k < |spine| && info == spine[k]
          invariant forall j :: 0 <= j <= k ==> was[j].port != port
          decreases |spine| - k
        {
          assert NextOk(k) && NextOk(k + 1);
          if info.next.port == port {
            fd := Share(info.next, k + 1);
            return;
          }
          info := info.next;
          k := k + 1;
        }
        assert NextOk(k);
      }
      assert PortIndex(was, port) == |was|;
      fd := answer;
      if fd != INVALID_SOCKET_FD {
        var created := new SockInfo(port, fd);
        Link(info, created);
      }
    }

    /** One holder more for the socket at position `k`. */
    method Share(info: SockInfo, ghost k: nat) returns (fd: int)
      requires Valid() && k < |spine| && spine[k] == info && TableOk(Table())
      modifies info`connections
      ensures Valid() && spine == old(spine) && fd == info.sockfd && k < |old(Table())|
      ensures Table() == Adjust(old(Table()), k, 1) && PortIndex(old(Table()), info.port) == k
    {
      Count(info, 1, k);
      fd := info.sockfd;
    }

    method Count(info: SockInfo, delta: int, ghost k: nat)
      requires Valid() && k < |spine| && spine[k] == info
      modifies info`connections
      ensures Valid() && k < |old(Table())| && Table() == Adjust(old(Table()), k, delta)
    {
      info.connections := info.connections + delta;
      forall j | 0 <= j < |spine| ensures NextOk(j) {
        assert old(NextOk(j));
      }
    }

    /** Appends an entry behind `last`, the end of the list. */
    method Link(last: SockInfo?, info: SockInfo)
      requires Valid() && info !in spine && info.next == null
      requires last == (if spine == [] then null else spine[|spine| - 1])
      modifies this, last
      ensures Valid() && spine == old(spine) + [info]
      ensures Table() == old(Table()) + [Entry(info.port, info.sockfd, info.connections)]
    {
      if head != null {
        last.next := info;
      } else {
        head := info;
      }
      spine := spine + [info];
      forall j | 0 <= j < |spine| ensures NextOk(j) {
        assert j < |old(spine)| ==> old(NextOk(j));
      }
    }

    /** Gives up one holder of the socket; the last one closes it and notifies every listener. */
    method CloseSocket(fd: int, listeners: seq<int>) returns (effects: seq<Effect>)
      requires Valid() && TableOk(Table())
      modifies this, spine
      ensures Valid() && (Table(), effects) == Close(old(Table()), fd, listeners)
      ensures forall info :: info in spine ==> info in old(spine)
    {
      effects := [];
      if head == null {
        return;
      }
      ghost var was, k := Table(), 0;
      assert NextOk(0);
      if head.sockfd == fd {
        effects := Release(null, head, fd, listeners, 0);
        return;
      }
      var info := head;
      while info.next != null
        invariant k < |spine| && info == spine[k]
        invariant forall j :: 0 <= j <= k ==> was[j].fd != fd
        decreases |spine| - k
      {
        assert NextOk(k) && NextOk(k + 1);
        if info.next.sockfd != fd {
          info := info.next;
          k := k + 1;
          continue;
        }
        effects := Release(info, info.next, fd, listeners, k + 1);
        return;
      }
      assert NextOk(k);
      assert FdIndex(was, fd) == |was|;
    }

    /** One holder less for the entry at position `k`, which follows `prev`. */
    method Release(prev: SockInfo?, info: SockInfo, fd: int, listeners: seq<int>, ghost k: nat)
      returns (effects: seq<Effect>)
      requires Valid() && TableOk(Table()) && k < |spine| && spine[k] == info && info.sockfd == fd
      requires prev == if k == 0 then null else spine[k - 1]
      modifies this, spine
      ensures Valid() && (Table(), effects) == Close(old(Table()), fd, listeners)
      ensures forall x :: x in spine ==> x in old(spine)
    {
      effects := [];
      ghost var was := Table();
      FdIndexIs(was, k, fd);
      Count(info, -1, k);
      assert Table()[k].connections == was[k].connections - 1;
      if info.connections > 0 {
        return;
      }
      var notices := NotifyListeners(listeners, fd);
      effects := [OsClose(fd)] + notices;
      Unlink(prev, info, k);
      assert Without(Adjust(was, k, -1), k) == Without(was, k);
    }

    /** Calls every registered listener, in order. */
    method NotifyListeners(listeners: seq<int>, fd: int) returns (notices: seq<Effect>)
      ensures notices == Notices(listeners, fd)
    {
      notices := [];
      for j := 0 to |listeners|
        invariant notices == Notices(listeners[..j], fd)
      {
        notices := notices + [Notify(listeners[j], fd)];
      }
      assert listeners[..|listeners|] == listeners;
    }

    /** Takes the entry at position `k` off the list. */
    method Unlink(prev: SockInfo?, info: SockInfo, ghost k: nat)
      requires Valid() && k < |spine| && spine[k] == info
      requires prev == if k == 0 then null else spine[k - 1]
      modifies this, prev
      ensures Valid() && spine == Without(old(spine), k)
      ensures Table() == Without(old(Table()), k)
    {
      assert NextOk(k);
      if prev == null {
        head := info.next;
      } else {
        prev.next := info.next;
      }
      spine := Without(spine, k);
      forall j | 0 <= j < |spine| ensures NextOk(j) {
        assert old(NextOk(if j < k then j else j + 1));
      }
    }

    /** Closes every socket, in order, without notices. */
    method Shutdown() returns (effects: seq<Effect>)
      requires Valid()
      modifies this
      ensures Valid() && Table() == []
      ensures |effects| == |old(Table())|
      ensures forall k :: 0 <= k < |effects| ==> effects[k] == OsClose(old(Table())[k].fd)
    {
      effects := [];
      ghost var was := Table();
      while head != null
        invariant Valid() && |effects| <= |was| && Table() == was[|effects|..]
        invariant forall k :: 0 <= k < |effects| ==> effects[k] == OsClose(was[k].fd)
        decreases |was| - |effects|
      {
        assert Table()[0].fd == head.sockfd;
        effects := effects + [OsClose(head.sockfd)];
        Unlink(null, head, 0);
      }
    }
  }
}
