/** The intrusive singly linked list, reached through a pointer to its head. */
module SingleList {
  import opened Sequences
  import opened StableSort

  class Link<D> {
    var next: Link?<D>
    const item: D

    constructor (item: D)
      ensures this.item == item && next == null
    {
      this.item, next := item, null;
    }
  }

  /** The variable that holds the first node. */
  class Head<D> {
    var first: Link?<D>

    constructor ()
      ensures first == null
    {
      first := null;
    }
  }

  ghost predicate NextOk<D>(s: seq<Link<D>>, k: nat)
    requires k < |s|
    reads s
  {
    s[k].next == if k + 1 < |s| then s[k + 1] else null
  }

  /** The list consists of exactly these nodes, in this order. */
  ghost predicate Chain<D>(list: Head<D>, s: seq<Link<D>>)
    reads list, s
  {
    && list.first == (if s == [] then null else s[0])
    && NoDup(s) && forall k :: 0 <= k < |s| ==> NextOk(s, k)
  }

  ghost function Items<D>(s: seq<Link<D>>): (r: seq<D>)
    ensures |r| == |s|
  {
    seq(|s|, k requires 0 <= k < |s| => s[k].item)
  }

  // ----- Adding -----------------------------------------------------------------------------

  method Append<D>(list: Head?<D>, node: Link?<D>, ghost s: seq<Link<D>>) returns (ok: bool)
    requires list != null && node != null ==> Chain(list, s) && node !in s
    modifies list, node, s
    ensures ok <==> list != null && node != null
    ensures ok ==> Chain(list, s + [node])
    ensures !ok && list != null ==> unchanged(list) && unchanged(s)
  {
    if list == null || node == null {
      return false;
    }
    if list.first == null {
      node.next := list.first;
      list.first := node;
      return true;
    }
    var last := list.first;
    ghost var k := 0;
    while last.next != null
      invariant k < |s| && last == s[k]
      decreases |s| - k
    {
      assert NextOk(s, k);
      last := last.next;
      k := k + 1;
    }
    assert NextOk(s, k);
    last.next := node;
    node.next := null;
    assert k + 1 == |s|;
    forall j | 0 <= j < |s + [node]| ensures NextOk(s + [node], j) {
      assert j < |s| ==> old(NextOk(s, j));
    }
    return true;
  }

  method Prepend<D>(list: Head?<D>, node: Link?<D>, ghost s: seq<Link<D>>) returns (ok: bool)
    requires list != null && node != null ==> Chain(list, s) && node !in s
    modifies list, node
    ensures ok <==> list != null && node != null
    ensures ok ==> Chain(list, [node] + s)
  {
    if list == null || node == null {
      return false;
    }
    node.next := list.first;
    list.first := node;
    forall j | 0 <= j < |[node] + s| ensures NextOk([node] + s, j) {
      assert j > 0 ==> old(NextOk(s, j - 1));
    }
    return true;
  }

  /** Links `node` behind the node at position `k`. */
  method InsertAfter<D>(list: Head<D>, point: Link?<D>, node: Link?<D>, ghost s: seq<Link<D>>, ghost k: nat)
    returns (ok: bool)
    requires point != null && node != null ==> Chain(list, s) && node !in s && k < |s| && s[k] == point
    modifies point, node
    ensures ok <==> point != null && node != null
    ensures ok ==> Chain(list, InsertAt(s, k + 1, node))
  {
    if point == null || node == null {
      return false;
    }
    assert NextOk(s, k);
    node.next := point.next;
    point.next := node;
    ghost var t := InsertAt(s, k + 1, node);
    forall j | 0 <= j < |t| ensures NextOk(t, j) {
      if j != k + 1 {
        assert old(NextOk(s, if j <= k then j else j - 1));
      }
    }
    return true;
  }

  lemma InsertionPoint<D>(s: seq<Link<D>>, k: nat, node: Link<D>, cmp: (D, D) -> int)
    requires k <= |s| && (forall j :: 0 <= j < k ==> cmp(node.item, s[j].item) >= 0)
    requires k < |s| ==> cmp(node.item, s[k].item) < 0
    ensures Items(InsertAt(s, k, node)) == Insert(Items(s), node.item, Flip(cmp))
  {
    InsertSplits(Items(s), k, node.item, Flip(cmp));
    assert Items(InsertAt(s, k, node)) == InsertAt(Items(s), k, node.item);
  }

  /** Links `node` before the first greater node.  An empty list takes the node over with whatever its
      `next` is, so there the list is right exactly when that is null. */
  method InsertOrdered<D>(list: Head?<D>, node: Link?<D>, cmp: (D, D) -> int, ghost s: seq<Link<D>>)
    returns (ok: bool, ghost k: nat)
    requires list != null && node != null ==> Chain(list, s) && node !in s
    modifies list, node, s
    ensures ok <==> list != null && node != null
    ensures ok ==> k <= |s| && list.first == InsertAt(s, k, node)[0]
    ensures ok ==> Items(InsertAt(s, k, node)) == Insert(Items(s), node.item, Flip(cmp))
    ensures ok ==> (Chain(list, InsertAt(s, k, node)) <==> s != [] || old(node.next) == null)
    ensures ok && s == [] ==> node.next == old(node.next)
  {
    k := 0;
    if list == null || node == null {
      return false, 0;
    }
    if list.first == null {
      list.first := node;
      InsertionPoint(s, 0, node, cmp);
      assert InsertAt(s, 0, node) == [node];
      assert NextOk([node], 0) <==> node.next == null;
      return true, 0;
    }
    if cmp(node.item, list.first.item) < 0 {
      InsertionPoint(s, 0, node, cmp);
      var done := Prepend(list, node, s);
      assert InsertAt(s, 0, node) == [node] + s;
      return true, 0;
    }
    var point := list.first;
    k := 1;
    assert NextOk(s, 0);
    while point.next != null && cmp(node.item, point.next.item) >= 0
      invariant 1 <= k <= |s| && point == s[k - 1] && point.next == (if k < |s| then s[k] else null)
      invariant forall j :: 0 <= j < k ==> cmp(node.item, s[j].item) >= 0
      decreases |s| - k
    {
      assert NextOk(s, k);
      point := point.next;
      k := k + 1;
    }
    InsertionPoint(s, k, node, cmp);
    var done := InsertAfter(list, point, node, s, k - 1);
    return true, k;
  }

  /** A concrete case: a node that still points at another one, put into an empty list, drags that along. */
  method InsertStale<D>(x: D, y: D, cmp: (D, D) -> int) returns (list: Head<D>, node: Link<D>)
    ensures fresh(list) && fresh(node) && node.item == x && list.first == node && !Chain(list, [node])
    ensures node.next != null && node.next.item == y
  {
    var other := new Link(y);
    list := new Head();
    node := new Link(x);
    node.next := other;
    var ok;
    ghost var k;
    ok, k := InsertOrdered(list, node, cmp, []);
    assert InsertAt([], k, node) == [node];
    assert !NextOk([node], 0);
  }

  /** Inserting nodes with null `next` one after the other into an empty list sorts them, stably. */
  method InsertAllOrdered<D>(list: Head<D>, nodes: seq<Link<D>>, cmp: (D, D) -> int) returns (ghost s: seq<Link<D>>)
    requires Chain(list, []) && NoDup(nodes) && forall j :: 0 <= j < |nodes| ==> nodes[j].next == null
    modifies list, nodes
    ensures Chain(list, s) && Items(s) == InsertAll(Items(nodes), Flip(cmp))
  {
    s := [];
    for k := 0 to |nodes|
      invariant Chain(list, s) && Items(s) == InsertAll(Items(nodes[..k]), Flip(cmp))
      invariant forall j :: 0 <= j < |s| ==> s[j] in nodes[..k]
      invariant forall j :: k <= j < |nodes| ==> nodes[j].next == null
    {
      var ok;
      ghost var at;
      ok, at := InsertOrdered(list, nodes[k], cmp, s);
      InsertAllSnoc(Items(nodes[..k]), nodes[k].item, Flip(cmp));
      assert Items(nodes[..k + 1]) == Items(nodes[..k]) + [nodes[k].item];
      s := InsertAt(s, at, nodes[k]);
    }
    assert nodes[..|nodes|] == nodes;
  }

  // ----- Searching and removing -------------------------------------------------------------

  /** The first node that satisfies `p`, or null. */
  method Find<D>(list: Head<D>, p: D -> bool, ghost s: seq<Link<D>>) returns (found: Link?<D>)
    requires Chain(list, s)
    ensures found == null ==> forall j :: 0 <= j < |s| ==> !p(s[j].item)
    ensures found != null ==>
      exists k :: 0 <= k < |s| && found == s[k] && p(s[k].item) && forall j :: 0 <= j < k ==> !p(s[j].item)
  {
    found := list.first;
    ghost var k := 0;
    while found != null && !p(found.item)
      invariant k <= |s| && found == if k < |s| then s[k] else null
      invariant forall j :: 0 <= j < k ==> !p(s[j].item)
      decreases |s| - k
    {
      assert NextOk(s, k);
      found := found.next;
      k := k + 1;
    }
  }

  /** Unlinks a node; false, and no change, when it is not on the list. */
  method Remove<D>(list: Head?<D>, node: Link?<D>, ghost s: seq<Link<D>>) returns (ok: bool)
    requires list != null && node != null ==> Chain(list, s)
    modifies list, s
    ensures ok <==> list != null && node != null && node in s
    ensures ok ==> exists k :: 0 <= k < |s| && s[k] == node && Chain(list, Without(s, k))
    ensures !ok && list != null ==> unchanged(list) && unchanged(s)
  {
    if list == null || node == null || list.first == null {
      return false;
    }
    assert NextOk(s, 0);
    if list.first == node {
      RemoveFirst(list, node, s);
      return true;
    }
    var point := list.first;
    ghost var k := 1;
    while point.next != null && point.next != node
      invariant 1 <= k <= |s| && point == s[k - 1] && point.next == (if k < |s| then s[k] else null)
      invariant node !in s[..k]
      decreases |s| - k
    {
      assert NextOk(s, k);
      point := point.next;
      k := k + 1;
    }
    if point.next == node {
      RemoveNext(list, point, s, k);
      assert s[k] == node && Chain(list, Without(s, k));
      return true;
    }
    assert s[..k] == s;
    return false;
  }

  method RemoveFirst<D>(list: Head<D>, node: Link<D>, ghost s: seq<Link<D>>)
    requires Chain(list, s) && list.first == node
    modifies list
    ensures s != [] && s[0] == node && Chain(list, Without(s, 0))
  {
    assert NextOk(s, 0);
    list.first := node.next;
    forall j | 0 <= j < |s| - 1 ensures NextOk(Without(s, 0), j) {
      assert NextOk(s, j + 1);
    }
  }

  method RemoveNext<D>(list: Head<D>, point: Link<D>, ghost s: seq<Link<D>>, ghost k: nat)
    requires Chain(list, s) && 1 <= k < |s| && point == s[k - 1] && point.next == s[k]
    modifies point
    ensures Chain(list, Without(s, k))
  {
    assert NextOk(s, k);
    point.next := point.next.next;
    ghost var t := Without(s, k);
    forall j | 0 <= j < |t| ensures NextOk(t, j) {
      assert old(NextOk(s, if j < k then j else j + 1));
    }
  }

  /** Unlinks the node behind the one at position `k`, if there is one. */
  method RemoveAfter<D>(list: Head<D>, point: Link?<D>, ghost s: seq<Link<D>>, ghost k: nat) returns (ok: bool)
    requires point != null ==> Chain(list, s) && k < |s| && s[k] == point
    modifies point
    ensures ok <==> point != null && k + 1 < |s|
    ensures ok ==> Chain(list, Without(s, k + 1))
  {
    if point == null || point.next == null {
      assert point != null ==> NextOk(s, k);
      return false;
    }
    assert NextOk(s, k);
    RemoveNext(list, point, s, k + 1);
    return true;
  }
}
