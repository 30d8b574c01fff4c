/** The intrusive circular doubly linked list.  A ring is described by the sequence of its nodes from
    any chosen start; operations are told against that sequence. */
module CircularList {
  import opened Sequences
  import opened StableSort

  class Node<D> {
    var next: Node?<D>
    var prev: Node?<D>
    const item: D

    /** A node that forms a ring of its own. */
    constructor (item: D)
      ensures this.item == item && next == this && prev == this
    {
      this.item, next, prev := item, this, this;
    }
  }

  // ----- Rings ------------------------------------------------------------------------------

  /** Both links of the node at position `k` fit its neighbours in the cycle. */
  ghost predicate LinkOk<D>(r: seq<Node<D>>, k: nat)
    requires k < |r|
    reads r
  {
    && r[k].next == (if k + 1 < |r| then r[k + 1] else r[0])
    && r[k].prev == (if k > 0 then r[k - 1] else r[|r| - 1])
  }

  /** One single cycle through exactly these nodes, in this order, in both directions. */
  ghost predicate Ring<D>(r: seq<Node<D>>)
    reads r
  {
    r != [] && NoDup(r) && forall k :: 0 <= k < |r| ==> LinkOk(r, k)
  }

  ghost function Rotate<D>(r: seq<Node<D>>, k: nat): seq<Node<D>>
    requires k < |r|
  {
    r[k..] + r[..k]
  }

  /** Where a ring starts is a matter of description: every rotation describes the same ring. */
  lemma RingRotates<D>(r: seq<Node<D>>, k: nat)
    requires Ring(r) && k < |r|
    ensures Ring(Rotate(r, k)) && Rotate(r, k)[0] == r[k]
  {
    var t := Rotate(r, k);
    forall j | 0 <= j < |t| ensures LinkOk(t, j) {
      assert LinkOk(r, if j < |r| - k then k + j else j - (|r| - k));
    }
  }

  ghost function Items<D>(r: seq<Node<D>>): (s: seq<D>)
    ensures |s| == |r|
  {
    seq(|r|, k requires 0 <= k < |r| => r[k].item)
  }

  // ----- Insertion and removal --------------------------------------------------------------

  /** Links `node` right behind `inspt`, the node at position `k`. */
  method InsertAfter<D>(ghost r: seq<Node<D>>, ghost k: nat, inspt: Node<D>, node: Node<D>)
    requires Ring(r) && k < |r| && r[k] == inspt && node !in r
    modifies inspt, inspt.next, node
    ensures Ring(InsertAt(r, k + 1, node))
  {
    assert LinkOk(r, k);
    node.next := inspt.next;
    inspt.next.prev := node;
    node.prev := inspt;
    inspt.next := node;
    ghost var t := InsertAt(r, k + 1, node);
    forall j | 0 <= j < |t| ensures LinkOk(t, j) {
      if j != k + 1 {
        ghost var i := if j < k + 1 then j else j - 1;
        assert old(LinkOk(r, i)) && t[j] == r[i];
      }
    }
  }

  /** Links `node` right before `inspt`, the node at position `k`; before the start is at the end. */
  method InsertBefore<D>(ghost r: seq<Node<D>>, ghost k: nat, inspt: Node<D>, node: Node<D>)
    requires Ring(r) && k < |r| && r[k] == inspt && node !in r
    modifies inspt, inspt.prev, node
    ensures Ring(InsertAt(r, if k == 0 then |r| else k, node))
  {
    assert LinkOk(r, k);
    node.prev := inspt.prev;
    inspt.prev.next := node;
    node.next := inspt;
    inspt.prev := node;
    ghost var at := if k == 0 then |r| else k;
    ghost var t := InsertAt(r, at, node);
    assert node.prev == r[at - 1] && node.next == (if at < |r| then r[at] else r[0]);
    forall j | 0 <= j < |t| ensures LinkOk(t, j) {
      if j != at {
        ghost var i := if j < at then j else j - 1;
        assert old(LinkOk(r, i)) && t[j] == r[i];
      }
    }
  }

  /** Takes the node at position `k` out of its ring and makes it a ring of its own; a node that already
      is one stays as it is. */
  method Unlink<D>(ghost r: seq<Node<D>>, ghost k: nat, node: Node<D>)
    requires Ring(r) && k < |r| && r[k] == node
    modifies node, node.prev, node.next
    ensures Ring([node])
    ensures |r| > 1 ==> Ring(Without(r, k))
  {
    assert LinkOk(r, k);
    assert LinkOk(r, if k > 0 then k - 1 else |r| - 1) && LinkOk(r, if k + 1 < |r| then k + 1 else 0);
    if node.prev.next == node && node.next.prev == node {
      node.prev.next := node.next;
      node.next.prev := node.prev;
      node.next := node;
      node.prev := node;
    }
    if |r| > 1 {
      forall j | 0 <= j < |r| - 1 ensures LinkOk(Without(r, k), j) {
        assert old(LinkOk(r, if j < k then j else j + 1));
      }
    }
  }

  /** Unlinking what was just inserted gives the original sequence, so by `Ring` every link of the
      original nodes is what it was. */
  lemma UnlinkUndoesInsert<T>(s: seq<T>, k: nat, x: T)
    requires k <= |s|
    ensures k < |InsertAt(s, k, x)| && InsertAt(s, k, x)[k] == x && Without(InsertAt(s, k, x), k) == s
  {
  }

  /** Inserting a node and unlinking it again restores every link of the ring. */
  method InsertAfterThenUnlink<D>(ghost r: seq<Node<D>>, ghost k: nat, inspt: Node<D>, node: Node<D>)
    requires Ring(r) && k < |r| && r[k] == inspt && node !in r
    modifies r, node
    ensures forall j :: 0 <= j < |r| ==> r[j].next == old(r[j].next) && r[j].prev == old(r[j].prev)
    ensures Ring([node])
  {
    assert LinkOk(r, k);
    InsertAfter(r, k, inspt, node);
    UnlinkUndoesInsert(r, k + 1, node);
    UnlinkInserted(r, k + 1, node);
    forall j | 0 <= j < |r| ensures r[j].next == old(r[j].next) && r[j].prev == old(r[j].prev) {
      assert LinkOk(r, j) && old(LinkOk(r, j));
    }
  }

  method InsertBeforeThenUnlink<D>(ghost r: seq<Node<D>>, ghost k: nat, inspt: Node<D>, node: Node<D>)
    requires Ring(r) && k < |r| && r[k] == inspt && node !in r
    modifies r, node
    ensures forall j :: 0 <= j < |r| ==> r[j].next == old(r[j].next) && r[j].prev == old(r[j].prev)
    ensures Ring([node])
  {
    assert LinkOk(r, k);
    ghost var at := if k == 0 then |r| else k;
    InsertBefore(r, k, inspt, node);
    UnlinkUndoesInsert(r, at, node);
    UnlinkInserted(r, at, node);
    forall j | 0 <= j < |r| ensures r[j].next == old(r[j].next) && r[j].prev == old(r[j].prev) {
      assert LinkOk(r, j) && old(LinkOk(r, j));
    }
  }

  /** Unlinks the node that was put at position `at` of a ring. */
  method UnlinkInserted<D>(ghost r: seq<Node<D>>, ghost at: nat, node: Node<D>)
    requires r != [] && at <= |r| && Ring(InsertAt(r, at, node))
    modifies r, node
    ensures Ring(r) && Ring([node])
  {
    ghost var t := InsertAt(r, at, node);
    assert LinkOk(t, at);
    UnlinkUndoesInsert(r, at, node);
    Unlink(t, at, node);
  }

  /** Unlinking a node that is no longer in a ring changes nothing. */
  method UnlinkAgain<D>(node: Node<D>)
    requires Ring([node])
    modifies node
    ensures Ring([node]) && node.next == old(node.next) && node.prev == old(node.prev)
  {
    assert LinkOk([node], 0);
    Unlink([node], 0, node);
    assert LinkOk([node], 0);
  }

  // ----- Searching and ordered insertion ----------------------------------------------------

  /** `found` is the first node behind the start that satisfies `p`, or null when there is none. */
  ghost predicate FirstMatch<D>(r: seq<Node<D>>, p: D -> bool, found: Node?<D>) {
    if found == null then forall j :: 1 <= j < |r| ==> !p(r[j].item)
    else exists k :: 1 <= k < |r| && found == r[k] && p(r[k].item) && forall j :: 1 <= j < k ==> !p(r[j].item)
  }

  ghost predicate LastMatch<D>(r: seq<Node<D>>, p: D -> bool, found: Node?<D>) {
    if found == null then forall j :: 1 <= j < |r| ==> !p(r[j].item)
    else exists k :: 1 <= k < |r| && found == r[k] && p(r[k].item) && forall j :: k < j < |r| ==> !p(r[j].item)
  }

  /** Searches forwards for a node other than the start. */
  method Find<D>(ghost r: seq<Node<D>>, start: Node<D>, p: D -> bool) returns (found: Node?<D>)
    requires Ring(r) && r[0] == start
    ensures FirstMatch(r, p, found)
  {
    assert LinkOk(r, 0);
    var node := start.next;
    ghost var k := 1;
    while node != null && node != start && !p(node.item)
      invariant 1 <= k <= |r| && node == if k < |r| then r[k] else r[0]
      invariant forall j :: 1 <= j < k ==> !p(r[j].item)
      decreases |r| - k
    {
      assert LinkOk(r, k);
      node := node.next;
      k := k + 1;
    }
    found := if node == start then null else node;
  }

  /** Searches backwards for a node other than the start. */
  method RFind<D>(ghost r: seq<Node<D>>, start: Node<D>, p: D -> bool) returns (found: Node?<D>)
    requires Ring(r) && r[0] == start
    ensures LastMatch(r, p, found)
  {
    assert LinkOk(r, 0);
    var node := start.prev;
    ghost var k := |r| - 1;
    while node != null && node != start && !p(node.item)
      invariant 0 <= k < |r| && node == r[k]
      invariant forall j :: k < j < |r| ==> !p(r[j].item)
      decreases k
    {
      assert LinkOk(r, k);
      node := node.prev;
      k := k - 1;
    }
    found := if node == start then null else node;
  }

  lemma InsertionPoint<D>(r: seq<Node<D>>, k: nat, node: Node<D>, cmp: (D, D) -> int)
    requires 1 <= k <= |r| && (forall j :: 1 <= j < k ==> cmp(r[j].item, node.item) <= 0)
    requires k < |r| ==> cmp(r[k].item, node.item) > 0
    ensures Items(InsertAt(r, k, node)[1..]) == Insert(Items(r[1..]), node.item, cmp)
  {
    InsertSplits(Items(r[1..]), k - 1, node.item, cmp);
    assert Items(InsertAt(r, k, node)[1..]) == InsertAt(Items(r[1..]), k - 1, node.item);
  }

  /** Links `node` before the first greater node behind the start, or at the end. */
  method InsertInorder<D>(ghost r: seq<Node<D>>, start: Node<D>, node: Node<D>, cmp: (D, D) -> int)
    returns (ghost k: nat)
    requires Ring(r) && r[0] == start && node !in r
    modifies r, node
    ensures 1 <= k <= |r| && Ring(InsertAt(r, k, node))
    ensures Items(InsertAt(r, k, node)[1..]) == Insert(Items(r[1..]), node.item, cmp)
  {
    assert LinkOk(r, 0);
    var nn := start.next;
    k := 1;
    while nn != null && nn != start && cmp(nn.item, node.item) <= 0
      invariant 1 <= k <= |r| && nn == (if k < |r| then r[k] else r[0])
      invariant forall j :: 1 <= j < k ==> cmp(r[j].item, node.item) <= 0
      decreases |r| - k
    {
      assert LinkOk(r, k);
      nn := nn.next;
      k := k + 1;
    }
    InsertionPoint(r, k, node, cmp);
    hide Insert, Items;
    assert LinkOk(r, if k < |r| then k else 0);
    InsertBefore(r, if k < |r| then k else 0, nn, node);
  }

  /** Ordered insertion keeps a sorted ring sorted and puts the new node behind every equal one. */
  lemma OrderedInsertion<D(!new)>(r: seq<Node<D>>, node: Node<D>, cmp: (D, D) -> int, p: D)
    requires r != [] && Comparison(cmp) && Sorted(Items(r[1..]), cmp)
    ensures var after := Insert(Items(r[1..]), node.item, cmp);
      && Sorted(after, cmp)
      && Class(after, p, cmp) == Class(Items(r[1..]), p, cmp) + (if cmp(node.item, p) == 0 then [node.item] else [])
  {
    InsertSorted(Items(r[1..]), node.item, cmp);
    InsertStable(Items(r[1..]), node.item, p, cmp);
  }

  /** Inserting nodes one after the other into an empty ring sorts them, stably. */
  method InsertAllInorder<D>(start: Node<D>, nodes: seq<Node<D>>, cmp: (D, D) -> int) returns (ghost r: seq<Node<D>>)
    requires Ring([start]) && NoDup(nodes) && start !in nodes
    modifies start, nodes
    ensures Ring(r) && r[0] == start && Items(r[1..]) == InsertAll(Items(nodes), cmp)
  {
    r := [start];
    for k := 0 to |nodes|
      invariant Ring(r) && r[0] == start && Items(r[1..]) == InsertAll(Items(nodes[..k]), cmp)
      invariant forall j :: 0 <= j < |r| ==> r[j] == start || r[j] in nodes[..k]
    {
      ghost var at := InsertInorder(r, start, nodes[k], cmp);
      InsertAllSnoc(Items(nodes[..k]), nodes[k].item, cmp);
      assert Items(nodes[..k + 1]) == Items(nodes[..k]) + [nodes[k].item];
      r := InsertAt(r, at, nodes[k]);
    }
    assert nodes[..|nodes|] == nodes;
  }
}
