/** The library's two stacks: a fixed array that grows downwards, and a linked list.  Both refine one
    last-in-first-out sequence, written top first. */
module Stacks {

  // ----- Specification ----------------------------------------------------------------------

  datatype Op<T> = Push(x: T) | Pop | PopAndReturn | Top | Size | IsEmpty | Clear

  /** What a caller sees of one operation. */
  datatype Out<T> = Done | Refused | Value(x: T) | Count(n: nat) | Flag(b: bool)

  /** One operation on an unlimited stack; `nil` is the null pointer an empty stack yields. */
  function Step<T>(s: seq<T>, nil: T, op: Op<T>): (seq<T>, Out<T>) {
    match op
    case Push(x) => ([x] + s, Done)
    case Pop => (if s == [] then [] else s[1..], Done)
    case PopAndReturn => if s == [] then ([], Value(nil)) else (s[1..], Value(s[0]))
    case Top => (s, Value(if s == [] then nil else s[0]))
    case Size => (s, Count(|s|))
    case IsEmpty => (s, Flag(|s| == 0))
    case Clear => ([], Done)
  }

  /** The same with room for `limit` elements: a push onto a full stack is refused and changes nothing. */
  function LimitedStep<T>(s: seq<T>, limit: nat, nil: T, op: Op<T>): (seq<T>, Out<T>) {
    if op.Push? && |s| >= limit then (s, Refused) else Step(s, nil, op)
  }

  function Outputs<T>(s: seq<T>, nil: T, ops: seq<Op<T>>): seq<Out<T>>
    decreases |ops|
  {
    if ops == [] then [] else
      var (s1, out) := Step(s, nil, ops[0]);
      [out] + Outputs(s1, nil, ops[1..])
  }

  function LimitedOutputs<T>(s: seq<T>, limit: nat, nil: T, ops: seq<Op<T>>): seq<Out<T>>
    decreases |ops|
  {
    if ops == [] then [] else
      var (s1, out) := LimitedStep(s, limit, nil, ops[0]);
      [out] + LimitedOutputs(s1, limit, nil, ops[1..])
  }

  /** No push finds the (unlimited) stack holding `limit` elements. */
  predicate Fits<T>(s: seq<T>, limit: nat, nil: T, ops: seq<Op<T>>)
    decreases |ops|
  {
    ops == [] || ((ops[0].Push? ==> |s| < limit) && Fits(Step(s, nil, ops[0]).0, limit, nil, ops[1..]))
  }

  /** The two stacks answer a whole run of operations alike exactly when it never exceeds the limit. */
  lemma {:induction false} SameOutputsIffFits<T>(s: seq<T>, limit: nat, nil: T, ops: seq<Op<T>>)
    ensures LimitedOutputs(s, limit, nil, ops) == Outputs(s, nil, ops) <==> Fits(s, limit, nil, ops)
    decreases |ops|
  {
    if ops != [] {
      var a, b := LimitedOutputs(s, limit, nil, ops), Outputs(s, nil, ops);
      if ops[0].Push? && |s| >= limit {
        assert a[0] == Refused && b[0] == Done;
      } else {
        var s1 := Step(s, nil, ops[0]).0;
        SameOutputsIffFits(s1, limit, nil, ops[1..]);
        assert a[1..] == LimitedOutputs(s1, limit, nil, ops[1..]) && b[1..] == Outputs(s1, nil, ops[1..]);
        assert a[0] == b[0];
      }
    }
  }

  /** What a push onto a full array stack returns; slots are never negative. */
  const ERROR_FULL: int := -1

  // ----- The array stack --------------------------------------------------------------------

  class FixedStack<T(==)> {
    const nil: T
    const base: array<T>
    var current: nat

    /** Elements lie in `base[current..]`, top first; every slot below is null. */
    ghost predicate Valid()
      reads this, base
    {
      current <= base.Length && forall k :: 0 <= k < current ==> base[k] == nil
    }

    ghost function Contents(): seq<T>
      requires Valid()
      reads this, base
    {
      base[current..]
    }

    constructor (nil: T, limit: nat)
      requires limit > 0
      ensures Valid() && fresh(this) && fresh(base) && base.Length == limit && this.nil == nil
      ensures Contents() == []
    {
      this.nil := nil;
      base := new T[limit](_ => nil);
      current := limit;
    }

    /** A stack of no room is not created. */
    static method Create(nil: T, limit: nat) returns (s: FixedStack?<T>)
      ensures s == null <==> limit == 0
      ensures s != null ==> fresh(s) && s.Valid() && s.Contents() == [] && s.base.Length == limit && s.nil == nil
    {
      if limit == 0 {
        return null;
      }
      s := new FixedStack(nil, limit);
    }

    method Clear()
      requires Valid()
      modifies this`current, base
      ensures Valid() && Contents() == LimitedStep(old(Contents()), base.Length, nil, Op.Clear).0
      ensures Contents() == []
    {
      forall k | 0 <= k < base.Length {
        base[k] := nil;
      }
      current := base.Length;
    }

    method IsEmpty() returns (b: bool)
      requires Valid()
      ensures (Contents(), Flag(b)) == LimitedStep(Contents(), base.Length, nil, Op.IsEmpty)
      ensures b <==> Contents() == []
    {
      b := current == base.Length;
    }

    method IsFull() returns (b: bool)
      requires Valid()
      ensures b <==> forall x :: LimitedStep(Contents(), base.Length, nil, Op.Push(x)).1 == Refused
      ensures b <==> |Contents()| == base.Length
    {
      b := current == 0;
      assert !b ==> LimitedStep(Contents(), base.Length, nil, Op.Push(nil)).1 == Done;
    }

    method Pop()
      requires Valid()
      modifies this`current, base
      ensures Valid() && (Contents(), Out<T>.Done) == LimitedStep(old(Contents()), base.Length, nil, Op.Pop)
      ensures Contents() == if old(Contents()) == [] then [] else old(Contents())[1..]
    {
      if current < base.Length {
        base[current] := nil;
        current := current + 1;
      }
    }

    method PopAndReturn() returns (x: T)
      requires Valid()
      modifies this`current, base
      ensures Valid() && (Contents(), Value(x)) == LimitedStep(old(Contents()), base.Length, nil, Op.PopAndReturn)
      ensures if old(Contents()) == [] then x == nil && Contents() == []
              else x == old(Contents())[0] && Contents() == old(Contents())[1..]
    {
      x := nil;
      if current < base.Length {
        x := base[current];
        base[current] := nil;
        current := current + 1;
      }
    }

    /** Returns the slot the element went to, counted from the end of the array that fills up last, or
        `ERROR_FULL` when there is no room. */
    method Push(x: T) returns (slot: int)
      requires Valid()
      modifies this`current, base
      ensures Valid() && (slot == ERROR_FULL <==> |old(Contents())| == base.Length) && slot >= -1
      ensures (Contents(), if slot == ERROR_FULL then Refused else Done)
           == LimitedStep(old(Contents()), base.Length, nil, Op.Push(x))
      ensures slot != ERROR_FULL ==> slot == base.Length - |Contents()| && base[slot] == x
      ensures Contents() == if slot == ERROR_FULL then old(Contents()) else [x] + old(Contents())
    {
      slot := ERROR_FULL;
      if current > 0 {
        ghost var was := Contents();
        current := current - 1;
        base[current] := x;
        slot := current;
        assert Contents() == [x] + was;
      }
    }

    method Size() returns (n: nat)
      requires Valid()
      ensures (Contents(), Count(n)) == LimitedStep(Contents(), base.Length, nil, Op.Size)
      ensures n == |Contents()|
    {
      n := base.Length - current;
    }

    method Top() returns (x: T)
      requires Valid()
      ensures (Contents(), Value(x)) == LimitedStep(Contents(), base.Length, nil, Op.Top)
      ensures x == if Contents() == [] then nil else Contents()[0]
    {
      x := if current < base.Length then base[current] else nil;
    }
  }

  // ----- The linked stack -------------------------------------------------------------------

  class FreeNode<T> {
    var next: FreeNode?<T>
    const data: T

    constructor (data: T, next: FreeNode?<T>)
      ensures this.data == data && this.next == next
    {
      this.data, this.next := data, next;
    }
  }

  class FreeStack<T(==)> {
    const nil: T
    var top: FreeNode?<T>
    ghost var spine: seq<FreeNode<T>>

    /** `spine` lists the nodes from the top; `next` pointers follow it and end in null. */
    ghost predicate Valid()
      reads this, spine
    {
      && top == (if spine == [] then null else spine[0])
      && (forall k :: 0 <= k < |spine| ==> spine[k].next == After(k))
    }

    /** The node below position `k` of the spine. */
    ghost function After(k: nat): FreeNode?<T>
      reads this
    {
      if k + 1 < |spine| then spine[k + 1] else null
    }

    ghost function Contents(): (s: seq<T>)
      reads this
      ensures |s| == |spine|
    {
      seq(|spine|, k requires 0 <= k < |spine| reads this => spine[k].data)
    }

    constructor (nil: T)
      ensures Valid() && fresh(this) && this.nil == nil && Contents() == []
    {
      this.nil := nil;
      top, spine := null, [];
    }

    method Clear()
      requires Valid()
      modifies this`top, this`spine
      ensures Valid() && Contents() == Step(old(Contents()), nil, Op.Clear).0
      ensures Contents() == []
    {
      while top != null
        invariant Valid()
        decreases |spine|
      {
        assert spine[0].next == After(0);
        assert forall k :: 1 <= k < |spine| ==> spine[k].next == After(k);
        ghost var was := Contents();
        top := top.next;
        spine := spine[1..];
        assert Contents() == was[1..];
      }
    }

    method IsEmpty() returns (b: bool)
      requires Valid()
      ensures (Contents(), Flag(b)) == Step(Contents(), nil, Op.IsEmpty)
      ensures b <==> Contents() == []
    {
      b := top == null;
    }

    method Pop()
      requires Valid()
      modifies this`top, this`spine
      ensures Valid() && (Contents(), Out<T>.Done) == Step(old(Contents()), nil, Op.Pop)
      ensures Contents() == if old(Contents()) == [] then [] else old(Contents())[1..]
    {
      if top != null {
        assert spine[0].next == After(0);
        assert forall k :: 1 <= k < |spine| ==> spine[k].next == After(k);
        ghost var was := Contents();
        top := top.next;
        spine := spine[1..];
        assert Contents() == was[1..];
      }
    }

    method PopAndReturn() returns (x: T)
      requires Valid()
      modifies this`top, this`spine
      ensures Valid() && (Contents(), Value(x)) == Step(old(Contents()), nil, Op.PopAndReturn)
      ensures if old(Contents()) == [] then x == nil && Contents() == []
              else x == old(Contents())[0] && Contents() == old(Contents())[1..]
    {
      x := nil;
      if top != null {
        x := top.data;
        assert spine[0].next == After(0);
        assert forall k :: 1 <= k < |spine| ==> spine[k].next == After(k);
        ghost var was := Contents();
        top := top.next;
        spine := spine[1..];
        assert Contents() == was[1..];
      }
    }

    method Push(x: T)
      requires Valid()
      modifies this`top, this`spine
      ensures Valid() && (Contents(), Out<T>.Done) == Step(old(Contents()), nil, Op.Push(x))
      ensures Contents() == [x] + old(Contents())
    {
      var node := new FreeNode(x, top);
      ghost var was := Contents();
      top := node;
      spine := [node] + spine;
      assert Contents() == [x] + was;
      assert forall k :: 1 <= k < |spine| ==> spine[k] == old(spine)[k - 1];
    }

    method Size() returns (n: nat)
      requires Valid()
      ensures (Contents(), Count(n)) == Step(Contents(), nil, Op.Size)
      ensures n == |Contents()|
    {
      var node := top;
      n := 0;
      while node != null
        invariant n <= |spine| && node == if n < |spine| then spine[n] else null
        decreases |spine| - n
      {
        assert spine[n].next == After(n);
        n := n + 1;
        node := node.next;
      }
    }

    method Top() returns (x: T)
      requires Valid()
      ensures (Contents(), Value(x)) == Step(Contents(), nil, Op.Top)
      ensures x == if Contents() == [] then nil else Contents()[0]
    {
      x := if top != null then top.data else nil;
    }
  }
}
