/** The fixed-block memory pool: one buffer cut into equal blocks and an array of free block pointers.
    A pointer into the buffer is its offset from the buffer's start. */
module MemoryPool {
  import opened Sequences

  datatype Pointer = Null | At(offset: nat)

  // ----- Specification ----------------------------------------------------------------------

  /** `free` is what `available_blocks` holds from `next_free_block` on; `live` is what callers hold. */
  datatype Pool = Pool(total: nat, blockSize: nat, free: seq<nat>, live: set<nat>)

  /** Sizes are rounded up to a multiple of 4. */
  function Rounded(size: nat): (r: nat)
    ensures r % 4 == 0 && size <= r < size + 4
  {
    if size % 4 == 0 then size else size + (4 - size % 4)
  }

  function Offset(k: nat, size: nat): nat {
    k * size
  }

  function New(unitSize: nat, maxUnits: nat): Pool {
    var size := Rounded(unitSize);
    Pool(maxUnits, size, seq(maxUnits, k requires 0 <= k < maxUnits => Offset(k, size)), {})
  }

  function Malloc(p: Pool, bytes: nat): (Pool, Pointer) {
    if bytes > p.blockSize || p.free == [] then (p, Null)
    else (p.(free := p.free[1..], live := p.live + {p.free[0]}), At(p.free[0]))
  }

  /** A pointer is taken back without any check, unless every block is free already. */
  function Free(p: Pool, x: Pointer): Pool {
    if x.Null? || |p.free| >= p.total then p
    else p.(free := [x.offset] + p.free, live := p.live - {x.offset})
  }

  ghost predicate IsBlock(p: Pool, x: nat) {
    exists k: nat :: k < p.total && x == Offset(k, p.blockSize)
  }

  /** The free slots hold exactly the blocks nobody holds, each once. */
  ghost predicate Safe(p: Pool) {
    && NoDup(p.free)
    && (forall k :: 0 <= k < |p.free| ==> IsBlock(p, p.free[k]) && p.free[k] !in p.live)
    && (forall x :: x in p.live ==> IsBlock(p, x))
    && |p.free| + |p.live| == p.total
  }

  // ----- Properties -------------------------------------------------------------------------

  lemma OffsetsApart(j: nat, k: nat, size: nat)
    requires j < k
    ensures Offset(j, size) + size <= Offset(k, size)
  {
    assert (j + 1) * size <= k * size;
  }

  lemma OffsetAligned(k: nat, size: nat)
    requires size % 4 == 0
    ensures Offset(k, size) % 4 == 0
  {
    assert Offset(k, size) == 4 * (k * (size / 4));
  }

  /** A new pool of at least one block is in order exactly when its blocks are distinct: unless blocks of
      size 0 are asked for more than once. */
  lemma NewIsSafeIff(unitSize: nat, maxUnits: nat)
    ensures Safe(New(unitSize, maxUnits)) <==> unitSize > 0 || maxUnits <= 1
  {
    var p := New(unitSize, maxUnits);
    forall k | 0 <= k < |p.free| ensures IsBlock(p, p.free[k]) {
      assert p.free[k] == Offset(k, p.blockSize);
    }
    if unitSize > 0 {
      forall j, k | 0 <= j < k < |p.free| ensures p.free[j] != p.free[k] {
        OffsetsApart(j, k, p.blockSize);
      }
    } else if maxUnits > 1 {
      assert p.free[0] == p.free[1];
    }
  }

  /** Allocation fails exactly when the request is too big or every block is live; otherwise it hands
      out a block nobody holds. */
  lemma MallocSafe(p: Pool, bytes: nat)
    requires Safe(p)
    ensures var (q, x) := Malloc(p, bytes);
      && Safe(q)
      && (x.Null? <==> bytes > p.blockSize || |p.live| == p.total)
      && (x.At? ==> x.offset !in p.live && IsBlock(p, x.offset) && q.live == p.live + {x.offset})
      && (x.Null? ==> q == p)
  {
    var (q, x) := Malloc(p, bytes);
    assert forall k :: 0 <= k < |q.free| ==> x.At? ==> q.free[k] == p.free[k + 1] && q.free[k] != p.free[0];
    assert forall y :: IsBlock(p, y) ==> IsBlock(q, y);
  }

  /** Blocks are reused latest first: after freeing a live block, the next request that fits gets that block, and
      the pool is as before. */
  lemma FreedIsNext(p: Pool, x: nat, bytes: nat)
    requires Safe(p) && x in p.live && bytes <= p.blockSize
    ensures Malloc(Free(p, At(x)), bytes) == (p, At(x))
  {
    var q := Free(p, At(x));
    assert q.free[1..] == p.free && p.live - {x} + {x} == p.live;
  }

  /** Freeing keeps the pool in order exactly when the pointer is null, is a live block, or no block is
      live at all and the call is ignored.  Any other call puts a block on the free list twice, or a
      stray pointer on it. */
  lemma FreeSafeIff(p: Pool, x: Pointer)
    requires Safe(p)
    ensures Safe(Free(p, x)) <==> x.Null? || x.offset in p.live || p.live == {}
    ensures x.At? && x.offset in p.live ==> Free(p, x).live == p.live - {x.offset} && x.offset in Free(p, x).free
    ensures x.At? && x.offset in p.live ==> forall y :: y in p.free ==> y in Free(p, x).free
    ensures x.Null? ==> Free(p, x) == p
  {
    var q := Free(p, x);
    assert forall y :: IsBlock(p, y) ==> IsBlock(q, y);
    if x.At? && x.offset in p.live {
      assert |p.live - {x.offset}| == |p.live| - 1;
      assert forall k :: 1 <= k < |q.free| ==> q.free[k] == p.free[k - 1] && q.free[k] != x.offset;
    } else if x.At? && p.live != {} {
      assert p.live - {x.offset} == p.live;
      assert |q.free| + |q.live| == p.total + 1;
    }
  }

  /** A client that frees a block twice while another is live breaks the pool: a concrete run. */
  lemma FreedTwice()
    ensures var (p1, a) := Malloc(New(4, 2), 4); var (p2, b) := Malloc(p1, 4); var p3 := Free(p2, a);
      a.At? && b.At? && Safe(p3) && !Safe(Free(p3, a))
  {
    hide Safe, New;
    NewIsSafeIff(4, 2);
    NewBlocks(4, 2);
    var (p1, a) := Malloc(New(4, 2), 4);
    MallocSafe(New(4, 2), 4);
    var (p2, b) := Malloc(p1, 4);
    MallocSafe(p1, 4);
    FreeSafeIff(p2, a);
    assert b.offset in Free(p2, a).live;
    FreeSafeIff(Free(p2, a), a);
  }

  /** A new pool has the requested number of blocks, all free, laid end to end from the start of the buffer;
      their size is the least multiple of 4 that is not below the request. */
  lemma NewBlocks(unitSize: nat, maxUnits: nat)
    ensures var p := New(unitSize, maxUnits);
      && p.blockSize % 4 == 0 && unitSize <= p.blockSize < unitSize + 4
      && p.total == maxUnits && p.live == {} && |p.free| == maxUnits
      && forall k :: 0 <= k < maxUnits ==> p.free[k] == k * p.blockSize
  {
    var p := New(unitSize, maxUnits);
    forall k | 0 <= k < maxUnits ensures p.free[k] == k * p.blockSize {
      assert p.free[k] == Offset(k, p.blockSize);
    }
  }

  /** Live blocks are whole, aligned, inside the buffer, and do not overlap. */
  lemma LiveBlocksApart(p: Pool, x: nat, y: nat)
    requires Safe(p) && x in p.live && y in p.live && x != y && p.blockSize % 4 == 0
    ensures x % 4 == 0 && x + p.blockSize <= Offset(p.total, p.blockSize)
    ensures x + p.blockSize <= y || y + p.blockSize <= x
  {
    assert IsBlock(p, x) && IsBlock(p, y);
    var j: nat :| j < p.total && x == Offset(j, p.blockSize);
    var k: nat :| k < p.total && y == Offset(k, p.blockSize);
    OffsetAligned(j, p.blockSize);
    OffsetsApart(j, p.total, p.blockSize);
    if j < k {
      OffsetsApart(j, k, p.blockSize);
    } else {
      OffsetsApart(k, j, p.blockSize);
    }
  }

  datatype Op = DoMalloc(bytes: nat) | DoFree(x: Pointer)

  function Apply(p: Pool, op: Op): Pool {
    match op
    case DoMalloc(bytes) => Malloc(p, bytes).0
    case DoFree(x) => Free(p, x)
  }

  function Run(p: Pool, ops: seq<Op>): Pool
    decreases |ops|
  {
    if ops == [] then p else Run(Apply(p, ops[0]), ops[1..])
  }

  /** The client frees only blocks it holds (or null). */
  predicate Disciplined(p: Pool, ops: seq<Op>)
    decreases |ops|
  {
    ops == [] || (
      && (ops[0].DoFree? && ops[0].x.At? ==> ops[0].x.offset in p.live)
      && Disciplined(Apply(p, ops[0]), ops[1..]))
  }

  /** Over any disciplined run the pool stays in order. */
  lemma {:induction false} RunSafe(p: Pool, ops: seq<Op>)
    requires Safe(p) && Disciplined(p, ops)
    ensures Safe(Run(p, ops)) && Run(p, ops).total == p.total && Run(p, ops).blockSize == p.blockSize
    decreases |ops|
  {
    if ops != [] {
      match ops[0] {
        case DoMalloc(bytes) => MallocSafe(p, bytes);
        case DoFree(x) => FreeSafeIff(p, x);
      }
      RunSafe(Apply(p, ops[0]), ops[1..]);
    }
  }

  // ----- The pool in memory -----------------------------------------------------------------

  class MemPool {
    const blockSize: nat
    const data: array<bv8>
    const available: array<nat>
    var next: nat
    ghost var live: set<nat>

    ghost predicate Valid()
      reads this, available
    {
      && (data as object) != (available as object)
      && next <= available.Length && data.Length == Offset(available.Length, blockSize)
    }

    ghost function Model(): Pool
      requires Valid()
      reads this, available
    {
      Pool(available.Length, blockSize, available[next..], live)
    }

    constructor (unitSize: nat, maxUnits: nat)
      requires maxUnits > 0
      ensures Valid() && fresh(this) && fresh(data) && fresh(available) && Model() == New(unitSize, maxUnits)
    {
      var size := if unitSize % 4 != 0 then unitSize + (4 - unitSize % 4) else unitSize;
      var blocks := new nat[maxUnits];
      blocks[0] := 0;
      for k := 1 to maxUnits
        invariant forall j :: 0 <= j < k ==> blocks[j] == Offset(j, size)
      {
        assert Offset(k, size) == Offset(k - 1, size) + size;
        blocks[k] := blocks[k - 1] + size;
      }
      blockSize, available, next, live := size, blocks, 0, {};
      data := new bv8[Offset(maxUnits, size)];
    }

    /** Hands out the next free block, zeroed; bytes outside it are not touched. */
    method Allocate(bytes: nat) returns (x: Pointer)
      requires Valid() && Safe(Model())
      modifies this, data
      ensures Valid() && (Model(), x) == Malloc(old(Model()), bytes)
      ensures x.At? ==> x.offset + blockSize <= data.Length
      ensures x.At? ==> forall j :: x.offset <= j < x.offset + blockSize ==> data[j] == 0
      ensures forall j :: 0 <= j < data.Length && !(x.At? && x.offset <= j < x.offset + blockSize) ==>
        data[j] == old(data[j])
    {
      x := Null;
      if bytes <= blockSize && next < available.Length {
        ghost var was := Model();
        var block := available[next];
        BlockFits(was, block);
        hide Safe;
        ZeroBlock(block);
        x := At(block);
        live := live + {block};
        next := next + 1;
        assert Model().free == was.free[1..];
      }
    }

    method ZeroBlock(block: nat)
      requires block + blockSize <= data.Length
      modifies data
      ensures forall j :: block <= j < block + blockSize ==> data[j] == 0
      ensures forall j :: 0 <= j < data.Length && !(block <= j < block + blockSize) ==> data[j] == old(data[j])
    {
      forall j | block <= j < block + blockSize {
        data[j] := 0;
      }
    }

    /** Takes a pointer back. */
    method Release(x: Pointer)
      requires Valid()
      modifies this, available
      ensures Valid() && Model() == Free(old(Model()), x)
    {
      if x.At? && next > 0 {
        ghost var was := Model().free;
        next := next - 1;
        available[next] := x.offset;
        live := live - {x.offset};
        assert Model().free == [x.offset] + was;
      }
    }
  }

  lemma BlockFits(p: Pool, x: nat)
    requires Safe(p) && x in p.free
    ensures x + p.blockSize <= Offset(p.total, p.blockSize)
  {
    var i :| 0 <= i < |p.free| && p.free[i] == x;
    assert IsBlock(p, p.free[i]);
    var k: nat :| k < p.total && x == Offset(k, p.blockSize);
    OffsetsApart(k, p.total, p.blockSize);
  }
}
