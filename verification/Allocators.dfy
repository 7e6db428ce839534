/** The two bump allocators: the compiler's arena of chunks and the runtime's regions. */
module Allocators {
  import opened Machine

  /** alignof(max_align_t). */
  const ALIGN: nat := 16

  /** Rounding up with the mask of a power of two, on unbounded numbers. */
  function AlignUp(x: nat): (r: nat)
    ensures x <= r < x + ALIGN && r % ALIGN == 0
  {
    (x + (ALIGN - 1)) / ALIGN * ALIGN
  }

  /** A chunk or region block. */
  class Block {
    const capacity: nat
    const data: array<byte>
    const next: Block?
    var used: nat

    constructor (capacity: nat, next: Block?)
      ensures this.capacity == capacity && this.next == next && used == 0
      ensures fresh(data) && data.Length == capacity
    {
      this.capacity, this.next, used := capacity, next, 0;
      data := new byte[capacity](_ => 0);
    }
  }

  /** A piece of memory handed out. */
  datatype Range = Range(block: Block, off: nat, size: nat) {
    predicate InBounds() { off + size <= block.data.Length }

    ghost function Contents(): seq<byte>
      requires InBounds()
      reads block.data
    {
      block.data[off..off + size]
    }
  }

  predicate Disjoint(r: Range, s: Range) {
    r.block != s.block || r.off + r.size <= s.off || s.off + s.size <= r.off
  }

  /** The chain of blocks from the newest to the oldest. */
  ghost predicate Chain(head: Block?, blocks: seq<Block>) {
    if blocks == [] then head == null else head == blocks[0] && Chain(blocks[0].next, blocks[1..])
  }

  ghost predicate BlocksOk(blocks: seq<Block>)
    reads blocks
  {
    && (forall b :: b in blocks ==> b.used <= b.capacity == b.data.Length)
    && (forall b, c :: b in blocks && c in blocks && b != c ==> b.data != c.data)
    && (forall i, j :: 0 <= i < j < |blocks| ==> blocks[i] != blocks[j])
  }

  /** Everything handed out lies in the used part of a block, at an aligned offset, and no
      two pieces overlap. */
  ghost predicate RangesOk(blocks: seq<Block>, ranges: seq<Range>)
    reads blocks
  {
    && (forall i :: 0 <= i < |ranges| ==>
          ranges[i].block in blocks && ranges[i].off % ALIGN == 0 && ranges[i].off + ranges[i].size <= ranges[i].block.used)
    && (forall i, j :: 0 <= i < j < |ranges| ==> Disjoint(ranges[i], ranges[j]))
  }

  /** Hands out the next piece of one block; everything handed out before stays as it was. */
  method Bump(b: Block, off: nat, size: nat, ghost blocks: seq<Block>, ghost ranges: seq<Range>) returns (p: Range)
    requires BlocksOk(blocks) && RangesOk(blocks, ranges) && b in blocks
    requires b.used <= off && off % ALIGN == 0 && off + size <= b.capacity
    modifies b`used
    ensures p == Range(b, off, size) && b.used == off + size && BlocksOk(blocks) && RangesOk(blocks, ranges + [p])
  {
    b.used := off + size;
    p := Range(b, off, size);
  }

  lemma NewestIsApart(blocks: seq<Block>, before: seq<Range>, p: Range)
    requires BlocksOk(blocks) && RangesOk(blocks, before + [p])
    ensures p.InBounds() && p.block in blocks
    ensures forall r :: r in before ==> r.InBounds() && r.block in blocks && Disjoint(r, p)
    ensures forall r :: r in before && r.block != p.block ==> r.block.data != p.block.data
  {
    var all := before + [p];
    assert all[|before|] == p;
    forall r | r in before
      ensures r.InBounds() && r.block in blocks && Disjoint(r, p)
    {
      var i :| 0 <= i < |before| && before[i] == r;
      assert all[i] == r;
    }
  }

  /** memcpy of n bytes from the start of one piece to the start of another. */
  method Copy(dst: Range, src: Range, n: nat)
    requires dst.InBounds() && src.InBounds() && n <= dst.size && n <= src.size && Disjoint(dst, src)
    requires dst.block != src.block ==> dst.block.data != src.block.data
    modifies dst.block.data
    ensures dst.block.data[dst.off..dst.off + n] == old(src.block.data[src.off..src.off + n])
    ensures forall k :: 0 <= k < dst.block.data.Length && !(dst.off <= k < dst.off + n) ==> dst.block.data[k] == old(dst.block.data[k])
  {
    for i := 0 to n
      invariant dst.block.data[dst.off..dst.off + i] == old(src.block.data[src.off..src.off + i])
      invariant forall k :: 0 <= k < dst.block.data.Length && !(dst.off <= k < dst.off + i) ==> dst.block.data[k] == old(dst.block.data[k])
    {
      dst.block.data[dst.off + i] := src.block.data[src.off + i];
    }
  }

  /** Copies into the newest piece; nothing handed out before it changes. */
  method MoveInto(np: Range, p: Range, n: nat, ghost blocks: seq<Block>, ghost before: seq<Range>)
    requires BlocksOk(blocks) && RangesOk(blocks, before + [np]) && p in before && n <= p.size && n <= np.size
    modifies np.block.data
    ensures BlocksOk(blocks) && RangesOk(blocks, before + [np]) && p.InBounds()
    ensures np.InBounds() && np.Contents()[..n] == old(p.block.data[p.off..p.off + n])
    ensures forall q :: q in before ==> q.InBounds() && q.Contents() == old(q.Contents())
  {
    NewestIsApart(blocks, before, np);
    Copy(np, p, n);
    assert np.Contents()[..n] == np.block.data[np.off..np.off + n];
    forall q | q in before
      ensures q.Contents() == old(q.Contents())
    {
      assert Disjoint(q, np);
      assert forall k :: q.off <= k < q.off + q.size ==> q.block.data[k] == old(q.block.data[k]);
      assert q.block.data[q.off..q.off + q.size] == old(q.block.data[q.off..q.off + q.size]);
    }
  }

  // ----- the compiler's arena (alloc.c) -----

  const INIT_CAPACITY: nat := 0x10_0000

  function Pow2(k: nat): (p: nat)
    ensures p > 0
  {
    if k == 0 then 1 else 2 * Pow2(k - 1)
  }

  /** The capacity after k doublings, as a size_t. */
  function Doubled(k: nat): nat { INIT_CAPACITY * Pow2(k) % SIZE_LIMIT }

  lemma {:induction false} DoublingBound(k: nat)
    ensures k <= 43 ==> INIT_CAPACITY * Pow2(k) <= 0x8000_0000_0000_0000
    ensures k >= 44 ==> INIT_CAPACITY * Pow2(k) % SIZE_LIMIT == 0
    ensures k == 43 ==> INIT_CAPACITY * Pow2(k) == 0x8000_0000_0000_0000
  {
    PowValues();
    if k < 43 {
      PowMonotone(k, 43);
    } else if k > 44 {
      DoublingBound(k - 1);
      var q := INIT_CAPACITY * Pow2(k - 1) / SIZE_LIMIT;
      assert INIT_CAPACITY * Pow2(k - 1) == SIZE_LIMIT * q;
      assert INIT_CAPACITY * Pow2(k) == SIZE_LIMIT * (2 * q);
    }
  }

  lemma PowValues()
    ensures Pow2(43) == 0x800_0000_0000 && Pow2(44) == 0x1000_0000_0000
  {
    assert Pow2(8) == 0x100;
    assert Pow2(16) == 0x1_0000;
    assert Pow2(24) == 0x100_0000;
    assert Pow2(32) == 0x1_0000_0000;
    assert Pow2(40) == 0x100_0000_0000;
  }

  lemma {:induction false} PowMonotone(j: nat, k: nat)
    requires j <= k
    ensures Pow2(j) <= Pow2(k)
  {
    if j < k {
      PowMonotone(j, k - 1);
    }
  }

  /** Below 2^63 one more doubling neither wraps nor passes 2^63. */
  lemma DoublesSafely(k: nat)
    requires INIT_CAPACITY * Pow2(k) < 0x8000_0000_0000_0000
    ensures k < 43 && INIT_CAPACITY * Pow2(k) * 2 == INIT_CAPACITY * Pow2(k + 1) <= 0x8000_0000_0000_0000
  {
    PowValues();
    if k >= 43 {
      PowMonotone(43, k);
    } else {
      PowMonotone(k + 1, 43);
    }
  }

  lemma NoWrap(cap: nat)
    requires cap * 2 < SIZE_LIMIT
    ensures cap * 2 % SIZE_LIMIT == cap * 2
  {
  }

  lemma CapacityAligned(k: nat)
    ensures INIT_CAPACITY * Pow2(k) % ALIGN == 0
  {
    assert INIT_CAPACITY * Pow2(k) == ALIGN * (INIT_CAPACITY / ALIGN * Pow2(k));
  }

  /** The doubling loop reaches a wanted capacity exactly up to 2^63: beyond that the
      capacity wraps to 0 and stays there. */
  lemma DoublingReaches(wanted: nat)
    ensures (exists k: nat :: Doubled(k) >= wanted) <==> wanted <= 0x8000_0000_0000_0000
  {
    DoublingBound(43);
    assert Doubled(43) == 0x8000_0000_0000_0000;
    forall k: nat
      ensures Doubled(k) <= 0x8000_0000_0000_0000
    {
      DoublingBound(k);
    }
  }

  ghost predicate LoopEnds(wanted: nat) { exists k: nat :: Doubled(k) >= wanted }

  /** The first capacity of the doubling sequence that reaches the wanted one. */
  ghost predicate LeastCapacity(wanted: nat, cap: nat) {
    exists k: nat :: cap == Doubled(k) >= wanted && forall j: nat :: j < k ==> Doubled(j) < wanted
  }

  lemma SmallWantsInitial(wanted: nat, cap: nat)
    requires wanted <= INIT_CAPACITY && LeastCapacity(wanted, cap)
    ensures cap == INIT_CAPACITY
  {
    var k: nat :| cap == Doubled(k) >= wanted && forall j: nat :: j < k ==> Doubled(j) < wanted;
    assert Doubled(0) == INIT_CAPACITY;
  }

  /** The capacity asked of a new chunk: `size + (A - 1)` in size_t. */
  function Wanted(size: nat): nat { (size + (ALIGN - 1)) % SIZE_LIMIT }

  datatype Outcome = InBounds | Overruns | NeverEnds

  /** What a request does when the current chunk has `room` bytes left. */
  ghost function Requested(size: nat, room: nat): Outcome {
    if size <= room then InBounds
    else if !LoopEnds(Wanted(size)) then NeverEnds
    else if size + (ALIGN - 1) < SIZE_LIMIT then InBounds
    else Overruns
  }

  /** The safe sizes: what fits, and else all up to 2^63 - 15. Above them the loop never
      ends, until the addition wraps and a piece is handed out that leaves its chunk. */
  lemma SafeSizes(size: nat, room: nat)
    requires size <= SIZE_MAX
    ensures Requested(size, room) == InBounds <==> size <= room || size <= 0x8000_0000_0000_0000 - (ALIGN - 1)
    ensures Requested(size, room) == Overruns <==> size > room && size >= SIZE_LIMIT - (ALIGN - 1)
  {
    DoublingReaches(Wanted(size));
  }

  class Arena {
    var head: Block
    ghost var blocks: seq<Block>
    ghost var ranges: seq<Range>

    ghost predicate Valid()
      reads this, blocks
    {
      && blocks != [] && head == blocks[0] && Chain(head, blocks)
      && BlocksOk(blocks) && RangesOk(blocks, ranges)
      && forall b :: b in blocks ==> b.capacity % ALIGN == 0
    }

    /** `new_chunk`: doubles the initial capacity until it suffices, if it ever does. */
    static method NewChunk(minCap: nat, next: Block?) returns (c: Block)
      requires LoopEnds(minCap)
      ensures fresh(c) && fresh(c.data) && c.next == next && c.used == 0 && c.data.Length == c.capacity
      ensures minCap <= c.capacity <= 0x8000_0000_0000_0000 && INIT_CAPACITY <= c.capacity && c.capacity % ALIGN == 0
      ensures LeastCapacity(minCap, c.capacity)
    {
      DoublingReaches(minCap);
      var cap := INIT_CAPACITY;
      ghost var k := 0;
      while cap < minCap
        invariant k <= 43 && cap == INIT_CAPACITY * Pow2(k) && INIT_CAPACITY <= cap <= 0x8000_0000_0000_0000
        invariant cap == Doubled(k) && forall j: nat :: j < k ==> Doubled(j) < minCap
        decreases 43 - k
      {
        DoublesSafely(k);
        NoWrap(cap);
        k := k + 1;
        cap := cap * 2 % SIZE_LIMIT;
      }
      CapacityAligned(k);
      c := new Block(cap, next);
    }

    constructor ()
      ensures Valid() && ranges == [] && fresh(blocks)
    {
      DoublingReaches(INIT_CAPACITY);
      var c := NewChunk(INIT_CAPACITY, null);
      head, blocks, ranges := c, [c], [];
      new;
      assert Chain(null, []);
      assert blocks[1..] == [];
    }

    /** Rounding up the used part never passes the capacity, so `cap - off` cannot wrap. */
    lemma OffsetWithinCapacity(b: Block)
      requires Valid() && b in blocks
      ensures AlignUp(b.used) <= b.capacity
    {
    }

    /** What is left of the current chunk. */
    ghost function Room(): nat
      requires Valid()
      reads this, blocks
    {
      OffsetWithinCapacity(head);
      head.capacity - AlignUp(head.used)
    }

    /** `jik_alloc`, for every size whose loop ends. `ok` is no value of the source: it tells
        a piece within its chunk from one that leaves it, after the sum has wrapped. */
    method Alloc(size: nat) returns (p: Range, ghost ok: bool)
      requires Valid() && size <= SIZE_MAX && Requested(size, Room()) != NeverEnds
      modifies this, blocks
      ensures ok <==> old(Requested(size, Room())) == InBounds
      ensures p.size == size && p.block.data.Length == p.block.capacity && (ok <==> p.InBounds())
      ensures ok ==> Valid() && ranges == old(ranges) + [p]
      ensures size <= old(Room()) ==> p.block == old(head) && p.off == old(AlignUp(head.used)) && blocks == old(blocks)
      ensures size > old(Room()) ==> fresh(p.block) && fresh(p.block.data) && p.off == 0 && blocks == [p.block] + old(blocks)
      ensures size > old(Room()) ==> LeastCapacity(Wanted(size), p.block.capacity)
    {
      OffsetWithinCapacity(head);
      SafeSizes(size, Room());
      ok := Requested(size, Room()) == InBounds;
      if size > head.capacity - AlignUp(head.used) {
        PushChunk(size);
      }
      var off := AlignUp(head.used);
      if off + size <= head.capacity {
        p := Bump(head, off, size, blocks, ranges);
        ranges := ranges + [p];
      } else {
        head.used := off + size;
        p := Range(head, off, size);
      }
    }

    /** A new chunk for `size` bytes: large enough, unless the sum wrapped. */
    method PushChunk(size: nat)
      requires Valid() && size <= SIZE_MAX && LoopEnds(Wanted(size))
      modifies this
      ensures Valid() && ranges == old(ranges)
      ensures fresh(head) && fresh(head.data) && head.used == 0 && blocks == [head] + old(blocks)
      ensures LeastCapacity(Wanted(size), head.capacity)
      ensures if size + (ALIGN - 1) < SIZE_LIMIT then size <= head.capacity else head.capacity == INIT_CAPACITY
    {
      var n := NewChunk(Wanted(size), head);
      if Wanted(size) < ALIGN {
        SmallWantsInitial(Wanted(size), n.capacity);
      }
      assert ([n] + blocks)[1..] == blocks;
      head, blocks := n, [n] + blocks;
    }

    /** `jik_realloc`: always moves; copies what fits. Nothing else handed out changes. */
    method Realloc(p: Range, size: nat) returns (np: Range, ghost ok: bool)
      requires Valid() && p in ranges && 0 < size <= SIZE_MAX && Requested(size, Room()) != NeverEnds
      modifies this, blocks, set b | b in blocks :: b.data
      ensures ok <==> old(Requested(size, Room())) == InBounds
      ensures np.size == size && (ok <==> np.InBounds())
      ensures ok ==> Valid() && ranges == old(ranges) + [np]
      ensures ok ==> np.Contents()[..Min(p.size, size)] == old(p.block.data[p.off..p.off + Min(p.size, size)])
      ensures ok ==> forall r :: r in old(ranges) ==> r.InBounds() && r.Contents() == old(r.Contents())
    {
      np, ok := Alloc(size);
      if np.off + np.size <= np.block.capacity {
        assert ok && ranges[|old(ranges)|] == np && np.block in blocks;
        MoveInto(np, p, Min(p.size, size), blocks, old(ranges));
      }
    }
  }

  function Min(a: nat, b: nat): nat { if a < b then a else b }
}
