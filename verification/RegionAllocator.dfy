/** The runtime's region allocator (core.h). A `jik_die` is an Err result. */
module RegionAllocator {
  import opened Machine
  import opened Results
  import opened Allocators

  const DEFAULT_BLOCK_SIZE: nat := 0x1_0000

  /** sizeof(JikRegionBlock) without its data. */
  const HEADER: nat := 24

  /** `jik_size_add` and `jik_size_mul`. */
  function SizeAdd(a: nat, b: nat): Result<nat> {
    if a + b < SIZE_LIMIT then Ok(a + b) else Err("allocation size overflow")
  }

  function SizeMul(a: nat, b: nat): Result<nat> {
    if a * b < SIZE_LIMIT then Ok(a * b) else Err("allocation size overflow")
  }

  ghost function TotalCapacity(blocks: seq<Block>): nat {
    if blocks == [] then 0 else blocks[0].capacity + TotalCapacity(blocks[1..])
  }

  class Region {
    var blocks: Block?
    var current: Block?
    const blockSize: nat
    var totalMem: nat
    ghost var list: seq<Block>
    ghost var ranges: seq<Range>

    ghost predicate Valid()
      reads this, list
    {
      && Chain(blocks, list) && current == blocks
      && BlocksOk(list) && RangesOk(list, ranges)
      && (forall b :: b in list ==> b.used % ALIGN == 0)
      && totalMem == TotalCapacity(list) < SIZE_LIMIT
    }

    constructor (size: nat)
      ensures Valid() && list == [] && ranges == [] && totalMem == 0
      ensures blockSize == if size == 0 then DEFAULT_BLOCK_SIZE else size
    {
      blocks, current, totalMem, list, ranges := null, null, 0, [], [];
      blockSize := if size == 0 then DEFAULT_BLOCK_SIZE else size;
    }

    /** The current block has room for n bytes. */
    predicate Fits(n: nat)
      reads this, current
    {
      current != null && current.used <= current.capacity && n <= current.capacity - current.used
    }

    /** When an allocation cannot be served because a size would leave size_t. */
    predicate Overflows(size: nat)
      reads this, current
    {
      size > 0 &&
      (size + (ALIGN - 1) >= SIZE_LIMIT
       || (!Fits(AlignUp(size))
           && (totalMem + Max(blockSize, AlignUp(size)) >= SIZE_LIMIT || HEADER + Max(blockSize, AlignUp(size)) >= SIZE_LIMIT)))
    }

    /** Puts a new empty block at the head of the list and makes it current. */
    method PushBlock(cap: nat)
      requires Valid() && totalMem + cap < SIZE_LIMIT
      modifies this`blocks, this`current, this`totalMem, this`list
      ensures Valid() && ranges == old(ranges)
      ensures list != [] && list == [list[0]] + old(list) && current == list[0]
      ensures fresh(list[0]) && fresh(list[0].data) && list[0].used == 0 && list[0].capacity == cap
    {
      var b := new Block(cap, blocks);
      assert ([b] + list)[1..] == list;
      totalMem := totalMem + cap;
      blocks, current, list := b, b, [b] + list;
    }

    /** `jik_region_alloc`. */
    method Alloc(size: nat) returns (r: Result<Option<Range>>)
      requires Valid() && size < SIZE_LIMIT
      modifies this, list
      ensures r.Err? <==> old(Overflows(size))
      ensures r.Ok? ==> Valid()
      ensures r.Ok? && size == 0 ==> r.value == None && ranges == old(ranges) && list == old(list)
      ensures r.Ok? && size > 0 ==> r.value.Some? && ranges == old(ranges) + [r.value.value] && r.value.value.size == AlignUp(size)
      ensures r.Ok? && size > 0 && old(Fits(AlignUp(size))) ==>
        list == old(list) && r.value.value.block == old(current) && r.value.value.off == old(current.used)
      ensures r.Ok? && size > 0 && !old(Fits(AlignUp(size))) ==>
        var p := r.value.value;
        list == [p.block] + old(list) && fresh(p.block) && fresh(p.block.data) && p.off == 0 && p.block.capacity == Max(blockSize, AlignUp(size))
    {
      if size == 0 {
        return Ok(None);
      }
      var padded :- SizeAdd(size, ALIGN - 1);
      var n := AlignUp(size);
      if current == null || n > current.capacity - current.used {
        var cap := blockSize;
        if n > cap {
          cap := n;
        }
        var total :- SizeAdd(totalMem, cap);
        var bytes :- SizeAdd(HEADER, cap);
        PushBlock(cap);
      }
      var p := Serve(n);
      r := Ok(Some(p));
    }

    /** Takes n bytes from the current block. */
    method Serve(n: nat) returns (p: Range)
      requires Valid() && Fits(n) && n % ALIGN == 0
      modifies this`ranges, current
      ensures Valid() && ranges == old(ranges) + [p] && p == Range(current, old(current.used), n)
    {
      assert current == list[0];
      p := Bump(current, current.used, n, list, ranges);
      ranges := ranges + [p];
    }

    /** `jik_region_calloc`: the bytes asked for are zero; nothing else handed out changes. */
    method Calloc(count: nat, size: nat) returns (r: Result<Option<Range>>)
      requires Valid() && count < SIZE_LIMIT && size < SIZE_LIMIT
      modifies this, list, set b | b in list :: b.data
      ensures r.Err? <==> count * size >= SIZE_LIMIT || old(Overflows(count * size))
      ensures r.Ok? ==> Valid()
      ensures r.Ok? && r.value.Some? ==>
        var p := r.value.value;
        && ranges == old(ranges) + [p] && p.InBounds() && p.size == AlignUp(count * size)
        && (forall k :: p.off <= k < p.off + count * size ==> p.block.data[k] == 0)
      ensures r.Ok? ==> forall q :: q in old(ranges) ==> q.InBounds() && q.Contents() == old(q.Contents())
    {
      var total :- SizeMul(count, size);
      r := Alloc(total);
      if r.Ok? && r.value.Some? {
        var p := r.value.value;
        NewestIsApart(list, old(ranges), p);
        Zero(p, total);
        forall q | q in old(ranges)
          ensures q.InBounds() && q.Contents() == old(q.Contents())
        {
          assert Disjoint(q, p);
          assert q.block.data[q.off..q.off + q.size] == old(q.block.data[q.off..q.off + q.size]);
        }
      }
    }

    /** `jik_region_realloc`: shrinking keeps the piece; growing moves and copies it. */
    method Realloc(p: Option<Range>, oldSize: nat, newSize: nat) returns (r: Result<Option<Range>>)
      requires Valid() && newSize < SIZE_LIMIT
      requires p.Some? ==> p.value in ranges && oldSize <= p.value.size
      modifies this, list, set b | b in list :: b.data
      ensures r.Err? <==> newSize > 0 && (p.None? || newSize > oldSize) && old(Overflows(newSize))
      ensures r.Ok? ==> Valid()
      ensures r.Ok? && newSize == 0 ==> r.value == None
      ensures r.Ok? && 0 < newSize <= oldSize && p.Some? ==> r.value == p && ranges == old(ranges)
      ensures r.Ok? && newSize > 0 && (p.None? || newSize > oldSize) ==>
        r.value.Some? && ranges == old(ranges) + [r.value.value] && r.value.value.size >= newSize && r.value.value.InBounds()
      ensures r.Ok? && p.Some? && newSize > oldSize ==>
        r.value.value.Contents()[..oldSize] == old(p.value.block.data[p.value.off..p.value.off + oldSize])
      ensures r.Ok? ==> forall q :: q in old(ranges) ==> q.InBounds() && q.Contents() == old(q.Contents())
    {
      if newSize == 0 {
        return Ok(None);
      }
      if p.None? {
        r := Alloc(newSize);
        if r.Ok? {
          NewestIsApart(list, old(ranges), r.value.value);
        }
        return;
      }
      if newSize <= oldSize {
        return Ok(p);
      }
      r := Grow(p.value, oldSize, newSize);
    }

    /** Growing: a new piece, the old bytes at its start. */
    method Grow(p: Range, oldSize: nat, newSize: nat) returns (r: Result<Option<Range>>)
      requires Valid() && p in ranges && oldSize <= p.size && oldSize < newSize < SIZE_LIMIT
      modifies this, list, set b | b in list :: b.data
      ensures r.Err? <==> old(Overflows(newSize))
      ensures r.Ok? ==> Valid() && r.value.Some?
      ensures r.Ok? ==>
        var np := r.value.value;
        ranges == old(ranges) + [np] && np.size >= newSize && np.InBounds() && np.Contents()[..oldSize] == old(p.block.data[p.off..p.off + oldSize])
      ensures r.Ok? ==> forall q :: q in old(ranges) ==> q.InBounds() && q.Contents() == old(q.Contents())
    {
      r := Alloc(newSize);
      if r.Ok? {
        var np := r.value.value;
        NewestIsApart(list, old(ranges), np);
        MoveInto(np, p, oldSize, list, old(ranges));
      }
    }

    /** `jik_region_free`: gives back every block of the region exactly once. */
    method Free() returns (ghost freed: seq<Block>)
      requires Valid()
      modifies this
      ensures freed == old(list) && blocks == null && current == null && totalMem == 0
    {
      freed := [];
      var b := blocks;
      while b != null
        invariant freed <= list && Chain(b, list[|freed|..])
        decreases |list| - |freed|
      {
        assert list[|freed|..][1..] == list[|freed| + 1..];
        freed := freed + [b];
        b := b.next;
      }
      assert list[|freed|..] == [];
      blocks, current, totalMem, list, ranges := null, null, 0, [], [];
    }
  }

  /** memset(p, 0, n). */
  method Zero(p: Range, n: nat)
    requires p.InBounds() && n <= p.size
    modifies p.block.data
    ensures forall k :: p.off <= k < p.off + n ==> p.block.data[k] == 0
    ensures forall k :: 0 <= k < p.block.data.Length && !(p.off <= k < p.off + n) ==> p.block.data[k] == old(p.block.data[k])
  {
    for i := 0 to n
      invariant forall k :: p.off <= k < p.off + i ==> p.block.data[k] == 0
      invariant forall k :: 0 <= k < p.block.data.Length && !(p.off <= k < p.off + i) ==> p.block.data[k] == old(p.block.data[k])
    {
      p.block.data[p.off + i] := 0;
    }
  }

  function Max(a: nat, b: nat): nat { if a > b then a else b }
}
