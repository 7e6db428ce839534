/** Growable vectors and character buffers of the runtime (core.h), over their arrays. */
module Vectors {
  import opened Machine
  import opened Results

  /** The capacity reached from `cap` by steps of 2n + 1, once it is at least `need`. */
  function Grown(cap: nat, need: nat): (r: nat)
    ensures r >= need && r >= cap
    decreases need - cap
  {
    if cap >= need then cap else Grown(2 * cap + 1, need)
  }

  /** A need that some size check refuses. */
  predicate Refused(need: nat, cap: nat) {
    need >= SIZE_LIMIT || (need > cap && Grown(cap, need) >= SIZE_LIMIT)
  }

  /** Growing never overshoots by more than a factor of two. */
  lemma {:induction false} GrownIsTight(cap: nat, need: nat)
    requires cap < need
    ensures Grown(cap, need) <= 2 * need
    decreases need - cap
  {
    if 2 * cap + 1 < need {
      GrownIsTight(2 * cap + 1, need);
    }
  }

  /** The growth loop, with the explicit overflow checks; terminates from capacity 0. */
  method GrowCapacity(cap: nat, need: nat) returns (r: Result<nat>)
    requires cap < SIZE_LIMIT && need < SIZE_LIMIT
    ensures r.Ok? <==> Grown(cap, need) < SIZE_LIMIT
    ensures r.Ok? ==> r.value == Grown(cap, need)
  {
    var c := cap;
    while c < need
      invariant c < SIZE_LIMIT && Grown(c, need) == Grown(cap, need)
      decreases need - c
    {
      if 2 * c >= SIZE_LIMIT || 2 * c + 1 >= SIZE_LIMIT {
        return Err("allocation size overflow");
      }
      c := 2 * c + 1;
    }
    r := Ok(c);
  }

  /** `jik_region_realloc` on an array: a longer copy of its first `keep` elements. */
  method Regrow<T(0)>(data: array<T>, keep: nat, length: nat) returns (bigger: array<T>)
    requires keep <= data.Length && keep <= length
    ensures fresh(bigger) && bigger.Length == length && bigger[..keep] == data[..keep]
  {
    bigger := new T[length];
    for i := 0 to keep
      modifies bigger
      invariant bigger[..i] == data[..i]
    {
      bigger[i] := data[i];
    }
  }

  class Vector<T(0)> {
    var data: array<T>
    var size: nat
    var capacity: nat
    const elemSize: nat

    ghost predicate Valid()
      reads this
    {
      size <= capacity <= data.Length && 0 < elemSize && capacity * elemSize < SIZE_LIMIT
    }

    ghost function Contents(): seq<T>
      requires Valid()
      reads this, data
    {
      data[..size]
    }

    /** `new`: n elements with no particular value. */
    constructor (n: nat, elemSize: nat)
      requires 0 < elemSize && n * elemSize < SIZE_LIMIT
      ensures Valid() && fresh(data) && size == n && this.elemSize == elemSize
    {
      this.elemSize := elemSize;
      data := new T[n];
      size, capacity := n, n;
    }

    constructor From(init: seq<T>, elemSize: nat)
      requires 0 < elemSize && |init| * elemSize < SIZE_LIMIT
      ensures Valid() && fresh(data) && Contents() == init && this.elemSize == elemSize
    {
      this.elemSize := elemSize;
      var d := new T[|init|];
      for i := 0 to |init|
        invariant d[..i] == init[..i]
      {
        d[i] := init[i];
      }
      data, size, capacity := d, |init|, |init|;
    }

    method Clear()
      requires Valid()
      modifies this`size
      ensures Valid() && Contents() == []
    {
      size := 0;
    }

    method Get(idx: nat) returns (r: Result<T>)
      requires Valid()
      ensures r.Ok? <==> idx < |Contents()|
      ensures r.Ok? ==> r.value == Contents()[idx]
    {
      if idx >= size {
        return Err("vector index out of bounds");
      }
      r := Ok(data[idx]);
    }

    method Set(idx: nat, item: T) returns (r: Result<()>)
      requires Valid()
      modifies data
      ensures r.Ok? <==> idx < |old(Contents())|
      ensures Valid() && Contents() == if r.Ok? then old(Contents())[idx := item] else old(Contents())
    {
      if idx >= size {
        return Err("vector index out of bounds");
      }
      data[idx] := item;
      r := Ok(());
    }

    method Push(item: T) returns (r: Result<()>)
      requires Valid()
      modifies this, data
      ensures r.Err? <==> old(size == capacity && (2 * capacity + 1) * elemSize >= SIZE_LIMIT)
      ensures r.Ok? ==> Valid() && Contents() == old(Contents()) + [item]
      ensures r.Ok? ==> data == old(data) || fresh(data)
    {
      if size == capacity {
        var newCap := 2 * capacity + 1;
        Product(newCap, elemSize);
        if newCap >= SIZE_LIMIT || newCap * elemSize >= SIZE_LIMIT {
          return Err("allocation size overflow");
        }
        data := Regrow(data, capacity, newCap);
        capacity := newCap;
      }
      data[size] := item;
      size := size + 1;
      r := Ok(());
    }

    /** Appends the elements of b, which may be this vector itself. */
    method Extend(b: Vector<T>) returns (r: Result<()>)
      requires Valid() && b.Valid() && (b == this || b.data != data)
      modifies this, data
      ensures r.Err? <==> old(b.size > 0 &&
        (size + b.size >= SIZE_LIMIT || (size + b.size > capacity && Grown(capacity, size + b.size) * elemSize >= SIZE_LIMIT)))
      ensures r.Ok? ==> Valid() && Contents() == old(Contents()) + old(b.Contents())
      ensures r.Ok? ==> data == old(data) || fresh(data)
    {
      if b.size == 0 {
        return Ok(());
      }
      var newSize := size + b.size;
      if newSize >= SIZE_LIMIT {
        return Err("allocation size overflow");
      }
      var reserved :- Reserve(newSize);
      Fill(b, newSize);
      r := Ok(());
    }

    /** Room for `need` elements. */
    method Reserve(need: nat) returns (r: Result<()>)
      requires Valid() && need < SIZE_LIMIT
      modifies this`data, this`capacity
      ensures r.Err? <==> need > old(capacity) && Grown(old(capacity), need) * elemSize >= SIZE_LIMIT
      ensures r.Ok? ==> Valid() && need <= capacity && Contents() == old(Contents()) && (data == old(data) || fresh(data))
    {
      if need > capacity {
        Product(capacity, elemSize);
        Product(Grown(capacity, need), elemSize);
        var grown :- GrowCapacity(capacity, need);
        if grown * elemSize >= SIZE_LIMIT {
          return Err("allocation size overflow");
        }
        var bigger := Regrow(data, capacity, grown);
        assert bigger[..size] == bigger[..capacity][..size] == data[..capacity][..size];
        data, capacity := bigger, grown;
      }
      r := Ok(());
    }

    /** The copying loop of `extend`; reads b while writing behind this vector's end. */
    method Fill(b: Vector<T>, newSize: nat)
      requires Valid() && b.Valid() && (b == this || b.data != data) && newSize == size + b.size <= capacity
      modifies this`size, data
      ensures Valid() && size == newSize && Contents() == old(Contents()) + old(b.Contents())
    {
      ghost var mine, other := Contents(), b.Contents();
      for i := 0 to b.size
        modifies data
        invariant forall k :: 0 <= k < size ==> data[k] == mine[k]
        invariant forall k :: 0 <= k < b.size ==> b.data[k] == other[k]
        invariant forall k :: 0 <= k < i ==> data[size + k] == other[k]
      {
        data[size + i] := b.data[i];
      }
      size := newSize;
      assert Contents() == mine + other;
    }

    method Pop() returns (r: Result<T>)
      requires Valid()
      modifies this`size
      ensures r.Err? <==> old(Contents()) == []
      ensures Valid()
      ensures r.Ok? ==> old(Contents()) == Contents() + [r.value]
      ensures r.Err? ==> Contents() == old(Contents())
    {
      if size == 0 {
        return Err("cannot pop from empty vector");
      }
      size := size - 1;
      r := Ok(data[size]);
    }

    /** A slice with optional signed bounds: an error unless 0 <= start <= stop <= size,
        otherwise a vector of its own with exactly those elements. */
    method Slice(start: int, startOmitted: bool, stop: int, stopOmitted: bool) returns (r: Result<Vector<T>>)
      requires Valid()
      ensures
        var lower, upper := if startOmitted then 0 else start, if stopOmitted then |Contents()| else stop;
        && (r.Ok? <==> 0 <= lower <= upper <= |Contents()|)
        && (r.Ok? ==> fresh(r.value) && fresh(r.value.data) && r.value.Valid() && r.value.Contents() == Contents()[lower..upper])
    {
      if (!startOmitted && start < 0) || (!stopOmitted && stop < 0) {
        return Err("invalid vector slice bounds");
      }
      var lower := if startOmitted then 0 else start;
      var upper := if stopOmitted then size else stop;
      if lower > upper || upper > size {
        return Err("invalid vector slice bounds");
      }
      var n := upper - lower;
      SmallerProduct(n, capacity, elemSize);
      var out := new Vector<T>(n, elemSize);
      out.CopyFrom(data, lower);
      assert data[lower..upper] == data[..size][lower..upper];
      r := Ok(out);
    }

    /** Overwrites all elements with those from an index of another array on. */
    method CopyFrom(source: array<T>, lower: nat)
      requires Valid() && data != source && lower + size <= source.Length
      modifies data
      ensures Contents() == source[lower..lower + size]
    {
      for i := 0 to size
        invariant data[..i] == source[lower..lower + i]
      {
        data[i] := source[lower + i];
      }
    }
  }

  lemma Product(a: nat, e: nat)
    requires e > 0
    ensures a * e >= a
  {
  }

  lemma SmallerProduct(a: nat, b: nat, e: nat)
    requires a <= b
    ensures a * e <= b * e
  {
  }

  /** `JikCharBuffer`: a text with its terminator. */
  class CharBuffer {
    var data: array<char>
    var size: nat
    var capacity: nat

    /** The terminator always fits: even when capacity is the bare length, as after `new`. */
    ghost predicate Valid()
      reads this, data
    {
      size < data.Length && capacity <= data.Length && size <= capacity < SIZE_LIMIT && data[size] == NUL_CHAR
    }

    ghost function Contents(): string
      requires Valid()
      reads this, data
    {
      data[..size]
    }

    constructor (from: string)
      requires |from| + 1 < SIZE_LIMIT
      ensures Valid() && fresh(data) && Contents() == from
    {
      size, capacity := |from|, |from|;
      var d := new char[|from| + 1](i => if 0 <= i < |from| then from[i] else NUL_CHAR);
      data := d;
    }

    /** Room for `need` characters; growth copies the old capacity, not the terminator. */
    method Reserve(need: nat) returns (r: Result<()>)
      requires Valid() && need < SIZE_LIMIT
      modifies this
      ensures r.Err? <==> Refused(need, old(capacity))
      ensures r.Ok? ==> need <= capacity <= data.Length && capacity < SIZE_LIMIT
      ensures r.Ok? ==> size == old(size) <= capacity && data[..size] == old(Contents())
      ensures r.Ok? ==> data == old(data) || fresh(data)
    {
      if need > capacity {
        var grown :- GrowCapacity(capacity, need);
        var bigger := Regrow(data, capacity, grown);
        assert bigger[..size] == bigger[..capacity][..size] == data[..capacity][..size];
        data, capacity := bigger, grown;
      }
      r := Ok(());
    }

    method Append(str: string) returns (r: Result<()>)
      requires Valid()
      modifies this, data
      ensures r.Err? <==> old(Refused(size + |str| + 1, capacity))
      ensures r.Ok? ==> Valid() && Contents() == old(Contents()) + str && (data == old(data) || fresh(data))
    {
      if size + |str| + 1 >= SIZE_LIMIT {
        return Err("allocation size overflow");
      }
      var reserved :- Reserve(size + |str| + 1);
      ghost var text := data[..size];
      for i := 0 to |str|
        modifies data
        invariant data[..size + i] == text + str[..i]
      {
        data[size + i] := str[i];
        assert data[..size + i + 1] == data[..size + i] + [str[i]];
      }
      assert str[..|str|] == str;
      size := size + |str|;
      data[size] := NUL_CHAR;
      r := Ok(());
    }

    method AppendChar(ch: char) returns (r: Result<()>)
      requires Valid()
      modifies this, data
      ensures r.Err? <==> old(Refused(size + 2, capacity))
      ensures r.Ok? ==> Valid() && Contents() == old(Contents()) + [ch] && (data == old(data) || fresh(data))
    {
      if size + 2 >= SIZE_LIMIT {
        return Err("allocation size overflow");
      }
      var reserved :- Reserve(size + 2);
      ghost var text := data[..size];
      data[size] := ch;
      size := size + 1;
      data[size] := NUL_CHAR;
      assert data[..size] == text + [ch];
      r := Ok(());
    }
  }
}
