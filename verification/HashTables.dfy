/** The compiler's string table (htab.h) and the runtime dictionary (core.h), in place. */
module HashTables {
  import opened Collections
  import opened Results
  import opened ProbeTable

  const INIT_CAPACITY: nat := 16

  /** `find_entry`: linear probing; terminates because some slot is empty. */
  method FindEntry<V>(items: array<Slot<V>>, h: Hash, key: string) returns (idx: nat)
    requires Count(items[..]) < items.Length
    ensures Probed(h, items[..], key, idx)
  {
    SomeEmpty(items[..]);
    ghost var hole :| 0 <= hole < items.Length && items[..][hole].Empty?;
    idx := Home(h, items.Length, key);
    while items[idx].Full? && items[idx].key != key
      invariant idx < items.Length
      invariant !Before(h, items.Length, key, hole, idx)
      invariant forall j :: 0 <= j < items.Length && Before(h, items.Length, key, j, idx) ==> items[j].Full? && items[j].key != key
      decreases items.Length - Steps(Home(h, items.Length, key), idx, items.Length)
    {
      Advance(h, items.Length, key, idx, hole);
      idx := Next(idx, items.Length);
    }
  }

  /** One more probe step passes exactly the slot it leaves. */
  lemma Advance(h: Hash, cap: nat, key: string, idx: nat, hole: nat)
    requires idx < cap && hole < cap && idx != hole && !Before(h, cap, key, hole, idx)
    ensures Steps(Home(h, cap, key), Next(idx, cap), cap) > Steps(Home(h, cap, key), idx, cap)
    ensures !Before(h, cap, key, hole, Next(idx, cap))
    ensures forall j :: 0 <= j < cap && Before(h, cap, key, j, Next(idx, cap)) ==> j == idx || Before(h, cap, key, j, idx)
  {
    NextStep(Home(h, cap, key), idx, cap);
  }

  /** Writes the slot that probing found. */
  method Write<V>(items: array<Slot<V>>, h: Hash, key: string, val: V, idx: nat, ghost m: map<string, V>)
    requires Represents(h, items[..], m) && Probed(h, items[..], key, idx)
    modifies items
    ensures Represents(h, items[..], m[key := val])
  {
    StoreIsUpdate(h, items[..], m, key, val, idx);
    items[idx] := Full(key, val);
  }

  /** Copies one old slot into the new array. */
  method Reinsert<V>(items: array<Slot<V>>, h: Hash, slot: Slot<V>, ghost m: map<string, V>)
    requires Represents(h, items[..], m) && |m| < items.Length
    modifies items
    ensures Represents(h, items[..], if slot.Full? then m[slot.key := slot.value] else m)
  {
    if slot.Full? {
      var dest := FindEntry(items, h, slot.key);
      Write(items, h, slot.key, slot.value, dest, m);
    }
  }

  /** Re-inserts every entry into a new, larger array. */
  method Rehash<V>(items: array<Slot<V>>, h: Hash, capacity: nat, ghost m: map<string, V>) returns (bigger: array<Slot<V>>)
    requires Represents(h, items[..], m) && capacity > |m|
    ensures fresh(bigger) && bigger.Length == capacity && Represents(h, bigger[..], m)
  {
    bigger := new Slot<V>[capacity](_ => Empty);
    EmptyTable(h, bigger[..]);
    ghost var s := items[..];
    for i := 0 to items.Length
      modifies bigger
      invariant Represents(h, bigger[..], Bindings(s[..i]))
    {
      PartIsSmaller(s, m, i);
      BindingsStep(s, i);
      Reinsert(bigger, h, items[i], Bindings(s[..i]));
    }
    assert s[..items.Length] == s;
    BindingsAreTheMap(s, m);
  }

  lemma BindingsStep<V>(s: seq<Slot<V>>, i: nat)
    requires i < |s|
    ensures Bindings(s[..i + 1]) == if s[i].Full? then Bindings(s[..i])[s[i].key := s[i].value] else Bindings(s[..i])
    ensures Count(s[..i + 1]) == Count(s[..i]) + if s[i].Full? then 1 else 0
  {
    assert s[..i + 1][..i] == s[..i];
  }

  lemma PartIsSmaller<V>(s: seq<Slot<V>>, m: map<string, V>, i: nat)
    requires Holds(s, m) && i <= |s|
    ensures |Bindings(s[..i])| <= |m|
  {
    BindingsAreThePart(s, m, i);
    SubsetSize(Bindings(s[..i]).Keys, m.Keys);
  }

  /** htab.h: grows before it looks for the key. */
  class StringTable<V> {
    const h: Hash
    var capacity: nat
    var size: nat
    var items: array<Slot<V>>
    ghost var contents: map<string, V>

    ghost predicate Valid()
      reads this, items
    {
      && items.Length == capacity >= INIT_CAPACITY
      && Represents(h, items[..], contents)
      && size == |contents|
      && 4 * size <= 3 * capacity
    }

    constructor (hash: Hash)
      ensures Valid() && fresh(items) && contents == map[] && h == hash
    {
      h, capacity, size, contents := hash, INIT_CAPACITY, 0, map[];
      items := new Slot<V>[INIT_CAPACITY](_ => Empty);
      new;
      EmptyTable(h, items[..]);
    }

    method Resize(cap: nat)
      requires Valid() && cap >= capacity
      modifies this
      ensures Valid() && fresh(items) && contents == old(contents) && size == old(size) && capacity == cap
    {
      items := Rehash(items, h, cap, contents);
      capacity := cap;
    }

    method Set(key: string, val: V)
      requires Valid()
      modifies this, items
      ensures Valid() && (items == old(items) || fresh(items))
      ensures contents == old(contents)[key := val]
    {
      if 4 * (size + 1) > 3 * capacity {
        Resize(capacity * 2);
      }
      var idx := FindEntry(items, h, key);
      ProbeIsLookup(h, items[..], contents, key, idx);
      if items[idx].Empty? {
        size := size + 1;
      }
      Write(items, h, key, val, idx, contents);
      contents := contents[key := val];
    }

    method Get(key: string) returns (r: Option<V>)
      requires Valid()
      ensures r == if key in contents then Some(contents[key]) else None
    {
      var idx := FindEntry(items, h, key);
      ProbeIsLookup(h, items[..], contents, key, idx);
      r := if items[idx].Empty? then None else Some(items[idx].value);
    }

    method Size() returns (n: nat)
      requires Valid()
      ensures n == |contents|
    {
      n := size;
    }
  }

  /** The table iterator; it stays valid while the table is not changed. */
  class TableIterator<V> {
    const table: StringTable<V>
    var idx: nat
    var cnt: nat

    ghost predicate Valid()
      reads this, table, table.items
    {
      table.Valid() && idx <= table.capacity && cnt == Count(table.items[..][..idx])
    }

    /** What has been handed out so far. */
    ghost function Seen(): map<string, V>
      reads this, table, table.items
      requires Valid()
    {
      Bindings(table.items[..][..idx])
    }

    lemma SeenInTable()
      requires Valid()
      ensures Seen().Keys <= table.contents.Keys
    {
      BindingsAreThePart(table.items[..], table.contents, idx);
    }

    constructor (t: StringTable<V>)
      requires t.Valid()
      ensures Valid() && table == t && Seen() == map[]
    {
      table, idx, cnt := t, 0, 0;
    }

    /** Hands out a binding not seen before, or stops exactly when all have been seen. The
        scan never runs past the last slot, so "iterator exhausted" cannot be reported. */
    method MoveNext() returns (item: Option<(string, V)>)
      requires Valid()
      modifies this
      ensures Valid()
      ensures item.None? <==> old(Seen()) == table.contents
      ensures item.Some? ==>
        var (k, v) := item.value;
        && k !in old(Seen()) && k in table.contents && table.contents[k] == v
        && Seen() == old(Seen())[k := v]
      ensures item.None? ==> Seen() == old(Seen())
    {
      Progress(table.items[..], table.contents, idx);
      if cnt == table.size {
        return None;
      }
      var next := SkipEmpty(table.items, idx, table.contents);
      MoveTo(next);
      item := Some((table.items[next].key, table.items[next].value));
    }

    method MoveTo(next: nat)
      requires Valid() && next < table.capacity && Count(table.items[..][..next + 1]) == cnt + 1
      modifies this
      ensures Valid() && Seen() == Bindings(table.items[..][..next + 1])
    {
      cnt := cnt + 1;
      idx := next + 1;
    }
  }

  lemma Appended<V>(es: seq<(string, V)>, item: (string, V), m: map<string, V>)
    requires item.0 !in Overriding(es) && |Overriding(es)| == |es| && Overriding(es)[item.0 := item.1].Keys <= m.Keys
    ensures Overriding(es + [item]) == Overriding(es)[item.0 := item.1]
    ensures |Overriding(es + [item])| == |es + [item]| <= |m|
  {
    assert (es + [item])[..|es|] == es;
    SubsetSize(Overriding(es)[item.0 := item.1].Keys, m.Keys);
  }

  /** The scan inside `iter_next`: a full slot ahead keeps it inside the array, and the
      first one adds one new binding to those seen. */
  method SkipEmpty<V>(items: array<Slot<V>>, from: nat, ghost m: map<string, V>) returns (next: nat)
    requires Holds(items[..], m) && exists j :: from <= j < items.Length && items[..][j].Full?
    ensures from <= next < items.Length && items[next].Full?
    ensures items[next].key !in Bindings(items[..][..from]) && items[next].key in m && m[items[next].key] == items[next].value
    ensures Bindings(items[..][..next + 1]) == Bindings(items[..][..from])[items[next].key := items[next].value]
    ensures Count(items[..][..next + 1]) == Count(items[..][..from]) + 1
  {
    ghost var j :| from <= j < items.Length && items[..][j].Full?;
    next := from;
    while items[next].Empty?
      invariant from <= next <= j
      invariant forall k :: from <= k < next ==> items[..][k].Empty?
      decreases j - next
    {
      next := next + 1;
    }
    StepOver(items[..], m, from, next);
  }

  lemma {:induction false} SkipKeeps<V>(s: seq<Slot<V>>, from: nat, to: nat)
    requires from <= to <= |s| && forall k :: from <= k < to ==> s[k].Empty?
    ensures Bindings(s[..to]) == Bindings(s[..from]) && Count(s[..to]) == Count(s[..from])
  {
    if from < to {
      SkipKeeps(s, from, to - 1);
      BindingsStep(s, to - 1);
    }
  }

  /** Handing out the next full slot adds one new binding to those seen. */
  lemma StepOver<V>(s: seq<Slot<V>>, m: map<string, V>, from: nat, next: nat)
    requires from <= next < |s| && s[next].Full? && forall k :: from <= k < next ==> s[k].Empty?
    requires Holds(s, m)
    ensures s[next].key !in Bindings(s[..from]) && s[next].key in m && m[s[next].key] == s[next].value
    ensures Bindings(s[..next + 1]) == Bindings(s[..from])[s[next].key := s[next].value]
    ensures Count(s[..next + 1]) == Count(s[..from]) + 1
  {
    SkipKeeps(s, from, next);
    BindingsStep(s, next);
    BindingKeys(s[..next], s[next].key);
  }

  /** The count of slots met tells exactly whether all bindings were met; if not, a full slot lies ahead. */
  lemma Progress<V>(s: seq<Slot<V>>, m: map<string, V>, i: nat)
    requires Holds(s, m) && Count(s) == |m| && i <= |s|
    ensures Count(s[..i]) == |m| <==> Bindings(s[..i]) == m
    ensures Count(s[..i]) != |m| ==> exists j :: i <= j < |s| && s[j].Full?
  {
    SeenSize(s, m, i);
    CountPrefix(s, i);
    BindingsAreThePart(s, m, i);
    if Count(s[..i]) == |m| {
      SameSize(Bindings(s[..i]), m);
    }
  }

  lemma SeenSize<V>(s: seq<Slot<V>>, m: map<string, V>, i: nat)
    requires Holds(s, m) && i <= |s|
    ensures |Bindings(s[..i])| == Count(s[..i])
  {
    if i > 0 {
      SeenSize(s, m, i - 1);
      assert s[..i][..i - 1] == s[..i - 1];
      if s[i - 1].Full? {
        BindingKeys(s[..i - 1], s[i - 1].key);
      }
    }
  }

  lemma SameSize<V>(a: map<string, V>, m: map<string, V>)
    requires a.Keys <= m.Keys && (forall k :: k in a ==> a[k] == m[k]) && |a| == |m|
    ensures a == m
  {
    SubsetSize(a.Keys, m.Keys);
  }

  /** The pairs in order, later ones overriding earlier ones. */
  function Overriding<V>(pairs: seq<(string, V)>): map<string, V> {
    if pairs == [] then map[] else Overriding(pairs[..|pairs| - 1])[pairs[|pairs| - 1].0 := pairs[|pairs| - 1].1]
  }

  /** The loop every user of the iterator writes: it meets each binding, and each once. */
  method Entries<V>(t: StringTable<V>) returns (es: seq<(string, V)>)
    requires t.Valid()
    ensures Overriding(es) == t.contents && |es| == |t.contents|
  {
    es := [];
    var it := new TableIterator(t);
    var item := it.MoveNext();
    while item.Some?
      invariant fresh(it) && it.table == t && it.Valid() && t.Valid()
      invariant item.Some? ==> item.value.0 !in Overriding(es) && it.Seen() == Overriding(es)[item.value.0 := item.value.1]
      invariant item.None? ==> Overriding(es) == t.contents
      invariant |Overriding(es)| == |es| <= |t.contents|
      decreases |t.contents| - |es|, item.Some?
    {
      it.SeenInTable();
      Appended(es, item.value, t.contents);
      es := es + [item.value];
      item := it.MoveNext();
    }
  }

  /** Pairs that make a map of their own number repeat no key. */
  lemma {:induction false} NoRepeats<V>(es: seq<(string, V)>, i: nat, j: nat)
    requires |Overriding(es)| == |es| && i < j < |es|
    ensures es[i].0 != es[j].0
  {
    var t := es[..|es| - 1];
    AtMost(t);
    assert Overriding(es).Keys == Overriding(t).Keys + {es[|es| - 1].0};
    if j < |t| {
      NoRepeats(t, i, j);
    } else {
      KeysOfPairs(t, i);
    }
  }

  lemma {:induction false} AtMost<V>(es: seq<(string, V)>)
    ensures |Overriding(es)| <= |es|
  {
    if es != [] {
      var t := es[..|es| - 1];
      AtMost(t);
      assert Overriding(es).Keys == Overriding(t).Keys + {es[|es| - 1].0};
    }
  }

  lemma {:induction false} KeysOfPairs<V>(es: seq<(string, V)>, i: nat)
    requires i < |es|
    ensures es[i].0 in Overriding(es)
  {
    if i < |es| - 1 {
      KeysOfPairs(es[..|es| - 1], i);
    }
  }

  /** core.h: looks for the key first and grows only to insert. */
  class Dict<V> {
    const h: Hash
    var capacity: nat
    var size: nat
    var items: array<Slot<V>>
    ghost var contents: map<string, V>

    ghost predicate Valid()
      reads this, items
    {
      && items.Length == capacity >= INIT_CAPACITY
      && Represents(h, items[..], contents)
      && size == |contents|
      && 4 * size <= 3 * capacity
    }

    constructor (hash: Hash)
      ensures Valid() && fresh(items) && contents == map[] && h == hash
    {
      h, capacity, size, contents := hash, INIT_CAPACITY, 0, map[];
      items := new Slot<V>[INIT_CAPACITY](_ => Empty);
      new;
      EmptyTable(h, items[..]);
    }

    /** `new_from`: later pairs override earlier ones. */
    constructor From(hash: Hash, init: seq<(string, V)>)
      ensures Valid() && fresh(items) && contents == Overriding(init) && h == hash
    {
      h, capacity, size, contents := hash, INIT_CAPACITY, 0, map[];
      items := new Slot<V>[INIT_CAPACITY](_ => Empty);
      new;
      EmptyTable(h, items[..]);
      for i := 0 to |init|
        invariant Valid() && fresh(items) && contents == Overriding(init[..i])
      {
        assert init[..i + 1][..i] == init[..i];
        Set(init[i].0, init[i].1);
      }
      assert init[..|init|] == init;
    }

    method Clear()
      requires Valid()
      modifies this, items
      ensures Valid() && items == old(items) && contents == map[] && capacity == old(capacity)
    {
      size := 0;
      for i := 0 to capacity
        invariant items == old(items) && items.Length == capacity && capacity == old(capacity) && size == 0
        invariant forall k :: 0 <= k < i ==> items[k].Empty?
      {
        items[i] := Empty;
      }
      contents := map[];
      EmptyTable(h, items[..]);
    }

    method Set(key: string, val: V)
      requires Valid()
      modifies this, items
      ensures Valid() && (items == old(items) || fresh(items))
      ensures contents == old(contents)[key := val]
      ensures key in old(contents) ==> items == old(items)
    {
      var idx := FindEntry(items, h, key);
      ProbeIsLookup(h, items[..], contents, key, idx);
      if items[idx].Full? {
        Write(items, h, key, val, idx, contents);
        contents := contents[key := val];
        return;
      }
      if 4 * (size + 1) > 3 * capacity {
        items := Rehash(items, h, capacity * 2, contents);
        capacity := capacity * 2;
        idx := FindEntry(items, h, key);
        ProbeIsLookup(h, items[..], contents, key, idx);
      }
      size := size + 1;
      Write(items, h, key, val, idx, contents);
      contents := contents[key := val];
    }

    method Get(key: string) returns (r: Option<V>)
      requires Valid()
      ensures r == if key in contents then Some(contents[key]) else None
    {
      var idx := FindEntry(items, h, key);
      ProbeIsLookup(h, items[..], contents, key, idx);
      r := if items[idx].Full? then Some(items[idx].value) else None;
    }
  }
}
