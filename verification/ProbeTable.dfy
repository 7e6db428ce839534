/** Open addressing on a sequence of slots, for any hash function: what it means for slots
    to hold a map, and why probing finds exactly what the map holds. */
module ProbeTable {

  /** A slot whose key is NULL is `Empty`. */
  datatype Slot<V> = Empty | Full(key: string, value: V)

  type Hash = string -> nat

  /** Where probing for a key starts. */
  function Home(h: Hash, cap: nat, key: string): (i: nat)
    requires cap > 0
    ensures i < cap
  {
    h(key) % cap
  }

  /** How many probe steps lead from slot `start` to slot `i`. */
  function Steps(start: nat, i: nat, cap: nat): (d: nat)
    requires start < cap && i < cap
    ensures d < cap
  {
    if i >= start then i - start else cap - start + i
  }

  /** The slot after `i` in probe order. */
  function Next(i: nat, cap: nat): (r: nat)
    requires i < cap
    ensures r < cap
  {
    (i + 1) % cap
  }

  lemma SmallMod(x: nat, n: nat)
    requires x < n
    ensures x % n == x
  {
  }

  lemma NextStep(start: nat, i: nat, cap: nat)
    requires start < cap && i < cap && Steps(start, i, cap) + 1 < cap
    ensures Steps(start, Next(i, cap), cap) == Steps(start, i, cap) + 1
  {
    if i + 1 < cap {
      SmallMod(i + 1, cap);
    } else {
      assert i + 1 == cap;
    }
  }

  function Count<V>(s: seq<Slot<V>>): (n: nat)
    ensures n <= |s|
  {
    if s == [] then 0 else Count(s[..|s| - 1]) + if s[|s| - 1].Full? then 1 else 0
  }

  lemma {:induction false} CountUpdate<V>(s: seq<Slot<V>>, i: nat, x: Slot<V>)
    requires i < |s| && x.Full?
    ensures Count(s[i := x]) == Count(s) + if s[i].Full? then 0 else 1
  {
    var t := s[i := x];
    if i == |s| - 1 {
      assert t[..|t| - 1] == s[..|s| - 1];
    } else {
      CountUpdate(s[..|s| - 1], i, x);
      assert t[..|t| - 1] == s[..|s| - 1][i := x];
    }
  }

  lemma {:induction false} CountPrefix<V>(s: seq<Slot<V>>, i: nat)
    requires i <= |s|
    ensures Count(s[..i]) <= Count(s)
    ensures Count(s[..i]) < Count(s) ==> exists j :: i <= j < |s| && s[j].Full?
    decreases |s|
  {
    if i < |s| {
      var t := s[..|s| - 1];
      CountPrefix(t, i);
      assert t[..i] == s[..i];
      if Count(s[..i]) < Count(t) {
        var j :| i <= j < |t| && t[j].Full?;
        assert s[j].Full?;
      }
    } else {
      assert s[..i] == s;
    }
  }

  /** Fewer entries than slots leave a slot empty. */
  lemma {:induction false} SomeEmpty<V>(s: seq<Slot<V>>)
    requires Count(s) < |s|
    ensures exists i :: 0 <= i < |s| && s[i].Empty?
  {
    var t := s[..|s| - 1];
    if s[|s| - 1].Full? {
      SomeEmpty(t);
      var i :| 0 <= i < |t| && t[i].Empty?;
      assert s[i].Empty?;
    }
  }

  lemma {:induction false} CountNone<V>(s: seq<Slot<V>>)
    requires forall i :: 0 <= i < |s| ==> s[i].Empty?
    ensures Count(s) == 0
  {
    if s != [] {
      CountNone(s[..|s| - 1]);
    }
  }

  // ----- slots that hold a map -----

  /** Probing for the key visits slot j before slot i. */
  predicate Before(h: Hash, cap: nat, key: string, j: nat, i: nat)
    requires i < cap && j < cap
  {
    Steps(Home(h, cap, key), j, cap) < Steps(Home(h, cap, key), i, cap)
  }

  /** Two slots are visited one before the other. */
  lemma OneIsBefore(h: Hash, cap: nat, key: string, i: nat, j: nat)
    requires i < cap && j < cap && i != j
    ensures Before(h, cap, key, i, j) || Before(h, cap, key, j, i)
  {
  }

  /** Nothing on the probe path of an entry is empty. */
  ghost predicate Reachable<V>(h: Hash, s: seq<Slot<V>>) {
    forall i, j :: 0 <= i < |s| && 0 <= j < |s| && s[i].Full? && Before(h, |s|, s[i].key, j, i) ==> s[j].Full?
  }

  ghost predicate Holds<V>(s: seq<Slot<V>>, m: map<string, V>) {
    && (forall i :: 0 <= i < |s| && s[i].Full? ==> s[i].key in m && m[s[i].key] == s[i].value)
    && (forall k :: k in m ==> exists i :: 0 <= i < |s| && s[i].Full? && s[i].key == k)
    && (forall i, j :: 0 <= i < |s| && 0 <= j < |s| && s[i].Full? && s[j].Full? && s[i].key == s[j].key ==> i == j)
  }

  ghost predicate Represents<V>(h: Hash, s: seq<Slot<V>>, m: map<string, V>) {
    |s| > 0 && Holds(s, m) && Reachable(h, s) && Count(s) == |m|
  }

  /** The outcome of probing: the entry of the key, or the first empty slot on its path. */
  ghost predicate Probed<V>(h: Hash, s: seq<Slot<V>>, key: string, idx: nat) {
    && idx < |s|
    && (s[idx].Full? ==> s[idx].key == key)
    && forall j :: 0 <= j < |s| && Before(h, |s|, key, j, idx) ==> s[j].Full? && s[j].key != key
  }

  /** Probing decides membership: it ends at an entry exactly when the map has the key. */
  lemma ProbeIsLookup<V>(h: Hash, s: seq<Slot<V>>, m: map<string, V>, key: string, idx: nat)
    requires Represents(h, s, m) && Probed(h, s, key, idx)
    ensures s[idx].Full? <==> key in m
    ensures key in m ==> m[key] == s[idx].value
  {
    if s[idx].Empty? && key in m {
      var i :| 0 <= i < |s| && s[i].Full? && s[i].key == key;
      OneIsBefore(h, |s|, key, i, idx);
      assert false;
    }
  }

  /** Writing the probed slot is map update. */
  lemma StoreIsUpdate<V>(h: Hash, s: seq<Slot<V>>, m: map<string, V>, key: string, v: V, idx: nat)
    requires Represents(h, s, m) && Probed(h, s, key, idx)
    ensures Represents(h, s[idx := Full(key, v)], m[key := v])
  {
    var t := s[idx := Full(key, v)];
    ProbeIsLookup(h, s, m, key, idx);
    CountUpdate(s, idx, Full(key, v));
    if key in m {
      assert m[key := v].Keys == m.Keys;
    } else {
      assert m[key := v].Keys == m.Keys + {key};
    }
    StoreHolds(s, m, key, v, idx);
    StoreReachable(h, s, key, v, idx);
  }

  lemma StoreReachable<V>(h: Hash, s: seq<Slot<V>>, key: string, v: V, idx: nat)
    requires Reachable(h, s) && Probed(h, s, key, idx)
    ensures Reachable(h, s[idx := Full(key, v)])
  {
    var t := s[idx := Full(key, v)];
    forall i, j | 0 <= i < |t| && 0 <= j < |t| && t[i].Full? && Before(h, |t|, t[i].key, j, i)
      ensures t[j].Full?
    {
      if i != idx {
        assert s[i].key == t[i].key;
      }
    }
  }

  lemma StoreHolds<V>(s: seq<Slot<V>>, m: map<string, V>, key: string, v: V, idx: nat)
    requires Holds(s, m) && idx < |s|
    requires if key in m then s[idx].Full? && s[idx].key == key else s[idx].Empty?
    ensures Holds(s[idx := Full(key, v)], m[key := v])
  {
    var t := s[idx := Full(key, v)];
    var n := m[key := v];
    assert t[idx].key == key;
    forall k | k in n
      ensures exists i :: 0 <= i < |t| && t[i].Full? && t[i].key == k
    {
      if k != key {
        var i :| 0 <= i < |s| && s[i].Full? && s[i].key == k;
        assert t[i].key == k;
      }
    }
  }

  lemma EmptyTable<V>(h: Hash, s: seq<Slot<V>>)
    requires |s| > 0 && forall i :: 0 <= i < |s| ==> s[i].Empty?
    ensures Represents(h, s, map[])
  {
    CountNone(s);
  }

  /** The bindings in the first `i` slots. */
  function Bindings<V>(s: seq<Slot<V>>): map<string, V> {
    if s == [] then map[]
    else
      var rest := Bindings(s[..|s| - 1]);
      if s[|s| - 1].Full? then rest[s[|s| - 1].key := s[|s| - 1].value] else rest
  }

  lemma {:induction false} BindingKeys<V>(s: seq<Slot<V>>, k: string)
    ensures k in Bindings(s) ==> exists i :: 0 <= i < |s| && s[i].Full? && s[i].key == k
    ensures (exists i :: 0 <= i < |s| && s[i].Full? && s[i].key == k) ==> k in Bindings(s)
  {
    if s != [] {
      var t := s[..|s| - 1];
      BindingKeys(t, k);
      assert forall i :: 0 <= i < |t| ==> t[i] == s[i];
    }
  }

  lemma {:induction false} BindingsAreThePart<V>(s: seq<Slot<V>>, m: map<string, V>, i: nat)
    requires Holds(s, m) && i <= |s|
    ensures Bindings(s[..i]).Keys <= m.Keys && forall k :: k in Bindings(s[..i]) ==> Bindings(s[..i])[k] == m[k]
  {
    if i > 0 {
      BindingsAreThePart(s, m, i - 1);
      assert s[..i][..i - 1] == s[..i - 1];
    }
  }

  /** All slots together give the whole map. */
  lemma BindingsAreTheMap<V>(s: seq<Slot<V>>, m: map<string, V>)
    requires Holds(s, m)
    ensures Bindings(s) == m
  {
    BindingsAreThePart(s, m, |s|);
    assert s[..|s|] == s;
    forall k | k in m
      ensures k in Bindings(s)
    {
      BindingKeys(s, k);
    }
  }
}
