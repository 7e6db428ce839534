/** The driver of `regcheck.c`: passes that overwrite the specs of every function, the
    region-safe classification, and the loop that infers the remaining specs. */
module RegionPasses {
  import opened RegionSyntax
  import opened RegionCheck
  import opened Collections
  import opened Machine
  import opened Results

  /** `jik_collect_unknown_allocs` over one function: how many needed specs are unknown. */
  function Unknowns(S: Specs, nodes: seq<Node>): Result<(nat, Specs)>
    decreases nodes
  {
    if nodes == [] then Ok((0, S))
    else if nodes[0].ExprNode? && HasAllocSpec(nodes[0].e) then
      var (s, S1) :- GetSpec(S, nodes[0].e);
      var (n, S2) :- Unknowns(S1, nodes[1..]);
      Ok((if Complete(s) then n else n + 1, S2))
    else Unknowns(S, nodes[1..])
  }

  // ----- the passes over all functions, as functions -----

  predicate Listed(funcs: Funcs, info: map<Name, Specs>, order: seq<Name>) {
    forall i :: 0 <= i < |order| ==> order[i] in funcs && order[i] in info
  }

  function BodyPass(funcs: Funcs, safe: set<Name>, info: map<Name, Specs>, fn: Name): Result<Specs>
    requires fn in funcs && fn in info
  {
    Pass(funcs, safe, funcs[fn].params, info[fn], NodesB(funcs[fn].body))
  }

  function BodyUnknowns(funcs: Funcs, info: map<Name, Specs>, fn: Name): Result<(nat, Specs)>
    requires fn in funcs && fn in info
  {
    Unknowns(info[fn], NodesB(funcs[fn].body))
  }

  /** `jik_check_region_integrity`. */
  function PassAll(funcs: Funcs, safe: set<Name>, info: map<Name, Specs>, order: seq<Name>): (r: Result<map<Name, Specs>>)
    requires Listed(funcs, info, order)
    ensures r.Ok? ==> r.value.Keys == info.Keys
  {
    if order == [] then Ok(info)
    else
      var S :- BodyPass(funcs, safe, info, order[0]);
      PassAll(funcs, safe, info[order[0] := S], order[1..])
  }

  /** `jik_collect_unknown_allocs`. */
  function CountAll(funcs: Funcs, info: map<Name, Specs>, order: seq<Name>): (r: Result<(nat, map<Name, Specs>)>)
    requires Listed(funcs, info, order)
    ensures r.Ok? ==> r.value.1.Keys == info.Keys
  {
    if order == [] then Ok((0, info))
    else
      var (n, S) :- BodyUnknowns(funcs, info, order[0]);
      var (m, info') :- CountAll(funcs, info[order[0] := S], order[1..]);
      Ok((n + m, info'))
  }

  const UNINFERRED := "could not infer region for expression"

  /** The inference loop: rounds while the number of unknown specs falls below `previous`. */
  function InferAll(funcs: Funcs, safe: set<Name>, order: seq<Name>, info: map<Name, Specs>, previous: nat): Result<map<Name, Specs>>
    requires Listed(funcs, info, order) && previous > 0
    decreases previous
  {
    var passed :- PassAll(funcs, safe, info, order);
    var (n, counted) :- CountAll(funcs, passed, order);
    if n == 0 then Ok(counted)
    else if n < previous then InferAll(funcs, safe, order, counted, n)
    else Err(UNINFERRED)
  }

  function Members(order: seq<Name>): set<Name> { set fn | fn in order }

  /** The pass over all functions succeeds exactly when each function's pass does. */
  lemma {:induction false} PassAllEach(funcs: Funcs, safe: set<Name>, info: map<Name, Specs>, order: seq<Name>)
    requires Listed(funcs, info, order) && Distinct(order)
    ensures PassAll(funcs, safe, info, order).Ok? <==> forall fn :: fn in order ==> BodyPass(funcs, safe, info, fn).Ok?
    ensures PassAll(funcs, safe, info, order).Ok? ==>
      var after := PassAll(funcs, safe, info, order).value;
      && (forall fn :: fn in order ==> BodyPass(funcs, safe, info, fn) == Ok(after[fn]))
      && (forall fn :: fn in info && fn !in order ==> after[fn] == info[fn])
  {
    if order != [] {
      var out := BodyPass(funcs, safe, info, order[0]);
      assert order[0] in order;
      if out.Ok? {
        var info1 := info[order[0] := out.value];
        PassAllEach(funcs, safe, info1, order[1..]);
        assert order[0] !in order[1..];
        forall fn | fn in order[1..]
          ensures fn in order && BodyPass(funcs, safe, info1, fn) == BodyPass(funcs, safe, info, fn)
        {
        }
      }
    }
  }

  /** The count is zero exactly when each function's is. */
  lemma {:induction false} CountAllEach(funcs: Funcs, info: map<Name, Specs>, order: seq<Name>)
    requires Listed(funcs, info, order) && Distinct(order)
    ensures CountAll(funcs, info, order).Ok? <==> forall fn :: fn in order ==> BodyUnknowns(funcs, info, fn).Ok?
    ensures CountAll(funcs, info, order).Ok? ==>
      var (n, after) := CountAll(funcs, info, order).value;
      && (forall fn :: fn in order ==> BodyUnknowns(funcs, info, fn).value.1 == after[fn])
      && (forall fn :: fn in info && fn !in order ==> after[fn] == info[fn])
      && (n == 0 <==> forall fn :: fn in order ==> BodyUnknowns(funcs, info, fn).value.0 == 0)
  {
    if order != [] {
      var out := BodyUnknowns(funcs, info, order[0]);
      assert order[0] in order;
      if out.Ok? {
        var info1 := info[order[0] := out.value.1];
        CountAllEach(funcs, info1, order[1..]);
        assert order[0] !in order[1..];
        forall fn | fn in order[1..]
          ensures fn in order && BodyUnknowns(funcs, info1, fn) == BodyUnknowns(funcs, info, fn)
        {
        }
      }
    }
  }

  /** A set of functions that are all safe when exactly this set is assumed safe. */
  ghost predicate SelfSafe(funcs: Funcs, info: map<Name, Specs>, safe: set<Name>) {
    forall fn :: fn in safe ==> fn in funcs && fn in info && SafeBody(funcs, safe, info[fn], funcs[fn].body)
  }

  /** A larger assumption never makes a body less safe. */
  lemma SafeBodyMonotone(funcs: Funcs, small: set<Name>, large: set<Name>, S: Specs, body: seq<Stmt>)
    requires small <= large && SafeBody(funcs, small, S, body)
    ensures SafeBody(funcs, large, S, body)
  {
    forall nd | nd in NodesB(body)
      ensures SafeNode(funcs, large, S, nd)
    {
      assert SafeNode(funcs, small, S, nd);
    }
  }

  /** No self-safe set below `safe` has a function that is unsafe even when all of it is assumed. */
  lemma RemovalIsForced(funcs: Funcs, info: map<Name, Specs>, safe: set<Name>, fn: Name)
    requires fn in funcs && fn in info && !SafeBody(funcs, safe, info[fn], funcs[fn].body)
    ensures forall other :: other <= safe && SelfSafe(funcs, info, other) ==> fn !in other
  {
    forall other | other <= safe && SelfSafe(funcs, info, other)
      ensures fn !in other
    {
      if fn in other {
        SafeBodyMonotone(funcs, other, safe, info[fn], funcs[fn].body);
      }
    }
  }

  /** The classification is the greatest self-safe set, so it does not depend on the
      order in which functions are visited. */
  ghost predicate Greatest(funcs: Funcs, info: map<Name, Specs>, start: set<Name>, safe: set<Name>) {
    && safe <= start && SelfSafe(funcs, info, safe)
    && forall other :: other <= start && SelfSafe(funcs, info, other) ==> other <= safe
  }

  lemma GreatestUnique(funcs: Funcs, info: map<Name, Specs>, start: set<Name>, a: set<Name>, b: set<Name>)
    requires Greatest(funcs, info, start, a) && Greatest(funcs, info, start, b)
    ensures a == b
  {
    assert a <= b && b <= a;
  }

  class Checker {
    const funcs: Funcs
    const order: seq<Name>
    var info: map<Name, Specs>
    var safe: set<Name>

    ghost predicate Valid()
      reads this
    {
      && (forall i :: 0 <= i < |order| ==> order[i] in funcs)
      && (forall fn :: fn in funcs ==> fn in order && fn in info)
      && Distinct(order)
    }

    constructor (funcs: Funcs, order: seq<Name>, info: map<Name, Specs>)
      requires forall i :: 0 <= i < |order| ==> order[i] in funcs
      requires forall fn :: fn in funcs ==> fn in order && fn in info
      requires Distinct(order)
      ensures Valid() && this.funcs == funcs && this.order == order && this.info == info
      ensures safe == Elements(order)
    {
      this.funcs, this.order, this.info := funcs, order, info;
      this.safe := Elements(order);
    }

    /** The integrity pass over one function. */
    method FunctionPass(fn: Name) returns (r: Result<()>)
      requires Valid() && fn in funcs
      modifies `info
      ensures Valid() && info == old(info)[fn := info[fn]]
      ensures
        var out := BodyPass(funcs, safe, old(info), fn);
        if r.Ok? then out == Ok(info[fn]) else out == Err(r.message)
    {
      var nodes := NodesB(funcs[fn].body);
      var i := 0;
      while i < |nodes|
        invariant 0 <= i <= |nodes| && fn in info && info == old(info)[fn := info[fn]]
        invariant Pass(funcs, safe, funcs[fn].params, old(info)[fn], nodes)
               == Pass(funcs, safe, funcs[fn].params, info[fn], nodes[i..])
      {
        var out := Visit(funcs, safe, funcs[fn].params, info[fn], nodes[i]);
        if out.Err? {
          return Err(out.message);
        }
        info := info[fn := out.value];
        i := i + 1;
      }
      r := Ok(());
    }

    /** `jik_check_region_integrity`: the pass over every function. */
    method IntegrityPass() returns (r: Result<()>)
      requires Valid()
      modifies `info
      ensures Valid()
      ensures
        var out := PassAll(funcs, safe, old(info), order);
        if r.Ok? then out == Ok(info) else out == Err(r.message)
    {
      var i := 0;
      while i < |order|
        invariant 0 <= i <= |order| && Valid()
        invariant PassAll(funcs, safe, old(info), order) == PassAll(funcs, safe, info, order[i..])
      {
        r := FunctionPass(order[i]);
        if r.Err? {
          return;
        }
        i := i + 1;
      }
      r := Ok(());
    }

    /** `jik_collect_unknown_allocs` over one function. */
    method FunctionUnknowns(fn: Name) returns (r: Result<nat>)
      requires Valid() && fn in funcs
      modifies `info
      ensures Valid() && info == old(info)[fn := info[fn]] && info.Keys == old(info).Keys
      ensures BodyUnknowns(funcs, old(info), fn) == if r.Ok? then Ok((r.value, info[fn])) else Err(r.message)
    {
      var nodes := NodesB(funcs[fn].body);
      var i, n := 0, 0;
      while i < |nodes|
        invariant 0 <= i <= |nodes| && fn in info && info == old(info)[fn := info[fn]]
        invariant Unknowns(old(info)[fn], nodes) == Plus(n, Unknowns(info[fn], nodes[i..]))
      {
        assert nodes[i..][0] == nodes[i] && nodes[i..][1..] == nodes[i + 1..];
        if nodes[i].ExprNode? && HasAllocSpec(nodes[i].e) {
          var out := GetSpec(info[fn], nodes[i].e);
          if out.Err? {
            return Err(out.message);
          }
          PlusStep(n, info[fn], nodes[i..]);
          info := info[fn := out.value.1];
          n := if Complete(out.value.0) then n else n + 1;
        }
        i := i + 1;
      }
      r := Ok(n);
    }

    method CollectUnknowns() returns (r: Result<nat>)
      requires Valid()
      modifies `info
      ensures Valid()
      ensures CountAll(funcs, old(info), order) == if r.Ok? then Ok((r.value, info)) else Err(r.message)
    {
      hide BodyUnknowns;
      var i, n := 0, 0;
      ghost var all := CountAll(funcs, info, order);
      ghost var rest := order;
      while i < |order|
        invariant 0 <= i <= |order| && Valid() && rest == order[i..]
        invariant Listed(funcs, info, rest) && all == PlusAll(n, CountAll(funcs, info, rest))
      {
        var fn := order[i];
        PlusAllStep(n, funcs, info, rest);
        rest := rest[1..];
        var c := FunctionUnknowns(fn);
        if c.Err? {
          return Err(c.message);
        }
        n := n + c.value;
        i := i + 1;
      }
      r := Ok(n);
    }

    /** `jik_classify_region_safe_functions`: rounds that remove unsafe functions until
        nothing changes. */
    method Classify() returns (rounds: nat)
      requires Valid() && safe == Elements(order)
      modifies `safe
      ensures Valid()
      ensures Greatest(funcs, info, old(safe), safe)
      ensures rounds <= |order| + 1
    {
      var changed := true;
      rounds := 0;
      ElementsSize(order);
      while changed
        invariant safe <= old(safe) && (!changed ==> SelfSafe(funcs, info, safe))
        invariant forall other :: other <= old(safe) && SelfSafe(funcs, info, other) ==> other <= safe
        invariant rounds + |safe| <= |order| + if changed then 0 else 1
        decreases |safe| + if changed then 1 else 0
      {
        ghost var before := safe;
        changed := false;
        var i := 0;
        while i < |order|
          invariant 0 <= i <= |order| && safe <= before
          invariant forall other :: other <= old(safe) && SelfSafe(funcs, info, other) ==> other <= safe
          invariant changed ==> |safe| < |before|
          invariant !changed ==> safe == before
          invariant !changed ==> forall k :: 0 <= k < i && order[k] in safe ==>
            SafeBody(funcs, safe, info[order[k]], funcs[order[k]].body)
        {
          var fn := order[i];
          if fn in safe {
            var ok := BodySafe(fn);
            if !ok {
              RemovalIsForced(funcs, info, safe, fn);
              SubsetSize(safe, before);
              safe := safe - {fn};
              changed := true;
            }
          }
          i := i + 1;
        }
        rounds := rounds + 1;
      }
    }

    /** `is_region_safe_function`. */
    method BodySafe(fn: Name) returns (ok: bool)
      requires Valid() && fn in funcs
      ensures ok == SafeBody(funcs, safe, info[fn], funcs[fn].body)
    {
      var nodes := NodesB(funcs[fn].body);
      var i := 0;
      while i < |nodes|
        invariant 0 <= i <= |nodes|
        invariant forall k :: 0 <= k < i ==> SafeNode(funcs, safe, info[fn], nodes[k])
      {
        if !SafeNode(funcs, safe, info[fn], nodes[i]) {
          assert nodes[i] in nodes;
          return false;
        }
        i := i + 1;
      }
      ok := true;
    }

    /** The inference loop: integrity passes while the number of unknown specs falls. */
    method InferSpecs() returns (r: Result<()>)
      requires Valid()
      modifies `info
      ensures Valid()
      ensures
        var out := InferAll(funcs, safe, order, old(info), SIZE_MAX);
        if r.Ok? then out == Ok(info) else out == Err(r.message)
    {
      var unknown: nat, previous: nat := 0, SIZE_MAX;
      while unknown < previous
        invariant Valid()
        invariant unknown < previous ==>
          InferAll(funcs, safe, order, old(info), SIZE_MAX) == InferAll(funcs, safe, order, info, previous)
        invariant unknown >= previous ==>
          InferAll(funcs, safe, order, old(info), SIZE_MAX) == if unknown == 0 then Ok(info) else Err(UNINFERRED)
        decreases previous, if unknown < previous then 1 else 0
      {
        r := IntegrityPass();
        if r.Err? {
          return;
        }
        var n := CollectUnknowns();
        if n.Err? {
          return Err(n.message);
        }
        unknown := n.value;
        if n.value == previous {
          break;
        } else if n.value < previous {
          previous, unknown := n.value, 0;
        }
      }
      if unknown > 0 {
        return Err(UNINFERRED);
      }
      r := Ok(());
    }

    /** `jik_post_check_region_integrity`. */
    method PostPass() returns (r: Result<()>)
      requires Valid()
      ensures r.Ok? <==> PostAll(funcs, safe, info)
    {
      var i := 0;
      while i < |order|
        invariant 0 <= i <= |order|
        invariant forall k :: 0 <= k < i ==>
          forall nd :: nd in NodesB(funcs[order[k]].body) ==> PostCheck(funcs, safe, info[order[k]], nd)
      {
        var nodes := NodesB(funcs[order[i]].body);
        var j := 0;
        while j < |nodes|
          invariant 0 <= j <= |nodes|
          invariant forall k :: 0 <= k < j ==> PostCheck(funcs, safe, info[order[i]], nodes[k])
        {
          if !PostCheck(funcs, safe, info[order[i]], nodes[j]) {
            assert nodes[j] in nodes && order[i] in funcs;
            return Err("values should belong to same region");
          }
          j := j + 1;
        }
        i := i + 1;
      }
      r := Ok(());
    }

    /** `jik_check_regions`: one pass, the classification on its result, the inference
        loop and the post-check. */
    method CheckRegions() returns (r: Result<()>, ghost first: map<Name, Specs>)
      requires Valid() && safe == Elements(order)
      modifies `info, `safe
      ensures Valid()
      ensures r.Ok? ==> Driven(funcs, order, old(info), first, safe, info)
      ensures r.Err? ==> forall f, s, g :: !Driven(funcs, order, old(info), f, s, g)
    {
      first := info;
      r := IntegrityPass();
      if r.Err? {
        return;
      }
      first := info;
      var rounds := Classify();
      forall f, s, g | Driven(funcs, order, old(info), f, s, g)
        ensures f == first && s == safe
      {
        GreatestUnique(funcs, first, Elements(order), s, safe);
      }
      r := InferSpecs();
      if r.Err? {
        return;
      }
      r := PostPass();
    }
  }

  /** The history of an accepted program: the first pass takes every function for safe, its
      result `first` is classified, the inference loop ends in `last`, and the post-check
      accepts that. */
  ghost predicate Driven(funcs: Funcs, order: seq<Name>, start: map<Name, Specs>, first: map<Name, Specs>, safe: set<Name>, last: map<Name, Specs>) {
    && Listed(funcs, start, order)
    && PassAll(funcs, Elements(order), start, order) == Ok(first)
    && Greatest(funcs, first, Elements(order), safe)
    && InferAll(funcs, safe, order, first, SIZE_MAX) == Ok(last)
    && PostAll(funcs, safe, last)
  }

  ghost predicate PostAll(funcs: Funcs, safe: set<Name>, info: map<Name, Specs>) {
    forall fn :: fn in funcs ==> fn in info && forall nd :: nd in NodesB(funcs[fn].body) ==> PostCheck(funcs, safe, info[fn], nd)
  }

  // ----- counters of the loops -----

  function Plus(n: nat, r: Result<(nat, Specs)>): Result<(nat, Specs)> {
    if r.Ok? then Ok((n + r.value.0, r.value.1)) else r
  }

  function PlusAll(n: nat, r: Result<(nat, map<Name, Specs>)>): Result<(nat, map<Name, Specs>)> {
    if r.Ok? then Ok((n + r.value.0, r.value.1)) else r
  }

  lemma PlusAllStep(n: nat, funcs: Funcs, info: map<Name, Specs>, order: seq<Name>)
    requires order != [] && Listed(funcs, info, order)
    ensures
      PlusAll(n, CountAll(funcs, info, order)) ==
        match BodyUnknowns(funcs, info, order[0])
        case Err(m) => Err(m)
        case Ok((k, S)) => PlusAll(n + k, CountAll(funcs, info[order[0] := S], order[1..]))
  {
  }

  lemma PlusStep(n: nat, S: Specs, nodes: seq<Node>)
    requires nodes != [] && nodes[0].ExprNode? && HasAllocSpec(nodes[0].e) && GetSpec(S, nodes[0].e).Ok?
    ensures
      var (s, S1) := GetSpec(S, nodes[0].e).value;
      Plus(n, Unknowns(S, nodes)) == Plus(if Complete(s) then n else n + 1, Unknowns(S1, nodes[1..]))
  {
  }
}
