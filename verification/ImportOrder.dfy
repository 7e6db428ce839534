/** Module discovery and the order in which modules are merged into one token stream. */
module ImportOrder {
  import opened Collections
  import opened Results
  import opened Graphs

  type Path = string
  type Token = string

  /** A module file: the resolved paths it uses, and its tokens. */
  datatype Source = Source(uses: seq<Path>, tokens: seq<Token>)

  type Disk = map<Path, Source>

  const CYCLE := "module import cycle detected"

  /** A module that can be loaded: it exists, is not empty and uses no module twice. */
  predicate Readable(disk: Disk, p: Path) {
    p in disk && disk[p].tokens != [] && Distinct(disk[p].uses)
  }

  function Imports(disk: Disk): Graph {
    map p | p in disk :: Elements(disk[p].uses)
  }

  predicate IsLeaf(disk: Disk, p: Path) {
    p in disk && disk[p].uses == []
  }

  /** The leaves, or the other modules, in the given order. */
  function Only(disk: Disk, leaf: bool, ps: seq<Path>): seq<Path> {
    if ps == [] then []
    else
      var last := ps[|ps| - 1];
      Only(disk, leaf, ps[..|ps| - 1]) + if IsLeaf(disk, last) == leaf then [last] else []
  }

  lemma {:induction false} OnlyElements(disk: Disk, leaf: bool, ps: seq<Path>)
    ensures forall p :: p in Only(disk, leaf, ps) <==> p in ps && IsLeaf(disk, p) == leaf
    ensures Distinct(ps) ==> Distinct(Only(disk, leaf, ps))
  {
    if ps != [] {
      OnlyElements(disk, leaf, ps[..|ps| - 1]);
      assert ps == ps[..|ps| - 1] + [ps[|ps| - 1]];
    }
  }

  lemma {:induction false} OnlySizes(disk: Disk, ps: seq<Path>)
    ensures |Only(disk, true, ps)| + |Only(disk, false, ps)| == |ps|
  {
    if ps != [] {
      OnlySizes(disk, ps[..|ps| - 1]);
    }
  }

  lemma OnlyAppend(disk: Disk, leaf: bool, ps: seq<Path>, p: Path)
    ensures Only(disk, leaf, ps + [p]) == Only(disk, leaf, ps) + if IsLeaf(disk, p) == leaf then [p] else []
  {
    assert (ps + [p])[..|ps|] == ps;
  }

  /** The token stream of modules in order. */
  function Merged(disk: Disk, order: seq<Path>): seq<Token>
    requires forall p :: p in order ==> p in disk
  {
    if order == [] then []
    else Merged(disk, order[..|order| - 1]) + disk[order[|order| - 1]].tokens
  }

  lemma MergedAppend(disk: Disk, order: seq<Path>, p: Path)
    requires p in disk && forall q :: q in order ==> q in disk
    ensures Merged(disk, order + [p]) == Merged(disk, order) + disk[p].tokens
  {
    assert (order + [p])[..|order|] == order;
  }

  class Loader {
    const disk: Disk
    var modules: seq<Path>
    var leaves: seq<Path>
    var branches: seq<Path>
    var tokens: seq<Token>

    constructor (disk: Disk)
      ensures this.disk == disk && modules == [] && leaves == [] && branches == [] && tokens == []
    {
      this.disk := disk;
      modules, leaves, branches, tokens := [], [], [], [];
    }

    /** `jik_compiler_get_usages`. */
    method GetUsages(p: Path) returns (r: Result<seq<Path>>)
      ensures r.Ok? <==> Readable(disk, p)
      ensures r.Ok? ==> r.value == disk[p].uses
    {
      if p !in disk {
        return Err("file not found");
      }
      if disk[p].tokens == [] {
        return Err("empty module cannot be compiled");
      }
      var seen: set<Path> := {};
      var usages: seq<Path> := [];
      var uses := disk[p].uses;
      for i := 0 to |uses|
        invariant usages == uses[..i] && seen == Elements(usages) && Distinct(usages)
      {
        if uses[i] in seen {
          var j :| 0 <= j < i && uses[j] == uses[i];
          return Err("reuse of module");
        }
        seen := seen + {uses[i]};
        usages := usages + [uses[i]];
      }
      assert usages == uses;
      r := Ok(usages);
    }

    /** What discovery leaves behind. */
    ghost predicate Discovered()
      reads this
    {
      && modules != [] && Distinct(modules) && ClosedUnder(Imports(disk), Elements(modules))
      && (forall p :: p in modules ==> p in disk)
      && leaves == Only(disk, true, modules) && branches == Only(disk, false, modules)
      && tokens == []
    }

    ghost predicate Listed(seen: set<Path>)
      reads this
    {
      && seen == Elements(modules) && seen <= disk.Keys && Distinct(modules) && tokens == []
      && leaves == Only(disk, true, modules) && branches == Only(disk, false, modules)
    }

    /** Loads one module and files it under leaves or branches. */
    method Visit(current: Path, ghost seen: set<Path>) returns (r: Result<seq<Path>>)
      requires Listed(seen) && current !in seen
      modifies this
      ensures r.Ok? <==> Readable(disk, current)
      ensures r.Ok? ==> r.value == disk[current].uses && modules == old(modules) + [current] && Listed(seen + {current})
    {
      r := GetUsages(current);
      if r.Ok? {
        OnlyAppend(disk, true, modules, current);
        OnlyAppend(disk, false, modules, current);
        assert Elements(modules + [current]) == seen + {current};
        modules := modules + [current];
        if r.value == [] {
          leaves := leaves + [current];
        } else {
          branches := branches + [current];
        }
      }
    }

    /** Everything seen or waiting is reachable, and every import of a seen module is one of them. */
    ghost predicate Frontier(input: Path, seen: set<Path>, unprocessed: seq<Path>) {
      && (forall p :: p in seen ==> Readable(disk, p))
      && (forall p :: p in seen || p in unprocessed ==> Reaches(Imports(disk), input, p))
      && (input in seen || input in unprocessed)
      && (forall p, q :: p in seen && Edge(Imports(disk), p, q) ==> q in seen || q in unprocessed)
    }

    lemma FrontierStep(input: Path, seen: set<Path>, rest: seq<Path>, current: Path)
      requires Frontier(input, seen, rest + [current]) && Readable(disk, current)
      ensures Frontier(input, seen + {current}, rest + disk[current].uses)
    {
      forall q | q in disk[current].uses
        ensures Reaches(Imports(disk), input, q)
      {
        assert current in rest + [current];
        assert Edge(Imports(disk), current, q);
        ReachesStep(Imports(disk), input, current, q);
      }
    }

    /** `jik_compiler_tokenize_modules`: a stack of paths still to visit. Succeeds exactly
        when every reachable module can be loaded, and then lists each of them once. */
    method Discover(input: Path) returns (r: Result<()>)
      requires modules == [] && leaves == [] && branches == [] && tokens == []
      modifies this
      ensures r.Ok? <==> forall p :: Reaches(Imports(disk), input, p) ==> Readable(disk, p)
      ensures r.Ok? ==> Discovered() && forall p :: p in modules <==> Reaches(Imports(disk), input, p)
    {
      var unprocessed := [input];
      var seen: set<Path> := {};
      assert ReachIn(Imports(disk), input, input, 0);
      while unprocessed != []
        invariant Listed(seen) && Frontier(input, seen, unprocessed)
        decreases disk.Keys - seen, |unprocessed|
      {
        var current := unprocessed[|unprocessed| - 1];
        assert unprocessed == unprocessed[..|unprocessed| - 1] + [current];
        unprocessed := unprocessed[..|unprocessed| - 1];
        if current in seen {
          continue;
        }
        var usages := Visit(current, seen);
        if usages.Err? {
          return Err(usages.message);
        }
        FrontierStep(input, seen, unprocessed, current);
        seen := seen + {current};
        unprocessed := unprocessed + usages.value;
      }
      AllReached(input);
      r := Ok(());
    }

    lemma AllReached(input: Path)
      requires input in modules && ClosedUnder(Imports(disk), Elements(modules))
      ensures forall p :: Reaches(Imports(disk), input, p) ==> p in modules
    {
      forall p | Reaches(Imports(disk), input, p)
        ensures p in modules
      {
        var n: nat :| ReachIn(Imports(disk), input, p, n);
        ClosedReach(Imports(disk), Elements(modules), input, p, n);
      }
    }

    /** `jik_compiler_can_process_module`. */
    method CanProcess(p: Path, processed: set<Path>) returns (res: bool)
      requires p in disk
      ensures res <==> Elements(disk[p].uses) <= processed
    {
      res := true;
      for i := 0 to |disk[p].uses|
        invariant res <==> forall j :: 0 <= j < i ==> disk[p].uses[j] in processed
      {
        if disk[p].uses[i] !in processed {
          res := false;
        }
      }
    }

    /** `jik_compiler_import_cycle_error`. */
    method CycleError(mods: seq<Path>, processed: set<Path>) returns (message: string)
      ensures message == CYCLE <==> exists p :: p in mods && p !in processed
    {
      var found := false;
      for i := 0 to |mods|
        invariant found <==> exists j :: 0 <= j < i && mods[j] !in processed
      {
        if mods[i] !in processed {
          found := true;
        }
      }
      message := if found then CYCLE else "internal error: unresolved module ordering";
    }

    /** Modules still waiting when nothing can be processed wait for one another. */
    lemma StuckIsCyclic(order: seq<Path>) returns (w: Path)
      requires Distinct(modules) && ClosedUnder(Imports(disk), Elements(modules)) && (forall p :: p in modules ==> p in disk)
      requires Distinct(order) && (forall p :: p in order ==> p in modules) && |order| < |modules|
      requires forall p :: p in modules && p !in order ==> !(Elements(disk[p].uses) <= Elements(order))
      ensures w in modules && w !in order && Leads(Imports(disk), w, w)
    {
      var waiting := Elements(modules) - Elements(order);
      ElementsSize(modules);
      ElementsSize(order);
      assert Elements(order) <= Elements(modules);
      DifferenceSize(Elements(order), Elements(modules));
      assert waiting != {};
      forall x {:trigger EdgeInto(Imports(disk), waiting, x)} | x in waiting
        ensures EdgeInto(Imports(disk), waiting, x)
      {
        var y :| y in Elements(disk[x].uses) && y !in Elements(order);
        assert Edge(Imports(disk), x, y);
      }
      w := NoSinkHasCycle(Imports(disk), waiting);
    }

    ghost predicate Merging(order: seq<Path>, processed: set<Path>)
      reads `modules, `tokens
    {
      && Distinct(order) && processed == Elements(order) && (forall p :: p in order ==> p in modules && p in disk)
      && Ordered(Imports(disk), order) && tokens == Merged(disk, order)
    }

    /** Appends one module whose imports were all merged before. */
    method Emit(p: Path, ghost order: seq<Path>, processed: set<Path>)
      requires Merging(order, processed) && p in modules && p in disk && p !in order && Elements(disk[p].uses) <= processed
      modifies this`tokens
      ensures Merging(order + [p], processed + {p})
    {
      OrderedAppend(Imports(disk), order, p);
      MergedAppend(disk, order, p);
      tokens := tokens + disk[p].tokens;
    }

    lemma BeforeLeaves()
      requires Discovered()
      ensures Merging([], {}) && Distinct(leaves)
      ensures forall p :: p in leaves ==> p in modules && p in disk && Elements(disk[p].uses) <= {}
    {
      OnlyElements(disk, true, modules);
    }

    /** The leaves import nothing, so they can be merged in any order: last found first. */
    method MergeLeaves() returns (processed: set<Path>, ghost order: seq<Path>)
      requires Discovered()
      modifies this`leaves, this`tokens
      ensures Merging(order, processed) && |order| == |old(leaves)| && forall p :: p in order <==> p in old(leaves)
    {
      hide Merging, Discovered;
      ghost var allLeaves := leaves;
      BeforeLeaves();
      order := [];
      processed := {};
      while |leaves| > 0
        invariant Merging(order, processed)
        invariant |leaves| <= |allLeaves| && leaves == allLeaves[..|leaves|] && |order| + |leaves| == |allLeaves|
        invariant forall p :: p in allLeaves <==> p in order || p in leaves
        invariant forall p :: p in leaves ==> p !in order
      {
        var current := leaves[|leaves| - 1];
        assert current in allLeaves && current in leaves;
        assert leaves == leaves[..|leaves| - 1] + [current];
        leaves := leaves[..|leaves| - 1];
        Emit(current, order, processed);
        order := order + [current];
        processed := processed + {current};
      }
    }

    /** One round over the branches; without progress, each one left waits for another. */
    method MergeRound(before: set<Path>, ghost order0: seq<Path>) returns (done: nat, processed: set<Path>, ghost order: seq<Path>)
      requires Merging(order0, before) && forall p :: p in branches ==> p in modules && p in disk
      modifies this`tokens
      ensures Merging(order, processed) && order0 <= order && |order| == |order0| + done
      ensures done == 0 ==> forall p :: p in branches && p !in order ==> !(Elements(disk[p].uses) <= processed)
    {
      done, processed, order := 0, before, order0;
      for j := 0 to |branches|
        invariant Merging(order, processed) && order0 <= order && |order| == |order0| + done
        invariant done == 0 ==> forall k :: 0 <= k < j && branches[k] !in order ==> !(Elements(disk[branches[k]].uses) <= processed)
      {
        var mod := branches[j];
        if mod in processed {
          continue;
        }
        var ready := CanProcess(mod, processed);
        if ready {
          Emit(mod, order, processed);
          order := order + [mod];
          processed := processed + {mod};
          done := done + 1;
        }
      }
    }

    /** `jik_compiler_merge_tokens`: leaves first, then rounds over the other modules. It
        reports a cycle exactly when a discovered module lies on one; otherwise every module
        is merged once, after everything it imports. */
    method Merge() returns (r: Result<()>, ghost order: seq<Path>)
      requires Discovered()
      modifies this`leaves, this`tokens
      ensures r.Ok? <==> forall p :: p in modules ==> !Leads(Imports(disk), p, p)
      ensures r.Err? ==> r.message == CYCLE
      ensures r.Ok? ==> Distinct(order) && Elements(order) == Elements(modules) && Ordered(Imports(disk), order)
      ensures r.Ok? ==> (forall p :: p in order ==> p in disk) && tokens == Merged(disk, order)
    {
      OnlyElements(disk, true, modules);
      OnlyElements(disk, false, modules);
      OnlySizes(disk, modules);
      ghost var leafCount := |leaves|;
      if |leaves| == 0 {
        var message := CycleError(branches, {});
        assert branches[0] in branches;
        forall p | p in modules
          ensures !(Elements(disk[p].uses) <= Elements([]))
        {
          assert p !in leaves;
          assert disk[p].uses[0] in Elements(disk[p].uses);
        }
        ghost var w := StuckIsCyclic([]);
        return Err(message), [];
      }
      var processed;
      processed, order := MergeLeaves();
      var i := 0;
      while i < |branches|
        invariant Merging(order, processed) && |order| == leafCount + i
        invariant forall p :: p in modules && IsLeaf(disk, p) ==> p in order
        decreases |branches| - i
      {
        var done;
        done, processed, order := MergeRound(processed, order);
        i := i + done;
        if done == 0 {
          ghost var w := StuckIsCyclic(order);
          var message := CycleError(branches, processed);
          return Err(message), order;
        }
      }
      Complete(order);
      r := Ok(());
    }

    lemma Complete(order: seq<Path>)
      requires Distinct(order) && Distinct(modules) && (forall p :: p in order ==> p in modules) && |order| >= |modules|
      requires Ordered(Imports(disk), order)
      ensures Elements(order) == Elements(modules)
      ensures forall p :: p in modules ==> !Leads(Imports(disk), p, p)
    {
      ElementsSize(modules);
      ElementsSize(order);
      SubsetSize(Elements(order), Elements(modules));
      forall p | p in modules
        ensures !Leads(Imports(disk), p, p)
      {
        assert p in Elements(order);
        var k :| 0 <= k < |order| && order[k] == p;
        OrderedIsAcyclic(Imports(disk), order, k);
      }
    }
  }
}
